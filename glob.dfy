/**
 * The part of Go's filepath.Match that exclusion patterns rely on: '*' matches any
 * run of non-separator characters, '?' one non-separator character, and every other
 * character matches itself.
 */
module Glob {
  import opened Paths

  function Match(pattern: string, name: string): bool
    decreases |pattern| + |name|
  {
    if pattern == [] then name == []
    else if pattern[0] == '*' then
      Match(pattern[1..], name) || (name != [] && name[0] != Separator && Match(pattern, name[1..]))
    else if name == [] then false
    else if pattern[0] == '?' then name[0] != Separator && Match(pattern[1..], name[1..])
    else pattern[0] == name[0] && Match(pattern[1..], name[1..])
  }

  /**
   * A pattern with none of the characters filepath.Match treats specially: the
   * wildcards, the opening of a character class and the escape.
   */
  predicate Literal(pattern: string) {
    '*' !in pattern && '?' !in pattern && '[' !in pattern && '\\' !in pattern
  }

  /** A pattern without wildcards matches exactly the name it spells. */
  lemma {:induction false} LiteralMatch(pattern: string, name: string)
    requires Literal(pattern)
    ensures Match(pattern, name) <==> pattern == name
    decreases |pattern|
  {
    if pattern != [] && name != [] {
      LiteralMatch(pattern[1..], name[1..]);
      assert pattern == [pattern[0]] + pattern[1..];
      assert name == [name[0]] + name[1..];
    }
  }

  predicate EndsWith(name: string, suffix: string) {
    |suffix| <= |name| && name[|name| - |suffix|..] == suffix
  }

  /** "*" followed by a literal suffix matches exactly the single-level names with that suffix. */
  lemma {:induction false} StarSuffix(suffix: string, name: string)
    requires Literal(suffix) && Separator !in name
    ensures Match("*" + suffix, name) <==> EndsWith(name, suffix)
    decreases |name|
  {
    var p := "*" + suffix;
    assert p[0] == '*' && p[1..] == suffix;
    LiteralMatch(suffix, name);
    if name != [] {
      StarSuffix(suffix, name[1..]);
      if |suffix| < |name| {
        assert name[|name| - |suffix|..] == name[1..][|name| - 1 - |suffix|..];
      }
    }
  }
}
