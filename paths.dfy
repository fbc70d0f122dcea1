/**
 * Slash-separated path manipulation as the archiver uses it: Go's strings.Split,
 * strings.Join, strings.Contains and strings.HasPrefix, and path/filepath's Clean,
 * Join, Dir, Base, IsAbs, Abs and Rel on a Unix host (separator '/', no volume names).
 *
 * Clean is stated on segments: a path is split at every '/', the segments are folded
 * left to right onto a stack (empty and "." segments vanish, ".." pops the last name or,
 * in a relative path with nothing to pop, is kept), and the stack is rendered again.
 * This is the algorithm filepath.Clean runs over bytes.
 */
module Paths {
  import opened Outcomes

  const Separator: char := '/'

  predicate IsAbs(p: string) {
    |p| > 0 && p[0] == Separator
  }

  /** strings.Split(s, "/"): the pieces between separators, always at least one. */
  function Split(s: string): (r: seq<string>)
    ensures |r| >= 1
    ensures forall i :: 0 <= i < |r| ==> Separator !in r[i]
    decreases |s|
  {
    if s == [] then [""]
    else
      var rest := Split(s[1..]);
      if s[0] == Separator then [""] + rest
      else [[s[0]] + rest[0]] + rest[1..]
  }

  /** strings.Join(segs, "/") */
  function JoinSegs(segs: seq<string>): string
  {
    if |segs| == 0 then ""
    else if |segs| == 1 then segs[0]
    else segs[0] + "/" + JoinSegs(segs[1..])
  }

  lemma {:induction false} SplitAppend(a: string, b: string)
    ensures Split(a + "/" + b) == Split(a) + Split(b)
    decreases |a|
  {
    if a == [] {
      assert a + "/" + b == "/" + b;
      assert ("/" + b)[1..] == b;
    } else {
      assert (a + "/" + b)[1..] == a[1..] + "/" + b;
      SplitAppend(a[1..], b);
    }
  }

  lemma {:induction false} SplitWord(w: string)
    requires Separator !in w
    ensures Split(w) == [w]
    decreases |w|
  {
    if w != [] {
      SplitWord(w[1..]);
      assert [w[0]] + w[1..] == w;
    }
  }

  /** Splitting undoes joining, for segments that hold no separator. */
  lemma {:induction false} SplitJoin(segs: seq<string>)
    requires |segs| >= 1
    requires forall i :: 0 <= i < |segs| ==> Separator !in segs[i]
    ensures Split(JoinSegs(segs)) == segs
    decreases |segs|
  {
    if |segs| == 1 {
      SplitWord(segs[0]);
    } else {
      SplitWord(segs[0]);
      SplitJoin(segs[1..]);
      SplitAppend(segs[0], JoinSegs(segs[1..]));
      assert [segs[0]] + segs[1..] == segs;
    }
  }

  lemma {:induction false} JoinSegsAppend(a: seq<string>, b: seq<string>)
    requires |a| >= 1 && |b| >= 1
    ensures JoinSegs(a + b) == JoinSegs(a) + "/" + JoinSegs(b)
    decreases |a|
  {
    if |a| == 1 {
      assert (a + b)[1..] == b;
    } else {
      assert (a + b)[1..] == a[1..] + b;
      JoinSegsAppend(a[1..], b);
    }
  }

  lemma {:induction false} JoinSegsHead(segs: seq<string>)
    requires |segs| >= 1 && segs[0] != ""
    ensures |JoinSegs(segs)| > 0 && JoinSegs(segs)[0] == segs[0][0]
  {
  }

  /** A segment that names a directory entry: not empty, not "." or "..", no separator. */
  predicate IsName(s: string) {
    s != "" && s != "." && s != ".." && Separator !in s
  }

  predicate AllNames(segs: seq<string>) {
    forall i :: 0 <= i < |segs| ==> IsName(segs[i])
  }

  /**
   * The stacks that cleaning produces: names, preceded by a run of ".." in a
   * relative path; a rooted path holds no "..".
   */
  predicate Canonical(rooted: bool, st: seq<string>) {
    && (forall i :: 0 <= i < |st| ==> IsName(st[i]) || (!rooted && st[i] == ".."))
    && (forall i, j :: 0 <= i < j < |st| && st[j] == ".." ==> st[i] == "..")
  }

  /** One segment of filepath.Clean's fold. */
  function CleanStep(rooted: bool, st: seq<string>, seg: string): seq<string>
  {
    if seg == "" || seg == "." then st
    else if seg == ".." then
      if |st| > 0 && st[|st| - 1] != ".." then st[..|st| - 1]
      else if rooted then st
      else st + [".."]
    else st + [seg]
  }

  function Normalize(rooted: bool, st: seq<string>, segs: seq<string>): seq<string>
    decreases |segs|
  {
    if segs == [] then st
    else Normalize(rooted, CleanStep(rooted, st, segs[0]), segs[1..])
  }

  function Render(rooted: bool, st: seq<string>): string
  {
    if rooted then "/" + JoinSegs(st)
    else if st == [] then "."
    else JoinSegs(st)
  }

  /** filepath.Clean */
  function Clean(p: string): string
  {
    Render(IsAbs(p), Normalize(IsAbs(p), [], Split(p)))
  }

  lemma {:induction false} NormalizeAppend(rooted: bool, st: seq<string>, a: seq<string>, b: seq<string>)
    ensures Normalize(rooted, st, a + b) == Normalize(rooted, Normalize(rooted, st, a), b)
    decreases |a|
  {
    if a == [] {
      assert a + b == b;
    } else {
      assert (a + b)[0] == a[0];
      assert (a + b)[1..] == a[1..] + b;
      NormalizeAppend(rooted, CleanStep(rooted, st, a[0]), a[1..], b);
    }
  }

  /** Names are pushed as they are. */
  lemma {:induction false} NormalizeNames(rooted: bool, st: seq<string>, names: seq<string>)
    requires AllNames(names)
    ensures Normalize(rooted, st, names) == st + names
    decreases |names|
  {
    if names != [] {
      NormalizeNames(rooted, st + [names[0]], names[1..]);
      assert st + [names[0]] + names[1..] == st + names;
    }
  }

  function Repeat(s: string, n: nat): (r: seq<string>)
    ensures |r| == n
    ensures forall i :: 0 <= i < n ==> r[i] == s
  {
    if n == 0 then [] else [s] + Repeat(s, n - 1)
  }

  /** Each ".." removes one trailing name. */
  lemma {:induction false} NormalizePops(rooted: bool, st: seq<string>, names: seq<string>)
    requires AllNames(names)
    ensures Normalize(rooted, st + names, Repeat("..", |names|)) == st
    decreases |names|
  {
    if names != [] {
      var last := |names| - 1;
      assert (st + names)[|st + names| - 1] == names[last];
      assert (st + names)[..|st + names| - 1] == st + names[..last];
      NormalizePops(rooted, st, names[..last]);
    } else {
      assert st + names == st;
    }
  }

  lemma StepCanonical(rooted: bool, st: seq<string>, seg: string)
    requires Canonical(rooted, st) && Separator !in seg
    ensures Canonical(rooted, CleanStep(rooted, st, seg))
  {
    if seg == ".." && !(|st| > 0 && st[|st| - 1] != "..") && !rooted {
      assert forall i :: 0 <= i < |st| ==> st[i] == "..";
    }
  }

  lemma {:induction false} NormalizeCanonical(rooted: bool, st: seq<string>, segs: seq<string>)
    requires Canonical(rooted, st)
    requires forall i :: 0 <= i < |segs| ==> Separator !in segs[i]
    ensures Canonical(rooted, Normalize(rooted, st, segs))
    decreases |segs|
  {
    if segs != [] {
      StepCanonical(rooted, st, segs[0]);
      NormalizeCanonical(rooted, CleanStep(rooted, st, segs[0]), segs[1..]);
    }
  }

  /** A canonical stack is a fixed point of the fold. */
  lemma {:induction false} NormalizeCanonicalFixed(rooted: bool, a: seq<string>, b: seq<string>)
    requires Canonical(rooted, a + b)
    ensures Normalize(rooted, a, b) == a + b
    decreases |b|
  {
    if b != [] {
      assert (a + b)[|a|] == b[0];
      if b[0] == ".." {
        assert forall i :: 0 <= i < |a| ==> (a + b)[i] == a[i];
      }
      assert a + [b[0]] + b[1..] == a + b;
      NormalizeCanonicalFixed(rooted, a + [b[0]], b[1..]);
    }
  }

  /** A leading empty segment (from a leading separator) is dropped by the fold. */
  lemma SkipRoot(rooted: bool, rest: seq<string>)
    ensures Normalize(rooted, [], [""] + rest) == Normalize(rooted, [], rest)
  {
    assert ([""] + rest)[0] == "";
    assert ([""] + rest)[1..] == rest;
  }

  /** The stack of a cleaned path, read back from its text. */
  lemma RenderSplit(rooted: bool, st: seq<string>)
    requires Canonical(rooted, st)
    ensures IsAbs(Render(rooted, st)) == rooted
    ensures Normalize(rooted, [], Split(Render(rooted, st))) == st
  {
    assert [] + st == st;
    if rooted {
      var j := JoinSegs(st);
      assert "/" + j == "" + "/" + j;
      SplitAppend("", j);
      SkipRoot(rooted, Split(j));
      if st != [] {
        SplitJoin(st);
        NormalizeCanonicalFixed(rooted, [], st);
      } else {
        assert Split(j) == [""];
        SkipRoot(rooted, []);
      }
    } else if st == [] {
      SplitWord(".");
    } else {
      JoinSegsHead(st);
      SplitJoin(st);
      NormalizeCanonicalFixed(rooted, [], st);
    }
  }

  /** Every cleaned path is the rendering of a canonical stack. */
  lemma CleanCanonical(p: string)
    ensures Canonical(IsAbs(p), Normalize(IsAbs(p), [], Split(p)))
  {
    NormalizeCanonical(IsAbs(p), [], Split(p));
  }

  /** filepath.Clean is idempotent. */
  lemma CleanIdempotent(p: string)
    ensures Clean(Clean(p)) == Clean(p)
    ensures IsAbs(Clean(p)) == IsAbs(p)
  {
    CleanCanonical(p);
    RenderSplit(IsAbs(p), Normalize(IsAbs(p), [], Split(p)));
  }

  /** filepath.Join: the elements from the first non-empty one on, joined and cleaned. */
  function Join(elems: seq<string>): string
  {
    if elems == [] then ""
    else if elems[0] == "" then Join(elems[1..])
    else Clean(JoinSegs(elems))
  }

  lemma JoinTwo(a: string, b: string)
    requires a != ""
    ensures Join([a, b]) == Clean(a + "/" + b)
  {
    assert [a, b][1..] == [b];
    assert JoinSegs([a, b]) == a + "/" + JoinSegs([b]);
  }

  /** Index of the last separator in p, or -1. */
  function LastSeparator(p: string): (r: int)
    ensures -1 <= r < |p|
    ensures r >= 0 ==> p[r] == Separator
    ensures forall j :: r < j < |p| ==> p[j] != Separator
  {
    if p == [] then -1
    else if p[|p| - 1] == Separator then |p| - 1
    else LastSeparator(p[..|p| - 1])
  }

  function TrimTrailingSeparators(p: string): string
  {
    if p != [] && p[|p| - 1] == Separator then TrimTrailingSeparators(p[..|p| - 1]) else p
  }

  /** filepath.Dir: everything up to the last separator, cleaned. */
  function Dir(p: string): string
  {
    Clean(p[..LastSeparator(p) + 1])
  }

  /** filepath.Base: the last element, trailing separators removed. */
  function Base(p: string): string
  {
    if p == "" then "."
    else
      var t := TrimTrailingSeparators(p);
      var b := t[LastSeparator(t) + 1..];
      if b == "" then "/" else b
  }

  /** filepath.Abs: a relative path is joined onto the working directory; None when that is unknown. */
  function Abs(p: string, cwd: Option<string>): Option<string>
  {
    if IsAbs(p) then Some(Clean(p))
    else if cwd.None? then None
    else Some(Join([cwd.value, p]))
  }

  /** strings.Contains: sub occurs somewhere in s. */
  function Contains(s: string, sub: string): bool
    decreases |s|
  {
    sub <= s || (s != [] && Contains(s[1..], sub))
  }

  /** The segments of a cleaned path, without the leading root. */
  function Segs(c: string): seq<string>
  {
    if c == "/" then [] else if IsAbs(c) then Split(c[1..]) else Split(c)
  }

  /** Length of the longest common prefix of a and b. */
  function CommonPrefix(a: seq<string>, b: seq<string>): (k: nat)
    ensures k <= |a| && k <= |b| && a[..k] == b[..k]
    ensures k < |a| && k < |b| ==> a[k] != b[k]
  {
    if a == [] || b == [] || a[0] != b[0] then 0
    else
      var k' := CommonPrefix(a[1..], b[1..]);
      assert a[..k' + 1] == [a[0]] + a[1..][..k'];
      assert b[..k' + 1] == [b[0]] + b[1..][..k'];
      k' + 1
  }

  /**
   * filepath.Rel: a relative path that leads from basepath to targpath, or None
   * when one is rooted and the other is not, or when basepath would have to be
   * climbed out of through a "..".
   */
  function Rel(basepath: string, targpath: string): Option<string>
  {
    var base := Clean(basepath);
    var targ := Clean(targpath);
    if targ == base then Some(".")
    else if IsAbs(base) != IsAbs(targ) then None
    else
      var bs := if base == "." then [] else Segs(base);
      var ts := Segs(targ);
      var k := CommonPrefix(bs, ts);
      if k < |bs| && bs[k] == ".." then None
      else Some(JoinSegs(Repeat("..", |bs| - k) + ts[k..]))
  }

  /** Segments of a rooted canonical rendering. */
  lemma SegsRooted(st: seq<string>)
    requires Canonical(true, st)
    ensures Segs(Render(true, st)) == st
  {
    if st != [] {
      JoinSegsHead(st);
      assert ("/" + JoinSegs(st))[1..] == JoinSegs(st);
      SplitJoin(st);
    }
  }

  lemma AllNamesFrom(st: seq<string>, k: nat)
    requires Canonical(true, st) && k <= |st|
    ensures AllNames(st[k..])
  {
    forall i | 0 <= i < |st[k..]| ensures IsName(st[k..][i]) {
      assert st[k..][i] == st[k + i];
    }
  }

  /** The segment list Rel renders for two different rooted stacks. */
  function RelSegs(b: seq<string>, t: seq<string>): seq<string>
  {
    var k := CommonPrefix(b, t);
    Repeat("..", |b| - k) + t[k..]
  }

  lemma RelSegsShape(b: seq<string>, t: seq<string>)
    requires Canonical(true, b) && Canonical(true, t) && b != t
    ensures |RelSegs(b, t)| >= 1
    ensures !IsAbs(JoinSegs(RelSegs(b, t)))
    ensures Split(JoinSegs(RelSegs(b, t))) == RelSegs(b, t)
  {
    var k := CommonPrefix(b, t);
    var d := Repeat("..", |b| - k);
    var l := d + t[k..];
    assert l[0] != "" && Separator !in l[0];
    JoinSegsHead(l);
    forall i | 0 <= i < |l| ensures Separator !in l[i] {
      if i >= |d| { assert l[i] == t[k + i - |d|]; }
    }
    SplitJoin(l);
  }

  /** Climbing out of up with ".." and descending into down leads from pre + up to pre + down. */
  lemma ClimbDescend(rooted: bool, pre: seq<string>, up: seq<string>, down: seq<string>)
    requires AllNames(up) && AllNames(down)
    ensures Normalize(rooted, pre + up, Repeat("..", |up|) + down) == pre + down
  {
    NormalizeAppend(rooted, pre + up, Repeat("..", |up|), down);
    NormalizePops(rooted, pre, up);
    NormalizeNames(rooted, pre, down);
  }

  lemma SharedSplit(a: seq<string>, b: seq<string>, k: nat)
    requires k <= |a| && k <= |b| && a[..k] == b[..k]
    ensures a == b[..k] + a[k..]
  {
    assert a == a[..k] + a[k..];
  }

  /** Folding the relative segments onto the base stack gives the target stack. */
  lemma RelSegsReach(b: seq<string>, t: seq<string>)
    requires Canonical(true, b) && Canonical(true, t)
    ensures Normalize(true, b, RelSegs(b, t)) == t
  {
    var k := CommonPrefix(b, t);
    AllNamesFrom(b, k);
    AllNamesFrom(t, k);
    SharedSplit(b, t, k);
    SharedSplit(t, t, k);
    ClimbDescend(true, t[..k], b[k..], t[k..]);
  }

  /**
   * For two rooted paths, Rel succeeds with a relative path, and joining that
   * path back onto the base reaches the (cleaned) target.
   */
  lemma RelJoin(base: string, targ: string)
    requires IsAbs(base) && Clean(base) == base
    requires IsAbs(targ) && Clean(targ) == targ
    ensures Rel(base, targ).Some?
    ensures !IsAbs(Rel(base, targ).value)
    ensures Join([base, Rel(base, targ).value]) == targ
  {
    var b := Normalize(true, [], Split(base));
    var t := Normalize(true, [], Split(targ));
    CleanCanonical(base);
    CleanCanonical(targ);
    assert base == Render(true, b);
    assert targ == Render(true, t);
    var r: string;
    if targ == base {
      r := ".";
      assert Rel(base, targ) == Some(r);
      SplitWord(r);
    } else {
      SegsRooted(b);
      SegsRooted(t);
      var k := CommonPrefix(b, t);
      assert !(k < |b| && b[k] == "..");
      r := JoinSegs(RelSegs(b, t));
      assert Rel(base, targ) == Some(r);
      RelSegsShape(b, t);
      RelSegsReach(b, t);
    }
    JoinTwo(base, r);
    SplitAppend(base, r);
    NormalizeAppend(true, [], Split(base), Split(r));
  }

  /** A relative path made of names is already clean. */
  lemma CleanNames(names: seq<string>)
    requires |names| >= 1 && AllNames(names)
    ensures !IsAbs(JoinSegs(names))
    ensures Clean(JoinSegs(names)) == JoinSegs(names)
  {
    JoinSegsHead(names);
    assert forall i :: 0 <= i < |names| ==> Separator !in names[i];
    SplitJoin(names);
    NormalizeNames(false, [], names);
    assert [] + names == names;
  }

  /** The last separator of a + "/" + w, when w holds none, is the one before w. */
  lemma {:induction false} LastSeparatorBefore(a: string, w: string)
    requires Separator !in w
    ensures LastSeparator(a + "/" + w) == |a|
    decreases |w|
  {
    var p := a + "/" + w;
    if w != [] {
      assert p[|p| - 1] == w[|w| - 1];
      assert p[..|p| - 1] == a + "/" + w[..|w| - 1];
      LastSeparatorBefore(a, w[..|w| - 1]);
    }
  }

  /** The text of the directory dsegs names, "." for the start of the walk. */
  function DirText(dsegs: seq<string>): string {
    if dsegs == [] then "." else JoinSegs(dsegs)
  }

  /**
   * The path processDirectory builds for the entry name inside the directory dsegs:
   * the names joined by separators.
   */
  lemma ChildPath(dsegs: seq<string>, name: string)
    requires AllNames(dsegs) && IsName(name)
    ensures Join([DirText(dsegs), name]) == JoinSegs(dsegs + [name])
  {
    var dir := DirText(dsegs);
    JoinTwo(dir, name);
    SplitWord(name);
    if dsegs == [] {
      SplitWord(".");
      SplitAppend(".", name);
      assert Split(dir + "/" + name) == [".", name];
      assert Normalize(false, [], [".", name]) == Normalize(false, [], [name]);
      NormalizeNames(false, [], [name]);
      assert [] + dsegs + [name] == [name];
    } else {
      JoinSegsAppend(dsegs, [name]);
      assert forall i :: 0 <= i < |dsegs + [name]| ==> IsName((dsegs + [name])[i]);
      CleanNames(dsegs + [name]);
    }
  }

  /** The last element of a path of names is the last name. */
  lemma BaseOfNames(dsegs: seq<string>, name: string)
    requires IsName(name)
    ensures Base(JoinSegs(dsegs + [name])) == name
  {
    var p := JoinSegs(dsegs + [name]);
    if dsegs == [] {
      assert dsegs + [name] == [name];
      assert LastSeparator(p) == -1;
    } else {
      JoinSegsAppend(dsegs, [name]);
      LastSeparatorBefore(JoinSegs(dsegs), name);
      assert p[|JoinSegs(dsegs)| + 1..] == name;
    }
    assert TrimTrailingSeparators(p) == p;
  }

  /** An absolute path made of names is clean, and its segments are those names. */
  lemma RootedNames(names: seq<string>)
    requires AllNames(names)
    ensures Clean("/" + JoinSegs(names)) == "/" + JoinSegs(names)
    ensures Normalize(true, [], Split("/" + JoinSegs(names))) == names
    ensures Segs("/" + JoinSegs(names)) == names
  {
    assert Canonical(true, names);
    RenderSplit(true, names);
    SegsRooted(names);
  }

  /** strings.HasPrefix(name, "/") followed by name[1:]. */
  function StripLeadingSeparator(name: string): (r: string)
    ensures IsAbs(name) ==> [Separator] + r == name
    ensures !IsAbs(name) ==> r == name
  {
    if IsAbs(name) then name[1..] else name
  }
}
