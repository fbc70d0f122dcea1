/**
 * What the archiver promises about the archives it writes: the names entries get,
 * which paths exclusion removes, how symlink targets are rewritten, the order of the
 * walk, the header policy, and that every hard link points at a file archived earlier.
 */
module TarLaws {
  import opened Outcomes
  import opened Paths
  import opened Glob
  import opened TarHelper

  // ----- Names -----

  lemma SkipDot(rooted: bool, st: seq<string>, rest: seq<string>)
    ensures Normalize(rooted, st, ["."] + rest) == Normalize(rooted, st, rest)
    ensures Normalize(rooted, st, [""] + rest) == Normalize(rooted, st, rest)
  {
    assert (["."] + rest)[1..] == rest;
    assert ([""] + rest)[1..] == rest;
  }

  /** The text of a relative path made of names; "." for none. */
  function PathText(segs: seq<string>): string {
    if segs == [] then "." else JoinSegs(segs)
  }

  /** The text of a VirtualPath made of names, with or without a leading separator. */
  function VirtualText(vsegs: seq<string>, rooted: bool): string {
    if rooted then "/" + JoinSegs(vsegs) else JoinSegs(vsegs)
  }

  lemma VirtualSegs(vsegs: seq<string>, rooted: bool)
    requires |vsegs| >= 1 && AllNames(vsegs)
    ensures Normalize(false, [], Split(VirtualText(vsegs, rooted))) == vsegs
  {
    assert forall i :: 0 <= i < |vsegs| ==> Separator !in vsegs[i];
    SplitJoin(vsegs);
    NormalizeNames(false, [], vsegs);
    assert [] + vsegs == vsegs;
    if rooted {
      assert VirtualText(vsegs, rooted) == "" + "/" + JoinSegs(vsegs);
      SplitAppend("", JoinSegs(vsegs));
      SplitWord("");
      SkipDot(false, [], vsegs);
    }
  }

  lemma EntrySegs(st: seq<string>, segs: seq<string>)
    requires AllNames(segs)
    ensures Normalize(false, st, Split("./" + PathText(segs))) == st + segs
  {
    var fullName := PathText(segs);
    SplitWord(".");
    assert "./" + fullName == "." + "/" + fullName;
    SplitAppend(".", fullName);
    if segs == [] {
      assert Split("./" + fullName) == [".", "."];
      SkipDot(false, st, ["."]);
      SkipDot(false, st, []);
      assert st + segs == st;
    } else {
      assert forall i :: 0 <= i < |segs| ==> Separator !in segs[i];
      SplitJoin(segs);
      SkipDot(false, st, segs);
      NormalizeNames(false, st, segs);
    }
  }

  lemma JoinThreeSegs(a: string, b: string, c: string)
    ensures Split(JoinSegs([a, b, c])) == Split(a) + Split(b) + Split(c)
  {
    assert [a, b, c][1..] == [b, c];
    assert [b, c][1..] == [c];
    assert JoinSegs([b, c]) == b + "/" + c;
    assert JoinSegs([a, b, c]) == a + "/" + JoinSegs([b, c]);
    SplitAppend(b, c);
    SplitAppend(a, b + "/" + c);
  }

  lemma DotJoin(vp: string, name: string)
    ensures !IsAbs(JoinSegs([".", vp, name]))
    ensures Split(JoinSegs([".", vp, name])) == ["."] + (Split(vp) + Split(name))
  {
    JoinThreeSegs(".", vp, name);
    SplitWord(".");
    JoinSegsHead([".", vp, name]);
  }

  /** Joining ".", a VirtualPath and an entry's "./" name is relative and cleans like the two in turn. */
  lemma VirtualJoin(vp: string, name: string)
    ensures !IsAbs(JoinSegs([".", vp, name]))
    ensures Normalize(false, [], Split(JoinSegs([".", vp, name])))
         == Normalize(false, Normalize(false, [], Split(vp)), Split(name))
  {
    DotJoin(vp, name);
    SkipDot(false, [], Split(vp) + Split(name));
    NormalizeAppend(false, [], Split(vp), Split(name));
  }

  lemma AllNamesAppend(a: seq<string>, b: seq<string>)
    requires AllNames(a) && AllNames(b)
    ensures AllNames(a + b)
  {
    forall i | 0 <= i < |a + b| ensures IsName((a + b)[i]) {
      if i >= |a| { assert (a + b)[i] == b[i - |a|]; }
      else { assert (a + b)[i] == a[i]; }
    }
  }

  /**
   * With a VirtualPath, the entry at the relative path segs is named VirtualPath's
   * names followed by segs, with neither the "./" prefix nor the VirtualPath's
   * leading separator: every name in the archive is relative.
   */
  lemma VirtualName(vsegs: seq<string>, rooted: bool, segs: seq<string>)
    requires |vsegs| >= 1 && AllNames(vsegs) && AllNames(segs)
    ensures EntryName(VirtualText(vsegs, rooted), PathText(segs)) == JoinSegs(vsegs + segs)
  {
    var vp := VirtualText(vsegs, rooted);
    var name := "./" + PathText(segs);
    VirtualJoin(vp, name);
    VirtualSegs(vsegs, rooted);
    EntrySegs(vsegs, segs);
    AllNamesAppend(vsegs, segs);
    CleanNames(vsegs + segs);
  }

  // ----- Exclusion -----

  /** A pattern added by ExcludePath is consulted beside the earlier ones. */
  lemma ExcludeAppend(patterns: seq<string>, p: string, name: string)
    ensures ShouldBeExcluded(patterns + [p], name)
        <==> ShouldBeExcluded(patterns, name) || Match(p, name) || Match(p, Base(name))
  {
    var ps := patterns + [p];
    assert ps[|patterns|] == p;
    if ShouldBeExcluded(patterns, name) {
      var i :| 0 <= i < |patterns| && (Match(patterns[i], name) || Match(patterns[i], Base(name)));
      assert ps[i] == patterns[i];
    }
    if ShouldBeExcluded(ps, name) && !Match(p, name) && !Match(p, Base(name)) {
      var i :| 0 <= i < |ps| && (Match(ps[i], name) || Match(ps[i], Base(name)));
      assert i < |patterns| && ps[i] == patterns[i];
    }
  }

  /**
   * ExcludePath(p) adds the matches of p without one leading separator, so "/build"
   * and "build" exclude the same paths.
   */
  lemma ExcludePathEffect(patterns: seq<string>, p: string, name: string)
    ensures var q := if |p| > 0 && p[0] == Separator then p[1..] else p;
            (ShouldBeExcluded(patterns + [StripLeadingSeparator(p)], name) <==>
               ShouldBeExcluded(patterns, name) || Match(q, name) || Match(q, Base(name)))
  {
    ExcludeAppend(patterns, StripLeadingSeparator(p), name);
  }

  /**
   * A pattern without wildcards that spells an entry's own name excludes it in
   * whichever directory it sits.
   */
  lemma ExcludedByName(patterns: seq<string>, dsegs: seq<string>, name: string)
    requires AllNames(dsegs) && IsName(name) && Literal(name)
    ensures ShouldBeExcluded(patterns + [name], Join([DirText(dsegs), name]))
  {
    ChildPath(dsegs, name);
    BaseOfNames(dsegs, name);
    var full := JoinSegs(dsegs + [name]);
    LiteralMatch(name, Base(full));
    ExcludeAppend(patterns, name, full);
  }

  // ----- Symlink targets -----

  lemma JoinRooted(elems: seq<string>)
    requires |elems| >= 1 && IsAbs(elems[0])
    ensures IsAbs(Join(elems)) && Clean(Join(elems)) == Join(elems)
  {
    JoinSegsHead(elems);
    CleanIdempotent(JoinSegs(elems));
  }

  /**
   * For an absolute target directory, a readable link always resolves (the working
   * directory is never consulted) to a clean absolute path l; when l's text contains
   * the target directory the stored name is relative and leads from the link's
   * directory back to l, otherwise l itself is stored.
   */
  lemma LinkNameResolves(targetDir: string, name: string, t: string, cwd: Option<string>)
    requires IsAbs(targetDir)
    ensures ResolvedTarget(targetDir, name, Some(t), cwd).Ok?
    ensures var l := ResolvedTarget(targetDir, name, Some(t), cwd).value;
            && IsAbs(l) && Clean(l) == l
            && (Contains(l, targetDir) ==>
                  var r := CleanLinkName(targetDir, name, Some(t), cwd);
                  r.Ok? && !IsAbs(r.value) && Join([Join([targetDir, Paths.Dir(name)]), r.value]) == l)
            && (!Contains(l, targetDir) ==> CleanLinkName(targetDir, name, Some(t), cwd) == Ok(l))
  {
    var l: string;
    if IsAbs(t) {
      l := Clean(t);
      CleanIdempotent(t);
    } else {
      var p := Join([targetDir, Paths.Dir(name), t]);
      JoinRooted([targetDir, Paths.Dir(name), t]);
      l := Clean(p);
    }
    assert ResolvedTarget(targetDir, name, Some(t), cwd) == Ok(l);
    if Contains(l, targetDir) {
      var base := Join([targetDir, Paths.Dir(name)]);
      JoinRooted([targetDir, Paths.Dir(name)]);
      RelJoin(base, l);
    }
  }

  /** The two paths of the example, as names under the root. */
  lemma SiblingPaths()
    ensures AllNames(["srv", "app"]) && "/srv/app" == "/" + JoinSegs(["srv", "app"])
    ensures AllNames(["srv", "app2", "x"]) && "/srv/app2/x" == "/" + JoinSegs(["srv", "app2", "x"])
  {
    assert JoinSegs(["srv", "app2", "x"]) == "srv/app2/x";
    assert JoinSegs(["srv", "app"]) == "srv/app";
  }

  lemma SiblingTarget()
    ensures ResolvedTarget("/srv/app", "l", Some("/srv/app2/x"), None) == Ok("/srv/app2/x")
    ensures Contains("/srv/app2/x", "/srv/app")
  {
    var l := "/srv/app2/x";
    SiblingPaths();
    RootedNames(["srv", "app2", "x"]);
    assert IsAbs(l) && Clean(l) == l;
    assert "/srv/app" <= l;
  }

  lemma SiblingBase()
    ensures Join(["/srv/app", Paths.Dir("l")]) == "/srv/app"
  {
    var base := "/srv/app";
    SiblingPaths();
    RootedNames(["srv", "app"]);
    assert Paths.Dir("l") == "." by {
      assert LastSeparator("l") == -1;
      assert Split("") == [""];
    }
    JoinTwo(base, ".");
    SplitAppend(base, ".");
    SplitWord(".");
    NormalizeAppend(true, [], Split(base), ["."]);
    SkipDot(true, ["srv", "app"], []);
  }

  /** "/srv/app" and "/srv/app2/x" share their first name only. */
  lemma SiblingCommon()
    ensures CommonPrefix(["srv", "app"], ["srv", "app2", "x"]) == 1
  {
    var bs, ts := ["srv", "app"], ["srv", "app2", "x"];
    assert bs[1..] == ["app"] && ts[1..] == ["app2", "x"];
    assert "app" != "app2";
    assert CommonPrefix(bs[1..], ts[1..]) == 0;
  }

  /** Between two rooted paths of names, Rel climbs out of what they do not share and descends into the target. */
  lemma RelRooted(bs: seq<string>, ts: seq<string>)
    requires AllNames(bs) && AllNames(ts) && bs != ts
    ensures Rel("/" + JoinSegs(bs), "/" + JoinSegs(ts)) == Some(JoinSegs(RelSegs(bs, ts)))
  {
    RootedNames(bs);
    RootedNames(ts);
    var base, targ := "/" + JoinSegs(bs), "/" + JoinSegs(ts);
    assert base[0] == Separator && targ[0] == Separator;
    var k := CommonPrefix(bs, ts);
    assert k < |bs| ==> IsName(bs[k]);
  }

  lemma SiblingRel()
    ensures Rel("/srv/app", "/srv/app2/x") == Some("../app2/x")
  {
    SiblingPaths();
    var bs, ts := ["srv", "app"], ["srv", "app2", "x"];
    RelRooted(bs, ts);
    SiblingCommon();
    assert RelSegs(bs, ts) == ["..", "app2", "x"] by {
      assert Repeat("..", 1) + ts[1..] == ["..", "app2", "x"];
    }
    assert JoinSegs(["..", "app2", "x"]) == "../app2/x";
  }

  /**
   * The containment test is on text: a link into a sibling directory whose name
   * begins with the target directory's name is stored relative as well.
   */
  lemma SiblingLinkMadeRelative()
    ensures CleanLinkName("/srv/app", "l", Some("/srv/app2/x"), None) == Ok("../app2/x")
  {
    SiblingTarget();
    SiblingBase();
    SiblingRel();
  }

  /** A text contains every piece of it. */
  lemma {:induction false} ContainsAt(s: string, sub: string, k: nat)
    requires k + |sub| <= |s| && s[k..k + |sub|] == sub
    ensures Contains(s, sub)
    decreases k
  {
    if k == 0 {
      assert s[..|sub|] == sub;
    } else {
      assert s[1..][k - 1..k - 1 + |sub|] == s[k..k + |sub|];
      ContainsAt(s[1..], sub, k - 1);
    }
  }

  /**
   * With a relative target directory, a link whose resolved target is absolute and
   * mentions the target directory cannot be made relative: Rel is asked for a path
   * from a relative base to an absolute one, and the link, hence the walk, fails.
   */
  lemma RelativeTargetDirFails(targetDir: string, name: string, t: string, cwd: Option<string>)
    requires targetDir != "" && !IsAbs(targetDir)
    requires ResolvedTarget(targetDir, name, Some(t), cwd).Ok?
    ensures var l := ResolvedTarget(targetDir, name, Some(t), cwd).value;
            IsAbs(l) && Contains(l, targetDir) ==>
              CleanLinkName(targetDir, name, Some(t), cwd) == Err(RelFailed(Join([targetDir, Paths.Dir(name)]), l))
  {
    var l := ResolvedTarget(targetDir, name, Some(t), cwd).value;
    var joined := JoinSegs([targetDir, Paths.Dir(name)]);
    JoinSegsHead([targetDir, Paths.Dir(name)]);
    CleanIdempotent(joined);
    CleanIdempotent(l);
  }

  lemma BuildDir()
    ensures Paths.Dir("a/l") == "a"
  {
    assert LastSeparator("a/l") == 1;
    assert "a/l"[..2] == "a" + "/" + "";
    SplitAppend("a", "");
    SplitWord("a");
    assert Split("") == [""];
    assert Normalize(false, [], ["a", ""]) == ["a"];
  }

  lemma BuildBase()
    ensures Join(["b", "a"]) == "b/a"
  {
    assert JoinSegs(["b", "a"]) == "b/a";
    CleanNames(["b", "a"]);
  }

  lemma BuildLink()
    ensures Join(["b", "a", "f"]) == "b/a/f"
  {
    assert JoinSegs(["b", "a", "f"]) == "b/a/f";
    CleanNames(["b", "a", "f"]);
  }

  lemma CleanRooted(p: string, names: seq<string>)
    requires AllNames(names) && p == "/" + JoinSegs(names)
    ensures Clean(p) == p
  {
    RootedNames(names);
  }

  lemma BuildResolved()
    ensures Join(["/u", "b/a/f"]) == "/u/b/a/f"
  {
    assert JoinSegs(["/u", "b/a/f"]) == "/u/b/a/f";
    assert JoinSegs(["u", "b", "a", "f"]) == "u/b/a/f";
    CleanRooted("/u/b/a/f", ["u", "b", "a", "f"]);
  }

  /** The example below: NewTar(w, "b") run from /u, with the symlink b/a/l -> f. */
  const ExampleTarget := "b"
  const ExampleLink := "a/l"
  const ExampleCwd := "/u"

  lemma BuildTarget()
    ensures ResolvedTarget(ExampleTarget, ExampleLink, Some("f"), Some(ExampleCwd)) == Ok("/u/b/a/f")
  {
    BuildDir();
    BuildLink();
    BuildResolved();
  }

  lemma RelFailsAt(targetDir: string, name: string, t: string, cwd: Option<string>, base: string, l: string)
    requires targetDir != "" && !IsAbs(targetDir)
    requires ResolvedTarget(targetDir, name, Some(t), cwd) == Ok(l)
    requires IsAbs(l) && Contains(l, targetDir) && Join([targetDir, Paths.Dir(name)]) == base
    ensures CleanLinkName(targetDir, name, Some(t), cwd) == Err(RelFailed(base, l))
  {
    RelativeTargetDirFails(targetDir, name, t, cwd);
  }

  lemma ExampleFacts()
    ensures ExampleTarget != "" && !IsAbs(ExampleTarget)
    ensures IsAbs("/u/b/a/f") && Contains("/u/b/a/f", ExampleTarget)
    ensures Join([ExampleTarget, Paths.Dir(ExampleLink)]) == "b/a"
  {
    BuildDir();
    BuildBase();
    ContainsAt("/u/b/a/f", ExampleTarget, 3);
  }

  /**
   * The link resolves to /u/b/a/f, whose text contains "b", and Rel from the
   * relative "b/a" to it fails.
   */
  lemma RelativeTargetExample()
    ensures CleanLinkName(ExampleTarget, ExampleLink, Some("f"), Some(ExampleCwd)) == Err(RelFailed("b/a", "/u/b/a/f"))
  {
    BuildTarget();
    ExampleFacts();
    RelFailsAt(ExampleTarget, ExampleLink, "f", Some(ExampleCwd), "b/a", "/u/b/a/f");
  }

  // ----- The walk: which entries get headers, and in what order -----

  /** An entry the walk writes a header for: the paths from the walk's start down to it, and its header name. */
  datatype Visit = Visit(chain: seq<string>, name: string)

  /**
   * The headers a walk that meets no failure writes, in order: nothing for an excluded
   * path (nor anything below it), a directory before its children in listing order,
   * one header for a file, symlink or device, nothing for a socket or other object.
   */
  function Visits(c: Config, fullName: string, n: Node): seq<Visit>
    decreases n, 1
  {
    if ShouldBeExcluded(c.excluded, fullName) then []
    else
      var name := EntryName(c.virtualPath, fullName);
      match n
      case Dir(_, _, listable, _) =>
        [Visit([fullName], name + "/")] + (if listable then Within(fullName, ChildVisits(c, fullName, n, 0)) else [])
      case Regular(_, _, _, _, _, _) => [Visit([fullName], name)]
      case Symlink(_, _, _) => [Visit([fullName], name)]
      case Device(_, _, _) => [Visit([fullName], name)]
      case Socket(_, _) => []
      case Other(_, _) => []
  }

  function ChildVisits(c: Config, dir: string, n: Node, i: nat): seq<Visit>
    requires n.Dir? && i <= |n.children|
    decreases n, 0, |n.children| - i
  {
    if i == |n.children| then []
    else Visits(c, Join([dir, n.children[i].name]), n.children[i]) + ChildVisits(c, dir, n, i + 1)
  }

  /** The visits below the directory p, seen from p's parent. */
  function Within(p: string, vs: seq<Visit>): (r: seq<Visit>)
    ensures |r| == |vs|
  {
    if vs == [] then [] else [Visit([p] + vs[0].chain, vs[0].name)] + Within(p, vs[1..])
  }

  function Labels(vs: seq<Visit>): (r: seq<string>)
    ensures |r| == |vs|
  {
    if vs == [] then [] else [vs[0].name] + Labels(vs[1..])
  }

  /** The names of the headers among the records, in order. */
  function HeaderNames(rs: seq<Record>): seq<string>
  {
    if rs == [] then []
    else (if rs[0].WroteHeader? then [rs[0].header.name] else []) + HeaderNames(rs[1..])
  }

  lemma {:induction false} HeaderNamesAppend(a: seq<Record>, b: seq<Record>)
    ensures HeaderNames(a + b) == HeaderNames(a) + HeaderNames(b)
    decreases |a|
  {
    if a != [] {
      assert (a + b)[0] == a[0];
      assert (a + b)[1..] == a[1..] + b;
      HeaderNamesAppend(a[1..], b);
    } else {
      assert a + b == b;
    }
  }

  lemma {:induction false} LabelsAppend(a: seq<Visit>, b: seq<Visit>)
    ensures Labels(a + b) == Labels(a) + Labels(b)
    decreases |a|
  {
    if a != [] {
      assert (a + b)[0] == a[0];
      assert (a + b)[1..] == a[1..] + b;
      LabelsAppend(a[1..], b);
    } else {
      assert a + b == b;
    }
  }

  lemma {:induction false} LabelsWithin(p: string, vs: seq<Visit>)
    ensures Labels(Within(p, vs)) == Labels(vs)
    decreases |vs|
  {
    if vs != [] {
      LabelsWithin(p, vs[1..]);
    }
  }

  /** What follows a prefix that ends in r is r and then the rest. */
  lemma AfterPrefix(xs: seq<Record>, pre: seq<Record>, r: Record)
    requires |pre| + 1 <= |xs| && xs[..|pre| + 1] == pre + [r]
    ensures xs[|pre|..] == [r] + xs[|pre| + 1..]
  {
    assert xs[|pre|] == (pre + [r])[|pre|];
  }

  /** The records added by two steps in a row, split at the first step's end. */
  lemma Chained(out: seq<Record>, mid: seq<Record>, fin: seq<Record>)
    requires |out| <= |mid| <= |fin| && fin[..|mid|] == mid
    ensures fin[|out|..] == mid[|out|..] + fin[|mid|..]
  {
    assert fin[|out|..] == fin[|out|..|mid|] + fin[|mid|..];
  }

  /** After out, s wrote a prefix of the planned header names, and all of them if it succeeded. */
  predicate WritesPlanned(s: Step, out: seq<Record>, planned: seq<string>) {
    && |out| <= |s.out|
    && HeaderNames(s.out[|out|..]) <= planned
    && (s.err.None? ==> HeaderNames(s.out[|out|..]) == planned)
  }

  /**
   * Headers of a step followed, when it succeeds, by a second one: each writes a
   * prefix of what it plans, all of it on success.
   * The hypotheses sit on the left of the ensures' implication rather than in requires:
   * the callers then need not establish them first, which keeps their proofs cheap.
   */
  lemma HeadersThen(out: seq<Record>, s1: Step, s: Step, here: seq<string>, rest: seq<string>)
    ensures WritesPlanned(s1, out, here) && s1.out[..|out|] == out &&
            (s1.err.Some? ==> s == s1) &&
            (s1.err.None? ==> WritesPlanned(s, s1.out, rest) && s.out[..|s1.out|] == s1.out)
            ==> WritesPlanned(s, out, here + rest)
  {
    if !(WritesPlanned(s1, out, here) && s1.out[..|out|] == out &&
         (s1.err.Some? ==> s == s1) &&
         (s1.err.None? ==> WritesPlanned(s, s1.out, rest) && s.out[..|s1.out|] == s1.out)) {
      return;
    }
    if s1.err.Some? {
      assert here <= here + rest;
    } else {
      Chained(out, s1.out, s.out);
      HeaderNamesAppend(s1.out[|out|..], s.out[|s1.out|..]);
      PrefixAppend(here, HeaderNames(s.out[|s1.out|..]), rest);
    }
  }

  lemma PrefixAppend(a: seq<string>, b: seq<string>, y: seq<string>)
    requires b <= y
    ensures a + b <= a + y
  {
    assert (a + y)[..|a + b|] == a + b;
  }

  /** Copying a file's content writes no header. */
  lemma CopyOrder(c: Config, path: string, data: Option<seq<Byte>>, links: map<nat, string>, out: seq<Record>)
    ensures HeaderNames(CopyContent(c, path, data, links, out).out[|out|..]) == []
  {
    var s := CopyContent(c, path, data, links, out);
    if data.Some? && Accepts(c, out) {
      var o1 := out + [WroteData(data.value)];
      if Accepts(c, o1) {
        assert s.out[|out|..] == [WroteData(data.value), Flushed];
        assert HeaderNames([Flushed][1..]) == [];
      } else {
        assert s.out[|out|..] == [WroteData(data.value)];
      }
      assert HeaderNames([WroteData(data.value)][1..]) == [];
    } else {
      assert s.out[|out|..] == [];
    }
  }

  /** The records a file's branch adds name its one header, unless it fails before writing it. */
  lemma RegularOrder(c: Config, fullName: string, name: string, mode: nat, uid: nat, gid: nat,
                     ino: nat, nlink: nat, size: nat, data: Option<seq<Byte>>,
                     links: map<nat, string>, out: seq<Record>)
    ensures var s := RegularStep(c, fullName, name, mode, uid, gid, ino, nlink, size, data, links, out);
            WritesPlanned(s, out, [name])
  {
    var s := RegularStep(c, fullName, name, mode, uid, gid, ino, nlink, size, data, links, out);
    var d := ResolveHardLink(links, ino, nlink, name, size);
    var r := WroteHeader(Header(name, d.typeflag, mode, uid, gid, d.size, d.linkname));
    if Accepts(c, out) {
      var o1 := out + [r];
      AfterPrefix(s.out, out, r);
      HeaderNamesAppend([r], s.out[|o1|..]);
      assert HeaderNames([r]) == [name] by {
        assert HeaderNames([r][1..]) == [];
      }
      if d.typeflag == TypeReg {
        CopyOrder(c, Join([c.target, fullName]), data, d.links, o1);
      } else {
        assert s.out[|o1|..] == [];
      }
    } else {
      assert s.out[|out|..] == [];
    }
  }

  lemma SymlinkOrder(c: Config, fullName: string, name: string, mode: nat, uid: nat, gid: nat,
                     target: Option<string>, links: map<nat, string>, out: seq<Record>)
    ensures var s := SymlinkStep(c, fullName, name, mode, uid, gid, target, links, out);
            WritesPlanned(s, out, [name])
  {
    var s := SymlinkStep(c, fullName, name, mode, uid, gid, target, links, out);
    var link := CleanLinkName(c.target, fullName, target, c.cwd);
    if link.Ok? && Accepts(c, out) {
      var h := WroteHeader(Header(name, TypeSymlink, mode, uid, gid, 0, link.value));
      assert s.out == out + [h];
      assert s.out[|out|..] == [h];
    } else {
      assert s.out[|out|..] == [];
    }
  }

  /**
   * processEntry writes the headers of Visits in order; it stops early only on an
   * error, so what it writes is always a prefix of them, and all of them on success.
   */
  lemma {:induction false} EntryOrder(c: Config, fullName: string, n: Node, links: map<nat, string>, out: seq<Record>)
    ensures var s := EntryStep(c, fullName, n, links, out);
            WritesPlanned(s, out, Labels(Visits(c, fullName, n)))
    decreases n, 3
  {
    var s := EntryStep(c, fullName, n, links, out);
    if ShouldBeExcluded(c.excluded, fullName) {
      assert s.out[|out|..] == [];
      return;
    }
    var name := EntryName(c.virtualPath, fullName);
    var uid := if c.includeOwners then n.meta.uid else DefaultOwner;
    var gid := if c.includeOwners then n.meta.gid else DefaultOwner;
    assert s == KindStep(c, fullName, n, name, uid, gid, links, out);
    match n
    case Dir(_, _, listable, _) =>
      DirEntryOrder(c, fullName, n, name, uid, gid, links, out);
      var below := if listable then Within(fullName, ChildVisits(c, fullName, n, 0)) else [];
      assert Visits(c, fullName, n) == [Visit([fullName], name + "/")] + below;
      LabelsAppend([Visit([fullName], name + "/")], below);
    case Symlink(_, meta, target) =>
      var mode := if c.includePermissions then meta.mode else DefaultDirMode;
      SymlinkOrder(c, fullName, name, mode, uid, gid, target, links, out);
    case Regular(_, meta, ino, nlink, size, data) =>
      var mode := if c.includePermissions then meta.mode else DefaultFileMode;
      RegularOrder(c, fullName, name, mode, uid, gid, ino, nlink, size, data, links, out);
    case Device(_, meta, isChar) =>
      var added := s.out[|out|..];
      if |added| > 0 {
        assert added[1..] == [];
      }
    case Socket(_, _) =>
      assert s.out[|out|..] == [];
    case Other(_, _) =>
      assert s.out[|out|..] == [];
  }

  /** A directory's header comes first, then the headers of the walk below it. */
  lemma {:induction false} DirEntryOrder(c: Config, fullName: string, n: Node, name: string, uid: nat, gid: nat,
                                         links: map<nat, string>, out: seq<Record>)
    requires n.Dir?
    ensures var s := KindStep(c, fullName, n, name, uid, gid, links, out);
            var below := if n.listable then Within(fullName, ChildVisits(c, fullName, n, 0)) else [];
            var planned := [name + "/"] + Labels(below);
            WritesPlanned(s, out, planned)
    decreases n, 2
  {
    var s := KindStep(c, fullName, n, name, uid, gid, links, out);
    var mode := if c.includePermissions then n.meta.mode else DefaultDirMode;
    var h := Header(name + "/", TypeDir, mode, uid, gid, 0, "");
    if Accepts(c, out) {
      var out' := out + [WroteHeader(h)];
      assert s == DirectoryStep(c, fullName, n, links, out');
      DirectoryOrder(c, fullName, n, links, out');
      var tail := s.out[|out'|..];
      AfterPrefix(s.out, out, WroteHeader(h));
      HeaderNamesAppend([WroteHeader(h)], tail);
      assert HeaderNames([WroteHeader(h)]) == [name + "/"];
      if n.listable {
        LabelsWithin(fullName, ChildVisits(c, fullName, n, 0));
      }
      var below := if n.listable then Within(fullName, ChildVisits(c, fullName, n, 0)) else [];
      PrefixAppend([name + "/"], HeaderNames(tail), Labels(below));
    } else {
      assert s.out[|out|..] == [];
    }
  }

  lemma {:induction false} DirectoryOrder(c: Config, dir: string, n: Node, links: map<nat, string>, out: seq<Record>)
    requires n.Dir?
    ensures var s := DirectoryStep(c, dir, n, links, out);
            var planned := if n.listable then Labels(ChildVisits(c, dir, n, 0)) else [];
            WritesPlanned(s, out, planned)
    decreases n, 1
  {
    if n.listable {
      ChildrenOrder(c, dir, n, 0, links, out);
    } else {
      assert DirectoryStep(c, dir, n, links, out).out[|out|..] == [];
    }
  }

  lemma {:induction false} ChildrenOrder(c: Config, dir: string, n: Node, i: nat, links: map<nat, string>, out: seq<Record>)
    requires n.Dir? && i <= |n.children|
    ensures var s := ChildrenStep(c, dir, n, i, links, out);
            WritesPlanned(s, out, Labels(ChildVisits(c, dir, n, i)))
    decreases n, 0, |n.children| - i
  {
    if i == |n.children| {
      assert ChildrenStep(c, dir, n, i, links, out).out[|out|..] == [];
    } else {
      var child := n.children[i];
      var s1 := EntryStep(c, Join([dir, child.name]), child, links, out);
      EntryOrder(c, Join([dir, child.name]), child, links, out);
      if s1.err.None? {
        ChildrenOrder(c, dir, n, i + 1, s1.links, s1.out);
      }
      ChildOrder(c, dir, n, i, links, out);
    }
  }

  /**
   * One step of the listing loop: the child's headers, then those of the children after it.
   * The hypotheses sit on the left of the ensures' implication rather than in requires:
   * the callers then need not establish them first, which keeps their proofs cheap.
   */
  lemma ChildOrder(c: Config, dir: string, n: Node, i: nat, links: map<nat, string>, out: seq<Record>)
    requires n.Dir? && i < |n.children|
    ensures var child := n.children[i];
            var s1 := EntryStep(c, Join([dir, child.name]), child, links, out);
            WritesPlanned(s1, out, Labels(Visits(c, Join([dir, child.name]), child))) &&
            (s1.err.None? ==> WritesPlanned(ChildrenStep(c, dir, n, i + 1, s1.links, s1.out), s1.out,
                                            Labels(ChildVisits(c, dir, n, i + 1))))
            ==> WritesPlanned(ChildrenStep(c, dir, n, i, links, out), out, Labels(ChildVisits(c, dir, n, i)))
  {
    var child := n.children[i];
    var path := Join([dir, child.name]);
    var s1 := EntryStep(c, path, child, links, out);
    var s := ChildrenStep(c, dir, n, i, links, out);
    LabelsAppend(Visits(c, path, child), ChildVisits(c, dir, n, i + 1));
    HeadersThen(out, s1, s, Labels(Visits(c, path, child)), Labels(ChildVisits(c, dir, n, i + 1)));
  }

  /**
   * A reference for the listing loop that never stops: children i .. j-1 are visited
   * in order, each from the state the one before left, whatever its error. The error
   * is that of child j-1.
   */
  function ListingRun(c: Config, dir: string, n: Node, i: nat, j: nat, links: map<nat, string>, out: seq<Record>): Step
    requires n.Dir? && i <= j <= |n.children|
    decreases j - i
  {
    if i == j then Step(links, out, None)
    else
      var s := EntryStep(c, Join([dir, n.children[i].name]), n.children[i], links, out);
      if i + 1 == j then s else ListingRun(c, dir, n, i + 1, j, s.links, s.out)
  }

  /** None of the runs that end at children i .. j-1 fails. */
  predicate RunsClean(c: Config, dir: string, n: Node, i: nat, j: nat, links: map<nat, string>, out: seq<Record>)
    requires n.Dir? && i <= j <= |n.children|
    decreases j - i
  {
    i == j || (ListingRun(c, dir, n, i, j, links, out).err.None? && RunsClean(c, dir, n, i, j - 1, links, out))
  }

  /** A run past child i continues from the state child i left. */
  lemma {:induction false} ListingTail(c: Config, dir: string, n: Node, i: nat, k: nat, links: map<nat, string>, out: seq<Record>)
    requires n.Dir? && i + 1 < k <= |n.children|
    ensures var s1 := ListingRun(c, dir, n, i, i + 1, links, out);
            ListingRun(c, dir, n, i, k, links, out) == ListingRun(c, dir, n, i + 1, k, s1.links, s1.out)
  {
  }

  lemma {:induction false} CleanFromAll(c: Config, dir: string, n: Node, i: nat, j: nat, links: map<nat, string>, out: seq<Record>)
    requires n.Dir? && i <= j <= |n.children|
    requires forall k :: i < k <= j ==> ListingRun(c, dir, n, i, k, links, out).err.None?
    ensures RunsClean(c, dir, n, i, j, links, out)
    decreases j - i
  {
    if i < j {
      CleanFromAll(c, dir, n, i, j - 1, links, out);
    }
  }

  lemma {:induction false} CleanTail(c: Config, dir: string, n: Node, i: nat, j: nat, links: map<nat, string>, out: seq<Record>)
    requires n.Dir? && i < j <= |n.children|
    requires RunsClean(c, dir, n, i, j, links, out)
    ensures var s1 := ListingRun(c, dir, n, i, i + 1, links, out);
            s1.err.None? && RunsClean(c, dir, n, i + 1, j, s1.links, s1.out)
    decreases j - i
  {
    if j > i + 1 {
      CleanTail(c, dir, n, i, j - 1, links, out);
      ListingTail(c, dir, n, i, j, links, out);
    }
  }

  /** The loop's first child fails: the loop ends with that child's result. */
  lemma {:induction false} FailingChild(c: Config, dir: string, n: Node, i: nat, links: map<nat, string>, out: seq<Record>)
    requires n.Dir? && i < |n.children|
    requires ListingRun(c, dir, n, i, i + 1, links, out).err.Some?
    ensures ChildrenStep(c, dir, n, i, links, out) == ListingRun(c, dir, n, i, i + 1, links, out)
  {
  }

  /** The loop's first child succeeds: the loop goes on from the state it left. */
  lemma {:induction false} PassingChild(c: Config, dir: string, n: Node, i: nat, links: map<nat, string>, out: seq<Record>)
    requires n.Dir? && i < |n.children|
    requires ListingRun(c, dir, n, i, i + 1, links, out).err.None?
    ensures var s1 := ListingRun(c, dir, n, i, i + 1, links, out);
            ChildrenStep(c, dir, n, i, links, out) == ChildrenStep(c, dir, n, i + 1, s1.links, s1.out)
  {
  }

  lemma {:induction false} StopsAt(c: Config, dir: string, n: Node, i: nat, j: nat, links: map<nat, string>, out: seq<Record>)
    requires n.Dir? && i <= j < |n.children|
    requires RunsClean(c, dir, n, i, j, links, out)
    requires ListingRun(c, dir, n, i, j + 1, links, out).err.Some?
    ensures ChildrenStep(c, dir, n, i, links, out) == ListingRun(c, dir, n, i, j + 1, links, out)
    decreases j - i
  {
    if j > i {
      var s1 := ListingRun(c, dir, n, i, i + 1, links, out);
      CleanTail(c, dir, n, i, j, links, out);
      ListingTail(c, dir, n, i, j + 1, links, out);
      PassingChild(c, dir, n, i, links, out);
      StopsAt(c, dir, n, i + 1, j, s1.links, s1.out);
    } else {
      FailingChild(c, dir, n, i, links, out);
    }
  }

  /**
   * When child j is the first from i on whose visit fails, the loop ends with that
   * child's result: the children after it are never visited.
   */
  lemma StopsAtFirstError(c: Config, dir: string, n: Node, i: nat, j: nat, links: map<nat, string>, out: seq<Record>)
    requires n.Dir? && i <= j < |n.children|
    requires forall k :: i < k <= j ==> ListingRun(c, dir, n, i, k, links, out).err.None?
    requires ListingRun(c, dir, n, i, j + 1, links, out).err.Some?
    ensures ChildrenStep(c, dir, n, i, links, out) == ListingRun(c, dir, n, i, j + 1, links, out)
  {
    CleanFromAll(c, dir, n, i, j, links, out);
    StopsAt(c, dir, n, i, j, links, out);
  }

  lemma {:induction false} RunsAll(c: Config, dir: string, n: Node, i: nat, links: map<nat, string>, out: seq<Record>)
    requires n.Dir? && i <= |n.children|
    requires RunsClean(c, dir, n, i, |n.children|, links, out)
    ensures ChildrenStep(c, dir, n, i, links, out) == ListingRun(c, dir, n, i, |n.children|, links, out)
    decreases |n.children| - i
  {
    if i < |n.children| {
      var s1 := ListingRun(c, dir, n, i, i + 1, links, out);
      CleanTail(c, dir, n, i, |n.children|, links, out);
      PassingChild(c, dir, n, i, links, out);
      if i + 1 < |n.children| {
        ListingTail(c, dir, n, i, |n.children|, links, out);
        RunsAll(c, dir, n, i + 1, s1.links, s1.out);
      } else {
        assert s1 == Step(s1.links, s1.out, None);
      }
    }
  }

  /** When no child from i on fails, the loop's result is that of visiting them all in order. */
  lemma RunsToEnd(c: Config, dir: string, n: Node, i: nat, links: map<nat, string>, out: seq<Record>)
    requires n.Dir? && i <= |n.children|
    requires forall k :: i < k <= |n.children| ==> ListingRun(c, dir, n, i, k, links, out).err.None?
    ensures ChildrenStep(c, dir, n, i, links, out) == ListingRun(c, dir, n, i, |n.children|, links, out)
  {
    CleanFromAll(c, dir, n, i, |n.children|, links, out);
    RunsAll(c, dir, n, i, links, out);
  }

  // ----- Exclusion prunes whole subtrees -----

  /**
   * A visit the walk admits: no path from the walk's start down to the entry is
   * excluded, and its header name is the entry's name (with a trailing separator
   * for a directory).
   */
  predicate Admitted(c: Config, v: Visit) {
    && |v.chain| >= 1
    && NoneExcluded(c, v.chain)
    && (v.name == EntryName(c.virtualPath, v.chain[|v.chain| - 1]) ||
        v.name == EntryName(c.virtualPath, v.chain[|v.chain| - 1]) + "/")
  }

  /** No path of chain matches an exclusion pattern. */
  predicate NoneExcluded(c: Config, chain: seq<string>)
    decreases |chain|
  {
    chain == [] || (!ShouldBeExcluded(c.excluded, chain[0]) && NoneExcluded(c, chain[1..]))
  }

  lemma {:induction false} WithinAt(p: string, vs: seq<Visit>, k: nat)
    requires k < |vs|
    ensures Within(p, vs)[k] == Visit([p] + vs[k].chain, vs[k].name)
    decreases k
  {
    if k > 0 {
      WithinAt(p, vs[1..], k - 1);
    }
  }

  /** Every visit of vs is admitted. */
  predicate AllAdmitted(c: Config, vs: seq<Visit>) {
    forall k :: 0 <= k < |vs| ==> Admitted(c, vs[k])
  }

  /** Every visit of vs is admitted and its chain starts at start. */
  predicate AdmittedFrom(c: Config, vs: seq<Visit>, start: string) {
    forall k :: 0 <= k < |vs| ==> Admitted(c, vs[k]) && vs[k].chain[0] == start
  }

  /** A visit admitted below p, seen from p's parent. */
  lemma WrapAdmitted(c: Config, p: string, v: Visit)
    requires !ShouldBeExcluded(c.excluded, p) && Admitted(c, v)
    ensures Admitted(c, Visit([p] + v.chain, v.name)) && ([p] + v.chain)[0] == p
  {
    var ch := [p] + v.chain;
    assert ch[1..] == v.chain;
    assert ch[|ch| - 1] == v.chain[|v.chain| - 1];
  }

  lemma WithinAdmitted(c: Config, p: string, vs: seq<Visit>)
    requires !ShouldBeExcluded(c.excluded, p) && AllAdmitted(c, vs)
    ensures AdmittedFrom(c, Within(p, vs), p)
  {
    forall k | 0 <= k < |vs|
      ensures Admitted(c, Within(p, vs)[k]) && Within(p, vs)[k].chain[0] == p
    {
      WithinAt(p, vs, k);
      WrapAdmitted(c, p, vs[k]);
    }
  }

  lemma ConsAdmitted(c: Config, v: Visit, below: seq<Visit>, start: string)
    requires Admitted(c, v) && v.chain[0] == start && AdmittedFrom(c, below, start)
    ensures AdmittedFrom(c, [v] + below, start)
  {
    var vs := [v] + below;
    forall k | 0 <= k < |vs| ensures Admitted(c, vs[k]) && vs[k].chain[0] == start {
      if k == 0 {
        assert vs[0] == v;
      } else {
        assert vs[k] == below[k - 1];
      }
    }
  }

  lemma AppendAdmitted(c: Config, a: seq<Visit>, b: seq<Visit>)
    requires AllAdmitted(c, a) && AllAdmitted(c, b)
    ensures AllAdmitted(c, a + b)
  {
    forall k | |a| <= k < |a + b| ensures (a + b)[k] == b[k - |a|] {
    }
  }

  /** The visit of the entry at fullName itself. */
  lemma SelfAdmitted(c: Config, fullName: string, name: string)
    requires !ShouldBeExcluded(c.excluded, fullName)
    requires name == EntryName(c.virtualPath, fullName) || name == EntryName(c.virtualPath, fullName) + "/"
    ensures Admitted(c, Visit([fullName], name))
  {
    assert [fullName][1..] == [];
  }

  /** Every visit is admitted and starts where the walk starts. */
  lemma {:induction false} VisitsAdmitted(c: Config, fullName: string, n: Node)
    ensures AdmittedFrom(c, Visits(c, fullName, n), fullName)
    decreases n, 1
  {
    if !ShouldBeExcluded(c.excluded, fullName) {
      var name := EntryName(c.virtualPath, fullName);
      if n.Dir? {
        var below := if n.listable then Within(fullName, ChildVisits(c, fullName, n, 0)) else [];
        if n.listable {
          ChildVisitsAdmitted(c, fullName, n, 0);
          WithinAdmitted(c, fullName, ChildVisits(c, fullName, n, 0));
        }
        SelfAdmitted(c, fullName, name + "/");
        ConsAdmitted(c, Visit([fullName], name + "/"), below, fullName);
      } else {
        SelfAdmitted(c, fullName, name);
      }
    }
  }

  lemma {:induction false} ChildVisitsAdmitted(c: Config, dir: string, n: Node, i: nat)
    requires n.Dir? && i <= |n.children|
    ensures AllAdmitted(c, ChildVisits(c, dir, n, i))
    decreases n, 0, |n.children| - i
  {
    if i < |n.children| {
      var child := n.children[i];
      VisitsAdmitted(c, Join([dir, child.name]), child);
      ChildVisitsAdmitted(c, dir, n, i + 1);
      AppendAdmitted(c, Visits(c, Join([dir, child.name]), child), ChildVisits(c, dir, n, i + 1));
    }
  }

  lemma {:induction false} LabelsAt(vs: seq<Visit>, k: nat)
    requires k < |vs|
    ensures Labels(vs)[k] == vs[k].name
    decreases k
  {
    if k > 0 {
      LabelsAt(vs[1..], k - 1);
    }
  }

  /**
   * The k-th header a walk writes belongs to the k-th visit: an entry none of whose
   * enclosing paths, from the walk's start down, matches an exclusion pattern.
   */
  lemma HeadersAdmitted(c: Config, fullName: string, n: Node, links: map<nat, string>, out: seq<Record>)
    ensures var s := EntryStep(c, fullName, n, links, out);
            var hs := HeaderNames(s.out[|out|..]);
            var vs := Visits(c, fullName, n);
            |hs| <= |vs| &&
            forall k :: 0 <= k < |hs| ==> vs[k].name == hs[k] && Admitted(c, vs[k]) && vs[k].chain[0] == fullName
  {
    var s := EntryStep(c, fullName, n, links, out);
    var hs := HeaderNames(s.out[|out|..]);
    var vs := Visits(c, fullName, n);
    EntryOrder(c, fullName, n, links, out);
    VisitsAdmitted(c, fullName, n);
    forall k | 0 <= k < |hs| ensures vs[k].name == hs[k] {
      LabelsAt(vs, k);
      assert hs[k] == Labels(vs)[k];
    }
  }

  // ----- The hard-link table only grows -----

  /** Every inode of links is still in links', mapped to the same name. */
  predicate Extends(links: map<nat, string>, links': map<nat, string>) {
    forall k :: k in links ==> k in links' && links'[k] == links[k]
  }

  lemma {:induction false} EntryKeeps(c: Config, fullName: string, n: Node, links: map<nat, string>, out: seq<Record>)
    ensures Extends(links, EntryStep(c, fullName, n, links, out).links)
    decreases n, 3
  {
    if !ShouldBeExcluded(c.excluded, fullName) {
      var uid := if c.includeOwners then n.meta.uid else DefaultOwner;
      var gid := if c.includeOwners then n.meta.gid else DefaultOwner;
      KindKeeps(c, fullName, n, EntryName(c.virtualPath, fullName), uid, gid, links, out);
    }
  }

  lemma {:induction false} KindKeeps(c: Config, fullName: string, n: Node, name: string, uid: nat, gid: nat,
                                     links: map<nat, string>, out: seq<Record>)
    ensures Extends(links, KindStep(c, fullName, n, name, uid, gid, links, out).links)
    decreases n, 2
  {
    match n
    case Dir(_, meta, _, _) =>
      var mode := if c.includePermissions then meta.mode else DefaultDirMode;
      var h := Header(name + "/", TypeDir, mode, uid, gid, 0, "");
      if Accepts(c, out) {
        DirectoryKeeps(c, fullName, n, links, out + [WroteHeader(h)]);
      }
    case Regular(_, meta, ino, nlink, size, data) =>
      var mode := if c.includePermissions then meta.mode else DefaultFileMode;
      var d := ResolveHardLink(links, ino, nlink, name, size);
      assert Extends(links, d.links);
    case _ =>
  }

  lemma {:induction false} DirectoryKeeps(c: Config, dir: string, n: Node, links: map<nat, string>, out: seq<Record>)
    requires n.Dir?
    ensures Extends(links, DirectoryStep(c, dir, n, links, out).links)
    decreases n, 1
  {
    if n.listable {
      ChildrenKeep(c, dir, n, 0, links, out);
    }
  }

  lemma {:induction false} ChildrenKeep(c: Config, dir: string, n: Node, i: nat, links: map<nat, string>, out: seq<Record>)
    requires n.Dir? && i <= |n.children|
    ensures Extends(links, ChildrenStep(c, dir, n, i, links, out).links)
    decreases n, 0, |n.children| - i
  {
    if i < |n.children| {
      var child := n.children[i];
      var s1 := EntryStep(c, Join([dir, child.name]), child, links, out);
      EntryKeeps(c, Join([dir, child.name]), child, links, out);
      if s1.err.None? {
        ChildrenKeep(c, dir, n, i + 1, s1.links, s1.out);
      }
    }
  }

  // ----- The header of each entry -----

  /** The mode an entry's header carries: the on-disk one, or the default for its kind. */
  function ModeFor(c: Config, n: Node): nat {
    if c.includePermissions || n.Device? then n.meta.mode
    else if n.Regular? then DefaultFileMode
    else DefaultDirMode
  }

  /**
   * The header processEntry writes for n at fullName, given the hard-link table it
   * finds: name, kind, owner, mode, and for a file its size or link target.
   */
  predicate HeaderFor(c: Config, fullName: string, n: Node, links: map<nat, string>, h: Header) {
    && h.uid == (if c.includeOwners then n.meta.uid else DefaultOwner)
    && h.gid == (if c.includeOwners then n.meta.gid else DefaultOwner)
    && h.mode == ModeFor(c, n)
    && match n
       case Dir(_, _, _, _) =>
         h.name == EntryName(c.virtualPath, fullName) + "/" && h.typeflag == TypeDir
       case Regular(_, _, ino, nlink, size, _) =>
         && h.name == EntryName(c.virtualPath, fullName)
         && (h.typeflag == TypeLink <==> nlink > 1 && ino in links)
         && (h.typeflag == TypeLink ==> h.linkname == links[ino] && h.size == 0)
         && (h.typeflag != TypeLink ==> h.typeflag == TypeReg && h.size == size)
       case Symlink(_, _, target) =>
         && h.name == EntryName(c.virtualPath, fullName) && h.typeflag == TypeSymlink
         && CleanLinkName(c.target, fullName, target, c.cwd) == Ok(h.linkname)
       case Device(_, _, isChar) =>
         h.name == EntryName(c.virtualPath, fullName) && h.typeflag == (if isChar then TypeChar else TypeBlock)
       case Socket(_, _) => false
       case Other(_, _) => false
  }

  lemma FirstRecord(out: seq<Record>, r: Record, fin: seq<Record>)
    requires |out| + 1 <= |fin| && fin[..|out| + 1] == out + [r]
    ensures fin[|out|] == r
  {
    assert fin[|out|] == (out + [r])[|out|];
  }

  lemma RegularHeader(c: Config, fullName: string, name: string, mode: nat, uid: nat, gid: nat,
                      ino: nat, nlink: nat, size: nat, data: Option<seq<Byte>>,
                      links: map<nat, string>, out: seq<Record>)
    ensures var s := RegularStep(c, fullName, name, mode, uid, gid, ino, nlink, size, data, links, out);
            var d := ResolveHardLink(links, ino, nlink, name, size);
            |s.out| > |out| ==> s.out[|out|] == WroteHeader(Header(name, d.typeflag, mode, uid, gid, d.size, d.linkname))
  {
    var s := RegularStep(c, fullName, name, mode, uid, gid, ino, nlink, size, data, links, out);
    var d := ResolveHardLink(links, ino, nlink, name, size);
    var r := WroteHeader(Header(name, d.typeflag, mode, uid, gid, d.size, d.linkname));
    if Accepts(c, out) {
      var o1 := out + [r];
      if d.typeflag == TypeReg {
        FirstRecord(out, r, s.out);
      } else {
        assert s.out == o1;
      }
    }
  }

  /**
   * An excluded entry changes nothing; a socket or other object writes nothing and
   * does not fail; any other entry's first record is its header, as HeaderFor says.
   */
  lemma EntryHeader(c: Config, fullName: string, n: Node, links: map<nat, string>, out: seq<Record>)
    ensures var s := EntryStep(c, fullName, n, links, out);
            && (ShouldBeExcluded(c.excluded, fullName) ==> s == Step(links, out, None))
            && ((n.Socket? || n.Other?) ==> s == Step(links, out, None))
            && (|s.out| > |out| ==> s.out[|out|].WroteHeader? && HeaderFor(c, fullName, n, links, s.out[|out|].header))
  {
    if !ShouldBeExcluded(c.excluded, fullName) {
      var uid := if c.includeOwners then n.meta.uid else DefaultOwner;
      var gid := if c.includeOwners then n.meta.gid else DefaultOwner;
      KindHeader(c, fullName, n, EntryName(c.virtualPath, fullName), uid, gid, links, out);
    }
  }

  lemma KindHeader(c: Config, fullName: string, n: Node, name: string, uid: nat, gid: nat,
                   links: map<nat, string>, out: seq<Record>)
    requires name == EntryName(c.virtualPath, fullName)
    requires uid == (if c.includeOwners then n.meta.uid else DefaultOwner)
    requires gid == (if c.includeOwners then n.meta.gid else DefaultOwner)
    ensures var s := KindStep(c, fullName, n, name, uid, gid, links, out);
            && ((n.Socket? || n.Other?) ==> s == Step(links, out, None))
            && (|s.out| > |out| ==> s.out[|out|].WroteHeader? && HeaderFor(c, fullName, n, links, s.out[|out|].header))
  {
    var s := KindStep(c, fullName, n, name, uid, gid, links, out);
    match n
    case Dir(_, _, _, _) =>
      if Accepts(c, out) {
        FirstRecord(out, WroteHeader(Header(name + "/", TypeDir, ModeFor(c, n), uid, gid, 0, "")), s.out);
      }
    case Regular(_, _, ino, nlink, size, data) =>
      RegularHeader(c, fullName, name, ModeFor(c, n), uid, gid, ino, nlink, size, data, links, out);
    case Symlink(_, _, _) =>
    case Device(_, _, _) =>
    case Socket(_, _) =>
    case Other(_, _) =>
  }

  /**
   * After a file's header: while the file is still a regular file, the next records
   * are its content and then a flush, and on success exactly those two; a hard link
   * writes its header alone.
   */
  lemma RegularContent(c: Config, fullName: string, name: string, mode: nat, uid: nat, gid: nat,
                       ino: nat, nlink: nat, size: nat, data: Option<seq<Byte>>,
                       links: map<nat, string>, out: seq<Record>)
    ensures var s := RegularStep(c, fullName, name, mode, uid, gid, ino, nlink, size, data, links, out);
            var d := ResolveHardLink(links, ino, nlink, name, size);
            && |s.out| <= |out| + 3
            && (|s.out| > |out| + 1 ==> d.typeflag == TypeReg && data.Some? && s.out[|out| + 1] == WroteData(data.value))
            && (|s.out| > |out| + 2 ==> s.out[|out| + 2] == Flushed)
            && (s.err.None? ==> |s.out| == if d.typeflag == TypeReg then |out| + 3 else |out| + 1)
  {
    var d := ResolveHardLink(links, ino, nlink, name, size);
    var o1 := out + [WroteHeader(Header(name, d.typeflag, mode, uid, gid, d.size, d.linkname))];
    if Accepts(c, out) && d.typeflag == TypeReg && data.Some? && Accepts(c, o1) {
      var o2 := o1 + [WroteData(data.value)];
      assert o2[|out| + 1] == WroteData(data.value);
      if Accepts(c, o2) {
        assert (o2 + [Flushed])[|out| + 1] == o2[|out| + 1];
      }
    }
  }

  /** The same for a file the walk visits, with the name and mode processEntry gives it. */
  lemma FileContent(c: Config, fullName: string, n: Node, links: map<nat, string>, out: seq<Record>)
    requires n.Regular?
    ensures var s := EntryStep(c, fullName, n, links, out);
            var d := ResolveHardLink(links, n.ino, n.nlink, EntryName(c.virtualPath, fullName), n.size);
            !ShouldBeExcluded(c.excluded, fullName) ==>
              && |s.out| <= |out| + 3
              && (|s.out| > |out| + 1 ==> d.typeflag == TypeReg && n.data.Some? && s.out[|out| + 1] == WroteData(n.data.value))
              && (|s.out| > |out| + 2 ==> s.out[|out| + 2] == Flushed)
              && (s.err.None? ==> |s.out| == if d.typeflag == TypeReg then |out| + 3 else |out| + 1)
  {
    if !ShouldBeExcluded(c.excluded, fullName) {
      var uid := if c.includeOwners then n.meta.uid else DefaultOwner;
      var gid := if c.includeOwners then n.meta.gid else DefaultOwner;
      var name := EntryName(c.virtualPath, fullName);
      RegularContent(c, fullName, name, ModeFor(c, n), uid, gid, n.ino, n.nlink, n.size, n.data, links, out);
      assert EntryStep(c, fullName, n, links, out)
          == RegularStep(c, fullName, name, ModeFor(c, n), uid, gid, n.ino, n.nlink, n.size, n.data, links, out);
    }
  }

  // ----- Header policy and record framing -----

  /**
   * What every header obeys: the fixed owner when owners are not kept, the fixed
   * modes when permissions are not kept (devices keep theirs), a trailing separator
   * on directory names, and no content for a hard link.
   */
  predicate HeaderPolicy(c: Config, h: Header) {
    && (!c.includeOwners ==> h.uid == DefaultOwner && h.gid == DefaultOwner)
    && (!c.includePermissions && (h.typeflag == TypeDir || h.typeflag == TypeSymlink) ==> h.mode == DefaultDirMode)
    && (!c.includePermissions && (h.typeflag == TypeReg || h.typeflag == TypeLink) ==> h.mode == DefaultFileMode)
    && (h.typeflag == TypeDir ==> |h.name| > 0 && h.name[|h.name| - 1] == Separator)
    && (h.typeflag == TypeLink ==> h.size == 0)
  }

  /** Record i in place: a header obeys the policy, content follows a regular file's header, a flush follows content. */
  predicate RecordFits(c: Config, out: seq<Record>, i: nat)
    requires i < |out|
  {
    match out[i]
    case WroteHeader(h) => HeaderPolicy(c, h)
    case WroteData(_) => i > 0 && out[i - 1].WroteHeader? && out[i - 1].header.typeflag == TypeReg
    case Flushed => i > 0 && out[i - 1].WroteData?
  }

  predicate Sound(c: Config, out: seq<Record>) {
    forall i :: 0 <= i < |out| ==> RecordFits(c, out, i)
  }

  /** Every regular file's header is followed by its content and a flush. */
  predicate Complete(out: seq<Record>) {
    forall i :: 0 <= i < |out| && out[i].WroteHeader? && out[i].header.typeflag == TypeReg ==>
      i + 2 < |out| && out[i + 1].WroteData? && out[i + 2] == Flushed
  }

  /** s keeps the records sound; if it succeeded, what it added after out is complete. */
  predicate StaysSound(c: Config, s: Step, out: seq<Record>) {
    && |out| <= |s.out|
    && Sound(c, s.out)
    && (s.err.None? ==> Complete(s.out[|out|..]))
  }

  lemma SoundAppend(c: Config, out: seq<Record>, r: Record)
    requires Sound(c, out) && RecordFits(c, out + [r], |out|)
    ensures Sound(c, out + [r])
  {
    var out' := out + [r];
    forall i | 0 <= i < |out'| ensures RecordFits(c, out', i) {
      if i < |out| {
        assert RecordFits(c, out, i);
        assert out'[i] == out[i];
        if i > 0 { assert out'[i - 1] == out[i - 1]; }
      }
    }
  }

  lemma CompleteAppend(a: seq<Record>, b: seq<Record>)
    requires Complete(a) && Complete(b)
    ensures Complete(a + b)
  {
    forall i | 0 <= i < |a + b| && (a + b)[i].WroteHeader? && (a + b)[i].header.typeflag == TypeReg
      ensures i + 2 < |a + b| && (a + b)[i + 1].WroteData? && (a + b)[i + 2] == Flushed
    {
      if i < |a| {
        assert a[i] == (a + b)[i];
      } else {
        assert b[i - |a|] == (a + b)[i];
      }
    }
  }

  lemma RegularSound(c: Config, fullName: string, name: string, mode: nat, uid: nat, gid: nat,
                     ino: nat, nlink: nat, size: nat, data: Option<seq<Byte>>,
                     links: map<nat, string>, out: seq<Record>)
    requires Sound(c, out)
    requires !c.includeOwners ==> uid == DefaultOwner && gid == DefaultOwner
    requires !c.includePermissions ==> mode == DefaultFileMode
    ensures var s := RegularStep(c, fullName, name, mode, uid, gid, ino, nlink, size, data, links, out);
            StaysSound(c, s, out)
  {
    var d := ResolveHardLink(links, ino, nlink, name, size);
    var h := Header(name, d.typeflag, mode, uid, gid, d.size, d.linkname);
    var o1 := out + [WroteHeader(h)];
    SoundAppend(c, out, WroteHeader(h));
    if d.typeflag == TypeReg && data.Some? {
      var o2 := o1 + [WroteData(data.value)];
      SoundAppend(c, o1, WroteData(data.value));
      SoundAppend(c, o2, Flushed);
      assert (o2 + [Flushed])[|out|..] == [WroteHeader(h), WroteData(data.value), Flushed];
    } else if d.typeflag != TypeReg {
      assert o1[|out|..] == [WroteHeader(h)];
    }
  }

  lemma SymlinkSound(c: Config, fullName: string, name: string, mode: nat, uid: nat, gid: nat,
                     target: Option<string>, links: map<nat, string>, out: seq<Record>)
    requires Sound(c, out)
    requires !c.includeOwners ==> uid == DefaultOwner && gid == DefaultOwner
    requires !c.includePermissions ==> mode == DefaultDirMode
    ensures var s := SymlinkStep(c, fullName, name, mode, uid, gid, target, links, out);
            StaysSound(c, s, out)
  {
    var link := CleanLinkName(c.target, fullName, target, c.cwd);
    if link.Ok? && Accepts(c, out) {
      var h := Header(name, TypeSymlink, mode, uid, gid, 0, link.value);
      SoundAppend(c, out, WroteHeader(h));
      assert (out + [WroteHeader(h)])[|out|..] == [WroteHeader(h)];
    }
  }

  /** A walk from a sound record sequence keeps it sound; on success what it adds is complete. */
  lemma {:induction false} EntrySound(c: Config, fullName: string, n: Node, links: map<nat, string>, out: seq<Record>)
    requires Sound(c, out)
    ensures var s := EntryStep(c, fullName, n, links, out);
            StaysSound(c, s, out)
    decreases n, 3
  {
    if ShouldBeExcluded(c.excluded, fullName) {
      assert out[|out|..] == [];
    } else {
      var uid := if c.includeOwners then n.meta.uid else DefaultOwner;
      var gid := if c.includeOwners then n.meta.gid else DefaultOwner;
      KindSound(c, fullName, n, EntryName(c.virtualPath, fullName), uid, gid, links, out);
    }
  }

  lemma {:induction false} KindSound(c: Config, fullName: string, n: Node, name: string, uid: nat, gid: nat,
                                     links: map<nat, string>, out: seq<Record>)
    requires Sound(c, out)
    requires !c.includeOwners ==> uid == DefaultOwner && gid == DefaultOwner
    ensures var s := KindStep(c, fullName, n, name, uid, gid, links, out);
            StaysSound(c, s, out)
    decreases n, 2
  {
    var s := KindStep(c, fullName, n, name, uid, gid, links, out);
    match n
    case Dir(_, meta, _, _) =>
      var mode := if c.includePermissions then meta.mode else DefaultDirMode;
      var h := Header(name + "/", TypeDir, mode, uid, gid, 0, "");
      if Accepts(c, out) {
        var out' := out + [WroteHeader(h)];
        SoundAppend(c, out, WroteHeader(h));
        assert s == DirectoryStep(c, fullName, n, links, out');
        DirectorySound(c, fullName, n, links, out');
        if s.err.None? {
          Chained(out, out', s.out);
          assert out'[|out|..] == [WroteHeader(h)];
          CompleteAppend([WroteHeader(h)], s.out[|out'|..]);
        }
      }
    case Symlink(_, meta, target) =>
      var mode := if c.includePermissions then meta.mode else DefaultDirMode;
      SymlinkSound(c, fullName, name, mode, uid, gid, target, links, out);
    case Regular(_, meta, ino, nlink, size, data) =>
      var mode := if c.includePermissions then meta.mode else DefaultFileMode;
      RegularSound(c, fullName, name, mode, uid, gid, ino, nlink, size, data, links, out);
    case Device(_, meta, isChar) =>
      var h := Header(name, if isChar then TypeChar else TypeBlock, meta.mode, uid, gid, 0, "");
      if Accepts(c, out) {
        SoundAppend(c, out, WroteHeader(h));
        assert (out + [WroteHeader(h)])[|out|..] == [WroteHeader(h)];
      }
    case Socket(_, _) =>
      assert out[|out|..] == [];
    case Other(_, _) =>
      assert out[|out|..] == [];
  }

  lemma {:induction false} DirectorySound(c: Config, dir: string, n: Node, links: map<nat, string>, out: seq<Record>)
    requires n.Dir? && Sound(c, out)
    ensures var s := DirectoryStep(c, dir, n, links, out);
            StaysSound(c, s, out)
    decreases n, 1
  {
    if n.listable {
      ChildrenSound(c, dir, n, 0, links, out);
    }
  }

  lemma {:induction false} ChildrenSound(c: Config, dir: string, n: Node, i: nat, links: map<nat, string>, out: seq<Record>)
    requires n.Dir? && i <= |n.children| && Sound(c, out)
    ensures var s := ChildrenStep(c, dir, n, i, links, out);
            StaysSound(c, s, out)
    decreases n, 0, |n.children| - i
  {
    if i == |n.children| {
      assert ChildrenStep(c, dir, n, i, links, out).out[|out|..] == [];
    } else {
      var child := n.children[i];
      var s1 := EntryStep(c, Join([dir, child.name]), child, links, out);
      EntrySound(c, Join([dir, child.name]), child, links, out);
      if s1.err.None? {
        ChildrenSound(c, dir, n, i + 1, s1.links, s1.out);
      }
      ChildSound(c, dir, n, i, links, out);
    }
  }

  /**
   * One step of the listing loop keeps the records sound.
   * The hypotheses sit on the left of the ensures' implication rather than in requires:
   * the callers then need not establish them first, which keeps their proofs cheap.
   */
  lemma ChildSound(c: Config, dir: string, n: Node, i: nat, links: map<nat, string>, out: seq<Record>)
    requires n.Dir? && i < |n.children|
    ensures var child := n.children[i];
            var s1 := EntryStep(c, Join([dir, child.name]), child, links, out);
            StaysSound(c, s1, out) &&
            (s1.err.None? ==> StaysSound(c, ChildrenStep(c, dir, n, i + 1, s1.links, s1.out), s1.out))
            ==> StaysSound(c, ChildrenStep(c, dir, n, i, links, out), out)
  {
    var child := n.children[i];
    var s1 := EntryStep(c, Join([dir, child.name]), child, links, out);
    var s := ChildrenStep(c, dir, n, i, links, out);
    if StaysSound(c, s1, out) && s1.err.None? {
      var s2 := ChildrenStep(c, dir, n, i + 1, s1.links, s1.out);
      assert s == s2;
      if StaysSound(c, s2, s1.out) && s2.err.None? {
        Chained(out, s1.out, s.out);
        CompleteAppend(s1.out[|out|..], s.out[|s1.out|..]);
      }
    }
  }

  // ----- Hard links resolve to files archived earlier -----

  predicate IsRegularHeader(r: Record, name: string) {
    r.WroteHeader? && r.header.typeflag == TypeReg && r.header.name == name
  }

  /** Some record of out is the header of a regular file called name. */
  predicate Archived(out: seq<Record>, name: string) {
    exists j :: 0 <= j < |out| && IsRegularHeader(out[j], name)
  }

  /** Every hard-link header names a regular file whose header was written before it. */
  predicate LinksResolve(out: seq<Record>) {
    forall i :: 0 <= i < |out| && out[i].WroteHeader? && out[i].header.typeflag == TypeLink ==>
      Archived(out[..i], out[i].header.linkname)
  }

  /** Every name in the hard-link table is that of a regular file already archived. */
  predicate TableRecorded(links: map<nat, string>, out: seq<Record>) {
    forall k :: k in links ==> Archived(out, links[k])
  }

  lemma ArchivedGrows(a: seq<Record>, b: seq<Record>, name: string)
    requires |a| <= |b| && b[..|a|] == a && Archived(a, name)
    ensures Archived(b, name)
  {
    var j :| 0 <= j < |a| && IsRegularHeader(a[j], name);
    assert b[j] == a[j];
  }

  lemma TableGrows(links: map<nat, string>, a: seq<Record>, b: seq<Record>)
    requires |a| <= |b| && b[..|a|] == a && TableRecorded(links, a)
    ensures TableRecorded(links, b)
  {
    forall k | k in links ensures Archived(b, links[k]) {
      ArchivedGrows(a, b, links[k]);
    }
  }

  lemma ResolveAppend(out: seq<Record>, r: Record)
    requires LinksResolve(out)
    requires r.WroteHeader? && r.header.typeflag == TypeLink ==> Archived(out, r.header.linkname)
    ensures LinksResolve(out + [r])
  {
    var out' := out + [r];
    forall i | 0 <= i < |out'| && out'[i].WroteHeader? && out'[i].header.typeflag == TypeLink
      ensures Archived(out'[..i], out'[i].header.linkname)
    {
      if i < |out| {
        assert out'[i] == out[i] && out'[..i] == out[..i];
      } else {
        assert out'[..i] == out;
      }
    }
  }

  lemma RegularLinks(c: Config, fullName: string, name: string, mode: nat, uid: nat, gid: nat,
                     ino: nat, nlink: nat, size: nat, data: Option<seq<Byte>>,
                     links: map<nat, string>, out: seq<Record>)
    requires LinksResolve(out) && TableRecorded(links, out)
    ensures var s := RegularStep(c, fullName, name, mode, uid, gid, ino, nlink, size, data, links, out);
            LinksResolve(s.out) && (s.err.None? ==> TableRecorded(s.links, s.out))
  {
    var s := RegularStep(c, fullName, name, mode, uid, gid, ino, nlink, size, data, links, out);
    var d := ResolveHardLink(links, ino, nlink, name, size);
    var h := Header(name, d.typeflag, mode, uid, gid, d.size, d.linkname);
    if Accepts(c, out) {
      var o1 := out + [WroteHeader(h)];
      if d.typeflag == TypeLink {
        assert Archived(out, links[ino]);
      }
      ResolveAppend(out, WroteHeader(h));
      TableGrows(links, out, o1);
      if d.typeflag == TypeReg {
        assert IsRegularHeader(o1[|out|], name);
        assert TableRecorded(d.links, o1);
        if data.Some? && Accepts(c, o1) {
          var o2 := o1 + [WroteData(data.value)];
          ResolveAppend(o1, WroteData(data.value));
          TableGrows(d.links, o1, o2);
          if Accepts(c, o2) {
            ResolveAppend(o2, Flushed);
            TableGrows(d.links, o2, o2 + [Flushed]);
          }
        }
      }
    }
  }

  /** A walk keeps every hard link resolvable and, until it fails, the table backed by written headers. */
  lemma {:induction false} EntryLinks(c: Config, fullName: string, n: Node, links: map<nat, string>, out: seq<Record>)
    requires LinksResolve(out) && TableRecorded(links, out)
    ensures var s := EntryStep(c, fullName, n, links, out);
            LinksResolve(s.out) && (s.err.None? ==> TableRecorded(s.links, s.out))
    decreases n, 3
  {
    if !ShouldBeExcluded(c.excluded, fullName) {
      var uid := if c.includeOwners then n.meta.uid else DefaultOwner;
      var gid := if c.includeOwners then n.meta.gid else DefaultOwner;
      KindLinks(c, fullName, n, EntryName(c.virtualPath, fullName), uid, gid, links, out);
    }
  }

  lemma {:induction false} KindLinks(c: Config, fullName: string, n: Node, name: string, uid: nat, gid: nat,
                                     links: map<nat, string>, out: seq<Record>)
    requires LinksResolve(out) && TableRecorded(links, out)
    ensures var s := KindStep(c, fullName, n, name, uid, gid, links, out);
            LinksResolve(s.out) && (s.err.None? ==> TableRecorded(s.links, s.out))
    decreases n, 2
  {
    match n
    case Dir(_, meta, _, _) =>
      var mode := if c.includePermissions then meta.mode else DefaultDirMode;
      var h := Header(name + "/", TypeDir, mode, uid, gid, 0, "");
      if Accepts(c, out) {
        ResolveAppend(out, WroteHeader(h));
        TableGrows(links, out, out + [WroteHeader(h)]);
        DirectoryLinks(c, fullName, n, links, out + [WroteHeader(h)]);
      }
    case Symlink(_, meta, target) =>
      var link := CleanLinkName(c.target, fullName, target, c.cwd);
      var mode := if c.includePermissions then meta.mode else DefaultDirMode;
      if link.Ok? && Accepts(c, out) {
        var h := Header(name, TypeSymlink, mode, uid, gid, 0, link.value);
        ResolveAppend(out, WroteHeader(h));
        TableGrows(links, out, out + [WroteHeader(h)]);
      }
    case Regular(_, meta, ino, nlink, size, data) =>
      var mode := if c.includePermissions then meta.mode else DefaultFileMode;
      RegularLinks(c, fullName, name, mode, uid, gid, ino, nlink, size, data, links, out);
    case Device(_, meta, isChar) =>
      var h := Header(name, if isChar then TypeChar else TypeBlock, meta.mode, uid, gid, 0, "");
      if Accepts(c, out) {
        ResolveAppend(out, WroteHeader(h));
        TableGrows(links, out, out + [WroteHeader(h)]);
      }
    case Socket(_, _) =>
    case Other(_, _) =>
  }

  lemma {:induction false} DirectoryLinks(c: Config, dir: string, n: Node, links: map<nat, string>, out: seq<Record>)
    requires n.Dir? && LinksResolve(out) && TableRecorded(links, out)
    ensures var s := DirectoryStep(c, dir, n, links, out);
            LinksResolve(s.out) && (s.err.None? ==> TableRecorded(s.links, s.out))
    decreases n, 1
  {
    if n.listable {
      ChildrenLinks(c, dir, n, 0, links, out);
    }
  }

  lemma {:induction false} ChildrenLinks(c: Config, dir: string, n: Node, i: nat, links: map<nat, string>, out: seq<Record>)
    requires n.Dir? && i <= |n.children| && LinksResolve(out) && TableRecorded(links, out)
    ensures var s := ChildrenStep(c, dir, n, i, links, out);
            LinksResolve(s.out) && (s.err.None? ==> TableRecorded(s.links, s.out))
    decreases n, 0, |n.children| - i
  {
    if i < |n.children| {
      var child := n.children[i];
      var s1 := EntryStep(c, Join([dir, child.name]), child, links, out);
      EntryLinks(c, Join([dir, child.name]), child, links, out);
      if s1.err.None? {
        ChildrenLinks(c, dir, n, i + 1, s1.links, s1.out);
      }
    }
  }

  // ----- Files that share an inode -----

  /** A regular file as the hard-link check sees it: inode, link count, header name, size. */
  datatype Sighting = Sighting(ino: nat, nlink: nat, name: string, size: nat)

  /** The hard-link table after the check has run on each sighting of ss in turn. */
  function TableAfter(links: map<nat, string>, ss: seq<Sighting>): map<nat, string>
    decreases |ss|
  {
    if ss == [] then links
    else
      var last := ss[|ss| - 1];
      ResolveHardLink(TableAfter(links, ss[..|ss| - 1]), last.ino, last.nlink, last.name, last.size).links
  }

  /** Some sighting of ss is of inode ino with more than one link. */
  predicate SharedIn(ss: seq<Sighting>, ino: nat) {
    exists j :: 0 <= j < |ss| && ss[j].nlink > 1 && ss[j].ino == ino
  }

  /** The index of the first sighting of a shared inode. */
  function FirstShared(ss: seq<Sighting>, ino: nat): (j: nat)
    requires SharedIn(ss, ino)
    ensures j < |ss| && ss[j].nlink > 1 && ss[j].ino == ino
    ensures forall k :: 0 <= k < j ==> !(ss[k].nlink > 1 && ss[k].ino == ino)
    decreases |ss|
  {
    var pre := ss[..|ss| - 1];
    if SharedIn(pre, ino) then
      var j := FirstShared(pre, ino);
      assert ss[j] == pre[j];
      assert forall k :: 0 <= k < j ==> ss[k] == pre[k];
      j
    else
      assert forall k :: 0 <= k < |ss| - 1 ==> ss[k] == pre[k];
      |ss| - 1
  }

  lemma SharedInPrefix(ss: seq<Sighting>, ino: nat)
    requires ss != []
    ensures SharedIn(ss, ino) <==>
              SharedIn(ss[..|ss| - 1], ino) || (ss[|ss| - 1].nlink > 1 && ss[|ss| - 1].ino == ino)
  {
    var pre := ss[..|ss| - 1];
    if SharedIn(ss, ino) && !(ss[|ss| - 1].nlink > 1 && ss[|ss| - 1].ino == ino) {
      var j :| 0 <= j < |ss| && ss[j].nlink > 1 && ss[j].ino == ino;
      assert j < |pre| && pre[j] == ss[j];
    }
    if SharedIn(pre, ino) {
      var j :| 0 <= j < |pre| && pre[j].nlink > 1 && pre[j].ino == ino;
      assert ss[j] == pre[j];
    }
  }

  /**
   * The table holds exactly the inodes it started with and those seen shared since;
   * old entries keep their names and each new one names the inode's first sighting.
   */
  lemma {:induction false} TableAfterSpec(links: map<nat, string>, ss: seq<Sighting>)
    ensures forall ino :: ino in TableAfter(links, ss) <==> ino in links || SharedIn(ss, ino)
    ensures forall ino :: ino in links ==> TableAfter(links, ss)[ino] == links[ino]
    ensures forall ino :: ino !in links && SharedIn(ss, ino) ==>
              TableAfter(links, ss)[ino] == ss[FirstShared(ss, ino)].name
    decreases |ss|
  {
    if ss != [] {
      var pre := ss[..|ss| - 1];
      var last := ss[|ss| - 1];
      TableAfterSpec(links, pre);
      forall ino ensures SharedIn(ss, ino) <==> SharedIn(pre, ino) || (last.nlink > 1 && last.ino == ino) {
        SharedInPrefix(ss, ino);
      }
      forall ino | ino !in links && SharedIn(ss, ino)
        ensures TableAfter(links, ss)[ino] == ss[FirstShared(ss, ino)].name
      {
        if SharedIn(pre, ino) {
          assert ss[FirstShared(pre, ino)] == pre[FirstShared(pre, ino)];
        }
      }
    }
  }

  /** The decision the hard-link check takes on sighting i, starting from an empty table. */
  function SightingDecision(ss: seq<Sighting>, i: nat): LinkDecision
    requires i < |ss|
  {
    ResolveHardLink(TableAfter(map[], ss[..i]), ss[i].ino, ss[i].nlink, ss[i].name, ss[i].size)
  }

  /**
   * Of the sightings of an inode with more than one link, exactly the first is
   * archived as a regular file with its content; every later one becomes a
   * zero-size link whose target is the first sighting's name.
   */
  lemma SharedInodes(ss: seq<Sighting>, i: nat)
    requires i < |ss| && ss[i].nlink > 1
    ensures var d := SightingDecision(ss, i);
            && (d.typeflag == TypeReg <==> FirstShared(ss[..i + 1], ss[i].ino) == i)
            && (d.typeflag == TypeLink ==> d.linkname == ss[FirstShared(ss[..i + 1], ss[i].ino)].name && d.size == 0)
  {
    var pre := ss[..i];
    var upto := ss[..i + 1];
    assert upto[i] == ss[i];
    assert upto[..i] == pre;
    TableAfterSpec(map[], pre);
    SharedInPrefix(upto, ss[i].ino);
    if SharedIn(pre, ss[i].ino) {
      var j := FirstShared(pre, ss[i].ino);
      assert FirstShared(upto, ss[i].ino) == j;
      assert upto[j] == pre[j];
    }
  }

  // ----- A whole archive -----

  /**
   * The archive Archive writes from a new Tar (empty table, nothing written yet):
   * every header obeys the policy, content and flushes sit where they belong, and
   * every hard link names a file archived before it; when no failure stopped it,
   * every regular file's content is there, the table names only archived files, and
   * the headers are exactly the admitted visits of the tree, in walk order.
   */
  lemma FreshArchive(c: Config, root: Node)
    ensures var s := EntryStep(c, ".", root, map[], []);
            && Sound(c, s.out) && LinksResolve(s.out)
            && (s.err.None? ==>
                  && Complete(s.out) && TableRecorded(s.links, s.out)
                  && HeaderNames(s.out) == Labels(Visits(c, ".", root)))
  {
    var s := EntryStep(c, ".", root, map[], []);
    EntrySound(c, ".", root, map[], []);
    EntryLinks(c, ".", root, map[], []);
    EntryOrder(c, ".", root, map[], []);
    assert s.out[0..] == s.out;
  }
}
