/**
 * The directory-tree archiver of tarhelper/tar.go. The host filesystem is a tree of
 * Node values and the tar writer an append-only sequence of records; the walk itself
 * is a class whose methods change the hard-link table and the written records in
 * place, each proved to agree with the specification functions EntryStep,
 * DirectoryStep and ChildrenStep.
 */
module TarHelper {
  import opened Outcomes
  import opened Paths
  import opened Glob

  type Byte = b: int | 0 <= b < 256

  /** Mode written for directories and symlinks when permissions are not kept (octal 0755). */
  const DefaultDirMode: nat := 0x1ED
  /** Mode written for regular files when permissions are not kept (octal 0644). */
  const DefaultFileMode: nat := 0x1A4
  /** Uid and gid written when owners are not kept. */
  const DefaultOwner: nat := 500

  datatype Compression = NONE | GZIP | BZIP2 | DETECT | UnknownCompression(code: string)

  /** What a stat of an object reports besides its kind. */
  datatype Meta = Meta(mode: nat, uid: nat, gid: nat)

  /**
   * A filesystem object as a directory listing (or the stat of the root) reports it.
   * Failures of the host calls made on an object are part of the value: a directory
   * that cannot be listed, a symlink whose target cannot be read, a file that cannot
   * be opened.
   */
  datatype Node =
    | Dir(name: string, meta: Meta, listable: bool, children: seq<Node>)
    | Regular(name: string, meta: Meta, ino: nat, nlink: nat, size: nat, data: Option<seq<Byte>>)
    | Symlink(name: string, meta: Meta, target: Option<string>)
    | Device(name: string, meta: Meta, isChar: bool)
    | Socket(name: string, meta: Meta)
    | Other(name: string, meta: Meta)

  datatype TypeFlag = TypeReg | TypeLink | TypeSymlink | TypeChar | TypeBlock | TypeDir

  datatype Header = Header(name: string, typeflag: TypeFlag, mode: nat, uid: nat, gid: nat,
                           size: nat, linkname: string)

  /** One call on the tar writer: WriteHeader, a Write of file content, or Flush. */
  datatype Record = WroteHeader(header: Header) | WroteData(bytes: seq<Byte>) | Flushed

  datatype Error =
    | Bzip2Unsupported
    | InvalidCompression
    | UnknownCompressionType(code: string)
    | StatFailed(path: string)
    | ReadDirFailed(path: string)
    | ReadlinkFailed(path: string)
    | GetwdFailed
    | RelFailed(base: string, targ: string)
    | OpenFailed(path: string)
    | WriteFailed

  /** The host as Archive sees it: the result of stat on the target, and the working directory. */
  datatype Host = Host(root: Option<Node>, cwd: Option<string>)

  /**
   * Everything a walk reads and does not change: the archiver's settings, the working
   * directory, and how many records the destination accepts before it fails
   * (None: it never fails).
   */
  datatype Config = Config(target: string, includePermissions: bool, includeOwners: bool,
                           excluded: seq<string>, virtualPath: string, cwd: Option<string>,
                           capacity: Option<nat>)

  /** The state after a walk step: hard-link table, records written, and the error that stopped it. */
  datatype Step = Step(links: map<nat, string>, out: seq<Record>, err: Option<Error>)

  datatype Framing = Plain | Gzipped

  /** The compression switch at the top of Archive. */
  function SelectFraming(c: Compression): (r: Result<Framing, Error>)
    ensures r.Ok? <==> c == NONE || c == GZIP
    ensures r.Ok? ==> (r.value == Gzipped <==> c == GZIP)
    ensures c == BZIP2 ==> r == Err(Bzip2Unsupported)
    ensures c == DETECT ==> r == Err(InvalidCompression)
    ensures c.UnknownCompression? ==> r == Err(UnknownCompressionType(c.code))
  {
    match c
    case NONE => Ok(Plain)
    case GZIP => Ok(Gzipped)
    case BZIP2 => Err(Bzip2Unsupported)
    case DETECT => Err(InvalidCompression)
    case UnknownCompression(code) => Err(UnknownCompressionType(code))
  }

  /** shouldBeExcluded: some pattern matches the full relative path or its last element. */
  function ShouldBeExcluded(patterns: seq<string>, name: string): (r: bool)
    ensures r <==> exists i :: 0 <= i < |patterns| &&
                     (Match(patterns[i], name) || Match(patterns[i], Base(name)))
  {
    if patterns == [] then false
    else if Match(patterns[0], name) then true
    else if Match(patterns[0], Base(name)) then true
    else
      var rest := ShouldBeExcluded(patterns[1..], name);
      assert forall i :: 1 <= i < |patterns| ==> patterns[i] == patterns[1..][i - 1];
      rest
  }

  /** The header name of the entry at fullName, before a directory's trailing slash. */
  function EntryName(virtualPath: string, fullName: string): string
  {
    var name := "./" + fullName;
    if virtualPath != "" then Clean(Join([".", virtualPath, name])) else name
  }

  /** The outcome of the hard-link check on a regular file. */
  datatype LinkDecision = LinkDecision(links: map<nat, string>, typeflag: TypeFlag, linkname: string, size: nat)

  /**
   * The hard-link table lookup: the first sighting of a multiply linked inode is
   * recorded and archived in full; later sightings become zero-size links to it.
   */
  function ResolveHardLink(links: map<nat, string>, ino: nat, nlink: nat, name: string, size: nat): (d: LinkDecision)
    ensures forall k :: k in links ==> k in d.links && d.links[k] == links[k]
    ensures d.links.Keys == if nlink > 1 then links.Keys + {ino} else links.Keys
    ensures nlink > 1 && ino !in links ==> d.links[ino] == name
    ensures d.typeflag == TypeLink <==> nlink > 1 && ino in links
    ensures d.typeflag == TypeLink ==> d.linkname == links[ino] && d.size == 0
    ensures d.typeflag != TypeLink ==> d.typeflag == TypeReg && d.linkname == "" && d.size == size
  {
    if nlink > 1 then
      if ino in links then LinkDecision(links, TypeLink, links[ino], 0)
      else LinkDecision(links[ino := name], TypeReg, "", size)
    else LinkDecision(links, TypeReg, "", size)
  }

  /** The symlink target made absolute and cleaned, as cleanLinkName computes it first. */
  function ResolvedTarget(targetDir: string, name: string, target: Option<string>, cwd: Option<string>): (r: Result<string, Error>)
    ensures target.None? ==> r == Err(ReadlinkFailed(Join([targetDir, name])))
    ensures target.Some? && (IsAbs(target.value) || cwd.Some?) ==> r.Ok?
    ensures target.Some? && IsAbs(target.value) ==> r == Ok(Clean(target.value))
    ensures r.Err? ==> r.error == ReadlinkFailed(Join([targetDir, name])) || r.error == GetwdFailed
    ensures r.Ok? ==> Clean(r.value) == r.value
  {
    if target.None? then Err(ReadlinkFailed(Join([targetDir, name])))
    else if IsAbs(target.value) then
      CleanIdempotent(target.value);
      Ok(Clean(target.value))
    else
      match Abs(Join([targetDir, Paths.Dir(name), target.value]), cwd)
      case None => Err(GetwdFailed)
      case Some(a) =>
        CleanIdempotent(a);
        Ok(Clean(a))
  }

  /**
   * cleanLinkName: the resolved target is stored relative to the link's directory when
   * its text contains targetDir, and absolute otherwise.
   */
  function CleanLinkName(targetDir: string, name: string, target: Option<string>, cwd: Option<string>): (r: Result<string, Error>)
    ensures var l := ResolvedTarget(targetDir, name, target, cwd);
            && (l.Err? ==> r == Err(l.error))
            && (l.Ok? && !Contains(l.value, targetDir) ==> r == Ok(l.value))
            && (l.Ok? && Contains(l.value, targetDir) ==>
                  var base := Join([targetDir, Paths.Dir(name)]);
                  && (r.Ok? <==> Rel(base, l.value).Some?)
                  && (r.Err? ==> r == Err(RelFailed(base, l.value))))
  {
    match ResolvedTarget(targetDir, name, target, cwd)
    case Err(e) => Err(e)
    case Ok(link) =>
      if Contains(link, targetDir) then
        var base := Join([targetDir, Paths.Dir(name)]);
        match Rel(base, link)
        case None => Err(RelFailed(base, link))
        case Some(r) => Ok(r)
      else Ok(link)
  }

  /** Whether the destination accepts one more record after out. */
  predicate Accepts(c: Config, out: seq<Record>) {
    c.capacity.None? || |out| < c.capacity.value
  }

  function Emit(c: Config, links: map<nat, string>, out: seq<Record>, r: Record): (s: Step)
    ensures |out| <= |s.out| && s.out[..|out|] == out && s.links == links
  {
    if Accepts(c, out) then Step(links, out + [r], None) else Step(links, out, Some(WriteFailed))
  }

  /** Open the file, copy its bytes to the writer, flush. */
  function CopyContent(c: Config, path: string, data: Option<seq<Byte>>, links: map<nat, string>, out: seq<Record>): (s: Step)
    ensures |out| <= |s.out| && s.out[..|out|] == out && s.links == links
  {
    if data.None? then Step(links, out, Some(OpenFailed(path)))
    else if !Accepts(c, out) then Step(links, out, Some(WriteFailed))
    else Emit(c, links, out + [WroteData(data.value)], Flushed)
  }

  /** The symlink branch of processEntry, from the header's name, mode and owner on. */
  function SymlinkStep(c: Config, fullName: string, name: string, mode: nat, uid: nat, gid: nat,
                       target: Option<string>, links: map<nat, string>, out: seq<Record>): (s: Step)
    ensures |out| <= |s.out| && s.out[..|out|] == out && s.links == links
  {
    var link := CleanLinkName(c.target, fullName, target, c.cwd);
    if link.Err? then Step(links, out, Some(link.error))
    else Emit(c, links, out, WroteHeader(Header(name, TypeSymlink, mode, uid, gid, 0, link.value)))
  }

  /** The regular-file branch of processEntry, from the header's name, mode and owner on. */
  function RegularStep(c: Config, fullName: string, name: string, mode: nat, uid: nat, gid: nat,
                       ino: nat, nlink: nat, size: nat, data: Option<seq<Byte>>,
                       links: map<nat, string>, out: seq<Record>): (s: Step)
    ensures |out| <= |s.out| && s.out[..|out|] == out
  {
    var d := ResolveHardLink(links, ino, nlink, name, size);
    var h := Header(name, d.typeflag, mode, uid, gid, d.size, d.linkname);
    if !Accepts(c, out) then Step(d.links, out, Some(WriteFailed))
    else if d.typeflag != TypeReg then Step(d.links, out + [WroteHeader(h)], None)
    else
      var s := CopyContent(c, Join([c.target, fullName]), data, d.links, out + [WroteHeader(h)]);
      assert s.out[..|out|] == (out + [WroteHeader(h)])[..|out|];
      s
  }

  /**
   * processEntry: what visiting the object n at fullName does to the hard-link table
   * and the written records, and the error that stops the walk.
   */
  function EntryStep(c: Config, fullName: string, n: Node, links: map<nat, string>, out: seq<Record>): (s: Step)
    ensures |out| <= |s.out| && s.out[..|out|] == out
    decreases n, 3, 0
  {
    if ShouldBeExcluded(c.excluded, fullName) then Step(links, out, None)
    else
      var uid := if c.includeOwners then n.meta.uid else DefaultOwner;
      var gid := if c.includeOwners then n.meta.gid else DefaultOwner;
      KindStep(c, fullName, n, EntryName(c.virtualPath, fullName), uid, gid, links, out)
  }

  /** The switch on the kind of n in processEntry, once the name and owner are known. */
  function KindStep(c: Config, fullName: string, n: Node, name: string, uid: nat, gid: nat,
                    links: map<nat, string>, out: seq<Record>): (s: Step)
    ensures |out| <= |s.out| && s.out[..|out|] == out
    decreases n, 2, 0
  {
    match n
    case Dir(_, meta, _, _) =>
      var mode := if c.includePermissions then meta.mode else DefaultDirMode;
      var h := Header(name + "/", TypeDir, mode, uid, gid, 0, "");
      if !Accepts(c, out) then Step(links, out, Some(WriteFailed))
      else
        var s := DirectoryStep(c, fullName, n, links, out + [WroteHeader(h)]);
        assert s.out[..|out|] == (out + [WroteHeader(h)])[..|out|];
        s
    case Symlink(_, meta, target) =>
      var mode := if c.includePermissions then meta.mode else DefaultDirMode;
      SymlinkStep(c, fullName, name, mode, uid, gid, target, links, out)
    case Regular(_, meta, ino, nlink, size, data) =>
      var mode := if c.includePermissions then meta.mode else DefaultFileMode;
      RegularStep(c, fullName, name, mode, uid, gid, ino, nlink, size, data, links, out)
    case Device(_, meta, isChar) =>
      Emit(c, links, out, WroteHeader(Header(name, if isChar then TypeChar else TypeBlock, meta.mode, uid, gid, 0, "")))
    case Socket(_, _) => Step(links, out, None)
    case Other(_, _) => Step(links, out, None)
  }

  /** processDirectory: list the directory, then visit its children. */
  function DirectoryStep(c: Config, dir: string, n: Node, links: map<nat, string>, out: seq<Record>): (s: Step)
    requires n.Dir?
    ensures |out| <= |s.out| && s.out[..|out|] == out
    decreases n, 1, 0
  {
    if !n.listable then Step(links, out, Some(ReadDirFailed(Join([c.target, dir]))))
    else ChildrenStep(c, dir, n, 0, links, out)
  }

  /** The loop of processDirectory from child i on; the first error ends it. */
  function ChildrenStep(c: Config, dir: string, n: Node, i: nat, links: map<nat, string>, out: seq<Record>): (s: Step)
    requires n.Dir? && i <= |n.children|
    ensures |out| <= |s.out| && s.out[..|out|] == out
    decreases n, 0, |n.children| - i
  {
    if i == |n.children| then Step(links, out, None)
    else
      var child := n.children[i];
      var s := EntryStep(c, Join([dir, child.name]), child, links, out);
      if s.err.Some? then s
      else
        var s' := ChildrenStep(c, dir, n, i + 1, s.links, s.out);
        assert s'.out[..|out|] == s'.out[..|s.out|][..|out|];
        s'
  }

  /** The archiver: its settings, the destination, and the state one run builds up. */
  class Tar {
    const target: string
    /** How many records the destination writer accepts before it fails (None: never). */
    const destCapacity: Option<nat>
    var compression: Compression
    var includePermissions: bool
    var includeOwners: bool
    var excludedPaths: seq<string>
    var virtualPath: string
    /** Inode to the name of the entry first archived for it. */
    var hardLinks: map<nat, string>
    /** The records the tar writer has passed to the destination, oldest first. */
    var written: seq<Record>

    /** NewTar */
    constructor (w: Option<nat>, targetDir: string)
      ensures target == targetDir && destCapacity == w
      ensures compression == NONE
      ensures includePermissions && !includeOwners
      ensures excludedPaths == [] && virtualPath == ""
      ensures hardLinks == map[] && written == []
    {
      target := targetDir;
      destCapacity := w;
      compression := NONE;
      includePermissions := true;
      includeOwners := false;
      excludedPaths := [];
      virtualPath := "";
      hardLinks := map[];
      written := [];
    }

    /** The settings a walk reads, with the host's working directory. */
    function Cfg(cwd: Option<string>): Config
      reads this`includePermissions, this`includeOwners, this`excludedPaths, this`virtualPath
    {
      Config(target, includePermissions, includeOwners, excludedPaths, virtualPath, cwd, destCapacity)
    }

    /** ExcludePath: append a pattern, without one leading separator. */
    method ExcludePath(name: string)
      modifies this`excludedPaths
      ensures excludedPaths == old(excludedPaths) + [StripLeadingSeparator(name)]
    {
      var pattern := name;
      if IsAbs(pattern) {
        pattern := pattern[1..];
      }
      excludedPaths := excludedPaths + [pattern];
    }

    /** One call on the tar writer; it fails once the destination is full. */
    method WriteRecord(r: Record) returns (ok: bool)
      modifies this`written
      ensures ok == (destCapacity.None? || |old(written)| < destCapacity.value)
      ensures written == if ok then old(written) + [r] else old(written)
    {
      ok := destCapacity.None? || |written| < destCapacity.value;
      if ok {
        written := written + [r];
      }
    }

    /** Archive: choose the framing, stat the target, walk it from ".". */
    method Archive(host: Host) returns (err: Option<Error>)
      modifies this`hardLinks, this`written
      ensures SelectFraming(compression).Err? ==>
                err == Some(SelectFraming(compression).error) && hardLinks == old(hardLinks) && written == old(written)
      ensures SelectFraming(compression).Ok? && host.root.None? ==>
                err == Some(StatFailed(target)) && hardLinks == old(hardLinks) && written == old(written)
      ensures SelectFraming(compression).Ok? && host.root.Some? ==>
                var s := EntryStep(Cfg(host.cwd), ".", host.root.value, old(hardLinks), old(written));
                hardLinks == s.links && written == s.out && err == s.err
    {
      match compression {
        case NONE =>
        case GZIP =>
        case BZIP2 => return Some(Bzip2Unsupported);
        case DETECT => return Some(InvalidCompression);
        case UnknownCompression(code) => return Some(UnknownCompressionType(code));
      }
      if host.root.None? {
        return Some(StatFailed(target));
      }
      err := ProcessEntry(".", host.root.value, host.cwd);
    }

    /** processDirectory */
    method ProcessDirectory(dir: string, n: Node, cwd: Option<string>) returns (err: Option<Error>)
      requires n.Dir?
      modifies this`hardLinks, this`written
      ensures var s := DirectoryStep(Cfg(cwd), dir, n, old(hardLinks), old(written));
              hardLinks == s.links && written == s.out && err == s.err
      decreases n, 1, 0
    {
      if !n.listable {
        return Some(ReadDirFailed(Join([target, dir])));
      }
      var i := 0;
      while i < |n.children|
        invariant 0 <= i <= |n.children|
        invariant ChildrenStep(Cfg(cwd), dir, n, i, hardLinks, written)
               == ChildrenStep(Cfg(cwd), dir, n, 0, old(hardLinks), old(written))
        decreases |n.children| - i
      {
        var child := n.children[i];
        err := ProcessEntry(Join([dir, child.name]), child, cwd);
        if err.Some? {
          return;
        }
        i := i + 1;
      }
      return None;
    }

    /** The symlink branch of processEntry: resolve the target, write the header. */
    method ProcessSymlink(fullName: string, name: string, mode: nat, uid: nat, gid: nat,
                          linkTarget: Option<string>, cwd: Option<string>) returns (err: Option<Error>)
      modifies this`written
      ensures var s := SymlinkStep(Cfg(cwd), fullName, name, mode, uid, gid, linkTarget, hardLinks, old(written));
              written == s.out && err == s.err
    {
      var link := CleanLinkName(target, fullName, linkTarget, cwd);
      if link.Err? {
        return Some(link.error);
      }
      var ok := WriteRecord(WroteHeader(Header(name, TypeSymlink, mode, uid, gid, 0, link.value)));
      if !ok {
        return Some(WriteFailed);
      }
      return None;
    }

    /**
     * The regular-file branch of processEntry: consult and update the hard-link table,
     * write the header, and copy the content only when the entry is still a regular file.
     */
    method ProcessRegular(fullName: string, name: string, mode: nat, uid: nat, gid: nat,
                          ino: nat, nlink: nat, size: nat, data: Option<seq<Byte>>, cwd: Option<string>)
      returns (err: Option<Error>)
      modifies this`hardLinks, this`written
      ensures var s := RegularStep(Cfg(cwd), fullName, name, mode, uid, gid, ino, nlink, size, data,
                                   old(hardLinks), old(written));
              hardLinks == s.links && written == s.out && err == s.err
    {
      var typeflag, linkname, hsize := TypeReg, "", size;
      if nlink > 1 {
        if ino in hardLinks {
          typeflag, linkname, hsize := TypeLink, hardLinks[ino], 0;
        } else {
          hardLinks := hardLinks[ino := name];
        }
      }
      var ok := WriteRecord(WroteHeader(Header(name, typeflag, mode, uid, gid, hsize, linkname)));
      if !ok {
        return Some(WriteFailed);
      }
      if typeflag == TypeReg {
        if data.None? {
          return Some(OpenFailed(Join([target, fullName])));
        }
        ok := WriteRecord(WroteData(data.value));
        if !ok {
          return Some(WriteFailed);
        }
        ok := WriteRecord(Flushed);
        if !ok {
          return Some(WriteFailed);
        }
      }
      return None;
    }

    /** processEntry: exclusion, the header's name and owner, then the switch on the kind. */
    method ProcessEntry(fullName: string, n: Node, cwd: Option<string>) returns (err: Option<Error>)
      modifies this`hardLinks, this`written
      ensures var s := EntryStep(Cfg(cwd), fullName, n, old(hardLinks), old(written));
              hardLinks == s.links && written == s.out && err == s.err
      decreases n, 3, 0
    {
      if ShouldBeExcluded(excludedPaths, fullName) {
        return None;
      }
      var name := "./" + fullName;
      if virtualPath != "" {
        name := Clean(Join([".", virtualPath, name]));
      }
      var uid, gid := DefaultOwner, DefaultOwner;
      if includeOwners {
        uid, gid := n.meta.uid, n.meta.gid;
      }
      err := ProcessKind(fullName, n, name, uid, gid, cwd);
    }

    /** The switch on the kind of object in processEntry. */
    method ProcessKind(fullName: string, n: Node, name: string, uid: nat, gid: nat, cwd: Option<string>)
      returns (err: Option<Error>)
      modifies this`hardLinks, this`written
      ensures var s := KindStep(Cfg(cwd), fullName, n, name, uid, gid, old(hardLinks), old(written));
              hardLinks == s.links && written == s.out && err == s.err
      decreases n, 2, 0
    {
      ghost var c, links0, out0 := Cfg(cwd), hardLinks, written;
      var ok: bool;
      match n
      case Dir(_, meta, _, _) =>
        var mode := meta.mode;
        if !includePermissions {
          mode := DefaultDirMode;
        }
        ok := WriteRecord(WroteHeader(Header(name + "/", TypeDir, mode, uid, gid, 0, "")));
        if !ok {
          return Some(WriteFailed);
        }
        err := ProcessDirectory(fullName, n, cwd);
      case Symlink(_, meta, linkTarget) =>
        var mode := meta.mode;
        if !includePermissions {
          mode := DefaultDirMode;
        }
        assert KindStep(c, fullName, n, name, uid, gid, links0, out0)
            == SymlinkStep(c, fullName, name, mode, uid, gid, linkTarget, links0, out0);
        err := ProcessSymlink(fullName, name, mode, uid, gid, linkTarget, cwd);
      case Regular(_, meta, ino, nlink, size, data) =>
        var mode := meta.mode;
        if !includePermissions {
          mode := DefaultFileMode;
        }
        assert KindStep(c, fullName, n, name, uid, gid, links0, out0)
            == RegularStep(c, fullName, name, mode, uid, gid, ino, nlink, size, data, links0, out0);
        err := ProcessRegular(fullName, name, mode, uid, gid, ino, nlink, size, data, cwd);
      case Device(_, meta, isChar) =>
        ok := WriteRecord(WroteHeader(Header(name, if isChar then TypeChar else TypeBlock, meta.mode, uid, gid, 0, "")));
        if !ok {
          return Some(WriteFailed);
        }
        return None;
      case Socket(_, _) =>
        return None;
      case Other(_, _) =>
        return None;
    }
  }
}
