# tarhelper archiver, modelled in Dafny

This project models the directory-tree archiver of `tarhelper/tar.go`, the `Tar` type, and proves what it promises about the archives it writes. `Archive` checks the configured compression, stats the target directory and walks it from `"."`. For every object the walk meets it decides:

- whether exclusion patterns skip it and everything below it;
- what header it gets: name, kind, owner, mode, size and link target;
- whether its content is copied and flushed;
- what the hard-link table, an inode-to-name map updated in place, records about it.

The project has five modules:

- `Outcomes` (`outcomes.dfy`): `Option` and `Result`.
- `Paths` (`paths.dfy`): the parts of Go's `path/filepath` and `strings` that the archiver calls. These are `Clean`, `Join`, `Dir`, `Base`, `Abs`, `Rel` and `Contains`. Each works on the `/`-separated segments of a path, and lemmas connect them.
- `Glob` (`glob.dfy`): the wildcard matcher used by the exclusion test.
- `TarHelper` (`tar.dfy`): the data model and the archiver.
  - The host filesystem is a tree of `Node` values. Host-call failures are part of the value: a directory that cannot be listed, a symlink whose target cannot be read, a file that cannot be opened.
  - The tar writer is an append-only sequence of `Record`s: one per header written, per content write and per flush. The destination accepts a fixed number of records, or any number, before it fails.
  - The functions `EntryStep`, `KindStep`, `DirectoryStep` and `ChildrenStep` specify `processEntry` and `processDirectory`.
  - The class `Tar` holds the settings, the hard-link table and the written records. Its methods change them in place and are proved equal to those functions.
- `TarLaws` (`tar_laws.dfy`): properties of the walk. These cover names, exclusion, symlink targets, header order, header policy, record framing and the hard-link table.

## Where the code and its description differ

The model follows the code in each of these cases:

- **VirtualPath names.** With a `VirtualPath`, names are cleaned after joining. They therefore lose the `./` prefix and any leading separator of the VirtualPath (`TarLaws.VirtualName`).
- **The root entry.** Without a VirtualPath, the root entry is named `"././"`: `"./" + "."`, then the directory's `/`.
- **Devices.** Device headers keep their on-disk mode even when permissions are not kept.
- **Symlink containment.** The test for "inside the target" is substring containment. So a link into a sibling directory whose name begins with the target's name is also stored relative (`TarLaws.SiblingLinkMadeRelative`).
- **Relative target directories.** `cleanLinkName` makes a relative link target absolute with `filepath.Abs`, but joins the link's directory onto the target directory as given. When the target directory is relative, a link whose absolute target contains the target directory's text therefore asks `filepath.Rel` for a path from a relative base to an absolute one. That fails, and so does the whole archive (`TarLaws.RelativeTargetDirFails`). For example, `NewTar(w, "b")` run from `/u` fails on the symlink `b/a/l -> f` (`TarLaws.RelativeTargetExample`). With a target of `"."`, a link inside the tree either fails in the same way or is stored as an absolute host path, depending on whether that path contains a `.`. The properties of stored link names (`TarLaws.LinkNameResolves`) are stated for an absolute target directory.
- **Close order with GZIP.** Deferred calls run last-in, first-out. The gzip writer's deferred `Close` (tar.go:103) therefore runs before the deferred `Close` of the tar writer (tar.go:89-94), and the tar end-of-archive blocks go to a gzip stream that is already closed. The model has no encoder and does not show this.

## Model

| member | source | states |
|---|---|---|
| TarHelper.Tar.constructor | tarhelper/tar.go:77-86 | NewTar keeps the target and the writer. It starts with permissions kept, owners not kept, no exclusion patterns, no VirtualPath, an empty hard-link table and nothing written. |
| TarHelper.SelectFraming | tarhelper/tar.go:98-111 | Only NONE and GZIP are accepted, and only GZIP is gzip-framed. BZIP2 and DETECT give their own errors, and any other value gives the unknown-compression error carrying that value. |
| TarHelper.Tar.Archive | tarhelper/tar.go:88-125 | A rejected compression, or a failed stat of the target, returns its error with nothing written and the table untouched. Otherwise the table, the records and the error are those of the walk from "." over the root. |
| TarHelper.Tar.ExcludePath | tarhelper/tar.go:129-135 | Appends the pattern, without one leading separator, to the exclusion list and changes nothing else. |
| TarHelper.Tar.WriteRecord | tarhelper/tar.go:197-200 | A write succeeds exactly when the destination still has room. It then appends the record; otherwise nothing changes. |
| TarHelper.ShouldBeExcluded | tarhelper/tar.go:339-349 | A path is excluded exactly when some pattern matches the whole path or its last element. |
| TarHelper.ResolveHardLink | tarhelper/tar.go:233-245 | A file with one link leaves the table alone. The first sighting of a shared inode records inode ↦ name and stays a regular file with its size. Later sightings become zero-size links to the recorded name. Existing entries are never overwritten. |
| TarHelper.Tar.ProcessEntry | tarhelper/tar.go:154-182 | The table, the records and the error after processEntry are those EntryStep gives. |
| TarHelper.Tar.ProcessKind | tarhelper/tar.go:184-300 | The switch on the object's kind leaves the table, the records and the error that KindStep gives. |
| TarHelper.Tar.ProcessDirectory | tarhelper/tar.go:137-152 | An unlistable directory fails with nothing written. Otherwise the children are processed in listing order, the loop stops at the first error, and the result is that of DirectoryStep. |
| TarHelper.ResolvedTarget | tarhelper/tar.go:302-321 | An unreadable link fails with the joined path. A readable link resolves whenever its target is absolute or the working directory is known, and an absolute target needs no working directory. The only errors are the readlink and getwd failures, and a resolved target is clean. |
| TarHelper.CleanLinkName | tarhelper/tar.go:302-336 | Resolution errors pass through. A resolved target whose text does not contain the target directory is stored as it is. One that does is made relative to the link's directory under the target; this fails, with RelFailed naming both paths, exactly when filepath.Rel fails. TarLaws.LinkNameResolves and TarLaws.RelativeTargetDirFails say when that happens. |
| TarHelper.Tar.ProcessSymlink | tarhelper/tar.go:206-224 | A link whose target cannot be resolved fails before any header. Otherwise one symlink header with the rewritten target is written, as SymlinkStep gives. |
| TarHelper.Tar.ProcessRegular | tarhelper/tar.go:226-274 | Consults and updates the hard-link table, writes the header, and copies and flushes the content only while the entry is still a regular file, as RegularStep gives. |
| TarLaws.VirtualName | tarhelper/tar.go:167-172 | With a VirtualPath made of names, the entry at a relative path is named VirtualPath's names followed by the path's names. The name has no "./" prefix and no leading separator. |
| TarLaws.EntryHeader | tarhelper/tar.go:154-300 | An excluded entry changes nothing, and a socket or other object writes nothing and does not fail. Any other entry's first record is its header (HeaderFor): the "./" name, or the VirtualPath join, plus "/" for a directory; uid/gid 500 unless owners are kept; mode 0755 for directories and symlinks and 0644 for files unless permissions are kept; devices keep their mode; the kind's type flag; and for a file either its size, or a zero-size link to the recorded name. |
| TarLaws.KindHeader | tarhelper/tar.go:184-297 | The same header facts for the kind switch alone. |
| TarLaws.ExcludeAppend | tarhelper/tar.go:339-349 | After appending a pattern q to the list, a path is excluded exactly when it was before, or q matches the path or its last element. |
| TarLaws.ExcludePathEffect | tarhelper/tar.go:129-135 | After ExcludePath(p), a path is excluded exactly when it was before, or p without one leading separator matches the path or its last element. So "/build" and "build" exclude the same paths. |
| TarLaws.ExcludedByName | tarhelper/tar.go:344 | A pattern free of `*`, `?`, `[` and `\` equal to an entry's name excludes that entry in whichever directory it sits. |
| TarLaws.LinkNameResolves | tarhelper/tar.go:302-336 | For an absolute target directory, a readable link resolves without the working directory to a clean absolute path l. If l's text contains the target directory, the stored name is relative and joined onto the link's directory gives back l. Otherwise l itself is stored. |
| TarLaws.RelativeTargetDirFails | tarhelper/tar.go:302-336 | For a relative target directory, a link whose resolved target is absolute and contains the target directory's text fails with RelFailed, naming the link's directory under the target and the resolved target. |
| TarLaws.RelativeTargetExample | tarhelper/tar.go:302-336 | NewTar(w, "b") run from /u: the symlink b/a/l -> f resolves to /u/b/a/f and fails with RelFailed("b/a", "/u/b/a/f"). |
| TarLaws.SiblingLinkMadeRelative | tarhelper/tar.go:327-333 | Under /srv/app, a link to /srv/app2/x is stored as ../app2/x, because the containment test is on text. |
| TarLaws.EntryOrder | tarhelper/tar.go:154-300 | The header names an entry writes are a prefix of its planned visits, in walk order, and all of them if it succeeds. |
| TarLaws.DirEntryOrder | tarhelper/tar.go:193-204 | A directory's own header comes before the headers of everything below it. |
| TarLaws.DirectoryOrder | tarhelper/tar.go:137-152 | A directory's listing writes a prefix of its children's planned headers, and all of them on success. |
| TarLaws.ChildrenOrder | tarhelper/tar.go:144-149 | The loop visits the children in listing order. Each child's headers precede those of the children after it. The headers written are a prefix of the children's planned headers, and all of them on success. |
| TarLaws.StopsAtFirstError | tarhelper/tar.go:144-149 | Compared with a reference run that visits every child in order whatever the errors: when child j is the first whose visit fails, the loop's result is that run up to child j. The loop returns child j's error, and no later child is visited. |
| TarLaws.RunsToEnd | tarhelper/tar.go:144-151 | When no child's visit fails, the loop's result is the reference run over every child in listing order, with no error. |
| TarLaws.RegularContent | tarhelper/tar.go:247-274 | After a file's header, while it is still a regular file, come its own bytes and then a flush. On success there are exactly these three records. A hard link writes its header alone. |
| TarLaws.FileContent | tarhelper/tar.go:154-274 | The same for a regular file the walk visits and does not exclude: the record after its header is its own content, the next is a flush, and nothing more is written. |
| TarLaws.RegularOrder | tarhelper/tar.go:247-274 | A file writes at most its one header. Content and flush records carry no header. |
| TarLaws.SymlinkOrder | tarhelper/tar.go:220-224 | A symlink writes at most its one header. |
| TarLaws.VisitsAdmitted | tarhelper/tar.go:157-160 | Every planned visit lies below no excluded path and is named after its entry. |
| TarLaws.HeadersAdmitted | tarhelper/tar.go:157-160 | The k-th header written belongs to the k-th visit. None of the paths from the walk's start down to that entry matches an exclusion pattern, so exclusion prunes whole subtrees. |
| TarLaws.EntryKeeps | tarhelper/tar.go:240-244 | A walk only adds to the hard-link table. Every inode already in it keeps its name. |
| TarLaws.EntrySound | tarhelper/tar.go:174-274 | A walk keeps every header within the policy: owner 500, default modes, a trailing "/" on directories, size 0 on hard links. Content follows only a regular file's header, and a flush follows content. On success, every regular file's header is followed by a content record and a flush. That the content is the file's own bytes is stated by TarLaws.FileContent. |
| TarLaws.EntryLinks | tarhelper/tar.go:233-245 | Every hard-link header names a regular file whose header was written before it. Until a failure, every name in the table is that of a regular file already written. |
| TarLaws.TableAfterSpec | tarhelper/tar.go:57-60 | After a sequence of files, the table holds the inodes it started with plus every inode seen with more than one link. Old entries keep their names, and each new one maps to the inode's first sighting. |
| TarLaws.SharedInodes | tarhelper/tar.go:233-245 | Of the sightings of a shared inode, exactly the first is archived as a regular file. Each later one becomes a zero-size link to the first sighting's name. |
| TarLaws.FreshArchive | tarhelper/tar.go:88-125 | From a new Tar, the walk's records are sound and every link resolves. On success they are complete, the table names only archived files, and the headers are exactly the admitted visits of the tree in walk order. |
| Paths.CleanIdempotent | tarhelper/tar.go:321 | Cleaning a clean path changes nothing, and cleaning keeps a path absolute or relative. |
| Paths.RelJoin | tarhelper/tar.go:329 | Between two clean absolute paths, Rel succeeds with a relative path, and joining that path onto the base gives back the target. |
| Paths.ChildPath | tarhelper/tar.go:145 | Joining a directory path made of names with a child's name appends the name. |
| Paths.BaseOfNames | tarhelper/tar.go:344 | The last element of a path of names is its final name. |
| Glob.LiteralMatch | tarhelper/tar.go:341-346 | A pattern free of `*`, `?`, `[` and `\` matches exactly the name it spells. |
| Glob.StarSuffix | tarhelper/tar.go:341-346 | "*" followed by a literal suffix matches exactly the single-level names that end with the suffix. |

## Left out

- The tar encoder and gzip framing are left out: header byte layout, checksums, compression, and the deferred `Close` calls and their order. The writer is a sequence of header, content and flush records.
- A destination failure is modelled as a record-count capacity. A partial `io.Copy`, and a content length that differs from the header's size, are not modelled.
- `tar.FileInfoHeader` is treated as never failing. Header fields other than name, type flag, mode, uid, gid, size and link target are left out; these include the modification time and the device major/minor numbers.
- `majordev`/`minordev` and the device branch's re-stat are left out. In the source a failed re-stat leaves a nil `FileInfo`, and the call to its `Sys` method panics (tar.go:281-282). The model writes the device header as if the re-stat had succeeded.
- Host calls are inputs, not I/O:
  - `os.Stat` of the target is an optional root node;
  - `ioutil.ReadDir` is the `listable` flag and the children. `ReadDir` returns them sorted by file name; the model takes them in whatever order the `Node` lists them, so its walk-order properties hold for every order, the sorted one included;
  - `os.Readlink` is an optional target;
  - `os.Open` is optional content;
  - `os.Getwd`, used by `filepath.Abs`, is an optional working directory.
- `Glob.Match` handles `*`, `?` and literal characters only. Character classes, escapes and pattern errors are left out; the source ignores `filepath.Match`'s error.
- `Log.Infof` calls are left out.
- The Go definition of the `Compression` type and its constants is not part of this model. `TarHelper.Compression` has its four named values and any other value. The zero value, which a new Tar carries, is taken to be `NONE`.
- TarLaws.SharedInodes: states the shared-inode property over the sequence of regular files the hard-link check meets, not over the tree walk. `TarLaws.EntryKeeps` and `TarLaws.EntryLinks` connect the table to the walk.
- TarLaws.EntrySound: states the header policy only for the cases where owners or permissions are not kept. `TarLaws.EntryHeader` states the kept values.
- Names are Dafny strings, sequences of Unicode scalar values, while Go's are byte strings. Names that are not valid UTF-8 cannot be written. Where `filepath.Match` lets `?` match one byte of an invalid encoding, `Glob.Match` has no such case; on valid names both match one character.
- Concurrency and platform-specific stat details are left out.
