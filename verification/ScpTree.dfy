/** The two ends of a copy: a source tree, a target file system, and what placing one in the other means. */
module ScpTree {
  import opened Numerals
  import opened Wrappers
  import opened ScpFormat

  /**
    A source node as `os.Stat` and `os.ReadDir` show it. A special file is neither regular nor a directory; its
    `size` is what `os.Stat` reports and its `content` what reading it gives.
   */
  datatype Node =
    | File(mode: nat, mtime: int, content: string)
    | Dir(mode: nat, mtime: int, entries: Entries)
    | Special(mode: nat, mtime: int, size: nat, content: string)

  /** Directory entries in the order `os.ReadDir` lists them. */
  datatype Entries = Nil | Cons(name: string, node: Node, rest: Entries)

  const PERM_MASK: nat := 511 // 0777, the largest `os.FileMode.Perm`

  /** What an entry of a Unix directory can be called; anything else would lead elsewhere. */
  predicate EntryName(name: string) { !(name == "" || name == "." || name == ".." || '/' in name) }

  /** The names the sink takes are those. */
  lemma CleanIsEntryName(name: string)
    ensures CleanName(name) <==> EntryName(name)
  {
  }

  /** Permission bits, sizes and entry names as a Unix directory tree has them. */
  predicate Unix(node: Node) {
    match node
    case File(mode, _, content) => mode <= PERM_MASK && |content| <= MAX_INT64
    case Dir(mode, _, entries) => mode <= PERM_MASK && UnixAll(entries)
    case Special(_, _, _, _) => true
  }

  predicate UnixAll(entries: Entries) {
    entries.Cons? ==> EntryName(entries.name) && Unix(entries.node) && UnixAll(entries.rest)
  }

  /** No name that is sent contains a line break; special files are not sent. */
  predicate LineFree(node: Node) {
    node.Dir? ==> LineFreeAll(node.entries)
  }

  predicate LineFreeAll(entries: Entries) {
    entries.Cons? ==>
      (entries.node.Special? || OneLine(entries.name)) && LineFree(entries.node) && LineFreeAll(entries.rest)
  }

  function Names(entries: Entries): set<string> {
    if entries.Nil? then {} else {entries.name} + Names(entries.rest)
  }

  /** No two siblings share a name, at any depth. */
  predicate Distinct(node: Node) {
    node.Dir? ==> DistinctAll(node.entries)
  }

  predicate DistinctAll(entries: Entries) {
    entries.Cons? ==>
      entries.name !in Names(entries.rest) && Distinct(entries.node) && DistinctAll(entries.rest)
  }

  // ---- the target ----

  type Path = seq<string>
  datatype FsEntry = DirEntry(mode: nat) | FileEntry(mode: nat, content: string)
  type FileSystem = map<Path, FsEntry>

  predicate IsDir(fs: FileSystem, path: Path) {
    path == [] || (path in fs && fs[path].DirEntry?)
  }

  /** `os.MkdirAll`: an existing directory is kept as it is, a file in the way is an error. */
  function MkdirAll(fs: FileSystem, path: Path, mode: nat): (r: Option<FileSystem>)
    ensures r.Some? ==> IsDir(r.value, path)
    decreases |path|
  {
    if IsDir(fs, path) then Some(fs)
    else if path in fs then None
    else
      var parent := MkdirAll(fs, path[..|path| - 1], mode);
      if parent.None? then None else Some(parent.value[path := DirEntry(mode)])
  }

  /** `os.OpenFile` with create, write-only and truncate: an existing file keeps its mode. */
  function OpenTruncated(fs: FileSystem, path: Path, mode: nat): (r: Option<FileSystem>)
    ensures r.Some? ==> path in r.value && r.value[path].FileEntry? && r.value[path].content == ""
  {
    if IsDir(fs, path) then None
    else if path in fs then Some(fs[path := FileEntry(fs[path].mode, "")])
    else if IsDir(fs, path[..|path| - 1]) then Some(fs[path := FileEntry(mode, "")])
    else None
  }

  function Append(fs: FileSystem, path: Path, data: string): FileSystem {
    if path in fs && fs[path].FileEntry?
    then fs[path := FileEntry(fs[path].mode, fs[path].content + data)] else fs
  }

  /** Copying `node` to `path`, as one would describe it: `None` when the file system refuses a step. */
  function Place(fs: FileSystem, path: Path, node: Node): Option<FileSystem>
    decreases node
  {
    match node
    case File(mode, _, content) =>
      var file := OpenTruncated(fs, path, mode);
      if file.None? then None else Some(Append(file.value, path, content))
    case Dir(mode, _, entries) =>
      var made := MkdirAll(fs, path, mode);
      if made.None? then None else PlaceAll(made.value, path, entries)
    case Special(_, _, _, _) => Some(fs)
  }

  function PlaceAll(fs: FileSystem, dir: Path, entries: Entries): Option<FileSystem>
    decreases entries
  {
    match entries
    case Nil => Some(fs)
    case Cons(name, node, rest) =>
      var placed := Place(fs, dir + [name], node);
      if placed.None? then None else PlaceAll(placed.value, dir, rest)
  }

  /** The paths, modes and contents a tree stands for when rooted at `path`. */
  function Image(path: Path, node: Node): FileSystem
    decreases node
  {
    match node
    case File(mode, _, content) => map[path := FileEntry(mode, content)]
    case Dir(mode, _, entries) => map[path := DirEntry(mode)] + ImageAll(path, entries)
    case Special(_, _, _, _) => map[]
  }

  function ImageAll(dir: Path, entries: Entries): FileSystem
    decreases entries
  {
    match entries
    case Nil => map[]
    case Cons(name, node, rest) => Image(dir + [name], node) + ImageAll(dir, rest)
  }

  // ---- placing into an empty spot produces exactly the image ----

  predicate Under(path: Path, p: Path) { path <= p }

  /** Nothing exists at or below `path`. */
  ghost predicate Vacant(fs: FileSystem, path: Path) { forall p :: p in fs ==> !Under(path, p) }

  lemma {:induction false} ImageBelow(path: Path, node: Node)
    ensures forall p :: p in Image(path, node) ==> Under(path, p)
    decreases node
  {
    if node.Dir? {
      ImageAllBelow(path, node.entries);
      forall p | p in ImageAll(path, node.entries) ensures Under(path, p) {
        var name :| name in Names(node.entries) && Under(path + [name], p);
        assert path == p[..|path|];
      }
    }
  }

  lemma {:induction false} ImageAllBelow(dir: Path, entries: Entries)
    ensures forall p :: p in ImageAll(dir, entries) ==>
              exists name :: name in Names(entries) && Under(dir + [name], p)
    decreases entries
  {
    if entries.Cons? {
      ImageBelow(dir + [entries.name], entries.node);
      ImageAllBelow(dir, entries.rest);
    }
  }

  lemma Siblings(dir: Path, a: string, b: string, p: Path)
    requires Under(dir + [a], p) && Under(dir + [b], p)
    ensures a == b
  {
    assert p[|dir|] == (dir + [a])[|dir|] == (dir + [b])[|dir|];
  }

  /** In a vacant spot below a directory, copying adds the tree's image and changes nothing else. */
  lemma {:induction false} PlaceVacant(fs: FileSystem, path: Path, node: Node)
    requires path != [] && IsDir(fs, path[..|path| - 1]) && Vacant(fs, path) && Distinct(node)
    ensures Place(fs, path, node) == Some(fs + Image(path, node))
    decreases node
  {
    assert path !in fs by { if path in fs { assert Under(path, path); } }
    match node
    case File(mode, _, content) => FileVacant(fs, path, mode, content);
    case Special(_, _, _, _) => assert fs + map[] == fs;
    case Dir(mode, _, entries) =>
      var made := fs[path := DirEntry(mode)];
      DirVacant(fs, path, mode);
      forall name | name in Names(entries) ensures Vacant(made, path + [name]) {
        ChildVacant(fs, path, name, mode);
      }
      PlaceAllVacant(made, path, entries);
      assert made == fs + map[path := DirEntry(mode)];
      MergeAssociates(fs, map[path := DirEntry(mode)], ImageAll(path, entries));
  }

  lemma DirVacant(fs: FileSystem, path: Path, mode: nat)
    requires path != [] && IsDir(fs, path[..|path| - 1]) && path !in fs
    ensures MkdirAll(fs, path, mode) == Some(fs[path := DirEntry(mode)])
  {
  }

  lemma FileVacant(fs: FileSystem, path: Path, mode: nat, content: string)
    requires path != [] && IsDir(fs, path[..|path| - 1]) && path !in fs
    ensures OpenTruncated(fs, path, mode).Some?
    ensures Append(OpenTruncated(fs, path, mode).value, path, content) == fs + map[path := FileEntry(mode, content)]
  {
    assert "" + content == content;
  }

  lemma MergeAssociates(a: FileSystem, b: FileSystem, c: FileSystem)
    ensures (a + b) + c == a + (b + c)
  {
  }

  lemma ChildVacant(fs: FileSystem, path: Path, name: string, mode: nat)
    requires Vacant(fs, path)
    ensures Vacant(fs[path := DirEntry(mode)], path + [name])
  {
    forall p | Under(path + [name], p) ensures Under(path, p) && p != path {
      assert path == p[..|path|];
    }
  }

  lemma {:induction false} PlaceAllVacant(fs: FileSystem, dir: Path, entries: Entries)
    requires IsDir(fs, dir) && DistinctAll(entries)
    requires forall name :: name in Names(entries) ==> Vacant(fs, dir + [name])
    ensures PlaceAll(fs, dir, entries) == Some(fs + ImageAll(dir, entries))
    decreases entries
  {
    match entries
    case Nil => assert fs + map[] == fs;
    case Cons(name, node, rest) =>
      var path := dir + [name];
      assert path[..|path| - 1] == dir;
      PlaceVacant(fs, path, node);
      var placed := fs + Image(path, node);
      forall other | other in Names(rest) ensures Vacant(placed, dir + [other]) {
        SiblingVacant(fs, dir, name, node, other);
      }
      DirStays(fs, dir, name, node);
      PlaceAllVacant(placed, dir, rest);
      MergeAssociates(fs, Image(path, node), ImageAll(dir, rest));
  }

  lemma DirStays(fs: FileSystem, dir: Path, name: string, node: Node)
    requires IsDir(fs, dir)
    ensures IsDir(fs + Image(dir + [name], node), dir)
  {
    ImageBelow(dir + [name], node);
    assert !Under(dir + [name], dir);
  }

  lemma SiblingVacant(fs: FileSystem, dir: Path, name: string, node: Node, other: string)
    requires name != other && Vacant(fs, dir + [other])
    ensures Vacant(fs + Image(dir + [name], node), dir + [other])
  {
    ImageBelow(dir + [name], node);
    forall p | p in Image(dir + [name], node) ensures !Under(dir + [other], p) {
      if Under(dir + [other], p) { Siblings(dir, name, other, p); }
    }
  }
}
