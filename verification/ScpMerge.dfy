/** A copy over what is there already: files are replaced, directories are kept, and a clash of the two fails. */
module ScpMerge {
  import opened Wrappers
  import opened ScpFormat
  import opened ScpTree
  import opened ScpSink
  import opened ScpSource
  import opened ScpTransfer
  import opened ScpNewDirectory

  /** An existing file takes the content and keeps its mode; an existing directory stays as it is. */
  function Blend(old_: FsEntry, new_: FsEntry): FsEntry {
    if old_.FileEntry? && new_.FileEntry? then FileEntry(old_.mode, new_.content) else old_
  }

  /** One set of entries laid over another. */
  function Over(fs: FileSystem, image: FileSystem): FileSystem {
    map p | p in fs.Keys + image.Keys ::
      if p !in image then fs[p] else if p in fs then Blend(fs[p], image[p]) else image[p]
  }

  /** Somewhere there is a file where a directory should go, or a directory where a file should. */
  predicate Clash(fs: FileSystem, image: FileSystem) {
    exists p :: p in fs && p in image && fs[p].FileEntry? != image[p].FileEntry?
  }

  function Merge(fs: FileSystem, image: FileSystem): Option<FileSystem> {
    if Clash(fs, image) then None else Some(Over(fs, image))
  }

  predicate Apart(a: FileSystem, b: FileSystem) { a.Keys !! b.Keys }

  lemma OverIsOver(fs: FileSystem, a: FileSystem, b: FileSystem)
    requires Apart(a, b)
    ensures Over(Over(fs, a), b) == Over(fs, a + b)
    ensures Clash(fs, a + b) <==> Clash(fs, a) || Clash(Over(fs, a), b)
  {
    ClashesInTurn(fs, a, b);
  }

  /** What an entry meets does not depend on entries elsewhere. */
  lemma ClashesInTurn(fs: FileSystem, a: FileSystem, b: FileSystem)
    requires Apart(a, b)
    ensures Clash(fs, a + b) <==> Clash(fs, a) || Clash(Over(fs, a), b)
  {
    forall p
      ensures p in b ==> (p in Over(fs, a) <==> p in fs) && (p in fs ==> Over(fs, a)[p] == fs[p]) && (a + b)[p] == b[p]
      ensures p in a ==> (a + b)[p] == a[p]
    {
    }
    if p :| p in fs && p in a + b && fs[p].FileEntry? != (a + b)[p].FileEntry? {
      assert p in a || p in b;
    }
  }

  lemma MergeInTurn(fs: FileSystem, a: FileSystem, b: FileSystem)
    requires Apart(a, b)
    ensures Merge(fs, a + b) == if Clash(fs, a) then None else Merge(Over(fs, a), b)
  {
    OverIsOver(fs, a, b);
  }

  lemma FileMerges(fs: FileSystem, path: Path, mode: nat, content: string)
    requires path != [] && IsDir(fs, path[..|path| - 1])
    ensures var file := OpenTruncated(fs, path, mode);
            (if file.None? then None else Some(Append(file.value, path, content))) ==
            Merge(fs, map[path := FileEntry(mode, content)])
  {
    var image := map[path := FileEntry(mode, content)];
    assert "" + content == content;
    var mode := if path in fs then fs[path].mode else mode;
    if path in fs && fs[path].DirEntry? {
      assert Clash(fs, image);
    } else {
      assert Append(fs[path := FileEntry(mode, "")], path, content) == fs[path := FileEntry(mode, content)];
      assert Over(fs, image) == fs[path := FileEntry(mode, content)] && !Clash(fs, image);
    }
  }

  lemma DirMerges(fs: FileSystem, path: Path, mode: nat)
    requires path != [] && IsDir(fs, path[..|path| - 1])
    ensures MkdirAll(fs, path, mode) == Merge(fs, map[path := DirEntry(mode)])
  {
    var image := map[path := DirEntry(mode)];
    if path in fs {
      assert fs[path].FileEntry? ==> Clash(fs, image);
      assert fs[path].DirEntry? ==> Over(fs, image) == fs;
    } else {
      assert Over(fs, image) == fs[path := DirEntry(mode)];
    }
  }

  /** Copying a tree step by step lays its image over what is there, or fails where the two clash. */
  lemma {:induction false} PlaceMerges(fs: FileSystem, path: Path, node: Node)
    requires path != [] && IsDir(fs, path[..|path| - 1]) && Distinct(node)
    ensures Place(fs, path, node) == Merge(fs, Image(path, node))
    decreases node
  {
    match node
    case File(mode, _, content) => FileMerges(fs, path, mode, content);
    case Special(_, _, _, _) => assert Over(fs, map[]) == fs;
    case Dir(mode, _, entries) =>
      var top, below := map[path := DirEntry(mode)], ImageAll(path, entries);
      DirMerges(fs, path, mode);
      BelowIsApart(path, top, entries);
      MergeInTurn(fs, top, below);
      if !Clash(fs, top) { PlaceAllMerges(Over(fs, top), path, entries); }
  }

  lemma BelowIsApart(path: Path, top: FileSystem, entries: Entries)
    requires top.Keys == {path}
    ensures Apart(top, ImageAll(path, entries))
  {
    ImageAllBelow(path, entries);
    forall p | p in ImageAll(path, entries) ensures p != path {
      var name :| name in Names(entries) && Under(path + [name], p);
      assert |p| > |path|;
    }
  }

  lemma {:induction false} PlaceAllMerges(fs: FileSystem, dir: Path, entries: Entries)
    requires IsDir(fs, dir) && DistinctAll(entries)
    ensures PlaceAll(fs, dir, entries) == Merge(fs, ImageAll(dir, entries))
    decreases entries
  {
    match entries
    case Nil => assert Over(fs, map[]) == fs;
    case Cons(name, node, rest) =>
      var first, more := Image(dir + [name], node), ImageAll(dir, rest);
      assert (dir + [name])[..|dir|] == dir;
      PlaceMerges(fs, dir + [name], node);
      EntriesAreApart(dir, name, node, rest);
      MergeInTurn(fs, first, more);
      if !Clash(fs, first) {
        StaysDir(fs, first, dir);
        PlaceAllMerges(Over(fs, first), dir, rest);
      }
  }

  lemma EntriesAreApart(dir: Path, name: string, node: Node, rest: Entries)
    requires name !in Names(rest)
    ensures Apart(Image(dir + [name], node), ImageAll(dir, rest))
  {
    ImageBelow(dir + [name], node);
    ImageAllBelow(dir, rest);
    forall p | p in Image(dir + [name], node) && p in ImageAll(dir, rest) ensures false {
      var other :| other in Names(rest) && Under(dir + [other], p);
      Siblings(dir, name, other, p);
    }
  }

  lemma StaysDir(fs: FileSystem, image: FileSystem, dir: Path)
    requires IsDir(fs, dir) && !Clash(fs, image)
    ensures IsDir(Over(fs, image), dir)
  {
  }

  /**
    A copy to any target whose parent is a directory: if nothing clashes, files are replaced and keep their modes,
    directories are kept, the rest of the tree is added and nothing else changes; otherwise the copy fails.
   */
  lemma CopyMerges(fs: FileSystem, root: Path, name: string, node: Node)
    requires var path := Start(fs, root).Target(name); path != [] && IsDir(fs, path[..|path| - 1])
    requires !node.Special? && EntryName(name) && OneLine(name) && Unix(node) && LineFree(node) && Distinct(node)
    ensures var end := Receive(Start(fs, root), Stream(name, node, false));
            var image := Image(Start(fs, root).Target(name), node);
            if Clash(fs, image) then end.phase.Failed?
            else end.phase.Header? && end.dirs == [root] && end.fs == Over(fs, image)
  {
    var s, pieces := Start(fs, root), Pieces(name, node, false);
    PlaceMerges(fs, s.Target(name), node);
    Transfers(s, name, node);
    PiecesPrintable(name, node, false);
    if Accepts(s, pieces) {
      ReceivesPieces(s, pieces);
    } else {
      PiecesFlow(s, name, node);
      RefusedStream(s, pieces);
    }
  }

  /** A file for which there is no directory is refused, and nothing changes. */
  lemma NoPlaceForFile(fs: FileSystem, root: Path, name: string, node: Node)
    requires var path := Start(fs, root).Target(name);
             path != [] && path !in fs && !IsDir(fs, path[..|path| - 1])
    requires node.File? && EntryName(name) && OneLine(name) && Unix(node)
    ensures var end := Receive(Start(fs, root), Stream(name, node, false));
            end.phase.Failed? && end.fs == fs && end.acks == [Ok] + [Ok] + [Refused]
  {
    var s, header := Start(fs, root), FilePiece(node.mode, |node.content|, name);
    FileStream(name, node, header);
    HeaderRefused(s, header, Bytes(DataPiece(node.content)));
  }

  lemma HeaderRefused(s: Sink, header: Piece, rest: string)
    requires s.Valid() && s.phase.Header? && header.FilePiece? && Printable(header)
    requires OpenTruncated(s.fs, s.Target(header.name), header.mode).None?
    ensures var end := Receive(s, Bytes(header) + rest);
            end.phase.Failed? && end.fs == s.fs && end.acks == s.acks + [Ok] + [Refused]
  {
    ReceivesPiece(s, header, rest);
    OpensNothing(s, header);
    FailedIsStuck(OnPiece(s, header), rest);
  }

  lemma OpensNothing(s: Sink, header: Piece)
    requires s.Valid() && s.phase.Header? && header.FilePiece?
    requires OpenTruncated(s.fs, s.Target(header.name), header.mode).None?
    ensures var r := OnPiece(s, header);
            r.phase.Failed? && r.fs == s.fs && r.acks == s.acks + [Ok] + [Refused]
  {
  }

  lemma FailedIsStuck(s: Sink, rest: string)
    requires s.Valid() && s.phase.Failed?
    ensures Receive(s, rest) == s
  {
    Stuck(s, rest);
  }

  lemma FileStream(name: string, node: Node, header: Piece)
    requires node.File? && header == FilePiece(node.mode, |node.content|, name)
    ensures Stream(name, node, false) == Bytes(header) + Bytes(DataPiece(node.content))
  {
    var body := DataPiece(node.content);
    assert Pieces(name, node, false) == [header, body] && [header, body][1..] == [body] && [body][1..] == [];
    assert Concat([body]) == Bytes(body) + "" == Bytes(body);
  }
}
