/** Source and sink together: the round trip of a copy. */
module ScpTransfer {
  import opened Text
  import opened Wrappers
  import opened ScpFormat
  import opened ScpTree
  import opened ScpSink
  import opened ScpSource

  // ---- the sink on pieces instead of bytes ----

  /** The sink is waiting for a piece of this kind. */
  predicate Fits(s: Sink, piece: Piece) {
    s.Valid() && if piece.DataPiece? then s.phase.Body? && s.phase.size == |piece.content| else s.phase.Header?
  }

  function OnPiece(s: Sink, piece: Piece): (r: Sink)
    requires Fits(s, piece)
    ensures r.Valid()
  {
    if piece.DataPiece? then
      s.(fs := Append(s.fs, s.phase.dest, piece.content), phase := Header, acks := s.acks + [Ok])
    else OnCommand(s, Meaning(piece))
  }

  /** On the bytes of a printable piece the sink takes one step, that of the piece, and leaves the rest unread. */
  lemma BytesStep(s: Sink, piece: Piece, rest: string)
    requires Fits(s, piece) && Printable(piece)
    ensures var input := Bytes(piece) + rest;
            Ready(s, input) && Need(s, input) == |Bytes(piece)| && Take(s, input) == OnPiece(s, piece)
  {
    if piece.DataPiece? {
      DataStep(s, piece.content, rest);
    } else {
      LineMeans(piece);
      HeaderStep(s, Line(piece), rest);
    }
  }

  lemma FirstLine(line: string, rest: string, input: string)
    requires OneLine(line) && input == line + "\n" + rest
    ensures '\n' in input && IndexOf(input, '\n') == |line| && input[..|line|] == line
  {
    assert input[..|line|] == line && input[|line|] == '\n';
    IndexOfIs(input, '\n', |line|);
  }

  lemma HeaderStep(s: Sink, line: string, rest: string)
    requires s.Valid() && s.phase.Header? && OneLine(line)
    ensures var input := line + "\n" + rest;
            Ready(s, input) && Need(s, input) == |line| + 1 && Take(s, input) == OnCommand(s, Parse(line))
  {
    var input := line + "\n" + rest;
    FirstLine(line, rest, input);
    TakesLine(s, line, input);
  }

  lemma TakesLine(s: Sink, line: string, input: string)
    requires s.Valid() && s.phase.Header? && '\n' in input && IndexOf(input, '\n') == |line| && input[..|line|] == line
    ensures Ready(s, input) && Need(s, input) == |line| + 1 && Take(s, input) == OnCommand(s, Parse(line))
  {
  }

  lemma DataStep(s: Sink, content: string, rest: string)
    requires s.Valid() && s.phase.Body? && s.phase.size == |content|
    ensures var input := content + "\0" + rest;
            Ready(s, input) && Need(s, input) == |content| + 1 && Take(s, input) == OnPiece(s, DataPiece(content))
  {
    var input, n := content + "\0" + rest, |content|;
    assert input[..n + 1][..n] == content && input[..n + 1][n] == '\0';
  }

  lemma ReceivesPiece(s: Sink, piece: Piece, rest: string)
    requires Fits(s, piece) && Printable(piece)
    ensures Receive(s, Bytes(piece) + rest) == Receive(OnPiece(s, piece), rest)
  {
    BytesStep(s, piece, rest);
    var input := Bytes(piece) + rest;
    assert input[|Bytes(piece)|..] == rest;
  }

  /** The sink takes the piece and answers with one zero byte. */
  predicate TakesOk(s: Sink, piece: Piece) {
    Fits(s, piece) && OnPiece(s, piece).acks == s.acks + [Ok]
  }

  /** The sink takes the pieces one by one, answering each with one zero byte. */
  predicate Accepts(s: Sink, pieces: seq<Piece>)
    decreases pieces
  {
    s.Valid() && (pieces != [] ==> TakesOk(s, pieces[0]) && Accepts(OnPiece(s, pieces[0]), pieces[1..]))
  }

  function After(s: Sink, pieces: seq<Piece>): (r: Sink)
    requires Accepts(s, pieces)
    ensures r.Valid()
    decreases pieces
  {
    if pieces == [] then s else After(OnPiece(s, pieces[0]), pieces[1..])
  }

  predicate AllPrintable(pieces: seq<Piece>) { forall p :: p in pieces ==> Printable(p) }

  lemma {:induction false} AcceptsAppend(s: Sink, a: seq<Piece>, b: seq<Piece>)
    ensures Accepts(s, a + b) <==> Accepts(s, a) && Accepts(After(s, a), b)
    ensures Accepts(s, a + b) ==> After(s, a + b) == After(After(s, a), b)
    decreases a
  {
    if a == [] {
      assert a + b == b;
    } else if TakesOk(s, a[0]) {
      assert (a + b)[1..] == a[1..] + b;
      AcceptsAppend(OnPiece(s, a[0]), a[1..], b);
    }
  }

  lemma AcceptsOne(s: Sink, piece: Piece)
    ensures Accepts(s, [piece]) <==> TakesOk(s, piece)
    ensures TakesOk(s, piece) ==> After(s, [piece]) == OnPiece(s, piece)
  {
    assert [piece][1..] == [];
  }

  /** Reading the bytes of accepted pieces is taking the pieces one by one. */
  lemma {:induction false} ReceivesPieces(s: Sink, pieces: seq<Piece>)
    requires Accepts(s, pieces) && AllPrintable(pieces)
    ensures Receive(s, Concat(pieces)) == Receive(After(s, pieces), "")
    decreases pieces
  {
    if pieces != [] {
      ReceivesPiece(s, pieces[0], Concat(pieces[1..]));
      ReceivesPieces(OnPiece(s, pieces[0]), pieces[1..]);
    }
  }

  // ---- a whole entry ----

  lemma {:induction false} PiecesPrintable(name: string, node: Node, preserve: bool)
    requires node.Special? || (CleanName(name) && OneLine(name))
    requires Unix(node) && LineFree(node)
    ensures AllPrintable(Pieces(name, node, preserve))
    decreases node
  {
    if node.Dir? { EntriesPrintable(node.entries, preserve); }
  }

  lemma {:induction false} EntriesPrintable(entries: Entries, preserve: bool)
    requires UnixAll(entries) && LineFreeAll(entries)
    ensures AllPrintable(PiecesAll(entries, preserve))
    decreases entries
  {
    if entries.Cons? {
      PiecesPrintable(entries.name, entries.node, preserve);
      EntriesPrintable(entries.rest, preserve);
    }
  }

  function Oks(n: nat): seq<Ack> { seq(n, _ => Ok) }

  lemma OksAdd(acks: seq<Ack>, m: nat, n: nat)
    ensures acks + Oks(m) + Oks(n) == acks + Oks(m + n)
    ensures acks + Oks(0) == acks
    ensures acks + Oks(1) == acks + [Ok]
  {
  }

  /** The sink after a successful transfer of `n` pieces that left the files as `fs`. */
  function Placed(s: Sink, fs: FileSystem, n: nat): Sink { s.(fs := fs, acks := s.acks + Oks(n)) }

  /** The pieces are acknowledged to the end exactly when `out` is some file system, and then leave it behind. */
  predicate Delivers(s: Sink, pieces: seq<Piece>, out: Option<FileSystem>) {
    (Accepts(s, pieces) <==> out.Some?) &&
    (out.Some? ==> After(s, pieces) == Placed(s, out.value, |pieces|))
  }

  lemma DeliversBoth(s: Sink, a: seq<Piece>, mid: FileSystem, b: seq<Piece>, out: Option<FileSystem>)
    requires Delivers(s, a, Some(mid)) && Delivers(Placed(s, mid, |a|), b, out)
    ensures Delivers(s, a + b, out)
  {
    AcceptsAppend(s, a, b);
    OksAdd(s.acks, |a|, |b|);
  }

  lemma RefusedIsNotOk(acks: seq<Ack>)
    ensures acks + [Refused] != acks + [Ok]
    ensures acks + [Ok] + [Refused] != acks + [Ok]
  {
    assert (acks + [Refused])[|acks|] != (acks + [Ok])[|acks|];
    assert |acks + [Ok] + [Refused]| != |acks + [Ok]|;
  }

  lemma FileTransfers(s: Sink, name: string, node: Node)
    requires s.Valid() && s.phase.Header? && node.File?
    ensures Delivers(s, Pieces(name, node, false), Place(s.fs, s.Target(name), node))
  {
    var header, body := FilePiece(node.mode, |node.content|, name), DataPiece(node.content);
    assert Pieces(name, node, false) == [header] + [body];
    AcceptsAppend(s, [header], [body]);
    AcceptsOne(s, header);
    RefusedIsNotOk(s.acks);
    if TakesOk(s, header) {
      AcceptsOne(OnPiece(s, header), body);
      OksAdd(s.acks, 1, 1);
    }
  }

  /** Every entry is acknowledged to the end exactly when the file system admits it, and then it is in place. */
  lemma {:induction false} Transfers(s: Sink, name: string, node: Node)
    requires s.Valid() && s.phase.Header?
    ensures Delivers(s, Pieces(name, node, false), Place(s.fs, s.Target(name), node))
    decreases node
  {
    match node
    case File(_, _, _) => FileTransfers(s, name, node);
    case Special(_, _, _, _) => OksAdd(s.acks, 0, 0);
    case Dir(mode, _, entries) =>
      var header, inner := DirPiece(mode, name), PiecesAll(entries, false);
      assert Pieces(name, node, false) == [header] + (inner + [EndPiece]);
      AcceptsAppend(s, [header], inner + [EndPiece]);
      AcceptsOne(s, header);
      RefusedIsNotOk(s.acks);
      if TakesOk(s, header) {
        var t := OnPiece(s, header);
        TransfersAll(t, entries);
        AcceptsAppend(t, inner, [EndPiece]);
        if Accepts(t, inner) { Leaves(s, t, inner, s.Target(name)); }
      }
  }

  /** Leaving a directory restores the stack. */
  lemma Leaves(s: Sink, t: Sink, inner: seq<Piece>, dir: Path)
    requires s.Valid() && s.phase.Header? && t == s.(fs := t.fs, dirs := s.dirs + [dir], acks := s.acks + [Ok])
    requires Accepts(t, inner) && After(t, inner) == Placed(t, After(t, inner).fs, |inner|)
    ensures var u := After(t, inner);
            Accepts(u, [EndPiece]) && After(u, [EndPiece]) == Placed(s, u.fs, |inner| + 2)
  {
    var u := After(t, inner);
    AcceptsOne(u, EndPiece);
    assert u.dirs[..|u.dirs| - 1] == s.dirs;
    assert s.acks + [Ok] + Oks(|inner|) + [Ok] == s.acks + Oks(|inner| + 2);
  }

  lemma {:induction false} TransfersAll(s: Sink, entries: Entries)
    requires s.Valid() && s.phase.Header? && |s.dirs| > 1
    ensures Delivers(s, PiecesAll(entries, false), PlaceAll(s.fs, s.Top(), entries))
    decreases entries
  {
    match entries
    case Nil => OksAdd(s.acks, 0, 0);
    case Cons(name, node, rest) =>
      var first, more := Pieces(name, node, false), PiecesAll(rest, false);
      Transfers(s, name, node);
      var placed := Place(s.fs, s.Top() + [name], node);
      if placed.None? {
        AcceptsAppend(s, first, more);
      } else {
        var t := Placed(s, placed.value, |first|);
        TransfersAll(t, rest);
        DeliversBoth(s, first, placed.value, more, PlaceAll(t.fs, t.Top(), rest));
      }
  }

  // ---- the round trip ----

  /** The bytes the source emits for a target called `name` when every response is zero. */
  function Stream(name: string, node: Node, preserve: bool): string { Concat(Sent(name, node, preserve)) }

  lemma {:induction false} ConcatLast(pieces: seq<Piece>, last: Piece)
    ensures Concat(pieces + [last]) == Concat(pieces) + Bytes(last)
    decreases pieces
  {
    if pieces == [] {
      assert [last][1..] == [] && [] + [last] == [last];
      assert Concat([last]) == Bytes(last) + "" == Bytes(last) && "" + Bytes(last) == Bytes(last);
    } else {
      assert (pieces + [last])[1..] == pieces[1..] + [last];
      ConcatLast(pieces[1..], last);
    }
  }

  /** The stream of a directory ends with a line that is the letter E alone. */
  lemma DirEndsWithE(name: string, node: Node, preserve: bool)
    requires node.Dir?
    ensures exists rest :: Stream(name, node, preserve) == rest + "E\n"
  {
    var times := ScpSource.Times(node.mtime, preserve);
    var pieces := times + ([DirPiece(node.mode, name)] + PiecesAll(node.entries, preserve));
    assert pieces + [EndPiece] == Pieces(name, node, preserve);
    ConcatLast(pieces, EndPiece);
    assert Stream(name, node, preserve) == Concat(pieces) + "E\n";
  }

  /** When every response is zero, the source emits all its pieces and uses one response for each. */
  lemma ExchangeOks(p: Port, pieces: seq<Piece>)
    requires p.ok && p.replies == Oks(|pieces|)
    ensures Exchange(p, pieces) == Port([], p.sent + Concat(pieces), true)
  {
    EndsWellIffAllZero(p, pieces);
  }

  /** The copy arrived: nothing but the tree's image was added and the sink is back at the root. */
  predicate Arrived(fs: FileSystem, root: Path, path: Path, node: Node, end: Sink) {
    end.phase.Header? && end.dirs == [root] && end.fs == fs + Image(path, node)
  }

  lemma RoundTripHolds(fs: FileSystem, root: Path, name: string, node: Node)
    requires var path := Start(fs, root).Target(name);
             path != [] && IsDir(fs, path[..|path| - 1]) && Vacant(fs, path)
    requires !node.Special? && EntryName(name) && OneLine(name) && Unix(node) && LineFree(node) && Distinct(node)
    ensures var s := Start(fs, root);
            Arrived(fs, root, s.Target(name), node, Receive(s, Stream(name, node, false)))
  {
    var s := Start(fs, root);
    PlaceVacant(fs, s.Target(name), node);
    Transfers(s, name, node);
    PiecesPrintable(name, node, false);
    ReceivesPieces(s, Pieces(name, node, false));
  }

  lemma TimesComeFirst(name: string, node: Node)
    requires !node.Special?
    ensures exists more :: Pieces(name, node, true) == [TimesPiece(node.mtime)] + more
  {
    if node.File? {
      assert Pieces(name, node, true) == [TimesPiece(node.mtime)] + Pieces(name, node, false);
    } else {
      assert Pieces(name, node, true) ==
        [TimesPiece(node.mtime)] + ([DirPiece(node.mode, name)] + PiecesAll(node.entries, true) + [EndPiece]);
    }
  }

  lemma FailingPiece(s: Sink, piece: Piece, rest: string)
    requires Fits(s, piece) && Printable(piece) && OnPiece(s, piece).phase.Failed?
    ensures Receive(s, Bytes(piece) + rest) == OnPiece(s, piece)
  {
    ReceivesPiece(s, piece, rest);
    Stuck(OnPiece(s, piece), rest);
  }

  /** With `-p` the first header is refused and nothing is stored. */
  lemma PreserveFails(fs: FileSystem, root: Path, name: string, node: Node)
    requires !node.Special?
    ensures Receive(Start(fs, root), Stream(name, node, true)) == Start(fs, root).Refuse(Bad(BadHeader))
  {
    TimesComeFirst(name, node);
    var more :| Pieces(name, node, true) == [TimesPiece(node.mtime)] + more;
    assert ([TimesPiece(node.mtime)] + more)[1..] == more;
    FailingPiece(Start(fs, root), TimesPiece(node.mtime), Concat(more));
  }

  // ---- names with a line break never arrive ----

  /** Below the root, the path has no line break. */
  predicate PlainBelow(root: Path, p: Path) { forall i :: |root| <= i < |p| ==> OneLine(p[i]) }

  /** Every path that was not there before is plain, and so is the directory stack. */
  ghost predicate PlainSink(fs: FileSystem, root: Path, s: Sink) {
    && (forall p :: p in s.fs ==> p in fs || PlainBelow(root, p))
    && (forall i :: 0 <= i < |s.dirs| ==> PlainBelow(root, s.dirs[i]))
    && (s.phase.Body? ==> PlainBelow(root, s.phase.dest))
  }

  lemma {:induction false} MkdirAddsPrefixes(fs: FileSystem, path: Path, mode: nat)
    ensures var r := MkdirAll(fs, path, mode); r.Some? ==> forall p :: p in r.value ==> p in fs || p <= path
    decreases |path|
  {
    if !IsDir(fs, path) && path !in fs { MkdirAddsPrefixes(fs, path[..|path| - 1], mode); }
  }

  lemma TargetIsPlain(fs: FileSystem, root: Path, s: Sink, name: string)
    requires s.Valid() && PlainSink(fs, root, s) && OneLine(name)
    ensures PlainBelow(root, s.Target(name))
  {
    assert PlainBelow(root, s.Top());
  }

  lemma DirKeepsPlain(fs: FileSystem, root: Path, s: Sink, h: EntryHeader)
    requires s.Valid() && s.phase.Header? && PlainSink(fs, root, s) && OneLine(h.name)
    ensures PlainSink(fs, root, EnterDir(s, h))
  {
    var dir := s.Target(h.name);
    TargetIsPlain(fs, root, s, h.name);
    MkdirAddsPrefixes(s.fs, dir, h.mode);
    assert forall p :: p <= dir ==> PlainBelow(root, p);
  }

  lemma FileKeepsPlain(fs: FileSystem, root: Path, s: Sink, h: FileHeader)
    requires s.Valid() && s.phase.Header? && PlainSink(fs, root, s) && OneLine(h.name)
    ensures PlainSink(fs, root, OpenFile(s, h))
  {
    TargetIsPlain(fs, root, s, h.name);
  }

  lemma CommandKeepsPlain(fs: FileSystem, root: Path, s: Sink, cmd: Command)
    requires s.Valid() && s.phase.Header? && PlainSink(fs, root, s)
    requires (cmd.Enter? ==> OneLine(cmd.dir.name)) && (cmd.Store? ==> OneLine(cmd.file.name))
    ensures PlainSink(fs, root, OnCommand(s, cmd))
  {
    if cmd.Enter? { DirKeepsPlain(fs, root, s, cmd.dir); }
    if cmd.Store? { FileKeepsPlain(fs, root, s, cmd.file); }
  }

  lemma TakeKeepsPlain(fs: FileSystem, root: Path, s: Sink, input: string)
    requires s.Valid() && Ready(s, input) && PlainSink(fs, root, s)
    ensures PlainSink(fs, root, Take(s, input))
  {
    if s.phase.Header? { CommandKeepsPlain(fs, root, s, Parse(input[..Need(s, input) - 1])); }
  }

  /** Whatever arrives on the wire, no new path with a line break below the root is created. */
  lemma {:induction false} ReceiveKeepsPlain(fs: FileSystem, root: Path, s: Sink, input: string)
    requires s.Valid() && PlainSink(fs, root, s)
    ensures PlainSink(fs, root, Receive(s, input))
    decreases |input|
  {
    if Ready(s, input) {
      TakeKeepsPlain(fs, root, s, input);
      ReceiveKeepsPlain(fs, root, Take(s, input), input[Need(s, input)..]);
    }
  }

  /** A tree with a line break in a name that is sent has a path with a line break. */
  lemma {:induction false} BrokenNameShows(root: Path, path: Path, name: string, node: Node) returns (p: Path)
    requires root <= path && !node.Special? && (!OneLine(name) || !LineFree(node))
    ensures p in Image(path + [name], node) && !PlainBelow(root, p)
    decreases node
  {
    if !OneLine(name) {
      p := path + [name];
      assert !OneLine(p[|path|]);
    } else {
      p := BrokenEntryShows(root, path + [name], node.entries);
    }
  }

  lemma {:induction false} BrokenEntryShows(root: Path, dir: Path, entries: Entries) returns (p: Path)
    requires root <= dir && !LineFreeAll(entries)
    ensures p in ImageAll(dir, entries) && !PlainBelow(root, p)
    decreases entries
  {
    if LineFreeAll(entries.rest) {
      p := BrokenNameShows(root, dir, entries.name, entries.node);
      assert p in Image(dir + [entries.name], entries.node) + ImageAll(dir, entries.rest);
    } else {
      p := BrokenEntryShows(root, dir, entries.rest);
    }
  }

  lemma BrokenNamesFail(fs: FileSystem, root: Path, name: string, node: Node, input: string)
    requires Vacant(fs, root + [name]) && !node.Special? && (!OneLine(name) || !LineFree(node))
    ensures !Arrived(fs, root, root + [name], node, Receive(Start(fs, root), input))
  {
    var p := BrokenNameShows(root, root, name, node);
    ImageBelow(root + [name], node);
    ReceiveKeepsPlain(fs, root, Start(fs, root), input);
  }

  /**
    A copy into a directory reproduces every tree exactly when times are not sent and
    no name that is sent contains a line break.
   */
  lemma RoundTrip(fs: FileSystem, root: Path, name: string, node: Node, preserve: bool)
    requires IsDir(fs, root) && Vacant(fs, root + [name]) && !node.Special?
    requires EntryName(name) && Unix(node) && Distinct(node)
    ensures Arrived(fs, root, root + [name], node, Receive(Start(fs, root), Stream(name, node, preserve)))
            <==> !preserve && OneLine(name) && LineFree(node)
  {
    if preserve {
      PreserveFails(fs, root, name, node);
    } else if OneLine(name) && LineFree(node) {
      assert (root + [name])[..|root|] == root;
      RoundTripHolds(fs, root, name, node);
    } else {
      BrokenNamesFail(fs, root, name, node, Stream(name, node, preserve));
    }
  }
}
