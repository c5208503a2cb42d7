/** A directory copied to a target that does not exist yet, whatever its own name is. */
module ScpNewDirectory {
  import opened Text
  import opened Numerals
  import opened Wrappers
  import opened ScpFormat
  import opened ScpTree
  import opened ScpSink
  import opened ScpSource
  import opened ScpTransfer
  import opened ScpNewTarget

  // ---- pieces that the sink may refuse ----

  /** Every piece comes when the sink is ready for its kind, as long as none is refused. */
  predicate Flows(s: Sink, pieces: seq<Piece>)
    decreases pieces
  {
    s.Valid() &&
    (pieces != [] ==> Fits(s, pieces[0]) && (TakesOk(s, pieces[0]) ==> Flows(OnPiece(s, pieces[0]), pieces[1..])))
  }

  lemma {:induction false} FlowsAppend(s: Sink, a: seq<Piece>, b: seq<Piece>)
    requires Flows(s, a) && (Accepts(s, a) ==> Flows(After(s, a), b))
    ensures Flows(s, a + b)
    decreases a
  {
    if a == [] {
      assert a + b == b;
    } else if TakesOk(s, a[0]) {
      assert (a + b)[1..] == a[1..] + b;
      FlowsAppend(OnPiece(s, a[0]), a[1..], b);
    }
  }

  lemma FlowsOne(s: Sink, piece: Piece)
    requires Fits(s, piece)
    ensures Flows(s, [piece])
  {
    assert [piece][1..] == [];
  }

  lemma {:induction false} PiecesFlow(s: Sink, name: string, node: Node)
    requires s.Valid() && s.phase.Header?
    ensures Flows(s, Pieces(name, node, false))
    decreases node
  {
    match node
    case File(mode, _, content) =>
      var header, body := FilePiece(mode, |content|, name), DataPiece(content);
      assert Pieces(name, node, false) == [header] + [body];
      FlowsOne(s, header);
      AcceptsOne(s, header);
      RefusedIsNotOk(s.acks);
      if TakesOk(s, header) { FlowsOne(OnPiece(s, header), body); }
      FlowsAppend(s, [header], [body]);
    case Special(_, _, _, _) =>
    case Dir(mode, _, entries) =>
      var header, inner := DirPiece(mode, name), PiecesAll(entries, false);
      assert Pieces(name, node, false) == [header] + (inner + [EndPiece]);
      FlowsOne(s, header);
      AcceptsOne(s, header);
      RefusedIsNotOk(s.acks);
      if TakesOk(s, header) {
        var t := OnPiece(s, header);
        EntriesFlow(t, entries);
        TransfersAll(t, entries);
        if Accepts(t, inner) { FlowsOne(After(t, inner), EndPiece); }
        FlowsAppend(t, inner, [EndPiece]);
      }
      FlowsAppend(s, [header], inner + [EndPiece]);
  }

  lemma {:induction false} EntriesFlow(s: Sink, entries: Entries)
    requires s.Valid() && s.phase.Header?
    ensures Flows(s, PiecesAll(entries, false))
    decreases entries
  {
    if entries.Cons? {
      var first, more := Pieces(entries.name, entries.node, false), PiecesAll(entries.rest, false);
      PiecesFlow(s, entries.name, entries.node);
      Transfers(s, entries.name, entries.node);
      if Accepts(s, first) { EntriesFlow(After(s, first), entries.rest); }
      FlowsAppend(s, first, more);
    }
  }

  lemma NotOkIsFailed(s: Sink, piece: Piece)
    requires Fits(s, piece) && !TakesOk(s, piece)
    ensures OnPiece(s, piece).phase.Failed?
  {
  }

  /** A stream that is refused somewhere ends in failure. */
  lemma {:induction false} RefusedStream(s: Sink, pieces: seq<Piece>)
    requires Flows(s, pieces) && AllPrintable(pieces) && !Accepts(s, pieces)
    ensures Receive(s, Concat(pieces)).phase.Failed?
    decreases pieces
  {
    var rest := Concat(pieces[1..]);
    ReceivesPiece(s, pieces[0], rest);
    if TakesOk(s, pieces[0]) {
      RefusedStream(OnPiece(s, pieces[0]), pieces[1..]);
    } else {
      NotOkIsFailed(s, pieces[0]);
      Stuck(OnPiece(s, pieces[0]), rest);
    }
  }

  /** The rest of a directory's stream: it is placed and left, or it fails. */
  lemma EntriesThenEnd(s: Sink, entries: Entries, out: Option<FileSystem>)
    requires s.Valid() && s.phase.Header? && UnixAll(entries) && LineFreeAll(entries)
    requires Delivers(s, PiecesAll(entries, false), out)
    ensures var end := Receive(s, Concat(PiecesAll(entries, false) + [EndPiece]));
            if out.Some? then end == LeaveDir(Placed(s, out.value, |PiecesAll(entries, false)|)) else end.phase.Failed?
  {
    var inner := PiecesAll(entries, false);
    EntriesPrintable(entries, false);
    EntriesFlow(s, entries);
    AcceptsAppend(s, inner, [EndPiece]);
    if out.Some? {
      var t := After(s, inner);
      AcceptsOne(t, EndPiece);
      ReceivesPieces(s, inner + [EndPiece]);
      Stuck(LeaveDir(t), "");
    } else {
      FlowsAppend(s, inner, [EndPiece]);
      RefusedStream(s, inner + [EndPiece]);
    }
  }

  // ---- entries received at the bottom of the stack take the place of the target itself ----

  /** Each entry placed at `path`, its name unused. */
  function PlaceOver(fs: FileSystem, path: Path, entries: Entries): Option<FileSystem>
    decreases entries
  {
    match entries
    case Nil => Some(fs)
    case Cons(_, node, rest) =>
      var placed := Place(fs, path, node);
      if placed.None? then None else PlaceOver(placed.value, path, rest)
  }

  lemma {:induction false} TransfersOver(s: Sink, root: Path, entries: Entries)
    requires s.phase.Header? && s.dirs == [root] && !s.targetIsDir
    ensures Delivers(s, PiecesAll(entries, false), PlaceOver(s.fs, root, entries))
    decreases entries
  {
    match entries
    case Nil => OksAdd(s.acks, 0, 0);
    case Cons(name, node, rest) =>
      var first, more := Pieces(name, node, false), PiecesAll(rest, false);
      Transfers(s, name, node);
      var placed := Place(s.fs, root, node);
      if placed.None? {
        AcceptsAppend(s, first, more);
      } else {
        var t := Placed(s, placed.value, |first|);
        TransfersOver(t, root, rest);
        DeliversBoth(s, first, placed.value, more, PlaceOver(t.fs, root, rest));
      }
  }

  /** How far below its top a tree reaches. */
  function Height(node: Node): nat
    decreases node
  {
    if node.Dir? then HeightAll(node.entries) else 0
  }

  function HeightAll(entries: Entries): nat
    decreases entries
  {
    if entries.Nil? then 0
    else
      var first, more := if entries.node.Special? then 0 else 1 + Height(entries.node), HeightAll(entries.rest);
      if first > more then first else more
  }

  predicate SendsNothing(entries: Entries) { entries.Cons? ==> entries.node.Special? && SendsNothing(entries.rest) }

  lemma {:induction false} SendsNothingIsFlat(entries: Entries)
    ensures SendsNothing(entries) <==> HeightAll(entries) == 0
    ensures SendsNothing(entries) ==> forall fs, path :: PlaceOver(fs, path, entries) == Some(fs)
    ensures SendsNothing(entries) ==> forall dir :: ImageAll(dir, entries) == map[]
    decreases entries
  {
    if entries.Cons? { SendsNothingIsFlat(entries.rest); }
  }

  /** No path of `g` that is not in `fs` is longer than `n`. */
  ghost predicate Shallow(fs: FileSystem, g: FileSystem, n: nat) { forall p :: p in g && p !in fs ==> |p| <= n }

  lemma {:induction false} MkdirIsShallow(fs: FileSystem, path: Path, mode: nat)
    ensures var r := MkdirAll(fs, path, mode); r.Some? ==> Shallow(fs, r.value, |path|)
    decreases |path|
  {
    if !IsDir(fs, path) && path !in fs { MkdirIsShallow(fs, path[..|path| - 1], mode); }
  }

  lemma {:induction false} PlaceIsShallow(fs: FileSystem, path: Path, node: Node)
    ensures var r := Place(fs, path, node); r.Some? ==> Shallow(fs, r.value, |path| + Height(node))
    decreases node
  {
    if node.Dir? {
      MkdirIsShallow(fs, path, node.mode);
      var made := MkdirAll(fs, path, node.mode);
      if made.Some? { PlaceAllIsShallow(made.value, path, node.entries); }
    }
  }

  lemma {:induction false} PlaceAllIsShallow(fs: FileSystem, dir: Path, entries: Entries)
    ensures var r := PlaceAll(fs, dir, entries); r.Some? ==> Shallow(fs, r.value, |dir| + HeightAll(entries))
    decreases entries
  {
    if entries.Cons? {
      PlaceIsShallow(fs, dir + [entries.name], entries.node);
      var placed := Place(fs, dir + [entries.name], entries.node);
      if placed.Some? { PlaceAllIsShallow(placed.value, dir, entries.rest); }
    }
  }

  lemma {:induction false} PlaceOverIsShallow(fs: FileSystem, path: Path, entries: Entries)
    requires HeightAll(entries) > 0
    ensures var r := PlaceOver(fs, path, entries); r.Some? ==> Shallow(fs, r.value, |path| + HeightAll(entries) - 1)
    decreases entries
  {
    PlaceIsShallow(fs, path, entries.node);
    var placed := Place(fs, path, entries.node);
    if placed.Some? {
      if HeightAll(entries.rest) > 0 {
        PlaceOverIsShallow(placed.value, path, entries.rest);
      } else {
        SendsNothingIsFlat(entries.rest);
      }
    }
  }

  /** The image of a tree reaches as far as the tree. */
  lemma {:induction false} ImageIsDeep(path: Path, node: Node) returns (p: Path)
    requires !node.Special?
    ensures p in Image(path, node) && |p| == |path| + Height(node)
    decreases node
  {
    p := path;
    if node.Dir? && Height(node) > 0 { p := ImageAllIsDeep(path, node.entries); }
  }

  lemma {:induction false} ImageAllIsDeep(dir: Path, entries: Entries) returns (p: Path)
    requires HeightAll(entries) > 0
    ensures p in ImageAll(dir, entries) && |p| == |dir| + HeightAll(entries)
    decreases entries
  {
    if HeightAll(entries.rest) == HeightAll(entries) {
      p := ImageAllIsDeep(dir, entries.rest);
    } else {
      p := ImageIsDeep(dir + [entries.name], entries.node);
    }
  }

  /** So what is placed over the target is never the tree, unless nothing is sent. */
  lemma OverIsNotTheTree(fs: FileSystem, made: FileSystem, root: Path, node: Node)
    requires node.Dir? && Vacant(fs, root) && made == fs[root := DirEntry(node.mode)]
    ensures PlaceOver(made, root, node.entries) == Some(fs + Image(root, node)) <==> SendsNothing(node.entries)
  {
    var out := PlaceOver(made, root, node.entries);
    SendsNothingIsFlat(node.entries);
    if SendsNothing(node.entries) {
      assert fs + Image(root, node) == made;
    } else if out.Some? {
      PlaceOverIsShallow(made, root, node.entries);
      var p := ImageAllIsDeep(root, node.entries);
      DeepIsMissing(fs, made, root, node, out.value, p);
    }
  }

  lemma DeepIsMissing(fs: FileSystem, made: FileSystem, root: Path, node: Node, out: FileSystem, p: Path)
    requires node.Dir? && Vacant(fs, root) && made == fs[root := DirEntry(node.mode)] && HeightAll(node.entries) > 0
    requires Shallow(made, out, |root| + HeightAll(node.entries) - 1)
    requires p in ImageAll(root, node.entries) && |p| == |root| + HeightAll(node.entries)
    ensures out != fs + Image(root, node)
  {
    ImageBelow(root, node);
    assert p in Image(root, node);
    assert Under(root, p) && p != root;
    assert p !in made;
  }

  // ---- what the lines of a header make the sink do ----

  function Lines(lines: seq<string>): string {
    if lines == [] then "" else lines[0] + "\n" + Lines(lines[1..])
  }

  lemma {:induction false} SplitJoins(s: string)
    ensures Lines(Split(s, '\n')) == s + "\n"
    decreases |s|
  {
    if s == "" {
      assert Split(s, '\n')[1..] == [];
    } else {
      SplitJoins(s[1..]);
      JoinFirst(s, Split(s[1..], '\n'));
    }
  }

  lemma JoinFirst(s: string, r: seq<string>)
    requires s != "" && r == Split(s[1..], '\n') && Lines(r) == s[1..] + "\n"
    ensures Lines(Split(s, '\n')) == s + "\n"
  {
    assert s == [s[0]] + s[1..];
    if s[0] == '\n' {
      assert ([""] + r)[1..] == r;
    } else {
      assert ([[s[0]] + r[0]] + r[1..])[1..] == r[1..];
      assert [s[0]] + r[0] + "\n" + Lines(r[1..]) == [s[0]] + (r[0] + "\n" + Lines(r[1..]));
    }
  }

  lemma {:induction false} SplitFirst(a: string, b: string)
    requires OneLine(a)
    ensures Split(a + "\n" + b, '\n') == [a] + Split(b, '\n')
    decreases |a|
  {
    var s := a + "\n" + b;
    if a == "" {
      assert s[1..] == b;
    } else {
      assert s[1..] == a[1..] + "\n" + b && a == [a[0]] + a[1..];
      SplitFirst(a[1..], b);
      assert ([a[1..]] + Split(b, '\n'))[1..] == Split(b, '\n');
    }
  }

  /** The sink after the lines, if none of them makes it wait for a body. */
  function Obey(s: Sink, lines: seq<string>): (r: Sink)
    requires s.Valid()
    ensures r.Valid()
    decreases |lines|
  {
    if lines == [] || !s.phase.Header? then s else Obey(OnCommand(s, Parse(lines[0])), lines[1..])
  }

  predicate AllOneLine(lines: seq<string>) { forall l :: l in lines ==> OneLine(l) }

  lemma {:induction false} ObeysLines(s: Sink, lines: seq<string>, rest: string)
    requires s.Valid() && !s.phase.Body? && AllOneLine(lines) && !Obey(s, lines).phase.Body?
    ensures Receive(s, Lines(lines) + rest) == Receive(Obey(s, lines), rest)
    decreases |lines|
  {
    if lines == [] {
      assert "" + rest == rest;
    } else if s.phase.Failed? {
      Stuck(s, Lines(lines) + rest);
      Stuck(s, rest);
    } else {
      var more := Lines(lines[1..]);
      assert lines[0] + "\n" + more + rest == lines[0] + "\n" + (more + rest);
      BrokenHeaderTaken(s, lines[0], more + rest);
      ObeysOn(s, lines);
      ObeysLines(OnCommand(s, Parse(lines[0])), lines[1..], rest);
    }
  }

  lemma ObeysOn(s: Sink, lines: seq<string>)
    requires s.Valid() && s.phase.Header? && lines != [] && !Obey(s, lines).phase.Body?
    ensures !OnCommand(s, Parse(lines[0])).phase.Body?
  {
  }

  /** The lower two places of the stack are the target, which was no directory at first. */
  predicate Stacked(s: Sink, root: Path) {
    s.dirs != [] && s.dirs[0] == root && (|s.dirs| > 1 ==> s.dirs[1] == root) && !s.targetIsDir
  }

  lemma CommandKeepsStacked(s: Sink, root: Path, cmd: Command)
    requires Stacked(s, root)
    ensures Stacked(OnCommand(s, cmd), root)
  {
  }

  lemma {:induction false} ObeyKeepsStacked(s: Sink, root: Path, lines: seq<string>)
    requires Stacked(s, root)
    ensures Stacked(Obey(s, lines), root)
    decreases |lines|
  {
    if lines != [] && s.phase.Header? {
      CommandKeepsStacked(s, root, Parse(lines[0]));
      ObeyKeepsStacked(OnCommand(s, Parse(lines[0])), root, lines[1..]);
    }
  }

  // ---- a directory arrives exactly when its entries, put where the header leads, give the tree ----

  /** Where the header has led the sink, its entries give the whole tree. */
  predicate LeadsTo(u: Sink, root: Path, entries: Entries, goal: FileSystem) {
    u.phase.Header? &&
    (|| (|u.dirs| == 2 && PlaceAll(u.fs, root, entries) == Some(goal))
     || (|u.dirs| == 1 && PlaceOver(u.fs, root, entries) == Some(goal)))
  }

  /** Leaving a directory ends at the bottom of the stack from its lower two places. */
  lemma LeavesToBottom(u: Sink, root: Path, out: FileSystem, n: nat)
    requires Stacked(u, root)
    ensures var end := LeaveDir(Placed(u, out, n));
            end.fs == out && end.phase == u.phase && (end.dirs == [root] <==> |u.dirs| <= 2)
  {
    var dirs := LeaveDir(Placed(u, out, n)).dirs;
    assert |u.dirs| <= 2 ==> |dirs| == 1 && dirs[0] == root;
    assert |u.dirs| > 2 ==> |dirs| > 1;
  }

  lemma EntriesEnd(u: Sink, root: Path, entries: Entries, out: Option<FileSystem>, goal: FileSystem)
    requires u.phase.Header? && Stacked(u, root) && UnixAll(entries) && LineFreeAll(entries)
    requires Delivers(u, PiecesAll(entries, false), out)
    ensures var end := Receive(u, Concat(PiecesAll(entries, false) + [EndPiece]));
            end.phase.Header? && end.dirs == [root] && end.fs == goal <==> |u.dirs| <= 2 && out == Some(goal)
  {
    EntriesThenEnd(u, entries, out);
    if out.Some? { LeavesToBottom(u, root, out.value, |PiecesAll(entries, false)|); }
  }

  lemma EntriesLeadHome(u: Sink, root: Path, entries: Entries, goal: FileSystem)
    requires u.phase.Header? && Stacked(u, root) && UnixAll(entries) && LineFreeAll(entries)
    ensures var end := Receive(u, Concat(PiecesAll(entries, false) + [EndPiece]));
            end.phase.Header? && end.dirs == [root] && end.fs == goal <==> LeadsTo(u, root, entries, goal)
  {
    var out := EntriesDelivered(u, root, entries);
    EntriesEnd(u, root, entries, out, goal);
  }

  lemma EntriesDelivered(u: Sink, root: Path, entries: Entries) returns (out: Option<FileSystem>)
    requires u.phase.Header? && Stacked(u, root)
    ensures Delivers(u, PiecesAll(entries, false), out)
    ensures |u.dirs| == 1 ==> out == PlaceOver(u.fs, root, entries)
    ensures |u.dirs| == 2 ==> out == PlaceAll(u.fs, root, entries)
  {
    if |u.dirs| == 1 {
      assert u.dirs == [root];
      TransfersOver(u, root, entries);
      out := PlaceOver(u.fs, root, entries);
    } else {
      TransfersAll(u, entries);
      out := PlaceAll(u.fs, u.Top(), entries);
    }
  }

  function HeaderLines(mode: nat, name: string): seq<string> { Split(PrintDir(mode, name), '\n') }

  lemma DirStream(name: string, node: Node)
    requires node.Dir?
    ensures Stream(name, node, false) ==
            Lines(HeaderLines(node.mode, name)) + Concat(PiecesAll(node.entries, false) + [EndPiece])
  {
    var header, more := DirPiece(node.mode, name), PiecesAll(node.entries, false) + [EndPiece];
    assert Pieces(name, node, false) == [header] + more;
    assert ([header] + more)[1..] == more;
    SplitJoins(PrintDir(node.mode, name));
  }

  lemma LedHome(fs: FileSystem, root: Path, entries: Entries, lines: seq<string>, goal: FileSystem)
    requires !IsDir(fs, root) && UnixAll(entries) && LineFreeAll(entries) && AllOneLine(lines)
    requires !Obey(Start(fs, root), lines).phase.Body?
    ensures var end := Receive(Start(fs, root), Lines(lines) + Concat(PiecesAll(entries, false) + [EndPiece]));
            end.phase.Header? && end.dirs == [root] && end.fs == goal
            <==> LeadsTo(Obey(Start(fs, root), lines), root, entries, goal)
  {
    var s, rest := Start(fs, root), Concat(PiecesAll(entries, false) + [EndPiece]);
    var u := Obey(s, lines);
    ObeysLines(s, lines, rest);
    ObeyKeepsStacked(s, root, lines);
    if u.phase.Header? {
      EntriesLeadHome(u, root, entries, goal);
    } else {
      Stuck(u, rest);
    }
  }

  /**
    A directory whose header does not open a file arrives exactly when its entries,
    put where the lines of the header lead, give the tree.
   */
  lemma ArrivesIffLedHome(fs: FileSystem, root: Path, name: string, node: Node)
    requires New(fs, root) && node.Dir? && Unix(node) && LineFree(node)
    requires !Obey(Start(fs, root), HeaderLines(node.mode, name)).phase.Body?
    ensures Arrived(fs, root, root, node, Receive(Start(fs, root), Stream(name, node, false)))
            <==> var u := Obey(Start(fs, root), HeaderLines(node.mode, name));
                 LeadsTo(u, root, node.entries, fs + Image(root, node))
  {
    NewIsNoDir(fs, root, name);
    DirStream(name, node);
    LedHome(fs, root, node.entries, HeaderLines(node.mode, name), fs + Image(root, node));
  }

  // ---- names that do not spell a header ----

  /** Lines that the sink takes without touching a file. */
  predicate Quiet(line: string) {
    var cmd := Parse(line);
    cmd.Blank? || cmd.SetTimes? || cmd.Leave?
  }

  predicate AllQuiet(lines: seq<string>) { lines == [] || (Quiet(lines[0]) && AllQuiet(lines[1..])) }

  /** Some line is the end of a directory. */
  predicate Leaves(lines: seq<string>) { lines != [] && (Parse(lines[0]).Leave? || Leaves(lines[1..])) }

  /** The first line that is not quiet is a header that the sink obeys. */
  predicate SpellsHeader(lines: seq<string>) {
    lines != [] && if Quiet(lines[0]) then SpellsHeader(lines[1..]) else !Parse(lines[0]).Malformed?
  }

  /** Quiet lines leave at most the target itself; the first other line is refused. */
  lemma {:induction false} ObeysQuietly(s: Sink, root: Path, lines: seq<string>)
    requires s.phase.Header? && (s.dirs == [root] || s.dirs == [root, root]) && !SpellsHeader(lines)
    ensures var u := Obey(s, lines);
            if AllQuiet(lines)
            then u.phase.Header? && u.fs == s.fs && u.dirs == (if Leaves(lines) then [root] else s.dirs)
            else u.phase.Failed?
    decreases |lines|
  {
    if lines != [] && Quiet(lines[0]) {
      var t := OnCommand(s, Parse(lines[0]));
      assert t.dirs == if Parse(lines[0]).Leave? then [root] else s.dirs;
      ObeysQuietly(t, root, lines[1..]);
    }
  }

  /** What comes after the first line break of a name. */
  function Remainder(name: string): seq<string>
    requires !OneLine(name)
  {
    Split(Cut(name, '\n').after, '\n')
  }

  /** A directory name whose line breaks do no harm. */
  predicate Harmless(name: string, entries: Entries) {
    !OneLine(name) ==>
      && CleanName(Cut(name, '\n').before)
      && AllQuiet(Remainder(name))
      && (Leaves(Remainder(name)) ==> SendsNothing(entries))
  }

  lemma BrokenHeaderLines(mode: nat, name: string)
    requires !OneLine(name)
    ensures HeaderLines(mode, name) == [PrintDir(mode, Cut(name, '\n').before)] + Remainder(name)
    ensures OneLine(Cut(name, '\n').before)
  {
    var cut := Cut(name, '\n');
    assert PrintDir(mode, name) == PrintDir(mode, cut.before) + "\n" + cut.after;
    HeadersAreLines(mode, 0, cut.before, 0);
    SplitFirst(PrintDir(mode, cut.before), cut.after);
  }

  lemma FirstLineMeans(mode: nat, a: string)
    requires mode <= MAX_UINT32
    ensures Parse(PrintDir(mode, a)) == if CleanName(a) then Enter(EntryHeader(mode, a)) else Malformed(BadName)
  {
    DirHeaderParses(mode, a);
    DirLineMeans(PrintDir(mode, a), EntryHeader(mode, a));
  }

  lemma DirLineMeans(line: string, h: EntryHeader)
    requires line != "" && line[0] == 'D' && ParseEntry(line) == Some(h)
    ensures Parse(line) == if CleanName(h.name) then Enter(h) else Malformed(BadName)
  {
  }

  /** The sink after a broken header that spells no other. */
  lemma ObeysBroken(fs: FileSystem, root: Path, mode: nat, first: string, a: string, lines: seq<string>)
    requires New(fs, root) && !SpellsHeader(lines)
    requires Parse(first) == if CleanName(a) then Enter(EntryHeader(mode, a)) else Malformed(BadName)
    ensures var u := Obey(Start(fs, root), [first] + lines);
            if CleanName(a) && AllQuiet(lines)
            then u.phase.Header? && u.fs == fs[root := DirEntry(mode)] &&
                 u.dirs == if Leaves(lines) then [root] else [root, root]
            else u.phase.Failed?
  {
    var s := Start(fs, root);
    assert ([first] + lines)[1..] == lines;
    var t := OnCommand(s, Parse(first));
    assert Obey(s, [first] + lines) == Obey(t, lines);
    if CleanName(a) {
      EntersNew(fs, root, EntryHeader(mode, a));
      ObeysQuietly(t, root, lines);
    }
  }

  /** Placing the entries gives the tree, and over the target only if there are none. */
  lemma LeadsToTheTree(fs: FileSystem, root: Path, node: Node, u: Sink)
    requires New(fs, root) && node.Dir? && Unix(node) && Distinct(node)
    requires u.phase.Header? && u.fs == fs[root := DirEntry(node.mode)]
    requires u.dirs == [root] || u.dirs == [root, root]
    ensures LeadsTo(u, root, node.entries, fs + Image(root, node))
            <==> (u.dirs == [root] ==> SendsNothing(node.entries))
  {
    if u.dirs == [root] {
      OverIsNotTheTree(fs, u.fs, root, node);
    } else {
      EntersNew(fs, root, EntryHeader(node.mode, ""));
      PlaceVacant(fs, root, node);
    }
  }

  lemma BrokenDirArrives(fs: FileSystem, root: Path, name: string, node: Node)
    requires New(fs, root) && node.Dir? && Unix(node) && Distinct(node) && LineFree(node)
    requires !OneLine(name) && !SpellsHeader(Remainder(name))
    ensures Arrived(fs, root, root, node, Receive(Start(fs, root), Stream(name, node, false)))
            <==> Harmless(name, node.entries)
  {
    var a, lines := Cut(name, '\n').before, Remainder(name);
    BrokenHeaderLines(node.mode, name);
    FirstLineMeans(node.mode, a);
    ObeysBroken(fs, root, node.mode, PrintDir(node.mode, a), a, lines);
    var u := Obey(Start(fs, root), [PrintDir(node.mode, a)] + lines);
    ArrivesIffLedHome(fs, root, name, node);
    if u.phase.Header? { LeadsToTheTree(fs, root, node, u); }
  }

  /** Names for which the sink reads no other header in the source's own name. */
  predicate ReadAsOneName(name: string, node: Node) {
    OneLine(name) || (if node.File? then '\0' !in name else !SpellsHeader(Remainder(name)))
  }

  /**
    A copy to a new target reproduces the tree exactly when times are not sent, no name below the top has
    a line break, and the name of the top has none either or is a directory's and does no harm.
   */
  lemma RoundTripToNewTarget(fs: FileSystem, root: Path, name: string, node: Node, preserve: bool)
    requires New(fs, root) && !node.Special? && EntryName(name) && Unix(node) && Distinct(node)
    requires ReadAsOneName(name, node)
    ensures Arrived(fs, root, root, node, Receive(Start(fs, root), Stream(name, node, preserve)))
            <==> !preserve && LineFree(node) && (OneLine(name) || (node.Dir? && Harmless(name, node.entries)))
  {
    NewIsNoDir(fs, root, name);
    if preserve {
      PreserveFails(fs, root, name, node);
    } else if !LineFree(node) {
      BrokenTreeFails(fs, root, node, Stream(name, node, preserve));
    } else if OneLine(name) {
      RoundTripHolds(fs, root, name, node);
    } else if node.File? {
      BrokenFileFails(fs, root, name, node);
    } else {
      BrokenDirArrives(fs, root, name, node);
    }
  }

  lemma {:induction false} SplitOneLine(s: string)
    requires OneLine(s)
    ensures Split(s, '\n') == [s]
    decreases |s|
  {
    if s != "" {
      SplitOneLine(s[1..]);
      assert s == [s[0]] + s[1..];
    }
  }

  lemma OnlyLine(lines: seq<string>, b: string)
    requires lines == [b] && Quiet(b)
    ensures AllQuiet(lines) && !SpellsHeader(lines) && (Leaves(lines) <==> Parse(b).Leave?)
  {
    var rest := lines[1..];
    assert rest == [] && AllQuiet(rest) && !SpellsHeader(rest) && !Leaves(rest);
  }

  /** A name of two lines, the second of them quiet. */
  lemma TwoLines(a: string, b: string, name: string, entries: Entries)
    requires OneLine(a) && OneLine(b) && name == a + "\n" + b && CleanName(a) && Quiet(b)
    ensures !OneLine(name) && !SpellsHeader(Remainder(name))
    ensures Harmless(name, entries) <==> (Parse(b).Leave? ==> SendsNothing(entries))
  {
    assert name[|a|] == '\n';
    CutOf(a, '\n', b);
    SplitOneLine(b);
    OnlyLine(Remainder(name), b);
  }

  lemma LineMeans()
    ensures Parse("").Blank? && Parse("E").Leave? && OneLine("") && OneLine("E")
  {
  }

  /** A line break at the end of a directory's name is lost on the way, and the tree still arrives. */
  lemma BrokenDirNameMayArrive(fs: FileSystem, root: Path, a: string, node: Node)
    requires New(fs, root) && EntryName(a) && OneLine(a)
    requires node.Dir? && Unix(node) && Distinct(node) && LineFree(node)
    ensures Arrived(fs, root, root, node, Receive(Start(fs, root), Stream(a + "\n" + "", node, false)))
  {
    LineMeans();
    TwoLines(a, "", a + "\n" + "", node.entries);
    BrokenDirArrives(fs, root, a + "\n" + "", node);
  }

  /** A name that goes on with a line "E" closes its directory early: only an empty one arrives. */
  lemma BrokenDirNameMayFail(fs: FileSystem, root: Path, a: string, node: Node)
    requires New(fs, root) && EntryName(a) && OneLine(a)
    requires node.Dir? && Unix(node) && Distinct(node) && LineFree(node)
    ensures Arrived(fs, root, root, node, Receive(Start(fs, root), Stream(a + "\n" + "E", node, false)))
            <==> SendsNothing(node.entries)
  {
    LineMeans();
    TwoLines(a, "E", a + "\n" + "E", node.entries);
    BrokenDirArrives(fs, root, a + "\n" + "E", node);
  }
}
