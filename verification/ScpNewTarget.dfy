/** A copy to a target that does not exist yet: the tree itself takes its place, without the source's name. */
module ScpNewTarget {
  import opened Text
  import opened Numerals
  import opened Wrappers
  import opened ScpFormat
  import opened ScpTree
  import opened ScpSink
  import opened ScpSource
  import opened ScpTransfer

  /** Nothing is there, but its parent is a directory. */
  ghost predicate New(fs: FileSystem, root: Path) {
    root != [] && IsDir(fs, root[..|root| - 1]) && Vacant(fs, root)
  }

  lemma NewIsNoDir(fs: FileSystem, root: Path, name: string)
    requires New(fs, root)
    ensures root !in fs && !IsDir(fs, root) && Start(fs, root).Target(name) == root
  {
    assert Under(root, root);
  }

  // ---- names below the top ----

  lemma BrokenTreeFails(fs: FileSystem, root: Path, node: Node, input: string)
    requires New(fs, root) && !LineFree(node)
    ensures !Arrived(fs, root, root, node, Receive(Start(fs, root), input))
  {
    var p := BrokenEntryShows(root, root, node.entries);
    assert p in Image(root, node);
    ImageBelow(root, node);
    ReceiveKeepsPlain(fs, root, Start(fs, root), input);
  }

  // ---- a file whose own name has a line break ----

  lemma Reassociated(x: string, f: string, a: string, b: string, rest: string)
    ensures x + (f + " " + (a + "\n" + b)) + "\n" + rest == x + (f + " " + a) + "\n" + (b + "\n" + rest)
  {
  }

  lemma TwoPieces(header: Piece, body: Piece)
    ensures Concat([header, body]) == Bytes(header) + Bytes(body)
  {
    assert [header, body][1..] == [body] && [body][1..] == [];
    assert Concat([body]) == Bytes(body) + "" == Bytes(body);
  }

  /** Where the header of a broken name ends for the sink. */
  lemma BrokenHeader(mode: nat, size: nat, a: string, b: string, content: string)
    ensures Concat([FilePiece(mode, size, a + "\n" + b), DataPiece(content)]) ==
            PrintFile(mode, size, a) + "\n" + (b + "\n" + (content + "\0"))
  {
    TwoPieces(FilePiece(mode, size, a + "\n" + b), DataPiece(content));
    Reassociated("C" + Octal4(mode) + " ", Format(size, 10), a, b, content + "\0");
  }

  /** Shifted by what is left of the name, a content that repeats itself never shows a zero byte. */
  lemma {:induction false} ShiftedHasNoZero(pre: string, content: string, k: nat)
    requires pre != "" && '\0' !in pre && k <= |content| && (pre + content)[..|content|] == content
    ensures (pre + content)[k] != '\0'
    decreases k
  {
    if k >= |pre| {
      ShiftedHasNoZero(pre, content, k - |pre|);
      assert (pre + content)[k] == content[k - |pre|] == (pre + content)[..|content|][k - |pre|];
    }
  }

  lemma NoZeroEarly(pre: string, content: string, k: nat)
    requires '\0' !in pre && k < |pre|
    ensures (pre + content)[k] != '\0'
  {
    assert (pre + content)[k] == pre[k];
  }

  /** What the content of a file can have become after more input. */
  predicate Kept(was: FileSystem, fs: FileSystem, p: Path, n: nat) {
    p in fs && fs[p].FileEntry? && ((p in was && fs[p] == was[p]) || |fs[p].content| <= n)
  }

  /** A file is as it was, or holds no more than the input that followed. */
  predicate Grows(s: Sink, end: Sink, p: Path, n: nat)
    requires p in s.fs && s.fs[p].FileEntry?
  {
    var held := if s.phase.Body? && s.phase.dest == p then |s.fs[p].content| + n else n;
    Kept(s.fs, end.fs, p, held)
  }

  lemma {:induction false} MkdirKeeps(fs: FileSystem, path: Path, mode: nat, p: Path)
    requires p in fs
    ensures var r := MkdirAll(fs, path, mode); r.Some? ==> p in r.value && r.value[p] == fs[p]
    decreases |path|
  {
    if !IsDir(fs, path) && path !in fs { MkdirKeeps(fs, path[..|path| - 1], mode, p); }
  }

  /** A command leaves a file alone or truncates it. */
  lemma CommandKeeps(s: Sink, cmd: Command, p: Path)
    requires s.Valid() && s.phase.Header? && p in s.fs && s.fs[p].FileEntry?
    ensures var r := OnCommand(s, cmd);
            && p in r.fs && r.fs[p].FileEntry?
            && (r.phase.Body? && r.phase.dest == p ==> r.fs[p].content == "")
            && (!(r.phase.Body? && r.phase.dest == p) ==> r.fs[p] == s.fs[p])
  {
    if cmd.Enter? { MkdirKeeps(s.fs, s.Target(cmd.dir.name), cmd.dir.mode, p); }
  }

  /** One step leaves a file alone, truncates it, or appends what it took. */
  lemma TakeKeeps(s: Sink, input: string, p: Path)
    requires s.Valid() && Ready(s, input) && p in s.fs && s.fs[p].FileEntry?
    ensures var r, n := Take(s, input), Need(s, input);
            && p in r.fs && r.fs[p].FileEntry?
            && (if s.phase.Body? && s.phase.dest == p
                then !r.phase.Body? && |r.fs[p].content| <= |s.fs[p].content| + n
                else if r.phase.Body? && r.phase.dest == p then r.fs[p].content == "" else r.fs[p] == s.fs[p])
  {
    if s.phase.Header? { CommandKeeps(s, Parse(input[..Need(s, input) - 1]), p); }
  }

  lemma {:induction false} ReceiveGrows(s: Sink, input: string, p: Path)
    requires s.Valid() && p in s.fs && s.fs[p].FileEntry?
    ensures Grows(s, Receive(s, input), p, |input|)
    decreases |input|
  {
    if Ready(s, input) {
      TakeKeeps(s, input, p);
      ReceiveGrows(Take(s, input), input[Need(s, input)..], p);
    }
  }

  /** After a broken header with a usable first line, the body does not fit. */
  lemma BrokenBodyFails(s: Sink, content: string, pre: string)
    requires s.Valid() && s.phase.Body? && s.phase.size == |content| && pre != "" && '\0' !in pre
    requires s.phase.dest in s.fs && s.fs[s.phase.dest].FileEntry? && s.fs[s.phase.dest].content == ""
    ensures var end := Receive(s, pre + content + "\0");
            end.phase.Failed? || s.phase.dest !in end.fs || !end.fs[s.phase.dest].FileEntry? ||
            end.fs[s.phase.dest].content != content
  {
    var input, n, p := pre + content + "\0", |content|, s.phase.dest;
    BodyStep(s, input);
    var r, rest := OnBody(s, input[..n + 1]), input[n + 1..];
    assert input[..n + 1][..n] == (pre + content)[..n] && input[..n + 1][n] == (pre + content)[n];
    if (pre + content)[n] != '\0' {
      Stuck(r, rest);
    } else {
      assert (pre + content)[..n] != content by {
        if (pre + content)[..n] == content { ShiftedHasNoZero(pre, content, n); }
      }
      if n < |pre| {
        NoZeroEarly(pre, content, n);
        assert false;
      }
      assert r.fs[p].content == "" + (pre + content)[..n];
      ReceiveGrows(r, rest, p);
      LastBytes(r, rest, p, content);
    }
  }

  /** Fewer bytes are left than the file should hold, and one of them would be a header. */
  lemma LastBytes(r: Sink, rest: string, p: Path, content: string)
    requires r.Valid() && r.phase.Header? && p in r.fs && r.fs[p].FileEntry? && r.fs[p].content != content
    requires |rest| <= |content|
    ensures var end := Receive(r, rest); p in end.fs && end.fs[p].FileEntry? && end.fs[p].content != content
  {
    if Ready(r, rest) {
      var n := Need(r, rest);
      CommandKeeps(r, Parse(rest[..n - 1]), p);
      var t := Take(r, rest);
      ReceiveGrows(t, rest[n..], p);
    }
  }

  /** The sink after a broken header: it takes the first line for the whole. */
  lemma BrokenHeaderTaken(s: Sink, line: string, rest: string)
    requires s.Valid() && s.phase.Header? && OneLine(line)
    ensures Receive(s, line + "\n" + rest) == Receive(OnCommand(s, Parse(line)), rest)
  {
    HeaderStep(s, line, rest);
    assert (line + "\n" + rest)[|line| + 1..] == rest;
  }

  lemma OpensNew(fs: FileSystem, root: Path, h: FileHeader)
    requires New(fs, root)
    ensures var r := OpenFile(Start(fs, root), h);
            r.phase == Body(root, h.size) && r.fs == fs[root := FileEntry(h.mode, "")]
  {
    NewIsNoDir(fs, root, h.name);
  }

  lemma StoredWrong(fs: FileSystem, root: Path, node: Node, end: Sink)
    requires node.File?
    requires end.phase.Failed? || root !in end.fs || !end.fs[root].FileEntry? || end.fs[root].content != node.content
    ensures !Arrived(fs, root, root, node, end)
  {
    assert (fs + Image(root, node))[root] == FileEntry(node.mode, node.content);
  }

  /** Whatever the first line means, the file does not arrive. */
  lemma BrokenCommandFails(fs: FileSystem, root: Path, node: Node, cmd: Command, pre: string, input: string)
    requires New(fs, root) && node.File? && pre != "" && '\0' !in pre && input == pre + node.content + "\0"
    requires cmd.Malformed? || (cmd.Store? && cmd.file.size == |node.content|)
    ensures !Arrived(fs, root, root, node, Receive(OnCommand(Start(fs, root), cmd), input))
  {
    var s := OnCommand(Start(fs, root), cmd);
    if cmd.Store? {
      OpensNew(fs, root, cmd.file);
      BrokenBodyFails(s, node.content, pre);
    } else {
      Stuck(s, input);
    }
    StoredWrong(fs, root, node, Receive(s, input));
  }

  lemma BrokenLineMeans(mode: nat, size: nat, name: string)
    requires mode <= MAX_UINT32 && size <= MAX_INT64
    ensures var cmd := Parse(PrintFile(mode, size, name)); cmd.Malformed? || (cmd.Store? && cmd.file.size == size)
  {
    FileHeaderParses(mode, size, name);
    FileCommand(PrintFile(mode, size, name));
  }

  lemma BrokenFileFails(fs: FileSystem, root: Path, name: string, node: Node)
    requires New(fs, root) && node.File? && Unix(node) && !OneLine(name) && '\0' !in name
    ensures !Arrived(fs, root, root, node, Receive(Start(fs, root), Stream(name, node, false)))
  {
    var size, cut := |node.content|, Cut(name, '\n');
    BrokenNameSplits(name, cut);
    FileStream(name, node);
    BrokenHeader(node.mode, size, cut.before, cut.after, node.content);
    HeadersAreLines(node.mode, size, cut.before, 0);
    BrokenLineMeans(node.mode, size, cut.before);
    BrokenStreamFails(fs, root, node, PrintFile(node.mode, size, cut.before), cut.after + "\n");
    assert cut.after + "\n" + (node.content + "\0") == cut.after + "\n" + node.content + "\0";
  }

  lemma BrokenNameSplits(name: string, cut: CutResult)
    requires !OneLine(name) && '\0' !in name && cut == Cut(name, '\n')
    ensures name == cut.before + "\n" + cut.after && OneLine(cut.before) && '\0' !in cut.after + "\n"
  {
    assert forall c :: c in cut.after ==> c in name;
  }

  lemma FileStream(name: string, node: Node)
    requires node.File?
    ensures Stream(name, node, false) == Concat([FilePiece(node.mode, |node.content|, name), DataPiece(node.content)])
  {
    var pieces := [FilePiece(node.mode, |node.content|, name), DataPiece(node.content)];
    assert [] + pieces == pieces;
  }

  lemma BrokenStreamFails(fs: FileSystem, root: Path, node: Node, line: string, pre: string)
    requires New(fs, root) && node.File? && OneLine(line) && pre != "" && '\0' !in pre
    requires Parse(line).Malformed? || (Parse(line).Store? && Parse(line).file.size == |node.content|)
    ensures !Arrived(fs, root, root, node, Receive(Start(fs, root), line + "\n" + (pre + node.content + "\0")))
  {
    BrokenHeaderTaken(Start(fs, root), line, pre + node.content + "\0");
    BrokenCommandFails(fs, root, node, Parse(line), pre, pre + node.content + "\0");
  }

  lemma EntersNew(fs: FileSystem, root: Path, h: EntryHeader)
    requires New(fs, root)
    ensures var s := Start(fs, root);
            EnterDir(s, h) == s.(fs := fs[root := DirEntry(h.mode)], dirs := [root, root], acks := [Ok, Ok])
  {
    NewIsNoDir(fs, root, h.name);
    assert MkdirAll(fs, root[..|root| - 1], h.mode).Some?;
  }
}
