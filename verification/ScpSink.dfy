/** The receiving side: a directory stack driven by header lines and length-framed bodies. */
module ScpSink {
  import opened Text
  import opened ScpFormat
  import opened ScpTree

  /** A response byte: zero, or one with a message. */
  datatype Ack = Ok | Refused

  datatype Failure = Bad(error: Error) | FileSystemRefused | Truncated | BadTerminator

  datatype Phase =
    | Header                           // waiting for a header line
    | Body(dest: Path, size: nat)      // waiting for `size` bytes and the zero byte
    | Failed(failure: Failure)

  datatype Sink = Sink(fs: FileSystem, dirs: seq<Path>, targetIsDir: bool, phase: Phase, acks: seq<Ack>) {
    predicate Valid() { dirs != [] }

    function Top(): Path
      requires dirs != []
    {
      dirs[|dirs| - 1]
    }

    /** Where an entry called `name` goes. */
    function Target(name: string): Path
      requires dirs != []
    {
      if targetIsDir || |dirs| > 1 then Top() + [name] else Top()
    }

    function Refuse(failure: Failure): Sink {
      this.(phase := Failed(failure), acks := acks + [Refused])
    }
  }

  /** The sink after its first acknowledgement. */
  function Start(fs: FileSystem, root: Path): Sink {
    Sink(fs, [root], IsDir(fs, root), Header, [Ok])
  }

  // ---- one header line ----

  function EnterDir(s: Sink, h: EntryHeader): (r: Sink)
    requires s.Valid()
    ensures r.Valid()
  {
    var dir := s.Target(h.name);
    var made := MkdirAll(s.fs, dir, h.mode);
    if made.None? then s.Refuse(FileSystemRefused)
    else s.(fs := made.value, dirs := s.dirs + [dir], acks := s.acks + [Ok])
  }

  function LeaveDir(s: Sink): (r: Sink)
    requires s.Valid()
    ensures r.Valid()
  {
    s.(dirs := if |s.dirs| > 1 then s.dirs[..|s.dirs| - 1] else s.dirs, acks := s.acks + [Ok])
  }

  /** The header of a file is acknowledged before the file is opened. */
  function OpenFile(s: Sink, h: FileHeader): (r: Sink)
    requires s.Valid()
    ensures r.Valid()
  {
    var dest := s.Target(h.name);
    var acked := s.(acks := s.acks + [Ok]);
    var file := OpenTruncated(s.fs, dest, h.mode);
    if file.None? then acked.Refuse(FileSystemRefused)
    else acked.(fs := file.value, phase := Body(dest, h.size))
  }

  function OnCommand(s: Sink, cmd: Command): (r: Sink)
    requires s.Valid()
    ensures r.Valid()
  {
    match cmd
    case Blank => s
    case SetTimes(_) => s.(acks := s.acks + [Ok])
    case Enter(h) => EnterDir(s, h)
    case Leave => LeaveDir(s)
    case Store(h) => OpenFile(s, h)
    case Malformed(error) => s.Refuse(Bad(error))
  }

  /** A whole body with its terminator byte; a bad terminator is not acknowledged. */
  function OnBody(s: Sink, data: string): (r: Sink)
    requires s.phase.Body? && |data| == s.phase.size + 1
    ensures r.Valid() == s.Valid()
  {
    var stored := s.(fs := Append(s.fs, s.phase.dest, data[..s.phase.size]));
    if data[s.phase.size] != '\0' then stored.(phase := Failed(BadTerminator))
    else stored.(phase := Header, acks := s.acks + [Ok])
  }

  /** Every line but a blank one is answered: with zero as long as the sink goes on, else with an error at the end. */
  lemma LineIsAnswered(s: Sink, cmd: Command)
    requires s.Valid() && s.phase.Header?
    ensures var r := OnCommand(s, cmd);
            if cmd.Blank? then r == s
            else if r.phase.Failed? then r.acks == s.acks + (if cmd.Store? then [Ok, Refused] else [Refused])
            else r.acks == s.acks + [Ok]
  {
    assert s.acks + [Ok] + [Refused] == s.acks + [Ok, Refused];
  }

  // ---- reading the stream ----

  /** The sink can go on with the bytes it has. */
  predicate Ready(s: Sink, input: string) {
    match s.phase
    case Header => '\n' in input
    case Body(_, size) => |input| > size
    case Failed(_) => false
  }

  /** How many bytes the next step takes. */
  function Need(s: Sink, input: string): (n: nat)
    requires Ready(s, input)
    ensures 0 < n <= |input|
  {
    if s.phase.Header? then IndexOf(input, '\n') + 1 else s.phase.size + 1
  }

  function Take(s: Sink, input: string): (r: Sink)
    requires s.Valid() && Ready(s, input)
    ensures r.Valid()
  {
    var n := Need(s, input);
    if s.phase.Header? then OnCommand(s, Parse(input[..n - 1])) else OnBody(s, input[..n])
  }

  /** End of input: a partial line is ignored, a partial body is an error. */
  function AtEof(s: Sink, input: string): Sink {
    if s.phase.Body? then
      var stored := s.(fs := Append(s.fs, s.phase.dest, input));
      if |input| < s.phase.size then stored.Refuse(Truncated) else stored.(phase := Failed(Truncated))
    else s
  }

  /** The sink on a stream that ends after `input`. */
  function Receive(s: Sink, input: string): Sink
    requires s.Valid()
    decreases |input|
  {
    if Ready(s, input) then Receive(Take(s, input), input[Need(s, input)..]) else AtEof(s, input)
  }

  // ---- the loop of the program ----

  lemma LineStep(s: Sink, input: string)
    requires s.Valid() && s.phase.Header? && '\n' in input
    ensures var i := IndexOf(input, '\n');
            Receive(s, input) == Receive(OnCommand(s, Parse(input[..i])), input[i + 1..])
  {
    var i := IndexOf(input, '\n');
    assert Need(s, input) == i + 1;
    assert Take(s, input) == OnCommand(s, Parse(input[..i]));
  }

  lemma BodyStep(s: Sink, input: string)
    requires s.Valid() && s.phase.Body? && |input| > s.phase.size
    ensures var n := s.phase.size;
            Receive(s, input) == Receive(OnBody(s, input[..n + 1]), input[n + 1..])
  {
  }

  lemma Stuck(s: Sink, input: string)
    requires s.Valid() && !Ready(s, input)
    ensures Receive(s, input) == AtEof(s, input)
  {
  }

  /** `receiveSCPFile`, from the first acknowledgement on. */
  method ReceiveFile(s: Sink, header: FileHeader, reader: string) returns (r: Sink, rest: string)
    requires s.Valid() && s.phase.Header?
    ensures r.Valid() && !r.phase.Body? && |rest| <= |reader|
    ensures Receive(r, rest) == Receive(OpenFile(s, header), reader)
  {
    var dest := s.Target(header.name);
    var acks := s.acks + [Ok];
    var file := OpenTruncated(s.fs, dest, header.mode);
    if file.None? {
      return s.(acks := acks + [Refused], phase := Failed(FileSystemRefused)), reader;
    }
    r, rest := CopyBody(s.(fs := file.value, phase := Body(dest, header.size), acks := acks), reader);
  }

  /** A body that ends early ends the reception. */
  lemma CutShort(s: Sink, reader: string)
    requires s.Valid() && s.phase.Body? && |reader| <= s.phase.size
    ensures AtEof(s, reader).Valid() && AtEof(s, reader).phase.Failed?
    ensures Receive(AtEof(s, reader), "") == Receive(s, reader)
  {
    Stuck(s, reader);
    Stuck(AtEof(s, reader), "");
  }

  /** What came of a body that ends early is in the file; only a body that is short of data is answered. */
  lemma TruncatedBody(s: Sink, input: string)
    requires s.Valid() && s.phase.Body? && s.phase.dest in s.fs && s.fs[s.phase.dest].FileEntry?
    requires |input| <= s.phase.size
    ensures var r, dest := Receive(s, input), s.phase.dest;
            && r.phase == Failed(Truncated) && r.acks == s.acks + (if |input| < s.phase.size then [Refused] else [])
            && r.fs == s.fs[dest := FileEntry(s.fs[dest].mode, s.fs[dest].content + input)]
  {
    Stuck(s, input);
  }

  method CopyBody(s: Sink, reader: string) returns (r: Sink, rest: string)
    requires s.Valid() && s.phase.Body?
    ensures r.Valid() && !r.phase.Body? && |rest| <= |reader|
    ensures Receive(r, rest) == Receive(s, reader)
  {
    var size := s.phase.size;
    if |reader| <= size {
      CutShort(s, reader);
      r := s.(fs := Append(s.fs, s.phase.dest, reader), phase := Failed(Truncated));
      if |reader| < size { r := r.(acks := r.acks + [Refused]); }
      return r, "";
    }
    BodyStep(s, reader);
    var fs := Append(s.fs, s.phase.dest, reader[..size]);
    assert reader[..size + 1][..size] == reader[..size];
    if reader[size] == '\0' {
      r := s.(fs := fs, phase := Header, acks := s.acks + [Ok]);
    } else {
      r := s.(fs := fs, phase := Failed(BadTerminator));
    }
    assert r == OnBody(s, reader[..size + 1]);
    rest := reader[size + 1..];
  }

  method ReceiveDir(s: Sink, header: EntryHeader) returns (r: Sink)
    requires s.Valid()
    ensures r == EnterDir(s, header)
  {
    var dir := s.Top();
    if s.targetIsDir || |s.dirs| > 1 { dir := dir + [header.name]; }
    var made := MkdirAll(s.fs, dir, header.mode);
    if made.None? { return s.Refuse(FileSystemRefused); }
    r := s.(fs := made.value, dirs := s.dirs + [dir], acks := s.acks + [Ok]);
  }

  /** One pass of the loop, from a header line on. */
  method HandleLine(s: Sink, line: string, reader: string) returns (r: Sink, rest: string)
    requires s.Valid() && s.phase.Header?
    ensures r.Valid() && !r.phase.Body? && |rest| <= |reader|
    ensures Receive(r, rest) == Receive(OnCommand(s, Parse(line)), reader)
  {
    r, rest := s, reader;
    match Parse(line) {
      case Blank =>
      case SetTimes(_) =>
        r := s.(acks := s.acks + [Ok]);
      case Enter(header) =>
        r := ReceiveDir(s, header);
      case Leave =>
        var dirs := s.dirs;
        if |dirs| > 1 { dirs := dirs[..|dirs| - 1]; }
        r := s.(dirs := dirs, acks := s.acks + [Ok]);
      case Store(header) =>
        r, rest := ReceiveFile(s, header, reader);
      case Malformed(error) =>
        r := s.Refuse(Bad(error));
    }
  }

  /** `runSCPSink`. */
  method RunSink(fs: FileSystem, root: Path, input: string) returns (s: Sink)
    ensures s == Receive(Start(fs, root), input)
  {
    s := Start(fs, root);
    var reader := input;
    while !s.phase.Failed?
      invariant s.Valid() && !s.phase.Body?
      invariant Receive(s, reader) == Receive(Start(fs, root), input)
      decreases |reader|
    {
      var i := IndexOf(reader, '\n');
      if i < 0 {
        Stuck(s, reader);
        return;
      }
      LineStep(s, reader);
      s, reader := HandleLine(s, reader[..i], reader[i + 1..]);
    }
    Stuck(s, reader);
  }
}
