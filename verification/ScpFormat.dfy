/** The header lines of the SCP protocol: what the source prints and the sink parses. */
module ScpFormat {
  import opened Text
  import opened Numerals
  import opened Wrappers

  datatype FileHeader = FileHeader(mode: nat, size: nat, name: string)
  datatype EntryHeader = EntryHeader(mode: nat, name: string)
  datatype Times = Times(mtime: int, atime: int)

  function PrintFile(mode: nat, size: nat, name: string): string {
    "C" + Octal4(mode) + " " + (Format(size, 10) + " " + name)
  }

  function PrintDir(mode: nat, name: string): string {
    "D" + Octal4(mode) + " " + ("0" + " " + name)
  }

  function PrintTimes(mtime: int): string {
    ("T" + FormatInt(mtime)) + " " + ("0" + " " + (FormatInt(mtime) + " " + "0"))
  }

  function ParseFile(line: string): (r: Option<FileHeader>)
    ensures r.Some? ==> r.value.size <= MAX_INT64 && (OneLine(line) ==> OneLine(r.value.name))
  {
    var parts := Split3(line, ' ');
    if |parts| != 3 || |parts[0]| < 5 then None
    else
      var mode, size := ParseUint(parts[0][1..], 8, MAX_UINT32), ParseInt64(parts[1]);
      if mode.None? || size.None? || size.value < 0 then None
      else Some(FileHeader(mode.value, size.value, parts[2]))
  }

  function ParseEntry(line: string): (r: Option<EntryHeader>)
    ensures r.Some? ==> OneLine(line) ==> OneLine(r.value.name)
  {
    var parts := Split3(line, ' ');
    if |parts| != 3 || |parts[0]| < 5 then None
    else
      var mode := ParseUint(parts[0][1..], 8, MAX_UINT32);
      if mode.None? then None else Some(EntryHeader(mode.value, parts[2]))
  }

  predicate CleanName(name: string) {
    name != "" && name != "." && name != ".." && '/' !in name
  }

  /** Length of the first word of `s`. */
  function WordEnd(s: string): (k: nat)
    ensures k <= |s|
  {
    if s == "" || SpaceAt(s) > 0 then 0 else 1 + WordEnd(s[1..])
  }

  /** `strings.Fields`. */
  function Fields(s: string): (words: seq<string>)
    decreases |s|
  {
    if s == "" then []
    else if SpaceAt(s) > 0 then Fields(s[SpaceAt(s)..])
    else [s[..WordEnd(s)]] + Fields(s[WordEnd(s)..])
  }

  function ParseTimes(line: string): (r: Option<Times>) {
    var fields := Fields(line);
    if |fields| != 5 then None
    else
      var mtime := if fields[0] == "" then None else ParseInt64(fields[0][1..]);
      var atime := ParseInt64(fields[2]);
      if mtime.None? || atime.None? then None else Some(Times(mtime.value, atime.value))
  }

  /** What a received line asks for. */
  datatype Command =
    | Blank
    | SetTimes(times: Times)
    | Enter(dir: EntryHeader)
    | Leave
    | Store(file: FileHeader)
    | Malformed(error: Error)

  datatype Error = BadHeader | BadName | BadCommand

  function ParseDirLine(line: string): (r: Command)
    ensures r.Malformed? || r.Enter?
    ensures r.Enter? ==> CleanName(r.dir.name) && (OneLine(line) ==> OneLine(r.dir.name))
  {
    var h := ParseEntry(line);
    if h.None? then Malformed(BadHeader)
    else if !CleanName(h.value.name) then Malformed(BadName)
    else Enter(h.value)
  }

  function ParseFileLine(line: string): (r: Command)
    ensures r.Malformed? || r.Store?
    ensures r.Store? ==> CleanName(r.file.name) && (OneLine(line) ==> OneLine(r.file.name))
  {
    StoreOf(ParseFile(line))
  }

  function StoreOf(h: Option<FileHeader>): Command {
    if h.None? then Malformed(BadHeader)
    else if !CleanName(h.value.name) then Malformed(BadName)
    else Store(h.value)
  }

  function ParseTimesLine(line: string): (r: Command) {
    var t := ParseTimes(line);
    if t.None? then Malformed(BadHeader) else SetTimes(t.value)
  }

  /** The dispatch on the first character. No line can name an entry with a line break. */
  function Parse(line: string): (r: Command)
    ensures r.Enter? ==> CleanName(r.dir.name) && (OneLine(line) ==> OneLine(r.dir.name))
    ensures r.Store? ==> CleanName(r.file.name) && (OneLine(line) ==> OneLine(r.file.name))
    ensures line != "" && line[0] == 'C' ==> r == ParseFileLine(line)
    ensures line != "" && line[0] == 'D' ==> r == ParseDirLine(line)
  {
    if line == "" then Blank
    else if line[0] == 'T' then ParseTimesLine(line)
    else if line[0] == 'D' then ParseDirLine(line)
    else if line[0] == 'E' then Leave
    else if line[0] == 'C' then ParseFileLine(line)
    else Malformed(BadCommand)
  }

  /** A line means what its first character says, or nothing. */
  lemma LetterDecides(line: string)
    ensures Parse(line).Blank? <==> line == ""
    ensures Parse(line).SetTimes? ==> line[0] == 'T'
    ensures Parse(line).Enter? ==> line[0] == 'D'
    ensures Parse(line).Leave? <==> line != "" && line[0] == 'E'
    ensures Parse(line).Store? ==> line[0] == 'C'
  {
  }

  /** What the source writes between two responses. */
  datatype Piece =
    | TimesPiece(mtime: int)
    | DirPiece(mode: nat, name: string)
    | FilePiece(mode: nat, size: nat, name: string)
    | EndPiece
    | DataPiece(content: string)

  function Line(piece: Piece): string
    requires !piece.DataPiece?
  {
    match piece
    case TimesPiece(mtime) => PrintTimes(mtime)
    case DirPiece(mode, name) => PrintDir(mode, name)
    case FilePiece(mode, size, name) => PrintFile(mode, size, name)
    case EndPiece => "E"
  }

  function Bytes(piece: Piece): string {
    if piece.DataPiece? then piece.content + "\0" else Line(piece) + "\n"
  }

  predicate OneLine(s: string) { '\n' !in s }

  /** Pieces whose header survives printing: clean one-line names, modes and sizes in range. */
  predicate Printable(piece: Piece) {
    match piece
    case DirPiece(mode, name) => mode <= MAX_UINT32 && CleanName(name) && OneLine(name)
    case FilePiece(mode, size, name) =>
      mode <= MAX_UINT32 && size <= MAX_INT64 && CleanName(name) && OneLine(name)
    case _ => true
  }

  /** What the sink makes of a printed header. */
  function Meaning(piece: Piece): Command
    requires !piece.DataPiece?
  {
    match piece
    case TimesPiece(_) => Malformed(BadHeader)
    case DirPiece(mode, name) => Enter(EntryHeader(mode, name))
    case FilePiece(mode, size, name) => Store(FileHeader(mode, size, name))
    case EndPiece => Leave
  }

  // ---- printing and parsing ----

  lemma Split3Of(a: string, b: string, c: string)
    requires ' ' !in a && ' ' !in b
    ensures Split3(a + " " + (b + " " + c), ' ') == [a, b, c]
  {
    CutOf(a, ' ', b + " " + c);
    CutOf(b, ' ', c);
  }

  /** Every file header the source prints is read back field by field, whatever the name. */
  lemma FileHeaderParses(mode: nat, size: nat, name: string)
    requires mode <= MAX_UINT32 && size <= MAX_INT64
    ensures ParseFile(PrintFile(mode, size, name)) == Some(FileHeader(mode, size, name))
  {
    var first := "C" + Octal4(mode);
    Split3Of(first, Format(size, 10), name);
    assert first[1..] == Octal4(mode);
    Octal4Parses(mode);
    DecimalParses(size);
  }

  lemma DirHeaderParses(mode: nat, name: string)
    requires mode <= MAX_UINT32
    ensures ParseEntry(PrintDir(mode, name)) == Some(EntryHeader(mode, name))
  {
    var first := "D" + Octal4(mode);
    Split3Of(first, "0", name);
    assert first[1..] == Octal4(mode);
    Octal4Parses(mode);
  }

  /** ASCII without white space. */
  predicate Word(w: string) { w != "" && forall c :: c in w ==> !IsSpace(c) && c as int < 0x80 }

  lemma {:induction false} WordEndOf(w: string, rest: string)
    requires w == "" || Word(w)
    requires rest == "" || IsSpace(rest[0])
    ensures WordEnd(w + rest) == |w|
  {
    if w == "" {
      assert w + rest == rest;
    } else {
      assert (w + rest)[1..] == w[1..] + rest;
      WordEndOf(w[1..], rest);
    }
  }

  lemma FieldsCons(w: string, rest: string)
    requires Word(w) && (rest == "" || IsSpace(rest[0]))
    ensures Fields(w + rest) == [w] + Fields(rest)
  {
    WordEndOf(w, rest);
    assert (w + rest)[..|w|] == w && (w + rest)[|w|..] == rest;
  }

  lemma FieldsAfterSpace(w: string, rest: string)
    requires Word(w) && rest != ""
    ensures Fields(w + " " + rest) == [w] + Fields(rest)
  {
    FieldsCons(w, " " + rest);
    assert (" " + rest)[1..] == rest && w + (" " + rest) == w + " " + rest;
  }

  lemma FieldsOfTwo(c: string, d: string)
    requires Word(c) && Word(d)
    ensures Fields(c + " " + d) == [c, d]
  {
    FieldsCons(d, "");
    assert d + "" == d;
    FieldsAfterSpace(c, d);
  }

  lemma FieldsBefore(a: string, b: string, rest: string, fields: seq<string>)
    requires Word(a) && Word(b) && rest != "" && Fields(rest) == fields
    ensures Fields(a + " " + (b + " " + rest)) == [a, b] + fields
  {
    FieldsAfterSpace(b, rest);
    FieldsAfterSpace(a, b + " " + rest);
  }

  lemma FieldsOfFour(a: string, b: string, c: string, d: string)
    requires Word(a) && Word(b) && Word(c) && Word(d)
    ensures Fields(a + " " + (b + " " + (c + " " + d))) == [a, b, c, d]
  {
    FieldsOfTwo(c, d);
    FieldsBefore(a, b, c + " " + d, [c, d]);
  }

  /** A time header of five fields is taken: the first holds the time of change, the third that of access. */
  lemma FiveFieldsAreTimes(mtime: int, x: string, atime: int, y: string, z: string, line: string)
    requires Int64(mtime) && Int64(atime) && Word(x) && Word(y) && Word(z)
    requires line == "T" + FormatInt(mtime) + " " + (x + " " + (FormatInt(atime) + " " + (y + " " + z)))
    ensures Parse(line) == SetTimes(Times(mtime, atime))
  {
    var first, third := "T" + FormatInt(mtime), FormatInt(atime);
    FieldsOfFive(first, x, third, y, z);
    TimesOfFields(line, [first, x, third, y, z], mtime, atime);
  }

  lemma FieldsOfFive(a: string, b: string, c: string, d: string, e: string)
    requires Word(a) && Word(b) && Word(c) && Word(d) && Word(e)
    ensures Fields(a + " " + (b + " " + (c + " " + (d + " " + e)))) == [a, b, c, d, e]
  {
    FieldsOfTwo(d, e);
    FieldsBefore(b, c, d + " " + e, [d, e]);
    FieldsAfterSpace(a, b + " " + (c + " " + (d + " " + e)));
  }

  lemma TimesOfFields(line: string, fields: seq<string>, mtime: int, atime: int)
    requires Int64(mtime) && Int64(atime) && Fields(line) == fields && |fields| == 5 && line != "" && line[0] == 'T'
    requires fields[0] == "T" + FormatInt(mtime) && fields[2] == FormatInt(atime)
    ensures Parse(line) == SetTimes(Times(mtime, atime))
  {
    assert fields[0][1..] == FormatInt(mtime);
    IntParses(mtime);
    IntParses(atime);
    assert ParseTimes(line) == Some(Times(mtime, atime));
  }

  /** The time header the source prints has four fields; the sink demands five. */
  lemma TimesHeaderRejected(mtime: int)
    ensures ParseTimes(PrintTimes(mtime)).None?
  {
    FieldsOfFour("T" + FormatInt(mtime), "0", FormatInt(mtime), "0");
  }

  /** No printed header contains a line break, so the sink reads it as one line. */
  lemma HeadersAreLines(mode: nat, size: nat, name: string, mtime: int)
    requires OneLine(name)
    ensures OneLine(PrintFile(mode, size, name))
    ensures OneLine(PrintDir(mode, name))
    ensures OneLine(PrintTimes(mtime))
  {
  }

  lemma DirCommand(line: string, h: EntryHeader)
    requires line != "" && line[0] == 'D' && ParseEntry(line) == Some(h) && CleanName(h.name)
    ensures Parse(line) == Enter(h)
  {
  }

  lemma FileCommand(line: string)
    requires line != "" && line[0] == 'C'
    ensures Parse(line) == StoreOf(ParseFile(line))
  {
  }

  lemma DirLineMeans(mode: nat, name: string)
    requires mode <= MAX_UINT32 && CleanName(name)
    ensures Parse(PrintDir(mode, name)) == Enter(EntryHeader(mode, name))
  {
    DirHeaderParses(mode, name);
    DirCommand(PrintDir(mode, name), EntryHeader(mode, name));
  }

  lemma FileLineMeans(mode: nat, size: nat, name: string)
    requires mode <= MAX_UINT32 && size <= MAX_INT64 && CleanName(name)
    ensures Parse(PrintFile(mode, size, name)) == Store(FileHeader(mode, size, name))
  {
    FileHeaderParses(mode, size, name);
    FileCommand(PrintFile(mode, size, name));
  }

  lemma TimesLineMeans(mtime: int)
    ensures Parse(PrintTimes(mtime)) == Malformed(BadHeader)
  {
    TimesHeaderRejected(mtime);
    assert Parse(PrintTimes(mtime)) == ParseTimesLine(PrintTimes(mtime));
  }

  /** Every printable header is one line and is read back as what was meant, times excepted. */
  lemma LineMeans(piece: Piece)
    requires !piece.DataPiece? && Printable(piece)
    ensures OneLine(Line(piece)) && Parse(Line(piece)) == Meaning(piece)
  {
    match piece
    case TimesPiece(mtime) =>
      TimesLineMeans(mtime);
      HeadersAreLines(0, 0, "", mtime);
    case DirPiece(mode, name) =>
      DirLineMeans(mode, name);
      HeadersAreLines(mode, 0, name, 0);
    case FilePiece(mode, size, name) =>
      FileLineMeans(mode, size, name);
      HeadersAreLines(mode, size, name, 0);
    case EndPiece =>
  }
}
