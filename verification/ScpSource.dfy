/** The sending side: a walk over a tree that waits for one response after every piece it writes. */
module ScpSource {
  import opened ScpFormat
  import opened ScpTree
  import opened ScpSink

  /** What `sendSCPFile` writes: a header with the reported size, and whatever can be read. */
  function FilePieces(name: string, node: Node, preserve: bool): seq<Piece>
    requires !node.Dir?
  {
    var size := if node.File? then |node.content| else node.size;
    Times(node.mtime, preserve) + [FilePiece(node.mode, size, name), DataPiece(node.content)]
  }

  /** The pieces written for one entry, in order; the source waits for a response after each. */
  function Pieces(name: string, node: Node, preserve: bool): seq<Piece>
    decreases node
  {
    match node
    case File(_, _, _) => FilePieces(name, node, preserve)
    case Dir(mode, mtime, entries) =>
      Times(mtime, preserve) + ([DirPiece(mode, name)] + PiecesAll(entries, preserve) + [EndPiece])
    case Special(_, _, _, _) => []
  }

  /** The pieces of a copy: a special file named directly is sent as a file, one met on the way is skipped. */
  function Sent(name: string, node: Node, preserve: bool): seq<Piece> {
    if node.Special? then FilePieces(name, node, preserve) else Pieces(name, node, preserve)
  }

  function PiecesAll(entries: Entries, preserve: bool): seq<Piece>
    decreases entries
  {
    match entries
    case Nil => []
    case Cons(name, node, rest) => Pieces(name, node, preserve) + PiecesAll(rest, preserve)
  }

  /** A special file whose size is reported right is sent like a regular file. */
  lemma SpecialIsSentAsFile(name: string, node: Node, preserve: bool)
    requires node.Special?
    ensures Sent(name, node, preserve) == Sent(name, File(node.mode, node.mtime, node.content), preserve)
            <==> node.size == |node.content|
  {
    var a, b := Sent(name, node, preserve), Sent(name, File(node.mode, node.mtime, node.content), preserve);
    var k := if preserve then 1 else 0;
    assert a[k] == FilePiece(node.mode, node.size, name) && b[k] == FilePiece(node.mode, |node.content|, name);
  }

  function Times(mtime: int, preserve: bool): seq<Piece> {
    if preserve then [TimesPiece(mtime)] else []
  }

  function Concat(pieces: seq<Piece>): string {
    if pieces == [] then "" else Bytes(pieces[0]) + Concat(pieces[1..])
  }

  /** The source's side of the two streams. */
  datatype Port = Port(replies: seq<Ack>, sent: string, ok: bool)

  /** `readSCPResponse`. */
  function Await(p: Port): Port {
    if p.replies == [] then p.(ok := false)
    else p.(replies := p.replies[1..], ok := p.replies[0].Ok?)
  }

  /** Write the pieces one by one, stopping at the first response that is not zero. */
  function Exchange(p: Port, pieces: seq<Piece>): Port
    decreases pieces
  {
    if pieces == [] || !p.ok then p
    else Exchange(Await(p.(sent := p.sent + Bytes(pieces[0]))), pieces[1..])
  }

  lemma {:induction false} ExchangeAppend(p: Port, a: seq<Piece>, b: seq<Piece>)
    ensures Exchange(p, a + b) == Exchange(Exchange(p, a), b)
    decreases a
  {
    if a == [] {
      assert a + b == b;
    } else if p.ok {
      assert (a + b)[1..] == a[1..] + b;
      ExchangeAppend(Await(p.(sent := p.sent + Bytes(a[0]))), a[1..], b);
    }
  }

  // ---- what the responses make of an exchange ----

  /** The first `n` responses are there and zero. */
  predicate AllZero(replies: seq<Ack>, n: nat) {
    n <= |replies| && forall i :: 0 <= i < n ==> replies[i] == Ok
  }

  /** The first `k` responses are zero and the next is missing or is not. */
  predicate StopsAt(replies: seq<Ack>, k: nat) {
    AllZero(replies, k) && (k == |replies| || replies[k] == Refused)
  }

  lemma Joined(a: string, b: string, c: string)
    ensures a + b + c == a + (b + c)
  {
  }

  /** The source sends everything and ends well exactly when there is a zero response to every piece. */
  lemma {:induction false} EndsWellIffAllZero(p: Port, pieces: seq<Piece>)
    requires p.ok
    ensures Exchange(p, pieces).ok <==> AllZero(p.replies, |pieces|)
    ensures AllZero(p.replies, |pieces|) ==>
              Exchange(p, pieces) == Port(p.replies[|pieces|..], p.sent + Concat(pieces), true)
    decreases pieces
  {
    if pieces == [] {
      assert p.sent + "" == p.sent && p.replies[0..] == p.replies;
    } else if p.replies != [] && p.replies[0] == Ok {
      var q := Port(p.replies[1..], p.sent + Bytes(pieces[0]), true);
      EndsWellIffAllZero(q, pieces[1..]);
      Joined(p.sent, Bytes(pieces[0]), Concat(pieces[1..]));
      OneAhead(p.replies, |pieces|);
    } else {
      FailsAtOnce(p, pieces);
    }
  }

  lemma OneAhead(replies: seq<Ack>, n: nat)
    requires replies != [] && replies[0] == Ok && n > 0
    ensures AllZero(replies, n) <==> AllZero(replies[1..], n - 1)
    ensures n <= |replies| ==> replies[1..][n - 1..] == replies[n..]
  {
    if AllZero(replies[1..], n - 1) {
      assert forall i :: 0 < i < n ==> replies[i] == replies[1..][i - 1];
    }
  }

  lemma FailsAtOnce(p: Port, pieces: seq<Piece>)
    requires p.ok && pieces != [] && StopsAt(p.replies, 0)
    ensures Exchange(p, pieces) ==
            Port(if p.replies == [] then [] else p.replies[1..], p.sent + Bytes(pieces[0]), false)
  {
  }

  /** Otherwise it sends nothing after the piece whose response is missing or not zero, and fails. */
  lemma {:induction false} StopsAtFirstRefusal(p: Port, pieces: seq<Piece>, k: nat)
    requires p.ok && k < |pieces| && StopsAt(p.replies, k)
    ensures !Exchange(p, pieces).ok && Exchange(p, pieces).sent == p.sent + Concat(pieces[..k + 1])
    decreases k
  {
    if k == 0 {
      FailsAtOnce(p, pieces);
      assert pieces[..1][1..] == [] && Bytes(pieces[0]) + "" == Bytes(pieces[0]);
    } else {
      var q := Port(p.replies[1..], p.sent + Bytes(pieces[0]), true);
      OneAhead(p.replies, k);
      StopsAtFirstRefusal(q, pieces[1..], k - 1);
      assert pieces[..k + 1][1..] == pieces[1..][..k];
      Joined(p.sent, Bytes(pieces[0]), Concat(pieces[1..][..k]));
    }
  }

  method Say(p: Port, piece: Piece) returns (r: Port)
    ensures r == Exchange(p, [piece])
  {
    if !p.ok { return p; }
    r := Await(p.(sent := p.sent + Bytes(piece)));
    assert [piece][1..] == [];
  }

  /** `sendSCPFile`. */
  method SendFile(p: Port, name: string, node: Node, preserve: bool) returns (r: Port)
    requires !node.Dir?
    ensures r == Exchange(p, FilePieces(name, node, preserve))
  {
    r := p;
    if preserve { r := Say(r, TimesPiece(node.mtime)); }
    ghost var timed := r;
    var size := if node.File? then |node.content| else node.size;
    var header, body := FilePiece(node.mode, size, name), DataPiece(node.content);
    r := Say(r, header);
    r := Say(r, body);
    ExchangeAppend(timed, [header], [body]);
    assert [header] + [body] == [header, body];
    ExchangeAppend(p, Times(node.mtime, preserve), [header, body]);
  }

  /** `sendSCPDir`: entries that are neither directories nor regular files are skipped. */
  method SendDir(p: Port, name: string, node: Node, preserve: bool) returns (r: Port)
    requires node.Dir?
    ensures r == Exchange(p, Pieces(name, node, preserve))
    decreases node
  {
    r := p;
    if preserve { r := Say(r, TimesPiece(node.mtime)); }
    ghost var timed := r;
    var header := DirPiece(node.mode, name);
    r := Say(r, header);
    ghost var start := r;
    var entries := node.entries;
    ghost var all := PiecesAll(entries, preserve);
    while entries.Cons?
      invariant entries == node.entries || entries < node
      invariant Exchange(r, PiecesAll(entries, preserve)) == Exchange(start, all)
      decreases entries
    {
      ghost var before := r;
      if entries.node.Dir? {
        r := SendDir(r, entries.name, entries.node, preserve);
      } else if entries.node.File? {
        r := SendFile(r, entries.name, entries.node, preserve);
      }
      ExchangeAppend(before, Pieces(entries.name, entries.node, preserve), PiecesAll(entries.rest, preserve));
      entries := entries.rest;
    }
    r := Say(r, EndPiece);
    ExchangeAppend(timed, [header], all);
    ExchangeAppend(timed, [header] + all, [EndPiece]);
    ExchangeAppend(p, Times(node.mtime, preserve), [header] + all + [EndPiece]);
  }

  /** `runSCPSource` on an existing target; a directory without `-r` is answered with an error line. */
  method RunSource(replies: seq<Ack>, name: string, node: Node, recursive: bool, preserve: bool)
    returns (r: Port, refused: bool)
    ensures refused <==> AllZero(replies, 1) && node.Dir? && !recursive
    ensures !AllZero(replies, 1) ==> r.sent == "" && !r.ok
    ensures refused ==> r == Port(replies[1..], "", true)
    ensures AllZero(replies, 1) && !refused ==>
              r == Exchange(Port(replies[1..], "", true), Sent(name, node, preserve))
  {
    refused := false;
    r := Await(Port(replies, "", true));
    if !r.ok { return; }
    if node.Dir? {
      if !recursive { refused := true; return; }
      r := SendDir(r, name, node, preserve);
    } else {
      r := SendFile(r, name, node, preserve);
    }
  }
}
