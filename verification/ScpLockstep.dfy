/** The two programs running at the same time over a pair of byte streams. */
module ScpLockstep {
  import opened Wrappers
  import opened ScpFormat
  import opened ScpTree
  import opened ScpSink
  import opened ScpSource
  import opened ScpTransfer

  /** `unsent` is what the source still has to write, `heard` how many responses it has read. */
  datatype Source = Waiting(unsent: seq<Piece>, heard: nat) | Done(heard: nat) | Stopped
  datatype Pair = Pair(source: Source, wire: string, sink: Sink)

  function Begin(fs: FileSystem, root: Path, name: string, node: Node, preserve: bool): Pair {
    Pair(Waiting(Pieces(name, node, preserve), 0), "", Start(fs, root))
  }

  /** A response the source has not read yet is on its way. */
  predicate SourceReady(p: Pair) {
    p.source.Waiting? && p.source.heard < |p.sink.acks|
  }

  function SourceStep(p: Pair): Pair
    requires SourceReady(p)
  {
    var Waiting(unsent, heard) := p.source;
    if p.sink.acks[heard].Refused? then p.(source := Stopped)
    else if unsent == [] then p.(source := Done(heard + 1))
    else p.(source := Waiting(unsent[1..], heard + 1), wire := p.wire + Bytes(unsent[0]))
  }

  /** The source alone, as long as there are responses to read. */
  function SourceAlone(p: Pair): Pair
    decreases if p.source.Waiting? then |p.sink.acks| - p.source.heard else -1
  {
    if SourceReady(p) then SourceAlone(SourceStep(p)) else p
  }

  /** Whatever the responses are, it writes what the sending side writes, and is done exactly when that ends well. */
  lemma {:induction false} SourceIsExchange(p: Pair, replies: seq<Ack>)
    requires p.source.Waiting? && p.source.heard <= |p.sink.acks| && replies == p.sink.acks[p.source.heard..]
    ensures !AllZero(replies, 1) ==> SourceAlone(p).wire == p.wire && !SourceAlone(p).source.Done?
    ensures AllZero(replies, 1) ==>
              var q := Exchange(Port(replies[1..], p.wire, true), p.source.unsent);
              SourceAlone(p).wire == q.sent && (SourceAlone(p).source.Done? <==> q.ok)
    decreases |replies|
  {
    if AllZero(replies, 1) && p.source.unsent != [] {
      var q := SourceStep(p);
      SourceIsExchange(q, replies[1..]);
    }
  }

  predicate SinkReady(p: Pair) { p.sink.Valid() && Ready(p.sink, p.wire) }

  function SinkStep(p: Pair): Pair
    requires SinkReady(p)
  {
    p.(sink := Take(p.sink, p.wire), wire := p.wire[Need(p.sink, p.wire)..])
  }

  predicate Next(p: Pair, q: Pair) {
    (SourceReady(p) && q == SourceStep(p)) || (SinkReady(p) && q == SinkStep(p))
  }

  /** Every finite interleaving. */
  predicate Run(ps: seq<Pair>) {
    ps != [] && forall i :: 0 <= i < |ps| - 1 ==> Next(ps[i], ps[i + 1])
  }

  // ---- the positions the pair goes through ----

  datatype Point =
    | Answered(k: nat)  // k pieces are sent, each is answered, and the response to the last is on its way
    | Asked(k: nat)     // k pieces are sent, all but the last are answered and heard, and the last is on its way
    | Over

  predicate Within(point: Point, n: nat) {
    match point case Answered(k) => k <= n case Asked(k) => 0 < k <= n case Over => true
  }

  lemma PrefixAccepted(s: Sink, pieces: seq<Piece>, k: nat)
    requires k <= |pieces| && Accepts(s, pieces)
    ensures Accepts(s, pieces[..k])
  {
    assert pieces == pieces[..k] + pieces[k..];
    AcceptsAppend(s, pieces[..k], pieces[k..]);
  }

  /** The sink after the first `k` pieces. */
  function SinkAfter(s: Sink, pieces: seq<Piece>, k: nat): (r: Sink)
    requires k <= |pieces| && Accepts(s, pieces)
    ensures r.Valid()
  {
    PrefixAccepted(s, pieces, k);
    After(s, pieces[..k])
  }

  /** The whole state of both programs and the wire at a point of the transfer. */
  function PairAt(s: Sink, pieces: seq<Piece>, point: Point): Pair
    requires Accepts(s, pieces) && Within(point, |pieces|)
  {
    match point
    case Answered(k) => Pair(Waiting(pieces[k..], k), "", SinkAfter(s, pieces, k))
    case Asked(k) => Pair(Waiting(pieces[k..], k), Bytes(pieces[k - 1]), SinkAfter(s, pieces, k - 1))
    case Over => Pair(Done(|pieces| + 1), "", SinkAfter(s, pieces, |pieces|))
  }

  function NextPoint(point: Point, n: nat): (q: Point)
    requires Within(point, n)
    ensures Within(q, n)
  {
    match point
    case Answered(k) => if k == n then Over else Asked(k + 1)
    case Asked(k) => Answered(k)
    case Over => Over
  }

  /** The point after `t` steps. */
  function PointAt(t: nat, n: nat): (q: Point)
    ensures Within(q, n)
    ensures q.Over? <==> t > 2 * n
    ensures q.Answered? ==> t == 2 * q.k
    ensures q.Asked? ==> t == 2 * q.k - 1
  {
    if t == 0 then Answered(0) else NextPoint(PointAt(t - 1, n), n)
  }

  /** One good response to each piece, in order. */
  lemma {:induction false} AcksFollow(s: Sink, pieces: seq<Piece>)
    requires Accepts(s, pieces)
    ensures After(s, pieces).acks == s.acks + Oks(|pieces|)
    decreases pieces
  {
    if pieces == [] {
      assert s.acks + Oks(0) == s.acks;
    } else {
      AcksFollow(OnPiece(s, pieces[0]), pieces[1..]);
      assert s.acks + [Ok] + Oks(|pieces| - 1) == s.acks + Oks(|pieces|);
    }
  }

  lemma AcksAfter(s: Sink, pieces: seq<Piece>, k: nat)
    requires k <= |pieces| && Accepts(s, pieces) && s.acks == [Ok]
    ensures SinkAfter(s, pieces, k).acks == Oks(k + 1)
  {
    PrefixAccepted(s, pieces, k);
    AcksFollow(s, pieces[..k]);
    assert [Ok] + Oks(k) == Oks(k + 1);
  }

  lemma SinkAdvances(s: Sink, pieces: seq<Piece>, k: nat)
    requires k < |pieces| && Accepts(s, pieces)
    ensures Fits(SinkAfter(s, pieces, k), pieces[k])
    ensures OnPiece(SinkAfter(s, pieces, k), pieces[k]) == SinkAfter(s, pieces, k + 1)
  {
    PrefixAccepted(s, pieces, k + 1);
    PrefixAccepted(s, pieces, k);
    assert pieces[..k + 1] == pieces[..k] + [pieces[k]];
    AcceptsAppend(s, pieces[..k], [pieces[k]]);
    AcceptsOne(After(s, pieces[..k]), pieces[k]);
  }

  lemma NothingToRead(p: Pair)
    requires p.wire == ""
    ensures !SinkReady(p)
  {
  }

  lemma NotEmpty(piece: Piece)
    ensures Bytes(piece) != ""
  {
  }

  lemma SinkTakesPiece(p: Pair, piece: Piece)
    requires p.wire == Bytes(piece) && Fits(p.sink, piece) && Printable(piece)
    ensures SinkReady(p) && SinkStep(p) == p.(sink := OnPiece(p.sink, piece), wire := "")
  {
    BytesStep(p.sink, piece, "");
    assert Bytes(piece) + "" == Bytes(piece);
  }

  lemma AnsweredMoves(s: Sink, pieces: seq<Piece>, k: nat)
    requires k <= |pieces| && Accepts(s, pieces) && s.acks == [Ok]
    ensures var p := PairAt(s, pieces, Answered(k));
            !SinkReady(p) && SourceReady(p) && SourceStep(p) == PairAt(s, pieces, NextPoint(Answered(k), |pieces|))
  {
    var p := PairAt(s, pieces, Answered(k));
    AcksAfter(s, pieces, k);
    NothingToRead(p);
    if k < |pieces| {
      assert pieces[k..][0] == pieces[k] && pieces[k..][1..] == pieces[k + 1..];
      assert "" + Bytes(pieces[k]) == Bytes(pieces[k]);
    }
  }

  lemma AskedMoves(s: Sink, pieces: seq<Piece>, k: nat)
    requires 0 < k <= |pieces| && Accepts(s, pieces) && s.acks == [Ok] && AllPrintable(pieces)
    ensures var p := PairAt(s, pieces, Asked(k));
            !SourceReady(p) && SinkReady(p) && SinkStep(p) == PairAt(s, pieces, Answered(k))
  {
    var p := PairAt(s, pieces, Asked(k));
    AskedWaits(s, pieces, k);
    SinkAdvances(s, pieces, k - 1);
    SinkTakesPiece(p, pieces[k - 1]);
  }

  lemma AskedWaits(s: Sink, pieces: seq<Piece>, k: nat)
    requires 0 < k <= |pieces| && Accepts(s, pieces) && s.acks == [Ok]
    ensures !SourceReady(PairAt(s, pieces, Asked(k)))
  {
    AcksAfter(s, pieces, k - 1);
  }

  /** At every point before the end exactly one side can move, and its move leads to the next point. */
  lemma OneSideMoves(s: Sink, pieces: seq<Piece>, point: Point)
    requires Accepts(s, pieces) && s.acks == [Ok] && AllPrintable(pieces) && Within(point, |pieces|)
    ensures var p := PairAt(s, pieces, point);
            && !(SourceReady(p) && SinkReady(p))
            && (SourceReady(p) || SinkReady(p) <==> !point.Over?)
            && forall q :: Next(p, q) ==> q == PairAt(s, pieces, NextPoint(point, |pieces|))
  {
    match point
    case Answered(k) => AnsweredMoves(s, pieces, k);
    case Asked(k) => AskedMoves(s, pieces, k);
    case Over => NothingToRead(PairAt(s, pieces, Over));
  }

  lemma {:induction false} RunsAreTheOne(s: Sink, pieces: seq<Piece>, ps: seq<Pair>)
    requires Accepts(s, pieces) && s.acks == [Ok] && AllPrintable(pieces)
    requires Run(ps) && ps[0] == PairAt(s, pieces, Answered(0))
    ensures |ps| <= 2 * |pieces| + 2
    ensures forall i :: 0 <= i < |ps| ==> ps[i] == PairAt(s, pieces, PointAt(i, |pieces|))
    decreases |ps|
  {
    var n := |ps| - 1;
    if n > 0 {
      var before := ps[..n];
      forall i | 0 <= i < |before| - 1
        ensures Next(before[i], before[i + 1])
      {
        assert Next(ps[i], ps[i + 1]);
      }
      RunsAreTheOne(s, pieces, before);
      assert before[n - 1] == ps[n - 1] && Next(ps[n - 1], ps[n]);
      OneSideMoves(s, pieces, PointAt(n - 1, |pieces|));
    }
  }

  /**
    The run is the only one there is; after every step, the responses heard, the pieces sent and the
    acknowledgements match one to one and in order, but for the one response or the one piece that is on its way;
    exactly one side can move until both are finished, after two steps per piece and one more.
   */
  ghost predicate InLockstep(s: Sink, pieces: seq<Piece>, ps: seq<Pair>)
    requires ps != []
  {
    var n, last := |pieces|, ps[|ps| - 1];
    && Accepts(s, pieces)
    && (forall i :: 0 <= i < |ps| ==> ps[i] == PairAt(s, pieces, PointAt(i, n)))
    && (forall i :: 0 <= i < |ps| ==> InStep(ps[i], n))
    && |ps| <= 2 * n + 2
    && (SourceReady(last) || SinkReady(last) <==> |ps| < 2 * n + 2)
    && !(SourceReady(last) && SinkReady(last))
    && (|ps| == 2 * n + 2 ==> last.source == Done(n + 1) && last.sink == After(s, pieces))
  }

  /** Source and sink of an admissible transfer keep in lockstep, and leave the tree in place. */
  lemma Lockstep(fs: FileSystem, root: Path, name: string, node: Node, ps: seq<Pair>)
    requires !node.Special? && EntryName(name) && OneLine(name) && Unix(node) && LineFree(node)
    requires Place(fs, Start(fs, root).Target(name), node).Some?
    requires Run(ps) && ps[0] == Begin(fs, root, name, node, false)
    ensures var s, pieces := Start(fs, root), Pieces(name, node, false);
            InLockstep(s, pieces, ps) && Some(After(s, pieces).fs) == Place(fs, s.Target(name), node)
  {
    var s, pieces := Start(fs, root), Pieces(name, node, false);
    Admissible(s, name, node, pieces);
    BeginsAnswered(s, pieces);
    PiecesKeepStep(s, pieces, ps);
  }

  lemma PiecesKeepStep(s: Sink, pieces: seq<Piece>, ps: seq<Pair>)
    requires Accepts(s, pieces) && s.acks == [Ok] && AllPrintable(pieces)
    requires Run(ps) && ps[0] == PairAt(s, pieces, Answered(0))
    ensures InLockstep(s, pieces, ps)
  {
    RunIsInStep(s, pieces, ps);
    AtTheEnd(s, pieces);
  }

  lemma Admissible(s: Sink, name: string, node: Node, pieces: seq<Piece>)
    requires !node.Special? && CleanName(name) && OneLine(name) && Unix(node) && LineFree(node)
    requires s.Valid() && s.phase.Header? && pieces == Pieces(name, node, false)
    requires Place(s.fs, s.Target(name), node).Some?
    ensures AllPrintable(pieces) && Accepts(s, pieces) && Some(After(s, pieces).fs) == Place(s.fs, s.Target(name), node)
  {
    Transfers(s, name, node);
    PiecesPrintable(name, node, false);
  }

  lemma AtTheEnd(s: Sink, pieces: seq<Piece>)
    requires Accepts(s, pieces)
    ensures var p := PairAt(s, pieces, Over); p.source == Done(|pieces| + 1) && p.sink == After(s, pieces)
  {
    assert pieces[..|pieces|] == pieces;
  }

  lemma RunIsInStep(s: Sink, pieces: seq<Piece>, ps: seq<Pair>)
    requires Accepts(s, pieces) && s.acks == [Ok] && AllPrintable(pieces)
    requires Run(ps) && ps[0] == PairAt(s, pieces, Answered(0))
    ensures |ps| <= 2 * |pieces| + 2
    ensures forall i :: 0 <= i < |ps| ==> ps[i] == PairAt(s, pieces, PointAt(i, |pieces|)) && InStep(ps[i], |pieces|)
    ensures var last := ps[|ps| - 1];
            && !(SourceReady(last) && SinkReady(last))
            && (SourceReady(last) || SinkReady(last) <==> |ps| < 2 * |pieces| + 2)
            && (|ps| == 2 * |pieces| + 2 ==> last == PairAt(s, pieces, Over))
  {
    RunsAreTheOne(s, pieces, ps);
    OneSideMoves(s, pieces, PointAt(|ps| - 1, |pieces|));
    forall i | 0 <= i < |ps|
      ensures InStep(ps[i], |pieces|)
    {
      PointInStep(s, pieces, PointAt(i, |pieces|));
    }
  }

  /** What has been sent, acknowledged and heard differs by at most the one item on its way, and all is well. */
  predicate InStep(p: Pair, n: nat) {
    && (forall i :: 0 <= i < |p.sink.acks| ==> p.sink.acks[i].Ok?)
    && match p.source
       case Waiting(unsent, heard) =>
         && heard + |unsent| == n
         && |p.sink.acks| == (if p.wire == "" then heard + 1 else heard)
       case Done(heard) => p.wire == "" && heard == |p.sink.acks| == n + 1
       case Stopped => false
  }

  lemma PointInStep(s: Sink, pieces: seq<Piece>, point: Point)
    requires Accepts(s, pieces) && s.acks == [Ok] && Within(point, |pieces|)
    ensures InStep(PairAt(s, pieces, point), |pieces|)
  {
    match point
    case Answered(k) => AcksAfter(s, pieces, k);
    case Asked(k) =>
      AcksAfter(s, pieces, k - 1);
      NotEmpty(pieces[k - 1]);
    case Over => AcksAfter(s, pieces, |pieces|);
  }

  lemma BeginsAnswered(s: Sink, pieces: seq<Piece>)
    requires Accepts(s, pieces)
    ensures PairAt(s, pieces, Answered(0)) == Pair(Waiting(pieces, 0), "", s)
  {
    assert pieces[0..] == pieces && pieces[..0] == [];
  }
}
