/** The SSH proxy's tables of open operations: remote forwards by address, and agent forwarding. */
module SshProxy {
  import opened Numerals
  import opened Wrappers
  import opened HostPort

  type OpId = nat

  datatype Endpoint = Endpoint(host: string, port: nat)

  function Key(a: Endpoint): string { Join(a.host, Format(a.port, 10)) }

  /** Different endpoints have different keys. */
  lemma KeyInjective(a: Endpoint, b: Endpoint)
    requires Key(a) == Key(b)
    ensures a == b
  {
    DigitsArePlain(a.port);
    DigitsArePlain(b.port);
    JoinInjective(a.host, Format(a.port, 10), b.host, Format(b.port, 10));
    FormatInjective(a.port, b.port, 10);
  }

  /** `actualRemoteForwardKey`; `reported` is the port in the success payload, if it can be parsed. */
  function ActualKey(requested: string, reported: Option<nat>): string {
    var a := Split(requested);
    if a.None? || a.value.port != "0" || reported.None? then requested
    else Join(a.value.host, Format(reported.value, 10))
  }

  /** The endpoint that key stands for. */
  function Actual(a: Endpoint, reported: Option<nat>): Endpoint {
    var s := Split(Key(a));
    if a.port != 0 || s.None? || reported.None? then a else Endpoint(s.value.host, reported.value)
  }

  lemma ZeroPrints(n: nat)
    ensures Format(n, 10) == "0" <==> n == 0
  {
    if Format(n, 10) == "0" { FormatInjective(n, 0, 10); }
  }

  lemma ActualKeyIsKey(a: Endpoint, reported: Option<nat>)
    ensures ActualKey(Key(a), reported) == Key(Actual(a, reported))
  {
    DigitsArePlain(a.port);
    SplitUndoesJoin(a.host, Format(a.port, 10));
    ZeroPrints(a.port);
  }

  /**
    A request for port zero is filed under the requested host and the allocated port exactly when the host
    has no square brackets.
   */
  lemma PortZeroFiledUnderAllocatedPort(host: string, port: nat)
    requires port > 0
    ensures Actual(Endpoint(host, 0), Some(port)) == Endpoint(host, port) <==> !Bracketed(host)
  {
    DigitsArePlain(0);
    SplitUndoesJoin(host, Format(0, 10));
    ZeroPrints(0);
  }

  /** The host that is granted is the one requested, unless port zero was asked for on a host in square brackets. */
  lemma GrantedHostIsRequested(a: Endpoint, reported: Option<nat>)
    ensures Actual(a, reported).host == a.host <==> a.port != 0 || reported.None? || !Enclosed(a.host)
    ensures Actual(a, reported).port == if a.port == 0 && reported.Some? && (!Bracketed(a.host) || Enclosed(a.host))
                                        then reported.value else a.port
  {
    DigitsArePlain(a.port);
    SplitUndoesJoin(a.host, Format(a.port, 10));
  }

  // ---- the proxy object ----

  /** What a global request asks for; `Other` needs an operation unless it is a keepalive or the like. */
  datatype Request = Forward(at: Endpoint) | CancelForward(at: Endpoint) | Other

  /** How the upstream end of a request went; one sent without asking for a reply counts as accepted. */
  datatype Reply = Unreachable | SendFailed | Rejected | Accepted(reported: Option<nat>)

  /** The fields behind the lock, and the log of finish callbacks that have been called. */
  datatype Tables = Tables(closed: bool, forwards: map<string, OpId>, agent: Option<OpId>, finished: seq<OpId>)

  function Finish(t: Tables, op: Option<OpId>): Tables {
    if op.None? then t else t.(finished := t.finished + [op.value])
  }

  function Stored(t: Tables, key: string, op: OpId): Tables {
    if t.closed then Finish(t, Some(op)) else t.(forwards := t.forwards[key := op])
  }

  function Removed(t: Tables, key: string): Tables {
    if key in t.forwards then Finish(t.(forwards := t.forwards - {key}), Some(t.forwards[key])) else t
  }

  function AgentSet(t: Tables, op: OpId): Tables {
    if t.closed then Finish(t, Some(op)) else Finish(t.(agent := Some(op)), t.agent)
  }

  class Proxy {
    var closed: bool
    var remoteForwards: map<string, OpId>
    var agentForward: Option<OpId>
    var finished: seq<OpId>

    constructor ()
      ensures Value() == Tables(false, map[], None, [])
    {
      closed, remoteForwards, agentForward, finished := false, map[], None, [];
    }

    function Value(): Tables
      reads this
    {
      Tables(closed, remoteForwards, agentForward, finished)
    }

    method CallFinish(op: Option<OpId>)
      modifies this`finished
      ensures Value() == Finish(old(Value()), op)
    {
      if op.Some? { finished := finished + [op.value]; }
    }

    method AddRemoteForward(key: string, op: OpId)
      modifies this
      ensures Value() == Stored(old(Value()), key, op)
    {
      if closed {
        CallFinish(Some(op));
        return;
      }
      remoteForwards := remoteForwards[key := op];
    }

    method RemoveRemoteForward(key: string)
      modifies this
      ensures Value() == Removed(old(Value()), key)
    {
      var op: Option<OpId> := if key in remoteForwards then Some(remoteForwards[key]) else None;
      remoteForwards := remoteForwards - {key};
      CallFinish(op);
      if op.None? { assert remoteForwards == old(remoteForwards); }
    }

    method SetAgentForward(op: OpId)
      modifies this
      ensures Value() == AgentSet(old(Value()), op)
    {
      if closed {
        CallFinish(Some(op));
        return;
      }
      var previous := agentForward;
      agentForward := Some(op);
      CallFinish(previous);
    }

    /** Take everything that is held and finish it; the second call does nothing. */
    method Close()
      modifies this
      ensures Shuts(old(Value()), Value())
    {
      if closed { return; }
      closed := true;
      var taken := TakeAll(remoteForwards);
      assert Drains(remoteForwards, None, taken);
      if agentForward.Some? { taken := taken + [agentForward.value]; }
      assert Drains(old(remoteForwards), old(agentForward), taken);
      remoteForwards, agentForward := map[], None;
      finished := finished + taken;
    }

    /** `handleRequest` after planning, with the outcome of the upstream exchange given. */
    method HandleRequest(r: Request, op: Option<OpId>, reply: Reply) returns (ok: bool)
      requires r.Forward? ==> op.Some?
      requires r.CancelForward? ==> op.None?
      modifies this
      ensures ok <==> reply.Accepted? && !Settled(old(remoteForwards), r)
      ensures r.Forward? && Key(r.at) in old(remoteForwards) ==> !ok && Value() == Finish(old(Value()), op)
      ensures r.CancelForward? && Key(r.at) !in old(remoteForwards) ==> !ok && Value() == old(Value())
      ensures reply.Unreachable? && !Settled(old(remoteForwards), r) ==>
                Shuts(Finish(old(Value()), op), Value())
      ensures !reply.Unreachable? || Settled(old(remoteForwards), r) ==>
              var was := old(Value());
              Value() ==
                match r
                case Forward(a) =>
                  if Key(a) in was.forwards || !reply.Accepted? then Finish(was, op)
                  else Stored(was, ActualKey(Key(a), reply.reported), op.value)
                case CancelForward(a) =>
                  if Key(a) in was.forwards && reply.Accepted? then Removed(was, Key(a)) else was
                case Other => Finish(was, op)
    {
      var pending := op;
      if r.Forward? && Key(r.at) in remoteForwards {
        CallFinish(pending);
        return false;
      }
      if r.CancelForward? && Key(r.at) !in remoteForwards { return false; }
      if reply.Unreachable? {
        CallFinish(pending);
        Close();
        return false;
      }
      if !reply.Accepted? {
        CallFinish(pending);
        return false;
      }
      match r {
        case Forward(a) =>
          AddRemoteForward(ActualKey(Key(a), reply.reported), pending.value);
          pending := None;
        case CancelForward(a) =>
          RemoveRemoteForward(Key(a));
        case Other =>
      }
      CallFinish(pending);
      return true;
    }
  }

  /** Answered from the table alone, before the upstream connection is needed. */
  predicate Settled(forwards: map<string, OpId>, r: Request) {
    (r.Forward? && Key(r.at) in forwards) || (r.CancelForward? && Key(r.at) !in forwards)
  }

  /** Closing empties the tables and finishes what they held; closing again changes nothing. */
  ghost predicate Shuts(was: Tables, t: Tables) {
    if was.closed then t == was
    else
      t.closed && t.forwards == map[] && t.agent == None &&
      exists taken: seq<OpId> :: t.finished == was.finished + taken && Drains(was.forwards, was.agent, taken)
  }

  /** The list has room for each operation held and holds them all: when they are distinct, each exactly once. */
  ghost predicate Drains(forwards: map<string, OpId>, agent: Option<OpId>, taken: seq<OpId>) {
    |taken| == |forwards| + (if agent.Some? then 1 else 0) &&
    (forall k :: k in forwards ==> forwards[k] in taken) && (agent.Some? ==> agent.value in taken)
  }

  method TakeAll(forwards: map<string, OpId>) returns (ops: seq<OpId>)
    ensures Drains(forwards, None, ops)
  {
    ops := [];
    var left := forwards.Keys;
    assert |forwards| == |left|;
    while left != {}
      invariant left <= forwards.Keys && |ops| + |left| == |forwards|
      invariant forall k :: k in forwards && k !in left ==> forwards[k] in ops
      decreases left
    {
      var key :| key in left;
      ops := ops + [forwards[key]];
      left := left - {key};
    }
  }
}
