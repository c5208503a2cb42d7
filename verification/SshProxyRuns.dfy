/** Interleavings of the SSH proxy: no operation is finished twice, and when none is lost. */
module SshProxyRuns {
  import opened Counting
  import opened Wrappers
  import opened HostPort
  import opened SshProxy

  /** Global requests are handled one at a time; this is where the current one stands. */
  datatype Handler = Idle | Begun(request: Request, op: Option<OpId>) | Checked(request: Request, op: Option<OpId>)

  /**
    An operation that has begun is in the hands of a handler, held in a table, taken out to be finished,
    handed to a channel, or finished.
   */
  datatype World = World(
    tables: Tables, handler: Handler, hands: set<OpId>, taken: set<OpId>, channels: set<OpId>, begun: set<OpId>)

  datatype Event =
    | Start(request: Request, own: Option<OpId>, allowed: bool) // a global request arrives and its operation begins
    | Check                                                     // the table is consulted
    | Fail                                                      // no connection, no answer, or a refusal
    | Accept(reported: Option<nat>)                             // upstream accepts
    | Begin(op: OpId, allowed: bool)                            // any other operation
    | Finished(op: OpId)                                        // it ends in its handler
    | HandOff(op: OpId)                                         // or goes to a channel
    | SetAgent(op: OpId)
    | Close
    | FinishTaken(op: OpId)

  function Own(h: Handler): Option<OpId> { if h.Idle? then None else h.op }

  predicate Free(w: World, op: OpId) { op in w.hands && Own(w.handler) != Some(op) }

  /** A forward is authorised as an operation of its own, a cancel is not. */
  predicate Owned(r: Request, op: Option<OpId>) {
    (r.Forward? ==> op.Some?) && (r.CancelForward? ==> op.None?)
  }

  predicate Enabled(w: World, e: Event) {
    match e
    case Start(r, op, _) => w.handler.Idle? && Owned(r, op) && (op.Some? ==> op.value !in w.begun)
    case Check => w.handler.Begun?
    case Fail => w.handler.Checked?
    case Accept(_) => w.handler.Checked? && Owned(w.handler.request, w.handler.op)
    case Begin(op, _) => op !in w.begun
    case Finished(op) => Free(w, op)
    case HandOff(op) => Free(w, op)
    case SetAgent(op) => Free(w, op)
    case Close => true
    case FinishTaken(op) => op in w.taken
  }

  function Ops(op: Option<OpId>): set<OpId> { if op.None? then {} else {op.value} }

  function Log(w: World, op: Option<OpId>): World { w.(tables := Finish(w.tables, op)) }

  /** Where an accepted forward is filed. */
  function Filed(w: World, reported: Option<nat>): string
    requires w.handler.Checked? && w.handler.request.Forward?
  {
    ActualKey(Key(w.handler.request.at), reported)
  }

  function AcceptForward(w: World, reported: Option<nat>): World
    requires w.handler.Checked? && w.handler.request.Forward? && w.handler.op.Some?
  {
    var op := w.handler.op.value;
    w.(handler := Idle, hands := w.hands - {op}, tables := Stored(w.tables, Filed(w, reported), op))
  }

  function AcceptCancel(w: World): World
    requires w.handler.Checked? && w.handler.request.CancelForward?
  {
    var key, t := Key(w.handler.request.at), w.tables;
    if key in t.forwards
    then w.(handler := Idle, tables := t.(forwards := t.forwards - {key}), taken := w.taken + {t.forwards[key]})
    else w.(handler := Idle)
  }

  function Settle(w: World): World
    requires !w.handler.Idle?
  {
    Log(w.(handler := Idle, hands := w.hands - Ops(w.handler.op)), w.handler.op)
  }

  function Shut(w: World): World {
    var t := w.tables;
    if t.closed then w
    else w.(tables := t.(closed := true, forwards := map[], agent := None),
            taken := w.taken + t.forwards.Values + Ops(t.agent))
  }

  function Started(w: World, r: Request, op: Option<OpId>, allowed: bool): World {
    var v := w.(begun := w.begun + Ops(op));
    if allowed then v.(handler := Handler.Begun(r, op), hands := w.hands + Ops(op)) else Log(v, op)
  }

  function WithAgent(w: World, op: OpId): World {
    var t, v := w.tables, w.(hands := w.hands - {op});
    if t.closed then Log(v, Some(op)) else v.(tables := t.(agent := Some(op)), taken := w.taken + Ops(t.agent))
  }

  function Accepted(w: World, reported: Option<nat>): World
    requires Enabled(w, Accept(reported))
  {
    if w.handler.request.Forward? then AcceptForward(w, reported)
    else if w.handler.request.CancelForward? then AcceptCancel(w)
    else Settle(w)
  }

  function Step(w: World, e: Event): World
    requires Enabled(w, e)
  {
    match e
    case Start(r, op, allowed) => Started(w, r, op, allowed)
    case Check =>
      if Settled(w.tables.forwards, w.handler.request) then Settle(w)
      else w.(handler := Checked(w.handler.request, w.handler.op))
    case Fail => Settle(w)
    case Accept(reported) => Accepted(w, reported)
    case Begin(op, allowed) =>
      if allowed then w.(begun := w.begun + {op}, hands := w.hands + {op})
      else Log(w.(begun := w.begun + {op}), Some(op))
    case Finished(op) => Log(w.(hands := w.hands - {op}), Some(op))
    case HandOff(op) => w.(hands := w.hands - {op}, channels := w.channels + {op})
    case SetAgent(op) => WithAgent(w, op)
    case Close => Shut(w)
    case FinishTaken(op) => Log(w.(taken := w.taken - {op}), Some(op))
  }

  /** The steps change the tables as the proxy's methods do, once what they take out is finished. */
  lemma StepsAreMethods(w: World, op: OpId)
    ensures w.handler.Checked? && w.handler.request.CancelForward? ==>
              var key := Key(w.handler.request.at);
              Finish(AcceptCancel(w).tables, if key in w.tables.forwards then Some(w.tables.forwards[key]) else None) ==
              Removed(w.tables, key)
    ensures Finish(WithAgent(w, op).tables, if w.tables.closed then None else w.tables.agent) == AgentSet(w.tables, op)
    ensures w.tables.closed ==> Shuts(w.tables, Shut(w).tables)
  {
  }

  // ---- runs ----

  /** Every event can happen when its turn comes. Nothing is supposed of the upstream server. */
  predicate Possible(w: World, events: seq<Event>)
    decreases |events|, 0
  {
    events == [] ||
    (Possible(w, events[..|events| - 1]) && Enabled(End(w, events[..|events| - 1]), events[|events| - 1]))
  }

  function End(w: World, events: seq<Event>): World
    requires Possible(w, events)
    decreases |events|, 1
  {
    if events == [] then w else Step(End(w, events[..|events| - 1]), events[|events| - 1])
  }

  const FRESH: World := World(Tables(false, map[], None, []), Idle, {}, {}, {}, {})

  // ---- how often an operation is anywhere ----

  predicate Has(m: map<string, OpId>, op: OpId) { exists k :: k in m && m[k] == op }

  predicate Distinct(m: map<string, OpId>) { forall j, k :: j in m && k in m && m[j] == m[k] ==> j == k }

  /** In how many places an operation is. */
  function Tally(w: World, op: OpId): nat {
    B(op in w.hands) + B(Has(w.tables.forwards, op)) + B(w.tables.agent == Some(op)) + B(op in w.taken) +
    B(op in w.channels) + Occurs(w.tables.finished, op)
  }

  ghost predicate Conserved(w: World) { forall op :: Tally(w, op) == B(op in w.begun) }

  ghost predicate AtMostOnce(w: World) { forall op :: Tally(w, op) <= B(op in w.begun) }

  predicate Sound(w: World) {
    && Distinct(w.tables.forwards)
    && (w.tables.closed ==> w.tables.forwards == map[] && w.tables.agent.None?)
    && (Own(w.handler).Some? ==> Own(w.handler).value in w.hands)
    && (!w.handler.Idle? ==> Owned(w.handler.request, w.handler.op))
    && (w.handler.Checked? && w.handler.request.Forward? ==> Key(w.handler.request.at) !in w.tables.forwards)
  }

  /** The operation that a step files over: upstream reported a port that is already forwarded. */
  function Lost(w: World, e: Event): Option<OpId>
    requires Enabled(w, e)
  {
    if e.Accept? && w.handler.request.Forward? && !w.tables.closed && Filed(w, e.reported) in w.tables.forwards
    then Some(w.tables.forwards[Filed(w, e.reported)]) else None
  }

  lemma LogCounts(w: World, op: Option<OpId>, x: OpId)
    ensures Tally(Log(w, op), x) == Tally(w, x) + B(op == Some(x))
  {
    if op.Some? { OccursOne(w.tables.finished, op.value, x); }
  }

  lemma HasAfterRemove(m: map<string, OpId>, key: string, x: OpId)
    requires Distinct(m)
    ensures Has(m - {key}, x) <==> Has(m, x) && !(key in m && m[key] == x)
  {
    var n := m - {key};
    if Has(m, x) && !(key in m && m[key] == x) {
      var k :| k in m && m[k] == x;
      assert k in n && n[k] == x;
    }
  }

  lemma HasAfterStore(m: map<string, OpId>, key: string, op: OpId, x: OpId)
    requires Distinct(m)
    ensures Has(m[key := op], x) <==> x == op || (Has(m, x) && !(key in m && m[key] == x))
  {
    var n := m[key := op];
    HasAfterRemove(m, key, x);
    if Has(m - {key}, x) {
      var k :| k in m - {key} && m[k] == x;
      assert k in n && n[k] == x;
    }
    if x == op { assert key in n && n[key] == x; }
    if Has(n, x) && x != op {
      var k :| k in n && n[k] == x;
      assert k in m - {key} && (m - {key})[k] == x;
    }
  }

  lemma HasIsValue(m: map<string, OpId>, x: OpId)
    ensures Has(m, x) <==> x in m.Values
  {
  }

  // -- step by step --

  lemma SettleTally(w: World, x: OpId)
    requires Sound(w) && !w.handler.Idle?
    ensures Tally(Settle(w), x) == Tally(w, x)
  {
    LogCounts(w.(handler := Idle, hands := w.hands - Ops(w.handler.op)), w.handler.op, x);
  }

  lemma StartTally(w: World, r: Request, op: Option<OpId>, allowed: bool, x: OpId)
    requires Enabled(w, Start(r, op, allowed)) && (op.Some? ==> Tally(w, op.value) == 0)
    ensures Tally(Started(w, r, op, allowed), x) == Tally(w, x) + B(op == Some(x))
  {
    LogCounts(w.(begun := w.begun + Ops(op)), op, x);
  }

  /** Only filing over another operation loses one: that one. */
  lemma ForwardTally(w: World, reported: Option<nat>, op: OpId, x: OpId)
    requires Sound(w) && Enabled(w, Accept(reported)) && w.handler.request.Forward? && w.handler.op == Some(op)
    requires Tally(w, op) <= 1
    ensures Tally(AcceptForward(w, reported), x) + B(Lost(w, Accept(reported)) == Some(x)) == Tally(w, x)
  {
    LogCounts(w.(handler := Idle, hands := w.hands - {op}), Some(op), x);
    HasAfterStore(w.tables.forwards, Filed(w, reported), op, x);
    if Lost(w, Accept(reported)).Some? { assert Has(w.tables.forwards, Lost(w, Accept(reported)).value); }
  }

  lemma CancelTally(w: World, x: OpId)
    requires Sound(w) && w.handler.Checked? && w.handler.request.CancelForward?
    requires var m, key := w.tables.forwards, Key(w.handler.request.at); key in m ==> Tally(w, m[key]) <= 1
    ensures Tally(AcceptCancel(w), x) == Tally(w, x)
  {
    var key, m := Key(w.handler.request.at), w.tables.forwards;
    if key in m {
      assert Has(m, m[key]);
      HasAfterRemove(m, key, x);
    }
  }

  lemma AcceptTally(w: World, reported: Option<nat>, x: OpId)
    requires Sound(w) && AtMostOnce(w) && Enabled(w, Accept(reported))
    ensures Tally(Accepted(w, reported), x) + B(Lost(w, Accept(reported)) == Some(x)) == Tally(w, x)
  {
    var r := w.handler.request;
    if r.Forward? {
      var op := w.handler.op.value;
      assert Tally(w, op) <= B(op in w.begun);
      ForwardTally(w, reported, op, x);
    } else if r.CancelForward? {
      if Key(r.at) in w.tables.forwards {
        var held := w.tables.forwards[Key(r.at)];
        assert Tally(w, held) <= B(held in w.begun);
      }
      CancelTally(w, x);
    } else {
      SettleTally(w, x);
    }
  }

  lemma ShutTally(w: World, x: OpId)
    requires Sound(w) && Tally(w, x) <= 1
    ensures Tally(Shut(w), x) == Tally(w, x)
  {
    HasIsValue(w.tables.forwards, x);
    assert !Has(map[], x);
  }

  lemma AgentTally(w: World, op: OpId, x: OpId)
    requires Free(w, op) && Tally(w, op) <= 1 && Tally(w, x) <= 1
    ensures Tally(WithAgent(w, op), x) == Tally(w, x)
  {
    LogCounts(w.(hands := w.hands - {op}), Some(op), x);
  }

  lemma BeginTally(w: World, op: OpId, allowed: bool, x: OpId)
    requires op !in w.begun && Tally(w, op) == 0
    ensures Tally(Step(w, Begin(op, allowed)), x) == Tally(w, x) + B(op == x)
  {
    LogCounts(w.(begun := w.begun + {op}), Some(op), x);
  }

  lemma FinishedTally(w: World, op: OpId, x: OpId)
    requires Free(w, op)
    ensures Tally(Step(w, Finished(op)), x) == Tally(w, x)
  {
    LogCounts(w.(hands := w.hands - {op}), Some(op), x);
  }

  lemma HandOffTally(w: World, op: OpId, x: OpId)
    requires Free(w, op) && Tally(w, op) <= 1
    ensures Tally(Step(w, HandOff(op)), x) == Tally(w, x)
  {
  }

  lemma TakenTally(w: World, op: OpId, x: OpId)
    requires op in w.taken
    ensures Tally(Step(w, FinishTaken(op)), x) == Tally(w, x)
  {
    LogCounts(w.(taken := w.taken - {op}), Some(op), x);
  }

  lemma OperationTally(w: World, e: Event, x: OpId)
    requires AtMostOnce(w) && Enabled(w, e)
    requires e.Begin? || e.Finished? || e.HandOff? || e.SetAgent? || e.FinishTaken?
    ensures Tally(Step(w, e), x) == Tally(w, x) + B(e.Begin? && e.op == x)
  {
    assert Tally(w, e.op) <= B(e.op in w.begun) && Tally(w, x) <= B(x in w.begun);
    match e
    case Begin(op, allowed) => BeginTally(w, op, allowed, x);
    case Finished(op) => FinishedTally(w, op, x);
    case HandOff(op) => HandOffTally(w, op, x);
    case SetAgent(op) => AgentTally(w, op, x);
    case FinishTaken(op) => TakenTally(w, op, x);
  }

  /** The count of an operation changes with its beginning, or when it is filed over. */
  predicate TallyMoves(w: World, e: Event, x: OpId)
    requires Enabled(w, e)
  {
    var v := Step(w, e);
    && Tally(v, x) + B(Lost(w, e) == Some(x)) + B(x in w.begun) == Tally(w, x) + B(x in v.begun)
    && w.begun <= v.begun
  }

  lemma StartMoves(w: World, e: Event, x: OpId)
    requires AtMostOnce(w) && Enabled(w, e) && e.Start?
    ensures TallyMoves(w, e, x)
  {
    if e.own.Some? { assert Tally(w, e.own.value) <= B(e.own.value in w.begun); }
    StartTally(w, e.request, e.own, e.allowed, x);
  }

  lemma CheckMoves(w: World, e: Event, x: OpId)
    requires Sound(w) && Enabled(w, e) && (e.Check? || e.Fail?)
    ensures TallyMoves(w, e, x)
  {
    SettleTally(w, x);
  }

  lemma AcceptMoves(w: World, e: Event, x: OpId)
    requires Sound(w) && AtMostOnce(w) && Enabled(w, e) && e.Accept?
    ensures TallyMoves(w, e, x)
  {
    AcceptTally(w, e.reported, x);
  }

  lemma CloseMoves(w: World, e: Event, x: OpId)
    requires Sound(w) && AtMostOnce(w) && e.Close?
    ensures TallyMoves(w, e, x)
  {
    assert Tally(w, x) <= B(x in w.begun);
    ShutTally(w, x);
  }

  lemma OperationMoves(w: World, e: Event, x: OpId)
    requires AtMostOnce(w) && Enabled(w, e)
    requires e.Begin? || e.Finished? || e.HandOff? || e.SetAgent? || e.FinishTaken?
    ensures TallyMoves(w, e, x)
  {
    OperationTally(w, e, x);
  }

  /** What every step does to the count of an operation: it begins, it stays, or it is filed over. */
  lemma StepTally(w: World, e: Event, x: OpId)
    requires Sound(w) && AtMostOnce(w) && Enabled(w, e)
    ensures TallyMoves(w, e, x)
  {
    match e
    case Start(_, _, _) => StartMoves(w, e, x);
    case Check => CheckMoves(w, e, x);
    case Fail => CheckMoves(w, e, x);
    case Accept(_) => AcceptMoves(w, e, x);
    case Close => CloseMoves(w, e, x);
    case _ => OperationMoves(w, e, x);
  }

  lemma AcceptKeepsSound(w: World, reported: Option<nat>)
    requires Sound(w) && AtMostOnce(w) && Enabled(w, Accept(reported))
    ensures Sound(Accepted(w, reported))
  {
    if w.handler.request.Forward? {
      var op, m := w.handler.op.value, w.tables.forwards;
      assert Tally(w, op) <= B(op in w.begun);
      assert !Has(m, op);
    }
  }

  lemma StepKeepsSound(w: World, e: Event)
    requires Sound(w) && AtMostOnce(w) && Enabled(w, e)
    ensures Sound(Step(w, e)) && AtMostOnce(Step(w, e))
  {
    if e.Accept? { AcceptKeepsSound(w, e.reported); }
    forall x
      ensures Tally(Step(w, e), x) <= B(x in Step(w, e).begun)
    {
      assert Tally(w, x) <= B(x in w.begun);
      StepTally(w, e, x);
    }
  }

  lemma {:induction false} RunsAreSound(w: World, events: seq<Event>)
    requires Sound(w) && AtMostOnce(w) && Possible(w, events)
    ensures Sound(End(w, events)) && AtMostOnce(End(w, events))
    decreases |events|
  {
    if events != [] {
      var before := events[..|events| - 1];
      RunsAreSound(w, before);
      StepKeepsSound(End(w, before), events[|events| - 1]);
    }
  }

  lemma FreshIsSound()
    ensures Sound(FRESH) && AtMostOnce(FRESH)
  {
  }

  // ---- what holds in every run, whatever upstream reports ----

  /**
    In every interleaving an operation is in at most one place, so it is finished at most once, and one that never
    began is nowhere.
   */
  lemma NeverTwice(events: seq<Event>, op: OpId)
    requires Possible(FRESH, events)
    ensures var w := End(FRESH, events);
            && B(op in w.hands) + B(Has(w.tables.forwards, op)) + B(w.tables.agent == Some(op)) +
               B(op in w.taken) + B(op in w.channels) + Occurs(w.tables.finished, op) <= B(op in w.begun)
            && Distinct(w.tables.forwards)
  {
    FreshIsSound();
    RunsAreSound(FRESH, events);
    assert Tally(End(FRESH, events), op) <= B(op in End(FRESH, events).begun);
  }

  predicate Closes(events: seq<Event>) { exists i :: 0 <= i < |events| && events[i].Close? }

  lemma ClosesSnoc(events: seq<Event>)
    requires events != []
    ensures Closes(events) <==> Closes(events[..|events| - 1]) || events[|events| - 1].Close?
  {
    var n := |events| - 1;
    if i :| 0 <= i < |events| && events[i].Close? { assert i < n ==> events[..n][i].Close?; }
    if i :| 0 <= i < n && events[..n][i].Close? { assert events[i].Close?; }
  }

  lemma {:induction false} ClosedIffCloses(events: seq<Event>)
    requires Possible(FRESH, events)
    ensures End(FRESH, events).tables.closed <==> Closes(events)
    decreases |events|
  {
    if events != [] {
      ClosesSnoc(events);
      ClosedIffCloses(events[..|events| - 1]);
    }
  }

  /** Once a run has closed the proxy nothing is held, however it went on. */
  lemma ClosedHoldsNothing(events: seq<Event>)
    requires Possible(FRESH, events) && Closes(events)
    ensures var t := End(FRESH, events).tables; t.closed && t.forwards == map[] && t.agent.None?
  {
    FreshIsSound();
    RunsAreSound(FRESH, events);
    ClosedIffCloses(events);
  }

  /** Taken out to be finished, or finished. */
  predicate Released(w: World, op: OpId) { op in w.taken || Occurs(w.tables.finished, op) > 0 }

  lemma StepKeepsReleased(w: World, e: Event, op: OpId)
    requires Enabled(w, e) && Released(w, op)
    ensures Released(Step(w, e), op)
  {
    forall p, x: OpId
      ensures Occurs(p + [x], op) == Occurs(p, op) + B(x == op)
    {
      OccursOne(p, x, op);
    }
  }

  lemma {:induction false} ReleasedStays(w: World, events: seq<Event>, op: OpId)
    requires Possible(w, events) && Released(w, op)
    ensures Released(End(w, events), op)
    decreases |events|
  {
    if events != [] {
      var before := events[..|events| - 1];
      ReleasedStays(w, before, op);
      StepKeepsReleased(End(w, before), events[|events| - 1], op);
    }
  }

  /**
    Whatever a run held when it closed the proxy is, in every continuation, either waiting to be finished, which it
    then can be, or finished, and that once.
   */
  lemma CloseReleasesAll(events: seq<Event>, more: seq<Event>, op: OpId)
    requires Possible(FRESH, events) && !End(FRESH, events).tables.closed
    requires var t := End(FRESH, events).tables; Has(t.forwards, op) || t.agent == Some(op)
    requires Possible(Step(End(FRESH, events), Close), more)
    ensures var v := End(Step(End(FRESH, events), Close), more);
            B(op in v.taken) + Occurs(v.tables.finished, op) == 1 && (op in v.taken ==> Enabled(v, FinishTaken(op)))
  {
    var w := End(FRESH, events);
    FreshIsSound();
    RunsAreSound(FRESH, events);
    StepKeepsSound(w, Close);
    RunsAreSound(Step(w, Close), more);
    HasIsValue(w.tables.forwards, op);
    ReleasedStays(Step(w, Close), more, op);
    var v := End(Step(w, Close), more);
    assert Tally(v, op) <= B(op in v.begun);
  }

  // ---- refused operations, and answers ----

  lemma StepKeepsFinished(w: World, e: Event, op: OpId)
    requires Enabled(w, e)
    ensures Occurs(Step(w, e).tables.finished, op) >= Occurs(w.tables.finished, op) && w.begun <= Step(w, e).begun
  {
    forall p, x: OpId
      ensures Occurs(p + [x], op) == Occurs(p, op) + B(x == op)
    {
      OccursOne(p, x, op);
    }
  }

  lemma {:induction false} FinishedStays(w: World, events: seq<Event>, op: OpId)
    requires Possible(w, events)
    ensures Occurs(End(w, events).tables.finished, op) >= Occurs(w.tables.finished, op)
    decreases |events|
  {
    if events != [] {
      var before := events[..|events| - 1];
      FinishedStays(w, before, op);
      StepKeepsFinished(End(w, before), events[|events| - 1], op);
    }
  }

  /** The operation begins with this event, and is allowed or not. */
  predicate Opens(e: Event, op: OpId, allowed: bool) {
    e == Begin(op, allowed) || (e.Start? && e.own == Some(op) && e.allowed == allowed)
  }

  /** An operation that was not allowed is finished at once and is nowhere else, in every continuation. */
  lemma RefusedIsFinished(before: seq<Event>, e: Event, op: OpId, after: seq<Event>)
    requires Possible(FRESH, before) && Enabled(End(FRESH, before), e) && Opens(e, op, false)
    requires Possible(Step(End(FRESH, before), e), after)
    ensures var v := End(Step(End(FRESH, before), e), after);
            && Occurs(v.tables.finished, op) == 1
            && op !in v.hands && op !in v.taken && op !in v.channels
            && !Has(v.tables.forwards, op) && v.tables.agent != Some(op)
  {
    var w := End(FRESH, before);
    var u := Step(w, e);
    FreshIsSound();
    RunsAreSound(FRESH, before);
    StepKeepsSound(w, e);
    OccursOne(w.tables.finished, op, op);
    FinishedStays(u, after, op);
    RunsAreSound(u, after);
    var v := End(u, after);
    assert Tally(v, op) <= B(op in v.begun);
  }

  /** One that was allowed is in its handler's hands, and not finished. */
  lemma AllowedIsHeld(before: seq<Event>, e: Event, op: OpId)
    requires Possible(FRESH, before) && Enabled(End(FRESH, before), e) && Opens(e, op, true)
    ensures var v := Step(End(FRESH, before), e); op in v.hands && Occurs(v.tables.finished, op) == 0
  {
    var w := End(FRESH, before);
    FreshIsSound();
    RunsAreSound(FRESH, before);
    StepKeepsSound(w, e);
    assert Tally(Step(w, e), op) <= B(op in Step(w, e).begun);
  }

  /** The upstream end of a request is over with this event. */
  predicate Answers(e: Event) { e.Accept? || e.Fail? }

  lemma {:induction false} NoAnswerUntilStart(w: World, events: seq<Event>)
    requires Possible(w, events) && w.handler.Idle? && forall k :: 0 <= k < |events| ==> !events[k].Start?
    ensures End(w, events).handler.Idle? && forall k :: 0 <= k < |events| ==> !Answers(events[k])
    decreases |events|
  {
    if events != [] {
      var before, e := events[..|events| - 1], events[|events| - 1];
      NoAnswerUntilStart(w, before);
      forall k | 0 <= k < |events| ensures !Answers(events[k]) {
        if k < |before| { assert !Answers(before[k]); }
      }
    }
  }

  /** An answer ends its request: there is no other until the next request starts. */
  lemma AnsweredOnce(w: World, e: Event, events: seq<Event>)
    requires Enabled(w, e) && Answers(e) && Possible(Step(w, e), events)
    requires forall k :: 0 <= k < |events| ==> !events[k].Start?
    ensures Step(w, e).handler.Idle? && forall k :: 0 <= k < |events| ==> !Answers(events[k])
  {
    NoAnswerUntilStart(Step(w, e), events);
  }

  // ---- closing, step by step, is the method Close ----

  predicate NoneTwice(ops: seq<OpId>) { forall i, j :: 0 <= i < j < |ops| ==> ops[i] != ops[j] }

  /** The events that finish these, one after the other. */
  predicate Finishes(events: seq<Event>, ops: seq<OpId>) {
    |events| == |ops| && forall i :: 0 <= i < |ops| ==> events[i] == FinishTaken(ops[i])
  }

  lemma OneMore(w: World, before: seq<Event>, e: Event, events: seq<Event>)
    requires Possible(w, before) && Enabled(End(w, before), e) && events == before + [e]
    ensures Possible(w, events) && End(w, events) == Step(End(w, before), e)
  {
    assert events[..|events| - 1] == before;
  }

  /** Between `w` and `v` these were finished, in this order. */
  predicate FinishedBetween(w: World, v: World, ops: seq<OpId>) {
    v.tables == w.tables.(finished := w.tables.finished + ops) &&
    forall op :: op in w.taken && op !in ops ==> op in v.taken
  }

  lemma FinishesOne(w: World, u: World, before: seq<OpId>, op: OpId, ops: seq<OpId>)
    requires FinishedBetween(w, u, before) && ops == before + [op] && op in u.taken
    ensures FinishedBetween(w, Step(u, FinishTaken(op)), ops)
  {
    assert w.tables.finished + before + [op] == w.tables.finished + ops;
  }

  /** What was taken out can be finished in any order. */
  lemma {:induction false} TakenCanBeFinished(w: World, ops: seq<OpId>, events: seq<Event>)
    requires NoneTwice(ops) && (forall op :: op in ops ==> op in w.taken) && Finishes(events, ops)
    ensures Possible(w, events) && FinishedBetween(w, End(w, events), ops)
    decreases |ops|
  {
    var n := |ops| - 1;
    if ops == [] {
      assert w.tables.finished + [] == w.tables.finished;
    } else {
      TakenCanBeFinished(w, ops[..n], events[..n]);
      assert ops[n] in ops && ops[n] !in ops[..n] && ops == ops[..n] + [ops[n]];
      FinishesLast(w, ops[..n], ops[n], ops, events[..n], events);
    }
  }

  lemma FinishesLast(w: World, before: seq<OpId>, op: OpId, ops: seq<OpId>, first: seq<Event>, events: seq<Event>)
    requires op in w.taken && op !in before && ops == before + [op] && events == first + [FinishTaken(op)]
    requires Possible(w, first) && FinishedBetween(w, End(w, first), before)
    ensures Possible(w, events) && FinishedBetween(w, End(w, events), ops)
  {
    OneMore(w, first, FinishTaken(op), events);
    FinishesOne(w, End(w, first), before, op, ops);
  }

  /** A list of all that a table holds, without repetition, is as long as the table. */
  lemma {:induction false} ListIsAsLong(m: map<string, OpId>, ops: seq<OpId>)
    requires Distinct(m) && NoneTwice(ops) && forall op :: op in ops <==> Has(m, op)
    ensures |ops| == |m|
    decreases |ops|
  {
    if ops == [] {
      if k :| k in m {
        assert Has(m, m[k]);
        assert false;
      }
      assert m == map[];
    } else {
      var before, last := ops[..|ops| - 1], ops[|ops| - 1];
      assert ops == before + [last];
      assert Has(m, last);
      var k :| k in m && m[k] == last;
      forall op
        ensures op in before <==> Has(m - {k}, op)
      {
        HasAfterRemove(m, k, op);
      }
      ListIsAsLong(m - {k}, before);
      assert (m - {k}).Keys == m.Keys - {k};
    }
  }

  function Listed(op: Option<OpId>): seq<OpId> { if op.None? then [] else [op.value] }

  lemma HeldDrains(w: World, held: seq<OpId>)
    requires Sound(w) && AtMostOnce(w) && NoneTwice(held) && forall op :: op in held <==> Has(w.tables.forwards, op)
    ensures NoneTwice(held + Listed(w.tables.agent))
    ensures Drains(w.tables.forwards, w.tables.agent, held + Listed(w.tables.agent))
  {
    var m, agent := w.tables.forwards, w.tables.agent;
    ListIsAsLong(m, held);
    forall k | k in m ensures m[k] in held { assert Has(m, m[k]); }
    if agent.Some? { assert Tally(w, agent.value) <= B(agent.value in w.begun); }
  }

  /**
    In every run, the step of Close, followed by finishing what it took in any order with the agent last, leaves
    the tables as the method does.
   */
  lemma CloseIsTheMethod(events: seq<Event>, held: seq<OpId>, rest: seq<Event>)
    requires Possible(FRESH, events) && !End(FRESH, events).tables.closed && NoneTwice(held)
    requires forall op :: op in held <==> Has(End(FRESH, events).tables.forwards, op)
    requires Finishes(rest, held + Listed(End(FRESH, events).tables.agent))
    ensures var w := End(FRESH, events);
            Possible(Step(w, Close), rest) && Shuts(w.tables, End(Step(w, Close), rest).tables)
  {
    var w := End(FRESH, events);
    FreshIsSound();
    RunsAreSound(FRESH, events);
    ShutThenFinished(w, held, held + Listed(w.tables.agent), rest);
  }

  lemma ShutThenFinished(w: World, held: seq<OpId>, ops: seq<OpId>, rest: seq<Event>)
    requires Sound(w) && AtMostOnce(w) && !w.tables.closed && NoneTwice(held)
    requires (forall op :: op in held <==> Has(w.tables.forwards, op)) && ops == held + Listed(w.tables.agent)
    requires Finishes(rest, ops)
    ensures Possible(Shut(w), rest) && Shuts(w.tables, End(Shut(w), rest).tables)
  {
    HeldDrains(w, held);
    forall op | op in ops ensures op in Shut(w).taken { HasIsValue(w.tables.forwards, op); }
    TakenCanBeFinished(Shut(w), ops, rest);
    ShutsWith(w, End(Shut(w), rest), ops);
  }

  lemma ShutsWith(w: World, v: World, ops: seq<OpId>)
    requires !w.tables.closed && FinishedBetween(Shut(w), v, ops) && Drains(w.tables.forwards, w.tables.agent, ops)
    ensures Shuts(w.tables, v.tables)
  {
  }

  // ---- what holds exactly when upstream reports no port that is taken ----

  /** No accepted forward of the run is filed over another. */
  predicate FreshPorts(events: seq<Event>)
    requires Possible(FRESH, events)
    decreases |events|
  {
    events == [] ||
    (FreshPorts(events[..|events| - 1]) && Lost(End(FRESH, events[..|events| - 1]), events[|events| - 1]).None?)
  }

  lemma ConservedStep(w: World, e: Event)
    requires Sound(w) && AtMostOnce(w) && Conserved(w) && Enabled(w, e)
    ensures Conserved(Step(w, e)) <==> Lost(w, e).None?
  {
    var v := Step(w, e);
    forall x: OpId
      ensures Tally(v, x) + B(Lost(w, e) == Some(x)) == B(x in v.begun)
    {
      assert Tally(w, x) == B(x in w.begun);
      StepTally(w, e, x);
    }
    if Lost(w, e).Some? {
      var x := Lost(w, e).value;
      assert Tally(v, x) + B(Lost(w, e) == Some(x)) == B(x in v.begun);
    }
  }

  /** What is lost stays lost. */
  lemma LostStays(w: World, e: Event)
    requires Sound(w) && AtMostOnce(w) && !Conserved(w) && Enabled(w, e)
    ensures !Conserved(Step(w, e))
  {
    var x :| Tally(w, x) != B(x in w.begun);
    assert Tally(w, x) <= B(x in w.begun);
    StepTally(w, e, x);
    assert Tally(Step(w, e), x) != B(x in Step(w, e).begun);
  }

  /**
    In every interleaving, each operation that has begun is in exactly one place - in a handler's hands, in one slot
    of the tables, taken out to be finished, with a channel, or finished once - if and only if upstream never
    reported a port that was already forwarded.
   */
  lemma {:induction false} OperationsAreConserved(events: seq<Event>)
    requires Possible(FRESH, events)
    ensures Conserved(End(FRESH, events)) <==> FreshPorts(events)
    decreases |events|
  {
    if events == [] {
      assert forall op :: Tally(FRESH, op) == 0;
    } else {
      var before, e := events[..|events| - 1], events[|events| - 1];
      OperationsAreConserved(before);
      FreshIsSound();
      RunsAreSound(FRESH, before);
      if FreshPorts(before) {
        ConservedStep(End(FRESH, before), e);
      } else {
        LostStays(End(FRESH, before), e);
      }
    }
  }

  /** Only a port that upstream chose can collide: the table was consulted for the others. */
  lemma RequestedPortIsFresh(events: seq<Event>, e: Event)
    requires Possible(FRESH, events) && Enabled(End(FRESH, events), e) && Lost(End(FRESH, events), e).Some?
    ensures End(FRESH, events).handler.request.at.port == 0 && e.reported.Some?
  {
    var w := End(FRESH, events);
    FreshIsSound();
    RunsAreSound(FRESH, events);
    ActualKeyIsKey(w.handler.request.at, e.reported);
  }

  /** The run is possible and leads to `w`. */
  ghost predicate Leads(events: seq<Event>, w: World)
    decreases |events|
  {
    if events == [] then w == FRESH
    else
      var before, e := events[..|events| - 1], events[|events| - 1];
      exists u :: Leads(before, u) && Enabled(u, e) && Step(u, e) == w
  }

  lemma {:induction false} LeadsToEnd(events: seq<Event>, w: World)
    requires Leads(events, w)
    ensures Possible(FRESH, events) && End(FRESH, events) == w
    decreases |events|
  {
    if events != [] {
      var before, e := events[..|events| - 1], events[|events| - 1];
      var u :| Leads(before, u) && Enabled(u, e) && Step(u, e) == w;
      LeadsToEnd(before, u);
    }
  }

  lemma LeadsOn(events: seq<Event>, u: World, e: Event, next: seq<Event>)
    requires Leads(events, u) && Enabled(u, e) && next == events + [e]
    ensures Leads(next, Step(u, e))
  {
    assert next[..|next| - 1] == events;
  }

  /** A forward that is accepted, from the state before its request. */
  function Forwarded(w: World, at: Endpoint, op: OpId, reported: Option<nat>): World {
    w.(begun := w.begun + {op}, tables := Stored(w.tables, ActualKey(Key(at), reported), op))
  }

  function Asking(w: World, at: Endpoint, op: OpId): World {
    w.(begun := w.begun + {op}, hands := w.hands + {op}, handler := Checked(Forward(at), Some(op)))
  }

  lemma ForwardSteps(w: World, at: Endpoint, op: OpId, reported: Option<nat>, key: string)
    requires key == Key(at) && w.handler.Idle? && op !in w.begun && op !in w.hands && key !in w.tables.forwards
    ensures var start := Start(Forward(at), Some(op), true);
            && Enabled(w, start) && Enabled(Step(w, start), Check)
            && Step(Step(w, start), Check) == Asking(w, at, op)
            && Enabled(Asking(w, at, op), Accept(reported))
            && Step(Asking(w, at, op), Accept(reported)) == Forwarded(w, at, op, reported)
  {
    assert w.hands + {op} - {op} == w.hands;
  }

  /** It is possible whenever no request is under way and the endpoint is not in the table. */
  lemma ForwardRun(events: seq<Event>, w: World, at: Endpoint, op: OpId, reported: Option<nat>,
                   started: seq<Event>, asked: seq<Event>, accepted: seq<Event>)
    requires Leads(events, w)
    requires w.handler.Idle? && op !in w.begun && op !in w.hands && Key(at) !in w.tables.forwards
    requires started == events + [Start(Forward(at), Some(op), true)]
    requires asked == started + [Check] && accepted == asked + [Accept(reported)]
    ensures Leads(asked, Asking(w, at, op)) && Leads(accepted, Forwarded(w, at, op, reported))
  {
    var start := Start(Forward(at), Some(op), true);
    ForwardSteps(w, at, op, reported, Key(at));
    LeadsOn(events, w, start, started);
    LeadsOn(started, Step(w, start), Check, asked);
    LeadsOn(asked, Asking(w, at, op), Accept(reported), accepted);
  }

  /** Two forwards, one after the other, from request to acceptance. */
  predicate TwoForwards(run: seq<Event>, first: Endpoint, second: Endpoint, reported: Option<nat>) {
    && |run| == 6 && run[0] == Start(Forward(first), Some(0), true) && run[1] == Check && run[2] == Accept(None)
    && run[3] == Start(Forward(second), Some(1), true) && run[4] == Check && run[5] == Accept(reported)
  }

  /**
    A forward for a port, then one for port zero to which upstream answers with that port: in every such run the
    first forward is nowhere at the end, and so is never finished.
   */
  lemma CollisionHappens(host: string, port: nat, run: seq<Event>)
    requires !Bracketed(host) && port > 0 && TwoForwards(run, Endpoint(host, port), Endpoint(host, 0), Some(port))
    ensures Possible(FRESH, run) && !FreshPorts(run)
    ensures Tally(End(FRESH, run), 0) == 0 && 0 in End(FRESH, run).begun
  {
    var first, second := Endpoint(host, port), Endpoint(host, 0);
    CollidingKeys(first, second);
    Collides(first, second, Some(port), run, Key(first));
  }

  lemma CollidingKeys(first: Endpoint, second: Endpoint)
    requires !Bracketed(first.host) && first.port > 0 && second == Endpoint(first.host, 0)
    ensures ActualKey(Key(first), None) == Key(first) != Key(second)
    ensures ActualKey(Key(second), Some(first.port)) == Key(first)
  {
    ActualKeyIsKey(first, None);
    ActualKeyIsKey(second, Some(first.port));
    PortZeroFiledUnderAllocatedPort(first.host, first.port);
    KeysDiffer(first, second);
  }

  lemma KeysDiffer(a: Endpoint, b: Endpoint)
    requires a != b
    ensures Key(a) != Key(b)
  {
    if Key(a) == Key(b) { KeyInjective(a, b); }
  }

  /** The prefixes of a run of six events. */
  lemma Prefixes(run: seq<Event>)
    requires |run| == 6
    ensures run[..1] == [] + [run[0]] && run[..2] == run[..1] + [run[1]] && run[..3] == run[..2] + [run[2]]
    ensures run[..4] == run[..3] + [run[3]] && run[..5] == run[..4] + [run[4]] && run == run[..5] + [run[5]]
  {
  }

  lemma FirstForward(first: Endpoint, run: seq<Event>, key: string)
    requires |run| == 6 && run[0] == Start(Forward(first), Some(0), true) && run[1] == Check && run[2] == Accept(None)
    requires key == Key(first) == ActualKey(Key(first), None)
    ensures Leads(run[..3], FRESH.(begun := {0}, tables := FRESH.tables.(forwards := map[key := 0])))
  {
    Prefixes(run);
    ForwardRun([], FRESH, first, 0, None, run[..1], run[..2], run[..3]);
    assert FRESH.begun + {0} == {0} && map[][key := 0] == map[key := 0];
  }

  lemma SecondForward(second: Endpoint, reported: Option<nat>, run: seq<Event>, w: World)
    requires |run| == 6 && run[3] == Start(Forward(second), Some(1), true) && run[4] == Check
    requires run[5] == Accept(reported) && Leads(run[..3], w)
    requires w.handler.Idle? && 1 !in w.begun && 1 !in w.hands && Key(second) !in w.tables.forwards
    ensures Leads(run[..5], Asking(w, second, 1)) && Leads(run, Forwarded(w, second, 1, reported))
  {
    Prefixes(run);
    ForwardRun(run[..3], w, second, 1, reported, run[..4], run[..5], run);
  }

  lemma FiledOver(w: World, second: Endpoint, reported: Option<nat>, key: string)
    requires w.handler.Idle? && !w.tables.closed && key in w.tables.forwards && ActualKey(Key(second), reported) == key
    ensures var u := Asking(w, second, 1);
            Enabled(u, Accept(reported)) && Lost(u, Accept(reported)) == Some(w.tables.forwards[key])
  {
  }

  lemma Nowhere(w: World, op: OpId)
    requires op !in w.hands + w.taken + w.channels && w.tables.agent.None? && w.tables.finished == []
    requires !Has(w.tables.forwards, op)
    ensures Tally(w, op) == 0
  {
  }

  lemma Replaces(w: World, second: Endpoint, reported: Option<nat>, key: string)
    requires w == FRESH.(begun := {0}, tables := FRESH.tables.(forwards := map[key := 0]))
    requires ActualKey(Key(second), reported) == key
    ensures var u, v := Asking(w, second, 1), Forwarded(w, second, 1, reported);
            && Enabled(u, Accept(reported)) && Lost(u, Accept(reported)) == Some(0)
            && Tally(v, 0) == 0 && 0 in v.begun
  {
    FiledOver(w, second, reported, key);
    var v := Forwarded(w, second, 1, reported);
    assert !Has(v.tables.forwards, 0);
    Nowhere(v, 0);
  }

  lemma Collides(first: Endpoint, second: Endpoint, reported: Option<nat>, run: seq<Event>, key: string)
    requires key == Key(first) == ActualKey(Key(first), None) && Key(second) != key == ActualKey(Key(second), reported)
    requires TwoForwards(run, first, second, reported)
    ensures Possible(FRESH, run) && !FreshPorts(run)
    ensures Tally(End(FRESH, run), 0) == 0 && 0 in End(FRESH, run).begun
  {
    var w := FRESH.(begun := {0}, tables := FRESH.tables.(forwards := map[key := 0]));
    FirstForward(first, run, key);
    SecondForward(second, reported, run, w);
    Replaces(w, second, reported, key);
    Concludes(run, run[..5], Asking(w, second, 1), Forwarded(w, second, 1, reported), 0);
  }

  lemma Concludes(run: seq<Event>, before: seq<Event>, u: World, v: World, op: OpId)
    requires run != [] && before == run[..|run| - 1] && Leads(before, u) && Leads(run, v)
    requires Enabled(u, run[|run| - 1]) && Lost(u, run[|run| - 1]) == Some(op)
    ensures Possible(FRESH, run) && End(FRESH, run) == v && !FreshPorts(run)
  {
    LeadsToEnd(before, u);
    LeadsToEnd(run, v);
    NotFresh(run, u);
  }

  lemma NotFresh(run: seq<Event>, w: World)
    requires Possible(FRESH, run) && run != [] && w == End(FRESH, run[..|run| - 1]) && Lost(w, run[|run| - 1]).Some?
    ensures !FreshPorts(run)
  {
  }
}
