/** Interleavings of the remote-forward listeners: streams are neither lost nor doubled, listeners do not come back. */
module RemoteForwardRuns {
  import opened Counting
  import opened Wrappers
  import opened RemoteForward

  /** A listener and its history: everything queued so far, what was handed out, what was thrown away. */
  datatype Listener = Listener(
    incoming: seq<StreamId>, closed: bool,
    delivered: seq<StreamId>, handed: seq<StreamId>, dropped: seq<StreamId>)

  const NEW_LISTENER: Listener := Listener([], false, [], [], [])

  /**
    `pending` are the listeners whose Listen call is still in flight, with the bind they asked for;
    `doomed` are those on which closeLocal is about to be called; `flying` are the streams that have been
    looked up but not yet delivered; `reset` are the streams that were reset.
   */
  datatype World = World(
    forwards: map<string, nat>, listeners: seq<Listener>, pending: map<nat, string>, doomed: set<nat>,
    flying: map<StreamId, nat>, reset: seq<StreamId>, arrived: set<StreamId>, clientClosed: bool)

  datatype Event =
    | Listen(bind: string)                      // a listener is registered under the requested bind
    | ListenError(listener: nat)                // the call failed: removeIfMatch
    | Listened(listener: nat, actual: string)   // the call succeeded: rekey
    | Dispatch(stream: StreamId, info: Info)
    | Deliver(stream: StreamId)
    | Accept(listener: nat)
    | Cancel(listener: nat)                     // removeForward
    | CloseLocal(listener: nat)
    | ClientEnds                                // the client's closed channel
    | TakeTable                                 // close empties the table

  predicate Enabled(w: World, e: Event) {
    match e
    case ListenError(l) => l in w.pending
    case Listened(l, _) => l in w.pending
    case Dispatch(s, _) => s !in w.arrived
    case Deliver(s) => s in w.flying && w.flying[s] < |w.listeners|
    case Accept(l) => l < |w.listeners| && w.listeners[l].incoming != []
    case Cancel(l) => l < |w.listeners| && l !in w.pending
    case CloseLocal(l) => l in w.doomed && l < |w.listeners|
    case TakeTable => w.clientClosed
    case _ => true
  }

  function QueueOf(l: Listener): Queue<StreamId> { Queue(l.incoming, l.closed) }

  function With(l: Listener, q: Queue<StreamId>): Listener { l.(incoming := q.incoming, closed := q.closed) }

  /** The table, the bookkeeping around it and the closed flags. */
  predicate SameTable(w: World, v: World) {
    && v.forwards == w.forwards && v.pending == w.pending && v.doomed == w.doomed
    && |v.listeners| == |w.listeners|
    && forall n :: 0 <= n < |w.listeners| ==> v.listeners[n].closed == w.listeners[n].closed
  }

  function Dispatched(w: World, s: StreamId, info: Info): (v: World)
    ensures SameTable(w, v)
  {
    var target, v := Found(w.forwards, info), w.(arrived := w.arrived + {s});
    if target.None? then v.(reset := w.reset + [s]) else v.(flying := w.flying[s := target.value])
  }

  function Delivered(w: World, s: StreamId): (v: World)
    requires Enabled(w, Deliver(s))
    ensures SameTable(w, v)
  {
    var n, v := w.flying[s], w.(flying := w.flying - {s});
    var l := w.listeners[n];
    if Refuses(QueueOf(l), w.clientClosed) then v.(reset := w.reset + [s])
    else v.(listeners := w.listeners[n := With(l, Put(QueueOf(l), s)).(delivered := l.delivered + [s])])
  }

  function HandedOut(w: World, n: nat): (v: World)
    requires Enabled(w, Accept(n))
    ensures SameTable(w, v)
  {
    var l := w.listeners[n];
    w.(listeners := w.listeners[n := With(l, Rest(QueueOf(l))).(handed := l.handed + [l.incoming[0]])])
  }

  /** A listener after closeLocal. */
  function Shut(l: Listener): Listener {
    With(l, ShutQueue(QueueOf(l))).(dropped := l.dropped + HandedBack(QueueOf(l)))
  }

  function ClosedLocally(w: World, n: nat): World
    requires Enabled(w, CloseLocal(n))
  {
    var l := w.listeners[n];
    w.(doomed := w.doomed - {n}, listeners := w.listeners[n := Shut(l)], reset := w.reset + HandedBack(QueueOf(l)))
  }

  /** A change to the table and the bookkeeping that touches no stream. */
  predicate StreamsStay(w: World, v: World) {
    v.flying == w.flying && v.reset == w.reset && v.arrived == w.arrived
  }

  function Registered(w: World, bind: string): (v: World)
    ensures StreamsStay(w, v) && (v.listeners == w.listeners || v.listeners == w.listeners + [NEW_LISTENER])
  {
    if bind in w.forwards then w
    else
      var l := |w.listeners|;
      w.(forwards := Added(w.forwards, bind, l), listeners := w.listeners + [NEW_LISTENER],
         pending := w.pending[l := bind])
  }

  function CallFailed(w: World, l: nat): (v: World)
    requires l in w.pending
    ensures StreamsStay(w, v) && v.listeners == w.listeners
  {
    var bind := w.pending[l];
    w.(forwards := RemovedIf(w.forwards, bind, l),
       pending := w.pending - {l}, doomed := w.doomed + {l})
  }

  function CallEnded(w: World, l: nat, actual: string): (v: World)
    requires l in w.pending
    ensures StreamsStay(w, v) && v.listeners == w.listeners
  {
    var bind := w.pending[l];
    w.(forwards := Rekeyed(w.forwards, bind, actual, l), pending := w.pending - {l},
       doomed := if Holds(w.forwards, bind, l) then w.doomed else w.doomed + {l})
  }

  function Cancelled(w: World, l: nat): (v: World)
    ensures StreamsStay(w, v) && v.listeners == w.listeners
  {
    w.(forwards := Without(w.forwards, l), doomed := w.doomed + {l})
  }

  function Emptied(w: World): (v: World)
    ensures StreamsStay(w, v) && v.listeners == w.listeners
  {
    w.(forwards := map[], doomed := w.doomed + w.forwards.Values)
  }

  function Step(w: World, e: Event): World
    requires Enabled(w, e)
  {
    match e
    case Listen(bind) => Registered(w, bind)
    case ListenError(l) => CallFailed(w, l)
    case Listened(l, actual) => CallEnded(w, l, actual)
    case Dispatch(s, info) => Dispatched(w, s, info)
    case Deliver(s) => Delivered(w, s)
    case Accept(n) => HandedOut(w, n)
    case Cancel(l) => Cancelled(w, l)
    case CloseLocal(n) => ClosedLocally(w, n)
    case ClientEnds => w.(clientClosed := true)
    case TakeTable => Emptied(w)
  }

  // -- conservation of streams --

  /** How often `s` is queued in or was handed out by a listener. */
  function Hold(l: Listener, s: StreamId): nat { Occurs(l.incoming, s) + Occurs(l.handed, s) }

  function Held(ls: seq<Listener>, s: StreamId): nat {
    if ls == [] then 0 else Held(ls[..|ls| - 1], s) + Hold(ls[|ls| - 1], s)
  }

  lemma {:induction false} HeldUpdate(ls: seq<Listener>, n: nat, l: Listener, s: StreamId)
    requires n < |ls|
    ensures Held(ls[n := l], s) == Held(ls, s) - Hold(ls[n], s) + Hold(l, s)
    decreases ls
  {
    var m := |ls| - 1;
    if n == m {
      assert ls[n := l][..m] == ls[..m];
    } else {
      HeldUpdate(ls[..m], n, l, s);
      assert ls[n := l][..m] == ls[..m][n := l];
    }
  }

  /** How often `s` is anywhere. */
  function Tally(w: World, s: StreamId): nat { B(s in w.flying) + Held(w.listeners, s) + Occurs(w.reset, s) }

  ghost predicate Conserved(w: World) {
    (forall s :: Tally(w, s) == B(s in w.arrived)) && w.flying.Keys <= w.arrived
  }

  lemma DispatchConserves(w: World, s: StreamId, info: Info, t: StreamId)
    requires Tally(w, t) == B(t in w.arrived) && s !in w.arrived && s !in w.flying
    ensures var v := Dispatched(w, s, info); Tally(v, t) == B(t in v.arrived)
  {
    if Found(w.forwards, info).None? { OccursOne(w.reset, s, t); }
  }

  lemma DeliverConserves(w: World, s: StreamId, t: StreamId)
    requires Enabled(w, Deliver(s))
    ensures Tally(Delivered(w, s), t) == Tally(w, t)
  {
    var v, n := Delivered(w, s), w.flying[s];
    Landed(w.flying, s, t);
    OccursOne(w.reset, s, t);
    Queued(w.listeners, n, s, t);
  }

  lemma Landed(flying: map<StreamId, nat>, s: StreamId, t: StreamId)
    requires s in flying
    ensures B(t in flying) == B(t in flying - {s}) + B(s == t)
  {
  }

  lemma Queued(ls: seq<Listener>, n: nat, s: StreamId, t: StreamId)
    requires n < |ls|
    ensures var l := With(ls[n], Put(QueueOf(ls[n]), s)).(delivered := ls[n].delivered + [s]);
            Held(ls[n := l], t) == Held(ls, t) + B(s == t)
  {
    var l := With(ls[n], Put(QueueOf(ls[n]), s)).(delivered := ls[n].delivered + [s]);
    OccursOne(ls[n].incoming, s, t);
    HeldUpdate(ls, n, l, t);
  }

  lemma AcceptConserves(w: World, n: nat, t: StreamId)
    requires Enabled(w, Accept(n))
    ensures Tally(HandedOut(w, n), t) == Tally(w, t)
  {
    var v, l := HandedOut(w, n), w.listeners[n];
    assert l.incoming == [l.incoming[0]] + l.incoming[1..];
    OccursConcat([l.incoming[0]], l.incoming[1..], t);
    OccursConcat(l.handed, [l.incoming[0]], t);
    HeldUpdate(w.listeners, n, v.listeners[n], t);
  }

  lemma CloseConserves(w: World, n: nat, t: StreamId)
    requires Enabled(w, CloseLocal(n))
    ensures Tally(ClosedLocally(w, n), t) == Tally(w, t)
  {
    OccursConcat(w.reset, HandedBack(QueueOf(w.listeners[n])), t);
    Dropped(w.listeners, n, t);
  }

  lemma Dropped(ls: seq<Listener>, n: nat, t: StreamId)
    requires n < |ls|
    ensures Held(ls[n := Shut(ls[n])], t) == Held(ls, t) - Occurs(HandedBack(QueueOf(ls[n])), t)
  {
    HeldUpdate(ls, n, Shut(ls[n]), t);
  }

  lemma TallyKept(w: World, e: Event, t: StreamId)
    requires Conserved(w) && Enabled(w, e)
    ensures Tally(Step(w, e), t) == B(t in Step(w, e).arrived)
  {
    assert Tally(w, t) == B(t in w.arrived);
    match e
    case Dispatch(s, info) => DispatchConserves(w, s, info, t);
    case Deliver(s) => DeliverConserves(w, s, t);
    case Accept(n) => AcceptConserves(w, n, t);
    case CloseLocal(n) => CloseConserves(w, n, t);
    case _ => TableStepConserves(w, e, t);
  }

  /** Changes to the table move no stream. */
  lemma TableStepConserves(w: World, e: Event, t: StreamId)
    requires Enabled(w, e) && !e.Dispatch? && !e.Deliver? && !e.Accept? && !e.CloseLocal?
    ensures Tally(Step(w, e), t) == Tally(w, t) && Step(w, e).arrived == w.arrived
  {
    SameTally(w, Step(w, e), t);
  }

  lemma SameTally(w: World, v: World, t: StreamId)
    requires v.flying == w.flying && v.reset == w.reset
    requires v.listeners == w.listeners || v.listeners == w.listeners + [NEW_LISTENER]
    ensures Tally(v, t) == Tally(w, t)
  {
    assert (w.listeners + [NEW_LISTENER])[..|w.listeners|] == w.listeners;
  }

  lemma StepConserves(w: World, e: Event)
    requires Conserved(w) && Enabled(w, e)
    ensures Conserved(Step(w, e))
  {
    forall t ensures Tally(Step(w, e), t) == B(t in Step(w, e).arrived) { TallyKept(w, e, t); }
  }

  // -- listeners and the table --

  /** Handed out in the order of delivery; closing empties the queue for good. */
  predicate InOrder(l: Listener) {
    && l.delivered == l.handed + l.incoming + l.dropped
    && (l.closed ==> l.incoming == [])
    && (!l.closed ==> l.dropped == [])
  }

  /** What the table says is consistent: no closed or doomed listener is in it. */
  predicate EntryAgrees(w: World, b: string)
    requires b in w.forwards
  {
    var l := w.forwards[b];
    l < |w.listeners| && !w.listeners[l].closed && l !in w.doomed && (l in w.pending ==> w.pending[l] == b)
  }

  predicate Consistent(w: World) {
    && (forall b :: b in w.forwards ==> EntryAgrees(w, b))
    && InRange(w)
    && (forall n :: 0 <= n < |w.listeners| ==> InOrder(w.listeners[n]))
  }

  predicate QueueEvent(e: Event) { e.Dispatch? || e.Deliver? || e.Accept? || e.ClientEnds? }

  lemma QueuesLeaveTable(w: World, e: Event)
    requires Enabled(w, e) && QueueEvent(e)
    ensures SameTable(w, Step(w, e))
  {
  }

  lemma CallEndKeepsEntry(w: World, e: Event, b: string)
    requires Consistent(w) && Enabled(w, e) && (e.ListenError? || e.Listened?) && b in Step(w, e).forwards
    ensures EntryAgrees(Step(w, e), b)
  {
    var bind := w.pending[e.listener];
    if b in w.forwards { assert EntryAgrees(w, b); }
    if Holds(w.forwards, bind, e.listener) { assert EntryAgrees(w, bind); }
  }

  lemma CloseKeepsEntry(w: World, n: nat, b: string)
    requires Consistent(w) && Enabled(w, CloseLocal(n)) && b in w.forwards
    ensures EntryAgrees(ClosedLocally(w, n), b)
  {
    assert EntryAgrees(w, b);
  }

  lemma OtherKeepsEntry(w: World, e: Event, b: string)
    requires Consistent(w) && Enabled(w, e) && b in Step(w, e).forwards && (e.Listen? || e.Cancel? || e.TakeTable?)
    ensures EntryAgrees(Step(w, e), b)
  {
    if b in w.forwards { assert EntryAgrees(w, b); }
  }

  lemma StepKeepsEntry(w: World, e: Event, b: string)
    requires Consistent(w) && Enabled(w, e) && b in Step(w, e).forwards
    ensures EntryAgrees(Step(w, e), b)
  {
    if QueueEvent(e) {
      QueuesLeaveTable(w, e);
      assert EntryAgrees(w, b);
    } else if e.ListenError? || e.Listened? {
      CallEndKeepsEntry(w, e, b);
    } else if e.CloseLocal? {
      CloseKeepsEntry(w, e.listener, b);
    } else {
      OtherKeepsEntry(w, e, b);
    }
  }

  /** Every index in the bookkeeping is that of a listener. */
  predicate InRange(w: World) {
    && (forall l :: l in w.pending ==> l < |w.listeners|)
    && (forall l :: l in w.doomed ==> l < |w.listeners|)
    && (forall s :: s in w.flying ==> w.flying[s] < |w.listeners|)
  }

  lemma StepKeepsRange(w: World, e: Event)
    requires Consistent(w) && Enabled(w, e)
    ensures InRange(Step(w, e))
  {
    if e.Dispatch? && Found(w.forwards, e.info).Some? {
      assert EntryAgrees(w, if e.info.bind in w.forwards then e.info.bind else e.info.requestedBind);
    }
    if e.TakeTable? {
      forall l | l in w.forwards.Values ensures l < |w.listeners| {
        var b :| b in w.forwards && w.forwards[b] == l;
        assert EntryAgrees(w, b);
      }
    }
  }

  lemma ListenerKeepsOrder(w: World, e: Event, n: nat)
    requires Enabled(w, e) && n < |w.listeners| && InOrder(w.listeners[n])
    ensures n < |Step(w, e).listeners| && InOrder(Step(w, e).listeners[n])
  {
    var l := w.listeners[n];
    match e
    case Deliver(s) => if !l.closed { PutInOrder(l, s); }
    case Accept(m) => if l.incoming != [] { HandedInOrder(l); }
    case CloseLocal(_) => ShutInOrder(l);
    case _ =>
  }

  lemma PutInOrder(l: Listener, s: StreamId)
    requires InOrder(l) && !l.closed
    ensures InOrder(With(l, Put(QueueOf(l), s)).(delivered := l.delivered + [s]))
  {
    assert l.handed + (l.incoming + [s]) + [] == l.handed + l.incoming + [] + [s];
  }

  lemma HandedInOrder(l: Listener)
    requires InOrder(l) && l.incoming != []
    ensures InOrder(With(l, Rest(QueueOf(l))).(handed := l.handed + [l.incoming[0]]))
  {
    assert l.incoming == [l.incoming[0]] + l.incoming[1..];
    assert l.handed + [l.incoming[0]] + l.incoming[1..] + l.dropped == l.handed + l.incoming + l.dropped;
  }

  lemma ShutInOrder(l: Listener)
    requires InOrder(l)
    ensures InOrder(Shut(l))
  {
    assert !l.closed ==> l.handed + [] + (l.dropped + l.incoming) == l.handed + l.incoming + l.dropped;
  }

  lemma StepKeepsConsistent(w: World, e: Event)
    requires Consistent(w) && Enabled(w, e)
    ensures Consistent(Step(w, e))
  {
    var v := Step(w, e);
    StepKeepsRange(w, e);
    forall b | b in v.forwards ensures EntryAgrees(v, b) { StepKeepsEntry(w, e, b); }
    forall n | 0 <= n < |v.listeners| ensures InOrder(v.listeners[n]) { OrderEverywhere(w, e, n); }
  }

  lemma OrderEverywhere(w: World, e: Event, n: nat)
    requires Consistent(w) && Enabled(w, e) && n < |Step(w, e).listeners|
    ensures InOrder(Step(w, e).listeners[n])
  {
    if n < |w.listeners| { ListenerKeepsOrder(w, e, n); }
  }

  ghost predicate Sound(w: World) { Conserved(w) && Consistent(w) }

  lemma StepKeepsSound(w: World, e: Event)
    requires Sound(w) && Enabled(w, e)
    ensures Sound(Step(w, e))
  {
    StepConserves(w, e);
    StepKeepsConsistent(w, e);
  }

  const FRESH: World := World(map[], [], map[], {}, map[], [], {}, false)

  predicate Possible(w: World, events: seq<Event>)
    decreases events
  {
    events == [] || (Enabled(w, events[0]) && Possible(Step(w, events[0]), events[1..]))
  }

  function End(w: World, events: seq<Event>): World
    requires Possible(w, events)
    decreases events
  {
    if events == [] then w else End(Step(w, events[0]), events[1..])
  }

  lemma {:induction false} RunsAreSound(w: World, events: seq<Event>)
    requires Sound(w) && Possible(w, events)
    ensures Sound(End(w, events))
    decreases events
  {
    if events != [] {
      StepKeepsSound(w, events[0]);
      RunsAreSound(Step(w, events[0]), events[1..]);
    }
  }

  /**
    In every interleaving each stream that arrived is exactly one of: on its way to one listener, queued or
    handed out once by one listener, or reset once; one that never arrived is nowhere.
   */
  lemma StreamsAreConserved(events: seq<Event>, s: StreamId)
    requires Possible(FRESH, events)
    ensures var w := End(FRESH, events);
            B(s in w.flying) + Held(w.listeners, s) + Occurs(w.reset, s) == B(s in w.arrived)
  {
    RunsAreSound(FRESH, events);
    var w := End(FRESH, events);
    assert Tally(w, s) == B(s in w.arrived);
  }

  /** Every listener hands out what was delivered to it first, in order; a closed one has nothing queued. */
  lemma HandedOutInOrder(events: seq<Event>, n: nat)
    requires Possible(FRESH, events) && n < |End(FRESH, events).listeners|
    ensures var l := End(FRESH, events).listeners[n];
            && l.handed <= l.delivered && (l.closed ==> l.incoming == [])
            && (!l.closed ==> l.delivered == l.handed + l.incoming)
  {
    RunsAreSound(FRESH, events);
    var l := End(FRESH, events).listeners[n];
    assert InOrder(l);
    assert l.handed + l.incoming + l.dropped == l.handed + (l.incoming + l.dropped);
  }

  lemma StepKeepsClosed(w: World, e: Event, n: nat)
    requires Sound(w) && Enabled(w, e) && n < |w.listeners| && w.listeners[n].closed
    ensures n < |Step(w, e).listeners| && Step(w, e).listeners[n] == w.listeners[n]
  {
    assert InOrder(w.listeners[n]);
  }

  /** A closed listener stays closed and takes and hands out nothing more. */
  lemma {:induction false} ClosedForGood(w: World, events: seq<Event>, n: nat)
    requires Sound(w) && Possible(w, events) && n < |w.listeners| && w.listeners[n].closed
    ensures n < |End(w, events).listeners| && End(w, events).listeners[n] == w.listeners[n]
    decreases events
  {
    if events != [] {
      StepKeepsSound(w, events[0]);
      StepKeepsClosed(w, events[0], n);
      ClosedForGood(Step(w, events[0]), events[1..], n);
    }
  }

  /** The table has no key for this listener. */
  predicate Gone(w: World, l: nat) { l < |w.listeners| && forall b :: b in w.forwards ==> w.forwards[b] != l }

  /** A listener that was taken out of the table never comes back, not by a late rekey either. */
  lemma {:induction false} NeverResurrected(w: World, events: seq<Event>, l: nat)
    requires Possible(w, events) && Gone(w, l)
    ensures Gone(End(w, events), l)
    decreases events
  {
    if events != [] { NeverResurrected(Step(w, events[0]), events[1..], l); }
  }

  /** A listener that was canceled is out of the table under every bind it had, in every continuation. */
  lemma CanceledForGood(w: World, l: nat, events: seq<Event>)
    requires Enabled(w, Cancel(l)) && Possible(Step(w, Cancel(l)), events)
    ensures Gone(End(Step(w, Cancel(l)), events), l)
  {
    NeverResurrected(Step(w, Cancel(l)), events, l);
  }

  // -- where a stream that found its listener goes --

  /** On its way to `l`, delivered to `l`, or reset because `l` or the client had closed. */
  predicate Fate(w: World, s: StreamId, l: nat) {
    l < |w.listeners| &&
    (|| (s in w.flying && w.flying[s] == l)
     || s in w.listeners[l].delivered
     || (s in w.reset && (w.listeners[l].closed || w.clientClosed)))
  }

  lemma StepKeepsFate(w: World, e: Event, s: StreamId, l: nat)
    requires Enabled(w, e) && Fate(w, s, l) && (s in w.flying ==> s in w.arrived)
    ensures Fate(Step(w, e), s, l)
  {
    var v := Step(w, e);
    if e.Deliver? && e.stream == s && s in w.flying && w.flying[s] == l {
      if Refuses(QueueOf(w.listeners[l]), w.clientClosed) {
        assert v.reset[|w.reset|] == s;
      } else {
        assert v.listeners[l].delivered[|w.listeners[l].delivered|] == s;
      }
    }
  }

  lemma {:induction false} FateStays(w: World, events: seq<Event>, s: StreamId, l: nat)
    requires Sound(w) && Possible(w, events) && Fate(w, s, l)
    ensures Fate(End(w, events), s, l)
    decreases events
  {
    if events != [] {
      StepKeepsSound(w, events[0]);
      StepKeepsFate(w, events[0], s, l);
      FateStays(Step(w, events[0]), events[1..], s, l);
    }
  }

  /**
    A stream that comes before its listener was re-keyed, under a bind nobody has, goes to the listener under the
    bind it asked for, which is open: whatever happens next, it is on its way there, was delivered there, or was
    reset after that listener or the client had closed.
   */
  lemma EarlyStreamFindsItsListener(before: seq<Event>, s: StreamId, info: Info, after: seq<Event>)
    requires Possible(FRESH, before) && Enabled(End(FRESH, before), Dispatch(s, info))
    requires var w := End(FRESH, before); info.bind !in w.forwards && info.requestedBind in w.forwards
    requires Possible(Step(End(FRESH, before), Dispatch(s, info)), after)
    ensures var w := End(FRESH, before);
            var l := w.forwards[info.requestedBind];
            l < |w.listeners| && !w.listeners[l].closed && Fate(End(Step(w, Dispatch(s, info)), after), s, l)
  {
    var w := End(FRESH, before);
    RunsAreSound(FRESH, before);
    assert EntryAgrees(w, info.requestedBind);
    StepKeepsSound(w, Dispatch(s, info));
    FateStays(Step(w, Dispatch(s, info)), after, s, w.forwards[info.requestedBind]);
  }

  /**
    A stream under a bind that is in the table goes to the listener there, which is open, whatever other bind the
    stream names and whoever has that.
   */
  lemma StreamFindsItsListener(before: seq<Event>, s: StreamId, info: Info, after: seq<Event>)
    requires Possible(FRESH, before) && Enabled(End(FRESH, before), Dispatch(s, info))
    requires info.bind in End(FRESH, before).forwards
    requires Possible(Step(End(FRESH, before), Dispatch(s, info)), after)
    ensures var w := End(FRESH, before);
            var l := w.forwards[info.bind];
            l < |w.listeners| && !w.listeners[l].closed && Fate(End(Step(w, Dispatch(s, info)), after), s, l)
  {
    var w := End(FRESH, before);
    RunsAreSound(FRESH, before);
    assert EntryAgrees(w, info.bind);
    StepKeepsSound(w, Dispatch(s, info));
    FateStays(Step(w, Dispatch(s, info)), after, s, w.forwards[info.bind]);
  }

  /** A stream that names no bind of the table is reset at once, and nothing else ever happens to it. */
  lemma UnknownStreamIsReset(before: seq<Event>, s: StreamId, info: Info, after: seq<Event>)
    requires Possible(FRESH, before) && Enabled(End(FRESH, before), Dispatch(s, info))
    requires var w := End(FRESH, before); info.bind !in w.forwards && info.requestedBind !in w.forwards
    requires Possible(Step(End(FRESH, before), Dispatch(s, info)), after)
    ensures Step(End(FRESH, before), Dispatch(s, info)).reset == End(FRESH, before).reset + [s]
    ensures var v := End(Step(End(FRESH, before), Dispatch(s, info)), after);
            s !in v.flying && Held(v.listeners, s) == 0 && Occurs(v.reset, s) == 1
  {
    var w := End(FRESH, before);
    RunsAreSound(FRESH, before);
    var u := Step(w, Dispatch(s, info));
    StepKeepsSound(w, Dispatch(s, info));
    OccursOne(w.reset, s, s);
    ResetForGood(u, after, s);
    RunsAreSound(u, after);
    ArrivedStays(u, after, s);
    var v := End(u, after);
    assert Tally(v, s) == B(s in v.arrived);
  }

  lemma StepKeepsReset(w: World, e: Event, s: StreamId)
    requires Enabled(w, e)
    ensures Occurs(Step(w, e).reset, s) >= Occurs(w.reset, s) && w.arrived <= Step(w, e).arrived
  {
    if e.CloseLocal? {
      OccursConcat(w.reset, HandedBack(QueueOf(w.listeners[e.listener])), s);
    } else if e.Dispatch? || e.Deliver? {
      OccursOne(w.reset, e.stream, s);
    }
  }

  lemma {:induction false} ResetForGood(w: World, events: seq<Event>, s: StreamId)
    requires Possible(w, events)
    ensures Occurs(End(w, events).reset, s) >= Occurs(w.reset, s)
    decreases events
  {
    if events != [] {
      StepKeepsReset(w, events[0], s);
      ResetForGood(Step(w, events[0]), events[1..], s);
    }
  }

  lemma {:induction false} ArrivedStays(w: World, events: seq<Event>, s: StreamId)
    requires Possible(w, events) && s in w.arrived
    ensures s in End(w, events).arrived
    decreases events
  {
    if events != [] {
      StepKeepsReset(w, events[0], s);
      ArrivedStays(Step(w, events[0]), events[1..], s);
    }
  }

  // -- what can always happen next --

  /** Some number of accepts by one listener. */
  function Accepts(n: nat, count: nat): seq<Event> {
    if count == 0 then [] else [Accept(n)] + Accepts(n, count - 1)
  }

  /** Whatever is queued can be accepted, oldest first. */
  lemma {:induction false} QueuedCanBeAccepted(w: World, n: nat, count: nat)
    requires n < |w.listeners| && count <= |w.listeners[n].incoming|
    ensures Possible(w, Accepts(n, count))
    ensures var l, v := w.listeners[n], End(w, Accepts(n, count));
            && n < |v.listeners| && v.listeners[n].handed == l.handed + l.incoming[..count]
            && v.listeners[n].incoming == l.incoming[count..]
    decreases count
  {
    var l := w.listeners[n];
    if count == 0 {
      assert l.handed + l.incoming[..0] == l.handed;
    } else {
      var u := Step(w, Accept(n));
      QueuedCanBeAccepted(u, n, count - 1);
      Chain(w, Accept(n), Accepts(n, count - 1));
      TakenOff(l.handed, l.incoming, count);
    }
  }

  lemma TakenOff(handed: seq<StreamId>, q: seq<StreamId>, count: nat)
    requires 0 < count <= |q|
    ensures handed + [q[0]] + q[1..][..count - 1] == handed + q[..count] && q[1..][count - 1..] == q[count..]
  {
  }

  /** Every listener that is about to be closed can be. */
  lemma {:induction false} DoomedCanBeClosed(w: World) returns (events: seq<Event>)
    requires Sound(w)
    ensures Possible(w, events) && End(w, events).doomed == {}
    ensures forall n :: n in w.doomed ==> n < |End(w, events).listeners| && End(w, events).listeners[n].closed
    decreases w.doomed
  {
    events := [];
    if n :| n in w.doomed {
      var u := Step(w, CloseLocal(n));
      StepKeepsSound(w, CloseLocal(n));
      var rest := DoomedCanBeClosed(u);
      ClosedForGood(u, rest, n);
      Chain(w, CloseLocal(n), rest);
      events := [CloseLocal(n)] + rest;
      forall m | m in w.doomed ensures m < |End(w, events).listeners| && End(w, events).listeners[m].closed {
        assert m == n || m in u.doomed;
      }
    }
  }

  /** A listener that is set up can be canceled and closed, and what it had queued is reset. */
  lemma CanceledCanBeClosed(w: World, n: nat)
    requires Sound(w) && n < |w.listeners| && n !in w.pending
    ensures Enabled(w, Cancel(n)) && Enabled(Step(w, Cancel(n)), CloseLocal(n))
    ensures var v := Step(Step(w, Cancel(n)), CloseLocal(n));
            Gone(v, n) && v.listeners[n].closed && v.reset == w.reset + w.listeners[n].incoming
  {
    assert InOrder(w.listeners[n]);
  }

  /** A listener keeps its bind but for its own cancel or call, a rekey, and the end of the client. */
  predicate Displaces(e: Event, l: nat) {
    e.Listened? || e == ListenError(l) || e == Cancel(l) || e.TakeTable?
  }

  lemma {:induction false} BindIsKept(w: World, events: seq<Event>, bind: string)
    requires Possible(w, events) && bind in w.forwards
    requires forall e :: e in events ==> !Displaces(e, w.forwards[bind])
    ensures bind in End(w, events).forwards && End(w, events).forwards[bind] == w.forwards[bind]
    decreases events
  {
    if events != [] {
      assert !Displaces(events[0], w.forwards[bind]);
      BindIsKept(Step(w, events[0]), events[1..], bind);
    }
  }

  /** A Listen for a bind that is taken is refused, and changes nothing. */
  lemma TakenBindIsRefused(w: World, bind: string)
    ensures bind in w.forwards ==> Step(w, Listen(bind)) == w
    ensures bind !in w.forwards ==>
              var v, l := Step(w, Listen(bind)), |w.listeners|;
              v.forwards == w.forwards[bind := l] && v.listeners == w.listeners + [NEW_LISTENER] && l in v.pending
  {
  }

  /** A Listen call ends once: then the listener is never pending again. */
  lemma {:induction false} NotPendingAgain(w: World, events: seq<Event>, l: nat)
    requires Possible(w, events) && l < |w.listeners| && l !in w.pending
    ensures l !in End(w, events).pending
    decreases events
  {
    if events != [] { NotPendingAgain(Step(w, events[0]), events[1..], l); }
  }

  lemma CallEndsOnce(before: seq<Event>, e: Event, after: seq<Event>)
    requires Possible(FRESH, before) && (e.ListenError? || e.Listened?) && Enabled(End(FRESH, before), e)
    requires Possible(Step(End(FRESH, before), e), after)
    ensures var v := End(Step(End(FRESH, before), e), after);
            !Enabled(v, ListenError(e.listener)) && forall actual :: !Enabled(v, Listened(e.listener, actual))
  {
    RunsAreSound(FRESH, before);
    NotPendingAgain(Step(End(FRESH, before), e), after, e.listener);
  }

  lemma {:induction false} ClientStaysClosed(w: World, events: seq<Event>)
    requires Possible(w, events) && (w.clientClosed || ClientEnds in events)
    ensures End(w, events).clientClosed
    decreases events
  {
    if events != [] { ClientStaysClosed(Step(w, events[0]), events[1..]); }
  }

  /** After the client has ended, every stream that is delivered is reset, whatever listener it was for. */
  lemma EndedClientResets(events: seq<Event>, s: StreamId)
    requires Possible(FRESH, events) && ClientEnds in events && Enabled(End(FRESH, events), Deliver(s))
    ensures var w := End(FRESH, events);
            var v := Step(w, Deliver(s));
            v.listeners == w.listeners && v.reset == w.reset + [s]
  {
    ClientStaysClosed(FRESH, events);
  }

  // -- listeners that nobody will close --

  predicate InTable(w: World, n: nat) { exists b :: b in w.forwards && w.forwards[b] == n }

  /** An open listener that is neither in the table, nor being set up, nor about to be closed. */
  predicate Orphan(w: World, n: nat) {
    n < |w.listeners| && !w.listeners[n].closed && !InTable(w, n) && n !in w.pending && n !in w.doomed
  }

  /** No listener is in the table twice. */
  predicate OneBind(w: World) {
    forall b, c :: b in w.forwards && c in w.forwards && w.forwards[b] == w.forwards[c] ==> b == c
  }

  /** The listener whose bind a rekey lands on, if it has been set up already. */
  function Overrun(w: World, e: Event): Option<nat>
    requires Enabled(w, e)
  {
    if e.Listened? && Holds(w.forwards, w.pending[e.listener], e.listener) && e.actual in w.forwards &&
       w.forwards[e.actual] != e.listener && w.forwards[e.actual] !in w.pending
    then Some(w.forwards[e.actual]) else None
  }

  lemma StepKeepsOneBind(w: World, e: Event)
    requires Consistent(w) && OneBind(w) && Enabled(w, e)
    ensures OneBind(Step(w, e))
  {
    if QueueEvent(e) {
      QueuesLeaveTable(w, e);
    } else if e.Listen? {
      forall b | b in w.forwards
        ensures w.forwards[b] < |w.listeners|
      {
        assert EntryAgrees(w, b);
      }
    }
  }

  lemma InTableAfterRekey(w: World, l: nat, actual: string, n: nat)
    requires OneBind(w) && l in w.pending && Holds(w.forwards, w.pending[l], l)
    ensures InTable(CallEnded(w, l, actual), n) <==>
            n == l || (InTable(w, n) && !(actual in w.forwards && w.forwards[actual] == n))
  {
    var v, bind := CallEnded(w, l, actual), w.pending[l];
    assert v.forwards[actual] == l;
    if n != l && InTable(w, n) && !(actual in w.forwards && w.forwards[actual] == n) {
      var b :| b in w.forwards && w.forwards[b] == n;
      assert b in v.forwards && v.forwards[b] == n;
    }
    if n != l && InTable(v, n) {
      var b :| b in v.forwards && v.forwards[b] == n;
      assert b in w.forwards && w.forwards[b] == n;
    }
  }

  lemma RekeyOrphans(w: World, l: nat, actual: string, n: nat)
    requires Consistent(w) && OneBind(w) && l in w.pending
    ensures Orphan(CallEnded(w, l, actual), n) <==> Overrun(w, Listened(l, actual)) == Some(n) || Orphan(w, n)
  {
    if Holds(w.forwards, w.pending[l], l) {
      InTableAfterRekey(w, l, actual, n);
      if actual in w.forwards { assert EntryAgrees(w, actual); }
    }
  }

  lemma FailureOrphans(w: World, l: nat, n: nat)
    requires Consistent(w) && OneBind(w) && l in w.pending
    ensures Orphan(CallFailed(w, l), n) <==> Orphan(w, n)
  {
    var v := CallFailed(w, l);
    if n != l {
      if b :| b in w.forwards && w.forwards[b] == n { assert b in v.forwards && v.forwards[b] == n; }
    }
  }

  lemma ListenOrphans(w: World, bind: string, n: nat)
    requires Consistent(w)
    ensures Orphan(Registered(w, bind), n) <==> Orphan(w, n)
  {
    var v := Registered(w, bind);
    if bind !in w.forwards {
      assert v.forwards[bind] == |w.listeners|;
      if b :| b in w.forwards && w.forwards[b] == n { assert b in v.forwards && v.forwards[b] == n; }
      if n < |w.listeners| && InTable(v, n) {
        var b :| b in v.forwards && v.forwards[b] == n;
        assert b in w.forwards && w.forwards[b] == n;
      }
    }
  }

  lemma CancelOrphans(w: World, l: nat, n: nat)
    requires Consistent(w) && l < |w.listeners|
    ensures Orphan(Cancelled(w, l), n) <==> Orphan(w, n) && n != l
  {
    var v := Cancelled(w, l);
    if n != l {
      if b :| b in w.forwards && w.forwards[b] == n { assert b in v.forwards && v.forwards[b] == n; }
    }
  }

  lemma CloseOrphans(w: World, m: nat, n: nat)
    requires Enabled(w, CloseLocal(m))
    ensures Orphan(ClosedLocally(w, m), n) <==> Orphan(w, n)
  {
  }

  lemma EmptyingOrphans(w: World, n: nat)
    ensures Orphan(Emptied(w), n) <==> Orphan(w, n)
  {
    assert InTable(w, n) <==> n in w.forwards.Values;
  }

  /** A listener becomes an orphan only by a rekey onto its bind, and stays one until it is canceled itself. */
  lemma StepOrphans(w: World, e: Event, n: nat)
    requires Consistent(w) && OneBind(w) && Enabled(w, e)
    ensures Orphan(Step(w, e), n) <==> Overrun(w, e) == Some(n) || (Orphan(w, n) && e != Cancel(n))
  {
    match e
    case Listened(l, actual) => RekeyOrphans(w, l, actual, n);
    case ListenError(l) => FailureOrphans(w, l, n);
    case Listen(bind) => ListenOrphans(w, bind, n);
    case Cancel(l) => CancelOrphans(w, l, n);
    case CloseLocal(m) => CloseOrphans(w, m, n);
    case TakeTable => EmptyingOrphans(w, n);
    case _ => QueuesLeaveTable(w, e);
  }

  predicate Uncanceled(events: seq<Event>, n: nat) { forall i :: 0 <= i < |events| ==> events[i] != Cancel(n) }

  /** Some rekey of the run landed on the bind of `n`, and `n` was not canceled after it. */
  predicate OverrunIn(w: World, events: seq<Event>, n: nat)
    requires Possible(w, events)
    decreases events
  {
    events != [] &&
    (|| (Overrun(w, events[0]) == Some(n) && Uncanceled(events[1..], n))
     || OverrunIn(Step(w, events[0]), events[1..], n))
  }

  lemma UncanceledCons(events: seq<Event>, n: nat)
    requires events != []
    ensures Uncanceled(events, n) <==> events[0] != Cancel(n) && Uncanceled(events[1..], n)
  {
    assert forall i :: 0 < i < |events| ==> events[i] == events[1..][i - 1];
  }

  lemma {:induction false} OrphansInRun(w: World, events: seq<Event>, n: nat)
    requires Sound(w) && OneBind(w) && Possible(w, events)
    ensures Orphan(End(w, events), n) <==> OverrunIn(w, events, n) || (Orphan(w, n) && Uncanceled(events, n))
    decreases events
  {
    if events != [] {
      UncanceledCons(events, n);
      StepKeepsSound(w, events[0]);
      StepKeepsOneBind(w, events[0]);
      StepOrphans(w, events[0], n);
      OrphansInRun(Step(w, events[0]), events[1..], n);
    }
  }

  /**
    In every run, an open listener is in the table, being set up or about to be closed, so that closing the client
    reaches it, unless a rekey landed on its bind and it was not canceled since. Then it is none of these, and no
    event but its own cancel changes that.
   */
  lemma OrphansAreOverrun(events: seq<Event>, n: nat)
    requires Possible(FRESH, events)
    ensures Orphan(End(FRESH, events), n) <==> OverrunIn(FRESH, events, n)
  {
    OrphansInRun(FRESH, events, n);
  }

  lemma FirstListener(a: string, c: string)
    requires a != c
    ensures Enabled(FRESH, Listen(a)) && Enabled(Step(FRESH, Listen(a)), Listened(0, c))
    ensures var w := Step(Step(FRESH, Listen(a)), Listened(0, c));
            && w.forwards == map[c := 0] && w.pending == map[] && w.listeners == [NEW_LISTENER] && w.doomed == {}
  {
  }

  lemma SecondListener(w: World, b: string, c: string)
    requires w.forwards == map[c := 0] && w.pending == map[] && w.listeners == [NEW_LISTENER] && w.doomed == {}
    requires b != c
    ensures Enabled(w, Listen(b)) && Enabled(Step(w, Listen(b)), Listened(1, c))
    ensures var v := Step(w, Listen(b));
            && v.forwards == map[c := 0, b := 1] && v.pending == map[1 := b] && v.doomed == {}
            && v.listeners == [NEW_LISTENER, NEW_LISTENER] && Step(v, Listened(1, c)).forwards == map[c := 1]
  {
  }

  lemma TwoListeners(a: string, b: string, c: string, events: seq<Event>)
    requires a != b && b != c && a != c && events == [Listen(a), Listened(0, c), Listen(b), Listened(1, c)]
    ensures Possible(FRESH, events) && Orphan(End(FRESH, events), 0) && OneBind(End(FRESH, events))
  {
    var w1 := Step(FRESH, Listen(a));
    FirstListener(a, c);
    var w2 := Step(w1, Listened(0, c));
    var w3 := Step(w2, Listen(b));
    SecondListener(w2, b, c);
    Chain(w3, Listened(1, c), []);
    Chain(w2, Listen(b), [Listened(1, c)]);
    Chain(w1, Listened(0, c), [Listen(b), Listened(1, c)]);
    Chain(FRESH, Listen(a), [Listened(0, c), Listen(b), Listened(1, c)]);
    assert [Listen(a)] + [Listened(0, c), Listen(b), Listened(1, c)] == events;
    OverrunLasts(w3, Step(w3, Listened(1, c)), c);
  }

  /**
    It happens: two listeners that asked for different binds are given the same one. The first stays open, out of
    reach of closing the client, however the run goes on without canceling it.
   */
  lemma OverrunHappens(a: string, b: string, c: string, events: seq<Event>, more: seq<Event>)
    requires a != b && b != c && a != c && events == [Listen(a), Listened(0, c), Listen(b), Listened(1, c)]
    requires Uncanceled(more, 0)
    ensures Possible(FRESH, events)
    ensures Possible(End(FRESH, events), more) ==> Orphan(End(End(FRESH, events), more), 0)
  {
    TwoListeners(a, b, c, events);
    RunsAreSound(FRESH, events);
    if Possible(End(FRESH, events), more) { OrphansInRun(End(FRESH, events), more, 0); }
  }

  lemma OverrunLasts(w: World, v: World, c: string)
    requires 1 in w.pending && w.pending[1] in w.forwards && w.forwards[w.pending[1]] == 1 && w.pending.Keys == {1}
    requires |w.listeners| == 2 && !w.listeners[0].closed && w.doomed == {}
    requires v == Step(w, Listened(1, c)) && v.forwards == map[c := 1]
    ensures Orphan(v, 0) && OneBind(v)
  {
  }

  lemma Chain(w: World, e: Event, rest: seq<Event>)
    requires Enabled(w, e) && Possible(Step(w, e), rest)
    ensures Possible(w, [e] + rest) && End(w, [e] + rest) == End(Step(w, e), rest)
  {
    assert ([e] + rest)[1..] == rest;
  }
}
