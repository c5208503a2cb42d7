/** The lifecycle of an RPC connection: one server, counted work, frozen handlers. */
module RpcConnection {
  import opened Wrappers

  datatype Stage = New | Serving | Closing | Closed

  function Rank(s: Stage): nat {
    match s case New => 0 case Serving => 1 case Closing => 2 case Closed => 3
  }

  datatype Error = InvalidArgument | AlreadyStarted | AlreadyRegistered | ConnectionClosed

  type HandlerId = nat

  /** The fields behind the connection's lock, its wait group, its one-slot channel, its context and its transport. */
  datatype Conn = Conn(
    stage: Stage,
    handlers: map<string, HandlerId>,
    streamHandlers: map<string, HandlerId>,
    work: int,
    fatal: Option<string>,
    canceled: bool,
    transportClosed: bool)

  const CONTROL: string := "Control"

  // ---- the locked sections ----

  function RegisterResult(c: Conn, method_: string, handler: Option<HandlerId>): Option<Error> {
    if method_ == "" || handler.None? then Some(InvalidArgument)
    else if c.stage != New then Some(AlreadyStarted)
    else if method_ in c.handlers then Some(AlreadyRegistered)
    else None
  }

  function Registered(c: Conn, method_: string, handler: Option<HandlerId>): Conn {
    if RegisterResult(c, method_, handler).Some? then c
    else c.(handlers := c.handlers[method_ := handler.value])
  }

  /** A registration of a stream handler that has passed its check but is not stored yet. */
  datatype Pending = Pending(kind: string, handler: HandlerId)

  predicate BadStream(kind: string, handler: Option<HandlerId>) { kind == "" || kind == CONTROL || handler.None? }

  /** The check comes before the lookup of the kind, and the connection's lock is not held in between. */
  function StreamCheck(c: Conn, kind: string, handler: Option<HandlerId>): Option<Error> {
    if BadStream(kind, handler) then Some(InvalidArgument)
    else if Ending(c) then Some(ConnectionClosed)
    else None
  }

  function Stored(handlers: map<string, HandlerId>, p: Pending): map<string, HandlerId> {
    if p.kind in handlers then handlers else handlers[p.kind := p.handler]
  }

  predicate Ending(c: Conn) { c.stage == Closing || c.stage == Closed }

  /** The locked section of `shutdown`. */
  function Shut(c: Conn): Conn { c.(stage := Closing) }

  class Connection {
    var stage: Stage
    var handlers: map<string, HandlerId>
    var streamHandlers: map<string, HandlerId>
    var work: int
    var fatal: Option<string>
    var canceled: bool
    var transportClosed: bool

    constructor ()
      ensures Value() == Conn(New, map[], map[], 0, None, false, false)
    {
      stage, handlers, streamHandlers, work, fatal := New, map[], map[], 0, None;
      canceled, transportClosed := false, false;
    }

    function Value(): Conn
      reads this
    {
      Conn(stage, handlers, streamHandlers, work, fatal, canceled, transportClosed)
    }

    method Register(method_: string, handler: Option<HandlerId>) returns (err: Option<Error>)
      modifies this
      ensures err == RegisterResult(old(Value()), method_, handler)
      ensures Value() == Registered(old(Value()), method_, handler)
    {
      if method_ == "" { return Some(InvalidArgument); }
      if handler.None? { return Some(InvalidArgument); }
      if stage != New { return Some(AlreadyStarted); }
      if method_ in handlers { return Some(AlreadyRegistered); }
      handlers := handlers[method_ := handler.value];
      return None;
    }

    method CheckStream(kind: string, handler: Option<HandlerId>) returns (err: Option<Error>)
      ensures err == StreamCheck(Value(), kind, handler)
    {
      if kind == "" || kind == CONTROL || handler.None? { return Some(InvalidArgument); }
      if stage == Closing || stage == Closed { return Some(ConnectionClosed); }
      return None;
    }

    method StoreStream(p: Pending) returns (err: Option<Error>)
      modifies this
      ensures err == if p.kind in old(streamHandlers) then Some(AlreadyRegistered) else None
      ensures Value() == old(Value()).(streamHandlers := Stored(old(streamHandlers), p))
    {
      if p.kind in streamHandlers { return Some(AlreadyRegistered); }
      streamHandlers := streamHandlers[p.kind := p.handler];
      return None;
    }

    /** Both halves, when nothing comes between them. */
    method RegisterStreamHandler(kind: string, handler: Option<HandlerId>) returns (err: Option<Error>)
      modifies this
      ensures StreamCheck(old(Value()), kind, handler).Some? ==>
                err == StreamCheck(old(Value()), kind, handler) && Value() == old(Value())
      ensures StreamCheck(old(Value()), kind, handler).None? ==>
                && err == (if kind in old(streamHandlers) then Some(AlreadyRegistered) else None)
                && Value() == old(Value()).(streamHandlers := Stored(old(streamHandlers), Pending(kind, handler.value)))
    {
      err := CheckStream(kind, handler);
      if err.None? { err := StoreStream(Pending(kind, handler.value)); }
    }

    /** The first locked section of `Serve`. */
    method EnterServe() returns (err: Option<Error>)
      modifies this
      ensures err.None? <==> old(stage) == New
      ensures Value() == if err.None? then old(Value()).(stage := Serving) else old(Value())
    {
      if stage != New { return Some(AlreadyStarted); }
      stage := Serving;
      return None;
    }

    method BeginWork() returns (ok: bool)
      modifies this
      ensures ok <==> old(stage) == Serving
      ensures Value() == if ok then old(Value()).(work := old(work) + 1) else old(Value())
    {
      if stage != Serving { return false; }
      work := work + 1;
      return true;
    }

    method Fail(err: string)
      modifies this
      ensures Value() == old(Value()).(fatal := if old(fatal).None? then Some(err) else old(fatal))
    {
      if fatal.None? { fatal := Some(err); }
    }

    /** The first call moves to closing, cancels the context and closes the transport; later ones do nothing. */
    method Shutdown()
      modifies this
      ensures Value() == if Ending(old(Value())) then old(Value())
                         else Shut(old(Value())).(canceled := true, transportClosed := true)
    {
      if stage == Closing || stage == Closed { return; }
      stage := Closing;
      canceled := true;
      transportClosed := true;
    }
  }

  // ---- runs ----

  /** Where the one call of `Serve` that got in stands; it is stopping while it runs `shutdown` itself. */
  datatype Server = Absent | Selecting | Stopping | Draining | Drained | Returned

  /** How far the one call of `shutdown` that got in has come, after its locked section. */
  datatype Teardown = NotBegun | ToCancel | ToClose | Through

  function Progress(t: Teardown): nat {
    match t case NotBegun => 0 case ToCancel => 1 case ToClose => 2 case Through => 3
  }

  /**
    `pending` is the stream registration between its check and its store; the stream lock admits one at a time.
    `started` and `ended` are the tasks that ever began and ended.
   */
  datatype World = World(
    conn: Conn,
    pending: Option<Pending>,
    server: Server,
    teardown: Teardown,
    entered: nat,
    started: set<nat>,
    ended: set<nat>)

  datatype Event =
    | Register(method_: string, handler: Option<HandlerId>)
    | CheckStream(kind: string, handler: Option<HandlerId>)   // RegisterStreamHandler, up to the end of its check
    | StoreStream                                             // and the rest of it
    | Serve                                       // a call of Serve, by anyone
    | Begin(task: nat)                            // beginWork, for Go or for an RPC stream
    | Done(task: nat, failure: Option<string>)    // the task returns, perhaps with a fatal error
    | Close                                       // the locked section of shutdown, called from outside
    | Stop                                        // the server leaves its select and enters shutdown
    | CancelContext                               // shutdown cancels the context
    | CloseTransport                              // shutdown closes the transport and returns
    | ParentCancels
    | TransportEnds
    | Drain                                       // the wait group lets the server go
    | Return

  predicate Enabled(w: World, e: Event) {
    match e
    case CheckStream(k, h) => w.pending.None? || BadStream(k, h)
    case StoreStream => w.pending.Some?
    case Begin(task) => task !in w.started
    case Done(task, _) => task in w.started && task !in w.ended
    case Stop => w.server == Selecting && (w.conn.canceled || w.conn.transportClosed || w.conn.fatal.Some?)
    case CancelContext => w.teardown == ToCancel
    case CloseTransport => w.teardown == ToClose
    case Drain => w.server == Draining && w.conn.work == 0
    case Return => w.server == Drained
    case _ => true
  }

  function Step(w: World, e: Event): World
    requires Enabled(w, e)
  {
    var c := w.conn;
    match e
    case Register(m, h) => w.(conn := Registered(c, m, h))
    case CheckStream(k, h) => if StreamCheck(c, k, h).Some? then w else w.(pending := Some(Pending(k, h.value)))
    case StoreStream =>
      w.(conn := c.(streamHandlers := Stored(c.streamHandlers, w.pending.value)), pending := None)
    case Serve =>
      if c.stage == New then w.(conn := c.(stage := Serving), server := Selecting, entered := w.entered + 1) else w
    case Begin(task) =>
      if c.stage == Serving then w.(conn := c.(work := c.work + 1), started := w.started + {task}) else w
    case Done(task, failure) =>
      var failed := if failure.Some? && c.fatal.None? then c.(fatal := failure) else c;
      w.(conn := failed.(work := c.work - 1), ended := w.ended + {task})
    case Close => if Ending(c) then w else w.(conn := Shut(c), teardown := ToCancel)
    case Stop =>
      if Ending(c) then w.(server := Draining) else w.(conn := Shut(c), teardown := ToCancel, server := Stopping)
    case CancelContext => w.(conn := c.(canceled := true), teardown := ToClose)
    case CloseTransport =>
      w.(conn := c.(transportClosed := true), teardown := Through,
         server := if w.server == Stopping then Draining else w.server)
    case ParentCancels => w.(conn := c.(canceled := true))
    case TransportEnds => w.(conn := c.(transportClosed := true))
    case Drain => w.(server := Drained)
    case Return => w.(conn := c.(stage := Closed), server := Returned)
  }

  predicate Possible(w: World, events: seq<Event>)
    decreases events
  {
    events == [] || (Enabled(w, events[0]) && Possible(Step(w, events[0]), events[1..]))
  }

  function End(w: World, events: seq<Event>): World
    requires Possible(w, events)
    decreases events
  {
    if events == [] then w else End(Step(w, events[0]), events[1..])
  }

  const FRESH: World := World(Conn(New, map[], map[], 0, None, false, false), None, Absent, NotBegun, 0, {}, {})

  predicate Sound(w: World) {
    && w.ended <= w.started
    && w.conn.work == |w.started - w.ended|
    && w.entered == (if w.server == Absent then 0 else 1)
    && (w.conn.stage == New ==> w.server == Absent && w.started == {})
    && (w.conn.stage == Serving ==> w.server == Selecting)
    && (w.server in {Stopping, Draining, Drained, Returned} ==> Ending(w.conn))
    && (w.server == Stopping ==> w.teardown in {ToCancel, ToClose})
    && (w.server in {Drained, Returned} ==> w.conn.work == 0)
    && (w.conn.stage == Closed <==> w.server == Returned)
    && (Ending(w.conn) <==> w.teardown != NotBegun)
    && (w.teardown in {ToClose, Through} ==> w.conn.canceled)
    && (w.teardown == Through ==> w.conn.transportClosed)
    && (w.pending.Some? ==> w.pending.value.kind != "" && w.pending.value.kind != CONTROL)
    && "" !in w.conn.streamHandlers && CONTROL !in w.conn.streamHandlers
  }

  lemma DoneKeepsSound(w: World, task: nat, failure: Option<string>)
    requires Sound(w) && Enabled(w, Done(task, failure))
    ensures Sound(Step(w, Done(task, failure)))
  {
    assert w.started - (w.ended + {task}) == (w.started - w.ended) - {task};
    assert task in w.started - w.ended && |w.started - w.ended| > 0;
  }

  lemma BeginKeepsSound(w: World, task: nat)
    requires Sound(w) && Enabled(w, Begin(task))
    ensures Sound(Step(w, Begin(task)))
  {
    assert (w.started + {task}) - w.ended == (w.started - w.ended) + {task};
  }

  lemma StepKeepsSound(w: World, e: Event)
    requires Sound(w) && Enabled(w, e)
    ensures Sound(Step(w, e))
  {
    match e
    case Begin(task) => BeginKeepsSound(w, task);
    case Done(task, failure) => DoneKeepsSound(w, task, failure);
    case _ =>
  }

  /** Nothing was registered for streams, or the one registration that was pending was stored. */
  predicate StoredAtMost(w: World, v: World) {
    || (v.pending == w.pending && v.conn.streamHandlers == w.conn.streamHandlers)
    || (w.pending.Some? && v.pending.None? &&
        v.conn.streamHandlers == Stored(w.conn.streamHandlers, w.pending.value))
  }

  /** No handler is taken away or replaced. */
  predicate Extends(a: map<string, HandlerId>, b: map<string, HandlerId>) {
    forall k :: k in a ==> k in b && b[k] == a[k]
  }

  /** What one step may not undo. */
  predicate Forward(w: World, v: World) {
    && Rank(w.conn.stage) <= Rank(v.conn.stage)
    && w.entered <= v.entered <= 1
    && Progress(w.teardown) <= Progress(v.teardown)
    && (w.conn.fatal.Some? ==> v.conn.fatal == w.conn.fatal)
    && (w.conn.stage != New ==> v.conn.handlers == w.conn.handlers)
    && (Ending(w.conn) ==> v.started == w.started && StoredAtMost(w, v))
    && w.started <= v.started && w.ended <= v.ended
    && (w.server in {Drained, Returned} ==>
          v.server in {Drained, Returned} && v.conn.work == 0 && v.started == w.started && v.ended == w.ended)
    && (w.conn.canceled ==> v.conn.canceled) && (w.conn.transportClosed ==> v.conn.transportClosed)
    && Extends(w.conn.handlers, v.conn.handlers) && Extends(w.conn.streamHandlers, v.conn.streamHandlers)
  }

  lemma DoneIsForward(w: World, task: nat, failure: Option<string>)
    requires Sound(w) && Enabled(w, Done(task, failure))
    ensures Forward(w, Step(w, Done(task, failure)))
  {
    assert task in w.started - w.ended && |w.started - w.ended| > 0;
  }

  lemma RegisterIsForward(w: World, e: Event)
    requires Sound(w) && Enabled(w, e) && (e.Register? || e.CheckStream? || e.StoreStream?)
    ensures Forward(w, Step(w, e))
  {
  }

  lemma StepIsForward(w: World, e: Event)
    requires Sound(w) && Enabled(w, e)
    ensures Forward(w, Step(w, e))
  {
    match e
    case Done(task, failure) => DoneIsForward(w, task, failure);
    case Register(_, _) => RegisterIsForward(w, e);
    case CheckStream(_, _) => RegisterIsForward(w, e);
    case StoreStream => RegisterIsForward(w, e);
    case _ =>
  }

  lemma ForwardChains(u: World, v: World, w: World)
    requires Forward(u, v) && Forward(v, w)
    ensures Forward(u, w)
  {
  }

  /** Runs keep the lifecycle: the count is the number of unfinished tasks, and nothing ever goes back. */
  lemma {:induction false} Lifecycle(w: World, events: seq<Event>)
    requires Sound(w) && Possible(w, events)
    ensures Sound(End(w, events)) && Forward(w, End(w, events))
    decreases events
  {
    if events != [] {
      StepKeepsSound(w, events[0]);
      StepIsForward(w, events[0]);
      Lifecycle(Step(w, events[0]), events[1..]);
      ForwardChains(w, Step(w, events[0]), End(w, events));
    } else {
      assert Forward(w, w);
    }
  }

  lemma LifecycleFromStart(before: seq<Event>, after: seq<Event>)
    requires Possible(FRESH, before) && Possible(End(FRESH, before), after)
    ensures Sound(End(FRESH, before)) && Forward(End(FRESH, before), End(End(FRESH, before), after))
  {
    assert FRESH.started - FRESH.ended == {};
    Lifecycle(FRESH, before);
    Lifecycle(End(FRESH, before), after);
  }

  /** An RPC in progress looks up its method in the map as it stood when Serve began, whenever it looks. */
  lemma HandlersFrozen(w: World, events: seq<Event>)
    requires Sound(w) && w.server == Absent && w.conn.stage == New
    requires Possible(Step(w, Serve), events)
    ensures End(Step(w, Serve), events).conn.handlers == w.conn.handlers
  {
    StepKeepsSound(w, Serve);
    Lifecycle(Step(w, Serve), events);
  }

  lemma Chain(w: World, e: Event, rest: seq<Event>)
    requires Enabled(w, e) && Possible(Step(w, e), rest)
    ensures Possible(w, [e] + rest) && End(w, [e] + rest) == End(Step(w, e), rest)
  {
    assert ([e] + rest)[1..] == rest;
  }

  /** A method that is registered before Serve has its handler in every continuation; a second one is refused. */
  lemma RegisteredForGood(w: World, m: string, h: HandlerId, events: seq<Event>, other: Option<HandlerId>)
    requires Sound(w) && w.conn.stage == New && m != "" && m !in w.conn.handlers
    requires Possible(Step(w, Register(m, Some(h))), events)
    ensures var v := End(Step(w, Register(m, Some(h))), events);
            m in v.conn.handlers && v.conn.handlers[m] == h && Step(v, Register(m, other)) == v
  {
    StepKeepsSound(w, Register(m, Some(h)));
    Lifecycle(Step(w, Register(m, Some(h))), events);
  }

  /** A registration that passed its check is stored even if the connection closes first. */
  lemma LateStore(w: World, kind: string, handler: HandlerId)
    requires !Ending(w.conn) && w.pending.None? && kind !in w.conn.streamHandlers && kind != "" && kind != CONTROL
    ensures var events := [CheckStream(kind, Some(handler)), Close];
            && Possible(w, events) && Ending(End(w, events).conn)
            && kind !in End(w, events).conn.streamHandlers && Enabled(End(w, events), StoreStream)
            && Step(End(w, events), StoreStream).conn.streamHandlers == w.conn.streamHandlers[kind := handler]
  {
    var check := CheckStream(kind, Some(handler));
    var u := Step(w, check);
    Chain(u, Close, []);
    Chain(w, check, [Close]);
    assert [check] + [Close] == [check, Close] && [Close] + [] == [Close];
  }

  /** There is a reason for the server to leave its select. */
  predicate MustStop(w: World) { w.conn.canceled || w.conn.transportClosed || w.conn.fatal.Some? }

  /** Once there is a reason to stop, the server can always return after its shutdown and the unfinished tasks do. */
  lemma {:induction false} ServeCanReturn(w: World) returns (events: seq<Event>)
    requires Sound(w) && (w.server in {Stopping, Draining} || (w.server == Selecting && MustStop(w)))
    ensures Possible(w, events) && End(w, events).conn.stage == Closed
    decreases w.started - w.ended, w.server == Selecting, w.server == Stopping, w.teardown == ToCancel
  {
    var e;
    if w.server == Selecting {
      e := Stop;
      StepKeepsSound(w, e);
      events := ServeCanReturn(Step(w, e));
    } else if w.server == Stopping {
      e := if w.teardown == ToCancel then CancelContext else CloseTransport;
      StepKeepsSound(w, e);
      events := ServeCanReturn(Step(w, e));
    } else if w.started == w.ended {
      assert w.started - w.ended == {};
      e := Drain;
      events := [Return];
      Chain(Step(w, Drain), Return, []);
    } else {
      var task :| task in w.started - w.ended;
      e := Done(task, None);
      StepKeepsSound(w, e);
      events := ServeCanReturn(Step(w, e));
    }
    Chain(w, e, events);
    events := [e] + events;
  }

  /** And a closed connection can always be torn down: context canceled, transport closed. */
  lemma TeardownCanFinish(w: World) returns (events: seq<Event>)
    requires Sound(w) && Ending(w.conn)
    ensures Possible(w, events)
    ensures var v := End(w, events); v.conn.canceled && v.conn.transportClosed && v.teardown == Through
  {
    events := [];
    if w.teardown != Through {
      Chain(if w.teardown == ToCancel then Step(w, CancelContext) else w, CloseTransport, []);
      events := [CloseTransport];
      if w.teardown == ToCancel {
        Chain(w, CancelContext, events);
        events := [CancelContext] + events;
      }
    }
  }

  /** The parent's context, the end of the transport and the first failure of a task each end a serving connection. */
  lemma EveryReasonStops(w: World, e: Event) returns (events: seq<Event>)
    requires Sound(w) && w.server == Selecting && Enabled(w, e)
    requires e.ParentCancels? || e.TransportEnds? || (e.Done? && e.failure.Some?)
    ensures Possible(Step(w, e), events) && End(Step(w, e), events).conn.stage == Closed
  {
    StepKeepsSound(w, e);
    events := ServeCanReturn(Step(w, e));
  }

  /** The first failure is the one that is kept, in every continuation; a task that ends well leaves none. */
  lemma FirstFailureIsKept(w: World, task: nat, failure: Option<string>, events: seq<Event>)
    requires Sound(w) && Enabled(w, Done(task, failure)) && Possible(Step(w, Done(task, failure)), events)
    ensures var v := Step(w, Done(task, failure));
            && v.conn.fatal == (if w.conn.fatal.Some? then w.conn.fatal else failure)
            && (v.conn.fatal.Some? ==> End(v, events).conn.fatal == v.conn.fatal)
  {
    StepKeepsSound(w, Done(task, failure));
    Lifecycle(Step(w, Done(task, failure)), events);
  }

  /** Work begins exactly while the connection is serving, and then Serve waits for it. */
  lemma BeginsIffServing(w: World, task: nat, events: seq<Event>)
    requires Sound(w) && Enabled(w, Begin(task)) && Possible(Step(w, Begin(task)), events)
    ensures task in Step(w, Begin(task)).started <==> w.conn.stage == Serving
    ensures var v := End(Step(w, Begin(task)), events);
            w.conn.stage == Serving && v.server in {Drained, Returned} ==> task in v.ended
  {
    StepKeepsSound(w, Begin(task));
    Lifecycle(Step(w, Begin(task)), events);
    var v := End(Step(w, Begin(task)), events);
    if v.server in {Drained, Returned} { assert v.started - v.ended == {}; }
  }
}
