/** Remote-forward listeners on the client side of the helper connection: the locked sections. */
module RemoteForward {
  import opened Wrappers

  datatype Reason = ListenFailed | Canceled | ClientClosed

  type StreamId = nat

  /** The two binds a connection stream names. */
  datatype Info = Info(bind: string, requestedBind: string)

  datatype Incoming = Incoming(stream: StreamId, info: Info)

  // ---- what the sections do to a queue, whatever the streams are ----

  datatype Queue<T> = Queue(incoming: seq<T>, closed: bool)

  predicate Refuses<T>(q: Queue<T>, clientClosed: bool) { q.closed || clientClosed }

  function Put<T>(q: Queue<T>, item: T): Queue<T> { q.(incoming := q.incoming + [item]) }

  function Rest<T>(q: Queue<T>): Queue<T>
    requires q.incoming != []
  {
    q.(incoming := q.incoming[1..])
  }

  function ShutQueue<T>(q: Queue<T>): Queue<T> { if q.closed then q else Queue([], true) }

  /** The streams that closing hands back to be reset. */
  function HandedBack<T>(q: Queue<T>): seq<T> { if q.closed then [] else q.incoming }

  // ---- what the sections do to the table, whatever the listeners are ----

  predicate Holds<T(==)>(m: map<string, T>, bind: string, l: T) { bind in m && m[bind] == l }

  function Added<T>(m: map<string, T>, bind: string, l: T): map<string, T> { if bind in m then m else m[bind := l] }

  /** A bind that is taken keeps its listener, and one that is free gets the new one. */
  lemma AddedKeeps<T>(m: map<string, T>, bind: string, l: T, other: string)
    ensures other in m ==> other in Added(m, bind, l) && Added(m, bind, l)[other] == m[other]
    ensures other !in m ==> (other in Added(m, bind, l) <==> other == bind)
    ensures bind !in m ==> Added(m, bind, l)[bind] == l
  {
  }

  function RemovedIf<T(==)>(m: map<string, T>, bind: string, l: T): map<string, T> {
    if Holds(m, bind, l) then m - {bind} else m
  }

  function Rekeyed<T(==)>(m: map<string, T>, bind: string, actual: string, l: T): map<string, T> {
    if Holds(m, bind, l) then (m - {bind})[actual := l] else m
  }

  function Found<T>(m: map<string, T>, info: Info): Option<T> {
    if info.bind in m then Some(m[info.bind])
    else if info.requestedBind in m then Some(m[info.requestedBind])
    else None
  }

  function Without<T(==)>(m: map<string, T>, l: T): map<string, T> { map b | b in m && m[b] != l :: m[b] }

  // ---- the listener's locked sections ----

  datatype AcceptResult = Accepted(incoming: Incoming) | ContextEnded | Ended(reason: Reason) | MustWait

  class RemoteListener {
    var incoming: seq<Incoming>
    var closed: bool
    var closeErr: Option<Reason>

    constructor ()
      ensures Value() == Queue([], false) && closeErr == None
    {
      incoming, closed, closeErr := [], false, None;
    }

    function Value(): Queue<Incoming>
      reads this
    {
      Queue(incoming, closed)
    }

    /** Queue a stream, or report that it has to be reset. */
    method Deliver(item: Incoming, clientClosed: bool) returns (reset: bool)
      modifies this`incoming
      ensures reset == Refuses(old(Value()), clientClosed)
      ensures Value() == if reset then old(Value()) else Put(old(Value()), item)
    {
      if closed { return true; }
      if clientClosed { return true; }
      incoming := incoming + [item];
      return false;
    }

    /** One pass of the waiting loop of `Accept`: a queued stream wins over every reason to stop. */
    method TryAccept(contextEnded: bool, clientClosed: bool) returns (r: AcceptResult)
      modifies this`incoming
      ensures old(incoming) != [] ==> r == Accepted(old(incoming)[0]) && Value() == Rest(old(Value()))
      ensures old(incoming) == [] ==> Value() == old(Value())
      ensures old(incoming) == [] ==>
                r == if contextEnded then ContextEnded
                     else if closed && closeErr.Some? then Ended(closeErr.value)
                     else if clientClosed then Ended(ClientClosed)
                     else if closed then Ended(Canceled)
                     else MustWait
    {
      if |incoming| > 0 {
        r := Accepted(incoming[0]);
        incoming := incoming[1..];
        return;
      }
      if contextEnded { return ContextEnded; }
      if closed && closeErr.Some? { return Ended(closeErr.value); }
      if clientClosed { return Ended(ClientClosed); }
      if closed { return Ended(Canceled); }
      return MustWait;
    }

    /** Close once; the streams still queued are handed back to be reset. */
    method CloseLocal(err: Reason) returns (pending: seq<Incoming>)
      modifies this
      ensures Value() == ShutQueue(old(Value())) && pending == HandedBack(old(Value()))
      ensures closeErr == if old(closed) then old(closeErr) else Some(err)
    {
      if closed { return []; }
      closed := true;
      closeErr := Some(err);
      pending := incoming;
      incoming := [];
    }
  }

  // ---- the client's locked sections ----

  class RemoteForwardClient {
    var forwards: map<string, RemoteListener>

    constructor ()
      ensures forwards == map[]
    {
      forwards := map[];
    }

    method Add(bind: string, forward: RemoteListener) returns (ok: bool)
      modifies this
      ensures ok == (bind !in old(forwards)) && forwards == Added(old(forwards), bind, forward)
    {
      if bind in forwards { return false; }
      forwards := forwards[bind := forward];
      return true;
    }

    method RemoveIfMatch(bind: string, forward: RemoteListener)
      modifies this
      ensures forwards == RemovedIf(old(forwards), bind, forward)
    {
      if bind in forwards && forwards[bind] == forward { forwards := forwards - {bind}; }
    }

    method Rekey(oldBind: string, newBind: string, forward: RemoteListener) returns (ok: bool)
      modifies this
      ensures ok == Holds(old(forwards), oldBind, forward)
      ensures forwards == Rekeyed(old(forwards), oldBind, newBind, forward)
    {
      if oldBind !in forwards || forwards[oldBind] != forward { return false; }
      if oldBind != newBind { forwards := forwards - {oldBind}; }
      forwards := forwards[newBind := forward];
      return true;
    }

    /** The lookup of `dispatch`. */
    method Lookup(info: Info) returns (forward: Option<RemoteListener>)
      ensures forward == Found(forwards, info)
    {
      if info.bind in forwards { return Some(forwards[info.bind]); }
      if info.requestedBind in forwards { return Some(forwards[info.requestedBind]); }
      return None;
    }

    /** Every key of this listener goes, and no other. */
    method RemoveForward(forward: RemoteListener)
      modifies this
      ensures forwards == Without(old(forwards), forward)
    {
      var binds := forwards.Keys;
      while binds != {}
        invariant binds <= old(forwards).Keys
        invariant forwards ==
                  map b | b in old(forwards) && (b in binds || old(forwards)[b] != forward) :: old(forwards)[b]
        decreases binds
      {
        var bind :| bind in binds;
        if forwards[bind] == forward { forwards := forwards - {bind}; }
        binds := binds - {bind};
      }
    }
  }
}
