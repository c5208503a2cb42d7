/** The cache of prepared helpers: concurrent callers for one key share one preparation. */
module HelperCache {
  import opened Text
  import opened Wrappers

  datatype Outcome = Prepared(path: string) | Failed(error: string)

  // ---- what the locked sections do to the cache, whatever its entries are ----

  function Entered<T>(m: map<string, T>, key: string, entry: T): map<string, T> {
    if key in m then m else m[key := entry]
  }

  /** A failed entry goes unless it has been replaced. */
  function Cleared<T(==)>(m: map<string, T>, key: string, entry: T, failed: bool): map<string, T> {
    if failed && key in m && m[key] == entry then m - {key} else m
  }

  function Invalidated<T>(m: map<string, T>, prefix: string): map<string, T> {
    map k | k in m && !(prefix <= k) :: m[k]
  }

  // ---- the locked sections ----

  class CopyHelperState {
    var outcome: Option<Outcome>
    var done: bool

    constructor ()
      ensures outcome == None && !done
    {
      outcome, done := None, false;
    }
  }

  class CopyHelperAcquirer {
    var helpers: map<string, CopyHelperState>

    constructor ()
      ensures helpers == map[]
    {
      helpers := map[];
    }

    /** The entry for a key, and whether the caller has to prepare it. */
    method HelperState(key: string) returns (state: CopyHelperState, owner: bool)
      modifies this
      ensures owner == (key !in old(helpers)) && helpers == Entered(old(helpers), key, state)
      ensures !owner ==> state == old(helpers)[key]
      ensures owner ==> fresh(state) && !state.done && state.outcome == None
    {
      if key in helpers { return helpers[key], false; }
      state := new CopyHelperState();
      helpers := helpers[key := state];
      owner := true;
    }

    /** Forget a failed entry unless it has been replaced, then release the waiters. */
    method FinishHelperState(key: string, state: CopyHelperState)
      requires state.outcome.Some? && !state.done
      modifies this, state`done
      ensures state.done
      ensures helpers == Cleared(old(helpers), key, state, state.outcome.value.Failed?)
    {
      if state.outcome.value.Failed? && key in helpers && helpers[key] == state {
        helpers := helpers - {key};
      }
      state.done := true;
    }

    /** Forget every entry whose key starts with the prefix, and no other. */
    method Invalidate(prefix: string)
      modifies this
      ensures helpers == Invalidated(old(helpers), prefix)
    {
      var keys := helpers.Keys;
      while keys != {}
        invariant keys <= old(helpers).Keys
        invariant helpers == map k | k in old(helpers) && (k in keys || !(prefix <= k)) :: old(helpers)[k]
        decreases keys
      {
        var key :| key in keys;
        if prefix <= key { helpers := helpers - {key}; }
        keys := keys - {key};
      }
    }
  }

  // ---- keys ----

  function Prefix(target: string, uid: string): string { target + "\0" + (uid + "\0") }

  function Key(target: string, uid: string, version: string, commit: string): string {
    Prefix(target, uid) + (version + "\0" + commit)
  }

  /** Invalidating a target hits the keys of that target and no other. */
  lemma PrefixIdentifiesTarget(t: string, u: string, target: string, uid: string, version: string, commit: string)
    requires '\0' !in t && '\0' !in u && '\0' !in target && '\0' !in uid
    ensures Prefix(t, u) <= Key(target, uid, version, commit) <==> t == target && u == uid
  {
    var key := Key(target, uid, version, commit);
    if Prefix(t, u) <= key {
      var rest := key[|Prefix(t, u)|..];
      assert key == t + "\0" + (u + "\0" + rest);
      assert key == target + "\0" + (uid + "\0" + (version + "\0" + commit));
      CutOf(t, '\0', u + "\0" + rest);
      CutOf(target, '\0', uid + "\0" + (version + "\0" + commit));
      CutOf(u, '\0', rest);
      CutOf(uid, '\0', version + "\0" + commit);
    }
  }

  /** Two helpers share an entry only if they are for the same target and the same build. */
  lemma KeyIdentifiesBuild(t: string, u: string, v: string, c: string, target: string, uid: string, version: string,
                           commit: string)
    requires '\0' !in t && '\0' !in u && '\0' !in v && '\0' !in target && '\0' !in uid && '\0' !in version
    ensures Key(t, u, v, c) == Key(target, uid, version, commit) <==>
            t == target && u == uid && v == version && c == commit
  {
    if Key(t, u, v, c) == Key(target, uid, version, commit) {
      PrefixIdentifiesTarget(t, u, target, uid, version, commit);
      var n := |Prefix(t, u)|;
      assert Key(t, u, v, c)[n..] == v + "\0" + c && Key(target, uid, version, commit)[n..] == version + "\0" + commit;
      CutOf(v, '\0', c);
      CutOf(version, '\0', commit);
    }
  }

  // ---- interleavings ----

  /** One preparation: `signals` counts how often its done channel was closed. */
  datatype Attempt = Attempt(key: string, owner: nat, outcome: Option<Outcome>, removed: bool, signals: nat)

  datatype Caller =
    | Preparing(attempt: nat)     // the owner, until it has recorded its outcome
    | Finishing(attempt: nat)     // the owner, between recording and signalling
    | Waiting(attempt: nat)
    | Got(attempt: nat, outcome: Outcome)
    | GaveUp

  datatype World = World(cache: map<string, nat>, attempts: seq<Attempt>, callers: map<nat, Caller>)

  datatype Event =
    | Acquire(caller: nat, key: string)
    | Record(caller: nat, outcome: Outcome)  // the owner stores its result
    | Remove(caller: nat)                    // the locked section of finishHelperState
    | Signal(caller: nat)                    // close(done), and the owner goes on
    | Wake(caller: nat)                      // a waiter sees the signal
    | GiveUp(caller: nat)                    // a waiter's context ends
    | Invalidate(prefix: string)

  predicate Enabled(w: World, e: Event) {
    match e
    case Acquire(c, _) => c !in w.callers
    case Record(c, _) => c in w.callers && w.callers[c].Preparing? && w.callers[c].attempt < |w.attempts|
    case Remove(c) =>
      c in w.callers && w.callers[c].Finishing? && w.callers[c].attempt < |w.attempts| &&
      w.attempts[w.callers[c].attempt].outcome.Some? && !w.attempts[w.callers[c].attempt].removed
    case Signal(c) =>
      c in w.callers && w.callers[c].Finishing? && w.callers[c].attempt < |w.attempts| &&
      w.attempts[w.callers[c].attempt].outcome.Some? && w.attempts[w.callers[c].attempt].removed
    case Wake(c) =>
      c in w.callers && w.callers[c].Waiting? && w.callers[c].attempt < |w.attempts| &&
      w.attempts[w.callers[c].attempt].signals > 0 && w.attempts[w.callers[c].attempt].outcome.Some?
    case GiveUp(c) => c in w.callers && w.callers[c].Waiting?
    case Invalidate(_) => true
  }

  function Step(w: World, e: Event): World
    requires Enabled(w, e)
  {
    match e
    case Acquire(c, key) =>
      if key in w.cache then w.(callers := w.callers[c := Waiting(w.cache[key])])
      else
        var n := |w.attempts|;
        World(Entered(w.cache, key, n), w.attempts + [Attempt(key, c, None, false, 0)], w.callers[c := Preparing(n)])
    case Record(c, outcome) =>
      var n := w.callers[c].attempt;
      w.(attempts := w.attempts[n := w.attempts[n].(outcome := Some(outcome))], callers := w.callers[c := Finishing(n)])
    case Remove(c) =>
      var n := w.callers[c].attempt;
      var a := w.attempts[n];
      w.(cache := Cleared(w.cache, a.key, n, a.outcome.value.Failed?),
         attempts := w.attempts[n := a.(removed := true)])
    case Signal(c) =>
      var n := w.callers[c].attempt;
      var a := w.attempts[n];
      w.(attempts := w.attempts[n := a.(signals := a.signals + 1)], callers := w.callers[c := Got(n, a.outcome.value)])
    case Wake(c) =>
      var n := w.callers[c].attempt;
      w.(callers := w.callers[c := Got(n, w.attempts[n].outcome.value)])
    case GiveUp(c) => w.(callers := w.callers[c := GaveUp])
    case Invalidate(prefix) => w.(cache := Invalidated(w.cache, prefix))
  }

  const FRESH: World := World(map[], [], map[])

  // -- the invariant, attempt by attempt and caller by caller --

  /** Where the owner of an attempt stands determines how far the attempt is. */
  predicate OwnerAgrees(w: World, n: nat)
    requires n < |w.attempts|
  {
    var a := w.attempts[n];
    a.owner in w.callers &&
    match w.callers[a.owner]
    case Preparing(m) => m == n && a.outcome.None? && !a.removed && a.signals == 0
    case Finishing(m) => m == n && a.outcome.Some? && a.signals == 0
    case Got(m, o) => m == n && a.outcome == Some(o) && a.removed && a.signals == 1
    case _ => false
  }

  predicate CallerAgrees(w: World, c: nat)
    requires c in w.callers
  {
    match w.callers[c]
    case Preparing(n) => n < |w.attempts| && w.attempts[n].owner == c
    case Finishing(n) => n < |w.attempts| && w.attempts[n].owner == c
    case Waiting(n) => n < |w.attempts| && w.attempts[n].owner != c
    case Got(n, o) => n < |w.attempts| && w.attempts[n].outcome == Some(o) && w.attempts[n].signals == 1
    case GaveUp => true
  }

  /** A cached attempt is for its key, and is not one that failed and was taken out. */
  predicate EntryAgrees(w: World, key: string)
    requires key in w.cache
  {
    var n := w.cache[key];
    n < |w.attempts| && w.attempts[n].key == key &&
    !(w.attempts[n].removed && w.attempts[n].outcome.Some? && w.attempts[n].outcome.value.Failed?)
  }

  predicate Sound(w: World) {
    && (forall n :: 0 <= n < |w.attempts| ==> OwnerAgrees(w, n))
    && (forall c :: c in w.callers ==> CallerAgrees(w, c))
    && (forall k :: k in w.cache ==> EntryAgrees(w, k))
  }

  lemma StepKeepsOwners(w: World, e: Event)
    requires Sound(w) && Enabled(w, e)
    ensures var v := Step(w, e); forall n :: 0 <= n < |v.attempts| ==> OwnerAgrees(v, n)
  {
    var v := Step(w, e);
    forall n | 0 <= n < |v.attempts| ensures OwnerAgrees(v, n) {
      if n < |w.attempts| {
        assert OwnerAgrees(w, n);
        if !e.Invalidate? && e.caller in w.callers { assert CallerAgrees(w, e.caller); }
      }
    }
  }

  lemma StepKeepsCallers(w: World, e: Event)
    requires Sound(w) && Enabled(w, e)
    ensures var v := Step(w, e); forall c :: c in v.callers ==> CallerAgrees(v, c)
  {
    var v := Step(w, e);
    forall c | c in v.callers ensures CallerAgrees(v, c) {
      if !e.Invalidate? && e.caller in w.callers { assert CallerAgrees(w, e.caller); }
      if c in w.callers { assert CallerAgrees(w, c); }
      if e.Acquire? && e.key in w.cache {
        assert EntryAgrees(w, e.key);
        assert OwnerAgrees(w, w.cache[e.key]);
      }
      if e.Record? || e.Remove? || e.Signal? || e.Wake? { assert OwnerAgrees(w, w.callers[e.caller].attempt); }
    }
  }

  lemma StepKeepsEntries(w: World, e: Event)
    requires Sound(w) && Enabled(w, e)
    ensures var v := Step(w, e); forall k :: k in v.cache ==> EntryAgrees(v, k)
  {
    var v := Step(w, e);
    forall k | k in v.cache ensures EntryAgrees(v, k) {
      if k in w.cache {
        assert EntryAgrees(w, k);
        assert OwnerAgrees(w, w.cache[k]);
      }
      if !e.Invalidate? && e.caller in w.callers { assert CallerAgrees(w, e.caller); }
    }
  }

  lemma StepKeepsSound(w: World, e: Event)
    requires Sound(w) && Enabled(w, e)
    ensures Sound(Step(w, e))
  {
    StepKeepsOwners(w, e);
    StepKeepsCallers(w, e);
    StepKeepsEntries(w, e);
  }

  predicate Possible(w: World, events: seq<Event>)
    decreases events
  {
    events == [] || (Enabled(w, events[0]) && Possible(Step(w, events[0]), events[1..]))
  }

  function End(w: World, events: seq<Event>): World
    requires Possible(w, events)
    decreases events
  {
    if events == [] then w else End(Step(w, events[0]), events[1..])
  }

  lemma {:induction false} RunsAreSound(w: World, events: seq<Event>)
    requires Sound(w) && Possible(w, events)
    ensures Sound(End(w, events))
    decreases events
  {
    if events != [] {
      StepKeepsSound(w, events[0]);
      RunsAreSound(Step(w, events[0]), events[1..]);
    }
  }

  /** Each attempt has one owner of its own, and its done channel is closed at most once. */
  lemma OneOwnerOneSignal(w: World, m: nat, n: nat)
    requires Sound(w) && m < |w.attempts| && n < |w.attempts|
    ensures w.attempts[m].owner == w.attempts[n].owner ==> m == n
    ensures w.attempts[n].signals <= 1
    ensures w.attempts[n].owner in w.callers
    ensures w.attempts[n].signals == 1 <==> w.callers[w.attempts[n].owner].Got?
  {
    assert OwnerAgrees(w, m) && OwnerAgrees(w, n);
  }

  /** Whoever got a result from an attempt got what its owner got, and the owner did get it. */
  lemma WaitersShareOwnersResult(w: World, c: nat)
    requires Sound(w) && c in w.callers && w.callers[c].Got?
    ensures var n := w.callers[c].attempt;
            n < |w.attempts| && w.attempts[n].owner in w.callers && w.callers[w.attempts[n].owner] == w.callers[c]
  {
    assert CallerAgrees(w, c) && OwnerAgrees(w, w.callers[c].attempt);
  }

  /** A waiter whose attempt has been signalled can go on, and goes on with the owner's result. */
  lemma WaiterCanWake(w: World, c: nat)
    requires Sound(w) && c in w.callers && w.callers[c].Waiting?
    ensures var n := w.callers[c].attempt;
            n < |w.attempts| && w.attempts[n].owner in w.callers &&
            (w.attempts[n].signals > 0 ==>
               Enabled(w, Wake(c)) && Step(w, Wake(c)).callers[c] == w.callers[w.attempts[n].owner])
  {
    assert CallerAgrees(w, c) && OwnerAgrees(w, w.callers[c].attempt);
  }

  /**
    In every interleaving of a new cache: no two attempts have the same owner, none is signalled twice, whoever
    got a result got the owner's, and a cached attempt is for its key and was not taken out as failed.
   */
  lemma ResultsAreShared(events: seq<Event>, m: nat, n: nat, c: nat, key: string)
    requires Possible(FRESH, events)
    ensures var w := End(FRESH, events);
            && (m < n < |w.attempts| ==> w.attempts[m].owner != w.attempts[n].owner)
            && (n < |w.attempts| ==> w.attempts[n].signals <= 1)
            && (c in w.callers && w.callers[c].Got? ==>
                  var a := w.callers[c].attempt;
                  a < |w.attempts| && w.attempts[a].outcome == Some(w.callers[c].outcome) &&
                  w.attempts[a].owner in w.callers && w.callers[w.attempts[a].owner] == w.callers[c])
            && (key in w.cache ==>
                  w.cache[key] < |w.attempts| && w.attempts[w.cache[key]].key == key && !TakenOut(w, w.cache[key]))
  {
    var w := End(FRESH, events);
    RunsAreSound(FRESH, events);
    if m < n < |w.attempts| { OneOwnerOneSignal(w, m, n); }
    if n < |w.attempts| { OneOwnerOneSignal(w, n, n); }
    if c in w.callers && w.callers[c].Got? {
      WaitersShareOwnersResult(w, c);
      assert CallerAgrees(w, c);
    }
    if key in w.cache { assert EntryAgrees(w, key); }
  }

  /** A finishing owner takes out its own entry if it failed, and nobody else's. */
  lemma RemoveSparesSuccessors(w: World, c: nat, key: string)
    requires Sound(w) && Enabled(w, Remove(c))
    ensures var n, v := w.callers[c].attempt, Step(w, Remove(c));
            && (key in w.cache && w.cache[key] != n ==> key in v.cache && v.cache[key] == w.cache[key])
            && (key in v.cache ==> key in w.cache && v.cache[key] == w.cache[key])
            && (key in w.cache && key !in v.cache <==>
                  w.attempts[n].outcome.value.Failed? && key in w.cache && w.cache[key] == n)
  {
    assert CallerAgrees(w, c);
    if key in w.cache { assert EntryAgrees(w, key); }
  }

  // -- one preparation at a time --

  /** No Invalidate of the run fits the key. */
  predicate Uninvalidated(events: seq<Event>, key: string) {
    forall e :: e in events && e.Invalidate? ==> !(e.prefix <= key)
  }

  /** An attempt for the key is over and forgotten, or it is the cached one. */
  predicate Current(w: World, key: string, n: nat)
    requires n < |w.attempts|
  {
    w.attempts[n].key == key ==> TakenOut(w, n) || (key in w.cache && w.cache[key] == n)
  }

  predicate Shared(w: World, key: string) {
    && (forall n :: 0 <= n < |w.attempts| ==> Current(w, key, n))
    && (forall m, n :: 0 <= m < n < |w.attempts| && w.attempts[m].key == key && w.attempts[n].key == key ==>
          TakenOut(w, m))
  }

  lemma StepKeepsCurrent(w: World, e: Event, key: string, n: nat)
    requires Sound(w) && Enabled(w, e) && !(e.Invalidate? && e.prefix <= key)
    requires n < |w.attempts| && Current(w, key, n)
    ensures n < |Step(w, e).attempts| && Step(w, e).attempts[n].key == w.attempts[n].key
    ensures Current(Step(w, e), key, n) && (TakenOut(w, n) ==> TakenOut(Step(w, e), n))
  {
    assert OwnerAgrees(w, n);
    if !e.Invalidate? && e.caller in w.callers { assert CallerAgrees(w, e.caller); }
  }

  lemma StepKeepsShared(w: World, e: Event, key: string)
    requires Sound(w) && Enabled(w, e) && !(e.Invalidate? && e.prefix <= key) && Shared(w, key)
    ensures Shared(Step(w, e), key)
  {
    var v := Step(w, e);
    forall n | 0 <= n < |w.attempts|
      ensures Current(v, key, n) && v.attempts[n].key == w.attempts[n].key && (TakenOut(w, n) ==> TakenOut(v, n))
    {
      StepKeepsCurrent(w, e, key, n);
    }
  }

  lemma {:induction false} RunsShare(w: World, events: seq<Event>, key: string)
    requires Sound(w) && Possible(w, events) && Uninvalidated(events, key) && Shared(w, key)
    ensures Shared(End(w, events), key)
    decreases events
  {
    if events != [] {
      StepKeepsSound(w, events[0]);
      StepKeepsShared(w, events[0], key);
      RunsShare(Step(w, events[0]), events[1..], key);
    }
  }

  /**
    In every run without a fitting Invalidate: of two attempts for a key the earlier has failed and was taken out
    before the later began, and while an attempt has not been taken out, whoever asks for its key waits for it.
   */
  lemma SingleFlight(events: seq<Event>, key: string, m: nat, n: nat, c: nat)
    requires Possible(FRESH, events) && Uninvalidated(events, key)
    ensures var w := End(FRESH, events);
            && (m < n < |w.attempts| && w.attempts[m].key == key && w.attempts[n].key == key ==> TakenOut(w, m))
            && (n < |w.attempts| && w.attempts[n].key == key && !TakenOut(w, n) && c !in w.callers ==>
                  Enabled(w, Acquire(c, key)) && Step(w, Acquire(c, key)) == w.(callers := w.callers[c := Waiting(n)]))
  {
    var w := End(FRESH, events);
    RunsShare(FRESH, events, key);
    if n < |w.attempts| { assert Current(w, key, n); }
  }

  /** A fitting Invalidate lets a second preparation start while the first goes on. */
  lemma InvalidateStartsAnother(w: World, key: string, prefix: string, c: nat)
    requires Sound(w) && key in w.cache && prefix <= key && c !in w.callers
    ensures Possible(w, [Invalidate(prefix), Acquire(c, key)])
    ensures var v, n := End(w, [Invalidate(prefix), Acquire(c, key)]), |w.attempts|;
            && |v.attempts| == n + 1 && c in v.callers && v.callers[c] == Preparing(n)
            && w.cache[key] < n && v.attempts[w.cache[key]].key == v.attempts[n].key == key
            && !TakenOut(v, w.cache[key]) && !TakenOut(v, n)
  {
    assert EntryAgrees(w, key);
    var u := Step(w, Invalidate(prefix));
    Chain(u, Acquire(c, key), []);
    Chain(w, Invalidate(prefix), [Acquire(c, key)]);
    assert [Invalidate(prefix)] + [Acquire(c, key)] == [Invalidate(prefix), Acquire(c, key)];
    assert [Acquire(c, key)] + [] == [Acquire(c, key)];
  }

  /** A caller that is waiting for, or has received, the outcome of attempt `n`. */
  predicate Attached(w: World, c: nat, n: nat) {
    c in w.callers && !w.callers[c].GaveUp? && w.callers[c].attempt == n
  }

  predicate TakenOut(w: World, n: nat) {
    n < |w.attempts| && w.attempts[n].removed && w.attempts[n].outcome.Some? && w.attempts[n].outcome.value.Failed?
  }

  lemma StepSparesNewcomers(w: World, e: Event, n: nat, c: nat)
    requires Sound(w) && Enabled(w, e) && TakenOut(w, n) && !Attached(w, c, n)
    ensures TakenOut(Step(w, e), n) && !Attached(Step(w, e), c, n)
  {
    assert OwnerAgrees(w, n);
    if e.Acquire? && e.key in w.cache { assert EntryAgrees(w, e.key); }
    if !e.Invalidate? && e.caller in w.callers { assert CallerAgrees(w, e.caller); }
  }

  /** Whoever was not yet attached when a failed attempt was taken out never sees its error. */
  lemma {:induction false} FailureIsNotShared(w: World, events: seq<Event>, n: nat, c: nat)
    requires Sound(w) && Possible(w, events) && TakenOut(w, n) && !Attached(w, c, n)
    ensures TakenOut(End(w, events), n) && !Attached(End(w, events), c, n)
    decreases events
  {
    if events != [] {
      StepKeepsSound(w, events[0]);
      StepSparesNewcomers(w, events[0], n, c);
      FailureIsNotShared(Step(w, events[0]), events[1..], n, c);
    }
  }

  /** When the owner of a failed attempt returns, the attempt is already out of the cache. */
  lemma FailureIsTakenOutFirst(w: World, n: nat)
    requires Sound(w) && n < |w.attempts| && w.attempts[n].signals > 0
    requires w.attempts[n].outcome.Some? && w.attempts[n].outcome.value.Failed?
    ensures TakenOut(w, n) && forall k :: k in w.cache ==> w.cache[k] != n
  {
    assert OwnerAgrees(w, n);
    forall k | k in w.cache ensures w.cache[k] != n { assert EntryAgrees(w, k); }
  }

  /** What was recorded stays recorded. */
  lemma {:induction false} OutcomesAreFinal(w: World, events: seq<Event>, n: nat)
    requires Sound(w) && Possible(w, events) && n < |w.attempts|
    ensures n < |End(w, events).attempts|
    ensures w.attempts[n].outcome.Some? ==> End(w, events).attempts[n].outcome == w.attempts[n].outcome
    decreases events
  {
    if events != [] {
      var e := events[0];
      StepKeepsSound(w, e);
      assert OwnerAgrees(w, n);
      if !e.Invalidate? && e.caller in w.callers { assert CallerAgrees(w, e.caller); }
      OutcomesAreFinal(Step(w, e), events[1..], n);
    }
  }

  /** A waiter that gives up gets nothing from then on, and takes nothing from anyone else. */
  lemma {:induction false} GaveUpForGood(w: World, events: seq<Event>, c: nat)
    requires Possible(w, events) && c in w.callers && w.callers[c].GaveUp?
    ensures c in End(w, events).callers && End(w, events).callers[c].GaveUp?
    decreases events
  {
    if events != [] { GaveUpForGood(Step(w, events[0]), events[1..], c); }
  }

  lemma GiveUpIsFinal(w: World, c: nat, events: seq<Event>)
    requires Enabled(w, GiveUp(c)) && Possible(Step(w, GiveUp(c)), events)
    ensures var v := End(Step(w, GiveUp(c)), events); c in v.callers && v.callers[c].GaveUp?
    ensures Step(w, GiveUp(c)).attempts == w.attempts && Step(w, GiveUp(c)).cache == w.cache
  {
    GaveUpForGood(Step(w, GiveUp(c)), events, c);
  }

  /** What its owner records is what everyone attached to an attempt gets, if anything, in every continuation. */
  lemma RecordedIsReturned(before: seq<Event>, c: nat, outcome: Outcome, after: seq<Event>, d: nat)
    requires Possible(FRESH, before) && Enabled(End(FRESH, before), Record(c, outcome))
    requires Possible(Step(End(FRESH, before), Record(c, outcome)), after)
    ensures var n, v := End(FRESH, before).callers[c].attempt, End(Step(End(FRESH, before), Record(c, outcome)), after);
            Attached(v, d, n) && v.callers[d].Got? ==> v.callers[d].outcome == outcome
  {
    var w := End(FRESH, before);
    var u, n := Step(w, Record(c, outcome)), w.callers[c].attempt;
    RunsAreSound(FRESH, before);
    StepKeepsSound(w, Record(c, outcome));
    OutcomesAreFinal(u, after, n);
    RunsAreSound(u, after);
    if d in End(u, after).callers { assert CallerAgrees(End(u, after), d); }
  }

  /** A prepared helper stays cached until it is invalidated. */
  lemma {:induction false} PreparedStaysCached(w: World, events: seq<Event>, key: string)
    requires Sound(w) && Possible(w, events) && key in w.cache
    requires var a := w.attempts[w.cache[key]]; a.outcome.Some? && a.outcome.value.Prepared?
    requires forall i :: 0 <= i < |events| && events[i].Invalidate? ==> !(events[i].prefix <= key)
    ensures key in End(w, events).cache && End(w, events).cache[key] == w.cache[key]
    decreases events
  {
    if events != [] {
      var e, n := events[0], w.cache[key];
      StepKeepsSound(w, e);
      assert EntryAgrees(w, key) && OwnerAgrees(w, n);
      if !e.Invalidate? && e.caller in w.callers { assert CallerAgrees(w, e.caller); }
      var v := Step(w, e);
      assert key in v.cache && v.cache[key] == n && v.attempts[n].outcome == w.attempts[n].outcome;
      PreparedStaysCached(v, events[1..], key);
    }
  }

  // -- every attempt comes to its signal --

  lemma Chain(w: World, e: Event, rest: seq<Event>)
    requires Enabled(w, e) && Possible(Step(w, e), rest)
    ensures Possible(w, [e] + rest) && End(w, [e] + rest) == End(Step(w, e), rest)
  {
    assert ([e] + rest)[1..] == rest;
  }

  /** The next step of the owner of an attempt; preparing may end with any outcome. */
  function OwnerStep(w: World, n: nat, outcome: Outcome): Event
    requires n < |w.attempts| && w.attempts[n].owner in w.callers
  {
    var c := w.attempts[n].owner;
    if w.callers[c].Preparing? then Record(c, outcome)
    else if !w.attempts[n].removed then Remove(c)
    else Signal(c)
  }

  /** How many steps its owner has to go until the signal. */
  function Ahead(w: World, n: nat): nat
    requires n < |w.attempts| && w.attempts[n].owner in w.callers
  {
    match w.callers[w.attempts[n].owner]
    case Preparing(_) => 3
    case Finishing(_) => if w.attempts[n].removed then 1 else 2
    case _ => 0
  }

  lemma OwnerAdvances(w: World, n: nat, outcome: Outcome)
    requires Sound(w) && n < |w.attempts| && w.attempts[n].signals == 0
    ensures w.attempts[n].owner in w.callers && Enabled(w, OwnerStep(w, n, outcome))
    ensures var v := Step(w, OwnerStep(w, n, outcome));
            && n < |v.attempts| && v.attempts[n].owner == w.attempts[n].owner && w.attempts[n].owner in v.callers
            && Ahead(v, n) == Ahead(w, n) - 1
            && (Ahead(v, n) == 0 ==> v.attempts[n].signals == 1)
            && forall c :: c in w.callers && w.callers[c] == Waiting(n) ==> c in v.callers && v.callers[c] == Waiting(n)
  {
    assert OwnerAgrees(w, n);
  }

  /**
    From every sound state the owner of an attempt can go on to signal it, whatever its preparation comes to, and
    then every waiter of that attempt can go on with the result. With at most one signal, each attempt that is let
    run to its end is signalled exactly once.
   */
  lemma {:induction false} OwnerCanSignal(w: World, n: nat, outcome: Outcome) returns (events: seq<Event>)
    requires Sound(w) && n < |w.attempts|
    ensures Possible(w, events)
    ensures var v := End(w, events);
            && n < |v.attempts| && v.attempts[n].signals == 1
            && forall c :: c in w.callers && w.callers[c] == Waiting(n) ==> Enabled(v, Wake(c))
    decreases if w.attempts[n].owner in w.callers then Ahead(w, n) else 0
  {
    assert OwnerAgrees(w, n);
    events := [];
    if w.attempts[n].signals == 0 {
      var e := OwnerStep(w, n, outcome);
      OwnerAdvances(w, n, outcome);
      StepKeepsSound(w, e);
      var rest := OwnerCanSignal(Step(w, e), n, outcome);
      Chain(w, e, rest);
      events := [e] + rest;
    }
  }
}
