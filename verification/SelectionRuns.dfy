/** Whole runs of the selector: exact counts, fair turns, sticky targets. */
module SelectionRuns {
  import opened Text
  import opened Selection

  // ---- runs ----

  /** A handed-out release handle. */
  datatype Handle = Handle(key: string, released: bool)

  /** The selector together with every handle it has handed out. */
  datatype World = World(state: State, handles: seq<Handle>)

  datatype Event =
    | Select(request: Request, index: int)
    | Explicit(accessKey: string, targetKey: string)
    | Release(id: nat)

  predicate Enabled(w: World, e: Event) {
    match e
    case Select(r, i) => Wellformed(r) && Eligible(w.state, r, i)
    case Explicit(_, _) => true
    case Release(id) => id < |w.handles|
  }

  function Apply(w: World, e: Event): World
    requires Enabled(w, e)
  {
    match e
    case Select(r, i) =>
      World(Selected(w.state, r, i), w.handles + [Handle(ConnectionKey(r.accessKey, r.candidates[i].key), false)])
    case Explicit(a, t) =>
      World(Track(w.state, a, t), w.handles + [Handle(ConnectionKey(a, t), false)])
    case Release(id) =>
      var h := w.handles[id];
      if h.released then w else World(Untrack(w.state, h.key), w.handles[id := h.(released := true)])
  }

  /** The events can happen one after the other from `w`. */
  predicate Possible(w: World, events: seq<Event>)
    decreases events
  {
    events == [] || (Enabled(w, events[0]) && Possible(Apply(w, events[0]), events[1..]))
  }

  function End(w: World, events: seq<Event>): World
    requires Possible(w, events)
    decreases events
  {
    if events == [] then w else End(Apply(w, events[0]), events[1..])
  }

  const FRESH: World := World(EMPTY, [])

  // ---- counts are exact ----

  /** Selections of this key that have not been released. */
  function Open(handles: seq<Handle>, key: string): nat {
    if handles == [] then 0
    else Open(handles[..|handles| - 1], key) +
         (if handles[|handles| - 1] == Handle(key, false) then 1 else 0)
  }

  /** Every stored count is the number of open selections, and no zero is stored. */
  ghost predicate Exact(w: World) {
    forall key :: Exactly(w, key)
  }

  predicate Exactly(w: World, key: string) {
    Count(w.state.connections, key) == Open(w.handles, key) &&
    (key in w.state.connections ==> w.state.connections[key] > 0)
  }

  lemma OpenAppend(handles: seq<Handle>, h: Handle, key: string)
    ensures Open(handles + [h], key) == Open(handles, key) + (if h == Handle(key, false) then 1 else 0)
  {
    assert (handles + [h])[..|handles|] == handles;
  }

  lemma {:induction false} OpenReleased(handles: seq<Handle>, id: nat, key: string)
    requires id < |handles| && !handles[id].released
    ensures var after := handles[id := handles[id].(released := true)];
            Open(after, key) == Open(handles, key) - (if handles[id].key == key then 1 else 0)
  {
    var n, after := |handles| - 1, handles[id := handles[id].(released := true)];
    if id == n {
      assert after[..n] == handles[..n];
    } else {
      OpenReleased(handles[..n], id, key);
      assert after[..n] == handles[..n][id := handles[id].(released := true)];
    }
  }

  lemma TrackKeepsExact(w: World, s: State, accessKey: string, targetKey: string)
    requires Exact(w) && s.connections == w.state.connections
    ensures var handle := Handle(ConnectionKey(accessKey, targetKey), false);
            Exact(World(Track(s, accessKey, targetKey), w.handles + [handle]))
  {
    var h := Handle(ConnectionKey(accessKey, targetKey), false);
    var after := World(Track(s, accessKey, targetKey), w.handles + [h]);
    forall key ensures Exactly(after, key) {
      assert Exactly(w, key);
      OpenAppend(w.handles, h, key);
    }
  }

  lemma ReleaseKeepsExact(w: World, id: nat)
    requires Exact(w) && id < |w.handles|
    ensures Exact(Apply(w, Release(id)))
  {
    var h, after := w.handles[id], Apply(w, Release(id));
    if !h.released {
      forall key ensures Exactly(after, key) {
        assert Exactly(w, key);
        OpenReleased(w.handles, id, key);
      }
    }
  }

  lemma StepKeepsExact(w: World, e: Event)
    requires Exact(w) && Enabled(w, e)
    ensures Exact(Apply(w, e))
  {
    match e
    case Select(r, i) =>
      var s := if Sticks(w.state, r) then w.state else Selected(w.state, r, i).(connections := w.state.connections);
      TrackKeepsExact(w, s, r.accessKey, r.candidates[i].key);
      assert Selected(w.state, r, i) == Track(s, r.accessKey, r.candidates[i].key);
    case Explicit(a, t) => TrackKeepsExact(w, w.state, a, t);
    case Release(id) => ReleaseKeepsExact(w, id);
  }

  /** In every run, with releases in any order and repeated, the counts stay exact. */
  lemma {:induction false} CountsAreExact(w: World, events: seq<Event>)
    requires Exact(w) && Possible(w, events)
    ensures Exact(End(w, events))
    decreases events
  {
    if events != [] {
      StepKeepsExact(w, events[0]);
      CountsAreExact(Apply(w, events[0]), events[1..]);
    }
  }

  lemma CountsFromStart(events: seq<Event>)
    requires Possible(FRESH, events)
    ensures Exact(End(FRESH, events))
  {
    assert Exact(FRESH);
    CountsAreExact(FRESH, events);
  }

  /** A connection to a named target is counted like any other, at any time. */
  lemma NamedIsCounted(w: World, accessKey: string, targetKey: string, key: string)
    requires Exact(w)
    ensures Enabled(w, Explicit(accessKey, targetKey))
    ensures var v := Apply(w, Explicit(accessKey, targetKey));
            && Open(v.handles, key) == Open(w.handles, key) + (if key == accessKey + "\0" + targetKey then 1 else 0)
            && Count(v.state.connections, key) == Open(v.handles, key)
  {
    var v := Apply(w, Explicit(accessKey, targetKey));
    OpenAppend(w.handles, Handle(ConnectionKey(accessKey, targetKey), false), key);
    StepKeepsExact(w, Explicit(accessKey, targetKey));
    assert Exactly(v, key);
  }

  /** The first release of a handle closes one connection of its key, and a second changes nothing. */
  lemma ReleaseClosesOne(w: World, id: nat, key: string)
    requires Exact(w) && id < |w.handles|
    ensures var v, h := Apply(w, Release(id)), w.handles[id];
            && |v.handles| == |w.handles| && v.handles[id].released
            && Open(v.handles, key) == Open(w.handles, key) - (if !h.released && h.key == key then 1 else 0)
            && Count(v.state.connections, key) == Open(v.handles, key)
            && Apply(v, Release(id)) == v
  {
    if !w.handles[id].released { OpenReleased(w.handles, id, key); }
    ReleaseKeepsExact(w, id);
    assert Exactly(Apply(w, Release(id)), key);
  }

  /** A selection released at once leaves the counts as they were. */
  lemma ReleaseUndoesTrack(s: State, accessKey: string, targetKey: string)
    requires forall k :: k in s.connections ==> s.connections[k] > 0
    ensures Untrack(Track(s, accessKey, targetKey), ConnectionKey(accessKey, targetKey)) == s
  {
    var k := ConnectionKey(accessKey, targetKey);
    var tracked := Track(s, accessKey, targetKey).connections;
    if k in s.connections {
      assert tracked[k := tracked[k] - 1] == s.connections;
    } else {
      assert tracked - {k} == s.connections;
    }
  }

  // ---- keys of different accesses never meet ----

  lemma ConnectionKeysDiffer(a: string, t: string, b: string, u: string)
    requires '\0' !in a && '\0' !in b && ConnectionKey(a, t) == ConnectionKey(b, u)
    ensures a == b && t == u
  {
    CutOf(a, '\0', t);
    CutOf(b, '\0', u);
  }

  // ---- weighted round robin is fair ----

  /** The candidate whose turn it is when the counter stands at `n`. */
  function Pick(cs: seq<Candidate>, n: nat): (i: nat)
    requires cs != [] && PositiveWeights(cs)
  {
    Weighted(cs, Residue(n, Total(cs)))
  }

  /** How often `i` comes up among the turns from `from` on, before `until`. */
  function Hits(pick: nat -> nat, i: nat, from: nat, until: nat): nat
    requires from <= until
    decreases until - from
  {
    if from == until then 0 else Hits(pick, i, from, until - 1) + (if pick(until - 1) == i then 1 else 0)
  }

  lemma {:induction false} HitsFirst(pick: nat -> nat, i: nat, from: nat, until: nat)
    requires from < until
    ensures Hits(pick, i, from, until) == Hits(pick, i, from + 1, until) + (if pick(from) == i then 1 else 0)
    decreases until - from
  {
    if from + 1 < until { HitsFirst(pick, i, from, until - 1); }
  }

  lemma {:induction false} HitsSplit(pick: nat -> nat, i: nat, from: nat, mid: nat, until: nat)
    requires from <= mid <= until
    ensures Hits(pick, i, from, until) == Hits(pick, i, from, mid) + Hits(pick, i, mid, until)
    decreases until
  {
    if mid < until { HitsSplit(pick, i, from, mid, until - 1); }
  }

  /** A window of one full period has the same hits wherever it starts. */
  lemma {:induction false} WindowShifts(pick: nat -> nat, period: nat, i: nat, from: nat)
    requires period > 0 && forall n: nat :: pick(n + period) == pick(n)
    ensures Hits(pick, i, from, from + period) == Hits(pick, i, 0, period)
    decreases from
  {
    if from > 0 {
      var start: nat := from - 1;
      WindowShifts(pick, period, i, start);
      HitsFirst(pick, i, start, start + period);
      assert pick(start + period) == pick(start);
    }
  }

  /** `k` windows have `k` times the hits of one. */
  lemma {:induction false} WindowsAdd(pick: nat -> nat, period: nat, i: nat, from: nat, k: nat, until: nat)
    requires period > 0 && forall n: nat :: pick(n + period) == pick(n)
    requires until == from + k * period
    ensures Hits(pick, i, from, until) == k * Hits(pick, i, 0, period)
    decreases k
  {
    if k > 0 {
      OneMore(k, period);
      OneMore(k, Hits(pick, i, 0, period));
      var mid: nat := until - period;
      WindowsAdd(pick, period, i, from, k - 1, mid);
      HitsSplit(pick, i, from, mid, until);
      WindowShifts(pick, period, i, mid);
    }
  }

  lemma OneMore(k: nat, x: nat)
    requires k > 0
    ensures k * x == (k - 1) * x + x
    ensures (k - 1) * x >= 0
  {
  }

  /** Turns repeat after one round. */
  lemma PickRepeats(cs: seq<Candidate>, n: nat)
    requires cs != [] && PositiveWeights(cs)
    ensures Pick(cs, n + Total(cs)) == Pick(cs, n)
  {
  }

  lemma PickInRound(cs: seq<Candidate>, i: nat, w: nat)
    requires PositiveWeights(cs) && i < |cs| && w < Total(cs)
    ensures Pick(cs, w) == i <==> Total(cs[..i]) <= w < Total(cs[..i]) + cs[i].weight
  {
    if Total(cs[..i]) <= w < Total(cs[..i]) + cs[i].weight { WeightedIs(cs, w, i); }
  }

  /** Within one round, candidate `i` is hit exactly on its stretch of the weight line. */
  lemma {:induction false} HitsInRound(pick: nat -> nat, i: nat, start: nat, weight: nat, until: nat)
    requires forall w: nat :: w < until ==> (pick(w) == i <==> start <= w < start + weight)
    ensures Hits(pick, i, 0, until) ==
              if until <= start then 0 else if until <= start + weight then until - start else weight
    decreases until
  {
    if until > 0 { HitsInRound(pick, i, start, weight, until - 1); }
  }

  /** One round of turns from the start gives every candidate its weight. */
  lemma FirstRound(cs: seq<Candidate>, pick: nat -> nat, i: nat)
    requires PositiveWeights(cs) && i < |cs| && forall n: nat :: pick(n) == Pick(cs, n)
    ensures Hits(pick, i, 0, Total(cs)) == cs[i].weight
  {
    assert cs[..|cs|] == cs;
    PrefixTotals(cs, i, |cs|);
    forall w: nat | w < Total(cs)
      ensures pick(w) == i <==> Total(cs[..i]) <= w < Total(cs[..i]) + cs[i].weight
    {
      PickInRound(cs, i, w);
    }
    PrefixIsPositive(cs, i);
    HitsInRound(pick, i, Total(cs[..i]), cs[i].weight, Total(cs));
  }

  lemma PrefixIsPositive(cs: seq<Candidate>, i: nat)
    requires PositiveWeights(cs) && i <= |cs|
    ensures Total(cs[..i]) >= 0
  {
    assert PositiveWeights(cs[..i]);
  }

  /** From any counter value, `k` rounds of turns give every candidate `k` times its weight. */
  lemma FairRounds(cs: seq<Candidate>, pick: nat -> nat, i: nat, from: nat, k: nat, until: nat)
    requires PositiveWeights(cs) && i < |cs| && forall n: nat :: pick(n) == Pick(cs, n)
    requires until == from + k * Total(cs)
    ensures Hits(pick, i, from, until) == k * cs[i].weight
  {
    forall n: nat ensures pick(n + Total(cs)) == pick(n) { PickRepeats(cs, n); }
    FirstRound(cs, pick, i);
    WindowsAdd(pick, Total(cs), i, from, k, until);
  }

  // -- and on runs, whatever else happens in between --

  /** A round-robin selection for this access that is not decided by affinity. */
  predicate TakesTurn(w: World, e: Event, accessKey: string)
    requires Enabled(w, e)
  {
    e.Select? && e.request.accessKey == accessKey && e.request.strategy.RoundRobin? && !Sticks(w.state, e.request)
  }

  /** The candidates that the turns taken in a run went to, in order. */
  function Picks(w: World, events: seq<Event>, accessKey: string): seq<int>
    requires Possible(w, events)
    decreases events
  {
    if events == [] then []
    else
      var later := Picks(Apply(w, events[0]), events[1..], accessKey);
      if TakesTurn(w, events[0], accessKey) then [events[0].index] + later else later
  }

  /** Every turn taken for this access sees the same candidates. */
  predicate SameCandidates(w: World, events: seq<Event>, accessKey: string, cs: seq<Candidate>)
    requires Possible(w, events)
    decreases events
  {
    events == [] ||
    ((TakesTurn(w, events[0], accessKey) ==> events[0].request.candidates == cs) &&
     SameCandidates(Apply(w, events[0]), events[1..], accessKey, cs))
  }

  lemma TurnAdvances(w: World, e: Event, accessKey: string)
    requires Enabled(w, e)
    ensures Turn(Apply(w, e).state, accessKey) ==
              Turn(w.state, accessKey) + (if TakesTurn(w, e, accessKey) then 1 else 0)
    ensures TakesTurn(w, e, accessKey) ==> e.index == Pick(e.request.candidates, Turn(w.state, accessKey))
  {
  }

  /** The list follows the turns from the counter value on. */
  predicate Follows(picks: seq<int>, pick: nat -> nat, from: nat) {
    forall j :: 0 <= j < |picks| ==> picks[j] == pick(from + j)
  }

  lemma FollowsCons(first: int, later: seq<int>, pick: nat -> nat, from: nat)
    requires first == pick(from) && Follows(later, pick, from + 1)
    ensures Follows([first] + later, pick, from)
  {
    forall j | 0 <= j < |later| + 1 ensures ([first] + later)[j] == pick(from + j) {
      if j > 0 { assert later[j - 1] == pick(from + 1 + (j - 1)); }
    }
  }

  lemma PicksFollowStep(w: World, events: seq<Event>, accessKey: string, pick: nat -> nat)
    requires Possible(w, events) && events != []
    requires TakesTurn(w, events[0], accessKey) ==> events[0].index == pick(Turn(w.state, accessKey))
    requires var next := Apply(w, events[0]);
             Follows(Picks(next, events[1..], accessKey), pick, Turn(next.state, accessKey))
    ensures Follows(Picks(w, events, accessKey), pick, Turn(w.state, accessKey))
  {
    TurnAdvances(w, events[0], accessKey);
    if TakesTurn(w, events[0], accessKey) {
      var later := Picks(Apply(w, events[0]), events[1..], accessKey);
      FollowsCons(events[0].index, later, pick, Turn(w.state, accessKey));
    }
  }

  lemma {:induction false} PicksFollowTurns(w: World, events: seq<Event>, accessKey: string, cs: seq<Candidate>,
                                            pick: nat -> nat)
    requires cs != [] && PositiveWeights(cs) && forall n: nat :: pick(n) == Pick(cs, n)
    requires Possible(w, events) && SameCandidates(w, events, accessKey, cs)
    ensures Follows(Picks(w, events, accessKey), pick, Turn(w.state, accessKey))
    decreases events
  {
    if events != [] {
      PicksFollowTurns(Apply(w, events[0]), events[1..], accessKey, cs, pick);
      TurnAdvances(w, events[0], accessKey);
      PicksFollowStep(w, events, accessKey, pick);
    }
  }

  lemma {:induction false} FollowingHits(picks: seq<int>, pick: nat -> nat, from: nat, i: nat)
    requires Follows(picks, pick, from)
    ensures multiset(picks)[i] == Hits(pick, i, from, from + |picks|)
    decreases picks
  {
    if picks != [] {
      var n := |picks| - 1;
      FollowingHits(picks[..n], pick, from, i);
      assert picks == picks[..n] + [picks[n]];
    }
  }

  /**
    From any state, in any run that takes `k` full rounds of turns for an access on the same candidates,
    candidate `i` is chosen exactly `k` times its weight, whatever else happens in between.
   */
  lemma RoundRobinIsFair(w: World, events: seq<Event>, accessKey: string, cs: seq<Candidate>, i: nat, k: nat)
    requires PositiveWeights(cs) && i < |cs| && Possible(w, events) && SameCandidates(w, events, accessKey, cs)
    requires |Picks(w, events, accessKey)| == k * Total(cs)
    ensures multiset(Picks(w, events, accessKey))[i] == k * cs[i].weight
  {
    var from, pick := Turn(w.state, accessKey), (n: nat) => Pick(cs, n);
    var picks := Picks(w, events, accessKey);
    PicksFollowTurns(w, events, accessKey, cs, pick);
    FollowingHits(picks, pick, from, i);
    FairRounds(cs, pick, i, from, k, from + |picks|);
  }

  /** A new selector starts every access with the first turn. */
  lemma TurnsFromStart(events: seq<Event>, accessKey: string, cs: seq<Candidate>, n: nat)
    requires PositiveWeights(cs) && cs != [] && Possible(FRESH, events) && SameCandidates(FRESH, events, accessKey, cs)
    requires n < |Picks(FRESH, events, accessKey)|
    ensures Picks(FRESH, events, accessKey)[n] == Pick(cs, n)
  {
    var pick := (n: nat) => Pick(cs, n);
    PicksFollowTurns(FRESH, events, accessKey, cs, pick);
  }

  // ---- sticky targets ----

  /** The entry has no expiry or it is not past, and its target is among the candidates. */
  predicate StillGood(entry: Affinity, r: Request) {
    (entry.expiresAt == 0 || r.now <= entry.expiresAt) &&
    exists i :: 0 <= i < |r.candidates| && r.candidates[i].key == entry.targetKey
  }

  /** Every selection under this key comes before the expiry and still offers the target. */
  predicate KeepsOffering(events: seq<Event>, key: string, entry: Affinity) {
    forall k :: 0 <= k < |events| && events[k].Select? && events[k].request.affinityKey == key ==>
      StillGood(entry, events[k].request)
  }

  /** Every selection under this key returned the target. */
  predicate AlwaysReturns(events: seq<Event>, key: string, targetKey: string) {
    forall k :: 0 <= k < |events| && events[k].Select? && events[k].request.affinityKey == key ==>
      var r := events[k].request;
      0 <= events[k].index < |r.candidates| && r.candidates[events[k].index].key == targetKey
  }

  /** A remembered target is returned until it expires or is no longer offered, whatever happens in between. */
  lemma {:induction false} StaysWithTarget(w: World, events: seq<Event>, key: string, entry: Affinity)
    requires Possible(w, events) && key != "" && key in w.state.affinity && w.state.affinity[key] == entry
    requires KeepsOffering(events, key, entry)
    ensures AlwaysReturns(events, key, entry.targetKey)
    ensures key in End(w, events).state.affinity && End(w, events).state.affinity[key] == entry
    decreases events
  {
    if events != [] {
      var next := Apply(w, events[0]);
      assert key in next.state.affinity && next.state.affinity[key] == entry;
      forall k | 0 <= k < |events[1..]| && events[1..][k].Select? && events[1..][k].request.affinityKey == key
        ensures StillGood(entry, events[1..][k].request)
      {
        assert events[1..][k] == events[k + 1];
      }
      StaysWithTarget(next, events[1..], key, entry);
      forall k | 0 < k < |events| && events[k].Select? && events[k].request.affinityKey == key
        ensures var r := events[k].request;
                0 <= events[k].index < |r.candidates| && r.candidates[events[k].index].key == entry.targetKey
      {
        assert events[1..][k - 1] == events[k];
      }
    }
  }

  /** There is no entry for the key, it is past its expiry, or its target is no candidate. */
  predicate NothingGood(s: State, r: Request) {
    || r.affinityKey !in s.affinity
    || (s.affinity[r.affinityKey].expiresAt != 0 && r.now > s.affinity[r.affinityKey].expiresAt)
    || (forall i :: 0 <= i < |r.candidates| ==> r.candidates[i].key != s.affinity[r.affinityKey].targetKey)
  }

  /**
    A selection whose remembered target has expired, has vanished or never was makes a choice that the strategy
    allows and remembers it until its timeout, and every later selection under the key returns that choice until
    it expires or is no longer offered.
   */
  lemma ReplacesTarget(w: World, r: Request, i: int, events: seq<Event>)
    requires Enabled(w, Select(r, i)) && r.affinityKey != "" && NothingGood(w.state, r)
    requires Possible(Apply(w, Select(r, i)), events)
    ensures Allowed(w.state, r, i)
    ensures var entry, after := Affinity(r.candidates[i].key, r.now + r.timeout), Apply(w, Select(r, i)).state;
            && r.affinityKey in after.affinity && after.affinity[r.affinityKey] == entry
            && (KeepsOffering(events, r.affinityKey, entry) ==>
                  AlwaysReturns(events, r.affinityKey, r.candidates[i].key))
  {
    var entry := Affinity(r.candidates[i].key, r.now + r.timeout);
    if KeepsOffering(events, r.affinityKey, entry) {
      StaysWithTarget(Apply(w, Select(r, i)), events, r.affinityKey, entry);
    }
  }

  // ---- what the counts mean for a choice ----

  /** How many connections an access has open to a target. */
  function OpenTo(handles: seq<Handle>, accessKey: string, targetKey: string): nat {
    Open(handles, accessKey + "\0" + targetKey)
  }

  /**
    In every run, a choice by least connections has, for its weight, no more open connections than any other
    candidate, counted by the handles that were handed out and not released; and among equals the least key.
   */
  lemma LeastIsByOpenHandles(events: seq<Event>, r: Request, i: int, j: int)
    requires Possible(FRESH, events) && Wellformed(r) && r.strategy.LeastConnections?
    requires 0 <= i < |r.candidates| && 0 <= j < |r.candidates| && Allowed(End(FRESH, events).state, r, i)
    ensures var a, b, handles := r.candidates[i], r.candidates[j], End(FRESH, events).handles;
            var mine, other := OpenTo(handles, r.accessKey, a.key), OpenTo(handles, r.accessKey, b.key);
            mine * b.weight < other * a.weight || (mine * b.weight == other * a.weight && AtMost(a.key, b.key))
  {
    var w := End(FRESH, events);
    CountsFromStart(events);
    assert Exactly(w, ConnectionKey(r.accessKey, r.candidates[i].key));
    assert Exactly(w, ConnectionKey(r.accessKey, r.candidates[j].key));
  }
}
