/** Choosing one of several targets: what each strategy may choose and what a selection changes. */
module Selection {
  import opened Text

  datatype Candidate = Candidate(key: string, weight: int, createdAt: int)

  datatype Strategy = Random | RoundRobin | LeastConnections | Newest | Oldest

  /** A remembered target; `expiresAt == 0` is Go's zero time, which never expires. */
  datatype Affinity = Affinity(targetKey: string, expiresAt: int)

  datatype State = State(
    roundRobin: map<string, nat>,
    connections: map<string, int>,
    affinity: map<string, Affinity>)

  const EMPTY: State := State(map[], map[], map[])

  datatype Request = Request(
    accessKey: string,
    affinityKey: string,
    timeout: int,
    strategy: Strategy,
    candidates: seq<Candidate>,
    now: int)

  /** Go's reading of a missing map key as zero. */
  function Count(m: map<string, int>, key: string): int { if key in m then m[key] else 0 }

  function Turn(s: State, accessKey: string): nat {
    if accessKey in s.roundRobin then s.roundRobin[accessKey] else 0
  }

  predicate PositiveWeights(cs: seq<Candidate>) { forall i :: 0 <= i < |cs| ==> cs[i].weight > 0 }

  /** What the code relies on: some candidate, and weights of at least one. */
  predicate Wellformed(r: Request) { r.candidates != [] && PositiveWeights(r.candidates) }

  // ---- weighted choice ----

  function Total(cs: seq<Candidate>): (t: int)
    ensures PositiveWeights(cs) ==> t >= |cs|
  {
    if cs == [] then 0 else Total(cs[..|cs| - 1]) + cs[|cs| - 1].weight
  }

  /** The candidate on whose stretch of the weight line `w` falls. */
  function Weighted(cs: seq<Candidate>, w: int): (i: nat)
    requires PositiveWeights(cs) && 0 <= w < Total(cs)
    ensures i < |cs|
    ensures Total(cs[..i]) <= w < Total(cs[..i]) + cs[i].weight
  {
    if w >= Total(cs[..|cs| - 1]) then |cs| - 1
    else
      var i := Weighted(cs[..|cs| - 1], w);
      assert cs[..|cs| - 1][..i] == cs[..i];
      i
  }

  /** `n % t`, counted down by whole rounds. */
  function Residue(n: nat, t: nat): (r: nat)
    requires t > 0
    ensures r < t
    decreases n
  {
    if n < t then n else Residue(n - t, t)
  }

  lemma {:induction false} ResidueIsRemainder(n: nat, t: nat)
    requires t > 0
    ensures Residue(n, t) == n % t
    decreases n
  {
    if n >= t {
      ResidueIsRemainder(n - t, t);
      RemainderRepeats(n - t, t);
    } else {
      Remainder(n, t, 0, n);
    }
  }

  lemma RemainderRepeats(n: nat, t: nat)
    requires t > 0
    ensures (n + t) % t == n % t
  {
    Divided(n, t);
    assert (n / t + 1) * t == n / t * t + t;
    Remainder(n + t, t, n / t + 1, n % t);
  }

  lemma Divided(n: nat, t: nat)
    requires t > 0
    ensures n / t >= 0 && n == n / t * t + n % t && n % t < t
  {
  }

  lemma Remainder(x: nat, t: nat, q: nat, r: nat)
    requires t > 0 && r < t && x == q * t + r
    ensures x % t == r
  {
    var d := x / t - q;
    Divided(x, t);
    assert d * t == r - x % t;
    if d >= 1 { Scale(1, d, t); }
    if d <= -1 { Scale(d, -1, t); }
  }

  method TotalWeight(cs: seq<Candidate>) returns (total: int)
    ensures total == Total(cs)
  {
    total := 0;
    for i := 0 to |cs|
      invariant total == Total(cs[..i])
    {
      assert cs[..i + 1][..i] == cs[..i];
      total := total + cs[i].weight;
    }
    assert cs[..|cs|] == cs;
  }

  /** Stretches of the weight line do not overlap. */
  lemma {:induction false} PrefixTotals(cs: seq<Candidate>, i: nat, j: nat)
    requires PositiveWeights(cs) && i < j <= |cs|
    ensures Total(cs[..i]) + cs[i].weight <= Total(cs[..j])
    decreases j
  {
    assert cs[..j][..j - 1] == cs[..j - 1];
    if i < j - 1 { PrefixTotals(cs, i, j - 1); }
  }

  lemma WeightedIs(cs: seq<Candidate>, w: int, i: nat)
    requires PositiveWeights(cs) && i < |cs| && Total(cs[..i]) <= w < Total(cs[..i]) + cs[i].weight
    ensures 0 <= w < Total(cs) && Weighted(cs, w) == i
  {
    assert cs[..|cs|] == cs;
    PrefixTotals(cs, i, |cs|);
    var k := Weighted(cs, w);
    if k < i { PrefixTotals(cs, k, i); }
    if i < k { PrefixTotals(cs, i, k); }
  }

  /** `weightedCandidateIndex`: subtract weights until the remainder fits; beyond the line, the first candidate. */
  method WeightedIndex(cs: seq<Candidate>, weightIndex: nat) returns (index: nat)
    requires PositiveWeights(cs)
    ensures index == if weightIndex < Total(cs) then Weighted(cs, weightIndex) else 0
  {
    var rest: int := weightIndex;
    for i := 0 to |cs|
      invariant rest == weightIndex - Total(cs[..i]) >= 0
    {
      assert cs[..i + 1][..i] == cs[..i];
      if rest < cs[i].weight {
        WeightedIs(cs, weightIndex, i);
        return i;
      }
      rest := rest - cs[i].weight;
    }
    assert cs[..|cs|] == cs;
    return 0;
  }

  // ---- least connections ----

  function ConnectionKey(accessKey: string, targetKey: string): string { accessKey + "\0" + targetKey }

  function Load(s: State, accessKey: string, c: Candidate): int {
    Count(s.connections, ConnectionKey(accessKey, c.key))
  }

  /** Fewer connections per weight, or as many and a key that is not larger. */
  predicate NoWorse(la: int, a: Candidate, lb: int, b: Candidate) {
    la * b.weight < lb * a.weight || (la * b.weight == lb * a.weight && AtMost(a.key, b.key))
  }

  /** `la / a.weight <= lb / b.weight`, multiplied out. */
  predicate RatioAtMost(la: int, wa: int, lb: int, wb: int) { la * wb <= lb * wa }

  lemma RatioTransitive(la: int, wa: int, lb: int, wb: int, lc: int, wc: int)
    requires wa > 0 && wb > 0 && wc > 0
    requires RatioAtMost(la, wa, lb, wb) && RatioAtMost(lb, wb, lc, wc)
    ensures RatioAtMost(la, wa, lc, wc)
    ensures la * wb < lb * wa || lb * wc < lc * wb ==> la * wc < lc * wa
  {
    Scale(la * wb, lb * wa, wc);
    Scale(lb * wc, lc * wb, wa);
    Rearrange(la, wb, wc);
    Rearrange(lb, wa, wc);
    Rearrange(lc, wb, wa);
    Unscale(la * wc, lc * wa, wb);
  }

  lemma Rearrange(x: int, y: int, z: int)
    ensures x * y * z == x * z * y
  {
  }

  lemma Scale(x: int, y: int, k: int)
    requires x <= y && k > 0
    ensures x * k <= y * k
    ensures x < y ==> x * k < y * k
  {
  }

  lemma Unscale(x: int, y: int, k: int)
    requires k > 0
    ensures x * k <= y * k ==> x <= y
    ensures x * k < y * k ==> x < y
  {
    if x > y { Scale(y, x, k); }
    if x >= y { Scale(y, x, k); }
  }

  lemma NoWorseTransitive(la: int, a: Candidate, lb: int, b: Candidate, lc: int, c: Candidate)
    requires a.weight > 0 && b.weight > 0 && c.weight > 0
    requires NoWorse(la, a, lb, b) && NoWorse(lb, b, lc, c)
    ensures NoWorse(la, a, lc, c)
  {
    RatioTransitive(la, a.weight, lb, b.weight, lc, c.weight);
    if la * b.weight == lb * a.weight && lb * c.weight == lc * b.weight {
      AtMostTransitive(a.key, b.key, c.key);
    }
  }

  /** The smallest ratio of connections to weight and, among equals, the smallest key. */
  predicate LeastLoaded(s: State, accessKey: string, cs: seq<Candidate>, i: int) {
    0 <= i < |cs| &&
    forall j :: 0 <= j < |cs| ==> NoWorse(Load(s, accessKey, cs[i]), cs[i], Load(s, accessKey, cs[j]), cs[j])
  }

  lemma NoWorseReflexive(l: int, c: Candidate)
    ensures NoWorse(l, c, l, c)
  {
    AtMostTotal(c.key, c.key);
  }

  lemma NotBetter(la: int, a: Candidate, lb: int, b: Candidate)
    ensures la * b.weight < lb * a.weight || (la * b.weight == lb * a.weight && Less(a.key, b.key)) ||
            NoWorse(lb, b, la, a)
  {
    NotLess(a.key, b.key);
  }

  method LeastConnectionsIndex(s: State, accessKey: string, cs: seq<Candidate>) returns (best: nat)
    requires cs != [] && PositiveWeights(cs)
    ensures LeastLoaded(s, accessKey, cs, best)
  {
    best := 0;
    NoWorseReflexive(Load(s, accessKey, cs[0]), cs[0]);
    for i := 1 to |cs|
      invariant best < i
      invariant LeastLoaded(s, accessKey, cs[..i], best)
    {
      var challenger, champion := Load(s, accessKey, cs[i]), Load(s, accessKey, cs[best]);
      var left, right := challenger * cs[best].weight, champion * cs[i].weight;
      NotBetter(challenger, cs[i], champion, cs[best]);
      NoWorseReflexive(challenger, cs[i]);
      if left < right || (left == right && Less(cs[i].key, cs[best].key)) {
        forall j | 0 <= j < i
          ensures NoWorse(challenger, cs[i], Load(s, accessKey, cs[j]), cs[j])
        {
          assert cs[..i][j] == cs[j] && cs[..i][best] == cs[best];
          NoWorseTransitive(challenger, cs[i], champion, cs[best], Load(s, accessKey, cs[j]), cs[j]);
        }
        best := i;
      }
    }
    assert cs[..|cs|] == cs;
  }

  // ---- newest and oldest ----

  predicate OlderOrFirst(a: Candidate, b: Candidate) {
    a.createdAt < b.createdAt || (a.createdAt == b.createdAt && AtMost(a.key, b.key))
  }

  predicate NewerOrFirst(a: Candidate, b: Candidate) {
    a.createdAt > b.createdAt || (a.createdAt == b.createdAt && AtMost(a.key, b.key))
  }

  predicate IsOldest(cs: seq<Candidate>, i: int) {
    0 <= i < |cs| && forall j :: 0 <= j < |cs| ==> OlderOrFirst(cs[i], cs[j])
  }

  predicate IsNewest(cs: seq<Candidate>, i: int) {
    0 <= i < |cs| && forall j :: 0 <= j < |cs| ==> NewerOrFirst(cs[i], cs[j])
  }

  lemma AgeOrders(a: Candidate, b: Candidate, c: Candidate)
    ensures OlderOrFirst(a, a) && NewerOrFirst(a, a)
    ensures OlderOrFirst(a, b) && OlderOrFirst(b, c) ==> OlderOrFirst(a, c)
    ensures NewerOrFirst(a, b) && NewerOrFirst(b, c) ==> NewerOrFirst(a, c)
    ensures !(a.createdAt < b.createdAt || (a.createdAt == b.createdAt && Less(a.key, b.key))) ==> OlderOrFirst(b, a)
    ensures !(a.createdAt > b.createdAt || (a.createdAt == b.createdAt && Less(a.key, b.key))) ==> NewerOrFirst(b, a)
  {
    AtMostTotal(a.key, a.key);
    NotLess(a.key, b.key);
    if AtMost(a.key, b.key) && AtMost(b.key, c.key) { AtMostTransitive(a.key, b.key, c.key); }
  }

  method OldestIndex(cs: seq<Candidate>) returns (best: nat)
    requires cs != []
    ensures IsOldest(cs, best)
  {
    best := 0;
    AgeOrders(cs[0], cs[0], cs[0]);
    for i := 1 to |cs|
      invariant best < i && IsOldest(cs[..i], best)
    {
      forall j | 0 <= j < i
        ensures cs[..i][j] == cs[j]
      {}
      forall j | 0 <= j < i
        ensures OlderOrFirst(cs[i], cs[best]) && OlderOrFirst(cs[best], cs[j]) ==> OlderOrFirst(cs[i], cs[j])
      {
        AgeOrders(cs[i], cs[best], cs[j]);
      }
      AgeOrders(cs[i], cs[best], cs[best]);
      if cs[i].createdAt < cs[best].createdAt ||
         (cs[i].createdAt == cs[best].createdAt && Less(cs[i].key, cs[best].key)) {
        best := i;
      }
    }
    assert cs[..|cs|] == cs;
  }

  method NewestIndex(cs: seq<Candidate>) returns (best: nat)
    requires cs != []
    ensures IsNewest(cs, best)
  {
    best := 0;
    AgeOrders(cs[0], cs[0], cs[0]);
    for i := 1 to |cs|
      invariant best < i && IsNewest(cs[..i], best)
    {
      forall j | 0 <= j < i
        ensures cs[..i][j] == cs[j]
      {}
      forall j | 0 <= j < i
        ensures NewerOrFirst(cs[i], cs[best]) && NewerOrFirst(cs[best], cs[j]) ==> NewerOrFirst(cs[i], cs[j])
      {
        AgeOrders(cs[i], cs[best], cs[j]);
      }
      AgeOrders(cs[i], cs[best], cs[best]);
      if cs[i].createdAt > cs[best].createdAt ||
         (cs[i].createdAt == cs[best].createdAt && Less(cs[i].key, cs[best].key)) {
        best := i;
      }
    }
    assert cs[..|cs|] == cs;
  }

  // ---- one selection ----

  predicate Expired(e: Affinity, now: int) { e.expiresAt != 0 && now > e.expiresAt }

  predicate Offers(cs: seq<Candidate>, targetKey: string) { exists i :: 0 <= i < |cs| && cs[i].key == targetKey }

  /** A remembered target that is still valid for this request. */
  predicate Sticks(s: State, r: Request) {
    r.affinityKey != "" && r.affinityKey in s.affinity &&
    !Expired(s.affinity[r.affinityKey], r.now) && Offers(r.candidates, s.affinity[r.affinityKey].targetKey)
  }

  /** What the strategy allows, when no remembered target applies. */
  predicate Allowed(s: State, r: Request, i: int)
    requires Wellformed(r)
  {
    0 <= i < |r.candidates| &&
    match r.strategy
    case RoundRobin => i == Weighted(r.candidates, Residue(Turn(s, r.accessKey), Total(r.candidates)))
    case LeastConnections => LeastLoaded(s, r.accessKey, r.candidates, i)
    case Newest => IsNewest(r.candidates, i)
    case Oldest => IsOldest(r.candidates, i)
    case Random => true
  }

  /** The candidates a selection may return. */
  predicate Eligible(s: State, r: Request, i: int)
    requires Wellformed(r)
  {
    if Sticks(s, r) then 0 <= i < |r.candidates| && r.candidates[i].key == s.affinity[r.affinityKey].targetKey
    else Allowed(s, r, i)
  }

  /** What the strategy allows does not depend on remembered targets. */
  lemma AllowedIgnoresAffinity(s: State, t: State, r: Request, i: int)
    requires Wellformed(r) && s.connections == t.connections && s.roundRobin == t.roundRobin && Allowed(s, r, i)
    ensures Allowed(t, r, i)
  {
    if r.strategy.LeastConnections? {
      assert forall j :: 0 <= j < |r.candidates| ==>
          Load(s, r.accessKey, r.candidates[j]) == Load(t, r.accessKey, r.candidates[j]);
    }
  }

  function Track(s: State, accessKey: string, targetKey: string): State {
    var k := ConnectionKey(accessKey, targetKey);
    s.(connections := s.connections[k := Count(s.connections, k) + 1])
  }

  /** The counter advanced and the target remembered, for a choice of the strategy. */
  function Remembered(s: State, r: Request, i: int): State
    requires 0 <= i < |r.candidates|
  {
    var turned := if r.strategy.RoundRobin?
                  then s.(roundRobin := s.roundRobin[r.accessKey := Turn(s, r.accessKey) + 1]) else s;
    if r.affinityKey != ""
    then turned.(affinity := s.affinity[r.affinityKey := Affinity(r.candidates[i].key, r.now + r.timeout)])
    else turned
  }

  /** The state after candidate `i` was selected. */
  function Selected(s: State, r: Request, i: int): State
    requires 0 <= i < |r.candidates|
  {
    Track(if Sticks(s, r) then s else Remembered(s, r, i), r.accessKey, r.candidates[i].key)
  }

  /** The state once a target that no longer applies is forgotten. */
  function Forgotten(s: State, r: Request): State {
    if r.affinityKey == "" then s else s.(affinity := s.affinity - {r.affinityKey})
  }

  /** Forgetting first makes no difference to what is remembered and allowed. */
  lemma ForgottenIsRemembered(s: State, r: Request, i: int)
    requires Wellformed(r) && Allowed(Forgotten(s, r), r, i)
    ensures Allowed(s, r, i) && Remembered(Forgotten(s, r), r, i) == Remembered(s, r, i)
  {
    AllowedIgnoresAffinity(Forgotten(s, r), s, r, i);
    if r.affinityKey != "" {
      var entry := Affinity(r.candidates[i].key, r.now + r.timeout);
      assert (s.affinity - {r.affinityKey})[r.affinityKey := entry] == s.affinity[r.affinityKey := entry];
    }
  }

  /** A release of one connection counted under `k`. */
  function Untrack(s: State, k: string): State {
    if Count(s.connections, k) == 1 then s.(connections := s.connections - {k})
    else s.(connections := s.connections[k := Count(s.connections, k) - 1])
  }
}
