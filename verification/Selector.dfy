/** The selector object: the methods behind its lock, and the release handle of a selection. */
module Selector {
  import opened Selection

  class StrategySelector {
    var roundRobin: map<string, nat>
    var connections: map<string, int>
    var affinity: map<string, Affinity>

    constructor ()
      ensures Value() == EMPTY
    {
      roundRobin, connections, affinity := map[], map[], map[];
    }

    function Value(): State
      reads this
    {
      State(roundRobin, connections, affinity)
    }

    /** Look up a remembered target, forgetting it when it has expired or is no longer offered. */
    method AffinityIndex(r: Request) returns (index: nat, found: bool)
      modifies this`affinity
      ensures found == Sticks(old(Value()), r)
      ensures found ==> Value() == old(Value()) && index < |r.candidates| &&
                        r.candidates[index].key == affinity[r.affinityKey].targetKey
      ensures !found && r.affinityKey == "" ==> Value() == old(Value())
      ensures !found && r.affinityKey != "" ==>
                Value() == old(Value()).(affinity := old(affinity) - {r.affinityKey})
    {
      if r.affinityKey == "" { return 0, false; }
      if r.affinityKey !in affinity {
        assert affinity - {r.affinityKey} == affinity;
        return 0, false;
      }
      var entry := affinity[r.affinityKey];
      if Expired(entry, r.now) {
        affinity := affinity - {r.affinityKey};
        return 0, false;
      }
      for i := 0 to |r.candidates|
        invariant affinity == old(affinity)
        invariant forall j :: 0 <= j < i ==> r.candidates[j].key != entry.targetKey
      {
        if r.candidates[i].key == entry.targetKey { return i, true; }
      }
      affinity := affinity - {r.affinityKey};
      return 0, false;
    }

    method RoundRobinIndex(key: string, cs: seq<Candidate>) returns (index: nat)
      requires cs != [] && PositiveWeights(cs)
      modifies this`roundRobin
      ensures index < |cs| && index == Weighted(cs, Residue(old(Turn(Value(), key)), Total(cs)))
      ensures roundRobin == old(roundRobin)[key := old(Turn(Value(), key)) + 1]
    {
      var total := TotalWeight(cs);
      var turn := if key in roundRobin then roundRobin[key] else 0;
      ResidueIsRemainder(turn, total);
      index := WeightedIndex(cs, turn % total);
      roundRobin := roundRobin[key := turn + 1];
    }

    /** The switch over the strategies; `random` is the outcome of the random draw. */
    method StrategyIndex(r: Request, random: nat) returns (index: nat)
      requires Wellformed(r)
      modifies this`roundRobin
      ensures Allowed(old(Value()), r, index)
      ensures roundRobin == if r.strategy.RoundRobin?
                            then old(roundRobin)[r.accessKey := old(Turn(Value(), r.accessKey)) + 1]
                            else old(roundRobin)
    {
      match r.strategy {
        case RoundRobin => index := RoundRobinIndex(r.accessKey, r.candidates);
        case LeastConnections => index := LeastConnectionsIndex(Value(), r.accessKey, r.candidates);
        case Newest => index := NewestIndex(r.candidates);
        case Oldest => index := OldestIndex(r.candidates);
        case Random =>
          var total := TotalWeight(r.candidates);
          index := WeightedIndex(r.candidates, random % total);
      }
    }

    /** Count one more connection and hand out its release handle. */
    method TrackTarget(accessKey: string, targetKey: string) returns (lease: Lease)
      modifies this`connections
      ensures Value() == Track(old(Value()), accessKey, targetKey)
      ensures fresh(lease) && !lease.released && lease.selector == this
      ensures lease.key == ConnectionKey(accessKey, targetKey)
    {
      var key := ConnectionKey(accessKey, targetKey);
      connections := connections[key := Count(connections, key) + 1];
      lease := new Lease(this, key);
    }

    method SelectTarget(r: Request, random: nat) returns (index: nat, lease: Lease)
      requires Wellformed(r)
      modifies this
      ensures index < |r.candidates| && Eligible(old(Value()), r, index)
      ensures Value() == Selected(old(Value()), r, index)
      ensures fresh(lease) && !lease.released && lease.selector == this
      ensures lease.key == ConnectionKey(r.accessKey, r.candidates[index].key)
    {
      ghost var before := Value();
      var found;
      index, found := AffinityIndex(r);
      if !found {
        index := Choose(r, random);
        ForgottenIsRemembered(before, r, index);
      }
      lease := TrackTarget(r.accessKey, r.candidates[index].key);
    }

    /** The strategy's choice, remembered when the request has an affinity key. */
    method Choose(r: Request, random: nat) returns (index: nat)
      requires Wellformed(r)
      modifies this`roundRobin, this`affinity
      ensures Allowed(old(Value()), r, index) && Value() == Remembered(old(Value()), r, index)
    {
      index := StrategyIndex(r, random);
      if r.affinityKey != "" {
        affinity := affinity[r.affinityKey := Affinity(r.candidates[index].key, r.now + r.timeout)];
      }
    }
  }

  /** The release function of one selection, with its `sync.Once`. */
  class Lease {
    const selector: StrategySelector
    const key: string
    var released: bool

    constructor (selector: StrategySelector, key: string)
      ensures this.selector == selector && this.key == key && !released
    {
      this.selector, this.key, released := selector, key, false;
    }

    /** Only the first call has an effect. */
    method Release()
      modifies this, selector`connections
      ensures released
      ensures selector.Value() == if old(released) then old(selector.Value()) else Untrack(old(selector.Value()), key)
    {
      if released { return; }
      released := true;
      if Count(selector.connections, key) == 1 {
        selector.connections := selector.connections - {key};
        return;
      }
      selector.connections := selector.connections[key := Count(selector.connections, key) - 1];
    }
  }
}
