/** Access objects: the targets they offer, their keys, and their container rules. */
module Accesses {
  import opened Text
  import opened Wrappers
  import opened Credentials
  import opened Pods
  import opened Selection
  import opened Sorting
  import Wildcard

  datatype Kind = PodAccess | External | Unsupported

  datatype Endpoint = Endpoint(name: string, weight: Option<int>)

  datatype PodWeight = PodWeight(selector: map<string, string>, weight: int)

  datatype SessionAffinity = SessionAffinity(kind: string, timeoutSeconds: Option<int>)

  datatype StrategySpec = StrategySpec(
    strategy: Strategy, weights: seq<PodWeight>, sessionAffinity: Option<SessionAffinity>)

  datatype Access = Access(
    namespace_: string, name: string, kind: Kind,
    containers: seq<string>, credentials: seq<Credential>,
    endpoints: seq<Endpoint>, strategy: Option<StrategySpec>)

  /** A login: the SSH username, what is known of its sender, and what authentication added. */
  datatype Login = Login(sshUser: string, userName: string, sourceIP: string, extra: map<string, seq<string>>)

  const ACCESS_NAMESPACE := "kube-ssh/access.namespace"
  const ACCESS_NAME := "kube-ssh/access.name"
  const CREDENTIAL_USER := "kube-ssh/access.credential.username"

  function Extra(l: Login, key: string): string {
    if key in l.extra && l.extra[key] != [] then l.extra[key][0] else ""
  }

  // ---- container rules ----

  /** An empty list allows every container, otherwise some pattern must match. */
  ghost predicate Allows(allow: seq<string>, container: string) {
    allow == [] || exists p :: p in allow && Wildcard.Matches(p, container)
  }

  method ContainerAllowed(allow: seq<string>, container: string) returns (ok: bool)
    ensures ok <==> Allows(allow, container)
  {
    if |allow| == 0 { return true; }
    ok := Wildcard.MatchAny(allow, container);
  }

  /** The first credential of that name. */
  function CredentialOf(cs: seq<Credential>, username: string): (r: Option<Credential>)
    ensures r.Some? ==> r.value in cs && r.value.username == username
    ensures r.None? ==> forall c :: c in cs ==> c.username != username
  {
    if cs == [] then None
    else
      assert cs == [cs[0]] + cs[1..];
      if cs[0].username == username then Some(cs[0]) else CredentialOf(cs[1..], username)
  }

  method FindCredential(cs: seq<Credential>, username: string) returns (r: Option<Credential>)
    ensures r == CredentialOf(cs, username)
  {
    for i := 0 to |cs|
      invariant CredentialOf(cs, username) == CredentialOf(cs[i..], username)
    {
      assert cs[i..][1..] == cs[i + 1..];
      if cs[i].username == username { return Some(cs[i]); }
    }
    return None;
  }

  // ---- the candidates of a selection ----

  function AccessKey(namespace_: string, name: string): string { namespace_ + "/" + name }

  function PodTargetKey(namespace_: string, p: Pod): string {
    (if p.namespace_ != "" then p.namespace_ else namespace_) + "/" + p.name
  }

  /** The Pods are the same one: a Pod without a namespace is in that of the Access. */
  predicate SamePod(namespace_: string, p: Pod, q: Pod) {
    p.name == q.name &&
    (|| p.namespace_ == q.namespace_
     || (p.namespace_ == "" && q.namespace_ == namespace_)
     || (q.namespace_ == "" && p.namespace_ == namespace_))
  }

  /** Pods are told apart by their keys. */
  lemma PodKeysDiffer(namespace_: string, p: Pod, q: Pod)
    requires '/' !in namespace_ && '/' !in p.namespace_ && '/' !in q.namespace_
    ensures PodTargetKey(namespace_, p) == PodTargetKey(namespace_, q) <==> SamePod(namespace_, p, q)
  {
    var m := if p.namespace_ != "" then p.namespace_ else namespace_;
    var n := if q.namespace_ != "" then q.namespace_ else namespace_;
    if PodTargetKey(namespace_, p) == PodTargetKey(namespace_, q) {
      CutOf(m, '/', p.name);
      CutOf(n, '/', q.name);
    }
  }

  predicate SelectorMatches(selector: map<string, string>, labels: map<string, string>) {
    forall k :: k in selector ==> k in labels && labels[k] == selector[k]
  }

  /** The weight of the first matching entry; never less than one. */
  function WeightOf(weights: seq<PodWeight>, labels: map<string, string>): (w: int)
    ensures w >= 1
  {
    if weights == [] then 1
    else if SelectorMatches(weights[0].selector, labels) then (if weights[0].weight > 0 then weights[0].weight else 1)
    else WeightOf(weights[1..], labels)
  }

  /** Some label that the selector wants is missing or different. */
  predicate Lacks(labels: map<string, string>, selector: map<string, string>) {
    exists key :: key in selector && (key !in labels || labels[key] != selector[key])
  }

  /** A Pod's weight is that of the first entry whose labels it has, if positive, and one otherwise. */
  lemma {:induction false} FirstMatchDecides(weights: seq<PodWeight>, labels: map<string, string>, k: nat)
    requires k <= |weights|
    requires forall i :: 0 <= i < k ==> Lacks(labels, weights[i].selector)
    requires k < |weights| ==>
               forall key :: key in weights[k].selector ==> key in labels && labels[key] == weights[k].selector[key]
    ensures WeightOf(weights, labels) ==
            if k < |weights| && weights[k].weight > 0 then weights[k].weight else 1
    decreases k
  {
    if k > 0 {
      assert !SelectorMatches(weights[0].selector, labels);
      FirstMatchDecides(weights[1..], labels, k - 1);
    }
  }

  method PodWeightOf(a: Access, p: Pod) returns (w: int)
    ensures w == WeightOf(if a.strategy.Some? then a.strategy.value.weights else [], p.labels)
  {
    if a.strategy.None? { return 1; }
    var weights := a.strategy.value.weights;
    for i := 0 to |weights|
      invariant WeightOf(weights, p.labels) == WeightOf(weights[i..], p.labels)
    {
      assert weights[i..][1..] == weights[i + 1..];
      if SelectorMatches(weights[i].selector, p.labels) {
        if weights[i].weight > 0 { return weights[i].weight; }
        return 1;
      }
    }
    return 1;
  }

  function PodCandidate(a: Access, p: Pod): Candidate {
    Candidate(
      PodTargetKey(a.namespace_, p),
      WeightOf(if a.strategy.Some? then a.strategy.value.weights else [], p.labels),
      p.createdAt)
  }

  function EndpointCandidate(e: Endpoint): Candidate {
    Candidate(e.name, if e.weight.Some? then e.weight.value else 1, 0)
  }

  predicate EndpointAtMost(a: Endpoint, b: Endpoint) { AtMost(a.name, b.name) }

  function StrategyOf(a: Access): Strategy { if a.strategy.None? then Random else a.strategy.value.strategy }

  /** Endpoints have no age: only the two counting strategies apply to them. */
  function EndpointStrategyOf(a: Access): Strategy {
    if StrategyOf(a).RoundRobin? || StrategyOf(a).LeastConnections? then StrategyOf(a) else Random
  }

  /** The value that a login is remembered by; none for an unknown kind. */
  function AffinityValue(kind: string, l: Login): string {
    if kind == "User" then l.userName
    else if kind == "Credential" then Extra(l, CREDENTIAL_USER)
    else if kind == "SourceIP" then l.sourceIP
    else if kind == "SSHUser" || kind == "" then l.sshUser
    else ""
  }

  function AffinityKey(a: Access, l: Login): string {
    if a.strategy.None? || a.strategy.value.sessionAffinity.None? then ""
    else
      var kind := a.strategy.value.sessionAffinity.value.kind;
      var value := AffinityValue(kind, l);
      if value == "" then "" else AccessKey(a.namespace_, a.name) + "\0" + (kind + "\0" + value)
  }

  const HOUR := 3600
  function AffinityTimeout(a: Access): int {
    if a.strategy.None? || a.strategy.value.sessionAffinity.None? then HOUR
    else
      var t := a.strategy.value.sessionAffinity.value.timeoutSeconds;
      if t.None? then HOUR else t.value
  }

  predicate Clean(s: string) { '\0' !in s && '/' !in s }

  /** Two logins are remembered together only on the same Access, by the same kind and the same value. */
  lemma AffinityKeysDiffer(a: Access, l: Login, b: Access, m: Login)
    requires Clean(a.namespace_) && Clean(a.name) && Clean(b.namespace_) && Clean(b.name)
    requires AffinityKey(a, l) == AffinityKey(b, m) != ""
    requires '\0' !in a.strategy.value.sessionAffinity.value.kind
    requires '\0' !in b.strategy.value.sessionAffinity.value.kind
    ensures a.namespace_ == b.namespace_ && a.name == b.name
    ensures var k := a.strategy.value.sessionAffinity.value.kind;
            k == b.strategy.value.sessionAffinity.value.kind && AffinityValue(k, l) == AffinityValue(k, m)
  {
    var ka, kb := a.strategy.value.sessionAffinity.value.kind, b.strategy.value.sessionAffinity.value.kind;
    var va, vb := AffinityValue(ka, l), AffinityValue(kb, m);
    CutOf(AccessKey(a.namespace_, a.name), '\0', ka + "\0" + va);
    CutOf(AccessKey(b.namespace_, b.name), '\0', kb + "\0" + vb);
    CutOf(ka, '\0', va);
    CutOf(kb, '\0', vb);
    CutOf(a.namespace_, '/', a.name);
    CutOf(b.namespace_, '/', b.name);
  }

  function PodRequest(a: Access, pods: seq<Pod>, l: Login, now: int): (r: Request)
    ensures PositiveWeights(r.candidates) && |r.candidates| == |pods|
  {
    Request(AccessKey(a.namespace_, a.name), AffinityKey(a, l), AffinityTimeout(a), StrategyOf(a),
            seq(|pods|, i requires 0 <= i < |pods| => PodCandidate(a, pods[i])), now)
  }

  /** Endpoints in the order they are offered. */
  function Offered(a: Access): seq<Endpoint> { Sort(a.endpoints, EndpointAtMost) }

  /** The API accepts endpoint weights of at least one. */
  predicate Weighed(a: Access) { forall e :: e in a.endpoints && e.weight.Some? ==> e.weight.value >= 1 }

  function EndpointRequest(a: Access, l: Login, now: int): (r: Request)
    ensures |r.candidates| == |a.endpoints|
    ensures Weighed(a) ==> PositiveWeights(r.candidates)
  {
    var endpoints := Offered(a);
    assert |endpoints| == |multiset(endpoints)| == |multiset(a.endpoints)|;
    assert forall i :: 0 <= i < |endpoints| ==> endpoints[i] in a.endpoints by {
      forall i | 0 <= i < |endpoints| ensures endpoints[i] in a.endpoints {
        SortKeeps(a.endpoints, EndpointAtMost, endpoints[i]);
      }
    }
    Request(AccessKey(a.namespace_, a.name), AffinityKey(a, l), AffinityTimeout(a), EndpointStrategyOf(a),
            seq(|endpoints|, i requires 0 <= i < |endpoints| => EndpointCandidate(endpoints[i])), now)
  }
}
