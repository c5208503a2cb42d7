/** Pods behind an Access: which are available, in which order, and which container a request means. */
module Pods {
  import opened Text
  import opened Wrappers
  import opened Sorting

  datatype Pod = Pod(
    namespace_: string, name: string, labels: map<string, string>,
    defaultAnnotation: string, containers: seq<string>,
    deleting: bool, finished: bool, ready: bool, createdAt: int)

  /** Neither being deleted nor in the Succeeded or Failed phase. */
  predicate Active(p: Pod) { !p.deleting && !p.finished }

  predicate PodAtMost(a: Pod, b: Pod) {
    if a.namespace_ != b.namespace_ then AtMost(a.namespace_, b.namespace_) else AtMost(a.name, b.name)
  }

  lemma PodsAreOrdered()
    ensures TotalOrder(PodAtMost)
  {
    forall a, b
      ensures PodAtMost(a, b) || PodAtMost(b, a)
    {
      AtMostTotal(a.namespace_, b.namespace_);
      AtMostTotal(a.name, b.name);
    }
    forall a, b, c | PodAtMost(a, b) && PodAtMost(b, c)
      ensures PodAtMost(a, c)
    {
      PodAtMostTransitive(a, b, c);
    }
  }

  lemma PodAtMostTransitive(a: Pod, b: Pod, c: Pod)
    requires PodAtMost(a, b) && PodAtMost(b, c)
    ensures PodAtMost(a, c)
  {
    AtMostTotal(a.namespace_, b.namespace_);
    if a.namespace_ != b.namespace_ && b.namespace_ != c.namespace_ {
      AtMostTransitive(a.namespace_, b.namespace_, c.namespace_);
    } else if a.namespace_ == b.namespace_ == c.namespace_ {
      AtMostTransitive(a.name, b.name, c.name);
    }
  }

  function Filter(pods: seq<Pod>, keep: Pod -> bool): (r: seq<Pod>)
    ensures forall p :: p in r <==> p in pods && keep(p)
  {
    if pods == [] then []
    else
      var init, last := Filter(pods[..|pods| - 1], keep), pods[|pods| - 1];
      assert pods == pods[..|pods| - 1] + [last];
      if keep(last) then init + [last] else init
  }

  function Available(pods: seq<Pod>): seq<Pod> { Sort(Filter(pods, Active), PodAtMost) }

  predicate Ready(p: Pod) { p.ready }

  /** The available Pods that are ready, or all of them when none is. */
  function Candidates(pods: seq<Pod>): seq<Pod> {
    var ready := Filter(Available(pods), Ready);
    Sort(if ready != [] then ready else Available(pods), PodAtMost)
  }

  lemma AvailableAre(pods: seq<Pod>, p: Pod)
    ensures p in Available(pods) <==> p in pods && Active(p)
  {
    SortKeeps(Filter(pods, Active), PodAtMost, p);
  }

  /** Candidates are active, preferably ready, sorted, and only missing when no Pod is active. */
  lemma CandidatesAre(pods: seq<Pod>)
    ensures Ordered(Candidates(pods), PodAtMost)
    ensures forall p :: p in Candidates(pods) <==>
                        p in pods && Active(p) && (p.ready || forall q :: q in pods && Active(q) ==> !q.ready)
    ensures Candidates(pods) == [] <==> forall p :: p in pods ==> !Active(p)
  {
    var available := Available(pods);
    var ready := Filter(available, Ready);
    var chosen := if ready != [] then ready else available;
    PodsAreOrdered();
    SortOrders(chosen, PodAtMost);
    forall p
      ensures p in available <==> p in pods && Active(p)
      ensures p in Candidates(pods) <==> p in chosen
    {
      AvailableAre(pods, p);
      SortKeeps(chosen, PodAtMost, p);
    }
    if ready != [] { assert ready[0] in ready; }
    if available != [] { assert available[0] in available; }
    if chosen != [] { assert chosen[0] in Candidates(pods); }
    if Candidates(pods) != [] { assert Candidates(pods)[0] in Candidates(pods); }
  }

  method ActivePods(pods: seq<Pod>) returns (active: seq<Pod>)
    ensures active == Available(pods)
  {
    active := [];
    for i := 0 to |pods|
      invariant active == Filter(pods[..i], Active)
    {
      assert pods[..i + 1][..i] == pods[..i];
      if pods[i].deleting || pods[i].finished { continue; }
      active := active + [pods[i]];
    }
    assert pods[..|pods|] == pods;
    active := Sort(active, PodAtMost);
  }

  method CandidatePods(pods: seq<Pod>) returns (active: seq<Pod>)
    ensures active == Candidates(pods)
  {
    active := ActivePods(pods);
    var ready := [];
    for i := 0 to |active|
      invariant ready == Filter(active[..i], Ready)
    {
      assert active[..i + 1][..i] == active[..i];
      if active[i].ready { ready := ready + [active[i]]; }
    }
    assert active[..|active|] == active;
    if ready != [] { active := ready; }
    active := Sort(active, PodAtMost);
  }

  // ---- containers ----

  datatype Resolved = Container(name: string, default_: string) | NoContainer

  function DefaultContainer(p: Pod): string {
    if p.defaultAnnotation == "" && p.containers != [] then p.containers[0] else p.defaultAnnotation
  }

  /** The requested container, or the default one, if the Pod has it. */
  function ContainerOf(p: Pod, requested: string): Resolved {
    var name := if requested == "" then DefaultContainer(p) else requested;
    if name != "" && name in p.containers then Container(name, DefaultContainer(p)) else NoContainer
  }

  method ResolveContainer(p: Pod, requested: string) returns (r: Resolved)
    ensures r == ContainerOf(p, requested)
  {
    var default_ := p.defaultAnnotation;
    if default_ == "" && |p.containers| > 0 { default_ := p.containers[0]; }
    var container := requested;
    if container == "" { container := default_; }
    if container == "" { return NoContainer; }
    for i := 0 to |p.containers|
      invariant container !in p.containers[..i]
    {
      if p.containers[i] == container { return Container(container, default_); }
    }
    return NoContainer;
  }

  /** `ContainerAllowed`: the global container selection modes. */
  predicate ModeAllows(mode: string, explicit: bool, container: string, default_: string) {
    if mode == "" || mode == "All" then true
    else if mode == "KubernetesDefault" then !explicit || container == default_
    else false
  }

  // ---- explicit Pods ----

  datatype PodLocator = PodLocator(pod: string, container: string)

  predicate Named(pods: seq<Pod>, name: string) { exists p :: p in pods && p.name == name }

  /** What stands before and after the last dot, if both are there; a leading dot is refused outright. */
  function LastDot(locator: string): (r: Option<PodLocator>)
    ensures r.Some? ==> locator == r.value.pod + "." + r.value.container && '.' !in r.value.container
  {
    var i := LastIndexOf(locator, '.');
    if i <= 0 || i == |locator| - 1 || locator[0] == '.' then None else Some(PodLocator(locator[..i], locator[i + 1..]))
  }

  /** An exact name of an available Pod wins; otherwise the last dot separates the container. */
  function ExplicitPod(available: seq<Pod>, locator: string): (r: Option<PodLocator>)
    ensures r.Some? ==> Named(available, r.value.pod)
  {
    if Named(available, locator) then Some(PodLocator(locator, ""))
    else
      var r := LastDot(locator);
      if r.Some? && Named(available, r.value.pod) then r else None
  }

  method FindNamed(pods: seq<Pod>, name: string) returns (found: bool)
    ensures found == Named(pods, name)
  {
    for i := 0 to |pods|
      invariant forall p :: p in pods[..i] ==> p.name != name
    {
      if pods[i].name == name { return true; }
    }
    return false;
  }

  lemma LastDotAfterFirst(locator: string, cut: CutResult)
    requires cut == Cut(locator, '.') && (!cut.found || cut.before == "" || cut.after == "")
    ensures LastDot(locator).None?
  {
    if cut.found && cut.after == "" {
      LastIndexOfTail(cut.before, '.', cut.after);
      assert locator == cut.before + ['.'] + cut.after;
    }
  }

  /** The code cuts at the first dot and falls back to the last one; that is a split at the last dot. */
  method SplitLocator(locator: string) returns (r: Option<PodLocator>)
    ensures r == LastDot(locator)
  {
    var cut := Cut(locator, '.');
    if !cut.found || cut.before == "" || cut.after == "" {
      LastDotAfterFirst(locator, cut);
      return None;
    }
    var pod, container := cut.before, cut.after;
    if '.' in container {
      var i := LastIndexOf(locator, '.');
      pod, container := locator[..i], locator[i + 1..];
    } else {
      LastIndexOfTail(pod, '.', container);
    }
    if pod == "" || container == "" { return None; }
    return Some(PodLocator(pod, container));
  }

  method ResolveExplicitPodLocator(pods: seq<Pod>, locator: string) returns (r: Option<PodLocator>)
    ensures r == ExplicitPod(Available(pods), locator)
  {
    var active := ActivePods(pods);
    var exact := FindNamed(active, locator);
    if exact { return Some(PodLocator(locator, "")); }
    r := SplitLocator(locator);
    if r.None? { return None; }
    var known := FindNamed(active, r.value.pod);
    if !known { return None; }
  }
}
