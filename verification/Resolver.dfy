/** From a login to a target: the Access it names, the Pod or endpoint selected, the container admitted. */
module Resolver {
  import opened Wrappers
  import opened Credentials
  import opened Pods
  import opened Selection
  import opened Selector
  import opened Accesses
  import SelectionRuns
  import Locators

  type Store = Locators.Store<Access>

  datatype ContainerPolicy = ContainerPolicy(defaultMode: string, limitMode: string)

  // ---- which Access a login means ----

  datatype Requested = Requested(locator: Locators.Locator, access: Access) | NotRequested | BadRequest | LookupFailed

  /** `resolveRequestedAccess`: an authenticated Access is binding, otherwise the username decides. */
  function RequestedAccess(store: Store, l: Login): Requested {
    var namespace_, name := Extra(l, ACCESS_NAMESPACE), Extra(l, ACCESS_NAME);
    if namespace_ == "" && name == "" then
      match Locators.Resolve(store, l.sshUser)
      case Provided(locator, a) => Requested(locator, a)
      case NotProvided => NotRequested
      case Failed => LookupFailed
    else if namespace_ == "" || name == "" then BadRequest
    else
      var parsed := Locators.ParseFor(l.sshUser, namespace_, name);
      if parsed.None? then BadRequest
      else
        match Locators.Get(store, namespace_, name)
        case Found(a) => Requested(parsed.value, a)
        case Missing => NotRequested
        case Broken => LookupFailed
  }

  // ---- what is selected from ----

  datatype Error = BadRequestError | InternalError | Unavailable | Forbidden

  /** Everything that is decided before a target is selected. */
  datatype Plan =
    | Rejected(error: Error)
    | NotMine
    | FromEndpoints(access: Access)
    | ThePod(access: Access, pod: Pod, container: string)
    | FromPods(access: Access, pods: seq<Pod>, container: string)

  /** The first Pod of that name. */
  function PodNamed(pods: seq<Pod>, name: string): (r: Option<Pod>)
    ensures r.Some? ==> r.value in pods && r.value.name == name
    ensures r.None? <==> !Named(pods, name)
  {
    if pods == [] then None
    else
      assert pods == [pods[0]] + pods[1..];
      if pods[0].name == name then Some(pods[0]) else PodNamed(pods[1..], name)
  }

  function PlanFor(r: Requested, listed: Option<seq<Pod>>): Plan {
    match r
    case BadRequest => Rejected(BadRequestError)
    case LookupFailed => Rejected(InternalError)
    case NotRequested => NotMine
    case Requested(locator, a) =>
      match a.kind
      case External =>
        if locator.pod != "" || locator.container != "" then Rejected(BadRequestError)
        else if a.endpoints == [] then Rejected(Unavailable)
        else FromEndpoints(a)
      case Unsupported => Rejected(BadRequestError)
      case PodAccess =>
        if listed.None? then Rejected(InternalError)
        else if locator.pod != "" then ExplicitPlan(a, Available(listed.value), locator.pod)
        else if Candidates(listed.value) == [] then Rejected(Unavailable)
        else FromPods(a, Candidates(listed.value), locator.container)
  }

  function ExplicitPlan(a: Access, available: seq<Pod>, locator: string): Plan {
    var explicit := ExplicitPod(available, locator);
    if explicit.None? then Rejected(Unavailable)
    else
      var pod := PodNamed(available, explicit.value.pod);
      if pod.None? then Rejected(Unavailable) else ThePod(a, pod.value, explicit.value.container)
  }

  /** `listed` is what the Pod lister answers for the Access, `None` when it fails. */
  function PlanOf(store: Store, listed: Option<seq<Pod>>, l: Login): Plan {
    PlanFor(RequestedAccess(store, l), listed)
  }

  // ---- whether the container is admitted ----

  ghost predicate Admits(policy: ContainerPolicy, a: Access, c: Option<Credential>, explicit: bool, container: string,
                         default_: string)
  {
    && (if a.containers == [] then ModeAllows(policy.defaultMode, explicit, container, default_)
        else Allows(a.containers, container))
    && ModeAllows(policy.limitMode, explicit, container, default_)
    && (c.Some? ==> Allows(c.value.containers, container))
  }

  datatype Admission = Granted(container: string) | Refused(reason: Error)

  /** The container of the selected Pod that the login gets. */
  ghost function AdmissionOf(policy: ContainerPolicy, a: Access, l: Login, p: Pod, requested: string): Admission {
    var r := ContainerOf(p, requested);
    if r.NoContainer? then Refused(BadRequestError)
    else if Admits(policy, a, CredentialOf(a.credentials, Extra(l, CREDENTIAL_USER)),
                   requested != "", r.name, r.default_)
    then Granted(r.name)
    else Refused(Forbidden)
  }

  method Admit(policy: ContainerPolicy, a: Access, l: Login, p: Pod, requested: string) returns (r: Admission)
    ensures r == AdmissionOf(policy, a, l, p, requested)
  {
    var container := ResolveContainer(p, requested);
    if container.NoContainer? { return Refused(BadRequestError); }
    var credential := FindCredential(a.credentials, Extra(l, CREDENTIAL_USER));
    var name, default_ := container.name, container.default_;
    var accessAllowed := ModeAllows(policy.defaultMode, requested != "", name, default_);
    if |a.containers| > 0 { accessAllowed := ContainerAllowed(a.containers, name); }
    var credentialAllowed := true;
    if credential.Some? { credentialAllowed := ContainerAllowed(credential.value.containers, name); }
    if !accessAllowed || !ModeAllows(policy.limitMode, requested != "", name, default_) || !credentialAllowed {
      return Refused(Forbidden);
    }
    return Granted(name);
  }

  // ---- resolution ----

  datatype Outcome =
    | PodTarget(pod: Pod, container: string, podLease: Lease)
    | EndpointTarget(endpoint: string, endpointLease: Lease)
    | Failure(error: Error)
    | NotProvided

  /** No selection is counted that was not counted before, and none is missing. */
  ghost predicate SameCounts(s: State, t: State) {
    && (forall k :: Count(s.connections, k) == Count(t.connections, k))
    && ((forall k :: k in s.connections ==> s.connections[k] > 0) ==> t.connections == s.connections)
  }

  lemma TrackedAndReleased(s: State, tracked: State, accessKey: string, targetKey: string)
    requires tracked.connections == Track(s, accessKey, targetKey).connections
    ensures SameCounts(s, Untrack(tracked, ConnectionKey(accessKey, targetKey)))
  {
    var k := ConnectionKey(accessKey, targetKey);
    var released := Untrack(tracked, k);
    if forall k :: k in s.connections ==> s.connections[k] > 0 {
      SelectionRuns.ReleaseUndoesTrack(s, accessKey, targetKey);
    }
  }

  /** An endpoint that the selection may return, and the state after it. */
  ghost predicate Chosen(r: Request, before: State, after: State, endpoint: string)
    requires r.candidates != [] ==> Wellformed(r)
  {
    exists i :: 0 <= i < |r.candidates| && Eligible(before, r, i) && r.candidates[i].key == endpoint &&
                after == Selected(before, r, i)
  }

  /** A selected Pod is bound, or given back with an error. */
  ghost predicate Settles(policy: ContainerPolicy, a: Access, l: Login, p: Pod, requested: string,
                          before: State, tracked: State, after: State, o: Outcome)
  {
    match AdmissionOf(policy, a, l, p, requested)
    case Granted(c) => o.PodTarget? && o.pod == p && o.container == c && after == tracked
    case Refused(e) =>
      o == Failure(e) && SameCounts(before, after) &&
      after.roundRobin == tracked.roundRobin && after.affinity == tracked.affinity
  }

  /** The outcome and the state when candidate `i` is the one selected. */
  ghost predicate Reaches(policy: ContainerPolicy, plan: Plan, l: Login, now: int, i: nat,
                          before: State, after: State, o: Outcome)
    requires plan.FromPods?
  {
    var request := PodRequest(plan.access, plan.pods, l, now);
    i < |plan.pods| && Eligible(before, request, i) &&
    Settles(policy, plan.access, l, plan.pods[i], plan.container, before, Selected(before, request, i), after, o)
  }

  /** The outcomes and states that a plan allows. */
  ghost predicate Follows(policy: ContainerPolicy, plan: Plan, l: Login, now: int, before: State, after: State,
                          o: Outcome)
  {
    match plan
    case Rejected(e) => o == Failure(e) && after == before
    case NotMine => o == NotProvided && after == before
    case ThePod(a, p, c) =>
      Settles(policy, a, l, p, c, before,
              Track(before, AccessKey(a.namespace_, a.name), PodTargetKey(a.namespace_, p)), after, o)
    case FromPods(a, pods, _) => exists i: nat :: Reaches(policy, plan, l, now, i, before, after, o)
    case FromEndpoints(a) =>
      Weighed(a) && o.EndpointTarget? && Chosen(EndpointRequest(a, l, now), before, after, o.endpoint)
  }

  lemma SelectedCounts(s: State, r: Request, i: nat)
    requires i < |r.candidates|
    ensures Selected(s, r, i).connections == Track(s, r.accessKey, r.candidates[i].key).connections
  {
  }

  method PodRequestFor(a: Access, pods: seq<Pod>, l: Login, now: int) returns (r: Request)
    ensures r == PodRequest(a, pods, l, now)
  {
    var candidates := [];
    for i := 0 to |pods|
      invariant candidates == PodRequest(a, pods, l, now).candidates[..i]
    {
      var weight := PodWeightOf(a, pods[i]);
      candidates := candidates + [Candidate(PodTargetKey(a.namespace_, pods[i]), weight, pods[i].createdAt)];
    }
    var key := AccessKey(a.namespace_, a.name);
    r := Request(key, AffinityKey(a, l), AffinityTimeout(a), StrategyOf(a), candidates, now);
  }

  method EndpointRequestFor(a: Access, endpoints: seq<Endpoint>, l: Login, now: int) returns (r: Request)
    requires endpoints == Offered(a)
    ensures r == EndpointRequest(a, l, now)
  {
    var candidates := [];
    for i := 0 to |endpoints|
      invariant candidates == EndpointRequest(a, l, now).candidates[..i]
    {
      candidates := candidates + [EndpointCandidate(endpoints[i])];
    }
    r := Request(AccessKey(a.namespace_, a.name), AffinityKey(a, l), AffinityTimeout(a), EndpointStrategyOf(a),
                 candidates, now);
  }

  class AccessResolver {
    const policy: ContainerPolicy
    const selector: StrategySelector

    constructor (policy: ContainerPolicy)
      ensures this.policy == policy && fresh(selector) && selector.Value() == EMPTY
    {
      this.policy := policy;
      selector := new StrategySelector();
    }

    method SelectPodByName(a: Access, pods: seq<Pod>, name: string) returns (r: Option<(Pod, Lease)>)
      modifies selector`connections
      ensures r.None? <==> PodNamed(Available(pods), name).None?
      ensures r.None? ==> selector.Value() == old(selector.Value())
      ensures r.Some? ==>
                var p := PodNamed(Available(pods), name).value;
                && r.value.0 == p && Holds(r.value.1, a, PodTargetKey(a.namespace_, p)) && fresh(r.value.1)
                && selector.Value() ==
                   Track(old(selector.Value()), AccessKey(a.namespace_, a.name), PodTargetKey(a.namespace_, p))
    {
      var active := ActivePods(pods);
      for i := 0 to |active|
        invariant PodNamed(active, name) == PodNamed(active[i..], name)
        invariant selector.Value() == old(selector.Value())
      {
        assert active[i..][1..] == active[i + 1..];
        if active[i].name == name {
          var lease := selector.TrackTarget(AccessKey(a.namespace_, a.name), PodTargetKey(a.namespace_, active[i]));
          return Some((active[i], lease));
        }
      }
      return None;
    }

    /** An unused release handle for one target of an Access. */
    predicate Holds(lease: Lease, a: Access, targetKey: string)
      reads lease
    {
      lease.selector == selector && !lease.released &&
      lease.key == ConnectionKey(AccessKey(a.namespace_, a.name), targetKey)
    }

    /** One of the candidate Pods, chosen by the strategy of the Access. */
    method SelectPod(a: Access, pods: seq<Pod>, l: Login, now: int, random: nat) returns (r: Option<(nat, Lease)>)
      modifies selector
      ensures r.None? <==> Candidates(pods) == []
      ensures r.None? ==> selector.Value() == old(selector.Value())
      ensures r.Some? ==>
                var request, i := PodRequest(a, Candidates(pods), l, now), r.value.0;
                && i < |request.candidates| && Eligible(old(selector.Value()), request, i)
                && selector.Value() == Selected(old(selector.Value()), request, i)
                && fresh(r.value.1) && Holds(r.value.1, a, request.candidates[i].key)
    {
      var offered := CandidatePods(pods);
      if |offered| == 0 { return None; }
      var request := PodRequestFor(a, offered, l, now);
      var index, lease := selector.SelectTarget(request, random);
      return Some((index, lease));
    }

    method SelectEndpoint(a: Access, l: Login, now: int, random: nat) returns (r: Option<(string, Lease)>)
      requires Weighed(a)
      modifies selector
      ensures r.None? <==> a.endpoints == []
      ensures r.None? ==> selector.Value() == old(selector.Value())
      ensures r.Some? ==> Chosen(EndpointRequest(a, l, now), old(selector.Value()), selector.Value(), r.value.0)
      ensures r.Some? ==> fresh(r.value.1) && Holds(r.value.1, a, r.value.0)
    {
      if |a.endpoints| == 0 { return None; }
      var endpoints := Offered(a);
      var request := EndpointRequestFor(a, endpoints, l, now);
      var index, lease := selector.SelectTarget(request, random);
      return Some((endpoints[index].name, lease));
    }

    /** The container of a Pod already selected; a refusal gives the selection back. */
    method Bind(a: Access, l: Login, p: Pod, requested: string, lease: Lease, ghost before: State) returns (o: Outcome)
      requires Holds(lease, a, PodTargetKey(a.namespace_, p))
      requires selector.connections ==
               Track(before, AccessKey(a.namespace_, a.name), PodTargetKey(a.namespace_, p)).connections
      modifies lease, selector`connections
      ensures Settles(policy, a, l, p, requested, before, old(selector.Value()), selector.Value(), o)
      ensures o.PodTarget? ==> o.podLease == lease && !lease.released
    {
      var admission := Admit(policy, a, l, p, requested);
      if admission.Refused? {
        TrackedAndReleased(before, selector.Value(), AccessKey(a.namespace_, a.name), PodTargetKey(a.namespace_, p));
        lease.Release();
        return Failure(admission.reason);
      }
      return PodTarget(p, admission.container, lease);
    }

    /** The container of a Pod that was named. */
    method ResolveThePod(a: Access, l: Login, pods: seq<Pod>, locator: string) returns (o: Outcome)
      modifies selector
      ensures Follows(
                policy, ExplicitPlan(a, Available(pods), locator), l, 0, old(selector.Value()), selector.Value(), o)
      ensures Leased(o, ExplicitPlan(a, Available(pods), locator))
      ensures o.PodTarget? ==> fresh(o.podLease)
    {
      var explicit := ResolveExplicitPodLocator(pods, locator);
      if explicit.None? { return Failure(Unavailable); }
      ghost var before := selector.Value();
      var selection := SelectPodByName(a, pods, explicit.value.pod);
      if selection.None? { return Failure(Unavailable); }
      o := Bind(a, l, selection.value.0, explicit.value.container, selection.value.1, before);
    }

    /** The release handle of a target counts for that target and is unused. */
    predicate Leased(o: Outcome, plan: Plan)
      reads if o.PodTarget? then {o.podLease} else if o.EndpointTarget? then {o.endpointLease} else {}
    {
      match o
      case PodTarget(p, _, lease) =>
        (plan.ThePod? || plan.FromPods?) && Holds(lease, plan.access, PodTargetKey(plan.access.namespace_, p))
      case EndpointTarget(e, lease) => plan.FromEndpoints? && Holds(lease, plan.access, e)
      case _ => true
    }

    method ResolveSomePod(a: Access, l: Login, pods: seq<Pod>, container: string, now: int, random: nat)
      returns (o: Outcome)
      modifies selector
      ensures Candidates(pods) == [] ==> o == Failure(Unavailable) && selector.Value() == old(selector.Value())
      ensures Candidates(pods) != [] ==>
                var plan := FromPods(a, Candidates(pods), container);
                Follows(policy, plan, l, now, old(selector.Value()), selector.Value(), o) && Leased(o, plan)
      ensures o.PodTarget? ==> fresh(o.podLease)
    {
      ghost var before := selector.Value();
      var offered := CandidatePods(pods);
      var selection := SelectPod(a, pods, l, now, random);
      if selection.None? { return Failure(Unavailable); }
      var p := offered[selection.value.0];
      ghost var request := PodRequest(a, offered, l, now);
      SelectedCounts(before, request, selection.value.0);
      o := Bind(a, l, p, container, selection.value.1, before);
      assert Reaches(policy, FromPods(a, offered, container), l, now, selection.value.0, before, selector.Value(), o);
    }

    /**
      The whole resolution. The outcome and the new state are those of the plan, and every failure leaves
      the connection counts as they were.
     */
    method Resolve(store: Store, listed: Option<seq<Pod>>, l: Login, now: int, random: nat) returns (o: Outcome)
      requires RequestedAccess(store, l).Requested? ==> Weighed(RequestedAccess(store, l).access)
      modifies selector
      ensures Follows(policy, PlanOf(store, listed, l), l, now, old(selector.Value()), selector.Value(), o)
      ensures o.Failure? || o.NotProvided? ==> SameCounts(old(selector.Value()), selector.Value())
      ensures Leased(o, PlanOf(store, listed, l))
      ensures o.PodTarget? ==> fresh(o.podLease)
      ensures o.EndpointTarget? ==> fresh(o.endpointLease)
    {
      var requested := RequestedAccess(store, l);
      match requested {
        case BadRequest => return Failure(BadRequestError);
        case LookupFailed => return Failure(InternalError);
        case NotRequested => return NotProvided;
        case Requested(locator, a) => {}
      }
      o := ResolveRequested(requested.locator, requested.access, listed, l, now, random);
    }

    method ResolveRequested(locator: Locators.Locator, a: Access, listed: Option<seq<Pod>>, l: Login, now: int,
                            random: nat)
      returns (o: Outcome)
      requires Weighed(a)
      modifies selector
      ensures var plan := PlanFor(Requested(locator, a), listed);
              Follows(policy, plan, l, now, old(selector.Value()), selector.Value(), o) && Leased(o, plan)
      ensures o.Failure? || o.NotProvided? ==> SameCounts(old(selector.Value()), selector.Value())
      ensures o.PodTarget? ==> fresh(o.podLease)
      ensures o.EndpointTarget? ==> fresh(o.endpointLease)
    {
      if a.kind.External? {
        if locator.pod != "" || locator.container != "" { return Failure(BadRequestError); }
        var selection := SelectEndpoint(a, l, now, random);
        if selection.None? { return Failure(Unavailable); }
        return EndpointTarget(selection.value.0, selection.value.1);
      }
      if !a.kind.PodAccess? { return Failure(BadRequestError); }
      if listed.None? { return Failure(InternalError); }
      if locator.pod != "" {
        o := ResolveThePod(a, l, listed.value, locator.pod);
      } else {
        o := ResolveSomePod(a, l, listed.value, locator.container, now, random);
      }
    }
  }
}
