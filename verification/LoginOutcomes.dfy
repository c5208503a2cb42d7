/** What a login comes to, in the words of the configuration: the Access, the target, the container, the remembering. */
module LoginOutcomes {
  import opened Wrappers
  import opened Credentials
  import opened Pods
  import opened Selection
  import opened Accesses
  import opened Resolver
  import Locators
  import SelectionRuns
  import Sorting
  import Text

  // ---- which containers the global policy leaves ----

  /** A mode that leaves only the default container to a login that names one. */
  predicate DefaultOnly(policy: ContainerPolicy, a: Access) {
    policy.limitMode == "KubernetesDefault" || (a.containers == [] && policy.defaultMode == "KubernetesDefault")
  }

  /** A mode that the policy does not know. */
  predicate Unknown(mode: string) { mode != "" && mode != "All" && mode != "KubernetesDefault" }

  predicate Unlimited(mode: string) { mode == "" || mode == "All" }

  /** What the lists of the Access and of the credential say. */
  ghost predicate Listed(a: Access, l: Login, container: string) {
    var c := CredentialOf(a.credentials, Extra(l, CREDENTIAL_USER));
    Allows(a.containers, container) && (c.Some? ==> Allows(c.value.containers, container))
  }

  /** A Pod that does not have the container is a bad request, under every policy. */
  lemma MissingContainer(policy: ContainerPolicy, a: Access, l: Login, p: Pod, requested: string)
    ensures AdmissionOf(policy, a, l, p, requested) == Refused(BadRequestError) <==>
            (if requested != "" then requested else DefaultContainer(p)) !in p.containers ||
            (requested == "" && DefaultContainer(p) == "")
  {
  }

  /** Under the mode KubernetesDefault, naming any other container is forbidden. */
  lemma OnlyTheDefault(policy: ContainerPolicy, a: Access, l: Login, p: Pod, requested: string)
    requires DefaultOnly(policy, a) && requested != "" && requested in p.containers
    ensures requested != DefaultContainer(p) ==> AdmissionOf(policy, a, l, p, requested) == Refused(Forbidden)
    ensures AdmissionOf(policy, a, l, p, requested).Granted? ==>
              requested == DefaultContainer(p) && AdmissionOf(policy, a, l, p, requested).container == requested
  {
  }

  /** A mode that is not known forbids every container. */
  lemma UnknownModeForbids(policy: ContainerPolicy, a: Access, l: Login, p: Pod, requested: string)
    requires Unknown(policy.limitMode) || (a.containers == [] && Unknown(policy.defaultMode))
    ensures !AdmissionOf(policy, a, l, p, requested).Granted?
    ensures ContainerOf(p, requested).Container? ==> AdmissionOf(policy, a, l, p, requested) == Refused(Forbidden)
  {
  }

  /** With no limit, or when the container is the default one, the lists alone decide. */
  lemma ListsDecide(policy: ContainerPolicy, a: Access, l: Login, p: Pod, requested: string, container: string)
    requires container == if requested != "" then requested else DefaultContainer(p)
    requires container != "" && container in p.containers
    requires Unlimited(policy.limitMode) || (!Unknown(policy.limitMode) && container == DefaultContainer(p))
    requires a.containers == [] ==>
               Unlimited(policy.defaultMode) || (!Unknown(policy.defaultMode) && container == DefaultContainer(p))
    ensures AdmissionOf(policy, a, l, p, requested) ==
            if Listed(a, l, container) then Granted(container) else Refused(Forbidden)
  {
  }

  // ---- which Access a login reaches ----

  function AuthNamespace(l: Login): string { Extra(l, ACCESS_NAMESPACE) }

  function AuthName(l: Login): string { Extra(l, ACCESS_NAME) }

  predicate HasAccess(plan: Plan) { plan.FromEndpoints? || plan.ThePod? || plan.FromPods? }

  /** A login that was authenticated for an Access reaches that Access and no other, by a username written for it. */
  lemma AuthenticationBinds(store: Store, listed: Option<seq<Pod>>, l: Login)
    requires AuthNamespace(l) != "" || AuthName(l) != ""
    ensures HasAccess(PlanOf(store, listed, l)) ==>
              && AuthNamespace(l) != "" && AuthName(l) != ""
              && Locators.Get(store, AuthNamespace(l), AuthName(l)) == Locators.Found(PlanOf(store, listed, l).access)
              && exists locator :: Locators.Render(locator) == l.sshUser &&
                                   locator.namespace_ == AuthNamespace(l) && locator.access == AuthName(l)
  {
    Locators.ParsedRenders(l.sshUser, AuthNamespace(l), AuthName(l));
    var parsed := Locators.ParseFor(l.sshUser, AuthNamespace(l), AuthName(l));
    if parsed.Some? { assert Locators.Render(parsed.value) == l.sshUser; }
  }

  /** Half an identity, or a username written for something else, is a bad request. */
  lemma AuthenticationRefuses(store: Store, listed: Option<seq<Pod>>, l: Login)
    requires AuthNamespace(l) != "" || AuthName(l) != ""
    requires AuthNamespace(l) == "" || AuthName(l) == "" ||
             forall locator :: Locators.Render(locator) == l.sshUser ==>
               locator.namespace_ != AuthNamespace(l) || locator.access != AuthName(l)
    ensures PlanOf(store, listed, l) == Rejected(BadRequestError)
  {
    Locators.ParsedRenders(l.sshUser, AuthNamespace(l), AuthName(l));
  }

  /** An Access that is gone is left to other resolvers; a store that fails is an error; neither changes anything. */
  lemma StoreAnswers(policy: ContainerPolicy, store: Store, listed: Option<seq<Pod>>, l: Login, now: int,
                     before: State, after: State, o: Outcome)
    requires AuthNamespace(l) != "" && AuthName(l) != "" && l.sshUser == AuthNamespace(l) + "." + AuthName(l)
    requires Follows(policy, PlanOf(store, listed, l), l, now, before, after, o)
    ensures var found := Locators.Get(store, AuthNamespace(l), AuthName(l));
            && (o == NotProvided <==> found.Missing?)
            && (found.Broken? ==> o == Failure(InternalError))
            && (!found.Found? ==> after == before)
  {
    StorePlan(store, listed, l);
    PlanEnds(policy, PlanOf(store, listed, l), l, now, before, after, o);
  }

  lemma StorePlan(store: Store, listed: Option<seq<Pod>>, l: Login)
    requires AuthNamespace(l) != "" && AuthName(l) != "" && l.sshUser == AuthNamespace(l) + "." + AuthName(l)
    ensures var found, plan := Locators.Get(store, AuthNamespace(l), AuthName(l)), PlanOf(store, listed, l);
            && (plan.NotMine? <==> found.Missing?)
            && (found.Broken? ==> plan == Rejected(InternalError))
  {
    var parsed := Locators.ParseFor(l.sshUser, AuthNamespace(l), AuthName(l));
    assert parsed.Some?;
  }

  lemma PlanEnds(policy: ContainerPolicy, plan: Plan, l: Login, now: int, before: State, after: State, o: Outcome)
    requires Follows(policy, plan, l, now, before, after, o)
    ensures o == NotProvided <==> plan.NotMine?
    ensures plan.Rejected? ==> o == Failure(plan.error)
    ensures plan.NotMine? || plan.Rejected? ==> after == before
  {
  }

  /** A login without authentication, by a username that is written for a locator of a stored Access. */
  predicate Written(store: Store, l: Login, locator: Locators.Locator, a: Access) {
    && AuthNamespace(l) == "" && AuthName(l) == "" && l.sshUser == Locators.Render(locator)
    && Locators.Writable(locator) && Locators.Unshadowed(store, locator)
    && Locators.Get(store, locator.namespace_, locator.access) == Locators.Found(a)
  }

  lemma WrittenIsRequested(store: Store, l: Login, locator: Locators.Locator, a: Access)
    requires Written(store, l, locator, a)
    ensures RequestedAccess(store, l) == Requested(locator, a)
  {
    Locators.LocatorRoundTrip(store, locator, a);
  }

  // ---- what target it gets ----

  /**
    An External Access gives one of its endpoints to a username that names nothing but the Access. It refuses a Pod
    or a container, and it is unavailable when it has no endpoint.
   */
  lemma ExternalLogin(policy: ContainerPolicy, store: Store, listed: Option<seq<Pod>>, l: Login,
                      locator: Locators.Locator, a: Access, now: int, before: State, after: State, o: Outcome)
    requires Written(store, l, locator, a) && a.kind.External?
    requires Follows(policy, PlanOf(store, listed, l), l, now, before, after, o)
    ensures locator.pod != "" || locator.container != "" ==> o == Failure(BadRequestError) && after == before
    ensures locator.pod == "" && locator.container == "" ==>
              if a.endpoints == [] then o == Failure(Unavailable) && after == before
              else o.EndpointTarget? && exists e :: e in a.endpoints && e.name == o.endpoint
  {
    WrittenIsRequested(store, l, locator, a);
    if locator.pod == "" && locator.container == "" && a.endpoints != [] {
      var r := EndpointRequest(a, l, now);
      var i :| 0 <= i < |r.candidates| && Eligible(before, r, i) && r.candidates[i].key == o.endpoint &&
               after == Selected(before, r, i);
      CandidateIsEndpoint(a, l, now, i);
    }
  }

  lemma CandidateIsEndpoint(a: Access, l: Login, now: int, i: nat)
    requires i < |EndpointRequest(a, l, now).candidates|
    ensures exists e :: e in a.endpoints && e.name == EndpointRequest(a, l, now).candidates[i].key
  {
    var e := Offered(a)[i];
    Sorting.SortKeeps(a.endpoints, EndpointAtMost, e);
    assert e in a.endpoints && e.name == EndpointRequest(a, l, now).candidates[i].key;
  }

  /** The container that a locator asks for, or the Pod's default one. */
  function AskedFor(locator: Locators.Locator, p: Pod): string {
    if locator.container != "" then locator.container else DefaultContainer(p)
  }

  /** Neither being deleted, nor succeeded, nor failed. */
  predicate Running(p: Pod) { !(p.deleting || p.finished) }

  /** The Pod may be selected: running, and ready unless no running Pod is. */
  predicate MaySelect(pods: seq<Pod>, p: Pod) {
    p in pods && Running(p) && (p.ready || forall q :: q in pods && Running(q) ==> !q.ready)
  }

  /**
    A Pod Access gives a username that names no Pod one of the Pods that may be selected, and in it the container
    that was asked for, or the Pod's default one. It is unavailable exactly when no Pod is active; an Access of
    another kind is a bad request, and a list of Pods that fails is an error.
   */
  lemma PodLogin(policy: ContainerPolicy, store: Store, listed: Option<seq<Pod>>, l: Login,
                 locator: Locators.Locator, a: Access, now: int, before: State, after: State, o: Outcome)
    requires Written(store, l, locator, a) && !a.kind.External? && locator.pod == ""
    requires Follows(policy, PlanOf(store, listed, l), l, now, before, after, o)
    ensures a.kind.Unsupported? ==> o == Failure(BadRequestError)
    ensures a.kind.PodAccess? && listed.None? ==> o == Failure(InternalError)
    ensures a.kind.PodAccess? && listed.Some? ==>
              && (o == Failure(Unavailable) <==> forall p :: p in listed.value ==> !Running(p))
              && (o != Failure(Unavailable) ==>
                    exists p :: MaySelect(listed.value, p) && Gets(policy, a, l, p, locator, o))
  {
    WrittenIsRequested(store, l, locator, a);
    if a.kind.PodAccess? && listed.Some? {
      CandidatesAre(listed.value);
      if Candidates(listed.value) != [] {
        SomePod(policy, listed.value, l, locator, a, now, before, after, o);
      }
    }
  }

  lemma SomePod(policy: ContainerPolicy, pods: seq<Pod>, l: Login, locator: Locators.Locator, a: Access, now: int,
                before: State, after: State, o: Outcome)
    requires Follows(policy, FromPods(a, Candidates(pods), locator.container), l, now, before, after, o)
    ensures o != Failure(Unavailable) && exists p :: MaySelect(pods, p) && Gets(policy, a, l, p, locator, o)
  {
    CandidatesAre(pods);
    var plan := FromPods(a, Candidates(pods), locator.container);
    var i: nat :| Reaches(policy, plan, l, now, i, before, after, o);
    var p := plan.pods[i];
    assert p in plan.pods && MaySelect(pods, p);
    SettledGets(policy, a, l, p, locator, before, Selected(before, PodRequest(a, plan.pods, l, now), i), after, o);
  }

  lemma SettledGets(policy: ContainerPolicy, a: Access, l: Login, p: Pod, locator: Locators.Locator,
                    before: State, tracked: State, after: State, o: Outcome)
    requires Settles(policy, a, l, p, locator.container, before, tracked, after, o)
    ensures Gets(policy, a, l, p, locator, o) && o != Failure(Unavailable)
  {
  }

  /** What a login gets from a selected Pod. */
  ghost predicate Gets(policy: ContainerPolicy, a: Access, l: Login, p: Pod, locator: Locators.Locator, o: Outcome) {
    match AdmissionOf(policy, a, l, p, locator.container)
    case Granted(c) => o.PodTarget? && o.pod == p && o.container == c == AskedFor(locator, p) && c in p.containers
    case Refused(e) => o == Failure(e) && e != Unavailable
  }

  /**
    A login to a Pod Access that is granted counts one more connection to that Pod and changes no other count; one
    that fails changes none.
   */
  lemma LoginIsCounted(policy: ContainerPolicy, plan: Plan, l: Login, now: int, before: State, after: State, o: Outcome,
                       key: string)
    requires Follows(policy, plan, l, now, before, after, o) && (plan.ThePod? || plan.FromPods?)
    ensures o.PodTarget? ==>
              var counted := AccessKey(plan.access.namespace_, plan.access.name) + "\0" +
                             PodTargetKey(plan.access.namespace_, o.pod);
              Count(after.connections, key) == Count(before.connections, key) + (if key == counted then 1 else 0)
    ensures o.Failure? ==> Count(after.connections, key) == Count(before.connections, key)
  {
    if plan.FromPods? {
      var i: nat :| Reaches(policy, plan, l, now, i, before, after, o);
      var r := PodRequest(plan.access, plan.pods, l, now);
      SelectedCounts(before, r, i);
      assert r.candidates[i].key == PodTargetKey(plan.access.namespace_, plan.pods[i]);
    }
  }

  /** A login that names its Pod neither takes a turn nor is remembered, whether it is granted or not. */
  lemma NamedPodLeavesTurns(policy: ContainerPolicy, plan: Plan, l: Login, now: int, before: State, after: State,
                            o: Outcome)
    requires Follows(policy, plan, l, now, before, after, o) && plan.ThePod?
    ensures after.roundRobin == before.roundRobin && after.affinity == before.affinity
  {
  }

  /** Any other takes its turn and is remembered, even if it is refused in the end. */
  lemma RefusedTakesItsTurn(policy: ContainerPolicy, plan: Plan, l: Login, now: int, before: State, after: State,
                            o: Outcome)
    requires Follows(policy, plan, l, now, before, after, o) && plan.FromPods?
    ensures var r := PodRequest(plan.access, plan.pods, l, now);
            exists i :: 0 <= i < |plan.pods| && Eligible(before, r, i) &&
                        after.roundRobin == Selected(before, r, i).roundRobin &&
                        after.affinity == Selected(before, r, i).affinity
  {
    var i: nat :| Reaches(policy, plan, l, now, i, before, after, o);
    var r := PodRequest(plan.access, plan.pods, l, now);
    assert 0 <= i < |plan.pods| && Eligible(before, r, i);
  }

  // ---- how it is remembered ----

  /** Two logins that the kind of affinity takes for the same. */
  predicate Alike(kind: string, l: Login, m: Login) {
    || (kind == "User" && l.userName == m.userName != "")
    || (kind == "Credential" && Extra(l, CREDENTIAL_USER) == Extra(m, CREDENTIAL_USER) != "")
    || (kind == "SourceIP" && l.sourceIP == m.sourceIP != "")
    || ((kind == "SSHUser" || kind == "") && l.sshUser == m.sshUser != "")
  }

  /** The configured affinity and its timeout in seconds, one hour if none is set. */
  predicate Affine(a: Access, kind: string, timeout: int) {
    a.strategy.Some? && a.strategy.value.sessionAffinity.Some? &&
    var affinity := a.strategy.value.sessionAffinity.value;
    affinity.kind == kind && timeout == if affinity.timeoutSeconds.Some? then affinity.timeoutSeconds.value else 3600
  }

  lemma RemembersPod(a: Access, pods: seq<Pod>, l: Login, now: int, s: State, i: int, kind: string, timeout: int)
    requires Affine(a, kind, timeout) && Alike(kind, l, l) && pods != [] && 0 <= i < |pods|
    requires var r := PodRequest(a, pods, l, now); SelectionRuns.NothingGood(s, r)
    ensures var r := PodRequest(a, pods, l, now);
            var after := Selected(s, r, i);
            r.affinityKey != "" && r.affinityKey in after.affinity &&
            after.affinity[r.affinityKey] == Affinity(PodTargetKey(a.namespace_, pods[i]), now + timeout)
  {
  }

  /**
    A login that the configured affinity takes for the same as an earlier one gets the earlier one's Pod until the
    configured timeout, if that Pod may still be selected; after it, the strategy of the Access chooses again.
   */
  lemma AlikeGetsTheSamePod(a: Access, l: Login, m: Login, kind: string, timeout: int, pods: seq<Pod>, i: int,
                            then_: int, s: State, later: seq<Pod>, j: int, now: int)
    requires Affine(a, kind, timeout) && Alike(kind, l, m) && then_ + timeout != 0
    requires 0 <= i < |pods| && 0 <= j < |later|
    requires SelectionRuns.NothingGood(s, PodRequest(a, pods, l, then_))
    requires Eligible(Selected(s, PodRequest(a, pods, l, then_), i), PodRequest(a, later, m, now), j)
    ensures now <= then_ + timeout && pods[i] in later ==>
              PodTargetKey(a.namespace_, later[j]) == PodTargetKey(a.namespace_, pods[i])
    ensures now > then_ + timeout ==>
              Allowed(Selected(s, PodRequest(a, pods, l, then_), i), PodRequest(a, later, m, now), j)
  {
    RemembersPod(a, pods, l, then_, s, i, kind, timeout);
    SameKey(a, l, m, kind);
    var r := PodRequest(a, later, m, now);
    if pods[i] in later {
      var k :| 0 <= k < |later| && later[k] == pods[i];
      assert r.candidates[k].key == PodTargetKey(a.namespace_, pods[i]);
    }
  }

  lemma SameKey(a: Access, l: Login, m: Login, kind: string)
    requires a.strategy.Some? && a.strategy.value.sessionAffinity.Some?
    requires a.strategy.value.sessionAffinity.value.kind == kind && Alike(kind, l, m)
    ensures AffinityKey(a, l) == AffinityKey(a, m) != ""
  {
  }

  /** Without an affinity, with one of another kind, or with nothing to remember by, nothing is remembered. */
  lemma NotRemembered(a: Access, pods: seq<Pod>, l: Login, now: int, s: State, i: int)
    requires 0 <= i < |pods|
    requires a.strategy.None? || a.strategy.value.sessionAffinity.None? ||
             !Alike(a.strategy.value.sessionAffinity.value.kind, l, l)
    ensures Selected(s, PodRequest(a, pods, l, now), i).affinity == s.affinity
    ensures Eligible(s, PodRequest(a, pods, l, now), i) <==> Allowed(s, PodRequest(a, pods, l, now), i)
  {
  }

  predicate Before(a: Access, p: Pod, q: Pod) {
    Text.AtMost(PodTargetKey(a.namespace_, p), PodTargetKey(a.namespace_, q))
  }

  /** What a choice by the configured strategy is, when nothing is remembered. */
  lemma ConfiguredStrategy(a: Access, pods: seq<Pod>, l: Login, now: int, s: State, i: int, j: int)
    requires 0 <= i < |pods| && 0 <= j < |pods| && a.strategy.Some? && Allowed(s, PodRequest(a, pods, l, now), i)
    ensures a.strategy.value.strategy.Oldest? ==>
              pods[i].createdAt <= pods[j].createdAt &&
              (pods[i].createdAt == pods[j].createdAt ==> Before(a, pods[i], pods[j]))
    ensures a.strategy.value.strategy.Newest? ==>
              pods[i].createdAt >= pods[j].createdAt &&
              (pods[i].createdAt == pods[j].createdAt ==> Before(a, pods[i], pods[j]))
    ensures a.strategy.value.strategy.LeastConnections? ==>
              var r := PodRequest(a, pods, l, now);
              LeastLoaded(s, AccessKey(a.namespace_, a.name), r.candidates, i)
    ensures a.strategy.value.strategy.RoundRobin? ==>
              var cs, turn := PodRequest(a, pods, l, now).candidates, Turn(s, AccessKey(a.namespace_, a.name));
              i == Weighted(cs, Residue(turn, Total(cs)))
  {
    var r := PodRequest(a, pods, l, now);
    assert r.candidates[i].createdAt == pods[i].createdAt && r.candidates[j].createdAt == pods[j].createdAt;
  }

  /** A Pod counts by the weight of the first configured entry whose labels it has. */
  lemma ConfiguredWeight(a: Access, pods: seq<Pod>, l: Login, now: int, i: int, k: nat)
    requires a.strategy.Some? && 0 <= i < |pods| && k <= |a.strategy.value.weights|
    requires var ws := a.strategy.value.weights;
             && (forall m :: 0 <= m < k ==> Lacks(pods[i].labels, ws[m].selector))
             && (k < |ws| ==> !Lacks(pods[i].labels, ws[k].selector))
    ensures var ws := a.strategy.value.weights;
            PodRequest(a, pods, l, now).candidates[i].weight == if k < |ws| && ws[k].weight > 0 then ws[k].weight else 1
  {
    FirstMatchDecides(a.strategy.value.weights, pods[i].labels, k);
    assert PodRequest(a, pods, l, now).candidates[i] == PodCandidate(a, pods[i]);
  }

  /**
    Endpoints are chosen in turn or by their connections if the Access says so, weighted as configured, and at
    random under any other strategy.
   */
  lemma EndpointChoice(a: Access, l: Login, now: int, s: State, i: int)
    requires Weighed(a) && 0 <= i < |a.endpoints|
    ensures var r, e := EndpointRequest(a, l, now), Offered(a)[i];
            && r.candidates[i].key == e.name
            && r.candidates[i].weight == (if e.weight.Some? then e.weight.value else 1)
            && (a.strategy.Some? && a.strategy.value.strategy.RoundRobin? ==>
                  var turn := Turn(s, AccessKey(a.namespace_, a.name));
                  (Allowed(s, r, i) <==> i == Weighted(r.candidates, Residue(turn, Total(r.candidates)))))
            && (a.strategy.Some? && a.strategy.value.strategy.LeastConnections? ==>
                  (Allowed(s, r, i) <==> LeastLoaded(s, AccessKey(a.namespace_, a.name), r.candidates, i)))
            && (a.strategy.None? || a.strategy.value.strategy.Newest? || a.strategy.value.strategy.Oldest? ==>
                  Allowed(s, r, i))
  {
    assert EndpointRequest(a, l, now).candidates[i] == EndpointCandidate(Offered(a)[i]);
  }
}
