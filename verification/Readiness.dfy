/** The Ready condition of an Access, and what it promises about resolution. */
module Readiness {
  import opened Text
  import opened Wrappers
  import opened Credentials
  import opened Pods
  import opened Accesses
  import opened AccessValidation
  import opened Resolver
  import Locators
  import LoginOutcomes
  import Selection

  /** The Ready condition: its status and reason. */
  datatype Condition =
    | InvalidAccess(why: Reason)   // False
    | EndpointsConfigured          // True
    | ListFailed                   // Unknown
    | NoTargets                    // False
    | TargetAvailable              // True

  /** Some credential gets the container of that name, as seen by the status. */
  ghost predicate Exposed(policy: ContainerPolicy, a: Access, container: string, default_: string) {
    exists c :: c in a.credentials && Admits(policy, a, Some(c), container != default_, container, default_)
  }

  /** The first exposed container of a Pod whose default container exists, or nothing. */
  ghost predicate IsStatusContainer(policy: ContainerPolicy, a: Access, p: Pod, r: string) {
    var d := DefaultContainer(p);
    if ContainerOf(p, "").NoContainer? then r == ""
    else if exists i :: 0 <= i < |p.containers| && Exposed(policy, a, p.containers[i], d) then
      exists i :: 0 <= i < |p.containers| && r == p.containers[i] && Exposed(policy, a, r, d) &&
                  forall j :: 0 <= j < i ==> !Exposed(policy, a, p.containers[j], d)
    else r == ""
  }

  method ExposedTo(policy: ContainerPolicy, a: Access, container: string, default_: string) returns (ok: bool)
    ensures ok <==> Exposed(policy, a, container, default_)
  {
    var explicit := container != default_;
    var accessAllowed := ModeAllows(policy.defaultMode, explicit, container, default_);
    if |a.containers| > 0 { accessAllowed := ContainerAllowed(a.containers, container); }
    if !accessAllowed || !ModeAllows(policy.limitMode, explicit, container, default_) { return false; }
    for i := 0 to |a.credentials|
      invariant forall c :: c in a.credentials[..i] ==> !Allows(c.containers, container)
    {
      var allowed := ContainerAllowed(a.credentials[i].containers, container);
      if allowed {
        assert Admits(policy, a, Some(a.credentials[i]), explicit, container, default_);
        return true;
      }
    }
    return false;
  }

  method StatusContainer(policy: ContainerPolicy, a: Access, p: Pod) returns (r: string)
    ensures IsStatusContainer(policy, a, p, r)
  {
    var resolved := ResolveContainer(p, "");
    if resolved.NoContainer? { return ""; }
    for i := 0 to |p.containers|
      invariant forall j :: 0 <= j < i ==> !Exposed(policy, a, p.containers[j], resolved.default_)
    {
      var ok := ExposedTo(policy, a, p.containers[i], resolved.default_);
      if ok { return p.containers[i]; }
    }
    return "";
  }

  /** Pods through which some container is exposed. */
  ghost predicate Selectable(policy: ContainerPolicy, a: Access, p: Pod) {
    exists r :: r != "" && IsStatusContainer(policy, a, p, r)
  }

  ghost function ConditionOf(policy: ContainerPolicy, fp: Fingerprint, cluster: Cluster, a: Access,
                             listed: Option<seq<Pod>>): Condition
  {
    var verdict := VerdictOf(fp, cluster, a);
    if verdict.Invalid? then InvalidAccess(verdict.reason)
    else if a.kind.External? then EndpointsConfigured
    else if listed.None? then ListFailed
    else if exists p :: p in listed.value && Active(p) && Selectable(policy, a, p) then TargetAvailable
    else NoTargets
  }

  lemma OneStatusContainer(policy: ContainerPolicy, a: Access, p: Pod, r: string, s: string)
    requires IsStatusContainer(policy, a, p, r) && IsStatusContainer(policy, a, p, s)
    ensures r == s
  {
    var d := DefaultContainer(p);
    if ContainerOf(p, "").Container? && exists i :: 0 <= i < |p.containers| && Exposed(policy, a, p.containers[i], d) {
      var i :| 0 <= i < |p.containers| && r == p.containers[i] && Exposed(policy, a, r, d) &&
               forall j :: 0 <= j < i ==> !Exposed(policy, a, p.containers[j], d);
      var k :| 0 <= k < |p.containers| && s == p.containers[k] && Exposed(policy, a, s, d) &&
               forall j :: 0 <= j < k ==> !Exposed(policy, a, p.containers[j], d);
      assert !(i < k) && !(k < i);
    }
  }

  method SelectablePods(policy: ContainerPolicy, a: Access, pods: seq<Pod>) returns (selectable: seq<Pod>)
    ensures forall p :: p in selectable <==> p in pods && Selectable(policy, a, p)
  {
    selectable := [];
    for i := 0 to |pods|
      invariant forall p :: p in selectable <==> p in pods[..i] && Selectable(policy, a, p)
    {
      var container := StatusContainer(policy, a, pods[i]);
      forall r | IsStatusContainer(policy, a, pods[i], r)
        ensures r == container
      {
        OneStatusContainer(policy, a, pods[i], r, container);
      }
      assert pods[..i + 1] == pods[..i] + [pods[i]];
      if container != "" { selectable := selectable + [pods[i]]; }
    }
    assert pods[..|pods|] == pods;
  }

  method StatusFor(policy: ContainerPolicy, fp: Fingerprint, cluster: Cluster, a: Access, listed: Option<seq<Pod>>)
    returns (c: Condition)
    ensures c == ConditionOf(policy, fp, cluster, a, listed)
  {
    var verdict := ValidateAccess(fp, cluster, a);
    if verdict.Invalid? { return InvalidAccess(verdict.reason); }
    if a.kind.External? { return EndpointsConfigured; }
    if listed.None? { return ListFailed; }
    var selectable := SelectablePods(policy, a, listed.value);
    var candidates := CandidatePods(selectable);
    CandidatesAre(selectable);
    if |candidates| == 0 { return NoTargets; }
    return TargetAvailable;
  }

  // ---- ready means reachable ----

  /** Names that Kubernetes accepts: none is empty, a Pod does not begin with a dot, a container has none. */
  predicate Proper(p: Pod) {
    p.name != "" && p.name[0] != '.' && forall c :: c in p.containers ==> c != "" && '.' !in c
  }

  /** What Kubernetes guarantees of the Pods of a namespace. */
  predicate WellNamed(pods: seq<Pod>) {
    (forall p, q :: p in pods && q in pods && p.name == q.name ==> p == q) && forall p :: p in pods ==> Proper(p)
  }

  /** An active Pod is literally named like a Pod and a container, and takes precedence. */
  predicate Shadowed(pods: seq<Pod>, pod: string, container: string) {
    exists q :: q in pods && Active(q) && q.name == pod + "." + container
  }

  /** The login of a credential that asks for a Pod and a container by name. */
  function LoginFor(a: Access, username: string, pod: string, container: string): Login {
    Login(a.namespace_ + "." + (a.name + "~" + (pod + "." + container)), "", "",
          map[ACCESS_NAMESPACE := [a.namespace_], ACCESS_NAME := [a.name], CREDENTIAL_USER := [username]])
  }

  lemma ExplicitNames(available: seq<Pod>, p: Pod, container: string)
    requires p in available && p.name != "" && p.name[0] != '.' && container != "" && '.' !in container
    requires !Named(available, p.name + "." + container)
    ensures ExplicitPod(available, p.name + "." + container) == Some(PodLocator(p.name, container))
  {
    LastIndexOfTail(p.name, '.', container);
    var locator := p.name + "." + container;
    assert locator == p.name + ['.'] + container;
    assert locator[0] == p.name[0];
  }

  lemma RequestedIs(store: Store, a: Access, username: string, pod: string, container: string)
    requires a.namespace_ != "" && a.name != "" && Locators.Get(store, a.namespace_, a.name) == Locators.Found(a)
    ensures RequestedAccess(store, LoginFor(a, username, pod, container)) ==
            Requested(Locators.Locator(a.namespace_, a.name, pod + "." + container, ""), a)
  {
    Locators.PodParses(LoginFor(a, username, pod, container).sshUser, a.namespace_, a.name, pod + "." + container);
  }

  lemma ExplicitPlanIs(a: Access, available: seq<Pod>, p: Pod, container: string, locator: string)
    requires locator == p.name + "." + container
    requires p in available && p.name != "" && p.name[0] != '.' && container != "" && '.' !in container
    requires !Named(available, locator) && forall q :: q in available && q.name == p.name ==> q == p
    ensures ExplicitPlan(a, available, locator) == ThePod(a, p, container)
  {
    ExplicitNames(available, p, container);
  }

  /**
    The plan of such a login is that very Pod and container, unless it is shadowed: then it is the Pod of that name
    and its default container.
   */
  lemma PlanIsThePod(pods: seq<Pod>, a: Access, p: Pod, container: string, r: Requested, locator: string)
    requires a.kind.PodAccess?
    requires WellNamed(pods) && p in pods && Active(p) && container in p.containers
    requires locator == p.name + "." + container
    requires r == Requested(Locators.Locator(a.namespace_, a.name, locator, ""), a)
    ensures var plan := PlanFor(r, Some(pods));
            if Shadowed(pods, p.name, container)
            then plan.ThePod? && plan.access == a && plan.pod in pods && Active(plan.pod) && plan.pod.name == locator &&
                 plan.container == ""
            else plan == ThePod(a, p, container)
  {
    AvailableOnes(pods);
    assert Proper(p);
    if !Shadowed(pods, p.name, container) { ExplicitPlanIs(a, Available(pods), p, container, locator); }
  }

  lemma AvailableOnes(pods: seq<Pod>)
    ensures forall p :: p in Available(pods) <==> p in pods && Active(p)
  {
    forall p
      ensures p in Available(pods) <==> p in pods && Active(p)
    {
      AvailableAre(pods, p);
    }
  }

  /** A credential of a valid Access is found by its name. */
  lemma ValidCredentialFound(fp: Fingerprint, cluster: Cluster, a: Access, c: Credential)
    requires VerdictOf(fp, cluster, a).Valid? && c in a.credentials
    ensures CredentialOf(a.credentials, c.username) == Some(c)
  {
    FaultlessFound(fp, SecretsIn(cluster, a.namespace_), a.credentials, c);
  }

  lemma FaultlessFound(fp: Fingerprint, secrets: Secrets, cs: seq<Credential>, c: Credential)
    requires FirstFault(fp, secrets, cs).None? && c in cs
    ensures CredentialOf(cs, c.username) == Some(c)
  {
    var found := CredentialOf(cs, c.username).value;
    SameNameSame(fp, secrets, cs, c, found);
  }

  lemma SameNameSame(fp: Fingerprint, secrets: Secrets, cs: seq<Credential>, c: Credential, d: Credential)
    requires FirstFault(fp, secrets, cs).None? && c in cs && d in cs && c.username == d.username
    ensures c == d
  {
    var i :| 0 <= i < |cs| && cs[i] == c;
    var j :| 0 <= j < |cs| && cs[j] == d;
    if i < j { NamesDiffer(fp, secrets, cs, i, j); }
    if j < i { NamesDiffer(fp, secrets, cs, j, i); }
  }

  lemma NamesDiffer(fp: Fingerprint, secrets: Secrets, cs: seq<Credential>, i: nat, j: nat)
    requires i < j < |cs| && FirstFault(fp, secrets, cs).None?
    ensures cs[i].username != cs[j].username
  {
    FaultlessPrefix(fp, secrets, cs, j);
    FaultlessPrefix(fp, secrets, cs, j + 1);
    FaultStep(fp, secrets, cs, j);
    FaultlessName(fp, secrets, cs[..j], cs[j]);
    NameTaken(cs, i, j);
  }

  lemma NameTaken(cs: seq<Credential>, i: nat, j: nat)
    requires i < j <= |cs|
    ensures cs[i].username in Usernames(cs[..j])
  {
    assert cs[..j][i] == cs[i];
  }

  /** The status asks with `container != default`, a login with a container name; the modes treat them alike. */
  lemma ExplicitIsAdmitted(policy: ContainerPolicy, a: Access, c: Credential, container: string, default_: string)
    ensures Admits(policy, a, Some(c), container != default_, container, default_) <==>
            Admits(policy, a, Some(c), true, container, default_)
  {
  }

  /** A plan that gives the login exactly that Pod and container. */
  ghost predicate Grants(policy: ContainerPolicy, plan: Plan, l: Login, a: Access, p: Pod, container: string) {
    plan == ThePod(a, p, container) && AdmissionOf(policy, a, l, p, container) == Granted(container)
  }

  /** The login that names the Pod and the container gets exactly those. */
  ghost predicate Reachable(policy: ContainerPolicy, store: Store, pods: seq<Pod>, a: Access, c: Credential, p: Pod,
                            container: string)
  {
    var l := LoginFor(a, c.username, p.name, container);
    Grants(policy, PlanOf(store, Some(pods), l), l, a, p, container)
  }

  /** For such a login every run of `Resolve` succeeds with that Pod and container. */
  lemma ReachableIsResolved(policy: ContainerPolicy, store: Store, pods: seq<Pod>, a: Access, c: Credential, p: Pod,
                            container: string, now: int, before: Selection.State, after: Selection.State, o: Outcome)
    requires Reachable(policy, store, pods, a, c, p, container)
    requires var l := LoginFor(a, c.username, p.name, container);
             Follows(policy, PlanOf(store, Some(pods), l), l, now, before, after, o)
    ensures o.PodTarget? && o.pod == p && o.container == container
  {
  }

  lemma AdmittedIsGranted(policy: ContainerPolicy, plan: Plan, l: Login, a: Access, c: Credential, p: Pod,
                          container: string)
    requires plan == ThePod(a, p, container) && container in p.containers && container != ""
    requires CredentialOf(a.credentials, Extra(l, CREDENTIAL_USER)) == Some(c)
    ensures Grants(policy, plan, l, a, p, container) <==>
            Admits(policy, a, Some(c), container != DefaultContainer(p), container, DefaultContainer(p))
  {
    ExplicitIsAdmitted(policy, a, c, container, DefaultContainer(p));
  }

  /** A login that names a Pod and a container gets them exactly when it is admitted and they are not shadowed. */
  lemma ExposedIsReachable(policy: ContainerPolicy, fp: Fingerprint, cluster: Cluster, store: Store, pods: seq<Pod>,
                           a: Access, c: Credential, p: Pod, container: string)
    requires a.namespace_ != "" && a.name != "" && a.kind.PodAccess?
    requires Locators.Get(store, a.namespace_, a.name) == Locators.Found(a)
    requires WellNamed(pods) && p in pods && Active(p) && container in p.containers
    requires VerdictOf(fp, cluster, a).Valid? && c in a.credentials
    ensures Reachable(policy, store, pods, a, c, p, container) <==>
            !Shadowed(pods, p.name, container) &&
            Admits(policy, a, Some(c), container != DefaultContainer(p), container, DefaultContainer(p))
  {
    var l, locator := LoginFor(a, c.username, p.name, container), p.name + "." + container;
    RequestedIs(store, a, c.username, p.name, container);
    PlanIsThePod(pods, a, p, container, RequestedAccess(store, l), locator);
    assert Proper(p);
    if !Shadowed(pods, p.name, container) {
      ValidCredentialFound(fp, cluster, a, c);
      AdmittedIsGranted(policy, PlanFor(RequestedAccess(store, l), Some(pods)), l, a, c, p, container);
    }
  }

  lemma SelectableExposes(policy: ContainerPolicy, a: Access, p: Pod) returns (c: Credential, container: string)
    requires Selectable(policy, a, p)
    ensures c in a.credentials && container in p.containers && DefaultContainer(p) in p.containers
    ensures Admits(policy, a, Some(c), container != DefaultContainer(p), container, DefaultContainer(p))
  {
    container :| container != "" && IsStatusContainer(policy, a, p, container);
    assert exists i :: 0 <= i < |p.containers| && Exposed(policy, a, p.containers[i], DefaultContainer(p));
    assert Exposed(policy, a, container, DefaultContainer(p));
    c :| c in a.credentials &&
         Admits(policy, a, Some(c), container != DefaultContainer(p), container, DefaultContainer(p));
  }

  /**
    An Access that is reported ready can be used: some credential, asking for some Pod and container by name,
    is granted exactly those, unless another active Pod has that very name.
   */
  lemma ReadyMeansReachable(policy: ContainerPolicy, fp: Fingerprint, cluster: Cluster, store: Store, pods: seq<Pod>,
                            a: Access)
    returns (c: Credential, p: Pod, container: string)
    requires a.namespace_ != "" && a.name != "" && a.kind.PodAccess?
    requires Locators.Get(store, a.namespace_, a.name) == Locators.Found(a)
    requires WellNamed(pods)
    requires ConditionOf(policy, fp, cluster, a, Some(pods)) == TargetAvailable
    ensures c in a.credentials && p in pods && Active(p)
    ensures container in p.containers && DefaultContainer(p) in p.containers
    ensures Reachable(policy, store, pods, a, c, p, container) <==> !Shadowed(pods, p.name, container)
  {
    p :| p in pods && Active(p) && Selectable(policy, a, p);
    c, container := SelectableExposes(policy, a, p);
    ExposedIsReachable(policy, fp, cluster, store, pods, a, c, p, container);
  }

  /** Conversely, a valid Access with a reachable container is ready, if that Pod's own default container exists. */
  lemma ReachableMeansReady(policy: ContainerPolicy, fp: Fingerprint, cluster: Cluster, store: Store, pods: seq<Pod>,
                            a: Access, c: Credential, p: Pod, container: string)
    requires a.namespace_ != "" && a.name != "" && a.kind.PodAccess?
    requires Locators.Get(store, a.namespace_, a.name) == Locators.Found(a)
    requires WellNamed(pods) && VerdictOf(fp, cluster, a).Valid?
    requires c in a.credentials && p in pods && Active(p) && container in p.containers
    requires Reachable(policy, store, pods, a, c, p, container) && DefaultContainer(p) in p.containers
    ensures ConditionOf(policy, fp, cluster, a, Some(pods)) == TargetAvailable
  {
    ReachableIsSelectable(policy, fp, cluster, store, pods, a, c, p, container);
    SelectableIsReady(policy, fp, cluster, pods, a, p);
  }

  /** Without such a Pod the Access is not ready, even if a login that names a container would be granted. */
  lemma NotReadyWithoutDefault(policy: ContainerPolicy, fp: Fingerprint, cluster: Cluster, pods: seq<Pod>, a: Access)
    requires VerdictOf(fp, cluster, a).Valid? && a.kind.PodAccess?
    requires forall p :: p in pods && Active(p) ==> DefaultContainer(p) !in p.containers
    ensures ConditionOf(policy, fp, cluster, a, Some(pods)) == NoTargets
  {
    if p :| p in pods && Active(p) && Selectable(policy, a, p) {
      var c, container := SelectableExposes(policy, a, p);
      assert false;
    }
  }

  lemma SelectableIsReady(policy: ContainerPolicy, fp: Fingerprint, cluster: Cluster, pods: seq<Pod>, a: Access, p: Pod)
    requires VerdictOf(fp, cluster, a).Valid? && a.kind.PodAccess? && p in pods && Active(p) && Selectable(policy, a, p)
    ensures ConditionOf(policy, fp, cluster, a, Some(pods)) == TargetAvailable
  {
  }

  lemma ReachableIsSelectable(policy: ContainerPolicy, fp: Fingerprint, cluster: Cluster, store: Store, pods: seq<Pod>,
                              a: Access, c: Credential, p: Pod, container: string)
    requires a.namespace_ != "" && a.name != "" && a.kind.PodAccess?
    requires Locators.Get(store, a.namespace_, a.name) == Locators.Found(a)
    requires WellNamed(pods) && VerdictOf(fp, cluster, a).Valid?
    requires c in a.credentials && p in pods && Active(p) && container in p.containers
    requires Reachable(policy, store, pods, a, c, p, container) && DefaultContainer(p) in p.containers
    ensures Selectable(policy, a, p)
  {
    ExposedIsReachable(policy, fp, cluster, store, pods, a, c, p, container);
    assert Proper(p);
    AdmittedIsSelectable(policy, a, c, p, container);
  }

  lemma AdmittedIsSelectable(policy: ContainerPolicy, a: Access, c: Credential, p: Pod, container: string)
    requires c in a.credentials && container in p.containers && DefaultContainer(p) in p.containers
    requires forall k :: k in p.containers ==> k != ""
    requires Admits(policy, a, Some(c), container != DefaultContainer(p), container, DefaultContainer(p))
    ensures Selectable(policy, a, p)
  {
    var d := DefaultContainer(p);
    assert Exposed(policy, a, container, d);
    var i :| 0 <= i < |p.containers| && p.containers[i] == container;
    var k := FirstExposed(policy, a, p, d, i);
    assert p.containers[k] in p.containers && IsStatusContainer(policy, a, p, p.containers[k]);
  }

  lemma {:induction false} FirstExposed(policy: ContainerPolicy, a: Access, p: Pod, d: string, i: nat) returns (k: nat)
    requires i < |p.containers| && Exposed(policy, a, p.containers[i], d)
    ensures k < |p.containers| && Exposed(policy, a, p.containers[k], d)
    ensures forall j :: 0 <= j < k ==> !Exposed(policy, a, p.containers[j], d)
    decreases i
  {
    if j: nat :| j < i && Exposed(policy, a, p.containers[j], d) {
      k := FirstExposed(policy, a, p, d, j);
    } else {
      k := i;
    }
  }

  // ---- External Accesses ----

  /**
    An External Access is ready exactly when it is valid, and then a login that names it gets an endpoint exactly
    when there is one: it is reported ready without any, too.
   */
  lemma ExternalReady(policy: ContainerPolicy, fp: Fingerprint, cluster: Cluster, store: Store, a: Access,
                      listed: Option<seq<Pod>>, l: Login, now: int, before: Selection.State, after: Selection.State,
                      o: Outcome)
    requires a.kind.External?
    requires LoginOutcomes.Written(store, l, Locators.Locator(a.namespace_, a.name, "", ""), a)
    requires Follows(policy, PlanOf(store, listed, l), l, now, before, after, o)
    ensures ConditionOf(policy, fp, cluster, a, listed) == EndpointsConfigured <==> VerdictOf(fp, cluster, a).Valid?
    ensures o.EndpointTarget? <==> a.endpoints != []
    ensures o.Failure? <==> a.endpoints == []
  {
    var locator := Locators.Locator(a.namespace_, a.name, "", "");
    LoginOutcomes.ExternalLogin(policy, store, listed, l, locator, a, now, before, after, o);
  }

  // ---- an Access that can be used but is never ready ----

  const ALICE: Credential := Credential("alice", ["secret"], [], [], [], [], [], [])
  const APP: Access := Access("ns", "app", PodAccess, [], [ALICE], [], None)
  const APP_STORE: Store := map[("ns", "app") := Locators.Found(APP)]
  const OPEN_POLICY: ContainerPolicy := ContainerPolicy("All", "All")

  /** Its annotation names a container that it does not have. */
  const STRAY: Pod := Pod("ns", "web", map[], "gone", ["main"], false, false, true, 0)

  lemma AliceIsSound(fp: Fingerprint)
    ensures Validate(fp, map[], ALICE).Sound?
  {
    assert PasswordResults(map[], []) == [] && KeyResults(fp, map[], []) == [];
    assert Collect([]) == Good({}) && CheckKeys(fp, [], InvalidCredential).Good?;
  }

  lemma AliceHasAName()
    ensures TrimSpace("alice") != ""
  {
    assert SpaceAt("alice") == 0 && SpaceBefore("alice") == 0;
  }

  lemma AliceIsFaultless(fp: Fingerprint)
    ensures Fault(fp, map[], [], ALICE).None?
  {
    AliceHasAName();
    AliceIsSound(fp);
    assert Usernames([]) == {} && HeldPasswords(fp, map[], []) == {} && HeldKeys(fp, map[], []) == {};
  }

  lemma AppIsValid(fp: Fingerprint)
    ensures VerdictOf(fp, map[], APP).Valid?
  {
    AliceIsFaultless(fp);
    assert [ALICE][..0] == [];
    assert FirstFault(fp, map[], [ALICE]).None?;
  }

  lemma StrayIsNamed()
    ensures WellNamed([STRAY]) && !Shadowed([STRAY], "web", "main")
  {
    assert Proper(STRAY);
    assert |"web" + "." + "main"| != |"web"|;
  }

  /** The Access is valid and the login is granted the container, but the Access is not reported ready. */
  lemma ReachableThoughNotReady(fp: Fingerprint)
    ensures VerdictOf(fp, map[], APP).Valid?
    ensures ConditionOf(OPEN_POLICY, fp, map[], APP, Some([STRAY])) == NoTargets
    ensures Reachable(OPEN_POLICY, APP_STORE, [STRAY], APP, ALICE, STRAY, "main")
  {
    AppIsValid(fp);
    NotReadyWithoutDefault(OPEN_POLICY, fp, map[], [STRAY], APP);
    StrayIsNamed();
    ExposedIsReachable(OPEN_POLICY, fp, map[], APP_STORE, [STRAY], APP, ALICE, STRAY, "main");
  }

  // ---- an Access that is ready though the container of a Pod cannot be asked for ----

  const WEB: Pod := Pod("ns", "web", map[], "", ["main"], false, false, true, 0)
  const WEB_MAIN: Pod := Pod("ns", "web.main", map[], "", ["side"], false, false, true, 0)

  lemma WebIsShadowed()
    ensures WellNamed([WEB, WEB_MAIN]) && Shadowed([WEB, WEB_MAIN], "web", "main")
  {
    assert Proper(WEB) && Proper(WEB_MAIN) && |WEB.name| != |WEB_MAIN.name|;
    assert WEB_MAIN in [WEB, WEB_MAIN] && WEB_MAIN.name == "web" + "." + "main";
  }

  lemma WebIsSelectable()
    ensures Selectable(OPEN_POLICY, APP, WEB)
  {
    assert Admits(OPEN_POLICY, APP, Some(ALICE), false, "main", "main");
    AdmittedIsSelectable(OPEN_POLICY, APP, ALICE, WEB, "main");
  }

  /** The Access is ready because of its Pod "web", but asking for "web.main" reaches another Pod. */
  lemma ReadyThoughShadowed(fp: Fingerprint)
    ensures Selectable(OPEN_POLICY, APP, WEB)
    ensures ConditionOf(OPEN_POLICY, fp, map[], APP, Some([WEB, WEB_MAIN])) == TargetAvailable
    ensures !Reachable(OPEN_POLICY, APP_STORE, [WEB, WEB_MAIN], APP, ALICE, WEB, "main")
  {
    AppIsValid(fp);
    WebIsSelectable();
    SelectableIsReady(OPEN_POLICY, fp, map[], [WEB, WEB_MAIN], APP, WEB);
    WebIsShadowed();
    ExposedIsReachable(OPEN_POLICY, fp, map[], APP_STORE, [WEB, WEB_MAIN], APP, ALICE, WEB, "main");
  }
}
