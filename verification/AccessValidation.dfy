/** The Valid condition of an Access. */
module AccessValidation {
  import opened Text
  import opened Wrappers
  import opened Credentials
  import opened Accesses
  import HostPort

  datatype Verdict = Valid | Invalid(reason: Reason)

  /** The Secrets of every namespace at one moment. */
  type Cluster = map<string, Secrets>

  function SecretsIn(cluster: Cluster, namespace_: string): Secrets {
    if namespace_ in cluster then cluster[namespace_] else map[]
  }

  // ---- the verdict, declaratively ----

  function Usernames(cs: seq<Credential>): set<string> { set c | c in cs :: c.username }

  /** The material of a credential, none when it is unsound. */
  function MaterialOf(fp: Fingerprint, secrets: Secrets, c: Credential): Material {
    MaterialIn(Validate(fp, secrets, c))
  }

  function MaterialIn(v: Validated): Material { if v.Sound? then v.material else Material({}, {}) }

  function HeldPasswords(fp: Fingerprint, secrets: Secrets, cs: seq<Credential>): set<string> {
    set c, v | c in cs && v in MaterialOf(fp, secrets, c).passwords :: v
  }

  function HeldKeys(fp: Fingerprint, secrets: Secrets, cs: seq<Credential>): set<string> {
    set c, v | c in cs && v in MaterialOf(fp, secrets, c).publicKeys :: v
  }

  /** `validForwardExpression`. */
  predicate ForwardExpression(e: string) {
    e == "*" || e == "*:*" || var a := HostPort.Split(e); a.Some? && a.value.host != "" && a.value.port != ""
  }

  predicate GoodCapabilities(c: Credential) {
    (forall e :: e in c.localDestinations ==> ForwardExpression(e)) &&
    (forall e :: e in c.remoteBinds ==> ForwardExpression(e))
  }

  /** What is wrong with a credential that follows those in `before`. */
  function Fault(fp: Fingerprint, secrets: Secrets, before: seq<Credential>, c: Credential): Option<Reason> {
    var name := NameFault(Usernames(before), c.username);
    if name.Some? then name
    else
      MaterialFault(
        Validate(fp, secrets, c),
        HeldPasswords(fp, secrets, before), HeldKeys(fp, secrets, before), GoodCapabilities(c))
  }

  function NameFault(taken: set<string>, username: string): Option<Reason> {
    if TrimSpace(username) == "" then Some(InvalidCredential)
    else if username in taken then Some(DuplicateCredentialIdentity)
    else None
  }

  lemma FaultlessName(fp: Fingerprint, secrets: Secrets, before: seq<Credential>, c: Credential)
    requires Fault(fp, secrets, before, c).None?
    ensures NameFault(Usernames(before), c.username).None?
  {
  }

  function MaterialFault(v: Validated, passwords: set<string>, keys: set<string>, capable: bool): Option<Reason> {
    match v
    case Unsound(reason) => Some(reason)
    case Sound(m) =>
      if m.passwords * passwords != {} || m.publicKeys * keys != {} then Some(DuplicateCredentialMaterial)
      else if !capable then Some(InvalidCapabilityPolicy)
      else None
  }

  /** The fault of the first faulty credential. */
  function FirstFault(fp: Fingerprint, secrets: Secrets, cs: seq<Credential>): Option<Reason> {
    if cs == [] then None
    else
      var before, c := cs[..|cs| - 1], cs[|cs| - 1];
      var earlier := FirstFault(fp, secrets, before);
      if earlier.Some? then earlier else Fault(fp, secrets, before, c)
  }

  /** Containers named by credentials are among those the Access exposes. */
  ghost predicate ContainersExposed(a: Access) {
    a.containers == [] ||
    forall c, name :: c in a.credentials && name in c.containers && name != "*" ==> Allows(a.containers, name)
  }

  ghost function VerdictOf(fp: Fingerprint, cluster: Cluster, a: Access): Verdict {
    var fault := FirstFault(fp, SecretsIn(cluster, a.namespace_), a.credentials);
    if a.credentials == [] then Invalid(NoCredentials)
    else if fault.Some? then Invalid(fault.value)
    else if a.kind.External? || ContainersExposed(a) then Valid
    else Invalid(InvalidContainerPolicy)
  }

  lemma FaultStep(fp: Fingerprint, secrets: Secrets, cs: seq<Credential>, i: nat)
    requires i < |cs| && FirstFault(fp, secrets, cs[..i]).None?
    ensures FirstFault(fp, secrets, cs[..i + 1]) == Fault(fp, secrets, cs[..i], cs[i])
  {
    assert cs[..i + 1][..i] == cs[..i];
  }

  lemma {:induction false} FaultStays(fp: Fingerprint, secrets: Secrets, cs: seq<Credential>, i: nat)
    requires i <= |cs| && FirstFault(fp, secrets, cs[..i]).Some?
    ensures FirstFault(fp, secrets, cs) == FirstFault(fp, secrets, cs[..i])
    decreases |cs| - i
  {
    if i < |cs| {
      assert cs[..i + 1][..i] == cs[..i];
      FaultStays(fp, secrets, cs, i + 1);
    } else {
      assert cs[..i] == cs;
    }
  }

  lemma {:induction false} FaultlessPrefix(fp: Fingerprint, secrets: Secrets, cs: seq<Credential>, i: nat)
    requires i <= |cs| && FirstFault(fp, secrets, cs).None?
    ensures FirstFault(fp, secrets, cs[..i]).None?
  {
    if FirstFault(fp, secrets, cs[..i]).Some? { FaultStays(fp, secrets, cs, i); }
  }

  // ---- the verdict, as it is computed ----

  method ValidateCapabilityPolicy(c: Credential) returns (ok: bool)
    ensures ok == GoodCapabilities(c)
  {
    for i := 0 to |c.localDestinations|
      invariant forall e :: e in c.localDestinations[..i] ==> ForwardExpression(e)
    {
      if !ForwardExpression(c.localDestinations[i]) { return false; }
    }
    for i := 0 to |c.remoteBinds|
      invariant forall e :: e in c.remoteBinds[..i] ==> ForwardExpression(e)
    {
      if !ForwardExpression(c.remoteBinds[i]) { return false; }
    }
    return true;
  }

  /** Enter the values under a user, unless one of them is another user's already. */
  method DuplicateMaterialOwner(owners: map<string, string>, values: set<string>, username: string)
    returns (updated: map<string, string>, duplicate: bool)
    ensures duplicate <==> exists v :: v in values && v in owners && owners[v] != username
    ensures !duplicate ==> updated == owners + map v | v in values :: username
  {
    updated := owners;
    var rest := values;
    while rest != {}
      invariant rest <= values && updated == owners + map v | v in values - rest :: username
      invariant forall v :: v in values - rest && v in owners ==> owners[v] == username
      decreases |rest|
    {
      var value :| value in rest;
      if value in updated && updated[value] != username { return updated, true; }
      updated := updated[value := username];
      rest := rest - {value};
    }
    assert values - rest == values;
    return updated, false;
  }

  /** Each value held so far is entered under one of the users so far. */
  predicate Tracks(owners: map<string, string>, held: set<string>, users: set<string>) {
    owners.Keys == held && forall v :: v in owners ==> owners[v] in users
  }

  lemma TracksFinds(owners: map<string, string>, held: set<string>, users: set<string>, values: set<string>,
                    username: string)
    requires Tracks(owners, held, users) && username !in users
    ensures (exists v :: v in values && v in owners && owners[v] != username) <==> values * held != {}
    ensures Tracks(owners + map v | v in values :: username, held + values, users + {username})
  {
    if v :| v in values && v in owners { assert v in values * held; }
    if v :| v in values * held { assert v in owners.Keys; }
  }

  lemma HeldGrows(fp: Fingerprint, secrets: Secrets, cs: seq<Credential>, i: nat)
    requires i < |cs|
    ensures Usernames(cs[..i + 1]) == Usernames(cs[..i]) + {cs[i].username}
    ensures HeldPasswords(fp, secrets, cs[..i + 1]) ==
              HeldPasswords(fp, secrets, cs[..i]) + MaterialOf(fp, secrets, cs[i]).passwords
    ensures HeldKeys(fp, secrets, cs[..i + 1]) ==
              HeldKeys(fp, secrets, cs[..i]) + MaterialOf(fp, secrets, cs[i]).publicKeys
  {
    assert cs[..i + 1] == cs[..i] + [cs[i]];
  }

  method ValidateCredentials(fp: Fingerprint, secrets: Secrets, cs: seq<Credential>) returns (r: Option<Reason>)
    ensures r == FirstFault(fp, secrets, cs)
  {
    var usernames, passwordOwners, publicKeyOwners := {}, map[], map[];
    for i := 0 to |cs|
      invariant FirstFault(fp, secrets, cs[..i]).None? && usernames == Usernames(cs[..i])
      invariant Tracks(passwordOwners, HeldPasswords(fp, secrets, cs[..i]), usernames)
      invariant Tracks(publicKeyOwners, HeldKeys(fp, secrets, cs[..i]), usernames)
    {
      ghost var held, keys := HeldPasswords(fp, secrets, cs[..i]), HeldKeys(fp, secrets, cs[..i]);
      FaultStep(fp, secrets, cs, i);
      if FirstFault(fp, secrets, cs[..i + 1]).Some? { FaultStays(fp, secrets, cs, i + 1); }
      HeldGrows(fp, secrets, cs, i);
      var c := cs[i];
      if TrimSpace(c.username) == "" { return Some(InvalidCredential); }
      if c.username in usernames { return Some(DuplicateCredentialIdentity); }
      var checked := ValidateCredential(fp, secrets, c);
      if checked.Unsound? { return Some(checked.reason); }
      TracksFinds(passwordOwners, held, usernames, checked.material.passwords, c.username);
      TracksFinds(publicKeyOwners, keys, usernames, checked.material.publicKeys, c.username);
      usernames := usernames + {c.username};
      var duplicate;
      passwordOwners, duplicate := DuplicateMaterialOwner(passwordOwners, checked.material.passwords, c.username);
      if duplicate { return Some(DuplicateCredentialMaterial); }
      publicKeyOwners, duplicate := DuplicateMaterialOwner(publicKeyOwners, checked.material.publicKeys, c.username);
      if duplicate { return Some(DuplicateCredentialMaterial); }
      var ok := ValidateCapabilityPolicy(c);
      if !ok { return Some(InvalidCapabilityPolicy); }
    }
    assert cs[..|cs|] == cs;
    return None;
  }

  method ValidateContainers(a: Access) returns (ok: bool)
    requires a.containers != []
    ensures ok <==> ContainersExposed(a)
  {
    for i := 0 to |a.credentials|
      invariant forall c, name :: c in a.credentials[..i] && name in c.containers && name != "*" ==>
                  Allows(a.containers, name)
    {
      var c := a.credentials[i];
      for j := 0 to |c.containers|
        invariant forall name :: name in c.containers[..j] && name != "*" ==> Allows(a.containers, name)
      {
        var container := c.containers[j];
        if container != "*" {
          var allowed := ContainerAllowed(a.containers, container);
          if !allowed { return false; }
        }
      }
      assert c.containers[..|c.containers|] == c.containers;
      assert a.credentials[..i + 1] == a.credentials[..i] + [c];
    }
    assert a.credentials[..|a.credentials|] == a.credentials;
    return true;
  }

  method ValidateAccess(fp: Fingerprint, cluster: Cluster, a: Access) returns (v: Verdict)
    ensures v == VerdictOf(fp, cluster, a)
  {
    if |a.credentials| == 0 { return Invalid(NoCredentials); }
    var fault := ValidateCredentials(fp, SecretsIn(cluster, a.namespace_), a.credentials);
    if fault.Some? { return Invalid(fault.value); }
    if a.kind.External? { return Valid; }
    if |a.containers| > 0 {
      var ok := ValidateContainers(a);
      if !ok { return Invalid(InvalidContainerPolicy); }
    }
    return Valid;
  }
}
