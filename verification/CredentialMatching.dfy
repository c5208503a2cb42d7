/** Authentication against an Access: finding the one credential that a password or a public key belongs to. */
module CredentialMatching {
  import opened Wrappers
  import opened Credentials
  import opened Accesses
  import opened AccessValidation
  import Locators

  datatype Match = Identity(access: Access, credential: Credential) | NotProvided | Error

  type Store = Locators.Store<Access>

  /** What a username resolves to before authentication. */
  type Found = Locators.Resolution<Access>

  // ---- the outcome, declaratively ----

  /** What each credential holds, in order; `None` where it cannot be read. */
  type Holdings = seq<Option<set<string>>>

  function PasswordHoldings(secrets: Secrets, cs: seq<Credential>): (h: Holdings)
    ensures |h| == |cs|
  {
    if cs == [] then [] else PasswordHoldings(secrets, cs[..|cs| - 1]) + [Passwords(secrets, cs[|cs| - 1])]
  }

  function KeyHoldings(fp: Fingerprint, secrets: Secrets, cs: seq<Credential>): (h: Holdings)
    ensures |h| == |cs|
  {
    if cs == [] then [] else KeyHoldings(fp, secrets, cs[..|cs| - 1]) + [PublicKeys(fp, secrets, cs[|cs| - 1])]
  }

  lemma {:induction false} PasswordsHeldAt(secrets: Secrets, cs: seq<Credential>, i: nat)
    requires i < |cs|
    ensures PasswordHoldings(secrets, cs)[i] == Passwords(secrets, cs[i])
    decreases cs
  {
    if i < |cs| - 1 { PasswordsHeldAt(secrets, cs[..|cs| - 1], i); }
  }

  lemma {:induction false} KeysHeldAt(fp: Fingerprint, secrets: Secrets, cs: seq<Credential>, i: nat)
    requires i < |cs|
    ensures KeyHoldings(fp, secrets, cs)[i] == PublicKeys(fp, secrets, cs[i])
    decreases cs
  {
    if i < |cs| - 1 { KeysHeldAt(fp, secrets, cs[..|cs| - 1], i); }
  }

  lemma HoldingsAt(fp: Fingerprint, secrets: Secrets, cs: seq<Credential>, i: nat)
    requires i < |cs|
    ensures PasswordHoldings(secrets, cs)[i] == Passwords(secrets, cs[i])
    ensures KeyHoldings(fp, secrets, cs)[i] == PublicKeys(fp, secrets, cs[i])
  {
    PasswordsHeldAt(secrets, cs, i);
    KeysHeldAt(fp, secrets, cs, i);
  }

  predicate Readable(h: Holdings, n: nat)
    requires n <= |h|
  {
    forall i :: 0 <= i < n ==> h[i].Some?
  }

  /** The places among the first `n` that hold the value. */
  function Holders(h: Holdings, n: nat, value: string): (r: seq<nat>)
    requires n <= |h|
    ensures forall i :: i in r <==> 0 <= i < n && h[i].Some? && value in h[i].value
    ensures forall a, b :: 0 <= a < b < |r| ==> r[a] < r[b]
  {
    if n == 0 then []
    else
      var init := Holders(h, n - 1, value);
      assert forall a :: 0 <= a < |init| ==> init[a] in init;
      if h[n - 1].Some? && value in h[n - 1].value then init + [n - 1] else init
  }

  /** Every holding must be readable, and exactly one of them must hold the value. */
  function Matched(a: Access, h: Holdings, value: string): Match
    requires |h| == |a.credentials|
  {
    var holders := Holders(h, |h|, value);
    if !Readable(h, |h|) then Error
    else if holders == [] then NotProvided
    else if |holders| > 1 then Error
    else assert holders[0] in holders; Identity(a, a.credentials[holders[0]])
  }

  /** `MatchPassword`, once the username is resolved. */
  function PasswordMatch(cluster: Cluster, found: Found, token: string): Match {
    if token == "" then NotProvided
    else
      match found
      case Failed => Error
      case NotProvided => NotProvided
      case Provided(_, a) => Matched(a, PasswordHoldings(SecretsIn(cluster, a.namespace_), a.credentials), token)
  }

  /** `MatchPublicKey`, once the username is resolved; no key is `None`, otherwise its fingerprint. */
  function KeyMatch(fp: Fingerprint, cluster: Cluster, found: Found, key: Option<string>): Match {
    if key.None? then NotProvided
    else
      match found
      case Failed => Error
      case NotProvided => NotProvided
      case Provided(_, a) => Matched(a, KeyHoldings(fp, SecretsIn(cluster, a.namespace_), a.credentials), key.value)
  }

  // ---- the outcome, as it is computed ----

  lemma UnionStep(sets: seq<Option<set<string>>>, i: nat)
    requires i < |sets|
    ensures Union(sets[..i + 1]) ==
              var init := Union(sets[..i]);
              if init.None? || sets[i].None? then None else Some(init.value + sets[i].value)
  {
    assert sets[..i + 1][..i] == sets[..i];
  }

  lemma {:induction false} UnionStops(sets: seq<Option<set<string>>>, i: nat)
    requires i <= |sets| && Union(sets[..i]).None?
    ensures Union(sets).None?
    decreases |sets| - i
  {
    if i < |sets| {
      UnionStep(sets, i);
      UnionStops(sets, i + 1);
    } else {
      assert sets[..i] == sets;
    }
  }

  method RefPasswords(secrets: Secrets, refs: seq<SecretRef>) returns (r: Option<set<string>>)
    ensures r == Union(TokenSets(secrets, refs))
  {
    ghost var sets := TokenSets(secrets, refs);
    var values := {};
    for i := 0 to |refs|
      invariant Union(sets[..i]) == Some(values)
    {
      UnionStep(sets, i);
      var v := SecretValue(secrets, refs[i]);
      if v.Absent? {
        UnionStops(sets, i + 1);
        return None;
      }
      var tokens := SplitSecretLines(v.data);
      values := values + ToSet(tokens);
    }
    assert sets[..|refs|] == sets;
    return Some(values);
  }

  method CredentialPasswords(secrets: Secrets, c: Credential) returns (r: Option<set<string>>)
    ensures r == Passwords(secrets, c)
  {
    var values := {};
    for i := 0 to |c.passwords|
      invariant values == set p | p in c.passwords[..i] && p != ""
    {
      assert c.passwords[..i + 1] == c.passwords[..i] + [c.passwords[i]];
      if c.passwords[i] != "" { values := values + {c.passwords[i]}; }
    }
    assert c.passwords[..|c.passwords|] == c.passwords;
    var refs := RefPasswords(secrets, c.passwordsFrom);
    if refs.None? { return None; }
    return Some(values + refs.value);
  }

  method FingerprintLines(fp: Fingerprint, lines: seq<string>) returns (r: Option<set<string>>)
    ensures r == FingerprintsOf(fp, lines)
  {
    var values := {};
    for i := 0 to |lines|
      invariant forall l :: l in lines[..i] ==> fp(l) != ""
      invariant values == set l | l in lines[..i] :: fp(l)
    {
      assert lines[..i + 1] == lines[..i] + [lines[i]];
      var fingerprint := fp(lines[i]);
      if fingerprint == "" { return None; }
      values := values + {fingerprint};
    }
    assert lines[..|lines|] == lines;
    return Some(values);
  }

  method RefPublicKeys(fp: Fingerprint, secrets: Secrets, refs: seq<SecretRef>) returns (r: Option<set<string>>)
    ensures r == Union(KeySets(fp, secrets, refs))
  {
    ghost var sets := KeySets(fp, secrets, refs);
    var values := {};
    for i := 0 to |refs|
      invariant Union(sets[..i]) == Some(values)
    {
      UnionStep(sets, i);
      var v := SecretValue(secrets, refs[i]);
      if v.Absent? {
        UnionStops(sets, i + 1);
        return None;
      }
      var lines := SplitSecretLines(v.data);
      var keys := FingerprintLines(fp, lines);
      if keys.None? {
        UnionStops(sets, i + 1);
        return None;
      }
      values := values + keys.value;
    }
    assert sets[..|refs|] == sets;
    return Some(values);
  }

  method CredentialPublicKeys(fp: Fingerprint, secrets: Secrets, c: Credential) returns (r: Option<set<string>>)
    ensures r == PublicKeys(fp, secrets, c)
  {
    var inline := FingerprintLines(fp, c.publicKeys);
    if inline.None? { return None; }
    var refs := RefPublicKeys(fp, secrets, c.publicKeysFrom);
    if refs.None? { return None; }
    return Some(inline.value + refs.value);
  }

  /** The decision over the places that match. */
  method CredentialMatch(a: Access, ghost h: Holdings, value: string, matches: seq<nat>) returns (m: Match)
    requires |h| == |a.credentials| && Readable(h, |h|) && matches == Holders(h, |h|, value)
    ensures m == Matched(a, h, value)
  {
    if |matches| == 0 { return NotProvided; }
    if |matches| > 1 { return Error; }
    assert matches[0] in matches;
    return Identity(a, a.credentials[matches[0]]);
  }

  /** The first `i` places have been read and searched. */
  predicate Scanned(h: Holdings, i: nat, value: string, matches: seq<nat>) {
    i <= |h| && Readable(h, i) && matches == Holders(h, i, value)
  }

  lemma ScanStep(h: Holdings, i: nat, value: string, matches: seq<nat>)
    requires i < |h| && Scanned(h, i, value, matches) && h[i].Some?
    ensures Scanned(h, i + 1, value, if value in h[i].value then matches + [i] else matches)
  {
  }

  /** What one more place adds to the matches; `None` when it cannot be read. */
  method Scan(values: Option<set<string>>, ghost h: Holdings, i: nat, value: string, matches: seq<nat>)
    returns (r: Option<seq<nat>>)
    requires i < |h| && values == h[i] && Scanned(h, i, value, matches)
    ensures if r.Some? then Scanned(h, i + 1, value, r.value) else !Readable(h, |h|)
  {
    if values.None? { return None; }
    ScanStep(h, i, value, matches);
    return Some(if value in values.value then matches + [i] else matches);
  }

  method PasswordHolders(secrets: Secrets, cs: seq<Credential>, token: string) returns (r: Option<seq<nat>>)
    ensures var h := PasswordHoldings(secrets, cs); r == if Readable(h, |h|) then Some(Holders(h, |h|, token)) else None
  {
    ghost var h := PasswordHoldings(secrets, cs);
    r := Some([]);
    for i := 0 to |cs|
      invariant r.Some? && Scanned(h, i, token, r.value)
    {
      var values := CredentialPasswords(secrets, cs[i]);
      PasswordsHeldAt(secrets, cs, i);
      r := Scan(values, h, i, token, r.value);
      if r.None? { return; }
    }
  }

  method MatchPassword(cluster: Cluster, store: Store, user: string, token: string) returns (m: Match)
    ensures m == PasswordMatch(cluster, Locators.Resolve(store, user), token)
  {
    if token == "" { return NotProvided; }
    var found := Locators.Resolve(store, user);
    if found.Failed? { return Error; }
    if found.NotProvided? { return NotProvided; }
    var a := found.access;
    var secrets := SecretsIn(cluster, a.namespace_);
    var matches := PasswordHolders(secrets, a.credentials, token);
    if matches.None? { return Error; }
    m := CredentialMatch(a, PasswordHoldings(secrets, a.credentials), token, matches.value);
  }

  method KeyHolders(fp: Fingerprint, secrets: Secrets, cs: seq<Credential>, fingerprint: string)
    returns (r: Option<seq<nat>>)
    ensures var h := KeyHoldings(fp, secrets, cs);
            r == if Readable(h, |h|) then Some(Holders(h, |h|, fingerprint)) else None
  {
    ghost var h := KeyHoldings(fp, secrets, cs);
    r := Some([]);
    for i := 0 to |cs|
      invariant r.Some? && Scanned(h, i, fingerprint, r.value)
    {
      var values := CredentialPublicKeys(fp, secrets, cs[i]);
      KeysHeldAt(fp, secrets, cs, i);
      r := Scan(values, h, i, fingerprint, r.value);
      if r.None? { return; }
    }
  }

  method MatchPublicKey(fp: Fingerprint, cluster: Cluster, store: Store, user: string, key: Option<string>)
    returns (m: Match)
    ensures m == KeyMatch(fp, cluster, Locators.Resolve(store, user), key)
  {
    if key.None? { return NotProvided; }
    var found := Locators.Resolve(store, user);
    if found.Failed? { return Error; }
    if found.NotProvided? { return NotProvided; }
    var a := found.access;
    var secrets := SecretsIn(cluster, a.namespace_);
    var matches := KeyHolders(fp, secrets, a.credentials, key.value);
    if matches.None? { return Error; }
    m := CredentialMatch(a, KeyHoldings(fp, secrets, a.credentials), key.value, matches.value);
  }

  // ---- validation agrees with matching ----

  /** A credential without fault holds what its material says, and shares none of it with earlier ones. */
  lemma Faultless(fp: Fingerprint, secrets: Secrets, cs: seq<Credential>, i: nat)
    requires i < |cs| && FirstFault(fp, secrets, cs).None?
    ensures var m := MaterialOf(fp, secrets, cs[i]);
            && Passwords(secrets, cs[i]) == Some(m.passwords) && "" !in m.passwords
            && PublicKeys(fp, secrets, cs[i]) == Some(m.publicKeys)
            && m.passwords !! HeldPasswords(fp, secrets, cs[..i])
            && m.publicKeys !! HeldKeys(fp, secrets, cs[..i])
  {
    FaultlessPrefix(fp, secrets, cs, i);
    FaultlessPrefix(fp, secrets, cs, i + 1);
    FaultStep(fp, secrets, cs, i);
    NoFault(Validate(fp, secrets, cs[i]), HeldPasswords(fp, secrets, cs[..i]), HeldKeys(fp, secrets, cs[..i]),
            GoodCapabilities(cs[i]));
    ValidatedIsMatched(fp, secrets, cs[i]);
  }

  lemma NoFault(v: Validated, passwords: set<string>, keys: set<string>, capable: bool)
    requires MaterialFault(v, passwords, keys, capable).None?
    ensures v.Sound? && v.material.passwords !! passwords && v.material.publicKeys !! keys
  {
    Disjoint(v.material.passwords, passwords);
    Disjoint(v.material.publicKeys, keys);
  }

  lemma Disjoint(a: set<string>, b: set<string>)
    requires a * b == {}
    ensures a !! b
  {
    assert forall x :: x in a && x in b ==> x in a * b;
  }

  /** No two places hold the same value. */
  predicate Exclusive(h: Holdings) {
    Readable(h, |h|) && forall i, j :: 0 <= i < j < |h| ==> h[i].value !! h[j].value
  }

  lemma FaultlessIsExclusive(fp: Fingerprint, secrets: Secrets, cs: seq<Credential>)
    requires FirstFault(fp, secrets, cs).None?
    ensures Exclusive(PasswordHoldings(secrets, cs)) && Exclusive(KeyHoldings(fp, secrets, cs))
  {
    var p, k := PasswordHoldings(secrets, cs), KeyHoldings(fp, secrets, cs);
    forall i | 0 <= i < |cs|
      ensures p[i].Some? && k[i].Some?
    {
      HoldingsAt(fp, secrets, cs, i);
      Faultless(fp, secrets, cs, i);
    }
    forall i, j | 0 <= i < j < |cs|
      ensures p[i].value !! p[j].value && k[i].value !! k[j].value
    {
      HoldingsAt(fp, secrets, cs, i);
      HoldingsAt(fp, secrets, cs, j);
      DisjointAt(fp, secrets, cs, i, j);
    }
  }

  lemma DisjointAt(fp: Fingerprint, secrets: Secrets, cs: seq<Credential>, i: nat, j: nat)
    requires i < j < |cs| && FirstFault(fp, secrets, cs).None?
    ensures var p, q := Passwords(secrets, cs[i]), Passwords(secrets, cs[j]);
            p.Some? && q.Some? && p.value !! q.value
    ensures var p, q := PublicKeys(fp, secrets, cs[i]), PublicKeys(fp, secrets, cs[j]);
            p.Some? && q.Some? && p.value !! q.value
  {
    Faultless(fp, secrets, cs, i);
    Faultless(fp, secrets, cs, j);
    assert cs[..j][i] == cs[i];
    var m := MaterialOf(fp, secrets, cs[i]);
    assert m.passwords <= HeldPasswords(fp, secrets, cs[..j]);
    assert m.publicKeys <= HeldKeys(fp, secrets, cs[..j]);
  }

  /** The one holder, or nothing; never an error. */
  predicate Decides(m: Match, a: Access, h: Holdings, value: string)
    requires |h| == |a.credentials|
  {
    && (m.NotProvided? <==> forall i :: 0 <= i < |h| ==> h[i].Some? && value !in h[i].value)
    && (forall i :: 0 <= i < |h| ==> h[i].Some? && (value in h[i].value ==> m == Identity(a, a.credentials[i])))
    && !m.Error?
  }

  lemma TwoOf(h: Holdings, value: string) returns (i: nat, j: nat)
    requires |Holders(h, |h|, value)| > 1
    ensures i < j < |h| && h[i].Some? && h[j].Some? && value in h[i].value && value in h[j].value
  {
    var holders := Holders(h, |h|, value);
    assert holders[0] in holders && holders[1] in holders;
    i, j := holders[0], holders[1];
  }

  lemma ExclusiveDecides(a: Access, h: Holdings, value: string)
    requires |h| == |a.credentials| && Exclusive(h)
    ensures Decides(Matched(a, h, value), a, h, value)
  {
    var holders := Holders(h, |h|, value);
    if |holders| > 1 {
      var i, j := TwoOf(h, value);
      assert false;
    }
    forall i | 0 <= i < |h| && value in h[i].value
      ensures holders == [i]
    {
      assert i in holders;
    }
    if holders == [] {
      forall i | 0 <= i < |h|
        ensures value !in h[i].value
      {
        assert i !in holders;
      }
    } else {
      assert holders[0] in holders;
    }
  }

  /**
    On one snapshot, against an Access that is reported valid, a password or a key is never an error: it
    belongs to the one credential that holds it, or to none.
   */
  lemma ValidMeansDecided(fp: Fingerprint, cluster: Cluster, found: Found, a: Access, value: string)
    requires found.Provided? && found.access == a
    requires VerdictOf(fp, cluster, a).Valid?
    ensures var secrets := SecretsIn(cluster, a.namespace_);
            && Decides(PasswordMatch(cluster, found, value), a, PasswordHoldings(secrets, a.credentials), value)
            && Decides(KeyMatch(fp, cluster, found, Some(value)), a,
                       KeyHoldings(fp, secrets, a.credentials), value)
  {
    var secrets := SecretsIn(cluster, a.namespace_);
    var p, k := PasswordHoldings(secrets, a.credentials), KeyHoldings(fp, secrets, a.credentials);
    FaultlessIsExclusive(fp, secrets, a.credentials);
    ExclusiveDecides(a, k, value);
    if value != "" {
      ExclusiveDecides(a, p, value);
    } else {
      forall i | 0 <= i < |p|
        ensures p[i].Some? && value !in p[i].value
      {
        HoldingsAt(fp, secrets, a.credentials, i);
        Faultless(fp, secrets, a.credentials, i);
      }
    }
  }

  /** What authentication finds is the material that validation collected. */
  lemma HoldingsAreMaterial(fp: Fingerprint, secrets: Secrets, cs: seq<Credential>)
    requires FirstFault(fp, secrets, cs).None?
    ensures forall i :: 0 <= i < |cs| ==>
              PasswordHoldings(secrets, cs)[i] == Some(MaterialOf(fp, secrets, cs[i]).passwords) &&
              KeyHoldings(fp, secrets, cs)[i] == Some(MaterialOf(fp, secrets, cs[i]).publicKeys)
  {
    forall i | 0 <= i < |cs|
      ensures PasswordHoldings(secrets, cs)[i] == Some(MaterialOf(fp, secrets, cs[i]).passwords)
      ensures KeyHoldings(fp, secrets, cs)[i] == Some(MaterialOf(fp, secrets, cs[i]).publicKeys)
    {
      HoldingsAt(fp, secrets, cs, i);
      Faultless(fp, secrets, cs, i);
    }
  }

  // ---- what is rejected as duplicate is ambiguous ----

  lemma {:induction false} FaultPlace(fp: Fingerprint, secrets: Secrets, cs: seq<Credential>) returns (i: nat)
    requires FirstFault(fp, secrets, cs).Some?
    ensures i < |cs| && FirstFault(fp, secrets, cs[..i]).None?
    ensures FirstFault(fp, secrets, cs) == Fault(fp, secrets, cs[..i], cs[i])
    decreases cs
  {
    var n := |cs| - 1;
    if FirstFault(fp, secrets, cs[..n]).Some? {
      i := FaultPlace(fp, secrets, cs[..n]);
      assert cs[..n][..i] == cs[..i];
    } else {
      i := n;
    }
  }

  lemma TwoHolders(a: Access, h: Holdings, value: string, i: nat, j: nat)
    requires i < j < |h| == |a.credentials| && h[i].Some? && h[j].Some? && value in h[i].value && value in h[j].value
    ensures Matched(a, h, value) == Error
  {
    var holders := Holders(h, |h|, value);
    assert i in holders && j in holders;
  }

  /** A duplicate is reported only when some password or key maps to two credentials. */
  lemma DuplicateIsAmbiguous(fp: Fingerprint, cluster: Cluster, found: Found, a: Access)
    returns (value: string)
    requires found.Provided? && found.access == a
    requires VerdictOf(fp, cluster, a) == Invalid(DuplicateCredentialMaterial)
    ensures PasswordMatch(cluster, found, value) == Error || KeyMatch(fp, cluster, found, Some(value)) == Error
  {
    var secrets := SecretsIn(cluster, a.namespace_);
    var key;
    value, key := AmbiguousValue(fp, secrets, a);
  }

  lemma AmbiguousValue(fp: Fingerprint, secrets: Secrets, a: Access) returns (value: string, key: bool)
    requires FirstFault(fp, secrets, a.credentials) == Some(DuplicateCredentialMaterial)
    ensures key ==> Matched(a, KeyHoldings(fp, secrets, a.credentials), value) == Error
    ensures !key ==> value != "" && Matched(a, PasswordHoldings(secrets, a.credentials), value) == Error
  {
    var cs := a.credentials;
    var i := FaultPlace(fp, secrets, cs);
    value, key := SharedValue(fp, secrets, cs, i);
    HoldingsAt(fp, secrets, cs, i);
    if key {
      var j := KeyHolderBefore(fp, secrets, cs, i, value);
      HoldingsAt(fp, secrets, cs, j);
      TwoHolders(a, KeyHoldings(fp, secrets, cs), value, j, i);
    } else {
      var j := HolderBefore(fp, secrets, cs, i, value);
      HoldingsAt(fp, secrets, cs, j);
      TwoHolders(a, PasswordHoldings(secrets, cs), value, j, i);
    }
  }

  /** The value that a credential shares with an earlier one, and whether it is a key. */
  lemma SharedValue(fp: Fingerprint, secrets: Secrets, cs: seq<Credential>, i: nat) returns (value: string, key: bool)
    requires i < |cs| && Fault(fp, secrets, cs[..i], cs[i]) == Some(DuplicateCredentialMaterial)
    ensures key ==> value in HeldKeys(fp, secrets, cs[..i]) && PublicKeys(fp, secrets, cs[i]).Some? &&
                    value in PublicKeys(fp, secrets, cs[i]).value
    ensures !key ==> value in HeldPasswords(fp, secrets, cs[..i]) && value != "" && Passwords(secrets, cs[i]).Some? &&
                     value in Passwords(secrets, cs[i]).value
  {
    var v := Validate(fp, secrets, cs[i]);
    NotDuplicate(fp, secrets, cs[i]);
    var passwords, keys := HeldPasswords(fp, secrets, cs[..i]), HeldKeys(fp, secrets, cs[..i]);
    value, key := Shared(v, passwords, keys, GoodCapabilities(cs[i]));
    ValidatedIsMatched(fp, secrets, cs[i]);
  }

  lemma Shared(v: Validated, passwords: set<string>, keys: set<string>, capable: bool)
    returns (value: string, key: bool)
    requires MaterialFault(v, passwords, keys, capable) == Some(DuplicateCredentialMaterial)
    requires v != Unsound(DuplicateCredentialMaterial)
    ensures v.Sound? && if key then value in v.material.publicKeys && value in keys
                        else value in v.material.passwords && value in passwords
  {
    key := v.material.passwords * passwords == {};
    if key {
      value :| value in v.material.publicKeys * keys;
    } else {
      value :| value in v.material.passwords * passwords;
    }
  }

  /** A single credential is never faulted for duplicates. */
  lemma NotDuplicate(fp: Fingerprint, secrets: Secrets, c: Credential)
    ensures Validate(fp, secrets, c) != Unsound(DuplicateCredentialMaterial)
  {
    PasswordReasons(secrets, c.passwordsFrom);
    KeyReasons(fp, secrets, c.publicKeysFrom);
  }

  lemma PasswordReasons(secrets: Secrets, refs: seq<SecretRef>)
    ensures Collect(PasswordResults(secrets, refs)) != Bad(DuplicateCredentialMaterial)
  {
    CollectReason(PasswordResults(secrets, refs));
  }

  lemma KeyReasons(fp: Fingerprint, secrets: Secrets, refs: seq<SecretRef>)
    ensures Collect(KeyResults(fp, secrets, refs)) != Bad(DuplicateCredentialMaterial)
  {
    CollectReason(KeyResults(fp, secrets, refs));
  }

  lemma {:induction false} CollectReason(results: seq<Checked>)
    requires forall i :: 0 <= i < |results| ==> results[i] != Bad(DuplicateCredentialMaterial)
    ensures Collect(results) != Bad(DuplicateCredentialMaterial)
    decreases results
  {
    if results != [] { CollectReason(results[..|results| - 1]); }
  }

  lemma HolderBefore(fp: Fingerprint, secrets: Secrets, cs: seq<Credential>, i: nat, value: string) returns (j: nat)
    requires i <= |cs| && FirstFault(fp, secrets, cs[..i]).None? && value in HeldPasswords(fp, secrets, cs[..i])
    ensures j < i && Passwords(secrets, cs[j]).Some? && value in Passwords(secrets, cs[j]).value
  {
    var c :| c in cs[..i] && value in MaterialOf(fp, secrets, c).passwords;
    j :| 0 <= j < i && cs[..i][j] == c;
    Faultless(fp, secrets, cs[..i], j);
  }

  lemma KeyHolderBefore(fp: Fingerprint, secrets: Secrets, cs: seq<Credential>, i: nat, value: string) returns (j: nat)
    requires i <= |cs| && FirstFault(fp, secrets, cs[..i]).None? && value in HeldKeys(fp, secrets, cs[..i])
    ensures j < i && PublicKeys(fp, secrets, cs[j]).Some? && value in PublicKeys(fp, secrets, cs[j]).value
  {
    var c :| c in cs[..i] && value in MaterialOf(fp, secrets, c).publicKeys;
    j :| 0 <= j < i && cs[..i][j] == c;
    Faultless(fp, secrets, cs[..i], j);
  }
}
