/** What a valid Access is, and whom a password or a key belongs to, written out on the stored objects. */
module ValidAccess {
  import opened Text
  import opened Wrappers
  import opened Credentials
  import opened Accesses
  import opened AccessValidation
  import opened CredentialMatching
  import HostPort
  import Locators
  import Wildcard

  // ---- what a reference holds ----

  /** The reference is complete and the Secret has the data key. */
  predicate Stored(secrets: Secrets, ref: SecretRef) {
    ref.name != "" && ref.key != "" && ref.name in secrets && ref.key in secrets[ref.name]
  }

  /** A line of the Secret value, without the white space around it, that is not blank. */
  predicate Token(secrets: Secrets, ref: SecretRef, t: string) {
    && Stored(secrets, ref) && t != ""
    && exists line :: line in Split(secrets[ref.name][ref.key], '\n') && TrimSpace(line) == t
  }

  lemma SecretValueIs(secrets: Secrets, ref: SecretRef)
    ensures SecretValue(secrets, ref).Value? <==> Stored(secrets, ref)
    ensures Stored(secrets, ref) ==> SecretValue(secrets, ref).data == secrets[ref.name][ref.key]
  {
  }

  lemma LinesAreTokens(secrets: Secrets, ref: SecretRef, t: string)
    requires Stored(secrets, ref)
    ensures t in SecretLines(secrets[ref.name][ref.key]) <==> Token(secrets, ref, t)
  {
    SecretTokens(secrets[ref.name][ref.key], t);
  }

  /** Why a reference cannot be used. */
  lemma ReasonOfReference(secrets: Secrets, ref: SecretRef)
    requires CheckPasswordRef(secrets, ref).Bad?
    ensures var reason := CheckPasswordRef(secrets, ref).reason;
            && (reason == SecretNotFound <==> ref.name != "" && ref.key != "" && ref.name !in secrets)
            && (reason == SecretKeyNotFound <==>
                  ref.name != "" && ref.key != "" && ref.name in secrets && ref.key !in secrets[ref.name])
            && reason in {InvalidSecretRef, SecretNotFound, SecretKeyNotFound}
  {
  }

  /** The Secret value has some token. */
  ghost predicate Usable(secrets: Secrets, ref: SecretRef) { exists t :: Token(secrets, ref, t) }

  lemma PasswordRefIs(secrets: Secrets, ref: SecretRef)
    ensures CheckPasswordRef(secrets, ref).Good? <==> Usable(secrets, ref)
    ensures CheckPasswordRef(secrets, ref).Good? ==>
              forall t :: t in CheckPasswordRef(secrets, ref).values <==> Token(secrets, ref, t)
  {
    SecretValueIs(secrets, ref);
    if Stored(secrets, ref) {
      var lines := SecretLines(secrets[ref.name][ref.key]);
      forall t ensures t in lines <==> Token(secrets, ref, t) { LinesAreTokens(secrets, ref, t); }
      if lines != [] { assert lines[0] in lines; }
    }
  }

  /** A reference to keys: it has some, and each of them has a fingerprint. */
  ghost predicate KeyRef(fp: Fingerprint, secrets: Secrets, ref: SecretRef) {
    Usable(secrets, ref) && forall t :: Token(secrets, ref, t) ==> fp(t) != ""
  }

  /** Some token of the Secret value has this fingerprint. */
  ghost predicate HoldsKey(fp: Fingerprint, secrets: Secrets, ref: SecretRef, f: string) {
    exists t :: Token(secrets, ref, t) && fp(t) == f
  }

  lemma KeyRefIs(fp: Fingerprint, secrets: Secrets, ref: SecretRef)
    ensures CheckKeyRef(fp, secrets, ref).Good? <==> KeyRef(fp, secrets, ref)
    ensures CheckKeyRef(fp, secrets, ref).Good? ==>
              forall f :: f in CheckKeyRef(fp, secrets, ref).values <==> HoldsKey(fp, secrets, ref, f)
  {
    SecretValueIs(secrets, ref);
    if Stored(secrets, ref) {
      var lines := SecretLines(secrets[ref.name][ref.key]);
      forall t ensures t in lines <==> Token(secrets, ref, t) { LinesAreTokens(secrets, ref, t); }
      if lines != [] { assert lines[0] in lines; }
    }
  }

  lemma {:induction false} CollectIs(results: seq<Checked>, v: string)
    ensures Collect(results).Good? <==> forall i :: 0 <= i < |results| ==> results[i].Good?
    ensures Collect(results).Good? ==>
              (v in Collect(results).values <==> exists i :: 0 <= i < |results| && v in results[i].values)
    decreases results
  {
    if results != [] {
      var n := |results| - 1;
      CollectIs(results[..n], v);
      assert forall i :: 0 <= i < n ==> results[..n][i] == results[i];
      if Collect(results).Good? && v in Collect(results[..n]).values {
        var i :| 0 <= i < n && v in results[..n][i].values;
        assert v in results[i].values;
      }
      if Collect(results).Good? && exists i :: 0 <= i < |results| && v in results[i].values {
        var i :| 0 <= i < |results| && v in results[i].values;
        assert i < n ==> v in results[..n][i].values;
      }
    }
  }

  // ---- a credential ----

  predicate HasPassword(secrets: Secrets, c: Credential, v: string) {
    v in c.passwords || exists ref :: ref in c.passwordsFrom && Token(secrets, ref, v)
  }

  ghost predicate HasKey(fp: Fingerprint, secrets: Secrets, c: Credential, f: string) {
    (exists k :: k in c.publicKeys && fp(k) == f) ||
    exists ref :: ref in c.publicKeysFrom && HoldsKey(fp, secrets, ref, f)
  }

  /** Some material, no empty password, every reference usable and every key with a fingerprint. */
  ghost predicate GoodCredential(fp: Fingerprint, secrets: Secrets, c: Credential) {
    && |c.passwords| + |c.publicKeys| + |c.passwordsFrom| + |c.publicKeysFrom| > 0
    && "" !in c.passwords && (forall k :: k in c.publicKeys ==> fp(k) != "")
    && (forall ref :: ref in c.passwordsFrom ==> Usable(secrets, ref))
    && (forall ref :: ref in c.publicKeysFrom ==> KeyRef(fp, secrets, ref))
  }

  lemma PasswordRefsAre(secrets: Secrets, refs: seq<SecretRef>, v: string)
    ensures var r := Collect(PasswordResults(secrets, refs));
            && (r.Good? <==> forall ref :: ref in refs ==> Usable(secrets, ref))
            && (r.Good? ==> (v in r.values <==> exists ref :: ref in refs && Token(secrets, ref, v)))
  {
    var results := PasswordResults(secrets, refs);
    CollectIs(results, v);
    forall i | 0 <= i < |refs|
      ensures results[i].Good? <==> Usable(secrets, refs[i])
      ensures results[i].Good? ==> (v in results[i].values <==> Token(secrets, refs[i], v))
    {
      PasswordRefIs(secrets, refs[i]);
    }
    assert forall i :: 0 <= i < |refs| ==> refs[i] in refs;
    if Collect(results).Good? {
      if ref :| ref in refs && Token(secrets, ref, v) {
        var i :| 0 <= i < |refs| && refs[i] == ref;
        assert v in results[i].values;
      }
    }
  }

  lemma KeyRefsAre(fp: Fingerprint, secrets: Secrets, refs: seq<SecretRef>, f: string)
    ensures var r := Collect(KeyResults(fp, secrets, refs));
            && (r.Good? <==> forall ref :: ref in refs ==> KeyRef(fp, secrets, ref))
            && (r.Good? ==> (f in r.values <==> exists ref :: ref in refs && HoldsKey(fp, secrets, ref, f)))
  {
    var results := KeyResults(fp, secrets, refs);
    CollectIs(results, f);
    forall i | 0 <= i < |refs|
      ensures results[i].Good? <==> KeyRef(fp, secrets, refs[i])
      ensures results[i].Good? ==> (f in results[i].values <==> HoldsKey(fp, secrets, refs[i], f))
    {
      KeyRefIs(fp, secrets, refs[i]);
    }
    if Collect(results).Good? {
      if ref :| ref in refs && HoldsKey(fp, secrets, ref, f) {
        var i :| 0 <= i < |refs| && refs[i] == ref;
        assert f in results[i].values;
      }
    }
  }

  /** Validation accepts exactly the good credentials, and collects exactly what they have. */
  lemma SoundIsGood(fp: Fingerprint, secrets: Secrets, c: Credential, v: string)
    ensures Validate(fp, secrets, c).Sound? <==> GoodCredential(fp, secrets, c)
    ensures Validate(fp, secrets, c).Sound? ==>
              var m := Validate(fp, secrets, c).material;
              (v in m.passwords <==> HasPassword(secrets, c, v)) && (v in m.publicKeys <==> HasKey(fp, secrets, c, v))
  {
    PasswordRefsAre(secrets, c.passwordsFrom, v);
    KeyRefsAre(fp, secrets, c.publicKeysFrom, v);
  }

  // ---- an Access ----

  /** A forwarding rule: everything, or a host and a port that are both there. */
  predicate Rule(e: string) {
    e == "*" || e == "*:*" ||
    (HostPort.Split(e).Some? && HostPort.Split(e).value.host != "" && HostPort.Split(e).value.port != "")
  }

  ghost predicate Sharing(fp: Fingerprint, secrets: Secrets, c: Credential, d: Credential) {
    (exists v :: HasPassword(secrets, c, v) && HasPassword(secrets, d, v)) ||
    (exists f :: HasKey(fp, secrets, c, f) && HasKey(fp, secrets, d, f))
  }

  /** A credential that is fine on its own. */
  ghost predicate Fine(fp: Fingerprint, secrets: Secrets, c: Credential) {
    && TrimSpace(c.username) != "" && GoodCredential(fp, secrets, c)
    && forall e :: e in c.localDestinations || e in c.remoteBinds ==> Rule(e)
  }

  ghost predicate Unlike(fp: Fingerprint, secrets: Secrets, c: Credential, d: Credential) {
    c.username != d.username && !Sharing(fp, secrets, c, d)
  }

  /** Each is fine, and no two have the same name or share a password or a key. */
  ghost predicate FineTogether(fp: Fingerprint, secrets: Secrets, cs: seq<Credential>) {
    && (forall c :: c in cs ==> Fine(fp, secrets, c))
    && (forall i, j :: 0 <= i < j < |cs| ==> Unlike(fp, secrets, cs[i], cs[j]))
  }

  /** Every container that a credential names, other than by the star alone, is exposed by the Access. */
  ghost predicate NamesExposed(a: Access) {
    a.kind.External? || a.containers == [] ||
    forall c, name :: c in a.credentials && name in c.containers && name != "*" ==> Exposes(a, name)
  }

  lemma OverlapIsSharing(fp: Fingerprint, secrets: Secrets, c: Credential, d: Credential)
    requires GoodCredential(fp, secrets, c) && GoodCredential(fp, secrets, d)
    ensures var m, n := MaterialOf(fp, secrets, c), MaterialOf(fp, secrets, d);
            Sharing(fp, secrets, c, d) <==> m.passwords * n.passwords != {} || m.publicKeys * n.publicKeys != {}
  {
    var m, n := MaterialOf(fp, secrets, c), MaterialOf(fp, secrets, d);
    forall v
      ensures HasPassword(secrets, c, v) && HasPassword(secrets, d, v) <==> v in m.passwords * n.passwords
      ensures HasKey(fp, secrets, c, v) && HasKey(fp, secrets, d, v) <==> v in m.publicKeys * n.publicKeys
    {
      SoundIsGood(fp, secrets, c, v);
      SoundIsGood(fp, secrets, d, v);
    }
  }

  lemma GoodIsMaterial(fp: Fingerprint, secrets: Secrets, cs: seq<Credential>, c: Credential)
    requires GoodCredential(fp, secrets, c) && forall d :: d in cs ==> GoodCredential(fp, secrets, d)
    ensures var m := MaterialOf(fp, secrets, c);
            m.passwords * HeldPasswords(fp, secrets, cs) != {} || m.publicKeys * HeldKeys(fp, secrets, cs) != {}
            <==> exists d :: d in cs && Sharing(fp, secrets, d, c)
  {
    var m := MaterialOf(fp, secrets, c);
    forall d | d in cs
      ensures var n := MaterialOf(fp, secrets, d);
              Sharing(fp, secrets, d, c) <==> n.passwords * m.passwords != {} || n.publicKeys * m.publicKeys != {}
    {
      OverlapIsSharing(fp, secrets, d, c);
    }
    HeldMeets(fp, secrets, cs, m);
  }

  /** What is held by all together is met exactly where what one of them holds is. */
  lemma HeldMeets(fp: Fingerprint, secrets: Secrets, cs: seq<Credential>, m: Material)
    ensures m.passwords * HeldPasswords(fp, secrets, cs) != {} <==>
            exists d :: d in cs && MaterialOf(fp, secrets, d).passwords * m.passwords != {}
    ensures m.publicKeys * HeldKeys(fp, secrets, cs) != {} <==>
            exists d :: d in cs && MaterialOf(fp, secrets, d).publicKeys * m.publicKeys != {}
  {
    if v :| v in m.passwords * HeldPasswords(fp, secrets, cs) {
      var d :| d in cs && v in MaterialOf(fp, secrets, d).passwords;
      assert v in MaterialOf(fp, secrets, d).passwords * m.passwords;
    }
    if v :| v in m.publicKeys * HeldKeys(fp, secrets, cs) {
      var d :| d in cs && v in MaterialOf(fp, secrets, d).publicKeys;
      assert v in MaterialOf(fp, secrets, d).publicKeys * m.publicKeys;
    }
    if d :| d in cs && MaterialOf(fp, secrets, d).passwords * m.passwords != {} {
      var v :| v in MaterialOf(fp, secrets, d).passwords * m.passwords;
      assert v in m.passwords * HeldPasswords(fp, secrets, cs);
    }
    if d :| d in cs && MaterialOf(fp, secrets, d).publicKeys * m.publicKeys != {} {
      var v :| v in MaterialOf(fp, secrets, d).publicKeys * m.publicKeys;
      assert v in m.publicKeys * HeldKeys(fp, secrets, cs);
    }
  }

  lemma FaultIs(fp: Fingerprint, secrets: Secrets, before: seq<Credential>, c: Credential)
    requires forall d :: d in before ==> GoodCredential(fp, secrets, d)
    ensures Fault(fp, secrets, before, c).None? <==>
            && Fine(fp, secrets, c)
            && forall d :: d in before ==> Unlike(fp, secrets, d, c)
  {
    SoundIsGood(fp, secrets, c, "");
    if GoodCredential(fp, secrets, c) { GoodIsMaterial(fp, secrets, before, c); }
    RulesAre(c);
    NamesAre(before, c);
  }

  lemma RulesAre(c: Credential)
    ensures GoodCapabilities(c) <==> forall e :: e in c.localDestinations || e in c.remoteBinds ==> Rule(e)
  {
  }

  lemma NamesAre(before: seq<Credential>, c: Credential)
    ensures NameFault(Usernames(before), c.username).None? <==>
            TrimSpace(c.username) != "" && forall d :: d in before ==> d.username != c.username
  {
    if d :| d in before && d.username == c.username { assert c.username in Usernames(before); }
  }

  lemma {:induction false} FaultlessIsFine(fp: Fingerprint, secrets: Secrets, cs: seq<Credential>)
    ensures FirstFault(fp, secrets, cs).None? <==> FineTogether(fp, secrets, cs)
    decreases cs
  {
    if cs != [] {
      var n := |cs| - 1;
      var before, c := cs[..n], cs[n];
      assert cs == before + [c];
      FaultlessIsFine(fp, secrets, before);
      TogetherSnoc(fp, secrets, cs, before, c);
      if FineTogether(fp, secrets, before) {
        assert forall d :: d in before ==> Fine(fp, secrets, d);
        FaultIs(fp, secrets, before, c);
      }
    }
  }

  lemma LastWithEach<T(!new)>(s: seq<T>, init: seq<T>, last: T, p: T -> bool, r: (T, T) -> bool)
    requires s == init + [last]
    ensures (forall x :: x in s ==> p(x)) <==> (forall x :: x in init ==> p(x)) && p(last)
    ensures (forall i, j :: 0 <= i < j < |s| ==> r(s[i], s[j])) <==>
            (forall i, j :: 0 <= i < j < |init| ==> r(init[i], init[j])) && forall x :: x in init ==> r(x, last)
  {
    var n := |init|;
    assert last in s && forall x :: x in init ==> x in s;
    assert forall i :: 0 <= i < n ==> s[i] == init[i];
    if forall i, j :: 0 <= i < j < |s| ==> r(s[i], s[j]) {
      forall x | x in init ensures r(x, last) {
        var i :| 0 <= i < n && init[i] == x;
        assert r(s[i], s[n]);
      }
    }
  }

  lemma TogetherSnoc(fp: Fingerprint, secrets: Secrets, cs: seq<Credential>, before: seq<Credential>, c: Credential)
    requires cs == before + [c]
    ensures FineTogether(fp, secrets, cs) <==>
            && FineTogether(fp, secrets, before) && Fine(fp, secrets, c)
            && forall d :: d in before ==> Unlike(fp, secrets, d, c)
  {
    ghost var fine := (x: Credential) => Fine(fp, secrets, x);
    ghost var unlike := (x: Credential, y: Credential) => Unlike(fp, secrets, x, y);
    LastWithEach(cs, before, c, fine, unlike);
    TogetherBy(fp, secrets, cs, fine, unlike);
    TogetherBy(fp, secrets, before, fine, unlike);
  }

  lemma TogetherBy(fp: Fingerprint, secrets: Secrets, cs: seq<Credential>, fine: Credential -> bool,
                   unlike: (Credential, Credential) -> bool)
    requires forall x :: fine(x) <==> Fine(fp, secrets, x)
    requires forall x, y :: unlike(x, y) <==> Unlike(fp, secrets, x, y)
    ensures FineTogether(fp, secrets, cs) <==>
            (forall x :: x in cs ==> fine(x)) && forall i, j :: 0 <= i < j < |cs| ==> unlike(cs[i], cs[j])
  {
  }

  /** These are the Secrets of the namespace, none if it has none. */
  predicate OfNamespace(cluster: Cluster, namespace_: string, secrets: Secrets) {
    (namespace_ in cluster ==> secrets == cluster[namespace_]) && (namespace_ !in cluster ==> secrets == map[])
  }

  /**
    An Access is valid if and only if it has a credential; every credential has a name, material of which every part
    is usable, and forwarding rules that can be read; no two have the same name, a password or a key in common; and
    the containers they name are exposed.
   */
  lemma ValidIff(fp: Fingerprint, cluster: Cluster, a: Access, secrets: Secrets)
    requires OfNamespace(cluster, a.namespace_, secrets)
    ensures VerdictOf(fp, cluster, a).Valid? <==>
            a.credentials != [] && FineTogether(fp, secrets, a.credentials) && NamesExposed(a)
  {
    FaultlessIsFine(fp, secrets, a.credentials);
    ExposedIs(a);
  }

  /** Some pattern of the Access matches the container. */
  ghost predicate Exposes(a: Access, name: string) {
    exists p :: p in a.containers && Wildcard.Matches(p, name)
  }

  lemma ExposedIs(a: Access)
    ensures NamesExposed(a) <==> a.kind.External? || ContainersExposed(a)
  {
    if a.containers != [] {
      forall name ensures Allows(a.containers, name) <==> Exposes(a, name) {}
    }
  }

  // ---- whom a password or a key belongs to ----

  /**
    In a valid Access a password that is not empty belongs to the one credential that has it, and to nobody if none
    has it; likewise a key, by its fingerprint.
   */
  lemma BelongsToItsOwner(fp: Fingerprint, cluster: Cluster, a: Access, locator: Locators.Locator, v: string,
                          c: Credential)
    requires VerdictOf(fp, cluster, a).Valid?
    ensures var secrets, found := SecretsIn(cluster, a.namespace_), Locators.Provided(locator, a);
            && (v != "" ==> (PasswordMatch(cluster, found, v) == Identity(a, c) <==>
                               c in a.credentials && HasPassword(secrets, c, v)))
            && (KeyMatch(fp, cluster, found, Some(v)) == Identity(a, c) <==>
                  c in a.credentials && HasKey(fp, secrets, c, v))
  {
    var secrets, found, cs := SecretsIn(cluster, a.namespace_), Locators.Provided(locator, a), a.credentials;
    ValidMeansDecided(fp, cluster, found, a, v);
    HoldingsAreMaterial(fp, secrets, cs);
    MaterialIsHad(fp, secrets, cs, v);
    if v != "" { PasswordOwner(fp, secrets, a, PasswordMatch(cluster, found, v), v, c); }
    KeyOwner(fp, secrets, a, KeyMatch(fp, cluster, found, Some(v)), v, c);
  }

  lemma MaterialIsHad(fp: Fingerprint, secrets: Secrets, cs: seq<Credential>, v: string)
    requires FirstFault(fp, secrets, cs).None?
    ensures forall d :: d in cs ==>
              && (v in MaterialOf(fp, secrets, d).passwords <==> HasPassword(secrets, d, v))
              && (v in MaterialOf(fp, secrets, d).publicKeys <==> HasKey(fp, secrets, d, v))
  {
    FaultlessIsFine(fp, secrets, cs);
    forall d | d in cs
      ensures v in MaterialOf(fp, secrets, d).passwords <==> HasPassword(secrets, d, v)
      ensures v in MaterialOf(fp, secrets, d).publicKeys <==> HasKey(fp, secrets, d, v)
    {
      assert Fine(fp, secrets, d);
      SoundIsGood(fp, secrets, d, v);
    }
  }

  lemma PasswordOwner(fp: Fingerprint, secrets: Secrets, a: Access, m: Match, v: string, c: Credential)
    requires Decides(m, a, PasswordHoldings(secrets, a.credentials), v)
    requires var h := PasswordHoldings(secrets, a.credentials);
             forall i :: 0 <= i < |h| ==> h[i] == Some(MaterialOf(fp, secrets, a.credentials[i]).passwords)
    requires forall d :: d in a.credentials ==>
               (v in MaterialOf(fp, secrets, d).passwords <==> HasPassword(secrets, d, v))
    ensures m == Identity(a, c) <==> c in a.credentials && HasPassword(secrets, c, v)
  {
    OwnerDecides(m, a, PasswordHoldings(secrets, a.credentials), v, c);
  }

  lemma KeyOwner(fp: Fingerprint, secrets: Secrets, a: Access, m: Match, v: string, c: Credential)
    requires Decides(m, a, KeyHoldings(fp, secrets, a.credentials), v)
    requires var h := KeyHoldings(fp, secrets, a.credentials);
             forall i :: 0 <= i < |h| ==> h[i] == Some(MaterialOf(fp, secrets, a.credentials[i]).publicKeys)
    requires forall d :: d in a.credentials ==>
               (v in MaterialOf(fp, secrets, d).publicKeys <==> HasKey(fp, secrets, d, v))
    ensures m == Identity(a, c) <==> c in a.credentials && HasKey(fp, secrets, c, v)
  {
    OwnerDecides(m, a, KeyHoldings(fp, secrets, a.credentials), v, c);
  }

  lemma OwnerDecides(m: Match, a: Access, h: Holdings, v: string, c: Credential)
    requires |h| == |a.credentials| && Decides(m, a, h, v)
    ensures m == Identity(a, c) <==> exists i :: 0 <= i < |h| && a.credentials[i] == c && v in h[i].value
  {
    if !m.NotProvided? {
      var i :| 0 <= i < |h| && v in h[i].value;
      assert m == Identity(a, a.credentials[i]);
    }
  }

  // ---- any Access, valid or not ----

  lemma {:induction false} UnionIs(sets: seq<Option<set<string>>>, v: string)
    ensures Union(sets).Some? <==> forall i :: 0 <= i < |sets| ==> sets[i].Some?
    ensures Union(sets).Some? ==> (v in Union(sets).value <==> exists i :: 0 <= i < |sets| && v in sets[i].value)
    decreases sets
  {
    if sets != [] {
      var n := |sets| - 1;
      UnionIs(sets[..n], v);
      assert forall i :: 0 <= i < n ==> sets[..n][i] == sets[i];
      if Union(sets).Some? && v in Union(sets[..n]).value {
        var i :| 0 <= i < n && v in sets[..n][i].value;
        assert v in sets[i].value;
      }
      if Union(sets).Some? && exists i :: 0 <= i < |sets| && v in sets[i].value {
        var i :| 0 <= i < |sets| && v in sets[i].value;
        assert i < n ==> v in sets[..n][i].value;
      }
    }
  }

  lemma TokensAre(secrets: Secrets, ref: SecretRef, v: string)
    ensures TokensOf(secrets, ref).Some? <==> Stored(secrets, ref)
    ensures Stored(secrets, ref) ==> (v in TokensOf(secrets, ref).value <==> Token(secrets, ref, v))
  {
    SecretValueIs(secrets, ref);
    if Stored(secrets, ref) { LinesAreTokens(secrets, ref, v); }
  }

  /** Every Secret that the credential takes passwords from can be read. */
  predicate CanRead(secrets: Secrets, c: Credential) {
    forall ref :: ref in c.passwordsFrom ==> Stored(secrets, ref)
  }

  /** What the union says of the references one by one. */
  lemma UnionByReference(refs: seq<SecretRef>, sets: seq<Option<set<string>>>, v: string, ok: SecretRef -> bool,
                         has: SecretRef -> bool)
    requires |sets| == |refs|
    requires forall i :: 0 <= i < |refs| ==> (sets[i].Some? <==> ok(refs[i]))
    requires forall i :: 0 <= i < |refs| && sets[i].Some? ==> (v in sets[i].value <==> has(refs[i]))
    ensures Union(sets).Some? <==> forall ref :: ref in refs ==> ok(ref)
    ensures Union(sets).Some? ==> (v in Union(sets).value <==> exists ref :: ref in refs && has(ref))
  {
    UnionIs(sets, v);
    assert forall i :: 0 <= i < |refs| ==> refs[i] in refs;
    if ref :| ref in refs && has(ref) {
      var i :| 0 <= i < |refs| && refs[i] == ref;
      assert sets[i].Some? ==> v in sets[i].value;
    }
  }

  lemma TokenSetsAre(secrets: Secrets, refs: seq<SecretRef>, v: string)
    ensures var u := Union(TokenSets(secrets, refs));
            && (u.Some? <==> forall ref :: ref in refs ==> Stored(secrets, ref))
            && (u.Some? ==> (v in u.value <==> exists ref :: ref in refs && Token(secrets, ref, v)))
  {
    forall i | 0 <= i < |refs|
      ensures TokensOf(secrets, refs[i]).Some? <==> Stored(secrets, refs[i])
      ensures TokensOf(secrets, refs[i]).Some? ==>
                (v in TokensOf(secrets, refs[i]).value <==> Token(secrets, refs[i], v))
    {
      TokensAre(secrets, refs[i], v);
    }
    UnionByReference(refs, TokenSets(secrets, refs), v, ref => Stored(secrets, ref), ref => Token(secrets, ref, v));
  }

  lemma PasswordsAre(secrets: Secrets, c: Credential, v: string)
    requires v != ""
    ensures Passwords(secrets, c).Some? <==> CanRead(secrets, c)
    ensures CanRead(secrets, c) ==> (v in Passwords(secrets, c).value <==> HasPassword(secrets, c, v))
  {
    TokenSetsAre(secrets, c.passwordsFrom, v);
  }

  /**
    Against any Access, valid or not, a password that is not empty is an error if some Secret cannot be read or two
    credentials have it; it belongs to the one credential that has it; and to nobody if none has it.
   */
  lemma PasswordOutcome(cluster: Cluster, a: Access, locator: Locators.Locator, v: string)
    requires v != ""
    ensures var secrets := SecretsIn(cluster, a.namespace_);
            var m, cs := PasswordMatch(cluster, Locators.Provided(locator, a), v), a.credentials;
            && (m.Error? <==>
                  || (exists c :: c in cs && !CanRead(secrets, c))
                  || (exists i, j ::
                        0 <= i < j < |cs| && HasPassword(secrets, cs[i], v) && HasPassword(secrets, cs[j], v)))
            && (m.Identity? ==> m.access == a && m.credential in cs && HasPassword(secrets, m.credential, v))
            && (m.NotProvided? ==> forall c :: c in cs ==> !HasPassword(secrets, c, v))
  {
    var secrets, cs := SecretsIn(cluster, a.namespace_), a.credentials;
    var h := PasswordHoldings(secrets, cs);
    forall i | 0 <= i < |cs|
      ensures h[i].Some? <==> CanRead(secrets, cs[i])
      ensures h[i].Some? ==> (v in h[i].value <==> HasPassword(secrets, cs[i], v))
    {
      PasswordsHeldAt(secrets, cs, i);
      PasswordsAre(secrets, cs[i], v);
    }
    MatchedByCredential(a, h, v, c => CanRead(secrets, c), c => HasPassword(secrets, c, v));
  }

  /** The outcome in terms of what can be said of the credentials one by one. */
  lemma MatchedByCredential(a: Access, h: Holdings, v: string, can: Credential -> bool, has: Credential -> bool)
    requires |h| == |a.credentials|
    requires forall i :: 0 <= i < |h| ==> (h[i].Some? <==> can(a.credentials[i]))
    requires forall i :: 0 <= i < |h| && h[i].Some? ==> (v in h[i].value <==> has(a.credentials[i]))
    ensures var m, cs := CredentialMatching.Matched(a, h, v), a.credentials;
            && (m.Error? <==>
                  || (exists c :: c in cs && !can(c))
                  || (exists i, j :: 0 <= i < j < |cs| && has(cs[i]) && has(cs[j])))
            && (m.Identity? ==> m.access == a && m.credential in cs && has(m.credential))
            && (m.NotProvided? ==> forall c :: c in cs ==> !has(c))
  {
    MatchedIs(a, h, v);
    UnreadByCredential(a.credentials, h, can);
    if forall i :: 0 <= i < |h| ==> h[i].Some? { TwoByCredential(a.credentials, h, v, has); }
    assert forall i :: 0 <= i < |h| ==> a.credentials[i] in a.credentials;
  }

  lemma UnreadByCredential(cs: seq<Credential>, h: Holdings, can: Credential -> bool)
    requires |h| == |cs| && forall i :: 0 <= i < |h| ==> (h[i].Some? <==> can(cs[i]))
    ensures (exists i :: 0 <= i < |h| && h[i].None?) <==> exists c :: c in cs && !can(c)
  {
    if i :| 0 <= i < |h| && h[i].None? { assert cs[i] in cs; }
    if c :| c in cs && !can(c) {
      var i :| 0 <= i < |cs| && cs[i] == c;
      assert h[i].None?;
    }
  }

  lemma TwoByCredential(cs: seq<Credential>, h: Holdings, v: string, has: Credential -> bool)
    requires |h| == |cs| && forall i :: 0 <= i < |h| ==> h[i].Some? && (v in h[i].value <==> has(cs[i]))
    ensures TwoHold(h, v) <==> exists i, j :: 0 <= i < j < |cs| && has(cs[i]) && has(cs[j])
  {
    if i, j :| 0 <= i < j < |cs| && has(cs[i]) && has(cs[j]) { assert In(h, i, v) && In(h, j, v); }
    if TwoHold(h, v) {
      var i, j :| 0 <= i < j < |h| && In(h, i, v) && In(h, j, v);
      assert has(cs[i]) && has(cs[j]);
    }
  }

  predicate In(h: Holdings, i: int, v: string)
    requires 0 <= i < |h|
  {
    h[i].Some? && v in h[i].value
  }

  predicate TwoHold(h: Holdings, v: string) { exists i, j :: 0 <= i < j < |h| && In(h, i, v) && In(h, j, v) }

  lemma TwoHoldIsTwo(h: Holdings, v: string)
    ensures TwoHold(h, v) <==> |Holders(h, |h|, v)| > 1
  {
    var holders := Holders(h, |h|, v);
    if |holders| > 1 {
      var i, j := TwoOf(h, v);
      assert In(h, i, v) && In(h, j, v);
    }
    if TwoHold(h, v) {
      var i, j :| 0 <= i < j < |h| && In(h, i, v) && In(h, j, v);
      assert i in holders && j in holders;
    }
  }

  lemma MatchedIs(a: Access, h: Holdings, v: string)
    requires |h| == |a.credentials|
    ensures var m := CredentialMatching.Matched(a, h, v);
            && (m.Error? <==> (exists i :: 0 <= i < |h| && h[i].None?) || TwoHold(h, v))
            && (m.Identity? ==>
                  m.access == a && exists i :: 0 <= i < |h| && m.credential == a.credentials[i] && In(h, i, v))
            && (m.NotProvided? ==> forall i :: 0 <= i < |h| ==> h[i].Some? && v !in h[i].value)
  {
    var holders := Holders(h, |h|, v);
    TwoHoldIsTwo(h, v);
    if holders != [] { assert holders[0] in holders; }
  }

  /** Every Secret that the credential takes keys from can be read, and every key has a fingerprint. */
  ghost predicate CanReadKeys(fp: Fingerprint, secrets: Secrets, c: Credential) {
    && (forall k :: k in c.publicKeys ==> fp(k) != "")
    && (forall ref :: ref in c.publicKeysFrom ==> KeysReadable(fp, secrets, ref))
  }

  ghost predicate KeysReadable(fp: Fingerprint, secrets: Secrets, ref: SecretRef) {
    Stored(secrets, ref) && forall t :: Token(secrets, ref, t) ==> fp(t) != ""
  }

  lemma KeysOfAre(fp: Fingerprint, secrets: Secrets, ref: SecretRef, f: string)
    ensures KeysOf(fp, secrets, ref).Some? <==> KeysReadable(fp, secrets, ref)
    ensures KeysReadable(fp, secrets, ref) ==>
              (f in KeysOf(fp, secrets, ref).value <==> HoldsKey(fp, secrets, ref, f))
  {
    SecretValueIs(secrets, ref);
    if Stored(secrets, ref) {
      var lines := SecretLines(secrets[ref.name][ref.key]);
      forall t ensures t in lines <==> Token(secrets, ref, t) { LinesAreTokens(secrets, ref, t); }
    }
  }

  lemma KeySetsAre(fp: Fingerprint, secrets: Secrets, refs: seq<SecretRef>, f: string)
    ensures var u := Union(KeySets(fp, secrets, refs));
            && (u.Some? <==> forall ref :: ref in refs ==> KeysReadable(fp, secrets, ref))
            && (u.Some? ==> (f in u.value <==> exists ref :: ref in refs && HoldsKey(fp, secrets, ref, f)))
  {
    forall i | 0 <= i < |refs|
      ensures KeysOf(fp, secrets, refs[i]).Some? <==> KeysReadable(fp, secrets, refs[i])
      ensures KeysOf(fp, secrets, refs[i]).Some? ==>
                (f in KeysOf(fp, secrets, refs[i]).value <==> HoldsKey(fp, secrets, refs[i], f))
    {
      KeysOfAre(fp, secrets, refs[i], f);
    }
    ghost var ok := (ref: SecretRef) => KeysReadable(fp, secrets, ref);
    ghost var has := (ref: SecretRef) => HoldsKey(fp, secrets, ref, f);
    UnionByReference(refs, KeySets(fp, secrets, refs), f, ok, has);
  }

  lemma PublicKeysAre(fp: Fingerprint, secrets: Secrets, c: Credential, f: string)
    ensures PublicKeys(fp, secrets, c).Some? <==> CanReadKeys(fp, secrets, c)
    ensures CanReadKeys(fp, secrets, c) ==> (f in PublicKeys(fp, secrets, c).value <==> HasKey(fp, secrets, c, f))
  {
    KeySetsAre(fp, secrets, c.publicKeysFrom, f);
  }

  /** The same of a public key, by its fingerprint. */
  lemma KeyOutcome(fp: Fingerprint, cluster: Cluster, a: Access, locator: Locators.Locator, f: string)
    ensures var secrets := SecretsIn(cluster, a.namespace_);
            var m, cs := KeyMatch(fp, cluster, Locators.Provided(locator, a), Some(f)), a.credentials;
            && (m.Error? <==>
                  || (exists c :: c in cs && !CanReadKeys(fp, secrets, c))
                  || (exists i, j ::
                        0 <= i < j < |cs| && HasKey(fp, secrets, cs[i], f) && HasKey(fp, secrets, cs[j], f)))
            && (m.Identity? ==> m.access == a && m.credential in cs && HasKey(fp, secrets, m.credential, f))
            && (m.NotProvided? ==> forall c :: c in cs ==> !HasKey(fp, secrets, c, f))
  {
    var secrets, cs := SecretsIn(cluster, a.namespace_), a.credentials;
    var h := KeyHoldings(fp, secrets, cs);
    forall i | 0 <= i < |cs|
      ensures h[i].Some? <==> CanReadKeys(fp, secrets, cs[i])
      ensures h[i].Some? ==> (f in h[i].value <==> HasKey(fp, secrets, cs[i], f))
    {
      KeysHeldAt(fp, secrets, cs, i);
      PublicKeysAre(fp, secrets, cs[i], f);
    }
    ghost var can := (c: Credential) => CanReadKeys(fp, secrets, c);
    ghost var has := (c: Credential) => HasKey(fp, secrets, c, f);
    MatchedByCredential(a, h, f, can, has);
  }
}
