/** Credential material of an Access: what validation collects and what authentication matches. */
module Credentials {
  import opened Text
  import opened Wrappers

  datatype SecretRef = SecretRef(name: string, key: string)

  datatype Credential = Credential(
    username: string,
    passwords: seq<string>,
    publicKeys: seq<string>,
    passwordsFrom: seq<SecretRef>,
    publicKeysFrom: seq<SecretRef>,
    containers: seq<string>,
    localDestinations: seq<string>,
    remoteBinds: seq<string>)

  /** One snapshot of the Secrets of a namespace, by name and data key. */
  type Secrets = map<string, map<string, string>>

  /** `keyFingerprint`: the fingerprint of a public-key line, empty when it does not parse. */
  type Fingerprint = string -> string

  datatype Reason =
    | NoCredentials | InvalidCredential | DuplicateCredentialIdentity | DuplicateCredentialMaterial
    | InvalidSecretRef | SecretNotFound | SecretKeyNotFound
    | InvalidCapabilityPolicy | InvalidContainerPolicy

  datatype Checked = Good(values: set<string>) | Bad(reason: Reason)

  datatype SecretResult = Value(data: string) | Absent(reason: Reason)

  function SecretValue(secrets: Secrets, ref: SecretRef): SecretResult {
    if ref.name == "" || ref.key == "" then Absent(InvalidSecretRef)
    else if ref.name !in secrets then Absent(SecretNotFound)
    else if ref.key !in secrets[ref.name] then Absent(SecretKeyNotFound)
    else Value(secrets[ref.name][ref.key])
  }

  /** The non-blank trimmed pieces, in order. */
  function NonBlank(lines: seq<string>): (out: seq<string>)
    ensures "" !in out
  {
    if lines == [] then []
    else
      var init, last := NonBlank(lines[..|lines| - 1]), TrimSpace(lines[|lines| - 1]);
      if last != "" then init + [last] else init
  }

  function SecretLines(value: string): (out: seq<string>)
    ensures "" !in out
  {
    NonBlank(Split(value, '\n'))
  }

  lemma NonBlankLast(lines: seq<string>, token: string)
    requires lines != []
    ensures var n := |lines| - 1;
            token in NonBlank(lines) <==> token in NonBlank(lines[..n]) || (token != "" && TrimSpace(lines[n]) == token)
  {
    var last := TrimSpace(lines[|lines| - 1]);
    var init := NonBlank(lines[..|lines| - 1]);
    assert NonBlank(lines) == if last != "" then init + [last] else init;
  }

  predicate SomeTrims(lines: seq<string>, token: string) { exists line :: line in lines && TrimSpace(line) == token }

  lemma SomeTrimsLast(lines: seq<string>, init: seq<string>, last: string, token: string)
    requires lines == init + [last]
    ensures SomeTrims(lines, token) <==> SomeTrims(init, token) || TrimSpace(last) == token
  {
    if SomeTrims(init, token) {
      var line :| line in init && TrimSpace(line) == token;
      assert line in lines;
    }
    assert last in lines;
  }

  lemma {:induction false} TokensAreTrimmedLines(lines: seq<string>, token: string)
    ensures token in NonBlank(lines) <==> token != "" && SomeTrims(lines, token)
    decreases lines
  {
    if lines != [] {
      var n := |lines| - 1;
      TokensAreTrimmedLines(lines[..n], token);
      NonBlankLast(lines, token);
      SomeTrimsLast(lines, lines[..n], lines[n], token);
    }
  }

  /** The tokens of a Secret value are its lines without surrounding white space, but for blank ones. */
  lemma SecretTokens(value: string, token: string)
    ensures token in SecretLines(value) <==>
            token != "" && exists line :: line in Split(value, '\n') && TrimSpace(line) == token
  {
    TokensAreTrimmedLines(Split(value, '\n'), token);
  }

  method SplitSecretLines(value: string) returns (out: seq<string>)
    ensures out == SecretLines(value)
  {
    var lines := Split(value, '\n');
    out := [];
    for i := 0 to |lines|
      invariant out == NonBlank(lines[..i])
    {
      assert lines[..i + 1][..i] == lines[..i];
      var line := TrimSpace(lines[i]);
      if line != "" { out := out + [line]; }
    }
    assert lines[..|lines|] == lines;
  }

  function ToSet(s: seq<string>): set<string> { set x | x in s }

  // ---- what validation accepts ----

  function CheckPasswords(ps: seq<string>): Checked {
    if "" in ps then Bad(InvalidCredential) else Good(ToSet(ps))
  }

  function CheckKeys(fp: Fingerprint, lines: seq<string>, reason: Reason): Checked {
    if exists l :: l in lines && fp(l) == "" then Bad(reason) else Good(set l | l in lines :: fp(l))
  }

  function CheckPasswordRef(secrets: Secrets, ref: SecretRef): Checked {
    var v := SecretValue(secrets, ref);
    if v.Absent? then Bad(v.reason)
    else if SecretLines(v.data) == [] then Bad(InvalidSecretRef)
    else Good(ToSet(SecretLines(v.data)))
  }

  function CheckKeyRef(fp: Fingerprint, secrets: Secrets, ref: SecretRef): Checked {
    var v := SecretValue(secrets, ref);
    if v.Absent? then Bad(v.reason)
    else if SecretLines(v.data) == [] then Bad(InvalidSecretRef)
    else CheckKeys(fp, SecretLines(v.data), InvalidSecretRef)
  }

  /** The union of the results, or the first failure. */
  function Collect(results: seq<Checked>): Checked {
    if results == [] then Good({})
    else
      var init, last := Collect(results[..|results| - 1]), results[|results| - 1];
      if init.Bad? then init else if last.Bad? then last else Good(init.values + last.values)
  }

  function PasswordResults(secrets: Secrets, refs: seq<SecretRef>): seq<Checked> {
    seq(|refs|, i requires 0 <= i < |refs| => CheckPasswordRef(secrets, refs[i]))
  }

  function KeyResults(fp: Fingerprint, secrets: Secrets, refs: seq<SecretRef>): seq<Checked> {
    seq(|refs|, i requires 0 <= i < |refs| => CheckKeyRef(fp, secrets, refs[i]))
  }

  datatype Material = Material(passwords: set<string>, publicKeys: set<string>)
  datatype Validated = Sound(material: Material) | Unsound(reason: Reason)

  predicate HasMaterial(c: Credential) {
    c.passwords != [] || c.publicKeys != [] || c.passwordsFrom != [] || c.publicKeysFrom != []
  }

  /** `validateCredential`: the first failure in the order of the code, or all the material. */
  function Validate(fp: Fingerprint, secrets: Secrets, c: Credential): Validated {
    var p, k := CheckPasswords(c.passwords), CheckKeys(fp, c.publicKeys, InvalidCredential);
    var pf := Collect(PasswordResults(secrets, c.passwordsFrom));
    var kf := Collect(KeyResults(fp, secrets, c.publicKeysFrom));
    if p.Bad? then Unsound(p.reason)
    else if k.Bad? then Unsound(k.reason)
    else if pf.Bad? then Unsound(pf.reason)
    else if kf.Bad? then Unsound(kf.reason)
    else if !HasMaterial(c) then Unsound(InvalidCredential)
    else Sound(Material(p.values + pf.values, k.values + kf.values))
  }

  lemma CollectStep(results: seq<Checked>, i: nat)
    requires i < |results|
    ensures Collect(results[..i + 1]) ==
              var init := Collect(results[..i]);
              if init.Bad? then init else if results[i].Bad? then results[i] else Good(init.values + results[i].values)
  {
    assert results[..i + 1][..i] == results[..i];
  }

  lemma {:induction false} CollectStops(results: seq<Checked>, i: nat)
    requires i <= |results| && Collect(results[..i]).Bad?
    ensures Collect(results) == Collect(results[..i])
    decreases |results| - i
  {
    if i < |results| {
      CollectStep(results, i);
      CollectStops(results, i + 1);
    } else {
      assert results[..i] == results;
    }
  }

  method CheckKeyLines(fp: Fingerprint, lines: seq<string>, reason: Reason) returns (r: Checked)
    ensures r == CheckKeys(fp, lines, reason)
  {
    var values := {};
    for i := 0 to |lines|
      invariant forall l :: l in lines[..i] ==> fp(l) != ""
      invariant values == set l | l in lines[..i] :: fp(l)
    {
      assert lines[..i + 1] == lines[..i] + [lines[i]];
      var fingerprint := fp(lines[i]);
      if fingerprint == "" { return Bad(reason); }
      values := values + {fingerprint};
    }
    assert lines[..|lines|] == lines;
    r := Good(values);
  }

  method CheckPasswordRefs(secrets: Secrets, refs: seq<SecretRef>) returns (r: Checked)
    ensures r == Collect(PasswordResults(secrets, refs))
  {
    ghost var results := PasswordResults(secrets, refs);
    var values := {};
    for i := 0 to |refs|
      invariant Collect(results[..i]) == Good(values)
    {
      CollectStep(results, i);
      var v := SecretValue(secrets, refs[i]);
      if v.Absent? {
        CollectStops(results, i + 1);
        return Bad(v.reason);
      }
      var tokens := SplitSecretLines(v.data);
      if tokens == [] {
        CollectStops(results, i + 1);
        return Bad(InvalidSecretRef);
      }
      values := values + ToSet(tokens);
    }
    assert results[..|refs|] == results;
    r := Good(values);
  }

  method CheckKeyRefs(fp: Fingerprint, secrets: Secrets, refs: seq<SecretRef>) returns (r: Checked)
    ensures r == Collect(KeyResults(fp, secrets, refs))
  {
    ghost var results := KeyResults(fp, secrets, refs);
    var values := {};
    for i := 0 to |refs|
      invariant Collect(results[..i]) == Good(values)
    {
      CollectStep(results, i);
      var v := SecretValue(secrets, refs[i]);
      if v.Absent? {
        CollectStops(results, i + 1);
        return Bad(v.reason);
      }
      var lines := SplitSecretLines(v.data);
      if lines == [] {
        CollectStops(results, i + 1);
        return Bad(InvalidSecretRef);
      }
      var keys := CheckKeyLines(fp, lines, InvalidSecretRef);
      if keys.Bad? {
        CollectStops(results, i + 1);
        return keys;
      }
      values := values + keys.values;
    }
    assert results[..|refs|] == results;
    r := Good(values);
  }

  method ValidateCredential(fp: Fingerprint, secrets: Secrets, c: Credential) returns (r: Validated)
    ensures r == Validate(fp, secrets, c)
  {
    var hasMaterial := false;
    var passwords := {};
    for i := 0 to |c.passwords|
      invariant "" !in c.passwords[..i] && passwords == ToSet(c.passwords[..i])
      invariant hasMaterial == (i > 0)
    {
      assert c.passwords[..i + 1] == c.passwords[..i] + [c.passwords[i]];
      hasMaterial := true;
      if c.passwords[i] == "" { return Unsound(InvalidCredential); }
      passwords := passwords + {c.passwords[i]};
    }
    assert c.passwords[..|c.passwords|] == c.passwords;
    var keys := CheckKeyLines(fp, c.publicKeys, InvalidCredential);
    if keys.Bad? { return Unsound(keys.reason); }
    var tokens := CheckPasswordRefs(secrets, c.passwordsFrom);
    if tokens.Bad? { return Unsound(tokens.reason); }
    var lines := CheckKeyRefs(fp, secrets, c.publicKeysFrom);
    if lines.Bad? { return Unsound(lines.reason); }
    if !hasMaterial && c.publicKeys == [] && c.passwordsFrom == [] && c.publicKeysFrom == [] {
      return Unsound(InvalidCredential);
    }
    r := Sound(Material(passwords + tokens.values, keys.values + lines.values));
  }

  // ---- what authentication matches ----

  /** `credentialPasswords` and `credentialPublicKeys`; `None` is an error. */
  function TokensOf(secrets: Secrets, ref: SecretRef): Option<set<string>> {
    var v := SecretValue(secrets, ref);
    if v.Absent? then None else Some(ToSet(SecretLines(v.data)))
  }

  function FingerprintsOf(fp: Fingerprint, lines: seq<string>): Option<set<string>> {
    if exists l :: l in lines && fp(l) == "" then None else Some(set l | l in lines :: fp(l))
  }

  function KeysOf(fp: Fingerprint, secrets: Secrets, ref: SecretRef): Option<set<string>> {
    var v := SecretValue(secrets, ref);
    if v.Absent? then None else FingerprintsOf(fp, SecretLines(v.data))
  }

  function Union(sets: seq<Option<set<string>>>): Option<set<string>> {
    if sets == [] then Some({})
    else
      var init, last := Union(sets[..|sets| - 1]), sets[|sets| - 1];
      if init.None? || last.None? then None else Some(init.value + last.value)
  }

  function TokenSets(secrets: Secrets, refs: seq<SecretRef>): seq<Option<set<string>>> {
    seq(|refs|, i requires 0 <= i < |refs| => TokensOf(secrets, refs[i]))
  }

  function KeySets(fp: Fingerprint, secrets: Secrets, refs: seq<SecretRef>): seq<Option<set<string>>> {
    seq(|refs|, i requires 0 <= i < |refs| => KeysOf(fp, secrets, refs[i]))
  }

  function Passwords(secrets: Secrets, c: Credential): Option<set<string>> {
    var refs := Union(TokenSets(secrets, c.passwordsFrom));
    if refs.None? then None else Some((set p | p in c.passwords && p != "") + refs.value)
  }

  function PublicKeys(fp: Fingerprint, secrets: Secrets, c: Credential): Option<set<string>> {
    var inline := FingerprintsOf(fp, c.publicKeys);
    var refs := Union(KeySets(fp, secrets, c.publicKeysFrom));
    if inline.None? || refs.None? then None else Some(inline.value + refs.value)
  }

  /** Where validation finds material, authentication finds the same. */
  lemma {:induction false} CollectIsUnion(results: seq<Checked>, sets: seq<Option<set<string>>>)
    requires |results| == |sets| && Collect(results).Good?
    requires forall i :: 0 <= i < |sets| && results[i].Good? ==> sets[i] == Some(results[i].values)
    ensures Union(sets) == Some(Collect(results).values)
    decreases results
  {
    if results != [] {
      var n := |results| - 1;
      CollectIsUnion(results[..n], sets[..n]);
    }
  }

  lemma ValidatedIsMatched(fp: Fingerprint, secrets: Secrets, c: Credential)
    requires Validate(fp, secrets, c).Sound?
    ensures var m := Validate(fp, secrets, c).material;
            && Passwords(secrets, c) == Some(m.passwords) && "" !in m.passwords
            && PublicKeys(fp, secrets, c) == Some(m.publicKeys)
  {
    PasswordsMatched(secrets, c);
    KeysMatched(fp, secrets, c);
  }

  lemma PasswordsMatched(secrets: Secrets, c: Credential)
    requires CheckPasswords(c.passwords).Good? && Collect(PasswordResults(secrets, c.passwordsFrom)).Good?
    ensures Passwords(secrets, c) ==
              Some(CheckPasswords(c.passwords).values + Collect(PasswordResults(secrets, c.passwordsFrom)).values)
    ensures "" !in Collect(PasswordResults(secrets, c.passwordsFrom)).values
  {
    var results := PasswordResults(secrets, c.passwordsFrom);
    var sets := TokenSets(secrets, c.passwordsFrom);
    CollectIsUnion(results, sets);
    assert (set p | p in c.passwords && p != "") == ToSet(c.passwords);
    NoBlankTokens(results);
  }

  lemma {:induction false} NoBlankTokens(results: seq<Checked>)
    requires Collect(results).Good? && forall i :: 0 <= i < |results| && results[i].Good? ==> "" !in results[i].values
    ensures "" !in Collect(results).values
    decreases results
  {
    if results != [] { NoBlankTokens(results[..|results| - 1]); }
  }

  lemma KeyLinesMatched(fp: Fingerprint, lines: seq<string>, reason: Reason)
    ensures FingerprintsOf(fp, lines) ==
            if CheckKeys(fp, lines, reason).Good? then Some(CheckKeys(fp, lines, reason).values) else None
  {
  }

  lemma KeyRefMatched(fp: Fingerprint, secrets: Secrets, ref: SecretRef)
    requires CheckKeyRef(fp, secrets, ref).Good?
    ensures KeysOf(fp, secrets, ref) == Some(CheckKeyRef(fp, secrets, ref).values)
  {
    var lines := SecretLines(SecretValue(secrets, ref).data);
    assert CheckKeyRef(fp, secrets, ref) == CheckKeys(fp, lines, InvalidSecretRef);
    KeyLinesMatched(fp, lines, InvalidSecretRef);
  }

  lemma ReferredKeysMatched(fp: Fingerprint, secrets: Secrets, refs: seq<SecretRef>)
    requires Collect(KeyResults(fp, secrets, refs)).Good?
    ensures Union(KeySets(fp, secrets, refs)) == Some(Collect(KeyResults(fp, secrets, refs)).values)
  {
    var results, sets := KeyResults(fp, secrets, refs), KeySets(fp, secrets, refs);
    forall i | 0 <= i < |refs| && results[i].Good? ensures sets[i] == Some(results[i].values) {
      KeyRefMatched(fp, secrets, refs[i]);
    }
    CollectIsUnion(results, sets);
  }

  lemma KeysMatched(fp: Fingerprint, secrets: Secrets, c: Credential)
    requires CheckKeys(fp, c.publicKeys, InvalidCredential).Good?
    requires Collect(KeyResults(fp, secrets, c.publicKeysFrom)).Good?
    ensures PublicKeys(fp, secrets, c) ==
              Some(CheckKeys(fp, c.publicKeys, InvalidCredential).values +
                   Collect(KeyResults(fp, secrets, c.publicKeysFrom)).values)
  {
    KeyLinesMatched(fp, c.publicKeys, InvalidCredential);
    ReferredKeysMatched(fp, secrets, c.publicKeysFrom);
  }
}
