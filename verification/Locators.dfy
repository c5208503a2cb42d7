/** SSH usernames that name an Access: the parser before authentication and the one after it. */
module Locators {
  import opened Text
  import opened Wrappers

  datatype Locator = Locator(namespace_: string, access: string, pod: string, container: string)

  /** The answer of a store: an object, its absence, or some other error. */
  datatype Lookup<A> = Found(value: A) | Missing | Broken

  /** The read-only snapshot of a store; a pair that is not there is missing. */
  type Store<A> = map<(string, string), Lookup<A>>

  function Get<A>(store: Store<A>, namespace_: string, name: string): Lookup<A> {
    if (namespace_, name) in store then store[(namespace_, name)] else Missing
  }

  datatype Resolution<A> = Provided(locator: Locator, access: A) | NotProvided | Failed

  function FromLookup<A>(found: Lookup<A>, locator: Locator): Resolution<A> {
    match found
    case Found(a) => Provided(locator, a)
    case Missing => NotProvided
    case Broken => Failed
  }

  /** How a username falls apart before any store is asked. */
  datatype Form =
    | Explicit(namespace_: string, name: string, pod: string)
    | Open(namespace_: string, rest: string)
    | NoForm

  function FormOf(user: string): (f: Form)
    ensures f.Explicit? ==> user == f.namespace_ + "." + (f.name + "~" + f.pod) && f.pod != ""
    ensures f.Open? ==> user == f.namespace_ + "." + f.rest
  {
    var head := Cut(user, '.');
    if !head.found || head.before == "" || head.after == "" then NoForm
    else
      var explicit := Cut(head.after, '~');
      if !explicit.found then Open(head.before, head.after)
      else if explicit.before == "" || explicit.after == "" then NoForm
      else Explicit(head.before, explicit.before, explicit.after)
  }

  datatype Suffix = Suffix(name: string, container: string)

  /** The last dot separates a container name. */
  function SuffixOf(rest: string): (r: Option<Suffix>)
    ensures r.Some? ==> rest == r.value.name + "." + r.value.container
    ensures r.Some? ==> r.value.container != "" && '.' !in r.value.container
  {
    var i := LastIndexOf(rest, '.');
    if i <= 0 || i == |rest| - 1 then None else Some(Suffix(rest[..i], rest[i + 1..]))
  }

  /** `resolveAccessLocator`: an exact Access name wins over a container suffix. */
  function Resolve<A>(store: Store<A>, user: string): Resolution<A> { ResolveForm(store, FormOf(user)) }

  function ResolveForm<A>(store: Store<A>, f: Form): Resolution<A> {
    match f
    case NoForm => NotProvided
    case Explicit(namespace_, name, pod) =>
      FromLookup(Get(store, namespace_, name), Locator(namespace_, name, pod, ""))
    case Open(namespace_, rest) =>
      var exact := Get(store, namespace_, rest);
      if exact.Missing? then ResolveContainer(store, namespace_, rest)
      else FromLookup(exact, Locator(namespace_, rest, "", ""))
  }

  function ResolveContainer<A>(store: Store<A>, namespace_: string, rest: string): Resolution<A> {
    ResolveSuffix(store, namespace_, SuffixOf(rest))
  }

  function ResolveSuffix<A>(store: Store<A>, namespace_: string, s: Option<Suffix>): Resolution<A> {
    if s.None? then NotProvided
    else FromLookup(Get(store, namespace_, s.value.name), Locator(namespace_, s.value.name, "", s.value.container))
  }

  /** `parseAccessLocatorFor`. */
  function ParseFor(user: string, namespace_: string, name: string): Option<Locator> {
    var prefix := namespace_ + "." + name;
    if user == prefix then Some(Locator(namespace_, name, "", ""))
    else if prefix + "~" <= user then
      var pod := user[|prefix| + 1..];
      if pod != "" then Some(Locator(namespace_, name, pod, "")) else None
    else if prefix + "." <= user then
      var container := user[|prefix| + 1..];
      if container != "" && '.' !in container then Some(Locator(namespace_, name, "", container)) else None
    else None
  }

  /** The username a locator is written as. */
  function Render(l: Locator): string {
    var base := l.namespace_ + "." + l.access;
    if l.pod != "" then base + "~" + l.pod
    else if l.container != "" then base + "." + l.container
    else base
  }

  // ---- each parser reads back what it was given ----

  /** Whatever the parser after authentication accepts is written as the username it was given. */
  lemma ParsedRenders(user: string, namespace_: string, name: string)
    ensures var r := ParseFor(user, namespace_, name);
            r.Some? ==> Render(r.value) == user && r.value.namespace_ == namespace_ && r.value.access == name
  {
    var prefix := namespace_ + "." + name;
    if prefix + "~" <= user { assert user == prefix + "~" + user[|prefix| + 1..]; }
    if prefix + "." <= user { assert user == prefix + "." + user[|prefix| + 1..]; }
  }

  lemma PodParses(user: string, namespace_: string, name: string, pod: string)
    requires pod != "" && user == namespace_ + "." + (name + "~" + pod)
    ensures ParseFor(user, namespace_, name) == Some(Locator(namespace_, name, pod, ""))
  {
    var prefix := namespace_ + "." + name;
    assert user == prefix + "~" + pod;
    assert user[|prefix| + 1..] == pod && prefix + "~" <= user;
    assert |user| != |prefix|;
  }

  lemma ContainerParses(user: string, namespace_: string, name: string, container: string)
    requires container != "" && '.' !in container && user == namespace_ + "." + (name + "." + container)
    ensures ParseFor(user, namespace_, name) == Some(Locator(namespace_, name, "", container))
  {
    var prefix := namespace_ + "." + name;
    assert user == prefix + "." + container;
    assert user[|prefix| + 1..] == container && prefix + "." <= user;
    assert user[|prefix|] != (prefix + "~")[|prefix|] && |user| != |prefix|;
  }

  lemma FormAgrees<A>(store: Store<A>, user: string, f: Form)
    requires f == FormOf(user) && Resolve(store, user).Provided?
    ensures var l := Resolve(store, user).locator; ParseFor(user, l.namespace_, l.access) == Some(l)
  {
    match f
    case Explicit(namespace_, name, pod) => PodParses(user, namespace_, name, pod);
    case Open(namespace_, rest) => OpenAgrees(store, user, namespace_, rest);
  }

  lemma OpenAgrees<A>(store: Store<A>, user: string, namespace_: string, rest: string)
    requires user == namespace_ + "." + rest && ResolveForm(store, Open(namespace_, rest)).Provided?
    ensures var l := ResolveForm(store, Open(namespace_, rest)).locator;
            ParseFor(user, l.namespace_, l.access) == Some(l)
  {
    if Get(store, namespace_, rest).Missing? { SuffixAgrees(store, user, namespace_, rest, SuffixOf(rest)); }
  }

  lemma SuffixAgrees<A>(store: Store<A>, user: string, namespace_: string, rest: string, s: Option<Suffix>)
    requires user == namespace_ + "." + rest && ResolveSuffix(store, namespace_, s).Provided?
    requires s.Some? ==> rest == s.value.name + "." + s.value.container
    requires s.Some? ==> s.value.container != "" && '.' !in s.value.container
    ensures var l := ResolveSuffix(store, namespace_, s).locator; ParseFor(user, l.namespace_, l.access) == Some(l)
  {
    ContainerParses(user, namespace_, s.value.name, s.value.container);
  }

  /**
    Whatever the parser before authentication makes of a username, the one after authentication makes the
    same of it for that Access; and the username is the one the locator is written as.
   */
  lemma ParsersAgree<A>(store: Store<A>, user: string)
    requires Resolve(store, user).Provided?
    ensures var l := Resolve(store, user).locator;
            ParseFor(user, l.namespace_, l.access) == Some(l) && Render(l) == user
  {
    FormAgrees(store, user, FormOf(user));
    var l := Resolve(store, user).locator;
    ParsedRenders(user, l.namespace_, l.access);
  }

  /** What is provided has a namespace and a name, and names at most one of a Pod and a container. */
  lemma ProvidedIsNamed<A>(store: Store<A>, user: string)
    requires Resolve(store, user).Provided?
    ensures var l := Resolve(store, user).locator;
            && l.namespace_ != "" && '.' !in l.namespace_ && l.access != "" && (l.pod == "" || l.container == "")
            && Get(store, l.namespace_, l.access) == Found(Resolve(store, user).access)
  {
    var f := FormOf(user);
    if f.Open? && Get(store, f.namespace_, f.rest).Missing? {
      assert Resolve(store, user) == ResolveSuffix(store, f.namespace_, SuffixOf(f.rest));
    }
  }

  // ---- locators that a username can carry ----

  /** A locator with either a pod or a container, made of names that do not contain its separators. */
  predicate Writable(l: Locator) {
    && l.namespace_ != "" && '.' !in l.namespace_
    && l.access != "" && '~' !in l.access
    && (l.pod == "" || l.container == "")
    && '.' !in l.container && '~' !in l.container
  }

  /** No Access whose name is the Access and the container together takes precedence. */
  predicate Unshadowed<A>(store: Store<A>, l: Locator) {
    l.container != "" ==> Get(store, l.namespace_, l.access + "." + l.container).Missing?
  }

  /** What a writable locator's username falls apart into. */
  lemma FormOfRendered(l: Locator)
    requires Writable(l)
    ensures FormOf(Render(l)) ==
              if l.pod != "" then Explicit(l.namespace_, l.access, l.pod)
              else Open(l.namespace_, if l.container != "" then l.access + "." + l.container else l.access)
  {
    if l.pod != "" {
      assert Render(l) == l.namespace_ + "." + (l.access + "~" + l.pod);
      CutOf(l.namespace_, '.', l.access + "~" + l.pod);
      CutOf(l.access, '~', l.pod);
    } else {
      var rest := if l.container != "" then l.access + "." + l.container else l.access;
      assert Render(l) == l.namespace_ + "." + rest;
      CutOf(l.namespace_, '.', rest);
      assert '~' !in rest;
    }
  }

  lemma SuffixOfRendered(l: Locator)
    requires Writable(l) && l.container != ""
    ensures SuffixOf(l.access + "." + l.container) == Some(Suffix(l.access, l.container))
  {
    LastIndexOfTail(l.access, '.', l.container);
  }

  lemma ContainerReadBack<A>(store: Store<A>, l: Locator, a: A, s: Option<Suffix>)
    requires l.pod == "" && l.container != "" && s == Some(Suffix(l.access, l.container))
    requires s == SuffixOf(l.access + "." + l.container)
    ensures ResolveForm(store, Open(l.namespace_, l.access + "." + l.container)) == Provided(l, a)
            <==> Get(store, l.namespace_, l.access) == Found(a) && Unshadowed(store, l)
  {
    var rest := l.access + "." + l.container;
    var exact := Get(store, l.namespace_, rest);
    if exact.Missing? {
      assert ResolveForm(store, Open(l.namespace_, rest)) == ResolveSuffix(store, l.namespace_, s);
    }
  }

  lemma AccessReadBack<A>(store: Store<A>, l: Locator, a: A)
    requires l.pod == "" && l.container == ""
    ensures ResolveForm(store, Open(l.namespace_, l.access)) == Provided(l, a)
            <==> Get(store, l.namespace_, l.access) == Found(a)
  {
    var s := SuffixOf(l.access);
    assert s.Some? ==> s.value.container != "";
  }

  /** A writable locator is read back from its username exactly when its Access exists and is not shadowed. */
  lemma LocatorRoundTrip<A>(store: Store<A>, l: Locator, a: A)
    requires Writable(l)
    ensures Resolve(store, Render(l)) == Provided(l, a)
            <==> Get(store, l.namespace_, l.access) == Found(a) && Unshadowed(store, l)
  {
    FormOfRendered(l);
    if l.pod == "" && l.container != "" {
      SuffixOfRendered(l);
      ContainerReadBack(store, l, a, Some(Suffix(l.access, l.container)));
    } else if l.pod == "" {
      AccessReadBack(store, l, a);
    }
  }

  /** The username of a shadowed locator names the other Access, as a whole. */
  lemma ShadowResolves<A>(store: Store<A>, l: Locator, b: A)
    requires Writable(l) && l.container != "" && Get(store, l.namespace_, l.access + "." + l.container) == Found(b)
    ensures Resolve(store, Render(l)) == Provided(Locator(l.namespace_, l.access + "." + l.container, "", ""), b)
  {
    FormOfRendered(l);
  }

  /** Two Accesses "a" and "a.c": the username that should mean container "c" of the first means the second. */
  lemma LocatorIsShadowed(a: int, b: int)
    ensures var store := map[("n", "a") := Found(a), ("n", "a.c") := Found(b)];
            var l := Locator("n", "a", "", "c");
            Writable(l) && Get(store, "n", "a") == Found(a) &&
            Resolve(store, Render(l)) == Provided(Locator("n", "a.c", "", ""), b)
  {
    var store := map[("n", "a") := Found(a), ("n", "a.c") := Found(b)];
    assert "a" + "." + "c" == "a.c";
    ShadowResolves(store, Locator("n", "a", "", "c"), b);
  }
}
