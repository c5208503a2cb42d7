/** Go's `net.JoinHostPort` and `net.SplitHostPort`. */
module HostPort {
  import opened Text
  import opened Numerals
  import opened Wrappers

  predicate Bracketed(s: string) { '[' in s || ']' in s }

  /** A port text as the gateway prints it. */
  predicate Plain(port: string) { ':' !in port && !Bracketed(port) }

  /** What stands before the last colon: a host with a colon goes into brackets. */
  function Front(host: string): string {
    if ':' in host then "[" + host + "]" else host
  }

  function Join(host: string, port: string): string {
    Front(host) + ":" + port
  }

  datatype Address = Address(host: string, port: string)

  /** The host behind a front, if it is well formed. */
  function HostOfFront(front: string): (r: Option<string>) {
    if front != "" && front[0] == '[' then
      if |front| >= 2 && front[|front| - 1] == ']' && !Bracketed(front[1..|front| - 1])
      then Some(front[1..|front| - 1]) else None
    else if ':' in front || Bracketed(front) then None
    else Some(front)
  }

  /** `net.SplitHostPort`, on the text before and after the last colon. */
  function Split(s: string): (r: Option<Address>) {
    var i := LastIndexOf(s, ':');
    if i < 0 || Bracketed(s[i + 1..]) then None
    else
      var host := HostOfFront(s[..i]);
      if host.None? then None else Some(Address(host.value, s[i + 1..]))
  }

  /** A host that is itself written in square brackets, without need. */
  predicate Enclosed(host: string) {
    |host| >= 2 && host[0] == '[' && host[|host| - 1] == ']' && ':' !in host && !Bracketed(host[1..|host| - 1])
  }

  /** The front determines the host, and reads back exactly when there are no brackets. */
  lemma FrontReads(host: string)
    ensures ':' in Front(host) <==> ':' in host
    ensures host == (if ':' in Front(host) then Front(host)[1..|Front(host)| - 1] else Front(host))
    ensures HostOfFront(Front(host)) == if !Bracketed(host) then Some(host)
                                        else if Enclosed(host) then Some(host[1..|host| - 1]) else None
  {
    if ':' in host {
      assert ("[" + host + "]")[1..|host| + 1] == host;
      assert ':' in "[" + host + "]";
    }
  }

  /** Distinct addresses have distinct keys. */
  lemma JoinInjective(h1: string, p1: string, h2: string, p2: string)
    requires Plain(p1) && Plain(p2) && Join(h1, p1) == Join(h2, p2)
    ensures h1 == h2 && p1 == p2
  {
    LastIndexOfTail(Front(h1), ':', p1);
    LastIndexOfTail(Front(h2), ':', p2);
    FrontReads(h1);
    FrontReads(h2);
  }

  /** Splitting undoes joining exactly on hosts without square brackets, and strips those of an enclosed host. */
  lemma SplitUndoesJoin(host: string, port: string)
    requires Plain(port)
    ensures Split(Join(host, port)) == Some(Address(host, port)) <==> !Bracketed(host)
    ensures Split(Join(host, port)) == if !Bracketed(host) then Some(Address(host, port))
                                       else if Enclosed(host) then Some(Address(host[1..|host| - 1], port)) else None
  {
    LastIndexOfTail(Front(host), ':', port);
    FrontReads(host);
  }

  lemma DigitsArePlain(n: nat)
    ensures Plain(Format(n, 10))
  {
  }
}
