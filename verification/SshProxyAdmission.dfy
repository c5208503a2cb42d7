/** Which forwarded connections the SSH proxy admits, from the history of a run alone. */
module SshProxyAdmission {
  import opened Wrappers
  import opened HostPort
  import opened SshProxy
  import opened SshProxyRuns
  import Numerals

  /** The check on a forwarded-tcpip channel opened from upstream. */
  predicate Admits(w: World, a: Endpoint) { Key(a) in w.tables.forwards }

  // ---- what a history says ----

  /** The global request that arrived last, if any. */
  function Current(events: seq<Event>): Option<Event> {
    if events == [] then None
    else if events[|events| - 1].Start? then Some(events[|events| - 1])
    else Current(events[..|events| - 1])
  }

  /** Event `i` is upstream's acceptance of an authorised forward that comes to `a`. */
  predicate Grants(events: seq<Event>, i: nat, a: Endpoint) {
    i < |events| && events[i].Accept? && GrantedBy(Current(events[..i]), events[i].reported, a)
  }

  predicate GrantedBy(s: Option<Event>, reported: Option<nat>, a: Endpoint) {
    s.Some? && s.value.Start? && s.value.allowed && s.value.request.Forward? &&
    Actual(s.value.request.at, reported) == a
  }

  /** Event `i` is upstream's acceptance of a cancel for `a`. */
  predicate Cancels(events: seq<Event>, i: nat, a: Endpoint) {
    i < |events| && events[i].Accept? && CanceledBy(Current(events[..i]), a)
  }

  predicate CanceledBy(s: Option<Event>, a: Endpoint) {
    s.Some? && s.value.Start? && s.value.allowed && s.value.request == CancelForward(a)
  }

  /** A forward that came to `a` was authorised and accepted, and neither canceled since nor closed. */
  ghost predicate Live(events: seq<Event>, a: Endpoint) {
    !Closes(events) &&
    exists i: nat :: Grants(events, i, a) && forall k: nat :: i < k ==> !Cancels(events, k, a)
  }

  // ---- the history and the handler ----

  /** A request being handled is the one that arrived last, and was authorised. */
  lemma {:induction false} HandlerIsCurrent(events: seq<Event>)
    requires Possible(FRESH, events)
    ensures var h := End(FRESH, events).handler; !h.Idle? ==> Current(events) == Some(Start(h.request, h.op, true))
    decreases |events|
  {
    if events != [] { HandlerIsCurrent(events[..|events| - 1]); }
  }

  // ---- the history and the table, step by step ----

  lemma ForwardAdmits(w: World, reported: Option<nat>, a: Endpoint)
    requires Enabled(w, Accept(reported)) && w.handler.request.Forward?
    requires w.tables.closed ==> w.tables.forwards == map[]
    ensures Admits(AcceptForward(w, reported), a) <==>
            !w.tables.closed && (Admits(w, a) || Actual(w.handler.request.at, reported) == a)
  {
    var b := Actual(w.handler.request.at, reported);
    ActualKeyIsKey(w.handler.request.at, reported);
    if a != b { KeysDiffer(a, b); }
  }

  lemma CancelAdmits(w: World, a: Endpoint)
    requires w.handler.Checked? && w.handler.request.CancelForward?
    ensures Admits(AcceptCancel(w), a) <==> Admits(w, a) && w.handler.request.at != a
  {
    if a != w.handler.request.at { KeysDiffer(a, w.handler.request.at); }
  }

  /** What one step does to the admission of `a`, in terms of the last request. */
  lemma StepAdmits(w: World, e: Event, s: Option<Event>, a: Endpoint)
    requires Sound(w) && Enabled(w, e)
    requires !w.handler.Idle? ==> s == Some(Start(w.handler.request, w.handler.op, true))
    ensures Admits(Step(w, e), a) <==>
            !w.tables.closed && !e.Close? &&
            ((e.Accept? && GrantedBy(s, e.reported, a)) || (Admits(w, a) && !(e.Accept? && CanceledBy(s, a))))
  {
    if e.Accept? {
      if w.handler.request.Forward? {
        ForwardAdmits(w, e.reported, a);
      } else if w.handler.request.CancelForward? {
        CancelAdmits(w, a);
      }
    }
  }

  lemma LiveSnoc(events: seq<Event>, before: seq<Event>, e: Event, a: Endpoint)
    requires events == before + [e]
    ensures var s := Current(before);
            Live(events, a) <==>
            !Closes(before) && !e.Close? &&
            ((e.Accept? && GrantedBy(s, e.reported, a)) || (Live(before, a) && !(e.Accept? && CanceledBy(s, a))))
  {
    var n := |before|;
    assert events[..n] == before;
    ClosesSnoc(events);
    forall i: nat
      ensures i < n ==> (Grants(events, i, a) <==> Grants(before, i, a))
      ensures i < n ==> (Cancels(events, i, a) <==> Cancels(before, i, a))
      ensures Grants(events, n, a) <==> e.Accept? && GrantedBy(Current(before), e.reported, a)
      ensures Cancels(events, n, a) <==> e.Accept? && CanceledBy(Current(before), a)
    {
      if i < n { assert events[..i] == before[..i]; }
    }
    if Grants(events, n, a) {
      assert forall k: nat :: n < k ==> !Cancels(events, k, a);
    }
  }

  /**
    In every run, whatever upstream reports, a forwarded-tcpip channel for a host and port passes if and only if
    a tcpip-forward that came to that host and actual port was authorised, accepted upstream, and neither canceled
    nor closed since (section 7.2 of RFC 4254).
   */
  lemma {:induction false} OnlyGrantedForwardsPass(events: seq<Event>, a: Endpoint)
    requires Possible(FRESH, events)
    ensures Admits(End(FRESH, events), a) <==> Live(events, a)
    decreases |events|
  {
    if events != [] {
      var before, e := events[..|events| - 1], events[|events| - 1];
      assert events == before + [e];
      OnlyGrantedForwardsPass(before, a);
      HandlerIsCurrent(before);
      ClosedIffCloses(before);
      FreshIsSound();
      RunsAreSound(FRESH, before);
      StepAdmits(End(FRESH, before), e, Current(before), a);
      LiveSnoc(events, before, e, a);
    }
  }

  // ---- what is asked of upstream ----

  /** The request goes on to upstream: a forward of what is not forwarded, a cancel of what is, or any other. */
  ghost predicate GoesOn(events: seq<Event>, r: Request) {
    r.Other? || (r.Forward? && !Live(events, r.at)) || (r.CancelForward? && Live(events, r.at))
  }

  /** At every point of every run, the check lets exactly those requests go on and answers the rest at once. */
  lemma CheckDecides(events: seq<Event>)
    requires Possible(FRESH, events) && End(FRESH, events).handler.Begun?
    ensures var h, after := End(FRESH, events).handler, Step(End(FRESH, events), Check).handler;
            after == if GoesOn(events, h.request) then Checked(h.request, h.op) else Idle
  {
    var h := End(FRESH, events).handler;
    if !h.request.Other? { OnlyGrantedForwardsPass(events, h.request.at); }
  }

  /** Event `k` is the check of the request that is handled last, and `a` was forwarded then. */
  ghost predicate CheckedLive(events: seq<Event>, k: nat, a: Endpoint) {
    && k < |events| && events[k] == Check && Live(events[..k], a)
    && forall j :: k < j < |events| ==> !events[j].Start? && events[j] != Check
  }

  lemma CheckedEarlier(events: seq<Event>, before: seq<Event>, e: Event, k: nat, a: Endpoint)
    requires events == before + [e] && !e.Start? && e != Check && CheckedLive(before, k, a)
    ensures CheckedLive(events, k, a)
  {
    assert events[..k] == before[..k];
  }

  lemma StaysChecked(w: World, e: Event)
    requires Enabled(w, e) && Step(w, e).handler.Checked? && e != Check
    ensures w.handler == Step(w, e).handler && !e.Start?
  {
  }

  /** In every run, a cancel that is put to upstream was checked when its endpoint was forwarded. */
  lemma {:induction false} CancelWasLive(events: seq<Event>, a: Endpoint) returns (k: nat)
    requires Possible(FRESH, events)
    requires var h := End(FRESH, events).handler; h.Checked? && h.request == CancelForward(a)
    ensures CheckedLive(events, k, a)
    decreases |events|
  {
    var before, e := events[..|events| - 1], events[|events| - 1];
    assert events == before + [e];
    if e == Check {
      k := |before|;
      CheckDecides(before);
    } else {
      StaysChecked(End(FRESH, before), e);
      k := CancelWasLive(before, a);
      CheckedEarlier(events, before, e, k, a);
    }
  }

  // ---- the host that is granted ----

  /** Authorised for port zero on a host in square brackets, a forward admits connections for another host. */
  lemma BracketsAdmitAnotherHost(host: string, port: nat, run: seq<Event>)
    requires Enclosed(host) && |run| == 3
    requires run[0] == Start(Forward(Endpoint(host, 0)), Some(0), true)
    requires run[1] == Check && run[2] == Accept(Some(port))
    ensures var a := Endpoint(host[1..|host| - 1], port);
            a.host != host && Possible(FRESH, run) && Admits(End(FRESH, run), a)
  {
    var at, a := Endpoint(host, 0), Endpoint(host[1..|host| - 1], port);
    BracketsStripped(at, a);
    ActualKeyIsKey(at, Some(port));
    ForwardedAdmits(at, Some(port), a, run);
  }

  lemma ForwardedAdmits(at: Endpoint, reported: Option<nat>, a: Endpoint, run: seq<Event>)
    requires ActualKey(Key(at), reported) == Key(a) && |run| == 3
    requires run[0] == Start(Forward(at), Some(0), true) && run[1] == Check && run[2] == Accept(reported)
    ensures Possible(FRESH, run) && Admits(End(FRESH, run), a)
  {
    OneForward(at, reported, run);
  }

  lemma OneForward(at: Endpoint, reported: Option<nat>, run: seq<Event>)
    requires |run| == 3
    requires run[0] == Start(Forward(at), Some(0), true) && run[1] == Check && run[2] == Accept(reported)
    ensures Possible(FRESH, run) && End(FRESH, run) == Forwarded(FRESH, at, 0, reported)
  {
    assert run[..1] == [] + [run[0]] && run[..2] == run[..1] + [run[1]] && run == run[..2] + [run[2]];
    ForwardRun([], FRESH, at, 0, reported, run[..1], run[..2], run);
    LeadsToEnd(run, Forwarded(FRESH, at, 0, reported));
  }

  lemma BracketsStripped(at: Endpoint, a: Endpoint)
    requires Enclosed(at.host) && at.port == 0 && a.host == at.host[1..|at.host| - 1]
    ensures Actual(at, Some(a.port)) == a && a.host != at.host
  {
    GrantedHostIsRequested(at, Some(a.port));
    DigitsArePlain(0);
    SplitUndoesJoin(at.host, Numerals.Format(0, 10));
  }
}
