/** A connection with a lifetime limit and an idle limit, enforced by one timer that activity never re-arms. */
module SessionTimeout {
  import opened Wrappers

  /** A limit of zero or less is no limit. */
  datatype Policy = Policy(maxDuration: int, idleTimeout: int)

  /** Times are counted from when the connection started; `timer` is when the armed timer fires. */
  datatype Conn = Conn(last: int, closed: bool, policy: Policy, timer: Option<int>)

  /** The earlier of the two limits, from the stored activity; `None` is Go's zero time. */
  function Deadline(policy: Policy, last: int): (d: Option<int>)
    ensures d.None? <==> policy.maxDuration <= 0 && policy.idleTimeout <= 0
    ensures policy.maxDuration > 0 ==> d.value <= policy.maxDuration
    ensures policy.idleTimeout > 0 ==> d.value <= last + policy.idleTimeout
    ensures d.Some? ==> (policy.maxDuration > 0 && d.value == policy.maxDuration) ||
                        (policy.idleTimeout > 0 && d.value == last + policy.idleTimeout)
  {
    var lifetime := if policy.maxDuration > 0 then Some(policy.maxDuration) else None;
    if policy.idleTimeout > 0 then
      var idle := last + policy.idleTimeout;
      if lifetime.None? || idle < lifetime.value then Some(idle) else lifetime
    else lifetime
  }

  predicate Expired(c: Conn, now: int) {
    Deadline(c.policy, c.last).Some? && Deadline(c.policy, c.last).value <= now
  }

  /** The timer after scheduling a policy that has not expired. */
  function Rearmed(c: Conn): Conn { c.(timer := Deadline(c.policy, c.last)) }

  function Shut(c: Conn): Conn { if c.closed then c else c.(closed := true, timer := None) }

  class SessionPolicyConn {
    var last: int
    var closed: bool
    var policy: Policy
    var timer: Option<int>

    function Value(): Conn
      reads this
    {
      Conn(last, closed, policy, timer)
    }

    /** `now` is the time since the connection started, which is zero here. */
    constructor (policy: Policy)
      ensures Value() == Rearmed(Conn(0, false, policy, None))
    {
      last, closed, this.policy, timer := 0, false, Policy(0, 0), None;
      new;
      ApplyPolicy(policy, 0);
    }

    method NextDeadline() returns (deadline: Option<int>)
      ensures deadline == Deadline(policy, last)
    {
      deadline := None;
      if policy.maxDuration > 0 { deadline := Some(policy.maxDuration); }
      if policy.idleTimeout > 0 {
        var idle := last + policy.idleTimeout;
        if deadline.None? || idle < deadline.value { deadline := Some(idle); }
      }
    }

    method Schedule(now: int) returns (expired: bool)
      modifies this`timer
      ensures expired == Expired(old(Value()), now)
      ensures expired ==> Value() == old(Value())
      ensures !expired ==> Value() == old(Value()).(timer := Deadline(policy, last))
    {
      var deadline := NextDeadline();
      if deadline.None? {
        timer := None;
        return false;
      }
      var delay := deadline.value - now;
      if delay <= 0 { return true; }
      timer := Some(now + delay);
      return false;
    }

    method ApplyPolicy(p: Policy, now: int)
      modifies this
      ensures var was := old(Value());
              var after := was.(policy := p);
              Value() == if was.closed then was else if Expired(after, now) then Shut(after) else Rearmed(after)
    {
      if closed { return; }
      policy := p;
      var expired := Schedule(now);
      if expired { Close(); }
    }

    method OnTimer(now: int)
      modifies this
      ensures var was := old(Value());
              Value() == if was.closed then was else if Expired(was, now) then Shut(was) else Rearmed(was)
    {
      if closed { return; }
      var expired := Schedule(now);
      if expired { Close(); }
    }

    method Close()
      modifies this
      ensures Value() == Shut(old(Value()))
    {
      if closed { return; }
      closed := true;
      timer := None;
    }

    /** Activity stores a time that was read a moment earlier and touches nothing else. */
    method Touch(at: int)
      modifies this`last
      ensures Value() == old(Value()).(last := at)
    {
      last := at;
    }
  }

  // ---- timed runs ----

  /**
    `latest` is the greatest activity ever stored. `closing` is the deadline found to have passed while the
    call to `Close` is still outstanding; `verdict` records the one that closed the connection.
   */
  datatype World = World(now: int, conn: Conn, latest: int, closing: Option<int>, verdict: Option<int>)

  datatype Event =
    | Tick(until: int)          // time passes
    | Apply(policy: Policy)     // a new policy
    | Wake                      // the timer callback, possibly late or superseded
    | Activity(at: int)         // a time read at `at` is stored now
    | Finish                    // the outstanding call to Close
    | Close                     // a call to Close from outside

  /** Timers are punctual: time neither passes an armed timer nor an outstanding Close. */
  predicate Enabled(w: World, e: Event) {
    match e
    case Tick(until) =>
      w.now <= until && w.closing.None? && (!w.conn.closed && w.conn.timer.Some? ==> until <= w.conn.timer.value)
    case Activity(at) => 0 <= at <= w.now
    case Finish => w.closing.Some?
    case _ => true
  }

  function Decide(w: World, c: Conn): World {
    if Expired(c, w.now) then w.(conn := c, closing := Deadline(c.policy, c.last))
    else w.(conn := Rearmed(c))
  }

  function Step(w: World, e: Event): World
    requires Enabled(w, e)
  {
    match e
    case Tick(until) => w.(now := until)
    case Apply(p) => if w.conn.closed then w else Decide(w, w.conn.(policy := p))
    case Wake => if w.conn.closed then w else Decide(w, w.conn)
    case Activity(at) => w.(conn := w.conn.(last := at), latest := if at > w.latest then at else w.latest)
    case Finish =>
      w.(conn := Shut(w.conn), closing := None, verdict := if w.conn.closed then w.verdict else w.closing)
    case Close => w.(conn := Shut(w.conn))
  }

  predicate Possible(w: World, events: seq<Event>)
    decreases events
  {
    events == [] || (Enabled(w, events[0]) && Possible(Step(w, events[0]), events[1..]))
  }

  function End(w: World, events: seq<Event>): World
    requires Possible(w, events)
    decreases events
  {
    if events == [] then w else End(Step(w, events[0]), events[1..])
  }

  function Opened(policy: Policy): World {
    World(0, Rearmed(Conn(0, false, policy, None)), 0, None, None)
  }

  /** Time `t` is past neither limit, the idle limit counted from the activity `last`. */
  predicate Within(policy: Policy, last: int, t: int) {
    (policy.maxDuration > 0 ==> t <= policy.maxDuration) && (policy.idleTimeout > 0 ==> t <= last + policy.idleTimeout)
  }

  /** An open connection is within its limits, and so is the timer that guards them. */
  predicate Guarded(w: World) {
    !w.conn.closed && w.closing.None? && Deadline(w.conn.policy, 0).Some? ==>
      w.conn.timer.Some? && w.now <= w.conn.timer.value && Within(w.conn.policy, w.latest, w.conn.timer.value)
  }

  /** What was found to have passed has passed. */
  predicate Justified(w: World) {
    (w.closing.Some? ==> w.closing.value <= w.now) && (w.verdict.Some? ==> w.verdict.value <= w.now)
  }

  predicate Sound(w: World) {
    && 0 <= w.now && w.conn.last <= w.latest <= w.now && Guarded(w) && Justified(w)
    && (w.conn.closed ==> w.conn.timer.None?)
  }

  lemma OpenedIsSound(policy: Policy)
    ensures Sound(Opened(policy))
  {
  }

  lemma DecideKeepsSound(w: World, c: Conn)
    requires Sound(w) && !w.conn.closed && c.last == w.conn.last && !c.closed
    ensures Sound(Decide(w, c))
  {
  }

  lemma StepKeepsSound(w: World, e: Event)
    requires Sound(w) && Enabled(w, e)
    ensures Sound(Step(w, e))
  {
    match e
    case Apply(p) => if !w.conn.closed { DecideKeepsSound(w, w.conn.(policy := p)); }
    case Wake => if !w.conn.closed { DecideKeepsSound(w, w.conn); }
    case _ =>
  }

  lemma {:induction false} RunsAreSound(w: World, events: seq<Event>)
    requires Sound(w) && Possible(w, events)
    ensures Sound(End(w, events))
    decreases events
  {
    if events != [] {
      StepKeepsSound(w, events[0]);
      RunsAreSound(Step(w, events[0]), events[1..]);
    }
  }

  /**
    In every timed run, a connection that is open with no Close outstanding is past neither the lifetime
    limit nor the idle limit of its current policy.
   */
  lemma NeverOverstays(policy: Policy, events: seq<Event>)
    requires Possible(Opened(policy), events)
    ensures var w := End(Opened(policy), events);
            !w.conn.closed && w.closing.None? ==> Within(w.conn.policy, w.latest, w.now)
  {
    OpenedIsSound(policy);
    RunsAreSound(Opened(policy), events);
  }

  /** A deadline that is found to have passed is the earlier limit of the policy in force, from the stored activity. */
  lemma NeverHasty(w: World, e: Event)
    requires Sound(w) && Enabled(w, e) && w.closing.None? && Step(w, e).closing.Some?
    ensures var v := Step(w, e);
            && v.closing == Deadline(v.conn.policy, w.conn.last) && v.closing.value <= w.now
            && (e.Apply? || e.Wake?)
            && (e.Wake? ==> v.conn.policy == w.conn.policy)
            && (e.Apply? ==> v.conn.policy == e.policy)
  {
  }

  /** The world before event `i` of a run. */
  function At(w: World, events: seq<Event>, i: nat): World
    requires Possible(w, events) && i <= |events|
    decreases events
  {
    if i == 0 then w else At(Step(w, events[0]), events[1..], i - 1)
  }

  /** At event `i` a connection that is open was found past the earlier limit of the policy then in force. */
  predicate ExpiresAt(w: World, events: seq<Event>, i: nat)
    requires Possible(w, events)
  {
    i < |events| && Running(At(w, events, i)) && Enabled(At(w, events, i), events[i]) &&
    var u, e := At(w, events, i), events[i];
    var v := Step(u, e);
    && (e.Wake? || e.Apply?) && v.conn.policy == (if e.Apply? then e.policy else u.conn.policy)
    && v.closing == Deadline(v.conn.policy, u.conn.last) && v.closing.Some? && v.closing.value <= u.now
  }

  /** Open, and nothing has been found to have passed. */
  predicate Running(w: World) { !w.conn.closed && w.closing.None? }

  /** Event `i` is the first to end the connection, by a Close from outside or by finding it past its limit. */
  predicate EndsAt(w: World, events: seq<Event>, i: nat)
    requires Possible(w, events)
  {
    && i < |events|
    && (forall j :: 0 <= j <= i ==> Running(At(w, events, j)))
    && if At(w, events, i + 1).conn.closed then events[i].Close? else ExpiresAt(w, events, i)
  }

  lemma EndsLater(w: World, events: seq<Event>, i: nat)
    requires events != [] && Possible(w, events) && Running(w) && EndsAt(Step(w, events[0]), events[1..], i)
    ensures EndsAt(w, events, i + 1)
  {
    var v, rest := Step(w, events[0]), events[1..];
    forall j | 0 <= j <= i + 1 ensures Running(At(w, events, j)) {
      if j > 0 { assert Running(At(v, rest, j - 1)); }
    }
    assert At(w, events, i + 2) == At(v, rest, i + 1);
  }

  lemma {:induction false} ReasonInRun(w: World, events: seq<Event>) returns (i: nat)
    requires Sound(w) && Possible(w, events) && Running(w) && !Running(End(w, events))
    ensures EndsAt(w, events, i)
    decreases events
  {
    var e, rest := events[0], events[1..];
    var v := Step(w, e);
    StepKeepsSound(w, e);
    assert At(w, events, 1) == At(v, rest, 0) == v;
    if Running(v) {
      i := ReasonInRun(v, rest);
      EndsLater(w, events, i);
      i := i + 1;
    } else {
      i := 0;
      if v.closing.Some? { NeverHasty(w, e); }
    }
  }

  /**
    A connection that ends up closed has a first event that ended it: a Close from outside, or a decision that
    found it past the earlier limit of the policy then in force.
   */
  lemma ClosedForAReason(policy: Policy, events: seq<Event>)
    requires Possible(Opened(policy), events) && !Running(End(Opened(policy), events))
    ensures exists i: nat :: EndsAt(Opened(policy), events, i)
  {
    OpenedIsSound(policy);
    var i := ReasonInRun(Opened(policy), events);
  }

  // ---- never early, but for stores out of order ----

  /** Some limit of the policy has been reached, the idle limit counted from the activity `last`. */
  predicate Due(p: Policy, last: int, now: int) {
    (p.maxDuration > 0 && p.maxDuration <= now) || (p.idleTimeout > 0 && last + p.idleTimeout <= now)
  }

  /** The idle limit has been reached from the stored activity, but neither limit from the latest. */
  predicate Early(p: Policy, w: World) {
    p.idleTimeout > 0 && w.conn.last + p.idleTimeout <= w.now < w.latest + p.idleTimeout &&
    (p.maxDuration > 0 ==> w.now < p.maxDuration)
  }

  /**
    At every point of every run, a decision about an open connection closes it if a limit of the policy in force
    has been reached from the latest activity; and if none has, it closes it exactly when an older activity was
    stored last and the idle limit has been reached from that.
   */
  lemma DecisionIs(policy: Policy, events: seq<Event>, e: Event)
    requires Possible(Opened(policy), events) && (e.Apply? || e.Wake?)
    requires var w := End(Opened(policy), events); !w.conn.closed && w.closing.None?
    ensures var w := End(Opened(policy), events);
            var p := if e.Apply? then e.policy else w.conn.policy;
            && (Due(p, w.latest, w.now) ==> Step(w, e).closing.Some?)
            && (Step(w, e).closing.Some? && !Due(p, w.latest, w.now) <==> Early(p, w))
  {
    OpenedIsSound(policy);
    RunsAreSound(Opened(policy), events);
  }

  /** Stored activity times never go back. */
  predicate InOrder(w: World, events: seq<Event>)
    requires Possible(w, events)
    decreases events
  {
    events == [] ||
    ((events[0].Activity? ==> events[0].at >= w.conn.last) && InOrder(Step(w, events[0]), events[1..]))
  }

  /** Then the stored activity is the latest, and the two bounds meet. */
  lemma {:induction false} StoredIsLatest(w: World, events: seq<Event>)
    requires Possible(w, events) && InOrder(w, events) && w.conn.last == w.latest
    ensures End(w, events).conn.last == End(w, events).latest
    decreases events
  {
    if events != [] { StoredIsLatest(Step(w, events[0]), events[1..]); }
  }

  /** So a run that stores in order closes no connection early. */
  lemma ExactWhenInOrder(policy: Policy, events: seq<Event>, e: Event)
    requires Possible(Opened(policy), events) && InOrder(Opened(policy), events) && (e.Apply? || e.Wake?)
    requires var w := End(Opened(policy), events); !w.conn.closed && w.closing.None?
    ensures var w := End(Opened(policy), events);
            var p := if e.Apply? then e.policy else w.conn.policy;
            Step(w, e).closing.Some? <==> Due(p, w.latest, w.now)
  {
    StoredIsLatest(Opened(policy), events);
    DecisionIs(policy, events, e);
  }

  /** Two stores out of order end a session early: activity at 6 with an idle limit of 10, closed at 15. */
  lemma OutOfOrderClosesEarly()
    ensures var w := Opened(Policy(0, 10));
            var events := [Tick(6), Activity(6), Activity(5), Tick(10), Wake, Tick(15), Wake];
            Possible(w, events) && End(w, events).latest == 6 && End(w, events).closing == Some(15)
  {
    var w0 := Opened(Policy(0, 10));
    var w1 := Step(w0, Tick(6));
    var w2 := Step(w1, Activity(6));
    var w3 := Step(w2, Activity(5));
    var w4 := Step(w3, Tick(10));
    var w5 := Step(w4, Wake);
    var w6 := Step(w5, Tick(15));
    var w7 := Step(w6, Wake);
    Chain(w6, Wake, []);
    Chain(w5, Tick(15), [Wake]);
    Chain(w4, Wake, [Tick(15), Wake]);
    Chain(w3, Tick(10), [Wake, Tick(15), Wake]);
    Chain(w2, Activity(5), [Tick(10), Wake, Tick(15), Wake]);
    Chain(w1, Activity(6), [Activity(5), Tick(10), Wake, Tick(15), Wake]);
    Chain(w0, Tick(6), [Activity(6), Activity(5), Tick(10), Wake, Tick(15), Wake]);
    assert [Tick(6)] + [Activity(6), Activity(5), Tick(10), Wake, Tick(15), Wake] ==
           [Tick(6), Activity(6), Activity(5), Tick(10), Wake, Tick(15), Wake];
  }

  lemma Chain(w: World, e: Event, rest: seq<Event>)
    requires Enabled(w, e) && Possible(Step(w, e), rest)
    ensures Possible(w, [e] + rest) && End(w, [e] + rest) == End(Step(w, e), rest)
  {
    assert ([e] + rest)[1..] == rest;
  }

  /** Once closed, always closed. */
  lemma {:induction false} StaysClosed(w: World, events: seq<Event>)
    requires Possible(w, events) && w.conn.closed
    ensures End(w, events).conn.closed && End(w, events).verdict == w.verdict
    decreases events
  {
    if events != [] { StaysClosed(Step(w, events[0]), events[1..]); }
  }

  /** A run with a Close in it ends closed. */
  lemma {:induction false} CloseCloses(w: World, events: seq<Event>, i: nat)
    requires Possible(w, events) && i < |events| && events[i].Close?
    ensures End(w, events).conn.closed
    decreases events
  {
    if i == 0 {
      StaysClosed(Step(w, events[0]), events[1..]);
    } else {
      CloseCloses(Step(w, events[0]), events[1..], i - 1);
    }
  }

  /** And so does every run that finds a limit to have passed and is let finish. */
  lemma FinishCloses(w: World, events: seq<Event>)
    requires Enabled(w, Finish) && Possible(Step(w, Finish), events)
    ensures var v := End(Step(w, Finish), events);
            v.conn.closed && v.verdict == if w.conn.closed then w.verdict else w.closing
  {
    StaysClosed(Step(w, Finish), events);
  }

  /** The step, and the outstanding Close if it finds a limit to have passed. */
  function Whole(w: World, e: Event): Conn
    requires Enabled(w, e)
  {
    var v := Step(w, e);
    if w.closing.None? && v.closing.Some? then Step(v, Finish).conn else v.conn
  }

  /** The steps change the connection as its methods do, once the Close they call is through. */
  lemma StepsAreMethods(w: World, p: Policy, at: int)
    requires w.closing.None?
    ensures var after := w.conn.(policy := p);
            Whole(w, Apply(p)) == if w.conn.closed then w.conn
                                  else if Expired(after, w.now) then Shut(after) else Rearmed(after)
    ensures Whole(w, Wake) == if w.conn.closed then w.conn
                              else if Expired(w.conn, w.now) then Shut(w.conn) else Rearmed(w.conn)
    ensures Whole(w, Close) == Shut(w.conn)
    ensures Enabled(w, Activity(at)) ==> Whole(w, Activity(at)) == w.conn.(last := at)
  {
  }

  /** A session without activity is ended at its deadline: time comes that far and no further, and then it expires. */
  lemma EndsAtItsDeadline(policy: Policy, t: int)
    requires Deadline(policy, 0).Some?
    ensures var w, d := Opened(policy), Deadline(policy, 0).value;
            && (Enabled(w, Tick(t)) <==> 0 <= t <= d)
            && (Enabled(w, Tick(t)) ==> (Step(Step(w, Tick(t)), Wake).closing == Some(d) <==> t == d))
  {
  }

  /** Once closed, no timer is armed any more. */
  lemma ClosedHasNoTimer(policy: Policy, events: seq<Event>)
    requires Possible(Opened(policy), events) && End(Opened(policy), events).conn.closed
    ensures End(Opened(policy), events).conn.timer.None?
  {
    OpenedIsSound(policy);
    RunsAreSound(Opened(policy), events);
  }

  /** Time is never stuck: when the clock cannot pass, closing or waking up lets it. */
  lemma ClockGoesOn(w: World, until: int)
    requires Sound(w) && w.now < until && !Enabled(w, Tick(until))
    ensures w.closing.Some? ==> Enabled(w, Finish) && Enabled(Step(w, Finish), Tick(until))
    ensures w.closing.None? && w.conn.timer == Some(w.now) ==>
              var v := Step(w, Wake);
              v.closing.Some? || v.conn.timer.None? || v.conn.timer.value > w.now
  {
  }
}
