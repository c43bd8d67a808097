/**
 The connection under a clock.  A timer fires no earlier than it is due and only when no other timer is
 due before it; it may fire late.  An interval is armed anew after its callback has run.
 */
module WebSocketTimers {
  import opened Common
  import opened Reals
  import opened WebSocketManager

  /** Timers due at the same time fire in the order in which they were armed, or in any order. */
  datatype Ties = Fifo | Any

  datatype Due = Due(at: real, order: nat)

  /** `due` says of every live timer when it is due; `armed` counts the armings. */
  datatype Clocked = Clocked(s: State, now: real, due: map<nat, Due>, armed: nat)

  datatype Event = At(time: real, a: Action)

  const START := Clocked(INIT, 0.0, map[], 0)

  predicate Before(x: Due, y: Due) { x.at < y.at || (x.at == y.at && x.order < y.order) }

  /** `x` fires before `y` whatever happens. */
  predicate Beats(ties: Ties, x: Due, y: Due) { if ties.Fifo? then Before(x, y) else x.at < y.at }

  predicate First(ties: Ties, x: Clocked, t: nat)
    requires t in x.due
  {
    forall id :: id in x.due ==> !Beats(ties, x.due[id], x.due[t])
  }

  predicate Happens(ties: Ties, x: Clocked, e: Event) {
    && e.time >= x.now && Enabled(x.s, e.a)
    && (e.a.Fires? ==> e.a.timer in x.due && x.due[e.a.timer].at <= e.time && First(ties, x, e.a.timer))
  }

  /** A new timer, and after it the interval that has fired, is armed at the time of the event. */
  function Rearm(x: Clocked, live: map<nat, Timer>, e: Event): map<nat, Due> {
    map id | id in live ::
      if e.a.Fires? && e.a.timer == id then Due(e.time + live[id].ms, x.armed + 1)
      else if id in x.due then x.due[id]
      else Due(e.time + live[id].ms, x.armed)
  }

  function ClockedStep(c: Config, ties: Ties, x: Clocked, e: Event): Clocked {
    if !Happens(ties, x, e) then x else
    var s' := Step(c, x.s, e.a);
    Clocked(s', e.time, Rearm(x, s'.live, e), x.armed + 2)
  }

  function ClockedRun(c: Config, ties: Ties, x: Clocked, es: seq<Event>): Clocked
    decreases es
  {
    if es == [] then x else ClockedRun(c, ties, ClockedStep(c, ties, x, es[0]), es[1..])
  }

  predicate AllCalm(es: seq<Event>) { forall i :: 0 <= i < |es| ==> Calm(es[i].a) }

  /** Pings are far enough apart: each pong timeout is over, and first in line, before the next ping. */
  predicate Spaced(c: Config, ties: Ties) {
    c.pingTimeout < c.pingInterval || (c.pingTimeout == c.pingInterval && ties.Fifo?)
  }

  // ----- With pings far enough apart no pong timer is ever lost -----

  /** A live pong timer fires before the ping timer, if there is one. */
  ghost predicate PongsFirst(c: Config, ties: Ties, x: Clocked) {
    forall p :: p in x.s.live && p in x.due && x.s.live[p].kind == PongTimeout ==>
      && x.due[p].at <= x.now + c.pingTimeout * 1000.0
      && forall q :: q in x.s.live && q in x.due && x.s.live[q].kind == PingInterval ==> Beats(ties, x.due[p], x.due[q])
  }

  ghost predicate Kept(c: Config, ties: Ties, x: Clocked) {
    && Inv(c, x.s) && TimesOk(c, x.s) && Tracked(x.s, x.s.pongTimer, PongTimeout)
    && x.due.Keys == x.s.live.Keys && (forall id :: id in x.due ==> x.due[id].order < x.armed)
    && PongsFirst(c, ties, x)
  }

  /** No ping goes out while a pong timer runs. */
  lemma NoPingMeanwhile(c: Config, ties: Ties, x: Clocked, e: Event)
    requires Kept(c, ties, x) && Happens(ties, x, e)
    ensures !(SendsPing(x.s, e.a) && PongLive(x.s))
  {
    if SendsPing(x.s, e.a) {
      forall p | p in x.s.live ensures x.s.live[p].kind != PongTimeout {
        assert p in x.due && e.a.timer in x.due;
      }
    }
  }

  /** Of the timers after a step, those from before are as before, and a new one has its cause. */
  ghost predicate Caused(s: State, a: Action, live: map<nat, Timer>) {
    forall id :: id in live ==>
      if id in s.live then live[id] == s.live[id]
      else (live[id].kind == PongTimeout ==> SendsPing(s, a)) && (live[id].kind == PingInterval ==> a.Opens?)
  }

  lemma ScheduleCaused(c: Config, s: State, a: Action, s1: State)
    requires s1.nextTimer == s.nextTimer && s.nextTimer !in s.live
    requires forall id :: id in s1.live ==> id in s.live && s1.live[id] == s.live[id]
    ensures Caused(s, a, ScheduleReconnect(c, s1).live)
  {}

  lemma FiresCaused(c: Config, s: State, t: nat)
    requires Inv(c, s) && t in s.live
    ensures Caused(s, Fires(t, false), FiresStep(c, s, t, false).live)
  {
    if s.live[t].kind == PongTimeout {
      ScheduleCaused(c, s, Fires(t, false), Cleanup(s.(live := s.live - {t})));
    }
  }

  lemma StepCaused(c: Config, s: State, a: Action)
    requires Inv(c, s) && Calm(a)
    ensures Caused(s, a, Step(c, s, a).live)
  {
    if Enabled(s, a) {
      match a
      case Opens(i) =>
        var s1 := StartPing(c, SetReady(s, i, Open).(conn := Connected, attempts := 0));
        SendAllKeepsTimers(s1, s1.subs);
      case Closes(i) => ScheduleCaused(c, s, a, Cleanup(SetReady(s, i, Closed)));
      case Fires(t, _) => FiresCaused(c, s, t);
      case _ =>
    }
  }

  lemma StepKept(c: Config, ties: Ties, x: Clocked, e: Event)
    requires Spaced(c, ties) && Kept(c, ties, x) && Calm(e.a)
    ensures Kept(c, ties, ClockedStep(c, ties, x, e))
  {
    if Happens(ties, x, e) {
      StepKeepsInv(c, x.s, e.a);
      StepKeepsTimes(c, x.s, e.a);
      NoPingMeanwhile(c, ties, x, e);
      PongTrackedExactlyUnless(c, x.s, e.a);
      StepKeepsPongsFirst(c, ties, x, e);
      KeptAt(c, ties, x, e, Step(c, x.s, e.a));
    }
  }

  /** The rest of it is the bookkeeping of what is due when. */
  lemma KeptAt(c: Config, ties: Ties, x: Clocked, e: Event, s': State)
    requires forall id :: id in x.due ==> x.due[id].order < x.armed
    requires Inv(c, s') && TimesOk(c, s') && Tracked(s', s'.pongTimer, PongTimeout)
    requires PongsFirst(c, ties, Clocked(s', e.time, Rearm(x, s'.live, e), x.armed + 2))
    ensures Kept(c, ties, Clocked(s', e.time, Rearm(x, s'.live, e), x.armed + 2))
  {
    assert Rearm(x, s'.live, e).Keys == s'.live.Keys;
  }

  lemma StepKeepsPongsFirst(c: Config, ties: Ties, x: Clocked, e: Event)
    requires Spaced(c, ties) && Kept(c, ties, x) && Calm(e.a) && Happens(ties, x, e)
    requires TimesOk(c, Step(c, x.s, e.a))
    ensures PongsFirst(c, ties, ClockedStep(c, ties, x, e))
  {
    var x' := ClockedStep(c, ties, x, e);
    NoPingMeanwhile(c, ties, x, e);
    StepCaused(c, x.s, e.a);
    FiredPongIsGone(c, x.s, e.a);
    forall p | p in x'.s.live && p in x'.due && x'.s.live[p].kind == PongTimeout
      ensures x'.due[p].at <= x'.now + c.pingTimeout * 1000.0
      ensures forall q :: q in x'.s.live && q in x'.due && x'.s.live[q].kind == PingInterval ==>
                Beats(ties, x'.due[p], x'.due[q])
    {
      assert TimeOk(c, x'.s.live[p]);
      forall q | q in x'.s.live && q in x'.due && x'.s.live[q].kind == PingInterval
        ensures Beats(ties, x'.due[p], x'.due[q])
      {
        assert TimeOk(c, x'.s.live[q]);
        if p in x.s.live && q in x.s.live { assert Beats(ties, x.due[p], x.due[q]); }
      }
    }
  }

  /** A timeout that has fired is live no more. */
  lemma FiredPongIsGone(c: Config, s: State, a: Action)
    requires Inv(c, s) && Calm(a)
    ensures a.Fires? && a.timer in s.live && s.live[a.timer].kind == PongTimeout ==> a.timer !in Step(c, s, a).live
  {}

  lemma {:induction false} RunKept(c: Config, ties: Ties, x: Clocked, es: seq<Event>)
    requires Spaced(c, ties) && Kept(c, ties, x) && AllCalm(es)
    ensures Kept(c, ties, ClockedRun(c, ties, x, es))
    decreases es
  {
    if es != [] {
      StepKept(c, ties, x, es[0]);
      RunKept(c, ties, ClockedStep(c, ties, x, es[0]), es[1..]);
    }
  }

  // ----- Otherwise a connection that answers can be dropped -----

  /**
   From `x`, a message has come since the last ping, so that no timeout is tracked, and yet a timeout
   fires and the connection is given up.
   */
  predicate DropsAnswered(c: Config, x: Clocked, a: Action) {
    && x.s.conn.Connected? && x.s.pongTimer.None?
    && a.Fires? && a.timer in x.s.live && x.s.live[a.timer].kind == PongTimeout
    && Step(c, x.s, a).conn.Reconnecting?
  }

  /** A run from `x`, throwing nothing, all of it possible under the clock, that ends in such a drop. */
  ghost predicate StrayRun(c: Config, ties: Ties, x: Clocked, es: seq<Event>)
    decreases es
  {
    && es != [] && Calm(es[0].a) && Happens(ties, x, es[0])
    && if |es| == 1 then DropsAnswered(c, x, es[0].a) else StrayRun(c, ties, ClockedStep(c, ties, x, es[0]), es[1..])
  }

  /** Connected on socket 0, every ping answered, ping timer 0 running and timeout 1 lost. */
  ghost predicate Lost(c: Config, x: Clocked) {
    && x.s.conn.Connected? && x.s.ws == Some(0) && x.s.attempts == 0 && |x.s.sockets| == 1 && x.s.sockets[0].attached
    && x.s.pingTimer == Some(0) && x.s.pongTimer.None? && x.s.reconnectTimer.None? && x.s.nextTimer > 1
    && x.s.live == map[0 := Timer(PingInterval, c.pingInterval * 1000.0), 1 := Timer(PongTimeout, c.pingTimeout * 1000.0)]
    && x.due.Keys == {0, 1} && x.now <= x.due[0].at && x.now <= x.due[1].at
    && x.due[0].order < x.armed && x.due[1].order < x.armed
  }

  /** The event happens and leads from `x` to `y`. */
  ghost predicate Leads(c: Config, ties: Ties, x: Clocked, e: Event, y: Clocked) {
    Calm(e.a) && Happens(ties, x, e) && ClockedStep(c, ties, x, e) == y
  }

  lemma {:induction false} StrayFrom(c: Config, ties: Ties, x: Clocked, e: Event, y: Clocked, rest: seq<Event>)
    requires Leads(c, ties, x, e, y) && StrayRun(c, ties, y, rest)
    ensures StrayRun(c, ties, x, [e] + rest)
  {
    assert ([e] + rest)[1..] == rest;
  }

  lemma PingSent(c: Config, ties: Ties, x: Clocked) returns (x1: Clocked)
    requires Lost(c, x) && Beats(ties, x.due[0], x.due[1])
    ensures Leads(c, ties, x, At(x.due[0].at, Fires(0, false)), x1)
    ensures var n := x.s.nextTimer;
      && x1.s == x.s.(pongTimer := Some(n), nextTimer := n + 1, sockets := x1.s.sockets,
                      live := x.s.live[n := Timer(PongTimeout, c.pingTimeout * 1000.0)])
      && |x1.s.sockets| == 1 && x1.s.sockets[0].attached
      && x1.now == x.due[0].at && x1.armed == x.armed + 2 && x1.due.Keys == {0, 1, n} && x1.due[1] == x.due[1]
      && x1.due[0] == Due(x.due[0].at + c.pingInterval * 1000.0, x.armed + 1)
  {
    assert Happens(ties, x, At(x.due[0].at, Fires(0, false)));
    x1 := ClockedStep(c, ties, x, At(x.due[0].at, Fires(0, false)));
  }

  /** The next ping goes out and is answered at once. */
  lemma PingAnswered(c: Config, ties: Ties, x: Clocked) returns (x1: Clocked, x2: Clocked)
    requires Lost(c, x) && c.pingInterval >= 1.0 && Beats(ties, x.due[0], x.due[1])
    ensures Leads(c, ties, x, At(x.due[0].at, Fires(0, false)), x1) && Leads(c, ties, x1, At(x.due[0].at, Receives(0)), x2)
    ensures Lost(c, x2) && x2.due[1] == x.due[1] && x2.due[0].at == x.due[0].at + c.pingInterval * 1000.0
  {
    x1 := PingSent(c, ties, x);
    x2 := ClockedStep(c, ties, x1, At(x.due[0].at, Receives(0)));
    assert x2.s.live == x.s.live;
    assert x2.due.Keys == {0, 1};
  }

  lemma {:induction false} LostTimeoutDrops(c: Config, ties: Ties, x: Clocked)
    requires Lost(c, x) && First(ties, x, 1)
    ensures StrayRun(c, ties, x, [At(x.due[1].at, Fires(1, false))])
  {
    assert DropsAnswered(c, x, Fires(1, false));
  }

  lemma {:induction false} LostIsDropped(c: Config, ties: Ties, x: Clocked, pings: nat) returns (es: seq<Event>)
    requires Lost(c, x) && c.pingInterval >= 1.0
    requires x.due[1].at < x.due[0].at + Times(c.pingInterval * 1000.0, pings)
    ensures StrayRun(c, ties, x, es)
    decreases pings
  {
    if First(ties, x, 1) {
      LostTimeoutDrops(c, ties, x);
      es := [At(x.due[1].at, Fires(1, false))];
    } else {
      assert Beats(ties, x.due[0], x.due[1]);
      var x1, x2 := PingAnswered(c, ties, x);
      var rest := LostIsDropped(c, ties, x2, pings - 1);
      StrayFrom(c, ties, x1, At(x.due[0].at, Receives(0)), x2, rest);
      es := [At(x.due[0].at, Receives(0))] + rest;
      StrayFrom(c, ties, x, At(x.due[0].at, Fires(0, false)), x1, es);
      es := [At(x.due[0].at, Fires(0, false))] + es;
    }
  }

  function PingTimer(c: Config): Timer { Timer(PingInterval, c.pingInterval * 1000.0) }

  function PongTimer(c: Config): Timer { Timer(PongTimeout, c.pingTimeout * 1000.0) }

  /** Just connected, then with one ping out, with two, and with the message that answers both. */
  function Opened(c: Config): Clocked {
    Clocked(State(Connected, Some(0), [], 0, Some(0), None, None, [Socket(Open, true, [])], map[0 := PingTimer(c)], 1),
            0.0, map[0 := Due(c.pingInterval * 1000.0, 2)], 4)
  }

  function Pinged(c: Config): Clocked {
    var p, t := c.pingInterval * 1000.0, c.pingTimeout * 1000.0;
    Clocked(State(Connected, Some(0), [], 0, Some(0), Some(1), None, [Socket(Open, true, [Ping])],
                  map[0 := PingTimer(c), 1 := PongTimer(c)], 2),
            p, map[0 := Due(p + p, 5), 1 := Due(p + t, 4)], 6)
  }

  function PingedTwice(c: Config): Clocked {
    var p, t := c.pingInterval * 1000.0, c.pingTimeout * 1000.0;
    Clocked(State(Connected, Some(0), [], 0, Some(0), Some(2), None, [Socket(Open, true, [Ping, Ping])],
                  map[0 := PingTimer(c), 1 := PongTimer(c), 2 := PongTimer(c)], 3),
            p + p, map[0 := Due(p + p + p, 7), 1 := Due(p + t, 4), 2 := Due(p + p + t, 6)], 8)
  }

  function Answered(c: Config): Clocked {
    var p, t := c.pingInterval * 1000.0, c.pingTimeout * 1000.0;
    Clocked(State(Connected, Some(0), [], 0, Some(0), None, None, [Socket(Open, true, [Ping, Ping])],
                  map[0 := PingTimer(c), 1 := PongTimer(c)], 3),
            p + p, map[0 := Due(p + p + p, 7), 1 := Due(p + t, 4)], 10)
  }

  lemma ToOpened(c: Config, ties: Ties) returns (x: Clocked)
    ensures Leads(c, ties, START, At(0.0, Connect(false)), x) && Leads(c, ties, x, At(0.0, Opens(0)), Opened(c))
  {
    x := ClockedStep(c, ties, START, At(0.0, Connect(false)));
    assert x == Clocked(State(Connecting, Some(0), [], 0, None, None, None, [Socket(Opening, true, [])], map[], 0),
                        0.0, map[], 2);
    var y := ClockedStep(c, ties, x, At(0.0, Opens(0)));
    assert y.s == Opened(c).s;
    assert y.due == Opened(c).due;
  }

  lemma ToPinged(c: Config, ties: Ties)
    requires c.pingInterval >= 1.0
    ensures Leads(c, ties, Opened(c), At(c.pingInterval * 1000.0, Fires(0, false)), Pinged(c))
  {
    var e := At(c.pingInterval * 1000.0, Fires(0, false));
    assert Happens(ties, Opened(c), e);
    var y := ClockedStep(c, ties, Opened(c), e);
    assert [] + [Ping] == [Ping];
    assert y.s.sockets == Pinged(c).s.sockets;
    assert y.s == Pinged(c).s;
    assert y.due == Pinged(c).due;
  }

  lemma ToPingedTwice(c: Config, ties: Ties)
    requires c.pingInterval >= 1.0 && !Spaced(c, ties)
    ensures Leads(c, ties, Pinged(c), At(2.0 * (c.pingInterval * 1000.0), Fires(0, false)), PingedTwice(c))
  {
    var e := At(2.0 * (c.pingInterval * 1000.0), Fires(0, false));
    assert Happens(ties, Pinged(c), e);
    var y := ClockedStep(c, ties, Pinged(c), e);
    assert [Ping] + [Ping] == [Ping, Ping];
    assert y.s.sockets == PingedTwice(c).s.sockets;
    assert y.s.live == PingedTwice(c).s.live;
    assert y.due == PingedTwice(c).due;
  }

  lemma ToAnswered(c: Config, ties: Ties)
    ensures Leads(c, ties, PingedTwice(c), At(2.0 * (c.pingInterval * 1000.0), Receives(0)), Answered(c))
  {
    var y := ClockedStep(c, ties, PingedTwice(c), At(2.0 * (c.pingInterval * 1000.0), Receives(0)));
    assert y.s.live == Answered(c).s.live;
    assert y.due == Answered(c).due;
  }

  /** Enough intervals pass any time. */
  lemma Enough(t: real, p: real) returns (n: nat)
    requires p >= 1.0
    ensures t < Times(p, n)
  {
    n := if t < 0.0 then 1 else t.Floor + 1;
    TimesIsProduct(p, n);
    Scale(n as real, 1.0, p);
  }

  lemma StrayFromPingedTwice(c: Config, ties: Ties) returns (es: seq<Event>)
    requires c.pingInterval >= 1.0 && !Spaced(c, ties)
    ensures StrayRun(c, ties, PingedTwice(c), es)
  {
    var e, x := At(2.0 * (c.pingInterval * 1000.0), Receives(0)), Answered(c);
    var n := Enough(x.due[1].at - x.due[0].at, c.pingInterval * 1000.0);
    var rest := LostIsDropped(c, ties, x, n);
    ToAnswered(c, ties);
    StrayFrom(c, ties, PingedTwice(c), e, x, rest);
    es := [e] + rest;
  }

  lemma StrayFromOpened(c: Config, ties: Ties) returns (es: seq<Event>)
    requires c.pingInterval >= 1.0 && !Spaced(c, ties)
    ensures StrayRun(c, ties, Opened(c), es)
  {
    var e, f := At(c.pingInterval * 1000.0, Fires(0, false)), At(2.0 * (c.pingInterval * 1000.0), Fires(0, false));
    var rest := StrayFromPingedTwice(c, ties);
    ToPingedTwice(c, ties);
    StrayFrom(c, ties, Pinged(c), f, PingedTwice(c), rest);
    rest := [f] + rest;
    ToPinged(c, ties);
    StrayFrom(c, ties, Opened(c), e, Pinged(c), rest);
    es := [e] + rest;
  }

  /** Two pings before the first message lose the first timeout. */
  lemma StrayRunExists(c: Config, ties: Ties) returns (es: seq<Event>)
    requires c.pingInterval >= 1.0 && !Spaced(c, ties)
    ensures StrayRun(c, ties, START, es)
  {
    var rest := StrayFromOpened(c, ties);
    var x1 := ToOpened(c, ties);
    StrayFrom(c, ties, x1, At(0.0, Opens(0)), Opened(c), rest);
    rest := [At(0.0, Opens(0))] + rest;
    StrayFrom(c, ties, START, At(0.0, Connect(false)), x1, rest);
    es := [At(0.0, Connect(false))] + rest;
  }

  lemma {:induction false} KeptNotStray(c: Config, ties: Ties, x: Clocked, es: seq<Event>)
    requires Spaced(c, ties) && Kept(c, ties, x)
    ensures !StrayRun(c, ties, x, es)
    decreases es
  {
    if StrayRun(c, ties, x, es) && |es| > 1 {
      StepKept(c, ties, x, es[0]);
      KeptNotStray(c, ties, ClockedStep(c, ties, x, es[0]), es[1..]);
    }
  }

  /** Some run from the start drops a connection that has answered. */
  ghost predicate CanStray(c: Config, ties: Ties, x: Clocked) { exists es :: StrayRun(c, ties, x, es) }

  /**
   A connection that has answered its pings can be dropped for a missing pong exactly if the next ping
   can go out before the previous one's timeout is over: with the intervals configured the other way
   round no run, however late its timers, loses track of a timeout.
   */
  lemma StrayPongDropsConnectionExactly(c: Config, ties: Ties)
    requires c.pingInterval >= 1.0 && c.pingTimeout >= 1.0
    ensures CanStray(c, ties, START) <==> !Spaced(c, ties)
  {
    if Spaced(c, ties) {
      forall es ensures !StrayRun(c, ties, START, es) { KeptNotStray(c, ties, START, es); }
    } else {
      var es := StrayRunExists(c, ties);
      StrayWitness(c, ties, START, es);
    }
  }

  lemma {:induction false} StrayWitness(c: Config, ties: Ties, x: Clocked, es: seq<Event>)
    requires StrayRun(c, ties, x, es)
    ensures CanStray(c, ties, x)
  {}

  /** With pings far enough apart the manager keeps track of every pong timer it has started, in every run. */
  lemma {:induction false} PongAlwaysTracked(c: Config, ties: Ties, es: seq<Event>)
    requires Spaced(c, ties) && AllCalm(es)
    ensures var s := ClockedRun(c, ties, START, es).s; Tracked(s, s.pongTimer, PongTimeout)
  {
    RunKept(c, ties, START, es);
  }
}
