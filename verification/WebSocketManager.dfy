/**
 The streaming connection: connection states, three kinds of timer, detachable socket handlers,
 backoff and resubscription.  The environment (sockets and timers) is part of the state, and an
 action is one call by the user, one socket event or one timer firing.  An action that cannot
 happen leaves the state alone.
 */
module WebSocketManager {
  import opened Common
  import opened Backoff
  import opened Reals

  datatype Config = Config(
    pingInterval: real, pingTimeout: real,
    reconnectInitialDelay: real, reconnectMaxDelay: real, reconnectExponentialBase: real, reconnectMaxAttempts: nat)

  predicate Validated(c: Config) {
    0.0 <= c.reconnectInitialDelay <= c.reconnectMaxDelay && c.reconnectExponentialBase >= 1.0
  }

  datatype Conn = Disconnected | Connecting | Connected | Reconnecting

  datatype Ready = Opening | Open | Closed

  datatype Msg = Subscribe(topic: string) | Unsubscribe(topic: string) | Ping

  /** `attached`: the four handlers are set.  `wire`: what has been sent on this socket. */
  datatype Socket = Socket(ready: Ready, attached: bool, wire: seq<Msg>)

  datatype Kind = PingInterval | PongTimeout | ReconnectTimeout

  datatype Timer = Timer(kind: Kind, ms: real)

  /** `live` are the timers that have neither fired (if one-shot) nor been cleared. */
  datatype State = State(
    conn: Conn, ws: Option<nat>, subs: seq<string>, attempts: nat,
    pingTimer: Option<nat>, pongTimer: Option<nat>, reconnectTimer: Option<nat>,
    sockets: seq<Socket>, live: map<nat, Timer>, nextTimer: nat)

  /** `Changes`: a socket's ready state changes without a handler being called. */
  datatype Action =
    | Connect(throws: bool)
    | AddTopic(topic: string)
    | DropTopic(topic: string)
    | Disconnect
    | Opens(socket: nat)
    | Closes(socket: nat)
    | Receives(socket: nat)
    | Changes(socket: nat, ready: Ready)
    | Fires(timer: nat, throws: bool)

  const INIT := State(Disconnected, None, [], 0, None, None, None, [], map[], 0)

  // ----- The code, one function per method -----

  function Unset(live: map<nat, Timer>, t: Option<nat>): map<nat, Timer> {
    if t.Some? then live - {t.value} else live
  }

  function StopPing(s: State): State { s.(live := Unset(s.live, s.pingTimer), pingTimer := None) }

  function ResetPong(s: State): State { s.(live := Unset(s.live, s.pongTimer), pongTimer := None) }

  function StopReconnect(s: State): State { s.(live := Unset(s.live, s.reconnectTimer), reconnectTimer := None) }

  /** Detach the handlers, close the socket if it is open, forget it. */
  function DropSocket(s: State): State {
    if s.ws.None? || s.ws.value >= |s.sockets| then s.(ws := None) else
    var x := s.sockets[s.ws.value];
    s.(ws := None,
       sockets := s.sockets[s.ws.value := x.(attached := false, ready := if x.ready.Open? then Closed else x.ready)])
  }

  function Cleanup(s: State): State { DropSocket(StopReconnect(ResetPong(StopPing(s)))) }

  function NewTimer(s: State, kind: Kind, ms: real): State {
    s.(live := s.live[s.nextTimer := Timer(kind, ms)], nextTimer := s.nextTimer + 1)
  }

  /** The wait before reconnect attempt `k`, rounded to whole milliseconds. */
  function DelayMs(c: Config, k: nat): int
    requires k >= 1
  {
    var ms := (Nominal(c.reconnectInitialDelay, c.reconnectExponentialBase, c.reconnectMaxDelay, k) * 1000.0 + 0.5).Floor;
    if ms < 0 then 0 else ms
  }

  predicate GivesUp(c: Config, s: State) {
    c.reconnectMaxAttempts > 0 && s.attempts >= c.reconnectMaxAttempts
  }

  function ScheduleReconnect(c: Config, s: State): State {
    if s.conn.Disconnected? then s
    else if GivesUp(c, s) then s.(conn := Disconnected)
    else NewTimer(s.(conn := Reconnecting, attempts := s.attempts + 1, reconnectTimer := Some(s.nextTimer)),
                  ReconnectTimeout, DelayMs(c, s.attempts + 1) as real)
  }

  function ConnectStep(c: Config, s: State, throws: bool): State {
    if s.conn.Connected? || s.conn.Connecting? then s
    else if throws then ScheduleReconnect(c, s.(conn := Connecting))
    else s.(conn := Connecting, ws := Some(|s.sockets|), sockets := s.sockets + [Socket(Opening, true, [])])
  }

  function Send(s: State, m: Msg): State {
    if s.ws.None? || s.ws.value >= |s.sockets| then s else
    var x := s.sockets[s.ws.value];
    s.(sockets := s.sockets[s.ws.value := x.(wire := x.wire + [m])])
  }

  function SendAll(s: State, topics: seq<string>): State
    decreases topics
  {
    if topics == [] then s else SendAll(Send(s, Subscribe(topics[0])), topics[1..])
  }

  function StartPing(c: Config, s: State): State {
    var s1 := StopPing(s);
    NewTimer(s1.(pingTimer := Some(s1.nextTimer)), PingInterval, c.pingInterval * 1000.0)
  }

  function SetReady(s: State, i: nat, r: Ready): State
    requires i < |s.sockets|
  {
    s.(sockets := s.sockets[i := s.sockets[i].(ready := r)])
  }

  function OpensStep(c: Config, s: State, i: nat): State
    requires i < |s.sockets|
  {
    var s1 := StartPing(c, SetReady(s, i, Open).(conn := Connected, attempts := 0));
    SendAll(s1, s1.subs)
  }

  function ClosesStep(c: Config, s: State, i: nat): State
    requires i < |s.sockets|
  {
    ScheduleReconnect(c, Cleanup(SetReady(s, i, Closed)))
  }

  function AddTopicStep(s: State, topic: string): State {
    var s1 := s.(subs := if topic in s.subs then s.subs else s.subs + [topic]);
    if s1.conn.Connected? then Send(s1, Subscribe(topic)) else s1
  }

  function Without(topics: seq<string>, topic: string): (r: seq<string>)
    ensures forall t :: t in r <==> t in topics && t != topic
  {
    if topics == [] then []
    else (if topics[0] == topic then [] else [topics[0]]) + Without(topics[1..], topic)
  }

  function DropTopicStep(s: State, topic: string): State {
    var s1 := s.(subs := Without(s.subs, topic));
    if s.conn.Connected? && topic in s.subs then Send(s1, Unsubscribe(topic)) else s1
  }

  /** The ping interval's callback; the old pong timer, if any, is overwritten, not cleared. */
  function PingFires(c: Config, s: State, throws: bool): State {
    if s.ws.None? || !s.conn.Connected? then s
    else if throws then ScheduleReconnect(c, s)
    else
      var s1 := Send(s, Ping);
      NewTimer(s1.(pongTimer := Some(s1.nextTimer)), PongTimeout, c.pingTimeout * 1000.0)
  }

  function FiresStep(c: Config, s: State, t: nat, throws: bool): State
    requires t in s.live
  {
    match s.live[t].kind
    case PingInterval => PingFires(c, s, throws)
    case PongTimeout => ScheduleReconnect(c, Cleanup(s.(live := s.live - {t})))
    case ReconnectTimeout => ConnectStep(c, s.(live := s.live - {t}), throws)
  }

  predicate Enabled(s: State, a: Action) {
    match a
    case Opens(i) => i < |s.sockets| && s.sockets[i].attached
    case Closes(i) => i < |s.sockets| && s.sockets[i].attached
    case Receives(i) => i < |s.sockets| && s.sockets[i].attached
    case Changes(i, _) => i < |s.sockets|
    case Fires(t, _) => t in s.live
    case _ => true
  }

  function Step(c: Config, s: State, a: Action): State {
    if !Enabled(s, a) then s else
    match a
    case Connect(throws) => ConnectStep(c, s, throws)
    case AddTopic(topic) => AddTopicStep(s, topic)
    case DropTopic(topic) => DropTopicStep(s, topic)
    case Disconnect => Cleanup(s.(conn := Disconnected)).(subs := [])
    case Opens(i) => OpensStep(c, s, i)
    case Closes(i) => ClosesStep(c, s, i)
    case Receives(_) => ResetPong(s)
    case Changes(i, ready) => SetReady(s, i, ready)
    case Fires(t, throws) => FiresStep(c, s, t, throws)
  }

  function Run(c: Config, s: State, acts: seq<Action>): State
    decreases acts
  {
    if acts == [] then s else Run(c, Step(c, s, acts[0]), acts[1..])
  }

  /** Neither the socket constructor nor a send throws. */
  predicate Calm(a: Action) {
    match a
    case Connect(throws) => !throws
    case Fires(_, throws) => !throws
    case _ => true
  }

  // ----- What every reachable state satisfies -----

  /** There is a socket exactly while connecting or connected, and it alone has handlers. */
  ghost predicate SocketsOk(s: State) {
    && (s.ws.Some? <==> s.conn.Connecting? || s.conn.Connected?)
    && (s.ws.Some? ==> s.ws.value < |s.sockets|)
    && (forall i :: 0 <= i < |s.sockets| ==> (s.sockets[i].attached <==> s.ws == Some(i)))
  }

  ghost predicate TimerIs(s: State, t: Option<nat>, kind: Kind) {
    t.Some? ==> t.value < s.nextTimer && (t.value in s.live ==> s.live[t.value].kind == kind)
  }

  /** Every live timer of this kind is the one the manager holds. */
  ghost predicate Tracked(s: State, t: Option<nat>, kind: Kind) {
    forall id :: id in s.live && s.live[id].kind == kind ==> t == Some(id)
  }

  ghost predicate TimersOk(s: State) {
    && (forall id :: id in s.live ==> id < s.nextTimer)
    && TimerIs(s, s.pingTimer, PingInterval) && TimerIs(s, s.pongTimer, PongTimeout)
    && TimerIs(s, s.reconnectTimer, ReconnectTimeout)
    && Tracked(s, s.pingTimer, PingInterval) && Tracked(s, s.reconnectTimer, ReconnectTimeout)
    && (s.pingTimer.Some? <==> s.conn.Connected?)
    && (s.pingTimer.Some? ==> s.pingTimer.value in s.live)
    && (s.conn.Reconnecting? ==> s.reconnectTimer.Some? && s.reconnectTimer.value in s.live)
    && (s.conn.Disconnected? ==> forall id :: id in s.live ==> s.live[id].kind != ReconnectTimeout)
  }

  ghost predicate AttemptsOk(c: Config, s: State) {
    c.reconnectMaxAttempts > 0 ==> s.attempts <= c.reconnectMaxAttempts
  }

  /** The topics the server holds after these messages. */
  function Replay(wire: seq<Msg>): set<string> {
    if wire == [] then {} else
    var before := Replay(wire[..|wire| - 1]);
    match wire[|wire| - 1]
    case Subscribe(t) => before + {t}
    case Unsubscribe(t) => before - {t}
    case Ping => before
  }

  function Topics(subs: seq<string>): set<string> { set t | t in subs }

  /** The server's topics on the current socket are the client's; a socket not yet open is silent. */
  ghost predicate AgreementOk(s: State) {
    && (s.conn.Connected? && s.ws.Some? && s.ws.value < |s.sockets| ==>
          Replay(s.sockets[s.ws.value].wire) == Topics(s.subs))
    && (s.conn.Connecting? && s.ws.Some? && s.ws.value < |s.sockets| ==> s.sockets[s.ws.value].wire == [])
  }

  ghost predicate Inv(c: Config, s: State) {
    SocketsOk(s) && TimersOk(s) && AttemptsOk(c, s) && AgreementOk(s)
  }

  /** After a cleanup no timer is tracked, only stray pong timers live, and no socket has handlers. */
  ghost predicate Clean(s: State) {
    && s.ws.None? && s.pingTimer.None? && s.pongTimer.None? && s.reconnectTimer.None?
    && (forall i :: 0 <= i < |s.sockets| ==> !s.sockets[i].attached)
    && (forall id :: id in s.live ==> id < s.nextTimer && s.live[id].kind == PongTimeout)
  }

  /** What cleanup needs: sockets and tracked timers in order, whatever the connection state. */
  ghost predicate Cleanable(s: State) {
    && (s.ws.Some? ==> s.ws.value < |s.sockets|)
    && (forall i :: 0 <= i < |s.sockets| && s.sockets[i].attached ==> s.ws == Some(i))
    && (forall id :: id in s.live ==> id < s.nextTimer)
    && Tracked(s, s.pingTimer, PingInterval) && Tracked(s, s.reconnectTimer, ReconnectTimeout)
  }

  lemma CleanupCleans(s: State)
    requires Cleanable(s)
    ensures var s' := Cleanup(s);
      Clean(s') && s'.conn == s.conn && s'.attempts == s.attempts && s'.subs == s.subs && |s'.sockets| == |s.sockets|
  {}

  lemma ScheduleKeepsInv(c: Config, s: State)
    requires Clean(s) && AttemptsOk(c, s)
    ensures Inv(c, ScheduleReconnect(c, s))
  {
    var s' := ScheduleReconnect(c, s);
    assert s'.conn.Disconnected? || s'.conn.Reconnecting?;
  }

  lemma SendEffect(s: State, m: Msg)
    requires s.ws.Some? && s.ws.value < |s.sockets|
    ensures var s' := Send(s, m);
      && s' == s.(sockets := s'.sockets) && |s'.sockets| == |s.sockets|
      && (forall i :: 0 <= i < |s.sockets| ==>
            s'.sockets[i].attached == s.sockets[i].attached && s'.sockets[i].ready == s.sockets[i].ready)
      && Replay(s'.sockets[s.ws.value].wire) ==
         match m
         case Subscribe(t) => Replay(s.sockets[s.ws.value].wire) + {t}
         case Unsubscribe(t) => Replay(s.sockets[s.ws.value].wire) - {t}
         case Ping => Replay(s.sockets[s.ws.value].wire)
  {
    var w := s.sockets[s.ws.value].wire;
    assert (w + [m])[..|w|] == w;
  }

  lemma {:induction false} SendAllEffect(s: State, topics: seq<string>)
    requires s.ws.Some? && s.ws.value < |s.sockets|
    ensures var s' := SendAll(s, topics);
      && s' == s.(sockets := s'.sockets) && |s'.sockets| == |s.sockets|
      && (forall i :: 0 <= i < |s.sockets| ==>
            s'.sockets[i].attached == s.sockets[i].attached && s'.sockets[i].ready == s.sockets[i].ready)
      && Replay(s'.sockets[s.ws.value].wire) == Replay(s.sockets[s.ws.value].wire) + Topics(topics)
    decreases topics
  {
    if topics != [] {
      SendEffect(s, Subscribe(topics[0]));
      SendAllEffect(Send(s, Subscribe(topics[0])), topics[1..]);
      assert Topics(topics) == {topics[0]} + Topics(topics[1..]);
    }
  }

  lemma OpensKeepsInv(c: Config, s: State, i: nat)
    requires Inv(c, s) && i < |s.sockets| && s.sockets[i].attached
    ensures Inv(c, OpensStep(c, s, i))
  {
    var s1 := StartPing(c, SetReady(s, i, Open).(conn := Connected, attempts := 0));
    assert SocketsOk(s1) && TimersOk(s1);
    SendAllEffect(s1, s1.subs);
  }

  lemma AddTopicKeepsInv(c: Config, s: State, topic: string)
    requires Inv(c, s)
    ensures Inv(c, AddTopicStep(s, topic))
  {
    var s1 := s.(subs := if topic in s.subs then s.subs else s.subs + [topic]);
    assert Topics(s1.subs) == Topics(s.subs) + {topic};
    if s.conn.Connected? { SendEffect(s1, Subscribe(topic)); }
  }

  lemma DropTopicKeepsInv(c: Config, s: State, topic: string)
    requires Inv(c, s)
    ensures Inv(c, DropTopicStep(s, topic))
  {
    var s1 := s.(subs := Without(s.subs, topic));
    assert Topics(s1.subs) == Topics(s.subs) - {topic};
    if s.conn.Connected? { SendEffect(s1, Unsubscribe(topic)); }
  }

  lemma PingKeepsInv(c: Config, s: State)
    requires Inv(c, s)
    ensures Inv(c, PingFires(c, s, false))
  {
    if s.ws.Some? && s.conn.Connected? {
      SendEffect(s, Ping);
      PongKeepsInv(c, Send(s, Ping));
    }
  }

  lemma PongKeepsInv(c: Config, s: State)
    requires Inv(c, s)
    ensures Inv(c, NewTimer(s.(pongTimer := Some(s.nextTimer)), PongTimeout, c.pingTimeout * 1000.0))
  {
    var s' := NewTimer(s.(pongTimer := Some(s.nextTimer)), PongTimeout, c.pingTimeout * 1000.0);
    assert SocketsOk(s') && AttemptsOk(c, s') && AgreementOk(s');
    assert TimersOk(s');
  }

  lemma ReconnectKeepsInv(c: Config, s: State, t: nat)
    requires Inv(c, s) && t in s.live && s.live[t].kind == PongTimeout
    ensures Inv(c, FiresStep(c, s, t, false))
  {
    var s1 := s.(live := s.live - {t});
    CleanupCleans(s1);
    ScheduleKeepsInv(c, Cleanup(s1));
  }

  lemma ConnectKeepsInv(c: Config, s: State)
    requires Inv(c, s)
    ensures Inv(c, ConnectStep(c, s, false))
  {
    var s' := ConnectStep(c, s, false);
    assert SocketsOk(s');
    assert TimersOk(s');
    assert AgreementOk(s');
  }

  /** A fired reconnect timer makes way for the connection it starts. */
  lemma DueKeepsInv(c: Config, s: State, t: nat)
    requires Inv(c, s) && t in s.live && s.live[t].kind == ReconnectTimeout
    ensures Inv(c, FiresStep(c, s, t, false))
  {
    var s' := FiresStep(c, s, t, false);
    assert s.reconnectTimer == Some(t);
    assert SocketsOk(s');
    assert TimersOk(s');
    assert AgreementOk(s');
  }

  lemma FiresKeepsInv(c: Config, s: State, t: nat)
    requires Inv(c, s) && t in s.live
    ensures Inv(c, FiresStep(c, s, t, false))
  {
    match s.live[t].kind
    case PingInterval => PingKeepsInv(c, s);
    case PongTimeout => ReconnectKeepsInv(c, s, t);
    case ReconnectTimeout => DueKeepsInv(c, s, t);
  }

  lemma StepKeepsInv(c: Config, s: State, a: Action)
    requires Inv(c, s) && Calm(a)
    ensures Inv(c, Step(c, s, a))
  {
    if Enabled(s, a) {
      match a
      case Connect(_) => ConnectKeepsInv(c, s);
      case AddTopic(topic) => AddTopicKeepsInv(c, s, topic);
      case DropTopic(topic) => DropTopicKeepsInv(c, s, topic);
      case Disconnect => CleanupCleans(s.(conn := Disconnected));
      case Opens(i) => OpensKeepsInv(c, s, i);
      case Closes(i) =>
        CleanupCleans(SetReady(s, i, Closed));
        ScheduleKeepsInv(c, Cleanup(SetReady(s, i, Closed)));
      case Receives(_) =>
      case Changes(_, _) =>
      case Fires(t, _) => FiresKeepsInv(c, s, t);
    }
  }

  lemma {:induction false} RunKeepsInv(c: Config, s: State, acts: seq<Action>)
    requires Inv(c, s) && forall i :: 0 <= i < |acts| ==> Calm(acts[i])
    ensures Inv(c, Run(c, s, acts))
    decreases acts
  {
    if acts != [] {
      StepKeepsInv(c, s, acts[0]);
      RunKeepsInv(c, Step(c, s, acts[0]), acts[1..]);
    }
  }

  /**
   The life cycle, for every run in which nothing throws: a socket exactly while connecting or
   connected, with all others silenced; a ping timer exactly while connected; every live reconnect
   timer is the one the manager holds, and one is live while reconnecting and none while
   disconnected; attempts within the limit; and the server's topics are the client's.
   */
  lemma {:induction false} LifeCycle(c: Config, acts: seq<Action>)
    requires forall i :: 0 <= i < |acts| ==> Calm(acts[i])
    ensures var s := Run(c, INIT, acts);
      && (s.ws.Some? <==> s.conn.Connecting? || s.conn.Connected?)
      && (forall i :: 0 <= i < |s.sockets| ==> (s.sockets[i].attached <==> s.ws == Some(i)))
      && (s.conn.Connected? <==> s.pingTimer.Some?)
      && (forall id :: id in s.live && s.live[id].kind == PingInterval ==> s.pingTimer == Some(id))
      && (forall id :: id in s.live && s.live[id].kind == ReconnectTimeout ==>
            s.reconnectTimer == Some(id) && !s.conn.Disconnected?)
      && (s.conn.Reconnecting? ==> s.reconnectTimer.Some? && s.reconnectTimer.value in s.live)
      && (c.reconnectMaxAttempts > 0 ==> s.attempts <= c.reconnectMaxAttempts)
      && (s.conn.Connected? ==>
            s.ws.value < |s.sockets| && Replay(s.sockets[s.ws.value].wire) == Topics(s.subs))
  {
    RunKeepsInv(c, INIT, acts);
  }

  // ----- The topics are those asked for -----

  /** What the user wants, from the calls alone: `connect()`, sockets and timers change nothing of it. */
  function Wanted(acts: seq<Action>): set<string> {
    if acts == [] then {} else
    var before := Wanted(acts[..|acts| - 1]);
    match acts[|acts| - 1]
    case AddTopic(topic) => before + {topic}
    case DropTopic(topic) => before - {topic}
    case Disconnect => {}
    case _ => before
  }

  lemma {:induction false} RunLast(c: Config, s: State, acts: seq<Action>, a: Action)
    ensures Run(c, s, acts + [a]) == Step(c, Run(c, s, acts), a)
    decreases acts
  {
    if acts == [] {
      assert [a][1..] == [];
    } else {
      assert (acts + [a])[1..] == acts[1..] + [a];
      RunLast(c, Step(c, s, acts[0]), acts[1..], a);
    }
  }

  lemma {:induction false} SendAllKeepsTopics(s: State, topics: seq<string>)
    ensures SendAll(s, topics).subs == s.subs
    decreases topics
  {
    if topics != [] { SendAllKeepsTopics(Send(s, Subscribe(topics[0])), topics[1..]); }
  }

  lemma StepKeepsTopics(c: Config, s: State, a: Action)
    requires !a.AddTopic? && !a.DropTopic? && !a.Disconnect?
    ensures Step(c, s, a).subs == s.subs
  {
    if Enabled(s, a) && a.Opens? {
      var s1 := StartPing(c, SetReady(s, a.socket, Open).(conn := Connected, attempts := 0));
      SendAllKeepsTopics(s1, s1.subs);
    }
  }

  lemma TopicCalls(c: Config, s: State, topic: string)
    ensures Topics(Step(c, s, AddTopic(topic)).subs) == Topics(s.subs) + {topic}
    ensures Topics(Step(c, s, DropTopic(topic)).subs) == Topics(s.subs) - {topic}
    ensures Topics(Step(c, s, Disconnect).subs) == {}
  {
    var subs := if topic in s.subs then s.subs else s.subs + [topic];
    assert Topics(subs) == Topics(s.subs) + {topic};
  }

  /** In every run, throws included, the manager keeps the topics that the user wants, in every connection state. */
  lemma {:induction false} TopicsAreWanted(c: Config, acts: seq<Action>)
    ensures Topics(Run(c, INIT, acts).subs) == Wanted(acts)
  {
    if acts != [] {
      var init, a := acts[..|acts| - 1], acts[|acts| - 1];
      TopicsAreWanted(c, init);
      assert acts == init + [a];
      RunLast(c, INIT, init, a);
      match a
      case AddTopic(topic) => TopicCalls(c, Run(c, INIT, init), topic);
      case DropTopic(topic) => TopicCalls(c, Run(c, INIT, init), topic);
      case Disconnect => TopicCalls(c, Run(c, INIT, init), "");
      case _ => StepKeepsTopics(c, Run(c, INIT, init), a);
    }
  }

  /** So while connected, in a run without throws, the server holds what the user wants. */
  lemma {:induction false} ServerHoldsWanted(c: Config, acts: seq<Action>)
    requires forall i :: 0 <= i < |acts| ==> Calm(acts[i])
    ensures var s := Run(c, INIT, acts);
      s.conn.Connected? ==> s.ws.Some? && s.ws.value < |s.sockets| && Replay(s.sockets[s.ws.value].wire) == Wanted(acts)
  {
    LifeCycle(c, acts);
    TopicsAreWanted(c, acts);
  }

  /** `disconnected` is left only by an explicit `connect()`: no timer or socket brings it back. */
  lemma OnlyConnectLeavesDisconnected(c: Config, s: State, a: Action)
    requires Inv(c, s) && Calm(a) && s.conn.Disconnected? && !Step(c, s, a).conn.Disconnected?
    ensures a.Connect?
  {}

  /** While reconnecting, the pending timer leads to a fresh socket: the manager is never stuck. */
  lemma ReconnectingProceeds(c: Config, s: State)
    requires Inv(c, s) && s.conn.Reconnecting?
    ensures var s' := Step(c, s, Fires(s.reconnectTimer.value, false));
      s'.conn.Connecting? && s'.ws == Some(|s.sockets|) && |s'.sockets| == |s.sockets| + 1
  {}

  // ----- What each event leads to -----

  /** `connect()` opens a socket of its own unless one is there already. */
  lemma ConnectOpensSocket(c: Config, s: State)
    requires Inv(c, s)
    ensures var s' := Step(c, s, Connect(false));
      if s.ws.Some? then s' == s
      else s'.conn.Connecting? && s'.ws == Some(|s.sockets|) && s'.sockets == s.sockets + [Socket(Opening, true, [])]
  {}

  function Subscribes(topics: seq<string>): seq<Msg> {
    if topics == [] then [] else [Subscribe(topics[0])] + Subscribes(topics[1..])
  }

  lemma {:induction false} SendAllWire(s: State, topics: seq<string>)
    requires s.ws.Some? && s.ws.value < |s.sockets|
    ensures |SendAll(s, topics).sockets| == |s.sockets|
    ensures SendAll(s, topics).sockets[s.ws.value].wire == s.sockets[s.ws.value].wire + Subscribes(topics)
    decreases topics
  {
    if topics == [] {
      assert s.sockets[s.ws.value].wire + [] == s.sockets[s.ws.value].wire;
    } else {
      var w := s.sockets[s.ws.value].wire;
      SendAllWire(Send(s, Subscribe(topics[0])), topics[1..]);
      assert w + [Subscribe(topics[0])] + Subscribes(topics[1..]) == w + ([Subscribe(topics[0])] + Subscribes(topics[1..]));
    }
  }

  /** An opening socket connects: attempts start anew, pings start, and every topic is asked for in order. */
  lemma OpenConnects(c: Config, s: State, i: nat)
    requires Inv(c, s) && Enabled(s, Opens(i))
    ensures var s' := Step(c, s, Opens(i));
      && s'.conn.Connected? && s'.attempts == 0 && s'.ws == Some(i) && |s'.sockets| == |s.sockets|
      && s'.sockets[i].ready.Open? && s'.sockets[i].wire == s.sockets[i].wire + Subscribes(s.subs)
      && s'.pingTimer.Some? && s'.pingTimer.value in s'.live
      && s'.live[s'.pingTimer.value] == Timer(PingInterval, c.pingInterval * 1000.0)
  {
    var s1 := StartPing(c, SetReady(s, i, Open).(conn := Connected, attempts := 0));
    SendAllEffect(s1, s1.subs);
    SendAllWire(s1, s1.subs);
  }

  /** While connected every interval sends a ping and starts a pong timeout of its own. */
  lemma PingGoesOut(c: Config, s: State)
    requires Inv(c, s) && s.conn.Connected?
    ensures var s' := Step(c, s, Fires(s.pingTimer.value, false));
      && s'.conn.Connected? && s'.ws == s.ws && |s'.sockets| == |s.sockets|
      && s'.sockets[s.ws.value].wire == s.sockets[s.ws.value].wire + [Ping]
      && s'.pingTimer == s.pingTimer && s.pingTimer.value in s'.live
      && s'.pongTimer.Some? && s'.pongTimer.value !in s.live && s'.pongTimer.value in s'.live
      && s'.live[s'.pongTimer.value] == Timer(PongTimeout, c.pingTimeout * 1000.0)
  {}

  /** The current socket closes, or a pong is missing. */
  predicate Loses(s: State, a: Action) {
    || (a.Closes? && s.ws == Some(a.socket))
    || (a.Fires? && a.timer in s.live && s.live[a.timer].kind == PongTimeout && !s.conn.Disconnected?)
  }

  /**
   A lost connection is cleaned up, its socket closed if it was open, and the next attempt counted and
   its wait begun, unless the limit is reached: then the manager is disconnected.
   */
  lemma LossReconnects(c: Config, s: State, a: Action)
    requires Inv(c, s) && Calm(a) && Loses(s, a)
    ensures var s' := Step(c, s, a);
      && s'.ws.None? && s'.pingTimer.None? && s'.subs == s.subs && |s'.sockets| == |s.sockets|
      && (forall i :: 0 <= i < |s.sockets| ==> !s'.sockets[i].attached)
      && (s.ws.Some? && s.sockets[s.ws.value].ready.Open? ==> s'.sockets[s.ws.value].ready.Closed?)
      && if c.reconnectMaxAttempts > 0 && s.attempts >= c.reconnectMaxAttempts then s'.conn.Disconnected?
         else
           && s'.conn.Reconnecting? && s'.attempts == s.attempts + 1
           && s'.reconnectTimer.Some? && s'.reconnectTimer.value in s'.live
           && s'.live[s'.reconnectTimer.value] == Timer(ReconnectTimeout, DelayMs(c, s.attempts + 1) as real)
  {
    if a.Closes? {
      CleanupDrops(SetReady(s, a.socket, Closed));
      ScheduleCounts(c, Cleanup(SetReady(s, a.socket, Closed)));
    } else {
      CleanupDrops(s.(live := s.live - {a.timer}));
      ScheduleCounts(c, Cleanup(s.(live := s.live - {a.timer})));
    }
  }

  lemma CleanupDrops(s: State)
    requires Cleanable(s)
    ensures var s' := Cleanup(s);
      && Clean(s') && s'.conn == s.conn && s'.attempts == s.attempts && s'.subs == s.subs && |s'.sockets| == |s.sockets|
      && (s.ws.Some? && s.sockets[s.ws.value].ready != Opening ==> s'.sockets[s.ws.value].ready.Closed?)
  {}

  lemma ScheduleCounts(c: Config, s: State)
    requires !s.conn.Disconnected?
    ensures var s' := ScheduleReconnect(c, s);
      && s' == s.(conn := s'.conn, attempts := s'.attempts, reconnectTimer := s'.reconnectTimer,
                  live := s'.live, nextTimer := s'.nextTimer)
      && if c.reconnectMaxAttempts > 0 && s.attempts >= c.reconnectMaxAttempts then s'.conn.Disconnected?
         else
           && s'.conn.Reconnecting? && s'.attempts == s.attempts + 1
           && s'.reconnectTimer.Some? && s'.reconnectTimer.value in s'.live
           && s'.live[s'.reconnectTimer.value] == Timer(ReconnectTimeout, DelayMs(c, s.attempts + 1) as real)
  {}

  // ----- Backoff -----

  /** The wait of a reconnect timer started by this step. */
  function Waits(s: State, s': State): seq<real> {
    if s.nextTimer in s'.live && s.nextTimer !in s.live && s'.live[s.nextTimer].kind == ReconnectTimeout
    then [s'.live[s.nextTimer].ms] else []
  }

  function WaitsOf(c: Config, s: State, acts: seq<Action>): seq<real>
    decreases acts
  {
    if acts == [] then [] else
    var s' := Step(c, s, acts[0]);
    Waits(s, s') + WaitsOf(c, s', acts[1..])
  }

  lemma ScheduleWaits(c: Config, s0: State, s: State)
    requires Clean(s) && s.nextTimer == s0.nextTimer && s0.nextTimer !in s0.live && s.attempts == s0.attempts
    ensures var s' := ScheduleReconnect(c, s);
      && Waits(s0, s') == (if s'.attempts == s0.attempts then [] else [DelayMs(c, s0.attempts + 1) as real])
      && s0.attempts <= s'.attempts <= s0.attempts + 1
  {}

  lemma PongWaits(c: Config, s: State, t: nat)
    requires Inv(c, s) && t in s.live && s.live[t].kind == PongTimeout
    ensures var s' := FiresStep(c, s, t, false);
      && Waits(s, s') == (if s'.attempts == s.attempts then [] else [DelayMs(c, s.attempts + 1) as real])
      && s.attempts <= s'.attempts <= s.attempts + 1
  {
    CleanupCleans(s.(live := s.live - {t}));
    ScheduleWaits(c, s, Cleanup(s.(live := s.live - {t})));
  }

  lemma StepWaits(c: Config, s: State, a: Action)
    requires Inv(c, s) && Calm(a) && !a.Opens?
    ensures var s' := Step(c, s, a);
      && Waits(s, s') == (if s'.attempts == s.attempts then [] else [DelayMs(c, s.attempts + 1) as real])
      && s.attempts <= s'.attempts <= s.attempts + 1
  {
    if Enabled(s, a) {
      match a
      case Closes(i) =>
        CleanupCleans(SetReady(s, i, Closed));
        ScheduleWaits(c, s, Cleanup(SetReady(s, i, Closed)));
      case Fires(t, _) =>
        if s.live[t].kind == PongTimeout { PongWaits(c, s, t); }
      case _ =>
    }
  }

  /** These waits are the backoff sequence after `attempts` attempts. */
  ghost predicate IsBackoff(c: Config, w: seq<real>, attempts: nat) {
    forall i :: 0 <= i < |w| ==> w[i] == DelayMs(c, attempts + 1 + i) as real
  }

  lemma WaitsJoin(c: Config, first: seq<real>, rest: seq<real>, a: nat, a': nat)
    requires a <= a' <= a + 1 && first == (if a' == a then [] else [DelayMs(c, a + 1) as real])
    requires IsBackoff(c, rest, a') && (c.reconnectMaxAttempts > 0 ==> |rest| <= c.reconnectMaxAttempts - a')
    ensures IsBackoff(c, first + rest, a) && a + |first + rest| == a' + |rest|
    ensures c.reconnectMaxAttempts > 0 ==> |first + rest| <= c.reconnectMaxAttempts - a
  {
    var w := first + rest;
    if a' > a {
      forall i | 0 < i < |w| ensures w[i] == DelayMs(c, a + 1 + i) as real {
        assert w[i] == rest[i - 1] == DelayMs(c, a' + 1 + (i - 1)) as real;
      }
    }
  }

  /** A step counts one attempt exactly when it starts a wait, and waits as that attempt should. */
  ghost predicate StepPaced(c: Config, s: State, s': State) {
    && s.attempts <= s'.attempts <= s.attempts + 1
    && Waits(s, s') == (if s'.attempts == s.attempts then [] else [DelayMs(c, s.attempts + 1) as real])
    && AttemptsOk(c, s')
  }

  ghost predicate Paced(c: Config, s: State, acts: seq<Action>)
    decreases acts
  {
    acts != [] ==> StepPaced(c, s, Step(c, s, acts[0])) && Paced(c, Step(c, s, acts[0]), acts[1..])
  }

  lemma {:induction false} RunPaced(c: Config, s: State, acts: seq<Action>)
    requires Inv(c, s) && forall i :: 0 <= i < |acts| ==> Calm(acts[i]) && !acts[i].Opens?
    ensures Paced(c, s, acts)
    decreases acts
  {
    if acts != [] {
      StepKeepsInv(c, s, acts[0]);
      StepWaits(c, s, acts[0]);
      RunPaced(c, Step(c, s, acts[0]), acts[1..]);
    }
  }

  lemma {:induction false} PacedIsBackoff(c: Config, s: State, acts: seq<Action>)
    requires Paced(c, s, acts) && AttemptsOk(c, s)
    ensures IsBackoff(c, WaitsOf(c, s, acts), s.attempts)
    ensures c.reconnectMaxAttempts > 0 ==> |WaitsOf(c, s, acts)| <= c.reconnectMaxAttempts - s.attempts
    ensures Run(c, s, acts).attempts == s.attempts + |WaitsOf(c, s, acts)|
    decreases acts
  {
    if acts != [] {
      var s' := Step(c, s, acts[0]);
      PacedIsBackoff(c, s', acts[1..]);
      WaitsJoin(c, Waits(s, s'), WaitsOf(c, s', acts[1..]), s.attempts, s'.attempts);
    }
  }

  /**
   Until a socket opens, the waits are the backoff sequence continued from the attempts so far,
   and with a limit set there are at most as many as the limit leaves, whatever the user and the
   sockets do.
   */
  lemma {:induction false} BackoffSequence(c: Config, s: State, acts: seq<Action>)
    requires Inv(c, s) && forall i :: 0 <= i < |acts| ==> Calm(acts[i]) && !acts[i].Opens?
    ensures var w := WaitsOf(c, s, acts);
      && IsBackoff(c, w, s.attempts)
      && (c.reconnectMaxAttempts > 0 ==> |w| <= c.reconnectMaxAttempts - s.attempts)
      && Run(c, s, acts).attempts == s.attempts + |w|
  {
    RunPaced(c, s, acts);
    PacedIsBackoff(c, s, acts);
  }

  /** The waits never shrink and stay within the configured limits, up to rounding. */
  lemma DelaysGrow(c: Config, k: nat, m: nat)
    requires Validated(c) && 1 <= k <= m
    ensures DelayMs(c, k) <= DelayMs(c, m)
    ensures c.reconnectInitialDelay * 1000.0 - 0.5 <= DelayMs(c, k) as real <= c.reconnectMaxDelay * 1000.0 + 0.5
  {
    NominalGrows(c.reconnectInitialDelay, c.reconnectExponentialBase, c.reconnectMaxDelay, k, m);
  }

  /**
   The wait before reconnect attempt `k`: the initial delay times a power of the base, but no more than
   the cap, to the nearest millisecond, half a millisecond up, and never negative.
   */
  lemma {:induction false} DelayIsPower(c: Config, k: nat)
    requires k >= 1
    ensures var raised := c.reconnectInitialDelay * Pow(c.reconnectExponentialBase, k - 1);
      var ms := (if raised <= c.reconnectMaxDelay then raised else c.reconnectMaxDelay) * 1000.0;
      && (ms >= -0.5 ==> DelayMs(c, k) as real - 0.5 <= ms < DelayMs(c, k) as real + 0.5)
      && (ms < -0.5 ==> DelayMs(c, k) == 0)
  {
    NominalIsPower(c.reconnectInitialDelay, c.reconnectExponentialBase, c.reconnectMaxDelay, k);
  }

  // ----- How long timers run -----

  /** Ping and pong timers run for their configured times, reconnect timers for some attempt's delay. */
  ghost predicate TimesOk(c: Config, s: State) {
    forall id :: id in s.live ==> TimeOk(c, s.live[id])
  }

  ghost predicate TimeOk(c: Config, t: Timer) {
    match t.kind
    case PingInterval => t.ms == c.pingInterval * 1000.0
    case PongTimeout => t.ms == c.pingTimeout * 1000.0
    case ReconnectTimeout => exists k: nat :: k >= 1 && t.ms == DelayMs(c, k) as real
  }

  lemma {:induction false} SendAllKeepsTimers(s: State, topics: seq<string>)
    ensures SendAll(s, topics).live == s.live
    decreases topics
  {
    if topics != [] { SendAllKeepsTimers(Send(s, Subscribe(topics[0])), topics[1..]); }
  }

  lemma ScheduleKeepsTimes(c: Config, s: State)
    requires TimesOk(c, s)
    ensures TimesOk(c, ScheduleReconnect(c, s))
  {
    var s' := ScheduleReconnect(c, s);
    forall id | id in s'.live ensures TimeOk(c, s'.live[id]) {
      if id !in s.live || s'.live[id] != s.live[id] {
        assert s'.live[id] == Timer(ReconnectTimeout, DelayMs(c, s.attempts + 1) as real);
      }
    }
  }

  lemma FiresKeepsTimes(c: Config, s: State, t: nat, throws: bool)
    requires TimesOk(c, s) && t in s.live
    ensures TimesOk(c, FiresStep(c, s, t, throws))
  {
    match s.live[t].kind
    case PingInterval => ScheduleKeepsTimes(c, s);
    case PongTimeout => ScheduleKeepsTimes(c, Cleanup(s.(live := s.live - {t})));
    case ReconnectTimeout => ScheduleKeepsTimes(c, s.(live := s.live - {t}, conn := Connecting));
  }

  /** In every run, throws included, each live timer runs for the time configured for its kind. */
  lemma {:induction false} TimersRunAsConfigured(c: Config, s: State, acts: seq<Action>)
    requires TimesOk(c, s)
    ensures TimesOk(c, Run(c, s, acts))
    decreases acts
  {
    if acts != [] {
      StepKeepsTimes(c, s, acts[0]);
      TimersRunAsConfigured(c, Step(c, s, acts[0]), acts[1..]);
    }
  }

  lemma StepKeepsTimes(c: Config, s: State, a: Action)
    requires TimesOk(c, s)
    ensures TimesOk(c, Step(c, s, a))
  {
    if Enabled(s, a) {
      match a
      case Connect(_) => ScheduleKeepsTimes(c, s.(conn := Connecting));
      case Opens(i) =>
        var s1 := StartPing(c, SetReady(s, i, Open).(conn := Connected, attempts := 0));
        SendAllKeepsTimers(s1, s1.subs);
      case Closes(i) => ScheduleKeepsTimes(c, Cleanup(SetReady(s, i, Closed)));
      case Fires(t, throws) => FiresKeepsTimes(c, s, t, throws);
      case _ =>
    }
  }

  // ----- Pong timers -----

  predicate PongLive(s: State) { exists id :: id in s.live && s.live[id].kind == PongTimeout }

  /** A ping sent by this action. */
  predicate SendsPing(s: State, a: Action) {
    a.Fires? && a.timer in s.live && s.live[a.timer].kind == PingInterval && s.conn.Connected?
  }

  /**
   The manager loses track of a pong timer exactly when a ping goes out while the previous
   ping's timer is still running.
   */
  lemma PongTrackedExactlyUnless(c: Config, s: State, a: Action)
    requires Inv(c, s) && Calm(a) && Tracked(s, s.pongTimer, PongTimeout)
    ensures var s' := Step(c, s, a);
      Tracked(s', s'.pongTimer, PongTimeout) <==> !(SendsPing(s, a) && PongLive(s))
  {
    if SendsPing(s, a) {
      SendEffect(s, Ping);
      var s' := Step(c, s, a);
      if id :| id in s.live && s.live[id].kind == PongTimeout {
        assert id in s'.live && s'.live[id].kind == PongTimeout && s'.pongTimer != Some(id);
      }
    } else {
      PongsAlone(c, s, a);
    }
  }

  /** Clearing and starting other timers leaves pong timers tracked. */
  lemma ScheduleKeepsPongs(c: Config, s: State)
    requires Clean(s) && !PongLive(s)
    ensures Tracked(ScheduleReconnect(c, s), ScheduleReconnect(c, s).pongTimer, PongTimeout)
  {
    assert forall id :: id in s.live ==> s.live[id].kind != PongTimeout;
  }

  lemma CleanupClearsPongs(s: State)
    requires Cleanable(s) && Tracked(s, s.pongTimer, PongTimeout)
    ensures Clean(Cleanup(s)) && !PongLive(Cleanup(s))
  {
    CleanupCleans(s);
  }

  lemma FiresAlone(c: Config, s: State, t: nat)
    requires Inv(c, s) && t in s.live && !SendsPing(s, Fires(t, false)) && Tracked(s, s.pongTimer, PongTimeout)
    ensures var s' := FiresStep(c, s, t, false); Tracked(s', s'.pongTimer, PongTimeout)
  {
    if s.live[t].kind == PongTimeout {
      CleanupClearsPongs(s.(live := s.live - {t}));
      ScheduleKeepsPongs(c, Cleanup(s.(live := s.live - {t})));
    }
  }

  lemma PongsAlone(c: Config, s: State, a: Action)
    requires Inv(c, s) && Calm(a) && !SendsPing(s, a) && Tracked(s, s.pongTimer, PongTimeout)
    ensures var s' := Step(c, s, a); Tracked(s', s'.pongTimer, PongTimeout)
  {
    if Enabled(s, a) {
      match a
      case Opens(i) =>
        var s1 := StartPing(c, SetReady(s, i, Open).(conn := Connected, attempts := 0));
        assert Tracked(s1, s1.pongTimer, PongTimeout);
        SendAllEffect(s1, s1.subs);
      case Closes(i) =>
        CleanupClearsPongs(SetReady(s, i, Closed));
        ScheduleKeepsPongs(c, Cleanup(SetReady(s, i, Closed)));
      case Fires(t, _) => FiresAlone(c, s, t);
      case Disconnect => CleanupClearsPongs(s.(conn := Disconnected));
      case _ =>
    }
  }

  /** As long as it is tracked, any message counts as the pong: no timeout is left running. */
  lemma MessageIsPong(c: Config, s: State, i: nat)
    requires Inv(c, s) && Tracked(s, s.pongTimer, PongTimeout) && Enabled(s, Receives(i))
    ensures !PongLive(Step(c, s, Receives(i)))
  {}

  // ----- Where the life cycle stops holding -----

  /**
   A constructor that throws in an explicit `connect()` leaves two reconnect timers running exactly
   when one is already running and attempts remain.
   */
  lemma ThrowingConnectLeaksExactly(c: Config, s: State)
    requires Inv(c, s) && (s.conn.Reconnecting? || s.conn.Disconnected?)
    ensures var s' := Step(c, s, Connect(true));
      !Tracked(s', s'.reconnectTimer, ReconnectTimeout) <==> s.conn.Reconnecting? && !GivesUp(c, s)
  {
    var s' := Step(c, s, Connect(true));
    if s.conn.Reconnecting? && !GivesUp(c, s) {
      var id := s.reconnectTimer.value;
      assert id in s'.live && s'.live[id].kind == ReconnectTimeout && s'.reconnectTimer != Some(id);
    }
  }

  /** A reconnecting manager has counted an attempt. */
  ghost predicate AttemptCounted(s: State) { s.conn.Reconnecting? ==> s.attempts >= 1 }

  lemma StepCountsAttempt(c: Config, s: State, a: Action)
    requires Inv(c, s) && Calm(a) && AttemptCounted(s)
    ensures AttemptCounted(Step(c, s, a))
  {
    if Enabled(s, a) && a.Opens? {
      var s1 := StartPing(c, SetReady(s, a.socket, Open).(conn := Connected, attempts := 0));
      assert SocketsOk(s1);
      SendAllEffect(s1, s1.subs);
    }
  }

  lemma {:induction false} RunCountsAttempt(c: Config, s: State, acts: seq<Action>)
    requires Inv(c, s) && AttemptCounted(s) && forall i :: 0 <= i < |acts| ==> Calm(acts[i])
    ensures Inv(c, Run(c, s, acts)) && AttemptCounted(Run(c, s, acts))
    decreases acts
  {
    if acts != [] {
      StepKeepsInv(c, s, acts[0]);
      StepCountsAttempt(c, s, acts[0]);
      RunCountsAttempt(c, Step(c, s, acts[0]), acts[1..]);
    }
  }

  /** After `acts`, in which nothing throws, a throwing `connect()` leaves a reconnect timer untracked. */
  ghost predicate Leaks(c: Config, acts: seq<Action>) {
    && (forall i :: 0 <= i < |acts| ==> Calm(acts[i]))
    && var s' := Step(c, Run(c, INIT, acts), Connect(true));
       !Tracked(s', s'.reconnectTimer, ReconnectTimeout)
  }

  /** Such a leak can be reached, by a close and a call of `connect()`, unless a single attempt is allowed. */
  lemma LeakReachableExactly(c: Config)
    ensures (exists acts :: Leaks(c, acts)) <==> c.reconnectMaxAttempts != 1
  {
    if c.reconnectMaxAttempts == 1 {
      forall acts ensures !Leaks(c, acts) {
        if forall i :: 0 <= i < |acts| ==> Calm(acts[i]) { NoLeakWithOneAttempt(c, acts); }
      }
    } else {
      CloseThenLeak(c);
    }
  }

  lemma NoLeakWithOneAttempt(c: Config, acts: seq<Action>)
    requires c.reconnectMaxAttempts == 1 && forall i :: 0 <= i < |acts| ==> Calm(acts[i])
    ensures !Leaks(c, acts)
  {
    RunCountsAttempt(c, INIT, acts);
    var s := Run(c, INIT, acts);
    if s.conn.Reconnecting? || s.conn.Disconnected? { ThrowingConnectLeaksExactly(c, s); }
  }

  lemma CloseThenLeak(c: Config)
    requires c.reconnectMaxAttempts != 1
    ensures Leaks(c, [Connect(false), Opens(0), Closes(0)])
  {
    var acts := [Connect(false), Opens(0), Closes(0)];
    var s1 := Step(c, INIT, Connect(false));
    var s2 := Step(c, s1, Opens(0));
    var s3 := Step(c, s2, Closes(0));
    assert acts[1..] == [Opens(0), Closes(0)] && acts[1..][1..] == [Closes(0)] && acts[1..][1..][1..] == [];
    assert Run(c, s2, [Closes(0)]) == s3;
    assert Run(c, s1, [Opens(0), Closes(0)]) == s3;
    assert Run(c, INIT, acts) == s3;
    RunKeepsInv(c, INIT, acts);
    ThrowingConnectLeaksExactly(c, s3);
  }

  /** The constructor throwing in the reconnect timer's own `connect()`, the usual case, breaks nothing. */
  lemma ThrowingReconnectKeepsInv(c: Config, s: State, t: nat)
    requires Inv(c, s) && t in s.live && s.live[t].kind == ReconnectTimeout
    ensures Inv(c, Step(c, s, Fires(t, true)))
  {
    var s' := Step(c, s, Fires(t, true));
    assert s.reconnectTimer == Some(t);
    assert SocketsOk(s');
    assert TimersOk(s');
  }

  /** In an explicit `connect()` it breaks the life cycle exactly if a reconnect is already scheduled. */
  lemma ThrowingConnectKeepsInvExactly(c: Config, s: State)
    requires Inv(c, s)
    ensures Inv(c, Step(c, s, Connect(true))) <==> !s.conn.Reconnecting?
  {
    var s' := Step(c, s, Connect(true));
    if s.conn.Reconnecting? {
      var id := s.reconnectTimer.value;
      assert id in s'.live && s'.live[id].kind == ReconnectTimeout;
    } else if s.conn.Disconnected? {
      assert SocketsOk(s');
      assert TimersOk(s');
    }
  }

  /** With no attempt left it gives up, and the scheduled timer then connects all the same. */
  lemma GivenUpStillConnects(c: Config, s: State)
    requires Inv(c, s) && s.conn.Reconnecting? && GivesUp(c, s)
    ensures var s' := Step(c, s, Connect(true));
      s'.conn.Disconnected? && Step(c, s', Fires(s.reconnectTimer.value, false)).conn.Connecting?
  {}

  /** A ping whose send throws schedules a reconnect but keeps the socket, its handlers and the ping timer. */
  lemma ThrowingPingKeepsSocket(c: Config, s: State)
    requires Inv(c, s) && s.conn.Connected?
    ensures var s' := Step(c, s, Fires(s.pingTimer.value, true));
      && s'.ws == s.ws && s'.sockets == s.sockets && s'.pingTimer.Some? && s'.pingTimer.value in s'.live
      && (if GivesUp(c, s) then s'.conn.Disconnected? else s'.conn.Reconnecting?)
      && !SocketsOk(s')
  {}

  /**
   The reconnect then opens a second socket beside it, and when the old one closes at last it takes the
   new connection down.
   */
  lemma OldSocketTakesNewDown(c: Config, s: State)
    requires Inv(c, s) && s.conn.Connected? && !GivesUp(c, s)
    ensures var s1 := Step(c, s, Fires(s.pingTimer.value, true));
      s1.reconnectTimer.Some? && s1.reconnectTimer.value in s1.live
    ensures var s1 := Step(c, s, Fires(s.pingTimer.value, true));
      var s2 := Step(c, s1, Fires(s1.reconnectTimer.value, false));
      var s3 := Step(c, s2, Closes(s.ws.value));
      && s2.conn.Connecting? && s2.ws == Some(|s.sockets|) && s2.sockets[|s.sockets|].attached
      && Enabled(s2, Closes(s.ws.value)) && s3.ws.None? && !s3.conn.Connecting? && !s3.sockets[|s.sockets|].attached
  {
    var s1 := Step(c, s, Fires(s.pingTimer.value, true));
    assert s1.live[s.nextTimer].kind == ReconnectTimeout && s1.reconnectTimer == Some(s.nextTimer);
    var s2 := Step(c, s1, Fires(s.nextTimer, false));
    assert s2.sockets == s.sockets + [Socket(Opening, true, [])];
  }

  /** `disconnect()` silences every socket, and closes the current one exactly if it has opened. */
  lemma DisconnectClosesOpenSocketOnly(c: Config, s: State)
    requires Inv(c, s)
    ensures var s' := Step(c, s, Disconnect);
      && s'.conn.Disconnected? && s'.subs == []
      && |s'.sockets| == |s.sockets|
      && (forall i :: 0 <= i < |s'.sockets| ==> !s'.sockets[i].attached)
      && (s.ws.Some? ==> (s'.sockets[s.ws.value].ready.Closed? <==> !s.sockets[s.ws.value].ready.Opening?))
      && (forall a :: Calm(a) && !a.Connect? ==> Step(c, s', a).conn.Disconnected?)
  {
    var s' := Step(c, s, Disconnect);
    StepKeepsInv(c, s, Disconnect);
    forall a | Calm(a) && !a.Connect? ensures Step(c, s', a).conn.Disconnected? {
      if !Step(c, s', a).conn.Disconnected? { OnlyConnectLeavesDisconnected(c, s', a); }
    }
  }

  // ----- The class -----

  /** The manager's fields, with the sockets and timers it has created. */
  class Manager {
    const config: Config
    var conn: Conn
    var ws: Option<nat>
    var subs: seq<string>
    var attempts: nat
    var pingTimer: Option<nat>
    var pongTimer: Option<nat>
    var reconnectTimer: Option<nat>
    var sockets: seq<Socket>
    var live: map<nat, Timer>
    var nextTimer: nat

    ghost function Abs(): State
      reads this
    {
      State(conn, ws, subs, attempts, pingTimer, pongTimer, reconnectTimer, sockets, live, nextTimer)
    }

    constructor (config: Config)
      ensures this.config == config && Abs() == INIT
    {
      this.config := config;
      conn, ws, subs, attempts := Disconnected, None, [], 0;
      pingTimer, pongTimer, reconnectTimer := None, None, None;
      sockets, live, nextTimer := [], map[], 0;
    }

    method SetTimer(kind: Kind, ms: real) returns (id: nat)
      modifies this`live, this`nextTimer
      ensures id == old(nextTimer) && Abs() == NewTimer(old(Abs()), kind, ms)
    {
      id := nextTimer;
      live := live[id := Timer(kind, ms)];
      nextTimer := nextTimer + 1;
    }

    method ClearTimer(id: nat)
      modifies this`live
      ensures live == old(live) - {id}
    {
      live := live - {id};
    }

    method StopPingInterval()
      modifies this
      ensures Abs() == StopPing(old(Abs()))
    {
      if pingTimer.Some? {
        ClearTimer(pingTimer.value);
        pingTimer := None;
      }
    }

    method StartPingInterval()
      modifies this
      ensures Abs() == StartPing(config, old(Abs()))
    {
      StopPingInterval();
      var id := SetTimer(PingInterval, config.pingInterval * 1000.0);
      pingTimer := Some(id);
    }

    method ResetPongTimer()
      modifies this
      ensures Abs() == ResetPong(old(Abs()))
    {
      if pongTimer.Some? {
        ClearTimer(pongTimer.value);
        pongTimer := None;
      }
    }

    /** Timers first, then the socket: handlers off, closed if open, forgotten. */
    method CleanupAll()
      modifies this
      ensures Abs() == Cleanup(old(Abs()))
    {
      StopPingInterval();
      ResetPongTimer();
      if reconnectTimer.Some? {
        ClearTimer(reconnectTimer.value);
        reconnectTimer := None;
      }
      if ws.Some? {
        var i := ws.value;
        if i < |sockets| {
          sockets := sockets[i := sockets[i].(attached := false)];
          if sockets[i].ready.Open? {
            sockets := sockets[i := sockets[i].(ready := Closed)];
          }
        }
        ws := None;
      }
    }

    method Schedule()
      modifies this
      ensures Abs() == ScheduleReconnect(config, old(Abs()))
    {
      if conn.Disconnected? { return; }
      if config.reconnectMaxAttempts > 0 && attempts >= config.reconnectMaxAttempts {
        conn := Disconnected;
        return;
      }
      conn := Reconnecting;
      attempts := attempts + 1;
      var id := SetTimer(ReconnectTimeout, DelayMs(config, attempts) as real);
      reconnectTimer := Some(id);
    }

    method ConnectNow(throws: bool)
      modifies this
      ensures Abs() == Step(config, old(Abs()), Connect(throws))
    {
      if conn.Connected? || conn.Connecting? { return; }
      conn := Connecting;
      if throws {
        Schedule();
      } else {
        ws := Some(|sockets|);
        sockets := sockets + [Socket(Opening, true, [])];
      }
    }

    method SendMsg(m: Msg)
      modifies this`sockets
      ensures Abs() == Send(old(Abs()), m)
    {
      if ws.Some? && ws.value < |sockets| {
        var x := sockets[ws.value];
        sockets := sockets[ws.value := x.(wire := x.wire + [m])];
      }
    }

    method ResubscribeAll()
      modifies this`sockets
      ensures Abs() == SendAll(old(Abs()), subs)
    {
      var i := 0;
      while i < |subs|
        invariant 0 <= i <= |subs|
        invariant SendAll(Abs(), subs[i..]) == SendAll(old(Abs()), subs)
        invariant unchanged(this`conn, this`ws, this`subs, this`attempts, this`pingTimer, this`pongTimer)
        invariant unchanged(this`reconnectTimer, this`live, this`nextTimer)
      {
        SendMsg(Subscribe(subs[i]));
        i := i + 1;
      }
    }

    method OnOpen(i: nat)
      requires Enabled(Abs(), Opens(i))
      modifies this
      ensures Abs() == Step(config, old(Abs()), Opens(i))
    {
      sockets := sockets[i := sockets[i].(ready := Open)];
      conn := Connected;
      attempts := 0;
      StartPingInterval();
      ResubscribeAll();
    }

    method OnClose(i: nat)
      requires Enabled(Abs(), Closes(i))
      modifies this
      ensures Abs() == Step(config, old(Abs()), Closes(i))
    {
      sockets := sockets[i := sockets[i].(ready := Closed)];
      CleanupAll();
      if !conn.Disconnected? { Schedule(); }
    }

    method OnMessage(i: nat)
      requires Enabled(Abs(), Receives(i))
      modifies this
      ensures Abs() == Step(config, old(Abs()), Receives(i))
    {
      ResetPongTimer();
    }

    method SubscribeTopic(topic: string)
      modifies this
      ensures Abs() == Step(config, old(Abs()), AddTopic(topic))
    {
      if topic !in subs { subs := subs + [topic]; }
      if conn.Connected? { SendMsg(Subscribe(topic)); }
    }

    method UnsubscribeTopic(topic: string)
      modifies this
      ensures Abs() == Step(config, old(Abs()), DropTopic(topic))
    {
      var known := topic in subs;
      subs := Without(subs, topic);
      if conn.Connected? && ws.Some? && known { SendMsg(Unsubscribe(topic)); }
    }

    method DisconnectNow()
      modifies this
      ensures Abs() == Step(config, old(Abs()), Disconnect)
    {
      conn := Disconnected;
      CleanupAll();
      subs := [];
    }

    /** A live timer fires; a one-shot timer is live no more when its callback starts. */
    method OnTimer(t: nat, throws: bool)
      requires Enabled(Abs(), Fires(t, throws))
      modifies this
      ensures Abs() == Step(config, old(Abs()), Fires(t, throws))
    {
      match live[t].kind {
        case PingInterval =>
          if ws.Some? && conn.Connected? {
            if throws {
              Schedule();
            } else {
              SendMsg(Ping);
              var id := SetTimer(PongTimeout, config.pingTimeout * 1000.0);
              pongTimer := Some(id);
            }
          }
        case PongTimeout =>
          ClearTimer(t);
          CleanupAll();
          Schedule();
        case ReconnectTimeout =>
          ClearTimer(t);
          ConnectNow(throws);
      }
    }
  }
}
