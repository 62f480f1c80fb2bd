/** What every run of the device-health client keeps, and what some runs break. */
module HealthSocketRuns {
  import opened Options
  import opened WebSockets
  import opened HealthSocket

  // ----- accounts: where the messages given to `send` are

  /** How often message number `id` occurs. */
  function Occurs(ms: seq<Message>, id: nat): nat {
    if ms == [] then 0 else (if ms[0].id == id then 1 else 0) + Occurs(ms[1..], id)
  }

  lemma {:induction false} OccursConcat(a: seq<Message>, b: seq<Message>, id: nat)
    ensures Occurs(a + b, id) == Occurs(a, id) + Occurs(b, id)
  {
    if a == [] {
      assert a + b == b;
    } else {
      assert (a + b)[1..] == a[1..] + b;
      OccursConcat(a[1..], b, id);
    }
  }

  lemma OccursSnoc(ms: seq<Message>, m: Message, id: nat)
    ensures Occurs(ms + [m], id) == Occurs(ms, id) + if m.id == id then 1 else 0
  {
    OccursConcat(ms, [m], id);
    assert [m][1..] == [];
  }

  /** A message given to `send` is in exactly one place, once; one not yet sent is nowhere. */
  predicate Accounted(s: State, id: nat) {
    Occurs(s.wire, id) + Occurs(s.messageQueue, id) + Occurs(s.discarded, id) + Occurs(s.failed, id)
    == if id < s.sent then 1 else 0
  }

  predicate SameMessages(s: State, s': State) {
    (s'.wire, s'.messageQueue, s'.discarded, s'.failed, s'.sent) == (s.wire, s.messageQueue, s.discarded, s.failed, s.sent)
  }

  lemma SendAccounts(s: State, serialises: bool, id: nat)
    requires Accounted(s, id)
    ensures Accounted(Send(s, serialises), id)
  {
    hide Occurs;
    var m := Message(s.sent, serialises);
    OccursSnoc(s.messageQueue, m, id);
    OccursSnoc(s.wire, m, id);
    OccursSnoc(s.failed, m, id);
  }

  lemma {:induction false} FlushAccounts(s: State, id: nat)
    requires Accounted(s, id)
    ensures Accounted(Flush(s), id)
    decreases |s.messageQueue|
  {
    if s.messageQueue != [] && IsOpen(s) {
      var m := s.messageQueue[0];
      if m.serialises {
        OccursSnoc(s.wire, m, id);
        FlushAccounts(s.(messageQueue := s.messageQueue[1..], wire := s.wire + [m]), id);
      } else {
        OccursSnoc(s.failed, m, id);
      }
    }
  }

  lemma EmptyQueueAccounts(s: State, id: nat)
    requires Accounted(s, id)
    ensures Accounted(EmptyQueue(s), id)
  {
    OccursConcat(s.discarded, s.messageQueue, id);
  }

  lemma DisconnectAccounts(s: State, id: nat)
    requires Accounted(s, id)
    ensures Accounted(Disconnect(s), id)
  {
    if !s.subscribed { OccursConcat(s.discarded, s.messageQueue, id); }
  }

  lemma ConnectSame(s: State, withDevices: bool, works: bool, c: Config)
    ensures SameMessages(s, Connect(s, withDevices, works, c))
  {}

  lemma {:induction false} ActAllAccounts(s: State, actions: seq<Action>, c: Config, id: nat)
    requires Accounted(s, id)
    ensures Accounted(ActAll(s, actions, c), id)
    decreases |actions|
  {
    if actions != [] {
      ActAccounts(s, actions[0], c, id);
      ActAllAccounts(Act(s, actions[0], c), actions[1..], c, id);
    }
  }

  lemma ActAccounts(s: State, a: Action, c: Config, id: nat)
    requires Accounted(s, id)
    ensures Accounted(Act(s, a, c), id)
  {
    match a
    case DoSend(serialises) => SendAccounts(s, serialises, id);
    case DoConnect(withDevices, works) => ConnectSame(s, withDevices, works, c);
    case DoDisconnect => DisconnectAccounts(s, id);
  }

  lemma OpensAccounts(s: State, i: nat, callback: seq<Action>, throws: bool, c: Config, id: nat)
    requires i < |s.sockets| && Accounted(s, id)
    ensures Accounted(OnOpen(s, i, callback, throws, c), id)
  {
    var s0 := s.(sockets := s.sockets[i := Open], reconnectAttempts := 0, delays := []);
    ActAllAccounts(s0, callback, c, id);
    FlushAccounts(ActAll(s0, callback, c), id);
  }

  lemma ClosesAccounts(s: State, i: nat, callback: seq<Action>, throws: bool, c: Config, id: nat)
    requires i < |s.sockets| && Accounted(s, id)
    ensures Accounted(OnClose(s, i, callback, throws, c), id)
  {
    ActAllAccounts(s.(sockets := s.sockets[i := Closed]), callback, c, id);
  }

  lemma StepAccounts(s: State, e: Event, c: Config, id: nat)
    requires Accounted(s, id)
    ensures Accounted(Step(s, e, c), id)
  {
    hide Occurs;
    hide ActAll;
    hide Flush;
    match e
    case User(action) => ActAccounts(s, action, c, id);
    case Heartbeat => SendAccounts(s, true, id);
    case SocketOpens(i, callback, throws) =>
      if i < |s.sockets| { OpensAccounts(s, i, callback, throws, c, id); }
    case SocketCloses(i, callback, throws) =>
      if i < |s.sockets| { ClosesAccounts(s, i, callback, throws, c, id); }
    case Unsubscribed =>
      if s.cleaning > 0 { EmptyQueueAccounts(s.(cleaning := s.cleaning - 1, subscribed := false), id); }
    case SocketStartsClosing(i) =>
    case TimerFires(t, works) => CreateSame(s.(liveTimers := s.liveTimers - {t}), works, c);
    case Subscribed(ok, works) =>
      if s.creating > 0 {
        CreateSame(s.(creating := s.creating - 1, subscribed := true), works, c);
        CreateSame(s.(creating := s.creating - 1), false, c);
      }
  }

  lemma CreateSame(s: State, works: bool, c: Config)
    ensures SameMessages(s, Create(s, works, c))
  {}

  /**
   * In every run each message given to `send` is exactly one of: handed to a socket once,
   * still queued, discarded by `cleanup`, lost because it could not be serialised.
   */
  lemma {:induction false} EveryMessageOnce(events: seq<Event>, c: Config, id: nat)
    ensures Accounted(Run(events, c), id)
    decreases |events|
  {
    if events != [] {
      EveryMessageOnce(events[..|events| - 1], c, id);
      StepAccounts(Run(events[..|events| - 1], c), events[|events| - 1], c, id);
    }
  }

  // ----- timers

  function Delays(n: nat, c: Config): (r: seq<real>)
    ensures |r| == n && forall j :: 0 <= j < n ==> r[j] == Delay(j, c)
  {
    if n == 0 then [] else Delays(n - 1, c) + [Delay(n - 1, c)]
  }

  /** At most the timer in the field is live; attempts and delays are counted since the last open. */
  predicate TimersKept(s: State, c: Config) {
    && (forall t :: t in s.liveTimers ==> s.reconnectTimer == Some(t))
    && (s.reconnectAttempts <= c.maxReconnectAttempts || s.reconnectAttempts == 0)
    && s.delays == Delays(s.reconnectAttempts, c)
  }

  predicate SameTimers(s: State, s': State) {
    (s'.liveTimers, s'.reconnectTimer, s'.reconnectAttempts, s'.delays)
    == (s.liveTimers, s.reconnectTimer, s.reconnectAttempts, s.delays)
  }

  lemma ScheduleKeeps(s: State, c: Config)
    requires TimersKept(s, c)
    ensures TimersKept(ScheduleReconnect(s, c), c)
  {}

  lemma {:induction false} FlushSameTimers(s: State)
    ensures SameTimers(s, Flush(s))
    decreases |s.messageQueue|
  {
    if s.messageQueue != [] && IsOpen(s) && s.messageQueue[0].serialises {
      FlushSameTimers(s.(messageQueue := s.messageQueue[1..], wire := s.wire + [s.messageQueue[0]]));
    }
  }

  lemma CreateKeeps(s: State, works: bool, c: Config)
    requires TimersKept(s, c)
    ensures TimersKept(Create(s, works, c), c)
  {
    if works { assert SameTimers(s, Create(s, works, c)); } else { ScheduleKeeps(s, c); }
  }

  lemma ActKeeps(s: State, a: Action, c: Config)
    requires TimersKept(s, c)
    ensures TimersKept(Act(s, a, c), c)
  {
    match a
    case DoSend(serialises) => assert SameTimers(s, Act(s, a, c));
    case DoConnect(withDevices, works) =>
      var s' := s.(isIntentionallyClosed := false);
      assert SameTimers(s, s');
      CreateKeeps(s', works, c);
      if withDevices { assert SameTimers(s, Act(s, a, c)); }
    case DoDisconnect => DisconnectKeeps(s, c);
  }

  lemma DisconnectKeeps(s: State, c: Config)
    requires TimersKept(s, c)
    ensures TimersKept(Disconnect(s), c)
  {}

  lemma {:induction false} ActAllKeeps(s: State, actions: seq<Action>, c: Config)
    requires TimersKept(s, c)
    ensures TimersKept(ActAll(s, actions, c), c)
    decreases |actions|
  {
    if actions != [] {
      ActKeeps(s, actions[0], c);
      ActAllKeeps(Act(s, actions[0], c), actions[1..], c);
    }
  }

  lemma OpensKeeps(s: State, i: nat, callback: seq<Action>, throws: bool, c: Config)
    requires i < |s.sockets| && TimersKept(s, c)
    ensures TimersKept(OnOpen(s, i, callback, throws, c), c)
  {
    var s0 := s.(sockets := s.sockets[i := Open], reconnectAttempts := 0, delays := []);
    ActAllKeeps(s0, callback, c);
    FlushSameTimers(ActAll(s0, callback, c));
  }

  lemma ClosesKeeps(s: State, i: nat, callback: seq<Action>, throws: bool, c: Config)
    requires i < |s.sockets| && TimersKept(s, c)
    ensures TimersKept(OnClose(s, i, callback, throws, c), c)
  {
    var s0 := s.(sockets := s.sockets[i := Closed]);
    ActAllKeeps(s0, callback, c);
    ScheduleKeeps(ActAll(s0, callback, c), c);
  }

  lemma StepKeeps(s: State, e: Event, c: Config)
    requires TimersKept(s, c)
    ensures TimersKept(Step(s, e, c), c)
  {
    match e
    case User(action) => ActKeeps(s, action, c);
    case SocketOpens(i, callback, throws) =>
      if i < |s.sockets| { OpensKeeps(s, i, callback, throws, c); }
    case SocketCloses(i, callback, throws) =>
      if i < |s.sockets| { ClosesKeeps(s, i, callback, throws, c); }
    case TimerFires(id, works) =>
      CreateKeeps(s.(liveTimers := s.liveTimers - {id}), works, c);
    case Subscribed(ok, works) =>
      if s.creating > 0 {
        if ok { CreateKeeps(s.(creating := s.creating - 1, subscribed := true), works, c); }
        else { ScheduleKeeps(s.(creating := s.creating - 1), c); }
      }
    case _ => assert SameTimers(s, Step(s, e, c));
  }

  lemma {:induction false} RunKeeps(events: seq<Event>, c: Config)
    ensures TimersKept(Run(events, c), c)
    decreases |events|
  {
    if events != [] {
      RunKeeps(events[..|events| - 1], c);
      StepKeeps(Run(events[..|events| - 1], c), events[|events| - 1], c);
    }
  }

  // ----- the invariant of the client

  /** What the client keeps from one event to the next: its reconnect timer and the account of every message. */
  ghost predicate Sound(s: State, c: Config) {
    TimersKept(s, c) && forall id :: Accounted(s, id)
  }

  lemma SendSound(s: State, serialises: bool, c: Config)
    requires Sound(s, c)
    ensures Sound(Send(s, serialises), c)
  {
    assert SameTimers(s, Send(s, serialises));
    forall id ensures Accounted(Send(s, serialises), id) { SendAccounts(s, serialises, id); }
  }

  lemma FlushSound(s: State, c: Config)
    requires Sound(s, c)
    ensures Sound(Flush(s), c)
  {
    FlushSameTimers(s);
    forall id ensures Accounted(Flush(s), id) { FlushAccounts(s, id); }
  }

  lemma ScheduleSound(s: State, c: Config)
    requires Sound(s, c)
    ensures Sound(ScheduleReconnect(s, c), c)
  {
    ScheduleKeeps(s, c);
    SameAccounts(s, ScheduleReconnect(s, c));
  }

  lemma CreateSound(s: State, works: bool, c: Config)
    requires Sound(s, c)
    ensures Sound(Create(s, works, c), c)
  {
    CreateKeeps(s, works, c);
    CreateSame(s, works, c);
    SameAccounts(s, Create(s, works, c));
  }

  lemma ConnectSound(s: State, withDevices: bool, works: bool, c: Config)
    requires Sound(s, c)
    ensures Sound(Connect(s, withDevices, works, c), c)
  {
    ActKeeps(s, DoConnect(withDevices, works), c);
    ConnectSame(s, withDevices, works, c);
    SameAccounts(s, Connect(s, withDevices, works, c));
  }

  lemma DisconnectSound(s: State, c: Config)
    requires Sound(s, c)
    ensures Sound(Disconnect(s), c) && Disconnect(s).liveTimers == {}
  {
    DisconnectKeeps(s, c);
    forall id ensures Accounted(Disconnect(s), id) { DisconnectAccounts(s, id); }
  }

  lemma EmptyQueueSound(s: State, c: Config)
    requires Sound(s, c)
    ensures Sound(EmptyQueue(s), c)
  {
    assert SameTimers(s, EmptyQueue(s));
    forall id ensures Accounted(EmptyQueue(s), id) { EmptyQueueAccounts(s, id); }
  }

  lemma SameAccounts(s: State, s': State)
    requires SameMessages(s, s') && forall id :: Accounted(s, id)
    ensures forall id :: Accounted(s', id)
  {
    forall id ensures Accounted(s', id) { assert Accounted(s, id); }
  }

  /** A change of the connection alone: a timer may be spent, the attempts may start over. */
  lemma QuietSound(s: State, s': State, c: Config)
    requires Sound(s, c) && SameMessages(s, s')
    requires s'.reconnectTimer == s.reconnectTimer && s'.liveTimers <= s.liveTimers
    requires (s'.reconnectAttempts == s.reconnectAttempts && s'.delays == s.delays) || (s'.reconnectAttempts == 0 && s'.delays == [])
    ensures Sound(s', c)
  {
    SameAccounts(s, s');
  }

  lemma InitiallySound(c: Config)
    ensures Sound(Initial(), c)
  {}

  // ----- backoff

  lemma {:induction false} PowersGrow(x: real, n: nat)
    ensures x >= 0.0 ==> TimesPow2(x, n) >= 0.0 && TimesPow2(x, n) <= TimesPow2(x, n + 1)
    ensures x < 0.0 ==> TimesPow2(x, n) > TimesPow2(x, n + 1) && TimesPow2(x, n) < 0.0
  {
    if n > 0 { PowersGrow(x, n - 1); }
  }

  /** Delays never decrease exactly when the configured interval is not negative. */
  lemma DelaysGrow(c: Config)
    ensures (forall j: nat :: Delay(j, c) <= Delay(j + 1, c)) <==> c.reconnectInterval >= 0.0
  {
    forall j: nat | c.reconnectInterval >= 0.0 ensures Delay(j, c) <= Delay(j + 1, c) {
      PowersGrow(c.reconnectInterval, j);
    }
    PowersGrow(c.reconnectInterval, 0);
    assert Delay(0, c) <= Delay(0 + 1, c) ==> c.reconnectInterval >= 0.0;
  }

  /** The first delays in numbers. */
  lemma DelayInNumbers(n: nat, c: Config)
    requires n <= 4
    ensures
      var d := c.reconnectInterval *
        (if n == 0 then 1.0 else if n == 1 then 2.0 else if n == 2 then 4.0 else if n == 3 then 8.0 else 16.0);
      Delay(n, c) == if d < 30000.0 then d else 30000.0
  {
    var x := c.reconnectInterval;
    assert TimesPow2(x, 1) == 2.0 * x && TimesPow2(x, 2) == 4.0 * x;
    assert TimesPow2(x, 3) == 8.0 * x && TimesPow2(x, 4) == 16.0 * x;
  }

  lemma {:induction false} DelayMonotone(i: nat, j: nat, c: Config)
    requires i <= j && c.reconnectInterval >= 0.0
    ensures Delay(i, c) <= Delay(j, c)
    decreases j
  {
    if i < j {
      DelayMonotone(i, j - 1, c);
      DelaysGrow(c);
      assert Delay(j - 1, c) <= Delay(j - 1 + 1, c);
    }
  }

  /**
   * In every run at most one reconnect timer is live, the attempts stay within their maximum,
   * and the delays since the last open never decrease and never exceed 30 seconds.
   */
  lemma ReconnectBounds(events: seq<Event>, c: Config)
    ensures
      var s := Run(events, c);
      && (forall t, u :: t in s.liveTimers && u in s.liveTimers ==> t == u)
      && (c.maxReconnectAttempts >= 0 ==> s.reconnectAttempts <= c.maxReconnectAttempts)
      && (forall i :: 0 <= i < |s.delays| ==> s.delays[i] <= 30000.0)
      && (c.reconnectInterval >= 0.0 ==> forall i, j :: 0 <= i <= j < |s.delays| ==> s.delays[i] <= s.delays[j])
  {
    RunKeeps(events, c);
    var s := Run(events, c);
    forall i, j | c.reconnectInterval >= 0.0 && 0 <= i <= j < |s.delays| ensures s.delays[i] <= s.delays[j] {
      DelayMonotone(i, j, c);
    }
  }

  /** `onDisconnect` has returned and `onclose` goes on to schedule a reconnect. */
  predicate Reschedules(s1: State, throws: bool, c: Config) {
    !throws && !s1.isIntentionallyClosed && s1.reconnectAttempts < c.maxReconnectAttempts
  }

  /**
   * In every run, a timer is live after a close exactly when one was live after `onDisconnect`, or
   * the close was not intended and attempts remain; then it is one new timer with the next delay.
   */
  lemma CloseIsFollowedUp(events: seq<Event>, i: nat, callback: seq<Action>, throws: bool, c: Config)
    requires i < |Run(events, c).sockets| && Run(events, c).sockets[i] != Closed
    ensures
      var s := Run(events, c);
      var s1 := ActAll(s.(sockets := s.sockets[i := Closed]), callback, c);
      var s' := Step(s, SocketCloses(i, callback, throws), c);
      && (s'.liveTimers != {} <==> s1.liveTimers != {} || Reschedules(s1, throws, c))
      && (Reschedules(s1, throws, c) ==>
            s'.liveTimers == {s1.nextTimer} && s'.delays == s1.delays + [Delay(|s1.delays|, c)])
  {
    var s := Run(events, c);
    var s0 := s.(sockets := s.sockets[i := Closed]);
    RunKeeps(events, c);
    ActAllKeeps(s0, callback, c);
    ScheduleReplaces(ActAll(s0, callback, c), c);
  }

  lemma ScheduleReplaces(s: State, c: Config)
    requires TimersKept(s, c)
    ensures s.reconnectAttempts < c.maxReconnectAttempts ==>
      var s' := ScheduleReconnect(s, c);
      s'.liveTimers == {s.nextTimer} && s'.delays == s.delays + [Delay(|s.delays|, c)]
  {
    assert WithoutTimer(s.liveTimers, s.reconnectTimer) == {};
  }

  // ----- attempts to connect

  /**
   * From `s`, with the timers `live` left: a new current socket, or after a failure one new timer
   * when attempts remain and none otherwise. The messages stay where they are.
   */
  predicate Attempted(s: State, live: set<nat>, s': State, works: bool, c: Config) {
    && SameMessages(s, s')
    && (if works then
          (s'.sockets, s'.ws, s'.liveTimers, s'.reconnectAttempts)
          == (s.sockets + [Connecting], Some(|s.sockets|), live, s.reconnectAttempts)
        else if s.reconnectAttempts < c.maxReconnectAttempts then
          (s'.sockets, s'.ws, s'.liveTimers, s'.reconnectAttempts) == (s.sockets, s.ws, {s.nextTimer}, s.reconnectAttempts + 1)
        else (s'.sockets, s'.ws, s'.liveTimers, s'.reconnectAttempts) == (s.sockets, s.ws, live, s.reconnectAttempts))
  }

  lemma CreateAttempts(s: State, works: bool, c: Config)
    requires forall t :: t in s.liveTimers ==> s.reconnectTimer == Some(t)
    ensures Attempted(s, s.liveTimers, Create(s, works, c), works, c)
    ensures
      var s' := Create(s, works, c);
      (s'.creating, s'.subscribed, s'.isIntentionallyClosed) == (s.creating, s.subscribed, s.isIntentionallyClosed)
  {
    if !works && s.reconnectAttempts < c.maxReconnectAttempts {
      assert WithoutTimer(s.liveTimers, s.reconnectTimer) == {};
      assert {} + {s.nextTimer} == {s.nextTimer};
    }
  }

  /** In every run a timer that fires makes one attempt to connect, and only it is used up. */
  lemma TimerAttempts(events: seq<Event>, id: nat, works: bool, c: Config)
    requires id in Run(events, c).liveTimers
    ensures Attempted(Run(events, c), {}, Step(Run(events, c), TimerFires(id, works), c), works, c)
  {
    hide Create;
    RunKeeps(events, c);
    var s := Run(events, c);
    assert s.liveTimers - {id} == {};
    CreateAttempts(s.(liveTimers := s.liveTimers - {id}), works, c);
  }

  /**
   * In every run: the end of an awaited subscription makes one attempt, which fails when the subscription
   * does; `connect` makes one, or awaits a subscription first, exactly when the current socket is not open.
   */
  lemma ConnectAttempts(events: seq<Event>, ok: bool, withDevices: bool, works: bool, c: Config)
    ensures
      var s := Run(events, c);
      var s1, s2 := Step(s, Subscribed(ok, works), c), Step(s, User(DoConnect(withDevices, works)), c);
      && (s.creating > 0 ==>
            Attempted(s, s.liveTimers, s1, ok && works, c) && s1.creating == s.creating - 1 && (ok ==> s1.subscribed))
      && (s.creating == 0 ==> s1 == s)
      && (IsOpen(s) ==> s2 == s)
      && (!IsOpen(s) && !withDevices ==> Attempted(s, s.liveTimers, s2, works, c) && !s2.isIntentionallyClosed)
      && (!IsOpen(s) && withDevices ==> s2 == s.(isIntentionallyClosed := false, creating := s.creating + 1))
  {
    hide Create;
    hide ScheduleReconnect;
    RunKeeps(events, c);
    var s := Run(events, c);
    CreateAttempts(s.(isIntentionallyClosed := false), works, c);
    if s.creating > 0 {
      CreateAttempts(s.(creating := s.creating - 1, subscribed := true), works, c);
      FailedCreate(s.(creating := s.creating - 1), c);
      CreateAttempts(s.(creating := s.creating - 1), false, c);
    }
  }

  lemma FailedCreate(s: State, c: Config)
    ensures Create(s, false, c) == ScheduleReconnect(s, c)
  {}

  /**
   * In every run, a message sent while no socket is open goes out with the queue before it, in order,
   * once a timer has fired and its socket has opened; then nothing is left to do.
   */
  lemma ReconnectDelivers(events: seq<Event>, id: nat, c: Config)
    requires id in Run(events, c).liveTimers && !IsOpen(Run(events, c)) && AllSerialise(Run(events, c).messageQueue)
    ensures
      var s := Run(events, c);
      var s1 := Step(s, User(DoSend(true)), c);
      var s2 := Step(s1, TimerFires(id, true), c);
      var s3 := Step(s2, SocketOpens(|s.sockets|, [], false), c);
      && s1.messageQueue == s.messageQueue + [Message(s.sent, true)] && s1.wire == s.wire
      && IsOpen(s3) && s3.sockets == s.sockets + [Open] && s3.messageQueue == [] && s3.wire == s.wire + s1.messageQueue
      && s3.liveTimers == {} && s3.reconnectAttempts == 0 && s3.delays == []
  {
    var s := Run(events, c);
    var e1 := User(DoSend(true));
    var s1 := Step(s, e1, c);
    RunSnoc(events, e1, c);
    TimerAttempts(events + [e1], id, true, c);
    var s2 := Step(s1, TimerFires(id, true), c);
    var atOpen := s2.(sockets := s2.sockets[|s.sockets| := Open], reconnectAttempts := 0, delays := []);
    ActNone(atOpen, c);
    assert atOpen.sockets == s.sockets + [Open];
    FlushEmpties(atOpen);
    FlushSameTimers(atOpen);
    FlushSpares(atOpen);
  }

  /** A message or a heartbeat on an open socket goes out at once; a heartbeat without one does nothing. */
  lemma OpenDelivers(s: State, c: Config)
    ensures IsOpen(s) ==>
      Step(s, User(DoSend(true)), c) == s.(sent := s.sent + 1, wire := s.wire + [Message(s.sent, true)])
      == Step(s, Heartbeat, c)
    ensures !IsOpen(s) ==> Step(s, Heartbeat, c) == s
  {}

  /**
   * `disconnect` starts to close a socket that is connecting or open, and the queue is discarded:
   * at once, or when the subscription has been removed.
   */
  lemma DisconnectCleansUp(s: State, c: Config)
    ensures
      var s1 := Step(s, User(DoDisconnect), c);
      var s2 := if s.subscribed then Step(s1, Unsubscribed, c) else s1;
      && s1.ws == None && s1.isIntentionallyClosed && !s2.subscribed && s2.cleaning == s.cleaning
      && s1.sockets == (if s.ws.Some? && s.ws.value < |s.sockets| && s.sockets[s.ws.value] in {Connecting, Open}
                        then s.sockets[s.ws.value := Closing] else s.sockets)
      && (s.subscribed ==> s1.messageQueue == s.messageQueue && s1.discarded == s.discarded && s1.cleaning == s.cleaning + 1)
      && s2.messageQueue == [] && s2.discarded == s.discarded + s.messageQueue && s2.wire == s.wire
  {}

  /** What events without callbacks do to the state of their socket, and that they do nothing else unless a close is followed up. */
  lemma SocketEnds(s: State, i: nat, c: Config)
    requires i < |s.sockets| && s.sockets[i] != Closed
    ensures Step(s, SocketStartsClosing(i), c) == s.(sockets := s.sockets[i := Closing])
    ensures Step(s, SocketCloses(i, [], true), c) == s.(sockets := s.sockets[i := Closed])
    ensures s.isIntentionallyClosed ==> Step(s, SocketCloses(i, [], false), c) == s.(sockets := s.sockets[i := Closed])
    ensures Step(s, SocketCloses(i, [], false), c).sockets == s.sockets[i := Closed]
    ensures s.sockets[i] == Connecting ==>
      Step(s, SocketOpens(i, [], true), c) == s.(sockets := s.sockets[i := Open], reconnectAttempts := 0, delays := [])
  {}

  // ----- after `disconnect`

  predicate NoConnects(actions: seq<Action>) {
    forall i :: 0 <= i < |actions| ==> !actions[i].DoConnect?
  }

  predicate NoConnect(e: Event) {
    match e
    case User(action) => !action.DoConnect?
    case SocketOpens(_, callback, _) => NoConnects(callback)
    case SocketCloses(_, callback, _) => NoConnects(callback)
    case _ => true
  }

  /** No socket is current, no timer is live, no attempt to connect is under way. */
  predicate Disconnected(s: State, n: nat) {
    (s.isIntentionallyClosed, s.ws, s.creating, |s.sockets|) == (true, None, 0, n) && s.liveTimers == {}
  }

  lemma {:induction false} ActionsStayDisconnected(s: State, actions: seq<Action>, n: nat, c: Config)
    requires Disconnected(s, n) && NoConnects(actions)
    ensures Disconnected(ActAll(s, actions, c), n)
    decreases |actions|
  {
    if actions != [] {
      assert !actions[0].DoConnect?;
      ActionsStayDisconnected(Act(s, actions[0], c), actions[1..], n, c);
    }
  }

  lemma StepStaysDisconnected(s: State, e: Event, n: nat, c: Config)
    requires Disconnected(s, n) && NoConnect(e)
    ensures Disconnected(Step(s, e, c), n)
  {
    hide ActAll;
    match e
    case User(action) =>
    case SocketOpens(i, callback, throws) =>
      if i < |s.sockets| {
        ActionsStayDisconnected(s.(sockets := s.sockets[i := Open], reconnectAttempts := 0, delays := []), callback, n, c);
      }
    case SocketCloses(i, callback, throws) =>
      if i < |s.sockets| { ActionsStayDisconnected(s.(sockets := s.sockets[i := Closed]), callback, n, c); }
    case _ =>
  }

  function RunFrom(s: State, events: seq<Event>, c: Config): State
    decreases |events|
  {
    if events == [] then s else RunFrom(Step(s, events[0], c), events[1..], c)
  }

  predicate NoneConnects(events: seq<Event>) {
    forall i :: 0 <= i < |events| ==> NoConnect(events[i])
  }

  lemma {:induction false} RunStaysDisconnected(s: State, events: seq<Event>, n: nat, c: Config)
    requires Disconnected(s, n) && NoneConnects(events)
    ensures Disconnected(RunFrom(s, events, c), n)
    decreases |events|
  {
    if events != [] {
      assert NoConnect(events[0]);
      StepStaysDisconnected(s, events[0], n, c);
      RunStaysDisconnected(Step(s, events[0], c), events[1..], n, c);
    }
  }

  /** Whatever happens but a call of `connect`, no socket is created and no reconnect timer is live. */
  ghost predicate StaysDisconnected(s: State, c: Config) {
    forall events :: NoneConnects(events) ==>
      |RunFrom(s, events, c).sockets| == |s.sockets| && RunFrom(s, events, c).liveTimers == {}
  }

  lemma LateSubscription(s: State, c: Config)
    requires s.creating > 0
    ensures NoneConnects([Subscribed(true, true)]) && |RunFrom(s, [Subscribed(true, true)], c).sockets| > |s.sockets|
  {
    var late := [Subscribed(true, true)];
    assert late[1..] == [];
    assert RunFrom(s, late, c) == Step(s, late[0], c);
  }

  /**
   * After `disconnect` the client stays disconnected until `connect` is called again,
   * exactly when no `createWebSocket` was still waiting for its subscription.
   */
  lemma DisconnectIsFinal(before: seq<Event>, c: Config)
    ensures StaysDisconnected(Disconnect(Run(before, c)), c) <==> Run(before, c).creating == 0
  {
    var s := Disconnect(Run(before, c));
    RunKeeps(before, c);
    DisconnectClears(Run(before, c), c);
    if s.creating == 0 {
      forall events | NoneConnects(events)
        ensures |RunFrom(s, events, c).sockets| == |s.sockets| && RunFrom(s, events, c).liveTimers == {}
      {
        RunStaysDisconnected(s, events, |s.sockets|, c);
      }
    } else {
      LateSubscription(s, c);
    }
  }

  lemma DisconnectClears(s: State, c: Config)
    requires TimersKept(s, c)
    ensures
      var s' := Disconnect(s);
      s'.isIntentionallyClosed && s'.ws == None && s'.liveTimers == {} && s'.creating == s.creating
  {}

  // ----- what a late `cleanup` discards

  predicate NoDisconnects(actions: seq<Action>) {
    forall i :: 0 <= i < |actions| ==> !actions[i].DoDisconnect?
  }

  predicate NoDisconnect(e: Event) {
    match e
    case User(action) => !action.DoDisconnect?
    case SocketOpens(_, callback, _) => NoDisconnects(callback)
    case SocketCloses(_, callback, _) => NoDisconnects(callback)
    case _ => true
  }

  predicate NoneDisconnects(events: seq<Event>) {
    forall i :: 0 <= i < |events| ==> NoDisconnect(events[i])
  }

  /** No `cleanup` waits, and what was discarded is `gone`. */
  predicate Tidy(s: State, gone: seq<Message>) {
    s.cleaning == 0 && s.discarded == gone
  }

  lemma {:induction false} ActionsStayTidy(s: State, actions: seq<Action>, gone: seq<Message>, c: Config)
    requires Tidy(s, gone) && NoDisconnects(actions)
    ensures Tidy(ActAll(s, actions, c), gone)
    decreases |actions|
  {
    if actions != [] {
      assert !actions[0].DoDisconnect?;
      ActionsStayTidy(Act(s, actions[0], c), actions[1..], gone, c);
    }
  }

  lemma {:induction false} FlushStaysTidy(s: State, gone: seq<Message>)
    requires Tidy(s, gone)
    ensures Tidy(Flush(s), gone)
    decreases |s.messageQueue|
  {
    if s.messageQueue != [] && IsOpen(s) && s.messageQueue[0].serialises {
      FlushStaysTidy(s.(messageQueue := s.messageQueue[1..], wire := s.wire + [s.messageQueue[0]]), gone);
    }
  }

  lemma StepStaysTidy(s: State, e: Event, gone: seq<Message>, c: Config)
    requires Tidy(s, gone) && NoDisconnect(e)
    ensures Tidy(Step(s, e, c), gone)
  {
    hide ActAll;
    hide Flush;
    match e
    case SocketOpens(i, callback, throws) =>
      if i < |s.sockets| {
        var s0 := s.(sockets := s.sockets[i := Open], reconnectAttempts := 0, delays := []);
        ActionsStayTidy(s0, callback, gone, c);
        FlushStaysTidy(ActAll(s0, callback, c), gone);
      }
    case SocketCloses(i, callback, throws) =>
      if i < |s.sockets| { ActionsStayTidy(s.(sockets := s.sockets[i := Closed]), callback, gone, c); }
    case _ =>
  }

  lemma {:induction false} RunStaysTidy(s: State, events: seq<Event>, gone: seq<Message>, c: Config)
    requires Tidy(s, gone) && NoneDisconnects(events)
    ensures Tidy(RunFrom(s, events, c), gone)
    decreases |events|
  {
    if events != [] {
      assert NoDisconnect(events[0]);
      StepStaysTidy(s, events[0], gone, c);
      RunStaysTidy(Step(s, events[0], c), events[1..], gone, c);
    }
  }

  /** Whatever happens but another call of `disconnect`, no message is discarded. */
  ghost predicate DiscardsNothing(s: State, c: Config) {
    forall events :: NoneDisconnects(events) ==> RunFrom(s, events, c).discarded == s.discarded
  }

  lemma RunTwo(s: State, e0: Event, e1: Event, c: Config)
    ensures RunFrom(s, [e0, e1], c) == Step(Step(s, e0, c), e1, c)
  {
    assert [e0, e1][1..] == [e1] && [e1][1..] == [];
    assert RunFrom(Step(s, e0, c), [e1], c) == Step(Step(s, e0, c), e1, c);
  }

  lemma LateCleanup(s: State, c: Config)
    requires s.ws == None && s.cleaning > 0
    ensures
      var events := [User(DoSend(true)), Unsubscribed];
      NoneDisconnects(events) && |RunFrom(s, events, c).discarded| > |s.discarded|
  {
    RunTwo(s, User(DoSend(true)), Unsubscribed, c);
  }

  /**
   * What is sent after `disconnect` is never discarded, until `disconnect` is called again, exactly
   * when no subscription had to be removed and no earlier `cleanup` was still waiting.
   */
  lemma DisconnectDiscardsOnce(before: seq<Event>, c: Config)
    ensures DiscardsNothing(Disconnect(Run(before, c)), c) <==> !Run(before, c).subscribed && Run(before, c).cleaning == 0
  {
    var s := Disconnect(Run(before, c));
    if s.cleaning == 0 {
      forall events | NoneDisconnects(events) ensures RunFrom(s, events, c).discarded == s.discarded {
        RunStaysTidy(s, events, s.discarded, c);
      }
    } else {
      LateCleanup(s, c);
    }
  }

  // ----- what replaces an open socket

  /** Nobody disconnects, and the socket `w` stays as it is. */
  predicate Spares(e: Event, w: nat) {
    && NoDisconnect(e)
    && (e.SocketCloses? ==> e.i != w)
    && (e.SocketStartsClosing? ==> e.i != w)
  }

  predicate AllSpare(events: seq<Event>, w: nat) {
    forall i :: 0 <= i < |events| ==> Spares(events[i], w)
  }

  /** What callbacks do to a client whose current socket `w` is open, and what they leave. */
  predicate SameConnection(s: State, s': State) {
    (s'.ws, s'.sockets, s'.liveTimers, s'.nextTimer, s'.creating, s'.isIntentionallyClosed, s'.reconnectAttempts)
    == (s.ws, s.sockets, s.liveTimers, s.nextTimer, s.creating, s.isIntentionallyClosed, s.reconnectAttempts)
  }

  lemma {:induction false} ActionsSpare(s: State, actions: seq<Action>, c: Config)
    requires IsOpen(s) && NoDisconnects(actions)
    ensures SameConnection(s, ActAll(s, actions, c))
    decreases |actions|
  {
    if actions != [] {
      assert !actions[0].DoDisconnect?;
      assert SameConnection(s, Act(s, actions[0], c));
      ActionsSpare(Act(s, actions[0], c), actions[1..], c);
    }
  }

  lemma {:induction false} FlushSpares(s: State)
    ensures SameConnection(s, Flush(s))
    decreases |s.messageQueue|
  {
    if s.messageQueue != [] && IsOpen(s) && s.messageQueue[0].serialises {
      FlushSpares(s.(messageQueue := s.messageQueue[1..], wire := s.wire + [s.messageQueue[0]]));
    }
  }

  lemma OpensSpare(s: State, i: nat, callback: seq<Action>, throws: bool, c: Config)
    requires IsOpen(s) && i < |s.sockets| && i != s.ws.value && NoDisconnects(callback)
    ensures
      SameConnection(s.(sockets := s.sockets[i := Open], reconnectAttempts := 0), OnOpen(s, i, callback, throws, c))
  {
    var s0 := s.(sockets := s.sockets[i := Open], reconnectAttempts := 0, delays := []);
    ActionsSpare(s0, callback, c);
    FlushSpares(ActAll(s0, callback, c));
  }

  /** A timer or a late subscription brings a new socket without a look at the current one. */
  predicate Replaces(s: State, e: Event) {
    match e
    case TimerFires(id, works) => id in s.liveTimers && works
    case Subscribed(ok, works) => s.creating > 0 && ok && works
    case _ => false
  }

  /** The events that replace an open current socket are exactly those two. */
  lemma ReplacedBy(s: State, e: Event, c: Config)
    requires IsOpen(s) && Spares(e, s.ws.value)
    ensures Step(s, e, c).ws != s.ws <==> Replaces(s, e)
    ensures !Replaces(s, e) ==> IsOpen(Step(s, e, c))
  {
    hide ActAll;
    hide Flush;
    hide Delay;
    match e
    case SocketOpens(i, callback, throws) =>
      if i < |s.sockets| && s.sockets[i] == Connecting { OpensSpare(s, i, callback, throws, c); }
    case SocketCloses(i, callback, throws) =>
      if i < |s.sockets| && s.sockets[i] != Closed { ActionsSpare(s.(sockets := s.sockets[i := Closed]), callback, c); }
    case _ =>
  }

  /** A socket other than the current one that has not closed. */
  predicate OtherUnclosed(s: State, j: nat) {
    j < |s.sockets| && s.ws != Some(j) && s.sockets[j] != Closed
  }

  predicate OtherConnecting(s: State, j: nat) {
    j < |s.sockets| && s.ws != Some(j) && s.sockets[j] == Connecting
  }

  /**
   * The open current socket can be replaced: a timer is live, a `createWebSocket` waits for its
   * subscription, or an older socket is still to close and its close can set a timer.
   */
  ghost predicate Replaceable(s: State, c: Config) {
    || s.liveTimers != {}
    || s.creating > 0
    || (!s.isIntentionallyClosed && s.reconnectAttempts < c.maxReconnectAttempts && exists j :: OtherUnclosed(s, j))
    || (!s.isIntentionallyClosed && 0 < c.maxReconnectAttempts && exists j :: OtherConnecting(s, j))
  }

  lemma StaysIrreplaceable(s: State, e: Event, c: Config)
    requires IsOpen(s) && Spares(e, s.ws.value) && !Replaceable(s, c)
    ensures Step(s, e, c).ws == s.ws && IsOpen(Step(s, e, c)) && !Replaceable(Step(s, e, c), c)
  {
    hide ActAll;
    hide Flush;
    hide Delay;
    ReplacedBy(s, e, c);
    match e
    case SocketOpens(i, callback, throws) =>
      if i < |s.sockets| && s.sockets[i] == Connecting {
        OpensSpare(s, i, callback, throws, c);
        assert OtherConnecting(s, i);
        OthersStay(s, Step(s, e, c));
      }
    case SocketCloses(i, callback, throws) =>
      if i < |s.sockets| && s.sockets[i] != Closed {
        ActionsSpare(s.(sockets := s.sockets[i := Closed]), callback, c);
        assert OtherUnclosed(s, i);
        OthersStay(s, Step(s, e, c));
      }
    case SocketStartsClosing(i) => OthersStay(s, Step(s, e, c));
    case _ => OthersStay(s, Step(s, e, c));
  }

  lemma OthersStay(s: State, s': State)
    requires s'.ws == s.ws && |s'.sockets| == |s.sockets|
    requires forall j :: 0 <= j < |s.sockets| ==>
      s'.sockets[j] == s.sockets[j] || (s'.sockets[j] != Connecting && s.sockets[j] != Closed)
    ensures forall j :: OtherUnclosed(s', j) ==> OtherUnclosed(s, j)
    ensures forall j :: OtherConnecting(s', j) ==> OtherConnecting(s, j)
  {}

  lemma {:induction false} RunStaysIrreplaceable(s: State, events: seq<Event>, c: Config)
    requires IsOpen(s) && AllSpare(events, s.ws.value) && !Replaceable(s, c)
    ensures RunFrom(s, events, c).ws == s.ws
    decreases |events|
  {
    if events != [] {
      assert Spares(events[0], s.ws.value);
      StaysIrreplaceable(s, events[0], c);
      RunStaysIrreplaceable(Step(s, events[0], c), events[1..], c);
    }
  }

  lemma RunThree(s: State, e0: Event, e1: Event, e2: Event, c: Config)
    ensures RunFrom(s, [e0, e1, e2], c) == Step(Step(Step(s, e0, c), e1, c), e2, c)
  {
    assert [e0, e1, e2][1..] == [e1, e2];
    RunTwo(Step(s, e0, c), e1, e2, c);
  }

  /** An older socket closes, and the timer that its close sets fires. */
  lemma CloseReplaces(s: State, j: nat, c: Config)
    requires IsOpen(s) && !s.isIntentionallyClosed && s.reconnectAttempts < c.maxReconnectAttempts && OtherUnclosed(s, j)
    ensures Step(Step(s, SocketCloses(j, [], false), c), TimerFires(s.nextTimer, true), c).ws == Some(|s.sockets|)
  {}

  lemma OpenReplaces(s: State, j: nat, c: Config)
    requires IsOpen(s) && !s.isIntentionallyClosed && 0 < c.maxReconnectAttempts && OtherConnecting(s, j)
    ensures
      var s1 := Step(s, SocketOpens(j, [], false), c);
      Step(Step(s1, SocketCloses(j, [], false), c), TimerFires(s.nextTimer, true), c).ws == Some(|s.sockets|)
  {
    hide Flush;
    OpensSpare(s, j, [], false, c);
    CloseReplaces(Step(s, SocketOpens(j, [], false), c), j, c);
  }

  lemma ReplacingEvents(s: State, c: Config) returns (events: seq<Event>)
    requires IsOpen(s) && Replaceable(s, c)
    ensures AllSpare(events, s.ws.value) && RunFrom(s, events, c).ws != s.ws
  {
    if t :| t in s.liveTimers {
      events := [TimerFires(t, true)];
      assert events[1..] == [];
    } else if s.creating > 0 {
      events := [Subscribed(true, true)];
      assert events[1..] == [];
    } else if !s.isIntentionallyClosed && s.reconnectAttempts < c.maxReconnectAttempts && exists j :: OtherUnclosed(s, j) {
      var j :| OtherUnclosed(s, j);
      events := [SocketCloses(j, [], false), TimerFires(s.nextTimer, true)];
      CloseReplaces(s, j, c);
      RunTwo(s, events[0], events[1], c);
    } else {
      var j :| OtherConnecting(s, j);
      events := [SocketOpens(j, [], false), SocketCloses(j, [], false), TimerFires(s.nextTimer, true)];
      OpenReplaces(s, j, c);
      RunThree(s, events[0], events[1], events[2], c);
    }
  }

  /** Whatever happens but a `disconnect` and the end of the socket itself, it stays the current one. */
  ghost predicate KeepsSocket(s: State, c: Config)
    requires IsOpen(s)
  {
    forall events :: AllSpare(events, s.ws.value) ==> RunFrom(s, events, c).ws == s.ws
  }

  /** An open current socket stays current in every continuation exactly when it is not replaceable. */
  lemma OpenSocketStays(s: State, c: Config)
    requires IsOpen(s)
    ensures KeepsSocket(s, c) <==> !Replaceable(s, c)
  {
    if Replaceable(s, c) {
      var events := ReplacingEvents(s, c);
      assert !KeepsSocket(s, c);
    } else {
      forall events | AllSpare(events, s.ws.value) ensures RunFrom(s, events, c).ws == s.ws {
        RunStaysIrreplaceable(s, events, c);
      }
    }
  }

  // ----- an open socket and an empty queue

  predicate AllSerialise(ms: seq<Message>) {
    forall i :: 0 <= i < |ms| ==> ms[i].serialises
  }

  predicate CalmAction(a: Action) {
    a.DoSend? ==> a.serialises
  }

  predicate CalmActions(actions: seq<Action>) {
    forall i :: 0 <= i < |actions| ==> CalmAction(actions[i])
  }

  /** Messages can be serialised and `onConnect` does not throw. */
  predicate Calm(e: Event) {
    match e
    case User(action) => CalmAction(action)
    case SocketOpens(_, callback, throws) => CalmActions(callback) && !throws
    case SocketCloses(_, callback, _) => CalmActions(callback)
    case _ => true
  }

  predicate Flushed(s: State) {
    IsOpen(s) ==> s.messageQueue == []
  }

  /**
   * What the flush leaves in the queue of an open socket: nothing, exactly when every message
   * but the last can be serialised.
   */
  lemma {:induction false} FlushEmpties(s: State)
    requires IsOpen(s)
    ensures Flush(s).messageQueue == [] <==> forall k :: 0 <= k < |s.messageQueue| - 1 ==> s.messageQueue[k].serialises
    ensures IsOpen(Flush(s))
    ensures AllSerialise(s.messageQueue) ==> Flush(s).failed == s.failed && Flush(s).wire == s.wire + s.messageQueue
    decreases |s.messageQueue|
  {
    var q := s.messageQueue;
    if q == [] {
      assert s.wire + [] == s.wire;
    } else {
      var s' := s.(messageQueue := q[1..], wire := s.wire + [q[0]]);
      if q[0].serialises {
        FlushEmpties(s');
        assert s.wire + [q[0]] + q[1..] == s.wire + q;
        if s'.messageQueue != [] {
          assert forall k :: 0 <= k < |q[1..]| - 1 ==> q[1..][k] == q[k + 1];
          if forall k :: 0 <= k < |q[1..]| - 1 ==> q[1..][k].serialises {
            forall k | 0 <= k < |q| - 1 ensures q[k].serialises {
              if k > 0 { assert q[1..][k - 1].serialises; }
            }
          }
        }
      } else if |q| > 1 {
        assert !q[0].serialises;
      }
    }
  }

  /** What the callback of an event runs, in order, and the state it starts in. */
  function ActionsOf(s: State, e: Event): seq<Action> {
    match e
    case User(action) => [action]
    case Heartbeat => if IsOpen(s) then [DoSend(true)] else []
    case SocketOpens(i, callback, _) => if i < |s.sockets| && s.sockets[i] == Connecting then callback else []
    case SocketCloses(i, callback, _) => if i < |s.sockets| && s.sockets[i] != Closed then callback else []
    case _ => []
  }

  function BeforeActions(s: State, e: Event): State {
    match e
    case SocketOpens(i, _, _) =>
      if i < |s.sockets| && s.sockets[i] == Connecting
      then s.(sockets := s.sockets[i := Open], reconnectAttempts := 0, delays := []) else s
    case SocketCloses(i, _, _) =>
      if i < |s.sockets| && s.sockets[i] != Closed then s.(sockets := s.sockets[i := Closed]) else s
    case _ => s
  }

  /** What `onConnect` leaves can be flushed whole: it does not throw, and all messages but the last serialise. */
  predicate FlushesWhole(s1: State, throws: bool) {
    || !IsOpen(s1)
    || s1.messageQueue == []
    || (!throws && forall k :: 0 <= k < |s1.messageQueue| - 1 ==> s1.messageQueue[k].serialises)
  }

  predicate OpensWell(s: State, e: Event, c: Config) {
    e.SocketOpens? ==> FlushesWhole(ActAll(BeforeActions(s, e), ActionsOf(s, e), c), e.throws)
  }

  lemma OpenFlushes(s: State, i: nat, callback: seq<Action>, throws: bool, c: Config)
    requires i < |s.sockets|
    ensures
      var s1 := ActAll(s.(sockets := s.sockets[i := Open], reconnectAttempts := 0, delays := []), callback, c);
      Flushed(OnOpen(s, i, callback, throws, c)) <==> FlushesWhole(s1, throws)
  {
    var s1 := ActAll(s.(sockets := s.sockets[i := Open], reconnectAttempts := 0, delays := []), callback, c);
    if IsOpen(s1) { FlushEmpties(s1); }
  }

  lemma {:induction false} ActAllFlushed(s: State, actions: seq<Action>, c: Config)
    requires Flushed(s)
    ensures Flushed(ActAll(s, actions, c))
    decreases |actions|
  {
    if actions != [] { ActAllFlushed(Act(s, actions[0], c), actions[1..], c); }
  }

  /** Only an opening socket can leave an open current socket with a filled queue. */
  lemma StepFlushed(s: State, e: Event, c: Config)
    requires Flushed(s)
    ensures Flushed(Step(s, e, c)) <==> OpensWell(s, e, c)
  {
    hide ActAll;
    hide Flush;
    match e
    case SocketOpens(i, callback, throws) =>
      if i < |s.sockets| && s.sockets[i] == Connecting {
        OpenFlushes(s, i, callback, throws, c);
      } else {
        ActNone(s, c);
      }
    case SocketCloses(i, callback, throws) =>
      if i < |s.sockets| { ActAllFlushed(s.(sockets := s.sockets[i := Closed]), callback, c); }
    case _ =>
  }

  lemma ActNone(s: State, c: Config)
    ensures ActAll(s, [], c) == s
  {}

  /** After every event of the run, an open current socket means an empty queue. */
  predicate AlwaysFlushed(events: seq<Event>, c: Config)
    decreases |events|
  {
    Flushed(Run(events, c)) && (events == [] || AlwaysFlushed(events[..|events| - 1], c))
  }

  predicate AllOpenWell(events: seq<Event>, c: Config)
    decreases |events|
  {
    events == [] ||
    (AllOpenWell(events[..|events| - 1], c) && OpensWell(Run(events[..|events| - 1], c), events[|events| - 1], c))
  }

  /**
   * An open current socket means an empty queue all through a run exactly when, at each opening,
   * what `onConnect` left could be flushed whole.
   */
  lemma {:induction false} OpenMeansFlushed(events: seq<Event>, c: Config)
    ensures AlwaysFlushed(events, c) <==> AllOpenWell(events, c)
    decreases |events|
  {
    if events != [] {
      var front, e := events[..|events| - 1], events[|events| - 1];
      OpenMeansFlushed(front, c);
      if AllOpenWell(front, c) {
        assert Flushed(Run(front, c));
        StepFlushed(Run(front, c), e, c);
      }
    }
  }

  lemma ActCalm(s: State, a: Action, c: Config)
    requires AllSerialise(s.messageQueue) && CalmAction(a)
    ensures AllSerialise(Act(s, a, c).messageQueue) && Act(s, a, c).failed == s.failed
    ensures Flushed(s) ==> Flushed(Act(s, a, c))
  {}

  lemma {:induction false} ActAllCalm(s: State, actions: seq<Action>, c: Config)
    requires AllSerialise(s.messageQueue) && CalmActions(actions)
    ensures AllSerialise(ActAll(s, actions, c).messageQueue) && ActAll(s, actions, c).failed == s.failed
    ensures Flushed(s) ==> Flushed(ActAll(s, actions, c))
    decreases |actions|
  {
    if actions != [] {
      assert CalmAction(actions[0]);
      ActCalm(s, actions[0], c);
      ActAllCalm(Act(s, actions[0], c), actions[1..], c);
    }
  }

  lemma OpensCalm(s: State, i: nat, callback: seq<Action>, c: Config)
    requires AllSerialise(s.messageQueue) && CalmActions(callback) && i < |s.sockets|
    ensures
      var s' := OnOpen(s, i, callback, false, c);
      Flushed(s') && AllSerialise(s'.messageQueue) && s'.failed == s.failed
  {
    var s0 := s.(sockets := s.sockets[i := Open], reconnectAttempts := 0, delays := []);
    ActAllCalm(s0, callback, c);
    var s1 := ActAll(s0, callback, c);
    if IsOpen(s1) { FlushEmpties(s1); }
  }

  lemma ClosesCalm(s: State, i: nat, callback: seq<Action>, throws: bool, c: Config)
    requires Flushed(s) && AllSerialise(s.messageQueue) && CalmActions(callback) && i < |s.sockets|
    ensures
      var s' := OnClose(s, i, callback, throws, c);
      Flushed(s') && AllSerialise(s'.messageQueue) && s'.failed == s.failed
  {
    ActAllCalm(s.(sockets := s.sockets[i := Closed]), callback, c);
  }

  lemma StepCalm(s: State, e: Event, c: Config)
    requires Flushed(s) && AllSerialise(s.messageQueue) && Calm(e)
    ensures Flushed(Step(s, e, c)) && AllSerialise(Step(s, e, c).messageQueue) && Step(s, e, c).failed == s.failed
  {
    match e
    case User(action) => ActCalm(s, action, c);
    case SocketOpens(i, callback, throws) =>
      if i < |s.sockets| && s.sockets[i] == Connecting { OpensCalm(s, i, callback, c); }
    case SocketCloses(i, callback, throws) =>
      if i < |s.sockets| && s.sockets[i] != Closed { ClosesCalm(s, i, callback, throws, c); }
    case _ =>
  }

  /** With calm events, an open current socket means an empty queue, and no message is lost. */
  lemma {:induction false} CalmMeansFlushed(events: seq<Event>, c: Config)
    requires forall i :: 0 <= i < |events| ==> Calm(events[i])
    ensures Flushed(Run(events, c)) && AllSerialise(Run(events, c).messageQueue) && Run(events, c).failed == []
    decreases |events|
  {
    if events != [] {
      CalmMeansFlushed(events[..|events| - 1], c);
      StepCalm(Run(events[..|events| - 1], c), events[|events| - 1], c);
    }
  }

  // ----- order

  predicate InOrder(s: State) {
    && (forall i, j :: 0 <= i < j < |s.wire + s.messageQueue| ==> (s.wire + s.messageQueue)[i].id < (s.wire + s.messageQueue)[j].id)
    && forall i :: 0 <= i < |s.wire + s.messageQueue| ==> (s.wire + s.messageQueue)[i].id < s.sent
  }

  /** A message keeps the order exactly when no queued one is overtaken by it on an open socket. */
  lemma SendKeepsOrder(s: State, serialises: bool)
    requires InOrder(s)
    ensures InOrder(Send(s, serialises)) <==> !serialises || Flushed(s)
  {
    var m := Message(s.sent, serialises);
    var s' := Send(s, serialises);
    var before, after := s.wire + s.messageQueue, s'.wire + s'.messageQueue;
    if IsOpen(s) && serialises && s.messageQueue != [] {
      assert after[|s.wire|] == m && after[|s.wire| + 1] == s.messageQueue[0] == before[|s.wire|];
    } else if IsOpen(s) && !serialises {
      assert after == before;
    } else {
      assert after == before + [m];
    }
  }

  lemma EmptyQueueInOrder(s: State)
    requires InOrder(s)
    ensures InOrder(EmptyQueue(s))
  {
    assert s.wire + [] == s.wire;
    assert forall i :: 0 <= i < |s.wire| ==> (s.wire + s.messageQueue)[i] == s.wire[i];
  }

  /** The flush moves messages from the front of the queue to the socket, or drops one there. */
  lemma {:induction false} FlushInOrder(s: State)
    requires InOrder(s)
    ensures InOrder(Flush(s))
    decreases |s.messageQueue|
  {
    if s.messageQueue != [] && IsOpen(s) {
      var m, rest := s.messageQueue[0], s.messageQueue[1..];
      var before := s.wire + s.messageQueue;
      if m.serialises {
        assert s.wire + [m] + rest == before;
        FlushInOrder(s.(messageQueue := rest, wire := s.wire + [m]));
      } else {
        var s' := Flush(s);
        var after := s'.wire + s'.messageQueue;
        assert after == s.wire + rest && s'.sent == s.sent;
        assert forall i :: 0 <= i < |after| ==> after[i] == before[if i < |s.wire| then i else i + 1];
      }
    }
  }

  /** The action does not send to an open socket whose queue is filled. */
  predicate InTurn(s: State, a: Action) {
    a == DoSend(true) ==> Flushed(s)
  }

  lemma ActKeepsOrder(s: State, a: Action, c: Config)
    requires InOrder(s)
    ensures InOrder(Act(s, a, c)) <==> InTurn(s, a)
  {
    hide InOrder;
    match a
    case DoSend(serialises) => SendKeepsOrder(s, serialises);
    case DoConnect(withDevices, works) =>
      ConnectSame(s, withDevices, works, c);
      SameOrder(s, Act(s, a, c));
    case DoDisconnect =>
      EmptyQueueInOrder(s);
      SameOrder(if s.subscribed then s else EmptyQueue(s), Disconnect(s));
  }

  lemma SameOrder(s: State, s': State)
    requires s'.wire == s.wire && s'.messageQueue == s.messageQueue && s'.sent == s.sent
    ensures InOrder(s') <==> InOrder(s)
  {}

  predicate AllInTurn(s: State, actions: seq<Action>, c: Config)
    decreases |actions|
  {
    actions == [] || (InTurn(s, actions[0]) && AllInTurn(Act(s, actions[0], c), actions[1..], c))
  }

  /** The order holds before the actions, between them and after them. */
  predicate OrderThrough(s: State, actions: seq<Action>, c: Config)
    decreases |actions|
  {
    InOrder(s) && (actions == [] || OrderThrough(Act(s, actions[0], c), actions[1..], c))
  }

  lemma {:induction false} ActionsKeepOrder(s: State, actions: seq<Action>, c: Config)
    requires InOrder(s)
    ensures OrderThrough(s, actions, c) <==> AllInTurn(s, actions, c)
    ensures OrderThrough(s, actions, c) ==> InOrder(ActAll(s, actions, c))
    decreases |actions|
  {
    hide InOrder;
    if actions != [] {
      ActKeepsOrder(s, actions[0], c);
      if InTurn(s, actions[0]) { ActionsKeepOrder(Act(s, actions[0], c), actions[1..], c); }
    }
  }

  lemma ActOne(s: State, a: Action, c: Config)
    ensures ActAll(s, [a], c) == Act(s, a, c)
  {
    assert [a][1..] == [];
  }

  predicate EventInTurn(s: State, e: Event, c: Config) {
    AllInTurn(BeforeActions(s, e), ActionsOf(s, e), c)
  }

  predicate EventInOrder(s: State, e: Event, c: Config) {
    OrderThrough(BeforeActions(s, e), ActionsOf(s, e), c) && InOrder(Step(s, e, c))
  }

  lemma StepKeepsOrder(s: State, e: Event, c: Config)
    requires InOrder(s)
    ensures EventInOrder(s, e, c) <==> EventInTurn(s, e, c)
  {
    hide InOrder;
    hide ActAll;
    hide Flush;
    hide OrderThrough;
    hide AllInTurn;
    var s0, actions := BeforeActions(s, e), ActionsOf(s, e);
    SameOrder(s, s0);
    ActionsKeepOrder(s0, actions, c);
    if OrderThrough(s0, actions, c) {
      var s1 := ActAll(s0, actions, c);
      match e
      case User(action) => ActOne(s, action, c);
      case Heartbeat => if IsOpen(s) { ActOne(s, DoSend(true), c); }
      case SocketOpens(i, _, throws) => FlushInOrder(s1);
      case SocketCloses(i, _, throws) => SameOrder(s1, ScheduleReconnect(s1, c));
      case Unsubscribed =>
        EmptyQueueInOrder(s);
        SameOrder(EmptyQueue(s), EmptyQueue(s.(cleaning := if s.cleaning > 0 then s.cleaning - 1 else 0, subscribed := false)));
      case _ => SameOrder(s, Step(s, e, c));
    }
  }

  /** All through a run, inside callbacks too, the messages handed over and queued are in the order of `send`. */
  predicate AlwaysInOrder(events: seq<Event>, c: Config)
    decreases |events|
  {
    events == [] ||
    (AlwaysInOrder(events[..|events| - 1], c) && EventInOrder(Run(events[..|events| - 1], c), events[|events| - 1], c))
  }

  /** All through a run nothing is sent to an open socket while an older message is queued. */
  predicate AlwaysInTurn(events: seq<Event>, c: Config)
    decreases |events|
  {
    events == [] ||
    (AlwaysInTurn(events[..|events| - 1], c) && EventInTurn(Run(events[..|events| - 1], c), events[|events| - 1], c))
  }

  /**
   * Messages go out in the order of `send` all through a run exactly when none is sent to an open
   * socket while an older one is queued.
   */
  lemma {:induction false} SentInOrder(events: seq<Event>, c: Config)
    ensures AlwaysInOrder(events, c) <==> AlwaysInTurn(events, c)
    ensures AlwaysInOrder(events, c) ==> InOrder(Run(events, c))
    decreases |events|
  {
    hide EventInTurn;
    if events != [] {
      SentInOrder(events[..|events| - 1], c);
      if AlwaysInOrder(events[..|events| - 1], c) {
        StepKeepsOrder(Run(events[..|events| - 1], c), events[|events| - 1], c);
      }
    }
  }

  predicate NoSends(actions: seq<Action>) {
    forall i :: 0 <= i < |actions| ==> !actions[i].DoSend?
  }

  lemma {:induction false} CalmInTurn(s: State, actions: seq<Action>, c: Config)
    requires AllSerialise(s.messageQueue) && CalmActions(actions)
    requires NoSends(actions) || Flushed(s)
    ensures AllInTurn(s, actions, c)
    decreases |actions|
  {
    if actions != [] {
      assert CalmAction(actions[0]);
      ActCalm(s, actions[0], c);
      CalmInTurn(Act(s, actions[0], c), actions[1..], c);
    }
  }

  /** Calm events keep the order when `onConnect` sends nothing. */
  lemma {:induction false} CalmInOrder(events: seq<Event>, c: Config)
    requires forall i :: 0 <= i < |events| ==> Calm(events[i]) && (events[i].SocketOpens? ==> NoSends(events[i].callback))
    ensures AlwaysInTurn(events, c) && AlwaysInOrder(events, c)
    decreases |events|
  {
    if events != [] {
      var front, e := events[..|events| - 1], events[|events| - 1];
      CalmInOrder(front, c);
      CalmMeansFlushed(front, c);
      CalmInTurn(BeforeActions(Run(front, c), e), ActionsOf(Run(front, c), e), c);
    }
    SentInOrder(events, c);
  }

  // ----- runs that break what one might expect

  lemma RunSnoc(events: seq<Event>, e: Event, c: Config)
    ensures Run(events + [e], c) == Step(Run(events, c), e, c)
  {}

  /** A new client that connected and was given one message before the socket atOpen. */
  function Queued(serialises: bool): seq<Event> {
    [User(DoConnect(false, true))] + [User(DoSend(serialises))]
  }

  lemma AfterQueued(serialises: bool, c: Config)
    ensures
      var s := Run(Queued(serialises), c);
      s == Initial().(sockets := [Connecting], ws := Some(0), messageQueue := [Message(0, serialises)], sent := 1)
  {
    var e0 := User(DoConnect(false, true));
    RunSnoc([], e0, c);
    assert [] + [e0] == [e0];
    RunSnoc([e0], User(DoSend(serialises)), c);
  }

  /** A message sent inside `onConnect` overtakes one that was queued before. */
  lemma SentInsideOnConnectOvertakes(c: Config)
    ensures Run(Queued(true) + [SocketOpens(0, [DoSend(true)], false)], c).wire == [Message(1, true), Message(0, true)]
  {
    AfterQueued(true, c);
    var s := Run(Queued(true), c);
    RunSnoc(Queued(true), SocketOpens(0, [DoSend(true)], false), c);
    var s0 := s.(sockets := [Open]);
    assert s.sockets[0 := Open] == [Open];
    assert [DoSend(true)][1..] == [];
    var s1 := ActAll(s0, [DoSend(true)], c);
    assert s1 == s0.(sent := 2, wire := [Message(1, true)]);
    FlushEmpties(s1);
    assert AllSerialise(s1.messageQueue);
    assert [Message(1, true)] + [Message(0, true)] == [Message(1, true), Message(0, true)];
  }

  /** When `onConnect` throws, the queue of the open socket stays as it is. */
  lemma ThrowingOnConnectKeepsQueue(c: Config)
    ensures
      var s := Run(Queued(true) + [SocketOpens(0, [], true)], c);
      IsOpen(s) && s.messageQueue == [Message(0, true)]
  {
    AfterQueued(true, c);
    RunSnoc(Queued(true), SocketOpens(0, [], true), c);
  }

  /** A client that connected with a subscription and was disconnected. */
  function Unsubscribing(): seq<Event> {
    [User(DoConnect(true, true))] + [Subscribed(true, true)] + [User(DoDisconnect)]
  }

  lemma AfterUnsubscribing(c: Config)
    ensures
      var s := Run(Unsubscribing(), c);
      (s.cleaning, s.ws, s.messageQueue, |s.sockets|, s.sent, s.discarded) == (1, None, [], 1, 0, [])
  {
    var e0, e1 := User(DoConnect(true, true)), Subscribed(true, true);
    RunSnoc([], e0, c);
    assert [] + [e0] == [e0];
    RunSnoc([e0], e1, c);
    RunSnoc([e0] + [e1], User(DoDisconnect), c);
  }

  /** A message sent after a new `connect` is discarded by the `cleanup` before it. */
  lemma LateCleanupDiscards(c: Config)
    ensures
      var s := Run(Unsubscribing() + [User(DoConnect(false, true))] + [User(DoSend(true))] + [Unsubscribed], c);
      s.discarded == [Message(0, true)] && s.ws == Some(1)
  {
    var e3, e4 := User(DoConnect(false, true)), User(DoSend(true));
    AfterUnsubscribing(c);
    RunSnoc(Unsubscribing(), e3, c);
    RunSnoc(Unsubscribing() + [e3], e4, c);
    RunSnoc(Unsubscribing() + [e3] + [e4], Unsubscribed, c);
  }

  /** A client that connected twice, so that its first socket is still closing. */
  function Reconnected(): seq<Event> {
    [User(DoConnect(false, true))] + [User(DoDisconnect)] + [User(DoConnect(false, true))]
  }

  lemma AfterReconnected(c: Config)
    ensures
      var s := Run(Reconnected(), c);
      && s.sockets == [Closing, Connecting] && (s.ws, s.isIntentionallyClosed, s.nextTimer) == (Some(1), false, 0)
      && (s.reconnectAttempts, s.reconnectTimer, s.messageQueue) == (0, None, []) && s.liveTimers == {}
  {
    var e0, e1 := User(DoConnect(false, true)), User(DoDisconnect);
    RunSnoc([], e0, c);
    assert [] + [e0] == [e0];
    RunSnoc([e0], e1, c);
    RunSnoc([e0] + [e1], e0, c);
  }

  /**
   * A timer set by the late close of an old socket replaces the new one although it is open:
   * only `connect` looks at the state of the current socket.
   */
  lemma OpenSocketIsReplaced(c: Config)
    requires c.maxReconnectAttempts > 0
    ensures
      var s := Run(Reconnected() + [SocketCloses(0, [], false)] + [SocketOpens(1, [], false)] + [TimerFires(0, true)], c);
      s.sockets == [Closed, Open, Connecting] && s.ws == Some(2)
  {
    AfterReconnected(c);
    RunSnoc(Reconnected(), SocketCloses(0, [], false), c);
    var s3 := Run(Reconnected() + [SocketCloses(0, [], false)], c);
    assert s3.sockets == [Closed, Connecting] && s3.ws == Some(1) && 0 in s3.liveTimers && s3.messageQueue == [];
    RunSnoc(Reconnected() + [SocketCloses(0, [], false)], SocketOpens(1, [], false), c);
    var s4 := Run(Reconnected() + [SocketCloses(0, [], false)] + [SocketOpens(1, [], false)], c);
    assert s4.sockets == [Closed, Open] && 0 in s4.liveTimers;
    RunSnoc(Reconnected() + [SocketCloses(0, [], false)] + [SocketOpens(1, [], false)], TimerFires(0, true), c);
  }
}
