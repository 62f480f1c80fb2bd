/** The device-health WebSocket client: send queue, flush, reconnect with backoff, cleanup. */
module HealthSocket {
  import opened Options
  import opened WebSockets

  /** A message, numbered in the order of the calls of `send`; `JSON.stringify` throws on some. */
  datatype Message = Message(id: nat, serialises: bool)

  datatype Config = Config(reconnectInterval: real, maxReconnectAttempts: int)

  const MAX_DELAY := 30000.0

  datatype State = State(
    sockets: seq<ReadyState>,        // every socket ever created
    ws: Option<nat>,                 // the current one
    reconnectAttempts: nat,
    reconnectTimer: Option<nat>,     // the field, which keeps the id of a timer that has fired
    liveTimers: set<nat>,            // the timers the runtime would still fire
    nextTimer: nat,
    isIntentionallyClosed: bool,
    messageQueue: seq<Message>,
    subscribed: bool,                // `subscriptionId` is set
    creating: nat,                   // `createWebSocket` calls that await the subscription
    cleaning: nat,                   // `cleanup` calls that await the unsubscription
    sent: nat,                       // history: calls of `send` so far
    wire: seq<Message>,              // history: handed to a socket, in order
    discarded: seq<Message>,         // history: emptied from the queue by `cleanup`
    failed: seq<Message>,            // history: lost because `JSON.stringify` threw
    delays: seq<real>)               // history: reconnect delays since the last open

  function Initial(): State {
    State([], None, 0, None, {}, 0, false, [], false, 0, 0, 0, [], [], [], [])
  }

  predicate IsOpen(s: State) {
    s.ws.Some? && s.ws.value < |s.sockets| && s.sockets[s.ws.value] == Open
  }

  // ----- what each method does

  function Send(s: State, serialises: bool): State {
    var m := Message(s.sent, serialises);
    var s' := s.(sent := s.sent + 1);
    if !IsOpen(s) then s'.(messageQueue := s.messageQueue + [m])
    else if serialises then s'.(wire := s.wire + [m])
    else s'.(failed := s.failed + [m])
  }

  function Flush(s: State): State
    decreases |s.messageQueue|
  {
    if s.messageQueue == [] || !IsOpen(s) then s
    else
      var m := s.messageQueue[0];
      var s' := s.(messageQueue := s.messageQueue[1..]);
      if !m.serialises then s'.(failed := s.failed + [m])
      else Flush(s'.(wire := s.wire + [m]))
  }

  function Delay(attempts: nat, c: Config): real {
    var d := TimesPow2(c.reconnectInterval, attempts);
    if d < MAX_DELAY then d else MAX_DELAY
  }

  function WithoutTimer(live: set<nat>, timer: Option<nat>): set<nat> {
    if timer.Some? then live - {timer.value} else live
  }

  function ScheduleReconnect(s: State, c: Config): State {
    if s.reconnectAttempts >= c.maxReconnectAttempts then s
    else
      s.(liveTimers := WithoutTimer(s.liveTimers, s.reconnectTimer) + {s.nextTimer},
         reconnectTimer := Some(s.nextTimer), nextTimer := s.nextTimer + 1,
         reconnectAttempts := s.reconnectAttempts + 1,
         delays := s.delays + [Delay(s.reconnectAttempts, c)])
  }

  /** `createWebSocket` after the subscription; `works` is false when the URL or the constructor throws. */
  function Create(s: State, works: bool, c: Config): State {
    if works then s.(sockets := s.sockets + [Connecting], ws := Some(|s.sockets|))
    else ScheduleReconnect(s, c)
  }

  function Connect(s: State, withDevices: bool, works: bool, c: Config): State {
    if IsOpen(s) then s
    else
      var s' := s.(isIntentionallyClosed := false);
      if withDevices then s'.(creating := s.creating + 1) else Create(s', works, c)
  }

  function ClosingCurrent(sockets: seq<ReadyState>, ws: Option<nat>): seq<ReadyState> {
    if ws.Some? && ws.value < |sockets| && (sockets[ws.value] == Connecting || sockets[ws.value] == Open)
    then sockets[ws.value := Closing] else sockets
  }

  function EmptyQueue(s: State): State {
    s.(discarded := s.discarded + s.messageQueue, messageQueue := [])
  }

  /** `cleanup` stops at its `await` when there is a subscription to remove. */
  function CleanedUp(s: State): State {
    var s' := s.(liveTimers := WithoutTimer(s.liveTimers, s.reconnectTimer), reconnectTimer := None,
                 sockets := ClosingCurrent(s.sockets, s.ws), ws := None);
    if s.subscribed then s'.(cleaning := s.cleaning + 1) else EmptyQueue(s')
  }

  function Disconnect(s: State): State {
    CleanedUp(s.(isIntentionallyClosed := true))
  }

  /** What a user callback may do with the client. */
  datatype Action = DoSend(serialises: bool) | DoConnect(withDevices: bool, works: bool) | DoDisconnect

  function Act(s: State, a: Action, c: Config): State {
    match a
    case DoSend(serialises) => Send(s, serialises)
    case DoConnect(withDevices, works) => Connect(s, withDevices, works, c)
    case DoDisconnect => Disconnect(s)
  }

  function ActAll(s: State, actions: seq<Action>, c: Config): State
    decreases |actions|
  {
    if actions == [] then s else ActAll(Act(s, actions[0], c), actions[1..], c)
  }

  /** `onopen` of socket `i`: `onConnect` runs its actions, and unless it throws the queue is flushed. */
  function OnOpen(s: State, i: nat, onConnect: seq<Action>, throws: bool, c: Config): State
    requires i < |s.sockets|
  {
    var s' := ActAll(s.(sockets := s.sockets[i := Open], reconnectAttempts := 0, delays := []), onConnect, c);
    if throws then s' else Flush(s')
  }

  function OnClose(s: State, i: nat, onDisconnect: seq<Action>, throws: bool, c: Config): State
    requires i < |s.sockets|
  {
    var s' := ActAll(s.(sockets := s.sockets[i := Closed]), onDisconnect, c);
    if throws || s'.isIntentionallyClosed then s' else ScheduleReconnect(s', c)
  }

  datatype Event =
    | User(action: Action)
    | Heartbeat                                                     // sends a ping, but only when open
    | SocketOpens(i: nat, callback: seq<Action>, throws: bool)
    | SocketCloses(i: nat, callback: seq<Action>, throws: bool)
    | SocketStartsClosing(i: nat)
    | TimerFires(id: nat, works: bool)
    | Subscribed(ok: bool, works: bool)                             // the await in `createWebSocket` ends
    | Unsubscribed                                                  // the await in `cleanup` ends

  /** One event; an event the runtime cannot deliver in this state changes nothing. */
  function Step(s: State, e: Event, c: Config): State {
    match e
    case User(action) => Act(s, action, c)
    case Heartbeat => if IsOpen(s) then Send(s, true) else s
    case SocketOpens(i, callback, throws) =>
      if i < |s.sockets| && s.sockets[i] == Connecting then OnOpen(s, i, callback, throws, c) else s
    case SocketCloses(i, callback, throws) =>
      if i < |s.sockets| && s.sockets[i] != Closed then OnClose(s, i, callback, throws, c) else s
    case SocketStartsClosing(i) =>
      if i < |s.sockets| && s.sockets[i] != Closed then s.(sockets := s.sockets[i := Closing]) else s
    case TimerFires(id, works) =>
      if id in s.liveTimers then Create(s.(liveTimers := s.liveTimers - {id}), works, c) else s
    case Subscribed(ok, works) =>
      if s.creating == 0 then s
      else if ok then Create(s.(creating := s.creating - 1, subscribed := true), works, c)
      else ScheduleReconnect(s.(creating := s.creating - 1), c)
    case Unsubscribed =>
      if s.cleaning == 0 then s else EmptyQueue(s.(cleaning := s.cleaning - 1, subscribed := false))
  }

  function Run(events: seq<Event>, c: Config): State
    decreases |events|
  {
    if events == [] then Initial() else Step(Run(events[..|events| - 1], c), events[|events| - 1], c)
  }
}
