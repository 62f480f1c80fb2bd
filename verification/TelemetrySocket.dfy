/** The telemetry WebSocket hook: backoff, failure window, cooldown. Times are milliseconds. */
module TelemetrySocket {
  import opened Options
  import opened WebSockets

  datatype Timer = Backoff(delay: real) | Cooldown(delay: real)

  /** What `Date.now()` gives. */
  type Timestamp = t: nat | t > 0 witness 1

  /** What `Math.floor(Math.random() * 1000)` gives. */
  type Jitter = j: nat | j < 1000

  const WINDOW := 60000
  const MAX_FAILURES := 10
  const COOLDOWN := 120000.0
  const MAX_BACKOFF := 30000.0

  datatype State = State(
    sockets: seq<ReadyState>,
    ws: Option<nat>,
    reconnectCount: nat,
    isReconnecting: bool,
    consecutiveFailures: nat,
    firstFailureTs: nat,
    reconnectTimeout: Option<nat>,   // the field, never reset
    live: map<nat, Timer>,           // the timers the runtime would still fire
    nextTimer: nat,
    closes: seq<nat>)                // history: counted closes since the last cooldown ended

  function Initial(): State {
    State([], None, 0, false, 0, 0, None, map[], 0, [])
  }

  function Connect(s: State, token: bool, works: bool): State {
    if s.ws.Some? && s.ws.value < |s.sockets| && (s.sockets[s.ws.value] == Connecting || s.sockets[s.ws.value] == Open) then s
    else if !token || !works then s
    else s.(sockets := s.sockets + [Connecting], ws := Some(|s.sockets|))
  }

  /** The backoff before attempt `count`, without its jitter. */
  function BackoffDelay(baseInterval: real, count: nat): real {
    var d := TimesPow2(baseInterval, if count < 5 then count else 5);
    if d < MAX_BACKOFF then d else MAX_BACKOFF
  }

  function SetTimer(s: State, timer: Timer): State {
    var live := if s.reconnectTimeout.Some? then s.live - {s.reconnectTimeout.value} else s.live;
    s.(live := live[s.nextTimer := timer], reconnectTimeout := Some(s.nextTimer), nextTimer := s.nextTimer + 1)
  }

  /** The settings and the random jitter that one `onclose` sees. */
  datatype Settings = Settings(reconnect: bool, baseInterval: real, jitter: Jitter)

  function CountFailure(s: State, now: Timestamp): State {
    var s' := s.(closes := s.closes + [now]);
    if s.firstFailureTs == 0 || now > s.firstFailureTs + WINDOW then s'.(firstFailureTs := now, consecutiveFailures := 1)
    else s'.(consecutiveFailures := s.consecutiveFailures + 1)
  }

  function OnClose(s: State, now: Timestamp, x: Settings): State {
    if !x.reconnect then s
    else
      var s' := CountFailure(s, now);
      if s'.consecutiveFailures > MAX_FAILURES then SetTimer(s', Cooldown(COOLDOWN))
      else if s'.isReconnecting then s'
      else
        var count := s.reconnectCount + 1;
        SetTimer(s'.(isReconnecting := true, reconnectCount := count),
                 Backoff(BackoffDelay(x.baseInterval, count) + x.jitter as real))
  }

  function Fire(s: State, id: nat, token: bool, works: bool): State
    requires id in s.live
  {
    var s' := s.(live := s.live - {id}, isReconnecting := false);
    Connect(if s.live[id].Cooldown? then s'.(consecutiveFailures := 0, firstFailureTs := 0, closes := []) else s', token, works)
  }

  function Close(s: State): State {
    var s' := if s.reconnectTimeout.Some? then s.(live := s.live - {s.reconnectTimeout.value}) else s;
    if s.ws.None? then s'
    else if s.ws.value < |s.sockets| && (s.sockets[s.ws.value] == Connecting || s.sockets[s.ws.value] == Open)
    then s'.(sockets := s.sockets[s.ws.value := Closing], ws := None)
    else s'.(ws := None)
  }

  datatype Event =
    | SocketOpens(i: nat)
    | SocketStartsClosing(i: nat)
    | SocketCloses(i: nat, now: Timestamp, settings: Settings)
    | TimerFires(id: nat, token: bool, works: bool)
    | CallClose
    | CallReconnect(token: bool, works: bool)
    | EnabledChanges(enabled: bool, token: bool, works: bool)   // the effect's cleanup closes first

  /** One event; an event the runtime cannot deliver in this state changes nothing. */
  function Step(s: State, e: Event): State {
    match e
    case SocketOpens(i) =>
      if i < |s.sockets| && s.sockets[i] == Connecting then s.(sockets := s.sockets[i := Open], reconnectCount := 0) else s
    case SocketStartsClosing(i) =>
      if i < |s.sockets| && s.sockets[i] != Closed then s.(sockets := s.sockets[i := Closing]) else s
    case SocketCloses(i, now, settings) =>
      if i < |s.sockets| && s.sockets[i] != Closed then OnClose(s.(sockets := s.sockets[i := Closed]), now, settings) else s
    case TimerFires(id, token, works) =>
      if id in s.live then Fire(s, id, token, works) else s
    case CallClose => Close(s)
    case CallReconnect(token, works) => Connect(Close(s).(reconnectCount := 0), token, works)
    case EnabledChanges(enabled, token, works) => if enabled then Connect(Close(s), token, works) else Close(Close(s))
  }

  /** A run of the mounted hook: the effect connects once, then events arrive. */
  function Run(token: bool, works: bool, events: seq<Event>): State
    decreases |events|
  {
    if events == [] then Connect(Initial(), token, works)
    else Step(Run(token, works, events[..|events| - 1]), events[|events| - 1])
  }
}
