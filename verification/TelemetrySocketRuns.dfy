/** What every run of the telemetry socket keeps, with and without calls of `close`. */
module TelemetrySocketRuns {
  import opened Options
  import opened WebSockets
  import opened TelemetrySocket

  // ----- the failure window, from the history of counted closes

  /** Where the window of the last close begins: it is closed by a close more than a minute after its first. */
  function WindowStart(h: seq<nat>): (p: nat)
    requires h != []
    ensures p < |h|
    decreases |h|
  {
    if |h| == 1 then 0
    else
      var p := WindowStart(h[..|h| - 1]);
      if h[|h| - 1] > h[p] + WINDOW then |h| - 1 else p
  }

  function InWindow(h: seq<nat>): nat {
    if h == [] then 0 else |h| - WindowStart(h)
  }

  /** All closes of one window lie within a minute after its first. */
  lemma {:induction false} WindowIsShort(h: seq<nat>)
    requires h != []
    ensures forall k :: WindowStart(h) <= k < |h| ==> h[k] <= h[WindowStart(h)] + 60000
    decreases |h|
  {
    if |h| > 1 {
      var front := h[..|h| - 1];
      WindowIsShort(front);
      forall k | WindowStart(h) <= k < |h| ensures h[k] <= h[WindowStart(h)] + WINDOW {
        if k < |front| { assert front[k] == h[k]; }
      }
    }
  }

  predicate Counts(s: State) {
    && (forall k :: 0 <= k < |s.closes| ==> s.closes[k] > 0)
    && s.consecutiveFailures == InWindow(s.closes)
    && s.firstFailureTs == if s.closes == [] then 0 else s.closes[WindowStart(s.closes)]
  }

  lemma CountFailureCounts(s: State, now: Timestamp)
    requires Counts(s)
    ensures Counts(CountFailure(s, now))
  {
    var h := s.closes + [now];
    WindowSnoc(s.closes, now);
    assert forall k :: 0 <= k < |h| ==> h[k] == if k < |s.closes| then s.closes[k] else now;
    if s.closes != [] {
      var p := WindowStart(s.closes);
      assert s.firstFailureTs == s.closes[p] > 0;
      assert h[WindowStart(h)] == if now > s.closes[p] + WINDOW then now else s.closes[p];
    }
  }

  lemma WindowSnoc(h: seq<nat>, now: Timestamp)
    ensures h == [] ==> WindowStart(h + [now]) == 0
    ensures h != [] ==> WindowStart(h + [now]) == if now > h[WindowStart(h)] + WINDOW then |h| else WindowStart(h)
  {}

  predicate SameCounts(s: State, s': State) {
    (s'.closes, s'.consecutiveFailures, s'.firstFailureTs) == (s.closes, s.consecutiveFailures, s.firstFailureTs)
  }

  lemma OnCloseCounts(s: State, now: Timestamp, x: Settings)
    requires Counts(s)
    ensures Counts(OnClose(s, now, x))
    ensures x.reconnect ==> SameCounts(CountFailure(s, now), OnClose(s, now, x))
  {
    if x.reconnect {
      CountFailureCounts(s, now);
      assert SameCounts(CountFailure(s, now), OnClose(s, now, x));
    }
  }

  lemma StepCounts(s: State, e: Event)
    requires Counts(s)
    ensures Counts(Step(s, e))
  {
    if e.SocketCloses? {
      if e.i < |s.sockets| && s.sockets[e.i] != Closed {
        OnCloseCounts(s.(sockets := s.sockets[e.i := Closed]), e.now, e.settings);
      }
    } else if e.TimerFires? && e.id in s.live && s.live[e.id].Cooldown? {
      assert Step(s, e).closes == [];
    } else {
      OthersSameCounts(s, e);
    }
  }

  lemma OthersSameCounts(s: State, e: Event)
    requires !e.SocketCloses? && !(e.TimerFires? && e.id in s.live && s.live[e.id].Cooldown?)
    ensures SameCounts(s, Step(s, e))
  {}

  // ----- at most one timer

  predicate OneTimer(s: State) {
    forall id :: id in s.live ==> s.reconnectTimeout == Some(id)
  }

  lemma SetTimerOne(s: State, timer: Timer)
    requires OneTimer(s)
    ensures SetTimer(s, timer).live == map[s.nextTimer := timer] && OneTimer(SetTimer(s, timer))
  {}

  lemma OnCloseOne(s: State, now: Timestamp, x: Settings)
    requires OneTimer(s)
    ensures OneTimer(OnClose(s, now, x))
  {
    if x.reconnect {
      var s' := CountFailure(s, now);
      SetTimerOne(s', Cooldown(COOLDOWN));
      var count := s.reconnectCount + 1;
      SetTimerOne(s'.(isReconnecting := true, reconnectCount := count),
                  Backoff(BackoffDelay(x.baseInterval, count) + x.jitter as real));
    }
  }

  lemma StepOne(s: State, e: Event)
    requires OneTimer(s)
    ensures OneTimer(Step(s, e))
  {
    if e.SocketCloses? && e.i < |s.sockets| {
      OnCloseOne(s.(sockets := s.sockets[e.i := Closed]), e.now, e.settings);
    }
  }

  /** In every run, also with calls of `close`, at most one timer is live. */
  lemma {:induction false} AtMostOneTimer(token: bool, works: bool, events: seq<Event>)
    ensures var live := Run(token, works, events).live; forall id, other :: id in live && other in live ==> id == other
    ensures OneTimer(Run(token, works, events))
    decreases |events|
  {
    if events != [] {
      AtMostOneTimer(token, works, events[..|events| - 1]);
      StepOne(Run(token, works, events[..|events| - 1]), events[|events| - 1]);
    }
  }

  // ----- what one close leaves behind

  lemma BackoffIsShort(x: Settings, count: nat)
    ensures BackoffDelay(x.baseInterval, count) + x.jitter as real < 31000.0
  {}

  /** The backoff in numbers: twice the interval at first, doubled up to the fifth time, never above 30 seconds. */
  lemma BackoffInNumbers(interval: real, count: nat)
    requires count > 0
    ensures
      var factor :=
        if count == 1 then 2.0 else if count == 2 then 4.0 else if count == 3 then 8.0 else if count == 4 then 16.0 else 32.0;
      BackoffDelay(interval, count) == if factor * interval < 30000.0 then factor * interval else 30000.0
  {
    var n := if count < 5 then count else 5;
    assert TimesPow2(interval, 1) == 2.0 * interval;
    assert TimesPow2(interval, 2) == 4.0 * interval;
    assert TimesPow2(interval, 3) == 8.0 * interval;
    assert TimesPow2(interval, 4) == 16.0 * interval;
    assert TimesPow2(interval, 5) == 32.0 * interval;
  }

  /**
   * A close with reconnect enabled leaves a timer live exactly when it starts a cooldown,
   * or no reconnect is marked as pending, or a timer was live before.
   */
  lemma CloseLeavesTimer(s: State, now: Timestamp, x: Settings)
    requires OneTimer(s) && x.reconnect
    ensures
      var s' := OnClose(s, now, x);
      s'.live != map[] <==>
        CountFailure(s, now).consecutiveFailures > 10 || !s.isReconnecting || s.live != map[]
  {
    var s' := CountFailure(s, now);
    SetTimerOne(s', Cooldown(COOLDOWN));
    var count := s.reconnectCount + 1;
    var timer := Backoff(BackoffDelay(x.baseInterval, count) + x.jitter as real);
    SetTimerOne(s'.(isReconnecting := true, reconnectCount := count), timer);
    assert s.nextTimer in map[s.nextTimer := timer];
    assert s.nextTimer in map[s.nextTimer := Cooldown(COOLDOWN)];
  }

  // ----- runs without `close`

  predicate NoClose(e: Event) {
    !e.CallClose? && !e.CallReconnect? && !e.EnabledChanges?
  }

  /** One socket at a time: a timer is live only when every socket is closed. */
  predicate Orderly(s: State) {
    && OneTimer(s)
    && (forall i :: 0 <= i < |s.sockets| - 1 ==> s.sockets[i] == Closed)
    && (if s.sockets == [] then s.ws == None else s.ws == Some(|s.sockets| - 1))
    && (s.live != map[] ==> forall i :: 0 <= i < |s.sockets| ==> s.sockets[i] == Closed)
    && (s.isReconnecting ==> s.live != map[])
  }

  lemma ConnectOrderly(s: State, token: bool, works: bool)
    requires Orderly(s) && s.live == map[] && forall i :: 0 <= i < |s.sockets| ==> s.sockets[i] == Closed
    ensures Orderly(Connect(s, token, works))
  {}

  lemma OnCloseOrderly(s: State, now: Timestamp, x: Settings)
    requires Orderly(s) && s.live == map[] && forall i :: 0 <= i < |s.sockets| ==> s.sockets[i] == Closed
    ensures Orderly(OnClose(s, now, x))
    ensures x.reconnect ==>
      var s' := OnClose(s, now, x);
      s'.live == map[s.nextTimer :=
        if s'.consecutiveFailures > MAX_FAILURES then Cooldown(COOLDOWN)
        else Backoff(BackoffDelay(x.baseInterval, s.reconnectCount + 1) + x.jitter as real)]
  {
    if x.reconnect {
      var s' := CountFailure(s, now);
      var count := s.reconnectCount + 1;
      var timer := Backoff(BackoffDelay(x.baseInterval, count) + x.jitter as real);
      SetTimerOne(s', Cooldown(COOLDOWN));
      SetTimerOne(s'.(isReconnecting := true, reconnectCount := count), timer);
      assert s.nextTimer in OnClose(s, now, x).live;
    }
  }

  lemma StepOrderly(s: State, e: Event)
    requires Orderly(s) && NoClose(e)
    ensures Orderly(Step(s, e))
  {
    match e
    case SocketOpens(i) =>
    case SocketStartsClosing(i) =>
    case SocketCloses(i, now, settings) =>
      if i < |s.sockets| && s.sockets[i] != Closed {
        assert s.live == map[];
        OnCloseOrderly(s.(sockets := s.sockets[i := Closed]), now, settings);
      }
    case TimerFires(id, token, works) =>
      if id in s.live {
        var rest := s.live - {id};
        assert forall other :: other !in rest;
        assert rest == map[];
        var s' := s.(live := rest, isReconnecting := false);
        ConnectOrderly(s', token, works);
        ConnectOrderly(s'.(consecutiveFailures := 0, firstFailureTs := 0, closes := []), token, works);
      }
  }

  lemma {:induction false} RunOrderly(token: bool, works: bool, events: seq<Event>)
    requires forall i :: 0 <= i < |events| ==> NoClose(events[i])
    ensures Orderly(Run(token, works, events)) && Counts(Run(token, works, events))
    decreases |events|
  {
    if events == [] {
      ConnectOrderly(Initial(), token, works);
    } else {
      RunOrderly(token, works, events[..|events| - 1]);
      StepOrderly(Run(token, works, events[..|events| - 1]), events[|events| - 1]);
      StepCounts(Run(token, works, events[..|events| - 1]), events[|events| - 1]);
    }
  }

  lemma OpenSocketMeansNoTimer(token: bool, works: bool, events: seq<Event>, i: nat)
    requires forall k :: 0 <= k < |events| ==> NoClose(events[k])
    requires var s := Run(token, works, events); i < |s.sockets| && s.sockets[i] != Closed
    ensures
      var s := Run(token, works, events);
      var s0 := s.(sockets := s.sockets[i := Closed]);
      s.live == map[] && !s.isReconnecting && Orderly(s0) && Counts(s0) && forall k :: 0 <= k < |s0.sockets| ==> s0.sockets[k] == Closed
  {
    hide Run;
    hide WindowStart;
    hide InWindow;
    RunOrderly(token, works, events);
  }

  /**
   * In every run without `close`, a close with reconnect enabled leaves exactly one timer live. It is
   * the two-minute cooldown exactly when more than ten closes lie in the current window, all of them
   * within the last minute; otherwise it fires in under 31 seconds.
   */
  lemma EveryCloseIsFollowedUp(token: bool, works: bool, events: seq<Event>, i: nat, now: Timestamp, x: Settings)
    requires forall k :: 0 <= k < |events| ==> NoClose(events[k])
    requires x.reconnect
    requires var s := Run(token, works, events); i < |s.sockets| && s.sockets[i] != Closed
    ensures
      var s := Run(token, works, events);
      var s' := Step(s, SocketCloses(i, now, x));
      var h := s.closes + [now];
      && s'.closes == h && s'.live.Keys == {s.nextTimer}
      && (if InWindow(h) > 10 then s'.live[s.nextTimer] == Cooldown(120000.0) && s'.reconnectCount == s.reconnectCount
          else s'.live[s.nextTimer] == Backoff(BackoffDelay(x.baseInterval, s.reconnectCount + 1) + x.jitter as real)
               && s'.live[s.nextTimer].delay < 31000.0 && s'.reconnectCount == s.reconnectCount + 1 && s'.isReconnecting)
      && forall k :: WindowStart(h) <= k < |h| ==> h[k] <= h[WindowStart(h)] + 60000
  {
    hide WindowStart;
    hide Run;
    OpenSocketMeansNoTimer(token, works, events, i);
    var s := Run(token, works, events);
    var s0 := s.(sockets := s.sockets[i := Closed]);
    OnCloseOrderly(s0, now, x);
    OnCloseCounts(s0, now, x);
    BackoffIsShort(x, s.reconnectCount + 1);
    WindowIsShort(s.closes + [now]);
  }

  /** In every run without `close`, `isReconnecting` means that a timer is live. */
  lemma ReconnectingMeansTimer(token: bool, works: bool, events: seq<Event>)
    requires forall k :: 0 <= k < |events| ==> NoClose(events[k])
    ensures Run(token, works, events).isReconnecting ==> Run(token, works, events).live != map[]
  {
    RunOrderly(token, works, events);
  }

  // ----- what a timer and an opening bring

  /** The current socket is connecting or open. */
  predicate Busy(s: State) {
    s.ws.Some? && s.ws.value < |s.sockets| && s.sockets[s.ws.value] in {Connecting, Open}
  }

  /**
   * In every run, a timer that fires leaves no timer and no pending reconnect. It brings one new current
   * socket exactly when there is a token, the constructor works and the current socket has ended;
   * after a cooldown the count of failures starts over.
   */
  lemma TimerReconnects(token: bool, works: bool, events: seq<Event>, id: nat, hasToken: bool, opens: bool)
    requires id in Run(token, works, events).live
    ensures
      var s := Run(token, works, events);
      var s' := Step(s, TimerFires(id, hasToken, opens));
      && s'.live == map[] && !s'.isReconnecting
      && (if hasToken && opens && !Busy(s) then s'.sockets == s.sockets + [Connecting] && s'.ws == Some(|s.sockets|)
          else s'.sockets == s.sockets && s'.ws == s.ws)
      && (s'.consecutiveFailures, s'.firstFailureTs)
         == (if s.live[id].Cooldown? then (0, 0) else (s.consecutiveFailures, s.firstFailureTs))
      && s'.reconnectCount == s.reconnectCount
  {
    hide Run;
    AtMostOneTimer(token, works, events);
    var rest := Run(token, works, events).live - {id};
    assert forall other :: other !in rest;
    assert rest == map[];
  }

  /**
   * In every run without `close`, a lost connection comes back: the close, the timer it set, and the
   * opening of the new socket leave that socket open and current, nothing pending, and the backoff
   * at its start.
   */
  lemma Recovers(token: bool, works: bool, events: seq<Event>, i: nat, now: Timestamp, x: Settings)
    requires forall k :: 0 <= k < |events| ==> NoClose(events[k])
    requires x.reconnect
    requires var s := Run(token, works, events); i < |s.sockets| && s.sockets[i] != Closed
    ensures
      var s := Run(token, works, events);
      var s1 := Step(s, SocketCloses(i, now, x));
      var s2 := Step(s1, TimerFires(s.nextTimer, true, true));
      var s3 := Step(s2, SocketOpens(|s.sockets|));
      && s1.sockets == s.sockets[i := Closed]
      && s3.sockets == s.sockets[i := Closed] + [Open] && s3.ws == Some(|s.sockets|)
      && s3.live == map[] && !s3.isReconnecting && s3.reconnectCount == 0
  {
    var s := Run(token, works, events);
    var e1 := SocketCloses(i, now, x);
    hide Run;
    hide WindowStart;
    EveryCloseIsFollowedUp(token, works, events, i, now, x);
    OpenSocketMeansNoTimer(token, works, events, i);
    RunSnoc(token, works, events, e1);
    var s1 := Step(s, e1);
    assert s1.sockets == s.sockets[i := Closed] && s1.ws == s.ws;
    assert s.nextTimer in s1.live;
    TimerReconnects(token, works, events + [e1], s.nextTimer, true, true);
    assert (s1.sockets + [Connecting])[|s.sockets| := Open] == s1.sockets + [Open];
  }

  /** What the other events do to the sockets and the backoff; a close with reconnect disabled only closes. */
  lemma OtherEvents(s: State, i: nat, now: Timestamp, x: Settings, enabled: bool, token: bool, works: bool)
    requires OneTimer(s) && i < |s.sockets|
    ensures s.sockets[i] == Connecting ==>
      Step(s, SocketOpens(i)) == s.(sockets := s.sockets[i := Open], reconnectCount := 0)
    ensures s.sockets[i] != Closed ==> Step(s, SocketStartsClosing(i)) == s.(sockets := s.sockets[i := Closing])
    ensures s.sockets[i] != Closed && !x.reconnect ==> Step(s, SocketCloses(i, now, x)) == s.(sockets := s.sockets[i := Closed])
    ensures s.sockets[i] == Closed ==> Step(s, SocketCloses(i, now, x)) == s
    ensures
      var left := if Busy(s) then s.sockets[s.ws.value := Closing] else s.sockets;
      var s1, s2, s3 := Step(s, CallClose), Step(s, CallReconnect(token, works)), Step(s, EnabledChanges(enabled, token, works));
      && s1 == s.(live := map[], ws := None, sockets := left)
      && s2 == s1.(reconnectCount := 0, sockets := s2.sockets, ws := s2.ws)
      && s3 == s1.(sockets := s3.sockets, ws := s3.ws)
      && (if token && works then s2.sockets == left + [Connecting] && s2.ws == Some(|left|) else s2.sockets == left && s2.ws == None)
      && (if enabled && token && works then s3.sockets == left + [Connecting] && s3.ws == Some(|left|)
          else s3.sockets == left && s3.ws == None)
  {
    CloseClears(s);
    CloseClears(Close(s));
  }

  // ----- how often a connection can be lost before the hook pauses

  /** No close so far has found more than ten in its window. */
  predicate NoneTooMany(h: seq<nat>) {
    forall k :: 1 <= k <= |h| ==> InWindow(h[..k]) <= MAX_FAILURES
  }

  predicate Pausing(s: State) {
    exists id :: id in s.live && s.live[id].Cooldown?
  }

  lemma OnCloseNoneTooMany(s: State, now: Timestamp, x: Settings)
    requires Orderly(s) && Counts(s) && NoneTooMany(s.closes)
    requires s.live == map[] && forall i :: 0 <= i < |s.sockets| ==> s.sockets[i] == Closed
    ensures Pausing(OnClose(s, now, x)) || NoneTooMany(OnClose(s, now, x).closes)
  {
    if x.reconnect {
      OnCloseOrderly(s, now, x);
      OnCloseCounts(s, now, x);
      CountFailureCounts(s, now);
      var s' := OnClose(s, now, x);
      var h := s.closes + [now];
      if s'.consecutiveFailures > MAX_FAILURES {
        assert s.nextTimer in s'.live && s'.live[s.nextTimer].Cooldown?;
      } else {
        forall k | 1 <= k <= |h| ensures InWindow(h[..k]) <= MAX_FAILURES {
          if k < |h| { assert h[..k] == s.closes[..k]; } else { assert h[..k] == h; }
        }
      }
    }
  }

  lemma StepNoneTooMany(s: State, e: Event)
    requires Orderly(s) && Counts(s) && NoClose(e) && (Pausing(s) || NoneTooMany(s.closes))
    ensures Pausing(Step(s, e)) || NoneTooMany(Step(s, e).closes)
  {
    hide InWindow;
    match e
    case SocketCloses(i, now, settings) =>
      if i < |s.sockets| && s.sockets[i] != Closed {
        assert s.live == map[];
        OnCloseNoneTooMany(s.(sockets := s.sockets[i := Closed]), now, settings);
      }
    case TimerFires(id, _, _) =>
      if id in s.live && !Pausing(s) { assert s.live[id].Backoff?; }
    case _ =>
  }

  lemma {:induction false} RunNoneTooMany(token: bool, works: bool, events: seq<Event>)
    requires forall i :: 0 <= i < |events| ==> NoClose(events[i])
    ensures Pausing(Run(token, works, events)) || NoneTooMany(Run(token, works, events).closes)
    decreases |events|
  {
    if events != [] {
      var front, e := events[..|events| - 1], events[|events| - 1];
      var s := Run(token, works, front);
      RunNoneTooMany(token, works, front);
      RunOrderly(token, works, front);
      StepNoneTooMany(s, e);
    }
  }

  /** The close at `j` and the one at `i` lie more than a minute apart when twenty or more closes separate them. */
  lemma TwentyPerMinute(h: seq<nat>, i: nat, j: nat)
    requires i <= j < |h| && (forall a, b :: 0 <= a <= b < |h| ==> h[a] <= h[b])
    requires NoneTooMany(h) && h[j] <= h[i] + 60000
    ensures j - i < 20
  {
    var p := WindowStart(h[..j + 1]);
    assert InWindow(h[..j + 1]) <= MAX_FAILURES;
    if i < p {
      StartsLate(h[..j + 1]);
      assert h[..j + 1][..p] == h[..p];
      assert InWindow(h[..p]) <= MAX_FAILURES;
    }
  }

  /** A window after the first begins more than a minute after the beginning of the window before it. */
  lemma {:induction false} StartsLate(h: seq<nat>)
    requires h != [] && WindowStart(h) > 0
    ensures h[WindowStart(h)] > h[WindowStart(h[..WindowStart(h)])] + 60000
    decreases |h|
  {
    var front := h[..|h| - 1];
    var p := WindowStart(h);
    if p < |h| - 1 {
      StartsLate(front);
      assert front[..p] == h[..p];
    }
  }

  /**
   * In every run without `close` whose clock does not go back: unless the hook is in its cooldown,
   * at most twenty counted closes lie within one minute.
   */
  lemma ClosesPerMinute(token: bool, works: bool, events: seq<Event>, i: nat, j: nat)
    requires forall k :: 0 <= k < |events| ==> NoClose(events[k])
    requires
      var s := Run(token, works, events);
      !Pausing(s) && i <= j < |s.closes| && forall a, b :: 0 <= a <= b < |s.closes| ==> s.closes[a] <= s.closes[b]
    ensures var h := Run(token, works, events).closes; h[j] <= h[i] + 60000 ==> j - i + 1 <= 20
  {
    RunNoneTooMany(token, works, events);
    var h := Run(token, works, events).closes;
    if h[j] <= h[i] + 60000 { TwentyPerMinute(h, i, j); }
  }

  // ----- with `close`

  lemma RunSnoc(token: bool, works: bool, events: seq<Event>, e: Event)
    ensures Run(token, works, events + [e]) == Step(Run(token, works, events), e)
  {}

  /** A manual reconnect, or the switch that disables and enables the hook: a `close`, then a `connect` that works. */
  predicate Restarts(e: Event) {
    e == CallReconnect(true, true) || e == EnabledChanges(true, true, true)
  }

  lemma CloseClears(s: State)
    requires OneTimer(s)
    ensures Close(s).live == map[] && Close(s).ws == None && |Close(s).sockets| == |s.sockets|
  {}

  lemma RestartConnects(s: State, e: Event)
    requires OneTimer(s) && Restarts(e)
    ensures
      var s' := Step(s, e);
      && s'.live == map[] && |s'.sockets| == |s.sockets| + 1 && s'.sockets[|s.sockets|] == Connecting
      && s'.isReconnecting == s.isReconnecting && SameCounts(s, s')
  {
    CloseClears(s);
  }

  /**
   * In every run, `close` and a new connection leave no timer, and the close of that connection leaves
   * one exactly when no reconnect was pending at the `close`, or it starts a cooldown.
   */
  lemma CloseStopsReconnecting(token: bool, works: bool, events: seq<Event>, e: Event, now: Timestamp, x: Settings)
    requires Restarts(e) && x.reconnect
    ensures
      var s := Run(token, works, events);
      var s1 := Step(s, e);
      && s1.live == map[]
      && (Step(s1, SocketCloses(|s.sockets|, now, x)).live != map[]
          <==> !s.isReconnecting || CountFailure(s, now).consecutiveFailures > 10)
  {
    var s := Run(token, works, events);
    AtMostOneTimer(token, works, events);
    RestartConnects(s, e);
    var s1 := Step(s, e);
    CloseLeavesTimer(s1.(sockets := s1.sockets[|s.sockets| := Closed]), now, x);
  }

  lemma FirstClose(t: Timestamp, x: Settings)
    requires x.reconnect
    ensures
      var s := Step(Run(true, true, []), SocketCloses(0, t, x));
      && s.sockets == [Closed] && s.ws == Some(0) && s.isReconnecting && s.live.Keys == {0} && s.reconnectTimeout == Some(0)
      && s.consecutiveFailures == 1
  {}

  lemma Reconnected(s: State)
    requires s.sockets == [Closed] && s.ws == Some(0) && s.live.Keys == {0} && s.reconnectTimeout == Some(0)
    ensures
      var s' := Step(s, CallReconnect(true, true));
      s' == s.(sockets := [Closed, Connecting], ws := Some(1), live := map[], reconnectCount := 0)
  {}

  /** Such a run: two closes, with a manual reconnect while the first is being followed up. */
  lemma SecondCloseIgnored(t1: Timestamp, t2: Timestamp, x: Settings)
    requires t1 <= t2 && x.reconnect
    ensures
      var s := Run(true, true, [SocketCloses(0, t1, x), CallReconnect(true, true), SocketCloses(1, t2, x)]);
      s.live == map[] && s.isReconnecting && s.sockets == [Closed, Closed]
  {
    var e0, e1, e2 := SocketCloses(0, t1, x), CallReconnect(true, true), SocketCloses(1, t2, x);
    RunSnoc(true, true, [], e0);
    assert [] + [e0] == [e0];
    FirstClose(t1, x);
    RunSnoc(true, true, [e0], e1);
    Reconnected(Run(true, true, [e0]));
    RunSnoc(true, true, [e0] + [e1], e2);
    var s1 := Run(true, true, [e0] + [e1]);
    assert s1.sockets[1 := Closed] == [Closed, Closed];
    assert [e0] + [e1] + [e2] == [e0, e1, e2];
  }

  // ----- the invariant of the hook

  ghost predicate Sound(s: State, undisturbed: bool) {
    OneTimer(s) && Counts(s) && (undisturbed ==> Orderly(s))
  }

  lemma StepSound(s: State, e: Event, undisturbed: bool)
    requires Sound(s, undisturbed)
    ensures Sound(Step(s, e), undisturbed && NoClose(e))
  {
    StepOne(s, e);
    StepCounts(s, e);
    if undisturbed && NoClose(e) { StepOrderly(s, e); }
  }

  lemma CloseSound(s: State, undisturbed: bool)
    requires Sound(s, undisturbed)
    ensures Sound(Close(s), false) && Close(s).live == map[] && Close(s).ws == None
  {
    StepSound(s, CallClose, undisturbed);
    CloseClears(s);
  }

  lemma OpenSocketAlone(s: State, i: nat)
    requires Orderly(s) && i < |s.sockets| && s.sockets[i] != Closed
    ensures
      var s0 := s.(sockets := s.sockets[i := Closed]);
      s.live == map[] && Orderly(s0) && forall k :: 0 <= k < |s0.sockets| ==> s0.sockets[k] == Closed
  {}

  /** Until `close` is called, every close with reconnect enabled leaves exactly the timer it set. */
  lemma ClosedSound(s: State, i: nat, now: Timestamp, x: Settings, undisturbed: bool)
    requires Sound(s, undisturbed) && i < |s.sockets| && s.sockets[i] != Closed
    ensures
      var s' := OnClose(s.(sockets := s.sockets[i := Closed]), now, x);
      Sound(s', undisturbed) && (undisturbed && x.reconnect ==> s'.live.Keys == {s.nextTimer})
  {
    hide Counts;
    hide Orderly;
    hide OneTimer;
    hide OnClose;
    StepSound(s, SocketCloses(i, now, x), undisturbed);
    if undisturbed {
      OpenSocketAlone(s, i);
      OnCloseOrderly(s.(sockets := s.sockets[i := Closed]), now, x);
    }
  }

  lemma StartSound(token: bool, works: bool)
    ensures Sound(Run(token, works, []), true)
  {
    RunOrderly(token, works, []);
  }
}
