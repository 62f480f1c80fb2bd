/** The hook as the refs that its handlers update. */
module TelemetrySocketClass {
  import opened Options
  import opened WebSockets
  import opened TelemetrySocket
  import opened TelemetrySocketRuns

  /** The hook's refs and what its handlers do to them. */
  class TelemetryWebSocket {
    var sockets: seq<ReadyState>
    var ws: Option<nat>
    var reconnectCount: nat
    var isReconnecting: bool
    var consecutiveFailures: nat
    var firstFailureTs: nat
    var reconnectTimeout: Option<nat>
    var live: map<nat, Timer>
    var nextTimer: nat
    ghost var closes: seq<nat>
    ghost var undisturbed: bool      // neither `close` nor anything that calls it has run

    constructor (token: bool, works: bool)
      ensures Valid() && undisturbed && Contents() == Run(token, works, [])
    {
      undisturbed := true;
      sockets, ws, reconnectCount, isReconnecting, consecutiveFailures := [], None, 0, false, 0;
      firstFailureTs, reconnectTimeout, live, nextTimer, closes := 0, None, map[], 0, [];
      new;
      ConnectNow(token, works);
      StartSound(token, works);
    }

    /**
     * At most one timer is live, the counter and the first timestamp are those of the last window of
     * closes, and until `close` is called the sockets and timers take turns and `isReconnecting` means a timer.
     */
    ghost predicate Valid()
      reads this
    {
      Sound(Contents(), undisturbed)
    }

    ghost function Contents(): State
      reads this
    {
      State(sockets, ws, reconnectCount, isReconnecting, consecutiveFailures, firstFailureTs, reconnectTimeout, live, nextTimer, closes)
    }

    predicate Busy()
      reads this
    {
      ws.Some? && ws.value < |sockets| && (sockets[ws.value] == Connecting || sockets[ws.value] == Open)
    }

    method ConnectNow(token: bool, works: bool)
      modifies this
      ensures undisturbed == old(undisturbed) && Contents() == Connect(old(Contents()), token, works)
    {
      if Busy() || !token || !works {
        return;
      }
      sockets := sockets + [Connecting];
      ws := Some(|sockets| - 1);
    }

    method ClearTimer()
      modifies this`live
      ensures live == if reconnectTimeout.Some? then old(live) - {reconnectTimeout.value} else old(live)
    {
      if reconnectTimeout.Some? {
        live := live - {reconnectTimeout.value};
      }
    }

    method StartTimer(timer: Timer)
      modifies this
      ensures undisturbed == old(undisturbed) && Contents() == SetTimer(old(Contents()), timer)
    {
      ClearTimer();
      live := live[nextTimer := timer];
      reconnectTimeout := Some(nextTimer);
      nextTimer := nextTimer + 1;
    }

    /** The window of closes within a minute. */
    method CountClose(now: Timestamp)
      modifies this`closes, this`firstFailureTs, this`consecutiveFailures
      ensures Contents() == CountFailure(old(Contents()), now)
    {
      closes := closes + [now];
      if firstFailureTs == 0 || now > firstFailureTs + WINDOW {
        firstFailureTs := now;
        consecutiveFailures := 1;
      } else {
        consecutiveFailures := consecutiveFailures + 1;
      }
    }

    method OnCloseHandler(i: nat, now: Timestamp, settings: Settings)
      requires Valid() && i < |sockets| && sockets[i] != Closed
      modifies this
      ensures Valid() && undisturbed == old(undisturbed)
      ensures Contents() == OnClose(old(Contents().(sockets := sockets[i := Closed])), now, settings)
      ensures undisturbed && settings.reconnect ==> live.Keys == {old(nextTimer)}
    {
      hide Sound;
      hide SetTimer;
      hide CountFailure;
      hide BackoffDelay;
      ClosedSound(Contents(), i, now, settings, undisturbed);
      sockets := sockets[i := Closed];
      if !settings.reconnect {
        return;
      }
      CountClose(now);
      if consecutiveFailures > MAX_FAILURES {
        StartTimer(Cooldown(COOLDOWN));
        return;
      }
      if isReconnecting {
        return;
      }
      isReconnecting := true;
      reconnectCount := reconnectCount + 1;
      StartTimer(Backoff(BackoffDelay(settings.baseInterval, reconnectCount) + settings.jitter as real));
    }

    method OnTimer(id: nat, token: bool, works: bool)
      requires Valid() && id in live
      modifies this
      ensures Valid() && undisturbed == old(undisturbed)
      ensures Contents() == Fire(old(Contents()), id, token, works)
    {
      hide Sound;
      StepSound(Contents(), TimerFires(id, token, works), undisturbed);
      var timer := live[id];
      live := live - {id};
      if timer.Cooldown? {
        consecutiveFailures := 0;
        firstFailureTs := 0;
        closes := [];
      }
      isReconnecting := false;
      ConnectNow(token, works);
    }

    method CloseNow()
      requires Valid()
      modifies this
      ensures Valid() && !undisturbed && Contents() == Close(old(Contents()))
      ensures live == map[] && ws == None
    {
      hide Sound;
      CloseSound(Contents(), undisturbed);
      undisturbed := false;
      ClearTimer();
      if ws.Some? {
        if Busy() {
          sockets := sockets[ws.value := Closing];
        }
        ws := None;
      }
    }

    method ReconnectManually(token: bool, works: bool)
      requires Valid()
      modifies this
      ensures Valid() && !undisturbed
      ensures Contents() == Step(old(Contents()), CallReconnect(token, works))
    {
      hide Sound;
      StepSound(Contents(), CallReconnect(token, works), undisturbed);
      CloseNow();
      reconnectCount := 0;
      ConnectNow(token, works);
    }

    /** The effect on `enabled`: its cleanup, then its body. */
    method ChangeEnabled(enabled: bool, token: bool, works: bool)
      requires Valid()
      modifies this
      ensures Valid() && !undisturbed
      ensures Contents() == Step(old(Contents()), EnabledChanges(enabled, token, works))
    {
      hide Sound;
      StepSound(Contents(), EnabledChanges(enabled, token, works), undisturbed);
      CloseNow();
      if enabled { ConnectNow(token, works); } else { CloseNow(); }
    }

    method Dispatch(e: Event)
      requires Valid()
      modifies this
      ensures Valid() && undisturbed == (old(undisturbed) && NoClose(e))
      ensures Contents() == Step(old(Contents()), e)
    {
      hide Sound;
      StepSound(Contents(), e, undisturbed);
      match e
      case SocketOpens(i) =>
        if i < |sockets| && sockets[i] == Connecting {
          sockets := sockets[i := Open];
          reconnectCount := 0;
        }
      case SocketStartsClosing(i) =>
        if i < |sockets| && sockets[i] != Closed { sockets := sockets[i := Closing]; }
      case SocketCloses(i, now, settings) =>
        if i < |sockets| && sockets[i] != Closed { OnCloseHandler(i, now, settings); }
      case TimerFires(id, token, works) =>
        if id in live { OnTimer(id, token, works); }
      case CallClose => CloseNow();
      case CallReconnect(token, works) => ReconnectManually(token, works);
      case EnabledChanges(enabled, token, works) => ChangeEnabled(enabled, token, works);
    }
  }
}
