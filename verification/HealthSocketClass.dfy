/** The client as the object it is: fields that its methods update. */
module HealthSocketClass {
  import opened Options
  import opened WebSockets
  import opened HealthSocket
  import opened HealthSocketRuns

  class DeviceHealthWebSocket {
    var sockets: seq<ReadyState>
    var ws: Option<nat>
    var reconnectAttempts: nat
    var reconnectTimer: Option<nat>
    var liveTimers: set<nat>
    var nextTimer: nat
    var isIntentionallyClosed: bool
    var messageQueue: seq<Message>
    var subscribed: bool
    var creating: nat
    var cleaning: nat
    ghost var sent: nat
    ghost var wire: seq<Message>
    ghost var discarded: seq<Message>
    ghost var failed: seq<Message>
    ghost var delays: seq<real>
    var nextId: nat
    const config: Config

    constructor (config: Config)
      ensures Valid() && Contents() == Initial() && this.config == config
    {
      sockets, ws, reconnectAttempts, reconnectTimer := [], None, 0, None;
      liveTimers, nextTimer, isIntentionallyClosed, messageQueue := {}, 0, false, [];
      subscribed, creating, cleaning, nextId := false, 0, 0, 0;
      sent, wire, discarded, failed, delays := 0, [], [], [], [];
      this.config := config;
      new;
      InitiallySound(config);
    }

    /**
     * Between two calls: at most the timer in the field is live, attempts and delays are those since
     * the last open, and every message given to `SendMessage` is in exactly one place, once.
     */
    ghost predicate Valid()
      reads this
    {
      nextId == sent && Sound(Contents(), config)
    }

    ghost function Contents(): State
      reads this
    {
      State(sockets, ws, reconnectAttempts, reconnectTimer, liveTimers, nextTimer, isIntentionallyClosed,
            messageQueue, subscribed, creating, cleaning, sent, wire, discarded, failed, delays)
    }

    predicate WsIsOpen()
      reads this
    {
      ws.Some? && ws.value < |sockets| && sockets[ws.value] == Open
    }

    /** `ws.send(JSON.stringify(message))`; false when `JSON.stringify` throws. */
    method Hand(message: Message) returns (ok: bool)
      modifies this`wire, this`failed
      ensures ok == message.serialises
      ensures wire == (if ok then old(wire) + [message] else old(wire))
      ensures failed == (if ok then old(failed) else old(failed) + [message])
    {
      ok := message.serialises;
      if ok { wire := wire + [message]; } else { failed := failed + [message]; }
    }

    method SendMessage(serialises: bool)
      requires Valid()
      modifies this
      ensures Valid() && Contents() == Send(old(Contents()), serialises)
    {
      hide Sound;
      SendSound(Contents(), serialises, config);
      var message := Message(nextId, serialises);
      nextId, sent := nextId + 1, sent + 1;
      if WsIsOpen() {
        var _ := Hand(message);
      } else {
        messageQueue := messageQueue + [message];
      }
    }

    method FlushMessageQueue()
      requires Valid()
      modifies this
      ensures Valid() && Contents() == Flush(old(Contents()))
    {
      hide Sound;
      FlushSound(Contents(), config);
      while |messageQueue| > 0 && WsIsOpen()
        invariant nextId == sent && Flush(Contents()) == Flush(old(Contents()))
        decreases |messageQueue|
      {
        var message := messageQueue[0];
        messageQueue := messageQueue[1..];
        var ok := Hand(message);
        if !ok { return; }
      }
    }

    method Schedule()
      requires Valid()
      modifies this
      ensures Valid() && Contents() == ScheduleReconnect(old(Contents()), config)
    {
      hide Sound;
      ScheduleSound(Contents(), config);
      if reconnectAttempts >= config.maxReconnectAttempts {
        return;
      }
      if reconnectTimer.Some? {
        liveTimers := liveTimers - {reconnectTimer.value};
      }
      delays := delays + [Delay(reconnectAttempts, config)];
      reconnectAttempts := reconnectAttempts + 1;
      liveTimers := liveTimers + {nextTimer};
      reconnectTimer := Some(nextTimer);
      nextTimer := nextTimer + 1;
    }

    method CreateWebSocket(works: bool)
      requires Valid()
      modifies this
      ensures Valid() && Contents() == Create(old(Contents()), works, config)
    {
      hide Sound;
      CreateSound(Contents(), works, config);
      if works {
        sockets := sockets + [Connecting];
        ws := Some(|sockets| - 1);
      } else {
        Schedule();
      }
    }

    method ConnectTo(withDevices: bool, works: bool)
      requires Valid()
      modifies this
      ensures Valid() && Contents() == Connect(old(Contents()), withDevices, works, config)
    {
      hide Sound;
      ConnectSound(Contents(), withDevices, works, config);
      if WsIsOpen() {
        return;
      }
      isIntentionallyClosed := false;
      QuietSound(old(Contents()), Contents(), config);
      if withDevices {
        creating := creating + 1;
      } else {
        CreateWebSocket(works);
      }
    }

    method ClearReconnectTimer()
      modifies this`liveTimers, this`reconnectTimer
      ensures reconnectTimer == None && liveTimers == WithoutTimer(old(liveTimers), old(reconnectTimer))
    {
      if reconnectTimer.Some? {
        liveTimers := liveTimers - {reconnectTimer.value};
        reconnectTimer := None;
      }
    }

    method CloseCurrent()
      modifies this`sockets, this`ws
      ensures ws == None && sockets == ClosingCurrent(old(sockets), old(ws))
    {
      if ws.Some? {
        if ws.value < |sockets| && (sockets[ws.value] == Connecting || sockets[ws.value] == Open) {
          sockets := sockets[ws.value := Closing];
        }
        ws := None;
      }
    }

    /** No timer is left live, and no socket is current. */
    method DisconnectFrom()
      requires Valid()
      modifies this
      ensures Valid() && Contents() == Disconnect(old(Contents()))
      ensures liveTimers == {} && ws == None && isIntentionallyClosed
    {
      hide Sound;
      hide CleanedUp;
      DisconnectSound(Contents(), config);
      isIntentionallyClosed := true;
      CleanUp();
    }

    method CleanUp()
      modifies this
      ensures Contents() == CleanedUp(old(Contents()))
      ensures nextId == old(nextId) && sent == old(sent) && isIntentionallyClosed == old(isIntentionallyClosed) && ws == None
    {
      hide WithoutTimer;
      hide ClosingCurrent;
      ClearReconnectTimer();
      CloseCurrent();
      if subscribed {
        cleaning := cleaning + 1;
        return;
      }
      EmptyMessageQueue();
    }

    method EmptyMessageQueue()
      modifies this`discarded, this`messageQueue
      ensures Contents() == EmptyQueue(old(Contents()))
    {
      discarded := discarded + messageQueue;
      messageQueue := [];
    }

    method Callback(actions: seq<Action>)
      requires Valid()
      modifies this
      ensures Valid() && Contents() == ActAll(old(Contents()), actions, config)
    {
      hide Sound;
      for k := 0 to |actions|
        invariant Valid() && ActAll(Contents(), actions[k..], config) == ActAll(old(Contents()), actions, config)
      {
        assert actions[k..][1..] == actions[k + 1..];
        match actions[k] {
          case DoSend(serialises) => SendMessage(serialises);
          case DoConnect(withDevices, works) => ConnectTo(withDevices, works);
          case DoDisconnect => DisconnectFrom();
        }
      }
    }

    method OnOpenHandler(i: nat, onConnect: seq<Action>, throws: bool)
      requires Valid() && i < |sockets|
      modifies this
      ensures Valid() && Contents() == OnOpen(old(Contents()), i, onConnect, throws, config)
    {
      hide Sound;
      sockets := sockets[i := Open];
      reconnectAttempts := 0;
      delays := [];
      QuietSound(old(Contents()), Contents(), config);
      Callback(onConnect);
      if !throws { FlushMessageQueue(); }
    }

    method OnCloseHandler(i: nat, onDisconnect: seq<Action>, throws: bool)
      requires Valid() && i < |sockets|
      modifies this
      ensures Valid() && Contents() == OnClose(old(Contents()), i, onDisconnect, throws, config)
    {
      hide Sound;
      sockets := sockets[i := Closed];
      QuietSound(old(Contents()), Contents(), config);
      Callback(onDisconnect);
      if !throws && !isIntentionallyClosed { Schedule(); }
    }

    /** One event of the runtime or the user. */
    method Dispatch(e: Event)
      requires Valid()
      modifies this
      ensures Valid() && Contents() == Step(old(Contents()), e, config)
    {
      hide Sound;
      hide ScheduleReconnect;
      hide Create;
      hide OnOpen;
      hide OnClose;
      hide Act;
      match e
      case User(action) =>
        Callback([action]);
        assert [action][1..] == [];
        assert ActAll(old(Contents()), [action], config) == Act(old(Contents()), action, config);
      case Heartbeat =>
        if WsIsOpen() { SendMessage(true); }
      case SocketOpens(i, callback, throws) =>
        if i < |sockets| && sockets[i] == Connecting { OnOpenHandler(i, callback, throws); }
      case SocketCloses(i, callback, throws) =>
        if i < |sockets| && sockets[i] != Closed { OnCloseHandler(i, callback, throws); }
      case SocketStartsClosing(i) =>
        if i < |sockets| && sockets[i] != Closed {
          sockets := sockets[i := Closing];
          QuietSound(old(Contents()), Contents(), config);
        }
      case TimerFires(id, works) =>
        if id in liveTimers {
          liveTimers := liveTimers - {id};
          QuietSound(old(Contents()), Contents(), config);
          CreateWebSocket(works);
        }
      case Subscribed(ok, works) =>
        if creating > 0 {
          creating := creating - 1;
          if ok {
            subscribed := true;
            QuietSound(old(Contents()), Contents(), config);
            CreateWebSocket(works);
          } else {
            QuietSound(old(Contents()), Contents(), config);
            Schedule();
          }
        }
      case Unsubscribed =>
        if cleaning > 0 {
          cleaning := cleaning - 1;
          subscribed := false;
          QuietSound(old(Contents()), Contents(), config);
          EmptyQueueSound(Contents(), config);
          EmptyMessageQueue();
        }
    }
  }
}
