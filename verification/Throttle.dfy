/** `throttle`: the first call runs at once, later calls share one timer. Times are milliseconds. */
module Throttle {
  import opened Options

  /** A pending `setTimeout` with the call it captured. */
  datatype Timer = Timer(call: nat, due: int)

  /** One run of `func`, from `start` to `end`, with the arguments of call number `call`. */
  datatype FuncRun = FuncRun(call: nat, start: int, end: int, completed: bool)

  datatype State = State(
    lastFunc: Option<nat>,
    lastRan: Option<int>,
    live: map<nat, Timer>,
    nextTimer: nat,
    now: int,
    calls: nat,             // history: calls so far
    runs: seq<FuncRun>)     // history: runs of `func` so far

  function Initial(now: int): State {
    State(None, None, map[], 0, now, 0, [])
  }

  /** `func` runs from `start` to `end`; when it throws, `lastRan` is not updated. */
  function RunFunc(s: State, call: nat, start: int, end: int, throws: bool): State {
    s.(lastRan := if throws then s.lastRan else Some(end), now := end, runs := s.runs + [FuncRun(call, start, end, !throws)])
  }

  datatype Event =
    | Call(at: int, end: int, throws: bool)
    | Fire(id: nat, at: int, end: int, throws: bool)

  function OnCall(s: State, at: int, end: int, throws: bool, limit: int): State {
    var s' := s.(calls := s.calls + 1);
    if s.lastRan.None? then RunFunc(s', s.calls, at, end, throws)
    else
      var rest := if s.lastFunc.Some? then s.live - {s.lastFunc.value} else s.live;
      var delay := limit - (at - s.lastRan.value);
      var due := if delay > 0 then at + delay else at;
      s'.(live := rest[s.nextTimer := Timer(s.calls, due)], lastFunc := Some(s.nextTimer), nextTimer := s.nextTimer + 1, now := at)
  }

  function OnFire(s: State, id: nat, at: int, end: int, throws: bool, limit: int): State
    requires id in s.live
  {
    var s' := s.(live := s.live - {id}, now := at);
    if s.lastRan.Some? && at - s.lastRan.value >= limit then RunFunc(s', s.live[id].call, at, end, throws) else s'
  }

  /** One event; one that would turn the clock back, or fires a timer that is not live, changes nothing. */
  function Step(s: State, e: Event, limit: int): State {
    if e.at < s.now || e.end < e.at then s
    else
      match e
      case Call(at, end, throws) => OnCall(s, at, end, throws, limit)
      case Fire(id, at, end, throws) => if id in s.live then OnFire(s, id, at, end, throws, limit) else s
  }

  function Run(start: int, events: seq<Event>, limit: int): State
    decreases |events|
  {
    if events == [] then Initial(start)
    else Step(Run(start, events[..|events| - 1], limit), events[|events| - 1], limit)
  }

  // ----- spacing

  /** Every run starts at least `limit` after the end of every earlier run that completed. */
  predicate Spaced(runs: seq<FuncRun>, limit: int) {
    forall i, j :: 0 <= i < j < |runs| && runs[i].completed ==> runs[j].start >= runs[i].end + limit
  }

  /** `lastRan` is the end of the last completed run, and nothing has ended after now. */
  predicate Timed(s: State) {
    && (s.lastRan.None? ==> forall i :: 0 <= i < |s.runs| ==> !s.runs[i].completed)
    && (s.lastRan.Some? ==> forall i :: 0 <= i < |s.runs| && s.runs[i].completed ==> s.runs[i].end <= s.lastRan.value)
    && (s.lastRan.Some? ==> s.lastRan.value <= s.now)
  }

  /** At most the timer in the variable is live, and it captured the last call. */
  predicate OneTimer(s: State) {
    && (forall id :: id in s.live ==> s.lastFunc == Some(id) && s.live[id].call == s.calls - 1 && s.lastRan.Some?)
    && (forall i :: 0 <= i < |s.runs| ==> s.runs[i].call < s.calls)
    && (s.live != map[] ==> forall i :: 0 <= i < |s.runs| ==> s.runs[i].call < s.calls - 1)
    && forall i, j :: 0 <= i < j < |s.runs| ==> s.runs[i].call < s.runs[j].call
  }

  lemma RunFuncSpaced(s: State, call: nat, start: int, end: int, throws: bool, limit: int)
    requires Timed(s) && Spaced(s.runs, limit) && s.now <= start <= end
    requires s.lastRan.Some? ==> start >= s.lastRan.value + limit
    ensures Timed(RunFunc(s, call, start, end, throws)) && Spaced(RunFunc(s, call, start, end, throws).runs, limit)
  {}

  lemma StepSpaced(s: State, e: Event, limit: int)
    requires Timed(s) && Spaced(s.runs, limit)
    ensures Timed(Step(s, e, limit)) && Spaced(Step(s, e, limit).runs, limit)
  {
    if e.at >= s.now && e.end >= e.at {
      match e
      case Call(at, end, throws) =>
        if s.lastRan.None? { RunFuncSpaced(s.(calls := s.calls + 1), s.calls, at, end, throws, limit); }
      case Fire(id, at, end, throws) =>
        if id in s.live {
          var s' := s.(live := s.live - {id}, now := at);
          if s.lastRan.Some? && at - s.lastRan.value >= limit {
            RunFuncSpaced(s', s.live[id].call, at, end, throws, limit);
          }
        }
    }
  }

  /**
   * In every run, whether timers fire early or late, `func` starts at least `limit` after the end
   * of each earlier run; a run that throws does not count, since it leaves `lastRan` as it was.
   */
  lemma RunsAreSpaced(start: int, events: seq<Event>, limit: int)
    ensures Spaced(Run(start, events, limit).runs, limit)
    ensures (forall k :: 0 <= k < |events| ==> !events[k].throws) ==>
      var runs := Run(start, events, limit).runs;
      forall i, j :: 0 <= i < j < |runs| ==> runs[j].start >= runs[i].end + limit
  {
    RunSound(start, events, limit);
    if forall k :: 0 <= k < |events| ==> !events[k].throws { AllComplete(start, events, limit); }
  }

  lemma {:induction false} AllComplete(start: int, events: seq<Event>, limit: int)
    requires forall k :: 0 <= k < |events| ==> !events[k].throws
    ensures forall i :: 0 <= i < |Run(start, events, limit).runs| ==> Run(start, events, limit).runs[i].completed
    decreases |events|
  {
    if events != [] { AllComplete(start, events[..|events| - 1], limit); }
  }

  // ----- the last call

  lemma CallOneTimer(s: State, at: int, end: int, throws: bool, limit: int)
    requires OneTimer(s)
    ensures OneTimer(OnCall(s, at, end, throws, limit))
  {}

  lemma FireOneTimer(s: State, id: nat, at: int, end: int, throws: bool, limit: int)
    requires OneTimer(s) && id in s.live
    ensures OneTimer(OnFire(s, id, at, end, throws, limit)) && OnFire(s, id, at, end, throws, limit).live == map[]
  {}

  /** In every run at most one timer is live, no call is run twice, and calls are run in their order. */
  lemma EachCallOnce(start: int, events: seq<Event>, limit: int)
    ensures
      var s := Run(start, events, limit);
      && (forall id, other :: id in s.live && other in s.live ==> id == other)
      && forall i, j :: 0 <= i < j < |s.runs| ==> s.runs[i].call < s.runs[j].call < s.calls
  {
    RunSound(start, events, limit);
  }

  /** A pending timer is due when the limit has passed, or was due at once when it was set. */
  predicate DuesKept(s: State, limit: int) {
    forall id :: id in s.live ==>
      && s.lastRan.Some?
      && s.live[id].due >= s.lastRan.value + limit
      && (s.live[id].due == s.lastRan.value + limit || s.live[id].due <= s.now)
  }

  lemma StepKeepsDues(s: State, e: Event, limit: int)
    requires OneTimer(s) && DuesKept(s, limit)
    ensures DuesKept(Step(s, e, limit), limit)
  {}

  /** The clock does not go back, and only a live timer fires. */
  predicate Deliverable(s: State, e: Event) {
    s.now <= e.at <= e.end && (e.Fire? ==> e.id in s.live)
  }

  /** The event does not fire a timer before it is due. */
  predicate OnTime(s: State, e: Event) {
    e.Fire? && e.id in s.live ==> e.at >= s.live[e.id].due
  }

  /** The last run of `func` had the arguments of the last call. */
  predicate LastCallRan(s: State) {
    s.calls > 0 ==> s.runs != [] && s.runs[|s.runs| - 1].call == s.calls - 1
  }

  /** A timer runs its call, which is the last one, exactly when it does not fire early. */
  lemma FireRunsLastCall(s: State, e: Event, limit: int)
    requires OneTimer(s) && DuesKept(s, limit) && Deliverable(s, e) && e.Fire?
    ensures Step(s, e, limit).live == map[]
    ensures LastCallRan(Step(s, e, limit)) <==> OnTime(s, e)
    ensures |Step(s, e, limit).runs| == |s.runs| + if OnTime(s, e) then 1 else 0
  {
    FireOneTimer(s, e.id, e.at, e.end, e.throws, limit);
  }

  /** The last event of the run that was not ignored fired no timer early. */
  predicate EndsOnTime(start: int, events: seq<Event>, limit: int)
    decreases |events|
  {
    events == [] ||
    var s, e := Run(start, events[..|events| - 1], limit), events[|events| - 1];
    if Deliverable(s, e) then OnTime(s, e) else EndsOnTime(start, events[..|events| - 1], limit)
  }

  /**
   * In every run with no timer pending, the last run of `func` had the arguments of the last call
   * exactly when the last timer did not fire early.
   */
  lemma {:induction false} LastCallWins(start: int, events: seq<Event>, limit: int)
    ensures Run(start, events, limit).live == map[] ==>
      (LastCallRan(Run(start, events, limit)) <==> EndsOnTime(start, events, limit))
    decreases |events|
  {
    if events != [] {
      var front, e := events[..|events| - 1], events[|events| - 1];
      var s := Run(start, front, limit);
      LastCallWins(start, front, limit);
      RunSound(start, front, limit);
      if Deliverable(s, e) {
        if e.Fire? { FireRunsLastCall(s, e, limit); } else { CallRunsOrWaits(s, e, limit); }
      }
    }
  }

  lemma CallRunsOrWaits(s: State, e: Event, limit: int)
    requires OneTimer(s) && Deliverable(s, e) && e.Call?
    ensures Step(s, e, limit).live == map[] ==> LastCallRan(Step(s, e, limit))
  {
    if s.lastRan.Some? { assert s.nextTimer in Step(s, e, limit).live; }
  }

  /** Completed runs are spaced, and at most one timer is live: that of the last call, due by the limit. */
  predicate Sound(s: State, limit: int) {
    Timed(s) && Spaced(s.runs, limit) && OneTimer(s) && DuesKept(s, limit)
  }

  lemma StepSound(s: State, e: Event, limit: int)
    requires Sound(s, limit)
    ensures Sound(Step(s, e, limit), limit)
    ensures Deliverable(s, e) && e.Call? && Step(s, e, limit).live == map[] ==> LastCallRan(Step(s, e, limit))
    ensures Deliverable(s, e) && e.Fire? ==> Step(s, e, limit).live == map[] && (LastCallRan(Step(s, e, limit)) <==> OnTime(s, e))
  {
    StepSpaced(s, e, limit);
    StepKeepsDues(s, e, limit);
    if Deliverable(s, e) && e.Call? {
      CallOneTimer(s, e.at, e.end, e.throws, limit);
      CallRunsOrWaits(s, e, limit);
    } else if Deliverable(s, e) {
      FireOneTimer(s, e.id, e.at, e.end, e.throws, limit);
      FireRunsLastCall(s, e, limit);
    }
  }

  lemma {:induction false} RunSound(start: int, events: seq<Event>, limit: int)
    ensures Sound(Run(start, events, limit), limit)
    decreases |events|
  {
    if events != [] {
      RunSound(start, events[..|events| - 1], limit);
      StepSound(Run(start, events[..|events| - 1], limit), events[|events| - 1], limit);
    }
  }

  /** Call number `n` has not been run and no timer holds it. */
  predicate Gone(s: State, n: nat) {
    && n < s.calls
    && (forall i :: 0 <= i < |s.runs| ==> s.runs[i].call != n)
    && forall id :: id in s.live ==> s.live[id].call != n
  }

  lemma {:induction false} StaysGone(start: int, events: seq<Event>, more: seq<Event>, n: nat, limit: int)
    requires Gone(Run(start, events, limit), n)
    ensures Gone(Run(start, events + more, limit), n)
    decreases |more|
  {
    if more == [] {
      assert events + more == events;
    } else {
      StaysGone(start, events, more[..|more| - 1], n, limit);
      RunSnoc(start, events + more[..|more| - 1], more[|more| - 1], limit);
      assert events + more[..|more| - 1] + [more[|more| - 1]] == events + more;
    }
  }

  /** A timer that fires early drops its call for good: no continuation runs it. */
  lemma EarlyTimerDropsLastCall(start: int, events: seq<Event>, e: Event, more: seq<Event>, limit: int)
    requires Deliverable(Run(start, events, limit), e) && !OnTime(Run(start, events, limit), e)
    ensures
      var runs := Run(start, events + [e] + more, limit).runs;
      forall i :: 0 <= i < |runs| ==> runs[i].call != Run(start, events, limit).calls - 1
  {
    var s := Run(start, events, limit);
    RunSound(start, events, limit);
    FireRunsLastCall(s, e, limit);
    RunSnoc(start, events, e, limit);
    assert s.live != map[];
    StaysGone(start, events + [e], more, s.calls - 1, limit);
  }

  lemma RunSnoc(start: int, events: seq<Event>, e: Event, limit: int)
    ensures Run(start, events + [e], limit) == Step(Run(start, events, limit), e, limit)
  {}

  /** Such a run: nothing is pending, and the second call never ran. */
  lemma DroppedCall(limit: int)
    requires limit > 1
    ensures
      var s := Run(0, [Call(0, 0, false), Call(1, 1, false), Fire(0, limit - 1, limit - 1, false)], limit);
      s.live == map[] && s.calls == 2 && s.runs == [FuncRun(0, 0, 0, true)]
  {
    var e0, e1, e2 := Call(0, 0, false), Call(1, 1, false), Fire(0, limit - 1, limit - 1, false);
    RunSnoc(0, [], e0, limit);
    assert [] + [e0] == [e0];
    RunSnoc(0, [e0], e1, limit);
    RunSnoc(0, [e0] + [e1], e2, limit);
    assert [e0] + [e1] + [e2] == [e0, e1, e2];
    var s1 := Run(0, [e0] + [e1], limit);
    assert s1.live == map[0 := Timer(1, limit)];
    assert s1.live - {0} == map[];
  }

  // ----- runs that throw

  lemma {:induction false} RunsGrow(start: int, events: seq<Event>, more: seq<Event>, limit: int)
    ensures Run(start, events, limit).runs <= Run(start, events + more, limit).runs
    decreases |more|
  {
    if more == [] {
      assert events + more == events;
    } else {
      RunsGrow(start, events, more[..|more| - 1], limit);
      RunSnoc(start, events + more[..|more| - 1], more[|more| - 1], limit);
      assert events + more[..|more| - 1] + [more[|more| - 1]] == events + more;
    }
  }

  /** In every continuation `func` starts again only `limit` after the end of the last run so far. */
  ghost predicate KeepsLimit(start: int, events: seq<Event>, limit: int)
    requires Run(start, events, limit).runs != []
  {
    var runs := Run(start, events, limit).runs;
    forall more, j :: |runs| <= j < |Run(start, events + more, limit).runs| ==>
      Run(start, events + more, limit).runs[j].start >= runs[|runs| - 1].end + limit
  }

  /** After a run that throws, a call can run `func` at the same instant, at once or by a timer due at once. */
  lemma RunsAtOnce(s: State, limit: int) returns (more: seq<Event>)
    requires OneTimer(s) && (s.lastRan.Some? ==> s.now >= s.lastRan.value + limit)
    ensures 1 <= |more| <= 2
    ensures
      var s1 := Step(s, more[0], limit);
      var s2 := if |more| == 2 then Step(s1, more[1], limit) else s1;
      |s2.runs| == |s.runs| + 1 && s2.runs[|s.runs|].start == s.now
  {
    var call := Call(s.now, s.now, false);
    more := if s.lastRan.None? then [call] else [call, Fire(s.nextTimer, s.now, s.now, false)];
  }

  /**
   * After an event that ran `func`, every continuation keeps the limit from the end of that run
   * exactly when the run completed; after one that throws, `func` can start again at once.
   */
  lemma OnlyCompletedRunsCount(start: int, events: seq<Event>, e: Event, limit: int)
    requires limit > 0
    requires |Run(start, events + [e], limit).runs| > |Run(start, events, limit).runs|
    ensures
      var runs := Run(start, events + [e], limit).runs;
      KeepsLimit(start, events + [e], limit) <==> runs[|runs| - 1].completed
  {
    var s, s' := Run(start, events, limit), Run(start, events + [e], limit);
    RunSnoc(start, events, e, limit);
    var last := s'.runs[|s'.runs| - 1];
    RunSound(start, events + [e], limit);
    if last.completed {
      forall more, j | |s'.runs| <= j < |Run(start, events + [e] + more, limit).runs|
        ensures Run(start, events + [e] + more, limit).runs[j].start >= last.end + limit
      {
        RunSound(start, events + [e] + more, limit);
        RunsGrow(start, events + [e], more, limit);
      }
    } else {
      RunSound(start, events, limit);
      assert last.end == s'.now;
      var more := RunsAtOnce(s', limit);
      RunSnoc(start, events + [e], more[0], limit);
      if |more| == 2 {
        RunSnoc(start, events + [e] + [more[0]], more[1], limit);
        assert events + [e] + [more[0]] + [more[1]] == events + [e] + more;
      } else {
        assert [more[0]] == more;
      }
      assert Run(start, events + [e] + more, limit).runs[|s'.runs|].start == s'.now;
      assert !KeepsLimit(start, events + [e], limit);
    }
  }

  /** A first call that throws is not remembered: the next call runs at once. */
  lemma ThrowingFirstCall(limit: int)
    requires limit > 0
    ensures
      var runs := Run(0, [Call(0, 0, true), Call(0, 0, false)], limit).runs;
      |runs| == 2 && runs[1].start == runs[0].end
  {}

  // ----- the closure

  /** The closure and the variables it captures. */
  class Throttled {
    var lastFunc: Option<nat>
    var lastRan: Option<int>
    var live: map<nat, Timer>
    var nextTimer: nat
    var now: int
    var calls: nat
    ghost var runs: seq<FuncRun>
    const limit: int

    constructor (limit: int, now: int)
      ensures Valid() && Contents() == Initial(now) && this.limit == limit
    {
      lastFunc, lastRan, live, nextTimer, calls, runs := None, None, map[], 0, 0, [];
      this.limit, this.now := limit, now;
    }

    ghost predicate Valid()
      reads this
    {
      Sound(Contents(), limit)
    }

    ghost function Contents(): State
      reads this
    {
      State(lastFunc, lastRan, live, nextTimer, now, calls, runs)
    }

    method Apply(call: nat, start: int, end: int, throws: bool)
      modifies this
      ensures Contents() == RunFunc(old(Contents()), call, start, end, throws)
    {
      runs := runs + [FuncRun(call, start, end, !throws)];
      now := end;
      if !throws { lastRan := Some(end); }
    }

    /** The call has run when the method returns, or a timer holds it. */
    method Invoke(at: int, end: int, throws: bool)
      requires Valid() && now <= at <= end
      modifies this
      ensures Valid() && Contents() == OnCall(old(Contents()), at, end, throws, limit)
      ensures live == map[] ==> LastCallRan(Contents())
    {
      hide Sound;
      hide LastCallRan;
      StepSound(Contents(), Call(at, end, throws), limit);
      calls := calls + 1;
      if lastRan.None? {
        Apply(calls - 1, at, end, throws);
      } else {
        now := at;
        if lastFunc.Some? {
          live := live - {lastFunc.value};
        }
        var delay := limit - (at - lastRan.value);
        live := live[nextTimer := Timer(calls - 1, if delay > 0 then at + delay else at)];
        lastFunc := Some(nextTimer);
        nextTimer := nextTimer + 1;
      }
    }

    /** The timer runs its call exactly when it does not fire early. */
    method OnTimer(id: nat, at: int, end: int, throws: bool)
      requires Valid() && now <= at <= end && id in live
      modifies this
      ensures Valid() && Contents() == OnFire(old(Contents()), id, at, end, throws, limit)
      ensures live == map[] && (LastCallRan(Contents()) <==> at >= old(live[id].due))
    {
      hide Sound;
      hide LastCallRan;
      StepSound(Contents(), Fire(id, at, end, throws), limit);
      var timer := live[id];
      live := live - {id};
      now := at;
      if lastRan.Some? && at - lastRan.value >= limit {
        Apply(timer.call, at, end, throws);
      }
    }
  }
}
