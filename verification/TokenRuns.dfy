/** What every run of the token protocol keeps. */
module TokenRuns {
  import opened Options
  import opened TokenProtocol

  function Logins(events: seq<Event>): nat {
    if events == [] then 0 else (if events[0].Login? then 1 else 0) + Logins(events[1..])
  }

  function Requests(events: seq<Event>): nat {
    if events == [] then 0 else (if events[0].Request? then 1 else 0) + Requests(events[1..])
  }

  function Sleeps(events: seq<Event>): nat {
    if events == [] then 0 else (if events[0].Sleep? then 1 else 0) + Sleeps(events[1..])
  }

  function TotalSleep(events: seq<Event>): nat {
    if events == [] then 0 else (if events[0].Sleep? then events[0].seconds else 0) + TotalSleep(events[1..])
  }

  function Pow2(n: nat): nat {
    if n == 0 then 1 else 2 * Pow2(n - 1)
  }

  lemma {:induction false} Concat(a: seq<Event>, b: seq<Event>)
    ensures Logins(a + b) == Logins(a) + Logins(b)
    ensures Requests(a + b) == Requests(a) + Requests(b)
    ensures Sleeps(a + b) == Sleeps(a) + Sleeps(b)
    ensures TotalSleep(a + b) == TotalSleep(a) + TotalSleep(b)
  {
    if a == [] {
      assert a + b == b;
    } else {
      assert (a + b)[1..] == a[1..] + b;
      Concat(a[1..], b);
    }
  }

  lemma One(e: Event)
    ensures Logins([e]) == (if e.Login? then 1 else 0) && Requests([e]) == (if e.Request? then 1 else 0)
    ensures Sleeps([e]) == (if e.Sleep? then 1 else 0) && TotalSleep([e]) == if e.Sleep? then e.seconds else 0
  {}

  lemma Split(s: State, answers: LoginScript, attempt: nat, delay: nat, c: Config)
    requires attempt < MAX_RETRIES && !Accepted(answers[attempt])
    ensures
      var a := answers[attempt];
      var sleeps := SleepsAfter(a, attempt);
      var r := AuthenticateFrom(s, answers, attempt, delay, c).1;
      var rest := AuthenticateFrom(Stored(s, a, c), answers, attempt + 1, if sleeps then delay * 2 else delay, c).1;
      && Logins(r) == 1 + Logins(rest) && Requests(r) == Requests(rest)
      && Sleeps(r) == (if sleeps then 1 else 0) + Sleeps(rest)
      && TotalSleep(r) == (if sleeps then delay else 0) + TotalSleep(rest)
  {}

  /** Every pause doubles the one before it, and every pause is followed by another attempt. */
  lemma {:induction false} AuthenticateCounts(s: State, answers: LoginScript, attempt: nat, delay: nat, c: Config)
    requires attempt <= MAX_RETRIES
    ensures
      var events := AuthenticateFrom(s, answers, attempt, delay, c).1;
      && Requests(events) == 0
      && Logins(events) <= MAX_RETRIES - attempt
      && (attempt < MAX_RETRIES ==> Sleeps(events) < Logins(events))
      && (attempt == MAX_RETRIES ==> Sleeps(events) == 0)
      && TotalSleep(events) == delay * (Pow2(Sleeps(events)) - 1)
    decreases MAX_RETRIES - attempt
  {
    if attempt < MAX_RETRIES {
      var a := answers[attempt];
      if Accepted(a) {
        One(Login(a));
      } else {
        Split(s, answers, attempt, delay, c);
        var delay' := if SleepsAfter(a, attempt) then delay * 2 else delay;
        AuthenticateCounts(Stored(s, a, c), answers, attempt + 1, delay', c);
        Doubling(delay, Sleeps(AuthenticateFrom(Stored(s, a, c), answers, attempt + 1, delay', c).1));
      }
    }
  }

  lemma Doubling(delay: nat, n: nat)
    ensures delay + delay * 2 * (Pow2(n) - 1) == delay * (Pow2(n + 1) - 1)
  {}

  lemma {:induction false} Pow2Monotone(m: nat, n: nat)
    requires m <= n
    ensures Pow2(m) <= Pow2(n)
    decreases n
  {
    if m < n { Pow2Monotone(m, n - 1); }
  }

  /** One login sequence: at most three attempts, and for n of them at most 2^n - 2 seconds of sleep. */
  lemma LoginBounds(s: State, answers: LoginScript, c: Config)
    ensures
      var events := Authenticate(s, answers, c).1;
      && 1 <= Logins(events) <= 3 && Requests(events) == 0
      && TotalSleep(events) == Pow2(Sleeps(events) + 1) - 2 <= Pow2(Logins(events)) - 2
  {
    AuthenticateCounts(s, answers, 0, 2, c);
    var events := Authenticate(s, answers, c).1;
    Pow2Monotone(Sleeps(events) + 1, Logins(events));
  }

  // ----- the pauses of a login

  /** A body without a token, or with an empty one. */
  predicate NoTokenIn(a: LoginAnswer) {
    a.Answer? && (a.token == None || a.token == Some(""))
  }

  function NextIsSleep(events: seq<Event>, i: nat): bool {
    i + 1 < |events| && events[i + 1].Sleep?
  }

  /**
   * What stands at place `i` of a login whose first attempt has number `attempt` and whose next pause lasts
   * `delay` seconds: the logins take the answers in order; a pause follows an attempt exactly when another
   * attempt does and the answer was not a body without a token; each pause doubles the one before.
   */
  predicate PacedAt(events: seq<Event>, answers: LoginScript, attempt: nat, delay: nat, i: nat)
    requires i < |events|
  {
    var k, j := attempt + Logins(events[..i]), Sleeps(events[..i]);
    match events[i]
    case Login(a) =>
      k < |answers| && a == answers[k]
      && (NextIsSleep(events, i) <==> attempt + Logins(events) > k + 1 && !NoTokenIn(a))
    case Sleep(seconds) => i > 0 && events[i - 1].Login? && seconds == delay * Pow2(j)
    case Request(_, _) => false
  }

  predicate Paced(events: seq<Event>, answers: LoginScript, attempt: nat, delay: nat) {
    forall i :: 0 <= i < |events| ==> PacedAt(events, answers, attempt, delay, i)
  }

  /** The events before place `i` of a login that begins with `head`. */
  lemma CountsAfter(head: seq<Event>, rest: seq<Event>, i: nat)
    requires i <= |rest|
    ensures
      var before := (head + rest)[..|head| + i];
      Logins(before) == Logins(head) + Logins(rest[..i]) && Sleeps(before) == Sleeps(head) + Sleeps(rest[..i])
  {
    assert (head + rest)[..|head| + i] == head + rest[..i];
    Concat(head, rest[..i]);
  }

  function Head(a: LoginAnswer, pause: Option<nat>): seq<Event> {
    match pause
    case None => [Login(a)]
    case Some(delay) => [Login(a), Sleep(delay)]
  }

  lemma HeadCounts(a: LoginAnswer, pause: Option<nat>)
    ensures Logins(Head(a, pause)) == 1 && Sleeps(Head(a, pause)) == if pause.Some? then 1 else 0
    ensures pause.Some? ==> Head(a, pause)[..1] == [Login(a)]
    ensures Logins([]) == 0 && Sleeps([]) == 0 && Logins([Login(a)]) == 1 && Sleeps([Login(a)]) == 0
  {
    One(Login(a));
    if pause.Some? {
      One(Sleep(pause.value));
      Concat([Login(a)], [Sleep(pause.value)]);
      assert [Login(a)] + [Sleep(pause.value)] == Head(a, pause);
    }
  }

  lemma PacedInHead(a: LoginAnswer, pause: Option<nat>, rest: seq<Event>, answers: LoginScript, attempt: nat, delay: nat, i: nat)
    requires attempt < MAX_RETRIES && a == answers[attempt] && i < |Head(a, pause)|
    requires pause == if rest != [] && !NoTokenIn(a) then Some(delay) else None
    requires (rest != [] ==> rest[0].Login?) && (rest != [] <==> Logins(rest) > 0)
    ensures PacedAt(Head(a, pause) + rest, answers, attempt, delay, i)
  {
    hide NoTokenIn;
    hide Logins;
    hide Sleeps;
    var events := Head(a, pause) + rest;
    HeadCounts(a, pause);
    Concat(Head(a, pause), rest);
    hide Head;
    HeadStart(a, pause, rest);
    if i == 1 { assert Pow2(0) == 1 && delay * 1 == delay; }
  }

  lemma HeadStart(a: LoginAnswer, pause: Option<nat>, rest: seq<Event>)
    requires rest != [] ==> rest[0].Login?
    ensures
      var events := Head(a, pause) + rest;
      && |Head(a, pause)| == (if pause.Some? then 2 else 1)
      && events[..0] == [] && events[0] == Login(a) && (NextIsSleep(events, 0) <==> pause.Some?)
      && (pause.Some? ==> events[..1] == [Login(a)] && events[1] == Sleep(pause.value))
  {}

  lemma PacedInRest(a: LoginAnswer, pause: Option<nat>, rest: seq<Event>, answers: LoginScript, attempt: nat, delay: nat, n: nat)
    requires n < |rest| && rest[0].Login?
    requires PacedAt(rest, answers, attempt + 1, if pause.Some? then delay * 2 else delay, n)
    ensures PacedAt(Head(a, pause) + rest, answers, attempt, delay, |Head(a, pause)| + n)
  {
    hide NoTokenIn;
    hide Logins;
    hide Sleeps;
    var head := Head(a, pause);
    var events := head + rest;
    HeadCounts(a, pause);
    CountsAfter(head, rest, n);
    Concat(head, rest);
    var j := Sleeps(rest[..n]);
    assert events[|head| + n] == rest[n] && (n > 0 ==> events[|head| + n - 1] == rest[n - 1]);
    assert NextIsSleep(events, |head| + n) == NextIsSleep(rest, n);
    assert delay * Pow2(j + 1) == delay * 2 * Pow2(j) by { Double(delay, j); }
  }

  lemma Double(delay: nat, j: nat)
    ensures delay * Pow2(j + 1) == delay * 2 * Pow2(j)
  {}

  lemma PacedFails(a: LoginAnswer, rest: seq<Event>, answers: LoginScript, attempt: nat, delay: nat)
    requires attempt < MAX_RETRIES && a == answers[attempt]
    requires (rest != [] ==> rest[0].Login?) && (rest != [] <==> attempt + 1 < MAX_RETRIES) && (rest != [] <==> Logins(rest) > 0)
    requires Paced(rest, answers, attempt + 1, if SleepsAfter(a, attempt) then delay * 2 else delay)
    ensures Paced([Login(a)] + (if SleepsAfter(a, attempt) then [Sleep(delay)] else []) + rest, answers, attempt, delay)
  {
    hide PacedAt;
    hide Logins;
    var pause := if SleepsAfter(a, attempt) then Some(delay) else None;
    var head := Head(a, pause);
    assert [Login(a)] + (if SleepsAfter(a, attempt) then [Sleep(delay)] else []) == head;
    forall i | 0 <= i < |head + rest| ensures PacedAt(head + rest, answers, attempt, delay, i) {
      if i < |head| { PacedInHead(a, pause, rest, answers, attempt, delay, i); }
      else { PacedInRest(a, pause, rest, answers, attempt, delay, i - |head|); }
    }
  }

  lemma {:induction false} AuthenticatePaced(s: State, answers: LoginScript, attempt: nat, delay: nat, c: Config)
    requires attempt <= MAX_RETRIES
    ensures Paced(AuthenticateFrom(s, answers, attempt, delay, c).1, answers, attempt, delay)
    decreases MAX_RETRIES - attempt
  {
    if attempt < MAX_RETRIES {
      var a := answers[attempt];
      if Accepted(a) {
        One(Login(a));
        assert [Login(a)][..0] == [];
        assert PacedAt([Login(a)], answers, attempt, delay, 0);
      } else {
        var delay' := if SleepsAfter(a, attempt) then delay * 2 else delay;
        AuthenticatePaced(Stored(s, a, c), answers, attempt + 1, delay', c);
        var rest := AuthenticateFrom(Stored(s, a, c), answers, attempt + 1, delay', c).1;
        AuthenticateCounts(Stored(s, a, c), answers, attempt + 1, delay', c);
        PacedFails(a, rest, answers, attempt, delay);
      }
    }
  }

  /** The pauses of a login: 2 seconds, then 4, each after a failed attempt that another one follows. */
  lemma LoginPaced(s: State, answers: LoginScript, c: Config)
    ensures Paced(Authenticate(s, answers, c).1, answers, 0, 2)
    ensures answers == [Raises, Raises, Raises] ==>
      Authenticate(s, answers, c).1 == [Login(Raises), Sleep(2), Login(Raises), Sleep(4), Login(Raises)]
  {
    AuthenticatePaced(s, answers, 0, 2, c);
  }

  // ----- what a login leaves

  /** The answer brings a token, its expiry can be read, and the log line that shows it printed. */
  predicate Sufficient(a: LoginAnswer) {
    a.Answer? && !NoTokenIn(a) && !a.exp.DecodeRaises? && a.stampPrints
  }

  /** A login succeeds exactly when one of its three answers is sufficient. */
  lemma LoginSucceedsWhen(s: State, answers: LoginScript, c: Config)
    ensures Authenticate(s, answers, c).2 <==> exists k :: 0 <= k < 3 && Sufficient(answers[k])
  {
    LoginResult(s, answers, 0, 2, c);
    if k :| 0 <= k < 3 && Sufficient(answers[k]) {
      assert Accepted(answers[k]);
    }
  }

  /** The expiry of a token: its `exp` less the margin, or the clock plus the fallback when it has none or zero. */
  lemma ExpiryStored(s: State, answers: LoginScript, token: string, exp: Exp, now: real, c: Config)
    requires token != "" && !exp.DecodeRaises? && answers[0] == Answer(Some(token), exp, now, true)
    ensures
      Authenticate(s, answers, c) ==
      (State(Some(token),
             Some(match exp
                  case ExpAt(seconds) => if seconds != 0.0 then seconds - c.margin else now + c.fallbackTtl
                  case _ => now + c.fallbackTtl)),
       [Login(answers[0])], true)
  {}

  /** A login stops at the first accepted answer, and then holds that answer's token and expiry. */
  lemma {:induction false} LoginResult(s: State, answers: LoginScript, attempt: nat, delay: nat, c: Config)
    requires attempt <= MAX_RETRIES
    ensures
      var (s', events, ok) := AuthenticateFrom(s, answers, attempt, delay, c);
      var n := attempt + Logins(events);
      && n <= MAX_RETRIES
      && (ok ==> n > attempt && Accepted(answers[n - 1]) && events != [] && events[|events| - 1] == Login(answers[n - 1])
                 && s' == State(answers[n - 1].token, Some(ExpiryOf(answers[n - 1], c))))
      && (!ok ==> n == MAX_RETRIES)
      && (forall k :: attempt <= k < n && (ok ==> k < n - 1) ==> !Accepted(answers[k]))
    decreases MAX_RETRIES - attempt
  {
    hide Logins;
    hide Sleeps;
    hide Requests;
    hide TotalSleep;
    AuthenticateCounts(s, answers, attempt, delay, c);
    if attempt < MAX_RETRIES {
      var a := answers[attempt];
      if Accepted(a) {
        One(Login(a));
      } else {
        Split(s, answers, attempt, delay, c);
        LoginResult(Stored(s, a, c), answers, attempt + 1, if SleepsAfter(a, attempt) then delay * 2 else delay, c);
      }
    }
  }

  lemma LoginHolds(s: State, answers: LoginScript, c: Config)
    ensures var (s', _, ok) := Authenticate(s, answers, c); ok ==> HasToken(s') && s'.expiry.Some?
  {
    LoginResult(s, answers, 0, 2, c);
  }

  /** The parts of one `api_request`, in order; `first` and `second` hold at most one request each. */
  datatype Call = Call(login: seq<Event>, first: seq<Event>, relogin: seq<Event>, second: seq<Event>) {
    function Events(): seq<Event> { login + first + relogin + second }
  }

  predicate EndsInLogin(events: seq<Event>, token: Option<string>) {
    events != [] && events[|events| - 1].Login? &&
    Accepted(events[|events| - 1].answer) && events[|events| - 1].answer.token == token
  }

  predicate OneRequest(events: seq<Event>, status: ApiAnswer) {
    |events| == 1 && events[0].Request? && Truthy(events[0].token) && events[0].status == status
  }

  predicate LoginOnly(events: seq<Event>) {
    Requests(events) == 0 && Logins(events) <= MAX_RETRIES
  }

  /** What may follow what, and what the caller is told. */
  predicate Shaped(call: Call, x: Script, outcome: Outcome) {
    && LoginOnly(call.login) && LoginOnly(call.relogin)
    && (call.first == [] <==> outcome == NoResponse)
    && (call.first == [] ==> call.relogin == [] && call.second == [])
    && (call.first != [] ==> OneRequest(call.first, x.first))
    && (call.relogin != [] <==> call.first != [] && x.first == Status(401))
    && (call.second != [] ==> OneRequest(call.second, x.second) && EndsInLogin(call.relogin, call.second[0].token))
    && (call.second != [] ==> outcome == OutcomeOf(x.second))
    && (call.first != [] && call.second == [] ==> outcome == OutcomeOf(x.first))
  }

  lemma ShapedBounds(call: Call, x: Script, outcome: Outcome)
    requires Shaped(call, x, outcome)
    ensures Requests(call.Events()) <= 2 && Logins(call.Events()) <= 2 * MAX_RETRIES
  {
    Concat(call.login + call.first + call.relogin, call.second);
    Concat(call.login + call.first, call.relogin);
    Concat(call.login, call.first);
    if call.first != [] { One(call.first[0]); assert call.first == [call.first[0]]; }
    if call.second != [] { One(call.second[0]); assert call.second == [call.second[0]]; }
  }

  lemma EnsureLoginOnly(s: State, x: Script, c: Config)
    ensures LoginOnly(Ensure(s, x.now, x.login, c).1)
    ensures Ensure(s, x.now, x.login, c).2 ==> HasToken(Ensure(s, x.now, x.login, c).0)
  {
    hide AuthenticateFrom;
    hide TotalSleep;
    hide Pow2;
    LoginBounds(s, x.login, c);
    LoginResult(s, x.login, 0, 2, c);
  }

  lemma ReloginShape(x: Script, c: Config)
    ensures
      var (s', events, ok) := Authenticate(NO_TOKEN, x.relogin, c);
      LoginOnly(events) && events != [] && (ok ==> EndsInLogin(events, s'.token) && HasToken(s'))
  {
    LoginBounds(NO_TOKEN, x.relogin, c);
    LoginResult(NO_TOKEN, x.relogin, 0, 2, c);
  }

  /**
   * One `api_request`: at most two requests and six logins; a second request follows only a 401
   * and a successful login, and carries the token that login brought.
   */
  lemma ApiRequestBounds(s: State, x: Script, c: Config) returns (call: Call)
    ensures ApiRequest(s, x, c).1 == call.Events() && Shaped(call, x, ApiRequest(s, x, c).2)
    ensures Requests(ApiRequest(s, x, c).1) <= 2 && Logins(ApiRequest(s, x, c).1) <= 6
  {
    EnsureLoginOnly(s, x, c);
    ReloginShape(x, c);
    var (s1, e1, ok1) := Ensure(s, x.now, x.login, c);
    var (s2, e2, ok2) := Authenticate(NO_TOKEN, x.relogin, c);
    if !ok1 {
      call := Call(e1, [], [], []);
    } else if x.first != Status(401) {
      call := Call(e1, [Request(s1.token, x.first)], [], []);
    } else if !ok2 {
      call := Call(e1, [Request(s1.token, x.first)], e2, []);
    } else {
      call := Call(e1, [Request(s1.token, x.first)], e2, [Request(s2.token, x.second)]);
    }
    ShapedBounds(call, x, ApiRequest(s, x, c).2);
  }

  // ----- where the stored token and expiry come from

  /** The answer of the last login that brought a body. */
  function LastAnswer(log: seq<Event>): Option<LoginAnswer>
    decreases |log|
  {
    if log == [] then None
    else
      var e := log[|log| - 1];
      if e.Login? && e.answer.Answer? then Some(e.answer) else LastAnswer(log[..|log| - 1])
  }

  /** The expiry an answer gives its own token; none when reading `exp` raises. */
  function OwnExpiry(a: LoginAnswer, c: Config): Option<real>
    requires a.Answer?
  {
    if a.exp.DecodeRaises? then None else Some(ExpiryOf(a, c))
  }

  /** The expiry was stored for some answer of the log. */
  ghost predicate Given(expiry: Option<real>, log: seq<Event>, c: Config) {
    expiry.Some? ==> exists a :: Login(a) in log && a.Answer? && Truthy(a.token) && OwnExpiry(a, c) == expiry
  }

  /** A stored token is that of the last answer, with that answer's own expiry unless reading it raised. */
  ghost predicate Owned(s: State, log: seq<Event>, c: Config) {
    && Given(s.expiry, log, c)
    && (HasToken(s) ==>
          && LastAnswer(log).Some?
          && LastAnswer(log).value.Answer?
          && s.token == LastAnswer(log).value.token
          && (!LastAnswer(log).value.exp.DecodeRaises? ==> s.expiry == OwnExpiry(LastAnswer(log).value, c)))
  }

  lemma LastAnswerSnoc(log: seq<Event>, e: Event)
    ensures LastAnswer(log + [e]) == if e.Login? && e.answer.Answer? then Some(e.answer) else LastAnswer(log)
  {
    assert (log + [e])[..|log|] == log;
  }

  lemma GivenMore(expiry: Option<real>, log: seq<Event>, more: seq<Event>, c: Config)
    requires Given(expiry, log, c)
    ensures Given(expiry, log + more, c)
  {
    if expiry.Some? {
      var a :| Login(a) in log && a.Answer? && Truthy(a.token) && OwnExpiry(a, c) == expiry;
      assert Login(a) in log + more;
    }
  }

  /** A sleep or a request changes nothing that is owned. */
  lemma QuietOwned(s: State, log: seq<Event>, e: Event, c: Config)
    requires Owned(s, log, c) && !e.Login?
    ensures Owned(s, log + [e], c)
  {
    LastAnswerSnoc(log, e);
    GivenMore(s.expiry, log, [e], c);
  }

  lemma StoredOwned(s: State, a: LoginAnswer, log: seq<Event>, c: Config)
    requires Owned(s, log, c)
    ensures Owned(Stored(s, a, c), log + [Login(a)], c)
  {
    LastAnswerSnoc(log, Login(a));
    GivenMore(s.expiry, log, [Login(a)], c);
    assert Login(a) in log + [Login(a)];
  }

  lemma {:induction false} AuthenticateOwned(s: State, answers: LoginScript, attempt: nat, delay: nat, log: seq<Event>, c: Config)
    requires attempt <= MAX_RETRIES && Owned(s, log, c)
    ensures
      var (s', events, _) := AuthenticateFrom(s, answers, attempt, delay, c);
      Owned(s', log + events, c)
    decreases MAX_RETRIES - attempt
  {
    hide Owned;
    if attempt == MAX_RETRIES {
      assert log + [] == log;
    } else {
      var a := answers[attempt];
      StoredOwned(s, a, log, c);
      if !Accepted(a) {
        var sleeps := SleepsAfter(a, attempt);
        var log' := if sleeps then log + [Login(a)] + [Sleep(delay)] else log + [Login(a)];
        if sleeps { QuietOwned(Stored(s, a, c), log + [Login(a)], Sleep(delay), c); }
        AuthenticateOwned(Stored(s, a, c), answers, attempt + 1, if sleeps then delay * 2 else delay, log', c);
        AttemptFails(log, s, answers, attempt, delay, c);
      }
    }
  }

  lemma NothingOwned(log: seq<Event>, c: Config)
    ensures Owned(NO_TOKEN, log, c)
  {}

  lemma CallOwned(s: State, x: Script, log: seq<Event>, c: Config)
    requires Owned(s, log, c)
    ensures Owned(ApiRequest(s, x, c).0, log + ApiRequest(s, x, c).1, c)
  {
    hide Owned;
    hide AuthenticateFrom;
    var (s1, e1, ok1) := Ensure(s, x.now, x.login, c);
    AuthenticateOwned(s, x.login, 0, 2, log, c);
    assert log + [] == log;
    if ok1 {
      var r1 := Request(s1.token, x.first);
      QuietOwned(s1, log + e1, r1, c);
      assert log + e1 + [r1] == log + (e1 + [r1]);
      if x.first == Status(401) {
        var (s2, e2, ok2) := Authenticate(NO_TOKEN, x.relogin, c);
        NothingOwned(log + e1 + [r1], c);
        AuthenticateOwned(NO_TOKEN, x.relogin, 0, 2, log + e1 + [r1], c);
        assert log + e1 + [r1] + e2 == log + (e1 + [r1] + e2);
        if ok2 {
          var r2 := Request(s2.token, x.second);
          QuietOwned(s2, log + (e1 + [r1] + e2), r2, c);
          assert log + (e1 + [r1] + e2) + [r2] == log + (e1 + [r1] + e2 + [r2]);
        }
      }
    }
  }

  /** A run of calls from the state of a new bridge, with everything it did. */
  function Run(calls: seq<Script>, c: Config): (State, seq<Event>)
    decreases |calls|
  {
    if calls == [] then (NO_TOKEN, [])
    else
      var (s, log) := Run(calls[..|calls| - 1], c);
      var (s', events, _) := ApiRequest(s, calls[|calls| - 1], c);
      (s', log + events)
  }

  /** In every run, whatever the network answers, the stored token and expiry are owned. */
  lemma {:induction false} RunOwned(calls: seq<Script>, c: Config)
    ensures Owned(Run(calls, c).0, Run(calls, c).1, c)
    decreases |calls|
  {
    hide Owned;
    if calls == [] {
      NothingOwned([], c);
    } else {
      RunOwned(calls[..|calls| - 1], c);
      CallOwned(Run(calls[..|calls| - 1], c).0, calls[|calls| - 1], Run(calls[..|calls| - 1], c).1, c);
    }
  }

  // ----- requests without a login

  /** The call sends a request and makes no login. */
  predicate SendsAtOnce(s: State, x: Script, c: Config) {
    Logins(ApiRequest(s, x, c).1) == 0 && Requests(ApiRequest(s, x, c).1) > 0
  }

  lemma SendsAtOnceWhen(s: State, x: Script, c: Config)
    ensures SendsAtOnce(s, x, c) <==>
      HasToken(s) && (ExpirySet(s) ==> x.now < s.expiry.value) && x.first != Status(401)
    ensures SendsAtOnce(s, x, c) ==> ApiRequest(s, x, c).1 == [Request(s.token, x.first)]
  {
    var (s1, e1, ok1) := Ensure(s, x.now, x.login, c);
    var events := ApiRequest(s, x, c).1;
    if e1 == [] {
      One(Request(s1.token, x.first));
      assert [] + [Request(s1.token, x.first)] == [Request(s1.token, x.first)];
      var e2 := Authenticate(NO_TOKEN, x.relogin, c).1;
      LoginBounds(NO_TOKEN, x.relogin, c);
      Concat([Request(s1.token, x.first)], e2);
      Concat([Request(s1.token, x.first)] + e2, [Request(Authenticate(NO_TOKEN, x.relogin, c).0.token, x.second)]);
    }
    if Ensure(s, x.now, x.login, c) != (s, [], true) || !HasToken(s) {
      LoginBounds(s, x.login, c);
      Concat(e1, events[|e1|..]);
      assert events == e1 + events[|e1|..];
    }
  }

  /** Every call that sends its request without a login does so before the expiry of the token's own answer. */
  ghost predicate AlwaysFresh(s: State, a: LoginAnswer, c: Config)
    requires a.Answer?
  {
    forall x :: SendsAtOnce(s, x, c) ==> OwnExpiry(a, c).Some? && x.now < OwnExpiry(a, c).value
  }

  /**
   * After every run that holds a token, that token is the last answer's. All calls that send it without
   * a login do so before its own expiry exactly when reading its `exp` did not raise and gave no zero.
   */
  lemma FreshInEveryRun(calls: seq<Script>, c: Config)
    requires HasToken(Run(calls, c).0)
    ensures
      var (s, log) := Run(calls, c);
      && LastAnswer(log).Some? && LastAnswer(log).value.Answer?
      && s.token == LastAnswer(log).value.token
      && (AlwaysFresh(s, LastAnswer(log).value, c)
          <==> OwnExpiry(LastAnswer(log).value, c).Some? && OwnExpiry(LastAnswer(log).value, c) != Some(0.0))
  {
    var (s, log) := Run(calls, c);
    RunOwned(calls, c);
    var a := LastAnswer(log).value;
    if OwnExpiry(a, c).Some? && OwnExpiry(a, c) != Some(0.0) {
      forall x | SendsAtOnce(s, x, c) ensures x.now < OwnExpiry(a, c).value { SendsAtOnceWhen(s, x, c); }
    } else {
      var x := StaleCall(s, c);
      assert !AlwaysFresh(s, a, c);
    }
  }

  /** With any token some clock lets a request through; with an expiry of zero, a clock past it. */
  lemma StaleCall(s: State, c: Config) returns (x: Script)
    requires HasToken(s)
    ensures SendsAtOnce(s, x, c) && (!ExpirySet(s) ==> x.now >= 0.0)
  {
    var none: LoginScript := [Raises, Raises, Raises];
    x := Script(if ExpirySet(s) then s.expiry.value - 1.0 else 0.0, none, Status(200), none, Throws);
    SendsAtOnceWhen(s, x, c);
  }

  // ----- what goes wrong otherwise

  /** A token whose `exp` cannot be decoded stays with the expiry of the token before it. */
  lemma ForeignExpiry(t1: string, t2: string, exp: real, x: Script, c: Config)
    requires t1 != "" && t2 != "" && exp != 0.0
    requires x.login ==
      [Answer(Some(t1), ExpAt(exp), 0.0, false), Answer(Some(t2), DecodeRaises, 0.0, true), Raises]
    ensures
      var (s, _, outcome) := ApiRequest(NO_TOKEN, x, c);
      outcome == NoResponse && s == State(Some(t2), Some(exp - c.margin))
  {
    var s := State(Some(t2), Some(exp - c.margin));
    AuthenticateOnce(NO_TOKEN, x.login, 0, 2, c);
    AuthenticateOnce(Stored(NO_TOKEN, x.login[0], c), x.login, 1, 4, c);
    AuthenticateOnce(s, x.login, 2, 8, c);
  }

  lemma AuthenticateOnce(s: State, answers: LoginScript, attempt: nat, delay: nat, c: Config)
    requires attempt < MAX_RETRIES && !Accepted(answers[attempt])
    ensures
      var a := answers[attempt];
      var r := AuthenticateFrom(Stored(s, a, c), answers, attempt + 1, if SleepsAfter(a, attempt) then delay * 2 else delay, c);
      AuthenticateFrom(s, answers, attempt, delay, c).0 == r.0 && AuthenticateFrom(s, answers, attempt, delay, c).2 == r.2
  {}

  /**
   * A token whose `exp` cannot be decoded is kept although its login failed,
   * and the next call sends it without any expiry to check.
   */
  lemma UndecodableTokenIsUsed(token: string, x: Script, c: Config)
    requires token != "" && x.login == [Answer(Some(token), DecodeRaises, 0.0, true), Raises, Raises]
    ensures
      var (s, _, outcome) := ApiRequest(NO_TOKEN, x, c);
      && outcome == NoResponse && s == State(Some(token), None)
      && Ensure(s, x.now, x.login, c) == (s, [], true)
  {}

  /** An `exp` equal to the margin stores the expiry 0, which never counts as expired. */
  lemma ZeroExpiryNeverExpires(token: string, x: Script, later: Script, c: Config)
    requires token != "" && c.margin != 0.0
    requires x.login[0] == Answer(Some(token), ExpAt(c.margin), 0.0, true) && x.first == Status(200)
    ensures
      var s := ApiRequest(NO_TOKEN, x, c).0;
      Ensure(s, later.now, later.login, c) == (State(Some(token), Some(0.0)), [], true)
  {}
}
