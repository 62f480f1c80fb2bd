/** The bridge's API token: login with retries, expiry, and one retry after a 401. */
module TokenProtocol {
  import opened Options

  /** What `decode_jwt_exp` makes of a token; it can also raise. */
  datatype Exp = NoExp | ExpAt(seconds: real) | DecodeRaises

  /** One login attempt as the network answers it. */
  datatype LoginAnswer =
    | Raises                                   // timeout, connection error, unreadable body
    | Refused                                  // a status other than 200
    | Answer(token: Option<string>, exp: Exp, now: real, stampPrints: bool)

  datatype ApiAnswer = Status(code: int) | Throws

  datatype Config = Config(margin: real, fallbackTtl: real)

  datatype State = State(token: Option<string>, expiry: Option<real>)

  datatype Event = Login(answer: LoginAnswer) | Sleep(seconds: nat) | Request(token: Option<string>, status: ApiAnswer)

  datatype Outcome = NoResponse | Response(code: int) | Raised

  const MAX_RETRIES := 3
  const NO_TOKEN := State(None, None)

  predicate Truthy(token: Option<string>) {
    token.Some? && token.value != ""
  }

  /** A stored expiry that Python counts as set: neither missing nor zero. */
  predicate ExpirySet(s: State) {
    s.expiry.Some? && s.expiry.value != 0.0
  }

  predicate HasToken(s: State) {
    Truthy(s.token)
  }

  function ExpiryOf(a: LoginAnswer, c: Config): real
    requires a.Answer?
  {
    if a.exp.ExpAt? && a.exp.seconds != 0.0 then a.exp.seconds - c.margin else a.now + c.fallbackTtl
  }

  /** The answer ends the login with success. */
  predicate Accepted(a: LoginAnswer) {
    a.Answer? && Truthy(a.token) && !a.exp.DecodeRaises? && a.stampPrints
  }

  /** The state after one answer: the token is stored first, the expiry only if `exp` could be read. */
  function Stored(s: State, a: LoginAnswer, c: Config): State {
    if !a.Answer? then s
    else if !Truthy(a.token) || a.exp.DecodeRaises? then s.(token := a.token)
    else State(a.token, Some(ExpiryOf(a, c)))
  }

  /** A failed attempt sleeps before the next one, except when the answer only lacked its token. */
  predicate SleepsAfter(a: LoginAnswer, attempt: nat) {
    attempt < MAX_RETRIES - 1 && !(a.Answer? && !Truthy(a.token))
  }

  type LoginScript = a: seq<LoginAnswer> | |a| == MAX_RETRIES witness [Raises, Raises, Raises]

  function AuthenticateFrom(s: State, answers: LoginScript, attempt: nat, delay: nat, c: Config): (State, seq<Event>, bool)
    requires attempt <= MAX_RETRIES
    decreases MAX_RETRIES - attempt
  {
    if attempt == MAX_RETRIES then (s, [], false)
    else
      var a := answers[attempt];
      var s' := Stored(s, a, c);
      if Accepted(a) then (s', [Login(a)], true)
      else
        var sleeps := SleepsAfter(a, attempt);
        var (end, events, ok) := AuthenticateFrom(s', answers, attempt + 1, if sleeps then delay * 2 else delay, c);
        (end, [Login(a)] + (if sleeps then [Sleep(delay)] else []) + events, ok)
  }

  ghost function Prepend(done: seq<Event>, r: (State, seq<Event>, bool)): (State, seq<Event>, bool) {
    (r.0, done + r.1, r.2)
  }

  /** One attempt of the loop, seen from what has been done before it. */
  lemma AttemptFails(done: seq<Event>, s: State, answers: LoginScript, attempt: nat, delay: nat, c: Config)
    requires attempt < MAX_RETRIES && !Accepted(answers[attempt])
    ensures
      var a := answers[attempt];
      var sleeps := SleepsAfter(a, attempt);
      Prepend(done, AuthenticateFrom(s, answers, attempt, delay, c)) ==
      Prepend(if sleeps then done + [Login(a)] + [Sleep(delay)] else done + [Login(a)],
              AuthenticateFrom(Stored(s, a, c), answers, attempt + 1, if sleeps then delay * 2 else delay, c))
  {
    var a := answers[attempt];
    var sleeps := SleepsAfter(a, attempt);
    var rest := AuthenticateFrom(Stored(s, a, c), answers, attempt + 1, if sleeps then delay * 2 else delay, c).1;
    assert done + ([Login(a)] + (if sleeps then [Sleep(delay)] else []) + rest)
      == (if sleeps then done + [Login(a)] + [Sleep(delay)] else done + [Login(a)]) + rest;
  }

  lemma AttemptEnds(done: seq<Event>, s: State, answers: LoginScript, attempt: nat, delay: nat, c: Config)
    requires attempt <= MAX_RETRIES
    ensures attempt == MAX_RETRIES ==> Prepend(done, AuthenticateFrom(s, answers, attempt, delay, c)) == (s, done, false)
    ensures attempt < MAX_RETRIES && Accepted(answers[attempt]) ==>
      Prepend(done, AuthenticateFrom(s, answers, attempt, delay, c))
      == (Stored(s, answers[attempt], c), done + [Login(answers[attempt])], true)
  {
    assert done + [] == done;
  }

  lemma PrependNothing(r: (State, seq<Event>, bool))
    ensures Prepend([], r) == r
  {
    assert [] + r.1 == r.1;
  }

  function Authenticate(s: State, answers: LoginScript, c: Config): (State, seq<Event>, bool) {
    AuthenticateFrom(s, answers, 0, 2, c)
  }

  function Ensure(s: State, now: real, answers: LoginScript, c: Config): (State, seq<Event>, bool) {
    if !HasToken(s) || (ExpirySet(s) && now >= s.expiry.value) then Authenticate(s, answers, c) else (s, [], true)
  }

  /** Everything the environment decides about one call of `api_request`. */
  datatype Script = Script(now: real, login: LoginScript, first: ApiAnswer, relogin: LoginScript, second: ApiAnswer)

  function OutcomeOf(a: ApiAnswer): Outcome {
    match a case Status(code) => Response(code) case Throws => Raised
  }

  function ApiRequest(s: State, x: Script, c: Config): (State, seq<Event>, Outcome) {
    var (s1, e1, ok1) := Ensure(s, x.now, x.login, c);
    if !ok1 then (s1, e1, NoResponse)
    else if x.first != Status(401) then (s1, e1 + [Request(s1.token, x.first)], OutcomeOf(x.first))
    else
      var (s2, e2, ok2) := Authenticate(NO_TOKEN, x.relogin, c);
      if !ok2 then (s2, e1 + [Request(s1.token, x.first)] + e2, Response(401))
      else (s2, e1 + [Request(s1.token, x.first)] + e2 + [Request(s2.token, x.second)], OutcomeOf(x.second))
  }
}
