/** The bridge as the object it is: a token and an expiry that its methods update. */
module TokenBridge {
  import opened Options
  import opened TokenProtocol
  import opened TokenRuns

  class Bridge {
    var apiToken: Option<string>
    var apiTokenExpiry: Option<real>
    const config: Config
    ghost var log: seq<Event>

    constructor (config: Config)
      ensures Valid() && Contents() == NO_TOKEN && this.config == config && log == []
    {
      apiToken, apiTokenExpiry, log := None, None, [];
      this.config := config;
    }

    /** A stored token is the last answer's, with that answer's own expiry unless reading it raised. */
    ghost predicate Valid()
      reads this
    {
      Owned(Contents(), log, config)
    }

    ghost function Contents(): State
      reads this
    {
      State(apiToken, apiTokenExpiry)
    }

    /** What one attempt does with its answer; true when the attempt failed. */
    method StoreAnswer(a: LoginAnswer) returns (failed: bool)
      modifies this`apiToken, this`apiTokenExpiry
      ensures Contents() == Stored(old(Contents()), a, config) && failed == !Accepted(a)
      ensures a.Answer? ==> apiToken == a.token
    {
      if !a.Answer? {
        return true;
      }
      apiToken := a.token;
      if !Truthy(apiToken) {
        return true;
      }
      if a.exp.DecodeRaises? {
        return true;
      }
      if a.exp.ExpAt? && a.exp.seconds != 0.0 {
        apiTokenExpiry := Some(a.exp.seconds - config.margin);
      } else {
        apiTokenExpiry := Some(a.now + config.fallbackTtl);
      }
      return !a.stampPrints;
    }

    /** True means that a token and an expiry are held. */
    method AuthenticateApi(answers: LoginScript) returns (ok: bool)
      requires Valid()
      modifies this
      ensures var r := Authenticate(old(Contents()), answers, config);
        Contents() == r.0 && log == old(log) + r.1 && ok == r.2
      ensures Valid()
      ensures ok ==> Truthy(apiToken) && apiTokenExpiry.Some?
    {
      hide Owned;
      LoginHolds(Contents(), answers, config);
      AuthenticateOwned(Contents(), answers, 0, 2, log, config);
      hide Stored;
      hide Accepted;
      hide AuthenticateFrom;
      hide Prepend;
      var retryDelay := 2;
      ghost var done: seq<Event> := [];
      ghost var whole := Prepend([], Authenticate(Contents(), answers, config));
      PrependNothing(Authenticate(Contents(), answers, config));
      for attempt := 0 to MAX_RETRIES
        invariant 0 <= retryDelay
        invariant log == old(log) + done
        invariant whole == Prepend(done, AuthenticateFrom(Contents(), answers, attempt, retryDelay, config))
      {
        var a := answers[attempt];
        AttemptEnds(done, Contents(), answers, attempt, retryDelay, config);
        if !Accepted(a) { AttemptFails(done, Contents(), answers, attempt, retryDelay, config); }
        log, done := log + [Login(a)], done + [Login(a)];
        var failed := StoreAnswer(a);
        if !failed {
          return true;
        }
        if a.Answer? && !Truthy(apiToken) {
          continue;
        }
        if attempt < MAX_RETRIES - 1 {
          log, done := log + [Sleep(retryDelay)], done + [Sleep(retryDelay)];
          retryDelay := retryDelay * 2;
        }
      }
      AttemptEnds(done, Contents(), answers, MAX_RETRIES, retryDelay, config);
      return false;
    }

    /** True means that a token is held, and that it was just brought or has not passed a set expiry. */
    method EnsureAuthenticated(now: real, answers: LoginScript) returns (ok: bool)
      requires Valid()
      modifies this
      ensures ok ==> Truthy(apiToken)
      ensures ok && log == old(log) ==> !ExpirySet(Contents()) || now < apiTokenExpiry.value
      ensures var r := Ensure(old(Contents()), now, answers, config);
        Contents() == r.0 && log == old(log) + r.1 && ok == r.2
      ensures Valid()
    {
      if !Truthy(apiToken) || (apiTokenExpiry.Some? && apiTokenExpiry.value != 0.0 && now >= apiTokenExpiry.value) {
        LoginBounds(Contents(), answers, config);
        ok := AuthenticateApi(answers);
        return;
      }
      assert log == old(log) + [];
      return true;
    }

    method ApiRequestCall(x: Script) returns (outcome: Outcome)
      requires Valid()
      modifies this
      ensures var r := ApiRequest(old(Contents()), x, config);
        Contents() == r.0 && log == old(log) + r.1 && outcome == r.2
      ensures Valid()
    {
      hide AuthenticateFrom;
      hide Owned;
      CallOwned(Contents(), x, log, config);
      var ok := EnsureAuthenticated(x.now, x.login);
      if !ok { return NoResponse; }
      ghost var e1 := Ensure(old(Contents()), x.now, x.login, config).1;
      for retry := 0 to 2
        invariant retry == 0 ==> Contents() == Ensure(old(Contents()), x.now, x.login, config).0 && log == old(log) + e1
        invariant retry > 0 ==> x.first == Status(401) && Authenticate(NO_TOKEN, x.relogin, config).2
        invariant retry == 1 ==> Contents() == Authenticate(NO_TOKEN, x.relogin, config).0
        invariant retry == 1 ==>
          log == old(log) + (e1 + [Request(Ensure(old(Contents()), x.now, x.login, config).0.token, x.first)]
                             + Authenticate(NO_TOKEN, x.relogin, config).1)
        invariant retry < 2
      {
        var answer := if retry == 0 then x.first else x.second;
        log := log + [Request(apiToken, answer)];
        if answer.Throws? { return Raised; }
        if answer.code == 401 && retry == 0 {
          apiToken := None;
          apiTokenExpiry := None;
          NothingOwned(log, config);
          ok := AuthenticateApi(x.relogin);
          if !ok { return Response(answer.code); }
          continue;
        }
        return Response(answer.code);
      }
      assert false;
    }
  }
}
