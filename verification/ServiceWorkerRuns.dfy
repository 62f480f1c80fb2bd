/** What every interleaving of the service worker's handlers keeps. */
module ServiceWorkerRuns {
  import opened Options
  import opened Text
  import opened ServiceWorker

  /** Where an entry may be stored: by its strategy, or as one of the two install assets. */
  predicate Belongs(name: string, url: Url, s: State) {
    var strategy := GetCachingStrategy(url.pathname);
    && (name == CACHE_NAME ==> strategy == CacheFirst || url == RootUrl(s) || url == IndexUrl(s))
    && (name == DYNAMIC_CACHE_NAME ==> strategy == NetworkFirst || strategy == StaleWhileRevalidate)
  }

  predicate Ours(name: string) {
    name == CACHE_NAME || name == DYNAMIC_CACHE_NAME
  }

  /** The network gave this ok response for this very request. */
  predicate Given(url: Url, r: Response, s: State) {
    r.ok && (url, r) in s.answers
  }

  predicate StoreOk(x: Store, s: State) {
    Ours(x.name) ==> forall url :: url in x.entries ==> Given(url, x.entries[url], s) && Belongs(x.name, url, s)
  }

  /** `store` is a cache object opened under `name`. */
  predicate IsStore(store: nat, name: string, s: State) {
    store < |s.stores| && s.stores[store].name == name
  }

  predicate NewAnswer(url: Url, r: Response, from: nat, s: State) {
    exists k :: from <= k < |s.answers| && s.answers[k] == (url, r)
  }

  predicate ReplyOk(x: Handler, s: State) {
    x.reply.Some? ==>
      match x.reply.value
      case FromNetwork(r) => NewAnswer(x.url, r, x.started, s)
      case FromCache(r) => Given(x.url, r, s) && x.strategy != NoCache && (x.strategy == NetworkFirst ==> x.netFailed)
      case Unavailable => x.netFailed && x.strategy != StaleWhileRevalidate
      case Rejected => x.netFailed && x.strategy == StaleWhileRevalidate
  }

  predicate HandlerOk(x: Handler, s: State) {
    && x.strategy == GetCachingStrategy(x.url.pathname)
    && x.started <= |s.answers|
    && (x.strategy == NoCache ==> x.phase == Fetching || x.phase == Done)
    && (x.strategy != NoCache && x.phase != Opening ==> IsStore(x.store, CacheOf(x.strategy), s))
    && (x.phase == FallingBack ==> x.strategy == NetworkFirst && x.netFailed)
    && (x.phase == Matching ==> x.strategy != NetworkFirst)
    && (x.phase == Done ==> x.reply.Some?)
    && (x.phase != Done && x.strategy != StaleWhileRevalidate ==> x.reply.None?)
    && ReplyOk(x, s)
  }

  predicate PutOk(x: Put, s: State) {
    var strategy := GetCachingStrategy(x.url.pathname);
    strategy != NoCache && IsStore(x.store, CacheOf(strategy), s) && Given(x.url, x.r, s)
  }

  predicate StoresOk(s: State) { forall i :: 0 <= i < |s.stores| ==> StoreOk(s.stores[i], s) }
  predicate HandlersOk(s: State) { forall i :: 0 <= i < |s.handlers| ==> HandlerOk(s.handlers[i], s) }
  predicate PutsOk(s: State) { forall i :: 0 <= i < |s.puts| ==> PutOk(s.puts[i], s) }
  predicate InstallsOk(s: State) { forall i :: 0 <= i < |s.installs| ==> IsStore(s.installs[i], CACHE_NAME, s) }
  predicate NamesOk(s: State) { forall name :: name in s.names ==> IsStore(s.names[name], name, s) }

  predicate Inv(s: State) {
    StoresOk(s) && HandlersOk(s) && PutsOk(s) && InstallsOk(s) && NamesOk(s)
  }

  // ----- what one state owes the next

  /** Caches keep their names, and what the network gave stays given. */
  predicate Grows(s: State, s': State) {
    && s'.origin == s.origin
    && s.answers <= s'.answers
    && |s.stores| <= |s'.stores|
    && forall i :: 0 <= i < |s.stores| ==> s'.stores[i].name == s.stores[i].name
  }

  lemma GivenGrows(url: Url, r: Response, s: State, s': State)
    requires Grows(s, s') && (url, r) in s.answers
    ensures (url, r) in s'.answers
  {
    var k :| 0 <= k < |s.answers| && s.answers[k] == (url, r);
    assert s'.answers[k] == (url, r);
  }

  lemma StoreGrows(x: Store, s: State, s': State)
    requires Grows(s, s') && StoreOk(x, s)
    ensures StoreOk(x, s')
  {
    if Ours(x.name) {
      forall url | url in x.entries ensures Given(url, x.entries[url], s') && Belongs(x.name, url, s') {
        GivenGrows(url, x.entries[url], s, s');
      }
    }
  }

  lemma HandlerGrows(x: Handler, s: State, s': State)
    requires Grows(s, s') && HandlerOk(x, s)
    ensures HandlerOk(x, s')
  {
    if x.reply.Some? {
      if x.reply.value.FromNetwork? {
        var k :| x.started <= k < |s.answers| && s.answers[k] == (x.url, x.reply.value.r);
        assert s'.answers[k] == (x.url, x.reply.value.r);
      } else if x.reply.value.FromCache? {
        GivenGrows(x.url, x.reply.value.r, s, s');
      }
    }
  }

  lemma PutGrows(x: Put, s: State, s': State)
    requires Grows(s, s') && PutOk(x, s)
    ensures PutOk(x, s')
  {
    GivenGrows(x.url, x.r, s, s');
  }

  /** The parts of the state that one step leaves alone stay in order. */
  lemma OthersGrow(s: State, s': State)
    requires Inv(s) && Grows(s, s')
    ensures s'.handlers == s.handlers ==> HandlersOk(s')
    ensures s'.puts == s.puts ==> PutsOk(s')
    ensures s'.installs == s.installs ==> InstallsOk(s')
    ensures s'.names == s.names ==> NamesOk(s')
    ensures s'.stores == s.stores ==> StoresOk(s')
  {
    forall i | 0 <= i < |s.handlers| ensures HandlerOk(s.handlers[i], s') { HandlerGrows(s.handlers[i], s, s'); }
    forall i | 0 <= i < |s.puts| ensures PutOk(s.puts[i], s') { PutGrows(s.puts[i], s, s'); }
    forall i | 0 <= i < |s.stores| ensures StoreOk(s.stores[i], s') { StoreGrows(s.stores[i], s, s'); }
  }

  lemma OpenCacheKeeps(s: State, name: string)
    requires Inv(s)
    ensures Inv(OpenCache(s, name)) && Grows(s, OpenCache(s, name))
    ensures IsStore(StoreOf(s, name), name, OpenCache(s, name))
  {
    var s' := OpenCache(s, name);
    OthersGrow(s, s');
    forall i | 0 <= i < |s'.stores| ensures StoreOk(s'.stores[i], s') {
      if i < |s.stores| { StoreGrows(s.stores[i], s, s'); }
    }
  }

  lemma SetHandlerKeeps(s: State, h: nat, x: Handler)
    requires Inv(s) && h < |s.handlers| && HandlerOk(x, s)
    ensures Inv(SetHandler(s, h, x))
  {
    var s' := SetHandler(s, h, x);
    OthersGrow(s, s');
    forall i | 0 <= i < |s'.handlers| ensures HandlerOk(s'.handlers[i], s') {
      HandlerGrows(if i == h then x else s.handlers[i], s, s');
    }
  }

  lemma PutEntryKeeps(s: State, store: nat, url: Url, r: Response)
    requires Inv(s) && store < |s.stores|
    requires Ours(s.stores[store].name) ==> Given(url, r, s) && Belongs(s.stores[store].name, url, s)
    ensures Inv(PutEntry(s, store, url, r)) && Grows(s, PutEntry(s, store, url, r))
  {
    var s' := PutEntry(s, store, url, r);
    OthersGrow(s, s');
    forall i | 0 <= i < |s'.stores| ensures StoreOk(s'.stores[i], s') {
      StoreGrows(s.stores[i], s, s');
    }
  }

  // ----- steps of a handler

  lemma StartKeeps(s: State, url: Url)
    requires Inv(s)
    ensures Inv(StartHandler(s, url))
  {
    var s' := StartHandler(s, url);
    OthersGrow(s, s');
    forall i | 0 <= i < |s'.handlers| ensures HandlerOk(s'.handlers[i], s') {
      if i < |s.handlers| { HandlerGrows(s.handlers[i], s, s'); }
    }
  }

  lemma AnswerLog(s: State, h: nat, r: Response) returns (s1: State)
    requires Inv(s) && h < |s.handlers|
    ensures s1 == s.(answers := s.answers + [(s.handlers[h].url, r)])
    ensures Inv(s1) && Grows(s, s1) && s1.answers[|s.answers|] == (s.handlers[h].url, r)
  {
    s1 := s.(answers := s.answers + [(s.handlers[h].url, r)]);
    OthersGrow(s, s1);
  }

  lemma AnsweredKeeps(s: State, h: nat, r: Response)
    requires Inv(s) && h < |s.handlers| && s.handlers[h].phase == Fetching
    ensures Inv(Answered(s, h, r))
  {
    var x := s.handlers[h];
    var s1 := AnswerLog(s, h, r);
    HandlerGrows(x, s, s1);
    var x' := x.(phase := Done, reply := if x.reply.Some? then x.reply else Some(FromNetwork(r)));
    assert NewAnswer(x.url, r, x.started, s1);
    SetHandlerKeeps(s1, h, x');
    var s2 := SetHandler(s1, h, x');
    var s3 := Answered(s, h, r);
    OthersGrow(s2, s3);
    forall i | 0 <= i < |s3.puts| ensures PutOk(s3.puts[i], s3) {
      if i < |s.puts| {
        PutGrows(s2.puts[i], s2, s3);
      } else {
        assert s3.answers[|s.answers|] == (x.url, r);
      }
    }
  }

  lemma FailedKeeps(s: State, h: nat)
    requires Inv(s) && h < |s.handlers| && s.handlers[h].phase == Fetching
    ensures Inv(Failed(s, h))
  {
    var x := s.handlers[h].(netFailed := true);
    assert HandlerOk(s.handlers[h], s);
    var x' :=
      match x.strategy
      case NetworkFirst => x.(phase := FallingBack)
      case StaleWhileRevalidate => x.(phase := Done, reply := if x.reply.Some? then x.reply else Some(Rejected))
      case _ => x.(phase := Done, reply := Some(Unavailable));
    assert HandlerOk(x', s);
    SetHandlerKeeps(s, h, x');
  }

  lemma MatchGiven(s: State, store: nat, name: string, url: Url)
    requires Inv(s) && IsStore(store, name, s) && Ours(name)
    ensures Match(s, store, url).Some? ==> Given(url, Match(s, store, url).value, s)
  {
    assert StoreOk(s.stores[store], s);
  }

  lemma OpeningKeeps(s: State, h: nat, net: Net)
    requires Inv(s) && h < |s.handlers| && s.handlers[h].phase == Opening
    ensures Inv(ProceedHandler(s, h, net))
  {
    var x := s.handlers[h];
    var name := CacheOf(x.strategy);
    OpenCacheKeeps(s, name);
    HandlerGrows(x, s, OpenCache(s, name));
    SetHandlerKeeps(OpenCache(s, name), h,
      x.(store := StoreOf(s, name), phase := if x.strategy == NetworkFirst then Fetching else Matching));
  }

  lemma MatchingKeeps(s: State, h: nat, net: Net)
    requires Inv(s) && h < |s.handlers| && (s.handlers[h].phase == Matching || s.handlers[h].phase == FallingBack)
    ensures Inv(ProceedHandler(s, h, net))
  {
    var x := s.handlers[h];
    assert HandlerOk(x, s);
    MatchGiven(s, x.store, CacheOf(x.strategy), x.url);
    var s' := ProceedHandler(s, h, net);
    assert HandlerOk(s'.handlers[h], s);
    SetHandlerKeeps(s, h, s'.handlers[h]);
  }

  lemma ProceedKeeps(s: State, h: nat, net: Net)
    requires Inv(s) && h < |s.handlers|
    ensures Inv(ProceedHandler(s, h, net))
  {
    match s.handlers[h].phase
    case Opening => OpeningKeeps(s, h, net);
    case Matching => MatchingKeeps(s, h, net);
    case FallingBack => MatchingKeeps(s, h, net);
    case Fetching => if net.NetAnswer? { AnsweredKeeps(s, h, net.r); } else { FailedKeeps(s, h); }
    case Done =>
  }

  // ----- other steps

  lemma PutEndsKeeps(s: State, k: nat, works: bool)
    requires Inv(s) && k < |s.puts|
    ensures Inv(Step(s, PutEnds(k, works)))
  {
    var x := s.puts[k];
    var s1 := s.(puts := Without(s.puts, k));
    OthersGrow(s, s1);
    assert PutsOk(s1) by {
      forall i | 0 <= i < |s1.puts| ensures PutOk(s1.puts[i], s1) {
        PutGrows(if i < k then s.puts[i] else s.puts[i + 1], s, s1);
      }
    }
    assert PutOk(x, s);
    if works { PutEntryKeeps(s1, x.store, x.url, x.r); }
  }

  lemma InstallEndsKeeps(s: State, store: nat, root: Response, index: Response)
    requires Inv(s) && IsStore(store, CACHE_NAME, s)
    ensures Inv(EndInstall(s, store, root, index))
  {
    var s1 := s.(answers := s.answers + [(RootUrl(s), root)] + [(IndexUrl(s), index)]);
    OthersGrow(s, s1);
    assert s1.answers[|s.answers|] == (RootUrl(s), root) && s1.answers[|s.answers| + 1] == (IndexUrl(s), index);
    if root.ok && index.ok {
      PutEntryKeeps(s1, store, RootUrl(s), root);
      PutEntryKeeps(PutEntry(s1, store, RootUrl(s), root), store, IndexUrl(s), index);
    }
  }

  lemma StepKeeps(s: State, e: Event)
    requires Inv(s)
    ensures Inv(Step(s, e))
  {
    match e
    case Fetch(_, url) => StartKeeps(s, url);
    case Proceed(h, net) => if h < |s.handlers| { ProceedKeeps(s, h, net); }
    case PutEnds(k, works) => if k < |s.puts| { PutEndsKeeps(s, k, works); }
    case InstallOpens =>
      OpenCacheKeeps(s, CACHE_NAME);
      OthersGrow(OpenCache(s, CACHE_NAME), Step(s, e));
    case InstallEnds(k, root, index) =>
      if k < |s.installs| {
        var s1 := s.(installs := Without(s.installs, k));
        OthersGrow(s, s1);
        assert InstallsOk(s1);
        InstallEndsKeeps(s1, s.installs[k], root, index);
      }
    case Activate => OthersGrow(s, Step(s, e));
    case Clear => OthersGrow(s, Step(s, e));
    case Delete(name) => OthersGrow(s, Step(s, e));
  }

  lemma {:induction false} RunKeeps(s: State, events: seq<Event>)
    requires Initial(s)
    ensures Inv(Run(s, events))
    decreases |events|
  {
    if events != [] {
      RunKeeps(s, events[..|events| - 1]);
      StepKeeps(Run(s, events[..|events| - 1]), events[|events| - 1]);
    }
  }

  // ----- what the caches hold

  /** The named cache as `caches.open` gives it. */
  function Entries(s: State, name: string): map<Url, Response> {
    if name in s.names && s.names[name] < |s.stores| then s.stores[s.names[name]].entries else map[]
  }

  predicate NeverStored(p: string) {
    EndsWith(p, "version.json") || EndsWith(p, "build-manifest.json") || EndsWith(p, ".map")
  }

  predicate FontOrImage(p: string) {
    || EndsWith(p, ".woff") || EndsWith(p, ".woff2") || EndsWith(p, ".ttf") || EndsWith(p, ".eot") || EndsWith(p, ".svg")
    || EndsWith(p, ".png") || EndsWith(p, ".jpg") || EndsWith(p, ".jpeg") || EndsWith(p, ".gif") || EndsWith(p, ".ico")
  }

  predicate CodeOrApi(p: string) {
    EndsWith(p, ".js") || EndsWith(p, ".css") || EndsWith(p, ".json") || Includes(p, "/api/")
  }

  /** The strategy of every path, by its ending: version files first, then fonts and images, then code and the API. */
  lemma StrategyBySuffix(p: string)
    ensures GetCachingStrategy(p) ==
      if NeverStored(p) then NoCache
      else if FontOrImage(p) then CacheFirst
      else if CodeOrApi(p) then NetworkFirst
      else StaleWhileRevalidate
  {
    hide EndsWith;
    hide Includes;
    NeverStoredSuffixes(p);
    FontSuffixes(p);
    CodeSuffixes(p);
  }

  lemma NeverStoredSuffixes(p: string)
    ensures EndsWithAny(p, NO_CACHE_SUFFIXES) <==> NeverStored(p)
  {
    hide EndsWith;
    var xs := NO_CACHE_SUFFIXES;
    assert xs[0] in xs && xs[1] in xs && xs[2] in xs;
  }

  lemma AnyOfTen(p: string, xs: seq<string>)
    requires |xs| == 10
    ensures EndsWithAny(p, xs) <==>
      || EndsWith(p, xs[0]) || EndsWith(p, xs[1]) || EndsWith(p, xs[2]) || EndsWith(p, xs[3]) || EndsWith(p, xs[4])
      || EndsWith(p, xs[5]) || EndsWith(p, xs[6]) || EndsWith(p, xs[7]) || EndsWith(p, xs[8]) || EndsWith(p, xs[9])
  {
    hide EndsWith;
  }

  lemma FontSuffixes(p: string)
    ensures EndsWithAny(p, CACHE_FIRST_SUFFIXES) <==> FontOrImage(p)
  {
    hide EndsWith;
    hide EndsWithAny;
    AnyOfTen(p, CACHE_FIRST_SUFFIXES);
  }

  lemma CodeSuffixes(p: string)
    ensures EndsWithAny(p, NETWORK_FIRST_SUFFIXES) || Includes(p, "/api/") <==> CodeOrApi(p)
  {
    hide EndsWith;
    hide Includes;
    var xs := NETWORK_FIRST_SUFFIXES;
    assert xs[0] in xs && xs[1] in xs && xs[2] in xs;
  }

  lemma AssetsRevalidate()
    ensures GetCachingStrategy("/") == StaleWhileRevalidate && GetCachingStrategy("/index.html") == StaleWhileRevalidate
  {
    hide Includes;
    hide EndsWithAny;
    var index := "/index.html";
    SuffixFree("/", '/');
    SuffixFree(index, 'l');
    Includes1("/api/");
    NotIncludes(index, "/api/");
  }

  lemma SuffixFree(s: string, last: char)
    requires s != "" && s[|s| - 1] == last && (last == 'l' || last == '/')
    ensures !EndsWithAny(s, NO_CACHE_SUFFIXES)
    ensures !EndsWithAny(s, CACHE_FIRST_SUFFIXES)
    ensures !EndsWithAny(s, NETWORK_FIRST_SUFFIXES)
  {
    hide EndsWith;
    forall x | x in NO_CACHE_SUFFIXES ensures !EndsWith(s, x) { LastOfSuffix(s, x); }
    forall x | x in CACHE_FIRST_SUFFIXES ensures !EndsWith(s, x) { LastOfSuffix(s, x); }
    forall x | x in NETWORK_FIRST_SUFFIXES ensures !EndsWith(s, x) { LastOfSuffix(s, x); }
  }

  lemma LastOfSuffix(s: string, suffix: string)
    requires suffix != ""
    ensures EndsWith(s, suffix) ==> s != "" && s[|s| - 1] == suffix[|suffix| - 1]
  {}

  lemma Includes1(part: string)
    requires |part| > 1
    ensures !Includes("/", part)
  {}

  /** A text with one slash, at its start, does not include a text with two. */
  lemma {:induction false} NotIncludes(s: string, part: string)
    requires |part| == 5 && part[0] == '/' && part[4] == '/'
    requires forall i :: 1 <= i < |s| ==> s[i] != '/'
    ensures !Includes(s, part)
  {
    assert |s| >= 5 ==> s[4] != part[4];
    if s != "" { NotIncludes(s[1..], part); }
  }

  /**
   * In every interleaving: a cached entry is an ok response the network gave for that same request, it
   * lies in the cache of its strategy or is one of the two install assets, and a no-cache path is never stored.
   */
  lemma CachedEntries(start: State, events: seq<Event>, name: string, url: Url)
    requires Initial(start) && Ours(name)
    requires url in Entries(Run(start, events), name)
    ensures
      var s := Run(start, events);
      && Given(url, Entries(s, name)[url], s) && Belongs(name, url, s)
      && GetCachingStrategy(url.pathname) != NoCache
  {
    RunKeeps(start, events);
    var s := Run(start, events);
    assert StoreOk(s.stores[s.names[name]], s);
    AssetsRevalidate();
  }

  /**
   * The same by endings: in the static cache everything but the two assets is a font or an image,
   * in the dynamic cache nothing is, and neither holds a version file or a map.
   */
  lemma CachedSuffixes(start: State, events: seq<Event>, url: Url)
    requires Initial(start)
    ensures
      var s := Run(start, events);
      && (url in Entries(s, "tesa-admin-ui-v1") ==>
            !NeverStored(url.pathname) && (FontOrImage(url.pathname) || url == RootUrl(s) || url == IndexUrl(s)))
      && (url in Entries(s, "tesa-admin-ui-dynamic-v1") ==> !NeverStored(url.pathname) && !FontOrImage(url.pathname))
  {
    hide Run;
    hide NeverStored;
    hide FontOrImage;
    StrategyBySuffix(url.pathname);
    var s := Run(start, events);
    if url in Entries(s, CACHE_NAME) { CachedEntries(start, events, CACHE_NAME, url); }
    if url in Entries(s, DYNAMIC_CACHE_NAME) { CachedEntries(start, events, DYNAMIC_CACHE_NAME, url); }
  }

  /** A request in both caches is one of the two install assets. */
  lemma CachesDisjoint(start: State, events: seq<Event>, url: Url)
    requires Initial(start)
    requires url in Entries(Run(start, events), CACHE_NAME) && url in Entries(Run(start, events), DYNAMIC_CACHE_NAME)
    ensures url == RootUrl(Run(start, events)) || url == IndexUrl(Run(start, events))
  {
    CachedEntries(start, events, CACHE_NAME, url);
    CachedEntries(start, events, DYNAMIC_CACHE_NAME, url);
  }

  lemma RunSnoc(start: State, events: seq<Event>, e: Event)
    ensures Run(start, events + [e]) == Step(Run(start, events), e)
  {
    assert (events + [e])[..|events|] == events;
  }

  const OK := Response(true, 0)

  /** The install steps of a worker that finds its cache absent. */
  lemma Installed(start: State)
    requires Initial(start)
    ensures
      var s := Run(start, [InstallOpens] + [InstallEnds(0, OK, OK)]);
      && s.handlers == [] && s.puts == [] && s.origin == start.origin
      && CACHE_NAME in s.names && s.names[CACHE_NAME] < |s.stores| && DYNAMIC_CACHE_NAME !in s.names
      && RootUrl(s) in Entries(s, CACHE_NAME) && IndexUrl(s) in Entries(s, CACHE_NAME)
  {
    RunSnoc(start, [], InstallOpens);
    assert [] + [InstallOpens] == [InstallOpens];
    RunSnoc(start, [InstallOpens], InstallEnds(0, OK, OK));
    var s1 := Run(start, [InstallOpens]);
    assert s1 == Step(start, InstallOpens);
    assert CACHE_NAME !in start.names && DYNAMIC_CACHE_NAME !in start.names;
    assert CACHE_NAME[14] != DYNAMIC_CACHE_NAME[14];
  }

  /** One request for an asset that the network answers, from a state without handlers and puts. */
  lemma Fetched(s: State, url: Url) returns (s': State)
    requires s.handlers == [] && s.puts == [] && DYNAMIC_CACHE_NAME !in s.names
    requires url.origin == s.origin && GetCachingStrategy(url.pathname) == StaleWhileRevalidate
    ensures
      var go := Proceed(0, NetAnswer(OK));
      s' == Step(Step(Step(Step(Step(s, Fetch(true, url)), go), go), go), PutEnds(0, true))
    ensures url in Entries(s', DYNAMIC_CACHE_NAME)
    ensures CACHE_NAME in s.names && s.names[CACHE_NAME] < |s.stores| ==> Entries(s', CACHE_NAME) == Entries(s, CACHE_NAME)
  {
    assert url.origin <= s.origin;
    var go := Proceed(0, NetAnswer(OK));
    var s1 := Step(s, Fetch(true, url));
    assert s1.handlers == [Handler(url, StaleWhileRevalidate, Opening, 0, None, |s.answers|, false)];
    var s2 := Step(s1, go);
    assert s2.stores == s.stores + [Store(DYNAMIC_CACHE_NAME, map[])] && s2.names == s.names[DYNAMIC_CACHE_NAME := |s.stores|];
    assert s2.handlers == [Handler(url, StaleWhileRevalidate, Matching, |s.stores|, None, |s.answers|, false)];
    var s3 := Step(s2, go);
    assert s3 == s2.(handlers := [Handler(url, StaleWhileRevalidate, Fetching, |s.stores|, None, |s.answers|, false)]);
    var s4 := Step(s3, go);
    assert s4.puts == [Put(|s.stores|, url, OK)] && s4.stores == s2.stores && s4.names == s2.names;
    s' := Step(s4, PutEnds(0, true));
    assert CACHE_NAME[14] != DYNAMIC_CACHE_NAME[14];
  }

  /** After `events` the request is in both caches. */
  predicate InBoth(s: State, url: Url) {
    url in Entries(s, CACHE_NAME) && url in Entries(s, DYNAMIC_CACHE_NAME)
  }

  lemma AssetInBoth(start: State, url: Url) returns (events: seq<Event>)
    requires Initial(start) && (url == RootUrl(start) || url == IndexUrl(start))
    ensures InBoth(Run(start, events), url)
  {
    var installed := [InstallOpens] + [InstallEnds(0, OK, OK)];
    var s := Run(start, installed);
    Installed(start);
    AssetsRevalidate();
    var go := Proceed(0, NetAnswer(OK));
    var s' := Fetched(s, url);
    RunSnoc(start, installed, Fetch(true, url));
    RunSnoc(start, installed + [Fetch(true, url)], go);
    RunSnoc(start, installed + [Fetch(true, url)] + [go], go);
    RunSnoc(start, installed + [Fetch(true, url)] + [go] + [go], go);
    RunSnoc(start, installed + [Fetch(true, url)] + [go] + [go] + [go], PutEnds(0, true));
    events := installed + [Fetch(true, url)] + [go] + [go] + [go] + [PutEnds(0, true)];
  }

  /** The requests that some run puts into both caches are exactly the two install assets. */
  lemma InBothCaches(start: State, url: Url)
    requires Initial(start)
    ensures (exists events :: InBoth(Run(start, events), url)) <==> url == RootUrl(start) || url == IndexUrl(start)
  {
    if events :| InBoth(Run(start, events), url) {
      CachesDisjoint(start, events, url);
      SameOrigin(start, events);
    }
    if url == RootUrl(start) || url == IndexUrl(start) {
      var events := AssetInBoth(start, url);
    }
  }

  lemma {:induction false} SameOrigin(start: State, events: seq<Event>)
    ensures Run(start, events).origin == start.origin
    decreases |events|
  {
    if events != [] { SameOrigin(start, events[..|events| - 1]); }
  }

  // ----- what each strategy answers

  /** A request and its handler's steps, with nothing in between. */
  function Serve(s: State, url: Url, net: Net): State {
    var go := Proceed(|s.handlers|, net);
    Step(Step(Step(Step(s, Fetch(true, url)), go), go), go)
  }

  /** What the cache of the strategy holds for the request. */
  function Cached(s: State, url: Url): Option<Response> {
    var name := if FontOrImage(url.pathname) then "tesa-admin-ui-v1" else "tesa-admin-ui-dynamic-v1";
    if url in Entries(s, name) then Some(Entries(s, name)[url]) else None
  }

  function NetworkOr(net: Net, otherwise: Reply): Reply {
    if net.NetAnswer? then FromNetwork(net.r) else otherwise
  }

  /**
   * Version files come from the network. Fonts and images come from the cache if they are there. Code and
   * the API come from the network, and from the cache when it fails. Anything else comes from the cache if
   * it is there, else from the network.
   */
  function Expected(s: State, url: Url, net: Net): Reply {
    var cached := Cached(s, url);
    if NeverStored(url.pathname) then NetworkOr(net, Unavailable)
    else if FontOrImage(url.pathname) then (if cached.Some? then FromCache(cached.value) else NetworkOr(net, Unavailable))
    else if CodeOrApi(url.pathname) then NetworkOr(net, if cached.Some? then FromCache(cached.value) else Unavailable)
    else if cached.Some? then FromCache(cached.value)
    else NetworkOr(net, Rejected)
  }

  /** The network is asked, and its answer is to be stored: ok, not for a version file, not for a font or image in the cache. */
  predicate Stores(s: State, url: Url, net: Net) {
    && net.NetAnswer? && net.r.ok && !NeverStored(url.pathname)
    && !(FontOrImage(url.pathname) && Cached(s, url).Some?)
  }

  predicate ServedAs(s: State, s': State, reply: Reply, stored: seq<Put>) {
    && |s'.handlers| == |s.handlers| + 1 && s'.handlers[..|s.handlers|] == s.handlers
    && s'.handlers[|s.handlers|].phase == Done && s'.handlers[|s.handlers|].reply == Some(reply)
    && s'.puts == s.puts + stored
  }

  /** The opened cache of a handler, and what it holds. */
  lemma OpenedHolds(s: State, name: string, url: Url)
    requires Inv(s)
    ensures Match(OpenCache(s, name), StoreOf(s, name), url) == if url in Entries(s, name) then Some(Entries(s, name)[url]) else None
    ensures name in s.names ==> OpenCache(s, name) == s
  {
    if name in s.names { assert IsStore(s.names[name], name, s); }
  }

  lemma ServesNoCache(s: State, url: Url, net: Net)
    requires Includes(url.origin, s.origin) && GetCachingStrategy(url.pathname) == NoCache
    ensures ServedAs(s, Serve(s, url, net), NetworkOr(net, Unavailable), [])
  {
    hide Includes;
    hide GetCachingStrategy;
  }

  /** The handler's first step opens its cache. */
  lemma Opens(s: State, url: Url, net: Net)
    requires Includes(url.origin, s.origin) && GetCachingStrategy(url.pathname) != NoCache
    ensures
      var strategy := GetCachingStrategy(url.pathname);
      var name := CacheOf(strategy);
      var phase := if strategy == NetworkFirst then Fetching else Matching;
      var x := Handler(url, strategy, phase, StoreOf(s, name), None, |s.answers|, false);
      Step(Step(s, Fetch(true, url)), Proceed(|s.handlers|, net)) == OpenCache(s, name).(handlers := s.handlers + [x])
  {
    hide Includes;
    hide GetCachingStrategy;
  }

  lemma TwoSteps(s: State, x: Handler, net: Net, cached: Option<Response>)
    requires s.handlers != [] && x == s.handlers[|s.handlers| - 1] && cached == Match(s, x.store, x.url) && x.reply == None
    requires x.strategy != NoCache && x.phase == if x.strategy == NetworkFirst then Fetching else Matching
    ensures
      var go := Proceed(|s.handlers| - 1, net);
      var asked := x.strategy != CacheFirst || cached.None?;
      var failed := if x.strategy == StaleWhileRevalidate then Rejected
                    else if x.strategy == NetworkFirst && cached.Some? then FromCache(cached.value) else Unavailable;
      var reply := if x.strategy != NetworkFirst && cached.Some? then FromCache(cached.value) else NetworkOr(net, failed);
      ServedAs(s.(handlers := s.handlers[..|s.handlers| - 1]), Step(Step(s, go), go), reply,
               if asked && net.NetAnswer? && net.r.ok then [Put(x.store, x.url, net.r)] else [])
  {}

  /**
   * In every state that a run reaches, a request that is handled without interruption is answered as its
   * path says, and the answer of the network is stored exactly when it is ok and the path is one to store.
   */
  lemma ServesExpected(s: State, url: Url, net: Net)
    requires Inv(s) && Includes(url.origin, s.origin)
    ensures
      var name := if FontOrImage(url.pathname) then "tesa-admin-ui-v1" else "tesa-admin-ui-dynamic-v1";
      ServedAs(s, Serve(s, url, net), Expected(s, url, net),
               if Stores(s, url, net) then [Put(StoreOf(s, name), url, net.r)] else [])
  {
    hide NeverStored;
    hide FontOrImage;
    hide CodeOrApi;
    hide GetCachingStrategy;
    hide Includes;
    StrategyBySuffix(url.pathname);
    var strategy := GetCachingStrategy(url.pathname);
    if strategy == NoCache {
      ServesNoCache(s, url, net);
    } else {
      var name := CacheOf(strategy);
      Opens(s, url, net);
      OpenedHolds(s, name, url);
      var s2 := Step(Step(s, Fetch(true, url)), Proceed(|s.handlers|, net));
      TwoSteps(s2, s2.handlers[|s.handlers|], net, Cached(s, url));
    }
  }

  /** A put that ends well is what the cache of its name then holds for the request. */
  lemma PutIsHeld(s: State, k: nat, name: string)
    requires Inv(s) && k < |s.puts| && name in s.names && s.puts[k].store == s.names[name]
    ensures
      var held := Entries(Step(s, PutEnds(k, true)), name);
      held == Entries(s, name)[s.puts[k].url := s.puts[k].r]
    ensures Entries(Step(s, PutEnds(k, false)), name) == Entries(s, name)
    ensures forall works :: Step(s, PutEnds(k, works)).puts == s.puts[..k] + s.puts[k + 1..]
  {
    assert IsStore(s.names[name], name, s);
  }

  /** Requests that are not GET or go to another origin are left to the browser. */
  lemma OthersPass(s: State, isGet: bool, url: Url)
    requires !isGet || !Includes(url.origin, s.origin)
    ensures Step(s, Fetch(isGet, url)) == s
  {}

  /** Activating deletes every cache but the two of this version, clearing deletes every cache, in any order. */
  lemma Deletions(s: State, name: string)
    ensures name in Step(s, Activate).deletes <==>
      name in s.deletes || (name in s.names && name != "tesa-admin-ui-v1" && name != "tesa-admin-ui-dynamic-v1")
    ensures name in Step(s, Clear).deletes <==> name in s.deletes || name in s.names
    ensures
      var s' := Step(s, Delete(name));
      (name in s.deletes ==> Entries(s', name) == map[] && name !in s'.deletes)
      && forall other :: other != name || name !in s.deletes ==> Entries(s', other) == Entries(s, other)
  {}

  /** Installing stores both assets when both answers are ok, and nothing otherwise. */
  lemma InstallStores(s: State, k: nat, root: Response, index: Response)
    requires Inv(s) && k < |s.installs| && CACHE_NAME in s.names && s.installs[k] == s.names[CACHE_NAME]
    ensures Entries(Step(s, InstallEnds(k, root, index)), "tesa-admin-ui-v1") ==
      if root.ok && index.ok then
        Entries(s, "tesa-admin-ui-v1")[Url(s.origin, "/", "") := root][Url(s.origin, "/index.html", "") := index]
      else Entries(s, "tesa-admin-ui-v1")
  {
    assert IsStore(s.names[CACHE_NAME], CACHE_NAME, s);
  }

  /**
   * Every reply of a handler is: an answer the network gave for its request after the request came in;
   * an ok answer it gave earlier, but never for a no-cache path, and for a network-first path only after
   * the network failed; or an error, only after the network failed.
   */
  lemma Replies(start: State, events: seq<Event>, h: nat)
    requires Initial(start) && h < |Run(start, events).handlers|
    ensures
      var s := Run(start, events);
      var x := s.handlers[h];
      x.strategy == GetCachingStrategy(x.url.pathname) && ReplyOk(x, s) && (x.phase == Done ==> x.reply.Some?)
  {
    RunKeeps(start, events);
    assert HandlerOk(Run(start, events).handlers[h], Run(start, events));
  }
}
