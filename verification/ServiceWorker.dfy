/** The service worker: caching strategies whose asynchronous steps interleave over the caches. */
module ServiceWorker {
  import opened Options
  import opened Text

  datatype Url = Url(origin: string, pathname: string, query: string)

  datatype Response = Response(ok: bool, body: nat)

  datatype Strategy = NoCache | CacheFirst | NetworkFirst | StaleWhileRevalidate

  const CACHE_NAME := "tesa-admin-ui-v1"
  const DYNAMIC_CACHE_NAME := "tesa-admin-ui-dynamic-v1"

  predicate Includes(s: string, part: string) {
    part <= s || (s != "" && Includes(s[1..], part))
  }

  predicate EndsWithAny(s: string, suffixes: seq<string>) {
    exists x :: x in suffixes && EndsWith(s, x)
  }

  const NO_CACHE_SUFFIXES := ["version.json", "build-manifest.json", ".map"]
  const CACHE_FIRST_SUFFIXES := [".woff", ".woff2", ".ttf", ".eot", ".svg", ".png", ".jpg", ".jpeg", ".gif", ".ico"]
  const NETWORK_FIRST_SUFFIXES := [".js", ".css", ".json"]

  function GetCachingStrategy(pathname: string): Strategy {
    if EndsWithAny(pathname, NO_CACHE_SUFFIXES) then NoCache
    else if EndsWithAny(pathname, CACHE_FIRST_SUFFIXES) then CacheFirst
    else if EndsWithAny(pathname, NETWORK_FIRST_SUFFIXES) || Includes(pathname, "/api/") then NetworkFirst
    else StaleWhileRevalidate
  }

  // ----- state

  /** A cache object; it outlives the deletion of its name for those who have opened it. */
  datatype Store = Store(name: string, entries: map<Url, Response>)

  datatype Reply = FromNetwork(r: Response) | FromCache(r: Response) | Unavailable | Rejected

  datatype Phase = Opening | Matching | Fetching | FallingBack | Done

  /** One `fetch` event; `started` counts the network's answers when it arrived. */
  datatype Handler = Handler(
    url: Url, strategy: Strategy, phase: Phase, store: nat, reply: Option<Reply>, started: nat, netFailed: bool)

  datatype Put = Put(store: nat, url: Url, r: Response)

  datatype State = State(
    origin: string,
    stores: seq<Store>,
    names: map<string, nat>,
    handlers: seq<Handler>,
    puts: seq<Put>,                  // started by `cache.put`, not awaited
    installs: seq<nat>,              // `addAll` calls under way, by store
    deletes: set<string>,            // names that `activate` and the messages still delete
    answers: seq<(Url, Response)>)   // history: everything the network gave

  datatype Net = NetAnswer(r: Response) | NetFails

  datatype Event =
    | Fetch(isGet: bool, url: Url)
    | Proceed(h: nat, net: Net)
    | PutEnds(k: nat, works: bool)
    | InstallOpens
    | InstallEnds(k: nat, root: Response, index: Response)
    | Activate
    | Clear
    | Delete(name: string)

  // ----- steps

  /** `caches.open(name)` */
  function OpenStores(s: State, name: string): seq<Store> {
    if name in s.names then s.stores else s.stores + [Store(name, map[])]
  }

  function OpenNames(s: State, name: string): map<string, nat> {
    if name in s.names then s.names else s.names[name := |s.stores|]
  }

  function OpenCache(s: State, name: string): State {
    s.(stores := OpenStores(s, name), names := OpenNames(s, name))
  }

  function StoreOf(s: State, name: string): nat {
    if name in s.names then s.names[name] else |s.stores|
  }

  function CacheOf(strategy: Strategy): string {
    if strategy == CacheFirst then CACHE_NAME else DYNAMIC_CACHE_NAME
  }

  function Match(s: State, store: nat, url: Url): Option<Response> {
    if store < |s.stores| && url in s.stores[store].entries then Some(s.stores[store].entries[url]) else None
  }

  function StartHandler(s: State, url: Url): State {
    var strategy := GetCachingStrategy(url.pathname);
    var phase := if strategy == NoCache then Fetching else Opening;
    s.(handlers := s.handlers + [Handler(url, strategy, phase, 0, None, |s.answers|, false)])
  }

  function SetHandler(s: State, h: nat, x: Handler): State
    requires h < |s.handlers|
  {
    s.(handlers := s.handlers[h := x])
  }

  /** The network answered the handler's `fetch`. */
  function Answered(s: State, h: nat, r: Response): State
    requires h < |s.handlers|
  {
    var x := s.handlers[h];
    var reply := if x.reply.Some? then x.reply else Some(FromNetwork(r));
    SetHandler(s, h, x.(phase := Done, reply := reply))
    .(answers := s.answers + [(x.url, r)],
      puts := if r.ok && x.strategy != NoCache then s.puts + [Put(x.store, x.url, r)] else s.puts)
  }

  /** The handler's `fetch` was rejected. */
  function Failed(s: State, h: nat): State
    requires h < |s.handlers|
  {
    var x := s.handlers[h].(netFailed := true);
    SetHandler(s, h,
      match x.strategy
      case NetworkFirst => x.(phase := FallingBack)
      case StaleWhileRevalidate => x.(phase := Done, reply := if x.reply.Some? then x.reply else Some(Rejected))
      case _ => x.(phase := Done, reply := Some(Unavailable)))
  }

  /** One asynchronous step of one handler. */
  function ProceedHandler(s: State, h: nat, net: Net): State
    requires h < |s.handlers|
  {
    var x := s.handlers[h];
    match x.phase
    case Opening =>
      var name := CacheOf(x.strategy);
      SetHandler(OpenCache(s, name), h,
        x.(store := StoreOf(s, name), phase := if x.strategy == NetworkFirst then Fetching else Matching))
    case Matching =>
      var cached := Match(s, x.store, x.url);
      if cached.None? then SetHandler(s, h, x.(phase := Fetching))
      else if x.strategy == CacheFirst then SetHandler(s, h, x.(phase := Done, reply := Some(FromCache(cached.value))))
      else SetHandler(s, h, x.(phase := Fetching, reply := Some(FromCache(cached.value))))
    case Fetching =>
      if net.NetAnswer? then Answered(s, h, net.r) else Failed(s, h)
    case FallingBack =>
      var cached := Match(s, x.store, x.url);
      SetHandler(s, h, x.(phase := Done, reply := Some(if cached.Some? then FromCache(cached.value) else Unavailable)))
    case Done => s
  }

  function PutEntry(s: State, store: nat, url: Url, r: Response): State {
    if store < |s.stores| then
      s.(stores := s.stores[store := s.stores[store].(entries := s.stores[store].entries[url := r])])
    else s
  }

  function RootUrl(s: State): Url { Url(s.origin, "/", "") }

  function IndexUrl(s: State): Url { Url(s.origin, "/index.html", "") }

  /** `addAll`: both assets are stored when both answers are ok, else none. */
  function EndInstall(s: State, store: nat, root: Response, index: Response): State {
    var s' := s.(answers := s.answers + [(RootUrl(s), root)] + [(IndexUrl(s), index)]);
    if root.ok && index.ok then PutEntry(PutEntry(s', store, RootUrl(s), root), store, IndexUrl(s), index) else s'
  }

  function Without<T>(xs: seq<T>, k: nat): seq<T>
    requires k < |xs|
  {
    xs[..k] + xs[k + 1..]
  }

  /** One event; an event that cannot happen in this state changes nothing. */
  function Step(s: State, e: Event): State {
    match e
    case Fetch(isGet, url) => if isGet && Includes(url.origin, s.origin) then StartHandler(s, url) else s
    case Proceed(h, net) => if h < |s.handlers| then ProceedHandler(s, h, net) else s
    case PutEnds(k, works) =>
      if k < |s.puts| then
        var s' := s.(puts := Without(s.puts, k));
        if works then PutEntry(s', s.puts[k].store, s.puts[k].url, s.puts[k].r) else s'
      else s
    case InstallOpens => OpenCache(s, CACHE_NAME).(installs := s.installs + [StoreOf(s, CACHE_NAME)])
    case InstallEnds(k, root, index) =>
      if k < |s.installs| then EndInstall(s.(installs := Without(s.installs, k)), s.installs[k], root, index) else s
    case Activate => s.(deletes := s.deletes + (s.names.Keys - {CACHE_NAME, DYNAMIC_CACHE_NAME}))
    case Clear => s.(deletes := s.deletes + s.names.Keys)
    case Delete(name) =>
      if name in s.deletes then s.(names := s.names - {name}, deletes := s.deletes - {name}) else s
  }

  /** A worker on `origin`, with caches of other names that earlier versions left. */
  predicate Initial(s: State) {
    && s.handlers == [] && s.puts == [] && s.installs == [] && s.deletes == {} && s.answers == []
    && (forall name :: name in s.names ==> s.names[name] < |s.stores| && s.stores[s.names[name]].name == name)
    && forall i :: 0 <= i < |s.stores| ==> s.stores[i].name != CACHE_NAME && s.stores[i].name != DYNAMIC_CACHE_NAME
  }

  function Run(s: State, events: seq<Event>): State
    decreases |events|
  {
    if events == [] then s else Step(Run(s, events[..|events| - 1]), events[|events| - 1])
  }
}
