/** The service worker as the object it is: caches and handlers updated step by step. */
module ServiceWorkerClass {
  import opened Options
  import opened ServiceWorker
  import opened ServiceWorkerRuns

  class Worker {
    const origin: string
    var stores: seq<Store>
    var names: map<string, nat>
    var handlers: seq<Handler>
    var puts: seq<Put>
    var installs: seq<nat>
    var deletes: set<string>
    ghost var answers: seq<(Url, Response)>
    var answerCount: nat

    constructor (start: State)
      requires Initial(start)
      ensures Valid() && Contents() == start
    {
      origin, stores, names := start.origin, start.stores, start.names;
      handlers, puts, installs, deletes, answers, answerCount := [], [], [], {}, [], 0;
      RunKeeps(start, []);
    }

    /**
     * Every entry of the two caches, every put under way and every reply comes from what the network
     * gave for that request, each entry in the cache of its strategy.
     */
    ghost predicate Valid()
      reads this
    {
      answerCount == |answers| && Inv(Contents())
    }

    ghost function Contents(): State
      reads this
    {
      State(origin, stores, names, handlers, puts, installs, deletes, answers)
    }

    /** `caches.open(name)` */
    method OpenNamed(name: string) returns (store: nat)
      modifies this`stores, this`names
      ensures Contents() == OpenCache(old(Contents()), name) && store == StoreOf(old(Contents()), name)
    {
      if name in names {
        store := names[name];
      } else {
        store := |stores|;
        stores := stores + [Store(name, map[])];
        names := names[name := store];
      }
    }

    /** `cache.match(url)` */
    method Lookup(store: nat, url: Url) returns (r: Option<Response>)
      ensures r == Match(Contents(), store, url)
    {
      if store < |stores| && url in stores[store].entries { r := Some(stores[store].entries[url]); } else { r := None; }
    }

    method StoreEntry(store: nat, url: Url, r: Response)
      modifies this`stores
      ensures Contents() == PutEntry(old(Contents()), store, url, r)
    {
      if store < |stores| {
        var entries := stores[store].entries[url := r];
        stores := stores[store := stores[store].(entries := entries)];
      }
    }

    method Record(url: Url, r: Response)
      modifies this`answers, this`answerCount
      ensures answers == old(answers) + [(url, r)] && answerCount == old(answerCount) + 1
    {
      answers := answers + [(url, r)];
      answerCount := answerCount + 1;
    }

    method OnFetch(isGet: bool, url: Url)
      requires Valid()
      modifies this
      ensures Valid() && Contents() == Step(old(Contents()), Fetch(isGet, url))
    {
      hide Inv;
      StepKeeps(Contents(), Fetch(isGet, url));
      if !isGet {
        return;
      }
      if !Includes(url.origin, origin) {
        return;
      }
      var strategy := GetCachingStrategy(url.pathname);
      var phase := if strategy == NoCache then Fetching else Opening;
      handlers := handlers + [Handler(url, strategy, phase, 0, None, answerCount, false)];
    }

    method OnAnswer(h: nat, r: Response)
      requires Valid() && h < |handlers| && handlers[h].phase == Fetching
      modifies this
      ensures Valid() && Contents() == Answered(old(Contents()), h, r)
    {
      hide Inv;
      AnsweredKeeps(Contents(), h, r);
      var x := handlers[h];
      Record(x.url, r);
      if r.ok && x.strategy != NoCache {
        puts := puts + [Put(x.store, x.url, r)];
      }
      var reply := if x.reply.Some? then x.reply else Some(FromNetwork(r));
      handlers := handlers[h := x.(phase := Done, reply := reply)];
    }

    method OnNetworkError(h: nat)
      requires Valid() && h < |handlers| && handlers[h].phase == Fetching
      modifies this`handlers
      ensures Valid() && Contents() == Failed(old(Contents()), h)
    {
      hide Inv;
      FailedKeeps(Contents(), h);
      var x := handlers[h].(netFailed := true);
      match x.strategy
      case NetworkFirst =>
        handlers := handlers[h := x.(phase := FallingBack)];
      case StaleWhileRevalidate =>
        var reply := if x.reply.Some? then x.reply else Some(Rejected);
        handlers := handlers[h := x.(phase := Done, reply := reply)];
      case _ =>
        handlers := handlers[h := x.(phase := Done, reply := Some(Unavailable))];
    }

    method ProceedWith(h: nat, net: Net)
      requires Valid() && h < |handlers|
      modifies this
      ensures Valid() && Contents() == ProceedHandler(old(Contents()), h, net)
    {
      hide Inv;
      ProceedKeeps(Contents(), h, net);
      var x := handlers[h];
      match x.phase {
        case Opening =>
          var store := OpenNamed(CacheOf(x.strategy));
          var phase := if x.strategy == NetworkFirst then Fetching else Matching;
          handlers := handlers[h := x.(store := store, phase := phase)];
        case Matching =>
          var cached := Lookup(x.store, x.url);
          if cached.None? {
            handlers := handlers[h := x.(phase := Fetching)];
          } else if x.strategy == CacheFirst {
            handlers := handlers[h := x.(phase := Done, reply := Some(FromCache(cached.value)))];
          } else {
            handlers := handlers[h := x.(phase := Fetching, reply := Some(FromCache(cached.value)))];
          }
        case Fetching =>
          if net.NetAnswer? { OnAnswer(h, net.r); } else { OnNetworkError(h); }
        case FallingBack =>
          var cached := Lookup(x.store, x.url);
          var reply := if cached.Some? then FromCache(cached.value) else Unavailable;
          handlers := handlers[h := x.(phase := Done, reply := Some(reply))];
        case Done =>
      }
    }

    method OnInstallEnds(k: nat, root: Response, index: Response)
      requires Valid() && k < |installs|
      modifies this
      ensures Valid() && Contents() == Step(old(Contents()), InstallEnds(k, root, index))
    {
      hide Inv;
      StepKeeps(Contents(), InstallEnds(k, root, index));
      var store := installs[k];
      installs := installs[..k] + installs[k + 1..];
      var rootUrl, indexUrl := Url(origin, "/", ""), Url(origin, "/index.html", "");
      Record(rootUrl, root);
      Record(indexUrl, index);
      if root.ok && index.ok {
        StoreEntry(store, rootUrl, root);
        StoreEntry(store, indexUrl, index);
      }
    }

    method Dispatch(e: Event)
      requires Valid()
      modifies this
      ensures Valid() && Contents() == Step(old(Contents()), e)
    {
      hide Inv;
      StepKeeps(Contents(), e);
      match e
      case Fetch(isGet, url) => OnFetch(isGet, url);
      case Proceed(h, net) => if h < |handlers| { ProceedWith(h, net); }
      case PutEnds(k, works) =>
        if k < |puts| {
          var x := puts[k];
          puts := puts[..k] + puts[k + 1..];
          if works { StoreEntry(x.store, x.url, x.r); }
        }
      case InstallOpens =>
        var store := OpenNamed(CACHE_NAME);
        installs := installs + [store];
      case InstallEnds(k, root, index) => if k < |installs| { OnInstallEnds(k, root, index); }
      case Activate => deletes := deletes + (names.Keys - {CACHE_NAME, DYNAMIC_CACHE_NAME});
      case Clear => deletes := deletes + names.Keys;
      case Delete(name) =>
        if name in deletes {
          names := names - {name};
          deletes := deletes - {name};
        }
    }
  }
}
