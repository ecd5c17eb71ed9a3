/**
 The service worker's three event handlers as methods of one object that owns
 the origin's cache storage. Every method is proved against the function of
 Policy that says what the handler leaves behind.
 */
module Worker {
  import opened CacheStore
  import opened Policy

  class ServiceWorker {
    /** Cache names in creation order, as `caches.keys()` lists them. */
    var order: seq<CacheName>
    /** Each cache's entries, by name. */
    var caches: map<CacheName, Cache>

    function State(): Storage
      reads this
    {
      Storage(order, caches)
    }

    predicate Valid()
      reads this
    {
      WellFormed(State())
    }

    /** A worker over an origin that has no caches yet. */
    constructor ()
      ensures Valid() && State() == Storage([], map[])
    {
      order := [];
      caches := map[];
    }

    /** `caches.open(name)`. */
    method OpenCache(name: CacheName)
      requires Valid()
      modifies this
      ensures Valid() && State() == Open(old(State()), name)
    {
      if name !in caches {
        order := order + [name];
        caches := caches[name := map[]];
        assert State() == Open(old(State()), name);
      }
    }

    /** `cache.put(key, resp)` on an open cache. */
    method PutEntry(name: CacheName, key: Url, resp: Response)
      requires Valid() && name in caches
      modifies this
      ensures Valid() && State() == Put(old(State()), name, key, resp)
    {
      caches := caches[name := caches[name][key := resp]];
    }

    /** `caches.delete(name)`; `deleted` tells whether there was such a cache. */
    method DeleteCache(name: CacheName) returns (deleted: bool)
      requires Valid()
      modifies this
      ensures Valid() && State() == Delete(old(State()), name)
      ensures deleted == (name in old(caches))
    {
      deleted := name in caches;
      order := Without(order, name);
      caches := caches - {name};
    }

    /** `caches.match(key)`: the caches are searched in creation order. */
    method Match(key: Url) returns (r: Option<Response>)
      requires Valid()
      ensures r == MatchAll(State(), key)
    {
      var i := 0;
      while i < |order|
        invariant 0 <= i <= |order|
        invariant MatchIn(order[i..], caches, key) == MatchAll(State(), key)
      {
        var name := order[i];
        assert name in caches;
        assert order[i..][0] == name && order[i..][1..] == order[i + 1..];
        if key in caches[name] {
          return Some(caches[name][key]);
        }
        i := i + 1;
      }
      return None;
    }

    /** `cache.addAll`, first half: every URL of the app shell is fetched, and
        the batch can go in only when every one of them is storable. */
    method FetchBatch(net: Url -> NetOutcome) returns (ok: bool)
      ensures ok == BatchOk(UrlsToCache, net)
    {
      ok := true;
      var i := 0;
      while i < |UrlsToCache|
        invariant 0 <= i <= |UrlsToCache|
        invariant ok == BatchOk(UrlsToCache[..i], net)
      {
        if !Cacheable(net(UrlsToCache[i])) {
          ok := false;
        }
        i := i + 1;
      }
      assert UrlsToCache[..i] == UrlsToCache;
    }

    /** `cache.addAll`, second half: the fetched batch, all of it, on top of
        the cache's current entries. */
    method StoreBatch(start: Cache, net: Url -> NetOutcome) returns (batch: Cache)
      requires BatchOk(UrlsToCache, net)
      ensures batch == AddEach(start, UrlsToCache, net)
    {
      batch := start;
      var i := 0;
      while i < |UrlsToCache|
        invariant 0 <= i <= |UrlsToCache|
        invariant batch == AddEach(start, UrlsToCache[..i], net)
      {
        var url := UrlsToCache[i];
        assert UrlsToCache[..i + 1][..i] == UrlsToCache[..i];
        assert Cacheable(net(url));
        batch := batch[url := net(url).response];
        i := i + 1;
      }
      assert UrlsToCache[..i] == UrlsToCache;
    }

    /** `cache.add` for each external resource into the current cache, each
        failure caught on its own. */
    method AddExternals(net: Url -> NetOutcome)
      requires Valid() && CurrentCacheName in caches
      modifies this
      ensures Valid() && order == old(order)
      ensures caches == old(caches)[CurrentCacheName := AddEach(old(caches)[CurrentCacheName], ExternalResources, net)]
    {
      var i := 0;
      while i < |ExternalResources|
        invariant 0 <= i <= |ExternalResources|
        invariant Valid() && order == old(order) && CurrentCacheName in caches
        invariant caches == old(caches)[CurrentCacheName := AddEach(old(caches)[CurrentCacheName], ExternalResources[..i], net)]
      {
        var url := ExternalResources[i];
        assert ExternalResources[..i + 1][..i] == ExternalResources[..i];
        var outcome := net(url);
        if Cacheable(outcome) {
          PutEntry(CurrentCacheName, url, outcome.response);
        }
        i := i + 1;
      }
      assert ExternalResources[..i] == ExternalResources;
    }

    /** The install handler. The current cache is opened; the app shell is
        added as one batch (every response is fetched before any is stored,
        and one failure stores none); after a successful batch each external
        resource is added on its own, a failure skipping only that one. A
        failed batch is caught: install completes either way, and
        `localCached` reports whether the batch went in. */
    method Install(net: Url -> NetOutcome) returns (localCached: bool)
      requires Valid()
      modifies this
      ensures Valid()
      ensures localCached == BatchOk(UrlsToCache, net)
      ensures State() == Installed(old(State()), net)
    {
      OpenCache(CurrentCacheName);
      localCached := FetchBatch(net);
      if !localCached {
        return;
      }
      var batch := StoreBatch(caches[CurrentCacheName], net);
      caches := caches[CurrentCacheName := batch];
      AddExternals(net);
    }

    /** The activate handler: every name `caches.keys()` reports is visited,
        and each one that is not the current generation's is deleted. */
    method Activate()
      requires Valid()
      modifies this
      ensures Valid() && State() == Activated(old(State()))
    {
      var cacheNames := order;
      var i := 0;
      while i < |cacheNames|
        invariant 0 <= i <= |cacheNames|
        invariant Valid() && State() == DeleteStale(old(State()), cacheNames[..i])
      {
        var name := cacheNames[i];
        assert cacheNames[..i + 1][..i] == cacheNames[..i];
        if name != CurrentCacheName {
          var _ := DeleteCache(name);
        }
        i := i + 1;
      }
      assert cacheNames[..i] == cacheNames;
    }

    /** The fetch handler for one request. `sameOrigin` is the origin
        comparison and `net` what the network gives for the request. */
    method HandleFetch(req: Request, sameOrigin: bool, net: NetOutcome) returns (d: Decision)
      requires Valid()
      modifies this
      ensures Valid()
      ensures d == Decide(req, sameOrigin, net, old(State()))
      ensures State() == AfterFetch(old(State()), req, d)
    {
      if req.verb != "GET" {
        return PassThrough;
      }
      if StartsWithSome(BypassResources, req.url) {
        return PassThrough;
      }
      var isCachedCDN := StartsWithSome(ExternalResources, req.url);

      if net.Received? && net.response.status == 200 {
        if sameOrigin || isCachedCDN {
          OpenCache(CurrentCacheName);
          PutEntry(CurrentCacheName, req.url, net.response);
        }
        return Respond(net.response, sameOrigin || isCachedCDN);
      }

      // the network failed, or answered with another status
      var cached := Match(req.url);
      if cached.Some? {
        return Respond(cached.value, false);
      }
      if req.mode == Navigate {
        var index := Match(IndexKey);
        if index.Some? {
          return Respond(index.value, false);
        }
        return Respond(OfflinePage, false);
      }
      return Respond(Unavailable, false);
    }
  }

  /** A first deployment on an origin with no caches: install, activate, then
      an offline navigation to a page of the app that has no entry of its own.
      It is answered from the installed index document. */
  method OfflineNavigationScenario(net: Url -> NetOutcome, page: Url) returns (d: Decision)
    requires BatchOk(UrlsToCache, net)
    requires page !in UrlsToCache && page !in ExternalResources && !ShouldBypass(page)
    ensures Cacheable(net(IndexKey))
    ensures d == Respond(net(IndexKey).response, false)
  {
    var worker := new ServiceWorker();
    ghost var empty := worker.State();
    var _ := worker.Install(net);
    worker.Activate();
    var req := Request("GET", page, Navigate);
    OfflineNavigationAfterDeploy(empty, net, req, true);
    d := worker.HandleFetch(req, true, NetworkError);
  }
}
