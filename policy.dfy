/**
 The caching and fallback policy of the gym-tracker service worker, as
 functions of their inputs: the configuration constants, the URL-prefix
 tests, the per-request decision of the fetch handler with its fallback chain,
 and the storage each lifecycle event leaves behind.
 */
module Policy {
  import opened CacheStore

  // ---------------------------------------------------------------- configuration

  const BuildDate: string := "20251203"
  /** The name of the current cache generation. */
  const CurrentCacheName: CacheName := "gym-tracker-cache-" + BuildDate

  /** Same-origin app shell, stored as one all-or-nothing batch. */
  const UrlsToCache: seq<Url> := ["/", "/index.html", "/manifest.json", "/service-worker.js"]

  /** CDN scripts, stored one by one; their responses are also refreshed on fetch. */
  const ExternalResources: seq<Url> := [
    "https://unpkg.com/react@18/umd/react.production.min.js",
    "https://unpkg.com/react-dom@18/umd/react-dom.production.min.js"
  ]

  /** Prefixes the worker never intercepts. */
  const BypassResources: seq<Url> := ["https://cdn.tailwindcss.com"]

  /** The document served to an offline navigation that has no entry of its own. */
  const IndexKey: Url := "/index.html"

  /** Synthesized page for an offline navigation when nothing is cached. */
  const OfflinePage: Response := Response(200, "", "text/html",
    "<!DOCTYPE html><html><head><title>Offline</title></head><body><h1>You are offline</h1><p>Please check your connection and try again.</p></body></html>")

  /** Synthesized answer for any other request that neither the network nor the
      caches can satisfy (a string body gets the default text content type). */
  const Unavailable: Response := Response(503, "Service Unavailable", "text/plain;charset=UTF-8",
    "Network request failed and no cache available.")

  // ---------------------------------------------------------------- requests and outcomes

  datatype RequestMode = Navigate | SameOrigin | NoCors | Cors

  datatype Request = Request(verb: string, url: Url, mode: RequestMode)

  /** What one `fetch` gives: it rejects, or it resolves with a response of any status. */
  datatype NetOutcome = NetworkError | Received(response: Response)

  /** The fetch handler either leaves the request to the browser, or answers it
      with `response`; `store` says whether that response is written into the
      current cache under the request URL. */
  datatype Decision = PassThrough | Respond(response: Response, store: bool)

  // ---------------------------------------------------------------- prefix tests

  /** `prefixes.some(p => url.startsWith(p))`. */
  function StartsWithSome(prefixes: seq<Url>, url: Url): (b: bool)
    ensures b <==> exists i :: 0 <= i < |prefixes| && prefixes[i] <= url
  {
    if prefixes == [] then false
    else if prefixes[0] <= url then true
    else
      var b := StartsWithSome(prefixes[1..], url);
      assert forall i :: 1 <= i < |prefixes| ==> prefixes[i] == prefixes[1..][i - 1];
      b
  }

  function ShouldBypass(url: Url): (b: bool)
    ensures b <==> "https://cdn.tailwindcss.com" <= url
  {
    StartsWithSome(BypassResources, url)
  }

  function IsCachedCDN(url: Url): (b: bool)
    ensures b <==> ExternalResources[0] <= url || ExternalResources[1] <= url
  {
    StartsWithSome(ExternalResources, url)
  }

  // ---------------------------------------------------------------- fetch handler

  /** The chain tried once the network has failed or answered with a status
      other than 200: the request's own entry in any cache, then (navigations
      only) the cached index document, then a synthesized response. */
  function Fallback(req: Request, st: Storage): (r: Response)
    ensures || (exists n :: n in st.caches && req.url in st.caches[n] && st.caches[n][req.url] == r)
            || (req.mode == Navigate && exists n :: n in st.caches && IndexKey in st.caches[n] && st.caches[n][IndexKey] == r)
            || (req.mode == Navigate && r == OfflinePage)
            || (req.mode != Navigate && r == Unavailable)
    ensures (forall n :: n in st.order ==> !(n in st.caches && req.url in st.caches[n])) && req.mode != Navigate ==>
      r == Unavailable
  {
    match MatchAll(st, req.url)
    case Some(cached) => cached
    case None =>
      if req.mode == Navigate then
        match MatchAll(st, IndexKey)
        case Some(index) => index
        case None => OfflinePage
      else Unavailable
  }

  /** The decision the fetch handler takes for one request, given whether the
      request is same-origin, what the network gives and the storage state. */
  function Decide(req: Request, sameOrigin: bool, net: NetOutcome, st: Storage): (d: Decision)
    ensures d.PassThrough? <==> req.verb != "GET" || ShouldBypass(req.url)
    ensures d.Respond? && d.store ==> net == Received(d.response) && d.response.status == 200
  {
    if req.verb != "GET" then PassThrough
    else if ShouldBypass(req.url) then PassThrough
    else if net.Received? && net.response.status == 200 then
      Respond(net.response, sameOrigin || IsCachedCDN(req.url))
    else
      Respond(Fallback(req, st), false)
  }

  /** The storage after the fetch handler has applied decision `d` to `req`:
      a stored response goes into the current cache, opened (so created if
      absent) for the purpose. */
  function AfterFetch(st: Storage, req: Request, d: Decision): (r: Storage)
    requires WellFormed(st)
    ensures WellFormed(r)
  {
    if d.Respond? && d.store then
      Put(Open(st, CurrentCacheName), CurrentCacheName, req.url, d.response)
    else st
  }

  /** A non-GET request is left to the browser; the storage is neither read
      (the decision is the same whatever it holds) nor written. */
  lemma NonGetPassesThrough(req: Request, sameOrigin: bool, net: NetOutcome, st: Storage, other: Storage)
    requires WellFormed(st) && req.verb != "GET"
    ensures Decide(req, sameOrigin, net, st) == PassThrough
    ensures Decide(req, sameOrigin, net, st) == Decide(req, sameOrigin, net, other)
    ensures AfterFetch(st, req, Decide(req, sameOrigin, net, st)) == st
  {
  }

  /** A GET request under a bypass prefix is left to the browser too, with no
      storage read or write. */
  lemma BypassPassesThrough(req: Request, sameOrigin: bool, net: NetOutcome, st: Storage, other: Storage)
    requires WellFormed(st) && exists i :: 0 <= i < |BypassResources| && BypassResources[i] <= req.url
    ensures Decide(req, sameOrigin, net, st) == PassThrough
    ensures Decide(req, sameOrigin, net, st) == Decide(req, sameOrigin, net, other)
    ensures AfterFetch(st, req, Decide(req, sameOrigin, net, st)) == st
  {
  }

  /** A 200 from the network is returned as it is. It is written under the
      request URL into the current cache, and nothing else changes, exactly
      when the request is same-origin or under an external-resource prefix;
      otherwise the storage stays as it was. */
  lemma OkResponseReturned(req: Request, sameOrigin: bool, resp: Response, st: Storage)
    requires WellFormed(st) && req.verb == "GET" && !ShouldBypass(req.url)
    requires resp.status == 200
    ensures var d := Decide(req, sameOrigin, Received(resp), st);
      && d.Respond? && d.response == resp
      && d.store == (sameOrigin || IsCachedCDN(req.url))
    ensures var after := AfterFetch(st, req, Decide(req, sameOrigin, Received(resp), st));
      if sameOrigin || IsCachedCDN(req.url) then
        && CurrentCacheName in after.caches
        && req.url in after.caches[CurrentCacheName]
        && after.caches[CurrentCacheName][req.url] == resp
        && (forall n :: n in st.caches && n != CurrentCacheName ==> n in after.caches && after.caches[n] == st.caches[n])
        && (forall k :: CurrentCacheName in st.caches && k in st.caches[CurrentCacheName] && k != req.url ==>
              k in after.caches[CurrentCacheName] && after.caches[CurrentCacheName][k] == st.caches[CurrentCacheName][k])
        && (forall n :: n in after.caches ==> n in st.caches || n == CurrentCacheName)
        && (forall k :: k in after.caches[CurrentCacheName] ==>
              k == req.url || (CurrentCacheName in st.caches && k in st.caches[CurrentCacheName]))
        && after.order == if CurrentCacheName in st.caches then st.order else st.order + [CurrentCacheName]
      else after == st
  {
  }

  /** A non-200 network response is never handed back: it takes exactly the
      path of a network failure. */
  lemma NonOkIsNetworkFailure(req: Request, sameOrigin: bool, resp: Response, st: Storage)
    requires req.verb == "GET" && !ShouldBypass(req.url) && resp.status != 200
    ensures Decide(req, sameOrigin, Received(resp), st) == Decide(req, sameOrigin, NetworkError, st)
    ensures Decide(req, sameOrigin, Received(resp), st) == Respond(Fallback(req, st), false)
  {
  }

  /** After a failure, an entry for the request in any cache is what is
      returned (the one of the oldest cache holding it), and nothing is written. */
  lemma CacheHitServed(req: Request, sameOrigin: bool, net: NetOutcome, st: Storage, i: nat)
    requires WellFormed(st) && req.verb == "GET" && !ShouldBypass(req.url)
    requires !(net.Received? && net.response.status == 200)
    requires i < |st.order| && HoldsAt(st.order, st.caches, req.url, i)
    requires forall j :: 0 <= j < i ==> !HoldsAt(st.order, st.caches, req.url, j)
    ensures Decide(req, sameOrigin, net, st) == Respond(st.caches[st.order[i]][req.url], false)
    ensures AfterFetch(st, req, Decide(req, sameOrigin, net, st)) == st
  {
    MatchFirst(st.order, st.caches, req.url, i);
  }

  /** After a failure with no entry for the request anywhere: a navigation gets
      the cached index document, or else the offline page (status 200, HTML);
      any other request gets a 503 "Service Unavailable". Nothing is written. */
  lemma MissFallsBack(req: Request, sameOrigin: bool, net: NetOutcome, st: Storage)
    requires WellFormed(st) && req.verb == "GET" && !ShouldBypass(req.url)
    requires !(net.Received? && net.response.status == 200)
    requires forall n :: n in st.caches ==> req.url !in st.caches[n]
    ensures var d := Decide(req, sameOrigin, net, st);
      && d.Respond? && !d.store
      && (req.mode == Navigate && MatchAll(st, IndexKey).Some? ==> d.response == MatchAll(st, IndexKey).value)
      && (req.mode == Navigate && MatchAll(st, IndexKey).None? ==>
            d.response.status == 200 && d.response.contentType == "text/html")
      && (req.mode != Navigate ==> d.response.status == 503 && d.response.statusText == "Service Unavailable")
    ensures AfterFetch(st, req, Decide(req, sameOrigin, net, st)) == st
  {
    assert MatchAll(st, req.url) == None;
  }

  /** Every intercepted GET request is answered, and only a 200 straight from
      the network is ever written: fallback responses never enter a cache. */
  lemma InterceptedAlwaysAnswered(req: Request, sameOrigin: bool, net: NetOutcome, st: Storage)
    requires WellFormed(st) && req.verb == "GET" && !ShouldBypass(req.url)
    ensures Decide(req, sameOrigin, net, st).Respond?
    ensures AfterFetch(st, req, Decide(req, sameOrigin, net, st)) != st ==>
      net.Received? && net.response.status == 200 && (sameOrigin || IsCachedCDN(req.url))
  {
  }

  // ---------------------------------------------------------------- install

  /** `cache.add` and `cache.addAll` store a fetched response only when the
      fetch resolved with an ok status (200-299) that is not a partial 206. */
  predicate Cacheable(o: NetOutcome)
  {
    o.Received? && 200 <= o.response.status <= 299 && o.response.status != 206
  }

  /** Every URL of the batch fetched to a storable response. */
  predicate BatchOk(urls: seq<Url>, net: Url -> NetOutcome)
  {
    forall i :: 0 <= i < |urls| ==> Cacheable(net(urls[i]))
  }

  /** `cache.add(u)` for each URL in turn: a URL whose fetch fails is skipped. */
  function AddEach(c: Cache, urls: seq<Url>, net: Url -> NetOutcome): (r: Cache)
    ensures c.Keys <= r.Keys
    ensures forall k :: k in r ==> k in c || k in urls
    decreases |urls|
  {
    if urls == [] then c
    else
      var u := urls[|urls| - 1];
      var rest := AddEach(c, urls[..|urls| - 1], net);
      if Cacheable(net(u)) then rest[u := net(u).response] else rest
  }

  /** Entry by entry, adding is independent per URL: `u` ends up stored exactly
      when it was already there or is in the list and fetched to a storable
      response, and its value is then its own fetched response. */
  lemma {:induction false} AddEachAt(c: Cache, urls: seq<Url>, net: Url -> NetOutcome, u: Url)
    ensures u in AddEach(c, urls, net) <==> u in c || (u in urls && Cacheable(net(u)))
    ensures u in urls && Cacheable(net(u)) ==> AddEach(c, urls, net)[u] == net(u).response
    ensures !(u in urls && Cacheable(net(u))) && u in c ==> AddEach(c, urls, net)[u] == c[u]
    decreases |urls|
  {
    if urls != [] {
      var init := urls[..|urls| - 1];
      assert urls == init + [urls[|urls| - 1]];
      AddEachAt(c, init, net, u);
    }
  }

  /** What install does to the contents of the current cache: the local batch
      all at once or not at all, then (only after a successful batch) every
      external resource on its own. */
  function Populate(c: Cache, net: Url -> NetOutcome): (r: Cache)
    ensures c.Keys <= r.Keys
    ensures forall k :: k in r ==> k in c || k in UrlsToCache || k in ExternalResources
  {
    if BatchOk(UrlsToCache, net) then AddEach(AddEach(c, UrlsToCache, net), ExternalResources, net)
    else c
  }

  /** The local batch is atomic: on success every entry is present with its
      fetched response; on failure nothing at all is added, and the external
      resources are not attempted. */
  lemma InstallBatchAtomic(c: Cache, net: Url -> NetOutcome)
    ensures BatchOk(UrlsToCache, net) ==>
      forall u :: u in UrlsToCache ==> u in Populate(c, net) && Populate(c, net)[u] == net(u).response
    ensures !BatchOk(UrlsToCache, net) ==> Populate(c, net) == c
  {
    if BatchOk(UrlsToCache, net) {
      forall u | u in UrlsToCache
        ensures u in Populate(c, net) && Populate(c, net)[u] == net(u).response
      {
        var i :| 0 <= i < |UrlsToCache| && UrlsToCache[i] == u;
        assert Cacheable(net(UrlsToCache[i]));
        AddEachAt(c, UrlsToCache, net, u);
        AddEachAt(AddEach(c, UrlsToCache, net), ExternalResources, net, u);
      }
    }
  }

  /** After a successful batch, an external resource is present exactly when it
      was already cached (the cache is reused when the generation name did not
      change) or fetched to a storable response, whatever happened
      to the other resources: two networks that agree on the batch and on `u`
      leave the same entry for `u`. */
  lemma ExternalIsolated(c: Cache, net: Url -> NetOutcome, other: Url -> NetOutcome, u: Url)
    requires u in ExternalResources
    requires BatchOk(UrlsToCache, net)
    requires forall v :: v in UrlsToCache ==> other(v) == net(v)
    requires other(u) == net(u)
    ensures u in Populate(c, net) <==> u in c || Cacheable(net(u))
    ensures Cacheable(net(u)) ==> Populate(c, net)[u] == net(u).response
    ensures u in Populate(c, net) <==> u in Populate(c, other)
    ensures u in Populate(c, net) ==> Populate(c, net)[u] == Populate(c, other)[u]
  {
    assert u !in UrlsToCache;
    assert BatchOk(UrlsToCache, other) by {
      forall i | 0 <= i < |UrlsToCache| ensures Cacheable(other(UrlsToCache[i])) {
        assert UrlsToCache[i] in UrlsToCache;
      }
    }
    AddEachAt(c, UrlsToCache, net, u);
    AddEachAt(AddEach(c, UrlsToCache, net), ExternalResources, net, u);
    AddEachAt(c, UrlsToCache, other, u);
    AddEachAt(AddEach(c, UrlsToCache, other), ExternalResources, other, u);
  }

  /** The storage after install: the current cache is opened (created when
      absent, even if nothing can be stored) and populated. */
  function Installed(st: Storage, net: Url -> NetOutcome): (r: Storage)
    requires WellFormed(st)
    ensures WellFormed(r)
  {
    var o := Open(st, CurrentCacheName);
    Storage(o.order, o.caches[CurrentCacheName := Populate(o.caches[CurrentCacheName], net)])
  }

  // ---------------------------------------------------------------- activate

  /** `caches.delete` for each name of `names`, in turn, unless it is the
      current generation's. */
  function DeleteStale(st: Storage, names: seq<CacheName>): (r: Storage)
    requires WellFormed(st)
    ensures WellFormed(r)
    ensures forall n :: n in r.caches <==> n in st.caches && (n !in names || n == CurrentCacheName)
    ensures forall n :: n in r.caches ==> r.caches[n] == st.caches[n]
    decreases |names|
  {
    if names == [] then st
    else
      var n := names[|names| - 1];
      var init := names[..|names| - 1];
      assert names == init + [n];
      var p := DeleteStale(st, init);
      if n != CurrentCacheName then Delete(p, n) else p
  }

  /** The storage after activation: every name `caches.keys()` reported is
      visited. */
  function Activated(st: Storage): (r: Storage)
    requires WellFormed(st)
    ensures WellFormed(r)
    ensures forall n :: n in r.caches ==> n == CurrentCacheName
    ensures CurrentCacheName in r.caches <==> CurrentCacheName in st.caches
  {
    DeleteStale(st, st.order)
  }

  /** Activation keeps the current generation (with its contents) if it
      existed and deletes every other one: the names left are at most
      the current one. */
  lemma ActivateKeepsOnlyCurrent(st: Storage)
    requires WellFormed(st)
    ensures Activated(st).order == if CurrentCacheName in st.caches then [CurrentCacheName] else []
    ensures Activated(st).caches ==
      if CurrentCacheName in st.caches then map[CurrentCacheName := st.caches[CurrentCacheName]] else map[]
  {
    var r := Activated(st);
    forall n ensures n in r.caches <==> n == CurrentCacheName && CurrentCacheName in st.caches {
      assert n in st.caches <==> n in st.order;
    }
    OnlyNameLeft(r, CurrentCacheName);
  }

  /** A request that the network cannot reach, on a fresh deployment whose
      app shell was installed and which then activated: a navigation to a page
      with no entry of its own still gets the installed index document. */
  lemma OfflineNavigationAfterDeploy(st: Storage, net: Url -> NetOutcome, req: Request, sameOrigin: bool)
    requires WellFormed(st) && CurrentCacheName !in st.caches
    requires BatchOk(UrlsToCache, net)
    requires req.verb == "GET" && req.mode == Navigate && !ShouldBypass(req.url)
    requires req.url !in UrlsToCache && req.url !in ExternalResources
    ensures Cacheable(net(IndexKey))
    ensures Decide(req, sameOrigin, NetworkError, Activated(Installed(st, net))) == Respond(net(IndexKey).response, false)
  {
    assert IndexKey == UrlsToCache[1];
    var inst := Installed(st, net);
    var c := Populate(map[], net);
    assert inst.caches[CurrentCacheName] == c;
    ActivateKeepsOnlyCurrent(inst);
    var act := Activated(inst);
    AddEachAt(map[], UrlsToCache, net, req.url);
    AddEachAt(AddEach(map[], UrlsToCache, net), ExternalResources, net, req.url);
    MatchSingle(act, CurrentCacheName, req.url);
    InstallBatchAtomic(map[], net);
    assert IndexKey == UrlsToCache[1];
    MatchSingle(act, CurrentCacheName, IndexKey);
  }
}
