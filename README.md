# Gym-tracker service worker: caching and fallback policy

This project models the service worker of the gym-tracker single-page app
(`service-worker.js`, the network-first revision). The worker has three
event handlers:

- **install** opens the current cache generation (`gym-tracker-cache-20251203`)
  and pre-populates it. The app shell (`/`, `/index.html`, `/manifest.json`,
  `/service-worker.js`) goes in as one all-or-nothing batch. After that, the two
  React CDN scripts go in one at a time, and each of them may fail on its own.
  A failed batch is caught, so install never fails.
- **activate** lists every cache name and deletes each one that is not the
  current generation.
- **fetch** leaves non-GET requests and requests under the Tailwind CDN prefix
  to the browser. Every other request goes to the network first:
  - A 200 response is returned as it is. It is written into the current cache
    only when the request is same-origin or under one of the CDN prefixes.
  - A failure, or any other status, falls back to, in order:
    1. the request's entry in any cache;
    2. for a navigation, the cached `/index.html`;
    3. for a navigation with no cached `/index.html`, a synthesized offline
       HTML page (status 200, `text/html`);
    4. for any other request, a synthesized 503 "Service Unavailable".

The origin's cache storage is a value `Storage`. It holds the cache names in
creation order and a map from each name to a cache. A cache maps a request URL
to a response. Creation order matters because `caches.match` searches every
cache in that order and returns the first hit. Several inputs are parameters:

- the network, as one `NetOutcome` per fetch, or a function from URL to
  outcome during install;
- the same-origin comparison, as a boolean;
- the request mode, as a field of the request.

Modules:

- `CacheStore` (`cache_store.dfy`) is the storage and the browser operations the
  worker calls on it: `caches.open`, `cache.put`, `caches.delete` and
  `caches.match`.
- `Policy` (`policy.dfy`) holds:
  - the constants;
  - the prefix tests;
  - the fetch decision `Decide` and its fallback chain;
  - the storage that each handler leaves behind: `AfterFetch`, `Installed`,
    `Activated`;
  - the lemmas that state the policy's properties.
- `Worker` (`worker.dfy`) has the class `ServiceWorker`. It owns the storage as
  two fields (`order`, `caches`), and its handler methods update them step by
  step. `Install` and `Activate` use loops. Each method is proved against the
  `Policy` function that gives the resulting state.

Some points where the model follows the code rather than a plain reading of it:

- The fallback lookups search all caches, not just the current one, because
  that is what `caches.match` does. Once activation has run, only the current
  cache is left, and the lookup is a plain lookup in it (`MatchSingle`).
- After activation the set of cache names is `{CACHE_NAME}` only if that cache
  existed, and empty otherwise. One could read "exactly one generation is left"
  as a promise, but the code does not create the cache during activation.
- The comment at service-worker.js:96-97 says cross-origin requests are
  skipped. The code does not skip them: a cross-origin request that is not under
  a CDN prefix is still intercepted. Its 200 response is returned without
  being stored. Anything else, even an HTTP error from a cross-origin API,
  goes through the fallback chain, so it typically becomes the synthesized 503.
  The model does what the code does.
- `cache.add` and `cache.addAll` store a response only if its status is ok
  (200-299) and not 206, as the Service Workers specification defines
  `Cache.addAll`. This is `Cacheable`.
- `Install` returns `localCached`, which stands for the caught rejection of the
  batch; the script only logs that rejection. Install completes whatever the
  value of `localCached`.

## Model

| member | source | states |
|---|---|---|
| CacheStore.Open | service-worker.js:35 | `caches.open`: the named cache exists afterwards. It keeps its entries if it existed, or is created empty and becomes the newest name. Every other cache is unchanged. |
| CacheStore.Put | service-worker.js:119 | `cache.put`: the key now holds the response. Every other entry of that cache, and every other cache, is unchanged. |
| CacheStore.Without | service-worker.js:72 | Deleting a name from the order keeps exactly the other names and keeps them free of duplicates. |
| CacheStore.WithoutConcat | service-worker.js:72 | Deleting a name commutes with concatenation, so the names left keep their relative order. |
| CacheStore.WithoutKeepsMatch | service-worker.js:72 | Searching the order with a name taken out finds the same entry as searching the full order once that cache is gone. |
| CacheStore.Delete | service-worker.js:72 | `caches.delete`: the name is gone, the surviving caches are the other ones, and their contents are untouched. |
| CacheStore.DeleteKeepsMatchOrder | service-worker.js:72 | After `caches.delete`, a match searches the surviving caches in their old creation order. |
| CacheStore.MatchIn | service-worker.js:134-136 | `caches.match`: the result is absent exactly when no cache holds the key. A result that is present is an entry of some cache for that key. |
| CacheStore.MatchAll | service-worker.js:134-142 | A match over the whole storage is absent exactly when no listed cache holds the key. A present result is some listed cache's entry for the key. |
| CacheStore.MatchFirst | service-worker.js:134 | The match returns the entry of the earliest-created cache that holds the key. |
| CacheStore.MatchSingle | service-worker.js:142 | With only one cache left, a match is a plain lookup in that cache. |
| Policy.StartsWithSome | service-worker.js:91 | `.some(p => url.startsWith(p))` is true exactly when some prefix in the list is a prefix of the URL. |
| Policy.ShouldBypass | service-worker.js:25-27 | A URL bypasses the worker exactly when it starts with `https://cdn.tailwindcss.com`. |
| Policy.IsCachedCDN | service-worker.js:100 | A URL counts as a cached CDN resource exactly when it starts with one of the two React CDN URLs. |
| Policy.Fallback | service-worker.js:134-162 | The fallback response is one of these: a cached entry for the request; for a navigation, a cached `/index.html` or the offline page; for any other request, the 503. With no entry for the request, a request that is not a navigation always gets the 503. |
| Policy.Decide | service-worker.js:84-166 | The handler passes a request through exactly when it is not a GET or is under a bypass prefix. It stores a response only if that response came from the network with status 200. |
| Policy.AfterFetch | service-worker.js:113-124 | Writing the 200 response into the opened current cache keeps the storage well formed. |
| Policy.NonGetPassesThrough | service-worker.js:86-88 | A non-GET request is passed through. The decision is the same whatever the storage holds, so the storage is not read, and it is not written. |
| Policy.BypassPassesThrough | service-worker.js:91-94 | A request under a bypass prefix is passed through, with no storage read and no storage write. |
| Policy.OkResponseReturned | service-worker.js:109-126 | A 200 network response is returned unchanged. If the request is same-origin or under a CDN prefix, the response is stored under the request URL in the current cache. No other key or cache is added, no other entry changes, and the order gains `CACHE_NAME` only if that cache was absent. Otherwise the storage is unchanged. |
| Policy.NonOkIsNetworkFailure | service-worker.js:128-131 | A non-200 network response gives exactly the decision a network failure gives: the fallback response, not stored. |
| Policy.CacheHitServed | service-worker.js:134-138 | After a failure, the entry of the earliest cache that holds the request URL is returned, and the storage is unchanged. |
| Policy.MissFallsBack | service-worker.js:141-162 | After a failure with no entry anywhere, a navigation gets the cached index, or else a page with status 200 and `text/html`. Any other request gets 503 "Service Unavailable". Nothing is stored. |
| Policy.InterceptedAlwaysAnswered | service-worker.js:102-165 | Every intercepted GET gets a response. The storage changes only for a 200 network response to a same-origin or CDN request. |
| Policy.AddEachAt | service-worker.js:43-51 | Adding URLs one at a time: a URL ends up stored exactly when it was already there, or is in the list and its fetch succeeded. Its value is then its own fetched response, and every other entry is kept. |
| Policy.Cacheable | service-worker.js:39-45 | `addAll` and `add` store a fetched response only if the fetch resolved with a status in 200-299 other than 206. |
| Policy.AddEach | service-worker.js:43-51 | Adding URLs one at a time never removes an entry, and adds only URLs from the list. |
| Policy.Populate | service-worker.js:39-51 | Install never removes an entry from the current cache, and adds only app-shell and external URLs. |
| Policy.InstallBatchAtomic | service-worker.js:39-57 | When every app-shell fetch succeeds, every app-shell URL is stored with its response. If any of them fails, the cache is left exactly as it was, and no external resource is added. |
| Policy.ExternalIsolated | service-worker.js:42-51 | After a successful batch, an external resource is stored exactly when it was already in the reused cache or its own fetch succeeded. Its entry is the same whatever the other external fetches did. |
| Policy.Installed | service-worker.js:34-58 | Install keeps the storage well formed. |
| Policy.DeleteStale | service-worker.js:67-76 | Deleting the listed names other than `CACHE_NAME` keeps exactly the caches that are unlisted or current, with their contents untouched. |
| Policy.Activated | service-worker.js:67-76 | After activation, the only cache that can be left is `CACHE_NAME`, and it is left exactly when it existed. |
| Policy.ActivateKeepsOnlyCurrent | service-worker.js:67-76 | After activation, the order is `[CACHE_NAME]` with its old contents if that cache existed, and empty otherwise. Every stale generation is gone. |
| Policy.OfflineNavigationAfterDeploy | service-worker.js:39-52 | On a new generation whose app shell installed and which then activated, an offline navigation to an uncached page returns the installed `/index.html`. That response has an ok status. |
| Worker.ServiceWorker.OpenCache | service-worker.js:35 | `caches.open` on the object's storage leaves exactly the storage `Open` describes. |
| Worker.ServiceWorker.PutEntry | service-worker.js:119 | `cache.put` on the object's storage leaves exactly the storage `Put` describes. |
| Worker.ServiceWorker.DeleteCache | service-worker.js:72 | `caches.delete` leaves exactly the storage `Delete` describes, and reports whether the cache existed. |
| Worker.ServiceWorker.FetchBatch | service-worker.js:39 | The loop over the app shell finds that the batch can go in exactly when every fetch is storable. |
| Worker.ServiceWorker.StoreBatch | service-worker.js:39 | The loop stores the whole batch on top of the cache's entries, as `AddEach` over the app shell. |
| Worker.ServiceWorker.AddExternals | service-worker.js:43-51 | The loop adds each external resource to the current cache on its own, as `AddEach`. Nothing else changes. |
| Worker.ServiceWorker.Match | service-worker.js:134-142 | The loop over the caches in creation order returns what `caches.match` specifies. |
| Worker.ServiceWorker.Install | service-worker.js:30-59 | The handler never fails. It reports whether the batch went in, and it leaves exactly the storage `Installed` describes: the cache opened, the batch all or nothing, then each external resource on its own. |
| Worker.ServiceWorker.Activate | service-worker.js:62-81 | The loop over the listed names leaves exactly `Activated` of the old storage. |
| Worker.ServiceWorker.HandleFetch | service-worker.js:84-166 | The handler's answer is `Decide` of the old storage, and the new storage is `AfterFetch` of that answer. |
| Worker.OfflineNavigationScenario | service-worker.js:141-146 | A fresh worker runs install, activate, then an offline navigation to an uncached page, and the answer is the installed index document. |

## Left out

- `self.skipWaiting()` and `self.clients.claim()` (service-worker.js:32, 78) are left out. They are signals to the browser and hold no state here.
- The concurrency is left out: the `Promise` chains, `event.waitUntil` and `event.respondWith`, the parallel deletes of activation, and the parallel `cache.add` calls of install. The handlers are modelled as sequential steps. Order does not matter for these steps except across the same key, and install never writes the same key twice.
- The background `cache.put` at service-worker.js:115-123 is applied at once, before the response is returned. Its race with other requests is not modelled. A failed `cache.put` is not modelled either; the script catches and logs it (service-worker.js:119-121).
- The inner `status === 200` test at service-worker.js:118 always holds at that point, so it has no branch of its own.
- URL parsing and origin comparison (service-worker.js:98-99) are not modelled: same-origin is an input. Relative URLs are not resolved either. Same-origin URLs, including `/index.html`, are written as paths, and a cache entry is keyed by its URL string.
- The `cache: 'no-cache'` fetch option and console logging are left out. Response bodies are plain strings; headers other than the content type, and `clone()`, are not modelled.
- Failures of the Cache API calls themselves are not modelled: a rejected `caches.open`, quota errors in `addAll` or `put`, and `Vary: *`. The model assumes these calls succeed. The script would behave differently if they failed. In install, such a failure is caught at service-worker.js:54, and nothing is stored even when every fetch succeeded. In fetch, a rejected `caches.open` at service-worker.js:115 has no catch at all. Duplicate URLs in `addAll` are not modelled either; the app-shell list has none.
- The earlier cache-first and simple network-first revisions of the script are not part of this model.
