# Offline cache service worker, modelled in Dafny

This project models the service worker in `bin/ms-appx-web-pwa/sw.js`. The worker
keeps an app shell in a cache named `ms-appx-web-handler-cache-v1` and answers GET
requests cache-first. It has three handlers:

- **install** opens (or creates) that cache and adds the seed list `['/', '/index.html']`
  with `addAll`, which is all or nothing; a rejection is logged and swallowed.
- **activate** lists every cache name and deletes each one that is not on the
  whitelist `[CACHE_NAME]`.
- **fetch** ignores requests that are not GET. It answers a hit in *any* cache with
  the stored response. On a miss it goes to the network and returns the response as
  it came, storing a copy under some conditions. A network failure is caught and the
  answer resolves to undefined.

The browser's cache storage is a value, `CacheApi.CacheStorage`: cache names in
creation order, and a map from each name to its entries (`Request -> Response`).
The order matters because `caches.match` and `caches.keys` both go through the caches
in creation order. `caches.open`, `Cache.put`, `caches.delete`, `caches.match` and
`Cache.addAll` are pure functions on that value. The rules of the W3C Service Workers
specification that the worker relies on are kept:

- `put` rejects a 206 response.
- `addAll` rejects when any seed fails to fetch, or has a status outside 200–299, or
  has status 206, or when two seeds name the same request. A rejected `addAll` adds
  no entry.

The worker is the class `ServiceWorker.Worker`. Its fields `names` and `caches` are
the cache storage. Its methods `Install`, `Activate` and `Fetch` change those fields
one step at a time, as the handlers do. `Activate` is a loop over the listed names
that deletes the ones not on the whitelist. Each method is proved equal to a
specification function: `Installed`, `Activated` or `Handled`. The lemmas in
`WorkerProperties` then prove what the handlers promise about those functions.
Network answers are inputs. `Fetch` takes the result the network would give for the
request. `Install` takes a function giving the result for each seed request.

**The store rule, as written.** The test at `sw.js:62` stores a response when its
status is *not* 200 or its type is *not* `basic`, and the URL does not contain
`tailwindcss` (`sw.js:64`). The comments at `sw.js:61` and `sw.js:72` say the opposite:
that only valid responses get cached, and caching valid 200 same-origin responses is
what a cache-first worker is meant to do. This model follows the code, not the comments:

- `WorkerProperties.ValidResponseNotStored` proves that a 200/basic response is never
  stored, so the next fetch goes to the network again.
- `WorkerProperties.OpaqueResponseStored` proves that an opaque response is stored.

The lookup is the global `caches.match`, which searches every cache, not only the
worker's own. The model follows the code here too.

## Model

| member | source | states |
|---|---|---|
| `Text.IncludesIff` | bin/ms-appx-web-pwa/sw.js:64 | The URL test `includes` is true exactly when the marker occurs at some position of the URL. |
| `CacheApi.Open` | bin/ms-appx-web-pwa/sw.js:15 | Opening returns an existing cache unchanged; otherwise it adds a new, empty cache after all the others. Every other cache keeps its entries, and valid storage stays valid. |
| `CacheApi.PutAccepts` | bin/ms-appx-web-pwa/sw.js:73 | The platform rule for `put`: it stores only a GET request with a response whose status is not 206, and rejects otherwise. Its effect is given by `StoreCopy` and `MissStoreRule`. |
| `CacheApi.Put` | bin/ms-appx-web-pwa/sw.js:73 | After a put, that cache maps the request to the response. Its other entries, the other caches and the name list are unchanged. |
| `CacheApi.Delete` | bin/ms-appx-web-pwa/sw.js:34 | Deleting removes exactly that name and its entries. The remaining caches keep their entries, and storage stays valid. Order is given by `DeleteKeepsOrder`. |
| `CacheApi.DeleteKeepsOrder` | bin/ms-appx-web-pwa/sw.js:34 | Deleting a listed cache cuts exactly its name out of the list. The remaining names keep their creation order, which decides later lookups. |
| `CacheApi.DeleteAbsent` | bin/ms-appx-web-pwa/sw.js:34 | Deleting a name that is not listed leaves the name list as it was. |
| `CacheApi.MatchInMiss` | bin/ms-appx-web-pwa/sw.js:51 | A lookup misses exactly when none of the listed caches holds the request. |
| `CacheApi.MatchInFirst` | bin/ms-appx-web-pwa/sw.js:51 | A lookup returns the entry of the first cache, in creation order, that holds the request. |
| `CacheApi.MatchMiss` | bin/ms-appx-web-pwa/sw.js:51 | On valid storage, a lookup misses exactly when no cache at all holds the request. |
| `CacheApi.MatchOnlyHolder` | bin/ms-appx-web-pwa/sw.js:51-55 | When only one cache holds the request, the lookup returns that cache's entry. |
| `CacheApi.Match` | bin/ms-appx-web-pwa/sw.js:51 | The global `caches.match` misses exactly when no listed cache holds the request. Which entry a hit returns is given by `MatchInFirst`. |
| `CacheApi.AddAllAccepts` | bin/ms-appx-web-pwa/sw.js:18 | The platform rule for each seed of `addAll`: the fetch succeeds and its status is in 200–299 and not 206. Its effect is given by `AddAll` and `SeedsAccepted`. |
| `CacheApi.AddAll` | bin/ms-appx-web-pwa/sw.js:18 | All or nothing. It succeeds exactly when every seed is accepted and no request repeats. On success each seed request maps to its fetched response, other entries and caches are untouched, and valid storage stays valid. |
| `ServiceWorker.Whitelisted` | bin/ms-appx-web-pwa/sw.js:28-33 | The whitelist test `cacheWhitelist.indexOf(cacheName) === -1`, negated: with the one-entry whitelist, a name survives exactly when it is `CACHE_NAME`. Its effect on the name list is given by `Keep` and `KeepDistinct`. |
| `ServiceWorker.Keep` | bin/ms-appx-web-pwa/sw.js:28-36 | The names that survive activation are exactly the whitelisted ones; from a list without repetition they are without repetition too. The exact list is given by `KeepDistinct`. |
| `ServiceWorker.Intercepts` | bin/ms-appx-web-pwa/sw.js:46-48 | The GET filter. Its effect on the handler is given by `Handled` and `NonGetNotHandled`. |
| `ServiceWorker.ShouldStore` | bin/ms-appx-web-pwa/sw.js:62-66 | The store test as written: status not 200 or type not basic, and no `tailwindcss` in the URL. What it does to storage is given by `MissStoreRule`, `ValidResponseNotStored`, `OpaqueResponseStored` and `ExcludedUrlNeverStored`. |
| `ServiceWorker.Installed` | bin/ms-appx-web-pwa/sw.js:13-23 | Install creates the worker's cache if it is absent, appending its name after the existing ones. It keeps storage valid and leaves every other cache untouched. The seeded or unseeded contents are given by `InstallSeedsCache` and `InstallSwallowsFailure`. |
| `ServiceWorker.Activated` | bin/ms-appx-web-pwa/sw.js:27-39 | After activation the caches are exactly the old ones named `CACHE_NAME`, with their entries, and storage stays valid. The names are given by `ActivatedKeepsOnlyCurrent`. |
| `ServiceWorker.StoreCopy` | bin/ms-appx-web-pwa/sw.js:67-77 | The store step opens (or creates, appending its name) the worker's cache and puts the copy. The cache then holds the request exactly when `put` accepts it or it was already there, and an accepted copy is the stored entry. A rejected put leaves the opened cache as it was. The cache gains no other key, its other entries and every other cache are unchanged, and storage stays valid. |
| `ServiceWorker.Handled` | bin/ms-appx-web-pwa/sw.js:44-88 | The fetch handler leaves a request unanswered exactly when it is not GET. A network answer is the network's response as it came. Storage changes only when a network response passes the store test. No cache other than the worker's changes, no other cache is created, and the name list at most gains `CACHE_NAME` at the end. |
| `ServiceWorker.Worker.Install` | bin/ms-appx-web-pwa/sw.js:13-23 | The install handler opens the cache and then adds the seeds; the new storage is `Installed` of the old one. |
| `ServiceWorker.Worker.Activate` | bin/ms-appx-web-pwa/sw.js:27-39 | The deletion loop over the listed names leaves storage equal to `Activated` of the old storage, and valid. |
| `ServiceWorker.Worker.Fetch` | bin/ms-appx-web-pwa/sw.js:44-88 | The fetch handler's answer and the new storage are exactly what `Handled` gives for the old storage, the request and the network result. |
| `WorkerProperties.NonGetNotHandled` | bin/ms-appx-web-pwa/sw.js:46-48 | A request that is not GET is never answered, whatever the caches hold, and storage is unchanged. |
| `WorkerProperties.HitServedFromFirstCache` | bin/ms-appx-web-pwa/sw.js:51-56 | On a hit, the answer is the entry of the first cache that holds the request, and storage is unchanged. |
| `WorkerProperties.HitIgnoresNetwork` | bin/ms-appx-web-pwa/sw.js:51-56 | When any cache holds the request, the answer comes from the cache, does not depend on the network result, and leaves storage unchanged. |
| `WorkerProperties.MissReturnsNetworkResponse` | bin/ms-appx-web-pwa/sw.js:59-80 | After a miss, the network response is returned unchanged in every branch, whether it is stored or not. |
| `WorkerProperties.MissStoreRule` | bin/ms-appx-web-pwa/sw.js:62-78 | After a miss, the worker's cache holds the response under the request exactly when the status is not 200 or the type is not basic, the URL lacks `tailwindcss`, and the status is not 206. An attempted store creates the cache if it is absent and appends its name. The worker's cache gains no key but the request; otherwise storage is unchanged. Other caches, other entries and the order of names are never touched. |
| `WorkerProperties.ValidResponseNotStored` | bin/ms-appx-web-pwa/sw.js:62-66 | A 200/basic response is never stored, so fetching the same request again goes back to the network. |
| `WorkerProperties.StoredThenServedFromCache` | bin/ms-appx-web-pwa/sw.js:51-56 | Once a response has been stored, the same request is answered from the cache with that response, whatever the network would give. |
| `WorkerProperties.OpaqueResponseStored` | bin/ms-appx-web-pwa/sw.js:62-74 | On empty storage, an opaque response to `/app.js` is stored in a newly created worker cache. |
| `WorkerProperties.MissNetworkFailure` | bin/ms-appx-web-pwa/sw.js:81-85 | After a miss, a network failure resolves the answer to undefined, with no fallback, and storage is unchanged. |
| `WorkerProperties.ExcludedUrlNeverStored` | bin/ms-appx-web-pwa/sw.js:64-66 | Any number of fetches of a URL containing `tailwindcss` leave storage unchanged. |
| `WorkerProperties.ActivatedKeepsOnlyCurrent` | bin/ms-appx-web-pwa/sw.js:28-37 | After activation, the names are the old names intersected with the current cache name. The current cache keeps its entries, and storage stays valid. |
| `WorkerProperties.KeepDistinct` | bin/ms-appx-web-pwa/sw.js:32-36 | From a list without repetition, only the current cache name can survive, and it survives exactly when it is listed. |
| `WorkerProperties.ActivateIdempotent` | bin/ms-appx-web-pwa/sw.js:28-37 | Activating twice gives the same storage as activating once. |
| `WorkerProperties.ActivateDropsOldGeneration` | bin/ms-appx-web-pwa/sw.js:28-37 | Given the current cache and `old-cache-v0`, only the current cache and its entries remain. |
| `WorkerProperties.SeedsAccepted` | bin/ms-appx-web-pwa/sw.js:4-6 | The seed list is accepted exactly when both `/` and `/index.html` fetch with an ok, non-206 status. |
| `WorkerProperties.InstallSeedsCache` | bin/ms-appx-web-pwa/sw.js:15-18 | When every seed is accepted, install leaves the current cache holding exactly its old keys plus the seeds, each seed mapped to its response. Its other entries and every other cache are kept, and the name list only gains `CACHE_NAME` at the end if it was absent. |
| `WorkerProperties.InstallSwallowsFailure` | bin/ms-appx-web-pwa/sw.js:15-22 | When some seed is rejected, install still completes. The current cache exists but gains no entry. Every other cache is kept, and the name list only gains `CACHE_NAME` at the end if it was absent. |
| `WorkerProperties.InstalledShellServedFromCache` | bin/ms-appx-web-pwa/sw.js:4-6 | After a successful install, a GET for a seed URL is answered from the cache without changing storage. If no older cache held it, the answer is the seed's response. |
| `WorkerProperties.InstallThenActivate` | bin/ms-appx-web-pwa/sw.js:13-39 | Install followed by activate leaves the current cache as the only one, holding both seeds. |
| `WorkerProperties.OfflineAfterInstall` | bin/ms-appx-web-pwa/sw.js:13-88 | A worker started over an older generation's storage installs, activates, and then, offline, answers `/` with the seeded response rather than the old one. |

## Left out

- Timing of promises: `waitUntil` and `respondWith` lifetimes are not modelled. The `put` at `sw.js:73` is neither returned nor awaited, but the model treats it as done when the handler returns, so a fetch running at the same time cannot catch the put half-done.
- Deletions during activate run concurrently in the source (`Promise.all`). The model deletes them one after another, in the order the names are listed.
- `self.clients.claim()` (`sw.js:40`): a signal to the host with no effect on storage.
- Console logging at `sw.js:17`, `21`, `76` and `82`.
- The network and HTTP: each fetch result is an input (`net`, `network`). A response carries its status, type and body as a value, and cloning it is a copy.
- Matching details of the Cache API: the model omits `Vary` headers, the `ignoreSearch`/`ignoreMethod` options and method-name normalisation. Keys are compared by plain equality of method and URL.
- URL resolution: the seeds `/` and `/index.html` are stored under GET requests for those exact strings, not resolved against the worker's origin. So `put` and `addAll` do not check for an `http`/`https` scheme.
- The `!networkResponse` branch at `sw.js:62`: `fetch` never resolves to null, so a network result is either a response or a failure.
- Failures of `caches.open` and `caches.delete` (quota, storage errors): the model never fails them. That leaves out the unhandled activate rejection and the caught store failure at `sw.js:75-77`.
- Eviction of caches by the browser.
