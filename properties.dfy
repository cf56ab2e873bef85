/**
 * What the three handlers promise, stated over the storage functions that the
 * worker's methods implement.
 */
module WorkerProperties {
  import opened Wrappers
  import opened Text
  import opened CacheApi
  import opened ServiceWorker

  /** No cache holds the request. */
  predicate Misses(s: CacheStorage, req: Request)
  {
    forall n :: n in s.caches ==> req !in s.caches[n]
  }

  // ---------------------------------------------------------------- fetch

  /** A request that is not GET is left to the browser, whatever the caches hold, and storage is unchanged. */
  lemma NonGetNotHandled(s: CacheStorage, req: Request, net: NetResult)
    requires !Intercepts(req)
    ensures Handled(s, req, net) == FetchResult(s, NotHandled)
  {
  }

  /** A hit answers with the entry of the first cache, in creation order, that holds the request. */
  lemma HitServedFromFirstCache(s: CacheStorage, req: Request, net: NetResult, k: int)
    requires Intercepts(req)
    requires 0 <= k < |s.names| && Holds(s, s.names[k], req)
    requires forall j :: 0 <= j < k ==> !Holds(s, s.names[j], req)
    ensures Handled(s, req, net) == FetchResult(s, FromCache(s.caches[s.names[k]][req]))
  {
    MatchInFirst(s, s.names, req, k);
  }

  /**
   * When any cache holds the request, the answer comes from the cache: it is
   * the same whatever the network would have given, and storage is unchanged.
   */
  lemma HitIgnoresNetwork(s: CacheStorage, req: Request, net1: NetResult, net2: NetResult, name: string)
    requires ValidStorage(s) && Intercepts(req)
    requires name in s.caches && req in s.caches[name]
    ensures Handled(s, req, net1) == Handled(s, req, net2)
    ensures Handled(s, req, net1).storage == s
    ensures Handled(s, req, net1).outcome.FromCache?
  {
  }

  /** After a miss, a network response reaches the caller as it came, whether or not it is stored. */
  lemma MissReturnsNetworkResponse(s: CacheStorage, req: Request, resp: Response)
    requires ValidStorage(s) && Intercepts(req) && Misses(s, req)
    ensures Handled(s, req, Fetched(resp)).outcome == FromNetwork(resp)
  {
  }

  /** After a miss, a network failure is caught: the response promise resolves to undefined and storage is unchanged. */
  lemma MissNetworkFailure(s: CacheStorage, req: Request)
    requires ValidStorage(s) && Intercepts(req) && Misses(s, req)
    ensures Handled(s, req, NetworkError) == FetchResult(s, NoResponse)
  {
  }

  /**
   * The store rule as the code has it. After a miss, the worker's cache holds
   * the response under the request exactly when the status is not 200 or the
   * type is not basic, the URL does not mention the excluded marker, and put
   * accepts it (status not 206). When the store rule holds the worker's cache
   * exists afterwards (open created it if needed); when it does not, nothing
   * changes. Other caches, and the worker cache's other entries, are untouched;
   * the cache gains no key but the request, and the name list gains only the
   * worker's cache name, at the end, when open creates it.
   */
  lemma MissStoreRule(s: CacheStorage, req: Request, resp: Response)
    requires ValidStorage(s) && Intercepts(req) && Misses(s, req)
    ensures var t := Handled(s, req, Fetched(resp)).storage;
      && ValidStorage(t)
      && (Holds(t, CacheName, req) <==> ShouldStore(req, resp) && resp.status != 206)
      && (Holds(t, CacheName, req) ==> t.caches[CacheName][req] == resp)
      && (ShouldStore(req, resp) ==> CacheName in t.caches)
      && (!ShouldStore(req, resp) ==> t == s)
      && t.caches.Keys <= s.caches.Keys + {CacheName}
      && (forall n :: n in s.caches ==> n in t.caches)
      && (forall n :: n in s.caches && n != CacheName ==> t.caches[n] == s.caches[n])
      && (forall k :: CacheName in s.caches && k in s.caches[CacheName] ==> t.caches[CacheName][k] == s.caches[CacheName][k])
      && (CacheName in t.caches ==> t.caches[CacheName].Keys <= (if CacheName in s.caches then s.caches[CacheName].Keys else {}) + {req})
      && t.names == (if ShouldStore(req, resp) && CacheName !in s.caches then s.names + [CacheName] else s.names)
  {
  }

  /** A 200 response of type basic, the one the code's comments call valid, is never stored. */
  lemma ValidResponseNotStored(s: CacheStorage, req: Request, resp: Response, net: NetResult)
    requires ValidStorage(s) && Intercepts(req) && Misses(s, req)
    requires resp.status == 200 && resp.rtype == Basic
    ensures Handled(s, req, Fetched(resp)).storage == s
    ensures Handled(Handled(s, req, Fetched(resp)).storage, req, net).outcome
         == (if net.Fetched? then FromNetwork(net.response) else NoResponse)
  {
  }

  /** Once a response has been stored, the same request is answered from the cache with it, whatever the network would give. */
  lemma StoredThenServedFromCache(s: CacheStorage, req: Request, resp: Response, net: NetResult)
    requires ValidStorage(s) && Intercepts(req) && Misses(s, req)
    requires ShouldStore(req, resp) && resp.status != 206
    ensures var t := Handled(s, req, Fetched(resp)).storage;
      Handled(t, req, net) == FetchResult(t, FromCache(resp))
  {
    MatchMiss(s, req);
    var t := Handled(s, req, Fetched(resp)).storage;
    MissStoreRule(s, req, resp);
    MatchOnlyHolder(t, req, CacheName);
  }

  /** An opaque response (status 0) to a fresh storage is stored, although the comment at the store step says opaque responses are not. */
  lemma OpaqueResponseStored()
    ensures var req := GetRequest("/app.js");
      var resp := Response(0, Opaque, "");
      Handled(CacheStorage([], map[]), req, Fetched(resp)).storage
        == CacheStorage([CacheName], map[CacheName := map[req := resp]])
  {
  }

  /** Storage after fetching `req` once for each network result in `nets`, in order. */
  function AfterFetches(s: CacheStorage, req: Request, nets: seq<NetResult>): CacheStorage
    decreases nets
  {
    if nets == [] then s else AfterFetches(Handled(s, req, nets[0]).storage, req, nets[1..])
  }

  /** A request whose URL mentions the excluded marker never changes storage, however often it is fetched. */
  lemma {:induction false} ExcludedUrlNeverStored(s: CacheStorage, req: Request, nets: seq<NetResult>)
    requires Includes(req.url, ExcludedUrlMarker)
    ensures AfterFetches(s, req, nets) == s
  {
    if nets != [] {
      assert Handled(s, req, nets[0]).storage == s;
      ExcludedUrlNeverStored(s, req, nets[1..]);
    }
  }

  // ---------------------------------------------------------------- activate

  /**
   * Activation leaves at most the worker's own cache, with its entries; the
   * surviving names are the old names intersected with the whitelist.
   */
  lemma ActivatedKeepsOnlyCurrent(s: CacheStorage)
    requires ValidStorage(s)
    ensures var t := Activated(s);
      && ValidStorage(t)
      && t.names == (if CacheName in s.caches then [CacheName] else [])
      && (forall n :: n in t.caches <==> n in s.caches && n == CacheName)
      && (CacheName in s.caches ==> t.caches[CacheName] == s.caches[CacheName])
  {
    KeepDistinct(s.names);
  }

  /** From a list without repetitions, activation keeps the worker's cache name alone if listed, else nothing. */
  lemma {:induction false} KeepDistinct(names: seq<string>)
    requires Distinct(names)
    ensures Keep(names) == if CacheName in names then [CacheName] else []
  {
    if names != [] {
      assert Distinct(names[1..]);
      KeepDistinct(names[1..]);
      assert names[0] !in names[1..];
      assert CacheName in names <==> names[0] == CacheName || CacheName in names[1..];
    }
  }

  lemma {:induction false} KeepIdempotent(names: seq<string>)
    ensures Keep(Keep(names)) == Keep(names)
  {
    if names != [] {
      KeepIdempotent(names[1..]);
      var rest := Keep(names[1..]);
      if Whitelisted(names[0]) {
        assert ([names[0]] + rest)[1..] == rest;
      }
    }
  }

  /** Activating twice leaves the same storage as activating once. */
  lemma ActivateIdempotent(s: CacheStorage)
    ensures Activated(Activated(s)) == Activated(s)
  {
    KeepIdempotent(s.names);
  }

  /** The worker's cache and an older generation: only the worker's cache remains. */
  lemma ActivateDropsOldGeneration(current: Cache, stale: Cache)
    ensures Activated(CacheStorage([CacheName, "old-cache-v0"], map[CacheName := current, "old-cache-v0" := stale]))
         == CacheStorage([CacheName], map[CacheName := current])
  {
    var s := CacheStorage([CacheName, "old-cache-v0"], map[CacheName := current, "old-cache-v0" := stale]);
    assert s.names[1..] == ["old-cache-v0"];
    assert ["old-cache-v0"][1..] == [];
    assert Keep(["old-cache-v0"]) == [];
    assert Activated(s).caches.Keys == {CacheName};
  }

  // ---------------------------------------------------------------- install

  /** The seed list is accepted exactly when both seeds fetch with an ok, non-206 status. */
  lemma SeedsAccepted(network: Request -> NetResult)
    ensures AllAccepted(UrlsToCache, network)
        <==> AddAllAccepts(network(GetRequest("/"))) && AddAllAccepts(network(GetRequest("/index.html")))
  {
    assert UrlsToCache[0] == "/" && UrlsToCache[1] == "/index.html";
  }

  /**
   * Install when every seed is accepted: the worker's cache exists and holds
   * each seed's response; its other entries and every other cache are kept.
   */
  lemma InstallSeedsCache(s: CacheStorage, network: Request -> NetResult)
    requires ValidStorage(s) && AllAccepted(UrlsToCache, network)
    ensures var t := Installed(s, network);
      && ValidStorage(t)
      && t.caches.Keys == s.caches.Keys + {CacheName}
      && (forall u :: u in UrlsToCache ==> Holds(t, CacheName, GetRequest(u)) && t.caches[CacheName][GetRequest(u)] == network(GetRequest(u)).response)
      && (forall n :: n in s.caches && n != CacheName ==> t.caches[n] == s.caches[n])
      && (forall k :: CacheName in s.caches && k in s.caches[CacheName] && k !in SeedKeys(UrlsToCache) ==> t.caches[CacheName][k] == s.caches[CacheName][k])
      && t.caches[CacheName].Keys == (if CacheName in s.caches then s.caches[CacheName].Keys else {}) + SeedKeys(UrlsToCache)
      && t.names == (if CacheName in s.caches then s.names else s.names + [CacheName])
  {
  }

  /**
   * Install when some seed is not accepted: the rejection is swallowed, the
   * worker's cache exists (open created it if needed) and gains no entry, and
   * nothing else changes.
   */
  lemma InstallSwallowsFailure(s: CacheStorage, network: Request -> NetResult)
    requires ValidStorage(s) && !AllAccepted(UrlsToCache, network)
    ensures var t := Installed(s, network);
      && ValidStorage(t)
      && t.caches.Keys == s.caches.Keys + {CacheName}
      && t.caches[CacheName] == (if CacheName in s.caches then s.caches[CacheName] else map[])
      && (forall n :: n in s.caches ==> t.caches[n] == s.caches[n])
      && t.names == (if CacheName in s.caches then s.names else s.names + [CacheName])
  {
  }

  /** After a successful install the app shell is served from the cache, without the network. */
  lemma InstalledShellServedFromCache(s: CacheStorage, network: Request -> NetResult, u: string, net: NetResult)
    requires ValidStorage(s) && AllAccepted(UrlsToCache, network) && u in UrlsToCache
    ensures var t := Installed(s, network);
      && Handled(t, GetRequest(u), net).storage == t
      && Handled(t, GetRequest(u), net).outcome.FromCache?
      && (Misses(s, GetRequest(u)) ==> Handled(t, GetRequest(u), net).outcome == FromCache(network(GetRequest(u)).response))
  {
    InstallSeedsCache(s, network);
    var t := Installed(s, network);
    MatchMiss(t, GetRequest(u));
    if Misses(s, GetRequest(u)) {
      MatchOnlyHolder(t, GetRequest(u), CacheName);
    }
  }

  /** Install then activate: the worker's cache is the only one left, and it holds the app shell. */
  lemma InstallThenActivate(s: CacheStorage, network: Request -> NetResult)
    requires ValidStorage(s) && AllAccepted(UrlsToCache, network)
    ensures var t := Activated(Installed(s, network));
      && t.names == [CacheName]
      && forall u :: u in UrlsToCache ==> Holds(t, CacheName, GetRequest(u))
  {
    InstallSeedsCache(s, network);
    ActivatedKeepsOnlyCurrent(Installed(s, network));
  }

  // ---------------------------------------------------------------- the worker

  /**
   * A worker started over storage left by an older generation: install with
   * the app shell available, activate, then fetch "/" while offline. The
   * answer is the seeded response.
   */
  method OfflineAfterInstall(network: Request -> NetResult) returns (outcome: FetchOutcome)
    requires AllAccepted(UrlsToCache, network)
    ensures outcome == FromCache(network(GetRequest("/")).response)
  {
    var stale := CacheStorage(["old-cache-v0"], map["old-cache-v0" := map[GetRequest("/") := Response(200, Basic, "old")]]);
    var w := new Worker(stale);
    w.Install(network);
    w.Activate();
    ghost var installed := Installed(stale, network);
    InstallSeedsCache(stale, network);
    ActivatedKeepsOnlyCurrent(installed);
    assert Holds(w.State(), CacheName, GetRequest("/"));
    MatchOnlyHolder(w.State(), GetRequest("/"), CacheName);
    outcome := w.Fetch(GetRequest("/"), NetworkError);
  }
}
