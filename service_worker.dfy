/**
 * The service worker of bin/ms-appx-web-pwa/sw.js: its constants, the tests its
 * handlers make, what each handler does to cache storage (as functions on a
 * storage value), and the worker itself, whose handlers update the storage in
 * place step by step.
 */
module ServiceWorker {
  import opened Wrappers
  import opened Text
  import opened CacheApi

  /** The one cache generation this worker owns. */
  const CacheName: string := "ms-appx-web-handler-cache-v1"

  /** The app shell pre-cached at install. */
  const UrlsToCache: seq<string> := ["/", "/index.html"]

  /** The cache names activation keeps. */
  const CacheWhitelist: seq<string> := [CacheName]

  /** The fragment of the URL that keeps a response out of the cache. */
  const ExcludedUrlMarker: string := "tailwindcss"

  /** The fetch handler only answers GET requests. */
  predicate Intercepts(req: Request)
  {
    req.verb == "GET"
  }

  /**
   * After a miss, a network response is put into the cache exactly when its
   * status is not 200 or its type is not basic, and the URL does not mention
   * the excluded marker.
   */
  predicate ShouldStore(req: Request, resp: Response)
  {
    (resp.status != 200 || resp.rtype != Basic) && !Includes(req.url, ExcludedUrlMarker)
  }

  /** A cache name survives activation when the whitelist lists it; with its one entry, that is the worker's own name alone. */
  predicate Whitelisted(name: string): (b: bool)
    ensures b <==> name == CacheName
  {
    name in CacheWhitelist
  }

  /** What the fetch handler gives the browser. */
  datatype FetchOutcome =
    | NotHandled                       // respondWith is never called: default network handling
    | FromCache(response: Response)    // answered with a stored response
    | FromNetwork(response: Response)  // answered with the network's response, as it came
    | NoResponse                       // the response promise resolves to undefined

  datatype FetchResult = FetchResult(storage: CacheStorage, outcome: FetchOutcome)

  /** The names of `names` that survive activation, order kept. */
  function Keep(names: seq<string>): (r: seq<string>)
    ensures forall y :: y in r <==> y in names && Whitelisted(y)
    ensures Distinct(names) ==> Distinct(r)
  {
    if names == [] then []
    else
      var rest := Keep(names[1..]);
      assert Distinct(names) ==> names[0] !in names[1..];
      if Whitelisted(names[0]) then [names[0]] + rest else rest
  }

  lemma {:induction false} KeepSnoc(a: seq<string>, x: string)
    ensures Keep(a + [x]) == Keep(a) + (if Whitelisted(x) then [x] else [])
  {
    if a != [] {
      assert (a + [x])[1..] == a[1..] + [x];
      KeepSnoc(a[1..], x);
    } else {
      assert a + [x] == [x];
    }
  }

  /** Install: open (or create) the worker's cache, then add the app shell, all or nothing; a rejection is swallowed. */
  function Installed(s: CacheStorage, network: Request -> NetResult): (r: CacheStorage)
    ensures ValidStorage(s) ==> ValidStorage(r)
    ensures r.names == if CacheName in s.caches then s.names else s.names + [CacheName]
    ensures r.caches.Keys == s.caches.Keys + {CacheName}
    ensures forall n :: n in s.caches && n != CacheName ==> r.caches[n] == s.caches[n]
  {
    var workerCache := Open(s, CacheName);
    match AddAll(workerCache, CacheName, UrlsToCache, network)
    case Some(seeded) => seeded
    case None => workerCache
  }

  /** Activate: every cache whose name is not whitelisted is deleted. */
  function Activated(s: CacheStorage): (r: CacheStorage)
    ensures ValidStorage(s) ==> ValidStorage(r)
    ensures forall n :: n in r.caches <==> n in s.caches && n == CacheName
    ensures forall n :: n in r.caches ==> r.caches[n] == s.caches[n]
  {
    CacheStorage(Keep(s.names), map n | n in s.caches && Whitelisted(n) :: s.caches[n])
  }

  /** The store step of the fetch handler: open the worker's cache, then put a copy of the response (which `put` may reject). */
  function StoreCopy(s: CacheStorage, req: Request, resp: Response): (r: CacheStorage)
    ensures ValidStorage(s) ==> ValidStorage(r)
    ensures r.names == if CacheName in s.caches then s.names else s.names + [CacheName]
    ensures r.caches.Keys == s.caches.Keys + {CacheName}
    ensures forall n :: n in s.caches && n != CacheName ==> r.caches[n] == s.caches[n]
    ensures Holds(r, CacheName, req) <==> PutAccepts(req, resp) || Holds(s, CacheName, req)
    ensures PutAccepts(req, resp) ==> r.caches[CacheName][req] == resp
    ensures !PutAccepts(req, resp) ==> r.caches[CacheName] == (if CacheName in s.caches then s.caches[CacheName] else map[])
    ensures r.caches[CacheName].Keys <= (if CacheName in s.caches then s.caches[CacheName].Keys else {}) + {req}
    ensures forall k :: CacheName in s.caches && k in s.caches[CacheName] && k != req ==> k in r.caches[CacheName] && r.caches[CacheName][k] == s.caches[CacheName][k]
  {
    var workerCache := Open(s, CacheName);
    if PutAccepts(req, resp) then Put(workerCache, CacheName, req, resp) else workerCache
  }

  /** Fetch: the GET filter, the cache-first lookup, the network fallback and its store rule, and the caught network failure. */
  function Handled(s: CacheStorage, req: Request, net: NetResult): (r: FetchResult)
    ensures ValidStorage(s) ==> ValidStorage(r.storage)
    ensures r.outcome.NotHandled? <==> !Intercepts(req)
    ensures r.outcome.FromNetwork? ==> net == Fetched(r.outcome.response)
    ensures r.storage != s ==> r.outcome.FromNetwork? && ShouldStore(req, r.outcome.response)
    ensures forall n :: n in s.caches && n != CacheName ==> n in r.storage.caches && r.storage.caches[n] == s.caches[n]
    ensures r.storage.caches.Keys <= s.caches.Keys + {CacheName}
    ensures r.storage.names == s.names || r.storage.names == s.names + [CacheName]
  {
    if !Intercepts(req) then FetchResult(s, NotHandled)
    else match Match(s, req)
      case Some(hit) => FetchResult(s, FromCache(hit))
      case None =>
        match net
        case NetworkError => FetchResult(s, NoResponse)
        case Fetched(resp) =>
          FetchResult(if ShouldStore(req, resp) then StoreCopy(s, req, resp) else s, FromNetwork(resp))
  }

  /** One turn of activation's deletion loop keeps its invariant. */
  lemma ActivateStep(c: seq<string>, i: int)
    requires Distinct(c) && 0 <= i < |c|
    ensures !Whitelisted(c[i]) ==> Without(Keep(c[..i]) + c[i..], c[i]) == Keep(c[..i + 1]) + c[i + 1..]
    ensures Whitelisted(c[i]) ==> Keep(c[..i]) + c[i..] == Keep(c[..i + 1]) + c[i + 1..]
  {
    var x, done, rest := c[i], c[..i], c[i + 1..];
    assert c[..i + 1] == done + [x];
    assert c[i..] == [x] + rest;
    KeepSnoc(done, x);
    if !Whitelisted(x) {
      DeleteStep(Keep(done), x, rest);
    } else {
      assert Keep(done) + ([x] + rest) == (Keep(done) + [x]) + rest;
    }
  }

  /** A valid storage whose names are the kept ones, each with its old entries, is the activated one. */
  lemma ActivatedFrom(s: CacheStorage, t: CacheStorage)
    requires ValidStorage(s) && ValidStorage(t)
    requires t.names == Keep(s.names)
    requires forall n :: n in t.caches ==> n in s.caches && t.caches[n] == s.caches[n]
    ensures t == Activated(s)
  {
  }

  /** The state of activation after its loop has handled the first `i` names of `s0`. */
  predicate DeletedUpTo(s0: CacheStorage, t: CacheStorage, i: int)
    requires 0 <= i <= |s0.names|
  {
    && ValidStorage(t)
    && t.names == Keep(s0.names[..i]) + s0.names[i..]
    && forall n :: n in t.caches ==> n in s0.caches && t.caches[n] == s0.caches[n]
  }

  /** Handling name `i` (deleting it unless whitelisted) moves the loop state on by one. */
  lemma DeleteTurn(s0: CacheStorage, t: CacheStorage, i: int)
    requires ValidStorage(s0) && 0 <= i < |s0.names| && DeletedUpTo(s0, t, i)
    ensures DeletedUpTo(s0, if Whitelisted(s0.names[i]) then t else Delete(t, s0.names[i]), i + 1)
  {
    ActivateStep(s0.names, i);
  }

  /** The worker, holding the origin's cache storage (`self.caches`). */
  class Worker {
    var names: seq<string>
    var caches: map<string, Cache>

    function State(): CacheStorage
      reads this
    {
      CacheStorage(names, caches)
    }

    predicate Valid()
      reads this
    {
      ValidStorage(State())
    }

    constructor (initial: CacheStorage)
      requires ValidStorage(initial)
      ensures Valid() && State() == initial
    {
      names := initial.names;
      caches := initial.caches;
    }

    /** The install handler; `network` gives what each seed fetch settles to. */
    method Install(network: Request -> NetResult)
      requires Valid()
      modifies this
      ensures Valid()
      ensures State() == Installed(old(State()), network)
    {
      var workerCache := Open(State(), CacheName);
      names, caches := workerCache.names, workerCache.caches;
      var added := AddAll(State(), CacheName, UrlsToCache, network);
      if added.Some? {
        names, caches := added.value.names, added.value.caches;
      }
    }

    /** The activate handler: deletes, one by one, each listed cache that is not whitelisted. */
    method Activate()
      requires Valid()
      modifies this
      ensures Valid()
      ensures State() == Activated(old(State()))
    {
      ghost var before := State();
      var cacheNames := names;
      for i := 0 to |cacheNames|
        invariant DeletedUpTo(before, State(), i)
      {
        DeleteTurn(before, State(), i);
        if !Whitelisted(cacheNames[i]) {
          var after := Delete(State(), cacheNames[i]);
          names, caches := after.names, after.caches;
        }
      }
      assert cacheNames[..|cacheNames|] == cacheNames;
      ActivatedFrom(before, State());
    }

    /** The fetch handler for `req`; `net` is what the network would give for it, consulted only on a miss. */
    method Fetch(req: Request, net: NetResult) returns (outcome: FetchOutcome)
      requires Valid()
      modifies this
      ensures Valid()
      ensures FetchResult(State(), outcome) == Handled(old(State()), req, net)
    {
      if req.verb != "GET" {
        return NotHandled;
      }
      var cached := Match(State(), req);
      if cached.Some? {
        return FromCache(cached.value);
      }
      if net.NetworkError? {
        return NoResponse;
      }
      var networkResponse := net.response;
      if networkResponse.status != 200 || networkResponse.rtype != Basic {
        if Includes(req.url, ExcludedUrlMarker) {
          return FromNetwork(networkResponse);
        }
        var responseToCache := networkResponse;
        var workerCache := Open(State(), CacheName);
        names, caches := workerCache.names, workerCache.caches;
        if PutAccepts(req, responseToCache) {
          var stored := Put(State(), CacheName, req, responseToCache);
          names, caches := stored.names, stored.caches;
        }
      }
      return FromNetwork(networkResponse);
    }
  }
}
