/**
 * The browser's cache storage as the worker sees it, reduced to values: an
 * ordered collection of named caches, each a map from request to response.
 * `caches.open`, `caches.delete`, `caches.match`, `Cache.put` and
 * `Cache.addAll` become functions from one storage value to the next.
 */
module CacheApi {
  import opened Wrappers

  /** The `type` of a Response in the Fetch standard (a network error never reaches the worker as a response). */
  datatype ResponseType = Basic | Cors | Default | Opaque | OpaqueRedirect

  /** A request identity: its method (`verb`) and URL. Cache keys compare by plain equality of both. */
  datatype Request = Request(verb: string, url: string)

  /** The parts of a response the worker looks at, and its body as a value (a clone is a copy). */
  datatype Response = Response(status: nat, rtype: ResponseType, body: string)

  /** What `fetch(request)` settles to: a response, or a rejection. */
  datatype NetResult = Fetched(response: Response) | NetworkError

  type Cache = map<Request, Response>

  /** `names` lists the caches in creation order; `caches` gives each one's entries. */
  datatype CacheStorage = CacheStorage(names: seq<string>, caches: map<string, Cache>)

  predicate Distinct<T(==)>(xs: seq<T>)
  {
    forall i, j :: 0 <= i < j < |xs| ==> xs[i] != xs[j]
  }

  /** Each cache is listed once, and exactly the caches that exist are listed. */
  predicate ValidStorage(s: CacheStorage)
  {
    && Distinct(s.names)
    && (forall n :: n in s.caches ==> n in s.names)
    && (forall n :: n in s.names ==> n in s.caches)
  }

  /** The request `new Request(url)` builds, which is what `addAll` fetches and stores under. */
  function GetRequest(url: string): Request
  {
    Request("GET", url)
  }

  /** `xs` with every occurrence of `x` removed, order kept. */
  function Without(xs: seq<string>, x: string): (r: seq<string>)
    ensures forall y :: y in r <==> y in xs && y != x
    ensures Distinct(xs) ==> Distinct(r)
  {
    if xs == [] then []
    else if xs[0] == x then Without(xs[1..], x)
    else
      var rest := Without(xs[1..], x);
      assert Distinct(xs) ==> xs[0] !in xs[1..];
      [xs[0]] + rest
  }

  lemma {:induction false} WithoutAbsent(xs: seq<string>, x: string)
    requires x !in xs
    ensures Without(xs, x) == xs
  {
    if xs != [] {
      WithoutAbsent(xs[1..], x);
      assert xs == [xs[0]] + xs[1..];
    }
  }

  lemma {:induction false} WithoutAppend(a: seq<string>, b: seq<string>, x: string)
    ensures Without(a + b, x) == Without(a, x) + Without(b, x)
  {
    if a != [] {
      WithoutAppend(a[1..], b, x);
      assert (a + b)[1..] == a[1..] + b;
    } else {
      assert a + b == b;
    }
  }

  /** `caches.open(name)`: an existing cache is returned as it is; otherwise an empty one is created after all others. */
  function Open(s: CacheStorage, name: string): (r: CacheStorage)
    ensures ValidStorage(s) ==> ValidStorage(r)
    ensures r.caches.Keys == s.caches.Keys + {name}
    ensures forall n :: n in s.caches ==> r.caches[n] == s.caches[n]
    ensures name !in s.caches ==> r.caches[name] == map[] && r.names == s.names + [name]
    ensures name in s.caches ==> r == s
  {
    if name in s.caches then s
    else CacheStorage(s.names + [name], s.caches[name := map[]])
  }

  /** `Cache.put` resolves (rather than rejecting with a TypeError) only for a GET request and a response whose status is not 206. */
  predicate PutAccepts(req: Request, resp: Response)
  {
    req.verb == "GET" && resp.status != 206
  }

  /** `cache.put(req, resp)` on the cache called `name`: the entry for `req` becomes `resp`, nothing else changes. */
  function Put(s: CacheStorage, name: string, req: Request, resp: Response): (r: CacheStorage)
    requires name in s.caches
    ensures ValidStorage(s) ==> ValidStorage(r)
    ensures r.names == s.names && r.caches.Keys == s.caches.Keys
    ensures r.caches[name].Keys == s.caches[name].Keys + {req}
    ensures r.caches[name][req] == resp
    ensures forall k :: k in s.caches[name] && k != req ==> r.caches[name][k] == s.caches[name][k]
    ensures forall n :: n in s.caches && n != name ==> r.caches[n] == s.caches[n]
  {
    CacheStorage(s.names, s.caches[name := s.caches[name][req := resp]])
  }

  /** `caches.delete(name)`: the cache and its entries are gone; the others keep their entries and their order. */
  function Delete(s: CacheStorage, name: string): (r: CacheStorage)
    ensures ValidStorage(s) ==> ValidStorage(r)
    ensures r.caches.Keys == s.caches.Keys - {name}
    ensures forall n :: n in r.caches ==> r.caches[n] == s.caches[n]
    ensures forall n :: n in r.names <==> n in s.names && n != name
  {
    CacheStorage(Without(s.names, name), s.caches - {name})
  }

  /** Removing one occurrence from the middle of a list without it elsewhere. */
  lemma DeleteStep(kept: seq<string>, x: string, rest: seq<string>)
    requires x !in kept && x !in rest
    ensures Without(kept + ([x] + rest), x) == kept + rest
  {
    WithoutAppend(kept, [x] + rest, x);
    WithoutAbsent(kept, x);
    assert ([x] + rest)[1..] == rest;
    WithoutAbsent(rest, x);
  }

  /** Deleting a listed cache cuts its name out of the list; the other names keep their order. */
  lemma DeleteKeepsOrder(s: CacheStorage, name: string, i: int)
    requires Distinct(s.names) && 0 <= i < |s.names| && s.names[i] == name
    ensures Delete(s, name).names == s.names[..i] + s.names[i + 1..]
  {
    assert s.names == s.names[..i] + ([name] + s.names[i + 1..]);
    assert name !in s.names[..i] && name !in s.names[i + 1..];
    DeleteStep(s.names[..i], name, s.names[i + 1..]);
  }

  /** Deleting a name that is not listed leaves the list as it was. */
  lemma DeleteAbsent(s: CacheStorage, name: string)
    requires name !in s.names
    ensures Delete(s, name).names == s.names
  {
    WithoutAbsent(s.names, name);
  }

  predicate Holds(s: CacheStorage, name: string, req: Request)
  {
    name in s.caches && req in s.caches[name]
  }

  /** The first of `names` whose cache holds `req`, and its entry. */
  function MatchIn(s: CacheStorage, names: seq<string>, req: Request): Option<Response>
  {
    if names == [] then None
    else if Holds(s, names[0], req) then Some(s.caches[names[0]][req])
    else MatchIn(s, names[1..], req)
  }

  /** `caches.match(req)`: searches every cache, in creation order; it misses exactly when no listed cache holds `req`. */
  function Match(s: CacheStorage, req: Request): (r: Option<Response>)
    ensures r.None? <==> forall k :: 0 <= k < |s.names| ==> !Holds(s, s.names[k], req)
  {
    MatchInMiss(s, s.names, req);
    MatchIn(s, s.names, req)
  }

  /** A miss means no listed cache holds the request. */
  lemma {:induction false} MatchInMiss(s: CacheStorage, names: seq<string>, req: Request)
    ensures MatchIn(s, names, req).None? <==> forall k :: 0 <= k < |names| ==> !Holds(s, names[k], req)
  {
    if names != [] {
      MatchInMiss(s, names[1..], req);
      if !Holds(s, names[0], req) {
        forall k | 0 < k < |names| ensures names[k] == names[1..][k - 1] {}
      }
    }
  }

  /** A hit returns the entry of the first listed cache that holds the request. */
  lemma {:induction false} MatchInFirst(s: CacheStorage, names: seq<string>, req: Request, k: int)
    requires 0 <= k < |names| && Holds(s, names[k], req)
    requires forall j :: 0 <= j < k ==> !Holds(s, names[j], req)
    ensures MatchIn(s, names, req) == Some(s.caches[names[k]][req])
  {
    if k > 0 {
      assert !Holds(s, names[0], req);
      forall j | 0 <= j < k - 1 ensures !Holds(s, names[1..][j], req) {
        assert names[1..][j] == names[j + 1];
      }
      MatchInFirst(s, names[1..], req, k - 1);
    }
  }

  /** A valid storage misses a request exactly when none of its caches holds it. */
  lemma MatchMiss(s: CacheStorage, req: Request)
    requires ValidStorage(s)
    ensures Match(s, req).None? <==> forall n :: n in s.caches ==> req !in s.caches[n]
  {
  }

  /** When only one cache holds the request, a lookup returns that cache's entry. */
  lemma MatchOnlyHolder(s: CacheStorage, req: Request, name: string)
    requires ValidStorage(s) && Holds(s, name, req)
    requires forall n :: n in s.caches && n != name ==> req !in s.caches[n]
    ensures Match(s, req) == Some(s.caches[name][req])
  {
    var k :| 0 <= k < |s.names| && s.names[k] == name;
    forall j | 0 <= j < k ensures !Holds(s, s.names[j], req) {
      assert s.names[j] != s.names[k];
    }
    MatchInFirst(s, s.names, req, k);
  }

  /** `addAll` takes a fetched seed only when its status is ok (200 to 299) and not 206. */
  predicate AddAllAccepts(res: NetResult)
  {
    res.Fetched? && 200 <= res.response.status <= 299 && res.response.status != 206
  }

  predicate AllAccepted(urls: seq<string>, network: Request -> NetResult)
  {
    forall u :: u in urls ==> AddAllAccepts(network(GetRequest(u)))
  }

  function SeedKeys(urls: seq<string>): set<Request>
  {
    set u | u in urls :: GetRequest(u)
  }

  /** The entries `addAll` would write: each URL's GET request to its fetched response. */
  function Entries(urls: seq<string>, network: Request -> NetResult): (m: Cache)
    requires AllAccepted(urls, network)
    ensures m.Keys == SeedKeys(urls)
    ensures forall u :: u in urls ==> m[GetRequest(u)] == network(GetRequest(u)).response
  {
    map u | u in urls :: GetRequest(u) := network(GetRequest(u)).response
  }

  /**
   * `cache.addAll(urls)` on the cache called `name`, all or nothing: it rejects
   * (None) when any fetch fails or is not accepted, or when two of the URLs name
   * the same request; otherwise every seed is stored and nothing else changes.
   */
  function AddAll(s: CacheStorage, name: string, urls: seq<string>, network: Request -> NetResult): (r: Option<CacheStorage>)
    requires name in s.caches
    ensures r.Some? <==> AllAccepted(urls, network) && Distinct(urls)
    ensures r.Some? ==> r.value.names == s.names && r.value.caches.Keys == s.caches.Keys
    ensures r.Some? ==> forall n :: n in s.caches && n != name ==> r.value.caches[n] == s.caches[n]
    ensures r.Some? ==> r.value.caches[name].Keys == s.caches[name].Keys + SeedKeys(urls)
    ensures r.Some? ==> forall u :: u in urls ==> r.value.caches[name][GetRequest(u)] == network(GetRequest(u)).response
    ensures r.Some? ==> forall k :: k in s.caches[name] && k !in SeedKeys(urls) ==> r.value.caches[name][k] == s.caches[name][k]
    ensures r.Some? && ValidStorage(s) ==> ValidStorage(r.value)
  {
    if AllAccepted(urls, network) && Distinct(urls) then
      Some(CacheStorage(s.names, s.caches[name := s.caches[name] + Entries(urls, network)]))
    else
      None
  }
}
