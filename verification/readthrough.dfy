/**
 The cache-or-fetch discipline shared by the three network sites of
 cmd/main.go (fetchAndPrintLocations, commandExplore, commandCatch).

 The response cache is a plain map from request URL to body; its time-based
 expiry is not part of this model. The HTTP request and the reading of its
 body happen outside the model and arrive as a `Fetch` value.
 */
module ResponseCache {
  import opened Base

  type Cache = map<string, Bytes>

  /** What the network gave for one URL. */
  datatype Fetch =
    | RequestFailed      // http.Get returned an error
    | ReadFailed         // io.ReadAll returned an error
    | Fetched(body: Bytes)

  datatype LoadError = RequestError | ReadError

  /** The cache after a load, the body (or why there is none), and whether a hit served it. */
  datatype Load = Load(cache: Cache, body: Result<Bytes, LoadError>, hit: bool)

  /** c' keeps every entry of c unchanged (and may hold more). */
  ghost predicate Extends(c: Cache, c': Cache) {
    forall u :: u in c ==> u in c' && c'[u] == c[u]
  }

  /**
   Consult the cache first; on a miss use the fetch and, when a body was read,
   store it under the URL before anybody looks at its contents.
   */
  function ReadThrough(cache: Cache, url: string, fetch: Fetch): (r: Load)
    ensures r.hit <==> url in cache
    ensures r.hit ==> r.cache == cache && r.body == Ok(cache[url])
    ensures !r.hit && fetch.Fetched? ==> r.cache == cache[url := fetch.body] && r.body == Ok(fetch.body)
    ensures !r.hit && fetch == RequestFailed ==> r.cache == cache && r.body == Err(RequestError)
    ensures !r.hit && fetch == ReadFailed ==> r.cache == cache && r.body == Err(ReadError)
    ensures Extends(cache, r.cache)
  {
    if url in cache then Load(cache, Ok(cache[url]), true)
    else
      match fetch
      case RequestFailed => Load(cache, Err(RequestError), false)
      case ReadFailed => Load(cache, Err(ReadError), false)
      case Fetched(body) => Load(cache[url := body], Ok(body), false)
  }

  /** Why a command got no usable response. */
  datatype Failure = LoadFailed(error: LoadError) | ParseFailed

  /** The cache after a load, and the decoded response (or why there is none). */
  datatype Decoded<T> = Decoded(cache: Cache, result: Result<T, Failure>)

  /**
   A read-through load followed by JSON decoding of the body, which may come
   from the cache or from the network alike. A body that fails to decode
   stays cached.
   */
  function LoadAndDecode<T>(cache: Cache, url: string, fetch: Fetch, decode: Bytes -> Option<T>): (r: Decoded<T>)
    ensures r.cache == ReadThrough(cache, url, fetch).cache
    ensures r.result.Ok? <==> ReadThrough(cache, url, fetch).body.Ok? && decode(ReadThrough(cache, url, fetch).body.value).Some?
    ensures r.result.Ok? ==> Some(r.result.value) == decode(ReadThrough(cache, url, fetch).body.value)
    ensures ReadThrough(cache, url, fetch).body.Err? ==> r.result == Err(LoadFailed(ReadThrough(cache, url, fetch).body.error))
    ensures ReadThrough(cache, url, fetch).body.Ok? && decode(ReadThrough(cache, url, fetch).body.value).None? ==> r.result == Err(ParseFailed)
  {
    var load := ReadThrough(cache, url, fetch);
    match load.body
    case Err(e) => Decoded(load.cache, Err(LoadFailed(e)))
    case Ok(body) =>
      match decode(body)
      case None => Decoded(load.cache, Err(ParseFailed))
      case Some(v) => Decoded(load.cache, Ok(v))
  }

  /** The entries a cache holds for every URL but one. */
  ghost predicate SameExcept(c: Cache, c': Cache, url: string) {
    forall u :: u != url ==> (u in c <==> u in c') && (u in c ==> c[u] == c'[u])
  }

  // ---------------------------------------------------------------------
  // Properties

  /** A hit does not depend on the network at all. */
  lemma HitIgnoresFetch(cache: Cache, url: string, f: Fetch, g: Fetch)
    requires url in cache
    ensures ReadThrough(cache, url, f) == ReadThrough(cache, url, g)
  {
  }

  /** A load only ever touches the entry of its own URL, and never drops it. */
  lemma LoadTouchesOnlyItsUrl(cache: Cache, url: string, fetch: Fetch)
    ensures SameExcept(cache, ReadThrough(cache, url, fetch).cache, url)
    ensures cache.Keys <= ReadThrough(cache, url, fetch).cache.Keys
    ensures url in cache ==> ReadThrough(cache, url, fetch).cache[url] == cache[url]
  {
  }

  /** After a load that produced a body, the same URL is a hit with that body, whatever the network does. */
  lemma LoadThenHit(cache: Cache, url: string, fetch: Fetch, next: Fetch)
    requires ReadThrough(cache, url, fetch).body.Ok?
    ensures var first := ReadThrough(cache, url, fetch);
      ReadThrough(first.cache, url, next) == Load(first.cache, first.body, true)
  {
  }

  /** A load that produced no body changed nothing, so repeating it with a new fetch is a fresh attempt. */
  lemma FailedLoadKeepsCache(cache: Cache, url: string, fetch: Fetch)
    requires ReadThrough(cache, url, fetch).body.Err?
    ensures ReadThrough(cache, url, fetch).cache == cache
    ensures url !in cache
  {
  }

  /** A body that arrived but does not decode is still cached under its URL. */
  lemma UndecodableBodyIsCached<T>(cache: Cache, url: string, body: Bytes, decode: Bytes -> Option<T>)
    requires url !in cache && decode(body).None?
    ensures LoadAndDecode(cache, url, Fetched(body), decode) == Decoded(cache[url := body], Err(ParseFailed))
  {
  }
}
