/** The resource nodes of the TAXII 2.0 client (src/taxii2lib.js): the
    connection with its `asyncFetch`/`fetchThis`, the `{cache, flag}` option
    records, and the `Server`, `Collections`, `Collection` and `Status`
    endpoints that own them.

    The network is the connection's `respond` function: the JSON value (or
    `undefined`, for a failed fetch) that the n-th request receives. Every
    request is appended to `requests`, so "one network call" and "no network
    call" are statements about that log. Calls run one after another: the
    model has no interleaving of the library's promises. */
module Taxii {
  import opened Optional
  import opened JsValue
  import opened Query
  import opened Paths

  datatype Verb = GET | POST

  /** A request handed to `fetch`: the config's method, the URL argument
      (whatever value it is) and the body, which no request of the library
      carries. */
  datatype Request = Request(verb: Verb, target: Value, body: Option<Value>)

  function GetRequest(url: string): Request {
    Request(GET, Str(url), None)
  }

  /** An option record `{"cache": ..., "flag": ...}`: `flag` says that
      `cache` holds a response and no request is needed. */
  class Cell {
    var cache: Value
    var flag: bool

    constructor (initial: Value)
      ensures cache == initial && !flag
    {
      cache := initial;
      flag := false;
    }
  }

  /** What one `fetchThis(url, options)` did: on a set flag it left the cell
      and the network alone; otherwise it sent exactly one GET for `url`,
      stored the response and set the flag. Either way the value returned is
      the cell's new `cache`. */
  twostate predicate Fetched(conn: Connection, options: Cell, url: string)
    reads conn, options
  {
    && options.flag
    && if old(options.flag) then
         options.cache == old(options.cache) && conn.requests == old(conn.requests)
       else
         && conn.requests == old(conn.requests) + [GetRequest(url)]
         && options.cache == conn.respond(GetRequest(url), |old(conn.requests)|)
  }

  /** `TaxiiConnect`: the base URL and the network. User, password and the
      authentication headers built from them are not part of this model. */
  class Connection {
    const baseURL: string
    const respond: (Request, nat) -> Value
    var requests: seq<Request>

    constructor (url: string, respond: (Request, nat) -> Value)
      ensures baseURL == WithoutLastSlash(url) && this.respond == respond && requests == []
    {
      baseURL := WithoutLastSlash(url);
      this.respond := respond;
      requests := [];
    }

    /** `asyncFetch(path, config, filter)`: one request to `path`, with
        `"?" + asQueryString(filter)` appended when a filter is passed; a
        failed fetch resolves to `undefined`, never to an error. */
    method AsyncFetch(path: Value, verb: Verb, filter: Option<Filter>) returns (v: Value)
      requires filter.Some? ==> path.Str?
      modifies this`requests
      ensures var req := Request(verb, if filter.Some? then Str(FullPath(path.s, filter)) else path, None);
        requests == old(requests) + [req] && v == respond(req, |old(requests)|)
    {
      var fullPath := if filter.None? then path else Str(FullPath(path.s, filter));
      var req := Request(verb, fullPath, None);
      v := respond(req, |requests|);
      requests := requests + [req];
    }

    /** `fetchThis(path, options, filter)`. The filter takes part in the URL
        but not in the decision to fetch. */
    method FetchThis(path: string, options: Cell, filter: Option<Filter>) returns (v: Value)
      modifies this`requests, options
      ensures Fetched(this, options, FullPath(path, filter)) && v == options.cache
    {
      if !options.flag {
        options.cache := AsyncFetch(Str(path), GET, filter);
        options.flag := true;
        v := options.cache;
      } else {
        v := options.cache;
      }
    }
  }

  // -----------------------------------------------------------------------
  // Server

  /** `discovery.api_roots`, which `_getApiRoots` maps over: reading it of
      `undefined` or `null` throws, and only an array has `map`. */
  function ApiRootTargets(discovery: Value): (r: Result<seq<Value>>)
    ensures r.Ok? <==> discovery.Obj? && "api_roots" in discovery.props && discovery.props["api_roots"].Arr?
    ensures r.Ok? ==> r.value == discovery.props["api_roots"].items
  {
    match GetProp(discovery, "api_roots")
    case Ok(Arr(urls)) => Ok(urls)
    case _ => TypeError
  }

  /** One GET per API-root URL, in list order. */
  function FetchAll(urls: seq<Value>): (reqs: seq<Request>)
    ensures |reqs| == |urls|
    ensures forall i :: 0 <= i < |urls| ==> reqs[i] == Request(GET, urls[i], None)
  {
    seq(|urls|, i requires 0 <= i < |urls| => Request(GET, urls[i], None))
  }

  /** The responses those GETs receive when the first is the n-th request. */
  function FanOut(respond: (Request, nat) -> Value, urls: seq<Value>, n: nat): (rs: seq<Value>)
    ensures |rs| == |urls|
    ensures forall i :: 0 <= i < |urls| ==> rs[i] == respond(Request(GET, urls[i], None), n + i)
  {
    seq(|urls|, i requires 0 <= i < |urls| => respond(Request(GET, urls[i], None), n + i))
  }

  /** The new state of the API-roots cell, the result and the requests sent
      by `_getApiRoots` on a cache miss. */
  datatype ApiRootsStep = ApiRootsStep(cache: Value, flag: bool, result: Result<Value>, sent: seq<Request>)

  /** `_getApiRoots(discovery)` when the flag is down: the cache is cleared,
      every URL is fetched and its result pushed, then the undefined and
      empty results are filtered out and the flag is set. A discovery value
      without an `api_roots` array throws after the clearing; a `null`
      result throws in the filter, leaving the unfiltered list cached. */
  function ApiRootsMiss(respond: (Request, nat) -> Value, discovery: Value, n: nat): (o: ApiRootsStep)
    ensures o.flag <==> o.result.Ok?
    ensures o.flag ==>
      (o.result.value == o.cache && o.cache.Arr? && forall k :: 0 <= k < |o.cache.items| ==> Live(o.cache.items[k]))
    ensures ApiRootTargets(discovery).Ok? ==> o.sent == FetchAll(ApiRootTargets(discovery).value)
    ensures ApiRootTargets(discovery) == TypeError ==> o == ApiRootsStep(Arr([]), false, TypeError, [])
  {
    match ApiRootTargets(discovery)
    case TypeError => ApiRootsStep(Arr([]), false, TypeError, [])
    case Ok(urls) =>
      var pushed := FanOut(respond, urls, n);
      match KeepLive(pushed)
      case TypeError => ApiRootsStep(Arr(pushed), false, TypeError, FetchAll(urls))
      case Ok(live) => ApiRootsStep(Arr(live), true, Ok(Arr(live)), FetchAll(urls))
  }

  /** On a cache miss with a well-formed discovery document and no `null`
      response, `_getApiRoots` yields the responses that are neither
      `undefined` nor `{}`, in the order of `api_roots` and with their
      repetitions: every such response is kept and nothing else is. */
  lemma ApiRootsMissKeepsLive(respond: (Request, nat) -> Value, discovery: Value, n: nat)
    requires ApiRootTargets(discovery).Ok?
    requires Null !in FanOut(respond, ApiRootTargets(discovery).value, n)
    ensures var o := ApiRootsMiss(respond, discovery, n);
      var responses := FanOut(respond, ApiRootTargets(discovery).value, n);
      && o.flag && o.cache.Arr?
      && o.cache.items == LiveOnly(responses)
      && (forall v :: v in o.cache.items <==> v in responses && Live(v))
      && |o.cache.items| == CountLive(responses)
  {
    var responses := FanOut(respond, ApiRootTargets(discovery).value, n);
    KeepLiveInOrder(responses);
    KeepLiveMembers(responses);
    KeepLiveCount(responses);
  }

  /** A TAXII server endpoint: the discovery document and the API roots it
      lists, each cached in its own option record. */
  class Server {
    const path: string
    const conn: Connection
    const disOptions: Cell
    const apiOptions: Cell

    ghost predicate Valid() {
      disOptions != apiOptions
    }

    constructor (path: string, conn: Connection)
      ensures this.path == WithLastSlash(path) && this.conn == conn
      ensures fresh(disOptions) && fresh(apiOptions) && Valid()
      ensures disOptions.cache == Obj(map[]) && !disOptions.flag
      ensures apiOptions.cache == Arr([]) && !apiOptions.flag
    {
      this.path := WithLastSlash(path);
      this.conn := conn;
      disOptions := new Cell(Obj(map[]));
      apiOptions := new Cell(Arr([]));
    }

    /** `invalidate()`: both flags down, both caches kept. */
    method Invalidate()
      modifies disOptions, apiOptions
      ensures !disOptions.flag && !apiOptions.flag
      ensures disOptions.cache == old(disOptions.cache) && apiOptions.cache == old(apiOptions.cache)
    {
      disOptions.flag := false;
      apiOptions.flag := false;
    }

    /** `discovery()`: the cached discovery document of `baseURL + path`. */
    method Discovery() returns (v: Value)
      modifies conn`requests, disOptions
      ensures Fetched(conn, disOptions, conn.baseURL + path) && v == disOptions.cache
    {
      v := conn.FetchThis(conn.baseURL + path, disOptions, None);
    }

    /** `_getApiRoots(discovery)`. */
    method GetApiRoots(discovery: Value) returns (r: Result<Value>)
      modifies conn`requests, apiOptions
      ensures old(apiOptions.flag) ==>
        r == Ok(apiOptions.cache) && apiOptions.cache == old(apiOptions.cache) && apiOptions.flag
        && conn.requests == old(conn.requests)
      ensures !old(apiOptions.flag) ==>
        var o := ApiRootsMiss(conn.respond, discovery, |old(conn.requests)|);
        && apiOptions.cache == o.cache && apiOptions.flag == o.flag && r == o.result
        && conn.requests == old(conn.requests) + o.sent
    {
      if !apiOptions.flag {
        apiOptions.cache := Arr([]);
        var targets := ApiRootTargets(discovery);
        if targets.TypeError? {
          r := TypeError;
          return;
        }
        var urls := targets.value;
        ghost var n0 := |conn.requests|;
        var i := 0;
        while i < |urls|
          invariant 0 <= i <= |urls|
          invariant apiOptions.cache == Arr(FanOut(conn.respond, urls[..i], n0))
          invariant conn.requests == old(conn.requests) + FetchAll(urls[..i])
          invariant !apiOptions.flag
        {
          var v := conn.AsyncFetch(urls[i], GET, None);
          assert urls[..i + 1] == urls[..i] + [urls[i]];
          apiOptions.cache := Arr(apiOptions.cache.items + [v]);
          i := i + 1;
        }
        assert urls[..i] == urls;
        match KeepLive(apiOptions.cache.items)
        case TypeError =>
          r := TypeError;
        case Ok(live) =>
          apiOptions.cache := Arr(live);
          apiOptions.flag := true;
          r := Ok(apiOptions.cache);
      } else {
        r := Ok(apiOptions.cache);
      }
    }

    /** `api_roots()`: the discovery document (cached), then `_getApiRoots`
        on it; the API-roots list is fetched with the requests that follow
        the discovery request, if there was one. */
    method ApiRoots() returns (r: Result<Value>)
      requires Valid()
      modifies conn`requests, disOptions, apiOptions
      ensures disOptions.flag
      ensures old(disOptions.flag) ==> disOptions.cache == old(disOptions.cache)
      ensures var n := |old(conn.requests)| + (if old(disOptions.flag) then 0 else 1);
        var sentBefore := if old(disOptions.flag) then [] else [GetRequest(conn.baseURL + path)];
        && (!old(disOptions.flag) ==> disOptions.cache == conn.respond(GetRequest(conn.baseURL + path), |old(conn.requests)|))
        && (old(apiOptions.flag) ==>
              r == Ok(apiOptions.cache) && apiOptions.cache == old(apiOptions.cache) && apiOptions.flag
              && conn.requests == old(conn.requests) + sentBefore)
        && (!old(apiOptions.flag) ==>
              var o := ApiRootsMiss(conn.respond, disOptions.cache, n);
              && apiOptions.cache == o.cache && apiOptions.flag == o.flag && r == o.result
              && conn.requests == old(conn.requests) + sentBefore + o.sent)
    {
      var discovery := Discovery();
      r := GetApiRoots(discovery);
    }
  }

  // -----------------------------------------------------------------------
  // Collections

  /** A Collections endpoint of one API root: the listing of its
      collections, in one option record. */
  class Collections {
    const apiRootPath: string
    const conn: Connection
    const options: Cell

    constructor (apiRootPath: string, conn: Connection)
      ensures this.apiRootPath == WithLastSlash(apiRootPath) && this.conn == conn
      ensures fresh(options) && options.cache == Obj(map[]) && !options.flag
    {
      this.apiRootPath := WithLastSlash(apiRootPath);
      this.conn := conn;
      options := new Cell(Obj(map[]));
    }

    /** `invalidate()`: the flag down, the cache kept. */
    method Invalidate()
      modifies options
      ensures !options.flag && options.cache == old(options.cache)
    {
      options.flag := false;
    }

    /** `get(index)`. Without an index: the (cached) listing's `collections`.
        With a non-negative integral index: the listing is fetched through
        `get()` and the entry at that position returned, `undefined` when it
        is out of range. Any other index: `undefined`, and no request. */
    method Get(index: Value) returns (r: Result<Value>)
      modifies conn`requests, options
      decreases if index == Undefined then 0 else 1
      ensures index == Undefined ==>
        Fetched(conn, options, apiRootPath + "collections/") && r == GetProp(options.cache, "collections")
      ensures index != Undefined && ArrayIndex(index) == None ==>
        r == Ok(Undefined) && conn.requests == old(conn.requests)
        && options.cache == old(options.cache) && options.flag == old(options.flag)
      ensures index != Undefined && ArrayIndex(index).Some? ==>
        && Fetched(conn, options, apiRootPath + "collections/")
        && r == match GetProp(options.cache, "collections")
                case TypeError => TypeError
                case Ok(cols) => ElementAt(cols, ArrayIndex(index).value)
    {
      if index == Undefined {
        var _ := conn.FetchThis(apiRootPath + "collections/", options, None);
        r := GetProp(options.cache, "collections");
      } else {
        match ArrayIndex(index)
        case Some(i) =>
          var all := Get(Undefined);
          if all.TypeError? {
            r := TypeError;
          } else {
            r := ElementAt(GetProp(options.cache, "collections").value, i);
          }
        case None =>
          r := Ok(Undefined);
      }
    }
  }

  // -----------------------------------------------------------------------
  // Collection

  /** The collection resource a caller supplies to construct a Collection. */
  datatype CollectionInfo = CollectionInfo(
    id: string, title: string, description: string,
    canRead: bool, canWrite: bool, mediaTypes: seq<string>)

  /** `ifCanRead(f)` applied to an already started operation `f`: its
      outcome when the collection allows reading, else `undefined` (the
      outcome of `f`, even a thrown error, is then dropped). */
  function IfCanRead(info: CollectionInfo, f: Result<Value>): (r: Result<Value>)
    ensures info.canRead ==> r == f
    ensures !info.canRead ==> r == Ok(Undefined)
  {
    if info.canRead then f else Ok(Undefined)
  }

  /** `ifCanWrite(f)`: the same gate on `can_write`. */
  function IfCanWrite(info: CollectionInfo, f: Result<Value>): (r: Result<Value>)
    ensures info.canWrite ==> r == f
    ensures !info.canWrite ==> r == Ok(Undefined)
  {
    if info.canWrite then f else Ok(Undefined)
  }

  /** `bundle.objects.find(obj => obj.id === id)`. */
  function FindObject(bundle: Value, id: string): (r: Result<Value>)
    ensures bundle == Undefined || bundle == Null ==> r == TypeError
  {
    match GetProp(bundle, "objects")
    case TypeError => TypeError
    case Ok(objects) => FindById(objects, id)
  }

  /** A gate lets an outcome through exactly when the capability is there
      or the outcome is `undefined` anyway. */
  lemma GatePassesExactlyWhenAllowed(info: CollectionInfo, f: Result<Value>)
    ensures IfCanRead(info, f) == f <==> info.canRead || f == Ok(Undefined)
    ensures IfCanWrite(info, f) == f <==> info.canWrite || f == Ok(Undefined)
  {
  }

  /** A lookup in a fetched bundle, whatever its other properties, finds
      the first object carrying the id, and reports `undefined` only when no
      object carries it. */
  lemma FindObjectFirstMatch(bundle: Value, id: string)
    requires bundle.Obj? && "objects" in bundle.props && bundle.props["objects"].Arr?
    requires Undefined !in bundle.props["objects"].items && Null !in bundle.props["objects"].items
    ensures var objects := bundle.props["objects"].items;
      var r := FindObject(bundle, id);
      && r.Ok?
      && (r.value == Undefined <==> forall k :: 0 <= k < |objects| ==> IdMatches(objects[k], id) == Ok(false))
      && (r.value != Undefined ==>
            exists k :: 0 <= k < |objects| && objects[k] == r.value && IdMatches(objects[k], id) == Ok(true)
              && forall j :: 0 <= j < k ==> IdMatches(objects[j], id) == Ok(false))
  {
    FindInFound(bundle.props["objects"].items, id);
  }

  /** A Collection endpoint, built from caller-supplied collection info. */
  class Collection {
    const collectionInfo: CollectionInfo
    const apiRootPath: string
    const conn: Connection
    const path: string
    const colOptions: Cell
    const objsOptions: Cell
    const objOptions: Cell
    const manOptions: Cell

    constructor (collectionInfo: CollectionInfo, apiRootPath: string, conn: Connection)
      ensures this.collectionInfo == collectionInfo && this.conn == conn
      ensures this.apiRootPath == WithLastSlash(apiRootPath)
      ensures path == CollectionPath(apiRootPath, collectionInfo.id)
      ensures fresh(colOptions) && fresh(objsOptions) && fresh(objOptions) && fresh(manOptions)
      ensures colOptions != objsOptions && colOptions != objOptions && colOptions != manOptions
      ensures objsOptions != objOptions && objsOptions != manOptions && objOptions != manOptions
      ensures colOptions.cache == objsOptions.cache == objOptions.cache == manOptions.cache == Obj(map[])
      ensures !colOptions.flag && !objsOptions.flag && !objOptions.flag && !manOptions.flag
    {
      this.collectionInfo := collectionInfo;
      this.apiRootPath := WithLastSlash(apiRootPath);
      this.conn := conn;
      path := WithLastSlash(apiRootPath) + "collections/" + collectionInfo.id + "/";
      colOptions := new Cell(Obj(map[]));
      objsOptions := new Cell(Obj(map[]));
      objOptions := new Cell(Obj(map[]));
      manOptions := new Cell(Obj(map[]));
    }

    /** `invalidate()`: all four flags down, all caches kept. */
    method Invalidate()
      modifies colOptions, objsOptions, objOptions, manOptions
      ensures !colOptions.flag && !objsOptions.flag && !objOptions.flag && !manOptions.flag
      ensures colOptions.cache == old(colOptions.cache) && objsOptions.cache == old(objsOptions.cache)
      ensures objOptions.cache == old(objOptions.cache) && manOptions.cache == old(manOptions.cache)
    {
      colOptions.flag := false;
      objsOptions.flag := false;
      objOptions.flag := false;
      manOptions.flag := false;
    }

    /** `get()`: the fetch is started before the gate is consulted, so it
        happens whether or not the collection is readable. */
    method Get() returns (r: Result<Value>)
      modifies conn`requests, colOptions
      ensures Fetched(conn, colOptions, path)
      ensures r == IfCanRead(collectionInfo, Ok(colOptions.cache))
    {
      var f := conn.FetchThis(path, colOptions, None);
      r := IfCanRead(collectionInfo, Ok(f));
    }

    /** `getObjects(filter)`: the objects bundle, cached under the endpoint
        alone, whatever the filter. */
    method GetObjects(filter: Option<Filter>) returns (r: Result<Value>)
      modifies conn`requests, objsOptions
      ensures Fetched(conn, objsOptions, FullPath(ObjectsPath(path), filter))
      ensures r == IfCanRead(collectionInfo, Ok(objsOptions.cache))
    {
      var f := conn.FetchThis(path + "objects/", objsOptions, filter);
      r := IfCanRead(collectionInfo, Ok(f));
    }

    /** `getObject(id, filter)`: the object with that id in the bundle of the
        object endpoint. The one option record serves every id, so after a
        first call the bundle of the first id is searched. */
    method GetObject(id: string, filter: Option<Filter>) returns (r: Result<Value>)
      modifies conn`requests, objOptions
      ensures Fetched(conn, objOptions, FullPath(ObjectPath(path, id), filter))
      ensures r == IfCanRead(collectionInfo, FindObject(objOptions.cache, id))
    {
      var bundle := conn.FetchThis(path + "objects/" + id + "/", objOptions, filter);
      r := IfCanRead(collectionInfo, FindObject(bundle, id));
    }

    /** `addObject(bundle)`: a POST to the objects endpoint, with no body;
        no option record is touched. */
    method AddObject(bundle: Value) returns (r: Result<Value>)
      modifies conn`requests
      ensures var req := Request(POST, Str(ObjectsPath(path)), None);
        && conn.requests == old(conn.requests) + [req]
        && r == IfCanWrite(collectionInfo, Ok(conn.respond(req, |old(conn.requests)|)))
    {
      var v := conn.AsyncFetch(Str(path + "objects/"), POST, None);
      r := IfCanWrite(collectionInfo, Ok(v));
    }

    /** `getManifests(filter)`: the result of the read gate is discarded, so
        the manifest's `objects` are returned whatever `can_read` says. */
    method GetManifests(filter: Option<Filter>) returns (r: Result<Value>)
      modifies conn`requests, manOptions
      ensures Fetched(conn, manOptions, FullPath(ManifestPath(path), filter))
      ensures r == GetProp(manOptions.cache, "objects")
    {
      var m := conn.FetchThis(path + "manifest/", manOptions, filter);
      var _ := IfCanRead(collectionInfo, Ok(m));
      r := GetProp(manOptions.cache, "objects");
    }

    /** `getManifest(id, filter)`: the entry with that id among the manifest's
        `objects`. */
    method GetManifest(id: string, filter: Option<Filter>) returns (r: Result<Value>)
      modifies conn`requests, manOptions
      ensures Fetched(conn, manOptions, FullPath(ManifestPath(path), filter))
      ensures r == match GetProp(manOptions.cache, "objects")
                   case TypeError => TypeError
                   case Ok(objects) => FindById(objects, id)
    {
      var objects := GetManifests(filter);
      if objects.TypeError? {
        r := TypeError;
      } else {
        r := FindById(objects.value, id);
      }
    }
  }

  // -----------------------------------------------------------------------
  // Status

  /** A Status endpoint: uncached, one request per `get()`. */
  class Status {
    const apiRootPath: string
    const statusId: string
    const conn: Connection
    const path: string

    constructor (apiRootPath: string, statusId: string, conn: Connection)
      ensures this.apiRootPath == WithLastSlash(apiRootPath) && this.statusId == statusId && this.conn == conn
      ensures path == StatusPath(apiRootPath, statusId)
    {
      this.apiRootPath := WithLastSlash(apiRootPath);
      this.statusId := statusId;
      this.conn := conn;
      path := WithLastSlash(apiRootPath) + "status/" + statusId + "/";
    }

    method Get() returns (v: Value)
      modifies conn`requests
      ensures conn.requests == old(conn.requests) + [GetRequest(path)]
      ensures v == conn.respond(GetRequest(path), |old(conn.requests)|)
    {
      v := conn.AsyncFetch(Str(path), GET, None);
    }
  }
}
