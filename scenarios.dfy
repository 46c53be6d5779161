/** Modelled call sequences of the client showing the caching, invalidation, fan-out and
    lookup behaviour the library documents, two of them on a small fixed
    server. */
module Scenarios {
  import opened Optional
  import opened JsValue
  import opened Query
  import opened Paths
  import opened Taxii

  /** Two `fetchThis` calls on one cell with no `invalidate` in between
      make at most one request (none when the cell was already filled)
      and return equal values, whatever filters they are given. */
  method FetchTwice(conn: Connection, cell: Cell, path: string, f1: Option<Filter>, f2: Option<Filter>)
    returns (v1: Value, v2: Value)
    modifies conn`requests, cell
    ensures v1 == v2 && cell.flag
    ensures conn.requests == old(conn.requests) + (if old(cell.flag) then [] else [GetRequest(FullPath(path, f1))])
  {
    v1 := conn.FetchThis(path, cell, f1);
    v2 := conn.FetchThis(path, cell, f2);
  }

  /** After `invalidate()`, the next `getObjects` sends a request again,
      even with the same filter and a filled cache. */
  method InvalidateRefetches(col: Collection, filter: Option<Filter>) returns (r: Result<Value>)
    modifies col.conn`requests, col.colOptions, col.objsOptions, col.objOptions, col.manOptions
    ensures |col.conn.requests| == |old(col.conn.requests)| + 1
    ensures col.conn.requests[|col.conn.requests| - 1] == GetRequest(FullPath(ObjectsPath(col.path), filter))
  {
    col.Invalidate();
    r := col.GetObjects(filter);
  }

  /** `get()` on a collection that does not allow reading still sends its
      request and fills the cell; only the value handed back is
      `undefined`. */
  method UnreadableStillFetches(col: Collection) returns (r: Result<Value>)
    requires !col.collectionInfo.canRead && !col.colOptions.flag
    modifies col.conn`requests, col.colOptions
    ensures r == Ok(Undefined)
    ensures col.conn.requests == old(col.conn.requests) + [GetRequest(col.path)]
    ensures col.colOptions.flag
  {
    r := col.Get();
  }

  /** `getObject(a)` then `getObject(b)` on a fresh cell: only the endpoint
      of `a` is fetched, and `b` is looked up in the bundle of `a`. */
  method ObjectCellSharedAcrossIds(col: Collection, a: string, b: string) returns (ra: Result<Value>, rb: Result<Value>)
    requires !col.objOptions.flag
    modifies col.conn`requests, col.objOptions
    ensures col.conn.requests == old(col.conn.requests) + [GetRequest(ObjectPath(col.path, a))]
    ensures col.objOptions.cache == col.conn.respond(GetRequest(ObjectPath(col.path, a)), |old(col.conn.requests)|)
    ensures rb == IfCanRead(col.collectionInfo, FindObject(col.objOptions.cache, b))
  {
    ra := col.GetObject(a, None);
    rb := col.GetObject(b, None);
  }

  function TwoRootDiscovery(): Value {
    Obj(map["title" := Str("T"), "api_roots" := Arr([Str("https://h/a1/"), Str("https://h/a2/")])])
  }

  /** A server whose discovery document lists two API roots, of which the
      first answers `{"title": "A1"}` and the second fails. */
  function TwoRootNetwork(req: Request, n: nat): Value {
    if req.target == Str("https://h/taxii/") then TwoRootDiscovery()
    else if req.target == Str("https://h/a1/") then Obj(map["title" := Str("A1")])
    else Undefined
  }

  function A1(): Value {
    Obj(map["title" := Str("A1")])
  }

  /** On that server a cache miss of `_getApiRoots`, run after the
      discovery request, fetches both roots and keeps only the one that
      answered. */
  lemma TwoRootMiss()
    ensures ApiRootsMiss(TwoRootNetwork, TwoRootDiscovery(), 1)
      == ApiRootsStep(Arr([A1()]), true, Ok(Arr([A1()])),
                      [Request(GET, Str("https://h/a1/"), None), Request(GET, Str("https://h/a2/"), None)])
  {
    var urls := [Str("https://h/a1/"), Str("https://h/a2/")];
    assert ApiRootTargets(TwoRootDiscovery()) == Ok(urls);
    var responses := FanOut(TwoRootNetwork, urls, 1);
    assert responses[0] == A1();
    assert responses[1] == Undefined;
    KeepLiveAppend([responses[0]], [responses[1]]);
    KeepLiveSingle(responses[0]);
    KeepLiveSingle(responses[1]);
    assert [responses[0]] + [responses[1]] == responses;
  }

  lemma TwoRootUrls()
    ensures WithoutLastSlash("https://h/") == "https://h"
    ensures WithLastSlash("/taxii") == WithLastSlash("/taxii/") == "/taxii/"
    ensures "https://h" + "/taxii/" == "https://h/taxii/"
  {
  }

  /** Servers for `/taxii` and for `/taxii/` on that network, before any
      request: they share the connection and have the same path. */
  method NewTwoRootServer() returns (server: Server, other: Server)
    ensures fresh(server.conn) && fresh(server.disOptions) && fresh(server.apiOptions)
    ensures server.conn.respond == TwoRootNetwork && server.conn.requests == []
    ensures server.Valid() && !server.disOptions.flag && !server.apiOptions.flag
    ensures server.conn.baseURL + server.path == "https://h/taxii/"
    ensures other.conn == server.conn && other.path == server.path
  {
    var conn := new Connection("https://h/", TwoRootNetwork);
    server := new Server("/taxii", conn);
    other := new Server("/taxii/", conn);
    TwoRootUrls();
  }

  /** The first `api_roots()` on a new server for that network sends the
      discovery request and both root requests, and yields the live root. */
  method FirstApiRoots(server: Server) returns (r: Result<Value>)
    requires server.conn.respond == TwoRootNetwork && server.conn.requests == []
    requires server.Valid() && !server.disOptions.flag && !server.apiOptions.flag
    requires server.conn.baseURL + server.path == "https://h/taxii/"
    modifies server.conn`requests, server.disOptions, server.apiOptions
    ensures r == Ok(Arr([A1()]))
    ensures server.disOptions.flag && server.apiOptions.flag && server.apiOptions.cache == Arr([A1()])
    ensures |server.conn.requests| == 3
  {
    TwoRootMiss();
    r := server.ApiRoots();
  }

  /** `api_roots()` on that server yields the one live API root after three
      requests (discovery and both roots); later calls are answered from
      the caches. */
  method ApiRootsPartialFailure() returns (server: Server, r1: Result<Value>, r2: Result<Value>, r3: Result<Value>)
    ensures r1 == r2 == r3 == Ok(Arr([A1()]))
    ensures |server.conn.requests| == 3
  {
    var other;
    server, other := NewTwoRootServer();
    r1 := FirstApiRoots(server);
    r2 := server.ApiRoots();
    r3 := server.ApiRoots();
  }

  /** A bundle `{"objects": [{"id": "x"}]}` searched for `"y"` gives
      `undefined`, not an error; searched for `"x"` it gives the object. */
  lemma ObjectNotFound()
    ensures FindObject(Obj(map["objects" := Arr([Obj(map["id" := Str("x")])])]), "y") == Ok(Undefined)
    ensures FindObject(Obj(map["objects" := Arr([Obj(map["id" := Str("x")])])]), "x")
      == Ok(Obj(map["id" := Str("x")]))
  {
  }
}
