# TAXII 2.0 client library, modelled in Dafny

This project models the JavaScript TAXII 2.0 client library `src/taxii2lib.js`.
The library is a thin layer over `fetch` that talks to a TAXII server.

- `TaxiiConnect` normalises the base URL, turns filter objects into query strings and sends requests.
- The resource classes `Server`, `Collections` and `Collection` each keep their responses in `{cache, flag}` option records. `Status` has none and fetches anew on every call.
- `fetchThis` answers from the cache while the flag is set, and `invalidate()` lowers the flags.

The model has six modules, besides a small `Optional` datatype.

- `JsValue` (js_value.dfy): JavaScript values, as parsed JSON plus `undefined`. A thrown TypeError is a `Result`. It also holds the small pure helpers of the library: `isEmpty`, the filter of `_getApiRoots`, the `find`-by-id lambdas and the index rules of `Collections.get(index)`.
- `UriEscape` (uri_escape.dfy): `encodeURIComponent` over Unicode scalar values, with a decoder. It proves that the escape loses nothing.
- `Query` (query.dfy): `asQueryString` and the URL that `asyncFetch` builds. It proves that a query string reads back as the filter's keys, in order, each with the text of its value.
- `Paths` (paths.dfy): `withLastSlash` and `withoutLastSlash`, and the endpoint paths the resource classes build. It proves that distinct collection, object and status ids give distinct endpoints. It also proves that a status endpoint never coincides with a collection endpoint of the same API root, and that the objects, object and manifest endpoints of one collection are pairwise distinct. Ids are inserted unescaped, so endpoints of different collections can coincide (`Paths.SlashInIdCollides`).
- `Taxii` (taxii.dfy): the connection and the resource classes, as Dafny classes.
  - Option records are `Cell` objects that the methods update in place.
  - The network is the connection's `respond` function: the value the n-th request receives, `undefined` for a failed fetch.
  - Every request is appended to the connection's `requests` log. So "no request", "exactly one request" and "the same response" are statements about that log.
  - `_getApiRoots` is a loop proved against the function `ApiRootsMiss`. That function is the reference definition of a cache miss.
- `Scenarios` (scenarios.dfy): modelled call sequences that show what a caller observes. A server with two API roots, one of which fails, is proved to yield exactly the live root.

Where the library's behaviour differs from its documented intent, the model follows the code:

- An empty filter object `{}` still makes `asyncFetch` append `?` (`Query.EmptyFilterKeepsQuestionMark`).
- `ifCanRead` and `ifCanWrite` receive operations that have already started. So a collection without `can_read` still sends its request and fills its cache once the response arrives, after the call has returned `undefined` (`Scenarios.UnreadableStillFetches`).
- `getManifests` discards the result of its read gate and returns the manifest's `objects` whatever `can_read` says.
- `getObject` keeps one option record shared by all object ids. After the first call, another id is looked up in the first id's bundle (`Scenarios.ObjectCellSharedAcrossIds`).
- The cache decision ignores the filter. A second `getObjects` with a different filter is answered from the cache (`Scenarios.FetchTwice`).
- An array value and the string of its comma-joined parts give the same query string, because `encodeURIComponent` converts an array with `String()`. So the query string determines the value texts, not the filter (`Query.ArrayAndJoinedTextCollide`).
- `addObject` sends a POST without the bundle: no body is passed to `fetch`.
- Ids are put into URLs unescaped. A collection id containing `/` therefore names an endpoint of another collection: the id `x/objects` gives the objects endpoint of collection `x` (`Paths.SlashInIdCollides`).
- Errors are not a taxonomy of TAXII error responses. A failed fetch resolves to `undefined`, and a property read of `undefined` or `null` throws a TypeError.
- API roots are kept in the order of the discovery document's list, minus the `undefined` and `{}` responses (`Taxii.ApiRootsMissKeepsLive`). A `null` response makes the filter throw.
- A failed fetch poisons its option record: `undefined` is cached with the flag set, so later calls return `undefined` without a request until `invalidate()` (`Taxii.Connection.FetchThis`).

## Model

| member | source | states |
|---|---|---|
| Paths.EndsWithSlash | src/taxii2lib.js:91 | true exactly when `substr(-1)`, the last character or the empty string for an empty URL, is `/` |
| Paths.WithoutLastSlash | src/taxii2lib.js:90-92 | a URL ending in `/` loses exactly that slash; any other URL is unchanged |
| Paths.WithLastSlash | src/taxii2lib.js:95-97 | the result always ends in `/`, and a URL that already does is unchanged |
| Paths.WithLastSlashIdempotent | src/taxii2lib.js:95-97 | adding the last slash twice is the same as adding it once |
| Paths.WithoutLastSlashRemovesOne | src/taxii2lib.js:90-92 | only one trailing slash is removed, and removing undoes adding on a URL without one |
| Paths.SlashInsensitive | src/taxii2lib.js:123 | a server path without a trailing slash and the same path with one normalise to the same path |
| Paths.CollectionsPath | src/taxii2lib.js:245 | the collections endpoint lies under the normalised API root and ends in `/` |
| Paths.CollectionPath | src/taxii2lib.js:289 | a collection endpoint lies under the collections endpoint and ends in `/` |
| Paths.StatusPath | src/taxii2lib.js:424 | a status endpoint lies under the normalised API root and ends in `/` |
| Paths.ObjectsPath | src/taxii2lib.js:352 | the objects endpoint lies under the collection's path and ends in `/` |
| Paths.ObjectPath | src/taxii2lib.js:363 | an object endpoint lies under the objects endpoint and ends in `/` |
| Paths.ManifestPath | src/taxii2lib.js:387 | the manifest endpoint lies under the collection's path and ends in `/` |
| Paths.CollectionPathInjective | src/taxii2lib.js:289 | distinct collection ids under one API root have distinct endpoints |
| Paths.ObjectPathInjective | src/taxii2lib.js:363 | distinct object ids of one collection have distinct endpoints |
| Paths.StatusPathInjective | src/taxii2lib.js:424 | distinct status ids under one API root have distinct endpoints |
| Paths.StatusIsNotCollection | src/taxii2lib.js:424 | a status endpoint never coincides with a collection endpoint of the same API root |
| Paths.SlashInIdCollides | src/taxii2lib.js:289 | the collection ids `x/objects` and `x/manifest` give the objects and manifest endpoints of collection `x` |
| Paths.CollectionEndpointsDistinct | src/taxii2lib.js:351-389 | the objects, object and manifest endpoints of a collection are pairwise distinct |
| JsValue.GetProp | src/taxii2lib.js:246 | a property read throws exactly on `undefined` and `null`, gives the property of an object and `undefined` when it is missing |
| JsValue.IsEmpty | src/taxii2lib.js:135-137 | `isEmpty` throws exactly on `undefined` and `null` (in `Object.keys`) and is true exactly for `{}` |
| JsValue.KeepLive | src/taxii2lib.js:190-192 | the filter throws exactly when a `null` is present; otherwise every kept value is live and comes from the input, and none is added |
| JsValue.KeepLiveAppend | src/taxii2lib.js:190-192 | the filter works element by element: the result for a concatenation is the concatenation of the results |
| JsValue.KeepLiveSingle | src/taxii2lib.js:190-192 | on one element the filter throws on `null` and otherwise keeps the element exactly when it is live |
| JsValue.KeepLiveInOrder | src/taxii2lib.js:190-192 | without `null`, the filter's result is the live values in their order and with their repetitions |
| JsValue.KeepLiveMembers | src/taxii2lib.js:190-192 | without `null`, a value is kept if and only if it is in the input and is neither `undefined` nor `{}` |
| JsValue.KeepLiveCount | src/taxii2lib.js:190-192 | without `null`, the number of kept values is the number of live inputs |
| JsValue.IdMatches | src/taxii2lib.js:364 | `obj.id === id` throws exactly on `undefined` and `null`, and is true exactly for an object whose `id` is that string |
| JsValue.FindIn | src/taxii2lib.js:364 | `find` yields the first entry with the id, yields `undefined` only when no entry has it, and throws only at a `null` or `undefined` entry before any match |
| JsValue.FindById | src/taxii2lib.js:402 | `find` on anything but an array throws; on an array it is the search above |
| JsValue.FindInFound | src/taxii2lib.js:364 | without `null` or `undefined` entries the search never throws and finds something if and only if some entry has the id |
| JsValue.ArrayIndex | src/taxii2lib.js:248 | an accepted index is a non-negative integral number |
| JsValue.ArrayIndexOfNat | src/taxii2lib.js:248 | every natural number is accepted as an index |
| JsValue.ArrayIndexRejects | src/taxii2lib.js:265-267 | non-numbers, negative numbers and fractions are rejected |
| JsValue.ElementAt | src/taxii2lib.js:252-256 | reading `length` of `undefined` or `null` throws; an array gives its entry in range and `undefined` past the end |
| UriEscape.EscChar | src/taxii2lib.js:101 | a character is left as it is exactly when it is unreserved; otherwise it becomes a non-empty escape |
| UriEscape.Esc | src/taxii2lib.js:101 | `encodeURIComponent` never shortens a text, and gives the empty string only for the empty string |
| UriEscape.EscHasNo | src/taxii2lib.js:105 | an escaped text contains no reserved character other than `%`, so none of `&`, `=`, `?` |
| UriEscape.UnescEsc | src/taxii2lib.js:105 | percent- and UTF-8-decoding the escape of any text gives back that text |
| UriEscape.EscInjective | src/taxii2lib.js:105 | two texts with the same escape are equal |
| UriEscape.EscAppend | src/taxii2lib.js:105 | the escape of a concatenation is the concatenation of the escapes |
| UriEscape.EscUnreserved | src/taxii2lib.js:105 | a text of unreserved characters is its own escape |
| Query.JoinWith | src/taxii2lib.js:107 | joining a single part gives that part |
| Query.ValueText | src/taxii2lib.js:105 | `String(value)` of an empty array is empty, and the comma-joined text of an array of comma-free strings splits back into those strings |
| Query.WireKey | src/taxii2lib.js:104 | `added_after` keeps its name, and every other key `k` becomes exactly `match[k]` |
| Query.KeyOfWireKey | src/taxii2lib.js:104 | the parameter name determines the filter key |
| Query.PairText | src/taxii2lib.js:103-106 | a pair contains no `&` and splits at its single `=` into the escaped name and the escaped value |
| Query.Pairs | src/taxii2lib.js:102-106 | there is one `key=value` pair per filter entry |
| Query.AsQueryString | src/taxii2lib.js:100-109 | the query string is empty exactly for a filter with no keys |
| Query.SingleEntryQuery | src/taxii2lib.js:100-109 | a one-key filter gives the single pair `esc(name)=esc(value)` |
| Query.FullPath | src/taxii2lib.js:56 | without a filter the URL is the path; with one it is the path, `?`, then the query string |
| Query.EmptyFilterKeepsQuestionMark | src/taxii2lib.js:56 | an empty filter object still appends `?` |
| Query.ParsePairText | src/taxii2lib.js:105 | a pair reads back as its filter key and value text |
| Query.PairsHaveNoAmp | src/taxii2lib.js:102-107 | no pair contains the `&` that joins the pairs |
| Query.ParseQueryAsQueryString | src/taxii2lib.js:100-109 | the query string reads back as the filter's keys, in order, each with its value text |
| Query.ArrayAndJoinedTextCollide | src/taxii2lib.js:105 | the array `["a","b"]` and the string `"a,b"` as a filter value give the same query string |
| Query.AsQueryStringInjective | src/taxii2lib.js:100-109 | two filters with the same query string have the same keys in the same order and the same value texts |
| Taxii.Cell.constructor | src/taxii2lib.js:126-127 | an option record starts with the given cache and its flag down |
| Taxii.Connection.constructor | src/taxii2lib.js:24-25 | the base URL is stored without its last slash, and no request has been sent yet |
| Taxii.Connection.AsyncFetch | src/taxii2lib.js:55-63 | exactly one request is logged, to the path with `?` and the query string when a filter is passed; the result is that request's response |
| Taxii.Connection.FetchThis | src/taxii2lib.js:79-87 | with the flag set, nothing is sent and the cache is returned; otherwise exactly one GET is sent and its response is cached, flagged and returned |
| Taxii.ApiRootTargets | src/taxii2lib.js:178 | `discovery.api_roots.map` succeeds exactly when `api_roots` is an array of the discovery object |
| Taxii.FetchAll | src/taxii2lib.js:178-184 | one GET per API-root URL, in list order |
| Taxii.FanOut | src/taxii2lib.js:186-188 | the i-th pushed value is the response to the i-th URL's request |
| Taxii.ApiRootsMiss | src/taxii2lib.js:173-198 | on a cache miss the flag is set exactly when the call succeeds, and then the cached list holds only live roots; one request is sent per listed URL; a malformed discovery sends nothing and leaves the cache cleared |
| Taxii.ApiRootsMissKeepsLive | src/taxii2lib.js:186-194 | without a `null` response, the cached roots are the live responses in the order of `api_roots`, each kept and nothing else |
| Taxii.Server.constructor | src/taxii2lib.js:122-128 | the path is normalised with its last slash; the two option records are distinct and start empty with flags down |
| Taxii.Server.Invalidate | src/taxii2lib.js:143-146 | both flags go down and both caches are kept |
| Taxii.Server.Discovery | src/taxii2lib.js:152-154 | the discovery document of `baseURL + path`, fetched at most once through its option record |
| Taxii.Server.GetApiRoots | src/taxii2lib.js:173-198 | a cached list is returned without requests; a miss leaves the state, result and requests that `ApiRootsMiss` defines |
| Taxii.Server.ApiRoots | src/taxii2lib.js:162-166 | the discovery fetch, then `_getApiRoots` on its document, with the root requests numbered after the discovery request; on a cache hit the cached list is returned, no root is requested and the flag stays set |
| Taxii.Collections.constructor | src/taxii2lib.js:218-223 | the API root path is normalised, and the option record starts empty with its flag down |
| Taxii.Collections.Invalidate | src/taxii2lib.js:229-231 | the flag goes down and the cache is kept |
| Taxii.Collections.Get | src/taxii2lib.js:242-269 | without an index, the listing's `collections`; with a valid index, the listing is fetched and the entry at that position returned, `undefined` past the end; any other index gives `undefined` and sends nothing |
| Taxii.IfCanRead | src/taxii2lib.js:314-320 | the outcome passes when reading is allowed and is replaced by `undefined` otherwise |
| Taxii.IfCanWrite | src/taxii2lib.js:328-334 | the outcome passes when writing is allowed and is replaced by `undefined` otherwise |
| Taxii.GatePassesExactlyWhenAllowed | src/taxii2lib.js:314-334 | a gate leaves an outcome unchanged if and only if the capability is there or the outcome is `undefined` anyway |
| Taxii.FindObject | src/taxii2lib.js:364 | searching the bundle `undefined` or `null` throws |
| Taxii.FindObjectFirstMatch | src/taxii2lib.js:363-365 | in any bundle whose `objects` is an array of objects, whatever its other properties, the search finds the first object with the id, and gives `undefined` if and only if none has it |
| Taxii.Collection.constructor | src/taxii2lib.js:284-295 | the path is the collection endpoint of the info's id; four distinct option records start empty with flags down |
| Taxii.Collection.Invalidate | src/taxii2lib.js:301-306 | all four flags go down and all caches are kept |
| Taxii.Collection.Get | src/taxii2lib.js:339-341 | the collection is fetched through its option record whether or not it is readable, and the gate decides only the value returned |
| Taxii.Collection.GetObjects | src/taxii2lib.js:351-353 | the objects endpoint with the filter's query, cached regardless of the filter, behind the read gate |
| Taxii.Collection.GetObject | src/taxii2lib.js:362-367 | the object endpoint of the id is fetched through the shared option record, and the cached bundle is searched for the id behind the read gate |
| Taxii.Collection.AddObject | src/taxii2lib.js:374-376 | exactly one POST to the objects endpoint, carrying no body, behind the write gate; no option record changes |
| Taxii.Collection.GetManifests | src/taxii2lib.js:386-389 | the manifest endpoint is fetched through its option record, and its `objects` are returned whatever `can_read` says |
| Taxii.Collection.GetManifest | src/taxii2lib.js:400-404 | the entry with the id among the manifest's `objects`, throwing when those are not an array |
| Taxii.Status.constructor | src/taxii2lib.js:420-425 | the path is the status endpoint of the id under the normalised API root |
| Taxii.Status.Get | src/taxii2lib.js:430-436 | every call sends exactly one GET to the status endpoint and returns its response, without caching |
| Scenarios.FetchTwice | src/taxii2lib.js:79-87 | two fetches on one option record with no invalidation return equal values and send at most one request, whatever their filters |
| Scenarios.InvalidateRefetches | src/taxii2lib.js:301-306 | after `invalidate()`, `getObjects` sends one new request for the objects endpoint |
| Scenarios.UnreadableStillFetches | src/taxii2lib.js:339-341 | on an unreadable collection, `get()` returns `undefined` but still sends its request and fills the cache |
| Scenarios.ObjectCellSharedAcrossIds | src/taxii2lib.js:362-367 | after `getObject(a)`, `getObject(b)` sends nothing and searches the bundle of `a` |
| Scenarios.TwoRootUrls | src/taxii2lib.js:90-97 | the base URL and server path normalise to the expected discovery URL |
| Scenarios.TwoRootMiss | src/taxii2lib.js:173-198 | with two listed roots of which the second fails, the miss requests both in order and keeps only the first |
| Scenarios.NewTwoRootServer | src/taxii2lib.js:122-128 | servers built for `/taxii` and `/taxii/` on one connection have the same path, so they fetch the same discovery URL |
| Scenarios.FirstApiRoots | src/taxii2lib.js:162-198 | the first `api_roots()` sends three requests and yields the one live root |
| Scenarios.ApiRootsPartialFailure | src/taxii2lib.js:162-198 | three `api_roots()` calls yield the same list of the one live root, and only three requests are sent in all, so the second and third calls send none |
| Scenarios.ObjectNotFound | src/taxii2lib.js:364 | an id absent from a bundle gives `undefined`, not an error, and a present id gives its object |

## Left out

- `fetch`, `res.json()`, the `Headers`, `btoa` and HTTP basic authentication are not modelled. The connection's `respond` function stands in for the server and JSON parsing, with `undefined` for a failed fetch.
- Promises are not modelled: every call runs to completion before the next one. Concurrent calls, which could each see a lowered flag and fetch twice, are out of scope. So are the parallel start of the `api_roots` fetches and the unhandled rejections of gated promises.
- Collection.Get, Collection.GetObjects, Collection.GetObject and Scenarios.UnreadableStillFetches: on an unreadable collection the library returns `undefined` while the fetch is still pending. An awaiting caller can therefore resume with the flag still down, and a second call sent before the response arrives sends a second request. The model runs each fetch to completion inside the call, so its `colOptions.flag` after the call holds only in that sequential reading.
- `console.log` calls are not modelled, because they do not affect any value or state.
- The `collectionsFlag` branch of `Collections.get(index)` is not modelled. The flag is never set, so that branch cannot run.
- `Taxii.CollectionInfo` is a typed record with a string id and boolean `can_read` and `can_write`. The library accepts any object and tests truthiness.
- `Query.FilterValue` covers strings and arrays of strings only. Other filter values, such as numbers or nested objects, are converted by `String()` in ways not modelled.
- `Query.Filter` takes its entries in the order `Object.keys` gives. That ordering rule itself is not modelled.
- JsValue.Value: numbers are reals, so NaN and the infinities, which `Number.isInteger` rejects in `Collections.get(index)`, are not represented.
- Query.FullPath: a `null` or non-object filter is not covered. `asQueryString(null)` throws, so `fetchThis` rejects with the flag still down.
- `JsValue.ElementAt` uses code points where JavaScript string length counts UTF-16 units. It also ignores objects that carry their own `length` property.
- `UriEscape.EscChar` assumes well-formed strings. The URIError that `encodeURIComponent` throws on a lone surrogate cannot arise, because a Dafny `char` is a Unicode scalar value.
- Returned cache arrays are values here. Aliasing between a returned array and the cached one, which a caller could mutate, is not modelled.
- The sample application `src/testApp.js` is not part of this model.
