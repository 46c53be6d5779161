/** URL normalisation (`TaxiiConnect.withoutLastSlash`/`withLastSlash`) and
    the endpoint paths the resource nodes of src/taxii2lib.js build. */
module Paths {

  /** `u.substr(-1) === '/'`: the last character, or the empty string for
      an empty `u`, is a slash. */
  predicate EndsWithSlash(u: string): (b: bool)
    ensures b <==> u[|u| - (if |u| > 0 then 1 else 0)..] == "/"
  {
    |u| > 0 && u[|u| - 1] == '/'
  }

  predicate IsPrefix(p: string, s: string) {
    |p| <= |s| && s[..|p|] == p
  }

  /** `withoutLastSlash`: drop one trailing `/`, if there is one. */
  function WithoutLastSlash(u: string): (r: string)
    ensures EndsWithSlash(u) ==> r + "/" == u
    ensures !EndsWithSlash(u) ==> r == u
  {
    if EndsWithSlash(u) then u[..|u| - 1] else u
  }

  /** `withLastSlash`: add a trailing `/` unless there is one already. */
  function WithLastSlash(u: string): (r: string)
    ensures EndsWithSlash(r)
    ensures EndsWithSlash(u) ==> r == u
    ensures !EndsWithSlash(u) ==> r == u + "/"
  {
    if EndsWithSlash(u) then u else u + "/"
  }

  /** `withLastSlash` is idempotent. */
  lemma WithLastSlashIdempotent(u: string)
    ensures WithLastSlash(WithLastSlash(u)) == WithLastSlash(u)
  {
  }

  /** `withoutLastSlash` removes exactly one slash: of a doubled slash one
      stays, and it undoes `withLastSlash` on a URL without a trailing slash. */
  lemma WithoutLastSlashRemovesOne(u: string)
    ensures WithoutLastSlash(u + "/") == u
    ensures !EndsWithSlash(u) ==> WithoutLastSlash(WithLastSlash(u)) == u
  {
    assert (u + "/")[..|u|] == u;
  }

  /** A path given with or without its trailing slash normalises to the same
      container path: `new Server("/taxii", c)` and `new Server("/taxii/", c)`
      fetch the same discovery URL. */
  lemma SlashInsensitive(p: string)
    requires !EndsWithSlash(p)
    ensures WithLastSlash(p) == WithLastSlash(p + "/")
  {
  }

  /** The Collections endpoint of an API root. */
  function CollectionsPath(apiRoot: string): (r: string)
    ensures EndsWithSlash(r) && IsPrefix(WithLastSlash(apiRoot), r)
  {
    WithLastSlash(apiRoot) + "collections/"
  }

  /** The endpoint of the collection `id` under an API root. */
  function CollectionPath(apiRoot: string, id: string): (r: string)
    ensures EndsWithSlash(r)
    ensures IsPrefix(CollectionsPath(apiRoot), r)
  {
    CollectionsPath(apiRoot) + id + "/"
  }

  /** The endpoint of the status record `statusId` under an API root. */
  function StatusPath(apiRoot: string, statusId: string): (r: string)
    ensures EndsWithSlash(r)
    ensures IsPrefix(WithLastSlash(apiRoot), r)
  {
    WithLastSlash(apiRoot) + "status/" + statusId + "/"
  }

  /** The objects endpoint of a collection. */
  function ObjectsPath(collection: string): (r: string)
    ensures EndsWithSlash(r) && IsPrefix(collection, r)
  {
    collection + "objects/"
  }

  /** The endpoint of one object of a collection. */
  function ObjectPath(collection: string, objectId: string): (r: string)
    ensures EndsWithSlash(r) && IsPrefix(ObjectsPath(collection), r)
  {
    ObjectsPath(collection) + objectId + "/"
  }

  /** The manifest endpoint of a collection. */
  function ManifestPath(collection: string): (r: string)
    ensures EndsWithSlash(r) && IsPrefix(collection, r)
  {
    collection + "manifest/"
  }

  /** `prefix + x + "/"` determines `x`. */
  lemma {:induction false} InnerSegmentDetermined(prefix: string, x: string, y: string)
    requires prefix + x + "/" == prefix + y + "/"
    ensures x == y
  {
    var s := prefix + x + "/";
    assert |x| == |y|;
    assert x == s[|prefix|..|s| - 1];
    assert y == (prefix + y + "/")[|prefix|..|s| - 1];
  }

  /** Distinct collection ids under one API root have distinct endpoints. */
  lemma CollectionPathInjective(apiRoot: string, id1: string, id2: string)
    requires CollectionPath(apiRoot, id1) == CollectionPath(apiRoot, id2)
    ensures id1 == id2
  {
    InnerSegmentDetermined(CollectionsPath(apiRoot), id1, id2);
  }

  /** Distinct object ids of one collection have distinct endpoints. */
  lemma ObjectPathInjective(collection: string, id1: string, id2: string)
    requires ObjectPath(collection, id1) == ObjectPath(collection, id2)
    ensures id1 == id2
  {
    InnerSegmentDetermined(ObjectsPath(collection), id1, id2);
  }

  /** Distinct status ids under one API root have distinct endpoints. */
  lemma StatusPathInjective(apiRoot: string, statusId1: string, statusId2: string)
    requires StatusPath(apiRoot, statusId1) == StatusPath(apiRoot, statusId2)
    ensures statusId1 == statusId2
  {
    InnerSegmentDetermined(WithLastSlash(apiRoot) + "status/", statusId1, statusId2);
  }

  /** A status endpoint is never a collection endpoint of the same API root:
      the two differ in the first character after the root. */
  lemma {:induction false} StatusIsNotCollection(apiRoot: string, id: string, statusId: string)
    ensures StatusPath(apiRoot, statusId) != CollectionPath(apiRoot, id)
  {
    var root := WithLastSlash(apiRoot);
    var k := |root|;
    assert StatusPath(apiRoot, statusId)[k] == 's' by {
      assert StatusPath(apiRoot, statusId) == root + ("status/" + statusId + "/");
    }
    assert CollectionPath(apiRoot, id)[k] == 'c' by {
      assert CollectionPath(apiRoot, id) == root + ("collections/" + id + "/");
    }
  }

  /** `c + (x + "/" + seg) + "/"` read as the segment `seg/` under the
      endpoint `c + x + "/"`. */
  lemma Regroup(c: string, x: string, seg: string)
    ensures c + (x + ("/" + seg)) + "/" == (c + x + "/") + (seg + "/")
  {
  }

  /** Ids are inserted unescaped, so a collection id holding `/` names an
      endpoint of another collection: the objects and manifest endpoints of
      collection `x` are collection endpoints too. */
  lemma SlashInIdCollides(apiRoot: string, x: string)
    ensures CollectionPath(apiRoot, x + "/objects") == ObjectsPath(CollectionPath(apiRoot, x))
    ensures CollectionPath(apiRoot, x + "/manifest") == ManifestPath(CollectionPath(apiRoot, x))
  {
    ObjectsIdCollides(apiRoot, x);
    ManifestIdCollides(apiRoot, x);
  }

  lemma ObjectsIdCollides(apiRoot: string, x: string)
    ensures CollectionPath(apiRoot, x + "/objects") == ObjectsPath(CollectionPath(apiRoot, x))
  {
    assert x + "/objects" == x + ("/" + "objects");
    Regroup(CollectionsPath(apiRoot), x, "objects");
  }

  lemma ManifestIdCollides(apiRoot: string, x: string)
    ensures CollectionPath(apiRoot, x + "/manifest") == ManifestPath(CollectionPath(apiRoot, x))
  {
    assert x + "/manifest" == x + ("/" + "manifest");
    Regroup(CollectionsPath(apiRoot), x, "manifest");
  }

  /** The objects, object and manifest endpoints of a collection are pairwise
      distinct, so the three caches of a collection never stand for the
      same URL. */
  lemma {:induction false} CollectionEndpointsDistinct(collection: string, objectId: string)
    ensures ObjectsPath(collection) != ObjectPath(collection, objectId)
    ensures ObjectsPath(collection) != ManifestPath(collection)
    ensures ObjectPath(collection, objectId) != ManifestPath(collection)
  {
    var k := |collection|;
    assert |ObjectPath(collection, objectId)| > |ObjectsPath(collection)|;
    assert ObjectsPath(collection)[k] == 'o';
    assert ObjectPath(collection, objectId)[k] == 'o' by {
      assert ObjectPath(collection, objectId) == collection + ("objects/" + objectId + "/");
    }
    assert ManifestPath(collection)[k] == 'm';
  }
}
