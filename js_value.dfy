/** JavaScript values as the client library sees them (parsed JSON plus
    `undefined`), property reads that can throw a TypeError, and the small
    pure helpers of src/taxii2lib.js that work on such values: `isEmpty`,
    the filter in `_getApiRoots`, the `find`-by-id lambdas and the index
    rules of `Collections.get(index)`. */
module JsValue {
  import opened Optional

  /** A JavaScript value. Objects are maps from property name to value;
      numbers are reals so that `Number.isInteger` is meaningful. */
  datatype Value =
    | Undefined
    | Null
    | Bool(b: bool)
    | Num(n: real)
    | Str(s: string)
    | Arr(items: seq<Value>)
    | Obj(props: map<string, Value>)

  /** The outcome of an expression that may throw a TypeError
      (reading a property of `undefined` or `null`, calling a method a
      value does not have). */
  datatype Result<T> = Ok(value: T) | TypeError

  /** `v.name` for a named property. Only objects have the named
      properties the library reads (`api_roots`, `collections`, `objects`,
      `id`); on arrays, strings, numbers and booleans they are `undefined`. */
  function GetProp(v: Value, name: string): (r: Result<Value>)
    ensures r == TypeError <==> v == Undefined || v == Null
    ensures v.Obj? && name in v.props ==> r == Ok(v.props[name])
    ensures v.Obj? && name !in v.props ==> r == Ok(Undefined)
    ensures !v.Obj? && r.Ok? ==> r.value == Undefined
  {
    match v
    case Undefined => TypeError
    case Null => TypeError
    case Obj(m) => Ok(if name in m then m[name] else Undefined)
    case _ => Ok(Undefined)
  }

  /** `Server.isEmpty(obj)`: `Object.keys(obj).length === 0 && obj.constructor === Object`.
      `Object.keys(null)` throws; only a parsed object `{}` is empty. */
  function IsEmpty(v: Value): (r: Result<bool>)
    ensures r == TypeError <==> v == Undefined || v == Null
    ensures r == Ok(true) <==> v == Obj(map[])
  {
    match v
    case Undefined => TypeError
    case Null => TypeError
    case Obj(m) => Ok(|m| == 0)
    case _ => Ok(false)
  }

  /** A fetched API-root result the library keeps. */
  predicate Live(v: Value) {
    v != Undefined && v != Null && v != Obj(map[])
  }

  /** `cache.filter(e => e !== undefined && !Server.isEmpty(e))`: the filter
      throws when it reaches a `null` entry. */
  function KeepLive(items: seq<Value>): (r: Result<seq<Value>>)
    ensures r == TypeError <==> Null in items
    ensures r.Ok? ==> forall k :: 0 <= k < |r.value| ==> Live(r.value[k])
    ensures r.Ok? ==> |r.value| <= |items|
    ensures r.Ok? ==> forall v :: v in r.value ==> v in items
  {
    if items == [] then Ok([])
    else if items[0] == Undefined then KeepLive(items[1..])
    else
      match IsEmpty(items[0])
      case TypeError => TypeError
      case Ok(empty) =>
        match KeepLive(items[1..])
        case TypeError => TypeError
        case Ok(rest) => Ok(if empty then rest else [items[0]] + rest)
  }

  /** The filter works element by element: the result for a concatenation
      is the concatenation of the results. */
  lemma {:induction false} KeepLiveAppend(a: seq<Value>, b: seq<Value>)
    ensures KeepLive(a + b) ==
      match (KeepLive(a), KeepLive(b))
      case (Ok(x), Ok(y)) => Ok(x + y)
      case _ => TypeError
  {
    if a == [] {
      assert a + b == b;
      if KeepLive(b).Ok? {
        assert [] + KeepLive(b).value == KeepLive(b).value;
      }
    } else {
      assert (a + b)[0] == a[0];
      assert (a + b)[1..] == a[1..] + b;
      KeepLiveAppend(a[1..], b);
      match (KeepLive(a[1..]), KeepLive(b))
      case (Ok(x), Ok(y)) =>
        assert [a[0]] + (x + y) == ([a[0]] + x) + y;
      case _ =>
    }
  }

  /** On a single element the filter keeps exactly a live value. */
  lemma KeepLiveSingle(v: Value)
    ensures v == Null ==> KeepLive([v]) == TypeError
    ensures v != Null ==> KeepLive([v]) == Ok(if Live(v) then [v] else [])
  {
    assert [v][1..] == [];
    assert KeepLive([v][1..]) == Ok([]);
    assert [v] + [] == [v];
  }

  /** Every kept value comes from the input and every live input is kept
      (when no `null` makes the filter throw). */
  lemma {:induction false} KeepLiveMembers(items: seq<Value>)
    requires Null !in items
    ensures KeepLive(items).Ok?
    ensures forall v :: v in KeepLive(items).value <==> v in items && Live(v)
  {
    if items != [] {
      KeepLiveMembers(items[1..]);
      assert items == [items[0]] + items[1..];
    }
  }

  /** The live entries of a sequence, in their order: the reference the
      filter is compared with. */
  function LiveOnly(items: seq<Value>): seq<Value> {
    if items == [] then [] else (if Live(items[0]) then [items[0]] else []) + LiveOnly(items[1..])
  }

  /** Without `null`, the filter keeps the live values in their order and
      with their repetitions. */
  lemma {:induction false} KeepLiveInOrder(items: seq<Value>)
    requires Null !in items
    ensures KeepLive(items) == Ok(LiveOnly(items))
  {
    if items != [] {
      KeepLiveInOrder(items[1..]);
      assert items[0] in items;
      if !Live(items[0]) {
        assert [] + LiveOnly(items[1..]) == LiveOnly(items[1..]);
      }
    }
  }

  /** The number of live entries of a sequence. */
  function CountLive(items: seq<Value>): nat {
    if items == [] then 0 else (if Live(items[0]) then 1 else 0) + CountLive(items[1..])
  }

  /** The filter keeps as many values as there are live ones: none is lost
      and none is kept twice. */
  lemma {:induction false} KeepLiveCount(items: seq<Value>)
    requires Null !in items
    ensures KeepLive(items).Ok? && |KeepLive(items).value| == CountLive(items)
  {
    if items != [] {
      KeepLiveCount(items[1..]);
    }
  }

  /** The result of `x.id === id`, where reading `id` may throw. */
  function IdMatches(x: Value, id: string): (r: Result<bool>)
    ensures r == TypeError <==> x == Undefined || x == Null
    ensures r == Ok(true) <==> x.Obj? && "id" in x.props && x.props["id"] == Str(id)
  {
    match GetProp(x, "id")
    case TypeError => TypeError
    case Ok(v) => Ok(v == Str(id))
  }

  /** `items.find(obj => obj.id === id)` on an array: the first entry whose
      `id` is `id`, `undefined` when there is none; reading `id` of a
      `null` or `undefined` entry before a match throws. */
  function FindIn(items: seq<Value>, id: string): (r: Result<Value>)
    ensures r.Ok? && r.value != Undefined ==>
      exists k :: 0 <= k < |items| && items[k] == r.value && IdMatches(items[k], id) == Ok(true)
        && forall j :: 0 <= j < k ==> IdMatches(items[j], id) == Ok(false)
    ensures r == Ok(Undefined) ==> forall k :: 0 <= k < |items| ==> IdMatches(items[k], id) == Ok(false)
    ensures r == TypeError ==>
      exists k :: 0 <= k < |items| && (items[k] == Undefined || items[k] == Null)
        && forall j :: 0 <= j < k ==> IdMatches(items[j], id) == Ok(false)
  {
    if items == [] then Ok(Undefined)
    else
      match IdMatches(items[0], id)
      case TypeError => TypeError
      case Ok(true) => Ok(items[0])
      case Ok(false) =>
        var r := FindIn(items[1..], id);
        assert forall k :: 0 < k < |items| ==> items[k] == items[1..][k - 1];
        r
  }

  /** `xs.find(obj => obj.id === id)` where `xs` may be any value: only
      arrays have `find`; calling it on anything else throws. */
  function FindById(xs: Value, id: string): (r: Result<Value>)
    ensures !xs.Arr? ==> r == TypeError
    ensures xs.Arr? ==> r == FindIn(xs.items, id)
  {
    if xs.Arr? then FindIn(xs.items, id) else TypeError
  }

  /** Without `null` or `undefined` entries, `find` never throws, and it
      finds something exactly when some entry carries the id. */
  lemma {:induction false} FindInFound(items: seq<Value>, id: string)
    requires Undefined !in items && Null !in items
    ensures FindIn(items, id).Ok?
    ensures FindIn(items, id).value != Undefined <==>
      exists k :: 0 <= k < |items| && IdMatches(items[k], id) == Ok(true)
  {
    if items != [] {
      FindInFound(items[1..], id);
      assert forall k :: 0 < k < |items| ==> items[k] == items[1..][k - 1];
      if IdMatches(items[0], id) == Ok(false) {
        forall k | 0 <= k < |items[1..]| && IdMatches(items[1..][k], id) == Ok(true)
          ensures exists j :: 0 <= j < |items| && IdMatches(items[j], id) == Ok(true)
        {
          assert items[k + 1] == items[1..][k];
        }
      }
    }
  }

  /** `Number.isInteger(index) && index >= 0`: the index as a natural
      number, or `None` when `index` is not a non-negative integral number. */
  function ArrayIndex(index: Value): (r: Option<nat>)
    ensures r.Some? ==> index == Num(r.value as real)
  {
    if index.Num? && index.n >= 0.0 && index.n.Floor as real == index.n
    then Some(index.n.Floor as nat)
    else None
  }

  /** Every natural number, passed as a JavaScript number, is an index. */
  lemma ArrayIndexOfNat(i: nat)
    ensures ArrayIndex(Num(i as real)) == Some(i)
  {
    assert (i as real).Floor == i;
  }

  /** Non-integral, negative and non-number values are not indices. */
  lemma ArrayIndexRejects(index: Value)
    requires !index.Num? || index.n < 0.0 || index.n.Floor as real != index.n
    ensures ArrayIndex(index) == None
  {
  }

  /** `index < cols.length ? cols[index] : undefined` for the `collections`
      value read from the cache: reading `length` of `null` or `undefined`
      throws; a string yields its character; a value with no `length`
      compares false and yields `undefined`. */
  function ElementAt(cols: Value, index: nat): (r: Result<Value>)
    ensures r == TypeError <==> cols == Undefined || cols == Null
    ensures cols.Arr? ==> r == Ok(if index < |cols.items| then cols.items[index] else Undefined)
    ensures r.Ok? && r.value != Undefined ==> (cols.Arr? && index < |cols.items|) || (cols.Str? && index < |cols.s|)
  {
    match cols
    case Undefined => TypeError
    case Null => TypeError
    case Arr(items) => Ok(if index < |items| then items[index] else Undefined)
    case Str(s) => Ok(if index < |s| then Str([s[index]]) else Undefined)
    case _ => Ok(Undefined)
  }
}
