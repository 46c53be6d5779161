/** `TaxiiConnect.asQueryString` and the query-appending step of
    `asyncFetch`: a filter object becomes the TAXII filter parameters
    `match[<field>]=<value>` and `added_after=<timestamp>` (filtering, section
    3.5 of OASIS TAXII 2.0), each key and value escaped by
    `encodeURIComponent`, the pairs joined by `&`.

    `ParseQuery` reads such a query string back; the round-trip lemma says
    the query string determines the filter's keys and the text of each
    value. An array value and its comma-joined string give the same text. */
module Query {
  import opened Optional
  import opened UriEscape

  /** A filter value: a string, or an array of strings, which
      `encodeURIComponent` turns into its comma-joined text. */
  datatype FilterValue = Text(s: string) | Many(xs: seq<string>)

  /** A filter object as its entries, in the order `Object.keys` lists them
      (array-index-like keys first, then insertion order). */
  type Filter = seq<(string, FilterValue)>

  /** `xs.join(sep)`. */
  function JoinWith(xs: seq<string>, sep: char): (r: string)
    ensures |xs| == 1 ==> r == xs[0]
  {
    if xs == [] then "" else if |xs| == 1 then xs[0] else xs[0] + [sep] + JoinWith(xs[1..], sep)
  }

  /** `String(value)`, the text `encodeURIComponent` escapes. */
  function ValueText(v: FilterValue): (t: string)
    ensures v == Many([]) ==> t == ""
    ensures v.Many? && |v.xs| >= 1 && (forall x :: x in v.xs ==> ',' !in x) ==> Split(t, ',') == v.xs
  {
    match v
    case Text(s) => s
    case Many(xs) =>
      assert |xs| >= 1 && (forall x :: x in xs ==> ',' !in x) ==> Split(JoinWith(xs, ','), ',') == xs by {
        if |xs| >= 1 && forall x :: x in xs ==> ',' !in x {
          SplitJoin(xs, ',');
        }
      }
      JoinWith(xs, ',')
  }

  /** The parameter name of a filter key: `added_after` stays as it is,
      every other key `k` becomes `match[k]`. */
  function WireKey(k: string): (w: string)
    ensures w == "added_after" <==> k == "added_after"
    ensures k != "added_after" ==> |w| == |k| + 7 && w[..6] == "match[" && w[6..|w| - 1] == k && w[|w| - 1] == ']'
  {
    if k == "added_after" then k
    else
      var w := "match[" + k + "]";
      assert w[0] == 'm' && "added_after"[0] == 'a';
      w
  }

  /** One `esc(key)=esc(value)` pair. */
  function PairText(entry: (string, FilterValue)): (p: string)
    ensures '&' !in p
    ensures Split(p, '=') == [Esc(WireKey(entry.0)), Esc(ValueText(entry.1))]
  {
    var key, value := Esc(WireKey(entry.0)), Esc(ValueText(entry.1));
    EscHasNo(WireKey(entry.0), '&');
    EscHasNo(ValueText(entry.1), '&');
    EscHasNo(WireKey(entry.0), '=');
    EscHasNo(ValueText(entry.1), '=');
    SplitAt(key, value, '=');
    SplitNoSep(value, '=');
    key + "=" + value
  }

  /** The pairs of the entries, in order. */
  function Pairs(f: Filter): (ps: seq<string>)
    ensures |ps| == |f|
  {
    if f == [] then [] else [PairText(f[0])] + Pairs(f[1..])
  }

  /** `asQueryString(filter)`. An empty filter gives the empty string. */
  function AsQueryString(f: Filter): (q: string)
    ensures q == "" <==> f == []
  {
    var ps := Pairs(f);
    assert f != [] ==> |ps[0]| > 0 && |JoinWith(ps, '&')| >= |ps[0]|;
    JoinWith(ps, '&')
  }

  /** A one-entry filter is one `key=value` pair, with no `&`. */
  lemma SingleEntryQuery(k: string, v: FilterValue)
    ensures AsQueryString([(k, v)]) == Esc(WireKey(k)) + "=" + Esc(ValueText(v))
  {
    assert [(k, v)][1..] == [];
  }

  /** The URL `asyncFetch` requests: `path` alone when no filter is passed,
      else `path + "?" + asQueryString(filter)`. */
  function FullPath(path: string, filter: Option<Filter>): (u: string)
    ensures filter == None ==> u == path
    ensures filter.Some? ==>
      (|u| > |path| && u[..|path|] == path && u[|path|] == '?' && u[|path| + 1..] == AsQueryString(filter.value))
  {
    match filter
    case None => path
    case Some(f) => path + "?" + AsQueryString(f)
  }

  /** An empty filter object still makes `asyncFetch` append the `?`. */
  lemma EmptyFilterKeepsQuestionMark(path: string)
    ensures FullPath(path, Some([])) == path + "?"
  {
  }

  // ---------------------------------------------------------------------
  // Reading a query string back.

  /** `s.split(sep)`. */
  function Split(s: string, sep: char): (parts: seq<string>)
    ensures |parts| >= 1
  {
    if s == [] then [""]
    else
      var rest := Split(s[1..], sep);
      if s[0] == sep then [""] + rest else [[s[0]] + rest[0]] + rest[1..]
  }

  lemma {:induction false} SplitNoSep(s: string, sep: char)
    requires sep !in s
    ensures Split(s, sep) == [s]
  {
    if s != [] {
      SplitNoSep(s[1..], sep);
      assert [s[0]] + s[1..] == s;
    }
  }

  lemma {:induction false} SplitAt(a: string, b: string, sep: char)
    requires sep !in a
    ensures Split(a + [sep] + b, sep) == [a] + Split(b, sep)
  {
    var s := a + [sep] + b;
    if a == [] {
      assert s == [sep] + b;
      assert s[1..] == b;
    } else {
      assert s[0] == a[0];
      assert s[1..] == a[1..] + [sep] + b;
      SplitAt(a[1..], b, sep);
      assert [a[0]] + a[1..] == a;
    }
  }

  /** Splitting undoes joining when no part holds the separator. */
  lemma {:induction false} SplitJoin(xs: seq<string>, sep: char)
    requires |xs| >= 1
    requires forall x :: x in xs ==> sep !in x
    ensures Split(JoinWith(xs, sep), sep) == xs
  {
    if |xs| == 1 {
      SplitNoSep(xs[0], sep);
    } else {
      SplitJoin(xs[1..], sep);
      SplitAt(xs[0], JoinWith(xs[1..], sep), sep);
      assert [xs[0]] + xs[1..] == xs;
    }
  }

  /** The filter key a parameter name stands for. */
  function KeyOfWire(w: string): Option<string> {
    if w == "added_after" then Some(w)
    else if |w| >= 7 && w[..6] == "match[" && w[|w| - 1] == ']' then Some(w[6..|w| - 1])
    else None
  }

  /** Different filter keys give different parameter names. */
  lemma KeyOfWireKey(k: string)
    ensures KeyOfWire(WireKey(k)) == Some(k)
  {
  }

  /** One `name=value` pair back as (filter key, value text). */
  function ParsePair(p: string): Option<(string, string)> {
    var parts := Split(p, '=');
    if |parts| != 2 then None
    else
      match (Unesc(parts[0]), Unesc(parts[1]))
      case (Some(w), Some(v)) =>
        (match KeyOfWire(w)
         case Some(k) => Some((k, v))
         case None => None)
      case _ => None
  }

  function ParseAll(ps: seq<string>): Option<seq<(string, string)>> {
    if ps == [] then Some([])
    else
      match (ParsePair(ps[0]), ParseAll(ps[1..]))
      case (Some(e), Some(rest)) => Some([e] + rest)
      case _ => None
  }

  function ParseQuery(q: string): Option<seq<(string, string)>> {
    if q == "" then Some([]) else ParseAll(Split(q, '&'))
  }

  /** The entries of a filter with every value as the text that is sent. */
  function Flatten(f: Filter): seq<(string, string)> {
    if f == [] then [] else [(f[0].0, ValueText(f[0].1))] + Flatten(f[1..])
  }

  /** A pair reads back as its filter key and value text. */
  lemma ParsePairText(entry: (string, FilterValue))
    ensures ParsePair(PairText(entry)) == Some((entry.0, ValueText(entry.1)))
  {
    UnescEsc(WireKey(entry.0));
    UnescEsc(ValueText(entry.1));
    KeyOfWireKey(entry.0);
  }

  lemma ParseAllCons(p: string, ps: seq<string>, e: (string, string), es: seq<(string, string)>)
    requires ParsePair(p) == Some(e) && ParseAll(ps) == Some(es)
    ensures ParseAll([p] + ps) == Some([e] + es)
  {
    assert ([p] + ps)[1..] == ps;
  }

  /** No pair holds the `&` that separates them. */
  lemma {:induction false} PairsHaveNoAmp(f: Filter)
    ensures forall p :: p in Pairs(f) ==> '&' !in p
  {
    if f != [] {
      PairsHaveNoAmp(f[1..]);
    }
  }

  lemma {:induction false} ParseAllPairs(f: Filter)
    ensures ParseAll(Pairs(f)) == Some(Flatten(f))
  {
    if f != [] {
      var e := (f[0].0, ValueText(f[0].1));
      ParsePairText(f[0]);
      ParseAllPairs(f[1..]);
      ParseAllCons(PairText(f[0]), Pairs(f[1..]), e, Flatten(f[1..]));
    } else {
    }
  }

  /** The query string of a filter reads back as that filter's keys, in
      order, each with the text of its value: nothing is lost or confused
      by the escaping and the `match[...]` wrapping. */
  lemma ParseQueryAsQueryString(f: Filter)
    ensures ParseQuery(AsQueryString(f)) == Some(Flatten(f))
  {
    if f != [] {
      PairsHaveNoAmp(f);
      SplitJoin(Pairs(f), '&');
      ParseAllPairs(f);
    }
  }

  /** Two filters with the same query string have the same keys in the
      same order and the same value texts. */
  /** An array value and the string of its comma-joined parts give the
      same query string, so the query string does not determine the filter
      itself. */
  lemma ArrayAndJoinedTextCollide()
    ensures AsQueryString([("type", Text("a,b"))]) == AsQueryString([("type", Many(["a", "b"]))])
    ensures [("type", Text("a,b"))] != [("type", Many(["a", "b"]))]
  {
    assert JoinWith(["a", "b"], ',') == "a,b";
  }

  lemma AsQueryStringInjective(f: Filter, g: Filter)
    requires AsQueryString(f) == AsQueryString(g)
    ensures Flatten(f) == Flatten(g)
  {
    ParseQueryAsQueryString(f);
    ParseQueryAsQueryString(g);
  }
}
