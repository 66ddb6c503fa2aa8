/** The request-path and AQL bind-parameter helpers shared by every driver
    module: realm-prefixed database names, `/_db/{db}/_api/{path}` URLs with
    query strings, and the interning table behind `Parameterize`, which turns
    the holes of an interpolated AQL string into `@P{n}` / `@@C{n}` bind
    parameters. */
module ArangoModule {
  import opened Common

  // ---------------------------------------------------------------------------
  // Decimal rendering of the parameter counter (`{++_counter}` in an
  // interpolated string).
  // ---------------------------------------------------------------------------

  function Digit(d: nat): (c: char)
    requires d < 10
    ensures '0' <= c <= '9'
  {
    "0123456789"[d]
  }

  function DigitValue(c: char): nat
  {
    if '0' <= c <= '9' then (c as int) - ('0' as int) else 0
  }

  /** `int.ToString()` of a non-negative number: its decimal digits. */
  function NatToString(n: nat): (s: string)
    ensures |s| > 0
    ensures forall i :: 0 <= i < |s| ==> '0' <= s[i] <= '9'
    decreases n
  {
    if n < 10 then [Digit(n)] else NatToString(n / 10) + [Digit(n % 10)]
  }

  /** Reads a string of decimal digits back as a number. */
  function ParseDecimal(s: string): nat
  {
    if s == [] then 0 else ParseDecimal(s[..|s| - 1]) * 10 + DigitValue(s[|s| - 1])
  }

  lemma {:induction false} DecimalRoundTrip(n: nat)
    ensures ParseDecimal(NatToString(n)) == n
    decreases n
  {
    var s := NatToString(n);
    if n < 10 {
      assert s[..|s| - 1] == [];
    } else {
      DecimalRoundTrip(n / 10);
      assert s[..|s| - 1] == NatToString(n / 10);
    }
  }

  /** Distinct counter values render as distinct digit strings. */
  lemma NatToStringInjective(a: nat, b: nat)
    ensures NatToString(a) == NatToString(b) ==> a == b
  {
    DecimalRoundTrip(a);
    DecimalRoundTrip(b);
  }

  // ---------------------------------------------------------------------------
  // QueryFormattingContext
  // ---------------------------------------------------------------------------

  /** `QueryParameterType`: a scalar bind value or a collection name. */
  datatype ParamKind = Regular | Collection

  /** The name `Register` gives to the `n`-th new slot. */
  function ParamName(kind: ParamKind, n: nat): (name: string)
    ensures |name| > 2 && name[0] == '@'
  {
    match kind
    case Regular => "@P" + NatToString(n)
    case Collection => "@@C" + NatToString(n)
  }

  /** Scalar and collection names never collide, and one kind never reuses
      a name for two counter values. */
  lemma ParamNameInjective(k1: ParamKind, n1: nat, k2: ParamKind, n2: nat)
    ensures ParamName(k1, n1) == ParamName(k2, n2) ==> k1 == k2 && n1 == n2
  {
    var a, b := ParamName(k1, n1), ParamName(k2, n2);
    if a == b {
      assert a[1] == b[1];
      assert k1 == k2;
      var p := if k1.Regular? then 2 else 3;
      assert a[p..] == NatToString(n1) && b[p..] == NatToString(n2);
      NatToStringInjective(n1, n2);
    }
  }

  /** No two keys of `m` share a name. */
  ghost predicate InjectiveNames<K>(m: map<K, string>)
  {
    forall k1, k2 :: k1 in m && k2 in m && k1 != k2 ==> m[k1] != m[k2]
  }

  /** No pair is registered twice. */
  ghost predicate Distinct<K>(s: seq<K>)
  {
    forall i, j :: 0 <= i < j < |s| ==> s[i] != s[j]
  }

  /** The slot table after registering the pairs of `order` in turn: the
      `n`-th new pair (from 1) is named after `n`. */
  ghost function Slots<V>(order: seq<(V, ParamKind)>): (slots: map<(V, ParamKind), string>)
    ensures forall k :: k in slots ==> |slots[k]| > 2 && slots[k][0] == '@'
    decreases |order|
  {
    if order == [] then map[]
    else
      var n := |order| - 1;
      Slots(order[..n])[order[n] := ParamName(order[n].1, n + 1)]
  }

  lemma SlotsSnoc<V>(order: seq<(V, ParamKind)>, k: (V, ParamKind))
    ensures Slots(order + [k]) == Slots(order)[k := ParamName(k.1, |order| + 1)]
  {
    assert (order + [k])[..|order|] == order;
  }

  /** The table holds exactly the registered pairs. */
  lemma {:induction false} SlotsKeys<V>(order: seq<(V, ParamKind)>)
    ensures forall k :: k in Slots(order) <==> k in order
    decreases |order|
  {
    if order != [] {
      var n := |order| - 1;
      SlotsKeys(order[..n]);
      assert order == order[..n] + [order[n]];
    }
  }

  /** Without repeats the table has one slot per registration, and every
      name carries a number no larger than the count, so names are distinct. */
  lemma {:induction false} SlotsNames<V>(order: seq<(V, ParamKind)>)
    requires Distinct(order)
    ensures |Slots(order)| == |order|
    ensures forall k :: k in Slots(order) ==> exists j :: 1 <= j <= |order| && Slots(order)[k] == ParamName(k.1, j)
    ensures InjectiveNames(Slots(order))
    decreases |order|
  {
    if order != [] {
      var n := |order| - 1;
      var front, k := order[..n], order[n];
      assert Distinct(front);
      SlotsNames(front);
      SlotsKeys(front);
      assert k !in front;
      var m, name := Slots(front), ParamName(k.1, n + 1);
      forall k2 | k2 in m ensures m[k2] != name {
        var j :| 1 <= j <= n && m[k2] == ParamName(k2.1, j);
        ParamNameInjective(k2.1, j, k.1, n + 1);
      }
    }
  }

  /** The bind-parameter table of one formatting pass: one slot per distinct
      `(value, kind)` pair, all kinds numbered by one shared counter. */
  class QueryFormattingContext<V(==)> {
    var paramsMap: map<(V, ParamKind), string>
    var counter: nat
    /** The registered pairs in registration order. */
    ghost var order: seq<(V, ParamKind)>

    ghost predicate Valid()
      reads this
    {
      |order| == counter && Distinct(order) && paramsMap == Slots(order)
    }

    constructor ()
      ensures Valid() && paramsMap == map[] && counter == 0
    {
      paramsMap := map[];
      counter := 0;
      order := [];
    }

    /** The table invariant: the counter is the number of slots, and distinct
        pairs hold distinct names. */
    lemma CounterAndNames()
      requires Valid()
      ensures |paramsMap| == counter
      ensures InjectiveNames(paramsMap)
      ensures forall k :: k in paramsMap ==> |paramsMap[k]| > 2 && paramsMap[k][0] == '@'
      ensures forall k :: k in paramsMap ==> exists j :: 1 <= j <= counter && paramsMap[k] == ParamName(k.1, j)
    {
      SlotsNames(order);
    }

    /** `Register`: the slot of `(value, kind)`, created on first use. */
    method Register(kind: ParamKind, value: V) returns (paramName: string)
      requires Valid()
      modifies this
      ensures Valid()
      ensures (value, kind) in old(paramsMap) ==>
        paramName == old(paramsMap)[(value, kind)] && paramsMap == old(paramsMap) && counter == old(counter)
      ensures (value, kind) !in old(paramsMap) ==>
        && counter == old(counter) + 1
        && paramName == ParamName(kind, counter)
        && paramsMap == old(paramsMap)[(value, kind) := paramName]
    {
      if (value, kind) in paramsMap {
        paramName := paramsMap[(value, kind)];
      } else {
        SlotsKeys(order);
        SlotsSnoc(order, (value, kind));
        counter := counter + 1;
        paramName := match kind
          case Regular => "@P" + NatToString(counter)
          case Collection => "@@C" + NatToString(counter);
        paramsMap := paramsMap[(value, kind) := paramName];
        order := order + [(value, kind)];
      }
    }

    /** Dropping the common leading `@` keeps the names distinct. */
    lemma TailsDistinct()
      requires Valid()
      ensures forall k :: k in paramsMap ==> |paramsMap[k]| > 2 && paramsMap[k][0] == '@'
      ensures forall k1, k2 :: k1 in paramsMap && k2 in paramsMap && paramsMap[k1][1..] == paramsMap[k2][1..] ==> k1 == k2
    {
      CounterAndNames();
      forall k1, k2 | k1 in paramsMap && k2 in paramsMap && paramsMap[k1][1..] == paramsMap[k2][1..]
        ensures k1 == k2
      {
        assert paramsMap[k1] == [paramsMap[k1][0]] + paramsMap[k1][1..];
        assert paramsMap[k2] == [paramsMap[k2][0]] + paramsMap[k2][1..];
      }
    }

    /** `Parameters`: each slot's name without its leading `@`, bound to the
        registered value. */
    function Parameters(): (r: map<string, V>)
      reads this
      requires Valid()
      ensures forall k :: k in paramsMap ==> paramsMap[k][1..] in r && r[paramsMap[k][1..]] == k.0
      ensures forall n :: n in r ==> exists k :: k in paramsMap && paramsMap[k][1..] == n
    {
      TailsDistinct();
      map k | k in paramsMap :: paramsMap[k][1..] := k.0
    }
  }

  /** A value registered once as a scalar and once as a collection takes two
      slots, and registering it again reuses the first. */
  method InterningExample<V(==)>(v: V) returns (first: string, again: string, asCollection: string)
    ensures first == "@P1" && again == "@P1" && asCollection == "@@C2"
  {
    assert NatToString(1) == "1" && NatToString(2) == "2";
    var context := new QueryFormattingContext<V>();
    first := context.Register(Regular, v);
    again := context.Register(Regular, v);
    asCollection := context.Register(Collection, v);
  }

  // ---------------------------------------------------------------------------
  // AqlQueryFormatter
  // ---------------------------------------------------------------------------

  /** The format specifier of a hole selects the parameter kind: none for a
      scalar, `C`, `c` or `@` for a collection, anything else is refused. */
  function FormatKind(format: Option<string>): (r: Result<ParamKind>)
    ensures r == Ok(Regular) <==> format.None?
    ensures r == Ok(Collection) <==> format.Some? && format.value in {"C", "c", "@"}
    ensures r.Err? ==> r.error == FormatError("Unsupported format: " + format.value)
  {
    match format
    case None => Ok(Regular)
    case Some(f) =>
      if f == "C" then Ok(Collection)
      else if f == "c" then Ok(Collection)
      else if f == "@" then Ok(Collection)
      else Err(FormatError("Unsupported format: " + f))
  }

  /** The custom formatter `Parameterize` hands to the interpolated string;
      it owns one formatting context. */
  class AqlQueryFormatter<V(==)> {
    const context: QueryFormattingContext<V>

    constructor ()
      ensures fresh(context) && context.Valid() && context.paramsMap == map[]
    {
      context := new QueryFormattingContext<V>();
    }

    /** `Format` for a plain argument: pick the kind, then register. */
    method Format(format: Option<string>, arg: V) returns (r: Result<string>)
      requires context.Valid()
      modifies context
      ensures context.Valid()
      ensures FormatKind(format).Err? ==> r == Err(FormatKind(format).error) && unchanged(context)
      ensures FormatKind(format).Ok? ==>
        var key := (arg, FormatKind(format).value);
        && r.Ok?
        && key in context.paramsMap && r.value == context.paramsMap[key]
        && (key in old(context.paramsMap) ==> context.paramsMap == old(context.paramsMap))
        && (key !in old(context.paramsMap) ==>
              context.paramsMap == old(context.paramsMap)[key := ParamName(key.1, context.counter)])
    {
      var kind := FormatKind(format);
      if kind.Err? {
        return Err(kind.error);
      }
      var name := context.Register(kind.value, arg);
      r := Ok(name);
    }
  }

  /** What `FormattableString.ToString(formatter)` does with one segment of
      the string: literal text is copied, a hole goes through `Format`. */
  method FormatSegment<V(==)>(formatter: AqlQueryFormatter<V>, seg: Segment<V>) returns (r: Result<string>)
    requires formatter.context.Valid()
    modifies formatter.context
    ensures formatter.context.Valid()
    ensures r.Err? <==> seg.Hole? && FormatKind(seg.format).Err?
    ensures r.Err? ==> r.error.FormatError?
    ensures r.Ok? ==>
      var slots, before := formatter.context.paramsMap, old(formatter.context.paramsMap);
      && slots.Keys == before.Keys + (if seg.Hole? then {HoleKey(seg)} else {})
      && (forall k :: k in before ==> slots[k] == before[k])
      && r.value == (if seg.Hole? then slots[HoleKey(seg)] else seg.text)
  {
    if seg.Text? {
      return Ok(seg.text);
    }
    r := formatter.Format(seg.format, seg.arg);
  }

  /** An interpolated AQL string: literal text and holes with their optional
      format specifier. */
  datatype Segment<V> = Text(text: string) | Hole(format: Option<string>, arg: V)

  /** Every hole of `query` has a supported format. */
  predicate WellFormatted<V(==)>(query: seq<Segment<V>>)
  {
    forall i :: 0 <= i < |query| && query[i].Hole? ==> FormatKind(query[i].format).Ok?
  }

  /** The slot key of a hole. */
  function HoleKey<V(==)>(s: Segment<V>): (V, ParamKind)
    requires s.Hole? && FormatKind(s.format).Ok?
  {
    (s.arg, FormatKind(s.format).value)
  }

  /** The slot keys of all holes. */
  function HoleKeys<V(==)>(query: seq<Segment<V>>): set<(V, ParamKind)>
    requires WellFormatted(query)
  {
    if query == [] then {}
    else
      var last := query[|query| - 1];
      HoleKeys(query[..|query| - 1]) + (if last.Hole? then {HoleKey(last)} else {})
  }

  /** The slot keys are exactly the keys of the holes. */
  lemma {:induction false} HoleKeysMembers<V>(query: seq<Segment<V>>, k: (V, ParamKind))
    requires WellFormatted(query)
    ensures k in HoleKeys(query) <==> exists i :: 0 <= i < |query| && query[i].Hole? && HoleKey(query[i]) == k
  {
    if query != [] {
      var front := query[..|query| - 1];
      HoleKeysMembers(front, k);
      assert forall j :: 0 <= j < |front| ==> front[j] == query[j];
    }
  }

  /** Appending one segment adds the slot key of a hole and nothing for text. */
  lemma HoleKeysSnoc<V>(query: seq<Segment<V>>, seg: Segment<V>)
    requires WellFormatted(query)
    requires seg.Hole? ==> FormatKind(seg.format).Ok?
    ensures WellFormatted(query + [seg])
    ensures HoleKeys(query + [seg]) == HoleKeys(query) + (if seg.Hole? then {HoleKey(seg)} else {})
  {
    var q := query + [seg];
    assert q[..|q| - 1] == query;
    assert forall j :: 0 <= j < |query| ==> q[j] == query[j];
  }

  /** The query text when every hole is written as the name of its slot. */
  function Render<V(==)>(query: seq<Segment<V>>, slots: map<(V, ParamKind), string>): string
    requires WellFormatted(query)
    requires HoleKeys(query) <= slots.Keys
  {
    if query == [] then ""
    else
      var last := query[|query| - 1];
      Render(query[..|query| - 1], slots) + (if last.Hole? then slots[HoleKey(last)] else last.text)
  }

  /** Rendering one more segment appends its text or its slot name. */
  lemma RenderSnoc<V>(query: seq<Segment<V>>, seg: Segment<V>, slots: map<(V, ParamKind), string>)
    requires WellFormatted(query + [seg])
    requires HoleKeys(query + [seg]) <= slots.Keys
    ensures WellFormatted(query) && HoleKeys(query) <= slots.Keys
    ensures Render(query + [seg], slots) == Render(query, slots) + (if seg.Hole? then slots[HoleKey(seg)] else seg.text)
  {
    var q := query + [seg];
    assert q[..|q| - 1] == query;
    assert forall j :: 0 <= j < |query| ==> q[j] == query[j];
  }

  /** Rendering depends only on the slots of the holes it contains. */
  lemma {:induction false} RenderStable<V>(query: seq<Segment<V>>, m1: map<(V, ParamKind), string>, m2: map<(V, ParamKind), string>)
    requires WellFormatted(query)
    requires HoleKeys(query) <= m1.Keys
    requires forall k :: k in m1 ==> k in m2 && m2[k] == m1[k]
    ensures Render(query, m1) == Render(query, m2)
  {
    if query != [] {
      RenderStable(query[..|query| - 1], m1, m2);
    }
  }

  /** One pass of the formatting loop keeps the rendered text and the slot
      keys in step with the prefix of the query consumed so far. */
  lemma ParameterizeStep<V>(query: seq<Segment<V>>, i: nat, before: map<(V, ParamKind), string>,
                            after: map<(V, ParamKind), string>, text: string, piece: string)
    requires i < |query|
    requires WellFormatted(query[..i])
    requires query[i].Hole? ==> FormatKind(query[i].format).Ok?
    requires before.Keys == HoleKeys(query[..i])
    requires after.Keys == before.Keys + (if query[i].Hole? then {HoleKey(query[i])} else {})
    requires forall k :: k in before ==> after[k] == before[k]
    requires piece == if query[i].Hole? then after[HoleKey(query[i])] else query[i].text
    requires text == Render(query[..i], before) + piece
    ensures WellFormatted(query[..i + 1])
    ensures after.Keys == HoleKeys(query[..i + 1])
    ensures text == Render(query[..i + 1], after)
  {
    PrefixSnoc(query, i);
    HoleKeysSnoc(query[..i], query[i]);
    RenderStable(query[..i], before, after);
    RenderSnoc(query[..i], query[i], after);
  }

  /** `Parameterize`: formats the interpolated string with a fresh formatter
      and returns the text and the bind parameters. `slots` is the final
      table, each hole written as its slot name. */
  method Parameterize<V(==)>(query: seq<Segment<V>>)
    returns (r: Result<(string, map<string, V>)>, ghost slots: map<(V, ParamKind), string>)
    ensures r.Ok? <==> WellFormatted(query)
    ensures r.Err? ==> r.error.FormatError?
    ensures r.Ok? ==>
      && slots.Keys == HoleKeys(query)
      && InjectiveNames(slots)
      && (forall k :: k in slots ==> |slots[k]| > 2 && slots[k][0] == '@')
      && (forall k :: k in slots ==> exists j :: 1 <= j <= |slots| && slots[k] == ParamName(k.1, j))
      && r.value.0 == Render(query, slots)
      && (forall k :: k in slots ==> slots[k][1..] in r.value.1 && r.value.1[slots[k][1..]] == k.0)
      && (forall n :: n in r.value.1 ==> exists k :: k in slots && slots[k][1..] == n)
  {
    var formatter := new AqlQueryFormatter<V>();
    var text := "";
    var i := 0;
    while i < |query|
      invariant 0 <= i <= |query|
      invariant formatter.context.Valid()
      invariant WellFormatted(query[..i])
      invariant formatter.context.paramsMap.Keys == HoleKeys(query[..i])
      invariant text == Render(query[..i], formatter.context.paramsMap)
    {
      ghost var before := formatter.context.paramsMap;
      var piece := FormatSegment(formatter, query[i]);
      if piece.Err? {
        assert !WellFormatted(query) by { assert query[i].Hole? && FormatKind(query[i].format).Err?; }
        return Err(piece.error), map[];
      }
      text := text + piece.value;
      ParameterizeStep(query, i, before, formatter.context.paramsMap, text, piece.value);
      i := i + 1;
    }
    assert query[..i] == query;
    formatter.context.CounterAndNames();
    slots := formatter.context.paramsMap;
    r := Ok((text, formatter.context.Parameters()));
  }

  // ---------------------------------------------------------------------------
  // Query strings and request paths
  // ---------------------------------------------------------------------------

  /** `string.IndexOf(char)`: the first position of `c`, or -1. */
  function IndexOf(s: string, c: char): (r: int)
    ensures -1 <= r < |s|
    ensures r == -1 <==> c !in s
    ensures r >= 0 ==> s[r] == c && c !in s[..r]
  {
    if s == [] then -1
    else if s[0] == c then 0
    else
      var t := IndexOf(s[1..], c);
      assert t >= 0 ==> s[..t + 1] == [s[0]] + s[1..][..t];
      if t == -1 then -1 else t + 1
  }

  /** The part of `uri` before its first `#`. */
  function BeforeAnchor(uri: string): string
  {
    var k := IndexOf(uri, '#');
    if k == -1 then uri else uri[..k]
  }

  /** The anchor of `uri`, from its first `#` on (empty when there is none). */
  function Anchor(uri: string): string
  {
    var k := IndexOf(uri, '#');
    if k == -1 then "" else uri[k..]
  }

  /** One `key=value` pair with the separator in front of it. */
  function Pair(separator: char, p: (string, string), encode: string -> string): string
  {
    [separator] + encode(p.0) + "=" + encode(p.1)
  }

  /** The appended pairs: the first behind `first`, the others behind `&`. */
  function QueryPart(first: char, pairs: seq<(string, string)>, encode: string -> string): string
    decreases |pairs|
  {
    if pairs == [] then "" else Pair(first, pairs[0], encode) + QueryPart('&', pairs[1..], encode)
  }

  /** What `AddQueryString` returns: the part before the anchor, the pairs
      (opened with `?` unless that part already has a query), the anchor. */
  function AddQueryStringSpec(uri: string, pairs: seq<(string, string)>, encode: string -> string): string
  {
    var before := BeforeAnchor(uri);
    before + QueryPart(if '?' in before then '&' else '?', pairs, encode) + Anchor(uri)
  }

  /** Appending one more pair at the end of the list appends one piece. */
  lemma {:induction false} QueryPartSnoc(first: char, pairs: seq<(string, string)>, p: (string, string), encode: string -> string)
    ensures QueryPart(first, pairs + [p], encode)
         == QueryPart(first, pairs, encode) + Pair(if pairs == [] then first else '&', p, encode)
    decreases |pairs|
  {
    if pairs != [] {
      assert (pairs + [p])[1..] == pairs[1..] + [p];
      QueryPartSnoc('&', pairs[1..], p, encode);
    }
  }

  /** The pair lists of two calls concatenate. */
  lemma {:induction false} QueryPartAppend(first: char, p1: seq<(string, string)>, p2: seq<(string, string)>, encode: string -> string)
    requires p1 != []
    ensures QueryPart(first, p1 + p2, encode) == QueryPart(first, p1, encode) + QueryPart('&', p2, encode)
    decreases |p1|
  {
    assert (p1 + p2)[1..] == p1[1..] + p2;
    if p1[1..] != [] {
      QueryPartAppend('&', p1[1..], p2, encode);
    }
  }

  lemma {:induction false} QueryPartHasNoAnchor(first: char, pairs: seq<(string, string)>, encode: string -> string)
    requires first != '#'
    requires forall s :: '#' !in encode(s)
    ensures '#' !in QueryPart(first, pairs, encode)
    decreases |pairs|
  {
    if pairs != [] {
      QueryPartHasNoAnchor('&', pairs[1..], encode);
      assert '#' !in encode(pairs[0].0) && '#' !in encode(pairs[0].1);
    }
  }

  /** One step of the loop of `AddQueryString`: the `i`-th pair extends the
      query part of the first `i` pairs. */
  lemma AppendedPair(first: char, pairs: seq<(string, string)>, i: nat, separator: char, encode: string -> string)
    requires i < |pairs|
    requires separator == (if i == 0 then first else '&')
    ensures QueryPart(first, pairs[..i + 1], encode)
         == QueryPart(first, pairs[..i], encode) + ([separator] + encode(pairs[i].0) + "=" + encode(pairs[i].1))
  {
    assert pairs[..i + 1] == pairs[..i] + [pairs[i]];
    QueryPartSnoc(first, pairs[..i], pairs[i], encode);
  }

  /** String concatenation is associative. */
  lemma AppendAssociative(a: string, b: string, c: string)
    ensures a + (b + c) == (a + b) + c
  {
  }

  /** `AddQueryString`: appends the encoded pairs before the anchor. */
  method AddQueryString(uri: string, queryString: seq<(string, string)>, encode: string -> string) returns (r: string)
    ensures r == AddQueryStringSpec(uri, queryString, encode)
  {
    var anchorIndex := IndexOf(uri, '#');
    var uriToBeAppended := uri;
    var anchorText := "";
    if anchorIndex != -1 {
      anchorText := uri[anchorIndex..];
      uriToBeAppended := uri[..anchorIndex];
    }
    var hasQuery := '?' in uriToBeAppended;
    ghost var first := if hasQuery then '&' else '?';
    AddQueryStringParts(uri, anchorIndex, uriToBeAppended, anchorText, queryString, encode);
    var sb := uriToBeAppended;
    var i := 0;
    while i < |queryString|
      invariant 0 <= i <= |queryString|
      invariant hasQuery == (i > 0 || first == '&')
      invariant sb == uriToBeAppended + QueryPart(first, queryString[..i], encode)
    {
      var separator := if hasQuery then '&' else '?';
      var pair := [separator] + encode(queryString[i].0) + "=" + encode(queryString[i].1);
      AppendedPair(first, queryString, i, separator, encode);
      AppendAssociative(uriToBeAppended, QueryPart(first, queryString[..i], encode), pair);
      sb := sb + pair;
      hasQuery := true;
      i := i + 1;
    }
    assert queryString[..i] == queryString;
    sb := sb + anchorText;
    r := sb;
  }

  /** The split `AddQueryString` makes is the one `AddQueryStringSpec` uses. */
  lemma AddQueryStringParts(uri: string, anchorIndex: int, uriToBeAppended: string, anchorText: string,
                            queryString: seq<(string, string)>, encode: string -> string)
    requires anchorIndex == IndexOf(uri, '#')
    requires anchorIndex == -1 ==> uriToBeAppended == uri && anchorText == ""
    requires anchorIndex != -1 ==> uriToBeAppended == uri[..anchorIndex] && anchorText == uri[anchorIndex..]
    ensures AddQueryStringSpec(uri, queryString, encode)
         == uriToBeAppended + QueryPart(if '?' in uriToBeAppended then '&' else '?', queryString, encode) + anchorText
  {
  }

  /** No pairs: the uri comes back unchanged. */
  lemma AddNoPairs(uri: string, encode: string -> string)
    ensures AddQueryStringSpec(uri, [], encode) == uri
  {
    var k := IndexOf(uri, '#');
    if k != -1 {
      assert uri[..k] + uri[k..] == uri;
    }
  }

  /** The position of `c` in `x + y` when `x` does not contain it. */
  lemma {:induction false} IndexOfAfter(x: string, y: string, c: char)
    requires c !in x
    ensures IndexOf(x + y, c) == if c in y then |x| + IndexOf(y, c) else -1
    decreases |x|
  {
    if x == [] {
      assert x + y == y;
    } else {
      assert (x + y)[1..] == x[1..] + y;
      IndexOfAfter(x[1..], y, c);
    }
  }

  /** A uri is its part before the anchor followed by the anchor, which is
      empty or opens with the first `#`. */
  lemma AnchorSplit(uri: string)
    ensures uri == BeforeAnchor(uri) + Anchor(uri)
    ensures '#' !in BeforeAnchor(uri)
    ensures Anchor(uri) == [] || Anchor(uri)[0] == '#'
  {
    var k := IndexOf(uri, '#');
    if k != -1 {
      assert uri == uri[..k] + uri[k..];
    }
  }

  /** The result of `AddQueryString` splits at the anchor of the original uri,
      when the encoder never produces `#`. */
  lemma SpecSplit(uri: string, pairs: seq<(string, string)>, encode: string -> string)
    requires forall s :: '#' !in encode(s)
    ensures var before := BeforeAnchor(uri);
      var u := AddQueryStringSpec(uri, pairs, encode);
      && BeforeAnchor(u) == before + QueryPart(if '?' in before then '&' else '?', pairs, encode)
      && Anchor(u) == Anchor(uri)
  {
    var before := BeforeAnchor(uri);
    var first := if '?' in before then '&' else '?';
    var head := before + QueryPart(first, pairs, encode);
    var anchor := Anchor(uri);
    AnchorSplit(uri);
    QueryPartHasNoAnchor(first, pairs, encode);
    IndexOfAfter(before, QueryPart(first, pairs, encode), '#');
    IndexOfAfter(head, anchor, '#');
    var u := head + anchor;
    if anchor != [] {
      assert IndexOf(u, '#') == |head|;
      assert u[..|head|] == head && u[|head|..] == anchor;
    }
  }

  /** Two calls in a row add the same query string as one call with both
      lists, when the encoder never produces `#` (UrlEncoder escapes it). */
  lemma AddQueryStringTwice(uri: string, p1: seq<(string, string)>, p2: seq<(string, string)>, encode: string -> string)
    requires forall s :: '#' !in encode(s)
    ensures AddQueryStringSpec(AddQueryStringSpec(uri, p1, encode), p2, encode)
         == AddQueryStringSpec(uri, p1 + p2, encode)
  {
    var before := BeforeAnchor(uri);
    var first := if '?' in before then '&' else '?';
    var q1 := QueryPart(first, p1, encode);
    SpecSplit(uri, p1, encode);
    if p1 == [] {
      assert p1 + p2 == p2;
      assert before + q1 == before;
    } else {
      QueryPartAppend(first, p1, p2, encode);
      assert (before + q1)[|before|] == first;
      AppendAssociative(before, q1, QueryPart('&', p2, encode));
    }
  }

  /** `RealmPrefix`: the database name as it appears in a URL. The system
      database keeps its name; any other is prefixed with the configured
      realm and a dash (unless the realm is blank) and URL-encoded. */
  function RealmPrefix(name: string, realm: Option<string>, encode: string -> string): (r: string)
    ensures name == "_system" ==> r == "_system"
    ensures name != "_system" && IsNullOrWhiteSpace(realm) ==> r == encode(name)
    ensures name != "_system" && !IsNullOrWhiteSpace(realm) ==> r == encode(realm.value + "-" + name)
  {
    if name == "_system" then "_system"
    else
      var prefix := if IsNullOrWhiteSpace(realm) then "" else realm.value + "-";
      assert IsNullOrWhiteSpace(realm) ==> prefix + name == name;
      encode(prefix + name)
  }

  /** `ApiPath(handle, path, parameter)`: `/_db/{db}/_api/{path}`, with the
      query string only for a non-null, non-empty parameter dictionary. */
  method ApiPath(handle: string, path: string, parameter: Option<seq<(string, string)>>,
                 realm: Option<string>, encode: string -> string) returns (req: string)
    ensures var base := "/_db/" + RealmPrefix(handle, realm, encode) + "/_api/" + path;
      req == if parameter.Some? && parameter.value != [] then AddQueryStringSpec(base, parameter.value, encode) else base
  {
    req := "/_db/" + RealmPrefix(handle, realm, encode) + "/_api/" + path;
    if parameter.Some? && |parameter.value| > 0 {
      req := AddQueryString(req, parameter.value, encode);
    }
  }

  /** `FoxxPath(handle, path, parameter)`: `/_db/{db}{path}`, with the query
      string only for a non-null, non-empty parameter dictionary. */
  method FoxxPath(handle: string, path: string, parameter: Option<seq<(string, string)>>,
                  realm: Option<string>, encode: string -> string) returns (req: string)
    ensures var base := "/_db/" + RealmPrefix(handle, realm, encode) + path;
      req == if parameter.Some? && parameter.value != [] then AddQueryStringSpec(base, parameter.value, encode) else base
  {
    req := "/_db/" + RealmPrefix(handle, realm, encode) + path;
    if parameter.Some? && |parameter.value| > 0 {
      req := AddQueryString(req, parameter.value, encode);
    }
  }

  /** `ApiPath(path)` without a database: `/_api/{path}`. */
  function ServerApiPath(path: string): (r: string)
    ensures |r| == 6 + |path| && r[..6] == "/_api/" && r[6..] == path
  {
    "/_api/" + path
  }
}
