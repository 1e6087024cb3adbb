/** The query executor's all, by-type and by-property verbs, for vertices and for edges alike: `K`
    is the identity of an item. The client answers with batches, split as it likes. */
module QueryExecutor {
  import opened Basics
  import opened GraphRecords

  datatype NamedProperty = NamedProperty(name: string, value: Val)

  /** An item of a properties answer. */
  datatype ItemProperties<+K> = ItemProperties(item: K, props: seq<NamedProperty>)

  datatype Query = All | WithType(t: string) | WithPropertyEqual(name: string, value: Val)

  datatype Row<+K> = Row(item: K, props: Props)

  datatype QueryResult<+K> = QueryResult(rows: seq<Row<K>>, rowsReturned: nat, truncated: bool)

  /** Python's equality of JSON scalars: booleans are the numbers 0 and 1. */
  function AsNumber(v: Val): Val {
    if v.Bool? then Num(if v.b then 1.0 else 0.0) else v
  }

  predicate SameValue(a: Val, b: Val) {
    AsNumber(a) == AsNumber(b)
  }

  /** A property looked up with None, JSON's null, for a missing one. */
  function ValueOrNull(props: Props, name: string): Val {
    if name in props then props[name] else Null
  }

  // ------------------------------------------------------------------
  // What the store holds, and what its answers say
  // ------------------------------------------------------------------

  /** An item's own properties in the store. */
  ghost function PropsOf<K(!new)>(stored: map<(K, string), Val>, item: K): Props {
    map p | p in stored && p.0 == item :: p.1 := stored[p]
  }

  function Flatten<T>(batches: seq<seq<T>>): seq<T> {
    if batches == [] then [] else Flatten(batches[..|batches| - 1]) + batches[|batches| - 1]
  }

  /** Flattening keeps the batches in order, and adds and drops nothing. */
  lemma {:induction false} FlattenConcat<T>(a: seq<seq<T>>, b: seq<seq<T>>, one: seq<T>)
    ensures Flatten(a + b) == Flatten(a) + Flatten(b)
    ensures Flatten([one]) == one
    decreases |b|
  {
    assert [one][..0] == [];
    if b == [] {
      assert a + b == a;
    } else {
      var n := |b| - 1;
      assert (a + b)[..|a + b| - 1] == a + b[..n];
      FlattenConcat(a, b[..n], one);
      Associate(Flatten(a), Flatten(b[..n]), b[n]);
    }
  }

  /** One property of one item, as it comes along in an answer. */
  datatype Fact<+K> = Fact(item: K, property: NamedProperty)

  function FactsOf<K>(ip: ItemProperties<K>): seq<Fact<K>> {
    seq(|ip.props|, i requires 0 <= i < |ip.props| => Fact(ip.item, ip.props[i]))
  }

  function Facts<K>(answer: seq<ItemProperties<K>>): seq<Fact<K>> {
    if answer == [] then [] else Facts(answer[..|answer| - 1]) + FactsOf(answer[|answer| - 1])
  }

  /** A properties answer is true of the store, and complete for some items. */
  ghost predicate Answers<K(!new)>(answer: seq<ItemProperties<K>>, stored: map<(K, string), Val>, items: set<K>) {
    && (forall f :: f in Facts(answer) ==>
          (f.item, f.property.name) in stored && stored[(f.item, f.property.name)] == f.property.value)
    && (forall k, name :: k in items && (k, name) in stored ==>
          Fact(k, NamedProperty(name, stored[(k, name)])) in Facts(answer))
  }

  // ------------------------------------------------------------------
  // Collecting property maps
  // ------------------------------------------------------------------

  /** The dictionary of property maps being built; an item without properties has no entry. */
  type PropertyMaps<!K(==)> = map<K, Props>

  function MapOf<K>(maps: PropertyMaps<K>, item: K): Props {
    if item in maps then maps[item] else map[]
  }

  function SetProperty<K>(maps: PropertyMaps<K>, f: Fact<K>): PropertyMaps<K> {
    maps[f.item := MapOf(maps, f.item)[f.property.name := f.property.value]]
  }

  function Collected<K(==)>(facts: seq<Fact<K>>): PropertyMaps<K> {
    if facts == [] then map[] else SetProperty(Collected(facts[..|facts| - 1]), facts[|facts| - 1])
  }

  /** The three nested loops over batches, items and properties. */
  method CollectProperties<K(==)>(batches: seq<seq<ItemProperties<K>>>) returns (maps: PropertyMaps<K>)
    ensures maps == Collected(Facts(Flatten(batches)))
  {
    hide Collected, Facts, FactsOf;
    maps := map[];
    NothingCollected<K>();
    for i := 0 to |batches|
      invariant maps == Collected(Facts(Flatten(batches[..i])))
    {
      var batch := batches[i];
      assert batches[..i + 1][..i] == batches[..i];
      ghost var before := Flatten(batches[..i]);
      assert before + batch[..0] == before;
      for j := 0 to |batch|
        invariant maps == Collected(Facts(before + batch[..j]))
      {
        FactsSnoc(before + batch[..j], batch[j]);
        assert before + batch[..j] + [batch[j]] == before + batch[..j + 1];
        maps := CollectItem(maps, Facts(before + batch[..j]), batch[j]);
      }
      assert batch[..|batch|] == batch;
    }
    assert batches[..|batches|] == batches;
  }

  lemma NothingCollected<K>()
    ensures Collected<K>(Facts([])) == map[]
  {
  }

  lemma CollectedSnoc<K>(facts: seq<Fact<K>>, f: Fact<K>)
    ensures Collected(facts + [f]) == SetProperty(Collected(facts), f)
  {
    assert (facts + [f])[..|facts|] == facts;
  }

  method CollectItem<K(==)>(earlier: PropertyMaps<K>, ghost facts: seq<Fact<K>>, ip: ItemProperties<K>)
    returns (maps: PropertyMaps<K>)
    requires earlier == Collected(facts)
    ensures maps == Collected(facts + FactsOf(ip))
  {
    hide Collected;
    maps := earlier;
    assert facts + FactsOf(ip)[..0] == facts;
    for i := 0 to |ip.props|
      invariant maps == Collected(facts + FactsOf(ip)[..i])
    {
      var props := if ip.item in maps then maps[ip.item] else map[];
      maps := maps[ip.item := props[ip.props[i].name := ip.props[i].value]];
      CollectedSnoc(facts + FactsOf(ip)[..i], FactsOf(ip)[i]);
      assert facts + FactsOf(ip)[..i] + [FactsOf(ip)[i]] == facts + FactsOf(ip)[..i + 1];
    }
    assert FactsOf(ip)[..|ip.props|] == FactsOf(ip);
  }

  lemma FactsSnoc<K>(answer: seq<ItemProperties<K>>, ip: ItemProperties<K>)
    ensures Facts(answer + [ip]) == Facts(answer) + FactsOf(ip)
  {
  }

  lemma {:induction false} CollectedHas<K(!new)>(facts: seq<Fact<K>>, stored: map<(K, string), Val>, item: K,
                                                 name: string)
    requires forall f :: f in facts ==>
      (f.item, f.property.name) in stored && stored[(f.item, f.property.name)] == f.property.value
    ensures
      var props := MapOf(Collected(facts), item);
      && (name in props <==> exists f :: f in facts && f.item == item && f.property.name == name)
      && (name in props ==> (item, name) in stored && props[name] == stored[(item, name)])
  {
    if facts != [] {
      var n := |facts| - 1;
      CollectedHas(facts[..n], stored, item, name);
      assert forall f :: f in facts <==> f in facts[..n] || f == facts[n];
    }
  }

  /** However the answer is split, an item it covers gets exactly its own properties. */
  lemma {:induction false} CollectedIsStored<K(!new)>(answer: seq<ItemProperties<K>>, stored: map<(K, string), Val>,
                                                      items: set<K>, item: K)
    requires Answers(answer, stored, items) && item in items
    ensures MapOf(Collected(Facts(answer)), item) == PropsOf(stored, item)
  {
    hide Collected, Facts;
    var facts := Facts(answer);
    var props := MapOf(Collected(facts), item);
    forall name
      ensures name in props <==> name in PropsOf(stored, item)
      ensures name in props ==> props[name] == PropsOf(stored, item)[name]
    {
      CollectedHas(facts, stored, item, name);
      if (item, name) in stored {
        assert Fact(item, NamedProperty(name, stored[(item, name)])) in facts;
      }
      assert name in PropsOf(stored, item) <==> (item, name) in stored;
    }
  }

  // ------------------------------------------------------------------
  // Executing
  // ------------------------------------------------------------------

  /** Whether an item, with these properties, is selected. */
  predicate Selects<K>(q: Query, typeOf: K -> string, item: K, props: Props) {
    match q
    case All => true
    case WithType(t) => typeOf(item) == t
    case WithPropertyEqual(name, value) => SameValue(ValueOrNull(props, name), value)
  }

  /** The naive answer: every selected item in order, with its own properties. */
  ghost function Naive<K(!new)>(q: Query, typeOf: K -> string, items: seq<K>,
                                stored: map<(K, string), Val>): seq<Row<K>> {
    if items == [] then
      []
    else
      var item := items[|items| - 1];
      var props := PropsOf(stored, item);
      Naive(q, typeOf, items[..|items| - 1], stored)
      + if Selects(q, typeOf, item, props) then [Row(item, props)] else []
  }

  function Take<T>(s: seq<T>, n: nat): seq<T> {
    if |s| <= n then s else s[..n]
  }

  /** The items the all and by-type verbs select, which take no properties to tell. */
  function OfType<K>(q: Query, typeOf: K -> string, items: seq<K>): seq<K> {
    if items == [] then
      []
    else
      var item := items[|items| - 1];
      OfType(q, typeOf, items[..|items| - 1]) + if q.All? || (q.WithType? && typeOf(item) == q.t) then [item] else []
  }

  /** The items whose properties the executor asks for: all of them to select by property, else
      those of the rows it will return. */
  function AskedFor<K(==)>(q: Query, typeOf: K -> string, items: seq<K>, rowLimit: nat): set<K> {
    var asked := if q.WithPropertyEqual? then items else Take(OfType(q, typeOf, items), rowLimit);
    set k | k in asked
  }

  ghost function RowsOf<K(!new)>(items: seq<K>, stored: map<(K, string), Val>): seq<Row<K>> {
    seq(|items|, i requires 0 <= i < |items| => Row(items[i], PropsOf(stored, items[i])))
  }

  class Executor {
    /** The number of items selected, before truncation. */
    var lastTotal: nat

    constructor () {
      lastTotal := 0;
    }

    /** `raw` answers the query for items and `answer` the query for their properties. */
    method Dispatch<K(==,!new)>(q: Query, typeOf: K -> string, raw: seq<seq<K>>, answer: seq<seq<ItemProperties<K>>>,
                                rowLimit: nat, ghost stored: map<(K, string), Val>) returns (rows: seq<Row<K>>)
      requires Answers(Flatten(answer), stored, AskedFor(q, typeOf, Flatten(raw), rowLimit))
      modifies this
      ensures
        var naive := Naive(q, typeOf, Flatten(raw), stored);
        && |rows| == (if |naive| < rowLimit then |naive| else rowLimit) && rows == naive[..|rows|]
        && lastTotal == |naive|
    {
      hide Answers, Flatten;
      var items := FlattenBatches(raw);
      match q
      case WithPropertyEqual(name, value) =>
        var selected := SelectByProperty(items, answer, name, value, typeOf, stored);
        lastTotal := |selected|;
        rows := Take(selected, rowLimit);
      case _ =>
        var chosen := ChooseByType(q, typeOf, items);
        lastTotal := |chosen|;
        var shown := Take(chosen, rowLimit);
        rows := FetchRows(shown, answer, stored);
        NaiveOfType(q, typeOf, items, stored);
        assert RowsOf(shown, stored) == Take(RowsOf(chosen, stored), rowLimit);
    }

    /** Rows are the first `rowLimit` selected items, each with its own properties; `truncated` says
        that there are more. */
    method Execute<K(==,!new)>(q: Query, typeOf: K -> string, raw: seq<seq<K>>, answer: seq<seq<ItemProperties<K>>>,
                               rowLimit: nat, ghost stored: map<(K, string), Val>) returns (result: QueryResult<K>)
      requires Answers(Flatten(answer), stored, AskedFor(q, typeOf, Flatten(raw), rowLimit))
      modifies this
      ensures
        var naive := Naive(q, typeOf, Flatten(raw), stored);
        && result.rowsReturned == |result.rows| == (if |naive| < rowLimit then |naive| else rowLimit)
        && result.rows == naive[..|result.rows|]
        && (result.truncated <==> |naive| > rowLimit)
    {
      hide Answers, Flatten, Naive, AskedFor;
      var rows := Dispatch(q, typeOf, raw, answer, rowLimit, stored);
      return QueryResult(rows, |rows|, |rows| < lastTotal);
    }
  }

  method ChooseByType<K>(q: Query, typeOf: K -> string, items: seq<K>) returns (chosen: seq<K>)
    ensures chosen == OfType(q, typeOf, items)
  {
    chosen := [];
    for i := 0 to |items|
      invariant chosen == OfType(q, typeOf, items[..i])
    {
      assert items[..i + 1][..i] == items[..i];
      if q.All? || (q.WithType? && typeOf(items[i]) == q.t) {
        chosen := chosen + [items[i]];
      }
    }
    assert items[..|items|] == items;
  }

  /** One properties query for all the rows, then each row's map, empty if it has no entry. */
  method FetchRows<K(==,!new)>(items: seq<K>, answer: seq<seq<ItemProperties<K>>>, ghost stored: map<(K, string), Val>)
    returns (rows: seq<Row<K>>)
    requires Answers(Flatten(answer), stored, (set k | k in items))
    ensures rows == RowsOf(items, stored)
  {
    hide Answers, Flatten, Facts, Collected, PropsOf;
    var maps := CollectProperties(answer);
    rows := [];
    for i := 0 to |items|
      invariant rows == RowsOf(items[..i], stored)
    {
      CollectedIsStored(Flatten(answer), stored, (set k | k in items), items[i]);
      rows := rows + [Row(items[i], if items[i] in maps then maps[items[i]] else map[])];
      assert RowsOf(items[..i + 1], stored) == RowsOf(items[..i], stored) + [Row(items[i], PropsOf(stored, items[i]))];
    }
    assert items[..|items|] == items;
  }

  /** All properties first, then the items whose property has the value. */
  method SelectByProperty<K(==,!new)>(items: seq<K>, answer: seq<seq<ItemProperties<K>>>, name: string, value: Val,
                                      ghost typeOf: K -> string, ghost stored: map<(K, string), Val>)
    returns (selected: seq<Row<K>>)
    requires Answers(Flatten(answer), stored, (set k | k in items))
    ensures selected == Naive(WithPropertyEqual(name, value), typeOf, items, stored)
  {
    hide Answers, Flatten, Facts, Collected, PropsOf;
    var maps := CollectProperties(answer);
    selected := [];
    for i := 0 to |items|
      invariant selected == Naive(WithPropertyEqual(name, value), typeOf, items[..i], stored)
    {
      CollectedIsStored(Flatten(answer), stored, (set k | k in items), items[i]);
      assert items[..i + 1][..i] == items[..i];
      var props := if items[i] in maps then maps[items[i]] else map[];
      if SameValue(ValueOrNull(props, name), value) {
        selected := selected + [Row(items[i], props)];
      }
    }
    assert items[..|items|] == items;
  }

  lemma {:induction false} NaiveOfType<K(!new)>(q: Query, typeOf: K -> string, items: seq<K>,
                                                stored: map<(K, string), Val>)
    requires !q.WithPropertyEqual?
    ensures Naive(q, typeOf, items, stored) == RowsOf(OfType(q, typeOf, items), stored)
  {
    hide PropsOf;
    if items != [] {
      var n := |items| - 1;
      NaiveOfType(q, typeOf, items[..n], stored);
      var before := OfType(q, typeOf, items[..n]);
      assert RowsOf(before + [items[n]], stored) == RowsOf(before, stored) + [Row(items[n], PropsOf(stored, items[n]))];
    }
  }

  method FlattenBatches<T>(batches: seq<seq<T>>) returns (flat: seq<T>)
    ensures flat == Flatten(batches)
  {
    flat := [];
    for i := 0 to |batches|
      invariant flat == Flatten(batches[..i])
    {
      assert batches[..i + 1][..i] == batches[..i];
      flat := flat + batches[i];
    }
    assert batches[..|batches|] == batches;
  }

  /** Which items the naive answer has. */
  lemma {:induction false} NaiveHas<K(!new)>(q: Query, typeOf: K -> string, items: seq<K>,
                                             stored: map<(K, string), Val>, row: Row<K>)
    ensures row in Naive(q, typeOf, items, stored)
       <==> row.item in items && row.props == PropsOf(stored, row.item) && Selects(q, typeOf, row.item, row.props)
  {
    hide PropsOf, Selects;
    if items != [] {
      var n := |items| - 1;
      NaiveHas(q, typeOf, items[..n], stored, row);
      assert forall k :: k in items <==> k in items[..n] || k == items[n];
    }
  }

  /** The naive answer keeps the order of the items, and repetitions. */
  lemma {:induction false} NaiveConcat<K(!new)>(q: Query, typeOf: K -> string, a: seq<K>, b: seq<K>,
                                                stored: map<(K, string), Val>)
    ensures Naive(q, typeOf, a + b, stored) == Naive(q, typeOf, a, stored) + Naive(q, typeOf, b, stored)
    decreases |b|
  {
    hide PropsOf, Selects;
    if b == [] {
      assert a + b == a;
    } else {
      var n := |b| - 1;
      assert (a + b)[..|a + b| - 1] == a + b[..n];
      NaiveConcat(q, typeOf, a, b[..n], stored);
      var last := if Selects(q, typeOf, b[n], PropsOf(stored, b[n])) then [Row(b[n], PropsOf(stored, b[n]))] else [];
      Associate(Naive(q, typeOf, a, stored), Naive(q, typeOf, b[..n], stored), last);
    }
  }

  /** The all verb returns every item, the by-type verb those of the type, with their properties. */
  lemma {:induction false} TypeVerbs<K(!new)>(t: string, typeOf: K -> string, items: seq<K>,
                                              stored: map<(K, string), Val>, row: Row<K>)
    ensures row in Naive(All, typeOf, items, stored)
       <==> row.item in items && row.props == PropsOf(stored, row.item)
    ensures row in Naive(WithType(t), typeOf, items, stored)
       <==> row.item in items && typeOf(row.item) == t && row.props == PropsOf(stored, row.item)
  {
    NaiveHas(All, typeOf, items, stored, row);
    NaiveHas(WithType(t), typeOf, items, stored, row);
  }

  /** Values are equal if they are the same, or one is a boolean and the other 1 or 0 accordingly. */
  lemma EqualValues(a: Val, b: Val)
    ensures SameValue(a, b) == SameValue(b, a)
    ensures a.Bool? == b.Bool? ==> (SameValue(a, b) <==> a == b)
    ensures a.Bool? && !b.Bool? ==> (SameValue(a, b) <==> b == Num(if a.b then 1.0 else 0.0))
  {
  }

  /** The by-property verb selects the items that have the property with an equal value, except
      that asking for null also selects those that lack it. */
  lemma {:induction false} PropertyVerb<K(!new)>(name: string, value: Val, typeOf: K -> string, item: K,
                                                 stored: map<(K, string), Val>)
    ensures Selects(WithPropertyEqual(name, value), typeOf, item, PropsOf(stored, item))
       <==> if (item, name) in stored then SameValue(stored[(item, name)], value) else value == Null
  {
  }

  /** A query for null returns an item that has no property at all. */
  lemma NullFindsMissing(typeOf: Usr -> string)
    ensures
      var f := SymbolUsr("c:@F@f#");
      Naive(WithPropertyEqual("default_value", Null), typeOf, [f], map[]) == [Row(f, map[])]
  {
    var f := SymbolUsr("c:@F@f#");
    var stored: map<(Usr, string), Val> := map[];
    var q := WithPropertyEqual("default_value", Null);
    assert PropsOf(stored, f) == map[];
    assert [f][..0] == [] && Naive(q, typeOf, [], stored) == [];
    assert Naive(q, typeOf, [f], stored) == [] + [Row(f, map[])];
  }
}
