/** The budgeted walkers over a cursor tree: the JSON walker builds a nested tree, the graph
    walker flat node and edge lists. Both charge the same node and byte budget. */
module AstWalker {
  import opened Basics

  /** Line numbers of an extent's two ends, where known. */
  datatype Extent = Extent(start: Option<nat>, end: Option<nat>)

  /** `scalars` stands for the serialised spelling, type, USR and storage class. */
  datatype Cursor = Cursor(kind: string, scalars: string, extent: Option<Extent>, children: seq<Cursor>)

  datatype Range = Range(start: Option<int>, end: Option<int>)

  datatype Node = Node(id: nat, kind: string, scalars: string, startLine: nat, endLine: nat)

  /** A node of the JSON output; `cut` is its own depth-truncation mark. */
  datatype Json = Json(node: Node, cut: bool, children: seq<Json>)

  datatype EdgeType = ChildEdge | TypeRefEdge | CallEdge

  datatype Edge = Edge(source: nat, target: nat, edgeType: EdgeType)

  datatype Reason = MaxNodes | MaxBytes

  function LineOr0(line: Option<nat>): nat {
    if line.Some? then line.value else 0
  }

  function ToNode(c: Cursor, id: nat): Node {
    match c.extent
    case None => Node(id, c.kind, c.scalars, 0, 0)
    case Some(ext) => Node(id, c.kind, c.scalars, LineOr0(ext.start), LineOr0(ext.end))
  }

  /** A node repeats its cursor's scalars and the lines of its extent, where they are known. */
  lemma ToNodeIs(c: Cursor, id: nat, first: nat, last: nat)
    ensures ToNode(c, id).id == id && ToNode(c, id).kind == c.kind && ToNode(c, id).scalars == c.scalars
    ensures c.extent == Some(Extent(Some(first), Some(last))) ==>
      ToNode(c, id).startLine == first && ToNode(c, id).endLine == last
    ensures c.extent == Some(Extent(Some(first), None)) ==>
      ToNode(c, id).startLine == first && ToNode(c, id).endLine == 0
    ensures c.extent == None ==> ToNode(c, id).startLine == ToNode(c, id).endLine == 0
  {
  }

  predicate Overlaps(c: Cursor, range: Range) {
    || (range.start.None? && range.end.None?)
    || c.extent.None?
    || (var lo := if range.start.Some? then range.start.value else 0;
        var hi := if range.end.Some? then range.end.value else 0x8000_0000;
        LineOr0(c.extent.value.start) <= hi && LineOr0(c.extent.value.end) >= lo)
  }

  /** A line a range asks for. */
  predicate InRange(line: nat, range: Range) {
    (range.start.Some? ==> range.start.value <= line) && (range.end.Some? ==> line <= range.end.value)
  }

  /** The lines a cursor occupies; line numbers fit 32 bits. */
  predicate HasLines(c: Cursor, first: nat, last: nat) {
    c.extent == Some(Extent(Some(first), Some(last))) && first <= last <= 0x8000_0000
  }

  predicate InOrder(range: Range) {
    range.start.Some? && range.end.Some? ==> range.start.value <= range.end.value
  }

  /** Some line of the cursor is in the range. */
  ghost predicate InSight(c: Cursor, range: Range) {
    exists line: nat, first: nat, last: nat ::
      InRange(line, range) && HasLines(c, first, last) && first <= line <= last
  }

  /** A cursor is kept exactly if one of its lines is in the range. */
  lemma {:induction false} OverlapsIsInSight(c: Cursor, first: nat, last: nat, range: Range)
    requires HasLines(c, first, last) && InOrder(range)
    ensures Overlaps(c, range) <==> InSight(c, range)
    ensures Overlaps(c, range) <==> exists line: nat :: InRange(line, range) && first <= line <= last
  {
    if Overlaps(c, range) {
      var line := if range.start.Some? && first < range.start.value then range.start.value else first;
      assert InRange(line, range) && HasLines(c, first, last) && first <= line <= last;
    }
  }

  /** Without bounds, or without an extent, a cursor is kept; an unknown line counts as line 0. */
  lemma OverlapsOtherwise(c: Cursor, range: Range)
    ensures range == Range(None, None) || c.extent == None ==> Overlaps(c, range)
    ensures c.extent.Some? ==>
      var Extent(start, end) := c.extent.value;
      var known := Extent(Some(if start == None then 0 else start.value), Some(if end == None then 0 else end.value));
      Overlaps(c, range) == Overlaps(c.(extent := Some(known)), range)
  {
  }

  const TYPE_REF_KINDS := {"TYPE_REF", "TEMPLATE_REF", "NAMESPACE_REF", "OVERLOADED_DECL_REF"}
  const CALL_KINDS := {"CALL_EXPR", "CXX_METHOD"}

  function EdgeTypeOf(kind: string): (t: EdgeType)
    ensures kind == "TYPE_REF" || kind == "TEMPLATE_REF" ==> t == TypeRefEdge
    ensures kind == "NAMESPACE_REF" || kind == "OVERLOADED_DECL_REF" ==> t == TypeRefEdge
    ensures t == CallEdge <==> kind == "CALL_EXPR" || kind == "CXX_METHOD"
  {
    if kind in TYPE_REF_KINDS then TypeRefEdge else if kind in CALL_KINDS then CallEdge else ChildEdge
  }

  // ------------------------------------------------------------------
  // The budget
  // ------------------------------------------------------------------

  datatype Meter = Meter(maxNodes: int, maxBytes: int, nodes: nat, bytes: nat, truncated: bool, reason: Option<Reason>)
  {
    predicate Exhausted() { truncated && nodes > 0 }

    predicate Valid() { truncated ==> nodes > 0 }

    function Charged(cost: nat): Meter {
      if truncated then
        this
      else
        var next := this.(nodes := nodes + 1, bytes := bytes + cost);
        if next.nodes >= maxNodes then
          next.(truncated := true, reason := Some(MaxNodes))
        else if next.bytes >= maxBytes then
          next.(truncated := true, reason := Some(MaxBytes))
        else
          next
    }
  }

  class Budget {
    const maxNodes: int
    const maxBytes: int
    var nodesEmitted: nat
    var bytesEstimate: nat
    var truncated: bool
    var reason: Option<Reason>

    constructor (maxNodes: int, maxBytes: int)
      ensures Reading() == Fresh(maxNodes, maxBytes)
    {
      this.maxNodes, this.maxBytes := maxNodes, maxBytes;
      nodesEmitted, bytesEstimate, truncated, reason := 0, 0, false, None;
    }

    function Reading(): Meter
      reads this
    {
      Meter(maxNodes, maxBytes, nodesEmitted, bytesEstimate, truncated, reason)
    }

    method Charge(cost: nat) returns (charged: bool)
      modifies this
      ensures charged == !old(truncated)
      ensures Reading() == old(Reading()).Charged(cost)
    {
      if truncated {
        return false;
      }
      nodesEmitted := nodesEmitted + 1;
      bytesEstimate := bytesEstimate + cost;
      if nodesEmitted >= maxNodes {
        truncated, reason := true, Some(MaxNodes);
        return true;
      }
      if bytesEstimate >= maxBytes {
        truncated, reason := true, Some(MaxBytes);
        return true;
      }
      return true;
    }
  }

  /** The one-element list both walkers count node ids in. */
  class Counter {
    var count: nat

    constructor ()
      ensures count == 0
    {
      count := 0;
    }
  }

  function Fresh(maxNodes: int, maxBytes: int): Meter {
    Meter(maxNodes, maxBytes, 0, 0, false, None)
  }

  /** How many of a list of costs a budget admits: it stops once it is exhausted. */
  function Admitted(m: Meter, costs: seq<nat>): (k: nat)
    ensures k <= |costs|
    decreases |costs|
  {
    if costs == [] || m.Exhausted() then 0 else 1 + Admitted(m.Charged(costs[0]), costs[1..])
  }

  function Spent(m: Meter, costs: seq<nat>): Meter
    decreases |costs|
  {
    if costs == [] || m.Exhausted() then m else Spent(m.Charged(costs[0]), costs[1..])
  }

  lemma {:induction false} SpentConcat(m: Meter, a: seq<nat>, b: seq<nat>)
    requires m.Valid()
    ensures Spent(m, a).Valid()
    ensures Spent(m, a + b) == Spent(Spent(m, a), b)
    ensures Admitted(m, a + b) == Admitted(m, a) + Admitted(Spent(m, a), b)
    ensures Admitted(m, a) < |a| ==> Spent(m, a).Exhausted()
    decreases |a|
  {
    if a == [] {
      assert a + b == b;
    } else if !m.Exhausted() {
      assert (a + b)[1..] == a[1..] + b;
      SpentConcat(m.Charged(a[0]), a[1..], b);
    }
  }

  function Sum(costs: seq<nat>): nat {
    if costs == [] then 0 else costs[0] + Sum(costs[1..])
  }

  predicate AtLimit(m: Meter) {
    m.nodes >= m.maxNodes || m.bytes >= m.maxBytes
  }

  /** The budget after the first `j` of `costs`, were it never to stop. */
  function Through(m: Meter, costs: seq<nat>, j: nat): Meter
    requires j <= |costs|
  {
    m.(nodes := m.nodes + j, bytes := m.bytes + Sum(costs[..j]))
  }

  /** The cut-off `k` is the first position at which either limit is reached, or the end. */
  lemma {:induction false} AdmittedIsFirst(m: Meter, costs: seq<nat>)
    requires !m.truncated
    ensures
      var k := Admitted(m, costs);
      && (forall j :: 1 <= j < k ==> !AtLimit(Through(m, costs, j)))
      && (k < |costs| ==> AtLimit(Through(m, costs, k)))
      && (costs != [] ==> k >= 1)
      && Spent(m, costs).nodes == m.nodes + k
      && Spent(m, costs).bytes == m.bytes + Sum(costs[..k])
      && Spent(m, costs).truncated == (k >= 1 && AtLimit(Through(m, costs, k)))
      && (Spent(m, costs).truncated ==>
            Spent(m, costs).reason == Some(if m.nodes + k >= m.maxNodes then MaxNodes else MaxBytes))
    decreases |costs|
  {
    if costs != [] {
      var next := m.Charged(costs[0]);
      var rest := costs[1..];
      forall j | 1 <= j <= |costs| ensures Sum(costs[..j]) == costs[0] + Sum(rest[..j - 1]) {
        assert costs[..j][1..] == rest[..j - 1];
      }
      if !next.truncated {
        AdmittedIsFirst(next, rest);
        forall j | 1 <= j <= |costs| ensures Through(m, costs, j) == Through(next, rest, j - 1) {
        }
        FirstOfRest(m, costs);
      }
    }
  }

  lemma FirstOfRest(m: Meter, costs: seq<nat>)
    requires !m.truncated && costs != [] && !m.Charged(costs[0]).truncated
    ensures !AtLimit(Through(m, costs, 1))
  {
    assert costs[..1][1..] == [];
    assert Sum(costs[..1]) == costs[0] + Sum(costs[..1][1..]);
  }

  // ------------------------------------------------------------------
  // The unbudgeted preorder
  // ------------------------------------------------------------------

  /** One cursor of the preorder: its id, its parent's id, and whether the depth limit cuts its children. */
  datatype Row = Row(id: nat, parent: Option<nat>, cursor: Cursor, cut: bool)

  /** The preorder of the range-pruned tree under `c`, numbered from `id`. With `levels`, only
      that many levels below `c` are kept; a cursor on the last one with children is cut. */
  function Rows(c: Cursor, range: Range, levels: Option<int>, parent: Option<nat>, id: nat): seq<Row>
    decreases c, 1
  {
    if !Overlaps(c, range) then
      []
    else if levels.Some? && levels.value <= 0 then
      [Row(id, parent, c, c.children != [])]
    else
      [Row(id, parent, c, false)] + RowsOf(c.children, range, Below(levels), Some(id), id + 1)
  }

  function RowsOf(cs: seq<Cursor>, range: Range, levels: Option<int>, parent: Option<nat>, id: nat): seq<Row>
    decreases cs, 0
  {
    if cs == [] then
      []
    else
      var first := Rows(cs[0], range, levels, parent, id);
      first + RowsOf(cs[1..], range, levels, parent, id + |first|)
  }

  function Below(levels: Option<int>): Option<int> {
    if levels.None? then None else Some(levels.value - 1)
  }

  /** `size` is the length of a node's serialised scalars. */
  function Costs(rows: seq<Row>, size: Node -> nat): seq<nat> {
    seq<nat>(|rows|, i requires 0 <= i < |rows| => size(ToNode(rows[i].cursor, rows[i].id)))
  }

  lemma CostsConcat(a: seq<Row>, b: seq<Row>, size: Node -> nat)
    ensures Costs(a + b, size) == Costs(a, size) + Costs(b, size)
  {
  }

  /** The part of `rows` a budget lets through. */
  function Emitted(m: Meter, rows: seq<Row>, size: Node -> nat): seq<Row> {
    rows[..Count(m, rows, size)]
  }

  function Count(m: Meter, rows: seq<Row>, size: Node -> nat): nat {
    Admitted(m, Costs(rows, size))
  }

  function After(m: Meter, rows: seq<Row>, size: Node -> nat): Meter {
    Spent(m, Costs(rows, size))
  }

  lemma {:induction false} EmittedConcat(m: Meter, a: seq<Row>, b: seq<Row>, size: Node -> nat)
    requires m.Valid()
    ensures After(m, a, size).Valid()
    ensures After(m, a + b, size) == After(After(m, a, size), b, size)
    ensures Emitted(m, a + b, size) == Emitted(m, a, size) + Emitted(After(m, a, size), b, size)
    ensures Count(m, a + b, size) == Count(m, a, size) + Count(After(m, a, size), b, size)
    ensures Output(m, a + b, size) == Output(m, a, size) + Output(After(m, a, size), b, size)
    ensures Count(m, a, size) == |a| || After(m, a, size).Exhausted()
  {
    CostsConcat(a, b, size);
    SpentConcat(m, Costs(a, size), Costs(b, size));
    ViewConcat(Emitted(m, a, size), Emitted(After(m, a, size), b, size));
  }

  /** An exhausted budget admits nothing. */
  lemma {:induction false} ExhaustedEmitsNothing(m: Meter, rows: seq<Row>, size: Node -> nat)
    requires m.Exhausted()
    ensures Emitted(m, rows, size) == [] && Output(m, rows, size) == []
    ensures Count(m, rows, size) == 0 && After(m, rows, size) == m
  {
  }

  lemma {:induction false} EmittedFirst(m: Meter, row: Row, rest: seq<Row>, size: Node -> nat)
    requires m.Valid() && !m.Exhausted()
    ensures
      var next := m.Charged(size(ToNode(row.cursor, row.id)));
      && next.Valid()
      && Output(m, [row] + rest, size)
         == [Visit(ToNode(row.cursor, row.id), row.parent, row.cut)] + Output(next, rest, size)
      && Count(m, [row] + rest, size) == 1 + Count(next, rest, size)
      && After(m, [row] + rest, size) == After(next, rest, size)
  {
    var next := m.Charged(size(ToNode(row.cursor, row.id)));
    var costs := Costs([row] + rest, size);
    assert costs[1..] == Costs(rest, size);
    assert Emitted(m, [row] + rest, size) == [row] + Emitted(next, rest, size);
    ViewConcat([row], Emitted(next, rest, size));
  }

  /** A node that was reported, its parent's id, and its depth-truncation mark. */
  datatype Visit = Visit(node: Node, parent: Option<nat>, cut: bool)

  // ------------------------------------------------------------------
  // The JSON walker
  // ------------------------------------------------------------------

  /** A JSON tree read back as visits, in preorder. */
  function Flatten(json: Json, parent: Option<nat>): seq<Visit>
    decreases json, 1
  {
    [Visit(json.node, parent, json.cut)] + FlattenAll(json.children, Some(json.node.id))
  }

  function FlattenAll(jsons: seq<Json>, parent: Option<nat>): seq<Visit>
    decreases jsons, 0
  {
    if jsons == [] then [] else Flatten(jsons[0], parent) + FlattenAll(jsons[1..], parent)
  }

  function View(rows: seq<Row>): seq<Visit> {
    seq(|rows|, i requires 0 <= i < |rows| => Visit(ToNode(rows[i].cursor, rows[i].id), rows[i].parent, rows[i].cut))
  }

  function FlattenOption(json: Option<Json>, parent: Option<nat>): seq<Visit> {
    if json.None? then [] else Flatten(json.value, parent)
  }

  lemma {:induction false} FlattenAppend(jsons: seq<Json>, json: Json, parent: Option<nat>)
    ensures FlattenAll(jsons + [json], parent) == FlattenAll(jsons, parent) + Flatten(json, parent)
    decreases |jsons|
  {
    if jsons == [] {
      assert jsons + [json] == [json];
    } else {
      assert (jsons + [json])[1..] == jsons[1..] + [json];
      FlattenAppend(jsons[1..], json, parent);
      Associate(Flatten(jsons[0], parent), FlattenAll(jsons[1..], parent), Flatten(json, parent));
    }
  }

  /** What a walker under budget `m` reports of `rows`. */
  function Output(m: Meter, rows: seq<Row>, size: Node -> nat): seq<Visit> {
    View(Emitted(m, rows, size))
  }

  lemma ViewConcat(a: seq<Row>, b: seq<Row>)
    ensures View(a + b) == View(a) + View(b)
  {
  }

  /** The step of both walkers' loops over children: the budget for the rows still to come. */
  lemma {:induction false} NextChild(m: Meter, cs: seq<Cursor>, range: Range, levels: Option<int>, parent: Option<nat>,
                                     id: nat, size: Node -> nat)
    requires m.Valid() && cs != []
    ensures
      var rows := RowsOf(cs, range, levels, parent, id);
      var first := Rows(cs[0], range, levels, parent, id);
      var now := After(m, first, size);
      var rest := RowsOf(cs[1..], range, levels, parent, id + Count(m, first, size));
      && now.Valid()
      && Emitted(m, rows, size) == Emitted(m, first, size) + Emitted(now, rest, size)
      && Output(m, rows, size) == Output(m, first, size) + Output(now, rest, size)
      && Count(m, rows, size) == Count(m, first, size) + Count(now, rest, size)
      && After(m, rows, size) == After(now, rest, size)
  {
    hide Rows, RowsOf, Emitted, Output, Count, After;
    var first := Rows(cs[0], range, levels, parent, id);
    var now := After(m, first, size);
    var rest := RowsOf(cs[1..], range, levels, parent, id + |first|);
    FirstRows(cs, range, levels, parent, id);
    EmittedConcat(m, first, rest, size);
    if now.Exhausted() {
      ExhaustedEmitsNothing(now, rest, size);
      ExhaustedEmitsNothing(now, RowsOf(cs[1..], range, levels, parent, id + Count(m, first, size)), size);
    }
  }

  lemma FirstRows(cs: seq<Cursor>, range: Range, levels: Option<int>, parent: Option<nat>, id: nat)
    requires cs != []
    ensures
      var first := Rows(cs[0], range, levels, parent, id);
      RowsOf(cs, range, levels, parent, id) == first + RowsOf(cs[1..], range, levels, parent, id + |first|)
  {
  }

  method WalkJson(c: Cursor, depth: int, maxDepth: int, range: Range, budget: Budget, counter: Counter,
                  size: Node -> nat, ghost parent: Option<nat>) returns (result: Option<Json>)
    requires budget.Reading().Valid()
    modifies budget, counter
    ensures
      var m, rows := old(budget.Reading()), Rows(c, range, Some(maxDepth - depth), parent, old(counter.count) + 1);
      && FlattenOption(result, parent) == Output(m, rows, size)
      && budget.Reading() == After(m, rows, size)
      && counter.count == old(counter.count) + Count(m, rows, size)
    ensures budget.Reading().Valid()
    decreases c, 1
  {
    hide Output, After, Count, Flatten, FlattenAll, RowsOf;
    ghost var m := budget.Reading();
    if budget.truncated && budget.nodesEmitted > 0 {
      ExhaustedEmitsNothing(m, Rows(c, range, Some(maxDepth - depth), parent, counter.count + 1), size);
      return None;
    }
    if !Overlaps(c, range) {
      NothingEmitted(m, size);
      return None;
    }
    counter.count := counter.count + 1;
    var id := counter.count;
    var node := ToNode(c, id);
    var charged := budget.Charge(size(node));
    if !charged {
      return None;
    }
    ghost var next := budget.Reading();
    if depth >= maxDepth {
      NothingFlat(Some(id));
      NothingEmitted(next, size);
      assert [Row(id, parent, c, c.children != [])] + [] == [Row(id, parent, c, c.children != [])];
      JsonNode(m, c, id, parent, c.children != [], [], [], size);
      return Some(Json(node, c.children != [], []));
    }
    var children := WalkJsonChildren(c.children, depth + 1, maxDepth, range, budget, counter, size, id);
    ghost var below := RowsOf(c.children, range, Some(maxDepth - depth - 1), Some(id), id + 1);
    JsonNode(m, c, id, parent, false, below, children, size);
    return Some(Json(node, false, children));
  }

  lemma NothingEmitted(m: Meter, size: Node -> nat)
    ensures Output(m, [], size) == [] && After(m, [], size) == m && Count(m, [], size) == 0
  {
  }

  /** A node over the output of its children. */
  lemma {:induction false} JsonNode(m: Meter, c: Cursor, id: nat, parent: Option<nat>, cut: bool, rows: seq<Row>,
                                    children: seq<Json>, size: Node -> nat)
    requires m.Valid() && !m.Exhausted()
    requires FlattenAll(children, Some(id)) == Output(m.Charged(size(ToNode(c, id))), rows, size)
    ensures
      var next := m.Charged(size(ToNode(c, id)));
      var all := [Row(id, parent, c, cut)] + rows;
      && Flatten(Json(ToNode(c, id), cut, children), parent) == Output(m, all, size)
      && After(m, all, size) == After(next, rows, size)
      && Count(m, all, size) == 1 + Count(next, rows, size)
  {
    hide Output, Count, After;
    EmittedFirst(m, Row(id, parent, c, cut), rows, size);
  }

  /** The loop over a node's children. */
  method WalkJsonChildren(cs: seq<Cursor>, depth: int, maxDepth: int, range: Range, budget: Budget, counter: Counter,
                          size: Node -> nat, ghost parent: nat) returns (children: seq<Json>)
    requires budget.Reading().Valid()
    modifies budget, counter
    ensures
      var m := old(budget.Reading());
      var rows := RowsOf(cs, range, Some(maxDepth - depth), Some(parent), old(counter.count) + 1);
      && FlattenAll(children, Some(parent)) == Output(m, rows, size)
      && budget.Reading() == After(m, rows, size)
      && counter.count == old(counter.count) + Count(m, rows, size)
    ensures budget.Reading().Valid()
    decreases cs, 0
  {
    hide Output, After, Count, FlattenAll, Rows, RowsOf;
    ghost var m, id, levels := budget.Reading(), counter.count, Some(maxDepth - depth);
    ghost var rows := RowsOf(cs, range, levels, Some(parent), id + 1);
    children := [];
    var i := 0;
    ghost var rest := rows;
    assert cs[0..] == cs && FlattenAll([], Some(parent)) == [] by { NothingFlat(Some(parent)); }
    while i < |cs|
      invariant 0 <= i <= |cs|
      invariant budget.Reading().Valid()
      invariant rest == RowsOf(cs[i..], range, levels, Some(parent), counter.count + 1)
      invariant FlattenAll(children, Some(parent)) + Output(budget.Reading(), rest, size) == Output(m, rows, size)
      invariant After(budget.Reading(), rest, size) == After(m, rows, size)
      invariant counter.count + Count(budget.Reading(), rest, size) == id + Count(m, rows, size)
    {
      ghost var now := budget.Reading();
      if budget.truncated && budget.nodesEmitted > 0 {
        ExhaustedEmitsNothing(now, rest, size);
        assert FlattenAll(children, Some(parent)) + [] == FlattenAll(children, Some(parent));
        break;
      }
      NextChild(now, cs[i..], range, levels, Some(parent), counter.count + 1, size);
      var child := WalkJson(cs[i], depth, maxDepth, range, budget, counter, size, Some(parent));
      ghost var before := FlattenAll(children, Some(parent));
      if child.Some? {
        FlattenAppend(children, child.value, Some(parent));
        children := children + [child.value];
      }
      assert FlattenAll(children, Some(parent)) == before + FlattenOption(child, Some(parent));
      i := i + 1;
      rest := RowsOf(cs[i..], range, levels, Some(parent), counter.count + 1);
      Associate(before, FlattenOption(child, Some(parent)), Output(budget.Reading(), rest, size));
    }
    if i == |cs| {
      assert cs[i..] == [];
      NoRowsLeft(budget.Reading(), range, levels, Some(parent), counter.count + 1, size);
    }
  }

  lemma NothingFlat(parent: Option<nat>)
    ensures FlattenAll([], parent) == []
  {
  }

  lemma NoRowsLeft(m: Meter, range: Range, levels: Option<int>, parent: Option<nat>, id: nat, size: Node -> nat)
    ensures
      var rows := RowsOf([], range, levels, parent, id);
      Output(m, rows, size) == [] && After(m, rows, size) == m && Count(m, rows, size) == 0
  {
  }

  /** What both results say besides the nodes; nothing ever estimates the omitted ones. */
  datatype Summary = Summary(
    truncated: bool,
    reason: Option<Reason>,
    nodesEmitted: nat,
    nodesOmittedEstimate: Option<nat>,
    parseErrors: seq<string>)

  datatype JsonResult = JsonResult(root: Option<Json>, summary: Summary)

  method JsonAst(root: Cursor, diagnostics: seq<string>, maxDepth: int, range: Range, maxNodes: int, maxBytes: int,
                 size: Node -> nat) returns (result: JsonResult)
    ensures
      var m, rows := Fresh(maxNodes, maxBytes), Rows(root, range, Some(maxDepth), None, 1);
      var end := After(m, rows, size);
      && FlattenOption(result.root, None) == Output(m, rows, size)
      && result.summary == Summary(end.truncated, end.reason, end.nodes, None, diagnostics)
  {
    var budget := new Budget(maxNodes, maxBytes);
    var counter := new Counter();
    var json := WalkJson(root, 0, maxDepth, range, budget, counter, size, None);
    return JsonResult(json, Summary(budget.truncated, budget.reason, budget.nodesEmitted, None, diagnostics));
  }

  // ------------------------------------------------------------------
  // The graph walker
  // ------------------------------------------------------------------

  /** The flat lists the graph walker appends to. */
  datatype Graph = Graph(nodes: seq<Node>, edges: seq<Edge>)
  {
    function Plus(other: Graph): Graph {
      Graph(nodes + other.nodes, edges + other.edges)
    }
  }

  class GraphLists {
    var nodes: seq<Node>
    var edges: seq<Edge>

    constructor ()
      ensures Contents() == Graph([], [])
    {
      nodes, edges := [], [];
    }

    function Contents(): Graph
      reads this
    {
      Graph(nodes, edges)
    }
  }

  /** The edge to a node, if it has a parent. */
  function EdgesTo(parent: Option<nat>, id: nat, kind: string): seq<Edge> {
    if parent.None? then [] else [Edge(parent.value, id, EdgeTypeOf(kind))]
  }

  /** The graph a list of visits describes: their nodes, and an edge from each one's parent. */
  function GraphOf(visits: seq<Visit>): Graph {
    if visits == [] then
      Graph([], [])
    else
      var node, parent := visits[0].node, visits[0].parent;
      Graph([node], EdgesTo(parent, node.id, node.kind)).Plus(GraphOf(visits[1..]))
  }

  lemma {:induction false} GraphOfConcat(a: seq<Visit>, b: seq<Visit>)
    ensures GraphOf(a + b) == GraphOf(a).Plus(GraphOf(b))
    decreases |a|
  {
    hide Graph.Plus;
    if a == [] {
      assert a + b == b;
      PlusNothing(GraphOf(b));
    } else {
      assert (a + b)[1..] == a[1..] + b;
      GraphOfConcat(a[1..], b);
      var node, parent := a[0].node, a[0].parent;
      PlusAssociates(Graph([node], EdgesTo(parent, node.id, node.kind)), GraphOf(a[1..]), GraphOf(b));
    }
  }

  lemma PlusAssociates(a: Graph, b: Graph, c: Graph)
    ensures a.Plus(b).Plus(c) == a.Plus(b.Plus(c))
  {
  }

  method WalkGraph(c: Cursor, parent: Option<nat>, range: Range, budget: Budget, counter: Counter, lists: GraphLists,
                   size: Node -> nat) returns (nodeId: Option<nat>)
    requires budget.Reading().Valid()
    modifies budget, counter, lists
    ensures
      var m, rows := old(budget.Reading()), Rows(c, range, None, parent, old(counter.count) + 1);
      && lists.Contents() == old(lists.Contents()).Plus(GraphOf(Output(m, rows, size)))
      && budget.Reading() == After(m, rows, size)
      && counter.count == old(counter.count) + Count(m, rows, size)
      && nodeId == (if Count(m, rows, size) == 0 then None else Some(old(counter.count) + 1))
    ensures budget.Reading().Valid()
    decreases c, 1
  {
    hide Output, After, Count, GraphOf, RowsOf;
    ghost var m, before := budget.Reading(), lists.Contents();
    ghost var rows := Rows(c, range, None, parent, counter.count + 1);
    if budget.truncated && budget.nodesEmitted > 0 {
      ExhaustedEmitsNothing(m, rows, size);
      NoGraph();
      return None;
    }
    if !Overlaps(c, range) {
      NothingEmitted(m, size);
      NoGraph();
      return None;
    }
    counter.count := counter.count + 1;
    var id := counter.count;
    var node := ToNode(c, id);
    var charged := budget.Charge(size(node));
    if !charged {
      return None;
    }
    ghost var next := budget.Reading();
    lists.nodes := lists.nodes + [node];
    if parent.Some? {
      lists.edges := lists.edges + [Edge(parent.value, id, EdgeTypeOf(c.kind))];
    }
    ghost var below := RowsOf(c.children, range, None, Some(id), id + 1);
    GraphNode(m, c, id, parent, before, below, size);
    nodeId := Some(id);
    if budget.truncated && budget.nodesEmitted > 0 {
      ExhaustedEmitsNothing(next, below, size);
      NoGraph();
      return;
    }
    WalkGraphChildren(c.children, range, budget, counter, lists, size, id);
  }

  lemma NoGraph()
    ensures GraphOf([]) == Graph([], [])
  {
  }

  /** A node's own contribution, then its children's. */
  lemma {:induction false} GraphNode(m: Meter, c: Cursor, id: nat, parent: Option<nat>, before: Graph, rows: seq<Row>,
                                     size: Node -> nat)
    requires m.Valid() && !m.Exhausted()
    ensures
      var node := ToNode(c, id);
      var next := m.Charged(size(node));
      var all := [Row(id, parent, c, false)] + rows;
      var edges := EdgesTo(parent, id, c.kind);
      && before.Plus(GraphOf(Output(m, all, size)))
         == Graph(before.nodes + [node], before.edges + edges).Plus(GraphOf(Output(next, rows, size)))
      && After(m, all, size) == After(next, rows, size)
      && Count(m, all, size) == 1 + Count(next, rows, size)
  {
    hide Output, Count, After, GraphOf;
    var visit := Visit(ToNode(c, id), parent, false);
    var rest := Output(m.Charged(size(ToNode(c, id))), rows, size);
    EmittedFirst(m, Row(id, parent, c, false), rows, size);
    GraphOfConcat([visit], rest);
    GraphOfOne(visit);
    PlusAssociates(before, GraphOf([visit]), GraphOf(rest));
  }

  lemma GraphOfOne(visit: Visit)
    ensures GraphOf([visit]) == Graph([visit.node], EdgesTo(visit.parent, visit.node.id, visit.node.kind))
  {
    assert [visit][1..] == [];
  }

  /** The loop over a node's children. */
  method WalkGraphChildren(cs: seq<Cursor>, range: Range, budget: Budget, counter: Counter, lists: GraphLists,
                           size: Node -> nat, parent: nat)
    requires budget.Reading().Valid()
    modifies budget, counter, lists
    ensures
      var m, rows := old(budget.Reading()), RowsOf(cs, range, None, Some(parent), old(counter.count) + 1);
      && lists.Contents() == old(lists.Contents()).Plus(GraphOf(Output(m, rows, size)))
      && budget.Reading() == After(m, rows, size)
      && counter.count == old(counter.count) + Count(m, rows, size)
    ensures budget.Reading().Valid()
    decreases cs, 0
  {
    hide Output, After, Count, GraphOf, Rows, RowsOf, Graph.Plus;
    ghost var m, id, before := budget.Reading(), counter.count, lists.Contents();
    ghost var rows := RowsOf(cs, range, None, Some(parent), id + 1);
    ghost var rest := rows;
    var i := 0;
    assert cs[0..] == cs;
    while i < |cs|
      invariant 0 <= i <= |cs|
      invariant budget.Reading().Valid()
      invariant rest == RowsOf(cs[i..], range, None, Some(parent), counter.count + 1)
      invariant lists.Contents().Plus(GraphOf(Output(budget.Reading(), rest, size)))
             == before.Plus(GraphOf(Output(m, rows, size)))
      invariant After(budget.Reading(), rest, size) == After(m, rows, size)
      invariant counter.count + Count(budget.Reading(), rest, size) == id + Count(m, rows, size)
    {
      ghost var now, sofar := budget.Reading(), lists.Contents();
      if budget.truncated && budget.nodesEmitted > 0 {
        ExhaustedEmitsNothing(now, rest, size);
        NoGraph();
        PlusNothing(lists.Contents());
        break;
      }
      NextChild(now, cs[i..], range, None, Some(parent), counter.count + 1, size);
      ghost var first := Rows(cs[i], range, None, Some(parent), counter.count + 1);
      var _ := WalkGraph(cs[i], Some(parent), range, budget, counter, lists, size);
      i := i + 1;
      rest := RowsOf(cs[i..], range, None, Some(parent), counter.count + 1);
      GraphOfConcat(Output(now, first, size), Output(budget.Reading(), rest, size));
      PlusAssociates(sofar, GraphOf(Output(now, first, size)), GraphOf(Output(budget.Reading(), rest, size)));
    }
    if i == |cs| {
      assert cs[i..] == [];
      NoRowsLeft(budget.Reading(), range, None, Some(parent), counter.count + 1, size);
      NoGraph();
      PlusNothing(lists.Contents());
    }
  }

  lemma PlusNothing(g: Graph)
    ensures g.Plus(Graph([], [])) == g
    ensures Graph([], []).Plus(g) == g
  {
  }

  datatype GraphResult = GraphResult(graph: Graph, summary: Summary)

  method GraphAst(root: Cursor, diagnostics: seq<string>, range: Range, maxNodes: int, maxBytes: int,
                  size: Node -> nat) returns (result: GraphResult)
    ensures
      var m, rows := Fresh(maxNodes, maxBytes), Rows(root, range, None, None, 1);
      var end := After(m, rows, size);
      && result.graph == GraphOf(Output(m, rows, size))
      && result.summary == Summary(end.truncated, end.reason, end.nodes, None, diagnostics)
  {
    hide Output, After, Count, GraphOf, Rows;
    var budget := new Budget(maxNodes, maxBytes);
    var counter := new Counter();
    var lists := new GraphLists();
    var _ := WalkGraph(root, None, range, budget, counter, lists, size);
    PlusNothing(GraphOf(Output(Fresh(maxNodes, maxBytes), Rows(root, range, None, None, 1), size)));
    var summary := Summary(budget.truncated, budget.reason, budget.nodesEmitted, None, diagnostics);
    return GraphResult(lists.Contents(), summary);
  }

  // ------------------------------------------------------------------
  // What the walkers promise
  // ------------------------------------------------------------------

  /** A walker reports the first `k` rows of the preorder and nothing else, where `k` is the first
      position at which the node count or the byte total reaches its limit; without truncation
      that is all of them, and truncation means that some limit was reached. */
  lemma {:induction false} BudgetedPrefix(rows: seq<Row>, maxNodes: int, maxBytes: int, size: Node -> nat)
    ensures
      var m := Fresh(maxNodes, maxBytes);
      var k, end, bytes := Count(m, rows, size), After(m, rows, size), Costs(rows, size);
      && k <= |rows| && (rows != [] ==> k >= 1)
      && Output(m, rows, size) == View(rows)[..k]
      && end.nodes == k && end.bytes == Sum(bytes[..k])
      && (forall j :: 1 <= j < k ==> WithinLimits(bytes, j, maxNodes, maxBytes))
      && end.truncated == (k >= 1 && (k >= maxNodes || Sum(bytes[..k]) >= maxBytes))
      && (!end.truncated ==> k == |rows|)
      && (end.truncated ==> end.reason == Some(if k >= maxNodes then MaxNodes else MaxBytes))
  {
    var m := Fresh(maxNodes, maxBytes);
    var bytes := Costs(rows, size);
    AdmittedIsFirst(m, bytes);
    var k := Count(m, rows, size);
    forall j | 1 <= j < k ensures WithinLimits(bytes, j, maxNodes, maxBytes) {
      assert !AtLimit(Through(m, bytes, j));
    }
  }

  /** The first `j` costs reach neither limit. */
  predicate WithinLimits(bytes: seq<nat>, j: nat, maxNodes: int, maxBytes: int) {
    j <= |bytes| && j < maxNodes && Sum(bytes[..j]) < maxBytes
  }

  /** Rows are numbered in order, and each one's parent is an earlier row. */
  predicate Numbered(rows: seq<Row>, parent: Option<nat>, id: nat) {
    forall i :: 0 <= i < |rows| ==>
      && rows[i].id == id + i
      && (rows[i].parent == parent || (rows[i].parent.Some? && id <= rows[i].parent.value < id + i))
  }

  lemma {:induction false} RowsAreNumbered(c: Cursor, range: Range, levels: Option<int>, parent: Option<nat>, id: nat)
    ensures
      var rows := Rows(c, range, levels, parent, id);
      && Numbered(rows, parent, id)
      && (rows != [] ==> rows[0].parent == parent)
      && (forall i :: 1 <= i < |rows| ==> rows[i].parent.Some? && id <= rows[i].parent.value < id + i)
    decreases c, 1
  {
    if Overlaps(c, range) && !(levels.Some? && levels.value <= 0) {
      RowsOfAreNumbered(c.children, range, Below(levels), Some(id), id + 1);
    }
  }

  lemma {:induction false} RowsOfAreNumbered(cs: seq<Cursor>, range: Range, levels: Option<int>, parent: Option<nat>,
                                             id: nat)
    ensures Numbered(RowsOf(cs, range, levels, parent, id), parent, id)
    decreases cs, 0
  {
    if cs != [] {
      var first := Rows(cs[0], range, levels, parent, id);
      RowsAreNumbered(cs[0], range, levels, parent, id);
      RowsOfAreNumbered(cs[1..], range, levels, parent, id + |first|);
    }
  }

  /** The cursors of the rows under the row with some id, in order. */
  function Kids(rows: seq<Row>, id: nat): seq<Cursor> {
    if rows == [] then [] else (if rows[0].parent == Some(id) then [rows[0].cursor] else []) + Kids(rows[1..], id)
  }

  function Overlapping(cs: seq<Cursor>, range: Range): seq<Cursor> {
    if cs == [] then [] else (if Overlaps(cs[0], range) then [cs[0]] else []) + Overlapping(cs[1..], range)
  }

  lemma {:induction false} KidsConcat(a: seq<Row>, b: seq<Row>, id: nat)
    ensures Kids(a + b, id) == Kids(a, id) + Kids(b, id)
  {
    if a == [] {
      assert a + b == b;
    } else {
      assert (a + b)[1..] == a[1..] + b;
      KidsConcat(a[1..], b, id);
      Associate(if a[0].parent == Some(id) then [a[0].cursor] else [], Kids(a[1..], id), Kids(b, id));
    }
  }

  /** Every row, numbered from `id`, has below it the overlapping children of its cursor; `outer`
      has those given; no other id has any. */
  ghost predicate Complete(rows: seq<Row>, range: Range, id: nat, outer: Option<nat>, outerKids: seq<Cursor>) {
    && (forall i :: 0 <= i < |rows| ==> Kids(rows, id + i) == Overlapping(rows[i].cursor.children, range))
    && (forall k: nat :: (k < id || id + |rows| <= k) ==> Kids(rows, k) == if outer == Some(k) then outerKids else [])
  }

  lemma {:induction false} RowsComplete(c: Cursor, range: Range, parent: Option<nat>, id: nat)
    requires parent.Some? ==> parent.value < id
    ensures Complete(Rows(c, range, None, parent, id), range, id, parent, Overlapping([c], range))
    decreases c, 1
  {
    hide Complete, RowsOf, Overlapping;
    OverlappingOne(c, range);
    if Overlaps(c, range) {
      RowsOfComplete(c.children, range, id, id + 1);
      CompleteCons(Row(id, parent, c, false), RowsOf(c.children, range, None, Some(id), id + 1), range);
    } else {
      NothingComplete(range, id, parent);
    }
  }

  lemma OverlappingOne(c: Cursor, range: Range)
    ensures Overlapping([c], range) == if Overlaps(c, range) then [c] else []
    ensures Overlapping([], range) == []
  {
  }

  lemma NothingComplete(range: Range, id: nat, outer: Option<nat>)
    ensures Complete([], range, id, outer, [])
  {
  }

  lemma {:induction false} RowsOfComplete(cs: seq<Cursor>, range: Range, parent: nat, id: nat)
    requires parent < id
    ensures Complete(RowsOf(cs, range, None, Some(parent), id), range, id, Some(parent), Overlapping(cs, range))
    decreases cs, 0
  {
    hide Complete, Rows;
    if cs == [] {
      NothingComplete(range, id, Some(parent));
    } else {
      var first := Rows(cs[0], range, None, Some(parent), id);
      var rest := RowsOf(cs[1..], range, None, Some(parent), id + |first|);
      RowsComplete(cs[0], range, Some(parent), id);
      RowsOfComplete(cs[1..], range, parent, id + |first|);
      OverlappingOne(cs[0], range);
      CompleteConcat(first, rest, range, id, parent, Overlapping([cs[0]], range), Overlapping(cs[1..], range));
    }
  }

  lemma {:induction false} CompleteCons(row: Row, rest: seq<Row>, range: Range)
    requires row.parent.Some? ==> row.parent.value < row.id
    requires Complete(rest, range, row.id + 1, Some(row.id), Overlapping(row.cursor.children, range))
    ensures Complete([row] + rest, range, row.id, row.parent, [row.cursor])
  {
    hide Overlapping;
    var all := [row] + rest;
    forall k: nat ensures Kids(all, k) == (if row.parent == Some(k) then [row.cursor] else []) + Kids(rest, k) {
      assert all[1..] == rest;
    }
    forall i | 0 <= i < |all| ensures Kids(all, row.id + i) == Overlapping(all[i].cursor.children, range) {
      if i > 0 {
        assert Kids(rest, row.id + 1 + (i - 1)) == Overlapping(rest[i - 1].cursor.children, range);
      }
    }
  }

  lemma {:induction false} CompleteConcat(a: seq<Row>, b: seq<Row>, range: Range, id: nat, outer: nat,
                                          aKids: seq<Cursor>, bKids: seq<Cursor>)
    requires outer < id
    requires Complete(a, range, id, Some(outer), aKids) && Complete(b, range, id + |a|, Some(outer), bKids)
    ensures Complete(a + b, range, id, Some(outer), aKids + bKids)
  {
    hide Kids, Overlapping;
    forall k: nat ensures Kids(a + b, k) == Kids(a, k) + Kids(b, k) {
      KidsConcat(a, b, k);
    }
    forall i | 0 <= i < |a + b|
      ensures Kids(a + b, id + i) == Overlapping((a + b)[i].cursor.children, range)
    {
      if i < |a| {
        assert Kids(b, id + i) == [];
      } else {
        assert Kids(a, id + i) == [];
        assert Kids(b, id + |a| + (i - |a|)) == Overlapping(b[i - |a|].cursor.children, range);
      }
    }
  }

  /** The unlimited preorder holds the whole range-pruned tree: it starts with the root, and below
      each of its cursors are, in order, that cursor's children that overlap the range. Of cursors
      that occupy lines, those are the ones with a line in the range. */
  lemma {:induction false} PrunedTree(root: Cursor, range: Range)
    ensures
      var rows := Rows(root, range, None, None, 1);
      && (rows == [] <==> !Overlaps(root, range))
      && (rows != [] ==> rows[0].cursor == root)
      && (forall i :: 0 <= i < |rows| ==> Kids(rows, 1 + i) == Overlapping(rows[i].cursor.children, range))
      && (forall i, child :: 0 <= i < |rows| && child in rows[i].cursor.children && OccupiesLines(child) ==>
            InOrder(range) ==> (child in Kids(rows, 1 + i) <==> InSight(child, range)))
      && (OccupiesLines(root) && InOrder(range) ==> (rows != [] <==> InSight(root, range)))
  {
    hide InSight, Overlaps, Kids;
    var rows := Rows(root, range, None, None, 1);
    RowsComplete(root, range, None, 1);
    forall c | OccupiesLines(c) && InOrder(range) ensures Overlaps(c, range) <==> InSight(c, range) {
      var first: nat, last: nat :| HasLines(c, first, last);
      OverlapsIsInSight(c, first, last, range);
    }
    forall i | 0 <= i < |rows|
      ensures forall child :: child in Kids(rows, 1 + i) <==> child in rows[i].cursor.children && Overlaps(child, range)
    {
      OverlappingHas(rows[i].cursor.children, range);
    }
  }

  ghost predicate OccupiesLines(c: Cursor) {
    exists first: nat, last: nat :: HasLines(c, first, last)
  }

  lemma {:induction false} OverlappingHas(cs: seq<Cursor>, range: Range)
    ensures forall c :: c in Overlapping(cs, range) <==> c in cs && Overlaps(c, range)
  {
    if cs != [] {
      OverlappingHas(cs[1..], range);
      assert cs == [cs[0]] + cs[1..];
    }
  }

  // ------------------------------------------------------------------
  // The depth limit
  // ------------------------------------------------------------------

  /** How far row `i` is below the rows with the outer parent, which are at depth `base`. */
  function Depth(rows: seq<Row>, parent: Option<nat>, id: nat, base: nat, i: nat): (d: nat)
    requires Numbered(rows, parent, id) && i < |rows|
    ensures base <= d
    decreases i
  {
    if rows[i].parent == parent then base else 1 + Depth(rows, parent, id, base, rows[i].parent.value - id)
  }

  /** The cursors of rows with their depths; in preorder these make up the tree, whatever the ids. */
  function Outline(rows: seq<Row>, parent: Option<nat>, id: nat, base: nat): seq<(Cursor, nat)>
    requires Numbered(rows, parent, id)
  {
    seq(|rows|, i requires 0 <= i < |rows| => (rows[i].cursor, Depth(rows, parent, id, base, i)))
  }

  /** The part of an outline down to some depth. */
  function UpTo(outline: seq<(Cursor, nat)>, depth: nat): seq<(Cursor, nat)> {
    if outline == [] then [] else (if outline[0].1 <= depth then [outline[0]] else []) + UpTo(outline[1..], depth)
  }

  lemma {:induction false} UpToConcat(a: seq<(Cursor, nat)>, b: seq<(Cursor, nat)>, depth: nat)
    ensures UpTo(a + b, depth) == UpTo(a, depth) + UpTo(b, depth)
  {
    if a == [] {
      assert a + b == b;
    } else {
      assert (a + b)[1..] == a[1..] + b;
      UpToConcat(a[1..], b, depth);
      Associate(if a[0].1 <= depth then [a[0]] else [], UpTo(a[1..], depth), UpTo(b, depth));
    }
  }

  lemma {:induction false} NothingUpTo(outline: seq<(Cursor, nat)>, depth: nat)
    requires forall i :: 0 <= i < |outline| ==> depth < outline[i].1
    ensures UpTo(outline, depth) == []
  {
    if outline != [] {
      NothingUpTo(outline[1..], depth);
    }
  }

  lemma {:induction false} DepthBelow(row: Row, rest: seq<Row>, parent: Option<nat>, base: nat, i: nat)
    requires Numbered(rest, Some(row.id), row.id + 1) && row.parent == parent && i < |rest|
    requires parent.Some? ==> parent.value < row.id
    ensures Numbered([row] + rest, parent, row.id)
    ensures Depth([row] + rest, parent, row.id, base, i + 1) == Depth(rest, Some(row.id), row.id + 1, base + 1, i)
    decreases i
  {
    var all := [row] + rest;
    NumberedCons(row, rest, parent);
    assert all[i + 1] == rest[i];
    if rest[i].parent != Some(row.id) {
      DepthBelow(row, rest, parent, base, rest[i].parent.value - (row.id + 1));
    }
  }

  lemma NumberedCons(row: Row, rest: seq<Row>, parent: Option<nat>)
    requires Numbered(rest, Some(row.id), row.id + 1) && row.parent == parent
    ensures Numbered([row] + rest, parent, row.id)
  {
  }

  lemma NumberedConcat(a: seq<Row>, b: seq<Row>, parent: Option<nat>, id: nat)
    requires Numbered(a, parent, id) && Numbered(b, parent, id + |a|)
    ensures Numbered(a + b, parent, id)
  {
  }

  lemma {:induction false} OutlineCons(row: Row, rest: seq<Row>, parent: Option<nat>, base: nat)
    requires Numbered(rest, Some(row.id), row.id + 1) && row.parent == parent
    requires parent.Some? ==> parent.value < row.id
    ensures Numbered([row] + rest, parent, row.id)
    ensures Outline([row] + rest, parent, row.id, base)
         == [(row.cursor, base)] + Outline(rest, Some(row.id), row.id + 1, base + 1)
  {
    NumberedCons(row, rest, parent);
    var all := [row] + rest;
    forall i | 1 <= i < |all|
      ensures Depth(all, parent, row.id, base, i) == Depth(rest, Some(row.id), row.id + 1, base + 1, i - 1)
    {
      DepthBelow(row, rest, parent, base, i - 1);
    }
  }

  lemma {:induction false} DepthInFirst(a: seq<Row>, b: seq<Row>, parent: Option<nat>, id: nat, base: nat, i: nat)
    requires Numbered(a, parent, id) && Numbered(b, parent, id + |a|) && i < |a|
    ensures Numbered(a + b, parent, id)
    ensures Depth(a + b, parent, id, base, i) == Depth(a, parent, id, base, i)
    decreases i
  {
    NumberedConcat(a, b, parent, id);
    assert (a + b)[i] == a[i];
    if a[i].parent != parent {
      DepthInFirst(a, b, parent, id, base, a[i].parent.value - id);
    }
  }

  lemma {:induction false} DepthInSecond(a: seq<Row>, b: seq<Row>, parent: Option<nat>, id: nat, base: nat, i: nat)
    requires Numbered(a, parent, id) && Numbered(b, parent, id + |a|) && i < |b|
    ensures Numbered(a + b, parent, id)
    ensures Depth(a + b, parent, id, base, |a| + i) == Depth(b, parent, id + |a|, base, i)
    decreases i
  {
    NumberedConcat(a, b, parent, id);
    assert (a + b)[|a| + i] == b[i];
    if b[i].parent != parent {
      DepthInSecond(a, b, parent, id, base, b[i].parent.value - (id + |a|));
    }
  }

  lemma {:induction false} OutlineConcat(a: seq<Row>, b: seq<Row>, parent: Option<nat>, id: nat, base: nat)
    requires Numbered(a, parent, id) && Numbered(b, parent, id + |a|)
    ensures Numbered(a + b, parent, id)
    ensures Outline(a + b, parent, id, base) == Outline(a, parent, id, base) + Outline(b, parent, id + |a|, base)
  {
    NumberedConcat(a, b, parent, id);
    forall i | 0 <= i < |a| ensures Depth(a + b, parent, id, base, i) == Depth(a, parent, id, base, i) {
      DepthInFirst(a, b, parent, id, base, i);
    }
    forall i | |a| <= i < |a + b|
      ensures Depth(a + b, parent, id, base, i) == Depth(b, parent, id + |a|, base, i - |a|)
    {
      DepthInSecond(a, b, parent, id, base, i - |a|);
    }
  }

  /** Rows are cut exactly at the last level, over a cursor that has children. */
  ghost predicate CutAt(rows: seq<Row>, parent: Option<nat>, id: nat, base: nat, depth: nat)
    requires Numbered(rows, parent, id)
  {
    forall i :: 0 <= i < |rows| ==>
      (rows[i].cut <==> Depth(rows, parent, id, base, i) == depth && rows[i].cursor.children != [])
  }

  lemma {:induction false} CutCons(row: Row, rest: seq<Row>, parent: Option<nat>, base: nat, depth: nat)
    requires Numbered(rest, Some(row.id), row.id + 1) && row.parent == parent && !row.cut && base < depth
    requires parent.Some? ==> parent.value < row.id
    requires CutAt(rest, Some(row.id), row.id + 1, base + 1, depth)
    ensures Numbered([row] + rest, parent, row.id)
    ensures CutAt([row] + rest, parent, row.id, base, depth)
  {
    var all := [row] + rest;
    NumberedCons(row, rest, parent);
    forall i | 0 <= i < |all|
      ensures all[i].cut <==> Depth(all, parent, row.id, base, i) == depth && all[i].cursor.children != []
    {
      if i > 0 {
        DepthBelow(row, rest, parent, base, i - 1);
      }
    }
  }

  lemma {:induction false} CutConcat(a: seq<Row>, b: seq<Row>, parent: Option<nat>, id: nat, base: nat, depth: nat)
    requires Numbered(a, parent, id) && Numbered(b, parent, id + |a|)
    requires CutAt(a, parent, id, base, depth) && CutAt(b, parent, id + |a|, base, depth)
    ensures Numbered(a + b, parent, id)
    ensures CutAt(a + b, parent, id, base, depth)
  {
    var all := a + b;
    NumberedConcat(a, b, parent, id);
    forall i | 0 <= i < |all|
      ensures all[i].cut <==> Depth(all, parent, id, base, i) == depth && all[i].cursor.children != []
    {
      if i < |a| {
        DepthInFirst(a, b, parent, id, base, i);
      } else {
        DepthInSecond(a, b, parent, id, base, i - |a|);
      }
    }
  }

  /** With `levels` more levels below depth `base`; the unlimited rows may be numbered otherwise. */
  lemma {:induction false} RowsDownTo(c: Cursor, range: Range, levels: nat, parent: Option<nat>, id: nat,
                                      parent': Option<nat>, id': nat, base: nat)
    requires (parent.Some? ==> parent.value < id) && (parent'.Some? ==> parent'.value < id')
    ensures
      var rows, full := Rows(c, range, Some(levels), parent, id), Rows(c, range, None, parent', id');
      && Numbered(rows, parent, id) && Numbered(full, parent', id')
      && Outline(rows, parent, id, base) == UpTo(Outline(full, parent', id', base), base + levels)
      && CutAt(rows, parent, id, base, base + levels)
    decreases c, 1
  {
    hide Outline, UpTo, CutAt, RowsOf, Numbered;
    if Overlaps(c, range) {
      var below := RowsOf(c.children, range, None, Some(id'), id' + 1);
      RowsOfAreNumbered(c.children, range, None, Some(id'), id' + 1);
      OutlineCons(Row(id', parent', c, false), below, parent', base);
      var deeper := Outline(below, Some(id'), id' + 1, base + 1);
      UpToFirst(c, base, deeper, base + levels);
      if levels == 0 {
        DeeperIsDeeper(below, Some(id'), id' + 1, base + 1);
        NothingUpTo(deeper, base);
        SingleRow(Row(id, parent, c, c.children != []), base);
      } else {
        var rest := RowsOf(c.children, range, Some(levels - 1), Some(id), id + 1);
        RowsOfDownTo(c.children, range, levels - 1, id, id + 1, id', id' + 1, base + 1);
        OutlineCons(Row(id, parent, c, false), rest, parent, base);
        CutCons(Row(id, parent, c, false), rest, parent, base, base + levels);
      }
    } else {
      NoOutline(parent, id, base, base + levels);
      NoOutline(parent', id', base, base + levels);
    }
  }

  lemma UpToFirst(c: Cursor, base: nat, deeper: seq<(Cursor, nat)>, depth: nat)
    requires base <= depth
    ensures UpTo([(c, base)] + deeper, depth) == [(c, base)] + UpTo(deeper, depth)
  {
    assert ([(c, base)] + deeper)[1..] == deeper;
  }

  lemma DeeperIsDeeper(rows: seq<Row>, parent: Option<nat>, id: nat, base: nat)
    requires Numbered(rows, parent, id)
    ensures
      var outline := Outline(rows, parent, id, base);
      forall i :: 0 <= i < |outline| ==> base <= outline[i].1
  {
  }

  lemma SingleRow(row: Row, base: nat)
    ensures Numbered([row], row.parent, row.id)
    ensures Outline([row], row.parent, row.id, base) == [(row.cursor, base)]
    ensures row.cut == (row.cursor.children != []) ==> CutAt([row], row.parent, row.id, base, base)
  {
  }

  lemma NoOutline(parent: Option<nat>, id: nat, base: nat, depth: nat)
    ensures Numbered([], parent, id)
    ensures Outline([], parent, id, base) == [] && UpTo([], depth) == []
    ensures CutAt([], parent, id, base, depth)
  {
  }

  lemma {:induction false} RowsOfDownTo(cs: seq<Cursor>, range: Range, levels: nat, parent: nat, id: nat,
                                        parent': nat, id': nat, base: nat)
    requires parent < id && parent' < id'
    ensures
      var rows := RowsOf(cs, range, Some(levels), Some(parent), id);
      var full := RowsOf(cs, range, None, Some(parent'), id');
      && Numbered(rows, Some(parent), id) && Numbered(full, Some(parent'), id')
      && Outline(rows, Some(parent), id, base) == UpTo(Outline(full, Some(parent'), id', base), base + levels)
      && CutAt(rows, Some(parent), id, base, base + levels)
    decreases cs, 0
  {
    hide Outline, UpTo, CutAt, Rows, Numbered;
    if cs == [] {
      NoOutline(Some(parent), id, base, base + levels);
      NoOutline(Some(parent'), id', base, base + levels);
    } else {
      var first := Rows(cs[0], range, Some(levels), Some(parent), id);
      var first' := Rows(cs[0], range, None, Some(parent'), id');
      var rest := RowsOf(cs[1..], range, Some(levels), Some(parent), id + |first|);
      var rest' := RowsOf(cs[1..], range, None, Some(parent'), id' + |first'|);
      RowsDownTo(cs[0], range, levels, Some(parent), id, Some(parent'), id', base);
      RowsOfDownTo(cs[1..], range, levels, parent, id + |first|, parent', id' + |first'|, base);
      OutlineConcat(first, rest, Some(parent), id, base);
      OutlineConcat(first', rest', Some(parent'), id', base);
      UpToConcat(Outline(first', Some(parent'), id', base), Outline(rest', Some(parent'), id' + |first'|, base),
                 base + levels);
      CutConcat(first, rest, Some(parent), id, base, base + levels);
    }
  }

  /** The preorder with a depth limit is the unlimited one down to that depth, renumbered; a row is
      marked cut exactly if it is at that depth and its cursor has children. A negative limit is 0. */
  lemma {:induction false} DepthLimit(root: Cursor, range: Range, maxDepth: int)
    ensures
      var depth := if maxDepth < 0 then 0 else maxDepth;
      var rows, full := Rows(root, range, Some(maxDepth), None, 1), Rows(root, range, None, None, 1);
      && Numbered(rows, None, 1) && Numbered(full, None, 1)
      && Outline(rows, None, 1, 0) == UpTo(Outline(full, None, 1, 0), depth)
      && CutAt(rows, None, 1, 0, depth)
  {
    hide Outline, UpTo, CutAt, RowsOf;
    RowsDownTo(root, range, if maxDepth < 0 then 0 else maxDepth, None, 1, None, 1, 0);
  }

  function Height(c: Cursor): nat
    decreases c, 1
  {
    if c.children == [] then 0 else 1 + MaxHeight(c.children)
  }

  function MaxHeight(cs: seq<Cursor>): nat
    decreases cs, 0
  {
    if cs == [] then
      0
    else
      var first, rest := Height(cs[0]), MaxHeight(cs[1..]);
      if first < rest then rest else first
  }

  /** A depth limit no smaller than the tree's height cuts nothing. */
  lemma {:induction false} DeepEnough(c: Cursor, range: Range, levels: int, parent: Option<nat>, id: nat)
    requires Height(c) <= levels
    ensures Rows(c, range, Some(levels), parent, id) == Rows(c, range, None, parent, id)
    decreases c, 1
  {
    if levels > 0 {
      DeepEnoughFor(c.children, range, levels - 1, Some(id), id + 1);
    }
  }

  lemma {:induction false} DeepEnoughFor(cs: seq<Cursor>, range: Range, levels: int, parent: Option<nat>, id: nat)
    requires cs == [] || MaxHeight(cs) <= levels
    ensures RowsOf(cs, range, Some(levels), parent, id) == RowsOf(cs, range, None, parent, id)
    decreases cs, 0
  {
    if cs != [] {
      DeepEnough(cs[0], range, levels, parent, id);
      DeepEnoughFor(cs[1..], range, levels, parent, id + |Rows(cs[0], range, None, parent, id)|);
    }
  }

  /** With a deep enough limit the JSON tree, flattened, is the graph: same nodes, and its
      parent/child pairs are the edges. */
  lemma {:induction false} WalkersAgree(root: Cursor, maxDepth: int, range: Range, maxNodes: int, maxBytes: int,
                                        size: Node -> nat, json: Option<Json>, graph: Graph)
    requires Height(root) <= maxDepth
    requires FlattenOption(json, None)
          == Output(Fresh(maxNodes, maxBytes), Rows(root, range, Some(maxDepth), None, 1), size)
    requires graph == GraphOf(Output(Fresh(maxNodes, maxBytes), Rows(root, range, None, None, 1), size))
    ensures graph == GraphOf(FlattenOption(json, None))
    ensures |graph.nodes| == |FlattenOption(json, None)|
    ensures forall i :: 0 <= i < |graph.nodes| ==> graph.nodes[i] == FlattenOption(json, None)[i].node
  {
    DeepEnough(root, range, maxDepth, None, 1);
    NodesOfGraph(FlattenOption(json, None));
  }

  lemma {:induction false} NodesOfGraph(visits: seq<Visit>)
    ensures |GraphOf(visits).nodes| == |visits|
    ensures forall i :: 0 <= i < |visits| ==> GraphOf(visits).nodes[i] == visits[i].node
  {
    if visits != [] {
      NodesOfGraph(visits[1..]);
    }
  }

  /** The graph is a tree rooted at node 1: ids are 1, 2, ..., every node but the first has exactly
      one edge into it, in order, from a node with a smaller id. */
  ghost predicate IsTree(g: Graph) {
    && (forall i :: 0 <= i < |g.nodes| ==> g.nodes[i].id == i + 1)
    && (g.nodes == [] ==> g.edges == [])
    && (g.nodes != [] ==> |g.edges| == |g.nodes| - 1)
    && (forall i :: 0 <= i < |g.edges| ==>
          && g.edges[i].target == i + 2
          && 1 <= g.edges[i].source < g.edges[i].target
          && g.edges[i].edgeType == EdgeTypeOf(g.nodes[i + 1].kind))
  }

  lemma {:induction false} GraphIsTree(root: Cursor, range: Range, m: Meter, size: Node -> nat)
    ensures IsTree(GraphOf(Output(m, Rows(root, range, None, None, 1), size)))
  {
    hide Rows, Output, GraphOf, IsTree;
    RowsAreNumbered(root, range, None, None, 1);
    OutputIsNumbered(m, Rows(root, range, None, None, 1), size);
    VisitsFormTree(Output(m, Rows(root, range, None, None, 1), size));
  }

  /** Visits of nodes 1, 2, ..., each but the first with an earlier parent. */
  ghost predicate NumberedVisits(visits: seq<Visit>) {
    && (forall i :: 0 <= i < |visits| ==> visits[i].node.id == i + 1)
    && (visits != [] ==> visits[0].parent == None)
    && (forall i :: 1 <= i < |visits| ==> visits[i].parent.Some? && 1 <= visits[i].parent.value <= i)
  }

  lemma OutputIsNumbered(m: Meter, rows: seq<Row>, size: Node -> nat)
    requires Numbered(rows, None, 1) && (rows != [] ==> rows[0].parent == None)
    requires forall i :: 1 <= i < |rows| ==> rows[i].parent.Some?
    ensures NumberedVisits(Output(m, rows, size))
  {
  }

  lemma {:induction false} VisitsFormTree(visits: seq<Visit>)
    requires NumberedVisits(visits)
    ensures IsTree(GraphOf(visits))
  {
    hide GraphOf;
    NodesOfGraph(visits);
    if visits == [] {
      NoGraph();
    } else {
      EdgesOfRoot(visits);
      EdgesBelow(visits[1..]);
    }
  }

  lemma EdgesOfRoot(visits: seq<Visit>)
    requires visits != [] && visits[0].parent == None
    ensures GraphOf(visits).edges == GraphOf(visits[1..]).edges
  {
  }

  lemma {:induction false} EdgesBelow(visits: seq<Visit>)
    requires forall i :: 0 <= i < |visits| ==> visits[i].parent.Some?
    ensures |GraphOf(visits).edges| == |visits|
    ensures forall i :: 0 <= i < |visits| ==>
      var v := visits[i];
      GraphOf(visits).edges[i] == Edge(v.parent.value, v.node.id, EdgeTypeOf(v.node.kind))
  {
    if visits != [] {
      EdgesBelow(visits[1..]);
    }
  }
}
