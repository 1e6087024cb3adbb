/** A graph store with insert-if-absent records and overwritten properties. A vertex keeps its
    first label; an edge is dropped when an endpoint is missing; a property is set only on what
    is stored. */
module GraphStore {
  import opened Basics
  import opened GraphRecords

  datatype Graph = Graph(
    vertices: map<Usr, Label>,
    edges: set<EdgeKey>,
    vprops: map<(Usr, string), Val>,
    eprops: map<(EdgeKey, string), Val>)

  const EMPTY := Graph(map[], {}, map[], map[])

  datatype Write = Vertex(node: NodeRecord) | Edge(edge: EdgeRecord)

  function Get<K, V>(m: map<K, V>, k: K): Option<V> {
    if k in m then Some(m[k]) else None
  }

  predicate HasEndpoints(g: Graph, k: EdgeKey) {
    k.source in g.vertices && k.target in g.vertices
  }

  /** A node's properties as written: its own, and its USR. */
  function Written(n: NodeRecord): Props {
    n.props["usr" := UsrText(n.usr)]
  }

  /** Properties keyed by what they belong to as well. */
  function Keyed<A(==)>(a: A, props: Props): map<(A, string), Val> {
    map k | k in props :: (a, k) := props[k]
  }

  lemma KeyedOne<A>(a: A, props: Props, k: string, v: Val, m: map<(A, string), Val>)
    ensures m + Keyed(a, props[k := v]) == (m + Keyed(a, props))[(a, k) := v]
  {
  }

  function PutVertex(g: Graph, n: NodeRecord): Graph {
    g.(vertices := if n.usr in g.vertices then g.vertices else g.vertices[n.usr := n.nodeType],
       vprops := g.vprops + Keyed(n.usr, Written(n)))
  }

  predicate Accepts(g: Graph, k: EdgeKey) {
    k in g.edges || HasEndpoints(g, k)
  }

  function PutEdge(g: Graph, e: EdgeRecord): Graph {
    var key := KeyOf(e);
    if Accepts(g, key) then
      g.(edges := g.edges + {key}, eprops := g.eprops + Keyed(key, e.props))
    else
      g
  }

  function Put(g: Graph, w: Write): Graph {
    match w
    case Vertex(n) => PutVertex(g, n)
    case Edge(e) => PutEdge(g, e)
  }

  function Apply(g: Graph, ws: seq<Write>): Graph {
    if ws == [] then g else Put(Apply(g, ws[..|ws| - 1]), ws[|ws| - 1])
  }

  lemma ApplyNothing(g: Graph)
    ensures Apply(g, []) == g
  {
  }

  lemma ApplySnoc(g: Graph, ws: seq<Write>, w: Write)
    ensures Apply(g, ws + [w]) == Put(Apply(g, ws), w)
  {
    assert (ws + [w])[..|ws|] == ws;
  }

  lemma {:induction false} ApplyConcat(g: Graph, a: seq<Write>, b: seq<Write>)
    ensures Apply(g, a + b) == Apply(Apply(g, a), b)
    decreases |b|
  {
    if b == [] {
      assert a + b == a;
    } else {
      var b' := b[..|b| - 1];
      assert (a + b)[..|a + b| - 1] == a + b';
      ApplyConcat(g, a, b');
    }
  }

  function Vertices(nodes: seq<NodeRecord>): seq<Write> {
    seq(|nodes|, i requires 0 <= i < |nodes| => Vertex(nodes[i]))
  }

  function Edges(edges: seq<EdgeRecord>): seq<Write> {
    seq(|edges|, i requires 0 <= i < |edges| => Edge(edges[i]))
  }

  // ------------------------------------------------------------------
  // What a list of writes leaves, independently of how it is applied
  // ------------------------------------------------------------------

  function Added(ws: seq<Write>): set<Usr> {
    set i | 0 <= i < |ws| && ws[i].Vertex? :: ws[i].node.usr
  }

  /** The label in the first write to a vertex. */
  function FirstLabel(ws: seq<Write>, u: Usr): Option<Label> {
    if ws == [] then
      None
    else if ws[0].Vertex? && ws[0].node.usr == u then
      Some(ws[0].node.nodeType)
    else
      FirstLabel(ws[1..], u)
  }

  /** The value of the last write to a vertex property; every write has the vertex's USR as one. */
  function LastVertexProp(ws: seq<Write>, u: Usr, k: string): Option<Val> {
    if ws == [] then
      None
    else
      var w := ws[|ws| - 1];
      if w.Vertex? && w.node.usr == u && k == "usr" then
        Some(UsrText(u))
      else if w.Vertex? && w.node.usr == u && k in w.node.props then
        Some(w.node.props[k])
      else
        LastVertexProp(ws[..|ws| - 1], u, k)
  }

  /** The value of the last write to an edge property. */
  function LastEdgeProp(ws: seq<Write>, e: EdgeKey, k: string): Option<Val> {
    if ws == [] then
      None
    else
      var w := ws[|ws| - 1];
      if w.Edge? && KeyOf(w.edge) == e && k in w.edge.props then
        Some(w.edge.props[k])
      else
        LastEdgeProp(ws[..|ws| - 1], e, k)
  }

  /** One write: what becomes of the vertices and edges. */
  lemma PutOne(g: Graph, w: Write)
    ensures Put(g, w).vertices.Keys == g.vertices.Keys + if w.Vertex? then {w.node.usr} else {}
    ensures forall u :: u in g.vertices ==> Put(g, w).vertices[u] == g.vertices[u]
    ensures forall e :: e in Put(g, w).edges <==> e in g.edges || (w.Edge? && KeyOf(w.edge) == e && HasEndpoints(g, e))
  {
  }

  /** One write: what becomes of a vertex property. */
  lemma PutVertexProp(g: Graph, w: Write, u: Usr, k: string)
    ensures
      var written := w.Vertex? && w.node.usr == u && (k == "usr" || k in w.node.props);
      Get(Put(g, w).vprops, (u, k))
      == if !written then Get(g.vprops, (u, k)) else Some(if k == "usr" then UsrText(u) else w.node.props[k])
  {
  }

  /** One write: what becomes of an edge property. */
  lemma PutEdgeProp(g: Graph, w: Write, e: EdgeKey, k: string)
    ensures
      var written := w.Edge? && KeyOf(w.edge) == e && k in w.edge.props && Accepts(g, e);
      Get(Put(g, w).eprops, (e, k)) == if written then Some(w.edge.props[k]) else Get(g.eprops, (e, k))
  {
  }

  /** Vertices are those added; a stored label never changes. */
  lemma {:induction false} ApplyVertices(g: Graph, ws: seq<Write>)
    ensures Apply(g, ws).vertices.Keys == g.vertices.Keys + Added(ws)
    ensures forall u :: u in g.vertices ==> u in Apply(g, ws).vertices && Apply(g, ws).vertices[u] == g.vertices[u]
  {
    hide Put;
    if ws != [] {
      var n := |ws| - 1;
      ApplyVertices(g, ws[..n]);
      PutOne(Apply(g, ws[..n]), ws[n]);
      AddedSnoc(ws[..n], ws[n]);
      assert ws[..n] + [ws[n]] == ws;
    }
  }

  lemma {:induction false} FirstLabelConcat(a: seq<Write>, b: seq<Write>, u: Usr)
    ensures FirstLabel(a + b, u) == Or(FirstLabel(a, u), FirstLabel(b, u))
    decreases |a|
  {
    if a == [] {
      assert a + b == b;
    } else {
      assert (a + b)[1..] == a[1..] + b;
      FirstLabelConcat(a[1..], b, u);
    }
  }

  /** A vertex has the label it had, else that of the first write to it. */
  lemma {:induction false} ApplyLabels(g: Graph, ws: seq<Write>, u: Usr)
    ensures Get(Apply(g, ws).vertices, u) == Or(Get(g.vertices, u), FirstLabel(ws, u))
    decreases |ws|
  {
    hide Apply, FirstLabel;
    if ws == [] {
      ApplyNothing(g);
      LabelOfOne(g, Vertex(NodeRecord(File, u, map[])), u);
    } else {
      var n := |ws| - 1;
      ApplyLabels(g, ws[..n], u);
      FirstLabelConcat(ws[..n], [ws[n]], u);
      assert ws[..n] + [ws[n]] == ws;
      ApplySnoc(g, ws[..n], ws[n]);
      LabelOfOne(Apply(g, ws[..n]), ws[n], u);
    }
  }

  lemma LabelOfOne(g: Graph, w: Write, u: Usr)
    ensures FirstLabel([], u) == None
    ensures Get(Put(g, w).vertices, u) == Or(Get(g.vertices, u), FirstLabel([w], u))
  {
    assert [w][1..] == [];
  }

  lemma AddedSnoc(ws: seq<Write>, w: Write)
    ensures Added(ws + [w]) == Added(ws) + if w.Vertex? then {w.node.usr} else {}
  {
    var all := ws + [w];
    assert forall i :: 0 <= i < |ws| ==> all[i] == ws[i];
    assert all[|ws|] == w;
    forall u | u in Added(ws) ensures u in Added(all) {
      var i :| 0 <= i < |ws| && ws[i].Vertex? && ws[i].node.usr == u;
      assert all[i].Vertex? && all[i].node.usr == u;
    }
  }

  /** Vertex properties: the last write wins. */
  lemma {:induction false} ApplyVertexProps(g: Graph, ws: seq<Write>, u: Usr, k: string)
    ensures Get(Apply(g, ws).vprops, (u, k)) == Or(LastVertexProp(ws, u, k), Get(g.vprops, (u, k)))
  {
    hide Put;
    if ws != [] {
      ApplyVertexProps(g, ws[..|ws| - 1], u, k);
      PutVertexProp(Apply(g, ws[..|ws| - 1]), ws[|ws| - 1], u, k);
    }
  }

  /** An edge write at position `i` of `ws` that finds both endpoints. */
  predicate Lands(g: Graph, ws: seq<Write>, i: int)
    requires 0 <= i < |ws|
  {
    ws[i].Edge? && HasEndpoints(Apply(g, ws[..i]), KeyOf(ws[i].edge))
  }

  lemma LandsEarlier(g: Graph, ws: seq<Write>, n: nat, i: nat)
    requires i < n <= |ws|
    ensures ws[..n][i] == ws[i] && ws[..n][..i] == ws[..i]
    ensures Lands(g, ws[..n], i) == Lands(g, ws, i)
  {
  }

  ghost predicate LandsSomewhere(g: Graph, ws: seq<Write>, e: EdgeKey) {
    exists i :: 0 <= i < |ws| && Lands(g, ws, i) && KeyOf(ws[i].edge) == e
  }

  lemma {:induction false} LandsSnoc(g: Graph, ws: seq<Write>, e: EdgeKey)
    requires ws != []
    ensures
      var n := |ws| - 1;
      LandsSomewhere(g, ws, e) <==> LandsSomewhere(g, ws[..n], e) || (Lands(g, ws, n) && KeyOf(ws[n].edge) == e)
  {
    hide Apply, HasEndpoints;
    var n := |ws| - 1;
    if LandsSomewhere(g, ws, e) {
      var i :| 0 <= i < |ws| && Lands(g, ws, i) && KeyOf(ws[i].edge) == e;
      if i < n {
        LandsEarlier(g, ws, n, i);
      }
    }
    if LandsSomewhere(g, ws[..n], e) {
      var i :| 0 <= i < n && Lands(g, ws[..n], i) && KeyOf(ws[..n][i].edge) == e;
      LandsEarlier(g, ws, n, i);
    }
  }

  /** Edges are those whose write finds its endpoints at least once. */
  lemma {:induction false} ApplyEdges(g: Graph, ws: seq<Write>, e: EdgeKey)
    ensures e in Apply(g, ws).edges <==> e in g.edges || LandsSomewhere(g, ws, e)
  {
    hide Put, LandsSomewhere;
    if ws == [] {
      assert !LandsSomewhere(g, ws, e) by { LandsNowhere(g, e); }
    } else {
      var n := |ws| - 1;
      ApplyEdges(g, ws[..n], e);
      LandsSnoc(g, ws, e);
      PutOne(Apply(g, ws[..n]), ws[n]);
    }
  }

  lemma LandsNowhere(g: Graph, e: EdgeKey)
    ensures !LandsSomewhere(g, [], e)
  {
  }

  /** Writes never come too early: an edge write that would be accepted after all of them is
      accepted where it stands. */
  ghost predicate Timely(g: Graph, ws: seq<Write>) {
    forall i :: 0 <= i < |ws| && ws[i].Edge? ==>
      var k := KeyOf(ws[i].edge);
      k in g.edges || !HasEndpoints(Apply(g, ws), k) || HasEndpoints(Apply(g, ws[..i]), k)
  }

  /** Properties of a timely written edge: the last write wins if the edge is stored. */
  lemma {:induction false} ApplyEdgeProps(g: Graph, ws: seq<Write>, end: Graph, e: EdgeKey, k: string)
    requires forall i :: 0 <= i < |ws| && ws[i].Edge? && KeyOf(ws[i].edge) == e ==>
      (Accepts(Apply(g, ws[..i]), e) <==> Accepts(end, e))
    ensures Get(Apply(g, ws).eprops, (e, k))
         == Or(if Accepts(end, e) then LastEdgeProp(ws, e, k) else None, Get(g.eprops, (e, k)))
  {
    hide Put, Accepts;
    if ws != [] {
      var n := |ws| - 1;
      var ws' := ws[..n];
      forall i | 0 <= i < n ensures ws'[i] == ws[i] && ws'[..i] == ws[..i] {
      }
      ApplyEdgeProps(g, ws', end, e, k);
      PutEdgeProp(Apply(g, ws'), ws[n], e, k);
    }
  }

  lemma {:induction false} ApplyGrows(g: Graph, ws: seq<Write>)
    ensures g.vertices.Keys <= Apply(g, ws).vertices.Keys
    ensures g.edges <= Apply(g, ws).edges
  {
    if ws != [] {
      ApplyGrows(g, ws[..|ws| - 1]);
    }
  }

  /** In a timely list the edges stored at the end decide which writes were accepted. */
  lemma {:induction false} TimelyAccepts(g: Graph, ws: seq<Write>, i: nat)
    requires Timely(g, ws) && i < |ws| && ws[i].Edge?
    ensures
      var e, end := KeyOf(ws[i].edge), Apply(g, ws);
      && (Accepts(Apply(g, ws[..i]), e) <==> e in end.edges)
      && (Accepts(end, e) <==> e in end.edges)
  {
    var e := KeyOf(ws[i].edge);
    assert ws == ws[..i] + ws[i..];
    ApplyConcat(g, ws[..i], ws[i..]);
    ApplyGrows(g, ws[..i]);
    ApplyGrows(Apply(g, ws[..i]), ws[i..]);
    ApplyEdges(g, ws, e);
    if Accepts(Apply(g, ws), e) && e !in g.edges {
      if e in Apply(g, ws).edges {
        var j :| 0 <= j < |ws| && Lands(g, ws, j) && KeyOf(ws[j].edge) == e;
        LandedEndpoints(g, ws, j);
      }
      assert Lands(g, ws, i);
    }
    if e in Apply(g, ws[..i]).edges && e !in g.edges {
      assert e in Apply(g, ws).edges;
    }
  }

  lemma {:induction false} LandedEndpoints(g: Graph, ws: seq<Write>, j: nat)
    requires j < |ws| && Lands(g, ws, j)
    ensures HasEndpoints(Apply(g, ws), KeyOf(ws[j].edge))
  {
    hide Put, Apply;
    assert ws == ws[..j] + ws[j..];
    ApplyConcat(g, ws[..j], ws[j..]);
    ApplyGrows(Apply(g, ws[..j]), ws[j..]);
  }

  /** The edge properties a timely list leaves. */
  lemma {:induction false} TimelyEdgeProps(g: Graph, ws: seq<Write>, e: EdgeKey, k: string)
    requires Timely(g, ws)
    ensures
      var end := Apply(g, ws);
      Get(end.eprops, (e, k)) == Or(if e in end.edges then LastEdgeProp(ws, e, k) else None, Get(g.eprops, (e, k)))
  {
    var end := Apply(g, ws);
    forall i | 0 <= i < |ws| && ws[i].Edge? && KeyOf(ws[i].edge) == e
      ensures Accepts(Apply(g, ws[..i]), e) <==> Accepts(end, e)
    {
      TimelyAccepts(g, ws, i);
    }
    ApplyEdgeProps(g, ws, end, e, k);
    if exists i :: 0 <= i < |ws| && ws[i].Edge? && KeyOf(ws[i].edge) == e {
      var i :| 0 <= i < |ws| && ws[i].Edge? && KeyOf(ws[i].edge) == e;
      TimelyAccepts(g, ws, i);
    } else {
      NeverWritten(ws, e, k);
    }
  }

  lemma {:induction false} NeverWritten(ws: seq<Write>, e: EdgeKey, k: string)
    requires forall i :: 0 <= i < |ws| ==> !(ws[i].Edge? && KeyOf(ws[i].edge) == e)
    ensures LastEdgeProp(ws, e, k) == None
  {
    if ws != [] {
      NeverWritten(ws[..|ws| - 1], e, k);
    }
  }

  lemma MapsEqual<K, V>(m: map<K, V>, m': map<K, V>)
    requires forall k :: Get(m, k) == Get(m', k)
    ensures m == m'
  {
    forall k ensures (k in m <==> k in m') && (k in m ==> m[k] == m'[k]) {
      assert Get(m, k) == Get(m', k);
    }
  }

  /** When every vertex written is stored, no write changes the set of vertices. */
  lemma {:induction false} SaturatedVertices(g: Graph, ws: seq<Write>)
    requires Added(ws) <= g.vertices.Keys
    ensures Apply(g, ws).vertices == g.vertices
    ensures Timely(g, ws)
  {
    ApplyVertices(g, ws);
    forall i | 0 <= i < |ws| ensures Apply(g, ws[..i]).vertices.Keys == g.vertices.Keys {
      ApplyVertices(g, ws[..i]);
      assert Added(ws[..i]) <= Added(ws) by {
        forall u | u in Added(ws[..i]) ensures u in Added(ws) {
          var j :| 0 <= j < i && ws[..i][j].Vertex? && ws[..i][j].node.usr == u;
          assert ws[j].Vertex? && ws[j].node.usr == u;
        }
      }
    }
  }

  /** Applying a timely list of writes again changes nothing: not the vertices or edges, nor any
      property. */
  lemma {:induction false} ApplyIdempotent(g: Graph, ws: seq<Write>)
    requires Timely(g, ws)
    ensures Apply(Apply(g, ws), ws) == Apply(g, ws)
  {
    var g1 := Apply(g, ws);
    var g2 := Apply(g1, ws);
    ApplyVertices(g, ws);
    SaturatedVertices(g1, ws);
    ApplyGrows(g1, ws);
    forall e ensures e in g2.edges <==> e in g1.edges {
      ApplyEdges(g1, ws, e);
      if e in g2.edges && e !in g1.edges {
        var i :| 0 <= i < |ws| && Lands(g1, ws, i) && KeyOf(ws[i].edge) == e;
        LandedEndpoints(g1, ws, i);
        TimelyAccepts(g, ws, i);
      }
    }
    forall p: (Usr, string) ensures Get(g2.vprops, p) == Get(g1.vprops, p) {
      ApplyVertexProps(g, ws, p.0, p.1);
      ApplyVertexProps(g1, ws, p.0, p.1);
    }
    MapsEqual(g2.vprops, g1.vprops);
    forall p: (EdgeKey, string) ensures Get(g2.eprops, p) == Get(g1.eprops, p) {
      TimelyEdgeProps(g, ws, p.0, p.1);
      TimelyEdgeProps(g1, ws, p.0, p.1);
    }
    MapsEqual(g2.eprops, g1.eprops);
  }

  /** Nodes written again change nothing. */
  lemma {:induction false} RepeatedNodes(g: Graph, nodes: seq<NodeRecord>)
    ensures Apply(Apply(g, Vertices(nodes)), Vertices(nodes)) == Apply(g, Vertices(nodes))
  {
    ApplyIdempotent(g, Vertices(nodes));
  }

  /** Edges written again change nothing, those that were dropped included. */
  lemma {:induction false} RepeatedEdges(g: Graph, edges: seq<EdgeRecord>)
    ensures Apply(Apply(g, Edges(edges)), Edges(edges)) == Apply(g, Edges(edges))
  {
    assert Added(Edges(edges)) == {};
    SaturatedVertices(g, Edges(edges));
    ApplyIdempotent(g, Edges(edges));
  }
}
