/** The IndraDB driver: upserts by check, create, verify, then property writes, over a client any
    of whose calls may raise. */
module IndraDriver {
  import opened Basics
  import opened GraphRecords
  import opened GraphStore

  /** The store behind the client, and which of the coming calls raise (none after the last). */
  class Client {
    var graph: Graph
    var faults: seq<bool>

    constructor (graph: Graph, faults: seq<bool>)
      ensures this.graph == graph && this.faults == faults
    {
      this.graph, this.faults := graph, faults;
    }

    ghost predicate Reliable()
      reads this
    {
      forall i :: 0 <= i < |faults| ==> !faults[i]
    }

    method Call() returns (raises: bool)
      modifies this
      ensures graph == old(graph)
      ensures old(Reliable()) ==> !raises && Reliable()
    {
      raises := faults != [] && faults[0];
      if faults != [] {
        faults := faults[1..];
      }
    }

    /** Whether a vertex is found: the client yields batches, some of them perhaps empty. */
    method GetVertex(u: Usr) returns (r: Result<seq<seq<Usr>>, ()>)
      modifies this
      ensures graph == old(graph)
      ensures old(Reliable()) ==> r.Ok? && Reliable()
      ensures r.Ok? ==> ((exists batch :: batch in r.value && batch != []) <==> u in graph.vertices)
    {
      var raises := Call();
      if raises {
        return Err(());
      }
      var batches := if u in graph.vertices then [[], [u]] else [[]];
      assert u in graph.vertices ==> batches[1] in batches;
      return Ok(batches);
    }

    method GetEdge(e: EdgeKey) returns (r: Result<seq<seq<EdgeKey>>, ()>)
      modifies this
      ensures graph == old(graph)
      ensures old(Reliable()) ==> r.Ok? && Reliable()
      ensures r.Ok? ==> ((exists batch :: batch in r.value && batch != []) <==> e in graph.edges)
    {
      var raises := Call();
      if raises {
        return Err(());
      }
      var batches := if e in graph.edges then [[], [e]] else [[]];
      assert e in graph.edges ==> batches[1] in batches;
      return Ok(batches);
    }

    method CreateVertex(u: Usr, nodeType: Label) returns (raises: bool)
      modifies this
      ensures old(Reliable()) ==> !raises && Reliable()
      ensures
        var g := old(graph);
        graph == if raises || u in g.vertices then g else g.(vertices := g.vertices[u := nodeType])
    {
      raises := Call();
      if !raises && u !in graph.vertices {
        graph := graph.(vertices := graph.vertices[u := nodeType]);
      }
    }

    /** Silently drops an edge with a missing endpoint. */
    method CreateEdge(e: EdgeKey) returns (raises: bool)
      modifies this
      ensures old(Reliable()) ==> !raises && Reliable()
      ensures
        var g := old(graph);
        graph == if raises || !HasEndpoints(g, e) then g else g.(edges := g.edges + {e})
    {
      raises := Call();
      if !raises && HasEndpoints(graph, e) {
        graph := graph.(edges := graph.edges + {e});
      }
    }

    method SetVertexProperty(u: Usr, name: string, value: Val) returns (raises: bool)
      modifies this
      ensures old(Reliable()) ==> !raises && Reliable()
      ensures
        var g := old(graph);
        graph == if raises || u !in g.vertices then g else g.(vprops := g.vprops[(u, name) := value])
    {
      raises := Call();
      if !raises && u in graph.vertices {
        graph := graph.(vprops := graph.vprops[(u, name) := value]);
      }
    }

    /** A query for an edge that is not stored selects nothing. */
    method SetEdgeProperty(e: EdgeKey, name: string, value: Val) returns (raises: bool)
      modifies this
      ensures old(Reliable()) ==> !raises && Reliable()
      ensures
        var g := old(graph);
        graph == if raises || e !in g.edges then g else g.(eprops := g.eprops[(e, name) := value])
    {
      raises := Call();
      if !raises && e in graph.edges {
        graph := graph.(eprops := graph.eprops[(e, name) := value]);
      }
    }
  }

  /** `later` keeps what is stored in `earlier`, and has at most these new vertices and edges. */
  ghost predicate Grows(earlier: Graph, later: Graph, usrs: set<Usr>, keys: set<EdgeKey>) {
    && earlier.vertices.Keys <= later.vertices.Keys <= earlier.vertices.Keys + usrs
    && earlier.edges <= later.edges <= earlier.edges + keys
  }

  function EdgeKeys(edges: seq<EdgeRecord>): set<EdgeKey> {
    set e | e in edges :: KeyOf(e)
  }

  method SetVertexProperties(client: Client, u: Usr, props: Props) returns (raises: bool)
    requires u in client.graph.vertices
    modifies client
    ensures old(client.Reliable()) ==> !raises && client.Reliable()
    ensures client.graph.vertices == old(client.graph.vertices) && client.graph.edges == old(client.graph.edges)
    ensures !raises ==>
      client.graph == old(client.graph).(vprops := old(client.graph.vprops) + Keyed(u, props))
  {
    hide Keyed;
    var left, done: Props := props, map[];
    ghost var g := client.graph;
    assert g.vprops + Keyed(u, done) == g.vprops by { NothingKeyed(u, g.vprops); }
    while left != map[]
      invariant left.Keys !! done.Keys && left + done == props
      invariant client.graph == g.(vprops := g.vprops + Keyed(u, done))
      invariant old(client.Reliable()) ==> client.Reliable()
      decreases left.Keys
    {
      var key :| key in left;
      raises := client.SetVertexProperty(u, key, left[key]);
      if raises {
        return;
      }
      KeyedOne(u, done, key, left[key], g.vprops);
      left, done := left - {key}, done[key := left[key]];
    }
    assert left + done == done;
    return false;
  }

  lemma NothingKeyed<A>(a: A, m: map<(A, string), Val>)
    ensures m + Keyed(a, map[]) == m
  {
  }

  method SetEdgeProperties(client: Client, e: EdgeKey, props: Props) returns (raises: bool)
    modifies client
    ensures old(client.Reliable()) ==> !raises && client.Reliable()
    ensures client.graph.vertices == old(client.graph.vertices) && client.graph.edges == old(client.graph.edges)
    ensures !raises ==>
      var g := old(client.graph);
      client.graph == if e in g.edges then g.(eprops := g.eprops + Keyed(e, props)) else g
  {
    hide Keyed;
    var left, done: Props := props, map[];
    ghost var g := client.graph;
    assert g.eprops + Keyed(e, done) == g.eprops by { NothingKeyed(e, g.eprops); }
    while left != map[]
      invariant left.Keys !! done.Keys && left + done == props
      invariant client.graph == if e in g.edges then g.(eprops := g.eprops + Keyed(e, done)) else g
      invariant old(client.Reliable()) ==> client.Reliable()
      decreases left.Keys
    {
      var key :| key in left;
      raises := client.SetEdgeProperty(e, key, left[key]);
      if raises {
        return;
      }
      KeyedOne(e, done, key, left[key], g.eprops);
      left, done := left - {key}, done[key := left[key]];
    }
    assert left + done == done;
    return false;
  }

  /** One turn of the loop of UpsertNodes; `inserted` is 1 when the vertex was created. */
  method UpsertNode(client: Client, rec: NodeRecord) returns (r: Result<nat, ()>)
    modifies client
    ensures old(client.Reliable()) ==> r.Ok? && client.Reliable()
    ensures Grows(old(client.graph), client.graph, {rec.usr}, {})
    ensures r.Ok? ==> client.graph == Put(old(client.graph), Vertex(rec))
    ensures r.Ok? ==> r.value == |client.graph.vertices| - |old(client.graph.vertices)|
  {
    hide Keyed;
    var inserted: nat := 0;
    var found := client.GetVertex(rec.usr);
    if found.Err? {
      return Err(());
    }
    var existing := exists batch :: batch in found.value && batch != [];
    if !existing {
      var raises := client.CreateVertex(rec.usr, rec.nodeType);
      if raises {
        return Err(());
      }
      inserted := 1;
    }
    var raises := SetVertexProperties(client, rec.usr, rec.props["usr" := UsrText(rec.usr)]);
    return if raises then Err(()) else Ok(inserted);
  }

  /** One turn of the loop of UpsertEdges. */
  method UpsertEdge(client: Client, rec: EdgeRecord) returns (r: Result<nat, ()>)
    modifies client
    ensures old(client.Reliable()) ==> r.Ok? && client.Reliable()
    ensures Grows(old(client.graph), client.graph, {}, {KeyOf(rec)})
    ensures r.Ok? ==> client.graph == Put(old(client.graph), Edge(rec))
    ensures r.Ok? ==> r.value == |client.graph.edges| - |old(client.graph.edges)|
  {
    hide Keyed;
    var inserted: nat := 0;
    var key := KeyOf(rec);
    var found := client.GetEdge(key);
    if found.Err? {
      return Err(());
    }
    var existing := exists batch :: batch in found.value && batch != [];
    if !existing {
      var raises := client.CreateEdge(key);
      if raises {
        return Err(());
      }
      var again := client.GetEdge(key);
      if again.Err? {
        return Err(());
      }
      var stored := exists batch :: batch in again.value && batch != [];
      if stored {
        inserted := 1;
      }
    }
    var raises := SetEdgeProperties(client, key, rec.props);
    return if raises then Err(()) else Ok(inserted);
  }

  /** The loop of UpsertNodes: unless a call raises, the batch is applied and the result is the
      number of new vertices. */
  method WriteNodes(client: Client, batch: seq<NodeRecord>) returns (r: Result<nat, ()>)
    modifies client
    ensures old(client.Reliable()) ==> r.Ok? && client.Reliable()
    ensures Grows(old(client.graph), client.graph, NodeUsrs(batch), {})
    ensures r.Ok? ==> client.graph == Apply(old(client.graph), Vertices(batch))
    ensures r.Ok? ==> r.value == |client.graph.vertices| - |old(client.graph.vertices)| && r.value <= |batch|
  {
    hide Put, Apply;
    ghost var g := client.graph;
    var inserted: nat := 0;
    assert Vertices(batch[..0]) == [];
    ApplyNothing(g);
    for i := 0 to |batch|
      invariant Grows(g, client.graph, NodeUsrs(batch), {})
      invariant client.graph == Apply(g, Vertices(batch[..i]))
      invariant inserted == |client.graph.vertices| - |g.vertices| && inserted <= i
      invariant old(client.Reliable()) ==> client.Reliable()
    {
      ghost var before := client.graph;
      var one := UpsertNode(client, batch[i]);
      assert batch[i] in batch;
      OneMoreVertex(before, client.graph, batch[i].usr);
      if one.Err? {
        return Err(());
      }
      inserted := inserted + one.value;
      ApplySnoc(g, Vertices(batch[..i]), Vertex(batch[i]));
      assert Vertices(batch[..i + 1]) == Vertices(batch[..i]) + [Vertex(batch[i])];
    }
    assert batch[..|batch|] == batch;
    return Ok(inserted);
  }

  lemma OneMoreVertex(earlier: Graph, later: Graph, u: Usr)
    requires Grows(earlier, later, {u}, {})
    ensures |later.vertices| <= |earlier.vertices| + 1
  {
    assert |later.vertices.Keys| <= |earlier.vertices.Keys + {u}| by {
      SubsetSize(later.vertices.Keys, earlier.vertices.Keys + {u});
    }
  }

  lemma HasKey(batch: seq<EdgeRecord>, e: EdgeRecord)
    requires e in batch
    ensures KeyOf(e) in EdgeKeys(batch)
  {
  }

  lemma GrowsFrom(g: Graph, usrs: set<Usr>, keys: set<EdgeKey>)
    ensures Grows(g, g, usrs, keys)
  {
  }

  lemma OneMoreEdge(g: Graph, earlier: Graph, later: Graph, e: EdgeKey, keys: set<EdgeKey>)
    requires Grows(g, earlier, {}, keys) && Grows(earlier, later, {}, {e}) && e in keys
    ensures |later.edges| <= |earlier.edges| + 1
    ensures Grows(g, later, {}, keys)
  {
    SubsetSize(later.edges, earlier.edges + {e});
  }

  lemma {:induction false} SubsetSize<T>(a: set<T>, b: set<T>)
    requires a <= b
    ensures |a| <= |b|
  {
    assert b == a + (b - a);
  }

  /** The loop of UpsertEdges: unless a call raises, the batch is applied and the result is the
      number of new edges. */
  method WriteEdges(client: Client, batch: seq<EdgeRecord>) returns (r: Result<nat, ()>)
    modifies client
    ensures old(client.Reliable()) ==> r.Ok? && client.Reliable()
    ensures Grows(old(client.graph), client.graph, {}, EdgeKeys(batch))
    ensures r.Ok? ==> client.graph == Apply(old(client.graph), Edges(batch))
    ensures r.Ok? ==> r.value == |client.graph.edges| - |old(client.graph.edges)| && r.value <= |batch|
  {
    hide Put, Apply, EdgeKeys, Grows;
    ghost var g := client.graph;
    var inserted: nat := 0;
    GrowsFrom(g, {}, EdgeKeys(batch));
    assert Edges(batch[..0]) == [];
    ApplyNothing(g);
    for i := 0 to |batch|
      invariant Grows(g, client.graph, {}, EdgeKeys(batch))
      invariant client.graph == Apply(g, Edges(batch[..i]))
      invariant inserted == |client.graph.edges| - |g.edges| && inserted <= i
      invariant old(client.Reliable()) ==> client.Reliable()
    {
      ghost var before := client.graph;
      var one := UpsertEdge(client, batch[i]);
      HasKey(batch, batch[i]);
      OneMoreEdge(g, before, client.graph, KeyOf(batch[i]), EdgeKeys(batch));
      if one.Err? {
        return Err(());
      }
      inserted := inserted + one.value;
      ApplySnoc(g, Edges(batch[..i]), Edge(batch[i]));
      assert Edges(batch[..i + 1]) == Edges(batch[..i]) + [Edge(batch[i])];
    }
    assert batch[..|batch|] == batch;
    return Ok(inserted);
  }

  class IndraDBDriver {
    var client: Client?
    var closed: bool

    constructor ()
      ensures client == null && !closed
    {
      client, closed := null, false;
    }

    /** `made` is the client for the URI, null if none can be made. It is kept even when the ping
        that follows raises. */
    method Connect(made: Client?) returns (r: Result<(), ()>)
      modifies this, made
      ensures closed == old(closed)
      ensures client == if made != null then made else old(client)
      ensures made == null ==> r.Err?
      ensures made != null ==> made.graph == old(made.graph) && (old(made.Reliable()) ==> r.Ok? && made.Reliable())
    {
      if made == null {
        return Err(());
      }
      client := made;
      var raises := made.Call();
      return if raises then Err(()) else Ok(());
    }

    /** Without a client nothing is written, and nothing raised. */
    method UpsertNodes(batch: seq<NodeRecord>) returns (r: Result<nat, ()>)
      modifies client
      ensures client == null ==> r == Ok(0)
      ensures client != null ==>
        && (old(client.Reliable()) ==> r.Ok? && client.Reliable())
        && Grows(old(client.graph), client.graph, NodeUsrs(batch), {})
        && (r.Ok? ==> client.graph == Apply(old(client.graph), Vertices(batch)))
        && (r.Ok? ==> r.value == |client.graph.vertices| - |old(client.graph.vertices)| && r.value <= |batch|)
    {
      if batch == [] || client == null {
        return Ok(0);
      }
      r := WriteNodes(client, batch);
    }

    method UpsertEdges(batch: seq<EdgeRecord>) returns (r: Result<nat, ()>)
      modifies client
      ensures client == null ==> r == Ok(0)
      ensures client != null ==>
        && (old(client.Reliable()) ==> r.Ok? && client.Reliable())
        && Grows(old(client.graph), client.graph, {}, EdgeKeys(batch))
        && (r.Ok? ==> client.graph == Apply(old(client.graph), Edges(batch)))
        && (r.Ok? ==> r.value == |client.graph.edges| - |old(client.graph.edges)| && r.value <= |batch|)
    {
      if batch == [] || client == null {
        return Ok(0);
      }
      r := WriteEdges(client, batch);
    }

    /** Closing twice is closing once. */
    method Close()
      modifies this
      ensures closed && (old(closed) ==> client == old(client)) && (!old(closed) ==> client == null)
    {
      if closed {
        return;
      }
      client, closed := null, true;
    }
  }
}
