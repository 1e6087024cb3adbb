/** The exporter and the store together: what exporting a file leaves. */
module ExportToStore {
  import opened Basics
  import opened GraphRecords
  import opened GraphStore
  import opened Ingest
  import opened Convergence
  import opened Cursors
  import opened ExporterSpec
  import opened ExporterIntegrity
  import IndraDriver

  /** What a file's translation unit is exported as. */
  function Extract(root: Cursor, table: TypeTable, path: string): Batch {
    var st := Walked(root, table, path);
    Batch(st.nodes, Dedup(st.edges))
  }

  lemma {:induction false} DistinctCount(nodes: seq<NodeRecord>)
    requires Distinct(nodes)
    ensures |NodeUsrs(nodes)| == |nodes|
  {
    if nodes != [] {
      var n := |nodes| - 1;
      DistinctCount(nodes[..n]);
      AddedUsrs(nodes[..n], nodes[n]);
      assert nodes[..n] + [nodes[n]] == nodes;
      assert nodes[n].usr !in NodeUsrs(nodes[..n]);
    }
  }

  /** Exporting a file into any store: every vertex is stored, with its label if it is new; every
      edge but a cross reference is stored at once, from its source to its target, and a cross
      reference exactly if its target is a vertex, unless it was stored before. Into an empty store
      every node counts as an insert. */
  lemma {:induction false} ExportStores(g: Graph, root: Cursor, table: TypeTable, path: string)
    ensures
      var b := Extract(root, table, path);
      var after := Apply(g, FileWrites(b));
      && after.vertices.Keys == g.vertices.Keys + NodeUsrs(b.nodes)
      && (forall n :: n in b.nodes && n.usr !in g.vertices ==> Get(after.vertices, n.usr) == Some(n.nodeType))
      && (forall e :: e in b.edges && !IsCrossReference(e.edgeType) ==>
            EdgeKey(e.source, e.edgeType, e.target) in after.edges)
      && (forall e :: e in b.edges ==>
            var key := EdgeKey(e.source, e.edgeType, e.target);
            key in after.edges <==> key in g.edges || e.target in after.vertices)
      && (g == EMPTY ==> |after.vertices| == |b.nodes|)
  {
    hide Put, Apply, Extract, NodeUsrs, Attached, FileWrites;
    var b := Extract(root, table, path);
    var after := Apply(g, FileWrites(b));
    ExtractIntegrity(root, table, path);
    FileVertices(g, b);
    DistinctCount(b.nodes);
    assert |after.vertices| == |after.vertices.Keys|;
    assert EMPTY.vertices.Keys + NodeUsrs(b.nodes) == NodeUsrs(b.nodes);
    forall e | e in b.edges
      ensures
        var key := EdgeKey(e.source, e.edgeType, e.target);
        && (key in after.edges <==> key in g.edges || e.target in after.vertices)
        && (!IsCrossReference(e.edgeType) ==> key in after.edges)
    {
      AttachedEdge(g, b, e);
    }
    forall n | n in b.nodes && n.usr !in g.vertices ensures Get(after.vertices, n.usr) == Some(n.nodeType) {
      ApplyLabels(g, FileWrites(b), n.usr);
      FirstLabelOfFile(b, n.usr);
      FirstIsOnly(b.nodes, n);
    }
  }

  /** Among distinct nodes the first record of a node is its only one. */
  lemma {:induction false} FirstIsOnly(nodes: seq<NodeRecord>, n: NodeRecord)
    requires Distinct(nodes) && n in nodes
    ensures FirstNode(nodes, n.usr) == Some(n.nodeType)
  {
    if nodes[0] != n {
      var i :| 1 <= i < |nodes| && nodes[i] == n;
      assert nodes[1..][i - 1] == n;
      FirstIsOnly(nodes[1..], n);
    }
  }

  /** Every stored node has its USR and its properties, whatever the store had for it before. */
  lemma {:induction false} ExportProperties(g: Graph, root: Cursor, table: TypeTable, path: string, n: NodeRecord,
                                            k: string)
    ensures
      var b := Extract(root, table, path);
      var stored := Get(Apply(g, FileWrites(b)).vprops, (n.usr, k));
      n in b.nodes ==>
        && (k == "usr" ==> stored == Some(UsrText(n.usr)))
        && (k != "usr" ==> stored == Or(Get(n.props, k), Get(g.vprops, (n.usr, k))))
  {
    hide Put, Apply, Extract;
    var b := Extract(root, table, path);
    if n in b.nodes {
      ExtractIntegrity(root, table, path);
      ApplyVertexProps(g, FileWrites(b), n.usr, k);
      LastIsOnly(b.nodes, b.edges, n, k);
    }
  }

  lemma {:induction false} LastIsOnly(nodes: seq<NodeRecord>, edges: seq<EdgeRecord>, n: NodeRecord, k: string)
    requires Distinct(nodes)
    ensures
      var last := LastVertexProp(Vertices(nodes) + Edges(edges), n.usr, k);
      && (n in nodes ==> last == if k == "usr" then Some(UsrText(n.usr)) else Get(n.props, k))
      && (n.usr !in NodeUsrs(nodes) ==> last == None)
    decreases |nodes| + |edges|
  {
    var ws := Vertices(nodes) + Edges(edges);
    if edges != [] {
      assert ws[..|ws| - 1] == Vertices(nodes) + Edges(edges[..|edges| - 1]);
      LastIsOnly(nodes, edges[..|edges| - 1], n, k);
    } else if nodes != [] {
      var m := |nodes| - 1;
      assert ws[..|ws| - 1] == Vertices(nodes[..m]) + Edges([]);
      LastIsOnly(nodes[..m], [], n, k);
      AddedUsrs(nodes[..m], nodes[m]);
      assert nodes[..m] + [nodes[m]] == nodes;
      if n == nodes[m] {
        assert n.usr !in NodeUsrs(nodes[..m]);
      }
    }
  }

  lemma {:induction false} ExtractIntegrity(root: Cursor, table: TypeTable, path: string)
    ensures
      var b := Extract(root, table, path);
      Distinct(b.nodes) && forall e :: e in b.edges ==> Attached(e, NodeUsrs(b.nodes))
  {
    ReferentialIntegrity(root, table, path);
  }

  lemma {:induction false} FileVertices(g: Graph, b: Batch)
    ensures Apply(g, FileWrites(b)).vertices.Keys == g.vertices.Keys + NodeUsrs(b.nodes)
  {
    ApplyVertices(g, FileWrites(b));
    FileWritesWhat(b, EdgeKey(FileUsr(""), Includes, FileUsr("")));
  }

  /** An edge attached to its batch's nodes is stored exactly if its target is. */
  lemma {:induction false} AttachedEdge(g: Graph, b: Batch, e: EdgeRecord)
    requires e in b.edges && Attached(e, NodeUsrs(b.nodes))
    ensures
      var after := Apply(g, FileWrites(b));
      && (KeyOf(e) in after.edges <==> KeyOf(e) in g.edges || e.target in after.vertices)
      && (!IsCrossReference(e.edgeType) ==> KeyOf(e) in after.edges)
  {
    hide Put, Apply, LandsSomewhere;
    LandsInFile(g, b, KeyOf(e));
    ApplyEdges(g, FileWrites(b), KeyOf(e));
    FileVertices(g, b);
  }

  // ------------------------------------------------------------------
  // The access of members
  // ------------------------------------------------------------------

  const ACCESSES := {Str("public"), Str("protected"), Str("private")}

  /** Exactly the MEMBER_OF edges carry an access. */
  predicate AccessOk(e: EdgeRecord) {
    && ("access" in e.props <==> e.edgeType == MemberOf)
    && ("access" in e.props ==> e.props["access"] in ACCESSES)
  }

  ghost predicate AllAccessOk(edges: seq<EdgeRecord>) {
    forall e :: e in edges ==> AccessOk(e)
  }

  lemma {:induction false} TypesAccessOk(st: State, table: TypeTable, h: Option<nat>)
    requires AllAccessOk(st.edges)
    ensures AllAccessOk(EnsureType(st, table, h).edges)
    decreases Unseen(table, st.seen)
  {
    var usr := TypeUsrOf(table, h);
    if usr.Some? && usr.value !in st.seen {
      var info := table[h.value];
      var st1 := st.AddNode(NodeRecord(Type, usr.value, info.props));
      assert h.value in Unseen(table, st.seen) && h.value !in Unseen(table, st1.seen);
      if ChainEdge(info.kind).Some? {
        TypesAccessOk(st1, table, info.pointee);
      }
    }
  }

  predicate OpAccessOk(op: Op) {
    op.Emit? ==> AccessOk(op.edge)
  }

  lemma {:induction false} DoAccessOk(st: State, table: TypeTable, op: Op)
    requires AllAccessOk(st.edges) && OpAccessOk(op)
    ensures AllAccessOk(Do(st, table, op).edges)
  {
    hide EnsureType;
    match op
    case Include(source, path) =>
    case Emit(edge) =>
    case Declare(c, nodeType) =>
      TypesAccessOk(st.AddNode(NodeRecord(nodeType, SymbolUsr(c.usr), c.props)), table, c.ty);
    case Return(owner, ty) => TypesAccessOk(st, table, ty);
    case Param(owner, index, arg) =>
      TypesAccessOk(st.(seen := st.seen + {ParamUsr(owner, index)}), table, arg.ty);
  }

  lemma {:induction false} DoAllAccessOk(st: State, table: TypeTable, ops: seq<Op>)
    requires AllAccessOk(st.edges) && forall op :: op in ops ==> OpAccessOk(op)
    ensures AllAccessOk(DoAll(st, table, ops).edges)
  {
    hide Do, AllAccessOk, OpAccessOk;
    if ops != [] {
      DoAllAccessOk(st, table, ops[..|ops| - 1]);
      DoAccessOk(DoAll(st, table, ops[..|ops| - 1]), table, ops[|ops| - 1]);
    }
  }

  lemma {:induction false} BasesAccessOk(usr: string, children: seq<Cursor>)
    ensures forall op :: op in BaseOps(usr, children) ==> OpAccessOk(op)
  {
    if children != [] {
      BasesAccessOk(usr, children[1..]);
    }
  }

  lemma {:induction false} OwnOpsAccessOk(c: Cursor, path: string, ctx: Context)
    ensures forall op :: op in OwnOps(c, path, ctx) ==> OpAccessOk(op)
  {
    hide BaseOps;
    BasesAccessOk(c.usr, c.children);
    assert AccessOk(StructureEdge(c, path, ctx.parent));
    forall op | op in OwnOps(c, path, ctx) ensures OpAccessOk(op) {
    }
  }

  lemma {:induction false} OpsAccessOk(c: Cursor, path: string, ctx: Context)
    ensures forall op :: op in Ops(c, path, ctx) ==> OpAccessOk(op)
    decreases c, 1
  {
    hide OwnOps, OpAccessOk, Below;
    OwnOpsAccessOk(c, path, ctx);
    if !IsCut(c) {
      OpsOfAccessOk(c.children, path, Below(c, path, ctx));
    }
  }

  lemma {:induction false} OpsOfAccessOk(cs: seq<Cursor>, path: string, ctx: Context)
    ensures forall op :: op in OpsOf(cs, path, ctx) ==> OpAccessOk(op)
    decreases cs, 0
  {
    hide Ops, OpAccessOk;
    if cs != [] {
      OpsOfAccessOk(cs[..|cs| - 1], path, ctx);
      OpsAccessOk(cs[|cs| - 1], path, ctx);
    }
  }

  lemma {:induction false} ExtractAccessOk(root: Cursor, table: TypeTable, path: string)
    ensures AllAccessOk(Extract(root, table, path).edges)
  {
    OpsAccessOk(root, path, TOP);
    DoAllAccessOk(Start(path), table, Ops(root, path, TOP));
    WithoutCoveredIsPart(Walked(root, table, path).edges, CallPairs(Walked(root, table, path).edges));
  }

  /** The value of an edge property in the last record of a key that has it. */
  function LastIn(edges: seq<EdgeRecord>, key: EdgeKey, k: string): Option<Val> {
    if edges == [] then
      None
    else
      var e := edges[|edges| - 1];
      if KeyOf(e) == key && k in e.props then Some(e.props[k]) else LastIn(edges[..|edges| - 1], key, k)
  }

  lemma {:induction false} LastWritten(vs: seq<Write>, edges: seq<EdgeRecord>, key: EdgeKey, k: string)
    requires forall w :: w in vs ==> w.Vertex?
    ensures LastEdgeProp(vs + Edges(edges), key, k) == LastIn(edges, key, k)
    decreases |edges|
  {
    var ws := vs + Edges(edges);
    if edges == [] {
      assert ws == vs;
      forall i | 0 <= i < |vs| ensures !vs[i].Edge? {
        assert vs[i] in vs;
      }
      NeverWritten(vs, key, k);
    } else {
      assert ws[..|ws| - 1] == vs + Edges(edges[..|edges| - 1]);
      LastWritten(vs, edges[..|edges| - 1], key, k);
    }
  }

  lemma {:induction false} LastInIsWritten(edges: seq<EdgeRecord>, key: EdgeKey, k: string)
    ensures LastIn(edges, key, k).Some? <==> exists e :: e in edges && KeyOf(e) == key && k in e.props
    ensures LastIn(edges, key, k).Some? ==>
      exists e :: e in edges && KeyOf(e) == key && k in e.props && e.props[k] == LastIn(edges, key, k).value
  {
    if edges != [] {
      var n := |edges| - 1;
      LastInIsWritten(edges[..n], key, k);
      assert forall e :: e in edges <==> e in edges[..n] || e == edges[n];
    }
  }

  /** After exporting a file into an empty store, an edge has an access exactly if it is a MEMBER_OF
      edge, and it is the one last written; it is one of the three. */
  lemma {:induction false} StoredAccess(root: Cursor, table: TypeTable, path: string, e: EdgeKey)
    ensures
      var b := Extract(root, table, path);
      var after := Apply(EMPTY, FileWrites(b));
      e in after.edges ==>
        var access := Get(after.eprops, (e, "access"));
        && access == LastIn(b.edges, e, "access")
        && (access.Some? <==> e.edgeType == MemberOf)
        && (access.Some? ==> access.value in ACCESSES)
  {
    hide Put, Apply, Extract;
    var b := Extract(root, table, path);
    var ws := FileWrites(b);
    FileIsTimely(EMPTY, b);
    TimelyEdgeProps(EMPTY, ws, e, "access");
    forall w | w in Vertices(b.nodes) ensures w.Vertex? {
    }
    LastWritten(Vertices(b.nodes), b.edges, e, "access");
    ExtractAccessOk(root, table, path);
    LastInIsWritten(b.edges, e, "access");
    if e in Apply(EMPTY, ws).edges {
      LandedIsWritten(EMPTY, ws, e);
      FileWritesWhat(b, e);
      assert e in IndraDriver.EdgeKeys(b.edges);
      var r :| r in b.edges && KeyOf(r) == e;
      assert AccessOk(r);
      if LastIn(b.edges, e, "access").Some? {
        var r' :| r' in b.edges && KeyOf(r') == e && "access" in r'.props
               && r'.props["access"] == LastIn(b.edges, e, "access").value;
        assert AccessOk(r');
      }
    }
  }
}
