/** Referential integrity of the extracted graph. */
module ExporterIntegrity {
  import opened Basics
  import opened GraphRecords
  import opened Cursors
  import opened ExporterSpec

  /** Edges that may lead to a symbol the file does not declare. */
  predicate IsCrossReference(t: EdgeType) {
    t == References || t == Inherits || t == Calls
  }

  ghost predicate Distinct(nodes: seq<NodeRecord>) {
    forall i, j :: 0 <= i < j < |nodes| ==> nodes[i].usr != nodes[j].usr
  }

  /** An edge whose source is emitted, and whose target is unless it is a cross reference. */
  predicate Attached(e: EdgeRecord, usrs: set<Usr>) {
    e.source in usrs && (e.target in usrs || IsCrossReference(e.edgeType))
  }

  /** Node USRs are distinct; those seen are theirs and the pending ones, whose nodes are still to
      come; edges are attached to emitted nodes. */
  ghost predicate Inv(st: State, pending: set<Usr>) {
    && Distinct(st.nodes)
    && st.seen == NodeUsrs(st.nodes) + pending
    && NodeUsrs(st.nodes) !! pending
    && forall e :: e in st.edges ==> Attached(e, NodeUsrs(st.nodes))
  }

  lemma AddedUsrs(nodes: seq<NodeRecord>, n: NodeRecord)
    ensures NodeUsrs(nodes + [n]) == NodeUsrs(nodes) + {n.usr}
  {
  }

  lemma {:induction false} AddNodeKeepsInv(st: State, n: NodeRecord, pending: set<Usr>)
    requires Inv(st, pending + {n.usr}) || Inv(st, pending)
    requires n.usr !in NodeUsrs(st.nodes) && n.usr !in pending
    ensures Inv(st.AddNode(n), pending)
    ensures NodeUsrs(st.AddNode(n).nodes) == NodeUsrs(st.nodes) + {n.usr}
  {
  }

  lemma AddEdgeKeepsInv(st: State, e: EdgeRecord, pending: set<Usr>)
    requires Inv(st, pending) && Attached(e, NodeUsrs(st.nodes))
    ensures Inv(st.(edges := st.edges + [e]), pending)
  {
  }

  /** Types are created without touching pending parameters. */
  lemma {:induction false} EnsureTypeKeepsInv(st: State, table: TypeTable, h: Option<nat>, pending: set<Usr>)
    requires Inv(st, pending) && forall u :: u in pending ==> u.ParamUsr?
    ensures
      var st' := EnsureType(st, table, h);
      && Inv(st', pending)
      && NodeUsrs(st.nodes) <= NodeUsrs(st'.nodes)
      && (forall u :: u in NodeUsrs(st'.nodes) ==> u in NodeUsrs(st.nodes) || u.TypeUsr?)
      && (TypeUsrOf(table, h).Some? ==> TypeUsrOf(table, h).value in NodeUsrs(st'.nodes))
    decreases Unseen(table, st.seen)
  {
    hide NodeUsrs;
    var usr := TypeUsrOf(table, h);
    if usr.Some? && usr.value !in st.seen {
      var info := table[h.value];
      var st1 := st.AddNode(NodeRecord(Type, usr.value, info.props));
      assert h.value in Unseen(table, st.seen) && h.value !in Unseen(table, st1.seen);
      AddNodeKeepsInv(st, NodeRecord(Type, usr.value, info.props), pending);
      var target := TypeUsrOf(table, info.pointee);
      if ChainEdge(info.kind).Some? {
        EnsureTypeKeepsInv(st1, table, info.pointee, pending);
        var st2 := EnsureType(st1, table, info.pointee);
        if target.Some? {
          AddEdgeKeepsInv(st2, EdgeRecord(usr.value, target.value, ChainEdge(info.kind).value, map[]), pending);
        }
      }
    }
  }

  /** What an operation mentions is already emitted. */
  ghost predicate Ready(op: Op, usrs: set<Usr>) {
    match op
    case Include(source, _) => source in usrs
    case Emit(edge) => Attached(edge, usrs)
    case Declare(_, _) => true
    case Return(owner, _) => SymbolUsr(owner) in usrs
    case Param(owner, _, _) => SymbolUsr(owner) in usrs
  }

  lemma {:induction false} TypedEdgeKeepsInv(st: State, table: TypeTable, h: Option<nat>, source: Usr,
                                             edgeType: EdgeType)
    requires Inv(st, {}) && source in NodeUsrs(st.nodes)
    ensures
      var st' := EnsureType(st, table, h).AddEdgeIf(source, edgeType, TypeUsrOf(table, h));
      Inv(st', {}) && NodeUsrs(st.nodes) <= NodeUsrs(st'.nodes)
  {
    hide NodeUsrs;
    EnsureTypeKeepsInv(st, table, h, {});
    var target := TypeUsrOf(table, h);
    if target.Some? {
      AddEdgeKeepsInv(EnsureType(st, table, h), EdgeRecord(source, target.value, edgeType, map[]), {});
    }
  }

  lemma {:induction false} ParamKeepsInv(st: State, table: TypeTable, owner: string, index: nat, arg: Arg)
    requires Inv(st, {}) && SymbolUsr(owner) in NodeUsrs(st.nodes)
    ensures
      var st' := DeclareParam(st, table, owner, index, arg);
      Inv(st', {}) && NodeUsrs(st.nodes) <= NodeUsrs(st'.nodes) && ParamUsr(owner, index) in NodeUsrs(st'.nodes)
  {
    hide NodeUsrs;
    var usr := ParamUsr(owner, index);
    if usr !in st.seen {
      var marked := st.(seen := st.seen + {usr});
      EnsureTypeKeepsInv(marked, table, arg.ty, {usr});
      var typed := EnsureType(marked, table, arg.ty);
      var node := NodeRecord(Parameter, usr, arg.props["index" := Num(index as real)]);
      assert {} + {usr} == {usr};
      AddNodeKeepsInv(typed, node, {});
      var st1 := typed.AddNode(node);
      var e := EdgeRecord(SymbolUsr(owner), usr, HasParam, map["index" := Num(index as real)]);
      AddEdgeKeepsInv(st1, e, {});
      var target := TypeUsrOf(table, arg.ty);
      if target.Some? {
        AddEdgeKeepsInv(st1.(edges := st1.edges + [e]), EdgeRecord(usr, target.value, OfType, map[]), {});
      }
    }
  }

  lemma {:induction false} DoKeepsInv(st: State, table: TypeTable, op: Op)
    requires Inv(st, {}) && Ready(op, NodeUsrs(st.nodes))
    ensures
      var st' := Do(st, table, op);
      && Inv(st', {}) && NodeUsrs(st.nodes) <= NodeUsrs(st'.nodes)
      && (op.Declare? ==> SymbolUsr(op.cursor.usr) in NodeUsrs(st'.nodes))
  {
    hide NodeUsrs;
    match op
    case Include(source, path) =>
      var usr := FileUsr(path);
      var node := IncludedNode(path);
      if usr !in st.seen {
        AddNodeKeepsInv(st, node, {});
      }
      var st1 := if usr in st.seen then st else st.AddNode(node);
      AddEdgeKeepsInv(st1, EdgeRecord(source, usr, Includes, map[]), {});
    case Emit(edge) => AddEdgeKeepsInv(st, edge, {});
    case Declare(c, nodeType) =>
      var usr := SymbolUsr(c.usr);
      if usr !in st.seen {
        AddNodeKeepsInv(st, NodeRecord(nodeType, usr, c.props), {});
        TypedEdgeKeepsInv(st.AddNode(NodeRecord(nodeType, usr, c.props)), table, c.ty, usr, OfType);
      }
    case Return(owner, ty) => TypedEdgeKeepsInv(st, table, ty, SymbolUsr(owner), Returns);
    case Param(owner, index, arg) => ParamKeepsInv(st, table, owner, index, arg);
  }

  /** Operations that are ready at the start stay ready. */
  lemma {:induction false} ReadyOpsKeepInv(st: State, table: TypeTable, ops: seq<Op>)
    requires Inv(st, {}) && forall op :: op in ops ==> Ready(op, NodeUsrs(st.nodes))
    ensures
      var st' := DoAll(st, table, ops);
      Inv(st', {}) && NodeUsrs(st.nodes) <= NodeUsrs(st'.nodes)
  {
    hide NodeUsrs, Do, Inv;
    if ops != [] {
      var n := |ops| - 1;
      ReadyOpsKeepInv(st, table, ops[..n]);
      ReadyGrows(ops[n], NodeUsrs(st.nodes), NodeUsrs(DoAll(st, table, ops[..n]).nodes));
      DoKeepsInv(DoAll(st, table, ops[..n]), table, ops[n]);
    }
  }

  lemma ReadyGrows(op: Op, usrs: set<Usr>, more: set<Usr>)
    requires Ready(op, usrs) && usrs <= more
    ensures Ready(op, more)
  {
  }

  /** The context the walk passes down names emitted symbols. */
  ghost predicate InContext(ctx: Context, path: string, usrs: set<Usr>) {
    && FileUsr(path) in usrs
    && (ctx.parent.Some? ==> SymbolUsr(ctx.parent.value.usr) in usrs)
    && (ctx.enclosing.Some? ==> SymbolUsr(ctx.enclosing.value) in usrs)
  }

  lemma {:induction false} BaseOpsReady(usr: string, children: seq<Cursor>, usrs: set<Usr>)
    requires SymbolUsr(usr) in usrs
    ensures forall op :: op in BaseOps(usr, children) ==> Ready(op, usrs)
  {
    if children != [] {
      BaseOpsReady(usr, children[1..], usrs);
    }
  }

  /** All a symbol's operations are ready once it is declared. */
  lemma {:induction false} SymbolOpsKeepInv(st: State, table: TypeTable, c: Cursor, path: string, ctx: Context)
    requires Inv(st, {}) && InContext(ctx, path, NodeUsrs(st.nodes)) && Classify(c).Some?
    ensures
      var st' := DoAll(st, table, SymbolOps(c, path, ctx));
      Inv(st', {}) && NodeUsrs(st.nodes) <= NodeUsrs(st'.nodes) && SymbolUsr(c.usr) in NodeUsrs(st'.nodes)
  {
    hide NodeUsrs, Do, DoAll, Inv;
    var declare := Declare(c, Classify(c).value);
    DoKeepsInv(st, table, declare);
    var st1 := Do(st, table, declare);
    var usrs := NodeUsrs(st1.nodes);
    BaseOpsReady(c.usr, c.children, usrs);
    forall op | op in EdgeOps(c, path, ctx) ensures Ready(op, usrs) {
    }
    ReadyOpsKeepInv(st1, table, EdgeOps(c, path, ctx));
    DeclareFirst(st, table, c, path, ctx);
  }

  lemma {:induction false} OwnOpsKeepInv(st: State, table: TypeTable, c: Cursor, path: string, ctx: Context)
    requires Inv(st, {}) && InContext(ctx, path, NodeUsrs(st.nodes))
    ensures
      var st' := DoAll(st, table, OwnOps(c, path, ctx));
      && Inv(st', {}) && NodeUsrs(st.nodes) <= NodeUsrs(st'.nodes)
      && (!IsCut(c) ==> InContext(Below(c, path, ctx), path, NodeUsrs(st'.nodes)))
  {
    hide NodeUsrs, Inv, Do;
    if IsSymbol(c, path) {
      SymbolOpsKeepInv(st, table, c, path, ctx);
    } else {
      ReadyOpsKeepInv(st, table, OwnOps(c, path, ctx));
    }
  }

  lemma {:induction false} WalkKeepsInv(st: State, table: TypeTable, c: Cursor, path: string, ctx: Context)
    requires Inv(st, {}) && InContext(ctx, path, NodeUsrs(st.nodes))
    ensures
      var st' := DoAll(st, table, Ops(c, path, ctx));
      Inv(st', {}) && NodeUsrs(st.nodes) <= NodeUsrs(st'.nodes)
    decreases c, 1
  {
    hide NodeUsrs, Inv, Do, DoAll, OwnOps, Below;
    OwnOpsKeepInv(st, table, c, path, ctx);
    var st1 := DoAll(st, table, OwnOps(c, path, ctx));
    if IsCut(c) {
      assert Ops(c, path, ctx) == OwnOps(c, path, ctx);
    } else {
      WalkAllKeepsInv(st1, table, c.children, path, Below(c, path, ctx));
      DoAllConcat(st, table, OwnOps(c, path, ctx), OpsOf(c.children, path, Below(c, path, ctx)));
    }
  }

  lemma {:induction false} WalkAllKeepsInv(st: State, table: TypeTable, cs: seq<Cursor>, path: string, ctx: Context)
    requires Inv(st, {}) && InContext(ctx, path, NodeUsrs(st.nodes))
    ensures
      var st' := DoAll(st, table, OpsOf(cs, path, ctx));
      Inv(st', {}) && NodeUsrs(st.nodes) <= NodeUsrs(st'.nodes)
    decreases cs, 0
  {
    hide NodeUsrs, Inv, Do;
    if cs != [] {
      var n := |cs| - 1;
      WalkAllKeepsInv(st, table, cs[..n], path, ctx);
      WalkKeepsInv(DoAll(st, table, OpsOf(cs[..n], path, ctx)), table, cs[n], path, ctx);
      DoAllConcat(st, table, OpsOf(cs[..n], path, ctx), Ops(cs[n], path, ctx));
    }
  }

  predicate Covered(e: EdgeRecord, pairs: set<(Usr, Usr)>) {
    e.edgeType == References && (e.source, e.target) in pairs
  }

  lemma {:induction false} WithoutCoveredIsPart(edges: seq<EdgeRecord>, pairs: set<(Usr, Usr)>)
    ensures forall e :: e in WithoutCovered(edges, pairs) <==> e in edges && !Covered(e, pairs)
  {
    if edges != [] {
      var n := |edges| - 1;
      WithoutCoveredIsPart(edges[..n], pairs);
      assert edges == edges[..n] + [edges[n]];
    }
  }

  /** For every cursor tree: nodes have distinct USRs, exactly those seen; every edge starts at an
      emitted node, and ends at one unless it is a REFERENCES, INHERITS or CALLS edge. */
  lemma {:induction false} ReferentialIntegrity(root: Cursor, table: TypeTable, path: string)
    ensures
      var st := Walked(root, table, path);
      && Distinct(st.nodes) && st.seen == NodeUsrs(st.nodes)
      && FileUsr(path) in NodeUsrs(st.nodes)
      && (forall e :: e in st.edges ==> Attached(e, NodeUsrs(st.nodes)))
      && (forall e :: e in Dedup(st.edges) ==> Attached(e, NodeUsrs(st.nodes)))
  {
    var st := Start(path);
    assert FileNode(path) in st.nodes;
    assert Inv(st, {});
    WalkKeepsInv(st, table, root, path, TOP);
    var walked := Walked(root, table, path);
    WithoutCoveredIsPart(walked.edges, CallPairs(walked.edges));
  }
}
