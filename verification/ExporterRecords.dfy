/** What the extraction records for each USR: its node, and its declared type. */
module ExporterRecords {
  import opened Basics
  import opened GraphRecords
  import opened Cursors
  import opened ExporterSpec
  import opened ExporterPaths
  import opened ExporterIntegrity
  import opened ExporterTypes

  /** A node, and the type its OF_TYPE edge leads to. */
  datatype Shown = Shown(node: NodeRecord, ty: Option<Usr>)

  function NodesOf(nodes: seq<NodeRecord>, u: Usr): seq<NodeRecord> {
    if nodes == [] then
      []
    else
      var n := |nodes| - 1;
      NodesOf(nodes[..n], u) + if nodes[n].usr == u then [nodes[n]] else []
  }

  lemma NodesOfSnoc(nodes: seq<NodeRecord>, n: NodeRecord, u: Usr)
    ensures NodesOf(nodes + [n], u) == NodesOf(nodes, u) + if n.usr == u then [n] else []
  {
    assert (nodes + [n])[..|nodes|] == nodes;
  }

  /** A USR is seen exactly if something is shown for it, and then its only node and its only
      OF_TYPE edge are the ones shown. */
  ghost predicate Has(st: State, u: Usr, shown: Option<Shown>) {
    && (u in st.seen <==> shown.Some?)
    && NodesOf(st.nodes, u) == (if shown.Some? then [shown.value.node] else [])
    && Out(st.edges, u, {OfType})
       == if shown.Some? && shown.value.ty.Some? then [EdgeRecord(u, shown.value.ty.value, OfType, map[])] else []
  }

  // ------------------------------------------------------------------
  // Operations
  // ------------------------------------------------------------------

  /** What an operation shows for a USR. */
  function ShownBy(op: Op, table: TypeTable, u: Usr): Option<Shown> {
    match op
    case Include(_, path) => if u == FileUsr(path) then Some(Shown(IncludedNode(path), None)) else None
    case Declare(c, nodeType) =>
      if u == SymbolUsr(c.usr) then
        Some(Shown(NodeRecord(nodeType, u, c.props), if HasOwnType(nodeType) then TypeUsrOf(table, c.ty) else None))
      else
        None
    case Param(owner, index, arg) =>
      if u == ParamUsr(owner, index) then
        Some(Shown(ParamNode(owner, index, arg), TypeUsrOf(table, arg.ty)))
      else
        None
    case _ => None
  }

  function ParamNode(owner: string, index: nat, arg: Arg): NodeRecord {
    NodeRecord(Parameter, ParamUsr(owner, index), arg.props["index" := Num(index as real)])
  }

  function FirstShown(ops: seq<Op>, table: TypeTable, u: Usr): Option<Shown> {
    if ops == [] then None else Or(FirstShown(ops[..|ops| - 1], table, u), ShownBy(ops[|ops| - 1], table, u))
  }

  lemma {:induction false} FirstConcat(a: seq<Op>, b: seq<Op>, table: TypeTable, u: Usr)
    ensures FirstShown(a + b, table, u) == Or(FirstShown(a, table, u), FirstShown(b, table, u))
    decreases |b|
  {
    if b == [] {
      assert a + b == a;
    } else {
      assert (a + b)[..|a + b| - 1] == a + b[..|b| - 1];
      FirstConcat(a, b[..|b| - 1], table, u);
    }
  }

  lemma {:induction false} TypesKeep(st: State, table: TypeTable, h: Option<nat>, u: Usr)
    requires !u.TypeUsr?
    ensures
      var st' := EnsureType(st, table, h);
      && NodesOf(st'.nodes, u) == NodesOf(st.nodes, u)
      && Out(st'.edges, u, {OfType}) == Out(st.edges, u, {OfType})
      && (u in st'.seen <==> u in st.seen)
    decreases Unseen(table, st.seen)
  {
    var usr := TypeUsrOf(table, h);
    TypesKeepOut(st, table, h, u, {OfType});
    TypesSeen(st, table, h);
    if usr.Some? && usr.value !in st.seen {
      var info := table[h.value];
      var st1 := st.AddNode(NodeRecord(Type, usr.value, info.props));
      assert h.value in Unseen(table, st.seen) && h.value !in Unseen(table, st1.seen);
      NodesOfSnoc(st.nodes, NodeRecord(Type, usr.value, info.props), u);
      if ChainEdge(info.kind).Some? {
        TypesKeep(st1, table, info.pointee, u);
      }
    }
  }

  /** A typed edge of a USR that had none. */
  lemma {:induction false} TypedEdgeOf(st: State, table: TypeTable, h: Option<nat>, source: Usr, edgeType: EdgeType,
                                       u: Usr)
    requires !u.TypeUsr?
    ensures
      var target := TypeUsrOf(table, h);
      var st' := EnsureType(st, table, h).AddEdgeIf(source, edgeType, target);
      var added := target.Some? && source == u && edgeType == OfType;
      && NodesOf(st'.nodes, u) == NodesOf(st.nodes, u)
      && Out(st'.edges, u, {OfType})
         == Out(st.edges, u, {OfType}) + (if added then [EdgeRecord(u, target.value, OfType, map[])] else [])
      && (u in st'.seen <==> u in st.seen)
  {
    hide Out, NodesOf;
    TypesKeep(st, table, h, u);
    var target := TypeUsrOf(table, h);
    if target.Some? {
      OutSnoc(EnsureType(st, table, h).edges, EdgeRecord(source, target.value, edgeType, map[]), u, {OfType});
    }
  }

  /** The first operation that shows a USR decides; later ones change nothing. */
  lemma {:induction false} DoShows(st: State, table: TypeTable, op: Op, u: Usr, shown: Option<Shown>)
    requires !u.TypeUsr? && Has(st, u, shown) && Unguarded(op)
    ensures Has(Do(st, table, op), u, Or(shown, ShownBy(op, table, u)))
  {
    hide Out, NodesOf, EnsureType, TypeUsrOf;
    match op
    case Include(source, path) =>
      NodesOfSnoc(st.nodes, IncludedNode(path), u);
      OutSnoc(st.edges, EdgeRecord(source, FileUsr(path), Includes, map[]), u, {OfType});
    case Emit(edge) => OutSnoc(st.edges, edge, u, {OfType});
    case Declare(c, nodeType) =>
      var node := NodeRecord(nodeType, SymbolUsr(c.usr), c.props);
      NodesOfSnoc(st.nodes, node, u);
      TypedEdgeOf(st.AddNode(node), table, c.ty, SymbolUsr(c.usr), OfType, u);
    case Return(owner, ty) => TypedEdgeOf(st, table, ty, SymbolUsr(owner), Returns, u);
    case Param(owner, index, arg) => ParamShows(st, table, owner, index, arg, u, shown);
  }

  lemma {:induction false} ParamShows(st: State, table: TypeTable, owner: string, index: nat, arg: Arg, u: Usr,
                                      shown: Option<Shown>)
    requires !u.TypeUsr? && Has(st, u, shown)
    ensures Has(DeclareParam(st, table, owner, index, arg), u, Or(shown, ShownBy(Param(owner, index, arg), table, u)))
  {
    hide Out, NodesOf, EnsureType, TypeUsrOf;
    var usr := ParamUsr(owner, index);
    if usr !in st.seen {
      var marked := st.(seen := st.seen + {usr});
      TypesKeep(marked, table, arg.ty, u);
      var typed := EnsureType(marked, table, arg.ty);
      NodesOfSnoc(typed.nodes, ParamNode(owner, index, arg), u);
      OutSnoc(typed.edges, ParamEdge(owner, index), u, {OfType});
      var target := TypeUsrOf(table, arg.ty);
      if target.Some? {
        OutSnoc(typed.edges + [ParamEdge(owner, index)], EdgeRecord(usr, target.value, OfType, map[]), u, {OfType});
      }
    }
  }

  lemma {:induction false} DoAllShows(st: State, table: TypeTable, ops: seq<Op>, u: Usr, shown: Option<Shown>)
    requires !u.TypeUsr? && Has(st, u, shown) && forall op :: op in ops ==> Unguarded(op)
    ensures Has(DoAll(st, table, ops), u, Or(shown, FirstShown(ops, table, u)))
  {
    hide Do, Has, Unguarded, ShownBy;
    if ops != [] {
      var n := |ops| - 1;
      DoAllShows(st, table, ops[..n], u, shown);
      DoShows(DoAll(st, table, ops[..n]), table, ops[n], u, Or(shown, FirstShown(ops[..n], table, u)));
    }
  }

  // ------------------------------------------------------------------
  // Visits
  // ------------------------------------------------------------------

  /** What a visit of a cursor shows for a USR: an inclusion directive the included file, a symbol
      itself, with its type if it is a field or a variable, and a function its parameters. */
  function ShownAt(c: Cursor, path: string, table: TypeTable, u: Usr): Option<Shown> {
    match u
    case FileUsr(q) =>
      if c.kind.InclusionDirective? && c.included == Some(q) then Some(Shown(IncludedNode(q), None)) else None
    case SymbolUsr(s) =>
      if IsSymbol(c, path) && c.usr == s then
        var nodeType := Classify(c).value;
        var ty := if nodeType == Field || nodeType == GlobalVariable then TypeUsrOf(table, c.ty) else None;
        Some(Shown(NodeRecord(nodeType, u, c.props), ty))
      else
        None
    case ParamUsr(f, i) =>
      if IsSymbol(c, path) && IsFunctionKind(c.kind) && c.usr == f && i < |c.args| then
        Some(Shown(ParamNode(f, i, c.args[i]), TypeUsrOf(table, c.args[i].ty)))
      else
        None
    case TypeUsr(_) => None
  }

  /** What the first visit that shows a USR shows. */
  function FirstVisit(ps: seq<Path>, path: string, table: TypeTable, u: Usr): Option<Shown> {
    if ps == [] then
      None
    else
      Or(FirstVisit(ps[..|ps| - 1], path, table, u), ShownAt(ps[|ps| - 1].cursor, path, table, u))
  }

  lemma {:induction false} NothingShown(ops: seq<Op>, table: TypeTable, u: Usr)
    requires forall op :: op in ops ==> op.Emit? || op.Return?
    ensures FirstShown(ops, table, u) == None
  {
    if ops != [] {
      var n := |ops| - 1;
      assert ops[n] in ops && forall op :: op in ops[..n] ==> op in ops;
      NothingShown(ops[..n], table, u);
    }
  }

  lemma {:induction false} ParamsShown(owner: string, args: seq<Arg>, table: TypeTable, u: Usr)
    ensures FirstShown(ParamOps(owner, args), table, u)
         == if u.ParamUsr? && u.owner == owner && u.index < |args| then
              Some(Shown(ParamNode(owner, u.index, args[u.index]), TypeUsrOf(table, args[u.index].ty)))
            else
              None
  {
    if args != [] {
      var n := |args| - 1;
      assert ParamOps(owner, args)[..n] == ParamOps(owner, args[..n]);
      ParamsShown(owner, args[..n], table, u);
    }
  }

  lemma {:induction false} BasesAreEmitted(usr: string, children: seq<Cursor>)
    ensures forall op :: op in BaseOps(usr, children) ==> op.Emit?
  {
    if children != [] {
      BasesAreEmitted(usr, children[1..]);
    }
  }

  lemma OneShown(op: Op, table: TypeTable, u: Usr)
    ensures FirstShown([op], table, u) == ShownBy(op, table, u)
  {
    assert [op][..0] == [];
  }

  lemma {:induction false} SymbolShown(c: Cursor, path: string, ctx: Context, table: TypeTable, u: Usr)
    requires IsSymbol(c, path)
    ensures FirstShown(SymbolOps(c, path, ctx), table, u) == ShownAt(c, path, table, u)
  {
    hide FirstShown, BaseOps, ParamOps, StructureEdge, TypeUsrOf;
    var declare := Declare(c, Classify(c).value);
    var params := if IsFunctionKind(c.kind) then ParamOps(c.usr, c.args) else [];
    var plain := [Emit(StructureEdge(c, path, ctx.parent))]
      + (if HasBases(c.kind) then BaseOps(c.usr, c.children) else [])
      + CallOps(c, ctx.parent)
      + (if IsFunctionKind(c.kind) then [Return(c.usr, c.resultType)] else []);
    BasesAreEmitted(c.usr, c.children);
    assert SymbolOps(c, path, ctx) == [declare] + (plain + params);
    FirstConcat([declare], plain + params, table, u);
    FirstConcat(plain, params, table, u);
    OneShown(declare, table, u);
    NothingShown(plain, table, u);
    NothingShown([], table, u);
    ParamsShown(c.usr, c.args, table, u);
  }

  lemma {:induction false} VisitShown(c: Cursor, path: string, ctx: Context, table: TypeTable, u: Usr)
    ensures FirstShown(OwnOps(c, path, ctx), table, u) == ShownAt(c, path, table, u)
  {
    hide SymbolOps, FirstShown, TypeUsrOf;
    var ops := OwnOps(c, path, ctx);
    if IsSymbol(c, path) {
      SymbolShown(c, path, ctx, table, u);
    } else if ops == [] {
      NothingShown(ops, table, u);
    } else {
      OneShown(ops[0], table, u);
    }
  }

  lemma {:induction false} PathsShown(ps: seq<Path>, path: string, table: TypeTable, u: Usr)
    ensures FirstShown(OpsAtAll(ps, path), table, u) == FirstVisit(ps, path, table, u)
  {
    hide OwnOps, ContextAt, ShownBy, ShownAt;
    if ps == [] {
      NothingShown([], table, u);
    } else {
      var n := |ps| - 1;
      PathsShown(ps[..n], path, table, u);
      VisitShown(ps[n].cursor, path, ContextAt(ps[n].above, path), table, u);
      FirstConcat(OpsAtAll(ps[..n], path), OpsAt(ps[n], path), table, u);
    }
  }

  /** For every USR but a type's, and every tree: it has one node if some visit shows it, or if it is
      the file itself, and none otherwise. The first visit decides the node's label and properties,
      and whether the USR has its one OF_TYPE edge, and to which type. */
  lemma {:induction false} RecordsTheorem(root: Cursor, table: TypeTable, path: string, u: Usr)
    requires !u.TypeUsr?
    ensures
      var first := FirstVisit(Paths(root, []), path, table, u);
      var shown := if u == FileUsr(path) then Some(Shown(FileNode(path), None)) else first;
      Has(Walked(root, table, path), u, shown)
  {
    hide DoAll, Ops, Paths, OpsAtAll, FirstShown, FirstVisit, Has;
    var shown := if u == FileUsr(path) then Some(Shown(FileNode(path), None)) else None;
    StartShows(path, u);
    WalkOpsUnguarded(root, path);
    DoAllShows(Start(path), table, Ops(root, path, TOP), u, shown);
    PathsShown(Paths(root, []), path, table, u);
  }

  lemma StartShows(path: string, u: Usr)
    ensures Has(Start(path), u, if u == FileUsr(path) then Some(Shown(FileNode(path), None)) else None)
  {
    NodesOfSnoc([], FileNode(path), u);
    assert [] + [FileNode(path)] == [FileNode(path)];
  }

  // ------------------------------------------------------------------
  // Types
  // ------------------------------------------------------------------

  /** A type's node is that of a type of the table. */
  ghost predicate TypesAreOfTable(nodes: seq<NodeRecord>, table: TypeTable) {
    forall n :: n in nodes && n.usr.TypeUsr? ==>
      exists h :: h in table && n == NodeRecord(Type, TypeUsr(table[h].spelling), table[h].props)
  }

  lemma {:induction false} TypesOfTable(st: State, table: TypeTable, h: Option<nat>)
    requires TypesAreOfTable(st.nodes, table)
    ensures TypesAreOfTable(EnsureType(st, table, h).nodes, table)
    decreases Unseen(table, st.seen)
  {
    var usr := TypeUsrOf(table, h);
    if usr.Some? && usr.value !in st.seen {
      var info := table[h.value];
      var node := NodeRecord(Type, usr.value, info.props);
      var st1 := st.AddNode(node);
      assert h.value in Unseen(table, st.seen) && h.value !in Unseen(table, st1.seen);
      assert forall n :: n in st1.nodes <==> n in st.nodes || n == node;
      if ChainEdge(info.kind).Some? {
        TypesOfTable(st1, table, info.pointee);
      }
    }
  }

  lemma NoTypeAdded(nodes: seq<NodeRecord>, n: NodeRecord, table: TypeTable)
    requires TypesAreOfTable(nodes, table) && !n.usr.TypeUsr?
    ensures TypesAreOfTable(nodes + [n], table)
  {
    assert forall m :: m in nodes + [n] <==> m in nodes || m == n;
  }

  lemma {:induction false} DoTypes(st: State, table: TypeTable, op: Op)
    requires TypesAreOfTable(st.nodes, table)
    ensures TypesAreOfTable(Do(st, table, op).nodes, table)
  {
    hide EnsureType, TypesAreOfTable;
    match op
    case Include(source, path) => NoTypeAdded(st.nodes, IncludedNode(path), table);
    case Emit(edge) =>
    case Declare(c, nodeType) =>
      var node := NodeRecord(nodeType, SymbolUsr(c.usr), c.props);
      NoTypeAdded(st.nodes, node, table);
      TypesOfTable(st.AddNode(node), table, c.ty);
    case Return(owner, ty) => TypesOfTable(st, table, ty);
    case Param(owner, index, arg) =>
      var marked := st.(seen := st.seen + {ParamUsr(owner, index)});
      TypesOfTable(marked, table, arg.ty);
      NoTypeAdded(EnsureType(marked, table, arg.ty).nodes, ParamNode(owner, index, arg), table);
  }

  lemma {:induction false} DoAllTypes(st: State, table: TypeTable, ops: seq<Op>)
    requires TypesAreOfTable(st.nodes, table)
    ensures TypesAreOfTable(DoAll(st, table, ops).nodes, table)
  {
    hide Do, TypesAreOfTable;
    if ops != [] {
      DoAllTypes(st, table, ops[..|ops| - 1]);
      DoTypes(DoAll(st, table, ops[..|ops| - 1]), table, ops[|ops| - 1]);
    }
  }

  /** A type's node has the properties of a type with its spelling. */
  lemma {:induction false} TypeNodesTheorem(root: Cursor, table: TypeTable, path: string)
    ensures TypesAreOfTable(Walked(root, table, path).nodes, table)
  {
    hide DoAll, Ops;
    DoAllTypes(Start(path), table, Ops(root, path, TOP));
  }
}
