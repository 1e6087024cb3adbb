/** Type chains, parameters and declared types: the edges that depend on what was seen before. */
module ExporterTypes {
  import opened Basics
  import opened GraphRecords
  import opened Cursors
  import opened ExporterSpec
  import opened ExporterPaths
  import opened ExporterIntegrity

  /** A node's outgoing edges with one of some types, in order. */
  function Out(edges: seq<EdgeRecord>, u: Usr, types: set<EdgeType>): seq<EdgeRecord> {
    if edges == [] then
      []
    else
      var n := |edges| - 1;
      Out(edges[..n], u, types) + if edges[n].source == u && edges[n].edgeType in types then [edges[n]] else []
  }

  lemma {:induction false} OutSnoc(edges: seq<EdgeRecord>, e: EdgeRecord, u: Usr, types: set<EdgeType>)
    ensures Out(edges + [e], u, types)
         == Out(edges, u, types) + if e.source == u && e.edgeType in types then [e] else []
  {
  }

  /** The walk's plain emissions are of other types than the guarded ones. */
  predicate Unguarded(op: Op) {
    op.Emit? ==> op.edge.edgeType !in GUARDED
  }

  lemma {:induction false} BasesUnguarded(usr: string, children: seq<Cursor>)
    ensures forall op :: op in BaseOps(usr, children) ==> Unguarded(op)
  {
    if children != [] {
      BasesUnguarded(usr, children[1..]);
    }
  }

  lemma {:induction false} OwnOpsUnguarded(c: Cursor, path: string, ctx: Context)
    ensures forall op :: op in OwnOps(c, path, ctx) ==> Unguarded(op)
  {
    hide BaseOps, StructureEdge, IsSymbol;
    BasesUnguarded(c.usr, c.children);
    StructureType(c, path, ctx.parent);
    forall op | op in OwnOps(c, path, ctx) ensures Unguarded(op) {
    }
  }

  lemma {:induction false} PathsUnguarded(ps: seq<Path>, path: string)
    ensures forall op :: op in OpsAtAll(ps, path) ==> Unguarded(op)
  {
    hide OwnOps, ContextAt, Unguarded;
    if ps != [] {
      var n := |ps| - 1;
      PathsUnguarded(ps[..n], path);
      OwnOpsUnguarded(ps[n].cursor, path, ContextAt(ps[n].above, path));
    }
  }

  // ------------------------------------------------------------------
  // Type chains
  // ------------------------------------------------------------------

  const CHAIN := {PointsTo, RefersTo}

  /** The edge a type deserves: to its pointee or referent, when that has a spelling. */
  function ChainOf(table: TypeTable, h: nat): seq<EdgeRecord>
    requires h in table
  {
    var info := table[h];
    var target := TypeUsrOf(table, info.pointee);
    if target == None || info.kind == OtherType then
      []
    else
      var edgeType := if info.kind == Pointer then PointsTo else RefersTo;
      [EdgeRecord(TypeUsr(info.spelling), target.value, edgeType, map[])]
  }

  /** A type node's chain edges are those of some type with its spelling. */
  ghost predicate HasChain(edges: seq<EdgeRecord>, table: TypeTable, u: Usr) {
    exists h :: h in table && TypeUsr(table[h].spelling) == u && Out(edges, u, CHAIN) == ChainOf(table, h)
  }

  /** Finished types have their chain edges; types still `open`, whose pointee is being created,
      and everything else have none. */
  ghost predicate Chained(st: State, table: TypeTable, open: set<Usr>) {
    forall u: Usr ::
      if u.TypeUsr? && u in st.seen && u !in open then HasChain(st.edges, table, u) else Out(st.edges, u, CHAIN) == []
  }

  lemma {:induction false} OpenType(st: State, table: TypeTable, n: NodeRecord, open: set<Usr>)
    requires Chained(st, table, open) && n.usr !in st.seen
    ensures Chained(st.AddNode(n), table, open + {n.usr})
  {
  }

  lemma {:induction false} ChainOut(edges: seq<EdgeRecord>, table: TypeTable, h: nat, v: Usr)
    requires h in table
    ensures Out(edges + ChainOf(table, h), v, CHAIN)
         == Out(edges, v, CHAIN) + if v == TypeUsr(table[h].spelling) then ChainOf(table, h) else []
  {
    if ChainOf(table, h) == [] {
      assert edges + [] == edges;
    } else {
      OutSnoc(edges, ChainOf(table, h)[0], v, CHAIN);
    }
  }

  /** Finishing an open type with the edge it deserves. */
  lemma {:induction false} CloseType(st: State, table: TypeTable, h: nat, open: set<Usr>, edges: seq<EdgeRecord>)
    requires h in table
    requires Chained(st, table, open + {TypeUsr(table[h].spelling)})
    requires TypeUsr(table[h].spelling) in st.seen && TypeUsr(table[h].spelling) !in open
    requires edges == st.edges + ChainOf(table, h)
    ensures Chained(st.(edges := edges), table, open)
  {
    hide Out, ChainOf;
    var u := TypeUsr(table[h].spelling);
    forall v: Usr ensures Out(edges, v, CHAIN) == Out(st.edges, v, CHAIN) + if v == u then ChainOf(table, h) else [] {
      ChainOut(st.edges, table, h, v);
    }
    assert Out(edges, u, CHAIN) == ChainOf(table, h);
    forall v: Usr | v.TypeUsr? && v in st.seen && v !in open ensures HasChain(edges, table, v) {
      assert v != u ==> HasChain(st.edges, table, v);
    }
  }

  /** Creating a type closes it and every type created below it, however the pointees are tied. */
  lemma {:induction false} EnsureTypeChains(st: State, table: TypeTable, h: Option<nat>, open: set<Usr>)
    requires Chained(st, table, open) && open <= st.seen
    ensures Chained(EnsureType(st, table, h), table, open)
    decreases Unseen(table, st.seen)
  {
    hide Chained;
    var usr := TypeUsrOf(table, h);
    if usr.Some? && usr.value !in st.seen {
      var info := table[h.value];
      var node := NodeRecord(Type, usr.value, info.props);
      var st1 := st.AddNode(node);
      assert h.value in Unseen(table, st.seen) && h.value !in Unseen(table, st1.seen);
      OpenType(st, table, node, open);
      TypesSeen(st1, table, info.pointee);
      var st2 := if ChainEdge(info.kind).Some? then EnsureType(st1, table, info.pointee) else st1;
      if ChainEdge(info.kind).Some? {
        EnsureTypeChains(st1, table, info.pointee, open + {usr.value});
      }
      CloseType(st2, table, h.value, open, st2.edges + ChainOf(table, h.value));
      assert st2.edges + [] == st2.edges;
      assert EnsureType(st, table, h) == st2.(edges := st2.edges + ChainOf(table, h.value));
    }
  }

  /** Adding edges of other types, and nodes that are not types, leaves the chains. */
  lemma {:induction false} SameChains(st: State, st': State, table: TypeTable)
    requires Chained(st, table, {})
    requires forall u: Usr :: Out(st'.edges, u, CHAIN) == Out(st.edges, u, CHAIN)
    requires forall u: Usr :: u.TypeUsr? ==> (u in st'.seen <==> u in st.seen)
    ensures Chained(st', table, {})
  {
  }

  lemma {:induction false} TypedEdgeChains(st: State, table: TypeTable, h: Option<nat>, source: Usr, edgeType: EdgeType)
    requires Chained(st, table, {}) && edgeType !in CHAIN
    ensures Chained(EnsureType(st, table, h).AddEdgeIf(source, edgeType, TypeUsrOf(table, h)), table, {})
  {
    hide Chained;
    EnsureTypeChains(st, table, h, {});
    var typed, target := EnsureType(st, table, h), TypeUsrOf(table, h);
    if target.Some? {
      OtherEdgeChains(typed, EdgeRecord(source, target.value, edgeType, map[]), table);
    }
  }

  lemma {:induction false} OtherEdgeChains(st: State, e: EdgeRecord, table: TypeTable)
    requires Chained(st, table, {}) && e.edgeType !in CHAIN
    ensures Chained(st.(edges := st.edges + [e]), table, {})
  {
  }

  lemma {:induction false} DoChains(st: State, table: TypeTable, op: Op)
    requires Chained(st, table, {}) && Unguarded(op)
    ensures Chained(Do(st, table, op), table, {})
  {
    hide Chained;
    match op
    case Include(source, path) =>
      var usr := FileUsr(path);
      var node := IncludedNode(path);
      SameChains(st, st.AddNode(node), table);
      var st1 := if usr in st.seen then st else st.AddNode(node);
      OtherEdgeChains(st1, EdgeRecord(source, usr, Includes, map[]), table);
    case Emit(edge) => OtherEdgeChains(st, edge, table);
    case Declare(c, nodeType) =>
      var usr := SymbolUsr(c.usr);
      var st1 := st.AddNode(NodeRecord(nodeType, usr, c.props));
      SameChains(st, st1, table);
      TypedEdgeChains(st1, table, c.ty, usr, OfType);
    case Return(owner, ty) => TypedEdgeChains(st, table, ty, SymbolUsr(owner), Returns);
    case Param(owner, index, arg) => ParamChains(st, table, owner, index, arg);
  }

  lemma {:induction false} ParamChains(st: State, table: TypeTable, owner: string, index: nat, arg: Arg)
    requires Chained(st, table, {})
    ensures Chained(DeclareParam(st, table, owner, index, arg), table, {})
  {
    hide Chained;
    var usr := ParamUsr(owner, index);
    if usr !in st.seen {
      var marked := st.(seen := st.seen + {usr});
      SameChains(st, marked, table);
      EnsureTypeChains(marked, table, arg.ty, {});
      var typed := EnsureType(marked, table, arg.ty);
      var st1 := typed.AddNode(NodeRecord(Parameter, usr, arg.props["index" := Num(index as real)]));
      SameChains(typed, st1, table);
      var e := EdgeRecord(SymbolUsr(owner), usr, HasParam, map["index" := Num(index as real)]);
      OtherEdgeChains(st1, e, table);
      var target := TypeUsrOf(table, arg.ty);
      if target.Some? {
        OtherEdgeChains(st1.(edges := st1.edges + [e]), EdgeRecord(usr, target.value, OfType, map[]), table);
      }
    }
  }

  lemma {:induction false} DoAllChains(st: State, table: TypeTable, ops: seq<Op>)
    requires Chained(st, table, {}) && forall op :: op in ops ==> Unguarded(op)
    ensures Chained(DoAll(st, table, ops), table, {})
  {
    hide Chained, Do, Unguarded;
    if ops != [] {
      var n := |ops| - 1;
      DoAllChains(st, table, ops[..n]);
      DoChains(DoAll(st, table, ops[..n]), table, ops[n]);
    }
  }

  lemma {:induction false} WalkOpsUnguarded(root: Cursor, path: string)
    ensures Ops(root, path, TOP) == OpsAtAll(Paths(root, []), path)
    ensures forall op :: op in Ops(root, path, TOP) ==> Unguarded(op)
  {
    hide Ops, Paths, OpsAtAll, Unguarded;
    WalkFollowsPaths(root, [], path);
    assert ContextAt([], path) == TOP;
    PathsUnguarded(Paths(root, []), path);
  }

  /** Every type node has exactly the chain edges of a type with its spelling: one edge to its
      pointee or referent if that has a spelling, none otherwise. */
  lemma {:induction false} ChainTheorem(root: Cursor, table: TypeTable, path: string)
    ensures
      var st := Walked(root, table, path);
      forall u: Usr :: u.TypeUsr? && u in NodeUsrs(st.nodes) ==> HasChain(st.edges, table, u)
  {
    hide Chained, Ops, DoAll;
    var st := Start(path);
    assert Chained(st, table, {}) by { StartChains(path, table); }
    WalkOpsUnguarded(root, path);
    DoAllChains(st, table, Ops(root, path, TOP));
    ReferentialIntegrity(root, table, path);
    ChainsOfSeen(Walked(root, table, path), table);
  }

  lemma StartChains(path: string, table: TypeTable)
    ensures Chained(Start(path), table, {})
  {
  }

  lemma ChainsOfSeen(st: State, table: TypeTable)
    requires Chained(st, table, {})
    ensures forall u: Usr :: u.TypeUsr? && u in st.seen ==> HasChain(st.edges, table, u)
  {
  }

  /** A type's spelling tells its kind and its pointee's spelling. */
  ghost predicate SpellingDecides(table: TypeTable) {
    forall h, h' :: h in table && h' in table && table[h].spelling == table[h'].spelling ==>
      table[h].kind == table[h'].kind && TypeUsrOf(table, table[h].pointee) == TypeUsrOf(table, table[h'].pointee)
  }

  /** When spellings decide, each type that has a node has its own edge and no other. */
  lemma {:induction false} DecidedChains(root: Cursor, table: TypeTable, path: string, h: nat)
    requires SpellingDecides(table) && h in table
    requires TypeUsr(table[h].spelling) in NodeUsrs(Walked(root, table, path).nodes)
    ensures Out(Walked(root, table, path).edges, TypeUsr(table[h].spelling), CHAIN) == ChainOf(table, h)
  {
    hide Walked, Out;
    ChainTheorem(root, table, path);
    var u := TypeUsr(table[h].spelling);
    assert HasChain(Walked(root, table, path).edges, table, u);
  }

  // ------------------------------------------------------------------
  // Parameters
  // ------------------------------------------------------------------

  function ParamEdge(owner: string, index: nat): EdgeRecord {
    EdgeRecord(SymbolUsr(owner), ParamUsr(owner, index), HasParam, map["index" := Num(index as real)])
  }

  /** The HAS_PARAM edges of a function with `m` parameters, in order. */
  function ParamEdges(owner: string, m: nat): seq<EdgeRecord> {
    seq(m, i requires 0 <= i < m => ParamEdge(owner, i))
  }

  /** One more than the highest parameter index among some operations. */
  function Arity(ops: seq<Op>, owner: string): nat {
    if ops == [] then
      0
    else
      var op, rest := ops[|ops| - 1], Arity(ops[..|ops| - 1], owner);
      if op.Param? && op.owner == owner && rest < op.index + 1 then op.index + 1 else rest
  }

  /** No parameter comes before those with lower indices. */
  ghost predicate Contiguous(ops: seq<Op>, owner: string) {
    forall j :: 0 <= j < |ops| && ops[j].Param? && ops[j].owner == owner ==> ops[j].index <= Arity(ops[..j], owner)
  }

  lemma {:induction false} ArityConcat(a: seq<Op>, b: seq<Op>, owner: string)
    ensures Arity(a + b, owner) == if Arity(a, owner) < Arity(b, owner) then Arity(b, owner) else Arity(a, owner)
    decreases |b|
  {
    if b == [] {
      assert a + b == a;
    } else {
      assert (a + b)[..|a + b| - 1] == a + b[..|b| - 1];
      ArityConcat(a, b[..|b| - 1], owner);
    }
  }

  lemma {:induction false} ContiguousConcat(a: seq<Op>, b: seq<Op>, owner: string)
    requires Contiguous(a, owner) && Contiguous(b, owner)
    ensures Contiguous(a + b, owner)
  {
    hide Arity;
    var c := a + b;
    forall j | 0 <= j < |c| && c[j].Param? && c[j].owner == owner ensures c[j].index <= Arity(c[..j], owner) {
      if j < |a| {
        assert c[..j] == a[..j];
      } else {
        assert c[..j] == a + b[..j - |a|];
        ArityConcat(a, b[..j - |a|], owner);
      }
    }
  }

  lemma {:induction false} NoParams(ops: seq<Op>, owner: string)
    requires forall op :: op in ops ==> !op.Param?
    ensures Arity(ops, owner) == 0 && Contiguous(ops, owner)
  {
    if ops != [] {
      NoParams(ops[..|ops| - 1], owner);
    }
  }

  lemma {:induction false} ParamOpsArity(f: string, args: seq<Arg>, owner: string)
    ensures Arity(ParamOps(f, args), owner) == if f == owner then |args| else 0
    ensures Contiguous(ParamOps(f, args), owner)
  {
    if args != [] {
      var n := |args| - 1;
      assert ParamOps(f, args)[..n] == ParamOps(f, args[..n]);
      ParamOpsArity(f, args[..n], owner);
      forall j | 0 <= j < |args| && f == owner
        ensures ParamOps(f, args)[j].index <= Arity(ParamOps(f, args)[..j], owner)
      {
        if j < n {
          assert ParamOps(f, args)[..j] == ParamOps(f, args[..n])[..j];
          assert ParamOps(f, args[..n])[j].Param?;
        }
      }
    }
  }

  /** The arity a visit shows: that of a function of the file. */
  function ArityAt(c: Cursor, path: string, owner: string): nat {
    if IsSymbol(c, path) && IsFunctionKind(c.kind) && c.usr == owner then |c.args| else 0
  }

  /** The largest arity among the visits of a function. */
  function MaxArity(ps: seq<Path>, path: string, owner: string): nat {
    if ps == [] then
      0
    else
      var here, rest := ArityAt(ps[|ps| - 1].cursor, path, owner), MaxArity(ps[..|ps| - 1], path, owner);
      if rest < here then here else rest
  }

  lemma {:induction false} OwnOpsArity(c: Cursor, path: string, ctx: Context, owner: string)
    ensures Arity(OwnOps(c, path, ctx), owner) == ArityAt(c, path, owner)
    ensures Contiguous(OwnOps(c, path, ctx), owner)
  {
    hide Arity, Contiguous, StructureEdge, ParamOps;
    if IsSymbol(c, path) && IsFunctionKind(c.kind) {
      var head := [Declare(c, Classify(c).value), Emit(StructureEdge(c, path, ctx.parent))]
        + CallOps(c, ctx.parent) + [Return(c.usr, c.resultType)];
      assert SymbolOps(c, path, ctx) == head + ParamOps(c.usr, c.args);
      NoParams(head, owner);
      ParamOpsArity(c.usr, c.args, owner);
      ArityConcat(head, ParamOps(c.usr, c.args), owner);
      ContiguousConcat(head, ParamOps(c.usr, c.args), owner);
    } else {
      BasesNotParams(c.usr, c.children);
      NoParams(OwnOps(c, path, ctx), owner);
    }
  }

  lemma {:induction false} BasesNotParams(usr: string, children: seq<Cursor>)
    ensures forall op :: op in BaseOps(usr, children) ==> !op.Param?
  {
    if children != [] {
      BasesNotParams(usr, children[1..]);
    }
  }

  lemma {:induction false} PathsArity(ps: seq<Path>, path: string, owner: string)
    ensures Arity(OpsAtAll(ps, path), owner) == MaxArity(ps, path, owner)
    ensures Contiguous(OpsAtAll(ps, path), owner)
  {
    hide OwnOps, ContextAt, Arity, Contiguous, ArityAt;
    if ps == [] {
      NoParams([], owner);
    } else {
      var n := |ps| - 1;
      PathsArity(ps[..n], path, owner);
      OwnOpsArity(ps[n].cursor, path, ContextAt(ps[n].above, path), owner);
      ArityConcat(OpsAtAll(ps[..n], path), OpsAt(ps[n], path), owner);
      ContiguousConcat(OpsAtAll(ps[..n], path), OpsAt(ps[n], path), owner);
    }
  }

  /** A function's parameters so far: the first `m`, in order. */
  ghost predicate HasParams(st: State, owner: string, m: nat) {
    && Out(st.edges, SymbolUsr(owner), {HasParam}) == ParamEdges(owner, m)
    && forall i: nat :: ParamUsr(owner, i) in st.seen <==> i < m
  }

  lemma {:induction false} TypesKeepOut(st: State, table: TypeTable, h: Option<nat>, u: Usr, types: set<EdgeType>)
    requires types !! CHAIN
    ensures Out(EnsureType(st, table, h).edges, u, types) == Out(st.edges, u, types)
    decreases Unseen(table, st.seen)
  {
    var usr := TypeUsrOf(table, h);
    if usr.Some? && usr.value !in st.seen {
      var info := table[h.value];
      var st1 := st.AddNode(NodeRecord(Type, usr.value, info.props));
      assert h.value in Unseen(table, st.seen) && h.value !in Unseen(table, st1.seen);
      if ChainEdge(info.kind).Some? {
        TypesKeepOut(st1, table, info.pointee, u, types);
        var target := TypeUsrOf(table, info.pointee);
        if target.Some? {
          OutSnoc(EnsureType(st1, table, info.pointee).edges,
                  EdgeRecord(usr.value, target.value, ChainEdge(info.kind).value, map[]), u, types);
        }
      }
    }
  }

  /** A typed edge: one more edge from `source`, if the type has a node. */
  lemma {:induction false} TypedEdgeOut(st: State, table: TypeTable, h: Option<nat>, source: Usr, edgeType: EdgeType,
                                        u: Usr, types: set<EdgeType>)
    requires types !! CHAIN
    ensures
      var st' := EnsureType(st, table, h).AddEdgeIf(source, edgeType, TypeUsrOf(table, h));
      && |Out(st'.edges, u, types)|
         == |Out(st.edges, u, types)| + (if TypeUsrOf(table, h).Some? && source == u && edgeType in types then 1 else 0)
      && (source != u || edgeType !in types ==> Out(st'.edges, u, types) == Out(st.edges, u, types))
      && st.seen <= st'.seen && (forall v: Usr :: v in st'.seen && v !in st.seen ==> v.TypeUsr?)
  {
    hide Out;
    TypesKeepOut(st, table, h, u, types);
    TypesSeen(st, table, h);
    var target := TypeUsrOf(table, h);
    if target.Some? {
      OutSnoc(EnsureType(st, table, h).edges, EdgeRecord(source, target.value, edgeType, map[]), u, types);
    }
  }

  lemma {:induction false} DoParams(st: State, table: TypeTable, op: Op, owner: string, m: nat)
    requires HasParams(st, owner, m) && Unguarded(op)
    requires op.Param? && op.owner == owner ==> op.index <= m
    ensures
      var m' := if op.Param? && op.owner == owner && m < op.index + 1 then op.index + 1 else m;
      HasParams(Do(st, table, op), owner, m')
  {
    hide Out, EnsureType, TypeUsrOf;
    var u := SymbolUsr(owner);
    match op
    case Include(source, path) => OutSnoc(st.edges, EdgeRecord(source, FileUsr(path), Includes, map[]), u, {HasParam});
    case Emit(edge) => OutSnoc(st.edges, edge, u, {HasParam});
    case Declare(c, nodeType) =>
      var st1 := st.AddNode(NodeRecord(nodeType, SymbolUsr(c.usr), c.props));
      TypedEdgeOut(st1, table, c.ty, SymbolUsr(c.usr), OfType, u, {HasParam});
    case Return(f, ty) => TypedEdgeOut(st, table, ty, SymbolUsr(f), Returns, u, {HasParam});
    case Param(f, index, arg) => ParamParams(st, table, f, index, arg, owner, m);
  }

  lemma {:induction false} ParamParams(st: State, table: TypeTable, f: string, index: nat, arg: Arg, owner: string,
                                       m: nat)
    requires HasParams(st, owner, m)
    requires f == owner ==> index <= m
    ensures
      var m' := if f == owner && m < index + 1 then index + 1 else m;
      HasParams(DeclareParam(st, table, f, index, arg), owner, m')
  {
    hide Out, EnsureType, TypeUsrOf;
    var u := SymbolUsr(owner);
    var usr := ParamUsr(f, index);
    if usr !in st.seen {
      var marked := st.(seen := st.seen + {usr});
      TypesKeepOut(marked, table, arg.ty, u, {HasParam});
      TypesSeen(marked, table, arg.ty);
      var typed := EnsureType(marked, table, arg.ty);
      var e := ParamEdge(f, index);
      OutSnoc(typed.edges, e, u, {HasParam});
      var target := TypeUsrOf(table, arg.ty);
      if target.Some? {
        OutSnoc(typed.edges + [e], EdgeRecord(usr, target.value, OfType, map[]), u, {HasParam});
      }
      if f == owner {
        assert ParamEdges(owner, m + 1) == ParamEdges(owner, m) + [e];
      }
    }
  }

  lemma {:induction false} DoAllParams(st: State, table: TypeTable, ops: seq<Op>, owner: string)
    requires HasParams(st, owner, 0) && Contiguous(ops, owner) && forall op :: op in ops ==> Unguarded(op)
    ensures HasParams(DoAll(st, table, ops), owner, Arity(ops, owner))
  {
    hide Do, HasParams, Unguarded;
    if ops != [] {
      var n := |ops| - 1;
      assert forall j :: 0 <= j < n ==> ops[..n][j] == ops[j] && ops[..n][..j] == ops[..j];
      DoAllParams(st, table, ops[..n], owner);
      DoParams(DoAll(st, table, ops[..n]), table, ops[n], owner, Arity(ops[..n], owner));
    }
  }

  /** However often a function is declared, its HAS_PARAM edges are those of indices 0 to m - 1, in
      order and once each, where m is the largest arity visited; its parameter nodes are theirs. */
  lemma {:induction false} ParameterTheorem(root: Cursor, table: TypeTable, path: string, owner: string)
    ensures
      var st, m := Walked(root, table, path), MaxArity(Paths(root, []), path, owner);
      && Out(st.edges, SymbolUsr(owner), {HasParam}) == ParamEdges(owner, m)
      && forall i: nat :: ParamUsr(owner, i) in NodeUsrs(st.nodes) <==> i < m
  {
    hide DoAll, Ops, Contiguous, Paths, OpsAtAll, Arity;
    WalkOpsUnguarded(root, path);
    PathsArity(Paths(root, []), path, owner);
    assert HasParams(Start(path), owner, 0) by { assert ParamEdges(owner, 0) == []; }
    DoAllParams(Start(path), table, Ops(root, path, TOP), owner);
    ReferentialIntegrity(root, table, path);
  }

  // ------------------------------------------------------------------
  // Declared types
  // ------------------------------------------------------------------

  /** A node has at most one OF_TYPE edge, and none before it is seen. */
  ghost predicate TypedOnce(st: State) {
    forall u: Usr :: |Out(st.edges, u, {OfType})| <= if u in st.seen && !u.TypeUsr? then 1 else 0
  }

  lemma {:induction false} DoTypedOnce(st: State, table: TypeTable, op: Op)
    requires TypedOnce(st) && Unguarded(op)
    ensures TypedOnce(Do(st, table, op))
  {
    hide Out, EnsureType, TypeUsrOf;
    forall u: Usr
      ensures |Out(Do(st, table, op).edges, u, {OfType})| <= if u in Do(st, table, op).seen && !u.TypeUsr? then 1 else 0
    {
      match op
      case Include(source, path) => OutSnoc(st.edges, EdgeRecord(source, FileUsr(path), Includes, map[]), u, {OfType});
      case Emit(edge) => OutSnoc(st.edges, edge, u, {OfType});
      case Declare(c, nodeType) =>
        var st1 := st.AddNode(NodeRecord(nodeType, SymbolUsr(c.usr), c.props));
        TypedEdgeOut(st1, table, c.ty, SymbolUsr(c.usr), OfType, u, {OfType});
      case Return(f, ty) => TypedEdgeOut(st, table, ty, SymbolUsr(f), Returns, u, {OfType});
      case Param(f, index, arg) => ParamTypedOnce(st, table, f, index, arg, u);
    }
  }

  lemma {:induction false} ParamTypedOnce(st: State, table: TypeTable, f: string, index: nat, arg: Arg, u: Usr)
    requires |Out(st.edges, u, {OfType})| <= if u in st.seen && !u.TypeUsr? then 1 else 0
    ensures
      var st' := DeclareParam(st, table, f, index, arg);
      |Out(st'.edges, u, {OfType})| <= if u in st'.seen && !u.TypeUsr? then 1 else 0
  {
    hide Out, EnsureType, TypeUsrOf;
    var usr := ParamUsr(f, index);
    if usr !in st.seen {
      var marked := st.(seen := st.seen + {usr});
      TypesKeepOut(marked, table, arg.ty, u, {OfType});
      TypesSeen(marked, table, arg.ty);
      var typed := EnsureType(marked, table, arg.ty);
      OutSnoc(typed.edges, ParamEdge(f, index), u, {OfType});
      var target := TypeUsrOf(table, arg.ty);
      if target.Some? {
        OutSnoc(typed.edges + [ParamEdge(f, index)], EdgeRecord(usr, target.value, OfType, map[]), u, {OfType});
      }
    }
  }

  lemma {:induction false} DoAllTypedOnce(st: State, table: TypeTable, ops: seq<Op>)
    requires TypedOnce(st) && forall op :: op in ops ==> Unguarded(op)
    ensures TypedOnce(DoAll(st, table, ops))
  {
    hide Do, TypedOnce, Unguarded;
    if ops != [] {
      DoAllTypedOnce(st, table, ops[..|ops| - 1]);
      DoTypedOnce(DoAll(st, table, ops[..|ops| - 1]), table, ops[|ops| - 1]);
    }
  }

  /** No node ever has two OF_TYPE edges, however often it is visited. */
  lemma {:induction false} TypedOnceTheorem(root: Cursor, table: TypeTable, path: string)
    ensures forall u: Usr :: |Out(Walked(root, table, path).edges, u, {OfType})| <= 1
  {
    hide DoAll, Ops;
    WalkOpsUnguarded(root, path);
    DoAllTypedOnce(Start(path), table, Ops(root, path, TOP));
  }
}
