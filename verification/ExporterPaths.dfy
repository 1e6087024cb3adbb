/** The walk against a specification over root-to-cursor paths. */
module ExporterPaths {
  import opened Basics
  import opened GraphRecords
  import opened Cursors
  import opened ExporterSpec

  /** A cursor under its ancestors, the root first. */
  datatype Path = Path(above: seq<Cursor>, cursor: Cursor)

  /** The paths to the cursors the walk visits, in preorder: nothing below a parameter or an
      inclusion directive. */
  function Paths(c: Cursor, above: seq<Cursor>): seq<Path>
    decreases c, 1
  {
    [Path(above, c)]
    + if c.kind == ParmDecl || c.kind == InclusionDirective then [] else PathsOf(c.children, above + [c])
  }

  function PathsOf(cs: seq<Cursor>, above: seq<Cursor>): seq<Path>
    decreases cs, 0
  {
    if cs == [] then [] else PathsOf(cs[..|cs| - 1], above) + Paths(cs[|cs| - 1], above)
  }

  // ------------------------------------------------------------------
  // The context of a cursor, read off its ancestors
  // ------------------------------------------------------------------

  /** Ends the search for a parent: a symbol of the file, or a cursor of another file. */
  predicate Decides(c: Cursor, path: string) {
    !IsReferenceKind(c.kind) && (OtherFile(c, path) || IsSymbol(c, path))
  }

  /** A function of the file. */
  predicate Encloses(c: Cursor, path: string) {
    IsSymbol(c, path) && IsFunctionKind(c.kind)
  }

  /** `i` is the last index of `above` at which `p` holds, or -1. */
  ghost predicate IsLast(above: seq<Cursor>, p: Cursor -> bool, i: int) {
    && -1 <= i < |above|
    && (i >= 0 ==> p(above[i]))
    && (forall j :: i < j < |above| ==> !p(above[j]))
  }

  function LastIndex(above: seq<Cursor>, p: Cursor -> bool): (i: int)
    ensures IsLast(above, p, i)
  {
    if above == [] then -1 else if p(above[|above| - 1]) then |above| - 1 else LastIndex(above[..|above| - 1], p)
  }

  function ParentScope(above: seq<Cursor>, path: string): Option<Scope> {
    var i := LastIndex(above, c => Decides(c, path));
    if i >= 0 && !OtherFile(above[i], path) then Some(Scope(above[i].usr, above[i].kind)) else None
  }

  function EnclosingFunction(above: seq<Cursor>, path: string): Option<string> {
    var i := LastIndex(above, c => Encloses(c, path));
    if i >= 0 then Some(above[i].usr) else None
  }

  function ContextAt(above: seq<Cursor>, path: string): Context {
    Context(ParentScope(above, path), EnclosingFunction(above, path))
  }

  /** Handing the context down from cursor to cursor finds what the search over ancestors finds. */
  lemma {:induction false} ContextBelow(above: seq<Cursor>, c: Cursor, path: string)
    requires !IsCut(c)
    ensures ContextAt(above + [c], path) == Below(c, path, ContextAt(above, path))
  {
  }

  /** What happens at the end of a path. */
  function OpsAt(p: Path, path: string): seq<Op> {
    OwnOps(p.cursor, path, ContextAt(p.above, path))
  }

  function OpsAtAll(ps: seq<Path>, path: string): seq<Op> {
    if ps == [] then [] else OpsAtAll(ps[..|ps| - 1], path) + OpsAt(ps[|ps| - 1], path)
  }

  lemma {:induction false} OpsAtConcat(a: seq<Path>, b: seq<Path>, path: string)
    ensures OpsAtAll(a + b, path) == OpsAtAll(a, path) + OpsAtAll(b, path)
    decreases |b|
  {
    hide OpsAt;
    if b == [] {
      assert a + b == a;
    } else {
      assert (a + b)[..|a + b| - 1] == a + b[..|b| - 1];
      OpsAtConcat(a, b[..|b| - 1], path);
      Associate(OpsAtAll(a, path), OpsAtAll(b[..|b| - 1], path), OpsAt(b[|b| - 1], path));
    }
  }

  lemma {:induction false} OpsAtOne(p: Path, path: string)
    ensures OpsAtAll([p], path) == OpsAt(p, path)
  {
  }

  /** The walk does, in preorder, what each path calls for. */
  lemma {:induction false} WalkFollowsPaths(c: Cursor, above: seq<Cursor>, path: string)
    ensures Ops(c, path, ContextAt(above, path)) == OpsAtAll(Paths(c, above), path)
    decreases c, 1
  {
    hide OwnOps, ContextAt, Below;
    OpsAtOne(Path(above, c), path);
    if !IsCut(c) {
      ContextBelow(above, c, path);
      WalkAllFollowsPaths(c.children, above + [c], path);
      OpsAtConcat([Path(above, c)], PathsOf(c.children, above + [c]), path);
    } else {
      assert Paths(c, above) == [Path(above, c)];
    }
  }

  lemma {:induction false} WalkAllFollowsPaths(cs: seq<Cursor>, above: seq<Cursor>, path: string)
    ensures OpsOf(cs, path, ContextAt(above, path)) == OpsAtAll(PathsOf(cs, above), path)
    decreases cs, 0
  {
    hide OwnOps, ContextAt, Below, Ops, Paths;
    if cs != [] {
      var n := |cs| - 1;
      WalkAllFollowsPaths(cs[..n], above, path);
      WalkFollowsPaths(cs[n], above, path);
      OpsAtConcat(PathsOf(cs[..n], above), Paths(cs[n], above), path);
    }
  }

  // ------------------------------------------------------------------
  // Edges of given types
  // ------------------------------------------------------------------

  /** The edges with one of some types, in order. */
  function Only(edges: seq<EdgeRecord>, types: set<EdgeType>): seq<EdgeRecord> {
    if edges == [] then
      []
    else
      var n := |edges| - 1;
      Only(edges[..n], types) + if edges[n].edgeType in types then [edges[n]] else []
  }

  lemma {:induction false} OnlyConcat(a: seq<EdgeRecord>, b: seq<EdgeRecord>, types: set<EdgeType>)
    ensures Only(a + b, types) == Only(a, types) + Only(b, types)
    decreases |b|
  {
    if b == [] {
      assert a + b == a;
    } else {
      assert (a + b)[..|a + b| - 1] == a + b[..|b| - 1];
      OnlyConcat(a, b[..|b| - 1], types);
      var last := b[|b| - 1];
      Associate(Only(a, types), Only(b[..|b| - 1], types), if last.edgeType in types then [last] else []);
    }
  }

  lemma {:induction false} OnlySnoc(edges: seq<EdgeRecord>, e: EdgeRecord, types: set<EdgeType>)
    ensures Only(edges + [e], types) == Only(edges, types) + if e.edgeType in types then [e] else []
  {
  }

  /** Edges guarded by what was seen before. */
  const GUARDED := {OfType, HasParam, PointsTo, RefersTo}

  /** The edges an operation adds whatever was seen before. */
  function Direct(op: Op, table: TypeTable): seq<EdgeRecord> {
    match op
    case Include(source, path) => [EdgeRecord(source, FileUsr(path), Includes, map[])]
    case Emit(edge) => [edge]
    case Declare(_, _) => []
    case Return(owner, ty) =>
      var target := TypeUsrOf(table, ty);
      if target.Some? then [EdgeRecord(SymbolUsr(owner), target.value, Returns, map[])] else []
    case Param(_, _, _) => []
  }

  function DirectAll(ops: seq<Op>, table: TypeTable): seq<EdgeRecord> {
    if ops == [] then [] else DirectAll(ops[..|ops| - 1], table) + Direct(ops[|ops| - 1], table)
  }

  lemma {:induction false} DirectConcat(a: seq<Op>, b: seq<Op>, table: TypeTable)
    ensures DirectAll(a + b, table) == DirectAll(a, table) + DirectAll(b, table)
    decreases |b|
  {
    hide Direct;
    if b == [] {
      assert a + b == a;
    } else {
      assert (a + b)[..|a + b| - 1] == a + b[..|b| - 1];
      DirectConcat(a, b[..|b| - 1], table);
      Associate(DirectAll(a, table), DirectAll(b[..|b| - 1], table), Direct(b[|b| - 1], table));
    }
  }

  lemma {:induction false} TypesAddGuarded(st: State, table: TypeTable, h: Option<nat>, types: set<EdgeType>)
    requires types !! GUARDED
    ensures Only(EnsureType(st, table, h).edges, types) == Only(st.edges, types)
    decreases Unseen(table, st.seen)
  {
    var usr := TypeUsrOf(table, h);
    if usr.Some? && usr.value !in st.seen {
      var info := table[h.value];
      var st1 := st.AddNode(NodeRecord(Type, usr.value, info.props));
      assert h.value in Unseen(table, st.seen) && h.value !in Unseen(table, st1.seen);
      if ChainEdge(info.kind).Some? {
        TypesAddGuarded(st1, table, info.pointee, types);
        var target := TypeUsrOf(table, info.pointee);
        if target.Some? {
          OnlySnoc(EnsureType(st1, table, info.pointee).edges,
                   EdgeRecord(usr.value, target.value, ChainEdge(info.kind).value, map[]), types);
        }
      }
    }
  }

  lemma {:induction false} TypedEdgeAdds(st: State, table: TypeTable, h: Option<nat>, source: Usr, edgeType: EdgeType,
                                         types: set<EdgeType>)
    requires types !! GUARDED
    ensures
      var target := TypeUsrOf(table, h);
      Only(EnsureType(st, table, h).AddEdgeIf(source, edgeType, target).edges, types)
      == Only(st.edges, types)
         + if target.Some? && edgeType in types then [EdgeRecord(source, target.value, edgeType, map[])] else []
  {
    TypesAddGuarded(st, table, h, types);
    var target := TypeUsrOf(table, h);
    if target.Some? {
      OnlySnoc(EnsureType(st, table, h).edges, EdgeRecord(source, target.value, edgeType, map[]), types);
    }
  }

  lemma OnlyOne(e: EdgeRecord, types: set<EdgeType>)
    ensures Only([e], types) == if e.edgeType in types then [e] else []
    ensures Only([], types) == []
  {
  }

  lemma {:induction false} DoAddsDirect(st: State, table: TypeTable, op: Op, types: set<EdgeType>)
    requires types !! GUARDED
    ensures Only(Do(st, table, op).edges, types) == Only(st.edges, types) + Only(Direct(op, table), types)
  {
    hide EnsureType, TypeUsrOf, Only, DeclareParam;
    match op
    case Include(source, path) =>
      var e := EdgeRecord(source, FileUsr(path), Includes, map[]);
      OnlySnoc(st.edges, e, types);
      OnlyOne(e, types);
    case Emit(edge) =>
      OnlySnoc(st.edges, edge, types);
      OnlyOne(edge, types);
    case Declare(c, nodeType) =>
      var usr := SymbolUsr(c.usr);
      TypedEdgeAdds(st.AddNode(NodeRecord(nodeType, usr, c.props)), table, c.ty, usr, OfType, types);
      OnlyOne(EdgeRecord(usr, usr, OfType, map[]), types);
    case Return(owner, ty) =>
      TypedEdgeAdds(st, table, ty, SymbolUsr(owner), Returns, types);
      var target := TypeUsrOf(table, ty);
      var end := if target.Some? then target.value else SymbolUsr(owner);
      OnlyOne(EdgeRecord(SymbolUsr(owner), end, Returns, map[]), types);
    case Param(owner, index, arg) =>
      ParamAddsGuarded(st, table, owner, index, arg, types);
      OnlyOne(EdgeRecord(SymbolUsr(owner), SymbolUsr(owner), OfType, map[]), types);
  }

  lemma {:induction false} ParamAddsGuarded(st: State, table: TypeTable, owner: string, index: nat, arg: Arg,
                                            types: set<EdgeType>)
    requires types !! GUARDED
    ensures Only(DeclareParam(st, table, owner, index, arg).edges, types) == Only(st.edges, types)
  {
    hide EnsureType, TypeUsrOf;
    var usr := ParamUsr(owner, index);
    if usr !in st.seen {
      var marked := st.(seen := st.seen + {usr});
      TypesAddGuarded(marked, table, arg.ty, types);
      var typed := EnsureType(marked, table, arg.ty);
      var e := EdgeRecord(SymbolUsr(owner), usr, HasParam, map["index" := Num(index as real)]);
      OnlySnoc(typed.edges, e, types);
      var target := TypeUsrOf(table, arg.ty);
      if target.Some? {
        OnlySnoc(typed.edges + [e], EdgeRecord(usr, target.value, OfType, map[]), types);
      }
    }
  }

  lemma {:induction false} DoAllAddsDirect(st: State, table: TypeTable, ops: seq<Op>, types: set<EdgeType>)
    requires types !! GUARDED
    ensures Only(DoAll(st, table, ops).edges, types) == Only(st.edges, types) + Only(DirectAll(ops, table), types)
  {
    hide Do, Direct;
    if ops == [] {
      assert Only([], types) == [];
    } else {
      var n := |ops| - 1;
      DoAllAddsDirect(st, table, ops[..n], types);
      DoAddsDirect(DoAll(st, table, ops[..n]), table, ops[n], types);
      OnlyConcat(DirectAll(ops[..n], table), Direct(ops[n], table), types);
    }
  }

  /** The edges of some types that the end of a path calls for. */
  function EdgesAt(p: Path, table: TypeTable, path: string, types: set<EdgeType>): seq<EdgeRecord> {
    Only(DirectAll(OpsAt(p, path), table), types)
  }

  function EdgesAtAll(ps: seq<Path>, table: TypeTable, path: string, types: set<EdgeType>): seq<EdgeRecord> {
    if ps == [] then
      []
    else
      EdgesAtAll(ps[..|ps| - 1], table, path, types) + EdgesAt(ps[|ps| - 1], table, path, types)
  }

  lemma {:induction false} EdgesOfOps(ps: seq<Path>, table: TypeTable, path: string, types: set<EdgeType>)
    ensures Only(DirectAll(OpsAtAll(ps, path), table), types) == EdgesAtAll(ps, table, path, types)
  {
    hide OpsAt, Direct;
    if ps == [] {
      assert Only([], types) == [];
    } else {
      var n := |ps| - 1;
      EdgesOfOps(ps[..n], table, path, types);
      DirectConcat(OpsAtAll(ps[..n], path), OpsAt(ps[n], path), table);
      OnlyConcat(DirectAll(OpsAtAll(ps[..n], path), table), DirectAll(OpsAt(ps[n], path), table), types);
    }
  }

  /** Every edge but OF_TYPE, HAS_PARAM, POINTS_TO and REFERS_TO: the walk emits, in preorder,
      what each path calls for. */
  lemma {:induction false} WalkEdges(root: Cursor, table: TypeTable, path: string, types: set<EdgeType>)
    requires types !! GUARDED
    ensures Only(Walked(root, table, path).edges, types) == EdgesAtAll(Paths(root, []), table, path, types)
  {
    hide DoAll, OpsAtAll, DirectAll, Only, Ops, Paths;
    WalkFollowsPaths(root, [], path);
    DoAllAddsDirect(Start(path), table, Ops(root, path, TOP), types);
    EdgesOfOps(Paths(root, []), table, path, types);
    assert ContextAt([], path) == TOP;
    OnlyOne(EdgeRecord(FileUsr(path), FileUsr(path), Calls, map[]), types);
  }

  // ------------------------------------------------------------------
  // What a path calls for
  // ------------------------------------------------------------------

  const STRUCTURE := {Defines, Declares, MemberOf}

  lemma {:induction false} DirectOne(op: Op, table: TypeTable)
    ensures DirectAll([op], table) == Direct(op, table)
    ensures DirectAll([], table) == []
  {
  }

  /** The INHERITS edges of a class: one for each base specifier whose base has a definition. */
  function BaseEdges(usr: string, children: seq<Cursor>): seq<EdgeRecord> {
    if children == [] then
      []
    else
      var base := children[0];
      var edges :=
        if base.kind == CxxBaseSpecifier && base.baseDefinition.Some? && base.baseDefinition.value != "" then
          [EdgeRecord(SymbolUsr(usr), SymbolUsr(base.baseDefinition.value), Inherits, map[])]
        else
          [];
      edges + BaseEdges(usr, children[1..])
  }

  lemma {:induction false} BasesAreInherits(usr: string, children: seq<Cursor>, table: TypeTable, types: set<EdgeType>)
    ensures Only(DirectAll(BaseOps(usr, children), table), types)
         == if Inherits in types then BaseEdges(usr, children) else []
  {
    hide DirectAll, Only;
    if children == [] {
      NoDirect(table, types);
    } else {
      BasesAreInherits(usr, children[1..], table, types);
      var base := children[0];
      var rest := BaseOps(usr, children[1..]);
      if base.kind.CxxBaseSpecifier? && base.baseDefinition.Some? && base.baseDefinition.value != "" {
        var e := EdgeRecord(SymbolUsr(usr), SymbolUsr(base.baseDefinition.value), Inherits, NO_PROPS);
        DirectConcat([Emit(e)], rest, table);
        DirectOne(Emit(e), table);
        OnlyConcat([e], DirectAll(rest, table), types);
        OnlyOne(e, types);
      } else {
        assert BaseOps(usr, children) == [] + rest && [] + rest == rest;
      }
    }
  }

  lemma NoDirect(table: TypeTable, types: set<EdgeType>)
    ensures DirectAll([], table) == [] && Only([], types) == []
  {
  }

  lemma {:induction false} ParamsAreNotDirect(owner: string, args: seq<Arg>, table: TypeTable)
    ensures DirectAll(ParamOps(owner, args), table) == []
  {
    if args != [] {
      var n := |args| - 1;
      assert ParamOps(owner, args)[..n] == ParamOps(owner, args[..n]);
      ParamsAreNotDirect(owner, args[..n], table);
    }
  }

  /** The RETURNS edge of a function whose result type has a spelling. */
  function ReturnEdges(c: Cursor, table: TypeTable): seq<EdgeRecord> {
    if c.resultType.Some? && c.resultType.value in table && table[c.resultType.value].spelling != "" then
      [EdgeRecord(SymbolUsr(c.usr), TypeUsr(table[c.resultType.value].spelling), Returns, map[])]
    else
      []
  }

  lemma {:induction false} FunctionsReturn(c: Cursor, table: TypeTable, types: set<EdgeType>)
    ensures Only(DirectAll(FunctionOps(c), table), types)
         == if IsFunctionKind(c.kind) && Returns in types then ReturnEdges(c, table) else []
  {
    hide DirectAll, Only, ParamOps;
    NoDirect(table, types);
    if IsFunctionKind(c.kind) {
      var ret := Return(c.usr, c.resultType);
      ParamsAreNotDirect(c.usr, c.args, table);
      DirectConcat([ret], ParamOps(c.usr, c.args), table);
      DirectOne(ret, table);
      assert Direct(ret, table) + [] == Direct(ret, table);
      var target := TypeUsrOf(table, c.resultType);
      if target.Some? {
        OnlyOne(EdgeRecord(SymbolUsr(c.usr), target.value, Returns, map[]), types);
      }
    }
  }

  /** A symbol calls for its structure edge, then for those to its bases and to its result type. */
  lemma {:induction false} SymbolEdges(c: Cursor, path: string, ctx: Context, table: TypeTable, types: set<EdgeType>)
    requires IsSymbol(c, path)
    ensures
      var e := StructureEdge(c, path, ctx.parent);
      var structure := if e.edgeType in types then [e] else [];
      var bases := if HasBases(c.kind) && Inherits in types then BaseEdges(c.usr, c.children) else [];
      var results := if IsFunctionKind(c.kind) && Returns in types then ReturnEdges(c, table) else [];
      Only(DirectAll(SymbolOps(c, path, ctx), table), types) == structure + (bases + results)
  {
    hide DirectAll, Only, BaseOps, BaseEdges, FunctionOps, ReturnEdges, StructureEdge;
    NoDirect(table, types);
    var e := StructureEdge(c, path, ctx.parent);
    var declare, emit := Declare(c, Classify(c).value), Emit(e);
    var bases := if HasBases(c.kind) then BaseOps(c.usr, c.children) else [];
    assert CallOps(c, ctx.parent) == [];
    var rest := bases + FunctionOps(c);
    BasesAreInherits(c.usr, c.children, table, types);
    FunctionsReturn(c, table, types);
    DirectConcat(bases, FunctionOps(c), table);
    OnlyConcat(DirectAll(bases, table), DirectAll(FunctionOps(c), table), types);
    assert SymbolOps(c, path, ctx) == [declare] + ([emit] + rest);
    DirectOne(declare, table);
    DirectOne(emit, table);
    DirectConcat([declare], [emit] + rest, table);
    DirectConcat([emit], rest, table);
    OnlyConcat([e], DirectAll(rest, table), types);
    OnlyOne(e, types);
    assert [] + ([e] + DirectAll(rest, table)) == [e] + DirectAll(rest, table);
  }

  /** Exactly one structure edge for every visit of a symbol, and none elsewhere. Its other end is
      the nearest ancestor that is a symbol, or the file if a cursor of another file is nearer or
      there is neither. */
  lemma {:induction false} StructureAt(p: Path, table: TypeTable, path: string)
    ensures EdgesAt(p, table, path, STRUCTURE)
         == if IsSymbol(p.cursor, path) then [StructureEdge(p.cursor, path, ParentScope(p.above, path))] else []
  {
    hide DirectAll, Only, SymbolOps, StructureEdge;
    var ctx := ContextAt(p.above, path);
    if IsSymbol(p.cursor, path) {
      SymbolEdges(p.cursor, path, ctx, table, STRUCTURE);
      assert StructureEdge(p.cursor, path, ctx.parent).edgeType in STRUCTURE by {
        StructureType(p.cursor, path, ctx.parent);
      }
    } else {
      OtherEdges(p.cursor, path, ctx, table, STRUCTURE);
    }
  }

  lemma StructureType(c: Cursor, path: string, parent: Option<Scope>)
    ensures StructureEdge(c, path, parent).edgeType in STRUCTURE
  {
  }

  /** The INCLUDES edge of an inclusion directive that finds its file. */
  function IncludeEdges(c: Cursor, path: string): seq<EdgeRecord> {
    if c.kind == InclusionDirective && c.included.Some? then
      [EdgeRecord(FileUsr(path), FileUsr(c.included.value), Includes, map[])]
    else
      []
  }

  /** The one edge, if any, that a cursor other than a symbol calls for. */
  lemma {:induction false} OtherEdges(c: Cursor, path: string, ctx: Context, table: TypeTable, types: set<EdgeType>)
    requires !IsSymbol(c, path)
    ensures Only(DirectAll(OwnOps(c, path, ctx), table), types)
         == if References in types && IsReferenceKind(c.kind) && c.referenced.Some? && c.referenced.value != "" then
              [EdgeRecord(FunctionOrFile(ctx, path), SymbolUsr(c.referenced.value), References, NO_PROPS)]
            else if Includes in types then
              IncludeEdges(c, path)
            else
              []
  {
    hide DirectAll, Only, SymbolOps;
    NoDirect(table, types);
    var ops := OwnOps(c, path, ctx);
    if ops != [] {
      DirectOne(ops[0], table);
      OnlyOne(Direct(ops[0], table)[0], types);
    }
  }

  /** A REFERENCES edge for every use of a symbol, from the nearest enclosing function of the file,
      else from the file; and none elsewhere. */
  lemma {:induction false} ReferencesAt(p: Path, table: TypeTable, path: string)
    ensures
      var c, f := p.cursor, EnclosingFunction(p.above, path);
      var source := if f.Some? then SymbolUsr(f.value) else FileUsr(path);
      EdgesAt(p, table, path, {References})
      == if IsReferenceKind(c.kind) && c.referenced.Some? && c.referenced.value != "" then
           [EdgeRecord(source, SymbolUsr(c.referenced.value), References, NO_PROPS)]
         else
           []
  {
    hide DirectAll, Only, SymbolOps, StructureEdge;
    var ctx := ContextAt(p.above, path);
    if IsSymbol(p.cursor, path) {
      SymbolEdges(p.cursor, path, ctx, table, {References});
      StructureType(p.cursor, path, ctx.parent);
    } else {
      OtherEdges(p.cursor, path, ctx, table, {References});
    }
  }

  /** No path calls for a CALLS edge. */
  lemma {:induction false} CallsAt(p: Path, table: TypeTable, path: string)
    ensures EdgesAt(p, table, path, {Calls}) == []
  {
    hide DirectAll, Only, SymbolOps, StructureEdge;
    var ctx := ContextAt(p.above, path);
    if IsSymbol(p.cursor, path) {
      SymbolEdges(p.cursor, path, ctx, table, {Calls});
      StructureType(p.cursor, path, ctx.parent);
    } else {
      OtherEdges(p.cursor, path, ctx, table, {Calls});
    }
  }

  lemma {:induction false} NoCallsIn(ps: seq<Path>, table: TypeTable, path: string)
    ensures EdgesAtAll(ps, table, path, {Calls}) == []
  {
    hide EdgesAt;
    if ps != [] {
      NoCallsIn(ps[..|ps| - 1], table, path);
      CallsAt(ps[|ps| - 1], table, path);
    }
  }

  /** The module's documentation promises a CALLS edge for a call expression. The walk emits none
      at all, so nothing is ever dropped as covered by one. */
  lemma {:induction false} CallsAreNeverEmitted(root: Cursor, table: TypeTable, path: string)
    ensures Only(Walked(root, table, path).edges, {Calls}) == []
    ensures Dedup(Walked(root, table, path).edges) == Walked(root, table, path).edges
  {
    hide Walked, EdgesAtAll;
    WalkEdges(root, table, path, {Calls});
    NoCallsIn(Paths(root, []), table, path);
    var edges := Walked(root, table, path).edges;
    assert CallPairs(edges) == {} by {
      OnlyContains(edges, {Calls});
    }
  }

  lemma {:induction false} OnlyContains(edges: seq<EdgeRecord>, types: set<EdgeType>)
    ensures forall e :: e in Only(edges, types) <==> e in edges && e.edgeType in types
  {
    if edges != [] {
      var n := |edges| - 1;
      OnlyContains(edges[..n], types);
      assert edges == edges[..n] + [edges[n]];
    }
  }

  // ------------------------------------------------------------------
  // The theorems over whole trees
  // ------------------------------------------------------------------

  /** The structure edges of the symbols among some paths. */
  function StructureEdges(ps: seq<Path>, path: string): seq<EdgeRecord> {
    if ps == [] then
      []
    else
      var p := ps[|ps| - 1];
      StructureEdges(ps[..|ps| - 1], path)
      + if IsSymbol(p.cursor, path) then [StructureEdge(p.cursor, path, ParentScope(p.above, path))] else []
  }

  lemma {:induction false} StructureOfPaths(ps: seq<Path>, table: TypeTable, path: string)
    ensures EdgesAtAll(ps, table, path, STRUCTURE) == StructureEdges(ps, path)
  {
    hide EdgesAt;
    if ps != [] {
      StructureOfPaths(ps[..|ps| - 1], table, path);
      StructureAt(ps[|ps| - 1], table, path);
    }
  }

  /** The DEFINES, DECLARES and MEMBER_OF edges of any tree are, in preorder, one for each visit of
      a symbol, between it and the nearest deciding ancestor. */
  lemma {:induction false} StructureTheorem(root: Cursor, table: TypeTable, path: string)
    ensures Only(Walked(root, table, path).edges, STRUCTURE) == StructureEdges(Paths(root, []), path)
  {
    hide Walked, EdgesAtAll, Paths;
    WalkEdges(root, table, path, STRUCTURE);
    StructureOfPaths(Paths(root, []), table, path);
  }

  /** A visit of a member directly in a record of the file, and its edge to the record. */
  predicate IsMemberVisit(p: Path, path: string, e: EdgeRecord) {
    var c, parent := p.cursor, ParentScope(p.above, path);
    && IsSymbol(c, path) && c.kind in {FieldDecl, CxxMethod, Constructor, Destructor}
    && parent.Some? && parent.value.kind in {ClassDecl, StructDecl, ClassTemplate, UnionDecl}
    && e.source == SymbolUsr(c.usr) && e.target == SymbolUsr(parent.value.usr)
    && e.props == map["access" := Str(ResolveAccess(c.access, parent.value.kind))]
  }

  /** A visit of any other symbol, and the edge to it from its parent or the file. */
  predicate IsOtherVisit(p: Path, path: string, e: EdgeRecord) {
    var c, parent := p.cursor, ParentScope(p.above, path);
    && IsSymbol(c, path)
    && !(c.kind in {FieldDecl, CxxMethod, Constructor, Destructor}
         && parent.Some? && parent.value.kind in {ClassDecl, StructDecl, ClassTemplate, UnionDecl})
    && e.target == SymbolUsr(c.usr) && e.props == NO_PROPS
    && e.source == (if parent.Some? then SymbolUsr(parent.value.usr) else FileUsr(path))
    && (e.edgeType == Defines <==> c.isDefinition)
  }

  lemma {:induction false} StructureHas(ps: seq<Path>, path: string, e: EdgeRecord)
    ensures e in StructureEdges(ps, path)
       <==> exists p ::
              p in ps && IsSymbol(p.cursor, path) && e == StructureEdge(p.cursor, path, ParentScope(p.above, path))
  {
    hide IsSymbol, StructureEdge, ParentScope;
    if ps != [] {
      var n := |ps| - 1;
      StructureHas(ps[..n], path, e);
      assert forall p :: p in ps <==> p in ps[..n] || p == ps[n];
    }
  }

  /** The graph has a MEMBER_OF edge exactly for a visit of a field, method, constructor or
      destructor whose nearest deciding ancestor is a record; a DEFINES or DECLARES edge exactly
      for a visit of another symbol, DEFINES for a definition. */
  lemma {:induction false} StructureKinds(root: Cursor, table: TypeTable, path: string, e: EdgeRecord)
    requires e.edgeType in STRUCTURE
    ensures
      var visited := e in Walked(root, table, path).edges;
      if e.edgeType == MemberOf then
        visited <==> exists p :: p in Paths(root, []) && IsMemberVisit(p, path, e)
      else
        visited <==> exists p :: p in Paths(root, []) && IsOtherVisit(p, path, e)
  {
    hide Walked, Only, Paths, IsSymbol, ParentScope;
    StructureTheorem(root, table, path);
    OnlyContains(Walked(root, table, path).edges, STRUCTURE);
    StructureHas(Paths(root, []), path, e);
    forall p: Path
      ensures
        IsSymbol(p.cursor, path) && e == StructureEdge(p.cursor, path, ParentScope(p.above, path))
        <==> if e.edgeType == MemberOf then IsMemberVisit(p, path, e) else IsOtherVisit(p, path, e)
    {
      assert e == EdgeRecord(e.source, e.target, e.edgeType, e.props);
    }
  }

  /** A use of a symbol. */
  predicate UsesSymbol(c: Cursor) {
    c.kind in {DeclRefExpr, MemberRefExpr, TypeRef} && c.referenced.Some? && c.referenced.value != ""
  }

  /** The REFERENCES edges of the uses among some paths. */
  function ReferenceEdges(ps: seq<Path>, path: string): seq<EdgeRecord> {
    if ps == [] then
      []
    else
      var p := ps[|ps| - 1];
      var f := EnclosingFunction(p.above, path);
      ReferenceEdges(ps[..|ps| - 1], path)
      + if UsesSymbol(p.cursor) then
          [EdgeRecord(if f.Some? then SymbolUsr(f.value) else FileUsr(path),
                      SymbolUsr(p.cursor.referenced.value), References, NO_PROPS)]
        else
          []
  }

  lemma {:induction false} ReferencesOfPaths(ps: seq<Path>, table: TypeTable, path: string)
    ensures EdgesAtAll(ps, table, path, {References}) == ReferenceEdges(ps, path)
  {
    hide EdgesAt, EnclosingFunction;
    if ps != [] {
      ReferencesOfPaths(ps[..|ps| - 1], table, path);
      ReferencesAt(ps[|ps| - 1], table, path);
    }
  }

  /** The REFERENCES edges of any tree are, in preorder, one for each use of a symbol, from the
      nearest enclosing function of the file, else from the file; none is dropped. */
  lemma {:induction false} ReferencesTheorem(root: Cursor, table: TypeTable, path: string)
    ensures Only(Dedup(Walked(root, table, path).edges), {References}) == ReferenceEdges(Paths(root, []), path)
  {
    hide Walked, EdgesAtAll, Paths, Dedup;
    WalkEdges(root, table, path, {References});
    ReferencesOfPaths(Paths(root, []), path := path, table := table);
    CallsAreNeverEmitted(root, table, path);
  }

  /** What each of some paths yields, one after the other. */
  function Gather(ps: seq<Path>, at: Path -> seq<EdgeRecord>): seq<EdgeRecord> {
    if ps == [] then [] else Gather(ps[..|ps| - 1], at) + at(ps[|ps| - 1])
  }

  lemma {:induction false} GatherEdges(ps: seq<Path>, table: TypeTable, path: string, types: set<EdgeType>,
                                       at: Path -> seq<EdgeRecord>)
    requires forall p :: EdgesAt(p, table, path, types) == at(p)
    ensures EdgesAtAll(ps, table, path, types) == Gather(ps, at)
  {
    hide EdgesAt;
    if ps != [] {
      GatherEdges(ps[..|ps| - 1], table, path, types, at);
    }
  }

  lemma {:induction false} GatherHas(ps: seq<Path>, at: Path -> seq<EdgeRecord>, e: EdgeRecord)
    ensures e in Gather(ps, at) <==> exists p :: p in ps && e in at(p)
  {
    if ps != [] {
      var n := |ps| - 1;
      GatherHas(ps[..n], at, e);
      assert forall p :: p in ps <==> p in ps[..n] || p == ps[n];
    }
  }

  /** The edges of one type that the walk emits, in preorder, and which they are. */
  lemma {:induction false} EdgesOfType(root: Cursor, table: TypeTable, path: string, t: EdgeType,
                                       at: Path -> seq<EdgeRecord>)
    requires t !in GUARDED && forall p :: EdgesAt(p, table, path, {t}) == at(p)
    ensures Only(Walked(root, table, path).edges, {t}) == Gather(Paths(root, []), at)
    ensures forall e: EdgeRecord :: e.edgeType == t ==>
      (e in Walked(root, table, path).edges <==> exists p :: p in Paths(root, []) && e in at(p))
  {
    hide Walked, EdgesAtAll, EdgesAt, Paths, Gather;
    WalkEdges(root, table, path, {t});
    GatherEdges(Paths(root, []), table, path, {t}, at);
    OnlyContains(Walked(root, table, path).edges, {t});
    forall e { GatherHas(Paths(root, []), at, e); }
  }

  /** A base specifier whose base has a definition, and the edge to it. */
  predicate LeadsToBase(base: Cursor, usr: string, e: EdgeRecord) {
    && base.kind == CxxBaseSpecifier && base.baseDefinition.Some? && base.baseDefinition.value != ""
    && e == EdgeRecord(SymbolUsr(usr), SymbolUsr(base.baseDefinition.value), Inherits, map[])
  }

  function InheritsAt(p: Path, path: string): seq<EdgeRecord> {
    if IsSymbol(p.cursor, path) && HasBases(p.cursor.kind) then BaseEdges(p.cursor.usr, p.cursor.children) else []
  }

  /** A visit of a class of the file with this base specifier, and the edge to the base. */
  predicate IsBaseVisit(p: Path, base: Cursor, path: string, e: EdgeRecord) {
    && IsSymbol(p.cursor, path) && p.cursor.kind in {ClassDecl, StructDecl, ClassTemplate}
    && base in p.cursor.children && LeadsToBase(base, p.cursor.usr, e)
  }

  lemma {:induction false} BaseEdgesHave(usr: string, children: seq<Cursor>, e: EdgeRecord)
    ensures e in BaseEdges(usr, children) <==> exists base :: base in children && LeadsToBase(base, usr, e)
  {
    if children != [] {
      var first, rest := children[0], children[1..];
      BaseEdgesHave(usr, rest, e);
      assert e in BaseEdges(usr, children) <==> LeadsToBase(first, usr, e) || e in BaseEdges(usr, rest);
      if e in BaseEdges(usr, rest) {
        var base :| base in rest && LeadsToBase(base, usr, e);
        assert base in children;
      }
      if base :| base in children && LeadsToBase(base, usr, e) {
        assert base == first || base in rest;
      }
    }
  }

  lemma {:induction false} InheritsOfPath(p: Path, table: TypeTable, path: string)
    ensures EdgesAt(p, table, path, {Inherits}) == InheritsAt(p, path)
  {
    hide DirectAll, Only, SymbolOps, StructureEdge, BaseEdges;
    var ctx := ContextAt(p.above, path);
    if IsSymbol(p.cursor, path) {
      SymbolEdges(p.cursor, path, ctx, table, {Inherits});
      StructureType(p.cursor, path, ctx.parent);
    } else {
      OtherEdges(p.cursor, path, ctx, table, {Inherits});
    }
  }

  /** The INHERITS edges of any tree are, in preorder, those of each visit of a class, one for each of
      its bases with a definition, in order: from the class to the base. */
  lemma {:induction false} InheritsTheorem(root: Cursor, table: TypeTable, path: string)
    ensures Only(Walked(root, table, path).edges, {Inherits}) == Gather(Paths(root, []), p => InheritsAt(p, path))
    ensures forall e: EdgeRecord :: e.edgeType == Inherits ==>
      (e in Walked(root, table, path).edges
       <==> exists p, base :: p in Paths(root, []) && IsBaseVisit(p, base, path, e))
  {
    hide Walked, Paths, EdgesAt, BaseEdges, IsSymbol;
    forall p ensures EdgesAt(p, table, path, {Inherits}) == InheritsAt(p, path) {
      InheritsOfPath(p, table, path);
    }
    EdgesOfType(root, table, path, Inherits, p => InheritsAt(p, path));
    forall p: Path, e ensures e in InheritsAt(p, path) <==> exists base :: IsBaseVisit(p, base, path, e) {
      InheritsAtHas(p, path, e);
    }
  }

  lemma {:induction false} InheritsAtHas(p: Path, path: string, e: EdgeRecord)
    ensures e in InheritsAt(p, path) <==> exists base :: IsBaseVisit(p, base, path, e)
  {
    hide BaseEdges, IsSymbol, LeadsToBase;
    BaseEdgesHave(p.cursor.usr, p.cursor.children, e);
    if e in InheritsAt(p, path) {
      var base :| base in p.cursor.children && LeadsToBase(base, p.cursor.usr, e);
      assert IsBaseVisit(p, base, path, e);
    }
  }

  function ReturnsAt(p: Path, table: TypeTable, path: string): seq<EdgeRecord> {
    if IsSymbol(p.cursor, path) && IsFunctionKind(p.cursor.kind) then ReturnEdges(p.cursor, table) else []
  }

  lemma {:induction false} ReturnsOfPath(p: Path, table: TypeTable, path: string)
    ensures EdgesAt(p, table, path, {Returns}) == ReturnsAt(p, table, path)
  {
    hide DirectAll, Only, SymbolOps, StructureEdge, ReturnEdges;
    var ctx := ContextAt(p.above, path);
    if IsSymbol(p.cursor, path) {
      SymbolEdges(p.cursor, path, ctx, table, {Returns});
      StructureType(p.cursor, path, ctx.parent);
    } else {
      OtherEdges(p.cursor, path, ctx, table, {Returns});
    }
  }

  /** A visit of a function of the file whose result type has a spelling, and the edge to the type. */
  predicate IsReturnVisit(p: Path, h: nat, table: TypeTable, path: string, e: EdgeRecord) {
    && IsSymbol(p.cursor, path)
    && p.cursor.kind in {FunctionDecl, CxxMethod, Constructor, Destructor, FunctionTemplate}
    && p.cursor.resultType == Some(h) && h in table && table[h].spelling != ""
    && e == EdgeRecord(SymbolUsr(p.cursor.usr), TypeUsr(table[h].spelling), Returns, map[])
  }

  /** The RETURNS edges of any tree are, in preorder, one for each visit of a function whose result
      type has a spelling: from the function to that type. */
  lemma {:induction false} ReturnsTheorem(root: Cursor, table: TypeTable, path: string)
    ensures Only(Walked(root, table, path).edges, {Returns}) == Gather(Paths(root, []), p => ReturnsAt(p, table, path))
    ensures forall e: EdgeRecord :: e.edgeType == Returns ==>
      (e in Walked(root, table, path).edges
       <==> exists p, h :: p in Paths(root, []) && IsReturnVisit(p, h, table, path, e))
  {
    hide Walked, Paths, EdgesAt, IsSymbol;
    forall p ensures EdgesAt(p, table, path, {Returns}) == ReturnsAt(p, table, path) {
      ReturnsOfPath(p, table, path);
    }
    EdgesOfType(root, table, path, Returns, p => ReturnsAt(p, table, path));
    forall p: Path, e ensures e in ReturnsAt(p, table, path) <==> exists h :: IsReturnVisit(p, h, table, path, e) {
      if e in ReturnsAt(p, table, path) {
        assert IsReturnVisit(p, p.cursor.resultType.value, table, path, e);
      }
    }
  }

  lemma {:induction false} IncludesOfPath(p: Path, table: TypeTable, path: string)
    ensures EdgesAt(p, table, path, {Includes}) == IncludeEdges(p.cursor, path)
  {
    hide DirectAll, Only, SymbolOps, StructureEdge;
    var ctx := ContextAt(p.above, path);
    if IsSymbol(p.cursor, path) {
      SymbolEdges(p.cursor, path, ctx, table, {Includes});
      StructureType(p.cursor, path, ctx.parent);
    } else {
      OtherEdges(p.cursor, path, ctx, table, {Includes});
    }
  }

  /** An inclusion directive that finds its file, and the edge to that file. */
  predicate IsIncludeVisit(p: Path, path: string, e: EdgeRecord) {
    && p.cursor.kind == InclusionDirective && p.cursor.included.Some?
    && e == EdgeRecord(FileUsr(path), FileUsr(p.cursor.included.value), Includes, map[])
  }

  /** The INCLUDES edges of any tree are, in preorder, one for each inclusion directive that finds its
      file, from the exported file to the included one, even within other files. */
  lemma {:induction false} IncludesTheorem(root: Cursor, table: TypeTable, path: string)
    ensures Only(Walked(root, table, path).edges, {Includes})
         == Gather(Paths(root, []), (p: Path) => IncludeEdges(p.cursor, path))
    ensures forall e: EdgeRecord :: e.edgeType == Includes ==>
      (e in Walked(root, table, path).edges <==> exists p :: p in Paths(root, []) && IsIncludeVisit(p, path, e))
  {
    hide Walked, Paths, EdgesAt;
    forall p ensures EdgesAt(p, table, path, {Includes}) == IncludeEdges(p.cursor, path) {
      IncludesOfPath(p, table, path);
    }
    EdgesOfType(root, table, path, Includes, (p: Path) => IncludeEdges(p.cursor, path));
    assert forall p: Path, e :: e in IncludeEdges(p.cursor, path) <==> IsIncludeVisit(p, path, e);
  }

  /** A call expression of the file that is inside a symbol and names a function. */
  predicate IsCallWithin(p: Path, path: string) {
    && p.cursor.kind.CallExpr? && !OtherFile(p.cursor, path)
    && p.cursor.referenced.Some? && p.cursor.referenced.value != ""
    && ParentScope(p.above, path).Some?
  }

  /** The CALLS edges the documentation promises: from the parent symbol of a call expression of
      the file to the function it names. */
  function PromisedCalls(ps: seq<Path>, path: string): seq<EdgeRecord> {
    if ps == [] then
      []
    else
      var p := ps[|ps| - 1];
      var c, parent := p.cursor, ParentScope(p.above, path);
      PromisedCalls(ps[..|ps| - 1], path)
      + if IsCallWithin(p, path) then
          [EdgeRecord(SymbolUsr(parent.value.usr), SymbolUsr(c.referenced.value), Calls, NO_PROPS)]
        else
          []
  }

  lemma {:induction false} PromisedWhen(ps: seq<Path>, path: string)
    ensures PromisedCalls(ps, path) == [] <==> forall p :: p in ps ==> !IsCallWithin(p, path)
  {
    hide ParentScope;
    if ps != [] {
      var n := |ps| - 1;
      PromisedWhen(ps[..n], path);
      assert forall p :: p in ps <==> p in ps[..n] || p == ps[n];
      assert |PromisedCalls(ps, path)| == |PromisedCalls(ps[..n], path)| + if IsCallWithin(ps[n], path) then 1 else 0;
    }
  }

  /** The promise is kept exactly for trees in which no call expression of the file is inside a
      symbol and names its function. */
  lemma {:induction false} CallsPromise(root: Cursor, table: TypeTable, path: string)
    ensures Only(Dedup(Walked(root, table, path).edges), {Calls}) == PromisedCalls(Paths(root, []), path)
       <==> forall p :: p in Paths(root, []) ==> !IsCallWithin(p, path)
  {
    hide Walked, Dedup, Paths, IsCallWithin;
    CallsAreNeverEmitted(root, table, path);
    PromisedWhen(Paths(root, []), path);
  }
}
