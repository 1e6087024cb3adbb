/** What the exporter's walk does to the lists it builds, as functions. The walk over a tree is a
    list of operations; each operation is applied to the lists in turn. */
module ExporterSpec {
  import opened Basics
  import opened GraphRecords
  import opened Cursors

  /** The shared lists: emitted nodes and edges, and the USRs seen. */
  datatype State = State(nodes: seq<NodeRecord>, edges: seq<EdgeRecord>, seen: set<Usr>)
  {
    function AddNode(n: NodeRecord): State {
      State(nodes + [n], edges, seen + {n.usr})
    }

    function AddEdge(source: Usr, edgeType: EdgeType, target: Usr): State {
      this.(edges := edges + [EdgeRecord(source, target, edgeType, map[])])
    }

    function AddEdgeIf(source: Usr, edgeType: EdgeType, target: Option<Usr>): State {
      if target.Some? then AddEdge(source, edgeType, target.value) else this
    }
  }

  // ------------------------------------------------------------------
  // Types
  // ------------------------------------------------------------------

  /** The types of a table that have no node yet. */
  function Unseen(table: TypeTable, seen: set<Usr>): set<nat> {
    set h | h in table && TypeUsr(table[h].spelling) !in seen
  }

  /** The edge type from a type to its pointee or referent. */
  function ChainEdge(kind: TypeKind): Option<EdgeType> {
    match kind
    case Pointer => Some(PointsTo)
    case LValueReference => Some(RefersTo)
    case RValueReference => Some(RefersTo)
    case OtherType => None
  }

  /** A type's node, and those of its pointees: created where unseen, pointees before the edge. */
  function EnsureType(st: State, table: TypeTable, h: Option<nat>): State
    decreases Unseen(table, st.seen)
  {
    var usr := TypeUsrOf(table, h);
    if usr.None? || usr.value in st.seen then
      st
    else
      var info := table[h.value];
      var st1 := st.AddNode(NodeRecord(Type, usr.value, info.props));
      assert h.value in Unseen(table, st.seen) && h.value !in Unseen(table, st1.seen);
      match ChainEdge(info.kind)
      case None => st1
      case Some(edgeType) =>
        EnsureType(st1, table, info.pointee).AddEdgeIf(usr.value, edgeType, TypeUsrOf(table, info.pointee))
  }

  /** Creating types marks only types as seen. */
  lemma {:induction false} TypesSeen(st: State, table: TypeTable, h: Option<nat>)
    ensures st.seen <= EnsureType(st, table, h).seen
    ensures forall u: Usr :: u in EnsureType(st, table, h).seen && u !in st.seen ==> u.TypeUsr?
    ensures TypeUsrOf(table, h).Some? ==> TypeUsrOf(table, h).value in EnsureType(st, table, h).seen
    decreases Unseen(table, st.seen)
  {
    var usr := TypeUsrOf(table, h);
    if usr.Some? && usr.value !in st.seen {
      var info := table[h.value];
      var st1 := st.AddNode(NodeRecord(Type, usr.value, info.props));
      assert h.value in Unseen(table, st.seen) && h.value !in Unseen(table, st1.seen);
      TypesSeen(st1, table, info.pointee);
    }
  }

  // ------------------------------------------------------------------
  // Operations
  // ------------------------------------------------------------------

  datatype Op =
    | Include(source: Usr, path: string)
    | Emit(edge: EdgeRecord)
    | Declare(cursor: Cursor, nodeType: Label)
    | Return(owner: string, ty: Option<nat>)
    | Param(owner: string, index: nat, arg: Arg)

  const NO_PROPS: Props := map[]

  const SCHEMA_VERSION := Str("v2")

  function IncludedNode(path: string): NodeRecord {
    var props := map["path" := Str(path), "spelling" := Str(path), "schema_version" := SCHEMA_VERSION];
    NodeRecord(File, FileUsr(path), props)
  }

  function IncludeFile(st: State, source: Usr, path: string): State {
    var usr := FileUsr(path);
    var st1 := if usr in st.seen then st else st.AddNode(IncludedNode(path));
    st1.AddEdge(source, Includes, usr)
  }

  predicate HasOwnType(nodeType: Label) {
    nodeType == Field || nodeType == GlobalVariable
  }

  function DeclareSymbol(st: State, table: TypeTable, c: Cursor, nodeType: Label): State {
    var usr := SymbolUsr(c.usr);
    if usr in st.seen then
      st
    else
      var st1 := st.AddNode(NodeRecord(nodeType, usr, c.props));
      if HasOwnType(nodeType) then
        EnsureType(st1, table, c.ty).AddEdgeIf(usr, OfType, TypeUsrOf(table, c.ty))
      else
        st1
  }

  /** The parameter's USR is marked seen before its type is created, its node appended after. */
  function DeclareParam(st: State, table: TypeTable, owner: string, index: nat, arg: Arg): State {
    var usr := ParamUsr(owner, index);
    if usr in st.seen then
      st
    else
      var typed := EnsureType(st.(seen := st.seen + {usr}), table, arg.ty);
      var st1 := typed.AddNode(NodeRecord(Parameter, usr, arg.props["index" := Num(index as real)]));
      var hasParam := EdgeRecord(SymbolUsr(owner), usr, HasParam, map["index" := Num(index as real)]);
      st1.(edges := st1.edges + [hasParam]).AddEdgeIf(usr, OfType, TypeUsrOf(table, arg.ty))
  }

  function Do(st: State, table: TypeTable, op: Op): State {
    match op
    case Include(source, path) => IncludeFile(st, source, path)
    case Emit(edge) => st.(edges := st.edges + [edge])
    case Declare(c, nodeType) => DeclareSymbol(st, table, c, nodeType)
    case Return(owner, ty) =>
      EnsureType(st, table, ty).AddEdgeIf(SymbolUsr(owner), Returns, TypeUsrOf(table, ty))
    case Param(owner, index, arg) => DeclareParam(st, table, owner, index, arg)
  }

  function DoAll(st: State, table: TypeTable, ops: seq<Op>): State {
    if ops == [] then st else Do(DoAll(st, table, ops[..|ops| - 1]), table, ops[|ops| - 1])
  }

  lemma {:induction false} DoAllConcat(st: State, table: TypeTable, a: seq<Op>, b: seq<Op>)
    ensures DoAll(st, table, a + b) == DoAll(DoAll(st, table, a), table, b)
    decreases |b|
  {
    if b == [] {
      assert a + b == a;
    } else {
      assert (a + b)[..|a + b| - 1] == a + b[..|b| - 1];
      DoAllConcat(st, table, a, b[..|b| - 1]);
    }
  }

  lemma DoNothing(st: State, table: TypeTable)
    ensures DoAll(st, table, []) == st
  {
  }

  lemma DoOne(st: State, table: TypeTable, op: Op)
    ensures DoAll(st, table, [op]) == Do(st, table, op)
  {
  }

  lemma {:induction false} DoFirst(st: State, table: TypeTable, op: Op, rest: seq<Op>)
    ensures DoAll(st, table, [op] + rest) == DoAll(Do(st, table, op), table, rest)
    ensures DoAll(st, table, [op]) == Do(st, table, op)
    ensures [op] + [] == [op]
  {
    DoAllConcat(st, table, [op], rest);
    DoOne(st, table, op);
  }

  // ------------------------------------------------------------------
  // The walk
  // ------------------------------------------------------------------

  /** A named scope: a classified cursor's USR and kind. */
  datatype Scope = Scope(usr: string, kind: Kind)

  /** What the walk hands down: the parent symbol, and the enclosing function. */
  datatype Context = Context(parent: Option<Scope>, enclosing: Option<string>)

  const TOP := Context(None, None)

  predicate OtherFile(c: Cursor, path: string) {
    c.file != "" && c.file != path
  }

  /** The walk does not look below these. */
  predicate IsCut(c: Cursor) {
    c.kind.ParmDecl? || c.kind.InclusionDirective?
  }

  /** A cursor that becomes a node. */
  predicate IsSymbol(c: Cursor, path: string) {
    && !IsCut(c) && !IsReferenceKind(c.kind) && !OtherFile(c, path)
    && Classify(c).Some? && c.usr != ""
  }

  /** Which cursors become nodes: those of the file, or of no file, with a USR and one of these kinds.
      Parameters are labelled, but made from their function. */
  lemma SymbolKinds(c: Cursor, path: string)
    ensures IsSymbol(c, path) <==>
      && (c.file == "" || c.file == path) && c.usr != ""
      && c.kind in {NamespaceDecl, ClassDecl, StructDecl, ClassTemplate, UnionDecl, FunctionDecl, CxxMethod,
                    Constructor, Destructor, FunctionTemplate, VarDecl, FieldDecl, MacroDefinition, TypedefDecl,
                    TypeAliasDecl, TypeAliasTemplateDecl}
  {
  }

  /** The context for a cursor's children. */
  function Below(c: Cursor, path: string, ctx: Context): Context {
    if IsReferenceKind(c.kind) then
      ctx
    else if OtherFile(c, path) then
      ctx.(parent := None)
    else if IsSymbol(c, path) then
      Context(Some(Scope(c.usr, c.kind)), if IsFunctionKind(c.kind) then Some(c.usr) else ctx.enclosing)
    else
      ctx
  }

  function FunctionOrFile(ctx: Context, path: string): Usr {
    if ctx.enclosing.Some? then SymbolUsr(ctx.enclosing.value) else FileUsr(path)
  }

  /** The edge between a symbol and its parent, or the file. */
  function StructureEdge(c: Cursor, path: string, parent: Option<Scope>): EdgeRecord {
    var usr := SymbolUsr(c.usr);
    if parent.Some? && IsMemberParent(parent.value.kind) && IsMemberKind(c.kind) then
      var access := Str(ResolveAccess(c.access, parent.value.kind));
      EdgeRecord(usr, SymbolUsr(parent.value.usr), MemberOf, map["access" := access])
    else
      var source := if parent.Some? then SymbolUsr(parent.value.usr) else FileUsr(path);
      EdgeRecord(source, usr, if c.isDefinition then Defines else Declares, NO_PROPS)
  }

  function BaseOps(usr: string, children: seq<Cursor>): seq<Op> {
    if children == [] then
      []
    else
      var base := children[0];
      var edges :=
        if base.kind.CxxBaseSpecifier? && base.baseDefinition.Some? && base.baseDefinition.value != "" then
          [Emit(EdgeRecord(SymbolUsr(usr), SymbolUsr(base.baseDefinition.value), Inherits, NO_PROPS))]
        else
          [];
      edges + BaseOps(usr, children[1..])
  }

  function CallOps(c: Cursor, parent: Option<Scope>): seq<Op> {
    if c.kind.CallExpr? && c.referenced.Some? && c.referenced.value != "" && parent.Some? then
      [Emit(EdgeRecord(SymbolUsr(parent.value.usr), SymbolUsr(c.referenced.value), Calls, NO_PROPS))]
    else
      []
  }

  function ParamOps(owner: string, args: seq<Arg>): seq<Op> {
    seq(|args|, i requires 0 <= i < |args| => Param(owner, i, args[i]))
  }

  function FunctionOps(c: Cursor): seq<Op> {
    if IsFunctionKind(c.kind) then [Return(c.usr, c.resultType)] + ParamOps(c.usr, c.args) else []
  }

  function SymbolOps(c: Cursor, path: string, ctx: Context): seq<Op>
    requires Classify(c).Some?
  {
    [Declare(c, Classify(c).value)] + EdgeOps(c, path, ctx)
  }

  /** What is recorded for a symbol at every visit, after its node at the first. */
  function EdgeOps(c: Cursor, path: string, ctx: Context): seq<Op> {
    [Emit(StructureEdge(c, path, ctx.parent))]
    + (if HasBases(c.kind) then BaseOps(c.usr, c.children) else [])
    + CallOps(c, ctx.parent)
    + FunctionOps(c)
  }

  lemma {:induction false} DeclareFirst(st: State, table: TypeTable, c: Cursor, path: string, ctx: Context)
    requires Classify(c).Some?
    ensures DoAll(st, table, SymbolOps(c, path, ctx))
         == DoAll(Do(st, table, Declare(c, Classify(c).value)), table, EdgeOps(c, path, ctx))
  {
    DoFirst(st, table, Declare(c, Classify(c).value), EdgeOps(c, path, ctx));
  }

  /** What the walk does at one cursor, before its children. */
  function OwnOps(c: Cursor, path: string, ctx: Context): seq<Op> {
    if c.kind.ParmDecl? then
      []
    else if c.kind.InclusionDirective? then
      if c.included.Some? then [Include(FileUsr(path), c.included.value)] else []
    else if IsReferenceKind(c.kind) then
      if c.referenced.Some? && c.referenced.value != "" then
        [Emit(EdgeRecord(FunctionOrFile(ctx, path), SymbolUsr(c.referenced.value), References, NO_PROPS))]
      else
        []
    else if IsSymbol(c, path) then
      SymbolOps(c, path, ctx)
    else
      []
  }

  function Ops(c: Cursor, path: string, ctx: Context): seq<Op>
    decreases c, 1
  {
    OwnOps(c, path, ctx) + if IsCut(c) then [] else OpsOf(c.children, path, Below(c, path, ctx))
  }

  function OpsOf(cs: seq<Cursor>, path: string, ctx: Context): seq<Op>
    decreases cs, 0
  {
    if cs == [] then [] else OpsOf(cs[..|cs| - 1], path, ctx) + Ops(cs[|cs| - 1], path, ctx)
  }

  // ------------------------------------------------------------------
  // Extraction
  // ------------------------------------------------------------------

  /** The last part of a path. */
  function FileName(path: string): string {
    if path == "" || path[|path| - 1] == '/' then "" else FileName(path[..|path| - 1]) + [path[|path| - 1]]
  }

  function FileNode(path: string): NodeRecord {
    var props := map["path" := Str(path), "spelling" := Str(FileName(path)), "schema_version" := SCHEMA_VERSION];
    NodeRecord(File, FileUsr(path), props)
  }

  lemma {:induction false} FileNameIs(path: string)
    ensures
      var name := FileName(path);
      && |name| <= |path| && path[|path| - |name|..] == name && '/' !in name
      && (|name| < |path| ==> path[|path| - |name| - 1] == '/')
  {
    if path != "" && path[|path| - 1] != '/' {
      FileNameIs(path[..|path| - 1]);
    }
  }

  /** The exported file and an included one differ in their spelling: a name and a whole path. */
  lemma FileNodes(path: string)
    ensures FileNode(path).props.Keys == IncludedNode(path).props.Keys == {"path", "spelling", "schema_version"}
    ensures FileNode(path) == IncludedNode(path) <==> FileName(path) == path
    ensures IncludedNode(path).props["path"] == IncludedNode(path).props["spelling"] == Str(path)
    ensures IncludedNode(path).props["schema_version"] == Str("v2")
  {
    assert FileNode(path).props["spelling"] == Str(FileName(path));
    assert IncludedNode(path) == IncludedNode(path).(props := FileNode(path).props["spelling" := Str(path)]);
  }

  function Start(path: string): State {
    State([FileNode(path)], [], {FileUsr(path)})
  }

  function Walked(root: Cursor, table: TypeTable, path: string): State {
    DoAll(Start(path), table, Ops(root, path, TOP))
  }

  function CallPairs(edges: seq<EdgeRecord>): set<(Usr, Usr)> {
    set e | e in edges && e.edgeType == Calls :: (e.source, e.target)
  }

  function WithoutCovered(edges: seq<EdgeRecord>, pairs: set<(Usr, Usr)>): seq<EdgeRecord> {
    if edges == [] then
      []
    else
      var n := |edges| - 1;
      var e := edges[n];
      WithoutCovered(edges[..n], pairs) + if e.edgeType == References && (e.source, e.target) in pairs then [] else [e]
  }

  /** REFERENCES edges that repeat a CALLS edge are dropped. */
  function Dedup(edges: seq<EdgeRecord>): seq<EdgeRecord> {
    if CallPairs(edges) == {} then edges else WithoutCovered(edges, CallPairs(edges))
  }
}
