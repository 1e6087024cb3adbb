/** The symbol nodes of the extracted graph: those of first visits. */
module ExporterNodes {
  import opened Basics
  import opened GraphRecords
  import opened Cursors
  import opened ExporterSpec
  import opened ExporterPaths
  import opened ExporterIntegrity
  import ExporterTypes

  /** The nodes of symbols, in order. */
  function SymbolNodes(nodes: seq<NodeRecord>): seq<NodeRecord> {
    if nodes == [] then
      []
    else
      var n := |nodes| - 1;
      SymbolNodes(nodes[..n]) + if nodes[n].usr.SymbolUsr? then [nodes[n]] else []
  }

  lemma SymbolNodesSnoc(nodes: seq<NodeRecord>, n: NodeRecord)
    ensures SymbolNodes(nodes + [n]) == SymbolNodes(nodes) + if n.usr.SymbolUsr? then [n] else []
  {
  }

  /** The symbols visited by some paths. */
  function Visited(ps: seq<Path>, path: string): set<string> {
    set p | p in ps && IsSymbol(p.cursor, path) :: p.cursor.usr
  }

  /** A node for each symbol, as its first visit shows it, in the order of first visits. */
  function FirstVisits(ps: seq<Path>, path: string): seq<NodeRecord> {
    if ps == [] then
      []
    else
      var n := |ps| - 1;
      var c := ps[n].cursor;
      FirstVisits(ps[..n], path)
      + if IsSymbol(c, path) && c.usr !in Visited(ps[..n], path) then
          [NodeRecord(Classify(c).value, SymbolUsr(c.usr), c.props)]
        else
          []
  }

  /** Symbols seen, and their nodes, are those of `nodes` and `usrs`. */
  ghost predicate HasSymbols(st: State, nodes: seq<NodeRecord>, usrs: set<string>) {
    && SymbolNodes(st.nodes) == nodes
    && forall s :: SymbolUsr(s) in st.seen <==> s in usrs
  }

  lemma {:induction false} TypesKeepSymbols(st: State, table: TypeTable, h: Option<nat>)
    ensures SymbolNodes(EnsureType(st, table, h).nodes) == SymbolNodes(st.nodes)
    decreases Unseen(table, st.seen)
  {
    var usr := TypeUsrOf(table, h);
    if usr.Some? && usr.value !in st.seen {
      var info := table[h.value];
      var st1 := st.AddNode(NodeRecord(Type, usr.value, info.props));
      assert h.value in Unseen(table, st.seen) && h.value !in Unseen(table, st1.seen);
      SymbolNodesSnoc(st.nodes, NodeRecord(Type, usr.value, info.props));
      if ChainEdge(info.kind).Some? {
        TypesKeepSymbols(st1, table, info.pointee);
      }
    }
  }

  /** Only a declaration of an unseen symbol adds one. */
  lemma {:induction false} DoSymbols(st: State, table: TypeTable, op: Op, nodes: seq<NodeRecord>, usrs: set<string>)
    requires HasSymbols(st, nodes, usrs)
    ensures
      if op.Declare? && op.cursor.usr !in usrs then
        var c := op.cursor;
        HasSymbols(Do(st, table, op), nodes + [NodeRecord(op.nodeType, SymbolUsr(c.usr), c.props)], usrs + {c.usr})
      else
        HasSymbols(Do(st, table, op), nodes, usrs)
  {
    hide EnsureType, TypeUsrOf, SymbolNodes;
    match op
    case Include(source, path) =>
      SymbolNodesSnoc(st.nodes, IncludedNode(path));
    case Emit(edge) =>
    case Declare(c, nodeType) =>
      var node := NodeRecord(nodeType, SymbolUsr(c.usr), c.props);
      SymbolNodesSnoc(st.nodes, node);
      TypesKeepSymbols(st.AddNode(node), table, c.ty);
      TypesSeen(st.AddNode(node), table, c.ty);
    case Return(owner, ty) =>
      TypesKeepSymbols(st, table, ty);
      TypesSeen(st, table, ty);
    case Param(owner, index, arg) =>
      var marked := st.(seen := st.seen + {ParamUsr(owner, index)});
      TypesKeepSymbols(marked, table, arg.ty);
      TypesSeen(marked, table, arg.ty);
      SymbolNodesSnoc(EnsureType(marked, table, arg.ty).nodes,
                      NodeRecord(Parameter, ParamUsr(owner, index), arg.props["index" := Num(index as real)]));
  }

  lemma {:induction false} OthersKeepSymbols(st: State, table: TypeTable, ops: seq<Op>, nodes: seq<NodeRecord>,
                                             usrs: set<string>)
    requires HasSymbols(st, nodes, usrs) && forall op :: op in ops ==> !op.Declare?
    ensures HasSymbols(DoAll(st, table, ops), nodes, usrs)
  {
    hide Do, HasSymbols;
    if ops != [] {
      OthersKeepSymbols(st, table, ops[..|ops| - 1], nodes, usrs);
      DoSymbols(DoAll(st, table, ops[..|ops| - 1]), table, ops[|ops| - 1], nodes, usrs);
    }
  }

  lemma {:induction false} BasesDeclareNothing(usr: string, children: seq<Cursor>)
    ensures forall op :: op in BaseOps(usr, children) ==> !op.Declare?
  {
    if children != [] {
      BasesDeclareNothing(usr, children[1..]);
    }
  }

  /** One visit. */
  lemma {:induction false} VisitSymbols(st: State, table: TypeTable, c: Cursor, path: string, ctx: Context,
                                        nodes: seq<NodeRecord>, usrs: set<string>)
    requires HasSymbols(st, nodes, usrs)
    ensures
      var st' := DoAll(st, table, OwnOps(c, path, ctx));
      if IsSymbol(c, path) && c.usr !in usrs then
        HasSymbols(st', nodes + [NodeRecord(Classify(c).value, SymbolUsr(c.usr), c.props)], usrs + {c.usr})
      else
        HasSymbols(st', nodes, usrs)
  {
    hide Do, DoAll, HasSymbols, BaseOps;
    if IsSymbol(c, path) {
      var node := NodeRecord(Classify(c).value, SymbolUsr(c.usr), c.props);
      var declare := Declare(c, Classify(c).value);
      BasesDeclareNothing(c.usr, c.children);
      DoSymbols(st, table, declare, nodes, usrs);
      var isNew := c.usr !in usrs;
      OthersKeepSymbols(Do(st, table, declare), table, EdgeOps(c, path, ctx),
                        if isNew then nodes + [node] else nodes, if isNew then usrs + {c.usr} else usrs);
      DeclareFirst(st, table, c, path, ctx);
    } else {
      OthersKeepSymbols(st, table, OwnOps(c, path, ctx), nodes, usrs);
    }
  }

  lemma {:induction false} PathsSymbols(st: State, table: TypeTable, ps: seq<Path>, path: string)
    requires HasSymbols(st, [], {})
    ensures HasSymbols(DoAll(st, table, OpsAtAll(ps, path)), FirstVisits(ps, path), Visited(ps, path))
  {
    hide Do, HasSymbols, OwnOps, ContextAt, IsSymbol;
    if ps == [] {
      assert Visited(ps, path) == {};
    } else {
      var n := |ps| - 1;
      var c, ctx := ps[n].cursor, ContextAt(ps[n].above, path);
      PathsSymbols(st, table, ps[..n], path);
      DoAllConcat(st, table, OpsAtAll(ps[..n], path), OpsAt(ps[n], path));
      VisitSymbols(DoAll(st, table, OpsAtAll(ps[..n], path)), table, c, path, ctx,
                   FirstVisits(ps[..n], path), Visited(ps[..n], path));
      assert forall p :: p in ps <==> p in ps[..n] || p == ps[n];
      assert Visited(ps, path) == Visited(ps[..n], path) + if IsSymbol(c, path) then {c.usr} else {};
      if !(IsSymbol(c, path) && c.usr !in Visited(ps[..n], path)) {
        assert Visited(ps, path) == Visited(ps[..n], path);
        assert FirstVisits(ps, path) == FirstVisits(ps[..n], path);
      }
    }
  }

  /** The symbol nodes of any tree are one for each symbol visited, with the type and properties its
      first visit shows, in the order of first visits. */
  lemma {:induction false} FirstVisitTheorem(root: Cursor, table: TypeTable, path: string)
    ensures SymbolNodes(Walked(root, table, path).nodes) == FirstVisits(Paths(root, []), path)
    ensures forall s ::
      SymbolUsr(s) in NodeUsrs(Walked(root, table, path).nodes) <==> s in Visited(Paths(root, []), path)
  {
    hide DoAll, Ops, Paths, OpsAtAll, FirstVisits, Visited;
    assert HasSymbols(Start(path), [], {}) by { SymbolNodesSnoc([], FileNode(path)); }
    ExporterTypes.WalkOpsUnguarded(root, path);
    PathsSymbols(Start(path), table, Paths(root, []), path);
    ReferentialIntegrity(root, table, path);
  }
}
