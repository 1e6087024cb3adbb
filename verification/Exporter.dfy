/** The exporter's recursive walk over a cursor tree, appending to shared lists. */
module Exporter {
  import opened Basics
  import opened GraphRecords
  import opened Cursors
  import opened ExporterSpec

  class Extraction {
    const path: string
    const table: TypeTable
    var nodes: seq<NodeRecord>
    var edges: seq<EdgeRecord>
    var seenUsrs: set<Usr>

    constructor (path: string, table: TypeTable)
      ensures this.path == path && this.table == table
      ensures Lists() == Start(path)
    {
      this.path, this.table := path, table;
      nodes, edges, seenUsrs := [FileNode(path)], [], {FileUsr(path)};
    }

    function Lists(): State
      reads this
    {
      State(nodes, edges, seenUsrs)
    }

    method AppendEdge(source: Usr, edgeType: EdgeType, target: Usr)
      modifies this
      ensures Lists() == old(Lists()).AddEdge(source, edgeType, target)
    {
      edges := edges + [EdgeRecord(source, target, edgeType, map[])];
    }

    /** Makes sure a type has a node; returns its USR, or None if it has no spelling. */
    method GetOrCreateType(h: Option<nat>) returns (usr: Option<Usr>)
      modifies this
      ensures Lists() == EnsureType(old(Lists()), table, h)
      ensures usr == TypeUsrOf(table, h)
      decreases Unseen(table, seenUsrs)
    {
      usr := TypeUsrOf(table, h);
      if usr.None? || usr.value in seenUsrs {
        return;
      }
      var info := table[h.value];
      assert h.value in Unseen(table, seenUsrs);
      seenUsrs := seenUsrs + {usr.value};
      nodes := nodes + [NodeRecord(Type, usr.value, info.props)];
      assert Lists() == old(Lists()).AddNode(NodeRecord(Type, usr.value, info.props));
      if info.kind == Pointer {
        var pointee := GetOrCreateType(info.pointee);
        if pointee.Some? {
          AppendEdge(usr.value, PointsTo, pointee.value);
        }
      } else if info.kind == LValueReference || info.kind == RValueReference {
        var referent := GetOrCreateType(info.pointee);
        if referent.Some? {
          AppendEdge(usr.value, RefersTo, referent.value);
        }
      }
    }

    method EmitInclude(source: Usr, included: string)
      modifies this
      ensures Lists() == Do(old(Lists()), table, Include(source, included))
    {
      var usr := FileUsr(included);
      if usr !in seenUsrs {
        seenUsrs := seenUsrs + {usr};
        nodes := nodes + [IncludedNode(included)];
      }
      AppendEdge(source, Includes, usr);
    }

    method EmitSymbol(c: Cursor, nodeType: Label)
      modifies this
      ensures Lists() == Do(old(Lists()), table, Declare(c, nodeType))
    {
      var usr := SymbolUsr(c.usr);
      if usr !in seenUsrs {
        seenUsrs := seenUsrs + {usr};
        nodes := nodes + [NodeRecord(nodeType, usr, c.props)];
        assert Lists() == old(Lists()).AddNode(NodeRecord(nodeType, usr, c.props));
        if nodeType == Field || nodeType == GlobalVariable {
          var typeUsr := GetOrCreateType(c.ty);
          if typeUsr.Some? {
            AppendEdge(usr, OfType, typeUsr.value);
          }
        }
      }
    }

    method EmitStructure(c: Cursor, parent: Option<Scope>)
      modifies this
      ensures Lists() == Do(old(Lists()), table, Emit(StructureEdge(c, path, parent)))
    {
      var usr := SymbolUsr(c.usr);
      if parent.Some? {
        if IsMemberParent(parent.value.kind) && IsMemberKind(c.kind) {
          var access := ResolveAccess(c.access, parent.value.kind);
          edges := edges + [EdgeRecord(usr, SymbolUsr(parent.value.usr), MemberOf, map["access" := Str(access)])];
        } else {
          AppendEdge(SymbolUsr(parent.value.usr), if c.isDefinition then Defines else Declares, usr);
        }
      } else {
        AppendEdge(FileUsr(path), if c.isDefinition then Defines else Declares, usr);
      }
    }

    method EmitBases(usr: string, children: seq<Cursor>)
      modifies this
      ensures Lists() == DoAll(old(Lists()), table, BaseOps(usr, children))
    {
      hide Do, DoAll;
      ghost var start := Lists();
      assert children[0..] == children;
      for i := 0 to |children|
        invariant DoAll(Lists(), table, BaseOps(usr, children[i..])) == DoAll(start, table, BaseOps(usr, children))
      {
        label before:
        var base := children[i];
        assert children[i..][1..] == children[i + 1..];
        ghost var rest := BaseOps(usr, children[i + 1..]);
        if base.kind.CxxBaseSpecifier? && base.baseDefinition.Some? && base.baseDefinition.value != "" {
          var target := SymbolUsr(base.baseDefinition.value);
          assert BaseOps(usr, children[i..]) == [Emit(EdgeRecord(SymbolUsr(usr), target, Inherits, NO_PROPS))] + rest;
          DoFirst(Lists(), table, Emit(EdgeRecord(SymbolUsr(usr), target, Inherits, NO_PROPS)), rest);
          AppendEdge(SymbolUsr(usr), Inherits, target);
          AppendIsEmit(old@before(Lists()), table, SymbolUsr(usr), Inherits, target);
        } else {
          assert BaseOps(usr, children[i..]) == [] + rest && [] + rest == rest;
        }
      }
      assert children[|children|..] == [];
      DoNothing(Lists(), table);
    }

    method EmitCalls(c: Cursor, parent: Option<Scope>)
      modifies this
      ensures Lists() == DoAll(old(Lists()), table, CallOps(c, parent))
    {
      if c.kind.CallExpr? {
        if c.referenced.Some? && c.referenced.value != "" && parent.Some? {
          var edge := EdgeRecord(SymbolUsr(parent.value.usr), SymbolUsr(c.referenced.value), Calls, NO_PROPS);
          DoFirst(Lists(), table, Emit(edge), []);
          edges := edges + [edge];
        }
      }
    }

    method EmitReturn(owner: string, ty: Option<nat>)
      modifies this
      ensures Lists() == Do(old(Lists()), table, Return(owner, ty))
    {
      var typeUsr := GetOrCreateType(ty);
      if typeUsr.Some? {
        AppendEdge(SymbolUsr(owner), Returns, typeUsr.value);
      }
    }

    method EmitParam(owner: string, index: nat, arg: Arg)
      modifies this
      ensures Lists() == Do(old(Lists()), table, Param(owner, index, arg))
    {
      var usr := ParamUsr(owner, index);
      if usr !in seenUsrs {
        seenUsrs := seenUsrs + {usr};
        assert Lists() == old(Lists()).(seen := old(seenUsrs) + {usr});
        var typeUsr := GetOrCreateType(arg.ty);
        assert usr in seenUsrs by { TypesSeen(old(Lists()).(seen := old(seenUsrs) + {usr}), table, arg.ty); }
        nodes := nodes + [NodeRecord(Parameter, usr, arg.props["index" := Num(index as real)])];
        assert seenUsrs == seenUsrs + {usr};
        edges := edges + [EdgeRecord(SymbolUsr(owner), usr, HasParam, map["index" := Num(index as real)])];
        if typeUsr.Some? {
          AppendEdge(usr, OfType, typeUsr.value);
        }
      }
    }

    method EmitParams(owner: string, args: seq<Arg>)
      modifies this
      ensures Lists() == DoAll(old(Lists()), table, ParamOps(owner, args))
    {
      hide Do;
      ghost var start := Lists();
      for i := 0 to |args|
        invariant Lists() == DoAll(start, table, ParamOps(owner, args)[..i])
      {
        EmitParam(owner, i, args[i]);
        assert ParamOps(owner, args)[..i + 1][..i] == ParamOps(owner, args)[..i];
      }
      assert ParamOps(owner, args)[..|args|] == ParamOps(owner, args);
    }

    /** Everything recorded for a symbol before its children are walked. */
    method EmitAllFor(c: Cursor, nodeType: Label, ctx: Context)
      requires Classify(c) == Some(nodeType)
      modifies this
      ensures Lists() == DoAll(old(Lists()), table, SymbolOps(c, path, ctx))
    {
      hide Do, DoAll, BaseOps, CallOps, ParamOps;
      DeclareFirst(Lists(), table, c, path, ctx);
      EmitSymbol(c, nodeType);
      ghost var start := Lists();
      EmitStructure(c, ctx.parent);
      ghost var structure := [Emit(StructureEdge(c, path, ctx.parent))];
      DoOne(start, table, structure[0]);
      ghost var bases := if HasBases(c.kind) then BaseOps(c.usr, c.children) else [];
      DoNothing(Lists(), table);
      if HasBases(c.kind) {
        EmitBases(c.usr, c.children);
      }
      DoAllConcat(start, table, structure, bases);
      EmitCalls(c, ctx.parent);
      DoAllConcat(start, table, structure + bases, CallOps(c, ctx.parent));
      DoAllConcat(start, table, structure + bases + CallOps(c, ctx.parent), FunctionOps(c));
      DoNothing(Lists(), table);
      if IsFunctionKind(c.kind) {
        ghost var before := Lists();
        EmitReturn(c.usr, c.resultType);
        DoFirst(before, table, Return(c.usr, c.resultType), ParamOps(c.usr, c.args));
        EmitParams(c.usr, c.args);
      }
    }

    method WalkCursor(c: Cursor, ctx: Context)
      modifies this
      ensures Lists() == DoAll(old(Lists()), table, Ops(c, path, ctx))
      decreases c, 1
    {
      hide Do, DoAll, OpsOf, SymbolOps;
      ghost var start := Lists();
      if c.kind.ParmDecl? {
        DoNothing(start, table);
        return;
      }
      if c.kind.InclusionDirective? {
        DoNothing(start, table);
        assert Ops(c, path, ctx) == OwnOps(c, path, ctx);
        if c.included.Some? {
          EmitInclude(FileUsr(path), c.included.value);
          DoFirst(start, table, Include(FileUsr(path), c.included.value), []);
        }
        return;
      }
      DoAllConcat(start, table, OwnOps(c, path, ctx), OpsOf(c.children, path, Below(c, path, ctx)));
      DoNothing(start, table);
      if IsReferenceKind(c.kind) {
        if c.referenced.Some? && c.referenced.value != "" {
          var source := if ctx.enclosing.Some? then SymbolUsr(ctx.enclosing.value) else FileUsr(path);
          var target := SymbolUsr(c.referenced.value);
          DoOne(start, table, Emit(EdgeRecord(source, target, References, NO_PROPS)));
          AppendEdge(source, References, target);
          AppendIsEmit(start, table, source, References, target);
        }
        WalkChildren(c.children, ctx);
        return;
      }
      if c.file != "" && c.file != path {
        WalkChildren(c.children, ctx.(parent := None));
        return;
      }
      var nodeType := Classify(c);
      if nodeType.Some? && c.usr != "" {
        EmitAllFor(c, nodeType.value, ctx);
        var enclosing := if IsFunctionKind(c.kind) then Some(c.usr) else ctx.enclosing;
        WalkChildren(c.children, Context(Some(Scope(c.usr, c.kind)), enclosing));
      } else {
        WalkChildren(c.children, ctx);
      }
    }

    /** The loop over a cursor's children. */
    method WalkChildren(cs: seq<Cursor>, ctx: Context)
      modifies this
      ensures Lists() == DoAll(old(Lists()), table, OpsOf(cs, path, ctx))
      decreases cs, 0
    {
      hide Do, Ops;
      ghost var start := Lists();
      for i := 0 to |cs|
        invariant Lists() == DoAll(start, table, OpsOf(cs[..i], path, ctx))
      {
        WalkCursor(cs[i], ctx);
        assert cs[..i + 1][..i] == cs[..i];
        DoAllConcat(start, table, OpsOf(cs[..i], path, ctx), Ops(cs[i], path, ctx));
      }
      assert cs[..|cs|] == cs;
    }
  }

  /** The nodes and edges of one translation unit. */
  method ExtractNodesAndEdges(root: Cursor, table: TypeTable, path: string)
    returns (nodes: seq<NodeRecord>, edges: seq<EdgeRecord>)
    ensures nodes == Walked(root, table, path).nodes
    ensures edges == Dedup(Walked(root, table, path).edges)
  {
    var x := new Extraction(path, table);
    x.WalkCursor(root, TOP);
    nodes, edges := x.nodes, x.edges;
    var pairs := CallPairs(edges);
    if pairs != {} {
      edges := WithoutCovered(edges, pairs);
    }
  }

  lemma AppendIsEmit(st: State, table: TypeTable, source: Usr, edgeType: EdgeType, target: Usr)
    ensures st.AddEdge(source, edgeType, target) == Do(st, table, Emit(EdgeRecord(source, target, edgeType, NO_PROPS)))
  {
  }
}
