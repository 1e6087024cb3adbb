/** Small trees for which documented promises fail. */
module ExporterExamples {
  import opened Basics
  import opened GraphRecords
  import opened GraphStore
  import opened Cursors
  import opened ExporterSpec
  import opened ExporterPaths
  import opened Ingest
  import Convergence
  import ExportToStore

  /** A cursor with nothing but these; what it refers to, "" for none, has a definition. */
  function Plain(kind: Kind, usr: string, file: string, referenced: string, children: seq<Cursor>): Cursor {
    Cursor(kind, usr, file, map[], true, false, Unspecified, None, None, [],
           if referenced == "" then None else Some(referenced), None, None, children)
  }

  function Unit(child: Cursor): Cursor {
    Plain(OtherKind("TRANSLATION_UNIT"), "", "", "", [child])
  }

  lemma {:induction false} UnitOps(child: Cursor, path: string)
    ensures Ops(Unit(child), path, TOP) == Ops(child, path, TOP)
  {
    OneChildOps(child, path, TOP);
  }

  lemma {:induction false} OneChildOps(child: Cursor, path: string, ctx: Context)
    ensures OpsOf([child], path, ctx) == Ops(child, path, ctx)
    ensures OpsOf([], path, ctx) == []
  {
    assert [child][..0] == [];
  }

  // ------------------------------------------------------------------
  // A forward reference
  // ------------------------------------------------------------------

  const B := "c:@F@b#"
  const USES_B := Unit(Plain(DeclRefExpr, "", "a.cpp", B, []))
  const DEFINES_B := Unit(FUNCTION_B)
  const USE := EdgeRecord(FileUsr("a.cpp"), SymbolUsr(B), References, map[])

  lemma {:induction false} UsesExtracted()
    ensures ExportToStore.Extract(USES_B, map[], "a.cpp") == Batch([FileNode("a.cpp")], [USE])
  {
    var ref := Plain(DeclRefExpr, "", "a.cpp", B, []);
    UnitOps(ref, "a.cpp");
    OneChildOps(ref, "a.cpp", TOP);
    assert Ops(ref, "a.cpp", TOP) == [Emit(USE)];
    DoOne(Start("a.cpp"), map[], Emit(USE));
    CallsAreNeverEmitted(USES_B, map[], "a.cpp");
  }

  const FUNCTION_B := Plain(FunctionDecl, B, "b.cpp", "", [])
  const NODE_B := NodeRecord(Function, SymbolUsr(B), map[])
  const DEFINES := EdgeRecord(FileUsr("b.cpp"), SymbolUsr(B), Defines, map[])

  lemma {:induction false} DefinesOps()
    ensures Ops(DEFINES_B, "b.cpp", TOP) == [Declare(FUNCTION_B, Function)] + ([Emit(DEFINES)] + [Return(B, None)])
  {
    hide ParamOps;
    UnitOps(FUNCTION_B, "b.cpp");
    OneChildOps(FUNCTION_B, "b.cpp", Below(FUNCTION_B, "b.cpp", TOP));
    assert ParamOps(B, []) == [] by { NoParamOps(B); }
    assert StructureEdge(FUNCTION_B, "b.cpp", None) == DEFINES;
  }

  lemma NoParamOps(owner: string)
    ensures ParamOps(owner, []) == []
  {
  }

  lemma {:induction false} DefinesExtracted()
    ensures ExportToStore.Extract(DEFINES_B, map[], "b.cpp") == Batch([FileNode("b.cpp"), NODE_B], [DEFINES])
  {
    hide DoAll, Ops, Dedup, DEFINES_B;
    var declare, emit, ret := Declare(FUNCTION_B, Function), Emit(DEFINES), Return(B, None);
    var st := Start("b.cpp");
    var st1 := State([FileNode("b.cpp"), NODE_B], [], {FileUsr("b.cpp"), SymbolUsr(B)});
    DefinesOps();
    DoFirst(st, map[], declare, [emit] + [ret]);
    assert Do(st, map[], declare) == st1;
    DoFirst(st1, map[], emit, [ret]);
    DoOne(st1.(edges := [DEFINES]), map[], ret);
    assert Do(st1, map[], emit) == st1.(edges := [DEFINES]);
    CallsAreNeverEmitted(DEFINES_B, map[], "b.cpp");
  }

  /** One file refers to a function the next one defines: the first pass loses the reference, the
      second stores it. */
  lemma {:induction false} ForwardReferenceNeedsTwo()
    ensures
      var a := ExportToStore.Extract(USES_B, map[], "a.cpp");
      var b := ExportToStore.Extract(DEFINES_B, map[], "b.cpp");
      var once := Pass(EMPTY, [a, b]);
      && USE in a.edges
      && KeyOf(USE) !in once.edges
      && KeyOf(USE) in Pass(once, [a, b]).edges
  {
    hide Pass, ExportToStore.Extract, USES_B, DEFINES_B;
    UsesExtracted();
    DefinesExtracted();
    var a := ExportToStore.Extract(USES_B, map[], "a.cpp");
    var b := ExportToStore.Extract(DEFINES_B, map[], "b.cpp");
    assert NodeUsrs(a.nodes) == {FileUsr("a.cpp")};
    assert NodeUsrs(b.nodes) == {FileUsr("b.cpp"), SymbolUsr(B)} by { assert b.nodes[1] in b.nodes; }
    LostAndFound(a, b);
  }

  lemma {:induction false} LostAndFound(a: Batch, b: Batch)
    requires NodeUsrs(a.nodes) == {FileUsr("a.cpp")} && SymbolUsr(B) in NodeUsrs(b.nodes)
    requires USE in a.edges && forall r :: r in b.edges ==> r.edgeType != References
    ensures KeyOf(USE) !in Pass(EMPTY, [a, b]).edges
    ensures KeyOf(USE) in Pass(Pass(EMPTY, [a, b]), [a, b]).edges
  {
    hide Pass, Convergence.InTime, NodeUsrs;
    var files := [a, b];
    NotInTime(a, b);
    Convergence.PassStores(EMPTY, files, KeyOf(USE));
    assert [] + [a] == [a] && [a] + [b] == files;
    Convergence.AllSnoc([], a);
    Convergence.AllSnoc([a], b);
    Convergence.TwoPassesConverge(EMPTY, files);
  }

  lemma {:induction false} NotInTime(a: Batch, b: Batch)
    requires NodeUsrs(a.nodes) == {FileUsr("a.cpp")}
    requires forall r :: r in b.edges ==> r.edgeType != References
    ensures !Convergence.InTime(EMPTY, [a, b], KeyOf(USE))
  {
    assert [a, b][..1] == [a] && [] + [a] == [a];
    Convergence.AllSnoc([], a);
  }

  // ------------------------------------------------------------------
  // A call
  // ------------------------------------------------------------------

  const F := "c:@F@f#"
  const G := "c:@F@g#"
  const CALL_OF_G := Plain(CallExpr, "", "a.cpp", G, [])
  const CALLER := Plain(FunctionDecl, F, "a.cpp", "", [CALL_OF_G])
  const PROMISED := EdgeRecord(SymbolUsr(F), SymbolUsr(G), Calls, NO_PROPS)

  const CALL_PATH := Path([Unit(CALLER), CALLER], CALL_OF_G)

  /** A function calls another: the CALLS edge the documentation promises is not extracted. */
  lemma {:induction false} CallIsMissing()
    ensures PROMISED in PromisedCalls(Paths(Unit(CALLER), []), "a.cpp")
    ensures PROMISED !in ExportToStore.Extract(Unit(CALLER), map[], "a.cpp").edges
  {
    hide Walked, Dedup, Paths, PromisedCalls, Only;
    var root := Unit(CALLER);
    CallPaths();
    CallIsPromised();
    PromisedLast([Path([], root), Path([root], CALLER)], CALL_PATH, "a.cpp");
    assert [Path([], root), Path([root], CALLER)] + [CALL_PATH] == [Path([], root), Path([root], CALLER), CALL_PATH];
    CallsAreNeverEmitted(root, map[], "a.cpp");
    OnlyContains(Walked(root, map[], "a.cpp").edges, {Calls});
  }

  lemma {:induction false} CallPaths()
    ensures Paths(Unit(CALLER), []) == [Path([], Unit(CALLER)), Path([Unit(CALLER)], CALLER), CALL_PATH]
  {
    var root := Unit(CALLER);
    OneChildPaths(CALL_OF_G, [root, CALLER]);
    OneChildPaths(CALLER, [root]);
    assert PathsOf([], [root, CALLER, CALL_OF_G]) == [];
    assert [] + [root] == [root] && [root] + [CALLER] == [root, CALLER];
  }

  lemma {:induction false} CallIsPromised()
    ensures IsCallWithin(CALL_PATH, "a.cpp")
    ensures ParentScope(CALL_PATH.above, "a.cpp") == Some(Scope(F, FunctionDecl))
  {
    var i := LastIndex(CALL_PATH.above, c => Decides(c, "a.cpp"));
    assert Decides(CALL_PATH.above[1], "a.cpp") && i == 1;
  }

  lemma PromisedLast(before: seq<Path>, p: Path, path: string)
    requires IsCallWithin(p, path)
    ensures
      var parent := ParentScope(p.above, path).value;
      EdgeRecord(SymbolUsr(parent.usr), SymbolUsr(p.cursor.referenced.value), Calls, NO_PROPS)
      in PromisedCalls(before + [p], path)
  {
    assert (before + [p])[..|before|] == before;
  }

  lemma {:induction false} OneChildPaths(child: Cursor, above: seq<Cursor>)
    ensures PathsOf([child], above) == Paths(child, above)
  {
    assert [child][..0] == [];
  }
}
