/** What repeated passes over a list of files leave in the store. */
module Convergence {
  import opened Basics
  import opened GraphRecords
  import opened GraphStore
  import opened IndraDriver
  import opened Ingest

  /** The vertices of all the files. */
  function AllUsrs(files: seq<Batch>): set<Usr> {
    set b, n | b in files && n in b.nodes :: n.usr
  }

  /** The edges of all the files, those with missing endpoints included. */
  function AllKeys(files: seq<Batch>): set<EdgeKey> {
    set b, e | b in files && e in b.edges :: KeyOf(e)
  }

  ghost predicate WritesEdge(ws: seq<Write>, e: EdgeKey) {
    exists i :: 0 <= i < |ws| && ws[i].Edge? && KeyOf(ws[i].edge) == e
  }

  lemma {:induction false} ConcatWrites(a: seq<Write>, b: seq<Write>, e: EdgeKey)
    ensures Added(a + b) == Added(a) + Added(b)
    ensures WritesEdge(a + b, e) <==> WritesEdge(a, e) || WritesEdge(b, e)
  {
    var c := a + b;
    assert forall i :: 0 <= i < |a| ==> c[i] == a[i];
    assert forall i :: 0 <= i < |b| ==> c[|a| + i] == b[i];
    assert Added(c) <= Added(a) + Added(b);
    forall u | u in Added(a) ensures u in Added(c) {
      var i :| 0 <= i < |a| && a[i].Vertex? && a[i].node.usr == u;
      assert c[i].Vertex? && c[i].node.usr == u;
    }
    forall u | u in Added(b) ensures u in Added(c) {
      var i :| 0 <= i < |b| && b[i].Vertex? && b[i].node.usr == u;
      assert c[|a| + i].Vertex? && c[|a| + i].node.usr == u;
    }
    if WritesEdge(b, e) {
      var i :| 0 <= i < |b| && b[i].Edge? && KeyOf(b[i].edge) == e;
      assert c[|a| + i].Edge? && KeyOf(c[|a| + i].edge) == e;
    }
  }

  lemma {:induction false} FileWritesWhat(b: Batch, e: EdgeKey)
    ensures Added(Vertices(b.nodes)) == NodeUsrs(b.nodes) && Added(Edges(b.edges)) == {}
    ensures Added(FileWrites(b)) == NodeUsrs(b.nodes)
    ensures WritesEdge(FileWrites(b), e) <==> e in EdgeKeys(b.edges)
  {
    var vs, es := Vertices(b.nodes), Edges(b.edges);
    ConcatWrites(vs, es, e);
    forall n | n in b.nodes ensures n.usr in Added(vs) {
      var i :| 0 <= i < |b.nodes| && b.nodes[i] == n;
      assert vs[i].Vertex? && vs[i].node.usr == n.usr;
    }
    if e in EdgeKeys(b.edges) {
      var i :| 0 <= i < |b.edges| && KeyOf(b.edges[i]) == e;
      assert es[i].Edge? && KeyOf(es[i].edge) == e;
    }
  }

  lemma {:induction false} PassWritesWhat(files: seq<Batch>, e: EdgeKey)
    ensures Added(PassWrites(files)) == AllUsrs(files)
    ensures WritesEdge(PassWrites(files), e) <==> e in AllKeys(files)
  {
    if files != [] {
      var n := |files| - 1;
      PassWritesWhat(files[..n], e);
      FileWritesWhat(files[n], e);
      ConcatWrites(PassWrites(files[..n]), FileWrites(files[n]), e);
      AllSnoc(files[..n], files[n]);
      assert files[..n] + [files[n]] == files;
    }
  }

  lemma AllSnoc(files: seq<Batch>, b: Batch)
    ensures AllUsrs(files + [b]) == AllUsrs(files) + NodeUsrs(b.nodes)
    ensures AllKeys(files + [b]) == AllKeys(files) + EdgeKeys(b.edges)
  {
  }

  /** With every vertex stored, an edge is stored if it was, or is written and has its endpoints. */
  lemma {:induction false} SaturatedEdges(g: Graph, ws: seq<Write>, e: EdgeKey)
    requires Added(ws) <= g.vertices.Keys
    ensures e in Apply(g, ws).edges <==> e in g.edges || (WritesEdge(ws, e) && HasEndpoints(g, e))
  {
    hide Put, Apply;
    ApplyEdges(g, ws, e);
    forall i | 0 <= i < |ws| ensures Lands(g, ws, i) <==> ws[i].Edge? && HasEndpoints(g, KeyOf(ws[i].edge)) {
      PrefixAdds(ws, i);
      SaturatedVertices(g, ws[..i]);
    }
  }

  lemma PrefixAdds(ws: seq<Write>, i: nat)
    requires i <= |ws|
    ensures Added(ws[..i]) <= Added(ws)
  {
  }

  /** Two passes leave every vertex of every file, and every edge of every file whose endpoints are
      among the vertices; a third changes nothing at all, properties included. */
  lemma {:induction false} TwoPassesConverge(g: Graph, files: seq<Batch>)
    ensures
      var twice := Pass(Pass(g, files), files);
      && twice.vertices.Keys == g.vertices.Keys + AllUsrs(files)
      && (forall e :: e in twice.edges <==> e in g.edges || (e in AllKeys(files) && HasEndpoints(twice, e)))
      && Pass(twice, files) == twice
  {
    hide Put, Apply, LandsSomewhere, Timely;
    var ws := PassWrites(files);
    var once := Apply(g, ws);
    var twice := Apply(once, ws);
    ApplyVertices(g, ws);
    PassWritesWhat(files, EdgeKey(FileUsr(""), Calls, FileUsr("")));
    SaturatedVertices(once, ws);
    forall e ensures e in twice.edges <==> e in g.edges || (e in AllKeys(files) && HasEndpoints(twice, e)) {
      PassWritesWhat(files, e);
      SaturatedEdges(once, ws, e);
      LandedIsWritten(g, ws, e);
    }
    ApplyIdempotent(once, ws);
  }

  /** An edge of one pass was stored before, or is written and has its endpoints in the end. */
  lemma {:induction false} LandedIsWritten(g: Graph, ws: seq<Write>, e: EdgeKey)
    ensures g.edges <= Apply(g, ws).edges
    ensures e in Apply(g, ws).edges && e !in g.edges ==> WritesEdge(ws, e) && HasEndpoints(Apply(g, ws), e)
  {
    hide Put, Apply;
    ApplyGrows(g, ws);
    ApplyEdges(g, ws, e);
    if e in Apply(g, ws).edges && e !in g.edges {
      var i :| 0 <= i < |ws| && Lands(g, ws, i) && KeyOf(ws[i].edge) == e;
      LandedEndpoints(g, ws, i);
    }
  }

  /** The label in the first of some records of a node. */
  function FirstNode(nodes: seq<NodeRecord>, u: Usr): Option<Label> {
    if nodes == [] then None else if nodes[0].usr == u then Some(nodes[0].nodeType) else FirstNode(nodes[1..], u)
  }

  /** The label in the first record of a node in the first file that has one. */
  function FirstInFiles(files: seq<Batch>, u: Usr): Option<Label> {
    if files == [] then None else Or(FirstInFiles(files[..|files| - 1], u), FirstNode(files[|files| - 1].nodes, u))
  }

  lemma {:induction false} FirstLabelOfFile(b: Batch, u: Usr)
    ensures FirstLabel(FileWrites(b), u) == FirstNode(b.nodes, u)
  {
    FirstLabelOfNodes(b.nodes, u);
    NoLabelInEdges(b.edges, u);
    FirstLabelConcat(Vertices(b.nodes), Edges(b.edges), u);
  }

  lemma {:induction false} FirstLabelOfNodes(nodes: seq<NodeRecord>, u: Usr)
    ensures FirstLabel(Vertices(nodes), u) == FirstNode(nodes, u)
  {
    if nodes != [] {
      assert Vertices(nodes)[1..] == Vertices(nodes[1..]);
      FirstLabelOfNodes(nodes[1..], u);
    }
  }

  lemma {:induction false} NoLabelInEdges(edges: seq<EdgeRecord>, u: Usr)
    ensures FirstLabel(Edges(edges), u) == None
  {
    if edges != [] {
      assert Edges(edges)[1..] == Edges(edges[1..]);
      NoLabelInEdges(edges[1..], u);
    }
  }

  lemma {:induction false} FirstLabelOfPass(files: seq<Batch>, u: Usr)
    ensures FirstLabel(PassWrites(files), u) == FirstInFiles(files, u)
  {
    if files != [] {
      var n := |files| - 1;
      FirstLabelOfPass(files[..n], u);
      FirstLabelOfFile(files[n], u);
      FirstLabelConcat(PassWrites(files[..n]), FileWrites(files[n]), u);
    }
  }

  /** Of the labels different files give a vertex, it keeps the first, and any it had before. */
  lemma {:induction false} PassLabels(g: Graph, files: seq<Batch>, u: Usr)
    ensures Get(Pass(g, files).vertices, u) == Or(Get(g.vertices, u), FirstInFiles(files, u))
    ensures Get(Pass(Pass(g, files), files).vertices, u) == Or(Get(g.vertices, u), FirstInFiles(files, u))
  {
    FirstLabelOfPass(files, u);
    ApplyLabels(g, PassWrites(files), u);
    ApplyLabels(Pass(g, files), PassWrites(files), u);
  }

  /** The vertices and edges two passes leave do not depend on the order of the files, nor on how
      often one is listed. */
  lemma {:induction false} OrderIsIrrelevant(g: Graph, files: seq<Batch>, files': seq<Batch>)
    requires forall b :: b in files <==> b in files'
    ensures
      var twice, twice' := Pass(Pass(g, files), files), Pass(Pass(g, files'), files');
      twice.vertices.Keys == twice'.vertices.Keys && twice.edges == twice'.edges
  {
    hide Pass;
    TwoPassesConverge(g, files);
    TwoPassesConverge(g, files');
    assert AllUsrs(files) == AllUsrs(files') && AllKeys(files) == AllKeys(files');
  }

  // ------------------------------------------------------------------
  // When one pass is enough
  // ------------------------------------------------------------------

  lemma {:induction false} LandsInParts(g: Graph, a: seq<Write>, b: seq<Write>)
    ensures forall i :: 0 <= i < |a| ==> (a + b)[i] == a[i] && Lands(g, a + b, i) == Lands(g, a, i)
    ensures forall i :: 0 <= i < |b| ==>
      (a + b)[|a| + i] == b[i] && Lands(g, a + b, |a| + i) == Lands(Apply(g, a), b, i)
  {
    hide Put, Apply, HasEndpoints;
    var c := a + b;
    forall i | 0 <= i < |a| ensures c[i] == a[i] && Lands(g, c, i) == Lands(g, a, i) {
      assert c[..i] == a[..i];
    }
    forall i | 0 <= i < |b| ensures c[|a| + i] == b[i] && Lands(g, c, |a| + i) == Lands(Apply(g, a), b, i) {
      assert c[..|a| + i] == a + b[..i];
      ApplyConcat(g, a, b[..i]);
    }
  }

  lemma {:induction false} LandsConcat(g: Graph, a: seq<Write>, b: seq<Write>, e: EdgeKey)
    ensures LandsSomewhere(g, a + b, e) <==> LandsSomewhere(g, a, e) || LandsSomewhere(Apply(g, a), b, e)
  {
    hide Put, Apply, HasEndpoints;
    var c := a + b;
    LandsInParts(g, a, b);
    if LandsSomewhere(g, c, e) {
      var i :| 0 <= i < |c| && Lands(g, c, i) && KeyOf(c[i].edge) == e;
      if i >= |a| {
        var j := i - |a|;
        assert (a + b)[|a| + j] == b[j] && Lands(g, a + b, |a| + j) == Lands(Apply(g, a), b, j);
      }
    }
    if LandsSomewhere(Apply(g, a), b, e) {
      var i :| 0 <= i < |b| && Lands(Apply(g, a), b, i) && KeyOf(b[i].edge) == e;
      assert Lands(g, c, |a| + i) && c[|a| + i] == b[i];
    }
  }

  /** Within a file the nodes come first, so an edge finds those and whatever was stored. */
  lemma {:induction false} LandsInFile(g: Graph, b: Batch, e: EdgeKey)
    ensures LandsSomewhere(g, FileWrites(b), e)
       <==> e in EdgeKeys(b.edges) && {e.source, e.target} <= g.vertices.Keys + NodeUsrs(b.nodes)
  {
    hide Put, Apply;
    var vs, es := Vertices(b.nodes), Edges(b.edges);
    LandsConcat(g, vs, es, e);
    FileWritesWhat(b, e);
    ApplyVertices(g, vs);
    var mid := Apply(g, vs);
    forall i | 0 <= i < |es| ensures Lands(mid, es, i) <==> HasEndpoints(mid, KeyOf(b.edges[i])) {
      PrefixAdds(es, i);
      SaturatedVertices(mid, es[..i]);
    }
    if e in EdgeKeys(b.edges) && HasEndpoints(mid, e) {
      var i :| 0 <= i < |b.edges| && KeyOf(b.edges[i]) == e;
      assert Lands(mid, es, i) && KeyOf(es[i].edge) == e;
    }
  }

  /** Some file has the edge, and its endpoints are stored or come with that file or an earlier one. */
  ghost predicate InTime(g: Graph, files: seq<Batch>, e: EdgeKey) {
    exists i :: 0 <= i < |files| && e in EdgeKeys(files[i].edges)
             && {e.source, e.target} <= g.vertices.Keys + AllUsrs(files[..i + 1])
  }

  lemma InTimeSnoc(g: Graph, files: seq<Batch>, e: EdgeKey)
    requires files != []
    ensures
      var n := |files| - 1;
      var last := e in EdgeKeys(files[n].edges) && {e.source, e.target} <= g.vertices.Keys + AllUsrs(files);
      InTime(g, files, e) <==> InTime(g, files[..n], e) || last
  {
    hide AllUsrs, EdgeKeys;
    var n := |files| - 1;
    assert files[..n + 1] == files;
    assert forall i :: 0 <= i < n ==> files[..n][..i + 1] == files[..i + 1] && files[..n][i] == files[i];
    if InTime(g, files[..n], e) {
      var i :| 0 <= i < n && e in EdgeKeys(files[..n][i].edges)
            && {e.source, e.target} <= g.vertices.Keys + AllUsrs(files[..n][..i + 1]);
      assert e in EdgeKeys(files[i].edges) && {e.source, e.target} <= g.vertices.Keys + AllUsrs(files[..i + 1]);
    }
    if InTime(g, files, e) {
      var i :| 0 <= i < |files| && e in EdgeKeys(files[i].edges)
            && {e.source, e.target} <= g.vertices.Keys + AllUsrs(files[..i + 1]);
      assert i < n ==> e in EdgeKeys(files[..n][i].edges);
    }
  }

  lemma {:induction false} LandsInTime(g: Graph, files: seq<Batch>, e: EdgeKey)
    ensures LandsSomewhere(g, PassWrites(files), e) <==> InTime(g, files, e)
  {
    hide Put, Apply, LandsSomewhere, InTime;
    if files == [] {
      assert !LandsSomewhere(g, [], e) by { LandsNowhere(g, e); }
      assert !InTime(g, [], e) by { NeverInTime(g, e); }
    } else {
      var n := |files| - 1;
      var ws := PassWrites(files[..n]);
      LandsInTime(g, files[..n], e);
      LandsConcat(g, ws, FileWrites(files[n]), e);
      LandsInFile(Apply(g, ws), files[n], e);
      ApplyVertices(g, ws);
      PassWritesWhat(files[..n], e);
      AllSnoc(files[..n], files[n]);
      assert files[..n] + [files[n]] == files;
      InTimeSnoc(g, files, e);
    }
  }

  lemma NeverInTime(g: Graph, e: EdgeKey)
    ensures !InTime(g, [], e)
  {
  }

  /** What one pass stores. */
  lemma {:induction false} PassStores(g: Graph, files: seq<Batch>, e: EdgeKey)
    ensures e in Pass(g, files).edges <==> e in g.edges || InTime(g, files, e)
  {
    ApplyEdges(g, PassWrites(files), e);
    LandsInTime(g, files, e);
  }

  /** One pass stores what two do exactly when every edge whose endpoints are stored or come with
      some file was stored before, or is in time somewhere. */
  lemma {:induction false} OnePassSuffices(g: Graph, files: seq<Batch>)
    ensures
      Pass(Pass(g, files), files).edges == Pass(g, files).edges
      <==> forall e :: e in AllKeys(files) && {e.source, e.target} <= g.vertices.Keys + AllUsrs(files) ==>
             e in g.edges || InTime(g, files, e)
  {
    hide Put, Apply, InTime, LandsSomewhere;
    var ws := PassWrites(files);
    var once := Apply(g, ws);
    TwoPassesConverge(g, files);
    PassVertices(g, files);
    forall e
      ensures e in once.edges <==> e in g.edges || InTime(g, files, e)
      ensures e in Pass(once, files).edges <==> e in g.edges || (e in AllKeys(files) && HasEndpoints(once, e))
      ensures InTime(g, files, e) ==> e in AllKeys(files) && HasEndpoints(once, e)
    {
      PassStores(g, files, e);
      PassWritesWhat(files, e);
      SaturatedVertices(once, ws);
      if e !in g.edges {
        LandedIsWritten(g, ws, e);
      } else {
        InTimeIsWritten(g, files, e);
      }
    }
  }

  lemma {:induction false} InTimeIsWritten(g: Graph, files: seq<Batch>, e: EdgeKey)
    ensures InTime(g, files, e) ==> e in AllKeys(files) && HasEndpoints(Pass(g, files), e)
  {
    hide Put, Apply;
    if InTime(g, files, e) {
      LandsInTime(g, files, e);
      var ws := PassWrites(files);
      var i :| 0 <= i < |ws| && Lands(g, ws, i) && KeyOf(ws[i].edge) == e;
      LandedEndpoints(g, ws, i);
      assert WritesEdge(ws, e);
      PassWritesWhat(files, e);
    }
  }

  lemma {:induction false} PassVertices(g: Graph, files: seq<Batch>)
    ensures Pass(g, files).vertices.Keys == g.vertices.Keys + AllUsrs(files)
  {
    ApplyVertices(g, PassWrites(files));
    PassWritesWhat(files, EdgeKey(FileUsr(""), Calls, FileUsr("")));
  }

  /** Within a file no edge comes too early for its endpoints. */
  lemma {:induction false} FileIsTimely(g: Graph, b: Batch)
    ensures Timely(g, FileWrites(b))
  {
    hide Put, Apply;
    var vs, es := Vertices(b.nodes), Edges(b.edges);
    var ws := FileWrites(b);
    forall i | 0 <= i < |ws| && ws[i].Edge?
      ensures HasEndpoints(Apply(g, ws), KeyOf(ws[i].edge)) ==> HasEndpoints(Apply(g, ws[..i]), KeyOf(ws[i].edge))
    {
      assert i >= |vs|;
      assert ws[..i] == vs + es[..i - |vs|];
      FileWritesWhat(b, KeyOf(ws[i].edge));
      ConcatWrites(vs, es[..i - |vs|], KeyOf(ws[i].edge));
      ApplyVertices(g, ws);
      ApplyVertices(g, ws[..i]);
    }
  }

  /** Exporting one file is idempotent: the second time nothing changes. */
  lemma {:induction false} ExportIdempotent(g: Graph, b: Batch)
    ensures Apply(Apply(g, FileWrites(b)), FileWrites(b)) == Apply(g, FileWrites(b))
  {
    FileIsTimely(g, b);
    ApplyIdempotent(g, FileWrites(b));
  }
}
