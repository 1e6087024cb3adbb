/** Exporting a file, and the ingest loop over a list of files. */
module Ingest {
  import opened Basics
  import opened GraphRecords
  import opened GraphStore
  import opened IndraDriver

  /** What extraction yields for one file. */
  datatype Batch = Batch(nodes: seq<NodeRecord>, edges: seq<EdgeRecord>)

  /** A file of the run: extracted, or failing to parse. */
  datatype Source = Extracted(batch: Batch) | Broken

  datatype Counts = Counts(nodesWritten: nat, edgesWritten: nat, nodesAttempted: nat, edgesAttempted: nat)

  datatype Report = Report(filesProcessed: nat, counts: Counts, errors: seq<nat>)

  /** A file is exported nodes first. */
  function FileWrites(b: Batch): seq<Write> {
    Vertices(b.nodes) + Edges(b.edges)
  }

  function PassWrites(files: seq<Batch>): seq<Write> {
    if files == [] then [] else PassWrites(files[..|files| - 1]) + FileWrites(files[|files| - 1])
  }

  /** The store after one pass over all the files. */
  function Pass(g: Graph, files: seq<Batch>): Graph {
    Apply(g, PassWrites(files))
  }

  function NewVertices(g: Graph, later: Graph): int {
    |later.vertices| - |g.vertices|
  }

  function NewEdges(g: Graph, later: Graph): int {
    |later.edges| - |g.edges|
  }

  method ExportFile(driver: IndraDBDriver, b: Batch) returns (r: Result<Counts, ()>)
    requires driver.client != null
    modifies driver.client
    ensures old(driver.client.Reliable()) ==> r.Ok? && driver.client.Reliable()
    ensures Grows(old(driver.client.graph), driver.client.graph, NodeUsrs(b.nodes), EdgeKeys(b.edges))
    ensures r.Ok? ==>
      var g, later := old(driver.client.graph), driver.client.graph;
      && later == Apply(g, FileWrites(b))
      && r.value.nodesWritten == NewVertices(g, later) && r.value.edgesWritten == NewEdges(g, later)
      && r.value.nodesWritten <= r.value.nodesAttempted == |b.nodes|
      && r.value.edgesWritten <= r.value.edgesAttempted == |b.edges|
  {
    hide Put, Apply;
    ghost var g := driver.client.graph;
    var nodesWritten := driver.UpsertNodes(b.nodes);
    if nodesWritten.Err? {
      return Err(());
    }
    ghost var mid := driver.client.graph;
    var edgesWritten := driver.UpsertEdges(b.edges);
    ApplyConcat(g, Vertices(b.nodes), Edges(b.edges));
    if edgesWritten.Err? {
      return Err(());
    }
    assert driver.client.graph.vertices.Keys == mid.vertices.Keys;
    assert |driver.client.graph.vertices| == |driver.client.graph.vertices.Keys| == |mid.vertices|;
    assert mid.edges == g.edges;
    return Ok(Counts(nodesWritten.value, edgesWritten.value, |b.nodes|, |b.edges|));
  }

  function Batches(files: seq<Source>): seq<Batch> {
    if files == [] then
      []
    else
      Batches(files[..|files| - 1]) + (if files[|files| - 1].Extracted? then [files[|files| - 1].batch] else [])
  }

  function Plus(a: Counts, b: Counts): Counts {
    Counts(a.nodesWritten + b.nodesWritten, a.edgesWritten + b.edgesWritten,
           a.nodesAttempted + b.nodesAttempted, a.edgesAttempted + b.edgesAttempted)
  }

  lemma GrowsSize(earlier: Graph, later: Graph, usrs: set<Usr>, keys: set<EdgeKey>)
    requires Grows(earlier, later, usrs, keys)
    ensures NewVertices(earlier, later) >= 0 && NewEdges(earlier, later) >= 0
  {
    SubsetSize(earlier.vertices.Keys, later.vertices.Keys);
    SubsetSize(earlier.edges, later.edges);
  }

  // ------------------------------------------------------------------
  // Many files
  // ------------------------------------------------------------------

  const NOTHING := Counts(0, 0, 0, 0)

  /** What became of one file: its counts, or None when it failed. A file that is counted has been
      exported; one that fails to parse leaves the store; one that fails later may have grown it. */
  ghost predicate Became(file: Source, outcome: Option<Counts>, g: Graph, later: Graph) {
    match outcome
    case Some(c) =>
      && file.Extracted? && later == Apply(g, FileWrites(file.batch))
      && c.nodesWritten == NewVertices(g, later) && c.edgesWritten == NewEdges(g, later)
      && c.nodesAttempted == |file.batch.nodes| && c.edgesAttempted == |file.batch.edges|
      && c.nodesWritten <= c.nodesAttempted && c.edgesWritten <= c.edgesAttempted
    case None =>
      match file
      case Broken => later == g
      case Extracted(batch) => Grows(g, later, NodeUsrs(batch.nodes), EdgeKeys(batch.edges))
  }

  /** Every file had its turn, in order, on the store its predecessors left. */
  ghost predicate InTurn(files: seq<Source>, outcomes: seq<Option<Counts>>, stages: seq<Graph>) {
    && |outcomes| == |files| && |stages| == |files| + 1
    && forall i :: 0 <= i < |files| ==> Became(files[i], outcomes[i], stages[i], stages[i + 1])
  }

  function Total(outcomes: seq<Option<Counts>>): Counts {
    if outcomes == [] then
      NOTHING
    else
      var last, before := outcomes[|outcomes| - 1], Total(outcomes[..|outcomes| - 1]);
      if last.Some? then Plus(before, last.value) else before
  }

  function Processed(outcomes: seq<Option<Counts>>): nat {
    if outcomes == [] then
      0
    else
      Processed(outcomes[..|outcomes| - 1]) + if outcomes[|outcomes| - 1].Some? then 1 else 0
  }

  /** The failed files, each once, in order. */
  ghost predicate Failed(errors: seq<nat>, outcomes: seq<Option<Counts>>) {
    && (forall a, b :: 0 <= a < b < |errors| ==> errors[a] < errors[b])
    && (forall i: nat :: i in errors <==> i < |outcomes| && outcomes[i].None?)
  }

  lemma {:induction false} TotalSnoc(outcomes: seq<Option<Counts>>, outcome: Option<Counts>)
    ensures Total(outcomes + [outcome])
         == if outcome.Some? then Plus(Total(outcomes), outcome.value) else Total(outcomes)
    ensures Processed(outcomes + [outcome]) == Processed(outcomes) + if outcome.Some? then 1 else 0
  {
    assert (outcomes + [outcome])[..|outcomes|] == outcomes;
  }

  lemma {:induction false} FailedSnoc(errors: seq<nat>, outcomes: seq<Option<Counts>>, outcome: Option<Counts>)
    requires Failed(errors, outcomes)
    ensures Failed(if outcome.None? then errors + [|outcomes|] else errors, outcomes + [outcome])
  {
    var errors' := if outcome.None? then errors + [|outcomes|] else errors;
    forall a | 0 <= a < |errors| ensures errors[a] < |outcomes| {
      assert errors[a] in errors;
    }
    forall i: nat ensures i in errors' <==> i < |outcomes| + 1 && (outcomes + [outcome])[i].None? {
      assert i in errors' <==> i in errors || (outcome.None? && i == |outcomes|);
    }
  }

  lemma {:induction false} InTurnSnoc(files: seq<Source>, outcomes: seq<Option<Counts>>, stages: seq<Graph>,
                                      file: Source, outcome: Option<Counts>, later: Graph)
    requires InTurn(files, outcomes, stages) && Became(file, outcome, stages[|files|], later)
    ensures InTurn(files + [file], outcomes + [outcome], stages + [later])
  {
  }

  /** The good files have been passed over, and the totals are the growth of the store and the sizes
      of all their batches. */
  ghost predicate GoodFiles(files: seq<Source>, outcomes: seq<Option<Counts>>, stages: seq<Graph>)
    requires |stages| == |files| + 1
  {
    var g, later, total := stages[0], stages[|files|], Total(outcomes);
    && later == Pass(g, Batches(files))
    && total.nodesWritten == NewVertices(g, later) && total.edgesWritten == NewEdges(g, later)
    && total.nodesAttempted == NodeCount(Batches(files)) && total.edgesAttempted == EdgeCount(Batches(files))
    && Processed(outcomes) == |Batches(files)|
  }

  /** When each failure is one to parse, the run is a pass over the good files. */
  lemma {:induction false} GoodFilesPass(files: seq<Source>, outcomes: seq<Option<Counts>>, stages: seq<Graph>)
    requires InTurn(files, outcomes, stages)
    requires forall i :: 0 <= i < |files| && outcomes[i].None? ==> files[i].Broken?
    ensures GoodFiles(files, outcomes, stages)
  {
    hide GoodFiles, Became;
    if files == [] {
      assert outcomes == [] && stages == [stages[0]];
      NoGoodFiles(stages[0]);
    } else {
      var n := |files| - 1;
      GoodFilesPass(files[..n], outcomes[..n], stages[..n + 1]);
      GoodFilesSnoc(files[..n], outcomes[..n], stages[..n + 1], files[n], outcomes[n], stages[n + 1]);
      assert files[..n] + [files[n]] == files && outcomes[..n] + [outcomes[n]] == outcomes;
      assert stages[..n + 1] + [stages[n + 1]] == stages;
    }
  }

  lemma NoGoodFiles(g: Graph)
    ensures GoodFiles([], [], [g])
  {
    NothingApplied(g);
  }

  lemma BatchesSnoc(files: seq<Source>, file: Source)
    ensures Batches(files + [file]) == Batches(files) + if file.Extracted? then [file.batch] else []
  {
    assert (files + [file])[..|files|] == files;
  }

  lemma {:induction false} GoodFilesSnoc(files: seq<Source>, outcomes: seq<Option<Counts>>, stages: seq<Graph>,
                                         file: Source, outcome: Option<Counts>, later: Graph)
    requires |outcomes| == |files| && |stages| == |files| + 1 && GoodFiles(files, outcomes, stages)
    requires Became(file, outcome, stages[|files|], later) && (outcome.None? ==> file.Broken?)
    ensures GoodFiles(files + [file], outcomes + [outcome], stages + [later])
  {
    hide Apply, Batches, Total, Processed, PassWrites, FileWrites, NodeCount, EdgeCount;
    TotalSnoc(outcomes, outcome);
    BatchesSnoc(files, file);
    if file.Extracted? {
      ApplyConcat(stages[0], PassWrites(Batches(files)), FileWrites(file.batch));
      PassSnoc(Batches(files), file.batch);
      CountSnoc(Batches(files), file.batch);
    } else {
      assert Batches(files) + [] == Batches(files);
    }
  }

  function NodeCount(files: seq<Batch>): nat {
    if files == [] then 0 else NodeCount(files[..|files| - 1]) + |files[|files| - 1].nodes|
  }

  function EdgeCount(files: seq<Batch>): nat {
    if files == [] then 0 else EdgeCount(files[..|files| - 1]) + |files[|files| - 1].edges|
  }

  lemma CountSnoc(files: seq<Batch>, b: Batch)
    ensures NodeCount(files + [b]) == NodeCount(files) + |b.nodes|
    ensures EdgeCount(files + [b]) == EdgeCount(files) + |b.edges|
  {
    assert (files + [b])[..|files|] == files;
  }

  /** Whatever fails, what is reported was written, and no more than was attempted. */
  lemma {:induction false} TotalIsModest(files: seq<Source>, outcomes: seq<Option<Counts>>, stages: seq<Graph>)
    requires InTurn(files, outcomes, stages)
    ensures
      var g, later, total := stages[0], stages[|files|], Total(outcomes);
      && total.nodesWritten <= NewVertices(g, later) && total.edgesWritten <= NewEdges(g, later)
      && total.nodesWritten <= total.nodesAttempted && total.edgesWritten <= total.edgesAttempted
  {
    hide Apply, Grows;
    if files != [] {
      var n := |files| - 1;
      TotalIsModest(files[..n], outcomes[..n], stages[..n + 1]);
      assert Became(files[n], outcomes[n], stages[n], stages[n + 1]);
      if outcomes[n].None? && files[n].Extracted? {
        var b := files[n].batch;
        GrowsSize(stages[n], stages[n + 1], NodeUsrs(b.nodes), EdgeKeys(b.edges));
      }
    }
  }

  /** Each file in turn is exported or recorded as failed, and the loop goes on; the totals are the
      sums over the exported. A file fails only if it does not parse or the client raises. `outcomes`
      and `stages` say what became of each file, and the stores in between. */
  method IngestFiles(driver: IndraDBDriver, files: seq<Source>)
    returns (report: Report, ghost outcomes: seq<Option<Counts>>, ghost stages: seq<Graph>)
    requires driver.client != null && !driver.closed
    modifies driver, driver.client
    ensures driver.client == null && driver.closed
    ensures InTurn(files, outcomes, stages)
    ensures stages[0] == old(driver.client.graph) && stages[|files|] == old(driver.client).graph
    ensures Failed(report.errors, outcomes)
    ensures report.filesProcessed == Processed(outcomes) && report.filesProcessed + |report.errors| == |files|
    ensures report.counts == Total(outcomes)
    ensures report.counts.nodesWritten <= report.counts.nodesAttempted
    ensures report.counts.edgesWritten <= report.counts.edgesAttempted
    ensures report.counts.nodesWritten <= NewVertices(old(driver.client.graph), old(driver.client).graph)
    ensures report.counts.edgesWritten <= NewEdges(old(driver.client.graph), old(driver.client).graph)
    ensures (forall i :: i in report.errors ==> i < |files| && files[i].Broken?) ==>
      var g, later := old(driver.client.graph), old(driver.client).graph;
      && later == Pass(g, Batches(files))
      && report.counts.nodesWritten == NewVertices(g, later) && report.counts.edgesWritten == NewEdges(g, later)
      && report.counts.nodesAttempted == NodeCount(Batches(files))
      && report.counts.edgesAttempted == EdgeCount(Batches(files))
    ensures old(driver.client.Reliable()) ==>
      forall i: nat :: i in report.errors <==> i < |files| && files[i].Broken?
  {
    hide Became, InTurn, Failed, Total, Processed, Grows, Apply, Batches, Pass;
    ghost var client: Client := driver.client;
    var counts, processed: nat, errors: seq<nat> := NOTHING, 0, [];
    outcomes, stages := [], [client.graph];
    NothingYet(client.graph);
    assert files[..0] == [];
    for i := 0 to |files|
      invariant driver.client == client && !driver.closed
      invariant |outcomes| == i && |stages| == i + 1
      invariant InTurn(files[..i], outcomes, stages)
      invariant stages[0] == old(driver.client.graph) && stages[i] == client.graph
      invariant Failed(errors, outcomes)
      invariant processed == Processed(outcomes) && processed + |errors| == i
      invariant counts == Total(outcomes)
      invariant old(driver.client.Reliable()) ==> client.Reliable() && OnlyBroken(files[..i], outcomes)
    {
      ghost var before := client.graph;
      ghost var outcome: Option<Counts> := None;
      if files[i].Broken? {
        errors := errors + [i];
      } else {
        var result := ExportFile(driver, files[i].batch);
        if result.Err? {
          errors := errors + [i];
        } else {
          counts := Plus(counts, result.value);
          processed := processed + 1;
          outcome := Some(result.value);
        }
      }
      BecameOf(files[i], outcome, before, client.graph);
      InTurnSnoc(files[..i], outcomes, stages, files[i], outcome, client.graph);
      FailedSnoc(if outcome.None? then errors[..|errors| - 1] else errors, outcomes, outcome);
      TotalSnoc(outcomes, outcome);
      assert files[..i] + [files[i]] == files[..i + 1];
      outcomes, stages := outcomes + [outcome], stages + [client.graph];
    }
    assert files[..|files|] == files;
    driver.Close();
    TotalIsModest(files, outcomes, stages);
    assert (forall i :: i in errors ==> i < |files| && files[i].Broken?) ==> GoodFiles(files, outcomes, stages) by {
      if forall i :: i in errors ==> i < |files| && files[i].Broken? {
        FailedOnly(files, errors, outcomes);
        GoodFilesPass(files, outcomes, stages);
      }
    }
    if old(driver.client.Reliable()) {
      FailedAre(files, errors, outcomes);
    }
    report := Report(processed, counts, errors);
  }

  /** The files that failed are those that do not parse. */
  predicate OnlyBroken(files: seq<Source>, outcomes: seq<Option<Counts>>) {
    |outcomes| == |files| && forall i :: 0 <= i < |files| ==> (outcomes[i].None? <==> files[i].Broken?)
  }

  lemma NothingYet(g: Graph)
    ensures InTurn([], [], [g]) && Failed([], []) && Total([]) == NOTHING && Processed([]) == 0
  {
  }

  lemma BecameOf(file: Source, outcome: Option<Counts>, g: Graph, later: Graph)
    requires outcome.Some? ==>
      var c := outcome.value;
      && file.Extracted? && later == Apply(g, FileWrites(file.batch))
      && c.nodesWritten == NewVertices(g, later) && c.edgesWritten == NewEdges(g, later)
      && c.nodesWritten <= c.nodesAttempted == |file.batch.nodes|
      && c.edgesWritten <= c.edgesAttempted == |file.batch.edges|
    requires outcome.None? && file.Broken? ==> later == g
    requires outcome.None? && file.Extracted? ==>
      Grows(g, later, NodeUsrs(file.batch.nodes), EdgeKeys(file.batch.edges))
    ensures Became(file, outcome, g, later)
  {
  }

  lemma FailedOnly(files: seq<Source>, errors: seq<nat>, outcomes: seq<Option<Counts>>)
    requires Failed(errors, outcomes) && |outcomes| == |files|
    requires forall i :: i in errors ==> i < |files| && files[i].Broken?
    ensures forall i :: 0 <= i < |files| && outcomes[i].None? ==> files[i].Broken?
  {
  }

  lemma FailedAre(files: seq<Source>, errors: seq<nat>, outcomes: seq<Option<Counts>>)
    requires Failed(errors, outcomes) && OnlyBroken(files, outcomes)
    ensures forall i: nat :: i in errors <==> i < |files| && files[i].Broken?
  {
  }

  lemma NothingApplied(g: Graph)
    ensures Apply(g, PassWrites(Batches([]))) == g
  {
  }

  lemma PassSnoc(files: seq<Batch>, b: Batch)
    ensures PassWrites(files + [b]) == PassWrites(files) + FileWrites(b)
  {
  }
}
