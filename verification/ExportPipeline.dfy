/** From a translation unit through the store to a query. */
module ExportPipeline {
  import opened Basics
  import opened GraphRecords
  import opened GraphStore
  import opened Ingest
  import opened Cursors
  import opened ExportToStore
  import ExporterSpec
  import Exporter
  import IndraDriver
  import QueryExecutor

  /** Extraction, then the two upserts; an exception of the driver goes to the caller. */
  method ExportUnit(driver: IndraDriver.IndraDBDriver, root: Cursor, table: TypeTable, path: string)
    returns (r: Result<Counts, ()>)
    requires driver.client != null
    modifies driver.client
    ensures
      var b := Extract(root, table, path);
      var g, later := old(driver.client.graph), driver.client.graph;
      && IndraDriver.Grows(g, later, NodeUsrs(b.nodes), IndraDriver.EdgeKeys(b.edges))
      && (r.Ok? ==>
            && later == Apply(g, FileWrites(b))
            && r.value.nodesWritten == NewVertices(g, later) && r.value.edgesWritten == NewEdges(g, later)
            && r.value.nodesAttempted == |b.nodes| && r.value.edgesAttempted == |b.edges|)
    ensures old(driver.client.Reliable()) ==> r.Ok?
  {
    var nodes, edges := Exporter.ExtractNodesAndEdges(root, table, path);
    r := ExportFile(driver, Batch(nodes, edges));
  }

  /** After a file is exported into an empty store, asking for the edges whose access is a given
      string returns exactly the stored MEMBER_OF edges whose last written access is that string. */
  lemma {:induction false} AccessQuery(root: Cursor, table: TypeTable, path: string, items: seq<EdgeKey>,
                                       typeOf: EdgeKey -> string, access: string, row: QueryExecutor.Row<EdgeKey>)
    requires forall e :: e in items <==> e in Apply(EMPTY, FileWrites(Extract(root, table, path))).edges
    ensures
      var b := Extract(root, table, path);
      var stored := Apply(EMPTY, FileWrites(b)).eprops;
      var q := QueryExecutor.WithPropertyEqual("access", Str(access));
      var member := row.item.edgeType == MemberOf && LastIn(b.edges, row.item, "access") == Some(Str(access));
      row in QueryExecutor.Naive(q, typeOf, items, stored)
      <==> row.item in items && member && row.props == QueryExecutor.PropsOf(stored, row.item)
  {
    hide Extract, Apply, LastIn, QueryExecutor.PropsOf, QueryExecutor.Naive;
    var stored := Apply(EMPTY, FileWrites(Extract(root, table, path))).eprops;
    QueryExecutor.NaiveHas(QueryExecutor.WithPropertyEqual("access", Str(access)), typeOf, items, stored, row);
    StoredAccess(root, table, path, row.item);
    QueryExecutor.PropertyVerb("access", Str(access), typeOf, row.item, stored);
  }
}
