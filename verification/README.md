# Proofs about cpp-mcp

Dafny models of the stateful and recursive parts of cpp-mcp, a server that parses C++ with libclang,
caches translation units, walks their syntax trees, and exports them to a graph database that can
then be queried. `dafny verify dfyconfig.toml` checks the whole project.

Code that works by changing state is a class or a method with loops (the scanner, the budget and
both walkers, the cache, the driver, the ingest loop, the extraction, the query executor). Each such
method is tied by its `ensures` to a function of its inputs and the old state; what the system
promises is then proved of that function as lemmas, by induction over every input, every run or
every interleaving.

| files | what they model |
|---|---|
| `ConditionalScanner.dfy` | the stack machine over `#if`/`#elif`/`#else`/`#endif` lines |
| `AstWalker.dfy` | the JSON and the graph walker under one node and byte budget |
| `TuCache.dfy`, `LruInclusion.dfy` | the LRU cache of translation units, called by one thread; two caches of different capacity |
| `ParseOptions.dfy` | how a session folds parse options into the flags that key the cache |
| `TuCacheThreads.dfy` | the same cache as a step system: any threads, any change to the files in between |
| `Cursors.dfy`, `ExporterSpec.dfy`, `Exporter.dfy` | cursor trees and types, the walk as a list of operations, the walk as the program runs it |
| `ExporterPaths.dfy`, `ExporterTypes.dfy`, `ExporterNodes.dfy`, `ExporterRecords.dfy`, `ExporterIntegrity.dfy` | the extracted graph against a description over root-to-cursor paths |
| `ExporterExamples.dfy` | small trees for which documented promises fail |
| `GraphRecords.dfy`, `GraphStore.dfy`, `IndraDriver.dfy` | the records, the store, and the upserts over a client any of whose calls may raise |
| `Ingest.dfy`, `Convergence.dfy`, `ExportToStore.dfy` | the per-file loop, repeated passes over many files, and one file's export |
| `QueryExecutor.dfy`, `ExportPipeline.dfy` | queries over batched answers, and the way from a tree to a query result |

## What the models assume

- USRs are distinct values (`Usr` in `GraphRecords.dfy`): the prefixes and suffixes that tell file,
  type, parameter and symbol USRs apart do so, and SHA-1 and UUID5 are injective on them.
- Probes of a cursor or a type return a value. Where the program guards one with `try`, a failure is
  the missing value it falls back to.
- A type table maps handles to types; spellings may repeat and pointees may form cycles.
- Setting a property of a vertex or edge that is not stored changes nothing: the query that selects
  it finds nothing.
- A write gives its file a positive modification time the file never had before. The parser is a
  function of the path, the content, the flags and the options.
- The length of a node's JSON is an arbitrary function of the node.

## Where the code and its documentation differ

The models follow the code; each difference is a lemma.

- The exporter's documentation lists a CALLS edge for every call expression
  (src/cpp_mcp/graphdb/exporter.py:47). The branch that emits it is inside the guard for classified
  kinds, of which a call expression is none: `ExporterPaths.CallsAreNeverEmitted`. A function that
  calls another and lacks the edge is in `ExporterExamples.CallIsMissing`. The promise holds exactly
  for trees without a named call inside a symbol: `ExporterPaths.CallsPromise`.
- A conditional whose `#endif` is missing is reported inactive even around active lines:
  `ConditionalScanner.UnterminatedIsWrong`. Exactly when the report is right is
  `ConditionalScanner.ScanTruthful`.
- Entries with different parse options are meant to occupy separate cache slots
  (src/cpp_mcp/core/clang_session.py:148-150). A caller's own flag can pass for the one a session
  adds: `ParseOptions.MarkersCollide`. Exactly which pairs of requests share a slot is
  `ParseOptions.SharedKey`, and which requests share theirs with some request of other options
  `ParseOptions.SlotIsShared`. Such flags are also stripped from the caller's:
  `ParseOptions.StripUndoesEffective` says exactly when stripping gives the flags back.
- The race the cache documents, a write between a parse and the stat that follows, is not healed by
  the next lookup: that lookup is a hit and returns the old unit (`TuCacheThreads.RacedHitIsStale`).
  Exactly when a hit is fresh is `TuCacheThreads.FreshExactly`: the condition, that the file had the
  same time at the parse as at the stat, is one the program could check by a stat before the parse.
  It holds exactly if the file was not changed in between: `TuCacheThreads.StampedAsSeen`.
- One ingest pass drops a reference to a symbol of a later file:
  `ExporterExamples.ForwardReferenceNeedsTwo`. Exactly when one pass is enough is
  `Convergence.OnePassSuffices`.
- Asking for items whose property equals null also returns the items without the property:
  `QueryExecutor.NullFindsMissing`. Exactly which items are returned is `QueryExecutor.PropertyVerb`.

## Model

| member | source | states |
|---|---|---|
| ConditionalScanner.ScanConditionals | src/cpp_mcp/tools/get_preprocessor_state.py:148-203 | The two loops compute `Scan`, about which the lemmas below are |
| ConditionalScanner.ScanLine | src/cpp_mcp/tools/get_preprocessor_state.py:151-194 | One line: push, replace the innermost branch after reporting it, pop and report, or nothing on an empty stack |
| ConditionalScanner.ReportOpenBranches | src/cpp_mcp/tools/get_preprocessor_state.py:196-203 | Branches still open are reported outermost first, inactive, ending at the last line |
| ConditionalScanner.ScanOfForest | src/cpp_mcp/tools/get_preprocessor_state.py:148-194 | Scanning any well-nested file (grammar of section 15.2 [cpp.cond] of ISO/IEC 14882:2020) returns one record per branch, in closing order, with the branch's own first and last line, true exactly if an active line lies in between |
| ConditionalScanner.RunForest | src/cpp_mcp/tools/get_preprocessor_state.py:151-194 | Inside any open groups, scanning a well-nested forest leaves the stack as it was and adds the forest's records |
| ConditionalScanner.RunTail | src/cpp_mcp/tools/get_preprocessor_state.py:167-194 | From an open branch, its alternatives up to `#endif` close it and add one record each |
| ConditionalScanner.BalancedIsRendered | src/cpp_mcp/tools/get_preprocessor_state.py:151-194 | The files the round trip speaks of are exactly those whose groups all close, none closing early: parsing and laying out are inverse |
| ConditionalScanner.ParseForest | src/cpp_mcp/tools/get_preprocessor_state.py:151-194 | Every balanced file is the layout of some forest |
| ConditionalScanner.RenderedIsBalanced | src/cpp_mcp/tools/get_preprocessor_state.py:151-194 | The layout of every forest is balanced, at any depth |
| ConditionalScanner.StepKeepsInv | src/cpp_mcp/tools/get_preprocessor_state.py:151-194 | Every line, in any file, keeps: records finished, ordered by end, pairwise nested or disjoint, right about their lines, and apart from every open branch |
| ConditionalScanner.CloseKeepsInv | src/cpp_mcp/tools/get_preprocessor_state.py:168-194 | The innermost branch is always undecided when it is closed, and closing it keeps the invariant |
| ConditionalScanner.RunCounts | src/cpp_mcp/tools/get_preprocessor_state.py:151-194 | No branch is lost: open and reported branches together grow by the openers and the alternatives met inside a group |
| ConditionalScanner.ScanShape | src/cpp_mcp/tools/get_preprocessor_state.py:151-203 | For any file, balanced or not: the record count is openers plus alternatives inside a group; every record has a result and start <= end <= number of lines; ends do not decrease; any two intervals nest or are disjoint |
| ConditionalScanner.ScanNames | src/cpp_mcp/tools/get_preprocessor_state.py:155-203 | For any file: each record names the directive and condition on its first line, no two records have the same first line, and the branches never closed come last, outermost first, inactive up to the last line |
| ConditionalScanner.RunLeavesOpen | src/cpp_mcp/tools/get_preprocessor_state.py:158-188 | The branches left open are those a plain scan of openers and closers leaves |
| ConditionalScanner.ScanTruthful | src/cpp_mcp/tools/get_preprocessor_state.py:196-203 | All results are right if and only if no active line follows the start of the outermost branch that is never closed |
| ConditionalScanner.UnterminatedIsWrong | src/cpp_mcp/tools/get_preprocessor_state.py:196-198 | A file whose unterminated group holds an active line and is reported inactive |
| AstWalker.Budget.Charge | src/cpp_mcp/core/ast_walker.py:133-148 | Refuses, unchanged, once truncated; else adds one node and its bytes, and truncates at the node limit first, then the byte limit |
| AstWalker.WalkJson | src/cpp_mcp/core/ast_walker.py:160-203 | The tree built, read back in preorder with parents and truncation marks, is what the budget admits of the pruned and depth-cut preorder; counter and budget advance by as much |
| AstWalker.WalkJsonChildren | src/cpp_mcp/core/ast_walker.py:192-203 | The same for the loop over children, which stops when the budget is exhausted |
| AstWalker.JsonAst | src/cpp_mcp/core/ast_walker.py:206-240 | The same from a fresh budget, with the truncation flag, its reason, the node count, no estimate of the omitted nodes, and the diagnostics as they are |
| AstWalker.WalkGraph | src/cpp_mcp/core/ast_walker.py:248-315 | Appends to the shared lists the nodes and parent edges of what the budget admits of the pruned preorder; the id returned is the cursor's, or none if it is not emitted |
| AstWalker.WalkGraphChildren | src/cpp_mcp/core/ast_walker.py:301-313 | The same for the loop over children |
| AstWalker.GraphAst | src/cpp_mcp/core/ast_walker.py:318-353 | The same from a fresh budget and empty lists, with the same summary |
| AstWalker.SpentConcat | src/cpp_mcp/core/ast_walker.py:133-152 | Charging a list in two parts admits and spends what charging it at once does |
| AstWalker.AdmittedIsFirst | src/cpp_mcp/core/ast_walker.py:133-152 | Where the budget stops is the first position at which the node count or the byte total reaches its limit, or the end; with the final counts and reason |
| AstWalker.BudgetedPrefix | src/cpp_mcp/core/ast_walker.py:173-203 | Whatever the limits, a walker reports the first k rows of the unbudgeted preorder and nothing else, for the first k at which a limit is reached; at least the first row; not truncated implies all of them |
| AstWalker.NextChild | src/cpp_mcp/core/ast_walker.py:193-200 | What a budget admits of a list of subtrees is what it admits of the first, then what is left admits of the rest, numbered on from the nodes emitted |
| AstWalker.RowsAreNumbered | src/cpp_mcp/core/ast_walker.py:178-179 | Ids are consecutive in preorder; every row but the first has an earlier row for its parent |
| AstWalker.OverlapsIsInSight | src/cpp_mcp/core/ast_walker.py:102-114 | A cursor that occupies lines is kept if and only if one of them is within the bounds given, for any range whose bounds are in order |
| AstWalker.OverlapsOtherwise | src/cpp_mcp/core/ast_walker.py:104-110 | Without bounds, or without an extent, a cursor is kept; an unknown line counts as line 0 |
| AstWalker.ToNodeIs | src/cpp_mcp/core/ast_walker.py:94-99 | A node repeats its cursor's scalars and the lines its extent starts and ends on, 0 where unknown |
| AstWalker.EdgeTypeOf | src/cpp_mcp/core/ast_walker.py:283-288 | The four kinds of reference make type edges, calls and methods call edges, and nothing else a call edge |
| AstWalker.PrunedTree | src/cpp_mcp/core/ast_walker.py:102-114 | The unbudgeted preorder is the whole range-pruned tree: below each cursor are, in order, its children that overlap the range, which of children that occupy lines are exactly those with a line in it |
| AstWalker.DepthLimit | src/cpp_mcp/core/ast_walker.py:184-198 | The preorder with a depth limit is the unlimited one down to that depth, with its depths, renumbered; a node is marked truncated exactly if it is at that depth and its cursor has children |
| AstWalker.RowsDownTo | src/cpp_mcp/core/ast_walker.py:184-198 | The same for any subtree, at any depth and numbering |
| AstWalker.DeepEnough | src/cpp_mcp/core/ast_walker.py:184-190 | A depth limit no smaller than the height of the tree cuts nothing |
| AstWalker.WalkersAgree | src/cpp_mcp/core/ast_walker.py:160-315 | With such a limit the flattened JSON tree is the graph under the same budgets: same nodes in order, and the graph's edges are the parent/child pairs |
| AstWalker.GraphIsTree | src/cpp_mcp/core/ast_walker.py:276-296 | Under any budget the graph is a tree rooted at id 1: ids 1, 2, ..., one edge into every node but the first, from a smaller id, typed by the child's kind; nothing dangles |
| TuCache.TUCache.Create | src/cpp_mcp/core/tu_cache.py:62-70 | A cache, empty with zero counters, if and only if the capacity is positive |
| TuCache.TUCache.GetOrParse | src/cpp_mcp/core/tu_cache.py:76-152 | A request's result and new state, for hits, stale entries, misses and a parser that raises, are those of `Request`, of which `RequestAnswer` says what is returned; keys stay unique and the size within capacity |
| TuCache.RequestAnswer | src/cpp_mcp/core/tu_cache.py:103-152 | A request is flagged a hit if and only if a unit with the present time of its source is stored, and then returns that unit; else it returns the parser's unit, or fails if and only if the parser does; the unit returned is the one stored afterwards, with the time after the parse; one counter goes up by one |
| TuCache.TUCache.AddEntry | src/cpp_mcp/core/tu_cache.py:142-150 | The eviction loop drops exactly the oldest entries in excess and leaves the new one last, the others in order |
| TuCache.TUCache.Invalidate | src/cpp_mcp/core/tu_cache.py:154-175 | Deleting the collected keys one by one leaves exactly the slots that do not match, in order; returns how many went |
| TuCache.TUCache.Stats | src/cpp_mcp/core/tu_cache.py:188-203 | The size, the capacity and the counters, and a hit rate that times all lookups is the hits, 0 without lookups |
| TuCache.TUCache.Clear | src/cpp_mcp/core/tu_cache.py:205-208 | Drops every entry and no counter |
| TuCache.RequestValid | src/cpp_mcp/core/tu_cache.py:99-152 | Every request keeps keys unique and the size within capacity |
| TuCache.LookUpValid | src/cpp_mcp/core/tu_cache.py:103-122 | The first critical section keeps the same, and after a miss the key is not stored |
| TuCache.InsertValid | src/cpp_mcp/core/tu_cache.py:143-150 | The second critical section keeps the same |
| TuCache.InsertKeeps | src/cpp_mcp/core/tu_cache.py:146-150 | An insertion evicts nothing while there is room, and just the oldest entry when there is none |
| TuCache.PurgeValid | src/cpp_mcp/core/tu_cache.py:165-174 | Invalidation keeps uniqueness, and removes a key if and only if it has the file and, when a build is given, that build; every other entry stays |
| OrderedStore.AssignThenMove | src/cpp_mcp/core/tu_cache.py:149-150 | Assigning a key and moving it to the end leaves it last and the others as they were, present or not |
| LruInclusion.InclusionTheorem | src/cpp_mcp/core/tu_cache.py:103-175 | The same requests, invalidations and clears on empty caches of capacities c1 <= c2: at the end the smaller store is the most recently used segment of the larger, every hit of the smaller was one of the larger, misses only shrink |
| LruInclusion.RunKeepsInclusion | src/cpp_mcp/core/tu_cache.py:103-175 | The same from any two caches in that relation, with the relation kept |
| LruInclusion.StepKeepsInclusion | src/cpp_mcp/core/tu_cache.py:103-208 | Each operation keeps the relation, and a hit in the smaller cache is one in the larger |
| LruInclusion.ParseKeepsInclusion | src/cpp_mcp/core/tu_cache.py:126-150 | When the smaller cache parses, the larger having hit or missed, both end with the same segment |
| LruInclusion.RefillBoth | src/cpp_mcp/core/tu_cache.py:112-150 | What the smaller cache parses anew is what the larger moves to its end |
| LruInclusion.InsertBoth | src/cpp_mcp/core/tu_cache.py:143-150 | Insertion with eviction in both caches keeps the segment |
| ParseOptions.StripUndoesEffective | src/cpp_mcp/core/clang_session.py:151-157 | The parser is called with the caller's flags if and only if none of them starts with the marker; in any case with the caller's unmarked flags |
| ParseOptions.SharedKey | src/cpp_mcp/core/clang_session.py:148-151 | Two requests share a key if and only if they are the same, or one has no options and its flags are the other's followed by the marker of the other's options |
| ParseOptions.SlotIsShared | src/cpp_mcp/core/clang_session.py:148-151 | A request shares its key with one of other options if and only if it has options itself, or its last flag is the marker followed by a decimal number other than 0 without leading zeros |
| ParseOptions.EffectiveInjective | src/cpp_mcp/core/clang_session.py:148-151 | Requests without marker flags share a key if and only if they are the same request |
| ParseOptions.RenderInjective | src/cpp_mcp/core/clang_session.py:151 | Different options other than 0 are rendered differently |
| ParseOptions.MarkerHasOptions | src/cpp_mcp/core/clang_session.py:151 | Every flag that reads like a marker is the one added for some options |
| ParseOptions.MarkersCollide | src/cpp_mcp/core/clang_session.py:151-154 | A caller's marker flag that shares a cache slot with another caller's options |
| TuCacheThreads.SafetyTheorem | src/cpp_mcp/core/tu_cache.py:102-175 | After any interleaving of any threads and any file changes: keys unique, size within capacity, entries in ascending order of last use, and misses = in flight + failed + stored + evicted + overwritten + cleared |
| TuCacheThreads.StepIsSafe | src/cpp_mcp/core/tu_cache.py:102-208 | Every single step keeps all of that |
| TuCacheThreads.EvictsLeastRecentlyUsed | src/cpp_mcp/core/tu_cache.py:146-148 | Each entry evicted for room was used before every entry kept, and is gone |
| TuCacheThreads.HitTheorem | src/cpp_mcp/core/tu_cache.py:107-133 | After any run: a hit's source exists at the recorded positive time, so neither failure stamp ever matches; its unit is what parsing the source as it was at the time seen gave, for a request with the same key; it is what parsing the present source gives if the time seen is the recorded one |
| TuCacheThreads.FreshExactly | src/cpp_mcp/core/tu_cache.py:107-133 | After any run without marker flags, races included: a hit is fresh if its source had the same time at the parse as at the stat after it; with a parser that tells contents apart, it is fresh if and only if the two versions have the same content, and, when no two versions of the file do, if and only if the two times are the same |
| TuCacheThreads.StampedAsSeen | src/cpp_mcp/core/tu_cache.py:125-133 | The stamp a thread takes is the time it saw at the parse if and only if no event in between wrote or deleted its file, whatever else happened |
| TuCacheThreads.TimeKept | src/cpp_mcp/core/tu_cache.py:107-112 | A file's time is a given past one after a run exactly if it was before and the run did not touch the file |
| TuCacheThreads.FreshnessTheorem | src/cpp_mcp/core/tu_cache.py:107-133 | After any run in which no file changes between a parse of it and the stat after it, and no caller passes a marker flag: every hit returns what parsing the present source with the caller's own flags and options gives |
| TuCacheThreads.StepIsTraced | src/cpp_mcp/core/tu_cache.py:125-150 | Every step keeps the provenance of entries and threads; a quiet one keeps their stamps true |
| TuCacheThreads.RacedHitIsStale | src/cpp_mcp/core/tu_cache.py:128-133 | A run with a write between parse and stat after which a hit returns the unit of the old content |
| TuCacheThreads.SingleWorkerTheorem | src/cpp_mcp/core/clang_session.py:110-114 | When a request starts only with none in flight, no insertion ever overwrites an entry |
| TuCacheThreads.RequestRefines | src/cpp_mcp/core/tu_cache.py:99-152 | The four steps of a request with nothing in between are the sequential cache's request: the same cache and counters, and its answer is the unit of the hit, or the one parsed, or the failure |
| TuCacheThreads.LookUpRefines | src/cpp_mcp/core/tu_cache.py:103-122 | The lookup step is the sequential lookup, with its result |
| TuCacheThreads.InsertRefines | src/cpp_mcp/core/tu_cache.py:143-150 | The insertion step is the sequential insertion |
| TuCacheThreads.InvalidateRefines | src/cpp_mcp/core/tu_cache.py:154-175 | The invalidation and clearing steps are the sequential ones, with the evictions they count |
| GraphStore.ApplyVertices | src/cpp_mcp/graphdb/indradb_driver.py:143-156 | After any writes the vertices are the old and the written ones; a stored label never changes |
| GraphStore.ApplyLabels | src/cpp_mcp/graphdb/indradb_driver.py:154-156 | After any writes a vertex has the label it had before, else that of the first write to it |
| GraphStore.ApplyVertexProps | src/cpp_mcp/graphdb/indradb_driver.py:157-165 | A vertex property is the last one written, else the old one; every write of a vertex writes its USR |
| GraphStore.ApplyEdges | src/cpp_mcp/graphdb/indradb_driver.py:191-213 | An edge is stored if and only if it was, or some write of it found both endpoints |
| GraphStore.TimelyEdgeProps | src/cpp_mcp/graphdb/indradb_driver.py:214-220 | When no edge is written too early, a stored edge's property is the last one written, else the old one; an edge not stored gets none |
| GraphStore.TimelyAccepts | src/cpp_mcp/graphdb/indradb_driver.py:197-213 | In such a list each edge write is accepted exactly if the edge is stored in the end |
| GraphStore.ApplyIdempotent | src/cpp_mcp/graphdb/indradb_driver.py:143-222 | Such a list applied again changes nothing: vertices, edges or any property |
| GraphStore.RepeatedNodes | src/cpp_mcp/graphdb/driver.py:68-76 | A batch of nodes written again changes nothing, so the upsert returns 0 |
| GraphStore.RepeatedEdges | src/cpp_mcp/graphdb/driver.py:78-85 | A batch of edges written again changes nothing, dropped edges included |
| GraphStore.SaturatedVertices | src/cpp_mcp/graphdb/indradb_driver.py:149-156 | With all written vertices stored, no write changes the vertices and no edge is early |
| IndraDriver.IndraDBDriver.Connect | src/cpp_mcp/graphdb/indradb_driver.py:92-119 | Without a client it fails and keeps the old one; a new client is kept even if its ping raises |
| IndraDriver.IndraDBDriver.UpsertNodes | src/cpp_mcp/graphdb/indradb_driver.py:125-167 | The result is exactly the growth of the vertex set, so duplicates in a batch count once and a repeat returns 0 (contract at src/cpp_mcp/graphdb/driver.py:68-76); the store is the batch applied; if a call raises, at most vertices of the batch were added; without a client, 0 |
| IndraDriver.IndraDBDriver.UpsertEdges | src/cpp_mcp/graphdb/indradb_driver.py:173-222 | The same for edges, those the store drops not counted |
| IndraDriver.IndraDBDriver.Close | src/cpp_mcp/graphdb/indradb_driver.py:228-240 | The client is released; closing again changes nothing |
| IndraDriver.UpsertNode | src/cpp_mcp/graphdb/indradb_driver.py:143-165 | One record: check, create, properties; counts 1 exactly if the vertex is new |
| IndraDriver.UpsertEdge | src/cpp_mcp/graphdb/indradb_driver.py:191-220 | One record: check, create, verify, properties; counts 1 exactly if the edge is new and was stored |
| IndraDriver.SetVertexProperties | src/cpp_mcp/graphdb/indradb_driver.py:157-165 | In whatever order the properties are written, all of them overwrite and no other changes |
| IndraDriver.SetEdgeProperties | src/cpp_mcp/graphdb/indradb_driver.py:214-220 | The same for an edge; nothing if it is not stored |
| Ingest.ExportFile | src/cpp_mcp/graphdb/exporter.py:1255-1273 | Nodes then edges; the written counts are exactly the growth of the store and at most the attempted ones; on an exception at most records of the file were added |
| Ingest.IngestFiles | src/cpp_mcp/tools/ingest_code.py:107-149 | Every file has its turn on the store its predecessors left, whatever failed before: it is exported, with exact counts, or recorded as failed once and in order; the totals are the sums over the exported files; if no file fails but by not parsing, the store is a pass over the good files, written counts are the growth and attempted counts the sizes of their batches; with a reliable client the errors are exactly the files that do not parse; the driver ends closed |
| Ingest.GoodFilesPass | src/cpp_mcp/tools/ingest_code.py:114-127 | A run in which files fail only by not parsing leaves what a pass over the others does, with the totals of those |
| Ingest.TotalIsModest | src/cpp_mcp/tools/ingest_code.py:123-126 | Whatever fails, the written totals are at most the growth of the store and at most the attempted ones |
| Convergence.TwoPassesConverge | src/cpp_mcp/tools/ingest_code.py:114-127 | Two passes over any files into any store leave all their vertices, and exactly the edges stored before or extracted with both endpoints stored; a third pass changes nothing, properties included |
| Convergence.PassLabels | src/cpp_mcp/graphdb/indradb_driver.py:154-156 | After one pass or two a vertex has the label it had before, else that of its first record in the first file that has one |
| Convergence.OrderIsIrrelevant | src/cpp_mcp/tools/ingest_code.py:114-127 | The vertices and edges after two passes do not depend on the order of the files or on repetitions |
| Convergence.PassStores | src/cpp_mcp/graphdb/indradb_driver.py:191-213 | One pass stores exactly the edges stored before and those in time: of some file by which their endpoints have come |
| Convergence.OnePassSuffices | src/cpp_mcp/graphdb/indradb_driver.py:191-213 | One pass stores the edges two do if and only if every extracted edge whose endpoints are stored or extracted was stored before, or is in time |
| ExporterExamples.ForwardReferenceNeedsTwo | src/cpp_mcp/graphdb/indradb_driver.py:203-213 | The extractions of two small trees, the first referring to a function the second defines: the first pass loses the reference, the second stores it |
| Convergence.LandsInTime | src/cpp_mcp/tools/ingest_code.py:114-127 | Some write of an edge finds its endpoints in a pass exactly if the endpoints come with a file of the edge or before it |
| Convergence.LandsInFile | src/cpp_mcp/graphdb/exporter.py:1258-1259 | Within a file, an edge finds its endpoints exactly if they are stored or among the file's nodes |
| Convergence.FileIsTimely | src/cpp_mcp/graphdb/exporter.py:1258-1259 | Nodes first: within a file no edge is written too early |
| Convergence.ExportIdempotent | src/cpp_mcp/graphdb/exporter.py:1258-1259 | Exporting a file again changes nothing, last-written properties included |
| Exporter.Extraction.GetOrCreateType | src/cpp_mcp/graphdb/exporter.py:421-481 | Terminates even on cyclic pointees, as fewer types remain unseen; the lists are those of `EnsureType`, the result the type's USR if it has a spelling |
| Exporter.Extraction.EmitInclude | src/cpp_mcp/graphdb/exporter.py:819-845 | A file node, with its path, spelling and schema version, at the first inclusion; an INCLUDES edge at each |
| Exporter.Extraction.EmitSymbol | src/cpp_mcp/graphdb/exporter.py:911-972 | A symbol's node, and the type of a field or variable, at the first visit only |
| Exporter.Extraction.EmitStructure | src/cpp_mcp/graphdb/exporter.py:977-1023 | One MEMBER_OF, DEFINES or DECLARES edge |
| Exporter.Extraction.EmitBases | src/cpp_mcp/graphdb/exporter.py:1028-1045 | An INHERITS edge for each base with a definition, in order |
| Exporter.Extraction.EmitCalls | src/cpp_mcp/graphdb/exporter.py:1050-1065 | The CALLS branch where the code has it |
| Exporter.Extraction.EmitReturn | src/cpp_mcp/graphdb/exporter.py:1075-1086 | The return type's node and a RETURNS edge |
| Exporter.Extraction.EmitParam | src/cpp_mcp/graphdb/exporter.py:1093-1137 | A parameter, marked seen before its type is made and appended after, once |
| Exporter.Extraction.EmitAllFor | src/cpp_mcp/graphdb/exporter.py:910-1139 | All of a symbol's records, in the code's order |
| Exporter.Extraction.WalkCursor | src/cpp_mcp/graphdb/exporter.py:782-1167 | The shared lists after the recursive walk are those of the tree's operations applied in turn, for any lists and context it starts with |
| Exporter.Extraction.WalkChildren | src/cpp_mcp/graphdb/exporter.py:1142-1167 | The same for the loop over children |
| Exporter.ExtractNodesAndEdges | src/cpp_mcp/graphdb/exporter.py:1183-1228 | The walk from the file's node, then REFERENCES edges covered by a CALLS edge dropped |
| ExporterIntegrity.ReferentialIntegrity | src/cpp_mcp/graphdb/exporter.py:782-1228 | For every tree: node USRs are pairwise distinct and exactly those seen; every edge starts at an emitted node and ends at one unless it is REFERENCES, INHERITS or CALLS |
| ExporterIntegrity.EnsureTypeKeepsInv | src/cpp_mcp/graphdb/exporter.py:446-479 | Making types keeps this while a parameter is seen but not yet appended, and adds only types |
| ExporterIntegrity.ParamKeepsInv | src/cpp_mcp/graphdb/exporter.py:1093-1137 | A parameter passes from pending to emitted, and its edges are attached |
| ExporterIntegrity.WalkKeepsInv | src/cpp_mcp/graphdb/exporter.py:782-1167 | Walking any subtree in a context of emitted symbols keeps this |
| ExporterIntegrity.WithoutCoveredIsPart | src/cpp_mcp/graphdb/exporter.py:1215-1226 | The dedup keeps exactly the edges that are not REFERENCES covered by a CALLS pair |
| ExporterPaths.ContextBelow | src/cpp_mcp/graphdb/exporter.py:885-904 | The context handed down from cursor to cursor is what a search over the ancestors finds: the nearest symbol of the file unless a cursor of another file is nearer, and the nearest function of the file |
| ExporterPaths.WalkFollowsPaths | src/cpp_mcp/graphdb/exporter.py:813-1167 | The walk does, in preorder, what each root-to-cursor path calls for; nothing below parameters and inclusion directives |
| ExporterPaths.WalkEdges | src/cpp_mcp/graphdb/exporter.py:813-1167 | All edges but OF_TYPE, HAS_PARAM, POINTS_TO and REFERS_TO are those the paths call for, in order |
| ExporterPaths.StructureTheorem | src/cpp_mcp/graphdb/exporter.py:974-1023 | The DEFINES, DECLARES and MEMBER_OF edges of any tree are, in preorder, one for each visit of a symbol, tied to its nearest deciding ancestor or the file |
| ExporterPaths.StructureKinds | src/cpp_mcp/graphdb/exporter.py:977-1023 | There is a MEMBER_OF edge if and only if a field, method, constructor or destructor is visited directly in a record, with its resolved access; a DEFINES or DECLARES edge if and only if another symbol is, DEFINES for a definition |
| ExporterPaths.StructureAt | src/cpp_mcp/graphdb/exporter.py:974-1023 | Exactly one structure edge at each visit of a symbol and none at any other cursor |
| ExporterPaths.ReferencesTheorem | src/cpp_mcp/graphdb/exporter.py:853-869 | The REFERENCES edges, after the dedup, are one for each use of a symbol, from the nearest enclosing function of the file, else from the file |
| ExporterPaths.ReferencesAt | src/cpp_mcp/graphdb/exporter.py:853-869 | The same for each path |
| ExporterPaths.InheritsTheorem | src/cpp_mcp/graphdb/exporter.py:1028-1045 | The INHERITS edges are, in preorder, those of each visit of a class, one for each base specifier whose base has a definition, in order; there is one if and only if a class of the file is visited with such a base, from the class to the base |
| ExporterPaths.ReturnsTheorem | src/cpp_mcp/graphdb/exporter.py:1075-1086 | The RETURNS edges are, in preorder, one for each visit of a function whose result type has a spelling, from the function to that type, and no others |
| ExporterPaths.IncludesTheorem | src/cpp_mcp/graphdb/exporter.py:819-848 | The INCLUDES edges are, in preorder, one for each inclusion directive that finds its file, from the exported file to that one, and no others |
| ExporterPaths.CallsAreNeverEmitted | src/cpp_mcp/graphdb/exporter.py:1050-1065 | No tree yields a CALLS edge, so the dedup removes nothing |
| ExporterPaths.CallsPromise | src/cpp_mcp/graphdb/exporter.py:39-54 | The documented CALLS edges are emitted if and only if there are none to emit: no call expression of the file is inside a symbol and names its function |
| ExporterExamples.CallIsMissing | src/cpp_mcp/graphdb/exporter.py:1050-1065 | A tree with a call inside a function of the file, whose documented CALLS edge is not extracted |
| ExporterTypes.ChainTheorem | src/cpp_mcp/graphdb/exporter.py:444-479 | Whatever the ties among types, every type node has exactly the POINTS_TO or REFERS_TO edge of a type with its spelling, and none if that has none |
| ExporterTypes.DecidedChains | src/cpp_mcp/graphdb/exporter.py:435-481 | When spellings decide kinds and pointees, every pointer or reference type has exactly one edge, to its own pointee, if that has a spelling; other types none |
| ExporterTypes.EnsureTypeChains | src/cpp_mcp/graphdb/exporter.py:444-479 | Making a type completes it and all types made below it, while those still open wait for their edge |
| ExporterTypes.ParameterTheorem | src/cpp_mcp/graphdb/exporter.py:1091-1137 | However often a function is declared, its HAS_PARAM edges carry the indices 0 to m - 1 in order, once each, m being the largest arity visited, and its parameter nodes are theirs |
| ExporterTypes.PathsArity | src/cpp_mcp/graphdb/exporter.py:1091-1096 | Parameters come contiguously, up to the largest arity among the visits |
| ExporterTypes.TypedOnceTheorem | src/cpp_mcp/graphdb/exporter.py:961-1137 | No node, parameters included, ever has two OF_TYPE edges |
| ExporterNodes.FirstVisitTheorem | src/cpp_mcp/graphdb/exporter.py:910-953 | The symbol nodes are one for each symbol visited, as its first visit shows it, in the order of first visits |
| ExporterNodes.PathsSymbols | src/cpp_mcp/graphdb/exporter.py:910-953 | The same for any list of visits |
| ExporterRecords.RecordsTheorem | src/cpp_mcp/graphdb/exporter.py:825-1137 | For every USR but a type's: it has exactly one node if it is the file or some visit shows it (an inclusion of a file, a symbol, a function with that parameter), else none; the first such visit decides the node's label and properties, and its one OF_TYPE edge, which a field, variable or parameter has if and only if its type has a spelling |
| ExporterRecords.TypeNodesTheorem | src/cpp_mcp/graphdb/exporter.py:444-448 | Every type node has the label, USR and properties of a type with its spelling |
| Cursors.KindTables | src/cpp_mcp/graphdb/exporter.py:104-201 | How the tables of kinds fit together: the Function label is that of the kinds that enclose references, the Class label that of the kinds with members, all but unions with bases; members are fields and the functions that belong to a record; static fields are variables |
| Cursors.ResolveAccess | src/cpp_mcp/graphdb/exporter.py:212-245 | An explicit access is kept; an unspecified one is public in structs and unions, private elsewhere |
| Cursors.TypeUsrIs | src/cpp_mcp/graphdb/exporter.py:435-446 | A type has a USR if and only if it is there and has a spelling, and then that of its spelling |
| ExporterSpec.SymbolKinds | src/cpp_mcp/graphdb/exporter.py:885-910 | A cursor becomes a node of its own if and only if it is of the file, or of no file, has a USR, and is of one of sixteen kinds; parameters are labelled but excluded |
| ExporterSpec.FileNodes | src/cpp_mcp/graphdb/exporter.py:827-836 | An included file's node has its whole path for a spelling, the exported file's its name; both have the schema version |
| ExporterSpec.FileNameIs | src/cpp_mcp/graphdb/exporter.py:1188-1192 | A path's name is what follows its last slash |
| ExportToStore.ExportStores | src/cpp_mcp/graphdb/exporter.py:1255-1259 | Exporting a file into any store stores every node, a new one with its label, every edge but cross references at once, from its source to its target, and a cross reference exactly if its target is stored, unless it was before; into an empty store every node counts |
| ExportToStore.ExportProperties | src/cpp_mcp/graphdb/indradb_driver.py:157-165 | After an export each node has its USR and its extracted properties stored; others it had are kept |
| ExportToStore.StoredAccess | src/cpp_mcp/graphdb/exporter.py:979-993 | After an export into an empty store exactly the MEMBER_OF edges have an access, the one last written, one of the three |
| ExportToStore.ExtractAccessOk | src/cpp_mcp/graphdb/exporter.py:985-993 | Exactly the extracted MEMBER_OF edges carry an access, one of the three |
| QueryExecutor.Executor.Execute | src/cpp_mcp/graphdb/indradb_query_executor.py:262-271 | However the answers are split into batches: as many rows as the naive answer has, but at most `row_limit`, are returned, from its start and in its order, each with its own full properties, and `truncated` holds if and only if there are more |
| QueryExecutor.Executor.Dispatch | src/cpp_mcp/graphdb/indradb_query_executor.py:311-421 | The same, with the total before truncation |
| QueryExecutor.FetchRows | src/cpp_mcp/graphdb/indradb_query_executor.py:135-173 | One properties answer gives each row exactly its own properties, none for an item without |
| QueryExecutor.SelectByProperty | src/cpp_mcp/graphdb/indradb_query_executor.py:367-421 | Filtering by the collected maps is filtering by each item's own property |
| QueryExecutor.ChooseByType | src/cpp_mcp/graphdb/indradb_query_executor.py:327-347 | The items of a type, or all, in order |
| QueryExecutor.FlattenBatches | src/cpp_mcp/graphdb/indradb_query_executor.py:176-178 | The batches of an answer, in order, as one list |
| QueryExecutor.CollectProperties | src/cpp_mcp/graphdb/indradb_query_executor.py:146-151 | The three nested loops depend only on the properties in the order they come, not on the batches |
| QueryExecutor.CollectedIsStored | src/cpp_mcp/graphdb/indradb_query_executor.py:146-173 | A true answer that covers an item gives it its stored properties, no more and no fewer, even if its properties come in several parts |
| QueryExecutor.NaiveHas | src/cpp_mcp/graphdb/indradb_query_executor.py:311-421 | A row is in the naive answer if and only if its item is stored, has those properties and is selected |
| QueryExecutor.NaiveConcat | src/cpp_mcp/graphdb/indradb_query_executor.py:311-421 | The naive answer keeps the items' order and repetitions |
| QueryExecutor.TypeVerbs | src/cpp_mcp/graphdb/indradb_query_executor.py:311-353 | The all verbs return every item, the by-type verbs exactly those of the type |
| QueryExecutor.FlattenConcat | src/cpp_mcp/graphdb/indradb_query_executor.py:176-178 | Flattening keeps the batches in order, and adds and drops nothing |
| QueryExecutor.EqualValues | src/cpp_mcp/graphdb/indradb_query_executor.py:407-414 | Compared values are equal if they are the same, or one is a boolean and the other the number 1 or 0 it stands for |
| QueryExecutor.PropertyVerb | src/cpp_mcp/graphdb/indradb_query_executor.py:375-414 | The by-property verbs select an item that has the property if and only if the value is equal (booleans counting as numbers), and one that lacks it if and only if the query is for null |
| QueryExecutor.NullFindsMissing | src/cpp_mcp/graphdb/indradb_query_executor.py:375-377 | A vertex without any property that a query for null returns |
| ExportPipeline.ExportUnit | src/cpp_mcp/graphdb/exporter.py:1236-1273 | From a tree to the store: what the extraction yields is applied, and the four counts are right |
| ExportPipeline.AccessQuery | src/cpp_mcp/graphdb/indradb_query_executor.py:384-421 | After an export into an empty store, asking for the edges with a given access returns exactly the stored MEMBER_OF edges whose last written access it is |

## Left out

- The probes of single properties (function signatures, class kinds, qualifiers, storage class, default values, locations): their results are inputs.
- The `try` fallbacks around cursor attributes, and what a partly failed probe leaves behind.
- The bodies of the other drivers (Neo4j, Cognee) and their coercions, and the schema introspector.
- Path checks, the compile database, URI schemes, configuration, request validation, error texts, timing and logging.
- The query executor's parsing and checking of the query text and its arguments, the `pipe` verb, the shape of a row's text fields, and the guard that skips an edge with an empty id or type in an answer.
- The conversion of property values that are no scalars, and the text of USRs: a query for a USR by its text is not modelled.
- Reading the file and matching the directive pattern: the scanner starts from classified lines and the set of active lines. The visitor that replaces the scanner when it raises is not modelled, nor are macros.
- ConditionalScanner.ScanConditionals: entries are values, so that a dictionary could be shared between the stack and the output is not captured; the code copies it where it stays on the stack.
- The shape of a diagnostic in the walkers' results, and columns in a node's extent.
- Real paths and the hash of flags: a cache key holds paths and flags themselves. Included headers do not count as part of a source, as the cache compares only the source's own time.
- TuCacheThreads.FreshnessTheorem: says nothing of a run with a write between a parse and its stat; what holds of each hit in every run is `TuCacheThreads.FreshExactly`.
- IndraDriver.Client.Call: a call raises without effect; one that takes effect on the server and then raises is not modelled.
- IndraDriver.IndraDBDriver.UpsertNodes: of a batch whose write raises, the contract bounds the vertices and edges added, not the properties written.
- The export over a directory outside the ingest tool, and the collection of its files.
