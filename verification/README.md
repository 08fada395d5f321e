# RUNE verification model

RUNE collects engineering artifacts from company systems, links them into a traceability graph, lets people approve
the links, and reports gaps. This project models its deterministic cores in Dafny 4.11 and proves what they promise:
for every input, along every run, and across the functions and programs that have to agree.

To verify the project: `dafny verify dfyconfig.toml`.

## What is modelled

- **Graph traversal and layout.** `Distances` defines walks, shortest distances and balls; `ChainWalk` and
  `TraceabilityChain` are the depth- and size-capped breadth-first search of the chain view; `Neighborhood` and `Projection` are
  the undirected neighbourhood and the view built on it; `GraphWorkbench` and `WorkbenchLayout` are the browser's components,
  distances and the two layouts.
- **Text.** `Masking` models each regular expression as the length of its match at a position and one generic leftmost
  substitution; `Chunking` is the window loop; `PlanText` is Python's `splitlines`, `strip` and `split` with the line
  format that two release programs share.
- **Leases.** `SchedulerLease` has the lease table and the worker as classes, and their protocol as a state machine over
  acquire, finish, crash and tick with one clock.
- **Stores and restart.** `StateStores` has the one-table store, the store with typed mirror tables and the simulation
  between them; `Restart` is the write-through cache over the former.
- **Approvals.** `Approvals` has the graph backend and the approval service as classes and their runs as a transition
  system; `Idempotency` is the record of answered commands, `ApprovalRoutes` the decision endpoint over all of them, and
  `PromotionRoutes` the promotion and rollback endpoints.
- **Linking and findings.** `Linking` and `Findings` go from fetched artifacts to reported gaps.
- **Improvements, audit, sources.** `Improvements` is the evaluation gate and the promotion routes; `AuditTrail` the
  recording and retention of audit events; `SourcePaging` and `Retry` the fetching of pages.
- **Release evidence.** `Readiness`, `StagingPlan`, `GoalCompletion` and `HandoffBundle` are the readiness report, the
  rendered plan, the completion audit, and the bundle builder and its validator.

`Text`, `Lists` and `Sorting` hold Python's string order, `sorted` and comprehensions.

Methods follow the loops and field updates of the source; each is proved against a specification function or predicate,
and the lemmas beside it say what that specification means.

## Conventions

- `stable_hash` and SHA-256 are taken to be injective: an id that is a hash is modelled by what is hashed. The truncation
  of hashes to sixteen digits is not part of this model.
- Times are integers of one monotone clock, scores are reals, JSON and Pydantic round trips are the identity.
- Python dictionaries are maps; where their insertion order matters they are sequences of entries with distinct keys.
- A table is a map from ids to rows; a server is any function from calls to answers.
- Errors are values: `Option`, `Result` or an outcome datatype in place of an exception or an HTTP status.

## Where the code falls short of the expected property

- Chunk offsets do not follow the text when whitespace is stripped on the left (`Chunking.OffsetsQuoteChunk`).
- An unknown reason code raises after the approval was committed (`Approvals.RaisesAndChangesIff`), and leaves its
  idempotency key free for another decision (`ApprovalRoutes.RaisingDecisionKeepsKeyFree`): a command changes the state at
  most once under a key if and only if it is atomic (`Idempotency.AtMostOnceIff`), and the decision command is not.
- A correction may move an edge to an unknown source node (`ApprovalRoutes.CorrectedSource`); while it is in the graph the
  persist call of every decision raises (`ApprovalRoutes.NoResponseUnlessPersistable`, `Restart.RuntimeState.PersistEdges`).
- A corrected delta takes the id of another item's staged delta exactly when one edge id is another with `_modified_v1`
  appended (`Approvals.RunsOnTargetIff`).
- Two edges staged under one id share one delta: approving the first item commits the edge staged last
  (`Approvals.ApprovalCommitsLastStaged`).
- An item that is staged and decided a second time reuses its commit key, so a new approval or correction does not reach the
  graph (`Approvals.CommitShowsInGraph`).
- After pruning, a new audit event may take the id of one still held (`AuditTrail.PruningFreesANumberInUse`).
- A first idempotency header of white space hides a good second one (`Idempotency.BlankPrimaryHidesFallback`).
- New feedback under its reason leaves an improvement candidate unreachable, active or not
  (`Improvements.NewFeedbackStrandsCandidate`), and a retry of its promotion unanswered (`PromotionRoutes.RetryAnsweredIff`).
- The handoff validator takes the JSON object `{}` for nothing to check: as the manifest it passes on its own, as a report it
  switches off the checks of that report, and a hash that is the empty text is not compared
  (`HandoffBundle.ConsistentIffAccepted`, `EmptyManifestPasses`, `EmptyReportsPass`).
- The completed cursor of a JIRA fetch counts artifacts, not issues (`SourcePaging.FetchAllJira`), and an empty page
  before the total stops all progress (`SourcePaging.StallIffEmptyPage`).
- A missing name `none` on its own is lost between the plan and its parser (`StagingPlan.RoundTripIff`).
- Running local gates three times for one bundle can make it contradict itself (`HandoffBundle.LocalGatesMayDisagree`).

## Model

| member | source | states |
|---|---|---|
| `ChainWalk.WalkChain` | src/req_tracker/graph/chain.py:138-158 | For every graph, centre, depth cap and node limit: each depth is the exact shortest distance, at most max(1, limit) nodes are selected, every node strictly nearer than the deepest selected one is selected even when the limit cuts in, and below the limit the result is exactly the ball of the cap |
| `ChainWalk.Expand` | src/req_tracker/graph/chain.py:151-157 | One pass over the sorted neighbours keeps the layered frontier and the queue order, or stops at the limit |
| `ChainWalk.NextLevel` | src/req_tracker/graph/chain.py:147-155 | When only the next depth is waiting, everything within that depth has been selected |
| `ChainWalk.Exhausted` | src/req_tracker/graph/chain.py:147-158 | With nothing waiting, nothing within the depth cap is missing |
| `ChainWalk.Discovered` | src/req_tracker/graph/chain.py:151-155 | A successor met for the first time lies exactly one step further out |
| `TraceabilityChain.BuildAdjacency` | src/req_tracker/graph/chain.py:125-135 | The adjacency holds exactly the steps of the edge records in the asked direction |
| `TraceabilityChain.NodeMap` | src/req_tracker/graph/chain.py:77 | Exactly the project's node ids, each mapped to the last listed node of that id and project |
| `TraceabilityChain.EdgeRecordsListed` | src/req_tracker/graph/chain.py:81-93 | The records are the approved edges between project nodes and, if asked for, the pending ones, each with its status and as often as listed |
| `TraceabilityChain.JoinedIsLinked` | src/req_tracker/graph/chain.py:125-135 | Stepping along records is following visible edges downstream, against them upstream, or either way |
| `TraceabilityChain.BuildTraceabilityChain` | src/req_tracker/graph/chain.py:61-118 | The whole chain, said of the nodes and edges it is asked of: clamped depth and limit; every project node once, nearer ones first, at its exact distance along visible edges in the direction asked for; every approved edge between nodes shown, and if asked for every pending one, each as often as listed, sorted; and the truncation flag, raised exactly when as many nodes as the limit were selected. When it is down the nodes are exactly the ball of the capped depth |
| `TraceabilityChain.NodeViewsKeepOrder` | src/req_tracker/graph/chain.py:104-108 | Node views come nearest first and by id within a depth |
| `TraceabilityChain.ShownCount` | src/req_tracker/graph/chain.py:104-118 | All selected nodes are shown, each once, but for a centre outside the project |
| `TraceabilityChain.DownstreamUpstreamDual` | src/req_tracker/graph/chain.py:125-158 | Untruncated downstream and upstream walks are dual: each finds the other's centre, at the same depth |
| `Neighborhood.BuildUndirected` | src/req_tracker/graph/projection.py:388-391 | The undirected adjacency holds exactly the ends of the edges, both ways |
| `Neighborhood.NeighborhoodIds` | src/req_tracker/graph/projection.py:383-404 | Exactly the nodes within `hops` undirected steps, whatever the set iteration order |
| `Neighborhood.NeighborhoodSymmetric` | src/req_tracker/graph/projection.py:383-404 | A node lies in another's neighbourhood exactly when the other lies in its own |
| `Projection.DegreeByNode` | src/req_tracker/graph/projection.py:232-250 | Four counters per node, each the number of edges it counts |
| `Projection.NoDegreeIff` | src/req_tracker/graph/projection.py:273-291 | A node's degree is zero exactly when no edge ends at it: the orphans are the isolated nodes |
| `Projection.BeforeIff` | src/req_tracker/graph/projection.py:407-417 | Orphans first, then the risky, then those with pending edges, then by type and id |
| `Projection.SelectNodes` | src/req_tracker/graph/projection.py:312-335 | The wanted nodes matching the search, each as often as listed, in order, up to the limit; nothing left out comes before anything kept |
| `Projection.BuildGraphProjection` | src/req_tracker/graph/projection.py:122-225 | The whole projection: dropped edges, views with their four degrees, selected nodes, the edges each filter shows, truncation flag |
| `Projection.ShownEdgesJoinShownNodes` | src/req_tracker/graph/projection.py:168-188 | Every edge shown joins two nodes shown |
| `Projection.ShownShows` | src/req_tracker/graph/projection.py:338-349 | Each edge between shown nodes that passes the filter is shown as often as listed: all, approved, pending, into the centre, or out of it |
| `Projection.OrphansShowNoEdges` | src/req_tracker/graph/projection.py:312-335 | The orphan view shows no edges at all |
| `Projection.NeighborhoodShowsBall` | src/req_tracker/graph/projection.py:312-335 | Without search and below the limit the neighbourhood view shows exactly the known nodes within the hops |
| `Projection.NeighborhoodIsConnected` | src/req_tracker/graph/projection.py:122-225 | Without search and below the limit every node of the neighbourhood view is joined to the centre by at most that many of the edges shown |
| `GraphWorkbench.BuildGraphMaps` | src/req_tracker/ui/graph_workbench.js:131-142 | The degree of a node is the number of ends that edges with both ends visible have at it, and its list holds exactly the nodes they join it to |
| `GraphWorkbench.SearchComponent` | src/req_tracker/ui/graph_workbench.js:202-215 | One search collects exactly the nodes its root reaches, each once, and none visited before |
| `GraphWorkbench.ConnectedComponents` | src/req_tracker/ui/graph_workbench.js:196-218 | The components are disjoint, closed under visible edges, connected inside, and cover exactly the visible nodes |
| `GraphWorkbench.ComponentsAreReachability` | src/req_tracker/ui/graph_workbench.js:196-218 | Two visible nodes share a component exactly when a path of visible edges joins them |
| `GraphWorkbench.ShortestDistances` | src/req_tracker/ui/graph_workbench.js:157-170 | Exact shortest distances, to exactly the reachable nodes |
| `WorkbenchLayout.PlaceEach` | src/req_tracker/ui/graph_workbench.js:172-194 | Every node of the order gets the slot of its last index, everything else stays where it was |
| `WorkbenchLayout.RadialGroupsCover` | src/req_tracker/ui/graph_workbench.js:320-327 | Centre, rings, islands and orphans together are exactly the visible nodes: nothing but the centre is at distance zero |
| `WorkbenchLayout.RadialPositions` | src/req_tracker/ui/graph_workbench.js:313-335 | The selected node, if visible, is the centre and sits in the middle; every other node is on the ring of its distance, the third for all beyond two; of those the centre does not reach, the lone ones are in the lower band and the others in the upper; nothing else is placed |
| `WorkbenchLayout.PlaceComponent` | src/req_tracker/ui/graph_workbench.js:264-276 | One node of the component, the selected one if it is there, in the middle of its cell and the others around it; nothing else moves |
| `WorkbenchLayout.ComponentPositions` | src/req_tracker/ui/graph_workbench.js:278-311 | Exactly the nodes of the components are placed: each linked component in a cell of its own, the nodes of the others on the shelf |
| `WorkbenchLayout.ApplyPins` | src/req_tracker/ui/graph_workbench.js:344-348 | A pinned node is at its pin, every other node where the layout put it |
| `WorkbenchLayout.RelationshipLayoutPositions` | src/req_tracker/ui/graph_workbench.js:337-358 | Cells exactly when there are more than 45 nodes or more than four components in which a visible edge ends, rings around one centre otherwise; either way every visible node is placed and nothing else, and a pinned node is at its pin |
| `Masking.MaskText` | src/req_tracker/ingestion/masking.py:54-64 | Three passes, addresses, serials, secrets: each input is gaps and longest matches in turn, and its output the same gaps with `[EMAIL]`, `[DEVICE_SERIAL]`, or the key with `=[SECRET]`; with the number of matches and the labels that had any |
| `Masking.SubPasses` | src/req_tracker/ingestion/masking.py:54-64 | What one pass gives, told without scanning: gaps in which no match starts, and longest matches replaced by their markers |
| `Masking.WordIsMatch` | src/req_tracker/ingestion/masking.py:41-51 | The words of each pattern are exactly what its regular expression matches |
| `Masking.Spellings` | src/req_tracker/ingestion/masking.py:44 | Which characters pass for the letters of the keys, case aside |
| `Masking.FindMaskingViolations` | src/req_tracker/ingestion/masking.py:67-91 | Exactly the default labels still visible, the caller's patterns that are found and those that are invalid, each reported once |
| `Masking.SecretStarts` | src/req_tracker/ingestion/masking.py:41-51 | A secret starts exactly where a key, its `=` and a non-space character stand |
| `Masking.SecretEnds` | src/req_tracker/ingestion/masking.py:41-51 | A secret runs to the next whitespace or to the end of the text |
| `Masking.SubKeepsClean` | src/req_tracker/ingestion/masking.py:54-64 | A substitution removes every match of its own pattern and lets no address or serial appear |
| `Masking.SecretsStayMasked` | src/req_tracker/ingestion/masking.py:54-64 | After the secret substitution no secret shows, and running it again changes nothing |
| `Masking.MaskedTextHasNoViolation` | src/req_tracker/ingestion/masking.py:54-91 | For every text the default checker finds nothing in the masked text |
| `Masking.MaskingIsIdempotent` | src/req_tracker/ingestion/masking.py:54-64 | For every text masking the masked text changes nothing; only the secrets are counted again |
| `Chunking.ChunkWindows` | src/req_tracker/ingestion/chunking.py:15-41 | For every text and positive size: ordered disjoint in-bounds windows, strictly increasing indexes, no chunk empty or too long, and the chunks without whitespace are the text without whitespace |
| `Chunking.ChunkArtifact` | src/req_tracker/ingestion/chunking.py:7-41 | The same with the edge cases: a size of zero raises, a negative size gives no chunks |
| `Chunking.WindowsDisjoint` | src/req_tracker/ingestion/chunking.py:15-41 | Different chunks come from disjoint windows, in text order |
| `Chunking.OffsetsQuoteChunk` | src/req_tracker/ingestion/chunking.py:20-38 | The recorded offsets quote the chunk exactly when its window does not start with whitespace: the evidence offsets are off otherwise |
| `SchedulerLease.LeaseTable.AcquireSchedulerLease` | src/req_tracker/storage/postgres_store.py:555-603 | Granted exactly when the row is missing, the owner's own or expired; then the row is this owner's from its first acquisition to now + ttl, else nothing changes, and no other row does |
| `SchedulerLease.LeaseTable.ReleaseSchedulerLease` | src/req_tracker/storage/postgres_store.py:605-614 | Removes the row exactly if this owner holds it; all other rows stay |
| `SchedulerLease.RunScheduler.AcquireLease` | src/req_tracker/scheduler/service.py:101-108 | Without a lease store a worker always may run; with one, it may exactly when the row is available |
| `SchedulerLease.RunScheduler.ReleaseLease` | src/req_tracker/scheduler/service.py:110-116 | Gives back at most this worker's own row |
| `SchedulerLease.RunScheduler.RunNow` | src/req_tracker/scheduler/service.py:118-153 | Counts one run or one skip, records the result, and leaves the lease table as it was apart from the own row it gives back |
| `SchedulerLease.StepKeepsInvariant` | src/req_tracker/storage/postgres_store.py:555-614 | Acquire, run, release, crash and tick keep: every run holds its row or has outlived it, and a later run acquired after every earlier expiry |
| `SchedulerLease.OverlapOnlyAfterExpiry` | src/req_tracker/storage/postgres_store.py:555-614 | In every interleaving of any number of owners, two runs of one lease overlap only if the earlier one's lease had expired when the later acquired |
| `SchedulerLease.ExclusiveWithinTtl` | src/req_tracker/scheduler/service.py:101-153 | While no lease has run out at most one owner is inside a run of it, and it holds the row |
| `SchedulerLease.LateReleaseIsHarmless` | src/req_tracker/storage/postgres_store.py:605-614 | However late a run finishes, it removes no row but its own |
| `SchedulerLease.FinishFreesLease` | src/req_tracker/scheduler/service.py:118-153 | A run that finishes while it holds its row leaves the lease free for everyone at once |
| `SchedulerLease.CrashKeepsLease` | src/req_tracker/scheduler/service.py:118-153 | After a crash another worker gets the lease exactly when the row has run out |
| `SchedulerLease.ExpiryFreesLease` | src/req_tracker/storage/postgres_store.py:555-603 | After any delay an idle worker gets the lease exactly when no other owner's unexpired row stands |
| `StateStores.SqliteStateStore.Upsert` | src/req_tracker/storage/sqlite_store.py:25-61 | A later get of this id finds the payload; every other get finds what it found before |
| `StateStores.SqliteStateStore.List` | src/req_tracker/storage/sqlite_store.py:80-95 | The payloads of the rows asked for, in the ascending order of their ids, each once |
| `StateStores.SqliteStateStore.Delete` | src/req_tracker/storage/sqlite_store.py:97-106 | A later get of this id finds nothing; every other get finds what it found before |
| `StateStores.ListingIff` | src/req_tracker/storage/sqlite_store.py:80-95 | There is only one such list: rows in the order of their ids, each once, are the listing |
| `StateStores.PostgresStateStore.Upsert` | src/req_tracker/storage/postgres_store.py:445-481 | One transaction: refused exactly for a constraint of the mirror broken by the payload's fields, and then nothing is written; a conforming payload keeps the store in step with a one-table store that does the same |
| `StateStores.PostgresStateStore.Get` | src/req_tracker/storage/postgres_store.py:483-501 | In step with a one-table store it answers as that store does, from whichever table |
| `StateStores.PostgresStateStore.List` | src/req_tracker/storage/postgres_store.py:503-523 | In step with a one-table store it lists the same payloads in the same order, from whichever table |
| `StateStores.PostgresStateStore.Delete` | src/req_tracker/storage/postgres_store.py:525-540 | Entity row and mirror row go together, so that the stores stay in step |
| `StateStores.SimulationAgrees` | src/req_tracker/storage/postgres_store.py:669-729 | Stores in step answer every `get` and every `list` alike |
| `StateStores.OpKeepsSimulation` | src/req_tracker/storage/postgres_store.py:711-729 | Every conforming upsert and every delete keeps the stores in step |
| `StateStores.StoresAgree` | src/req_tracker/storage/postgres_store.py:445-540 | After any run of deletes and of upserts that conform to the tables they meet, the mirrored store answers every `get` and every `list`, order included, as the one-table store |
| `StateStores.ConformingIsExact` | src/req_tracker/storage/postgres_store.py:711-729 | The condition is exact, NOT NULL and unique columns of the migrations included: an upsert on stores in step keeps them agreeing if and only if it conforms |
| `Restart.RowsRebuildTable` | src/req_tracker/api/state.py:722-743 | Reading the listed rows back by id rebuilds what the table holds |
| `Restart.RuntimeState.Hydrate` | src/req_tracker/api/state.py:722-724 | One cache is what filing the listed payloads by id gives: exactly what the table holds, if its entities carry their ids |
| `Restart.RuntimeState.constructor` | src/req_tracker/api/state.py:61-102 | A starting process takes the restart step of the run model: whatever it held before, it then holds exactly what the store holds |
| `Restart.RuntimeState.RestoreFromStateStore` | src/req_tracker/api/state.py:674-743 | All four caches are read back from the listings of the store |
| `Restart.RuntimeState.PersistEdges` | src/req_tracker/api/state.py:470-477 | Succeeds exactly when every edge's source node is known; otherwise exactly the edges met before the unknown source are written, each under its source's project |
| `Restart.RuntimeState.PersistApprovalState` | src/req_tracker/api/state.py:439-477 | It takes the persist step of the run model: all items, deltas and events are written, and all edges or, when one has an unknown source, some; on success the store holds exactly what the caches hold |
| `Restart.RuntimeState.PersistAuditEvent` | src/req_tracker/api/state.py:428-437 | It takes the single-event step of the run model, which keeps the store behind the caches |
| `Restart.RuntimeState.ArchiveAndPruneAudit` | src/req_tracker/api/state.py:665-672 | It takes the prune step of the run model: pruned audit events leave the cache and the store, and nothing else does |
| `Restart.RunKeepsSound` | src/req_tracker/api/state.py:428-743 | Along every run of changes, complete and partial persists, prunes and restarts, entities stay filed under their own ids and the store holds only ids the caches still have |
| `Restart.RestartIsNoopIff` | src/req_tracker/api/state.py:674-743 | A restart changes nothing exactly when the store holds what the caches hold |
| `Restart.RestartRestores` | src/req_tracker/api/state.py:439-477 | After any run, persist everything, prune any number of times and restart by reading the listings back: the caches are exactly what they were |
| `Restart.PersistedUpsertsConform` | src/req_tracker/api/state.py:439-477 | Whatever the tables hold, what the persist loops write conforms to the typed collections |
| `Restart.WritesFile` | src/req_tracker/api/state.py:439-477 | In whatever order the entities are written, the tables are the old ones with these entities written over them |
| `Restart.MirroredRestartRestores` | src/req_tracker/api/state.py:439-743 | After the persist loops, in any order, a process that starts on the mirrored store reads back exactly what the caches held |
| `Approvals.MemoryGraphBackend.ApplyDelta` | src/req_tracker/graph/memory_backend.py:20-31 | A key is used once; a valid delta is performed as a whole; at a refused operation it stops, with what came before performed and the key unused |
| `Approvals.OneOperation` | src/req_tracker/graph/memory_backend.py:20-31 | Which operations are refused, and what each of the others does to nodes and edges |
| `Approvals.ApprovalService.StageEdges` | src/req_tracker/approvals/service.py:27-70 | Stages every edge in order: a pending item at version 1 for each, filed under its id in place of what was there, and no other item touched |
| `Approvals.ApprovalService.Decide` | src/req_tracker/approvals/service.py:78-130 | The new service state, the outcome and the one commit to the graph, error cases included |
| `Approvals.StaleDecision` | src/req_tracker/approvals/service.py:78-89 | A decision made for another version or proposal only marks the item stale |
| `Approvals.DecisionWithoutCommit` | src/req_tracker/approvals/service.py:97-130 | Rejecting, holding and modifying without a correction leave graph and log as they were, make the item rejected, held or modified, and tell so as feedback |
| `Approvals.DecisionApproves` | src/req_tracker/approvals/service.py:91-130 | Approving puts exactly the edge of the item's delta into the graph, unless its key was used before, makes the item approved, and tells so as feedback |
| `Approvals.DecisionCorrects` | src/req_tracker/approvals/service.py:99-161 | A correction puts the edge with its overrides into the graph, approved by the decider at the time of the decision |
| `Approvals.ModifiedDeltaSound` | src/req_tracker/approvals/service.py:132-161 | A correction is refused exactly without a decider or with a malformed payload; otherwise its edge is approved by the decider, whatever the payload says |
| `Approvals.OtherOperationCorrected` | src/req_tracker/approvals/service.py:132-161 | A correction of another operation than creating an edge is never refused |
| `Approvals.NodeIsNoEdge` | src/req_tracker/approvals/service.py:132-161 | A node payload cannot be corrected into an edge |
| `Approvals.StepKeepsConsistent` | src/req_tracker/approvals/service.py:27-130 | Staging, re-staging and deciding keep the graph equal to the fold of first commits |
| `Approvals.GraphIsFoldOfFirstCommits` | src/req_tracker/approvals/service.py:78-130 | Over every run from empty the edge map is the fold of the deltas committed at the first use of each key, and every edge in it is approved by a named approver |
| `Approvals.PendingIffFirstVersion` | src/req_tracker/approvals/service.py:27-130 | In every reachable state an item is pending exactly at version 1, and otherwise has version 2 |
| `Approvals.DecidedStaysDecided` | src/req_tracker/approvals/service.py:78-89 | Deciding a decided item changes nothing anywhere and returns it |
| `Approvals.FeedbackGrowth` | src/req_tracker/approvals/service.py:110-130 | Feedback grows by exactly one per effective, current decision that is not refused, and by nothing otherwise |
| `Approvals.RaisesAndChangesIff` | src/req_tracker/approvals/service.py:72-130 | A decision raises and yet changes something exactly when it meets a pending item, is not stale, has an unknown reason code, and is not a correction that is refused |
| `Approvals.UnknownReasonRaisesAfterCommit` | src/req_tracker/approvals/service.py:110-130 | Then the item is decided, the commit it asks for is made, and there is no feedback |
| `Approvals.CorrectionRefused` | src/req_tracker/approvals/service.py:132-161 | Exactly when a modifying decision raises and leaves everything as it was |
| `Approvals.CommitShowsInGraph` | src/req_tracker/approvals/service.py:91-109 | After an approval or a correction its edge is in the graph exactly when its key was fresh or the edge was there already: decided again after being staged again, it is lost |
| `Approvals.CorrectionKeepsTargetsIff` | src/req_tracker/approvals/service.py:132-161 | An accepted correction keeps every delta reference on its proposal exactly when no item's edge id is the corrected one with `_modified_v1` appended |
| `Approvals.RunsOnTargetIff` | src/req_tracker/approvals/service.py:37-161 | Every run over a set of edge ids keeps all delta references on their proposals if and only if no id of the set is another with `_modified_v1` appended |
| `Approvals.DeltaRefTargetsProposal` | src/req_tracker/approvals/service.py:37-70 | So it does over ids of the id factory's length: every item's delta reference resolves to a delta whose one operation creates its proposal |
| `Approvals.CollidingIdsMisdirect` | src/req_tracker/approvals/service.py:132-161 | For any two ids that collide, staging both and correcting the shorter replaces the staged delta of the longer |
| `Approvals.ApprovalCommitsLastStaged` | src/req_tracker/approvals/service.py:27-109 | Along every run over ids that do not collide, an approval under a fresh key commits the edge last staged under the item's edge id, approved by `system` |
| `Linking.IdRoundTrip` | src/req_tracker/ontology/id_factory.py:6-8 | Reading the external id back from a node id gives the original exactly when it has no underscore |
| `Linking.NodeIdInjective` | src/req_tracker/ontology/id_factory.py:6-8 | Underscore-free external ids of a project have distinct node ids |
| `Linking.LinkEdges` | src/req_tracker/reasoning/linking.py:12-53 | The candidate edges are exactly what the artifacts' links stand for, each once: the artifact's own relation if it is one, and else `verifies`, `satisfies`, `implements`, `affects` or `derives` by the two types |
| `Linking.LinkGives` | src/req_tracker/reasoning/linking.py:28-63 | A word of the artifact counts if it is a relation and gives no edge otherwise; without one the two types decide |
| `Findings.BuildIndexes` | src/req_tracker/findings/rules.py:26-31 | The two indexes hold exactly the edges, by target and by source |
| `Findings.HasVerificationPath` | src/req_tracker/findings/rules.py:218-249 | Found exactly when the block is verified directly or traces to something verified |
| `Findings.GapFindings` | src/req_tracker/findings/rules.py:26-96 | A gap is reported exactly for the nodes that have it by its quantified definition |
| `Findings.GapsShrink` | src/req_tracker/findings/rules.py:33-54 | Adding edges never adds a gap |
| `Findings.EdgesAreLinks` | src/req_tracker/reasoning/linking.py:12-70 | An edge joins two artifacts' nodes exactly when the one's link to the other stands for its relation |
| `Findings.UnverifiedIffNoVerifyingLink` | src/req_tracker/findings/rules.py:33-47 | End to end: a requirement is reported unverified exactly when no artifact links to it with `verifies`, or as a verification without a word of its own |
| `Findings.UnverifiedArchitecture` | src/req_tracker/findings/rules.py:218-249 | End to end: an architecture block is reported exactly when nothing verifies it and nothing it traces to is verified, in terms of the links |
| `Findings.UnimplementedIffNoLink` | src/req_tracker/findings/rules.py:33-54 | End to end: a requirement is reported unimplemented exactly when no artifact links to it with `satisfies` or `implements`, or as a design or architecture block without a word of its own |
| `Findings.DesignWithoutParentIffNoLink` | src/req_tracker/findings/rules.py:56-75 | End to end: a design is reported without parent exactly when none of its links to an artifact satisfies, implements or derives |
| `Findings.AnalyseFetch` | src/req_tracker/findings/rules.py:17-96 | All four end-to-end statements about the findings actually returned for a fetch |
| `Improvements.BuildEvalCandidates` | src/req_tracker/evals/datasets.py:32-44 | One candidate per reason that occurs, under the path of its dataset, holding exactly the feedback ids of that reason in order |
| `Improvements.TaggedIds` | src/req_tracker/evals/datasets.py:32-44 | The ids under a reason are those of its events, each once, in order |
| `Improvements.CollectBlockers` | src/req_tracker/evals/runner.py:48-64 | No blockers exactly when there are candidates and none of their metrics is blocked |
| `Improvements.BlockedIff` | src/req_tracker/evals/runner.py:24-64 | Under any policy, exactly what blocks a dataset: too few cases, security concerns, or an assumed drift of wrong relations |
| `Improvements.RunLocalEvalGate` | src/req_tracker/evals/runner.py:7-64 | Under the default policy the gate passes exactly when there is feedback, none of it a security concern, and every reason that occurs occurs at least twice |
| `Improvements.CandidateIff` | src/req_tracker/api/routes/feedback.py:268-288 | There is a candidate for each reason that occurs, with the ids of all its feedback |
| `Improvements.ImprovementRoutes.ActivateImprovement` | src/req_tracker/api/routes/feedback.py:106-186 | The effect of the command: the recorded status and the response, refusals included |
| `Improvements.PromotionIff` | src/req_tracker/api/routes/feedback.py:106-186 | Exactly when a promotion is accepted, and what it records: review, canary or active by approval and canary, never backwards and never once closed |
| `Improvements.ImprovementRoutes.RollbackImprovement` | src/req_tracker/api/routes/feedback.py:190-257 | The same for a rollback |
| `Improvements.RollbackIff` | src/req_tracker/api/routes/feedback.py:190-257 | A rollback is accepted exactly in canary or active |
| `Improvements.StatusOnlyAdvances` | src/req_tracker/api/routes/feedback.py:299-329 | Along every run the recorded status rank of a candidate never decreases, and a rolled-back candidate stays rolled back |
| `Improvements.SecurityConcernStopsPromotion` | src/req_tracker/api/routes/feedback.py:130-165 | After the first security concern no promotion ever succeeds again, and the attempt changes nothing |
| `Improvements.ActiveOnlyThroughGate` | src/req_tracker/api/routes/feedback.py:291-296 | A candidate becomes active only by an approved request with a passed canary while the gate passes |
| `Improvements.CandidateLastsIff` | src/req_tracker/api/routes/feedback.py:268-288 | Along every run a candidate stays one exactly until feedback is recorded under its reason |
| `Improvements.NewFeedbackStrandsCandidate` | src/req_tracker/api/routes/feedback.py:268-288 | Promotion and rollback find the candidate no more exactly when feedback was recorded under its reason, and then change nothing |
| `PromotionRoutes.Endpoint.Decide` | src/req_tracker/api/routes/feedback.py:106-257 | The promotion and rollback endpoints serve exactly as idempotent commands over decisions and audit trail |
| `PromotionRoutes.Promoted` | src/req_tracker/api/routes/feedback.py:150-186 | An accepted promotion or rollback leaves one audit entry with its actor and new status, and answers with the new and the previous status |
| `PromotionRoutes.CommandsOfApi` | src/req_tracker/api/routes/feedback.py:119-128 | Promotions and rollbacks are filed under their own commands |
| `PromotionRoutes.PromotedAtMostOnce` | src/req_tracker/api/routes/feedback.py:130-257 | They raise before they record anything, so among any other commands each changes the state at most once under a key |
| `PromotionRoutes.RetryAnsweredIff` | src/req_tracker/api/routes/feedback.py:117-134 | A retry under its key gets the first answer exactly until feedback is recorded under the candidate's reason; then it is refused, record or not |
| `SourcePaging.FetchAll` | src/req_tracker/workflows/analysis_graph.py:499-527 | Artifacts, warnings, page count, failure flag and completed cursor are those of the whole chain of pages |
| `SourcePaging.PageCountIsCeiling` | src/req_tracker/adapters/export_file.py:69-88 | The page count is max(1, ceil(n / limit)) |
| `SourcePaging.OffsetPaging` | src/req_tracker/adapters/export_file.py:69-88 | From any offset the chain of pages adds up to the rest of the list, with the warnings once per page |
| `SourcePaging.FetchAllExported` | src/req_tracker/workflows/analysis_graph.py:499-527 | Every in-scope artifact exactly once in source order, over max(1, ceil(n / limit)) pages |
| `SourcePaging.ScanDecisions` | src/req_tracker/adapters/export_file.py:111-135 | The email scan keeps exactly the project's decisions from the archive or from approved emails that need no review, in order, and warns once for every other artifact of the project, of a needed review where there is one |
| `SourcePaging.FetchIncremental` | src/req_tracker/adapters/jira_rest.py:54-134 | One JIRA page with its retries: artifacts, cursor, warnings and the calls made |
| `SourcePaging.StallIffEmptyPage` | src/req_tracker/adapters/jira_rest.py:124-128 | The cursor stays where it is exactly when the server sends an empty page before its total |
| `SourcePaging.PageWithoutCursor` | src/req_tracker/adapters/jira_rest.py:54-134 | Which JIRA pages end the chain: no answer, issues that are no list, and an answer without a total |
| `SourcePaging.JiraAccounts` | src/req_tracker/adapters/jira_rest.py:108-134 | From any offset each raw issue is accounted for once, as an artifact or as a skip |
| `SourcePaging.FetchAllJira` | src/req_tracker/workflows/analysis_graph.py:499-527 | Over a server without empty pages before its total: all good issues in order, one skip warning per malformed one, a completed cursor that falls short by the skips, a partial failure exactly when there is any warning, and between one and max_retries + 1 transport calls a page |
| `SourcePaging.CallsPerPage` | src/req_tracker/adapters/retry.py:24-70 | A chain of pages makes at least one transport call a page and at most max_retries + 1 |
| `Retry.Backoff` | src/req_tracker/adapters/retry.py:73-84 | A quarter of a second, a half, one, and two from the fourth retry on |
| `Retry.RequestWithRetry` | src/req_tracker/adapters/retry.py:24-70 | At most max_retries + 1 calls, all but the last retryable, with the right answer, warnings and delays |
| `Retry.SecondCallIff` | src/req_tracker/adapters/retry.py:24-70 | A second call is made exactly when retries are allowed and the first met a network error, or a transient status or code that is no refusal of permission |
| `Retry.WarningsIff` | src/req_tracker/adapters/retry.py:24-70 | When a request warns of a refusal, of a failure, and of used-up retries |
| `Retry.DelayIs` | src/req_tracker/adapters/retry.py:73-84 | The delay the source asks for, and the backoff otherwise |
| `Retry.NoAnswerIff` | src/req_tracker/adapters/retry.py:24-70 | No answer exactly when a failure not worth a retry comes first or all allowed calls meet retryable failures |
| `AuditTrail.AuditService.Record` | src/req_tracker/audit/service.py:22-60 | The event is filed under the hash of its request and the number of events held |
| `AuditTrail.ReplacesIff` | src/req_tracker/audit/service.py:36-59 | A record replaces a held event exactly when one with the same request carries the current count as its number |
| `AuditTrail.SelectIsPrefix` | src/req_tracker/audit/service.py:127-139 | Read oldest first, the candidates are a prefix: nothing expired and no more than the limit is left, and nothing is taken without need |
| `AuditTrail.ToArchiveArchives` | src/req_tracker/audit/service.py:106-117 | Archive and trail are the old trail split in two, the archive oldest first, none of it newer than what stays |
| `AuditTrail.AuditService.ArchiveAndPrune` | src/req_tracker/audit/service.py:98-125 | The split happens only when the archive was written; otherwise nothing leaves the trail |
| `AuditTrail.ArchivesOnce` | src/req_tracker/audit/service.py:98-139 | Archiving again at the same time archives nothing |
| `AuditTrail.RunConserves` | src/req_tracker/audit/service.py:22-125 | Along every run each recorded event is held, archived or replaced; while nothing was archived nothing is replaced |
| `AuditTrail.PruningFreesANumberInUse` | src/req_tracker/audit/service.py:45-59 | After pruning that fails: three equal requests, the oldest archived, and a fourth takes the place of the third |
| `Idempotency.IdempotencyKey` | src/req_tracker/api/idempotency.py:92-98 | No key exactly when the header that counts is missing or blank; otherwise the key is that header without the white space around it |
| `Idempotency.BlankPrimaryHidesFallback` | src/req_tracker/api/idempotency.py:92-98 | With a good second header there is no key exactly when the first is there, not empty, and blank |
| `Idempotency.RecordIdInjective` | src/req_tracker/api/idempotency.py:101-103 | Distinct pairs of a colon-free command and a key never share a record id |
| `Idempotency.RecordIdsClashIff` | src/req_tracker/api/idempotency.py:101-103 | Two commands can share a record id exactly when one goes on with a colon where the other ends |
| `Idempotency.NamesHaveNoColon` | src/req_tracker/api/routes/approvals.py:45-53 | No command name of the API has a colon |
| `Idempotency.RuntimeState.Handle` | src/req_tracker/api/routes/approvals.py:33-84 | Whatever is answered under a key is on file with the payload that got it, no record is ever replaced, a refusal or a conflict changes nothing, and without a response nothing is filed |
| `Idempotency.AtMostOneResponse` | src/req_tracker/api/idempotency.py:28-103 | Over every sequence of requests a command is carried out with a response at most once under a key |
| `Idempotency.AtMostOnce` | src/req_tracker/api/idempotency.py:28-103 | If its runs leave nothing behind when they raise, a command changes the state at most once under a key, with or without a response |
| `Idempotency.AtMostOnceIff` | src/req_tracker/api/idempotency.py:28-103 | The condition is exact: a command changes the state at most once under a key, whatever the other commands do, if and only if none of its runs that raise leaves something behind |
| `Idempotency.PersistKeepsAtomicIff` | src/req_tracker/api/routes/approvals.py:53-84 | The persist call after the effect keeps a command atomic exactly when it succeeds after every run that changes something |
| `Idempotency.RetryGetsFirstResponse` | src/req_tracker/api/idempotency.py:28-68 | After any further requests the same payload gets the first response, another payload a conflict, and the runtime stays as it is |
| `Idempotency.NothingFiled` | src/req_tracker/api/idempotency.py:71-89 | A request without a key, or whose handler raises, files nothing |
| `ApprovalRoutes.Endpoint.DecideApproval` | src/req_tracker/api/routes/approvals.py:33-84 | The decision endpoint serves exactly as an idempotent command over approvals, graph and audit trail |
| `ApprovalRoutes.DecisionMade` | src/req_tracker/api/routes/approvals.py:53-74 | The decision is the caller's, made now if no time is given; the audit entry names decider and outcome, blocked exactly when the item became stale |
| `ApprovalRoutes.DecisionRetry` | src/req_tracker/api/routes/approvals.py:45-84 | A decision that returned, sent again under its key after any other commands that take no item away, returns the same item and leaves approvals, deltas, feedback, graph and audit trail as they were |
| `ApprovalRoutes.StagingKeepsItems` | src/req_tracker/approvals/service.py:27-70 | Staging takes no item away, so a retry may come after the same edges were staged again |
| `ApprovalRoutes.DecisionsKeepItems` | src/req_tracker/approvals/service.py:72-109 | No decision takes an item away |
| `ApprovalRoutes.RaisesAndLeavesIff` | src/req_tracker/api/routes/approvals.py:53-84 | The endpoint gives no response and yet changes the state exactly when the unknown reason code of a current decision is looked at too late |
| `ApprovalRoutes.RaisingDecisionKeepsKeyFree` | src/req_tracker/api/routes/approvals.py:45-84 | Such a decision leaves its key unused: the next one about the item, with any payload, is carried out under it, and the two change the state twice |
| `ApprovalRoutes.DecisionIsNotAtomic` | src/req_tracker/api/routes/approvals.py:45-84 | One staged edge is enough for that, so the decision command fails the condition for at most once |
| `ApprovalRoutes.CommitKeepsPersistableIff` | src/req_tracker/approvals/service.py:91-109 | A commit leaves every edge's source known, as the persist call after it needs, exactly when its own edge starts at a known node |
| `ApprovalRoutes.CorrectedSource` | src/req_tracker/approvals/service.py:132-161 | A corrected edge starts wherever the correction says, known or not |
| `ApprovalRoutes.NoResponseUnlessPersistable` | src/req_tracker/api/routes/approvals.py:53-84 | While some edge of the graph starts at an unknown node, every decision that is carried out changes the state without a response or a record |
| `PlanText.MissingEnvFromStagingPlan` | ops/rehearsal/validate_handoff_bundle.py:261-274 | The names that the lines of the text list, ascending and each once |
| `PlanText.AcrossLineFeed` | ops/rehearsal/validate_handoff_bundle.py:261-274 | What is found in two texts joined by a line feed is what is found in either, whatever line breaks they hold |
| `PlanText.MissingLineReadBack` | ops/rehearsal/build_staging_evidence_plan.py:315-317 | A printed list of printable names is read back as it was, unless it is the list of `none` alone |
| `PlanText.OnlyPrintableRead` | ops/rehearsal/validate_handoff_bundle.py:261-274 | Whatever the text, only names without comma, line break or outer backtick are ever read out of it |
| `PlanText.BreaksAre` | ops/rehearsal/validate_handoff_bundle.py:261-274 | The ten characters at which a line ends |
| `Text.SpacesAre` | ops/rehearsal/validate_handoff_bundle.py:261-274 | The characters that stripping removes: Python's twenty-nine white space characters |
| `Text.DecimalReads` | ops/rehearsal/build_staging_evidence_plan.py:293-302 | A printed number is its decimal digits, without leading zeros, and reads back as it was |
| `StagingPlan.MissingEnvFromEvidence` | ops/rehearsal/build_staging_evidence_plan.py:368-378 | The keys of the evidence lines that say unset, ascending and each once |
| `StagingPlan.ModeGateNames` | ops/rehearsal/check_production_readiness.py:554-588 | A failed mode gate asks for exactly the unset keys, and for the mode when it is unset or set to the text that stands for unset |
| `StagingPlan.KeyGateNames` | ops/rehearsal/check_production_readiness.py:591-660 | A key gate and a rehearsal gate ask for exactly their unset keys, and a key gate fails exactly when there are any |
| `StagingPlan.PlanTells` | ops/rehearsal/build_staging_evidence_plan.py:258-291 | The plan's gates are the checks that have not passed, in order, each once, with their id, status, summary and next action; its names are exactly the keys their evidence says are unset |
| `StagingPlan.RenderMarkdown` | ops/rehearsal/build_staging_evidence_plan.py:293-327 | The rendered file, line by line |
| `StagingPlan.RoundTripIff` | ops/rehearsal/build_staging_evidence_plan.py:293-327 | Parsing the rendered plan returns the plan's names exactly when all are printable and no gate misses `none` alone, unless another gate misses it in company |
| `StagingPlan.OneLineTextsQuiet` | ops/rehearsal/build_staging_evidence_plan.py:293-327 | Texts without line breaks never look like a missing-name line |
| `StagingPlan.PlanHasCommand` | ops/rehearsal/build_staging_evidence_plan.py:304-307 | Every final validation command is in the rendered file |
| `StagingPlan.PlanHasCheck` | ops/rehearsal/build_staging_evidence_plan.py:293-327 | The rendered file has the section of every check that has not passed, with status, summary, next action and missing names |
| `Readiness.ApplyManualEvidence` | ops/rehearsal/check_production_readiness.py:729-779 | Evidence settles manual gates by its last record, leaves only a note on others, and becomes a warning for unknown ones |
| `Readiness.SummarizeChecks` | ops/rehearsal/check_production_readiness.py:799-803 | The counts by status, which add up to the number of checks |
| `Readiness.ModeGateIff` | ops/rehearsal/check_production_readiness.py:554-588 | A mode gate passes exactly when the mode is the expected one and every required key is set |
| `Readiness.KeyGateIff` | ops/rehearsal/check_production_readiness.py:591-640 | A key gate passes exactly when every key is set; a rehearsal gate always waits for evidence |
| `Readiness.CommaListSnoc` | ops/rehearsal/check_production_readiness.py:554-588 | Lists of keys are joined by a comma and a space |
| `Readiness.BuildReadinessReport` | ops/rehearsal/check_production_readiness.py:171-214 | The report on a list of gates and evidence; it passes exactly when every gate passes and all evidence is for known gates |
| `Readiness.ReportPassesIff` | ops/rehearsal/check_production_readiness.py:729-803 | The report passes exactly when every gate passed or is manual with passing evidence, and all evidence is for known gates |
| `GoalCompletion.ReleaseScopeBlockers` | ops/rehearsal/check_goal_completion.py:374-422 | The blockers of every scope item in order: for waiting on gates or being unmapped, for missing paths, and for a missing audit marker |
| `GoalCompletion.WaitingIff` | ops/rehearsal/check_goal_completion.py:374-402 | Which gates each scope item waits for |
| `GoalCompletion.BuildBlockerSummary` | ops/rehearsal/check_goal_completion.py:438-455 | Every blocker is counted once by status and once as company evidence or local action; local are those that neither wait for company evidence nor come from a readiness gate but the local regressions |
| `GoalCompletion.BuildGoalCompletionAudit` | ops/rehearsal/check_goal_completion.py:84-154 | Exactly the blockers of the scope, of the gates that have not passed and of missing paths; their summary; and completion exactly when the scope passed, every item is done, the readiness report and all its gates passed, and no artifact is missing |
| `GoalCompletion.GoalCompleteIff` | ops/rehearsal/check_goal_completion.py:84-154 | The goal is complete exactly when the scope passed, every item is done or has all the gates it waits for, every gate passed, and no artifact is missing |
| `HandoffBundle.BuildHandoffBundle` | ops/rehearsal/build_handoff_bundle.py:21-95 | The bundle from three evaluations of the gates: its manifest lists exactly the keys that unpassed checks ask for, its plan has a section for each of these checks, and the validator accepts it exactly when every missing name can be printed and read back and the evaluations agree |
| `HandoffBundle.ValidateHandoffBundle` | ops/rehearsal/validate_handoff_bundle.py:39-134 | Exactly the failures the bundle has, one by one: the schema version, the declared artifacts, files and hashes, the reports against the manifest, the template against the manual gates, the plan against the manifest. There are none exactly for the accepted bundles, which are the consistent ones unless something in the bundle is hollow |
| `HandoffBundle.ConsistentIffAccepted` | ops/rehearsal/validate_handoff_bundle.py:39-134 | Consistent bundles are exactly the accepted ones in which neither the manifest nor a report is the empty object and no hash is the empty text |
| `HandoffBundle.EmptyManifestPasses` | ops/rehearsal/validate_handoff_bundle.py:44-51 | A manifest `{}` passes, whatever else is in the directory |
| `HandoffBundle.EmptyReportsPass` | ops/rehearsal/validate_handoff_bundle.py:102-119 | With `{}` for the three reports a bundle passes whatever its manifest claims about readiness, completion and blockers |
| `HandoffBundle.ValidateCompletion` | ops/rehearsal/validate_handoff_bundle.py:228-258 | A bundle that claims completion is accepted only if it claims nothing is left |
| `HandoffBundle.ValidateTemplate` | ops/rehearsal/validate_handoff_bundle.py:157-175 | The template names exactly the manual gates |
| `HandoffBundle.BuiltBundleConsistentIff` | ops/rehearsal/build_handoff_bundle.py:46-95 | The validator accepts the builder's bundle exactly when every missing name can be printed and read back and the three evaluations do not contradict each other |
| `HandoffBundle.SameGatesBundleConsistent` | ops/rehearsal/build_handoff_bundle.py:46-95 | When the gates evaluate alike each time, as they do unless local gates are run, it accepts exactly the bundles whose missing names can be printed and read back |
| `HandoffBundle.LocalGatesMayDisagree` | ops/rehearsal/build_handoff_bundle.py:49-63 | If the local gates fail for plan and report and pass for an audit that finds the goal complete, the builder writes a bundle the validator refuses |

## Left out

- Masking.FindMaskingViolations: a pattern of the caller is any search of the text, or invalid; regular expressions in general are not modelled.
- SourcePaging.StallIffEmptyPage: says when the cursor stands still; that the loop then runs forever is a consequence for a server that keeps answering alike.
- SourcePaging.FetchAllJira: requires a server that answers every page of a fixed list; a request that fails ends the chain with a partial result, which `FetchIncremental` and `FetchAll` cover page by page.
- SchedulerLease.RunScheduler.RunNow: one call without other workers in between; interleavings are the subject of the state machine beside it.
- WorkbenchLayout.RelationshipLayoutPositions: states where each node is up to its ring, band, cell or shelf slot; coordinates, angles and drawing are left to the renderer.
- GoalCompletion.BuildGoalCompletionAudit: the release-scope report and the missing checklist paths are parameters; the checklist itself is not rendered.
- HandoffBundle.ValidateHandoffBundle: JSON shapes are types, so checks for wrongly typed or absent fields of a non-empty object and for the schema version of the three reports cannot fail here, and a file that holds an object of another shape counts as no object; hashes are the files themselves.
- HandoffBundle.BuildHandoffBundle: the environment and rehearsal gates are given as lists of checks; of their builders only the mode, key and rehearsal gates are modelled, and the goal summary has five of its eight counts and flags.
- Approvals.GraphIsFoldOfFirstCommits: runs contain no nodes staged as baseline and no direct graph writes.
- Findings.GapFindings: the four gap rules; conflicting links, stale traces, critical issues, scores and explanations are not modelled.
- Improvements.ImprovementRoutes.ActivateImprovement: the effect alone; idempotency and the audit event are in `PromotionRoutes`.
- ApprovalRoutes.Endpoint.DecideApproval: without a state store; what the persist call after the decision adds is said by `Idempotency.PersistKeepsAtomicIff` and the lemmas on persisting at the end of the module.
- PromotionRoutes.PromotedAtMostOnce: without a state store, or while every edge of the graph starts at a known node.
- PromotionRoutes.Endpoint.Decide: the answer holds the candidate's id and its two statuses; the other fields of the response are not modelled.
- Idempotency.RetryGetsFirstResponse: requests are served one after another; two requests at once between check and record are not modelled.
- AuditTrail.AuditService.Record: project, time zone and listing of events are not modelled beyond the fields that decide id and retention.
- Restart.RestartRestores: approval items, deltas, audit events and graph edges; feedback comes back in id order and without duplicates, and the other caches follow the same pattern as the four.
- StateStores.StoresAgree: PostgreSQL's collation is taken to order ids as Python does; of the column constraints NOT NULL, unique columns and the text type of id and project are modelled, the types of the other columns are not.
- Projection.BuildGraphProjection: the case-insensitive search is a parameter, the risk level is a flag of the node, and finding badges, groups and the remaining counts are not modelled.
- Masking of email metadata and of plan evidence.
- The Neo4j backend, Qdrant, SQL, Cypher and HTTP themselves.
- FastAPI wiring, authentication, telemetry, logging, metrics.
- Model gateway providers, LLM review stages, embeddings.
- Migration files, backup and load rehearsals, Helm and CI checks.
