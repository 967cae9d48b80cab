# Verified models of the OpenBrain and Vashandi cores

This project models eleven parts of the repository in Dafny and proves what each of them
promises: over every run, every interleaving or every input, not for examples.

| part | modules | shape |
|---|---|---|
| versioned memory store with promotion, decay and an audit chain | MemoryModel, MemoryHistory, MemoryLifecycle, MemoryLaws, MemoryLedger, AuditChain, MemoryStore | a class whose methods change three tables, each proved against a call on values; runs are sequences of those calls |
| token-budgeted context packing | ContextPacking | a greedy loop against an optimality condition that has one solution |
| commit search, statistics and export | CommitCache, WindowSearch, WorkerPool, CsvExport | a class with a cache and a recursive split; a step system of workers; a printer with an independent reader |
| gateway request protocol | Gateway, GatewayProgress | a step system of callers, timers, reader and sweep; what must not happen, and what gets done |
| org chart | OrgTree | recursion over data with cycles, against chains of managers |
| worktree ports and environment file | WorktreeLayout, WorktreePorts, EnvFile, EnvReading | paths that decide who sees whom; a class whose repairs look at siblings; a parser and a printer |
| streamed tool calls and the conversation loop | ToolCalls, ToolCallPieces | loops against declarative per-index projections; how each further piece changes the result |
| routine variables | RoutineVariables, RoutineResolution | loops against functions, what happens when they are applied again, and which value wins |
| captured output | OutputBuffer | a class that keeps the tail of what was appended |
| Pi model list and cache | ModelListing, ModelsCache | loops, a key that is read back, a class with a clock |
| redaction and page branding | Redaction, RedactionExposure, Branding, BrandingReader | recursion and text surgery, shown idempotent; exposure as a matter of paths; a reader of the generated tags |

Common holds the vocabulary they share. What lies outside the code becomes a parameter: the
hash, the embedding provider, JSON and number renderings, the clock, the search service, the
model and its tools, JSON decoding, lower-casing. Assumptions about them (a hash without
collisions, a clock that does not go back) are stated where they are used, as `requires`.

Some properties one might expect do not hold. For each the project has an input that shows
it and states exactly when the property does hold:

- A Request made after the read loop has ended, without a timeout, can wait for ever
  (`Gateway.LateRequestHangs`, `Gateway.HangsIffStuck`), and a call that was refused can stay
  in the map of pending requests (`Gateway.RefusedCallStays`, `Gateway.LeakIff`).
- Starting every worktree once does not always give them ports of their own, nor end the
  repairs: a configuration in a repository sees the instances of its home, which do not look
  back (`WorktreePorts.LocalFirstDoesNotSettle`), and one without a name can take itself for a
  sibling (`WorktreeLayout.UnnamedInstanceSeesItself`, `WorktreePorts.SelfSightNeverSettles`).
  One pass settles everything exactly when nobody sees itself and whoever is seen without
  looking back starts first (`WorktreePorts.PassSettlesIff`, `WorktreePorts.SecondPassIff`).
- An environment file does not survive writing and reading when a value needs escaping,
  because the reader strips quotes without undoing escapes (`EnvFile.BackslashDoesNotReadBack`,
  `EnvFile.RoundTripIff`, `EnvFile.RewriteSettlesIff`).
- A tool call whose index leaves a gap is dropped (`ToolCalls.GapLosesCall`,
  `ToolCalls.NothingLostIff`), and an answer that calls tools and says stop leaves calls
  unanswered in the history (`ToolCalls.StopLeavesCallsOpen`, `ToolCalls.AnsweredIff`).
- A sanitized record can still show a token, or a value under a secret-named key
  (`RedactionExposure.ArrayShowsToken`, `RedactionExposure.ReferenceShowsPassword`,
  `RedactionExposure.LeafSurvivesIff`).
- A value shown on a branded page is not always the one given: a line feed inside it is indented
  with the block (`BrandingReader.MetaReadsBack`, `BrandingReader.IndentKeepsIff`).

`dafny verify dfyconfig.toml` checks the whole project.

## Model

| member | source | states |
|---|---|---|
| MemoryHistory.ReachableIsValid | openbrain/internal/brain/service.go:466-675 | after any run of calls from empty tables, under a clock that does not go back: every row has exactly the snapshots 1..version, once each and in order, the newest equal to the current title, text, embedding, metadata, provenance, identity and tier; every tier is in 0..3 |
| MemoryHistory.StepKeepsValid | openbrain/internal/brain/service.go:466-675 | each public call, scans included, keeps every history exact; logged snapshots are never changed or removed, rows never vanish and versions never fall |
| MemoryHistory.RunKeepsValid | openbrain/internal/brain/service.go:466-991 | the same over a whole run from any valid state |
| MemoryHistory.VersionIsUnique | openbrain/internal/brain/service.go:627-636 | a rollback finds a snapshot exactly for the versions 1..version of the memory in its own namespace, and only one fits |
| MemoryHistory.RollbackBringsBack | openbrain/internal/brain/service.go:627-655 | rollback succeeds exactly for those versions, changes nothing otherwise, and brings back that content, undeleted, as the next version |
| MemoryHistory.ContentIsKept | openbrain/internal/brain/service.go:1203-1206 | the snapshot of the version a memory is at keeps that content through every later run |
| MemoryHistory.RollbackRestores | openbrain/internal/brain/service.go:627-655 | whatever happened since, rolling back to a version restores the content the memory had at it |
| MemoryHistory.RollbackTwice | openbrain/internal/brain/service.go:627-655 | rolling back and then back to the version just left gives the content that was there, two versions later |
| MemoryLifecycle.TouchDrifts | openbrain/internal/brain/service.go:1221-1273 | an access promotes by at most one tier, never undeletes, and cannot promote a doomed memory |
| MemoryLifecycle.DecayDrifts | openbrain/internal/brain/service.go:945-991 | the decay step lowers only tier 1, leaves such a memory doomed, deletes the doomed one it visits and leaves tiers 2 and 3 alone |
| MemoryLifecycle.StepDrifts | openbrain/internal/brain/service.go:466-991 | what any call that is neither an update nor a rollback of a memory can do to its tier and its deleted flag |
| MemoryLifecycle.DoomedStaysDoomed | openbrain/internal/brain/service.go:945-991 | a tier-0 memory past its promotion window never leaves tier 0 over any run without an update or rollback of it, and is deleted for good once a decay scan visits it |
| MemoryLifecycle.DecayIsFinal | openbrain/internal/brain/service.go:945-1250 | a memory that a decay scan takes down a tier is such a memory |
| MemoryLifecycle.HighTiersNeverDecay | openbrain/internal/brain/service.go:945-1273 | over any run without update or rollback of it, a memory at tier 2 or 3 never loses its tier and stays visible unless deleted |
| MemoryLaws.DeleteDeletes | openbrain/internal/brain/service.go:657-675 | a delete succeeds exactly for an existing memory and an actor who may delete; then the memory is deleted with its content kept, and otherwise nothing changes |
| MemoryLaws.StaysDeleted | openbrain/internal/brain/service.go:466-991 | over any run without a rollback of it a deleted memory stays deleted |
| MemoryLaws.DeletedIsGone | openbrain/internal/brain/service.go:533-675 | after a delete and any such run nobody finds the memory |
| MemoryLaws.CreateOkIff | openbrain/internal/brain/service.go:466-531 | when a creation succeeds, with every refusal leaving the tables alone |
| MemoryLaws.CreateRecords | openbrain/internal/brain/service.go:499-522 | a new row holds what was given, at version 1, with its decay time, and no other row is touched |
| MemoryLaws.CreateRecordsContent | openbrain/internal/brain/service.go:494-513 | its title, trimmed text, embedding, metadata, provenance, identity and tier |
| MemoryLaws.IdentityIsKept | openbrain/internal/brain/service.go:484-493 | the identity keeps the given values and gains the agent and the door it came in by |
| MemoryLaws.UpdateOkIff | openbrain/internal/brain/service.go:572-603 | when an update succeeds: the row, the right to write at both tiers, an embedding for a new text |
| MemoryLaws.UpdateRecords | openbrain/internal/brain/service.go:581-625 | each given field is written, trimmed or rendered, each other one is kept, and so are all other rows |
| MemoryLaws.RunKeepsText | openbrain/internal/brain/service.go:466-991 | over any run without an update or rollback of it a memory keeps its text and data; only its tier, counters and deleted flag can move |
| MemoryLaws.WrittenIsRead | openbrain/internal/brain/service.go:533-544 | so what was written is what a reader gets, as long as the memory is not deleted |
| MemoryLaws.ShownIff | openbrain/internal/brain/service.go:1462-1474 | an agent is shown the text exactly up to its trust tier, and everything else unchanged |
| MemoryLaws.ReadPromotesIff | openbrain/internal/brain/service.go:533-544 | when a read succeeds, and that it counts one access and promotes by one tier exactly when 3 (within a day of creation), 5 or 10 accesses or a mark have come together |
| MemoryLaws.TouchesCount | openbrain/internal/brain/service.go:1221-1234 | a browse or search counts one access for each found row, with the same promotions, and touches no other |
| MemoryLaws.ReadsClimb | openbrain/internal/brain/service.go:1221-1273 | n reads within a day of creation take a new memory to exactly the tier that n stands for |
| MemoryLaws.ScanPromotesIff | openbrain/internal/brain/service.go:923-943 | a promotion scan promotes exactly those it visits that are due |
| MemoryLaws.DecayIff | openbrain/internal/brain/service.go:952-985 | a row decays exactly when it is at tier 0 and older than a day (deleted) or at tier 1 and idle for thirty days (tier 0) |
| MemoryLaws.IdleIsForgotten | openbrain/internal/brain/service.go:945-991 | a memory idle at tier 1 is at tier 0 after one scan that visits it, and deleted after the next, whatever reads come between |
| AuditChain.StepGrows | openbrain/internal/brain/service.go:1208-1219 | every call only appends to the audit log, and links each new entry to the head of its own namespace |
| AuditChain.RunGrows | openbrain/internal/brain/service.go:1208-1219 | over any interleaving on any namespaces the log only grows and every namespace keeps one valid chain |
| AuditChain.PayloadInjective | openbrain/internal/brain/service.go:1208-1219 | within a namespace the hashed payload determines previous hash, time and after-hash |
| AuditChain.HeadIsClean | openbrain/internal/brain/service.go:1208-1219 | a chain head is empty exactly when the namespace has no entry, and never holds the separator |
| AuditChain.HeadDeterminesChain | openbrain/internal/brain/service.go:1208-1219 | under a collision-free hash, two valid logs with equal heads for a namespace hold the same number of entries with the same times and after-hashes |
| MemoryLedger.StepKeepsRetold | openbrain/internal/brain/service.go:466-991 | every call keeps the audit log and the version log in step |
| MemoryLedger.RunIsRetold | openbrain/internal/brain/service.go:1203-1219 | after any run the audit log holds for every memory one change for each of its versions, with the same time, actor and fitting reason; each but a delete starts from the hash the one before ended in, and the last ends in the hash of the memory as it is (a delete notes that hash as the one before) |
| MemoryStore.Store.constructor | openbrain/internal/brain/service.go:200-208 | a new store has empty tables |
| MemoryStore.Store.CreateMemory | openbrain/internal/brain/service.go:466-531 | tables and result are those of the value-level creation, each refusal included |
| MemoryStore.Store.PatchRow | openbrain/internal/brain/service.go:572-614 | the patched row, or why the patch is refused |
| MemoryStore.Store.UpdateMemory | openbrain/internal/brain/service.go:572-625 | tables and result are those of the value-level update; an agent below the tier of the memory is shown a mark instead of its text |
| MemoryStore.Store.RollbackMemory | openbrain/internal/brain/service.go:627-655 | tables and result are those of the value-level rollback, the text again only for an actor who may see it |
| MemoryStore.Store.SoftDeleteMemory | openbrain/internal/brain/service.go:657-675 | tables and result are those of the value-level soft delete |
| MemoryStore.Store.SaveVersion | openbrain/internal/brain/service.go:1203-1206 | appends one snapshot of the row and nothing else |
| MemoryStore.Store.AppendAudit | openbrain/internal/brain/service.go:1208-1219 | appends one entry chained to its namespace and nothing else |
| MemoryStore.Store.Commit | openbrain/internal/brain/service.go:517-530 | row, snapshot and audit entry of one change |
| MemoryStore.Store.TouchMemories | openbrain/internal/brain/service.go:1221-1234 | the loop over rows that were read beforehand does what touching their ids one by one does |
| MemoryStore.Store.EvaluatePromotion | openbrain/internal/brain/service.go:1236-1273 | promotes exactly when a promotion is due, by the value-level rule, and notes a write-back |
| MemoryStore.Store.GetMemory | openbrain/internal/brain/service.go:533-544 | touches the row, may promote it, notes the read, and returns the row as it was before, as far as the actor may see it |
| MemoryStore.Store.ReadMany | openbrain/internal/brain/service.go:563-570 | a browse or search touches the rows its query returned, notes one entry for the call and returns each as far as the actor may see it |
| MemoryStore.Store.RunPromotionScan | openbrain/internal/brain/service.go:923-943 | the visited rows are evaluated one after the other |
| MemoryStore.Store.RunDecayScan | openbrain/internal/brain/service.go:945-991 | the visited rows decay one after the other |
| MemoryStore.Store.Decay | openbrain/internal/brain/service.go:952-985 | one row of the decay scan |
| ContextPacking.EstimateTokens | openbrain/internal/brain/service.go:1506-1512 | a text costs its number of words and one more for each begun 20 bytes; a text without words costs one token |
| ContextPacking.WordsAddUp | openbrain/internal/brain/service.go:1506-1512 | words with a space between them add up |
| ContextPacking.BytesAddUp | openbrain/internal/brain/service.go:1506-1512 | so do bytes |
| ContextPacking.Budget | openbrain/internal/brain/service.go:797-801 | the budget is positive: the one asked for if it is, otherwise the limit of the profile, and 800 when that is not positive |
| ContextPacking.CompileContext | openbrain/internal/brain/service.go:797-812 | the snippets are the chosen ranks in order, their cost is tokenCount and within budget, nothing left out would still fit, and any other choice loses at the first rank where it differs or is over budget |
| ContextPacking.PackingIsUnique | openbrain/internal/brain/service.go:797-812 | these conditions determine the packet |
| WindowSearch.SplitIsExact | vashandi/scripts/paperclip-commit-metrics.ts:405-421 | the two halves of a window, one millisecond apart and cut to whole seconds, want together exactly what the window wants |
| WindowSearch.SparseIsSplittable | vashandi/scripts/paperclip-commit-metrics.ts:405-421 | splitting succeeds when no 61 consecutive seconds hold more hits than the limit |
| WindowSearch.NextPage | vashandi/scripts/paperclip-commit-metrics.ts:433-443 | one more page adds exactly its own shas to those of the pages before |
| WindowSearch.IngestedLast | vashandi/scripts/paperclip-commit-metrics.ts:518-533 | after a page each of its shas stands for the record of its last item, and every other record is as it was |
| WindowSearch.CommitSearch.constructor | vashandi/scripts/paperclip-commit-metrics.ts:364-374 | an empty cache is valid |
| WindowSearch.CommitSearch.IngestSearchItems | vashandi/scripts/paperclip-commit-metrics.ts:518-533 | the found set grows by exactly the shas of the page, and the cache is the one the items make of it, record by record |
| WindowSearch.CommitSearch.SearchWindow | vashandi/scripts/paperclip-commit-metrics.ts:390-453 | whatever mix of cache, paging and splitting is used, the answer is exactly the commits the service holds from the second of the start to the second of the end, each cached with the fields of a commit of the service with that sha; every error is true; without cached answers it succeeds, for a service that answers completely, exactly when splitting does |
| WindowSearch.CommitSearch.SearchHalves | vashandi/scripts/paperclip-commit-metrics.ts:409-421 | the recursion on both halves, which ends because the window gets shorter |
| WindowSearch.CommitSearch.SearchPages | vashandi/scripts/paperclip-commit-metrics.ts:424-452 | the loop over the pages |
| WindowSearch.CommitSearch.OtherPages | vashandi/scripts/paperclip-commit-metrics.ts:433-443 | the pages after the first add up to all hits |
| WindowSearch.CommitSearch.Store | vashandi/scripts/paperclip-commit-metrics.ts:414-420 | records the answer under its own window only |
| WorkerPool.NextKeepsInv | vashandi/scripts/paperclip-commit-metrics.ts:604-626 | each claim, finished fetch and failed fetch keeps the claims disjoint and accounted for |
| WorkerPool.RunKeepsInv | vashandi/scripts/paperclip-commit-metrics.ts:604-626 | so does every scheduling, and stats gain exactly the written shas |
| WorkerPool.NothingTwice | vashandi/scripts/paperclip-commit-metrics.ts:596-629 | under every scheduling no index is with two workers, no sha is written twice, fetched counts the writes and is at most the limit |
| WorkerPool.WantedIff | vashandi/scripts/paperclip-commit-metrics.ts:602 | pending are exactly those without statistics, or all on a refresh |
| WorkerPool.StatsAreFetched | vashandi/scripts/paperclip-commit-metrics.ts:618-622 | under every scheduling each written sha holds what its own fetch brought, and all other statistics are as they were |
| WorkerPool.EverybodyHasStats | vashandi/scripts/paperclip-commit-metrics.ts:596-629 | when the limit allows for all, every commit ends with the statistics it had, unless refreshed, or else with those fetched for it |
| WorkerPool.EveryPoolCanFinish | vashandi/scripts/paperclip-commit-metrics.ts:596-629 | whatever the fetches return, every pool has a run that finishes |
| WorkerPool.AllNamedAreFetched | vashandi/scripts/paperclip-commit-metrics.ts:596-629 | when all workers finish without error, every pending sha with a cached commit is written, for every scheduling and every list of non-empty shas |
| WorkerPool.AllFetchedIff | vashandi/scripts/paperclip-commit-metrics.ts:596-629 | with any shas the same holds, except exactly when a single worker meets an empty sha before one that is still wanted |
| WorkerPool.EmptyShaStopsLoneWorker | vashandi/scripts/paperclip-commit-metrics.ts:609-612 | such a run: a lone worker that meets an empty sha stops, finished, with a wanted sha left |
| CsvExport.QuotedReadsBack | vashandi/scripts/paperclip-commit-metrics.ts:819-824 | a quoted field with doubled quotes is read back |
| CsvExport.FieldReadsBack | vashandi/scripts/paperclip-commit-metrics.ts:819-824 | every field text is read back, quoted or not |
| CsvExport.RowReadsBack | vashandi/scripts/paperclip-commit-metrics.ts:775-791 | a rendered row is read back as its fields |
| CsvExport.TableReadsBack | vashandi/scripts/paperclip-commit-metrics.ts:758-794 | a reader of section 2 of RFC 4180 returns exactly the rows that were written, for all field texts |
| CsvExport.HeaderIsPlain | vashandi/scripts/paperclip-commit-metrics.ts:758-773 | the header, which is joined without escaping, needs none |
| CsvExport.ColumnsShow | vashandi/scripts/paperclip-commit-metrics.ts:758-817 | which value of the commit or of its statistics stands under each column name |
| CsvExport.ContributorsShow | vashandi/scripts/paperclip-commit-metrics.ts:810 | the contributors stand under theirs, in order, by login or else by name |
| CsvExport.FoundCommitIsShown | vashandi/scripts/paperclip-commit-metrics.ts:518-817 | a commit found by the search is exported with its own fields under their columns |
| Common.DecimalReadsBack | vashandi/scripts/paperclip-commit-metrics.ts:785-787 | a rendered number has no leading zeros and stands for the number |
| CsvExport.WriteExport | vashandi/scripts/paperclip-commit-metrics.ts:741-817 | the export fails exactly when a sha has no cached commit, and otherwise reads back as the header and one row per sha |
| Gateway.NextKeepsInv | vashandi/backend/adapters/openclaw-gateway/ws.go:94-282 | every atomic action of callers, timers, reader and sweep keeps the invariant that ties the pending map, channels and timers together |
| Gateway.RunKeepsInv | vashandi/backend/adapters/openclaw-gateway/ws.go:94-282 | so does every interleaving |
| Gateway.AnswersAreOwn | vashandi/backend/adapters/openclaw-gateway/ws.go:120-154 | a Request returns only a response with its own id (never a mere acceptance when it waits for the final one), an error frame with its own id, its own timeout, a write or not-connected error, or the close error |
| Gateway.SettledOnce | vashandi/backend/adapters/openclaw-gateway/ws.go:170-180 | the reader settles an id at most once |
| GatewayProgress.CallWaits | vashandi/backend/adapters/openclaw-gateway/ws.go:94-154 | a call that finds the connection open gets to wait with its entry in the map |
| GatewayProgress.TakenUpIff | vashandi/backend/adapters/openclaw-gateway/ws.go:246-264 | in every reachable state the reader takes up a response exactly when a call with its id is in the map and waits for it, and otherwise nothing happens |
| GatewayProgress.ResponseReachesItsCall | vashandi/backend/adapters/openclaw-gateway/ws.go:246-281 | such a response is followed to the end: the waiting call returns with it, or with its remote error, its entry is gone and nobody else is touched |
| GatewayProgress.FailedWriteReturns | vashandi/backend/adapters/openclaw-gateway/ws.go:141-147 | a failed write returns as such and takes the entry back |
| GatewayProgress.TimeoutReturns | vashandi/backend/adapters/openclaw-gateway/ws.go:111-117 | a waiting call whose timer runs can time out and leave no entry |
| GatewayProgress.LostConnectionFailsItsCalls | vashandi/backend/adapters/openclaw-gateway/ws.go:170-180 | a call that waits when the connection is lost returns the close error and leaves no entry |
| GatewayProgress.SweepCanEnd | vashandi/backend/adapters/openclaw-gateway/ws.go:170-209 | after every interleaving the reader can come to its end, with no entry left that was there when the loop ended |
| Gateway.SweepLeavesNobodyBehind | vashandi/backend/adapters/openclaw-gateway/ws.go:170-209 | after the sweep every request that was registered when the loop ended is out of the map and has returned, or has its answer waiting, or its timer about to deliver one |
| Gateway.StuckForever | vashandi/backend/adapters/openclaw-gateway/ws.go:141-154 | once the reader is gone a request with empty channels and no timer stays so in every continuation |
| Gateway.WayOut | vashandi/backend/adapters/openclaw-gateway/ws.go:120-154 | any other waiting request has a continuation in which it returns |
| Gateway.HangsIffStuck | vashandi/backend/adapters/openclaw-gateway/ws.go:94-209 | once the reader is gone a waiting request can never return exactly when it is in that state, and only one that registered after the loop ended without a timeout is |
| Gateway.LateRequestHangs | vashandi/backend/adapters/openclaw-gateway/ws.go:94-154 | a call made then, without a timeout and with its write succeeding, is in that state |
| Gateway.RefusedCallStays | vashandi/backend/adapters/openclaw-gateway/ws.go:120-139 | a call made when the connection is marked closed is refused, and its entry stays in the map |
| Gateway.ReaderCanBeGone | vashandi/backend/adapters/openclaw-gateway/ws.go:182-209 | the protocol reaches such a moment |
| Gateway.LeftBehindIff | vashandi/backend/adapters/openclaw-gateway/ws.go:120-180 | the id of a call that has returned is still in the pending map exactly when neither its timer (after registration), nor the reader, nor the sweep, nor a failed write of its own took it out |
| Gateway.LeakIff | vashandi/backend/adapters/openclaw-gateway/ws.go:120-180 | once the reader is gone, a returned call is still in the map exactly when the reader never settled it and it was refused as not connected and its timer has not fired since it was registered, or its timeout fired before it was registered |
| OrgTree.ChainIsUnique | vashandi/scripts/generate-company-assets.ts:254-287 | an agent has at most one chain of managers up to a root |
| OrgTree.ChainIsShort | vashandi/scripts/generate-company-assets.ts:269-280 | no chain is longer than the list of agents, which is why the recursion ends whatever cycles there are |
| OrgTree.ForestHoldsTheGrounded | vashandi/scripts/generate-company-assets.ts:254-287 | an id is in the forest exactly when its chain of managers ends at nobody or at an unknown non-empty slug |
| OrgTree.NobodyTwice | vashandi/scripts/generate-company-assets.ts:269-280 | no agent stands in two places |
| OrgTree.EverybodyInPlace | vashandi/scripts/generate-company-assets.ts:265-280 | every node has the slug and name of an agent and the label of its role, and stands under that agent's own manager |
| OrgTree.RoleLabels | vashandi/scripts/generate-company-assets.ts:242-252 | the label of each role |
| OrgTree.ReportsGrow | vashandi/scripts/generate-company-assets.ts:255-264 | reports stand in input order |
| OrgTree.TopInOrder | vashandi/scripts/generate-company-assets.ts:273-286 | the top of the forest shows the agents without a manager and then those with an unknown one, in input order |
| OrgTree.ForestIsRight | vashandi/scripts/generate-company-assets.ts:254-287 | all of that for the whole forest, cycles, self-reports and unknown managers included, and every top node is a root |
| OrgTree.GroupByManager | vashandi/scripts/generate-company-assets.ts:255-264 | the map from managers to their reports, in input order |
| OrgTree.BuildReports | vashandi/scripts/generate-company-assets.ts:269-280 | the recursive builder, ending on every input |
| OrgTree.BuildMembers | vashandi/scripts/generate-company-assets.ts:269-280 | the nodes for a list of reports |
| OrgTree.BuildDangling | vashandi/scripts/generate-company-assets.ts:281-286 | the trees of agents whose manager is unknown |
| OrgTree.BuildRoot | vashandi/scripts/generate-company-assets.ts:281-286 | one of those trees |
| OrgTree.BuildOrgTree | vashandi/scripts/generate-company-assets.ts:254-287 | the builder returns the specified forest |
| WorktreeLayout.SiblingConfigPaths | vashandi/server/src/worktree-config.ts:161-195 | the two directory loops find exactly the existing configurations the worktree sees: those of other instances of its home, and of its neighbours when its own lies below a repository's worktrees |
| WorktreeLayout.CollectNeighbours | vashandi/server/src/worktree-config.ts:182-193 | the second of these loops |
| WorktreeLayout.RepoRootIsFound | vashandi/server/src/worktree-config.ts:152-159 | the worktrees of a repository are found from anywhere below them |
| WorktreeLayout.NeighbourIsSeen | vashandi/server/src/worktree-config.ts:182-193 | a worktree of a repository sees the repository's other worktrees |
| WorktreeLayout.SanitizedIdIsClean | vashandi/server/src/worktree-config.ts:21-28 | an id made of a name is never empty and holds word characters and single inner dashes only |
| WorktreeLayout.InstancesSeeEachOther | vashandi/server/src/worktree-config.ts:168-178 | configurations at their own instance roots in one home all see each other and never themselves |
| WorktreeLayout.NeighboursSeeEachOther | vashandi/server/src/worktree-config.ts:152-193 | so do configurations of the worktrees of one repository |
| WorktreeLayout.UnnamedInstanceSeesItself | vashandi/server/src/worktree-config.ts:113-178 | a configuration at an instance's place that starts without an id and a name takes itself for a sibling |
| WorktreePorts.NextUnclaimed | vashandi/server/src/worktree-config.ts:214-220 | the least unclaimed port from a start on |
| WorktreePorts.FindNextUnclaimedPort | vashandi/server/src/worktree-config.ts:214-220 | the search ends and finds the least unclaimed port that is at least 1 and at least the preferred one |
| WorktreePorts.RepairIsRight | vashandi/server/src/worktree-config.ts:222-308 | after a repair all paths are inside the instance root and no port collides with a sibling; a rewritten configuration has positive, different ports; exactly a configuration that needed it is changed, and repairing again changes nothing |
| WorktreePorts.PortsAreLeastFree | vashandi/server/src/worktree-config.ts:391-405 | a repair keeps a free port that is not the default one, and otherwise takes the least free one above; the database keeps clear of the server's new port |
| WorktreePorts.PathsAndUrlAreMoved | vashandi/server/src/worktree-config.ts:222-308 | every path goes to its place under the instance root, and the new port into exactly the URL of the local machine |
| WorktreePorts.Home.constructor | vashandi/server/src/worktree-config.ts:382-386 | the configuration files on disk |
| WorktreePorts.Home.CollectSiblingPorts | vashandi/server/src/worktree-config.ts:161-212 | exactly the positive ports of the configurations the worktree sees |
| WorktreePorts.Home.MaybeRepair | vashandi/server/src/worktree-config.ts:382-418 | changes only its own configuration, by the specified repair, and reports a repair exactly when something changed |
| WorktreePorts.PassSeparates | vashandi/server/src/worktree-config.ts:384-414 | after a pass in any order a worktree that started shares neither a server port nor an embedded-database port with a configuration it sees, provided that one looks back or did not start after it |
| WorktreePorts.PassIsolates | vashandi/server/src/worktree-config.ts:222-308 | every worktree that has started has all paths inside its own instance root |
| WorktreePorts.StartChangesIff | vashandi/server/src/worktree-config.ts:384-414 | a start changes a configuration exactly when its worktree has something to repair |
| WorktreePorts.SettledStays | vashandi/server/src/worktree-config.ts:384-414 | when nothing needs repair no further start changes anything |
| WorktreePorts.PassSettles | vashandi/server/src/worktree-config.ts:384-414 | when nobody sees itself and whoever is seen without looking back starts first, one pass leaves nothing to repair |
| WorktreePorts.SelfSightNeverSettles | vashandi/server/src/worktree-config.ts:161-212 | a worktree that sees itself and has a port is moved by every start |
| WorktreePorts.PassSettlesIff | vashandi/server/src/worktree-config.ts:161-414 | a pass leaves nothing to repair, whatever the configurations hold, exactly for such layouts and orders |
| WorktreePorts.SecondPassIff | vashandi/server/src/worktree-config.ts:161-414 | and exactly for them a second pass never changes anything |
| WorktreePorts.SecondPassChangesNothing | vashandi/server/src/worktree-config.ts:384-414 | in such an order no later start, whichever and how many, changes anything |
| WorktreePorts.MutualPassSettles | vashandi/server/src/worktree-config.ts:384-414 | where everybody who is seen looks back, one pass in any order settles everything, and all who see each other have ports of their own |
| WorktreePorts.InstancesSettle | vashandi/server/src/worktree-config.ts:168-414 | so it does for worktrees whose configurations lie at their own instance roots in one home |
| WorktreePorts.NeighboursSettle | vashandi/server/src/worktree-config.ts:182-414 | and for the worktrees of one repository |
| WorktreePorts.LocalFirstDoesNotSettle | vashandi/server/src/worktree-config.ts:168-414 | two legacy configurations on the default port, in a repository and in an instance of its home: when the repository's starts first both end on one port, and its next start moves it again |
| EnvFile.ParseEnvFile | vashandi/server/src/worktree-config.ts:47-76 | the line loop returns what the specified reading of the lines gives |
| EnvReading.QuotedIsRead | vashandi/server/src/worktree-config.ts:64-70 | quotes of one kind around a value are taken off, and nothing between them is changed |
| EnvReading.CommentedWordIsRead | vashandi/server/src/worktree-config.ts:72 | what stands behind a space and a hash sign is no part of an unquoted value |
| EnvReading.ExportMakesNoDifference | vashandi/server/src/worktree-config.ts:54 | nor does a leading export |
| EnvReading.CommentSaysNothing | vashandi/server/src/worktree-config.ts:51-52 | comments and blank lines say nothing |
| EnvReading.LastSettingDecides | vashandi/server/src/worktree-config.ts:47-76 | the last line that sets a key decides and leaves other keys alone |
| EnvReading.PlainIff | vashandi/server/src/worktree-config.ts:83-90 | which values are written as they are and fit on a line |
| EnvReading.EscapesReadBack | vashandi/server/src/worktree-config.ts:87 | a JSON reader takes every escape for the character it was written for |
| EnvFile.LineReadsBack | vashandi/server/src/worktree-config.ts:47-90 | a written line reads back as the key with the escaped value, or not at all when a line terminator stands in it |
| EnvFile.FileReadsBack | vashandi/server/src/worktree-config.ts:47-90 | the same for a whole written file |
| EnvFile.RoundTripIff | vashandi/server/src/worktree-config.ts:47-90 | reading back a written file gives the same entries exactly when no value holds a quote, a backslash, a control character or a line separator |
| EnvFile.RewriteSettlesIff | vashandi/server/src/worktree-config.ts:420-438 | one rewrite settles the environment file exactly when every setting is such a value; otherwise each start rewrites it |
| EnvFile.BackslashDoesNotReadBack | vashandi/server/src/worktree-config.ts:47-90 | a configuration path with a backslash comes back with two, and the file written for it is rewritten |
| ToolCalls.ParseSSE | vashandi/backend/adapters/openai/runner.go:134-203 | content, calls, stop reason and usage are those that the readable data lines before the closing line determine |
| ToolCalls.AddFragments | vashandi/backend/adapters/openai/runner.go:178-189 | calls are kept under their index, each made of exactly its own fragments so far |
| ToolCalls.AddChoices | vashandi/backend/adapters/openai/runner.go:174-193 | content, calls and stop reason after a list of choices |
| ToolCalls.EmitCalls | vashandi/backend/adapters/openai/runner.go:197-201 | the calls under 0, 1, ... below their number |
| ToolCalls.NothingLostIff | vashandi/backend/adapters/openai/runner.go:197-201 | no call is lost exactly when the indices are 0..n-1; then call i is made of the fragments with index i, in order, and nothing else |
| ToolCalls.GapLosesCall | vashandi/backend/adapters/openai/runner.go:197-201 | a stream whose only call has index 1 yields no call |
| ToolCallPieces.ChunksInOrder | vashandi/backend/adapters/openai/runner.go:140-170 | data lines are read one after the other, up to the closing line and no further |
| ToolCallPieces.ChunksOfOne | vashandi/backend/adapters/openai/runner.go:142-168 | a data line gives its chunk if it can be read, any other line nothing |
| ToolCallPieces.CallsAreTheirPieces | vashandi/backend/adapters/openai/runner.go:178-189 | in a stream without a gap the name of call i is the names of the fragments with index i joined, its arguments their arguments joined, and its id their last that is not empty |
| ToolCallPieces.GaplessIff | vashandi/backend/adapters/openai/runner.go:197-201 | a stream is of this kind exactly when its indices are 0, 1, ... |
| ToolCallPieces.NothingYet | vashandi/backend/adapters/openai/runner.go:134-137 | nothing comes of an empty stream |
| ToolCallPieces.TextGrows | vashandi/backend/adapters/openai/runner.go:171-196 | a further chunk's content goes behind the content, and its stop reason and usage replace those before |
| ToolCallPieces.ResultGrows | vashandi/backend/adapters/openai/runner.go:178-201 | its fragment joins the call with its index, or starts the next one, and leaves the others alone |
| ToolCallPieces.LoneFragment | vashandi/backend/adapters/openai/runner.go:178-201 | a call sent in one fragment comes back as it is |
| ToolCalls.OnlyOwnTextMatters | vashandi/backend/adapters/openai/runner.go:178-189 | how a call was cut into fragments, and what came between them, leaves no trace |
| ToolCalls.OnlyProjectionsMatter | vashandi/backend/adapters/openai/runner.go:178-196 | streams with equal content and equal fragments for each index give equal calls |
| ToolCalls.ConversationLoop | vashandi/backend/adapters/openai/runner.go:205-232 | the history is the given messages followed by at most the allowed number of rounds, each answer being the model's to the history before it and each tool run at its own point; it ends on a final answer, the limit or an error |
| ToolCalls.RunTools | vashandi/backend/adapters/openai/runner.go:223-229 | one output for each call, in order, with errors turned into text |
| ToolCallPieces.OutputIsItsTools | vashandi/backend/adapters/openai/runner.go:223-229 | each output is what its tool gives at its own point of the history, or its error as text |
| ToolCallPieces.RoundInHistory | vashandi/backend/adapters/openai/runner.go:217-229 | a round is the answer and then, for each call, its output under its id |
| ToolCalls.AnsweredIff | vashandi/backend/adapters/openai/runner.go:205-232 | every call in the history is answered before anything else follows, except exactly when the last answer both calls tools and says stop |
| ToolCalls.StopLeavesCallsOpen | vashandi/backend/adapters/openai/runner.go:205-232 | an outcome of the loop for a model whose first answer does both: the history ends with the open call |
| RoutineVariables.ExtractNames | vashandi/backend/shared/routine_variables.go:124-144 | the mentioned names, each once, in order of first mention over all templates |
| RoutineVariables.OnlyMentionedNamesMatter | vashandi/backend/shared/routine_variables.go:217-233 | interpolation looks only at the mentioned names and leaves a template without values for them as it was |
| RoutineResolution.PieceShows | vashandi/backend/shared/routine_variables.go:188-233 | what a text and a hole become: its value as text, or itself without one |
| RoutineResolution.PiecesShowInOrder | vashandi/backend/shared/routine_variables.go:217-233 | a template is interpolated piece by piece |
| RoutineVariables.SyncWithTemplate | vashandi/backend/shared/routine_variables.go:159-186 | the definitions for the wanted names, the last existing one or the default |
| RoutineVariables.SyncedNames | vashandi/backend/shared/routine_variables.go:159-186 | after a sync there is exactly one definition for every mentioned name that is not built in |
| RoutineVariables.DefinitionIsFound | vashandi/backend/shared/routine_variables.go:170-184 | a name with a definition keeps it |
| RoutineVariables.UnknownGetsDefault | vashandi/backend/shared/routine_variables.go:146-156 | a name without one gets a required text variable |
| RoutineVariables.SyncTwice | vashandi/backend/shared/routine_variables.go:159-186 | syncing again changes nothing |
| RoutineVariables.NormalizeTwice | vashandi/backend/shared/routine_variables.go:245-316 | a normalized value normalizes to itself |
| RoutineResolution.TextIsKept | vashandi/backend/shared/routine_variables.go:245-270 | a text is kept, and a select accepts exactly its options |
| RoutineResolution.WordsAreBooleans | vashandi/backend/shared/routine_variables.go:274-296 | which words and numbers are which truth value |
| RoutineResolution.TextsAreNumbers | vashandi/backend/shared/routine_variables.go:299-316 | what a text is parsed to as a number |
| RoutineVariables.ResolveValues | vashandi/backend/shared/routine_variables.go:330-387 | resolved values, the first invalid value, or all missing names, as specified |
| RoutineResolution.GivenDecides | vashandi/backend/shared/routine_variables.go:354-380 | a given value that is not null decides, normalized; one that is null leaves it to the default |
| RoutineResolution.PayloadDecides | vashandi/backend/shared/routine_variables.go:349-380 | without a given entry the payload's variables decide in the same way |
| RoutineResolution.FieldOrDefaultDecides | vashandi/backend/shared/routine_variables.go:341-380 | without either a webhook's own field decides, for a webhook only, and otherwise the default |
| RoutineResolution.OnlyVariablesAreResolved | vashandi/backend/shared/routine_variables.go:358-380 | nothing else is resolved |
| RoutineResolution.RefusalIsTrue | vashandi/backend/shared/routine_variables.go:358-385 | a refusal names the first value that is not acceptable, or else all absent required variables in order |
| RoutineVariables.ResolvesIff | vashandi/backend/shared/routine_variables.go:330-387 | resolving succeeds exactly when every variable has an acceptable value and every required one has a value |
| RoutineVariables.StoredProvides | vashandi/backend/shared/routine_variables.go:390-416 | what the stored payload provides: the resolved values, and otherwise what the first payload did |
| RoutineResolution.MergedPayload | vashandi/backend/shared/routine_variables.go:390-416 | the stored payload keeps everything of the first but its variables, where the resolved values come on top |
| RoutineVariables.ResolveTwice | vashandi/backend/shared/routine_variables.go:330-416 | for distinct names, resolving again from the stored payload with the same separate values gives the same result |
| RoutineVariables.SyncedResolveTwice | vashandi/backend/shared/routine_variables.go:159-416 | so it does for every synced set of variables |
| RoutineVariables.SharedNamesDoNotResolveTwice | vashandi/backend/shared/routine_variables.go:358-380 | with a number and a boolean under one name the second resolve fails |
| OutputBuffer.CapturedOutputBuffer.constructor | vashandi/scripts/dev-runner-output.ts:10-19 | the limit is at least 1 and the buffer empty |
| OutputBuffer.CapturedOutputBuffer.Append | vashandi/scripts/dev-runner-output.ts:22-45 | the chunks hold exactly the last min(total, limit) bytes of everything appended, bufferedBytes is their length, and truncated holds exactly when the total exceeds the limit |
| OutputBuffer.CapturedOutputBuffer.Trim | vashandi/scripts/dev-runner-output.ts:31-44 | the trim loop ends and keeps exactly the last bytes |
| OutputBuffer.CapturedOutputBuffer.Finish | vashandi/scripts/dev-runner-output.ts:47-62 | the text, flag and total that everything appended determines |
| OutputBuffer.TailOfTail | vashandi/scripts/dev-runner-output.ts:31-44 | keeping the tail at each append is keeping the tail of the whole |
| ModelListing.DedupeModels | vashandi/backend/adapters/pi-local/models.go:123-142 | every id that is not blank once, as its first appearance gave it, trimmed |
| ModelListing.CleanedShows | vashandi/backend/adapters/pi-local/models.go:123-142 | ids and labels are trimmed, and the id stands in for a blank label |
| ModelListing.LessIff | vashandi/backend/adapters/pi-local/models.go:147-149 | the order of the list: the first difference decides |
| ModelListing.Discover | vashandi/backend/adapters/pi-local/models.go:259-261 | the list is sorted by lower-cased id, holds no id twice, and holds exactly the first appearances |
| ModelListing.SplitByDoubleSpace | vashandi/backend/adapters/pi-local/models.go:94-121 | the loop computes the specified columns |
| ModelListing.RowReadsBack | vashandi/backend/adapters/pi-local/models.go:94-121 | a row of cells with gaps of two or more spaces, however wide, is split into exactly its cells |
| ModelsCache.CollectPairs | vashandi/backend/adapters/pi-local/models.go:177-186 | every name of the environment that is not volatile, once, with the hash of its value |
| ModelsCache.DiscoveryCacheKey | vashandi/backend/adapters/pi-local/models.go:177-199 | the key lists the stable part of the environment in ascending order |
| ModelsCache.ListingIsUnique | vashandi/backend/adapters/pi-local/models.go:187 | an environment has only one such listing |
| ModelsCache.KeysAgreeIff | vashandi/backend/adapters/pi-local/models.go:177-199 | two keys are equal exactly when command, directory and the stable environment agree |
| ModelsCache.VolatileMakesNoDifference | vashandi/backend/adapters/pi-local/models.go:153-185 | a volatile variable makes no difference to the key |
| ModelsCache.VolatileNames | vashandi/backend/adapters/pi-local/models.go:153-170 | which names are volatile |
| ModelsCache.Cache.constructor | vashandi/backend/adapters/pi-local/models.go:38-41 | an empty cache is valid |
| ModelsCache.Cache.PruneExpired | vashandi/backend/adapters/pi-local/models.go:201-207 | removes exactly the expired entries |
| ModelsCache.Cache.Lookup | vashandi/backend/adapters/pi-local/models.go:284-292 | a hit exactly when the last discovery under the key was stored less than 60 seconds ago, and then its models |
| ModelsCache.Cache.Remember | vashandi/backend/adapters/pi-local/models.go:299-304 | the discovery becomes the last one under its key |
| ModelsCache.HitIsRecent | vashandi/backend/adapters/pi-local/models.go:271-307 | a cached answer was discovered under the same key less than 60 seconds ago with nothing since, and is sorted without a repeated id |
| Redaction.SanitizeRecord | vashandi/server/src/redaction.ts:31-53 | the loop writes exactly the specified record |
| Redaction.SecretsAreMarked | vashandi/server/src/redaction.ts:31-53 | what stands under a secret-named key, in place of a token, and for any other leaf |
| Redaction.PartsAreSanitized | vashandi/server/src/redaction.ts:12-53 | and so in every record, binding and list below |
| Redaction.ValueTwice | vashandi/server/src/redaction.ts:12-19 | sanitizing a value twice is sanitizing it once |
| Redaction.FieldsTwice | vashandi/server/src/redaction.ts:31-53 | so it is for a record at every depth, and the keys stay |
| Redaction.FixedIffClean | vashandi/server/src/redaction.ts:12-53 | the values the sanitizer leaves alone, characterized without it, by cases on their structure |
| Redaction.SanitizedIsClean | vashandi/server/src/redaction.ts:31-53 | every sanitized record is such a value and has the keys of the original |
| Redaction.SecretsDoNotShow | vashandi/server/src/redaction.ts:31-53 | records that differ only below secret-named keys, with the same kind of binding there, and in tokens are sanitized to the same record |
| RedactionExposure.ExposuresAreExcused | vashandi/server/src/redaction.ts:12-53 | along every path into a sanitized record: what a secret-named key shows is a mark, a binding of the mark, or is or stands under a secret reference, and a token stands under a secret reference, in an array, or as the value of a plain binding |
| RedactionExposure.LeafSurvivesIff | vashandi/server/src/redaction.ts:12-53 | which parts come through: a value without parts, other than the two texts the sanitizer writes, is in the output at its place exactly when no secret-named key other than one that holds a reference, and no extra property of a plain binding, stands on the way outside of references, and, if it is a token, when it has one of those three excuses |
| RedactionExposure.ArrayShowsToken | vashandi/server/src/redaction.ts:12-29 | a token in an array is shown |
| RedactionExposure.ReferenceShowsPassword | vashandi/server/src/redaction.ts:12-41 | so is a password beside the id of a secret reference |
| Branding.EscapedIsHarmless | vashandi/server/src/ui-branding.ts:125-131 | escaped text can neither open a comment nor end half way into one |
| Branding.LinksAreHarmless | vashandi/server/src/ui-branding.ts:171-179 | the generated links can never contain a marker |
| Branding.MetaIsHarmless | vashandi/server/src/ui-branding.ts:181-190 | nor can the generated meta tags |
| BrandingReader.EscapedReadsBack | vashandi/server/src/ui-branding.ts:125-131 | escaping loses nothing: a reader of the entities gets the value back |
| BrandingReader.BlockReadsBack | vashandi/server/src/ui-branding.ts:192-206 | a reader of an indented block finds exactly its tags, in order, with their values |
| BrandingReader.MetaReadsBack | vashandi/server/src/ui-branding.ts:181-206 | in the block of a branded page stand that it is a worktree, its name, color and text color, each under its own name, with line feeds inside a value indented; otherwise nothing |
| BrandingReader.IndentKeepsIff | vashandi/server/src/ui-branding.ts:198-203 | the indentation changes exactly the values that hold a line feed |
| BrandingReader.PageShowsBranding | vashandi/server/src/ui-branding.ts:208-217 | that block stands between the markers of the branded page, and the rest is as the icon block left it |
| Branding.ReplacedBlock | vashandi/server/src/ui-branding.ts:192-206 | where the block and its markers are after a replacement |
| Branding.ReplaceTwice | vashandi/server/src/ui-branding.ts:192-206 | replacing a block twice is replacing it once, on every text |
| Branding.StillAtMostOnce | vashandi/server/src/ui-branding.ts:192-206 | a replacement does not multiply markers |
| Branding.StaysFilled | vashandi/server/src/ui-branding.ts:192-217 | exchanging the runtime block does not disturb a filled favicon block, wherever the two stand |
| Branding.ApplyTwice | vashandi/server/src/ui-branding.ts:208-217 | branding a page twice is branding it once, for every page with each favicon marker at most once |

## Left out

- HTTP handlers, SQL and GORM, Redis, gRPC, the command lines, the UI, TLS and process spawning.
- Authentication and token modules, the Anthropic and Gemini runners, the local CLI adapters and log redaction.
- Each public call of the memory service is one step that happens at one instant and whose writes succeed; the source saves a row and then its version without a transaction.
- The ids that Browse, Search and the two scans visit are parameters of the step: query filters, ranking, scores, pgvector and batching are not modelled.
- ForgetMemories is not an operation of its own: it soft-deletes each id and adds one audit entry, so it is a run of Delete steps and a Note.
- Proposals (createProposalIfMissing, ResolveProposal), edges, agents, namespaces, file sync, the file written by a write-back, and the request metadata of an audit entry.
- MemoryHistory.RollbackRestores: speaks of the content that a version snapshots; like the source it brings back neither entity type, sync path, decay time nor access count.
- MemoryStore.Store.TouchMemories: takes the current rows of distinct ids, which is what its callers have just read.
- WindowSearch.CommitSearch.SearchWindow: the search index does not change during a run, and dates are whole seconds as the service compares them.
- WindowSearch: rate limits, retries, saving the cache to disk and the summary.
- WindowSearch.CommitSearch.IngestSearchItems: the contributors of a hit, which the source extracts from its author and its message, are part of the hit here.
- MemoryLedger.RunIsRetold: calls that only make a note use other actions than the six that record changes, as those of the source do.
- WorkerPool: what a fetch returns is arbitrary; saving the cache between fetches is not modelled.
- CsvExport: a carriage return is an ordinary character, as in the source; lines end in a line feed. ISO dates and the order of the shas are inputs.
- Gateway: the connect handshake, event frames (dispatched on their own goroutines, in no order), the wording of remote errors, and a request that cannot be encoded. Ids are fresh, as random ids are in the source.
- OrgTree.BuildOrgTree: roles that name a property every JavaScript object inherits are not modelled; slugs are distinct; with a repeated slug the recursion of the source need not end. An empty manager slug is neither a root nor on a chain, as in the source, whose package reader turns one into no manager (vashandi/scripts/generate-company-assets.ts:178).
- WorktreeLayout: paths are absolute and normalized, an instance id is one path segment, links are not followed, and a directory counts only for the configurations below it. Lower-casing is a parameter.
- WorktreePorts: malformed configurations are not in the map, a URL that does not parse is a value of its own, and worktrees start one after the other. Nothing keeps one worktree's server port apart from another one's database port, and the model claims nothing of the kind.
- WorktreePorts.NeighboursSettle: the repository's worktrees do not lie in the home itself, where a worktree named instances would be one of both kinds.
- EnvFile, Redaction: lone surrogates and a property named __proto__.
- ToolCalls.ParseSSE: the lines are those the scanner delivers; its error for an over-long line is not modelled, nor is a partly decoded chunk.
- ToolCalls: tool schemas, HTTP errors beyond one error value, and cancellation.
- RoutineVariables: how the placeholder expression divides a template is an input (pieces of text and holes); the value of the built-in date.
- ModelListing.Discover: stands for the sort of the library by one permutation in ascending order; which one it picks among ids that differ only in case is not claimed.
- ModelListing: header detection and the splitting of provider and model in parseModelsOutput.
- ModelsCache.Cache.Lookup: times are those read inside the two critical sections, and the clock is monotonic; callers that share the returned slice and change it are not modelled.
- OutputBuffer: cutting a UTF-8 sequence in the middle is left to the decoder, which is a parameter; parseJsonResponseWithLimit.
- Redaction: class instances and arrays at the top level of a payload pass through as in the source; regular expressions are written out for the characters they name.
- Branding: colour arithmetic, the generated icon and the reading of the environment are inputs; the tags of the icon links are not read back.
