# A verified model of KIDE's index

KIDE keeps a semantic index of a workspace: compiler workers report one snapshot of facts for each source unit, Core
commits the snapshots to tables, plans what to reanalyse, answers queries, caches dependency graphs as binary blobs and
talks to its workers over a pipe. In each of these places a fast, incremental or compact form has to agree with a simple
one. This project models both forms in Dafny and proves that they agree.

The modules follow the program.

- **Index store.** `Canonical` holds the records that workers report. `Tables` gives the rows one snapshot contributes and
  their primary keys, `Relation` the theory of keyed rows, `Store` validation, deletion and insertion row by row, with the
  class `IndexStore` as the owner of the tables, and `Lookups`, `UnitLookups`, `Applications` and `HierarchyWalk` the
  queries. The abstract state is the list of committed snapshots; the tables are always its projection (`AllRows`).
  `RecordKeys` and `Replacement` tell over the records alone which snapshots the store accepts, and `Listings` in what
  order and how often queries list their answers.
- **Query plans.** `Selector` and `SemanticQuery`; `SelectorMeaning` says which selectors mean what they say, over the
  small indexes of `LoneSnapshot`.
- **Indexing runs.** `Freshness` plans, and `PlanShape` tells for which reasons; `Orchestrator` runs one batch,
  `Convergence` reasons over sequences of runs, `WorkerRegistry` selects batches, which `BatchShape` describes, and
  `SelectedRun` runs them. `RunOutcome` tells exactly when a run finishes, with which error it stops and what it then
  leaves. A worker is any function from a request to a response; where
  a theorem needs more of it, a named predicate says so (`AnswersCarry`, `AnswersEcho`). `ForeignWorker` has workers
  that are asked again in every run. `DependencyCatalog` and `DependencyLane` are the other half of a run, discovery of
  dependencies and the manifest row; `LaneOutcome` tells how they end, and `LaneHistory` what their tables are worth after
  any series of runs.
- **Dependency blobs.** `WorkerProto` and `SnapshotTransport` are the worker messages, `ArtifactProto` and `GraphCodec` the
  stored graph, `SymbolDetail` and `DetailBlocks` the detail blocks, `BlobLayout` the table of contents,
  `ArtifactQuery` the queries, `ArtifactAnswers`, `ArtifactImplementations` and `ArtifactBlob` what they answer, and
  `QueryFailures` how they fail.
  `StoredShape`, `LayoutBytes` and `Projections` tell what is stored, entry by entry and byte by byte.
- **Blob publication.** `BlobCache` is a state machine over inodes and names: any number of publishers, readers and removers
  step in any order, processes die at any step, and the machine may lose power. `BlobOutcome` says what a publisher's
  answer means and what failed publishers leave behind, and `BlobPublishing` that publishing and reading succeed.
- **Worker pipe.** `Framing` has Core's frames and the JVM worker's, `FramingOutcome` what each reader makes of any bytes;
  `Supervisor` has the lifecycle of a worker process, given what the process and the clock do, and `SupervisorOutcome` what
  a caller is told.
- **Text.** `Utf8` and `TextPositions` convert offsets and positions, `TextIndex` and `TextStore` keep the lexical terms,
  `DeclarationChoice` picks the declaration under a cursor.
- `Prelude` and `Ordering` hold options, results, sequence combinators, stable sorting and ordered maps.

Loops and updates of the program are methods, with loops and classes where the program has them; each is proved equal to a
function, or to a property stated outright, and the lemmas are about those functions. What a function computes is told
again in other terms: over records instead of rows and keys (`Replacement`), over what a query's terms denote
(`SemanticQuery.Plans`, `Answers`), over what happened around a call (`SupervisorOutcome`, `RunOutcome`).

Some laws hold only under a condition, and then the condition is exact.

- A bounded selector means the conjunction of its predicates exactly when it names one supertype at most or its filters
  exclude each other (`SelectorMeaning.SelectMeansFilterExactly`); every other one keeps, on some index, a symbol that lacks
  a supertype.
- The indexed implementations query agrees with decoding the graph exactly when the postings name the subtypes that decoded
  edges declare and these symbols' details give all of them (`ArtifactImplementations.PathsAgreeExactly`,
  `UniqueAgreeExactly`); a detail keeps only an owner named inline and a provenance it names (`SymbolDetail.DetailGives`).
  Core's own graph writer names edge ends by ordinal, so over its graphs the query finds nothing for a declared type, which
  is right exactly when there is nothing to find (`WrittenPathsAgreeExactly`, `PathsDiffer`); the JVM worker names them
  inline, and then postings and edges agree.
- The run after a finished one is pure reuse exactly when the answers just committed carry what the plan compares and no
  up-to-date dependent was dropped (`Convergence.NextRunIsPureReuseExactly`); nothing in Core compares an answer's
  provenance, and `ForeignWorker.AskedAgainEveryRun` is asked for ever. Over selected batches the last answer must have the
  content and context of the source (`SelectedRun.BatchedRunConvergesExactly`); nothing compares these either
  (`ForeignWorker.AskedAgainEveryBatchedRun`).
- A recorded manifest vouches for the catalogue of dependencies over all runs of one workspace that do not die between two
  commits, and exactly which run breaks it is `LaneHistory.VouchedExactly`.
- The documentation says that publishing returns false when a writer has already published the key. It also does when a
  publisher of the same process id has not finished, or a dead one left its temporary file, and exactly then, if nobody
  linked the key, it was never visible (`BlobOutcome.ToldTheTruthExactly`, `LostToNobody`).
- Core and the JVM worker read a stream alike exactly while it announces less than 2 to the 31; from 2 to the 63 on Core
  panics (`Framing.PeersReadAlikeExactly`, `HugeAnnouncementPanics`).
- A snapshot survives the messages exactly when each record is one they can carry (`SnapshotTransport.TransportExactly`), the
  two frame decoders differ on exactly the inputs that `Framing.DecodersDiffer` lists, one byte offset of a text does not
  round-trip (`TextPositions.OffsetRoundTripExactly`), and a detail entry decodes to its symbol exactly when its owner is
  inline and its provenance is the block's fallback (`SymbolDetail.DetailExactly`).

SHA-256 is an arbitrary function that is injective where a theorem needs it. Message bytes, gzip and the table of contents'
encoding are arbitrary functions that their decoders invert; the encoded length of the table of contents is computed.
SQLite is a set of rows with primary keys and all-or-nothing transactions. Which characters belong to a word is a parameter.

## Model

| member | source | states |
|---|---|---|
| Relation.InsertRowsOutcome | crates/kide-core/src/store.rs:1782-1916 | A list of rows goes into tables with primary keys exactly when every row passes its own check and no key is met twice, against stored rows or among the new ones; otherwise the error is that of the first failing row |
| Relation.KeepBlocks | crates/kide-core/src/store.rs:1741-1768 | A deletion that takes some owners' rows whole leaves exactly the other owners' rows, in order |
| Tables.RowsOwned | crates/kide-core/src/store.rs:1782-1916 | Every row a snapshot inserts names that snapshot's unit, except argument rows, which name one of its applications |
| Tables.SelectAll | crates/kide-core/src/store.rs:1585-1628 | Selecting one kind of record from the whole index is selecting it from each committed snapshot in turn |
| Store.DeleteFileOwnedFacts | crates/kide-core/src/store.rs:1741-1768 | Deleting a unit's facts table by table, arguments first, leaves exactly the rows that belong neither to the unit nor to an application the unit owns |
| Store.DeletionProjects | crates/kide-core/src/store.rs:1741-1768 | On tables that are the projection of the committed snapshots, that deletion leaves the projection of the other snapshots: no orphan argument stays and no other unit loses a row |
| Store.InsertSnapshot | crates/kide-core/src/store.rs:1782-1916 | Inserting a snapshot row by row appends exactly its projected rows or fails with the first row whose offset does not fit or whose key clashes |
| Store.UnitsDistinct | crates/kide-core/src/store.rs:1036-1064 | At most one snapshot is committed for a source unit |
| Store.ReplaceOutcome | crates/kide-core/src/store.rs:1036-1064 | A replacement goes through exactly when its rows can be inserted beside those that stay; then the tables are the projection of the new snapshot map (Replacement.ReplaceExactly tells the condition over records) |
| Replacement.ReplaceExactly | crates/kide-core/src/store.rs:1036-1064 | Over records: replacing a unit's snapshot goes through exactly when the new one's offsets fit, it holds nothing twice and it shares nothing with the snapshot of any other unit |
| Replacement.FactsExactly | crates/kide-core/src/store.rs:1630-1735 | Validation accepts exactly the snapshots all of whose facts are told in protocol version 3, lie in the unit and end no earlier than they start; an edge of the hierarchy and a type have only a provenance to check, and a diagnostic need not have a range |
| Store.WithoutWellStored | crates/kide-core/src/store.rs:1258-1263 | Removing a unit keeps the remaining snapshots validated and free of key clashes |
| Store.ReplaceAllWellStored | crates/kide-core/src/store.rs:1050-1064 | A batch of validated replacements keeps the committed snapshots validated and free of key clashes |
| Store.IndexStore.ReplaceSnapshot | crates/kide-core/src/store.rs:1036-1048 | Replaces one unit's snapshot or fails leaving every table as it was |
| Store.IndexStore.ReplaceSnapshotsBatch | crates/kide-core/src/store.rs:1050-1064 | Validates every entry before writing, then commits all replacements in order or none: on success the tables are the projection of the replaced map, on failure nothing changed (Replacement.ReplaceBatchExactly tells over records exactly which it is) |
| Store.IndexStore.RemoveSnapshot | crates/kide-core/src/store.rs:1258-1263 | Removes exactly one unit's snapshot from the map and its rows from every table |
| RecordKeys.SnapshotKeysExactly | crates/kide-core/src/store.rs:28-170 | The rows of one snapshot share no primary key exactly when no two of its symbols or applications have one id, no annotation is listed twice on a symbol, no two arguments of one application have one position, no two occurrences have one range and kind, no two references or calls one range and target, no two edges one pair of ends, no two types one id, and no ranged diagnostic comes twice |
| Replacement.SharedExactly | crates/kide-core/src/store.rs:28-170 | The rows of two snapshots share no primary key exactly when they are of different units and share no symbol id and no application id |
| Replacement.WellStoredExactly | crates/kide-core/src/store.rs:1036-1064 | What the store keeps, told over records: every committed snapshot is sound and holds nothing twice, and no two share a unit, a symbol id or an application id |
| Replacement.ReplacementExactly | crates/kide-core/src/store.rs:1036-1048 | A replacement is refused, in this order, for another unit, for another content or context, for a fact that does not name the unit or the protocol version or ends before it starts, and last for an offset or an identity; it commits exactly when every fact is sound, every stored offset is below 2 to the 63, the snapshot holds nothing twice, and it shares no symbol id and no application id with another unit's; then just its unit's snapshot is another |
| Replacement.ReplaceBatchExactly | crates/kide-core/src/store.rs:1050-1064 | A batch commits exactly when every entry answers for its unit as it was asked for, is sound, fits, holds nothing twice and shares no identity with what stands for another unit when it is reached; what stands at the end is then what is committed |
| Lookups.EveryRunWellStored | crates/kide-core/src/store.rs:1036-1064 | After any sequence of replacements, batch replacements and removals, successful or failed, the tables are the projection of validated snapshots, at most one a unit |
| Lookups.ReplaceFinds | crates/kide-core/src/store.rs:1036-1048 | After a successful replacement the unit's committed snapshot is the new one and every other unit's is the old one |
| Lookups.FindFirst | crates/kide-core/src/orchestrator.rs:936-957 | Of several answers that name one unit the first one counts |
| Lookups.SnapshotOfCommitted | crates/kide-core/src/store.rs:1066-1088 | The snapshot row found by primary key is that of the committed snapshot |
| Lookups.SymbolsScan | crates/kide-core/src/store.rs:1265-1294 | Any symbol query over the joined tables is the scan of the committed snapshots, sorted by unit, name start and id |
| Lookups.SymbolsNamedScan | crates/kide-core/src/store.rs:1265-1294 | A name lookup answers with exactly the committed symbols of that name |
| Lookups.SymbolsForSourceScan | crates/kide-core/src/store.rs:1327-1357 | A unit lookup answers with exactly the symbols of that unit's committed snapshot |
| Lookups.SymbolByIdScan | crates/kide-core/src/store.rs:1359-1385 | An id lookup finds the committed symbol of that id, and finds nothing exactly when there is none |
| Lookups.SymbolReturnsExactly | crates/kide-core/src/store.rs:1359-1385 | A committed symbol is looked up by its id as it was committed exactly when its component and provenance are those of its snapshot, from which the reader takes them; its ranges always are |
| Lookups.SymbolIdsUnique | crates/kide-core/src/store.rs:1359-1385 | One symbol id is committed at most once in the whole index |
| Lookups.ReferencesScan | crates/kide-core/src/store.rs:1489-1495 | The reference posting is the scan of all committed references to a symbol in posting order |
| Lookups.CallsScan | crates/kide-core/src/store.rs:1497-1503 | The call posting is the scan of all committed calls to a symbol in posting order |
| Lookups.ImplementationsScan | crates/kide-core/src/store.rs:1505-1514 | The hierarchy posting is the scan of all committed edges into a symbol in posting order |
| Lookups.ReferencesMember | crates/kide-core/src/store.rs:1489-1495 | A reference is answered exactly when some committed snapshot holds it and it targets the symbol |
| Lookups.CallsMember | crates/kide-core/src/store.rs:1497-1503 | A call is answered exactly when some committed snapshot holds it and it targets the symbol |
| Lookups.ImplementationsMember | crates/kide-core/src/store.rs:1505-1514 | An edge is answered exactly when some committed snapshot holds it and the symbol is its supertype |
| Listings.SymbolsInOrder | crates/kide-core/src/store.rs:1265-1294 | A symbol query lists each answer once, by source unit, then by where its name starts, then by id |
| Listings.ReferencesInOrder | crates/kide-core/src/store.rs:1489-1495 | References come each once, by source unit and then by where they start |
| Listings.CallsInOrder | crates/kide-core/src/store.rs:1497-1503 | Calls come each once, by source unit and then by where they start |
| Listings.ImplementationsInOrder | crates/kide-core/src/store.rs:1505-1514 | Edges into a supertype come each once, by source unit and then by subtype |
| UnitLookups.OccurrencesAtScan | crates/kide-core/src/store.rs:1475-1487 | The occurrences at an offset are exactly those of the unit's committed snapshot that begin at or before it and end after it, the latest start first and of one start the earliest end first; an offset beyond 63 bits is refused |
| UnitLookups.TypesForScan | crates/kide-core/src/store.rs:1564-1572 | The types of a unit are exactly those of its committed snapshot, each once, by ascending id |
| UnitLookups.DiagnosticsForScan | crates/kide-core/src/store.rs:1574-1583 | The diagnostics of a unit are exactly those of its committed snapshot |
| UnitLookups.DiagnosticsInOrder | crates/kide-core/src/store.rs:1574-1583 | They come without a range first, then by start, by end, and by severity: errors, hints, informations, warnings |
| UnitLookups.UnitScan | crates/kide-core/src/store.rs:1475-1583 | A query for one unit over all the tables is the same query over what that unit has committed, record for record |
| Applications.ApplicationsUnique | crates/kide-core/src/store.rs:149-170 | An application id is committed at most once in the whole index |
| Applications.SymbolsWithNestedApplicationArgument | crates/kide-core/src/store.rs:1426-1473 | The nested-application loop computes the filter of its joined candidates |
| Applications.NestedScan | crates/kide-core/src/store.rs:1426-1473 | The joined query answers a symbol exactly when, in the committed snapshots, it carries the nested application and its owner carries the outer application with the wanted named argument |
| Listings.NestedInOrder | crates/kide-core/src/store.rs:1426-1473 | Its answers are listed each once, by source unit, then by where their names start, then by id |
| HierarchyWalk.Walk | crates/kide-core/src/store.rs:1519-1535 | The breadth-first loop terminates on every finite graph, cycles included, and returns every node reachable from the root other than the root, once each, in non-decreasing distance, each through an edge out of the root or an earlier result |
| HierarchyWalk.ImplementationsOfTransitive | crates/kide-core/src/store.rs:1519-1535 | The same of the stored hierarchy: the walk over posting queries is the reachable set of the committed edges |
| HierarchyWalk.EdgesIntoMember | crates/kide-core/src/store.rs:1505-1514 | One step of the walk lists exactly the committed edges into a symbol |
| HierarchyWalk.DependentSourceUnits | crates/kide-core/src/store.rs:1540-1562 | The loop over a unit's symbols, with its final sort and dedup, computes the dependents |
| HierarchyWalk.DependentsExact | crates/kide-core/src/store.rs:1540-1562 | The dependents of a unit are exactly the other committed units that reference, call or subtype one of its symbols, each once and in order |
| Selector.AppliedScan | crates/kide-core/src/store.rs:1387-1424 | The annotation posting answers with exactly the committed symbols that apply the annotation |
| Listings.AppliedInOrder | crates/kide-core/src/store.rs:1387-1424 | The symbols applying an annotation are listed in that order, each once |
| Listings.SubtypesListed | crates/kide-core/src/selector.rs:98-110 | The subtypes of a symbol are listed edge by edge in the order of the edges, one place for each committed edge whose subtype is a stored symbol |
| Freshness.PlanActions | crates/kide-core/src/freshness.rs:58-98 | The planner's loops compute one action for each current item in identity order and then one removal for each stored item no longer current |
| Freshness.PlanInvalidation | crates/kide-core/src/freshness.rs:58-98 | The source planner asks, once each, for exactly the current units whose identity is not stored or is stored with other content or context, and removes exactly the stored identities that are not current |
| Freshness.PlanAnalysisInvalidation | crates/kide-core/src/freshness.rs:101-154 | The analysis planner asks, once each, for exactly the current inputs whose identity is not stored or is stored with another content, context or provenance, and removes exactly the stored identities that are not current |
| PlanShape.SourcePlanSays | crates/kide-core/src/freshness.rs:58-98 | A source plan reuses a current unit that is stored with its content and context, asks for any other because its context changed or else its content, and removes the stored identities without a current unit; current units come first and removals last, each by ascending identity |
| PlanShape.AnalysisPlanSays | crates/kide-core/src/freshness.rs:101-154 | An analysis plan says so of inputs, with two reasons more: another backend, backend version or protocol, and other analysis options |
| PlanShape.LatestIsLast | crates/kide-core/src/freshness.rs:58-98 | Of several items with one identity the last one counts |
| Freshness.PlanExact | crates/kide-core/src/freshness.rs:58-98 | A plan reanalyses an item exactly when it is the latest current one of its identity and is judged changed, and removes exactly the stored identities that are not current |
| Freshness.ReanalyzeDistinct | crates/kide-core/src/freshness.rs:58-98 | No plan asks for a unit twice |
| Freshness.ApiDependentsMember | crates/kide-core/src/freshness.rs:23-35 | Dependents are invalidated exactly when the public API fingerprint changed; a body-only edit invalidates none |
| Orchestrator.PlanMeaning | crates/kide-core/src/orchestrator.rs:784-852 | Against the store, a run reanalyses exactly the current units without an up-to-date committed snapshot and removes exactly the tracked snapshots of units no longer current |
| Orchestrator.PlanDistinct | crates/kide-core/src/orchestrator.rs:784-850 | A run's request names no unit twice |
| Orchestrator.ValidateBatchExact | crates/kide-core/src/orchestrator.rs:1083-1106 | A response is accepted exactly when the units it names are the requested ones, each at least once |
| RunOutcome.ValidateBatchTells | crates/kide-core/src/orchestrator.rs:1083-1106 | A response is refused for the least identity it was not asked for, otherwise for the least identity it does not answer, and accepted exactly when there is neither |
| Convergence.RunFinds | crates/kide-core/src/orchestrator.rs:784-994 | What one finished run leaves for each unit: the worker's answer if asked for, nothing if dropped as a dependent or no longer current, and otherwise the snapshot that was there |
| RunOutcome.RunEndsExactly | crates/kide-core/src/orchestrator.rs:784-994 | A run finishes exactly when it asks for nothing, or the worker answers, names exactly the requested units and the store accepts its first answer for each; otherwise its error tells what failed first: the worker, the least identity not asked for, the least not answered, or the store |
| RunOutcome.StoppedRunLeaves | crates/kide-core/src/orchestrator.rs:894-935 | A run that stops, for whatever reason, leaves every unit as it was but for the tracked units that are no longer current: a unit that was to be analysed keeps the snapshot it had |
| Convergence.RunWellStored | crates/kide-core/src/orchestrator.rs:784-994 | Every run, failed or finished, keeps the store validated and free of key clashes |
| Convergence.CommitEchoes | crates/kide-core/src/orchestrator.rs:936-957 | A committed answer has the content and context that were requested: store validation leaves the worker no choice |
| Convergence.RunSettlesExactly | crates/kide-core/src/orchestrator.rs:784-994 | After a finished run every current unit is up to date or absent and nothing else is tracked, exactly when every answer it committed carries the provenance that is compared (without one: is not of dependency origin) |
| Convergence.RunConvergesExactly | crates/kide-core/src/orchestrator.rs:784-994 | A finished run leaves every current unit up to date and nothing else tracked exactly when its answers carry what is compared and it drops no dependent that was up to date |
| Convergence.SettledDropsNothing | crates/kide-core/src/orchestrator.rs:936-964 | A run that starts so settled drops no dependent, because an absent unit has no symbols left to invalidate others with |
| Convergence.SecondRunConverges | crates/kide-core/src/orchestrator.rs:784-994 | A finished run over a settled store leaves every current unit up to date exactly when its answers carry what is compared |
| Convergence.PureReuseExactly | crates/kide-core/src/orchestrator.rs:784-890 | A run asks no worker and removes nothing exactly when the store has converged to its inputs |
| Convergence.ThirdRunIsPureReuse | crates/kide-core/src/orchestrator.rs:784-994 | From any store state, after two finished runs over the same inputs, the first with answers that carry what is compared, the third is pure reuse exactly when the answers of the second carry it too: it then asks no worker and changes nothing, and every current unit has one up-to-date snapshot |
| Convergence.NextRunIsPureReuseExactly | crates/kide-core/src/orchestrator.rs:784-994 | From any store state, the run after a finished one analyses and removes nothing, whatever its worker, exactly when the answers just committed carry what is compared and no dependent that was up to date was dropped |
| Convergence.AskedForEver | crates/kide-core/src/orchestrator.rs:784-994 | A unit whose answers never carry what is compared is asked for in every run, however many there are |
| ForeignWorker.AskedAgainEveryRun | crates/kide-core/src/orchestrator.rs:784-994 | There is such a worker: over one unchanged unit, from an empty index, every run finishes, commits the same snapshot and asks for the unit again |
| Convergence.DroppedExactly | crates/kide-core/src/orchestrator.rs:936-964 | A finished run drops exactly the units it did not reanalyse that, before the commit, referenced, called or declared a subtype of a symbol of a unit whose public API fingerprint the run changed |
| Convergence.SurvivesExactly | crates/kide-core/src/orchestrator.rs:936-964 | An up-to-date unit survives a finished run with the snapshot it had exactly when it pointed at no unit whose public API fingerprint the run changed; a unit that the run removed does not count as changed, so its dependents survive |
| Convergence.NoStaleSurvivor | crates/kide-core/src/orchestrator.rs:936-964 | After a finished run whatever survives unanalysed, tracked or not, had no reference, call or declared subtype into a unit whose public API fingerprint the run changed |
| WorkerRegistry.LanguageKeyInjective | crates/kide-core/src/worker_registry.rs:327-335 | Two languages with one grouping key are the same language |
| WorkerRegistry.GroupedMembers | crates/kide-core/src/worker_registry.rs:216-227 | A group holds exactly the sources of its component and language, in sorted order |
| WorkerRegistry.GroupedFilled | crates/kide-core/src/worker_registry.rs:216-231 | No group is ever empty, so its first source names its component and language |
| WorkerRegistry.SelectDiscovered | crates/kide-core/src/worker_registry.rs:188-264 | The sorting, grouping and batching loops compute the selection |
| WorkerRegistry.SelectionConserves | crates/kide-core/src/worker_registry.rs:188-264 | Batches and unsupported groups together hold each source exactly as often as it was given |
| WorkerRegistry.SelectionIsOk | crates/kide-core/src/worker_registry.rs:188-264 | Every batch is non-empty, within the limit, of one component and one language, and served by the compatible worker of least name; an unsupported group has no compatible worker at all |
| BatchShape.ServedBy | crates/kide-core/src/worker_registry.rs:228-246 | A batch goes to the least-named worker that has its component's build system, its language and every required capability; an unsupported group has no such worker; a component that the manifest does not list counts as a plain directory, and of several entries for one the last counts |
| BatchShape.SelectionCut | crates/kide-core/src/worker_registry.rs:208-262 | The batches follow the groups of the sources, by component and then by language key, each group by path |
| BatchShape.GroupCut | crates/kide-core/src/worker_registry.rs:247-262 | A group becomes batches that together hold its sources in order, all but the last of exactly the limit, or none when nobody serves it |
| SelectedRun.SentExactly | crates/kide-core/src/orchestrator.rs:198-304 | A finished run over a selection of the current sources sends each source as often as it was listed when its identity is due, and otherwise never |
| SelectedRun.RunBatchLeaves | crates/kide-core/src/orchestrator.rs:386-402 | One committed batch leaves, for each requested unit, the last answer that names it, and every other unit as it was |
| SelectedRun.BatchesLeave | crates/kide-core/src/orchestrator.rs:268-304 | Committed batch after batch, a unit's snapshot is the last one answered for it in the last batch that asked for it, and there is one exactly for what was sent |
| RunOutcome.BatchEnds | crates/kide-core/src/orchestrator.rs:386-402 | One batch goes through exactly when its worker answers, names exactly the requested units and the store accepts all of its snapshots under the units they name; otherwise nothing is committed and the error tells what failed first |
| RunOutcome.BatchedRunEndsExactly | crates/kide-core/src/orchestrator.rs:198-304 | A batched run finishes exactly when every source has a worker and no batch with due sources fails to go through after those before it |
| RunOutcome.StoppedBatchedRunLeaves | crates/kide-core/src/orchestrator.rs:198-304 | One that stops leaves the index alone when a source has no worker; otherwise it leaves of every unit the last answer of the batches before the first that does not go through, or what was there, without the tracked units that are no longer current |
| SelectedRun.BatchedRunConvergesExactly | crates/kide-core/src/orchestrator.rs:185-304 | A finished run over selected batches leaves every current source up to date and nothing else tracked exactly when, for each source asked about, what the worker last answered for its identity has that source's content and context and is not of dependency origin |
| SelectedRun.EchoingRunConvergesExactly | crates/kide-core/src/orchestrator.rs:185-304 | With a worker that names each unit as it was asked, and one source an identity, that is exactly when no source asked about is of dependency origin |
| ForeignWorker.AskedAgainEveryBatchedRun | crates/kide-core/src/orchestrator.rs:325-402 | There is a worker that always answers with other content: over one unchanged unit every batched run commits that answer and asks for the unit again |
| DependencyCatalog.DiscoverDependencyCatalog | crates/kide-core/src/orchestrator.rs:1004-1080 | The paging loop computes the catalogue, or the first error, of what the worker answers page by page |
| DependencyCatalog.DiscoveredExactly | crates/kide-core/src/orchestrator.rs:1004-1080 | Discovery succeeds exactly when the pages come to an end and every listed artifact names a known component in its resolved configuration; the catalogue is, in order of units, what was listed last for each unit |
| LaneOutcome.DiscoveryFails | crates/kide-core/src/orchestrator.rs:1004-1080 | A discovery that fails does so at the first answer that is not a page with more to come whose artifacts all belong: because there is none, because it is no page, or for its first artifact that names an unknown component or another configuration than the component's |
| DependencyLane.DependencyStore.ReplaceArtifactDescriptors | crates/kide-core/src/store.rs:821-857 | Replaces the whole catalogue with its locators in one transaction or leaves every table as it was |
| LaneHistory.InstallExactly | crates/kide-core/src/store.rs:821-857 | A catalogue is installed exactly when no artifact in it lists a locator twice; then the tables are that catalogue and its locators, and exactly the blob references into it are left |
| LaneOutcome.LocatorsExactly | crates/kide-core/src/store.rs:836-848 | The locators are exactly those that the catalogue's artifacts list, each under its artifact's unit |
| DependencyLane.IndexBatchWithDependencies | crates/kide-core/src/orchestrator.rs:784-994 | The whole run: sources first committed, then the catalogue if the recorded build model is another, then the manifest row, with every way to stop early (LaneOutcome.WholeRunEnds) |
| DependencyLane.IndexSelectedBatchesWithDependencies | crates/kide-core/src/orchestrator.rs:185-321 | The whole batched run, whose catalogue is also due whenever a source is, and which has no worker to ask when no batch was selected |
| LaneOutcome.WholeRunEnds | crates/kide-core/src/orchestrator.rs:784-994 | A run whose plan is of another build model touches nothing; one that stops in its sources leaves the dependencies as they were; otherwise its sources are done and the dependencies end as their lane closes |
| LaneOutcome.WholeBatchedRunEnds | crates/kide-core/src/orchestrator.rs:185-321 | The same over selected batches, where dependencies are due besides when any source is, and then need a worker to ask |
| LaneOutcome.ClosedExactly | crates/kide-core/src/orchestrator.rs:966-991 | The lane closes well exactly when what is due can be discovered and installed and the manifest is of this protocol; a failed discovery or a conflict changes nothing, a manifest of another protocol is refused once the catalogue is there, and closing well records the manifest of just that workspace |
| LaneOutcome.NeededExactly | crates/kide-core/src/store.rs:1022-1032 | Discovery is due exactly when the manifest recorded for the least workspace is of another build model, or none is recorded |
| LaneHistory.NoWorkerToAskExactly | crates/kide-core/src/orchestrator.rs:248-258 | A batched run over a selection of the current sources stops for want of a worker exactly when there are no sources and the build model is not the recorded one |
| LaneHistory.CatalogFollowsManifest | crates/kide-core/src/orchestrator.rs:804-991 | Over any series of runs of one workspace, failed ones included, none of which dies between its two commits: a run that skips discovery leaves a catalogue that was discovered for that very fingerprint |
| LaneHistory.ForgottenCatalog | crates/kide-core/src/store.rs:1022-1032 | Otherwise not: after a run over another workspace of the same store, or one that dies between its two commits, the first build model is taken as unchanged and the other one's catalogue stays |
| Selector.NormalizedPredicates | crates/kide-core/src/selector.rs:196-211 | The normalising loop replaces a language view by its bundle of canonical predicates and keeps the rest in order |
| Selector.LeastGiven | crates/kide-core/src/selector.rs:83-96 | The scan for the least supertype or annotation that the predicates name |
| Selector.Retain | crates/kide-core/src/selector.rs:123-127 | The in-place filtering keeps exactly the candidates that pass every predicate, in order |
| Selector.Select | crates/kide-core/src/selector.rs:81-142 | Selects the stored symbols in the starting relation that pass every predicate, refuses a selector that names no starting relation, and reports the result empty or complete exactly when it is |
| Selector.SelectExactly | crates/kide-core/src/selector.rs:81-142 | A bounded selection is the stored symbols in the starting relation, least supertype first and else least annotation, that pass every filter |
| SelectorMeaning.SelectionSays | crates/kide-core/src/selector.rs:81-229 | Predicate by predicate and view by view: a selection is refused exactly when the selector says no supertype and no annotation; otherwise it starts from the least supertype, or without any from the least annotation, and keeps exactly the stored symbols in that posting of every kind, language, component, backend, annotation and name prefix said; a view says its language and the kind class |
| SelectorMeaning.ConsistentExactly | crates/kide-core/src/selector.rs:213-229 | Some symbol passes all of a selector's filters exactly when no two of them exclude each other |
| SelectorMeaning.SelectMeansFilterExactly | crates/kide-core/src/selector.rs:81-142 | A bounded selector selects, over every index, exactly the stored symbols that satisfy all its predicates if and only if it names one supertype at most or two of its filters exclude each other |
| SelectorMeaning.TwoSupertypesNotConjoined | crates/kide-core/src/selector.rs:83-127 | For every other selector there is an index on which the selection keeps a symbol that has only the lesser supertype |
| Selector.UnboundedExactly | crates/kide-core/src/selector.rs:81-110 | A selector is refused exactly when it names neither a supertype nor an annotation |
| SemanticQuery.Compile | crates/kide-core/src/semantic_query.rs:144-197 | The compiling loop computes the selector and limit, or the first error, of a query program and its parameters (SemanticQuery.CompiledExactly tells which) |
| SemanticQuery.SymbolResolvesExactly | crates/kide-core/src/semantic_query.rs:219-250 | A literal denotes itself; a qualified name the one identity catalogued under it, or without any, when it contains a dot, the JVM type of that name; a parameter its id, or what its qualified name denotes; and every other term fails for its own reason |
| SemanticQuery.CompiledExactly | crates/kide-core/src/semantic_query.rs:144-197 | Compilation succeeds exactly with the plan that starts from what the program's symbol denotes, in the posting its clause names, and then filters by what its predicates demand, in their order; it fails first for a limit outside 1 to 1000, then for the starting symbol, then for the first predicate whose parameter is missing or of another type |
| SemanticQuery.CompilationPreservesMeaning | crates/kide-core/src/semantic_query.rs:144-197 | A compiled selector is bounded and selects exactly the stored symbols that answer the program, where its terms mean what they denote in the catalogue and the parameters |
| SemanticQuery.Execute | crates/kide-core/src/semantic_query.rs:199-217 | Fails exactly when the program does not compile; a result holds only answers, at most the limit, is complete exactly when there are answers, none of the list was cut off and all are fresh and complete, and is empty exactly when there is no answer |
| SemanticQuery.ExecuteHonest | crates/kide-core/src/semantic_query.rs:199-217 | A result is the list of answers cut at the limit; it is reported complete exactly when there are answers, none of the list was cut off and all of them are fresh and complete, and then it is every answer; it is empty exactly when there is none |
| Listings.FirstAnswers | crates/kide-core/src/semantic_query.rs:199-217 | A query over what applies a symbol returns its answers in order, and leaves out an answer only when the limit is reached and the answer comes after all that are returned |
| SemanticQuery.CompiledExecutes | crates/kide-core/src/semantic_query.rs:144-217 | A query that compiles never fails for want of a starting relation, and one that does not fails with the compiler's error |
| Framing.VarintParses | crates/kide-core/src/lib.rs:47-59 | A varint is read back as its number, and its prefix ends where it was written to end (Protocol Buffers Encoding, section 'Base 128 Varints') |
| Framing.AccumulateSnoc | crates/kide-core/src/lib.rs:61-76 | Shifting seven more bits into a 64-bit length gives the number read so far cut to 64 bits, also at the tenth byte |
| Framing.Encode | crates/kide-core/src/lib.rs:47-59 | The encoding loop writes the varint of the length and then the payload |
| Framing.Decode | crates/kide-core/src/lib.rs:61-81 | The whole-frame loop accepts what its specification accepts, error by error |
| Framing.ByteStream.ReadFrame | crates/kide-core/src/lib.rs:85-111 | The stream reader delivers the frame at its position and stops behind it, or reports a clean end, a truncation or an overlong prefix, or panics at a length that no allocation can hold |
| FramingOutcome.ReadExactly | crates/kide-core/src/lib.rs:85-111 | Byte by byte: a clean end exactly at the end of the stream; an invalid length exactly when ten bytes all go on; an early end inside the prefix or the payload; a panic for a length of 2 to the 63 or more; and otherwise just that many bytes behind the prefix |
| FramingOutcome.DecodeExactly | crates/kide-core/src/lib.rs:61-81 | The whole-frame decoder demands that exactly the announced bytes follow, and takes the end of the input for the end of an open prefix |
| Framing.ByteStream.ReadJvm | workers/kotlin-jvm/src/main/kotlin/dev/kide/worker/ProtobufFraming.kt:10-25 | The JVM reader does so with a signed 64-bit length cut to 32 bits |
| FramingOutcome.JvmReadExactly | workers/kotlin-jvm/src/main/kotlin/dev/kide/worker/ProtobufFraming.kt:10-25 | The JVM reader refuses a length from 2 to the 31 up to 2 to the 63, and of one beyond takes the low 32 bits unless they read as negative |
| Framing.WriteJvm | workers/kotlin-jvm/src/main/kotlin/dev/kide/worker/ProtobufFraming.kt:27-37 | The JVM writer writes the same frame as Core's encoder |
| Framing.FrameReads | crates/kide-core/src/lib.rs:85-111 | An encoded frame at the head of any stream is read back, and nothing behind it is touched; one with a payload of 2 to the 63 bytes or more panics |
| Framing.ReadAll | crates/kide-core/src/lib.rs:85-111 | Reading until the stream ends computes the delivered payloads |
| Framing.FramesRoundTrip | crates/kide-core/src/lib.rs:47-111 | The concatenation of any list of encoded frames is read as that list and then a clean end exactly when every payload can be allocated |
| Framing.FrameDecodes | crates/kide-core/src/lib.rs:47-81 | The whole-frame decoder inverts the encoder |
| Framing.DecodersDiffer | crates/kide-core/src/lib.rs:61-111 | The whole-frame decoder accepts exactly what the stream reader delivers as the whole stream, and besides it the empty input, fewer than ten bare 0x80 bytes, and frames longer than any memory |
| Framing.DecodersAgree | crates/kide-core/src/lib.rs:61-111 | On every frame whose prefix terminates the two accept alike, as far as it can be allocated, and refuse overlong prefixes alike |
| Framing.PeersReadAlikeExactly | workers/kotlin-jvm/src/main/kotlin/dev/kide/worker/ProtobufFraming.kt:10-25 | Core and the JVM worker find the same at the head of a stream exactly when it has no complete prefix or announces less than 2 to the 31 |
| Framing.HugeAnnouncementPanics | crates/kide-core/src/lib.rs:103-110 | Ten bytes that announce 2 to the 63 and five more: Core panics where the JVM worker waits for five bytes |
| Framing.JvmFrameReads | workers/kotlin-jvm/src/main/kotlin/dev/kide/worker/ProtobufFraming.kt:10-37 | The JVM reader inverts both writers for payloads below 2 to the 31 |
| WorkerProto.SymbolExactly | crates/kide-core/src/worker_proto_adapter.rs:658-779 | A declaration survives its message exactly when its backend is its provenance's, its language is plain and its ranges lie in its snapshot's unit |
| WorkerProto.ApplicationExactly | crates/kide-core/src/worker_proto_adapter.rs:1020-1109 | An annotation application survives its message exactly when its range lies in the unit and no argument is an empty string list |
| WorkerProto.OccurrenceExactly | crates/kide-core/src/worker_proto_adapter.rs:802-858 | An occurrence survives its message exactly when it lies in the unit and is not a type reference |
| WorkerProto.TypeExactly | crates/kide-core/src/worker_proto_adapter.rs:942-975 | A type survives its message exactly when its language is plain and its backend, if any, is its provenance's |
| WorkerProto.DiagnosticExactly | crates/kide-core/src/worker_proto_adapter.rs:889-940 | A diagnostic survives its message exactly when it belongs to the snapshot's unit |
| SnapshotTransport.InternAllResolves | crates/kide-core/src/worker_proto_adapter.rs:1121-1127 | Interning provenances only appends to the table, never repeats an entry, and hands out indexes that name the right provenance |
| SnapshotTransport.ProvenanceIndex | crates/kide-core/src/worker_proto_adapter.rs:1121-1127 | The find-or-push keeps the table's entries, adds the provenance only when it is missing and repeats none; while the table's places fit 32 bits the index names the provenance |
| SnapshotTransport.AssignedResolves | crates/kide-core/src/worker_proto_adapter.rs:1129-1187 | In the finished table, first entry the snapshot's own, every index handed out to any kind of record still names that record's provenance |
| SnapshotTransport.WriteSnapshot | crates/kide-core/src/worker_proto_adapter.rs:1129-1210 | The imperative encoding, one table threaded through six kinds of record, computes the written message |
| SnapshotTransport.EdgesExactly | crates/kide-core/src/worker_proto_adapter.rs:1154-1171 | Edges written by the place of their source occurrence come back as they were exactly when each source is present; a missing one stops the writing |
| SnapshotTransport.TransportExactly | crates/kide-core/src/worker_proto_adapter.rs:1129-1328 | A snapshot can be written exactly when every relation's source is one of its occurrences, and then, when its places fit the messages' 32 bits, decodes to itself exactly when each of its records is one the messages can carry |
| GraphCodec.OrdinalsRestore | crates/kide-core/src/artifact_proto_adapter.rs:33-40 | Looking up an id's ordinal, where the last declaration of an id wins, gives the id back |
| GraphCodec.IdsReturn | crates/kide-core/src/artifact_proto_adapter.rs:372-397 | An id replaced by an ordinal, or kept inline, comes back, optional or not |
| GraphCodec.GraphUndone | crates/kide-core/src/artifact_proto_adapter.rs:202-308 | Ordinals and inherited provenance undo exactly for every record of a snapshot; only applications have no place in the artifact |
| StoredShape.RecordsStored | crates/kide-core/src/artifact_proto_adapter.rs:202-308 | A declaration's owner and an occurrence's ends are stored as the ordinal of their last declaration and nothing else when the artifact declares them, and as they are otherwise; a provenance is stored only where it is not the snapshot's |
| StoredShape.EdgesStored | crates/kide-core/src/artifact_proto_adapter.rs:202-308 | So are the ends of references, calls and hierarchy edges |
| GraphCodec.WriterKeepsIds | crates/kide-core/src/artifact_proto_adapter.rs:33-45 | The artifact declares the same ids in the same order as the snapshots |
| GraphCodec.GraphRoundTripExactly | crates/kide-core/src/artifact_proto_adapter.rs:33-90 | A list of snapshots encodes exactly when all relations are anchored, and, while their places fit 32 bits, decodes to itself exactly when every snapshot is one the messages carry and has no applications, whatever ids the snapshots share |
| GraphCodec.SealedRoundTripExactly | crates/kide-core/src/artifact_proto_adapter.rs:33-74 | The same through the sealed envelope with its version, length and digest |
| GraphCodec.OnlyTheEncoded | crates/kide-core/src/artifact_proto_adapter.rs:33-90 | Whatever bytes carry the digest of encoded snapshots are refused or decode to those snapshots, as far as these survive encoding at all |
| GraphCodec.TamperingRefused | crates/kide-core/src/artifact_proto_adapter.rs:57-74 | No part of a sealed artifact can be altered alone: another version, length or digest is refused with the error of its kind, and another artifact by its length or else by its digest |
| SymbolDetail.TableFromSymbols | crates/kide-core/src/artifact_blob_layout.rs:583-618 | The counting loops compute the string table |
| SymbolDetail.TableExactly | crates/kide-core/src/artifact_blob_layout.rs:583-618 | The table holds, ascending and once each, exactly the strings that occur at least three times in the block and take at least eight bytes of UTF-8 |
| SymbolDetail.InterningUndone | crates/kide-core/src/artifact_blob_layout.rs:620-647 | Interned strings, optional strings and lists (all of a list or none) are resolved to what they were |
| SymbolDetail.DetailReturns | crates/kide-core/src/artifact_blob_layout.rs:530-575 | A detail gives back the stored declaration whatever was interned or left to the block's defaults |
| StoredShape.DetailStrings | crates/kide-core/src/artifact_blob_layout.rs:530-575 | A detail stores every string of the block's table as its place there and nothing else, every other string as it is, and a list as places exactly when all its strings are in the table |
| StoredShape.CommonProvenanceExactly | crates/kide-core/src/artifact_blob_layout.rs:518-528 | A block's default provenance is the one that all its declarations name, and none when two of them differ |
| StoredShape.BlockDefaults | crates/kide-core/src/artifact_blob_layout.rs:487-528 | A block's details leave out exactly the language, freshness, completeness, component and provenance that are the block's default, which is what all its declarations have |
| StoredShape.BlocksFull | crates/kide-core/src/artifact_blob_layout.rs:280-311 | All blocks of a snapshot but the last hold 256 declarations |
| SymbolDetail.ProvenanceReturns | crates/kide-core/src/artifact_proto_adapter.rs:110-117 | A detail decodes with its symbol's own provenance index, or 0 |
| SymbolDetail.OneSymbolReads | crates/kide-core/src/artifact_proto_adapter.rs:183-199 | The one-symbol snapshot built around a detail decodes to that symbol or fails as it does |
| SymbolDetail.SymbolOfSnapshot | crates/kide-core/src/artifact_proto_adapter.rs:252-275 | A decoded snapshot's k-th symbol is its k-th graph symbol decoded under the provenance its index names |
| SymbolDetail.DetailGives | crates/kide-core/src/artifact_proto_adapter.rs:95-200 | A block entry always decodes to the symbol that decoding its snapshot gives, but with the owner named inline and, where the declaration names no provenance, the first of the table |
| SymbolDetail.DetailExactly | crates/kide-core/src/artifact_proto_adapter.rs:95-200 | A block entry decodes to the very symbol that decoding its snapshot gives, exactly when the symbol names its owner inline and its provenance is the one the block falls back on |
| DetailBlocks.BuildBlocks | crates/kide-core/src/artifact_blob_layout.rs:280-311 | The nested loops over snapshots and chunks, with their running ordinal, compute the blocks |
| DetailBlocks.BlocksTile | crates/kide-core/src/artifact_blob_layout.rs:280-311 | The blocks of an artifact lie end to end over its ordinals from 0, none empty and none over 256 |
| DetailBlocks.FoundBlock | crates/kide-core/src/artifact_blob_layout.rs:131-170 | The block found for an ordinal holds, at the ordinal's place, the detail of that very declaration, made with the defaults of the snapshot that declares it |
| DetailBlocks.FindMonotone | crates/kide-core/src/artifact_blob_layout.rs:149-170 | Later ordinals never lie in earlier blocks, and a block's first ordinal identifies it |
| BlobLayout.LengthsMonotone | crates/kide-core/src/artifact_blob_layout.rs:316-343 | Raising the sections' start never shortens the encoded table |
| BlobLayout.PushedBound | crates/kide-core/src/artifact_blob_layout.rs:316-343 | The encoded table is bounded whatever its offsets, by the width of varints |
| BlobLayout.SolveToc | crates/kide-core/src/artifact_blob_layout.rs:316-343 | The loop terminates with a table whose offsets start exactly where its own encoded length puts the sections, at the least such place |
| BlobLayout.Encode | crates/kide-core/src/artifact_blob_layout.rs:312-355 | The blob is the header, that table and the section bytes end to end |
| BlobLayout.EncodingPlaces | crates/kide-core/src/artifact_blob_layout.rs:316-355 | The table's lines name consecutive stretches of the blob that hold exactly the stored bytes, their digests and their ordinal ranges |
| BlobLayout.EncodingValidates | crates/kide-core/src/artifact_blob_layout.rs:357-371 | The encoder's output is accepted and its table read back |
| LayoutBytes.HeaderBytes | crates/kide-core/src/artifact_blob_layout.rs:348-353 | The header is the magic KIDEJVM1, the version 1, the header size 28 and the table's length, little-endian |
| LayoutBytes.TocSize | crates/kide-core/src/artifact_blob_layout.rs:316-343 | The length that the solver computes for a table is that of its message, field by field as Protocol Buffers encode it |
| LayoutBytes.AcceptedExactly | crates/kide-core/src/artifact_blob_layout.rs:357-371 | A blob is accepted with a table exactly when its header is good, its table lies inside it and decodes to that table of version 1, and every line names a stretch behind the table and inside the blob and a digest of 32 bytes |
| BlobLayout.AcceptedIsSound | crates/kide-core/src/artifact_blob_layout.rs:690-718 | Whatever the bytes, every line of an accepted blob lies past the table and inside the blob |
| BlobLayout.SectionServed | crates/kide-core/src/artifact_blob_layout.rs:373-388 | Asking for a section, by kind or by ordinal, gives exactly the content stored for the first section so described, and a missing section exactly when none was stored |
| LayoutBytes.LocateFirst | crates/kide-core/src/artifact_blob_layout.rs:373-388 | A lookup finds the first line that is wanted |
| LayoutBytes.ServedExactly | crates/kide-core/src/artifact_blob_layout.rs:373-388 | A section is served exactly when its stretch of the blob has the digest that its line names, and refused for its checksum exactly when not |
| LayoutBytes.AlteredRefused | crates/kide-core/src/artifact_blob_layout.rs:373-388 | Under a written table, other bytes in place of a section are refused unless they have the digest of what was stored |
| ArtifactQuery.SymbolsWithQualifiedName | crates/kide-core/src/artifact_query.rs:27-57 | The directory loop reads one block an entry and computes the answer, stopping at the first error |
| ArtifactQuery.DirectImplementations | crates/kide-core/src/artifact_query.rs:62-133 | Both paths of the query, the fallback taken exactly when the hierarchy section is missing |
| QueryFailures.ImplementationsFail | crates/kide-core/src/artifact_query.rs:62-133 | Only a missing postings section sends the query to the graph, whose errors are then its own, and any other error of the postings is final; without a posting for the type nothing else is read; with one, the dictionary's error comes first and then that of the first declaration without a block |
| ArtifactAnswers.OrdinalDecodes | crates/kide-core/src/artifact_query.rs:40-53 | Through its block, every ordinal decodes to what its detail gives of the symbol that decoding the whole graph puts in that place |
| ArtifactAnswers.DetachedExactly | crates/kide-core/src/artifact_query.rs:40-53 | These are the decoded symbols themselves exactly when every declaration names its owner inline and its provenance is the one the block falls back on |
| ArtifactAnswers.QualifiedNameExactly | crates/kide-core/src/artifact_query.rs:27-57 | The sorted directory answers an exact name with what the details give of all decoded symbols of that name, in declaration order, and of no others |
| QueryFailures.NameFails | crates/kide-core/src/artifact_query.rs:27-57 | A query by name fails with the directory's error, or else with that of the first entry of the name that cannot be read, and only then; entries of other names are never read |
| ArtifactImplementations.GroupedFlat | crates/kide-core/src/artifact_query.rs:91-97 | Grouping rising ordinals by block loses none and keeps their order |
| ArtifactImplementations.GroupsDecode | crates/kide-core/src/artifact_query.rs:98-108 | Reading each block once gives the symbols of all grouped ordinals in order |
| ArtifactImplementations.IndexedExactly | crates/kide-core/src/artifact_query.rs:73-109 | The indexed path answers with what the details give of the decoded symbols whose ids the postings name as subtypes, in declaration order |
| ArtifactImplementations.PostingsAreEdges | crates/kide-core/src/artifact_blob_layout.rs:210-221 | With inline edge ends the postings name the very subtypes that the decoded edges declare |
| ArtifactImplementations.FallbackMember | crates/kide-core/src/artifact_query.rs:116-133 | The fallback answers with exactly the symbols whose id some decoded edge declares a subtype, the last one where an id is shared |
| ArtifactImplementations.PathsAgreeExactly | crates/kide-core/src/artifact_query.rs:62-133 | The indexed path and the decoded graph answer with the same set of symbols exactly when what the details give of the symbols that the postings name is what decoded edges declare |
| ArtifactImplementations.UniqueAgreeExactly | crates/kide-core/src/artifact_query.rs:62-133 | With unique ids that is exactly when the postings name, of the decoded symbols, those that decoded edges declare subtypes, and each of these has a detail that gives all of it |
| ArtifactImplementations.InlineEndsAgree | crates/kide-core/src/artifact_blob_layout.rs:210-221 | Inline edge ends and unique ids are enough for that, for every type |
| ArtifactImplementations.WrittenPathsAgreeExactly | crates/kide-core/src/artifact_blob_layout.rs:210-221 | For a graph written from canonical snapshots, whose declared ends are ordinals only, and a type it declares, the two paths agree exactly when the decoded graph has no subtype of it at all |
| ArtifactImplementations.PathsDiffer | crates/kide-core/src/artifact_query.rs:62-133 | There is an artifact of two declarations and one edge, written by the graph writer, on which the indexed path answers nothing and the decoded graph answers the subtype |
| ArtifactBlob.WriteBlob | crates/kide-core/src/artifact_blob_layout.rs:180-355 | An artifact's blob stores its five projections and its detail blocks (Projections tells what each holds) |
| Projections.SectionsFollow | crates/kide-core/src/artifact_blob_layout.rs:232-312 | The sections are the dictionary, the symbol postings, the hierarchy postings, the directory, the compressed graph and then one for each detail block, which covers the block's ordinals; only the graph is compressed |
| Projections.SymbolPostingsHold | crates/kide-core/src/artifact_blob_layout.rs:192-209 | There is one symbol posting for each declaration; the one at place i has ordinal i and names the snapshot that declares the symbol of that ordinal, at the place that counts the symbols before it |
| Projections.DictionaryHolds | crates/kide-core/src/artifact_blob_layout.rs:181-191 | The dictionary has each declaration's id and name at its ordinal |
| Projections.HierarchyPostingsHold | crates/kide-core/src/artifact_blob_layout.rs:210-221 | The hierarchy postings are the edges of all snapshots in their order |
| Projections.DirectoryHolds | crates/kide-core/src/artifact_blob_layout.rs:222-247 | The directory lists exactly the declarations that have a qualified name, by name and then by ordinal |
| ArtifactBlob.OpenServes | crates/kide-core/src/artifact_blob_layout.rs:52-170 | Opening a written blob serves every projection of the artifact, the symbol postings among them, and the detail block of every ordinal |
| ArtifactBlob.BlobAnswers | crates/kide-core/src/artifact_query.rs:62-133 | End to end over a written blob, the indexed query for direct implementations returns the same set of symbols as decoding the graph out of the same blob exactly on that condition; inline ends and unique ids make postings and edges agree |
| BlobCache.CompleteValidates | crates/kide-core/src/artifact_cache.rs:343-354 | One writer's complete file passes header and size checks with its payload's length |
| BlobCache.LinkKeeps | crates/kide-core/src/artifact_cache.rs:232-247 | Linking a finished file into an absent name keeps the cache good; a taken name is never overwritten |
| BlobCache.NextKeeps | crates/kide-core/src/artifact_cache.rs:188-353 | Every step of a publisher, a reader, a removal, a dying process or a power loss keeps the cache good |
| BlobPublishing.CourseEnds | crates/kide-core/src/artifact_cache.rs:196-249 | Among any steps of others, a publisher whose process lives and that has no I/O error returns once it has taken its steps, writing in pieces of any size: it is told that the key had been published exactly when it met a taken name, and otherwise that it published exactly when its stream holds the declared length |
| BlobPublishing.UndisturbedPublishes | crates/kide-core/src/artifact_cache.rs:199-249 | From every state a run can reach, a publisher that finds its names free and is not interrupted publishes exactly when its stream holds the declared length; then the blob is there with its header and just that payload and the temporary file is gone, and otherwise there is no blob and the temporary file stays |
| BlobPublishing.RemovedThenPublished | crates/kide-core/src/artifact_cache.rs:185-249 | A key whose file was removed as invalid can be published again: the next publisher with a whole stream wins, and the blob holds its payload |
| BlobPublishing.LossKeepsBlobs | crates/kide-core/src/artifact_cache.rs:199-249 | A power loss keeps a published blob exactly when it keeps the name, and then with all its content, and ends every process |
| BlobPublishing.UndisturbedReads | crates/kide-core/src/artifact_cache.rs:110-176 | From every state a run can reach, an uninterrupted reader finds the blob exactly when it is there, with its payload's length, and reads any stretch of the payload |
| BlobPublishing.HeaderLaysOut | crates/kide-core/src/artifact_cache.rs:328-354 | A cached file starts with the magic KIDEBLB1, the version 1, the 32 bytes of its key and its payload's length, little-endian |
| BlobCache.RunKeeps | crates/kide-core/src/artifact_cache.rs:153-353 | Every interleaving of such steps keeps the cache good |
| BlobCache.VisibleIsComplete | crates/kide-core/src/artifact_cache.rs:209-249 | Whatever was interleaved and whoever died, a file visible at a key's path is one writer's complete header and payload and passes validation |
| BlobCache.OneWinnerPerPeriod | crates/kide-core/src/artifact_cache.rs:209-249 | Between two removals of a key's blob at most one publisher is told that it published |
| BlobCache.ReadersSeePayload | crates/kide-core/src/artifact_cache.rs:110-176 | No reader ever refuses a blob, and one that opened it reads, at any later moment, exactly a stretch of one writer's payload |
| BlobCache.BlobNeverChanges | crates/kide-core/src/artifact_cache.rs:188-249 | Over any further run that does not end its period, a visible blob stays visible with the same bytes |
| BlobCache.PeriodLasts | crates/kide-core/src/artifact_cache.rs:188-197 | Only a removal of the key, or a power loss that takes its name, ends a period |
| BlobOutcome.OutcomeExactly | crates/kide-core/src/artifact_cache.rs:196-249 | In every run a publisher that returns was told that it published exactly when it linked its file into a free name, and that it did not exactly when it met the key's blob, or a temporary file of its key and process id |
| BlobOutcome.VisibleExactly | crates/kide-core/src/artifact_cache.rs:209-249 | In every run a key's blob can be seen at some moment exactly when some publisher has linked its file under the key |
| BlobOutcome.ToldTheTruthExactly | crates/kide-core/src/artifact_cache.rs:196-249 | A publisher told that its key had been published met the blob, which could be seen, or its temporary name; the key was never visible at all exactly when it met the temporary name and nobody had linked that key |
| BlobOutcome.LeftBehindExactly | crates/kide-core/src/artifact_cache.rs:213-249 | A publisher that stops working leaves its temporary file behind exactly when the step that stopped it is neither its last one, nor a failed link that tidied up, nor a power loss that took the name |
| BlobOutcome.LeftBehindBlocks | crates/kide-core/src/artifact_cache.rs:221-229 | A file left behind stays, whatever runs, until power loss, and no publisher of its key and process id publishes while it is there |
| BlobOutcome.LostToNobody | crates/kide-core/src/artifact_cache.rs:196-229 | So a publisher can be told that its key has been published when it never was |
| Supervisor.WorkerSupervisor.constructor | crates/kide-core/src/supervisor.rs:94-101 | A new supervisor runs no process |
| Supervisor.WorkerSupervisor.Stop | crates/kide-core/src/supervisor.rs:238-244 | Stopping ends the current process, if any |
| Supervisor.WorkerSupervisor.ReapIdle | crates/kide-core/src/supervisor.rs:225-236 | A process is stopped exactly when it has been idle for the idle timeout |
| SupervisorOutcome.ReapedExactly | crates/kide-core/src/supervisor.rs:225-236 | Reaping stops the process exactly when it has been idle for the timeout |
| Supervisor.WorkerSupervisor.DiscardExited | crates/kide-core/src/supervisor.rs:306-314 | A process found dead is forgotten |
| Supervisor.WorkerSupervisor.IsRunning | crates/kide-core/src/supervisor.rs:107-110 | Tells whether a process runs after forgetting a dead one |
| Supervisor.WorkerSupervisor.EnsureRunning | crates/kide-core/src/supervisor.rs:246-304 | Starts a process with no ids used yet unless one is alive |
| Supervisor.WorkerSupervisor.RequestWithTimeout | crates/kide-core/src/supervisor.rs:152-223 | One request, with all its ways to fail, leaves the state, result and use of processes of the specification |
| SupervisorOutcome.ToldExactly | crates/kide-core/src/supervisor.rs:152-223 | A request is answered exactly when it reaches a process, alive or startable, that has not had its id, and the reply is an envelope of this protocol and this request that reports no failure; every error tells what failed first, and the timeout waited is the lesser of the two |
| SupervisorOutcome.RequestLeaves | crates/kide-core/src/supervisor.rs:152-304 | A request starts a process exactly when none is alive, uses up its id there, and restarts the clock of idleness at its answer, or else at its sending |
| SupervisorOutcome.StoppedExactly | crates/kide-core/src/supervisor.rs:152-223 | A request leaves no process running exactly when there was none and none could be started, or when its reply was silence, an end, a broken frame or an envelope of another protocol or request |
| Supervisor.WorkerSupervisor.Handshake | crates/kide-core/src/supervisor.rs:112-138 | A handshake answered with another protocol version stops the process |
| SupervisorOutcome.GreetedExactly | crates/kide-core/src/supervisor.rs:112-138 | A handshake succeeds exactly when it is answered by a handshake of this protocol; a worker of another protocol is stopped |
| Supervisor.RequestKeeps | crates/kide-core/src/supervisor.rs:152-223 | A request, however it ends, keeps the record of process use safe |
| Supervisor.EveryRunSafe | crates/kide-core/src/supervisor.rs:94-315 | Over every run of requests, handshakes, timeouts, exits and reaping: a process that was silent, answered with a wrong id, was stopped or died is never used again; no id is written twice to one process; only the newest process is used; an accepted answer directly follows its own request on the same process |
| Supervisor.AnswerInRun | crates/kide-core/src/supervisor.rs:94-223 | In every run from the start, a returned envelope has the id of its request and answers the very request just written, whose id had never been written to that process; the process was never silent, mismatched, stopped or gone |
| Supervisor.DistrustedNeverAgain | crates/kide-core/src/supervisor.rs:94-223 | In every run from the start, a request that ends in silence, an exit, a broken frame, a wrong id or a wrong protocol stops its process there and then, and nothing that any later call does has to do with it or any earlier process |
| Supervisor.ForgivenRunsOn | crates/kide-core/src/supervisor.rs:152-223 | After a request that fails otherwise (an envelope that makes no sense, a failed write, an error the worker reports, a repeated id) the process runs on with the id used up: the next request goes to it unless it is idle or gone, is refused without any change under that id, and is written under an id never used there |
| TextPositions.ByteOffset | crates/kide-core/src/query_resolver.rs:113-141 | The loop over lines computes the offset of a position, or refuses it |
| TextPositions.BoundaryRoundTrip | crates/kide-core/src/query_resolver.rs:113-141 | Every character boundary comes back from its position, except the end of a text that is empty or ends in a newline, which is refused |
| TextPositions.PositionRoundTrip | crates/kide-core/src/text_index.rs:123-134 | Every accepted position is the position of the offset returned for it (UTF-8 sizes as in section 3 of RFC 3629) |
| TextPositions.OffsetRoundTripExactly | crates/kide-core/src/text_index.rs:123-134 | A byte offset round-trips exactly when it is a character boundary and not the end of a text that is empty or ends in a newline |
| TextPositions.RefusedExactly | crates/kide-core/src/query_resolver.rs:113-141 | A position is an invalid coordinate exactly when its line or column is zero, and otherwise out of range exactly when no character boundary of the text has it, but for the end of a text that is empty or ends in a newline |
| DeclarationChoice.ResolveDeclarationCandidates | crates/kide-core/src/query_resolver.rs:79-109 | The answer is nothing exactly without candidates, and else the ids, each once and ascending, of the narrowest candidates, constructors only where all the narrowest are; it is ambiguous exactly when two ids remain |
| TextIndex.LexicalTerms | crates/kide-core/src/text_index.rs:144-158 | The scanning loop computes the terms with their byte ranges |
| TextIndex.TermsExactly | crates/kide-core/src/text_index.rs:144-158 | The terms are exactly the maximal runs of word characters at their byte ranges |
| TextIndex.TermsApart | crates/kide-core/src/text_index.rs:144-158 | Terms come in order, are not empty and never touch |
| TextStore.TextStore.constructor | crates/kide-core/src/store.rs:171-185 | New tables reflect no documents |
| TextStore.TextStore.SyncTextDocuments | crates/kide-core/src/store.rs:1109-1141 | After a sync the tables are what indexing exactly the given documents from scratch gives, also when a path is given twice: its last document counts |
| TextStore.KeepOnlyReflects | crates/kide-core/src/store.rs:1113-1125 | Dropping unlisted documents drops exactly their terms |
| TextStore.ReplacedReflects | crates/kide-core/src/store.rs:1128-1137 | Replacing one changed document leaves its new terms and every other path's terms as they were |
| TextStore.SameContent | crates/kide-core/src/store.rs:1127-1128 | An equal digest means the very same content, so skipping the document is right |
| TextStore.LatestRebuilds | crates/kide-core/src/store.rs:1109-1141 | What was stored before a sync does not matter to what is stored after it |
| TextStore.MatchesExactly | crates/kide-core/src/store.rs:1145-1180 | A term lookup answers with exactly the maximal word runs of that text in the current documents, at their byte ranges |
| TextStore.MatchHasPosition | crates/kide-core/src/store.rs:1178-1181 | A match's start always has a line and column |
| TextStore.TermKeysDistinct | crates/kide-core/src/store.rs:177-183 | No two terms of a document clash in the term table's primary key |

## Left out

- Discovery of files, configuration, manifests and build systems, the command line, tracing and JSON output: input and output only.
- Schema migrations, SQLite's own file format and durability, and the order in which it lists rows that tie under ORDER BY.
- Record blobs' JSON and bincode encodings: rows hold the records themselves.
- What installs an artifact's symbols from the catalogue, the bindings of artifacts to blobs besides their pruning, and checkpoints of a workspace.
- Materialisation and promotion of staged artifacts, and how a cache key is derived from a dependency's identity: a key is the digest its file is named after.
- Counters, timings and metrics of a run, including `removed`, which counts a dependent again for every unit that invalidates it.
- The status command's fast path, which counts every discovered source as fresh.
- API invalidation on the batched path: the code does not do it, so a batched run may leave dependents of a changed API as they are.
- Substring search over symbol names.
- 32-bit truncation of counts in postings, detail ordinals and text positions; it is modelled for the messages' provenance and occurrence indexes, the graph's ordinal table and the detail string index.
- The distinction between 32-bit and 64-bit `usize`: it is taken as 64 bits.
- Timestamps other than a worker's last activity, and the supervisor's threads: a reply is whatever the asked process's channel holds, a stale one included. That no reply reaches a later process's channel is taken as given: the program makes a channel and a reader for each process.
- The partial bytes of a failed write to a worker: the id counts as written.
- Blob cache directories themselves, and files put there by other programs; after a power loss removed names do not come back.
- Reading a blob section by section from its file: the section reader and the in-memory layout are one function here, since both take the same stretch of the same bytes.
- Which of several symbols with one name a cursor's occurrence resolves to: only the choice among declarations is modelled.
- Arithmetic on name ranges whose end lies before their start, which underflows in the program.
- A worker that always announces one more page: the pages of a discovery are a finite list, at whose end the worker is gone.
- SnapshotTransport.TransportExactly: says of a snapshot with more than 2^32 occurrences or provenances only whether it can be written, because indexes are cut to 32 bits.
- GraphCodec.GraphRoundTripExactly: takes artifacts of at most 2^32 declarations whose snapshots fit the messages, because ordinals and indexes are cut to 32 bits.
- Allocations that the address space would hold and the machine does not: a frame that announces up to 2^63 - 1 bytes is read or truncated here, and may abort the program.
- Discovery of dependencies overlaps the sources of a run in the program and follows them here; it reads and writes no table.
- SelectedRun.EchoingRunConvergesExactly: takes sources of distinct identities, because of two that share one either may be answered last; SelectedRun.BatchedRunConvergesExactly covers them.
