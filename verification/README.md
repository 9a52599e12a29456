# Ember's Diaries: what its store, graph, lobby and lifecycles keep

Ember's Diaries is an append-only record store for agents. A Rust core writes records behind a write-ahead log, a Python
layer versions them, indexes them, lets sessions share a lobby, and turns proposals and contradictions into records with a
lifecycle. This project models those parts in Dafny and proves what every run of them keeps.

Each module is one component:

- `Wal` and `Store`: the log, its one-pass scan and its compaction, and the record store over it as a system of durable
  steps with a crash allowed between any two of them, torn appends included. The class `StoreDirectory` is the code; the
  step system is the same code cut at its durable points (`WriteRunIsTransaction` and `RecoveryRunIsRecover` join them).
- `Versions`, `Lock` and `Writers`: versions, supersession sidecars and compare-and-set; the store lock with its interleaved
  threads and processes; and the two together, threads that run the steps of writes and updates between the steps of the
  lock. SHA-256 is a free constructor, so equal hashes mean equal payloads.
- `MasterIndex` and `Namespace`: the branching view of versions as a forest, and namespace reads through the index against a
  scan of every record.
- `Walks` and `Graph`: walks and distance in a graph, and the causal graph's worklist searches over them.
- `FullText`, `Episodic`: the BM25 index against scoring documents directly, and the segmentation of a record stream.
- `Lobby`, `Boards`, `Broker`: boards, posts and corroborations, what each operation does to a board field by field, and the
  bounded event queues behind them.
- `Conflict`, `Promotion`, `Gates`: the conflict lifecycle; proposals with the promotion routes, down to a lobby post, where
  each write of a promotion can be refused by the storage limits; and which proposals each mode lets through, with what a
  promotion leaves.
- `Codec`: canonical form, record file and log as transformations of value trees.

State that the source updates in place is a class whose methods are proved against functions of the old state; the runs and
the main results are lemmas about those functions. Ids, clocks and random choices come in as parameters. Floats are reals
where rounding is not the point, and 64-bit patterns in `Codec`. `log` is a parameter.

Some promises hold only under a condition. Each is proved with that condition in both directions, most with an input that
breaks it:

- A recovery that is interrupted and run again ends like an uninterrupted one exactly when the log does not end in a whole
  PENDING line that lost only its newline while older work is still pending. The next append then joins two lines into one
  that does not parse (`InterruptedRecoveryIsRecovery`, `UnsafeTailIsLost`, `UnsafeTailIsReachable`). For the same reason a
  logged write survives a crash exactly when the log ended in a newline before it (`LoggedWriteSurvives`).
- An uninterrupted recovery leaves nothing pending exactly when the log ended in a newline, or nothing was pending, or only
  the unterminated line was; otherwise its first COMMITTED line is lost with that line (`RecoverySettlesIff`,
  `RecoveryLeaves`), and a second recovery clears the rest (`SecondRecoverySettles`).
- A checkpoint that is cut short loses nothing exactly when every line it did not write again is of a record that is present
  or that a written line asks for (`TornCheckpointIff`, `TornCheckpointLoses`).
- A record replayed from the log keeps its canonical form exactly when it holds no bytes and its floats survive being parsed
  twice. `serde_json` is built without its `float_roundtrip` feature, so parsing a float is a parameter here
  (`ReplayKeepsCanonicalIff`).
- An update keeps lineages linear exactly when it extends a head and its sidecar is published (`UpdateKeepsLinearIff`).
- Compare-and-set keeps lineages linear in all interleavings exactly when the native lock is there (`AlwaysLinearIff`).
  Without it the file lock never waits: two processes get in (`FallbackLetsProcessesIn`) and fork a record
  (`FallbackForks`), and what is promised holds of the threads of one process.
- The backends of compare-and-set decide alike except on a head file that does not decode and on a damaged head that lost
  its race (`BackendsDecideAlikeIff`).
- The version graph of the index stays a forest exactly when a link goes from a lower version and gives its child no second
  parent (`LinkKeepsForestIff`); the links of every reachable store do (`ReachableIndexIsForest`).
- A proposal is decided at most once exactly when no promotion or rejection of it goes through while its decided copy is
  deprecated (`DecidedOnceIff`). `get_proposal` then falls back to the first copy, which is pending, so a rejected proposal
  can be promoted (`RejectedIsPromoted`) and a promoted one promoted again (`PromotedTwice`).
- A proposal is promoted exactly when one memory was written for it, if and only if no promotion of it ended between its
  memory and its new state, by a refused write or a crash, and nothing was written for it while its promoted copy was
  deprecated (`MatchedIff`). With a limit between the size of the memory and that of the promoted copy, each retry leaves one
  more memory and the proposal pending (`RetriesLeaveMemories`).
- A report of a failure is two writes, the failure and a copy of its session that lists it. Closing a board reports
  every failure exactly when all of these fit the storage limits and every author's session is active with a current
  copy (`FlushesAllIff`, `RoomForReportsIsNotEnough`, `EndedSessionLosesReports`); the board is closed first, so the
  others are lost (`ClosesOnce`). Promoting a failure whose session cannot log it stores the failure and leaves its post
  unmarked (`UnmarkedIff`, `EndedSessionStoresTwice`).
- At most one conflict of a pair is live throughout a run exactly when no mapping misses a live one that the index of its
  handle does not list (`OneLiveIff`). One handle that sees everything never does (`OneHandleIsNeverBlind`); two that do not
  see each other map a pair twice (`TwoHandlesMapTwice`).
- Indexing an id again agrees with its new text exactly when no old token is missing from it (`AddAgreesIff`), and removing a
  document leaves the stored average length right exactly when it was not indexed or was of mean length
  (`RemoveKeepsAverageIff`).
- A segmented stream has an empty episode exactly when a boundary falls right after a close for size (`EmptyEpisodeIff`).
- Opening a lobby board keeps sessions and boards linked exactly when the session has a name or is the first without one,
  or a guard refuses it, or the board on offer is full or its own (`OpenKeepsInvIff`).
- Indexed and scanned namespace reads agree exactly when the index lists every record (`AgreementIff`); with a limit the
  index cuts before it filters (`LimitedIff`).

Where the code and its comments differ, the code is followed. The documentation of `segment` asks for records in time
order, the code sorts them. `get_namespace` treats a limit of zero as none on the scanning path and as an empty result
on the indexed one. A consensus proposal cannot gather evidence after it is made, though a comment in the promotion
engine says so. The documentation of `reject` says that a rejected proposal never becomes a memory, and that of
`map_conflict` that it returns a live conflict; both hold under the conditions above.

## Model

| member | source | states |
|---|---|---|
| Wal.PendingIdsAre | rust/ember_core/src/lib.rs:337-386 | the ids in order of first sight are exactly the ids that have a PENDING line |
| Wal.PendingIdsDistinct | rust/ember_core/src/lib.rs:337-386 | no id is listed twice, however often it was logged |
| Wal.PendingIdsInOrder | rust/ember_core/src/lib.rs:337-386 | the ids stand in the order in which the log first saw them |
| Wal.LastFrameIsThere | rust/ember_core/src/lib.rs:360-378 | the line kept for an id is the last PENDING line of that id in the log |
| Wal.ScanPending | rust/ember_core/src/lib.rs:337-386 | the one pass with its position index returns each uncommitted id once, in first-seen order, with its last PENDING line |
| Wal.ScanPendingFallback | embers/engine/wal.py:64-85 | the Python scan returns the same lines in the same order as the native one |
| Wal.CompactKeepsLive | rust/ember_core/src/lib.rs:388-402 | a compacted log has the same pending lines and no committed id |
| Wal.CompactionIsInvisible | rust/ember_core/src/lib.rs:388-402 | with any later suffix, the pending lines after compacting are those without compacting exactly when the suffix logs no id again that was committed before |
| Wal.LiveAfterCompaction | rust/ember_core/src/lib.rs:388-402 | the live ids of a compacted log with a suffix, as those of the whole log |
| Store.StoreDirectory.constructor | embers/storage/store.py:146-159 | a new store has an empty log and no record |
| Store.StoreDirectory.DurableAppend | rust/ember_core/src/lib.rs:285-294 | an append to a log that ends in a newline adds the line, and to any other joins it to the unterminated one, which is lost with it |
| Store.StoreDirectory.AtomicWriteNew | rust/ember_core/src/lib.rs:438-459 | a record appears under a free id only, and no present record changes |
| Store.StoreDirectory.WriteRecordTransaction | rust/ember_core/src/lib.rs:642-679 | PENDING, publish, COMMITTED in this order, and whether the record was new; the log id is not pending afterwards, and what else was pending in the log is so still |
| Store.StoreDirectory.RecoverRecordTransactions | rust/ember_core/src/lib.rs:689-730 | every pending line in order is published and committed or counted as failed; from a log that ends in a newline no replayed line is pending afterwards |
| Store.StoreDirectory.CompactWal | rust/ember_core/src/lib.rs:388-402 | the log is emptied and written again with its pending lines, whose number is returned |
| Store.NextKeepsInv | rust/ember_core/src/lib.rs:642-730 | every step, a crash or a torn append included, keeps the log, the records and the acknowledgements consistent |
| Store.StoreSafety | rust/ember_core/src/lib.rs:642-730 | over every run with crashes: records never change, acknowledged writes are present with their content, and nothing is there that nobody asked to write |
| Store.RecoveryPublishesEveryIntactFrame | rust/ember_core/src/lib.rs:689-730 | after recovery every intact PENDING line has its record, a present record holds what it held, and a new one holds what the first pending line that asks for it asked, in first-seen order |
| Store.PublishAllGives | rust/ember_core/src/lib.rs:438-459 | replaying lines leaves in a record what it held, or else what the first line that asks for it asked |
| Store.PublishAllGrows | rust/ember_core/src/lib.rs:438-459 | replaying any lines only adds records |
| Store.ReplayStepsReplay | rust/ember_core/src/lib.rs:689-730 | the durable steps of a recovery, one by one, compute the recovered store |
| Store.RecoveryRunIsRecover | rust/ember_core/src/lib.rs:689-730 | an undisturbed recovery run is the recovery method |
| Store.WriteRunIsTransaction | rust/ember_core/src/lib.rs:642-679 | the three steps of an undisturbed write are the write transaction and acknowledge it |
| Store.WriteSettles | rust/ember_core/src/lib.rs:642-679 | after a finished write exactly the other ids that were pending in the log are, with the same lines in the same order |
| Store.FinishedWriteLeavesNothing | rust/ember_core/src/lib.rs:642-679 | in a reachable state the three steps of a write leave its id settled, and from a log that ends in a newline the pending lines as they were |
| Store.FinishedWriteIsNeverReplayed | rust/ember_core/src/lib.rs:642-730 | whatever runs after a finished write, torn appends, crashes and checkpoints included, its log id is never pending again |
| Store.RecoveryLeaves | rust/ember_core/src/lib.rs:689-730 | exactly which ids and lines an uninterrupted recovery leaves pending, whatever the log holds and however it ends |
| Store.RecoverySettlesIff | rust/ember_core/src/lib.rs:689-730 | in a reachable state a recovery leaves nothing pending, and a compaction after it no line, exactly when the log ended in a newline, or nothing was pending, or only the unterminated line was |
| Store.SecondRecoverySettles | rust/ember_core/src/lib.rs:689-730 | a second recovery leaves nothing pending in any case |
| Store.RecoveryReports | rust/ember_core/src/lib.rs:689-730 | recovery reports the record of each line that asks for a write, in order, and counts the lines whose fields are missing |
| Store.RecoveryReportsAll | rust/ember_core/src/lib.rs:689-730 | in a reachable state it reports a record for every pending line and no failure |
| Store.InterruptedRecoveryIsRecovery | rust/ember_core/src/lib.rs:689-730 | recoveries interrupted anywhere and any number of times end like an uninterrupted one exactly when the tail is safe |
| Store.UnsafeTailIsLost | rust/ember_core/src/lib.rs:285-294 | three recovery steps from an unsafe tail after which its record can no longer be recovered |
| Store.UnsafeTailIsReachable | rust/ember_core/src/lib.rs:642-679 | two interrupted writes from an empty store leave an unsafe tail |
| Store.LoggedWriteSurvives | rust/ember_core/src/lib.rs:642-679 | a write that crashed after its PENDING append is recovered, with its content, exactly when the log ended in a newline |
| Store.TornCheckpointIff | rust/ember_core/src/lib.rs:388-402 | a checkpoint cut short after any line, or inside one, changes what recovery ends with exactly unless each line it did not write again is of a record that is present or that a written line asks for |
| Store.TornCheckpointLoses | rust/ember_core/src/lib.rs:388-402 | a logged write that stopped before publishing is lost when a checkpoint stops after truncating the log |
| Store.GluingKeepsGoal | rust/ember_core/src/lib.rs:285-294 | losing a safe tail to the next append does not change what recovery ends with |
| Versions.WriteEngine.Write | embers/engine/writer.py:64-79 | a sealed record with the content that was given appears under a free id if it fits the storage limits, and a taken id is left alone |
| Versions.WriteEngine.GetSupersessionChain | rust/ember_core/src/lib.rs:1028-1045 | the loop with its seen set lists the chain that following sidecars defines |
| Versions.WriteEngine.ResolveCasHead | rust/ember_core/src/lib.rs:1047-1061 | the head of the lineage, its hash and version, whether the hash is the expected one, and whether the head file decodes at all |
| Versions.PublishKeepsEdges | embers/engine/writer.py:225-244 | a published sidecar, in place of an old one or not, leaves every sidecar joining a record to its next version |
| Versions.WriteEngine.Update | embers/engine/writer.py:120-223 | the outcome is the one its backend decides from the head, damaged and undecodable records and storage limits included; an accepted update writes a version that holds the new content, is one later, names what it supersedes and is sealed over all this, and the sidecar of the head; a refused one changes nothing on disk |
| Versions.BackendsDecideAlikeIff | embers/engine/writer.py:120-177 | the backends accept the same updates, and give the same outcome exactly unless the head file does not decode, or it is damaged and lost its race |
| Versions.AcceptedIff | embers/engine/writer.py:120-177 | an update is accepted exactly when what it supersedes is there and readable, has the hash it was sealed with and the expected one, is not deprecated, and the new version fits |
| Versions.LostRaceIff | embers/engine/writer.py:120-177 | of a sound head a lost race is reported exactly when its hash is another one, with that hash, its version and its id |
| Versions.WriteEngine.GetHistory | embers/engine/reader.py:79-94 | the records of the chain that can be read, oldest first |
| Versions.NextKeepsInv | embers/engine/writer.py:178-223 | each durable step of writes and updates, branching and cut short included, keeps every link right |
| Versions.EdgesHoldInEveryRun | embers/engine/writer.py:178-223 | in every run each sidecar joins a record to one that names it, is one version later and carries its hash |
| Versions.FinishedContentStays | embers/engine/writer.py:64-223 | in every run, branching and crashes included, a finished write or update leaves its content under its id for good |
| Versions.ContentsAreBrought | embers/engine/writer.py:64-223 | no record of any run holds anything but what a write or update under its id brought |
| Versions.WalkClimbs | embers/engine/writer.py:257-273 | a walk along sidecars climbs one version a step and ends at an unsuperseded record without its guard firing |
| Versions.HistoryHasNoHoles | embers/engine/reader.py:79-94 | in every reachable state a chain repeats nothing, ends at a head, and from a first version lists versions 1 to n without a hole |
| Versions.HeadIsUnsuperseded | rust/ember_core/src/lib.rs:1047-1061 | the resolved head is a record nothing supersedes |
| Versions.ApplyKeepsLinear | embers/engine/writer.py:120-223 | a write or a compare-and-set update, taken or refused, leaves every lineage one chain |
| Versions.LineageIsOneChain | embers/engine/writer.py:257-273 | each record stands in the chain of its root at the place its version says, and shares its head |
| Versions.LineagesStayLinear | embers/engine/writer.py:120-223 | after any number of writes and compare-and-set updates every lineage is one chain with one head |
| Versions.RecordsHoldWhatWasWritten | embers/engine/writer.py:64-223 | after any writes and compare-and-set updates exactly the records are there that were or that an operation made, and each made one holds the content of its operation under the hash of that content |
| Versions.HeadAfter | embers/engine/writer.py:120-223 | an accepted update is the new head of its lineage, and no other operation moves a head |
| Versions.HeadHoldsLastUpdate | embers/engine/writer.py:120-223 | after any run the head of a lineage holds the content of the last accepted update of it |
| Versions.HistoryEndsWithLastUpdate | embers/engine/reader.py:79-94 | and so does the last entry of the history of any of its records |
| Versions.WinnerSupersedes | embers/engine/writer.py:140-177 | an accepted update supersedes the one record that has the expected hash |
| Versions.NoWinAfterSupersession | embers/engine/writer.py:140-177 | once a record is superseded no later attempt expecting its hash is accepted |
| Versions.AtMostOneWins | embers/engine/writer.py:120-223 | of all attempts in a run that share an expected hash at most one is accepted |
| Versions.ExactlyOneWins | embers/engine/writer.py:120-223 | when one of them that fits the limits targets the lineage of a current head, exactly one is accepted |
| Versions.UpdateKeepsLinearIff | embers/engine/writer.py:178-223 | an update leaves lineages linear exactly when it extends a head and its sidecar is published |
| Lock.NextKeepsInv | embers/storage/store.py:81-111 | each step of entering, leaving, failing or dying keeps thread locks, guards and file lock in step with where threads stand |
| Lock.DeathKeepsInv | rust/ember_core/src/lib.rs:511-545 | a process that dies takes its threads and frees its locks, and nobody else's |
| Lock.MutualExclusion | embers/storage/store.py:81-111 | in every interleaving of threads and processes at most one thread is inside the native lock, however often it re-entered, and without the native module at most one of each process |
| Lock.FallbackLetsProcessesIn | embers/storage/store.py:31-38 | without the native module two processes are inside at once |
| Lock.NothingLeaks | embers/storage/store.py:103-111 | with all threads at rest no lock or guard is left, and anyone can enter |
| Lock.ReentryComesBack | embers/storage/store.py:81-111 | whoever is inside can enter again without waiting, is one deeper inside, and comes back to the same state by leaving |
| Writers.NextKeepsInv | embers/engine/writer.py:120-223 | each step of the lock and of the writes under it keeps the disk what the ended writes leave one after the other, plus the part of the one write under way |
| Writers.InterleavedIsSequential | embers/engine/writer.py:64-223 | however threads and processes interleave, the disk is the one their writes leave one after the other in the order they ended; without the native module, for the threads of one process |
| Writers.InterleavedStaysLinear | embers/engine/writer.py:120-223 | every interleaving leaves each lineage one chain and accepts at most one of the updates that expect one hash |
| Writers.InterleavedHasOneWinner | embers/engine/writer.py:120-223 | when an ended update that fits expected the hash of a head through its lineage, exactly one of those was accepted, in every interleaving |
| Writers.InterleavedContents | embers/engine/writer.py:64-223 | in every interleaving each new record holds the content of the write that made it, and a history ends with the last accepted update of its lineage |
| Writers.FallbackForks | embers/storage/store.py:31-38 | without the native module two processes that update one record at once are both accepted, and one version is on no chain |
| Writers.AlwaysLinearIff | embers/storage/store.py:24-38 | compare-and-set keeps lineages linear in all interleavings exactly when the native lock is there |
| MasterIndex.LinkKeepsForestIff | embers/index/master.py:133-136 | the graph stays a forest with inverse maps exactly when the parent is a lower version and the child has no other parent |
| MasterIndex.MasterIndex.LinkVersion | embers/index/master.py:133-136 | the child's parent and the parent's children, whatever the ids; the graph stays a forest exactly when the link fits |
| MasterIndex.MasterIndex.IndexRecord | embers/index/master.py:97-125 | the id joins its namespace and no other, is linked to what it supersedes, and the graph stays a forest exactly when that link fits |
| MasterIndex.MasterIndex.MarkSuperseded | embers/index/master.py:127-131 | both directions of the mark and the version link; the graph stays a forest exactly when the link fits |
| MasterIndex.MasterIndex.GetNamespaceIds | embers/index/master.py:145-156 | exactly the ids of the namespace that are not filtered out, each once |
| MasterIndex.MasterIndex.GetVersionRoot | embers/index/master.py:227-236 | the root of the true forest; the seen guard never ends the climb |
| MasterIndex.MasterIndex.GetVersionAncestors | embers/index/master.py:238-246 | parent, grandparent and so on up to the root, nearest first |
| MasterIndex.MasterIndex.GetVersionDescendants | embers/index/master.py:248-259 | the stack walk finds exactly the records that have the id among their ancestors |
| MasterIndex.MasterIndex.LineageNodes | embers/index/master.py:261-263 | exactly the records with the same root |
| MasterIndex.MasterIndex.GetVersionHeads | embers/index/master.py:265-267 | exactly the leaves of the lineage |
| MasterIndex.MasterIndex.GetBranchPoints | embers/index/master.py:269-271 | exactly the records of the lineage with more than one child |
| MasterIndex.RootIsLastAncestor | embers/index/master.py:227-246 | the root is the last ancestor, has no parent, and is the root of every ancestor |
| MasterIndex.LineageIsRootAndDescendants | embers/index/master.py:261-263 | sharing a root is being the root or descending from it |
| MasterIndex.LineagesPartition | embers/index/master.py:261-263 | two lineages are the same or have nothing in common, and everyone is in its own |
| MasterIndex.DescendantsAreClosure | embers/index/master.py:248-259 | descendants are the children of the id and of its descendants |
| MasterIndex.HeadCount | embers/index/master.py:265-271 | a lineage has one head plus one for every further child at a branch point |
| MasterIndex.NamedParentsAreForest | embers/engine/writer.py:178-223 | in every reachable store what the records name as superseded makes a forest |
| MasterIndex.SidecarsAreNamed | embers/engine/writer.py:225-244 | a sidecar that stood at any time of a run says what a record at its end names |
| MasterIndex.ReachableIndexIsForest | embers/index/master.py:97-136 | whatever records and sidecars of a reachable store the index has seen, in any order, its graph is a forest, and with all of them it holds exactly the links the records name |
| MasterIndex.RootIsFirstVersion | embers/index/master.py:227-236 | the root a complete index finds is the first version of the lineage |
| Walks.BallIsWalks | rust/ember_core/src/lib.rs:152-253 | being within a distance is having a walk of at most so many edges |
| Walks.ReachIsSymmetric | rust/ember_core/src/lib.rs:139-150 | with inverse successor sets, walks of a length forward and backward join the same nodes |
| Graph.GraphState.AddEdge | rust/ember_core/src/lib.rs:73-115 | the edge is appended on both sides, which stay transposes |
| Graph.GraphState.RemoveEdge | rust/ember_core/src/lib.rs:117-137 | exactly the links between the two nodes of the kind go, on both sides, which stay transposes |
| Graph.LinksAfterRetain | rust/ember_core/src/lib.rs:117-137 | which links of a node are left after a removal |
| Graph.RetainKeeps | rust/ember_core/src/lib.rs:117-137 | removing takes away exactly the edges to the target of the kind given, or of any kind, and keeps the others in order |
| Graph.MovesAre | rust/ember_core/src/lib.rs:139-148 | one step leads exactly to the other ends of the edges of the direction and the kind asked for |
| Graph.GraphState.Neighbors | rust/ember_core/src/lib.rs:168-194 | each node at filtered distance 1 to depth once, nearest first, and never the start |
| Graph.GraphState.SearchStep | rust/ember_core/src/lib.rs:195-226 | one turn of the queue loop keeps the searched nodes a ball and the queue its rim |
| Graph.GraphState.Path | rust/ember_core/src/lib.rs:195-226 | a real outgoing path of at most depth edges that none beats in length, and none exactly when no such path exists |
| Graph.GraphState.Subgraph | rust/ember_core/src/lib.rs:227-253 | exactly the nodes within depth, and all out-edges, in order, of exactly the nodes nearer than depth |
| Graph.ReachabilityIsSymmetric | rust/ember_core/src/lib.rs:73-150 | while the sides are transposes, u reaches v along outgoing edges exactly when v reaches u along incoming ones |
| Namespace.ReadEngine.Get | embers/engine/reader.py:25-65 | a record is returned exactly when its sidecars let it through, with what they add |
| Namespace.ReadEngine.GetMany | embers/engine/reader.py:113-122 | the visible ones of the ids, in order |
| Namespace.ReadEngine.GetCurrent | embers/engine/reader.py:67-77 | the end of the supersession chain, unless a sidecar hides it |
| Namespace.CurrentIsReadableIff | embers/engine/reader.py:67-77 | where every sidecar joins neighbouring versions, the current version is readable exactly when it is not deprecated |
| Namespace.ReadEngine.GetIndexed | embers/engine/reader.py:136-152 | the ids of the index are cut to the limit before the visible ones are read |
| Namespace.ReadEngine.GetScanned | embers/engine/reader.py:154-161 | the visible records of the namespace in directory order, cut to the limit as the loop does |
| Namespace.ScanCutIs | embers/engine/reader.py:154-161 | the scan keeps the first results: as many as the limit, all without one or with zero, and one when it is negative |
| Namespace.ReadEngine.GetNamespace | embers/engine/reader.py:124-161 | without a limit, by index or by scan, each visible record of the namespace once |
| Namespace.ReadEngine.ReadingsTell | embers/engine/reader.py:124-161 | such a list holds each record of the namespace that the flags let through once, with what its sidecars add |
| Namespace.NextKeepsInv | embers/db.py:166-187 | no step, restart or rebuild makes the index list or mark anything that is not on disk |
| Namespace.IndexLearns | embers/db.py:178-187 | a step adds to the index its own write, the mark on what it superseded and its own first deprecation, and nothing of others |
| Namespace.IndexedIsScanIff | embers/engine/reader.py:124-161 | the indexed read never shows more than the scan, and as much exactly when it lists what the scan finds |
| Namespace.AgreementIff | embers/engine/reader.py:124-161 | in every reachable state, crashes and other processes included, both reads agree for all namespaces and flags exactly when the index lists every record |
| Namespace.StaysCompleteIff | embers/db.py:166-187 | an index stays complete exactly when the step is no unseen write and no restart from an outdated index |
| Namespace.IndexedReadIsScan | embers/engine/reader.py:124-161 | a handle whose index saw all writes reads what a scan reads, also after a rebuild without marks |
| Namespace.ScanShowsTheRun | embers/engine/reader.py:154-161 | a scan shows a record exactly when some step of the run wrote it in the namespace and none deprecated or superseded it, unless those are asked for |
| Namespace.IndexedShowsTheRun | embers/engine/reader.py:136-152 | and so does the index of a handle that saw all writes |
| Namespace.LimitedIff | embers/engine/reader.py:144-152 | a limited indexed read is as long as it could be exactly when no hidden id took the place of a visible one |
| Namespace.LimitHidesARecord | embers/engine/reader.py:144-152 | two records, a foreign deprecation and a limit of one give an empty indexed read |
| Namespace.Database.OnWrite | embers/db.py:178-187 | the callback after a write leaves in the index what the handle says of it |
| Namespace.Database.Write | embers/db.py:178-187 | writing a record through the objects takes the step of the handle |
| Namespace.Database.Update | embers/db.py:290-318 | updating a record through the objects, sidecar and both index calls, takes the step of the handle |
| Namespace.Database.Deprecate | embers/db.py:334-345 | deprecating through the objects takes the step of the handle, and leaves the index alone when the record was deprecated before |
| Namespace.Database.GetNamespace | embers/engine/reader.py:124-152 | what the objects read is what the handle reads through its index, each record once, and what a scan finds when the index lists every record |
| FullText.FullTextIndex.Add | embers/index/fulltext.py:93-113 | postings, lengths, namespace, count and mean after indexing one text; an empty text changes nothing |
| FullText.FullTextIndex.CountTokens | embers/index/fulltext.py:102-107 | each token of the text gets its number of occurrences |
| FullText.FullTextIndex.MeanLength | embers/index/fulltext.py:109-113 | the mean of the stored lengths |
| FullText.FullTextIndex.Remove | embers/index/fulltext.py:115-122 | the id is gone from every table, and the mean stays |
| FullText.FullTextIndex.Accumulate | embers/index/fulltext.py:147-163 | one query token adds its term to each document of its postings in the namespace |
| FullText.FullTextIndex.Search | embers/index/fulltext.py:126-167 | the best of all matches as many as asked for, in falling order of their scores through the index; with a namespace only documents indexed under it |
| FullText.Sorted | embers/index/fulltext.py:165-167 | every scored id once with its score, in falling order |
| FullText.ScoreIsDirect | embers/index/fulltext.py:147-163 | the score accumulated through postings is the one computed from the document's own tokens |
| FullText.SearchIsDirect | embers/index/fulltext.py:126-167 | the index finds exactly the documents of the namespace with a query token, with their direct scores |
| FullText.FoundIff | embers/index/fulltext.py:145-163 | a document is found exactly when it holds a token of the query and is of the namespace, if one is asked for |
| FullText.TermIsBM25 | embers/index/fulltext.py:137-163 | what a token gives a document is the BM25 term with k1 = 1.2 and b = 0.75 |
| FullText.BestAreFound | embers/index/fulltext.py:126-167 | what a search returns are documents of the namespace with a token of the query and their scores from their own tokens |
| FullText.BestAreHighest | embers/index/fulltext.py:165-167 | as many as asked for or as there are, each once, in falling order, and none with a higher score is missing |
| FullText.ScoresArePositive | embers/index/fulltext.py:147-163 | a document's score is positive exactly when it holds a token of the query |
| FullText.WeightSaturates | embers/index/fulltext.py:159-163 | the term weight grows with occurrences, never exceeds k1 + 1, and falls with the length of the document |
| FullText.RarerCountsForMore | embers/index/fulltext.py:151-153 | a token that fewer documents hold has the higher inverse document frequency |
| FullText.AddAgreesIff | embers/index/fulltext.py:93-113 | indexing keeps the index in step exactly when the id is new, the text empty or no old token missing from it |
| FullText.StaleTokenIsFound | embers/index/fulltext.py:104-107 | a text of the token bb indexed over one of aa is still found under aa |
| FullText.RemoveAgrees | embers/index/fulltext.py:115-122 | removing keeps everything but the mean in step |
| FullText.AddKeepsAverage | embers/index/fulltext.py:93-113 | after indexing a text under a new id the stored mean is the true one, whatever it was before; an empty text leaves a right mean right |
| FullText.RemoveKeepsAverageIff | embers/index/fulltext.py:115-122 | after a removal the mean is right exactly when the id was not indexed, was the only document and empty, or was of mean length |
| FullText.RemoveLeavesStaleAverage | embers/index/fulltext.py:115-122 | of documents of one and three tokens, removing the longer leaves a mean of two |
| FullText.RunAgrees | embers/index/fulltext.py:93-122 | over every run of adds of new ids and removals the index stands for the documents |
| FullText.SearchAfterAdds | embers/index/fulltext.py:93-167 | after any adds of distinct ids search is BM25 over the documents, with the true mean, all scores positive, and finds exactly the documents of the namespace with a token of the query |
| Episodic.ByTimeSorts | embers/cognitive/episodic.py:123 | the records in time order, nothing lost or added |
| Episodic.ByTimeIsStable | embers/cognitive/episodic.py:123 | records of the same time keep their order |
| Episodic.EpisodicSegmenter.ComputeSurprise | embers/cognitive/episodic.py:211-229 | the mean surprise of the tags, each counted before the next is weighed |
| Episodic.SurpriseIs | embers/cognitive/episodic.py:211-229 | the surprise is the mean over the tags of minus the logarithm of the smoothed frequency so far, and each tag is counted once more |
| Episodic.StreamIsCounted | embers/cognitive/episodic.py:211-229 | after a stream every record but the first is weighed and each tag counted as often as it stands in them |
| Episodic.EpisodicSegmenter.IsBoundary | embers/cognitive/episodic.py:161-209 | whether one signal is very strong or the average is high, and where a zero threshold divides |
| Episodic.EpisodicSegmenter.Segment | embers/cognitive/episodic.py:115-159 | the loop emits an episode for each piece of the cut stream, in order, or raises exactly where a zero threshold divides |
| Episodic.NonZeroNeverRaises | embers/cognitive/episodic.py:161-209 | with neither the gap nor the surprise threshold zero no stream divides by zero |
| Episodic.EpisodeSpans | embers/cognitive/episodic.py:46-61 | an episode of ordered records starts with its first and ends with its last |
| Episodic.EpisodeTags | embers/cognitive/episodic.py:47-54 | an episode has the tags of its records and no others |
| Episodic.NamespaceChangeFires | embers/cognitive/episodic.py:188-190 | a change of namespace is always a boundary |
| Episodic.BoundaryIff | embers/cognitive/episodic.py:161-209 | with thresholds above zero, a boundary stands exactly between records of two namespaces, or far apart, or that hardly share tags, or before a very surprising one, or where all this is strong on average |
| Episodic.NoBoundaryJoins | embers/cognitive/episodic.py:161-209 | without a boundary two neighbours share the namespace, lie within nine tenths of the gap and overlap in tags |
| Episodic.CutConserves | embers/cognitive/episodic.py:128-152 | the pieces joined again are the stream |
| Episodic.CutSizes | embers/cognitive/episodic.py:139-146 | no piece exceeds the maximum, but for the first, which starts unmeasured |
| Episodic.SegmentationIsPartition | embers/cognitive/episodic.py:115-152 | the episodes in order are the records in time order; each is in one namespace, within its size and at most nine tenths of the gap per step long |
| Episodic.EpisodesEndIff | embers/cognitive/episodic.py:128-152 | an episode ends before the last record only where it has reached the maximum or a boundary follows, and one ends at every boundary |
| Episodic.PiecesAreSlices | embers/cognitive/episodic.py:128-152 | each episode is a contiguous slice of the stream |
| Episodic.EmptyEpisodeIff | embers/cognitive/episodic.py:132-146 | an empty episode comes out exactly when a boundary follows a close for size |
| Episodic.EmptyEpisodeHappens | embers/cognitive/episodic.py:132-146 | three untagged records of one namespace at times 0, 0 and past the gap, and a maximum of two, give an empty episode |
| Lobby.LobbyStore.BoardForSession | embers/lobby/store.py:50-61 | the open board of a session, with its expired posts dropped |
| Lobby.LobbyStore.ExpirePosts | embers/lobby/store.py:287-296 | exactly the posts within their time stay, in order |
| Lobby.LobbyStore.FindBoard | embers/lobby/store.py:92-96 | the one open board on offer for the task, namespace and room, if any |
| Lobby.LobbyStore.Open | embers/lobby/store.py:79-123 | join the session's board, the board on offer, or a new one, and every refusal in its order |
| Lobby.LobbyStore.Publish | embers/lobby/store.py:125-168 | the post, or the first refusal that applies, and the state each leaves |
| Lobby.LobbyStore.FindPost | embers/lobby/store.py:260-267 | the first post with the id, if any |
| Lobby.LobbyStore.TakePost | embers/lobby/store.py:222-225 | the post on the session's board, or why there is none |
| Lobby.LobbyStore.Corroborate | embers/lobby/store.py:170-191 | one corroboration per agent and session, never by the author |
| Lobby.LobbyStore.Heartbeat | embers/lobby/store.py:193-202 | presence is refreshed for someone on a board |
| Lobby.LobbyStore.Leave | embers/lobby/store.py:204-213 | the session is gone from participants, presence and the session map |
| Lobby.LobbyStore.Close | embers/lobby/store.py:235-258 | the board is closed, its sessions are free, and the unpromoted failures are handed over |
| Lobby.LobbyStore.MarkPromoted | embers/lobby/store.py:227-233 | the post names what it became |
| Lobby.LobbyStore.Join | embers/lobby/store.py:273-285 | a full board refuses, any other takes the session and its presence |
| Lobby.FailuresAccounted | embers/lobby/store.py:244-247 | each unpromoted failure is handed over exactly as often as it is on the board, and nothing else |
| Lobby.OpenKeepsInvIff | embers/lobby/store.py:79-123 | opening keeps sessions and boards linked exactly when the session has a name or is the first without one, a guard refuses it, or the board on offer is full or the one it points at |
| Lobby.EmptySessionBreaksLinks | embers/lobby/store.py:50-123 | two boards opened for the empty session break the links |
| Lobby.PublishKeepsInv | embers/lobby/store.py:125-168 | publishing keeps all invariants, and its capacity check never fires |
| Lobby.CorroborateKeepsInv | embers/lobby/store.py:170-191 | corroborators stay distinct and never the author, and the capacity check never fires |
| Lobby.LeaveKeepsInv | embers/lobby/store.py:204-213 | leaving keeps all invariants and the session is on no board |
| Lobby.CloseKeepsInv | embers/lobby/store.py:235-258 | closing keeps all invariants, and its participant check never fires |
| Lobby.LobbySafety | embers/lobby/store.py:79-258 | in every run sessions point at exactly the open boards they are on, presence lists the participants, no two open boards have the same offer, and corroborators are distinct others |
| Lobby.CapacityHolds | embers/lobby/store.py:273-278 | while every limit in force is at most cap, no board ever holds more than cap sessions |
| Lobby.BackersCount | embers/lobby/store.py:170-191 | a post with k corroborations has k + 1 distinct agents behind it |
| Boards.ExpiryKeeps | embers/lobby/store.py:287-296 | looking a board up keeps exactly the posts within their time, in order |
| Boards.CorroborationIsRecorded | embers/lobby/store.py:170-191 | a corroboration by someone who is neither the author nor has spoken adds one row with agent and session to the post, any other adds none, and nothing else changes |
| Boards.EveryVoiceIsRecorded | embers/lobby/store.py:170-191 | any number of corroborations by distinct agents and sessions leave that many more rows, in order |
| Boards.VoicesAddUp | embers/lobby/store.py:170-191 | n of them on a post without any leave n rows and n + 1 agents behind it |
| Boards.OpeningStaysOnBoard | embers/lobby/store.py:79-91 | a session that has a board stays on it |
| Boards.OpeningJoinsOffer | embers/lobby/store.py:92-104 | one without a board joins the one on offer, unless that is full |
| Boards.OpeningStartsBoard | embers/lobby/store.py:105-123 | and when none is on offer gets a new one for its task, namespace and room, empty but for itself |
| Boards.PublicationStandsLast | embers/lobby/store.py:125-168 | a post goes through exactly when it fits its board, says something, is of a known kind, is not too large and there is room, and then stands last with what it says |
| Boards.HeartbeatIsNoted | embers/lobby/store.py:193-202 | a heartbeat notes who was seen and when, and nothing else |
| Boards.LeavingFrees | embers/lobby/store.py:204-213 | whoever leaves is off the board and out of presence, and the others stay |
| Boards.ClosingFrees | embers/lobby/store.py:235-258 | closing frees exactly the participants, leaves the posts, and hands over exactly the failures without a promotion |
| Boards.PromotionIsNoted | embers/lobby/store.py:228-233 | the post names what it became, and nothing else changes |
| Broker.LobbySubscription.RunEnqueue | embers/lobby/realtime.py:89-102 | a scheduled event enters the queue, and a full one drops its oldest and flags the newcomer |
| Broker.LobbySubscription.Take | embers/lobby/realtime.py:21-22 | the oldest queued event |
| Broker.LobbyEventBroker.Subscribe | embers/lobby/realtime.py:37-49 | a new empty stream that starts at the board's number |
| Broker.LobbyEventBroker.Publish | embers/lobby/realtime.py:64-82 | the next number, scheduled for every subscriber of the board and nobody else |
| Broker.LobbyEventBroker.Unsubscribe | embers/lobby/realtime.py:51-58 | that subscriber is gone and no other |
| Broker.EnqueueKeepsInv | embers/lobby/realtime.py:89-102 | dropping and flagging keep the run contiguous and every drop announced |
| Broker.SubscriberSafety | embers/lobby/realtime.py:64-102 | received numbers rise, the queue is a run that ends at the latest delivered event, and after each dropped event a flag is received or queued |
| Broker.NoFlagMeansNothingMissed | embers/lobby/realtime.py:89-102 | a subscriber who never saw a flag, and has none queued, missed nothing |
| Broker.EventsCarryWhatWasPublished | embers/lobby/realtime.py:64-102 | every event that is received, queued, dropped or scheduled carries the kind and data published under its number |
| Broker.DropsIff | embers/lobby/realtime.py:89-102 | the oldest event is dropped exactly when the queue is full, and the newcomer alone is flagged |
| Broker.WithinCapacityNothingIsLost | embers/lobby/realtime.py:89-102 | without a bound, or with no more publishes than the queue holds, nothing is dropped |
| Conflict.PairHasNoDirection | embers/core/conflict.py:77-84 | the stored pair is the same whichever memory is named first |
| Conflict.EmberDB.FindLiveConflict | embers/db.py:856-898 | a live conflict of the pair whose newest version the index of the handle lists, if any |
| Conflict.EmberDB.Map | embers/db.py:756-826 | a new conflict, the live one that the handle lists, or the first obstacle in the code's order |
| Conflict.EmberDB.Update | embers/db.py:928-963 | a new version after all checks, or the first objection and nothing changed; a conflict whose newest version is deprecated is not found |
| Conflict.MapsIff | embers/db.py:770-811 | a pair is mapped or found exactly when it is two durable memories of one namespace and the contradiction is semantic |
| Conflict.ObstaclesInOrder | embers/db.py:770-811 | otherwise the first obstacle that applies is told |
| Conflict.MappingCreates | embers/db.py:806-826 | a pair without a live conflict that the handle lists gets an open one about these two memories, and nothing else changes |
| Conflict.AdvancesIff | rust/ember_core/src/lib.rs:602-640 | a conflict is advanced exactly when its newest version can be read and is not closed, the new status is not open, a closing one says how, and a winner is one of the two of a resolved one; the new version has that status, resolution and winner |
| Conflict.AdvanceKeepsSound | rust/ember_core/src/lib.rs:602-640 | an allowed transition keeps the history opened, investigated, closed once, with a reason and a fitting winner |
| Conflict.ConflictSafety | embers/db.py:756-963 | every run of any handles keeps well-formed histories, reasons for closing and winners from the pair |
| Conflict.EveryRunIsSafe | embers/db.py:756-963 | the same for every run from an empty store |
| Conflict.MapKeepsOneLiveIff | embers/db.py:806-826 | a mapping keeps at most one live conflict for each pair exactly when the index of its handle lists the live conflict of the pair, if there is one |
| Conflict.NextKeepsOneLiveIff | embers/db.py:756-963 | a call keeps at most one live conflict for each pair exactly when it is no mapping that misses one |
| Conflict.OneLiveIff | embers/db.py:756-963 | a run of any handles never has two live conflicts for one pair exactly when no mapping in it misses a live conflict for want of its index |
| Conflict.OneHandleIsNeverBlind | embers/db.py:856-898 | while one handle that lists every version does all mapping and updating, no mapping misses a live conflict |
| Conflict.TwoHandlesMapTwice | embers/db.py:806-826 | two handles that do not see each other map one pair, which then has two live conflicts |
| Conflict.RunExtends | embers/db.py:928-963 | no run changes a memory or a version, and a closed conflict stays as it is |
| Conflict.MappingIsSymmetric | embers/core/conflict.py:77-95 | mapping b with a does what mapping a with b does |
| Conflict.MapsOnceIff | embers/db.py:806-826 | an existing id comes back exactly when it is the live conflict of the two memories and the handle lists it |
| Conflict.MappingIsIdempotent | embers/db.py:806-826 | through any run that leaves the pair no other live conflict, mapping it again, either way round and through any handle, returns the same conflict and writes nothing exactly when it is live and the handle lists it |
| Promotion.HybridIsAutomaticAboveRisk | embers/engine/promotion.py:289-310 | hybrid admits exactly what automatic admits above the risk line, the same way and with the same standing |
| Promotion.StrongerNeverHolds | embers/engine/promotion.py:195-310 | more evidence or confidence never turns a promotion into a hold or lowers the standing |
| Gates.ConflictingIff | embers/engine/promotion.py:314-330 | a proposal conflicts exactly when something it derives from has a contradiction edge, either way round, with another stored record |
| Gates.AutomaticPromotesIff | embers/engine/promotion.py:203-240 | automatic mode promotes exactly what has its evidence, its confidence and its trust and no contradiction, verified from the verified line on and provisional below |
| Gates.HybridPromotesIff | embers/engine/promotion.py:289-310 | hybrid mode promotes the same if the confidence is above the risk line |
| Gates.ConsensusPromotesIff | embers/engine/promotion.py:242-280 | consensus mode promotes exactly what has its evidence, by enough distinct authors, and no contradiction |
| Gates.OtherwiseHeld | embers/engine/promotion.py:152-175 | human mode promotes nothing, and nobody promotes what is not pending |
| Gates.SubmissionEnds | embers/engine/promotion.py:177-193 | without limits a submission ends with a promotion exactly when the gates of the mode let the proposal through, and otherwise changes nothing |
| Promotion.EvidenceOfPost | embers/mcp/lobby_surface.py:133-158 | a post with k corroborations brings k + 1 evidence items by k + 1 agents |
| Promotion.LobbyConsensusIff | embers/mcp/lobby_surface.py:133-190 | consensus admits it exactly when k + 1 reaches the threshold and, where evidence is required, the minimum |
| Promotion.EveryPostCounts | embers/mcp/lobby_surface.py:133-190 | the same for every post that any run of the lobby can lead to |
| Promotion.EvidenceFitsIff | embers/db.py:1445-1447 | the evidence and one more record are all written exactly when the sizes of those not stored yet fit together, and then every item is stored with its edge |
| Promotion.PromotionCompletesIff | embers/db.py:1379-1455 | a pending proposal is promoted exactly when the memory, its new evidence and the promoted copy fit; when only the memory does, the memory stays and the proposal is as it was |
| Gates.PromotionLeaves | embers/db.py:1379-1455 | without limits a promotion leaves a memory that says what the proposal said, every item of its evidence as a record with its edge, and the proposal naming the memory |
| Gates.EvidenceIsRecorded | embers/db.py:1574-1609 | writing evidence records its items under their ids, keeps what was there, and adds no edge but theirs |
| Gates.RejectionLeaves | embers/db.py:1457-1477 | a rejection that fits adds the rejected state with its reason, and no memory |
| Promotion.NextMatchesIff | embers/db.py:1321-1477 | a call leaves the memories of a proposal and its state in step exactly when they were, the call is no promotion of it that ends in between, and none that writes while its promoted copy is deprecated |
| Promotion.ProposalSafety | embers/db.py:1321-1477 | in every run, refused writes, crashes and deprecations included, a proposal is pending first and then decided, and each promoted copy of it names a memory written for it, that says what it said and that all its evidence supports |
| Promotion.NextDecides | embers/db.py:1346-1477 | a call adds at most one state, and to a decided proposal exactly when it promotes or rejects it while its decided copy is deprecated |
| Promotion.DecisionsAreFinalIff | embers/db.py:1346-1477 | no decision is taken back, and a decided proposal stays as it is through a run exactly when no promotion or rejection of it goes through while its decided copy is deprecated |
| Promotion.DecidedOnceIff | embers/db.py:1346-1477 | after any run a proposal was decided at most once exactly when no promotion or rejection of it went through while its decided copy was deprecated |
| Promotion.RejectedIsPromoted | embers/db.py:1346-1357 | a rejected proposal whose rejected copy is deprecated is promoted |
| Promotion.PromotedTwice | embers/db.py:1346-1357 | a promoted proposal whose promoted copy is deprecated is promoted again, and two memories were written for it |
| Promotion.MatchedIff | embers/db.py:1379-1477 | after any run a proposal is promoted exactly when one memory was written for it, if and only if no promotion of it ended between its memory and its new state, and while its promoted copy was deprecated no memory was written for it and no rejection went through |
| Promotion.UndisturbedNext | embers/storage/store.py:235-245 | without storage limits only a crash cuts a promotion short, and only a deprecation lets a decided proposal be decided again |
| Promotion.UndisturbedIsMatched | embers/db.py:1379-1477 | in a run without storage limits, crashes and deprecations of the proposal, the conditions of MatchedIff and DecidedOnceIff hold |
| Promotion.RetriesLeaveMemories | embers/db.py:1425-1454 | with a limit between the memory and the promoted copy, two retries leave two memories and a pending proposal |
| Promotion.AdmittedPassedGates | embers/engine/promotion.py:152-310 | where nobody promotes by hand, every memory written for a proposal passed the gates of the mode and has the standing its confidence earns |
| Promotion.PromotionEngine.Propose | embers/db.py:1321-1344 | a pending proposal, unless the limits refuse it |
| Promotion.PromotionEngine.GetProposal | embers/db.py:1346-1357 | the newest copy, or the first when the newest is deprecated |
| Promotion.PromotionEngine.StartSession | embers/db.py:990-1010 | an active session with no failures, unless the id is taken or the limits refuse it |
| Promotion.PromotionEngine.UpdateSession | embers/db.py:1028-1036 | a new copy of the session, unless it has ended, has no current copy or the limits refuse it |
| Promotion.PromotionEngine.ReportFailure | embers/db.py:1155-1184 | the failure record, then a copy of its session that has it; the record stays when the session refuses or its copy does not fit |
| Promotion.PromotionEngine.Deprecate | embers/db.py:334-345 | the newest copy of a proposal or session is marked |
| Promotion.PromotionEngine.HasConflictingMemory | embers/engine/promotion.py:314-330 | whether a contradiction edge joins, either way round, something the proposal derives from to a stored record of any kind |
| Promotion.PromotionEngine.RouteProposal | embers/engine/promotion.py:152-175 | the verdict of the mode, and a hold for anything not pending |
| Promotion.PromotionEngine.Ground | embers/db.py:1574-1609 | each item not stored yet becomes a record, each item gets its edge, until a write is refused |
| Promotion.PromotionEngine.Decide | embers/db.py:1379-1455 | the memory, its evidence and the promoted copy, each written or refused for itself, or nothing when the copy that counts is not pending |
| Promotion.PromotionEngine.Reject | embers/db.py:1457-1477 | one rejected state and no memory, unless the limits refuse it or the copy that counts is not pending |
| Promotion.PromotionEngine.Submit | embers/engine/promotion.py:177-193 | a promotion exactly when the verdict is to promote, which ends done or refused by the limits, and on a hold nothing is written |
| Promotion.LobbySurface.GatherEvidence | embers/mcp/lobby_surface.py:133-158 | the author's evidence first, then one item for each corroboration |
| Promotion.LobbySurface.Promote | embers/mcp/lobby_surface.py:133-190 | a failure is reported with its approach, any other post proposed, in the board's namespace with everyone's evidence; the post names it when that went through, and a failure whose session cannot log it is stored with the post unmarked |
| Gates.PostBecomesProposal | embers/mcp/lobby_surface.py:133-190 | a discovery or question becomes a pending proposal that says what the post said, in the namespace of its board, with one item by each voice |
| Gates.PostBecomesFailure | embers/mcp/lobby_surface.py:133-190 | a failure becomes a report of what was tried, or the start of the post, what failed and by whom, with one item by each voice |
| Gates.ReportsSay | embers/mcp/lobby_surface.py:193-209 | the reports of a closed board say the same for each post it hands over, in order, without evidence |
| Gates.SharedPostIsMarked | embers/mcp/lobby_surface.py:133-190 | the post that was shared names what it became, one that was not is as it was, and no other post or board changes |
| Promotion.UnmarkedIff | embers/mcp/lobby_surface.py:133-190 | a failure is stored and its post left unmarked exactly when the failure fits and the session of its author has ended, lost its current copy, or has no room for its new copy |
| Promotion.EndedSessionStoresTwice | embers/mcp/lobby_surface.py:133-190 | once the session of its author has ended, promoting a failure twice stores it twice and never marks the post |
| Promotion.LobbySurface.Flush | embers/mcp/lobby_surface.py:198-209 | the failures are reported in order until a report fails |
| Promotion.LobbySurface.Close | embers/mcp/lobby_surface.py:193-214 | the unpromoted failures are reported in order up to the first report that fails, and all of them exactly when the failures fit together with the copies of their sessions and each of these can log |
| Promotion.FlushesAllIff | embers/mcp/lobby_surface.py:198-209 | every failure of a closed board is reported exactly when every author's session that has a record can log and all the failures fit the limits together with the copies of the sessions |
| Promotion.ReportLogsIff | embers/db.py:1155-1184 | one failure is reported exactly when its session can log and both writes fit, and stored exactly when the failure fits |
| Gates.FailureIsListed | embers/db.py:1048-1055 | a reported failure is listed once on the account of its session behind the others, and no other account changes |
| Gates.SessionStarts | embers/db.py:990-1010 | a new session is active and has no failures |
| Gates.SessionIsAmended | embers/db.py:1028-1036 | an active session takes what is written to it and keeps its failures; an ended one stays as it is |
| Promotion.EndedSessionLosesReports | embers/db.py:1048-1055 | without any limit, two failures of an ended session: the first is stored and its report fails, the second is lost |
| Promotion.RoomForReportsIsNotEnough | embers/db.py:1048-1055 | a store limit with room for both failures and nothing else does not let both be reported |
| Promotion.FlushStores | embers/mcp/lobby_surface.py:198-209 | each report that was counted is stored under its id |
| Promotion.ClosesOnce | embers/lobby/store.py:235-258 | a session that closed a board cannot close it again, so reports that failed stay unsent |
| Codec.BackendsAgree | embers/core/integrity.py:28-44 | the native form is the fallback form where all integers fit 64 bits, and refused elsewhere |
| Codec.SealableIff | embers/core/integrity.py:28-44 | a value can be sealed exactly when no float in it is a NaN or an infinity and all keys are text, and natively only when all integers fit 64 bits |
| Codec.BuildKeepsFields | rust/ember_core/src/lib.rs:970-977 | a dictionary built item by item has distinct keys and the fields of its items |
| Codec.FileKeepsCanonical | rust/ember_core/src/lib.rs:792-982 | a sealed value written as MessagePack and decoded has the form it was sealed with |
| Codec.RecoveredFileIsJson | rust/ember_core/src/lib.rs:918-982 | JSON turned into a record file and decoded has itself as its canonical form |
| Codec.DumpIsCanonical | embers/storage/store.py:196-203 | the text of a sealed value holds its canonical tree, and bytes have no text |
| Codec.TwiceIff | rust/ember_core/src/lib.rs:653-709 | reading a tree twice gives it back exactly when each of its floats comes back |
| Codec.ReplayKeepsCanonicalIff | rust/ember_core/src/lib.rs:689-730 | a sealed record replayed from the log has its form exactly when it holds no bytes and its floats survive both readings |
| Codec.ExactReadingKeepsCanonical | rust/ember_core/src/lib.rs:689-730 | with exact float reading, exactly the records without bytes survive the log |
| Codec.OneFormOneContent | embers/core/integrity.py:28-44 | without bytes, two sealable values have one form exactly when they differ in nothing but key order and list against tuple |
| Codec.BytesLookLikeADict | embers/core/integrity.py:36-37 | a byte string and a dictionary with its base64 text have one form |

## Left out

- Files, fsync, hard links and renames: only their contract (durable append, atomic publish of a new file, atomic replace).
- Record content in `Store` and `Versions` is opaque text; `Codec` models it as a tree.
- A log line whose `wal_id` is not a string: the native scan files it under the empty id, and recovery then counts it as failed; the fallback keeps it under its own id. Ids are strings here.
- Text of floats and strings in canonical bytes, MessagePack bytes, and the base64 alphabet; a JSON object is a map here, so the order in which its names are written is not modelled. Dictionary keys are text or integers.
- Versions.WriteEngine.Write: takes first versions as the caller gives them; runs start records with version 1 and no predecessor.
- Versions.LineagesStayLinear: covers runs without a crash between record and sidecar, because the source leaves such a child unlinked; UpdateKeepsLinearIff says exactly when.
- Writers.InterleavedIsSequential: covers runs in which no process dies in the middle of a write, for the same reason.
- The answer of the storage limits to a record is a parameter in `Versions` and `Writers`; `Promotion` computes it from sizes.
- MasterIndex.NamedParentsAreForest: takes runs in which no record has the empty id, because ids are drawn at random; so does ReachableIndexIsForest.
- The version tree and the supersession chain of the master index, its tags, authors, agents and sessions, and the timeline: lookups that would add only easy members.
- Graph.GraphState.Path: takes one read of the graph file as its state; the file and its lock are not modelled.
- Broker.LobbyEventBroker.Publish: takes publishes one at a time, because the store that publishes holds its lock; a subscriber whose event loop is already closed is not modelled.
- FullText.FullTextIndex.Search: leaves the order of equally scored documents open, which in the source is the order of insertion.
- Splitting a text into tokens and collecting text from nested data: tokens are given.
- Importance, stored episodes and episode ids.
- Episode objects are values here, so sharing one between two lists is not captured.
- Lobby.LobbyStore.Open: takes ids that are new and not empty, because the source draws them at random; room and post kinds are taken as parsed, texts as trimmed.
- Presence staleness, public snapshots and the events a lobby emits.
- Namespaces' access control, the agent registry, provenance checks and configuration loading: settled by reading one branch.
- Conflict.EmberDB.Update: follows supersession by a map from each version to its conflict, because Versions already proves that walk.
- Conflict.EmberDB.Map: takes calls one at a time whose writes all go through; a refused or crashed write is not modelled there.
- Copies of proposals and sessions carry no ids of their own in `Promotion`: a contradiction edge to a later copy is not counted, and only the newest copy can be deprecated.
- Proposal, conflict and session records rewritten by hand with `update`.
- Store.Next: a checkpoint, which takes no store lock, comes between two steps; an append between its scan and its truncation is not modelled.
- Promotion.MatchedIff: takes promotions one at a time, because promotion does not run under the store lock and two at once can both pass its pending check.
- Evidence attached to a memory later, the other lists of a session, and failures promoted on their own.
- Decay, consolidation, reflection, vector search, recall scores, HTTP and MCP transport.
