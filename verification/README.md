# deve-sub: verified models of its hard parts

deve-sub collects proxy nodes from subscriptions, keeps them in a pool and generates client
configurations. This project models, in Dafny, the parts of it whose correctness is an argument
over whole runs, whole graphs or whole inputs, and proves those arguments.

| files | what they model |
|---|---|
| `CycleSearch`, `StackSearch`, `SearchOrder`, `Sorting` | the three-colour cycle search: the recursive form, the explicit-stack form proved equal to it, and which cycle it reports |
| `NodeChains`, `ChainPool` | the chain graph, splicing an update into it, and the pool of stored chains over every run of updates |
| `BackupArchive`, `BackupManifest` | the backup archive reader and writer, the manifest and its size, and the row-count verification |
| `RestoreProtocol`, `RestoreRuns`, `LockExclusion`, `RestoreInvariant`, `RestoreLogs`, `RestoreStaging`, `RestoreSafety` | restore, serve and commands without the lock on any number of database paths, as interleaved, crashing processes over directory names, inodes and advisory locks |
| `JobSupervisor`, `SupervisorRuns` | the bounded set of background tasks, method by method and over every interleaving |
| `RefreshJobs` | refresh jobs, their cancellation guards and cancel requests |
| `TrafficDeltas`, `TrafficRuns` | turning resettable counters into recorded traffic, in one sync and over whole histories |
| `ImportMerge` | splitting an import into nodes and failures, and merging the outcomes back |
| `Compatibility` | the mutually recursive profile compatibility check |
| `QuicEndpoint` | the double-checked construction of the QUIC endpoint under any number of threads |
| `ClientCache` | the cache of HTTP clients pinned to validated addresses |

Protocols are state machines: a `State`, a datatype of steps, `Enabled` and `Do`, and a `Run` that is any
sequence of enabled steps from an initial state. Each main theorem is about every state of every run.
Code that updates variables or fields is a method or a class, proved against a function of its inputs
or its old state.

## What does not hold as promised

Each of these is shown by an input or a run, with the exact condition under which the promise does hold.

- A panel that lists a server id more than once makes a sync record every listing against the same old reading:
  `TrafficDeltas.RepeatedListingDoubleCounts`. The amount is safe exactly when these deltas add up to no more than
  the deltas from one listing to the next: `TrafficDeltas.NoDoubleCountExactlyWhen`. For equal readings that means
  listed at most once, or nothing new: `TrafficDeltas.EqualListingsExactlyWhen`.
- Pointing a source at another panel keeps the stored snapshot, so a server of the new panel with an id from the
  snapshot is recorded with traffic nobody had: `TrafficRuns.OverCountingRun`. A server's account is safe from a
  repoint exactly when the server is not in the snapshot at that moment: `TrafficRuns.RepointSafeExactlyWhen`.
- Komari's new snapshot depends on the order in which fetches finish exactly when two results for one server
  disagree: `TrafficDeltas.SnapshotOrderFreeExactlyWhen`.
- The lock does not exclude when one configured database path is another one's lock file:
  `LockExclusion.ClashBreaksExclusion`, `LockExclusion.ExclusionExactly`.
- A power failure can keep the rename of a restore and lose the rollback link: `RestoreSafety.RollbackNeedsDirSync`.
  After the rename the rollback file survives every power failure exactly when its link is on disk, which the
  directory sync ensures: `RestoreSafety.RollbackSurvivesExactlyWhen`. A mere crash never loses it.
- A restore killed between its rename and the removal of the old log leaves that log beside the new database, and
  SQLite replays it: `RestoreSafety.OldLogShows`. What is opened afterwards is the restored database exactly when the
  restore got to remove the log or had found no writes in it: `RestoreSafety.OpensNewExactlyWhen`. The removed log is
  not kept either, so the rollback file alone is the old database exactly when the log held no writes:
  `RestoreSafety.RollbackIsOldExactlyWhen`. The probe before the lock usually folds the log into the database; the
  run has a server start and be killed between the two.
- Some commands write the database without taking its lock, so a restore that holds the lock can find the old
  contents changed: `RestoreSafety.ToolWriteShows`. Contents are guaranteed as long as no such command wrote the path
  since the lock was taken; the directory entries, and the completeness of what the rename puts in place, are
  guaranteed in any case: `RestoreSafety.CrashSafety`, `RestoreSafety.RenameIsComplete`.

Two further conditions are stated although no caller in the program breaks them. The subtraction in the import merge
underflows on positions that do not ascend (`ImportMerge.UnderflowExactlyWhen`), and the splitter only produces
ascending ones. Excluding ShadowTLS as an inner protocol does not bound the depth of the compatibility check when a
configuration does not match its declared protocol (`Compatibility.NestingIsUnbounded`); the parsers set a matching
protocol, and the check terminates at any depth.

## Model

| member | source | states |
|---|---|---|
| `CycleSearch.TopologicalOrderMeansAcyclic` | crates/deve-sub-domain/src/graph.rs:14-61 | a list of vertices in which every edge points back rules out every closed walk |
| `CycleSearch.CloseCycleIsSimple` | crates/deve-sub-domain/src/graph.rs:47-55 | cutting the path at the gray vertex and closing it gives a walk of real edges with equal ends and no other repetition |
| `CycleSearch.VisitCorrect` | crates/deve-sub-domain/src/graph.rs:111-135 | one recursive visit finds a real simple cycle, or keeps the colour and path invariant and settles the vertex |
| `CycleSearch.RecursiveSearchCorrect` | crates/deve-sub-domain/src/graph.rs:105-137 | the recursive search finds a path exactly when the graph has a cycle; the path is a simple cycle; otherwise the finish order is a topological order of all vertices |
| `StackSearch.Step` | crates/deve-sub-domain/src/graph.rs:36-58 | one turn of the inner loop keeps the work left equal to what the recursive search would still do, and spends one unit of it |
| `StackSearch.SearchFrom` | crates/deve-sub-domain/src/graph.rs:30-59 | the explicit stack started at a root ends as the recursive visit of that root does, with its colours |
| `StackSearch.SearchAll` | crates/deve-sub-domain/src/graph.rs:30-60 | the loop over the sorted roots gives the recursive outcome, in at most vertices plus edges turns |
| `StackSearch.FirstCycle` | crates/deve-sub-domain/src/graph.rs:14-61 | returns exactly the recursive search's path; a simple cycle, or `None` with a topological order, exactly when there is no cycle; the cycle is the prescribed one: from the least vertex that leads into a cycle, always to the least neighbour that does, cut where a vertex comes back; at most V + E turns, and exactly V + E when acyclic |
| `SearchOrder.RecursiveChoice` | crates/deve-sub-domain/src/graph.rs:18-55 | the search reports the prescribed cycle, stated by edges, walks and the order alone |
| `SearchOrder.PrescribedIsUnique` | crates/deve-sub-domain/src/graph.rs:18-29 | edges and order prescribe one cycle at most |
| `SearchOrder.FirstCycleDependsOnEdgesOnly` | crates/deve-sub-domain/src/graph.rs:18-29 | two maps with the same edges give the same path, whatever the iteration order, the order and repetition in neighbour lists, or keys without neighbours |
| `NodeChains.ValidateStructure` | crates/deve-sub-domain/src/node.rs:136-150 | accepts exactly non-empty chains without repetition and without the node itself, and names the first repeated id |
| `NodeChains.FromChains` | crates/deve-sub-domain/src/node_chain.rs:88-97 | the map built by the loop is the graph of the rows |
| `NodeChains.ChainGraphEdges` | crates/deve-sub-domain/src/node_chain.rs:88-97 | an edge is there exactly when some row with a chain has it |
| `NodeChains.DetectCycle` | crates/deve-sub-domain/src/node_chain.rs:126-130 | in whatever order the map is iterated, `None` exactly for acyclic graphs; otherwise the cycle reached from the lowest id that leads into one, always taking the lowest next id that does, and cut where an id comes back |
| `NodeChains.DetectedCycleMeaning` | crates/deve-sub-domain/src/node_chain.rs:126-130 | `None` exactly for acyclic graphs, otherwise a simple cycle of the graph, the one with the lowest ids in that sense |
| `NodeChains.ValidateUpdate` | crates/deve-sub-domain/src/node_chain.rs:107-121 | the verdict is the search's on the stored graph with the chain spliced in |
| `NodeChains.SpliceAt` | crates/deve-sub-domain/src/node_chain.rs:112-119 | splicing replaces the node's first entry, or appends one, and keeps every other entry |
| `NodeChains.SplicedEdges` | crates/deve-sub-domain/src/node_chain.rs:107-121 | splicing changes only the updated node's outgoing edges, which become exactly the new chain |
| `NodeChains.RejectionBlamesUpdate` | crates/deve-sub-domain/src/node_chain.rs:107-130 | over an acyclic stored graph every reported cycle runs through the updated node |
| `NodeChains.AcceptedExactlyWhen` | crates/deve-sub-domain/src/node_chain.rs:107-130 | over an acyclic stored graph an update is accepted exactly when no chain member reaches the node |
| `ChainPool.EveryRunStaysGood` | crates/deve-sub-storage-sqlite/src/node_pool_repository/chain.rs:6-69 | from an empty pool, every run of inserts, clears and updates keeps the graph acyclic and every chain non-empty, duplicate-free, free of its own node and made of existing nodes |
| `ChainPool.SplicedIsUpdate` | crates/deve-sub-storage-sqlite/src/node_pool_repository/chain.rs:38-57 | whatever order the rows are read in, the verdict and its path are those on the pool with that one chain replaced |
| `ChainPool.VerdictInGoodPool` | crates/deve-sub-storage-sqlite/src/node_pool_repository/chain.rs:55-57 | in a reachable pool the verdict is: rejected exactly when some chain member reaches the node |
| `ChainPool.StoredExactlyWhen` | crates/deve-sub-storage-sqlite/src/node_pool_repository/chain.rs:24-57 | an update is stored exactly when the node and all members exist, the shape is right and no member reaches the node; otherwise the pool is unchanged, and a cycle error names the node and reports the lowest-id cycle |
| `ChainPool.RefusedBecause` | crates/deve-sub-storage-sqlite/src/node_pool_repository/chain.rs:11-57 | which error a refused update gets, exactly when: no such node, empty, itself, a repetition, the first member that does not exist, and otherwise a cycle |
| `ChainPool.ClearRemoves` | crates/deve-sub-storage-sqlite/src/node_pool_repository/chain.rs:18-69 | clearing a chain succeeds exactly for an existing node and removes exactly its outgoing edges |
| `ChainPool.ChainStore.constructor` | crates/deve-sub-storage-sqlite/src/node_pool_repository/chain.rs:6-10 | an empty store is a good pool |
| `ChainPool.ChainStore.ReadEntries` | crates/deve-sub-storage-sqlite/src/node_pool_repository/chain.rs:38-54 | reads one entry per stored chain |
| `ChainPool.ChainStore.CheckChain` | crates/deve-sub-storage-sqlite/src/node_pool_repository/chain.rs:18-58 | the checks in their order, and which error each failure gives |
| `ChainPool.ChainStore.SetChainChecked` | crates/deve-sub-storage-sqlite/src/node_pool_repository/chain.rs:6-69 | the transaction is one step of the pool: it stores the chain or leaves everything as it was |
| `BackupArchive.ExtractArchive` | apps/cli/src/backup.rs:613-694 | the loop over entries accepts exactly the acceptable archives and returns the manifest's and the snapshot's own contents |
| `BackupArchive.ExtractedExactly` | apps/cli/src/backup.rs:613-694 | accepts exactly the archives with one regular parseable manifest within the bound, one regular snapshot, and no duplicate or non-regular known name, and returns those two contents |
| `BackupArchive.RefusedFor` | apps/cli/src/backup.rs:625-694 | a refused archive gets the error of its first offending entry: unreadable, not a regular file, repeated, manifest over 1048576 bytes, manifest unparseable; without one, a missing manifest comes before a missing snapshot |
| `BackupArchive.OneFirstOffence` | apps/cli/src/backup.rs:625-694 | an archive has at most one first offence, so the error is determined |
| `BackupArchive.SkippedEntryIrrelevant` | apps/cli/src/backup.rs:630-685 | inserting an entry with an unknown or unsafe name anywhere changes nothing |
| `BackupArchive.KnownNamesAreSafe` | apps/cli/src/backup.rs:630-649 | the known names themselves pass the path filter |
| `BackupArchive.RoundTrip` | apps/cli/src/backup.rs:526-563 | reading what was written gives back manifest and snapshot exactly when the manifest is within the bound and parses |
| `BackupArchive.VerifyRestore` | apps/cli/src/backup.rs:696-716 | succeeds exactly when every expected table has its count, a missing table counting zero, and otherwise lists the mismatching tables in the manifest's order |
| `BackupArchive.MismatchingExactly` | apps/cli/src/backup.rs:699-705 | that list holds exactly the tables with another count, a missing table counting as empty |
| `BackupManifest.CollectRowCounts` | apps/cli/src/backup_database.rs:18-38 | the loop yields, in the order of the list, exactly the tables whose size can be queried, with their sizes |
| `BackupManifest.OwnCountsVerify` | apps/cli/src/backup.rs:696-716 | the counts a backup recorded pass the verification of the same database counted the same way |
| `BackupManifest.ManifestFits` | apps/cli/src/backup.rs:45-51 | whatever the database holds, the manifest's text is within the reader's bound |
| `BackupManifest.EveryBackupReadsBack` | apps/cli/src/backup.rs:249-277 | every archive the backup command writes is read back to the same manifest and snapshot |
| `DbNames.LastLetters` | apps/cli/src/db_lock.rs:117-121 | names restore renames, links or deletes do not end as lock files do |
| `DbNames.RollbackIsBeside` | apps/cli/src/backup.rs:472-478 | the rollback file is in the database's own directory, so the final directory sync covers it |
| `DbNames.SuffixIsBeside` | apps/cli/src/backup.rs:776-781 | the log names are in the database's own directory, so the directory sync covers them |
| `RestoreProtocol.NamesFrame` | apps/cli/src/backup.rs:403-502 | a step changes no directory entry but those it names |
| `RestoreProtocol.DiskFrame` | apps/cli/src/backup.rs:502 | an entry a step does not name changes on disk only by a directory sync, to what processes see |
| `RestoreRuns.GoesThrough` | apps/cli/src/backup.rs:403-497 | from any state in which a restore holds its lock, an undisturbed restore of a good snapshot reaches its rename |
| `LockExclusion.SidecarUntouched` | apps/cli/src/backup.rs:469-501 | no name a restore or server works on is a lock file, given no configured path is one |
| `LockExclusion.StepKeepsInvariant` | apps/cli/src/db_lock.rs:80-121 | every step of every process keeps each holder's open file, its lock and the lock file's name together |
| `LockExclusion.RunKeepsInvariant` | apps/cli/src/db_lock.rs:80-121 | so they stay together in every state of every run, with crashes and power failures |
| `LockExclusion.ClashBreaksExclusion` | apps/cli/src/backup.rs:397-398 | a run in which two servers hold the same database, when a configured path is another's lock file |
| `LockExclusion.ExclusionExactly` | apps/cli/src/serve.rs:83-86 | at most one process holds a database in every state of every run, exactly when no configured path is another's lock file |
| `RestoreInvariant.CheckpointSafe` | apps/cli/src/backup.rs:449-458 | folding the staging log loses no migrated write |
| `RestoreInvariant.TrimSafe` | apps/cli/src/backup.rs:469-470 | removing the staging log after the checkpoint loses no migrated write |
| `RestoreInvariant.RenameSafe` | apps/cli/src/backup.rs:491-497 | the rename binds the path to the complete new database and keeps the rollback name |
| `RestoreInvariant.StepKeepsApart` | apps/cli/src/backup.rs:403-502 | no step lets a file belong to two configured paths |
| `RestoreInvariant.StepKeepsSafety` | apps/cli/src/backup.rs:403-502 | every step of every process, on whatever configured path, keeps what each restore phase relies on |
| `RestoreLogs.StepKeepsLogs` | apps/cli/src/backup.rs:499-502 | every step keeps the old log as it was found until it is removed, unbound from then on, and unbound on disk from the directory sync on, unless a command wrote the path without the lock |
| `RestoreLogs.RunKeepsLogs` | apps/cli/src/backup.rs:499-502 | so it is in every state of every run |
| `RestoreStaging.OthersLeaveStage` | apps/cli/src/backup.rs:408-415 | no process names a file of another's staging directory |
| `RestoreStaging.RunKeepsStages` | apps/cli/src/backup.rs:411-497 | in every state of every run each restore's staging directory is its own and holds what its phase says: the file until the rename, the log from its creation until it is trimmed, nothing else |
| `RestoreStaging.NothingLeftBehind` | apps/cli/src/backup.rs:408-415 | in every run without kills and power failures, a name that was not there at the start belongs to a configured path or to the staging directory of a restore that still runs |
| `RestoreSafety.CrashSafety` | apps/cli/src/backup.rs:403-502 | wherever a restore stops, its path is bound to the old file before the rename and to the new one after it, and from the link on the rollback name to the old file; their contents are untouched, respectively verified and migrated, and the old log is untouched until it is removed and then gone, unless a command wrote the path without the lock; other paths may be served and restored meanwhile |
| `RestoreSafety.RenameIsComplete` | apps/cli/src/backup.rs:491-497 | the rename puts the verified, fully migrated database in place, whoever wrote the path before |
| `RestoreSafety.ToolWriteShows` | apps/cli/src/commands.rs:255-264 | a run in which a command without the lock changes the old contents under a restore that holds it |
| `RestoreSafety.PowerLossSafety` | apps/cli/src/backup.rs:460-502 | unless a command wrote the path without the lock, a power failure leaves the old database or the complete new one; after the directory sync the new one, the rollback file and no old log, which before its removal stays if it was on disk |
| `RestoreSafety.LockNotesDurable` | apps/cli/src/backup.rs:397-398 | the assumptions of that theorem, that the old database and its log were on disk when the lock was taken, hold exactly when every power failure at that moment would leave them |
| `RestoreSafety.OpensNewExactlyWhen` | apps/cli/src/backup.rs:408-410 | with the replay of a same-named log, a restore stopped before the rename leaves the old database to be opened, and one stopped after it the restored one exactly when the old log was removed or held no writes |
| `RestoreSafety.RollbackIsOldExactlyWhen` | apps/cli/src/backup.rs:479-501 | after the rename the rollback file alone is the old database exactly when its log held no writes |
| `RestoreSafety.OldLogShows` | apps/cli/src/backup.rs:491-501 | a run in which a kill after the rename leaves the old log beside the new database, so that something else is opened |
| `RestoreSafety.RollbackNeedsDirSync` | apps/cli/src/backup.rs:479-502 | a run in which a power failure keeps the rename and loses the rollback link |
| `RestoreSafety.RollbackSurvivesExactlyWhen` | apps/cli/src/backup.rs:479-502 | after the rename every power failure keeps the rollback file exactly when its link is on disk |
| `RestoreSafety.RollbackStays` | apps/cli/src/backup.rs:479-487 | in every run only a power failure removes or rebinds a rollback name, also one left by a killed restore |
| `RestoreSafety.RollbackRefuses` | apps/cli/src/backup.rs:479-487 | and as long as it is bound no restore of an existing database gets past its link |
| `RestoreSafety.LockIsNeverOrphaned` | apps/cli/src/db_lock.rs:92-108 | a waiting process can take its lock exactly when no live process holds that path |
| `JobSupervisor.JobSupervisor.constructor` | crates/deve-sub-application/src/job_supervisor.rs:43-52 | starts open, empty, within the bound and with zero counts |
| `JobSupervisor.JobSupervisor.Record` | crates/deve-sub-application/src/job_supervisor.rs:72-83 | a panic or a cancellation adds one to its own count and nothing else |
| `JobSupervisor.JobSupervisor.DrainFinished` | crates/deve-sub-application/src/job_supervisor.rs:85-92 | joining finished tasks one by one leaves exactly the running ones and counts every ending once |
| `JobSupervisor.JobSupervisor.Spawn` | crates/deve-sub-application/src/job_supervisor.rs:56-70 | admits exactly when open and fewer than 64 tasks are still running; joins what has ended either way; keeps the bound |
| `JobSupervisor.JobSupervisor.ReapFinished` | crates/deve-sub-application/src/job_supervisor.rs:95-98 | drains and reports how many tasks were joined |
| `JobSupervisor.JobSupervisor.Close` | crates/deve-sub-application/src/job_supervisor.rs:101-103 | only closes |
| `JobSupervisor.JobSupervisor.TakeTasks` | crates/deve-sub-application/src/job_supervisor.rs:111-118 | shutdown closes and takes the whole set in one critical section |
| `JobSupervisor.JobSupervisor.Len` | crates/deve-sub-application/src/job_supervisor.rs:145-153 | counts running tasks and ended ones not yet joined, at most 64 in all |
| `SupervisorRuns.StepPlaces` | crates/deve-sub-application/src/job_supervisor.rs:56-143 | every step keeps each admitted task in exactly one place |
| `SupervisorRuns.EveryRunKeeps` | crates/deve-sub-application/src/job_supervisor.rs:56-143 | in every interleaving at most 64 tasks are tracked, each admitted task is in exactly one of six places, the counts are exact, and nothing is cancelled before a grace expired |
| `SupervisorRuns.AdmittedExactlyWhen` | crates/deve-sub-application/src/job_supervisor.rs:56-70 | in every state of every run a job is admitted exactly when admission is open and fewer than 64 tasks run |
| `SupervisorRuns.ClosedForGood` | crates/deve-sub-application/src/job_supervisor.rs:101-118 | nothing is admitted after close, and once shutdown took the set it stays empty for ever |
| `SupervisorRuns.ClosingEndsAdmission` | crates/deve-sub-application/src/job_supervisor.rs:101-118 | after a close or the start of a shutdown nothing is admitted any more, and the shutdown owns all tasks |
| `SupervisorRuns.FinalAccount` | crates/deve-sub-application/src/job_supervisor.rs:111-143 | when no set is left, admitted tasks are joined, panicked, cancelled or dropped, each once; without an expired grace none was cancelled |
| `SupervisorRuns.CountsAreTrue` | crates/deve-sub-application/src/job_supervisor.rs:72-92 | in every run each task is joined, counted as a panic or counted as a cancellation according to how it did end |
| `SupervisorRuns.ReapJoinsAll` | crates/deve-sub-application/src/job_supervisor.rs:85-98 | in every run reaping, and every attempt to spawn, joins all that has ended and nothing that still runs |
| `SupervisorRuns.EndingDecides` | crates/deve-sub-application/src/job_supervisor.rs:72-92 | in every run, from its end on a task is only where tasks that ended like that go: waiting to be joined as such, counted as such, or given up |
| `SupervisorRuns.ShutdownCanFinish` | crates/deve-sub-application/src/job_supervisor.rs:111-143 | from every state of every run a shutdown can run to its end and then accounts for every admitted task |
| `RefreshJobs.CancellationFlags.Register` | crates/deve-sub-application/src/cancellation_registration.rs:19-27 | adds a living guard; the map goes on holding exactly the living guards' jobs, each with its own flag |
| `RefreshJobs.CancellationFlags.Unregister` | crates/deve-sub-application/src/cancellation_registration.rs:30-37 | ends one guard; every other guard keeps its registration |
| `RefreshJobs.CancellationFlags.Find` | apps/server/src/source_refresh.rs:307-312 | finds the flag of the job's one living guard, and nothing exactly when there is none |
| `RefreshJobs.StepKeepsMap` | apps/server/src/source_refresh.rs:102-137 | every step keeps live ids unique, one registration per lease, and the map's keys equal to the jobs of existing futures |
| `RefreshJobs.MapMatchesThroughout` | apps/server/src/source_refresh.rs:102-137 | so it is in every state of every run, through completion, panic, abort, drop before the first poll and rejected admission |
| `RefreshJobs.RegisteredOnce` | apps/server/src/source_refresh.rs:102-107 | in every run a started job can be registered, and after that never again |
| `RefreshJobs.DropFrees` | crates/deve-sub-application/src/cancellation_registration.rs:30-37 | in every run a dropped future leaves its job without guard and flag, and every other future with its own |
| `RefreshJobs.SharedIdLosesFlag` | crates/deve-sub-application/src/cancellation_registration.rs:20-21 | a run in which a second registration of one job ends with a living guard that has no flag in the map |
| `RefreshJobs.MapReliableExactlyWhen` | crates/deve-sub-application/src/cancellation_registration.rs:20-21 | for callers that may break the rule, the map matches throughout a run exactly when live ids are unique throughout it |
| `RefreshJobs.RequestOutcome` | apps/server/src/source_refresh.rs:279-328 | from the moment it reads the row, at every later moment of every run, a request is where the row and then the living guards send it |
| `RefreshJobs.RowDecides` | apps/server/src/source_refresh.rs:279-305 | in every run a request is answered not found exactly when it read no row, and already finished exactly when the row it read was terminal |
| `RefreshJobs.CancelReachesWorker` | apps/server/src/source_refresh.rs:300-328 | in every run, a request that read a live row and has its answer read the flag map in between: it was accepted, with the future's own flag raised, exactly when a future of the job existed then, and told to retry exactly when none did |
| `RefreshJobs.UnavailableExactlyWhen` | apps/server/src/source_refresh.rs:307-322 | in every run, the temporary refusal is given exactly when no future of the job exists |
| `RefreshJobs.ShutdownReachesAll` | crates/deve-sub-application/src/source/scheduler.rs:186-198 | shutdown's signal raises the flag of every future that exists, one registered while stopping starts raised, and raised flags stay raised |
| `RefreshJobs.RaisedOnlyBy` | apps/server/src/source_refresh.rs:307-323 | in every run a flag is raised only by a request for its own job, by shutdown, or at birth while stopping |
| `RefreshJobs.CancelWritesNoRow` | apps/server/src/source_refresh.rs:300-328 | cancelling never writes a job row |
| `RefreshJobs.TerminalIsFinal` | crates/deve-sub-storage-sqlite/src/source_refresh_job_repository.rs:216-254 | a terminal status never changes |
| `RefreshJobs.RowWritten` | crates/deve-sub-storage-sqlite/src/source_refresh_job_repository.rs:216-254 | a row is written by its start, by a worker of that job, or as failed, and only while it is live |
| `RefreshJobs.FirstEndDecides` | crates/deve-sub-storage-sqlite/src/source_refresh_job_repository.rs:216-254 | in every run the first worker or sweep to end a live job decides its status for good |
| `RefreshJobs.CancelledOnlyIfSignalled` | crates/deve-sub-application/src/source/refresh.rs:130-142 | a job ends as cancelled only if a flag made for it was raised |
| `TrafficDeltas.DeltaNeverOverCounts` | crates/deve-sub-adapters/src/nezha_probe.rs:129-152 | for every history of traffic and resets between two readings, the delta is at most the traffic |
| `TrafficDeltas.DeltaIsLargestSafe` | crates/deve-sub-adapters/src/nezha_probe.rs:129-152 | and no larger amount is safe for all histories giving those readings |
| `TrafficDeltas.NezhaSamples` | crates/deve-sub-adapters/src/nezha_probe.rs:121-173 | the loop's samples and snapshot are those of the accounting: a sample for each listed known server that moved, traffic in as upload and traffic out as download, each measured from the last snapshot |
| `TrafficDeltas.KomariSamples` | crates/deve-sub-adapters/src/komari_probe.rs:204-257 | the same over the fetches that succeeded |
| `TrafficDeltas.DStatusSamples` | crates/deve-sub-adapters/src/dstatus_probe.rs:123-154 | the same with the one counter recorded as download and no upload |
| `TrafficDeltas.RecordedPerListing` | crates/deve-sub-adapters/src/nezha_probe.rs:121-173 | a sync records every listing of a known server against the same old reading, in each direction |
| `TrafficDeltas.NoDoubleCountExactlyWhen` | crates/deve-sub-adapters/src/nezha_probe.rs:121-173 | for any listings in the order they were read, the recorded amount is safe for all histories through them exactly when deltas from the old snapshot add up to no more than deltas from listing to listing |
| `TrafficDeltas.StepsAreLargestSafe` | crates/deve-sub-adapters/src/nezha_probe.rs:121-173 | the deltas from listing to listing are the largest amount that no history through them falls short of |
| `TrafficDeltas.EqualListingsExactlyWhen` | crates/deve-sub-adapters/src/nezha_probe.rs:121-173 | repeating one reading is safe exactly when it is listed at most once or brings nothing new |
| `TrafficDeltas.RepeatedListingDoubleCounts` | crates/deve-sub-adapters/src/nezha_probe.rs:121-173 | a server listed twice is recorded twice |
| `TrafficDeltas.CompletionOrderIrrelevant` | crates/deve-sub-adapters/src/komari_probe.rs:198-257 | permuting the readings permutes the samples, and keeps the snapshot when repeated readings agree |
| `TrafficDeltas.SnapshotOrderFreeExactlyWhen` | crates/deve-sub-adapters/src/komari_probe.rs:198-257 | the snapshot is the same for all orders exactly when repeated readings agree |
| `TrafficDeltas.KomariOrderIrrelevant` | crates/deve-sub-adapters/src/komari_probe.rs:198-257 | the order in which fetches finish, failures included, changes neither the samples as a multiset nor the snapshot |
| `TrafficRuns.StepKeeps` | crates/deve-sub-application/src/probe/commands.rs:324-362 | traffic, resets, missed and repeated listings, failures, edits, repoints, conflicting and committed syncs all keep records covered by true traffic |
| `TrafficRuns.StepsWithinTraffic` | crates/deve-sub-adapters/src/komari_probe.rs:204-257 | however often a server is read in one sync, going from reading to reading counts at most the traffic up to the last of them |
| `TrafficRuns.NeverOverCounts` | crates/deve-sub-adapters/src/nezha_probe.rs:121-173 | in every history what is recorded per server and direction is at most the true traffic since its first committed sighting, unless a commit's repeated listings of it add up to more than their steps or it was in the snapshot at a repoint |
| `TrafficRuns.NothingLostWhenSteady` | crates/deve-sub-adapters/src/probe_registry.rs:78-84 | for such a server, never reset and in every committed sync, records equal last minus first reading, whatever syncs failed between |
| `TrafficRuns.StaleSyncNeverCommits` | crates/deve-sub-application/src/probe/commands.rs:324-362 | in every run a sync that read the row before it was rewritten neither commits nor notes its failure |
| `TrafficRuns.RepointOverCounts` | crates/deve-sub-application/src/probe/commands.rs:130-149 | after any run, some panel reusing the id of a server in the snapshot makes the next sync record traffic nobody had |
| `TrafficRuns.OverCountingRun` | crates/deve-sub-application/src/probe/commands.rs:130-149 | a whole run without traffic that ends with traffic on record |
| `TrafficRuns.RepointSafeExactlyWhen` | crates/deve-sub-application/src/probe/commands.rs:130-149 | after any run, every continuation by one repoint keeps a server's account within its traffic exactly when the server is not in the snapshot |
| `ImportMerge.SplitEntries` | crates/deve-sub-application/src/source/parse.rs:120-145 | the loop's nodes are exactly those of the entries that have one, in order; the failed lines and their positions exactly those of the others, in order |
| `ImportMerge.SplitShape` | crates/deve-sub-application/src/source/parse.rs:120-145 | the same of every prefix of the entries, every entry being on one side |
| `ImportMerge.OwnNode` | crates/deve-sub-application/src/source/parse.rs:120-145 | an entry's node is handed to storage right after those of the entries before it |
| `ImportMerge.MergeOutcomes` | apps/server/src/nodes.rs:277-290 | the loop's result is the specified merge, and ascending positions never underflow |
| `ImportMerge.NeverUnderflows` | apps/server/src/nodes.rs:285-289 | ascending positions never underflow, however few outcomes were stored |
| `ImportMerge.UnderflowExactlyWhen` | apps/server/src/nodes.rs:285-289 | for positions the stored outcomes can reach, as in every split, the loop gets through exactly when the positions ascend |
| `ImportMerge.MergeUndoesSplit` | apps/server/src/nodes.rs:277-290 | if storage's k-th outcome answers the k-th node it was given, the merged list has at every entry its own failure or the answer to its own node |
| `ImportMerge.StoredInOrder` | apps/server/src/nodes.rs:277-290 | no stored outcome is lost, repeated or reordered: each stands at the line of its node |
| `ImportMerge.InPlaceAt` | apps/server/src/nodes.rs:283-290 | each failure stands at its own position and each stored outcome, in order and once, at its entry's |
| `Compatibility.AcceptedExactly` | crates/deve-sub-compatibility/src/restrictions.rs:5-108 | a profile other than JSON accepts a node exactly when every ShadowTLS level meets a flat condition |
| `Compatibility.AcceptsUnfolded` | crates/deve-sub-compatibility/src/lib.rs:333-397 | acceptance is the conjunction of the checks, in any order |
| `Compatibility.MatrixTransposed` | crates/deve-sub-compatibility/src/lib.rs:112-325 | the matrix read by protocol and by transport, and what can be wrapped, read by inner protocol |
| `Compatibility.SnellExactly` | crates/deve-sub-compatibility/src/restrictions.rs:13-61 | which Snell options each profile can express |
| `Compatibility.WireGuardExactly` | crates/deve-sub-compatibility/src/restrictions.rs:62-77 | sing-box takes WireGuard without DNS and with whole-second keepalives that fit 16 bits |
| `Compatibility.JsonExactly` | crates/deve-sub-compatibility/src/lib.rs:289-325 | JSON accepts exactly the typed nodes of the listed protocols, with any transport |
| `Compatibility.NeverPanics` | crates/deve-sub-compatibility/src/lib.rs:376-391 | the unreachable branch is never reached, for any node, capability or depth |
| `Compatibility.AcceptedInside` | crates/deve-sub-compatibility/src/restrictions.rs:78-107 | every level inside an accepted node is accepted, typed and of a wrappable protocol |
| `Compatibility.LevelsShape` | crates/deve-sub-compatibility/src/restrictions.rs:95-107 | an inner level has the wrapped protocol and configuration, no TLS, and the outer node's transport, UDP flag and extras |
| `Compatibility.OutermostFailureDecides` | crates/deve-sub-compatibility/src/restrictions.rs:101-107 | the verdict, with its reason, is that of the outermost failing level |
| `Compatibility.ReasonIsTrue` | crates/deve-sub-compatibility/src/lib.rs:333-397 | the reason of a rejection is true of the outermost level that fails; protocol, configuration and transport are blamed first, in this order |
| `Compatibility.V2RayWithinXray` | crates/deve-sub-compatibility/src/lib.rs:183-230 | V2Ray accepts exactly what Xray accepts less WireGuard, three transports and Reality |
| `Compatibility.AnyWithinJson` | crates/deve-sub-compatibility/src/lib.rs:289-325 | what any profile accepts JSON accepts |
| `Compatibility.NestingIsUnbounded` | crates/deve-sub-compatibility/src/restrictions.rs:78-107 | for every depth a mismatched node is accepted with that many nested levels |
| `QuicEndpoint.StepKeeps` | crates/deve-sub-adapters/src/quic_probe.rs:116-151 | every step of every thread keeps the invariant and never changes a filled cell |
| `QuicEndpoint.AtMostOneBuilt` | crates/deve-sub-adapters/src/quic_probe.rs:29-37 | in every run at most one endpoint is ever built, and none while the cell is empty and nobody builds |
| `QuicEndpoint.NeverReplaced` | crates/deve-sub-adapters/src/quic_probe.rs:116-151 | once set, the endpoint stays |
| `QuicEndpoint.EveryCallerGetsIt` | crates/deve-sub-adapters/src/quic_probe.rs:116-151 | any two successful callers got the same endpoint, whenever they called |
| `QuicEndpoint.FilledMeansSuccess` | crates/deve-sub-adapters/src/quic_probe.rs:116-151 | in every run a call still under way when the cell is filled, its own build not having failed, returns what is in it |
| `QuicEndpoint.FailsOnlyByOwnBuild` | crates/deve-sub-adapters/src/quic_probe.rs:116-151 | in every run a call that returns nothing does so because its own build failed |
| `QuicEndpoint.OwnFailureIsReported` | crates/deve-sub-adapters/src/quic_probe.rs:116-151 | after a failed build of its own a call returns nothing |
| `QuicEndpoint.BuiltIsKept` | crates/deve-sub-adapters/src/quic_probe.rs:147-150 | setting never finds the cell taken, and the last read never finds it empty |
| `QuicEndpoint.OneBuilder` | crates/deve-sub-adapters/src/quic_probe.rs:120-130 | at most one thread is past taking the build mutex |
| `ClientCache.ClientCache.constructor` | crates/deve-sub-adapters/src/http_fetcher.rs:52-56 | the cache starts empty and valid |
| `ClientCache.ClientCache.ClientFor` | crates/deve-sub-adapters/src/http_fetcher.rs:240-283 | one call's client and new cache: for a host that is no address the client is pinned to exactly the given addresses, otherwise it is unpinned; it is then the host's entry; the call fails exactly when it neither hits nor builds; the cache stays valid |
| `ClientCache.RunKeepsValid` | crates/deve-sub-adapters/src/http_fetcher.rs:44-56 | over any requests the cache holds at most 64 hosts, each with a client built for that host and its recorded addresses |
| `ClientCache.AgreesWithRebuild` | crates/deve-sub-adapters/src/http_fetcher.rs:231-283 | in every run a request's client is pinned to exactly its own host and addresses, or unpinned for a host that is an address, which is what a fetcher without a cache would give it, up to the connection pool; it fails exactly when it neither hits nor builds |
| `ClientCache.DialsOnlyValidated` | crates/deve-sub-adapters/src/http_fetcher.rs:231-265 | whatever a lookup says at connection time, the client that answers a request, and every cached client for its host, connects exactly to the addresses validated for it, or to the address its host is |
| `ClientCache.AnswerOrigin` | crates/deve-sub-adapters/src/http_fetcher.rs:231-246 | the client was built in this run for the same host and the same addresses |
| `ClientCache.EntryStaysExactlyWhen` | crates/deve-sub-adapters/src/http_fetcher.rs:242-282 | an entry lasts exactly until the cache is cleared or its host is pinned anew |
| `ClientCache.PoolIsReused` | crates/deve-sub-adapters/src/http_fetcher.rs:231-246 | until then, equal requests share one connection pool |

## Left out

- RestoreSafety.CrashSafety: assumes that the names derived from different configured paths differ and that their files do at the start; partial writes inside one staging step are not modelled. SQLite's replay is read as appending the log's writes, which covers every log beside the file, also one whose checksums SQLite would reject.
- RestoreSafety.PowerLossSafety: the old database, and for the clauses on its log the log, is required to have been on disk when the lock was taken; contents that were never synced are arbitrary after a power failure, and so is what a command wrote without the lock.
- RestoreInvariant.CheckpointSafe: the checkpoint folds the whole log; a busy result, which the code does not inspect and one connection cannot cause, is not modelled.
- LockExclusion.ExclusionExactly: paths are compared as text; links, relative forms and case folding that make two texts one file are not modelled, and the necessity half assumes some snapshot passes verification.
- TrafficRuns.NeverOverCounts: a reading is the counter's value at that moment, counters do not wrap, and storage's signed 64-bit bound is not modelled. Traffic of a panel counts while the source points at it.
- TrafficDeltas.NoDoubleCountExactlyWhen: repeated listings are taken to have been read in the order listed.
- BackupManifest.EveryBackupReadsBack: that the JSON library reads its own manifest text back is assumed.
- RefreshJobs.CancelReachesWorker: whether admission succeeds and what the worker does are nondeterministic; the worker checking its flag is assumed from its body, which is not part of this model. Pending and running are one status, and a storage error while reading the row is not modelled.
- ClientCache.AgreesWithRebuild: whether building a client fails is a parameter of each request; which hosts are addresses is a parameter of the fetcher. That the validation of such a host yields that very address is the checker's part.
- Compatibility.AcceptedExactly: reasons carry the offending kind or field rather than its text, and only fields the checks read are in the node.
- ImportMerge.MergeUndoesSplit: storage returns one outcome per parsed node, in order; parsing itself is not part of this model.
- `check_server_not_running`, the busy-database probe before a restore takes the lock.
- Timeouts, polling intervals and the lock's holder line beyond its being written.
- Liveness: that a waiting process or thread is eventually served.
- HTTP handlers, response types, command-line parsing, configuration checks and the web interface: no invariant of their own.
- SQL, migrations, repositories and the refresh worker's body, which appear only as the steps they allow.
- Cryptography, TLS and QUIC handshakes, DNS resolution and address filtering.
- Byte encodings of tar, and parsing JSON: archive entries are values, the manifest's text is written out, and parsing is a partial function.
- Endpoint text parsing, group types of the compatibility matrix, and the template chain graph, whose search is the same one.
- `apps/cli/src/update.rs`, whose file swap is a weaker form of the restore argument.
