# isobox: verified model of its stateful core

A Dafny model of the parts of isobox that keep state: the per-tenant key/value store, the
session / kernel / volume lifecycle, the disk sweep, the volume manager's files, the warm container
pool, output capping, the kernel frame reader, shell quoting and the job queue. Each part is
modelled branch by branch after the Go code, and its properties are proved for all inputs, all runs
and all interleavings. `dafny verify dfyconfig.toml` checks the project.

## Layout

| files | part |
|---|---|
| `Options`, `Sums`, `ByteOrder` | optional values; sums and counts over maps; bbolt's key order and big-endian numbers |
| `TtlIndex`, `KvModel`, `KvSweep`, `KvPages` | the `_ttl` index keys, a tenant file's contents and transactions, the two-phase sweep, pagination |
| `KvStore`, `KvRuns` | the tenant file as a class updated in place; whole runs of it against a plain map with expiry |
| `Lifecycle`, `LifecycleIds`, `LifecycleSlots`, `LifecycleHolds`, `LifecycleEngine`, `LifecycleRuns` | creates, drops and reaps as threads over one shared state; one invariant per file; the results over all runs |
| `LifecycleDeletes` | deleting a volume while a create is attaching it |
| `LifecycleTiming` | the same machine with a clock and Reap's idle and lifetime test |
| `Handlers`, `Daemon` | one request's steps in a row: all or nothing, and Destroy as the inverse; the handlers as code that updates the fields in place, proved to follow those steps |
| `DiskSweep`, `Volumes`, `WarmPool` | eviction under the disk ceiling; volumes on disk with crashes; the warm pool |
| `CappedOutput`, `KernelExec`, `ShellQuote`, `JobQueue` | output capping, kernel steps, command quoting, the Valkey driver |

How concurrency is modelled: a lock-protected section, an atomic counter update, a transaction, a
broker command or a docker command is one step. State machines (`Lifecycle`, `Volumes`, `WarmPool`,
`JobQueue`, `KvRuns`) have a function `Step(state, action)` that does nothing when the action is not
enabled, and `Run` folds it over any sequence of actions, so a statement about `Run(actions)` is a
statement about every reachable state of every schedule. `Volumes` and `LifecycleTiming` have a clock
as well, which advances only as far as the stated longest durations allow. What the outside world decides (a container
starts or not, a publish fails, a session is idle) is a parameter of the action.

Clock readings are nanoseconds in [0, 2^63); expiries are unbounded sums of a clock reading and an
int64 duration. Ids (sessions, volumes, containers, step ids) are minted fresh. A record carries the
length of its encoding, and decoding succeeds.

## What the code does differently from its comments

- Put accepts any TTL. An expiry of 2^63 ns or more is stored as a negative int64, counts as due,
  and the sweep then drops the index entry of a live record (`KvSweep.EntryLostIff`,
  `KvSweep.WrappedExpiryLosesItsEntry`). Everything else holds for such records too.
- The index can drift from the data. A sweep's two transactions leave a stale entry exactly when a key
  that had expired at the first was rewritten, before the second, with another expiry that the sweep's
  clock has passed too (`KvSweep.DriftsExactlyWhen`, `KvSweep.InterleavedPutLeavesStaleEntry`). The next
  uninterrupted sweep removes whatever drift there is (`KvRuns.OneSweepHeals`).
- List reads its clock before its transaction, so a sweep with a later clock can commit in between;
  the page can then miss a key that was live at List's reading. Agreement with the plain map is certain
  if and only if no such sweep read a later clock (`KvRuns.ReadsAgreeExactlyWhen`); otherwise the page
  lies between the answers at the two readings (`KvRuns.StaleReadsAreBracketed`).
- SweepKernels can reap a kernel after NewKernel registered it and before Create inserts its
  session; the session is then listed and keeps its slot with no kernel to reap. Since a kernel is
  stamped before it is ready, a configuration admits this if and only if start-up may outlast
  IdleTTL or MaxLifetime (`LifecycleTiming.StrandedExactlyWhen`).
- Attach looks a volume up before it takes the lock, and Delete refuses only a volume that is held, so a
  session can end up with a deleted volume mounted (`LifecycleDeletes.DeleteRace`): exactly if some
  create had looked the volume up, and not yet taken the lock, when it was deleted
  (`LifecycleDeletes.DeletedIsMountedIff`).
- Delete of a volume is not crash-atomic: an interrupted RemoveAll that had not reached meta.json
  brings the volume back at restart (`Volumes.InterruptedDeleteReturnsIff`,
  `Volumes.DeletedVolumeReturns`).
- SweepOrphans walks without the lock: it can find a directory without metadata, and decide to remove
  it after Create has indexed it. It never does so if and only if the longest Create plus the longest
  look at one directory is below the grace period (`Volumes.GraceIsExact`).
- Prime ignores `closed`: containers it appends after Close are never removed
  (`WarmPool.NothingOutlivesClose`, `WarmPool.HastyCloseLeaks`).
- The kernel's capBuf flags truncation for an empty chunk that arrives at a full buffer, although
  nothing was cut (`KernelExec.CutShortIff`); the executor's pump never writes empty chunks. Once
  something was cut the sink misses the part of that chunk that was kept, unless the limit falls exactly
  between two chunks (`KernelExec.SinkIsBufferIff`).
  A fatal frame reports the stdout buffer as stderr, and a fatal frame is only honoured with the
  step's id.
- process acknowledges a job although its publish failed or its run panicked, which loses the job;
  its comment says the result is already on the list (`JobQueue.LostExactlyWhen`).
- A panic in a job is said not to kill the worker loop, but nothing recovers it: the deferred ack is
  sent and the process dies. The model covers the ack and lets the thread's death follow or not.

## Model

| member | source | states |
|---|---|---|
| `TtlIndex.RoundTripExact` | internal/memory/kv.go:302-324 | parseTTLKey undoes ttlKey if and only if the namespace is shorter than 65,536 bytes and the expiry fits int64 |
| `TtlIndex.ParseUndoesTtlKey` | internal/memory/kv.go:302-324 | namespace and key always come back, the expiry as its int64 bit pattern |
| `TtlIndex.TtlKeyInjective` | internal/memory/kv.go:297-310 | equal index entries mean the same namespace, key and expiry |
| `TtlIndex.TtlKeyOrder` | internal/memory/kv.go:297-310 | byte order of index entries is expiry order, whatever the names |
| `TtlIndex.StampOrder` | internal/memory/kv.go:297-310 | the first eight bytes decide the order of any two index keys, junk included |
| `TtlIndex.CollectDue` | internal/memory/kv.go:643-663 | the read phase returns, ascending, exactly the entries with only due entries up to themselves |
| `TtlIndex.DueIsCollected` | internal/memory/kv.go:649-659 | an entry stamped in [0, now] is collected whatever else the index holds |
| `TtlIndex.CollectsExactlyTheDue` | internal/memory/kv.go:649-659 | with stamps below 2^63, stopping at the first entry that is not due loses nothing and adds nothing |
| `TtlIndex.WrappedStampIsCollected` | internal/memory/kv.go:649-659 | a stamp of 2^63 or more is collected exactly when no entry before it is still to come |
| `KvModel.FootprintUpdate` | internal/memory/kv.go:259-261 | overwriting or adding a record changes the total by key length plus encoded length, less those of the record replaced |
| `KvModel.FootprintIs` | internal/memory/kv.go:259-261 | the total is the sum over all records of key length plus encoded length, zero for an empty file |
| `KvModel.NamespaceExactly` | internal/memory/kv.go:172-185 | valid namespaces are 1 to 128 bytes from the given ranges |
| `KvModel.PutKeepsInvariant` | internal/memory/kv.go:382-421 | a Put keeps the quotas, the index cover and, if it held, index exactness |
| `KvModel.DeleteKeepsInvariant` | internal/memory/kv.go:479-497 | so does a Delete |
| `KvModel.SweepKeepsInvariant` | internal/memory/kv.go:667-706 | so, but for exactness, does the sweep's write phase with any batch of due entries, on any contents |
| `KvModel.SurvivorKeepsEntry` | internal/memory/kv.go:685-693 | no record that survives the sweep loses its index entry |
| `KvModel.EntriesDisjoint` | internal/memory/kv.go:297-310 | two records never share an index entry |
| `KvStore.TenantFile.constructor` | internal/memory/kv.go:204-237 | a new tenant file is empty and satisfies the invariant |
| `KvStore.TenantFile.Put` | internal/memory/kv.go:350-422 | the refusal in the code's order of checks, or exactly this key now holding the value, content type, clock and clock plus TTL given; counters stay the true totals within quota; a refused Put changes nothing |
| `KvStore.TenantFile.PutTransaction` | internal/memory/kv.go:382-421 | the same for the transaction alone, through the rollback of the index deletion that precedes the quota check |
| `KvModel.PutCounts` | internal/memory/kv.go:402-409 | the adjusted counters are the totals after the write, so the check refuses exactly what would not fit |
| `KvModel.SweepCounts` | internal/memory/kv.go:668-706 | counters kept entry by entry are the totals after the whole sweep, a record with several entries in the batch counted once |
| `KvStore.TenantFile.Delete` | internal/memory/kv.go:468-498 | exactly this record and its entry go, the counters follow, a missing key is no error |
| `KvStore.TenantFile.Get` | internal/memory/kv.go:427-464 | finds the stored record exactly if it has no expiry or one after the clock reading, with its ETag, else says why not |
| `KvStore.TenantFile.SweepWrite` | internal/memory/kv.go:667-710 | the write phase on whatever the file now holds: specified contents, invariant, and a count equal to the fall in keyCount |
| `KvStore.TenantFile.SweepTransaction` | internal/memory/kv.go:667-706 | the loop over the batch does what the sweep is specified to do at once, counters included |
| `KvStore.TenantFile.DropDue` | internal/memory/kv.go:673-704 | one entry: goes in any case, its record only if it is expired |
| `KvStore.DropAllIsSwept` | internal/memory/kv.go:673-704 | dropping entries one after another equals the set-wise specification, duplicates of a record included |
| `KvStore.TenantFile.Sweep` | internal/memory/kv.go:631-711 | with nothing in between, leaves exactly the records live at its clock reading and counts the rest |
| `KvStore.TenantFile.List` | internal/memory/kv.go:505-564 | a page ascends and holds exactly the live matching keys after the cursor, up to `limit` of them (100 if out of 1 to 1000), with a cursor exactly when there are more; else which error |
| `KvSweep.ExpiredIsTargeted` | internal/memory/kv.go:649-659 | every record expired at the sweep's clock has an entry in its batch |
| `KvSweep.TwoPhaseSweep` | internal/memory/kv.go:631-711 | whatever commits between the phases: only expired records go, nothing else changes, survivors keep their entries, every snapshot-expired record left untouched goes |
| `KvSweep.AtomicSweepIsExact` | internal/memory/kv.go:631-711 | with nothing in between, exactly the live records and exactly their entries remain |
| `KvSweep.SweptExactIff` | internal/memory/kv.go:667-706 | for any batch and contents, the index is exact afterwards if and only if every expiring record goes together with its own entry or not at all |
| `KvSweep.DriftsExactlyWhen` | internal/memory/kv.go:631-711 | whatever commits in between, the index drifts exactly when a key expired in the snapshot was rewritten with another expiry that the sweep's clock has passed |
| `KvSweep.InterleavedPutLeavesStaleEntry` | internal/memory/kv.go:680-704 | such a rewrite, for any two expiries, and the stale entry it leaves |
| `KvSweep.EntryLostIff` | internal/memory/kv.go:649-659 | some sweep takes a live record's entry if and only if its expiry is 2^63 or later |
| `KvSweep.WrappedExpiryLosesItsEntry` | internal/memory/kv.go:369-371 | a concrete such record and sweep |
| `KvRuns.EveryRunIsGood` | internal/memory/kv.go:350-711 | in every run of Put, Delete and interleaved sweeps: quotas, counters, index cover, and contents agreeing with the last effective writes |
| `KvRuns.CountersAreExact` | internal/memory/kv.go:277-295 | in every run keyCount is the number of records, usedBytes the sum of their key and encoded lengths, at most 10,000 and 10 MiB, and no next operation makes the clamp in writeKVMeta fire |
| `KvRuns.PutAnswersExactly` | internal/memory/kv.go:48-54 | in every run, which of its five answers Put gives, in lengths and totals |
| `KvRuns.RefusedChangesNothing` | internal/memory/kv.go:397-409 | in every run a refused Put changes nothing |
| `KvRuns.PutThenRead` | internal/memory/kv.go:364-374 | after a Put that took effect, and until the key is written again, a reader at t finds it if and only if there is no TTL or t is before the Put's clock plus the TTL, and finds what was put |
| `KvRuns.DeletedIsGone` | internal/memory/kv.go:479-497 | after a Delete, and until the next Put, the key is not there |
| `KvRuns.NeverPutIsAbsent` | internal/memory/kv.go:427-464 | a key with no successful Put is not there |
| `KvRuns.ReadsIgnoreSweeps` | internal/memory/kv.go:427-464 | a read answers as if sweeps never ran: the last successful Put while unexpired and not deleted |
| `KvRuns.ListIgnoresSweeps` | internal/memory/kv.go:505-564 | so do the keys left to list |
| `KvRuns.ReadsAgreeExactlyWhen` | internal/memory/kv.go:520-523 | over all runs, a read at `now` is certain to answer as the plain map if and only if no sweep that may have run read a clock after `now` |
| `KvRuns.LateSweepHides` | internal/memory/kv.go:520-549 | the run that shows it: a record live at `now` is gone |
| `KvRuns.StaleReadsAreBracketed` | internal/memory/kv.go:520-523 | even then the answer lies between those at its own and the latest sweep's reading |
| `KvRuns.AtomicRunsKeepIndexExact` | internal/memory/kv.go:382-421 | over every run with atomic sweeps the index is exactly the expiring records |
| `KvRuns.EveryRunIsTidy` | internal/memory/kv.go:631-711 | over every run of the real sweep, each index entry names an expiring record or was passed by some sweep's clock |
| `KvRuns.OneSweepHeals` | internal/memory/kv.go:631-711 | from any interleaving, one uninterrupted sweep leaves exactly the live records and exactly their entries |
| `KvPages.SelectedExactly` | internal/memory/kv.go:525-549 | for any cursor, List chooses from exactly the live matching keys after it that no earlier key without the prefix stops it before |
| `KvPages.SelectedIsRemaining` | internal/memory/kv.go:530-543 | for cursors List hands out, stopping at the first key without the prefix misses nothing |
| `KvPages.PagesAscend` | internal/memory/kv.go:505-564 | keys over all pages ascend strictly, with no repeats, while the store changes |
| `KvPages.PagesAreListable` | internal/memory/kv.go:540-549 | every returned key was live and matching when its page was read |
| `KvPages.PaginationComplete` | internal/memory/kv.go:505-564 | a matching key live throughout is returned exactly once |
| `KvPages.PaginationOfFixedStore` | internal/memory/kv.go:505-564 | on a fixed store the pages are exactly the sorted live keys with the prefix |
| `KvPages.OnePageIsEnough` | internal/memory/kv.go:540-560 | a listing that fits the limit is one page of all of it with no cursor |
| `KvPages.PagesOfFixedStoreAreBounded` | internal/memory/kv.go:549-555 | and following cursors ends |
| `LifecycleRuns.EveryRunIsGood` | internal/session/manager.go:206-278 | the four lifecycle invariants hold in every interleaving of every run |
| `LifecycleIds.StepIds` | internal/session/manager.go:384-403 | what every step keeps about who may act on a session id; a claimed session is never listed again |
| `LifecycleSlots.StepSlots` | internal/session/manager.go:248-265 | every step keeps slots held and inUse equal to their owners |
| `LifecycleSlots.SlotsAreConserved` | internal/session/manager.go:389-408 | slots held are kernel sessions plus creates past Acquire plus drops that claimed and have not released |
| `LifecycleSlots.ReleaseNeverPanics` | internal/sched/semaphore.go:47-51 | whoever is about to release holds a slot, and inUse is not negative |
| `LifecycleRuns.SlotSafety` | internal/session/manager.go:384-413 | both, in every reachable state: no slot is released twice or lost |
| `LifecycleRuns.SlotsAtRest` | internal/sched/semaphore.go:37-51 | with nothing in flight, semaphore, inUse and kernel sessions agree |
| `LifecycleHolds.StepHolds` | internal/api/sessions.go:94-169 | every step keeps: who relies on a volume holds it, and every hold has someone to answer for it |
| `LifecycleRuns.VolumesComeAndGo` | internal/memory/volume.go:446-492 | the lock is granted unless another session holds it, and a volume is deleted exactly if nobody does |
| `LifecycleRuns.MountsAreExclusive` | internal/memory/volume.go:415-453 | no two listed sessions have one volume mounted read-write |
| `LifecycleRuns.HoldsAreAccountedFor` | internal/api/sessions.go:94-169 | a hold on an indexed volume belongs to a session that has or is about to get the mount, a create that will release it, or a drop before OnDrop |
| `LifecycleRuns.HoldsAtRest` | internal/session/manager.go:405-411 | with nothing in flight, holding an indexed volume is having it mounted: no hold leaks |
| `LifecycleEngine.StepEngine` | internal/session/kernel.go:458-517 | every step keeps the engine's kernels tied to sessions, creates or drops |
| `LifecycleRuns.KernelsAtRest` | internal/session/manager.go:494-532 | with nothing in flight, every resident kernel is a kernel session, and a kernel session lacks its kernel exactly when it was reaped before its insert |
| `LifecycleTiming.EveryRunIsTimely` | internal/session/kernel.go:253-271 | with start-ups no longer than IdleTTL and MaxLifetime, no reap ever catches a kernel whose create is under way |
| `LifecycleTiming.QuickStartsMatch` | internal/session/kernel.go:476-510 | then, at rest, resident kernels and kernel sessions are the same |
| `LifecycleTiming.StrandedExactlyWhen` | internal/session/kernel.go:494-500 | a configuration can leave a kernel session without its kernel if and only if start-up may outlast IdleTTL or MaxLifetime |
| `Handlers.KernelCreateIsAtomic` | internal/api/sessions.go:138-170 | an uninterrupted kernel create, whatever fails, ends with session, kernel, slot and hold complete or with everything as before |
| `Handlers.FsCreateIsAtomic` | internal/api/sessions.go:94-127 | so does a filesystem create, also when a sweep drops its session between Attach and SetMounts |
| `Handlers.DestroyPlays` | internal/session/manager.go:384-413 | from any state, an uninterrupted Destroy takes session, kernel, slot and all its holds, and touches nothing else |
| `Handlers.DestroyUndoesCreate` | internal/session/manager.go:384-413 | Destroy after either create restores the slots, the kernels, the holds and the sessions |
| `Daemon.Server.CreateKernelSession` | internal/api/sessions.go:138-170 | the handler's code follows the machine's steps, succeeds exactly if volume, slot and start-up allow, and otherwise changes no field |
| `Daemon.Server.KernelRequest` | internal/session/manager.go:239-270 | the rollback order itself: attach, slot, start, insert, each undone when a later one fails |
| `Daemon.Server.CreateFilesystemSession` | internal/api/sessions.go:94-127 | the same for filesystem sessions |
| `Daemon.Server.FilesystemRequest` | internal/api/sessions.go:94-127 | the rollback order itself, Destroy included |
| `Daemon.Server.Destroy` | internal/session/manager.go:384-413 | the code follows the machine's steps, gives back a slot that was held, and a second Destroy changes nothing |
| `Daemon.Server.ReleaseAll` | internal/memory/volume.go:469-477 | the loop clears exactly this session's holds on indexed volumes |
| `Daemon.Server.RemoveVolume` | internal/memory/volume.go:484-499 | at the moment a volume is deleted no listed session has it mounted |
| `LifecycleDeletes.DeletedIsMountedIff` | internal/memory/volume.go:415-453 | over all runs, some continuation of a successful Delete mounts the volume in a listed session if and only if a create had looked it up by then and not yet taken the lock |
| `LifecycleDeletes.DeleteRace` | internal/memory/volume.go:484-492 | such a run, at rest with a deleted volume mounted |
| `LifecycleDeletes.SlotsCanBeFreed` | internal/session/manager.go:396-408 | from every reachable state, whoever has the slots, some continuation gives one back |
| `DiskSweep.Manager.Sweep` | internal/session/manager.go:421-466 | survivors are within quota and not idle, their total recorded and within the ceiling; all that qualify survive if they fit, else the largest go and no smaller set would have been enough |
| `DiskSweep.Manager.DropOversize` | internal/session/manager.go:435-454 | the first phase keeps exactly the sessions within quota and not idle, kernel sessions idle or not, with their sum |
| `DiskSweep.Manager.DropLargest` | internal/session/manager.go:455-463 | the ceiling phase alone |
| `DiskSweep.SortBySizeDescending` | internal/session/manager.go:456 | the same sessions, largest first |
| `DiskSweep.TopFreesMost` | internal/session/manager.go:456-462 | no m sessions free more than the m largest |
| `DiskSweep.TopIsFewest` | internal/session/manager.go:455-463 | stopping at the first sufficient prefix drops as few as possible |
| `Volumes.Manager.Scan` | internal/memory/volume.go:190-228 | indexes exactly the directories whose metadata agrees with their path and removes everything else, strays included |
| `Volumes.EveryRunIsBase` | internal/memory/volume.go:232-297 | at any pace, over every run of Create, Delete, RemoveAll, the lock-free walk and crashes: a directory's metadata is absent or what its volume was created with |
| `Volumes.EveryRunIsSane` | internal/memory/volume.go:542-604 | with Create plus look below the grace period, over every run: index, Create in progress and completed Creates are untouched by SweepOrphans |
| `Volumes.CompletedCreatesSurvive` | internal/memory/volume.go:292-297 | a Create that returned and was not deleted stays indexed, and survives a crash at any point with its data |
| `Volumes.CreateIsCrashAtomic` | internal/memory/volume.go:271-291 | after a crash in Create the volume is indexed with its metadata or gone, at any pace; which one is decided by the rename |
| `Volumes.RestartAgreesWithDisk` | internal/memory/volume.go:190-228 | after restart index and disk agree, with original metadata, and a second restart changes nothing |
| `Volumes.DecideSpares` | internal/memory/volume.go:579-592 | the clock cannot have left a wanted directory behind by the grace period when the walk decides |
| `Volumes.IndexedIsOnDisk` | internal/memory/volume.go:542-604 | no indexed volume and no Create in progress is ever under removal, and an indexed volume is on disk with its metadata |
| `Volumes.InterruptedDeleteReturnsIff` | internal/memory/volume.go:484-504 | an interrupted removal comes back exactly if meta.json was still there |
| `Volumes.DeletedVolumeReturns` | internal/memory/volume.go:500-504 | a run in which a deleted volume, its data gone, is back in the index |
| `Volumes.OrphanGoesIff` | internal/memory/volume.go:569-592 | an unindexed directory without valid metadata comes under removal exactly if it has been quiet for 60 seconds |
| `Volumes.RemovalCompletes` | internal/memory/volume.go:500-504 | an uninterrupted removal leaves nothing of the directory |
| `Volumes.VanishedLeavesIndex` | internal/memory/volume.go:596-604 | exactly the indexed volumes without a data directory leave the index |
| `Volumes.KnownIsSpared` | internal/memory/volume.go:572-582 | the walk passes by volumes of its snapshot and directories with valid metadata |
| `Volumes.CreateCompletes` | internal/memory/volume.go:271-297 | a Create in which nothing fails ends indexed, with metadata and data on disk |
| `Volumes.FailureCleansUp` | internal/memory/volume.go:273-289 | a failing Create leaves the index alone and removes its directory, but for a failing MkdirAll |
| `Volumes.GraceIsExact` | internal/memory/volume.go:78-82 | over all runs SweepOrphans spares every indexed volume and every Create in progress if and only if the longest Create plus the longest look is below the grace period |
| `Volumes.SlowLookRemoves` | internal/memory/volume.go:575-592 | otherwise a run removes an indexed volume, for every such pair of durations |
| `WarmPool.EveryRunIsSane` | internal/executor/warmpool.go:136-258 | invariant over every interleaving of priming, take, retire, replenish and Close |
| `WarmPool.SingleUse` | internal/executor/warmpool.go:189-230 | no container is leased twice |
| `WarmPool.TakeLeases` | internal/executor/warmpool.go:220-229 | on an open pool with a ready container a request gets one that was never leased |
| `WarmPool.RetireReplenishes` | internal/executor/warmpool.go:233-243 | a lease that is over is removed, and an open pool starts one replenisher |
| `WarmPool.ReplenishAdds` | internal/executor/warmpool.go:244-257 | a booted replacement joins an open pool and is doomed on a closed one |
| `WarmPool.CloseDooms` | internal/executor/warmpool.go:154-166 | Close dooms every ready container |
| `WarmPool.PrimeFills` | internal/executor/warmpool.go:136-151 | priming without failures fills the pool to its size |
| `WarmPool.PoolIsBounded` | internal/executor/warmpool.go:233-258 | ready plus leased plus being replaced never exceeds the size |
| `WarmPool.NothingOutlivesClose` | internal/executor/warmpool.go:154-166 | once Close and everything in flight end, the containers not removed are exactly those Prime appended after Close |
| `WarmPool.HastyCloseLeaks` | internal/executor/warmpool.go:136-151 | for every size a run that leaves one, so Close after Prime is necessary |
| `CappedOutput.CapWriter.constructor` | internal/executor/gvisor.go:397-402 | starts empty |
| `CappedOutput.CapWriter.Write` | internal/executor/gvisor.go:404-418 | the buffer is the first `limit` bytes of all written; when truncation is flagged |
| `CappedOutput.Pump` | internal/executor/gvisor.go:424-451 | however the stream is split, buffer and sink are its first `limit` bytes and truncated means longer than `limit` |
| `KernelExec.Kernel.Exec` | internal/session/kernel.go:311-455 | how the step ended is its first terminal frame or the lack of one; stdout and stderr are the first `limit` bytes of each stream; exit code, duration, truncation and time-out in terms of that frame and the deadline; anything but a result kills the kernel for all later steps |
| `KernelExec.OneLine` | internal/session/kernel.go:393-430 | what one line adds to a step's frames, and one frame to its streams |
| `KernelExec.ReadFrames` | internal/session/kernel.go:376-453 | the read loop stops at the step's first terminal frame with both buffers and sinks as specified |
| `KernelExec.Feed` | internal/session/kernel.go:418-430 | one chunk through capBuf.Write and clip |
| `KernelExec.OwnIsMineCut` | internal/session/kernel.go:413-416 | the honoured frames are the step's frames in order, complete up to the first terminal one |
| `KernelExec.OnlyOwnFramesMatter` | internal/session/kernel.go:399-416 | streams that agree on the step's frames are indistinguishable to it |
| `KernelExec.ForeignLinesAreIgnored` | internal/session/kernel.go:393-416 | noise and forged or stale frames change nothing wherever they appear |
| `KernelExec.SinkIsPrefix` | internal/session/kernel.go:643-653 | the sink always has a prefix of the buffer, all of it if nothing was cut |
| `KernelExec.SinkIsBufferIff` | internal/session/kernel.go:643-653 | sink and buffer agree if and only if the stream fits or the limit falls exactly between two chunks |
| `KernelExec.CutShortIff` | internal/session/kernel.go:625-639 | truncation is flagged for a longer stream, or one exactly as long as the limit whose last chunk is empty |
| `ShellQuote.ShJoin` | internal/executor/gvisor.go:386-395 | for every list of byte strings, the shell splits the line into exactly that list |
| `ShellQuote.RoundTrip` | internal/executor/gvisor.go:386-395 | the same of the specification function |
| `ShellQuote.JoinedInContext` | internal/executor/gvisor.go:150-158 | in front of any script text nothing escapes its quotes |
| `ShellQuote.CommandBeforeOperator` | internal/executor/gvisor.go:156-158 | before an operator or a quoted argument list the words are the parts and the rest is untouched |
| `JobQueue.EveryRunIsSafe` | internal/queue/valkey.go:114-282 | invariant over every run with deaths, lost acks, reclaims, expiry and failed publishes |
| `JobQueue.NoJobIsLost` | internal/queue/valkey.go:192-250 | with successful publishes, every added job is undelivered, pending, or has had a result published |
| `JobQueue.LostExactlyWhen` | internal/queue/valkey.go:223-250 | over every run, a job is lost exactly if an ack of it reached the broker and no attempt at it ever published |
| `JobQueue.ResultsAreTheJobsOwn` | internal/queue/valkey.go:236-249 | every result on a list came from running a job of that id; its own spec if ids are distinct |
| `JobQueue.SubmitAnswersItsOwnJob` | internal/queue/valkey.go:114-168 | what Submit returns came from running what was submitted |
| `JobQueue.PendingJobsCanFinish` | internal/queue/valkey.go:255-282 | from every reachable state a pending job can be reclaimed, run, published and acknowledged; it is lost exactly if that publish fails and none succeeded before |
| `JobQueue.WaitingCanBeAnswered` | internal/queue/valkey.go:114-168 | while its job is not acknowledged a waiting Submit can be answered, whatever has died |
| `JobQueue.SubmitEnqueues` | internal/queue/valkey.go:122-127 | a Submit's job is in the stream and not acknowledged when it starts to wait |
| `JobQueue.PoisonIsAcknowledged` | internal/queue/valkey.go:231-236 | a message that does not decode is acknowledged and answered to nobody |
| `JobQueue.PanicAcknowledges` | internal/queue/valkey.go:223-230 | a panicking run acknowledges its message, which loses the job unless another attempt got through |
| `JobQueue.BatchMovesOn` | internal/queue/valkey.go:277-280 | a message done with, published or not, is followed by the next of the batch |
| `JobQueue.BatchesAreBounded` | internal/queue/valkey.go:262-269 | nobody holds more than the 16 messages of one claim |

## Left out

- The step machines are functions on values, so in-place update of the maps under `m.mu`, `e.mu` and `wp.mu` is represented by the new state of a step; a `*Session` or `*Volume` that a thread keeps across steps is its id.
- TtlIndex.TtlKeyOrder: for expiries in [0, 2^64); times before 1970 are not modelled.
- KvStore.TenantFile.List: seeking is a walk from the first key, as the cost of a seek is not modelled; base64 decoding of the cursor is given by its outcome.
- KvStore.TenantFile.Put: whether the tenant id is valid and its file can be opened is one flag, and the free-disk floor is not modelled; a namespace bucket exists from its first key on.
- KvStore.TenantFile.Delete: the same flag.
- KvStore.TenantFile.Get: the same flag; the hash behind the ETag is any function.
- Volumes.GraceIsExact: clocks do not go backwards; the durations are those of the slowest Create and the slowest look, as given.
- Volumes.Manager.Scan: tenant and id are one key, and malformed tenant directories, which are ignored, are not in the tree.
- Volumes.IndexedIsOnDisk: files removed by hand are not in this machine; the lifecycle machine has the step that drops their index entry.
- Volumes.CompletedCreatesSurvive: a crash is one of the process; meta.json is not synced, so a crash of the host can lose the rename.
- Volumes.CreateIsCrashAtomic: the same.
- KernelExec.Kernel.Exec: the clamping of the step deadline and the timers themselves are not modelled, only what the two loads of the flag saw.
- LifecycleTiming.StrandedExactlyWhen: createdAt and the first lastUsed are one reading; an idle test is over-approximated by age once steps have run, which only widens what is shown not to happen.
- Daemon.Server.CreateKernelSession: runs with no other thread in between; the interleavings are in the lifecycle machine.
- Daemon.Server.CreateFilesystemSession: runs with no other thread in between but the one sweep; the interleavings are in the lifecycle machine.
- JobQueue.NoJobIsLost: says what can no longer happen, not when: MinIdle and block times are not modelled, any pending message may be claimed at any time.
- JobQueue.SubmitAnswersItsOwnJob: that ids are distinct is an assumption about uuid minting.
- DiskSweep.Manager.Sweep: sizes are fixed during the sweep, and no other drop runs beside it; the interleaving of drops is in the lifecycle machine.
- MaxSessions, MaxVolPerTenant and the `used` counters between sweeps: checked under one lock and used under another, approximate by design.
- In-flight exec steps of a dropped session, file operations inside a workspace, DestroyAll and the in-process queue.
- Store.Stats and SweepExpired's loop over open tenant files: sums and loops over what is proved for one file.
- Gob, JSON, base64, SHA-256, uuid and regular expressions: abstract values; the namespace pattern is written out.
- Docker command lines, container start-up, timers and signals, HTTP, SSE, metrics, logging, the language registry, key store and rate limiter.
