# Verified model of the Unridden snapshot subsystem

A Dafny model of how Unridden keeps, shares, evicts, persists and reuses frozen
model state, and proofs of what its pieces promise each other. `dafny verify
dfyconfig.toml` checks all of it.

The system is built in layers, and so is the model.

* **Decoding** (`Chunks`, `KvCache`, `Kernels`, `LayerSplit`). A decode appends
  cells to a cache and captures vectors; what it appends is an uninterpreted
  function of the cells and the batch, so every result below holds for any
  kernels that are deterministic in the batch they are given. `LayerSplit` adds
  exact causal layers and proves that running blocks 0-17 over all tokens and
  then blocks 18-29 over their boundary rows is the uninterrupted 30-block run,
  for every batch split and every split point.
* **The snapshot worker** (`SnapshotRuntime`, `WorkerSpec`, `SnapshotWorker`,
  `WorkerRuns`, `StockAnswers`, `Accounting`). Two contexts, a registry of
  immutable snapshots with shared blobs, and the residency cache. `WorkerSpec`
  says what each command may do as a relation of states, `SnapshotWorker` is the
  imperative worker proved against it, and the other three prove theorems over
  whole runs: what a branch reads depends on the parent's blobs and the suffix
  only; promoting later equals pairing at creation; load undoes save; a ride
  equals the split prefill broken at the snapshot; and, with causal kernels,
  every answer, every ride with its trace, and every field of what is registered is
  the uninterrupted model's.
* **The snapshot store** (`Registry`, `Ledger`, `SnapshotStore`, `Descent`,
  `DiskIndex`, `ByteBooks`). The books as a value (`Registry`: the graph, leases,
  recency and bytes; `Ledger`: the elementary changes and what each keeps), and a
  class whose methods follow the source step by step: expiry, the eviction loop,
  leases, publication, promotion memos, restore and the rebuild from manifests.
* **The snapshot service** (`Broods`, `Plans`, `Offspring`, `Threads`, `SnapshotService`,
  `ServiceRuns`).
  Create, decide, state evaluation, ride, deletion, rollback and recovery on top
  of the two. Its invariant holds between requests, after every success and every
  failure at any step: the worker holds exactly the store's resident records, all
  its memory is covered by the byte budget, every context anchor is present and
  begins its child's tokens, the published directories can be rebuilt from, and
  everything the worker or the disk holds is what the uninterrupted model holds.
  Hence the end-to-end results: what `decide`, `state_eval` and `ride` answer is
  what the uninterrupted model answers to the whole rendered prompt, whatever was
  promoted, evicted, restored or rebuilt on the way. `Threads` and `ServiceRuns` follow
  a conversation: in every run of the service, any list of requests, lookups,
  deletions, restarts and clock changes, through any chain of follow-ups and
  replacements, the context anchor is handed down and never lost, and the same
  question asked of it again reads the same answer.
* **The v1 worker** (`QuestionWorker`, `PackedCache`, `PackedWorker`). Sequential
  prefix reuse refines a fresh evaluation; packed evaluation of many questions in
  one unified cache shows every question exactly its own prompt; and either way, for
  exact causal kernels, each answer is the uninterrupted model's.
* **The transport** (`Transport`). A step protocol of requests, one starter and a
  child, with every interleaving of timeouts, cancellations, malformed lines,
  typed errors and deaths: what is accepted is the answer to the request that reads
  it, and with a child that echoes ids every sound reply is accepted.
* **Two algorithms**: tie-averaged AUROC equals its pair-counting definition over
  the reals (`Auroc`), and the worker's base64 is that of section 4 of RFC 4648
  and is undone by decoding (`Base64`).

Failures of the outside world (a decode, a file, a worker's answer) are
nondeterministic choices in the bodies, so a contract covers every place where
one can happen. Every other refusal has its reason in a contract: the worker's in the
`Denied` predicates of `WorkerSpec`, the store's in `RefusedFor` and `NoRoom`, the
service's in `Refuses`. The clock is a field that may change between requests and not
within one. Fresh ids are parameters that were never used before.

Three kinds of name recur in contracts. `Books` is the store's whole invariant
and `Agrees` ties it to the snapshots the worker holds; `Sound` adds what the
service keeps; `Evolves(b, c, own)` is the frame of a request: from `b` to `c`
nothing new appears but its `own` ids, no record that stays changes its fields,
leases, tokens or directory, no leased record goes or leaves the worker, and
another's record goes only when it is expired, or is memory-only and was evicted
while more was resident than was to be left; each eviction is on record with both
numbers. `Decide`, `Create` and `Ride` ensure it; that it composes, that another's
unexpired disk snapshot stays and that an unexpired memory-only one goes only for
room are read off it by `Ledger.EvolvesTrans`, `Ledger.DiskStays` and
`Ledger.MemoryGoesForRoom`. `OnlyExpired` is the exact frame of a request that makes
no room, and `Onward` what every public method ensures of the records: none changes
and none comes back.
`Causal(c, model, split)` says that the
worker's kernels are those of `model` cut at block `split`; `Faithful` says a
snapshot is what any such model holds for its tokens.

Main results, hardest first: `SnapshotService.Service.Decide`,
`ServiceRuns.AnchorThroughRun`, `ServiceRuns.SameQuestionOnThread` and
`ServiceRuns.DiskThroughRun` over the runs of `ServiceRuns.Serve`,
`SnapshotService.Service.SnapshotsAreStock`,
`SnapshotService.Service.WorkerAndStoreAgree`,
`SnapshotService.Service.BytesCovered`, `SnapshotService.Service.Recover` with
`DiskIndex.DiskSurvival`, `StockAnswers.AnswersAreStock`,
`LayerSplit.SplitEqualsStock`, `WorkerRuns.RidesAgree`,
`SnapshotWorker.Worker.Serve` (residency stays exact over every run) with
`WorkerRuns.SameQuestionSameAnswer`,
`PackedWorker.PackedContext.EvaluateBatched`,
`Transport.AcceptedAnswersItsRequest`, `SnapshotStore.Store.EnforceBudget`,
`SnapshotStore.Store.Expire`, `Auroc.Auroc`.

## Model

| member | source | states |
|---|---|---|
| `Chunks.PrefillChunks` | unridden/api/native/worker-utils.h:83-92 | the batches of a prefill, or an error exactly when the token or batch count is zero |
| `Chunks.SizesSplit` | unridden/api/native/worker-utils.h:83-92 | the batches cover the tokens, none is empty or over the batch size, and only the last is short |
| `Chunks.SplitIsUnique` | unridden/api/native/worker-utils.h:83-92 | no other split has those properties, so two prefills of the same length always see the same batches |
| `KvCache.TrimUndoesPrefill` | unridden/api/native/snapshots/snapshot-worker.cpp:489-503 | decoding past the last held position and trimming back gives exactly the cells held before; in between the highest position is the last one decoded |
| `KvCache.RunConcat` | unridden/api/native/snapshots/snapshot-worker.cpp:540-547 | running one list of batches and then another is running both |
| `KvCache.PrefillGrows` | unridden/api/native/snapshots/snapshot-worker.cpp:534-549 | a prefill only adds cells, all of them past the length it may later be trimmed to |
| `LayerSplit.RunExact` | unridden/api/native/snapshots/snapshot-worker.cpp:351-396 | with exact causal layers, a chunked run stores and captures at every position what the whole prefix determines, whatever the batches |
| `LayerSplit.SplitEqualsStock` | unridden/api/native/snapshots/snapshot-worker.cpp:351-420 | all tokens through the lower blocks in batches and then their H18 rows through the upper blocks in batches give the H30 rows and captures of the uninterrupted 30-block run, for every token sequence, batch split and split point |
| `StockAnswers.AnswersAreStock` | unridden/api/native/snapshots/snapshot-worker.cpp:930-982 | over every run of the worker from an empty registry, with causal kernels, every branch of an evaluate or state_eval reads at the last token of the whole prompt the residual, the head input and the logits of the uninterrupted model |
| `StockAnswers.RidesAreGreedy` | unridden/api/native/snapshots/snapshot-worker.cpp:1406-1543 | over every such run every ride, in any mode and with any prefill break, yields the greedy continuation of its prompt under the uninterrupted model, and every entry of its trace is what that model says after the output so far |
| `StockAnswers.StepExact` | unridden/api/native/snapshots/snapshot-worker.cpp:640-654 | every command keeps every registered snapshot equal to what the uninterrupted model holds for its tokens |
| `StockAnswers.CreateRight` | unridden/api/native/snapshots/snapshot-worker.cpp:795-862 | with causal kernels, what a create registers, field by field: an 18 has the lower cells and boundary rows of its tokens and nothing of the upper blocks; a 30 has both ranges, the output rows and the head input after its last token, and shares the lower blob of its 18 or keeps the boundary rows itself; everything else is as it was |
| `StockAnswers.PromoteRight` | unridden/api/native/snapshots/snapshot-worker.cpp:879-910 | the same of the 30 a promotion adds beside its 18, and of everything else |
| `StockAnswers.ChildRight` | unridden/api/native/snapshots/snapshot-worker.cpp:945-968 | the same of the child a branch saves: the whole prompt in blobs of its own, the rows its parent has continued, and the head input after its last token |
| `StockAnswers.StepWhole` | unridden/api/native/snapshots/snapshot-worker.cpp:640-654 | every command keeps present what a snapshot of each depth has: the boundary rows of an 18; the upper cache, the output rows and the last head input of a 30 |
| `SnapshotRuntime.Runtime.DecodeAll` | unridden/api/native/snapshots/snapshot-worker.cpp:540-547 | one decode loop: the cells and captures of a chunk-exact prefill, unless a decode fails |
| `SnapshotRuntime.Runtime.RunLower` | unridden/api/native/snapshots/snapshot-worker.cpp:534-549 | the lower cells after the prefill and its H18 rows; an empty or overlong range is an error |
| `SnapshotRuntime.Runtime.RunUpper` | unridden/api/native/snapshots/snapshot-worker.cpp:358-396 | the upper cells after the prefill of the given rows, its H30 rows and the capture at the last one |
| `SnapshotRuntime.Runtime.ReferenceAppend` | unridden/api/native/snapshots/snapshot-worker.cpp:424-440 | the stock run over the tokens, on top of the reference cells or restarted |
| `SnapshotRuntime.Runtime.SaveState` | unridden/api/native/snapshots/snapshot-worker.cpp:446-456 | the saved state is exactly the cells of the chosen context |
| `SnapshotRuntime.Runtime.MakeResident` | unridden/api/native/snapshots/snapshot-worker.cpp:467-486 | on success the contexts hold exactly the snapshot, and the bytes reported are 0 exactly when it was resident already and all of its state otherwise; on failure nothing is resident and the contexts are empty |
| `SnapshotRuntime.Runtime.TrimTo` | unridden/api/native/snapshots/snapshot-worker.cpp:489-503 | both contexts are cut at the snapshot, or cleared |
| `SnapshotWorker.Worker.Create` | unridden/api/native/snapshots/snapshot-worker.cpp:765-877 | all checkpoints are published together with the cells, rows and logits of one lower and one upper prefill, as the model has them (`CreatedRight`), or nothing changes; each error has its own reason, and inference is tried only when nothing else stands against it; what is resident is registered and held exactly |
| `SnapshotWorker.Worker.Promote` | unridden/api/native/snapshots/snapshot-worker.cpp:879-918 | publishes the 30 of an 18, sharing its lower blob, from the saved boundary rows alone, as the model has it (`PromotedRight`), or nothing changes; each error has its own reason |
| `SnapshotWorker.Worker.RunBranch` | unridden/api/native/snapshots/snapshot-worker.cpp:930-982 | a branch reads the suffix on top of the parent and leaves the contexts holding the parent again; it reports its suffix and the bytes restored, none exactly when the parent was resident |
| `SnapshotWorker.Worker.Evaluate` | unridden/api/native/snapshots/snapshot-worker.cpp:984-1061 | after the preflight of all questions, each is answered from the parent alone and its child published, and only the first can find the parent not resident and restore its bytes; each error has its own reason; a failure keeps the children published before it and nothing else |
| `SnapshotWorker.Worker.StateEval` | unridden/api/native/snapshots/snapshot-worker.cpp:1063-1114 | one prompt is answered from the parent alone and its child published; a failure keeps nothing but that child |
| `SnapshotWorker.Worker.GenerateAll` | unridden/api/native/snapshots/snapshot-worker.cpp:1480-1497 | the generation loop computes the greedy continuation, its trace and its block work |
| `SnapshotWorker.Worker.Ride` | unridden/api/native/snapshots/snapshot-worker.cpp:1406-1543 | the output, trace and work of the mode asked for; each error has its own reason; after a successful snapshot ride the contexts hold exactly the parent |
| `SnapshotWorker.Worker.Drop` | unridden/api/native/snapshots/snapshot-worker.cpp:1173-1183 | removes the snapshot and reports its row bytes, or reports it missing |
| `SnapshotWorker.Worker.Save` | unridden/api/native/snapshots/snapshot-worker.cpp:1216-1260 | the files are the snapshot but for blob identity and ownership |
| `SnapshotWorker.Worker.Load` | unridden/api/native/snapshots/snapshot-worker.cpp:1262-1354 | registers a snapshot that owns its blobs exactly from files that pass the integrity checks and under a free id, or nothing changes |
| `SnapshotWorker.Worker.Serve` | unridden/api/native/snapshots/snapshot-worker.cpp:1647-1677 | the request loop: every command keeps the residency invariant and does what its step says |
| `WorkerRuns.RunKeeps` | unridden/api/native/snapshots/snapshot-worker.cpp:640-654 | a registered snapshot stays as it is through any commands but its own drop |
| `WorkerRuns.BranchPurity` | unridden/api/native/snapshots/snapshot-worker.cpp:930-982 | at every point of a run, what a branch reads is a function of the parent's two cell lists, its length and the suffix |
| `WorkerRuns.SameQuestionSameAnswer` | unridden/api/native/snapshots/snapshot-worker.cpp:930-982 | asking the same parent the same thing twice reads the same, whatever ran in between, failures included |
| `WorkerRuns.LoadUndoesSave` | unridden/api/native/snapshots/snapshot-worker.cpp:1216-1354 | load accepts exactly the files of well-formed snapshots and gives back the saved snapshot, now owning its lower blob |
| `WorkerRuns.PromotionEqualsPairing` | unridden/api/native/snapshots/snapshot-worker.cpp:802-910 | creating an 18 and promoting it later gives the tokens, lower and upper cells, H30 rows and last normalized vector of creating the pair in one command, whatever ran in between |
| `WorkerRuns.CreateMakesGenuine` | unridden/api/native/snapshots/snapshot-worker.cpp:802-858 | a created 30 holds the cells of one uninterrupted prefill of its tokens |
| `WorkerRuns.PromoteMakesGenuine` | unridden/api/native/snapshots/snapshot-worker.cpp:879-910 | a promotion of a created 18, however long ago it was created, holds the cells of one uninterrupted prefill of its tokens |
| `WorkerRuns.RideEquivalence` | unridden/api/native/snapshots/snapshot-worker.cpp:1464-1501 | on one state, riding a 30 made by create or promote gives the token ids, steps and stop reason of a split prefill broken at its length |
| `WorkerRuns.RideAccounting` | unridden/api/native/snapshots/snapshot-worker.cpp:1448-1517 | block work is the prefilled tokens plus the reported decode steps; a ride stops early exactly at an end token; the trace matches the output; the contexts never need more than was checked |
| `Accounting.AnswersPass` | unridden/api/snapshots/schema.py:443-478 | in every run of the worker from an empty registry, whatever was loaded, promoted or dropped on the way, the answer of every create and of every promotion passes the checks on it |
| `Accounting.RunWellFormed` | unridden/api/native/snapshots/snapshot-worker.cpp:640-654 | in every run every registered snapshot, also a loaded one, has its tokens, one saved row a token, and an upper cache exactly at depth 30 |
| `Accounting.BranchesAccount` | unridden/api/snapshots/schema.py:484-509 | in every answer of the worker to a batch, every branch passes the checks on it: its processed tokens are its suffix, one boundary row and one output row a token, it reuses exactly the parent, its saved child passes the row check, and it restored nothing exactly when the parent was resident before or it is not the first |
| `Accounting.BatchSpent` | unridden/api/snapshots/service.py:506-553 | the totals of an answered batch: suffixes and reused prefixes together are all the prompts, both block counts are the processed tokens, and the parent is brought back once, or not at all when it was resident |
| `Accounting.Tally` | unridden/api/snapshots/service.py:506-531 | the loop adds up exactly the suffixes and the restored bytes of the reports |
| `Accounting.RideAccounts` | unridden/api/snapshots/schema.py:581-593 | the answer of every ride of the worker passes the accounting check, its block work is the prefilled tokens plus the decode steps and fits the context, and its trace length is one the service accepts |
| `Registry.GraphWithout` | unridden/api/snapshots/store.py:174-188 | removing an unreferenced record keeps references resolved, the graph acyclic and every count equal to the number of children naming the record |
| `Registry.GraphWith` | unridden/api/snapshots/store.py:243-247 | adding a record whose references resolve keeps the graph resolved and acyclic and counts each of its references once |
| `Registry.VictimNotKept` | unridden/api/snapshots/store.py:150-172 | an expired, unleased, unreferenced record is no ancestor of a live one |
| `Registry.NoVictimAllKept` | unridden/api/snapshots/store.py:150-172 | once no expired, unleased and unreferenced record is left, every record is live or an ancestor of a live one |
| `Registry.LeasedUpward` | unridden/api/snapshots/store.py:319-345 | what a leased record refers to is leased too |
| `Registry.DroppableUnshared` | unridden/api/snapshots/store.py:407-414 | what eviction or expiry may drop shares its lower blob with nothing the worker keeps |
| `Registry.HoldingsRestore` | unridden/api/snapshots/store.py:661-679 | restoring from files charges every saved byte, the lower blob that is now owned included |
| `Ledger.ForgottenBooks` | unridden/api/snapshots/store.py:174-188 | forgetting keeps the whole invariant of the books |
| `Ledger.DemotedBooks` | unridden/api/snapshots/store.py:392-398 | moving a durable record out of the worker keeps the whole invariant of the books |
| `Ledger.AddedBooks` | unridden/api/snapshots/store.py:223-247 | entering a record whose references are there keeps the whole invariant of the books |
| `Ledger.PinnedBooks` | unridden/api/snapshots/store.py:334-345 | opening a lease on an ancestor-closed set keeps the whole invariant of the books |
| `Ledger.UnpinnedBooks` | unridden/api/snapshots/store.py:344-348 | closing the last open lease keeps the whole invariant of the books |
| `Ledger.EvictionsSnoc` | unridden/api/snapshots/store.py:368-405 | one more eviction of the least recently used candidate extends the sequence |
| `Ledger.RegisterWhole` | unridden/api/snapshots/store.py:190-258 | whatever a registration reclaims, evicts and pins, what stays keeps its fields, leases, tokens and directory, only the new record is new, and what goes was expired or was memory-only and evicted for room |
| `SnapshotStore.Store.constructor` | unridden/api/snapshots/store.py:111-141 | an empty store has right books |
| `SnapshotStore.Store.Get` | unridden/api/snapshots/store.py:294-301 | the record, or missing exactly when unknown, or expired and unreferenced; one that is found was then used after every other, so it is evicted only when nothing else may be, and nothing about the others changes |
| `SnapshotStore.Store.Forget` | unridden/api/snapshots/store.py:174-188 | the record, its bytes and its references go, each distinct reference released once |
| `SnapshotStore.Store.Reclaim` | unridden/api/snapshots/store.py:160-172 | the record goes with its directory and the worker's copy, and books and worker still agree |
| `SnapshotStore.Store.Expire` | unridden/api/snapshots/store.py:150-172 | leaves exactly the unexpired or leased records and their ancestors, whatever order it picks victims in, and takes nothing else from the worker |
| `SnapshotStore.Store.LeastUsed` | unridden/api/snapshots/store.py:376-391 | the one candidate used longest ago, or none exactly when nothing is evictable |
| `SnapshotStore.Store.Evict` | unridden/api/snapshots/store.py:391-405 | a disk snapshot leaves the worker and stays on disk, a memory-only one is forgotten |
| `SnapshotStore.Store.EnforceBudget` | unridden/api/snapshots/store.py:368-374 | terminates; expires first and then evicts, each time the least recently used candidate and only while there is no room; every eviction is on record with what was resident and what was to be left; on success the bytes fit; it reports exhaustion only when every resident record is leased, or is referenced and memory-only or an 18 whose lower cache a resident 30 shares; no leased record goes or leaves the worker |
| `Ledger.FreshestGoesLast` | unridden/api/snapshots/store.py:376-405 | in any sequence of evictions, what was used last is the victim only when nothing else may be evicted |
| `Ledger.EvictableUnlessStuck` | unridden/api/snapshots/store.py:376-392 | a resident record may be evicted exactly unless it is leased, or is referenced and memory-only or an 18 whose lower cache a resident 30 of the same tokens shares |
| `SnapshotStore.Store.Ancestors` | unridden/api/snapshots/store.py:319-331 | exactly the ancestors, as an ancestor-closed set |
| `SnapshotStore.Store.Lease` | unridden/api/snapshots/store.py:334-341 | pins exactly the ids and all their ancestors, or nothing, exactly when some id is not visible; each id is then used after every record the lease does not name, and nothing else is |
| `SnapshotStore.Store.Release` | unridden/api/snapshots/store.py:344-348 | takes back exactly the pins of the last open lease |
| `SnapshotStore.Store.Persist` | unridden/api/snapshots/store.py:456-486 | publishes the worker's files under the record's manifest, or leaves nothing behind; published once only |
| `SnapshotStore.Store.Register` | unridden/api/snapshots/store.py:190-258 | the new resident record with the bytes charged for it, durable if on disk, or nothing of it; refused only for an unknown or expired reference, a promotion that does not match, a failed publication, or no room with everything evicted but what the record itself refers to or descends from; what is registered was used last; no other record goes but expired ones and memory-only ones evicted to leave the budget less these bytes |
| `SnapshotStore.Store.Delete` | unridden/api/snapshots/store.py:352-364 | succeeds exactly for a visible, unleased, unreferenced record and then removes it everywhere and reports what the worker freed; otherwise changes nothing but a tick |
| `SnapshotStore.Store.MemoizePromotion` | unridden/api/snapshots/store.py:260-263 | sets the memo exactly when both are visible and the child matches its 18 |
| `SnapshotStore.Store.MemoizedPromotion` | unridden/api/snapshots/store.py:265-272 | the memoised promotion exactly when it is there and unexpired; otherwise the memo is cleared |
| `SnapshotStore.Store.Restore` | unridden/api/snapshots/store.py:652-679 | on success it was used last; a resident record at once with nothing else changed; one on disk holds exactly its published files again, as owner of its blobs, and is charged every saved byte or what it was charged before if more; missing exactly when not visible; reported full only when that does not fit with everything evictable gone; no other record goes but expired ones and memory-only ones evicted to leave the budget less that charge |
| `SnapshotStore.Store.Rebuild` | unridden/api/snapshots/store.py:553-650 | over a disk this store wrote, the rebuilt books are right, every directory is accepted and each memo is the newest unexpired promotion |
| `DiskIndex.LoadDiskIndex` | unridden/api/snapshots/store.py:553-650 | accepts exactly the disks on which every manifest is readable and names only published records and matching promotions; then each count is the number of children and each memo the newest unexpired promotion |
| `DiskIndex.CountChildren` | unridden/api/snapshots/store.py:627-650 | the second pass alone |
| `DiskIndex.DiskComplete` | unridden/api/snapshots/store.py:498-650 | in every state of the store under the service, the published directories are closed under their references and a rebuild accepts them all |
| `DiskIndex.PublishedIffDisk` | unridden/api/snapshots/store.py:423-486 | the published directories are those of the disk records, with their fields and files |
| `DiskIndex.DiskSurvival` | unridden/api/snapshots/store.py:553-650 | rebuilt from the directories alone, the books are right again and hold exactly the disk snapshots, each with its fields, its tokens and its exact reference count |
| `Descent.LineageKept` | unridden/api/snapshots/service.py:433-457 | every store operation keeps persistence constant along references, context anchors and promoted tokens |
| `Descent.RegisteredSound` | unridden/api/snapshots/service.py:344-377 | a registration, done or refused, keeps worker and store in step |
| `Descent.UndoNext` | unridden/api/snapshots/service.py:253-265 | what is taken back last is unreferenced, unleased and shares no blob, so a rollback never drops a published snapshot |
| `Broods.EvaluatedHatch` | unridden/api/snapshots/service.py:494-541 | whatever an evaluate answers, what is new in the worker is children of the first questions under the ids asked for |
| `Broods.BroodingNext` | unridden/api/snapshots/service.py:525-541 | registering one child keeps the others recoverable |
| `Plans.AnchorFits` | unridden/api/snapshots/service.py:381-399 | a recorded context parent is there, referenced, a 30 with boundary context, and begins the record's tokens |
| `Plans.ChildDescends` | unridden/api/snapshots/service.py:433-457 | a child recorded with the plan's anchor, as every registered one is, is anchored itself |
| `Plans.PromotionDescends` | unridden/api/snapshots/service.py:344-377 | a promotion recorded with the anchor, persistence and tokens of its 18 is anchored itself and keeps persistence constant along its references |
| `Offspring.EvaluateAnswers` | unridden/api/snapshots/service.py:494-499 | the answers of an evaluate all come from the one parent |
| `ByteBooks.BlobsAtMostOwners` | unridden/api/snapshots/store.py:407-414 | the distinct lower blobs take at most what their owning rows are charged |
| `ByteBooks.BooksCoverWorker` | unridden/api/snapshots/store.py:368-414 | with nothing in the worker but what the store has books for, all its blobs, shared ones once, fit in the resident bytes, and those in the host budget |
| `SnapshotService.Service.WorkerAndStoreAgree` | unridden/api/snapshots/service.py:232-265 | between requests the worker's snapshots are exactly the store's resident records, with their tokens, digest, depth and parent |
| `SnapshotService.Service.BytesCovered` | unridden/api/snapshots/store.py:368-414 | between requests all the memory of the worker's snapshots is within resident bytes, within the budget |
| `SnapshotService.Service.AnchorHolds` | unridden/api/snapshots/service.py:379-423 | between requests every context parent names a present 30 with boundary context whose tokens begin the child's |
| `SnapshotService.Service.DiskIsComplete` | unridden/api/snapshots/store.py:498-650 | between requests the directories hold exactly the disk snapshots, with their fields, closed under references, and a rebuild accepts them |
| `SnapshotService.Service.Expire` | unridden/api/snapshots/service.py:240-244 | the expiry every request starts with: exactly the unexpired and what they descend from stays, in store, disk and worker, with all its fields |
| `SnapshotService.Service.Rollback` | unridden/api/snapshots/service.py:253-265 | takes back every given id, latest first, from store and worker; of other records only the expired go |
| `SnapshotService.Service.Ensure30` | unridden/api/snapshots/service.py:336-377 | a 30 with the prompt, tokens, anchor and persistence of the record: itself, its memoised promotion whenever that is there and unexpired, or a new one, recorded with the fields of its 18 and a lifetime of its own, which is then memoised |
| `SnapshotService.Service.MakePlan` | unridden/api/snapshots/service.py:379-423 | where a request branches from, and the anchor its children record; replacing a question goes back to the recorded anchor, always succeeds when there is one, never promotes and hands the same anchor down; a follow-up of a visible 30 always succeeds; refused as missing whenever it is not visible, and as unsupported only for a replacement without an anchor |
| `SnapshotService.Service.PlanPrompts` | unridden/api/snapshots/service.py:461-492 | the plan and one prompt a question, or a refusal for its reason: missing exactly when the record is not visible, unsupported exactly for a replacement without an anchor, uncompilable only for a question that does not compile and always for one unless a promotion failed |
| `SnapshotService.Service.Create` | unridden/api/snapshots/service.py:269-332 | every checkpoint asked for is published with the frozen tokens and its pair, or nothing is left of the request; refused as uncompilable exactly when the prompt is; a readout keeps the whole prompt and a context freeze as much of it as the rendering says; with exact causal kernels the logits a 30 freeze reads are the uninterrupted model's; of other records only the expired, and memory-only ones evicted for room, go; worker and store agree afterwards |
| `SnapshotService.Service.Decide` | unridden/api/snapshots/service.py:461-563 | every question is compiled for the plan its record leads to and, with exact causal kernels, its answer is the uninterrupted model's answer to the whole rendered prompt; on success every child is recorded with its parent, anchor, tokens and persistence, on disk if its parent is, and missing only if memory-only and evicted for a later one, never the last; its usage charges each question only what its prompt has beyond the parent, and at most one restore of it; after a failure at any step none is left; of other records only the expired, and memory-only ones evicted for room, go; worker and store agree afterwards; refused for its own sake exactly as missing when its record is not found, as unsupported for a replacement without an anchor, or as uncompilable, and else only when the store, the worker or the transport fails |
| `SnapshotService.Service.StateEval` | unridden/api/snapshots/service.py:567-632 | one prompt is compiled for the plan its record leads to and, with exact causal kernels, its answer is the uninterrupted model's; its child is recorded with its parent, anchor, tokens and persistence; its usage is what the prompt has beyond the parent, and at most one restore; after a failure at any step no child is left; of other records only the expired, and memory-only ones evicted for room, go; worker and store agree afterwards; refused for its own sake exactly as missing when its record is not found, as unsupported for a replacement without an anchor, or as uncompilable, and else only when the store, the worker or the transport fails |
| `SnapshotService.Service.RegisterChild` | unridden/api/snapshots/service.py:433-457 | on success the child is recorded, resident, with the plan's effective parent and anchor, its prompt, tokens, digest, times and its parent's persistence, and published if that is disk; on a refusal all children can still be taken back |
| `SnapshotService.Service.Ride` | unridden/api/snapshots/service.py:634-695 | the ride continues the snapshot its plan leads to; with exact causal kernels its text is the uninterrupted model's greedy continuation of the whole rendered prompt; its block work is the prompt beyond the parent and the decode steps, and at most one restore; it adds at most a promotion, changes no record, and what goes was expired or was memory-only and evicted for room; refused for its own sake exactly as missing when its record is not found, as unsupported for a replacement without an anchor, or as uncompilable, and else only when the store, the worker or the transport fails |
| `SnapshotService.Service.Delete` | unridden/api/snapshots/service.py:703-705 | exactly what expired goes and, unless a record that stays names it, the snapshot, from store, disk and worker, with the bytes the worker freed; refused as in use exactly when one does and as missing exactly when it is not there |
| `SnapshotService.Service.Recover` | unridden/api/snapshots/service.py:153-194 | after a restart of the worker exactly the disk snapshots are back, then expired; worker and store agree |
| `QuestionWorker.SharedPrefixTokens` | unridden/api/native/worker.cpp:246-265 | a proper prefix of the question's own tokens on which head and prompt agree, the longest such, or 0 below the minimum |
| `QuestionWorker.Evaluator.EvaluateQuestion` | unridden/api/native/worker.cpp:344-432 | the answer is that of a request with this question alone in an empty context, whatever the memory held, and for exact causal kernels what the uninterrupted model reads at the last token of the whole prompt; reuse happens exactly when the cached prefix is this question's own; the memory and accounting checks never fire |
| `QuestionWorker.Evaluator.EvaluateAll` | unridden/api/native/worker.cpp:739-745 | for any list of questions, in any order and from any memory, each answer is the fresh one and, for exact causal kernels, the uninterrupted model's |
| `QuestionWorker.PrefixStays` | unridden/api/native/worker.cpp:358-366 | after a question, trimming to its prefix gives the cells a fresh prefill of the prefix gives |
| `PackedCache.ViewIsPrompt` | unridden/api/native/worker.cpp:536-541 | a sequence that holds its prompt so far shows each of its tokens exactly the prompt up to itself, each token once |
| `PackedCache.CopiedOwn` | unridden/api/native/worker.cpp:507-510 | copying the prefix tags its cells for the new sequence, adds no cell and leaves the other sequences alone |
| `PackedCache.RemainderSees` | unridden/api/native/worker.cpp:517-545 | whatever siblings and batch it is in, a question's token sees exactly its own tokens up to itself |
| `PackedWorker.BatchedPrefixTokens` | unridden/api/native/worker.cpp:448-462 | the longest prefix all questions share within every one's own split, or 0 below the minimum |
| `PackedWorker.BatchedCellCount` | unridden/api/native/worker.cpp:466-473 | the shared prefix once and every remainder |
| `PackedWorker.PackedContext.EvaluateBatched` | unridden/api/native/worker.cpp:477-608 | every token is decoded once and sees exactly its own prompt; every question's logits come from its last token and, for an exact causal reader, are the uninterrupted model's after its own prompt; tokens are accounted for; none of the checks fires |
| `PackedWorker.WantedOnce` | unridden/api/native/worker.cpp:547-571 | each question's logits are asked for exactly once, at its last token |
| `PackedWorker.ProcessedAreCells` | unridden/api/native/worker.cpp:466-473 | the processed tokens of a request add up to its cells |
| `PackedWorker.EvaluateRequest` | unridden/api/native/worker.cpp:725-745 | packed exactly when asked for and all tokens, the longest shared prefix once, fit the context, with the cells used equal to the processed tokens and within the context; sequential otherwise, saying why; either way each answer is, for exact causal kernels, the uninterrupted model's |
| `Auroc.Auroc` | scripts/unridden/bench_competitor_laya.py:280-302 | nothing without both classes; otherwise exactly the number of positive/negative pairs with the positive higher plus half the ties, over all pairs |
| `Auroc.RankSumIsWins` | scripts/unridden/bench_competitor_laya.py:297-302 | the rank sum of the positives is their wins over the negatives plus p(p+1)/2 |
| `Auroc.SharedRank` | scripts/unridden/bench_competitor_laya.py:288-296 | the shared rank of a tie group is the averaged rank of each member |
| `Auroc.OrderFacts` | scripts/unridden/bench_competitor_laya.py:287 | the order is sorted and lists every index once |
| `Auroc.InUnitInterval` | scripts/unridden/bench_competitor_laya.py:280-302 | the value lies in [0,1] |
| `Auroc.NegationMirrors` | scripts/unridden/bench_competitor_laya.py:280-302 | negating the scores gives one minus the value |
| `Base64.Base64` | unridden/api/native/snapshots/snapshot-worker.cpp:234-250 | the loop computes the encoding of section 4 of RFC 4648 |
| `Base64.EncodesSextets` | unridden/api/native/snapshots/snapshot-worker.cpp:234-250 | every three bytes are 24 bits from the most significant on, whose four sixes index the alphabet, with = for those no byte reaches |
| `Base64.DecodeUndoesEncode` | unridden/api/snapshots/schema.py:226-239 | decoding returns every byte string |
| `Base64.EncodeUndoesDecode` | unridden/api/snapshots/schema.py:226-239 | the decoder ignores padding bits, so a string that decodes is the encoding of what it yields exactly when those bits are zero |
| `Base64.EncodeLength` | unridden/api/native/snapshots/snapshot-worker.cpp:234-250 | the length is 4*ceil(n/3) |
| `Base64.DecodeF32` | unridden/api/snapshots/schema.py:226-239 | accepts exactly base64 of four bytes for each number of the shape with every number finite, its eight exponent bits not all ones, whatever the padding bits |
| `Base64.ExportDecodes` | unridden/api/native/snapshots/snapshot-worker.cpp:252-264 | every exported vector, with the shape of either export, has finite numbers only and passes the shape bounds, the length check and the decoding |
| `Transport.StepKeeps` | unridden/api/snapshots/backend.py:426-488 | every step keeps the pipe invariant: requests, timeouts, cancellations, malformed lines, typed errors, starts, deaths |
| `Transport.ReadyMeansDrained` | unridden/api/snapshots/backend.py:426-488 | over every run, whenever the backend is ready and the lock is free the current child has nothing left to answer and nothing left to read |
| `Transport.AcceptedAnswersItsRequest` | unridden/api/snapshots/backend.py:432-461 | over every run, an accepted line is the child's answer to the very request that reads it, whatever correlation ids the child puts on its lines, and carries that request's id |
| `Transport.ReceiveOutcome` | unridden/api/snapshots/backend.py:445-488 | of the line at hand, a good answer with the request's id is accepted and goes on to validation, a typed error with it ends the request, both with the lock free and the backend as it was; a hello, another id or a malformed line is not accepted and invalidates |
| `Transport.EchoedIsAccepted` | unridden/api/snapshots/backend.py:432-488 | in every run with a child that echoes ids, a reply that is no hello and not malformed is accepted by its own request and never costs the backend |
| `Transport.RequestReads` | unridden/api/snapshots/backend.py:426-445 | a request that finds the backend ready and idle is written and waits for its line |
| `Transport.RequestCompletes` | unridden/api/snapshots/backend.py:445-488 | and its echoed answer leaves the backend ready, the pipe empty and the request done |
| `Transport.StartupReadies` | unridden/api/snapshots/backend.py:272-384 | an undisturbed start reads the hello and leaves the backend ready with an empty pipe |
| `Transport.ReadyChanges` | unridden/api/snapshots/backend.py:272-488 | the backend becomes ready only by the hello of its own child, and stops being so exactly when something goes wrong or it is closed |
| `Transport.ReadsItsOwnAnswer` | unridden/api/snapshots/backend.py:385-405 | a line a request reads is a hello or its own answer, so the correlation check can fire only on a hello or a wrong id |
| `StockAnswers.StepFaithful` | unridden/api/native/snapshots/snapshot-worker.cpp:640-654 | whatever model the kernels were cut from, a command other than load leaves every snapshot what that model holds for its tokens |
| `StockAnswers.LoadedFaithful` | unridden/api/native/snapshots/snapshot-worker.cpp:1262-1354 | loading files that were saved of a snapshot the model agrees with gives a snapshot it agrees with |
| `StockAnswers.SavedFaithful` | unridden/api/native/snapshots/snapshot-worker.cpp:1216-1260 | the files saved of a snapshot that holds what the model holds load back as such a snapshot under any id |
| `SnapshotWorker.Worker.Preflight` | unridden/api/native/snapshots/snapshot-worker.cpp:1005-1022 | an error exactly when the prompt does not extend the parent, does not fit the context or would reuse an id, and which error is which |
| `SnapshotWorker.Worker.PreflightAll` | unridden/api/native/snapshots/snapshot-worker.cpp:1000-1027 | every question is checked before any inference, and an error has its reason in one of them |
| `SnapshotWorker.Worker.PublishChild` | unridden/api/native/snapshots/snapshot-worker.cpp:945-968 | the child joins the parent's rows and the branch's and owns both its blobs, or nothing is published |
| `SnapshotWorker.Worker.RideSnapshot` | unridden/api/native/snapshots/snapshot-worker.cpp:1465-1501 | a snapshot ride computes the greedy continuation on top of the parent and, when it succeeds, leaves the contexts holding exactly the parent |
| `Registry.HoldingsPublish` | unridden/api/snapshots/store.py:456-486 | the files published for a resident record are its snapshot's, so books and worker still agree |
| `DiskIndex.ReadManifests` | unridden/api/snapshots/store.py:555-626 | the first pass indexes every directory whose manifest is readable, or fails at one that is not |
| `DiskIndex.RebuiltHoldings` | unridden/api/snapshots/store.py:553-650 | a new worker that holds nothing agrees with the rebuilt books, and the files are still those of faithful snapshots |
| `Offspring.AnsweredIsStock` | unridden/api/snapshots/service.py:494-499 | with exact causal kernels each answer of a batch reads what the uninterrupted model reads at the last token of its full prompt |
| `Offspring.RidIsGreedy` | unridden/api/snapshots/service.py:651-660 | with exact causal kernels each ride is the uninterrupted model's greedy continuation of its full prompt, trace included |
| `SnapshotService.Service.SnapshotsAreStock` | unridden/api/snapshots/service.py:232-265 | between requests, with exact causal kernels, all the worker holds and every published directory is what the uninterrupted model holds for those tokens, the last head input included, with nothing missing of its depth |
| `SnapshotService.Service.PromoteUnderLease` | unridden/api/snapshots/service.py:344-375 | the 18 is leased, brought back and promoted, and the 30 registered beside it, or nothing is left of it |
| `SnapshotService.Service.PlanReplacement` | unridden/api/snapshots/service.py:381-399 | a recorded anchor is found, needs no promotion, begins the record's tokens and is handed down again; without one the replacement is unsupported |
| `SnapshotService.Service.CompileAll` | unridden/api/snapshots/service.py:468-481 | one prompt for each question in order, or an error exactly when some question does not compile |
| `SnapshotService.Service.Metadata` | unridden/api/snapshots/service.py:699-701 | the stored fields of the record, or missing exactly when it is not there after the expiry; exactly what expired goes, nothing else changes, but the record was then used last |
| `QuestionWorker.Evaluator.PrefillMore` | unridden/api/native/worker.cpp:373-386 | the cells of a chunk-exact prefill of that range and its token count, unless a decode fails |
| `PackedWorker.PackedContext.DecodePrefix` | unridden/api/native/worker.cpp:492-506 | the shared prefix is decoded once, chunk by chunk, for the first question alone, and each of its tokens sees exactly the prompt up to itself |
| `PackedWorker.PackedContext.FillBatch` | unridden/api/native/worker.cpp:528-545 | the slots of one batch, each with its question, position and whether it is read, and one more token counted for its question |
| `PackedWorker.PackedContext.Collect` | unridden/api/native/worker.cpp:565-607 | the final checks never fire: every question has the logits read at its last token, its sequence holds its prompt, and processed plus reused tokens are its prompt |
| `Auroc.RankGroup` | scripts/unridden/bench_competitor_laya.py:294-295 | the inner loop gives every member of a tie group its averaged rank and leaves the ranks of smaller scores right |
| `PackedWorker.PackedContext.CopyPrefix` | unridden/api/native/worker.cpp:507-510 | after the copies every question's sequence holds the shared prefix of its own prompt, and no cell was added |
| `PackedWorker.PackedContext.Turn` | unridden/api/native/worker.cpp:528-563 | one batch of remainder tokens: each sees exactly its own prompt up to itself, is counted once, and the logits of a last token go to its question |
| `WorkerRuns.RidesAgree` | unridden/api/native/snapshots/snapshot-worker.cpp:1406-1543 | over every run, a ride on a 30 that a create or a promotion made answers as a split prefill of the same prompt broken at its length does, wherever either was asked; the baseline works exactly the skipped tokens more |
| `Threads.AnchorAlongThread` | unridden/api/snapshots/service.py:379-457 | over any history in which no record changes and none comes back, in a chain of follow-ups and replacements each asked of the child the one before saved, every child records the first one's anchor for as long as it lives, and every replacement goes back to it without a promotion |
| `Threads.AnchorStays` | unridden/api/snapshots/service.py:379-457 | at any later time at which such a child is there, so is the anchor, a 30 with boundary context whose tokens begin the child's |
| `Threads.ChildSays` | unridden/api/snapshots/service.py:433-457 | what a child recorded when it was saved is what it says for as long as it lives, and an id never comes back for another snapshot |
| `Threads.LeavesNow` | unridden/api/snapshots/service.py:482-541 | what an answered request leaves takes the thread of the snapshot it was asked of further, once for every saved child |
| `Threads.RebuildOnward` | unridden/api/snapshots/store.py:553-650 | a rebuild from the directories, as Rebuild and Recover ensure it, changes no record and brings none back that was gone |
| `ServiceRuns.Serve` | unridden/api/snapshots/service.py:233-265 | any list of requests, lookups, deletions, restarts and clock changes is a run: each step keeps the service's invariant, changes no record, brings no id back, makes only its own ids, takes no unexpired disk snapshot but by a deletion, and answers as its request promises |
| `ServiceRuns.AnchorThroughRun` | unridden/api/snapshots/service.py:379-457 | in every run, through any chain of follow-ups and replacements, whatever comes between: the anchor of the first is handed down, every replacement goes back to it without a promotion, and every child still there names it, with the anchor there and beginning the child's tokens |
| `ServiceRuns.RideThroughRun` | unridden/api/snapshots/service.py:634-657 | in every run, a ride that replaces the question of a child of such a chain is read from its anchor without a promotion |
| `ServiceRuns.SameQuestionOnThread` | unridden/api/snapshots/service.py:379-423 | in every run, the same question asked of the context twice on one chain compiles to the same prompt of the same snapshot and, with exact causal kernels, reads the same logits |
| `ServiceRuns.DiskThroughRun` | unridden/api/snapshots/store.py:553-650 | in every run, restarts included, a published snapshot stays with its fields and files until a deletion of it is done or its time is over, and a lookup finds it |
| `ServiceRuns.QuestionServed` | unridden/api/snapshots/service.py:461-632 | in every run, a question on a snapshot that is there, with an anchor if it replaces one, and that compiles, is answered unless the store, the worker or the transport fails |
| `Offspring.SavedNext` | unridden/api/snapshots/service.py:525-541 | registering one more child leaves every earlier one as it was recorded, on disk if its parent is, and missing only if memory-only and evicted for room |
| `Offspring.ChildRecorded` | unridden/api/snapshots/service.py:433-457 | a registered child names the plan's effective parent and anchor and has the question's tokens and digest and its parent's persistence |
| `Ledger.EvolvesTrans` | unridden/api/snapshots/service.py:232-265 | corollary of the frame that `Decide`, `Create` and `Ride` ensure: one operation after another still changes no record that stays, and removes only what was expired, what was memory-only and evicted for room, and the request's own |
| `Ledger.DiskStays` | unridden/api/snapshots/store.py:376-405 | corollary of the frame that `Decide`, `Create` and `Ride` ensure: whatever a request does, another's unexpired disk snapshot stays, with its fields, its tokens and its files |
| `Ledger.MemoryGoesForRoom` | unridden/api/snapshots/store.py:399-404 | corollary of the frame that `Decide`, `Create` and `Ride` ensure: an unexpired memory-only snapshot goes only unleased and by an eviction taken while there was no room |
| `Descent.ReclaimedOnly` | unridden/api/snapshots/store.py:150-188 | after an expiry exactly the unexpired or leased and their ancestors are left, with all their fields but reference counts, and directories and worker have lost just the others |
| `Descent.CountsChildren` | unridden/api/snapshots/store.py:183-186 | a reference count is zero exactly when no record names the snapshot |
| `Base64.NonzeroBits` | unridden/api/snapshots/schema.py:226-230 | a string whose padding bits are not zero, accepted by the decoder, and not the encoding of the byte it yields |
| `Base64.EncodingHasZeroBits` | unridden/api/native/snapshots/snapshot-worker.cpp:234-250 | the worker's text has zero padding bits, so a decoder that insists on them accepts it too |

## Left out

- Aliasing of record objects: a record of the store is a value in one map, and changing a field replaces the value; the source changes the object in place.
- Floating point, GPU kernels, attention, softmax and the vocabulary summary: logits and rows are opaque values; AUROC is over the reals.
- Tokenization, chat templates, JSON, SHA-256 and pydantic parsing: rendering, freezing and compiling are uninterpreted functions of the prompt, with the one assumption that a prompt never renders to no tokens.
- Files: publication by rename, directory removal, hashes and manifests are atomic; a directory or file that fails its checks is one nondeterministic outcome ("cannot be read, or differs"). fsync, temporary names and partial deletes are not modelled.
- A disk that this store did not write: the rebuild accepts exactly the disks described by `DiskIndex.LoadDiskIndex`, and only for a disk the store wrote are the rebuilt books proved right; the source does not check manifests for cycles.
- Progress: a decode, a file or a worker's answer may always fail, so no contract says that a request must succeed; contracts say what is refused for its own sake, and that all else is such a failure.
- The clock within a request: it is fixed there, so nothing expires between two steps of one request.
- Single flight (the busy flag), the recovery back-off, the background recovery task and a restarted worker of another profile: requests and recovery are whole methods that run one after the other.
- SnapshotService.Service.Recover: the worker dies only between requests and the rebuild after a restart succeeds (in the source a failed rebuild leaves the old store beside a ready worker); the rebuilt index is put into the same store object, started over, where the source makes a new object over the same directory.
- SnapshotService.Service.Decide: does not promise that every memory-only child is still there when the answer is returned, because registering a later sibling may evict an earlier one; a disk child and the last one always are.
- SnapshotService.Service.Ride: like Create, Decide and StateEval, it says of each eviction on the way that more was resident than was to be left; how much was to be left is said by `SnapshotStore.Store.Register` and `SnapshotStore.Store.Restore`, and not again for the whole request.
- The times in a usage report (restore, promotion and inference).
- SnapshotService.Service.Create: returns the worker's logits, which the HTTP answer of the source drops.
- SnapshotWorker.Worker.Evaluate: does not publish children all or nothing, because the source does not; the service's rollback repairs it.
- SnapshotStore.Store.Restore: requires an open lease on the record, which every caller in the service holds.
- SnapshotStore.Store.Delete: requires that nothing else in the worker shares the blob of an unreferenced record, which the service's invariant gives.
- ByteBooks.BooksCoverWorker: counts K/V and H18/H30 blobs, not the last normalized vector of a created snapshot, which the source does not charge either.
- A saved state of no bytes and a time to live of zero: both are assumed positive.
- The readouts made from the logits (label logits, allowed mass, top logits), and the vectors, inspect and reference requests but for the shape and encoding of an exported vector.
- The float32 values that the checked bytes of a vector stand for, and what the decoder of one Python release or another makes of surplus `=` after a complete group, which the model rejects.
- Transport.AcceptedAnswersItsRequest: rests on the child answering one line for each request line, in order.
- The v1 transport (native_backend.py), which repeats the snapshot transport.
- HTTP routes, owners and authorization, the CLI, building and fetching, prompt wording, benchmarks other than AUROC, and expected_calibration_error: plumbing or easy members.
