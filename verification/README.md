# A verified model of the prism-serve control plane

prism-serve is the control plane of a prefill/decode cluster: a Gateway, a
scheduler, a router over cached prefixes and an operator tool that restarts and
initializes the four-worker world. This project models its crash-tolerant and
reply-loss-tolerant protocols in Dafny and proves what they keep over whole
runs. The command for the whole project is `dafny verify dfyconfig.toml`.

How the parts are modelled:

- **Replacement store** (`StoreModel`, `StoreHistory`, `ReplacementStore`): the
  class updates its fields after writes to an explicit disk (file and orphan
  temp flag). Every method is proved equal to one step of a pure history model,
  and the history theorems range over all sequences of requests, failed writes,
  crashes and reopenings.
- **Gateway** (`Gateway`): an object over that store. Every wait of an
  acceptance lets background refreshes, task failures and world changes happen
  any number of times. A restart is a new object over the same disk, and each
  accept call returns the requests it made of the store, so that any number of
  Gateway lives is one history of the store model.
- **Operator tool** (`Restart`, `Termination`, `Initialize`): the restart
  controller threads its run file and a trace of every saved state and call
  through all its lives; the watch consumer is a loop over an arbitrary event
  stream that writes the controller's journal; initialization is a state machine
  of any number of initializers and a server that applies JSON Patch (RFC 6902)
  documents.
- **Whole replacement** (`Replacement`): joins the controller's trace and the
  Gateway's history over the bodies that travel between them.
- **Prefix path** (`PrefixIndex`, `Reconciler`, `Fingerprint`, `Router`,
  `Affinity`, `PrefixLoad`): the directory and the load operation are objects. At
  each wait of the reconciler, any number of complete segments of the same code and
  any growth of the workers' logs may happen. A precondition on a remote call of the
  load operation is the safety obligation of its caller: each path that frees
  blocks, drops a pin or gives back a slot proves that it may. A call of the load
  may be answered, take effect unanswered, or be given up and take effect later.
- **Network control** (`NcclSequencer`, `OperationRegistry`, `OwnerTakeover`,
  `ResourceRelease`): the launch gate is a state machine over the events of
  interleaved tasks; the takeover returns the trace of everything it sent and saw,
  with arbitrary replies; the cleanup of a request takes the workers' answers and
  what other tasks do at each wait as a script.
- **Scheduler and output** (`Cleanup`, `Output`): cleanup of one request with
  workers restarting and the request changing phase at every wait; output
  states are objects in a heap that a reader may hold after eviction.

`Wrappers`, `Recency` and `SlotLease` hold what several of these share.

Replies, failures, timeouts, clocks and random identifiers are
nondeterministic. Digests are injective constructors or functions; accept bodies
are assumed collision free where that is needed, and so is the block hash on
blocks of one length. A few predicates (`Unfolding`, `Tables`, `Ledgers`) are true
everywhere and exist to name the places where a proof looks into a definition.

## What turned out false

- The store writes records and seals with empty fields that it later refuses to
  load. `StoreModel.PersistedRecordReloadsIff`,
  `StoreModel.PersistedBatchReloadsIff` and `StoreModel.WrittenSealReloadsIff`
  give the exact conditions; `StoreHistory.EmptyFieldIsWrittenThenRefused` and
  `StoreHistory.EmptyGenerationIsWrittenThenRefused` give one input each.
- A run id can be sealed again once its seal has left retention:
  `StoreHistory.RunSealedTwice` is such a history and `StoreHistory.ResealsIff`
  the exact condition.
- The scheduler lets a quarantined worker be reconciled into the epoch it
  already had. If that happens during a cleanup that then gives a slot back, the
  slot may belong to another request: `Cleanup.SameEpochReconcileOverReleases` is
  such a run, and `Cleanup.Request.FenceAndAbort` proves that the count is right
  exactly when this does not happen.
- A committed load does not always end with an active slot.
  `PrefixLoad.CommittedButQuarantined` is such a run and
  `PrefixLoad.Operation.Cleanup` states the exact condition.
- The order of honest output updates matters when one of them is an error report
  shorter than what is buffered: `Output.ShortEndIsLost` gives two such updates
  and `Output.FoldedUpdates` the exact condition.
- A stream repeats itself when the tracker forgets a request after tokens were
  sent: `Output.TrackerLossRepeatsTokens` is such a run. By
  `Output.GatewayOutputBuffer.Stream` nothing is repeated while the tracker knows
  the request or if nothing was sent before it forgot, and all of it is repeated
  if the request still has the state it was read from.
- Removing an instance does not remove every cursor of it:
  `PrefixIndex.RemovedInstanceKeepsCursor` keeps one, and
  `PrefixIndex.Directory.RemoveInstance` says exactly which ones go. The view of
  such an owner is empty, so the directory stays coherent.
- The code that replays a remembered run from the Gateway's ledger is never
  reached (`Gateway.App.CheckFresh`): such a run is answered from its seal or
  refused.

## Remarks on bare interfaces

These concern what an interface allows, not what the repository's own callers do.

- Two refs handed in with the same number are merged by the de-duplication of a
  cleanup (`OperationRegistry.ForeignRefIsLost`;
  `OperationRegistry.NetworkControl.CleanupCandidates` states exactly when none is
  dropped). Every caller in the repository numbers its refs with the registry's
  own allocator, and for such programs
  `OperationRegistry.EveryCandidateIsVisited` proves that none is.
- A client of the prefix cache protocol whose calls can be given up and executed
  later may leave a pin or target blocks behind a released slot
  (`PrefixLoad.LatePinEscapes`, `PrefixLoad.LatePrepareEscapes`;
  `PrefixLoad.Operation.Run` proves the claim for every other load). No client in
  the repository is one: calls of the in-process client complete, and for network
  control the coordinator uses that client's own cleanup
  (prism_serve/router/coordinator.py:53-56), and that client calls an operation
  aborted only when its worker has fenced it
  (prism_serve/router/network_rpc.py:1195-1207).
- A ref that joins an operation while its cleanup runs, or after its plan was
  made, is not covered by that plan: `ResourceRelease.RequestCleanup.ReleaseSlot`
  states exactly which refs are settled when the slot goes back.

## Model

| member | source | states |
|---|---|---|
| StoreHistory.SealHistory | prism_serve/scheduler/replacement_store.py:308-474 | Over every run of requests, failed writes, crashes and reopenings: durable seals are numbered 1, 2, 3, … without gap or reuse, the retained list is the latest suffix of that history within the bound, each seal's count and root describe exactly the records made durable for its run, each lease has at most one decision in the active segment, and a run id recurs only after its seal left retention |
| StoreHistory.CrashRefinement | prism_serve/scheduler/replacement_store.py:418-584 | After any history, a request cut off at any write step and any number of reopenings each cut off at its own write, what is on disk settles to exactly the image before or after the request, whichever it was at first, and the next undisturbed reopening serves that or stays unusable because of an orphan temp file |
| StoreHistory.InterruptedReopenings | prism_serve/scheduler/replacement_store.py:562-584 | However often a reopening dies at its own garbage-collection write, the settled image and the history stay the same and an orphan temp file stays noticed |
| StoreHistory.ResealsIff | prism_serve/scheduler/replacement_store.py:418-474 | A run id can be sealed, again or for the first time, exactly when none of the latest seals up to the retention is of that run; otherwise the store refuses and nothing changes |
| StoreHistory.RunSealedTwice | prism_serve/scheduler/replacement_store.py:418-474 | One concrete history with retention one in which the same run id is sealed twice |
| StoreHistory.RetainedIff | prism_serve/scheduler/replacement_store.py:459-465 | A seal of a run is retained exactly while one of its seals is among the latest |
| StoreHistory.NothingIsMadeUp | prism_serve/scheduler/replacement_store.py:308-474 | Over every history, each durable seal carries the run, generations and decision of a seal request, and each record it describes was handed over by a persist request |
| StoreHistory.EmptyFieldIsWrittenThenRefused | prism_serve/scheduler/replacement_store.py:350-416 | A concrete record with an empty digest is persisted with success, and the next process refuses the file |
| StoreHistory.EmptyGenerationIsWrittenThenRefused | prism_serve/scheduler/replacement_store.py:418-474 | A concrete seal with an empty new generation is written with success, and the next process refuses the file |
| StoreHistory.EveryRunKeepsInv | prism_serve/scheduler/replacement_store.py:476-584 | Whatever the history, the file on disk is one a reopened store accepts, and a running store never holds a half-sealed segment |
| StoreHistory.PlanIsAtomic | prism_serve/scheduler/replacement_store.py:626-686 | What a cut-off batch leaves on disk settles to the image before or after it |
| StoreHistory.SealIsAtomic | prism_serve/scheduler/replacement_store.py:418-474 | What a seal cut off at either of its two writes leaves on disk settles to the unsealed or the fully sealed image |
| StoreHistory.ReopenedImage | prism_serve/scheduler/replacement_store.py:562-584 | An undisturbed reopening serves the stored image with a half-written seal completed, and every other image as it is |
| StoreModel.PersistedRecordReloadsIff | prism_serve/scheduler/replacement_store.py:308-348 | A record just persisted can be loaded again exactly when all its fields are non-empty; the store does not check this on the way in |
| StoreModel.PersistedBatchReloadsIff | prism_serve/scheduler/replacement_store.py:350-416 | A batch just persisted, the way the Gateway writes, can be loaded again exactly when every record in it has non-empty fields |
| StoreModel.WrittenSealReloadsIff | prism_serve/scheduler/replacement_store.py:418-474 | A seal just written can be loaded again exactly when its new generation is non-empty; the store does not check this on the way in |
| StoreModel.PersistKeepsAcceptable | prism_serve/scheduler/replacement_store.py:308-348 | Persisting one well-formed record turns an acceptable image into an acceptable, not half-sealed one |
| StoreModel.BatchKeepsAcceptable | prism_serve/scheduler/replacement_store.py:350-416 | The same for a batch |
| StoreModel.SealKeepsAcceptable | prism_serve/scheduler/replacement_store.py:418-474 | The first write of a seal leaves an acceptable image whose receipt describes its segment, so a reload can finish it |
| StoreModel.AddAllKeeps | prism_serve/scheduler/replacement_store.py:377-398 | A merged batch keeps every stored record, adds only the batch, and gives no lease two decisions |
| ReplacementStore.ParseRecords | prism_serve/scheduler/replacement_store.py:514-524 | Parsing succeeds exactly on well-formed records with distinct keys and distinct leases, and returns the table they stand for |
| ReplacementStore.CheckSeals | prism_serve/scheduler/replacement_store.py:543-556 | The neighbour and set checks accept exactly the seal lists that are well formed, strictly rising, free of repeated runs and within retention |
| ReplacementStore.CheckSegment | prism_serve/scheduler/replacement_store.py:525-542 | Accepts exactly the segments whose records all belong to the active run and its decision |
| ReplacementStore.Disk.AtomicWrite | prism_serve/scheduler/replacement_store.py:673-686 | How far a write got decides what survives: the old file, the old file with an orphan temp, or the new one |
| ReplacementStore.ReplacementDecisionStore.constructor | prism_serve/scheduler/replacement_store.py:114-142 | Opening a store is one reopening step of the history model, on disk and in memory |
| ReplacementStore.ReplacementDecisionStore.Load | prism_serve/scheduler/replacement_store.py:476-560 | Loads exactly the acceptable images that have no orphan temp file beside them |
| ReplacementStore.ReplacementDecisionStore.CommitState | prism_serve/scheduler/replacement_store.py:626-655 | Memory adopts an image only after a confirmed write; a failed write makes the store refuse everything |
| ReplacementStore.ReplacementDecisionStore.ExactCompletedRun | prism_serve/scheduler/replacement_store.py:192-224 | Answers with a seal exactly if that is the retained one of this run and its generations and decision are the given ones, with a conflict exactly if the retained one differs in any of them, with nothing exactly if none is retained, and with unavailability exactly if a write had failed |
| ReplacementStore.ReplacementDecisionStore.PersistRecord | prism_serve/scheduler/replacement_store.py:308-348 | One persist step of the history model; a success means the record is in the table, a replay changes nothing |
| ReplacementStore.ReplacementDecisionStore.Merge | prism_serve/scheduler/replacement_store.py:377-398 | The lease-indexed merge computes the same table as adding the records one by one |
| ReplacementStore.ReplacementDecisionStore.PlanRecords | prism_serve/scheduler/replacement_store.py:350-412 | Every refusal of a batch and the image it would write, as the model decides them |
| ReplacementStore.ReplacementDecisionStore.PersistRecords | prism_serve/scheduler/replacement_store.py:350-416 | One batch step of the history model; a success means every record is stored and the run had no retained seal |
| ReplacementStore.ReplacementDecisionStore.SealRun | prism_serve/scheduler/replacement_store.py:418-474 | One seal step of the history model; a success means the seal is retained, and for a new seal the segment is gone |
| ReplacementStore.Execute | prism_serve/scheduler/replacement_store.py:114-474 | The class refines the history model over whole runs: any sequence of requests, failed writes, crashes and reopenings carried out on objects leaves the file and the memory of the last process as the model says |
| ReplacementStore.Perform | prism_serve/scheduler/replacement_store.py:114-474 | One request, crash or reopening on objects is one step of the model |
| Gateway.App.Accept | prism_serve/gateway/app.py:2068-2180 | In every branch and interleaving: accepting implies nothing pending, store sealed and no failed task; the store changes exactly by the returned requests, all of them for this body; while the run has a retained seal (or the store is unusable) neither disk nor memory of the store changes and no slot is given back; a normal return means this run is in the ledger, sealed and admission is open |
| Gateway.App.RecoverSealed | prism_serve/gateway/app.py:2742-2827 | Replaying a retained completion rebuilds the ledger and opens admission without touching the store or any slot |
| Gateway.App.RecoverCold | prism_serve/gateway/app.py:2606-2739 | An acceptance after a crash with nothing local writes only an empty segment and its seal, releases no slot, and leaves a frozen run's store untouched |
| Gateway.App.RecoverUnsealed | prism_serve/gateway/app.py:2830-2922 | An acceptance after a crash between records and seal changes the store by at most the one seal request of this run and gives back no slot |
| Gateway.App.AcceptFresh | prism_serve/gateway/app.py:2145-2185 | A run this process remembers is refused, as reused with other evidence and as unknown otherwise, and so is one that does not start from the active world; a refusal changes nothing |
| Gateway.App.CheckFresh | prism_serve/gateway/app.py:2145-2185 | The checks decide exactly that refusal; the replay of a remembered run from the ledger that follows them in the code is never reached |
| Gateway.KnownRunIsNotCurrent | prism_serve/gateway/app.py:2145-2176 | A remembered run sent again with the same evidence never starts from the world it led to |
| Gateway.App.ReplaceWorld | prism_serve/gateway/app.py:2186-2517 | Decisions durable, ledger, slots, new world, seal, admission: the first so many of these have happened and no other, all of them exactly on a normal return, and none for a frozen run; the slots given back are those of the leases still live when the old world has stopped, all named by the body and none given back before, and after them no lease is live |
| Gateway.App.PersistDecisions | prism_serve/scheduler/resource_release.py:251-290 | Success means every old lease has its decision in the durable table; a frozen run is refused without a write |
| Gateway.App.ReleaseSlots | prism_serve/scheduler/resource_release.py:292-296 | Slots go back once each: for quarantined leases only, which become released, and only where the decision is already durable |
| Gateway.App.SealReplacement | prism_serve/scheduler/resource_release.py:298-313 | Success means no live lease is left and the run's seal is retained; with a live lease nothing is asked of the store |
| Gateway.App.Publish | prism_serve/gateway/app.py:2398-2517 | From a committed ledger to the installed world, then a sealed store, then open admission, each only after the one before |
| Gateway.App.Commit | prism_serve/gateway/topology_admin.py:249-263 | The ledger moves to the candidate world and remembers the run, or stays as it was |
| Gateway.App.RecoverLedger | prism_serve/gateway/topology_admin.py:272-291 | The rebuilt ledger finds exactly this run, unless another decision already holds its id |
| Gateway.RememberFinds | prism_serve/gateway/topology_admin.py:257-262 | The newest run is always found and the ledger stays within its cap |
| Gateway.App.Begin | prism_serve/gateway/app.py:3525-3537 | Closes admission for a non-empty generation unless another one is pending, and otherwise changes nothing |
| Gateway.App.Finalize | prism_serve/gateway/app.py:3549-3590 | Opens admission exactly when the pending generation is installed, committed, fresh, sealed, prefix-ready and every task lives |
| Gateway.App.RefreshOnce | prism_serve/gateway/app.py:3270-3290 | A sweep publishes readiness only when every gate allows it |
| Gateway.App.OnTaskDone | prism_serve/gateway/app.py:3777-3790 | A control task that ends by itself closes admission and marks the process failed |
| Gateway.App.Startup | prism_serve/gateway/app.py:722-733 | The first readiness obeys the same gate |
| Gateway.App.Interleave | prism_serve/gateway/app.py:3367-3372 | Whatever background work runs during a wait, the gate holds, a failure is never forgotten and a pending generation keeps admission closed |
| Gateway.Serve | prism_serve/gateway/app.py:2041-2065 | Over a whole process life with any accept calls, the gate holds at every step and a failed process never accepts again |
| Gateway.RepeatAfterSeal | prism_serve/gateway/app.py:2095-2126 | From any history that left the run's seal on disk, any further crashes, reopenings and requests for its body leave the seals and the next number as they were and add no record; at most a reopening finishes the seal that was there |
| Gateway.OneLife | prism_serve/gateway/app.py:2041-2126 | One process life with any calls, background work and requests in between: the file is what the extended history of store operations says, and every call is sound |
| Gateway.Lives | prism_serve/gateway/app.py:2041-2185 | Over any number of Gateway lives on one disk with any accept calls: the file is what the history of their store requests, crashes and reopenings says, that history keeps the store invariant, a call about a run whose seal is on disk writes nothing and gives back no slot, and an accepted call leaves its seal on disk |
| Replacement.ReplacedOnce | scripts/pd_worldctl.py:1707-1751 | Over all lives of the controller and of the Gateway, with calls lost, delayed and repeated: every durable seal of the controller's run is of the one body it sent, with that body's generations and decision, describes only decisions made for it, and no two of them are within the retention of each other |
| Replacement.AcceptedMeansSealed | scripts/pd_worldctl.py:1729-1751 | The controller upgrades the deployed world and ends its run as accepted only when the run is sealed on the Gateway's disk with the body the controller sent |
| Replacement.SealIsOfTheRun | prism_serve/gateway/app.py:2068-2185 | A durable seal of the run exists only if the controller has saved and sent its body |
| Gateway.FrozenStays | prism_serve/scheduler/replacement_store.py:350-362 | No request about a run with a retained seal changes the store |
| Restart.RestartUntilDone | scripts/pd_worldctl.py:5092-5160 | Over any number of controller lives with a crash anywhere, the saved states and calls obey the restart invariant that the lemmas below read off |
| Restart.NothingStartsBeforeFourProofs | scripts/pd_worldctl.py:2324-2342 | Every generation patch, scale-up or started-world upgrade is preceded by a saved state whose four proofs bind the captured old processes |
| Restart.OnePermit | scripts/pd_worldctl.py:2344-2414 | All permits sent in a run are one and the same, and it was on disk, for the new generation and for Pods none of which is old, before the first was sent |
| Restart.OneAcceptBody | scripts/pd_worldctl.py:2416-2488 | All accept calls of a run carry one body, saved before the first call, that names this run, the permitted Pods and the proofs of the captured processes |
| Restart.FourProofsAreDistinct | scripts/pd_worldctl.py:4979-4985 | Four binding proofs are necessarily of four different Pods and containers |
| Restart.RestartOnce | scripts/pd_worldctl.py:1675-1842 | One life of the controller, from whatever checkpoint it finds, keeps the restart invariant |
| Restart.Terminate | scripts/pd_worldctl.py:1818-2279 | From a capture or a resumed run file to four binding proofs on disk, or a crash with the invariant kept |
| Restart.Prepare | scripts/pd_worldctl.py:2298-2465 | From four proofs to the accept body on disk, resuming at any checkpoint between |
| Restart.RecordAcceptance | scripts/pd_worldctl.py:2475-2488 | The deployed world carries the stored permit, and only then is the run over |
| Restart.Save | scripts/pd_worldctl.py:5023-5040 | The run file is the old or the new state, never anything else, and progress never goes back |
| Restart.RecordTermination | scripts/pd_worldctl.py:4952-4977 | A proof is taken exactly when its sealed record is canonical, it binds the captured process and it agrees with any earlier one |
| Restart.JournalProofs | scripts/pd_worldctl.py:1578-1629 | Returns exactly the proofs observed and passed and never failed, one per member, or reports that the journal contradicts itself |
| Restart.RestoreProofs | scripts/pd_worldctl.py:1818-1841 | Run file and journal are merged only where they agree and bind |
| Restart.Capture | scripts/pd_worldctl.py:1854-1906 | The old world is on disk before anything is stopped |
| Restart.StopAndObserve | scripts/pd_worldctl.py:2158-2279 | Termination is checkpointed only with four binding proofs on disk |
| Restart.ObserveOne | scripts/pd_worldctl.py:2174-2243 | Raw events, observation, verdict and checkpoint are each on disk before the next, whatever the watch delivers and wherever the life ends; every observation stays linked to the raw events it was made from |
| Restart.JudgeAndCheckpoint | scripts/pd_worldctl.py:2215-2243 | Only a proof found in the journal and taken by the guard is checkpointed, after its verdict |
| Restart.BringUp | scripts/pd_worldctl.py:2329-2342 | Patch and scale-up resume from their checkpoint and never precede the proofs |
| Restart.IssuePermit | scripts/pd_worldctl.py:2344-2414 | The permit is on disk before it is published and is never rebuilt |
| Restart.CollectEvidence | scripts/pd_worldctl.py:2416-2465 | A body that names another run, new generation, Pod or proof is refused; the accepted one is on disk first |
| Restart.Finish | scripts/pd_worldctl.py:1707-1751 | Accept is called with the stored body, and the run ends only after an accepted reply to it |
| Restart.EndsAfterAcceptance | scripts/pd_worldctl.py:1729-1751 | Over all lives, the deployed world is upgraded and the run saved as accepted only after the stored body was sent and then accepted |
| Restart.EveryAcceptBodyIsValid | scripts/pd_worldctl.py:1719-1728 | Whatever accept call is ever made carries four termination records that pass the joint check of the authority, so a resumed run never fails it |
| Termination.Consume | scripts/pd_worldctl.py:4144-4436 | For every watch stream: a returned proof binds the captured container, was frozen from a MODIFIED event, agrees with every event read and was never replaced; a deleted one is linked to two journal entries, the end strictly before the DELETED event |
| Termination.ShownIsBound | scripts/pd_worldctl.py:3942-4048 | Whatever termination an event shows is of the captured container and obeys the source and restart-count rule |
| Termination.AgreesIff | scripts/pd_worldctl.py:4052-4098 | A later view matches the frozen proof exactly when it is the same end, exit, signal, reason, message and times included, seen in the same way or in the one allowed advance from state to last state |
| Termination.TakeFreezes | scripts/pd_worldctl.py:4290-4400 | A frozen proof is kept; a first one comes from this very event and its journal entry |
| Termination.TakeAgrees | scripts/pd_worldctl.py:4290-4360 | An event that is not refused agrees with the proof kept |
| Termination.CompleteLinks | scripts/pd_worldctl.py:4385-4432 | Completing a journalled frozen proof by a journalled deletion yields a linked one |
| Termination.WatchProofAcceptedIff | prism_serve/gateway/termination_authority.py:91-223 | The validator accepts a watch's proof exactly when the values put in by Kubernetes and the capture are good; structure, order and the source rule never fail |
| Termination.WatchProofIsInJournal | scripts/pd_worldctl.py:286-334 | Both transitions a watch's proof names are found in the journal, however it has grown since |
| Termination.NumbersAreApart | prism_serve/gateway/termination_authority.py:263-276 | Proofs of different Pods over one journal never share a journal number |
| Termination.FourWatchesAccepted | prism_serve/gateway/termination_authority.py:240-277 | Four proofs of four captured processes over one journal are accepted as a set once each has good values |
| Initialize.OneIdentityForever | scripts/pd_worldctl.py:1247-1492 | For any number of initializers, crashes, lost replies and patches applied late or repeatedly: every version of the ConfigMap follows from the one before by a legal step, with one identity and one permit throughout, and whoever reports success owns the accepted identity and its permit |
| Initialize.EveryRunKeepsInv | scripts/pd_worldctl.py:1247-1492 | Every patch ever sent was computed from a version that existed and allowed it, and every run file that says accepted is right |
| Initialize.PatchMeans | scripts/pd_worldctl.py:3194-3230 | The patch document, applied operation by operation as sections 4.1, 4.3, 4.6 and 5 of RFC 6902 define, changes exactly the version it was computed from |
| Initialize.GuardsHoldOrFail | scripts/pd_worldctl.py:3201-3217 | The three leading tests make the whole patch fail on any other uid, version or state |
| Initialize.DeliveryLeads | scripts/pd_worldctl.py:3233-3423 | Whatever the server makes of a delivered patch is the ConfigMap as it was or one legal step from it, and sound |
| Initialize.NodeStepKeeps | scripts/pd_worldctl.py:1262-1492 | Every local decision of an initializer keeps what it may rely on later |
| Initialize.StepKeeps | scripts/pd_worldctl.py:3233-3423 | Every step of the whole system keeps the invariant |
| PrefixLoad.Operation.LoadCachedPrefix | prism_serve/router/loader.py:81-194 | Wherever a load stops, and whether its last call took effect, took effect unanswered or may still do so later, the slot is held and never given back; a success means the target is committed and a local pin is consumed |
| PrefixLoad.Operation.CleanupLoadContext | prism_serve/router/loader.py:197-239 | One attempt from any stage with other cleanups and late calls interleaved: aborted means slot released and source unpinned with the target neither prepared nor committed unless a delayed prepare can still arrive, committed means unpinned, quarantined means quarantined; the slot is released at most once |
| PrefixLoad.Operation.CleanupPrepared | prism_serve/router/loader.py:209-232 | The same for an operation without a transfer |
| PrefixLoad.Operation.CleanupMappedOperation | prism_serve/router/loader.py:252-297 | Target blocks are freed and the source unpinned only when the transfer can no longer write or read |
| PrefixLoad.Operation.ReleaseSlot | prism_serve/router/loader.py:242-249 | Callable only when nothing on either worker depends on the slot; an active lease refuses |
| PrefixLoad.Operation.UnpinPrefix | prism_serve/router/loader.py:51-51 | Callable only when no transfer may still read the source, not even one that was given up and starts late |
| PrefixLoad.Operation.AbortCachedPrefix | prism_serve/router/loader.py:49-49 | Callable only when no transfer may still write the target blocks, not even one that was given up and starts late |
| PrefixLoad.Operation.Cleanup | prism_serve/router/coordinator.py:46-77 | Any number of failed attempts keeps all of this and leaves the slot quarantined or released; with no other cleanup beside it, a committed operation ends with an active slot exactly when no attempt raised before and the slot was not quarantined to begin with, and with a quarantined one otherwise |
| PrefixLoad.CommittedButQuarantined | prism_serve/router/coordinator.py:46-77 | One run of load and cleanup whose outcome is committed with the target kept, the source unpinned and the slot quarantined |
| PrefixLoad.Operation.RecoverUntilProven | prism_serve/router/coordinator.py:148-165 | Recovery stops only with a proven outcome |
| PrefixLoad.Operation.ReleaseSourceUntilProven | prism_serve/router/coordinator.py:102-127 | The recorded pin is cleared only after the real one is gone |
| PrefixLoad.Operation.Run | prism_serve/router/coordinator.py:233-357 | A whole operation, loaded or cleaned up, keeps the slot, the pin and the blocks safe; a slot given back has no pin behind it unless the resolve call was given up, and no target blocks unless the prepare call was sent and given up |
| PrefixLoad.LatePinEscapes | prism_serve/router/loader.py:197-208 | One run through load and cleanup: a resolve call that was given up is executed after the slot went back and leaves a pin |
| PrefixLoad.LatePrepareEscapes | prism_serve/router/loader.py:209-232 | One run through load and cleanup: a worker that says aborted about an operation it has not seen executes its prepare call after the slot went back and leaves target blocks |
| PrefixLoad.Operation.CommitSlot | prism_serve/scheduler/scheduler.py:357-360 | Only a reserved slot becomes active |
| PrefixLoad.Operation.QuarantineSlot | prism_serve/scheduler/scheduler.py:376-380 | Refuses a released slot and quarantines any other |
| PrefixIndex.Directory.Add | prism_serve/router/prefix_index.py:155-159 | Adds one location and keeps both maps in agreement |
| PrefixIndex.Directory.RemoveBlock | prism_serve/router/prefix_index.py:161-170 | Removes exactly the owner's block and keeps both maps in agreement |
| PrefixIndex.Directory.RemoveOwner | prism_serve/router/prefix_index.py:149-153 | Removes exactly one owner's locations, forward entry and cursor |
| PrefixIndex.Directory.RemoveInstance | prism_serve/router/prefix_index.py:140-142 | Removes exactly the locations of the instance, and exactly the cursors of those of its owners that have a forward entry |
| PrefixIndex.RemovedInstanceKeepsCursor | prism_serve/router/prefix_index.py:140-142 | A concrete directory whose instance is removed and whose cursor stays |
| PrefixIndex.Directory.ApplyEvents | prism_serve/router/prefix_index.py:59-79 | Applies exactly the new events in order; also when it raises midway both maps agree, and the cursor moves only if the whole batch was accepted |
| PrefixIndex.Directory.InstallFullReport | prism_serve/router/prefix_index.py:81-89 | Replaces exactly one owner's locations, or stops with that owner's cursor unset and the others untouched |
| PrefixIndex.Directory.InstallWorldFullReports | prism_serve/router/prefix_index.py:91-120 | Succeeds exactly on reports of the expected, distinct owners with their own locations; a rejected world changes nothing |
| PrefixIndex.Directory.IterMatches | prism_serve/router/prefix_index.py:122-138 | Lists, longest first, exactly the reusable lengths with fresh locations, each with all of them |
| PrefixIndex.Directory.Clear | prism_serve/router/prefix_index.py:144-147 | Empties the directory |
| PrefixIndex.AddKeeps | prism_serve/router/prefix_index.py:155-159 | Inverted and forward maps agree in both directions after an addition |
| PrefixIndex.RemoveBlockKeeps | prism_serve/router/prefix_index.py:161-170 | The same after an eviction, with no empty inverted entry left |
| PrefixIndex.RemoveOwnerKeeps | prism_serve/router/prefix_index.py:149-178 | The same after an owner is gone from all its keys |
| Reconciler.BatchFollowsLog | prism_serve/router/prefix_index.py:59-79 | A batch of honest events, however repeated, reordered or gapped, never touches another owner and moves the view along the owner's log to the returned cursor |
| Reconciler.EffectOnView | prism_serve/router/prefix_index.py:72-76 | Receiving an event does to the view what recording it did to the worker, timestamps aside |
| Reconciler.OwnerInstalled | prism_serve/router/reconciler.py:189-204 | Installing an honest report puts that owner at the report's position of its log |
| Reconciler.WorldInstalled | prism_serve/router/reconciler.py:149-165 | Installing an honest world puts every owner at its report's position and leaves no other owner |
| Reconciler.DropRestores | prism_serve/router/reconciler.py:252-267 | Dropping an instance makes good whatever a half-applied batch did to it |
| Reconciler.CheckWorld | prism_serve/router/reconciler.py:137-147 | Accepts exactly the replies of the workers asked, in the epochs expected, and records their positions |
| Reconciler.PrefixReconciler.InstallWorld | prism_serve/router/reconciler.py:137-187 | Succeeds exactly on the expected world, and then the publication, the recorded cursors and the directory agree; otherwise the directory is untouched |
| Reconciler.PrefixReconciler.InstallOne | prism_serve/router/reconciler.py:193-204 | Installs a report of the instance asked and records its position, or changes nothing |
| Reconciler.PrefixReconciler.ApplyOrForget | prism_serve/router/reconciler.py:226-250 | A refused batch is forgotten, with its instance or the whole world, before any other task can look |
| Reconciler.PrefixReconciler.RebuildWorld | prism_serve/router/reconciler.py:125-187 | Success means the expected world is published with cursors that match the directory; the directory is coherent at every call |
| Reconciler.PrefixReconciler.SyncOnce | prism_serve/router/reconciler.py:206-267 | At every call of a poll each owner's view is the fold of a prefix of its log up to the cursor; a returned cursor is the recorded one |
| Reconciler.PrefixReconciler.RunRounds | prism_serve/router/reconciler.py:269-287 | The polling loop keeps this over any number of rounds and failures |
| Reconciler.PrefixReconciler.Await | prism_serve/router/reconciler.py:206-267 | Any number of other reconcile segments and log growth keep the directory coherent |
| Fingerprint.ComputeChainHashes | prism_serve/router/fingerprint.py:42-55 | One chained hash per complete block |
| Fingerprint.ChainHashIdentifiesPrefix | prism_serve/router/fingerprint.py:42-55 | If the step has no collision on blocks of this length, equal chain hashes mean equal depth and equal token prefixes |
| Fingerprint.LayoutIsCollisionFree | prism_serve/router/fingerprint.py:42-55 | The layout that is digested, the block after its predecessor if it has one, is collision free on blocks of one length under any digest that is |
| Fingerprint.PrefixDeterminesChainHash | prism_serve/router/fingerprint.py:42-55 | Equal token prefixes have equal chain hashes |
| Fingerprint.ReusableLeavesSuffix | prism_serve/router/fingerprint.py:86-89 | Exactly (n - 1) div block size blocks are reusable, so a token is always left to prefill |
| Router.AffinityRouter.IterDecisions | prism_serve/router/router.py:28-81 | Returns exactly one decision per eligible candidate at the greatest reusable length that has any, in descending gain, and none exactly when no length has one |
| Router.AffinityRouter.FromLocations | prism_serve/router/router.py:49-78 | One decision for each eligible pair of location and target position at one length, and no other |
| Router.ByGainSorts | prism_serve/router/router.py:81-81 | Sorting keeps every decision, each as often, in descending gain |
| Router.MatchIsThePromptsPrefix | prism_serve/router/router.py:42-48 | Whatever token sequence produced a matched hash agrees with the prompt on exactly the reused blocks, and a suffix token remains |
| Affinity.RouteWhileReconciling | prism_serve/router/router.py:28-81 | After any amount of reconciliation by other tasks, every decision names a worker whose log, up to the directory's cursor, leaves the prompt's first blocks in its cache; if workers hash what they cache, the tokens there are the prompt's own and one is left to prefill |
| Affinity.OfferedIsReported | prism_serve/router/router.py:42-78 | Every decision offered from a coherent directory is backed by the followed part of its source's log |
| Affinity.ReportedIsThePrompts | prism_serve/router/fingerprint.py:42-55 | Tokens announced under a matched hash, and not evicted since, agree with the prompt on the reused length |
| NcclSequencer.OnePairAtATime | prism_serve/router/network_rpc.py:936-1024 | In every interleaving at most one pair is launched and unresolved, and between two launches the first one's end was proven |
| NcclSequencer.PoisonIsForever | prism_serve/router/network_rpc.py:947-951 | After a launch that did not end proven nothing is ever launched again, whatever follows |
| NcclSequencer.EveryRunKeepsInv | prism_serve/router/network_rpc.py:946-1024 | The lock holder is the one task inside the protocol, and the gate is open, busy or shut exactly as the log of launches says |
| NcclSequencer.TerminalTransferFacts | prism_serve/router/network_rpc.py:681-705 | Accepts exactly two completed endpoints with equal positive bytes and full work and device proof |
| NcclSequencer.OnlyProofReopens | prism_serve/router/network_rpc.py:1013-1024 | A later launch implies a proven end of the earlier one in between |
| NcclSequencer.UnresolvedIsTheGate | prism_serve/router/network_rpc.py:946-1024 | The unresolved pairs are the one the gate is busy with or was shut by |
| OperationRegistry.NetworkControl.AllocateNumber | prism_serve/router/http_rpc.py:226-247 | Each target's refs carry the numbers 1, 2, 3, … once each |
| OperationRegistry.NetworkControl.Allocate | prism_serve/router/network_rpc.py:537-548 | Succeeds exactly for a known worker and an operation that is not retired and fits the cap; then files a ref never issued before |
| OperationRegistry.NetworkControl.EnsureOperationCapacity | prism_serve/router/network_rpc.py:576-581 | Refuses exactly retired operations and new ones at the cap |
| OperationRegistry.NetworkControl.RememberExternalRef | prism_serve/router/network_rpc.py:550-554 | Files whatever ref is handed in, exactly when the operation is not retired and fits the cap |
| OperationRegistry.NetworkControl.MarkExternalRefAttempted | prism_serve/router/network_rpc.py:556-559 | Marks exactly remembered refs |
| OperationRegistry.NetworkControl.MarkExternalRefAmbiguous | prism_serve/router/network_rpc.py:561-564 | Marks exactly remembered refs as attempted and ambiguous |
| OperationRegistry.NetworkControl.RetireOperation | prism_serve/router/network_rpc.py:607-639 | Refused while its task runs; otherwise every trace of the operation goes, it is remembered within the cap, and active operations stay within theirs |
| OperationRegistry.NetworkControl.CleanupCandidates | prism_serve/router/network_rpc.py:1411-1429 | One entry per worker and number, each a candidate; every candidate is visited exactly when no two different ones share a worker and a number, and the allocator's own refs never do |
| OperationRegistry.NumberNext | prism_serve/router/http_rpc.py:234-236 | Drawing the next number keeps the numbering gapless and unique |
| OperationRegistry.PlanVisitsAllIff | prism_serve/router/network_rpc.py:1422-1426 | De-duplication by worker and number loses nothing exactly when there is nothing to merge |
| OperationRegistry.NetworkControl.OwnNeverCollide | prism_serve/router/network_rpc.py:1422-1426 | Refs drawn from the allocator for the worker they are sent to never share a worker and a number |
| OperationRegistry.EveryCandidateIsVisited | prism_serve/router/network_rpc.py:1411-1429 | After any run of a program that numbers every ref it hands in with the registry's allocator, a cleanup visits every candidate; an attempted ref of the operation is visited exactly when it is still filed or was dispatched, hence always unless a later ref of its kind, worker and operation took its place |
| OperationRegistry.Perform | prism_serve/router/network_rpc.py:537-639 | Each use of the registry by such a program leaves no foreign ref and every attempted ref filed or displaced |
| OperationRegistry.AttemptedIsCandidate | prism_serve/router/network_rpc.py:1411-1421 | An attempted ref is a candidate of its operation exactly when it is filed or was dispatched |
| OperationRegistry.ForeignRefIsLost | prism_serve/router/network_rpc.py:550-554 | One run of the bare interface in which one of two handed-in refs with the same number is not visited |
| OperationRegistry.RetireKeepsBounds | prism_serve/router/network_rpc.py:607-639 | A remembered retired operation has no refs, and both caps hold |
| OwnerTakeover.ActivateReplacementOwner | prism_serve/router/network_rpc.py:1525-1895 | Whatever the replies: no retire before every old-owner worker's second complete report showed the same refs, all ended and none held, and each directly after a read that showed that owner; no activate before every old-owner worker was seen without the old owner, each naming the new owner and directly after a read that showed none; no finalize before an exact terminal query; success means every worker was last read with the new owner; the old owners are those the first reads showed |
| OwnerTakeover.ReadStatuses | prism_serve/router/network_rpc.py:1559-1569 | The prior owners are exactly those read, other than the new one, and they agree |
| OwnerTakeover.ParseReport | prism_serve/router/network_rpc.py:197-223 | A report counts only if complete, of the expected incarnation, within the cap and bound entry by entry |
| OwnerTakeover.ListAll | prism_serve/router/network_rpc.py:1584-1600 | The first complete report of every prior worker is in the trace |
| OwnerTakeover.Collect | prism_serve/router/network_rpc.py:1612-1621 | Every listed operation is collected once, or a duplicate ref stops the takeover |
| OwnerTakeover.SettleOne | prism_serve/router/network_rpc.py:1622-1668 | Only the exact ref, bound and terminal, lets an operation through, whatever the abort's reply |
| OwnerTakeover.SettleAll | prism_serve/router/network_rpc.py:1622-1668 | Every collected operation was read back terminal |
| OwnerTakeover.FinalizeAll | prism_serve/router/network_rpc.py:1688-1739 | Finalize calls name only operations read back terminal, and passing means every worker where a settled operation held something confirmed the release of exactly its refs and kinds with nothing held after |
| OwnerTakeover.FinalizeRetrying | prism_serve/router/network_rpc.py:1719-1739 | Stops with every worker's confirmation or fails after three attempts; a worker that confirmed once is not asked again |
| OwnerTakeover.FinalizeOperation | prism_serve/router/network_rpc.py:1703-1735 | An acknowledged operation has a confirmation, bound to its request, epoch and kinds, from every worker where it held something |
| OwnerTakeover.FinalizeRemote | prism_serve/router/http_rpc.py:148-215 | A finalize counts only with a reply bound to the exact request and worker that lists exactly the kinds asked for and leaves nothing held |
| OwnerTakeover.VerifyAll | prism_serve/router/network_rpc.py:1741-1759 | Passing means every prior worker's second report shows the same refs, all ended and none held |
| OwnerTakeover.RetireAll | prism_serve/router/network_rpc.py:1843-1860 | Passing means every prior worker was read without its prior owner |
| OwnerTakeover.ActivateOne | prism_serve/router/network_rpc.py:1862-1889 | Ends with a read of the new owner; on the way each activate directly follows a read without owner and each retire a read of the late prior owner |
| OwnerTakeover.ConfirmAll | prism_serve/router/network_rpc.py:1890-1895 | Passing means every worker was read with the new owner and no owner call followed |
| OwnerTakeover.AddKeeps | prism_serve/router/network_rpc.py:1739-1895 | Adding a call that waited for its evidence keeps the order of the whole trace |
| ResourceRelease.RequestCleanup.ReleaseSlot | prism_serve/router/network_rpc.py:1389-1519 | With other tasks using the registry at every wait: the slot is returned only after every candidate was read back ended; a ref is settled then exactly when a query of this or an earlier call found it over and, should its last reading show it holding resources, the plan had it so; all candidates are settled if this call made the plan; cooperative workers make it succeed exactly when there is a candidate |
| ResourceRelease.RequestCleanup.ReadBack | prism_serve/router/network_rpc.py:1431-1514 | Succeeds exactly when every candidate reads as ended, whatever the aborts brought; the plan of an earlier call is kept, else it is these readings |
| ResourceRelease.RequestCleanup.FinalizeAll | prism_serve/scheduler/resource_release.py:153-172 | Asks exactly the holders that have not acknowledged, and passes exactly when all of them do |
| ResourceRelease.RequestCleanup.ReleaseEndpointTerminal | prism_serve/scheduler/resource_release.py:101-199 | The slot goes back only after the last acknowledgement and only from quarantine; cooperative workers make it go back |
| ResourceRelease.RequestCleanup.Visited | prism_serve/router/network_rpc.py:1411-1427 | The endpoints visited are all candidates of the operation |
| ResourceRelease.RequestCleanup.CleanupRequest | prism_serve/router/network_rpc.py:1389-1522 | A released slot is answered without asking anyone; any other answer than not yet means that this call returned the slot, also when a task started meanwhile makes the retirement fail |
| ResourceRelease.CleanupUntilDone | prism_serve/scheduler/main_loop.py:791-813 | However often a cleanup is tried, it returns the slot at most once, with every planned ref read back ended and given up by every holder |
| Cleanup.Request.FenceAndAbort | prism_serve/scheduler/main_loop.py:1174-1331 | For every reply and every epoch or phase change at a wait: the slot count is right exactly when no slot was given back to a worker rebuilt under the same epoch meanwhile; unless it was rebuilt, a quarantined slot is out of service and one left to a new epoch is no longer current; a slot is released only in its own epoch, on an acknowledged abort or for a request the decode side never saw, and never with an uncertain transfer; the prefill load is released only on an acknowledged dispatch and abort |
| Cleanup.Request.CanonicalCleanup | prism_serve/scheduler/main_loop.py:1068-1155 | A normal end leaves the request terminal and its slot released, quarantined or left to a new epoch at most once; unless the worker was rebuilt under the same epoch, a quarantined slot is out of service, one left to a new epoch is no longer current, and the slot count is right |
| Cleanup.Request.WithdrawUnknown | prism_serve/scheduler/main_loop.py:1113-1137 | An unknown dispatch takes the prefill worker out of service if it is still the one that was asked, before the slot goes back |
| Cleanup.Request.WithdrawUnstarted | prism_serve/scheduler/main_loop.py:1138-1145 | A dispatch that never started is counted off a current prefill worker, and the slot goes back |
| Cleanup.Request.FenceTransfer | prism_serve/scheduler/main_loop.py:1202-1249 | A fence counts only if acknowledged with both epochs current at that moment, or if the target has moved on; a changed source quarantines the target |
| Cleanup.Request.GatherProof | prism_serve/scheduler/main_loop.py:1184-1297 | Nothing is released while evidence is gathered; an acknowledged abort in the proof was received with the decode epoch current, a fence as above, a changed epoch in the proof is one unless the worker was rebuilt, and a request once handed to the decode side is never recorded as unseen |
| Cleanup.Request.SettleSlot | prism_serve/scheduler/main_loop.py:1311-1327 | Released exactly on a releasable proof, an unchanged source and a serving worker with room in its count; quarantined with the worker on an owned but not releasable proof; the slot count is right exactly when nothing was given back to a rebuilt worker |
| Cleanup.Request.FinishSlot | prism_serve/scheduler/scheduler.py:489-511 | A slot comes back exactly in its own epoch on a worker in service with room in its count, and otherwise nothing changes; the count stays right exactly when no slot comes back from a rebuilt worker |
| Cleanup.Request.OnKvDone | prism_serve/scheduler/main_loop.py:1412-1446 | A late or foreign completion changes nothing; only a request still waiting for this operation moves on |
| Cleanup.Request.Transition | prism_serve/scheduler/sequence_state.py:167-182 | Moves exactly along the table |
| Cleanup.KvPendingIsLeftForGood | prism_serve/scheduler/sequence_state.py:167-182 | Over every lawful sequence of phases, the transfer phase is entered at most once |
| Cleanup.ReleaseOrUncertain | prism_serve/scheduler/main_loop.py:950-1047 | A valid proof of an owned slot in a current epoch releases it exactly when neither the decode side nor the transfer is uncertain |
| Cleanup.SameEpochReconcileOverReleases | prism_serve/scheduler/scheduler.py:198-250 | One run through a cleanup: reconciling into the same epoch during its wait lets it give back a slot another request holds |
| Output.GatewayOutputBuffer.Stream | prism_serve/gateway/app.py:1252-1316 | Whatever updates arrive in whatever order, a stream yields a prefix of the worker's final sequence, all of it if it ends with stop, and nothing more unless the tracker lost the request; then a second prefix of that sequence is yielded from its start, which repeats nothing if nothing was sent and repeats all of it if the request still has the state last read |
| Output.TrackerLossRepeatsTokens | prism_serve/gateway/app.py:1260-1270 | One run of the stream in which two sent tokens are sent again |
| Output.GatewayOutputBuffer.TrackerGone | prism_serve/gateway/app.py:1260-1270 | A request the tracker forgot is ended with an error and read as a whole; a state evicted meanwhile is replaced by an empty one |
| Output.GatewayOutputBuffer.ApplyCumulative | prism_serve/gateway/output.py:86-113 | Buffered tokens only grow by extension; an honest update is never refused for its prefix and keeps the buffer honest |
| Output.GatewayOutputBuffer.UpdateLocked | prism_serve/gateway/output.py:101-113 | Refuses exactly an update that changes the committed prefix; a stale one changes nothing; any other one becomes the tokens, joins the terminal flag and replaces an error only by a newer one, and a change of tokens or flag is reported |
| Output.GatewayOutputBuffer.Ensure | prism_serve/gateway/output.py:56-65 | Finds or creates a state, and refuses exactly a new one at the cap |
| Output.GatewayOutputBuffer.MarkResourceFree | prism_serve/gateway/output.py:67-78 | Refuses an active stream; only ended streams are ever evicted and both caps hold |
| Output.GatewayOutputBuffer.FailLocked | prism_serve/gateway/output.py:129-135 | Ends the stream with an error; its tokens, an earlier error and every other state stay |
| Output.GatewayOutputBuffer.WaitNext | prism_serve/gateway/output.py:115-123 | Returns honest contents with something new or an end, also from a state evicted meanwhile |
| Output.GatewayOutputBuffer.RepairOutputGap | prism_serve/gateway/output.py:138-170 | A query for this identity only extends the buffer |
| Output.FoldedUpdates | prism_serve/gateway/output.py:86-113 | Any sequence of honest updates, stale, repeated or reordered, leaves exactly the longest token list; the stream is ended, or carries an error, exactly when some update saying so is at least as long as every update before it |
| Output.LongestEndIsKept | prism_serve/gateway/output.py:101-113 | An end as long as the longest update, and so every report of a finished worker, is kept in whatever order updates arrive |
| Output.ShortEndIsLost | prism_serve/gateway/output.py:101-113 | Two concrete honest updates whose order decides whether the stream ends |
| Output.HonestUpdate | prism_serve/gateway/output.py:101-113 | An honest update extends an honest state |

## Left out

- Routes, authentication, NATS, HTTP client internals, metrics and logging: input and output only.
- kubectl and Helm calls, fsync and threads: only whether an effect happened and whether its reply arrived.
- Worker registry admission and the parsing of bodies, identities and capabilities: validation that would only add easy members; a nondeterministic verdict stands for it in `Gateway`.
- Fault injection and watchdog modes of the restart controller and the measurement tooling around them: they add events and checks on the same path.
- A second accept call while one is running: it is refused before it touches anything.
- Progress of retries: the code fails closed in several places, so safety is proved; loops that run until a deadline run for an arbitrary number of rounds.
- ReplacementStore.ReplacementDecisionStore.CommitState: the order in which records are listed in the file is left open; the code sorts them by key.
- Gateway.App.ReplaceWorld: the lease id of a record is a function of its operation id instead of a random string.
- Cleanup.Request.FenceAndAbort: the transfer ledger's byte credits are not counted.
- Cleanup.Request.CanonicalCleanup: models the legacy path; with network control the release goes through `ResourceRelease`.
- PrefixLoad.Operation.Cleanup: the exact lease of a committed outcome is stated with no other cleanup of the same operation beside it, and otherwise only that it is no longer reserved; with network control the coordinator calls that client's own cleanup of a load, whose path through the evaluator is that of `ResourceRelease`, without de-duplication and with refs aborted by kind.
- Restart.ObserveOne: one saved state stands for the raw events a life journals one by one; a life that dies in between has read fewer events.
- Termination.Consume: a prior proof is one that an earlier watch of the same container froze.
- Reconciler.PrefixReconciler.SyncOnce: resource counts, metrics and the consumer generation are not kept.
- Restart.CollectEvidence: that the body names the old generation is not promised, because the code leaves that field to its backend; the termination records in the body bind it.
- ResourceRelease.RequestCleanup.ReleaseEndpointTerminal: the replay of a completed cleanup is left out, which a request cleanup never reaches because a released slot is answered first; an acknowledgement is one that the client has checked against its request; an operation that never had a lease, which raises, is left out.
