# Verified core of the experiment queue

A model, in Dafny, of the parts of the experiment queue that have to be right under crashes, races and
hostile input, with proofs about all of their runs.  `dafny verify dfyconfig.toml` checks everything.

## What is modelled

**Crash-safe publication.**  `FileSystem` is a directory with a visible and a durable entry per name, kernel
writeback of any subset, partially effective failed syncs and power loss.  `Publication` is the protocol as a
state machine: any number of executors publishing immutable evidence, evidence readers, database initialisers,
the start of the scientific child, interleaved with failures at every operation.  `PublicationInvariant` is the
inductive invariant and `PublicationTheorems` what follows for whole runs.  `Machine`, `Executor` and
`QueueStore` are the programs themselves, written step by step; every state they pass through is proved to be a
reachable state of the protocol.  `Import` is the publication half of the migration importer: exclusive rename,
rollback, external receipt, indeterminate outcomes.

**Cooperative yield.**  `Yield` is the queue row with its CHECK constraints, the guarded updates of the legacy
coordinator, and the control files; coordinators, scheduler, operator and project interleave and crash.
`YieldInvariant` and `YieldTheorems` prove what holds along every run, `Coordinator` is the coordinator's own
code.  `ContinuationV5` is its schema-5 successor, and `YieldRequest` the document and the row it stores a request
in.

**Launch and signals.**  `Signals` is the executor's main program with its re-entrant signal handler as a state
machine with a stack of handler calls; `Segment` is the same as a program.  `Processes` is the kernel's process
and group table, in which numbers are reused; `Launch` is the launcher on top of it.

**Admission and codecs.**  `Detach` copies a possibly cyclic, shared object graph; `Placeholder` is the explicit
stack search; `Canonical` is canonical JSON up to normal form; `Dependencies`, `Admission`, `Storage` and
`StorageTheorems` are the compiler, its stored evidence and rehydration.  `Utf8`, `Transcript`, `Base64` and
`YieldReceipt` are the wire formats; `SqlRows` and `LegacyImport` the migration mapping.

## Findings

The code is modelled as it is.  Where a promise turned out not to hold on all runs, the model proves the exact
condition under which it does.

- A failure handler of the publication protocol decides by `samefile` whether its link took effect.  If the link
  took effect, was reported as interrupted or failed, and the identity check fails as well, or if the check itself
  is interrupted, the handler removes the durable staging name of a visible final name.  The fallback is kept
  exactly as long as this does not happen (`sound`): `VisibleFinalIsBacked`, `MisjudgingLosesTheFallback`,
  `InterruptedCheckLosesTheFallback`, `MisjudgedEvidenceVanishes`, `MisjudgingIsPossible`.  At-most-one-child does not depend on it.
- In the importer there are exactly two ways to a success receipt without its state.  One is the same double
  fault, `BlindLinkSlips`.  The other is a single interrupt once the success receipt is visible: in the last path
  check, where only a failed check is declared indeterminate, or in the receipt writer's `finally` block, where it
  takes the place of the normal return or of the indeterminate error.  The run then rolls the destination back,
  removes the candidate and cannot write a failure receipt: `InterruptedCheckRevokes`.  `MigrateLegacyState` says
  over the schedule of faults that a run slips exactly in these ways.
- An interrupt inside the importer's rename or rollback, or inside the checks that ask where the state is, escapes
  to the outer handler, which then writes a failure receipt without knowing where the state is.
  `MigrateLegacyState` says over the schedule exactly when that happens, and that the receipt then tells the truth
  exactly when it says what the interrupted operation came to; `InterruptedPublish` is a run that ends with the
  state at the destination and a durable receipt denying it.
- An importer that finds the candidate of another run with the same operation identifier, which is derived from the
  source unless it is given, asks the operator to inspect it and then removes it: `FoundCandidateIsRemoved` says
  exactly when.
- The legacy coordinator unlinks a receipt without looking at its content again.  A request persisted over a hazard
  can lose its answer unrecorded.  A hazard is a path still holding the receipt of the last recorded failure, or
  another coordinator that has authenticated, or can still authenticate, that receipt and unlink the path.
  `EvidenceIsAtRiskIffHazard` is the if-and-only-if, `DeletedReceiptsAreRecorded` and `HazardLosesEvidence` are its
  halves, `OverlapCanLoseEvidence` is one run.
- The signal handler tests and inserts in two steps.  A name is recorded twice exactly when a delivery was
  handled between the two: `NameRepeatsIffReentered`, `ReentryBroadcastsTwice`.  That a handler can run there is
  what the language allows; an interpreter may choose not to look for signals between those two operations.
- `signal_recorded_process` checks the identity and then signals a number.  The signal reaches the recorded process
  (SIGKILL: its group) exactly when that process (a member of that group) is still in the table at delivery.  For a
  child of the launcher this is certain; for a process recovered after a restart it is not, and `StrangerIsSignalled`
  is a run that signals somebody else.
- A legacy item that depends on itself is admitted by the legacy table and refused by the new one, so such a queue
  cannot be imported: `SelfDependencyIsRefused`, `BuildCandidate`.
- A compiled admission cannot always be stored and read back.  Priority and dependencies are accepted up to 64
  bits but encoded as JSON integers of at most 53 bits, and a float such as 1e18 is encoded without exponent,
  reads back as an integer outside the safe range and is then refused.  `StoredSnapshotRehydrates` gives the
  exact condition, `WideFloatIsRefused` an example.
- A yield receipt whose progress says `"total": null` is accepted and is not reproduced; every other accepted
  document is: `AcceptedDocumentPrintsBack`.
- The check for recursive containers in bindings only chooses the error message: the depth bound alone rejects
  the same inputs, `DepthBoundExcludesCycles`.

## Model

| member | source | states |
|---|---|---|
| `PublicationInvariant.StepKeepsInv` | src/experiment_queue/executor.py:919-1044 | every step of publishers, readers, initialisers, kernel and power loss keeps the protocol invariant |
| `PublicationTheorems.AtMostOneChild` | src/experiment_queue/executor.py:1204-1217 | in every interleaving with failures and power loss at most one scientific child is ever started; once started, the durable launch receipt holds its executor's complete bytes |
| `PublicationTheorems.VisibleFinalNeverRepointed` | src/experiment_queue/executor.py:919-1044 | without power loss a visible final name stays and keeps its inode and bytes |
| `PublicationTheorems.DurableFinalNeverRepointed` | src/experiment_queue/executor.py:919-1044 | a durable final name survives everything, power loss included, and is never re-pointed |
| `PublicationTheorems.VisibleFinalIsBacked` | src/experiment_queue/executor.py:990-1044 | as long as no handler misjudged its own link or was interrupted judging it, a visible final name is durable or backed by a durable staging name of the same complete inode |
| `PublicationTheorems.MisjudgingLosesTheFallback` | src/experiment_queue/executor.py:990-1044 | the converse: a misjudging handler's next step leaves a visible final name with no durable name |
| `PublicationTheorems.InterruptedCheckLosesTheFallback` | src/experiment_queue/executor.py:990-1044 | an interrupt inside the identity check loses the fallback of every visible, not yet durable final name, even one whose link was reported as done |
| `PublicationTheorems.MisjudgedEvidenceVanishes` | src/experiment_queue/executor.py:990-1044 | and a power loss behind that step leaves no name of the evidence that was visible |
| `PublicationTheorems.MisjudgingIsPossible` | src/experiment_queue/executor.py:990-1044 | a run that reaches such a misjudgement exists, for every document |
| `PublicationTheorems.StagingDroppedOnlyAfterDurable` | src/experiment_queue/executor.py:807-901 | a staging link to the published inode is removed only when the final name is durable |
| `PublicationTheorems.ReaderLeavesFinalDurable` | src/experiment_queue/executor.py:807-901 | a reader that saw the final name and returned leaves it durable, pointing where it is visible |
| `PublicationTheorems.UncertainKeepsBothNames` | src/experiment_queue/executor.py:990-1044 | an uncertain outcome means the final name is durable or its staging name backs it |
| `PublicationTheorems.InitializersAgree` | src/experiment_queue/database_v5.py:1734-1864 | all initialisers that ever return bind one instance, whose database name is then durable and stays so through any later run |
| `Executor.PublishImmutableJson` | src/experiment_queue/executor.py:919-1044 | normal return: durable and this call's own complete document, and nothing failed up to the durable link; uncertain: two names kept; refused: somebody's complete evidence is there; failed: with a cause that occurred, staging reported as preserved is complete; never the last durable name lost; with nobody else acting the schedule of faults decides the outcome, given as a table by the first failing operation; behind the durable link only an interrupt of the clean-up gets out, and the document stays |
| `Executor.HandleFailure` | src/experiment_queue/executor.py:990-1044 | uncertain exactly if the link is known or seen to be this call's own, refused exactly for an existing final name, otherwise an error with its own cause, and what is preserved in each case |
| `Executor.LaunchChild` | src/experiment_queue/executor.py:1204-1217 | a child is started only behind this executor's own durable receipt, and is then the only child |
| `Executor.ConfirmForRead` | src/experiment_queue/executor.py:807-901 | a normal return after the final name was visible leaves it durable; companions are removed only after that; with nobody else acting evidence is confirmed exactly if every companion is a link of the final file and the sync comes off, and then no companion is left |
| `QueueStore.V5QueueStore.BindInstanceIdentity` | src/experiment_queue/database_v5.py:1706-1718 | a bound store accepts its own instance and no other |
| `QueueStore.V5QueueStore.Initialize` | src/experiment_queue/database_v5.py:1734-1864 | ready: the database name is durable and this store is bound to its instance; indeterminate: a durable name is kept; otherwise the binding is unchanged; with a database there it is ready exactly if nothing fails and the instance is the expected one; without one and with nobody else acting the schedule of faults decides |
| `QueueStore.V5QueueStore.CreateFresh` | src/experiment_queue/database_v5.py:1779-1864 | building, linking and settling a candidate, or joining the winner; unopposed, the outcome by the first failing operation |
| `Import.Importer.AtomicWriteReceipt` | src/experiment_queue/migrate_v5.py:211-299 | written: durable; indeterminate: visible with a durable staging link, or two names of another file; failed: no receipt, unless the identity check was defeated or an interrupt came on the way out |
| `Import.Importer.PublishState` | src/experiment_queue/migrate_v5.py:302-384 | moved: the destination is durable; failed: the state is absent from the destination; otherwise indeterminate |
| `Import.Importer.RollbackPublishedState` | src/experiment_queue/migrate_v5.py:387-442 | rolled back: the state is durably away from the destination and back at the candidate |
| `Import.Importer.MigrateLegacyState` | src/experiment_queue/migrate_v5.py:1610-1737 | for every fault schedule: imported with a durable success receipt beside a durable destination; indeterminate with the state at one of its names and the receipt absent or visible under a durable name; or an ordinary error. It imports if and only if every operation it performs comes off, among them the verification of the candidate before it is moved and of the destination before the receipt, and so it does if nothing fails and no name is taken. An ordinary error is truthful if and only if the run did not lose sight of its success receipt; when it does, and when an interrupt makes it stuck, is characterised over the schedule; a stuck run is truthful if and only if the interrupted operation left the state where its phase makes the receipt say |
| `Import.UnclearRunRemovesNothing` | src/experiment_queue/migrate_v5.py:1610-1682 | along an indeterminate run the state, once at one of its names, stays at one, and the receipt, once there, stays on its inode |
| `Import.Importer.InterruptedPublish` | src/experiment_queue/migrate_v5.py:302-384 | an interrupted publishing rename ends with a durable receipt saying nothing was published, which is a lie exactly when the rename took effect |
| `Import.NoInterruptNeverSticks` | src/experiment_queue/migrate_v5.py:1610-1737 | without interrupts no run loses track of its state, and only the double fault makes it lose sight of its receipt |
| `Import.Importer.FoundCandidateIsRemoved` | src/experiment_queue/migrate_v5.py:1542-1692 | a run that finds a candidate fails; the candidate is removed if and only if the first check passes and the failure handler's look and removal come off, and is still there otherwise |
| `Import.Importer.BlindLinkSlips` | src/experiment_queue/migrate_v5.py:257-299 | the double fault that defeats the identity check, as a run of the receipt writer |
| `Import.Importer.InterruptedCheckRevokes` | src/experiment_queue/migrate_v5.py:1641-1737 | one interrupt of the last path check leaves a durable success receipt, visible and on disk, and the state at neither name |
| `Import.HonestSurvivesCrash` | src/experiment_queue/migrate_v5.py:211-299 | a tree whose success receipts come with a durable destination stays so through any power loss |
| `Import.SurvivingReceiptHasItsState` | src/experiment_queue/migrate_v5.py:1610-1680 | a power loss at any moment of a run that slips nowhere: a surviving success receipt has its destination |
| `YieldInvariant.CoordinatorUpdatesKeepChecks` | src/experiment_queue/database_v5.py:600-634 | no guarded update of a coordinator violates a CHECK |
| `YieldInvariant.StepKeepsInv` | src/experiment_queue/legacy_continuation_v0.py:1032-1642 | every step of coordinators, scheduler, operator, project and crash keeps the yield invariant |
| `YieldTheorems.RowAlwaysSatisfiesChecks` | src/experiment_queue/database_v5.py:600-634 | the GPU-lease and other CHECKs hold in every reachable state |
| `YieldTheorems.SegmentCountsReadyReceipts` | src/experiment_queue/legacy_continuation_v0.py:1599-1642 | the segment is the initial one plus the number of accepted ready receipts |
| `YieldTheorems.RequeueNeedsTheOwnRequest` | src/experiment_queue/legacy_continuation_v0.py:1599-1642 | a receipt requeues only the row still yielding on the request it answers, with the lease held |
| `YieldTheorems.TerminationIsNeverUndone` | src/experiment_queue/legacy_continuation_v0.py:1599-1642 | after a termination or any other end no later run brings the item back or moves its segment |
| `YieldTheorems.DeletedReceiptsAreRecorded` | src/experiment_queue/legacy_continuation_v0.py:1466-1503 | in runs in which no request was persisted over a hazard every deleted receipt is in a committed failure event |
| `YieldTheorems.OverlapCanLoseEvidence` | src/experiment_queue/legacy_continuation_v0.py:358-379 | with an overlap an unrecorded receipt can be deleted |
| `YieldTheorems.HazardLosesEvidence` | src/experiment_queue/legacy_continuation_v0.py:358-379 | from every reachable state in which a request is persisted over a hazard, of whichever kind, the run can go on, without another request, to delete the unrecorded answer |
| `YieldTheorems.EvidenceIsAtRiskIffHazard` | src/experiment_queue/legacy_continuation_v0.py:358-379 | a request just persisted can be followed by the loss of evidence if and only if it was persisted over a hazard |
| `YieldTheorems.UnrecordedReceiptRefusesRequest` | src/experiment_queue/legacy_continuation_v0.py:903-931 | a leftover receipt not on record refuses the new request |
| `YieldTheorems.RecoveryRebuildsTheRequest` | src/experiment_queue/legacy_continuation_v0.py:1353-1402 | recovery from the row gives exactly the persisted request, the same for every holder |
| `Coordinator.Queue.RequestManualYield` | src/experiment_queue/legacy_continuation_v0.py:1061-1148 | a pending result is this caller's request, persisted, published and held by this coordinator; with nobody else acting there is one exactly if the item is running, preemptible and in this segment, the path is clear or clears, the request is new, the GPU is the row's and publication succeeds |
| `Coordinator.Queue.PublishOrWithdraw` | src/experiment_queue/legacy_continuation_v0.py:1111-1148 | a persisted request is published and held, or the row no longer yields on it |
| `Coordinator.Queue.DiscardRecordedFailedReceipt` | src/experiment_queue/legacy_continuation_v0.py:903-931 | the path is clear or the request is refused; undisturbed, clear exactly if there is no receipt or the one there belongs to the last recorded failure and can be removed |
| `Coordinator.Queue.RecoverPending` | src/experiment_queue/legacy_continuation_v0.py:1322-1402 | what is recovered is the request the row named before; undisturbed, it is recovered exactly if the row is yielding and preemptible and the published request is the rebuilt one |
| `Coordinator.Queue.ReconcileLiveFailure` | src/experiment_queue/legacy_continuation_v0.py:1430-1503 | which outcome the receipt that was read, the life of the process and the row lead to, in both directions; when the item is resumed, or only the removal of the receipt fails, the failure is committed and is the project's answer to this request |
| `Coordinator.Queue.FinalizeManualYield` | src/experiment_queue/legacy_continuation_v0.py:1512-1642 | requeued with the receipt's checkpoint and without lease exactly if the return code is the yield code, the runner agrees, the receipt read is a valid ready answer and the row still awaits it; isolated as failed with the lease kept, or lost to another transition, otherwise |
| `ContinuationV5.Coordinator.RequestManualYield` | src/experiment_queue/continuation_v5.py:435-636 | with anything done by others between its steps: refused exactly when not running, not preemptible, mismatched, repeated or not a valid request, and then nothing changed; otherwise the row stores the request of this call; a signal only after a claim made while the item yielded on it, with the whole request published; no claim after a termination; the value returned is made of the call's arguments; undisturbed, the outcome of publication, claim, delivery and audit decides |
| `ContinuationV5.Coordinator.RecoverPending` | src/experiment_queue/continuation_v5.py:638-737 | succeeds exactly for a yielding, matching item whose request file is absent or whole; what it returns is parsed from the stored row |
| `ContinuationV5.Coordinator.RequestThenRestart` | src/experiment_queue/continuation_v5.py:516-737 | whatever others do between request and restart, a recovery that succeeds in the segment of the request returns, in every field, the value of the original call; it never succeeds in a segment terminated meanwhile |
| `ContinuationV5.Coordinator.CreateOrVerify` | src/experiment_queue/continuation_v5.py:195-240 | what is at the path is never changed; a normal return exactly if these bytes are there afterwards by this or an earlier publication; what a failed or torn attempt leaves |
| `ContinuationV5.Coordinator.RecordYieldRequest` | src/experiment_queue/v5_repository.py:2928-3092 | rows are immutable and no segment ever has two; a new request is accepted exactly if its bytes spell it and it fits the running item, which moves to yielding together with the row; a repeated one is answered with the row that is there; the row reads back as this request and these bytes |
| `YieldRequest.RequestReadsBack` | src/experiment_queue/cooperative_yield.py:914-972 | every valid request parses back from its own document |
| `YieldRequest.RequestPrintsBack` | src/experiment_queue/cooperative_yield.py:930-972 | every accepted document is what its request prints |
| `YieldRequest.AcceptedIsChecked` | src/experiment_queue/cooperative_yield.py:930-972 | what a reader can rely on about an accepted request |
| `YieldRequest.CheckWire` | src/experiment_queue/v5_repository.py:2928-2975 | bytes are accepted for a request exactly if they read as the document it prints and it is valid |
| `YieldRequest.RowReadsBack` | src/experiment_queue/v5_repository.py:2858-2926 | the row inserted for a request reads back as that request, source, digest and owner |
| `YieldRequest.RowTellsOneStory` | src/experiment_queue/v5_repository.py:2858-2926 | a row that is accepted is, column by column, the row that would be inserted for the request it gives |
| `Signals.EachSignalAtMostOnce` | src/experiment_queue/executor.py:1170-1223 | in every interleaving each signal not re-entered is broadcast and recorded at most once, and only if accepted |
| `Signals.NoSignalIsLost` | src/experiment_queue/executor.py:1204-1223 | after the replay each accepted signal has been recorded once and broadcast exactly once, unless the replay found the child gone |
| `Signals.NameRepeatsIffReentered` | src/experiment_queue/executor.py:1191-1202 | with no handler call left, a name is recorded twice if and only if a delivery was handled between test and insertion |
| `Signals.ReentryBroadcastsTwice` | src/experiment_queue/executor.py:1191-1202 | a run in which one signal is broadcast twice |
| `Segments.Segment.Forward` | src/experiment_queue/executor.py:1175-1202 | a handler call accepts its signal and leaves handlers, main program and call stack as it found them |
| `Segments.Segment.ReplayPending` | src/experiment_queue/executor.py:1218-1222 | the replay ends with the list cleared and every handler installed, whatever interrupts it |
| `Segments.Segment.ExecutePayload` | src/experiment_queue/executor.py:1170-1238 | at the end each accepted signal is recorded once and broadcast once, if there was a child to find alive |
| `Processes.HappenKeepsIdentity` | src/experiment_queue/attempt_runtime.py:844-867 | the founder of a group keeps its number until reaped, and a group that is gone never comes back |
| `Processes.TokenIdentifies` | src/experiment_queue/attempt_runtime.py:844-867 | the process under a number is the recorded one if and only if its start time is the recorded one |
| `Launch.Launcher.ProcessIdentityMatches` | src/experiment_queue/attempt_runtime.py:844-867 | a match means the recorded process, whoever is its parent, is in the table at that moment; if no probe fails, it matches if and only if it is |
| `Launch.Launcher.SignalRecordedProcess` | src/experiment_queue/attempt_runtime.py:870-905 | signals leave only after authentication; a graceful signal reaches the recorded process if and only if it is still in the table at delivery, SIGKILL the group it founded if and only if that still has a member; for a child both are certain |
| `Launch.NumberChangesHands` | src/experiment_queue/attempt_runtime.py:870-905 | the number of a process that is not a child can pass to another group |
| `Launch.Launcher.StrangerIsSignalled` | src/experiment_queue/attempt_runtime.py:870-905 | a run of the signalling code that authenticates the recorded process and then signals the stranger who took over its number |
| `Launch.Launcher.NamedProcessGroupExists` | src/experiment_queue/attempt_runtime.py:908-921 | a missing answer means no process carries the group number |
| `Launch.Launcher.StopFailedLaunchGroup` | src/experiment_queue/attempt_runtime.py:924-1008 | a normal return proves the whole group absent; nothing but this group was killed; a leader alone in its group that exits when killed is proved gone |
| `Launch.Launcher.AwaitReceipt` | src/experiment_queue/attempt_runtime.py:1104-1128 | an accepted receipt is durable, bound, and names exactly the spawned process; one that appears within the deadline while the process runs is accepted |
| `Launch.Launcher.LaunchPreparedAttempt` | src/experiment_queue/attempt_runtime.py:1024-1144 | a changed payload or an ended segment is refused before anything is done; the executor is spawned exactly if nothing is in the way; if its receipt then appears in time it is launched; success, ordinary error and uncertainty are each honest; SIGKILL only to the spawned group |
| `Launch.Launcher.StopLaunchedAttempt` | src/experiment_queue/attempt_runtime.py:1011-1021 | the group is proved gone or the uncertain error names it |
| `Launch.RefusalStaysTrue` | src/experiment_queue/attempt_runtime.py:1129-1137 | a group proved absent stays absent in every later run of the kernel |
| `Detach.Copier.Detach` | src/experiment_queue/admission.py:373-434 | restores the active set on every exit; a copy is the unfolding, a rejection is a fault below this value |
| `Detach.CopyBindings` | src/experiment_queue/admission.py:437-455 | succeeds exactly when every path from the root is acyclic, within depth, JSON-typed and text-keyed; names a real fault otherwise |
| `Detach.UnfoldingIsUnique` | src/experiment_queue/admission.py:405-432 | a graph has at most one unfolding |
| `Detach.DepthBoundExcludesCycles` | src/experiment_queue/admission.py:382-403 | the depth bound alone excludes cycles |
| `Placeholder.FindPlaceholder` | src/experiment_queue/admission.py:496-520 | the explicit stack reports exactly what the recursive reading reports |
| `Placeholder.SearchParameters` | src/experiment_queue/authoring.py:296-322 | nothing is reported if and only if no reserved key, token-bearing key or token-bearing text stands anywhere; a report is a real occurrence |
| `Placeholder.ReportIsReal` | src/experiment_queue/authoring.py:296-322 | every report names a place where the token stands |
| `Placeholder.SilenceIsReal` | src/experiment_queue/authoring.py:296-322 | silence means no token at any place |
| `Dependencies.CopyDependencies` | src/experiment_queue/admission.py:458-487 | accepts exactly lists of distinct positive 64-bit identifiers; keeps the same items in ascending order |
| `Dependencies.PermutationsAgree` | src/experiment_queue/admission.py:458-487 | permutations of a list are kept as the same list, or all refused |
| `Dependencies.CopiedIsIdempotent` | src/experiment_queue/admission.py:458-487 | a kept list is kept unchanged |
| `Canonical.ReencodableIffNoWideFloat` | src/experiment_queue/serialization.py:264-393 | an encoded value can be encoded again exactly when no float reads back as an unsafe integer |
| `Canonical.EncodingReadsBack` | src/experiment_queue/admission.py:1093-1111 | a stored encoding is accepted exactly without wide floats, and reads back as the normal form |
| `Canonical.WideFloatIsRefused` | src/experiment_queue/admission.py:1093-1111 | a value that is encoded and then refused |
| `Admission.LowerIsIdempotent` | src/experiment_queue/admission.py:346-353 | a lower-cased commit is a full commit and lower case |
| `StorageTheorems.IdentityIgnoresPolicy` | src/experiment_queue/admission.py:576-680 | a submission differing in priority, hold reason, dependencies or operator compiles if and only if that policy is valid by itself, with the same execution identity and all other evidence |
| `StorageTheorems.IdentityHolds` | src/experiment_queue/admission.py:848-870 | what the frozen execution identity holds under each of its names: project, job, card path, revision, commit, authorisation, compiler, parameters |
| `StorageTheorems.IdentityDeterminesExecution` | src/experiment_queue/admission.py:848-870 | two admissions share an execution identity only if they agree on all of these |
| `StorageTheorems.CompiledGuarantees` | src/experiment_queue/admission.py:709-902 | whatever compiles: bindings replace declared parameters and nothing else, no placeholder is left, authorised preemption is backed by the job, names and keys agree |
| `StorageTheorems.FrameGuarantees` | src/experiment_queue/admission.py:756-782 | ... portable paths, texts that meet their rules, and a full lower-case commit |
| `StorageTheorems.PolicyGuarantees` | src/experiment_queue/admission.py:576-680 | ... and the policy has a 64-bit priority and the submitted dependencies, ascending |
| `StorageTheorems.StoredColumns` | src/experiment_queue/admission.py:957-1036 | each column of the stored evidence in terms of what was submitted |
| `StorageTheorems.StoredDocuments` | src/experiment_queue/admission.py:957-1036 | each stored document and source in terms of what was submitted |
| `StorageTheorems.StoredSchema` | src/experiment_queue/admission.py:957-1036 | the extension schema is stored exactly if there is one, and every blob with its own digest |
| `StorageTheorems.DependencyOrderIsIrrelevant` | src/experiment_queue/admission.py:458-487 | permuted dependencies compile to the same snapshot, policy included |
| `StorageTheorems.AgainBuildsTheSame` | src/experiment_queue/admission.py:709-902 | all normalisations are idempotent: the normalised input compiles to an equal snapshot |
| `StorageTheorems.StorableIff` | src/experiment_queue/admission.py:957-1036 | a compiled snapshot can be stored exactly when priority and dependencies are safe integers and the bindings hold no wide float |
| `StorageTheorems.StoredSnapshotRehydrates` | src/experiment_queue/admission.py:1114-1299 | storing then rehydrating gives the equal snapshot if and only if the submission and its documents are portable |
| `Storage.RehydratedEvidenceIsStored` | src/experiment_queue/admission.py:1289-1299 | evidence that rehydrates is what storing its snapshot writes, up to the spelling of the flag, and that rehydrates to the same snapshot |
| `StorageTheorems.FlagSpellings` | src/experiment_queue/admission.py:1114-1299 | the authorisation column may be spelled as 0 or 1 and as no other number |
| `Utf8.EncodeIsInjective` | src/experiment_queue/cooperative_yield.py:243-248 | no two texts share a UTF-8 encoding |
| `Transcript.Sha256Transcript` | src/experiment_queue/cooperative_yield.py:232-253 | the running digest is the hash of prefix and length-framed fields; refused exactly for non-ASCII names, surrogates or oversized fields |
| `Transcript.AcceptedMeans` | src/experiment_queue/cooperative_yield.py:232-253 | exactly which fields are accepted, by code points and byte lengths |
| `Transcript.TranscriptIsInjective` | src/experiment_queue/cooperative_yield.py:232-253 | the transcript determines its field sequence within the 4-byte and 8-byte bounds |
| `Transcript.DigestSpells` | src/experiment_queue/cooperative_yield.py:792-802 | what is hashed, byte for byte: the protocol name and the five named fields in their order |
| `Transcript.DigestMatchesIffEvidenceMatches` | src/experiment_queue/cooperative_yield.py:782-830 | under an injective hash digests agree if and only if all five fields do |
| `Transcript.ValidateContinuationIdentity` | src/experiment_queue/cooperative_yield.py:1347-1386 | accepts exactly the admitted fields; the digest comparison is the same check |
| `Base64.DecodeUndoesEncode` | src/experiment_queue/cooperative_yield.py:686-734 | decoding undoes encoding for every payload |
| `Base64.AcceptsExactlyCanonical` | src/experiment_queue/cooperative_yield.py:711-722 | with any decoder that undoes the encoder, exactly canonical spellings are accepted |
| `Base64.DecoderIsTolerant` | src/experiment_queue/cooperative_yield.py:711-722 | the re-encoding comparison is needed: the decoder alone takes a spelling that no payload has |
| `YieldReceipt.EnvelopeAcceptsExactlyCanonical` | src/experiment_queue/cooperative_yield.py:686-734 | the envelope of a context is accepted with the canonical spelling of its payload and no other |
| `YieldReceipt.ReceiptReadsBack` | src/experiment_queue/cooperative_yield.py:1100-1203 | every valid receipt, ready or failed, parses back from its own document, exactly if its payload length is a safe integer |
| `YieldReceipt.AcceptedDocumentPrintsBack` | src/experiment_queue/cooperative_yield.py:392-414 | an accepted document is what its receipt prints, except exactly with a null total |
| `YieldReceipt.AcceptedIsChecked` | src/experiment_queue/cooperative_yield.py:1131-1203 | what a reader can rely on about an accepted receipt: integer ranges, digests, at least one checkpoint file, each name and path once |
| `SqlRows.TagReadsBack` | src/experiment_queue/legacy_state.py:439-459 | tagging a SQLite value is exact |
| `SqlRows.TagShapes` | src/experiment_queue/legacy_state.py:475-503 | nothing but the five tagged shapes is accepted |
| `SqlRows.StrictReaderIsLawful` | src/experiment_queue/legacy_state.py:439-503 | what is asked of the integer reader is met: strict decimal reading undoes the printing |
| `SqlRows.DecodeRows` | src/experiment_queue/legacy_state.py:475-503 | rows decode exactly when every row is an object of valid tags; each row has the columns of its object, each with the value of its own tag |
| `SqlRows.FreezeAndThaw` | src/experiment_queue/legacy_state.py:462-503 | frozen rows thaw to the same rows |
| `LegacyImport.NormalizedQueueItems` | src/experiment_queue/legacy_state.py:364-374 | the view of each row: its own value where it has the column, the default where it has not, no other column |
| `LegacyImport.CollectCommits` | src/experiment_queue/legacy_state.py:876-896 | the distinct commits of the rows |
| `LegacyImport.AppearancesInOrder` | src/experiment_queue/legacy_state.py:876-896 | ... in the order of their first appearance |
| `LegacyImport.InsertKeepsOrder` | src/experiment_queue/migrate_v5.py:743-855 | a keyed table refuses exactly a second row with a key it has and stays in the order of its key |
| `LegacyImport.Candidate.InsertProjectAndRevisions` | src/experiment_queue/migrate_v5.py:655-740 | one revision a commit, numbered in that order |
| `LegacyImport.Candidate.InsertQueueRows` | src/experiment_queue/migrate_v5.py:743-792 | succeeds exactly when every row meets the CHECKs; each row gets its revision and lease flag |
| `LegacyImport.Candidate.InsertEvents` | src/experiment_queue/migrate_v5.py:828-855 | scope and project are decided by the presence of an item |
| `LegacyImport.Candidate.BuildCandidate` | src/experiment_queue/migrate_v5.py:992-1273 | the import succeeds exactly when the rows of every mapped table meet the CHECKs of the new schema and all keys, the reservation key included, refer to items; the candidate then projects back to the legacy view |
| `LegacyImport.SelfDependencyIsRefused` | src/experiment_queue/database_v5.py:773-783 | a legacy item that depends on itself, or on a number no item has, fails the CHECKs of the new schema |

## Left out

- Command lines, web, scripts, presentation, Git plumbing, /proc parsing, ownership and mode checks, symbolic links: foreign calls that are modelled as steps that succeed, fail, or fail after taking effect, or not at all.
- YAML, JSON Schema, SHA-256, timestamp and text rules: uninterpreted functions; the hash is injective only in the lemmas that say so.  A receipt stands for its digest in `Yield`.
- Canonical JSON: modelled as a normal form; that its rendering is injective and is undone by the JSON reader is taken from the standard.  Floats are reals, so negative zero is not distinguished.
- Inode numbers are never reused, a link never reports that a name exists because of its own effect, and interrupts arrive only at operations.
- `Executor.FillStaging`: a write is one step; in the state machine the bytes of an unsynced inode may still be torn by power loss.
- Dry runs of the importer, its path-boundary details and the checks before the candidate is built: one step that may fail.
- `Import.Importer.MigrateLegacyState`: other programs create absent names only.  After a run stuck by an interrupt the state is where the interrupted operation left it, or, if that was the candidate, perhaps removed with it.
- `Import.Importer.LeaveReceipt`: the handler's look for the receipt name does not fail; in the source a failed look reads as absence, and the exclusive link then refuses.
- `YieldTheorems.DeletedReceiptsAreRecorded`: for runs in which no request was persisted over a hazard, the exact condition by `EvidenceIsAtRiskIffHazard`.  The project answers each published request at most once.
- `Coordinator.Queue.RequestManualYield`: request identifiers are fresh; one that was used before is turned away here, while the source takes the caller's identifier as it is.
- Power loss in the yield protocol: a crash there is the death of the coordinators, SQLite transactions being durable.
- `StorageTheorems.StoredSnapshotRehydrates`: for compilers whose command, parameters and other identity entries are made of pieces of project and card (`Lawful`); columns of the wrong SQLite type are not represented.
- Dispatch order, GPU exclusivity, quarantine and signal-claim bookkeeping of the scheduler.
- `Launch.Launcher.AwaitReceipt`: that the confirmed read of the launch receipt leaves it durable is a flag here; it is what `Executor.ConfirmForRead` proves.
- `Coordinator.Queue.FinalizeManualYield`: the check of the runner's own terminal receipt is a parameter.
- `StorageTheorems.IdentityHolds`: card identity, environment policy, extension payloads and schema descriptor are entries of the identity that the model does not spell out (`rest`).
- `Launch.Launcher.LaunchPreparedAttempt`: keyboard interrupts in the launcher are not modelled; the file descriptors of the launcher log are not either.
- Drain of the scientific group after the child's exit, exit-receipt fields and return codes in `Segments`.
- `ContinuationV5.Coordinator.RequestThenRestart`: that recovery does succeed is promised for runs in which publication completed or left no file; a partially written request file is refused by recovery, as `RecoverPending` states.
- `YieldRequest`: the JSON writer and reader of the request are any pair of which the reader undoes the writer.
- `SqlRows.DecodeRows`: the readers of integers and floats are any that undo the printers, as Python's wider ones do; which other spellings they take is theirs.
- `LegacyImport`: artifact inventory, migration source row and metadata text are not mapped, and primary and UNIQUE keys, which for the mapped tables are those of the legacy schema, are not modelled; SQLite type affinity is not modelled; candidate rows are discarded, not rolled back, on failure.
- The list of fields that authoring searches for placeholders, and extension payload extraction: easy members.
