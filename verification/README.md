# Models and proofs for the consultation platform

This Dafny 4.11 project models the parts of the platform where several actors meet: durable remote
effects, archive holds and deletion, worker epochs with their checkpoint chains, the caption cache of
the browser, consent and join, capacity, magic links, and the canonical text every hash is taken of.
`dafny verify dfyconfig.toml` checks all of it.

## How the source is modelled

- **Tables and objects** are classes whose fields hold the rows as maps and sequences; each SQL
  statement or method is a method with its whole new state in its contract. A transaction that throws
  restores the rows.
- **Interleavings** are sequences of actions, one for each step between two awaits or for each
  transaction. Results about runs hold for every sequence.
- **The environment** (storage, network, clocks, other processes) is a parameter: a script of what
  others do and which calls fail, read one entry a call, or an argument of an action. A loop that could
  run for ever ends by throwing when its script is used up.
- **Pure code** is functions with lemmas.

| file | what it models |
|---|---|
| EffectRunner.dfy | one row of `external_effects`, its remote resource, and any number of workers running it |
| EffectProgress.dfy | what becomes of an effect that one worker claims and is left alone with, and of one whose call throws |
| WorkerPool.dfy | the bounded pool `mapBounded` |
| Paths.dfy, ArchiveEvidence.dfy, MissingEvidence.dfy | splitting object keys, the path index, the list of what an archive lacks |
| HoldOperations.dfy | archive and hold rows, hold operations, deletion, and all runs of them |
| HoldOutcomes.dfy | what each of those transactions answers in every state a run can reach |
| HoldNotes.dfy, HoldRelease.dfy | turning holds on and off on stored versions, with retry and compensation |
| Deletion.dfy | draining a deletion until two scans in a row are empty |
| Checkpoints.dfy, WorkerEpochs.dfy | checkpoint chains; heartbeat, checkpoint, completion, abandonment and settlement |
| EpochOutcomes.dfy | what each of those answers in every state a run can reach, said of rows and chains |
| WorkerEpochLimits.dfy | two runs in which an abandonment is blocked, or branches a chain |
| ProviderAttempts.dfy | the retry chain of provider attempts |
| CaptionPolicy.dfy | the bounded caption cache |
| Consultations.dfy | the consultation aggregate, the join protocol and the way to the end |
| ConsultationOutcomes.dfy | who gave each consent, preference and grant, and what each call changes and refuses |
| ConsultationReopening.dfy | a run in which an ended consultation is opened again |
| MagicLinks.dfy, MagicLinkOutcomes.dfy | single use and expiry of magic links |
| MagicLinkRequests.dfy | their rate limit |
| Capacity.dfy | capacity reservations and the provisioning loop |
| InventoryClaims.dfy | the check that an inventory claims what is stored |
| CanonicalJson.dfy | `canonicalJson`, and that its text determines the value |
| JsonReader.dfy | an independent reader of JSON text, which reads back what the printers print |
| StableJson.dfy | `stable`, with the order in which objects list their keys |
| Lifecycle.dfy, Sequences.dfy, Sorting.dfy, Wrappers.dfy | shared states, sequence and sorting facts, result types |

## Hypotheses

- *Effects.* `adopt` finds exactly what `execute` made. Owners have distinct ids. The effect's
  generation does not exceed the current one when it is planned, and generations only rise. A
  generation check counts as binding only for the worker that holds the lease. The main result takes
  runs in which nobody claims the effect while a holder is between its last check before the remote
  call and that call's end; `TakeoverInsideCallCreatesTwice` shows that without this the resource can be
  created twice, and `StaleCheckWithoutLeaseIsIgnored` that a check by a worker without the lease proves
  nothing. What is said of a worker left alone takes the same request as the recorded one (`MismatchFails` is
  the other case), a claim whose lease is running, and a lease that it keeps.
- *Path index.* Object classes hold no NUL (a Postgres text cannot); attempt ids, stages and
  participant ids hold no slash; expectation ids are distinct, being the primary key.
- *Holds.* Nobody else turns the legal hold of these versions on or off during one release run. A failed
  storage call changes nothing. What a release run says of storage, and not only of its progress entries,
  assumes that the progress it resumes is true: it calls no held version released. (An owner who stops
  between turning a hold on again and recording that leaves progress that is not.) So does what is said of
  storage, beyond progress entries, after a hold was applied. A listing names each version once.
- *Checkpoints.* The table keeps the constraints of its migrations (unique ids, hashes, watermarks and
  terminal rows), so hashes need not be assumed fresh. Workers do not write rows under the object key
  of a supervisor. Rising watermarks are a hypothesis only where a lemma says so.
- *Captions.* An utterance keeps its first sample; `MovedStartIsAcceptedAgain` shows why.
- *Consultations.* The hash of a provider selection determines the selection, and the two participant ids of
  a consultation differ.
- *Inventory.* Stored objects have distinct ids, the primary key, where a lemma says so.
- *Capacity.* What a provisioning run says it holds or gave back assumes that nobody else acts for the same
  consultation while it runs and that no clock reaches the expiry of its reservations (`ForeignScript`).
- *Canonical JSON.* The order of keys is strict and total. `localeCompare` is not strict for keys that it
  finds equal although they differ; `EqualKeysKeepTheirOrder` shows when the text then depends on the
  order of keys.

## Where the code and its documentation differ

- The repository's README (lines 824-826) says that stale planned effects are not moved to
  compensating. The code moves them there through calling
  (`apps/control-worker/src/orchestration/effect-runner.ts`, lines 96-117); the model follows the code.
- The same README (lines 822-823) says that checkpoint watermarks rise in each direction. The server
  does not check it. The chain of rows does not need it, except for the row an abandonment writes.

## Results that are limits of the code

- `AbandonmentSucceedsIff`: the guard admits an abandonment when fewer than two directions have a
  terminal row, but the unique index on terminal rows lets it succeed only when neither has.
  `BlockedAbandonment` is a run: the worker ends one direction and disappears, and then every
  abandonment is admitted and fails.
- `AbandonmentFollowsLastIff`: an abandonment is sure to add its rows after the last ones if and only if in
  each direction the head alone has the highest watermark. `AbandonmentBranches` is a run: a worker stores
  a row with a lower watermark, and the abandonment names the row before it.
- `ClosedLimitsIff`: the limits on magic-link requests hold for every window closed at both ends if and only
  if it is shorter than 15 minutes; `TwentyOneInClosedWindow` is a run with one request too many.
- `ForwardIffNotReopened`: a worker epoch that fails after its consultation has ended takes the
  consultation back to finalizing; no other step moves a consultation backwards. `ForcedEndIsReopened` is a
  run. It needs `forceFinalizeAtDeadline` (`packages/server-core/src/rooms/service.ts`, line 161), which
  nothing in the repository calls. The drain of the control worker ends a consultation only after
  ROOM_DELETE, which waits for a closed worker epoch
  (`apps/control-worker/src/orchestration/coordinator.ts`, lines 1111-1123), so that without a forced end
  every run only moves forward: `ForwardUnlessForced`.
- `PrintersAgreeIff`: `canonicalJson` and `stable` with `JSON.stringify` print the same text if and only if
  sorting the keys of every object already puts its array-index keys first, ascending. `TenBeforeNine` is an
  object for which they differ; each text alone still determines the value (`CanonicalIffSame`,
  `StableTextIffSame`).

## Model

| member | source | states |
|---|---|---|
| EffectRunner.EffectSafety | apps/control-worker/src/orchestration/effect-runner.ts:91-412 | in every run of any number of workers with crashes, lease expiry, takeovers and generation bumps, the remote resource is created at most once, a done effect owes no compensation, and done means applied with the resource alive under its recorded identity, or compensated with it gone |
| EffectRunner.DoneIsFinal | README.md:804-811 | once an orderly run has made an effect done, no actions that follow change its row |
| EffectRunner.StepKeepsInv | apps/control-worker/src/orchestration/effect-runner.ts:91-412 | one step of any worker or of the environment keeps the invariant that ties row, remote side and every suspended worker together |
| EffectRunner.RunKeepsInv | apps/control-worker/src/orchestration/effect-runner.ts:91-412 | the invariant holds at the end of every orderly run |
| EffectRunner.TakeoverInsideCallCreatesTwice | apps/control-worker/src/orchestration/effect-runner.ts:273-284 | a run with a takeover inside the remote call that creates the resource twice |
| EffectRunner.StaleCheckWithoutLeaseIsIgnored | apps/control-worker/src/orchestration/effect-runner.ts:181-205 | an orderly run in which a stale check by a worker without the lease is followed by done without compensation |
| EffectProgress.LeftAloneSettles | apps/control-worker/src/orchestration/effect-runner.ts:91-412 | whatever happened before, a worker that claims an effect neither done nor failed and is left alone (lease kept, calls answered, new generations allowed) is never stuck and after at most sixteen steps has made it done: undone with the resource gone if it was stale at the claim, applied with the resource alive if it is not stale at the end |
| EffectProgress.CompensatesWhatItKnows | apps/control-worker/src/orchestration/effect-runner.ts:273-412 | in such a run what is compensated is the resource the last answered call named, and without such a call the one on record; done without compensation, that identity is on record |
| EffectProgress.ThrownIsUndoneOrRetried | apps/control-worker/src/orchestration/effect-runner.ts:304-332 | when a call throws, within eight steps the effect is undone, or waits in calling without an owner, claimable exactly after its retry time; the second whenever it is not stale |
| EffectProgress.StaleThrowIsUndoneIffFound | apps/control-worker/src/orchestration/effect-runner.ts:308-322 | when a call on a stale effect throws, the effect is undone at once if and only if its resource is found |
| EffectProgress.CollisionFails | apps/control-worker/src/orchestration/effect-runner.ts:334-348 | something else under our identity fails the effect for good and nothing is made |
| EffectProgress.MismatchFails | apps/control-worker/src/orchestration/effect-runner.ts:129-138 | a request other than the recorded one fails the effect for good and nothing is made |
| EffectProgress.RequestInEveryRun | apps/control-worker/src/adapters/postgres-store/effects.ts:102-115 | in every run the first call puts the request on record and no later one changes it |
| EffectProgress.StrangerIsFenced | apps/control-worker/src/adapters/postgres-store/effects.ts:102-186 | what a worker without the lease does changes nothing in the row, until it claims it |
| EffectProgress.RenewalHolds | apps/control-worker/src/adapters/postgres-store/effects.ts:162-173 | a renewal keeps everyone else out until the time it asks for, and never shortens a lease |
| WorkerPool.PoolIsMap | apps/control-worker/src/orchestration/effect-runner.ts:857-895 | for every interleaving: indices are claimed once each in order, never more than the limit run at a time, no index is claimed after the first failure, which is the one thrown, and without a failure the result is the plain map |
| WorkerPool.PoolTerminates | apps/control-worker/src/orchestration/effect-runner.ts:857-895 | no interleaving is longer than two steps an item and one a worker |
| Paths.SplitAtSlash | apps/control-worker/src/orchestration/effect-runner.ts:918-918 | splitting a key distributes over a slash, so pieces of a key are runs of its segments |
| Paths.SplitGlue | apps/control-worker/src/orchestration/effect-runner.ts:918-927 | gluing slash-free segments and splitting again gives them back |
| ArchiveEvidence.PrefixMeans | apps/control-worker/src/orchestration/effect-runner.ts:917-927 | a prefix is in the index if and only if some key starts with it and a slash |
| ArchiveEvidence.FirstIdMeans | apps/control-worker/src/orchestration/effect-runner.ts:919-925 | looking up a class and a prefix finds exactly the first ordered object of that class whose key lies under the prefix |
| ArchiveEvidence.PlaceMeans | apps/control-worker/src/orchestration/effect-runner.ts:929-933 | a class and destination are in the index if and only if some key of that class contains the destination between slashes |
| ArchiveEvidence.EvidenceMeans | apps/control-worker/src/orchestration/effect-runner.ts:934-936 | provider evidence is in the index if and only if some key contains the whole path |
| ArchiveEvidence.AddPrefixes | apps/control-worker/src/orchestration/effect-runner.ts:917-927 | the loop over one key records each proper prefix once, and an id only where the pair is new |
| ArchiveEvidence.AddPlaces | apps/control-worker/src/orchestration/effect-runner.ts:929-937 | the loop over the inner segments records each with the class, and the provider paths |
| ArchiveEvidence.IndexEvidence | apps/control-worker/src/orchestration/effect-runner.ts:904-946 | the loops over the ordered objects build the index those meanings are proved of |
| MissingEvidence.MissingEntries | apps/control-worker/src/orchestration/effect-runner.ts:544-665 | looking things up in the index lists exactly what a plain scan of every key for every need lists, in the same order; the list is empty if and only if no object is invalid and the archive is complete |
| MissingEvidence.ResolveExpectation | apps/control-worker/src/orchestration/effect-runner.ts:550-562 | an expectation stands for its fulfilled object, or for the first discovered one of the two discoverable classes |
| MissingEvidence.ListExpectations | apps/control-worker/src/orchestration/effect-runner.ts:563-586 | expectations without an object, or with an invalid one, are listed in order, and the expected ids are exactly those of the resolved objects |
| MissingEvidence.ListUnexpected | apps/control-worker/src/orchestration/effect-runner.ts:594-602 | invalid objects that no expectation stands for are listed |
| MissingEvidence.ListAttempts | apps/control-worker/src/orchestration/effect-runner.ts:609-624 | each attempt without its terminal or its stage object in some key is listed for it |
| MissingEvidence.ListDirections | apps/control-worker/src/orchestration/effect-runner.ts:626-646 | translated directions that emitted output need an object of both output classes under the destination |
| MissingEvidence.ListEgress | apps/control-worker/src/orchestration/effect-runner.ts:647-663 | egress results that are not terminal, or whose prefix no key lies under, are listed |
| MissingEvidence.NoGapMeansNoneInvalid | apps/control-worker/src/orchestration/effect-runner.ts:563-602 | expectations and invalid objects together report nothing if and only if no object is invalid and every expectation is fulfilled |
| MissingEvidence.EmptyIffComplete | apps/control-worker/src/orchestration/effect-runner.ts:544-665 | for every object list the scan is empty if and only if the written-out completeness conditions hold and no object is invalid |
| MissingEvidence.OrderedSame | apps/control-worker/src/orchestration/effect-runner.ts:911-915 | ordering the objects keeps them all |
| HoldOperations.OperationIsTheBusyHold | packages/server-core/src/persistence/archive-repository.ts:794-905 | in every run the operation id is some hold exactly when that hold is the applying or releasing one, and the kind says which |
| HoldOperations.DeletionExcludesHolds | packages/server-core/src/archives/service.ts:488-521 | in every run an archive being deleted or deleted has no unreleased hold and no operation |
| HoldOperations.OwnerCanFinish | packages/server-core/src/archives/service.ts:818-848 | in every run a stale operation can be taken over (the corrupt case never arises) and its owner can finish it |
| HoldOperations.StaleOwnerIsFenced | packages/server-core/src/persistence/archive-repository.ts:844-905 | after a stale claim the old owner can neither renew nor complete, whatever happens later |
| HoldOperations.EachOperationCompletesOnce | packages/server-core/src/persistence/archive-repository.ts:814-905 | in every run beginnings and completions of hold operations take turns, each completion ending the operation begun just before it |
| HoldOperations.FinalStatesStay | packages/server-core/src/archives/service.ts:488-602 | released holds stay released, deleted archives stay deleted for the same epoch, and the write epoch never falls |
| HoldOperations.StepKeepsValid | packages/server-core/src/archives/service.ts:340-602 | every transaction keeps operation, busy hold and deletion state in agreement |
| HoldOperations.ArchiveRows.BeginOperation | packages/server-core/src/persistence/archive-repository.ts:814-842 | begins only without an operation and without a hold applying or releasing |
| HoldOperations.ArchiveRows.ClaimStaleOperation | packages/server-core/src/persistence/archive-repository.ts:844-866 | hands an operation whose lease has run out to the new owner |
| HoldOperations.ArchiveRows.CompleteOperation | packages/server-core/src/persistence/archive-repository.ts:886-905 | clears the operation for its id and owner only |
| HoldOperations.ArchiveRows.AddHold | packages/server-core/src/archives/service.ts:353-385 | the transaction that plans a hold, rolled back when a step fails |
| HoldOperations.ArchiveRows.ReleaseHold | packages/server-core/src/archives/service.ts:412-471 | the transaction that plans a release, or finishes it at once when another hold keeps the objects |
| HoldOperations.ArchiveRows.ClaimStale | packages/server-core/src/archives/service.ts:818-845 | the transaction that takes a stale operation over |
| HoldOperations.ArchiveRows.CompleteAdd | packages/server-core/src/archives/service.ts:968-1005 | completing the operation and moving the hold from applying happen together or not at all |
| HoldOperations.ArchiveRows.CompleteRelease | packages/server-core/src/archives/service.ts:1246-1283 | completing the operation and putting the hold back, or releasing it, happen together or not at all |
| HoldOperations.ArchiveRows.BeginDelete | packages/server-core/src/archives/service.ts:495-521 | deletion is admitted only for an ended consultation and a finished archive without unreleased holds, and raises the write epoch |
| HoldOperations.ArchiveRows.CompleteDeletion | packages/server-core/src/archives/service.ts:1401-1426 | deletion completes only for the current epoch, with writers drained and both participants cleared |
| HoldOutcomes.StorageIsReleasedForTheLast | packages/server-core/src/archives/service.ts:437-458 | in every run, while a hold is releasing no other hold is unreleased, so storage is released for the last one only |
| HoldOutcomes.ReleaseBesideAnother | packages/server-core/src/archives/service.ts:437-458 | in every run a release beside another unreleased hold, with no operation open, is finished at once and changes nothing but that hold |
| HoldOutcomes.ReleaseOpensIff | packages/server-core/src/archives/service.ts:412-471 | in every run a release opens an operation if and only if the archive is settled, nobody is at work and it is the last unreleased hold; it succeeds at all if and only if the archive is settled, nobody is at work and the hold is unreleased |
| HoldOutcomes.AddOpensIff | packages/server-core/src/archives/service.ts:353-385 | in every run a hold is added if and only if the archive is settled, nobody is at work on its holds and the id is new |
| HoldOutcomes.ClaimsIffStale | packages/server-core/src/archives/service.ts:818-848 | in every run an operation is handed over if and only if its lease has run out, and the claim never finds it corrupt |
| HoldOutcomes.AddCompletesIff | packages/server-core/src/archives/service.ts:968-1005 | in every run an application is completed if and only if it is the open operation of that owner |
| HoldOutcomes.ReleaseCompletesIff | packages/server-core/src/archives/service.ts:1246-1283 | so is a release that failed, as active or as failed |
| HoldOutcomes.DeletionBeginsIff | packages/server-core/src/archives/service.ts:495-521 | in every run a deletion is admitted if and only if the consultation has ended, the archive is settled and every hold is released; asked again it changes nothing |
| HoldOutcomes.DeletionCompletesIff | packages/server-core/src/persistence/archive-repository.ts:735-781 | a deletion is completed if and only if it is the one under way, with writers drained and both participants cleared |
| HoldOutcomes.RefusedBecause | packages/server-core/src/archives/service.ts:353-521 | in every run the error of a refused hold, release or deletion says which condition failed |
| HoldRelease.HoldWorker.ReleaseFromStorage | packages/server-core/src/archives/service.ts:1008-1193 | from any recorded progress of a former owner, and for any listings, failures and interference: put back means that the hold is active if everything this run turned off, with what it found turned off and listed, is on again, and failed if and only if some of it is not, after some release failed; released means that every listed version and every version last recorded is off, after two equal listings in a row; what only the former owner turned off and is not listed is left as it was; alone, with answers that repeat, it never throws, and without a failed release it never puts the hold back |
| HoldRelease.HoldWorker.ReleaseUntilStable | packages/server-core/src/archives/service.ts:1022-1063 | the scan loop ends only after two equal listings in a row, with every listed version tried |
| HoldRelease.HoldWorker.ReleaseListed | packages/server-core/src/archives/service.ts:1031-1062 | each version of a listing is tried once, unless its last entry is a release already, and becomes part of what was discovered |
| HoldRelease.HoldWorker.CompensateAll | packages/server-core/src/archives/service.ts:1071-1100 | every released version is tried; compensation reports a loss if and only if some released version could not be turned on again |
| HoldRelease.HoldWorker.Revert | packages/server-core/src/archives/service.ts:1101-1113 | the hold goes back to active, or to failed when a version is lost |
| HoldRelease.HoldWorker.FinishRound | packages/server-core/src/archives/service.ts:1115-1191 | a round of that loop turns off what is pending and goes on, or ends with everything read turned off, or puts the hold back |
| HoldRelease.HoldWorker.FinishPending | packages/server-core/src/archives/service.ts:1115-1192 | the pending loop releases the hold only when every recorded version has been turned off |
| HoldRelease.HoldWorker.PendingOf | packages/server-core/src/archives/service.ts:1211-1223 | pending are the recorded versions whose last entry is not a release that succeeded, each once |
| HoldRelease.HoldWorker.ApplyToStorage | packages/server-core/src/archives/service.ts:872-956 | from any recorded progress and with any failures: every listed version not protected by it gets one call and, if and only if that failed, a second one, with an entry for each; the hold is failed if and only if both calls of some version failed, and otherwise active with every listed version protected; without a failing call it never fails |
| HoldRelease.HoldWorker.RetryAll | packages/server-core/src/archives/service.ts:915-945 | with the lease kept, every version that failed is tried once more and gets an entry that says how that went |
| HoldNotes.SecondIffFirstFailed | packages/server-core/src/archives/service.ts:884-933 | a version not protected before is called once, and a second time if and only if the first call failed |
| HoldNotes.HoldFailsIffBothFail | packages/server-core/src/archives/service.ts:935-945 | over a listing without repetition a hold fails if and only if both calls of one version failed, so that one failed call for each version never fails it |
| Deletion.DeletionWorker.Drain | packages/server-core/src/archives/service.ts:554-602 | a drain answers yes only for an archive deleted for its own epoch, after two empty scans in a row with writers drained at each; another epoch is refused and changes nothing; when nobody else acts, exactly two scans do it |
| Deletion.DeletionWorker.PerformScan | packages/server-core/src/archives/service.ts:1326-1350 | a scan reports what is there when it looks again; when nobody else acts it empties storage and finds it empty |
| Deletion.DeletionWorker.RecordScan | packages/server-core/src/archives/service.ts:1352-1399 | a scan is recorded only while this epoch's deletion is under way, with what it found and whether writers were drained |
| Deletion.DeletionWorker.ScanUntilEmpty | packages/server-core/src/archives/service.ts:582-596 | the loop goes on to completion only after two recorded scans in a row that were empty, with writers drained; when nobody else acts two scans do |
| Checkpoints.NamesHeadIffLast | packages/server-core/src/application-operations-workers.ts:151-189 | in an open chain the head guard admits exactly the rows that name its last row |
| Checkpoints.RisingChainIsWhole | packages/server-core/src/application-operations-workers.ts:586-613 | with rising watermarks the row of an abandonment names the row just before it |
| Checkpoints.PickIsHeadIff | packages/server-core/src/application-operations-workers.ts:588-597 | every row the query may pick is the head if and only if the head alone has the highest watermark |
| WorkerEpochs.ChainsInEveryRun | packages/server-core/src/application-operations-workers.ts:104-208 | in every run of workers, abandonments and supervisors the rows of every direction of every worker epoch form one chain with distinct hashes, and nothing follows a terminal row |
| WorkerEpochs.SettleKeepsChains | apps/control-worker/src/adapters/postgres-store/consultations.ts:617-714 | the terminal rows with which a supervisor settles an epoch extend the chains, in directions that have none yet |
| WorkerEpochs.RisingRunsAreUnbranched | packages/server-core/src/application-operations-workers.ts:150-201 | with rising watermarks every row, an abandonment's too, names the row just before it, from a single root |
| WorkerEpochs.EpochsCloseOnce | packages/server-core/src/application-operations-workers.ts:402-666 | in every run released and terminal are set together, no two recorded requests closed one epoch, and failed and abandoned epochs have exactly one archive.failed each |
| WorkerEpochs.ClosingEffect | packages/server-core/src/application-operations-workers.ts:421-517 | a new completion or abandonment that succeeds closes an open epoch, and raises the generation and emits one archive.failed if and only if it failed |
| WorkerEpochs.ClosedStaysClosed | packages/server-core/src/application-operations-workers.ts:411-518 | a closed epoch keeps its time, outcome and terminal checkpoint for ever |
| WorkerEpochs.ClosedRefuses | packages/server-core/src/application-operations-workers.ts:67-206 | for a closed epoch heartbeats, and checkpoints, completions and abandonments that replay nothing, are refused and change nothing |
| WorkerEpochs.CheckpointReplays | packages/server-core/src/application-operations-workers.ts:109-135 | a checkpoint that was accepted is accepted again at any later time and changes nothing |
| WorkerEpochs.CompletionReplays | packages/server-core/src/application-operations-workers.ts:413-420 | so is a completion |
| WorkerEpochs.AbandonmentReplays | packages/server-core/src/application-operations-workers.ts:528-535 | so is an abandonment |
| WorkerEpochs.AbandonmentSucceedsIff | packages/server-core/src/application-operations-workers.ts:536-613 | an abandonment the guard admits succeeds if and only if neither direction has a terminal row |
| WorkerEpochs.AbandonmentFollowsLastIff | packages/server-core/src/application-operations-workers.ts:586-613 | whichever rows the query may pick, an abandonment that nothing blocks adds a row after the last one in each direction, if and only if in each direction the head alone has the highest watermark |
| WorkerEpochLimits.BlockedAbandonment | packages/server-core/src/application-operations-workers.ts:536-613 | a run in which one direction has the worker's terminal row, the lease has run out and the guard holds, and every abandonment fails on the unique index |
| WorkerEpochLimits.AbandonmentBranches | packages/server-core/src/application-operations-workers.ts:586-613 | a run with a falling watermark in which the only row the query may pick is not the last, and the abandonment succeeds and names it |
| WorkerEpochs.EpochNumbersDifferInEveryRun | packages/server-core/src/application-operations-workers.ts:172-185 | in every run rows of one epoch number are of one generation and one worker |
| WorkerEpochs.PickLatest | packages/server-core/src/application-operations-workers.ts:588-597 | the previous row of an abandonment has the highest watermark of its direction |
| WorkerEpochs.WorkerTables.Heartbeat | packages/server-core/src/application-operations-workers.ts:59-102 | a heartbeat extends both rows of an open epoch in a ready or active consultation and otherwise nothing |
| WorkerEpochs.WorkerTables.WriteCheckpoint | packages/server-core/src/application-operations-workers.ts:104-208 | a checkpoint is a replay, or is inserted under its guards, or is refused without effect |
| WorkerEpochs.WorkerTables.CompleteEpoch | packages/server-core/src/application-operations-workers.ts:402-519 | completion needs two terminal checkpoints of different sources and destinations and closes the epoch at the designated one |
| WorkerEpochs.WorkerTables.AbandonEpoch | packages/server-core/src/application-operations-workers.ts:521-666 | abandonment writes a terminal row in each direction and closes the epoch, or changes nothing |
| WorkerEpochs.WorkerTables.SettleDirection | apps/control-worker/src/adapters/postgres-store/consultations.ts:644-692 | a terminal row after one of the highest watermark is written where there is none yet |
| WorkerEpochs.WorkerTables.SettleEpoch | apps/control-worker/src/adapters/postgres-store/consultations.ts:423-485 | a supervisor closes an epoch that is still open as failed, with a terminal row in each direction, or changes nothing |
| EpochOutcomes.CompletionSucceedsIff | packages/server-core/src/application-operations-workers.ts:421-480 | in every run a new well-formed completion from the worker in charge, of an archive not being deleted, succeeds if and only if its two checkpoints are stored terminal rows of its tuple with the hashes sent, in two configured directions of different sources and destinations; otherwise it is fenced and changes nothing |
| EpochOutcomes.CompletionCloses | packages/server-core/src/application-operations-workers.ts:463-517 | a completion that succeeds finds both chains ended by its rows, closes the epoch at the creation time of the row with the smaller id, and only a failure moves the consultation on |
| EpochOutcomes.CompletionRefused | packages/server-core/src/application-operations-workers.ts:421-462 | a completion by anyone not in charge, or of an archive being deleted, is fenced and changes nothing |
| EpochOutcomes.TakenEventIsRefused | packages/server-core/src/application-operations-workers.ts:499-517 | a completion under an event id that another request has taken fails and changes nothing |
| EpochOutcomes.HeartbeatIff | packages/server-core/src/application-operations-workers.ts:59-102 | in every run a heartbeat is answered yes if and only if it comes from the epoch in charge of a ready or active consultation whose reservation takes load |
| EpochOutcomes.HeartbeatHoldsOff | packages/server-core/src/application-operations-workers.ts:536-560 | a heartbeat holds off every abandonment of its epoch for thirty seconds |
| EpochOutcomes.CheckpointStoredIff | packages/server-core/src/application-operations-workers.ts:104-208 | in every run a checkpoint that replays nothing is stored if and only if its worker is in charge, the archive is not being deleted, it names the last row of a direction that has not ended, and it repeats no id, hash or watermark |
| EpochOutcomes.AbandonmentAdmittedIff | packages/server-core/src/application-operations-workers.ts:536-560 | in every run a new abandonment is admitted if and only if the epoch is in charge, its lease has run out and not both directions have ended |
| EpochOutcomes.AbandonmentCloses | packages/server-core/src/application-operations-workers.ts:586-666 | an abandonment that succeeds adds its two rows, closes the epoch as failed and fenced, and moves the consultation on |
| EpochOutcomes.SettlementCloses | apps/control-worker/src/adapters/postgres-store/consultations.ts:617-714 | in every run a settlement of an epoch that is not closed closes it as failed and leaves both directions ended, with a row added only where one had not |
| EpochOutcomes.SupervisorRowIsAbove | packages/server-core/src/application-operations-workers.ts:586-613 | the row that ends a direction follows the picked row with its counts, and lies strictly above every row of the direction |
| EpochOutcomes.ReservationPutsInCharge | apps/control-worker/src/adapters/postgres-store/consultations.ts:134-183 | in every run the reservation of a new generation puts its worker in charge, and a repeated one only lets it take load again |
| EpochOutcomes.ReservedMayBeat | apps/control-worker/src/adapters/postgres-store/consultations.ts:168-180 | a new reservation keeps abandonments out for five minutes, and its heartbeats are answered yes |
| ProviderAttempts.RetryChain | packages/server-core/src/application-operations-workers.ts:280-326 | from attempt n, n - 1 retry links reach attempt 1, and all attempts on the way share consultation, direction and operation |
| ProviderAttempts.AlwaysLinked | packages/server-core/src/application-operations-workers.ts:280-333 | in every reachable table each later attempt names the one just before it |
| ProviderAttempts.ReplayChangesNothing | packages/server-core/src/application-operations-workers.ts:328-360 | reporting a stored attempt again succeeds and changes nothing |
| ProviderAttempts.AttemptTable.ProviderAttempt | packages/server-core/src/application-operations-workers.ts:210-360 | a report is inserted under its guards, or is a replay, or is refused without effect |
| ProviderAttempts.StoredIffNext | packages/server-core/src/application-operations-workers.ts:280-360 | in every reachable table a new attempt is stored if and only if both fences let it through and it is the first of its operation or the next after the latest, naming that one |
| CaptionPolicy.BoundedNeverAcceptsMore | apps/web/lib/browser/room-policy.ts:26-85 | on every packet sequence where an utterance keeps its start, the bounded policy accepts only what an unbounded memory accepts |
| CaptionPolicy.IdenticalUpToLimit | apps/web/lib/browser/room-policy.ts:23-85 | the two decide identically while at most 256 utterances have been accepted |
| CaptionPolicy.CacheAgreesWithMemory | apps/web/lib/browser/room-policy.ts:26-85 | after every packet sequence what the cache tracks agrees with the memory, and what it lost lies at or below the watermark |
| CaptionPolicy.MovedStartIsAcceptedAgain | apps/web/lib/browser/room-policy.ts:37-44 | packets that move an evicted utterance past the watermark are accepted although the memory refuses them |
| CaptionPolicy.CaptionRevisionPolicy.Accepts | apps/web/lib/browser/room-policy.ts:31-55 | the two insertion-ordered maps decide and change as one ordered list of at most 256 entries |
| CaptionPolicy.CaptionRevisionPolicy.Trim | apps/web/lib/browser/room-policy.ts:61-84 | the eviction loops drop the oldest entries of that list and raise the watermark to the highest start dropped |
| CaptionPolicy.MemoryAcceptsIff | apps/web/lib/browser/room-policy.ts:37-44 | the unbounded memory accepts a packet if and only if its revision is higher than every one accepted before for the utterance and it does not go back from final to interim |
| CaptionPolicy.AcceptedRises | apps/web/lib/browser/room-policy.ts:31-55 | where utterances keep their starts the bounded policy accepts only revisions that rise over all accepted before, with nothing interim after a final one |
| CaptionPolicy.TrackedAcceptsIff | apps/web/lib/browser/room-policy.ts:31-55 | of a tracked utterance it accepts exactly those |
| CaptionPolicy.NewestIsAccepted | apps/web/lib/browser/room-policy.ts:37-44 | an untracked utterance that starts after everything seen is accepted, however much was evicted |
| Consultations.ConsentsInEveryRun | packages/server-core/src/consultations/domain.ts:74-304 | in every run each consent names the current snapshot, and ready, active, finalizing and ended consultations have both consents to one snapshot |
| Consultations.ProvisioningInEveryRun | packages/server-core/src/consultations/service.ts:256-307 | in every run, with any number of joins between check and transaction, at most one provisioning request is issued, for a selection whose freshness check passed |
| Consultations.GrantsInEveryRun | packages/server-core/src/consultations/domain.ts:217-242 | in every run nobody may publish without a capture of theirs and, until erasure, the consent of both sides to one snapshot |
| Consultations.EligibleIffAgreed | packages/server-core/src/consultations/domain.ts:174-188 | a consultation may be joined if and only if both languages are known and both sides agreed to the snapshot |
| Consultations.TransitionsKeepConsents | packages/server-core/src/consultations/domain.ts:74-304 | every aggregate transition keeps consents current |
| Consultations.PreferencesTakeConsentBack | packages/server-core/src/consultations/domain.ts:93-106 | changed preferences take back both consents and block the join |
| Consultations.ForwardIffNotReopened | packages/server-core/src/application-operations-workers.ts:481-485 | a step moves a consultation forward if and only if it is not the failure, after the end, of a worker epoch still open; the generation never falls |
| Consultations.ForwardUnlessForced | apps/control-worker/src/orchestration/coordinator.ts:1111-1123 | between any two moments of a run without a forced end the consultation has only moved forward, because the drain ends it after its worker epoch is closed |
| ConsultationReopening.ForcedEndIsReopened | packages/server-core/src/rooms/service.ts:161-181 | a run from the creation of a consultation that ends it by force at the deadline and then, when the worker fails, has it finalizing again |
| Consultations.ClosedForGood | packages/server-core/src/consultations/domain.ts:280-294 | cancelled and erased consultations stay so |
| Consultations.ConsultationRow.SetPreferences | packages/server-core/src/consultations/service.ts:178-222 | preferences are saved, with a new selection once both languages are known, or nothing changes |
| Consultations.ConsultationRow.GiveConsent | packages/server-core/src/consultations/service.ts:224-254 | a consent to the current snapshot is saved, or nothing changes |
| Consultations.ConsultationRow.CommitJoin | packages/server-core/src/consultations/service.ts:271-302 | a join is planned with one request only when eligible and when the snapshot is the one its check saw |
| Consultations.ConsultationRow.End | packages/server-core/src/consultations/service.ts:350-380 | the employee ends an active consultation with one request; ending again repeats the answer |
| Consultations.ConsultationRow.Cancel | packages/server-core/src/consultations/service.ts:382-404 | the employee cancels before the start with one message; cancelling again changes nothing |
| ConsultationOutcomes.WarrantedInEveryRun | packages/server-core/src/consultations/domain.ts:74-242 | in every run each consent of a slot was given by its own user, with that snapshot, copy and time, after the last change of preferences; its name and language are what its own user saved; its capture was granted to it |
| ConsultationOutcomes.ConsentOutcome | packages/server-core/src/consultations/domain.ts:139-172 | a consent is saved if and only if a participant gives it before the start to the current snapshot; it is the caller's alone, and the other side stays as it was |
| ConsultationOutcomes.PreferencesOutcome | packages/server-core/src/consultations/service.ts:178-222 | preferences are saved if and only if they are a participant's, before the start, with name and language given and, once both languages are known, a selection resolved; they are the caller's own, and both consents go |
| ConsultationOutcomes.GrantOutcome | packages/server-core/src/consultations/domain.ts:217-242 | a grant of capture changes one participant of a started consultation and leaves the other |
| ConsultationOutcomes.JoinOutcome | packages/server-core/src/consultations/service.ts:271-302 | a join is planned if and only if the consultation waits for its start, both languages are known, both sides agreed and the snapshot is the one its check saw |
| ConsultationOutcomes.JoinRefusedBecause | packages/server-core/src/consultations/service.ts:271-302 | in every run the error of a refused join says what is missing |
| ConsultationOutcomes.PreflightOutcome | packages/server-core/src/consultations/service.ts:256-270 | the check before a join passes for participants of a started consultation, or with a snapshot that is healthy |
| ConsultationOutcomes.EndOutcome | packages/server-core/src/consultations/service.ts:350-380 | only the employee ends a consultation, and only an active one changes |
| ConsultationOutcomes.CancelOutcome | packages/server-core/src/consultations/service.ts:382-404 | only the employee cancels, before the start, and a first fence of admissions keeps its time |
| ConsultationOutcomes.DeadlinesInEveryRun | packages/server-core/src/consultations/domain.ts:190-264 | in every run a ready consultation has room, worker and deadline, and one that is finalizing has a deadline |
| ConsultationOutcomes.FailureOutcome | packages/server-core/src/application-operations-workers.ts:481-517 | in every run the failure of the open epoch of the current generation closes it, fences the generation and moves the consultation to finalizing once |
| ConsultationOutcomes.FinalizationOutcome | apps/control-worker/src/adapters/postgres-store/consultations.ts:238-262 | a started consultation is finalized once, and keeps a deadline it has |
| ConsultationOutcomes.ForcedEndIff | packages/server-core/src/rooms/service.ts:161-181 | in every run a finalizing consultation is ended by force if and only if its deadline has come |
| ConsultationOutcomes.DrainEndsIff | apps/control-worker/src/orchestration/coordinator.ts:1111-1123 | a finalizing consultation ends with the drain if and only if its worker epoch is not open |
| ConsultationOutcomes.ErasureOutcome | packages/server-core/src/persistence/archive-repository.ts:753-778 | erasing an ended consultation leaves who took part and when, and nothing either side said or chose |
| MagicLinks.OneActiveLinkInEveryRun | packages/server-core/src/persistence/auth-repository.ts:81-160 | at every moment of every run there is at most one unconsumed, unrevoked link for an identity, without help from the unique index |
| MagicLinks.OneSessionPerLinkInEveryRun | packages/server-core/src/auth/service.ts:219-274 | over every run each link creates at most one session |
| MagicLinks.UsedLinkIsRefused | packages/server-core/src/persistence/auth-repository.ts:263-289 | a link that made a session begins no exchange and verifies nothing at any later time |
| MagicLinks.VerificationEffect | packages/server-core/src/persistence/auth-repository.ts:315-349 | a verification adds one session for the link's user; a re-authentication revokes exactly the session it replaces and otherwise no session is touched |
| MagicLinks.AuthRows.FindNewest | packages/server-core/src/persistence/auth-repository.ts:96-121 | the newest active link of an identity, by creation time and id |
| MagicLinks.AuthRows.GetOrCreateActiveLink | packages/server-core/src/persistence/auth-repository.ts:62-161 | a live link is returned; an expired one is revoked and replaced; a rejected insert changes nothing |
| MagicLinks.AuthRows.BeginExchange | packages/server-core/src/persistence/auth-repository.ts:209-240 | spent exchanges of the link are removed and one live exchange is added, or nothing changes |
| MagicLinks.AuthRows.VerifyExchange | packages/server-core/src/auth/service.ts:219-274 | exchange and link are consumed together with the new session, or nothing changes |
| MagicLinkOutcomes.NothingAfterExpiry | packages/server-core/src/auth/service.ts:219-274 | in every run exchanges begin, links are used and sessions arise only before the link's expiry |
| MagicLinkOutcomes.ExpiredLinkIsRefused | packages/server-core/src/persistence/auth-repository.ts:209-240 | at or after its expiry a link begins no exchange and makes no session, and the attempt changes nothing |
| MagicLinkOutcomes.GoodLinkIsReused | packages/server-core/src/persistence/auth-repository.ts:96-125 | in every run a link of the identity that is still good is handed out again and nothing changes |
| MagicLinkOutcomes.LinkIsIssued | packages/server-core/src/persistence/auth-repository.ts:62-161 | in every run an expired link is revoked and replaced, and without one the candidate is stored |
| MagicLinkOutcomes.ExchangeBeginsIff | packages/server-core/src/persistence/auth-repository.ts:209-240 | an exchange begins if and only if the token is that of a good link without a live exchange and id and nonce are new; it lasts five minutes |
| MagicLinkOutcomes.VerificationSucceedsIff | packages/server-core/src/auth/service.ts:219-274 | a verification succeeds if and only if exchange, link, binding and the new session's id and token are all good; otherwise nothing changes |
| MagicLinkOutcomes.VerificationStores | packages/server-core/src/auth/service.ts:219-274 | what a verification stores: one session of twelve hours and the use of link and exchange |
| MagicLinkOutcomes.RevokesCurrent | packages/server-core/src/persistence/auth-repository.ts:351-356 | revoking the links of a consultation revokes exactly those neither used nor revoked |
| MagicLinkOutcomes.RevokedSessionStays | packages/server-core/src/application-operations.ts:258-262 | in every run a revoked session stays revoked since the same time |
| MagicLinkRequests.WindowLimits | packages/server-core/src/persistence/auth-repository.ts:358-399 | with a clock that does not run backwards every window of 15 minutes holds at most 20 admitted requests of an address and 5 of an e-mail, although rows are deleted |
| MagicLinkRequests.TableIsRecentPast | packages/server-core/src/persistence/auth-repository.ts:358-399 | the table holds exactly the admitted requests younger than the last deletion |
| MagicLinkRequests.ClosedLimitsIff | packages/server-core/src/auth/service.ts:393-406 | all closed windows of a length are within the limit of an address, and within that of an e-mail, if and only if they are shorter than 15 minutes |
| MagicLinkRequests.TwentyOneInClosedWindow | packages/server-core/src/auth/service.ts:393-406 | a run with 21 admitted requests of one address in a window of 15 minutes closed at both ends |
| MagicLinkRequests.RequestTable.Admit | packages/server-core/src/persistence/auth-repository.ts:358-399 | old rows go, and the request is added only below both limits |
| MagicLinkRequests.AdmittedIff | packages/server-core/src/persistence/auth-repository.ts:358-399 | a request is admitted if and only if, of all admitted in the fifteen minutes before, fewer than 20 came from its address and fewer than 5 were for its e-mail |
| Capacity.CapacityInEveryRun | apps/control-worker/src/adapters/redis-coordination.ts:3-65 | with one capacity for each key, in every run of reserve, renew, release and expiry the units under a key never exceed it and both structures hold the same ids |
| Capacity.ForeignRun | apps/control-worker/src/adapters/redis-coordination.ts:3-65 | whatever other consultations do, a reservation neither appears nor, before it expires, disappears |
| Capacity.SumWithout | apps/control-worker/src/adapters/redis-coordination.ts:25-28 | the units of a hash add up to the same in any order |
| Capacity.CapacityCoordinator.Reserve | apps/control-worker/src/adapters/redis-coordination.ts:3-36 | expired ids go, an existing id is renewed, and a new one is added only within the capacity |
| Capacity.CapacityCoordinator.Provision | apps/control-worker/src/orchestration/coordinator.ts:296-374 | success holds every dimension until its expiry; a failure that could give back holds none it tried, calls whose answer was lost included; when nobody else acts and every call is answered it succeeds if and only if the later steps do and every dimension fits after the ones before it |
| Capacity.CapacityCoordinator.TakeAll | apps/control-worker/src/orchestration/coordinator.ts:300-353 | the loop holds what it took and stops at the first dimension that is refused, which is then not held, or throws |
| Capacity.CapacityCoordinator.RollBack | apps/control-worker/src/orchestration/coordinator.ts:496-520 | when every release is answered nothing is held any more |
| Capacity.AdmittedIff | apps/control-worker/src/adapters/redis-coordination.ts:3-36 | a reservation still there is renewed, and a new one is admitted if and only if its units and those not run out are within the capacity together; what others hold stays |
| Capacity.RenewedIff | apps/control-worker/src/adapters/redis-coordination.ts:38-65 | a renewal moves the expiry of a reservation still there, and a release removes it |
| InventoryClaims.ExactMeansOneToOne | packages/server-core/src/archives/service.ts:1537-1583 | an exact check passes if and only if the claims repeat no id and no version and claimed and stored objects are the same, every compared field included |
| InventoryClaims.ClaimsAreStored | packages/server-core/src/archives/service.ts:1537-1583 | a passed check finds each claim among the stored rows |
| InventoryClaims.InexactMeansStored | packages/server-core/src/archives/service.ts:1537-1583 | outside exact mode the check passes if and only if the claims repeat no id and no version and each is a stored object, every compared field included |
| CanonicalJson.CanonicalIffSame | apps/web/lib/server/runtime-adapters.ts:111-124 | canonical texts are equal if and only if the values are equal up to the order of object keys, at any nesting |
| CanonicalJson.CanonicalArranges | apps/web/lib/server/runtime-adapters.ts:111-124 | sorting while printing gives the text of the value sorted before, at any nesting |
| CanonicalJson.TextDecodes | apps/web/lib/server/runtime-adapters.ts:111-124 | printed text, with what follows it, determines the value |
| CanonicalJson.QuotedDecodes | apps/web/lib/server/runtime-adapters.ts:120-122 | a string literal determines its string and where it ends |
| JsonReader.CanonicalReadsBack | apps/web/lib/server/runtime-adapters.ts:111-124 | canonical text is JSON: a reader written from the grammar of RFC 8259 gives the value back up to the order of keys, with the keys of each object ascending |
| JsonReader.ReadsQuoted | apps/web/lib/server/runtime-adapters.ts:120-122 | that reader gives back every string from its literal |
| StableJson.FromSorted | apps/control-worker/src/orchestration/model.ts:314-317 | building an object anew from sorted entries sorts it by one strict total order: array-index keys first by number, the others by the given order |
| StableJson.StableBlind | apps/control-worker/src/orchestration/model.ts:309-320 | two values become the same by `stable` if and only if they are equal up to the order of keys |
| StableJson.StableIsSame | apps/control-worker/src/orchestration/model.ts:309-320 | `stable` changes nothing but the order of keys |
| StableJson.StableIdempotent | apps/control-worker/src/orchestration/model.ts:309-320 | `stable` twice is `stable` once |
| StableJson.StableTextIffSame | apps/control-worker/src/orchestration/model.ts:309-326 | the texts that are hashed are equal if and only if the values are equal up to the order of keys |
| JsonReader.StableReadsBack | apps/control-worker/src/orchestration/model.ts:309-326 | the text that is hashed is JSON, and reading it gives the value back up to the order of keys |
| StableJson.PrintersAgreeIff | apps/control-worker/src/orchestration/model.ts:309-326 | `canonicalJson` and the hashed text agree on a value if and only if in every object of it sorting already puts the array-index keys first, ascending |
| StableJson.TenBeforeNine | apps/control-worker/src/orchestration/model.ts:317-317 | for an object with the keys 9 and 10 they differ |
| StableJson.EqualKeysKeepTheirOrder | apps/control-worker/src/orchestration/model.ts:314-317 | of two keys the comparison finds equal, canonical text depends on their order, and `stable` does if and only if neither is an array index |

## Left out

- Archive effects: `ARCHIVE_RECONCILE` and `ARCHIVE_DELETE` take other paths through the effect runner; of the first, only the completeness check is modelled. `STATUS_PACKET`, which `adopt` never finds, is not covered.
- Effect back-off, attempt counters and the periodic renewal timer: a renewal may happen at any time.
- The caption download and the VTT rendering (`loadLatestFinalCaptions`, `encodeVtt`): they would add easy members.
- Listing versions page by page: a listing is one answer or an error.
- HoldRelease.HoldWorker.ReleaseFromStorage: does not cover the storage calls of two overlapping owners, because only the database operation is fenced.
- Hold reasons, re-authentication freshness, audit rows, and the stored progress of a hold.
- Deletion.DeletionWorker.Drain: the tables behind `deletionWritersDrained` are one answer that others may change.
- Supplements to an inventory: their commit refuses finished archives, so claims about runs would be empty. The inventory check is claimed where it is made, before the commit.
- Gap lists and object ids of checkpoints are one payload that no guard looks at; the gaps an abandonment or a supervisor appends are not computed.
- The lookups that fill in a provider attempt (selection, profile, credential) are two yes-or-no fences.
- CaptionPolicy.BoundedNeverAcceptsMore: sample numbers are integers and packets are already validated.
- Consultations.ConsultationRow.CommitJoin: room names and ids are arguments; optimistic save conflicts do not arise under the row lock.
- Creating consultations, LiveKit tokens, presence and capture effects.
- MagicLinks.AuthRows.VerifyExchange: tokens, nonces and secrets are digests; origin and length checks are one answer; who asks is an argument.
- Capacity.CapacityCoordinator.Provision: assumes that nobody else acts for the same consultation before the expiry; the lease on the outbox item, which keeps a second worker away, is not modelled.
- Capacity.CapacityCoordinator.RollBack: the releases run one after the other, not at the same time.
- CanonicalJson.CanonicalIffSame: numbers are carried as their printed text; lone surrogates and `undefined` are not modelled.
