# Verified models of the compute image tools

A Dafny model of five parts of this repository, with proofs about each. The model follows
the Go code branch by branch; where the code falls short of what a caller may expect, the
model keeps the code as it is and the proofs say exactly when it meets the expectation.

`dafny verify dfyconfig.toml` checks everything.

## What is modelled

**Chunked, concurrent, composed upload** (`cli_tools/common/utils/storage/buffered_writer.go`).
`Chunking` states on values how writes are cut into parts. `UploadProtocol` is the step
system of the workers; its runs are all interleavings and all failures. `UploadProducer`
adds the producer and the hand-over of each part, and shows that the workers then have the
same runs.
`UploadOrder` settles when the order of the recorded names is the order of the parts.
`ComposeRound` and `PartObjects` treat the composition loop and the names of temporary
objects on a bucket, which is a map from names to bytes (`ObjectStore`). The class
`BufferedWriter` has the fields of the Go type and its methods `Write` and `Close`, with
the failures of files, of the client and of the bucket. Three facts about the code:

- The order of the object is the order in which workers record names. It reproduces the
  stream for every run if and only if there is one worker or all parts commute under
  concatenation. `gce_export/main.go:54` and `gce_export/main.go:222` use one worker per CPU.
- An attempt that fails after it has recorded its name records it again when it is retried.
  `Close` then fails: without other failures it succeeds if and only if there was no such
  attempt, and such a run exists for any number of parts and workers. Every part is then
  still contained in some object of the bucket.
- If the flush in `Close` fails, nobody waits for the workers or tells them to stop. The
  parts flushed before that they have stored stay behind as objects of the bucket.

**In-place upgrade of Windows** (`gce_windows_upgrade/upgrader`). The project state is a
value (`Instance`), a Daisy step an atomic change of it, and a phase any order of its steps
that respects the dependencies, cut off anywhere. `UpgradeWorkflows` has the workflows,
`UpgradeSafety` the invariant of every step of every phase, `UpgradeRollback` what a
rollback restores and when it can finish, `StartupScript` the customer's startup script
through any sequence of interrupted runs, `Licenses` and `Validation` the checks of a new
run, `Upgrader` the sequence of phases with the reaction to a failure, `UpgradeOutcomes`
what holds for whole runs, and `UpgradeFailures` which failures can be reached, and exactly
when. Facts about the code:

- `retryUpgradeSteps` has one entry (`gce_windows_upgrade/upgrader/workflows.go:35`). For
  any other target, and for no target but those, a run can ask for a retry that does not
  exist and call a nil function. Those upgrades do not look for the text that calls for a
  reboot; it takes a failure line of another kind that contains it. The deferred reaction then sees the error of the reboot,
  which is nil, and does nothing.
- If the instance has no script URL, and only then, a run can end so that the same upgrade
  is accepted again and takes the tool's own script for the customer's: its rollback has
  been interrupted after attaching the original disk.
- A cleanup can finish if and only if the install media is attached, a rollback if and only
  if in addition a boot disk is attached and the new disk exists. An upgrade that fails in
  the cleanup that it includes may have detached the install media, so that a rollback stops
  before its end, after it has restored the boot disk; such a run exists from every start.
- A preparation or a rollback that stops between its detach and its attach, and nothing
  else, leaves an instance without a boot disk.
- The fallback to standard disks, offered to every workflow, cannot make a preparation
  succeed: the name of the snapshot is taken when the disks are created.

**Daisy worker** (`cli_tools/common/utils/daisyutils`). `CancelProtocol` is the step system
of `Cancel`, the one-slot channel and its receivers. `DaisyWorker` is the retry loop with
its chain of hooks, `PDFallback` the hook that retries with standard disks and overwrites
disk types in place. With one attempt the reason of a cancellation always arrives, with
the check or with the listener. Once there is a second attempt, the listener left over from
the first one may take it. The cancellation itself is never missed, and no attempt starts
after it. Disks of beta instances are not
changed by the fallback.

**Publishing images** (`gce_image_publish/publish/publish.go`). `Ranking` and `Rollout` are
the round-robin schedule, `PublishPlan` the plans of a publication and of a rollback,
`PublishExecution` and `PublishRollback` the project during and after their execution. A
publication that skips creation can leave a family without an active image. A rollback finds
the image that was published if and only if there is a version and no `ObsoleteDate`.

**Identifiers** (`cli_tools/common/distro`, `cli_tools/common/utils/param`,
`cli_tools/common/utils/paramhelper`). `Releases` and `OsFlag` build, compare, print and
parse values of the `--os` flag; `Resources` and `NetworkResolver` those of networks and
subnetworks. `Text` has splitting, joining and decimal numerals, `Sequences` what lists
without repetitions need.

## Assumptions about the environment

- A bucket operation takes effect as a whole or fails and changes nothing; a failing upload
  may or may not have stored the object.
- The metadata items of an instance list every entry once, in some order; an update merges
  its entries atomically; a Daisy step takes effect or does not.
- A boot disk is attached as the first disk; device names and attached disks are unique;
  a disk attached without a device name gets its own name as one; fresh names with a
  random suffix are not in use. Disks and devices are identified by name.
- The licenses shown by an attachment are those of its disk, and a disk created from a
  snapshot has the licenses of the snapshot and those it is given.
- Setting an image ACTIVE removes its deprecation record; images are listed newest first
  and have different, non-empty names; zones have different names.
- The Compute API answers the same question the same way while a network is resolved.

## Model

| member | source | states |
|---|---|---|
| ObjectStore.Bucket.Compose | cli_tools/common/utils/storage/storage_object.go:69-84 | 1 to 32 existing sources are concatenated into the destination; otherwise an error and no change |
| ObjectStore.Bucket.CopyFrom | cli_tools/common/utils/storage/storage_object.go:86-89 | copies an existing object; otherwise an error and no change |
| ObjectStore.Bucket.Delete | cli_tools/common/utils/storage/storage_object.go:50-53 | removes an existing object; a missing one is an error |
| Chunking.CutsAreFaithful | cli_tools/common/utils/storage/buffered_writer.go:220-246 | for every chunk size and sequence of writes: the parts in order hold exactly the writes, whole and in order; every part but the last was closed only because the write that opens the next one did not fit; a part with two or more writes is smaller than a chunk |
| Chunking.OversizedFirstWrite | cli_tools/common/utils/storage/buffered_writer.go:226-239 | a first write that fills a chunk alone is preceded by an empty part |
| BufferedWriter.BufferedWriter.constructor | cli_tools/common/utils/storage/buffered_writer.go:69-89 | a new writer has no file and no part; its chunk size is the buffer size divided among the workers |
| BufferedWriter.BufferedWriter.NewChunk | cli_tools/common/utils/storage/buffered_writer.go:149-161 | opens an empty file named after the part counter, resets the byte counter and counts the part; on failure nothing changes |
| BufferedWriter.BufferedWriter.Flush | cli_tools/common/utils/storage/buffered_writer.go:163-170 | a part is handed over if and only if closing its file succeeds; a closed file cannot be flushed again |
| BufferedWriter.BufferedWriter.Write | cli_tools/common/utils/storage/buffered_writer.go:220-246 | fails exactly when there is no file with room, be it that the first file, the close or the next file fails, or when the write is short; on success the stream grows by all of `d`, in one part; on failure by nothing or by the piece written; after a failed flush or reopening every later call fails |
| BufferedWriter.BufferedWriter.ComposeWindow | cli_tools/common/utils/storage/buffered_writer.go:186-214 | one round replaces the first names, 32 at most, by one new object holding their bytes, and deletes them; a failing round leaves all bytes of distinct names readable; whatever the names, no stored piece is lost |
| BufferedWriter.BufferedWriter.ComposeParts | cli_tools/common/utils/storage/buffered_writer.go:185-216 | terminates; without an outage succeeds exactly on a non-empty list of distinct stored names, after ⌈(n−1)/31⌉ compositions, with the object holding their concatenation and no temporary object left; on failure the bytes of distinct names are still readable, and with any names every stored piece is contained in some object |
| BufferedWriter.BufferedWriter.RunWorkers | cli_tools/common/utils/storage/buffered_writer.go:97-147 | carries out an interleaving of the workers attempt by attempt; the bucket then holds exactly the parts stored so far, with their contents, and the names are those recorded so far, in that order |
| BufferedWriter.BufferedWriter.Wait | cli_tools/common/utils/storage/buffered_writer.go:173-178 | when the wait returns, the bucket holds every part, as follows from the steps of the workers |
| PartObjects.AllPartsStored | cli_tools/common/utils/storage/buffered_writer.go:97-147 | a bucket in which every part has been stored is the uploaded one and no other |
| BufferedWriter.BufferedWriter.ComposeUpload | cli_tools/common/utils/storage/buffered_writer.go:178-217 | after the flush: succeeds exactly without client failure, outage and late upload failure, and then leaves the recorded parts as one object and nothing else of the upload; loses no part in any case |
| BufferedWriter.BufferedWriter.Close | cli_tools/common/utils/storage/buffered_writer.go:173-217 | succeeds exactly if the file is open and neither file, client, bucket nor a late upload attempt has failed; the object then holds the parts in recorded order, all temporary objects are gone, and with one worker or commuting parts it is the concatenation of everything written; after any failure that follows the wait, late upload failures included, every part is contained in some object of the bucket, and without a late failure all of them can be read in recorded order; if the flush fails, the bucket is left with exactly the earlier parts that the workers have stored in a run cut off anywhere |
| ComposeRound.NamesDiffer | cli_tools/common/utils/storage/buffered_writer.go:114 | part names, names of compositions and the final name are all different |
| ComposeRound.RoundKeepsBytes | cli_tools/common/utils/storage/buffered_writer.go:202-213 | a round on distinct stored names keeps them so, never overwrites a live source, and keeps the concatenation of their contents, before and after the deletions |
| ComposeRound.RoundKeepsDamage | cli_tools/common/utils/storage/buffered_writer.go:202-213 | a repeated or missing name stays one through a round that succeeds, so the loop cannot succeed on it |
| ComposeRound.RoundKeepsPieces | cli_tools/common/utils/storage/buffered_writer.go:202-213 | repeated and missing names or not: after a composition, and while its sources are deleted, every piece that a stored object of the list contained is in the new object or in one still listed |
| ComposeRound.ProgressRound | cli_tools/common/utils/storage/buffered_writer.go:186-214 | each round brings the loop one composition nearer to its end, and keeps the bytes of the live names and everything else in the bucket |
| ComposeRound.ProgressEnds | cli_tools/common/utils/storage/buffered_writer.go:193-201 | with one name left, copying and deleting gives the final bucket |
| PartObjects.UploadedParts | cli_tools/common/utils/storage/buffered_writer.go:97-147 | after the wait the loop meets no name of its own, the parts can be read in recorded order, and the names are distinct exactly if no attempt failed after recording one |
| PartObjects.EveryPartIsAlive | cli_tools/common/utils/storage/buffered_writer.go:97-147 | after the wait every part is stored under a recorded name |
| PartObjects.EraseUploaded | cli_tools/common/utils/storage/buffered_writer.go:208-213 | erasing the uploaded parts, in whatever order they were recorded, leaves the bucket as before the upload |
| PartObjects.PartsHoldTheWrites | cli_tools/common/utils/storage/buffered_writer.go:163-170 | the part files in order hold the writes in order |
| UploadProtocol.PartsAreNeverLostOrDoubled | cli_tools/common/utils/storage/buffered_writer.go:97-147 | in every reachable state each part is in exactly one place: waiting, held by one worker, or finished; none has more than 17 failed attempts, and the 17th stops the process |
| UploadProtocol.WaitedRun | cli_tools/common/utils/storage/buffered_writer.go:91-147 | when the wait returns every part is stored, and its name is recorded once plus once per attempt that failed after recording it |
| UploadProtocol.RunsEndStoppedOrWaited | cli_tools/common/utils/storage/buffered_writer.go:97-147 | no endless retrying and no deadlock: a run has at most 36n + W + 1 steps and can be continued unless the process has stopped or the wait has returned |
| UploadProducer.SameRunsOfWorkers | cli_tools/common/utils/storage/buffered_writer.go:163-171 | a run of the workers is possible beside a producer that offers one part at a time and closes the channel at the end if and only if it is possible with all parts offered from the start |
| UploadProducer.FlushedPartsAreNeverLost | cli_tools/common/utils/storage/buffered_writer.go:97-171 | in every reachable state of producer and workers, a flushed part is on the channel, held by one worker, or finished, and in one of these places only; an unflushed one is in none |
| UploadProducer.NoDeadlock | cli_tools/common/utils/storage/buffered_writer.go:97-178 | producer and workers never wait for each other for ever |
| UploadOrder.SingleWorkerRun | cli_tools/common/utils/storage/buffered_writer.go:97-115 | a single worker records the names in part order as long as no attempt fails late |
| UploadOrder.AnyOrderOfCommutingParts | cli_tools/common/utils/storage/buffered_writer.go:91-95 | if all parts commute, every permutation of them concatenates to the same bytes |
| UploadOrder.OvertakingRun | cli_tools/common/utils/storage/buffered_writer.go:97-115 | with two or more workers, any part can be recorded after any later part in a run without failures |
| UploadOrder.LateFailureIsPossible | cli_tools/common/utils/storage/buffered_writer.go:104-124 | with any number of parts and workers, each part can have a late failure in a run whose wait returns, so that `Close` fails |
| UploadOrder.OrderIsGuaranteedExactlyWhen | cli_tools/common/utils/storage/buffered_writer.go:91-147 | every run without a late failure reproduces the stream if and only if there is one worker or all parts commute |
| Instance.ApplyAllConcat | gce_windows_upgrade/upgrader/workflows.go:586-612 | steps in a row take effect as the first ones followed by the others |
| Instance.TraceLength | gce_windows_upgrade/upgrader/workflows.go:482-491 | an attempt never performs more steps than the workflow has, and all of them exactly if it is as long |
| Instance.ChainTrace | gce_windows_upgrade/upgrader/workflows.go:46-213 | dependencies that form a chain leave no choice of order: an interrupted attempt has performed a prefix |
| UpgradeWorkflows.Workflow.NewStep | cli_tools/common/utils/daisyutils/daisy_utils.go:395-406 | adds one step with its dependencies |
| UpgradeWorkflows.Workflow.PopulatePrepareSteps | gce_windows_upgrade/upgrader/workflows.go:46-213 | threading the conditional backups gives one chain of steps |
| UpgradeWorkflows.Workflow.PopulateRollbackSteps | gce_windows_upgrade/upgrader/workflows.go:502-576 | a chain of five steps followed by the two deletions |
| UpgradeWorkflows.PrepareIsAChain | gce_windows_upgrade/upgrader/workflows.go:46-213 | every attempt at the preparation performs a prefix of its steps, in order |
| UpgradeWorkflows.RollbackTrace | gce_windows_upgrade/upgrader/workflows.go:502-576 | every attempt at a rollback performs a prefix of its chain, and after it the deletions in any order |
| UpgradeSafety.StepIsSafe | gce_windows_upgrade/upgrader/workflows.go:46-576 | every step of every phase, in any order, keeps: all disks but the two of the run exist unchanged, the data disks are attached as they were, and the boot disk is the original, its upgraded copy or none |
| UpgradeSafety.PhasesAreAllowed | gce_windows_upgrade/upgrader/workflows.go:46-576 | no phase deletes a disk or attaches one other than those of the run |
| UpgradeRollback.PrepareResult | gce_windows_upgrade/upgrader/workflows.go:46-213 | a preparation can always run to its end, and this is the state it reaches |
| UpgradeRollback.RollbackCompletesExactlyWhen | gce_windows_upgrade/upgrader/workflows.go:502-576 | from any state of a run, a rollback can run to its end if and only if a boot disk and the install media are attached and the new disk exists |
| UpgradeRollback.CompleteRollbackRestores | gce_windows_upgrade/upgrader/workflows.go:502-576 | a complete rollback, from any state of the run, restores all attachments with their settings, all disks and the script URL, and removes both disks of the run |
| UpgradeRollback.InterruptedRollbackBootsOriginal | gce_windows_upgrade/upgrader/workflows.go:529-576 | a rollback cut off anywhere after attaching the old disk leaves the original boot attachment and the data disks |
| StartupScript.SearchReadsTheMap | gce_windows_upgrade/upgrader/validators.go:187-194 | the search returns the value of the key, and counts an empty or missing value as absent, in whatever order the items come |
| StartupScript.AttemptKeepsScript | gce_windows_upgrade/upgrader/workflows.go:180-212 | whatever part of whatever phase takes effect, a non-empty original script URL can be derived again |
| StartupScript.ScriptIsNeverLost | gce_windows_upgrade/upgrader/validators.go:160-194 | across any sequence of interrupted runs a script URL is never lost: the backup reads it, or the backup reads as absent and the URL reads it; every run derives it as the original |
| StartupScript.PreparationKeepsOriginalExactlyWhen | gce_windows_upgrade/upgrader/workflows.go:180-212 | a completed preparation leaves the original derivable if and only if there was one; with none, the tool's own script is derived |
| UpgradeFailures.ScriptIsMistakenExactlyWhen | gce_windows_upgrade/upgrader/validators.go:141-185 | from any start that is accepted, a run exists after which the same upgrade is accepted again and derives another original script URL, if and only if there was none |
| Licenses.ValidateLicense | gce_windows_upgrade/upgrader/validators.go:213-233 | despite the else branch: accepts exactly if some license ends with an expected one and none with the one to add |
| Licenses.NotBoth | gce_windows_upgrade/upgrader/upgrade_paths.go:37-49 | on a supported path no license ends both with an expected license and with the one to add |
| Licenses.UpgradedDiskIsRefused | gce_windows_upgrade/upgrader/workflows.go:100-114 | a disk made by the preparation always ends up with the license that makes the same upgrade refuse it |
| Licenses.UpgradesChain | gce_windows_upgrade/upgrader/upgrade_paths.go:37-105 | after A to B the disk has a license expected for every supported B to C, and C's license exactly if it had it before |
| Validation.ValidateAndDeriveInstance | gce_windows_upgrade/upgrader/validators.go:141-211 | accepts exactly the instances whose first disk boots, can be read and has the right licenses; what it derives satisfies everything the proofs about runs require of a start |
| Validation.DeriveScriptUrl | gce_windows_upgrade/upgrader/validators.go:174-181 | searching the items for the backup and then for the URL gives what the metadata reads as |
| Validation.PreparedInstanceIsRefused | gce_windows_upgrade/upgrader/validators.go:213-233 | an instance after a complete preparation is refused for the same upgrade |
| Upgrader.Upgrader.RunPhase | gce_windows_upgrade/upgrader/workflows.go:586-612 | a phase ends in any state that one attempt, or two, can leave, and without an error only after a complete one |
| Upgrader.Upgrader.RunMainPhases | gce_windows_upgrade/upgrader/upgrader.go:172-199 | the phases form a prefix of prepare, upgrade, reboot, retry, each one called for by the one before; the error is that of the last; a retry for a target without retry steps crashes |
| Upgrader.Upgrader.RunUpgradeWorkflow | gce_windows_upgrade/upgrader/upgrader.go:164-200 | the phases, then nothing after success or exactly one of rollback and cleanup after a failure; the returned error is that of the last phase whatever the reaction does |
| Upgrader.Upgrader.HandleResult | gce_windows_upgrade/upgrader/upgrader.go:202-245 | rollback exactly if it is asked for and the instance is seen to boot from the new disk; otherwise cleanup |
| UpgradeOutcomes.RunsAreSafe | gce_windows_upgrade/upgrader/upgrader.go:164-245 | in every state of every run, whatever fails: the customer's disks exist unchanged, only the two disks of the run are ever deleted, and the instance boots from the original disk, its upgraded copy or none |
| UpgradeOutcomes.AttemptPrefix | gce_windows_upgrade/upgrader/workflows.go:586-612 | every state in the middle of an attempt is the end of a shorter one, so what holds after attempts holds at every moment |
| UpgradeOutcomes.RunKeepsScript | gce_windows_upgrade/upgrader/upgrader.go:164-245 | after every run that found a script URL the next run finds the same one |
| UpgradeOutcomes.SuccessfulRollbackUndoesTheRun | gce_windows_upgrade/upgrader/upgrader.go:215-231 | a run whose rollback reports success ends with the attachments, the disks and the script URL of its start |
| UpgradeOutcomes.PreparationCannotBeRetried | cli_tools/common/utils/daisyutils/workflow_hook_fallback_pd.go:33-51 | a second attempt at a preparation whose first one has made the snapshot never succeeds |
| UpgradeOutcomes.CleanupWaitsForTheSignal | gce_windows_upgrade/upgrader/workflows.go:272-282 | until the upgrade has signalled success, an upgrade attempt changes no attachment, disk or metadata |
| UpgradeOutcomes.CompletePreparation | gce_windows_upgrade/upgrader/workflows.go:46-213 | a complete preparation, from any state of the run, boots from the new disk with the install media attached |
| UpgradeOutcomes.UpgradedAfter | gce_windows_upgrade/upgrader/upgrader.go:172-199 | after a successful preparation every main phase leaves the upgraded disk booted, and a successful upgrade or retry has cleaned up |
| UpgradeOutcomes.SuccessfulRun | gce_windows_upgrade/upgrader/upgrader.go:164-213 | a run without error and crash: the upgraded disk boots with the original settings, data disks as before, install media gone, script URL restored, no other disk new, and the instance stopped |
| UpgradeOutcomes.StopComesLast | gce_windows_upgrade/upgrader/workflows.go:272-282 | in a complete upgrade or retry no start follows the stop of the included cleanup |
| UpgradeOutcomes.CleanupCompletesExactlyWhen | gce_windows_upgrade/upgrader/workflows.go:453-492 | from any state of a run a cleanup can run to its end if and only if the install media is attached; complete, in any order its one dependency allows, it leaves the boot disk and the data disks attached as they were, no install media, the script URL restored and the instance stopped |
| UpgradeOutcomes.RebootRestarts | gce_windows_upgrade/upgrader/workflows.go:426-443 | a complete reboot ends with the instance running and changes nothing else |
| UpgradeFailures.CrashIsPossibleExactlyWhen | gce_windows_upgrade/upgrader/workflows.go:28-36 | from any start, a run that crashes on a missing retry exists if and only if the target has no retry steps; the run found fails after the start with a line that all upgrades look for and that contains the text calling for a reboot |
| UpgradeFailures.UpgradeCanBeUndoneExactlyWhen | gce_windows_upgrade/upgrader/workflows.go:502-576 | after an attempt at the upgrade or its retry, a rollback can run to its end if and only if the included cleanup has not detached the install media |
| UpgradeFailures.RollbackCanBeBlocked | gce_windows_upgrade/upgrader/upgrader.go:215-231 | from any start there is a run whose upgrade fails in its cleanup, for which a rollback is chosen that cannot finish |
| UpgradeFailures.BootDiskIsMissingExactlyWhen | gce_windows_upgrade/upgrader/utils.go:122-129 | an attempt at a phase on an instance with a boot disk leaves it without one if and only if it is a preparation or a rollback that stops between its detach and its attach |
| CancelProtocol.StepInv | cli_tools/common/utils/daisyutils/daisy_worker.go:195-205 | the invariant of the once and the channel: one caller inside at most, and the channel's state tells how far it got; no step crashes |
| CancelProtocol.CancelIsSafe | cli_tools/common/utils/daisyutils/daisy_worker.go:195-205 | for any number of callers and receivers: at most one send and one close, exactly one of each once a call has returned, no send blocks, none follows the close, and at most one receiver gets the reason |
| CancelProtocol.ReturnedCancelIsSeen | cli_tools/common/utils/daisyutils/daisy_worker.go:117-139 | once any call has returned, every later check reports the cancellation and every listener can be woken |
| CancelProtocol.CallersAlwaysProgress | cli_tools/common/utils/daisyutils/daisy_worker.go:195-205 | while a call is under way some caller can move |
| CancelProtocol.ReasonArrivesExactlyWhen | cli_tools/common/utils/daisyutils/daisy_worker.go:97-139 | for a worker that checks before each attempt and listens during it: in all runs with at most n attempts every check that reports the channel and every listener that it wakes is told the reason, if and only if n is at most one |
| CancelProtocol.StaleListenerTakesTheReason | cli_tools/common/utils/daisyutils/daisy_utils.go:370-393 | for any callers a run in which a listener left over from the first attempt takes the reason and the running workflow is cancelled without it |
| PDFallback.UseStandardDisks | cli_tools/common/utils/daisyutils/workflow_hook_fallback_pd.go:53-70 | at any nesting of included workflows all created disks become standard in place and no other object changes; so all are standard exactly if those only beta instances create are |
| PDFallback.FallbackToPDStandard.PreRunHook | cli_tools/common/utils/daisyutils/workflow_hook_fallback_pd.go:33-38 | standard disks if a quota error was seen, no change otherwise |
| PDFallback.FallbackToPDStandard.PostRunHook | cli_tools/common/utils/daisyutils/workflow_hook_fallback_pd.go:40-51 | the error is passed on; a retry is asked for on the first quota error |
| PDFallback.RetryIsRequestedOnce | cli_tools/common/utils/daisyutils/workflow_hook_fallback_pd.go:40-51 | over any sequence of calls exactly the first one with a quota error asks for a retry |
| DaisyWorker.RetryMeansFallback | cli_tools/common/utils/daisyutils/daisy_worker.go:163-171 | if no other hook asks for a retry, the chain asks for one exactly if the fallback has just seen its first quota error |
| DaisyWorker.DaisyWorker.RunOnce | cli_tools/common/utils/daisyutils/daisy_worker.go:141-173 | a failing hook stops the attempt before it runs; otherwise the workflow is run, with standard disks after a quota error, and its error goes through the chain of hooks |
| DaisyWorker.DaisyWorker.Run | cli_tools/common/utils/daisyutils/daisy_worker.go:97-115 | at most two workflows are run; the second only after an error with a retry and no cancellation; if the fallback saw a quota error it has standard disks only, beta instances aside |
| DaisyWorker.DaisyWorker.CheckIfCancelled | cli_tools/common/utils/daisyutils/daisy_worker.go:117-139 | reports a cancellation exactly if a channel is ready, with the reason if it is still there to take |
| DaisyWorker.NoAttemptStartsAfterCancel | cli_tools/common/utils/daisyutils/daisy_worker.go:97-139 | once any call of Cancel has returned, in whatever state the protocol goes on to, no attempt runs its hooks or its workflow, and the error is the cancellation |
| DaisyWorker.SecondRunIsAFallback | cli_tools/common/utils/daisyutils/daisy_worker.go:97-115 | with no other hook that retries, a second run is always a fallback and asks for no third |
| Ranking.SortStringsSorts | gce_image_publish/publish/publish.go:815-818 | sorting orders the names and keeps each of them, as often as it occurs |
| Ranking.SortedAtRank | gce_image_publish/publish/publish.go:815-829 | the zone at a position of its sorted region is the one with that rank |
| Rollout.GroupByRegion | gce_image_publish/publish/publish.go:803-813 | the zones of every region in their original order, and a bound on the size of the largest |
| Rollout.TakeTurn | gce_image_publish/publish/publish.go:823-830 | one turn of one region keeps the list a partial round robin |
| Rollout.FinishedListIsRoundRobin | gce_image_publish/publish/publish.go:820-830 | the finished list has every zone once, ordered by rank within its region |
| Rollout.CreateRollOut | gce_image_publish/publish/publish.go:800-845 | for any order of the regions, chosen anew in each round: every zone gets exactly one slot, the slots are start + rate·k with k a bijection, zones of lower rank come first, and the default is the last slot |
| Rollout.AssignSlots | gce_image_publish/publish/publish.go:832-844 | the zone in place k gets slot k; nothing else gets one |
| Rollout.DefaultIsLatest | gce_image_publish/publish/publish.go:839-841 | with a zone and a rate that is not negative, the default time is the latest slot |
| Rollout.RoundsAreKeptApart | gce_image_publish/publish/publish.go:820-837 | at a positive rate slots differ, and a zone precedes every zone of higher rank in every region |
| PublishPlan.PublishImage | gce_image_publish/publish/publish.go:410-532 | refused exactly for conflicting options, no source or two, or a taken name; otherwise creates unless skipped, and deletes and deprecates exactly the images it should, none twice |
| PublishPlan.PlanIsAPartition | gce_image_publish/publish/publish.go:474-531 | the published name is spared, nothing is both deleted and deprecated, only the family is touched, and every other image of a non-empty family is deleted, deprecated, marked already, or has an unparsable time under an expiry |
| PublishPlan.RollbackImage | gce_image_publish/publish/publish.go:534-587 | a plan exactly if some image has the name to roll back and no deprecation record; it marks that image and activates the first image of the family with a record |
| PublishPlan.RollbackNamesDiffer | gce_image_publish/publish/publish.go:534-587 | a rollback never activates the image it marks and never activates without marking |
| PublishExecution.PopulateSteps | gce_image_publish/publish/publish.go:589-637 | of the steps that exist, creation precedes deprecation and deprecation deletion |
| PublishExecution.OrderedByDependencies | gce_image_publish/publish/publish.go:589-637 | the order that executions keep is exactly the one that the populated dependencies ask for |
| PublishExecution.PublishingKeepsFamilyUsable | gce_image_publish/publish/publish.go:589-637 | publishing a new image: at every moment of every execution a usable family stays usable, and nothing happens before the creation |
| PublishExecution.ReplacingKeepsFamilyUsableExactlyWhen | gce_image_publish/publish/publish.go:476-487 | if a replaced image is removed before the new one is created, a usable family stays usable at every moment if and only if another active image is in it |
| PublishExecution.SkippedPublicationUsableExactlyWhen | gce_image_publish/publish/publish.go:476-484 | a complete publication that skips creation leaves the family usable exactly if an active image of it is spared |
| PublishExecution.SkippedPublicationCanStrandFamily | gce_image_publish/publish/publish.go:476-484 | a family with one active image that such a publication leaves without any |
| PublishRollback.AfterPublication | gce_image_publish/publish/publish.go:410-532 | the project after a complete publication: the new image and the old ones, those of the family deprecated |
| PublishRollback.AfterRollback | gce_image_publish/publish/publish.go:534-587 | the project after a complete rollback: the image marked, and the first old image of the family with a record activated |
| PublishRollback.RollbackRestoresExactlyWhen | gce_image_publish/publish/publish.go:534-587 | publishing and rolling back gives the old project plus the marked image if and only if exactly the newest image of the family was without a deprecation record |
| PublishRollback.RollbackFindsExactlyWhen | gce_image_publish/publish/publish.go:534-587 | after any publication that has created or replaced its image, whatever else it did: a rollback of it finds an image to mark if and only if the version is not empty and there is no obsolete date |
| Text.SplitJoin | cli_tools/common/utils/paramhelper/subnet.go:45-68 | splitting inverts joining when no part has the separator |
| Text.JoinSplit | cli_tools/common/utils/paramhelper/subnet.go:45-68 | joining inverts splitting, and no part of a split has the separator |
| Text.DecValDec | cli_tools/common/distro/distro.go:247-249 | reading a printed number gives the number |
| Text.AtoiDec | cli_tools/common/distro/distro.go:152-156 | Atoi accepts exactly the printed numbers that fit 64 bits, and returns them |
| Releases.BuiltReleasesAreValid | cli_tools/common/distro/distro.go:98-113 | every release that can be built has the fields the printer and the round trip rely on |
| Releases.CompatibilityIsAnEquivalence | cli_tools/common/distro/distro.go:251-427 | compatibility is an equivalence over all kinds together, with the special case of r2, and compatible releases print the same |
| OsFlag.ParserAcceptsThePattern | cli_tools/common/distro/distro.go:44-55 | the matcher accepts exactly the strings of the pattern and returns one of its readings |
| OsFlag.OneReading | cli_tools/common/distro/distro.go:44-55 | on a value whose version starts with a digit, the matcher returns that reading |
| OsFlag.NoOtherReading | cli_tools/common/distro/distro.go:44-55 | on such a value the pattern has no other reading |
| OsFlag.UbuntuRoundTrip | cli_tools/common/distro/distro.go:206-235 | a printed Ubuntu release parses exactly for majors 10 to 99, and gives the release back |
| OsFlag.WindowsRoundTrip | cli_tools/common/distro/distro.go:301-313 | a printed Windows release parses to its version, the edition if it is r2, and the architecture if it was printed |
| OsFlag.RoundTripExactlyWhen | cli_tools/common/distro/distro.go:206-235 | for every release that can be built: printing and parsing gives a compatible release if and only if the flag can express it |
| OsFlag.SameValueExactlyWhenCompatible | cli_tools/common/distro/distro.go:290-313 | of expressible releases, printed values are equal exactly if the releases are compatible |
| Resources.SplitSubnetResource | cli_tools/common/utils/paramhelper/subnet.go:45-68 | taking parts off from the left accepts exactly the four forms of an identifier, and no others |
| Resources.PrefixIsCutOff | cli_tools/common/utils/paramhelper/resources.go:33-40 | after any accepted prefix only the rest decides |
| Resources.NetworkRoundTripExactlyWhen | cli_tools/common/utils/paramhelper/network.go:36-62 | a printed network splits into the same fields exactly if they have no slash and no project lacks a name |
| Resources.SubnetRoundTripExactlyWhen | cli_tools/common/utils/paramhelper/subnet.go:29-68 | the same for subnetworks; without a region the project is not printed |
| NetworkResolver.ParseNetworkAndSubnet | cli_tools/common/utils/param/network_resolver.go:98-129 | filling in fields one by one gives both resources with every missing project and region, or the default network if nothing is named |
| NetworkResolver.ParsedIsCompleteExactlyWhen | cli_tools/common/utils/param/network_resolver.go:98-129 | for any project and region: every resource ends up with a non-empty project and region without slashes if and only if those to be filled in are such, as far as any was left out |
| NetworkResolver.ResolveIsIdempotentExactlyWhen | cli_tools/common/utils/param/network_resolver.go:58-129 | for any project, region and backend: resolving the results of a successful resolution gives the same results if and only if their projects and regions have no slash and a subnetwork left without a region is found by its name |
| NetworkResolver.SlashedProjectIsNotResolvedAgain | cli_tools/common/utils/param/network_resolver.go:58-129 | for every project with a slash a backend on which a successful resolution cannot be resolved again |
| NetworkResolver.ResolveIsIdempotent | cli_tools/common/utils/param/network_resolver.go:58-129 | so it is idempotent for every project and region on a backend that has only non-empty projects and regions without slashes, and on every backend if what is filled in is such |

## Left out

- Upgrader.Upgrader.RunPhase: the Daisy engine is any legal outcome of a workflow; validation of workflows, timeouts, and the engine's own cleanup after a failure are not modelled.
- UpgradeWorkflows.Workflow.PopulateRollbackSteps: the last step deletes two disks side by side; each deletion is a step here, so that a half-finished step is covered, but a step that reports an error after deleting both is not told apart.
- NetworkResolver.ResolveIsIdempotent: the client is a fixed map; errors of its calls are not told apart.
- Rollout.CreateRollOut: times are unbounded integers in minutes; formatting and the overflow of `time.Duration` are not modelled.
- BufferedWriter.BufferedWriter.Write: the byte counter is an unbounded integer; the lock is not modelled, calls of `Write` and `Close` come one after the other.
- BufferedWriter.BufferedWriter.RunWorkers: takes the interleaving as an argument and carries it out in `Close`, while the workers run beside the writer. So `Write` is shown without what they upload meanwhile; it looks at nothing they change, and `Close` states what has become of it, whether it succeeds or not.
- PublishRollback.RollbackRestoresExactlyWhen: replacement links and rollout overrides in deprecation records are not modelled.
- Upgrade, cleanup and reboot workflows are functions from the variables to the steps: the code assigns each as one literal, and those of all target versions differ only in the texts they wait for.
- The upgrade path table: its entries are functions of source and target instead of a table filled in at start.
- Object and file names: `path.Join` also cleans paths; names here are plain concatenations.
- Letter case: lower-casing covers ASCII letters only.
- Real files, clocks, sleeping, signals, process exit and logging: a part file is a byte sequence, a delay is nothing, and an exit is a final state.
- The hooks for labels, external IP addresses, logging and variables: of a hook only its answer to an error is known.
- Source URIs, licenses, labels and guest features of a published image; the print-outs; the choice of images to publish.
- Windows NT versions, the printing of intermediate help texts, flag parsing and confirmation prompts.
- The Compute, Storage and OAuth clients, gzip, tar and qemu-img, and the image build scripts.
