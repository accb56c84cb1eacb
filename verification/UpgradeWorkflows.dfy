/** The workflows of the Windows in-place upgrade. */
module UpgradeWorkflows {
  import opened Text
  import opened Instance
  import opened Sequences

  const SCRIPT_URL := "windows-startup-script-url"
  const SCRIPT_URL_BACKUP := "windows-startup-script-url-backup"
  const UPGRADE_SCRIPT := "${SOURCESPATH}/upgrade_script.ps1"

  /** What the workflows use of the input and of the derived variables of a run. */
  datatype Vars = Vars(
    osDisk: string,
    device: string,
    autoDelete: bool,
    newOSDisk: string,
    installDisk: string,
    snapshot: string,
    machineImage: string,
    createMachineBackup: bool,
    originalUrl: Option<string>,
    licenseToAdd: string,
    currentVersion: string,
    newVersion: string,
    installFolder: string
  )

  datatype Version = Windows2008r2 | Windows2012r2 | Windows2016 | Windows2019 | Windows2022

  function OriginalUrl(u: Vars): string {
    if u.originalUrl.Some? then u.originalUrl.value else ""
  }

  function OldBoot(u: Vars): Attachment {
    Attachment(u.osDisk, u.device, u.autoDelete, true)
  }

  function NewBoot(u: Vars): Attachment {
    Attachment(u.newOSDisk, u.device, u.autoDelete, true)
  }

  /** Attached without a device name, the disk's name serves as one. */
  function InstallMedia(u: Vars): Attachment {
    Attachment(u.installDisk, u.installDisk, true, false)
  }

  function SetScript(u: Vars): Op {
    UpdateMetadata(map[SCRIPT_URL := UPGRADE_SCRIPT,
                       "expected-current-version" := u.currentVersion,
                       "expected-new-version" := u.newVersion,
                       "install-folder" := u.installFolder])
  }

  function BackupScript(url: string): Op {
    UpdateMetadata(map[SCRIPT_URL_BACKUP := url])
  }

  function RestoreScript(u: Vars): Op {
    UpdateMetadata(map[SCRIPT_URL := OriginalUrl(u), SCRIPT_URL_BACKUP := ""])
  }

  /* The order of the steps in the two workflows that are chains. */

  function PrepareHead(u: Vars): seq<Op> {
    [StopInstance] + if u.createMachineBackup then [CreateMachineImage(u.machineImage)] else []
  }

  function PrepareDisks(u: Vars): seq<Op> {
    [ CreateSnapshot(u.snapshot, u.osDisk),
      CreateDiskFromSnapshot(u.newOSDisk, u.snapshot, [u.licenseToAdd]),
      DetachDisk(u.device),
      AttachDisk(NewBoot(u)),
      CreateDiskFromImage(u.installDisk),
      AttachDisk(InstallMedia(u)) ]
  }

  function PrepareScript(u: Vars): seq<Op> {
    (if u.originalUrl.Some? then [BackupScript(u.originalUrl.value)] else []) + [SetScript(u)]
  }

  function PrepareOps(u: Vars): seq<Op> {
    PrepareHead(u) + PrepareDisks(u) + PrepareScript(u)
  }

  function RollbackOps(u: Vars): seq<Op> {
    [ StopInstance,
      DetachDisk(u.device),
      AttachDisk(OldBoot(u)),
      DetachDisk(u.installDisk),
      RestoreScript(u) ]
  }

  function Chain(ops: seq<Op>): Steps {
    seq(|ops|, i requires 0 <= i < |ops| => Step(ops[i], if i == 0 then {} else {i - 1}))
  }

  /** A workflow under construction. */
  class Workflow {
    var steps: Steps

    constructor ()
      ensures steps == []
    {
      steps := [];
    }

    /** Adds a step with its dependencies and returns its handle. */
    method NewStep(op: Op, deps: set<nat>) returns (step: nat)
      modifies this
      ensures step == |old(steps)| && steps == old(steps) + [Step(op, deps)]
    {
      step := |steps|;
      steps := steps + [Step(op, deps)];
    }

    /** Adds a step that depends on the last step of a chain and so extends the chain. */
    method Extend(op: Op, prevStep: nat, ghost ops: seq<Op>) returns (step: nat)
      requires steps == Chain(ops) && |ops| == prevStep + 1
      modifies this
      ensures step == |ops| && steps == Chain(ops + [op])
    {
      step := NewStep(op, {prevStep});
      assert Chain(ops + [op]) == Chain(ops) + [Step(op, {prevStep})];
    }

    /** The conditional backups are threaded into the chain. */
    method PopulatePrepareSteps(u: Vars)
      requires steps == []
      modifies this
      ensures steps == Chain(PrepareOps(u))
    {
      var prevStep := NewStep(StopInstance, {});
      if u.createMachineBackup {
        prevStep := Extend(CreateMachineImage(u.machineImage), prevStep, [StopInstance]);
      }
      assert PrepareHead(u) ==
        if u.createMachineBackup then [StopInstance] + [CreateMachineImage(u.machineImage)] else [StopInstance];
      prevStep := PopulateDiskSteps(u, prevStep, PrepareHead(u));
      ghost var ops := PrepareHead(u) + PrepareDisks(u);
      if u.originalUrl.Some? {
        prevStep := Extend(BackupScript(u.originalUrl.value), prevStep, ops);
        ops := ops + [BackupScript(u.originalUrl.value)];
      }
      prevStep := Extend(SetScript(u), prevStep, ops);
      assert ops + [SetScript(u)] == PrepareOps(u);
    }

    method PopulateDiskSteps(u: Vars, prevStep: nat, ghost ops: seq<Op>) returns (step: nat)
      requires steps == Chain(ops) && |ops| == prevStep + 1
      modifies this
      ensures step == |ops| + 5 && steps == Chain(ops + PrepareDisks(u))
    {
      ghost var disks := PrepareDisks(u);
      step := Extend(CreateSnapshot(u.snapshot, u.osDisk), prevStep, ops);
      step := Extend(CreateDiskFromSnapshot(u.newOSDisk, u.snapshot, [u.licenseToAdd]), step, ops + [disks[0]]);
      step := Extend(DetachDisk(u.device), step, ops + [disks[0]] + [disks[1]]);
      step := Extend(AttachDisk(NewBoot(u)), step, ops + [disks[0]] + [disks[1]] + [disks[2]]);
      step := Extend(CreateDiskFromImage(u.installDisk), step, ops + [disks[0]] + [disks[1]] + [disks[2]] + [disks[3]]);
      step := Extend(AttachDisk(InstallMedia(u)), step,
                     ops + [disks[0]] + [disks[1]] + [disks[2]] + [disks[3]] + [disks[4]]);
      assert ops + disks == ops + [disks[0]] + [disks[1]] + [disks[2]] + [disks[3]] + [disks[4]] + [disks[5]];
    }

    /** The last step of the source deletes two disks side by side; here each deletion is a
        step, and both depend on the restored script. */
    method PopulateRollbackSteps(u: Vars)
      requires steps == []
      modifies this
      ensures steps == RollbackSteps(u)
    {
      var prevStep := NewStep(StopInstance, {});
      prevStep := NewStep(DetachDisk(u.device), {prevStep});
      prevStep := NewStep(AttachDisk(OldBoot(u)), {prevStep});
      prevStep := NewStep(DetachDisk(u.installDisk), {prevStep});
      var restored := NewStep(RestoreScript(u), {prevStep});
      var _ := NewStep(DeleteDisk(u.newOSDisk), {restored});
      var _ := NewStep(DeleteDisk(u.installDisk), {restored});
    }
  }

  function RollbackSteps(u: Vars): Steps {
    Chain(RollbackOps(u)) + [Step(DeleteDisk(u.newOSDisk), {4}), Step(DeleteDisk(u.installDisk), {4})]
  }

  /** The cleanup steps as they stand when included after the steps in `after`, `offset`
      steps into a workflow. */
  function IncludedCleanup(u: Vars, offset: nat, after: set<nat>): Steps {
    [ Step(RestoreScript(u), after),
      Step(DetachDisk(u.installDisk), after),
      Step(DeleteDisk(u.installDisk), after + {offset + 1}),
      Step(StopInstance, after) ]
  }

  function CleanupSteps(u: Vars): Steps {
    IncludedCleanup(u, 0, {})
  }

  /** Start the instance; then wait for the boot and for the upgrade; clean up after the
      upgrade. All target versions share this shape. */
  function UpgradeSteps(u: Vars): Steps {
    [Step(StartInstance, {}), Step(WaitForSignal, {0}), Step(WaitForSignal, {0})] + IncludedCleanup(u, 3, {2})
  }

  function RetryUpgradeSteps(u: Vars): Steps {
    [Step(WaitForSignal, {}), Step(WaitForSignal, {})] + IncludedCleanup(u, 2, {1})
  }

  function RebootSteps(): Steps {
    [Step(StopInstance, {}), Step(StartInstance, {0})]
  }

  datatype Phase = Prepare | Upgrade | Reboot | RetryUpgrade | Cleanup | Rollback

  function PhaseSteps(u: Vars, p: Phase): Steps {
    match p
    case Prepare => Chain(PrepareOps(u))
    case Upgrade => UpgradeSteps(u)
    case Reboot => RebootSteps()
    case RetryUpgrade => RetryUpgradeSteps(u)
    case Cleanup => CleanupSteps(u)
    case Rollback => RollbackSteps(u)
  }

  lemma PrepareIsAChain(u: Vars, trace: seq<nat>)
    requires Respects(PhaseSteps(u, Prepare), trace)
    ensures |trace| <= |PrepareOps(u)|
    ensures OpsOf(PhaseSteps(u, Prepare), trace) == PrepareOps(u)[..|trace|]
    ensures Complete(PhaseSteps(u, Prepare), trace) <==> |trace| == |PrepareOps(u)|
  {
    var steps, n := PhaseSteps(u, Prepare), |PrepareOps(u)|;
    assert StartsWithChain(steps, n);
    TraceLength(steps, trace);
    ChainTrace(steps, n, trace);
    assert trace == trace[..|trace|];
  }

  /** A rollback trace runs through the chain; after it, the deletions come in any order. */
  lemma RollbackTrace(u: Vars, trace: seq<nat>)
    requires Respects(PhaseSteps(u, Rollback), trace)
    ensures |trace| <= 7 && (Complete(PhaseSteps(u, Rollback), trace) <==> |trace| == 7)
    ensures |trace| <= 5 ==> trace == Upto(|trace|)
    ensures |trace| == 6 ==> trace == Upto(5) + [5] || trace == Upto(5) + [6]
    ensures |trace| == 7 ==> trace == Upto(5) + [5, 6] || trace == Upto(5) + [6, 5]
  {
    var steps := PhaseSteps(u, Rollback);
    assert StartsWithChain(steps, 5);
    TraceLength(steps, trace);
    ChainTrace(steps, 5, trace);
    if |trace| <= 5 {
      assert trace == trace[..|trace|];
    } else {
      assert trace == trace[..5] + trace[5..];
      assert 5 <= trace[5] <= 6;
    }
    if |trace| == 7 {
      assert 5 <= trace[6] <= 6;
    }
  }
}
