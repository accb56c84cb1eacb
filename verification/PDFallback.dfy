/** The hook that retries a workflow once with standard persistent disks. */
module PDFallback {
  import opened Text

  const PD_STANDARD := "pd-standard"
  const SSD_QUOTA := "SSD_TOTAL_GB"

  /** What a step says about a disk that it creates. */
  class Disk {
    var diskType: string

    constructor (diskType: string)
      ensures this.diskType == diskType
    {
      this.diskType := diskType;
    }
  }

  /** A disk of an instance: an existing one, or one that the instance creates. */
  datatype InstanceDisk = Existing | Initialized(params: Disk)

  datatype Instances = Instances(stable: seq<seq<InstanceDisk>>, beta: seq<seq<InstanceDisk>>)

  datatype Step = Step(createDisks: Option<seq<Disk>>, createInstances: Option<Instances>, included: Option<Workflow>)

  datatype Workflow = Workflow(steps: seq<Step>)

  function InstanceDisks(instances: seq<seq<InstanceDisk>>): set<Disk> {
    set disks, d | disks in instances && d in disks && d.Initialized? :: d.params
  }

  /** The disks that the step itself creates, with or without those of beta instances. */
  function OwnDisks(s: Step, beta: bool): set<Disk> {
    (if s.createDisks.Some? then set d | d in s.createDisks.value else {})
    + (if s.createInstances.Some? then InstanceDisks(s.createInstances.value.stable) else {})
    + (if s.createInstances.Some? && beta then InstanceDisks(s.createInstances.value.beta) else {})
  }

  /** The disks that the steps create, at any nesting of included workflows. */
  function DisksOf(steps: seq<Step>, beta: bool): set<Disk>
    decreases steps
  {
    if steps == [] then {} else StepDisks(steps[0], beta) + DisksOf(steps[1..], beta)
  }

  function StepDisks(s: Step, beta: bool): set<Disk>
    decreases s
  {
    OwnDisks(s, beta) + if s.included.Some? then DisksOf(s.included.value.steps, beta) else {}
  }

  lemma {:induction false} DisksOfMore(steps: seq<Step>, i: nat, beta: bool)
    requires i < |steps|
    ensures DisksOf(steps[..i + 1], beta) == DisksOf(steps[..i], beta) + StepDisks(steps[i], beta)
  {
    var a, b := steps[..i], steps[..i + 1];
    if i > 0 {
      DisksOfMore(steps[1..], i - 1, beta);
      assert a[1..] == steps[1..][..i - 1] && b[1..] == steps[1..][..i];
    } else {
      assert b[1..] == [];
    }
  }

  lemma {:induction false} DisksOfOne(steps: seq<Step>, i: nat, beta: bool)
    requires i < |steps|
    ensures StepDisks(steps[i], beta) <= DisksOf(steps, beta)
  {
    if i > 0 {
      DisksOfOne(steps[1..], i - 1, beta);
    }
  }

  lemma {:induction false} BetaIsMore(steps: seq<Step>)
    ensures DisksOf(steps, false) <= DisksOf(steps, true)
    decreases steps
  {
    if steps != [] {
      BetaIsMoreInStep(steps[0]);
      BetaIsMore(steps[1..]);
    }
  }

  lemma {:induction false} BetaIsMoreInStep(s: Step)
    ensures StepDisks(s, false) <= StepDisks(s, true)
    decreases s
  {
    if s.included.Some? {
      BetaIsMore(s.included.value.steps);
    }
  }

  /** A workflow that exists has disks that exist. */
  lemma {:induction false} DisksExist(steps: seq<Step>, beta: bool)
    ensures forall d | d in DisksOf(steps, beta) :: allocated(d)
    decreases steps
  {
    if steps != [] {
      StepDisksExist(steps[0], beta);
      DisksExist(steps[1..], beta);
    }
  }

  lemma {:induction false} StepDisksExist(s: Step, beta: bool)
    ensures forall d | d in StepDisks(s, beta) :: allocated(d)
    decreases s
  {
    if s.included.Some? {
      DisksExist(s.included.value.steps, beta);
    }
  }

  ghost predicate Standard(disks: set<Disk>)
    reads disks
  {
    forall d | d in disks :: d.diskType == PD_STANDARD
  }

  /** Overwrites the types of the disks of the steps, one step after the other, and descends
      into included workflows. Beta instances are not looked at. */
  method StandardizeSteps(steps: seq<Step>)
    modifies DisksOf(steps, false)
    ensures Standard(DisksOf(steps, false))
    decreases steps
  {
    for i := 0 to |steps|
      invariant Standard(DisksOf(steps[..i], false))
    {
      DisksOfMore(steps, i, false);
      DisksOfOne(steps, i, false);
      DisksExist(steps[..i], false);
      StandardizeStep(steps[i]);
    }
    assert steps[..|steps|] == steps;
  }

  method StandardizeStep(s: Step)
    modifies StepDisks(s, false)
    ensures Standard(StepDisks(s, false))
    decreases s
  {
    StepDisksExist(s, false);
    if s.included.Some? {
      StandardizeSteps(s.included.value.steps);
    }
    StandardizeOwn(s);
  }

  method StandardizeOwn(s: Step)
    modifies OwnDisks(s, false)
    ensures Standard(OwnDisks(s, false))
  {
    if s.createDisks.Some? {
      var disks := s.createDisks.value;
      for k := 0 to |disks|
        invariant forall d | d in disks[..k] :: d.diskType == PD_STANDARD
      {
        disks[k].diskType := PD_STANDARD;
      }
    }
    if s.createInstances.Some? {
      StandardizeInstances(s.createInstances.value.stable);
    }
  }

  method StandardizeInstances(instances: seq<seq<InstanceDisk>>)
    modifies InstanceDisks(instances)
    ensures Standard(InstanceDisks(instances))
  {
    for k := 0 to |instances|
      invariant Standard(InstanceDisks(instances[..k]))
    {
      StandardizeDisks(instances[k]);
      assert InstanceDisks(instances[..k + 1]) == InstanceDisks(instances[..k]) + Params(instances[k]);
    }
    assert instances[..|instances|] == instances;
  }

  function Params(disks: seq<InstanceDisk>): set<Disk> {
    set d | d in disks && d.Initialized? :: d.params
  }

  method StandardizeDisks(disks: seq<InstanceDisk>)
    modifies Params(disks)
    ensures Standard(Params(disks))
  {
    for j := 0 to |disks|
      invariant Standard(Params(disks[..j]))
    {
      if disks[j].Initialized? {
        disks[j].params.diskType := PD_STANDARD;
      }
      assert disks[..j + 1] == disks[..j] + [disks[j]];
    }
    assert disks[..|disks|] == disks;
  }

  /** At any nesting of included workflows, every disk of a disk step and every initialized
      disk of a stable instance becomes a standard one, and no other disk changes. All
      disks are then standard exactly if those are that only beta instances create, and they are as before. */
  method UseStandardDisks(workflow: Workflow)
    modifies DisksOf(workflow.steps, false)
    ensures Standard(DisksOf(workflow.steps, false))
    ensures Standard(DisksOf(workflow.steps, true)) <==>
      Standard(DisksOf(workflow.steps, true) - DisksOf(workflow.steps, false))
  {
    BetaIsMore(workflow.steps);
    StandardizeSteps(workflow.steps);
  }

  class FallbackToPDStandard {
    var shouldFallback: bool

    constructor ()
      ensures !shouldFallback
    {
      shouldFallback := false;
    }

    method PreRunHook(wf: Workflow)
      modifies if shouldFallback then DisksOf(wf.steps, false) else {}
      ensures shouldFallback ==> Standard(DisksOf(wf.steps, false))
    {
      if shouldFallback {
        UseStandardDisks(wf);
      }
    }

    method PostRunHook(err: Option<string>) returns (wantRetry: bool, wrapped: Option<string>)
      modifies this
      ensures wrapped == err
      ensures (wantRetry, shouldFallback) == AfterPost(old(shouldFallback), err)
    {
      if shouldFallback {
        return false, err;
      } else if err.Some? && Contains(err.value, SSD_QUOTA) {
        shouldFallback := true;
      }
      return shouldFallback, err;
    }
  }

  predicate IsQuotaError(err: Option<string>) {
    err.Some? && Contains(err.value, SSD_QUOTA)
  }

  /** Whether a retry is requested, and the state of the hook afterwards. */
  function AfterPost(shouldFallback: bool, err: Option<string>): (bool, bool) {
    if shouldFallback then (false, true) else (IsQuotaError(err), IsQuotaError(err))
  }

  function StateAfter(shouldFallback: bool, errs: seq<Option<string>>): bool
    decreases |errs|
  {
    if errs == [] then shouldFallback else StateAfter(AfterPost(shouldFallback, errs[0]).1, errs[1..])
  }

  /** The call number `k` of a sequence of calls on a new hook requests a retry if and only
      if it is the first one with a quota error; so no two calls do. */
  lemma {:induction false} RetryIsRequestedOnce(errs: seq<Option<string>>, k: nat)
    requires k < |errs|
    ensures AfterPost(StateAfter(false, errs[..k]), errs[k]).0 <==>
      IsQuotaError(errs[k]) && forall i | 0 <= i < k :: !IsQuotaError(errs[i])
  {
    StateMeans(false, errs[..k]);
  }

  lemma {:induction false} StateMeans(shouldFallback: bool, errs: seq<Option<string>>)
    ensures StateAfter(shouldFallback, errs) <==> shouldFallback || exists i | 0 <= i < |errs| :: IsQuotaError(errs[i])
    decreases |errs|
  {
    if errs != [] {
      StateMeans(AfterPost(shouldFallback, errs[0]).1, errs[1..]);
      if i :| 0 < i < |errs| && IsQuotaError(errs[i]) {
        assert IsQuotaError(errs[1..][i - 1]);
      }
    }
  }
}
