/** Failures that can be reached, and exactly when: the crash on a missing retry, a rollback
    that cannot finish, and an instance without a boot disk. */
module UpgradeFailures {
  import opened Text
  import opened Instance
  import opened Licenses
  import opened Sequences
  import opened StartupScript
  import opened UpgradeWorkflows
  import opened UpgradeSafety
  import opened UpgradeRollback
  import opened Upgrader
  import opened UpgradeOutcomes
  import opened Validation

  const UPGRADE_FAILED := "UpgradeFailed:"
  // The text that calls for a reboot, in a line that every upgrade looks for.
  const REBOOT_LINE := UPGRADE_FAILED + RESTART_NEEDED

  lemma ChainInOrder(ops: seq<Op>)
    ensures Respects(Chain(ops), Upto(|ops|)) && Complete(Chain(ops), Upto(|ops|))
    ensures OpsOf(Chain(ops), Upto(|ops|)) == ops
  {
    var steps, trace := Chain(ops), Upto(|ops|);
    forall i, d: nat | 0 <= i < |trace| && d in steps[trace[i]].deps
      ensures Earlier(trace, i, d)
    {
      assert trace[d] == d;
    }
    forall k: nat | k < |steps|
      ensures k in trace
    {
      assert trace[k] == k;
    }
  }

  /* Entries of a log. */

  function PreparedEntry(u: Vars, w0: World): Entry
    requires u.osDisk in w0.disks
  {
    Entry(Prepare, w0, Outcome(Upto(|PrepareOps(u)|), None, None), Prepared(u, w0))
  }

  lemma PreparedEntryIsLegal(u: Vars, w0: World)
    requires Start(u, w0)
    ensures u.osDisk in w0.disks && Legal(u, PreparedEntry(u, w0))
  {
    PrepareResult(u, w0);
    ChainInOrder(PrepareOps(u));
  }

  function FailedUpgrade(w: World, trace: seq<nat>, err: string, w': World): Entry {
    Entry(Upgrade, w, Outcome(trace, None, Some(err)), w')
  }

  lemma FailedUpgradeIsLegal(u: Vars, w: World, trace: seq<nat>, err: string, w': World)
    requires Attempt(PhaseSteps(u, Upgrade), w, trace, w')
    ensures Legal(u, FailedUpgrade(w, trace, err, w'))
  {
  }

  function RebootEntry(w: World): Entry {
    Entry(Reboot, w, Outcome([0, 1], None, None), w.(running := true))
  }

  lemma RebootEntryIsLegal(u: Vars, w: World)
    ensures Legal(u, RebootEntry(w))
  {
    var steps, trace: seq<nat> := RebootSteps(), [0, 1];
    assert Earlier(trace, 1, 0) by {
      assert trace[0] == 0;
    }
    assert Respects(steps, trace) && Complete(steps, trace);
    assert OpsOf(steps, trace) == [StopInstance, StartInstance];
    ApplyTwo(w, StopInstance, StartInstance);
  }

  lemma LinkedNext(u: Vars, w0: World, log: seq<Entry>, w: World, e: Entry)
    requires Linked(u, w0, log, w) && Legal(u, e) && e.before == w
    ensures Linked(u, w0, log + [e], e.after)
  {
    assert (log + [e])[..|log|] == log;
  }

  /* The crash. */

  ghost predicate CrashingRun(u: Vars, w0: World, log: seq<Entry>, w: World, target: Version) {
    Linked(u, w0, log, w) && MainPhases(log, target) && Crashed(log)
  }

  /** From any start, a run that crashes exists if and only if the target has no steps for a
      second attempt: a complete preparation, an upgrade that fails with a line that contains
      the text that calls for a reboot, and a complete reboot lead to it. */
  lemma CrashIsPossibleExactlyWhen(u: Vars, w0: World, target: Version)
    requires Start(u, w0)
    ensures (exists log, w :: CrashingRun(u, w0, log, w, target)) <==> !HasRetrySteps(target)
  {
    if !HasRetrySteps(target) {
      var log, w := RunIntoReboot(u, w0);
      assert CrashingRun(u, w0, log, w, target);
    }
  }

  lemma RunIntoReboot(u: Vars, w0: World) returns (log: seq<Entry>, w: World)
    requires Start(u, w0)
    ensures Linked(u, w0, log, w) && |log| == 3 && forall i | 0 <= i < 3 :: log[i].phase == MainPhase(i)
    ensures log[0].outcome.err.None? && log[2].outcome.err.None?
    ensures log[1].outcome.err.Some? && NeedReboot(log[1].outcome.err.value)
  {
    PreparedEntryIsLegal(u, w0);
    var prepared := PreparedEntry(u, w0);
    var started := prepared.after.(running := true);
    var upgrade := FailedUpgrade(prepared.after, [0], REBOOT_LINE, started);
    OnlyStarted(u, prepared.after);
    FailedUpgradeIsLegal(u, prepared.after, [0], REBOOT_LINE, started);
    var reboot := RebootEntry(started);
    RebootEntryIsLegal(u, started);
    LinkedNext(u, w0, [], w0, prepared);
    LinkedNext(u, w0, [] + [prepared], prepared.after, upgrade);
    LinkedNext(u, w0, [] + [prepared] + [upgrade], started, reboot);
    log, w := [] + [prepared] + [upgrade] + [reboot], reboot.after;
    assert RESTART_NEEDED <= REBOOT_LINE[|UPGRADE_FAILED|..];
  }

  lemma OnlyStarted(u: Vars, w: World)
    ensures Attempt(PhaseSteps(u, Upgrade), w, [0], w.(running := true))
  {
    assert OpsOf(PhaseSteps(u, Upgrade), [0]) == [StartInstance];
    ApplyOne(w, StartInstance);
  }

  /* A rollback that cannot finish. */

  /** After an attempt at the upgrade, or at its retry, on an instance that boots from the
      new disk with the install media attached: a rollback can run to its end if and only
      if the included cleanup has not detached the install media. */
  lemma UpgradeCanBeUndoneExactlyWhen(u: Vars, w0: World, p: Phase, w: World, trace: seq<nat>, w': World)
    requires Start(u, w0) && Upgraded(u, w0, w, true) && Attempt(PhaseSteps(u, p), w, trace, w')
    requires p == Upgrade || p == RetryUpgrade
    ensures CanComplete(PhaseSteps(u, Rollback), w') <==> CleanupOffset(p) + 1 !in trace
  {
    var media := FinishingAttempt(u, w0, p, w, NewDisk, true, trace, w');
    RollbackCompletesExactlyWhen(u, w0, w', NewDisk, media);
    DetachedExactlyWhen(u, p, trace);
  }

  lemma DetachedExactlyWhen(u: Vars, p: Phase, trace: seq<nat>)
    requires (p == Upgrade || p == RetryUpgrade) && Respects(PhaseSteps(u, p), trace)
    ensures DetachDisk(u.installDisk) in OpsOf(PhaseSteps(u, p), trace) <==> CleanupOffset(p) + 1 in trace
  {
    var ops, k := OpsOf(PhaseSteps(u, p), trace), CleanupOffset(p) + 1;
    OneStepDetaches(u, p);
    if k in trace {
      var i :| 0 <= i < |trace| && trace[i] == k;
      assert ops[i] == DetachDisk(u.installDisk);
    }
    if DetachDisk(u.installDisk) in ops {
      var i :| 0 <= i < |ops| && ops[i] == DetachDisk(u.installDisk);
      assert trace[i] == k;
    }
  }

  lemma OneStepDetaches(u: Vars, p: Phase)
    requires p == Upgrade || p == RetryUpgrade
    ensures forall k: nat | k < |PhaseSteps(u, p)| ::
      PhaseSteps(u, p)[k].op == DetachDisk(u.installDisk) <==> k == CleanupOffset(p) + 1
    ensures CleanupOffset(p) + 1 < |PhaseSteps(u, p)|
  {
  }

  /** The upgrade has failed, the instance is seen to boot from the new disk, so that a
      rollback is chosen, and no rollback can finish. */
  ghost predicate BlockedRun(u: Vars, w0: World, log: seq<Entry>, w: World, target: Version) {
    && Linked(u, w0, log, w) && MainPhases(log, target) && |log| == 2 && log[1].outcome.err.Some?
    && IsNewOSDiskAttached(w, u.newOSDisk) && !CanComplete(PhaseSteps(u, Rollback), w)
  }

  /** From any start there is such a run: its upgrade fails in the cleanup. */
  lemma RollbackCanBeBlocked(u: Vars, w0: World, target: Version)
    requires Start(u, w0)
    ensures exists log, w :: BlockedRun(u, w0, log, w, target)
  {
    var log, w := RunIntoCleanup(u, w0);
    assert BlockedRun(u, w0, log, w, target);
  }

  lemma RunIntoCleanup(u: Vars, w0: World) returns (log: seq<Entry>, w: World)
    requires Start(u, w0)
    ensures Linked(u, w0, log, w) && |log| == 2 && forall i | 0 <= i < 2 :: log[i].phase == MainPhase(i)
    ensures log[0].outcome.err.None? && log[1].outcome.err.Some? && !NeedReboot(log[1].outcome.err.value)
    ensures IsNewOSDiskAttached(w, u.newOSDisk) && !CanComplete(PhaseSteps(u, Rollback), w)
  {
    PreparedEntryIsLegal(u, w0);
    var prepared := PreparedEntry(u, w0);
    PreparedIsUpgraded(u, w0);
    w := DetachedMedia(u, w0, prepared.after);
    var upgrade := FailedUpgrade(prepared.after, [0, 2, 4], UPGRADE_FAILED, w);
    FailedUpgradeIsLegal(u, prepared.after, [0, 2, 4], UPGRADE_FAILED, w);
    UpgradeCanBeUndoneExactlyWhen(u, w0, Upgrade, prepared.after, [0, 2, 4], w);
    LinkedNext(u, w0, [], w0, prepared);
    LinkedNext(u, w0, [] + [prepared], prepared.after, upgrade);
    log := [] + [prepared] + [upgrade];
    assert |UPGRADE_FAILED| < |RESTART_NEEDED|;
  }

  lemma PreparedIsUpgraded(u: Vars, w0: World)
    requires Start(u, w0)
    ensures u.osDisk in w0.disks && Upgraded(u, w0, Prepared(u, w0), true)
  {
    PrepareResult(u, w0);
    StartIsSafe(u, w0);
    PreparationMounts(u, w0, w0);
  }

  /** Start, wait for the upgrade, and detach. */
  lemma DetachedMedia(u: Vars, w0: World, w: World) returns (w': World)
    requires Start(u, w0) && Upgraded(u, w0, w, true)
    ensures Attempt(PhaseSteps(u, Upgrade), w, [0, 2, 4], w') && IsNewOSDiskAttached(w', u.newOSDisk)
  {
    var w1 := w.(running := true);
    w' := w1.(attached := Layout(u, Data(w0), NewDisk, false));
    var head, last := [StartInstance, WaitForSignal], [DetachDisk(u.installDisk)];
    DataIsApart(u, w0);
    DetachResult(u, w0, w1, u.installDisk, NewDisk, true);
    ApplyTwo(w, StartInstance, WaitForSignal);
    ApplyOne(w1, DetachDisk(u.installDisk));
    ApplyAllConcat(w, head, last);
    UpToTheDetach(u);
    assert w'.attached[0] == NewBoot(u);
  }

  lemma UpToTheDetach(u: Vars)
    ensures Respects(UpgradeSteps(u), [0, 2, 4])
    ensures OpsOf(UpgradeSteps(u), [0, 2, 4]) == [StartInstance, WaitForSignal] + [DetachDisk(u.installDisk)]
  {
    var trace: seq<nat> := [0, 2, 4];
    assert trace[0] == 0 && trace[1] == 2;
    assert Earlier(trace, 1, 0) && Earlier(trace, 2, 2);
  }

  /* The script of the tool in place of the customer's. */

  /** The main phases of a run and, after a failure, its reaction as far as it got. */
  ghost predicate WholeRun(u: Vars, log: seq<Entry>, target: Version, n: nat) {
    && 1 <= n <= |log| <= n + 1 && MainPhases(log[..n], target)
    && (|log| > n ==> log[n - 1].outcome.err.Some?)
    && (|log| > n ==>
          log[n].phase == Cleanup || (log[n].phase == Rollback && IsNewOSDiskAttached(log[n].before, u.newOSDisk)))
  }

  /** A run after which the same upgrade is accepted again, and derives another original
      script URL than this one did. */
  ghost predicate MistakenRun(u: Vars, w0: World, log: seq<Entry>, w: World, source: Version, target: Version) {
    && Linked(u, w0, log, w) && (exists n :: WholeRun(u, log, target, n))
    && Upgradable(w, source, target) && Derived(w.metadata) != Derived(w0.metadata)
  }

  /** Such a run exists if and only if there was no script URL: the preparation completes, the
      upgrade fails, and the rollback stops after it has attached the original disk. The
      next run then takes the tool's script for the customer's. */
  lemma ScriptIsMistakenExactlyWhen(u: Vars, w0: World, source: Version, target: Version)
    requires Start(u, w0) && u.originalUrl == Derived(w0.metadata)
    requires Supported(source, target) && Upgradable(w0, source, target)
    ensures (exists log, w :: MistakenRun(u, w0, log, w, source, target)) <==> Derived(w0.metadata) == None
  {
    if Derived(w0.metadata) == None {
      var log, w := RunIntoRollback(u, w0);
      assert log[..2][0] == log[0] && log[..2][1] == log[1];
      assert WholeRun(u, log, target, 2);
      assert MistakenRun(u, w0, log, w, source, target);
    } else if log, w :| MistakenRun(u, w0, log, w, source, target) {
      RunKeepsScript(u, w0, log, w);
    }
  }

  /** The phases of the run: prepared, upgraded in vain, rolled back in part. */
  ghost predicate RollsBack(u: Vars, log: seq<Entry>) {
    && |log| == 3
    && log[0].phase == Prepare && log[0].outcome.err.None?
    && log[1].phase == Upgrade && log[1].outcome.err.Some? && !NeedReboot(log[1].outcome.err.value)
    && log[2].phase == Rollback && IsNewOSDiskAttached(log[2].before, u.newOSDisk)
  }

  /** The boot attachment and its disk are those of the start. */
  ghost predicate SameBootDisk(w0: World, w: World) {
    && w0.attached != [] && w.attached != [] && w.attached[0] == w0.attached[0]
    && w0.attached[0].source in w0.disks && w0.attached[0].source in w.disks
    && w.disks[w0.attached[0].source] == w0.disks[w0.attached[0].source]
  }

  lemma RunIntoRollback(u: Vars, w0: World) returns (log: seq<Entry>, w: World)
    requires Start(u, w0) && u.originalUrl == None && Derived(w0.metadata) == None
    ensures Linked(u, w0, log, w) && RollsBack(u, log)
    ensures SameBootDisk(w0, w) && Derived(w.metadata) == Some(UPGRADE_SCRIPT)
  {
    PreparedEntryIsLegal(u, w0);
    var prepared := PreparedEntry(u, w0);
    var started := prepared.after.(running := true);
    var upgrade := FailedUpgrade(prepared.after, [0], UPGRADE_FAILED, started);
    OnlyStarted(u, prepared.after);
    FailedUpgradeIsLegal(u, prepared.after, [0], UPGRADE_FAILED, started);
    assert |UPGRADE_FAILED| < |RESTART_NEEDED|;
    SwappedBack(u, w0, started);
    w := OldBooted(u, w0, started);
    var rollback := Entry(Rollback, started, Outcome([0, 1, 2], None, Some("stopped")), w);
    LinkedNext(u, w0, [], w0, prepared);
    LinkedNext(u, w0, [] + [prepared], prepared.after, upgrade);
    LinkedNext(u, w0, [] + [prepared] + [upgrade], started, rollback);
    log := [] + [prepared] + [upgrade] + [rollback];
    ScriptWithoutBackup(u, w0.metadata);
    assert started.attached[0] == NewBoot(u);
  }

  function OldBooted(u: Vars, w0: World, w: World): World {
    w.(attached := Layout(u, Data(w0), OldDisk, true), running := false)
  }

  /** The first three steps of a rollback after a preparation. */
  lemma SwappedBack(u: Vars, w0: World, w: World)
    requires Start(u, w0) && u.osDisk in w0.disks && w == Prepared(u, w0).(running := true)
    ensures Attempt(PhaseSteps(u, Rollback), w, [0, 1, 2], OldBooted(u, w0, w))
    ensures SameBootDisk(w0, OldBooted(u, w0, w))
  {
    PreparedIsUpgraded(u, w0);
    OldDiskIsOld(u, w0);
    SwapFromNew(u, w0, w);
    FirstThree(u);
    assert OldBooted(u, w0, w).attached[0] == OldBoot(u);
  }

  lemma SwapFromNew(u: Vars, w0: World, w: World)
    requires Start(u, w0) && u.osDisk in w0.disks && SafeAs(u, w0, w, NewDisk, true)
    ensures ApplyAll(w, RollbackOps(u)[..3]) ==
      Some(OldBooted(u, w0, w))
  {
    RollbackSwap(u, w0, w, NewDisk, true);
  }

  lemma FirstThree(u: Vars)
    ensures Respects(RollbackSteps(u), [0, 1, 2]) && OpsOf(RollbackSteps(u), [0, 1, 2]) == RollbackOps(u)[..3]
  {
    var trace: seq<nat> := [0, 1, 2];
    assert trace[0] == 0 && trace[1] == 1;
    assert Earlier(trace, 1, 0) && Earlier(trace, 2, 1);
  }

  /* An instance without a boot disk. */

  /** The step takes the boot disk away or brings one. */
  predicate ChangesBoot(u: Vars, op: Op) {
    op == DetachDisk(u.device) || (op.AttachDisk? && op.attachment.boot)
  }

  lemma BootAfterStep(u: Vars, w0: World, w: World, op: Op)
    requires Start(u, w0) && Safe(u, w0, w) && Allowed(u, op) && Apply(w, op).Some?
    ensures HasBootDisk(Apply(w, op).value) <==> if ChangesBoot(u, op) then op.AttachDisk? else HasBootDisk(w)
  {
    var boot, media :| SafeAs(u, w0, w, boot, media);
    DataIsApart(u, w0);
    InUse(u, w0, w, boot, media);
    if op.DetachDisk? {
      BootAfterDetach(u, w0, w, boot, media, op.device);
    } else if op.AttachDisk? {
      BootAfterAttach(u, w0, w, boot, media, op.attachment);
    }
  }

  lemma BootAfterDetach(u: Vars, w0: World, w: World, boot: Boot, media: bool, device: string)
    requires Start(u, w0) && SafeAs(u, w0, w, boot, media) && (device == u.device || device == u.installDisk)
    requires Apply(w, DetachDisk(device)).Some?
    ensures HasBootDisk(Apply(w, DetachDisk(device)).value) <==> device != u.device && boot != NoBoot
  {
    DetachResult(u, w0, w, device, boot, media);
    InUse(u, w0, Apply(w, DetachDisk(device)).value,
          if device == u.device then NoBoot else boot, media && device == u.device);
  }

  lemma BootAfterAttach(u: Vars, w0: World, w: World, boot: Boot, media: bool, a: Attachment)
    requires Start(u, w0) && SafeAs(u, w0, w, boot, media) && Allowed(u, AttachDisk(a))
    requires Apply(w, AttachDisk(a)).Some?
    ensures HasBootDisk(Apply(w, AttachDisk(a)).value) <==> a.boot || boot != NoBoot
  {
    var w' := Apply(w, AttachDisk(a)).value;
    if a.boot {
      AttachBootResult(u, w0, w, a, boot, media);
      InUse(u, w0, w', BootOf(u, a), media);
    } else {
      AttachMediaResult(u, w0, w, boot, media);
      InUse(u, w0, w', boot, true);
    }
  }

  /** The last step that changes the boot disk decides. */
  lemma {:induction false} BootAfterOps(u: Vars, w0: World, w: World, ops: seq<Op>, last: int)
    requires Start(u, w0) && Safe(u, w0, w) && AllAllowed(u, ops) && ApplyAll(w, ops).Some?
    requires -1 <= last < |ops| && (last >= 0 ==> ChangesBoot(u, ops[last]))
    requires forall i | last < i < |ops| :: !ChangesBoot(u, ops[i])
    ensures HasBootDisk(ApplyAll(w, ops).value) <==> if last >= 0 then ops[last].AttachDisk? else HasBootDisk(w)
    decreases |ops|
  {
    if ops != [] {
      BootAfterStep(u, w0, w, ops[0]);
      StepIsSafe(u, w0, w, ops[0]);
      BootAfterOps(u, w0, Apply(w, ops[0]).value, ops[1..], if last > 0 then last - 1 else -1);
    }
  }

  /** An attempt at a phase on an instance with a boot disk leaves it without one if and only
      if it is a preparation or a rollback that stops between its detach and its attach. */
  lemma BootDiskIsMissingExactlyWhen(u: Vars, w0: World, p: Phase, w: World, trace: seq<nat>, w': World)
    requires Start(u, w0) && Safe(u, w0, w) && HasBootDisk(w) && Attempt(PhaseSteps(u, p), w, trace, w')
    ensures !HasBootDisk(w') <==>
      || (p == Prepare && |trace| == |PrepareHead(u)| + 3)
      || (p == Rollback && |trace| == 2)
  {
    var ops := OpsOf(PhaseSteps(u, p), trace);
    forall i | 0 <= i < |ops|
      ensures Allowed(u, ops[i])
    {
      PhasesAreAllowed(u, p, trace[i]);
    }
    var last := LastChange(u, w0, p, trace);
    BootAfterOps(u, w0, w, ops, last);
  }

  lemma LastChange(u: Vars, w0: World, p: Phase, trace: seq<nat>) returns (last: int)
    requires Start(u, w0) && Respects(PhaseSteps(u, p), trace)
    ensures var ops := OpsOf(PhaseSteps(u, p), trace);
      && -1 <= last < |ops| && (last >= 0 ==> ChangesBoot(u, ops[last]))
      && (forall i | last < i < |ops| :: !ChangesBoot(u, ops[i]))
      && (last >= 0 && ops[last].DetachDisk? <==>
            || (p == Prepare && |trace| == |PrepareHead(u)| + 3)
            || (p == Rollback && |trace| == 2))
  {
    DataIsApart(u, w0);
    match p {
      case Prepare =>
        var h := |PrepareHead(u)|;
        PrepareIsAChain(u, trace);
        PrepareChanges(u, w0);
        last := if |trace| <= h + 2 then -1 else if |trace| == h + 3 then h + 2 else h + 3;
      case Rollback =>
        RollbackOrder(u, trace);
        RollbackChanges(u, w0);
        last := if |trace| <= 1 then -1 else if |trace| == 2 then 1 else 2;
      case _ =>
        NoChanges(u, w0, p);
        last := -1;
    }
  }

  lemma PrepareChanges(u: Vars, w0: World)
    requires Start(u, w0)
    ensures var ops, h := PrepareOps(u), |PrepareHead(u)|;
      && |ops| > h + 3 && ops[h + 2] == DetachDisk(u.device) && ops[h + 3] == AttachDisk(NewBoot(u))
      && forall i | 0 <= i < |ops| && i != h + 2 && i != h + 3 :: !ChangesBoot(u, ops[i])
  {
    var h := |PrepareHead(u)|;
    assert forall i | 0 <= i < 6 :: PrepareOps(u)[h + i] == PrepareDisks(u)[i];
    assert forall i | h + 6 <= i < |PrepareOps(u)| :: PrepareOps(u)[i].UpdateMetadata?;
  }

  lemma RollbackChanges(u: Vars, w0: World)
    requires Start(u, w0)
    ensures var steps := RollbackSteps(u);
      && |steps| == 7 && steps[1].op == DetachDisk(u.device) && steps[2].op == AttachDisk(OldBoot(u))
      && forall k | 0 <= k < 7 && k != 1 && k != 2 :: !ChangesBoot(u, steps[k].op)
  {
    DataIsApart(u, w0);
    assert forall k | 0 <= k < 5 :: RollbackSteps(u)[k].op == RollbackOps(u)[k];
  }

  lemma NoChanges(u: Vars, w0: World, p: Phase)
    requires Start(u, w0) && p != Prepare && p != Rollback
    ensures forall k: nat | k < |PhaseSteps(u, p)| :: !ChangesBoot(u, PhaseSteps(u, p)[k].op)
  {
    DataIsApart(u, w0);
    FinishingPhase(u, p);
  }
}
