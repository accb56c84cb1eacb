/** Rollback against preparation: what a complete rollback restores, when it can be
    complete, and what an interrupted one leaves. */
module UpgradeRollback {
  import opened Text
  import opened Instance
  import opened Sequences
  import opened UpgradeWorkflows
  import opened UpgradeSafety

  /* Preparation. */

  function PreparedDisks(u: Vars, w0: World): map<string, seq<string>>
    requires u.osDisk in w0.disks
  {
    w0.disks[u.newOSDisk := w0.disks[u.osDisk] + [u.licenseToAdd]][u.installDisk := []]
  }

  lemma OldLayout(u: Vars, w0: World)
    requires Start(u, w0)
    ensures u.osDisk in w0.disks && w0.attached == Layout(u, Data(w0), OldDisk, false)
    ensures Layout(u, Data(w0), OldDisk, true) == w0.attached + [InstallMedia(u)]
  {
    assert w0.attached[0].source in w0.disks;
  }

  lemma SwapBootDisk(u: Vars, w0: World, w: World)
    requires Start(u, w0) && w.attached == w0.attached && w.disks == w0.disks && w.snapshots == w0.snapshots
    ensures u.osDisk in w0.disks
    ensures ApplyAll(w, PrepareDisks(u)[..4]) ==
      Some(w.(attached := Layout(u, Data(w0), NewDisk, false),
              disks := w0.disks[u.newOSDisk := w0.disks[u.osDisk] + [u.licenseToAdd]],
              snapshots := w0.snapshots[u.snapshot := w0.disks[u.osDisk]]))
  {
    OldLayout(u, w0);
    var ops := PrepareDisks(u);
    var w1 := w.(snapshots := w0.snapshots[u.snapshot := w0.disks[u.osDisk]]);
    var w2 := w1.(disks := w0.disks[u.newOSDisk := w0.disks[u.osDisk] + [u.licenseToAdd]]);
    var w3 := w2.(attached := Layout(u, Data(w0), NoBoot, false));
    DetachResult(u, w0, w2, u.device, OldDisk, false);
    AttachBootResult(u, w0, w3, NewBoot(u), NoBoot, false);
    ApplyNext(w, ops, 0, w);
    ApplyNext(w, ops, 1, w1);
    ApplyNext(w, ops, 2, w2);
    ApplyNext(w, ops, 3, w3);
  }

  /** What the disk steps of the preparation do. */
  lemma PrepareDisksResult(u: Vars, w0: World, w: World)
    requires Start(u, w0) && w.attached == w0.attached && w.disks == w0.disks && w.snapshots == w0.snapshots
    ensures u.osDisk in w0.disks
    ensures ApplyAll(w, PrepareDisks(u)) ==
      Some(w.(attached := Layout(u, Data(w0), NewDisk, true),
              disks := PreparedDisks(u, w0),
              snapshots := w0.snapshots[u.snapshot := w0.disks[u.osDisk]]))
  {
    SwapBootDisk(u, w0, w);
    MountMedia(u, w0, w, ApplyAll(w, PrepareDisks(u)[..4]).value);
  }

  lemma MountMedia(u: Vars, w0: World, w: World, w4: World)
    requires Start(u, w0) && ApplyAll(w, PrepareDisks(u)[..4]) == Some(w4)
    requires w4.attached == Layout(u, Data(w0), NewDisk, false) && u.installDisk !in w4.disks
    ensures ApplyAll(w, PrepareDisks(u)) ==
      Some(w4.(attached := Layout(u, Data(w0), NewDisk, true), disks := w4.disks[u.installDisk := []]))
  {
    var ops := PrepareDisks(u);
    var w5 := w4.(disks := w4.disks[u.installDisk := []]);
    AttachMediaResult(u, w0, w5, NewDisk, false);
    ApplyNext(w, ops, 4, w4);
    ApplyNext(w, ops, 5, w5);
    assert ops[..6] == ops;
  }

  function PreparedMetadata(u: Vars, metadata: map<string, string>): map<string, string> {
    (if u.originalUrl.Some? then metadata + map[SCRIPT_URL_BACKUP := u.originalUrl.value] else metadata)
    + SetScript(u).entries
  }

  function Prepared(u: Vars, w0: World): World
    requires u.osDisk in w0.disks
  {
    World(Layout(u, Data(w0), NewDisk, true), PreparedMetadata(u, w0.metadata), PreparedDisks(u, w0),
          w0.snapshots[u.snapshot := w0.disks[u.osDisk]],
          w0.machineImages + (if u.createMachineBackup then {u.machineImage} else {}), false)
  }

  lemma PrepareScriptResult(u: Vars, w: World)
    ensures ApplyAll(w, PrepareScript(u)) == Some(w.(metadata := PreparedMetadata(u, w.metadata)))
  {
    if u.originalUrl.Some? {
      assert PrepareScript(u) == [BackupScript(u.originalUrl.value), SetScript(u)];
      ApplyTwo(w, BackupScript(u.originalUrl.value), SetScript(u));
    } else {
      assert PrepareScript(u) == [SetScript(u)];
      ApplyOne(w, SetScript(u));
    }
  }

  /** A preparation can always run to its end, and this is the end. */
  lemma PrepareResult(u: Vars, w0: World)
    requires Start(u, w0)
    ensures u.osDisk in w0.disks && ApplyAll(w0, PrepareOps(u)) == Some(Prepared(u, w0))
  {
    var head, disks, script := PrepareHead(u), PrepareDisks(u), PrepareScript(u);
    var w1 := w0.(running := false,
                  machineImages := w0.machineImages + if u.createMachineBackup then {u.machineImage} else {});
    assert ApplyAll(w0, head) == Some(w1) by {
      ApplyNext(w0, head, 0, w0);
      if u.createMachineBackup {
        ApplyNext(w0, head, 1, w0.(running := false));
      } else {
        assert w0.machineImages + {} == w0.machineImages;
      }
      assert head[..|head|] == head;
    }
    PrepareDisksResult(u, w0, w1);
    ApplyAllConcat(w0, head, disks);
    ApplyAllConcat(w0, head + disks, script);
    PrepareScriptResult(u, ApplyAll(w1, disks).value);
  }

  /* Rollback. */

  function RolledBack(u: Vars, w0: World, w: World): World {
    w.(attached := Layout(u, Data(w0), OldDisk, false), running := false,
       metadata := w.metadata + RestoreScript(u).entries)
  }

  /** The first steps of the rollback swap the boot disk, whichever it is, for the original. */
  lemma RollbackSwap(u: Vars, w0: World, w: World, boot: Boot, media: bool)
    requires Start(u, w0) && SafeAs(u, w0, w, boot, media)
    ensures boot == NoBoot ==> ApplyAll(w, RollbackOps(u)[..2]) == None
    ensures boot != NoBoot ==>
      ApplyAll(w, RollbackOps(u)[..3]) == Some(w.(attached := Layout(u, Data(w0), OldDisk, media), running := false))
  {
    SwapDetach(u, w0, w, boot, media);
    if boot != NoBoot {
      OldLayout(u, w0);
      var w2 := w.(attached := Layout(u, Data(w0), NoBoot, media), running := false);
      AttachBootResult(u, w0, w2, OldBoot(u), NoBoot, media);
      ApplyNext(w, RollbackOps(u), 2, w2);
    }
  }

  lemma SwapDetach(u: Vars, w0: World, w: World, boot: Boot, media: bool)
    requires Start(u, w0) && SafeAs(u, w0, w, boot, media)
    ensures ApplyAll(w, RollbackOps(u)[..2]) ==
      if boot == NoBoot then None else Some(w.(attached := Layout(u, Data(w0), NoBoot, media), running := false))
  {
    var ops := RollbackOps(u);
    var w1 := w.(running := false);
    DetachResult(u, w0, w1, u.device, boot, media);
    ApplyNext(w, ops, 0, w);
    ApplyNext(w, ops, 1, w1);
  }

  lemma RollbackDetach(u: Vars, w0: World, w: World, boot: Boot, media: bool)
    requires Start(u, w0) && SafeAs(u, w0, w, boot, media) && boot != NoBoot
    ensures ApplyAll(w, RollbackOps(u)[..4]) ==
      if media then Some(w.(attached := Layout(u, Data(w0), OldDisk, false), running := false)) else None
  {
    RollbackSwap(u, w0, w, boot, media);
    DataIsApart(u, w0);
    var w3 := w.(attached := Layout(u, Data(w0), OldDisk, media), running := false);
    DetachResult(u, w0, w3, u.installDisk, OldDisk, media);
    ApplyNext(w, RollbackOps(u), 3, w3);
  }

  lemma RollbackChain(u: Vars, w0: World, w: World, boot: Boot)
    requires Start(u, w0) && SafeAs(u, w0, w, boot, true) && boot != NoBoot
    ensures ApplyAll(w, RollbackOps(u)) == Some(RolledBack(u, w0, w))
  {
    RollbackDetach(u, w0, w, boot, true);
    RestoreLast(u, w, w.(attached := Layout(u, Data(w0), OldDisk, false), running := false));
  }

  lemma RestoreLast(u: Vars, w: World, w4: World)
    requires ApplyAll(w, RollbackOps(u)[..4]) == Some(w4)
    ensures ApplyAll(w, RollbackOps(u)) == Some(w4.(metadata := w4.metadata + RestoreScript(u).entries))
  {
    var ops := RollbackOps(u);
    ApplyNext(w, ops, 4, w4);
    assert ops[..5] == ops && ops[4] == RestoreScript(u);
  }

  lemma DeleteResult(u: Vars, w0: World, w: World, disk: string)
    requires Start(u, w0) && w.attached == Layout(u, Data(w0), OldDisk, false)
    requires disk == u.newOSDisk || disk == u.installDisk
    ensures Apply(w, DeleteDisk(disk)) == if disk in w.disks then Some(w.(disks := w.disks - {disk})) else None
  {
    InUse(u, w0, w, OldDisk, false);
  }

  lemma DeletedDisks(u: Vars, w0: World, r: World)
    requires Start(u, w0) && SameDisks(u, w0, r)
    ensures r.disks - {u.newOSDisk} - {u.installDisk} == w0.disks
    ensures r.disks - {u.installDisk} - {u.newOSDisk} == w0.disks
  {
  }

  lemma DeleteBoth(u: Vars, w0: World, r: World, a: string, b: string)
    requires Start(u, w0) && SameDisks(u, w0, r) && r.attached == Layout(u, Data(w0), OldDisk, false)
    requires (a, b) == (u.newOSDisk, u.installDisk) || (a, b) == (u.installDisk, u.newOSDisk)
    ensures ApplyAll(r, [DeleteDisk(a), DeleteDisk(b)]) ==
      if a in r.disks && b in r.disks then Some(r.(disks := w0.disks)) else None
  {
    ApplyTwo(r, DeleteDisk(a), DeleteDisk(b));
    DeleteResult(u, w0, r, a);
    DeletedDisks(u, w0, r);
    if a in r.disks {
      DeleteResult(u, w0, r.(disks := r.disks - {a}), b);
    }
  }

  ghost predicate CanComplete(steps: Steps, w: World) {
    exists trace, w' :: Complete(steps, trace) && Attempt(steps, w, trace, w')
  }

  function Deletions(u: Vars, newFirst: bool): seq<Op> {
    if newFirst then [DeleteDisk(u.newOSDisk), DeleteDisk(u.installDisk)]
    else [DeleteDisk(u.installDisk), DeleteDisk(u.newOSDisk)]
  }

  /** The steps of a complete rollback, one after the other. */
  lemma CompleteRollbackOps(u: Vars, trace: seq<nat>) returns (newFirst: bool)
    requires Respects(PhaseSteps(u, Rollback), trace) && Complete(PhaseSteps(u, Rollback), trace)
    ensures OpsOf(PhaseSteps(u, Rollback), trace) == RollbackOps(u) + Deletions(u, newFirst)
  {
    RollbackTrace(u, trace);
    assert forall i | 0 <= i < 5 :: trace[i] == Upto(5)[i];
    newFirst := trace[5] == 5;
  }

  /** What it takes to run a rollback to its end. */
  predicate Undoable(u: Vars, w: World, boot: Boot, media: bool) {
    boot != NoBoot && media && u.newOSDisk in w.disks
  }

  lemma RollbackResult(u: Vars, w0: World, w: World, boot: Boot, media: bool, newFirst: bool)
    requires Start(u, w0) && SafeAs(u, w0, w, boot, media)
    ensures ApplyAll(w, RollbackOps(u) + Deletions(u, newFirst)) ==
      if Undoable(u, w, boot, media) then Some(RolledBack(u, w0, w).(disks := w0.disks)) else None
  {
    var ops, deletions := RollbackOps(u), Deletions(u, newFirst);
    if boot == NoBoot {
      RollbackSwap(u, w0, w, boot, media);
      ApplyAllConcat(w, ops[..2], ops[2..] + deletions);
      assert ops + deletions == ops[..2] + (ops[2..] + deletions);
    } else if !media {
      RollbackDetach(u, w0, w, boot, false);
      ApplyAllConcat(w, ops[..4], ops[4..] + deletions);
      assert ops + deletions == ops[..4] + (ops[4..] + deletions);
    } else {
      RollbackChain(u, w0, w, boot);
      ApplyAllConcat(w, ops, deletions);
      DeleteBoth(u, w0, RolledBack(u, w0, w), deletions[0].disk, deletions[1].disk);
    }
  }

  lemma InOrder(u: Vars)
    ensures Respects(PhaseSteps(u, Rollback), Upto(7)) && Complete(PhaseSteps(u, Rollback), Upto(7))
  {
    var steps, trace := PhaseSteps(u, Rollback), Upto(7);
    forall i, d: nat | 0 <= i < 7 && d in steps[i].deps
      ensures Earlier(trace, i, d)
    {
      assert d < i && trace[d] == d;
    }
    TraceLength(steps, trace);
  }

  /** From any state of a run, a rollback can run to its end if and only if some boot disk
      is attached, the install media is attached, and the new boot disk exists. In a state
      that boots from the new disk, all that can be missing is the install media: an
      included cleanup may have detached it. */
  lemma RollbackCompletesExactlyWhen(u: Vars, w0: World, w: World, boot: Boot, media: bool)
    requires Start(u, w0) && SafeAs(u, w0, w, boot, media)
    ensures CanComplete(PhaseSteps(u, Rollback), w) <==> Undoable(u, w, boot, media)
    ensures boot == NewDisk ==> (Undoable(u, w, boot, media) <==> media)
  {
    var steps := PhaseSteps(u, Rollback);
    if Undoable(u, w, boot, media) {
      InOrder(u);
      var newFirst := CompleteRollbackOps(u, Upto(7));
      RollbackResult(u, w0, w, boot, media, newFirst);
      assert Attempt(steps, w, Upto(7), RolledBack(u, w0, w).(disks := w0.disks));
    } else if CanComplete(steps, w) {
      var trace, w' :| Complete(steps, trace) && Attempt(steps, w, trace, w');
      var newFirst := CompleteRollbackOps(u, trace);
      RollbackResult(u, w0, w, boot, media, newFirst);
      assert false;
    }
  }

  /** A complete rollback, from any state of the run, restores every attachment and every
      disk of the start of the run and the original script URL. The other metadata entries
      of the upgrade stay. */
  lemma CompleteRollbackRestores(u: Vars, w0: World, w: World, trace: seq<nat>, w': World)
    requires Start(u, w0) && Safe(u, w0, w)
    requires Complete(PhaseSteps(u, Rollback), trace) && Attempt(PhaseSteps(u, Rollback), w, trace, w')
    ensures w'.attached == w0.attached && w'.disks == w0.disks && !w'.running
    ensures w'.metadata == w.metadata[SCRIPT_URL := OriginalUrl(u)][SCRIPT_URL_BACKUP := ""]
  {
    var boot, media :| SafeAs(u, w0, w, boot, media);
    var newFirst := CompleteRollbackOps(u, trace);
    RollbackResult(u, w0, w, boot, media, newFirst);
    OldLayout(u, w0);
    RestoredMetadata(u, w.metadata);
  }

  lemma RestoredMetadata(u: Vars, m: map<string, string>)
    ensures m + RestoreScript(u).entries == m[SCRIPT_URL := OriginalUrl(u)][SCRIPT_URL_BACKUP := ""]
  {
    assert SCRIPT_URL != SCRIPT_URL_BACKUP by {
      assert |SCRIPT_URL| != |SCRIPT_URL_BACKUP|;
    }
  }

  /** A rollback cut off anywhere after the original boot disk has been attached leaves the
      instance booting from the original disk with the original settings, and every data
      disk attached as it was. */
  lemma InterruptedRollbackBootsOriginal(u: Vars, w0: World, w: World, trace: seq<nat>, w': World)
    requires Start(u, w0) && Safe(u, w0, w)
    requires Attempt(PhaseSteps(u, Rollback), w, trace, w') && |trace| >= 3
    ensures w'.attached == w0.attached || w'.attached == w0.attached + [InstallMedia(u)]
    ensures w'.attached[0] == OldBoot(u)
  {
    var boot, media :| SafeAs(u, w0, w, boot, media);
    var ops := OpsOf(PhaseSteps(u, Rollback), trace);
    RollbackHead(u, trace);
    NeedsBootDisk(u, w0, w, boot, media, ops);
    SwapThenTail(u, w0, w, boot, media, ops);
    OldLayout(u, w0);
  }

  lemma SwapThenTail(u: Vars, w0: World, w: World, boot: Boot, media: bool, ops: seq<Op>)
    requires Start(u, w0) && SafeAs(u, w0, w, boot, media) && boot != NoBoot
    requires |ops| >= 3 && ops[..3] == RollbackOps(u)[..3] && ApplyAll(w, ops).Some?
    requires forall i | 3 <= i < |ops| :: AfterSwap(u, ops[i])
    ensures var w' := ApplyAll(w, ops).value;
      w'.attached == Layout(u, Data(w0), OldDisk, true) || w'.attached == Layout(u, Data(w0), OldDisk, false)
  {
    RollbackSwap(u, w0, w, boot, media);
    ApplyAllConcat(w, ops[..3], ops[3..]);
    assert ops == ops[..3] + ops[3..];
    TailKeepsBoot(u, w0, ApplyAll(w, ops[..3]).value, media, ops[3..]);
  }

  lemma NeedsBootDisk(u: Vars, w0: World, w: World, boot: Boot, media: bool, ops: seq<Op>)
    requires Start(u, w0) && SafeAs(u, w0, w, boot, media)
    requires |ops| >= 3 && ops[..3] == RollbackOps(u)[..3] && ApplyAll(w, ops).Some?
    ensures boot != NoBoot
  {
    SwapDetach(u, w0, w, boot, media);
    ApplyAllConcat(w, ops[..2], ops[2..]);
    assert ops == ops[..2] + ops[2..];
    assert ops[..2] == ops[..3][..2] == RollbackOps(u)[..3][..2] == RollbackOps(u)[..2];
  }

  lemma RollbackHead(u: Vars, trace: seq<nat>)
    requires Respects(PhaseSteps(u, Rollback), trace) && |trace| >= 3
    ensures var ops := OpsOf(PhaseSteps(u, Rollback), trace);
      && ops[..3] == RollbackOps(u)[..3]
      && forall i | 3 <= i < |ops| :: AfterSwap(u, ops[i])
  {
    var ops := OpsOf(PhaseSteps(u, Rollback), trace);
    RollbackOrder(u, trace);
    forall i | 0 <= i < |ops|
      ensures if i < 3 then ops[i] == RollbackOps(u)[i] else AfterSwap(u, ops[i])
    {
      RollbackStep(u, trace[i]);
    }
  }

  lemma RollbackOrder(u: Vars, trace: seq<nat>)
    requires Respects(PhaseSteps(u, Rollback), trace)
    ensures forall i | 0 <= i < |trace| :: trace[i] < 7 && if i < 3 then trace[i] == i else trace[i] >= 3
  {
    RollbackTrace(u, trace);
  }

  lemma RollbackStep(u: Vars, k: nat)
    requires k < 7
    ensures if k < 3 then RollbackSteps(u)[k].op == RollbackOps(u)[k] else AfterSwap(u, RollbackSteps(u)[k].op)
  {
  }

  /** What may follow the swap of the boot disk. */
  predicate AfterSwap(u: Vars, op: Op) {
    op.DeleteDisk? || op.UpdateMetadata? || op == DetachDisk(u.installDisk)
  }

  lemma StepAfterSwap(u: Vars, w0: World, w: World, media: bool, op: Op)
    requires Start(u, w0) && w.attached == Layout(u, Data(w0), OldDisk, media)
    requires AfterSwap(u, op) && Apply(w, op).Some?
    ensures Apply(w, op).value.attached == Layout(u, Data(w0), OldDisk, media && !op.DetachDisk?)
  {
    DataIsApart(u, w0);
    DetachResult(u, w0, w, u.installDisk, OldDisk, media);
  }

  lemma {:induction false} TailKeepsBoot(u: Vars, w0: World, w: World, media: bool, ops: seq<Op>)
    requires Start(u, w0) && w.attached == Layout(u, Data(w0), OldDisk, media)
    requires forall i | 0 <= i < |ops| :: AfterSwap(u, ops[i])
    requires ApplyAll(w, ops).Some?
    ensures var w' := ApplyAll(w, ops).value;
      w'.attached == Layout(u, Data(w0), OldDisk, true) || w'.attached == Layout(u, Data(w0), OldDisk, false)
    decreases |ops|
  {
    if ops != [] {
      StepAfterSwap(u, w0, w, media, ops[0]);
      TailKeepsBoot(u, w0, Apply(w, ops[0]).value, media && !ops[0].DetachDisk?, ops[1..]);
    }
  }
}
