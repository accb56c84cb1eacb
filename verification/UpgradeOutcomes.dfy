/** What holds in and after every run of an upgrade, whatever fails. */
module UpgradeOutcomes {
  import opened Text
  import opened Instance
  import opened Sequences
  import opened UpgradeWorkflows
  import opened UpgradeSafety
  import opened UpgradeRollback
  import opened StartupScript
  import opened Upgrader

  lemma {:induction false} OpsAreSafe(u: Vars, w0: World, w: World, ops: seq<Op>)
    requires Start(u, w0) && Safe(u, w0, w) && ApplyAll(w, ops).Some?
    requires forall i | 0 <= i < |ops| :: Allowed(u, ops[i])
    ensures Safe(u, w0, ApplyAll(w, ops).value)
    decreases |ops|
  {
    if ops != [] {
      StepIsSafe(u, w0, w, ops[0]);
      OpsAreSafe(u, w0, Apply(w, ops[0]).value, ops[1..]);
    }
  }

  lemma AttemptIsSafe(u: Vars, w0: World, p: Phase, w: World, trace: seq<nat>, w': World)
    requires Start(u, w0) && Safe(u, w0, w) && Attempt(PhaseSteps(u, p), w, trace, w')
    ensures Safe(u, w0, w')
  {
    var ops := OpsOf(PhaseSteps(u, p), trace);
    forall i | 0 <= i < |ops|
      ensures Allowed(u, ops[i])
    {
      PhasesAreAllowed(u, p, trace[i]);
    }
    OpsAreSafe(u, w0, w, ops);
  }

  /** A state in the middle of an attempt is the end of a shorter attempt. */
  lemma AttemptPrefix(steps: Steps, w: World, trace: seq<nat>, w': World, k: nat)
    requires Attempt(steps, w, trace, w') && k <= |trace|
    ensures exists w1 :: Attempt(steps, w, trace[..k], w1)
  {
    var ops := OpsOf(steps, trace);
    ApplyAllConcat(w, ops[..k], ops[k..]);
    assert ops == ops[..k] + ops[k..];
    assert OpsOf(steps, trace[..k]) == ops[..k];
    forall i, d: nat | 0 <= i < k && d in steps[trace[i]].deps
      ensures Earlier(trace[..k], i, d)
    {
      assert Earlier(trace, i, d);
      var j :| 0 <= j < i && trace[j] == d;
      assert trace[..k][j] == d;
    }
    assert Attempt(steps, w, trace[..k], ApplyAll(w, ops[..k]).value);
  }

  /** The attempts behind an entry of the log. */
  lemma EntryAttempts(u: Vars, e: Entry) returns (w1: World)
    requires Legal(u, e)
    ensures Attempt(PhaseSteps(u, e.phase), e.before, e.outcome.first, w1)
    ensures e.outcome.second.None? ==> w1 == e.after
    ensures e.outcome.second.Some? ==> Attempt(PhaseSteps(u, e.phase), w1, e.outcome.second.value, e.after)
    ensures e.outcome.err.None? ==>
      Complete(PhaseSteps(u, e.phase), if e.outcome.second.Some? then e.outcome.second.value else e.outcome.first)
  {
    assert AfterOutcome(PhaseSteps(u, e.phase), e.before, e.outcome) == Some(e.after);
    w1 := AfterAttempt(PhaseSteps(u, e.phase), e.before, e.outcome.first).value;
  }

  lemma EntryIsSafe(u: Vars, w0: World, e: Entry)
    requires Start(u, w0) && Safe(u, w0, e.before) && Legal(u, e)
    ensures Safe(u, w0, e.after)
  {
    var w1 := EntryAttempts(u, e);
    AttemptIsSafe(u, w0, e.phase, e.before, e.outcome.first, w1);
    if e.outcome.second.Some? {
      AttemptIsSafe(u, w0, e.phase, w1, e.outcome.second.value, e.after);
    }
  }

  lemma StartIsSafe(u: Vars, w0: World)
    requires Start(u, w0)
    ensures Safe(u, w0, w0)
  {
    OldLayout(u, w0);
    assert SafeAs(u, w0, w0, OldDisk, false);
  }

  /** In every run, however it goes and wherever it stops: the customer's disks exist
      unchanged, the data disks are attached as they were, and the instance boots from the
      original disk, from its upgraded copy, or from none. */
  lemma {:induction false} RunsAreSafe(u: Vars, w0: World, log: seq<Entry>, w: World)
    requires Start(u, w0) && Linked(u, w0, log, w)
    ensures Safe(u, w0, w)
    ensures log != [] ==> Safe(u, w0, log[|log| - 1].before)
    decreases |log|
  {
    if log == [] {
      StartIsSafe(u, w0);
    } else {
      var last := log[|log| - 1];
      RunsAreSafe(u, w0, log[..|log| - 1], last.before);
      EntryIsSafe(u, w0, last);
    }
  }

  /** In every run that found a script URL, the next run will find the same one. */
  lemma {:induction false} RunKeepsScript(u: Vars, w0: World, log: seq<Entry>, w: World)
    requires Linked(u, w0, log, w)
    requires u.originalUrl.Some? && u.originalUrl.value != "" && Derived(w0.metadata) == u.originalUrl
    ensures Derived(w.metadata) == u.originalUrl
    decreases |log|
  {
    if log != [] {
      var e := log[|log| - 1];
      RunKeepsScript(u, w0, log[..|log| - 1], e.before);
      var w1 := EntryAttempts(u, e);
      AttemptKeepsScript(u, e.phase, e.before, e.outcome.first, w1);
      if e.outcome.second.Some? {
        AttemptKeepsScript(u, e.phase, w1, e.outcome.second.value, e.after);
      }
    }
  }

  /** A run whose rollback reports success has undone everything: attachments and disks are
      those of the start, and the script URL is the original one. */
  lemma SuccessfulRollbackUndoesTheRun(u: Vars, w0: World, log: seq<Entry>, w: World)
    requires Start(u, w0) && Linked(u, w0, log, w) && log != []
    requires log[|log| - 1].phase == Rollback && log[|log| - 1].outcome.err.None?
    ensures w.attached == w0.attached && w.disks == w0.disks && !w.running
    ensures Reads(w.metadata, SCRIPT_URL_BACKUP) == None
    ensures Reads(w.metadata, SCRIPT_URL) == if OriginalUrl(u) == "" then None else Some(OriginalUrl(u))
  {
    var e := log[|log| - 1];
    RunsAreSafe(u, w0, log, w);
    var w1 := EntryAttempts(u, e);
    RestoredReads(u, if e.outcome.second.Some? then w1.metadata else e.before.metadata);
    if e.outcome.second.Some? {
      AttemptIsSafe(u, w0, Rollback, e.before, e.outcome.first, w1);
      CompleteRollbackRestores(u, w0, w1, e.outcome.second.value, w);
    } else {
      CompleteRollbackRestores(u, w0, e.before, e.outcome.first, w);
    }
  }

  lemma RestoredReads(u: Vars, m: map<string, string>)
    ensures var m' := m[SCRIPT_URL := OriginalUrl(u)][SCRIPT_URL_BACKUP := ""];
      && Reads(m', SCRIPT_URL_BACKUP) == None
      && Reads(m', SCRIPT_URL) == if OriginalUrl(u) == "" then None else Some(OriginalUrl(u))
  {
    KeysDiffer();
  }

  /** A retry of the preparation, with the disks moved to standard persistent disks, cannot
      succeed once the first attempt has created the snapshot, and every disk is created
      after it: the second attempt finds the snapshot's name taken. */
  lemma PreparationCannotBeRetried(u: Vars, e: Entry)
    requires Legal(u, e) && e.phase == Prepare && e.outcome.second.Some?
    requires |e.outcome.first| > |PrepareHead(u)|
    ensures e.outcome.err.Some?
  {
    var w1 := EntryAttempts(u, e);
    var steps := PhaseSteps(u, Prepare);
    PrepareIsAChain(u, e.outcome.first);
    SnapshotStays(u, e.before, |e.outcome.first|);
    if e.outcome.err.None? {
      PrepareIsAChain(u, e.outcome.second.value);
      assert PrepareOps(u)[..|PrepareOps(u)|] == PrepareOps(u);
      SnapshotBlocks(u, w1);
      assert false;
    }
  }

  lemma {:induction false} SnapshotsGrow(w: World, ops: seq<Op>, snapshot: string)
    requires ApplyAll(w, ops).Some? && snapshot in w.snapshots
    ensures snapshot in ApplyAll(w, ops).value.snapshots
    decreases |ops|
  {
    if ops != [] {
      SnapshotsGrow(Apply(w, ops[0]).value, ops[1..], snapshot);
    }
  }

  lemma SnapshotStays(u: Vars, w: World, k: nat)
    requires |PrepareHead(u)| < k <= |PrepareOps(u)| && ApplyAll(w, PrepareOps(u)[..k]).Some?
    ensures u.snapshot in ApplyAll(w, PrepareOps(u)[..k]).value.snapshots
  {
    var h := |PrepareHead(u)|;
    var ops := PrepareOps(u)[..k];
    assert ops[h] == CreateSnapshot(u.snapshot, u.osDisk);
    ApplyAllConcat(w, ops[..h + 1], ops[h + 1..]);
    assert ops == ops[..h + 1] + ops[h + 1..];
    ApplyAllConcat(w, ops[..h], [ops[h]]);
    assert ops[..h + 1] == ops[..h] + [ops[h]];
    ApplyOne(ApplyAll(w, ops[..h]).value, ops[h]);
    SnapshotsGrow(ApplyAll(w, ops[..h + 1]).value, ops[h + 1..], u.snapshot);
  }

  lemma SnapshotBlocks(u: Vars, w: World)
    requires u.snapshot in w.snapshots
    ensures ApplyAll(w, PrepareOps(u)) == None
  {
    var h := |PrepareHead(u)|;
    var ops := PrepareOps(u);
    assert ops[h] == CreateSnapshot(u.snapshot, u.osDisk);
    ApplyAllConcat(w, ops[..h], ops[h..]);
    assert ops == ops[..h] + ops[h..];
    if ApplyAll(w, ops[..h]).Some? {
      SnapshotsGrow(w, ops[..h], u.snapshot);
    }
  }

  /** The included cleanup is guarded by the success signal of the upgrade: until that
      signal, an upgrade attempt changes no attachment, no disk and no metadata, so a
      rollback after it finds the install media and can be completed. */
  lemma CleanupWaitsForTheSignal(u: Vars, w: World, trace: seq<nat>, w': World)
    requires Attempt(PhaseSteps(u, Upgrade), w, trace, w') && 2 !in trace
    ensures w' == w.(running := w'.running)
  {
    var steps := PhaseSteps(u, Upgrade);
    SignalGuards(u, trace);
    assert forall i | 0 <= i < |trace| :: trace[i] in trace;
    OnlyStartsAndWaits(w, OpsOf(steps, trace));
  }

  lemma SignalGuards(u: Vars, trace: seq<nat>)
    requires Respects(PhaseSteps(u, Upgrade), trace)
    ensures forall i | 0 <= i < |trace| && trace[i] >= 3 :: 2 in trace
  {
    forall i | 0 <= i < |trace| && trace[i] >= 3
      ensures 2 in trace
    {
      assert 2 in PhaseSteps(u, Upgrade)[trace[i]].deps;
      assert Earlier(trace, i, 2);
    }
  }

  lemma {:induction false} OnlyStartsAndWaits(w: World, ops: seq<Op>)
    requires forall i | 0 <= i < |ops| :: ops[i] == StartInstance || ops[i] == WaitForSignal
    ensures ApplyAll(w, ops).Some?
    ensures ApplyAll(w, ops).value == w.(running := ApplyAll(w, ops).value.running)
    decreases |ops|
  {
    if ops != [] {
      OnlyStartsAndWaits(Apply(w, ops[0]).value, ops[1..]);
    }
  }

  /* What success means. */

  /** Boots from the upgraded disk, with or without the install media. */
  ghost predicate Upgraded(u: Vars, w0: World, w: World, media: bool) {
    SafeAs(u, w0, w, NewDisk, media)
  }

  ghost predicate ScriptRestored(u: Vars, metadata: map<string, string>) {
    SCRIPT_URL in metadata && metadata[SCRIPT_URL] == OriginalUrl(u)
    && SCRIPT_URL_BACKUP in metadata && metadata[SCRIPT_URL_BACKUP] == ""
  }

  /** A step of a phase other than preparation and rollback. */
  predicate Finishing(u: Vars, op: Op) {
    || op == StopInstance || op == StartInstance || op == WaitForSignal
    || op == RestoreScript(u) || op == DetachDisk(u.installDisk) || op == DeleteDisk(u.installDisk)
  }

  /** The layout after such steps: the install media stays until it is detached. */
  lemma {:induction false} FinishingOps(u: Vars, w0: World, w: World, boot: Boot, media: bool, ops: seq<Op>)
      returns (media': bool)
    requires Start(u, w0) && SafeAs(u, w0, w, boot, media) && ApplyAll(w, ops).Some?
    requires forall i | 0 <= i < |ops| :: Finishing(u, ops[i])
    ensures SafeAs(u, w0, ApplyAll(w, ops).value, boot, media')
    ensures media' <==> media && DetachDisk(u.installDisk) !in ops
    decreases |ops|
  {
    if ops == [] {
      media' := media;
    } else {
      FinishingStep(u, w0, w, boot, media, ops[0]);
      media' := FinishingOps(u, w0, Apply(w, ops[0]).value, boot, media && !ops[0].DetachDisk?, ops[1..]);
      assert ops == [ops[0]] + ops[1..];
    }
  }

  lemma {:induction false} FinishingDisk(u: Vars, w: World, ops: seq<Op>)
    requires ApplyAll(w, ops).Some? && forall i | 0 <= i < |ops| :: Finishing(u, ops[i])
    ensures u.installDisk in ApplyAll(w, ops).value.disks ==>
      u.installDisk in w.disks && DeleteDisk(u.installDisk) !in ops
    decreases |ops|
  {
    if ops != [] {
      FinishingDisk(u, Apply(w, ops[0]).value, ops[1..]);
      assert ops == [ops[0]] + ops[1..];
    }
  }

  lemma {:induction false} FinishingScript(u: Vars, w: World, ops: seq<Op>)
    requires ApplyAll(w, ops).Some? && forall i | 0 <= i < |ops| :: Finishing(u, ops[i])
    requires RestoreScript(u) in ops || ScriptRestored(u, w.metadata)
    ensures ScriptRestored(u, ApplyAll(w, ops).value.metadata)
    decreases |ops|
  {
    if ops != [] {
      if ops[0] == RestoreScript(u) || ScriptRestored(u, w.metadata) {
        FinishingMetadata(u, w, ops[0]);
      }
      assert ops == [ops[0]] + ops[1..];
      FinishingScript(u, Apply(w, ops[0]).value, ops[1..]);
    }
  }

  lemma FinishingStep(u: Vars, w0: World, w: World, boot: Boot, media: bool, op: Op)
    requires Start(u, w0) && SafeAs(u, w0, w, boot, media) && Finishing(u, op) && Apply(w, op).Some?
    ensures SafeAs(u, w0, Apply(w, op).value, boot, media && !op.DetachDisk?)
  {
    if op.DetachDisk? {
      DetachMedia(u, w0, w, boot, media);
    } else if op.DeleteDisk? {
      DeleteUnattached(u, w0, w, boot, media);
    }
  }

  lemma DetachMedia(u: Vars, w0: World, w: World, boot: Boot, media: bool)
    requires Start(u, w0) && SafeAs(u, w0, w, boot, media) && Apply(w, DetachDisk(u.installDisk)).Some?
    ensures SafeAs(u, w0, Apply(w, DetachDisk(u.installDisk)).value, boot, false)
    ensures Apply(w, DetachDisk(u.installDisk)).value.disks == w.disks
  {
    DataIsApart(u, w0);
    DetachResult(u, w0, w, u.installDisk, boot, media);
  }

  lemma DeleteUnattached(u: Vars, w0: World, w: World, boot: Boot, media: bool)
    requires Start(u, w0) && SafeAs(u, w0, w, boot, media) && Apply(w, DeleteDisk(u.installDisk)).Some?
    ensures !media && SafeAs(u, w0, Apply(w, DeleteDisk(u.installDisk)).value, boot, false)
  {
    InUse(u, w0, w, boot, media);
    DeletedMedia(u, w0, w);
  }

  lemma DeletedMedia(u: Vars, w0: World, w: World)
    requires SameDisks(u, w0, w)
    ensures SameDisks(u, w0, w.(disks := w.disks - {u.installDisk}))
  {
  }

  lemma FinishingMetadata(u: Vars, w: World, op: Op)
    requires Finishing(u, op) && Apply(w, op).Some?
    requires op == RestoreScript(u) || ScriptRestored(u, w.metadata)
    ensures ScriptRestored(u, Apply(w, op).value.metadata)
  {
    if op == RestoreScript(u) {
      RestoreRestores(u, w.metadata);
    }
  }

  lemma RestoreRestores(u: Vars, metadata: map<string, string>)
    ensures ScriptRestored(u, metadata + RestoreScript(u).entries)
  {
    KeysDiffer();
  }

  lemma FinishingPhase(u: Vars, p: Phase)
    requires p != Prepare && p != Rollback
    ensures forall k: nat | k < |PhaseSteps(u, p)| :: Finishing(u, PhaseSteps(u, p)[k].op)
  {
  }

  function CleanupOffset(p: Phase): nat {
    if p == Upgrade then 3 else if p == RetryUpgrade then 2 else 0
  }

  /** The phases that contain the cleanup steps, alone or after others. */
  predicate CleansUp(p: Phase) {
    p == Upgrade || p == RetryUpgrade || p == Cleanup
  }

  lemma IncludedSteps(u: Vars, p: Phase)
    requires CleansUp(p)
    ensures var k, steps := CleanupOffset(p), PhaseSteps(u, p);
      && |steps| == k + 4
      && steps[k].op == RestoreScript(u)
      && steps[k + 1].op == DetachDisk(u.installDisk)
      && steps[k + 2].op == DeleteDisk(u.installDisk)
      && steps[k + 3].op == StopInstance
  {
  }

  /** What a phase other than preparation and rollback leaves, wherever it stops, and what
      it leaves if it is complete and cleans up. */
  lemma FinishingAttempt(u: Vars, w0: World, p: Phase, w: World, boot: Boot, media: bool, trace: seq<nat>, w': World)
      returns (media': bool)
    requires Start(u, w0) && SafeAs(u, w0, w, boot, media) && Attempt(PhaseSteps(u, p), w, trace, w')
    requires p != Prepare && p != Rollback
    ensures SafeAs(u, w0, w', boot, media')
    ensures media' <==> media && DetachDisk(u.installDisk) !in OpsOf(PhaseSteps(u, p), trace)
    ensures Complete(PhaseSteps(u, p), trace) && CleansUp(p) ==>
      !media' && u.installDisk !in w'.disks && ScriptRestored(u, w'.metadata) && !w'.running
  {
    var steps := PhaseSteps(u, p);
    FinishingPhase(u, p);
    media' := FinishingOps(u, w0, w, boot, media, OpsOf(steps, trace));
    if Complete(steps, trace) && CleansUp(p) {
      IncludedSteps(u, p);
      StepRan(steps, trace, CleanupOffset(p));
      StepRan(steps, trace, CleanupOffset(p) + 1);
      StepRan(steps, trace, CleanupOffset(p) + 2);
      FinishingDisk(u, w, OpsOf(steps, trace));
      FinishingScript(u, w, OpsOf(steps, trace));
      var i := StopComesLast(u, p, trace);
      StopsAt(w, OpsOf(steps, trace), i);
    }
  }

  /** No start follows the stop of the included cleanup: the cleanup waits for the upgrade,
      and the upgrade for the start. */
  lemma StopComesLast(u: Vars, p: Phase, trace: seq<nat>) returns (i: nat)
    requires CleansUp(p)
    requires Respects(PhaseSteps(u, p), trace) && Complete(PhaseSteps(u, p), trace)
    ensures var ops := OpsOf(PhaseSteps(u, p), trace);
      i < |ops| && ops[i] == StopInstance && forall j | i < j < |ops| :: ops[j] != StartInstance
  {
    var steps, k := PhaseSteps(u, p), CleanupOffset(p) + 3;
    IncludedSteps(u, p);
    assert k in trace;
    i :| 0 <= i < |trace| && trace[i] == k;
    forall j | i < j < |trace|
      ensures steps[trace[j]].op != StartInstance
    {
      if p == Upgrade {
        assert 2 in steps[trace[i]].deps && Earlier(trace, i, 2);
        var m :| 0 <= m < i && trace[m] == 2;
        assert 0 in steps[trace[m]].deps && Earlier(trace, m, 0);
        assert trace[j] != 0;
      }
      OnlyStart(u, p, trace[j]);
    }
  }

  lemma OnlyStart(u: Vars, p: Phase, k: nat)
    requires CleansUp(p) && k < |PhaseSteps(u, p)|
    ensures PhaseSteps(u, p)[k].op == StartInstance <==> p == Upgrade && k == 0
  {
  }

  lemma {:induction false} StopsAt(w: World, ops: seq<Op>, i: nat)
    requires i < |ops| && ops[i] == StopInstance && ApplyAll(w, ops).Some?
    requires forall j | i < j < |ops| :: ops[j] != StartInstance
    ensures !ApplyAll(w, ops).value.running
    decreases |ops|
  {
    var next := Apply(w, ops[0]).value;
    if i == 0 {
      NeverStarts(next, ops[1..]);
    } else {
      StopsAt(next, ops[1..], i - 1);
    }
  }

  lemma {:induction false} NeverStarts(w: World, ops: seq<Op>)
    requires !w.running && ApplyAll(w, ops).Some?
    requires forall j | 0 <= j < |ops| :: ops[j] != StartInstance
    ensures !ApplyAll(w, ops).value.running
    decreases |ops|
  {
    if ops != [] {
      NeverStarts(Apply(w, ops[0]).value, ops[1..]);
    }
  }

  /** A complete reboot ends with the instance running, and changes nothing else. */
  lemma RebootRestarts(u: Vars, w: World, trace: seq<nat>, w': World)
    requires Attempt(PhaseSteps(u, Reboot), w, trace, w') && Complete(PhaseSteps(u, Reboot), trace)
    ensures w' == w.(running := true)
  {
    var steps := PhaseSteps(u, Reboot);
    assert StartsWithChain(steps, 2);
    TraceLength(steps, trace);
    ChainTrace(steps, 2, trace);
    assert trace[..2] == trace && trace == [0, 1];
    assert OpsOf(steps, trace) == [StopInstance, StartInstance];
    ApplyTwo(w, StopInstance, StartInstance);
  }

  /** From any state of a run a cleanup can run to its end if and only if the install media
      is attached. Complete, it leaves the boot disk as it is, the data disks attached as
      they were, no install media, the original script URL, and a stopped instance. */
  lemma CleanupCompletesExactlyWhen(u: Vars, w0: World, w: World, boot: Boot, media: bool)
    requires Start(u, w0) && SafeAs(u, w0, w, boot, media)
    ensures CanComplete(PhaseSteps(u, Cleanup), w) <==> media
    ensures forall trace, w' |
      Complete(PhaseSteps(u, Cleanup), trace) && Attempt(PhaseSteps(u, Cleanup), w, trace, w') ::
      && w'.attached == Layout(u, Data(w0), boot, false) && u.installDisk !in w'.disks && SameDisks(u, w0, w')
      && ScriptRestored(u, w'.metadata) && !w'.running
  {
    var steps := PhaseSteps(u, Cleanup);
    forall trace, w' | Complete(steps, trace) && Attempt(steps, w, trace, w')
      ensures media
      ensures w'.attached == Layout(u, Data(w0), boot, false) && u.installDisk !in w'.disks && SameDisks(u, w0, w')
      ensures ScriptRestored(u, w'.metadata) && !w'.running
    {
      var media' := FinishingAttempt(u, w0, Cleanup, w, boot, media, trace, w');
      IncludedSteps(u, Cleanup);
      FinishingPhase(u, Cleanup);
      StepRan(steps, trace, 1);
      DetachNeedsMedia(u, w0, w, boot, media, OpsOf(steps, trace));
    }
    if media {
      CleanupInOrder(u, w0, w, boot);
    }
  }

  lemma {:induction false} DetachNeedsMedia(u: Vars, w0: World, w: World, boot: Boot, media: bool, ops: seq<Op>)
    requires Start(u, w0) && SafeAs(u, w0, w, boot, media) && ApplyAll(w, ops).Some?
    requires forall i | 0 <= i < |ops| :: Finishing(u, ops[i])
    requires DetachDisk(u.installDisk) in ops
    ensures media
    decreases |ops|
  {
    DataIsApart(u, w0);
    DetachResult(u, w0, w, u.installDisk, boot, media);
    if ops[0] != DetachDisk(u.installDisk) {
      FinishingStep(u, w0, w, boot, media, ops[0]);
      assert ops == [ops[0]] + ops[1..];
      DetachNeedsMedia(u, w0, Apply(w, ops[0]).value, boot, media, ops[1..]);
    }
  }

  lemma CleanupInOrder(u: Vars, w0: World, w: World, boot: Boot)
    requires Start(u, w0) && SafeAs(u, w0, w, boot, true)
    ensures CanComplete(PhaseSteps(u, Cleanup), w)
  {
    var steps, trace := PhaseSteps(u, Cleanup), Upto(4);
    CleanupTrace(u);
    CleanupRuns(u, w0, w, boot);
    assert OpsOf(steps, trace) ==
      [RestoreScript(u), DetachDisk(u.installDisk)] + [DeleteDisk(u.installDisk), StopInstance];
    assert Attempt(steps, w, trace, ApplyAll(w, OpsOf(steps, trace)).value);
  }

  lemma CleanupRuns(u: Vars, w0: World, w: World, boot: Boot)
    requires Start(u, w0) && SafeAs(u, w0, w, boot, true)
    ensures ApplyAll(w, [RestoreScript(u), DetachDisk(u.installDisk)] + [DeleteDisk(u.installDisk), StopInstance]).Some?
  {
    var restore, detach, delete := RestoreScript(u), DetachDisk(u.installDisk), DeleteDisk(u.installDisk);
    var w1 := w.(metadata := w.metadata + restore.entries);
    DataIsApart(u, w0);
    DetachResult(u, w0, w1, u.installDisk, boot, true);
    ApplyTwo(w, restore, detach);
    DeleteAndStop(u, w0, Apply(w1, detach).value, boot);
    ApplyAllConcat(w, [restore, detach], [delete, StopInstance]);
  }

  lemma DeleteAndStop(u: Vars, w0: World, w: World, boot: Boot)
    requires Start(u, w0) && w.attached == Layout(u, Data(w0), boot, false) && u.installDisk in w.disks
    ensures ApplyAll(w, [DeleteDisk(u.installDisk), StopInstance]).Some?
  {
    DisksInUse(u, w0, w, boot, false);
    ApplyTwo(w, DeleteDisk(u.installDisk), StopInstance);
  }

  lemma CleanupTrace(u: Vars)
    ensures Respects(PhaseSteps(u, Cleanup), Upto(4)) && Complete(PhaseSteps(u, Cleanup), Upto(4))
  {
    var steps, trace := PhaseSteps(u, Cleanup), Upto(4);
    forall i, d: nat | 0 <= i < 4 && d in steps[i].deps
      ensures Earlier(trace, i, d)
    {
      assert d < i && trace[d] == d;
    }
    TraceLength(steps, trace);
  }

  lemma StepRan(steps: Steps, trace: seq<nat>, k: nat)
    requires Respects(steps, trace) && Complete(steps, trace) && k < |steps|
    ensures steps[k].op in OpsOf(steps, trace)
  {
    assert k in trace;
    var i :| 0 <= i < |trace| && trace[i] == k;
    assert OpsOf(steps, trace)[i] == steps[k].op;
  }

  lemma FinishingEntry(u: Vars, w0: World, e: Entry, media: bool) returns (media': bool)
    requires Start(u, w0) && Upgraded(u, w0, e.before, media) && Legal(u, e)
    requires e.phase == Upgrade || e.phase == Reboot || e.phase == RetryUpgrade
    ensures Upgraded(u, w0, e.after, media')
    ensures e.outcome.err.None? && e.phase != Reboot ==>
      !media' && u.installDisk !in e.after.disks && ScriptRestored(u, e.after.metadata) && !e.after.running
  {
    var w1 := EntryAttempts(u, e);
    media' := FinishingAttempt(u, w0, e.phase, e.before, NewDisk, media, e.outcome.first, w1);
    if e.outcome.second.Some? {
      media' := FinishingAttempt(u, w0, e.phase, w1, NewDisk, media', e.outcome.second.value, e.after);
    }
  }

  function Before(u: Vars): seq<Op> {
    PrepareHead(u) + PrepareDisks(u)[..3]
  }

  lemma {:induction false} PreparationInParts(u: Vars)
    ensures PrepareOps(u) == Before(u) + (PrepareDisks(u)[3..] + PrepareScript(u))
    ensures forall i | 0 <= i < |Before(u)| :: Allowed(u, Before(u)[i])
  {
  }

  /** Once the new boot disk and the install media have been attached. */
  lemma Mounted(u: Vars, w0: World, w: World)
    requires Start(u, w0) && Safe(u, w0, w) && ApplyAll(w, PrepareDisks(u)[3..]).Some?
    ensures Upgraded(u, w0, ApplyAll(w, PrepareDisks(u)[3..]).value, true)
  {
    var boot, media :| SafeAs(u, w0, w, boot, media);
    var ops := PrepareDisks(u)[3..];
    AttachBootResult(u, w0, w, NewBoot(u), boot, media);
    OldLayout(u, w0);
    var rest := [CreateDiskFromImage(u.installDisk), AttachDisk(InstallMedia(u))];
    assert ops == [AttachDisk(NewBoot(u))] + rest;
    ApplyAllConcat(w, [AttachDisk(NewBoot(u))], rest);
    ApplyOne(w, AttachDisk(NewBoot(u)));
    var w1 := Apply(w, AttachDisk(NewBoot(u))).value;
    assert SafeAs(u, w0, w1, NewDisk, media);
    MountedMedia(u, w0, w1, media);
  }

  lemma MountedMedia(u: Vars, w0: World, w: World, media: bool)
    requires Start(u, w0) && SafeAs(u, w0, w, NewDisk, media)
    requires ApplyAll(w, [CreateDiskFromImage(u.installDisk), AttachDisk(InstallMedia(u))]).Some?
    ensures Upgraded(u, w0, ApplyAll(w, [CreateDiskFromImage(u.installDisk), AttachDisk(InstallMedia(u))]).value, true)
  {
    ApplyTwo(w, CreateDiskFromImage(u.installDisk), AttachDisk(InstallMedia(u)));
    var w1 := Apply(w, CreateDiskFromImage(u.installDisk)).value;
    CreatedMedia(u, w0, w, media);
    AttachMediaResult(u, w0, w1, NewDisk, media);
  }

  lemma CreatedMedia(u: Vars, w0: World, w: World, media: bool)
    requires SafeAs(u, w0, w, NewDisk, media) && Apply(w, CreateDiskFromImage(u.installDisk)).Some?
    ensures SafeAs(u, w0, Apply(w, CreateDiskFromImage(u.installDisk)).value, NewDisk, media)
  {
  }

  /** A complete attempt at the preparation, from any state of the run, ends with the new
      boot disk and the install media attached. */
  lemma CompletePreparation(u: Vars, w0: World, w: World, trace: seq<nat>, w': World)
    requires Start(u, w0) && Safe(u, w0, w)
    requires Attempt(PhaseSteps(u, Prepare), w, trace, w') && Complete(PhaseSteps(u, Prepare), trace)
    ensures Upgraded(u, w0, w', true)
  {
    PrepareIsAChain(u, trace);
    assert PrepareOps(u)[..|PrepareOps(u)|] == PrepareOps(u);
    PreparationMounts(u, w0, w);
  }

  lemma PreparationMounts(u: Vars, w0: World, w: World)
    requires Start(u, w0) && Safe(u, w0, w) && ApplyAll(w, PrepareOps(u)).Some?
    ensures Upgraded(u, w0, ApplyAll(w, PrepareOps(u)).value, true)
  {
    var mount := PrepareDisks(u)[3..];
    PreparationInParts(u);
    ApplyAllConcat(w, Before(u), mount + PrepareScript(u));
    OpsAreSafe(u, w0, w, Before(u));
    var w1 := ApplyAll(w, Before(u)).value;
    ApplyAllConcat(w1, mount, PrepareScript(u));
    Mounted(u, w0, w1);
    PrepareScriptResult(u, ApplyAll(w1, mount).value);
  }

  /** A run that reports success and has not crashed: the instance boots from the upgraded
      disk, with the settings of the original attachment; the data disks are attached as
      they were; the install media is gone; the original script URL is back; of all disks
      only the upgraded one is new; and the instance is stopped. */
  lemma SuccessfulRun(g: Upgrader, w0: World, log: seq<Entry>, w: World, n: nat, readFails: bool)
    requires Start(g.u, w0) && Linked(g.u, w0, log, w)
    requires 1 <= n <= |log| && g.Ends(log, n, None, false, readFails)
    ensures w.attached == [NewBoot(g.u)] + Data(w0)
    ensures g.u.newOSDisk in w.disks && g.u.installDisk !in w.disks && SameDisks(g.u, w0, w)
    ensures ScriptRestored(g.u, w.metadata) && !w.running
  {
    assert log[..n] == log;
    var _ := UpgradedAfter(g.u, w0, log, n, g.target);
  }

  /** After the preparation has succeeded, every main phase leaves the upgraded disk booted,
      and a successful upgrade has cleaned up. */
  lemma {:induction false} UpgradedAfter(u: Vars, w0: World, log: seq<Entry>, n: nat, target: Version)
      returns (media: bool)
    requires Start(u, w0) && MainPhases(log, target) && 1 <= n <= |log| && log[0].outcome.err.None?
    requires Linked(u, w0, log[..n], log[n - 1].after)
    ensures Upgraded(u, w0, log[n - 1].after, media)
    ensures (n == 2 || n == 4) && log[n - 1].outcome.err.None? ==>
      !media && u.installDisk !in log[n - 1].after.disks && ScriptRestored(u, log[n - 1].after.metadata)
      && !log[n - 1].after.running
    decreases n
  {
    var e := log[n - 1];
    assert e.phase == MainPhase(n - 1);
    if n == 1 {
      assert log[..1][..0] == [] && log[..1][0] == e;
      PreparationEntry(u, w0, e);
      media := true;
    } else {
      LinkedStep(u, w0, log, n);
      media := UpgradedAfter(u, w0, log, n - 1, target);
      media := FinishingEntry(u, w0, e, media);
    }
  }

  lemma PreparationEntry(u: Vars, w0: World, e: Entry)
    requires Start(u, w0) && Legal(u, e) && e.phase == Prepare && e.before == w0 && e.outcome.err.None?
    ensures Upgraded(u, w0, e.after, true)
  {
    StartIsSafe(u, w0);
    var w1 := EntryAttempts(u, e);
    if e.outcome.second.Some? {
      AttemptIsSafe(u, w0, Prepare, w0, e.outcome.first, w1);
      CompletePreparation(u, w0, w1, e.outcome.second.value, e.after);
    } else {
      CompletePreparation(u, w0, w0, e.outcome.first, e.after);
    }
  }

  lemma LinkedStep(u: Vars, w0: World, log: seq<Entry>, n: nat)
    requires 2 <= n <= |log| && Linked(u, w0, log[..n], log[n - 1].after)
    ensures Linked(u, w0, log[..n - 1], log[n - 2].after) && log[n - 1].before == log[n - 2].after
    ensures Legal(u, log[n - 1])
  {
    assert log[..n][..n - 1] == log[..n - 1] && log[..n][n - 1] == log[n - 1];
    assert log[..n - 1][n - 2] == log[n - 2];
  }
}
