/** The run of an upgrade: its phases, and the cleanup or rollback after a failure. */
module Upgrader {
  import opened Text
  import opened Instance
  import opened UpgradeWorkflows

  const RESTART_NEEDED := "Windows needs to be restarted"

  predicate NeedReboot(err: string) {
    Contains(err, RESTART_NEEDED)
  }

  /** Whether the first attachment is a boot disk with the name of the new disk. */
  predicate IsNewOSDiskAttached(w: World, newOSDisk: string) {
    w.attached != [] && w.attached[0].boot && w.attached[0].source == newOSDisk
  }

  /** How a phase went: the steps that took effect, once or, if the workflow was retried,
      twice, and the error. Without an error the last attempt is complete. */
  datatype Outcome = Outcome(first: seq<nat>, second: Option<seq<nat>>, err: Option<string>)

  function AfterAttempt(steps: Steps, w: World, trace: seq<nat>): Option<World> {
    if Respects(steps, trace) then ApplyAll(w, OpsOf(steps, trace)) else None
  }

  function AfterOutcome(steps: Steps, w: World, o: Outcome): Option<World> {
    var w1 := AfterAttempt(steps, w, o.first);
    if w1.None? then None
    else if o.second.None? then
      if o.err.None? && !Complete(steps, o.first) then None else w1
    else
      if o.err.None? && !Complete(steps, o.second.value) then None
      else AfterAttempt(steps, w1.value, o.second.value)
  }

  datatype Entry = Entry(phase: Phase, before: World, outcome: Outcome, after: World)

  /** The outcome leads from one state to the other. It is said of whatever equals the steps
      of the phase, so that a proof meets the steps only where it asks for the outcome. */
  ghost predicate Legal(u: Vars, e: Entry) {
    forall steps | steps == PhaseSteps(u, e.phase) :: AfterOutcome(steps, e.before, e.outcome) == Some(e.after)
  }

  /** The entries follow each other from `w0` to `w`. */
  ghost predicate Linked(u: Vars, w0: World, log: seq<Entry>, w: World)
    decreases |log|
  {
    if log == [] then w == w0
    else
      var last := log[|log| - 1];
      Legal(u, last) && last.after == w && Linked(u, w0, log[..|log| - 1], last.before)
  }

  function MainPhase(i: nat): Phase {
    if i == 0 then Prepare else if i == 1 then Upgrade else if i == 2 then Reboot else RetryUpgrade
  }

  /** `log` shows the first phases of an upgrade: each phase is reached only if the one
      before it calls for it, and the last one calls for no other. */
  ghost predicate MainPhases(log: seq<Entry>, target: Version) {
    && 1 <= |log| <= 4
    && (forall i | 0 <= i < |log| :: log[i].phase == MainPhase(i))
    && (|log| > 1 <==> log[0].outcome.err.None?)
    && (|log| > 1 ==> (|log| > 2 <==> log[1].outcome.err.Some? && NeedReboot(log[1].outcome.err.value)))
    && (|log| > 2 ==> (|log| > 3 <==> log[2].outcome.err.None? && HasRetrySteps(target)))
  }

  /** Only one target has steps for a second attempt at the upgrade. */
  predicate HasRetrySteps(target: Version) {
    target == Windows2012r2
  }

  /** The retry has been called for, and there are no steps for it. */
  ghost predicate Crashed(log: seq<Entry>) {
    |log| == 3 && log[2].outcome.err.None?
  }

  class Upgrader {
    const u: Vars
    const target: Version
    const autoRollback: bool
    var world: World
    ghost var log: seq<Entry>

    constructor (u: Vars, target: Version, autoRollback: bool, world: World)
      ensures this.u == u && this.target == target && this.autoRollback == autoRollback
      ensures this.world == world && log == []
    {
      this.u, this.target, this.autoRollback, this.world := u, target, autoRollback, world;
      log := [];
    }

    function StepsOf(p: Phase): Steps {
      PhaseSteps(u, p)
    }

    /** Runs the workflow of one phase: any legal outcome. */
    method RunPhase(p: Phase, ghost w0: World) returns (err: Option<string>)
      requires Linked(u, w0, log, world)
      modifies this
      ensures Linked(u, w0, log, world)
      ensures |log| == |old(log)| + 1 && forall i | 0 <= i < |old(log)| :: log[i] == old(log)[i]
      ensures log[|log| - 1].phase == p && log[|log| - 1].outcome.err == err
      ensures log[|log| - 1].before == old(world)
    {
      var outcome: Outcome := *;
      if AfterOutcome(StepsOf(p), world, outcome).None? {
        outcome := Outcome([], None, Some("the workflow could not start"));
      }
      var after := AfterOutcome(StepsOf(p), world, outcome).value;
      log := log + [Entry(p, world, outcome, after)];
      world := after;
      err := outcome.err;
    }

    /** Runs the phases. The error is that of the last one. A second attempt at the upgrade
        exists only for one target version; for the others reaching it is a crash. */
    method RunMainPhases(ghost w0: World) returns (err: Option<string>, crashed: bool)
      requires log == [] && world == w0
      modifies this
      ensures Linked(u, w0, log, world)
      ensures MainPhases(log, target) && err == log[|log| - 1].outcome.err
      ensures crashed == Crashed(log)
    {
      crashed := false;
      err := RunPhase(Prepare, w0);
      if err.Some? {
        return;
      }
      err := RunPhase(Upgrade, w0);
      if err.None? || !NeedReboot(err.value) {
        return;
      }
      err := RunPhase(Reboot, w0);
      if err.Some? {
        return;
      }
      if !HasRetrySteps(target) {
        crashed := true;
        return;
      }
      err := RunPhase(RetryUpgrade, w0);
    }

    /** Runs the phases and, deferred to the end, the reaction to a failure. The reaction
        does not change the error. A crash unwinds through it with the error that the
        reboot left: none. */
    method RunUpgradeWorkflow(readFails: bool) returns (err: Option<string>, crashed: bool, ghost n: nat)
      requires log == []
      modifies this
      ensures Linked(u, old(world), log, world)
      ensures 1 <= n <= |log| && Ends(log, n, err, crashed, readFails)
    {
      ghost var w0 := world;
      err, crashed := RunMainPhases(w0);
      n := |log|;
      HandleResult(err, readFails, w0);
    }

    /** The first `n` entries are the phases of the upgrade; what follows is the reaction. */
    ghost predicate Ends(log: seq<Entry>, n: nat, err: Option<string>, crashed: bool, readFails: bool)
      requires 1 <= n <= |log|
    {
      && MainPhases(log[..n], target)
      && err == log[n - 1].outcome.err
      && crashed == Crashed(log[..n])
      && Reaction(log, n, err, readFails)
    }

    /** No reaction to success; after a failure exactly one of rollback and cleanup. */
    ghost predicate Reaction(log: seq<Entry>, n: nat, err: Option<string>, readFails: bool)
      requires 1 <= n <= |log|
    {
      if err.None? then |log| == n
      else
        && |log| == n + 1
        && log[n].phase ==
           if autoRollback && !readFails && IsNewOSDiskAttached(log[n].before, u.newOSDisk) then Rollback else Cleanup
    }

    method HandleResult(err: Option<string>, readFails: bool, ghost w0: World)
      requires log != [] && Linked(u, w0, log, world)
      modifies this
      ensures Linked(u, w0, log, world)
      ensures |log| >= |old(log)| && log[..|old(log)|] == old(log)
      ensures Reaction(log, |old(log)|, err, readFails)
    {
      if err.None? {
        return;
      }
      var isNewOSDiskAttached := !readFails && IsNewOSDiskAttached(world, u.newOSDisk);
      if autoRollback {
        if isNewOSDiskAttached {
          var _ := RunPhase(Rollback, w0);
          return;
        }
      }
      var _ := RunPhase(Cleanup, w0);
    }
  }
}
