/** The producer beside the workers. A flush offers the next part on the unbuffered channel
    and is over when a worker receives it; after the last part the channel is closed. What
    the producer adds are delays: the steps of the workers are the runs of UploadProtocol,
    all of them and no others. */
module UploadProducer {
  import opened Sequences
  import Workers = UploadProtocol

  /** Of the parts, the first `flushed` have been offered. */
  datatype Sys = Sys(flushed: nat, workers: Workers.Sys)

  datatype Action = Flush | Work(action: Workers.Action)

  function Init(parts: nat, workers: nat): Sys {
    Sys(0, Workers.Init(parts, workers))
  }

  function Received(s: Workers.Sys): int {
    s.parts - |s.pending|
  }

  predicate Enabled(s: Sys, a: Action) {
    match a
    case Flush => !s.workers.halted && s.flushed < s.workers.parts && s.flushed == Received(s.workers)
    case Work(b) =>
      && Workers.Enabled(s.workers, b)
      && (b.Receive? ==> Received(s.workers) < s.flushed)
      && (b.Leave? ==> s.flushed == s.workers.parts)
  }

  function Step(s: Sys, a: Action): Sys
    requires Enabled(s, a)
  {
    match a
    case Flush => s.(flushed := s.flushed + 1)
    case Work(b) => s.(workers := Workers.Step(s.workers, b))
  }

  ghost predicate IsRun(s: Sys, acts: seq<Action>)
    decreases |acts|
  {
    acts == [] || (Enabled(s, acts[0]) && IsRun(Step(s, acts[0]), acts[1..]))
  }

  ghost function Exec(s: Sys, acts: seq<Action>): Sys
    requires IsRun(s, acts)
    decreases |acts|
  {
    if acts == [] then s else Exec(Step(s, acts[0]), acts[1..])
  }

  /** The steps of the workers alone. */
  function WorkOf(acts: seq<Action>): seq<Workers.Action> {
    if acts == [] then []
    else (if acts[0].Work? then [acts[0].action] else []) + WorkOf(acts[1..])
  }

  /** At most one part is on the channel, and parts are received in order. */
  ghost predicate InOrder(s: Sys) {
    var received := Received(s.workers);
    && 0 <= received <= s.flushed <= received + 1 && s.flushed <= s.workers.parts
    && s.workers.pending == Upto(s.workers.parts)[received..]
  }

  lemma StepInOrder(s: Sys, a: Action)
    requires InOrder(s) && Enabled(s, a)
    ensures InOrder(Step(s, a))
  {
  }

  lemma {:induction false} RunInOrder(s: Sys, acts: seq<Action>)
    requires InOrder(s) && IsRun(s, acts)
    ensures InOrder(Exec(s, acts)) && Exec(s, acts).workers.parts == s.workers.parts
    decreases |acts|
  {
    if acts != [] {
      StepInOrder(s, acts[0]);
      RunInOrder(Step(s, acts[0]), acts[1..]);
    }
  }

  /** Without the flushes, a run is a run of the workers. */
  lemma {:induction false} WorkersRun(s: Sys, acts: seq<Action>)
    requires IsRun(s, acts)
    ensures Workers.IsRun(s.workers, WorkOf(acts))
    ensures Workers.Exec(s.workers, WorkOf(acts)) == Exec(s, acts).workers
    decreases |acts|
  {
    if acts != [] {
      WorkersRun(Step(s, acts[0]), acts[1..]);
      if acts[0].Work? {
        assert WorkOf(acts)[0] == acts[0].action && WorkOf(acts)[1..] == WorkOf(acts[1..]);
      } else {
        assert WorkOf(acts) == WorkOf(acts[1..]);
      }
    }
  }

  /** Every run of the workers is one with the producer: it offers each part just before it
      is received. */
  lemma {:induction false} ProducerKeepsUp(s: Sys, work: seq<Workers.Action>) returns (acts: seq<Action>)
    requires InOrder(s) && s.flushed == Received(s.workers) && Workers.IsRun(s.workers, work)
    ensures IsRun(s, acts) && WorkOf(acts) == work
    decreases |work|
  {
    if work == [] {
      acts := [];
    } else if work[0].Receive? {
      var offered := Step(s, Flush);
      var t := Step(offered, Work(work[0]));
      StepInOrder(s, Flush);
      StepInOrder(offered, Work(work[0]));
      var rest := ProducerKeepsUp(t, work[1..]);
      var tail := Prepend(offered, Work(work[0]), rest);
      acts := Prepend(s, Flush, tail);
    } else {
      var t := Step(s, Work(work[0]));
      StepInOrder(s, Work(work[0]));
      var rest := ProducerKeepsUp(t, work[1..]);
      acts := Prepend(s, Work(work[0]), rest);
    }
  }

  lemma Prepend(s: Sys, a: Action, rest: seq<Action>) returns (acts: seq<Action>)
    requires Enabled(s, a) && IsRun(Step(s, a), rest)
    ensures IsRun(s, acts) && Exec(s, acts) == Exec(Step(s, a), rest)
    ensures WorkOf(acts) == (if a.Work? then [a.action] else []) + WorkOf(rest)
  {
    acts := [a] + rest;
    assert acts[1..] == rest;
  }

  /** The same for whole runs: what the workers can do with a producer is exactly what they
      can do with all parts offered from the start. */
  lemma SameRunsOfWorkers(parts: nat, workers: nat, work: seq<Workers.Action>)
    ensures Workers.IsRun(Workers.Init(parts, workers), work) <==>
      exists acts :: IsRun(Init(parts, workers), acts) && WorkOf(acts) == work
  {
    var s := Init(parts, workers);
    if Workers.IsRun(s.workers, work) {
      var acts := ProducerKeepsUp(s, work);
    }
    if acts :| IsRun(s, acts) && WorkOf(acts) == work {
      WorkersRun(s, acts);
    }
  }

  function OnChannel(s: Sys, k: nat): nat {
    if Received(s.workers) <= k < s.flushed then 1 else 0
  }

  lemma {:induction false} CountFrom(n: nat, from: nat, k: nat)
    requires from <= n
    ensures Workers.Count(Upto(n)[from..], k) == if from <= k < n then 1 else 0
    decreases n - from
  {
    if from < n {
      CountFrom(n, from + 1, k);
      assert Upto(n)[from..][1..] == Upto(n)[from + 1..];
    }
  }

  /** In every reachable state a flushed part is on the channel, held by one worker, or
      finished, and in exactly one of these places; no other part is in any of them. */
  lemma FlushedPartsAreNeverLost(parts: nat, workers: nat, acts: seq<Action>, k: nat)
    requires IsRun(Init(parts, workers), acts) && k < parts
    ensures var s := Exec(Init(parts, workers), acts);
      OnChannel(s, k) + Workers.Holders(s.workers.workers, k) + Workers.Count(s.workers.finished, k) ==
        if k < s.flushed then 1 else 0
  {
    var s := Exec(Init(parts, workers), acts);
    RunInOrder(Init(parts, workers), acts);
    WorkersRun(Init(parts, workers), acts);
    Workers.PartsAreNeverLostOrDoubled(parts, workers, WorkOf(acts));
    CountFrom(parts, Received(s.workers), k);
  }

  /** Producer and workers do not wait for each other for ever: a run can be continued
      unless the process has stopped or all workers have left. */
  lemma NoDeadlock(parts: nat, workers: nat, acts: seq<Action>)
    requires IsRun(Init(parts, workers), acts)
    ensures var s := Exec(Init(parts, workers), acts);
      s.workers.halted || Workers.Waited(s.workers) || exists a :: Enabled(s, a)
  {
    var s := Exec(Init(parts, workers), acts);
    RunInOrder(Init(parts, workers), acts);
    WorkersRun(Init(parts, workers), acts);
    if !s.workers.halted && !Workers.Waited(s.workers) {
      SomebodyMoves(s);
    }
  }

  lemma SomebodyMoves(s: Sys)
    requires InOrder(s) && !s.workers.halted && !Workers.Waited(s.workers)
    ensures exists a :: Enabled(s, a)
  {
    var w: nat :| w < |s.workers.workers| && !s.workers.workers[w].Done?;
    if s.flushed == Received(s.workers) < s.workers.parts {
      assert Enabled(s, Flush);
    } else if s.workers.workers[w].Idle? {
      assert Enabled(s, Work(if s.workers.pending == [] then Workers.Leave(w) else Workers.Receive(w)));
    } else {
      var added := s.workers.workers[w].added;
      assert Enabled(s, Work(if added then Workers.Succeed(w) else Workers.AddObj(w)));
    }
  }
}
