/** The upload workers of a BufferedWriter as a step system.

    Parts are numbered in the order in which they are flushed. `pending` holds the
    parts that no worker has received, flushed or not; a part leaves `pending` at the
    moment an idle worker receives it. A run is any sequence of enabled actions, so
    every interleaving of the workers is a run. UploadProducer adds the producer and
    shows that the workers' runs stay the same. */
module UploadProtocol {
  import opened Sequences

  /** An attempt numbered above this one ends the process when it fails. */
  const MAX_RETRIED: nat := 16

  datatype Worker =
    | Idle
    // `failures` attempts have failed; `added` says whether the current attempt has
    // already recorded the object's name.
    | Holding(part: nat, failures: nat, added: bool)
    | Done

  datatype Sys = Sys(
    parts: nat,
    pending: seq<nat>,
    workers: seq<Worker>,
    finished: seq<nat>,
    tmpObjs: seq<nat>,
    stored: set<nat>,
    // One entry for every attempt that failed after recording its name.
    late: multiset<nat>,
    halted: bool
  )

  datatype Action =
    | Receive(w: nat)
    | FailEarly(w: nat)
    | AddObj(w: nat)
    // The failing close of the object may or may not have committed the object.
    | FailLate(w: nat, committed: bool)
    | Succeed(w: nat)
    // A permission error ends the process at once.
    | Deny(w: nat)
    // The channel is closed and drained.
    | Leave(w: nat)

  function Init(parts: nat, workers: nat): Sys {
    Sys(parts, Upto(parts), seq(workers, _ => Idle), [], [], {}, multiset{}, false)
  }

  predicate Enabled(s: Sys, a: Action) {
    && !s.halted
    && a.w < |s.workers|
    && var worker := s.workers[a.w];
       match a
       case Receive(_) => worker.Idle? && s.pending != []
       case FailEarly(_) => worker.Holding? && !worker.added
       case AddObj(_) => worker.Holding? && !worker.added
       case FailLate(_, _) => worker.Holding? && worker.added
       case Succeed(_) => worker.Holding? && worker.added
       case Deny(_) => worker.Holding?
       case Leave(_) => worker.Idle? && s.pending == []
  }

  function Step(s: Sys, a: Action): Sys
    requires Enabled(s, a)
  {
    var worker := s.workers[a.w];
    match a
    case Receive(w) =>
      s.(workers := s.workers[w := Holding(s.pending[0], 0, false)], pending := s.pending[1..])
    case FailEarly(w) =>
      s.(workers := s.workers[w := worker.(failures := worker.failures + 1)],
         halted := worker.failures + 1 > MAX_RETRIED)
    case AddObj(w) =>
      s.(workers := s.workers[w := worker.(added := true)], tmpObjs := s.tmpObjs + [worker.part])
    case FailLate(w, committed) =>
      s.(workers := s.workers[w := worker.(failures := worker.failures + 1, added := false)],
         stored := if committed then s.stored + {worker.part} else s.stored,
         late := s.late + multiset{worker.part},
         halted := worker.failures + 1 > MAX_RETRIED)
    case Succeed(w) =>
      s.(workers := s.workers[w := Idle], finished := s.finished + [worker.part], stored := s.stored + {worker.part})
    case Deny(w) =>
      s.(halted := true)
    case Leave(w) =>
      s.(workers := s.workers[w := Done])
  }

  ghost predicate IsRun(s: Sys, acts: seq<Action>)
    decreases |acts|
  {
    acts == [] || (Enabled(s, acts[0]) && IsRun(Step(s, acts[0]), acts[1..]))
  }

  function Exec(s: Sys, acts: seq<Action>): Sys
    requires IsRun(s, acts)
    decreases |acts|
  {
    if acts == [] then s else Exec(Step(s, acts[0]), acts[1..])
  }

  /** The wait group is down to zero: every worker has left its loop. */
  predicate Waited(s: Sys) {
    !s.halted && forall w | 0 <= w < |s.workers| :: s.workers[w].Done?
  }

  /* Where part `k` is. */

  function Count(s: seq<nat>, k: nat): nat {
    if s == [] then 0 else (if s[0] == k then 1 else 0) + Count(s[1..], k)
  }

  function Holds(w: Worker, k: nat): nat {
    if w.Holding? && w.part == k then 1 else 0
  }

  function Adds(w: Worker, k: nat): nat {
    if w.Holding? && w.added && w.part == k then 1 else 0
  }

  /** How many workers hold part `k`. */
  function Holders(ws: seq<Worker>, k: nat): nat {
    if ws == [] then 0 else Holds(ws[0], k) + Holders(ws[1..], k)
  }

  /** How many workers are past the recording of part `k` in their current attempt. */
  function Adders(ws: seq<Worker>, k: nat): nat {
    if ws == [] then 0 else Adds(ws[0], k) + Adders(ws[1..], k)
  }

  lemma {:induction false} CountAppend(s: seq<nat>, x: nat, k: nat)
    ensures Count(s + [x], k) == Count(s, k) + if x == k then 1 else 0
  {
    if s == [] {
      assert s + [x] == [x];
    } else {
      CountAppend(s[1..], x, k);
      assert (s + [x])[1..] == s[1..] + [x];
    }
  }

  lemma {:induction false} CountIn(s: seq<nat>, k: nat)
    ensures Count(s, k) > 0 <==> k in s
  {
    if s != [] {
      CountIn(s[1..], k);
    }
  }

  lemma {:induction false} CountUpto(n: nat, k: nat)
    ensures Count(Upto(n), k) == if k < n then 1 else 0
  {
    if n > 0 {
      CountUpto(n - 1, k);
      CountAppend(Upto(n - 1), n - 1, k);
      assert Upto(n) == Upto(n - 1) + [n - 1];
    }
  }

  lemma {:induction false} HoldersUpdate(ws: seq<Worker>, i: nat, w: Worker, k: nat)
    requires i < |ws|
    ensures Holders(ws[i := w], k) == Holders(ws, k) - Holds(ws[i], k) + Holds(w, k)
    ensures Adders(ws[i := w], k) == Adders(ws, k) - Adds(ws[i], k) + Adds(w, k)
  {
    if i == 0 {
      assert ws[i := w][1..] == ws[1..];
    } else {
      HoldersUpdate(ws[1..], i - 1, w, k);
      assert ws[i := w][1..] == ws[1..][i - 1 := w];
    }
  }

  lemma {:induction false} HoldersBound(ws: seq<Worker>, k: nat)
    ensures Adders(ws, k) <= Holders(ws, k)
    ensures forall i | 0 <= i < |ws| :: Holds(ws[i], k) <= Holders(ws, k)
    ensures (forall i | 0 <= i < |ws| :: !ws[i].Holding?) ==> Holders(ws, k) == 0
  {
    if ws != [] {
      HoldersBound(ws[1..], k);
      forall i | 0 < i < |ws|
        ensures Holds(ws[i], k) <= Holders(ws, k)
      {
        assert ws[i] == ws[1..][i - 1];
      }
    }
  }

  /** Part `k` is waiting, held by one worker, or finished, and in exactly one of these
      places; its name was recorded by its finished attempt, its current one, and by the
      attempts that failed late. Only parts are stored. */
  ghost predicate PartInv(s: Sys, k: nat) {
    && Count(s.pending, k) + Holders(s.workers, k) + Count(s.finished, k) == (if k < s.parts then 1 else 0)
    && Count(s.tmpObjs, k) == Count(s.finished, k) + Adders(s.workers, k) + s.late[k]
    && (s.late[k] > 0 ==> k < s.parts)
    && (Count(s.finished, k) > 0 ==> k in s.stored)
    && (k in s.stored ==> k < s.parts)
  }

  ghost predicate WorkerInv(s: Sys) {
    forall w | 0 <= w < |s.workers| ::
      && (s.workers[w].Holding? ==>
            s.workers[w].failures <= MAX_RETRIED + 1 && (s.workers[w].failures > MAX_RETRIED ==> s.halted))
      && (s.workers[w].Done? ==> s.pending == [])
  }

  ghost predicate Inv(s: Sys) {
    WorkerInv(s) && forall k: nat :: PartInv(s, k)
  }

  lemma InitInv(parts: nat, workers: nat)
    ensures Inv(Init(parts, workers))
  {
    var s := Init(parts, workers);
    forall k: nat
      ensures PartInv(s, k)
    {
      HoldersBound(s.workers, k);
      CountUpto(parts, k);
    }
  }

  lemma StepPartInv(s: Sys, a: Action, k: nat)
    requires PartInv(s, k) && Enabled(s, a)
    ensures PartInv(Step(s, a), k)
  {
    var t := Step(s, a);
    HoldersUpdate(s.workers, a.w, t.workers[a.w], k);
    HoldersBound(s.workers, k);
    assert t.workers == s.workers[a.w := t.workers[a.w]];
    match a {
      case AddObj(w) => CountAppend(s.tmpObjs, s.workers[w].part, k);
      case Succeed(w) => CountAppend(s.finished, s.workers[w].part, k);
      case _ =>
    }
  }

  lemma StepInv(s: Sys, a: Action)
    requires Inv(s) && Enabled(s, a)
    ensures Inv(Step(s, a))
  {
    forall k: nat
      ensures PartInv(Step(s, a), k)
    {
      StepPartInv(s, a, k);
    }
  }

  lemma {:induction false} RunInv(s: Sys, acts: seq<Action>)
    requires Inv(s) && IsRun(s, acts)
    ensures Inv(Exec(s, acts))
    ensures Exec(s, acts).parts == s.parts && |Exec(s, acts).workers| == |s.workers|
    decreases |acts|
  {
    if acts != [] {
      StepInv(s, acts[0]);
      RunInv(Step(s, acts[0]), acts[1..]);
    }
  }

  /** In every reachable state a part is in exactly one place, and no part has seen more
      than 17 failed attempts; the 17th stops the process. */
  lemma PartsAreNeverLostOrDoubled(parts: nat, workers: nat, acts: seq<Action>)
    requires IsRun(Init(parts, workers), acts)
    ensures var s := Exec(Init(parts, workers), acts);
      && (forall k: nat | k < parts :: Count(s.pending, k) + Holders(s.workers, k) + Count(s.finished, k) == 1)
      && (forall w | 0 <= w < |s.workers| && s.workers[w].Holding? ::
            s.workers[w].failures <= 17 && (s.workers[w].failures == 17 ==> s.halted))
  {
    InitInv(parts, workers);
    RunInv(Init(parts, workers), acts);
    var s := Exec(Init(parts, workers), acts);
    forall k: nat | k < parts
      ensures Count(s.pending, k) + Holders(s.workers, k) + Count(s.finished, k) == 1
    {
      assert PartInv(s, k);
    }
  }

  lemma {:induction false} CountNoRepeats(s: seq<nat>)
    ensures NoRepeats(s) <==> forall k: nat :: Count(s, k) <= 1
  {
    if s != [] {
      CountNoRepeats(s[1..]);
      forall k: nat
        ensures Count(s[1..], k) > 0 <==> k in s[1..]
      {
        CountIn(s[1..], k);
      }
      if s[0] in s[1..] {
        assert Count(s, s[0]) > 1;
      } else if !NoRepeats(s[1..]) {
        var k: nat :| Count(s[1..], k) > 1;
        assert Count(s, k) > 1;
      } else {
        forall i, j | 0 <= i < j < |s|
          ensures s[i] != s[j]
        {
          assert s[j] == s[1..][j - 1];
          assert i > 0 ==> s[i] == s[1..][i - 1];
        }
        forall k: nat
          ensures Count(s, k) <= 1
        {
          assert Count(s[1..], k) <= 1;
        }
      }
    }
  }

  /** When the wait returns, every part is stored, and the recorded names are exactly the
      parts, each once, plus one repetition for every attempt that failed after recording
      its name. So a name is repeated if and only if there was such an attempt. */
  lemma WaitedRun(parts: nat, workers: nat, acts: seq<Action>)
    requires workers >= 1 && IsRun(Init(parts, workers), acts)
    requires Waited(Exec(Init(parts, workers), acts))
    ensures var s := Exec(Init(parts, workers), acts);
      && s.pending == []
      && (forall k: nat | k < parts :: k in s.stored)
      && (forall k: nat :: Count(s.tmpObjs, k) == if k < parts then 1 + s.late[k] else 0)
      && (s.late == multiset{} <==> NoRepeats(s.tmpObjs))
  {
    InitInv(parts, workers);
    RunInv(Init(parts, workers), acts);
    var s := Exec(Init(parts, workers), acts);
    assert s.workers[0].Done?;
    forall k: nat
      ensures Count(s.tmpObjs, k) == if k < parts then 1 + s.late[k] else 0
      ensures k < parts ==> k in s.stored
    {
      assert PartInv(s, k);
      HoldersBound(s.workers, k);
    }
    CountNoRepeats(s.tmpObjs);
    if s.late != multiset{} {
      var k: nat :| k in s.late;
      assert PartInv(s, k);
      assert Count(s.tmpObjs, k) > 1;
    }
  }

  /* Every run is finite, and only a stopped process or a completed wait ends it. */

  function WorkerBudget(w: Worker): int {
    match w
    case Idle => 1
    case Holding(_, failures, added) => 2 * (MAX_RETRIED + 2 - failures) - if added then 1 else 0
    case Done => 0
  }

  function WorkersBudget(ws: seq<Worker>): int {
    if ws == [] then 0 else WorkerBudget(ws[0]) + WorkersBudget(ws[1..])
  }

  function Budget(s: Sys): int {
    2 * (MAX_RETRIED + 2) * |s.pending| + WorkersBudget(s.workers) + if s.halted then 0 else 1
  }

  lemma {:induction false} BudgetUpdate(ws: seq<Worker>, i: nat, w: Worker)
    requires i < |ws|
    ensures WorkersBudget(ws[i := w]) == WorkersBudget(ws) - WorkerBudget(ws[i]) + WorkerBudget(w)
  {
    if i == 0 {
      assert ws[i := w][1..] == ws[1..];
    } else {
      BudgetUpdate(ws[1..], i - 1, w);
      assert ws[i := w][1..] == ws[1..][i - 1 := w];
    }
  }

  lemma {:induction false} BudgetIsPositive(ws: seq<Worker>)
    requires forall w | 0 <= w < |ws| && ws[w].Holding? :: ws[w].failures <= MAX_RETRIED + 1
    ensures WorkersBudget(ws) >= 0
    ensures (forall w | 0 <= w < |ws| :: ws[w].Idle?) ==> WorkersBudget(ws) == |ws|
  {
    if ws != [] {
      BudgetIsPositive(ws[1..]);
    }
  }

  lemma {:induction false} RunUsesBudget(s: Sys, acts: seq<Action>)
    requires Inv(s) && IsRun(s, acts)
    ensures |acts| <= Budget(s)
    decreases |acts|
  {
    if acts == [] {
      BudgetIsPositive(s.workers);
    } else {
      var t := Step(s, acts[0]);
      BudgetUpdate(s.workers, acts[0].w, t.workers[acts[0].w]);
      StepInv(s, acts[0]);
      RunUsesBudget(t, acts[1..]);
    }
  }

  /** No run of n parts and W workers has more than 36n + W + 1 steps, and a run can be
      continued unless the process has stopped or the wait has returned: there is no
      deadlock and no endless retrying. */
  lemma RunsEndStoppedOrWaited(parts: nat, workers: nat, acts: seq<Action>)
    requires IsRun(Init(parts, workers), acts)
    ensures |acts| <= 36 * parts + workers + 1
    ensures var s := Exec(Init(parts, workers), acts);
      s.halted || Waited(s) || exists a :: Enabled(s, a)
  {
    InitInv(parts, workers);
    RunUsesBudget(Init(parts, workers), acts);
    BudgetIsPositive(Init(parts, workers).workers);
    var s := Exec(Init(parts, workers), acts);
    if !s.halted && !Waited(s) {
      var w: nat :| w < |s.workers| && !s.workers[w].Done?;
      match s.workers[w] {
        case Idle => assert Enabled(s, if s.pending == [] then Leave(w) else Receive(w));
        case Holding(_, _, added) => assert Enabled(s, if added then Succeed(w) else AddObj(w));
      }
    }
  }
}
