/** When does the order in which workers record names equal the order of the parts? */
module UploadOrder {
  import opened ObjectStore
  import opened Sequences
  import opened UploadProtocol

  ghost predicate InRange(files: seq<Bytes>, order: seq<nat>) {
    forall i | 0 <= i < |order| :: order[i] < |files|
  }

  /** The bytes of the listed parts, one part after the other. */
  function Payload(files: seq<Bytes>, order: seq<nat>): Bytes
    requires InRange(files, order)
  {
    if order == [] then [] else files[order[0]] + Payload(files, order[1..])
  }

  lemma {:induction false} PayloadAppend(files: seq<Bytes>, a: seq<nat>, b: seq<nat>)
    requires InRange(files, a) && InRange(files, b)
    ensures InRange(files, a + b)
    ensures Payload(files, a + b) == Payload(files, a) + Payload(files, b)
  {
    if a == [] {
      assert a + b == b;
    } else {
      assert (a + b)[0] == a[0] && (a + b)[1..] == a[1..] + b;
      PayloadAppend(files, a[1..], b);
      calc {
        Payload(files, a + b);
        files[a[0]] + Payload(files, a[1..] + b);
        files[a[0]] + (Payload(files, a[1..]) + Payload(files, b));
        Payload(files, a) + Payload(files, b);
      }
    }
  }

  /* One worker keeps the order. */

  ghost predicate Ordered(s: Sys) {
    && |s.workers| == 1
    && |s.finished| <= s.parts
    && var f := |s.finished|;
       match s.workers[0]
       case Holding(part, _, added) =>
         part == f < s.parts && s.pending == Upto(s.parts)[f + 1..] && s.tmpObjs == Upto(if added then f + 1 else f)
       case _ => s.pending == Upto(s.parts)[f..] && s.tmpObjs == Upto(f)
  }

  lemma {:induction false} SingleWorkerRun(s: Sys, acts: seq<Action>)
    requires s.late == multiset{} ==> Ordered(s)
    requires IsRun(s, acts)
    ensures Exec(s, acts).late == multiset{} ==> Ordered(Exec(s, acts))
    decreases |acts|
  {
    if acts != [] {
      var t := Step(s, acts[0]);
      if acts[0].FailLate? {
        assert s.workers[acts[0].w].part in t.late;
      } else if s.late == multiset{} && acts[0].AddObj? {
        assert t.tmpObjs == Upto(|s.finished| + 1);
      }
      assert t.late == multiset{} ==> Ordered(t);
      SingleWorkerRun(t, acts[1..]);
    }
  }

  /* Parts that commute may be recorded in any order. */

  ghost predicate Interchangeable(f: Bytes, g: Bytes) {
    f + g == g + f
  }

  ghost predicate Commute(files: seq<Bytes>) {
    forall i, j | 0 <= i < j < |files| :: Interchangeable(files[i], files[j])
  }

  lemma {:induction false} CommuteWord(f: Bytes, files: seq<Bytes>, order: seq<nat>)
    requires InRange(files, order)
    requires forall i | 0 <= i < |order| :: Interchangeable(files[order[i]], f)
    ensures f + Payload(files, order) == Payload(files, order) + f
  {
    if order != [] {
      var g, rest := files[order[0]], Payload(files, order[1..]);
      CommuteWord(f, files, order[1..]);
      calc {
        f + (g + rest);
        (f + g) + rest;
        (g + f) + rest;
        g + (f + rest);
        g + (rest + f);
        (g + rest) + f;
      }
    }
  }

  lemma {:induction false} CountConcat(a: seq<nat>, b: seq<nat>, k: nat)
    ensures Count(a + b, k) == Count(a, k) + Count(b, k)
  {
    if a == [] {
      assert a + b == b;
    } else {
      CountConcat(a[1..], b, k);
      assert (a + b)[1..] == a[1..] + b;
    }
  }

  ghost predicate Permutes(n: nat, order: seq<nat>) {
    forall k: nat :: Count(order, k) == if k < n then 1 else 0
  }

  lemma PermutationIsInRange(n: nat, order: seq<nat>)
    requires forall k: nat | k >= n :: Count(order, k) == 0
    ensures forall i | 0 <= i < |order| :: order[i] < n
  {
    forall i | 0 <= i < |order|
      ensures order[i] < n
    {
      CountIn(order, order[i]);
    }
  }

  /** The largest part sits somewhere, and the others are a permutation without it. */
  lemma SplitAtLargest(n: nat, order: seq<nat>) returns (a: seq<nat>, b: seq<nat>)
    requires n > 0 && Permutes(n, order)
    ensures order == a + ([n - 1] + b) && Permutes(n - 1, a + b)
  {
    CountIn(order, n - 1);
    var p :| 0 <= p < |order| && order[p] == n - 1;
    a, b := order[..p], order[p + 1..];
    assert order == a + ([n - 1] + b);
    forall k: nat
      ensures Count(a + b, k) == if k < n - 1 then 1 else 0
    {
      CountWithout(a, n - 1, b, k);
    }
  }

  lemma {:induction false} PermutationLength(n: nat, order: seq<nat>)
    requires Permutes(n, order)
    ensures |order| == n
  {
    if n == 0 {
      if order != [] {
        CountIn(order, order[0]);
      }
    } else {
      var a, b := SplitAtLargest(n, order);
      PermutationLength(n - 1, a + b);
    }
  }

  lemma CountWithout(a: seq<nat>, x: nat, b: seq<nat>, k: nat)
    ensures Count(a + ([x] + b), k) == Count(a + b, k) + if x == k then 1 else 0
  {
    CountConcat(a, b, k);
    CountConcat(a, [x] + b, k);
    assert ([x] + b)[1..] == b;
  }

  lemma {:induction false} AnyOrderOfCommutingParts(files: seq<Bytes>, n: nat, order: seq<nat>)
    requires n <= |files| && Commute(files) && Permutes(n, order)
    ensures InRange(files, order) && Payload(files, order) == Payload(files, Upto(n))
  {
    if n == 0 {
      if order != [] {
        CountIn(order, order[0]);
      }
    } else {
      PermutationIsInRange(n, order);
      var a, b := SplitAtLargest(n, order);
      PermutationIsInRange(n - 1, a + b);
      RangeSplits(n - 1, a, b);
      AnyOrderOfCommutingParts(files, n - 1, a + b);
      MoveToEnd(files, n - 1, a, b);
      PayloadAppend(files, Upto(n - 1), [n - 1]);
      assert Upto(n) == Upto(n - 1) + [n - 1];
    }
  }

  lemma RangeSplits(n: nat, a: seq<nat>, b: seq<nat>)
    requires forall i | 0 <= i < |a + b| :: (a + b)[i] < n
    ensures forall i | 0 <= i < |a| :: a[i] < n
    ensures forall i | 0 <= i < |b| :: b[i] < n
  {
    assert forall i | 0 <= i < |a| :: (a + b)[i] == a[i];
    assert forall i | 0 <= i < |b| :: (a + b)[|a| + i] == b[i];
  }

  lemma MoveToEnd(files: seq<Bytes>, k: nat, a: seq<nat>, b: seq<nat>)
    requires k < |files| && InRange(files, a) && InRange(files, b)
    requires forall i | 0 <= i < |b| :: Interchangeable(files[b[i]], files[k])
    ensures InRange(files, a + ([k] + b)) && InRange(files, a + b)
    ensures Payload(files, a + ([k] + b)) == Payload(files, a + b) + Payload(files, [k])
  {
    PayloadAppend(files, [k], b);
    PayloadAppend(files, a, [k] + b);
    PayloadAppend(files, a, b);
    SinglePayload(files, k);
    CommuteWord(files[k], files, b);
    Reassociate(Payload(files, a), files[k], Payload(files, b));
  }

  lemma SinglePayload(files: seq<Bytes>, k: nat)
    requires k < |files|
    ensures Payload(files, [k]) == files[k]
  {
    assert files[k] + [] == files[k];
  }

  lemma Reassociate(a: Bytes, f: Bytes, b: Bytes)
    requires f + b == b + f
    ensures a + (f + b) == a + b + f
  {
    assert a + (b + f) == a + b + f;
  }

  /* Two workers can let any part be overtaken by the parts that follow it. */

  lemma {:induction false} RunConcat(s: Sys, a: seq<Action>, b: seq<Action>)
    requires IsRun(s, a) && IsRun(Exec(s, a), b)
    ensures IsRun(s, a + b) && Exec(s, a + b) == Exec(Exec(s, a), b)
    decreases |a|
  {
    if a == [] {
      assert a + b == b;
    } else {
      RunConcat(Step(s, a[0]), a[1..], b);
      assert (a + b)[0] == a[0] && (a + b)[1..] == a[1..] + b;
    }
  }

  ghost predicate Reaches(s: Sys, t: Sys) {
    exists acts :: IsRun(s, acts) && Exec(s, acts) == t
  }

  lemma ReachesStep(s: Sys, a: Action, t: Sys)
    requires Enabled(s, a) && Reaches(Step(s, a), t)
    ensures Reaches(s, t)
  {
    var acts :| IsRun(Step(s, a), acts) && Exec(Step(s, a), acts) == t;
    assert ([a] + acts)[1..] == acts;
    assert IsRun(s, [a] + acts);
  }

  lemma ReachesSelf(s: Sys)
    ensures Reaches(s, s)
  {
    assert IsRun(s, []);
  }

  lemma ReachesTrans(s: Sys, t: Sys, u: Sys)
    requires Reaches(s, t) && Reaches(t, u)
    ensures Reaches(s, u)
  {
    var a :| IsRun(s, a) && Exec(s, a) == t;
    var b :| IsRun(t, b) && Exec(t, b) == u;
    RunConcat(s, a, b);
  }

  /** `t` is a state reached from `s` without failures: the next `m` parts have left the
      channel, `names` have been recorded, and every worker is where it was. */
  ghost predicate Serves(s: Sys, t: Sys, m: nat, names: seq<nat>)
    requires m <= |s.pending|
  {
    && Reaches(s, t)
    && t.pending == s.pending[m..]
    && t.tmpObjs == s.tmpObjs + names
    && t.workers == s.workers && t.late == s.late && t.halted == s.halted
  }

  lemma ServeOne(s: Sys, w: nat) returns (t: Sys)
    requires !s.halted && w < |s.workers| && s.workers[w].Idle? && s.pending != []
    ensures Serves(s, t, 1, s.pending[..1])
  {
    var s1 := Step(s, Receive(w));
    var s2 := Step(s1, AddObj(w));
    t := Step(s2, Succeed(w));
    assert t.workers == s.workers;
    ReachesSelf(t);
    ReachesStep(s2, Succeed(w), t);
    ReachesStep(s1, AddObj(w), t);
    ReachesStep(s, Receive(w), t);
  }

  lemma {:induction false} ServeNext(s: Sys, w: nat, m: nat) returns (t: Sys)
    requires !s.halted && w < |s.workers| && s.workers[w].Idle? && m <= |s.pending|
    ensures Serves(s, t, m, s.pending[..m])
    decreases m
  {
    if m == 0 {
      t := s;
      ReachesSelf(s);
    } else {
      var s1 := ServeOne(s, w);
      t := ServeNext(s1, w, m - 1);
      ReachesTrans(s, s1, t);
      assert s.pending[..m] == s.pending[..1] + s1.pending[..m - 1];
    }
  }

  /** Worker 0 takes a part, worker 1 serves the next `m`, then worker 0 finishes. */
  lemma Overtake(s: Sys, m: nat) returns (t: Sys)
    requires !s.halted && |s.workers| >= 2 && s.workers[0].Idle? && s.workers[1].Idle?
    requires m + 1 <= |s.pending|
    ensures Serves(s, t, m + 1, s.pending[1..m + 1] + [s.pending[0]])
  {
    var s1 := Step(s, Receive(0));
    var s2 := ServeNext(s1, 1, m);
    var s3 := Step(s2, AddObj(0));
    t := Step(s3, Succeed(0));
    assert t.workers == s.workers;
    assert s1.pending[..m] == s.pending[1..m + 1];
    ReachesSelf(t);
    ReachesStep(s3, Succeed(0), t);
    ReachesStep(s2, AddObj(0), t);
    ReachesTrans(s1, s2, t);
    ReachesStep(s, Receive(0), t);
  }

  lemma {:induction false} AllLeave(s: Sys, from: nat) returns (t: Sys)
    requires !s.halted && s.pending == [] && from <= |s.workers|
    requires forall w | 0 <= w < from :: s.workers[w].Done?
    requires forall w | from <= w < |s.workers| :: s.workers[w].Idle?
    ensures Reaches(s, t) && Waited(t) && t.tmpObjs == s.tmpObjs && t.late == s.late
    decreases |s.workers| - from
  {
    if from == |s.workers| {
      t := s;
      ReachesSelf(s);
    } else {
      t := AllLeave(Step(s, Leave(from)), from + 1);
      ReachesStep(s, Leave(from), t);
    }
  }

  /** The order in which part `i` is recorded after part `j`. */
  ghost function Overtaken(n: nat, i: nat, j: nat): seq<nat>
    requires i < j < n
  {
    Upto(n)[..i] + (Upto(n)[i + 1..j + 1] + [i]) + Upto(n)[j + 1..]
  }

  /** A failure-free run with two or more workers that records part `i` after part `j`. */
  lemma OvertakingRun(n: nat, workers: nat, i: nat, j: nat) returns (acts: seq<Action>)
    requires workers >= 2 && i < j < n
    ensures IsRun(Init(n, workers), acts)
    ensures var s := Exec(Init(n, workers), acts);
      Waited(s) && s.late == multiset{} && s.tmpObjs == Overtaken(n, i, j)
  {
    var s0 := Init(n, workers);
    var s3 := OvertakingService(n, workers, i, j);
    var s4 := AllLeave(s3, 0);
    ReachesTrans(s0, s3, s4);
    acts :| IsRun(s0, acts) && Exec(s0, acts) == s4;
  }

  lemma ServesTrans(s: Sys, t: Sys, u: Sys, m: nat, k: nat, a: seq<nat>, b: seq<nat>)
    requires m + k <= |s.pending| && Serves(s, t, m, a) && Serves(t, u, k, b)
    ensures Serves(s, u, m + k, a + b)
  {
    ReachesTrans(s, t, u);
  }

  lemma OvertakingHead(n: nat, workers: nat, i: nat, j: nat) returns (t: Sys)
    requires workers >= 2 && i < j < n
    ensures Serves(Init(n, workers), t, j + 1, Upto(n)[..i] + (Upto(n)[i + 1..j + 1] + [i]))
  {
    var s0 := Init(n, workers);
    var s1 := ServeNext(s0, 0, i);
    t := Overtake(s1, j - i);
    Subslice(Upto(n), i, 1, j - i + 1);
    assert s1.pending[0] == i;
    ServesTrans(s0, s1, t, i, j - i + 1, Upto(n)[..i], Upto(n)[i + 1..j + 1] + [i]);
  }

  lemma OvertakingService(n: nat, workers: nat, i: nat, j: nat) returns (t: Sys)
    requires workers >= 2 && i < j < n
    ensures Serves(Init(n, workers), t, n, Overtaken(n, i, j))
  {
    var head := Upto(n)[..i] + (Upto(n)[i + 1..j + 1] + [i]);
    var s := OvertakingHead(n, workers, i, j);
    t := ServeNext(s, 0, n - j - 1);
    Subslice(Upto(n), j + 1, 0, n - j - 1);
    ServesTrans(Init(n, workers), s, t, j + 1, n - j - 1, head, Upto(n)[j + 1..]);
  }

  /** A worker takes a part and succeeds in the second attempt, after the first one has
      failed late. */
  lemma ServeLate(s: Sys, w: nat, committed: bool) returns (t: Sys)
    requires !s.halted && w < |s.workers| && s.workers[w].Idle? && s.pending != []
    ensures Reaches(s, t)
    ensures t.pending == s.pending[1..] && t.workers == s.workers && !t.halted
    ensures t.late == s.late + multiset{s.pending[0]}
  {
    var s1 := Step(s, Receive(w));
    var s2 := Step(s1, AddObj(w));
    var s3 := Step(s2, FailLate(w, committed));
    var s4 := Step(s3, AddObj(w));
    t := Step(s4, Succeed(w));
    assert t.workers == s.workers;
    ReachesSelf(t);
    ReachesStep(s4, Succeed(w), t);
    ReachesStep(s3, AddObj(w), t);
    ReachesStep(s2, FailLate(w, committed), t);
    ReachesStep(s1, AddObj(w), t);
    ReachesStep(s, Receive(w), t);
  }

  /** Any one part can have a late failure in a run whose wait returns: its retry succeeds.
      The composition then meets its name twice. */
  lemma LateFailureIsPossible(n: nat, workers: nat, k: nat, committed: bool) returns (acts: seq<Action>)
    requires workers >= 1 && k < n
    ensures IsRun(Init(n, workers), acts) && Waited(Exec(Init(n, workers), acts))
    ensures Exec(Init(n, workers), acts).late == multiset{k}
  {
    var s0 := Init(n, workers);
    var s1 := ServeNext(s0, 0, k);
    var s2 := ServeLate(s1, 0, committed);
    var s3 := ServeNext(s2, 0, n - k - 1);
    var s4 := AllLeave(s3, 0);
    ReachesTrans(s2, s3, s4);
    ReachesTrans(s1, s2, s4);
    ReachesTrans(s0, s1, s4);
    acts :| IsRun(s0, acts) && Exec(s0, acts) == s4;
  }

  /** Every run that ends without a late failure records names in an order that
      reproduces the bytes in part order. */
  ghost predicate OrderGuaranteed(files: seq<Bytes>, workers: nat) {
    forall acts | IsRun(Init(|files|, workers), acts) ::
      var s := Exec(Init(|files|, workers), acts);
      Waited(s) && s.late == multiset{} ==>
        InRange(files, s.tmpObjs) && Payload(files, s.tmpObjs) == Payload(files, Upto(|files|))
  }

  lemma Cancel(a: Bytes, x: Bytes, y: Bytes, d: Bytes)
    requires a + x + d == a + y + d && |x| == |y|
    ensures x == y
  {
    assert x == (a + x + d)[|a|..|a| + |x|];
    assert y == (a + y + d)[|a|..|a| + |y|];
  }

  lemma OvertakenAlgebra(x: Bytes, f: Bytes, g: Bytes)
    requires f + x == x + f
    requires f + (x + g) == (x + g) + f
    ensures f + g == g + f
  {
    assert f + (x + g) == x + (f + g) by {
      assert f + (x + g) == (f + x) + g;
      assert (x + f) + g == x + (f + g);
    }
    assert (x + g) + f == x + (g + f);
    assert f + g == (x + (f + g))[|x|..];
    assert g + f == (x + (g + f))[|x|..];
  }

  lemma MovedPayloads(files: seq<Bytes>, a: seq<nat>, k: nat, m: seq<nat>, d: seq<nat>)
    requires k < |files| && InRange(files, a) && InRange(files, m) && InRange(files, d)
    ensures InRange(files, a + ([k] + m) + d) && InRange(files, a + (m + [k]) + d)
    ensures Payload(files, a + ([k] + m) + d) ==
            Payload(files, a) + (files[k] + Payload(files, m)) + Payload(files, d)
    ensures Payload(files, a + (m + [k]) + d) ==
            Payload(files, a) + (Payload(files, m) + files[k]) + Payload(files, d)
  {
    SinglePayload(files, k);
    PayloadAppend(files, m, [k]);
    PayloadAppend(files, [k], m);
    PayloadSandwich(files, a, m + [k], d);
    PayloadSandwich(files, a, [k] + m, d);
  }

  lemma PayloadSandwich(files: seq<Bytes>, a: seq<nat>, m: seq<nat>, d: seq<nat>)
    requires InRange(files, a) && InRange(files, m) && InRange(files, d)
    ensures InRange(files, a + m + d)
    ensures Payload(files, a + m + d) == Payload(files, a) + Payload(files, m) + Payload(files, d)
  {
    PayloadAppend(files, a, m);
    PayloadAppend(files, a + m, d);
  }

  lemma {:induction false} GuaranteeForcesCommuting(files: seq<Bytes>, workers: nat, i: nat, j: nat)
    requires workers >= 2 && OrderGuaranteed(files, workers) && i < j < |files|
    ensures Interchangeable(files[i], files[j])
    decreases j - i
  {
    var between := Upto(|files|)[i + 1..j];
    forall k | 0 <= k < |between|
      ensures Interchangeable(files[between[k]], files[i])
    {
      GuaranteeForcesCommuting(files, workers, i, i + 1 + k);
    }
    CommuteWord(files[i], files, between);
    GuaranteeMovesPart(files, workers, i, j);
    OvertakenAlgebra(Payload(files, between), files[i], files[j]);
  }

  /** The guarantee applied to the run in which part `j` overtakes part `i`. */
  lemma GuaranteeMovesPart(files: seq<Bytes>, workers: nat, i: nat, j: nat)
    requires workers >= 2 && OrderGuaranteed(files, workers) && i < j < |files|
    ensures InRange(files, Upto(|files|)[i + 1..j])
    ensures var x := Payload(files, Upto(|files|)[i + 1..j]);
      files[i] + (x + files[j]) == (x + files[j]) + files[i]
  {
    var n := |files|;
    var acts := OvertakingRun(n, workers, i, j);
    UptoParts(n, i, j);
    UptoInRange(files, i, j);
    MovedPart(files, Upto(n)[..i], i, Upto(n)[i + 1..j], j, Upto(n)[j + 1..]);
  }

  lemma UptoInRange(files: seq<Bytes>, i: nat, j: nat)
    requires i < j < |files|
    ensures InRange(files, Upto(|files|)[..i]) && InRange(files, Upto(|files|)[i + 1..j])
    ensures InRange(files, Upto(|files|)[j + 1..])
  {
  }

  /** If moving part `i` behind others and part `j` changes nothing, it commutes with them. */
  lemma MovedPart(files: seq<Bytes>, before: seq<nat>, i: nat, between: seq<nat>, j: nat, after: seq<nat>)
    requires InRange(files, before) && InRange(files, between) && InRange(files, after)
    requires i < |files| && j < |files|
    requires InRange(files, before + ([i] + (between + [j])) + after)
    requires InRange(files, before + ((between + [j]) + [i]) + after)
    requires Payload(files, before + ((between + [j]) + [i]) + after) ==
             Payload(files, before + ([i] + (between + [j])) + after)
    ensures var y := Payload(files, between) + files[j]; files[i] + y == y + files[i]
  {
    var y := Payload(files, between) + files[j];
    PayloadWithLast(files, between, j);
    MovedPayloads(files, before, i, between + [j], after);
    Cancel(Payload(files, before), files[i] + y, y + files[i], Payload(files, after));
  }

  lemma UptoParts(n: nat, i: nat, j: nat)
    requires i < j < n
    ensures var before, between, after := Upto(n)[..i], Upto(n)[i + 1..j], Upto(n)[j + 1..];
      && Upto(n) == before + ([i] + (between + [j])) + after
      && Overtaken(n, i, j) == before + ((between + [j]) + [i]) + after
  {
    var between := Upto(n)[i + 1..j];
    assert Upto(n)[i + 1..j + 1] == between + [j];
    assert Upto(n)[i..] == [i] + Upto(n)[i + 1..];
  }

  lemma PayloadWithLast(files: seq<Bytes>, a: seq<nat>, k: nat)
    requires InRange(files, a) && k < |files|
    ensures InRange(files, a + [k]) && Payload(files, a + [k]) == Payload(files, a) + files[k]
  {
    PayloadAppend(files, a, [k]);
    SinglePayload(files, k);
  }

  /** The order of the recorded names is guaranteed to reproduce the stream exactly when
      there is one worker or when all parts commute with each other: with two or more
      workers and any two parts that do not commute, some failure-free interleaving
      uploads scrambled bytes. */
  lemma OrderIsGuaranteedExactlyWhen(files: seq<Bytes>, workers: nat)
    requires workers >= 1
    ensures OrderGuaranteed(files, workers) <==> workers == 1 || Commute(files)
  {
    var n := |files|;
    if workers == 1 || Commute(files) {
      forall acts | IsRun(Init(n, workers), acts)
        ensures var s := Exec(Init(n, workers), acts);
          Waited(s) && s.late == multiset{} ==>
            InRange(files, s.tmpObjs) && Payload(files, s.tmpObjs) == Payload(files, Upto(n))
      {
        if Waited(Exec(Init(n, workers), acts)) && Exec(Init(n, workers), acts).late == multiset{} {
          FaithfulRun(files, workers, acts);
        }
      }
    } else if OrderGuaranteed(files, workers) {
      forall i, j | 0 <= i < j < n
        ensures Interchangeable(files[i], files[j])
      {
        GuaranteeForcesCommuting(files, workers, i, j);
      }
      assert false;
    }
  }

  lemma FaithfulRun(files: seq<Bytes>, workers: nat, acts: seq<Action>)
    requires workers == 1 || (workers > 1 && Commute(files))
    requires IsRun(Init(|files|, workers), acts)
    requires Waited(Exec(Init(|files|, workers), acts)) && Exec(Init(|files|, workers), acts).late == multiset{}
    ensures var s := Exec(Init(|files|, workers), acts);
      InRange(files, s.tmpObjs) && Payload(files, s.tmpObjs) == Payload(files, Upto(|files|))
    ensures workers == 1 ==> Exec(Init(|files|, workers), acts).tmpObjs == Upto(|files|)
  {
    var s := Exec(Init(|files|, workers), acts);
    WaitedRun(|files|, workers, acts);
    if workers == 1 {
      SingleWorkerRun(Init(|files|, 1), acts);
      assert s.parts == |files| by { InitInv(|files|, 1); RunInv(Init(|files|, 1), acts); }
      assert s.workers[0].Done?;
      assert |Upto(|files|)[|s.finished|..]| == 0;
    } else {
      assert Permutes(|files|, s.tmpObjs);
      AnyOrderOfCommutingParts(files, |files|, s.tmpObjs);
    }
  }
}
