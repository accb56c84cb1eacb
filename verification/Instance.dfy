/** The project state that the Windows upgrade touches, the steps that change it, and the
    execution of a workflow: any order its dependencies allow, cut off at any point. */
module Instance {
  import opened Sequences
  import opened Text

  datatype Attachment = Attachment(source: string, device: string, autoDelete: bool, boot: bool)

  /** Disks and snapshots map to the licenses they carry. */
  datatype World = World(
    attached: seq<Attachment>,
    metadata: map<string, string>,
    disks: map<string, seq<string>>,
    snapshots: map<string, seq<string>>,
    machineImages: set<string>,
    running: bool
  )

  datatype Op =
    | StopInstance
    | StartInstance
    | WaitForSignal
    | CreateMachineImage(image: string)
    | CreateSnapshot(snapshot: string, disk: string)
    | CreateDiskFromSnapshot(disk: string, snapshot: string, licenses: seq<string>)
    | CreateDiskFromImage(disk: string)
    | DetachDisk(device: string)
    | AttachDisk(attachment: Attachment)
    | UpdateMetadata(entries: map<string, string>)
    | DeleteDisk(disk: string)

  predicate DeviceInUse(w: World, device: string) {
    exists i | 0 <= i < |w.attached| :: w.attached[i].device == device
  }

  predicate IsAttached(w: World, disk: string) {
    exists i | 0 <= i < |w.attached| :: w.attached[i].source == disk
  }

  predicate HasBootDisk(w: World) {
    exists i | 0 <= i < |w.attached| :: w.attached[i].boot
  }

  function Without(attached: seq<Attachment>, device: string): seq<Attachment> {
    if attached == [] then []
    else if attached[0].device == device then Without(attached[1..], device)
    else [attached[0]] + Without(attached[1..], device)
  }

  /** One atomic step; None if the step cannot take effect in this state. A boot disk is
      always the first attachment. A metadata update merges its entries. */
  function Apply(w: World, op: Op): Option<World> {
    match op
    case StopInstance => Some(w.(running := false))
    case StartInstance => Some(w.(running := true))
    case WaitForSignal => Some(w)
    case CreateMachineImage(image) =>
      if image in w.machineImages then None else Some(w.(machineImages := w.machineImages + {image}))
    case CreateSnapshot(snapshot, disk) =>
      if snapshot in w.snapshots || disk !in w.disks then None
      else Some(w.(snapshots := w.snapshots[snapshot := w.disks[disk]]))
    case CreateDiskFromSnapshot(disk, snapshot, licenses) =>
      if disk in w.disks || snapshot !in w.snapshots then None
      else Some(w.(disks := w.disks[disk := w.snapshots[snapshot] + licenses]))
    case CreateDiskFromImage(disk) =>
      if disk in w.disks then None else Some(w.(disks := w.disks[disk := []]))
    case DetachDisk(device) =>
      if DeviceInUse(w, device) then Some(w.(attached := Without(w.attached, device))) else None
    case AttachDisk(a) =>
      if a.source !in w.disks || IsAttached(w, a.source) then None
      else if DeviceInUse(w, a.device) || (a.boot && HasBootDisk(w)) then None
      else Some(w.(attached := if a.boot then [a] + w.attached else w.attached + [a]))
    case UpdateMetadata(entries) => Some(w.(metadata := w.metadata + entries))
    case DeleteDisk(disk) =>
      if disk !in w.disks || IsAttached(w, disk) then None else Some(w.(disks := w.disks - {disk}))
  }

  /* Workflows. */

  /** A step and the steps it depends on, by index. */
  datatype Step = Step(op: Op, deps: set<nat>)

  type Steps = seq<Step>

  /** A trace lists the steps that took effect, in order: none twice, none before a step
      it depends on. */
  predicate Respects(steps: Steps, trace: seq<nat>) {
    && (forall i | 0 <= i < |trace| :: trace[i] < |steps|)
    && NoRepeats(trace)
    && (forall i | 0 <= i < |trace| :: forall d | d in steps[trace[i]].deps :: Earlier(trace, i, d))
  }

  predicate Earlier(trace: seq<nat>, i: nat, d: nat)
    requires i <= |trace|
  {
    exists j | 0 <= j < i :: trace[j] == d
  }

  predicate Complete(steps: Steps, trace: seq<nat>) {
    forall k: nat | k < |steps| :: k in trace
  }

  function OpsOf(steps: Steps, trace: seq<nat>): seq<Op>
    requires forall i | 0 <= i < |trace| :: trace[i] < |steps|
  {
    seq(|trace|, i requires 0 <= i < |trace| => steps[trace[i]].op)
  }

  function ApplyAll(w: World, ops: seq<Op>): Option<World>
    decreases |ops|
  {
    if ops == [] then Some(w)
    else
      var next := Apply(w, ops[0]);
      if next.None? then None else ApplyAll(next.value, ops[1..])
  }

  lemma {:induction false} ApplyAllConcat(w: World, a: seq<Op>, b: seq<Op>)
    ensures ApplyAll(w, a + b) ==
      if ApplyAll(w, a).None? then None else ApplyAll(ApplyAll(w, a).value, b)
    decreases |a|
  {
    if a == [] {
      assert a + b == b;
    } else {
      assert (a + b)[0] == a[0] && (a + b)[1..] == a[1..] + b;
      if Apply(w, a[0]).Some? {
        ApplyAllConcat(Apply(w, a[0]).value, a[1..], b);
      }
    }
  }

  /** Extends a computed prefix of a list of steps by one step. */
  lemma ApplyNext(w: World, ops: seq<Op>, i: nat, w1: World)
    requires i < |ops| && ApplyAll(w, ops[..i]) == Some(w1)
    ensures ApplyAll(w, ops[..i + 1]) == Apply(w1, ops[i])
  {
    ApplyAllConcat(w, ops[..i], [ops[i]]);
    assert ops[..i + 1] == ops[..i] + [ops[i]];
    ApplyOne(w1, ops[i]);
  }

  lemma ApplyOne(w: World, op: Op)
    ensures ApplyAll(w, [op]) == Apply(w, op)
  {
    assert [op][1..] == [];
  }

  lemma ApplyTwo(w: World, a: Op, b: Op)
    ensures ApplyAll(w, [a, b]) == if Apply(w, a).None? then None else Apply(Apply(w, a).value, b)
  {
    assert [a, b][1..] == [b];
    if Apply(w, a).Some? {
      ApplyOne(Apply(w, a).value, b);
    }
  }

  /** One attempt at a workflow leads from `w` to `w'`. */
  predicate Attempt(steps: Steps, w: World, trace: seq<nat>, w': World) {
    Respects(steps, trace) && ApplyAll(w, OpsOf(steps, trace)) == Some(w')
  }

  lemma {:induction false} UptoSize(n: nat)
    ensures |ToSet(Upto(n))| == n
    ensures forall k: nat :: k in ToSet(Upto(n)) <==> k < n
  {
    NoRepeatsSize(Upto(n));
    forall k: nat
      ensures k in ToSet(Upto(n)) <==> k < n
    {
      if k < n {
        assert Upto(n)[k] == k;
      }
    }
  }

  /** A trace is complete exactly if it is as long as the workflow, and never longer. */
  lemma TraceLength(steps: Steps, trace: seq<nat>)
    requires Respects(steps, trace)
    ensures |trace| <= |steps|
    ensures Complete(steps, trace) <==> |trace| == |steps|
  {
    var done, all := ToSet(trace), ToSet(Upto(|steps|));
    NoRepeatsSize(trace);
    UptoSize(|steps|);
    assert done <= all;
    assert |all| == |done| + |all - done|;
    if Complete(steps, trace) {
      assert all <= done;
    } else {
      var k: nat :| k < |steps| && k !in trace;
      assert k in all - done;
    }
  }

  /* Chains: each of the first `n` steps depends on the one before it, and every other
     step on the last of them. */

  ghost predicate StartsWithChain(steps: Steps, n: nat) {
    && n <= |steps|
    && (forall k: nat | 0 < k < n :: k - 1 in steps[k].deps)
    && (forall k: nat | n <= k < |steps| && n > 0 :: n - 1 in steps[k].deps)
  }

  lemma {:induction false} ChainAt(steps: Steps, n: nat, trace: seq<nat>, i: nat)
    requires StartsWithChain(steps, n) && Respects(steps, trace) && i < |trace| && i < n
    ensures forall j | 0 <= j <= i :: trace[j] == j
    decreases i
  {
    if i > 0 {
      ChainAt(steps, n, trace, i - 1);
    }
    var k := trace[i];
    if k > 0 {
      var before := if k < n then k - 1 else n - 1;
      assert Earlier(trace, i, before);
    }
    if i > 0 {
      var j := if k < i then k else 0;
      assert trace[j] == j;
    }
  }

  /** A chain leaves no choice: the steps of it that a trace has are the first ones in order. */
  lemma ChainTrace(steps: Steps, n: nat, trace: seq<nat>)
    requires StartsWithChain(steps, n) && Respects(steps, trace)
    ensures var m := if |trace| < n then |trace| else n;
      trace[..m] == Upto(m) && forall i | m <= i < |trace| :: trace[i] >= n
  {
    var m := if |trace| < n then |trace| else n;
    if m > 0 {
      ChainAt(steps, n, trace, m - 1);
    }
    forall i | m <= i < |trace|
      ensures trace[i] >= n
    {
      var j := if trace[i] < n then trace[i] else 0;
      assert j < n ==> trace[j] == j;
    }
  }
}
