/** What every step of every phase keeps, what a complete preparation does, and what a
    rollback restores. */
module UpgradeSafety {
  import opened Text
  import opened Instance
  import opened UpgradeWorkflows

  function Data(w: World): seq<Attachment> {
    if w.attached == [] then [] else w.attached[1..]
  }

  /** What validation has established when a run starts, and what the backend guarantees
      about attachments: device names and disks are attached once, attached disks exist,
      only the first attachment is a boot disk. The random names are not in use. */
  ghost predicate Start(u: Vars, w: World) {
    && w.attached != [] && w.attached[0] == OldBoot(u)
    && (forall i | 0 < i < |w.attached| :: !w.attached[i].boot)
    && (forall i, j | 0 <= i < j < |w.attached| ::
          w.attached[i].device != w.attached[j].device && w.attached[i].source != w.attached[j].source)
    && (forall i | 0 <= i < |w.attached| :: w.attached[i].source in w.disks)
    && u.newOSDisk !in w.disks && u.installDisk !in w.disks && u.newOSDisk != u.installDisk
    && !DeviceInUse(w, u.installDisk)
    && u.snapshot !in w.snapshots
    && u.machineImage !in w.machineImages
  }

  datatype Boot = NoBoot | OldDisk | NewDisk

  /** The attachments of a run: a boot disk or none, the data disks of the customer as they
      were, and the install media or not. */
  function Layout(u: Vars, data: seq<Attachment>, boot: Boot, media: bool): seq<Attachment> {
    (match boot case NoBoot => [] case OldDisk => [OldBoot(u)] case NewDisk => [NewBoot(u)])
    + data + if media then [InstallMedia(u)] else []
  }

  /** No disk but the two of the run appears, disappears or changes. */
  ghost predicate SameDisks(u: Vars, w0: World, w: World) {
    forall d | d != u.newOSDisk && d != u.installDisk ::
      (d in w.disks <==> d in w0.disks) && (d in w0.disks ==> w.disks[d] == w0.disks[d])
  }

  ghost predicate SafeAs(u: Vars, w0: World, w: World, boot: Boot, media: bool) {
    && w.attached == Layout(u, Data(w0), boot, media)
    && SameDisks(u, w0, w)
    && (boot == NewDisk ==> u.newOSDisk in w.disks)
    && (media ==> u.installDisk in w.disks)
  }

  ghost predicate Safe(u: Vars, w0: World, w: World) {
    exists boot, media :: SafeAs(u, w0, w, boot, media)
  }

  /** Every step that some phase of this run may perform. */
  predicate Allowed(u: Vars, op: Op) {
    match op
    case CreateDiskFromSnapshot(disk, _, _) => disk == u.newOSDisk
    case CreateDiskFromImage(disk) => disk == u.installDisk
    case DetachDisk(device) => device == u.device || device == u.installDisk
    case AttachDisk(a) => a == OldBoot(u) || a == NewBoot(u) || a == InstallMedia(u)
    case DeleteDisk(disk) => disk == u.newOSDisk || disk == u.installDisk
    case _ => true
  }

  predicate AllAllowed(u: Vars, ops: seq<Op>) {
    forall i | 0 <= i < |ops| :: Allowed(u, ops[i])
  }

  lemma PreparationIsAllowed(u: Vars)
    ensures AllAllowed(u, PrepareOps(u))
  {
    assert AllAllowed(u, PrepareHead(u));
    assert AllAllowed(u, PrepareDisks(u));
    assert AllAllowed(u, PrepareScript(u));
    AllowedConcat(u, PrepareHead(u), PrepareDisks(u));
    AllowedConcat(u, PrepareHead(u) + PrepareDisks(u), PrepareScript(u));
  }

  lemma AllowedConcat(u: Vars, a: seq<Op>, b: seq<Op>)
    requires AllAllowed(u, a) && AllAllowed(u, b)
    ensures AllAllowed(u, a + b)
  {
  }

  lemma PhasesAreAllowed(u: Vars, p: Phase, k: nat)
    requires k < |PhaseSteps(u, p)|
    ensures Allowed(u, PhaseSteps(u, p)[k].op)
  {
    match p {
      case Prepare =>
        PreparationIsAllowed(u);
        assert PhaseSteps(u, p)[k].op == PrepareOps(u)[k];
      case Rollback => RollbackIsAllowed(u, k);
      case _ => IncludedIsAllowed(u, p, k);
    }
  }

  lemma RollbackIsAllowed(u: Vars, k: nat)
    requires k < |RollbackSteps(u)|
    ensures Allowed(u, RollbackSteps(u)[k].op)
  {
    assert AllAllowed(u, RollbackOps(u));
    assert k < 5 ==> RollbackSteps(u)[k].op == RollbackOps(u)[k];
  }

  lemma IncludedIsAllowed(u: Vars, p: Phase, k: nat)
    requires p != Prepare && p != Rollback && k < |PhaseSteps(u, p)|
    ensures Allowed(u, PhaseSteps(u, p)[k].op)
  {
  }

  lemma {:induction false} WithoutConcat(a: seq<Attachment>, b: seq<Attachment>, device: string)
    ensures Without(a + b, device) == Without(a, device) + Without(b, device)
  {
    if a == [] {
      assert a + b == b;
    } else {
      assert (a + b)[0] == a[0] && (a + b)[1..] == a[1..] + b;
      WithoutConcat(a[1..], b, device);
      if a[0].device != device {
        calc {
          Without(a + b, device);
          [a[0]] + (Without(a[1..], device) + Without(b, device));
          ([a[0]] + Without(a[1..], device)) + Without(b, device);
        }
      }
    }
  }

  lemma {:induction false} WithoutAbsent(a: seq<Attachment>, device: string)
    requires forall i | 0 <= i < |a| :: a[i].device != device
    ensures Without(a, device) == a
  {
    if a != [] {
      WithoutAbsent(a[1..], device);
    }
  }

  /** The customer's data disks are told apart from the disks of the run. */
  lemma DataIsApart(u: Vars, w0: World)
    requires Start(u, w0)
    ensures u.device != u.installDisk
    ensures forall i | 0 <= i < |Data(w0)| ::
      var a := Data(w0)[i];
      !a.boot && a.device != u.device && a.device != u.installDisk
      && a.source != u.osDisk && a.source != u.newOSDisk && a.source != u.installDisk
  {
    assert w0.attached[0].device != u.installDisk;
    forall i | 0 <= i < |Data(w0)|
      ensures var a := Data(w0)[i];
        !a.boot && a.device != u.device && a.device != u.installDisk
        && a.source != u.osDisk && a.source != u.newOSDisk && a.source != u.installDisk
    {
      assert Data(w0)[i] == w0.attached[i + 1];
      assert w0.attached[0].device != w0.attached[i + 1].device;
    }
  }

  lemma WithoutOne(a: Attachment, device: string)
    ensures Without([a], device) == if a.device == device then [] else [a]
  {
    assert [a][1..] == [];
  }

  lemma DetachFromLayout(u: Vars, w0: World, boot: Boot, media: bool, device: string)
    requires Start(u, w0) && (device == u.device || device == u.installDisk)
    ensures Without(Layout(u, Data(w0), boot, media), device) ==
      Layout(u, Data(w0), if device == u.device then NoBoot else boot, media && device == u.device)
  {
    DataIsApart(u, w0);
    var b := match boot case NoBoot => [] case OldDisk => [OldBoot(u)] case NewDisk => [NewBoot(u)];
    var m := if media then [InstallMedia(u)] else [];
    WithoutConcat(b + Data(w0), m, device);
    WithoutConcat(b, Data(w0), device);
    WithoutAbsent(Data(w0), device);
    WithoutOne(OldBoot(u), device);
    WithoutOne(NewBoot(u), device);
    WithoutOne(InstallMedia(u), device);
  }

  /** Some attachment has a property that no data disk has. */
  lemma SomeAttached(u: Vars, w0: World, w: World, boot: Boot, media: bool, f: Attachment -> bool)
    requires w.attached == Layout(u, Data(w0), boot, media)
    requires forall i | 0 <= i < |Data(w0)| :: !f(Data(w0)[i])
    ensures (exists i | 0 <= i < |w.attached| :: f(w.attached[i])) <==>
      (boot == OldDisk && f(OldBoot(u))) || (boot == NewDisk && f(NewBoot(u))) || (media && f(InstallMedia(u)))
  {
    var n := if boot == NoBoot then 0 else 1;
    assert forall i | n <= i < n + |Data(w0)| :: w.attached[i] == Data(w0)[i - n];
    assert boot == OldDisk ==> w.attached[0] == OldBoot(u);
    assert boot == NewDisk ==> w.attached[0] == NewBoot(u);
    assert media ==> w.attached[n + |Data(w0)|] == InstallMedia(u);
  }

  /** Which devices and disks a layout has in use. */
  lemma InUse(u: Vars, w0: World, w: World, boot: Boot, media: bool)
    requires Start(u, w0) && w.attached == Layout(u, Data(w0), boot, media)
    ensures DeviceInUse(w, u.device) <==> boot != NoBoot
    ensures DeviceInUse(w, u.installDisk) <==> media
    ensures HasBootDisk(w) <==> boot != NoBoot
    ensures IsAttached(w, u.osDisk) <==> boot == OldDisk
    ensures IsAttached(w, u.newOSDisk) <==> boot == NewDisk
    ensures IsAttached(w, u.installDisk) <==> media
  {
    DevicesInUse(u, w0, w, boot, media);
    DisksInUse(u, w0, w, boot, media);
  }

  lemma DevicesInUse(u: Vars, w0: World, w: World, boot: Boot, media: bool)
    requires Start(u, w0) && w.attached == Layout(u, Data(w0), boot, media)
    ensures DeviceInUse(w, u.device) <==> boot != NoBoot
    ensures DeviceInUse(w, u.installDisk) <==> media
    ensures HasBootDisk(w) <==> boot != NoBoot
  {
    DataIsApart(u, w0);
    SomeAttached(u, w0, w, boot, media, (a: Attachment) => a.device == u.device);
    SomeAttached(u, w0, w, boot, media, (a: Attachment) => a.device == u.installDisk);
    SomeAttached(u, w0, w, boot, media, (a: Attachment) => a.boot);
  }

  lemma DisksInUse(u: Vars, w0: World, w: World, boot: Boot, media: bool)
    requires Start(u, w0) && w.attached == Layout(u, Data(w0), boot, media)
    ensures IsAttached(w, u.osDisk) <==> boot == OldDisk
    ensures IsAttached(w, u.newOSDisk) <==> boot == NewDisk
    ensures IsAttached(w, u.installDisk) <==> media
  {
    DataIsApart(u, w0);
    OldDiskIsOld(u, w0);
    SomeAttached(u, w0, w, boot, media, (a: Attachment) => a.source == u.osDisk);
    SomeAttached(u, w0, w, boot, media, (a: Attachment) => a.source == u.newOSDisk);
    SomeAttached(u, w0, w, boot, media, (a: Attachment) => a.source == u.installDisk);
  }

  function BootOf(u: Vars, a: Attachment): Boot {
    if a == OldBoot(u) then OldDisk else NewDisk
  }

  lemma DetachResult(u: Vars, w0: World, w: World, device: string, boot: Boot, media: bool)
    requires Start(u, w0) && w.attached == Layout(u, Data(w0), boot, media)
    requires device == u.device || device == u.installDisk
    ensures Apply(w, DetachDisk(device)) ==
      if device == u.device then
        if boot == NoBoot then None else Some(w.(attached := Layout(u, Data(w0), NoBoot, media)))
      else
        if media then Some(w.(attached := Layout(u, Data(w0), boot, false))) else None
  {
    InUse(u, w0, w, boot, media);
    DetachFromLayout(u, w0, boot, media, device);
    DataIsApart(u, w0);
  }

  lemma AttachBootResult(u: Vars, w0: World, w: World, a: Attachment, boot: Boot, media: bool)
    requires Start(u, w0) && w.attached == Layout(u, Data(w0), boot, media)
    requires a == OldBoot(u) || a == NewBoot(u)
    ensures Apply(w, AttachDisk(a)) ==
      if boot == NoBoot && a.source in w.disks then Some(w.(attached := Layout(u, Data(w0), BootOf(u, a), media)))
      else None
  {
    InUse(u, w0, w, boot, media);
    OldDiskIsOld(u, w0);
    LayoutWithBoot(u, Data(w0), a, media);
  }

  lemma OldDiskIsOld(u: Vars, w0: World)
    requires Start(u, w0)
    ensures u.osDisk in w0.disks && u.osDisk != u.newOSDisk && u.osDisk != u.installDisk
  {
    assert w0.attached[0].source in w0.disks;
  }

  lemma LayoutWithBoot(u: Vars, data: seq<Attachment>, a: Attachment, media: bool)
    requires a == OldBoot(u) || a == NewBoot(u)
    ensures [a] + Layout(u, data, NoBoot, media) == Layout(u, data, BootOf(u, a), media)
  {
  }

  lemma AttachMediaResult(u: Vars, w0: World, w: World, boot: Boot, media: bool)
    requires Start(u, w0) && w.attached == Layout(u, Data(w0), boot, media)
    ensures Apply(w, AttachDisk(InstallMedia(u))) ==
      if !media && u.installDisk in w.disks then Some(w.(attached := Layout(u, Data(w0), boot, true)))
      else None
  {
    InUse(u, w0, w, boot, media);
    assert Layout(u, Data(w0), boot, false) + [InstallMedia(u)] == Layout(u, Data(w0), boot, true);
  }

  /** Every step of every phase, in any order whatsoever, keeps the original boot disk and
      all other disks of the customer in existence, changes no attachment of a data disk,
      and boots from no disk but the original one and its upgraded copy. */
  lemma StepIsSafe(u: Vars, w0: World, w: World, op: Op)
    requires Start(u, w0) && Safe(u, w0, w) && Allowed(u, op) && Apply(w, op).Some?
    ensures Safe(u, w0, Apply(w, op).value)
  {
    var boot, media :| SafeAs(u, w0, w, boot, media);
    match op {
      case DetachDisk(device) => DetachIsSafe(u, w0, w, boot, media, device);
      case AttachDisk(a) => AttachIsSafe(u, w0, w, boot, media, a);
      case DeleteDisk(disk) => DeleteIsSafe(u, w0, w, boot, media, disk);
      case _ => assert SafeAs(u, w0, Apply(w, op).value, boot, media);
    }
  }

  lemma DetachIsSafe(u: Vars, w0: World, w: World, boot: Boot, media: bool, device: string)
    requires Start(u, w0) && SafeAs(u, w0, w, boot, media) && (device == u.device || device == u.installDisk)
    requires Apply(w, DetachDisk(device)).Some?
    ensures Safe(u, w0, Apply(w, DetachDisk(device)).value)
  {
    var boot', media' := if device == u.device then NoBoot else boot, media && device == u.device;
    DetachResult(u, w0, w, device, boot, media);
    assert SafeAs(u, w0, Apply(w, DetachDisk(device)).value, boot', media');
  }

  lemma AttachIsSafe(u: Vars, w0: World, w: World, boot: Boot, media: bool, a: Attachment)
    requires Start(u, w0) && SafeAs(u, w0, w, boot, media) && Allowed(u, AttachDisk(a))
    requires Apply(w, AttachDisk(a)).Some?
    ensures Safe(u, w0, Apply(w, AttachDisk(a)).value)
  {
    var w' := Apply(w, AttachDisk(a)).value;
    if a.boot {
      AttachBootResult(u, w0, w, a, boot, media);
      assert SafeAs(u, w0, w', BootOf(u, a), media);
    } else {
      AttachMediaResult(u, w0, w, boot, media);
      assert SafeAs(u, w0, w', boot, true);
    }
  }

  lemma DeleteIsSafe(u: Vars, w0: World, w: World, boot: Boot, media: bool, disk: string)
    requires Start(u, w0) && SafeAs(u, w0, w, boot, media) && (disk == u.newOSDisk || disk == u.installDisk)
    requires Apply(w, DeleteDisk(disk)).Some?
    ensures Safe(u, w0, Apply(w, DeleteDisk(disk)).value)
  {
    DisksInUse(u, w0, w, boot, media);
    assert SafeAs(u, w0, Apply(w, DeleteDisk(disk)).value, boot, media);
  }
}
