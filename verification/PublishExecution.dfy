/** Plans carried out on a project: every moment of a publication, and publication followed
    by rollback. */
module PublishExecution {
  import opened Text
  import opened PublishPlan
  import opened Sequences

  /* Steps and their order. */

  datatype StepKind = CreateStep | DeprecateStep | DeleteStep

  function Place(k: StepKind): nat {
    match k case CreateStep => 0 case DeprecateStep => 1 case DeleteStep => 2
  }

  predicate WaitsFor(a: StepKind, b: StepKind) {
    Place(b) < Place(a)
  }

  /** The steps of a plan and which step waits for which: of any two steps that exist,
      creation goes before deprecation, and deprecation before deletion. */
  method PopulateSteps(create: bool, deprecate: bool, delete: bool)
      returns (steps: set<StepKind>, deps: set<(StepKind, StepKind)>)
    ensures CreateStep in steps <==> create
    ensures DeprecateStep in steps <==> deprecate
    ensures DeleteStep in steps <==> delete
    ensures forall a, b :: (a, b) in deps <==> a in steps && b in steps && WaitsFor(a, b)
  {
    steps, deps := {}, {};
    if create {
      steps := steps + {CreateStep};
    }
    if deprecate {
      steps := steps + {DeprecateStep};
    }
    if delete {
      steps := steps + {DeleteStep};
    }
    if deprecate && create {
      deps := deps + {(DeprecateStep, CreateStep)};
    }
    if delete && create {
      deps := deps + {(DeleteStep, CreateStep)};
    }
    if delete && deprecate {
      deps := deps + {(DeleteStep, DeprecateStep)};
    }
  }

  /** One image at a time: a step handles its images side by side, in any order. */
  datatype Action = Create | Mark(d: Deprecation) | Remove(name: string)

  function KindOf(a: Action): StepKind {
    match a case Create => CreateStep case Mark(_) => DeprecateStep case Remove(_) => DeleteStep
  }

  ghost predicate InPlan(plan: Plan, a: Action) {
    match a
    case Create => plan.create.Some?
    case Mark(d) => d in plan.deprecate
    case Remove(name) => name in plan.delete
  }

  /** A trace does only what the plan says, and an action only after all actions of the
      steps that its step waits for. */
  ghost predicate Ordered(plan: Plan, trace: seq<Action>) {
    && (forall i | 0 <= i < |trace| :: InPlan(plan, trace[i]))
    && (forall i, a | 0 <= i < |trace| && InPlan(plan, a) && WaitsFor(KindOf(trace[i]), KindOf(a)) :: a in trace[..i])
  }

  /** For steps and dependencies as they are populated, with a step for every kind of action
      in the plan, that is the order that the dependencies ask for. */
  lemma OrderedByDependencies(plan: Plan, trace: seq<Action>, steps: set<StepKind>, deps: set<(StepKind, StepKind)>)
    requires forall a, b :: (a, b) in deps <==> a in steps && b in steps && WaitsFor(a, b)
    requires forall a | InPlan(plan, a) :: KindOf(a) in steps
    ensures Ordered(plan, trace) <==>
      && (forall i | 0 <= i < |trace| :: InPlan(plan, trace[i]))
      && (forall i, a | 0 <= i < |trace| && InPlan(plan, a) && (KindOf(trace[i]), KindOf(a)) in deps :: a in trace[..i])
  {
    if forall i | 0 <= i < |trace| :: InPlan(plan, trace[i]) {
      forall i, a | 0 <= i < |trace| && InPlan(plan, a)
        ensures WaitsFor(KindOf(trace[i]), KindOf(a)) <==> (KindOf(trace[i]), KindOf(a)) in deps
      {
        assert KindOf(trace[i]) in steps;
      }
    }
  }

  ghost predicate Complete(plan: Plan, trace: seq<Action>) {
    forall a | InPlan(plan, a) :: a in trace
  }

  /* The project: its images, newest first. */

  function Position(images: seq<Image>, name: string): (i: nat)
    ensures i <= |images|
    ensures i < |images| ==> images[i].name == name
    ensures forall k | 0 <= k < i :: images[k].name != name
  {
    if images == [] || images[0].name == name then 0 else 1 + Position(images[1..], name)
  }

  /** The backend drops the deprecation record of an image that is set active. */
  function Record(state: string): Option<string> {
    if state == ACTIVE then None else Some(state)
  }

  function Drop(images: seq<Image>, name: string): seq<Image> {
    if images == [] then []
    else if images[0].name == name then Drop(images[1..], name)
    else [images[0]] + Drop(images[1..], name)
  }

  function Created(c: Creation, now: int): Image {
    Image(c.name, c.family, Some(now), c.deprecated)
  }

  /** An action that succeeds. A name that is taken can only be overwritten. */
  function Act(images: seq<Image>, plan: Plan, a: Action, now: int): Option<seq<Image>> {
    match a
    case Create =>
      if plan.create.None? || (Listed(images, plan.create.value.name) && !plan.create.value.overwrite) then None
      else Some([Created(plan.create.value, now)] + Drop(images, plan.create.value.name))
    case Mark(d) =>
      var i := Position(images, d.name);
      if i < |images| then Some(images[i := images[i].(deprecated := Record(d.state))]) else None
    case Remove(name) =>
      if Listed(images, name) then Some(Drop(images, name)) else None
  }

  function Run(images: seq<Image>, plan: Plan, trace: seq<Action>, now: int): Option<seq<Image>>
    decreases |trace|
  {
    if trace == [] then Some(images)
    else
      var next := Act(images, plan, trace[0], now);
      if next.None? then None else Run(next.value, plan, trace[1..], now)
  }

  predicate IsActive(img: Image) {
    img.deprecated.None? || img.deprecated.value == "" || img.deprecated.value == ACTIVE
  }

  ghost predicate Usable(images: seq<Image>, family: string) {
    exists i | 0 <= i < |images| :: images[i].family == family && IsActive(images[i])
  }

  /* The family stays usable. */

  lemma {:induction false} DropKeeps(images: seq<Image>, name: string, img: Image)
    ensures img in Drop(images, name) <==> img in images && img.name != name
  {
    if images != [] {
      DropKeeps(images[1..], name, img);
    }
  }

  predicate Avoids(plan: Plan, a: Action, name: string) {
    match a
    case Create => plan.create.Some? ==> plan.create.value.name != name
    case Mark(d) => d.name != name
    case Remove(removed) => removed != name
  }

  /** An image that is neither marked nor removed nor replaced stays as it is. */
  lemma {:induction false} Untouched(images: seq<Image>, plan: Plan, trace: seq<Action>, now: int, img: Image)
    requires img in images && Run(images, plan, trace, now).Some?
    requires forall a | a in trace :: Avoids(plan, a, img.name)
    ensures img in Run(images, plan, trace, now).value
    decreases |trace|
  {
    if trace != [] {
      var a := trace[0];
      var next := Act(images, plan, a, now).value;
      assert a in trace;
      match a {
        case Create =>
          DropKeeps(images, plan.create.value.name, img);
          assert img in [Created(plan.create.value, now)] + Drop(images, plan.create.value.name);
        case Mark(d) =>
          var k :| 0 <= k < |images| && images[k] == img;
          assert next[k] == img;
        case Remove(name) =>
          DropKeeps(images, name, img);
      }
      Untouched(next, plan, trace[1..], now, img);
    }
  }

  /** Creation comes first, and once. */
  lemma CreationFirst(plan: Plan, trace: seq<Action>)
    requires plan.create.Some? && Ordered(plan, trace) && trace != []
    ensures trace[0] == Create
  {
    assert InPlan(plan, Create) && trace[..0] == [];
  }

  lemma PlanSparesTheNewImage(p: Publish, images: seq<Image>, plan: Plan, a: Action)
    requires Partitions(p, images, plan) && plan.create.Some? && plan.create.value.name == PublishName(p)
    requires InPlan(plan, a) && a != Create
    ensures Avoids(plan, a, PublishName(p))
  {
    match a {
      case Mark(d) => assert d in plan.deprecate;
      case Remove(name) => assert name in plan.delete;
    }
  }

  /** The created image survives everything that follows. */
  lemma CreatedImageStays(p: Publish, images: seq<Image>, plan: Plan, trace: seq<Action>, now: int)
    requires Partitions(p, images, plan) && plan.create.Some? && plan.create.value.name == PublishName(p)
    requires Ordered(plan, trace) && NoRepeats(trace) && trace != [] && Run(images, plan, trace, now).Some?
    ensures Created(plan.create.value, now) in Run(images, plan, trace, now).value
  {
    CreationFirst(plan, trace);
    var img := Created(plan.create.value, now);
    var next := Act(images, plan, Create, now).value;
    assert next[0] == img;
    forall a | a in trace[1..]
      ensures Avoids(plan, a, img.name)
    {
      var i :| 0 <= i < |trace[1..]| && trace[1..][i] == a;
      assert trace[0] != trace[i + 1];
      PlanSparesTheNewImage(p, images, plan, trace[i + 1]);
    }
    Untouched(next, plan, trace[1..], now, img);
  }

  /** Publishing a new image: at every moment of every execution, complete or cut off, a
      non-empty family that had an active image has one; and as long as the image has not
      been created, nothing has changed. */
  lemma PublishingKeepsFamilyUsable(p: Publish, images: seq<Image>, plan: Plan, trace: seq<Action>, now: int)
    requires UniqueNames(images) && Partitions(p, images, plan)
    requires plan.create == Some(NewImage(p, false)) && p.family != ""
    requires Usable(images, p.family)
    requires Ordered(plan, trace) && Run(images, plan, trace, now).Some?
    requires NoRepeats(trace)
    ensures Usable(Run(images, plan, trace, now).value, p.family)
    ensures Create !in trace ==> trace == []
  {
    if trace != [] {
      CreationFirst(plan, trace);
      CreatedImageStays(p, images, plan, trace, now);
      var img := Created(plan.create.value, now);
      var after := Run(images, plan, trace, now).value;
      var k :| 0 <= k < |after| && after[k] == img;
      assert after[k].family == p.family && IsActive(after[k]);
    }
  }

  /* Replacing creation. */

  /** The states of a publication that replaces its image, if the old image is removed before
      the new one is created: before it starts, in between, and from the creation on. */
  ghost predicate Moment(p: Publish, images: seq<Image>, plan: Plan, now: int, state: seq<Image>) {
    || state == images
    || state == Drop(images, PublishName(p))
    || exists trace :: CreatedBy(images, plan, trace, now, state)
  }

  ghost predicate CreatedBy(images: seq<Image>, plan: Plan, trace: seq<Action>, now: int, state: seq<Image>) {
    Ordered(plan, trace) && NoRepeats(trace) && trace != [] && Run(images, plan, trace, now) == Some(state)
  }

  /** A non-empty family that is usable stays so at every moment of a replacing publication
      if and only if some active image of it is not the one to be replaced. */
  lemma ReplacingKeepsFamilyUsableExactlyWhen(p: Publish, images: seq<Image>, plan: Plan, now: int)
    requires UniqueNames(images) && Partitions(p, images, plan) && plan.create == Some(NewImage(p, true))
    requires p.family != "" && Usable(images, p.family)
    ensures (forall state | Moment(p, images, plan, now, state) :: Usable(state, p.family)) <==>
      exists img :: img in images && img.name != PublishName(p) && img.family == p.family && IsActive(img)
  {
    var gap := Drop(images, PublishName(p));
    GapUsableExactlyWhen(p, images);
    assert Moment(p, images, plan, now, gap);
    forall state | Moment(p, images, plan, now, state) && state != images && state != gap
      ensures Usable(state, p.family)
    {
      var trace :| CreatedBy(images, plan, trace, now, state);
      CreatedImageStays(p, images, plan, trace, now);
      var k :| 0 <= k < |state| && state[k] == Created(plan.create.value, now);
    }
  }

  lemma GapUsableExactlyWhen(p: Publish, images: seq<Image>)
    ensures Usable(Drop(images, PublishName(p)), p.family) <==>
      exists img :: img in images && img.name != PublishName(p) && img.family == p.family && IsActive(img)
  {
    var gap := Drop(images, PublishName(p));
    forall img: Image
      ensures img in gap <==> img in images && img.name != PublishName(p)
    {
      DropKeeps(images, PublishName(p), img);
    }
    if i :| 0 <= i < |gap| && gap[i].family == p.family && IsActive(gap[i]) {
      assert gap[i] in gap;
    }
    if img :| img in images && img.name != PublishName(p) && img.family == p.family && IsActive(img) {
      assert img in gap;
      var i :| 0 <= i < |gap| && gap[i] == img;
    }
  }

  /* Skipped creation. */

  lemma {:induction false} DropUnique(images: seq<Image>, name: string)
    requires UniqueNames(images)
    ensures UniqueNames(Drop(images, name))
  {
    if images != [] {
      DropUnique(images[1..], name);
      var r := Drop(images[1..], name);
      forall k | 0 <= k < |r|
        ensures r[k].name != images[0].name
      {
        DropKeeps(images[1..], name, r[k]);
        assert r[k] in images[1..];
      }
    }
  }

  lemma MarkKeepsOthers(images: seq<Image>, plan: Plan, d: Deprecation, now: int, img: Image)
    requires UniqueNames(images) && Act(images, plan, Mark(d), now).Some?
    requires img in Act(images, plan, Mark(d), now).value
    ensures UniqueNames(Act(images, plan, Mark(d), now).value)
    ensures img.deprecated == Record(d.state) || (img in images && img.name != d.name)
  {
  }

  /** What is left after marking and removing: images that no action named, unchanged, and
      deprecated ones. */
  lemma {:induction false} Survivors(images: seq<Image>, plan: Plan, trace: seq<Action>, now: int, img: Image)
    requires UniqueNames(images) && Run(images, plan, trace, now).Some?
    requires forall a | a in trace :: a != Create && (a.Mark? ==> a.d.state == DEPRECATED)
    requires img in Run(images, plan, trace, now).value
    ensures img.deprecated == Some(DEPRECATED) || (img in images && forall a | a in trace :: Avoids(plan, a, img.name))
    decreases |trace|
  {
    if trace != [] {
      var a := trace[0];
      var next := Act(images, plan, a, now).value;
      assert a in trace;
      assert forall b | b in trace[1..] :: b in trace;
      assert forall b | b in trace :: b == a || b in trace[1..];
      if a.Mark? {
        assert UniqueNames(next);
        Survivors(next, plan, trace[1..], now, img);
        if img in next {
          MarkKeepsOthers(images, plan, a.d, now, img);
        }
      } else {
        DropUnique(images, a.name);
        Survivors(next, plan, trace[1..], now, img);
        DropKeeps(images, a.name, img);
      }
    }
  }

  /** A publication that skips the creation because the name is taken, carried out in full,
      leaves the family usable exactly if some image of it is active and the plan spares it.
      The image that is already there may itself have been deprecated by a rollback: then
      deprecating the others can leave the family with no active image. */
  lemma SkippedPublicationUsableExactlyWhen(p: Publish, images: seq<Image>, plan: Plan, trace: seq<Action>, now: int)
    requires UniqueNames(images) && Partitions(p, images, plan) && plan.create.None?
    requires Ordered(plan, trace) && Complete(plan, trace) && Run(images, plan, trace, now).Some?
    ensures Usable(Run(images, plan, trace, now).value, p.family) <==>
      exists i | 0 <= i < |images| ::
        images[i].family == p.family && IsActive(images[i]) && !ToDelete(p, images[i]) && !ToDeprecate(p, images[i])
  {
    var after := Run(images, plan, trace, now).value;
    forall a | a in trace
      ensures InPlan(plan, a)
    {
      var i :| 0 <= i < |trace| && trace[i] == a;
    }
    if i :| 0 <= i < |images| && images[i].family == p.family && IsActive(images[i])
            && !ToDelete(p, images[i]) && !ToDeprecate(p, images[i]) {
      forall a | a in trace
        ensures Avoids(plan, a, images[i].name)
      {
        SparedImage(p, images, plan, i, a);
      }
      Untouched(images, plan, trace, now, images[i]);
      var k :| 0 <= k < |after| && after[k] == images[i];
    }
    if Usable(after, p.family) {
      var k :| 0 <= k < |after| && after[k].family == p.family && IsActive(after[k]);
      forall a | a in trace
        ensures a != Create && (a.Mark? ==> a.d.state == DEPRECATED)
      {
        assert a.Mark? ==> a.d in plan.deprecate;
      }
      Survivors(images, plan, trace, now, after[k]);
      var i :| 0 <= i < |images| && images[i] == after[k];
      assert ToDelete(p, images[i]) ==> InPlan(plan, Remove(images[i].name));
      assert ToDeprecate(p, images[i]) ==> InPlan(plan, Mark(Deprecation(images[i].name, DEPRECATED)));
    }
  }

  lemma SparedImage(p: Publish, images: seq<Image>, plan: Plan, i: nat, a: Action)
    requires UniqueNames(images) && Partitions(p, images, plan) && i < |images| && InPlan(plan, a)
    requires plan.create.None? && !ToDelete(p, images[i]) && !ToDeprecate(p, images[i])
    ensures Avoids(plan, a, images[i].name)
  {
    match a {
      case Mark(d) =>
        var k :| 0 <= k < |images| && images[k].name == d.name && ToDeprecate(p, images[k]);
      case Remove(name) =>
        var k :| 0 <= k < |images| && images[k].name == name && ToDelete(p, images[k]);
    }
  }

  /** A case in which it does not: the image to publish exists and is deprecated, another
      one is active. */
  lemma SkippedPublicationCanStrandFamily(p: Publish, other: Image, plan: Plan, trace: seq<Action>, now: int)
    requires other.family == p.family && p.family != "" && other.name != PublishName(p)
    requires other.deprecated == None && p.expiry == None
    requires var images := [Image(PublishName(p), p.family, Some(0), Some(DEPRECATED)), other];
      && Partitions(p, images, plan) && plan.create.None?
      && Ordered(plan, trace) && Complete(plan, trace) && Run(images, plan, trace, now).Some?
    ensures var images := [Image(PublishName(p), p.family, Some(0), Some(DEPRECATED)), other];
      Usable(images, p.family) && !Usable(Run(images, plan, trace, now).value, p.family)
  {
    var images := [Image(PublishName(p), p.family, Some(0), Some(DEPRECATED)), other];
    assert images[1] == other;
    SkippedPublicationUsableExactlyWhen(p, images, plan, trace, now);
  }
}
