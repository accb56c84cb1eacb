/** Publishing an image and rolling it back. */
module PublishRollback {
  import opened Text
  import opened PublishPlan
  import opened PublishExecution
  import opened Sequences

  /** Deprecates every image with one of the names. */
  function MarkAll(images: seq<Image>, names: set<string>): seq<Image> {
    seq(|images|, i requires 0 <= i < |images| =>
      if images[i].name in names then images[i].(deprecated := Some(DEPRECATED)) else images[i])
  }

  ghost function MarkedBy(trace: seq<Action>): set<string> {
    set a | a in trace && a.Mark? :: a.d.name
  }

  lemma {:induction false} MarksRun(images: seq<Image>, plan: Plan, trace: seq<Action>, now: int)
    requires UniqueNames(images)
    requires forall a | a in trace :: a.Mark? && a.d.state == DEPRECATED && Listed(images, a.d.name)
    ensures Run(images, plan, trace, now) == Some(MarkAll(images, MarkedBy(trace)))
    decreases |trace|
  {
    if trace == [] {
      assert MarkedBy(trace) == {};
      assert MarkAll(images, {}) == images;
    } else {
      var a := trace[0];
      assert a in trace && forall b | b in trace[1..] :: b in trace;
      assert forall b | b in trace :: b == a || b in trace[1..];
      MarkOne(images, plan, a.d.name, now);
      var next := MarkAll(images, {a.d.name});
      forall b | b in trace[1..]
        ensures Listed(next, b.d.name)
      {
        var k :| 0 <= k < |images| && images[k].name == b.d.name;
        assert next[k].name == b.d.name;
      }
      MarksRun(next, plan, trace[1..], now);
      assert MarkedBy(trace) == {a.d.name} + MarkedBy(trace[1..]);
      assert MarkAll(next, MarkedBy(trace[1..])) == MarkAll(images, MarkedBy(trace));
    }
  }

  lemma MarkOne(images: seq<Image>, plan: Plan, name: string, now: int)
    requires UniqueNames(images) && Listed(images, name)
    ensures Act(images, plan, Mark(Deprecation(name, DEPRECATED)), now) == Some(MarkAll(images, {name}))
    ensures UniqueNames(MarkAll(images, {name}))
  {
    var i := Position(images, name);
    assert images[i := images[i].(deprecated := Record(DEPRECATED))] == MarkAll(images, {name});
  }

  lemma {:induction false} DropAbsent(images: seq<Image>, name: string)
    requires !Listed(images, name)
    ensures Drop(images, name) == images
  {
    if images != [] {
      assert images[0].name != name;
      assert forall k | 0 <= k < |images[1..]| :: images[1..][k] == images[k + 1];
      DropAbsent(images[1..], name);
    }
  }

  /** The old images once the plan has been carried out. */
  function Demoted(p: Publish, images: seq<Image>): seq<Image> {
    seq(|images|, i requires 0 <= i < |images| =>
      if ToDeprecate(p, images[i]) then images[i].(deprecated := Some(DEPRECATED)) else images[i])
  }

  function FreshImage(p: Publish, now: int): Image {
    Image(PublishName(p), p.family, Some(now), None)
  }

  /** A version is published that is not there yet, with no obsolete date and no expiry. */
  ghost predicate PlainPublication(p: Publish, images: seq<Image>, plan: Plan) {
    && UniqueNames(images) && !Listed(images, PublishName(p))
    && p.publishVersion != "" && !p.hasObsoleteDate && p.expiry == None
    && Partitions(p, images, plan) && plan.create == Some(NewImage(p, false))
  }

  lemma CreationResult(p: Publish, images: seq<Image>, plan: Plan, now: int)
    requires PlainPublication(p, images, plan)
    ensures Act(images, plan, Create, now) == Some([FreshImage(p, now)] + images)
    ensures UniqueNames([FreshImage(p, now)] + images)
  {
    DropAbsent(images, PublishName(p));
    PrependUnique(images, FreshImage(p, now));
  }

  lemma PrependUnique(images: seq<Image>, added: Image)
    requires UniqueNames(images) && !Listed(images, added.name)
    ensures UniqueNames([added] + images)
  {
    var all := [added] + images;
    forall i, j | 0 <= i < j < |all|
      ensures all[i].name != all[j].name
    {
      assert all[j] == images[j - 1] && (i > 0 ==> all[i] == images[i - 1]);
    }
  }

  lemma OnlyMarksFollow(p: Publish, images: seq<Image>, plan: Plan, trace: seq<Action>)
    requires PlainPublication(p, images, plan)
    requires Ordered(plan, trace) && NoRepeats(trace) && trace != [] && trace[0] == Create
    ensures forall a | a in trace[1..] ::
      a.Mark? && a.d in plan.deprecate && a.d.state == DEPRECATED && Listed(images, a.d.name)
  {
    assert forall n :: n !in plan.delete;
    forall a | a in trace[1..]
      ensures a.Mark? && a.d in plan.deprecate && a.d.state == DEPRECATED && Listed(images, a.d.name)
    {
      var i :| 0 <= i < |trace[1..]| && trace[1..][i] == a;
      assert trace[0] != trace[i + 1] && InPlan(plan, trace[i + 1]);
    }
  }

  lemma AfterPublication(p: Publish, images: seq<Image>, plan: Plan, trace: seq<Action>, now: int)
    requires PlainPublication(p, images, plan)
    requires Ordered(plan, trace) && Complete(plan, trace) && NoRepeats(trace)
    ensures Run(images, plan, trace, now) == Some([FreshImage(p, now)] + Demoted(p, images))
  {
    assert InPlan(plan, Create) && Create in trace;
    CreationFirst(plan, trace);
    CreationResult(p, images, plan, now);
    OnlyMarksFollow(p, images, plan, trace);
    MarkedNames(p, images, plan, trace);
    var next, marks := [FreshImage(p, now)] + images, trace[1..];
    forall a | a in marks
      ensures Listed(next, a.d.name)
    {
      var k :| 0 <= k < |images| && images[k].name == a.d.name;
      assert next[k + 1].name == a.d.name;
    }
    MarksRun(next, plan, marks, now);
    MarkedIsDemoted(p, images, FreshImage(p, now), MarkedBy(marks));
  }

  lemma MarkedIsDemoted(p: Publish, images: seq<Image>, added: Image, names: set<string>)
    requires added.name !in names
    requires forall i | 0 <= i < |images| :: images[i].name in names <==> ToDeprecate(p, images[i])
    ensures MarkAll([added] + images, names) == [added] + Demoted(p, images)
  {
  }

  lemma MarkedNames(p: Publish, images: seq<Image>, plan: Plan, trace: seq<Action>)
    requires PlainPublication(p, images, plan)
    requires trace != [] && trace[0] == Create && Complete(plan, trace)
    requires forall a | a in trace[1..] :: a.Mark? && a.d in plan.deprecate
    ensures forall i | 0 <= i < |images| :: images[i].name in MarkedBy(trace[1..]) <==> ToDeprecate(p, images[i])
    ensures PublishName(p) !in MarkedBy(trace[1..])
  {
    forall i | 0 <= i < |images|
      ensures images[i].name in MarkedBy(trace[1..]) <==> ToDeprecate(p, images[i])
    {
      var a := Mark(Deprecation(images[i].name, DEPRECATED));
      if ToDeprecate(p, images[i]) {
        assert InPlan(plan, a) && a in trace;
        assert a in trace[1..];
      }
    }
  }

  /* The rollback of it. */

  function RolledBackImage(p: Publish, now: int, rbo: bool): Image {
    FreshImage(p, now).(deprecated := Some(if rbo then OBSOLETE else DEPRECATED))
  }

  /** An earlier image in the list is of the same family: this is not the newest one of it. */
  predicate Older(p: Publish, images: seq<Image>, i: nat)
    requires i < |images|
  {
    exists k | 0 <= k < i :: images[k].family == p.family
  }

  /** In the family that is published to, only the newest image has no deprecation record.
      Images without a family are not deprecated by publishing; of them none may have a record. */
  ghost predicate Restorable(p: Publish, images: seq<Image>) {
    forall i | 0 <= i < |images| && images[i].family == p.family ::
      if p.family != "" && Older(p, images, i) then !Unmarked(images[i]) else images[i].deprecated.None?
  }

  /** Activates the first image of the family that has a deprecation record. */
  ghost predicate Reactivated(p: Publish, demoted: seq<Image>, result: seq<Image>) {
    || (result == demoted && forall i | 0 <= i < |demoted| :: !Undeprecatable(p, demoted[i]))
    || (exists i: nat :: FirstWith(demoted, img => Undeprecatable(p, img), i)
                         && result == demoted[i := demoted[i].(deprecated := None)])
  }

  lemma ReactivationRestoresExactlyWhen(p: Publish, images: seq<Image>, result: seq<Image>)
    requires p.expiry == None && !Listed(images, PublishName(p))
    requires Reactivated(p, Demoted(p, images), result)
    ensures result == images <==> Restorable(p, images)
  {
    var demoted := Demoted(p, images);
    forall i | 0 <= i < |images|
      ensures demoted[i] == images[i] <==> !ToDeprecate(p, images[i])
      ensures Undeprecatable(p, demoted[i]) <==>
        images[i].family == p.family && (p.family != "" || images[i].deprecated.Some?)
    {
      assert images[i].name != PublishName(p);
    }
    if i: nat :| FirstWith(demoted, img => Undeprecatable(p, img), i)
                 && result == demoted[i := demoted[i].(deprecated := None)] {
      ActivatedOne(p, images, i);
    } else {
      assert forall i | 0 <= i < |demoted| :: !Undeprecatable(p, demoted[i]);
      assert forall i | 0 <= i < |images| :: demoted[i] == images[i];
      assert demoted == images;
    }
  }

  lemma ActivatedOne(p: Publish, images: seq<Image>, f: nat)
    requires p.expiry == None && !Listed(images, PublishName(p))
    requires FirstWith(Demoted(p, images), img => Undeprecatable(p, img), f)
    ensures Demoted(p, images)[f := Demoted(p, images)[f].(deprecated := None)] == images <==> Restorable(p, images)
  {
    var demoted := Demoted(p, images);
    var result := demoted[f := demoted[f].(deprecated := None)];
    assert forall i | 0 <= i < |images| :: images[i].name != PublishName(p);
    assert forall k | 0 <= k < f :: !Undeprecatable(p, demoted[k]);
    if p.family != "" {
      assert forall k | 0 <= k < f :: images[k].family != p.family by {
        assert forall k | 0 <= k < f :: demoted[k].family == images[k].family;
      }
      assert !Older(p, images, f);
      assert forall i | f < i < |images| :: Older(p, images, i) by {
        assert images[f].family == p.family;
      }
      if result == images {
        assert forall i | 0 <= i < |images| && i != f :: demoted[i] == images[i];
      } else {
        var i :| 0 <= i < |images| && result[i] != images[i];
      }
    } else {
      assert images[f].deprecated.Some? && result[f].deprecated.None?;
    }
  }

  lemma {:induction false} TraceSize(trace: seq<Action>, actions: set<Action>)
    requires NoRepeats(trace) && forall a | a in trace :: a in actions
    ensures |trace| <= |actions|
  {
    if trace != [] {
      assert trace[0] in trace && forall a | a in trace[1..] :: a in trace;
      TraceSize(trace[1..], actions - {trace[0]});
    }
  }

  lemma OnlyMarks(plan: Plan, trace: seq<Action>)
    requires plan.create.None? && plan.delete == [] && Ordered(plan, trace) && Complete(plan, trace)
    ensures forall a | a in trace :: a.Mark? && a.d in plan.deprecate
    ensures forall d | d in plan.deprecate :: Mark(d) in trace
  {
    forall a | a in trace
      ensures a.Mark? && a.d in plan.deprecate
    {
      var i :| 0 <= i < |trace| && trace[i] == a;
      assert InPlan(plan, trace[i]);
    }
    forall d | d in plan.deprecate
      ensures Mark(d) in trace
    {
      assert InPlan(plan, Mark(d));
    }
  }

  lemma TraceOfOne(plan: Plan, trace: seq<Action>)
    requires plan.create.None? && plan.delete == [] && |plan.deprecate| == 1
    requires Ordered(plan, trace) && Complete(plan, trace) && NoRepeats(trace)
    ensures trace == [Mark(plan.deprecate[0])]
  {
    OnlyMarks(plan, trace);
    TraceSize(trace, {Mark(plan.deprecate[0])});
    assert plan.deprecate[0] in plan.deprecate;
    assert trace[0] in trace;
  }

  lemma TraceOfTwo(plan: Plan, trace: seq<Action>)
    requires plan.create.None? && plan.delete == [] && |plan.deprecate| == 2 && plan.deprecate[0] != plan.deprecate[1]
    requires Ordered(plan, trace) && Complete(plan, trace) && NoRepeats(trace)
    ensures var (a, b) := (Mark(plan.deprecate[0]), Mark(plan.deprecate[1])); trace == [a, b] || trace == [b, a]
  {
    var a, b := Mark(plan.deprecate[0]), Mark(plan.deprecate[1]);
    OnlyMarks(plan, trace);
    TraceSize(trace, {a, b});
    assert plan.deprecate[0] in plan.deprecate && plan.deprecate[1] in plan.deprecate;
    assert a in trace && b in trace;
    assert forall i | 0 <= i < |trace| :: trace[i] in trace;
  }

  lemma MarkAt(images: seq<Image>, plan: Plan, d: Deprecation, i: nat, now: int)
    requires UniqueNames(images) && i < |images| && d.name == images[i].name
    ensures Act(images, plan, Mark(d), now) == Some(images[i := images[i].(deprecated := Record(d.state))])
    ensures UniqueNames(images[i := images[i].(deprecated := Record(d.state))])
  {
  }

  /** Two marks on different images. */
  lemma TwoMarks(images: seq<Image>, plan: Plan, a: Deprecation, b: Deprecation, i: nat, j: nat, now: int)
    requires UniqueNames(images) && i < |images| && j < |images| && i != j
    requires a.name == images[i].name && b.name == images[j].name
    ensures Run(images, plan, [Mark(a), Mark(b)], now) ==
      Some(images[i := images[i].(deprecated := Record(a.state))][j := images[j].(deprecated := Record(b.state))])
  {
    MarkAt(images, plan, a, i, now);
    var next := images[i := images[i].(deprecated := Record(a.state))];
    MarkAt(next, plan, b, j, now);
    var final := next[j := next[j].(deprecated := Record(b.state))];
    assert [Mark(a), Mark(b)][1..] == [Mark(b)];
    assert [Mark(b)][1..] == [];
    assert Run(final, plan, [], now) == Some(final);
    assert Run(next, plan, [Mark(b)], now) == Some(final);
  }

  /** A complete rollback: the published image is marked, and the first image of the family
      with a record is activated. */
  lemma AfterRollback(p: Publish, others: seq<Image>, rbo: bool, plan: Plan, trace: seq<Action>, now: int)
      returns (result: seq<Image>)
    requires p.publishVersion != ""
    requires UniqueNames([FreshImage(p, now)] + others)
    requires RollbackPlan(p, [FreshImage(p, now)] + others, rbo, plan)
    requires Ordered(plan, trace) && Complete(plan, trace) && NoRepeats(trace)
    ensures Run([FreshImage(p, now)] + others, plan, trace, now) == Some([RolledBackImage(p, now, rbo)] + result)
    ensures Reactivated(p, others, result)
  {
    SameNamesExactlyWhen(p);
    if |plan.deprecate| == 1 {
      TraceOfOne(plan, trace);
      AfterOneMark(p, others, rbo, plan, now);
      result := others;
      NothingToReactivate(p, others, now);
    } else {
      var f := FirstMarked(p, others, rbo, plan, now);
      result := others[f := others[f].(deprecated := None)];
      TraceOfTwo(plan, trace);
      AfterTwoMarks(p, others, rbo, plan, trace, now, f);
    }
  }

  lemma NothingToReactivate(p: Publish, others: seq<Image>, now: int)
    requires var images := [FreshImage(p, now)] + others; forall i | 0 <= i < |images| :: !Undeprecatable(p, images[i])
    ensures Reactivated(p, others, others)
  {
    var images := [FreshImage(p, now)] + others;
    assert forall k | 0 <= k < |others| :: images[k + 1] == others[k];
  }

  /** The image that the rollback plan activates. */
  lemma FirstMarked(p: Publish, others: seq<Image>, rbo: bool, plan: Plan, now: int) returns (f: nat)
    requires UniqueNames([FreshImage(p, now)] + others) && |plan.deprecate| == 2
    requires RollbackPlan(p, [FreshImage(p, now)] + others, rbo, plan)
    ensures FirstWith(others, img => Undeprecatable(p, img), f)
    ensures plan.deprecate[1] == Deprecation(others[f].name, ACTIVE) && others[f].name != PublishName(p)
  {
    var images := [FreshImage(p, now)] + others;
    var i: nat :| FirstWith(images, img => Undeprecatable(p, img), i)
                  && plan.deprecate[1] == Deprecation(images[i].name, ACTIVE);
    FirstIsOld(p, others, now, i);
    f := i - 1;
  }

  lemma FirstIsOld(p: Publish, others: seq<Image>, now: int, i: nat)
    requires UniqueNames([FreshImage(p, now)] + others)
    requires FirstWith([FreshImage(p, now)] + others, img => Undeprecatable(p, img), i)
    ensures i > 0 && FirstWith(others, img => Undeprecatable(p, img), i - 1)
    ensures ([FreshImage(p, now)] + others)[i] == others[i - 1] && others[i - 1].name != PublishName(p)
  {
    var images := [FreshImage(p, now)] + others;
    assert forall k | 0 <= k < |others| :: images[k + 1] == others[k];
    assert images[0].name != images[i].name;
  }

  lemma AfterOneMark(p: Publish, others: seq<Image>, rbo: bool, plan: Plan, now: int)
    requires UniqueNames([FreshImage(p, now)] + others)
    ensures var a := Deprecation(PublishName(p), if rbo then OBSOLETE else DEPRECATED);
      Run([FreshImage(p, now)] + others, plan, [Mark(a)], now) == Some([RolledBackImage(p, now, rbo)] + others)
  {
    var a := Deprecation(PublishName(p), if rbo then OBSOLETE else DEPRECATED);
    var images := [FreshImage(p, now)] + others;
    MarkAt(images, plan, a, 0, now);
    assert [Mark(a)][1..] == [];
    assert images[0 := RolledBackImage(p, now, rbo)] == [RolledBackImage(p, now, rbo)] + others;
  }

  lemma AfterTwoMarks(p: Publish, others: seq<Image>, rbo: bool, plan: Plan, trace: seq<Action>, now: int, f: nat)
    requires UniqueNames([FreshImage(p, now)] + others) && f < |others|
    requires var a := Deprecation(PublishName(p), if rbo then OBSOLETE else DEPRECATED);
      var b := Deprecation(others[f].name, ACTIVE);
      trace == [Mark(a), Mark(b)] || trace == [Mark(b), Mark(a)]
    ensures Run([FreshImage(p, now)] + others, plan, trace, now) ==
      Some([RolledBackImage(p, now, rbo)] + others[f := others[f].(deprecated := None)])
  {
    var images := [FreshImage(p, now)] + others;
    var first := Deprecation(PublishName(p), if rbo then OBSOLETE else DEPRECATED);
    var second := Deprecation(others[f].name, ACTIVE);
    assert images[f + 1] == others[f];
    TwoUpdates(FreshImage(p, now), others, f, RolledBackImage(p, now, rbo), others[f].(deprecated := None));
    if trace == [Mark(first), Mark(second)] {
      TwoMarks(images, plan, first, second, 0, f + 1, now);
    } else {
      TwoMarks(images, plan, second, first, f + 1, 0, now);
    }
  }

  lemma TwoUpdates(head: Image, tail: seq<Image>, f: nat, newHead: Image, newImage: Image)
    requires f < |tail|
    ensures ([head] + tail)[0 := newHead][f + 1 := newImage] == [newHead] + tail[f := newImage]
    ensures ([head] + tail)[f + 1 := newImage][0 := newHead] == [newHead] + tail[f := newImage]
  {
  }

  /** Publishing a new version and rolling it back, both carried out in full: the project
      is then the old one plus the published image marked deprecated or obsolete, if and
      only if, in the family, exactly the newest image was without a deprecation record. */
  lemma RollbackRestoresExactlyWhen(p: Publish, images: seq<Image>, plan: Plan, trace: seq<Action>, now: int,
                                    rbo: bool, undo: Plan, undoTrace: seq<Action>)
    requires PlainPublication(p, images, plan)
    requires Ordered(plan, trace) && Complete(plan, trace) && NoRepeats(trace)
    requires RollbackPlan(p, [FreshImage(p, now)] + Demoted(p, images), rbo, undo)
    requires Ordered(undo, undoTrace) && Complete(undo, undoTrace) && NoRepeats(undoTrace)
    ensures Run(images, plan, trace, now).Some?
    ensures Restorable(p, images) <==>
      Run(Run(images, plan, trace, now).value, undo, undoTrace, now) == Some([RolledBackImage(p, now, rbo)] + images)
  {
    AfterPublication(p, images, plan, trace, now);
    var demoted := Demoted(p, images);
    DemotedNames(p, images, FreshImage(p, now));
    var result := AfterRollback(p, demoted, rbo, undo, undoTrace, now);
    ReactivationRestoresExactlyWhen(p, images, result);
    var marked := RolledBackImage(p, now, rbo);
    assert ([marked] + result)[1..] == result && ([marked] + images)[1..] == images;
  }

  lemma DemotedNames(p: Publish, images: seq<Image>, added: Image)
    requires UniqueNames(images) && !Listed(images, added.name)
    ensures UniqueNames([added] + Demoted(p, images))
  {
    var demoted := Demoted(p, images);
    assert forall i | 0 <= i < |images| :: demoted[i].name == images[i].name;
    PrependUnique(demoted, added);
  }

  /* When a rollback finds what was published. */

  lemma {:induction false} NothingIsAdded(images: seq<Image>, plan: Plan, trace: seq<Action>, now: int, img: Image)
    requires Run(images, plan, trace, now).Some? && img in Run(images, plan, trace, now).value
    requires forall a | a in trace :: a != Create && Avoids(plan, a, img.name)
    ensures img in images
    decreases |trace|
  {
    if trace != [] {
      var a := trace[0];
      var next := Act(images, plan, a, now).value;
      assert a in trace && forall b | b in trace[1..] :: b in trace;
      NothingIsAdded(next, plan, trace[1..], now, img);
      if a.Remove? {
        DropKeeps(images, a.name, img);
      }
    }
  }

  lemma {:induction false} NoNameIsAdded(images: seq<Image>, plan: Plan, trace: seq<Action>, now: int, name: string)
    requires Run(images, plan, trace, now).Some? && !Listed(images, name)
    requires forall a | a in trace :: a != Create
    ensures !Listed(Run(images, plan, trace, now).value, name)
    decreases |trace|
  {
    if trace != [] {
      var a := trace[0];
      assert a in trace && forall b | b in trace[1..] :: b in trace;
      var next := Act(images, plan, a, now).value;
      forall i | 0 <= i < |next|
        ensures next[i].name != name
      {
        if a.Remove? {
          DropKeeps(images, a.name, next[i]);
          assert next[i] in next;
        }
      }
      NoNameIsAdded(next, plan, trace[1..], now, name);
    }
  }

  /** The published image stays as it was created, and no other has its name. */
  lemma PublishedStays(p: Publish, images: seq<Image>, plan: Plan, trace: seq<Action>, now: int, img: Image)
    requires Partitions(p, images, plan) && plan.create.Some? && plan.create.value.name == PublishName(p)
    requires Ordered(plan, trace) && NoRepeats(trace) && Create in trace && Run(images, plan, trace, now).Some?
    requires img.name == PublishName(p)
    ensures img in Run(images, plan, trace, now).value <==> img == Created(plan.create.value, now)
  {
    CreationFirst(plan, trace);
    var next := Act(images, plan, Create, now).value;
    var created := Created(plan.create.value, now);
    assert next[0] == created && next[1..] == Drop(images, created.name);
    forall a | a in trace[1..]
      ensures a != Create && Avoids(plan, a, img.name)
    {
      var i :| 0 <= i < |trace[1..]| && trace[1..][i] == a;
      assert trace[0] != trace[i + 1];
      PlanSparesTheNewImage(p, images, plan, trace[i + 1]);
    }
    Untouched(next, plan, trace[1..], now, created);
    if img in Run(images, plan, trace, now).value {
      NothingIsAdded(next, plan, trace[1..], now, img);
      DropKeeps(images, created.name, img);
    }
  }

  lemma OldNamesStayOut(p: Publish, images: seq<Image>, plan: Plan, trace: seq<Action>, now: int, name: string)
    requires plan.create.Some? && plan.create.value.name != name && !Listed(images, name)
    requires Ordered(plan, trace) && NoRepeats(trace) && Create in trace && Run(images, plan, trace, now).Some?
    ensures !Listed(Run(images, plan, trace, now).value, name)
  {
    CreationFirst(plan, trace);
    var next := Act(images, plan, Create, now).value;
    forall i | 0 <= i < |next|
      ensures next[i].name != name
    {
      if i > 0 {
        assert next[i] == Drop(images, plan.create.value.name)[i - 1];
        DropKeeps(images, plan.create.value.name, next[i]);
      }
    }
    forall a | a in trace[1..]
      ensures a != Create
    {
      var i :| 0 <= i < |trace[1..]| && trace[1..][i] == a;
      assert trace[0] != trace[i + 1];
    }
    NoNameIsAdded(next, plan, trace[1..], now, name);
  }

  /** Whatever a publication that creates its image replaces, deprecates or deletes, and
      however far it got after the creation: a rollback of it has something to mark if and
      only if the version is not empty and there is no obsolete date. An obsolete date
      gives the image a record, and the name to look for always has a version. */
  lemma RollbackFindsExactlyWhen(p: Publish, images: seq<Image>, plan: Plan, trace: seq<Action>, now: int,
                                 overwrite: bool)
    requires Partitions(p, images, plan) && plan.create == Some(NewImage(p, overwrite))
    requires Ordered(plan, trace) && NoRepeats(trace) && Create in trace && Run(images, plan, trace, now).Some?
    requires p.publishVersion == "" ==> !Listed(images, RollbackName(p))
    ensures Rollbackable(p, Run(images, plan, trace, now).value) <==> p.publishVersion != "" && !p.hasObsoleteDate
  {
    var after := Run(images, plan, trace, now).value;
    var created := Created(NewImage(p, overwrite), now);
    SameNamesExactlyWhen(p);
    if p.publishVersion == "" {
      OldNamesStayOut(p, images, plan, trace, now, RollbackName(p));
    } else {
      PublishedStays(p, images, plan, trace, now, created);
      var k :| 0 <= k < |after| && after[k] == created;
      assert !p.hasObsoleteDate ==> Published(p, after[k]);
      if i :| 0 <= i < |after| && Published(p, after[i]) {
        PublishedStays(p, images, plan, trace, now, after[i]);
      }
    }
  }
}
