/** What publishing and rolling back an image plan to do. */
module PublishPlan {
  import opened Text

  /** A published image: its creation time, if that can be parsed, and the state of its
      deprecation record, if there is one. */
  datatype Image = Image(name: string, family: string, created: Option<int>, deprecated: Option<string>)

  const ACTIVE := "ACTIVE"
  const DEPRECATED := "DEPRECATED"
  const OBSOLETE := "OBSOLETE"

  datatype Publish = Publish(
    prefix: string,
    family: string,
    publishVersion: string,
    hasSourceProject: bool,
    hasSourceGcsPath: bool,
    hasObsoleteDate: bool,
    expiry: Option<int>
  )

  datatype Creation = Creation(name: string, family: string, deprecated: Option<string>, overwrite: bool)

  datatype Deprecation = Deprecation(name: string, state: string)

  datatype Plan = Plan(create: Option<Creation>, deprecate: seq<Deprecation>, delete: seq<string>)

  function PublishName(p: Publish): string {
    if p.publishVersion != "" then p.prefix + "-" + p.publishVersion else p.prefix
  }

  /** The name that a rollback looks for. */
  function RollbackName(p: Publish): string {
    p.prefix + "-" + p.publishVersion
  }

  lemma SameNamesExactlyWhen(p: Publish)
    ensures PublishName(p) == RollbackName(p) <==> p.publishVersion != ""
  {
    if p.publishVersion == "" {
      assert |RollbackName(p)| == |p.prefix| + 1;
    }
  }

  predicate Listed(images: seq<Image>, name: string) {
    exists i | 0 <= i < |images| :: images[i].name == name
  }

  ghost predicate UniqueNames(images: seq<Image>) {
    forall i, j | 0 <= i < j < |images| :: images[i].name != images[j].name
  }

  predicate Expired(p: Publish, img: Image) {
    p.expiry.Some? && img.created.Some? && img.created.value < p.expiry.value
  }

  /** With an expiry set, an image whose creation time cannot be parsed is passed over. */
  predicate Unparsable(p: Publish, img: Image) {
    p.expiry.Some? && img.created.None?
  }

  predicate Unmarked(img: Image) {
    img.deprecated.None? || img.deprecated.value == ""
  }

  predicate ToDelete(p: Publish, img: Image) {
    img.name != PublishName(p) && img.family == p.family && Expired(p, img)
  }

  predicate ToDeprecate(p: Publish, img: Image) {
    && img.name != PublishName(p) && img.family == p.family && p.family != ""
    && !Expired(p, img) && !Unparsable(p, img) && Unmarked(img)
  }

  /** `plan` deletes and deprecates exactly what it should of the images in `images`. */
  ghost predicate Partitions(p: Publish, images: seq<Image>, plan: Plan) {
    && (forall n :: n in plan.delete <==> exists i | 0 <= i < |images| :: images[i].name == n && ToDelete(p, images[i]))
    && (forall d :: d in plan.deprecate <==>
          && d.state == DEPRECATED
          && exists i | 0 <= i < |images| :: images[i].name == d.name && ToDeprecate(p, images[i]))
  }

  ghost predicate NoDoubles(plan: Plan) {
    && (forall i, j | 0 <= i < j < |plan.delete| :: plan.delete[i] != plan.delete[j])
    && (forall i, j | 0 <= i < j < |plan.deprecate| :: plan.deprecate[i].name != plan.deprecate[j].name)
  }

  predicate Refused(p: Publish, images: seq<Image>, skipDuplicates: bool, rep: bool) {
    || (skipDuplicates && rep)
    || p.hasSourceProject == p.hasSourceGcsPath
    || (!skipDuplicates && !rep && Listed(images, PublishName(p)))
  }

  function NewImage(p: Publish, overwrite: bool): Creation {
    Creation(PublishName(p), p.family, if p.hasObsoleteDate then Some(ACTIVE) else None, overwrite)
  }

  /** Walks through the published images once. Whatever their order: the plan is refused
      exactly for conflicting options, for no source or two, and for a name that is taken;
      otherwise it creates the image unless it exists and is to be skipped, and deletes and
      deprecates exactly the images it should. */
  method PublishImage(p: Publish, pubImgs: seq<Image>, skipDuplicates: bool, rep: bool) returns (r: Result<Plan>)
    requires UniqueNames(pubImgs)
    ensures r.Err? <==> Refused(p, pubImgs, skipDuplicates, rep)
    ensures r.Ok? ==> Partitions(p, pubImgs, r.value) && NoDoubles(r.value)
    ensures r.Ok? ==> (r.value.create.None? <==> skipDuplicates && Listed(pubImgs, PublishName(p)))
    ensures r.Ok? && r.value.create.Some? ==>
      r.value.create.value == NewImage(p, rep && Listed(pubImgs, PublishName(p)))
  {
    if skipDuplicates && rep {
      return Err("skip and replace");
    }
    var publishName := PublishName(p);
    var creation := NewImage(p, false);
    if p.hasSourceProject && p.hasSourceGcsPath {
      return Err("two sources");
    }
    if !p.hasSourceProject && !p.hasSourceGcsPath {
      return Err("no source");
    }
    var plan := Plan(Some(creation), [], []);
    for i := 0 to |pubImgs|
      invariant Partitions(p, pubImgs[..i], plan)
      invariant NoDoubles(plan)
      invariant !skipDuplicates && !rep ==> !Listed(pubImgs[..i], publishName)
      invariant plan.create ==
        if skipDuplicates && Listed(pubImgs[..i], publishName) then None
        else Some(creation.(overwrite := rep && Listed(pubImgs[..i], publishName)))
    {
      var img := pubImgs[i];
      ghost var before := plan;
      ListedSoFar(pubImgs, i, publishName);
      if img.name == publishName {
        if skipDuplicates {
          plan := plan.(create := None);
        } else if rep {
          plan := plan.(create := Some(creation.(overwrite := true)));
        } else {
          return Err("exists");
        }
      } else if img.family != p.family {
      } else if p.expiry.Some? && img.created.None? {
      } else if p.expiry.Some? && img.created.value < p.expiry.value {
        plan := plan.(delete := plan.delete + [img.name]);
      } else if img.family == "" {
      } else if img.deprecated.None? || img.deprecated.value == "" {
        plan := plan.(deprecate := plan.deprecate + [Deprecation(img.name, DEPRECATED)]);
      }
      ExtendPartition(p, pubImgs, i, before, plan);
    }
    assert pubImgs[..|pubImgs|] == pubImgs;
    return Ok(plan);
  }

  lemma ListedSoFar(images: seq<Image>, i: nat, name: string)
    requires i < |images|
    ensures Listed(images[..i + 1], name) <==> Listed(images[..i], name) || images[i].name == name
    ensures Listed(images[..i], name) ==> Listed(images, name)
    ensures images[i].name == name ==> Listed(images, name)
  {
    var a, b := images[..i], images[..i + 1];
    assert b[i] == images[i];
    assert forall k | 0 <= k < i :: a[k] == b[k] == images[k];
    if Listed(a, name) {
      var k :| 0 <= k < i && a[k].name == name;
      assert b[k].name == name;
    }
  }

  lemma ExtendPartition(p: Publish, images: seq<Image>, i: nat, before: Plan, after: Plan)
    requires i < |images| && UniqueNames(images)
    requires Partitions(p, images[..i], before) && NoDoubles(before)
    requires after.delete == before.delete + if ToDelete(p, images[i]) then [images[i].name] else []
    requires after.deprecate == before.deprecate +
      if ToDeprecate(p, images[i]) then [Deprecation(images[i].name, DEPRECATED)] else []
    ensures Partitions(p, images[..i + 1], after) && NoDoubles(after)
  {
    var a, b := images[..i], images[..i + 1];
    assert b == a + [images[i]];
    forall n
      ensures n in after.delete <==> exists k | 0 <= k < |b| :: b[k].name == n && ToDelete(p, b[k])
    {
      ExistsExtends(a, images[i], n, img => ToDelete(p, img));
    }
    forall d: Deprecation
      ensures d in after.deprecate <==>
        d.state == DEPRECATED && exists k | 0 <= k < |b| :: b[k].name == d.name && ToDeprecate(p, b[k])
    {
      ExistsExtends(a, images[i], d.name, img => ToDeprecate(p, img));
    }
    forall k | 0 <= k < |before.delete|
      ensures before.delete[k] != images[i].name
    {
      assert before.delete[k] in before.delete;
    }
    forall k | 0 <= k < |before.deprecate|
      ensures before.deprecate[k].name != images[i].name
    {
      assert before.deprecate[k] in before.deprecate;
    }
  }

  lemma ExistsExtends(a: seq<Image>, img: Image, name: string, f: Image -> bool)
    ensures (exists k | 0 <= k < |a + [img]| :: (a + [img])[k].name == name && f((a + [img])[k])) <==>
            (exists k | 0 <= k < |a| :: a[k].name == name && f(a[k])) || (img.name == name && f(img))
  {
    var b := a + [img];
    assert b[|a|] == img;
    if k :| 0 <= k < |a| && a[k].name == name && f(a[k]) {
      assert b[k] == a[k];
    }
  }

  /** For a plan that partitions: the published name is left alone, nothing is both deleted
      and deprecated, only images of the family are touched, and for a non-empty family
      every other image of it is deleted, deprecated, marked already, or has a creation
      time that cannot be parsed while an expiry is set. */
  lemma PlanIsAPartition(p: Publish, images: seq<Image>, plan: Plan, img: Image)
    requires UniqueNames(images) && Partitions(p, images, plan) && img in images
    ensures PublishName(p) !in plan.delete && Deprecation(PublishName(p), DEPRECATED) !in plan.deprecate
    ensures !(img.name in plan.delete && Deprecation(img.name, DEPRECATED) in plan.deprecate)
    ensures img.name in plan.delete || Deprecation(img.name, DEPRECATED) in plan.deprecate ==> img.family == p.family
    ensures img.family == p.family && p.family != "" && img.name != PublishName(p) ==>
      || img.name in plan.delete
      || Deprecation(img.name, DEPRECATED) in plan.deprecate
      || !Unmarked(img)
      || Unparsable(p, img)
  {
    var i :| 0 <= i < |images| && images[i] == img;
  }

  /* Rolling back. */

  predicate Published(p: Publish, img: Image) {
    img.name == RollbackName(p) && img.deprecated.None?
  }

  /** The list has an image that a rollback would mark. */
  ghost predicate Rollbackable(p: Publish, images: seq<Image>) {
    exists i | 0 <= i < |images| :: Published(p, images[i])
  }

  predicate Undeprecatable(p: Publish, img: Image) {
    img.family == p.family && img.deprecated.Some?
  }

  ghost predicate FirstWith(images: seq<Image>, f: Image -> bool, i: nat) {
    i < |images| && f(images[i]) && forall k | 0 <= k < i :: !f(images[k])
  }

  /** A plan that marks the published image and activates the first image of the family
      that has a deprecation record, if there is one. */
  ghost predicate RollbackPlan(p: Publish, images: seq<Image>, rbo: bool, plan: Plan) {
    && plan.create.None? && plan.delete == [] && 1 <= |plan.deprecate| <= 2
    && plan.deprecate[0] == Deprecation(RollbackName(p), if rbo then OBSOLETE else DEPRECATED)
    && (|plan.deprecate| == 1 ==> forall i | 0 <= i < |images| :: !Undeprecatable(p, images[i]))
    && (|plan.deprecate| == 2 ==>
          exists i: nat :: FirstWith(images, img => Undeprecatable(p, img), i)
                   && plan.deprecate[1] == Deprecation(images[i].name, ACTIVE))
  }

  /** Deprecates the published image if it is there and has no deprecation record, and
      activates the first image of the family that has one. */
  method RollbackImage(p: Publish, pubImgs: seq<Image>, rbo: bool) returns (plan: Option<Plan>)
    requires forall i | 0 <= i < |pubImgs| :: pubImgs[i].name != ""
    ensures plan.Some? <==> Rollbackable(p, pubImgs)
    ensures plan.Some? ==> RollbackPlan(p, pubImgs, rbo, plan.value)
  {
    var undeprecateName := "";
    ghost var found := 0;
    for i := 0 to |pubImgs|
      invariant undeprecateName == ""
      invariant forall k | 0 <= k < i :: !Undeprecatable(p, pubImgs[k])
    {
      if pubImgs[i].family == p.family && pubImgs[i].deprecated.Some? {
        undeprecateName := pubImgs[i].name;
        found := i;
        break;
      }
    }
    assert undeprecateName != "" ==> FirstWith(pubImgs, img => Undeprecatable(p, img), found);
    var dis: seq<Deprecation> := [];
    for i := 0 to |pubImgs|
      invariant dis == []
      invariant forall k | 0 <= k < i :: !Published(p, pubImgs[k])
    {
      if pubImgs[i].name != RollbackName(p) || pubImgs[i].deprecated.Some? {
        continue;
      }
      dis := [Deprecation(pubImgs[i].name, if rbo then OBSOLETE else DEPRECATED)];
      break;
    }
    if dis == [] {
      return None;
    }
    if undeprecateName != "" {
      dis := dis + [Deprecation(undeprecateName, ACTIVE)];
    }
    return Some(Plan(None, dis, []));
  }

  /** A rollback names at most two images, always different ones, and it activates one only
      together with marking the published one. */
  lemma RollbackNamesDiffer(p: Publish, images: seq<Image>, rbo: bool, plan: Plan, i: nat)
    requires UniqueNames(images) && RollbackPlan(p, images, rbo, plan)
    requires i < |images| && Published(p, images[i])
    ensures forall d | d in plan.deprecate && d.state == ACTIVE :: d.name != RollbackName(p)
    ensures exists d | d in plan.deprecate :: d.name == RollbackName(p) && d.state != ACTIVE
  {
    assert plan.deprecate[0] in plan.deprecate;
    assert DEPRECATED != ACTIVE by { assert |DEPRECATED| != |ACTIVE|; }
    assert OBSOLETE != ACTIVE by { assert |OBSOLETE| != |ACTIVE|; }
    if |plan.deprecate| == 2 {
      var k: nat :| FirstWith(images, img => Undeprecatable(p, img), k)
                    && plan.deprecate[1] == Deprecation(images[k].name, ACTIVE);
      assert images[k].deprecated.Some?;
      assert k != i;
    }
  }
}
