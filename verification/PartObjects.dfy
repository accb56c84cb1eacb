/** The uploaded parts as objects of the bucket. */
module PartObjects {
  import opened ObjectStore
  import opened Sequences
  import opened UploadProtocol
  import opened UploadOrder
  import opened ComposeRound
  import opened Chunking

  function PartNames(obj: string, id: string, order: seq<nat>): seq<string> {
    seq(|order|, i requires 0 <= i < |order| => PartName(obj, id, order[i]))
  }

  /** The bucket once every part is stored under its name. */
  function Uploaded(objects: Objects, obj: string, id: string, files: seq<Bytes>): Objects {
    if files == [] then objects
    else
      var n := |files| - 1;
      Uploaded(objects, obj, id, files[..n])[PartName(obj, id, n) := files[n]]
  }

  lemma {:induction false} UploadedPart(objects: Objects, obj: string, id: string, files: seq<Bytes>, k: nat)
    requires k < |files|
    ensures PartName(obj, id, k) in Uploaded(objects, obj, id, files)
    ensures Uploaded(objects, obj, id, files)[PartName(obj, id, k)] == files[k]
  {
    var n := |files| - 1;
    NamesDiffer(obj, id, k, 0, n);
    if k < n {
      UploadedPart(objects, obj, id, files[..n], k);
    }
  }

  lemma {:induction false} UploadedElsewhere(objects: Objects, obj: string, id: string, files: seq<Bytes>, name: string)
    requires forall k: nat | k < |files| :: name != PartName(obj, id, k)
    ensures name in Uploaded(objects, obj, id, files) <==> name in objects
    ensures name in objects ==> Uploaded(objects, obj, id, files)[name] == objects[name]
  {
    if files != [] {
      UploadedElsewhere(objects, obj, id, files[..|files| - 1], name);
    }
  }

  /** `now` is the bucket `objects` after the uploads that have stored the parts in `stored`. */
  ghost predicate HoldsParts(now: Objects, objects: Objects, obj: string, id: string, files: seq<Bytes>,
                             stored: set<nat>) {
    && (forall k: nat | k in stored :: k < |files|)
    && (forall k: nat | k in stored ::
          PartName(obj, id, k) in now && now[PartName(obj, id, k)] == files[k])
    && (forall n | (forall k: nat | k in stored :: n != PartName(obj, id, k)) ::
          (n in now <==> n in objects) && (n in objects ==> now[n] == objects[n]))
  }

  lemma StoringAPart(now: Objects, objects: Objects, obj: string, id: string, files: seq<Bytes>,
                     stored: set<nat>, k: nat)
    requires HoldsParts(now, objects, obj, id, files, stored) && k < |files|
    ensures HoldsParts(now[PartName(obj, id, k) := files[k]], objects, obj, id, files, stored + {k})
  {
    forall m: nat | m in stored
      ensures PartName(obj, id, m) == PartName(obj, id, k) ==> m == k
    {
      NamesDiffer(obj, id, m, 0, k);
    }
  }

  /** With every part stored, the bucket is the uploaded one. */
  lemma AllPartsStored(now: Objects, objects: Objects, obj: string, id: string, files: seq<Bytes>, stored: set<nat>)
    requires HoldsParts(now, objects, obj, id, files, stored)
    requires forall k: nat | k < |files| :: k in stored
    ensures now == Uploaded(objects, obj, id, files)
  {
    var up := Uploaded(objects, obj, id, files);
    forall n
      ensures (n in now <==> n in up) && (n in up ==> now[n] == up[n])
    {
      if k: nat :| k < |files| && n == PartName(obj, id, k) {
        UploadedPart(objects, obj, id, files, k);
      } else {
        UploadedElsewhere(objects, obj, id, files, n);
      }
    }
  }

  lemma {:induction false} ConcatIsPayload(objects: Objects, obj: string, id: string, files: seq<Bytes>,
                                           order: seq<nat>)
    requires InRange(files, order)
    ensures var up := Uploaded(objects, obj, id, files);
      AllStored(up, PartNames(obj, id, order)) && Concat(up, PartNames(obj, id, order)) == Payload(files, order)
  {
    var names := PartNames(obj, id, order);
    forall n | n in names
      ensures n in Uploaded(objects, obj, id, files)
    {
      var i :| 0 <= i < |names| && names[i] == n;
      UploadedPart(objects, obj, id, files, order[i]);
    }
    if order != [] {
      UploadedPart(objects, obj, id, files, order[0]);
      assert names[1..] == PartNames(obj, id, order[1..]);
      ConcatIsPayload(objects, obj, id, files, order[1..]);
    }
  }

  lemma NamesRepeatAsParts(obj: string, id: string, order: seq<nat>)
    ensures NoRepeats(PartNames(obj, id, order)) <==> NoRepeats(order)
    ensures Fresh(PartNames(obj, id, order), obj, id, 0)
  {
    var names := PartNames(obj, id, order);
    forall i, j | 0 <= i < j < |order|
      ensures names[i] == names[j] <==> order[i] == order[j]
    {
      NamesDiffer(obj, id, order[i], 0, order[j]);
    }
    forall i, k: nat | 0 <= i < |order|
      ensures names[i] != obj && names[i] != ComposeName(obj, id, k)
    {
      NamesDiffer(obj, id, order[i], k, 0);
    }
  }

  /** Erasing the parts that were uploaded leaves what was there before, less their names. */
  lemma EraseUploaded(objects: Objects, obj: string, id: string, files: seq<Bytes>, order: seq<nat>, rounds: nat)
    requires Permutes(|files|, order)
    ensures Erase(Uploaded(objects, obj, id, files), PartNames(obj, id, order), obj, id, rounds) ==
            Erase(objects, PartNames(obj, id, Upto(|files|)), obj, id, rounds)
  {
    var up := Uploaded(objects, obj, id, files);
    var names, all := PartNames(obj, id, order), PartNames(obj, id, Upto(|files|));
    PermutationIsInRange(|files|, order);
    forall n
      ensures n in names <==> n in all
      ensures n !in all ==> (n in up <==> n in objects) && (n in objects ==> up[n] == objects[n])
    {
      if n in names {
        var i :| 0 <= i < |names| && names[i] == n;
        assert all[order[i]] == n;
      }
      if n in all {
        var k :| 0 <= k < |all| && all[k] == n;
        CountIn(order, k);
        var i :| 0 <= i < |order| && order[i] == k;
        assert names[i] == n;
      } else {
        forall k: nat | k < |files|
          ensures n != PartName(obj, id, k)
        {
          assert all[k] == PartName(obj, id, k);
        }
        UploadedElsewhere(objects, obj, id, files, n);
      }
    }
  }

  /** The contents of the parts in order are the writes in order. */
  lemma {:induction false} PartsHoldTheWrites(groups: seq<seq<Bytes>>, files: seq<Bytes>)
    requires |files| == |groups| && forall k | 0 <= k < |groups| :: files[k] == Flatten(groups[k])
    ensures InRange(files, Upto(|files|)) && Payload(files, Upto(|files|)) == Flatten(Ungroup(groups))
  {
    if groups != [] {
      var n := |groups| - 1;
      PartsHoldTheWrites(groups[..n], files[..n]);
      assert groups == groups[..n] + [groups[n]];
      UngroupAppend(groups[..n], groups[n]);
      FlattenAppend(Ungroup(groups[..n]), groups[n]);
      assert Upto(n + 1) == Upto(n) + [n];
      PayloadAppend(files, Upto(n), [n]);
      SinglePayload(files, n);
      PayloadOfPrefix(files, n, Upto(n));
    }
  }

  lemma {:induction false} PayloadOfPrefix(files: seq<Bytes>, n: nat, order: seq<nat>)
    requires n <= |files| && forall i | 0 <= i < |order| :: order[i] < n
    ensures Payload(files[..n], order) == Payload(files, order)
  {
    if order != [] {
      PayloadOfPrefix(files, n, order[1..]);
    }
  }

  /** What the loop of Close leaves, in terms of the bucket before the upload, if no
      attempt failed after recording its name. */
  lemma ComposedUpload(objects: Objects, obj: string, id: string, files: seq<Bytes>, workers: nat, acts: seq<Action>)
    requires workers >= 1 && IsRun(Init(|files|, workers), acts) && Waited(Exec(Init(|files|, workers), acts))
    requires Exec(Init(|files|, workers), acts).late == multiset{}
    ensures var order := Exec(Init(|files|, workers), acts).tmpObjs;
      && |order| == |files|
      && InRange(files, order) && InRange(files, Upto(|files|))
      && Erase(Uploaded(objects, obj, id, files), PartNames(obj, id, order), obj, id, Rounds(|files|)) ==
         Erase(objects, PartNames(obj, id, Upto(|files|)), obj, id, Rounds(|files|))
      && (workers == 1 || Commute(files) ==> Payload(files, order) == Payload(files, Upto(|files|)))
  {
    WaitedRun(|files|, workers, acts);
    var order := Exec(Init(|files|, workers), acts).tmpObjs;
    assert Permutes(|files|, order);
    PermutationIsInRange(|files|, order);
    PermutationLength(|files|, order);
    EraseUploaded(objects, obj, id, files, order, Rounds(|files|));
    if workers == 1 || Commute(files) {
      FaithfulRun(files, workers, acts);
    }
  }

  /** The recorded names when the wait returns: the compose loop never meets a name of its
      own, every part can be read in the recorded order, and no name is recorded twice
      exactly if no attempt failed after recording one. */
  lemma UploadedParts(objects: Objects, obj: string, id: string, files: seq<Bytes>, workers: nat, acts: seq<Action>)
    requires workers >= 1 && IsRun(Init(|files|, workers), acts) && Waited(Exec(Init(|files|, workers), acts))
    ensures var s, up := Exec(Init(|files|, workers), acts), Uploaded(objects, obj, id, files);
      var names := PartNames(obj, id, s.tmpObjs);
      && InRange(files, s.tmpObjs) && Fresh(names, obj, id, 0)
      && AllStored(up, names) && Concat(up, names) == Payload(files, s.tmpObjs)
      && (Intact(up, names) <==> s.late == multiset{})
      && (s.late == multiset{} ==>
            && |names| == |files|
            && Erase(up, names, obj, id, Rounds(|files|)) ==
               Erase(objects, PartNames(obj, id, Upto(|files|)), obj, id, Rounds(|files|))
            && (workers == 1 || Commute(files) ==>
                  InRange(files, Upto(|files|)) && Payload(files, s.tmpObjs) == Payload(files, Upto(|files|))))
  {
    var s := Exec(Init(|files|, workers), acts);
    WaitedRun(|files|, workers, acts);
    PermutationIsInRange(|files|, s.tmpObjs);
    NamesRepeatAsParts(obj, id, s.tmpObjs);
    ConcatIsPayload(objects, obj, id, files, s.tmpObjs);
    if s.late == multiset{} {
      ComposedUpload(objects, obj, id, files, workers, acts);
    }
  }

  /** When the wait returns, every part is among the recorded names and in the bucket. */
  lemma EveryPartIsAlive(objects: Objects, obj: string, id: string, files: seq<Bytes>, workers: nat, acts: seq<Action>)
    requires workers >= 1 && IsRun(Init(|files|, workers), acts) && Waited(Exec(Init(|files|, workers), acts))
    ensures var names := PartNames(obj, id, Exec(Init(|files|, workers), acts).tmpObjs);
      forall k | 0 <= k < |files| :: Alive(Uploaded(objects, obj, id, files), names, files[k])
  {
    var order := Exec(Init(|files|, workers), acts).tmpObjs;
    var names, up := PartNames(obj, id, order), Uploaded(objects, obj, id, files);
    WaitedRun(|files|, workers, acts);
    forall k | 0 <= k < |files|
      ensures Alive(up, names, files[k])
    {
      CountIn(order, k);
      var i :| 0 <= i < |order| && order[i] == k;
      assert names[i] == PartName(obj, id, k);
      UploadedPart(objects, obj, id, files, k);
      assert OccursAt(files[k], up[names[i]], 0);
      assert names[i] in names;
    }
  }
}
