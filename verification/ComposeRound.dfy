/** One round of the composition loop of BufferedWriter.Close, as a change of the bucket
    and of the list of temporary names. */
module ComposeRound {
  import opened Text
  import opened ObjectStore
  import opened Sequences

  /* Names of temporary objects. */

  function PartName(obj: string, id: string, k: nat): string {
    obj + "/" + id + "_part" + Dec(k)
  }

  function ComposeName(obj: string, id: string, i: nat): string {
    obj + "/" + id + "_compose_" + Dec(i)
  }

  /** All names one writer uses are different. */
  lemma NamesDiffer(obj: string, id: string, k: nat, i: nat, m: nat)
    ensures PartName(obj, id, k) == PartName(obj, id, m) ==> k == m
    ensures ComposeName(obj, id, i) == ComposeName(obj, id, m) ==> i == m
    ensures PartName(obj, id, k) != ComposeName(obj, id, i)
    ensures PartName(obj, id, k) != obj && ComposeName(obj, id, i) != obj
  {
    var stem := obj + "/" + id;
    assert PartName(obj, id, k)[|stem| + 1] == 'p';
    assert ComposeName(obj, id, i)[|stem| + 1] == 'c';
    assert PartName(obj, id, k)[|stem + "_part"|..] == Dec(k);
    assert PartName(obj, id, m)[|stem + "_part"|..] == Dec(m);
    assert ComposeName(obj, id, i)[|stem + "_compose_"|..] == Dec(i);
    assert ComposeName(obj, id, m)[|stem + "_compose_"|..] == Dec(m);
    DecInjective(k, m);
    DecInjective(i, m);
  }

  ghost predicate Intact(objects: Objects, names: seq<string>) {
    NoRepeats(names) && AllStored(objects, names)
  }

  function After(objects: Objects, window: seq<string>, dst: string): Objects
    requires AllStored(objects, window)
  {
    objects[dst := Concat(objects, window)] - ToSet(window)
  }

  /** On names that are distinct and stored, a round keeps them so and keeps the bytes. */
  lemma RoundKeepsBytes(objects: Objects, window: seq<string>, rest: seq<string>, dst: string)
    requires Intact(objects, window + rest) && dst !in window && dst !in rest
    ensures AllStored(objects, window) && Intact(After(objects, window, dst), [dst] + rest)
    ensures AllStored(objects[dst := Concat(objects, window)], [dst] + rest)
    ensures Concat(After(objects, window, dst), [dst] + rest) == Concat(objects, window + rest)
    ensures Concat(objects[dst := Concat(objects, window)], [dst] + rest) == Concat(objects, window + rest)
  {
    StoredParts(objects, window, rest);
    RestIsApart(window, rest);
    DistinctCons(dst, rest, window);
    StandsIn(objects, window, rest, dst, objects[dst := Concat(objects, window)]);
    StandsIn(objects, window, rest, dst, After(objects, window, dst));
  }

  lemma StoredParts(objects: Objects, a: seq<string>, b: seq<string>)
    requires AllStored(objects, a + b)
    ensures AllStored(objects, a) && AllStored(objects, b)
  {
    assert forall n | n in a :: n in a + b;
    assert forall n | n in b :: n in a + b;
  }

  lemma RestIsApart(window: seq<string>, rest: seq<string>)
    requires NoRepeats(window + rest)
    ensures forall n | n in rest :: n !in window
  {
    var all := window + rest;
    forall n | n in rest
      ensures n !in window
    {
      var j :| 0 <= j < |rest| && rest[j] == n;
      assert all[|window| + j] == n;
      assert forall i | 0 <= i < |window| :: all[i] == window[i];
    }
  }

  /** An object with the bytes of the window stands in for it, beside an unchanged rest. */
  lemma StandsIn(objects: Objects, window: seq<string>, rest: seq<string>, dst: string, now: Objects)
    requires AllStored(objects, window) && AllStored(objects, rest)
    requires dst in now && now[dst] == Concat(objects, window)
    requires forall n | n in rest :: n in now && now[n] == objects[n]
    ensures AllStored(now, [dst] + rest) && AllStored(objects, window + rest)
    ensures Concat(now, [dst] + rest) == Concat(objects, window + rest)
  {
    ConcatAppend(objects, window, rest);
    ConcatAgree(objects, now, rest);
    assert ([dst] + rest)[1..] == rest;
  }

  /** While the sources are being deleted, the composed object stands in for them. */
  lemma DeletingKeepsBytes(before: Objects, window: seq<string>, rest: seq<string>, dst: string, now: Objects)
    requires Intact(before, window + rest) && AllStored(before, window) && dst !in window && dst !in rest
    requires forall n | n in before[dst := Concat(before, window)] && n !in window ::
      n in now && now[n] == before[dst := Concat(before, window)][n]
    ensures AllStored(now, [dst] + rest) && Concat(now, [dst] + rest) == Concat(before, window + rest)
  {
    RoundKeepsBytes(before, window, rest, dst);
    ConcatAgree(before[dst := Concat(before, window)], now, [dst] + rest);
  }

  lemma DistinctCons(x: string, rest: seq<string>, window: seq<string>)
    requires NoRepeats(window + rest) && x !in rest
    ensures NoRepeats([x] + rest)
  {
    var all, t := window + rest, [x] + rest;
    forall i, j | 0 <= i < j < |t|
      ensures t[i] != t[j]
    {
      assert t[j] == rest[j - 1] == all[|window| + j - 1];
      if i > 0 {
        assert t[i] == rest[i - 1] == all[|window| + i - 1];
      }
    }
  }

  /** Names that are repeated or missing stay so through a round that succeeds. */
  lemma RoundKeepsDamage(objects: Objects, window: seq<string>, rest: seq<string>, dst: string)
    requires Intact(objects, window) && dst !in window && dst !in rest
    requires Intact(After(objects, window, dst), [dst] + rest)
    ensures Intact(objects, window + rest)
  {
    var all, t := window + rest, [dst] + rest;
    forall n | n in rest
      ensures n !in window && n in objects
    {
      assert n in t;
    }
    forall i, j | 0 <= i < j < |all|
      ensures all[i] != all[j]
    {
      if i >= |window| {
        assert all[i] == t[i - |window| + 1] && all[j] == t[j - |window| + 1];
      } else if j >= |window| {
        assert all[j] in rest && all[i] in window;
      }
    }
  }

  /* Damaged or not, a round loses no bytes. */

  ghost predicate OccursAt(piece: Bytes, data: Bytes, a: nat) {
    a + |piece| <= |data| && data[a..a + |piece|] == piece
  }

  ghost predicate Occurs(piece: Bytes, data: Bytes) {
    exists a :: OccursAt(piece, data, a)
  }

  /** Some object of the bucket contains the piece. */
  ghost predicate Kept(objects: Objects, piece: Bytes) {
    exists n :: n in objects && Occurs(piece, objects[n])
  }

  /** Some stored object among the names contains the piece. */
  ghost predicate Alive(objects: Objects, names: seq<string>, piece: Bytes) {
    exists n :: n in names && n in objects && Occurs(piece, objects[n])
  }

  ghost predicate Keeps(before: Objects, names: seq<string>, now: Objects, live: seq<string>) {
    forall piece | Alive(before, names, piece) :: Alive(now, live, piece)
  }

  /** As `Keeps`, with the piece in any object of the bucket. */
  ghost predicate KeepsSomewhere(before: Objects, names: seq<string>, now: Objects) {
    forall piece | Alive(before, names, piece) :: Kept(now, piece)
  }

  lemma OccursInside(piece: Bytes, a: Bytes, data: Bytes, b: Bytes)
    requires Occurs(piece, data)
    ensures Occurs(piece, a + data + b)
  {
    var i: nat :| OccursAt(piece, data, i);
    var all := a + data + b;
    assert all[|a| + i..|a| + i + |piece|] == data[i..i + |piece|];
    assert OccursAt(piece, all, |a| + i);
  }

  lemma {:induction false} OccursInConcat(objects: Objects, names: seq<string>, n: string, piece: Bytes)
    requires AllStored(objects, names) && n in names && Occurs(piece, objects[n])
    ensures Occurs(piece, Concat(objects, names))
  {
    var head, rest := objects[names[0]], names[1..];
    assert forall m | m in rest :: m in names;
    if n == names[0] {
      OccursInside(piece, [], head, Concat(objects, rest));
      assert [] + head + Concat(objects, rest) == Concat(objects, names);
    } else {
      OccursInConcat(objects, rest, n, piece);
      OccursInside(piece, head, Concat(objects, rest), []);
      assert head + Concat(objects, rest) + [] == Concat(objects, names);
    }
  }

  /** Whatever names are repeated or missing: after the composition, and while its sources
      are being deleted, every piece that a stored object of the list contained is
      contained in the composed object or in one that is still listed. */
  lemma RoundKeepsPieces(before: Objects, window: seq<string>, rest: seq<string>, dst: string, now: Objects)
    requires AllStored(before, window) && dst !in window && dst !in rest
    requires forall n | n in before[dst := Concat(before, window)] && n !in window ::
      n in now && now[n] == before[dst := Concat(before, window)][n]
    ensures Keeps(before, window + rest, now, [dst] + rest)
  {
    forall piece | Alive(before, window + rest, piece)
      ensures Alive(now, [dst] + rest, piece)
    {
      var n :| n in window + rest && n in before && Occurs(piece, before[n]);
      if n in window {
        OccursInConcat(before, window, n, piece);
        assert dst in [dst] + rest;
      } else {
        assert n in [dst] + rest;
      }
    }
  }

  /** What is left of a bucket when the temporary names and `rounds` compositions are gone. */
  ghost function Erase(objects: Objects, names: seq<string>, obj: string, id: string, rounds: nat): Objects {
    map n | n in objects && n !in names && (forall i | 0 <= i < rounds :: n != ComposeName(obj, id, i)) :: objects[n]
  }

  /** Outside the live temporary names, `now` is what is left of `before`. */
  ghost predicate Elsewhere(before: Objects, names: seq<string>, obj: string, id: string, rounds: nat,
                            now: Objects, live: seq<string>) {
    forall n | n !in live ::
      var left := Erase(before, names, obj, id, rounds);
      (n in now <==> n in left) && (n in left ==> now[n] == left[n])
  }

  lemma RoundElsewhere(before: Objects, names: seq<string>, obj: string, id: string, rounds: nat,
                       now: Objects, window: seq<string>, rest: seq<string>)
    requires AllStored(now, window)
    requires Elsewhere(before, names, obj, id, rounds, now, window + rest)
    requires forall n | n in window :: n in names || exists i | 0 <= i < rounds :: n == ComposeName(obj, id, i)
    ensures var dst := ComposeName(obj, id, rounds);
      Elsewhere(before, names, obj, id, rounds + 1, After(now, window, dst), [dst] + rest)
  {
    var dst := ComposeName(obj, id, rounds);
    var next := After(now, window, dst);
    forall n | n !in [dst] + rest
      ensures var left := Erase(before, names, obj, id, rounds + 1);
        (n in next <==> n in left) && (n in left ==> next[n] == left[n])
    {
      assert n != dst && n !in rest by {
        assert dst in [dst] + rest;
        assert forall r | r in rest :: r in [dst] + rest;
      }
      if n in window {
        assert n !in Erase(before, names, obj, id, rounds + 1);
      } else {
        assert n !in window + rest;
      }
    }
  }

  /** The number of compositions that turn `n` names into one, at most 32 at a time. */
  function Rounds(n: nat): nat {
    (n + 29) / 31
  }

  /** What the composition loop keeps: the live names are intact exactly if the first ones
      were, and then hold the same bytes in a bucket that is otherwise as it should be. */
  ghost predicate Progress(before: Objects, names: seq<string>, obj: string, id: string, rounds: nat,
                           now: Objects, live: seq<string>) {
    && (names == [] <==> live == [])
    && (Intact(before, names) <==> Intact(now, live))
    && (Intact(before, names) ==>
          && Concat(now, live) == Concat(before, names)
          && Elsewhere(before, names, obj, id, rounds, now, live))
    && (forall n | n in live :: n in names || exists i | 0 <= i < rounds :: n == ComposeName(obj, id, i))
    && Rounds(|names|) == rounds + Rounds(|live|)
  }

  lemma ProgressStarts(before: Objects, names: seq<string>, obj: string, id: string)
    ensures Progress(before, names, obj, id, 0, before, names)
  {
  }

  lemma ProgressRound(before: Objects, names: seq<string>, obj: string, id: string, rounds: nat,
                      now: Objects, window: seq<string>, rest: seq<string>)
    requires Progress(before, names, obj, id, rounds, now, window + rest)
    requires 0 < |window| <= MAX_SOURCES && (rest != [] ==> |window| == MAX_SOURCES) && |window + rest| != 1
    requires Intact(now, window)
    requires ComposeName(obj, id, rounds) !in window && ComposeName(obj, id, rounds) !in rest
    ensures var dst := ComposeName(obj, id, rounds);
      Progress(before, names, obj, id, rounds + 1, After(now, window, dst), [dst] + rest)
  {
    var dst := ComposeName(obj, id, rounds);
    var next := After(now, window, dst);
    var live := [dst] + rest;
    assert forall n | n in rest :: n in window + rest;
    assert forall n | n in window :: n in window + rest;
    if Intact(now, window + rest) {
      RoundKeepsBytes(now, window, rest, dst);
      RoundElsewhere(before, names, obj, id, rounds, now, window, rest);
    } else if Intact(next, live) {
      RoundKeepsDamage(now, window, rest, dst);
    }
    forall n | n in live
      ensures n in names || exists i | 0 <= i < rounds + 1 :: n == ComposeName(obj, id, i)
    {
      if n != dst {
        assert n in rest;
      }
    }
  }

  lemma IntactPrefix(objects: Objects, window: seq<string>, rest: seq<string>)
    requires Intact(objects, window + rest)
    ensures Intact(objects, window)
  {
    assert forall i | 0 <= i < |window| :: (window + rest)[i] == window[i];
    assert forall n | n in window :: n in window + rest;
  }

  ghost predicate Fresh(names: seq<string>, obj: string, id: string, i: nat) {
    obj !in names && forall k: nat | k >= i :: ComposeName(obj, id, k) !in names
  }

  lemma FreshAfterRound(window: seq<string>, rest: seq<string>, obj: string, id: string, i: nat)
    requires Fresh(window + rest, obj, id, i)
    ensures Fresh([ComposeName(obj, id, i)] + rest, obj, id, i + 1)
    ensures ComposeName(obj, id, i) !in window && ComposeName(obj, id, i) !in rest
  {
    assert forall n | n in rest :: n in window + rest;
    assert forall n | n in window :: n in window + rest;
    forall k: nat
      ensures ComposeName(obj, id, i) == ComposeName(obj, id, k) ==> k == i
      ensures ComposeName(obj, id, i) != obj
    {
      NamesDiffer(obj, id, 0, i, k);
    }
  }

  /** The last step of the loop: one name is left, and its object takes the final name. */
  lemma ProgressEnds(before: Objects, names: seq<string>, obj: string, id: string, rounds: nat,
                     now: Objects, last: string)
    requires Progress(before, names, obj, id, rounds, now, [last]) && last in now && last != obj
    ensures Intact(before, names)
    ensures now[obj := now[last]] - {last} == Erase(before, names, obj, id, rounds)[obj := Concat(before, names)]
    ensures rounds == Rounds(|names|)
  {
    assert last in [last];
    assert Intact(now, [last]);
    assert Concat(now, [last]) == now[last] + [];
    assert last !in Erase(before, names, obj, id, rounds);
    var left := now[obj := now[last]] - {last};
    var right := Erase(before, names, obj, id, rounds)[obj := Concat(before, names)];
    forall n
      ensures (n in left <==> n in right) && (n in left ==> left[n] == right[n])
    {
      if n != last {
        assert n !in [last];
      }
    }
  }
}
