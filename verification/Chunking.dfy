/** How Write cuts a sequence of writes into parts, stated on values. */
module Chunking {
  import opened ObjectStore

  /** The writes each flushed part holds, those the open part holds, and the byte counter. */
  datatype Chunks = Chunks(sent: seq<seq<Bytes>>, cur: seq<Bytes>, bytes: int)

  const EMPTY := Chunks([], [], 0)

  function Flatten(ws: seq<Bytes>): Bytes {
    if ws == [] then [] else ws[0] + Flatten(ws[1..])
  }

  function Ungroup(groups: seq<seq<Bytes>>): seq<Bytes> {
    if groups == [] then [] else groups[0] + Ungroup(groups[1..])
  }

  /** Everything written so far, write by write. */
  function Writes(c: Chunks): seq<Bytes> {
    Ungroup(c.sent) + c.cur
  }

  /** The counter takes in the write `d`; if that fills the chunk, a new part begins. */
  function Room(cSize: int, c: Chunks, d: Bytes): Chunks {
    if c.bytes + |d| >= cSize then Chunks(c.sent + [c.cur], [], |d|)
    else c.(bytes := c.bytes + |d|)
  }

  /** The open part then receives `piece`, which is all of `d` unless the write fails. */
  function Accept(cSize: int, c: Chunks, d: Bytes, piece: Bytes): Chunks {
    var room := Room(cSize, c, d);
    room.(cur := room.cur + [piece])
  }

  function Cut(cSize: int, ws: seq<Bytes>): Chunks {
    if ws == [] then EMPTY
    else Accept(cSize, Cut(cSize, ws[..|ws| - 1]), ws[|ws| - 1], ws[|ws| - 1])
  }

  lemma BytesAssociate(a: Bytes, b: Bytes, c: Bytes)
    ensures a + (b + c) == (a + b) + c
  {
  }

  lemma {:induction false} FlattenAppend(a: seq<Bytes>, b: seq<Bytes>)
    ensures Flatten(a + b) == Flatten(a) + Flatten(b)
  {
    if a == [] {
      assert a + b == b;
    } else {
      FlattenAppend(a[1..], b);
      assert (a + b)[0] == a[0] && (a + b)[1..] == a[1..] + b;
      BytesAssociate(a[0], Flatten(a[1..]), Flatten(b));
    }
  }

  lemma FlattenOne(d: Bytes)
    ensures Flatten([d]) == d
  {
    assert d + [] == d;
  }

  lemma {:induction false} UngroupAppend(groups: seq<seq<Bytes>>, g: seq<Bytes>)
    ensures Ungroup(groups + [g]) == Ungroup(groups) + g
  {
    if groups == [] {
      assert groups + [g] == [g];
      assert g + [] == g;
    } else {
      UngroupAppend(groups[1..], g);
      assert (groups + [g])[1..] == groups[1..] + [g];
    }
  }

  lemma RoomKeepsWrites(cSize: int, c: Chunks, d: Bytes)
    ensures Writes(Room(cSize, c, d)) == Writes(c)
  {
    UngroupAppend(c.sent, c.cur);
  }

  lemma AcceptAppends(cSize: int, c: Chunks, d: Bytes, piece: Bytes)
    ensures Writes(Accept(cSize, c, d, piece)) == Writes(c) + [piece]
  {
    RoomKeepsWrites(cSize, c, d);
  }

  ghost predicate SmallOrSingle(cSize: int, group: seq<Bytes>) {
    |Flatten(group)| < cSize || |group| <= 1
  }

  /** Part k was closed only because the write that opens the next part did not fit. */
  ghost predicate Greedy(cSize: int, group: seq<Bytes>, next: seq<Bytes>) {
    next != [] && |Flatten(group)| + |next[0]| >= cSize
  }

  ghost predicate WellCut(cSize: int, c: Chunks) {
    && c.bytes == |Flatten(c.cur)|
    && (forall k | 0 <= k < |c.sent| :: SmallOrSingle(cSize, c.sent[k]))
    && SmallOrSingle(cSize, c.cur)
    && (forall k | 0 <= k < |c.sent| - 1 :: Greedy(cSize, c.sent[k], c.sent[k + 1]))
    && (c.sent != [] ==> Greedy(cSize, c.sent[|c.sent| - 1], c.cur))
  }

  lemma AcceptWellCut(cSize: int, c: Chunks, d: Bytes)
    requires WellCut(cSize, c)
    ensures WellCut(cSize, Accept(cSize, c, d, d))
  {
    FlattenAppend(c.cur, [d]);
    FlattenOne(d);
    var t := Accept(cSize, c, d, d);
    if c.bytes + |d| >= cSize {
      assert Greedy(cSize, t.sent[|t.sent| - 1], t.cur);
      forall k | 0 <= k < |t.sent| - 1
        ensures Greedy(cSize, t.sent[k], t.sent[k + 1])
      {
        if k < |c.sent| - 1 {
          assert Greedy(cSize, c.sent[k], c.sent[k + 1]);
        }
      }
    } else if c.sent != [] {
      assert Greedy(cSize, c.sent[|c.sent| - 1], c.cur);
    }
  }

  /** For every chunk size and every sequence of writes: the parts in order hold exactly
      the writes in order, no write is split, the counter is the size of the open part,
      a part holding two or more writes is smaller than the chunk size, and no part could
      have taken the write that follows it. */
  lemma CutsAreFaithful(cSize: int, ws: seq<Bytes>)
    ensures Writes(Cut(cSize, ws)) == ws
    ensures WellCut(cSize, Cut(cSize, ws))
  {
    CutsKeepWrites(cSize, ws);
    CutsAreWellCut(cSize, ws);
  }

  lemma CutNext(cSize: int, init: seq<Bytes>, d: Bytes)
    ensures Cut(cSize, init + [d]) == Accept(cSize, Cut(cSize, init), d, d)
  {
    assert (init + [d])[..|init|] == init;
  }

  lemma {:induction false} CutsKeepWrites(cSize: int, ws: seq<Bytes>)
    ensures Writes(Cut(cSize, ws)) == ws
  {
    if ws == [] {
      assert Ungroup([]) == [];
    } else {
      var init, d := ws[..|ws| - 1], ws[|ws| - 1];
      assert ws == init + [d];
      CutNext(cSize, init, d);
      CutsKeepWrites(cSize, init);
      var before := Cut(cSize, init);
      AcceptAppends(cSize, before, d, d);
    }
  }

  lemma {:induction false} CutsAreWellCut(cSize: int, ws: seq<Bytes>)
    ensures WellCut(cSize, Cut(cSize, ws))
  {
    if ws == [] {
      assert Flatten([]) == [];
    } else {
      var init, d := ws[..|ws| - 1], ws[|ws| - 1];
      assert ws == init + [d];
      CutNext(cSize, init, d);
      CutsAreWellCut(cSize, init);
      AcceptWellCut(cSize, Cut(cSize, init), d);
    }
  }

  /** The first write of a positive-size writer that fills a chunk on its own is preceded
      by an empty part: the code flushes the file it has just created. */
  lemma OversizedFirstWrite(cSize: int, d: Bytes)
    requires |d| >= cSize
    ensures Cut(cSize, [d]) == Chunks([[]], [d], |d|)
  {
    assert [d][..0] == [];
    assert Cut(cSize, [d]) == Accept(cSize, Cut(cSize, []), d, d);
  }
}
