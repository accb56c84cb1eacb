/** The chunked, concurrent, composed upload: a writer that cuts a stream into part files,
    hands them to upload workers, and composes the uploaded parts into one object. */
module BufferedWriter {
  import opened Text
  import opened ObjectStore
  import opened Sequences
  import opened UploadProtocol
  import opened UploadOrder
  import opened ComposeRound
  import opened PartObjects
  import opened Chunking

  /** A local part file. */
  datatype File = File(name: string, data: Bytes, open: bool)

  /** What the file system does to one call: creating the first file fails, closing a file
      fails, creating the file that follows it fails, or a write stores only the first
      bytes it is given and reports an error. */
  datatype FileFaults = FileFaults(create: bool, close: bool, recreate: bool, short: Option<nat>) {
    function Piece(d: Bytes): Bytes {
      if short.Some? && short.value < |d| then d[..short.value] else d
    }
  }

  /** The contents of the part files, in the order in which they were flushed. */
  function Contents(files: seq<File>): seq<Bytes> {
    seq(|files|, i requires 0 <= i < |files| => files[i].data)
  }

  class BufferedWriter {
    const cSize: int
    const prefix: string
    const id: string
    const obj: string
    const workers: nat
    const bucket: Bucket
    // The files sent on the upload channel so far.
    var upload: seq<File>
    var tmpObjs: seq<string>
    var bytes: int
    var part: nat
    var file: Option<File>
    // The writes behind the files; no code reads it.
    ghost var chunks: Chunks

    function ChunkPath(k: nat): string {
      prefix + "/" + id + "_part" + Dec(k)
    }

    predicate Open()
      reads this
    {
      file.Some? && file.value.open
    }

    /** The flushed files hold the writes on record. The steps of the workers are taken in
        Close, so no name has been recorded before it. */
    ghost predicate Sent()
      reads this
    {
      && tmpObjs == []
      && |upload| == |chunks.sent|
      && forall k | 0 <= k < |upload| ::
           upload[k].name == ChunkPath(k) && upload[k].data == Flatten(chunks.sent[k]) && !upload[k].open
    }

    /** The open file is the next part and holds the writes on record. */
    ghost predicate Current()
      reads this
      requires Open()
    {
      && part == |upload| + 1
      && file.value.name == ChunkPath(part - 1) && file.value.data == Flatten(chunks.cur)
    }

    ghost predicate Valid()
      reads this
    {
      && Sent()
      && (file.None? ==> chunks == EMPTY && part == 0 && bytes == 0)
      && (Open() ==> Current() && bytes == chunks.bytes)
    }

    /** All bytes the part files hold. */
    ghost function Stream(): Bytes
      reads this
    {
      Flatten(Writes(chunks))
    }

    /** The chunk size is the buffer size divided among the workers. */
    constructor (size: int, workers: nat, prefix: string, id: string, obj: string, bucket: Bucket)
      requires workers >= 1
      ensures Valid() && file == None && chunks == EMPTY && upload == [] && tmpObjs == []
      ensures this.workers == workers && this.obj == obj && this.id == id && this.bucket == bucket
      ensures this.cSize == Quotient(size, workers) && this.prefix == prefix
    {
      this.cSize := Quotient(size, workers);
      this.workers, this.prefix, this.id, this.obj, this.bucket := workers, prefix, id, obj, bucket;
      upload, tmpObjs, bytes, part, file := [], [], 0, 0, None;
      chunks := EMPTY;
    }

    method NewChunk(fails: bool) returns (err: bool)
      modifies this`bytes, this`part, this`file
      ensures err == fails
      ensures err ==> bytes == old(bytes) && part == old(part) && file == old(file)
      ensures !err ==> bytes == 0 && part == old(part) + 1 && file == Some(File(ChunkPath(old(part)), [], true))
    {
      err := fails;
      if !err {
        bytes := 0;
        file := Some(File(ChunkPath(part), [], true));
        part := part + 1;
      }
    }

    /** Closing a missing or closed file is an error, and so may be closing an open one. */
    method Flush(faults: FileFaults) returns (err: bool)
      modifies this`file, this`upload
      ensures err == (faults.close || !old(Open()))
      ensures old(Open()) ==> file == Some(old(file.value).(open := false))
      ensures !old(Open()) ==> file == old(file)
      ensures upload == if err then old(upload) else old(upload) + [file.value]
    {
      if file.None? || !file.value.open {
        return true;
      }
      file := Some(file.value.(open := false));
      if faults.close {
        return true;
      }
      upload := upload + [file.value];
      return false;
    }

    /** A successful write appends `d`, whole, to one part. A failing one appends nothing,
        or the beginning of `d` that a short write left in the file. Once a flush or a
        reopening has failed, the file stays closed and every later call fails. */
    method Write(d: Bytes, faults: FileFaults) returns (n: int, err: bool)
      requires Valid()
      modifies this`bytes, this`part, this`file, this`upload, this`chunks
      ensures Valid()
      ensures err == old(NoRoom(d, faults) || (file.Some? && !file.value.open) || faults.short.Some?)
      ensures n == if err then 0 else |d|
      ensures !err ==> Open() && chunks == Accept(cSize, old(chunks), d, d)
      ensures Stream() == old(Stream()) +
        (if !err then d else if Open() && faults.short.Some? then faults.Piece(d) else [])
      ensures old(file.Some? && !file.value.open) ==> file.Some? && !Open() && upload == old(upload)
    {
      err := MakeRoom(d, faults);
      if err {
        return 0, true;
      }
      n, err := Append(d, faults, old(chunks));
    }

    /** The ways in which no open file with room for `d` can be had. */
    ghost predicate NoRoom(d: Bytes, faults: FileFaults)
      reads this
    {
      || (file.None? && faults.create)
      || (bytes + |d| >= cSize && (faults.close || faults.recreate || (file.Some? && !file.value.open)))
    }

    /** The file is about to receive a piece of the write `d`. */
    ghost predicate Ready(before: Chunks, d: Bytes)
      reads this
    {
      Sent() && file.Some? && (Open() ==> Current() && chunks == Room(cSize, before, d) && bytes == chunks.bytes)
    }

    /** The first part of Write: counts `d` and starts a new file if `d` does not fit. */
    method MakeRoom(d: Bytes, faults: FileFaults) returns (err: bool)
      requires Valid()
      modifies this`bytes, this`part, this`file, this`upload, this`chunks
      ensures err == old(NoRoom(d, faults))
      ensures Writes(chunks) == Writes(old(chunks))
      ensures if err then Valid() && !Open() else Ready(old(chunks), d)
      ensures old(file.Some? && !file.value.open) ==> file.Some? && !Open() && upload == old(upload)
      ensures !err ==> Open() == old(file.None? || file.value.open)
    {
      if file == None {
        err := NewChunk(faults.create);
        if err {
          return;
        }
      }
      bytes := bytes + |d|;
      if bytes >= cSize {
        err := Rotate(d, faults);
      } else {
        err := false;
        chunks := if file.value.open then Room(cSize, chunks, d) else chunks;
      }
    }

    /** Flushes the full part; the writes on record now count `d` in the next one. */
    method SendPart(d: Bytes, faults: FileFaults) returns (err: bool)
      requires Sent() && file.Some? && (Open() ==> Current())
      requires Open() ==> chunks.bytes + |d| >= cSize
      modifies this`file, this`upload, this`chunks
      ensures err == (faults.close || !old(Open()))
      ensures Writes(chunks) == Writes(old(chunks))
      ensures Sent() && file.Some? && !Open()
      ensures !err ==> chunks == Room(cSize, old(chunks), d) && part == |upload|
      ensures !old(Open()) ==> upload == old(upload)
    {
      err := Flush(faults);
      if !err {
        RoomKeepsWrites(cSize, chunks, d);
        chunks := Room(cSize, chunks, d);
      }
    }

    /** Flushes the full part and starts the next one for the write `d`. */
    method Rotate(d: Bytes, faults: FileFaults) returns (err: bool)
      requires Sent() && file.Some? && (Open() ==> Current())
      requires Open() ==> chunks.bytes + |d| >= cSize
      modifies this`bytes, this`part, this`file, this`upload, this`chunks
      ensures err == (faults.close || faults.recreate || !old(Open()))
      ensures Writes(chunks) == Writes(old(chunks))
      ensures if err then Sent() && file.Some? && !Open() else Open() && Ready(old(chunks), d)
      ensures !old(Open()) ==> upload == old(upload)
    {
      err := SendPart(d, faults);
      if err {
        return;
      }
      err := NewChunk(faults.recreate);
      if err {
        return;
      }
      bytes := |d|;
    }

    /** The last part of Write: the open file receives `d`, or a piece of it and an error. */
    method Append(d: Bytes, faults: FileFaults, ghost before: Chunks) returns (n: int, err: bool)
      requires Ready(before, d)
      modifies this`file, this`chunks
      ensures Valid() && file.Some? && Open() == old(Open())
      ensures err == (!Open() || faults.short.Some?)
      ensures n == if err then 0 else |d|
      ensures Open() ==> chunks == Accept(cSize, before, d, faults.Piece(d))
      ensures Open() ==> Stream() == Flatten(Writes(before)) + faults.Piece(d)
      ensures !Open() ==> chunks == old(chunks)
    {
      if !file.value.open {
        return 0, true;
      }
      var piece := faults.Piece(d);
      file := Some(file.value.(data := file.value.data + piece));
      FlattenAppend(chunks.cur, [piece]);
      FlattenOne(piece);
      chunks := Accept(cSize, before, d, piece);
      AcceptAppends(cSize, before, d, piece);
      FlattenAppend(Writes(before), [piece]);
      if faults.short.Some? {
        return 0, true;
      }
      return |d|, false;
    }

    /** The names that the composition loop may meet are its own. */
    ghost predicate NamesAreFresh(i: nat)
      reads this
    {
      Fresh(tmpObjs, obj, id, i)
    }

    /** Deletes the composed sources one by one. It succeeds only on distinct stored names. */
    method DeleteAll(objs: seq<string>) returns (err: bool)
      modifies bucket
      ensures !err ==> Intact(old(bucket.objects), objs) && bucket.outage == old(bucket.outage)
      ensures !err ==> bucket.objects == old(bucket.objects) - ToSet(objs)
      ensures err && Intact(old(bucket.objects), objs) ==> bucket.outage
      ensures forall n | n in old(bucket.objects) && n !in objs ::
        n in bucket.objects && bucket.objects[n] == old(bucket.objects)[n]
      ensures old(bucket.outage) ==> bucket.outage
    {
      ghost var before := bucket.objects;
      for i := 0 to |objs|
        invariant bucket.outage == old(bucket.outage)
        invariant bucket.objects == before - ToSet(objs[..i])
        invariant Intact(before, objs[..i])
      {
        err := bucket.Delete(objs[i]);
        if err {
          assert objs[i] !in before || objs[i] in objs[..i] || bucket.outage;
          return;
        }
        assert objs[..i + 1] == objs[..i] + [objs[i]];
      }
      assert objs[..|objs|] == objs;
      err := false;
    }

    /** The data can be read from the bucket, from one or more objects. */
    ghost predicate Readable(data: Bytes)
      reads bucket
    {
      exists live :: AllStored(bucket.objects, live) && Concat(bucket.objects, live) == data
    }

    /** The bytes of these names can be read from the bucket, under some names. */
    ghost predicate Recoverable(before: Objects, names: seq<string>)
      reads bucket
      requires AllStored(before, names)
    {
      Readable(Concat(before, names))
    }

    /** One round: composes the first names into a new object and deletes them. */
    method ComposeWindow(i: nat) returns (err: bool)
      requires NamesAreFresh(i) && |tmpObjs| != 1 && !bucket.outage
      modifies this`tmpObjs, bucket
      ensures var l := if old(|tmpObjs|) < MAX_SOURCES then old(|tmpObjs|) else MAX_SOURCES;
        var window, rest := old(tmpObjs)[..l], old(tmpObjs)[l..];
        && (!err ==> window != [] && tmpObjs == [ComposeName(obj, id, i)] + rest && !bucket.outage)
        && (!err ==> Intact(old(bucket.objects), window))
        && (!err ==> bucket.objects == After(old(bucket.objects), window, ComposeName(obj, id, i)))
        && (err && window != [] && Intact(old(bucket.objects), window) ==> bucket.outage)
      ensures err && Intact(old(bucket.objects), old(tmpObjs)) ==> Recoverable(old(bucket.objects), old(tmpObjs))
      ensures err ==> KeepsSomewhere(old(bucket.objects), old(tmpObjs), bucket.objects)
      ensures !err ==> Keeps(old(bucket.objects), old(tmpObjs), bucket.objects, tmpObjs)
    {
      ghost var before, names := bucket.objects, tmpObjs;
      var l := if |tmpObjs| < MAX_SOURCES then |tmpObjs| else MAX_SOURCES;
      var objs := tmpObjs[..l];
      var newObj := ComposeName(obj, id, i);
      ghost var rest := tmpObjs[l..];
      assert names == objs + rest;
      FreshAfterRound(objs, rest, obj, id, i);
      tmpObjs := [newObj] + tmpObjs[l..];
      err := bucket.Compose(newObj, objs);
      if err {
        if Intact(before, names) {
          assert AllStored(bucket.objects, names);
        }
        return;
      }
      assert objs != [] && AllStored(before, objs);
      ghost var composed := bucket.objects;
      if Intact(before, names) {
        RoundKeepsBytes(before, objs, rest, newObj);
      }
      err := DeleteAll(objs);
      RoundKeepsPieces(before, objs, rest, newObj, bucket.objects);
      if err && Intact(before, names) {
        DeletingKeepsBytes(before, objs, rest, newObj, bucket.objects);
      }
    }

    /** The composition loop of Close. Without an outage it succeeds exactly on a non-empty
        list of distinct stored names. It then leaves one object in place of all of them,
        holding their bytes in order, after the least number of compositions. On failure
        the bytes of distinct names can still be read from the bucket. Whatever the names
        and the outcome, everything that a stored object of them contained is contained in
        some object of the bucket. */
    method ComposeParts() returns (err: bool, ghost rounds: nat)
      requires NamesAreFresh(0) && !bucket.outage
      modifies this`tmpObjs, bucket
      ensures err == (bucket.outage || old(tmpObjs) == [] || !Intact(old(bucket.objects), old(tmpObjs)))
      ensures !err ==> (bucket.objects ==
        Erase(old(bucket.objects), old(tmpObjs), obj, id, rounds)[obj := Concat(old(bucket.objects), old(tmpObjs))])
      ensures !err ==> rounds == Rounds(|old(tmpObjs)|)
      ensures err && Intact(old(bucket.objects), old(tmpObjs)) ==> Recoverable(old(bucket.objects), old(tmpObjs))
      ensures KeepsSomewhere(old(bucket.objects), old(tmpObjs), bucket.objects)
    {
      ghost var before, names := bucket.objects, tmpObjs;
      var i := 0;
      rounds := 0;
      ProgressStarts(before, names, obj, id);
      while |tmpObjs| != 1
        invariant NamesAreFresh(i) && rounds == i && !bucket.outage
        invariant Progress(before, names, obj, id, i, bucket.objects, tmpObjs)
        invariant Keeps(before, names, bucket.objects, tmpObjs)
        decreases |tmpObjs|
      {
        ghost var l := if |tmpObjs| < MAX_SOURCES then |tmpObjs| else MAX_SOURCES;
        ghost var now, window, rest := bucket.objects, tmpObjs[..l], tmpObjs[l..];
        assert tmpObjs == window + rest;
        err := ComposeWindow(i);
        if err {
          if Intact(now, window + rest) {
            IntactPrefix(now, window, rest);
          }
          return;
        }
        FreshAfterRound(window, rest, obj, id, i);
        ProgressRound(before, names, obj, id, i, now, window, rest);
        i := i + 1;
        rounds := i;
      }
      ghost var now, last := bucket.objects, tmpObjs[0];
      assert tmpObjs == [last] && last in [last];
      assert Intact(now, [last]) <==> last in now;
      if last in now {
        ProgressEnds(before, names, obj, id, i, now, last);
      }
      err := bucket.CopyFrom(obj, tmpObjs[0]);
      if !err {
        err := bucket.Delete(tmpObjs[0]);
      }
      assert last in now ==> if last in bucket.objects then bucket.objects[last] == now[last]
                             else obj in bucket.objects && bucket.objects[obj] == now[last];
      if err && last in now {
        assert AllStored(bucket.objects, [last]);
        ConcatAgree(now, bucket.objects, [last]);
      }
    }

    /** The workers' side. `acts` is the interleaving that takes place: an attempt records
        its name before it uploads, a successful one stores the part, and a failing one may
        have stored it. */
    method RunWorkers(acts: seq<Action>)
      requires IsRun(Init(|upload|, workers), acts) && tmpObjs == []
      modifies this`tmpObjs, bucket`objects
      ensures var s := Exec(Init(|upload|, workers), acts);
        && InRange(Contents(upload), s.tmpObjs) && tmpObjs == PartNames(obj, id, s.tmpObjs)
        && HoldsParts(bucket.objects, old(bucket.objects), obj, id, Contents(upload), s.stored)
    {
      var s := Init(|upload|, workers);
      ghost var before := bucket.objects;
      InitInv(|upload|, workers);
      for i := 0 to |acts|
        invariant Inv(s) && s.parts == |upload| && IsRun(s, acts[i..])
        invariant Exec(s, acts[i..]) == Exec(Init(|upload|, workers), acts)
        invariant InRange(Contents(upload), s.tmpObjs) && tmpObjs == PartNames(obj, id, s.tmpObjs)
        invariant HoldsParts(bucket.objects, before, obj, id, Contents(upload), s.stored)
      {
        var a := acts[i];
        assert acts[i..][0] == a && acts[i..][1..] == acts[i + 1..];
        ghost var t := Step(s, a);
        StepInv(s, a);
        match a {
          case AddObj(w) =>
            HeldPart(s, w);
            tmpObjs := tmpObjs + [PartName(obj, id, s.workers[w].part)];
          case FailLate(w, committed) =>
            HeldPart(s, w);
            if committed {
              Store(s.workers[w].part, s.stored, before);
            }
          case Succeed(w) =>
            HeldPart(s, w);
            Store(s.workers[w].part, s.stored, before);
          case _ =>
        }
        s := Step(s, a);
      }
    }

    /** An upload writes the contents of a part under its name. */
    method Store(k: nat, ghost stored: set<nat>, ghost before: Objects)
      requires k < |upload| && HoldsParts(bucket.objects, before, obj, id, Contents(upload), stored)
      modifies bucket`objects
      ensures HoldsParts(bucket.objects, before, obj, id, Contents(upload), stored + {k})
    {
      StoringAPart(bucket.objects, before, obj, id, Contents(upload), stored, k);
      bucket.objects := bucket.objects[PartName(obj, id, k) := upload[k].data];
    }

    /** When the wait returns, every part is an object, and `tmpObjs` lists the names in the
        order in which the workers recorded them. */
    method Wait(acts: seq<Action>)
      requires workers >= 1 && tmpObjs == []
      requires IsRun(Init(|upload|, workers), acts) && Waited(Exec(Init(|upload|, workers), acts))
      modifies this`tmpObjs, bucket`objects
      ensures tmpObjs == PartNames(obj, id, Exec(Init(|upload|, workers), acts).tmpObjs)
      ensures bucket.objects == Uploaded(old(bucket.objects), obj, id, Contents(upload))
    {
      RunWorkers(acts);
      WaitedRun(|upload|, workers, acts);
      AllPartsStored(bucket.objects, old(bucket.objects), obj, id, Contents(upload),
                     Exec(Init(|upload|, workers), acts).stored);
    }

    /** The part files once the open one has been flushed. */
    ghost function AllParts(): seq<Bytes>
      requires Open()
      reads this
    {
      Contents(upload) + [file.value.data]
    }

    /** The bucket with `data` as the object and no temporary object of this writer. */
    ghost function Published(objects: Objects, parts: nat, data: Bytes): Objects {
      Erase(objects, PartNames(obj, id, Upto(parts)), obj, id, Rounds(parts))[obj := data]
    }

    /** Flushes the last part, waits for the workers and composes the parts.
        It reports success exactly if the writer has an open file, no file, client or
        storage operation fails, and no upload attempt failed after recording its name.
        On success the parts, in the order in which their names were recorded, are the
        object, and nothing else is left of them. With one worker, or if the parts
        commute, that is the stream that was written. Whatever happens after the wait,
        every part is contained in some object of the bucket; and unless an upload attempt
        failed late, the parts can be read in their recorded order. If the flush fails,
        nobody waits for the workers: the parts flushed earlier that they have stored by
        then, after any run cut off anywhere, are left in the bucket. */
    method Close(acts: seq<Action>, faults: FileFaults, clientFails: bool) returns (err: bool)
      requires Valid() && workers >= 1 && !bucket.outage
      requires if Open() && !faults.close
               then IsRun(Init(|upload| + 1, workers), acts) && Waited(Exec(Init(|upload| + 1, workers), acts))
               else IsRun(Init(|upload|, workers), acts)
      modifies this`file, this`upload, this`tmpObjs, bucket
      ensures !old(Open()) || faults.close ==>
        && err && bucket.outage == old(bucket.outage)
        && HoldsParts(bucket.objects, old(bucket.objects), obj, id, old(Contents(upload)),
                      Exec(Init(old(|upload|), workers), acts).stored)
      ensures old(Open()) && !faults.close ==>
        var s := Exec(Init(old(|upload|) + 1, workers), acts);
        var parts := old(AllParts());
        && InRange(parts, s.tmpObjs)
        && err == (clientFails || bucket.outage || s.late != multiset{})
        && (!err ==> bucket.objects == Published(old(bucket.objects), |parts|, Payload(parts, s.tmpObjs)))
        && (!err && (workers == 1 || Commute(parts)) ==> bucket.objects[obj] == old(Stream()))
        && (err && s.late == multiset{} ==> Readable(Payload(parts, s.tmpObjs)))
        && (forall k | 0 <= k < |parts| :: Kept(bucket.objects, parts[k]))
    {
      err := Flush(faults);
      if err {
        RunWorkers(acts);
        return;
      }
      ghost var parts := Contents(upload);
      assert parts == old(AllParts());
      PartsHoldTheWrites(chunks.sent + [chunks.cur], parts);
      UngroupAppend(chunks.sent, chunks.cur);
      err := ComposeUpload(acts, clientFails);
    }

    /** The second half of Close: waits for the workers and composes the parts. */
    method ComposeUpload(acts: seq<Action>, clientFails: bool) returns (err: bool)
      requires workers >= 1 && !bucket.outage && upload != [] && tmpObjs == []
      requires IsRun(Init(|upload|, workers), acts) && Waited(Exec(Init(|upload|, workers), acts))
      modifies this`tmpObjs, bucket
      ensures var parts, s := Contents(upload), Exec(Init(|upload|, workers), acts);
        && InRange(parts, s.tmpObjs) && InRange(parts, Upto(|parts|))
        && err == (clientFails || bucket.outage || s.late != multiset{})
        && (!err ==> bucket.objects == Published(old(bucket.objects), |parts|, Payload(parts, s.tmpObjs)))
        && (!err && (workers == 1 || Commute(parts)) ==> Payload(parts, s.tmpObjs) == Payload(parts, Upto(|parts|)))
        && (err && s.late == multiset{} ==> Readable(Payload(parts, s.tmpObjs)))
        && (forall k | 0 <= k < |parts| :: Kept(bucket.objects, parts[k]))
    {
      Wait(acts);
      UploadedParts(old(bucket.objects), obj, id, Contents(upload), workers, acts);
      EveryPartIsAlive(old(bucket.objects), obj, id, Contents(upload), workers, acts);
      if clientFails {
        return true;
      }
      ghost var rounds;
      err, rounds := ComposeParts();
    }
  }

  lemma HeldPart(s: Sys, w: nat)
    requires Inv(s) && w < |s.workers| && s.workers[w].Holding?
    ensures s.workers[w].part < s.parts
  {
    assert PartInv(s, s.workers[w].part);
    HoldersBound(s.workers, s.workers[w].part);
  }

  /** Go's integer division of a size by a positive number of workers. */
  function Quotient(size: int, workers: nat): int
    requires workers >= 1
  {
    if size >= 0 then size / workers else -((-size) / workers)
  }
}
