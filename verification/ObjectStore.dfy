/** A storage bucket: a map from object names to bytes. The three operations the
    buffered writer uses either take effect as a whole or fail and change nothing. */
module ObjectStore {

  newtype Byte = x: int | 0 <= x < 256

  type Bytes = seq<Byte>

  type Objects = map<string, Bytes>

  /** At most this many sources fit in one composition. */
  const MAX_SOURCES: nat := 32

  ghost predicate AllStored(objects: Objects, names: seq<string>) {
    forall n | n in names :: n in objects
  }

  ghost predicate Composable(objects: Objects, srcs: seq<string>) {
    1 <= |srcs| <= MAX_SOURCES && AllStored(objects, srcs)
  }

  /** The contents of the named objects, one after the other. */
  function Concat(objects: Objects, names: seq<string>): Bytes
    requires forall n | n in names :: n in objects
  {
    if names == [] then [] else objects[names[0]] + Concat(objects, names[1..])
  }

  lemma {:induction false} ConcatAppend(objects: Objects, a: seq<string>, b: seq<string>)
    requires AllStored(objects, a) && AllStored(objects, b)
    ensures AllStored(objects, a + b)
    ensures Concat(objects, a + b) == Concat(objects, a) + Concat(objects, b)
  {
    if a == [] {
      assert a + b == b;
    } else {
      assert forall n | n in a[1..] :: n in a;
      assert (a + b)[0] == a[0] && (a + b)[1..] == a[1..] + b;
      ConcatAppend(objects, a[1..], b);
      calc {
        Concat(objects, a + b);
        objects[a[0]] + Concat(objects, a[1..] + b);
        objects[a[0]] + (Concat(objects, a[1..]) + Concat(objects, b));
        Concat(objects, a) + Concat(objects, b);
      }
    }
  }

  /** Only the contents of the listed names matter. */
  lemma {:induction false} ConcatAgree(o1: Objects, o2: Objects, names: seq<string>)
    requires AllStored(o1, names) && AllStored(o2, names)
    requires forall n | n in names :: o1[n] == o2[n]
    ensures Concat(o1, names) == Concat(o2, names)
  {
    if names != [] {
      assert forall n | n in names[1..] :: n in names;
      ConcatAgree(o1, o2, names[1..]);
    }
  }

  class Bucket {
    var objects: Objects
    // Set once an operation has failed although its arguments were acceptable.
    var outage: bool

    /** Concatenates 1 to 32 existing sources into `dst`. */
    method Compose(dst: string, srcs: seq<string>) returns (err: bool)
      modifies this
      ensures !err ==> Composable(old(objects), srcs) && outage == old(outage)
      ensures !err ==> objects == old(objects)[dst := Concat(old(objects), srcs)]
      ensures err ==> objects == old(objects)
      ensures err ==> outage == (old(outage) || Composable(old(objects), srcs))
    {
      var fails: bool := *;
      if 1 <= |srcs| <= MAX_SOURCES && forall n | n in srcs :: n in objects {
        if fails {
          outage := true;
        } else {
          objects := objects[dst := Concat(objects, srcs)];
        }
        err := fails;
      } else {
        err := true;
      }
    }

    /** Copies one existing object. */
    method CopyFrom(dst: string, src: string) returns (err: bool)
      modifies this
      ensures !err ==> src in old(objects) && objects == old(objects)[dst := old(objects)[src]]
      ensures !err ==> outage == old(outage)
      ensures err ==> objects == old(objects)
      ensures err ==> outage == (old(outage) || src in old(objects))
    {
      var fails: bool := *;
      if src in objects {
        if fails {
          outage := true;
        } else {
          objects := objects[dst := objects[src]];
        }
        err := fails;
      } else {
        err := true;
      }
    }

    /** Removes one existing object; a missing object is an error. */
    method Delete(name: string) returns (err: bool)
      modifies this
      ensures !err ==> name in old(objects) && objects == old(objects) - {name} && outage == old(outage)
      ensures err ==> objects == old(objects)
      ensures err ==> outage == (old(outage) || name in old(objects))
    {
      var fails: bool := *;
      if name in objects {
        if fails {
          outage := true;
        } else {
          objects := objects - {name};
        }
        err := fails;
      } else {
        err := true;
      }
    }
  }
}
