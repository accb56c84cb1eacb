/** The order of strings, sorting, and the rank of a zone within its region. */
module Ranking {
  import opened Sequences

  datatype Zone = Zone(name: string, region: string)

  /** Strictly before, in the order in which strings are sorted. */
  predicate Before(a: string, b: string) {
    b != "" && (a == "" || a[0] < b[0] || (a[0] == b[0] && Before(a[1..], b[1..])))
  }

  lemma {:induction false} BeforeIsTotal(a: string, b: string)
    ensures Before(a, b) || Before(b, a) || a == b
    ensures !(Before(a, b) && Before(b, a)) && !Before(a, a)
  {
    if a != "" && b != "" {
      BeforeIsTotal(a[1..], b[1..]);
      if a[1..] == b[1..] && a[0] == b[0] {
        assert a == [a[0]] + a[1..];
      }
    }
    if a != "" {
      BeforeIsTotal(a[1..], a[1..]);
    }
  }

  lemma {:induction false} BeforeIsTransitive(a: string, b: string, c: string)
    requires Before(a, b) && Before(b, c)
    ensures Before(a, c)
  {
    if a != "" && a[0] == b[0] == c[0] {
      BeforeIsTransitive(a[1..], b[1..], c[1..]);
    }
  }

  function Insert(x: string, s: seq<string>): seq<string> {
    if s == [] then [x]
    else if Before(s[0], x) then [s[0]] + Insert(x, s[1..])
    else [x] + s
  }

  function SortStrings(s: seq<string>): seq<string> {
    if s == [] then [] else Insert(s[0], SortStrings(s[1..]))
  }

  ghost predicate Sorted(s: seq<string>) {
    forall i, j | 0 <= i < j < |s| :: !Before(s[j], s[i])
  }

  /** How many entries come before `x`. */
  function Less(s: seq<string>, x: string): nat {
    if s == [] then 0 else (if Before(s[0], x) then 1 else 0) + Less(s[1..], x)
  }

  lemma {:induction false} InsertKeeps(x: string, s: seq<string>, y: string)
    ensures Less(Insert(x, s), y) == Less(s, y) + if Before(x, y) then 1 else 0
    ensures y in Insert(x, s) <==> y == x || y in s
    ensures |Insert(x, s)| == |s| + 1
  {
    if s != [] {
      InsertKeeps(x, s[1..], y);
      if Before(s[0], x) {
        assert Insert(x, s)[1..] == Insert(x, s[1..]);
      } else {
        assert Insert(x, s)[1..] == s;
      }
    }
  }

  lemma {:induction false} InsertSorted(x: string, s: seq<string>)
    requires Sorted(s)
    ensures Sorted(Insert(x, s))
  {
    if s != [] {
      var t := Insert(x, s);
      if Before(s[0], x) {
        InsertSorted(x, s[1..]);
        forall i, j | 0 <= i < j < |t|
          ensures !Before(t[j], t[i])
        {
          if i == 0 {
            InsertKeeps(x, s[1..], t[j]);
            assert t[j] in Insert(x, s[1..]);
            BeforeIsTotal(x, s[0]);
          }
        }
      } else {
        forall i, j | 0 <= i < j < |t|
          ensures !Before(t[j], t[i])
        {
          if i == 0 && j > 1 && Before(t[j], x) {
            Between(t[j], x, s[0]);
          }
        }
      }
    }
  }

  /** If `y` is before `x` and `z` is not before `x`, then `y` is before `z`. */
  lemma Between(y: string, x: string, z: string)
    requires Before(y, x) && !Before(z, x)
    ensures Before(y, z)
  {
    BeforeIsTotal(z, x);
    if z != x {
      BeforeIsTransitive(y, x, z);
    }
  }

  /** Sorting sorts, keeps every entry, and keeps how many entries are before any string. */
  lemma {:induction false} SortStringsSorts(s: seq<string>, y: string)
    ensures Sorted(SortStrings(s)) && |SortStrings(s)| == |s|
    ensures Less(SortStrings(s), y) == Less(s, y)
    ensures y in SortStrings(s) <==> y in s
  {
    if s != [] {
      SortStringsSorts(s[1..], y);
      InsertKeeps(s[0], SortStrings(s[1..]), y);
      InsertSorted(s[0], SortStrings(s[1..]));
    }
  }

  lemma {:induction false} LessConcat(a: seq<string>, b: seq<string>, x: string)
    ensures Less(a + b, x) == Less(a, x) + Less(b, x)
  {
    if a == [] {
      assert a + b == b;
    } else {
      LessConcat(a[1..], b, x);
      assert (a + b)[1..] == a[1..] + b;
    }
  }

  lemma {:induction false} LessAll(s: seq<string>, x: string)
    ensures (forall i | 0 <= i < |s| :: Before(s[i], x)) ==> Less(s, x) == |s|
    ensures (forall i | 0 <= i < |s| :: !Before(s[i], x)) ==> Less(s, x) == 0
  {
    if s != [] {
      LessAll(s[1..], x);
    }
  }

  /** In a sorted list without repetitions, the position is the number of smaller entries. */
  lemma PositionIsRank(s: seq<string>, p: nat)
    requires Sorted(s) && NoRepeats(s) && p < |s|
    ensures Less(s, s[p]) == p
  {
    var a, b := s[..p], s[p..];
    assert s == a + b;
    LessConcat(a, b, s[p]);
    SortedAround(s, p);
    LessAll(a, s[p]);
    LessAll(b, s[p]);
  }

  lemma SortedAround(s: seq<string>, p: nat)
    requires Sorted(s) && NoRepeats(s) && p < |s|
    ensures forall i | 0 <= i < |s[..p]| :: Before(s[..p][i], s[p])
    ensures forall i | 0 <= i < |s[p..]| :: !Before(s[p..][i], s[p])
  {
    forall i | 0 <= i < |s|
      ensures i < p ==> Before(s[i], s[p])
      ensures i >= p ==> !Before(s[i], s[p])
    {
      BeforeIsTotal(s[i], s[p]);
    }
  }

  /** The names of the zones of one region, as listed. */
  function RegionNames(zones: seq<Zone>, region: string): seq<string> {
    if zones == [] then []
    else
      var last := zones[|zones| - 1];
      RegionNames(zones[..|zones| - 1], region) + (if last.region == region then [last.name] else [])
  }

  lemma {:induction false} RegionNamesHas(zones: seq<Zone>, region: string, name: string)
    ensures name in RegionNames(zones, region) <==> Zone(name, region) in zones
  {
    if zones != [] {
      var n := |zones| - 1;
      RegionNamesHas(zones[..n], region, name);
      assert zones == zones[..n] + [zones[n]];
    }
  }

  /** How many zones of its region have a smaller name. */
  function Rank(zones: seq<Zone>, z: Zone): nat {
    Less(RegionNames(zones, z.region), z.name)
  }

  ghost predicate DistinctNames(zones: seq<Zone>) {
    forall i, j | 0 <= i < j < |zones| :: zones[i].name != zones[j].name
  }

  lemma {:induction false} RegionNamesDistinct(zones: seq<Zone>, region: string)
    requires DistinctNames(zones)
    ensures NoRepeats(RegionNames(zones, region))
  {
    if zones != [] {
      var n := |zones| - 1;
      RegionNamesDistinct(zones[..n], region);
      RegionNamesHas(zones[..n], region, zones[n].name);
    }
  }

  lemma {:induction false} InsertDistinct(x: string, s: seq<string>)
    requires NoRepeats(s) && x !in s
    ensures NoRepeats(Insert(x, s))
  {
    if s != [] && Before(s[0], x) {
      InsertDistinct(x, s[1..]);
      var t := Insert(x, s);
      forall i, j | 0 <= i < j < |t|
        ensures t[i] != t[j]
      {
        InsertKeeps(x, s[1..], t[j]);
        assert t[j] == Insert(x, s[1..])[j - 1];
        assert i > 0 ==> t[i] == Insert(x, s[1..])[i - 1];
      }
    }
  }

  lemma {:induction false} SortDistinct(s: seq<string>)
    requires NoRepeats(s)
    ensures NoRepeats(SortStrings(s))
  {
    if s != [] {
      SortDistinct(s[1..]);
      SortStringsSorts(s[1..], s[0]);
      InsertDistinct(s[0], SortStrings(s[1..]));
    }
  }

  /** In the sorted list of a region, a zone stands at its rank. */
  lemma SortedAtRank(zones: seq<Zone>, region: string, p: nat)
    requires DistinctNames(zones) && p < |SortStrings(RegionNames(zones, region))|
    ensures var name := SortStrings(RegionNames(zones, region))[p];
      Zone(name, region) in zones && Rank(zones, Zone(name, region)) == p
  {
    var names := RegionNames(zones, region);
    var name := SortStrings(names)[p];
    SortStringsSorts(names, name);
    RegionNamesDistinct(zones, region);
    SortDistinct(names);
    PositionIsRank(SortStrings(names), p);
    RegionNamesHas(zones, region, name);
  }
}
