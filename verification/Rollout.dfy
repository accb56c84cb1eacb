/** The rollout policy: zones take turns, one zone of every region per round. Times are in
    minutes. */
module Rollout {
  import opened Ranking
  import opened Sequences

  datatype RolloutPolicy = RolloutPolicy(defaultTime: int, locations: map<string, int>)

  function Location(zone: string): string {
    "zones/" + zone
  }

  /* The list of zones under construction: each entry stands for a position in the sorted
     list of a region. */

  datatype Turn = Turn(region: string, position: nat)

  predicate Exists(regions: map<string, seq<string>>, t: Turn) {
    t.region in regions && t.position < |regions[t.region]|
  }

  ghost predicate Turns(regions: map<string, seq<string>>, zoneList: seq<string>, turns: seq<Turn>) {
    && |turns| == |zoneList|
    && (forall i | 0 <= i < |turns| ::
          Exists(regions, turns[i]) && zoneList[i] == regions[turns[i].region][turns[i].position])
    && NoRepeats(turns)
    && (forall i, j | 0 <= i < j < |turns| :: turns[i].position <= turns[j].position)
  }

  /** The rounds before `round` are complete; of the current one the regions in `todo` are missing. */
  ghost predicate Covered(regions: map<string, seq<string>>, turns: seq<Turn>, round: nat, todo: set<string>) {
    && (forall t | t in turns :: t.position < round || (t.position == round && t.region !in todo))
    && (forall t | Exists(regions, t) && (t.position < round || (t.position == round && t.region !in todo)) ::
          t in turns)
  }

  lemma TakeTurn(regions: map<string, seq<string>>, zoneList: seq<string>, turns: seq<Turn>, round: nat,
                 todo: set<string>, r: string)
    requires Turns(regions, zoneList, turns) && Covered(regions, turns, round, todo) && r in todo && r in regions
    ensures round < |regions[r]| ==>
      Turns(regions, zoneList + [regions[r][round]], turns + [Turn(r, round)])
      && Covered(regions, turns + [Turn(r, round)], round, todo - {r})
    ensures round >= |regions[r]| ==> Covered(regions, turns, round, todo - {r})
  {
    if round < |regions[r]| {
      var t := Turn(r, round);
      assert t !in turns;
      assert forall u :: u in turns + [t] <==> u in turns || u == t;
      TurnsExtended(regions, zoneList, turns, t);
    }
  }

  lemma TurnsExtended(regions: map<string, seq<string>>, zoneList: seq<string>, turns: seq<Turn>, t: Turn)
    requires Turns(regions, zoneList, turns) && Exists(regions, t) && t !in turns
    requires forall u | u in turns :: u.position <= t.position
    ensures Turns(regions, zoneList + [regions[t.region][t.position]], turns + [t])
  {
    assert forall i | 0 <= i < |turns| :: turns[i] in turns;
  }

  /** The order of a finished list, zone by zone: every zone once, in the order of ranks. */
  ghost predicate RoundRobin(zones: seq<Zone>, order: seq<Zone>) {
    && |order| == |zones|
    && NoRepeats(order)
    && (forall z :: z in order <==> z in zones)
    && (forall i, j | 0 <= i < j < |order| :: Rank(zones, order[i]) <= Rank(zones, order[j]))
  }

  function Slot(start: int, rate: int, k: int): int {
    start + rate * k
  }

  /** The zone in place k has slot k; the default is the slot of the last place. */
  ghost predicate Schedules(rp: RolloutPolicy, order: seq<Zone>, start: int, rate: int) {
    && rp.locations.Keys == (set z | z in order :: Location(z.name))
    && (forall k | 0 <= k < |order| :: rp.locations[Location(order[k].name)] == Slot(start, rate, k))
    && rp.defaultTime == Slot(start, rate, |order| - 1)
  }

  /** Some round-robin order of the zones is the order of the slots. */
  ghost predicate RollsOut(rp: RolloutPolicy, zones: seq<Zone>, start: int, rate: int) {
    exists order :: RoundRobin(zones, order) && Schedules(rp, order, start, rate)
  }

  ghost predicate SortedRegions(zones: seq<Zone>, regions: map<string, seq<string>>) {
    && (forall z | z in zones :: z.region in regions)
    && (forall r | r in regions :: regions[r] == SortStrings(RegionNames(zones, r)))
  }

  ghost function ZonesOf(zoneList: seq<string>, turns: seq<Turn>): seq<Zone>
    requires |turns| == |zoneList|
  {
    seq(|turns|, i requires 0 <= i < |turns| => Zone(zoneList[i], turns[i].region))
  }

  lemma FinishedListIsRoundRobin(zones: seq<Zone>, regions: map<string, seq<string>>, zoneList: seq<string>,
                                 turns: seq<Turn>, rounds: nat)
    requires DistinctNames(zones) && SortedRegions(zones, regions)
    requires Turns(regions, zoneList, turns) && Covered(regions, turns, rounds, regions.Keys)
    requires forall r | r in regions :: |regions[r]| <= rounds
    ensures RoundRobin(zones, ZonesOf(zoneList, turns))
  {
    var order := ZonesOf(zoneList, turns);
    ListHasZones(zones, regions, zoneList, turns);
    ListIsRanked(zones, regions, zoneList, turns);
    forall z | z in zones
      ensures z in order
    {
      ZoneHasTurn(zones, regions, zoneList, turns, rounds, z);
    }
    SameLength(zones, order);
  }

  lemma ListHasZones(zones: seq<Zone>, regions: map<string, seq<string>>, zoneList: seq<string>, turns: seq<Turn>)
    requires DistinctNames(zones) && SortedRegions(zones, regions) && Turns(regions, zoneList, turns)
    ensures forall z | z in ZonesOf(zoneList, turns) :: z in zones
  {
    forall z | z in ZonesOf(zoneList, turns)
      ensures z in zones
    {
      var i :| 0 <= i < |turns| && ZonesOf(zoneList, turns)[i] == z;
      TurnIsZone(zones, regions, zoneList, turns, i);
    }
  }

  lemma ListIsRanked(zones: seq<Zone>, regions: map<string, seq<string>>, zoneList: seq<string>, turns: seq<Turn>)
    requires DistinctNames(zones) && SortedRegions(zones, regions) && Turns(regions, zoneList, turns)
    ensures var order := ZonesOf(zoneList, turns);
      forall i, j | 0 <= i < j < |order| :: order[i] != order[j] && Rank(zones, order[i]) <= Rank(zones, order[j])
  {
    var order := ZonesOf(zoneList, turns);
    forall i, j | 0 <= i < j < |order|
      ensures order[i] != order[j] && Rank(zones, order[i]) <= Rank(zones, order[j])
    {
      TurnsDiffer(zones, regions, zoneList, turns, i, j);
    }
  }

  lemma TurnIsZone(zones: seq<Zone>, regions: map<string, seq<string>>, zoneList: seq<string>, turns: seq<Turn>, i: nat)
    requires DistinctNames(zones) && SortedRegions(zones, regions) && Turns(regions, zoneList, turns) && i < |turns|
    ensures var z := ZonesOf(zoneList, turns)[i]; z in zones && Rank(zones, z) == turns[i].position
  {
    assert Exists(regions, turns[i]);
    SortedAtRank(zones, turns[i].region, turns[i].position);
  }

  lemma TurnsDiffer(zones: seq<Zone>, regions: map<string, seq<string>>, zoneList: seq<string>, turns: seq<Turn>,
                    i: nat, j: nat)
    requires DistinctNames(zones) && SortedRegions(zones, regions) && Turns(regions, zoneList, turns) && i < j < |turns|
    ensures var order := ZonesOf(zoneList, turns);
      order[i] != order[j] && Rank(zones, order[i]) <= Rank(zones, order[j])
  {
    TurnIsZone(zones, regions, zoneList, turns, i);
    TurnIsZone(zones, regions, zoneList, turns, j);
    assert turns[i] != turns[j];
  }

  lemma NameInRegion(zones: seq<Zone>, regions: map<string, seq<string>>, z: Zone)
    requires SortedRegions(zones, regions) && z in zones
    ensures z.region in regions && z.name in regions[z.region]
  {
    RegionNamesHas(zones, z.region, z.name);
    SortStringsSorts(RegionNames(zones, z.region), z.name);
  }

  lemma PositionHasTurn(regions: map<string, seq<string>>, zoneList: seq<string>, turns: seq<Turn>, rounds: nat,
                        t: Turn)
    requires Turns(regions, zoneList, turns) && Covered(regions, turns, rounds, regions.Keys)
    requires Exists(regions, t) && t.position < rounds
    ensures Zone(regions[t.region][t.position], t.region) in ZonesOf(zoneList, turns)
  {
    var i :| 0 <= i < |turns| && turns[i] == t;
    assert ZonesOf(zoneList, turns)[i] == Zone(zoneList[i], t.region);
  }

  lemma ZoneHasTurn(zones: seq<Zone>, regions: map<string, seq<string>>, zoneList: seq<string>, turns: seq<Turn>,
                    rounds: nat, z: Zone)
    requires SortedRegions(zones, regions) && z in zones
    requires Turns(regions, zoneList, turns) && Covered(regions, turns, rounds, regions.Keys)
    requires forall r | r in regions :: |regions[r]| <= rounds
    ensures z in ZonesOf(zoneList, turns)
  {
    NameInRegion(zones, regions, z);
    var p: nat :| p < |regions[z.region]| && regions[z.region][p] == z.name;
    PositionHasTurn(regions, zoneList, turns, rounds, Turn(z.region, p));
  }

  lemma SameLength(zones: seq<Zone>, order: seq<Zone>)
    requires DistinctNames(zones) && NoRepeats(order)
    requires forall z :: z in order <==> z in zones
    ensures |order| == |zones|
  {
    assert NoRepeats(zones);
    NoRepeatsSize(zones);
    NoRepeatsSize(order);
    assert ToSet(order) == ToSet(zones);
  }

  /** Groups the zones by region, sorts every region, lists the zones round by round, and
      gives each a slot. The regions of a round come in any order, chosen anew every round.
      For zones with different names: every zone gets exactly one slot, the slots are the
      first |zones| multiples of the rate, and zones get them in the order of their ranks
      within their regions. */
  method CreateRollOut(zones: seq<Zone>, start: int, rate: int) returns (rp: RolloutPolicy)
    requires DistinctNames(zones)
    ensures RollsOut(rp, zones, start, rate)
  {
    var regions, maxRegionLength := GroupByRegion(zones);
    ghost var grouped := regions;
    regions := map r | r in regions :: SortStrings(regions[r]);
    forall r | r in grouped
      ensures |regions[r]| <= maxRegionLength
    {
      SortStringsSorts(RegionNames(zones, r), "");
    }
    var zoneList := [];
    ghost var turns := [];
    for zoneCount := 0 to maxRegionLength
      invariant Turns(regions, zoneList, turns) && Covered(regions, turns, zoneCount, regions.Keys)
    {
      var todo := regions.Keys;
      while todo != {}
        invariant todo <= regions.Keys
        invariant Turns(regions, zoneList, turns) && Covered(regions, turns, zoneCount, todo)
      {
        var r :| r in todo;
        TakeTurn(regions, zoneList, turns, zoneCount, todo, r);
        if zoneCount < |regions[r]| {
          zoneList := zoneList + [regions[r][zoneCount]];
          turns := turns + [Turn(r, zoneCount)];
        }
        todo := todo - {r};
      }
    }
    FinishedListIsRoundRobin(zones, regions, zoneList, turns, maxRegionLength);
    ghost var order := ZonesOf(zoneList, turns);
    rp := AssignSlots(zones, zoneList, order, start, rate);
  }

  method GroupByRegion(zones: seq<Zone>) returns (regions: map<string, seq<string>>, maxRegionLength: nat)
    ensures forall z | z in zones :: z.region in regions
    ensures forall r | r in regions :: regions[r] == RegionNames(zones, r) && |regions[r]| <= maxRegionLength
  {
    regions, maxRegionLength := map[], 0;
    for i := 0 to |zones|
      invariant forall z | z in zones[..i] :: z.region in regions
      invariant forall r | r in regions :: regions[r] == RegionNames(zones[..i], r) && |regions[r]| <= maxRegionLength
      invariant forall r | r !in regions :: RegionNames(zones[..i], r) == []
    {
      var z := zones[i];
      OneMoreZone(zones, i);
      regions := regions[z.region := (if z.region in regions then regions[z.region] else []) + [z.name]];
      if |regions[z.region]| > maxRegionLength {
        maxRegionLength := |regions[z.region]|;
      }
    }
    assert zones[..|zones|] == zones;
  }

  lemma OneMoreZone(zones: seq<Zone>, i: nat)
    requires i < |zones|
    ensures forall z :: z in zones[..i + 1] <==> z in zones[..i] || z == zones[i]
    ensures forall r ::
      RegionNames(zones[..i + 1], r) ==
        RegionNames(zones[..i], r) + (if zones[i].region == r then [zones[i].name] else [])
  {
    assert zones[..i + 1] == zones[..i] + [zones[i]];
    assert zones[..i + 1][..i] == zones[..i] && zones[..i + 1][i] == zones[i];
  }

  method AssignSlots(zones: seq<Zone>, zoneList: seq<string>, ghost order: seq<Zone>, start: int, rate: int)
      returns (rp: RolloutPolicy)
    requires DistinctNames(zones) && RoundRobin(zones, order)
    requires |zoneList| == |order| && forall i | 0 <= i < |order| :: zoneList[i] == order[i].name
    ensures Schedules(rp, order, start, rate)
  {
    DistinctLocations(zones, order);
    var locations: map<string, int> := map[];
    for i := 0 to |zoneList|
      invariant locations.Keys == (set z | z in order[..i] :: Location(z.name))
      invariant forall k | 0 <= k < i :: locations[Location(order[k].name)] == Slot(start, rate, k)
    {
      assert order[..i + 1] == order[..i] + [order[i]];
      locations := locations[Location(zoneList[i]) := Slot(start, rate, i)];
      assert forall k | 0 <= k < i :: order[k] in order[..i];
    }
    assert order[..|order|] == order;
    rp := RolloutPolicy(Slot(start, rate, |zoneList| - 1), locations);
  }

  lemma DistinctLocations(zones: seq<Zone>, order: seq<Zone>)
    requires DistinctNames(zones) && RoundRobin(zones, order)
    ensures forall i, j | 0 <= i < j < |order| :: Location(order[i].name) != Location(order[j].name)
  {
    forall i, j | 0 <= i < j < |order|
      ensures Location(order[i].name) != Location(order[j].name)
    {
      assert order[i] in order && order[j] in order;
      var a :| 0 <= a < |zones| && zones[a] == order[i];
      var b :| 0 <= b < |zones| && zones[b] == order[j];
      assert zones[a].name != zones[b].name;
      assert Location(order[i].name)[6..] == order[i].name;
      assert Location(order[j].name)[6..] == order[j].name;
    }
  }

  /** For at least one zone and a rate that is not negative, nothing is rolled out later
      than the default time, and something is rolled out then. */
  lemma DefaultIsLatest(rp: RolloutPolicy, zones: seq<Zone>, start: int, rate: int)
    requires RollsOut(rp, zones, start, rate) && zones != [] && rate >= 0
    ensures forall z | z in zones ::
      Location(z.name) in rp.locations && rp.locations[Location(z.name)] <= rp.defaultTime
    ensures exists z | z in zones ::
      Location(z.name) in rp.locations && rp.locations[Location(z.name)] == rp.defaultTime
  {
    var order :| RoundRobin(zones, order) && Schedules(rp, order, start, rate);
    forall z | z in zones
      ensures Location(z.name) in rp.locations && rp.locations[Location(z.name)] <= rp.defaultTime
    {
      NotAfterDefault(rp, order, start, rate, z);
    }
    var last := order[|order| - 1];
    assert last in order && last in zones;
    assert rp.locations[Location(last.name)] == rp.defaultTime;
  }

  lemma NotAfterDefault(rp: RolloutPolicy, order: seq<Zone>, start: int, rate: int, z: Zone)
    requires Schedules(rp, order, start, rate) && rate >= 0 && z in order
    ensures Location(z.name) in rp.locations && rp.locations[Location(z.name)] <= rp.defaultTime
  {
    var k :| 0 <= k < |order| && order[k] == z;
    assert rp.locations[Location(order[k].name)] == Slot(start, rate, k);
    MoreIsLater(rate, k, |order| - 1);
  }

  lemma MoreIsLater(rate: int, a: int, b: int)
    requires rate >= 0 && a <= b
    ensures rate * a <= rate * b
  {
  }

  /** At a positive rate no two zones share a slot, and rounds are kept apart: a zone is
      rolled out before every zone of higher rank, in its own region and in every other. */
  lemma RoundsAreKeptApart(rp: RolloutPolicy, zones: seq<Zone>, start: int, rate: int, y: Zone, z: Zone)
    requires RollsOut(rp, zones, start, rate) && rate > 0
    requires y in zones && z in zones && y != z
    ensures Location(y.name) in rp.locations && Location(z.name) in rp.locations
    ensures rp.locations[Location(y.name)] != rp.locations[Location(z.name)]
    ensures Rank(zones, y) < Rank(zones, z) ==> rp.locations[Location(y.name)] < rp.locations[Location(z.name)]
  {
    var order :| RoundRobin(zones, order) && Schedules(rp, order, start, rate);
    var i :| 0 <= i < |order| && order[i] == y;
    var j :| 0 <= j < |order| && order[j] == z;
    assert order[i] == y && order[j] == z;
    if i < j {
      LaterSlot(start, rate, i, j);
    } else {
      LaterSlot(start, rate, j, i);
    }
  }

  lemma LaterSlot(start: int, rate: int, i: nat, j: nat)
    requires rate > 0 && i < j
    ensures Slot(start, rate, i) < Slot(start, rate, j)
  {
    MoreIsLater(rate, i + 1, j);
    assert rate * (i + 1) == rate * i + rate;
  }
}
