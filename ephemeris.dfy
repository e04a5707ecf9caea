/**
 * Chart snapshots as the ephemeris service assembles them from the
 * astronomical library. The library itself (planet positions, house cusps,
 * time-zone offsets) is an oracle: its answers are parameters.
 */
module Ephemeris {
  import opened Wrappers
  import opened Strings
  import opened Dicts

  datatype PlanetPosition = PlanetPosition(name: string, lon: real, lat: real, speed: real, retrograde: bool)

  datatype GeoPos = GeoPos(lat: real, lon: real)

  datatype ChartType = Natal | Transit

  /**
   * A snapshot of a chart. `objects` and `houses` list their dictionaries'
   * items in insertion order; a house is its id and its cusp longitude.
   */
  datatype ChartSnapshot = ChartSnapshot(
    timestamp: int,
    chartType: ChartType,
    location: GeoPos,
    objects: seq<(string, PlanetPosition)>,
    houses: seq<(int, real)>)

  /** A house identifier as the library reports it: a number or a label such as "House3". */
  datatype RawHouseId = IntId(n: int) | TextId(s: string)

  /** The planets the service asks for by default, in the library's codes. */
  const PlanetCodes: seq<string> :=
    ["Sun", "Moon", "Mercury", "Venus", "Mars", "Jupiter", "Saturn", "Uranus", "Neptune", "Pluto"]

  const HouseSystem: string := "Placidus"

  /** Leading characters of `s` that are in `chars` removed, as `str.lstrip(chars)`. */
  function LStrip(s: string, chars: set<char>): (r: string)
    ensures |r| <= |s| && r == s[|s| - |r|..]
    ensures r == [] || r[0] !in chars
    ensures forall i | 0 <= i < |s| - |r| :: s[i] in chars
  {
    if s != [] && s[0] in chars then LStrip(s[1..], chars) else s
  }

  /**
   * A house identifier as an int: numbers unchanged, labels without their
   * leading 'H'/'h' characters parsed as an int, and 0 when that fails.
   */
  function NormalizeHouseId(raw: RawHouseId): (id: int)
    ensures raw.IntId? ==> id == raw.n
    ensures raw.TextId? && ParseInt(LStrip(raw.s, {'H', 'h'})).None? ==> id == 0
  {
    match raw
    case IntId(n) => n
    case TextId(s) =>
      match ParseInt(LStrip(s, {'H', 'h'}))
      case Some(n) => n
      case None => 0
  }

  lemma NormalizeLabelledHouse(n: nat, prefix: string)
    requires forall i | 0 <= i < |prefix| :: prefix[i] in {'H', 'h'}
    ensures NormalizeHouseId(TextId(prefix + NatToString(n))) == n
  {
    var digits := NatToString(n);
    var s := prefix + digits;
    if prefix == [] {
      assert s == digits;
    } else {
      assert s[1..] == prefix[1..] + digits;
    }
    LStripPrefix(prefix, digits, {'H', 'h'});
    ParseIntRoundTrip(n);
  }

  lemma {:induction false} LStripPrefix(prefix: string, rest: string, chars: set<char>)
    requires forall i | 0 <= i < |prefix| :: prefix[i] in chars
    requires rest != [] && rest[0] !in chars
    ensures LStrip(prefix + rest, chars) == rest
    decreases |prefix|
  {
    var s := prefix + rest;
    if prefix == [] {
      assert s == rest;
    } else {
      assert s[0] == prefix[0];
      assert s[1..] == prefix[1..] + rest;
      LStripPrefix(prefix[1..], rest, chars);
    }
  }

  /** The normalised id of the cusp at position `i`. */
  function CuspId(cusps: seq<(RawHouseId, real)>, i: nat): int
    requires i < |cusps|
  {
    NormalizeHouseId(cusps[i].0)
  }

  /** Each cusp as its normalised id with its longitude. */
  function CuspPairs(cusps: seq<(RawHouseId, real)>): (pairs: seq<(int, real)>)
    ensures |pairs| == |cusps|
    ensures forall i | 0 <= i < |cusps| :: pairs[i] == (CuspId(cusps, i), cusps[i].1)
  {
    seq(|cusps|, i requires 0 <= i < |cusps| => (CuspId(cusps, i), cusps[i].1))
  }

  /** The house map built from the library's cusps: ids ≤ 0 skipped, a later cusp with the same id wins. */
  function HouseMap(cusps: seq<(RawHouseId, real)>): (houses: seq<(int, real)>)
    ensures DistinctKeys(houses) && forall h | h in houses :: h.0 > 0
    ensures forall i | 0 <= i < |cusps| && CuspId(cusps, i) > 0 :: Lookup(houses, CuspId(cusps, i)).Some?
  {
    var pairs := CuspPairs(cusps);
    var houses := LastWins(pairs);
    forall i | 0 <= i < |cusps| && CuspId(cusps, i) > 0
      ensures Lookup(houses, CuspId(cusps, i)).Some?
    {
      assert pairs[i].0 == CuspId(cusps, i);
    }
    houses
  }

  /**
   * The dictionary the cusp loop fills, on normalised pairs: ids ≤ 0
   * skipped, each later pair stored over an earlier one with its id.
   */
  function LastWins(pairs: seq<(int, real)>): (houses: seq<(int, real)>)
    ensures PairMapFacts(pairs, houses)
    decreases |pairs|
  {
    if pairs == [] then []
    else
      var n := |pairs| - 1;
      var earlier := LastWins(pairs[..n]);
      if pairs[n].0 <= 0 then
        PairSkip(pairs, earlier);
        earlier
      else
        PairSet(pairs, earlier);
        SetItem(earlier, pairs[n].0, pairs[n].1)
  }

  /** The map has distinct, positive keys, and every pair with a positive id is in it. */
  ghost predicate PairMapFacts(pairs: seq<(int, real)>, houses: seq<(int, real)>)
  {
    DistinctKeys(houses) &&
    (forall h | h in houses :: h.0 > 0) &&
    (forall i | 0 <= i < |pairs| && pairs[i].0 > 0 :: Lookup(houses, pairs[i].0).Some?)
  }

  /** A last pair with an id ≤ 0 leaves the map of the earlier pairs as it is. */
  lemma PairSkip(pairs: seq<(int, real)>, earlier: seq<(int, real)>)
    requires pairs != [] && pairs[|pairs| - 1].0 <= 0
    requires PairMapFacts(pairs[..|pairs| - 1], earlier)
    ensures PairMapFacts(pairs, earlier)
  {
    var init := pairs[..|pairs| - 1];
    forall i | 0 <= i < |pairs| && pairs[i].0 > 0
      ensures Lookup(earlier, pairs[i].0).Some?
    {
      assert i < |init| && init[i] == pairs[i];
    }
  }

  /** A last pair with a positive id is set over the map of the earlier pairs. */
  lemma PairSet(pairs: seq<(int, real)>, earlier: seq<(int, real)>)
    requires pairs != [] && pairs[|pairs| - 1].0 > 0
    requires PairMapFacts(pairs[..|pairs| - 1], earlier)
    ensures PairMapFacts(pairs, SetItem(earlier, pairs[|pairs| - 1].0, pairs[|pairs| - 1].1))
  {
    var n := |pairs| - 1;
    var init := pairs[..n];
    var houses := SetItem(earlier, pairs[n].0, pairs[n].1);
    SetHouse(earlier, pairs[n].0, pairs[n].1);
    forall i | 0 <= i < |pairs| && pairs[i].0 > 0
      ensures Lookup(houses, pairs[i].0).Some?
    {
      if i < n {
        assert init[i] == pairs[i];
      }
    }
  }

  /** Adding the last pair changes the map under its own id only, where it stores its longitude. */
  lemma PairUnfold(pairs: seq<(int, real)>)
    requires pairs != []
    ensures var n := |pairs| - 1;
            forall k | k != pairs[n].0 :: Lookup(LastWins(pairs), k) == Lookup(LastWins(pairs[..n]), k)
    ensures var n := |pairs| - 1;
            pairs[n].0 > 0 ==> Lookup(LastWins(pairs), pairs[n].0) == Some(pairs[n].1)
  {
  }

  /** Every key of the map is the positive id of some pair. */
  lemma {:induction false} PairKeys(pairs: seq<(int, real)>)
    ensures forall k | Lookup(LastWins(pairs), k).Some? :: k > 0 && exists i | 0 <= i < |pairs| :: pairs[i].0 == k
    decreases |pairs|
  {
    if pairs != [] {
      var n := |pairs| - 1;
      var init := pairs[..n];
      PairKeys(init);
      PairUnfold(pairs);
      forall k | Lookup(LastWins(pairs), k).Some?
        ensures k > 0 && exists i | 0 <= i < |pairs| :: pairs[i].0 == k
      {
        if k != pairs[n].0 {
          assert Lookup(LastWins(init), k).Some?;
          var i :| 0 <= i < |init| && init[i].0 == k;
          assert pairs[i].0 == k;
        } else {
          var v := Lookup(LastWins(pairs), k).value;
          assert (k, v) in LastWins(pairs);
          assert pairs[n].0 == k;
        }
      }
    }
  }

  /** Pair `i` has a positive id that no later pair repeats. */
  predicate IsLastPair(pairs: seq<(int, real)>, i: nat)
  {
    i < |pairs| && pairs[i].0 > 0 && forall j | i < j < |pairs| :: pairs[j].0 != pairs[i].0
  }

  /** Under each id the map holds the longitude of the last pair with that id. */
  lemma {:induction false} PairLastWins(pairs: seq<(int, real)>)
    ensures forall i | 0 <= i < |pairs| && IsLastPair(pairs, i) :: Lookup(LastWins(pairs), pairs[i].0) == Some(pairs[i].1)
    decreases |pairs|
  {
    if pairs != [] {
      var n := |pairs| - 1;
      var init := pairs[..n];
      PairLastWins(init);
      PairUnfold(pairs);
      forall i | 0 <= i < |pairs| && IsLastPair(pairs, i)
        ensures Lookup(LastWins(pairs), pairs[i].0) == Some(pairs[i].1)
      {
        if i < n {
          LastPairOfInit(pairs, i);
          var k := pairs[i].0;
          assert Lookup(LastWins(init), init[i].0) == Some(init[i].1);
          assert Lookup(LastWins(pairs), k) == Lookup(LastWins(init), k);
        } else {
          assert i == n && pairs[n].0 > 0;
        }
      }
    }
  }

  /** A last pair other than the final one is a last pair of the earlier pairs, with another id than the final one. */
  lemma LastPairOfInit(pairs: seq<(int, real)>, i: nat)
    requires i < |pairs| - 1 && IsLastPair(pairs, i)
    ensures var n := |pairs| - 1;
            IsLastPair(pairs[..n], i) && pairs[..n][i] == pairs[i] && pairs[i].0 != pairs[n].0
  {
    var n := |pairs| - 1;
    var init := pairs[..n];
    assert forall j | i <= j < n :: init[j] == pairs[j];
  }

  /** Cusp `i` has a positive id that no later cusp repeats. */
  predicate IsLastCusp(cusps: seq<(RawHouseId, real)>, i: nat)
  {
    i < |cusps| && CuspId(cusps, i) > 0 && forall j | i < j < |cusps| :: CuspId(cusps, j) != CuspId(cusps, i)
  }

  /** Every key of the house map is the positive id of some cusp. */
  lemma HouseMapKeys(cusps: seq<(RawHouseId, real)>)
    ensures forall k | Lookup(HouseMap(cusps), k).Some? :: k > 0 && exists i | 0 <= i < |cusps| :: CuspId(cusps, i) == k
  {
    var pairs := CuspPairs(cusps);
    PairKeys(pairs);
    forall k | Lookup(HouseMap(cusps), k).Some?
      ensures k > 0 && exists i | 0 <= i < |cusps| :: CuspId(cusps, i) == k
    {
      var i :| 0 <= i < |pairs| && pairs[i].0 == k;
      assert CuspId(cusps, i) == k;
    }
  }

  /** Under each id the house map holds the longitude of the last cusp with that id. */
  lemma HouseMapLastCusp(cusps: seq<(RawHouseId, real)>)
    ensures forall i | 0 <= i < |cusps| && IsLastCusp(cusps, i) :: Lookup(HouseMap(cusps), CuspId(cusps, i)) == Some(cusps[i].1)
  {
    var pairs := CuspPairs(cusps);
    PairLastWins(pairs);
    forall i | 0 <= i < |cusps| && IsLastCusp(cusps, i)
      ensures Lookup(HouseMap(cusps), CuspId(cusps, i)) == Some(cusps[i].1)
    {
      forall j | i < j < |pairs| ensures pairs[j].0 != pairs[i].0 {
        assert CuspId(cusps, j) != CuspId(cusps, i);
      }
      assert IsLastPair(pairs, i);
    }
  }

  /** Setting a cusp under a positive id keeps the ids positive and loses no house. */
  lemma SetHouse(earlier: seq<(int, real)>, id: int, v: real)
    requires DistinctKeys(earlier) && (forall h | h in earlier :: h.0 > 0) && id > 0
    ensures forall h | h in SetItem(earlier, id, v) :: h.0 > 0
    ensures forall k | Lookup(earlier, k).Some? :: Lookup(SetItem(earlier, id, v), k).Some?
  {
    var houses := SetItem(earlier, id, v);
    forall h | h in houses ensures h.0 > 0 {
      if h.0 != id {
        assert Lookup(houses, h.0).Some?;
        assert Lookup(earlier, h.0).Some?;
      }
    }
  }

  /** The object map built from the library: one entry per requested code, in request order. */
  function ObjectMap(codes: seq<string>, positionOf: string -> PlanetPosition): (objs: seq<(string, PlanetPosition)>)
    ensures DistinctKeys(objs)
    ensures forall c :: c in codes <==> Lookup(objs, c).Some?
    ensures forall c | c in codes :: Lookup(objs, c) == Some(positionOf(c))
    ensures |objs| <= |codes|
  {
    if codes == [] then []
    else
      var init := codes[..|codes| - 1];
      var rest := ObjectMap(init, positionOf);
      var c := codes[|codes| - 1];
      assert codes == init + [c];
      ObjectMapStep(init, rest, c, positionOf);
      SetItem(rest, c, positionOf(c))
  }

  /** Setting one more code extends an object map of `init` to one of `init + [c]`. */
  lemma ObjectMapStep(init: seq<string>, rest: seq<(string, PlanetPosition)>, c: string, positionOf: string -> PlanetPosition)
    requires DistinctKeys(rest) && |rest| <= |init|
    requires forall x :: x in init <==> Lookup(rest, x).Some?
    requires forall x | x in init :: Lookup(rest, x) == Some(positionOf(x))
    ensures var r := SetItem(rest, c, positionOf(c));
            DistinctKeys(r) && |r| <= |init + [c]| &&
            (forall x :: x in init + [c] <==> Lookup(r, x).Some?) &&
            (forall x | x in init + [c] :: Lookup(r, x) == Some(positionOf(x)))
  {
    var r := SetItem(rest, c, positionOf(c));
    forall x ensures x in init + [c] <==> Lookup(r, x).Some? {
      if x != c {
        assert Lookup(r, x) == Lookup(rest, x);
      }
    }
  }

  /** The UTC offset handed to the library: the zone's offset, or 0 when the zone cannot be resolved. */
  function UtcOffsetHours(zoneOffset: Option<real>): (h: real)
    ensures zoneOffset.None? ==> h == 0.0
    ensures zoneOffset.Some? ==> h == zoneOffset.value
  {
    if zoneOffset.Some? then zoneOffset.value else 0.0
  }

  /**
   * `build_chart`: the library's answers for the moment `dt` at the given
   * place become a snapshot of the requested kind.
   */
  function BuildChart(
    planets: seq<string>, dt: int, lat: real, lon: real, chartType: ChartType,
    positionOf: string -> PlanetPosition, cusps: seq<(RawHouseId, real)>): (c: ChartSnapshot)
    ensures c.timestamp == dt && c.chartType == chartType && c.location == GeoPos(lat, lon)
    ensures forall code :: code in planets <==> Lookup(c.objects, code).Some?
    ensures forall h | h in c.houses :: h.0 > 0
  {
    ChartSnapshot(dt, chartType, GeoPos(lat, lon), ObjectMap(planets, positionOf), HouseMap(cusps))
  }

  /** `get_transit_chart`: the natal snapshot's location is reused and the kind is always transit. */
  function TransitChart(
    planets: seq<string>, natal: ChartSnapshot, dt: int,
    positionOf: string -> PlanetPosition, cusps: seq<(RawHouseId, real)>): (c: ChartSnapshot)
    ensures c.location == natal.location && c.chartType == Transit && c.timestamp == dt
    ensures forall code :: code in planets <==> Lookup(c.objects, code).Some?
    ensures forall h | h in c.houses :: h.0 > 0
  {
    ChartSnapshot(dt, Transit, natal.location, ObjectMap(planets, positionOf), HouseMap(cusps))
  }

  /** `get_ephemeris`: positions of the requested planets, or of the default ones when none are requested. */
  function EphemerisAt(defaultPlanets: seq<string>, requested: seq<string>, positionOf: string -> PlanetPosition)
    : (objs: seq<(string, PlanetPosition)>)
    ensures requested != [] ==> forall code :: code in requested <==> Lookup(objs, code).Some?
    ensures requested == [] ==> forall code :: code in defaultPlanets <==> Lookup(objs, code).Some?
  {
    ObjectMap(if requested == [] then defaultPlanets else requested, positionOf)
  }
}
