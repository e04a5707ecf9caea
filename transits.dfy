/**
 * Aspects between the transit chart and the natal chart: circular
 * distance, the house a longitude falls in, the orb test, the
 * "applying" rule, the weight and the final ordering.
 */
module Transits {
  import opened Wrappers
  import opened Slices
  import opened Dicts
  import opened Ephemeris

  /** An aspect kind: its exact angle and its base orb, in degrees. */
  datatype AspectDef = AspectDef(name: string, angle: real, orb: real)

  /** The aspect table, in the order the scan visits it. */
  const Aspects: seq<AspectDef> := [
    AspectDef("conjunction", 0.0, 6.0),
    AspectDef("sextile", 60.0, 4.0),
    AspectDef("square", 90.0, 5.0),
    AspectDef("trine", 120.0, 5.0),
    AspectDef("opposition", 180.0, 6.0)
  ]

  const PlanetWeights: map<string, real> := map[
    "Sun" := 1.0, "Moon" := 1.0, "Mercury" := 0.8, "Venus" := 0.8, "Mars" := 0.9,
    "Jupiter" := 0.7, "Saturn" := 0.7, "Uranus" := 0.6, "Neptune" := 0.6, "Pluto" := 0.6
  ]

  datatype TransitAspect = TransitAspect(
    transitPlanet: string,
    natalPlanet: string,
    aspect: string,
    orb: real,
    exact: bool,
    applying: bool,
    weight: real,
    transitHouse: Option<int>,
    natalHouse: Option<int>,
    transitPosition: PlanetPosition,
    natalPosition: PlanetPosition)

  function Max(a: real, b: real): real { if a >= b then a else b }

  function Min(a: real, b: real): real { if a <= b then a else b }

  function Abs(x: real): real { if x >= 0.0 then x else -x }

  /** Python's `x % 360.0`: the representative of `x` in [0, 360). */
  function Mod360(x: real): (r: real)
    ensures 0.0 <= r < 360.0
  {
    x - 360.0 * ((x / 360.0).Floor as real)
  }

  /** The residue is unique: whatever in [0, 360) differs from `x` by whole turns is `Mod360(x)`. */
  lemma Mod360Unique(x: real, r: real, k: int)
    requires 0.0 <= r < 360.0 && x == r + 360.0 * (k as real)
    ensures Mod360(x) == r
  {
    assert x / 360.0 == r / 360.0 + k as real;
    assert (x / 360.0).Floor == k;
  }

  lemma Mod360Turns(x: real)
    ensures x == Mod360(x) + 360.0 * ((x / 360.0).Floor as real)
  {
  }

  /** Going the other way round the circle: `(-x) % 360 == 360 - x % 360` unless the residue is 0. */
  lemma Mod360OfNegation(x: real)
    ensures Mod360(-x) == if Mod360(x) == 0.0 then 0.0 else 360.0 - Mod360(x)
  {
    var m := Mod360(x);
    var k := (x / 360.0).Floor;
    Mod360Turns(x);
    if m == 0.0 {
      Mod360Unique(-x, 0.0, -k);
    } else {
      Mod360Unique(-x, 360.0 - m, -k - 1);
    }
  }

  /** Longitudes a whole number of turns apart have the same residue. */
  lemma Mod360WholeTurns(x: real, k: int)
    ensures Mod360(x + 360.0 * (k as real)) == Mod360(x)
  {
    Mod360Turns(x);
    Mod360Unique(x + 360.0 * (k as real), Mod360(x), (x / 360.0).Floor + k);
  }

  /** `angular_distance`: the circular distance between two longitudes. */
  function AngularDistance(lon1: real, lon2: real): (d: real)
    ensures 0.0 <= d <= 180.0
  {
    var diff := Mod360(Abs(lon1 - lon2));
    if diff > 180.0 then 360.0 - diff else diff
  }

  lemma AngularDistanceSymmetric(lon1: real, lon2: real)
    ensures AngularDistance(lon1, lon2) == AngularDistance(lon2, lon1)
  {
    assert Abs(lon1 - lon2) == Abs(lon2 - lon1);
  }

  /** The distance is the shorter of the two arcs between the longitudes. */
  lemma AngularDistanceIsShorterArc(lon1: real, lon2: real)
    ensures AngularDistance(lon1, lon2) == Min(Mod360(lon1 - lon2), Mod360(lon2 - lon1))
  {
    if lon1 - lon2 >= 0.0 {
      Mod360OfNegation(lon1 - lon2);
      assert lon2 - lon1 == -(lon1 - lon2);
    } else {
      Mod360OfNegation(lon2 - lon1);
      assert lon1 - lon2 == -(lon2 - lon1);
    }
  }

  /** Adding whole turns to either longitude does not change the distance. */
  lemma AngularDistanceTurnInvariant(lon1: real, lon2: real, k: int)
    ensures AngularDistance(lon1 + 360.0 * (k as real), lon2) == AngularDistance(lon1, lon2)
  {
    var shifted := lon1 + 360.0 * (k as real);
    AngularDistanceIsShorterArc(shifted, lon2);
    AngularDistanceIsShorterArc(lon1, lon2);
    assert shifted - lon2 == (lon1 - lon2) + 360.0 * (k as real);
    Mod360WholeTurns(lon1 - lon2, k);
    assert lon2 - shifted == (lon2 - lon1) + 360.0 * ((-k) as real);
    Mod360WholeTurns(lon2 - lon1, -k);
  }

  /** `_calculate_orb`: how far the actual angle is from the aspect's exact angle. */
  function CalculateOrb(targetAngle: real, actualAngle: real): (orb: real)
    ensures orb >= 0.0
    ensures orb == 0.0 <==> targetAngle == actualAngle
  {
    Abs(targetAngle - actualAngle)
  }

  // ---------------------------------------------------------------------
  // Houses
  // ---------------------------------------------------------------------

  /** Houses are sorted by id: the key puts smaller ids later in a descending sort's reverse. */
  function HouseKey(h: (int, real)): seq<real> { [-(h.0 as real)] }

  /** The houses in increasing id order, as `sorted(houses.values(), key=house)`. */
  function SortedHouses(houses: seq<(int, real)>): (sorted: seq<(int, real)>)
    ensures |sorted| == |houses| && multiset(sorted) == multiset(houses)
  {
    SortDesc(houses, HouseKey)
  }

  lemma SortedHousesIncreasing(houses: seq<(int, real)>, i: int, j: int)
    requires DistinctKeys(houses)
    requires 0 <= i < j < |houses|
    ensures SortedHouses(houses)[i].0 < SortedHouses(houses)[j].0
  {
    var sorted := SortedHouses(houses);
    assert !KeyLess(HouseKey(sorted[i]), HouseKey(sorted[j]));
    if sorted[i].0 == sorted[j].0 {
      assert sorted[i] in multiset(houses) && sorted[j] in multiset(houses);
      assert sorted[i] in houses && sorted[j] in houses;
      var a :| 0 <= a < |houses| && houses[a] == sorted[i];
      var b :| 0 <= b < |houses| && houses[b] == sorted[j];
      if a == b {
        TwoCopies(sorted, i, j);
        DistinctCountsOnce(houses, a);
      }
    }
  }

  lemma TwoCopies<T>(s: seq<T>, i: int, j: int)
    requires 0 <= i < j < |s| && s[i] == s[j]
    ensures multiset(s)[s[i]] >= 2
  {
    assert s == s[..i] + [s[i]] + s[i + 1..];
    assert s[j] in s[i + 1..];
  }

  lemma {:induction false} DistinctCountsOnce(items: seq<(int, real)>, a: int)
    requires DistinctKeys(items) && 0 <= a < |items|
    ensures multiset(items)[items[a]] == 1
    decreases |items|
  {
    var x := items[a];
    assert items == [items[0]] + items[1..];
    if a == 0 {
      assert x !in items[1..];
      assert multiset(items[1..])[x] == 0;
    } else {
      assert DistinctKeys(items[1..]);
      DistinctCountsOnce(items[1..], a - 1);
      assert items[1..][a - 1] == x;
    }
  }

  /** The cusp longitudes of sorted houses, each reduced into [0, 360). */
  function CuspLongitudes(sorted: seq<(int, real)>): (longs: seq<real>)
    ensures |longs| == |sorted|
    ensures forall i | 0 <= i < |sorted| :: longs[i] == Mod360(sorted[i].1)
  {
    if sorted == [] then [] else [Mod360(sorted[0].1)] + CuspLongitudes(sorted[1..])
  }

  /**
   * The arc of house `idx`: from its cusp up to the next house's cusp. The
   * last house closes the circle and, like any arc whose end lies below its
   * start, wraps past 0°.
   */
  predicate InHouse(longs: seq<real>, idx: int, lon: real)
    requires 0 <= idx < |longs|
  {
    var endIdx := (idx + 1) % |longs|;
    var start := longs[idx];
    var end := longs[endIdx];
    if endIdx == 0 then start <= lon || lon < end
    else if start <= end then start <= lon < end
    else lon >= start || lon < end
  }

  /** The first house from `from` on whose arc holds `lon`; the last house when there is none. */
  function FirstHouseFrom(longs: seq<real>, lon: real, from: nat): (idx: nat)
    requires |longs| > 0
    ensures idx < |longs|
    decreases |longs| - from
  {
    if from >= |longs| then |longs| - 1
    else if InHouse(longs, from, lon) then from
    else FirstHouseFrom(longs, lon, from + 1)
  }

  /** `_determine_house`: None for an empty cusp map, otherwise the id of the house whose arc holds `lon`. */
  function HouseOf(lon: real, houses: seq<(int, real)>): (r: Option<int>)
    ensures r.None? <==> houses == []
    ensures r.Some? ==> exists h | h in houses :: h.0 == r.value
  {
    if houses == [] then None
    else
      var sorted := SortedHouses(houses);
      var idx := FirstHouseFrom(CuspLongitudes(sorted), lon, 0);
      assert sorted[idx] in multiset(houses);
      Some(sorted[idx].0)
  }

  lemma {:induction false} FirstHouseFromIsFirst(longs: seq<real>, lon: real, from: nat, j: nat)
    requires |longs| > 0 && from <= j < |longs| && InHouse(longs, j, lon)
    ensures InHouse(longs, FirstHouseFrom(longs, lon, from), lon)
    ensures FirstHouseFrom(longs, lon, from) <= j
    ensures forall i | from <= i < FirstHouseFrom(longs, lon, from) :: !InHouse(longs, i, lon)
    decreases |longs| - from
  {
    if !InHouse(longs, from, lon) {
      FirstHouseFromIsFirst(longs, lon, from + 1, j);
    }
  }

  lemma {:induction false} ArcBelow(longs: seq<real>, lon: real, lo: nat)
    requires lo < |longs| - 1
    requires longs[lo] <= lon < longs[|longs| - 1]
    ensures exists i | lo <= i < |longs| - 1 :: longs[i] <= lon < longs[i + 1]
    decreases |longs| - lo
  {
    if longs[lo + 1] > lon {
      assert longs[lo] <= lon < longs[lo + 1];
    } else {
      ArcBelow(longs, lon, lo + 1);
    }
  }

  /** The arcs cover the whole circle: every longitude lies in some house. */
  lemma HousesCoverCircle(longs: seq<real>, lon: real)
    requires |longs| > 0
    ensures exists j | 0 <= j < |longs| :: InHouse(longs, j, lon)
  {
    var n := |longs|;
    if lon >= longs[n - 1] || lon < longs[0] {
      LastHouseWraps(longs, lon);
    } else {
      ArcBelow(longs, lon, 0);
      var i :| 0 <= i < n - 1 && longs[i] <= lon < longs[i + 1];
      InnerArc(longs, i, lon);
    }
  }

  /** The last house holds everything from its cusp on and everything below the first cusp. */
  lemma LastHouseWraps(longs: seq<real>, lon: real)
    requires |longs| > 0 && (lon >= longs[|longs| - 1] || lon < longs[0])
    ensures InHouse(longs, |longs| - 1, lon)
  {
    assert (|longs| - 1 + 1) % |longs| == 0;
  }

  /** A house before the last holds the longitudes between its cusp and the next one. */
  lemma InnerArc(longs: seq<real>, i: int, lon: real)
    requires 0 <= i < |longs| - 1 && longs[i] <= lon < longs[i + 1]
    ensures InHouse(longs, i, lon)
  {
    assert (i + 1) % |longs| == i + 1;
  }

  /**
   * For a non-empty cusp map, the chosen house is the first one, in
   * house-id order, whose arc holds the longitude; the fallback to the
   * last house is never needed.
   */
  lemma HouseOfIsFirstContainingArc(lon: real, houses: seq<(int, real)>)
    requires houses != []
    ensures var sorted := SortedHouses(houses);
            var longs := CuspLongitudes(sorted);
            exists idx | 0 <= idx < |sorted| ::
              HouseOf(lon, houses) == Some(sorted[idx].0) && InHouse(longs, idx, lon) &&
              forall i | 0 <= i < idx :: !InHouse(longs, i, lon)
  {
    var sorted := SortedHouses(houses);
    var longs := CuspLongitudes(sorted);
    var idx := FirstHouseFrom(longs, lon, 0);
    FirstHouseHolds(longs, lon);
    assert HouseOf(lon, houses) == Some(sorted[idx].0);
  }

  lemma FirstHouseHolds(longs: seq<real>, lon: real)
    requires |longs| > 0
    ensures InHouse(longs, FirstHouseFrom(longs, lon, 0), lon)
    ensures forall i | 0 <= i < FirstHouseFrom(longs, lon, 0) :: !InHouse(longs, i, lon)
  {
    HousesCoverCircle(longs, lon);
    var j :| 0 <= j < |longs| && InHouse(longs, j, lon);
    FirstHouseFromIsFirst(longs, lon, 0, j);
  }

  /**
   * When the cusps increase with the house number, a longitude exactly on
   * a cusp belongs to the house that starts there.
   */
  lemma CuspOpensItsHouse(longs: seq<real>, j: nat)
    requires j < |longs|
    requires forall a, b | 0 <= a < b < |longs| :: longs[a] < longs[b]
    ensures FirstHouseFrom(longs, longs[j], 0) == j
  {
    assert InHouse(longs, j, longs[j]);
    FirstHouseFromIsFirst(longs, longs[j], 0, j);
    var f := FirstHouseFrom(longs, longs[j], 0);
    if f < j {
      NotInEarlierHouse(longs, f, j);
    }
  }

  lemma NotInEarlierHouse(longs: seq<real>, i: nat, j: nat)
    requires i < j < |longs|
    requires forall a, b | 0 <= a < b < |longs| :: longs[a] < longs[b]
    ensures !InHouse(longs, i, longs[j])
  {
    assert (i + 1) % |longs| == i + 1;
    assert longs[i] < longs[i + 1] <= longs[j];
  }

  /** `_determine_house` as the source writes it: a scan over the cusps in house order. */
  method DetermineHouse(lon: real, houses: seq<(int, real)>) returns (r: Option<int>)
    ensures r == HouseOf(lon, houses)
  {
    if houses == [] {
      return None;
    }
    var sorted := SortedHouses(houses);
    var longs := CuspLongitudes(sorted);
    var idx := 0;
    while idx < |longs|
      invariant 0 <= idx <= |longs|
      invariant FirstHouseFrom(longs, lon, idx) == FirstHouseFrom(longs, lon, 0)
    {
      var endIdx := (idx + 1) % |longs|;
      var startLon := longs[idx];
      var endLon := longs[endIdx];
      if endIdx == 0 {
        if startLon <= lon || lon < endLon {
          return Some(sorted[idx].0);
        }
      } else if startLon <= endLon {
        if startLon <= lon && lon < endLon {
          return Some(sorted[idx].0);
        }
      } else if lon >= startLon || lon < endLon {
        return Some(sorted[idx].0);
      }
      idx := idx + 1;
    }
    return Some(sorted[|sorted| - 1].0);
  }

  // ---------------------------------------------------------------------
  // Applying, weight
  // ---------------------------------------------------------------------

  /** The transit's offset from the exact aspect angle, brought into [-180, 180]. */
  function ApplyingOffset(transitLon: real, natalLon: real, targetAngle: real): (diff: real)
    ensures 0.0 <= targetAngle <= 180.0 ==> -180.0 <= diff <= 180.0
  {
    var relative := Mod360(transitLon - natalLon);
    var d0 := relative - targetAngle;
    var d1 := if d0 > 180.0 then d0 - 360.0 else d0;
    if d1 < -180.0 then d1 + 360.0 else d1
  }

  /** The offset is the relative longitude minus the aspect angle, up to whole turns. */
  lemma ApplyingOffsetCongruent(transitLon: real, natalLon: real, targetAngle: real)
    ensures Mod360(ApplyingOffset(transitLon, natalLon, targetAngle)) == Mod360(transitLon - natalLon - targetAngle)
  {
    var x := transitLon - natalLon;
    Mod360Turns(x);
    var k := (x / 360.0).Floor;
    var d0 := Mod360(x) - targetAngle;
    var t1: int := if d0 > 180.0 then -1 else 0;
    var d1 := d0 + 360.0 * (t1 as real);
    var t2: int := if d1 < -180.0 then t1 + 1 else t1;
    assert ApplyingOffset(transitLon, natalLon, targetAngle) == (x - targetAngle) + 360.0 * ((t2 - k) as real);
    Mod360WholeTurns(x - targetAngle, t2 - k);
  }

  /**
   * `_is_applying`: past the exact angle the transit applies only while it
   * moves backwards, before it only while it moves forwards.
   */
  function IsApplying(transit: PlanetPosition, natal: PlanetPosition, targetAngle: real): (b: bool)
    ensures b ==> transit.speed != 0.0
    ensures ApplyingOffset(transit.lon, natal.lon, targetAngle) > 0.0 ==> (b <==> transit.speed < 0.0)
    ensures ApplyingOffset(transit.lon, natal.lon, targetAngle) <= 0.0 ==> (b <==> transit.speed > 0.0)
  {
    if ApplyingOffset(transit.lon, natal.lon, targetAngle) > 0.0 then transit.speed < 0.0
    else transit.speed > 0.0
  }

  function PlanetWeight(planet: string): (w: real)
    ensures 0.5 <= w <= 1.0
  {
    if planet == "Sun" || planet == "Moon" then 1.0
    else if planet == "Mars" then 0.9
    else if planet == "Mercury" || planet == "Venus" then 0.8
    else if planet == "Jupiter" || planet == "Saturn" then 0.7
    else if planet == "Uranus" || planet == "Neptune" || planet == "Pluto" then 0.6
    else 0.5
  }

  /** The weights above are the ones the table lists, 0.5 for planets it does not list. */
  lemma PlanetWeightMatchesTable(planet: string)
    ensures planet in PlanetWeights ==> PlanetWeight(planet) == PlanetWeights[planet]
    ensures planet !in PlanetWeights ==> PlanetWeight(planet) == 0.5
  {
  }

  function AspectBonus(aspect: string): (b: real)
    ensures 0.8 <= b <= 1.2
  {
    if aspect == "conjunction" then 1.2
    else if aspect == "square" || aspect == "opposition" then 1.1
    else if aspect == "trine" then 0.9
    else 0.8
  }

  /** `ASPECTS.get(aspect, (0, 6))[1]`: the base orb of the built-in table, 6 for unknown names. */
  function BaseOrb(aspect: string): (orb: real)
    ensures orb == 4.0 || orb == 5.0 || orb == 6.0
  {
    if aspect == "sextile" then 4.0
    else if aspect == "square" || aspect == "trine" then 5.0
    else 6.0
  }

  lemma BaseOrbMatchesTable(i: int)
    requires 0 <= i < |Aspects|
    ensures BaseOrb(Aspects[i].name) == Aspects[i].orb
  {
  }

  /** The orb penalty: one minus the orb as a fraction of the base orb, never below 0.1. */
  function OrbPenalty(aspect: string, orb: real): (p: real)
    ensures p >= 0.1
    ensures orb >= 0.0 ==> p <= 1.0
  {
    Max(0.1, 1.0 - OrbFraction(aspect, orb))
  }

  /** The orb as a fraction of the base orb, dividing by each base orb the table can give. */
  function OrbFraction(aspect: string, orb: real): real
  {
    if aspect == "sextile" then orb / 4.0
    else if aspect == "square" || aspect == "trine" then orb / 5.0
    else orb / 6.0
  }

  /** The fraction is the orb divided by `max(base_orb, 1)`. */
  lemma OrbFractionIsRatio(aspect: string, orb: real)
    ensures OrbFraction(aspect, orb) == orb / Max(BaseOrb(aspect), 1.0)
  {
  }

  lemma OrbPenaltyAntitone(aspect: string, orb1: real, orb2: real)
    requires orb1 <= orb2
    ensures OrbPenalty(aspect, orb1) >= OrbPenalty(aspect, orb2)
  {
  }

  lemma ProductBounds(x: real, y: real, xlo: real, xhi: real, ylo: real, yhi: real)
    requires 0.0 <= xlo <= x <= xhi && 0.0 <= ylo <= y <= yhi
    ensures xlo * ylo <= x * y <= xhi * yhi
  {
    assert xlo * ylo <= x * ylo <= x * y;
    assert x * y <= xhi * y <= xhi * yhi;
  }

  /** The planet weights times the aspect bonus: between 0.8 and 2.4. */
  function WeightScale(transitPlanet: string, natalPlanet: string, aspect: string): (s: real)
    ensures 0.8 <= s <= 2.4
  {
    var base := PlanetWeight(transitPlanet) + PlanetWeight(natalPlanet);
    ProductBounds(base, AspectBonus(aspect), 1.0, 2.0, 0.8, 1.2);
    base * AspectBonus(aspect)
  }

  /** `_aspect_weight`: planet weights times the aspect bonus times the orb penalty. */
  function AspectWeight(transitPlanet: string, natalPlanet: string, aspect: string, orb: real): (w: real)
    ensures w >= 0.08
    ensures orb >= 0.0 ==> w <= 2.4
  {
    var scale := WeightScale(transitPlanet, natalPlanet, aspect);
    PenalizedBounds(scale, aspect, orb);
    Penalized(scale, aspect, orb)
  }

  lemma PenalizedBounds(scale: real, aspect: string, orb: real)
    requires 0.8 <= scale <= 2.4
    ensures Penalized(scale, aspect, orb) >= 0.08
    ensures orb >= 0.0 ==> Penalized(scale, aspect, orb) <= 2.4
  {
    var p := OrbPenalty(aspect, orb);
    ProductBounds(scale, p, 0.8, 2.4, 0.1, Max(p, 1.0));
  }

  /** A weight scale times the orb penalty of `aspect` at `orb`. */
  function Penalized(scale: real, aspect: string, orb: real): real
  {
    scale * OrbPenalty(aspect, orb)
  }

  /** A tighter orb never lowers the weight. */
  lemma AspectWeightAntitone(transitPlanet: string, natalPlanet: string, aspect: string, orb1: real, orb2: real)
    requires orb1 <= orb2
    ensures AspectWeight(transitPlanet, natalPlanet, aspect, orb1) >= AspectWeight(transitPlanet, natalPlanet, aspect, orb2)
  {
    PenalizedAntitone(WeightScale(transitPlanet, natalPlanet, aspect), aspect, orb1, orb2);
  }

  lemma PenalizedAntitone(scale: real, aspect: string, orb1: real, orb2: real)
    requires scale >= 0.0 && orb1 <= orb2
    ensures Penalized(scale, aspect, orb1) >= Penalized(scale, aspect, orb2)
  {
    OrbPenaltyAntitone(aspect, orb1, orb2);
    ScaleMonotone(scale, OrbPenalty(aspect, orb1), OrbPenalty(aspect, orb2));
  }

  lemma ScaleMonotone(s: real, a: real, b: real)
    requires s >= 0.0 && a >= b
    ensures s * a >= s * b
  {
    assert s * a - s * b == s * (a - b);
    ProductBounds(s, a - b, 0.0, s, 0.0, a - b);
  }

  // ---------------------------------------------------------------------
  // The scan
  // ---------------------------------------------------------------------

  /** The record for one (transit, natal, aspect) triple, or nothing when the orb is too wide. */
  function AspectHit(
    transitCode: string, transitPos: PlanetPosition, transitHouse: Option<int>,
    natalCode: string, natalPos: PlanetPosition, houses: seq<(int, real)>,
    d: AspectDef, round2: real -> real): seq<TransitAspect>
  {
    var orb := CalculateOrb(d.angle, AngularDistance(transitPos.lon, natalPos.lon));
    if orb <= d.orb then
      [TransitAspect(
        transitCode, natalCode, d.name, round2(orb), orb <= 0.1,
        IsApplying(transitPos, natalPos, d.angle),
        AspectWeight(transitCode, natalCode, d.name, orb),
        transitHouse, HouseOf(Mod360(natalPos.lon), houses),
        transitPos, natalPos)]
    else []
  }

  /** The innermost loop: every aspect kind for one planet pair. */
  function HitsOverAspects(
    transitCode: string, transitPos: PlanetPosition, transitHouse: Option<int>,
    natalCode: string, natalPos: PlanetPosition, houses: seq<(int, real)>,
    defs: seq<AspectDef>, round2: real -> real): seq<TransitAspect>
  {
    if defs == [] then []
    else
      HitsOverAspects(transitCode, transitPos, transitHouse, natalCode, natalPos, houses, defs[..|defs| - 1], round2)
      + AspectHit(transitCode, transitPos, transitHouse, natalCode, natalPos, houses, defs[|defs| - 1], round2)
  }

  /** The middle loop: every natal object against one transit planet. */
  function HitsOverNatal(
    transitCode: string, transitPos: PlanetPosition, transitHouse: Option<int>,
    natalObjects: seq<(string, PlanetPosition)>, houses: seq<(int, real)>,
    defs: seq<AspectDef>, round2: real -> real): seq<TransitAspect>
  {
    if natalObjects == [] then []
    else
      var last := natalObjects[|natalObjects| - 1];
      HitsOverNatal(transitCode, transitPos, transitHouse, natalObjects[..|natalObjects| - 1], houses, defs, round2)
      + HitsOverAspects(transitCode, transitPos, transitHouse, last.0, last.1, houses, defs, round2)
  }

  /** The outer loop: every requested transit planet present in the transit chart. */
  function HitsOverTransit(
    codes: seq<string>, natal: ChartSnapshot, transit: ChartSnapshot,
    defs: seq<AspectDef>, round2: real -> real): seq<TransitAspect>
  {
    if codes == [] then []
    else
      var earlier := HitsOverTransit(codes[..|codes| - 1], natal, transit, defs, round2);
      var code := codes[|codes| - 1];
      match Lookup(transit.objects, code)
      case None => earlier
      case Some(pos) =>
        earlier + HitsOverNatal(code, pos, HouseOf(Mod360(pos.lon), natal.houses), natal.objects, natal.houses, defs, round2)
  }

  /** One more aspect definition adds its hit, if any. */
  lemma AspectStep(
    transitCode: string, transitPos: PlanetPosition, transitHouse: Option<int>,
    natalCode: string, natalPos: PlanetPosition, houses: seq<(int, real)>,
    defs: seq<AspectDef>, k: int, round2: real -> real)
    requires 0 <= k < |defs|
    ensures HitsOverAspects(transitCode, transitPos, transitHouse, natalCode, natalPos, houses, defs[..k + 1], round2)
            == HitsOverAspects(transitCode, transitPos, transitHouse, natalCode, natalPos, houses, defs[..k], round2)
               + AspectHit(transitCode, transitPos, transitHouse, natalCode, natalPos, houses, defs[k], round2)
  {
    assert defs[..k + 1][..k] == defs[..k];
  }

  /** One more natal object adds its scan over the aspect definitions. */
  lemma NatalStep(
    transitCode: string, transitPos: PlanetPosition, transitHouse: Option<int>,
    objs: seq<(string, PlanetPosition)>, j: int, houses: seq<(int, real)>,
    defs: seq<AspectDef>, round2: real -> real)
    requires 0 <= j < |objs|
    ensures HitsOverNatal(transitCode, transitPos, transitHouse, objs[..j + 1], houses, defs, round2)
            == HitsOverNatal(transitCode, transitPos, transitHouse, objs[..j], houses, defs, round2)
               + HitsOverAspects(transitCode, transitPos, transitHouse, objs[j].0, objs[j].1, houses, defs, round2)
  {
    assert objs[..j + 1][..j] == objs[..j];
  }

  /** One more transit planet adds its scan over the natal objects, or nothing when the transit chart lacks it. */
  lemma TransitStep(
    codes: seq<string>, i: int, natal: ChartSnapshot, transit: ChartSnapshot,
    defs: seq<AspectDef>, round2: real -> real)
    requires 0 <= i < |codes|
    ensures var earlier := HitsOverTransit(codes[..i], natal, transit, defs, round2);
            var found := Lookup(transit.objects, codes[i]);
            HitsOverTransit(codes[..i + 1], natal, transit, defs, round2)
            == if found.None? then earlier
               else earlier + HitsOverNatal(codes[i], found.value, HouseOf(Mod360(found.value.lon), natal.houses),
                                            natal.objects, natal.houses, defs, round2)
  {
    assert codes[..i + 1][..i] == codes[..i];
  }

  /** The sort key: weight, then the negated orb, compared in reverse. */
  function AspectKey(a: TransitAspect): seq<real> { [a.weight, -a.orb] }

  /** The aspect kinds used: the ones given, or the built-in table when none are. */
  function EffectiveAspects(aspects: seq<AspectDef>): seq<AspectDef>
  {
    if aspects == [] then Aspects else aspects
  }

  /**
   * The aspect kinds with their orbs widened by the multiplier: entry `i`
   * allows `base_orb * max_orb_multiplier` for kind `i`. The scan functions
   * above take their aspect kinds in this form.
   */
  function Widen(defs: seq<AspectDef>, multiplier: real): (w: seq<AspectDef>)
    ensures |w| == |defs|
    ensures forall i | 0 <= i < |defs| ::
              w[i].name == defs[i].name && w[i].angle == defs[i].angle && w[i].orb == defs[i].orb * multiplier
  {
    seq(|defs|, i requires 0 <= i < |defs| => defs[i].(orb := defs[i].orb * multiplier))
  }

  /** A widened kind keeps its name and angle, so it is still found in the widened table. */
  lemma WidenHas(defs: seq<AspectDef>, multiplier: real, d: AspectDef)
    requires d in defs
    ensures d.(orb := d.orb * multiplier) in Widen(defs, multiplier)
  {
    var i :| 0 <= i < |defs| && defs[i] == d;
    assert Widen(defs, multiplier)[i] == d.(orb := d.orb * multiplier);
  }

  /** The transit planets scanned: the ones given, or every transit object when none are. */
  function EffectivePlanets(includePlanets: seq<string>, transit: ChartSnapshot): seq<string>
  {
    if includePlanets == [] then Keys(transit.objects) else includePlanets
  }

  /** The innermost loop of the scan: every aspect kind for one planet pair at distance `angle`. */
  method ScanAspects(
    transitCode: string, transitPos: PlanetPosition, transitHouse: Option<int>,
    natalCode: string, natalPos: PlanetPosition, houses: seq<(int, real)>, angle: real,
    defs: seq<AspectDef>, round2: real -> real)
    returns (hits: seq<TransitAspect>)
    requires angle == AngularDistance(transitPos.lon, natalPos.lon)
    ensures hits == HitsOverAspects(transitCode, transitPos, transitHouse, natalCode, natalPos, houses, defs, round2)
  {
    hits := [];
    var k := 0;
    while k < |defs|
      invariant 0 <= k <= |defs|
      invariant hits == HitsOverAspects(transitCode, transitPos, transitHouse, natalCode, natalPos, houses, defs[..k], round2)
    {
      var d := defs[k];
      ghost var hit := AspectHit(transitCode, transitPos, transitHouse, natalCode, natalPos, houses, d, round2);
      AspectStep(transitCode, transitPos, transitHouse, natalCode, natalPos, houses, defs, k, round2);
      var maxOrb := d.orb;
      var orb := CalculateOrb(d.angle, angle);
      var found: seq<TransitAspect> := [];
      if orb <= maxOrb {
        var natalHouse := DetermineHouse(Mod360(natalPos.lon), houses);
        found := [TransitAspect(
          transitCode, natalCode, d.name, round2(orb), orb <= 0.1,
          IsApplying(transitPos, natalPos, d.angle),
          AspectWeight(transitCode, natalCode, d.name, orb),
          transitHouse, natalHouse, transitPos, natalPos)];
      }
      AspectHitUnfold(transitCode, transitPos, transitHouse, natalCode, natalPos, houses, d, round2, orb);
      assert found == hit;
      hits := hits + found;
      k := k + 1;
    }
    assert defs[..k] == defs;
  }

  /** The middle loop of the scan: every natal object against one transit planet. */
  method ScanNatal(
    transitCode: string, transitPos: PlanetPosition, transitHouse: Option<int>, natal: ChartSnapshot,
    defs: seq<AspectDef>, round2: real -> real)
    returns (hits: seq<TransitAspect>)
    ensures hits == HitsOverNatal(transitCode, transitPos, transitHouse, natal.objects, natal.houses, defs, round2)
  {
    hits := [];
    var objs := natal.objects;
    var j := 0;
    while j < |objs|
      invariant 0 <= j <= |objs|
      invariant hits == HitsOverNatal(transitCode, transitPos, transitHouse, objs[..j], natal.houses, defs, round2)
    {
      var natalCode := objs[j].0;
      var natalPos := objs[j].1;
      NatalStep(transitCode, transitPos, transitHouse, objs, j, natal.houses, defs, round2);
      var angle := AngularDistance(transitPos.lon, natalPos.lon);
      var more := ScanAspects(transitCode, transitPos, transitHouse, natalCode, natalPos, natal.houses, angle, defs, round2);
      hits := hits + more;
      j := j + 1;
    }
    assert objs[..j] == objs;
  }

  /**
   * `find_transit_aspects`. `round2` stands for `round(orb, 2)`, which is
   * applied to the stored orb only; the exactness test and the weight use
   * the unrounded orb.
   */
  method FindTransitAspects(
    natal: ChartSnapshot, transit: ChartSnapshot, aspects: seq<AspectDef>,
    includePlanets: seq<string>, maxOrbMultiplier: real, round2: real -> real)
    returns (results: seq<TransitAspect>)
    ensures var defs := EffectiveAspects(aspects);
            var codes := EffectivePlanets(includePlanets, transit);
            results == SortDesc(HitsOverTransit(codes, natal, transit, Widen(defs, maxOrbMultiplier), round2), AspectKey)
  {
    var defs := Widen(if aspects == [] then Aspects else aspects, maxOrbMultiplier);
    var codes := if includePlanets == [] then Keys(transit.objects) else includePlanets;
    results := [];
    var i := 0;
    while i < |codes|
      invariant 0 <= i <= |codes|
      invariant results == HitsOverTransit(codes[..i], natal, transit, defs, round2)
    {
      var code := codes[i];
      TransitStep(codes, i, natal, transit, defs, round2);
      var found := Lookup(transit.objects, code);
      if found.Some? {
        var transitHouse := DetermineHouse(Mod360(found.value.lon), natal.houses);
        var more := ScanNatal(code, found.value, transitHouse, natal, defs, round2);
        results := results + more;
      }
      i := i + 1;
    }
    assert codes[..i] == codes;
    results := SortDesc(results, AspectKey);
  }

  // ---------------------------------------------------------------------
  // Properties of the scan
  // ---------------------------------------------------------------------

  /** What every emitted record satisfies, in terms of the inputs of the scan. */
  predicate ValidHit(a: TransitAspect, natal: ChartSnapshot, transit: ChartSnapshot, codes: seq<string>, defs: seq<AspectDef>)
  {
    a.transitPlanet in codes
    && Lookup(transit.objects, a.transitPlanet) == Some(a.transitPosition)
    && (a.natalPlanet, a.natalPosition) in natal.objects
    && a.transitHouse == HouseOf(Mod360(a.transitPosition.lon), natal.houses)
    && a.natalHouse == HouseOf(Mod360(a.natalPosition.lon), natal.houses)
    && exists d | d in defs :: d.name == a.aspect && HitOf(a, d)
  }

  /** The orb test, exactness, weight and applying flag of a record against the aspect kind it came from. */
  predicate HitOf(a: TransitAspect, d: AspectDef)
  {
    var orb := CalculateOrb(d.angle, AngularDistance(a.transitPosition.lon, a.natalPosition.lon));
    orb <= d.orb
    && (a.exact <==> orb <= 0.1)
    && a.weight == AspectWeight(a.transitPlanet, a.natalPlanet, a.aspect, orb)
    && a.applying == IsApplying(a.transitPosition, a.natalPosition, d.angle)
  }

  lemma AspectHitValid(
    transitCode: string, transitPos: PlanetPosition, natalCode: string, natalPos: PlanetPosition,
    natal: ChartSnapshot, transit: ChartSnapshot, codes: seq<string>, defs: seq<AspectDef>, d: AspectDef,
    round2: real -> real)
    requires transitCode in codes && Lookup(transit.objects, transitCode) == Some(transitPos)
    requires (natalCode, natalPos) in natal.objects && d in defs
    ensures forall a | a in AspectHit(transitCode, transitPos, HouseOf(Mod360(transitPos.lon), natal.houses), natalCode, natalPos, natal.houses, d, round2)
              :: ValidHit(a, natal, transit, codes, defs)
  {
    var hit := AspectHit(transitCode, transitPos, HouseOf(Mod360(transitPos.lon), natal.houses), natalCode, natalPos, natal.houses, d, round2);
    if hit != [] {
      assert HitOf(hit[0], d);
    }
  }

  lemma {:induction false} HitsOverAspectsValid(
    transitCode: string, transitPos: PlanetPosition, natalCode: string, natalPos: PlanetPosition,
    natal: ChartSnapshot, transit: ChartSnapshot, codes: seq<string>, defs: seq<AspectDef>, sub: seq<AspectDef>,
    round2: real -> real)
    requires transitCode in codes && Lookup(transit.objects, transitCode) == Some(transitPos)
    requires (natalCode, natalPos) in natal.objects
    requires forall d | d in sub :: d in defs
    ensures forall a | a in HitsOverAspects(transitCode, transitPos, HouseOf(Mod360(transitPos.lon), natal.houses), natalCode, natalPos, natal.houses, sub, round2)
              :: ValidHit(a, natal, transit, codes, defs)
    decreases |sub|
  {
    if sub != [] {
      HitsOverAspectsValid(transitCode, transitPos, natalCode, natalPos, natal, transit, codes, defs, sub[..|sub| - 1], round2);
      AspectHitValid(transitCode, transitPos, natalCode, natalPos, natal, transit, codes, defs, sub[|sub| - 1], round2);
    }
  }

  lemma {:induction false} HitsOverNatalValid(
    transitCode: string, transitPos: PlanetPosition, natal: ChartSnapshot, transit: ChartSnapshot,
    objs: seq<(string, PlanetPosition)>, codes: seq<string>, defs: seq<AspectDef>, round2: real -> real)
    requires transitCode in codes && Lookup(transit.objects, transitCode) == Some(transitPos)
    requires forall o | o in objs :: o in natal.objects
    ensures forall a | a in HitsOverNatal(transitCode, transitPos, HouseOf(Mod360(transitPos.lon), natal.houses), objs, natal.houses, defs, round2)
              :: ValidHit(a, natal, transit, codes, defs)
    decreases |objs|
  {
    if objs != [] {
      var last := objs[|objs| - 1];
      HitsOverNatalValid(transitCode, transitPos, natal, transit, objs[..|objs| - 1], codes, defs, round2);
      HitsOverAspectsValid(transitCode, transitPos, last.0, last.1, natal, transit, codes, defs, defs, round2);
    }
  }

  lemma {:induction false} HitsOverTransitValid(
    sub: seq<string>, natal: ChartSnapshot, transit: ChartSnapshot, codes: seq<string>, defs: seq<AspectDef>,
    round2: real -> real)
    requires forall c | c in sub :: c in codes
    ensures forall a | a in HitsOverTransit(sub, natal, transit, defs, round2)
              :: ValidHit(a, natal, transit, codes, defs)
    decreases |sub|
  {
    if sub != [] {
      var code := sub[|sub| - 1];
      HitsOverTransitValid(sub[..|sub| - 1], natal, transit, codes, defs, round2);
      match Lookup(transit.objects, code)
      case None =>
      case Some(pos) =>
        HitsOverNatalValid(code, pos, natal, transit, natal.objects, codes, defs, round2);
    }
  }

  /**
   * Every aspect the scan reports is justified: the planets come from the
   * charts, the orb is within the aspect's base orb times the multiplier,
   * `exact` means an orb of at most 0.1, and weight, applying flag and
   * houses are the ones the rules give.
   */
  lemma FindTransitAspectsSound(
    natal: ChartSnapshot, transit: ChartSnapshot, aspects: seq<AspectDef>,
    includePlanets: seq<string>, multiplier: real, round2: real -> real, a: TransitAspect)
    requires var defs := EffectiveAspects(aspects);
             var codes := EffectivePlanets(includePlanets, transit);
             a in SortDesc(HitsOverTransit(codes, natal, transit, Widen(defs, multiplier), round2), AspectKey)
    ensures ValidHit(a, natal, transit, EffectivePlanets(includePlanets, transit), Widen(EffectiveAspects(aspects), multiplier))
  {
    var defs := Widen(EffectiveAspects(aspects), multiplier);
    var codes := EffectivePlanets(includePlanets, transit);
    var hits := HitsOverTransit(codes, natal, transit, defs, round2);
    SortedMember(hits, AspectKey, a);
    HitsOverTransitValid(codes, natal, transit, codes, defs, round2);
  }

  lemma {:induction false} HitsOverAspectsComplete(
    transitCode: string, transitPos: PlanetPosition, transitHouse: Option<int>, natalCode: string, natalPos: PlanetPosition,
    houses: seq<(int, real)>, defs: seq<AspectDef>, round2: real -> real, d: AspectDef)
    requires d in defs
    requires CalculateOrb(d.angle, AngularDistance(transitPos.lon, natalPos.lon)) <= d.orb
    ensures exists a | a in HitsOverAspects(transitCode, transitPos, transitHouse, natalCode, natalPos, houses, defs, round2)
              :: a.transitPlanet == transitCode && a.natalPlanet == natalCode && a.aspect == d.name
    decreases |defs|
  {
    if d == defs[|defs| - 1] {
      HitsHaveLast(transitCode, transitPos, transitHouse, natalCode, natalPos, houses, defs, round2);
    } else {
      assert d in defs[..|defs| - 1] by {
        var i :| 0 <= i < |defs| && defs[i] == d;
        assert defs[..|defs| - 1][i] == d;
      }
      HitsOverAspectsComplete(transitCode, transitPos, transitHouse, natalCode, natalPos, houses, defs[..|defs| - 1], round2, d);
      var a :| a in HitsOverAspects(transitCode, transitPos, transitHouse, natalCode, natalPos, houses, defs[..|defs| - 1], round2)
               && a.transitPlanet == transitCode && a.natalPlanet == natalCode && a.aspect == d.name;
      HitsKeepEarlier(transitCode, transitPos, transitHouse, natalCode, natalPos, houses, defs, round2, a);
    }
  }

  /** The hits of the aspect kinds before the last one stay in the list. */
  lemma HitsKeepEarlier(
    transitCode: string, transitPos: PlanetPosition, transitHouse: Option<int>, natalCode: string, natalPos: PlanetPosition,
    houses: seq<(int, real)>, defs: seq<AspectDef>, round2: real -> real, a: TransitAspect)
    requires defs != []
    requires a in HitsOverAspects(transitCode, transitPos, transitHouse, natalCode, natalPos, houses, defs[..|defs| - 1], round2)
    ensures a in HitsOverAspects(transitCode, transitPos, transitHouse, natalCode, natalPos, houses, defs, round2)
  {
  }

  /** The last aspect kind, when its orb fits, gives a hit in the list. */
  lemma HitsHaveLast(
    transitCode: string, transitPos: PlanetPosition, transitHouse: Option<int>, natalCode: string, natalPos: PlanetPosition,
    houses: seq<(int, real)>, defs: seq<AspectDef>, round2: real -> real)
    requires defs != []
    requires CalculateOrb(defs[|defs| - 1].angle, AngularDistance(transitPos.lon, natalPos.lon)) <= defs[|defs| - 1].orb
    ensures exists a | a in HitsOverAspects(transitCode, transitPos, transitHouse, natalCode, natalPos, houses, defs, round2)
              :: a.transitPlanet == transitCode && a.natalPlanet == natalCode && a.aspect == defs[|defs| - 1].name
  {
    var d := defs[|defs| - 1];
    var rest := HitsOverAspects(transitCode, transitPos, transitHouse, natalCode, natalPos, houses, defs[..|defs| - 1], round2);
    var hit := AspectHit(transitCode, transitPos, transitHouse, natalCode, natalPos, houses, d, round2);
    AspectHitPresent(transitCode, transitPos, transitHouse, natalCode, natalPos, houses, d, round2);
    assert hit[0] in rest + hit;
  }

  lemma AspectHitUnfold(
    transitCode: string, transitPos: PlanetPosition, transitHouse: Option<int>, natalCode: string, natalPos: PlanetPosition,
    houses: seq<(int, real)>, d: AspectDef, round2: real -> real, orb: real)
    requires orb == CalculateOrb(d.angle, AngularDistance(transitPos.lon, natalPos.lon))
    ensures AspectHit(transitCode, transitPos, transitHouse, natalCode, natalPos, houses, d, round2)
         == if orb <= d.orb then
              [TransitAspect(
                transitCode, natalCode, d.name, round2(orb), orb <= 0.1,
                IsApplying(transitPos, natalPos, d.angle),
                AspectWeight(transitCode, natalCode, d.name, orb),
                transitHouse, HouseOf(Mod360(natalPos.lon), houses),
                transitPos, natalPos)]
            else []
  {
  }

  lemma AspectHitPresent(
    transitCode: string, transitPos: PlanetPosition, transitHouse: Option<int>, natalCode: string, natalPos: PlanetPosition,
    houses: seq<(int, real)>, d: AspectDef, round2: real -> real)
    requires CalculateOrb(d.angle, AngularDistance(transitPos.lon, natalPos.lon)) <= d.orb
    ensures var hit := AspectHit(transitCode, transitPos, transitHouse, natalCode, natalPos, houses, d, round2);
            |hit| == 1 && hit[0].transitPlanet == transitCode && hit[0].natalPlanet == natalCode && hit[0].aspect == d.name
  {
  }

  lemma {:induction false} HitsOverNatalComplete(
    transitCode: string, transitPos: PlanetPosition, transitHouse: Option<int>,
    objs: seq<(string, PlanetPosition)>, houses: seq<(int, real)>, defs: seq<AspectDef>, round2: real -> real,
    natalCode: string, natalPos: PlanetPosition, d: AspectDef)
    requires (natalCode, natalPos) in objs && d in defs
    requires CalculateOrb(d.angle, AngularDistance(transitPos.lon, natalPos.lon)) <= d.orb
    ensures exists a | a in HitsOverNatal(transitCode, transitPos, transitHouse, objs, houses, defs, round2)
              :: a.transitPlanet == transitCode && a.natalPlanet == natalCode && a.aspect == d.name
    decreases |objs|
  {
    var last := objs[|objs| - 1];
    if last == (natalCode, natalPos) {
      HitsOverAspectsComplete(transitCode, transitPos, transitHouse, natalCode, natalPos, houses, defs, round2, d);
      var a :| a in HitsOverAspects(transitCode, transitPos, transitHouse, natalCode, natalPos, houses, defs, round2)
               && a.transitPlanet == transitCode && a.natalPlanet == natalCode && a.aspect == d.name;
      NatalHasLast(transitCode, transitPos, transitHouse, objs, houses, defs, round2, a);
    } else {
      assert (natalCode, natalPos) in objs[..|objs| - 1] by {
        var i :| 0 <= i < |objs| && objs[i] == (natalCode, natalPos);
        assert objs[..|objs| - 1][i] == objs[i];
      }
      HitsOverNatalComplete(transitCode, transitPos, transitHouse, objs[..|objs| - 1], houses, defs, round2, natalCode, natalPos, d);
      var a :| a in HitsOverNatal(transitCode, transitPos, transitHouse, objs[..|objs| - 1], houses, defs, round2)
               && a.transitPlanet == transitCode && a.natalPlanet == natalCode && a.aspect == d.name;
      NatalKeepEarlier(transitCode, transitPos, transitHouse, objs, houses, defs, round2, a);
    }
  }

  /** The hits of the natal objects before the last one stay in the list. */
  lemma NatalKeepEarlier(
    transitCode: string, transitPos: PlanetPosition, transitHouse: Option<int>,
    objs: seq<(string, PlanetPosition)>, houses: seq<(int, real)>, defs: seq<AspectDef>, round2: real -> real,
    a: TransitAspect)
    requires objs != []
    requires a in HitsOverNatal(transitCode, transitPos, transitHouse, objs[..|objs| - 1], houses, defs, round2)
    ensures a in HitsOverNatal(transitCode, transitPos, transitHouse, objs, houses, defs, round2)
  {
  }

  /** The hits of the last natal object are in the list. */
  lemma NatalHasLast(
    transitCode: string, transitPos: PlanetPosition, transitHouse: Option<int>,
    objs: seq<(string, PlanetPosition)>, houses: seq<(int, real)>, defs: seq<AspectDef>, round2: real -> real,
    a: TransitAspect)
    requires objs != []
    requires a in HitsOverAspects(transitCode, transitPos, transitHouse, objs[|objs| - 1].0, objs[|objs| - 1].1, houses, defs, round2)
    ensures a in HitsOverNatal(transitCode, transitPos, transitHouse, objs, houses, defs, round2)
  {
  }

  lemma {:induction false} HitsOverTransitComplete(
    codes: seq<string>, natal: ChartSnapshot, transit: ChartSnapshot, defs: seq<AspectDef>, round2: real -> real,
    code: string, pos: PlanetPosition, natalCode: string, natalPos: PlanetPosition, d: AspectDef)
    requires code in codes && Lookup(transit.objects, code) == Some(pos)
    requires (natalCode, natalPos) in natal.objects && d in defs
    requires CalculateOrb(d.angle, AngularDistance(pos.lon, natalPos.lon)) <= d.orb
    ensures exists a | a in HitsOverTransit(codes, natal, transit, defs, round2)
              :: a.transitPlanet == code && a.natalPlanet == natalCode && a.aspect == d.name
    decreases |codes|
  {
    var last := codes[|codes| - 1];
    if last == code {
      var house := HouseOf(Mod360(pos.lon), natal.houses);
      HitsOverNatalComplete(code, pos, house, natal.objects, natal.houses, defs, round2, natalCode, natalPos, d);
      var a :| a in HitsOverNatal(code, pos, house, natal.objects, natal.houses, defs, round2)
               && a.transitPlanet == code && a.natalPlanet == natalCode && a.aspect == d.name;
      TransitHasLast(codes, natal, transit, defs, round2, pos, a);
    } else {
      assert code in codes[..|codes| - 1] by {
        var i :| 0 <= i < |codes| && codes[i] == code;
        assert codes[..|codes| - 1][i] == code;
      }
      HitsOverTransitComplete(codes[..|codes| - 1], natal, transit, defs, round2, code, pos, natalCode, natalPos, d);
      var a :| a in HitsOverTransit(codes[..|codes| - 1], natal, transit, defs, round2)
               && a.transitPlanet == code && a.natalPlanet == natalCode && a.aspect == d.name;
      TransitKeepEarlier(codes, natal, transit, defs, round2, a);
    }
  }

  /** The hits of the transit planets before the last one stay in the list. */
  lemma TransitKeepEarlier(
    codes: seq<string>, natal: ChartSnapshot, transit: ChartSnapshot, defs: seq<AspectDef>, round2: real -> real,
    a: TransitAspect)
    requires codes != []
    requires a in HitsOverTransit(codes[..|codes| - 1], natal, transit, defs, round2)
    ensures a in HitsOverTransit(codes, natal, transit, defs, round2)
  {
  }

  /** The hits of the last transit planet, when the transit chart has it, are in the list. */
  lemma TransitHasLast(
    codes: seq<string>, natal: ChartSnapshot, transit: ChartSnapshot, defs: seq<AspectDef>, round2: real -> real,
    pos: PlanetPosition, a: TransitAspect)
    requires codes != [] && Lookup(transit.objects, codes[|codes| - 1]) == Some(pos)
    requires a in HitsOverNatal(codes[|codes| - 1], pos, HouseOf(Mod360(pos.lon), natal.houses), natal.objects, natal.houses, defs, round2)
    ensures a in HitsOverTransit(codes, natal, transit, defs, round2)
  {
  }

  /**
   * Nothing within orb is missed: every requested transit planet present in
   * the transit chart, every natal object and every aspect kind whose orb
   * test passes yields a reported aspect.
   */
  lemma FindTransitAspectsComplete(
    natal: ChartSnapshot, transit: ChartSnapshot, aspects: seq<AspectDef>,
    includePlanets: seq<string>, multiplier: real, round2: real -> real,
    code: string, pos: PlanetPosition, natalCode: string, natalPos: PlanetPosition, d: AspectDef)
    requires code in EffectivePlanets(includePlanets, transit) && Lookup(transit.objects, code) == Some(pos)
    requires (natalCode, natalPos) in natal.objects && d in EffectiveAspects(aspects)
    requires CalculateOrb(d.angle, AngularDistance(pos.lon, natalPos.lon)) <= d.orb * multiplier
    ensures var hits := HitsOverTransit(EffectivePlanets(includePlanets, transit), natal, transit, Widen(EffectiveAspects(aspects), multiplier), round2);
            exists a | a in SortDesc(hits, AspectKey) :: a.transitPlanet == code && a.natalPlanet == natalCode && a.aspect == d.name
  {
    var defs := Widen(EffectiveAspects(aspects), multiplier);
    var hits := HitsOverTransit(EffectivePlanets(includePlanets, transit), natal, transit, defs, round2);
    var wide := d.(orb := d.orb * multiplier);
    WidenHas(EffectiveAspects(aspects), multiplier, d);
    HitsOverTransitComplete(EffectivePlanets(includePlanets, transit), natal, transit, defs, round2, code, pos, natalCode, natalPos, wide);
    var a :| a in hits && a.transitPlanet == code && a.natalPlanet == natalCode && a.aspect == d.name;
    SortedMember(hits, AspectKey, a);
  }

  /** The report is ordered by weight, heaviest first, and among equal weights by orb, tightest first. */
  lemma FindTransitAspectsOrdered(s: seq<TransitAspect>, i: int, j: int)
    requires SortedDesc(s, AspectKey) && 0 <= i < j < |s|
    ensures s[i].weight > s[j].weight || (s[i].weight == s[j].weight && s[i].orb <= s[j].orb)
  {
    var ki := AspectKey(s[i]);
    var kj := AspectKey(s[j]);
    assert !KeyLess(ki, kj);
    assert ki[1..] == [-s[i].orb] && kj[1..] == [-s[j].orb];
    assert ki[1..][1..] == [] && kj[1..][1..] == [];
  }
}
