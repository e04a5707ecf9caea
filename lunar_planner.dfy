/**
 * The lunar planner: the Moon's phase and sign for a day, a size-bounded
 * cache of computed days, windows of consecutive days, and the ranking of
 * actions for a day. The ephemeris (Sun and Moon longitudes at local noon)
 * and the rounded cosine illumination are oracles fixed when the service
 * is built.
 */
module LunarPlanner {
  import opened Wrappers
  import opened Slices
  import Ephemeris
  import Transits

  datatype Phase =
    | NewMoon | WaxingCrescent | FirstQuarter | WaxingGibbous
    | FullMoon | WaningGibbous | LastQuarter | WaningCrescent

  /** The phase's key in the phase table. */
  function PhaseKey(p: Phase): string
  {
    match p
    case NewMoon => "new_moon"
    case WaxingCrescent => "waxing_crescent"
    case FirstQuarter => "first_quarter"
    case WaxingGibbous => "waxing_gibbous"
    case FullMoon => "full_moon"
    case WaningGibbous => "waning_gibbous"
    case LastQuarter => "last_quarter"
    case WaningCrescent => "waning_crescent"
  }

  /** Position of a phase in the lunar cycle, from 0 (new) to 7 (waning crescent). */
  function PhaseIndex(p: Phase): (i: nat)
    ensures i < 8
  {
    match p
    case NewMoon => 0
    case WaxingCrescent => 1
    case FirstQuarter => 2
    case WaxingGibbous => 3
    case FullMoon => 4
    case WaningGibbous => 5
    case LastQuarter => 6
    case WaningCrescent => 7
  }

  /** `_phase_from_angle`: the Sun-Moon elongation in degrees, bucketed into eight phases. */
  function PhaseFromAngle(angle: real): (p: Phase)
    ensures p == NewMoon <==> angle < 20.0 || angle >= 340.0
    ensures p == FullMoon <==> 160.0 <= angle < 200.0
    ensures 20.0 <= angle < 340.0 ==> 1 <= PhaseIndex(p) <= 7
  {
    if angle < 20.0 || angle >= 340.0 then NewMoon
    else if angle < 70.0 then WaxingCrescent
    else if angle < 110.0 then FirstQuarter
    else if angle < 160.0 then WaxingGibbous
    else if angle < 200.0 then FullMoon
    else if angle < 250.0 then WaningGibbous
    else if angle < 300.0 then LastQuarter
    else WaningCrescent
  }

  /** The phase boundaries, in degrees of elongation. */
  const Boundaries: seq<real> := [20.0, 70.0, 110.0, 160.0, 200.0, 250.0, 300.0, 340.0]

  /** How many of `bounds` the angle has passed. */
  function Passed(bounds: seq<real>, angle: real): (n: nat)
    ensures n <= |bounds|
  {
    if bounds == [] then 0 else (if bounds[0] <= angle then 1 else 0) + Passed(bounds[1..], angle)
  }

  /**
   * The phase is the number of boundaries passed, counted round the cycle:
   * every angle lands in exactly one bucket, and the buckets follow each
   * other in cycle order.
   */
  lemma PhaseCountsBoundaries(angle: real)
    ensures PhaseIndex(PhaseFromAngle(angle)) == Passed(Boundaries, angle) % 8
  {
    var b := Boundaries;
    var t1 := [70.0, 110.0, 160.0, 200.0, 250.0, 300.0, 340.0];
    var t2 := [110.0, 160.0, 200.0, 250.0, 300.0, 340.0];
    var t3 := [160.0, 200.0, 250.0, 300.0, 340.0];
    var t4 := [200.0, 250.0, 300.0, 340.0];
    var t5 := [250.0, 300.0, 340.0];
    var t6 := [300.0, 340.0];
    var t7 := [340.0];
    assert b[1..] == t1 && t1[1..] == t2 && t2[1..] == t3 && t3[1..] == t4;
    assert t4[1..] == t5 && t5[1..] == t6 && t6[1..] == t7 && t7[1..] == [];
    var n7 := if 340.0 <= angle then 1 else 0;
    var n6 := (if 300.0 <= angle then 1 else 0) + n7;
    var n5 := (if 250.0 <= angle then 1 else 0) + n6;
    var n4 := (if 200.0 <= angle then 1 else 0) + n5;
    var n3 := (if 160.0 <= angle then 1 else 0) + n4;
    var n2 := (if 110.0 <= angle then 1 else 0) + n3;
    var n1 := (if 70.0 <= angle then 1 else 0) + n2;
    var n0 := (if 20.0 <= angle then 1 else 0) + n1;
    assert Passed(t7, angle) == n7;
    assert Passed(t6, angle) == n6;
    assert Passed(t5, angle) == n5;
    assert Passed(t4, angle) == n4;
    assert Passed(t3, angle) == n3;
    assert Passed(t2, angle) == n2;
    assert Passed(t1, angle) == n1;
    assert Passed(b, angle) == n0;
  }

  /** Between the boundaries, a larger angle never gives an earlier phase. */
  lemma PhaseMonotone(a: real, b: real)
    requires 20.0 <= a <= b < 340.0
    ensures PhaseIndex(PhaseFromAngle(a)) <= PhaseIndex(PhaseFromAngle(b))
  {
    PhaseCountsBoundaries(a);
    PhaseCountsBoundaries(b);
    PassedMonotone(Boundaries, a, b);
  }

  lemma {:induction false} PassedMonotone(bounds: seq<real>, a: real, b: real)
    requires a <= b
    ensures Passed(bounds, a) <= Passed(bounds, b)
    decreases |bounds|
  {
    if bounds != [] {
      PassedMonotone(bounds[1..], a, b);
    }
  }

  /** `min(max(x, 0), 100)`. */
  function ClampPercent(x: int): (r: int)
    ensures 0 <= r <= 100
    ensures 0 <= x <= 100 ==> r == x
    ensures x < 0 ==> r == 0
    ensures x > 100 ==> r == 100
  {
    if x < 0 then 0 else if x > 100 then 100 else x
  }

  /** `int(moon_lon // 30) % 12`: the zodiac sign the Moon is in, 0 for Aries. */
  function SignIndex(moonLon: real): (i: int)
    ensures 0 <= i < 12
  {
    (moonLon / 30.0).Floor % 12
  }

  /** The sign does not change across whole turns of the Moon. */
  lemma SignIndexTurnInvariant(moonLon: real, k: int)
    ensures SignIndex(moonLon + 360.0 * (k as real)) == SignIndex(moonLon)
  {
    var q := (moonLon / 30.0).Floor;
    assert (moonLon + 360.0 * (k as real)) / 30.0 == moonLon / 30.0 + (12 * k) as real;
    assert ((moonLon + 360.0 * (k as real)) / 30.0).Floor == q + 12 * k;
  }

  /** A longitude in [30i, 30i + 30) is in sign i. */
  lemma SignIndexOfSector(moonLon: real, i: int)
    requires 0 <= i < 12 && 30.0 * (i as real) <= moonLon < 30.0 * (i as real) + 30.0
    ensures SignIndex(moonLon) == i
  {
    assert (i as real) <= moonLon / 30.0 < (i as real) + 1.0;
  }

  datatype DayContext = DayContext(
    date: int,
    phase: Phase,
    signIndex: int,
    illumination: int,
    angle: real,
    natalHouse: Option<int>)

  /** The sky part of a day: everything but the natal house. */
  predicate SameSky(a: DayContext, b: DayContext)
  {
    a.date == b.date && a.phase == b.phase && a.signIndex == b.signIndex
    && a.illumination == b.illumination && a.angle == b.angle
  }

  /**
   * A freshly computed day: the elongation `(moon - sun) % 360`, its phase,
   * the Moon's sign, the clamped illumination, and the natal house of the
   * Moon when a natal chart is given.
   */
  function FreshDay(
    sunMoon: (int, string) -> (real, real), illumination: real -> int,
    date: int, tz: string, natal: Option<Ephemeris.ChartSnapshot>): (d: DayContext)
    ensures d.date == date
    ensures 0.0 <= d.angle < 360.0 && 0 <= d.signIndex < 12 && 0 <= d.illumination <= 100
    ensures d.phase == PhaseFromAngle(d.angle)
    ensures natal.None? ==> d.natalHouse.None?
    ensures natal.Some? ==> d.natalHouse == Transits.HouseOf(Transits.Mod360(sunMoon(date, tz).1), natal.value.houses)
  {
    var (sun, moon) := sunMoon(date, tz);
    var angle := Transits.Mod360(moon - sun);
    var house := if natal.Some? then Transits.HouseOf(Transits.Mod360(moon), natal.value.houses) else None;
    DayContext(date, PhaseFromAngle(angle), SignIndex(moon), ClampPercent(illumination(angle)), angle, house)
  }

  /**
   * What a cache hit returns: the stored day, or, when a natal chart is
   * given, the stored day lacks a house and a non-zero house is found, a
   * copy carrying that house.
   */
  function Enriched(
    sunMoon: (int, string) -> (real, real), cached: DayContext, tz: string,
    natal: Option<Ephemeris.ChartSnapshot>): (d: DayContext)
    ensures SameSky(d, cached)
    ensures cached.natalHouse.Some? || natal.None? ==> d == cached
    ensures d.natalHouse.Some? && cached.natalHouse.None? ==>
              natal.Some? && d.natalHouse == Transits.HouseOf(Transits.Mod360(sunMoon(cached.date, tz).1), natal.value.houses)
              && d.natalHouse.value != 0
  {
    if natal.Some? && cached.natalHouse.None? then
      var house := Transits.HouseOf(Transits.Mod360(sunMoon(cached.date, tz).1), natal.value.houses);
      if house.Some? && house.value != 0 then cached.(natalHouse := house) else cached
    else cached
  }

  /** Cache keys are ordered by date alone, earliest first. */
  function DateKey(k: (int, string)): seq<real> { [-(k.0 as real)] }

  /**
   * The keys `_prune_cache` keeps: all while there are at most `cacheSize`,
   * otherwise the keys sorted by date and sliced from `-cacheSize // 2`.
   * Python floors that division, so an odd size keeps one more than half
   * and a size of 0 slices from 0 and keeps everything.
   */
  function PrunedKeys(keys: seq<(int, string)>, cacheSize: int): (kept: seq<(int, string)>)
    ensures |keys| <= cacheSize ==> kept == keys
    ensures forall k | k in kept :: k in keys
  {
    if |keys| <= cacheSize then keys
    else
      var sorted := SortDesc(keys, DateKey);
      var kept := SliceFrom(sorted, (-cacheSize) / 2);
      forall k | k in kept ensures k in keys {
        SortedMember(keys, DateKey, k);
      }
      kept
  }

  /** With a positive size, pruning leaves at most `cacheSize` keys. */
  lemma PruneBound(keys: seq<(int, string)>, cacheSize: int)
    requires cacheSize >= 1
    ensures |PrunedKeys(keys, cacheSize)| <= cacheSize
  {
  }

  /** Pruning drops only keys no later than every key it keeps. */
  lemma PruneKeepsLatest(keys: seq<(int, string)>, cacheSize: int, kept: (int, string), dropped: (int, string))
    requires kept in PrunedKeys(keys, cacheSize)
    requires dropped in keys && dropped !in PrunedKeys(keys, cacheSize)
    ensures dropped.0 <= kept.0
  {
    var sorted := PrunedTail(keys, cacheSize);
    TailKeepsLatest(sorted, PrunedKeys(keys, cacheSize), kept, dropped);
  }

  /** In a date-descending sequence, an element outside a tail is no later than any element of it. */
  lemma TailKeepsLatest(sorted: seq<(int, string)>, tail: seq<(int, string)>, kept: (int, string), dropped: (int, string))
    requires SortedDesc(sorted, DateKey) && |tail| <= |sorted| && tail == sorted[|sorted| - |tail|..]
    requires kept in tail && dropped in sorted && dropped !in tail
    ensures dropped.0 <= kept.0
  {
    var start := |sorted| - |tail|;
    var j := PositionOf(sorted, dropped);
    var i := PositionOf(tail, kept);
    assert sorted[start + i] == kept;
    forall m | start <= m < |sorted| ensures sorted[m] in tail {
      assert tail[m - start] == sorted[m];
    }
    LaterInSorted(sorted, j, start + i);
  }

  lemma PositionOf<T>(s: seq<T>, x: T) returns (i: int)
    requires x in s
    ensures 0 <= i < |s| && s[i] == x
  {
    i :| 0 <= i < |s| && s[i] == x;
  }

  /** When pruning drops keys, what it keeps is a tail of the keys sorted by date. */
  lemma PrunedTail(keys: seq<(int, string)>, cacheSize: int) returns (sorted: seq<(int, string)>)
    requires exists k :: k in keys && k !in PrunedKeys(keys, cacheSize)
    ensures SortedDesc(sorted, DateKey) && |PrunedKeys(keys, cacheSize)| <= |sorted|
    ensures PrunedKeys(keys, cacheSize) == sorted[|sorted| - |PrunedKeys(keys, cacheSize)|..]
    ensures forall k | k in keys :: k in sorted
  {
    sorted := SortDesc(keys, DateKey);
    forall k | k in keys ensures k in sorted {
      SortedMember(keys, DateKey, k);
    }
  }

  lemma LaterInSorted(sorted: seq<(int, string)>, j: int, i: int)
    requires SortedDesc(sorted, DateKey) && 0 <= j < i < |sorted|
    ensures sorted[j].0 <= sorted[i].0
  {
    DateKeyOrder(sorted[j], sorted[i]);
  }

  lemma DateKeyOrder(a: (int, string), b: (int, string))
    requires !KeyLess(DateKey(a), DateKey(b))
    ensures a.0 <= b.0
  {
    assert DateKey(a)[1..] == [] && DateKey(b)[1..] == [];
  }

  /** Keys listed once each, in the dictionary's order. */
  predicate DistinctSeq<T(==)>(s: seq<T>)
  {
    forall i, j | 0 <= i < j < |s| :: s[i] != s[j]
  }

  /** Appending a new element keeps a sequence free of repeats. */
  lemma DistinctSnoc<T>(s: seq<T>, x: T)
    requires DistinctSeq(s) && x !in s
    ensures DistinctSeq(s + [x])
  {
    var t := s + [x];
    forall i, j | 0 <= i < j < |t| ensures t[i] != t[j] {
      assert t[i] == s[i];
      if j < |s| {
        assert t[j] == s[j];
      }
    }
  }

  lemma PrunedKeysDistinct(keys: seq<(int, string)>, cacheSize: int)
    requires DistinctSeq(keys)
    ensures DistinctSeq(PrunedKeys(keys, cacheSize))
  {
    if |keys| > cacheSize {
      var sorted := SortDesc(keys, DateKey);
      DistinctPermutation(keys, sorted);
    }
  }

  lemma DistinctPermutation<T>(s: seq<T>, t: seq<T>)
    requires DistinctSeq(s) && multiset(s) == multiset(t)
    ensures DistinctSeq(t)
  {
    forall i, j | 0 <= i < j < |t| ensures t[i] != t[j] {
      if t[i] == t[j] {
        assert multiset(t)[t[i]] >= 2 by {
          Transits.TwoCopies(t, i, j);
        }
        DistinctOnce(s, t[i]);
      }
    }
  }

  lemma {:induction false} DistinctOnce<T>(s: seq<T>, x: T)
    requires DistinctSeq(s)
    ensures multiset(s)[x] <= 1
    decreases |s|
  {
    if s != [] {
      assert s == [s[0]] + s[1..];
      assert DistinctSeq(s[1..]) by {
        forall i, j | 0 <= i < j < |s[1..]| ensures s[1..][i] != s[1..][j] {
          assert s[1..][i] == s[i + 1] && s[1..][j] == s[j + 1];
        }
      }
      DistinctOnce(s[1..], x);
      if s[0] == x {
        assert x !in s[1..] by {
          forall i | 0 <= i < |s[1..]| ensures s[1..][i] != x {
            assert s[1..][i] == s[i + 1];
          }
        }
      }
    }
  }

  /**
   * What `_compute_day` can answer for `date` during `build_window`: the
   * day computed afresh with the natal house from `natal`, or the cache hit
   * on the entry `orig` held for it before the window was built.
   */
  predicate WindowDayOk(
    sunMoon: (int, string) -> (real, real), illumination: real -> int,
    orig: map<(int, string), DayContext>, c: DayContext, date: int, tz: string, natal: Option<Ephemeris.ChartSnapshot>)
  {
    c == FreshDay(sunMoon, illumination, date, tz, natal)
    || ((date, tz) in orig && c == Enriched(sunMoon, orig[(date, tz)], tz, natal))
  }

  /**
   * Every answer `build_window` can give for a date carries that date and
   * the sky of a fresh computation, provided the cache it started from did.
   */
  lemma WindowDaySky(
    sunMoon: (int, string) -> (real, real), illumination: real -> int,
    orig: map<(int, string), DayContext>, c: DayContext, date: int, tz: string, natal: Option<Ephemeris.ChartSnapshot>)
    requires forall k | k in orig :: SameSky(orig[k], FreshDay(sunMoon, illumination, k.0, k.1, None))
    requires WindowDayOk(sunMoon, illumination, orig, c, date, tz, natal)
    ensures c.date == date && SameSky(c, FreshDay(sunMoon, illumination, date, tz, None))
  {
    if c != FreshDay(sunMoon, illumination, date, tz, natal) {
      assert SameSky(orig[(date, tz)], FreshDay(sunMoon, illumination, date, tz, None));
    }
  }

  /**
   * One `_compute_day` call inside `build_window`, on the cache alone: if
   * every entry before the call is an original entry or a window day
   * computed afresh, the same holds after it, and a hit on the day asked
   * for is a hit on an original entry.
   */
  lemma WindowCacheStep(
    sunMoon: (int, string) -> (real, real), illumination: real -> int,
    orig: map<(int, string), DayContext>, before: map<(int, string), DayContext>, after: map<(int, string), DayContext>,
    d: DayContext, start: int, date: int, tz: string, natal: Option<Ephemeris.ChartSnapshot>)
    requires start <= date
    requires forall k | k in before ::
               (k in orig && before[k] == orig[k])
               || (k.1 == tz && start <= k.0 < date)
    requires (date, tz) in before ==> after == before
    requires (date, tz) !in before ==>
               d == FreshDay(sunMoon, illumination, date, tz, natal)
               && forall k | k in after :: (k == (date, tz) && after[k] == d) || (k in before && after[k] == before[k])
    ensures forall k | k in after ::
              (k in orig && after[k] == orig[k])
              || (k.1 == tz && start <= k.0 < date + 1)
    ensures (date, tz) in before ==> (date, tz) in orig && before[(date, tz)] == orig[(date, tz)]
  {
  }

  class LunarPlannerService {
    /** Sun and Moon longitudes at local noon of a day in a time zone. */
    const sunMoon: (int, string) -> (real, real)
    /** `int(round((1 - cos(radians(angle))) * 50))`. */
    const illumination: real -> int
    const cacheSize: int
    /** The day cache, keyed by (date, time zone); `keys` is its insertion order. */
    var cache: map<(int, string), DayContext>
    var keys: seq<(int, string)>

    /**
     * The cache lists each key once, and every stored day has the sky of a
     * fresh computation for its key: only the natal house can differ.
     */
    ghost predicate Valid()
      reads this
    {
      DistinctSeq(keys)
      && (forall k :: k in cache <==> k in keys)
      && (forall k | k in cache :: SameSky(cache[k], FreshDay(sunMoon, illumination, k.0, k.1, None)))
    }

    constructor(sunMoon: (int, string) -> (real, real), illumination: real -> int, cacheSize: int)
      ensures Valid()
      ensures this.sunMoon == sunMoon && this.illumination == illumination && this.cacheSize == cacheSize
      ensures cache == map[] && keys == []
    {
      this.sunMoon := sunMoon;
      this.illumination := illumination;
      this.cacheSize := cacheSize;
      cache := map[];
      keys := [];
    }

    /** `_prune_cache`: the cache is rebuilt from the kept keys, in their sorted order. */
    method Prune()
      requires Valid()
      modifies this
      ensures Valid()
      ensures keys == PrunedKeys(old(keys), cacheSize)
      ensures cache == map k | k in keys :: old(cache)[k]
    {
      var kept := PrunedKeys(keys, cacheSize);
      PrunedKeysDistinct(keys, cacheSize);
      cache := map k | k in kept :: cache[k];
      keys := kept;
    }

    /**
     * `_compute_day`: a cached day is returned (enriched with the natal
     * house when one is wanted and missing, without touching the cache);
     * otherwise the day is computed, stored last, and the cache pruned.
     */
    method ComputeDay(date: int, tz: string, natal: Option<Ephemeris.ChartSnapshot>) returns (d: DayContext)
      requires Valid()
      modifies this
      ensures Valid()
      ensures d.date == date
      ensures SameSky(d, FreshDay(sunMoon, illumination, date, tz, None))
      ensures (date, tz) in old(cache) ==>
                cache == old(cache) && keys == old(keys) && d == Enriched(sunMoon, old(cache)[(date, tz)], tz, natal)
      ensures (date, tz) !in old(cache) ==>
                d == FreshDay(sunMoon, illumination, date, tz, natal)
                && keys == PrunedKeys(old(keys) + [(date, tz)], cacheSize)
                && (forall k | k in cache :: (k == (date, tz) && cache[k] == d) || (k in old(cache) && cache[k] == old(cache)[k]))
    {
      var key := (date, tz);
      if key in cache {
        d := Enriched(sunMoon, cache[key], tz, natal);
        assert cache[key].date == date;
        return;
      }
      d := FreshDay(sunMoon, illumination, date, tz, natal);
      StoreDay(key, d);
    }

    /** The miss path of `_compute_day`: the day is stored under a new key, listed last, and the cache pruned. */
    method StoreDay(key: (int, string), d: DayContext)
      requires Valid() && key !in cache && SameSky(d, FreshDay(sunMoon, illumination, key.0, key.1, None))
      modifies this
      ensures Valid()
      ensures keys == PrunedKeys(old(keys) + [key], cacheSize)
      ensures forall k | k in cache :: (k == key && cache[k] == d) || (k in old(cache) && cache[k] == old(cache)[k])
    {
      DistinctSnoc(keys, key);
      cache := cache[key := d];
      keys := keys + [key];
      Prune();
    }

    /** With a positive size, the cache never holds more than `cacheSize` days. */
    lemma ComputeKeepsBound(oldKeys: seq<(int, string)>, key: (int, string))
      requires cacheSize >= 1 && |oldKeys| <= cacheSize
      ensures |PrunedKeys(oldKeys + [key], cacheSize)| <= cacheSize
    {
      PruneBound(oldKeys + [key], cacheSize);
    }

    /**
     * One step of `build_window`'s loop: the `_compute_day` call for
     * `date`, seen against the cache `orig` the window started from.
     */
    method WindowStep(ghost orig: map<(int, string), DayContext>, start: int, date: int, tz: string, natal: Option<Ephemeris.ChartSnapshot>)
      returns (d: DayContext)
      requires Valid() && start <= date
      requires forall k | k in cache ::
                 (k in orig && cache[k] == orig[k]) || (k.1 == tz && start <= k.0 < date)
      modifies this
      ensures Valid()
      ensures WindowDayOk(sunMoon, illumination, orig, d, date, tz, natal)
      ensures forall k | k in cache ::
                (k in orig && cache[k] == orig[k]) || (k.1 == tz && start <= k.0 < date + 1)
    {
      ghost var before := cache;
      d := ComputeDay(date, tz, natal);
      WindowCacheStep(sunMoon, illumination, orig, before, cache, d, start, date, tz, natal);
      if (date, tz) in before {
        assert d == Enriched(sunMoon, orig[(date, tz)], tz, natal);
      } else {
        assert d == FreshDay(sunMoon, illumination, date, tz, natal);
      }
    }

    /**
     * `build_window`: one day per step from `start`, `days` of them (none
     * for a negative count), each with the sky of a fresh computation.
     * Each day is `_compute_day`'s answer: freshly computed with the natal
     * house taken from `natal`, or, for a day cached before the call, that
     * entry as a cache hit returns it. Afterwards every cache entry is an
     * untouched earlier entry or a day of this window computed afresh.
     */
    method BuildWindow(start: int, tz: string, days: int, natal: Option<Ephemeris.ChartSnapshot>)
      returns (contexts: seq<DayContext>)
      requires Valid()
      modifies this
      ensures Valid()
      ensures |contexts| == if days > 0 then days else 0
      ensures forall i | 0 <= i < |contexts| ::
                WindowDayOk(sunMoon, illumination, old(cache), contexts[i], start + i, tz, natal)
      ensures forall k | k in cache ::
                (k in old(cache) && cache[k] == old(cache)[k])
                || (k.1 == tz && start <= k.0 < start + days)
    {
      contexts := [];
      var current := start;
      var n := 0;
      ghost var orig := cache;
      while n < days
        invariant Valid()
        invariant orig == old(cache)
        invariant 0 <= n <= (if days > 0 then days else 0) && current == start + n
        invariant |contexts| == n
        invariant forall i | 0 <= i < n ::
                    WindowDayOk(sunMoon, illumination, orig, contexts[i], start + i, tz, natal)
        invariant forall k | k in cache ::
                    (k in orig && cache[k] == orig[k])
                    || (k.1 == tz && start <= k.0 < start + n)
      {
        var d := WindowStep(orig, start, current, tz, natal);
        ghost var prev := contexts;
        contexts := contexts + [d];
        forall i | 0 <= i < n + 1
          ensures WindowDayOk(sunMoon, illumination, orig, contexts[i], start + i, tz, natal)
        {
          if i < n {
            assert contexts[i] == prev[i];
          } else {
            assert contexts[i] == d && start + i == current;
          }
        }
        current := current + 1;
        n := n + 1;
      }
    }
  }

  /** Advice for an action in one phase. */
  datatype PhaseAdvice = PhaseAdvice(score: int, rating: string, text: string)

  datatype ActionDef = ActionDef(
    slug: string,
    premiumOnly: bool,
    categories: seq<string>,
    summary: string,
    phaseAdvice: map<string, PhaseAdvice>)

  datatype Suggestion = Suggestion(action: ActionDef, advice: PhaseAdvice)

  /** The action's advice for the phase, or a neutral advice quoting the action's summary. */
  function AdviceFor(action: ActionDef, phaseKey: string, neutralScore: int): (a: PhaseAdvice)
    ensures phaseKey in action.phaseAdvice ==> a == action.phaseAdvice[phaseKey]
    ensures phaseKey !in action.phaseAdvice ==> a.rating == "neutral" && a.text == action.summary && a.score == neutralScore
  {
    if phaseKey in action.phaseAdvice then action.phaseAdvice[phaseKey]
    else PhaseAdvice(neutralScore, "neutral", action.summary)
  }

  /** The actions open to the user, with their advice for the phase, in table order. */
  function Candidates(actions: seq<ActionDef>, phaseKey: string, isPremium: bool, neutralScore: int)
    : (r: seq<Suggestion>)
    ensures |r| <= |actions|
    ensures forall s | s in r ::
              s.action in actions && (isPremium || !s.action.premiumOnly)
              && s.advice == AdviceFor(s.action, phaseKey, neutralScore)
    ensures forall a | a in actions && (isPremium || !a.premiumOnly) ::
              Suggestion(a, AdviceFor(a, phaseKey, neutralScore)) in r
    decreases |actions|
  {
    if actions == [] then []
    else
      var init := actions[..|actions| - 1];
      var a := actions[|actions| - 1];
      var rest := Candidates(init, phaseKey, isPremium, neutralScore);
      assert forall x | x in init :: x in actions;
      assert actions == init + [a];
      if a.premiumOnly && !isPremium then rest
      else rest + [Suggestion(a, AdviceFor(a, phaseKey, neutralScore))]
  }

  /** The ranking key `(score, -len(categories), slug)`, compared element by element. */
  function SuggestionKey(s: Suggestion): seq<real>
  {
    [s.advice.score as real, -(|s.action.categories| as real)] + SlugKey(s.action.slug)
  }

  function SlugKey(slug: string): (k: seq<real>)
    ensures |k| == |slug|
    ensures forall i | 0 <= i < |slug| :: k[i] == (slug[i] as int) as real
  {
    if slug == [] then [] else [(slug[0] as int) as real] + SlugKey(slug[1..])
  }

  /** `[item for item in xs if item.advice.score >= least]`. */
  function AtLeast(xs: seq<Suggestion>, least: int): (r: seq<Suggestion>)
    ensures |r| <= |xs|
    ensures forall s :: s in r <==> s in xs && s.advice.score >= least
    ensures SortedDesc(xs, SuggestionKey) ==> SortedDesc(r, SuggestionKey)
    decreases |xs|
  {
    if xs == [] then []
    else
      var rest := AtLeast(xs[1..], least);
      if xs[0].advice.score >= least then
        assert forall s | s in rest :: s in xs[1..];
        [xs[0]] + rest
      else rest
  }

  /** The candidates ranked best first. */
  function Ranked(actions: seq<ActionDef>, phaseKey: string, isPremium: bool, neutralScore: int)
    : (r: seq<Suggestion>)
    ensures SortedDesc(r, SuggestionKey)
    ensures forall s :: s in r <==> s in Candidates(actions, phaseKey, isPremium, neutralScore)
    ensures |r| == |Candidates(actions, phaseKey, isPremium, neutralScore)|
  {
    var candidates := Candidates(actions, phaseKey, isPremium, neutralScore);
    forall s ensures s in SortDesc(candidates, SuggestionKey) <==> s in candidates {
      SortedMember(candidates, SuggestionKey, s);
    }
    SortDesc(candidates, SuggestionKey)
  }

  /** Those scoring at least 2 if any, else those scoring at least 1, else the first `limit`. */
  function Preferred(ranked: seq<Suggestion>, limit: int): (p: seq<Suggestion>)
    ensures forall s | s in p :: s in ranked
    ensures (exists s | s in ranked :: s.advice.score >= 2) ==> forall s | s in p :: s.advice.score >= 2
    ensures (exists s | s in ranked :: s.advice.score >= 1) ==> forall s | s in p :: s.advice.score >= 1
    ensures SortedDesc(ranked, SuggestionKey) ==> SortedDesc(p, SuggestionKey)
    ensures limit > 0 && ranked != [] ==> p != []
  {
    var best := AtLeast(ranked, 2);
    var good := AtLeast(ranked, 1);
    if best != [] then
      assert best[0] in best;
      best
    else if good != [] then
      assert good[0] in good;
      assert forall c | c in ranked :: c.advice.score < 2 by {
        forall c | c in ranked ensures c.advice.score < 2 {
          assert c !in best;
        }
      }
      good
    else
      var p := SliceTo(ranked, limit);
      assert forall i | 0 <= i < |p| :: p[i] == ranked[i];
      p
  }

  /**
   * `select_actions`: the candidates ranked best first; those scoring at
   * least 2 if any, else those scoring at least 1, else all; then the first
   * `limit`.
   */
  function SelectedActions(
    actions: seq<ActionDef>, phaseKey: string, isPremium: bool, limit: int, neutralScore: int)
    : (r: seq<Suggestion>)
    ensures limit >= 0 ==> |r| <= limit
  {
    SliceTo(Preferred(Ranked(actions, phaseKey, isPremium, neutralScore), limit), limit)
  }

  lemma SelectedFromPreferred(p: seq<Suggestion>, limit: int, s: Suggestion)
    requires s in SliceTo(p, limit)
    ensures s in p
  {
    var r := SliceTo(p, limit);
    var i :| 0 <= i < |r| && r[i] == s;
    assert r[i] == p[i];
  }

  /** Premium-only actions are never offered to other users, and each carries its advice for the phase. */
  lemma SelectedEligible(
    actions: seq<ActionDef>, phaseKey: string, isPremium: bool, limit: int, neutralScore: int, s: Suggestion)
    requires s in SelectedActions(actions, phaseKey, isPremium, limit, neutralScore)
    ensures s.action in actions && (isPremium || !s.action.premiumOnly)
    ensures s.advice == AdviceFor(s.action, phaseKey, neutralScore)
  {
    SelectedFromPreferred(Preferred(Ranked(actions, phaseKey, isPremium, neutralScore), limit), limit, s);
  }

  /** The selection is ranked best first. */
  lemma SelectedOrdered(actions: seq<ActionDef>, phaseKey: string, isPremium: bool, limit: int, neutralScore: int)
    ensures SortedDesc(SelectedActions(actions, phaseKey, isPremium, limit, neutralScore), SuggestionKey)
  {
    var p := Preferred(Ranked(actions, phaseKey, isPremium, neutralScore), limit);
    var r := SliceTo(p, limit);
    assert forall i | 0 <= i < |r| :: r[i] == p[i];
  }

  /**
   * The thresholds relax one step at a time: if some open action scores 2
   * only such actions are offered, and if some scores 1 only actions
   * scoring at least 1.
   */
  lemma SelectedThresholds(
    actions: seq<ActionDef>, phaseKey: string, isPremium: bool, limit: int, neutralScore: int, s: Suggestion)
    requires s in SelectedActions(actions, phaseKey, isPremium, limit, neutralScore)
    ensures (exists c | c in Candidates(actions, phaseKey, isPremium, neutralScore) :: c.advice.score >= 2) ==>
              s.advice.score >= 2
    ensures (exists c | c in Candidates(actions, phaseKey, isPremium, neutralScore) :: c.advice.score >= 1) ==>
              s.advice.score >= 1
  {
    var ranked := Ranked(actions, phaseKey, isPremium, neutralScore);
    SelectedFromPreferred(Preferred(ranked, limit), limit, s);
  }

  /** With a positive limit, something is offered whenever some action is open to the user. */
  lemma SelectedNonEmpty(
    actions: seq<ActionDef>, phaseKey: string, isPremium: bool, limit: int, neutralScore: int, a: ActionDef)
    requires limit > 0 && a in actions && (isPremium || !a.premiumOnly)
    ensures SelectedActions(actions, phaseKey, isPremium, limit, neutralScore) != []
  {
    var c := Suggestion(a, AdviceFor(a, phaseKey, neutralScore));
    assert c in Candidates(actions, phaseKey, isPremium, neutralScore);
    assert c in Ranked(actions, phaseKey, isPremium, neutralScore);
  }

  /**
   * The tier `select_actions` draws from: the ranked candidates scoring at
   * least 2 if there are any, else those scoring at least 1 if there are
   * any, else all of them.
   */
  function Tier(ranked: seq<Suggestion>): (t: seq<Suggestion>)
    ensures SortedDesc(ranked, SuggestionKey) ==> SortedDesc(t, SuggestionKey)
    ensures (exists c | c in ranked :: c.advice.score >= 2) ==>
              forall c :: c in t <==> c in ranked && c.advice.score >= 2
    ensures (forall c | c in ranked :: c.advice.score < 2) && (exists c | c in ranked :: c.advice.score >= 1) ==>
              forall c :: c in t <==> c in ranked && c.advice.score >= 1
    ensures (forall c | c in ranked :: c.advice.score < 1) ==> t == ranked
  {
    var best := AtLeast(ranked, 2);
    var good := AtLeast(ranked, 1);
    if best != [] then
      assert best[0] in best;
      best
    else if good != [] then
      assert good[0] in good;
      assert forall c | c in ranked :: c.advice.score < 2 by {
        forall c | c in ranked ensures c.advice.score < 2 {
          assert c !in best;
        }
      }
      good
    else
      assert forall c | c in ranked :: c.advice.score < 1 by {
        forall c | c in ranked ensures c.advice.score < 1 {
          assert c !in good;
        }
      }
      ranked
  }

  /**
   * With a limit that is not negative, the selection is the first `limit`
   * of the tier, so every action offered ranks at least as high as every
   * action of the tier left out.
   */
  lemma SelectedBestOfTier(actions: seq<ActionDef>, phaseKey: string, isPremium: bool, limit: int, neutralScore: int)
    requires limit >= 0
    ensures var tier := Tier(Ranked(actions, phaseKey, isPremium, neutralScore));
            var r := SelectedActions(actions, phaseKey, isPremium, limit, neutralScore);
            r == SliceTo(tier, limit)
            && forall i, j | 0 <= i < |r| <= j < |tier| :: !KeyLess(SuggestionKey(r[i]), SuggestionKey(tier[j]))
  {
    var ranked := Ranked(actions, phaseKey, isPremium, neutralScore);
    var tier := Tier(ranked);
    var r := SelectedActions(actions, phaseKey, isPremium, limit, neutralScore);
    var p := Preferred(ranked, limit);
    if AtLeast(ranked, 2) == [] && AtLeast(ranked, 1) == [] {
      assert p == SliceTo(ranked, limit);
      assert SliceTo(p, limit) == p;
    }
    assert r == SliceTo(tier, limit);
    forall i, j | 0 <= i < |r| <= j < |tier| ensures !KeyLess(SuggestionKey(r[i]), SuggestionKey(tier[j])) {
      assert r[i] == tier[i];
    }
  }

  /** `select_actions` with the candidate list built step by step, as the source does. */
  method SelectActions(
    actions: seq<ActionDef>, phase: Phase, isPremium: bool, limit: int, neutralScore: int)
    returns (r: seq<Suggestion>)
    ensures r == SelectedActions(actions, PhaseKey(phase), isPremium, limit, neutralScore)
  {
    var phaseKey := PhaseKey(phase);
    var candidates: seq<Suggestion> := [];
    var i := 0;
    while i < |actions|
      invariant 0 <= i <= |actions|
      invariant candidates == Candidates(actions[..i], phaseKey, isPremium, neutralScore)
    {
      var action := actions[i];
      assert actions[..i + 1][..i] == actions[..i];
      if !(action.premiumOnly && !isPremium) {
        candidates := candidates + [Suggestion(action, AdviceFor(action, phaseKey, neutralScore))];
      }
      i := i + 1;
    }
    assert actions[..i] == actions;
    var ranked := SortDesc(candidates, SuggestionKey);
    var preferred := AtLeast(ranked, 2);
    if preferred == [] {
      preferred := AtLeast(ranked, 1);
    }
    if preferred == [] {
      preferred := SliceTo(ranked, limit);
    }
    r := SliceTo(preferred, limit);
  }

  /** `get_action_advice`: the indexed action's advice for a phase key, if both exist. */
  function ActionAdvice(index: map<string, ActionDef>, slug: string, phaseKey: string): (a: Option<PhaseAdvice>)
    ensures slug !in index ==> a.None?
    ensures a.Some? <==> slug in index && phaseKey in index[slug].phaseAdvice
  {
    if slug !in index then None
    else if phaseKey in index[slug].phaseAdvice then Some(index[slug].phaseAdvice[phaseKey])
    else None
  }

  /** The advice a selected suggestion carries is the indexed advice, when the phase has one. */
  lemma SelectedAdviceMatchesIndex(
    actions: seq<ActionDef>, index: map<string, ActionDef>, phaseKey: string, isPremium: bool, limit: int,
    neutralScore: int, s: Suggestion)
    requires forall a | a in actions :: a.slug in index && index[a.slug] == a
    requires s in SelectedActions(actions, phaseKey, isPremium, limit, neutralScore)
    ensures ActionAdvice(index, s.action.slug, phaseKey).Some? ==> ActionAdvice(index, s.action.slug, phaseKey) == Some(s.advice)
    ensures ActionAdvice(index, s.action.slug, phaseKey).None? ==> s.advice.text == s.action.summary
  {
    SelectedEligible(actions, phaseKey, isPremium, limit, neutralScore, s);
  }
}
