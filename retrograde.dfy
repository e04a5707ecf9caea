/**
 * Retrograde periods: a daily retrograde flag per planet, sampled at noon
 * by the ephemeris, is cut into periods, each with its pre-alert date.
 * Dates are day numbers.
 */
module Retrograde {
  import opened Wrappers
  import opened Slices
  import opened Formatters

  /** A period of retrograde motion; `end` is None while it is still running at the last sample. */
  datatype RetroPeriod = RetroPeriod(planet: string, start: int, end: Option<int>, preAlert: int)

  /** Planets every user hears about, and the full premium list. */
  const BasePlanets: seq<string> := ["Mercury"]
  const TrackedPlanets: seq<string> := ["Mercury", "Venus", "Mars", "Jupiter", "Saturn"]
  const DefaultPreAlertDays: int := 3

  /** `RetroPeriod.contains`. */
  predicate Contains(p: RetroPeriod, day: int)
  {
    if p.end.None? then p.start <= day else p.start <= day <= p.end.value
  }

  /** `_append_period`'s record: the pre-alert falls `preAlertDays` before the start. */
  function NewPeriod(planet: string, start: int, end: Option<int>, preAlertDays: int): RetroPeriod
  {
    RetroPeriod(planet, start, end, start - preAlertDays)
  }

  predicate StrictlyIncreasing(dates: seq<int>)
  {
    forall i, j | 0 <= i < j < |dates| :: dates[i] < dates[j]
  }

  /** Each period is closed and ends before the next one starts. */
  predicate Ordered(ps: seq<RetroPeriod>)
  {
    forall j1, j2 | 0 <= j1 < j2 < |ps| :: ps[j1].end.Some? && ps[j1].end.value < ps[j2].start
  }

  // ---------------------------------------------------------------------
  // The walk over the series
  // ---------------------------------------------------------------------

  /** The state of the walk: periods closed so far, the previous flag and the open start. */
  datatype Walk = Walk(periods: seq<RetroPeriod>, prev: bool, current: Option<int>)

  /** The walk after the samples `0 .. k - 1`. */
  function WalkTo(planet: string, dates: seq<int>, flags: seq<bool>, k: int, preAlertDays: int): Walk
    requires |dates| == |flags| && 1 <= k <= |dates|
    decreases k
  {
    if k == 1 then Walk([], flags[0], if flags[0] then Some(dates[0]) else None)
    else
      var w := WalkTo(planet, dates, flags, k - 1, preAlertDays);
      var day := dates[k - 1];
      var status := flags[k - 1];
      if !w.prev && status then Walk(w.periods, status, Some(day))
      else if w.prev && !status then
        var start := if w.current.None? then dates[0] else w.current.value;
        Walk(w.periods + [NewPeriod(planet, start, Some(day - 1), preAlertDays)], status, None)
      else Walk(w.periods, status, w.current)
  }

  /** The periods of the whole series, before filtering: the walk, plus the period still open at the end. */
  function Periods(planet: string, dates: seq<int>, flags: seq<bool>, preAlertDays: int): seq<RetroPeriod>
    requires |dates| == |flags|
  {
    if dates == [] then []
    else
      var w := WalkTo(planet, dates, flags, |dates|, preAlertDays);
      if w.prev && w.current.Some? then w.periods + [NewPeriod(planet, w.current.value, None, preAlertDays)]
      else w.periods
  }

  /** The index where the run of set flags through `i` begins. */
  function RunStart(flags: seq<bool>, i: nat): (s: nat)
    requires i < |flags|
    ensures s <= i
    ensures s == 0 || !flags[s - 1]
    ensures forall t | s <= t < i :: flags[t]
    decreases i
  {
    if i == 0 || !flags[i - 1] then i else RunStart(flags, i - 1)
  }

  /** Closed periods of `planet` with their pre-alert dates, inside [dates[0], bound). */
  predicate ShapeOk(planet: string, dates: seq<int>, preAlertDays: int, ps: seq<RetroPeriod>, bound: int)
    requires dates != []
  {
    forall p | p in ps ::
      p.planet == planet && p.preAlert == p.start - preAlertDays && p.end.Some? &&
      dates[0] <= p.start <= p.end.value < bound
  }

  predicate EndsBefore(ps: seq<RetroPeriod>, day: int)
  {
    forall p | p in ps :: p.end.Some? && p.end.value < day
  }

  /** Every set sample before `k` lies in a period, unless it belongs to the open run from `openFrom`. */
  predicate CoversUpTo(ps: seq<RetroPeriod>, dates: seq<int>, flags: seq<bool>, k: int, openFrom: int)
    requires |dates| == |flags| && k <= |dates|
  {
    forall i | 0 <= i < k && flags[i] ::
      openFrom <= i || exists j | 0 <= j < |ps| :: Contains(ps[j], dates[i])
  }

  /** No clear sample before `k` lies in any period. */
  predicate ExcludesUpTo(ps: seq<RetroPeriod>, dates: seq<int>, flags: seq<bool>, k: int)
    requires |dates| == |flags| && k <= |dates|
  {
    forall i | 0 <= i < k && !flags[i] :: forall j | 0 <= j < |ps| :: !Contains(ps[j], dates[i])
  }

  /** What the walk has established after `k` samples. */
  predicate WalkInv(planet: string, dates: seq<int>, flags: seq<bool>, k: int, preAlertDays: int, w: Walk)
    requires |dates| == |flags| && 1 <= k <= |dates|
  {
    && w.prev == flags[k - 1]
    && (w.current.Some? <==> w.prev)
    && (w.prev ==> w.current.value == dates[RunStart(flags, k - 1)])
    && ShapeOk(planet, dates, preAlertDays, w.periods, dates[k - 1])
    && (w.prev ==> EndsBefore(w.periods, dates[RunStart(flags, k - 1)]))
    && Ordered(w.periods)
    && CoversUpTo(w.periods, dates, flags, k, if w.prev then RunStart(flags, k - 1) else k)
    && ExcludesUpTo(w.periods, dates, flags, k)
  }

  lemma ShapeWiden(planet: string, dates: seq<int>, preAlertDays: int, ps: seq<RetroPeriod>, b1: int, b2: int)
    requires dates != [] && b1 <= b2
    requires ShapeOk(planet, dates, preAlertDays, ps, b1)
    ensures ShapeOk(planet, dates, preAlertDays, ps, b2)
    ensures EndsBefore(ps, b2)
  {
  }

  lemma ShapeAppend(planet: string, dates: seq<int>, preAlertDays: int, ps: seq<RetroPeriod>, np: RetroPeriod, bound: int)
    requires dates != []
    requires ShapeOk(planet, dates, preAlertDays, ps, bound)
    requires np.planet == planet && np.preAlert == np.start - preAlertDays && np.end.Some?
    requires dates[0] <= np.start <= np.end.value < bound
    ensures ShapeOk(planet, dates, preAlertDays, ps + [np], bound)
  {
  }

  lemma AppendOrdered(ps: seq<RetroPeriod>, np: RetroPeriod)
    requires Ordered(ps) && EndsBefore(ps, np.start)
    ensures Ordered(ps + [np])
  {
    var r := ps + [np];
    forall j1, j2 | 0 <= j1 < j2 < |r| ensures r[j1].end.Some? && r[j1].end.value < r[j2].start {
      assert r[j1] == ps[j1] && r[j1] in ps;
      if j2 < |ps| { assert r[j2] == ps[j2]; }
    }
  }

  lemma CoversExtend(ps: seq<RetroPeriod>, dates: seq<int>, flags: seq<bool>, k: int, a: int, b: int)
    requires |dates| == |flags| && 1 <= k <= |dates|
    requires CoversUpTo(ps, dates, flags, k - 1, a)
    requires b <= a || a == k - 1
    requires flags[k - 1] ==> b <= k - 1
    ensures CoversUpTo(ps, dates, flags, k, b)
  {
  }

  lemma AppendCovers(ps: seq<RetroPeriod>, np: RetroPeriod, dates: seq<int>, flags: seq<bool>, m: int, rs: int)
    requires |dates| == |flags| && m <= |dates|
    requires CoversUpTo(ps, dates, flags, m, rs)
    requires forall i | 0 <= i < m && rs <= i && flags[i] :: Contains(np, dates[i])
    ensures CoversUpTo(ps + [np], dates, flags, m, m)
  {
    var r := ps + [np];
    forall i | 0 <= i < m && flags[i] ensures exists j | 0 <= j < |r| :: Contains(r[j], dates[i]) {
      if rs <= i {
        assert Contains(r[|ps|], dates[i]);
      } else {
        var j :| 0 <= j < |ps| && Contains(ps[j], dates[i]);
        assert r[j] == ps[j];
      }
    }
  }

  lemma ExcludesExtend(ps: seq<RetroPeriod>, dates: seq<int>, flags: seq<bool>, k: int)
    requires |dates| == |flags| && 1 <= k <= |dates|
    requires ExcludesUpTo(ps, dates, flags, k - 1)
    requires flags[k - 1] || EndsBefore(ps, dates[k - 1])
    ensures ExcludesUpTo(ps, dates, flags, k)
  {
    if !flags[k - 1] {
      forall j | 0 <= j < |ps| ensures !Contains(ps[j], dates[k - 1]) {
        assert ps[j] in ps;
      }
    }
  }

  lemma AppendExcludes(ps: seq<RetroPeriod>, np: RetroPeriod, dates: seq<int>, flags: seq<bool>, k: int)
    requires |dates| == |flags| && k <= |dates|
    requires ExcludesUpTo(ps, dates, flags, k)
    requires forall i | 0 <= i < k && !flags[i] :: !Contains(np, dates[i])
    ensures ExcludesUpTo(ps + [np], dates, flags, k)
  {
    var r := ps + [np];
    forall i, j | 0 <= i < k && !flags[i] && 0 <= j < |r| ensures !Contains(r[j], dates[i]) {
      if j < |ps| { assert r[j] == ps[j]; }
    }
  }

  lemma {:induction false} WalkInvariant(planet: string, dates: seq<int>, flags: seq<bool>, k: int, preAlertDays: int)
    requires |dates| == |flags| && 1 <= k <= |dates| && StrictlyIncreasing(dates)
    ensures WalkInv(planet, dates, flags, k, preAlertDays, WalkTo(planet, dates, flags, k, preAlertDays))
    decreases k
  {
    if k > 1 {
      WalkInvariant(planet, dates, flags, k - 1, preAlertDays);
      var w := WalkTo(planet, dates, flags, k - 1, preAlertDays);
      if !w.prev && flags[k - 1] {
        WalkOpens(planet, dates, flags, k, preAlertDays, w);
      } else if w.prev && !flags[k - 1] {
        WalkCloses(planet, dates, flags, k, preAlertDays, w);
      } else {
        WalkContinues(planet, dates, flags, k, preAlertDays, w);
      }
    }
  }

  lemma WalkOpens(planet: string, dates: seq<int>, flags: seq<bool>, k: int, preAlertDays: int, w: Walk)
    requires |dates| == |flags| && 2 <= k <= |dates| && StrictlyIncreasing(dates)
    requires WalkInv(planet, dates, flags, k - 1, preAlertDays, w)
    requires !w.prev && flags[k - 1]
    ensures WalkInv(planet, dates, flags, k, preAlertDays, Walk(w.periods, true, Some(dates[k - 1])))
  {
    assert RunStart(flags, k - 1) == k - 1;
    assert dates[k - 2] < dates[k - 1];
    ShapeWiden(planet, dates, preAlertDays, w.periods, dates[k - 2], dates[k - 1]);
    CoversExtend(w.periods, dates, flags, k, k - 1, k - 1);
    ExcludesExtend(w.periods, dates, flags, k);
  }

  lemma WalkCloses(planet: string, dates: seq<int>, flags: seq<bool>, k: int, preAlertDays: int, w: Walk)
    requires |dates| == |flags| && 2 <= k <= |dates| && StrictlyIncreasing(dates)
    requires WalkInv(planet, dates, flags, k - 1, preAlertDays, w)
    requires w.prev && !flags[k - 1]
    ensures WalkInv(planet, dates, flags, k, preAlertDays,
              Walk(w.periods + [NewPeriod(planet, w.current.value, Some(dates[k - 1] - 1), preAlertDays)], false, None))
  {
    var rs := RunStart(flags, k - 2);
    var np := NewPeriod(planet, dates[rs], Some(dates[k - 1] - 1), preAlertDays);
    assert w.current.value == dates[rs];
    assert dates[0] <= dates[rs] <= dates[k - 2] < dates[k - 1];
    ShapeWiden(planet, dates, preAlertDays, w.periods, dates[k - 2], dates[k - 1]);
    ShapeAppend(planet, dates, preAlertDays, w.periods, np, dates[k - 1]);
    AppendOrdered(w.periods, np);
    CloseCoverage(dates, flags, k, w.periods, rs, np);
  }

  /** Closing the run `rs .. k - 2` at the clear sample `k - 1` covers the run and nothing clear. */
  lemma CloseCoverage(dates: seq<int>, flags: seq<bool>, k: int, ps: seq<RetroPeriod>, rs: int, np: RetroPeriod)
    requires |dates| == |flags| && 2 <= k <= |dates| && StrictlyIncreasing(dates)
    requires 0 <= rs <= k - 2 && (rs == 0 || !flags[rs - 1]) && forall t | rs <= t <= k - 2 :: flags[t]
    requires !flags[k - 1]
    requires np.start == dates[rs] && np.end == Some(dates[k - 1] - 1)
    requires EndsBefore(ps, dates[k - 1])
    requires CoversUpTo(ps, dates, flags, k - 1, rs) && ExcludesUpTo(ps, dates, flags, k - 1)
    ensures CoversUpTo(ps + [np], dates, flags, k, k) && ExcludesUpTo(ps + [np], dates, flags, k)
  {
    CoversExtend(ps, dates, flags, k, rs, rs);
    forall i | 0 <= i < k && rs <= i && flags[i] ensures Contains(np, dates[i]) {
      assert dates[rs] <= dates[i] <= dates[k - 2];
    }
    AppendCovers(ps, np, dates, flags, k, rs);
    ExcludesExtend(ps, dates, flags, k);
    forall i | 0 <= i < k && !flags[i] ensures !Contains(np, dates[i]) {
      if i < k - 1 {
        assert dates[i] < dates[rs];
      }
    }
    AppendExcludes(ps, np, dates, flags, k);
  }

  lemma WalkContinues(planet: string, dates: seq<int>, flags: seq<bool>, k: int, preAlertDays: int, w: Walk)
    requires |dates| == |flags| && 2 <= k <= |dates| && StrictlyIncreasing(dates)
    requires WalkInv(planet, dates, flags, k - 1, preAlertDays, w)
    requires w.prev == flags[k - 1]
    ensures WalkInv(planet, dates, flags, k, preAlertDays, Walk(w.periods, flags[k - 1], w.current))
  {
    assert dates[k - 2] < dates[k - 1];
    ShapeWiden(planet, dates, preAlertDays, w.periods, dates[k - 2], dates[k - 1]);
    if w.prev {
      var rs := RunStart(flags, k - 2);
      assert RunStart(flags, k - 1) == rs;
      CoversExtend(w.periods, dates, flags, k, rs, rs);
    } else {
      CoversExtend(w.periods, dates, flags, k, k - 1, k);
    }
    ExcludesExtend(w.periods, dates, flags, k);
  }

  /**
   * `_extract_periods` before its filter: every set day lies in some
   * period and no clear day in any; the periods are in order, every closed
   * one has start ≤ end, and each carries its pre-alert date.
   */
  lemma PeriodsCoverSeries(planet: string, dates: seq<int>, flags: seq<bool>, preAlertDays: int)
    requires |dates| == |flags| && StrictlyIncreasing(dates)
    ensures var ps := Periods(planet, dates, flags, preAlertDays);
      && (forall p | p in ps :: p.planet == planet && p.preAlert == p.start - preAlertDays)
      && (forall p | p in ps :: dates[0] <= p.start <= dates[|dates| - 1])
      && (forall p | p in ps && p.end.Some? :: p.start <= p.end.value < dates[|dates| - 1])
      && Ordered(ps)
      && (forall i | 0 <= i < |dates| && flags[i] :: exists j | 0 <= j < |ps| :: Contains(ps[j], dates[i]))
      && (forall i | 0 <= i < |dates| && !flags[i] :: forall j | 0 <= j < |ps| :: !Contains(ps[j], dates[i]))
  {
    if dates != [] {
      var n := |dates|;
      WalkInvariant(planet, dates, flags, n, preAlertDays);
      var w := WalkTo(planet, dates, flags, n, preAlertDays);
      if w.prev {
        EndsOpen(planet, dates, flags, preAlertDays, w);
      } else {
        EndsClosed(planet, dates, flags, preAlertDays, w);
      }
    }
  }

  /** A walk that ends outside a run has already closed every period. */
  lemma EndsClosed(planet: string, dates: seq<int>, flags: seq<bool>, preAlertDays: int, w: Walk)
    requires |dates| == |flags| && StrictlyIncreasing(dates) && dates != []
    requires w == WalkTo(planet, dates, flags, |dates|, preAlertDays)
    requires WalkInv(planet, dates, flags, |dates|, preAlertDays, w) && !w.prev
    ensures var ps := Periods(planet, dates, flags, preAlertDays);
      && (forall p | p in ps :: p.planet == planet && p.preAlert == p.start - preAlertDays)
      && (forall p | p in ps :: dates[0] <= p.start <= dates[|dates| - 1])
      && (forall p | p in ps && p.end.Some? :: p.start <= p.end.value < dates[|dates| - 1])
      && Ordered(ps)
      && (forall i | 0 <= i < |dates| && flags[i] :: exists j | 0 <= j < |ps| :: Contains(ps[j], dates[i]))
      && (forall i | 0 <= i < |dates| && !flags[i] :: forall j | 0 <= j < |ps| :: !Contains(ps[j], dates[i]))
  {
  }

  /** A walk that ends inside a run adds that run as an open period. */
  lemma EndsOpen(planet: string, dates: seq<int>, flags: seq<bool>, preAlertDays: int, w: Walk)
    requires |dates| == |flags| && StrictlyIncreasing(dates) && dates != []
    requires w == WalkTo(planet, dates, flags, |dates|, preAlertDays)
    requires WalkInv(planet, dates, flags, |dates|, preAlertDays, w) && w.prev
    ensures var ps := Periods(planet, dates, flags, preAlertDays);
      && (forall p | p in ps :: p.planet == planet && p.preAlert == p.start - preAlertDays)
      && (forall p | p in ps :: dates[0] <= p.start <= dates[|dates| - 1])
      && (forall p | p in ps && p.end.Some? :: p.start <= p.end.value < dates[|dates| - 1])
      && Ordered(ps)
      && (forall i | 0 <= i < |dates| && flags[i] :: exists j | 0 <= j < |ps| :: Contains(ps[j], dates[i]))
      && (forall i | 0 <= i < |dates| && !flags[i] :: forall j | 0 <= j < |ps| :: !Contains(ps[j], dates[i]))
  {
    var n := |dates|;
    var rs := RunStart(flags, n - 1);
    var np := NewPeriod(planet, dates[rs], None, preAlertDays);
    assert Periods(planet, dates, flags, preAlertDays) == w.periods + [np];
    assert forall t | rs <= t < n :: flags[t];
    OpenFacts(planet, dates, flags, preAlertDays, w.periods, rs, np);
  }

  /** Closed periods with the walk's guarantees, plus the run open from `rs` to the end. */
  lemma OpenFacts(planet: string, dates: seq<int>, flags: seq<bool>, preAlertDays: int, closed: seq<RetroPeriod>, rs: int, np: RetroPeriod)
    requires |dates| == |flags| && StrictlyIncreasing(dates) && dates != []
    requires 0 <= rs < |dates| && forall t | rs <= t < |dates| :: flags[t]
    requires np == NewPeriod(planet, dates[rs], None, preAlertDays)
    requires ShapeOk(planet, dates, preAlertDays, closed, dates[|dates| - 1])
    requires EndsBefore(closed, dates[rs]) && Ordered(closed)
    requires CoversUpTo(closed, dates, flags, |dates|, rs) && ExcludesUpTo(closed, dates, flags, |dates|)
    ensures var ps := closed + [np];
      && (forall p | p in ps :: p.planet == planet && p.preAlert == p.start - preAlertDays)
      && (forall p | p in ps :: dates[0] <= p.start <= dates[|dates| - 1])
      && (forall p | p in ps && p.end.Some? :: p.start <= p.end.value < dates[|dates| - 1])
      && Ordered(ps)
      && (forall i | 0 <= i < |dates| && flags[i] :: exists j | 0 <= j < |ps| :: Contains(ps[j], dates[i]))
      && (forall i | 0 <= i < |dates| && !flags[i] :: forall j | 0 <= j < |ps| :: !Contains(ps[j], dates[i]))
  {
    assert dates[0] <= dates[rs] <= dates[|dates| - 1];
    AppendOrdered(closed, np);
    OpenRunCoverage(dates, flags, closed, rs, np);
  }

  /** Appending the run still open at the last sample covers it and nothing clear. */
  lemma OpenRunCoverage(dates: seq<int>, flags: seq<bool>, ps: seq<RetroPeriod>, rs: int, np: RetroPeriod)
    requires |dates| == |flags| && 1 <= |dates| && StrictlyIncreasing(dates)
    requires 0 <= rs < |dates| && forall t | rs <= t < |dates| :: flags[t]
    requires np.start == dates[rs] && np.end.None?
    requires CoversUpTo(ps, dates, flags, |dates|, rs) && ExcludesUpTo(ps, dates, flags, |dates|)
    ensures CoversUpTo(ps + [np], dates, flags, |dates|, |dates|) && ExcludesUpTo(ps + [np], dates, flags, |dates|)
  {
    forall i | 0 <= i < |dates| && rs <= i && flags[i] ensures Contains(np, dates[i]) {
      assert dates[rs] <= dates[i] || rs == i;
    }
    AppendCovers(ps, np, dates, flags, |dates|, rs);
    forall i | 0 <= i < |dates| && !flags[i] ensures !Contains(np, dates[i]) {
      assert dates[i] < dates[rs];
    }
    AppendExcludes(ps, np, dates, flags, |dates|);
  }

  /** Ordered periods overlap nowhere: a day lies in at most one of them. */
  lemma AtMostOnePeriod(ps: seq<RetroPeriod>, day: int, j1: int, j2: int)
    requires Ordered(ps)
    requires forall p | p in ps && p.end.Some? :: p.start <= p.end.value
    requires 0 <= j1 < |ps| && 0 <= j2 < |ps|
    requires Contains(ps[j1], day) && Contains(ps[j2], day)
    ensures j1 == j2
  {
  }

  /** A series that begins retrograde opens its first period on its first day. */
  lemma FirstDayOpensPeriod(planet: string, dates: seq<int>, flags: seq<bool>, preAlertDays: int)
    requires |dates| == |flags| && StrictlyIncreasing(dates) && dates != [] && flags[0]
    ensures var ps := Periods(planet, dates, flags, preAlertDays);
            ps != [] && ps[0].start == dates[0]
  {
    PeriodsCoverSeries(planet, dates, flags, preAlertDays);
    var ps := Periods(planet, dates, flags, preAlertDays);
    var j :| 0 <= j < |ps| && Contains(ps[j], dates[0]);
    OnlyFirstHoldsFirstDay(ps, dates[0], j);
  }

  /** Among ordered periods starting no earlier than `first`, only the first can hold `first`. */
  lemma OnlyFirstHoldsFirstDay(ps: seq<RetroPeriod>, first: int, j: int)
    requires Ordered(ps)
    requires forall p | p in ps :: first <= p.start
    requires forall p | p in ps && p.end.Some? :: p.start <= p.end.value
    requires 0 <= j < |ps| && Contains(ps[j], first)
    ensures j == 0 && ps[0].start == first
  {
    assert ps[0] in ps && ps[j] in ps;
  }

  /** A series still retrograde on its last day ends with an open period. */
  lemma LastDayLeavesPeriodOpen(planet: string, dates: seq<int>, flags: seq<bool>, preAlertDays: int)
    requires |dates| == |flags| && StrictlyIncreasing(dates) && dates != [] && flags[|flags| - 1]
    ensures var ps := Periods(planet, dates, flags, preAlertDays);
            ps != [] && ps[|ps| - 1].end.None?
  {
    WalkInvariant(planet, dates, flags, |dates|, preAlertDays);
  }

  /** Days 1–6 flagged F, F, T, T, T, F give one period, from day 3 to day 5. */
  lemma ExampleSeries()
    ensures Periods("Mercury", [1, 2, 3, 4, 5, 6], [false, false, true, true, true, false], 3)
            == [RetroPeriod("Mercury", 3, Some(5), 0)]
  {
  }

  // ---------------------------------------------------------------------
  // Filter, sort, extraction
  // ---------------------------------------------------------------------

  /** `_extract_periods`' relevance test. */
  predicate Relevant(p: RetroPeriod, startDate: int, endDate: int)
  {
    !(p.end.Some? && p.end.value < startDate - 30) && !(p.start > endDate + 60)
  }

  function FilterRelevant(ps: seq<RetroPeriod>, startDate: int, endDate: int): (r: seq<RetroPeriod>)
    ensures forall p | p in r :: p in ps && Relevant(p, startDate, endDate)
    ensures forall p | p in ps && Relevant(p, startDate, endDate) :: p in r
  {
    if ps == [] then []
    else
      var last := ps[|ps| - 1];
      FilterRelevant(ps[..|ps| - 1], startDate, endDate) + (if Relevant(last, startDate, endDate) then [last] else [])
  }

  /** Sorting by start, ascending, is the descending sort of the negated start. */
  function StartKey(p: RetroPeriod): seq<real> { [-(p.start as real)] }

  lemma FilterKeepsAll(ps: seq<RetroPeriod>, startDate: int, endDate: int)
    requires forall p | p in ps :: Relevant(p, startDate, endDate)
    ensures FilterRelevant(ps, startDate, endDate) == ps
  {
    if ps != [] {
      FilterKeepsAll(ps[..|ps| - 1], startDate, endDate);
      assert ps == ps[..|ps| - 1] + [ps[|ps| - 1]];
    }
  }

  /** The walk of `_extract_periods` over the date-ordered samples. */
  method WalkSeries(planet: string, dates: seq<int>, flags: seq<bool>, preAlertDays: int)
    returns (periods: seq<RetroPeriod>)
    requires |dates| == |flags|
    ensures periods == Periods(planet, dates, flags, preAlertDays)
  {
    periods := [];
    if |dates| == 0 {
      return;
    }
    var prevStatus := flags[0];
    var currentStart: Option<int> := if prevStatus then Some(dates[0]) else None;
    var k := 1;
    while k < |dates|
      invariant 1 <= k <= |dates|
      invariant Walk(periods, prevStatus, currentStart) == WalkTo(planet, dates, flags, k, preAlertDays)
    {
      var day := dates[k];
      var status := flags[k];
      if !prevStatus && status {
        currentStart := Some(day);
      } else if prevStatus && !status {
        if currentStart.None? {
          currentStart := Some(dates[0]);
        }
        periods := periods + [NewPeriod(planet, currentStart.value, Some(day - 1), preAlertDays)];
        currentStart := None;
      }
      prevStatus := status;
      k := k + 1;
    }
    if prevStatus && currentStart.Some? {
      periods := periods + [NewPeriod(planet, currentStart.value, None, preAlertDays)];
    }
  }

  /** The relevance filter of `_extract_periods`. */
  method FilterPeriods(periods: seq<RetroPeriod>, startDate: int, endDate: int) returns (filtered: seq<RetroPeriod>)
    ensures filtered == FilterRelevant(periods, startDate, endDate)
  {
    filtered := [];
    var i := 0;
    while i < |periods|
      invariant 0 <= i <= |periods|
      invariant filtered == FilterRelevant(periods[..i], startDate, endDate)
    {
      var p := periods[i];
      assert periods[..i + 1][..i] == periods[..i];
      if Relevant(p, startDate, endDate) {
        filtered := filtered + [p];
      }
      i := i + 1;
    }
    assert periods[..i] == periods;
  }

  /** `_extract_periods`: the walk, the relevance filter, then a stable sort by start. */
  method ExtractPeriods(
    planet: string, dates: seq<int>, flags: seq<bool>, startDate: int, endDate: int, preAlertDays: int)
    returns (result: seq<RetroPeriod>)
    requires |dates| == |flags|
    ensures result == SortDesc(FilterRelevant(Periods(planet, dates, flags, preAlertDays), startDate, endDate), StartKey)
    ensures forall i, j | 0 <= i < j < |result| :: result[i].start <= result[j].start
  {
    var periods := WalkSeries(planet, dates, flags, preAlertDays);
    var filtered := FilterPeriods(periods, startDate, endDate);
    result := SortDesc(filtered, StartKey);
    forall i, j | 0 <= i < j < |result| ensures result[i].start <= result[j].start {
      assert !KeyLess(StartKey(result[i]), StartKey(result[j]));
    }
  }

  /**
   * Over the sampled window [startDate − 30, endDate + 60] the filter drops
   * nothing and the sort changes nothing: extraction returns the walk's
   * periods as they are.
   */
  lemma WindowKeepsEveryPeriod(planet: string, dates: seq<int>, flags: seq<bool>, startDate: int, endDate: int, preAlertDays: int)
    requires |dates| == |flags| && StrictlyIncreasing(dates) && dates != []
    requires dates[0] == startDate - 30 && dates[|dates| - 1] == endDate + 60
    ensures var ps := Periods(planet, dates, flags, preAlertDays);
            SortDesc(FilterRelevant(ps, startDate, endDate), StartKey) == ps
  {
    PeriodsCoverSeries(planet, dates, flags, preAlertDays);
    var ps := Periods(planet, dates, flags, preAlertDays);
    InsideAreRelevant(ps, startDate, endDate);
    FilterKeepsAll(ps, startDate, endDate);
    OrderedIsSortedDesc(ps);
    SortDescOfSorted(ps, StartKey);
  }

  /** Periods lying within the sampled window all pass the filter. */
  lemma InsideAreRelevant(ps: seq<RetroPeriod>, startDate: int, endDate: int)
    requires forall p | p in ps :: startDate - 30 <= p.start <= endDate + 60
    requires forall p | p in ps && p.end.Some? :: p.start <= p.end.value
    ensures forall p | p in ps :: Relevant(p, startDate, endDate)
  {
  }

  /** Ordered periods are already sorted by start, latest last. */
  lemma OrderedIsSortedDesc(ps: seq<RetroPeriod>)
    requires Ordered(ps)
    requires forall p | p in ps && p.end.Some? :: p.start <= p.end.value
    ensures SortedDesc(ps, StartKey)
  {
    forall i, j | 0 <= i < j < |ps| ensures !KeyLess(StartKey(ps[i]), StartKey(ps[j])) {
      assert ps[i] in ps;
      assert ps[i].end.Some? && ps[i].end.value < ps[j].start;
      assert ps[i].start <= ps[i].end.value;
    }
  }

  /** A closed period ends on the day before a sample, so never before the first sample. */
  lemma ClosedPeriodEndsAfterFirstDay(planet: string, dates: seq<int>, flags: seq<bool>, preAlertDays: int, p: RetroPeriod)
    requires |dates| == |flags| && StrictlyIncreasing(dates) && dates != []
    requires p in Periods(planet, dates, flags, preAlertDays) && p.end.Some?
    ensures p.end.value >= dates[0]
  {
    PeriodsCoverSeries(planet, dates, flags, preAlertDays);
  }

  // ---------------------------------------------------------------------
  // The sampled window and get_periods
  // ---------------------------------------------------------------------

  /** `_compute_statuses`' dates: every day from `start` to `end`. */
  method SampleDays(start: int, end: int) returns (days: seq<int>)
    ensures |days| == if end >= start then end - start + 1 else 0
    ensures forall i | 0 <= i < |days| :: days[i] == start + i
  {
    days := [];
    var current := start;
    while current <= end
      invariant start <= current <= if end >= start then end + 1 else start
      invariant |days| == current - start
      invariant forall i | 0 <= i < |days| :: days[i] == start + i
      decreases end - current
    {
      days := days + [current];
      current := current + 1;
    }
  }

  /** One planet's column of the status table, read from the ephemeris oracle. */
  function Column(days: seq<int>, planet: string, retrograde: (int, string) -> bool): (flags: seq<bool>)
    ensures |flags| == |days|
    ensures forall i | 0 <= i < |days| :: flags[i] == retrograde(days[i], planet)
  {
    seq(|days|, i requires 0 <= i < |days| => retrograde(days[i], planet))
  }

  /**
   * `get_periods`: for each tracked planet, the periods of its retrograde
   * flag over [startDate − 30, endDate + 60], unfiltered and in order.
   */
  method GetPeriods(startDate: int, endDate: int, retrograde: (int, string) -> bool, preAlertDays: int)
    returns (result: seq<(string, seq<RetroPeriod>)>)
    requires startDate - 30 <= endDate + 60
    ensures |result| == |TrackedPlanets|
    ensures forall i | 0 <= i < |result| ::
              var days := seq(endDate + 60 - (startDate - 30) + 1, d => startDate - 30 + d);
              result[i].0 == TrackedPlanets[i] &&
              result[i].1 == Periods(TrackedPlanets[i], days, Column(days, TrackedPlanets[i], retrograde), preAlertDays)
  {
    var days := SampleDays(startDate - 30, endDate + 60);
    ghost var window := seq(endDate + 60 - (startDate - 30) + 1, d => startDate - 30 + d);
    assert days == window;
    assert StrictlyIncreasing(days);
    result := [];
    var i := 0;
    while i < |TrackedPlanets|
      invariant 0 <= i <= |TrackedPlanets|
      invariant |result| == i
      invariant forall n | 0 <= n < i ::
                  result[n].0 == TrackedPlanets[n] &&
                  result[n].1 == Periods(TrackedPlanets[n], days, Column(days, TrackedPlanets[n], retrograde), preAlertDays)
    {
      var planet := TrackedPlanets[i];
      var flags := Column(days, planet, retrograde);
      var periods := ExtractPeriods(planet, days, flags, startDate, endDate, preAlertDays);
      WindowKeepsEveryPeriod(planet, days, flags, startDate, endDate, preAlertDays);
      result := result + [(planet, periods)];
      i := i + 1;
    }
  }

  // ---------------------------------------------------------------------
  // Queries
  // ---------------------------------------------------------------------

  predicate Upcoming(p: RetroPeriod, reference: int)
  {
    p.start >= reference || Contains(p, reference)
  }

  function UpcomingOf(ps: seq<RetroPeriod>, reference: int): (r: seq<RetroPeriod>)
    ensures forall p :: p in r <==> p in ps && Upcoming(p, reference)
  {
    if ps == [] then []
    else
      var last := ps[|ps| - 1];
      UpcomingOf(ps[..|ps| - 1], reference) + (if Upcoming(last, reference) then [last] else [])
  }

  /**
   * `get_next_period`: among the periods starting on or after the
   * reference day or containing it, one with the earliest start.
   */
  function NextPeriod(ps: seq<RetroPeriod>, reference: int): (r: Option<RetroPeriod>)
    ensures r.None? <==> forall p | p in ps :: !Upcoming(p, reference)
    ensures r.Some? ==> r.value in ps && Upcoming(r.value, reference)
    ensures r.Some? ==> forall p | p in ps && Upcoming(p, reference) :: r.value.start <= p.start
  {
    var upcoming := UpcomingOf(ps, reference);
    if upcoming == [] then None
    else
      EarliestFirst(upcoming);
      Some(SortDesc(upcoming, StartKey)[0])
  }

  /** The head of the sort by start is a member with the earliest start. */
  lemma EarliestFirst(ps: seq<RetroPeriod>)
    requires ps != []
    ensures SortDesc(ps, StartKey)[0] in ps
    ensures forall p | p in ps :: SortDesc(ps, StartKey)[0].start <= p.start
  {
    var sorted := SortDesc(ps, StartKey);
    SortedMember(ps, StartKey, sorted[0]);
    forall p | p in ps ensures sorted[0].start <= p.start {
      SortedMember(ps, StartKey, p);
      var j :| 0 <= j < |sorted| && sorted[j] == p;
      if j > 0 { assert !KeyLess(StartKey(sorted[0]), StartKey(sorted[j])); }
    }
  }

  /** The day count of `format_pre_alert`: days left until the start, never negative. */
  function PreAlertDayCount(p: RetroPeriod, today: int): (days: int)
    ensures days >= 0
    ensures days == 0 <==> p.start <= today
    ensures days > 0 ==> today + days == p.start
  {
    if p.start - today > 0 then p.start - today else 0
  }

  /** `_pluralize_days` is the shared Russian plural rule. */
  lemma PluralizeRetroDays(n: int)
    ensures PluralizeDays(n) == "день" <==> n % 10 == 1 && n % 100 != 11
    ensures PluralizeDays(n) == "дня" <==> 2 <= n % 10 <= 4 && !(12 <= n % 100 <= 14)
  {
  }
}
