/**
 * The "aspect of the day": aspects between two transit planets at noon,
 * rendered from the transit templates, ordered by weight and memoised per
 * date.
 */
module AspectOfDay {
  import opened Wrappers
  import opened Strings
  import opened Slices
  import opened Ephemeris
  import opened Transits
  import opened Interpretation
  import Forecast

  /** One aspect between two sky planets, with its free and premium texts. */
  datatype DayAspect = DayAspect(
    planetA: string,
    planetB: string,
    aspect: string,
    orb: real,
    exact: bool,
    weight: real,
    text: string,
    premium: string)

  /** The two texts `_render_template` returns. */
  datatype DayTexts = DayTexts(free: string, premium: string)

  /**
   * What one day's scan depends on: the noon positions, the template draw
   * for each (planet, planet, aspect) triple, the renderer (the service
   * hands in `RenderTemplate` over its tables) and `round(orb, 2)`.
   */
  datatype DayInputs = DayInputs(
    positions: string -> PlanetPosition,
    draw: (string, string, string) -> nat,
    render: (TransitAspect, nat) -> Option<DayTexts>,
    round2: real -> real)

  // ---------------------------------------------------------------------
  // The applying rule
  // ---------------------------------------------------------------------

  /** `ASPECTS.get(aspect, (0, 0))[0]`: the exact angle, 0 for unknown names. */
  function ExactAngle(aspect: string): (angle: real)
    ensures 0.0 <= angle <= 180.0
  {
    if aspect == "sextile" then 60.0
    else if aspect == "square" then 90.0
    else if aspect == "trine" then 120.0
    else if aspect == "opposition" then 180.0
    else 0.0
  }

  lemma ExactAngleMatchesTable(i: int)
    requires 0 <= i < |Aspects|
    ensures ExactAngle(Aspects[i].name) == Aspects[i].angle
  {
  }

  /** The longitude of `a` relative to `b`, brought into (-180, 180]. */
  function Relative(lonA: real, lonB: real): (diff: real)
    ensures -180.0 < diff <= 180.0
  {
    var d := Mod360(lonA - lonB);
    if d > 180.0 then d - 360.0 else d
  }

  /** The relative longitude differs from `lonA - lonB` by whole turns only. */
  lemma RelativeCongruent(lonA: real, lonB: real)
    ensures Mod360(Relative(lonA, lonB)) == Mod360(lonA - lonB)
  {
    var x := lonA - lonB;
    Mod360Turns(x);
    var k := (x / 360.0).Floor;
    var t: int := if Mod360(x) > 180.0 then -1 else 0;
    assert Relative(lonA, lonB) == x + 360.0 * ((t - k) as real);
    Mod360WholeTurns(x, t - k);
  }

  /**
   * `_is_applying` of the aspect of the day: past the exact angle the
   * aspect applies when `a` is slower than `b`, before it when `a` is
   * faster.
   */
  function PairApplying(posA: PlanetPosition, posB: PlanetPosition, aspect: string): (applying: bool)
    ensures applying ==> posA.speed != posB.speed
    ensures Relative(posA.lon, posB.lon) - ExactAngle(aspect) > 0.0 ==> (applying <==> posA.speed < posB.speed)
    ensures Relative(posA.lon, posB.lon) - ExactAngle(aspect) <= 0.0 ==> (applying <==> posA.speed > posB.speed)
  {
    var delta := Relative(posA.lon, posB.lon) - ExactAngle(aspect);
    if delta > 0.0 then posA.speed < posB.speed else posA.speed > posB.speed
  }

  /** Whole turns added to the first longitude do not change the verdict. */
  lemma PairApplyingTurnInvariant(posA: PlanetPosition, posB: PlanetPosition, aspect: string, k: int)
    ensures PairApplying(posA.(lon := posA.lon + 360.0 * (k as real)), posB, aspect) == PairApplying(posA, posB, aspect)
  {
    var shifted := posA.lon + 360.0 * (k as real);
    assert shifted - posB.lon == (posA.lon - posB.lon) + 360.0 * (k as real);
    Mod360WholeTurns(posA.lon - posB.lon, k);
  }

  /** Two planets at the same speed never apply, whatever the angle. */
  lemma EqualSpeedsNeverApply(posA: PlanetPosition, posB: PlanetPosition, aspect: string)
    requires posA.speed == posB.speed
    ensures !PairApplying(posA, posB, aspect)
  {
  }

  // ---------------------------------------------------------------------
  // Rendering one aspect
  // ---------------------------------------------------------------------

  function AdviceLine(advice: string): string
  {
    "Совет дня: " + advice + ". #советдня"
  }

  /** `_build_transit_aspect`: the aspect dressed as a transit record, with no houses. */
  function AsTransit(posA: PlanetPosition, a: string, posB: PlanetPosition, b: string, aspect: string,
                     orb: real, exact: bool, weight: real, round2: real -> real): (t: TransitAspect)
    ensures t.transitPlanet == a && t.natalPlanet == b && t.aspect == aspect
    ensures t.orb == round2(orb) && t.exact == exact && t.weight == weight
    ensures t.transitHouse.None? && t.natalHouse.None?
    ensures t.applying == PairApplying(posA, posB, aspect)
  {
    TransitAspect(a, b, aspect, round2(orb), exact, PairApplying(posA, posB, aspect), weight, None, None, posA, posB)
  }

  lemma JoinTwo(sep: string, x: string, y: string)
    ensures Join(sep, [x, y]) == x + sep + y
  {
    assert [x, y][1..] == [y];
  }

  lemma JoinThree(sep: string, x: string, y: string, z: string)
    ensures Join(sep, [x, y, z]) == x + sep + y + sep + z
  {
    assert [x, y, z][1..] == [y, z];
    JoinTwo(sep, y, z);
  }

  /**
   * `_render_template`: nothing without a template; otherwise the free
   * text is the filled text and the advice line, and the premium text
   * puts the retrograde note between them when there is one.
   */
  function RenderTemplate(rd: Renderer, t: TransitAspect, k: nat): (r: Option<DayTexts>)
    ensures r.None? <==> ChooseTemplate(rd.data, t, k).None?
    ensures r.Some? ==>
              var tpl := ChooseTemplate(rd.data, t, k).value;
              var ctx := BuildContext(t, rd.planetNames, rd.aspectNames);
              var text := rd.format(tpl.text, ctx);
              var advice := AdviceLine(rd.format(tpl.advice, ctx));
              var retro := RetrogradeNote(rd.data, t, rd.format, ctx);
              r.value.free == text + "\n" + advice
              && (Forecast.Truthy(retro) ==> r.value.premium == text + "\n" + retro.value + "\n" + advice)
              && (!Forecast.Truthy(retro) ==> r.value.premium == r.value.free)
  {
    match ChooseTemplate(rd.data, t, k)
    case None => None
    case Some(tpl) =>
      var ctx := BuildContext(t, rd.planetNames, rd.aspectNames);
      var text := rd.format(tpl.text, ctx);
      var advice := AdviceLine(rd.format(tpl.advice, ctx));
      var retro := RetrogradeNote(rd.data, t, rd.format, ctx);
      var premiumParts := [text] + (if Forecast.Truthy(retro) then [retro.value] else []) + [advice];
      JoinTwo("\n", text, advice);
      if Forecast.Truthy(retro) then
        assert premiumParts == [text, retro.value, advice];
        JoinThree("\n", text, retro.value, advice);
        Some(DayTexts(Join("\n", [text, advice]), Join("\n", premiumParts)))
      else
        assert premiumParts == [text, advice];
        Some(DayTexts(Join("\n", [text, advice]), Join("\n", premiumParts)))
  }

  /** A retrograde note can only appear for a retrograde first planet. */
  lemma PremiumDiffersOnlyWhenRetrograde(rd: Renderer, t: TransitAspect, k: nat)
    requires RenderTemplate(rd, t, k).Some?
    requires !t.transitPosition.retrograde
    ensures RenderTemplate(rd, t, k).value.premium == RenderTemplate(rd, t, k).value.free
  {
  }

  // ---------------------------------------------------------------------
  // The pair scan
  // ---------------------------------------------------------------------

  /** The record for one pair and one aspect kind, or nothing when the orb is too wide or no template exists. */
  function DayHit(inp: DayInputs, a: string, b: string, d: AspectDef): seq<DayAspect>
  {
    var posA := inp.positions(a);
    var posB := inp.positions(b);
    var orb := CalculateOrb(d.angle, AngularDistance(posA.lon, posB.lon));
    if orb > d.orb then []
    else
      var weight := AspectWeight(a, b, d.name, orb);
      var t := AsTransit(posA, a, posB, b, d.name, orb, orb <= 0.1, weight, inp.round2);
      match inp.render(t, inp.draw(a, b, d.name))
      case None => []
      case Some(texts) => [DayAspect(a, b, d.name, inp.round2(orb), orb <= 0.1, weight, texts.free, texts.premium)]
  }

  lemma DayHitUnfold(inp: DayInputs, a: string, b: string, d: AspectDef, orb: real)
    requires orb == Abs(d.angle - AngularDistance(inp.positions(a).lon, inp.positions(b).lon))
    ensures orb > d.orb ==> DayHit(inp, a, b, d) == []
    ensures orb <= d.orb ==>
              var weight := AspectWeight(a, b, d.name, orb);
              var t := AsTransit(inp.positions(a), a, inp.positions(b), b, d.name, orb, orb <= 0.1, weight, inp.round2);
              var texts := inp.render(t, inp.draw(a, b, d.name));
              DayHit(inp, a, b, d)
              == if texts.Some?
                 then [DayAspect(a, b, d.name, inp.round2(orb), orb <= 0.1, weight, texts.value.free, texts.value.premium)]
                 else []
  {
  }

  /** Every aspect kind, in table order, for one pair. */
  function PairHits(inp: DayInputs, a: string, b: string, defs: seq<AspectDef>): seq<DayAspect>
  {
    if defs == [] then []
    else PairHits(inp, a, b, defs[..|defs| - 1]) + DayHit(inp, a, b, defs[|defs| - 1])
  }

  /** The concatenation `rows(0) + rows(1) + ... + rows(n - 1)`. */
  function Concat<T>(rows: nat -> seq<T>, n: nat): seq<T>
  {
    if n == 0 then [] else Concat(rows, n - 1) + rows(n - 1)
  }

  lemma {:induction false} ConcatHas<T>(rows: nat -> seq<T>, n: nat, k: nat, x: T)
    requires k < n && x in rows(k)
    ensures x in Concat(rows, n)
  {
    if k < n - 1 {
      ConcatHas(rows, n - 1, k, x);
    }
  }

  lemma {:induction false} ConcatFrom<T>(rows: nat -> seq<T>, n: nat, x: T)
    requires x in Concat(rows, n)
    ensures exists k | 0 <= k < n :: x in rows(k)
  {
    if x !in rows(n - 1) {
      ConcatFrom(rows, n - 1, x);
    }
  }

  /** Row `i` of `combinations(ps, 2)`: entry `k` is what `pair` gives for `(ps[i], ps[i + 1 + k])`. */
  function PairRow<T>(pair: (string, string) -> seq<T>, ps: seq<string>, i: nat): nat -> seq<T>
  {
    (k: nat) => if i + 1 + k < |ps| then pair(ps[i], ps[i + 1 + k]) else []
  }

  /** The row up to `(ps[i], ps[j])` is the row before it followed by that pair. */
  lemma RowStep<T>(pair: (string, string) -> seq<T>, ps: seq<string>, i: nat, j: nat)
    requires i < j < |ps|
    ensures Concat(PairRow(pair, ps, i), j - i) == Concat(PairRow(pair, ps, i), j - i - 1) + pair(ps[i], ps[j])
  {
    assert PairRow(pair, ps, i)(j - i - 1) == pair(ps[i], ps[j]);
  }

  lemma RowHas<T>(pair: (string, string) -> seq<T>, ps: seq<string>, i: nat, k: nat, x: T)
    requires i < k < |ps| && x in pair(ps[i], ps[k])
    ensures x in Concat(PairRow(pair, ps, i), |ps| - i - 1)
  {
    var row := PairRow(pair, ps, i);
    assert row(k - i - 1) == pair(ps[i], ps[k]);
    ConcatHas(row, |ps| - i - 1, k - i - 1, x);
  }

  lemma RowFrom<T>(pair: (string, string) -> seq<T>, ps: seq<string>, i: nat, n: nat, x: T)
    requires x in Concat(PairRow(pair, ps, i), n)
    ensures exists k | i < k < |ps| :: x in pair(ps[i], ps[k])
  {
    var row := PairRow(pair, ps, i);
    ConcatFrom(row, n, x);
    var k :| 0 <= k < n && x in row(k);
    assert i + 1 + k < |ps| && x in pair(ps[i], ps[i + 1 + k]);
  }

  /** The scan of one pair over the aspect table `defs`. */
  function PairScan(inp: DayInputs, defs: seq<AspectDef>): (string, string) -> seq<DayAspect>
  {
    (a, b) => PairHits(inp, a, b, defs)
  }

  /** The pairs `(ps[i], ps[k])` for `i < k < j`, in order of `k`. */
  function RowHits(inp: DayInputs, ps: seq<string>, defs: seq<AspectDef>, i: nat, j: nat): seq<DayAspect>
  {
    Concat(PairRow(PairScan(inp, defs), ps, i), if j <= i + 1 then 0 else j - i - 1)
  }

  /** A row holds no pair before its first partner. */
  lemma RowHitsEmpty(inp: DayInputs, ps: seq<string>, defs: seq<AspectDef>, i: nat)
    ensures RowHits(inp, ps, defs, i, i + 1) == []
  {
  }

  lemma RowHitsStep(inp: DayInputs, ps: seq<string>, defs: seq<AspectDef>, i: nat, j: nat)
    requires i < j < |ps|
    ensures RowHits(inp, ps, defs, i, j + 1) == RowHits(inp, ps, defs, i, j) + PairHits(inp, ps[i], ps[j], defs)
  {
    var pair := PairScan(inp, defs);
    RowStep(pair, ps, i, j);
    assert pair(ps[i], ps[j]) == PairHits(inp, ps[i], ps[j], defs);
  }

  /** The rows of `combinations(ps, 2)`, one per planet. */
  function AllRows(inp: DayInputs, ps: seq<string>, defs: seq<AspectDef>): nat -> seq<DayAspect>
  {
    (i: nat) => RowHits(inp, ps, defs, i, |ps|)
  }

  lemma CollectedStep(inp: DayInputs, ps: seq<string>, defs: seq<AspectDef>, i: nat)
    ensures Collected(inp, ps, defs, i + 1) == Collected(inp, ps, defs, i) + RowHits(inp, ps, defs, i, |ps|)
  {
    assert AllRows(inp, ps, defs)(i) == RowHits(inp, ps, defs, i, |ps|);
  }

  /** The rows of `combinations(ps, 2)` for the first planets `ps[..i]`. */
  function Collected(inp: DayInputs, ps: seq<string>, defs: seq<AspectDef>, i: nat): seq<DayAspect>
  {
    Concat(AllRows(inp, ps, defs), i)
  }

  /** The sort key: weight, then the negated stored orb, compared in reverse. */
  function DayKey(x: DayAspect): seq<real> { [x.weight, -x.orb] }

  /** The list `get_aspects` builds for a day. */
  function DayAspects(inp: DayInputs, ps: seq<string>): seq<DayAspect>
  {
    SortDesc(Collected(inp, ps, Aspects, |ps|), DayKey)
  }

  // ---------------------------------------------------------------------
  // Properties of the scan
  // ---------------------------------------------------------------------

  /** The pair is `(ps[i], ps[j])` for some `i < j`: one of `combinations(ps, 2)`. */
  ghost predicate OrderedPair(ps: seq<string>, a: string, b: string)
  {
    exists i, j | 0 <= i < j < |ps| :: ps[i] == a && ps[j] == b
  }

  /** The orb test, exactness, weight and texts of a record against the aspect kind it came from. */
  predicate DayHitOf(inp: DayInputs, x: DayAspect, d: AspectDef)
  {
    var posA := inp.positions(x.planetA);
    var posB := inp.positions(x.planetB);
    var orb := CalculateOrb(d.angle, AngularDistance(posA.lon, posB.lon));
    var t := AsTransit(posA, x.planetA, posB, x.planetB, d.name, orb, orb <= 0.1, x.weight, inp.round2);
    d.name == x.aspect
    && orb <= d.orb
    && x.orb == inp.round2(orb)
    && (x.exact <==> orb <= 0.1)
    && x.weight == AspectWeight(x.planetA, x.planetB, x.aspect, orb)
    && inp.render(t, inp.draw(x.planetA, x.planetB, x.aspect)) == Some(DayTexts(x.text, x.premium))
  }

  ghost predicate ValidDayAspect(inp: DayInputs, ps: seq<string>, x: DayAspect)
  {
    ValidOver(inp, ps, Aspects, x)
  }

  /** A record of an ordered pair justified by one of the aspect kinds `defs`. */
  ghost predicate ValidOver(inp: DayInputs, ps: seq<string>, defs: seq<AspectDef>, x: DayAspect)
  {
    OrderedPair(ps, x.planetA, x.planetB) && exists d | d in defs :: DayHitOf(inp, x, d)
  }

  lemma {:induction false} PairHitsSound(inp: DayInputs, a: string, b: string, defs: seq<AspectDef>)
    ensures forall x | x in PairHits(inp, a, b, defs) ::
              x.planetA == a && x.planetB == b && exists d | d in defs :: DayHitOf(inp, x, d)
    decreases |defs|
  {
    if defs != [] {
      var init := defs[..|defs| - 1];
      var d := defs[|defs| - 1];
      PairHitsSound(inp, a, b, init);
      forall x | x in PairHits(inp, a, b, defs)
        ensures x.planetA == a && x.planetB == b && exists d' | d' in defs :: DayHitOf(inp, x, d')
      {
        if x in PairHits(inp, a, b, init) {
          var d' :| d' in init && DayHitOf(inp, x, d');
          assert d' in defs;
        } else {
          assert x in DayHit(inp, a, b, d);
          assert DayHitOf(inp, x, d);
        }
      }
    }
  }

  lemma RowHitsSound(inp: DayInputs, ps: seq<string>, defs: seq<AspectDef>, i: nat, x: DayAspect)
    requires x in RowHits(inp, ps, defs, i, |ps|)
    ensures ValidOver(inp, ps, defs, x)
  {
    var pair := PairScan(inp, defs);
    RowFrom(pair, ps, i, if |ps| <= i + 1 then 0 else |ps| - i - 1, x);
    var k :| i < k < |ps| && x in pair(ps[i], ps[k]);
    PairEntrySound(inp, ps, defs, i, k, x);
  }

  lemma PairEntrySound(inp: DayInputs, ps: seq<string>, defs: seq<AspectDef>, i: nat, j: nat, x: DayAspect)
    requires i < j < |ps| && x in PairHits(inp, ps[i], ps[j], defs)
    ensures ValidOver(inp, ps, defs, x)
  {
    PairHitsSound(inp, ps[i], ps[j], defs);
    assert ps[i] == x.planetA && ps[j] == x.planetB;
  }

  lemma CollectedSound(inp: DayInputs, ps: seq<string>, defs: seq<AspectDef>, n: nat, x: DayAspect)
    requires x in Collected(inp, ps, defs, n)
    ensures ValidOver(inp, ps, defs, x)
  {
    ConcatFrom(AllRows(inp, ps, defs), n, x);
    var i :| 0 <= i < n && x in RowHits(inp, ps, defs, i, |ps|);
    RowHitsSound(inp, ps, defs, i, x);
  }

  /**
   * Every aspect of the day comes from a pair `(ps[i], ps[j])` with
   * `i < j`, an aspect kind whose base orb it fits, an exactness flag set
   * iff the orb is at most 0.1, the transit weight formula, and a template.
   */
  lemma DayAspectsSound(inp: DayInputs, ps: seq<string>, x: DayAspect)
    requires x in DayAspects(inp, ps)
    ensures ValidDayAspect(inp, ps, x)
  {
    SortedMember(Collected(inp, ps, Aspects, |ps|), DayKey, x);
    CollectedSound(inp, ps, Aspects, |ps|, x);
  }

  /** With distinct planets no planet is paired with itself. */
  lemma NoSelfPairs(inp: DayInputs, ps: seq<string>, x: DayAspect)
    requires forall i, j | 0 <= i < j < |ps| :: ps[i] != ps[j]
    requires x in DayAspects(inp, ps)
    ensures x.planetA != x.planetB
  {
    DayAspectsSound(inp, ps, x);
  }

  /** The record a pair and an aspect kind produce when the orb fits and a template exists. */
  function ExpectedHit(inp: DayInputs, a: string, b: string, d: AspectDef): Option<DayAspect>
  {
    var hit := DayHit(inp, a, b, d);
    if hit == [] then None else Some(hit[0])
  }

  lemma {:induction false} PairHitsComplete(inp: DayInputs, a: string, b: string, defs: seq<AspectDef>, d: AspectDef, x: DayAspect)
    requires d in defs && x in DayHit(inp, a, b, d)
    ensures x in PairHits(inp, a, b, defs)
    decreases |defs|
  {
    var init := defs[..|defs| - 1];
    if d != defs[|defs| - 1] {
      assert d in init by {
        assert defs == init + [defs[|defs| - 1]];
      }
      PairHitsComplete(inp, a, b, init, d, x);
    }
  }

  lemma RowHitsComplete(inp: DayInputs, ps: seq<string>, defs: seq<AspectDef>, i: nat, k: nat, x: DayAspect)
    requires i < k < |ps| && x in PairHits(inp, ps[i], ps[k], defs)
    ensures x in RowHits(inp, ps, defs, i, |ps|)
  {
    var pair := PairScan(inp, defs);
    assert pair(ps[i], ps[k]) == PairHits(inp, ps[i], ps[k], defs);
    RowHas(pair, ps, i, k, x);
  }

  lemma CollectedComplete(inp: DayInputs, ps: seq<string>, defs: seq<AspectDef>, i: nat, x: DayAspect)
    requires i < |ps| && x in RowHits(inp, ps, defs, i, |ps|)
    ensures x in Collected(inp, ps, defs, |ps|)
  {
    var rows := AllRows(inp, ps, defs);
    assert x in rows(i);
    ConcatHas(rows, |ps|, i, x);
  }

  /**
   * Conversely, every pair `(ps[i], ps[j])` with `i < j` and every aspect
   * kind within its base orb that has a template is in the list, with
   * the orb, exactness and weight of the scan.
   */
  lemma DayAspectsComplete(inp: DayInputs, ps: seq<string>, i: nat, j: nat, d: AspectDef)
    requires i < j < |ps| && d in Aspects
    requires ExpectedHit(inp, ps[i], ps[j], d).Some?
    ensures var x := ExpectedHit(inp, ps[i], ps[j], d).value;
            var orb := CalculateOrb(d.angle, AngularDistance(inp.positions(ps[i]).lon, inp.positions(ps[j]).lon));
            x in DayAspects(inp, ps)
            && x.planetA == ps[i] && x.planetB == ps[j] && x.aspect == d.name
            && orb <= d.orb && (x.exact <==> orb <= 0.1)
            && x.weight == AspectWeight(ps[i], ps[j], d.name, orb)
  {
    var x := ExpectedHit(inp, ps[i], ps[j], d).value;
    PairHitsComplete(inp, ps[i], ps[j], Aspects, d, x);
    RowHitsComplete(inp, ps, Aspects, i, j, x);
    CollectedComplete(inp, ps, Aspects, i, x);
    SortedMember(Collected(inp, ps, Aspects, |ps|), DayKey, x);
  }

  /** The scan renders with `RenderTemplate` over the tables of `rd`. */
  ghost predicate RendersWith(inp: DayInputs, rd: Renderer)
  {
    forall t, k :: inp.render(t, k) == RenderTemplate(rd, t, k)
  }

  /** An aspect kind whose orb fits is dropped exactly when no template exists for it. */
  lemma DroppedWithoutTemplate(inp: DayInputs, rd: Renderer, a: string, b: string, d: AspectDef)
    requires RendersWith(inp, rd)
    requires CalculateOrb(d.angle, AngularDistance(inp.positions(a).lon, inp.positions(b).lon)) <= d.orb
    ensures var orb := CalculateOrb(d.angle, AngularDistance(inp.positions(a).lon, inp.positions(b).lon));
            var t := AsTransit(inp.positions(a), a, inp.positions(b), b, d.name, orb, orb <= 0.1,
                               AspectWeight(a, b, d.name, orb), inp.round2);
            ExpectedHit(inp, a, b, d).None? <==> ChooseTemplate(rd.data, t, inp.draw(a, b, d.name)).None?
  {
  }

  /** The list is ordered by weight, heaviest first, and among equal weights by stored orb, tightest first. */
  lemma DayAspectsOrdered(inp: DayInputs, ps: seq<string>, i: int, j: int)
    requires 0 <= i < j < |DayAspects(inp, ps)|
    ensures var s := DayAspects(inp, ps);
            s[i].weight > s[j].weight || (s[i].weight == s[j].weight && s[i].orb <= s[j].orb)
  {
    var s := DayAspects(inp, ps);
    var ki := DayKey(s[i]);
    var kj := DayKey(s[j]);
    assert !KeyLess(ki, kj);
    assert ki[1..] == [-s[i].orb] && kj[1..] == [-s[j].orb];
    assert ki[1..][1..] == [] && kj[1..][1..] == [];
  }

  // ---------------------------------------------------------------------
  // The message
  // ---------------------------------------------------------------------

  const CalmDay: string := "Сегодня значимых аспектов нет — спокойный фон."
  const MessageHeader: string := "✨ Сегодняшний фон"
  const PremiumBonus: string :=
    "💡 Premium-бонус: вы видите все значимые аспекты суток. Исполните главный совет и сохраните заметку в дневнике."

  /** The title line of one aspect, with Russian names where known. */
  function Title(rd: Renderer, x: DayAspect): (title: string)
    ensures |title| > 0 && title[0] == '🌟'
  {
    "🌟 " + NameOr(rd.planetNames, x.planetA) + " " + NameOr(rd.aspectNames, x.aspect) + " "
    + NameOr(rd.planetNames, x.planetB) + " #аспектдня"
  }

  /** One block: the title, then the premium or the free text. */
  function Block(rd: Renderer, x: DayAspect, isPremium: bool): string
  {
    Title(rd, x) + "\n" + (if isPremium then x.premium else x.text)
  }

  /** The blocks `format_message` joins: the header, one block per aspect, and the bonus line for premium users with several aspects. */
  function MessageBlocks(rd: Renderer, aspects: seq<DayAspect>, isPremium: bool): seq<string>
  {
    [MessageHeader]
    + seq(|aspects|, i requires 0 <= i < |aspects| => Block(rd, aspects[i], isPremium))
    + (if isPremium && |aspects| > 1 then [PremiumBonus] else [])
  }

  function Message(rd: Renderer, aspects: seq<DayAspect>, isPremium: bool): string
  {
    if aspects == [] then CalmDay else Join("\n\n", MessageBlocks(rd, aspects, isPremium))
  }

  /** The blocks follow the aspects in order, each with the text the user's plan allows. */
  lemma MessageBlocksShape(rd: Renderer, aspects: seq<DayAspect>, isPremium: bool)
    ensures var blocks := MessageBlocks(rd, aspects, isPremium);
            |blocks| == 1 + |aspects| + (if isPremium && |aspects| > 1 then 1 else 0)
            && blocks[0] == MessageHeader
            && (isPremium && |aspects| > 1 ==> blocks[|blocks| - 1] == PremiumBonus)
            && forall i | 0 <= i < |aspects| ::
                 StartsWith(blocks[i + 1], Title(rd, aspects[i]) + "\n")
                 && blocks[i + 1][|Title(rd, aspects[i]) + "\n"|..] == (if isPremium then aspects[i].premium else aspects[i].text)
  {
    var blocks := MessageBlocks(rd, aspects, isPremium);
    forall i | 0 <= i < |aspects|
      ensures StartsWith(blocks[i + 1], Title(rd, aspects[i]) + "\n")
      ensures blocks[i + 1][|Title(rd, aspects[i]) + "\n"|..] == (if isPremium then aspects[i].premium else aspects[i].text)
    {
      assert blocks[i + 1] == Block(rd, aspects[i], isPremium);
    }
  }

  /** An empty list gives the calm-day sentence; any other list opens with the header. */
  lemma MessageOpening(rd: Renderer, aspects: seq<DayAspect>, isPremium: bool)
    ensures aspects == [] ==> Message(rd, aspects, isPremium) == CalmDay
    ensures aspects != [] ==> StartsWith(Message(rd, aspects, isPremium), MessageHeader + "\n\n")
  {
    if aspects != [] {
      var blocks := MessageBlocks(rd, aspects, isPremium);
      assert |blocks| >= 2;
      var msg := Join("\n\n", blocks);
      assert msg == MessageHeader + "\n\n" + Join("\n\n", blocks[1..]);
    }
  }

  // ---------------------------------------------------------------------
  // The service
  // ---------------------------------------------------------------------

  /** `AspectOfDayService`: the planets, the outside answers per day, and the per-date memo. */
  class AspectOfDayService {
    const planets: seq<string>
    /** The ephemeris at noon of each day. */
    const sky: int -> string -> PlanetPosition
    /** The template draws of each day. */
    const draws: int -> (string, string, string) -> nat
    const rd: Renderer
    const round2: real -> real
    var cache: map<int, seq<DayAspect>>

    function InputsOn(day: int): (inp: DayInputs)
      ensures RendersWith(inp, rd)
    {
      DayInputs(sky(day), draws(day), (t, k: nat) => RenderTemplate(rd, t, k), round2)
    }

    /** Every memoised list is the one the scan gives for its day. */
    ghost predicate Valid()
      reads this
    {
      forall day | day in cache :: cache[day] == DayAspects(InputsOn(day), planets)
    }

    /** The planets given, or the ephemeris's own list when none are. */
    constructor(planets: seq<string>, ephemerisPlanets: seq<string>, sky: int -> string -> PlanetPosition,
                draws: int -> (string, string, string) -> nat, rd: Renderer, round2: real -> real)
      ensures this.planets == (if planets == [] then ephemerisPlanets else planets)
      ensures this.sky == sky && this.draws == draws && this.rd == rd && this.round2 == round2
      ensures cache == map[] && Valid()
    {
      this.planets := if planets == [] then ephemerisPlanets else planets;
      this.sky := sky;
      this.draws := draws;
      this.rd := rd;
      this.round2 := round2;
      cache := map[];
    }

    /** The inner loop over the aspect table for one pair. */
    static method ScanPair(inp: DayInputs, a: string, b: string, defs: seq<AspectDef>) returns (hits: seq<DayAspect>)
      ensures hits == PairHits(inp, a, b, defs)
    {
      var posA := inp.positions(a);
      var posB := inp.positions(b);
      var angle := AngularDistance(posA.lon, posB.lon);
      hits := [];
      var k := 0;
      while k < |defs|
        invariant 0 <= k <= |defs|
        invariant hits == PairHits(inp, a, b, defs[..k])
      {
        var d := defs[k];
        ghost var step := DayHit(inp, a, b, d);
        assert defs[..k + 1][..k] == defs[..k];
        assert PairHits(inp, a, b, defs[..k + 1]) == hits + step;
        var orb := Abs(d.angle - angle);
        var found: seq<DayAspect> := [];
        if orb <= d.orb {
          var weight := AspectWeight(a, b, d.name, orb);
          var t := AsTransit(posA, a, posB, b, d.name, orb, orb <= 0.1, weight, inp.round2);
          var texts := inp.render(t, inp.draw(a, b, d.name));
          if texts.Some? {
            found := [DayAspect(a, b, d.name, inp.round2(orb), orb <= 0.1, weight, texts.value.free, texts.value.premium)];
          }
        }
        DayHitUnfold(inp, a, b, d, orb);
        assert found == step;
        hits := hits + found;
        k := k + 1;
      }
      assert defs[..k] == defs;
    }

    /** The pairs `(ps[i], ps[j])` for every `j > i`. */
    static method ScanRow(inp: DayInputs, ps: seq<string>, defs: seq<AspectDef>, i: nat) returns (hits: seq<DayAspect>)
      requires i < |ps|
      ensures hits == RowHits(inp, ps, defs, i, |ps|)
    {
      RowHitsEmpty(inp, ps, defs, i);
      hits := [];
      for j := i + 1 to |ps|
        invariant hits == RowHits(inp, ps, defs, i, j)
      {
        hits := RowNext(inp, ps, defs, i, j, hits);
      }
    }

    /** One step of the inner loop: the pair `(ps[i], ps[j])` scanned and appended. */
    static method RowNext(inp: DayInputs, ps: seq<string>, defs: seq<AspectDef>, i: nat, j: nat, hits: seq<DayAspect>)
      returns (r: seq<DayAspect>)
      requires i < j < |ps| && hits == RowHits(inp, ps, defs, i, j)
      ensures r == RowHits(inp, ps, defs, i, j + 1)
    {
      RowHitsStep(inp, ps, defs, i, j);
      var more := ScanPair(inp, ps[i], ps[j], defs);
      r := hits + more;
    }

    /** The loop over `combinations(ps, 2)`, row by row. */
    static method ScanPairs(inp: DayInputs, ps: seq<string>, defs: seq<AspectDef>) returns (collected: seq<DayAspect>)
      ensures collected == Collected(inp, ps, defs, |ps|)
    {
      collected := [];
      var i := 0;
      while i < |ps|
        invariant 0 <= i <= |ps|
        invariant collected == Collected(inp, ps, defs, i)
      {
        CollectedStep(inp, ps, defs, i);
        var row := ScanRow(inp, ps, defs, i);
        collected := collected + row;
        i := i + 1;
      }
    }

    /** `get_aspects`: the memoised list when there is one, otherwise the scan, sorted and stored. */
    method GetAspects(day: int) returns (r: seq<DayAspect>)
      requires Valid()
      modifies this
      ensures Valid()
      ensures r == DayAspects(InputsOn(day), planets)
      ensures day in old(cache) ==> cache == old(cache)
      ensures day !in old(cache) ==> cache == old(cache)[day := r]
    {
      if day in cache {
        return cache[day];
      }
      var inp := DayInputs(sky(day), draws(day), (t, k: nat) => RenderTemplate(rd, t, k), round2);
      var collected := ScanPairs(inp, planets, Aspects);
      r := SortDesc(collected, DayKey);
      cache := cache[day := r];
    }

    /** `get_top`: the first `count` aspects of the day, Python-slice style. */
    method GetTop(day: int, count: int) returns (r: seq<DayAspect>)
      requires Valid()
      modifies this
      ensures Valid()
      ensures r == SliceTo(DayAspects(InputsOn(day), planets), count)
      ensures day in old(cache) ==> cache == old(cache)
      ensures day !in old(cache) ==> cache == old(cache)[day := DayAspects(InputsOn(day), planets)]
    {
      var all := GetAspects(day);
      r := SliceTo(all, count);
    }

    /** `format_message`: the loop over the aspects, one block each. */
    method FormatMessage(aspects: seq<DayAspect>, isPremium: bool) returns (msg: string)
      ensures msg == Message(rd, aspects, isPremium)
    {
      if aspects == [] {
        return CalmDay;
      }
      var blocks := [MessageHeader];
      var i := 0;
      while i < |aspects|
        invariant 0 <= i <= |aspects|
        invariant blocks == [MessageHeader] + seq(i, k requires 0 <= k < i => Block(rd, aspects[k], isPremium))
      {
        blocks := blocks + [Title(rd, aspects[i]) + "\n" + (if isPremium then aspects[i].premium else aspects[i].text)];
        i := i + 1;
      }
      if isPremium && |aspects| > 1 {
        blocks := blocks + [PremiumBonus];
      }
      assert blocks == MessageBlocks(rd, aspects, isPremium);
      msg := Join("\n\n", blocks);
    }
  }

  /** The memo is faithful: whatever is cached for a day is that day's scan. */
  lemma CachedIsFresh(s: AspectOfDayService, day: int)
    requires s.Valid() && day in s.cache
    ensures s.cache[day] == DayAspects(s.InputsOn(day), s.planets)
  {
  }

  /** `get_top` with a non-negative count gives the first `min(count, n)` aspects. */
  lemma TopIsPrefix(all: seq<DayAspect>, count: int)
    requires count >= 0
    ensures var top := SliceTo(all, count);
            |top| == (if count < |all| then count else |all|) && top == all[..|top|]
  {
  }
}
