/**
 * The daily transit forecast: which profile fields are missing, how the
 * stored birth date and time are read, and the forecast assembled from the
 * natal chart, the transit chart at noon and the strongest aspects.
 */
module Forecast {
  import opened Wrappers
  import opened Strings
  import opened Slices
  import opened Calendar
  import Formatters
  import opened Ephemeris
  import opened Transits

  /** A stored birth profile; absent keys are `None`. */
  datatype Profile = Profile(
    birthDate: Option<string>,
    birthTime: Option<string>,
    timezone: Option<string>,
    lat: Option<real>,
    lon: Option<real>)

  /** A local wall-clock moment. */
  datatype Moment = Moment(date: Date, hour: int, minute: int)

  datatype ForecastResult = ForecastResult(
    userId: int,
    targetDate: Date,
    natalChart: Option<ChartSnapshot>,
    transitChart: Option<ChartSnapshot>,
    aspects: seq<TransitAspect>,
    missingFields: seq<string>)

  /** `ForecastResult.ok`: nothing missing and both charts present. */
  predicate Ok(r: ForecastResult)
  {
    r.missingFields == [] && r.natalChart.Some? && r.transitChart.Some?
  }

  /** Python truthiness of an optional string. */
  predicate Truthy(s: Option<string>) { s.Some? && s.value != [] }

  /** `x or default` on an optional string. */
  function OrElse(s: Option<string>, default: string): (r: string)
    ensures Truthy(s) ==> r == s.value
    ensures !Truthy(s) ==> r == default
  {
    if Truthy(s) then s.value else default
  }

  /**
   * The fields `generate` reports as missing, in the order birth date,
   * time zone, latitude, longitude. An empty birth date counts as missing;
   * an empty time zone does not.
   */
  function MissingFields(p: Profile): (missing: seq<string>)
    ensures "birth_date" in missing <==> !Truthy(p.birthDate)
    ensures "timezone" in missing <==> p.timezone.None?
    ensures "lat" in missing <==> p.lat.None?
    ensures "lon" in missing <==> p.lon.None?
    ensures missing == [] <==> Truthy(p.birthDate) && p.timezone.Some? && p.lat.Some? && p.lon.Some?
    ensures |missing| <= 4
  {
    (if !Truthy(p.birthDate) then ["birth_date"] else [])
    + (if p.timezone.None? then ["timezone"] else [])
    + (if p.lat.None? then ["lat"] else [])
    + (if p.lon.None? then ["lon"] else [])
  }

  function Clamp(x: int, lo: int, hi: int): (r: int)
    requires lo <= hi
    ensures lo <= r <= hi
    ensures lo <= x <= hi ==> r == x
  {
    if x < lo then lo else if x > hi then hi else x
  }

  /** Every part parsed as an int, or `None` when one of them is not an int. */
  function ParseAll(parts: seq<string>): (r: Option<seq<int>>)
    ensures r.Some? ==> |r.value| == |parts|
  {
    if parts == [] then Some([])
    else
      var head := ParseInt(parts[0]);
      var rest := ParseAll(parts[1..]);
      if head.Some? && rest.Some? then Some([head.value] + rest.value) else None
  }

  /** The int fields of a stored time: at most the first two ':'-separated fields. */
  function TimeFields(s: string): (r: Option<seq<int>>)
    ensures r.Some? ==> 1 <= |r.value| <= 2
  {
    ParseAll(SliceTo(Split(s, ':'), 2))
  }

  /**
   * `_parse_time`: the first two ':'-separated fields as hour and minute,
   * a lone number as the hour, noon when a field is not an int; both then
   * clamped into a valid time of day.
   */
  function ParseTime(s: string): (hm: (int, int))
    ensures 0 <= hm.0 <= 23 && 0 <= hm.1 <= 59
    ensures TimeFields(s).None? ==> hm == (12, 0)
    ensures TimeFields(s).Some? && |TimeFields(s).value| == 2 ==>
              hm == (Clamp(TimeFields(s).value[0], 0, 23), Clamp(TimeFields(s).value[1], 0, 59))
    ensures TimeFields(s).Some? && |TimeFields(s).value| == 1 ==> hm == (Clamp(TimeFields(s).value[0], 0, 23), 0)
  {
    var parsed := TimeFields(s);
    var (h, m) :=
      if parsed.None? then (12, 0)
      else if |parsed.value| == 2 then (parsed.value[0], parsed.value[1])
      else if |parsed.value| == 1 then (parsed.value[0], 0)
      else (12, 0);
    (Clamp(h, 0, 23), Clamp(m, 0, 59))
  }

  /** "H:M" with an hour and minute in range reads back as that hour and minute. */
  lemma ParseTimeRoundTrip(h: nat, m: nat)
    requires h <= 23 && m <= 59
    ensures ParseTime(NatToString(h) + ":" + NatToString(m)) == (h, m)
  {
    PairFields(h, m);
  }

  lemma PairFields(h: nat, m: nat)
    ensures TimeFields(NatToString(h) + ":" + NatToString(m)) == Some([h as int, m as int])
  {
    var parts := [NatToString(h), NatToString(m)];
    NoSeparatorInDigits(NatToString(h), ':');
    NoSeparatorInDigits(NatToString(m), ':');
    PairSplits(NatToString(h), NatToString(m));
    assert SliceTo(parts, 2) == parts;
    ParseDigitsOf(h);
    ParseDigitsOf(m);
    ParseAllTwo(NatToString(h), NatToString(m), h, m);
  }

  lemma PairSplits(a: string, b: string)
    requires ':' !in a && ':' !in b
    ensures Split(a + ":" + b, ':') == [a, b]
  {
    JoinPair(a, b, ':');
    assert a + ":" + b == a + [':'] + b;
    assert forall p | p in [a, b] :: ':' !in p;
    Strings.SplitOfJoin([a, b], ':');
  }

  lemma ParseAllCons(p: string, rest: seq<string>, x: int, xs: seq<int>)
    requires ParseInt(p) == Some(x) && ParseAll(rest) == Some(xs)
    ensures ParseAll([p] + rest) == Some([x] + xs)
  {
    assert ([p] + rest)[0] == p && ([p] + rest)[1..] == rest;
  }

  lemma ParseAllOne(a: string, x: int)
    requires ParseInt(a) == Some(x)
    ensures ParseAll([a]) == Some([x])
  {
    ParseAllCons(a, [], x, []);
    assert [a] + [] == [a] && [x] + [] == [x];
  }

  lemma ParseAllTwo(a: string, b: string, x: int, y: int)
    requires ParseInt(a) == Some(x) && ParseInt(b) == Some(y)
    ensures ParseAll([a, b]) == Some([x, y])
  {
    ParseAllOne(b, y);
    ParseAllCons(a, [b], x, [y]);
    assert [a] + [b] == [a, b] && [x] + [y] == [x, y];
  }

  lemma JoinPair(a: string, b: string, sep: char)
    ensures Join([sep], [a, b]) == a + [sep] + b
  {
    assert Join([sep], [b]) == b;
  }

  lemma NoSeparatorInDigits(s: string, sep: char)
    requires IsAllDigits(s) && !IsDigit(sep)
    ensures sep !in s
  {
    forall i | 0 <= i < |s| ensures s[i] != sep { assert IsDigit(s[i]); }
  }

  /** A lone hour reads as that hour, on the hour, clamped into the day. */
  lemma ParseTimeHourOnly(h: nat)
    ensures ParseTime(NatToString(h)) == (if h > 23 then 23 else h, 0)
  {
    HourFields(h);
  }

  lemma HourFields(h: nat)
    ensures TimeFields(NatToString(h)) == Some([h as int])
  {
    Strings.SplitWithoutSeparator(NatToString(h), ':');
    assert SliceTo([NatToString(h)], 2) == [NatToString(h)];
    ParseDigitsOf(h);
    ParseAllOne(NatToString(h), h);
  }

  /** Text that does not start with an int field gives noon. */
  lemma ParseTimeFallback(s: string)
    requires ParseInt(Split(s, ':')[0]).None?
    ensures ParseTime(s) == (12, 0)
  {
    var parts := SliceTo(Split(s, ':'), 2);
    assert parts[0] == Split(s, ':')[0];
  }

  lemma ParseDigitsOf(n: nat)
    ensures ParseInt(NatToString(n)) == Some(n as int)
  {
    Strings.ParseDigits(NatToString(n));
  }

  /**
   * The date part of `_parse_datetime`: a date with a 'T' goes through the
   * ISO parser; otherwise it must be three '-'-separated ints forming a
   * valid date.
   */
  function ParseBirthDate(dateStr: string): (r: Option<Date>)
    ensures r.Some? ==> ValidDate(r.value)
  {
    if 'T' in dateStr then Formatters.ParseIsoDate(dateStr)
    else
      match ParseAll(Split(dateStr, '-'))
      case Some(vs) => if |vs| == 3 && ValidDate(Date(vs[0], vs[1], vs[2])) then Some(Date(vs[0], vs[1], vs[2])) else None
      case None => None
  }

  /** `_parse_datetime`: the birth date at the time of day `_parse_time` reads. */
  function ParseDateTime(dateStr: string, timeStr: string): (r: Option<Moment>)
    ensures r.None? <==> ParseBirthDate(dateStr).None?
    ensures r.Some? ==> r.value == Moment(ParseBirthDate(dateStr).value, ParseTime(timeStr).0, ParseTime(timeStr).1)
  {
    match ParseBirthDate(dateStr)
    case Some(d) => Some(Moment(d, ParseTime(timeStr).0, ParseTime(timeStr).1))
    case None => None
  }

  /** A rendered ISO date (year of four digits) reads back as that date. */
  lemma ParseBirthDateOfIso(d: Date)
    requires ValidDate(d) && d.year >= 1000
    ensures ParseBirthDate(Formatters.IsoDateString(d)) == Some(d)
  {
    var s := Formatters.IsoDateString(d);
    IsoFields(d);
    DashedDate(s, d);
  }

  /** A birth date stored with a time of day ("YYYY-MM-DDTHH:MM") reads back as its date. */
  lemma ParseBirthDateWithTime(d: Date, h: nat, m: nat)
    requires ValidDate(d) && d.year >= 1000 && h < 24 && m < 60
    ensures ParseBirthDate(Formatters.IsoDateString(d) + "T" + Pad2(h) + ":" + Pad2(m)) == Some(d)
  {
    var s := Formatters.IsoDateString(d) + "T" + Pad2(h) + ":" + Pad2(m);
    assert s[|Formatters.IsoDateString(d)|] == 'T';
    Formatters.IsoDateTimeRoundTrip(d, 'T', h, m);
    assert Formatters.IsoDateString(d) + ['T'] + Pad2(h) + ":" + Pad2(m) == s;
  }

  /** With a 'T' present, text after the date that is not a time of day is refused. */
  lemma ParseBirthDateRefusesTrailingText(s: string)
    requires 'T' in s && |s| > 12 && !(IsDigit(s[11]) && IsDigit(s[12]))
    ensures ParseBirthDate(s).None?
  {
    Formatters.TrailingTextRefused(s);
  }

  /** The ISO rendering has no 'T' and its '-'-separated fields read back as year, month and day. */
  lemma IsoFields(d: Date)
    requires ValidDate(d)
    ensures var s := Formatters.IsoDateString(d);
            'T' !in s && ParseAll(Split(s, '-')) == Some([d.year, d.month, d.day])
  {
    var y, m, dd := NatToString(d.year), Pad2(d.month), Pad2(d.day);
    assert Formatters.IsoDateString(d) == y + "-" + m + "-" + dd;
    IsoParts(y, m, dd);
    NoLetterT(y, m, dd);
    DateFieldsParse(d);
  }

  lemma NoLetterT(y: string, m: string, dd: string)
    requires IsAllDigits(y) && IsAllDigits(m) && IsAllDigits(dd)
    ensures 'T' !in y + "-" + m + "-" + dd
  {
    NoSeparatorInDigits(y, 'T');
    NoSeparatorInDigits(m, 'T');
    NoSeparatorInDigits(dd, 'T');
  }

  /** The rendered year, month and day read back as ints. */
  lemma DateFieldsParse(d: Date)
    requires ValidDate(d)
    ensures ParseAll([NatToString(d.year), Pad2(d.month), Pad2(d.day)]) == Some([d.year, d.month, d.day])
  {
    Strings.ParseDigits(NatToString(d.year));
    Strings.ParseDigits(Pad2(d.month));
    Strings.ParseDigits(Pad2(d.day));
    ParseAllThree(NatToString(d.year), Pad2(d.month), Pad2(d.day), d.year, d.month, d.day);
  }

  lemma ParseAllThree(a: string, b: string, c: string, x: int, y: int, z: int)
    requires ParseInt(a) == Some(x) && ParseInt(b) == Some(y) && ParseInt(c) == Some(z)
    ensures ParseAll([a, b, c]) == Some([x, y, z])
  {
    ParseAllTwo(b, c, y, z);
    ParseAllCons(a, [b, c], x, [y, z]);
    assert [a] + [b, c] == [a, b, c] && [x] + [y, z] == [x, y, z];
  }

  /** A string without 'T' whose three '-'-separated fields form a valid date reads as that date. */
  lemma DashedDate(s: string, d: Date)
    requires ValidDate(d) && 'T' !in s && ParseAll(Split(s, '-')) == Some([d.year, d.month, d.day])
    ensures ParseBirthDate(s) == Some(d)
  {
    var vs := [d.year, d.month, d.day];
    assert Date(vs[0], vs[1], vs[2]) == d;
  }

  lemma IsoParts(y: string, m: string, dd: string)
    requires IsAllDigits(y) && IsAllDigits(m) && IsAllDigits(dd)
    ensures Split(y + "-" + m + "-" + dd, '-') == [y, m, dd]
  {
    assert Join("-", [dd]) == dd;
    assert Join("-", [m, dd]) == m + "-" + dd;
    assert y + "-" + m + "-" + dd == Join("-", [y, m, dd]);
    NoSeparatorInDigits(y, '-');
    NoSeparatorInDigits(m, '-');
    NoSeparatorInDigits(dd, '-');
    Strings.SplitOfJoin([y, m, dd], '-');
  }

  /** The outside answers `generate` relies on: chart construction and the aspect scan's rounding. */
  datatype Sky = Sky(
    chartAt: (Moment, string, real, real, ChartType) -> ChartSnapshot,
    round2: real -> real)

  /** The instant of the transit chart: noon on the target day. */
  function TransitMoment(target: Date): Moment { Moment(target, 12, 0) }

  /** A result without charts or aspects. */
  function Incomplete(userId: int, target: Date, missing: seq<string>): ForecastResult
  {
    ForecastResult(userId, target, None, None, [], missing)
  }

  /** The report the scan produces for two charts, strongest first. */
  function AllAspects(natal: ChartSnapshot, transit: ChartSnapshot, multiplier: real, round2: real -> real)
    : seq<TransitAspect>
  {
    SortDesc(HitsOverTransit(EffectivePlanets([], transit), natal, transit, Widen(Aspects, multiplier), round2), AspectKey)
  }

  /**
   * `generate`: an incomplete profile or an unreadable birth date gives a
   * result naming what is missing; otherwise the natal chart at the birth
   * moment, the transit chart at noon of the target day, and the first
   * `topAspects` aspects (all of them when `topAspects` is 0).
   */
  function Generate(
    sky: Sky, p: Profile, userId: int, targetDate: Option<Date>, today: Date, topAspects: int, multiplier: real)
    : (r: ForecastResult)
    ensures r.userId == userId
    ensures r.targetDate == if targetDate.Some? then targetDate.value else today
    ensures MissingFields(p) != [] ==> r == Incomplete(userId, r.targetDate, MissingFields(p))
    ensures MissingFields(p) == [] && ParseDateTime(p.birthDate.value, OrElse(p.birthTime, "12:00")).None? ==>
              r == Incomplete(userId, r.targetDate, ["birth_date"])
    ensures r.missingFields != [] ==> r.natalChart.None? && r.transitChart.None? && r.aspects == []
  {
    var target := if targetDate.Some? then targetDate.value else today;
    var missing := MissingFields(p);
    if missing != [] then Incomplete(userId, target, missing)
    else
      var birthTime := OrElse(p.birthTime, "12:00");
      var tz := OrElse(p.timezone, "UTC");
      match ParseDateTime(p.birthDate.value, birthTime)
      case None => Incomplete(userId, target, ["birth_date"])
      case Some(birth) =>
        var natal := sky.chartAt(birth, tz, p.lat.value, p.lon.value, Natal);
        var transit := sky.chartAt(TransitMoment(target), tz, natal.location.lat, natal.location.lon, Transit);
        var all := AllAspects(natal, transit, multiplier, sky.round2);
        ForecastResult(userId, target, Some(natal), Some(transit), TopAspects(all, topAspects), [])
  }

  /**
   * A complete profile with a readable birth date gives an ok forecast:
   * natal chart at the birth moment (noon when no time is stored), transit
   * chart at noon of the target day at the natal location, in the stored
   * time zone or UTC when it is empty.
   */
  lemma GenerateOk(
    sky: Sky, p: Profile, userId: int, targetDate: Option<Date>, today: Date, topAspects: int, multiplier: real)
    requires MissingFields(p) == []
    requires ParseDateTime(p.birthDate.value, OrElse(p.birthTime, "12:00")).Some?
    ensures var r := Generate(sky, p, userId, targetDate, today, topAspects, multiplier);
            var birth := ParseDateTime(p.birthDate.value, OrElse(p.birthTime, "12:00")).value;
            var tz := OrElse(p.timezone, "UTC");
            Ok(r)
            && r.natalChart == Some(sky.chartAt(birth, tz, p.lat.value, p.lon.value, Natal))
            && r.transitChart == Some(sky.chartAt(TransitMoment(r.targetDate), tz, r.natalChart.value.location.lat,
                                                  r.natalChart.value.location.lon, Transit))
  {
  }

  /** `ok` holds exactly for a complete profile whose birth date reads. */
  lemma GenerateOkIff(
    sky: Sky, p: Profile, userId: int, targetDate: Option<Date>, today: Date, topAspects: int, multiplier: real)
    ensures Ok(Generate(sky, p, userId, targetDate, today, topAspects, multiplier)) <==>
              MissingFields(p) == [] && ParseDateTime(p.birthDate.value, OrElse(p.birthTime, "12:00")).Some?
  {
  }

  /** The aspects kept: the first `top` of them, or all when `top` is 0. */
  function TopAspects(all: seq<TransitAspect>, top: int): (r: seq<TransitAspect>)
    ensures |r| <= |all| && r == all[..|r|]
    ensures top > 0 ==> |r| <= top
    ensures top == 0 ==> r == all
  {
    if top != 0 then SliceTo(all, top) else all
  }

  /** A prefix of an ordered report is ordered. */
  lemma TopAspectsOrdered(all: seq<TransitAspect>, top: int)
    requires SortedDesc(all, AspectKey)
    ensures SortedDesc(TopAspects(all, top), AspectKey)
  {
    var r := TopAspects(all, top);
    assert forall i | 0 <= i < |r| :: r[i] == all[i];
  }

  /** The aspects are the scan's ordered report cut to `topAspects`. */
  lemma GenerateAspects(
    sky: Sky, p: Profile, userId: int, targetDate: Option<Date>, today: Date, topAspects: int, multiplier: real)
    requires Ok(Generate(sky, p, userId, targetDate, today, topAspects, multiplier))
    ensures var r := Generate(sky, p, userId, targetDate, today, topAspects, multiplier);
            r.aspects == TopAspects(AllAspects(r.natalChart.value, r.transitChart.value, multiplier, sky.round2), topAspects)
  {
  }

  /** An empty stored time zone is not reported missing; the charts then use UTC. */
  lemma EmptyTimezoneNotMissing(p: Profile)
    requires p.timezone == Some("")
    ensures "timezone" !in MissingFields(p)
    ensures OrElse(p.timezone, "UTC") == "UTC"
  {
  }

  /** `generate_for_user`: a user without a stored profile gets the single missing field "profile". */
  function GenerateForUser(
    sky: Sky, profile: Option<Profile>, userId: int, targetDate: Option<Date>, today: Date, topAspects: int,
    multiplier: real): (r: ForecastResult)
    ensures profile.None? ==> r.missingFields == ["profile"] && !Ok(r) && r.aspects == []
    ensures profile.Some? ==> r == Generate(sky, profile.value, userId, targetDate, today, topAspects, multiplier)
  {
    match profile
    case None => Incomplete(userId, if targetDate.Some? then targetDate.value else today, ["profile"])
    case Some(p) => Generate(sky, p, userId, targetDate, today, topAspects, multiplier)
  }
}
