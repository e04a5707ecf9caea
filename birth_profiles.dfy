/**
 * Birth profiles: the validators of the profile fields and the profile
 * store with its merge rule. A validator answers `Ok` with the normalised
 * value or `Err` with the message the code raises. The clock is a
 * parameter `now` (seconds), the known time-zone names a parameter set.
 */
module BirthProfiles {
  import opened Wrappers
  import opened Strings
  import opened Calendar
  import opened Formatters

  // ---------------------------------------------------------------------
  // Date and time fields
  // ---------------------------------------------------------------------

  /** `f"{n:04d}"` for a year of at most four digits. */
  function Pad4(n: nat): (s: string)
    requires n <= 9999
    ensures |s| == 4 && IsAllDigits(s)
  {
    Pad2(n / 100) + Pad2(n % 100)
  }

  lemma DigitsAppendTwo(a: string, b: string)
    requires IsAllDigits(a) && IsAllDigits(b) && |b| == 2
    ensures IsAllDigits(a + b) && DigitsToNat(a + b) == 100 * DigitsToNat(a) + DigitsToNat(b)
  {
    var s := a + b;
    var a1 := a + [b[0]];
    assert s[..|s| - 1] == a1 && s[|s| - 1] == b[1];
    assert a1[..|a1| - 1] == a && a1[|a1| - 1] == b[0];
    assert DigitsToNat(a1) == 10 * DigitsToNat(a) + DigitValue(b[0]);
    assert b[..1][..0] == [] && b[..1][0] == b[0];
    assert DigitsToNat(b[..1]) == DigitValue(b[0]);
    assert DigitsToNat(b) == 10 * DigitValue(b[0]) + DigitValue(b[1]);
  }

  lemma Pad4Value(n: nat)
    requires n <= 9999
    ensures DigitsToNat(Pad4(n)) == n
  {
    DigitsAppendTwo(Pad2(n / 100), Pad2(n % 100));
  }

  /** `date.isoformat()`: "YYYY-MM-DD" with a zero-padded four-digit year. */
  function IsoFormat(d: Date): (s: string)
    requires ValidDate(d)
    ensures |s| == 10 && s[4] == '-' && s[7] == '-'
  {
    Pad4(d.year) + "-" + Pad2(d.month) + "-" + Pad2(d.day)
  }

  /** `%d` or `%m` (one or two digits) and `%Y` (four digits). */
  predicate ShortField(p: string) { 1 <= |p| <= 2 && IsAllDigits(p) }
  predicate YearField(p: string) { |p| == 4 && IsAllDigits(p) }

  /** `%d` also reads a space followed by a digit from 1 to 9. */
  predicate DayField(p: string)
  {
    ShortField(p) || (|p| == 2 && p[0] == ' ' && IsDigit(p[1]) && p[1] != '0')
  }

  /** The value of a day field, a leading space skipped. */
  function DayValue(p: string): (n: nat)
    requires DayField(p)
    ensures ShortField(p) ==> n == DigitsToNat(p)
  {
    if p[0] == ' ' then DigitsToNat(p[1..]) else DigitsToNat(p)
  }

  /** `strptime` with three fields around one separator, year first or last. */
  function TryFormat(t: string, sep: char, yearFirst: bool): (r: Option<Date>)
    ensures r.Some? ==> ValidDate(r.value)
  {
    var parts := Split(t, sep);
    if |parts| != 3 then None
    else
      var (yp, mp, dp) := if yearFirst then (parts[0], parts[1], parts[2]) else (parts[2], parts[1], parts[0]);
      if !YearField(yp) || !ShortField(mp) || !DayField(dp) then None
      else
        var d := Date(DigitsToNat(yp), DigitsToNat(mp), DayValue(dp));
        if ValidDate(d) then Some(d) else None
  }

  /** The four accepted layouts, tried in order: YYYY-MM-DD, DD.MM.YYYY, DD/MM/YYYY, DD-MM-YYYY. */
  function ParseBirthDate(t: string): (r: Option<Date>)
    ensures r.Some? ==> ValidDate(r.value)
  {
    var iso := TryFormat(t, '-', true);
    if iso.Some? then iso
    else
      var dotted := TryFormat(t, '.', false);
      if dotted.Some? then dotted
      else
        var slashed := TryFormat(t, '/', false);
        if slashed.Some? then slashed else TryFormat(t, '-', false)
  }

  const BirthDateRequired := "Дата рождения обязательна"
  const BirthDateFormat := "Неверный формат даты рождения. Используйте YYYY-MM-DD или ДД.ММ.ГГГГ"

  /**
   * `validate_birth_date`: an empty value is refused as missing; otherwise
   * the stripped value is read in one of the four layouts and given back in
   * ISO form, or refused as badly formatted.
   */
  function ValidateBirthDate(value: string): (r: Result<string>)
    ensures value == [] ==> r == Err(BirthDateRequired)
    ensures value != [] && ParseBirthDate(Strip(value)).None? ==> r == Err(BirthDateFormat)
    ensures r.Ok? ==> ParseBirthDate(Strip(value)).Some? && r.value == IsoFormat(ParseBirthDate(Strip(value)).value)
    ensures value != [] && ParseBirthDate(Strip(value)).Some? ==> r == Ok(IsoFormat(ParseBirthDate(Strip(value)).value))
  {
    if value == [] then Err(BirthDateRequired)
    else match ParseBirthDate(Strip(value))
      case None => Err(BirthDateFormat)
      case Some(d) => Ok(IsoFormat(d))
  }

  lemma IsoFormatParts(d: Date)
    requires ValidDate(d)
    ensures Split(IsoFormat(d), '-') == [Pad4(d.year), Pad2(d.month), Pad2(d.day)]
    ensures Strip(IsoFormat(d)) == IsoFormat(d)
  {
    var parts := [Pad4(d.year), Pad2(d.month), Pad2(d.day)];
    IsoFormatJoin(d);
    SplitOfJoin(parts, '-');
    TrimOfDigits(IsoFormat(d));
  }

  /** The ISO form is its three padded fields joined by '-'. */
  lemma IsoFormatJoin(d: Date)
    requires ValidDate(d)
    ensures Join("-", [Pad4(d.year), Pad2(d.month), Pad2(d.day)]) == IsoFormat(d)
  {
    var parts := [Pad4(d.year), Pad2(d.month), Pad2(d.day)];
    assert parts[1..] == [Pad2(d.month), Pad2(d.day)] && parts[1..][1..] == [Pad2(d.day)];
    assert Join("-", [Pad2(d.day)]) == Pad2(d.day);
    assert Join("-", parts[1..]) == Pad2(d.month) + "-" + Pad2(d.day);
  }

  /** The ISO form of a valid date reads back as that date. */
  lemma ParseIsoFormat(d: Date)
    requires ValidDate(d)
    ensures ParseBirthDate(IsoFormat(d)) == Some(d)
  {
    IsoFormatParts(d);
    Pad4Value(d.year);
  }

  /** An ISO birth date is accepted unchanged, so validating twice is validating once. */
  lemma ValidateBirthDateIdempotent(value: string)
    requires ValidateBirthDate(value).Ok?
    ensures ValidateBirthDate(ValidateBirthDate(value).value) == ValidateBirthDate(value)
  {
    var d := ParseBirthDate(Strip(value)).value;
    IsoFormatParts(d);
    ParseIsoFormat(d);
  }

  /** A validated birth date is one the shared ISO reader (used by the forecast) understands. */
  lemma ValidatedDateIsIso(value: string)
    requires ValidateBirthDate(value).Ok?
    ensures ParseIsoDate(ValidateBirthDate(value).value) == ParseBirthDate(Strip(value))
  {
    IsoFormatReadsBack(ParseBirthDate(Strip(value)).value);
  }

  lemma IsoFormatReadsBack(d: Date)
    requires ValidDate(d)
    ensures ParseIsoDate(IsoFormat(d)) == Some(d)
  {
    var s := IsoFormat(d);
    assert s[..4] == Pad4(d.year);
    assert s[5..7] == Pad2(d.month);
    assert s[8..10] == Pad2(d.day);
    Pad4Value(d.year);
  }

  /** `%d` reads a space-padded day: "YYYY-MM- D" is accepted as that date. */
  lemma SpacedDayAccepted(d: Date)
    requires ValidDate(d) && d.year >= 1000 && d.day < 10
    ensures ValidateBirthDate(Pad4(d.year) + "-" + Pad2(d.month) + "-" + [' ', DigitChar(d.day)]) == Ok(IsoFormat(d))
  {
    var dd := [' ', DigitChar(d.day)];
    var s := Pad4(d.year) + "-" + Pad2(d.month) + "-" + dd;
    SpacedDayText(Pad4(d.year), Pad2(d.month), dd);
    Pad4Value(d.year);
    SpacedDigitValue(d.day);
    IsoLayoutReads(s, Pad4(d.year), Pad2(d.month), dd, d);
  }

  /** A space-padded digit from 1 to 9 is a day field worth that digit. */
  lemma SpacedDigitValue(n: nat)
    requires 1 <= n < 10
    ensures DayField([' ', DigitChar(n)]) && DayValue([' ', DigitChar(n)]) == n
  {
    var dd := [' ', DigitChar(n)];
    assert dd[1..] == [DigitChar(n)];
    assert [DigitChar(n)][..0] == [];
    assert DigitsToNat([DigitChar(n)]) == n;
  }

  /** Text that splits at '-' into a year, a month and a day field of a valid date is read in the ISO layout. */
  lemma IsoLayoutReads(s: string, y: string, m: string, dd: string, d: Date)
    requires Strip(s) == s && Split(s, '-') == [y, m, dd]
    requires YearField(y) && ShortField(m) && DayField(dd) && ValidDate(d)
    requires DigitsToNat(y) == d.year && DigitsToNat(m) == d.month && DayValue(dd) == d.day
    ensures ValidateBirthDate(s) == Ok(IsoFormat(d))
  {
    assert TryFormat(s, '-', true) == Some(d);
  }

  /** The text "Y-M- D" is already stripped and splits into its three fields. */
  lemma SpacedDayText(y: string, m: string, dd: string)
    requires YearField(y) && ShortField(m) && |dd| == 2 && dd[0] == ' ' && IsDigit(dd[1])
    ensures var s := y + "-" + m + "-" + dd;
            Strip(s) == s && Split(s, '-') == [y, m, dd]
  {
    var s := y + "-" + m + "-" + dd;
    var parts := [y, m, dd];
    assert Join("-", parts) == s by {
      assert parts[1..] == [m, dd] && parts[1..][1..] == [dd];
      assert Join("-", [dd]) == dd;
    }
    SplitOfJoin(parts, '-');
    assert s[0] == y[0] && s[|s| - 1] == dd[1];
    TrimOfDigits(s);
  }

  /** A date typed as "DD.MM.YYYY" is accepted and stored in ISO form. */
  lemma DottedDateAccepted(d: Date)
    requires ValidDate(d) && d.year >= 1000
    ensures ValidateBirthDate(DisplayDate(d)) == Ok(IsoFormat(d))
  {
    var s := DisplayDate(d);
    DottedShape(d);
    DottedParts(d);
    FourDigits(d.year);
    SplitWithoutSeparator(s, '-');
    assert TryFormat(s, '-', true).None?;
    assert TryFormat(s, '.', false) == Some(d);
  }

  lemma DottedParts(d: Date)
    requires ValidDate(d)
    ensures Split(DisplayDate(d), '.') == [Pad2(d.day), Pad2(d.month), NatToString(d.year)]
  {
    var parts := [Pad2(d.day), Pad2(d.month), NatToString(d.year)];
    assert parts[1..] == [Pad2(d.month), NatToString(d.year)] && parts[1..][1..] == [NatToString(d.year)];
    assert Join(".", [NatToString(d.year)]) == NatToString(d.year);
    assert Join(".", parts[1..]) == Pad2(d.month) + "." + NatToString(d.year);
    assert Join(".", parts) == DisplayDate(d);
    SplitOfJoin(parts, '.');
  }

  lemma DottedShape(d: Date)
    requires ValidDate(d) && d.year >= 1000
    ensures '-' !in DisplayDate(d) && Strip(DisplayDate(d)) == DisplayDate(d)
  {
    var s := DisplayDate(d);
    FourDigits(d.year);
    assert forall i | 0 <= i < |s| :: s[i] == '.' || IsDigit(s[i]);
    assert s[|s| - 1] == NatToString(d.year)[3];
    TrimOfDigits(s);
  }

  const BirthTimeFormat := "Неверный формат времени. Используйте HH:MM"

  /** `strptime(value, "%H:%M")`: one or two digits each side of one colon, hour to 23, minute to 59. */
  function ParseClock(t: string): (r: Option<(nat, nat)>)
    ensures r.Some? ==> r.value.0 <= 23 && r.value.1 <= 59
  {
    var parts := Split(t, ':');
    if |parts| != 2 || !ShortField(parts[0]) || !ShortField(parts[1]) then None
    else
      var h := DigitsToNat(parts[0]);
      var m := DigitsToNat(parts[1]);
      if h <= 23 && m <= 59 then Some((h, m)) else None
  }

  function ClockText(h: nat, m: nat): (s: string)
    ensures |s| >= 5
  {
    Pad2(h) + ":" + Pad2(m)
  }

  /** `validate_birth_time`: nothing for an empty value, else "HH:MM", else the format error. */
  function ValidateBirthTime(value: Option<string>): (r: Result<Option<string>>)
    ensures value.None? || value == Some("") ==> r == Ok(None)
    ensures r.Ok? && r.value.Some? ==>
              value.Some? && ParseClock(Strip(value.value)).Some? &&
              r.value.value == ClockText(ParseClock(Strip(value.value)).value.0, ParseClock(Strip(value.value)).value.1)
    ensures r.Err? ==> r.error == BirthTimeFormat && value.Some? && ParseClock(Strip(value.value)).None?
    ensures value.Some? && value.value != [] ==> (r.Err? <==> ParseClock(Strip(value.value)).None?)
  {
    if value.None? || value.value == [] then Ok(None)
    else match ParseClock(Strip(value.value))
      case None => Err(BirthTimeFormat)
      case Some(hm) => Ok(Some(ClockText(hm.0, hm.1)))
  }

  /** A normalised time reads back as the same hour and minute. */
  lemma ParseClockText(h: nat, m: nat)
    requires h <= 23 && m <= 59
    ensures ParseClock(ClockText(h, m)) == Some((h, m))
    ensures Strip(ClockText(h, m)) == ClockText(h, m)
  {
    var parts := [Pad2(h), Pad2(m)];
    assert Join(":", parts) == ClockText(h, m);
    SplitOfJoin(parts, ':');
    TrimOfDigits(ClockText(h, m));
  }

  /** Validating a normalised time gives it back. */
  lemma ValidateBirthTimeIdempotent(value: Option<string>)
    requires ValidateBirthTime(value).Ok?
    ensures ValidateBirthTime(ValidateBirthTime(value).value) == ValidateBirthTime(value)
  {
    if ValidateBirthTime(value).value.Some? {
      var hm := ParseClock(Strip(value.value)).value;
      ValidateClockText(hm.0, hm.1);
    }
  }

  lemma ValidateClockText(h: nat, m: nat)
    requires h <= 23 && m <= 59
    ensures ValidateBirthTime(Some(ClockText(h, m))) == Ok(Some(ClockText(h, m)))
  {
    var t := ClockText(h, m);
    assert t != [];
    assert ParseClock(Strip(t)) == Some((h, m)) by {
      ParseClockText(h, m);
    }
  }

  // ---------------------------------------------------------------------
  // Time zone, coordinates, age
  // ---------------------------------------------------------------------

  lemma StripIdempotent(s: string)
    ensures Strip(Strip(s)) == Strip(s)
  {
    var l := TrimLeft(s);
    var r := TrimRight(l);
    if r != [] {
      assert r[0] == l[0];
      assert TrimLeft(r) == r;
    }
  }

  /** `validate_timezone`: nothing for a blank value; otherwise the stripped name, if the zone database knows it. */
  function ValidateTimezone(value: Option<string>, zones: set<string>): (r: Result<Option<string>>)
    ensures value.None? || Strip(value.value) == [] ==> r == Ok(None)
    ensures value.Some? && Strip(value.value) != [] ==>
              r == if Strip(value.value) in zones then Ok(Some(Strip(value.value))) else Err("Неизвестный часовой пояс")
  {
    if value.None? || value.value == [] then Ok(None)
    else
      var t := Strip(value.value);
      if t == [] then Ok(None)
      else if t in zones then Ok(Some(t))
      else Err("Неизвестный часовой пояс")
  }

  lemma ValidateTimezoneIdempotent(value: Option<string>, zones: set<string>)
    requires ValidateTimezone(value, zones).Ok?
    ensures ValidateTimezone(ValidateTimezone(value, zones).value, zones) == ValidateTimezone(value, zones)
  {
    if value.Some? {
      StripIdempotent(value.value);
    }
  }

  const LatitudeRange := "Широта должна быть в диапазоне [-90; 90]"
  const LongitudeRange := "Долгота должна быть в диапазоне [-180; 180]"

  /** `validate_coordinate`: None passes; a latitude must lie in [-90, 90], a longitude in [-180, 180]. */
  function ValidateCoordinate(name: string, value: Option<real>): (r: Result<Option<real>>)
    ensures r.Ok? <==> value.None? ||
                       ((name != "lat" || -90.0 <= value.value <= 90.0) && (name != "lon" || -180.0 <= value.value <= 180.0))
    ensures r.Ok? ==> r.value == value
    ensures r.Err? ==> r.error == (if name == "lat" then LatitudeRange else LongitudeRange)
  {
    if value.None? then Ok(None)
    else if name == "lat" && !(-90.0 <= value.value <= 90.0) then Err(LatitudeRange)
    else if name == "lon" && !(-180.0 <= value.value <= 180.0) then Err(LongitudeRange)
    else Ok(value)
  }

  /** `validate_age`: None passes; otherwise exactly 1 to 120. */
  function ValidateAge(value: Option<int>): (r: Result<Option<int>>)
    ensures r.Ok? <==> value.None? || 1 <= value.value <= 120
    ensures r.Ok? ==> r.value == value
    ensures value.Some? && value.value <= 0 ==> r == Err("Возраст должен быть положительным")
    ensures value.Some? && value.value > 120 ==> r == Err("Возраст выглядит нереалистичным")
  {
    if value.None? then Ok(None)
    else if value.value <= 0 then Err("Возраст должен быть положительным")
    else if value.value > 120 then Err("Возраст выглядит нереалистичным")
    else Ok(value)
  }

  // ---------------------------------------------------------------------
  // Profiles and the merge
  // ---------------------------------------------------------------------

  datatype Profile = Profile(
    birthDate: string,
    birthTime: Option<string>,
    timezone: Option<string>,
    utcOffset: Option<real>,
    lat: Option<real>,
    lon: Option<real>,
    placeName: Option<string>,
    age: Option<int>,
    lastForecastSent: Option<string>,
    lastForecastDate: Option<string>,
    lastForecastText: Option<string>,
    lastForecastIsPreview: bool,
    createdAt: int,
    updatedAt: int)

  /**
   * The keyword arguments of `upsert_profile`. For the first seven a
   * missing key and an explicit None read the same; for the others
   * the outer Option says whether the key was passed at all.
   */
  datatype Update = Update(
    birthDate: Option<string>,
    birthTime: Option<string>,
    timezone: Option<string>,
    utcOffset: Option<real>,
    lat: Option<real>,
    lon: Option<real>,
    placeName: Option<string>,
    age: Option<Option<int>>,
    lastForecastSent: Option<Option<string>>,
    lastForecastDate: Option<Option<string>>,
    lastForecastText: Option<Option<string>>,
    lastForecastIsPreview: Option<bool>)

  const NoChange := Update(None, None, None, None, None, None, None, None, None, None, None, None)

  /** What `existing.get(...)` reads for a user with no profile: every field absent, created now. */
  function Blank(now: int): Profile
  {
    Profile("", None, None, None, None, None, None, None, None, None, None, false, now, now)
  }

  predicate Truthy(s: Option<string>) { s.Some? && s.value != [] }

  /** Python's `a or b` on two optional strings. */
  function Or(a: Option<string>, b: Option<string>): (r: Option<string>)
    ensures Truthy(a) ==> r == a
    ensures !Truthy(a) ==> r == b
  {
    if Truthy(a) then a else b
  }

  /** `value if value is not None else fallback`. */
  function IfGiven<T>(value: Option<T>, fallback: Option<T>): (r: Option<T>)
    ensures value.Some? ==> r == value
    ensures value.None? ==> r == fallback
  {
    if value.Some? then value else fallback
  }

  /** `kwargs.get(key, fallback)` for a key that may be passed as None. */
  function Given<T>(value: Option<T>, fallback: T): (r: T)
    ensures value.Some? ==> r == value.value
    ensures value.None? ==> r == fallback
  {
    if value.Some? then value.value else fallback
  }

  /**
   * The values `upsert_profile` hands to the validators: coordinates and
   * the offset fall back to the stored value only when the new one is
   * None, the text fields whenever the new one is empty, the age when its
   * key is not passed at all; the creation time is kept and the update
   * time is now.
   */
  function Merged(ex: Profile, u: Update, now: int): (m: Profile)
    ensures m.lat == IfGiven(u.lat, ex.lat) && m.lon == IfGiven(u.lon, ex.lon)
    ensures m.utcOffset == IfGiven(u.utcOffset, ex.utcOffset)
    ensures m.birthDate == (if Truthy(u.birthDate) then u.birthDate.value else ex.birthDate)
    ensures m.birthTime == Or(u.birthTime, ex.birthTime) && m.timezone == Or(u.timezone, ex.timezone)
    ensures Truthy(u.placeName) ==> m.placeName == u.placeName
    ensures !Truthy(u.placeName) ==> m.placeName == (if Truthy(ex.placeName) then ex.placeName else None)
    ensures m.age == Given(u.age, ex.age)
    ensures m.lastForecastSent == Given(u.lastForecastSent, ex.lastForecastSent)
    ensures m.lastForecastDate == Given(u.lastForecastDate, ex.lastForecastDate)
    ensures m.lastForecastText == Given(u.lastForecastText, ex.lastForecastText)
    ensures m.lastForecastIsPreview == Given(u.lastForecastIsPreview, ex.lastForecastIsPreview)
    ensures m.createdAt == ex.createdAt && m.updatedAt == now
  {
    var place := Or(u.placeName, ex.placeName);
    Profile(if Truthy(u.birthDate) then u.birthDate.value else ex.birthDate,
            Or(u.birthTime, ex.birthTime), Or(u.timezone, ex.timezone),
            IfGiven(u.utcOffset, ex.utcOffset), IfGiven(u.lat, ex.lat), IfGiven(u.lon, ex.lon),
            if Truthy(place) then place else None,
            Given(u.age, ex.age),
            Given(u.lastForecastSent, ex.lastForecastSent),
            Given(u.lastForecastDate, ex.lastForecastDate),
            Given(u.lastForecastText, ex.lastForecastText),
            Given(u.lastForecastIsPreview, ex.lastForecastIsPreview),
            ex.createdAt, now)
  }

  /**
   * The `BirthProfile(...)` construction: each field through its validator,
   * in argument order, the first failing validator's error winning; the
   * unvalidated fields are copied.
   */
  function Normalize(m: Profile, zones: set<string>): (r: Result<Profile>)
    ensures r.Ok? <==> ValidateBirthDate(m.birthDate).Ok? && ValidateBirthTime(m.birthTime).Ok? &&
                       ValidateTimezone(m.timezone, zones).Ok? && ValidateCoordinate("lat", m.lat).Ok? &&
                       ValidateCoordinate("lon", m.lon).Ok? && ValidateAge(m.age).Ok?
    ensures ValidateBirthDate(m.birthDate).Err? ==> r == Err(ValidateBirthDate(m.birthDate).error)
    ensures r.Ok? ==> r.value == m.(birthDate := ValidateBirthDate(m.birthDate).value,
                                    birthTime := ValidateBirthTime(m.birthTime).value,
                                    timezone := ValidateTimezone(m.timezone, zones).value)
  {
    var birthDate := ValidateBirthDate(m.birthDate);
    var birthTime := ValidateBirthTime(m.birthTime);
    var timezone := ValidateTimezone(m.timezone, zones);
    var lat := ValidateCoordinate("lat", m.lat);
    var lon := ValidateCoordinate("lon", m.lon);
    var age := ValidateAge(m.age);
    if birthDate.Err? then Err(birthDate.error)
    else if birthTime.Err? then Err(birthTime.error)
    else if timezone.Err? then Err(timezone.error)
    else if lat.Err? then Err(lat.error)
    else if lon.Err? then Err(lon.error)
    else if age.Err? then Err(age.error)
    else Ok(m.(birthDate := birthDate.value, birthTime := birthTime.value, timezone := timezone.value,
               lat := lat.value, lon := lon.value, age := age.value))
  }

  /** `upsert_profile`: the new values merged over the stored profile (or over nothing), then validated. */
  function Upsert(existing: Option<Profile>, u: Update, now: int, zones: set<string>): Result<Profile>
  {
    Normalize(Merged(if existing.Some? then existing.value else Blank(now), u, now), zones)
  }

  /** A stored profile: every validated field is already in the form its validator gives back. */
  predicate Normalized(p: Profile, zones: set<string>)
  {
    ValidateBirthDate(p.birthDate) == Ok(p.birthDate) &&
    ValidateBirthTime(p.birthTime) == Ok(p.birthTime) &&
    ValidateTimezone(p.timezone, zones) == Ok(p.timezone) &&
    ValidateCoordinate("lat", p.lat).Ok? && ValidateCoordinate("lon", p.lon).Ok? &&
    ValidateAge(p.age).Ok? &&
    (p.placeName.None? || Truthy(p.placeName))
  }

  /**
   * The merge rules as stored: a new latitude or longitude of 0 still
   * replaces the old one, an empty new birth time keeps the stored one,
   * an age passed as None clears the stored age, and the creation time is
   * kept.
   */
  lemma UpsertMerge(existing: Option<Profile>, u: Update, now: int, zones: set<string>)
    requires Upsert(existing, u, now, zones).Ok?
    ensures var ex := if existing.Some? then existing.value else Blank(now);
            var p := Upsert(existing, u, now, zones).value;
            p.lat == IfGiven(u.lat, ex.lat) && p.lon == IfGiven(u.lon, ex.lon) &&
            p.utcOffset == IfGiven(u.utcOffset, ex.utcOffset) &&
            (!Truthy(u.birthTime) ==> p.birthTime == ValidateBirthTime(ex.birthTime).value) &&
            (!Truthy(u.placeName) ==> p.placeName == (if Truthy(ex.placeName) then ex.placeName else None)) &&
            (u.age == Some(None) ==> p.age == None) &&
            p.createdAt == ex.createdAt && p.updatedAt == now
  {
  }

  /** Every profile the merge produces is normalised. */
  lemma UpsertNormalizes(existing: Option<Profile>, u: Update, now: int, zones: set<string>)
    requires Upsert(existing, u, now, zones).Ok?
    ensures Normalized(Upsert(existing, u, now, zones).value, zones)
  {
    var m := Merged(if existing.Some? then existing.value else Blank(now), u, now);
    ValidateBirthDateIdempotent(m.birthDate);
    ValidateBirthTimeIdempotent(m.birthTime);
    ValidateTimezoneIdempotent(m.timezone, zones);
  }

  /** Merging nothing into a normalised profile only moves its update time. */
  lemma UpsertNoChange(p: Profile, now: int, zones: set<string>)
    requires Normalized(p, zones)
    ensures Upsert(Some(p), NoChange, now, zones) == Ok(p.(updatedAt := now))
  {
    assert p.birthDate != [] by {
      assert ValidateBirthDate(p.birthDate).Ok?;
    }
    var m := Merged(p, NoChange, now);
    assert m == p.(updatedAt := now);
  }

  /** The profile fields `sync_from_user_profile` reads from a user record. */
  datatype UserProfile = UserProfile(
    birthDate: Option<string>,
    birthTime: Option<string>,
    timezone: Option<string>,
    utcOffset: Option<real>,
    lat: Option<real>,
    lon: Option<real>,
    placeName: Option<string>,
    age: Option<int>)

  /** The payload: the birth date, each text field only when non-empty, each number only when not None. */
  function Payload(p: UserProfile): (u: Update)
    ensures u.birthDate == p.birthDate && u.lat == p.lat && u.lon == p.lon && u.utcOffset == p.utcOffset
    ensures u.birthTime == (if Truthy(p.birthTime) then p.birthTime else None)
    ensures u.timezone == (if Truthy(p.timezone) then p.timezone else None)
    ensures u.placeName == (if Truthy(p.placeName) then p.placeName else None)
    ensures u.age == (if p.age.Some? then Some(p.age) else None)
    ensures u.lastForecastSent.None? && u.lastForecastDate.None? && u.lastForecastText.None? && u.lastForecastIsPreview.None?
  {
    Update(p.birthDate,
           if Truthy(p.birthTime) then p.birthTime else None,
           if Truthy(p.timezone) then p.timezone else None,
           p.utcOffset, p.lat, p.lon,
           if Truthy(p.placeName) then p.placeName else None,
           if p.age.Some? then Some(p.age) else None,
           None, None, None, None)
  }

  /** A sync never clears what the user record lacks: a stored age and the last forecast survive it. */
  lemma SyncKeepsStored(existing: Profile, p: UserProfile, now: int, zones: set<string>)
    requires Upsert(Some(existing), Payload(p), now, zones).Ok?
    ensures var r := Upsert(Some(existing), Payload(p), now, zones).value;
            (p.age.None? ==> r.age == existing.age) &&
            r.lastForecastDate == existing.lastForecastDate && r.lastForecastText == existing.lastForecastText &&
            r.lastForecastSent == existing.lastForecastSent && r.lastForecastIsPreview == existing.lastForecastIsPreview
  {
  }

  /** The last forecast: its date, text and preview flag, provided both date and text are non-empty. */
  function LastForecast(profile: Option<Profile>): (r: Option<(string, string, bool)>)
    ensures r.Some? <==> profile.Some? && Truthy(profile.value.lastForecastDate) && Truthy(profile.value.lastForecastText)
    ensures r.Some? ==> r.value == (profile.value.lastForecastDate.value, profile.value.lastForecastText.value,
                                    profile.value.lastForecastIsPreview)
  {
    if profile.None? then None
    else
      var p := profile.value;
      if Truthy(p.lastForecastDate) && Truthy(p.lastForecastText) then
        Some((p.lastForecastDate.value, p.lastForecastText.value, p.lastForecastIsPreview))
      else None
  }

  /** `save_forecast_text` on a stored profile. */
  function WithForecast(p: Profile, date: string, text: string, isPreview: bool, now: int): (r: Profile)
    ensures r.lastForecastDate == Some(date) && r.lastForecastText == Some(text) && r.lastForecastIsPreview == isPreview
    ensures r.(lastForecastDate := p.lastForecastDate, lastForecastText := p.lastForecastText,
               lastForecastIsPreview := p.lastForecastIsPreview, updatedAt := p.updatedAt) == p
  {
    p.(lastForecastDate := Some(date), lastForecastText := Some(text), lastForecastIsPreview := isPreview, updatedAt := now)
  }

  /** A forecast saved with a non-empty date and text is what the next read gives back. */
  lemma SaveThenLoad(p: Profile, date: string, text: string, isPreview: bool, now: int)
    requires date != [] && text != []
    ensures LastForecast(Some(WithForecast(p, date, text, isPreview, now))) == Some((date, text, isPreview))
  {
  }

  class BirthProfileStorage {
    var data: map<int, Profile>
    /** The time-zone names the zone database knows. */
    const zones: set<string>

    constructor(zones: set<string>)
      ensures data == map[] && this.zones == zones
    {
      data := map[];
      this.zones := zones;
    }

    function Existing(id: int): Option<Profile>
      reads this
    {
      if id in data then Some(data[id]) else None
    }

    /** `upsert_profile`: the merged profile is stored; on a validation error nothing changes. */
    method UpsertProfile(id: int, u: Update, now: int) returns (r: Result<Profile>)
      modifies this
      ensures r == Upsert(old(Existing(id)), u, now, zones)
      ensures r.Ok? ==> data == old(data)[id := r.value]
      ensures r.Err? ==> data == old(data)
    {
      r := Upsert(Existing(id), u, now, zones);
      if r.Ok? {
        data := data[id := r.value];
      }
    }

    /** `delete_profile`: only that user's profile goes. */
    method DeleteProfile(id: int)
      modifies this
      ensures data == old(data) - {id}
    {
      if id in data {
        data := data - {id};
      }
    }

    /** `sync_from_user_profile`: nothing without a birth date, otherwise an upsert of the payload. */
    method SyncFromUserProfile(id: int, p: UserProfile, now: int) returns (r: Result<Option<Profile>>)
      modifies this
      ensures !Truthy(p.birthDate) ==> r == Ok(None) && data == old(data)
      ensures Truthy(p.birthDate) ==>
                var m := Upsert(old(Existing(id)), Payload(p), now, zones);
                (m.Ok? ==> r == Ok(Some(m.value)) && data == old(data)[id := m.value]) &&
                (m.Err? ==> r == Err(m.error) && data == old(data))
    {
      if !Truthy(p.birthDate) {
        return Ok(None);
      }
      var m := UpsertProfile(id, Payload(p), now);
      if m.Ok? {
        r := Ok(Some(m.value));
      } else {
        r := Err(m.error);
      }
    }

    /** `mark_forecast_sent`: records the date on a stored profile; an unknown user changes nothing. */
    method MarkForecastSent(id: int, date: string, now: int)
      modifies this
      ensures id !in old(data) ==> data == old(data)
      ensures id in old(data) ==> data == old(data)[id := old(data)[id].(lastForecastSent := Some(date), updatedAt := now)]
    {
      if id in data {
        data := data[id := data[id].(lastForecastSent := Some(date), updatedAt := now)];
      }
    }

    /** `save_forecast_text`: records the forecast on a stored profile; an unknown user changes nothing. */
    method SaveForecastText(id: int, date: string, text: string, isPreview: bool, now: int)
      modifies this
      ensures id !in old(data) ==> data == old(data)
      ensures id in old(data) ==> data == old(data)[id := WithForecast(old(data)[id], date, text, isPreview, now)]
    {
      if id in data {
        data := data[id := WithForecast(data[id], date, text, isPreview, now)];
      }
    }

    /** `get_last_forecast`. */
    method GetLastForecast(id: int) returns (r: Option<(string, string, bool)>)
      ensures r == LastForecast(Existing(id))
      ensures r.Some? ==> id in data && r.value.0 != [] && r.value.1 != []
    {
      r := LastForecast(Existing(id));
    }
  }
}
