/**
 * The proleptic Gregorian calendar as Python's `date` sees it: validity,
 * ordinal day numbers (day 1 is 0001-01-01) and weekdays (0 is Monday).
 */
module Calendar {
  datatype Date = Date(year: int, month: int, day: int)

  predicate IsLeap(y: int)
  {
    y % 4 == 0 && (y % 100 != 0 || y % 400 == 0)
  }

  function DaysInMonth(y: int, m: int): (n: int)
    requires 1 <= m <= 12
    ensures 28 <= n <= 31
    ensures n == 29 <==> m == 2 && IsLeap(y)
  {
    if m == 2 then (if IsLeap(y) then 29 else 28)
    else if m == 4 || m == 6 || m == 9 || m == 11 then 30
    else 31
  }

  /** A date `datetime.date` accepts. */
  predicate ValidDate(d: Date)
  {
    1 <= d.year <= 9999 && 1 <= d.month <= 12 && 1 <= d.day <= DaysInMonth(d.year, d.month)
  }

  function DaysBeforeYear(y: int): int
    requires y >= 1
  {
    var p := y - 1;
    365 * p + p / 4 - p / 100 + p / 400
  }

  function DaysBeforeMonth(y: int, m: int): int
    requires 1 <= m <= 13
    decreases m
  {
    if m == 1 then 0 else DaysBeforeMonth(y, m - 1) + DaysInMonth(y, m - 1)
  }

  /** `date.toordinal()`. */
  function Ordinal(d: Date): int
    requires ValidDate(d)
  {
    DaysBeforeYear(d.year) + DaysBeforeMonth(d.year, d.month) + d.day
  }

  /** `date.weekday()`: 0 is Monday, 6 is Sunday. */
  function Weekday(d: Date): (w: int)
    requires ValidDate(d)
    ensures 0 <= w < 7
  {
    (Ordinal(d) + 6) % 7
  }

  /** The following calendar day. */
  function NextDay(d: Date): (n: Date)
    requires ValidDate(d)
  {
    if d.day < DaysInMonth(d.year, d.month) then Date(d.year, d.month, d.day + 1)
    else if d.month < 12 then Date(d.year, d.month + 1, 1)
    else Date(d.year + 1, 1, 1)
  }

  lemma YearLength(y: int)
    requires y >= 1
    ensures DaysBeforeYear(y + 1) - DaysBeforeYear(y) == if IsLeap(y) then 366 else 365
    ensures DaysBeforeMonth(y, 13) == if IsLeap(y) then 366 else 365
  {
    var p := y - 1;
    assert y / 4 - p / 4 == if y % 4 == 0 then 1 else 0;
    assert y / 100 - p / 100 == if y % 100 == 0 then 1 else 0;
    assert y / 400 - p / 400 == if y % 400 == 0 then 1 else 0;
    var feb := DaysInMonth(y, 2);
    assert DaysBeforeMonth(y, 3) == 31 + feb;
    assert DaysBeforeMonth(y, 5) == 31 + feb + 31 + 30;
    assert DaysBeforeMonth(y, 7) == 31 + feb + 31 + 30 + 31 + 30;
    assert DaysBeforeMonth(y, 9) == 31 + feb + 31 + 30 + 31 + 30 + 31 + 31;
    assert DaysBeforeMonth(y, 11) == 31 + feb + 31 + 30 + 31 + 30 + 31 + 31 + 30 + 31;
    assert DaysBeforeMonth(y, 13) == 31 + feb + 31 + 30 + 31 + 30 + 31 + 31 + 30 + 31 + 30 + 31;
  }

  /** Consecutive days have consecutive ordinals. */
  lemma NextDayOrdinal(d: Date)
    requires ValidDate(d) && d.year < 9999
    ensures ValidDate(NextDay(d))
    ensures Ordinal(NextDay(d)) == Ordinal(d) + 1
  {
    if d.day == DaysInMonth(d.year, d.month) && d.month == 12 {
      YearLength(d.year);
    }
  }

  /** The weekday advances by one each day, Sunday wrapping to Monday. */
  lemma WeekdayAdvances(d: Date)
    requires ValidDate(d) && d.year < 9999
    ensures ValidDate(NextDay(d))
    ensures Weekday(NextDay(d)) == (Weekday(d) + 1) % 7
  {
    NextDayOrdinal(d);
    WeekdayStep(Ordinal(d) + 6);
  }

  lemma WeekdayStep(x: int)
    ensures (x + 1) % 7 == (x % 7 + 1) % 7
  {
    var q, r := x / 7, x % 7;
    assert x + 1 == 7 * q + (r + 1);
    if r == 6 {
      assert x + 1 == 7 * (q + 1);
    }
  }

  /** 1 January 2024 was a Monday. */
  lemma MondayAnchor()
    ensures Weekday(Date(2024, 1, 1)) == 0
  {
    assert DaysBeforeYear(2024) == 738885;
  }
}

/** Date labels and the Russian plural of "day". */
module Formatters {
  import opened Wrappers
  import opened Strings
  import opened Calendar

  /** Russian word for "day" after the number `n`: singular, paucal or plural. */
  function PluralizeDays(n: int): (w: string)
    ensures w == "день" <==> n % 10 == 1 && n % 100 != 11
    ensures w == "дня" <==> 2 <= n % 10 <= 4 && !(12 <= n % 100 <= 14)
    ensures w == "дней" <==> !(n % 10 == 1 && n % 100 != 11) && !(2 <= n % 10 <= 4 && !(12 <= n % 100 <= 14))
  {
    if n % 10 == 1 && n % 100 != 11 then "день"
    else if n % 10 in {2, 3, 4} && n % 100 !in {12, 13, 14} then "дня"
    else "дней"
  }

  /** The word depends on the last two digits only. */
  lemma PluralizeDaysPeriodic(n: int, k: int)
    ensures PluralizeDays(n + 100 * k) == PluralizeDays(n)
  {
    ShiftByHundreds(n, k);
  }

  lemma ShiftByHundreds(n: int, k: int)
    ensures (n + 100 * k) % 100 == n % 100
    ensures (n + 100 * k) % 10 == n % 10
  {
    ShiftMod(n, 100, k);
    ShiftMod(n, 10, 10 * k);
  }

  /** Adding a multiple of `m` leaves the remainder modulo `m` unchanged. */
  lemma ShiftMod(n: int, m: int, k: int)
    requires m > 0
    ensures (n + m * k) % m == n % m
  {
    var q, r := n / m, n % m;
    assert n + m * k == m * (q + k) + r;
    ModOfMultiplePlus(m, q + k, r);
  }

  /** `m * d + r` with `0 <= r < m` leaves remainder `r`. */
  lemma ModOfMultiplePlus(m: int, d: int, r: int)
    requires m > 0 && 0 <= r < m
    ensures (m * d + r) % m == r
  {
    var x := m * d + r;
    var q := x / m;
    assert x == m * q + x % m;
    assert m * (q - d) == r - x % m;
    ScaledAwayFromZero(m, q - d);
  }

  /** A nonzero multiple of `m` is at least `m` away from zero. */
  lemma ScaledAwayFromZero(m: int, t: int)
    requires m > 0
    ensures t >= 1 ==> m * t >= m
    ensures t <= -1 ==> m * t <= -m
  {
    if t >= 1 {
      assert m * t == m + m * (t - 1);
    } else if t <= -1 {
      assert m * t == -m + m * (t + 1);
    }
  }

  /** `strftime("%Y-%m-%d")`. */
  function IsoDateString(d: Date): string
    requires ValidDate(d)
  {
    NatToString(d.year) + "-" + Pad2(d.month) + "-" + Pad2(d.day)
  }

  /** `strftime("%d.%m.%Y")`. */
  function DisplayDate(d: Date): string
    requires ValidDate(d)
  {
    Pad2(d.day) + "." + Pad2(d.month) + "." + NatToString(d.year)
  }

  /**
   * What CPython's `parse_hh_mm_ss_ff` (Python 3.7-3.10) reads: up to three
   * two-digit fields, a microsecond count, and whether it reported text left
   * over at the end of the span.
   */
  datatype TimeFields = TimeFields(hour: nat, minute: nat, second: nat, micro: nat, more: bool)

  /** The character the C parser sees at `p`: the span's own, or `end` just past it. */
  function CharAt(t: string, p: nat, end: char): (c: char)
    ensures p < |t| ==> c == t[p]
    ensures p >= |t| ==> c == end
  {
    if p < |t| then t[p] else end
  }

  /** The fields read so far, the missing ones left at zero. */
  function Fields(fs: seq<nat>, micro: nat, more: bool): (r: TimeFields)
    requires 1 <= |fs| <= 3
    ensures r.hour == fs[0] && r.micro == micro && r.more == more
    ensures r.minute == (if |fs| > 1 then fs[1] else 0) && r.second == (if |fs| > 2 then fs[2] else 0)
  {
    TimeFields(fs[0], if |fs| > 1 then fs[1] else 0, if |fs| > 2 then fs[2] else 0, micro, more)
  }

  /** A fraction's microseconds: three digits are milliseconds, six are microseconds. */
  function FractionMicros(f: string): nat
    requires IsAllDigits(f)
  {
    if |f| == 3 then DigitsToNat(f) * 1000 else DigitsToNat(f)
  }

  /** The fraction: the rest of the span is exactly three or six digits. */
  function ReadFraction(t: string, p: nat, end: char, fs: seq<nat>): (r: Option<TimeFields>)
    requires p <= |t| && 1 <= |fs| <= 3
    ensures r.Some? <==> (|t| - p == 3 || |t| - p == 6) && IsAllDigits(t[p..])
    ensures r.Some? ==> r.value.micro < 1000000 && r.value.more == (end != '\0')
  {
    var n := |t| - p;
    if (n == 3 || n == 6) && IsAllDigits(t[p..]) then
      DigitsBound(t[p..]);
      Some(Fields(fs, FractionMicros(t[p..]), end != '\0'))
    else None
  }

  /**
   * `parse_hh_mm_ss_ff` from field `|fs|` on, at position `p` of the span
   * `t`; `end` is the byte just past the span ('\0' at the end of the text,
   * otherwise the offset's sign). Each field is two ASCII digits followed by
   * one character. When that character is the last one of the span (or the
   * `end` byte), reading stops there, whatever it is, and reports text left
   * over unless it is '\0'; a non-ASCII character is several bytes in UTF-8
   * and so never the last one. Otherwise ':' opens the next field, and '.',
   * or ':' after the seconds, opens the fraction; anything else fails.
   */
  function ReadFieldsFrom(t: string, p: nat, end: char, fs: seq<nat>): (r: Option<TimeFields>)
    requires p <= |t| && |fs| < 3
    decreases 3 - |fs|
  {
    if p + 2 > |t| || !IsAllDigits(t[p..p + 2]) then None
    else
      var fs' := fs + [DigitsToNat(t[p..p + 2])];
      var c := CharAt(t, p + 2, end);
      if p + 3 >= |t| then
        if c < '\U{0080}' then Some(Fields(fs', 0, c != '\0')) else None
      else if c == ':' && |fs'| < 3 then ReadFieldsFrom(t, p + 3, end, fs')
      else if c == ':' || c == '.' then ReadFraction(t, p + 3, end, fs')
      else None
  }

  /** A field followed by ':' with a field still to come: reading moves on to it. */
  lemma FieldThenColon(t: string, p: nat, end: char, fs: seq<nat>)
    requires p + 3 < |t| && |fs| < 2 && IsAllDigits(t[p..p + 2]) && t[p + 2] == ':'
    ensures ReadFieldsFrom(t, p, end, fs) == ReadFieldsFrom(t, p + 3, end, fs + [DigitsToNat(t[p..p + 2])])
  {
  }

  /** A field followed by '.', or by ':' after the seconds: the fraction comes next. */
  lemma FieldThenFraction(t: string, p: nat, end: char, fs: seq<nat>)
    requires p + 3 < |t| && |fs| < 3 && IsAllDigits(t[p..p + 2])
    requires t[p + 2] == '.' || (t[p + 2] == ':' && |fs| == 2)
    ensures ReadFieldsFrom(t, p, end, fs) == ReadFraction(t, p + 3, end, fs + [DigitsToNat(t[p..p + 2])])
  {
  }

  /** The span ends with a field: reading stops at the `end` byte. */
  lemma LastField(t: string, p: nat, end: char, fs: seq<nat>)
    requires p + 2 == |t| && |fs| < 3 && IsAllDigits(t[p..]) && end < '\U{0080}'
    ensures ReadFieldsFrom(t, p, end, fs) == Some(Fields(fs + [DigitsToNat(t[p..])], 0, end != '\0'))
  {
    assert t[p..p + 2] == t[p..];
  }

  /** The span ends with a field and one ASCII character: reading stops on that character. */
  lemma FieldThenLast(t: string, p: nat, end: char, fs: seq<nat>)
    requires p + 3 == |t| && |fs| < 3 && IsAllDigits(t[p..p + 2]) && t[p + 2] < '\U{0080}'
    ensures ReadFieldsFrom(t, p, end, fs) == Some(Fields(fs + [DigitsToNat(t[p..p + 2])], 0, t[p + 2] != '\0'))
  {
  }

  /** `parse_hh_mm_ss_ff` over a whole span. */
  function ReadClock(t: string, end: char): Option<TimeFields>
  {
    ReadFieldsFrom(t, 0, end, [])
  }

  function Pow10(n: nat): (r: nat)
    ensures r >= 1
  {
    if n == 0 then 1 else 10 * Pow10(n - 1)
  }

  /** A text of `n` digits is worth less than `10^n`. */
  lemma {:induction false} DigitsBelowPow10(s: string)
    requires IsAllDigits(s)
    ensures DigitsToNat(s) < Pow10(|s|)
    decreases |s|
  {
    if s != [] {
      DigitsBelowPow10(s[..|s| - 1]);
    }
  }

  /** Three digits are worth less than a thousand, six less than a million. */
  lemma DigitsBound(s: string)
    requires IsAllDigits(s) && (|s| == 3 || |s| == 6)
    ensures |s| == 3 ==> DigitsToNat(s) < 1000
    ensures DigitsToNat(s) < 1000000
  {
    DigitsBelowPow10(s);
    assert Pow10(3) == 1000;
    assert Pow10(6) == 1000000;
  }

  /** The range checks of the `datetime` constructor on the clock fields. */
  predicate ClockInRange(r: TimeFields)
  {
    r.hour < 24 && r.minute < 60 && r.second < 60 && r.micro < 1000000
  }

  /** Where a UTC offset starts: the first '+' or '-', or the end of the text. */
  function OffsetStart(t: string): (k: nat)
    ensures k <= |t|
    ensures k < |t| ==> t[k] == '+' || t[k] == '-'
    ensures forall i | 0 <= i < k :: t[i] != '+' && t[i] != '-'
  {
    if t == [] || t[0] == '+' || t[0] == '-' then 0
    else
      var k := OffsetStart(t[1..]);
      assert forall i | 1 <= i < 1 + k :: t[i] == t[1..][i - 1];
      1 + k
  }

  /** The offset's size in microseconds: hours, minutes, seconds and fraction together. */
  function OffsetMicros(r: TimeFields): nat
  {
    ((r.hour * 60 + r.minute) * 60 + r.second) * 1000000 + r.micro
  }

  /**
   * The offset after its sign: five, eight or fifteen characters that the
   * field reader reads to the very end, with no range check on the fields;
   * `timezone()` then accepts a total strictly shorter than a day.
   */
  predicate IsoOffset(o: string)
  {
    (|o| == 5 || |o| == 8 || |o| == 15) &&
    match ReadClock(o, '\0')
    case None => false
    case Some(r) => !r.more && OffsetMicros(r) < 24 * 3600 * 1000000
  }

  /**
   * `parse_isoformat_time`: the clock up to the first '+' or '-', read in
   * range; then either nothing, with no text left over, or an offset.
   */
  predicate IsoTime(t: string)
  {
    var k := OffsetStart(t);
    match ReadClock(t[..k], if k < |t| then t[k] else '\0')
    case None => false
    case Some(r) => ClockInRange(r) && (if k == |t| then !r.more else IsoOffset(t[k + 1..]))
  }

  /** "YYYY-MM-DD": four, two and two ASCII digits joined by '-'. */
  predicate IsoDateShape(s: string)
  {
    |s| >= 10 && s[4] == '-' && s[7] == '-' &&
    IsAllDigits(s[..4]) && IsAllDigits(s[5..7]) && IsAllDigits(s[8..10])
  }

  /**
   * `datetime.fromisoformat`, keeping the date: "YYYY-MM-DD" naming a real
   * date, optionally followed by any one separator character and a time part.
   */
  function ParseIsoDate(s: string): (r: Option<Date>)
    ensures r.Some? ==> ValidDate(r.value)
  {
    if !IsoDateShape(s) then None
    else if |s| > 10 && !IsoTime(s[11..]) then None
    else
      var d := Date(DigitsToNat(s[..4]), DigitsToNat(s[5..7]), DigitsToNat(s[8..10]));
      if ValidDate(d) then Some(d) else None
  }

  /** A date is read only when everything after it is a separator and a well-formed time. */
  lemma ParseIsoDateNeedsTime(s: string)
    requires ParseIsoDate(s).Some?
    ensures IsoDateShape(s) && (|s| == 10 || IsoTime(s[11..]))
  {
  }

  /** A rendered ISO date parses back to the same date. */
  lemma IsoDateRoundTrip(d: Date)
    requires ValidDate(d) && d.year >= 1000
    ensures ParseIsoDate(IsoDateString(d)) == Some(d)
  {
    FourDigits(d.year);
    var y := NatToString(d.year);
    var s := IsoDateString(d);
    assert s[..4] == y;
    assert s[5..7] == Pad2(d.month);
    assert s[8..10] == Pad2(d.day);
  }

  /** "HH:MM" is read as two fields, the reader stopping at the end of the span. */
  lemma TwoFieldsRead(hh: string, mm: string, end: char)
    requires |hh| == 2 && |mm| == 2 && IsAllDigits(hh) && IsAllDigits(mm) && end < '\U{0080}'
    ensures ReadClock(hh + ":" + mm, end) == Some(TimeFields(DigitsToNat(hh), DigitsToNat(mm), 0, 0, end != '\0'))
  {
    PairLayout(hh, mm);
    TwoFieldsAt(hh + ":" + mm, end);
  }

  /** Where the two fields of "HH:MM" and the ':' sit. */
  lemma PairLayout(hh: string, mm: string)
    requires |hh| == 2 && |mm| == 2
    ensures var t := hh + ":" + mm; |t| == 5 && t[0..2] == hh && t[2] == ':' && t[3..] == mm
  {
    var a := hh + ":";
    assert (a + mm)[3..] == mm && (a + mm)[..3] == a;
    assert a[2] == ':' && a[..2] == hh;
  }

  /** A span laid out as "HH:MM" reads as those two fields. */
  lemma TwoFieldsAt(t: string, end: char)
    requires |t| == 5 && IsAllDigits(t[0..2]) && t[2] == ':' && IsAllDigits(t[3..]) && end < '\U{0080}'
    ensures ReadClock(t, end) == Some(TimeFields(DigitsToNat(t[0..2]), DigitsToNat(t[3..]), 0, 0, end != '\0'))
  {
    var h := DigitsToNat(t[0..2]);
    FieldThenColon(t, 0, end, []);
    assert [] + [h] == [h];
    LastField(t, 3, end, [h]);
  }

  /** "HH:MM" for an hour below 24 and a minute below 60 is a clock in range. */
  lemma HourMinuteIsClock(h: nat, m: nat, end: char)
    requires h < 24 && m < 60 && end < '\U{0080}'
    ensures ReadClock(Pad2(h) + ":" + Pad2(m), end) == Some(TimeFields(h, m, 0, 0, end != '\0'))
    ensures ClockInRange(TimeFields(h, m, 0, 0, end != '\0'))
  {
    TwoFieldsRead(Pad2(h), Pad2(m), end);
  }

  /** Text without a sign has no offset. */
  lemma {:induction false} OffsetStartUnsigned(t: string)
    requires forall i | 0 <= i < |t| :: t[i] != '+' && t[i] != '-'
    ensures OffsetStart(t) == |t|
    decreases |t|
  {
    if t != [] {
      OffsetStartUnsigned(t[1..]);
    }
  }

  /** "HH:MM" in range is a whole time part with no offset. */
  lemma ClockIsTime(h: nat, m: nat)
    requires h < 24 && m < 60
    ensures IsoTime(Pad2(h) + ":" + Pad2(m))
  {
    HourMinuteIsClock(h, m, '\0');
    UnsignedClock(h, m);
    UnsignedTime(Pad2(h) + ":" + Pad2(m));
  }

  /** A rendered date followed by any separator and a clock time parses back to the date. */
  lemma IsoDateTimeRoundTrip(d: Date, sep: char, h: nat, m: nat)
    requires ValidDate(d) && d.year >= 1000 && h < 24 && m < 60
    ensures ParseIsoDate(IsoDateString(d) + [sep] + Pad2(h) + ":" + Pad2(m)) == Some(d)
  {
    IsoDateRoundTrip(d);
    var date := IsoDateString(d);
    var t := Pad2(h) + ":" + Pad2(m);
    ClockIsTime(h, m);
    FourDigits(d.year);
    DateThenTime(date, sep, t, d);
    assert date + [sep] + Pad2(h) + ":" + Pad2(m) == date + [sep] + t;
  }

  /** A date text that parses, followed by a separator and a well-formed time, parses to the same date. */
  lemma DateThenTime(date: string, sep: char, t: string, d: Date)
    requires |date| == 10 && ParseIsoDate(date) == Some(d) && IsoTime(t)
    ensures ParseIsoDate(date + [sep] + t) == Some(d)
  {
    var s := date + [sep] + t;
    assert s[11..] == t;
    assert s[..4] == date[..4] && s[5..7] == date[5..7] && s[8..10] == date[8..10];
  }

  /** A time part opens with two digits. */
  lemma IsoTimeOpensWithHour(t: string)
    requires IsoTime(t)
    ensures |t| >= 2 && IsDigit(t[0]) && IsDigit(t[1])
  {
    var k := OffsetStart(t);
    var c := t[..k];
    assert ReadFieldsFrom(c, 0, if k < |t| then t[k] else '\0', []).Some?;
    assert |c| >= 2 && IsAllDigits(c[0..2]);
    assert IsDigit(c[0..2][0]) && IsDigit(c[0..2][1]);
  }

  /** A separator followed by text that does not open with a two-digit hour is refused. */
  lemma TrailingTextRefused(s: string)
    requires |s| > 12 && !(IsDigit(s[11]) && IsDigit(s[12]))
    ensures ParseIsoDate(s).None?
  {
    var t := s[11..];
    assert t[0] == s[11] && t[1] == s[12];
    if IsoTime(t) {
      IsoTimeOpensWithHour(t);
      assert false;
    }
  }

  /** `iso_date.replace("Z", "+00:00")`. */
  function ZuluToOffset(s: string): string
  {
    if s == [] then [] else ZuluChar(s[0]) + ZuluToOffset(s[1..])
  }

  /** Text without 'Z' is left as it is. */
  lemma {:induction false} ZuluFree(s: string)
    requires 'Z' !in s
    ensures ZuluToOffset(s) == s
    decreases |s|
  {
    if s != [] {
      assert s[0] in s;
      assert forall c | c in s[1..] :: c in s;
      ZuluFree(s[1..]);
      assert [s[0]] + s[1..] == s;
    }
  }

  function ZuluChar(c: char): (r: string)
    ensures c != 'Z' ==> r == [c]
    ensures c == 'Z' ==> r == "+00:00"
  {
    if c == 'Z' then "+00:00" else [c]
  }

  /** The text `format_iso_to_display` hands to `fromisoformat`: 'Z' becomes "+00:00" when a 'T' is present. */
  function IsoInput(iso: string): string
  {
    if 'T' in iso then ZuluToOffset(iso) else iso
  }

  /**
   * `format_iso_to_display`: the ISO date as "DD.MM.YYYY", `default` for an
   * empty input, and the input itself when it does not parse.
   */
  function FormatIsoToDisplay(iso: string, default: string): (r: string)
    ensures iso == [] ==> r == default
    ensures iso != [] && ParseIsoDate(IsoInput(iso)).None? ==> r == iso
    ensures ParseIsoDate(IsoInput(iso)).Some? ==> r == DisplayDate(ParseIsoDate(IsoInput(iso)).value)
  {
    if iso == [] then default
    else match ParseIsoDate(IsoInput(iso))
      case Some(d) => DisplayDate(d)
      case None => iso
  }

  lemma FormatIsoToDisplayOfIso(d: Date, default: string)
    requires ValidDate(d) && d.year >= 1000
    ensures FormatIsoToDisplay(IsoDateString(d), default) == DisplayDate(d)
  {
    IsoDateRoundTrip(d);
    IsoDateHasNoLetters(d);
  }

  /** An ISO date spells only digits and '-'. */
  lemma IsoDateHasNoLetters(d: Date)
    requires ValidDate(d)
    ensures 'T' !in IsoDateString(d) && 'Z' !in IsoDateString(d)
  {
    var y, m, dd := NatToString(d.year), Pad2(d.month), Pad2(d.day);
    var s := IsoDateString(d);
    assert s == y + "-" + m + "-" + dd;
    forall i | 0 <= i < |s| ensures IsDigit(s[i]) || s[i] == '-' {
      if i < |y| { assert s[i] == y[i]; }
      else if i == |y| || i == |y| + 3 { }
      else if i < |y| + 3 { assert s[i] == m[i - |y| - 1]; }
      else { assert s[i] == dd[i - |y| - 4]; }
    }
  }

  lemma {:induction false} ZuluConcat(a: string, b: string)
    ensures ZuluToOffset(a + b) == ZuluToOffset(a) + ZuluToOffset(b)
    decreases |a|
  {
    if a == [] {
      assert a + b == b;
    } else {
      ZuluConcat(a[1..], b);
      ZuluConcatStep(a, b);
    }
  }

  /** One step of the induction above: the head of `a` is converted first. */
  lemma ZuluConcatStep(a: string, b: string)
    requires a != []
    requires ZuluToOffset(a[1..] + b) == ZuluToOffset(a[1..]) + ZuluToOffset(b)
    ensures ZuluToOffset(a + b) == ZuluToOffset(a) + ZuluToOffset(b)
  {
    var ab := a + b;
    assert ab[0] == a[0];
    assert ab[1..] == a[1..] + b;
    SeqAssoc(ZuluChar(a[0]), ZuluToOffset(a[1..]), ZuluToOffset(b));
  }

  lemma SeqAssoc(x: string, y: string, z: string)
    ensures x + (y + z) == (x + y) + z
  {
  }

  /** A text without 'Z' followed by one 'Z' gets "+00:00" in its place. */
  lemma ZuluAtEnd(body: string)
    requires 'Z' !in body
    ensures ZuluToOffset(body + "Z") == body + "+00:00"
  {
    ZuluConcat(body, "Z");
    ZuluFree(body);
    var z := "Z";
    assert ZuluToOffset(z) == "+00:00" by {
      assert z[0] == 'Z' && z[1..] == [];
    }
  }

  /** A UTC time written with a trailing 'Z' is displayed as its date. */
  lemma ZuluTimeDisplayed(d: Date, h: nat, m: nat, default: string)
    requires ValidDate(d) && d.year >= 1000 && h < 24 && m < 60
    ensures FormatIsoToDisplay(IsoDateString(d) + "T" + Pad2(h) + ":" + Pad2(m) + "Z", default) == DisplayDate(d)
  {
    ZuluTimeParsed(d, h, m);
    DisplayOfParsed(IsoDateString(d) + "T" + Pad2(h) + ":" + Pad2(m) + "Z", d, default);
  }

  lemma ZuluTimeParsed(d: Date, h: nat, m: nat)
    requires ValidDate(d) && d.year >= 1000 && h < 24 && m < 60
    ensures ParseIsoDate(IsoInput(IsoDateString(d) + "T" + Pad2(h) + ":" + Pad2(m) + "Z")) == Some(d)
  {
    var date := IsoDateString(d);
    var clock := Pad2(h) + ":" + Pad2(m);
    assert date + "T" + Pad2(h) + ":" + Pad2(m) + "Z" == date + "T" + clock + "Z";
    IsoDateHasNoLetters(d);
    UnsignedClock(h, m);
    ZuluInputOf(date, clock);
    ClockWithUtcOffset(h, m);
    IsoDateRoundTrip(d);
    FourDigits(d.year);
    DateThenTime(date, 'T', clock + "+00:00", d);
  }

  lemma DisplayOfParsed(iso: string, d: Date, default: string)
    requires ParseIsoDate(IsoInput(iso)) == Some(d)
    ensures FormatIsoToDisplay(iso, default) == DisplayDate(d)
  {
  }

  /** With 'T' present, the trailing 'Z' becomes "+00:00" and nothing else changes. */
  lemma ZuluInputOf(date: string, clock: string)
    requires 'Z' !in date && 'Z' !in clock
    ensures IsoInput(date + "T" + clock + "Z") == date + ['T'] + (clock + "+00:00")
  {
    var iso := date + "T" + clock + "Z";
    assert iso[|date|] == 'T';
    var body := date + "T" + clock;
    assert 'Z' !in body;
    ZuluAtEnd(body);
    assert body + "+00:00" == date + ['T'] + (clock + "+00:00");
  }

  /** "HH:MM+00:00" is a time part. */
  lemma ClockWithUtcOffset(h: nat, m: nat)
    requires h < 24 && m < 60
    ensures IsoTime(Pad2(h) + ":" + Pad2(m) + "+00:00")
  {
    var clock := Pad2(h) + ":" + Pad2(m);
    OffsetOfDigits("00", "00");
    assert "00" + ":" + "00" == "00:00";
    assert DigitsToNat("00") == 0;
    ClockThenOffset(h, m, '+', "00:00");
    assert clock + "+00:00" == clock + ['+'] + "00:00";
  }

  /** "HH:MM" followed by a sign and an offset text is a time part exactly when that text is an offset. */
  lemma ClockThenOffset(h: nat, m: nat, sign: char, o: string)
    requires h < 24 && m < 60 && (sign == '+' || sign == '-')
    ensures IsoTime(Pad2(h) + ":" + Pad2(m) + [sign] + o) <==> IsoOffset(o)
  {
    var clock := Pad2(h) + ":" + Pad2(m);
    var t := clock + [sign] + o;
    UnsignedClock(h, m);
    HourMinuteIsClock(h, m, sign);
    assert t[|clock|] == sign;
    assert forall i | 0 <= i < |clock| :: t[i] == clock[i];
    OffsetStartPrefix(t, |clock|);
    assert t[..|clock|] == clock && t[|clock| + 1..] == o;
  }

  /** An offset "HH:MM" of two-digit fields is accepted exactly when it is shorter than a day. */
  lemma OffsetOfDigits(hh: string, mm: string)
    requires |hh| == 2 && |mm| == 2 && IsAllDigits(hh) && IsAllDigits(mm)
    ensures IsoOffset(hh + ":" + mm) <==> DigitsToNat(hh) * 60 + DigitsToNat(mm) < 24 * 60
  {
    TwoFieldsRead(hh, mm, '\0');
  }

  /** "00:99" on its own is an accepted offset. */
  lemma MinutesOffsetUnchecked()
    ensures IsoOffset("00:99")
  {
    OffsetOfDigits("00", "99");
    assert "00" + ":" + "99" == "00:99";
    assert DigitsToNat("00") == 0 && DigitsToNat("99") == 99;
  }

  /** "24:00" on its own is a refused offset. */
  lemma DayOffsetRefused()
    ensures !IsoOffset("24:00")
  {
    OffsetOfDigits("24", "00");
    assert "24" + ":" + "00" == "24:00";
    assert DigitsToNat("24") == 24 && DigitsToNat("00") == 0;
  }

  /** The offset's minutes are not range-checked: "+00:99" is read as an offset of 99 minutes. */
  lemma OffsetMinutesUnchecked(h: nat, m: nat)
    requires h < 24 && m < 60
    ensures IsoTime(Pad2(h) + ":" + Pad2(m) + "+00:99")
  {
    MinutesOffsetUnchecked();
    ClockThenOffset(h, m, '+', "00:99");
    assert Pad2(h) + ":" + Pad2(m) + "+00:99" == Pad2(h) + ":" + Pad2(m) + ['+'] + "00:99";
  }

  /** An offset of a whole day or more is refused, though each field is well formed. */
  lemma OffsetOfADayRefused(h: nat, m: nat)
    requires h < 24 && m < 60
    ensures !IsoTime(Pad2(h) + ":" + Pad2(m) + "-24:00")
  {
    DayOffsetRefused();
    ClockThenOffset(h, m, '-', "24:00");
    assert Pad2(h) + ":" + Pad2(m) + "-24:00" == Pad2(h) + ":" + Pad2(m) + ['-'] + "24:00";
  }

  /** An offset giving hours alone is refused: "+05" is not "+05:00". */
  lemma OffsetHoursAloneRefused(h: nat, m: nat, hh: string)
    requires h < 24 && m < 60 && |hh| == 2
    ensures !IsoTime(Pad2(h) + ":" + Pad2(m) + "+" + hh)
  {
    ClockThenOffset(h, m, '+', hh);
    assert Pad2(h) + ":" + Pad2(m) + "+" + hh == Pad2(h) + ":" + Pad2(m) + ['+'] + hh;
  }

  /** Without the caller's replacement, a date-time ending in 'Z' does not parse. */
  lemma ZuluIsoUnparsed(d: Date, h: nat, m: nat)
    requires ValidDate(d) && d.year >= 1000 && h < 24 && m < 60
    ensures ParseIsoDate(IsoDateString(d) + "T" + Pad2(h) + ":" + Pad2(m) + "Z").None?
  {
    var date, z := IsoDateString(d), Pad2(h) + ":" + Pad2(m) + "Z";
    FourDigits(d.year);
    assert IsoDateString(d) + "T" + Pad2(h) + ":" + Pad2(m) + "Z" == date + ['T'] + z;
    AfterSeparator(date, 'T', z);
    ZuluClockRefused(h, m);
  }

  /** What follows the date and its separator is the time part. */
  lemma AfterSeparator(date: string, sep: char, t: string)
    requires |date| == 10
    ensures |date + [sep] + t| > 10 && (date + [sep] + t)[11..] == t
  {
  }

  /** "HH:MMZ" is not a time part: the 'Z' suffix is refused unless replaced first. */
  lemma ZuluClockRefused(h: nat, m: nat)
    requires h < 100 && m < 100
    ensures !IsoTime(Pad2(h) + ":" + Pad2(m) + "Z")
  {
    var t := Pad2(h) + ":" + Pad2(m) + "Z";
    UnsignedClock(h, m);
    assert forall i | 0 <= i < |t| :: t[i] != '+' && t[i] != '-' by {
      forall i | 0 <= i < |t| ensures t[i] != '+' && t[i] != '-' {
        if i < 5 { assert t[i] == (Pad2(h) + ":" + Pad2(m))[i]; }
      }
    }
    assert OffsetStart(t) == |t|;
    assert t[..|t|] == t;
    assert t[0..2] == Pad2(h) && t[2] == ':' && t[3..5] == Pad2(m) && t[5] == 'Z';
    assert ReadFieldsFrom(t, 3, '\0', [h]) == Some(Fields([h, m], 0, true));
  }

  /** A text with no '+' or '-' is a time exactly when it is read whole, in range, with nothing left. */
  lemma UnsignedTime(t: string)
    requires forall i | 0 <= i < |t| :: t[i] != '+' && t[i] != '-'
    ensures IsoTime(t) <==> ReadClock(t, '\0').Some? && ClockInRange(ReadClock(t, '\0').value) && !ReadClock(t, '\0').value.more
  {
    OffsetStartUnsigned(t);
    assert t[..|t|] == t;
  }

  /** Two ASCII digits contain no sign. */
  lemma DigitsUnsigned(s: string)
    requires IsAllDigits(s)
    ensures forall i | 0 <= i < |s| :: s[i] != '+' && s[i] != '-'
  {
    forall i | 0 <= i < |s| ensures s[i] != '+' && s[i] != '-' {
      assert IsDigit(s[i]);
    }
  }

  /** "HH.fff" or "HH.ffffff": a fraction may follow the hour itself. */
  lemma FractionAfterHour(hh: string, f: string)
    requires |hh| == 2 && IsAllDigits(hh) && (|f| == 3 || |f| == 6) && IsAllDigits(f)
    ensures ReadClock(hh + "." + f, '\0') == Some(TimeFields(DigitsToNat(hh), 0, 0, FractionMicros(f), false))
    ensures IsoTime(hh + "." + f) <==> DigitsToNat(hh) < 24
  {
    var t := hh + "." + f;
    assert t[0..2] == hh && t[2] == '.' && t[3..] == f;
    FieldThenFraction(t, 0, '\0', []);
    DigitsBound(f);
    DigitsUnsigned(hh);
    DigitsUnsigned(f);
    assert forall i | 0 <= i < |t| :: t[i] != '+' && t[i] != '-' by {
      forall i | 0 <= i < |t| ensures t[i] != '+' && t[i] != '-' {
        if i < 2 { assert t[i] == hh[i]; } else if i > 2 { assert t[i] == f[i - 3]; }
      }
    }
    UnsignedTime(t);
  }

  /** "HH:MM.fff" or "HH:MM.ffffff": a fraction may follow the minute. */
  lemma FractionAfterMinute(hh: string, mm: string, f: string)
    requires |hh| == 2 && IsAllDigits(hh) && |mm| == 2 && IsAllDigits(mm)
    requires (|f| == 3 || |f| == 6) && IsAllDigits(f)
    ensures ReadClock(hh + ":" + mm + "." + f, '\0') == Some(TimeFields(DigitsToNat(hh), DigitsToNat(mm), 0, FractionMicros(f), false))
    ensures IsoTime(hh + ":" + mm + "." + f) <==> DigitsToNat(hh) < 24 && DigitsToNat(mm) < 60
  {
    var t := hh + ":" + mm + "." + f;
    TwoFieldsLayout(hh, mm, f);
    TwoFieldsFractionRead(t);
    TwoFieldsUnsigned(t, hh, mm, f);
    DigitsBound(f);
    UnsignedTime(t);
  }

  /** Where each field of "HH:MM", the '.' and the fraction sit. */
  lemma TwoFieldsLayout(hh: string, mm: string, f: string)
    requires |hh| == 2 && |mm| == 2
    ensures var t := hh + ":" + mm + "." + f;
            |t| == 6 + |f| && t[0..2] == hh && t[2] == ':' && t[3..5] == mm && t[5] == '.' && t[6..] == f
  {
    var a := hh + ":";
    var b := a + mm;
    var c := b + ".";
    assert (c + f)[6..] == f && (c + f)[..6] == c;
    assert c[5] == '.' && c[..5] == b;
    assert b[3..5] == mm && b[..3] == a;
    assert a[2] == ':' && a[..2] == hh;
  }

  /** A span laid out as "HH:MM." and a fraction reads as those fields. */
  lemma TwoFieldsFractionRead(t: string)
    requires |t| == 9 || |t| == 12
    requires IsAllDigits(t[0..2]) && t[2] == ':' && IsAllDigits(t[3..5]) && t[5] == '.' && IsAllDigits(t[6..])
    ensures ReadClock(t, '\0') == Some(TimeFields(DigitsToNat(t[0..2]), DigitsToNat(t[3..5]), 0, FractionMicros(t[6..]), false))
  {
    var h, m := DigitsToNat(t[0..2]), DigitsToNat(t[3..5]);
    FieldThenColon(t, 0, '\0', []);
    assert [] + [h] == [h];
    FieldThenFraction(t, 3, '\0', [h]);
    assert [h] + [m] == [h, m];
    FractionRead(t, 6, '\0', [h, m]);
  }

  /** "HH:MM." and a fraction, all digits, contain no sign. */
  lemma TwoFieldsUnsigned(t: string, hh: string, mm: string, f: string)
    requires IsAllDigits(hh) && IsAllDigits(mm) && IsAllDigits(f)
    requires t == hh + ":" + mm + "." + f
    ensures forall i | 0 <= i < |t| :: t[i] != '+' && t[i] != '-'
  {
    DigitsUnsigned(hh);
    DigitsUnsigned(mm);
    DigitsUnsigned(f);
  }

  /** "HH:MM:SS:fff": after the seconds, ':' opens the fraction just as '.' does. */
  lemma ColonBeforeFraction(hh: string, mm: string, ss: string, f: string)
    requires |hh| == 2 && IsAllDigits(hh) && |mm| == 2 && IsAllDigits(mm) && |ss| == 2 && IsAllDigits(ss)
    requires (|f| == 3 || |f| == 6) && IsAllDigits(f)
    ensures ReadClock(hh + ":" + mm + ":" + ss + ":" + f, '\0')
         == Some(TimeFields(DigitsToNat(hh), DigitsToNat(mm), DigitsToNat(ss), FractionMicros(f), false))
    ensures IsoTime(hh + ":" + mm + ":" + ss + ":" + f) <==> DigitsToNat(hh) < 24 && DigitsToNat(mm) < 60 && DigitsToNat(ss) < 60
  {
    var t := hh + ":" + mm + ":" + ss + ":" + f;
    ThreeFieldsFraction(t, hh, mm, ss, ':', f);
    ThreeFieldsUnsigned(t, hh, mm, ss, ':', f);
    DigitsBound(f);
    UnsignedTime(t);
  }

  /** "HH:MM:SS" then `sep` and a fraction: the three fields are read, then the fraction. */
  lemma ThreeFieldsFraction(t: string, hh: string, mm: string, ss: string, sep: char, f: string)
    requires |hh| == 2 && IsAllDigits(hh) && |mm| == 2 && IsAllDigits(mm) && |ss| == 2 && IsAllDigits(ss)
    requires (|f| == 3 || |f| == 6) && IsAllDigits(f) && (sep == ':' || sep == '.')
    requires t == hh + ":" + mm + ":" + ss + [sep] + f
    ensures |t| == 9 + |f|
    ensures ReadClock(t, '\0') == Some(TimeFields(DigitsToNat(hh), DigitsToNat(mm), DigitsToNat(ss), FractionMicros(f), false))
  {
    ThreeFieldsLayout(hh, mm, ss, sep, f);
    ThreeFieldsRead(t);
  }

  /** Where each field of "HH:MM:SS", the separator and the fraction sit. */
  lemma ThreeFieldsLayout(hh: string, mm: string, ss: string, sep: char, f: string)
    requires |hh| == 2 && |mm| == 2 && |ss| == 2
    ensures var t := hh + ":" + mm + ":" + ss + [sep] + f;
            |t| == 9 + |f| && t[0..2] == hh && t[2] == ':' && t[3..5] == mm && t[5] == ':' &&
            t[6..8] == ss && t[8] == sep && t[9..] == f
  {
    var a := hh + ":";
    var b := a + mm;
    var c := b + ":";
    var d := c + ss;
    var e := d + [sep];
    assert (e + f)[9..] == f && (e + f)[..9] == e;
    assert e[8] == sep && e[..8] == d;
    assert d[6..8] == ss && d[..6] == c;
    assert c[5] == ':' && c[..5] == b;
    assert b[3..5] == mm && b[..3] == a;
    assert a[2] == ':' && a[..2] == hh;
  }

  /** A span laid out as "HH:MM:SS" with ':' or '.' and a fraction reads as those fields. */
  lemma ThreeFieldsRead(t: string)
    requires |t| == 12 || |t| == 15
    requires IsAllDigits(t[0..2]) && t[2] == ':' && IsAllDigits(t[3..5]) && t[5] == ':' && IsAllDigits(t[6..8])
    requires (t[8] == ':' || t[8] == '.') && IsAllDigits(t[9..])
    ensures ReadClock(t, '\0')
         == Some(TimeFields(DigitsToNat(t[0..2]), DigitsToNat(t[3..5]), DigitsToNat(t[6..8]), FractionMicros(t[9..]), false))
  {
    var h, m, sec := DigitsToNat(t[0..2]), DigitsToNat(t[3..5]), DigitsToNat(t[6..8]);
    FieldThenColon(t, 0, '\0', []);
    assert [] + [h] == [h];
    FieldThenColon(t, 3, '\0', [h]);
    assert [h] + [m] == [h, m];
    FieldThenFraction(t, 6, '\0', [h, m]);
    assert [h, m] + [sec] == [h, m, sec];
    FractionRead(t, 9, '\0', [h, m, sec]);
  }

  /** Three or six digits to the end of the span are read as the fraction. */
  lemma FractionRead(t: string, p: nat, end: char, fs: seq<nat>)
    requires p <= |t| && 1 <= |fs| <= 3 && (|t| - p == 3 || |t| - p == 6) && IsAllDigits(t[p..])
    ensures ReadFraction(t, p, end, fs) == Some(Fields(fs, FractionMicros(t[p..]), end != '\0'))
  {
  }

  /** A clock of digit fields joined by ':' or '.' contains no sign. */
  lemma ThreeFieldsUnsigned(t: string, hh: string, mm: string, ss: string, sep: char, f: string)
    requires IsAllDigits(hh) && IsAllDigits(mm) && IsAllDigits(ss) && IsAllDigits(f) && (sep == ':' || sep == '.')
    requires t == hh + ":" + mm + ":" + ss + [sep] + f
    ensures forall i | 0 <= i < |t| :: t[i] != '+' && t[i] != '-'
  {
    DigitsUnsigned(hh);
    DigitsUnsigned(mm);
    DigitsUnsigned(ss);
    DigitsUnsigned(f);
  }

  /**
   * "HH", any one ASCII character other than a sign, then an offset: the
   * character ends the clock, whatever it is, and the offset decides.
   */
  lemma StrayBeforeOffset(hh: string, x: char, sign: char, o: string)
    requires |hh| == 2 && IsAllDigits(hh) && x < '\U{0080}' && x != '+' && x != '-'
    requires sign == '+' || sign == '-'
    ensures IsoTime(hh + [x] + [sign] + o) <==> DigitsToNat(hh) < 24 && IsoOffset(o)
  {
    var t := hh + [x] + [sign] + o;
    DigitsUnsigned(hh);
    assert t[0] == hh[0] && t[1] == hh[1] && t[2] == x && t[3] == sign;
    OffsetStartPrefix(t, 3);
    var c := t[..3];
    assert c[0..2] == hh && c[2] == x;
    FieldThenLast(c, 0, sign, []);
    assert t[4..] == o;
  }

  /**
   * A fifteen-character offset "HH:MM:SS" with ':' or '.' before six
   * digits: accepted exactly when the total is shorter than a day, with no
   * range check on the fields themselves.
   */
  lemma OffsetFraction(o: string)
    requires |o| == 15 && IsAllDigits(o[0..2]) && o[2] == ':' && IsAllDigits(o[3..5]) && o[5] == ':'
    requires IsAllDigits(o[6..8]) && (o[8] == ':' || o[8] == '.') && IsAllDigits(o[9..])
    ensures IsoOffset(o)
        <==> ((DigitsToNat(o[0..2]) * 60 + DigitsToNat(o[3..5])) * 60 + DigitsToNat(o[6..8])) * 1000000 + DigitsToNat(o[9..]) < 24 * 3600 * 1000000
  {
    ThreeFieldsRead(o);
  }

  /** "HH:MM" holds neither a sign nor a letter. */
  lemma UnsignedClock(h: nat, m: nat)
    ensures var t := Pad2(h) + ":" + Pad2(m);
            forall i | 0 <= i < |t| :: t[i] != '+' && t[i] != '-' && t[i] != 'Z' && t[i] != 'T'
  {
    var t := Pad2(h) + ":" + Pad2(m);
    forall i | 0 <= i < |t| ensures t[i] != '+' && t[i] != '-' && t[i] != 'Z' && t[i] != 'T' {
      if i < |Pad2(h)| { assert t[i] == Pad2(h)[i]; }
      else if i > |Pad2(h)| { assert t[i] == Pad2(m)[i - |Pad2(h)| - 1]; }
    }
  }

  lemma {:induction false} OffsetStartPrefix(t: string, k: nat)
    requires k < |t| && (t[k] == '+' || t[k] == '-')
    requires forall i | 0 <= i < k :: t[i] != '+' && t[i] != '-'
    ensures OffsetStart(t) == k
    decreases k
  {
    if k > 0 {
      OffsetStartPrefix(t[1..], k - 1);
    }
  }

  /** A date that `fromisoformat` refuses is shown as typed: "2024-05-15 garbage" stays as it is. */
  lemma FormatIsoToDisplayKeepsGarbage(iso: string, default: string)
    requires 'T' !in iso && |iso| > 12 && !(IsDigit(iso[11]) && IsDigit(iso[12]))
    ensures FormatIsoToDisplay(iso, default) == iso
  {
    TrailingTextRefused(iso);
  }

  const Weekdays: seq<string> :=
    ["понедельник", "вторник", "среда", "четверг", "пятница", "суббота", "воскресенье"]

  /** `format_date_label`: "DD.MM (weekday)", or "DD.MM.YYYY (weekday)" with the year. */
  function FormatDateLabel(d: Date, includeYear: bool): (text: string)
    requires ValidDate(d)
    ensures includeYear ==> text == DisplayDate(d) + " (" + Weekdays[Weekday(d)] + ")"
    ensures !includeYear ==> text == Pad2(d.day) + "." + Pad2(d.month) + " (" + Weekdays[Weekday(d)] + ")"
  {
    var dateStr := if includeYear then DisplayDate(d) else Pad2(d.day) + "." + Pad2(d.month);
    dateStr + " (" + Weekdays[Weekday(d)] + ")"
  }

  /** The label of 1 January 2024 names Monday. */
  lemma FormatDateLabelMonday()
    ensures FormatDateLabel(Date(2024, 1, 1), false) == "01.01 (понедельник)"
  {
    MondayAnchor();
  }
}
