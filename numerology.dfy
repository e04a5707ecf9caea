/**
 * Numerology arithmetic shared by the bot's calculator modules: digit sums,
 * reduction to a single digit that stops at a set of "master" numbers, and
 * the "DD.MM.YYYY" strings the calculators read.
 */
module Numerology {
  import opened Wrappers
  import opened Strings
  import Calendar

  /** `sum(int(d) for d in s)` for a string of decimal digits. */
  function DigitSum(s: string): (n: nat)
    requires IsAllDigits(s)
    ensures n <= 9 * |s|
    decreases |s|
  {
    if s == [] then 0 else DigitSum(s[..|s| - 1]) + DigitValue(s[|s| - 1])
  }

  /** Digit sums add up over concatenation. */
  lemma {:induction false} DigitSumConcat(a: string, b: string)
    requires IsAllDigits(a) && IsAllDigits(b)
    ensures IsAllDigits(a + b)
    ensures DigitSum(a + b) == DigitSum(a) + DigitSum(b)
    decreases |b|
  {
    var s := a + b;
    assert IsAllDigits(s) by {
      forall i | 0 <= i < |s| ensures IsDigit(s[i]) {
        if i >= |a| { assert s[i] == b[i - |a|]; }
      }
    }
    if b == [] {
      assert s == a;
    } else {
      var init := b[..|b| - 1];
      assert s[..|s| - 1] == a + init;
      assert s[|s| - 1] == b[|b| - 1];
      DigitSumConcat(a, init);
    }
  }

  /** A digit sum is congruent to the number the digits spell, modulo 9. */
  lemma {:induction false} DigitSumMod9(s: string)
    requires IsAllDigits(s)
    ensures DigitSum(s) % 9 == DigitsToNat(s) % 9
    decreases |s|
  {
    if s != [] {
      var init := s[..|s| - 1];
      DigitSumMod9(init);
      var x := DigitsToNat(init);
      var d := DigitValue(s[|s| - 1]);
      assert DigitsToNat(s) == 9 * x + (x + d);
      assert DigitSum(s) == DigitSum(init) + d;
      AddMod9(DigitSum(init), x, d);
    }
  }

  /** Adding the same amount keeps two numbers congruent modulo 9, and so does adding nine times one of them. */
  lemma AddMod9(a: int, x: int, d: int)
    requires a % 9 == x % 9
    ensures (a + d) % 9 == (9 * x + (x + d)) % 9
  {
    var r := a % 9;
    assert a + d == 9 * (a / 9) + (r + d);
    assert 9 * x + (x + d) == 9 * (x + x / 9) + (r + d);
    MultipleOf9(a / 9, r + d);
    MultipleOf9(x + x / 9, r + d);
  }

  lemma MultipleOf9(q: int, r: int)
    ensures (9 * q + r) % 9 == r % 9
  {
  }

  /** `sum(int(d) for d in str(n))`. */
  function SumOfDigits(n: nat): nat
  {
    DigitSum(NatToString(n))
  }

  lemma SumOfDigitsStep(n: nat)
    requires n >= 10
    ensures SumOfDigits(n) == SumOfDigits(n / 10) + n % 10
  {
    var prefix := NatToString(n / 10);
    var s := NatToString(n);
    assert s == prefix + [DigitChar(n % 10)];
    assert s[..|s| - 1] == prefix;
  }

  /** The digit sum never exceeds the number, is smaller from 10 on, and is positive for a positive number. */
  lemma {:induction false} SumOfDigitsBound(n: nat)
    ensures SumOfDigits(n) <= n
    ensures n >= 10 ==> SumOfDigits(n) < n
    ensures n >= 1 ==> SumOfDigits(n) >= 1
    ensures SumOfDigits(n) % 9 == n % 9
    ensures n < 10 ==> SumOfDigits(n) == n
    decreases n
  {
    DigitSumMod9(NatToString(n));
    if n < 10 {
      assert NatToString(n) == [DigitChar(n)];
      assert DigitSum(NatToString(n)) == DigitSum([]) + n by {
        assert NatToString(n)[..0] == [];
      }
    } else {
      SumOfDigitsStep(n);
      SumOfDigitsBound(n / 10);
    }
  }

  /**
   * The value `reduce_number` converges to: digits are summed while the
   * number is above 9 and not one of `stops`.
   */
  function Reduced(n: int, stops: set<int>): (r: int)
    ensures r <= 9 || r in stops
    ensures r <= n
    ensures n >= 1 ==> r >= 1
    decreases n
  {
    if n > 9 && n !in stops then
      SumOfDigitsBound(n);
      Reduced(SumOfDigits(n), stops)
    else n
  }

  /** Numbers already at most 9, and the stop numbers, are left as they are. */
  lemma ReducedFixedPoint(n: int, stops: set<int>)
    requires n <= 9 || n in stops
    ensures Reduced(n, stops) == n
  {
  }

  /** Reduction never changes the residue modulo 9. */
  lemma {:induction false} ReducedCongruent(n: int, stops: set<int>)
    requires n >= 0
    ensures Reduced(n, stops) % 9 == n % 9
    decreases n
  {
    if n > 9 && n !in stops {
      SumOfDigitsBound(n);
      ReducedCongruent(SumOfDigits(n), stops);
    }
  }

  /** With no stop numbers, reduction is the classical digital root. */
  lemma DigitalRoot(n: int)
    requires n >= 1
    ensures Reduced(n, {}) == 1 + (n - 1) % 9
  {
    ReducedCongruent(n, {});
    RootFromResidue(n, Reduced(n, {}));
  }

  /** The only number from 1 to 9 with the same remainder mod 9 as `n`. */
  lemma RootFromResidue(n: int, r: int)
    requires n >= 1 && 1 <= r <= 9 && r % 9 == n % 9
    ensures r == 1 + (n - 1) % 9
  {
    var q := (n - 1) / 9;
    var m := (n - 1) % 9;
    assert n == 9 * q + m + 1 && 0 <= m < 9;
    assert (m + 1) % 9 == n % 9;
    if r == 9 {
      assert n % 9 == 0;
    }
  }

  /** `reduce_number`: digit sums replace the number while it is above 9 and not a stop number. */
  method ReduceNumber(number: int, stops: set<int>) returns (r: int)
    ensures r == Reduced(number, stops)
  {
    r := number;
    while r > 9 && r !in stops
      invariant Reduced(r, stops) == Reduced(number, stops)
      decreases r
    {
      SumOfDigitsBound(r);
      r := SumOfDigits(r);
    }
  }

  /** `day, month, year = map(int, s.split("."))`: exactly three fields, each an int. */
  function ParseDMY(s: string): (r: Option<(int, int, int)>)
    ensures |Split(s, '.')| != 3 ==> r.None?
    ensures r.Some? ==> var parts := Split(s, '.');
              ParseInt(parts[0]) == Some(r.value.0) && ParseInt(parts[1]) == Some(r.value.1)
              && ParseInt(parts[2]) == Some(r.value.2)
  {
    var parts := Split(s, '.');
    if |parts| != 3 then None
    else
      match (ParseInt(parts[0]), ParseInt(parts[1]), ParseInt(parts[2]))
      case (Some(d), Some(m), Some(y)) => Some((d, m, y))
      case _ => None
  }

  /** "DD.MM.YYYY" as the bot writes a date. */
  function DisplayDMY(day: nat, month: nat, year: nat): string
  {
    Pad2(day) + "." + Pad2(month) + "." + NatToString(year)
  }

  lemma NoDotInDigits(s: string)
    requires IsAllDigits(s)
    ensures '.' !in s
  {
    forall i | 0 <= i < |s| ensures s[i] != '.' {
      assert IsDigit(s[i]);
    }
  }

  /** Parsing a date written as "DD.MM.YYYY" gives back its three numbers. */
  lemma ParseDisplayDMY(day: nat, month: nat, year: nat)
    ensures ParseDMY(DisplayDMY(day, month, year)) == Some((day as int, month as int, year as int))
  {
    var a, b, c := Pad2(day), Pad2(month), NatToString(year);
    NoDotInDigits(a);
    NoDotInDigits(b);
    NoDotInDigits(c);
    var parts := [a, b, c];
    assert Join(".", parts) == DisplayDMY(day, month, year) by {
      assert parts[1..] == [b, c];
      assert parts[1..][1..] == [c];
      assert Join(".", [c]) == c;
      assert Join(".", [b, c]) == b + "." + c;
      assert Join(".", parts) == a + "." + (b + "." + c);
    }
    SplitOfJoin(parts, '.');
    ParseDigits(a);
    ParseDigits(b);
    ParseDigits(c);
  }

  /**
   * The digits `f"{day:02d}{month:02d}{year}"` spells, or None when a
   * component is negative: its '-' makes `int` fail on that character.
   */
  function DateDigits(day: int, month: int, year: int): (r: Option<string>)
    ensures r.Some? <==> day >= 0 && month >= 0 && year >= 0
    ensures r.Some? ==> IsAllDigits(r.value) && |r.value| >= 5
  {
    if day < 0 || month < 0 || year < 0 then None
    else
      DigitSumConcat(Pad2(day), Pad2(month));
      DigitSumConcat(Pad2(day) + Pad2(month), NatToString(year));
      Some(Pad2(day) + Pad2(month) + NatToString(year))
  }

  /** The date digits sum to the digit sums of day, month and year. */
  lemma DateDigitSum(day: nat, month: nat, year: nat)
    ensures DateDigits(day, month, year).Some?
    ensures DigitSum(DateDigits(day, month, year).value)
            == DigitSum(Pad2(day)) + DigitSum(Pad2(month)) + SumOfDigits(year)
  {
    DigitSumConcat(Pad2(day), Pad2(month));
    DigitSumConcat(Pad2(day) + Pad2(month), NatToString(year));
  }

  /** A two-digit field sums its tens and its units. */
  lemma DigitSumPad2(n: nat)
    requires n < 100
    ensures DigitSum(Pad2(n)) == n / 10 + n % 10
  {
    if n < 10 {
      var s := Pad2(n);
      assert s[..1][..0] == [];
      assert DigitSum(s[..1]) == 0;
    } else {
      SumOfDigitsStep(n);
      SumOfDigitsBound(n / 10);
    }
  }

  /** A four-digit year sums its four digits. */
  lemma SumOfFourDigits(y: nat)
    requires 1000 <= y <= 9999
    ensures SumOfDigits(y) == y / 1000 + (y / 100) % 10 + (y / 10) % 10 + y % 10
  {
    var a, b, c := y / 10, y / 100, y / 1000;
    assert a / 10 == b && b / 10 == c;
    SumOfDigitsStep(y);
    SumOfDigitsStep(a);
    SumOfDigitsStep(b);
    SumOfDigitsBound(c);
  }

  /** The date digits are congruent to day + month + year modulo 9. */
  lemma DateDigitSumMod9(day: nat, month: nat, year: nat)
    ensures DateDigits(day, month, year).Some?
    ensures DigitSum(DateDigits(day, month, year).value) % 9 == (day + month + year) % 9
  {
    DateDigitSum(day, month, year);
    DigitSumMod9(Pad2(day));
    DigitSumMod9(Pad2(month));
    SumOfDigitsBound(year);
    SumMod9(DigitSum(Pad2(day)), DigitSum(Pad2(month)), SumOfDigits(year), day, month, year);
  }

  lemma SumMod9(a: int, b: int, c: int, x: int, y: int, z: int)
    requires a % 9 == x % 9 && b % 9 == y % 9 && c % 9 == z % 9
    ensures (a + b + c) % 9 == (x + y + z) % 9
  {
  }

  /** `validate_date`: a chain of range checks on the three parsed numbers. */
  predicate ValidateDate(s: string)
  {
    match ParseDMY(s)
    case None => false
    case Some((day, month, year)) => RangeChecks(day, month, year)
  }

  /** The checks accept exactly the real calendar dates of the years 1900 to 2100. */
  lemma ValidateDateIsCalendar(s: string)
    ensures ValidateDate(s) <==>
              ParseDMY(s).Some? && 1900 <= ParseDMY(s).value.2 <= 2100
              && Calendar.ValidDate(Calendar.Date(ParseDMY(s).value.2, ParseDMY(s).value.1, ParseDMY(s).value.0))
  {
    var p := ParseDMY(s);
    if p.Some? {
      var (day, month, year) := p.value;
      assert ValidateDate(s) <==> RangeChecks(day, month, year);
    }
  }

  /** The range checks of `validate_date` on parsed numbers. */
  predicate RangeChecks(day: int, month: int, year: int)
  {
    if year < 1900 || year > 2100 then false
    else if month < 1 || month > 12 then false
    else if day < 1 || day > 31 then false
    else if month in {4, 6, 9, 11} && day > 30 then false
    else if month == 2 then
      if year % 4 == 0 && (year % 100 != 0 || year % 400 == 0) then day <= 29 else day <= 28
    else true
  }
}

/**
 * The calculators of the shared package: life path, soul, name and daily
 * numbers (all reduced with the configured master numbers), and the
 * affirmation history kept per user.
 */
module SharedCalculations {
  import opened Wrappers
  import opened Strings
  import opened Slices
  import opened Numerology

  /** `calculate_life_path_number`: the reduced digit sum of the date; 0 when the text is not a usable date. */
  function LifePathNumber(birthDate: string, masters: set<int>): (r: int)
    ensures r >= 0 && (r <= 9 || r in masters)
    ensures ParseDMY(birthDate).None? ==> r == 0
  {
    match ParseDMY(birthDate)
    case None => 0
    case Some((day, month, year)) =>
      match DateDigits(day, month, year)
      case None => 0
      case Some(digits) => Reduced(DigitSum(digits), masters)
  }

  /** The life path, master numbers included, is congruent to day + month + year modulo 9. */
  lemma LifePathCongruent(birthDate: string, masters: set<int>, d: int, m: int, y: int)
    requires ParseDMY(birthDate) == Some((d, m, y))
    requires d >= 0 && m >= 0 && y >= 0
    ensures LifePathNumber(birthDate, masters) % 9 == (d + m + y) % 9
  {
    DateDigitSumMod9(d, m, y);
    var total := DigitSum(DateDigits(d, m, y).value);
    assert LifePathNumber(birthDate, masters) == Reduced(total, masters);
    ReducedCongruent(total, masters);
  }

  /** A date the validator accepts has a life path of at least 1. */
  lemma LifePathOfValidDate(birthDate: string, masters: set<int>)
    requires ValidateDate(birthDate)
    ensures LifePathNumber(birthDate, masters) >= 1
  {
    var (d, m, y) := ParseDMY(birthDate).value;
    assert d >= 1 && m >= 1 && y >= 1;
    LifePathOfPositiveParts(d, m, y, masters);
  }

  /** With positive fields, the reduced digit sum of the date is at least 1. */
  lemma LifePathOfPositiveParts(d: int, m: int, y: int, masters: set<int>)
    requires d >= 1 && m >= 1 && y >= 1
    ensures DateDigits(d, m, y).Some? && Reduced(DigitSum(DateDigits(d, m, y).value), masters) >= 1
  {
    DateDigitSum(d, m, y);
    SumOfDigitsBound(y);
  }

  /** `calculate_soul_number`: the day, reduced; 0 when the text is not three integers. */
  function SoulNumber(birthDate: string, masters: set<int>): (r: int)
    ensures r <= 9 || r in masters
    ensures ParseDMY(birthDate).None? ==> r == 0
    ensures ParseDMY(birthDate).Some? ==> r <= ParseDMY(birthDate).value.0
    ensures ValidateDate(birthDate) ==> r >= 1
  {
    match ParseDMY(birthDate)
    case None => 0
    case Some((day, _, _)) => Reduced(day, masters)
  }

  /** `calculate_daily_number`: the life-path rule applied to the given date, or to today's date when none is given. */
  function DailyNumber(date: Option<string>, today: string, masters: set<int>): (r: int)
    ensures r >= 0 && (r <= 9 || r in masters)
    ensures ParseDMY(if date.Some? then date.value else today).None? ==> r == 0
  {
    LifePathNumber(if date.Some? then date.value else today, masters)
  }

  /** The letter values of a name added up; characters without a value count 0. */
  function LetterSum(name: string, values: map<char, int>): int
    decreases |name|
  {
    if name == [] then 0
    else
      var c := name[|name| - 1];
      LetterSum(name[..|name| - 1], values) + (if c in values then values[c] else 0)
  }

  lemma {:induction false} UnmappedNameSumsToZero(name: string, values: map<char, int>)
    requires forall i | 0 <= i < |name| :: name[i] !in values
    ensures LetterSum(name, values) == 0
    decreases |name|
  {
    if name != [] {
      UnmappedNameSumsToZero(name[..|name| - 1], values);
    }
  }

  /** With positive letter values, a name holding a valued character has a positive sum. */
  lemma {:induction false} MappedNameSumsPositive(name: string, values: map<char, int>)
    requires forall c | c in values :: values[c] >= 1
    requires exists i | 0 <= i < |name| :: name[i] in values
    ensures LetterSum(name, values) >= 1
    decreases |name|
  {
    var c := name[|name| - 1];
    var init := name[..|name| - 1];
    LetterSumNonNegative(init, values);
    if c !in values {
      var i :| 0 <= i < |name| && name[i] in values;
      assert init[i] == name[i];
      MappedNameSumsPositive(init, values);
    }
  }

  lemma {:induction false} LetterSumNonNegative(name: string, values: map<char, int>)
    requires forall c | c in values :: values[c] >= 1
    ensures LetterSum(name, values) >= 0
    decreases |name|
  {
    if name != [] {
      LetterSumNonNegative(name[..|name| - 1], values);
    }
  }

  /** `calculate_name_number`: the letter values are added up character by character, then reduced. */
  method NameNumber(fullName: string, values: map<char, int>, masters: set<int>) returns (r: int)
    ensures fullName == [] || LetterSum(fullName, values) == 0 ==> r == 0
    ensures fullName != [] && LetterSum(fullName, values) != 0 ==> r == Reduced(LetterSum(fullName, values), masters)
    ensures r <= 9 || r in masters
  {
    if fullName == [] {
      return 0;
    }
    var total := 0;
    var i := 0;
    while i < |fullName|
      invariant 0 <= i <= |fullName|
      invariant total == LetterSum(fullName[..i], values)
    {
      var c := fullName[i];
      assert fullName[..i + 1][..i] == fullName[..i];
      if c in values {
        total := total + values[c];
      }
      i := i + 1;
    }
    assert fullName[..i] == fullName;
    if total == 0 {
      return 0;
    }
    r := ReduceNumber(total, masters);
  }

  /** A history entry as stored after normalisation. */
  datatype HistoryEntry = HistoryEntry(number: Option<int>, text: string, date: Option<string>)

  /** A raw stored history item: a record (with or without a "text" key), a bare string, or anything else. */
  datatype RawItem =
    | RawRecord(hasText: bool, number: Option<int>, text: string, date: Option<string>)
    | RawText(s: string)
    | RawOther

  function NormalizeItem(item: RawItem): Option<HistoryEntry>
  {
    match item
    case RawRecord(hasText, number, text, date) => if hasText then Some(HistoryEntry(number, text, date)) else None
    case RawText(s) => Some(HistoryEntry(None, s, None))
    case RawOther => None
  }

  /** The items that normalise, normalised, in their order. */
  function KeepNormalized(items: seq<RawItem>): (r: seq<HistoryEntry>)
    ensures |r| <= |items|
    ensures forall e | e in r :: exists i | 0 <= i < |items| :: NormalizeItem(items[i]) == Some(e)
    ensures (forall i | 0 <= i < |items| :: NormalizeItem(items[i]).Some?) ==> |r| == |items|
    decreases |items|
  {
    if items == [] then []
    else
      var rest := KeepNormalized(items[1..]);
      forall e | e in rest ensures exists i | 0 <= i < |items| :: NormalizeItem(items[i]) == Some(e) {
        var j :| 0 <= j < |items[1..]| && NormalizeItem(items[1..][j]) == Some(e);
        assert NormalizeItem(items[j + 1]) == Some(e);
      }
      match NormalizeItem(items[0])
      case Some(e) => [e] + rest
      case None => rest
  }

  /** Each raw item normalised in place, None where it is dropped. */
  function Normalized(items: seq<RawItem>): (opts: seq<Option<HistoryEntry>>)
    ensures |opts| == |items| && forall i | 0 <= i < |items| :: opts[i] == NormalizeItem(items[i])
  {
    seq(|items|, i requires 0 <= i < |items| => NormalizeItem(items[i]))
  }

  /** Keeping the items that normalise is keeping the present options of `Normalized`. */
  lemma {:induction false} KeepNormalizedIsPresent(items: seq<RawItem>)
    ensures KeepNormalized(items) == Present(Normalized(items))
    decreases |items|
  {
    if items == [] {
      assert Normalized(items) == [];
    } else {
      KeepNormalizedIsPresent(items[1..]);
      assert Normalized(items) == [NormalizeItem(items[0])] + Normalized(items[1..]);
      PresentCons(NormalizeItem(items[0]), Normalized(items[1..]));
    }
  }

  /**
   * The kept entries keep the items' order: the listed positions strictly
   * increase, a position is listed exactly when its item normalises, and
   * the k-th kept entry is the normalised item at the k-th listed position.
   * So the last kept entry, which `get_affirmation` reads as the latest,
   * comes from the last item that normalises.
   */
  lemma KeepNormalizedInOrder(items: seq<RawItem>)
    ensures var r := KeepNormalized(items);
            var idx := PresentIndices(Normalized(items));
            |r| == |idx| &&
            (forall k, l | 0 <= k < l < |idx| :: idx[k] < idx[l]) &&
            (forall i | 0 <= i < |items| :: i in idx <==> NormalizeItem(items[i]).Some?) &&
            (forall k | 0 <= k < |idx| :: NormalizeItem(items[idx[k]]) == Some(r[k]))
  {
    KeepNormalizedIsPresent(items);
    PresentIndicesExact(Normalized(items));
    PresentExact(Normalized(items));
  }

  /**
   * `_normalize_affirmation_history`: of the last ten raw items, records
   * with a text and bare strings are kept; a history that is not a list
   * (None here) counts as empty.
   */
  function NormalizeHistory(raw: Option<seq<RawItem>>): (h: seq<HistoryEntry>)
    ensures |h| <= 10
    ensures raw.None? ==> h == []
    ensures raw.Some? ==> var recent := SliceFrom(raw.value, -10);
              (forall e | e in h :: exists i | 0 <= i < |recent| :: NormalizeItem(recent[i]) == Some(e))
              && ((forall i | 0 <= i < |recent| :: NormalizeItem(recent[i]).Some?) ==> |h| == |recent|)
  {
    var items := if raw.Some? then raw.value else [];
    var kept := KeepNormalized(SliceFrom(items, -10));
    var h := SliceFrom(kept, -10);
    assert h == kept;
    h
  }

  function AsRaw(h: seq<HistoryEntry>): (raw: seq<RawItem>)
    ensures |raw| == |h|
    ensures forall i | 0 <= i < |h| :: raw[i] == RawRecord(true, h[i].number, h[i].text, h[i].date)
  {
    if h == [] then [] else [RawRecord(true, h[0].number, h[0].text, h[0].date)] + AsRaw(h[1..])
  }

  /** A normalised history of at most ten entries, stored back, normalises to itself. */
  lemma {:induction false} NormalizeIdempotent(h: seq<HistoryEntry>)
    requires |h| <= 10
    ensures NormalizeHistory(Some(AsRaw(h))) == h
  {
    KeepOfNormalized(h);
    assert SliceFrom(AsRaw(h), -10) == AsRaw(h);
  }

  lemma {:induction false} KeepOfNormalized(h: seq<HistoryEntry>)
    ensures KeepNormalized(AsRaw(h)) == h
    decreases |h|
  {
    if h != [] {
      assert AsRaw(h)[1..] == AsRaw(h[1..]);
      KeepOfNormalized(h[1..]);
    }
  }

  /** `[a for a in affirmations if a not in seen]`. */
  function Unseen(affirmations: seq<string>, seen: set<string>): (r: seq<string>)
    ensures forall a :: a in r <==> a in affirmations && a !in seen
    decreases |affirmations|
  {
    if affirmations == [] then []
    else (if affirmations[0] in seen then [] else [affirmations[0]]) + Unseen(affirmations[1..], seen)
  }

  /** The non-empty texts of the last ten entries. */
  function HistoryTexts(h: seq<HistoryEntry>): set<string>
  {
    set e | e in SliceFrom(h, -10) && e.text != "" :: e.text
  }

  function CountOnDate(h: seq<HistoryEntry>, today: string): (n: nat)
    ensures n <= |h|
    ensures n == 0 <==> forall i | 0 <= i < |h| :: h[i].date != Some(today)
    decreases |h|
  {
    if h == [] then 0
    else (if h[0].date == Some(today) then 1 else 0) + CountOnDate(h[1..], today)
  }

  const DefaultAffirmations: seq<string> := [
    "Я принимаю себя и доверяю процессу жизни",
    "Каждый день я становлюсь лучше и счастливее",
    "Я открыт для чудес и возможностей вселенной",
    "Моя жизнь наполнена радостью и гармонией"
  ]

  datatype AffirmationResult = AffirmationResult(
    number: int,
    text: string,
    date: Option<string>,
    isNew: bool,
    isPremiumUser: bool,
    generatedToday: int,
    history: seq<HistoryEntry>,
    wasForced: bool)

  /** The result of a failure anywhere in the selection: number 0 and one of the default texts. */
  function Fallback(pick: nat): (r: AffirmationResult)
    ensures r.number == 0 && r.text in DefaultAffirmations && r.date.None? && r.history == [] && !r.wasForced
  {
    AffirmationResult(0, Pick(DefaultAffirmations, pick), None, true, false, 1, [], false)
  }

  /** What `get_affirmation` returns and the history it leaves in the user's record. */
  datatype AffirmationCall = AffirmationCall(result: AffirmationResult, stored: seq<HistoryEntry>)

  /** True when the latest normalised entry is dated today. */
  predicate ServedToday(h: seq<HistoryEntry>, today: string)
  {
    h != [] && h[|h| - 1].date == Some(today)
  }

  /**
   * `get_affirmation` for a known user. `numbers` lists the affirmation
   * table's items (number and texts); the three picks stand in for the
   * random draws.
   */
  function UserAffirmation(
    rawHistory: Option<seq<RawItem>>, isPremium: bool, forceNew: bool, today: string,
    numbers: seq<(int, seq<string>)>, keyPick: nat, textPick: nat, fallbackPick: nat): (c: AffirmationCall)
    ensures |c.stored| <= 10
    ensures c.result.wasForced ==> forceNew && isPremium
    // Without an effective forced refresh, today's entry is served again and nothing is stored.
    ensures !(forceNew && isPremium) && ServedToday(NormalizeHistory(rawHistory), today) ==>
              var h := NormalizeHistory(rawHistory);
              c.stored == h && !c.result.isNew && c.result.text == h[|h| - 1].text && c.result.generatedToday >= 1
    // A failure leaves the normalised history and answers with a default text.
    ensures c.result.date.None? ==>
              c.stored == NormalizeHistory(rawHistory) && c.result.number == 0 && c.result.text in DefaultAffirmations
    // A new text is appended, dated today, and the history keeps its last ten entries.
    ensures c.result.isNew && c.result.date.Some? ==>
              var h := NormalizeHistory(rawHistory);
              numbers != [] && c.result.date == Some(today) && c.result.number == Pick(numbers, keyPick).0
              && c.result.text in Pick(numbers, keyPick).1
              && c.stored == SliceFrom(h + [HistoryEntry(Some(c.result.number), c.result.text, Some(today))], -10)
              && c.result.history == c.stored
              && c.result.generatedToday == CountOnDate(h, today) + 1
    // The new text repeats none of the recent ones unless every candidate was used.
    ensures c.result.isNew && c.result.date.Some? ==>
              c.result.text !in HistoryTexts(NormalizeHistory(rawHistory))
              || forall a | a in Pick(numbers, keyPick).1 :: a in HistoryTexts(NormalizeHistory(rawHistory))
  {
    var history := NormalizeHistory(rawHistory);
    var generated := CountOnDate(history, today);
    var force := forceNew && isPremium;
    if !force && ServedToday(history, today) then
      var last := history[|history| - 1];
      var number := if last.number.Some? then last.number.value else 0;
      AffirmationCall(
        AffirmationResult(number, last.text, last.date, false, isPremium, if generated == 0 then 1 else generated, history, false),
        history)
    else DrawAffirmation(history, isPremium, force, today, numbers, keyPick, textPick, fallbackPick)
  }

  /** The drawing part of `get_affirmation`, on the normalised history. */
  function DrawAffirmation(
    history: seq<HistoryEntry>, isPremium: bool, force: bool, today: string,
    numbers: seq<(int, seq<string>)>, keyPick: nat, textPick: nat, fallbackPick: nat): (c: AffirmationCall)
    ensures |history| <= 10 ==> |c.stored| <= 10
    ensures c.result.wasForced ==> force
    ensures c.result.date.None? ==>
              c.stored == history && c.result.number == 0 && c.result.text in DefaultAffirmations
    ensures c.result.isNew && c.result.date.Some? ==>
              numbers != [] && c.result.date == Some(today) && c.result.number == Pick(numbers, keyPick).0
              && c.result.text in Pick(numbers, keyPick).1
              && c.stored == SliceFrom(history + [HistoryEntry(Some(c.result.number), c.result.text, Some(today))], -10)
              && c.result.history == c.stored
              && c.result.generatedToday == CountOnDate(history, today) + 1
    ensures c.result.isNew && c.result.date.Some? ==>
              c.result.text !in HistoryTexts(history)
              || forall a | a in Pick(numbers, keyPick).1 :: a in HistoryTexts(history)
    ensures c.result.date.Some? ==> c.result.isNew
  {
    if numbers == [] then AffirmationCall(Fallback(fallbackPick), history)
    else
      var (number, affirmations) := Pick(numbers, keyPick);
      if affirmations == [] then AffirmationCall(Fallback(fallbackPick), history)
      else
        var chosen := ChooseUnseen(affirmations, HistoryTexts(history), textPick);
        var updated := SliceFrom(history + [HistoryEntry(Some(number), chosen, Some(today))], -10);
        AffirmationCall(
          AffirmationResult(number, chosen, Some(today), true, isPremium, CountOnDate(history, today) + 1, updated, force),
          updated)
  }

  /** An unseen text when there is one, otherwise any text. */
  function ChooseUnseen(affirmations: seq<string>, seen: set<string>, pick: nat): (chosen: string)
    requires affirmations != []
    ensures chosen in affirmations
    ensures chosen !in seen || forall a | a in affirmations :: a in seen
  {
    var available := Unseen(affirmations, seen);
    if available != [] then Pick(available, pick) else Pick(affirmations, pick)
  }

  /** The served history always ends with the text just served when a new one was drawn. */
  lemma NewTextIsLatest(
    rawHistory: Option<seq<RawItem>>, isPremium: bool, forceNew: bool, today: string,
    numbers: seq<(int, seq<string>)>, keyPick: nat, textPick: nat, fallbackPick: nat)
    requires forceNew && isPremium && numbers != [] && Pick(numbers, keyPick).1 != []
    ensures var c := UserAffirmation(rawHistory, isPremium, forceNew, today, numbers, keyPick, textPick, fallbackPick);
            c.result.isNew && c.result.wasForced && c.stored != []
            && c.stored[|c.stored| - 1] == HistoryEntry(Some(c.result.number), c.result.text, Some(today))
  {
    var h := NormalizeHistory(rawHistory);
    assert UserAffirmation(rawHistory, isPremium, forceNew, today, numbers, keyPick, textPick, fallbackPick)
        == DrawAffirmation(h, isPremium, true, today, numbers, keyPick, textPick, fallbackPick);
    DrawnIsLatest(h, isPremium, today, numbers, keyPick, textPick, fallbackPick);
  }

  lemma DrawnIsLatest(
    h: seq<HistoryEntry>, isPremium: bool, today: string,
    numbers: seq<(int, seq<string>)>, keyPick: nat, textPick: nat, fallbackPick: nat)
    requires numbers != [] && Pick(numbers, keyPick).1 != []
    ensures var c := DrawAffirmation(h, isPremium, true, today, numbers, keyPick, textPick, fallbackPick);
            c.result.isNew && c.result.wasForced && c.stored != []
            && c.stored[|c.stored| - 1] == HistoryEntry(Some(c.result.number), c.result.text, Some(today))
  {
    var c := DrawAffirmation(h, isPremium, true, today, numbers, keyPick, textPick, fallbackPick);
    var s := h + [HistoryEntry(Some(c.result.number), c.result.text, Some(today))];
    assert c.stored == SliceFrom(s, -10) && |c.stored| >= 1;
    assert c.stored[|c.stored| - 1] == s[|s| - 1];
  }

  /** `get_affirmation` without a user: any number, any of its texts, an empty history. */
  function AnonymousAffirmation(today: string, numbers: seq<(int, seq<string>)>, keyPick: nat, textPick: nat, fallbackPick: nat)
    : (r: AffirmationResult)
    ensures r.history == [] && !r.wasForced && !r.isPremiumUser && r.isNew
    ensures r.date.Some? ==> numbers != [] && r.number == Pick(numbers, keyPick).0 && r.text in Pick(numbers, keyPick).1
    ensures r.date.None? ==> r.number == 0 && r.text in DefaultAffirmations
  {
    if numbers == [] || Pick(numbers, keyPick).1 == [] then Fallback(fallbackPick)
    else
      var (number, affirmations) := Pick(numbers, keyPick);
      AffirmationResult(number, Pick(affirmations, textPick), Some(today), true, false, 1, [], false)
  }
}

/**
 * The calculators of the bot's first version: the reduction loops are
 * written inline, with 11, 22 and 33 kept only by the life-path number.
 */
module RootCalculations {
  import opened Wrappers
  import opened Strings
  import opened Numerology
  import SharedCalculations

  const MasterNumbers: set<int> := {11, 22, 33}

  /** The life path: the date's digit sum, reduced while above 9 and not 11, 22 or 33. */
  method LifePathNumber(birthDate: string) returns (r: int)
    ensures r == SharedCalculations.LifePathNumber(birthDate, MasterNumbers)
    ensures r in {0, 1, 2, 3, 4, 5, 6, 7, 8, 9, 11, 22, 33}
  {
    var parsed := ParseDMY(birthDate);
    if parsed.None? {
      return 0;
    }
    var (day, month, year) := parsed.value;
    var digits := DateDigits(day, month, year);
    if digits.None? {
      return 0;
    }
    r := ReduceNumber(DigitSum(digits.value), MasterNumbers);
    assert r == SharedCalculations.LifePathNumber(birthDate, MasterNumbers);
    DigitOrMaster(r);
  }

  /** A value from 0 to 9 or a master number is one of the life-path values. */
  lemma DigitOrMaster(r: int)
    requires r >= 0 && (r <= 9 || r in MasterNumbers)
    ensures r in {0, 1, 2, 3, 4, 5, 6, 7, 8, 9, 11, 22, 33}
  {
  }

  /** The soul number: the day, reduced while above 9 (no master numbers). */
  method SoulNumber(birthDate: string) returns (r: int)
    ensures r == SharedCalculations.SoulNumber(birthDate, {})
    ensures r <= 9
    ensures ValidateDate(birthDate) ==> 1 <= r <= 9
  {
    var parsed := ParseDMY(birthDate);
    if parsed.None? {
      return 0;
    }
    r := ReduceNumber(parsed.value.0, {});
  }

  /** The daily number: the date's digit sum reduced while above 9; today's date when none is given. */
  method DailyNumber(date: Option<string>, today: string) returns (r: int)
    ensures r == SharedCalculations.DailyNumber(date, today, {})
    ensures 0 <= r <= 9
  {
    var s := if date.Some? then date.value else today;
    var parsed := ParseDMY(s);
    if parsed.None? {
      return 0;
    }
    var (day, month, year) := parsed.value;
    var digits := DateDigits(day, month, year);
    if digits.None? {
      return 0;
    }
    r := ReduceNumber(DigitSum(digits.value), {});
  }

  /** For a date the validator accepts, the daily number is a single digit from 1 to 9. */
  lemma DailyNumberOfValidDate(date: string, today: string)
    requires ValidateDate(date)
    ensures 1 <= SharedCalculations.DailyNumber(Some(date), today, {}) <= 9
  {
    SharedCalculations.LifePathOfValidDate(date, {});
  }

  /** The unit tests' life-path expectations: 15.05.1990 gives 3, 01.01.2000 gives 4, 31.12.1999 gives 8. */
  lemma LifePathExample1990()
    ensures SharedCalculations.LifePathNumber("15.05.1990", MasterNumbers) == 3
  {
    LifePathOf("15.05.1990", 15, 5, 1990, 30, 3);
  }

  lemma LifePathExample2000()
    ensures SharedCalculations.LifePathNumber("01.01.2000", MasterNumbers) == 4
  {
    LifePathOf("01.01.2000", 1, 1, 2000, 4, 4);
  }

  lemma LifePathExample1999()
    ensures SharedCalculations.LifePathNumber("31.12.1999", MasterNumbers) == 8
  {
    LifePathOf("31.12.1999", 31, 12, 1999, 35, 8);
  }

  lemma LifePathOf(s: string, day: nat, month: nat, year: nat, total: nat, expected: int)
    requires day < 100 && month < 100 && 1000 <= year <= 9999
    requires s == Spelled(day, month, year)
    requires total == day / 10 + day % 10 + month / 10 + month % 10
                      + year / 1000 + (year / 100) % 10 + (year / 10) % 10 + year % 10
    requires total < 100 && expected == if total < 10 then total else total / 10 + total % 10
    requires expected <= 9 && total !in MasterNumbers
    ensures SharedCalculations.LifePathNumber(s, MasterNumbers) == expected
  {
    SpelledDisplay(day, month, year);
    LifePathExample(day, month, year, s, total);
    if total >= 10 {
      ReduceOnce(total, MasterNumbers);
    }
  }

  /** The unit tests' soul-number expectations: 15.05.1990 gives 6 and 01.01.2000 gives 1. */
  lemma SoulExample1990()
    ensures SharedCalculations.SoulNumber("15.05.1990", {}) == 6
  {
    SoulOf("15.05.1990", 15, 5, 1990, 6);
  }

  lemma SoulExample2000()
    ensures SharedCalculations.SoulNumber("01.01.2000", {}) == 1
  {
    SoulOf("01.01.2000", 1, 1, 2000, 1);
  }

  lemma SoulOf(s: string, day: nat, month: nat, year: nat, expected: int)
    requires day < 100 && month < 100 && 1000 <= year <= 9999
    requires s == Spelled(day, month, year)
    requires expected == if day < 10 then day else day / 10 + day % 10
    requires expected <= 9
    ensures SharedCalculations.SoulNumber(s, {}) == expected
  {
    SpelledIsDisplay(day, month, year);
    if day >= 10 {
      ReduceOnce(day, {});
    }
  }

  lemma ReduceOnce(n: nat, stops: set<int>)
    requires 10 <= n < 100 && n !in stops && n / 10 + n % 10 <= 9
    ensures Reduced(n, stops) == n / 10 + n % 10
  {
    SumOfDigitsStep(n);
    SumOfDigitsBound(n / 10);
  }

  /** A "DD.MM.YYYY" text spelled character by character. */
  function Spelled(day: nat, month: nat, year: nat): string
    requires day < 100 && month < 100 && 1000 <= year <= 9999
  {
    [DigitChar(day / 10), DigitChar(day % 10), '.', DigitChar(month / 10), DigitChar(month % 10), '.',
     DigitChar(year / 1000), DigitChar((year / 100) % 10), DigitChar((year / 10) % 10), DigitChar(year % 10)]
  }

  lemma SpelledIsDisplay(day: nat, month: nat, year: nat)
    requires day < 100 && month < 100 && 1000 <= year <= 9999
    ensures ParseDMY(Spelled(day, month, year)) == Some((day as int, month as int, year as int))
  {
    SpelledDisplay(day, month, year);
    ParseDisplayDMY(day, month, year);
  }

  lemma ParseSpelled(s: string, day: nat, month: nat, year: nat)
    requires day < 100 && month < 100 && 1000 <= year <= 9999
    requires s == Spelled(day, month, year)
    ensures ParseDMY(s) == Some((day as int, month as int, year as int))
  {
    SpelledIsDisplay(day, month, year);
  }

  lemma SpelledDisplay(day: nat, month: nat, year: nat)
    requires day < 100 && month < 100 && 1000 <= year <= 9999
    ensures DisplayDMY(day, month, year) == Spelled(day, month, year)
  {
    Pad2Spelled(day);
    Pad2Spelled(month);
    YearSpelled(year);
  }

  /** A number below 100 is padded to its tens digit and its units digit. */
  lemma Pad2Spelled(n: nat)
    requires n < 100
    ensures Pad2(n) == [DigitChar(n / 10), DigitChar(n % 10)]
  {
    if n >= 10 {
      assert NatToString(n) == NatToString(n / 10) + [DigitChar(n % 10)];
    }
  }

  /** A four-digit year is written digit by digit, thousands first. */
  lemma YearSpelled(year: nat)
    requires 1000 <= year <= 9999
    ensures NatToString(year) == [DigitChar(year / 1000), DigitChar((year / 100) % 10), DigitChar((year / 10) % 10), DigitChar(year % 10)]
  {
    var a, b, c := year / 10, year / 100, year / 1000;
    assert a / 10 == b && b / 10 == c && 1 <= c < 10 && b >= 10 && a >= 10;
    assert NatToString(c) == [DigitChar(c)];
    assert NatToString(b) == NatToString(c) + [DigitChar(b % 10)];
    assert NatToString(a) == NatToString(b) + [DigitChar(a % 10)];
    assert NatToString(year) == NatToString(a) + [DigitChar(year % 10)];
  }

  lemma LifePathExample(day: nat, month: nat, year: nat, s: string, total: nat)
    requires day < 100 && month < 100 && 1000 <= year <= 9999
    requires s == DisplayDMY(day, month, year)
    requires total == day / 10 + day % 10 + month / 10 + month % 10
                      + year / 1000 + (year / 100) % 10 + (year / 10) % 10 + year % 10
    ensures ParseDMY(s) == Some((day as int, month as int, year as int))
    ensures SharedCalculations.LifePathNumber(s, MasterNumbers) == Reduced(total, MasterNumbers)
  {
    ParseDisplayDMY(day, month, year);
    DateDigitSum(day, month, year);
    DigitSumPad2(day);
    DigitSumPad2(month);
    SumOfFourDigits(year);
  }

  /** Dates the unit tests expect the validator to accept. */
  lemma ValidDateExample1990()
    ensures ValidateDate("15.05.1990")
  {
    ParseSpelled("15.05.1990", 15, 5, 1990);
  }

  lemma ValidDateExample2000()
    ensures ValidateDate("01.01.2000")
  {
    ParseSpelled("01.01.2000", 1, 1, 2000);
  }

  /** Dates the unit tests expect the validator to refuse: day 32, month 13, year 1800, and plain text. */
  lemma InvalidDayExample()
    ensures !ValidateDate("32.05.1990")
  {
    ParseSpelled("32.05.1990", 32, 5, 1990);
  }

  lemma InvalidMonthExample()
    ensures !ValidateDate("15.13.1990")
  {
    ParseSpelled("15.13.1990", 15, 13, 1990);
  }

  lemma InvalidYearExample()
    ensures !ValidateDate("15.05.1800")
  {
    ParseSpelled("15.05.1800", 15, 5, 1800);
  }

  lemma InvalidTextExample()
    ensures !ValidateDate("invalid")
  {
    assert '.' !in "invalid";
    SplitWithoutSeparator("invalid", '.');
  }
}

/**
 * The second version's calculators, which repeat the first version's
 * arithmetic, and its affirmation picker that avoids recent texts.
 */
module AppCalculations {
  import opened Wrappers
  import opened Slices
  import opened Numerology
  import SharedCalculations

  /** The life path keeps 11, 22 and 33 and otherwise ends on a single digit; unusable text gives 0. */
  lemma LifePathKeepsMasters(birthDate: string)
    ensures var r := SharedCalculations.LifePathNumber(birthDate, {11, 22, 33});
            0 <= r <= 9 || r in {11, 22, 33}
    ensures ParseDMY(birthDate).None? ==> SharedCalculations.LifePathNumber(birthDate, {11, 22, 33}) == 0
    ensures ValidateDate(birthDate) ==> SharedCalculations.LifePathNumber(birthDate, {11, 22, 33}) >= 1
  {
    DigitOrMasterValue(SharedCalculations.LifePathNumber(birthDate, {11, 22, 33}), {11, 22, 33});
    if ValidateDate(birthDate) {
      SharedCalculations.LifePathOfValidDate(birthDate, {11, 22, 33});
    }
  }

  /** A value that is a digit or one of the masters 11, 22 and 33. */
  lemma DigitOrMasterValue(r: int, masters: set<int>)
    requires masters == {11, 22, 33}
    requires r >= 0 && (r <= 9 || r in masters)
    ensures 0 <= r <= 9 || r in {11, 22, 33}
  {
  }

  /**
   * Soul and daily numbers have no master exception: for a valid date read
   * as (d, m, y) both are digital roots from 1 to 9.
   */
  lemma SoulAndDailyFullyReduced(date: string, today: string, d: int, m: int, y: int)
    requires ValidateDate(date) && ParseDMY(date) == Some((d, m, y))
    ensures SharedCalculations.SoulNumber(date, {}) == 1 + (d - 1) % 9
    ensures 1 <= SharedCalculations.DailyNumber(Some(date), today, {}) <= 9
    ensures SharedCalculations.DailyNumber(Some(date), today, {}) % 9 == (d + m + y) % 9
  {
    DigitalRoot(d);
    DailyIsRoot(date, today, d, m, y);
  }

  lemma DailyIsRoot(date: string, today: string, d: int, m: int, y: int)
    requires ValidateDate(date) && ParseDMY(date) == Some((d, m, y))
    ensures 1 <= SharedCalculations.DailyNumber(Some(date), today, {}) <= 9
    ensures SharedCalculations.DailyNumber(Some(date), today, {}) % 9 == (d + m + y) % 9
  {
    SharedCalculations.LifePathOfValidDate(date, {});
    SharedCalculations.LifePathCongruent(date, {}, d, m, y);
  }

  /** `validate_date` accepts exactly the Gregorian dates of the years 1900 to 2100. */
  lemma ValidateDateGregorian(s: string)
    ensures ValidateDate(s) <==>
              ParseDMY(s).Some? && 1900 <= ParseDMY(s).value.2 <= 2100
              && Calendar.ValidDate(Calendar.Date(ParseDMY(s).value.2, ParseDMY(s).value.1, ParseDMY(s).value.0))
  {
    ValidateDateIsCalendar(s);
  }

  /** The texts of the last ten history entries, or None when one lacks a text (the lookup then fails). */
  function RecentTexts(history: seq<Option<string>>): (r: Option<set<string>>)
    ensures r.None? <==> exists i | 0 <= i < |SliceFrom(history, -10)| :: SliceFrom(history, -10)[i].None?
    ensures r.Some? ==> forall i | 0 <= i < |SliceFrom(history, -10)| :: SliceFrom(history, -10)[i].value in r.value
  {
    var recent := SliceFrom(history, -10);
    if exists i | 0 <= i < |recent| :: recent[i].None? then None
    else Some(set i | 0 <= i < |recent| :: recent[i].value)
  }

  /**
   * `get_affirmation`: a random number's texts, avoiding the user's last ten
   * texts when one is left; any failure gives number 0 and a default text.
   * `userId` is None or 0 for no user.
   */
  function AppAffirmation(
    userId: Option<int>, history: seq<Option<string>>, numbers: seq<(int, seq<string>)>,
    keyPick: nat, textPick: nat, fallbackPick: nat): (r: (int, string))
    ensures (r.0 == 0 && r.1 in SharedCalculations.DefaultAffirmations)
            || (numbers != [] && r.0 == Pick(numbers, keyPick).0
                && r.1 in Pick(numbers, keyPick).1)
    ensures numbers != [] && Pick(numbers, keyPick).1 != [] && (userId.None? || userId == Some(0)) ==>
              r.0 == Pick(numbers, keyPick).0
    ensures userId.Some? && userId.value != 0 && numbers != [] && RecentTexts(history).Some? ==>
              var affirmations := Pick(numbers, keyPick).1;
              var seen := RecentTexts(history).value;
              (exists a | a in affirmations :: a !in seen) ==> r.1 in affirmations && r.1 !in seen
    ensures userId.Some? && userId.value != 0 && RecentTexts(history).None? ==>
              r.0 == 0 && r.1 in SharedCalculations.DefaultAffirmations
  {
    var fallback := (0, Pick(SharedCalculations.DefaultAffirmations, fallbackPick));
    if numbers == [] then fallback
    else
      var (number, affirmations) := Pick(numbers, keyPick);
      if userId.Some? && userId.value != 0 then
        match RecentTexts(history)
        case None => fallback
        case Some(seen) =>
          var available := SharedCalculations.Unseen(affirmations, seen);
          if available != [] then (number, Pick(available, textPick))
          else if affirmations == [] then fallback
          else (number, Pick(affirmations, textPick))
      else if affirmations == [] then fallback
      else (number, Pick(affirmations, textPick))
  }
}
