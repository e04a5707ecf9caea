/**
 * The sliding-window rate limit both security helpers share: keep only the
 * request times inside the window, refuse once `limit` of them remain,
 * otherwise record the current time. The guarantee proved here is about a
 * whole run of calls: however the calls are timed, as long as time does not
 * go backwards, no window of that length ever holds more accepted calls than
 * the limit.
 */
module RateWindow {
  /** The times later than `cutoff`, in their order. */
  function Recent(ts: seq<int>, cutoff: int): (r: seq<int>)
    ensures |r| <= |ts|
  {
    if ts == [] then []
    else
      var init := ts[..|ts| - 1];
      Recent(init, cutoff) + (if ts[|ts| - 1] > cutoff then [ts[|ts| - 1]] else [])
  }

  /** The times in the half-open interval `(lo, hi]`, in their order. */
  function Window(ts: seq<int>, lo: int, hi: int): (r: seq<int>)
    ensures |r| <= |ts|
  {
    if ts == [] then []
    else
      var init := ts[..|ts| - 1];
      Window(init, lo, hi) + (if lo < ts[|ts| - 1] <= hi then [ts[|ts| - 1]] else [])
  }

  /**
   * One check at time `now` against the stored times: the times older than
   * the window are dropped; the call is allowed iff fewer than `limit`
   * remain, and then `now` is recorded. The second component is what is stored.
   */
  function Check(stamps: seq<int>, now: int, limit: int, window: int): (r: (bool, seq<int>))
    ensures r.0 <==> |Recent(stamps, now - window)| < limit
    ensures r.0 ==> r.1 == Recent(stamps, now - window) + [now]
    ensures !r.0 ==> r.1 == Recent(stamps, now - window)
  {
    var kept := Recent(stamps, now - window);
    if |kept| >= limit then (false, kept) else (true, kept + [now])
  }

  predicate NonDecreasing(calls: seq<int>)
  {
    forall i, j | 0 <= i < j < |calls| :: calls[i] <= calls[j]
  }

  /**
   * A run of checks for one key, starting from nothing stored: the times of
   * the calls that were allowed, and the stored times after the last call.
   */
  function Run(calls: seq<int>, limit: int, window: int): (r: (seq<int>, seq<int>))
    ensures |r.0| <= |calls|
  {
    if calls == [] then ([], [])
    else
      var prev := Run(calls[..|calls| - 1], limit, window);
      var now := calls[|calls| - 1];
      var c := Check(prev.1, now, limit, window);
      (if c.0 then prev.0 + [now] else prev.0, c.1)
  }

  lemma RecentAppend(ts: seq<int>, x: int, cutoff: int)
    ensures Recent(ts + [x], cutoff) == Recent(ts, cutoff) + (if x > cutoff then [x] else [])
  {
    assert (ts + [x])[..|ts|] == ts;
  }

  lemma WindowAppend(ts: seq<int>, x: int, lo: int, hi: int)
    ensures Window(ts + [x], lo, hi) == Window(ts, lo, hi) + (if lo < x <= hi then [x] else [])
  {
    assert (ts + [x])[..|ts|] == ts;
  }

  /** `Recent` keeps exactly the times later than the cutoff. */
  lemma {:induction false} RecentMembers(ts: seq<int>, cutoff: int)
    ensures forall x :: x in Recent(ts, cutoff) <==> x in ts && x > cutoff
  {
    if ts != [] {
      var init, x := ts[..|ts| - 1], ts[|ts| - 1];
      assert ts == init + [x];
      RecentMembers(init, cutoff);
      RecentAppend(init, x, cutoff);
    }
  }

  /** `Window` keeps exactly the times in `(lo, hi]`. */
  lemma {:induction false} WindowMembers(ts: seq<int>, lo: int, hi: int)
    ensures forall x :: x in Window(ts, lo, hi) <==> x in ts && lo < x <= hi
  {
    if ts != [] {
      var init, x := ts[..|ts| - 1], ts[|ts| - 1];
      assert ts == init + [x];
      WindowMembers(init, lo, hi);
      WindowAppend(init, x, lo, hi);
    }
  }

  /** Filtering with a cutoff and then a later one is filtering with the later one. */
  lemma {:induction false} RecentTwice(ts: seq<int>, c1: int, c2: int)
    requires c1 <= c2
    ensures Recent(Recent(ts, c1), c2) == Recent(ts, c2)
  {
    if ts != [] {
      var init, x := ts[..|ts| - 1], ts[|ts| - 1];
      assert ts == init + [x];
      RecentTwice(init, c1, c2);
      RecentAppend(init, x, c1);
      RecentAppend(init, x, c2);
      if x > c1 {
        RecentAppend(Recent(init, c1), x, c2);
      } else {
        assert Recent(init, c1) + [] == Recent(init, c1);
      }
    }
  }

  /** A later cutoff keeps no more times. */
  lemma {:induction false} RecentShrinks(ts: seq<int>, c1: int, c2: int)
    requires c1 <= c2
    ensures |Recent(ts, c2)| <= |Recent(ts, c1)|
  {
    if ts != [] {
      RecentShrinks(ts[..|ts| - 1], c1, c2);
    }
  }

  /** When no time is later than `hi`, the window `(lo, hi]` is the filter by `lo`. */
  lemma {:induction false} WindowOfBounded(ts: seq<int>, lo: int, hi: int)
    requires forall x | x in ts :: x <= hi
    ensures Window(ts, lo, hi) == Recent(ts, lo)
  {
    if ts != [] {
      var init, x := ts[..|ts| - 1], ts[|ts| - 1];
      assert ts == init + [x];
      assert x in ts;
      assert forall y | y in init :: y in ts;
      WindowOfBounded(init, lo, hi);
      WindowAppend(init, x, lo, hi);
      RecentAppend(init, x, lo);
    }
  }

  lemma NonDecreasingInit(calls: seq<int>)
    requires NonDecreasing(calls) && calls != []
    ensures NonDecreasing(calls[..|calls| - 1])
    ensures |calls| >= 2 ==> calls[|calls| - 2] <= calls[|calls| - 1]
  {
    var init := calls[..|calls| - 1];
    forall i, j | 0 <= i < j < |init| ensures init[i] <= init[j] {
      assert init[i] == calls[i] && init[j] == calls[j];
    }
  }

  /**
   * Before the last call of a run at non-decreasing times, filtering the
   * stored times by that call's window is filtering the allowed ones, and no
   * allowed time is later than that call.
   */
  lemma {:induction false} BeforeLast(calls: seq<int>, limit: int, window: int)
    requires NonDecreasing(calls) && calls != [] && window > 0
    ensures var prev := Run(calls[..|calls| - 1], limit, window);
            var now := calls[|calls| - 1];
            Recent(prev.1, now - window) == Recent(prev.0, now - window) &&
            forall x | x in prev.0 :: x <= now
    decreases |calls|, 0
  {
    var init, now := calls[..|calls| - 1], calls[|calls| - 1];
    NonDecreasingInit(calls);
    if init != [] {
      var prev := Run(init, limit, window);
      var last := init[|init| - 1];
      assert last <= now;
      RunState(init, limit, window);
      FilterOfFiltered(prev.1, prev.0, last - window, now - window);
    } else {
      assert Run(init, limit, window) == ([], []);
    }
  }

  /** Times filtered by one cutoff and then by a later one are the times filtered by the later one. */
  lemma FilterOfFiltered(stored: seq<int>, allowed: seq<int>, c1: int, c2: int)
    requires c1 <= c2 && stored == Recent(allowed, c1)
    ensures Recent(stored, c2) == Recent(allowed, c2)
  {
    RecentTwice(allowed, c1, c2);
  }

  /**
   * After a run at non-decreasing times, the stored times are exactly the
   * allowed ones within the window of the last call, and none is later than it.
   */
  lemma {:induction false} RunState(calls: seq<int>, limit: int, window: int)
    requires NonDecreasing(calls) && calls != [] && window > 0
    ensures var r := Run(calls, limit, window);
            r.1 == Recent(r.0, calls[|calls| - 1] - window) &&
            forall x | x in r.0 :: x <= calls[|calls| - 1]
    decreases |calls|, 1
  {
    var init, now := calls[..|calls| - 1], calls[|calls| - 1];
    var prev := Run(init, limit, window);
    BeforeLast(calls, limit, window);
    RecentAppend(prev.0, now, now - window);
  }

  /** Allowing one more call keeps the window bound when fewer than `limit` were in its own window. */
  lemma StepWindow(acc: seq<int>, now: int, limit: int, window: int, t: int)
    requires forall x | x in acc :: x <= now
    requires |Recent(acc, now - window)| < limit
    requires |Window(acc, t - window, t)| <= limit
    ensures |Window(acc + [now], t - window, t)| <= limit
  {
    WindowAppend(acc, now, t - window, t);
    if t - window < now <= t {
      WindowOfBounded(acc, t - window, t);
      RecentShrinks(acc, now - window, t - window);
    }
  }

  /**
   * The rate-limit guarantee: for calls at non-decreasing times, every
   * window `(t - window, t]` contains at most `limit` allowed calls.
   */
  lemma {:induction false} WindowBound(calls: seq<int>, limit: int, window: int, t: int)
    requires NonDecreasing(calls) && window > 0 && limit >= 0
    ensures |Window(Run(calls, limit, window).0, t - window, t)| <= limit
  {
    if calls != [] {
      var init, now := calls[..|calls| - 1], calls[|calls| - 1];
      NonDecreasingInit(calls);
      WindowBound(init, limit, window, t);
      var prev := Run(init, limit, window);
      BeforeLast(calls, limit, window);
      AllowedStep(prev.0, prev.1, now, limit, window, t);
    }
  }

  /** One more check, allowed or not, keeps every window within the limit. */
  lemma AllowedStep(allowed: seq<int>, stored: seq<int>, now: int, limit: int, window: int, t: int)
    requires forall x | x in allowed :: x <= now
    requires Recent(stored, now - window) == Recent(allowed, now - window)
    requires |Window(allowed, t - window, t)| <= limit
    ensures var c := Check(stored, now, limit, window);
            |Window(if c.0 then allowed + [now] else allowed, t - window, t)| <= limit
  {
    if Check(stored, now, limit, window).0 {
      StepWindow(allowed, now, limit, window, t);
    }
  }
}

/**
 * The validator object of the application package: an in-memory rate limit
 * of ten requests per minute per user, input screening, text sanitising and
 * a day-month-year date check.
 */
module AppSecurity {
  import opened Strings
  import opened Dicts
  import opened RateWindow

  const MaxRequestsPerMinute: int := 10
  const MaxInputLength: int := 1000
  /** One minute, in seconds. */
  const Minute: int := 60

  /** The lower-case fragments whose presence refuses an input. */
  const Suspicious: seq<string> := ["<script", "javascript:", "data:", "vbscript:"]

  /**
   * `validate_user_input`: refused when empty, longer than `maxLength`, or
   * when its lower-cased text contains one of the suspicious fragments.
   */
  function ValidateUserInput(text: string, maxLength: int): (ok: bool)
    ensures ok ==> 0 < |text| <= maxLength
  {
    text != [] && |text| <= maxLength && forall p | p in Suspicious :: !Contains(Lower(text), p)
  }

  /** Screening ignores case: a text and its lower-case form are judged alike. */
  lemma ValidateIgnoresCase(text: string, maxLength: int)
    ensures ValidateUserInput(Lower(text), maxLength) == ValidateUserInput(text, maxLength)
  {
    LowerIdempotent(text);
  }

  /** The suspicious fragments are already lower case. */
  lemma SuspiciousAreLower(p: string)
    requires p in Suspicious
    ensures Lower(p) == p
  {
    assert Plain(p);
    LowerOfPlain(p);
  }

  /** Any text with a suspicious fragment inside it is refused. */
  lemma SuspiciousRefused(before: string, p: string, after: string, maxLength: int)
    requires p in Suspicious
    ensures !ValidateUserInput(before + p + after, maxLength)
  {
    var low := Lower(before + p + after);
    assert low == Lower(before) + p + Lower(after) by {
      LowerConcat(before + p, after);
      LowerConcat(before, p);
      SuspiciousAreLower(p);
    }
    assert OccursAt(low, p, |before|) by {
      assert low[|before|..|before| + |p|] == p;
    }
  }

  /** A non-empty text within the length limit without '<' or ':' is accepted. */
  lemma SafeTextAccepted(text: string, maxLength: int)
    requires 0 < |text| <= maxLength
    requires forall i | 0 <= i < |text| :: text[i] != '<' && text[i] != ':'
    ensures ValidateUserInput(text, maxLength)
  {
    var low := Lower(text);
    forall p | p in Suspicious ensures !Contains(low, p) {
      var q := if p == "<script" then 0 else |p| - 1;
      assert p[q] == '<' || p[q] == ':';
      forall i | OccursAt(low, p, i) ensures false {
        assert low[i..i + |p|][q] == p[q];
        LowerKeepsLow(text[i + q]);
      }
    }
  }

  /** `html.escape(c)` with quotes escaped, for one character. */
  function EscapeChar(c: char): (r: string)
    ensures c !in "&<>\"'" ==> r == [c]
    ensures c in "&<>\"'" ==> |r| > 1 && r[0] == '&' && r[|r| - 1] == ';'
  {
    if c == '&' then "&amp;"
    else if c == '<' then "&lt;"
    else if c == '>' then "&gt;"
    else if c == '"' then "&quot;"
    else if c == '\'' then "&#x27;"
    else [c]
  }

  /** `html.escape(s)`: each character escaped independently. */
  function EscapeHtml(s: string): (r: string)
    ensures |r| >= |s|
  {
    if s == [] then [] else EscapeChar(s[0]) + EscapeHtml(s[1..])
  }

  /** The escaped text holds no markup character and no quote. */
  lemma {:induction false} EscapedIsInert(s: string)
    ensures forall c | c in EscapeHtml(s) :: c !in "<>\"'"
  {
    if s != [] {
      EscapedIsInert(s[1..]);
      var e := EscapeChar(s[0]);
      assert forall c | c in e :: c !in "<>\"'" by {
        if s[0] == '&' { assert e == "&amp;"; }
        else if s[0] == '<' { assert e == "&lt;"; }
        else if s[0] == '>' { assert e == "&gt;"; }
        else if s[0] == '"' { assert e == "&quot;"; }
        else if s[0] == '\'' { assert e == "&#x27;"; }
      }
    }
  }

  /** Text with nothing to escape is left alone. */
  lemma {:induction false} EscapeOfSafe(s: string)
    requires forall c | c in s :: c !in "&<>\"'"
    ensures EscapeHtml(s) == s
  {
    if s != [] {
      assert s[0] in s;
      assert forall c | c in s[1..] :: c in s;
      EscapeOfSafe(s[1..]);
    }
  }

  /** Escaping keeps whitespace where it was: escapes add no whitespace. */
  lemma {:induction false} EscapeAddsNoSpace(s: string)
    ensures forall c | c in EscapeHtml(s) && IsSpace(c) :: c in s
  {
    if s != [] {
      EscapeAddsNoSpace(s[1..]);
      var e := EscapeChar(s[0]);
      assert forall c | c in e && IsSpace(c) :: c == s[0] by {
        if s[0] == '&' { assert e == "&amp;"; }
        else if s[0] == '<' { assert e == "&lt;"; }
        else if s[0] == '>' { assert e == "&gt;"; }
        else if s[0] == '"' { assert e == "&quot;"; }
        else if s[0] == '\'' { assert e == "&#x27;"; }
      }
    }
  }

  /**
   * `sanitize_text`: empty stays empty; otherwise HTML-escaped, and the
   * whitespace runs collapsed to single spaces with none at either end.
   * The result holds no markup character, no quote and no whitespace but
   * the single spaces between words.
   */
  function SanitizeText(text: string): (r: string)
    ensures text == [] ==> r == []
    ensures Words(r) == Words(EscapeHtml(text))
    ensures SingleSpaced(r)
    ensures forall c | c in r :: c !in "<>\"'"
    ensures forall c | c in r && IsSpace(c) :: c == ' '
  {
    if text == [] then []
    else
      var escaped := EscapeHtml(text);
      EscapedIsInert(text);
      RejoinedWords(escaped);
      Join(" ", Words(escaped))
  }

  /** The words of an inert text, joined by single spaces, stay inert and keep those words. */
  lemma RejoinedWords(s: string)
    requires forall c | c in s :: c !in "<>\"'"
    ensures var r := Join(" ", Words(s));
            Words(r) == Words(s) && SingleSpaced(r) &&
            (forall c | c in r :: c !in "<>\"'") && (forall c | c in r && IsSpace(c) :: c == ' ')
  {
    var words := Words(s);
    WordsChars(s);
    JoinChars(" ", words);
    WordsOfJoin(words);
    JoinIsSingleSpaced(words);
  }

  /** Single-spaced text with nothing to escape comes back unchanged. */
  lemma SanitizeKeepsTidyText(text: string)
    requires SingleSpaced(text)
    requires forall c | c in text :: c !in "&<>\"'"
    ensures SanitizeText(text) == text
  {
    if text != [] {
      EscapeOfSafe(text);
      JoinOfWords(text);
    }
  }

  /**
   * `validate_date_format`: three dot-separated parts, each a non-empty run
   * of digits, with day 1 to 31, month 1 to 12 and year 1900 to 2100. The
   * day is not checked against the month's length.
   */
  function ValidateDateFormat(s: string): (ok: bool)
  {
    s != [] && DateParts(Split(s, '.'))
  }

  /** Three non-empty digit runs with day, month and year in range. */
  predicate DateParts(parts: seq<string>)
  {
    |parts| == 3 && DayMonthYear(parts[0], parts[1], parts[2])
  }

  predicate DayMonthYear(d: string, m: string, y: string)
  {
    d != [] && m != [] && y != [] && IsAllDigits(d) && IsAllDigits(m) && IsAllDigits(y) &&
    1 <= DigitsToNat(d) <= 31 && 1 <= DigitsToNat(m) <= 12 && 1900 <= DigitsToNat(y) <= 2100
  }

  /** Exactly the dates written `d.m.y` with digits in range are accepted. */
  lemma DateFormatAccepts(d: string, m: string, y: string)
    requires d != [] && m != [] && y != [] && IsAllDigits(d) && IsAllDigits(m) && IsAllDigits(y)
    ensures ValidateDateFormat(d + "." + m + "." + y) <==>
            1 <= DigitsToNat(d) <= 31 && 1 <= DigitsToNat(m) <= 12 && 1900 <= DigitsToNat(y) <= 2100
  {
    var s := d + "." + m + "." + y;
    assert Split(s, '.') == [d, m, y] by {
      DigitsHaveNoDot(d);
      DigitsHaveNoDot(m);
      DigitsHaveNoDot(y);
      assert Join(".", [d, m, y]) == s by {
        assert Join(".", [y]) == y;
        assert Join(".", [m, y]) == m + "." + y;
      }
      SplitOfJoin([d, m, y], '.');
    }
    assert ValidateDateFormat(s) == DayMonthYear(d, m, y);
  }

  /** Accepted dates are exactly three digit groups within the ranges. */
  lemma DateFormatShape(s: string)
    requires ValidateDateFormat(s)
    ensures exists d, m, y :: s == d + "." + m + "." + y && DayMonthYear(d, m, y)
  {
    var parts := Split(s, '.');
    var d, m, y := parts[0], parts[1], parts[2];
    assert parts == [d, m, y];
    assert Join(".", parts) == d + "." + m + "." + y by {
      assert Join(".", [y]) == y;
      assert Join(".", [m, y]) == m + "." + y;
    }
  }

  lemma DigitsHaveNoDot(s: string)
    requires IsAllDigits(s)
    ensures '.' !in s
  {
    forall i | 0 <= i < |s| ensures s[i] != '.' {
      assert IsDigit(s[i]);
    }
  }

  /** The times of one user, or nothing for a user never seen. */
  function Stored(cache: map<int, seq<int>>, id: int): seq<int>
  {
    if id in cache then cache[id] else []
  }

  /** The cache after `cleanup_old_requests`: only recent times, and no user left without any. */
  function Cleaned(cache: map<int, seq<int>>, now: int): (r: map<int, seq<int>>)
    ensures forall id | id in r :: r[id] != [] && forall x | x in r[id] :: x > now - Minute
    ensures forall id | id in cache :: Recent(cache[id], now - Minute) != [] <==> id in r
    ensures forall id | id in r :: id in cache && r[id] == Recent(cache[id], now - Minute)
  {
    forall id | id in cache {
      RecentMembers(cache[id], now - Minute);
    }
    map id | id in cache && Recent(cache[id], now - Minute) != [] :: Recent(cache[id], now - Minute)
  }

  /** Cleaning up never changes the verdict of a later check. */
  lemma CleanupKeepsVerdict(cache: map<int, seq<int>>, now: int, later: int, id: int)
    requires now <= later
    ensures Check(Stored(Cleaned(cache, now), id), later, MaxRequestsPerMinute, Minute) ==
            Check(Stored(cache, id), later, MaxRequestsPerMinute, Minute)
  {
    var times := Stored(cache, id);
    StoredCleaned(cache, now, id);
    RecentTwice(times, now - Minute, later - Minute);
    SameRecentSameCheck(Recent(times, now - Minute), times, later);
  }

  /** After cleanup a user's stored times are the recent part of what was stored. */
  lemma StoredCleaned(cache: map<int, seq<int>>, now: int, id: int)
    ensures Stored(Cleaned(cache, now), id) == Recent(Stored(cache, id), now - Minute)
  {
  }

  lemma SameRecentSameCheck(a: seq<int>, b: seq<int>, later: int)
    requires Recent(a, later - Minute) == Recent(b, later - Minute)
    ensures Check(a, later, MaxRequestsPerMinute, Minute) == Check(b, later, MaxRequestsPerMinute, Minute)
  {
  }

  /** Drops the old times key by key, as the cleanup loop does. */
  method CleanMap(cache: map<int, seq<int>>, now: int) returns (r: map<int, seq<int>>)
    ensures r == Cleaned(cache, now)
  {
    var cutoff := now - Minute;
    r := cache;
    var pending := cache.Keys;
    while pending != {}
      invariant pending <= cache.Keys
      invariant forall id | id in r :: id in cache
      invariant forall id | id in pending :: id in r && r[id] == cache[id]
      invariant forall id | id in cache && id !in pending :: (id in r <==> Recent(cache[id], cutoff) != [])
      invariant forall id | id in r && id !in pending :: r[id] == Recent(cache[id], cutoff)
      decreases pending
    {
      EmptyWhenNoMember(pending);
      var k :| k in pending;
      var kept := Recent(r[k], cutoff);
      if kept == [] {
        r := map id | id in r && id != k :: r[id];
      } else {
        r := r[k := kept];
      }
      pending := pending - {k};
    }
    ghost var c := Cleaned(cache, now);
    assert forall id | id in r :: id in c && r[id] == c[id];
    assert forall id | id in c :: id in r;
  }

  /** `SecurityValidator`: the per-user request times, in memory. */
  class SecurityValidator {
    var cache: map<int, seq<int>>

    /** No user holds more times than the per-minute limit. */
    predicate Valid()
      reads this
    {
      forall id | id in cache :: |cache[id]| <= MaxRequestsPerMinute
    }

    constructor()
      ensures cache == map[] && Valid()
    {
      cache := map[];
    }

    /**
     * `rate_limit_check` at time `now` (seconds): the user's times older than
     * a minute are dropped; the request is allowed iff fewer than ten remain,
     * and an allowed request is recorded.
     */
    method RateLimitCheck(id: int, now: int) returns (ok: bool)
      modifies this
      ensures var r := Check(Stored(old(cache), id), now, MaxRequestsPerMinute, Minute);
              ok == r.0 && cache == old(cache)[id := r.1]
      ensures ok <==> |Recent(Stored(old(cache), id), now - Minute)| < MaxRequestsPerMinute
      ensures old(Valid()) ==> Valid()
    {
      var stamps := if id in cache then cache[id] else [];
      var kept := Recent(stamps, now - Minute);
      cache := cache[id := kept];
      if |kept| >= MaxRequestsPerMinute {
        ok := false;
      } else {
        cache := cache[id := kept + [now]];
        ok := true;
      }
    }

    /** `cleanup_old_requests`. */
    method CleanupOldRequests(now: int)
      modifies this
      ensures cache == Cleaned(old(cache), now)
      ensures old(Valid()) ==> Valid()
    {
      cache := CleanMap(cache, now);
    }
  }
}
