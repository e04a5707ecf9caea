/**
 * The second-generation user store: daily counters with a reset, a
 * lifetime request counter, a repeat-view counter, cached numerology
 * results and capped affirmation history.
 *
 * Two counters here are read by a daily limit but never reset by the
 * code as written (see the findings in the README): the `requests` counter
 * of `can_make_request` and the top-level `repeat_views` counter of
 * `can_view_cached_result`. The store class keeps the code as it stands
 * (`DayResetAsWritten`, and no reset at all before those two checks);
 * `DayReset` and the `NewDay...` lemmas state the evidently intended daily
 * limits.
 */
module AppStorage {
  import opened Wrappers
  import SharedStorage
  import RootStorage
  import Dicts

  /** `usage_stats`; a `requests` key that was never written reads as 0. */
  datatype Usage = Usage(dailyRequests: int, compatibilityChecks: int, repeatViews: int, lastReset: SharedStorage.DayStamp, requests: int)

  /** One `save_daily_result` entry. */
  datatype CachedResult = CachedResult(birthDate: string, lifePath: int, soulNumber: int, timestamp: int)

  datatype User = User(
    birthDate: Option<string>,
    lifePath: Option<int>,
    soul: Option<int>,
    subscription: SharedStorage.Subscription,
    usage: Usage,
    /** The daily cache; cleared means every value is None, modelled as the empty map. */
    dailyCache: map<string, string>,
    notifications: RootStorage.Notifications,
    textHistory: seq<string>,
    affirmationHistory: seq<string>,
    /** The top-level `repeat_views` counter; a missing key reads as 0. */
    repeatViews: int,
    dailyResults: seq<CachedResult>,
    createdAt: int,
    lastActivity: SharedStorage.TimeStamp)

  const DailyRequestCeiling: int := 20
  const RepeatViewCeiling: int := 100
  const FreeCompatibilityChecks: int := 1
  const AffirmationCap: nat := 10

  /** `_create_new_user`: free, zeroed counters reset today, empty cache and histories, notifications on at 09:00. */
  function NewUser(now: int): (u: User)
    ensures !u.subscription.active && u.usage == Usage(0, 0, 0, SharedStorage.OnDay(SharedStorage.Today(now)), 0)
    ensures u.dailyCache == map[] && u.textHistory == [] && u.affirmationHistory == [] && u.dailyResults == []
    ensures u.notifications == RootStorage.Notifications(Some(true), Some("09:00")) && u.lastActivity == SharedStorage.At(now)
  {
    User(None, None, None, SharedStorage.Subscription(false, None, "free"),
         Usage(0, 0, 0, SharedStorage.OnDay(SharedStorage.Today(now)), 0), map[],
         RootStorage.Notifications(Some(true), Some("09:00")), [], [], 0, [], now, SharedStorage.At(now))
  }

  /** `_get_user`: the stored record, or a new one, with a fresh activity time. */
  function Fetched(users: map<int, User>, id: int, now: int): (u: User)
    ensures id in users ==> u == users[id].(lastActivity := SharedStorage.At(now))
    ensures id !in users ==> u == NewUser(now)
  {
    (if id in users then users[id] else NewUser(now)).(lastActivity := SharedStorage.At(now))
  }

  // ---------------------------------------------------------------------
  // The day reset
  // ---------------------------------------------------------------------

  /**
   * `_update_daily_cache_if_needed` as written: on a new day the three
   * daily counters are zeroed, the date set and the cache cleared; the
   * `requests` counter and the top-level `repeat_views` are left alone.
   */
  function DayResetAsWritten(u: User, today: int): (r: User)
    ensures u.usage.lastReset == SharedStorage.OnDay(today) ==> r == u
    ensures u.usage.lastReset != SharedStorage.OnDay(today) ==>
              r == u.(usage := Usage(0, 0, 0, SharedStorage.OnDay(today), u.usage.requests), dailyCache := map[])
  {
    if u.usage.lastReset != SharedStorage.OnDay(today) then
      u.(usage := Usage(0, 0, 0, SharedStorage.OnDay(today), u.usage.requests), dailyCache := map[])
    else u
  }

  /** The corrected reset: also zeroes the two counters that daily limits read. */
  function DayReset(u: User, today: int): (r: User)
    ensures u.usage.lastReset == SharedStorage.OnDay(today) ==> r == u
    ensures u.usage.lastReset != SharedStorage.OnDay(today) ==>
              r == u.(usage := Usage(0, 0, 0, SharedStorage.OnDay(today), 0), dailyCache := map[], repeatViews := 0)
  {
    if u.usage.lastReset != SharedStorage.OnDay(today) then
      u.(usage := Usage(0, 0, 0, SharedStorage.OnDay(today), 0), dailyCache := map[], repeatViews := 0)
    else u
  }

  /** Both resets agree on everything but the two counters, and resetting twice is resetting once. */
  lemma DayResetRefinesAsWritten(u: User, today: int)
    ensures DayReset(u, today).(repeatViews := u.repeatViews, usage := DayReset(u, today).usage.(requests := u.usage.requests))
            == DayResetAsWritten(u, today)
    ensures DayReset(DayReset(u, today), today) == DayReset(u, today)
  {
  }

  // ---------------------------------------------------------------------
  // Requests
  // ---------------------------------------------------------------------

  /** `can_make_request`: count the call, then allow it while the count is at most 20. */
  function CountRequest(u: User): (r: (bool, User))
    ensures r.1 == u.(usage := u.usage.(requests := u.usage.requests + 1))
    ensures r.0 <==> u.usage.requests + 1 <= DailyRequestCeiling
  {
    var v := u.(usage := u.usage.(requests := u.usage.requests + 1));
    (v.usage.requests <= DailyRequestCeiling, v)
  }

  /**
   * As written, nothing ever lowers the `requests` counter: once 20
   * requests are counted, every later call is refused on every later day,
   * whatever resets happen in between.
   */
  lemma RequestsNeverRecoverAsWritten(u: User, today: int)
    requires u.usage.requests >= DailyRequestCeiling
    ensures !CountRequest(DayResetAsWritten(u, today)).0
    ensures !CountRequest(u).0
  {
  }

  /** With the corrected reset run first, the first request of a new day is allowed again. */
  lemma NewDayAllowsRequest(u: User, today: int)
    requires u.usage.lastReset != SharedStorage.OnDay(today)
    ensures CountRequest(DayReset(u, today)).0
  {
  }

  /** Within one day the requests counted so far decide: the twenty-first is the first refused. */
  lemma RequestCeiling(u: User, n: int)
    requires u.usage.requests == n
    ensures CountRequest(u).0 <==> n < DailyRequestCeiling
  {
  }

  // ---------------------------------------------------------------------
  // Repeat views, compatibility, counters
  // ---------------------------------------------------------------------

  /** `can_view_cached_result`: fewer than 100 repeat views counted. */
  predicate CanViewCached(u: User)
  {
    u.repeatViews < RepeatViewCeiling
  }

  /** As written, no reset touches the counter read here: after 100 views the check fails on every later day. */
  lemma RepeatViewsNeverRecoverAsWritten(u: User, today: int)
    requires u.repeatViews >= RepeatViewCeiling
    ensures !CanViewCached(DayResetAsWritten(u, today))
  {
  }

  /** With the corrected reset run first, a new day allows repeat views again. */
  lemma NewDayAllowsRepeatView(u: User, today: int)
    requires u.usage.lastReset != SharedStorage.OnDay(today)
    ensures CanViewCached(DayReset(u, today))
  {
  }

  /** `can_check_compatibility`: premium, or no check counted today. */
  predicate CompatibilityAllowed(u: User)
  {
    u.subscription.active || u.usage.compatibilityChecks < FreeCompatibilityChecks
  }

  /** `increment_usage`: "daily" and "compatibility" each bump their own counter; other types change nothing. */
  function CountUsage(u: User, requestType: string): (r: User)
    ensures requestType == "daily" ==> r.usage == u.usage.(dailyRequests := u.usage.dailyRequests + 1)
    ensures requestType == "compatibility" ==> r.usage == u.usage.(compatibilityChecks := u.usage.compatibilityChecks + 1)
    ensures requestType != "daily" && requestType != "compatibility" ==> r == u
    ensures r.(usage := u.usage) == u
  {
    if requestType == "daily" then u.(usage := u.usage.(dailyRequests := u.usage.dailyRequests + 1))
    else if requestType == "compatibility" then u.(usage := u.usage.(compatibilityChecks := u.usage.compatibilityChecks + 1))
    else u
  }

  /** A free user gets one compatibility check a day: refused once one is counted, allowed again the next day. */
  lemma OneCompatibilityCheckPerDay(u: User, today: int, tomorrow: int)
    requires !u.subscription.active && today != tomorrow && u.usage.compatibilityChecks >= 0
    ensures var v := CountUsage(DayResetAsWritten(u, today), "compatibility");
            !CompatibilityAllowed(DayResetAsWritten(v, today)) && CompatibilityAllowed(DayResetAsWritten(v, tomorrow))
  {
  }

  // ---------------------------------------------------------------------
  // Cached results and histories
  // ---------------------------------------------------------------------

  /** `save_daily_result`: the entry appended and the numbers copied onto the record. */
  function SaveResult(u: User, birthDate: string, lifePath: int, soul: int, now: int): (r: User)
    ensures r.dailyResults == u.dailyResults + [CachedResult(birthDate, lifePath, soul, now)]
    ensures r.lifePath == Some(lifePath) && r.soul == Some(soul)
    ensures r.(dailyResults := u.dailyResults, lifePath := u.lifePath, soul := u.soul) == u
  {
    u.(dailyResults := u.dailyResults + [CachedResult(birthDate, lifePath, soul, now)], lifePath := Some(lifePath), soul := Some(soul))
  }

  /** `get_cached_result`: the most recently saved entry, or None. */
  function LastResult(u: User): (r: Option<CachedResult>)
    ensures r.None? <==> u.dailyResults == []
    ensures r.Some? ==> r.value == u.dailyResults[|u.dailyResults| - 1]
  {
    if u.dailyResults == [] then None else Some(u.dailyResults[|u.dailyResults| - 1])
  }

  /** Reading the cache right after saving gives back what was saved. */
  lemma SaveThenGet(u: User, birthDate: string, lifePath: int, soul: int, now: int)
    ensures LastResult(SaveResult(u, birthDate, lifePath, soul, now)) == Some(CachedResult(birthDate, lifePath, soul, now))
  {
  }

  // ---------------------------------------------------------------------
  // The store
  // ---------------------------------------------------------------------

  class UserStorage {
    var users: map<int, User>

    constructor()
      ensures users == map[]
    {
      users := map[];
    }

    /** `_get_user` and `get_user`. */
    method GetUser(id: int, now: int) returns (u: User)
      modifies this
      ensures u == Fetched(old(users), id, now) && users == old(users)[id := u]
    {
      u := (if id in users then users[id] else NewUser(now)).(lastActivity := SharedStorage.At(now));
      users := users[id := u];
    }

    /** `_update_daily_cache_if_needed`: the reset as written on the fetched record. */
    method UpdateDailyCacheIfNeeded(id: int, now: int)
      modifies this
      ensures users == old(users)[id := DayResetAsWritten(Fetched(old(users), id, now), SharedStorage.Today(now))]
    {
      var u := GetUser(id, now);
      Dicts.UpdateTwice(old(users), id, u, DayResetAsWritten(u, SharedStorage.Today(now)));
      users := users[id := DayResetAsWritten(u, SharedStorage.Today(now))];
    }

    /** `can_make_request`: the fetched record counts the call; no reset runs first. */
    method CanMakeRequest(id: int, now: int) returns (ok: bool)
      modifies this
      ensures var r := CountRequest(Fetched(old(users), id, now));
              ok == r.0 && users == old(users)[id := r.1]
    {
      var u := GetUser(id, now);
      var r := CountRequest(u);
      users := users[id := r.1];
      ok := r.0;
    }

    /** `can_check_compatibility`: the reset as written, then premium or no check counted today. */
    method CanCheckCompatibility(id: int, now: int) returns (ok: bool)
      modifies this
      ensures var u := DayResetAsWritten(Fetched(old(users), id, now), SharedStorage.Today(now));
              ok == CompatibilityAllowed(u) && users == old(users)[id := u]
    {
      UpdateDailyCacheIfNeeded(id, now);
      var u := GetUser(id, now);
      ok := CompatibilityAllowed(u);
    }

    /** `increment_usage`. */
    method IncrementUsage(id: int, now: int, requestType: string)
      modifies this
      ensures users == old(users)[id := CountUsage(Fetched(old(users), id, now), requestType)]
    {
      var u := GetUser(id, now);
      Dicts.UpdateTwice(old(users), id, u, CountUsage(u, requestType));
      users := users[id := CountUsage(u, requestType)];
    }

    /** `can_view_cached_result`: the fetched record's repeat views decide; no reset runs first. */
    method CanViewCachedResult(id: int, now: int) returns (ok: bool)
      modifies this
      ensures var u := Fetched(old(users), id, now);
              ok == CanViewCached(u) && users == old(users)[id := u]
    {
      var u := GetUser(id, now);
      ok := CanViewCached(u);
    }

    /** `increment_repeat_view`. */
    method IncrementRepeatView(id: int, now: int)
      modifies this
      ensures var u := Fetched(old(users), id, now);
              users == old(users)[id := u.(repeatViews := u.repeatViews + 1)]
    {
      var u := GetUser(id, now);
      Dicts.UpdateTwice(old(users), id, u, u.(repeatViews := u.repeatViews + 1));
      users := users[id := u.(repeatViews := u.repeatViews + 1)];
    }

    /** `save_daily_result`. */
    method SaveDailyResult(id: int, now: int, birthDate: string, lifePath: int, soul: int)
      modifies this
      ensures users == old(users)[id := SaveResult(Fetched(old(users), id, now), birthDate, lifePath, soul, now)]
    {
      var u := GetUser(id, now);
      Dicts.UpdateTwice(old(users), id, u, SaveResult(u, birthDate, lifePath, soul, now));
      users := users[id := SaveResult(u, birthDate, lifePath, soul, now)];
    }

    /** `get_cached_result`. */
    method GetCachedResult(id: int, now: int) returns (r: Option<CachedResult>)
      modifies this
      ensures r == LastResult(Fetched(old(users), id, now)) && users == old(users)[id := Fetched(old(users), id, now)]
    {
      var u := GetUser(id, now);
      r := LastResult(u);
    }

    /** `add_text_to_history`: appended, without a cap. */
    method AddTextToHistory(id: int, now: int, text: string)
      modifies this
      ensures var u := Fetched(old(users), id, now);
              users == old(users)[id := u.(textHistory := u.textHistory + [text])]
    {
      var u := GetUser(id, now);
      Dicts.UpdateTwice(old(users), id, u, u.(textHistory := u.textHistory + [text]));
      users := users[id := u.(textHistory := u.textHistory + [text])];
    }

    /** `add_affirmation_to_history`: appended, keeping the newest 10. */
    method AddAffirmationToHistory(id: int, now: int, text: string)
      modifies this
      ensures var u := Fetched(old(users), id, now);
              users == old(users)[id := u.(affirmationHistory := SharedStorage.AppendCapped(u.affirmationHistory, text, AffirmationCap))]
    {
      var u := GetUser(id, now);
      Dicts.UpdateTwice(old(users), id, u, u.(affirmationHistory := SharedStorage.AppendCapped(u.affirmationHistory, text, AffirmationCap)));
      users := users[id := u.(affirmationHistory := SharedStorage.AppendCapped(u.affirmationHistory, text, AffirmationCap))];
    }

    /** `set_birth_date`: only the date is stored. */
    method SetBirthDate(id: int, now: int, birthDate: string)
      modifies this
      ensures users == old(users)[id := Fetched(old(users), id, now).(birthDate := Some(birthDate))]
    {
      var u := GetUser(id, now);
      Dicts.UpdateTwice(old(users), id, u, u.(birthDate := Some(birthDate)));
      users := users[id := u.(birthDate := Some(birthDate))];
    }

    /** `set_subscription`. */
    method SetSubscription(id: int, now: int, active: bool, expires: Option<string>)
      modifies this
      ensures users == old(users)[id := Fetched(old(users), id, now).(subscription :=
                SharedStorage.Subscription(active, expires, if active then "premium" else "free"))]
    {
      var u := GetUser(id, now);
      Dicts.UpdateTwice(old(users), id, u, u.(subscription := SharedStorage.Subscription(active, expires, if active then "premium" else "free")));
      users := users[id := u.(subscription := SharedStorage.Subscription(active, expires, if active then "premium" else "free"))];
    }

    /** `set_notifications`. */
    method SetNotifications(id: int, now: int, enabled: bool, time: string)
      modifies this
      ensures users == old(users)[id := Fetched(old(users), id, now).(notifications := RootStorage.Notifications(Some(enabled), Some(time)))]
    {
      var u := GetUser(id, now);
      Dicts.UpdateTwice(old(users), id, u, u.(notifications := RootStorage.Notifications(Some(enabled), Some(time))));
      users := users[id := u.(notifications := RootStorage.Notifications(Some(enabled), Some(time)))];
    }
  }
}
