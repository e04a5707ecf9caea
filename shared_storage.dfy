/**
 * The per-user store of the bot: one record per user id, refreshed on
 * every access, with daily counters that reset on a new day, request
 * limits, streaks, achievements, daily challenges, retrograde-alert
 * marks, capped histories and the clean-up of inactive users.
 *
 * Clock readings are whole seconds; the calendar day of a reading is
 * `Today(now)`. Stored dates that the source keeps as text are
 * `DayStamp`s or `TimeStamp`s, which keep apart "not set", a date that
 * parses and text that does not.
 */
module SharedStorage {
  import opened Wrappers
  import opened Slices
  import opened Dicts

  /** A stored "%Y-%m-%d" text: unset (None or empty), a day number, or text that does not parse. */
  datatype DayStamp = NoDay | OnDay(day: int) | BadDay

  /** A stored "%Y-%m-%d %H:%M:%S" text: unset, a time in seconds, or text that does not parse. */
  datatype TimeStamp = NoTime | At(secs: int) | BadTime

  const SecondsPerDay: int := 86400

  /** The calendar day of a clock reading. */
  function Today(now: int): int { now / SecondsPerDay }

  datatype Subscription = Subscription(active: bool, expires: Option<string>, kind: string)

  datatype Usage = Usage(dailyRequests: int, compatibilityChecks: int, repeatViews: int, requests: int, lastReset: int)

  /** A cached tarot spread; `ClearedSpread` is the entry whose fields are all None. */
  datatype TarotEntry = TarotEntry(date: DayStamp, content: seq<string>)

  const ClearedSpread: TarotEntry := TarotEntry(NoDay, [])

  datatype Reading = Reading(date: int, spreadKey: string, question: Option<string>, cards: seq<string>)

  datatype DailyResult = DailyResult(birthDate: string, lifePath: int, soulNumber: int, text: Option<string>, timestamp: int)

  datatype Observation = Observation(text: string, number: string, date: TimeStamp)

  /** The last "pre" and "start" alert dates of one planet. */
  datatype RetroMarks = RetroMarks(lastPre: Option<string>, lastStart: Option<string>)

  datatype Achievements = Achievements(unlocked: seq<string>, streakDays: int, lastActivityDate: DayStamp, longestStreak: int)

  datatype Challenge = Challenge(id: string, date: DayStamp)

  datatype Challenges = Challenges(current: Option<Challenge>, completedToday: seq<string>, streak: int, lastChallengeDate: DayStamp)

  /**
   * A stored notification time: the configured default time, or a time
   * given by the user (possibly empty). The configured value is never
   * looked at: a stored default falls back to the default again.
   */
  datatype NotifyTime = ConfigTime | GivenTime(text: string)

  /** The "notifications" entry; None is a missing key. */
  datatype NotifySettings = NotifySettings(enabled: Option<bool>, time: Option<NotifyTime>)

  /** The part of a user record the store's rules read or write. */
  datatype User = User(
    birthDate: Option<string>,
    /** The numbers of the last saved daily result; None until one is saved. */
    lifePathNumber: Option<int>,
    soulNumber: Option<int>,
    adminMode: Option<string>,
    subscription: Subscription,
    usage: Usage,
    /** The daily number cache; cleared means every value is None, modelled as the empty map. */
    dailyCache: map<string, string>,
    tarotCache: map<string, TarotEntry>,
    /** The stray top-level `repeat_views` counter the day reset also zeroes. */
    repeatViews: int,
    textHistory: seq<string>,
    affirmationHistory: seq<string>,
    lastDailyNotification: DayStamp,
    tarotHistory: seq<Reading>,
    retroAlerts: map<string, RetroMarks>,
    achievements: Achievements,
    totalDaysActive: int,
    challenges: Challenges,
    dailyResults: seq<DailyResult>,
    diary: seq<Observation>,
    lastActivity: TimeStamp,
    createdAt: int,
    notifications: NotifySettings)

  // ---------------------------------------------------------------------
  // Fetching a record
  // ---------------------------------------------------------------------

  /** `_create_new_user`: free, zeroed counters reset today, empty histories. */
  function NewUser(now: int): (u: User)
    ensures !u.subscription.active && u.usage == Usage(0, 0, 0, 0, Today(now))
    ensures u.achievements.unlocked == [] && u.retroAlerts == map[] && u.lastActivity == At(now)
    ensures u.lifePathNumber.None? && u.soulNumber.None?
  {
    User(None, None, None, None, Subscription(false, None, "free"), Usage(0, 0, 0, 0, Today(now)), map[],
         map["single_card" := ClearedSpread, "daily_three" := ClearedSpread], 0, [], [], NoDay, [], map[],
         Achievements([], 0, NoDay, 0), 0, Challenges(None, [], 0, NoDay), [], [], At(now), now,
         NotifySettings(Some(true), Some(ConfigTime)))
  }

  /** An administrator's mode: the stored one when it is "premium" or "free", else "premium". */
  function AdminMode(u: User): (mode: string)
    ensures mode == "premium" || mode == "free"
  {
    if u.adminMode == Some("premium") || u.adminMode == Some("free") then u.adminMode.value else "premium"
  }

  /** The subscription of an administrator follows the admin mode. */
  function SyncAdmin(u: User): (r: User)
    ensures r.subscription.active <==> AdminMode(u) != "free"
    ensures r.adminMode == Some(AdminMode(u))
    ensures r.usage == u.usage && r.lastActivity == u.lastActivity
  {
    var mode := AdminMode(u);
    var desired := mode != "free";
    var u1 := u.(adminMode := Some(mode));
    if u1.subscription.active != desired then
      u1.(subscription := u1.subscription.(active := desired, kind := if desired then "premium" else "free"))
    else u1
  }

  /** What `_get_user` does to a record: stamps the activity time and, for an administrator, syncs the subscription. */
  function Touch(u: User, now: int, isAdmin: bool): (r: User)
    ensures r.lastActivity == At(now) && r.usage == u.usage
    ensures !isAdmin ==> r == u.(lastActivity := At(now))
  {
    var u1 := u.(lastActivity := At(now));
    if isAdmin then SyncAdmin(u1) else u1
  }

  /** A second fetch at the same time changes nothing more. */
  lemma TouchIdempotent(u: User, now: int, isAdmin: bool)
    ensures Touch(Touch(u, now, isAdmin), now, isAdmin) == Touch(u, now, isAdmin)
  {
  }

  /** Fetching a record again leaves a history written after the first fetch in place. */
  lemma TouchKeepsHistory(u: User, now: int, isAdmin: bool, h: seq<string>)
    ensures Touch(u.(textHistory := h), now, isAdmin) == Touch(u, now, isAdmin).(textHistory := h)
  {
  }

  /** The record `_get_user` returns: the stored one or a new one, touched. */
  function Fetched(users: map<int, User>, id: int, now: int, isAdmin: bool): User
  {
    Touch(if id in users then users[id] else NewUser(now), now, isAdmin)
  }

  /** An administrator is premium after any fetch unless the admin mode is "free". */
  lemma AdminPremiumUnlessFree(users: map<int, User>, id: int, now: int)
    ensures var u := Fetched(users, id, now, true);
            u.subscription.active <==> u.adminMode != Some("free")
  {
  }

  // ---------------------------------------------------------------------
  // The daily reset
  // ---------------------------------------------------------------------

  /** A spread cache entry survives the reset only when it is dated today. */
  function ResetSpread(cache: map<string, TarotEntry>, key: string, today: int): (r: map<string, TarotEntry>)
    ensures key in cache && cache[key].date != OnDay(today) ==> r == cache[key := ClearedSpread]
    ensures !(key in cache && cache[key].date != OnDay(today)) ==> r == cache
  {
    if key in cache && cache[key].date != OnDay(today) then cache[key := ClearedSpread] else cache
  }

  /**
   * `_update_daily_cache_if_needed` on a fetched record: on a new day the
   * four usage counters go to zero, the reset day becomes today and the
   * daily caches are cleared.
   */
  function ResetIfNewDay(u: User, today: int): User
  {
    if u.usage.lastReset == today then u
    else
      u.(usage := Usage(0, 0, 0, 0, today),
         dailyCache := map[],
         tarotCache := ResetSpread(ResetSpread(u.tarotCache, "single_card", today), "daily_three", today),
         repeatViews := 0)
  }

  lemma ResetRules(u: User, today: int)
    ensures var r := ResetIfNewDay(u, today);
            r.usage.lastReset == today
            && (u.usage.lastReset == today ==> r == u)
            && (u.usage.lastReset != today ==>
                  r.usage == Usage(0, 0, 0, 0, today) && r.dailyCache == map[] && r.repeatViews == 0
                  && r.subscription == u.subscription && r.achievements == u.achievements)
  {
  }

  /** After the reset, a spread cache entry that is not dated today is cleared, and one dated today is kept. */
  lemma ResetKeepsTodaysSpreads(u: User, today: int, key: string)
    requires u.usage.lastReset != today && (key == "single_card" || key == "daily_three") && key in u.tarotCache
    ensures var r := ResetIfNewDay(u, today);
            key in r.tarotCache
            && (u.tarotCache[key].date == OnDay(today) ==> r.tarotCache[key] == u.tarotCache[key])
            && (u.tarotCache[key].date != OnDay(today) ==> r.tarotCache[key] == ClearedSpread)
  {
  }

  /** The reset is idempotent within a day. */
  lemma ResetIdempotent(u: User, today: int)
    ensures ResetIfNewDay(ResetIfNewDay(u, today), today) == ResetIfNewDay(u, today)
  {
  }

  // ---------------------------------------------------------------------
  // Limits
  // ---------------------------------------------------------------------

  /** `can_make_request` on the reset record: premium always passes and counts; free passes and counts below the limit. */
  function RequestDecision(u: User, limit: int): (r: (bool, User))
    ensures u.subscription.active ==> r.0 && r.1 == u.(usage := u.usage.(dailyRequests := u.usage.dailyRequests + 1))
    ensures !u.subscription.active && u.usage.dailyRequests >= limit ==> !r.0 && r.1 == u
    ensures !u.subscription.active && u.usage.dailyRequests < limit ==>
              r.0 && r.1 == u.(usage := u.usage.(dailyRequests := u.usage.dailyRequests + 1))
  {
    if u.subscription.active then (true, u.(usage := u.usage.(dailyRequests := u.usage.dailyRequests + 1)))
    else if u.usage.dailyRequests >= limit then (false, u)
    else (true, u.(usage := u.usage.(dailyRequests := u.usage.dailyRequests + 1)))
  }

  /** A free user's counter never passes the limit by way of `can_make_request`. */
  lemma FreeRequestsBounded(u: User, limit: int)
    requires !u.subscription.active && u.usage.dailyRequests <= limit
    ensures RequestDecision(u, limit).1.usage.dailyRequests <= limit
  {
  }

  /** A free user is refused exactly when the counter has reached the limit. */
  lemma FreeRequestRefusal(u: User, limit: int)
    requires !u.subscription.active
    ensures !RequestDecision(u, limit).0 <==> u.usage.dailyRequests >= limit
  {
  }

  /** The compatibility check: premium, or fewer checks than the limit. */
  function CompatibilityAllowed(u: User, limit: int): (ok: bool)
    ensures ok <==> u.subscription.active || u.usage.compatibilityChecks < limit
  {
    u.subscription.active || u.usage.compatibilityChecks < limit
  }

  /** A repeat view of a cached result: premium, or fewer repeat views than the limit. */
  function RepeatViewAllowed(u: User, limit: int): (ok: bool)
    ensures ok <==> u.subscription.active || u.usage.repeatViews < limit
  {
    u.subscription.active || u.usage.repeatViews < limit
  }

  /** `increment_usage`: "daily" counts a request, "compatibility" a check, anything else nothing. */
  function CountUsage(u: User, requestType: string): (r: User)
    ensures requestType == "daily" ==> r.usage == u.usage.(dailyRequests := u.usage.dailyRequests + 1)
    ensures requestType == "compatibility" ==> r.usage == u.usage.(compatibilityChecks := u.usage.compatibilityChecks + 1)
    ensures requestType != "daily" && requestType != "compatibility" ==> r == u
  {
    if requestType == "daily" then u.(usage := u.usage.(dailyRequests := u.usage.dailyRequests + 1))
    else if requestType == "compatibility" then u.(usage := u.usage.(compatibilityChecks := u.usage.compatibilityChecks + 1))
    else u
  }

  // ---------------------------------------------------------------------
  // Histories
  // ---------------------------------------------------------------------

  /** Appends and keeps the newest `cap` entries. */
  function AppendCapped<T>(history: seq<T>, x: T, cap: nat): (r: seq<T>)
    requires cap >= 1
    ensures |r| == if |history| + 1 <= cap then |history| + 1 else cap
    ensures r == (history + [x])[|history| + 1 - |r|..]
    ensures r[|r| - 1] == x
  {
    SliceFrom(history + [x], -(cap as int))
  }

  /** Appends, then cuts the front only when the cap is exceeded. */
  method AppendAndCap<T>(history: seq<T>, x: T, cap: nat) returns (r: seq<T>)
    requires cap >= 1
    ensures r == AppendCapped(history, x, cap)
  {
    r := history + [x];
    if |r| > cap {
      r := r[|r| - cap..];
    }
  }

  /** Nothing older than the kept window survives, and nothing inside it is lost. */
  lemma AppendCappedKeepsNewest<T>(history: seq<T>, x: T, cap: nat, i: int)
    requires cap >= 1 && 0 <= i < |history| && |history| - i < cap
    ensures history[i] in AppendCapped(history, x, cap)
  {
    var r := AppendCapped(history, x, cap);
    var start := |history| + 1 - |r|;
    assert (history + [x])[i] == history[i];
    assert r[i - start] == (history + [x])[i];
  }

  /** `get_tarot_history`: the newest `limit` readings, or all of them for a zero limit. */
  function RecentReadings(history: seq<Reading>, limit: int): (r: seq<Reading>)
    ensures limit > 0 ==> |r| == (if limit < |history| then limit else |history|)
    ensures limit > 0 ==> r == history[|history| - |r|..]
    ensures limit == 0 ==> r == history
  {
    if limit != 0 then SliceFrom(history, -limit) else history
  }

  /** The diary entries whose time parses and lies in `[start, end]`, in order. */
  function InRange(entries: seq<Observation>, start: int, end: int): (r: seq<Observation>)
    ensures |r| <= |entries|
    ensures forall e | e in r :: e in entries && e.date.At? && start <= e.date.secs <= end
  {
    if entries == [] then []
    else
      var e := entries[|entries| - 1];
      InRange(entries[..|entries| - 1], start, end)
      + (if e.date.At? && start <= e.date.secs <= end then [e] else [])
  }
  /** One more entry is kept exactly when it is dated within the range. */
  lemma InRangeStep(entries: seq<Observation>, i: int, start: int, end: int)
    requires 0 <= i < |entries|
    ensures var e := entries[i];
            InRange(entries[..i + 1], start, end)
            == InRange(entries[..i], start, end) + (if e.date.At? && start <= e.date.secs <= end then [e] else [])
  {
    assert entries[..i + 1][..i] == entries[..i];
  }

  /** Whether the entry is dated within the range. */
  predicate Within(e: Observation, start: int, end: int)
  {
    e.date.At? && start <= e.date.secs <= end
  }

  /** The positions of the entries dated within the range, in increasing order. */
  function InRangeIndices(entries: seq<Observation>, start: int, end: int): (idx: seq<nat>)
    ensures forall k | 0 <= k < |idx| :: idx[k] < |entries|
    decreases |entries|
  {
    if entries == [] then []
    else
      var n := |entries| - 1;
      var init := InRangeIndices(entries[..n], start, end);
      if Within(entries[n], start, end) then init + [n] else init
  }

  /** The listed positions strictly increase, and a position is listed exactly when its entry is within the range. */
  lemma {:induction false} InRangeIndicesExact(entries: seq<Observation>, start: int, end: int)
    ensures var idx := InRangeIndices(entries, start, end);
            (forall k, l | 0 <= k < l < |idx| :: idx[k] < idx[l]) &&
            (forall i | 0 <= i < |entries| :: i in idx <==> Within(entries[i], start, end))
    decreases |entries|
  {
    if entries != [] {
      var n := |entries| - 1;
      InRangeIndicesExact(entries[..n], start, end);
      assert forall i | 0 <= i < n :: entries[..n][i] == entries[i];
    }
  }

  /**
   * The filter keeps the entries' order: its k-th entry is the entry at
   * the k-th listed position (positions listed by `InRangeIndicesExact`).
   */
  lemma {:induction false} InRangeInOrder(entries: seq<Observation>, start: int, end: int)
    ensures var r := InRange(entries, start, end);
            var idx := InRangeIndices(entries, start, end);
            |r| == |idx| && forall k | 0 <= k < |idx| :: r[k] == entries[idx[k]]
    decreases |entries|
  {
    if entries != [] {
      var n := |entries| - 1;
      var pre := entries[..n];
      InRangeInOrder(pre, start, end);
      var r0 := InRange(pre, start, end);
      var idx0 := InRangeIndices(pre, start, end);
      var r := InRange(entries, start, end);
      var idx := InRangeIndices(entries, start, end);
      assert r == r0 + (if Within(entries[n], start, end) then [entries[n]] else []);
      forall k | 0 <= k < |idx| ensures r[k] == entries[idx[k]] {
        if k < |idx0| {
          assert idx[k] == idx0[k] && r[k] == r0[k];
          assert pre[idx0[k]] == entries[idx0[k]];
        }
      }
    }
  }


  /** Every entry dated within the range is returned. */
  lemma {:induction false} InRangeComplete(entries: seq<Observation>, start: int, end: int, i: int)
    requires 0 <= i < |entries| && entries[i].date.At? && start <= entries[i].date.secs <= end
    ensures entries[i] in InRange(entries, start, end)
  {
    var n := |entries| - 1;
    if i < n {
      assert entries[..n][i] == entries[i];
      InRangeComplete(entries[..n], start, end, i);
    }
  }

  // ---------------------------------------------------------------------
  // Retrograde alert marks
  // ---------------------------------------------------------------------

  /** "pre" is kept under the pre-alert key; every other type under the start-alert key. */
  function MarkOf(marks: RetroMarks, alertType: string): Option<string>
  {
    if alertType == "pre" then marks.lastPre else marks.lastStart
  }

  function HasAlert(alerts: map<string, RetroMarks>, planet: string, alertType: string, date: string): bool
  {
    planet in alerts && MarkOf(alerts[planet], alertType) == Some(date)
  }

  function MarkAlert(alerts: map<string, RetroMarks>, planet: string, alertType: string, date: string): (r: map<string, RetroMarks>)
    ensures HasAlert(r, planet, alertType, date)
    ensures forall p | p in alerts && p != planet :: p in r && r[p] == alerts[p]
  {
    var marks := if planet in alerts then alerts[planet] else RetroMarks(None, None);
    if MarkOf(marks, alertType) == Some(date) then alerts[planet := marks]
    else if alertType == "pre" then alerts[planet := marks.(lastPre := Some(date))]
    else alerts[planet := marks.(lastStart := Some(date))]
  }

  /** Marking one kind of alert leaves the other kind's mark alone. */
  lemma MarkKeepsOtherKind(alerts: map<string, RetroMarks>, planet: string, alertType: string, date: string)
    requires planet in alerts
    ensures var r := MarkAlert(alerts, planet, alertType, date);
            (alertType == "pre" ==> r[planet].lastStart == alerts[planet].lastStart)
            && (alertType != "pre" ==> r[planet].lastPre == alerts[planet].lastPre)
  {
  }

  /** Re-marking an alert that is already marked for that date changes nothing. */
  lemma RemarkIsNoOp(alerts: map<string, RetroMarks>, planet: string, alertType: string, date: string)
    requires HasAlert(alerts, planet, alertType, date)
    ensures MarkAlert(alerts, planet, alertType, date) == alerts
  {
  }

  // ---------------------------------------------------------------------
  // Streaks, achievements and challenges
  // ---------------------------------------------------------------------

  /**
   * The streak after activity on `today` when the last activity was on
   * another day: the next day continues it, a gap or an unreadable date
   * starts over, an earlier-looking date keeps at least 1.
   */
  function NextStreak(last: DayStamp, streak: int, today: int): (s: int)
    requires last != OnDay(today)
    ensures s >= 1 || (last.OnDay? && today - last.day == 1 && s == streak + 1)
  {
    match last
    case NoDay => 1
    case BadDay => 1
    case OnDay(d) =>
      if today - d == 1 then streak + 1
      else if today - d > 1 then 1
      else if streak >= 1 then streak else 1
  }

  /** `update_streak` on the achievements and the active-day count. */
  function StreakUpdate(a: Achievements, totalDaysActive: int, today: int): (r: (Achievements, int))
  {
    if a.lastActivityDate == OnDay(today) then (a, totalDaysActive)
    else
      var streak := NextStreak(a.lastActivityDate, a.streakDays, today);
      var longest := if streak > a.longestStreak then streak else a.longestStreak;
      (a.(streakDays := streak, lastActivityDate := OnDay(today), longestStreak := longest), totalDaysActive + 1)
  }

  lemma StreakRules(a: Achievements, total: int, today: int)
    ensures var (r, t) := StreakUpdate(a, total, today);
            (a.lastActivityDate == OnDay(today) ==> r == a && t == total)
            && (a.lastActivityDate == OnDay(today - 1) ==> r.streakDays == a.streakDays + 1)
            && (a.lastActivityDate.OnDay? && today - a.lastActivityDate.day > 1 ==> r.streakDays == 1)
            && (a.lastActivityDate.NoDay? || a.lastActivityDate.BadDay? ==> r.streakDays == 1)
            && (a.lastActivityDate != OnDay(today) ==> r.lastActivityDate == OnDay(today) && t == total + 1)
  {
  }

  /** The longest streak never falls below the current one once a day has been counted. */
  lemma LongestCoversCurrent(a: Achievements, total: int, today: int)
    requires a.lastActivityDate != OnDay(today)
    ensures StreakUpdate(a, total, today).0.longestStreak >= StreakUpdate(a, total, today).0.streakDays
  {
  }

  /** A second update on the same day changes nothing. */
  lemma StreakSameDayStable(a: Achievements, total: int, today: int)
    ensures var (r, t) := StreakUpdate(a, total, today);
            StreakUpdate(r, t, today) == (r, t)
  {
  }

  predicate Distinct(s: seq<string>)
  {
    forall i, j | 0 <= i < j < |s| :: s[i] != s[j]
  }

  /** `check_and_unlock_achievement`: true and appended the first time, false and unchanged after. */
  function Unlock(unlocked: seq<string>, id: string): (r: (bool, seq<string>))
    ensures r.0 <==> id !in unlocked
    ensures r.0 ==> r.1 == unlocked + [id]
    ensures !r.0 ==> r.1 == unlocked
    ensures id in r.1
  {
    if id in unlocked then (false, unlocked) else (true, unlocked + [id])
  }

  /** Unlocking keeps the list free of duplicates, and a second unlock of the same id reports false. */
  lemma UnlockOnce(unlocked: seq<string>, id: string)
    requires Distinct(unlocked)
    ensures Distinct(Unlock(unlocked, id).1)
    ensures !Unlock(Unlock(unlocked, id).1, id).0
  {
  }

  /** `set_daily_challenge`: the new current challenge, dated today. */
  function SetChallenge(c: Challenges, id: string, today: int): (r: Challenges)
    ensures r.current == Some(Challenge(id, OnDay(today)))
    ensures r.completedToday == c.completedToday && r.streak == c.streak
  {
    c.(current := Some(Challenge(id, OnDay(today))))
  }

  /**
   * `complete_daily_challenge`: refused without a current challenge, for
   * a challenge not set today, or when it was already completed;
   * otherwise recorded, the challenge streak advanced and the challenge
   * day set to today.
   */
  function CompleteChallenge(c: Challenges, today: int): (r: (bool, Challenges))
    ensures !r.0 <==> c.current.None? || c.current.value.date != OnDay(today) || c.current.value.id in c.completedToday
    ensures !r.0 ==> r.1 == c
    ensures r.0 ==> r.1.completedToday == c.completedToday + [c.current.value.id]
                    && r.1.lastChallengeDate == OnDay(today) && r.1.current == c.current
  {
    if c.current.None? then (false, c)
    else if c.current.value.date != OnDay(today) then (false, c)
    else if c.current.value.id in c.completedToday then (false, c)
    else
      var streak := if c.lastChallengeDate == OnDay(today) then c.streak
                    else NextStreak(c.lastChallengeDate, c.streak, today);
      (true, c.(completedToday := c.completedToday + [c.current.value.id], streak := streak, lastChallengeDate := OnDay(today)))
  }

  /** A challenge is completed at most once: a second completion is refused. */
  lemma ChallengeCompletedOnce(c: Challenges, today: int)
    requires CompleteChallenge(c, today).0
    ensures !CompleteChallenge(CompleteChallenge(c, today).1, today).0
  {
  }

  // ---------------------------------------------------------------------
  // Clean-up
  // ---------------------------------------------------------------------

  /** A user is stale when the last activity parses and lies before the cutoff; unreadable dates are kept. */
  predicate Stale(u: User, cutoff: int)
  {
    u.lastActivity.At? && u.lastActivity.secs < cutoff
  }

  // ---------------------------------------------------------------------
  // The store
  // ---------------------------------------------------------------------

  /** Python truthiness of a stored notification time: an empty given time is falsy. */
  predicate SetTime(t: Option<NotifyTime>)
  {
    t.Some? && (t.value.ConfigTime? || t.value.text != [])
  }

  /**
   * `set_notifications` on a record: the switch is stored; the time is the
   * given one if non-empty, else the stored one if set, else the
   * configured default; switching on clears the last daily send.
   */
  function Notify(u: User, enabled: bool, time: Option<string>): (r: User)
    ensures r.notifications.enabled == Some(enabled)
    ensures time.Some? && time.value != [] ==> r.notifications.time == Some(GivenTime(time.value))
    ensures !(time.Some? && time.value != []) && SetTime(u.notifications.time) ==> r.notifications.time == u.notifications.time
    ensures !(time.Some? && time.value != []) && !SetTime(u.notifications.time) ==> r.notifications.time == Some(ConfigTime)
    ensures SetTime(r.notifications.time)
    ensures enabled ==> r.lastDailyNotification == NoDay
    ensures !enabled ==> r.lastDailyNotification == u.lastDailyNotification
    ensures r.(notifications := u.notifications, lastDailyNotification := u.lastDailyNotification) == u
  {
    var target :=
      if time.Some? && time.value != [] then Some(GivenTime(time.value))
      else if SetTime(u.notifications.time) then u.notifications.time
      else Some(ConfigTime);
    var u1 := u.(notifications := NotifySettings(Some(enabled), target));
    if enabled then u1.(lastDailyNotification := NoDay) else u1
  }

  /** Switching notifications on makes today's daily notification due again, even if it was sent. */
  lemma NotifyOnMakesDailyDue(u: User, time: Option<string>, today: int)
    ensures Notify(u, true, time).lastDailyNotification != OnDay(today)
  {
  }

  /** Changing only the switch keeps the time already chosen, and the configured default is never lost. */
  lemma NotifyKeepsTime(u: User, enabled: bool, again: bool)
    ensures Notify(Notify(u, enabled, None), again, None).notifications.time == Notify(u, enabled, None).notifications.time
    ensures Notify(u, enabled, Some("")).notifications.time == Notify(u, enabled, None).notifications.time
  {
  }

  /** `save_daily_result` on a fetched record: the result is appended and its two numbers copied onto the record. */
  function Saved(u: User, r: DailyResult): (s: User)
    ensures |s.dailyResults| == |u.dailyResults| + 1 && s.dailyResults[|u.dailyResults|] == r
    ensures s.dailyResults[..|u.dailyResults|] == u.dailyResults
    ensures s.lifePathNumber == Some(r.lifePath) && s.soulNumber == Some(r.soulNumber)
    ensures s.(dailyResults := u.dailyResults, lifePathNumber := u.lifePathNumber, soulNumber := u.soulNumber) == u
  {
    u.(dailyResults := u.dailyResults + [r], lifePathNumber := Some(r.lifePath), soulNumber := Some(r.soulNumber))
  }

  /**
   * After a result is saved, any later fetch of the record sees it as the
   * newest result and reads its life path and soul number from the record.
   */
  lemma SavedIsReadBack(users: map<int, User>, id: int, now: int, later: int, isAdmin: bool, r: DailyResult)
    ensures var s := Fetched(users[id := Saved(Fetched(users, id, now, isAdmin), r)], id, later, isAdmin);
            s.dailyResults != [] && s.dailyResults[|s.dailyResults| - 1] == r &&
            s.lifePathNumber == Some(r.lifePath) && s.soulNumber == Some(r.soulNumber)
  {
    var u := Saved(Fetched(users, id, now, isAdmin), r);
    assert Touch(u, later, isAdmin).dailyResults == u.dailyResults;
  }

  /** `set_subscription` on a fetched record: activity, expiry and type, and for an administrator the mode. */
  function Subscribed(u: User, active: bool, expires: Option<string>, isAdmin: bool): (r: User)
    ensures r.subscription == Subscription(active, expires, if active then "premium" else "free")
    ensures r.adminMode == if isAdmin then Some(if active then "premium" else "free") else u.adminMode
    ensures r.(subscription := u.subscription, adminMode := u.adminMode) == u
  {
    var r := u.(subscription := Subscription(active, expires, if active then "premium" else "free"));
    if isAdmin then r.(adminMode := Some(if active then "premium" else "free")) else r
  }

  /**
   * A subscription state that was set survives every later fetch: for an
   * administrator the mode is set along with it, so the sync on fetch
   * keeps it.
   */
  lemma SubscriptionSticks(u: User, active: bool, expires: Option<string>, isAdmin: bool, later: int)
    ensures Touch(Subscribed(u, active, expires, isAdmin), later, isAdmin).subscription.active == active
  {
    var r := Subscribed(u, active, expires, isAdmin);
    if isAdmin {
      assert AdminMode(r.(lastActivity := At(later))) == (if active then "premium" else "free");
    }
  }

  class UserStorage {
    var users: map<int, User>
    /** The administrator ids. */
    const admins: set<int>
    const freeDailyLimit: int
    const freeCompatibilityLimit: int
    const freeRepeatViewsLimit: int

    constructor(admins: set<int>, freeDailyLimit: int, freeCompatibilityLimit: int, freeRepeatViewsLimit: int)
      ensures users == map[] && this.admins == admins
      ensures this.freeDailyLimit == freeDailyLimit && this.freeCompatibilityLimit == freeCompatibilityLimit
      ensures this.freeRepeatViewsLimit == freeRepeatViewsLimit
    {
      users := map[];
      this.admins := admins;
      this.freeDailyLimit := freeDailyLimit;
      this.freeCompatibilityLimit := freeCompatibilityLimit;
      this.freeRepeatViewsLimit := freeRepeatViewsLimit;
    }

    /** `_get_user` / `get_user`: creates the record if needed and refreshes it. */
    method GetUser(id: int, now: int) returns (u: User)
      modifies this
      ensures u == Fetched(old(users), id, now, id in admins)
      ensures users == old(users)[id := u]
    {
      var stored := if id in users then users[id] else NewUser(now);
      u := Touch(stored, now, id in admins);
      users := users[id := u];
    }

    /** `_update_daily_cache_if_needed`. */
    method UpdateDailyCacheIfNeeded(id: int, now: int)
      modifies this
      ensures users == old(users)[id := ResetIfNewDay(Fetched(old(users), id, now, id in admins), Today(now))]
    {
      var u := GetUser(id, now);
      Dicts.UpdateTwice(old(users), id, u, ResetIfNewDay(u, Today(now)));
      users := users[id := ResetIfNewDay(u, Today(now))];
    }

    /** The record after the reset and a second fetch, as the limit checks see it. */
    function Refreshed(id: int, now: int): User
      reads this
    {
      Touch(ResetIfNewDay(Fetched(users, id, now, id in admins), Today(now)), now, id in admins)
    }

    method CanMakeRequest(id: int, now: int) returns (ok: bool)
      modifies this
      ensures var (decision, after) := RequestDecision(old(Refreshed(id, now)), freeDailyLimit);
              ok == decision && users == old(users)[id := after]
    {
      UpdateDailyCacheIfNeeded(id, now);
      var u := GetUser(id, now);
      var (decision, after) := RequestDecision(u, freeDailyLimit);
      users := users[id := after];
      ok := decision;
    }

    method CanCheckCompatibility(id: int, now: int) returns (ok: bool)
      modifies this
      ensures ok == CompatibilityAllowed(old(Refreshed(id, now)), freeCompatibilityLimit)
      ensures users == old(users)[id := old(Refreshed(id, now))]
    {
      UpdateDailyCacheIfNeeded(id, now);
      var u := GetUser(id, now);
      ok := CompatibilityAllowed(u, freeCompatibilityLimit);
    }

    method IncrementUsage(id: int, now: int, requestType: string)
      modifies this
      ensures users == old(users)[id := CountUsage(old(Refreshed(id, now)), requestType)]
    {
      UpdateDailyCacheIfNeeded(id, now);
      var u := GetUser(id, now);
      Dicts.UpdateTwice(old(users), id, u, CountUsage(u, requestType));
      users := users[id := CountUsage(u, requestType)];
    }

    method CanViewCachedResult(id: int, now: int) returns (ok: bool)
      modifies this
      ensures ok == RepeatViewAllowed(old(Refreshed(id, now)), freeRepeatViewsLimit)
      ensures users == old(users)[id := old(Refreshed(id, now))]
    {
      UpdateDailyCacheIfNeeded(id, now);
      var u := GetUser(id, now);
      ok := RepeatViewAllowed(u, freeRepeatViewsLimit);
    }

    method IncrementRepeatView(id: int, now: int)
      modifies this
      ensures var u := old(Refreshed(id, now));
              users == old(users)[id := u.(usage := u.usage.(repeatViews := u.usage.repeatViews + 1))]
    {
      UpdateDailyCacheIfNeeded(id, now);
      var u := GetUser(id, now);
      Dicts.UpdateTwice(old(users), id, u, u.(usage := u.usage.(repeatViews := u.usage.repeatViews + 1)));
      users := users[id := u.(usage := u.usage.(repeatViews := u.usage.repeatViews + 1))];
    }

    /** `save_daily_result`: appends the result and stores the two numbers. */
    method SaveDailyResult(id: int, now: int, birthDate: string, lifePath: int, soulNumber: int, text: Option<string>)
      modifies this
      ensures var u := Fetched(old(users), id, now, id in admins);
              users == old(users)[id := Saved(u, DailyResult(birthDate, lifePath, soulNumber, text, now))]
    {
      var u := GetUser(id, now);
      var r := DailyResult(birthDate, lifePath, soulNumber, text, now);
      Dicts.UpdateTwice(old(users), id, u, Saved(u, r));
      users := users[id := Saved(u, r)];
    }

    /** `get_cached_result`: the newest saved result, if any. */
    method GetCachedResult(id: int, now: int) returns (r: Option<DailyResult>)
      modifies this
      ensures var u := Fetched(old(users), id, now, id in admins);
              (u.dailyResults == [] ==> r.None?) && (u.dailyResults != [] ==> r == Some(u.dailyResults[|u.dailyResults| - 1]))
      ensures users == old(users)[id := Fetched(old(users), id, now, id in admins)]
    {
      var u := GetUser(id, now);
      if u.dailyResults == [] {
        r := None;
      } else {
        r := Some(u.dailyResults[|u.dailyResults| - 1]);
      }
    }

    method AddTextToHistory(id: int, now: int, text: string)
      modifies this
      ensures var u := Fetched(old(users), id, now, id in admins);
              users == old(users)[id := u.(textHistory := u.textHistory + [text])]
    {
      var u := GetUser(id, now);
      Dicts.UpdateTwice(old(users), id, u, u.(textHistory := u.textHistory + [text]));
      users := users[id := u.(textHistory := u.textHistory + [text])];
    }

    /** `get_text_history`. */
    method GetTextHistory(id: int, now: int) returns (h: seq<string>)
      modifies this
      ensures h == Fetched(old(users), id, now, id in admins).textHistory
      ensures users == old(users)[id := Fetched(old(users), id, now, id in admins)]
    {
      var u := GetUser(id, now);
      h := u.textHistory;
    }

    /** `update_user(user_id, text_history=...)`: the fetched record with the history replaced. */
    method UpdateTextHistory(id: int, now: int, history: seq<string>)
      modifies this
      ensures users == old(users)[id := Fetched(old(users), id, now, id in admins).(textHistory := history)]
    {
      var u := GetUser(id, now);
      Dicts.UpdateTwice(old(users), id, u, u.(textHistory := history));
      users := users[id := u.(textHistory := history)];
    }

    /** `add_affirmation_to_history`: appends and keeps the newest 10. */
    method AddAffirmationToHistory(id: int, now: int, text: string)
      modifies this
      ensures var u := Fetched(old(users), id, now, id in admins);
              users == old(users)[id := u.(affirmationHistory := AppendCapped(u.affirmationHistory, text, 10))]
    {
      var u := GetUser(id, now);
      Dicts.UpdateTwice(old(users), id, u, u.(affirmationHistory := AppendCapped(u.affirmationHistory, text, 10)));
      users := users[id := u.(affirmationHistory := AppendCapped(u.affirmationHistory, text, 10))];
    }

    /** `add_tarot_reading`: appends and keeps the newest 100. */
    method AddTarotReading(id: int, now: int, spreadKey: string, question: Option<string>, cards: seq<string>)
      modifies this
      ensures var u := Fetched(old(users), id, now, id in admins);
              users == old(users)[id := u.(tarotHistory := AppendCapped(u.tarotHistory, Reading(now, spreadKey, question, cards), 100))]
    {
      var u := GetUser(id, now);
      var reading := Reading(now, spreadKey, question, cards);
      var history := AppendAndCap(u.tarotHistory, reading, 100);
      UpdateTwice(old(users), id, u, u.(tarotHistory := history));
      users := users[id := u.(tarotHistory := history)];
    }

    method GetTarotHistory(id: int, now: int, limit: int) returns (r: seq<Reading>)
      modifies this
      ensures r == RecentReadings(Fetched(old(users), id, now, id in admins).tarotHistory, limit)
      ensures users == old(users)[id := Fetched(old(users), id, now, id in admins)]
    {
      var u := GetUser(id, now);
      r := RecentReadings(u.tarotHistory, limit);
    }

    /** `get_diary_entries_in_range`: the loop over the diary. */
    method DiaryEntriesInRange(id: int, now: int, start: int, end: int) returns (r: seq<Observation>)
      modifies this
      ensures r == InRange(Fetched(old(users), id, now, id in admins).diary, start, end)
      ensures users == old(users)[id := Fetched(old(users), id, now, id in admins)]
    {
      var u := GetUser(id, now);
      var entries := u.diary;
      r := [];
      var i := 0;
      while i < |entries|
        invariant 0 <= i <= |entries|
        invariant r == InRange(entries[..i], start, end)
        invariant users == old(users)[id := u]
      {
        InRangeStep(entries, i, start, end);
        var e := entries[i];
        if e.date.At? && start <= e.date.secs <= end {
          r := r + [e];
        }
        i := i + 1;
      }
      assert entries[..i] == entries;
    }

    method SetBirthDate(id: int, now: int, birthDate: string)
      modifies this
      ensures users == old(users)[id := Fetched(old(users), id, now, id in admins).(birthDate := Some(birthDate))]
    {
      var u := GetUser(id, now);
      Dicts.UpdateTwice(old(users), id, u, u.(birthDate := Some(birthDate)));
      users := users[id := u.(birthDate := Some(birthDate))];
    }

    /** `set_subscription`: activity, expiry and type; an administrator's mode follows. */
    method SetSubscription(id: int, now: int, active: bool, expires: Option<string>)
      modifies this
      ensures users == old(users)[id := Subscribed(Fetched(old(users), id, now, id in admins), active, expires, id in admins)]
    {
      var u := GetUser(id, now);
      Dicts.UpdateTwice(old(users), id, u, Subscribed(u, active, expires, id in admins));
      users := users[id := Subscribed(u, active, expires, id in admins)];
    }

    /** `set_notifications`. */
    method SetNotifications(id: int, now: int, enabled: bool, time: Option<string>)
      modifies this
      ensures users == old(users)[id := Notify(Fetched(old(users), id, now, id in admins), enabled, time)]
    {
      var u := GetUser(id, now);
      Dicts.UpdateTwice(old(users), id, u, Notify(u, enabled, time));
      users := users[id := Notify(u, enabled, time)];
    }

    /** `can_send_daily_notification`: not yet sent today. */
    method CanSendDailyNotification(id: int, now: int) returns (ok: bool)
      modifies this
      ensures ok <==> Fetched(old(users), id, now, id in admins).lastDailyNotification != OnDay(Today(now))
      ensures users == old(users)[id := Fetched(old(users), id, now, id in admins)]
    {
      var u := GetUser(id, now);
      ok := u.lastDailyNotification != OnDay(Today(now));
    }

    method MarkDailyNotificationSent(id: int, now: int)
      modifies this
      ensures users == old(users)[id := Fetched(old(users), id, now, id in admins).(lastDailyNotification := OnDay(Today(now)))]
    {
      var u := GetUser(id, now);
      Dicts.UpdateTwice(old(users), id, u, u.(lastDailyNotification := OnDay(Today(now))));
      users := users[id := u.(lastDailyNotification := OnDay(Today(now)))];
    }

    method HasRetroAlert(id: int, now: int, planet: string, alertType: string, date: string) returns (has: bool)
      modifies this
      ensures has == HasAlert(Fetched(old(users), id, now, id in admins).retroAlerts, planet, alertType, date)
      ensures users == old(users)[id := Fetched(old(users), id, now, id in admins)]
    {
      var u := GetUser(id, now);
      has := HasAlert(u.retroAlerts, planet, alertType, date);
    }

    method MarkRetroAlert(id: int, now: int, planet: string, alertType: string, date: string)
      modifies this
      ensures var u := Fetched(old(users), id, now, id in admins);
              users == old(users)[id := u.(retroAlerts := MarkAlert(u.retroAlerts, planet, alertType, date))]
    {
      var u := GetUser(id, now);
      Dicts.UpdateTwice(old(users), id, u, u.(retroAlerts := MarkAlert(u.retroAlerts, planet, alertType, date)));
      users := users[id := u.(retroAlerts := MarkAlert(u.retroAlerts, planet, alertType, date))];
    }

    method UpdateStreak(id: int, now: int) returns (streak: int)
      modifies this
      ensures var u := Fetched(old(users), id, now, id in admins);
              var (a, t) := StreakUpdate(u.achievements, u.totalDaysActive, Today(now));
              streak == a.streakDays && users == old(users)[id := u.(achievements := a, totalDaysActive := t)]
    {
      var u := GetUser(id, now);
      var (a, t) := StreakUpdate(u.achievements, u.totalDaysActive, Today(now));
      users := users[id := u.(achievements := a, totalDaysActive := t)];
      streak := a.streakDays;
    }

    method CheckAndUnlockAchievement(id: int, now: int, achievement: string) returns (first: bool)
      modifies this
      ensures var u := Fetched(old(users), id, now, id in admins);
              var (f, unlocked) := Unlock(u.achievements.unlocked, achievement);
              first == f && users == old(users)[id := u.(achievements := u.achievements.(unlocked := unlocked))]
    {
      var u := GetUser(id, now);
      var (f, unlocked) := Unlock(u.achievements.unlocked, achievement);
      users := users[id := u.(achievements := u.achievements.(unlocked := unlocked))];
      first := f;
    }

    method SetDailyChallenge(id: int, now: int, challenge: string)
      modifies this
      ensures var u := Fetched(old(users), id, now, id in admins);
              users == old(users)[id := u.(challenges := SetChallenge(u.challenges, challenge, Today(now)))]
    {
      var u := GetUser(id, now);
      Dicts.UpdateTwice(old(users), id, u, u.(challenges := SetChallenge(u.challenges, challenge, Today(now))));
      users := users[id := u.(challenges := SetChallenge(u.challenges, challenge, Today(now)))];
    }

    method CompleteDailyChallenge(id: int, now: int) returns (done: bool)
      modifies this
      ensures var u := Fetched(old(users), id, now, id in admins);
              var (d, c) := CompleteChallenge(u.challenges, Today(now));
              done == d && users == old(users)[id := u.(challenges := c)]
    {
      var u := GetUser(id, now);
      var (d, c) := CompleteChallenge(u.challenges, Today(now));
      users := users[id := u.(challenges := c)];
      done := d;
    }

    /** `cleanup_old_data`: removes every stale user and reports how many went. */
    method CleanupOldData(now: int, days: int) returns (count: nat)
      modifies this
      ensures var cutoff := now - days * SecondsPerDay;
              users == map id | id in old(users) && !Stale(old(users)[id], cutoff) :: old(users)[id]
      ensures count == |set id | id in old(users) && Stale(old(users)[id], now - days * SecondsPerDay)|
    {
      var cutoff := now - days * SecondsPerDay;
      var all := users;
      var pending := all.Keys;
      var doomed: set<int> := {};
      while pending != {}
        invariant pending <= all.Keys
        invariant doomed == set id | id in all && id !in pending && Stale(all[id], cutoff)
        decreases pending
      {
        EmptyWhenNoMember(pending);
        var k :| k in pending;
        if Stale(all[k], cutoff) {
          doomed := doomed + {k};
        }
        pending := pending - {k};
      }
      assert doomed == set id | id in all && Stale(all[id], cutoff);
      users := map id | id in all && id !in doomed :: all[id];
      count := |doomed|;
    }
  }
}
