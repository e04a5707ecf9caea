/**
 * The original user store of the bot: one record per user with the
 * subscription, two daily counters, the notification settings and a text
 * history capped at 50. Unlike the shared store, its limit checks do not
 * count the request, and its clean-up also drops records whose activity
 * time cannot be read.
 */
module RootStorage {
  import opened Wrappers
  import opened Slices
  import opened Dicts
  import SharedStorage
  import SharedCalculations
  import RootCalculations

  datatype Usage = Usage(dailyRequests: int, compatibilityChecks: int, lastReset: SharedStorage.DayStamp)

  /** The notification settings; a key that is absent is `None`. */
  datatype Notifications = Notifications(enabled: Option<bool>, time: Option<string>)

  datatype User = User(
    birthDate: Option<string>,
    lifePath: Option<int>,
    soul: Option<int>,
    subscription: SharedStorage.Subscription,
    usage: Usage,
    notifications: Notifications,
    textHistory: seq<string>,
    lastDailyNotification: SharedStorage.DayStamp,
    createdAt: int,
    lastActivity: SharedStorage.TimeStamp,
    /** The request times per rate-limit key, kept by the security helper. */
    rateLimits: map<string, seq<int>>,
    /** Keys `update_user` was given that no rule here reads. */
    extra: map<string, string>)

  const HistoryCap: nat := 50
  const FreeDailyRequests: int := 3
  const FreeCompatibilityChecks: int := 1

  /** The record `get_user` creates: free, counters at zero as of today, notifications on at 09:00. */
  function NewUser(now: int): (u: User)
    ensures !u.subscription.active && u.usage == Usage(0, 0, SharedStorage.OnDay(SharedStorage.Today(now)))
    ensures u.notifications == Notifications(Some(true), Some("09:00"))
    ensures u.textHistory == [] && u.lastActivity == SharedStorage.At(now) && u.createdAt == now
  {
    User(None, None, None, SharedStorage.Subscription(false, None, "free"),
         Usage(0, 0, SharedStorage.OnDay(SharedStorage.Today(now))),
         Notifications(Some(true), Some("09:00")), [], SharedStorage.NoDay, now, SharedStorage.At(now), map[], map[])
  }

  /** `get_user`: a new record for an unknown id, otherwise the stored one with a fresh activity time. */
  function Fetched(users: map<int, User>, id: int, now: int): (u: User)
    ensures id in users ==> u == users[id].(lastActivity := SharedStorage.At(now))
    ensures id !in users ==> u == NewUser(now)
  {
    if id in users then users[id].(lastActivity := SharedStorage.At(now)) else NewUser(now)
  }

  // ---------------------------------------------------------------------
  // update_user
  // ---------------------------------------------------------------------

  /** One keyword argument of `update_user`. */
  datatype Field =
    | BirthDate(birthDate: Option<string>)
    | LifePath(lifePath: Option<int>)
    | Soul(soul: Option<int>)
    | TextHistory(history: seq<string>)
    | NotificationSettings(settings: Notifications)
    | Other(key: string, value: string)

  function Apply(u: User, f: Field): User
  {
    match f
    case BirthDate(b) => u.(birthDate := b)
    case LifePath(n) => u.(lifePath := n)
    case Soul(n) => u.(soul := n)
    case TextHistory(h) => u.(textHistory := h)
    case NotificationSettings(s) => u.(notifications := s)
    case Other(k, v) => u.(extra := u.extra[k := v])
  }

  /** `user_data.update(kwargs)`: the arguments applied in order. */
  function ApplyAll(u: User, fields: seq<Field>): User
  {
    if fields == [] then u else Apply(ApplyAll(u, fields[..|fields| - 1]), fields[|fields| - 1])
  }

  /** `update_user`: the merged record, its activity time then overwritten. */
  function Updated(u: User, fields: seq<Field>, now: int): User
  {
    ApplyAll(u, fields).(lastActivity := SharedStorage.At(now))
  }

  /** The last value `fields` gives for an extra key, if any. */
  function LastOther(fields: seq<Field>, key: string): Option<string>
  {
    if fields == [] then None
    else
      var f := fields[|fields| - 1];
      if f.Other? && f.key == key then Some(f.value) else LastOther(fields[..|fields| - 1], key)
  }

  /**
   * An update changes only what it names: the counters, subscription and
   * notification date stay, and an extra key ends with the last value
   * given for it, or keeps its old value.
   */
  lemma UpdateMerges(u: User, fields: seq<Field>, now: int, key: string)
    ensures var r := Updated(u, fields, now);
            r.usage == u.usage && r.subscription == u.subscription && r.createdAt == u.createdAt
            && r.lastDailyNotification == u.lastDailyNotification && r.lastActivity == SharedStorage.At(now)
            && (LastOther(fields, key).Some? ==> key in r.extra && r.extra[key] == LastOther(fields, key).value)
            && (LastOther(fields, key).None? ==> (key in r.extra <==> key in u.extra) && (key in u.extra ==> r.extra[key] == u.extra[key]))
  {
    ApplyAllMerges(u, fields, key);
  }

  /** The merge without the activity time: what `update_user` keeps and what it takes from the arguments. */
  lemma {:induction false} ApplyAllMerges(u: User, fields: seq<Field>, key: string)
    ensures var r := ApplyAll(u, fields);
            r.usage == u.usage && r.subscription == u.subscription && r.createdAt == u.createdAt
            && r.lastDailyNotification == u.lastDailyNotification
            && (LastOther(fields, key).Some? ==> key in r.extra && r.extra[key] == LastOther(fields, key).value)
            && (LastOther(fields, key).None? ==> (key in r.extra <==> key in u.extra) && (key in u.extra ==> r.extra[key] == u.extra[key]))
  {
    if fields != [] {
      var init := fields[..|fields| - 1];
      ApplyAllMerges(u, init, key);
      ApplyStep(ApplyAll(u, init), fields[|fields| - 1], key);
    }
  }

  /** One argument keeps the counters and dates, and touches an extra key only when it names it. */
  lemma ApplyStep(v: User, f: Field, key: string)
    ensures var w := Apply(v, f);
            w.usage == v.usage && w.subscription == v.subscription && w.createdAt == v.createdAt
            && w.lastDailyNotification == v.lastDailyNotification
            && (f.Other? && f.key == key ==> key in w.extra && w.extra[key] == f.value)
            && (!(f.Other? && f.key == key) ==> (key in w.extra <==> key in v.extra) && (key in v.extra ==> w.extra[key] == v.extra[key]))
  {
  }

  // ---------------------------------------------------------------------
  // Daily counters
  // ---------------------------------------------------------------------

  /** A record last reset on another day gets both counters zeroed and today's date. */
  function Reset(u: User, today: int): (r: User)
    ensures u.usage.lastReset == SharedStorage.OnDay(today) ==> r == u
    ensures u.usage.lastReset != SharedStorage.OnDay(today) ==> r == u.(usage := Usage(0, 0, SharedStorage.OnDay(today)))
  {
    if u.usage.lastReset != SharedStorage.OnDay(today) then u.(usage := Usage(0, 0, SharedStorage.OnDay(today))) else u
  }

  lemma ResetIdempotent(u: User, today: int)
    ensures Reset(Reset(u, today), today) == Reset(u, today)
    ensures Reset(u, today).usage.lastReset == SharedStorage.OnDay(today)
  {
  }

  /** `can_make_request`: premium, or fewer than three requests counted today. */
  predicate RequestAllowed(u: User)
  {
    u.subscription.active || u.usage.dailyRequests < FreeDailyRequests
  }

  /** `can_check_compatibility`: premium, or no check counted today. */
  predicate CompatibilityAllowed(u: User)
  {
    u.subscription.active || u.usage.compatibilityChecks < FreeCompatibilityChecks
  }

  /** `increment_usage`: "daily" and "compatibility" each bump their own counter; other types change nothing. */
  function CountUsage(u: User, requestType: string): (r: User)
    ensures requestType == "daily" ==> r.usage == u.usage.(dailyRequests := u.usage.dailyRequests + 1)
    ensures requestType == "compatibility" ==> r.usage == u.usage.(compatibilityChecks := u.usage.compatibilityChecks + 1)
    ensures requestType != "daily" && requestType != "compatibility" ==> r == u
    ensures r.(usage := u.usage) == u
  {
    if requestType == "daily" then u.(usage := u.usage.(dailyRequests := u.usage.dailyRequests + 1))
    else if requestType == "compatibility" then u.(usage := u.usage.(compatibilityChecks := u.usage.compatibilityChecks + 1))
    else u
  }

  /**
   * The free quota as callers use it (check, then count): once three daily
   * requests are counted the check fails for the rest of the day, and the
   * next day it passes again.
   */
  lemma FreeQuota(u: User, today: int)
    requires !u.subscription.active
    ensures var v := CountUsage(CountUsage(CountUsage(Reset(u, today), "daily"), "daily"), "daily");
            Reset(u, today).usage.dailyRequests == 0 ==> !RequestAllowed(Reset(v, today))
    ensures u.usage.lastReset != SharedStorage.OnDay(today) ==> RequestAllowed(Reset(u, today)) && CompatibilityAllowed(Reset(u, today))
  {
  }

  // ---------------------------------------------------------------------
  // Daily notification and clean-up
  // ---------------------------------------------------------------------

  /** `can_send_daily_notification`: nothing sent, an unreadable date, or a date before today. */
  function CanSendDaily(last: SharedStorage.DayStamp, today: int): (ok: bool)
    ensures ok <==> last.NoDay? || last.BadDay? || last.day < today
  {
    match last
    case NoDay => true
    case BadDay => true
    case OnDay(d) => d < today
  }

  /** Once marked, the notification is refused for the rest of that day and allowed on any later day. */
  lemma MarkedOncePerDay(today: int, later: int)
    requires today < later
    ensures !CanSendDaily(SharedStorage.OnDay(today), today)
    ensures CanSendDaily(SharedStorage.OnDay(today), later)
  {
  }

  /** `cleanup_old_data` removes a record whose activity time is before the cutoff or cannot be read. */
  predicate Doomed(u: User, cutoff: int)
  {
    (u.lastActivity.At? && u.lastActivity.secs < cutoff) || u.lastActivity.BadTime?
  }

  /** Unlike the shared store's clean-up, a garbled activity time removes the record. */
  lemma GarbledIsDoomed(u: User, cutoff: int)
    requires u.lastActivity.BadTime?
    ensures Doomed(u, cutoff) && !SharedStorage.Stale(ToShared(u), cutoff)
  {
  }

  /** The activity time of a record, read through the shared store's staleness rule. */
  function ToShared(u: User): (s: SharedStorage.User)
    ensures s.lastActivity == u.lastActivity
  {
    SharedStorage.NewUser(u.createdAt).(lastActivity := u.lastActivity)
  }

  // ---------------------------------------------------------------------
  // The store
  // ---------------------------------------------------------------------

  class UserStorage {
    var users: map<int, User>

    constructor()
      ensures users == map[]
    {
      users := map[];
    }

    /** `get_user`. */
    method GetUser(id: int, now: int) returns (u: User)
      modifies this
      ensures u == Fetched(old(users), id, now) && users == old(users)[id := u]
    {
      u := if id in users then users[id].(lastActivity := SharedStorage.At(now)) else NewUser(now);
      users := users[id := u];
    }

    /** `update_user`. */
    method UpdateUser(id: int, now: int, fields: seq<Field>)
      modifies this
      ensures users == old(users)[id := Updated(Fetched(old(users), id, now), fields, now)]
    {
      var u := GetUser(id, now);
      Dicts.UpdateTwice(old(users), id, u, Updated(u, fields, now));
      users := users[id := Updated(u, fields, now)];
    }

    /** `set_birth_date`: the date with its life-path and soul numbers, through `update_user`. */
    method SetBirthDate(id: int, now: int, birthDate: string)
      modifies this
      ensures var fields := [BirthDate(Some(birthDate)),
                             LifePath(Some(SharedCalculations.LifePathNumber(birthDate, RootCalculations.MasterNumbers))),
                             Soul(Some(SharedCalculations.SoulNumber(birthDate, {})))];
              users == old(users)[id := Updated(Fetched(old(users), id, now), fields, now)]
    {
      var lifePath := RootCalculations.LifePathNumber(birthDate);
      var soul := RootCalculations.SoulNumber(birthDate);
      UpdateUser(id, now, [BirthDate(Some(birthDate)), LifePath(Some(lifePath)), Soul(Some(soul))]);
    }

    /** `can_make_request`: resets on a new day, then checks without counting. */
    method CanMakeRequest(id: int, now: int) returns (ok: bool)
      modifies this
      ensures var u := Reset(Fetched(old(users), id, now), SharedStorage.Today(now));
              ok == RequestAllowed(u) && users == old(users)[id := u]
    {
      var u := GetUser(id, now);
      u := Reset(u, SharedStorage.Today(now));
      users := users[id := u];
      ok := RequestAllowed(u);
    }

    /** `can_check_compatibility`: resets on a new day, then checks without counting. */
    method CanCheckCompatibility(id: int, now: int) returns (ok: bool)
      modifies this
      ensures var u := Reset(Fetched(old(users), id, now), SharedStorage.Today(now));
              ok == CompatibilityAllowed(u) && users == old(users)[id := u]
    {
      var u := GetUser(id, now);
      u := Reset(u, SharedStorage.Today(now));
      users := users[id := u];
      ok := CompatibilityAllowed(u);
    }

    /** `increment_usage`. */
    method IncrementUsage(id: int, now: int, requestType: string)
      modifies this
      ensures users == old(users)[id := CountUsage(Fetched(old(users), id, now), requestType)]
    {
      var u := GetUser(id, now);
      Dicts.UpdateTwice(old(users), id, u, CountUsage(u, requestType));
      users := users[id := CountUsage(u, requestType)];
    }

    /** `get_usage_stats`: today's counters after the reset, and whether the subscription is active. */
    method GetUsageStats(id: int, now: int) returns (dailyRequests: int, compatibilityChecks: int, active: bool)
      modifies this
      ensures var u := Reset(Fetched(old(users), id, now), SharedStorage.Today(now));
              users == old(users)[id := u] && dailyRequests == u.usage.dailyRequests
              && compatibilityChecks == u.usage.compatibilityChecks && active == u.subscription.active
    {
      var u := GetUser(id, now);
      u := Reset(u, SharedStorage.Today(now));
      users := users[id := u];
      dailyRequests, compatibilityChecks, active := u.usage.dailyRequests, u.usage.compatibilityChecks, u.subscription.active;
    }

    /** `set_subscription`. */
    method SetSubscription(id: int, now: int, active: bool, expires: Option<string>)
      modifies this
      ensures users == old(users)[id := Fetched(old(users), id, now).(subscription :=
                SharedStorage.Subscription(active, expires, if active then "premium" else "free"))]
    {
      var u := GetUser(id, now);
      Dicts.UpdateTwice(old(users), id, u, u.(subscription := SharedStorage.Subscription(active, expires, if active then "premium" else "free")));
      users := users[id := u.(subscription := SharedStorage.Subscription(active, expires, if active then "premium" else "free"))];
    }

    /** `set_notifications`. */
    method SetNotifications(id: int, now: int, enabled: bool, time: string)
      modifies this
      ensures users == old(users)[id := Fetched(old(users), id, now).(notifications := Notifications(Some(enabled), Some(time)))]
    {
      var u := GetUser(id, now);
      Dicts.UpdateTwice(old(users), id, u, u.(notifications := Notifications(Some(enabled), Some(time))));
      users := users[id := u.(notifications := Notifications(Some(enabled), Some(time)))];
    }

    /** `add_text_to_history`: appended, keeping the newest 50. */
    method AddTextToHistory(id: int, now: int, text: string)
      modifies this
      ensures var u := Fetched(old(users), id, now);
              users == old(users)[id := u.(textHistory := SharedStorage.AppendCapped(u.textHistory, text, HistoryCap))]
    {
      var u := GetUser(id, now);
      Dicts.UpdateTwice(old(users), id, u, u.(textHistory := SharedStorage.AppendCapped(u.textHistory, text, HistoryCap)));
      users := users[id := u.(textHistory := SharedStorage.AppendCapped(u.textHistory, text, HistoryCap))];
    }

    /** `get_text_history`. */
    method GetTextHistory(id: int, now: int) returns (history: seq<string>)
      modifies this
      ensures history == Fetched(old(users), id, now).textHistory && users == old(users)[id := Fetched(old(users), id, now)]
    {
      var u := GetUser(id, now);
      history := u.textHistory;
    }

    /** `can_send_daily_notification`. */
    method CanSendDailyNotification(id: int, now: int) returns (ok: bool)
      modifies this
      ensures ok == CanSendDaily(Fetched(old(users), id, now).lastDailyNotification, SharedStorage.Today(now))
      ensures users == old(users)[id := Fetched(old(users), id, now)]
    {
      var u := GetUser(id, now);
      ok := CanSendDaily(u.lastDailyNotification, SharedStorage.Today(now));
    }

    /** `mark_daily_notification_sent`. */
    method MarkDailyNotificationSent(id: int, now: int)
      modifies this
      ensures users == old(users)[id := Fetched(old(users), id, now).(lastDailyNotification := SharedStorage.OnDay(SharedStorage.Today(now)))]
    {
      var u := GetUser(id, now);
      Dicts.UpdateTwice(old(users), id, u, u.(lastDailyNotification := SharedStorage.OnDay(SharedStorage.Today(now))));
      users := users[id := u.(lastDailyNotification := SharedStorage.OnDay(SharedStorage.Today(now)))];
    }

    /** `cleanup_old_data`: drops every doomed record; the number dropped is only logged. */
    method CleanupOldData(now: int, days: int)
      modifies this
      ensures var cutoff := now - days * SharedStorage.SecondsPerDay;
              users == map id | id in old(users) && !Doomed(old(users)[id], cutoff) :: old(users)[id]
    {
      var cutoff := now - days * SharedStorage.SecondsPerDay;
      var all := users;
      var pending := all.Keys;
      var doomed: set<int> := {};
      while pending != {}
        invariant pending <= all.Keys
        invariant doomed == set id | id in all && id !in pending && Doomed(all[id], cutoff)
        decreases pending
      {
        EmptyWhenNoMember(pending);
        var k :| k in pending;
        if Doomed(all[k], cutoff) {
          doomed := doomed + {k};
        }
        pending := pending - {k};
      }
      assert doomed == set id | id in all && Doomed(all[id], cutoff);
      users := map id | id in all && id !in doomed :: all[id];
    }
  }
}
