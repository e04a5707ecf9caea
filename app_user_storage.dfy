/**
 * The small user store: a default record for a new user, the birth data,
 * a two-a-day free request limit with a daily reset, and usage counters.
 */
module AppUserStorage {
  import opened Wrappers
  import SharedStorage
  import Dicts

  datatype Usage = Usage(dailyRequests: int, compatibilityChecks: int, repeatViews: int, lastReset: SharedStorage.DayStamp)

  datatype User = User(
    birthDate: Option<string>,
    lifePath: Option<int>,
    soul: Option<int>,
    subscription: SharedStorage.Subscription,
    usage: Usage,
    dailyCache: map<string, string>,
    textHistory: seq<string>,
    lastActivity: SharedStorage.TimeStamp)

  const FreeDailyRequests: int := 2

  /** The record `get_user` creates: no birth data, free, zeroed counters reset today. */
  function NewUser(now: int): (u: User)
    ensures u.birthDate == None && u.lifePath == None && u.soul == None
    ensures !u.subscription.active && u.usage == Usage(0, 0, 0, SharedStorage.OnDay(SharedStorage.Today(now)))
    ensures u.dailyCache == map[] && u.textHistory == [] && u.lastActivity == SharedStorage.At(now)
  {
    User(None, None, None, SharedStorage.Subscription(false, None, "free"),
         Usage(0, 0, 0, SharedStorage.OnDay(SharedStorage.Today(now))), map[], [], SharedStorage.At(now))
  }

  /** `get_user`: a new record for an unknown id, otherwise only the activity time changes. */
  function Fetched(users: map<int, User>, id: int, now: int): (u: User)
    ensures id !in users ==> u == NewUser(now)
    ensures id in users ==> u == users[id].(lastActivity := SharedStorage.At(now))
  {
    if id in users then users[id].(lastActivity := SharedStorage.At(now)) else NewUser(now)
  }

  /** The reset inside `can_make_request`: on a new day the three counters are zeroed and the date set. */
  function Reset(u: User, today: int): (r: User)
    ensures u.usage.lastReset == SharedStorage.OnDay(today) ==> r == u
    ensures u.usage.lastReset != SharedStorage.OnDay(today) ==> r == u.(usage := Usage(0, 0, 0, SharedStorage.OnDay(today)))
  {
    if u.usage.lastReset != SharedStorage.OnDay(today) then u.(usage := Usage(0, 0, 0, SharedStorage.OnDay(today))) else u
  }

  /** Premium, or fewer than two daily requests counted. */
  predicate RequestAllowed(u: User)
  {
    u.subscription.active || u.usage.dailyRequests < FreeDailyRequests
  }

  /** `increment_usage`. */
  function CountUsage(u: User, requestType: string): (r: User)
    ensures requestType == "daily" ==> r.usage == u.usage.(dailyRequests := u.usage.dailyRequests + 1)
    ensures requestType == "compatibility" ==> r.usage == u.usage.(compatibilityChecks := u.usage.compatibilityChecks + 1)
    ensures requestType != "daily" && requestType != "compatibility" ==> r == u
    ensures r.(usage := u.usage) == u
  {
    if requestType == "daily" then u.(usage := u.usage.(dailyRequests := u.usage.dailyRequests + 1))
    else if requestType == "compatibility" then u.(usage := u.usage.(compatibilityChecks := u.usage.compatibilityChecks + 1))
    else u
  }

  /**
   * A free user starting a day with no request counted is allowed two
   * requests and refused the third; the next day the limit is lifted again.
   */
  lemma TwoFreeRequestsPerDay(u: User, today: int, tomorrow: int)
    requires !u.subscription.active && today != tomorrow && u.usage.lastReset != SharedStorage.OnDay(today)
    ensures var d0 := Reset(u, today);
            var d1 := Reset(CountUsage(d0, "daily"), today);
            var d2 := Reset(CountUsage(d1, "daily"), today);
            RequestAllowed(d0) && RequestAllowed(d1) && !RequestAllowed(d2) && RequestAllowed(Reset(d2, tomorrow))
  {
  }

  /** Resetting twice on the same day is resetting once. */
  lemma ResetIdempotent(u: User, today: int)
    ensures Reset(Reset(u, today), today) == Reset(u, today)
  {
  }

  class UserStorage {
    var users: map<int, User>

    constructor()
      ensures users == map[]
    {
      users := map[];
    }

    method GetUser(id: int, now: int) returns (u: User)
      modifies this
      ensures u == Fetched(old(users), id, now) && users == old(users)[id := u]
    {
      if id !in users {
        u := NewUser(now);
      } else {
        u := users[id].(lastActivity := SharedStorage.At(now));
      }
      users := users[id := u];
    }

    /** `set_birth_date`: stores exactly the given date and numbers. */
    method SetBirthDate(id: int, now: int, birthDate: string, lifePath: int, soul: int)
      modifies this
      ensures users == old(users)[id := Fetched(old(users), id, now).(birthDate := Some(birthDate), lifePath := Some(lifePath), soul := Some(soul))]
    {
      var u := GetUser(id, now);
      Dicts.UpdateTwice(old(users), id, u, u.(birthDate := Some(birthDate), lifePath := Some(lifePath), soul := Some(soul)));
      users := users[id := u.(birthDate := Some(birthDate), lifePath := Some(lifePath), soul := Some(soul))];
    }

    /** `can_make_request`: the reset, then premium or fewer than two requests today; nothing is counted. */
    method CanMakeRequest(id: int, now: int) returns (ok: bool)
      modifies this
      ensures var u := Reset(Fetched(old(users), id, now), SharedStorage.Today(now));
              ok == RequestAllowed(u) && users == old(users)[id := u]
    {
      var u := GetUser(id, now);
      u := Reset(u, SharedStorage.Today(now));
      users := users[id := u];
      ok := RequestAllowed(u);
    }

    /** `increment_usage`. */
    method IncrementUsage(id: int, now: int, requestType: string)
      modifies this
      ensures users == old(users)[id := CountUsage(Fetched(old(users), id, now), requestType)]
    {
      var u := GetUser(id, now);
      Dicts.UpdateTwice(old(users), id, u, CountUsage(u, requestType));
      users := users[id := CountUsage(u, requestType)];
    }
  }
}
