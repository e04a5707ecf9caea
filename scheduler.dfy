/**
 * The notification scheduler's rules: the configured sending time, the
 * forecast preview, the once-a-day and once-a-week guards, which users are
 * due at the current minute, the retrograde alerts a user gets (each sent
 * once) and the choice of the daily text.
 */
module Scheduler {
  import opened Wrappers
  import opened Strings
  import opened Slices
  import Forecast
  import ForecastRouter
  import Retrograde
  import SharedStorage
  import Dicts

  // ---------------------------------------------------------------------
  // The sending time
  // ---------------------------------------------------------------------

  /** "h:m" split at the first ':' with both halves read as ints; None when that fails. */
  function ClockFields(value: string): (r: Option<(int, int)>)
  {
    match SplitOnce(value, ':')
    case None => None
    case Some((h, m)) =>
      if ParseInt(h).Some? && ParseInt(m).Some? then Some((ParseInt(h).value, ParseInt(m).value)) else None
  }

  predicate InDay(hour: int, minute: int)
  {
    0 <= hour <= 23 && 0 <= minute <= 59
  }

  /** `_parse_notification_time`: the configured time, or 11:00 when it does not parse or is out of range. */
  function ParseNotificationTime(value: string): (hm: (int, int))
    ensures InDay(hm.0, hm.1)
    ensures ClockFields(value).Some? && InDay(ClockFields(value).value.0, ClockFields(value).value.1) ==>
              hm == ClockFields(value).value
    ensures ClockFields(value).None? || !InDay(ClockFields(value).value.0, ClockFields(value).value.1) ==>
              hm == (11, 0)
  {
    match ClockFields(value)
    case None => (11, 0)
    case Some((h, m)) => if InDay(h, m) then (h, m) else (11, 0)
  }

  /** The digits of an hour and a minute joined by ':' read back as that pair. */
  lemma ClockFieldsRoundTrip(h: nat, m: nat)
    ensures ClockFields(NatToString(h) + ":" + NatToString(m)) == Some((h as int, m as int))
  {
    var hs, ms := NatToString(h), NatToString(m);
    DigitsHaveNoColon(hs);
    Strings.ParseDigits(hs);
    Strings.ParseDigits(ms);
    SplitOnceAtFirst(hs, ms);
  }

  lemma DigitsHaveNoColon(s: string)
    requires IsAllDigits(s)
    ensures ':' !in s
  {
    forall i | 0 <= i < |s| ensures s[i] != ':' { assert IsDigit(s[i]); }
  }

  lemma {:induction false} SplitOnceAtFirst(a: string, b: string)
    requires ':' !in a
    ensures SplitOnce(a + ":" + b, ':') == Some((a, b))
  {
    if a != [] {
      assert (a + ":" + b)[1..] == a[1..] + ":" + b;
      SplitOnceAtFirst(a[1..], b);
      assert [a[0]] + a[1..] == a;
    } else {
      assert a + ":" + b == [':'] + b;
    }
  }

  /** A time written as "h:m" within the day is read back unchanged. */
  lemma ParseNotificationTimeRoundTrip(h: nat, m: nat)
    requires InDay(h, m)
    ensures ParseNotificationTime(NatToString(h) + ":" + NatToString(m)) == (h as int, m as int)
  {
    ClockFieldsRoundTrip(h, m);
  }

  // ---------------------------------------------------------------------
  // The forecast preview
  // ---------------------------------------------------------------------

  /** `ForecastPreview.to_result`: the first `limit` aspects (Python slice) and nothing missing. */
  function PreviewResult(base: Forecast.ForecastResult, limit: int): (r: Forecast.ForecastResult)
    ensures r.userId == base.userId && r.targetDate == base.targetDate
    ensures r.natalChart == base.natalChart && r.transitChart == base.transitChart
    ensures r.missingFields == []
    ensures limit >= 0 ==> |r.aspects| == (if limit < |base.aspects| then limit else |base.aspects|)
    ensures |r.aspects| <= |base.aspects| && r.aspects == base.aspects[..|r.aspects|]
  {
    base.(aspects := SliceTo(base.aspects, limit), missingFields := [])
  }

  /** With the default limit of one the scheduler's preview is the screens' preview. */
  lemma DefaultPreviewIsRouterPreview(base: Forecast.ForecastResult)
    ensures PreviewResult(base, 1) == ForecastRouter.BuildPreview(base)
  {
  }

  // ---------------------------------------------------------------------
  // Once-a-day and once-a-week guards
  // ---------------------------------------------------------------------

  /** The daily broadcast is due at the target minute of a day it has not run on. */
  predicate DailyDue(targetHour: int, targetMinute: int, lastSent: Option<int>, today: int, hour: int, minute: int)
  {
    hour == targetHour && minute == targetMinute && lastSent != Some(today)
  }

  /** One scheduler check: the clock reading of a tick. */
  datatype Tick = Tick(day: int, hour: int, minute: int)

  /** The days on which the daily broadcast goes out over a run of ticks, starting from `lastSent`. */
  function SentDays(targetHour: int, targetMinute: int, lastSent: Option<int>, ticks: seq<Tick>): seq<int>
    decreases |ticks|
  {
    if ticks == [] then []
    else
      var t := ticks[0];
      if DailyDue(targetHour, targetMinute, lastSent, t.day, t.hour, t.minute) then
        [t.day] + SentDays(targetHour, targetMinute, Some(t.day), ticks[1..])
      else SentDays(targetHour, targetMinute, lastSent, ticks[1..])
  }

  predicate NonDecreasingDays(ticks: seq<Tick>)
  {
    forall i, j | 0 <= i < j < |ticks| :: ticks[i].day <= ticks[j].day
  }

  predicate StrictlyIncreasing(days: seq<int>)
  {
    forall i, j | 0 <= i < j < |days| :: days[i] < days[j]
  }

  /** Every broadcast day after a send lies strictly after that send's day. */
  lemma {:induction false} SentDaysAfter(targetHour: int, targetMinute: int, last: int, ticks: seq<Tick>, k: int)
    requires NonDecreasingDays(ticks)
    requires forall i | 0 <= i < |ticks| :: last <= ticks[i].day
    requires 0 <= k < |SentDays(targetHour, targetMinute, Some(last), ticks)|
    ensures last < SentDays(targetHour, targetMinute, Some(last), ticks)[k]
    decreases |ticks|
  {
    var t := ticks[0];
    var rest := ticks[1..];
    var due := DailyDue(targetHour, targetMinute, Some(last), t.day, t.hour, t.minute);
    var days := SentDays(targetHour, targetMinute, Some(last), ticks);
    var tail := SentDays(targetHour, targetMinute, if due then Some(t.day) else Some(last), rest);
    assert days == if due then [t.day] + tail else tail;
    forall i | 0 <= i < |rest| ensures t.day <= rest[i].day && last <= rest[i].day {
      assert rest[i] == ticks[i + 1];
    }
    if due {
      if k > 0 {
        SentDaysAfter(targetHour, targetMinute, t.day, rest, k - 1);
      }
    } else {
      SentDaysAfter(targetHour, targetMinute, last, rest, k);
    }
  }

  /**
   * However often the scheduler checks, with the clock never going back the
   * daily broadcast goes out at most once per date: the broadcast days
   * strictly increase.
   */
  lemma {:induction false} AtMostOncePerDate(targetHour: int, targetMinute: int, lastSent: Option<int>, ticks: seq<Tick>)
    requires NonDecreasingDays(ticks)
    requires lastSent.Some? ==> forall i | 0 <= i < |ticks| :: lastSent.value <= ticks[i].day
    ensures StrictlyIncreasing(SentDays(targetHour, targetMinute, lastSent, ticks))
    decreases |ticks|
  {
    if ticks != [] {
      var t := ticks[0];
      var rest := ticks[1..];
      var due := DailyDue(targetHour, targetMinute, lastSent, t.day, t.hour, t.minute);
      var next := if due then Some(t.day) else lastSent;
      forall i | 0 <= i < |rest| ensures next.Some? ==> next.value <= rest[i].day {
        assert rest[i] == ticks[i + 1];
      }
      AtMostOncePerDate(targetHour, targetMinute, next, rest);
      var days := SentDays(targetHour, targetMinute, lastSent, ticks);
      var tail := SentDays(targetHour, targetMinute, next, rest);
      assert days == if due then [t.day] + tail else tail;
      if due {
        forall i, j | 0 <= i < j < |days| ensures days[i] < days[j] {
          assert days[j] == tail[j - 1];
          if i > 0 {
            assert days[i] == tail[i - 1];
          } else {
            SentDaysAfter(targetHour, targetMinute, t.day, rest, j - 1);
          }
        }
      }
    }
  }

  // ---------------------------------------------------------------------
  // Who is due now
  // ---------------------------------------------------------------------

  /**
   * Whether a user's own notification time matches the scheduler's: no time
   * (or an empty one) and a time that does not parse both count as the
   * target; a parsed time must equal it. No range check is made here.
   */
  function WantsNow(notifTime: Option<string>, targetHour: int, targetMinute: int): (due: bool)
    ensures notifTime.None? || notifTime.value == [] ==> due
    ensures notifTime.Some? && ClockFields(notifTime.value).None? ==> due
    ensures notifTime.Some? && ClockFields(notifTime.value).Some? ==>
              (due <==> ClockFields(notifTime.value).value == (targetHour, targetMinute))
  {
    if notifTime.None? || notifTime.value == [] then true
    else match ClockFields(notifTime.value)
      case None => true
      case Some(hm) => hm == (targetHour, targetMinute)
  }

  /** A subscriber of the daily broadcast: id and own notification time. */
  datatype Subscriber = Subscriber(id: int, notifTime: Option<string>)

  /** The subscribers the daily broadcast goes to, in order. */
  function DailyRecipients(users: seq<Subscriber>, targetHour: int, targetMinute: int): (r: seq<int>)
  {
    if users == [] then []
    else
      var rest := DailyRecipients(users[1..], targetHour, targetMinute);
      if WantsNow(users[0].notifTime, targetHour, targetMinute) then [users[0].id] + rest else rest
  }

  /** An id is a recipient exactly when some subscriber with that id wants the broadcast now. */
  lemma {:induction false} DailyRecipientsMembers(users: seq<Subscriber>, targetHour: int, targetMinute: int, id: int)
    ensures id in DailyRecipients(users, targetHour, targetMinute) <==>
            exists i | 0 <= i < |users| :: users[i].id == id && WantsNow(users[i].notifTime, targetHour, targetMinute)
  {
    if users != [] {
      var rest := users[1..];
      DailyRecipientsMembers(rest, targetHour, targetMinute, id);
      if exists i | 0 <= i < |rest| :: rest[i].id == id && WantsNow(rest[i].notifTime, targetHour, targetMinute) {
        var i :| 0 <= i < |rest| && rest[i].id == id && WantsNow(rest[i].notifTime, targetHour, targetMinute);
        assert users[i + 1] == rest[i];
      }
      if exists i | 0 <= i < |users| :: users[i].id == id && WantsNow(users[i].notifTime, targetHour, targetMinute) {
        var i :| 0 <= i < |users| && users[i].id == id && WantsNow(users[i].notifTime, targetHour, targetMinute);
        if i > 0 {
          assert rest[i - 1] == users[i];
        }
      }
    }
  }

  /** A user whose own time is the scheduler's, written "h:m", is due. */
  lemma OwnTimeIsDue(h: nat, m: nat)
    ensures WantsNow(Some(NatToString(h) + ":" + NatToString(m)), h, m)
  {
    ClockFieldsRoundTrip(h, m);
  }

  // ---------------------------------------------------------------------
  // Retrograde alerts for one user
  // ---------------------------------------------------------------------

  /** One alert message: the planet, "pre" or "start", and the period it announces. */
  datatype RetroAlert = RetroAlert(planet: string, kind: string, period: Retrograde.RetroPeriod)

  /** Premium users hear about every tracked planet, everyone else about Mercury only. */
  function AllowedPlanets(premium: bool, tracked: seq<string>): (ps: seq<string>)
    ensures premium ==> ps == tracked
    ensures !premium ==> ps == ["Mercury"]
  {
    if premium then tracked else ["Mercury"]
  }

  function PeriodsOf(periods: map<string, seq<Retrograde.RetroPeriod>>, planet: string): seq<Retrograde.RetroPeriod>
  {
    if planet in periods then periods[planet] else []
  }

  /**
   * One period: a "pre" alert when the pre-alert date is today and a "start"
   * alert when the start is today, each only if not already marked with
   * today's date, and marked once sent. `todayIso` is today's date as text,
   * which is the text of the pre-alert or start date whenever that is today.
   */
  function PeriodStep(planet: string, p: Retrograde.RetroPeriod, localDate: int, todayIso: string,
                      alerts: map<string, SharedStorage.RetroMarks>): (seq<RetroAlert>, map<string, SharedStorage.RetroMarks>)
  {
    var sendPre := p.preAlert == localDate && !SharedStorage.HasAlert(alerts, planet, "pre", todayIso);
    var a1 := if sendPre then SharedStorage.MarkAlert(alerts, planet, "pre", todayIso) else alerts;
    var sendStart := p.start == localDate && !SharedStorage.HasAlert(a1, planet, "start", todayIso);
    var a2 := if sendStart then SharedStorage.MarkAlert(a1, planet, "start", todayIso) else a1;
    ((if sendPre then [RetroAlert(planet, "pre", p)] else []) + (if sendStart then [RetroAlert(planet, "start", p)] else []), a2)
  }

  /** The alerts for one planet's periods, in order, and the marks afterwards. */
  function PlanetAlerts(planet: string, ps: seq<Retrograde.RetroPeriod>, localDate: int, todayIso: string,
                        alerts: map<string, SharedStorage.RetroMarks>): (seq<RetroAlert>, map<string, SharedStorage.RetroMarks>)
  {
    if ps == [] then ([], alerts)
    else
      var before := PlanetAlerts(planet, ps[..|ps| - 1], localDate, todayIso, alerts);
      var step := PeriodStep(planet, ps[|ps| - 1], localDate, todayIso, before.1);
      (before.0 + step.0, step.1)
  }

  /** The alerts for all allowed planets, in order, and the marks afterwards. */
  function RetroPlan(planets: seq<string>, periods: map<string, seq<Retrograde.RetroPeriod>>, localDate: int, todayIso: string,
                     alerts: map<string, SharedStorage.RetroMarks>): (seq<RetroAlert>, map<string, SharedStorage.RetroMarks>)
  {
    if planets == [] then ([], alerts)
    else
      var before := RetroPlan(planets[..|planets| - 1], periods, localDate, todayIso, alerts);
      var step := PlanetAlerts(planets[|planets| - 1], PeriodsOf(periods, planets[|planets| - 1]), localDate, todayIso, before.1);
      (before.0 + step.0, step.1)
  }

  /** Marks with today's date only accumulate. */
  ghost predicate Keeps(a: map<string, SharedStorage.RetroMarks>, b: map<string, SharedStorage.RetroMarks>, todayIso: string)
  {
    forall planet, kind :: SharedStorage.HasAlert(a, planet, kind, todayIso) ==> SharedStorage.HasAlert(b, planet, kind, todayIso)
  }

  lemma MarkKeeps(a: map<string, SharedStorage.RetroMarks>, planet: string, kind: string, todayIso: string)
    ensures Keeps(a, SharedStorage.MarkAlert(a, planet, kind, todayIso), todayIso)
  {
    var b := SharedStorage.MarkAlert(a, planet, kind, todayIso);
    forall pl, k | SharedStorage.HasAlert(a, pl, k, todayIso) ensures SharedStorage.HasAlert(b, pl, k, todayIso) {
      if pl == planet {
        SharedStorage.MarkKeepsOtherKind(a, planet, kind, todayIso);
      }
    }
  }

  lemma PeriodStepKeeps(planet: string, p: Retrograde.RetroPeriod, localDate: int, todayIso: string,
                        alerts: map<string, SharedStorage.RetroMarks>)
    ensures Keeps(alerts, PeriodStep(planet, p, localDate, todayIso, alerts).1, todayIso)
    ensures forall x | x in PeriodStep(planet, p, localDate, todayIso, alerts).0 ::
              x.planet == planet && x.period == p && (x.kind == "pre" || x.kind == "start")
              && !SharedStorage.HasAlert(alerts, planet, x.kind, todayIso)
              && SharedStorage.HasAlert(PeriodStep(planet, p, localDate, todayIso, alerts).1, planet, x.kind, todayIso)
    ensures p.preAlert == localDate ==> SharedStorage.HasAlert(PeriodStep(planet, p, localDate, todayIso, alerts).1, planet, "pre", todayIso)
    ensures p.start == localDate ==> SharedStorage.HasAlert(PeriodStep(planet, p, localDate, todayIso, alerts).1, planet, "start", todayIso)
  {
    var sendPre := p.preAlert == localDate && !SharedStorage.HasAlert(alerts, planet, "pre", todayIso);
    var a1 := if sendPre then SharedStorage.MarkAlert(alerts, planet, "pre", todayIso) else alerts;
    var sendStart := p.start == localDate && !SharedStorage.HasAlert(a1, planet, "start", todayIso);
    var a2 := if sendStart then SharedStorage.MarkAlert(a1, planet, "start", todayIso) else a1;
    if sendPre { MarkKeeps(alerts, planet, "pre", todayIso); }
    if sendStart { MarkKeeps(a1, planet, "start", todayIso); }
    assert Keeps(alerts, a1, todayIso) && Keeps(a1, a2, todayIso);
  }

  /** What one planet's alerts promise: each sent alert was unmarked before and is marked after, none twice. */
  lemma {:induction false} PlanetAlertsFacts(planet: string, ps: seq<Retrograde.RetroPeriod>, localDate: int, todayIso: string,
                                             alerts: map<string, SharedStorage.RetroMarks>)
    ensures var r := PlanetAlerts(planet, ps, localDate, todayIso, alerts);
            Keeps(alerts, r.1, todayIso)
            && (forall x | x in r.0 ::
                  x.planet == planet && x.period in ps && (x.kind == "pre" || x.kind == "start")
                  && !SharedStorage.HasAlert(alerts, planet, x.kind, todayIso)
                  && SharedStorage.HasAlert(r.1, planet, x.kind, todayIso))
            && (forall i, j | 0 <= i < j < |r.0| :: r.0[i].kind != r.0[j].kind)
            && (forall p | p in ps && p.preAlert == localDate :: SharedStorage.HasAlert(r.1, planet, "pre", todayIso))
            && (forall p | p in ps && p.start == localDate :: SharedStorage.HasAlert(r.1, planet, "start", todayIso))
  {
    if ps != [] {
      var init := ps[..|ps| - 1];
      var last := ps[|ps| - 1];
      PlanetAlertsFacts(planet, init, localDate, todayIso, alerts);
      var before := PlanetAlerts(planet, init, localDate, todayIso, alerts);
      assert ps == init + [last];
      PlanetStepFacts(planet, init, last, localDate, todayIso, alerts, before.0, before.1);
    }
  }

  /** The promise of `PlanetAlertsFacts` about alerts `sent` for the periods `ps`, leaving marks `after`. */
  ghost predicate PlanetFacts(planet: string, ps: seq<Retrograde.RetroPeriod>, localDate: int, todayIso: string,
                              alerts: map<string, SharedStorage.RetroMarks>, sent: seq<RetroAlert>, after: map<string, SharedStorage.RetroMarks>)
  {
    Keeps(alerts, after, todayIso)
    && (forall x | x in sent ::
          x.planet == planet && x.period in ps && (x.kind == "pre" || x.kind == "start")
          && !SharedStorage.HasAlert(alerts, planet, x.kind, todayIso)
          && SharedStorage.HasAlert(after, planet, x.kind, todayIso))
    && (forall i, j | 0 <= i < j < |sent| :: sent[i].kind != sent[j].kind)
    && (forall p | p in ps && p.preAlert == localDate :: SharedStorage.HasAlert(after, planet, "pre", todayIso))
    && (forall p | p in ps && p.start == localDate :: SharedStorage.HasAlert(after, planet, "start", todayIso))
  }

  /** One more period keeps the promise. */
  lemma PlanetStepFacts(planet: string, init: seq<Retrograde.RetroPeriod>, last: Retrograde.RetroPeriod, localDate: int, todayIso: string,
                        alerts: map<string, SharedStorage.RetroMarks>, sent: seq<RetroAlert>, marks: map<string, SharedStorage.RetroMarks>)
    requires PlanetFacts(planet, init, localDate, todayIso, alerts, sent, marks)
    ensures var step := PeriodStep(planet, last, localDate, todayIso, marks);
            PlanetFacts(planet, init + [last], localDate, todayIso, alerts, sent + step.0, step.1)
  {
    var step := PeriodStep(planet, last, localDate, todayIso, marks);
    PeriodStepKeeps(planet, last, localDate, todayIso, marks);
    var all := sent + step.0;
    forall i, j | 0 <= i < j < |all| ensures all[i].kind != all[j].kind {
      if j >= |sent| && i < |sent| {
        assert all[i] in sent && all[j] in step.0;
      } else if i >= |sent| {
        assert all[i] == step.0[i - |sent|] && all[j] == step.0[j - |sent|];
      }
    }
  }

  /** Alerts for distinct planets; within a planet, at most one of each kind. */
  predicate NoRepeats(sent: seq<RetroAlert>)
  {
    forall i, j | 0 <= i < j < |sent| :: sent[i].planet != sent[j].planet || sent[i].kind != sent[j].kind
  }

  /**
   * What a user's alert run promises: every alert is for an allowed planet
   * and one of its periods, on today's pre-alert or start date, was not
   * marked before, is marked afterwards and is not repeated; and afterwards
   * every alert due today is marked.
   */
  lemma {:induction false} RetroPlanFacts(planets: seq<string>, periods: map<string, seq<Retrograde.RetroPeriod>>, localDate: int,
                                          todayIso: string, alerts: map<string, SharedStorage.RetroMarks>)
    ensures var r := RetroPlan(planets, periods, localDate, todayIso, alerts);
            Keeps(alerts, r.1, todayIso)
            && (forall x | x in r.0 ::
                  x.planet in planets && x.period in PeriodsOf(periods, x.planet)
                  && (x.kind == "pre" || x.kind == "start")
                  && !SharedStorage.HasAlert(alerts, x.planet, x.kind, todayIso)
                  && SharedStorage.HasAlert(r.1, x.planet, x.kind, todayIso))
            && NoRepeats(r.0)
            && (forall pl, p | pl in planets && p in PeriodsOf(periods, pl) && p.preAlert == localDate ::
                  SharedStorage.HasAlert(r.1, pl, "pre", todayIso))
            && (forall pl, p | pl in planets && p in PeriodsOf(periods, pl) && p.start == localDate ::
                  SharedStorage.HasAlert(r.1, pl, "start", todayIso))
  {
    if planets != [] {
      var init := planets[..|planets| - 1];
      var planet := planets[|planets| - 1];
      RetroPlanFacts(init, periods, localDate, todayIso, alerts);
      var before := RetroPlan(init, periods, localDate, todayIso, alerts);
      PlanetAlertsFacts(planet, PeriodsOf(periods, planet), localDate, todayIso, before.1);
      var step := PlanetAlerts(planet, PeriodsOf(periods, planet), localDate, todayIso, before.1);
      assert planets == init + [planet];
      PlanStepFacts(init, planet, periods, localDate, todayIso, alerts, before.0, before.1, step.0, step.1);
    }
  }

  /** The promise of `RetroPlanFacts` about alerts `sent` for `planets`, leaving marks `after`. */
  ghost predicate PlanFacts(planets: seq<string>, periods: map<string, seq<Retrograde.RetroPeriod>>, localDate: int, todayIso: string,
                            alerts: map<string, SharedStorage.RetroMarks>, sent: seq<RetroAlert>, after: map<string, SharedStorage.RetroMarks>)
  {
    Keeps(alerts, after, todayIso)
    && (forall x | x in sent ::
          x.planet in planets && x.period in PeriodsOf(periods, x.planet)
          && (x.kind == "pre" || x.kind == "start")
          && !SharedStorage.HasAlert(alerts, x.planet, x.kind, todayIso)
          && SharedStorage.HasAlert(after, x.planet, x.kind, todayIso))
    && NoRepeats(sent)
    && (forall pl, p | pl in planets && p in PeriodsOf(periods, pl) && p.preAlert == localDate ::
          SharedStorage.HasAlert(after, pl, "pre", todayIso))
    && (forall pl, p | pl in planets && p in PeriodsOf(periods, pl) && p.start == localDate ::
          SharedStorage.HasAlert(after, pl, "start", todayIso))
  }

  /** One more planet, whose own alerts keep their promise, keeps the promise of the run. */
  lemma PlanStepFacts(init: seq<string>, planet: string, periods: map<string, seq<Retrograde.RetroPeriod>>, localDate: int,
                      todayIso: string, alerts: map<string, SharedStorage.RetroMarks>,
                      sent: seq<RetroAlert>, marks: map<string, SharedStorage.RetroMarks>,
                      added: seq<RetroAlert>, after: map<string, SharedStorage.RetroMarks>)
    requires PlanFacts(init, periods, localDate, todayIso, alerts, sent, marks)
    requires PlanetFacts(planet, PeriodsOf(periods, planet), localDate, todayIso, marks, added, after)
    ensures PlanFacts(init + [planet], periods, localDate, todayIso, alerts, sent + added, after)
  {
    var all := sent + added;
    forall i, j | 0 <= i < j < |all| ensures all[i].planet != all[j].planet || all[i].kind != all[j].kind {
      if j >= |sent| && i < |sent| {
        assert all[i] in sent && all[j] in added;
      } else if i >= |sent| {
        assert all[i] == added[i - |sent|] && all[j] == added[j - |sent|];
      }
    }
  }

  /** Alerts about one period are only sent on its pre-alert or start date. */
  lemma RetroAlertsAreToday(planets: seq<string>, periods: map<string, seq<Retrograde.RetroPeriod>>, localDate: int,
                            todayIso: string, alerts: map<string, SharedStorage.RetroMarks>, x: RetroAlert)
    requires x in RetroPlan(planets, periods, localDate, todayIso, alerts).0
    ensures x.kind == "pre" ==> x.period.preAlert == localDate
    ensures x.kind == "start" ==> x.period.start == localDate
  {
    RetroDates(planets, periods, localDate, todayIso, alerts);
  }

  lemma {:induction false} RetroDates(planets: seq<string>, periods: map<string, seq<Retrograde.RetroPeriod>>, localDate: int,
                                      todayIso: string, alerts: map<string, SharedStorage.RetroMarks>)
    ensures forall x | x in RetroPlan(planets, periods, localDate, todayIso, alerts).0 ::
              (x.kind == "pre" ==> x.period.preAlert == localDate) && (x.kind == "start" ==> x.period.start == localDate)
  {
    if planets != [] {
      var init := planets[..|planets| - 1];
      var planet := planets[|planets| - 1];
      RetroDates(init, periods, localDate, todayIso, alerts);
      var before := RetroPlan(init, periods, localDate, todayIso, alerts);
      PlanetDates(planet, PeriodsOf(periods, planet), localDate, todayIso, before.1);
    }
  }

  lemma {:induction false} PlanetDates(planet: string, ps: seq<Retrograde.RetroPeriod>, localDate: int, todayIso: string,
                                       alerts: map<string, SharedStorage.RetroMarks>)
    ensures forall x | x in PlanetAlerts(planet, ps, localDate, todayIso, alerts).0 ::
              (x.kind == "pre" ==> x.period.preAlert == localDate) && (x.kind == "start" ==> x.period.start == localDate)
  {
    if ps != [] {
      PlanetDates(planet, ps[..|ps| - 1], localDate, todayIso, alerts);
    }
  }

  /** When every alert due today is already marked, a run sends nothing and marks nothing. */
  lemma {:induction false} NothingWhenMarked(planets: seq<string>, periods: map<string, seq<Retrograde.RetroPeriod>>, localDate: int,
                                             todayIso: string, alerts: map<string, SharedStorage.RetroMarks>)
    requires forall pl, p | pl in planets && p in PeriodsOf(periods, pl) && p.preAlert == localDate ::
               SharedStorage.HasAlert(alerts, pl, "pre", todayIso)
    requires forall pl, p | pl in planets && p in PeriodsOf(periods, pl) && p.start == localDate ::
               SharedStorage.HasAlert(alerts, pl, "start", todayIso)
    ensures RetroPlan(planets, periods, localDate, todayIso, alerts) == ([], alerts)
  {
    if planets != [] {
      var init := planets[..|planets| - 1];
      var planet := planets[|planets| - 1];
      assert forall pl | pl in init :: pl in planets;
      NothingWhenMarked(init, periods, localDate, todayIso, alerts);
      assert planet in planets;
      PlanetNothingWhenMarked(planet, PeriodsOf(periods, planet), localDate, todayIso, alerts);
      assert |RetroPlan(planets, periods, localDate, todayIso, alerts).0| == 0;
    }
  }

  lemma {:induction false} PlanetNothingWhenMarked(planet: string, ps: seq<Retrograde.RetroPeriod>, localDate: int, todayIso: string,
                                                   alerts: map<string, SharedStorage.RetroMarks>)
    requires forall p | p in ps && p.preAlert == localDate :: SharedStorage.HasAlert(alerts, planet, "pre", todayIso)
    requires forall p | p in ps && p.start == localDate :: SharedStorage.HasAlert(alerts, planet, "start", todayIso)
    ensures PlanetAlerts(planet, ps, localDate, todayIso, alerts) == ([], alerts)
  {
    if ps != [] {
      var last := ps[|ps| - 1];
      assert forall p | p in ps[..|ps| - 1] :: p in ps;
      PlanetNothingWhenMarked(planet, ps[..|ps| - 1], localDate, todayIso, alerts);
      assert last in ps;
      assert last.preAlert == localDate ==> SharedStorage.HasAlert(alerts, planet, "pre", todayIso);
      assert last.start == localDate ==> SharedStorage.HasAlert(alerts, planet, "start", todayIso);
      assert PeriodStep(planet, last, localDate, todayIso, alerts).1 == alerts;
      assert |PeriodStep(planet, last, localDate, todayIso, alerts).0| == 0;
    }
  }

  /** A second run on the same day, over the marks the first one left, sends nothing. */
  lemma RetroAlertsSentOnce(planets: seq<string>, periods: map<string, seq<Retrograde.RetroPeriod>>, localDate: int,
                            todayIso: string, alerts: map<string, SharedStorage.RetroMarks>)
    ensures var first := RetroPlan(planets, periods, localDate, todayIso, alerts);
            RetroPlan(planets, periods, localDate, todayIso, first.1) == ([], first.1)
  {
    RetroPlanFacts(planets, periods, localDate, todayIso, alerts);
    var first := RetroPlan(planets, periods, localDate, todayIso, alerts);
    NothingWhenMarked(planets, periods, localDate, todayIso, first.1);
  }

  /** A user without premium only ever gets Mercury alerts. */
  lemma FreeUsersOnlyMercury(tracked: seq<string>, periods: map<string, seq<Retrograde.RetroPeriod>>, localDate: int,
                             todayIso: string, alerts: map<string, SharedStorage.RetroMarks>, x: RetroAlert)
    requires x in RetroPlan(AllowedPlanets(false, tracked), periods, localDate, todayIso, alerts).0
    ensures x.planet == "Mercury"
  {
    RetroPlanFacts(AllowedPlanets(false, tracked), periods, localDate, todayIso, alerts);
  }

  /** A record fetched again at the same time is left as it is, whatever its alert marks. */
  lemma RefetchSettled(u: SharedStorage.User, now: int, isAdmin: bool, alerts: map<string, SharedStorage.RetroMarks>)
    ensures var v := SharedStorage.Touch(u, now, isAdmin).(retroAlerts := alerts);
            SharedStorage.Touch(v, now, isAdmin) == v
  {
  }

  // ---------------------------------------------------------------------
  // The daily text
  // ---------------------------------------------------------------------

  const SpecialDay: string := "Сегодня особенный день! Доверьтесь своей интуиции."

  /** The texts stored for one number: its contexts, or a value that is not a dictionary. */
  datatype NumberTexts = Contexts(byContext: map<string, seq<string>>) | NotADict

  /** `contexts.get("premium_daily") or contexts.get("daily")`, with a missing key read as empty. */
  function DailyOptions(contexts: map<string, seq<string>>): (options: seq<string>)
    ensures "premium_daily" in contexts && contexts["premium_daily"] != [] ==> options == contexts["premium_daily"]
    ensures !("premium_daily" in contexts && contexts["premium_daily"] != []) ==>
              options == (if "daily" in contexts then contexts["daily"] else [])
  {
    if "premium_daily" in contexts && contexts["premium_daily"] != [] then contexts["premium_daily"]
    else if "daily" in contexts then contexts["daily"] else []
  }

  /** `_get_daily_text`: a text for the day's number not yet in the history, or any once all were shown, or the fixed sentence. */
  function DailyText(dailyNumber: int, history: seq<string>, numberTexts: map<string, NumberTexts>, pick: nat): (text: string)
  {
    var key := IntToString(dailyNumber);
    if key !in numberTexts || numberTexts[key].NotADict? then SpecialDay
    else
      var options := DailyOptions(numberTexts[key].byContext);
      if options == [] then SpecialDay
      else
        var unused := Unused(options, history);
        Pick(if unused == [] then options else unused, pick)
  }

  /**
   * The daily text is one of the number's options, and a fresh one while any
   * option is unseen; with no options for the number it is the fixed sentence.
   */
  lemma DailyTextChoice(dailyNumber: int, history: seq<string>, numberTexts: map<string, NumberTexts>, pick: nat)
    ensures var key := IntToString(dailyNumber);
            var text := DailyText(dailyNumber, history, numberTexts, pick);
            if key in numberTexts && numberTexts[key].Contexts? && DailyOptions(numberTexts[key].byContext) != [] then
              var options := DailyOptions(numberTexts[key].byContext);
              text in options && ((exists t | t in options :: t !in history) ==> text !in history)
            else text == SpecialDay
  {
    var key := IntToString(dailyNumber);
    if key in numberTexts && numberTexts[key].Contexts? && DailyOptions(numberTexts[key].byContext) != [] {
      var options := DailyOptions(numberTexts[key].byContext);
      if exists t | t in options :: t !in history {
        var t :| t in options && t !in history;
        assert t in Unused(options, history);
      }
    }
  }

  // ---------------------------------------------------------------------
  // Checking and marking alerts in the store
  // ---------------------------------------------------------------------

  /** `not any(periods_map.values())`: no tracked planet has a period in the window. */
  predicate NoPeriods(periods: map<string, seq<Retrograde.RetroPeriod>>)
  {
    forall p | p in periods :: periods[p] == []
  }

  /** A stored record that a fetch at `now` leaves as it is. */
  predicate Settled(users: map<int, SharedStorage.User>, id: int, now: int, isAdmin: bool)
  {
    id in users && SharedStorage.Touch(users[id], now, isAdmin) == users[id]
  }

  /** A settled record stays settled whatever its alert marks become. */
  lemma SettledMarks(users: map<int, SharedStorage.User>, id: int, now: int, isAdmin: bool, alerts: map<string, SharedStorage.RetroMarks>)
    requires Settled(users, id, now, isAdmin)
    ensures Settled(users[id := users[id].(retroAlerts := alerts)], id, now, isAdmin)
  {
  }

  /** Setting a record's alert marks twice is setting them to the second value. */
  lemma MarksTwice(users: map<int, SharedStorage.User>, id: int, a: map<string, SharedStorage.RetroMarks>, b: map<string, SharedStorage.RetroMarks>)
    requires id in users
    ensures var once := users[id := users[id].(retroAlerts := a)];
            once[id := once[id].(retroAlerts := b)] == users[id := users[id].(retroAlerts := b)]
  {
  }

  /** The two checks of one period against the store, as `PeriodStep` describes them. */
  method AlertPeriod(storage: SharedStorage.UserStorage, id: int, now: int, planet: string, p: Retrograde.RetroPeriod,
                     localDate: int, todayIso: string)
    returns (sent: seq<RetroAlert>)
    modifies storage
    requires Settled(storage.users, id, now, id in storage.admins)
    ensures var r := PeriodStep(planet, p, localDate, todayIso, old(storage.users)[id].retroAlerts);
            sent == r.0 && storage.users == old(storage.users)[id := old(storage.users)[id].(retroAlerts := r.1)]
  {
    ghost var users0 := storage.users;
    sent := [];
    if p.preAlert == localDate {
      var has := storage.HasRetroAlert(id, now, planet, "pre", todayIso);
      if !has {
        sent := [RetroAlert(planet, "pre", p)];
        storage.MarkRetroAlert(id, now, planet, "pre", todayIso);
      }
    }
    SettledMarks(users0, id, now, id in storage.admins, storage.users[id].retroAlerts);
    if p.start == localDate {
      var has := storage.HasRetroAlert(id, now, planet, "start", todayIso);
      if !has {
        sent := sent + [RetroAlert(planet, "start", p)];
        storage.MarkRetroAlert(id, now, planet, "start", todayIso);
      }
    }
  }

  /** One planet's periods in order, as `PlanetAlerts` describes them. */
  method AlertPlanet(storage: SharedStorage.UserStorage, id: int, now: int, planet: string, ps: seq<Retrograde.RetroPeriod>,
                     localDate: int, todayIso: string)
    returns (sent: seq<RetroAlert>)
    modifies storage
    requires Settled(storage.users, id, now, id in storage.admins)
    ensures var r := PlanetAlerts(planet, ps, localDate, todayIso, old(storage.users)[id].retroAlerts);
            sent == r.0 && storage.users == old(storage.users)[id := old(storage.users)[id].(retroAlerts := r.1)]
  {
    ghost var users0 := storage.users;
    ghost var base := users0[id].retroAlerts;
    sent := [];
    var j := 0;
    while j < |ps|
      invariant 0 <= j <= |ps|
      invariant sent == PlanetAlerts(planet, ps[..j], localDate, todayIso, base).0
      invariant storage.users == users0[id := users0[id].(retroAlerts := PlanetAlerts(planet, ps[..j], localDate, todayIso, base).1)]
    {
      assert ps[..j + 1][..j] == ps[..j];
      ghost var marks := PlanetAlerts(planet, ps[..j], localDate, todayIso, base).1;
      SettledMarks(users0, id, now, id in storage.admins, marks);
      MarksTwice(users0, id, marks, PeriodStep(planet, ps[j], localDate, todayIso, marks).1);
      var more := AlertPeriod(storage, id, now, planet, ps[j], localDate, todayIso);
      sent := sent + more;
      j := j + 1;
    }
    assert ps[..j] == ps;
  }

  /** All allowed planets in order, as `RetroPlan` describes them. */
  method AlertPlanets(storage: SharedStorage.UserStorage, id: int, now: int, planets: seq<string>,
                      periods: map<string, seq<Retrograde.RetroPeriod>>, localDate: int, todayIso: string)
    returns (sent: seq<RetroAlert>)
    modifies storage
    requires Settled(storage.users, id, now, id in storage.admins)
    ensures var r := RetroPlan(planets, periods, localDate, todayIso, old(storage.users)[id].retroAlerts);
            sent == r.0 && storage.users == old(storage.users)[id := old(storage.users)[id].(retroAlerts := r.1)]
  {
    ghost var users0 := storage.users;
    ghost var base := users0[id].retroAlerts;
    sent := [];
    var i := 0;
    while i < |planets|
      invariant 0 <= i <= |planets|
      invariant sent == RetroPlan(planets[..i], periods, localDate, todayIso, base).0
      invariant storage.users == users0[id := users0[id].(retroAlerts := RetroPlan(planets[..i], periods, localDate, todayIso, base).1)]
    {
      assert planets[..i + 1][..i] == planets[..i];
      ghost var marks := RetroPlan(planets[..i], periods, localDate, todayIso, base).1;
      SettledMarks(users0, id, now, id in storage.admins, marks);
      MarksTwice(users0, id, marks, PlanetAlerts(planets[i], PeriodsOf(periods, planets[i]), localDate, todayIso, marks).1);
      var more := AlertPlanet(storage, id, now, planets[i], PeriodsOf(periods, planets[i]), localDate, todayIso);
      sent := sent + more;
      i := i + 1;
    }
    assert planets[..i] == planets;
  }

  // ---------------------------------------------------------------------
  // The scheduler
  // ---------------------------------------------------------------------

  class NotificationScheduler {
    var targetHour: int
    var targetMinute: int
    var lastSentDate: Option<int>
    /** The ISO (year, week) of the last weekly digest. */
    var lastDigestWeek: Option<(int, int)>

    /** The scheduler starts with the given time (11:00 by default) and nothing sent. */
    constructor(targetHour: int, targetMinute: int)
      ensures this.targetHour == targetHour && this.targetMinute == targetMinute
      ensures lastSentDate == None && lastDigestWeek == None
    {
      this.targetHour := targetHour;
      this.targetMinute := targetMinute;
      lastSentDate := None;
      lastDigestWeek := None;
    }

    /** `set_notification_time`: an out-of-range time is refused and the old time kept. */
    method SetNotificationTime(hour: int, minute: int) returns (r: Result<()>)
      modifies this
      ensures r.Ok? <==> InDay(hour, minute)
      ensures r.Ok? ==> targetHour == hour && targetMinute == minute
      ensures r.Err? ==> targetHour == old(targetHour) && targetMinute == old(targetMinute)
      ensures lastSentDate == old(lastSentDate) && lastDigestWeek == old(lastDigestWeek)
    {
      if !InDay(hour, minute) {
        return Err("Время должно быть в диапазоне 00:00-23:59");
      }
      targetHour := hour;
      targetMinute := minute;
      r := Ok(());
    }

    /**
     * The guards of one check: whether the daily broadcast and the weekly
     * digest go out now, recording the date and the week they went out.
     */
    method Check(today: int, hour: int, minute: int, weekday: int, isoWeek: (int, int)) returns (daily: bool, digest: bool)
      modifies this
      ensures daily == DailyDue(old(targetHour), old(targetMinute), old(lastSentDate), today, hour, minute)
      ensures lastSentDate == if daily then Some(today) else old(lastSentDate)
      ensures digest <==> weekday == 0 && old(lastDigestWeek) != Some(isoWeek)
      ensures lastDigestWeek == if digest then Some(isoWeek) else old(lastDigestWeek)
      ensures targetHour == old(targetHour) && targetMinute == old(targetMinute)
    {
      daily := DailyDue(targetHour, targetMinute, lastSentDate, today, hour, minute);
      if daily {
        lastSentDate := Some(today);
      }
      digest := weekday == 0 && lastDigestWeek != Some(isoWeek);
      if digest {
        lastDigestWeek := Some(isoWeek);
      }
    }

    /**
     * `_send_retrograde_alerts` for one user. Nothing happens when no
     * tracked planet has a period in the window or notifications are off.
     * Otherwise the user's zone is looked up first: when the birth profile
     * names none (`zoneInProfile` false), `get_user_timezone` falls back to
     * `get_user`, which refreshes the record whether or not it is the target
     * minute. At the target minute in the user's zone the alerts of
     * `RetroPlan` over the allowed planets are checked and marked in the
     * store one by one.
     */
    method RetroAlertsForUser(storage: SharedStorage.UserStorage, id: int, now: int, enabled: bool, zoneInProfile: bool,
                              localHour: int, localMinute: int, localDate: int, todayIso: string,
                              tracked: seq<string>, periods: map<string, seq<Retrograde.RetroPeriod>>)
      returns (sent: seq<RetroAlert>)
      modifies storage
      ensures NoPeriods(periods) || !enabled ==> sent == [] && storage.users == old(storage.users)
      ensures !NoPeriods(periods) && enabled && !(localHour == targetHour && localMinute == targetMinute) ==>
                sent == [] &&
                storage.users == if zoneInProfile then old(storage.users)
                                 else old(storage.users)[id := SharedStorage.Fetched(old(storage.users), id, now, id in storage.admins)]
      ensures !NoPeriods(periods) && enabled && localHour == targetHour && localMinute == targetMinute ==>
                var u := SharedStorage.Fetched(old(storage.users), id, now, id in storage.admins);
                var plan := RetroPlan(AllowedPlanets(u.subscription.active, tracked), periods, localDate, todayIso, u.retroAlerts);
                sent == plan.0 && storage.users == old(storage.users)[id := u.(retroAlerts := plan.1)]
    {
      if NoPeriods(periods) || !enabled {
        return [];
      }
      var stored := if id in old(storage.users) then old(storage.users)[id] else SharedStorage.NewUser(now);
      if !zoneInProfile {
        var record := storage.GetUser(id, now);
        SharedStorage.TouchIdempotent(stored, now, id in storage.admins);
      }
      if !(localHour == targetHour && localMinute == targetMinute) {
        return [];
      }
      ghost var u := SharedStorage.Fetched(old(storage.users), id, now, id in storage.admins);
      var premium := ForecastRouter.IsPremium(storage, id, now);
      assert storage.users == old(storage.users)[id := u] by {
        Dicts.UpdateTwice(old(storage.users), id, u, u);
      }
      RefetchSettled(stored, now, id in storage.admins, u.retroAlerts);
      ghost var plan := RetroPlan(AllowedPlanets(u.subscription.active, tracked), periods, localDate, todayIso, u.retroAlerts);
      sent := AlertPlanets(storage, id, now, AllowedPlanets(premium, tracked), periods, localDate, todayIso);
      Dicts.UpdateTwice(old(storage.users), id, u, u.(retroAlerts := plan.1));
    }
  }
}
