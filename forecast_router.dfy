/**
 * The pure helpers of the personal forecast and natal chart screens:
 * readable names for missing profile fields, the free preview of a
 * forecast, the display form of an ISO date and the premium test. Both
 * screens carry identical copies of the first three; they are defined
 * once here.
 */
module ForecastRouter {
  import opened Wrappers
  import opened Strings
  import opened Slices
  import opened Calendar
  import opened Formatters
  import opened Forecast
  import SharedStorage

  // ---------------------------------------------------------------------
  // Missing fields
  // ---------------------------------------------------------------------

  /** `mapping.get(field, field)`: the Russian name of a profile field; unknown names pass through. */
  function FieldLabel(field: string): (name: string)
    ensures field == "lat" || field == "lon" ==> name == "координаты"
    ensures field == "birth_date" ==> name == "дата рождения"
    ensures field == "timezone" ==> name == "часовой пояс"
    ensures field == "profile" ==> name == "профиль пользователя"
    ensures field !in {"birth_date", "lat", "lon", "timezone", "profile"} ==> name == field
  {
    if field == "birth_date" then "дата рождения"
    else if field == "lat" || field == "lon" then "координаты"
    else if field == "timezone" then "часовой пояс"
    else if field == "profile" then "профиль пользователя"
    else field
  }

  /** The labels of the fields, each kept at its first occurrence. */
  function HumanLabels(fields: seq<string>): seq<string>
  {
    if fields == [] then []
    else
      var labels := HumanLabels(fields[..|fields| - 1]);
      var name := FieldLabel(fields[|fields| - 1]);
      if name in labels then labels else labels + [name]
  }

  predicate Distinct(s: seq<string>)
  {
    forall i, j | 0 <= i < j < |s| :: s[i] != s[j]
  }

  /** No name is printed twice. */
  lemma {:induction false} HumanLabelsDistinct(fields: seq<string>)
    ensures Distinct(HumanLabels(fields))
  {
    if fields != [] {
      HumanLabelsDistinct(fields[..|fields| - 1]);
    }
  }

  /** A name is printed exactly when some missing field maps to it. */
  lemma {:induction false} HumanLabelsMembers(fields: seq<string>, name: string)
    ensures name in HumanLabels(fields) <==> exists i | 0 <= i < |fields| :: FieldLabel(fields[i]) == name
  {
    if fields != [] {
      var init := fields[..|fields| - 1];
      HumanLabelsMembers(init, name);
      AddLabelMembers(HumanLabels(init), FieldLabel(fields[|fields| - 1]), name);
      LabelOfSomeField(fields, init, name);
    }
  }

  /** Adding a label unless present: the members are the old ones and the new label. */
  lemma AddLabelMembers(labels: seq<string>, added: string, name: string)
    ensures (name in if added in labels then labels else labels + [added]) <==> name in labels || name == added
  {
  }

  /** Some field maps to `name` exactly when an earlier field or the last one does. */
  lemma LabelOfSomeField(fields: seq<string>, init: seq<string>, name: string)
    requires fields != [] && init == fields[..|fields| - 1]
    ensures (exists i | 0 <= i < |fields| :: FieldLabel(fields[i]) == name)
            <==> (exists i | 0 <= i < |init| :: FieldLabel(init[i]) == name) || FieldLabel(fields[|fields| - 1]) == name
  {
    if exists i | 0 <= i < |init| :: FieldLabel(init[i]) == name {
      var i :| 0 <= i < |init| && FieldLabel(init[i]) == name;
      assert fields[i] == init[i];
    }
    if exists i | 0 <= i < |fields| :: FieldLabel(fields[i]) == name {
      var i :| 0 <= i < |fields| && FieldLabel(fields[i]) == name;
      if i < |init| {
        assert init[i] == fields[i];
      }
    }
  }

  /** The labels of an earlier part of the list come first: labels appear in first-occurrence order. */
  lemma {:induction false} HumanLabelsPrefix(fields: seq<string>, k: nat)
    requires k <= |fields|
    ensures var whole := HumanLabels(fields);
            var part := HumanLabels(fields[..k]);
            |part| <= |whole| && whole[..|part|] == part
    decreases |fields|
  {
    if k < |fields| {
      var init := fields[..|fields| - 1];
      assert init[..k] == fields[..k];
      HumanLabelsPrefix(init, k);
    } else {
      assert fields[..k] == fields;
    }
  }

  /** A distinct list holds each of its members once. */
  lemma {:induction false} DistinctCountsOnce(s: seq<string>, x: string)
    requires Distinct(s) && x in s
    ensures multiset(s)[x] == 1
  {
    var n := |s| - 1;
    assert s == s[..n] + [s[n]];
    if s[n] == x {
      assert x !in s[..n];
    } else {
      assert x in s[..n];
      DistinctCountsOnce(s[..n], x);
    }
  }

  /** Missing latitude and longitude together give one "координаты". */
  lemma CoordinatesOnce(fields: seq<string>)
    requires "lat" in fields || "lon" in fields
    ensures multiset(HumanLabels(fields))["координаты"] == 1
  {
    var i :| 0 <= i < |fields| && (fields[i] == "lat" || fields[i] == "lon");
    HumanLabelsMembers(fields, "координаты");
    HumanLabelsDistinct(fields);
    DistinctCountsOnce(HumanLabels(fields), "координаты");
  }

  /** `_format_missing_fields`: the loop over the missing fields. */
  method FormatMissingFields(missing: seq<string>) returns (text: string)
    ensures text == Join(", ", HumanLabels(missing))
  {
    var human: seq<string> := [];
    var i := 0;
    while i < |missing|
      invariant 0 <= i <= |missing|
      invariant human == HumanLabels(missing[..i])
    {
      assert missing[..i + 1][..i] == missing[..i];
      var name := FieldLabel(missing[i]);
      if name !in human {
        human := human + [name];
      }
      i := i + 1;
    }
    assert missing[..i] == missing;
    text := Join(", ", human);
  }

  // ---------------------------------------------------------------------
  // The preview
  // ---------------------------------------------------------------------

  /** `_build_preview`: the same forecast with only its first aspect and nothing missing. */
  function BuildPreview(r: ForecastResult): (p: ForecastResult)
    ensures p.userId == r.userId && p.targetDate == r.targetDate
    ensures p.natalChart == r.natalChart && p.transitChart == r.transitChart
    ensures p.missingFields == []
    ensures |p.aspects| == (if r.aspects == [] then 0 else 1) && p.aspects == r.aspects[..|p.aspects|]
    ensures r.aspects != [] ==> p.aspects == [r.aspects[0]]
  {
    ForecastResult(r.userId, r.targetDate, r.natalChart, r.transitChart, SliceTo(r.aspects, 1), [])
  }

  /** A successful forecast stays successful as a preview, and previewing twice changes nothing. */
  lemma PreviewProperties(r: ForecastResult)
    ensures Forecast.Ok(r) ==> Forecast.Ok(BuildPreview(r))
    ensures BuildPreview(BuildPreview(r)) == BuildPreview(r)
  {
  }

  // ---------------------------------------------------------------------
  // Dates and the premium test
  // ---------------------------------------------------------------------

  /**
   * The routers' own `_format_iso_to_display`: the parsed date as
   * "DD.MM.YYYY", otherwise the input, or "—" when the input is empty.
   */
  function IsoToDisplay(iso: string): (r: string)
    ensures ParseIsoDate(iso).Some? ==> r == DisplayDate(ParseIsoDate(iso).value)
    ensures ParseIsoDate(iso).None? && iso != [] ==> r == iso
    ensures iso == [] ==> r == "—"
  {
    match ParseIsoDate(iso)
    case Some(d) => DisplayDate(d)
    case None => if iso != [] then iso else "—"
  }

  /**
   * The routers' copy agrees with the shared formatter called with "—"
   * whenever the shared one has no 'Z' to replace.
   */
  lemma IsoToDisplayIsShared(iso: string)
    requires 'T' !in iso || 'Z' !in iso
    ensures IsoToDisplay(iso) == FormatIsoToDisplay(iso, "—")
  {
    if 'T' in iso {
      ZuluFree(iso);
    }
  }

  /**
   * A UTC time written with 'Z' is shown as the date by the shared
   * formatter but echoed unchanged by the routers' copy.
   */
  lemma IsoToDisplayEchoesZulu(d: Date, h: nat, m: nat)
    requires ValidDate(d) && d.year >= 1000 && h < 24 && m < 60
    ensures var iso := IsoDateString(d) + "T" + Pad2(h) + ":" + Pad2(m) + "Z";
            IsoToDisplay(iso) == iso && FormatIsoToDisplay(iso, "—") == DisplayDate(d)
  {
    ZuluTimeDisplayed(d, h, m, "—");
    ZuluIsoUnparsed(d, h, m);
  }

  /** `_is_premium`: whether the fetched record's subscription is active. */
  method IsPremium(storage: SharedStorage.UserStorage, id: int, now: int) returns (premium: bool)
    modifies storage
    ensures premium == SharedStorage.Fetched(old(storage.users), id, now, id in storage.admins).subscription.active
    ensures storage.users == old(storage.users)[id := SharedStorage.Fetched(old(storage.users), id, now, id in storage.admins)]
  {
    var user := storage.GetUser(id, now);
    premium := user.subscription.active;
  }
}
