/**
 * Turning a forecast into text: template choice, the placeholder values,
 * the house and retrograde notes, one paragraph per aspect and the whole
 * message. The template file is an immutable value read once; placeholder
 * substitution (`str.format`) is a parameter; random choices are indices.
 */
module Interpretation {
  import opened Wrappers
  import opened Strings
  import opened Slices
  import opened Calendar
  import Formatters
  import opened Ephemeris
  import opened Transits
  import opened Forecast

  datatype Template = Template(title: string, text: string, advice: string)

  /** The template file: templates per transit planet, aspect and natal planet, defaults per aspect, house texts and retrograde notes. */
  datatype TemplateData = TemplateData(
    planets: map<string, map<string, map<string, seq<Template>>>>,
    defaults: map<string, seq<Template>>,
    houses: map<string, seq<string>>,
    retrogradeNotes: map<string, string>)

  /** The values substituted into a template. */
  datatype Context = Context(transitPlanet: string, natalPlanet: string, aspectName: string, orb: real)

  /** `str.format(**context)`, supplied from outside. */
  type Formatter = (string, Context) -> string

  /** The random draws of one aspect's rendering. */
  datatype Draws = Draws(template: nat, transitHouse: nat, natalHouse: nat)

  /** `_data`: read from the file on first use, the same value afterwards. */
  class TransitInterpreter {
    var loaded: Option<TemplateData>

    constructor()
      ensures loaded.None?
    {
      loaded := None;
    }

    /** The `data` property: the file's contents are read only while nothing is loaded. */
    method Data(file: TemplateData) returns (d: TemplateData)
      modifies this
      ensures old(loaded).Some? ==> d == old(loaded).value && loaded == old(loaded)
      ensures old(loaded).None? ==> d == file && loaded == Some(file)
    {
      if loaded.None? {
        loaded := Some(file);
      }
      d := loaded.value;
    }
  }

  /** `dict.get(key, {})` on the nested template maps. */
  function ExactTemplates(data: TemplateData, a: TransitAspect): (ts: seq<Template>)
    ensures ts != [] ==> a.transitPlanet in data.planets && a.aspect in data.planets[a.transitPlanet]
                         && a.natalPlanet in data.planets[a.transitPlanet][a.aspect]
                         && ts == data.planets[a.transitPlanet][a.aspect][a.natalPlanet]
  {
    if a.transitPlanet !in data.planets then []
    else if a.aspect !in data.planets[a.transitPlanet] then []
    else if a.natalPlanet !in data.planets[a.transitPlanet][a.aspect] then []
    else data.planets[a.transitPlanet][a.aspect][a.natalPlanet]
  }

  function DefaultTemplates(data: TemplateData, aspect: string): seq<Template>
  {
    if aspect in data.defaults then data.defaults[aspect] else []
  }

  /**
   * `_choose_template`: one of the templates for the exact (transit
   * planet, aspect, natal planet) triple when there are any, else one of
   * the aspect's defaults, else none.
   */
  function ChooseTemplate(data: TemplateData, a: TransitAspect, k: nat): (t: Option<Template>)
    ensures ExactTemplates(data, a) != [] ==> t.Some? && t.value in ExactTemplates(data, a)
    ensures ExactTemplates(data, a) == [] && DefaultTemplates(data, a.aspect) != [] ==>
              t.Some? && t.value in DefaultTemplates(data, a.aspect)
    ensures t.None? <==> ExactTemplates(data, a) == [] && DefaultTemplates(data, a.aspect) == []
  {
    var exact := ExactTemplates(data, a);
    if exact != [] then Some(Pick(exact, k))
    else
      var defaults := DefaultTemplates(data, a.aspect);
      if defaults != [] then Some(Pick(defaults, k)) else None
  }

  /** `dict.get(key, key)`: the Russian name, or the id itself. */
  function NameOr(names: map<string, string>, id: string): (n: string)
    ensures id in names ==> n == names[id]
    ensures id !in names ==> n == id
  {
    if id in names then names[id] else id
  }

  /** `_build_context`: Russian names where known, raw ids otherwise, and the orb. */
  function BuildContext(a: TransitAspect, planetNames: map<string, string>, aspectNames: map<string, string>)
    : (c: Context)
    ensures c.transitPlanet == NameOr(planetNames, a.transitPlanet)
    ensures c.natalPlanet == NameOr(planetNames, a.natalPlanet)
    ensures c.aspectName == NameOr(aspectNames, a.aspect)
    ensures c.orb == a.orb
  {
    Context(NameOr(planetNames, a.transitPlanet), NameOr(planetNames, a.natalPlanet), NameOr(aspectNames, a.aspect), a.orb)
  }

  /** `_house_note`: none for no house or house 0, none for a house without texts, else the prefix and one of its texts. */
  function HouseNote(data: TemplateData, house: Option<int>, prefix: string, k: nat): (note: Option<string>)
    ensures house.None? || house == Some(0) ==> note.None?
    ensures note.Some? ==>
              (house.Some? && IntToString(house.value) in data.houses
               && exists m | m in data.houses[IntToString(house.value)] :: note.value == prefix + ": " + m)
    ensures (house.Some? && house.value != 0 && IntToString(house.value) in data.houses
             && data.houses[IntToString(house.value)] != []) ==> note.Some?
  {
    if house.None? || house.value == 0 then None
    else
      var key := IntToString(house.value);
      if key !in data.houses || data.houses[key] == [] then None
      else Some(prefix + ": " + Pick(data.houses[key], k))
  }

  const GenericRetrogradeNote: string :=
    "♻️ {transit_planet} движется ретроградно: действуйте вдумчиво, оставьте пространство для корректировок."

  /** `_retrograde_note`: only for a retrograde transit planet; its own note when non-empty, else the generic one. */
  function RetrogradeNote(data: TemplateData, a: TransitAspect, format: Formatter, ctx: Context): (note: Option<string>)
    ensures note.Some? <==> a.transitPosition.retrograde
    ensures note.Some? && a.transitPlanet in data.retrogradeNotes && data.retrogradeNotes[a.transitPlanet] != [] ==>
              note.value == format(data.retrogradeNotes[a.transitPlanet], ctx)
    ensures note.Some? && (a.transitPlanet !in data.retrogradeNotes || data.retrogradeNotes[a.transitPlanet] == []) ==>
              note.value == format(GenericRetrogradeNote, ctx)
  {
    if !a.transitPosition.retrograde then None
    else
      var message := if a.transitPlanet in data.retrogradeNotes && data.retrogradeNotes[a.transitPlanet] != []
                     then data.retrogradeNotes[a.transitPlanet] else GenericRetrogradeNote;
      Some(format(message, ctx))
  }

  datatype RenderedAspect = RenderedAspect(
    title: string,
    text: string,
    advice: string,
    transitHouseNote: Option<string>,
    natalHouseNote: Option<string>,
    retroNote: Option<string>)

  /**
   * The lines of `to_text`: title, text, the transit house note, the natal
   * house note unless it repeats the transit one, the retrograde note, and
   * the advice.
   */
  function TextParts(r: RenderedAspect): (parts: seq<string>)
    ensures 3 <= |parts| <= 6
    ensures parts[0] == r.title && parts[1] == r.text && parts[|parts| - 1] == "Совет: " + r.advice
    ensures Truthy(r.transitHouseNote) ==> parts[2] == r.transitHouseNote.value
    ensures |parts| == 3 + (if Truthy(r.transitHouseNote) then 1 else 0)
                         + (if Truthy(r.natalHouseNote) && r.natalHouseNote != r.transitHouseNote then 1 else 0)
                         + (if Truthy(r.retroNote) then 1 else 0)
    ensures Truthy(r.retroNote) ==> parts[|parts| - 2] == r.retroNote.value
    ensures Truthy(r.natalHouseNote) && r.natalHouseNote != r.transitHouseNote ==>
              parts[if Truthy(r.transitHouseNote) then 3 else 2] == r.natalHouseNote.value
  {
    [r.title, r.text]
    + (if Truthy(r.transitHouseNote) then [r.transitHouseNote.value] else [])
    + (if Truthy(r.natalHouseNote) && r.natalHouseNote != r.transitHouseNote then [r.natalHouseNote.value] else [])
    + (if Truthy(r.retroNote) then [r.retroNote.value] else [])
    + ["Совет: " + r.advice]
  }

  /** `RenderedAspect.to_text`. */
  function ToText(r: RenderedAspect): string
  {
    Join("\n", TextParts(r))
  }

  /** The tables and outside answers rendering relies on. */
  datatype Renderer = Renderer(
    data: TemplateData,
    format: Formatter,
    planetNames: map<string, string>,
    aspectNames: map<string, string>)

  /** `_render_aspect`: nothing without a template; otherwise the filled template and the three notes. */
  function RenderAspect(rd: Renderer, a: TransitAspect, draws: Draws): (r: Option<RenderedAspect>)
    ensures r.None? <==> ChooseTemplate(rd.data, a, draws.template).None?
    ensures r.Some? ==>
              var t := ChooseTemplate(rd.data, a, draws.template).value;
              var ctx := BuildContext(a, rd.planetNames, rd.aspectNames);
              r.value.title == rd.format(t.title, ctx) && r.value.text == rd.format(t.text, ctx)
              && r.value.advice == rd.format(t.advice, ctx)
              && r.value.transitHouseNote == HouseNote(rd.data, a.transitHouse, "⚡ Транзит затрагивает", draws.transitHouse)
              && r.value.natalHouseNote == HouseNote(rd.data, a.natalHouse, "🧭 Натальная тема", draws.natalHouse)
              && r.value.retroNote == RetrogradeNote(rd.data, a, rd.format, ctx)
  {
    match ChooseTemplate(rd.data, a, draws.template)
    case None => None
    case Some(t) =>
      var ctx := BuildContext(a, rd.planetNames, rd.aspectNames);
      Some(RenderedAspect(
        rd.format(t.title, ctx), rd.format(t.text, ctx), rd.format(t.advice, ctx),
        HouseNote(rd.data, a.transitHouse, "⚡ Транзит затрагивает", draws.transitHouse),
        HouseNote(rd.data, a.natalHouse, "🧭 Натальная тема", draws.natalHouse),
        RetrogradeNote(rd.data, a, rd.format, ctx)))
  }

  /** Each aspect's rendering attempt, in input order. */
  function Attempts(rd: Renderer, aspects: seq<TransitAspect>, draws: nat -> Draws): (a: seq<Option<RenderedAspect>>)
    ensures |a| == |aspects|
    ensures forall i | 0 <= i < |aspects| :: a[i] == RenderAspect(rd, aspects[i], draws(i))
  {
    seq(|aspects|, i requires 0 <= i < |aspects| => RenderAspect(rd, aspects[i], draws(i)))
  }

  /** The aspects that render, in input order; aspects without a template are left out. */
  function RenderAll(rd: Renderer, aspects: seq<TransitAspect>, draws: nat -> Draws): (r: seq<RenderedAspect>)
    ensures |r| <= |aspects|
    ensures r == [] <==> forall i | 0 <= i < |aspects| :: RenderAspect(rd, aspects[i], draws(i)).None?
  {
    var a := Attempts(rd, aspects, draws);
    assert forall i | 0 <= i < |aspects| :: a[i].None? == RenderAspect(rd, aspects[i], draws(i)).None?;
    Present(a)
  }

  /** Every aspect with a template is among the rendered paragraphs. */
  lemma RenderAllMembers(rd: Renderer, aspects: seq<TransitAspect>, draws: nat -> Draws, i: int)
    requires 0 <= i < |aspects| && RenderAspect(rd, aspects[i], draws(i)).Some?
    ensures RenderAspect(rd, aspects[i], draws(i)).value in RenderAll(rd, aspects, draws)
  {
    PresentMembers(Attempts(rd, aspects, draws), i);
  }

  /** The positions of the aspects that render, in increasing order. */
  function RenderedIndices(rd: Renderer, aspects: seq<TransitAspect>, draws: nat -> Draws): (idx: seq<nat>)
    ensures forall k | 0 <= k < |idx| :: idx[k] < |aspects|
  {
    PresentIndices(Attempts(rd, aspects, draws))
  }

  /** Whether the aspect at position `i` has a template and so renders. */
  predicate RendersAt(rd: Renderer, aspects: seq<TransitAspect>, draws: nat -> Draws, i: int)
    requires 0 <= i < |aspects|
  {
    RenderAspect(rd, aspects[i], draws(i)).Some?
  }

  /** The listed positions strictly increase, and a position is listed exactly when its aspect renders. */
  lemma RenderedIndicesExact(rd: Renderer, aspects: seq<TransitAspect>, draws: nat -> Draws)
    ensures var idx := RenderedIndices(rd, aspects, draws);
            (forall k, l | 0 <= k < l < |idx| :: idx[k] < idx[l]) &&
            (forall i | 0 <= i < |aspects| :: i in idx <==> RendersAt(rd, aspects, draws, i))
  {
    var a := Attempts(rd, aspects, draws);
    PresentIndicesExact(a);
    forall i | 0 <= i < |aspects| ensures a[i].Some? == RendersAt(rd, aspects, draws, i) {
    }
  }

  /**
   * `render_forecast`'s loop keeps exactly the aspects with a template, in
   * input order: the k-th paragraph is the rendering of the aspect at the
   * k-th listed position (positions listed by `RenderedIndicesExact`).
   */
  lemma RenderAllExact(rd: Renderer, aspects: seq<TransitAspect>, draws: nat -> Draws)
    ensures var r := RenderAll(rd, aspects, draws);
            var idx := RenderedIndices(rd, aspects, draws);
            |r| == |idx| &&
            forall k | 0 <= k < |idx| :: RendersAt(rd, aspects, draws, idx[k]) &&
                                         r[k] == RenderAspect(rd, aspects[idx[k]], draws(idx[k])).value
  {
    var a := Attempts(rd, aspects, draws);
    PresentExact(a);
    var idx := PresentIndices(a);
    forall k | 0 <= k < |idx|
      ensures a[idx[k]] == RenderAspect(rd, aspects[idx[k]], draws(idx[k]))
    {
    }
  }

  const MissingDataWarning: string := "⚠️ Не хватает данных для натальной карты.\nЗаполните: "
  const NoTransitsMessage: string := "Сегодня значимые транзиты не зафиксированы. Сохраняйте спокойный ритм."

  /**
   * `render_forecast`: a forecast that is not ok names its raw missing
   * fields; a forecast whose aspects all lack templates gets the fixed
   * quiet-day sentence; otherwise a dated heading and one paragraph per
   * rendered aspect, separated by blank lines.
   */
  function RenderForecast(rd: Renderer, f: ForecastResult, draws: nat -> Draws): (text: string)
    requires ValidDate(f.targetDate)
    ensures !Forecast.Ok(f) ==> text == MissingDataWarning + Join(", ", f.missingFields) + "."
    ensures Forecast.Ok(f) && RenderAll(rd, f.aspects, draws) == [] ==> text == NoTransitsMessage
  {
    if !Forecast.Ok(f) then MissingDataWarning + Join(", ", f.missingFields) + "."
    else
      var rendered := RenderAll(rd, f.aspects, draws);
      if rendered == [] then NoTransitsMessage
      else Join("\n\n", [Heading(f.targetDate)] + Paragraphs(rendered))
  }

  function Heading(d: Date): string
    requires ValidDate(d)
  {
    "✨ Натальная карта дня на " + Formatters.DisplayDate(d)
  }

  function Paragraphs(rendered: seq<RenderedAspect>): (ps: seq<string>)
    ensures |ps| == |rendered| && forall i | 0 <= i < |rendered| :: ps[i] == ToText(rendered[i])
  {
    seq(|rendered|, i requires 0 <= i < |rendered| => ToText(rendered[i]))
  }

  /** With something rendered, the message starts with the dated heading followed by a blank line. */
  lemma RenderForecastHeading(rd: Renderer, f: ForecastResult, draws: nat -> Draws)
    requires ValidDate(f.targetDate) && Forecast.Ok(f) && RenderAll(rd, f.aspects, draws) != []
    ensures StartsWith(RenderForecast(rd, f, draws), Heading(f.targetDate) + "\n\n")
  {
    var ps := Paragraphs(RenderAll(rd, f.aspects, draws));
    JoinHead("\n\n", Heading(f.targetDate), ps);
  }

  lemma JoinHead(sep: string, head: string, rest: seq<string>)
    requires rest != []
    ensures Join(sep, [head] + rest) == head + sep + Join(sep, rest)
  {
    assert ([head] + rest)[0] == head && ([head] + rest)[1..] == rest;
  }
}
