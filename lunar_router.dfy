/**
 * The lunar planner screen: how long the Moon stays in a sign, which
 * actions are shown as buttons, and how one action's days are grouped.
 */
module LunarRouter {
  import opened Wrappers
  import opened Strings
  import Formatters
  import opened LunarPlanner

  /** `_calculate_sign_span`: the days from `index` on that keep that day's Moon sign, counting it. */
  method SignSpan(window: seq<DayContext>, index: int) returns (count: int)
    requires 0 <= index < |window|
    ensures 1 <= count <= |window| - index
    ensures forall j | index <= j < index + count :: window[j].signIndex == window[index].signIndex
    ensures index + count == |window| || window[index + count].signIndex != window[index].signIndex
  {
    var current := window[index].signIndex;
    count := 1;
    var idx := index + 1;
    while idx < |window|
      invariant index + 1 <= idx <= |window| && count == idx - index
      invariant forall j | index <= j < idx :: window[j].signIndex == current
    {
      if window[idx].signIndex != current {
        break;
      }
      count := count + 1;
      idx := idx + 1;
    }
  }

  /** `_format_sign_duration`: "only today" for a span of at most one day, else the span in days. */
  function SignDuration(span: int): (phrase: string)
    ensures span <= 1 <==> phrase == "только сегодня"
    ensures span > 1 ==> StartsWith(phrase, "в ближайшие ") && Contains(phrase, NatToString(span))
  {
    if span <= 1 then "только сегодня"
    else
      var phrase := "в ближайшие " + NatToString(span) + (" " + Formatters.PluralizeDays(span));
      Framed("в ближайшие ", NatToString(span), " " + Formatters.PluralizeDays(span));
      phrase
  }

  /** The actions shown so far, and whether the limit stopped the scan. */
  datatype FillState = FillState(acc: seq<ActionDef>, done: bool)

  function SlugSet(acc: seq<ActionDef>): set<string>
  {
    set a | a in acc :: a.slug
  }

  lemma SlugSetSnoc(acc: seq<ActionDef>, a: ActionDef)
    ensures SlugSet(acc + [a]) == SlugSet(acc) + {a.slug}
  {
    assert forall b | b in acc + [a] :: b in acc || b == a;
  }

  predicate UniqueSlugs(acc: seq<ActionDef>)
  {
    forall i, j | 0 <= i < j < |acc| :: acc[i].slug != acc[j].slug
  }

  /** One step of either scan: an unseen action is appended, and the scan stops once the limit is reached. */
  function Step(st: FillState, x: ActionDef, limit: int): FillState
  {
    if st.done || x.slug in SlugSet(st.acc) then st
    else FillState(st.acc + [x], |st.acc| + 1 >= limit)
  }

  /** A scan over `xs`, from the state `st`. */
  function Fill(st: FillState, xs: seq<ActionDef>, limit: int): (r: FillState)
    ensures |st.acc| <= |r.acc| && r.acc[..|st.acc|] == st.acc
    ensures forall i | |st.acc| <= i < |r.acc| :: r.acc[i] in xs
    ensures UniqueSlugs(st.acc) ==> UniqueSlugs(r.acc)
    ensures st.done ==> r == st
    ensures r.done ==> st.done || |r.acc| >= limit
    ensures !r.done ==> forall x | x in xs :: x.slug in SlugSet(r.acc)
    ensures !r.done && |r.acc| > |st.acc| ==> |r.acc| < limit
    ensures !st.done ==> |r.acc| <= |st.acc| + 1 || |r.acc| <= limit
    decreases |xs|
  {
    if xs == [] then st
    else
      var p := Fill(st, xs[..|xs| - 1], limit);
      var x := xs[|xs| - 1];
      assert xs == xs[..|xs| - 1] + [x];
      StepFacts(p, x, limit);
      Step(p, x, limit)
  }

  lemma StepFacts(p: FillState, x: ActionDef, limit: int)
    ensures var r := Step(p, x, limit);
      (r == p || (!p.done && r.acc == p.acc + [x] && x.slug !in SlugSet(p.acc) && r.done == (|r.acc| >= limit)))
      && (UniqueSlugs(p.acc) ==> UniqueSlugs(r.acc))
      && SlugSet(p.acc) <= SlugSet(r.acc)
      && (!r.done ==> x.slug in SlugSet(r.acc))
  {
    var r := Step(p, x, limit);
    if !p.done && x.slug !in SlugSet(p.acc) {
      if UniqueSlugs(p.acc) {
        forall i, j | 0 <= i < j < |r.acc| ensures r.acc[i].slug != r.acc[j].slug {
          if j == |p.acc| {
            assert r.acc[i] == p.acc[i] && p.acc[i] in p.acc;
          }
        }
      }
      assert forall a | a in p.acc :: a in r.acc;
      assert x in r.acc;
    }
  }

  lemma {:induction false} FillAppend(st: FillState, xs: seq<ActionDef>, ys: seq<ActionDef>, limit: int)
    ensures Fill(st, xs + ys, limit) == Fill(Fill(st, xs, limit), ys, limit)
    decreases |ys|
  {
    if ys == [] {
      assert xs + ys == xs;
    } else {
      var init := ys[..|ys| - 1];
      assert (xs + ys)[..|xs + ys| - 1] == xs + init;
      assert (xs + ys)[|xs + ys| - 1] == ys[|ys| - 1];
      FillAppend(st, xs, init, limit);
    }
  }

  lemma FillSnoc(st: FillState, xs: seq<ActionDef>, x: ActionDef, limit: int)
    ensures Fill(st, xs + [x], limit) == Step(Fill(st, xs, limit), x, limit)
  {
    assert (xs + [x])[..|xs|] == xs;
  }

  /** One step of a scan loop: a seen action changes nothing, an unseen one is appended. */
  lemma ScanStep(st: FillState, pre: seq<ActionDef>, result: seq<ActionDef>, x: ActionDef, limit: int)
    requires FillState(result, false) == Fill(st, pre, limit)
    ensures x.slug in SlugSet(result) ==> Fill(st, pre + [x], limit) == FillState(result, false)
    ensures x.slug !in SlugSet(result) ==> Fill(st, pre + [x], limit) == FillState(result + [x], |result| + 1 >= limit)
    ensures SlugSet(result + [x]) == SlugSet(result) + {x.slug}
  {
    FillSnoc(st, pre, x, limit);
    SlugSetSnoc(result, x);
  }

  /** A scan that has stopped stays stopped over whatever follows. */
  lemma FillStopped(st: FillState, pre: seq<ActionDef>, rest: seq<ActionDef>, result: seq<ActionDef>, limit: int)
    requires Fill(st, pre, limit) == FillState(result, true)
    ensures Fill(st, pre + rest, limit) == FillState(result, true)
  {
    FillAppend(st, pre, rest, limit);
  }

  /** `ScanStep` for a loop over the prefixes of `xs`. */
  lemma PrefixStep(st: FillState, xs: seq<ActionDef>, j: int, result: seq<ActionDef>, limit: int)
    requires 0 <= j < |xs| && FillState(result, false) == Fill(st, xs[..j], limit)
    ensures xs[j].slug in SlugSet(result) ==> Fill(st, xs[..j + 1], limit) == FillState(result, false)
    ensures xs[j].slug !in SlugSet(result) ==> Fill(st, xs[..j + 1], limit) == FillState(result + [xs[j]], |result| + 1 >= limit)
    ensures SlugSet(result + [xs[j]]) == SlugSet(result) + {xs[j].slug}
  {
    assert xs[..j + 1] == xs[..j] + [xs[j]];
    ScanStep(st, xs[..j], result, xs[j], limit);
  }

  /** `FillStopped` for a loop over the prefixes of `xs`. */
  lemma PrefixStopped(st: FillState, xs: seq<ActionDef>, j: int, result: seq<ActionDef>, limit: int)
    requires 0 <= j <= |xs| && Fill(st, xs[..j], limit) == FillState(result, true)
    ensures Fill(st, xs, limit) == FillState(result, true)
  {
    assert xs == xs[..j] + xs[j..];
    FillStopped(st, xs[..j], xs[j..], result, limit);
  }

  /** The actions of a day's suggestions, in order. */
  function Acts(s: seq<Suggestion>): (r: seq<ActionDef>)
    ensures |r| == |s| && forall i | 0 <= i < |s| :: r[i] == s[i].action
  {
    seq(|s|, i requires 0 <= i < |s| => s[i].action)
  }

  /** How many suggestions a day contributes: six for premium users, four otherwise. */
  function PerDayLimit(isPremium: bool): int
  {
    if isPremium then 6 else 4
  }

  function DaySuggestions(ctx: DayContext, actions: seq<ActionDef>, isPremium: bool, neutralScore: int): seq<Suggestion>
  {
    SelectedActions(actions, PhaseKey(ctx.phase), isPremium, PerDayLimit(isPremium), neutralScore)
  }

  /** The actions suggested for one day. */
  function DayActions(actions: seq<ActionDef>, isPremium: bool, neutralScore: int): DayContext -> seq<ActionDef>
  {
    ctx => Acts(DaySuggestions(ctx, actions, isPremium, neutralScore))
  }

  /** `f` applied to every day of the window, the results joined in window order. */
  function ConcatMap(window: seq<DayContext>, f: DayContext -> seq<ActionDef>): seq<ActionDef>
    decreases |window|
  {
    if window == [] then [] else ConcatMap(window[..|window| - 1], f) + f(window[|window| - 1])
  }

  lemma {:induction false} ConcatMapAppend(w1: seq<DayContext>, w2: seq<DayContext>, f: DayContext -> seq<ActionDef>)
    ensures ConcatMap(w1 + w2, f) == ConcatMap(w1, f) + ConcatMap(w2, f)
    decreases |w2|
  {
    if w2 == [] {
      assert w1 + w2 == w1;
    } else {
      var w := w1 + w2;
      assert w[..|w| - 1] == w1 + w2[..|w2| - 1];
      assert w[|w| - 1] == w2[|w2| - 1];
      ConcatMapAppend(w1, w2[..|w2| - 1], f);
    }
  }

  lemma {:induction false} ConcatMapMember(window: seq<DayContext>, f: DayContext -> seq<ActionDef>, a: ActionDef)
    requires a in ConcatMap(window, f)
    ensures exists ctx | ctx in window :: a in f(ctx)
    decreases |window|
  {
    var last := window[|window| - 1];
    if a !in f(last) {
      ConcatMapMember(window[..|window| - 1], f, a);
      var ctx :| ctx in window[..|window| - 1] && a in f(ctx);
      assert ctx in window;
    }
  }

  /** The suggested actions of every day of the window, day by day. */
  function Suggested(window: seq<DayContext>, actions: seq<ActionDef>, isPremium: bool, neutralScore: int)
    : seq<ActionDef>
  {
    ConcatMap(window, DayActions(actions, isPremium, neutralScore))
  }

  /** Every suggested action is in the catalog and open to the user. */
  lemma SuggestedEligible(
    window: seq<DayContext>, actions: seq<ActionDef>, isPremium: bool, neutralScore: int, a: ActionDef)
    requires a in Suggested(window, actions, isPremium, neutralScore)
    ensures a in actions && (isPremium || !a.premiumOnly)
  {
    var f := DayActions(actions, isPremium, neutralScore);
    ConcatMapMember(window, f, a);
    var ctx :| ctx in window && a in f(ctx);
    var day := DaySuggestions(ctx, actions, isPremium, neutralScore);
    var i :| 0 <= i < |Acts(day)| && Acts(day)[i] == a;
    assert day[i] in day;
    SelectedEligible(actions, PhaseKey(ctx.phase), isPremium, PerDayLimit(isPremium), neutralScore, day[i]);
  }

  /** The catalog without the actions the user cannot open, in catalog order. */
  function Open(actions: seq<ActionDef>, isPremium: bool): seq<ActionDef>
    decreases |actions|
  {
    if actions == [] then []
    else
      var a := actions[|actions| - 1];
      if a.premiumOnly && !isPremium then Open(actions[..|actions| - 1], isPremium)
      else Open(actions[..|actions| - 1], isPremium) + [a]
  }

  /** The open catalog holds exactly the catalog actions the user may open. */
  lemma {:induction false} OpenMembers(actions: seq<ActionDef>, isPremium: bool, a: ActionDef)
    ensures a in Open(actions, isPremium) <==> a in actions && (isPremium || !a.premiumOnly)
    decreases |actions|
  {
    if actions != [] {
      var init := actions[..|actions| - 1];
      assert actions == init + [actions[|actions| - 1]];
      OpenMembers(init, isPremium, a);
    }
  }

  /** The scan over the days' suggestions, from an empty list. */
  function FirstPass(
    window: seq<DayContext>, actions: seq<ActionDef>, isPremium: bool, limit: int, neutralScore: int): FillState
  {
    Fill(FillState([], false), Suggested(window, actions, isPremium, neutralScore), limit)
  }

  /**
   * `_collect_display_actions`: the suggested actions of the window's days
   * without repeats, then the rest of the open catalog, stopping as soon
   * as `limit` actions are listed.
   */
  function DisplayActions(
    window: seq<DayContext>, actions: seq<ActionDef>, isPremium: bool, limit: int, neutralScore: int)
    : seq<ActionDef>
  {
    var first := FirstPass(window, actions, isPremium, limit, neutralScore);
    if first.done then first.acc else Fill(first, Open(actions, isPremium), limit).acc
  }

  /** No slug is listed twice. */
  lemma DisplayUniqueSlugs(window: seq<DayContext>, actions: seq<ActionDef>, isPremium: bool, limit: int, neutralScore: int)
    ensures UniqueSlugs(DisplayActions(window, actions, isPremium, limit, neutralScore))
  {
    var first := FirstPass(window, actions, isPremium, limit, neutralScore);
    if !first.done {
      var r := Fill(first, Open(actions, isPremium), limit);
    }
  }

  /** At most `limit` actions; a limit below one still lets the first action through. */
  lemma DisplayBound(window: seq<DayContext>, actions: seq<ActionDef>, isPremium: bool, limit: int, neutralScore: int)
    ensures limit >= 1 ==> |DisplayActions(window, actions, isPremium, limit, neutralScore)| <= limit
    ensures limit < 1 ==> |DisplayActions(window, actions, isPremium, limit, neutralScore)| <= 1
  {
    var first := FirstPass(window, actions, isPremium, limit, neutralScore);
    if !first.done {
      var r := Fill(first, Open(actions, isPremium), limit);
      if |first.acc| > 0 {
        assert |first.acc| < limit;
      }
    }
  }

  /**
   * The list starts with the first scan's picks, all suggested for some day;
   * everything after them comes from the open catalog.
   */
  lemma DisplaySuggestionsFirst(
    window: seq<DayContext>, actions: seq<ActionDef>, isPremium: bool, limit: int, neutralScore: int)
    ensures var r := DisplayActions(window, actions, isPremium, limit, neutralScore);
            var first := FirstPass(window, actions, isPremium, limit, neutralScore).acc;
            |first| <= |r| && r[..|first|] == first
            && (forall a | a in first :: a in Suggested(window, actions, isPremium, neutralScore))
            && (forall i | |first| <= i < |r| :: r[i] in Open(actions, isPremium))
  {
    var xs := Suggested(window, actions, isPremium, neutralScore);
    var first := Fill(FillState([], false), xs, limit);
    assert FirstPass(window, actions, isPremium, limit, neutralScore) == first;
    TwoPasses(first, xs, Open(actions, isPremium), limit);
  }

  /** A scan from nothing over `xs`, continued over `ys` unless it stopped: its picks come from `xs`, then from `ys`. */
  lemma TwoPasses(first: FillState, xs: seq<ActionDef>, ys: seq<ActionDef>, limit: int)
    requires first == Fill(FillState([], false), xs, limit)
    ensures var r := if first.done then first.acc else Fill(first, ys, limit).acc;
            |first.acc| <= |r| && r[..|first.acc|] == first.acc
            && (forall a | a in first.acc :: a in xs)
            && (forall i | |first.acc| <= i < |r| :: r[i] in ys)
  {
    assert first.acc == first.acc[0..];
    if !first.done {
      var r := Fill(first, ys, limit);
    }
  }

  /** Every listed action is open to the user. */
  lemma DisplayEligible(
    window: seq<DayContext>, actions: seq<ActionDef>, isPremium: bool, limit: int, neutralScore: int, a: ActionDef)
    requires a in DisplayActions(window, actions, isPremium, limit, neutralScore)
    ensures a in actions && (isPremium || !a.premiumOnly)
  {
    var r := DisplayActions(window, actions, isPremium, limit, neutralScore);
    var first := FirstPass(window, actions, isPremium, limit, neutralScore).acc;
    DisplaySuggestionsFirst(window, actions, isPremium, limit, neutralScore);
    var i :| 0 <= i < |r| && r[i] == a;
    if i < |first| {
      assert first[i] in first;
      SuggestedEligible(window, actions, isPremium, neutralScore, a);
    } else {
      OpenMembers(actions, isPremium, a);
    }
  }

  /** A list shorter than the limit names every open action of the catalog. */
  lemma DisplayComplete(
    window: seq<DayContext>, actions: seq<ActionDef>, isPremium: bool, limit: int, neutralScore: int, a: ActionDef)
    requires |DisplayActions(window, actions, isPremium, limit, neutralScore)| < limit
    requires a in actions && (isPremium || !a.premiumOnly)
    ensures a.slug in SlugSet(DisplayActions(window, actions, isPremium, limit, neutralScore))
  {
    var first := FirstPass(window, actions, isPremium, limit, neutralScore);
    assert !first.done;
    OpenMembers(actions, isPremium, a);
  }

  /**
   * The inner loop of `_collect_display_actions` over one day's
   * suggestions: unseen actions are appended until the limit is reached.
   */
  method ScanDay(result0: seq<ActionDef>, seen0: set<string>, suggestions: seq<Suggestion>, limit: int)
    returns (result: seq<ActionDef>, seen: set<string>, done: bool)
    requires seen0 == SlugSet(result0)
    ensures seen == SlugSet(result)
    ensures FillState(result, done) == Fill(FillState(result0, false), Acts(suggestions), limit)
  {
    ghost var st := FillState(result0, false);
    ghost var day := Acts(suggestions);
    result, seen, done := result0, seen0, false;
    var j := 0;
    while j < |suggestions|
      invariant 0 <= j <= |suggestions|
      invariant seen == SlugSet(result)
      invariant FillState(result, false) == Fill(st, day[..j], limit)
    {
      var action := suggestions[j].action;
      PrefixStep(st, day, j, result, limit);
      if action.slug in seen {
        j := j + 1;
        continue;
      }
      result := result + [action];
      seen := seen + {action.slug};
      if |result| >= limit {
        done := true;
        PrefixStopped(st, day, j + 1, result, limit);
        return;
      }
      j := j + 1;
    }
    assert day[..j] == day;
  }

  /** The catalog loop of `_collect_display_actions`: open, unseen actions until the limit is reached. */
  method ScanCatalog(result0: seq<ActionDef>, seen0: set<string>, actions: seq<ActionDef>, isPremium: bool, limit: int)
    returns (result: seq<ActionDef>)
    requires seen0 == SlugSet(result0)
    ensures result == Fill(FillState(result0, false), Open(actions, isPremium), limit).acc
  {
    ghost var st := FillState(result0, false);
    ghost var open: seq<ActionDef> := [];
    result := result0;
    var seen := seen0;
    var k := 0;
    while k < |actions|
      invariant 0 <= k <= |actions|
      invariant seen == SlugSet(result)
      invariant open == Open(actions[..k], isPremium)
      invariant FillState(result, false) == Fill(st, open, limit)
    {
      var action := actions[k];
      assert actions[..k + 1][..k] == actions[..k];
      if action.premiumOnly && !isPremium {
        k := k + 1;
        continue;
      }
      ScanStep(st, open, result, action, limit);
      open := open + [action];
      if action.slug in seen {
        k := k + 1;
        continue;
      }
      result := result + [action];
      seen := seen + {action.slug};
      if |result| >= limit {
        OpenSplit(actions, k + 1, isPremium);
        FillStopped(st, open, Open(actions[k + 1..], isPremium), result, limit);
        return;
      }
      k := k + 1;
    }
    assert actions[..k] == actions;
  }

  /** `_collect_display_actions` as the source runs it: two scans with early exits. */
  method CollectDisplayActions(
    window: seq<DayContext>, actions: seq<ActionDef>, isPremium: bool, limit: int, neutralScore: int)
    returns (result: seq<ActionDef>)
    ensures result == DisplayActions(window, actions, isPremium, limit, neutralScore)
  {
    ghost var start := FillState([], false);
    ghost var f := DayActions(actions, isPremium, neutralScore);
    result := [];
    var seen: set<string> := {};
    var i := 0;
    while i < |window|
      invariant 0 <= i <= |window|
      invariant seen == SlugSet(result)
      invariant FillState(result, false) == Fill(start, ConcatMap(window[..i], f), limit)
    {
      var suggestions := SelectActions(actions, window[i].phase, isPremium, PerDayLimit(isPremium), neutralScore);
      ghost var before := ConcatMap(window[..i], f);
      ConcatMapStep(window, f, i);
      assert f(window[i]) == Acts(suggestions);
      FillAppend(start, before, Acts(suggestions), limit);
      var done;
      result, seen, done := ScanDay(result, seen, suggestions, limit);
      if done {
        ConcatMapSplit(window, f, i + 1);
        FillAppend(start, ConcatMap(window[..i + 1], f), ConcatMap(window[i + 1..], f), limit);
        return;
      }
      i := i + 1;
    }
    assert window[..i] == window;
    result := ScanCatalog(result, seen, actions, isPremium, limit);
  }

  lemma ConcatMapSplit(window: seq<DayContext>, f: DayContext -> seq<ActionDef>, n: int)
    requires 0 <= n <= |window|
    ensures ConcatMap(window, f) == ConcatMap(window[..n], f) + ConcatMap(window[n..], f)
  {
    assert window == window[..n] + window[n..];
    ConcatMapAppend(window[..n], window[n..], f);
  }

  lemma ConcatMapStep(window: seq<DayContext>, f: DayContext -> seq<ActionDef>, i: int)
    requires 0 <= i < |window|
    ensures ConcatMap(window[..i + 1], f) == ConcatMap(window[..i], f) + f(window[i])
  {
    assert window[..i + 1][..i] == window[..i];
    assert window[..i + 1][i] == window[i];
  }

  lemma OpenSplit(actions: seq<ActionDef>, n: int, isPremium: bool)
    requires 0 <= n <= |actions|
    ensures Open(actions, isPremium) == Open(actions[..n], isPremium) + Open(actions[n..], isPremium)
  {
    assert actions == actions[..n] + actions[n..];
    OpenAppend(actions[..n], actions[n..], isPremium);
  }

  /** `Open` over two catalogs run one after the other. */
  lemma {:induction false} OpenAppend(a1: seq<ActionDef>, a2: seq<ActionDef>, isPremium: bool)
    ensures Open(a1 + a2, isPremium) == Open(a1, isPremium) + Open(a2, isPremium)
    decreases |a2|
  {
    if a2 == [] {
      assert a1 + a2 == a1;
    } else {
      var c := a1 + a2;
      assert c[..|c| - 1] == a1 + a2[..|a2| - 1];
      assert c[|c| - 1] == a2[|a2| - 1];
      OpenAppend(a1, a2[..|a2| - 1], isPremium);
    }
  }

  /** Where a day goes in an action's details: best for a score of 3 or more, good for 2, avoid for 0. */
  datatype Group = Best | Good | Avoid

  function GroupOf(score: int): (g: Option<Group>)
    ensures g == Some(Best) <==> score >= 3
    ensures g == Some(Good) <==> score == 2
    ensures g == Some(Avoid) <==> score == 0
    ensures g.None? <==> score == 1 || score < 0
  {
    if score >= 3 then Some(Best) else if score == 2 then Some(Good) else if score == 0 then Some(Avoid) else None
  }

  /** The window's days that land in group `g` for the action, with their advice, in window order. */
  function DaysIn(action: ActionDef, window: seq<DayContext>, g: Group): (r: seq<(DayContext, PhaseAdvice)>)
    ensures |r| <= |window|
    ensures forall e | e in r ::
              e.0 in window && PhaseKey(e.0.phase) in action.phaseAdvice
              && e.1 == action.phaseAdvice[PhaseKey(e.0.phase)] && GroupOf(e.1.score) == Some(g)
    decreases |window|
  {
    if window == [] then []
    else
      var ctx := window[|window| - 1];
      var rest := DaysIn(action, window[..|window| - 1], g);
      assert forall c | c in window[..|window| - 1] :: c in window;
      var key := PhaseKey(ctx.phase);
      if key in action.phaseAdvice && GroupOf(action.phaseAdvice[key].score) == Some(g) then
        rest + [(ctx, action.phaseAdvice[key])]
      else rest
  }

  /** Every day whose phase has advice in a group appears in that group. */
  lemma {:induction false} DaysInComplete(action: ActionDef, window: seq<DayContext>, g: Group, ctx: DayContext)
    requires ctx in window && PhaseKey(ctx.phase) in action.phaseAdvice
    requires GroupOf(action.phaseAdvice[PhaseKey(ctx.phase)].score) == Some(g)
    ensures (ctx, action.phaseAdvice[PhaseKey(ctx.phase)]) in DaysIn(action, window, g)
    decreases |window|
  {
    if ctx != window[|window| - 1] {
      assert ctx in window[..|window| - 1] by {
        var i :| 0 <= i < |window| && window[i] == ctx;
        assert window[..|window| - 1][i] == ctx;
      }
      DaysInComplete(action, window[..|window| - 1], g, ctx);
    }
  }

  /** A line of an action's details text. */
  datatype DetailLine =
    | Header
    | BestTitle | GoodTitle | AvoidTitle
    | DayLine(ctx: DayContext, advice: PhaseAdvice, withCaution: bool)
    | EmptyNotice

  function DayLines(days: seq<(DayContext, PhaseAdvice)>, withCaution: bool): (r: seq<DetailLine>)
    ensures |r| == |days|
    ensures forall i | 0 <= i < |days| :: r[i] == DayLine(days[i].0, days[i].1, withCaution)
  {
    seq(|days|, i requires 0 <= i < |days| => DayLine(days[i].0, days[i].1, withCaution))
  }

  /** A titled section listing a group's days, or nothing for an empty group. */
  function Section(title: DetailLine, days: seq<(DayContext, PhaseAdvice)>, withCaution: bool): (r: seq<DetailLine>)
    ensures r == [] <==> days == []
    ensures r != [] ==> r[0] == title && |r| == 1 + |days|
    ensures forall i | 1 <= i < |r| :: r[i].DayLine?
  {
    if days == [] then [] else [title] + DayLines(days, withCaution)
  }

  /** The lines of `_build_action_details`: the header, a section per non-empty group, or the empty notice. */
  function DetailLines(best: seq<(DayContext, PhaseAdvice)>, good: seq<(DayContext, PhaseAdvice)>,
                       avoid: seq<(DayContext, PhaseAdvice)>): seq<DetailLine>
  {
    var lines := [Header] + Section(BestTitle, best, false) + Section(GoodTitle, good, false) + Section(AvoidTitle, avoid, true);
    if |lines| == 1 then lines + [EmptyNotice] else lines
  }

  /** The empty notice appears exactly when no day lands in any group, and then it is the only line after the header. */
  lemma DetailLinesEmpty(best: seq<(DayContext, PhaseAdvice)>, good: seq<(DayContext, PhaseAdvice)>,
                         avoid: seq<(DayContext, PhaseAdvice)>)
    ensures DetailLines(best, good, avoid)[0] == Header
    ensures EmptyNotice in DetailLines(best, good, avoid) <==> best == [] && good == [] && avoid == []
    ensures best == [] && good == [] && avoid == [] ==> DetailLines(best, good, avoid) == [Header, EmptyNotice]
    ensures |DetailLines(best, good, avoid)| == if best == [] && good == [] && avoid == [] then 2
              else 1 + |Section(BestTitle, best, false)| + |Section(GoodTitle, good, false)| + |Section(AvoidTitle, avoid, true)|
  {
    var b := Section(BestTitle, best, false);
    var g := Section(GoodTitle, good, false);
    var v := Section(AvoidTitle, avoid, true);
    var lines := [Header] + b + g + v;
    assert forall i | 1 <= i < |lines| :: lines[i] != EmptyNotice by {
      forall i | 1 <= i < |lines| ensures lines[i] != EmptyNotice {
        if i < 1 + |b| {
          assert lines[i] == b[i - 1];
        } else if i < 1 + |b| + |g| {
          assert lines[i] == g[i - 1 - |b|];
        } else {
          assert lines[i] == v[i - 1 - |b| - |g|];
        }
      }
    }
  }

  /** The three groups built in one pass over the window. */
  method ActionDetailGroups(action: ActionDef, window: seq<DayContext>)
    returns (best: seq<(DayContext, PhaseAdvice)>, good: seq<(DayContext, PhaseAdvice)>, avoid: seq<(DayContext, PhaseAdvice)>)
    ensures best == DaysIn(action, window, Best)
    ensures good == DaysIn(action, window, Good)
    ensures avoid == DaysIn(action, window, Avoid)
  {
    best, good, avoid := [], [], [];
    for i := 0 to |window|
      invariant best == DaysIn(action, window[..i], Best)
      invariant good == DaysIn(action, window[..i], Good)
      invariant avoid == DaysIn(action, window[..i], Avoid)
    {
      var ctx := window[i];
      assert window[..i + 1][..i] == window[..i];
      var key := PhaseKey(ctx.phase);
      if key !in action.phaseAdvice {
        continue;
      }
      var advice := action.phaseAdvice[key];
      if advice.score >= 3 {
        best := best + [(ctx, advice)];
      } else if advice.score == 2 {
        good := good + [(ctx, advice)];
      } else if advice.score == 0 {
        avoid := avoid + [(ctx, advice)];
      }
    }
    assert window[..|window|] == window;
  }

  /** Days scoring 1, and days whose phase has no advice, are in no group. */
  lemma UngroupedDays(action: ActionDef, window: seq<DayContext>, ctx: DayContext, g: Group)
    requires PhaseKey(ctx.phase) !in action.phaseAdvice || action.phaseAdvice[PhaseKey(ctx.phase)].score == 1
    ensures forall e | e in DaysIn(action, window, g) :: e.0 != ctx
  {
  }
}
