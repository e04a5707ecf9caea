/**
 * The compatibility check: two birth dates are compared by the distance
 * between their life-path numbers, and the second date is only scored
 * when it is valid and the user still has a check left today.
 */
module Compatibility {
  import opened Wrappers
  import opened Strings
  import opened Numerology
  import opened SharedCalculations

  /** The score out of 9 for two life-path numbers `diff` apart. */
  function ScoreOf(diff: nat): (score: nat)
    ensures score in {3, 5, 7, 9}
    ensures score == 9 <==> diff == 0
  {
    if diff == 0 then 9
    else if diff <= 2 then 7
    else if diff <= 4 then 5
    else 3
  }

  function DescriptionOf(diff: nat): string
  {
    if diff == 0 then "Идеальная совместимость! Вы очень похожи по характеру."
    else if diff <= 2 then "Хорошая совместимость. Вы дополняете друг друга."
    else if diff <= 4 then "Средняя совместимость. Требуется понимание и компромиссы."
    else "Низкая совместимость. Потребуется много усилий."
  }

  function Distance(a: int, b: int): nat
  {
    if a >= b then a - b else b - a
  }

  /** The score and description of two life-path numbers. */
  function Compare(first: int, second: int): (r: (nat, string))
    ensures r.0 == ScoreOf(Distance(first, second))
  {
    var diff := Distance(first, second);
    (ScoreOf(diff), DescriptionOf(diff))
  }

  /** A larger distance never scores higher. */
  lemma ScoreNonIncreasing(d1: nat, d2: nat)
    requires d1 <= d2
    ensures ScoreOf(d2) <= ScoreOf(d1)
  {
  }

  /** The two dates can be given in either order. */
  lemma CompareSymmetric(a: int, b: int)
    ensures Compare(a, b) == Compare(b, a)
  {
  }

  /** The score bands: 1–2 apart scores 7, 3–4 scores 5, 5 or more scores 3. */
  lemma ScoreBands(diff: nat)
    ensures 1 <= diff <= 2 ==> ScoreOf(diff) == 7
    ensures 3 <= diff <= 4 ==> ScoreOf(diff) == 5
    ensures diff >= 5 ==> ScoreOf(diff) == 3
  {
  }

  /** What the second-date step does. */
  datatype Outcome =
    | InvalidDate                          // asks again; the conversation stays where it is
    | LimitExceeded                        // refuses and clears the conversation
    | Scored(first: int, second: int, score: nat, description: string)
                                           // answers, counts the check and clears the conversation

  /** Whether the step ends the conversation. */
  predicate ClearsState(o: Outcome)
  {
    !o.InvalidDate?
  }

  /** `calculate_life_path_number` of the stored first date; a missing one reads as 0. */
  function StoredLifePath(firstDate: Option<string>, masters: set<int>): int
  {
    if firstDate.Some? then LifePathNumber(firstDate.value, masters) else 0
  }

  /**
   * `handle_second_date`: `text` is the message, `firstDate` the date the
   * conversation kept, and `mayCheck` the answer of
   * `can_check_compatibility` for the user.
   */
  function SecondDate(text: string, firstDate: Option<string>, mayCheck: bool, masters: set<int>): (o: Outcome)
    ensures !ValidateDate(Strip(text)) ==> o == InvalidDate
    ensures ValidateDate(Strip(text)) && !mayCheck ==> o == LimitExceeded
    ensures ValidateDate(Strip(text)) && mayCheck ==> o.Scored?
    ensures o.Scored? ==> ValidateDate(Strip(text)) && mayCheck &&
                          o.first == StoredLifePath(firstDate, masters) &&
                          o.second == LifePathNumber(Strip(text), masters) &&
                          o.score == ScoreOf(Distance(o.first, o.second)) &&
                          o.description == DescriptionOf(Distance(o.first, o.second))
  {
    var secondDate := Strip(text);
    if !ValidateDate(secondDate) then InvalidDate
    else if !mayCheck then LimitExceeded
    else
      var first := StoredLifePath(firstDate, masters);
      var second := LifePathNumber(secondDate, masters);
      var (score, description) := Compare(first, second);
      Scored(first, second, score, description)
  }

  /** A valid second date within the limit, compared with itself, is a perfect match. */
  lemma SameDatePerfect(date: string, masters: set<int>)
    requires ValidateDate(Strip(date))
    ensures SecondDate(date, Some(Strip(date)), true, masters).score == 9
  {
  }

  /** The only step that keeps the conversation going is an invalid date. */
  lemma OnlyInvalidDateKeepsState(text: string, firstDate: Option<string>, mayCheck: bool, masters: set<int>)
    ensures !ClearsState(SecondDate(text, firstDate, mayCheck, masters)) <==> !ValidateDate(Strip(text))
  {
  }
}
