/**
 * The tarot service: which spreads a user may pick, the deck, drawing
 * cards, guessing the question's context, looking up a card's
 * interpretation, reading a spread and answering a yes/no question.
 *
 * The JSON files the service loads once are a `TarotData` value passed in;
 * a JSON object is a sequence of (key, value) pairs in file order, read with
 * `Dicts.Lookup`. Every `random` draw is an index or flag supplied by the
 * caller.
 */
module Tarot {
  import opened Wrappers
  import opened Strings
  import opened Slices
  import opened Dicts

  /** An interpretation value in the data: a string, a list of strings, or anything else. */
  datatype Interp = Text(text: string) | Choices(items: seq<string>) | Other

  /**
   * The value a card stores under "upright" or "reversed": an object keyed
   * by context (major arcana), or a bare value (minor arcana).
   */
  datatype Section = ByContext(contexts: seq<(string, Interp)>) | Bare(entry: Interp)

  /** A card's object: optional "name" and "emoji", and its directions. */
  datatype CardData = CardData(name: Option<string>, emoji: Option<string>, directions: seq<(string, Section)>)

  /** An entry of a spread's "positions". */
  datatype Position = Position(name: Option<string>, meaning: Option<string>)

  /**
   * A spread: "free" and "premium_only" (false when absent), "positions",
   * and the "yes_cards", "no_cards" and "maybe_cards" lists of its
   * "interpretations" (empty when absent).
   */
  datatype Spread = Spread(free: bool, premiumOnly: bool, positions: seq<Position>,
                           yesCards: seq<string>, noCards: seq<string>, maybeCards: seq<string>)

  /** The loaded data: major arcana, minor arcana by suit, and spreads. */
  datatype TarotData = TarotData(major: seq<(string, CardData)>,
                                 minor: map<string, seq<(string, CardData)>>,
                                 spreads: seq<(string, Spread)>)

  datatype CardType = Major | Minor

  /** A `(key, card_data, card_type, suit)` tuple of the deck. */
  datatype DeckCard = DeckCard(key: string, data: CardData, cardType: CardType, suit: Option<string>)

  /** A drawn card. */
  datatype TarotCard = TarotCard(key: string, name: string, emoji: string, cardType: CardType,
                                 suit: Option<string>, reversed: bool)

  predicate Distinct<T(==)>(s: seq<T>)
  {
    forall i, j | 0 <= i < j < |s| :: s[i] != s[j]
  }

  // ---------------------------------------------------------------------
  // Spreads

  /** Whether a spread is offered: free, or premium-only for a premium user. */
  predicate Offered(s: Spread, isPremium: bool)
  {
    s.free || (isPremium && s.premiumOnly)
  }

  /** `get_available_spreads(is_premium)`: the offered spreads, in order. */
  function AvailableSpreads(spreads: seq<(string, Spread)>, isPremium: bool): (r: seq<(string, Spread)>)
    ensures forall e :: e in r <==> e in spreads && Offered(e.1, isPremium)
    ensures |r| <= |spreads|
  {
    if spreads == [] then []
    else (if Offered(spreads[0].1, isPremium) then [spreads[0]] else []) + AvailableSpreads(spreads[1..], isPremium)
  }

  /** Each spread in place when offered, None where it is not. */
  function OfferedAt(spreads: seq<(string, Spread)>, isPremium: bool): (opts: seq<Option<(string, Spread)>>)
    ensures |opts| == |spreads|
    ensures forall i | 0 <= i < |spreads| :: opts[i] == if Offered(spreads[i].1, isPremium) then Some(spreads[i]) else None
  {
    seq(|spreads|, i requires 0 <= i < |spreads| => if Offered(spreads[i].1, isPremium) then Some(spreads[i]) else None)
  }

  /** The offered spreads are the present options of `OfferedAt`. */
  lemma {:induction false} AvailableIsPresent(spreads: seq<(string, Spread)>, isPremium: bool)
    ensures AvailableSpreads(spreads, isPremium) == Present(OfferedAt(spreads, isPremium))
    decreases |spreads|
  {
    if spreads == [] {
      assert OfferedAt(spreads, isPremium) == [];
    } else {
      var o := if Offered(spreads[0].1, isPremium) then Some(spreads[0]) else None;
      AvailableIsPresent(spreads[1..], isPremium);
      assert OfferedAt(spreads, isPremium) == [o] + OfferedAt(spreads[1..], isPremium);
      PresentCons(o, OfferedAt(spreads[1..], isPremium));
    }
  }

  /**
   * The dictionary comprehension keeps the spreads' order: the listed
   * positions strictly increase, a position is listed exactly when its
   * spread is offered, and the k-th result is the spread at the k-th
   * listed position.
   */
  lemma AvailableInOrder(spreads: seq<(string, Spread)>, isPremium: bool)
    ensures var r := AvailableSpreads(spreads, isPremium);
            var idx := PresentIndices(OfferedAt(spreads, isPremium));
            |r| == |idx| &&
            (forall k, l | 0 <= k < l < |idx| :: idx[k] < idx[l]) &&
            (forall i | 0 <= i < |spreads| :: i in idx <==> Offered(spreads[i].1, isPremium)) &&
            (forall k | 0 <= k < |idx| :: idx[k] < |spreads| && r[k] == spreads[idx[k]])
  {
    AvailableIsPresent(spreads, isPremium);
    PresentIndicesExact(OfferedAt(spreads, isPremium));
    PresentExact(OfferedAt(spreads, isPremium));
  }

  /** Read as a dictionary, the result holds exactly the offered spreads under their own keys. */
  lemma {:induction false} AvailableLookup(spreads: seq<(string, Spread)>, isPremium: bool, key: string)
    requires DistinctKeys(spreads)
    ensures Lookup(AvailableSpreads(spreads, isPremium), key) ==
            (match Lookup(spreads, key)
             case Some(s) => if Offered(s, isPremium) then Some(s) else None
             case None => None)
  {
    if spreads != [] {
      var tail := spreads[1..];
      assert DistinctKeys(tail) by {
        forall i, j | 0 <= i < j < |tail| ensures tail[i].0 != tail[j].0 {
          assert tail[i] == spreads[i + 1] && tail[j] == spreads[j + 1];
        }
      }
      AvailableLookup(tail, isPremium, key);
    }
  }

  /** A premium user is offered every spread a free user is. */
  lemma PremiumSeesMore(spreads: seq<(string, Spread)>, e: (string, Spread))
    requires e in AvailableSpreads(spreads, false)
    ensures e in AvailableSpreads(spreads, true)
  {
  }

  // ---------------------------------------------------------------------
  // The deck

  /** The suits of the minor arcana, in deck order. */
  const Suits: seq<string> := ["wands", "cups", "swords", "pentacles"]

  function Majors(items: seq<(string, CardData)>): seq<DeckCard>
  {
    seq(|items|, i requires 0 <= i < |items| => DeckCard(items[i].0, items[i].1, Major, None))
  }

  function SuitCards(suit: string, items: seq<(string, CardData)>): seq<DeckCard>
  {
    seq(|items|, i requires 0 <= i < |items| => DeckCard(items[i].0, items[i].1, Minor, Some(suit)))
  }

  /** `data["minor"].get(suit, {})`. */
  function SuitOf(minor: map<string, seq<(string, CardData)>>, suit: string): seq<(string, CardData)>
  {
    if suit in minor then minor[suit] else []
  }

  /** The minor arcana of the given suits, suit after suit. */
  function MinorCards(minor: map<string, seq<(string, CardData)>>, suits: seq<string>): seq<DeckCard>
  {
    if suits == [] then []
    else MinorCards(minor, suits[..|suits| - 1]) + SuitCards(suits[|suits| - 1], SuitOf(minor, suits[|suits| - 1]))
  }

  /** The deck `get_all_cards(use_only_major)` builds. */
  function Deck(data: TarotData, onlyMajor: bool): seq<DeckCard>
  {
    Majors(data.major) + if onlyMajor then [] else MinorCards(data.minor, Suits)
  }

  /** `get_all_cards(use_only_major)`. */
  method AllCards(data: TarotData, onlyMajor: bool) returns (cards: seq<DeckCard>)
    ensures cards == Deck(data, onlyMajor)
  {
    cards := [];
    for i := 0 to |data.major|
      invariant cards == Majors(data.major[..i])
    {
      cards := cards + [DeckCard(data.major[i].0, data.major[i].1, Major, None)];
    }
    assert data.major[..|data.major|] == data.major;
    if !onlyMajor {
      for s := 0 to |Suits|
        invariant cards == Majors(data.major) + MinorCards(data.minor, Suits[..s])
      {
        MinorCardsStep(data.minor, Suits, s);
        cards := AppendSuit(cards, Suits[s], SuitOf(data.minor, Suits[s]));
      }
      assert Suits[..|Suits|] == Suits;
    }
  }

  /** The inner loop of `get_all_cards`: one suit's cards appended in data order. */
  method AppendSuit(cards: seq<DeckCard>, suit: string, items: seq<(string, CardData)>) returns (r: seq<DeckCard>)
    ensures r == cards + SuitCards(suit, items)
  {
    r := cards;
    for j := 0 to |items|
      invariant r == cards + SuitCards(suit, items[..j])
    {
      r := r + [DeckCard(items[j].0, items[j].1, Minor, Some(suit))];
    }
    assert items[..|items|] == items;
  }

  /** One more suit appends its cards after those of the earlier suits. */
  lemma MinorCardsStep(minor: map<string, seq<(string, CardData)>>, suits: seq<string>, s: int)
    requires 0 <= s < |suits|
    ensures MinorCards(minor, suits[..s + 1]) == MinorCards(minor, suits[..s]) + SuitCards(suits[s], SuitOf(minor, suits[s]))
  {
    assert suits[..s + 1][..s] == suits[..s];
  }

  /** Position of a card's suit in `suits`; `|suits|` when it has none or another. */
  function SuitRank(suits: seq<string>, c: DeckCard): nat
  {
    if c.suit.Some? then IndexOf(suits, c.suit.value) else |suits|
  }

  function IndexOf(xs: seq<string>, x: string): (i: nat)
    ensures i <= |xs|
    ensures i < |xs| ==> xs[i] == x
    ensures forall j | 0 <= j < i :: xs[j] != x
  {
    if xs == [] then 0
    else if xs[0] == x then 0
    else
      var i := 1 + IndexOf(xs[1..], x);
      assert forall j | 1 <= j < i :: xs[j] == xs[1..][j - 1];
      i
  }

  /** Every card is minor and its suit is among the first `k` of `suits`. */
  predicate MinorWithin(m: seq<DeckCard>, suits: seq<string>, k: nat)
  {
    forall i | 0 <= i < |m| :: m[i].cardType == Minor && SuitRank(suits, m[i]) < k
  }

  /** The cards come suit by suit in the order of `suits`. */
  predicate SuitOrdered(m: seq<DeckCard>, suits: seq<string>)
  {
    forall i, j | 0 <= i < j < |m| :: SuitRank(suits, m[i]) <= SuitRank(suits, m[j])
  }

  /**
   * The minor cards of the first `k` suits are minor, carry one of those
   * suits, and come suit by suit in the order of `suits`.
   */
  lemma {:induction false} MinorCardsOrdered(minor: map<string, seq<(string, CardData)>>, suits: seq<string>, k: nat)
    requires k <= |suits| && Distinct(suits)
    ensures MinorWithin(MinorCards(minor, suits[..k]), suits, k)
    ensures SuitOrdered(MinorCards(minor, suits[..k]), suits)
  {
    if k > 0 {
      assert suits[..k][..k - 1] == suits[..k - 1];
      MinorCardsOrdered(minor, suits, k - 1);
      var p := MinorCards(minor, suits[..k - 1]);
      var t := SuitCards(suits[k - 1], SuitOf(minor, suits[k - 1]));
      var m := MinorCards(minor, suits[..k]);
      assert m == p + t;
      assert IndexOf(suits, suits[k - 1]) == k - 1;
      assert forall i | 0 <= i < |t| :: t[i].cardType == Minor && SuitRank(suits, t[i]) == k - 1;
      assert MinorWithin(m, suits, k) by {
        forall i | 0 <= i < |m|
          ensures m[i].cardType == Minor && SuitRank(suits, m[i]) < k
        {
          if i < |p| {
            assert m[i] == p[i];
          } else {
            assert m[i] == t[i - |p|];
          }
        }
      }
      forall i, j | 0 <= i < j < |m|
        ensures SuitRank(suits, m[i]) <= SuitRank(suits, m[j])
      {
        if j < |p| {
          assert m[i] == p[i] && m[j] == p[j];
        } else if i < |p| {
          assert m[i] == p[i] && m[j] == t[j - |p|];
        } else {
          assert m[i] == t[i - |p|] && m[j] == t[j - |p|];
        }
      }
    }
  }

  /**
   * The deck lists the major arcana first, in data order; then, unless only
   * majors are asked for, the minor arcana suit by suit in the order wands,
   * cups, swords, pentacles.
   */
  lemma DeckLayout(data: TarotData, onlyMajor: bool)
    ensures var d := Deck(data, onlyMajor);
            |data.major| <= |d| &&
            (forall i | 0 <= i < |data.major| ::
               d[i].cardType == Major && d[i].key == data.major[i].0 && d[i].data == data.major[i].1) &&
            (forall i | |data.major| <= i < |d| :: d[i].cardType == Minor) &&
            (forall i, j | |data.major| <= i < j < |d| :: SuitRank(Suits, d[i]) <= SuitRank(Suits, d[j]))
    ensures onlyMajor ==> |Deck(data, onlyMajor)| == |data.major|
  {
    DeckMajorsFirst(data, onlyMajor);
    if !onlyMajor {
      DeckMinorsOrdered(data);
    }
  }

  /** The major arcana open the deck in data order; only they are in it when only majors are asked for. */
  lemma DeckMajorsFirst(data: TarotData, onlyMajor: bool)
    ensures var d := Deck(data, onlyMajor);
            |data.major| <= |d| &&
            (forall i | 0 <= i < |data.major| ::
               d[i].cardType == Major && d[i].key == data.major[i].0 && d[i].data == data.major[i].1) &&
            (onlyMajor ==> |d| == |data.major|)
  {
    var d := Deck(data, onlyMajor);
    assert forall i | 0 <= i < |data.major| :: d[i] == Majors(data.major)[i];
  }

  /** After the majors, the full deck holds minor cards only, suit by suit. */
  lemma DeckMinorsOrdered(data: TarotData)
    ensures var d := Deck(data, false);
            (forall i | |data.major| <= i < |d| :: d[i].cardType == Minor) &&
            (forall i, j | |data.major| <= i < j < |d| :: SuitRank(Suits, d[i]) <= SuitRank(Suits, d[j]))
  {
    var n := |data.major|;
    var d := Deck(data, false);
    SuitsDistinct();
    MinorCardsOrdered(data.minor, Suits, 4);
    var m := MinorCards(data.minor, Suits[..4]);
    assert d == Majors(data.major) + m;
    forall i | n <= i < |d| ensures d[i].cardType == Minor {
      assert d[i] == m[i - n];
    }
    forall i, j | n <= i < j < |d| ensures SuitRank(Suits, d[i]) <= SuitRank(Suits, d[j]) {
      assert d[i] == m[i - n] && d[j] == m[j - n];
    }
  }

  /** The four suits are distinct. */
  lemma SuitsDistinct()
    ensures Distinct(Suits) && Suits[..4] == Suits
  {
  }

  /** The keys of every suit's object are distinct, as in any JSON object read into a dict. */
  predicate SuitKeysDistinct(minor: map<string, seq<(string, CardData)>>)
  {
    forall s | s in minor :: DistinctKeys(minor[s])
  }

  lemma {:induction false} MinorCardsDistinct(minor: map<string, seq<(string, CardData)>>, suits: seq<string>, k: nat)
    requires k <= |suits| && Distinct(suits) && SuitKeysDistinct(minor)
    ensures Distinct(MinorCards(minor, suits[..k]))
  {
    if k > 0 {
      assert suits[..k][..k - 1] == suits[..k - 1];
      MinorCardsDistinct(minor, suits, k - 1);
      MinorCardsOrdered(minor, suits, k - 1);
      var p := MinorCards(minor, suits[..k - 1]);
      var items := SuitOf(minor, suits[k - 1]);
      var t := SuitCards(suits[k - 1], items);
      var m := MinorCards(minor, suits[..k]);
      assert m == p + t;
      assert IndexOf(suits, suits[k - 1]) == k - 1;
      assert DistinctKeys(items);
      forall i, j | 0 <= i < j < |m| ensures m[i] != m[j] {
        if j < |p| {
          assert m[i] == p[i] && m[j] == p[j];
        } else if i < |p| {
          assert m[i] == p[i] && m[j] == t[j - |p|];
          assert SuitRank(suits, p[i]) < k - 1;
        } else {
          assert m[i] == t[i - |p|] && m[j] == t[j - |p|];
          assert items[i - |p|].0 != items[j - |p|].0;
        }
      }
    }
  }

  /**
   * With distinct keys in every object, the deck holds no card twice: a
   * major and a minor card differ in type, minor cards of two suits in suit.
   */
  lemma DeckDistinct(data: TarotData, onlyMajor: bool)
    requires DistinctKeys(data.major) && SuitKeysDistinct(data.minor)
    ensures Distinct(Deck(data, onlyMajor))
  {
    var n := |data.major|;
    var d := Deck(data, onlyMajor);
    var a := Majors(data.major);
    var m := if onlyMajor then [] else MinorCards(data.minor, Suits);
    assert d == a + m;
    if !onlyMajor {
      SuitsDistinct();
      MinorCardsDistinct(data.minor, Suits, 4);
      MinorCardsOrdered(data.minor, Suits, 4);
    }
    forall i, j | 0 <= i < j < |d| ensures d[i] != d[j] {
      if j < n {
        assert d[i] == a[i] && d[j] == a[j];
        assert data.major[i].0 != data.major[j].0;
      } else if i < n {
        assert d[i] == a[i] && d[j] == m[j - n];
      } else {
        assert d[i] == m[i - n] && d[j] == m[j - n];
      }
    }
  }

  // ---------------------------------------------------------------------
  // Drawing cards

  /**
   * `random.sample(range(n), count)`: `count` distinct positions below `n`,
   * each taken from those not yet taken by the caller's `choices`.
   */
  method SamplePositions(n: nat, count: nat, choices: seq<nat>) returns (picked: seq<nat>)
    requires count <= n
    ensures |picked| == count
    ensures forall j | 0 <= j < |picked| :: picked[j] < n
    ensures Distinct(picked)
  {
    var pool: seq<nat> := seq(n, i requires 0 <= i < n => i);
    picked := [];
    while |picked| < count
      invariant |picked| <= count
      invariant |pool| + |picked| == n
      invariant forall i | 0 <= i < |pool| :: pool[i] < n
      invariant forall j | 0 <= j < |picked| :: picked[j] < n
      invariant Distinct(pool) && Distinct(picked)
      invariant forall i, j | 0 <= i < |pool| && 0 <= j < |picked| :: pool[i] != picked[j]
      decreases count - |picked|
    {
      var k := (if |picked| < |choices| then choices[|picked|] else 0) % |pool|;
      var x := pool[k];
      picked := picked + [x];
      pool := pool[..k] + pool[k + 1..];
    }
  }

  /** The `random.choice([True, False])` of the `j`-th drawn card. */
  function Flip(flips: seq<bool>, j: nat): bool
  {
    j < |flips| && flips[j]
  }

  /** A deck card as drawn: "name" and "emoji" default to "Неизвестная карта" and "🃏". */
  function Face(c: DeckCard, reversed: bool): (t: TarotCard)
    ensures t.key == c.key && t.cardType == c.cardType && t.suit == c.suit && t.reversed == reversed
  {
    TarotCard(c.key,
              if c.data.name.Some? then c.data.name.value else "Неизвестная карта",
              if c.data.emoji.Some? then c.data.emoji.value else "🃏",
              c.cardType, c.suit, reversed)
  }

  /**
   * `draw_random_cards(count, use_only_major, allow_reversed)`: `count` is
   * capped at the deck size and the sample is drawn from distinct deck
   * positions; a negative count makes `random.sample` raise.
   */
  method DrawRandomCards(data: TarotData, count: int, onlyMajor: bool, allowReversed: bool,
                         choices: seq<nat>, flips: seq<bool>)
    returns (r: Result<seq<TarotCard>>, positions: seq<nat>)
    ensures count < 0 <==> r.Err?
    ensures r.Ok? ==>
              var deck := Deck(data, onlyMajor);
              |r.value| == (if count < |deck| then count else |deck|) &&
              |positions| == |r.value| && Distinct(positions) &&
              forall j | 0 <= j < |positions| ::
                positions[j] < |deck| &&
                r.value[j] == Face(deck[positions[j]], allowReversed && Flip(flips, j))
    ensures r.Ok? && !allowReversed ==> forall j | 0 <= j < |r.value| :: !r.value[j].reversed
  {
    var deck := AllCards(data, onlyMajor);
    var n := count;
    if n > |deck| {
      n := |deck|;
    }
    if n < 0 {
      return Err("Sample larger than population or is negative"), [];
    }
    positions := SamplePositions(|deck|, n, choices);
    var cards := Faces(deck, positions, allowReversed, flips);
    r := Ok(cards);
  }

  /** The loop of `draw_random_cards` over the sampled positions, flipping each card when reversals are allowed. */
  method Faces(deck: seq<DeckCard>, positions: seq<nat>, allowReversed: bool, flips: seq<bool>)
    returns (cards: seq<TarotCard>)
    requires forall j | 0 <= j < |positions| :: positions[j] < |deck|
    ensures |cards| == |positions|
    ensures forall j | 0 <= j < |positions| :: cards[j] == Face(deck[positions[j]], allowReversed && Flip(flips, j))
  {
    cards := [];
    for j := 0 to |positions|
      invariant |cards| == j
      invariant forall q | 0 <= q < j :: cards[q] == Face(deck[positions[q]], allowReversed && Flip(flips, q))
    {
      var reversed := if allowReversed then Flip(flips, j) else false;
      cards := cards + [Face(deck[positions[j]], reversed)];
    }
  }

  /** Cards drawn from distinct positions of a deck without repeats are distinct deck cards. */
  lemma DrawnAreDistinct(deck: seq<DeckCard>, positions: seq<nat>)
    requires Distinct(deck) && Distinct(positions)
    requires forall j | 0 <= j < |positions| :: positions[j] < |deck|
    ensures Distinct(seq(|positions|, j requires 0 <= j < |positions| => deck[positions[j]]))
  {
  }

  // ---------------------------------------------------------------------
  // Question context

  const LoveKeywords: seq<string> := ["любовь", "отношени", "партнер", "семья", "брак", "встреча", "расставан", "ревность"]
  const CareerKeywords: seq<string> := ["карьер", "работ", "деньг", "бизнес", "проект", "зарплат", "начальник", "коллег"]
  const HealthKeywords: seq<string> := ["здоровье", "болезн", "самочувств", "лечение", "врач", "медицин"]

  /** `any(keyword in text for keyword in keywords)`. */
  predicate Mentions(text: string, keywords: seq<string>)
  {
    exists i | 0 <= i < |keywords| :: Contains(text, keywords[i])
  }

  /** `detect_context_from_question(question)`. */
  function DetectContext(question: Option<string>): (ctx: string)
    ensures ctx in ["general", "love", "career", "health"]
    ensures (question.None? || question.value == []) ==> ctx == "general"
  {
    if question.None? || question.value == [] then "general"
    else
      var low := Lower(question.value);
      if Mentions(low, LoveKeywords) then "love"
      else if Mentions(low, CareerKeywords) then "career"
      else if Mentions(low, HealthKeywords) then "health"
      else "general"
  }

  /** Lower-case Cyrillic letters, which `lower()` keeps. */
  predicate LowerCyrillic(s: string)
  {
    forall i | 0 <= i < |s| :: 'а' <= s[i] <= 'я' || s[i] == 'ё'
  }

  lemma LowerOfLowerCyrillic(s: string)
    requires LowerCyrillic(s)
    ensures Lower(s) == s
  {
  }

  /** A keyword found anywhere in the question, in any case, is found in its lowered text. */
  lemma KeywordFound(before: string, keyword: string, after: string)
    requires LowerCyrillic(keyword)
    ensures Contains(Lower(before + keyword + after), keyword)
  {
    LowerConcat(before + keyword, after);
    LowerConcat(before, keyword);
    LowerOfLowerCyrillic(keyword);
    var low := Lower(before + keyword + after);
    assert low[|before|..|before| + |keyword|] == keyword;
    assert OccursAt(low, keyword, |before|);
  }

  /** A love keyword anywhere in the question makes the context "love", whatever else it mentions. */
  lemma LoveWins(before: string, i: nat, after: string)
    requires i < |LoveKeywords|
    ensures DetectContext(Some(before + LoveKeywords[i] + after)) == "love"
  {
    assert LowerCyrillic(LoveKeywords[i]);
    KeywordFound(before, LoveKeywords[i], after);
  }

  /** A career keyword gives "career" unless a love keyword is also there. */
  lemma CareerBeatsHealth(before: string, i: nat, after: string)
    requires i < |CareerKeywords|
    requires !Mentions(Lower(before + CareerKeywords[i] + after), LoveKeywords)
    ensures DetectContext(Some(before + CareerKeywords[i] + after)) == "career"
  {
    assert LowerCyrillic(CareerKeywords[i]);
    KeywordFound(before, CareerKeywords[i], after);
  }

  /** A health keyword gives "health" unless a love or career keyword is also there. */
  lemma HealthLast(before: string, i: nat, after: string)
    requires i < |HealthKeywords|
    requires var low := Lower(before + HealthKeywords[i] + after);
             !Mentions(low, LoveKeywords) && !Mentions(low, CareerKeywords)
    ensures DetectContext(Some(before + HealthKeywords[i] + after)) == "health"
  {
    assert LowerCyrillic(HealthKeywords[i]);
    KeywordFound(before, HealthKeywords[i], after);
  }

  /** The context does not depend on the question's case. */
  lemma ContextIgnoresCase(q: string)
    ensures DetectContext(Some(Lower(q))) == DetectContext(Some(q))
  {
    LowerIdempotent(q);
  }

  // ---------------------------------------------------------------------
  // Interpretations

  const Unavailable: string := "Интерпретация недоступна."
  const Failure: string := "Произошла ошибка при получении интерпретации."

  /** What the lookup of a card's interpretation reaches. */
  datatype Found = Entry(entry: Interp) | Missing | Broken

  /** A card object is falsy when it is empty. */
  predicate Blank(c: CardData)
  {
    c.name.None? && c.emoji.None? && c.directions == []
  }

  function Get<V>(items: seq<(string, V)>, key: string, default: V): V
  {
    match Lookup(items, key)
    case Some(v) => v
    case None => default
  }

  /**
   * The lookup of `get_card_interpretation`: a major card reads
   * `[direction][context]` (default an empty list), where a direction that
   * is not an object raises; a minor card reads `[direction]` of its suit's
   * card (default an empty list), where an object is not an interpretation.
   */
  function Resolve(data: TarotData, card: TarotCard, context: string): Found
  {
    var direction := if card.reversed then "reversed" else "upright";
    if card.cardType == Major then
      match Lookup(data.major, card.key)
      case None => Missing
      case Some(cd) =>
        if Blank(cd) then Missing
        else
          match Get(cd.directions, direction, ByContext([]))
          case ByContext(m) => Entry(Get(m, context, Choices([])))
          case Bare(_) => Broken
    else
      var suitData := if card.suit.Some? then SuitOf(data.minor, card.suit.value) else [];
      match Lookup(suitData, card.key)
      case None => Missing
      case Some(cd) =>
        if Blank(cd) then Missing
        else
          match Get(cd.directions, direction, Bare(Choices([])))
          case Bare(e) => Entry(e)
          case ByContext(_) => Entry(Other)
  }

  /** `get_card_interpretation(card, context)`, with `pick` the `random.choice` draw. */
  function CardInterpretation(data: TarotData, card: TarotCard, context: string, pick: nat): (text: string)
    ensures match Resolve(data, card, context)
            case Entry(Choices(xs)) => if xs != [] then text in xs else text == Unavailable
            case Entry(Text(s)) => text == s
            case Entry(Other) => text == Unavailable
            case Missing => text == Unavailable
            case Broken => text == Failure
  {
    match Resolve(data, card, context)
    case Entry(Choices(xs)) => if xs != [] then Pick(xs, pick) else Unavailable
    case Entry(Text(s)) => s
    case Entry(Other) => Unavailable
    case Missing => Unavailable
    case Broken => Failure
  }

  /** A card missing from the data is "unavailable", whatever the context and draw. */
  lemma UnknownCardUnavailable(data: TarotData, card: TarotCard, context: string, pick: nat)
    requires card.cardType == Major ==> Lookup(data.major, card.key).None?
    requires card.cardType == Minor ==> card.suit.None? || Lookup(SuitOf(data.minor, card.suit.value), card.key).None?
    ensures CardInterpretation(data, card, context, pick) == Unavailable
  {
  }

  /** A major card with a string for the context returns that string, for every draw. */
  lemma MajorTextReturned(data: TarotData, card: TarotCard, context: string, cd: CardData,
                          contexts: seq<(string, Interp)>, s: string, pick: nat)
    requires card.cardType == Major && Lookup(data.major, card.key) == Some(cd) && !Blank(cd)
    requires Lookup(cd.directions, if card.reversed then "reversed" else "upright") == Some(ByContext(contexts))
    requires Lookup(contexts, context) == Some(Text(s))
    ensures CardInterpretation(data, card, context, pick) == s
  {
  }

  // ---------------------------------------------------------------------
  // Spread readings

  /** An entry of `interpret_spread`'s result. */
  datatype Reading = Reading(positionName: string, positionMeaning: string, card: TarotCard, interpretation: string)

  /** `f"Позиция {i + 1}"`. */
  function PositionLabel(i: nat): string
  {
    "Позиция " + NatToString(i + 1)
  }

  function PositionName(positions: seq<Position>, i: nat): string
  {
    if i < |positions| && positions[i].name.Some? then positions[i].name.value else PositionLabel(i)
  }

  function PositionMeaning(positions: seq<Position>, i: nat): string
  {
    if i < |positions| && positions[i].meaning.Some? then positions[i].meaning.value else ""
  }

  /** The `random.choice` draw of the `i`-th card's interpretation. */
  function PickAt(picks: seq<nat>, i: nat): nat
  {
    if i < |picks| then picks[i] else 0
  }

  /** `interpret_spread(cards, spread_key, context)`. */
  method InterpretSpread(data: TarotData, cards: seq<TarotCard>, spreadKey: string, context: string, picks: seq<nat>)
    returns (readings: seq<Reading>)
    ensures Lookup(data.spreads, spreadKey).None? ==> readings == []
    ensures Lookup(data.spreads, spreadKey).Some? ==>
              var positions := Lookup(data.spreads, spreadKey).value.positions;
              |readings| == |cards| &&
              forall i | 0 <= i < |cards| ::
                readings[i] == Reading(PositionName(positions, i), PositionMeaning(positions, i), cards[i],
                                       CardInterpretation(data, cards[i], context, PickAt(picks, i)))
  {
    var info := Lookup(data.spreads, spreadKey);
    if info.None? {
      return [];
    }
    var positions := info.value.positions;
    ghost var expected := seq(|cards|, q requires 0 <= q < |cards| =>
      Reading(PositionName(positions, q), PositionMeaning(positions, q), cards[q],
              CardInterpretation(data, cards[q], context, PickAt(picks, q))));
    readings := [];
    for i := 0 to |cards|
      invariant readings == expected[..i]
    {
      var reading := ReadingAt(data, positions, i, cards[i], context, PickAt(picks, i));
      assert expected[..i + 1] == expected[..i] + [reading];
      readings := readings + [reading];
    }
    assert expected[..|cards|] == expected;
  }

  /** The body of the loop in `interpret_spread`: the `i`-th card read at the `i`-th position. */
  method ReadingAt(data: TarotData, positions: seq<Position>, i: nat, card: TarotCard, context: string, pick: nat)
    returns (reading: Reading)
    ensures reading == Reading(PositionName(positions, i), PositionMeaning(positions, i), card,
                               CardInterpretation(data, card, context, pick))
  {
    var name, meaning;
    if i >= |positions| {
      name := PositionLabel(i);
      meaning := "";
    } else {
      var position := positions[i];
      name := if position.name.Some? then position.name.value else PositionLabel(i);
      meaning := if position.meaning.Some? then position.meaning.value else "";
    }
    var text := CardInterpretation(data, card, context, pick);
    reading := Reading(name, meaning, card, text);
  }

  /** Positions beyond the spread's list get numbered labels, and no two of them share one. */
  lemma PositionLabelsDistinct(positions: seq<Position>, i: nat, j: nat)
    requires |positions| <= i < j
    ensures PositionName(positions, i) == PositionLabel(i)
    ensures PositionName(positions, i) != PositionName(positions, j)
  {
    var a := NatToString(i + 1);
    var b := NatToString(j + 1);
    var p := "Позиция ";
    assert (p + a)[|p|..] == a;
    assert (p + b)[|p|..] == b;
  }

  // ---------------------------------------------------------------------
  // Yes/no answers

  const Yes: string := "Да"
  const No: string := "Нет"
  const Maybe: string := "Возможно"
  const NoClearAnswer: string := "Карты не дают четкого ответа."

  /** The keyword scan of an interpretation: a refusal beats a consent. */
  function VerdictOf(interpretation: string): (answer: string)
    ensures answer in [Yes, No, Maybe]
  {
    var low := Lower(interpretation);
    if Contains(low, "нет") || Contains(low, "отказ") then No
    else if Contains(low, "да") || Contains(low, "успех") then Yes
    else Maybe
  }

  /**
   * `format_yes_no_answer(card)`: `pick` is the draw of the interpretation
   * scanned for keywords, `explainPick` that of the explanation.
   */
  function FormatYesNo(data: TarotData, card: TarotCard, pick: nat, explainPick: nat): (r: (string, string))
    ensures r.0 in [Yes, No, Maybe]
    ensures Lookup(data.spreads, "yes_no").None? ==> r == (Maybe, NoClearAnswer)
    ensures Lookup(data.spreads, "yes_no").Some? ==>
              r.1 == CardInterpretation(data, card, "general", explainPick)
  {
    match Lookup(data.spreads, "yes_no")
    case None => (Maybe, NoClearAnswer)
    case Some(s) =>
      var answer :=
        if card.key in s.yesCards then Yes
        else if card.key in s.noCards then No
        else if card.key in s.maybeCards then Maybe
        else VerdictOf(CardInterpretation(data, card, "general", pick));
      (answer, CardInterpretation(data, card, "general", explainPick))
  }

  /**
   * The lists decide before the interpretation does, "yes" before "no"
   * before "maybe".
   */
  lemma ListsDecideFirst(data: TarotData, card: TarotCard, pick: nat, explainPick: nat)
    requires Lookup(data.spreads, "yes_no").Some?
    ensures var s := Lookup(data.spreads, "yes_no").value;
            var answer := FormatYesNo(data, card, pick, explainPick).0;
            (card.key in s.yesCards ==> answer == Yes) &&
            (card.key !in s.yesCards && card.key in s.noCards ==> answer == No) &&
            (card.key !in s.yesCards && card.key !in s.noCards && card.key in s.maybeCards ==> answer == Maybe)
  {
  }

  /** An unlisted card whose interpretation says "нет" anywhere, in any case, is answered "Нет". */
  lemma RefusalAnswersNo(data: TarotData, card: TarotCard, pick: nat, explainPick: nat, before: string, after: string)
    requires Lookup(data.spreads, "yes_no").Some?
    requires var s := Lookup(data.spreads, "yes_no").value;
             card.key !in s.yesCards && card.key !in s.noCards && card.key !in s.maybeCards
    requires CardInterpretation(data, card, "general", pick) == before + "нет" + after
    ensures FormatYesNo(data, card, pick, explainPick).0 == No
  {
    assert LowerCyrillic("нет");
    KeywordFound(before, "нет", after);
  }
}
