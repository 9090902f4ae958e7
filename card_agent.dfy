/**
 * The card generation agent: which card type comes next, the counts shown to
 * the model, and the single append that a generation step performs.
 */
module CardAgent {
  import opened Common
  import opened Models

  /** The number of cards whose `type` is `t`. */
  function CountOfType(cards: seq<Card>, t: string): (n: nat)
    ensures n <= |cards|
  {
    if cards == [] then 0
    else CountOfType(cards[..|cards| - 1], t) + (if cards[|cards| - 1].cardType == t then 1 else 0)
  }

  lemma CountOfTypeAppend(cards: seq<Card>, c: Card, t: string)
    ensures CountOfType(cards + [c], t) == CountOfType(cards, t) + (if c.cardType == t then 1 else 0)
  {
    assert (cards + [c])[..|cards|] == cards;
  }

  /** A distribution entry whose type has fewer cards than its target. */
  predicate Incomplete(cards: seq<Card>, e: (string, int))
  {
    CountOfType(cards, e.0) < e.1
  }

  /** `remaining_types`: the entries still under target, in distribution order. */
  function RemainingTypes(d: Distribution, cards: seq<Card>): (r: Distribution)
    ensures |r| <= |d|
    ensures forall e :: e in r <==> e in d && Incomplete(cards, e)
  {
    if d == [] then []
    else
      var rest := RemainingTypes(d[..|d| - 1], cards);
      assert d == d[..|d| - 1] + [d[|d| - 1]];
      if Incomplete(cards, d[|d| - 1]) then rest + [d[|d| - 1]] else rest
  }

  /**
   * `max(items, key=count)`: scanning left to right, an item replaces the
   * current best only when its count is strictly larger.
   */
  function FirstMax(s: Distribution): (m: (string, int))
    requires s != []
    ensures m in s
    ensures forall e :: e in s ==> e.1 <= m.1
  {
    if |s| == 1 then s[0]
    else
      var best := FirstMax(s[..|s| - 1]);
      assert s == s[..|s| - 1] + [s[|s| - 1]];
      if s[|s| - 1].1 > best.1 then s[|s| - 1] else best
  }

  /**
   * `_get_next_card_type`: the type with the largest target among those
   * still under target, or `None` where Python's `max` raises on an empty
   * sequence.
   */
  function NextCardType(d: Distribution, cards: seq<Card>): (r: Option<string>)
    ensures r.None? <==> forall i :: 0 <= i < |d| ==> !Incomplete(cards, d[i])
    ensures r.Some? ==> exists i :: 0 <= i < |d| && d[i].0 == r.value && Incomplete(cards, d[i])
  {
    var remaining := RemainingTypes(d, cards);
    if remaining == [] then None
    else
      assert FirstMax(remaining) in remaining;
      Some(FirstMax(remaining).0)
  }

  /**
   * The selection rule stated on its own: entry `i` is under target, no
   * entry under target has a larger target, and every earlier entry under
   * target has a strictly smaller one (ties go to the earliest entry).
   */
  predicate IsSelection(d: Distribution, cards: seq<Card>, i: int)
  {
    && 0 <= i < |d|
    && Incomplete(cards, d[i])
    && (forall j :: 0 <= j < |d| && Incomplete(cards, d[j]) ==> d[j].1 <= d[i].1)
    && (forall j :: 0 <= j < i && Incomplete(cards, d[j]) ==> d[j].1 < d[i].1)
  }

  /** At most one entry satisfies the selection rule. */
  lemma SelectionIsUnique(d: Distribution, cards: seq<Card>, i: int, j: int)
    requires IsSelection(d, cards, i) && IsSelection(d, cards, j)
    ensures i == j
  {
  }

  /** An existing selection survives appending an entry that does not beat it. */
  lemma SelectionKept(d: Distribution, cards: seq<Card>, i: int)
    requires |d| > 0 && IsSelection(d[..|d| - 1], cards, i)
    requires Incomplete(cards, d[|d| - 1]) ==> d[|d| - 1].1 <= d[i].1
    ensures IsSelection(d, cards, i) && d[i] == d[..|d| - 1][i]
  {
    var init := d[..|d| - 1];
    assert forall j :: 0 <= j < |init| ==> init[j] == d[j];
  }

  /** The appended entry is the selection when it beats every earlier entry under target. */
  lemma SelectionLast(d: Distribution, cards: seq<Card>)
    requires |d| > 0 && Incomplete(cards, d[|d| - 1])
    requires forall j :: 0 <= j < |d| - 1 && Incomplete(cards, d[j]) ==> d[j].1 < d[|d| - 1].1
    ensures IsSelection(d, cards, |d| - 1)
  {
  }

  /** The first entry under target is the selection when no earlier entry is under target. */
  lemma OnlyRemainingIsSelection(d: Distribution, cards: seq<Card>)
    requires |d| > 0 && Incomplete(cards, d[|d| - 1])
    requires RemainingTypes(d[..|d| - 1], cards) == []
    ensures RemainingTypes(d, cards) == [d[|d| - 1]]
    ensures IsSelection(d, cards, |d| - 1)
  {
    var init := d[..|d| - 1];
    forall j | 0 <= j < |d| - 1
      ensures !Incomplete(cards, d[j])
    {
      assert init[j] == d[j] && init[j] in init;
    }
    SelectionLast(d, cards);
  }

  /** The inductive step when the appended entry is under target and others are too. */
  lemma AppendedRemainingSelection(d: Distribution, cards: seq<Card>, i: int)
    requires |d| > 0 && Incomplete(cards, d[|d| - 1])
    requires RemainingTypes(d[..|d| - 1], cards) != []
    requires IsSelection(d[..|d| - 1], cards, i)
    requires d[..|d| - 1][i] == FirstMax(RemainingTypes(d[..|d| - 1], cards))
    ensures exists k :: IsSelection(d, cards, k) && d[k] == FirstMax(RemainingTypes(d, cards))
  {
    var init, x := d[..|d| - 1], d[|d| - 1];
    var rest := RemainingTypes(init, cards);
    assert RemainingTypes(d, cards) == rest + [x];
    assert (rest + [x])[..|rest|] == rest;
    if x.1 > FirstMax(rest).1 {
      assert FirstMax(rest + [x]) == x;
      forall j | 0 <= j < |d| - 1 && Incomplete(cards, d[j])
        ensures d[j].1 < x.1
      {
        assert init[j] == d[j];
      }
      SelectionLast(d, cards);
    } else {
      assert FirstMax(rest + [x]) == FirstMax(rest);
      SelectionKept(d, cards, i);
    }
  }

  lemma {:induction false} FirstRemainingIsSelection(d: Distribution, cards: seq<Card>)
    requires RemainingTypes(d, cards) != []
    ensures exists i :: IsSelection(d, cards, i) && d[i] == FirstMax(RemainingTypes(d, cards))
  {
    var init, x := d[..|d| - 1], d[|d| - 1];
    var rest := RemainingTypes(init, cards);
    if Incomplete(cards, x) && rest == [] {
      OnlyRemainingIsSelection(d, cards);
    } else if Incomplete(cards, x) {
      FirstRemainingIsSelection(init, cards);
      var i :| IsSelection(init, cards, i) && init[i] == FirstMax(rest);
      AppendedRemainingSelection(d, cards, i);
    } else {
      assert RemainingTypes(d, cards) == rest;
      FirstRemainingIsSelection(init, cards);
      var i :| IsSelection(init, cards, i) && init[i] == FirstMax(rest);
      SelectionKept(d, cards, i);
    }
  }

  /**
   * The selector returns exactly the entry picked by the selection rule,
   * and returns nothing exactly when every entry has reached its target.
   */
  lemma NextCardTypeIsSelection(d: Distribution, cards: seq<Card>)
    ensures NextCardType(d, cards).None? <==> forall i :: 0 <= i < |d| ==> !Incomplete(cards, d[i])
    ensures NextCardType(d, cards).Some? ==>
      exists i :: IsSelection(d, cards, i) && d[i].0 == NextCardType(d, cards).value
  {
    if RemainingTypes(d, cards) != [] {
      FirstRemainingIsSelection(d, cards);
    }
  }

  lemma {:induction false} RemainingDependsOnCountsOnly(d: Distribution, c1: seq<Card>, c2: seq<Card>)
    requires forall i :: 0 <= i < |d| ==> CountOfType(c1, d[i].0) == CountOfType(c2, d[i].0)
    ensures RemainingTypes(d, c1) == RemainingTypes(d, c2)
  {
    if d != [] {
      RemainingDependsOnCountsOnly(d[..|d| - 1], c1, c2);
    }
  }

  /** A card whose type is not a distribution key never changes the selection. */
  lemma ForeignCardIgnored(d: Distribution, cards: seq<Card>, c: Card)
    requires c.cardType !in Keys(d)
    ensures NextCardType(d, cards + [c]) == NextCardType(d, cards)
  {
    forall i | 0 <= i < |d|
      ensures CountOfType(cards + [c], d[i].0) == CountOfType(cards, d[i].0)
    {
      CountOfTypeAppend(cards, c, d[i].0);
    }
    RemainingDependsOnCountsOnly(d, cards + [c], cards);
  }

  /** The context handed to the model when one card is generated. */
  datatype CardContext = CardContext(
    gameConcept: Concept,
    currentNumCards: nat,
    existingCards: seq<Card>,
    distributionPlan: Distribution,
    cardsByType: map<string, nat>,
    nextCardType: string)

  /** `_prepare_context`: the counts per distribution key and the chosen type. */
  function PrepareContext(concept: Concept, cards: seq<Card>, next: string): (ctx: CardContext)
    ensures ctx.cardsByType.Keys == Keys(concept.cardDistribution)
    ensures forall k :: k in ctx.cardsByType ==> ctx.cardsByType[k] == CountOfType(cards, k)
    ensures ctx.currentNumCards == |cards| && ctx.existingCards == cards
    ensures ctx.nextCardType == next && ctx.distributionPlan == concept.cardDistribution
  {
    var d := concept.cardDistribution;
    CardContext(concept, |cards|, cards, d, map k | k in Keys(d) :: CountOfType(cards, k), next)
  }

  /** Total number of cards counted over the entries of `d`, a key counted once per entry. */
  function SumCounts(d: Distribution, cards: seq<Card>): nat
  {
    if d == [] then 0 else SumCounts(d[..|d| - 1], cards) + CountOfType(cards, d[|d| - 1].0)
  }

  /** The number of entries of `d` whose key is `t`. */
  function KeyOccurrences(d: Distribution, t: string): (n: nat)
    ensures n <= |d|
  {
    if d == [] then 0 else KeyOccurrences(d[..|d| - 1], t) + (if d[|d| - 1].0 == t then 1 else 0)
  }

  lemma {:induction false} KeyOccursAtMostOnce(d: Distribution, t: string)
    requires DistinctKeys(d)
    ensures KeyOccurrences(d, t) <= 1
    ensures KeyOccurrences(d, t) == 1 <==> t in Keys(d)
  {
    if d != [] {
      var init := d[..|d| - 1];
      assert DistinctKeys(init);
      KeyOccursAtMostOnce(init, t);
      assert forall i :: 0 <= i < |init| ==> init[i] == d[i];
      assert Keys(d) == Keys(init) + {d[|d| - 1].0};
    }
  }

  lemma {:induction false} SumCountsAppend(d: Distribution, cards: seq<Card>, c: Card)
    ensures SumCounts(d, cards + [c]) == SumCounts(d, cards) + KeyOccurrences(d, c.cardType)
  {
    if d != [] {
      SumCountsAppend(d[..|d| - 1], cards, c);
      CountOfTypeAppend(cards, c, d[|d| - 1].0);
    }
  }

  lemma {:induction false} SumCountsEmpty(d: Distribution)
    ensures SumCounts(d, []) == 0
  {
    if d != [] {
      SumCountsEmpty(d[..|d| - 1]);
    }
  }

  /** With distinct keys the per-type counts add up to at most the number of cards. */
  lemma {:induction false} SumCountsBounded(d: Distribution, cards: seq<Card>)
    requires DistinctKeys(d)
    ensures SumCounts(d, cards) <= |cards|
  {
    if cards == [] {
      SumCountsEmpty(d);
    } else {
      var init := cards[..|cards| - 1];
      assert cards == init + [cards[|cards| - 1]];
      SumCountsBounded(d, init);
      SumCountsAppend(d, init, cards[|cards| - 1]);
      KeyOccursAtMostOnce(d, cards[|cards| - 1].cardType);
    }
  }

  /** The values of `m` added up along the entries of `d`. */
  function SumAlong(d: Distribution, m: map<string, nat>): nat
    requires Keys(d) <= m.Keys
  {
    if d == [] then 0
    else
      var init := d[..|d| - 1];
      assert Keys(init) <= Keys(d) by {
        forall i | 0 <= i < |init| ensures init[i].0 in Keys(d) {
          assert init[i] == d[i];
        }
      }
      assert d[|d| - 1].0 in Keys(d);
      SumAlong(init, m) + m[d[|d| - 1].0]
  }

  lemma {:induction false} SumAlongCounts(d: Distribution, cards: seq<Card>, m: map<string, nat>)
    requires Keys(d) <= m.Keys
    requires forall k :: k in m ==> m[k] == CountOfType(cards, k)
    ensures SumAlong(d, m) == SumCounts(d, cards)
  {
    if d != [] {
      var init := d[..|d| - 1];
      assert Keys(init) <= Keys(d) by {
        forall i | 0 <= i < |init| ensures init[i].0 in Keys(d) {
          assert init[i] == d[i];
        }
      }
      assert d[|d| - 1].0 in Keys(d);
      SumAlongCounts(init, cards, m);
    }
  }

  /**
   * The context's per-type counts, added up over the distribution's keys,
   * never exceed the number of existing cards.
   */
  lemma ContextCountsBounded(concept: Concept, cards: seq<Card>, next: string)
    requires DistinctKeys(concept.cardDistribution)
    ensures Keys(concept.cardDistribution) <= PrepareContext(concept, cards, next).cardsByType.Keys
    ensures SumAlong(concept.cardDistribution, PrepareContext(concept, cards, next).cardsByType)
            <= PrepareContext(concept, cards, next).currentNumCards
  {
    var ctx := PrepareContext(concept, cards, next);
    SumAlongCounts(concept.cardDistribution, cards, ctx.cardsByType);
    SumCountsBounded(concept.cardDistribution, cards);
  }

  /** How many more cards entry `e` still needs. */
  function Shortfall(cards: seq<Card>, e: (string, int)): nat
  {
    if CountOfType(cards, e.0) < e.1 then e.1 - CountOfType(cards, e.0) else 0
  }

  /** How many more cards the whole distribution still needs. */
  function Deficit(d: Distribution, cards: seq<Card>): nat
  {
    if d == [] then 0 else Deficit(d[..|d| - 1], cards) + Shortfall(cards, d[|d| - 1])
  }

  /** The number of entries under target whose key is `t`. */
  function IncompleteWithKey(d: Distribution, cards: seq<Card>, t: string): nat
  {
    if d == [] then 0
    else IncompleteWithKey(d[..|d| - 1], cards, t)
         + (if d[|d| - 1].0 == t && Incomplete(cards, d[|d| - 1]) then 1 else 0)
  }

  lemma {:induction false} DeficitZeroIffComplete(d: Distribution, cards: seq<Card>)
    ensures Deficit(d, cards) == 0 <==> forall i :: 0 <= i < |d| ==> !Incomplete(cards, d[i])
  {
    if d != [] {
      var init := d[..|d| - 1];
      DeficitZeroIffComplete(init, cards);
      assert forall i :: 0 <= i < |init| ==> init[i] == d[i];
    }
  }

  lemma {:induction false} DeficitAppend(d: Distribution, cards: seq<Card>, c: Card)
    ensures Deficit(d, cards + [c]) + IncompleteWithKey(d, cards, c.cardType) == Deficit(d, cards)
  {
    if d != [] {
      DeficitAppend(d[..|d| - 1], cards, c);
      CountOfTypeAppend(cards, c, d[|d| - 1].0);
    }
  }

  lemma {:induction false} IncompleteWithKeyBounds(d: Distribution, cards: seq<Card>, i: int)
    requires DistinctKeys(d)
    requires 0 <= i < |d| && Incomplete(cards, d[i])
    ensures IncompleteWithKey(d, cards, d[i].0) == 1
  {
    var init := d[..|d| - 1];
    assert DistinctKeys(init);
    if i == |d| - 1 {
      NoIncompleteWithAbsentKey(init, cards, d[i].0);
    } else {
      assert init[i] == d[i];
      IncompleteWithKeyBounds(init, cards, i);
    }
  }

  lemma {:induction false} NoIncompleteWithAbsentKey(d: Distribution, cards: seq<Card>, t: string)
    requires forall i :: 0 <= i < |d| ==> d[i].0 != t
    ensures IncompleteWithKey(d, cards, t) == 0
  {
    if d != [] {
      var init := d[..|d| - 1];
      assert forall i :: 0 <= i < |init| ==> init[i] == d[i];
      NoIncompleteWithAbsentKey(init, cards, t);
    }
  }

  /** Adding a card of the selected type lowers the total shortfall by exactly one. */
  lemma SelectedCardLowersDeficit(d: Distribution, cards: seq<Card>, c: Card)
    requires DistinctKeys(d)
    requires NextCardType(d, cards) == Some(c.cardType)
    ensures Deficit(d, cards + [c]) == Deficit(d, cards) - 1
  {
    var i :| 0 <= i < |d| && d[i].0 == c.cardType && Incomplete(cards, d[i]);
    IncompleteWithKeyBounds(d, cards, i);
    DeficitAppend(d, cards, c);
  }

  /**
   * The language model as `_generate_new_card` calls it: for each context
   * it raises, returns nothing, or returns a card.
   */
  type CardModel = CardContext -> Invocation<Option<Card>>

  /** Why a run of `generate_card` raises instead of returning the state. */
  datatype StepError = MissingConcept | NoRemainingType | ModelRaised

  /**
   * One run of `generate_card` on the values it reads: it raises in the
   * selector when no type is under target, and in the model call when that
   * raises; otherwise it returns the card list, with the model's card
   * appended when the model returned one.
   */
  function CardStep(concept: Concept, cards: seq<Card>, llm: CardModel): (r: Result<seq<Card>, StepError>)
    ensures r == Failure(NoRemainingType) <==> NextCardType(concept.cardDistribution, cards).None?
    ensures r == Failure(ModelRaised) <==>
      && NextCardType(concept.cardDistribution, cards).Some?
      && llm(PrepareContext(concept, cards, NextCardType(concept.cardDistribution, cards).value)).Raised?
    ensures r != Failure(MissingConcept)
    ensures r.Success? ==> r.value == cards || (|r.value| == |cards| + 1 && r.value[..|cards|] == cards)
  {
    match NextCardType(concept.cardDistribution, cards)
    case None => Failure(NoRemainingType)
    case Some(t) =>
      match llm(PrepareContext(concept, cards, t))
      case Raised => Failure(ModelRaised)
      case Returned(generated) =>
        if generated.Some? then
          assert (cards + [generated.value])[..|cards|] == cards;
          Success(cards + [generated.value])
        else Success(cards)
  }

  /**
   * `generate_card`: select the next type, build the context, ask the model,
   * and append the card it returned (if any) to the state's list.  A raise
   * in the selector or the model call leaves the cards as they were.
   */
  method GenerateCard(state: CardGameState, llm: CardModel) returns (r: Result<(), StepError>)
    modifies state`cards
    ensures state.concept.None? ==> r == Failure(MissingConcept) && state.cards == old(state.cards)
    ensures state.concept.Some? ==>
      var next := NextCardType(state.concept.value.cardDistribution, old(state.cards));
      && (next.None? ==> r == Failure(NoRemainingType) && state.cards == old(state.cards))
      && (next.Some? ==>
            match llm(PrepareContext(state.concept.value, old(state.cards), next.value))
            case Raised => r == Failure(ModelRaised) && state.cards == old(state.cards)
            case Returned(generated) =>
              && r == Success(())
              && state.cards == if generated.Some? then old(state.cards) + [generated.value] else old(state.cards))
    ensures state.concept.Some? ==>
      CardStep(state.concept.value, old(state.cards), llm) == if r.Success? then Success(state.cards) else Failure(r.error)
  {
    if state.concept.None? {
      return Failure(MissingConcept);
    }
    var concept := state.concept.value;
    var existing := state.cards;
    var next := NextCardType(concept.cardDistribution, existing);
    if next.None? {
      return Failure(NoRemainingType);
    }
    var context := PrepareContext(concept, existing, next.value);
    var reply := llm(context);
    if reply.Raised? {
      return Failure(ModelRaised);
    }
    var newCard := reply.value;
    if newCard.Some? {
      state.cards := state.cards + [newCard.value];
    }
    r := Success(());
  }
}
