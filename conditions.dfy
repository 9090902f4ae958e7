/**
 * The stop condition of the card loop and the loop itself: the cards graph
 * enters at `generate_cards` and, after every step, asks `should_continue`
 * whether to run the step again or to end.
 */
module Conditions {
  import opened Common
  import opened Models
  import opened CardAgent

  /** The two successors of the card step. */
  datatype NextNode = GenerateCards | End

  /** `should_continue`: one more card while fewer cards exist than the concept's unique-card count. */
  function ShouldContinue(cards: seq<Card>, concept: Concept): (r: NextNode)
    ensures r == GenerateCards <==> |cards| < concept.numberOfUniqueCards
    ensures r == End <==> |cards| >= concept.numberOfUniqueCards
  {
    if |cards| < concept.numberOfUniqueCards then GenerateCards else End
  }

  /** Once the loop may end, it may end for every longer card list as well. */
  lemma EndIsMonotone(cards: seq<Card>, more: seq<Card>, concept: Concept)
    requires ShouldContinue(cards, concept) == End
    requires |more| >= |cards|
    ensures ShouldContinue(more, concept) == End
  {
  }

  /** How a run of the cards graph finishes. */
  datatype RunOutcome =
    | Ended(cards: seq<Card>, steps: nat)
    | NodeRaised(cards: seq<Card>, steps: nat, error: StepError)
    | StepLimitReached(cards: seq<Card>)

  /**
   * The cards graph on values: run the card node, then consult the stop
   * condition; `steps` counts the node runs that completed and `limit`
   * bounds how many may run.  `node` gives the error where the node raises.
   */
  function RunGraph(concept: Concept, node: seq<Card> -> Result<seq<Card>, StepError>, cards: seq<Card>, limit: nat): (r: RunOutcome)
    ensures r.Ended? ==> ShouldContinue(r.cards, concept) == End && 1 <= r.steps <= limit
    ensures r.NodeRaised? ==> node(r.cards) == Failure(r.error) && r.steps < limit
    decreases limit
  {
    if limit == 0 then StepLimitReached(cards)
    else
      match node(cards)
      case Failure(e) => NodeRaised(cards, 0, e)
      case Success(next) =>
        if ShouldContinue(next, concept) == End then Ended(next, 1)
        else OneMoreStep(RunGraph(concept, node, next, limit - 1))
  }

  /** The outcome of a run that started with one more completed step. */
  function OneMoreStep(out: RunOutcome): RunOutcome
  {
    match out
    case Ended(c, k) => Ended(c, k + 1)
    case NodeRaised(c, k, e) => NodeRaised(c, k + 1, e)
    case StepLimitReached(c) => StepLimitReached(c)
  }

  /** The `generate_card` node of the cards graph, with the model's replies given by `llm`. */
  function CardNode(concept: Concept, llm: CardModel): seq<Card> -> Result<seq<Card>, StepError>
  {
    cards => CardStep(concept, cards, llm)
  }

  /**
   * The cards graph of `create_cards_workflow`: a run that ends has enough
   * cards, and a run that raises does so because no type is under target
   * or because the model call raised.
   */
  function Run(concept: Concept, cards: seq<Card>, llm: CardModel, limit: nat): (r: RunOutcome)
    ensures r.Ended? ==> |r.cards| >= concept.numberOfUniqueCards && 1 <= r.steps <= limit
    ensures r.NodeRaised? ==>
      var next := NextCardType(concept.cardDistribution, r.cards);
      || (r.error == NoRemainingType && next.None?)
      || (r.error == ModelRaised && next.Some? && llm(PrepareContext(concept, r.cards, next.value)).Raised?)
  {
    RunGraph(concept, CardNode(concept, llm), cards, limit)
  }

  /** A model that always returns a card of the requested type. */
  ghost predicate Obedient(llm: CardModel)
  {
    forall ctx :: llm(ctx).Returned? && llm(ctx).value.Some? && llm(ctx).value.value.cardType == ctx.nextCardType
  }

  /**
   * A node that, while targets remain, appends one card and fills one
   * target, and raises once every target is filled.
   */
  ghost predicate FillsOneTarget(d: Distribution, node: seq<Card> -> Result<seq<Card>, StepError>)
  {
    forall cards ::
      && (Deficit(d, cards) == 0 ==> node(cards) == Failure(NoRemainingType))
      && (Deficit(d, cards) > 0 ==>
            && node(cards).Success?
            && |node(cards).value| == |cards| + 1
            && node(cards).value[..|cards|] == cards
            && Deficit(d, node(cards).value) == Deficit(d, cards) - 1)
  }

  /**
   * The number of node runs after which the stop condition first says END:
   * the node always runs once, and then as long as cards are missing.
   */
  function StepsToEnd(concept: Concept, cards: seq<Card>): (n: nat)
    ensures n >= 1
    ensures |cards| + n >= concept.numberOfUniqueCards
    ensures n > 1 ==> |cards| + n == concept.numberOfUniqueCards
  {
    if |cards| + 1 < concept.numberOfUniqueCards then concept.numberOfUniqueCards - |cards| else 1
  }

  /** One obedient step appends one card and fills one target. */
  lemma ObedientStep(concept: Concept, cards: seq<Card>, llm: CardModel)
    requires DistinctKeys(concept.cardDistribution) && Obedient(llm)
    requires Deficit(concept.cardDistribution, cards) > 0
    ensures CardStep(concept, cards, llm).Success?
    ensures var next := CardStep(concept, cards, llm).value;
      && |next| == |cards| + 1 && next[..|cards|] == cards
      && Deficit(concept.cardDistribution, next) == Deficit(concept.cardDistribution, cards) - 1
  {
    var d := concept.cardDistribution;
    DeficitZeroIffComplete(d, cards);
    var t := NextCardType(d, cards).value;
    var c := llm(PrepareContext(concept, cards, t)).value.value;
    assert c.cardType == t;
    SelectedCardLowersDeficit(d, cards, c);
    assert (cards + [c])[..|cards|] == cards;
  }

  /** With an obedient model, the card node fills one target per run. */
  lemma ObedientNodeFillsOneTarget(concept: Concept, llm: CardModel)
    requires DistinctKeys(concept.cardDistribution) && Obedient(llm)
    ensures FillsOneTarget(concept.cardDistribution, CardNode(concept, llm))
  {
    var d := concept.cardDistribution;
    forall cards
      ensures Deficit(d, cards) == 0 ==> CardStep(concept, cards, llm) == Failure(NoRemainingType)
      ensures Deficit(d, cards) > 0 ==>
        && CardStep(concept, cards, llm).Success?
        && |CardStep(concept, cards, llm).value| == |cards| + 1
        && CardStep(concept, cards, llm).value[..|cards|] == cards
        && Deficit(d, CardStep(concept, cards, llm).value) == Deficit(d, cards) - 1
    {
      DeficitZeroIffComplete(d, cards);
      if Deficit(d, cards) > 0 {
        ObedientStep(concept, cards, llm);
      }
    }
  }

  /** What one more completed step in front does to a run's outcome. */
  lemma ExtendOutcome(rest: RunOutcome, next: seq<Card>, cards: seq<Card>)
    requires !rest.StepLimitReached?
    requires |cards| + 1 == |next| && next[..|cards|] == cards
    requires |rest.cards| >= |next| && rest.cards[..|next|] == next
    ensures OneMoreStep(rest).cards == rest.cards && OneMoreStep(rest).steps == rest.steps + 1
    ensures OneMoreStep(rest).Ended? == rest.Ended?
    ensures rest.NodeRaised? ==> OneMoreStep(rest).NodeRaised? && OneMoreStep(rest).error == rest.error
    ensures rest.cards[..|cards|] == cards
  {
    assert rest.cards[..|cards|] == rest.cards[..|next|][..|cards|];
  }

  lemma {:induction false} GraphReachesEnd(concept: Concept, node: seq<Card> -> Result<seq<Card>, StepError>, cards: seq<Card>, limit: nat)
    requires FillsOneTarget(concept.cardDistribution, node)
    requires Deficit(concept.cardDistribution, cards) >= StepsToEnd(concept, cards)
    requires limit >= StepsToEnd(concept, cards)
    ensures var out := RunGraph(concept, node, cards, limit);
      && out.Ended?
      && out.steps == StepsToEnd(concept, cards)
      && |out.cards| == |cards| + StepsToEnd(concept, cards)
      && out.cards[..|cards|] == cards
    decreases limit
  {
    var next := node(cards).value;
    if ShouldContinue(next, concept) == GenerateCards {
      assert StepsToEnd(concept, next) == StepsToEnd(concept, cards) - 1;
      GraphReachesEnd(concept, node, next, limit - 1);
      ExtendOutcome(RunGraph(concept, node, next, limit - 1), next, cards);
    }
  }

  lemma {:induction false} GraphRaisesFirst(concept: Concept, node: seq<Card> -> Result<seq<Card>, StepError>, cards: seq<Card>, limit: nat)
    requires FillsOneTarget(concept.cardDistribution, node)
    requires Deficit(concept.cardDistribution, cards) < StepsToEnd(concept, cards)
    requires limit > Deficit(concept.cardDistribution, cards)
    ensures var out := RunGraph(concept, node, cards, limit);
      && out == NodeRaised(out.cards, Deficit(concept.cardDistribution, cards), NoRemainingType)
      && |out.cards| == |cards| + Deficit(concept.cardDistribution, cards)
      && out.cards[..|cards|] == cards
    decreases limit
  {
    if Deficit(concept.cardDistribution, cards) > 0 {
      var next := node(cards).value;
      assert ShouldContinue(next, concept) == GenerateCards;
      GraphRaisesFirst(concept, node, next, limit - 1);
      ExtendOutcome(RunGraph(concept, node, next, limit - 1), next, cards);
    }
  }

  /**
   * With a model that always obeys and enough remaining targets, the loop
   * ends after exactly `StepsToEnd` steps, each adding one card at the end.
   */
  lemma RunReachesEnd(concept: Concept, cards: seq<Card>, llm: CardModel, limit: nat)
    requires DistinctKeys(concept.cardDistribution) && Obedient(llm)
    requires Deficit(concept.cardDistribution, cards) >= StepsToEnd(concept, cards)
    requires limit >= StepsToEnd(concept, cards)
    ensures var out := Run(concept, cards, llm, limit);
      && out.Ended?
      && out.steps == StepsToEnd(concept, cards)
      && |out.cards| == |cards| + StepsToEnd(concept, cards)
      && out.cards[..|cards|] == cards
  {
    ObedientNodeFillsOneTarget(concept, llm);
    GraphReachesEnd(concept, CardNode(concept, llm), cards, limit);
  }

  /**
   * With a model that always obeys but fewer remaining targets than steps
   * needed, the selector raises once every remaining target is filled.
   */
  lemma RunRaisesFirst(concept: Concept, cards: seq<Card>, llm: CardModel, limit: nat)
    requires DistinctKeys(concept.cardDistribution) && Obedient(llm)
    requires Deficit(concept.cardDistribution, cards) < StepsToEnd(concept, cards)
    requires limit > Deficit(concept.cardDistribution, cards)
    ensures var out := Run(concept, cards, llm, limit);
      && out == NodeRaised(out.cards, Deficit(concept.cardDistribution, cards), NoRemainingType)
      && |out.cards| == |cards| + Deficit(concept.cardDistribution, cards)
      && out.cards[..|cards|] == cards
  {
    ObedientNodeFillsOneTarget(concept, llm);
    GraphRaisesFirst(concept, CardNode(concept, llm), cards, limit);
  }

  /**
   * A model that always returns nothing leaves the card list as it is, so
   * the loop runs until the step limit without ever ending.
   */
  lemma {:induction false} SilentModelNeverEnds(concept: Concept, cards: seq<Card>, llm: CardModel, limit: nat)
    requires forall ctx :: llm(ctx) == Returned(None)
    requires |cards| < concept.numberOfUniqueCards
    requires NextCardType(concept.cardDistribution, cards).Some?
    ensures Run(concept, cards, llm, limit) == StepLimitReached(cards)
  {
    if limit > 0 {
      SilentModelNeverEnds(concept, cards, llm, limit - 1);
      assert CardNode(concept, llm)(cards) == Success(cards);
    }
  }

  /**
   * A model call that raises ends the run at once: the exception leaves
   * the node and the graph, with the cards as they were.
   */
  lemma RaisingModelEndsRun(concept: Concept, cards: seq<Card>, llm: CardModel, limit: nat)
    requires limit > 0
    requires NextCardType(concept.cardDistribution, cards).Some?
    requires llm(PrepareContext(concept, cards, NextCardType(concept.cardDistribution, cards).value)).Raised?
    ensures Run(concept, cards, llm, limit) == NodeRaised(cards, 0, ModelRaised)
  {
  }
}
