/**
 * The records the agents and the API pass around: the user's preferences,
 * the generated concept, rules and cards, and the mutable state object the
 * agents update.  Only field names and optionality are kept; the prompt
 * descriptions attached to each field are not part of this model.
 */
module Models {
  import opened Common

  /** What the user asked for; every field may be missing or empty. */
  datatype Preferences = Preferences(
    language: Option<string>,
    theme: Option<string>,
    gameStyle: Option<string>,
    numberOfPlayers: Option<string>,
    maxUniqueCards: Option<int>,
    targetAudience: Option<string>,
    ruleComplexity: Option<string>)

  /**
   * The concept's `card_distribution`: the items of a dictionary from card
   * type to target count, in insertion order.
   */
  type Distribution = seq<(string, int)>

  /** A dictionary never holds the same key twice. */
  predicate DistinctKeys(d: Distribution)
  {
    forall i, j :: 0 <= i < j < |d| ==> d[i].0 != d[j].0
  }

  /** The keys of a distribution. */
  function Keys(d: Distribution): set<string>
  {
    set i | 0 <= i < |d| :: d[i].0
  }

  /** A generated game concept (the union of the fields both pipelines use). */
  datatype Concept = Concept(
    theme: string,
    title: string,
    description: string,
    language: string,
    gameStyle: string,
    gameDuration: string,
    numberOfPlayers: string,
    numberOfUniqueCards: int,
    cardDistribution: Distribution,
    numberOfTotalCards: int,
    cardActions: map<string, string>,
    targetAudience: Option<string>,
    ruleComplexity: Option<string>)

  /** Generated rules; their content is never inspected by the core. */
  datatype Rules = Rules(
    setup: string,
    turnStructure: string,
    winConditions: string,
    specialRules: Option<string>)

  /** One generated card: three required text fields and four optional ones. */
  datatype Card = Card(
    name: string,
    cardType: string,
    effect: string,
    cost: Option<string>,
    flavorText: Option<string>,
    rarity: Option<string>,
    interactions: Option<string>)

  /** The state object the agents receive and update in place. */
  class CardGameState {
    var preferences: Preferences
    var concept: Option<Concept>
    var rules: Option<Rules>
    var cards: seq<Card>

    constructor (prefs: Preferences)
      ensures preferences == prefs && concept == None && rules == None && cards == []
    {
      preferences := prefs;
      concept := None;
      rules := None;
      cards := [];
    }
  }
}
