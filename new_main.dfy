/**
 * The single-file pipeline: the concept, rules and card nodes of its graph.
 * Each node builds the lists of "required" and "optional" field entries it
 * puts in its prompt, asks the model, and writes the reply to the state.
 * The prompt text around the lists and the model itself are not modelled:
 * the model is a function of the prompt's parts that returns nothing when
 * the call raises.
 */
module NewMain {
  import opened Common
  import opened Models
  import CardAgent

  /** `list.remove`: drop the first occurrence of `x`. */
  function Remove<T(==)>(s: seq<T>, x: T): (r: seq<T>)
    requires x in s
    ensures |r| == |s| - 1
  {
    if s[0] == x then s[1..]
    else
      assert x in s[1..];
      [s[0]] + Remove(s[1..], x)
  }

  /**
   * `Remove` cuts out exactly the first occurrence of `x`: what precedes it
   * and what follows it are kept in order.
   */
  lemma {:induction false} RemoveCutsFirst<T>(s: seq<T>, x: T, i: nat)
    requires i < |s| && s[i] == x && x !in s[..i]
    ensures Remove(s, x) == s[..i] + s[i + 1..]
  {
    if i > 0 {
      assert s[0] == s[..i][0];
      var t := s[1..];
      assert t[..i - 1] == s[1..i];
      assert x !in t[..i - 1];
      RemoveCutsFirst(t, x, i - 1);
      assert s[..i] == [s[0]] + t[..i - 1];
      assert s[i + 1..] == t[i..];
    }
  }

  /** `Remove` leaves one `x` fewer and every other element as often as before. */
  lemma {:induction false} RemoveDropsOne<T>(s: seq<T>, x: T)
    requires x in s
    ensures multiset(Remove(s, x)) + multiset{x} == multiset(s)
  {
    assert s == [s[0]] + s[1..];
    if s[0] != x {
      RemoveDropsOne(s[1..], x);
    }
  }

  /**
   * One line of a prompt's field lists; `Text` gives the line it stands for.
   * Lists are searched and compared by entry.  Every `remove` targets an
   * optional list, which holds only fixed lines with distinct texts
   * (`OptionalLinesHaveDistinctTexts`), so comparing entries and comparing
   * texts pick the same line.
   */
  datatype Entry =
    // concept
    | Theme | Title | Description | GameStyle | Players | UniqueCards
    | Audience | Complexity | Distribution
    | ThemeMust(theme: string) | GameStyleMust(style: string)
    | AudienceMust(audience: string) | ComplexityMust(complexity: string)
    // rules
    | Setup | TurnStructure | WinConditions | SpecialRulesOptional | SpecialRulesRequired
    // cards
    | Name | TypeMust(cardType: string) | Effect | Field(field: CardField)

  /** The card fields that may move from optional to required. */
  datatype CardField = Cost | FlavorText | Rarity | Interactions

  /** The prompt line an entry stands for. */
  function Text(e: Entry): string
  {
    match e
    case Theme => "theme: The central theme of the game"
    case Title => "title: A catchy, thematic title"
    case Description => "description: A brief but clear description of the game"
    case GameStyle => "game_style: The core gameplay style (e.g., competitive, cooperative)"
    case Players => "number_of_players: The recommended number of players"
    case UniqueCards => "number_of_unique_cards: Total number of unique cards needed for the game"
    case Audience => AudienceLine
    case Complexity => ComplexityLine
    case Distribution => DistributionLine
    case ThemeMust(t) => "theme: Must be related to the user's selected theme: " + t
    case GameStyleMust(s) => "game_style: Must match user's preference: " + s
    case AudienceMust(a) => "target_audience: Must be: " + a
    case ComplexityMust(c) => "rule_complexity: Must be: " + c
    case Setup => "setup: Detailed setup instructions considering the game's theme and components"
    case TurnStructure => "turn_structure: Clear explanation of how players take turns and interact with cards"
    case WinConditions => "win_conditions: Specific conditions for winning the game"
    case SpecialRulesOptional => "special_rules: Any unique mechanics or interactions between cards"
    case SpecialRulesRequired => "special_rules: Required special mechanics based on card interactions"
    case Name => "name: Card name"
    case TypeMust(t) => "type: Must be '" + t + "'"
    case Effect => "effect: Card's game effect"
    case Field(Cost) => CostLine
    case Field(FlavorText) => FlavorTextLine
    case Field(Rarity) => RarityLine
    case Field(Interactions) => InteractionsLine
  }

  /** The texts of the fixed lines that an optional list may hold. */
  const AudienceLine := "target_audience: Age group or specific audience"
  const ComplexityLine := "rule_complexity: Complexity level of the rules"
  const DistributionLine := "card_distribution: Types of cards and their quantities"
  const CostLine := "cost: Resource cost to play the card"
  const FlavorTextLine := "flavor_text: Thematic description"
  const RarityLine := "rarity: Card rarity (Common, Uncommon, Rare, etc.)"
  const InteractionsLine := "interactions: Interactions with other cards/mechanics"

  /** The fixed lines that an optional list may hold, and that `remove` targets. */
  predicate OptionalLine(e: Entry)
  {
    e.Audience? || e.Complexity? || e.Distribution? || e.Field?
  }

  /** The lengths of the optional lines' texts. */
  function LineLength(e: Entry): nat
  {
    match e
    case Audience => 47
    case Complexity => 46
    case Distribution => 54
    case Field(Cost) => 36
    case Field(FlavorText) => 33
    case Field(Rarity) => 50
    case Field(Interactions) => 53
    case _ => 0
  }

  /** Each optional line's text has the length `LineLength` records. */
  lemma OptionalLineLength(e: Entry)
    requires OptionalLine(e)
    ensures |Text(e)| == LineLength(e)
  {
    match e
    case Audience =>
    case Complexity =>
    case Distribution =>
    case Field(Cost) =>
    case Field(FlavorText) =>
    case Field(Rarity) =>
    case Field(Interactions) =>
  }

  /** No two optional lines have texts of the same length. */
  lemma LineLengthInjective(e: Entry, x: Entry)
    requires OptionalLine(e) && OptionalLine(x) && e != x
    ensures LineLength(e) != LineLength(x)
  {
  }

  /** Distinct optional lines have distinct texts, so removing by entry is removing by text. */
  lemma OptionalLinesHaveDistinctTexts(e: Entry, x: Entry)
    requires OptionalLine(e) && OptionalLine(x) && e != x
    ensures Text(e) != Text(x)
  {
    OptionalLineLength(e);
    OptionalLineLength(x);
    LineLengthInjective(e, x);
  }

  // ---------------------------------------------------------------- concept

  /**
   * The concept prompt's field lists, stated declaratively: the six base
   * entries (theme and game style pinned when preferred), then one pinned
   * entry per truthy audience or complexity preference, which leaves the
   * optional list in exchange.
   */
  function ConceptFields(p: Preferences): (seq<Entry>, seq<Entry>)
  {
    (ConceptBase(p)
       + (if Truthy(p.targetAudience) then [AudienceMust(p.targetAudience.value)] else [])
       + (if Truthy(p.ruleComplexity) then [ComplexityMust(p.ruleComplexity.value)] else []),
     (if Truthy(p.targetAudience) then [] else [Audience])
       + (if Truthy(p.ruleComplexity) then [] else [Complexity])
       + [Distribution])
  }

  /** The six entries every concept prompt requires, theme and game style pinned when preferred. */
  function ConceptBase(p: Preferences): seq<Entry>
  {
    var theme := if Truthy(p.theme) then ThemeMust(p.theme.value) else Theme;
    var style := if Truthy(p.gameStyle) then GameStyleMust(p.gameStyle.value) else GameStyle;
    [theme, Title, Description, style, Players, UniqueCards]
  }

  /**
   * The concept lists always hold nine entries; the audience and complexity
   * entries are optional exactly when their preference is not truthy, and
   * are pinned in the required list exactly when it is.
   */
  lemma ConceptFieldsBookkeeping(p: Preferences)
    ensures var (required, optional) := ConceptFields(p);
      && |required| + |optional| == 9
      && 6 <= |required| <= 8
      && required[1..3] == [Title, Description]
      && required[4..6] == [Players, UniqueCards]
      && (Audience in optional <==> !Truthy(p.targetAudience))
      && (Complexity in optional <==> !Truthy(p.ruleComplexity))
      && Distribution in optional
      && (Truthy(p.targetAudience) <==> exists i :: 6 <= i < |required| && required[i].AudienceMust?)
      && (Truthy(p.ruleComplexity) <==> exists i :: 6 <= i < |required| && required[i].ComplexityMust?)
      && (Truthy(p.targetAudience) ==> AudienceMust(p.targetAudience.value) in required[6..])
      && (Truthy(p.ruleComplexity) ==> ComplexityMust(p.ruleComplexity.value) in required[6..])
  {
    var (required, optional) := ConceptFields(p);
    if Truthy(p.targetAudience) {
      assert required[6].AudienceMust?;
    }
    if Truthy(p.ruleComplexity) {
      assert required[|required| - 1].ComplexityMust?;
    }
  }

  /** The list-building in `ConceptGenerationAgent.generate_concept`: index assignment, `append` and `remove`. */
  method ConceptFieldLists(p: Preferences) returns (required: seq<Entry>, optional: seq<Entry>)
    ensures required == ConceptFields(p).0 && optional == ConceptFields(p).1
  {
    required := [Theme, Title, Description, GameStyle, Players, UniqueCards];
    optional := [Audience, Complexity, Distribution];
    if Truthy(p.theme) {
      required := required[0 := ThemeMust(p.theme.value)];
    }
    if Truthy(p.gameStyle) {
      required := required[3 := GameStyleMust(p.gameStyle.value)];
    }
    ghost var base := required;
    assert base == ConceptBase(p) by {
      forall i | 0 <= i < 6 ensures base[i] == ConceptBase(p)[i] {
      }
    }
    ghost var audience: seq<Entry> := [];
    if Truthy(p.targetAudience) {
      required := required + [AudienceMust(p.targetAudience.value)];
      audience := [AudienceMust(p.targetAudience.value)];
      assert optional[0] == Audience && optional[1..] == [Complexity, Distribution];
      optional := Remove(optional, Audience);
    }
    assert required == base + audience;
    assert optional == (if Truthy(p.targetAudience) then [] else [Audience]) + [Complexity, Distribution];
    ghost var complexity: seq<Entry> := [];
    if Truthy(p.ruleComplexity) {
      required := required + [ComplexityMust(p.ruleComplexity.value)];
      complexity := [ComplexityMust(p.ruleComplexity.value)];
      ComplexityRemoved(optional);
      optional := Remove(optional, Complexity);
      assert optional == if Truthy(p.targetAudience) then [Distribution] else [Audience, Distribution];
    }
    assert audience == (if Truthy(p.targetAudience) then [AudienceMust(p.targetAudience.value)] else []);
    assert complexity == (if Truthy(p.ruleComplexity) then [ComplexityMust(p.ruleComplexity.value)] else []);
    assert required == base + audience + complexity == ConceptFields(p).0;
    ConceptOptionalCases(p);
  }

  /** The optional concept list in each of the four cases. */
  lemma ConceptOptionalCases(p: Preferences)
    ensures var ta, rc := Truthy(p.targetAudience), Truthy(p.ruleComplexity);
      ConceptFields(p).1
        == if ta && rc then [Distribution]
           else if ta then [Complexity, Distribution]
           else if rc then [Audience, Distribution]
           else [Audience, Complexity, Distribution]
  {
  }

  /** Removing the complexity entry from the optional concept list, with or without the audience entry. */
  lemma ComplexityRemoved(optional: seq<Entry>)
    requires optional == [Complexity, Distribution] || optional == [Audience, Complexity, Distribution]
    ensures Complexity in optional
    ensures Remove(optional, Complexity) == optional[..|optional| - 2] + [Distribution]
  {
    if optional == [Complexity, Distribution] {
      assert optional[1..] == [Distribution];
    } else {
      assert optional[1..] == [Complexity, Distribution];
      assert optional[1..][1..] == [Distribution];
      assert Remove(optional, Complexity) == [Audience] + Remove(optional[1..], Complexity);
    }
  }

  /**
   * The override after the concept call: audience, game style, player
   * count, unique-card count (from the maximum) and rule complexity, each
   * taken from a truthy preference.
   */
  function PreferenceOverrides(c: Concept, p: Preferences): (r: Concept)
    ensures Truthy(p.targetAudience) ==> r.targetAudience == p.targetAudience
    ensures !Truthy(p.targetAudience) ==> r.targetAudience == c.targetAudience
    ensures Truthy(p.gameStyle) ==> r.gameStyle == p.gameStyle.value
    ensures !Truthy(p.gameStyle) ==> r.gameStyle == c.gameStyle
    ensures Truthy(p.numberOfPlayers) ==> r.numberOfPlayers == p.numberOfPlayers.value
    ensures !Truthy(p.numberOfPlayers) ==> r.numberOfPlayers == c.numberOfPlayers
    ensures TruthyInt(p.maxUniqueCards) ==> r.numberOfUniqueCards == p.maxUniqueCards.value
    ensures !TruthyInt(p.maxUniqueCards) ==> r.numberOfUniqueCards == c.numberOfUniqueCards
    ensures Truthy(p.ruleComplexity) ==> r.ruleComplexity == p.ruleComplexity
    ensures !Truthy(p.ruleComplexity) ==> r.ruleComplexity == c.ruleComplexity
    ensures r.(targetAudience := c.targetAudience, gameStyle := c.gameStyle, numberOfPlayers := c.numberOfPlayers,
               numberOfUniqueCards := c.numberOfUniqueCards, ruleComplexity := c.ruleComplexity) == c
  {
    c.(targetAudience := if Truthy(p.targetAudience) then p.targetAudience else c.targetAudience,
       gameStyle := if Truthy(p.gameStyle) then p.gameStyle.value else c.gameStyle,
       numberOfPlayers := if Truthy(p.numberOfPlayers) then p.numberOfPlayers.value else c.numberOfPlayers,
       numberOfUniqueCards := if TruthyInt(p.maxUniqueCards) then p.maxUniqueCards.value else c.numberOfUniqueCards,
       ruleComplexity := if Truthy(p.ruleComplexity) then p.ruleComplexity else c.ruleComplexity)
  }

  /** Applying the override twice with the same preferences is applying it once. */
  lemma PreferenceOverridesIdempotent(c: Concept, p: Preferences)
    ensures PreferenceOverrides(PreferenceOverrides(c, p), p) == PreferenceOverrides(c, p)
  {
  }

  /** The five guarded field assignments, in source order. */
  method ApplyPreferenceOverrides(concept: Concept, p: Preferences) returns (c: Concept)
    ensures c == PreferenceOverrides(concept, p)
  {
    c := concept;
    if Truthy(p.targetAudience) {
      c := c.(targetAudience := p.targetAudience);
    }
    if Truthy(p.gameStyle) {
      c := c.(gameStyle := p.gameStyle.value);
    }
    if Truthy(p.numberOfPlayers) {
      c := c.(numberOfPlayers := p.numberOfPlayers.value);
    }
    if TruthyInt(p.maxUniqueCards) {
      c := c.(numberOfUniqueCards := p.maxUniqueCards.value);
    }
    if Truthy(p.ruleComplexity) {
      c := c.(ruleComplexity := p.ruleComplexity);
    }
  }

  /** Why a node of this pipeline raised. */
  datatype NodeError = MissingConcept | NoRuleComplexity | NoRemainingType | ModelRaised

  /** The parts of the concept prompt that vary. */
  datatype ConceptPrompt = ConceptPrompt(preferences: Preferences, required: seq<Entry>, optional: seq<Entry>)

  /**
   * `ConceptGenerationAgent.generate_concept`: a raising model call leaves
   * the state as it was; otherwise the overridden reply becomes the concept.
   */
  method GenerateConcept(state: CardGameState, llm: ConceptPrompt -> Option<Concept>) returns (r: Result<(), NodeError>)
    modifies state`concept
    ensures var (required, optional) := ConceptFields(state.preferences);
      var reply := llm(ConceptPrompt(state.preferences, required, optional));
      && (reply.None? ==> r == Failure(ModelRaised) && state.concept == old(state.concept))
      && (reply.Some? ==> r == Success(()) && state.concept == Some(PreferenceOverrides(reply.value, state.preferences)))
  {
    var prefs := state.preferences;
    var required, optional := ConceptFieldLists(prefs);
    var reply := llm(ConceptPrompt(prefs, required, optional));
    if reply.None? {
      return Failure(ModelRaised);
    }
    var concept := ApplyPreferenceOverrides(reply.value, prefs);
    state.concept := Some(concept);
    r := Success(());
  }

  // ------------------------------------------------------------------ rules


  /** Whether a rule complexity, lower-cased, is one of the three that demand special rules. */
  predicate DemandsSpecialRules(complexity: string)
  {
    Lower(complexity) in ["medium", "hard", "complex"]
  }

  /** The demanding complexities are recognised whatever the case of their letters. */
  lemma DemandsSpecialRulesIgnoresCase(a: string, b: string)
    requires |a| == |b|
    requires forall i :: 0 <= i < |a| ==> SameUpToCase(a[i], b[i])
    ensures DemandsSpecialRules(a) <==> DemandsSpecialRules(b)
  {
    LowerIgnoresCase(a, b);
  }

  /**
   * Every spelling of "medium", "hard" or "complex" in any mix of upper and
   * lower case demands special rules ("MEDIUM", "Hard", "cOmPlEx", ...).
   */
  lemma CaseVariantsDemandSpecialRules(complexity: string, word: string)
    requires word == "medium" || word == "hard" || word == "complex"
    requires |complexity| == |word|
    requires forall i :: 0 <= i < |word| ==> SameUpToCase(complexity[i], word[i])
    ensures DemandsSpecialRules(complexity)
  {
    LowerKeepsLowerCase(word);
    LowerIgnoresCase(complexity, word);
  }

  /** The interactive prompt's default complexity, "Medio", does not demand special rules. */
  lemma DefaultComplexityKeepsSpecialRulesOptional()
    ensures !DemandsSpecialRules("Medio")
  {
    assert Lower("Medio") == "medio" by {
      assert Lower("medio") == "medio" by { LowerKeepsLowerCase("medio"); }
      LowerIgnoresCase("Medio", "medio");
    }
  }

  /**
   * The rules prompt's field lists, stated declaratively: the three base
   * sections, and one special-rules entry in the list the complexity picks;
   * a missing complexity raises.
   */
  function RulesFields(concept: Concept): Result<(seq<Entry>, seq<Entry>), NodeError>
  {
    match concept.ruleComplexity
    case None => Failure(NoRuleComplexity)
    case Some(rc) =>
      if DemandsSpecialRules(rc) then Success(([Setup, TurnStructure, WinConditions, SpecialRulesRequired], []))
      else Success(([Setup, TurnStructure, WinConditions], [SpecialRulesOptional]))
  }

  /**
   * Exactly one of the two lists receives a special-rules entry: the
   * required one iff the complexity demands it.
   */
  lemma RulesFieldsPlacement(concept: Concept)
    ensures RulesFields(concept).Failure? <==> concept.ruleComplexity.None?
    ensures RulesFields(concept).Success? ==>
      var (required, optional) := RulesFields(concept).value;
      var demanded := DemandsSpecialRules(concept.ruleComplexity.value);
      && |required| + |optional| == 4
      && required[..3] == [Setup, TurnStructure, WinConditions]
      && (SpecialRulesRequired in required <==> demanded)
      && (SpecialRulesOptional in optional <==> !demanded)
      && SpecialRulesRequired !in optional && SpecialRulesOptional !in required
  {
  }

  /** The list-building in `RuleGenerationAgent.generate_rules`. */
  method RuleFieldLists(concept: Concept) returns (r: Result<(seq<Entry>, seq<Entry>), NodeError>)
    ensures r == RulesFields(concept)
  {
    var required := [Setup, TurnStructure, WinConditions];
    var optional := [];
    if concept.ruleComplexity.None? {
      return Failure(NoRuleComplexity);
    }
    var requiresSpecialRules := DemandsSpecialRules(concept.ruleComplexity.value);
    if !requiresSpecialRules {
      optional := optional + [SpecialRulesOptional];
      assert optional == RulesFields(concept).value.1;
    } else {
      required := required + [SpecialRulesRequired];
      assert required == RulesFields(concept).value.0;
    }
    r := Success((required, optional));
  }

  /** The parts of the rules prompt that vary. */
  datatype RulesPrompt = RulesPrompt(concept: Concept, preferences: Preferences, required: seq<Entry>, optional: seq<Entry>)

  /**
   * `RuleGenerationAgent.generate_rules`: raises without a concept, without
   * a rule complexity, or when the model call raises; otherwise stores the
   * reply as the rules.
   */
  method GenerateRules(state: CardGameState, llm: RulesPrompt -> Option<Rules>) returns (r: Result<(), NodeError>)
    modifies state`rules
    ensures state.concept.None? ==> r == Failure(MissingConcept) && state.rules == old(state.rules)
    ensures state.concept.Some? && RulesFields(state.concept.value).Failure? ==>
      r == Failure(NoRuleComplexity) && state.rules == old(state.rules)
    ensures state.concept.Some? && RulesFields(state.concept.value).Success? ==>
      var (required, optional) := RulesFields(state.concept.value).value;
      var reply := llm(RulesPrompt(state.concept.value, state.preferences, required, optional));
      && (reply.None? ==> r == Failure(ModelRaised) && state.rules == old(state.rules))
      && (reply.Some? ==> r == Success(()) && state.rules == reply)
  {
    if state.concept.None? {
      return Failure(MissingConcept);
    }
    var concept := state.concept.value;
    var lists := RuleFieldLists(concept);
    if lists.Failure? {
      return Failure(lists.error);
    }
    var (required, optional) := lists.value;
    var reply := llm(RulesPrompt(concept, state.preferences, required, optional));
    if reply.None? {
      return Failure(ModelRaised);
    }
    state.rules := reply;
    r := Success(());
  }

  // ------------------------------------------------------------------ cards


  function FieldValue(c: Card, f: CardField): Option<string>
  {
    match f
    case Cost => c.cost
    case FlavorText => c.flavorText
    case Rarity => c.rarity
    case Interactions => c.interactions
  }

  /** A field becomes required when there are cards and every one of them has it truthy. */
  predicate Promoted(existing: seq<Card>, f: CardField)
  {
    existing != [] && forall i :: 0 <= i < |existing| ==> Truthy(FieldValue(existing[i], f))
  }

  /** The fields every existing card has truthy (none when there are no cards). */
  function PromotedFields(existing: seq<Card>): set<CardField>
  {
    (if Promoted(existing, Cost) then {Cost} else {})
      + (if Promoted(existing, FlavorText) then {FlavorText} else {})
      + (if Promoted(existing, Rarity) then {Rarity} else {})
      + (if Promoted(existing, Interactions) then {Interactions} else {})
  }

  /** `PromotedFields` holds exactly the promoted fields. */
  lemma PromotedFieldsMembers(existing: seq<Card>)
    ensures forall f :: f in PromotedFields(existing) <==> Promoted(existing, f)
  {
    forall f ensures f in PromotedFields(existing) <==> Promoted(existing, f) {
      match f
      case Cost =>
      case FlavorText =>
      case Rarity =>
      case Interactions =>
    }
  }

  /** The entries of `fields`, in order, whose membership in `chosen` is `wanted`. */
  function EntriesWhere(fields: seq<CardField>, chosen: set<CardField>, wanted: bool): (r: seq<Entry>)
    ensures |r| <= |fields|
  {
    if fields == [] then []
    else
      (if (fields[0] in chosen) == wanted then [Field(fields[0])] else [])
        + EntriesWhere(fields[1..], chosen, wanted)
  }

  /** The order in which promoted fields are appended to the required list. */
  const PromotionOrder := [Cost, Rarity, FlavorText, Interactions]
  /** The order of the optional list before any promotion. */
  const OptionalOrder := [Cost, FlavorText, Rarity, Interactions]

  /**
   * The card prompt's field lists, stated declaratively: name, the pinned
   * type and effect, then the promoted fields in the order cost, rarity,
   * flavor text, interactions; the optional list keeps the others in its
   * own order.
   */
  function CardFields(nextType: string, existing: seq<Card>): (seq<Entry>, seq<Entry>)
  {
    var promoted := PromotedFields(existing);
    ([Name, TypeMust(nextType), Effect] + EntriesWhere(PromotionOrder, promoted, true),
     EntriesWhere(OptionalOrder, promoted, false))
  }

  /**
   * Both optional lists hold only optional lines, so every `remove` on them
   * finds the same line by entry as by text (`OptionalLinesHaveDistinctTexts`).
   */
  lemma OptionalListsHoldOptionalLines(p: Preferences, nextType: string, existing: seq<Card>)
    ensures forall e :: e in ConceptFields(p).1 ==> OptionalLine(e)
    ensures forall e :: e in CardFields(nextType, existing).1 ==> OptionalLine(e)
  {
    EntriesWhereFields(OptionalOrder, PromotedFields(existing), false);
  }

  /** A selection of fields holds only field entries. */
  lemma {:induction false} EntriesWhereFields(fields: seq<CardField>, chosen: set<CardField>, wanted: bool)
    ensures forall e :: e in EntriesWhere(fields, chosen, wanted) ==> e.Field?
  {
    if fields != [] {
      EntriesWhereFields(fields[1..], chosen, wanted);
    }
  }

  /** A field's entry is selected exactly when the field is listed and its membership is the wanted one. */
  lemma {:induction false} EntriesWhereMembers(fields: seq<CardField>, chosen: set<CardField>, wanted: bool)
    ensures forall f :: Field(f) in EntriesWhere(fields, chosen, wanted) <==> f in fields && (f in chosen) == wanted
  {
    if fields != [] {
      EntriesWhereMembers(fields[1..], chosen, wanted);
      assert fields == [fields[0]] + fields[1..];
    }
  }

  /** Selecting from a list with one more field at the end. */
  lemma {:induction false} EntriesSnoc(fields: seq<CardField>, g: CardField, chosen: set<CardField>, wanted: bool)
    ensures EntriesWhere(fields + [g], chosen, wanted)
         == EntriesWhere(fields, chosen, wanted) + (if (g in chosen) == wanted then [Field(g)] else [])
  {
    if fields == [] {
      assert fields + [g] == [g];
    } else {
      assert (fields + [g])[1..] == fields[1..] + [g];
      EntriesSnoc(fields[1..], g, chosen, wanted);
    }
  }

  /** Choosing a field that is not listed does not change a selection. */
  lemma {:induction false} EntriesIgnoreUnlisted(fields: seq<CardField>, chosen: set<CardField>, g: CardField, wanted: bool)
    requires g !in fields
    ensures EntriesWhere(fields, chosen, wanted) == EntriesWhere(fields, chosen + {g}, wanted)
  {
    if fields != [] {
      EntriesIgnoreUnlisted(fields[1..], chosen, g, wanted);
    }
  }

  /** Every field of a list lands in exactly one of the two selections. */
  lemma {:induction false} EntriesSplit(fields: seq<CardField>, chosen: set<CardField>)
    ensures |EntriesWhere(fields, chosen, true)| + |EntriesWhere(fields, chosen, false)| == |fields|
  {
    if fields != [] {
      EntriesSplit(fields[1..], chosen);
    }
  }

  /** How many fields are chosen does not depend on the order the four fields are listed in. */
  lemma ChosenCountIndependentOfOrder(chosen: set<CardField>)
    ensures |EntriesWhere(PromotionOrder, chosen, true)| == |EntriesWhere(OptionalOrder, chosen, true)|
  {
    var c := if Cost in chosen then 1 else 0;
    var f := if FlavorText in chosen then 1 else 0;
    var r := if Rarity in chosen then 1 else 0;
    var i := if Interactions in chosen then 1 else 0;
    assert [Interactions][1..] == [];
    assert |EntriesWhere([Interactions], chosen, true)| == i;
    assert [FlavorText, Interactions][1..] == [Interactions];
    assert |EntriesWhere([FlavorText, Interactions], chosen, true)| == f + i;
    assert [Rarity, Interactions][1..] == [Interactions];
    assert |EntriesWhere([Rarity, Interactions], chosen, true)| == r + i;
    assert [Rarity, FlavorText, Interactions][1..] == [FlavorText, Interactions];
    assert |EntriesWhere([Rarity, FlavorText, Interactions], chosen, true)| == r + f + i;
    assert [FlavorText, Rarity, Interactions][1..] == [Rarity, Interactions];
    assert |EntriesWhere([FlavorText, Rarity, Interactions], chosen, true)| == f + r + i;
    assert PromotionOrder[1..] == [Rarity, FlavorText, Interactions];
    assert OptionalOrder[1..] == [FlavorText, Rarity, Interactions];
  }

  /** The card lists begin with name, the pinned type and effect, and always hold seven entries. */
  lemma CardFieldsShape(nextType: string, existing: seq<Card>)
    ensures var (required, optional) := CardFields(nextType, existing);
      && |required| >= 3
      && required[..3] == [Name, TypeMust(nextType), Effect]
      && |required| + |optional| == 7
  {
    var promoted := PromotedFields(existing);
    EntriesSplit(OptionalOrder, promoted);
    ChosenCountIndependentOfOrder(promoted);
  }

  /** Without existing cards the lists are the base lists. */
  lemma CardFieldsWithoutCards(nextType: string)
    ensures CardFields(nextType, []).0 == [Name, TypeMust(nextType), Effect]
    ensures CardFields(nextType, []).1 == [Field(Cost), Field(FlavorText), Field(Rarity), Field(Interactions)]
  {
    PromotedFieldsMembers([]);
    var promoted := PromotedFields([]);
    assert promoted == {};
    EntriesWhereMembers(PromotionOrder, promoted, true);
    assert EntriesWhere(PromotionOrder, promoted, true) == [];
    assert [Interactions][1..] == [];
    assert EntriesWhere([Interactions], promoted, false) == [Field(Interactions)];
    assert [Rarity, Interactions][1..] == [Interactions];
    assert EntriesWhere([Rarity, Interactions], promoted, false) == [Field(Rarity), Field(Interactions)];
    assert OptionalOrder[1..] == [FlavorText, Rarity, Interactions];
    assert [FlavorText, Rarity, Interactions][1..] == [Rarity, Interactions];
    assert EntriesWhere(OptionalOrder[1..], promoted, false) == [Field(FlavorText), Field(Rarity), Field(Interactions)];
  }

  /**
   * Each promotable field is in the required list exactly when every
   * existing card has it truthy, and in the optional list otherwise.
   */
  lemma CardFieldsPlacement(nextType: string, existing: seq<Card>)
    ensures var (required, optional) := CardFields(nextType, existing);
      && (forall f :: Field(f) in required <==> Promoted(existing, f))
      && (forall f :: Field(f) in optional <==> !Promoted(existing, f))
  {
    var promoted := PromotedFields(existing);
    var (required, optional) := CardFields(nextType, existing);
    PromotedFieldsMembers(existing);
    EntriesWhereMembers(PromotionOrder, promoted, true);
    EntriesWhereMembers(OptionalOrder, promoted, false);
    forall f
      ensures Field(f) in required <==> Promoted(existing, f)
      ensures Field(f) in optional <==> !Promoted(existing, f)
    {
      assert f in PromotionOrder && f in OptionalOrder by {
        match f
        case Cost =>
        case FlavorText =>
        case Rarity =>
        case Interactions =>
      }
      assert Field(f) !in [Name, TypeMust(nextType), Effect];
    }
  }

  /**
   * `list.remove` of a field still in an optional list leaves the list with
   * that field also counted as removed.
   */
  lemma {:induction false} RemoveFromEntries(fields: seq<CardField>, removed: set<CardField>, g: CardField)
    requires forall i, j :: 0 <= i < j < |fields| ==> fields[i] != fields[j]
    requires g in fields && g !in removed
    ensures Field(g) in EntriesWhere(fields, removed, false)
    ensures Remove(EntriesWhere(fields, removed, false), Field(g)) == EntriesWhere(fields, removed + {g}, false)
  {
    var f0, rest := fields[0], fields[1..];
    var before := EntriesWhere(fields, removed, false);
    var tail := EntriesWhere(rest, removed, false);
    if f0 == g {
      assert g !in rest by {
        forall k | 0 <= k < |rest| ensures rest[k] != g {
          assert rest[k] == fields[k + 1];
        }
      }
      assert before == [Field(g)] + tail;
      assert Remove(before, Field(g)) == tail by {
        assert before[0] == Field(g);
        assert before[1..] == tail;
      }
      EntriesIgnoreUnlisted(rest, removed, g, false);
    } else {
      assert g in rest;
      assert forall i, j :: 0 <= i < j < |rest| ==> rest[i] != rest[j] by {
        forall i, j | 0 <= i < j < |rest| ensures rest[i] != rest[j] {
          assert rest[i] == fields[i + 1] && rest[j] == fields[j + 1];
        }
      }
      RemoveFromEntries(rest, removed, g);
      if f0 in removed {
        assert before == tail;
      } else {
        assert before == [Field(f0)] + tail;
        assert before[0] != Field(g);
        assert before[1..] == tail;
        assert Remove(before, Field(g)) == [Field(f0)] + Remove(tail, Field(g));
      }
    }
  }

  /**
   * Processing the promotion of the `k`-th field of `PromotionOrder` extends
   * the selection over the first `k` fields by that field's entry when it
   * was promoted.
   */
  lemma RequiredStep(k: nat, before: set<CardField>, after: set<CardField>)
    requires k < |PromotionOrder|
    requires forall f :: f in before ==> f in PromotionOrder[..k]
    requires after == before || after == before + {PromotionOrder[k]}
    ensures EntriesWhere(PromotionOrder[..k + 1], after, true)
         == EntriesWhere(PromotionOrder[..k], before, true)
            + (if PromotionOrder[k] in after then [Field(PromotionOrder[k])] else [])
  {
    var g := PromotionOrder[k];
    assert PromotionOrder[..k + 1] == PromotionOrder[..k] + [g];
    EntriesSnoc(PromotionOrder[..k], g, after, true);
    assert g !in PromotionOrder[..k];
    if after != before {
      EntriesIgnoreUnlisted(PromotionOrder[..k], before, g, true);
    }
  }

  /**
   * The card lists after the first `k` fields of `PromotionOrder` have been
   * considered: `moved` holds those of them that were promoted, the
   * optional list has lost exactly their entries and the required list has
   * gained them, in promotion order.
   */
  ghost predicate ConsideredFirst(k: nat, base: seq<Entry>, existing: seq<Card>,
                                  required: seq<Entry>, optional: seq<Entry>, moved: set<CardField>)
    requires k <= |PromotionOrder|
  {
    && (forall f :: f in moved <==> f in PromotionOrder[..k] && Promoted(existing, f))
    && optional == EntriesWhere(OptionalOrder, moved, false)
    && required == base + EntriesWhere(PromotionOrder[..k], moved, true)
  }

  /** Promoting the `k`-th field: its entry leaves the optional list and joins the required one. */
  lemma PromotedStep(k: nat, base: seq<Entry>, existing: seq<Card>,
                     required: seq<Entry>, optional: seq<Entry>, moved: set<CardField>)
    requires k < |PromotionOrder| && Promoted(existing, PromotionOrder[k])
    requires ConsideredFirst(k, base, existing, required, optional, moved)
    ensures Field(PromotionOrder[k]) in optional
    ensures ConsideredFirst(k + 1, base, existing, required + [Field(PromotionOrder[k])],
                            Remove(optional, Field(PromotionOrder[k])), moved + {PromotionOrder[k]})
  {
    var f := PromotionOrder[k];
    var moved' := moved + {f};
    assert PromotionOrder[..k + 1] == PromotionOrder[..k] + [f];
    assert forall g :: g in moved' <==> g in PromotionOrder[..k + 1] && Promoted(existing, g);
    RemoveFromEntries(OptionalOrder, moved, f);
    assert Remove(optional, Field(f)) == EntriesWhere(OptionalOrder, moved', false);
    RequiredStep(k, moved, moved');
    assert required + [Field(f)] == base + EntriesWhere(PromotionOrder[..k + 1], moved', true);
  }

  /** Keeping the `k`-th field optional leaves both lists as they are. */
  lemma KeptStep(k: nat, base: seq<Entry>, existing: seq<Card>,
                 required: seq<Entry>, optional: seq<Entry>, moved: set<CardField>)
    requires k < |PromotionOrder| && !Promoted(existing, PromotionOrder[k])
    requires ConsideredFirst(k, base, existing, required, optional, moved)
    ensures ConsideredFirst(k + 1, base, existing, required, optional, moved)
  {
    var f := PromotionOrder[k];
    assert PromotionOrder[..k + 1] == PromotionOrder[..k] + [f];
    assert forall g :: g in moved <==> g in PromotionOrder[..k + 1] && Promoted(existing, g);
    RequiredStep(k, moved, moved);
    assert required == base + EntriesWhere(PromotionOrder[..k + 1], moved, true);
  }

  /** One of the four promotion blocks: the `k`-th field moves when every existing card has it truthy. */
  method PromoteField(k: nat, base: seq<Entry>, existing: seq<Card>,
                      required: seq<Entry>, optional: seq<Entry>, ghost moved: set<CardField>)
    returns (required': seq<Entry>, optional': seq<Entry>, ghost moved': set<CardField>)
    requires k < |PromotionOrder|
    requires ConsideredFirst(k, base, existing, required, optional, moved)
    ensures ConsideredFirst(k + 1, base, existing, required', optional', moved')
  {
    var f := PromotionOrder[k];
    if Promoted(existing, f) {
      PromotedStep(k, base, existing, required, optional, moved);
      optional' := Remove(optional, Field(f));
      required' := required + [Field(f)];
      moved' := moved + {f};
    } else {
      KeptStep(k, base, existing, required, optional, moved);
      required', optional', moved' := required, optional, moved;
    }
  }

  /** Before any promotion: every optional field is still optional. */
  lemma NoneConsidered(base: seq<Entry>, existing: seq<Card>)
    ensures ConsideredFirst(0, base, existing, base,
                            [Field(Cost), Field(FlavorText), Field(Rarity), Field(Interactions)], {})
  {
    assert PromotionOrder[..0] == [];
    assert OptionalOrder[1..] == [FlavorText, Rarity, Interactions];
    assert OptionalOrder[2..] == [Rarity, Interactions];
    assert OptionalOrder[3..] == [Interactions];
  }

  /** Without existing cards nothing is promoted, so the lists stay as they started. */
  lemma NothingToPromote(base: seq<Entry>, optional: seq<Entry>)
    requires ConsideredFirst(0, base, [], base, optional, {})
    ensures ConsideredFirst(|PromotionOrder|, base, [], base, optional, {})
  {
    assert PromotionOrder[..|PromotionOrder|] == PromotionOrder;
    EntriesWhereMembers(PromotionOrder, {}, true);
    assert EntriesWhere(PromotionOrder, {}, true) == [];
  }

  /** Once all four fields are considered, the lists are those of `CardFields`. */
  lemma AllConsidered(nextType: string, existing: seq<Card>, required: seq<Entry>, optional: seq<Entry>, moved: set<CardField>)
    requires ConsideredFirst(|PromotionOrder|, [Name, TypeMust(nextType), Effect], existing, required, optional, moved)
    ensures required == CardFields(nextType, existing).0 && optional == CardFields(nextType, existing).1
  {
    assert PromotionOrder[..|PromotionOrder|] == PromotionOrder;
    PromotedFieldsMembers(existing);
    assert moved == PromotedFields(existing);
  }

  /** The list-building in `CardGenerationAgent.generate_card`: promote a field with `remove` then `append`. */
  method CardFieldLists(nextType: string, existing: seq<Card>) returns (required: seq<Entry>, optional: seq<Entry>)
    ensures required == CardFields(nextType, existing).0 && optional == CardFields(nextType, existing).1
  {
    var base := [Name, TypeMust(nextType), Effect];
    required := base;
    optional := [Field(Cost), Field(FlavorText), Field(Rarity), Field(Interactions)];
    ghost var moved: set<CardField> := {};
    NoneConsidered(base, existing);
    if existing != [] {
      required, optional, moved := PromoteField(0, base, existing, required, optional, moved);  // cost
      required, optional, moved := PromoteField(1, base, existing, required, optional, moved);  // rarity
      required, optional, moved := PromoteField(2, base, existing, required, optional, moved);  // flavor_text
      required, optional, moved := PromoteField(3, base, existing, required, optional, moved);  // interactions
    } else {
      NothingToPromote(base, optional);
    }
    AllConsidered(nextType, existing, required, optional, moved);
  }

  /** The parts of the card prompt that vary. */
  datatype CardPrompt = CardPrompt(
    concept: Concept,
    rules: Option<Rules>,
    nextType: string,
    required: seq<Entry>,
    optional: seq<Entry>,
    existing: seq<Card>)

  /**
   * `CardGenerationAgent.generate_card`: raises without a concept, when no
   * card type is still under target, or when the model call raises;
   * otherwise the reply is appended to the cards.
   */
  method GenerateCard(state: CardGameState, llm: CardPrompt -> Option<Card>) returns (r: Result<(), NodeError>)
    modifies state`cards
    ensures state.concept.None? ==> r == Failure(MissingConcept) && state.cards == old(state.cards)
    ensures state.concept.Some? && CardAgent.NextCardType(state.concept.value.cardDistribution, old(state.cards)).None? ==>
      r == Failure(NoRemainingType) && state.cards == old(state.cards)
    ensures state.concept.Some? && CardAgent.NextCardType(state.concept.value.cardDistribution, old(state.cards)).Some? ==>
      var next := CardAgent.NextCardType(state.concept.value.cardDistribution, old(state.cards)).value;
      var (required, optional) := CardFields(next, old(state.cards));
      var reply := llm(CardPrompt(state.concept.value, state.rules, next, required, optional, old(state.cards)));
      && (reply.None? ==> r == Failure(ModelRaised) && state.cards == old(state.cards))
      && (reply.Some? ==> r == Success(()) && state.cards == old(state.cards) + [reply.value])
  {
    if state.concept.None? {
      return Failure(MissingConcept);
    }
    var concept := state.concept.value;
    var existing := state.cards;
    var next := CardAgent.NextCardType(concept.cardDistribution, existing);
    if next.None? {
      return Failure(NoRemainingType);
    }
    var required, optional := CardFieldLists(next.value, existing);
    var reply := llm(CardPrompt(concept, state.rules, next.value, required, optional, existing));
    if reply.None? {
      return Failure(ModelRaised);
    }
    state.cards := state.cards + [reply.value];
    r := Success(());
  }
}
