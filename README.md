# Deck-Crafter core, modelled in Dafny

Deck-Crafter builds card games with a language model, in three steps:

1. a **concept** (theme, style, player count, how many unique cards, and a
   distribution from card type to target count);
2. **rules**;
3. **cards**, generated one at a time in a loop until enough exist.

The code is mostly glue, but it makes real decisions in a few places, and
this project models those:

- **Card-type selector** (`card_agent.py`, duplicated in `new_main.py`).
  It keeps the distribution entries still under target and picks the one
  with the largest target. Python's `max` keeps the first maximum, so ties
  go to the earliest entry. `max` raises when no entry remains.
  (`CardAgent`)
- **Context counters.** The per-type counts handed to the model.
  (`CardAgent.PrepareContext`)
- **The card step.** One card is appended when the model returns one.
  (`CardAgent.CardStep`, `CardAgent.GenerateCard`)
- **Stop condition and card loop** (`Conditions`).
  - `should_continue` asks for another card while fewer cards exist than
    the concept's unique-card count.
  - The cards graph enters at the card node (`specific_workflows.py:102-106`),
    so the loop is a do-while: the node always runs at least once. With a
    model that always obeys, the loop ends after exactly
    `StepsToEnd` = max(1, n − |cards|) steps.
  - When fewer cards remain to be filled than those steps, the selector
    raises first, after filling every remaining target.
  - A model call that raises ends the run with that exception, the cards
    as they were. A model that always returns nothing leaves the loop
    running until the step limit.
- **Game table and status machine** (`Routes`). The API keeps a table from
  game id to stored state.
  - `start_game` inserts a fresh `Created` record, after the preferences
    workflow when some preference is missing.
  - Each generation endpoint answers 404 for an unknown id and 400 for the
    wrong status. Otherwise it stores the workflow's output and advances the
    status one step: Created → ConceptGenerated → RulesGenerated →
    CardsGenerated.
  - The endpoints are a class (`Routes.GameTable`) whose methods are proved
    against the functions `StartGameCall` and `Handle`. Lemmas about those
    functions prove that the table stays well formed, that status only moves
    forward one step per accepted request, and that `CardsGenerated` is
    terminal.
- **Preference override** (`ConceptAgent`). Language, theme and rule
  complexity are replaced only by truthy preferences.
  - A failed generation has no None guard, so the first override that
    applies fails.
- **The single-file pipeline** (`NewMain`).
  - **Concept.** The required/optional field lists of the concept prompt.
    Its own override then replaces audience, style, players, unique-card
    count and complexity.
  - **Rules.** Where the `special_rules` entry goes: in the required list
    exactly when the lower-cased complexity is one of medium, hard or
    complex.
  - **Cards.** The required/optional field lists of the card prompt. A
    field moves to the required list when every existing card has it
    truthy.

  The lists are built step by step with `append`, `remove` and index
  assignment, as in the source. Each method is proved equal to a
  declarative description, and the bookkeeping (totals, which entry sits
  where) is proved about that description.

The language model and the workflows are given to the model as values.

- In the agents, a model call is a function from the prompt's varying
  parts to its outcome.
  - In `card_agent.py` the outcome is an `Invocation<Option<Card>>`: the
    call raised (`Raised`, which ends `generate_card` with the exception),
    returned nothing (`Returned(None)`, which leaves the cards), or
    returned a card.
  - In `new_main.py` it is an `Option`, and `None` means the call raised.
  - In `concept_agent.py` it is an `Option`, and `None` is a returned
    `None`, which is stored as the concept.
- In the API, a workflow invocation is an `Invocation` value: `Raised`, or
  `Returned(v)`.
- Game ids and timestamps are parameters.

`new_main.py` defaults the rule complexity to "Medio". That value is not in
the recognised list, so with the defaults `special_rules` stays optional
(`NewMain.DefaultComplexityKeepsSpecialRulesOptional`).

## Model

| member | source | states |
|---|---|---|
| Common.LowerChar | new_main.py:193 | `str.lower()` on one character: an ASCII capital becomes its lower-case letter, anything else stays, and the result is never a capital |
| Common.Lower | new_main.py:193 | `str.lower()` on ASCII: same length, each capital becomes its own lower-case letter, every other character stays, and no capital remains |
| Common.LowerIgnoresCase | new_main.py:193 | two strings that differ only in the case of letters lower-case to the same string |
| Common.LowerKeepsLowerCase | new_main.py:193 | a string with no capitals is its own lower-case form |
| Models.CardGameState.constructor | deck_crafter/models/state.py:16-24 | a fresh agent state holds the given preferences, no concept, no rules and no cards, as `new_main.py:418-424` starts the pipeline |
| CardAgent.CountOfType | deck_crafter/agents/card_agent.py:77 | the number of cards of a type never exceeds the number of cards |
| CardAgent.CountOfTypeAppend | deck_crafter/agents/card_agent.py:77 | appending a card raises its own type's count by one and no other |
| CardAgent.RemainingTypes | deck_crafter/agents/card_agent.py:74-78 | an entry is kept exactly when it is in the distribution and its type has fewer cards than its target |
| CardAgent.FirstMax | deck_crafter/agents/card_agent.py:80 | the result is one of the items and no item has a larger count |
| CardAgent.NextCardType | deck_crafter/agents/card_agent.py:64-81 | raises (None) exactly when every entry has reached its target; otherwise returns the key of an entry under target |
| CardAgent.SelectionIsUnique | deck_crafter/agents/card_agent.py:80 | at most one entry satisfies the selection rule (maximal target, ties to the earliest) |
| CardAgent.SelectionKept | deck_crafter/agents/card_agent.py:80 | a later entry that does not beat the current maximum leaves the selection as it was |
| CardAgent.SelectionLast | deck_crafter/agents/card_agent.py:80 | a later entry with a strictly larger target becomes the selection |
| CardAgent.OnlyRemainingIsSelection | deck_crafter/agents/card_agent.py:74-80 | the only entry under target is the one selected |
| CardAgent.AppendedRemainingSelection | deck_crafter/agents/card_agent.py:74-80 | `max` over the remaining items keeps the selection rule when one more entry under target is appended |
| CardAgent.FirstRemainingIsSelection | deck_crafter/agents/card_agent.py:74-80 | the first maximum of the remaining items is an entry satisfying the selection rule |
| CardAgent.NextCardTypeIsSelection | deck_crafter/agents/card_agent.py:74-80 | the selector's answer is exactly the entry under target with the largest target, ties going to the earliest, and None exactly when none is under target |
| CardAgent.RemainingDependsOnCountsOnly | deck_crafter/agents/card_agent.py:74-78 | two card lists with the same per-key counts leave the same remaining entries |
| CardAgent.ForeignCardIgnored | deck_crafter/agents/card_agent.py:77 | a card whose type is not a distribution key never changes the selected type |
| CardAgent.PrepareContext | deck_crafter/agents/card_agent.py:94-104 | `current_cards_by_type` has exactly the distribution's keys, each mapped to its count; `current_num_cards` is the number of cards; the next type and the plan pass through unchanged |
| CardAgent.KeyOccursAtMostOnce | deck_crafter/agents/card_agent.py:99-102 | with distinct keys a type occurs at most once among the keys, and once exactly when it is a key |
| CardAgent.SumCountsAppend | deck_crafter/agents/card_agent.py:99-102 | one more card adds its key's number of occurrences to the summed counts |
| CardAgent.SumCountsEmpty | deck_crafter/agents/card_agent.py:99-102 | with no cards every count is zero |
| CardAgent.SumCountsBounded | deck_crafter/agents/card_agent.py:99-102 | the per-type counts add up to at most the number of cards |
| CardAgent.SumAlongCounts | deck_crafter/agents/card_agent.py:99-102 | summing the context's map along the distribution gives the summed per-type counts |
| CardAgent.ContextCountsBounded | deck_crafter/agents/card_agent.py:96-102 | the context's per-type values add up to at most `current_num_cards` |
| CardAgent.DeficitZeroIffComplete | deck_crafter/agents/card_agent.py:74-78 | the total shortfall is zero exactly when no entry is under target |
| CardAgent.DeficitAppend | deck_crafter/agents/card_agent.py:77 | one more card lowers the shortfall by the number of incomplete entries with its type |
| CardAgent.IncompleteWithKeyBounds | deck_crafter/agents/card_agent.py:74-78 | with distinct keys an incomplete entry's key names exactly one incomplete entry |
| CardAgent.NoIncompleteWithAbsentKey | deck_crafter/agents/card_agent.py:74-78 | a type that is not a key names no incomplete entry |
| CardAgent.SelectedCardLowersDeficit | deck_crafter/agents/card_agent.py:53-60 | a card of the selected type lowers the total shortfall by exactly one |
| CardAgent.CardStep | deck_crafter/agents/card_agent.py:50-62 | the step raises in the selector exactly when no type is under target, and in the model call exactly when a type is selected and the call raises; otherwise the cards are unchanged or gain exactly one card at the end |
| CardAgent.GenerateCard | deck_crafter/agents/card_agent.py:43-62 | a missing concept, no remaining type, or a raising model call fails and leaves the cards; otherwise the model's card, if any, is appended and nothing else changes; the outcome is that of `CardStep` |
| Conditions.ShouldContinue | deck_crafter/workflow/conditions.py:5-15 | continue exactly when fewer cards exist than the unique-card count; END exactly otherwise, including on overshoot (the same test as `should_continue` at `new_main.py:380-384`) |
| Conditions.EndIsMonotone | deck_crafter/workflow/conditions.py:13-15 | once END for some cards, END for every longer card list |
| Conditions.StepsToEnd | deck_crafter/workflow/specific_workflows.py:102-106 | the node runs at least once; after that many steps the count is reached, and exactly reached when more than one step runs |
| Conditions.ObedientStep | deck_crafter/agents/card_agent.py:53-60 | with an obedient model and an unfilled target, one step appends one card and fills one target |
| Conditions.ObedientNodeFillsOneTarget | deck_crafter/agents/card_agent.py:43-62 | with an obedient model the card node raises once all targets are filled and otherwise fills one per run |
| Conditions.ExtendOutcome | deck_crafter/workflow/specific_workflows.py:102-106 | one more completed step in front keeps the final cards and the outcome and counts one more step |
| Conditions.GraphReachesEnd | deck_crafter/workflow/conditions.py:13-15 | a node that fills one target per run reaches END after exactly `StepsToEnd` steps, extending the cards at the end |
| Conditions.GraphRaisesFirst | deck_crafter/workflow/conditions.py:13-15 | when fewer targets remain than steps to END, the selector raises after filling every remaining one |
| Conditions.RunReachesEnd | deck_crafter/workflow/conditions.py:13-15 | the cards loop with an obedient model ends after exactly max(1, n − \|cards\|) steps, each adding one card at the end |
| Conditions.RunRaisesFirst | deck_crafter/agents/card_agent.py:74-80 | the cards loop with an obedient model but too few remaining targets raises in the selector after filling them all |
| Conditions.RaisingModelEndsRun | deck_crafter/agents/card_agent.py:57 | a model call that raises ends the run at once with the model's error and the cards as they were |
| Conditions.RunGraph | deck_crafter/workflow/specific_workflows.py:102-106 | the node always runs first; a run that ends does so with `should_continue` at END after one to `limit` steps, and a run that raises does so with the node's own error, before the limit |
| Conditions.Run | deck_crafter/workflow/specific_workflows.py:102-106 | the cards graph with the card agent as node: a run that ends has at least the unique-card count of cards, and a run that raises does so because no type is under target or because the model call on the selected type raised |
| Conditions.SilentModelNeverEnds | deck_crafter/agents/card_agent.py:59-60 | a model that always returns nothing leaves the cards as they are, so the loop only stops at the step limit |
| Routes.Rank | deck_crafter/models/state.py:10-14 | the status order: rank at most 3, rank 0 exactly for CREATED, rank 3 exactly for CARDS_GENERATED |
| Routes.RankInjective | deck_crafter/models/state.py:10-14 | statuses are told apart by rank |
| Routes.StartGameCall | deck_crafter/api/routes/game.py:31-72 | fails only when preferences need generation and the workflow raised; otherwise inserts one CREATED record under the id, with no concept, rules or cards, created == updated == now, and the other records untouched |
| Routes.Target | deck_crafter/api/routes/game.py:98 | an accepted request moves the status exactly one rank up |
| Routes.Store | deck_crafter/api/routes/game.py:96-97 | the workflow's output goes to the request's content field and to no other field |
| Routes.Handle | deck_crafter/api/routes/game.py:81-143 | 404 exactly for an unknown id, 400 exactly for the wrong status, and the workflow's error exactly when it raised; a failure leaves the table as it was; a success moves that game one rank up, sets the content and `updated_at`, and leaves everything else unchanged |
| Routes.CardsGeneratedIsTerminal | deck_crafter/api/routes/game.py:131-132 | no generation endpoint accepts a game with generated cards |
| Routes.PreferencesWorkflowOnlyWhenIncomplete | deck_crafter/api/routes/game.py:37-58 | with complete preferences the workflow's outcome is irrelevant and the given preferences are stored; with incomplete ones a raising workflow fails the call and a returned one is stored |
| Routes.StartGamePreservesWellFormed | deck_crafter/api/routes/game.py:60-71 | starting a game keeps every record under its own id with no content beyond its status |
| Routes.HandlePreservesWellFormed | deck_crafter/api/routes/game.py:96-99 | every generation call keeps the table well formed |
| Routes.ReplayAdvances | deck_crafter/api/routes/game.py:88-140 | over any sequence of requests a game's status rises by exactly one per accepted request, so at most three are accepted, and `created_at` never changes |
| Routes.GameTable.constructor | deck_crafter/api/routes/game.py:29 | the table starts empty |
| Routes.GameTable.StartGame | deck_crafter/api/routes/game.py:31-72 | result and new table are those of `StartGameCall` |
| Routes.GameTable.GetGameState | deck_crafter/api/routes/game.py:74-79 | 404 for an unknown id, the stored record otherwise |
| Routes.GameTable.GenerateConcept | deck_crafter/api/routes/game.py:81-101 | result and new table are those of `Handle` for a concept request |
| Routes.GameTable.GenerateRules | deck_crafter/api/routes/game.py:103-122 | result and new table are those of `Handle` for a rules request |
| Routes.GameTable.GenerateCards | deck_crafter/api/routes/game.py:124-143 | result and new table are those of `Handle` for a cards request |
| ConceptAgent.Prefer | deck_crafter/agents/concept_agent.py:81-84 | the preference wins exactly when it is truthy |
| ConceptAgent.Overridden | deck_crafter/agents/concept_agent.py:74-86 | language, theme and rule complexity are replaced iff the preference is truthy; every other field is unchanged |
| ConceptAgent.OverrideIdempotent | deck_crafter/agents/concept_agent.py:74-86 | overriding twice with the same preferences is overriding once |
| ConceptAgent.OverrideWithUserPreferences | deck_crafter/agents/concept_agent.py:74-86 | the three guarded assignments produce `Overridden` |
| ConceptAgent.GenerateConcept | deck_crafter/agents/concept_agent.py:38-48 | with a reply, the state's concept is the overridden reply; with none, it fails if an override applies and otherwise stores the missing concept |
| NewMain.OptionalLinesHaveDistinctTexts | new_main.py:105-129 | distinct lines that an optional list may hold have distinct texts, so a `remove` by entry removes the same line as one by text |
| NewMain.OptionalListsHoldOptionalLines | new_main.py:264-292 | the card optional list, like the concept one of new_main.py:105-109, holds only those lines |
| NewMain.Remove | new_main.py:124 | `list.remove` leaves one element fewer |
| NewMain.RemoveCutsFirst | new_main.py:124 | `list.remove` cuts out the first occurrence and keeps the rest in order |
| NewMain.RemoveDropsOne | new_main.py:274 | `list.remove` drops one copy of the element and keeps every other element |
| NewMain.ConceptFieldsBookkeeping | new_main.py:96-129 | the concept lists hold nine entries; audience and complexity are optional exactly when their preference is not truthy and pinned in the required list exactly when it is |
| NewMain.ConceptFieldLists | new_main.py:96-129 | the index assignments, appends and removes build exactly the lists `ConceptFields` describes |
| NewMain.ConceptOptionalCases | new_main.py:105-129 | the optional concept list in each of the four audience/complexity cases |
| NewMain.ComplexityRemoved | new_main.py:125-129 | removing the complexity entry keeps the optional list's other entries in order |
| NewMain.PreferenceOverrides | new_main.py:160-169 | audience, style, players, unique-card count (from the maximum) and complexity are replaced iff the preference is truthy; every other field is unchanged |
| NewMain.PreferenceOverridesIdempotent | new_main.py:160-169 | overriding twice is overriding once |
| NewMain.ApplyPreferenceOverrides | new_main.py:160-169 | the five guarded assignments produce `PreferenceOverrides` |
| NewMain.GenerateConcept | new_main.py:92-172 | a raising call leaves the state; otherwise the concept is the overridden reply to a prompt built from `ConceptFields` |
| NewMain.DemandsSpecialRulesIgnoresCase | new_main.py:191-193 | two complexities that differ only in letter case both demand special rules or both do not |
| NewMain.CaseVariantsDemandSpecialRules | new_main.py:191-193 | every spelling of medium, hard or complex in any mix of letter case ("MEDIUM", "Hard") demands special rules |
| NewMain.DefaultComplexityKeepsSpecialRulesOptional | new_main.py:364 | the default complexity "Medio" does not demand special rules, so `special_rules` stays optional |
| NewMain.RulesFieldsPlacement | new_main.py:184-201 | a missing complexity fails; otherwise the lists hold four entries and the special-rules entry goes into exactly one list, the required one iff the complexity demands it |
| NewMain.RuleFieldLists | new_main.py:184-201 | the appends build exactly the lists `RulesFields` describes |
| NewMain.GenerateRules | new_main.py:179-236 | fails without concept, without complexity, or when the call raises, leaving the rules; otherwise stores the reply |
| NewMain.PromotedFieldsMembers | new_main.py:272-292 | a field is promoted exactly when there are cards and every one has it truthy |
| NewMain.EntriesWhereMembers | new_main.py:264-292 | a field's entry is selected exactly when the field is listed with the wanted membership |
| NewMain.EntriesSnoc | new_main.py:275-292 | appending to the promotion order appends to the selection when selected |
| NewMain.EntriesIgnoreUnlisted | new_main.py:275-292 | promoting a field outside a list does not change that list's selection |
| NewMain.EntriesSplit | new_main.py:264-269 | every field lands in exactly one of the two selections |
| NewMain.ChosenCountIndependentOfOrder | new_main.py:264-292 | the number of promoted fields does not depend on the listing order |
| NewMain.CardFieldsShape | new_main.py:258-292 | the required card fields start with name, the pinned type and effect, and the two lists hold seven entries |
| NewMain.CardFieldsWithoutCards | new_main.py:258-272 | with no existing cards both lists are the initial ones |
| NewMain.CardFieldsPlacement | new_main.py:272-292 | each of cost, rarity, flavor text and interactions is required exactly when every existing card has it truthy and optional otherwise |
| NewMain.RemoveFromEntries | new_main.py:274-291 | removing a still-optional field's entry equals selecting without that field |
| NewMain.RequiredStep | new_main.py:273-292 | considering one more field appends its entry to the required list exactly when it is promoted |
| NewMain.PromotedStep | new_main.py:273-275 | a promoted field moves from the optional to the end of the required list |
| NewMain.KeptStep | new_main.py:273-292 | a field that is not promoted leaves both lists as they were |
| NewMain.PromoteField | new_main.py:273-292 | each promotion block keeps the lists equal to the description over the fields considered so far |
| NewMain.NoneConsidered | new_main.py:258-269 | the initial lists match the description before any field is considered |
| NewMain.NothingToPromote | new_main.py:272 | with no existing cards nothing is promoted |
| NewMain.AllConsidered | new_main.py:272-292 | after the four blocks the lists are those of `CardFields` |
| NewMain.CardFieldLists | new_main.py:258-292 | the removes and appends build exactly the lists `CardFields` describes |
| NewMain.GenerateCard | new_main.py:243-340 | fails without concept, without remaining type, or when the call raises, leaving the cards; otherwise appends exactly the reply after the old cards |

## Left out

- The language model and the workflows are foreign network and library
  calls. They appear only as function parameters (`Option` results) and
  `Invocation` values.
- Prompt text apart from the field lists is not modelled, and neither is
  the concept/card dump in the context.
- In the API, the concept endpoint re-validates the workflow result with
  `model_validate`. A validation failure is treated like a raising
  workflow.
- langgraph wiring, checkpointing and `recursion_limit` are not modelled.
  The loop's step bound is the `limit` parameter of `Conditions.Run`.
- The concept and rules nodes of `new_main.py` are modelled one by one.
  Their chaining into the card loop is not.
- uuid generation and `datetime.now` are not modelled: ids and timestamps
  are parameters.
- Timestamps are integers with no ordering or time-zone semantics.
- Aliasing is not modelled. The API's stored records are values in a map,
  and the agents' state is one object whose fields are assigned. A workflow
  that mutates the very state object it was given is not captured.
- The database, the Streamlit UI, the CLI's input and printing, and the
  stdout redirection are I/O and are not modelled.
- Python's `not preferences` is always false for a model instance, so
  preferences are never absent. `Routes.NeedsGeneration` keeps only the
  six truthiness tests.
- Parts of the Python state access cannot run as written:
  - `state["game_concept"]` and `state.get("cards", [])` on a pydantic state;
  - `cards` being `None` on a stored game.

  They are not modelled. The agents' state is one record with an optional
  concept and a card sequence, and a missing concept is an explicit error.
- `new_main.py` declares `card_distribution` as optional, and `.items()`
  on `None` would raise. The model's concept always holds a distribution.
- `new_main.py` calls the model with a `records` keyword that the service
  class does not declare. The call is treated as a function that may
  raise.
- `Common.Lower` lower-cases ASCII letters only. Non-ASCII case mapping is
  not modelled.
- `NewMain.ConceptFieldLists`, `NewMain.CardFieldLists`: they remove
  entries by constructor rather than by prompt text. Every `remove` targets
  an optional list that holds only fixed lines with distinct texts
  (`NewMain.OptionalListsHoldOptionalLines`,
  `NewMain.OptionalLinesHaveDistinctTexts`), so the two always pick the
  same entry.
- `ConceptAgent.GenerateConcept` does not model a `generate` that raises:
  its `None` is a returned `None`. `OllamaService.generate`
  (deck_crafter/services/llm_service.py:37-53) validates the reply or
  raises, so it never returns `None` itself.
- `CardAgent.GenerateCard`: `card_agent.py:114` calls `call_llm`, but
  `LLMService` (deck_crafter/services/llm_service.py:10-21) declares only
  `generate`, so as written that call raises `AttributeError`. The model
  lets the call raise, return nothing or return a card, as it could once
  the name matches.
- `Conditions.Run`: model oracles are deterministic functions of the
  prompt. A reply of nothing leaves the cards, so it repeats on every later
  step, and a call that returns nothing once and then a card cannot be
  expressed.
- Dictionaries become insertion-ordered sequences of pairs. That their keys
  are distinct is a premise (`Models.DistinctKeys`) of the lemmas that need
  it.
