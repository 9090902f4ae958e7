/**
 * The concept generation agent: ask the model for a concept, then let the
 * user's language, theme and rule complexity win wherever they were given.
 */
module ConceptAgent {
  import opened Common
  import opened Models

  /** `pref` when it is truthy, `current` otherwise. */
  function Prefer(pref: Option<string>, current: string): (r: string)
    ensures Truthy(pref) ==> r == pref.value
    ensures !Truthy(pref) ==> r == current
  {
    if Truthy(pref) then pref.value else current
  }

  /**
   * The concept after `_override_with_user_preferences`: language, theme and
   * rule complexity taken from the preferences where those are truthy.
   */
  function Overridden(c: Concept, p: Preferences): (r: Concept)
    ensures Truthy(p.language) ==> r.language == p.language.value
    ensures !Truthy(p.language) ==> r.language == c.language
    ensures Truthy(p.theme) ==> r.theme == p.theme.value
    ensures !Truthy(p.theme) ==> r.theme == c.theme
    ensures Truthy(p.ruleComplexity) ==> r.ruleComplexity == p.ruleComplexity
    ensures !Truthy(p.ruleComplexity) ==> r.ruleComplexity == c.ruleComplexity
    ensures r.(language := c.language, theme := c.theme, ruleComplexity := c.ruleComplexity) == c
  {
    c.(language := Prefer(p.language, c.language),
       theme := Prefer(p.theme, c.theme),
       ruleComplexity := if Truthy(p.ruleComplexity) then p.ruleComplexity else c.ruleComplexity)
  }

  /** Applying the override twice with the same preferences is applying it once. */
  lemma OverrideIdempotent(c: Concept, p: Preferences)
    ensures Overridden(Overridden(c, p), p) == Overridden(c, p)
  {
  }

  /** `_override_with_user_preferences`: three guarded field assignments, in source order. */
  method OverrideWithUserPreferences(concept: Concept, prefs: Preferences) returns (c: Concept)
    ensures c == Overridden(concept, prefs)
  {
    c := concept;
    if Truthy(prefs.language) {
      c := c.(language := prefs.language.value);
    }
    if Truthy(prefs.theme) {
      c := c.(theme := prefs.theme.value);
    }
    if Truthy(prefs.ruleComplexity) {
      c := c.(ruleComplexity := prefs.ruleComplexity);
    }
  }

  /** Whether the override touches the concept at all (and so fails on a missing one). */
  predicate OverrideWrites(p: Preferences)
  {
    Truthy(p.language) || Truthy(p.theme) || Truthy(p.ruleComplexity)
  }

  /** Setting an attribute on a missing concept. */
  datatype ConceptError = NoConceptToOverride

  /**
   * `generate_concept`: the model's reply (possibly nothing) is overridden
   * with the state's preferences and stored as the state's concept.  With no
   * reply, the first guarded assignment fails; if no preference is truthy no
   * assignment runs and the missing concept is stored as it is.
   */
  method GenerateConcept(state: CardGameState, generated: Option<Concept>) returns (r: Result<(), ConceptError>)
    modifies state`concept
    ensures generated.None? && OverrideWrites(state.preferences) ==>
      r == Failure(NoConceptToOverride) && state.concept == old(state.concept)
    ensures generated.None? && !OverrideWrites(state.preferences) ==>
      r == Success(()) && state.concept == None
    ensures generated.Some? ==>
      r == Success(()) && state.concept == Some(Overridden(generated.value, state.preferences))
  {
    var prefs := state.preferences;
    if generated.None? {
      if OverrideWrites(prefs) {
        return Failure(NoConceptToOverride);
      }
      state.concept := None;
      return Success(());
    }
    var c := OverrideWithUserPreferences(generated.value, prefs);
    state.concept := Some(c);
    r := Success(());
  }
}
