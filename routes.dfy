/**
 * The game API: an in-memory table from game id to the game's stored state,
 * and the endpoints that create a game, read it, and move it through
 * concept, rules and cards generation.  The workflows the endpoints invoke
 * are given as their outcomes (`Invocation`); ids and timestamps are given
 * as parameters.
 */
module Routes {
  import opened Common
  import opened Models

  /** Where a game is in its generation pipeline. */
  datatype GameStatus = Created | ConceptGenerated | RulesGenerated | CardsGenerated

  /** The position of a status along the pipeline. */
  function Rank(s: GameStatus): (n: nat)
    ensures n <= 3
    ensures n == 0 <==> s == Created
    ensures n == 3 <==> s == CardsGenerated
  {
    match s
    case Created => 0
    case ConceptGenerated => 1
    case RulesGenerated => 2
    case CardsGenerated => 3
  }

  /** Statuses are told apart by their rank. */
  lemma RankInjective(s: GameStatus, t: GameStatus)
    ensures Rank(s) == Rank(t) <==> s == t
  {
  }

  /** The state stored for one game; timestamps are opaque instants. */
  datatype GameRecord = GameRecord(
    gameId: string,
    status: GameStatus,
    preferences: Preferences,
    concept: Option<Concept>,
    rules: Option<Rules>,
    cards: Option<seq<Card>>,
    createdAt: int,
    updatedAt: int)

  /** The HTTP errors the endpoints raise (404, 400) and an exception from a workflow. */
  datatype ApiError = NotFound | InvalidState | WorkflowFailed

  /** The table of games. */
  type Games = map<string, GameRecord>

  /** The preferences workflow runs unless all six preferences below are truthy. */
  predicate NeedsGeneration(p: Preferences)
  {
    !(Truthy(p.language) && Truthy(p.theme) && Truthy(p.gameStyle)
      && Truthy(p.numberOfPlayers) && Truthy(p.targetAudience) && Truthy(p.ruleComplexity))
  }

  /**
   * `start_game` on values: run the preferences workflow when preferences
   * are missing, then store a fresh record under `gameId` (overwriting any
   * record already stored under that id).
   */
  function StartGameCall(games: Games, gameId: string, prefs: Preferences, now: int,
                         generated: Invocation<Preferences>): (r: (Result<string, ApiError>, Games))
    ensures r.0.Failure? <==> NeedsGeneration(prefs) && generated.Raised?
    ensures r.0.Failure? ==> r.0.error == WorkflowFailed && r.1 == games
    ensures r.0.Success? ==>
      && r.0.value == gameId
      && r.1.Keys == games.Keys + {gameId}
      && (forall k :: k in games && k != gameId ==> r.1[k] == games[k])
      && r.1[gameId].gameId == gameId
      && r.1[gameId].status == Created
      && r.1[gameId].concept.None? && r.1[gameId].rules.None? && r.1[gameId].cards.None?
      && r.1[gameId].createdAt == now && r.1[gameId].updatedAt == now
      && r.1[gameId].preferences == (if NeedsGeneration(prefs) then generated.value else prefs)
    ensures r.0.Success? && gameId !in games ==> |r.1| == |games| + 1
  {
    if NeedsGeneration(prefs) && generated.Raised? then (Failure(WorkflowFailed), games)
    else
      var chosen := if NeedsGeneration(prefs) then generated.value else prefs;
      (Success(gameId), games[gameId := GameRecord(gameId, Created, chosen, None, None, None, now, now)])
  }

  /**
   * The preferences workflow matters exactly when some preference is
   * missing: with all six present its outcome is ignored and the given
   * preferences are stored; with one missing, its failure fails the call and
   * its result replaces the given preferences.
   */
  lemma PreferencesWorkflowOnlyWhenIncomplete(games: Games, gameId: string, prefs: Preferences, now: int,
                                              g1: Invocation<Preferences>, g2: Invocation<Preferences>)
    ensures !NeedsGeneration(prefs) ==>
      && StartGameCall(games, gameId, prefs, now, g1) == StartGameCall(games, gameId, prefs, now, g2)
      && StartGameCall(games, gameId, prefs, now, g1).1[gameId].preferences == prefs
    ensures NeedsGeneration(prefs) ==>
      && StartGameCall(games, gameId, prefs, now, Raised).0 == Failure(WorkflowFailed)
      && (g1.Returned? ==> StartGameCall(games, gameId, prefs, now, g1).1[gameId].preferences == g1.value)
  {
  }

  /** A generation request together with what its workflow did. */
  datatype Request =
    | ConceptRequest(concept: Invocation<Option<Concept>>)
    | RulesRequest(rules: Invocation<Option<Rules>>)
    | CardsRequest(cards: Invocation<Option<seq<Card>>>)

  /** The only status from which an endpoint accepts a request. */
  function Required(req: Request): GameStatus
  {
    match req
    case ConceptRequest(_) => Created
    case RulesRequest(_) => ConceptGenerated
    case CardsRequest(_) => RulesGenerated
  }

  /** The status an accepted request moves the game to. */
  function Target(req: Request): (s: GameStatus)
    ensures Rank(s) == Rank(Required(req)) + 1
  {
    match req
    case ConceptRequest(_) => ConceptGenerated
    case RulesRequest(_) => RulesGenerated
    case CardsRequest(_) => CardsGenerated
  }

  /** Whether the request's workflow raised. */
  predicate WorkflowRaised(req: Request)
  {
    match req
    case ConceptRequest(c) => c.Raised?
    case RulesRequest(r) => r.Raised?
    case CardsRequest(c) => c.Raised?
  }

  /** The record with the workflow's output written to the request's content field. */
  function Store(rec: GameRecord, req: Request): (r: GameRecord)
    requires !WorkflowRaised(req)
    ensures req.ConceptRequest? ==> r.concept == req.concept.value
    ensures req.RulesRequest? ==> r.rules == req.rules.value
    ensures req.CardsRequest? ==> r.cards == req.cards.value
    ensures !req.ConceptRequest? ==> r.concept == rec.concept
    ensures !req.RulesRequest? ==> r.rules == rec.rules
    ensures !req.CardsRequest? ==> r.cards == rec.cards
    ensures r.(concept := rec.concept, rules := rec.rules, cards := rec.cards) == rec
  {
    match req
    case ConceptRequest(c) => rec.(concept := c.value)
    case RulesRequest(x) => rec.(rules := x.value)
    case CardsRequest(c) => rec.(cards := c.value)
  }

  /**
   * A generation endpoint on values: 404 for an unknown id, 400 unless the
   * game is in the required status, the workflow's exception if it raised,
   * and otherwise the content, the next status and the new update time.
   */
  function Handle(games: Games, gameId: string, now: int, req: Request): (r: (Result<GameStatus, ApiError>, Games))
    ensures r.0 == Failure(NotFound) <==> gameId !in games
    ensures r.0 == Failure(InvalidState) <==> gameId in games && games[gameId].status != Required(req)
    ensures r.0 == Failure(WorkflowFailed) <==>
      gameId in games && games[gameId].status == Required(req) && WorkflowRaised(req)
    ensures r.0.Failure? ==> r.1 == games
    ensures r.0.Success? ==>
      && r.0.value == Target(req)
      && r.1.Keys == games.Keys
      && (forall k :: k in games && k != gameId ==> r.1[k] == games[k])
      && Rank(r.1[gameId].status) == Rank(games[gameId].status) + 1
      && r.1[gameId].updatedAt == now
      && r.1[gameId] == Store(games[gameId], req).(status := Target(req), updatedAt := now)
  {
    if gameId !in games then (Failure(NotFound), games)
    else if games[gameId].status != Required(req) then (Failure(InvalidState), games)
    else if WorkflowRaised(req) then (Failure(WorkflowFailed), games)
    else
      var rec := Store(games[gameId], req).(status := Target(req), updatedAt := now);
      (Success(Target(req)), games[gameId := rec])
  }

  /** No generation endpoint accepts a game whose cards have been generated. */
  lemma CardsGeneratedIsTerminal(games: Games, gameId: string, now: int, req: Request)
    requires gameId in games && games[gameId].status == CardsGenerated
    ensures Handle(games, gameId, now, req) == (Failure(InvalidState), games)
  {
  }

  /** A stored record whose content fields are missing for the steps not yet done. */
  predicate Consistent(rec: GameRecord)
  {
    && (Rank(rec.status) < 1 ==> rec.concept.None?)
    && (Rank(rec.status) < 2 ==> rec.rules.None?)
    && (Rank(rec.status) < 3 ==> rec.cards.None?)
  }

  /** Every record sits under its own id and is consistent. */
  predicate WellFormed(games: Games)
  {
    forall id :: id in games ==> games[id].gameId == id && Consistent(games[id])
  }

  /** Starting a game keeps the table well formed. */
  lemma StartGamePreservesWellFormed(games: Games, gameId: string, prefs: Preferences, now: int,
                                     generated: Invocation<Preferences>)
    requires WellFormed(games)
    ensures WellFormed(StartGameCall(games, gameId, prefs, now, generated).1)
  {
  }

  /** Every generation call keeps the table well formed. */
  lemma HandlePreservesWellFormed(games: Games, gameId: string, now: int, req: Request)
    requires WellFormed(games)
    ensures WellFormed(Handle(games, gameId, now, req).1)
  {
    var r := Handle(games, gameId, now, req);
    if r.0.Success? {
      forall id | id in r.1
        ensures r.1[id].gameId == id && Consistent(r.1[id])
      {
        if id == gameId {
          var old_ := games[gameId];
          assert old_.status == Required(req);
          match req
          case ConceptRequest(_) =>
          case RulesRequest(_) =>
          case CardsRequest(_) =>
        }
      }
    }
  }

  /** The table and the number of accepted requests after serving `reqs` (time, request) on one game. */
  function Replay(games: Games, gameId: string, reqs: seq<(int, Request)>): (Games, nat)
    decreases |reqs|
  {
    if reqs == [] then (games, 0)
    else
      var r := Handle(games, gameId, reqs[0].0, reqs[0].1);
      var rest := Replay(r.1, gameId, reqs[1..]);
      (rest.0, rest.1 + if r.0.Success? then 1 else 0)
  }

  /**
   * Over any series of requests a game's status advances by exactly one
   * step per accepted request and never moves back; hence at most three
   * requests are ever accepted for one game.
   */
  lemma {:induction false} ReplayAdvances(games: Games, gameId: string, reqs: seq<(int, Request)>)
    requires gameId in games
    ensures var (final, accepted) := Replay(games, gameId, reqs);
      && final.Keys == games.Keys
      && Rank(final[gameId].status) == Rank(games[gameId].status) + accepted
      && accepted <= 3 - Rank(games[gameId].status)
      && final[gameId].createdAt == games[gameId].createdAt
    decreases |reqs|
  {
    if reqs != [] {
      var r := Handle(games, gameId, reqs[0].0, reqs[0].1);
      ReplayAdvances(r.1, gameId, reqs[1..]);
    }
  }

  /** The module-level `games` dictionary and the route handlers that use it. */
  class GameTable {
    var games: Games

    constructor ()
      ensures games == map[]
    {
      games := map[];
    }

    /** `start_game`. */
    method StartGame(prefs: Preferences, gameId: string, now: int, generated: Invocation<Preferences>)
      returns (r: Result<string, ApiError>)
      modifies this
      ensures (r, games) == StartGameCall(old(games), gameId, prefs, now, generated)
    {
      var chosen := prefs;
      if NeedsGeneration(prefs) {
        if generated.Raised? {
          return Failure(WorkflowFailed);
        }
        chosen := generated.value;
      }
      games := games[gameId := GameRecord(gameId, Created, chosen, None, None, None, now, now)];
      r := Success(gameId);
    }

    /** `get_game_state`: the stored record, or 404. */
    method GetGameState(gameId: string) returns (r: Result<GameRecord, ApiError>)
      ensures gameId !in games ==> r == Failure(NotFound)
      ensures gameId in games ==> r == Success(games[gameId])
    {
      if gameId !in games {
        return Failure(NotFound);
      }
      r := Success(games[gameId]);
    }

    /** `generate_concept`: accepted only from `Created`. */
    method GenerateConcept(gameId: string, now: int, result: Invocation<Option<Concept>>)
      returns (r: Result<GameStatus, ApiError>)
      modifies this
      ensures (r, games) == Handle(old(games), gameId, now, ConceptRequest(result))
    {
      if gameId !in games {
        return Failure(NotFound);
      }
      var game := games[gameId];
      if game.status != Created {
        return Failure(InvalidState);
      }
      if result.Raised? {
        return Failure(WorkflowFailed);
      }
      games := games[gameId := games[gameId].(concept := result.value)];
      games := games[gameId := games[gameId].(status := ConceptGenerated)];
      games := games[gameId := games[gameId].(updatedAt := now)];
      assert games == old(games)[gameId := Store(game, ConceptRequest(result)).(status := ConceptGenerated, updatedAt := now)];
      r := Success(ConceptGenerated);
    }

    /** `generate_rules`: accepted only from `ConceptGenerated`. */
    method GenerateRules(gameId: string, now: int, result: Invocation<Option<Rules>>)
      returns (r: Result<GameStatus, ApiError>)
      modifies this
      ensures (r, games) == Handle(old(games), gameId, now, RulesRequest(result))
    {
      if gameId !in games {
        return Failure(NotFound);
      }
      var game := games[gameId];
      if game.status != ConceptGenerated {
        return Failure(InvalidState);
      }
      if result.Raised? {
        return Failure(WorkflowFailed);
      }
      games := games[gameId := games[gameId].(rules := result.value)];
      games := games[gameId := games[gameId].(status := RulesGenerated)];
      games := games[gameId := games[gameId].(updatedAt := now)];
      assert games == old(games)[gameId := Store(game, RulesRequest(result)).(status := RulesGenerated, updatedAt := now)];
      r := Success(RulesGenerated);
    }

    /** `generate_cards`: accepted only from `RulesGenerated`. */
    method GenerateCards(gameId: string, now: int, result: Invocation<Option<seq<Card>>>)
      returns (r: Result<GameStatus, ApiError>)
      modifies this
      ensures (r, games) == Handle(old(games), gameId, now, CardsRequest(result))
    {
      if gameId !in games {
        return Failure(NotFound);
      }
      var game := games[gameId];
      if game.status != RulesGenerated {
        return Failure(InvalidState);
      }
      if result.Raised? {
        return Failure(WorkflowFailed);
      }
      games := games[gameId := games[gameId].(cards := result.value)];
      games := games[gameId := games[gameId].(status := CardsGenerated)];
      games := games[gameId := games[gameId].(updatedAt := now)];
      assert games == old(games)[gameId := Store(game, CardsRequest(result)).(status := CardsGenerated, updatedAt := now)];
      r := Success(CardsGenerated);
    }
  }
}
