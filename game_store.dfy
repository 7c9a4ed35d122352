/**
 * The game-state half of the store (store/gameStore.ts): the dice roll with
 * its robber branch, the initial-placement progression driven by road
 * building, settlement and city building, the end of a turn with the victory
 * check, the robber move with its optional theft, and discarding. The store
 * holds the current game state (none before a game starts) and the ids of the
 * players who still have to discard; every action reads the state, computes
 * a new one and writes it back. The dice and the theft index are parameters.
 */
module GameStore {
  import opened Types
  import opened Constants
  import opened Validators
  import opened Calculators
  import opened ActionHandlers
  import opened Robber
  import opened GameUtils

  // ===========================================================================
  // Rolling the dice
  // ===========================================================================

  /** The ids of the players holding more than seven cards, in player order. */
  function Discarders(ps: seq<Player>): (r: seq<PlayerId>)
    ensures |r| <= |ps|
  {
    if |ps| == 0 then []
    else
      var last := ps[|ps| - 1];
      Discarders(ps[..|ps| - 1]) + (if NeedsToDiscard(last) then [last.id] else [])
  }

  lemma {:induction false} DiscardersCharacterised(ps: seq<Player>, pid: PlayerId)
    ensures pid in Discarders(ps) <==> exists i :: 0 <= i < |ps| && ps[i].id == pid && ps[i].resources.Total() > 7
  {
    if |ps| > 0 {
      var n := |ps| - 1;
      DiscardersCharacterised(ps[..n], pid);
      if pid in Discarders(ps[..n]) {
        var i :| 0 <= i < n && ps[..n][i].id == pid && ps[..n][i].resources.Total() > 7;
        assert ps[i] == ps[..n][i];
      }
      if exists i :: 0 <= i < |ps| && ps[i].id == pid && ps[i].resources.Total() > 7 {
        var i :| 0 <= i < |ps| && ps[i].id == pid && ps[i].resources.Total() > 7;
        if i < n {
          assert ps[..n][i] == ps[i];
        }
      }
    }
  }

  /**
   * The state after a roll of `die1` and `die2`: any sum but 7 distributes
   * resources and opens the action phase; a 7 only records the roll and
   * activates the robber.
   */
  function Rolled(s: GameState, die1: int, die2: int): GameState
  {
    if die1 + die2 != RobberActivationRoll then
      Distributed(s, die1 + die2).(lastDiceRoll := Some((die1, die2)), turnPhase := Actions)
    else
      s.(lastDiceRoll := Some((die1, die2)), turnPhase := RobberActivation)
  }

  /**
   * A roll records the dice and changes nothing but the players' resources
   * and the turn phase. A 7 touches no resource and moves to robber
   * activation; any other sum moves to actions and gives each player exactly
   * the roll's yield (player ids unique), so no count decreases.
   */
  lemma RollEffect(s: GameState, die1: int, die2: int)
    requires UniquePlayerIds(s.players)
    ensures Rolled(s, die1, die2) ==
      s.(players := Rolled(s, die1, die2).players, lastDiceRoll := Some((die1, die2)), turnPhase := Rolled(s, die1, die2).turnPhase)
    ensures die1 + die2 == 7 ==> Rolled(s, die1, die2).turnPhase == RobberActivation && Rolled(s, die1, die2).players == s.players
    ensures die1 + die2 != 7 ==> Rolled(s, die1, die2).turnPhase == Actions
    ensures die1 + die2 != 7 ==> (|Rolled(s, die1, die2).players| == |s.players| &&
      forall k, q :: 0 <= k < |s.players| ==>
        Rolled(s, die1, die2).players[k].resources.Get(q) == s.players[k].resources.Get(q) + Yield(s, die1 + die2, s.players[k].id, q) &&
        Rolled(s, die1, die2).players[k].resources.Get(q) >= s.players[k].resources.Get(q))
  {
    if die1 + die2 != 7 {
      var d := Distributed(s, die1 + die2);
      DistributionEffect(s, die1 + die2);
      assert Rolled(s, die1, die2) == d.(lastDiceRoll := Some((die1, die2)), turnPhase := Actions);
    }
  }

  // ===========================================================================
  // Initial placement
  // ===========================================================================

  /** How many vertices hold a building. */
  function BuildingsPlaced(vs: seq<Vertex>): (n: nat)
    ensures n <= |vs|
  {
    if |vs| == 0 then 0
    else BuildingsPlaced(vs[..|vs| - 1]) + (if vs[|vs| - 1].building.Some? then 1 else 0)
  }

  /**
   * What the store does with the state after a road in initial placement:
   * once every player has placed two buildings the main game starts with
   * the first player to roll; otherwise the turn passes as `getNextPlayer`
   * says for the round the state is in, and round 1 turns into round 2 when
   * every player has placed one building.
   */
  function AfterInitialRoad(t: GameState): (r: GameState)
    requires |t.players| > 0
  {
    var placed := BuildingsPlaced(t.vertices);
    if placed >= 2 * |t.players| then
      t.(phase := MainGame, turnPhase := DiceRoll, currentPlayerId := t.players[0].id)
    else
      t.(currentPlayerId := GetNextPlayer(t).value.id,
         initialPlacementRound := if t.initialPlacementRound == 1 && placed == |t.players| then 2 else t.initialPlacementRound)
  }

  /** The store's road action on a state: the current player builds, then initial placement moves on. */
  function RoadAction(s: GameState, edgeId: EdgeId): (r: GameState)
  {
    match FindPlayer(s.players, s.currentPlayerId)
    case None => s
    case Some(cp) =>
      var t := HandleBuildRoad(cp.id, edgeId, s, s.phase == InitialPlacement);
      if t.phase == InitialPlacement then AfterInitialRoad(t) else t
  }

  /** The player index of the `t`-th placement turn (from 0): 0, 1, ..., n-1, then n-1, ..., 0. */
  function SnakeIndex(n: int, t: int): int
  {
    if t < n then t else 2 * n - 1 - t
  }

  /** The placement round of the `t`-th turn. */
  function SnakeRound(n: int, t: int): int
  {
    if t < n then 1 else 2
  }

  /**
   * The snake order. When the player of turn `k - 1` has just placed the
   * `k`-th building and a road, the next turn goes to the player of turn `k`
   * in the round of turn `k`; after the `2n`-th building the main game
   * starts with the first player rolling.
   */
  lemma InitialPlacementSnake(t: GameState, k: int)
    requires UniquePlayerIds(t.players) && |t.players| > 0 && t.phase == InitialPlacement
    requires k == BuildingsPlaced(t.vertices) && 1 <= k <= 2 * |t.players|
    requires t.currentPlayerId == t.players[SnakeIndex(|t.players|, k - 1)].id
    requires t.initialPlacementRound == SnakeRound(|t.players|, k - 1)
    ensures k < 2 * |t.players| ==>
      AfterInitialRoad(t).phase == InitialPlacement &&
      AfterInitialRoad(t).currentPlayerId == t.players[SnakeIndex(|t.players|, k)].id &&
      AfterInitialRoad(t).initialPlacementRound == SnakeRound(|t.players|, k)
    ensures k == 2 * |t.players| ==>
      AfterInitialRoad(t).phase == MainGame && AfterInitialRoad(t).turnPhase == DiceRoll &&
      AfterInitialRoad(t).currentPlayerId == t.players[0].id
  {
    NextPlayerOrder(t, SnakeIndex(|t.players|, k - 1));
  }

  /** Over the 2n placement turns every player has exactly two: turn `p` and turn `2n - 1 - p`. */
  lemma SnakeTurnsOfPlayer(n: int, p: int, t: int)
    requires 0 <= p < n && 0 <= t < 2 * n
    ensures 0 <= SnakeIndex(n, t) < n
    ensures SnakeIndex(n, t) == p <==> t == p || t == 2 * n - 1 - p
    ensures SnakeRound(n, p) == 1 && SnakeRound(n, 2 * n - 1 - p) == 2
  {
  }

  /**
   * A road the check rejects in initial placement still passes the turn:
   * the state is the one the store derives from the unchanged board, so in
   * round 1 before the last player the next player moves on without a road.
   */
  lemma RejectedInitialRoadPassesTurn(s: GameState, edgeId: EdgeId, i: int)
    requires s.phase == InitialPlacement && UniquePlayerIds(s.players)
    requires 0 <= i < |s.players| && s.players[i].id == s.currentPlayerId
    requires !CanBuildRoad(s.players[i], edgeId, s, true).Valid?
    ensures RoadAction(s, edgeId) == AfterInitialRoad(s)
    ensures s.initialPlacementRound == 1 && i + 1 < |s.players| && BuildingsPlaced(s.vertices) < 2 * |s.players| ==>
      RoadAction(s, edgeId).currentPlayerId == s.players[i + 1].id != s.currentPlayerId
  {
    FindUniquePlayer(s.players, i);
    NextPlayerOrder(s, i);
  }

  // ===========================================================================
  // Settlements and cities
  // ===========================================================================

  /** The store's settlement action on a state. */
  function SettlementAction(s: GameState, vertexId: VertexId): (r: GameState)
  {
    match FindPlayer(s.players, s.currentPlayerId)
    case None => s
    case Some(cp) =>
      var isInitial := s.phase == InitialPlacement;
      var t := if CanBuildSettlement(cp, vertexId, s, isInitial).Valid? then SettlementPlaced(s, cp, vertexId, isInitial) else s;
      if t.phase == InitialPlacement && FindVertex(t.vertices, vertexId).None? then s else t
  }

  /** The store's city action on a state. */
  function CityAction(s: GameState, vertexId: VertexId): (r: GameState)
  {
    match FindPlayer(s.players, s.currentPlayerId)
    case None => s
    case Some(cp) => if CanBuildCity(cp, vertexId, s).Valid? then CityPlaced(s, cp, vertexId) else s
  }

  /** With unique vertex ids, placing a building adds one to the count exactly when the vertex was empty. */
  lemma {:induction false} PlacedAfterBuilding(vs: seq<Vertex>, vid: VertexId, b: Building, m: int)
    requires UniqueVertexIds(vs) && 0 <= m < |vs| && vs[m].id == vid
    ensures BuildingsPlaced(PlaceBuilding(vs, vid, b)) == BuildingsPlaced(vs) + (if vs[m].building.None? then 1 else 0)
  {
    var n := |vs| - 1;
    var placed := PlaceBuilding(vs, vid, b);
    assert placed[..n] == PlaceBuilding(vs[..n], vid, b);
    if m == n {
      assert PlaceBuilding(vs[..n], vid, b) == vs[..n];
    } else {
      PlacedAfterBuilding(vs[..n], vid, b, m);
    }
  }

  /**
   * A settlement the check accepts adds exactly one building to the board
   * and keeps the phase; a city only replaces a settlement, so the count of
   * buildings the placement progression reads is unchanged.
   */
  lemma BuildingCounts(s: GameState, vertexId: VertexId)
    requires UniqueVertexIds(s.vertices)
    ensures SettlementAction(s, vertexId).phase == s.phase
    ensures BuildingsPlaced(SettlementAction(s, vertexId).vertices) == BuildingsPlaced(s.vertices) ||
            BuildingsPlaced(SettlementAction(s, vertexId).vertices) == BuildingsPlaced(s.vertices) + 1
    ensures FindPlayer(s.players, s.currentPlayerId).Some? &&
            CanBuildSettlement(FindPlayer(s.players, s.currentPlayerId).value, vertexId, s, s.phase == InitialPlacement).Valid? ==>
      BuildingsPlaced(SettlementAction(s, vertexId).vertices) == BuildingsPlaced(s.vertices) + 1
    ensures BuildingsPlaced(CityAction(s, vertexId).vertices) == BuildingsPlaced(s.vertices)
    ensures CityAction(s, vertexId).phase == s.phase
  {
    SettlementCounts(s, vertexId);
    CityCounts(s, vertexId);
  }

  /** The settlement half of BuildingCounts. */
  lemma SettlementCounts(s: GameState, vertexId: VertexId)
    requires UniqueVertexIds(s.vertices)
    ensures SettlementAction(s, vertexId).phase == s.phase
    ensures BuildingsPlaced(SettlementAction(s, vertexId).vertices) == BuildingsPlaced(s.vertices) ||
            BuildingsPlaced(SettlementAction(s, vertexId).vertices) == BuildingsPlaced(s.vertices) + 1
    ensures FindPlayer(s.players, s.currentPlayerId).Some? &&
            CanBuildSettlement(FindPlayer(s.players, s.currentPlayerId).value, vertexId, s, s.phase == InitialPlacement).Valid? ==>
      BuildingsPlaced(SettlementAction(s, vertexId).vertices) == BuildingsPlaced(s.vertices) + 1
  {
    match FindPlayer(s.players, s.currentPlayerId)
    case None =>
    case Some(cp) =>
      if CanBuildSettlement(cp, vertexId, s, s.phase == InitialPlacement).Valid? {
        PlacedAfterBuilding(s.vertices, vertexId, Building(Settlement, cp.id), IndexOfVertex(s.vertices, vertexId));
      }
  }

  /** The city half of BuildingCounts. */
  lemma CityCounts(s: GameState, vertexId: VertexId)
    requires UniqueVertexIds(s.vertices)
    ensures BuildingsPlaced(CityAction(s, vertexId).vertices) == BuildingsPlaced(s.vertices)
    ensures CityAction(s, vertexId).phase == s.phase
  {
    match FindPlayer(s.players, s.currentPlayerId)
    case None =>
    case Some(cp) =>
      if CanBuildCity(cp, vertexId, s).Valid? {
        PlacedAfterBuilding(s.vertices, vertexId, Building(City, cp.id), IndexOfVertex(s.vertices, vertexId));
      }
  }

  // ===========================================================================
  // Ending a turn
  // ===========================================================================

  /** Every player's stored victory points recomputed from the board and their hand. */
  function Rescored(s: GameState): (r: seq<Player>)
    ensures |r| == |s.players|
  {
    seq(|s.players|, k requires 0 <= k < |s.players| => s.players[k].(victoryPoints := VictoryPoints(s.players[k], s)))
  }

  /** The first player with at least 10 stored points. */
  function FirstWinner(ps: seq<Player>): (r: Option<Player>)
    ensures r.None? <==> forall i :: 0 <= i < |ps| ==> ps[i].victoryPoints < 10
    ensures r.Some? ==> exists i :: 0 <= i < |ps| && ps[i] == r.value && r.value.victoryPoints >= 10 &&
                                    forall j :: 0 <= j < i ==> ps[j].victoryPoints < 10
  {
    if |ps| == 0 then None
    else if CheckVictory(ps[0]) then Some(ps[0])
    else
      var r := FirstWinner(ps[1..]);
      if r.Some? then
        var i :| 0 <= i < |ps[1..]| && ps[1..][i] == r.value && r.value.victoryPoints >= 10 &&
                 forall j :: 0 <= j < i ==> ps[1..][j].victoryPoints < 10;
        assert ps[i + 1] == r.value;
        r
      else
        assert forall i :: 1 <= i < |ps| ==> ps[i] == ps[1..][i - 1];
        r
  }

  /**
   * The store's end of turn on a state: scores are recomputed; the first
   * player at 10 or more wins and the game is over; otherwise the turn
   * passes and the next turn starts with a roll. With no players the next
   * player is undefined and the action throws; that is `None` here.
   */
  function EndTurnResult(s: GameState): (r: Option<GameState>)
  {
    var ps := Rescored(s);
    match FirstWinner(ps)
    case Some(w) => Some(s.(players := ps, phase := GameOver, winner := Some(w.id)))
    case None =>
      match GetNextPlayer(s.(players := ps))
      case None => None
      case Some(np) => Some(s.(players := ps, currentPlayerId := np.id, turnPhase := DiceRoll, turnNumber := s.turnNumber + 1))
  }

  /** Rescoring keeps every player but their stored points, which are the recomputed, non-negative ones. */
  lemma RescoredPlayers(s: GameState)
    ensures forall k :: 0 <= k < |s.players| ==>
      Rescored(s)[k] == s.players[k].(victoryPoints := VictoryPoints(s.players[k], s)) &&
      Rescored(s)[k].id == s.players[k].id && Rescored(s)[k].victoryPoints >= 0
    ensures UniquePlayerIds(s.players) ==> UniquePlayerIds(Rescored(s))
  {
  }

  /**
   * Ending a turn fails only without players; otherwise it stores every
   * player's recomputed, non-negative score and changes no other player
   * field.
   */
  lemma EndTurnScores(s: GameState)
    ensures EndTurnResult(s).Some? <==> |s.players| > 0
    ensures EndTurnResult(s).Some? ==> (
      |EndTurnResult(s).value.players| == |s.players| &&
      forall k :: 0 <= k < |s.players| ==>
        EndTurnResult(s).value.players[k] == s.players[k].(victoryPoints := VictoryPoints(s.players[k], s)) &&
        EndTurnResult(s).value.players[k].victoryPoints >= 0)
  {
    RescoredPlayers(s);
  }

  /**
   * The game ends exactly when some player reaches 10 points, and then the
   * winner is the first such player in seating order and the turn number is
   * kept.
   */
  lemma EndTurnWinner(s: GameState)
    requires |s.players| > 0 && s.phase != GameOver
    ensures EndTurnResult(s).Some?
    ensures EndTurnResult(s).value.phase == GameOver <==>
      exists k :: 0 <= k < |s.players| && VictoryPoints(s.players[k], s) >= 10
    ensures EndTurnResult(s).value.phase == GameOver ==>
      EndTurnResult(s).value.turnNumber == s.turnNumber && EndTurnResult(s).value.winner.Some? &&
      exists k :: 0 <= k < |s.players| && EndTurnResult(s).value.winner.value == s.players[k].id &&
        VictoryPoints(s.players[k], s) >= 10 && forall j :: 0 <= j < k ==> VictoryPoints(s.players[j], s) < 10
  {
    var ps := Rescored(s);
    match FirstWinner(ps)
    case Some(w) =>
      var r := s.(players := ps, phase := GameOver, winner := Some(w.id));
      assert EndTurnResult(s) == Some(r);
      var k :| 0 <= k < |ps| && ps[k] == w && w.victoryPoints >= 10 && forall j :: 0 <= j < k ==> ps[j].victoryPoints < 10;
      RescoredPlayers(s);
      WinnerScored(s, ps, k, r);
    case None =>
      assert GetNextPlayer(s.(players := ps)).Some?;
      RescoredPlayers(s);
      NoneScored(s, ps);
  }

  /** The first stored winner of a rescoring is the first seat with 10 points. */
  lemma WinnerScored(s: GameState, ps: seq<Player>, k: int, r: GameState)
    requires |ps| == |s.players| && 0 <= k < |ps|
    requires forall i :: 0 <= i < |s.players| ==> ps[i].victoryPoints == VictoryPoints(s.players[i], s) && ps[i].id == s.players[i].id
    requires ps[k].victoryPoints >= 10 && forall j :: 0 <= j < k ==> ps[j].victoryPoints < 10
    requires r == s.(players := ps, phase := GameOver, winner := Some(ps[k].id))
    ensures r.phase == GameOver && r.turnNumber == s.turnNumber && r.winner.Some?
    ensures exists k :: 0 <= k < |s.players| && VictoryPoints(s.players[k], s) >= 10
    ensures exists k :: 0 <= k < |s.players| && r.winner.value == s.players[k].id &&
                        VictoryPoints(s.players[k], s) >= 10 && forall j :: 0 <= j < k ==> VictoryPoints(s.players[j], s) < 10
  {
    assert VictoryPoints(s.players[k], s) >= 10 && r.winner.value == s.players[k].id;
  }

  /** Without a stored winner no seat has 10 points. */
  lemma NoneScored(s: GameState, ps: seq<Player>)
    requires |ps| == |s.players|
    requires forall i :: 0 <= i < |s.players| ==> ps[i].victoryPoints == VictoryPoints(s.players[i], s)
    requires forall i :: 0 <= i < |ps| ==> ps[i].victoryPoints < 10
    ensures !exists k :: 0 <= k < |s.players| && VictoryPoints(s.players[k], s) >= 10
  {
  }

  /**
   * Without a winner in the main game (unique ids) the turn passes in
   * round-robin order to the seat after the current one, which starts a
   * new numbered turn with a dice roll.
   */
  lemma EndTurnAdvances(s: GameState, i: int)
    requires 0 <= i < |s.players| && s.players[i].id == s.currentPlayerId && UniquePlayerIds(s.players)
    requires s.phase == MainGame
    requires forall k :: 0 <= k < |s.players| ==> VictoryPoints(s.players[k], s) < 10
    ensures EndTurnResult(s).Some?
    ensures EndTurnResult(s).value.currentPlayerId == s.players[(i + 1) % |s.players|].id
    ensures EndTurnResult(s).value.turnPhase == DiceRoll && EndTurnResult(s).value.phase == MainGame
    ensures EndTurnResult(s).value.turnNumber == s.turnNumber + 1 && EndTurnResult(s).value.winner == s.winner
  {
    var ps := Rescored(s);
    RescoredPlayers(s);
    assert forall k :: 0 <= k < |ps| ==> ps[k].victoryPoints < 10;
    NextPlayerOrder(s.(players := ps), i);
  }

  // ===========================================================================
  // The robber
  // ===========================================================================

  /** The store's robber action on a state: move, steal for the current player if a victim is named, then act. */
  function RobberAction(s: GameState, hexId: HexId, stealFrom: Option<PlayerId>, pick: nat): (r: GameState)
    requires Steals(stealFrom) ==> ValidPick(s.players, stealFrom.value, pick)
  {
    var moved := HandleMoveRobber(s, hexId);
    var robbed := if Steals(stealFrom) then StealResourceResult(moved, stealFrom.value, s.currentPlayerId, pick) else moved;
    robbed.(turnPhase := Actions)
  }

  /**
   * After the robber action the turn is in the action phase, a board with
   * one robber (unique hex ids) still has one, and, with unique player ids
   * and a victim other than the current player, every resource total over
   * all players is what it was.
   */
  lemma RobberActionEffect(s: GameState, hexId: HexId, stealFrom: Option<PlayerId>, pick: nat)
    requires Steals(stealFrom) ==> ValidPick(s.players, stealFrom.value, pick)
    ensures RobberAction(s, hexId, stealFrom, pick).turnPhase == Actions
    ensures RobberAction(s, hexId, stealFrom, pick).hexes == HandleMoveRobber(s, hexId).hexes
    ensures UniqueHexIds(s.hexes) && OneRobber(s.hexes) ==> OneRobber(RobberAction(s, hexId, stealFrom, pick).hexes)
    ensures UniquePlayerIds(s.players) && (Steals(stealFrom) ==> stealFrom.value != s.currentPlayerId) ==>
      forall k :: ResourceSum(RobberAction(s, hexId, stealFrom, pick).players, k) == ResourceSum(s.players, k)
    ensures !Steals(stealFrom) ==> RobberAction(s, hexId, stealFrom, pick).players == s.players
  {
    var moved := HandleMoveRobber(s, hexId);
    if UniqueHexIds(s.hexes) && OneRobber(s.hexes) {
      MoveRobberKeepsOne(s, hexId);
    }
    if Steals(stealFrom) && UniquePlayerIds(s.players) && stealFrom.value != s.currentPlayerId {
      StealResourceConserves(moved, stealFrom.value, s.currentPlayerId, pick);
    }
  }

  // ===========================================================================
  // Discarding
  // ===========================================================================

  /** `ids.filter(id => id !== pid)`. */
  function Without(ids: seq<PlayerId>, pid: PlayerId): (r: seq<PlayerId>)
    ensures |r| <= |ids|
  {
    if |ids| == 0 then []
    else Without(ids[..|ids| - 1], pid) + (if ids[|ids| - 1] != pid then [ids[|ids| - 1]] else [])
  }

  /** The list keeps every other id, in order and with its repetitions, and loses every copy of `pid`. */
  lemma {:induction false} WithoutEffect(ids: seq<PlayerId>, pid: PlayerId)
    ensures forall x :: x in Without(ids, pid) <==> x in ids && x != pid
    ensures forall x :: x != pid ==> multiset(Without(ids, pid))[x] == multiset(ids)[x]
    ensures |Without(ids, pid)| == |ids| - multiset(ids)[pid]
  {
    if |ids| > 0 {
      var n := |ids| - 1;
      WithoutEffect(ids[..n], pid);
      assert ids == ids[..n] + [ids[n]];
    }
  }

  // ===========================================================================
  // The store
  // ===========================================================================

  class Store {
    var gameState: Option<GameState>
    var playersNeedingDiscard: seq<PlayerId>

    /** Before a game starts there is no state and nobody has to discard. */
    constructor()
      ensures gameState.None? && playersNeedingDiscard == []
    {
      gameState := None;
      playersNeedingDiscard := [];
    }

    /** `rollDice` with the two dice given. */
    method RollDice(die1: int, die2: int)
      requires 1 <= die1 <= 6 && 1 <= die2 <= 6
      modifies this
      ensures old(gameState).None? ==> gameState == old(gameState) && playersNeedingDiscard == old(playersNeedingDiscard)
      ensures old(gameState).Some? ==> gameState == Some(Rolled(old(gameState).value, die1, die2))
      ensures old(gameState).Some? && die1 + die2 != 7 ==> playersNeedingDiscard == old(playersNeedingDiscard)
      ensures old(gameState).Some? && die1 + die2 == 7 ==> playersNeedingDiscard == Discarders(old(gameState).value.players)
    {
      if gameState.None? {
        return;
      }
      var state := gameState.value;
      var sum := die1 + die2;
      if sum != 7 {
        var updatedState := GameUtils.DistributeResources(sum, state);
        gameState := Some(updatedState.(lastDiceRoll := Some((die1, die2)), turnPhase := Actions));
      } else {
        var playersToDiscard := Discarders(state.players);
        gameState := Some(state.(lastDiceRoll := Some((die1, die2)), turnPhase := RobberActivation));
        playersNeedingDiscard := playersToDiscard;
      }
    }

    /** `buildRoad`: the current player builds; in initial placement the turn then moves on. */
    method BuildRoad(edgeId: EdgeId)
      modifies this
      ensures playersNeedingDiscard == old(playersNeedingDiscard)
      ensures old(gameState).None? ==> gameState == old(gameState)
      ensures old(gameState).Some? ==> gameState == Some(RoadAction(old(gameState).value, edgeId))
    {
      if gameState.None? {
        return;
      }
      var state := gameState.value;
      var currentPlayer := FindPlayer(state.players, state.currentPlayerId);
      if currentPlayer.None? {
        return;
      }
      var isInitialPlacement := state.phase == InitialPlacement;
      var newState := HandleBuildRoad(currentPlayer.value.id, edgeId, state, isInitialPlacement);
      if newState.phase == InitialPlacement {
        var nextPlayer := GetNextPlayer(newState);
        var allPlayersPlaced := BuildingsPlaced(newState.vertices);
        var totalPlacementsNeeded := |newState.players| * 2;
        if allPlayersPlaced >= totalPlacementsNeeded {
          gameState := Some(newState.(phase := MainGame, turnPhase := DiceRoll, currentPlayerId := newState.players[0].id));
        } else {
          var updatedRound := newState.initialPlacementRound;
          if newState.initialPlacementRound == 1 && allPlayersPlaced == |newState.players| {
            updatedRound := 2;
          }
          gameState := Some(newState.(currentPlayerId := nextPlayer.value.id, initialPlacementRound := updatedRound));
        }
      } else {
        gameState := Some(newState);
      }
    }

    /** `buildSettlement` for the current player. */
    method BuildSettlement(vertexId: VertexId)
      modifies this
      ensures playersNeedingDiscard == old(playersNeedingDiscard)
      ensures old(gameState).None? ==> gameState == old(gameState)
      ensures old(gameState).Some? ==> gameState == Some(SettlementAction(old(gameState).value, vertexId))
    {
      if gameState.None? {
        return;
      }
      var state := gameState.value;
      var currentPlayer := FindPlayer(state.players, state.currentPlayerId);
      if currentPlayer.None? {
        return;
      }
      var isInitialPlacement := state.phase == InitialPlacement;
      var newState := HandleBuildSettlement(currentPlayer.value.id, vertexId, state, isInitialPlacement);
      if newState.phase == InitialPlacement {
        var vertex := FindVertex(newState.vertices, vertexId);
        if vertex.Some? {
          gameState := Some(newState);
        }
      } else {
        gameState := Some(newState);
      }
    }

    /** `buildCity` for the current player. */
    method BuildCity(vertexId: VertexId)
      modifies this
      ensures playersNeedingDiscard == old(playersNeedingDiscard)
      ensures old(gameState).None? ==> gameState == old(gameState)
      ensures old(gameState).Some? ==> gameState == Some(CityAction(old(gameState).value, vertexId))
    {
      if gameState.None? {
        return;
      }
      var state := gameState.value;
      var currentPlayer := FindPlayer(state.players, state.currentPlayerId);
      if currentPlayer.None? {
        return;
      }
      var newState := HandleBuildCity(currentPlayer.value.id, vertexId, state);
      gameState := Some(newState);
    }

    /** `endTurn`: recompute the scores player by player, then end the game or pass the turn. */
    method EndTurn()
      modifies this
      ensures playersNeedingDiscard == old(playersNeedingDiscard)
      ensures old(gameState).None? || EndTurnResult(old(gameState).value).None? ==> gameState == old(gameState)
      ensures old(gameState).Some? && EndTurnResult(old(gameState).value).Some? ==> gameState == EndTurnResult(old(gameState).value)
    {
      if gameState.None? {
        return;
      }
      var state := gameState.value;
      var updatedPlayers := [];
      for k := 0 to |state.players|
        invariant gameState == old(gameState) && playersNeedingDiscard == old(playersNeedingDiscard)
        invariant |updatedPlayers| == k
        invariant forall j :: 0 <= j < k ==> updatedPlayers[j] == Rescored(state)[j]
      {
        var points := CalculateVictoryPoints(state.players[k], state);
        updatedPlayers := updatedPlayers + [state.players[k].(victoryPoints := points)];
      }
      assert updatedPlayers == Rescored(state);
      var winner := FirstWinner(updatedPlayers);
      if winner.Some? {
        gameState := Some(state.(players := updatedPlayers, phase := GameOver, winner := Some(winner.value.id)));
        return;
      }
      var nextPlayer := GetNextPlayer(state.(players := updatedPlayers));
      if nextPlayer.None? {
        return;
      }
      gameState := Some(state.(players := updatedPlayers, currentPlayerId := nextPlayer.value.id, turnPhase := DiceRoll,
                               turnNumber := state.turnNumber + 1));
    }

    /** `moveRobber`: move it, steal for the current player when a victim is named, and return to actions. */
    method MoveRobber(hexId: HexId, stealFromPlayerId: Option<PlayerId>, pick: nat)
      requires gameState.Some? && Steals(stealFromPlayerId) ==> ValidPick(gameState.value.players, stealFromPlayerId.value, pick)
      modifies this
      ensures playersNeedingDiscard == old(playersNeedingDiscard)
      ensures old(gameState).None? ==> gameState == old(gameState)
      ensures old(gameState).Some? ==> gameState == Some(RobberAction(old(gameState).value, hexId, stealFromPlayerId, pick))
    {
      if gameState.None? {
        return;
      }
      var state := gameState.value;
      var newState := HandleMoveRobber(state, hexId);
      if Steals(stealFromPlayerId) {
        newState := HandleStealResource(newState, stealFromPlayerId.value, state.currentPlayerId, pick);
      }
      gameState := Some(newState.(turnPhase := Actions));
    }

    /** `discardResources`: apply the discard and take the player off the waiting list. */
    method DiscardResources(playerId: PlayerId, resources: Bundle)
      modifies this
      ensures old(gameState).None? ==> gameState == old(gameState) && playersNeedingDiscard == old(playersNeedingDiscard)
      ensures old(gameState).Some? ==>
        gameState == Some(DiscardResult(old(gameState).value, playerId, resources)) &&
        playersNeedingDiscard == Without(old(playersNeedingDiscard), playerId)
    {
      if gameState.None? {
        return;
      }
      var newState := HandleDiscardResources(gameState.value, playerId, resources);
      var remainingPlayers := Without(playersNeedingDiscard, playerId);
      gameState := Some(newState);
      playersNeedingDiscard := remainingPlayers;
    }
  }
}
