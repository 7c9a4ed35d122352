/**
 * Game utilities (lib/utils/gameUtils.ts): a new player, the initial game
 * state with its shuffled development-card deck, player lookup, the
 * snake-order turn rotation, the victory check, the legal build sites of a
 * player, and the resource distribution of a dice roll applied to the state.
 * The random swap indices of the deck shuffle are a parameter.
 */
module GameUtils {
  import opened Types
  import opened Constants
  import opened Validators
  import opened Calculators
  import opened ActionHandlers
  import opened MapGenerator

  // ===========================================================================
  // Players
  // ===========================================================================

  /** `createPlayer`: no resources, the full stock of pieces, no cards, no points and no badges. */
  function CreatePlayer(id: PlayerId, name: string, color: string, kind: PlayerKind): (p: Player)
    ensures p.id == id && p.name == name && p.color == color && p.kind == kind
  {
    Player(id, name, color, kind, NoResources, InitialSettlements, InitialCities, InitialRoads,
           [], [], 0, 0, false, false)
  }

  /**
   * A new player holds nothing: every resource count is 0, so none of the
   * four purchases is affordable; all pieces are in stock; no card is in hand
   * or played; and the player has not won.
   */
  lemma NewPlayerHoldsNothing(id: PlayerId, name: string, color: string, kind: PlayerKind)
    ensures forall k :: CreatePlayer(id, name, color, kind).resources.Get(k) == 0
    ensures CreatePlayer(id, name, color, kind).resources.Total() == 0
    ensures !HasResources(CreatePlayer(id, name, color, kind), RoadCost)
    ensures !HasResources(CreatePlayer(id, name, color, kind), SettlementCost)
    ensures !HasResources(CreatePlayer(id, name, color, kind), CityCost)
    ensures !HasResources(CreatePlayer(id, name, color, kind), DevCardCost)
    ensures CreatePlayer(id, name, color, kind).settlements == 5
    ensures CreatePlayer(id, name, color, kind).cities == 4
    ensures CreatePlayer(id, name, color, kind).roads == 15
    ensures CreatePlayer(id, name, color, kind).devCards == [] && CreatePlayer(id, name, color, kind).playedDevCards == []
    ensures !CheckVictory(CreatePlayer(id, name, color, kind))
  {
    var p := CreatePlayer(id, name, color, kind);
    assert Wood in RoadCost && RoadCost[Wood] == 1;
    assert Wood in SettlementCost && SettlementCost[Wood] == 1;
    assert Wheat in CityCost && CityCost[Wheat] == 2;
    assert Sheep in DevCardCost && DevCardCost[Sheep] == 1;
  }

  /** `getPlayerById`: the first player with the id, or none. */
  function GetPlayerById(playerId: PlayerId, s: GameState): (r: Option<Player>)
    ensures r.None? <==> forall i :: 0 <= i < |s.players| ==> s.players[i].id != playerId
    ensures r.Some? ==> r.value in s.players && r.value.id == playerId
  {
    FindPlayer(s.players, playerId)
  }

  /** `checkVictory`: the stored victory points reach the winning total. */
  function CheckVictory(player: Player): (r: bool)
    ensures r <==> player.victoryPoints >= 10
  {
    player.victoryPoints >= VictoryPointsToWin
  }

  // ===========================================================================
  // The initial game state
  // ===========================================================================

  /** The deck `createInitialGameState` deals from: the deck table expanded and shuffled under `js`. */
  function InitialDeck(js: seq<nat>): (deck: seq<DevCard>)
    requires SwapIndices(js, |Expand(DevCardDeck)|)
    ensures |deck| == |Expand(DevCardDeck)|
  {
    Shuffled(Expand(DevCardDeck), js)
  }

  /**
   * `createInitialGameState`: the deck is laid out from the deck table and
   * shuffled by the same last-to-first Fisher–Yates loop as `shuffleArray`;
   * the game opens in initial placement, round 1 and turn 1 with the first
   * player to move. Reading the first player of an empty list throws; that
   * is `None` here.
   */
  method CreateInitialGameState(players: seq<Player>, hexes: seq<Hex>, vertices: seq<Vertex>, edges: seq<Edge>,
                                js: seq<nat>)
    returns (r: Option<GameState>)
    requires SwapIndices(js, |Expand(DevCardDeck)|)
    ensures r.None? <==> |players| == 0
    ensures r.Some? ==> (r.value ==
      GameState(InitialPlacement, Actions, players[0].id, players, hexes, vertices, edges, InitialDeck(js),
                None, None, None, 1, None, 1, None))
  {
    var ordered := ExpandTable(DevCardDeck);
    var devCardDeck := ShuffleArray(ordered, js);
    if |players| == 0 {
      return None;
    }
    r := Some(GameState(InitialPlacement, Actions, players[0].id, players, hexes, vertices, edges, devCardDeck,
                        None, None, None, 1, None, 1, None));
  }

  /**
   * The initial state holds all 25 development cards, 14 knights, 5 victory
   * points and 2 of each progress card, whatever the shuffle; nobody has won,
   * no badge is held and no dice were rolled.
   */
  lemma InitialStateProperties(players: seq<Player>, hexes: seq<Hex>, vertices: seq<Vertex>, edges: seq<Edge>,
                               js: seq<nat>, s: GameState)
    requires SwapIndices(js, |Expand(DevCardDeck)|) && |players| > 0
    requires s == GameState(InitialPlacement, Actions, players[0].id, players, hexes, vertices, edges, InitialDeck(js),
                            None, None, None, 1, None, 1, None)
    ensures |s.devCardDeck| == 25
    ensures forall c :: multiset(s.devCardDeck)[c] == DeckCount(c)
    ensures multiset(s.devCardDeck) == multiset(Expand(DevCardDeck))
    ensures s.phase == InitialPlacement && s.initialPlacementRound == 1 && s.turnNumber == 1
    ensures s.currentPlayerId == players[0].id && s.winner.None?
    ensures s.longestRoadPlayerId.None? && s.largestArmyPlayerId.None? && s.lastDiceRoll.None?
  {
    DevCardDeckComposition();
    ShuffledPermutes(Expand(DevCardDeck), js);
  }

  // ===========================================================================
  // Turn order
  // ===========================================================================

  /**
   * The index `getNextPlayer` reads: in initial placement, forward in round 1
   * stopping at the last player and backward otherwise stopping at the first;
   * in any other phase, round robin. A current id no player has counts as
   * index -1, as `findIndex` gives.
   */
  function NextIndex(s: GameState): int
  {
    var current := IndexOfPlayer(s.players, s.currentPlayerId);
    var n := |s.players|;
    if s.phase == InitialPlacement then
      if s.initialPlacementRound == 1 then
        if current + 1 >= n then n - 1 else current + 1
      else
        if current - 1 < 0 then 0 else current - 1
    else if n == 0 then -1
    else (current + 1) % n
  }

  /** `getNextPlayer`; reading outside the list (an empty list) gives no player. */
  function GetNextPlayer(s: GameState): (r: Option<Player>)
    ensures r.Some? <==> |s.players| > 0
    ensures r.Some? ==> r.value in s.players
  {
    var i := NextIndex(s);
    if 0 <= i < |s.players| then Some(s.players[i]) else None
  }

  /**
   * The rotation from the current player at index `i`: in round 1 of
   * initial placement the next index is min(i+1, n-1), in round 2 it is
   * max(i-1, 0), and in the main game it is (i+1) mod n.
   */
  lemma NextPlayerOrder(s: GameState, i: int)
    requires UniquePlayerIds(s.players) && 0 <= i < |s.players| && s.players[i].id == s.currentPlayerId
    ensures s.phase == InitialPlacement && s.initialPlacementRound == 1 ==>
      GetNextPlayer(s) == Some(s.players[if i + 1 < |s.players| then i + 1 else |s.players| - 1])
    ensures s.phase == InitialPlacement && s.initialPlacementRound != 1 ==>
      GetNextPlayer(s) == Some(s.players[if i > 0 then i - 1 else 0])
    ensures s.phase != InitialPlacement ==> GetNextPlayer(s) == Some(s.players[(i + 1) % |s.players|])
  {
    FindUniquePlayer(s.players, i);
  }

  /**
   * In the main game with at least two players the turn always passes to
   * someone else, and after the last player comes the first again.
   */
  lemma MainGameRotates(s: GameState, i: int)
    requires UniquePlayerIds(s.players) && 0 <= i < |s.players| && s.players[i].id == s.currentPlayerId
    requires s.phase != InitialPlacement && |s.players| >= 2
    ensures GetNextPlayer(s).Some? && GetNextPlayer(s).value.id != s.currentPlayerId
    ensures i == |s.players| - 1 ==> GetNextPlayer(s) == Some(s.players[0])
  {
    NextPlayerOrder(s, i);
    var n := |s.players|;
    WrapAround(i + 1, n);
  }

  lemma WrapAround(a: int, n: int)
    requires 0 < a <= n
    ensures a % n == (if a == n then 0 else a)
  {
  }

  // ===========================================================================
  // Legal build sites
  // ===========================================================================

  /** A settlement site of `pid`: empty, no building on any neighbour, and touching a road of `pid`. */
  predicate SettlementSite(s: GameState, vx: Vertex, pid: PlayerId)
  {
    vx.building.None? && DistanceRuleHolds(s, vx) && TouchesRoadOf(s, vx, pid)
  }

  /** The ids of the settlement sites among `vs`, in order. */
  function SettlementSites(s: GameState, vs: seq<Vertex>, pid: PlayerId): (r: seq<VertexId>)
    ensures |r| <= |vs|
  {
    if |vs| == 0 then []
    else
      var last := vs[|vs| - 1];
      SettlementSites(s, vs[..|vs| - 1], pid) + (if SettlementSite(s, last, pid) then [last.id] else [])
  }

  /** `getAvailableSettlementPositions`: one pass over the vertices collecting the sites. */
  method GetAvailableSettlementPositions(playerId: PlayerId, s: GameState) returns (availableVertices: seq<VertexId>)
    ensures availableVertices == SettlementSites(s, s.vertices, playerId)
  {
    availableVertices := [];
    for i := 0 to |s.vertices|
      invariant availableVertices == SettlementSites(s, s.vertices[..i], playerId)
    {
      assert s.vertices[..i + 1][..i] == s.vertices[..i];
      var vertex := s.vertices[i];
      if vertex.building.Some? {
        continue;
      }
      if !DistanceRuleHolds(s, vertex) {
        continue;
      }
      if !TouchesRoadOf(s, vertex, playerId) {
        continue;
      }
      availableVertices := availableVertices + [vertex.id];
    }
    assert s.vertices[..|s.vertices|] == s.vertices;
  }

  /** An id is listed exactly when some vertex with that id is a site. */
  lemma {:induction false} SettlementSitesCharacterised(s: GameState, vs: seq<Vertex>, pid: PlayerId, vid: VertexId)
    ensures vid in SettlementSites(s, vs, pid) <==> exists i :: 0 <= i < |vs| && vs[i].id == vid && SettlementSite(s, vs[i], pid)
  {
    if |vs| > 0 {
      var n := |vs| - 1;
      var prefix := SettlementSites(s, vs[..n], pid);
      var site := SettlementSite(s, vs[n], pid);
      assert SettlementSites(s, vs, pid) == prefix + (if site then [vs[n].id] else []);
      SettlementSitesCharacterised(s, vs[..n], pid, vid);
      if vid in prefix {
        var i :| 0 <= i < n && vs[..n][i].id == vid && SettlementSite(s, vs[..n][i], pid);
        assert vs[i] == vs[..n][i];
      } else if vid in SettlementSites(s, vs, pid) {
        assert site && vs[n].id == vid;
      }
      forall i | 0 <= i < |vs| && vs[i].id == vid && SettlementSite(s, vs[i], pid) ensures vid in SettlementSites(s, vs, pid) {
        if i < n {
          assert vs[..n][i] == vs[i];
        }
      }
    }
  }

  /**
   * With unique vertex ids, the listed sites are exactly the vertices where
   * the build check accepts a settlement of a player who has one in stock
   * and can pay for it.
   */
  lemma SettlementSitesAgree(s: GameState, player: Player, vid: VertexId)
    requires UniqueVertexIds(s.vertices)
    requires player.settlements > 0 && HasResources(player, SettlementCost)
    ensures vid in SettlementSites(s, s.vertices, player.id) <==> CanBuildSettlement(player, vid, s, false).Valid?
  {
    SettlementSitesCharacterised(s, s.vertices, player.id, vid);
    if vid in SettlementSites(s, s.vertices, player.id) {
      var i :| 0 <= i < |s.vertices| && s.vertices[i].id == vid && SettlementSite(s, s.vertices[i], player.id);
      FindUniqueVertex(s.vertices, i);
    }
    if CanBuildSettlement(player, vid, s, false).Valid? {
      var i := IndexOfVertex(s.vertices, vid);
      assert s.vertices[i].id == vid && SettlementSite(s, s.vertices[i], player.id);
    }
  }

  /** A road site of `pid`: a free edge with an end holding a building of `pid` or touching a road of `pid`. */
  predicate RoadSite(s: GameState, e: Edge, pid: PlayerId)
  {
    e.road.None? && RoadConnects(s, e, pid)
  }

  /** The ids of the road sites among `es`, in order. */
  function RoadSites(s: GameState, es: seq<Edge>, pid: PlayerId): (r: seq<EdgeId>)
    ensures |r| <= |es|
  {
    if |es| == 0 then []
    else
      var last := es[|es| - 1];
      RoadSites(s, es[..|es| - 1], pid) + (if RoadSite(s, last, pid) then [last.id] else [])
  }

  /** `getAvailableRoadPositions`: one pass over the edges collecting the sites. */
  method GetAvailableRoadPositions(playerId: PlayerId, s: GameState) returns (availableEdges: seq<EdgeId>)
    ensures availableEdges == RoadSites(s, s.edges, playerId)
  {
    availableEdges := [];
    for i := 0 to |s.edges|
      invariant availableEdges == RoadSites(s, s.edges[..i], playerId)
    {
      assert s.edges[..i + 1][..i] == s.edges[..i];
      var edge := s.edges[i];
      if edge.road.Some? {
        continue;
      }
      var isAdjacent := EndpointConnects(s, edge.u, playerId) || EndpointConnects(s, edge.v, playerId);
      if isAdjacent {
        availableEdges := availableEdges + [edge.id];
      }
    }
    assert s.edges[..|s.edges|] == s.edges;
  }

  /** An id is listed exactly when some edge with that id is a site. */
  lemma {:induction false} RoadSitesCharacterised(s: GameState, es: seq<Edge>, pid: PlayerId, eid: EdgeId)
    ensures eid in RoadSites(s, es, pid) <==> exists i :: 0 <= i < |es| && es[i].id == eid && RoadSite(s, es[i], pid)
  {
    if |es| > 0 {
      var n := |es| - 1;
      var prefix := RoadSites(s, es[..n], pid);
      var site := RoadSite(s, es[n], pid);
      assert RoadSites(s, es, pid) == prefix + (if site then [es[n].id] else []);
      RoadSitesCharacterised(s, es[..n], pid, eid);
      if eid in prefix {
        var i :| 0 <= i < n && es[..n][i].id == eid && RoadSite(s, es[..n][i], pid);
        assert es[i] == es[..n][i];
      } else if eid in RoadSites(s, es, pid) {
        assert site && es[n].id == eid;
      }
      forall i | 0 <= i < |es| && es[i].id == eid && RoadSite(s, es[i], pid) ensures eid in RoadSites(s, es, pid) {
        if i < n {
          assert es[..n][i] == es[i];
        }
      }
    }
  }

  /**
   * With unique edge ids, the listed sites are exactly the edges where the
   * road check (its board conditions: the edge exists, is free and
   * connects) accepts a road of a player with a road in stock.
   */
  lemma RoadSitesAgree(s: GameState, player: Player, eid: EdgeId)
    requires UniqueEdgeIds(s.edges) && player.roads > 0
    ensures eid in RoadSites(s, s.edges, player.id) <==> CanBuildRoad(player, eid, s, true).Valid?
  {
    RoadSitesCharacterised(s, s.edges, player.id, eid);
    if eid in RoadSites(s, s.edges, player.id) {
      var i :| 0 <= i < |s.edges| && s.edges[i].id == eid && RoadSite(s, s.edges[i], player.id);
      FindUniqueEdge(s.edges, i);
    }
    if CanBuildRoad(player, eid, s, true).Valid? {
      var i := IndexOfEdge(s.edges, eid);
      assert s.edges[i].id == eid && RoadSite(s, s.edges[i], player.id);
    }
  }

  // ===========================================================================
  // Resource distribution applied to the state
  // ===========================================================================

  /** `res` with `gain` added resource by resource. */
  function Plus(res: Resources, gain: Resources): (r: Resources)
    ensures forall k :: r.Get(k) == res.Get(k) + gain.Get(k)
  {
    Resources(res.wood + gain.wood, res.brick + gain.brick, res.sheep + gain.sheep,
              res.wheat + gain.wheat, res.ore + gain.ore)
  }

  /** What the hexes `hs` yield to `pid`, resource by resource. */
  function Gains(s: GameState, hs: seq<Hex>, pid: PlayerId): (r: Resources)
    ensures forall k :: r.Get(k) == RollYield(s, hs, pid, k)
  {
    Resources(RollYield(s, hs, pid, Wood), RollYield(s, hs, pid, Brick), RollYield(s, hs, pid, Sheep),
              RollYield(s, hs, pid, Wheat), RollYield(s, hs, pid, Ore))
  }

  /**
   * The players after the hexes `hs` have produced: each building's yield
   * goes to the first player with the owner's id; a building whose owner is
   * no player yields nothing.
   */
  function Credited(s: GameState, ps: seq<Player>, hs: seq<Hex>): (r: seq<Player>)
    ensures |r| == |ps|
  {
    seq(|ps|, k requires 0 <= k < |ps| =>
      if IndexOfPlayer(ps, ps[k].id) == k then ps[k].(resources := Plus(ps[k].resources, Gains(s, hs, ps[k].id)))
      else ps[k])
  }

  /** The state after a roll of `roll` has produced. */
  function Distributed(s: GameState, roll: int): GameState
  {
    s.(players := Credited(s, s.players, ActiveHexes(s.hexes, roll)))
  }

  /**
   * `updated` is `players` after the hexes `hs` have produced: only
   * resources changed, and each first entry of an id gained that id's yield
   * from those hexes.
   */
  predicate HexesCredited(players: seq<Player>, updated: seq<Player>, s: GameState, hs: seq<Hex>)
  {
    |updated| == |players| &&
    (forall k :: 0 <= k < |players| ==> updated[k] == players[k].(resources := updated[k].resources)) &&
    (forall k, q :: 0 <= k < |players| ==> (updated[k].resources.Get(q) == players[k].resources.Get(q) +
      (if IndexOfPlayer(players, players[k].id) == k then RollYield(s, hs, players[k].id, q) else 0)))
  }

  /**
   * `distributeResources`: every robber-free hex showing the roll credits
   * the owners of the buildings on its corners, through a copy of the
   * players updated entry by entry.
   */
  method DistributeResources(diceSum: int, s: GameState) returns (r: GameState)
    ensures r == Distributed(s, diceSum)
  {
    var activeHexes := ActiveHexes(s.hexes, diceSum);
    if |activeHexes| == 0 {
      NoGainWithoutHexes(s, s.players, activeHexes);
      return s;
    }
    var updatedPlayers := s.players;
    assert forall pid, q :: RollYield(s, activeHexes[..0], pid, q) == 0;
    for i := 0 to |activeHexes|
      invariant HexesCredited(s.players, updatedPlayers, s, activeHexes[..i])
    {
      var hex := activeHexes[i];
      assert activeHexes[..i + 1] == activeHexes[..i] + [hex];
      var resource := TerrainToResource(hex.terrain);
      if resource.None? {
        HexSkipped(s.players, updatedPlayers, s, activeHexes[..i], hex);
        continue;
      }
      var next := CreditCorners(updatedPlayers, hex.vertexIds, resource.value, s);
      HexProduced(s.players, updatedPlayers, next, s, activeHexes[..i], hex);
      updatedPlayers := next;
    }
    assert activeHexes[..|activeHexes|] == activeHexes;
    CreditedByHexes(s, s.players, updatedPlayers, activeHexes);
    r := s.(players := updatedPlayers);
  }

  /** A desert among the active hexes produces nothing. */
  lemma HexSkipped(players: seq<Player>, updated: seq<Player>, s: GameState, hs: seq<Hex>, hex: Hex)
    requires HexesCredited(players, updated, s, hs) && TerrainToResource(hex.terrain).None?
    ensures HexesCredited(players, updated, s, hs + [hex])
  {
    assert (hs + [hex])[..|hs|] == hs;
  }

  /** A producing hex adds its corners' credits to what the earlier hexes gave. */
  lemma HexProduced(players: seq<Player>, updated: seq<Player>, next: seq<Player>, s: GameState, hs: seq<Hex>, hex: Hex)
    requires HexesCredited(players, updated, s, hs) && TerrainToResource(hex.terrain).Some?
    requires CornersCredited(updated, next, s, hex.vertexIds, TerrainToResource(hex.terrain).value)
    ensures HexesCredited(players, next, s, hs + [hex])
  {
    assert (hs + [hex])[..|hs|] == hs;
    var res := TerrainToResource(hex.terrain).value;
    forall k, q | 0 <= k < |players|
      ensures next[k].resources.Get(q) == players[k].resources.Get(q) +
        (if IndexOfPlayer(players, players[k].id) == k then RollYield(s, hs + [hex], players[k].id, q) else 0)
    {
      IndexFrame(players, updated, players[k].id);
    }
  }

  /** Players credited with the yield of `hs` are the players `Credited` describes. */
  lemma CreditedByHexes(s: GameState, players: seq<Player>, updated: seq<Player>, hs: seq<Hex>)
    requires HexesCredited(players, updated, s, hs)
    ensures updated == Credited(s, players, hs)
  {
    forall k | 0 <= k < |players|
      ensures updated[k] == Credited(s, players, hs)[k]
    {
      if IndexOfPlayer(players, players[k].id) == k {
        ResourcesExt(updated[k].resources, Plus(players[k].resources, Gains(s, hs, players[k].id)));
      } else {
        ResourcesExt(updated[k].resources, players[k].resources);
      }
    }
  }

  /**
   * `updated` is `players` after the corners `vids` of a hex producing `res`
   * have credited their owners: only resources changed, and each first
   * entry of an id gained that id's yield from those corners.
   */
  predicate CornersCredited(players: seq<Player>, updated: seq<Player>, s: GameState, vids: seq<VertexId>, res: Resource)
  {
    |updated| == |players| &&
    (forall k :: 0 <= k < |players| ==> updated[k] == players[k].(resources := updated[k].resources)) &&
    (forall k, q :: 0 <= k < |players| ==> (updated[k].resources.Get(q) == players[k].resources.Get(q) +
      (if q == res && IndexOfPlayer(players, players[k].id) == k then HexYield(s, vids, players[k].id) else 0)))
  }

  /**
   * The inner pass over one hex's corners: each settlement or city credits
   * 1 or 2 of `res` to the first player with its owner's id.
   */
  method CreditCorners(players: seq<Player>, vertexIds: seq<VertexId>, res: Resource, s: GameState)
    returns (updated: seq<Player>)
    ensures CornersCredited(players, updated, s, vertexIds, res)
  {
    updated := players;
    assert forall pid :: HexYield(s, vertexIds[..0], pid) == 0;
    for j := 0 to |vertexIds|
      invariant CornersCredited(players, updated, s, vertexIds[..j], res)
    {
      assert vertexIds[..j + 1] == vertexIds[..j] + [vertexIds[j]];
      var vertex := FindVertex(s.vertices, vertexIds[j]);
      if vertex.None? || vertex.value.building.None? {
        CornerSkipped(players, updated, s, vertexIds[..j], vertexIds[j], res);
        continue;
      }
      var b := vertex.value.building.value;
      CreditedKeepsIds(players, updated, s, vertexIds[..j], res);
      IndexFrame(players, updated, b.owner);
      var playerIndex := IndexOfPlayer(updated, b.owner);
      if playerIndex == -1 {
        CornerSkipped(players, updated, s, vertexIds[..j], vertexIds[j], res);
        continue;
      }
      var resourceCount := if b.kind == Settlement then 1 else 2;
      assert resourceCount == BuildingYield(b);
      var p := updated[playerIndex];
      var next := updated[playerIndex := p.(resources := p.resources.With(res, p.resources.Get(res) + resourceCount))];
      CornerCredited(players, updated, next, s, vertexIds[..j], vertexIds[j], res, b, playerIndex, p, resourceCount);
      updated := next;
    }
    assert vertexIds[..|vertexIds|] == vertexIds;
  }

  lemma CreditedKeepsIds(players: seq<Player>, updated: seq<Player>, s: GameState, vids: seq<VertexId>, res: Resource)
    requires CornersCredited(players, updated, s, vids, res)
    ensures |players| == |updated| && forall i :: 0 <= i < |players| ==> players[i].id == updated[i].id
  {
  }

  /** A corner without a building, or whose owner is no player, credits nobody. */
  lemma CornerSkipped(players: seq<Player>, updated: seq<Player>, s: GameState, vids: seq<VertexId>, v: VertexId, res: Resource)
    requires CornersCredited(players, updated, s, vids, res)
    requires FindVertex(s.vertices, v).None? || FindVertex(s.vertices, v).value.building.None? ||
             IndexOfPlayer(players, FindVertex(s.vertices, v).value.building.value.owner) == -1
    ensures CornersCredited(players, updated, s, vids + [v], res)
  {
    assert (vids + [v])[..|vids|] == vids;
  }

  /** A building at the corner credits its yield to the first player with its owner's id. */
  lemma CornerCredited(players: seq<Player>, updated: seq<Player>, next: seq<Player>, s: GameState,
                       vids: seq<VertexId>, v: VertexId, res: Resource, b: Building, pi: int, p: Player, amount: int)
    requires CornersCredited(players, updated, s, vids, res)
    requires FindVertex(s.vertices, v).Some? && FindVertex(s.vertices, v).value.building == Some(b)
    requires pi == IndexOfPlayer(players, b.owner) && 0 <= pi < |updated| && p == updated[pi] && amount == BuildingYield(b)
    requires next == updated[pi := p.(resources := p.resources.With(res, p.resources.Get(res) + amount))]
    ensures CornersCredited(players, next, s, vids + [v], res)
  {
    assert (vids + [v])[..|vids|] == vids;
    forall k, q | 0 <= k < |players|
      ensures next[k].resources.Get(q) == players[k].resources.Get(q) +
        (if q == res && IndexOfPlayer(players, players[k].id) == k then HexYield(s, vids + [v], players[k].id) else 0)
    {
      HexYieldSnoc(s, vids, v, players[k].id);
      if k == pi {
        assert players[k].id == b.owner;
      }
    }
  }

  lemma NoGainWithoutHexes(s: GameState, ps: seq<Player>, hs: seq<Hex>)
    requires hs == []
    ensures Credited(s, ps, hs) == ps
  {
    forall k | 0 <= k < |ps| ensures Credited(s, ps, hs)[k] == ps[k] {
      ResourcesExt(Plus(ps[k].resources, Gains(s, hs, ps[k].id)), ps[k].resources);
    }
  }

  /**
   * A roll changes nothing but the players' resources: with no robber-free
   * hex showing it the state is the same; otherwise, with unique player ids,
   * each player gains exactly the yield of the roll, which is never
   * negative, so no count decreases.
   */
  lemma DistributionEffect(s: GameState, roll: int)
    requires UniquePlayerIds(s.players)
    ensures Distributed(s, roll) == s.(players := Distributed(s, roll).players)
    ensures |Distributed(s, roll).players| == |s.players|
    ensures forall k :: 0 <= k < |s.players| ==>
      Distributed(s, roll).players[k] == s.players[k].(resources := Distributed(s, roll).players[k].resources)
    ensures forall k, q :: 0 <= k < |s.players| ==>
      Distributed(s, roll).players[k].resources.Get(q) == s.players[k].resources.Get(q) + Yield(s, roll, s.players[k].id, q)
    ensures forall k, q :: 0 <= k < |s.players| ==>
      Distributed(s, roll).players[k].resources.Get(q) >= s.players[k].resources.Get(q)
    ensures (forall i :: 0 <= i < |s.hexes| ==> s.hexes[i].number != Some(roll) || s.hexes[i].hasRobber) ==>
      Distributed(s, roll) == s
  {
    forall k, q | 0 <= k < |s.players|
      ensures Distributed(s, roll).players[k].resources.Get(q) == s.players[k].resources.Get(q) + Yield(s, roll, s.players[k].id, q)
      ensures Yield(s, roll, s.players[k].id, q) >= 0
    {
      FindUniquePlayer(s.players, k);
      YieldNonNegative(s, roll, s.players[k].id, q);
    }
    if forall i :: 0 <= i < |s.hexes| ==> s.hexes[i].number != Some(roll) || s.hexes[i].hasRobber {
      NoActiveHexes(s.hexes, roll);
      NoGainWithoutHexes(s, s.players, ActiveHexes(s.hexes, roll));
    }
  }

  // ===========================================================================
  // Adjacency on a generated board
  // ===========================================================================

  /**
   * On a generated board the hex with id `h` lists the six distinct corner ids
   * 6h..6h+5, and an id outside 0..18 finds no hex and gives no vertices.
   */
  lemma BoardAdjacentVertices(s: GameState, ts: seq<Terrain>, tokens: seq<int>)
    requires multiset(ts) == multiset(Expand(TerrainDistribution)) && multiset(tokens) == multiset(NumberTokens)
    requires s.hexes == BoardHexes(ts, tokens)
    ensures forall h: HexId :: h < 19 ==> GetAdjacentVertices(h, s) == SlotIds(h)
    ensures forall h: HexId :: h < 19 ==>
      |GetAdjacentVertices(h, s)| == 6 &&
      forall i, j :: 0 <= i < j < 6 ==> GetAdjacentVertices(h, s)[i] != GetAdjacentVertices(h, s)[j]
    ensures forall h: HexId :: h >= 19 ==> GetAdjacentVertices(h, s) == []
  {
    BoardHexesProperties(ts, tokens, s.hexes);
    SlotHexesAdjacency(s);
  }

  /** The vertex lookup on hexes numbered 0..18 whose corners are their slot ids. */
  lemma SlotHexesAdjacency(s: GameState)
    requires |s.hexes| == 19 && forall i :: 0 <= i < 19 ==> s.hexes[i].id == i && s.hexes[i].vertexIds == SlotIds(i)
    ensures forall h: HexId :: h < 19 ==> GetAdjacentVertices(h, s) == SlotIds(h)
    ensures forall h: HexId :: h < 19 ==>
      |GetAdjacentVertices(h, s)| == 6 &&
      forall i, j :: 0 <= i < j < 6 ==> GetAdjacentVertices(h, s)[i] != GetAdjacentVertices(h, s)[j]
    ensures forall h: HexId :: h >= 19 ==> GetAdjacentVertices(h, s) == []
  {
    forall h: HexId | h < 19 ensures GetAdjacentVertices(h, s) == SlotIds(h) {
      assert s.hexes[h].id == h;
      assert UniqueHexIds(s.hexes);
      FindUniqueHex(s.hexes, h);
    }
  }

  /**
   * On a generated board the vertex with id `v` lists the single hex `v / 6`
   * it was created on, and an id outside 0..113 gives no hexes.
   */
  lemma BoardAdjacentHexes(s: GameState, edges: seq<Edge>)
    requires forall k :: 0 <= k < |edges| ==> edges[k].id == k
    requires s.vertices == BoardVertices(edges)
    ensures forall v: VertexId :: v < 114 ==> GetAdjacentHexes(v, s) == [v / 6]
    ensures forall v: VertexId :: v >= 114 ==> GetAdjacentHexes(v, s) == []
  {
    BoardVerticesProperties(edges, s.vertices);
    forall v: VertexId | v < 114 ensures GetAdjacentHexes(v, s) == [v / 6] {
      FindUniqueVertex(s.vertices, v);
    }
  }

  /**
   * The two lookups agree on a generated board: a hex lists a vertex exactly
   * when that vertex lists the hex.
   */
  lemma BoardAdjacency(s: GameState, ts: seq<Terrain>, tokens: seq<int>, edges: seq<Edge>)
    requires multiset(ts) == multiset(Expand(TerrainDistribution)) && multiset(tokens) == multiset(NumberTokens)
    requires s.hexes == BoardHexes(ts, tokens)
    requires forall k :: 0 <= k < |edges| ==> edges[k].id == k
    requires s.vertices == BoardVertices(edges)
    ensures forall h: HexId, v: VertexId :: v in GetAdjacentVertices(h, s) <==> h in GetAdjacentHexes(v, s)
  {
    BoardAdjacentVertices(s, ts, tokens);
    BoardAdjacentHexes(s, edges);
    SlotAdjacencyAgrees(s);
  }

  /** Slot corner lists and single-hex vertex lists are mutually consistent. */
  lemma SlotAdjacencyAgrees(s: GameState)
    requires forall h: HexId :: h < 19 ==> GetAdjacentVertices(h, s) == SlotIds(h)
    requires forall h: HexId :: h >= 19 ==> GetAdjacentVertices(h, s) == []
    requires forall v: VertexId :: v < 114 ==> GetAdjacentHexes(v, s) == [v / 6]
    requires forall v: VertexId :: v >= 114 ==> GetAdjacentHexes(v, s) == []
    ensures forall h: HexId, v: VertexId :: v in GetAdjacentVertices(h, s) <==> h in GetAdjacentHexes(v, s)
  {
    forall h: HexId, v: VertexId ensures v in GetAdjacentVertices(h, s) <==> h in GetAdjacentHexes(v, s) {
      if h < 19 {
        var corners := SlotIds(h);
        if v in corners {
          var i :| 0 <= i < 6 && corners[i] == v;
          assert v == 6 * h + i && v < 114 && v / 6 == h;
        }
        if v < 114 && v / 6 == h {
          assert corners[v % 6] == v;
        }
      }
    }
  }
}
