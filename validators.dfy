/**
 * Side-effect-free legality checks (lib/game-logic/validators.ts). Each check
 * runs its conditions in the source's order and reports the first failure.
 */
module Validators {
  import opened Types
  import opened Constants

  // ---------------------------------------------------------------------------
  // Board predicates shared by the checks, the handlers and the site queries.
  // ---------------------------------------------------------------------------

  /** The edge with id `eid` (first match) carries a road of `pid`. */
  predicate EdgeHasRoadOf(s: GameState, eid: EdgeId, pid: PlayerId)
  {
    match FindEdge(s.edges, eid)
    case None => false
    case Some(e) => e.road == Some(pid)
  }

  /** Some edge listed around the vertex carries a road of `pid`. */
  predicate TouchesRoadOf(s: GameState, vx: Vertex, pid: PlayerId)
  {
    exists i :: 0 <= i < |vx.neighborEdgeIds| && EdgeHasRoadOf(s, vx.neighborEdgeIds[i], pid)
  }

  predicate OwnsBuildingAt(vx: Vertex, pid: PlayerId)
  {
    vx.building.Some? && vx.building.value.owner == pid
  }

  /** The vertex with id `vid` exists and holds a building of `pid` or touches a road of `pid`. */
  predicate EndpointConnects(s: GameState, vid: VertexId, pid: PlayerId)
  {
    match FindVertex(s.vertices, vid)
    case None => false
    case Some(vx) => OwnsBuildingAt(vx, pid) || TouchesRoadOf(s, vx, pid)
  }

  /** A road on `e` would join the network of `pid` at one of its two ends. */
  predicate RoadConnects(s: GameState, e: Edge, pid: PlayerId)
  {
    EndpointConnects(s, e.u, pid) || EndpointConnects(s, e.v, pid)
  }

  /**
   * A neighbour blocks the distance rule when it holds a building, and also
   * when no vertex has its id: the source compares the optional lookup
   * result with `null`, and a missing vertex is `undefined`.
   */
  predicate NeighbourBlocks(s: GameState, nid: VertexId)
  {
    match FindVertex(s.vertices, nid)
    case None => true
    case Some(n) => n.building.Some?
  }

  /** The distance rule: no listed neighbour blocks. */
  predicate DistanceRuleHolds(s: GameState, vx: Vertex)
  {
    forall i :: 0 <= i < |vx.neighborVertexIds| ==> !NeighbourBlocks(s, vx.neighborVertexIds[i])
  }

  // ---------------------------------------------------------------------------
  // The checks.
  // ---------------------------------------------------------------------------

  /** Every entry listed in `cost` is covered by the player's count of that resource. */
  function HasResources(player: Player, cost: Bundle): (r: bool)
    ensures r <==> forall k :: k in cost ==> player.resources.Get(k) >= cost[k]
    ensures player.resources.NonNegative() ==> (r <==> forall k :: Amount(cost, k) <= player.resources.Get(k))
  {
    forall k | k in cost :: player.resources.Get(k) >= cost[k]
  }

  function CanBuildRoad(player: Player, edgeId: EdgeId, s: GameState, isInitial: bool): (r: Validation)
    ensures r.Valid? <==>
      (isInitial || HasResources(player, RoadCost)) && player.roads > 0 &&
      FindEdge(s.edges, edgeId).Some? && FindEdge(s.edges, edgeId).value.road.None? &&
      RoadConnects(s, FindEdge(s.edges, edgeId).value, player.id)
    ensures r.Valid? && !isInitial ==> player.resources.wood >= 1 && player.resources.brick >= 1
  {
    assert Wood in RoadCost && Brick in RoadCost;
    if !isInitial && !HasResources(player, RoadCost) then Invalid("Not enough resources to build a road")
    else if player.roads <= 0 then Invalid("No roads left in stock")
    else match FindEdge(s.edges, edgeId)
      case None => Invalid("Edge not found")
      case Some(e) =>
        if e.road.Some? then Invalid("Edge already has a road")
        else if !RoadConnects(s, e, player.id) then Invalid("Road must be adjacent to your road or building")
        else Valid
  }

  function CanBuildSettlement(player: Player, vertexId: VertexId, s: GameState, isInitial: bool): (r: Validation)
    ensures r.Valid? <==>
      (isInitial || HasResources(player, SettlementCost)) && player.settlements > 0 &&
      FindVertex(s.vertices, vertexId).Some? && FindVertex(s.vertices, vertexId).value.building.None? &&
      DistanceRuleHolds(s, FindVertex(s.vertices, vertexId).value) &&
      (isInitial || TouchesRoadOf(s, FindVertex(s.vertices, vertexId).value, player.id))
    ensures r.Valid? && !isInitial ==>
      player.resources.wood >= 1 && player.resources.brick >= 1 &&
      player.resources.sheep >= 1 && player.resources.wheat >= 1
  {
    assert Wood in SettlementCost && Brick in SettlementCost && Sheep in SettlementCost && Wheat in SettlementCost;
    if !isInitial && !HasResources(player, SettlementCost) then Invalid("Not enough resources to build a settlement")
    else if player.settlements <= 0 then Invalid("No settlements left in stock")
    else match FindVertex(s.vertices, vertexId)
      case None => Invalid("Vertex not found")
      case Some(vx) =>
        if vx.building.Some? then Invalid("Vertex already has a building")
        else if !DistanceRuleHolds(s, vx) then Invalid("Settlement must be at least 2 edges away from other settlements")
        else if !isInitial && !TouchesRoadOf(s, vx, player.id) then Invalid("Settlement must be adjacent to your road")
        else Valid
  }

  function CanBuildCity(player: Player, vertexId: VertexId, s: GameState): (r: Validation)
    ensures r.Valid? <==>
      player.resources.wheat >= 2 && player.resources.ore >= 3 && player.cities > 0 &&
      FindVertex(s.vertices, vertexId).Some? &&
      FindVertex(s.vertices, vertexId).value.building == Some(Building(Settlement, player.id))
  {
    assert Wheat in CityCost && Ore in CityCost;
    if !HasResources(player, CityCost) then Invalid("Not enough resources to build a city")
    else if player.cities <= 0 then Invalid("No cities left in stock")
    else match FindVertex(s.vertices, vertexId)
      case None => Invalid("Vertex not found")
      case Some(vx) =>
        if !OwnsBuildingAt(vx, player.id) then Invalid("You must have a settlement on this vertex to build a city")
        else if vx.building.value.kind != Settlement then Invalid("This vertex already has a city")
        else Valid
  }

  function CanBuyDevCard(player: Player, s: GameState): (r: Validation)
    ensures r.Valid? <==>
      player.resources.sheep >= 1 && player.resources.wheat >= 1 && player.resources.ore >= 1 &&
      |s.devCardDeck| > 0
  {
    assert Sheep in DevCardCost && Wheat in DevCardCost && Ore in DevCardCost;
    if !HasResources(player, DevCardCost) then Invalid("Not enough resources to buy a development card")
    else if |s.devCardDeck| == 0 then Invalid("Development card deck is empty")
    else Valid
  }

  function CardName(c: DevCard): string
  {
    match c
    case Knight => "KNIGHT"
    case VictoryPoint => "VICTORY_POINT"
    case RoadBuilding => "ROAD_BUILDING"
    case YearOfPlenty => "YEAR_OF_PLENTY"
    case Monopoly => "MONOPOLY"
  }

  /** Only ownership is checked; the turn number is accepted and unused. */
  function CanPlayDevCard(player: Player, card: DevCard, turnNumber: int): (r: Validation)
    ensures r.Valid? <==> card in player.devCards
  {
    if card !in player.devCards then Invalid("You don't have a " + CardName(card) + " card")
    else Valid
  }

  /** The bank's default ratio is `BankRatio`; callers may pass another. */
  function CanTradeWithBank(player: Player, offer: Bundle, receive: Bundle, ratio: int): (r: Validation)
    ensures r.Valid? <==> HasResources(player, offer) && BundleSum(offer) == ratio * BundleSum(receive)
  {
    if !HasResources(player, offer) then Invalid("Not enough resources to trade")
    else if BundleSum(offer) != ratio * BundleSum(receive) then Invalid("Trade ratio must be " + IntToString(ratio) + ":1")
    else Valid
  }

  function CanPlaceInitialSettlement(vertexId: VertexId, s: GameState): (r: Validation)
    ensures r.Valid? <==>
      FindVertex(s.vertices, vertexId).Some? && FindVertex(s.vertices, vertexId).value.building.None? &&
      DistanceRuleHolds(s, FindVertex(s.vertices, vertexId).value)
  {
    match FindVertex(s.vertices, vertexId)
    case None => Invalid("Vertex not found")
    case Some(vx) =>
      if vx.building.Some? then Invalid("Vertex already has a building")
      else if !DistanceRuleHolds(s, vx) then Invalid("Settlement must be at least 2 edges away from other settlements")
      else Valid
  }

  function CanPlaceInitialRoad(edgeId: EdgeId, vertexId: VertexId, s: GameState): (r: Validation)
    ensures r.Valid? <==>
      FindEdge(s.edges, edgeId).Some? && FindEdge(s.edges, edgeId).value.road.None? &&
      vertexId in FindEdge(s.edges, edgeId).value.Ends()
  {
    match FindEdge(s.edges, edgeId)
    case None => Invalid("Edge not found")
    case Some(e) =>
      if e.road.Some? then Invalid("Edge already has a road")
      else if vertexId !in e.Ends() then Invalid("Road must be adjacent to your settlement")
      else Valid
  }

  // ---------------------------------------------------------------------------
  // How the checks relate.
  // ---------------------------------------------------------------------------

  /** The initial-placement settlement check is the general check with `isInitial` set, given a piece in stock. */
  lemma InitialSettlementAgrees(player: Player, vertexId: VertexId, s: GameState)
    requires player.settlements > 0
    ensures CanPlaceInitialSettlement(vertexId, s).Valid? <==> CanBuildSettlement(player, vertexId, s, true).Valid?
  {
  }

  /**
   * A road accepted by the initial-road check next to the player's own
   * building is also accepted by the general road check with `isInitial` set.
   */
  lemma InitialRoadAgrees(player: Player, edgeId: EdgeId, vertexId: VertexId, s: GameState)
    requires player.roads > 0
    requires FindVertex(s.vertices, vertexId).Some? && OwnsBuildingAt(FindVertex(s.vertices, vertexId).value, player.id)
    requires CanPlaceInitialRoad(edgeId, vertexId, s).Valid?
    ensures CanBuildRoad(player, edgeId, s, true).Valid?
  {
    var e := FindEdge(s.edges, edgeId).value;
    assert EndpointConnects(s, vertexId, player.id);
  }
}
