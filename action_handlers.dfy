/**
 * The game actions (lib/game-logic/actionHandlers.ts). Each handler looks the
 * player up, runs the matching validator, and returns a new state; an unknown
 * player or a failed validation returns the state it was given. Building a
 * road and playing a knight also re-evaluate the longest-road and
 * largest-army badges.
 *
 * The development-card handlers do not check that the card is held: the card
 * is removed only when present, and the effect happens either way.
 */
module ActionHandlers {
  import opened Types
  import opened Constants
  import opened Validators
  import opened Calculators

  // ===========================================================================
  // Paying a cost
  // ===========================================================================

  /** The record after every amount listed in `cost` is subtracted. */
  function Pay(res: Resources, cost: Bundle): (r: Resources)
    ensures forall k :: r.Get(k) == res.Get(k) - Amount(cost, k)
  {
    Resources(res.wood - Amount(cost, Wood), res.brick - Amount(cost, Brick), res.sheep - Amount(cost, Sheep),
              res.wheat - Amount(cost, Wheat), res.ore - Amount(cost, Ore))
  }

  /** Paying a cost the validator accepted leaves no count negative. */
  lemma PayAffordable(p: Player, cost: Bundle)
    requires p.resources.NonNegative() && HasResources(p, cost)
    ensures Pay(p.resources, cost).NonNegative()
  {
    assert p.resources.Get(Wood) - Amount(cost, Wood) >= 0;
    assert p.resources.Get(Brick) - Amount(cost, Brick) >= 0;
    assert p.resources.Get(Sheep) - Amount(cost, Sheep) >= 0;
    assert p.resources.Get(Wheat) - Amount(cost, Wheat) >= 0;
    assert p.resources.Get(Ore) - Amount(cost, Ore) >= 0;
  }

  /** `Object.entries(cost).forEach(([r, n]) => resources[r] -= n)`. */
  method DeductCost(res: Resources, cost: Bundle) returns (r: Resources)
    ensures r == Pay(res, cost)
  {
    r := res;
    for i := 0 to |AllResources|
      invariant forall j :: 0 <= j < |AllResources| ==>
        r.Get(AllResources[j]) == res.Get(AllResources[j]) - (if j < i then Amount(cost, AllResources[j]) else 0)
    {
      var k := AllResources[i];
      if k in cost {
        r := r.With(k, r.Get(k) - cost[k]);
      }
    }
    forall k ensures r.Get(k) == Pay(res, cost).Get(k) {
      assert k == AllResources[0] || k == AllResources[1] || k == AllResources[2] || k == AllResources[3] || k == AllResources[4];
    }
    ResourcesExt(r, Pay(res, cost));
  }

  // ===========================================================================
  // Badges
  // ===========================================================================

  /** `pid` holds the longest-road badge: it is recorded, and held by exactly the entries with that id. */
  predicate LongestRoadAwarded(s: GameState, pid: PlayerId)
  {
    s.longestRoadPlayerId == Some(pid) &&
    forall i :: 0 <= i < |s.players| ==> (s.players[i].hasLongestRoad <==> s.players[i].id == pid)
  }

  predicate LargestArmyAwarded(s: GameState, pid: PlayerId)
  {
    s.largestArmyPlayerId == Some(pid) &&
    forall i :: 0 <= i < |s.players| ==> (s.players[i].hasLargestArmy <==> s.players[i].id == pid)
  }

  /** `t` differs from `s` at most in the longest-road flags and the recorded holder. */
  predicate OnlyLongestRoadBadgeChanged(s: GameState, t: GameState)
  {
    |t.players| == |s.players| &&
    (forall i :: 0 <= i < |s.players| ==> t.players[i] == s.players[i].(hasLongestRoad := t.players[i].hasLongestRoad)) &&
    t == s.(players := t.players, longestRoadPlayerId := t.longestRoadPlayerId)
  }

  predicate OnlyLargestArmyBadgeChanged(s: GameState, t: GameState)
  {
    |t.players| == |s.players| &&
    (forall i :: 0 <= i < |s.players| ==> t.players[i] == s.players[i].(hasLargestArmy := t.players[i].hasLargestArmy)) &&
    t == s.(players := t.players, largestArmyPlayerId := t.largestArmyPlayerId)
  }

  /** At most one player holds each badge. */
  predicate BadgesHeldOnce(ps: seq<Player>)
  {
    (forall i, j :: 0 <= i < |ps| && 0 <= j < |ps| && ps[i].hasLongestRoad && ps[j].hasLongestRoad ==> i == j) &&
    (forall i, j :: 0 <= i < |ps| && 0 <= j < |ps| && ps[i].hasLargestArmy && ps[j].hasLargestArmy ==> i == j)
  }

  /** The longest-road check reads only the board and the players' ids. */
  lemma {:induction false} OthersLongestRoadFrame(s: GameState, t: GameState, ps: seq<Player>, qs: seq<Player>, pid: PlayerId)
    requires s.edges == t.edges && s.vertices == t.vertices
    requires |ps| == |qs| && forall i :: 0 <= i < |ps| ==> ps[i].id == qs[i].id
    ensures OthersLongestRoad(s, ps, pid) == OthersLongestRoad(t, qs, pid)
  {
    assert BoardOf(s) == BoardOf(t);
    if |ps| > 0 {
      OthersLongestRoadFrame(s, t, ps[..|ps| - 1], qs[..|qs| - 1], pid);
    }
  }

  lemma CheckLongestRoadFrame(s: GameState, t: GameState, pid: PlayerId)
    requires s.edges == t.edges && s.vertices == t.vertices
    requires |s.players| == |t.players| && forall i :: 0 <= i < |s.players| ==> s.players[i].id == t.players[i].id
    ensures CheckLongestRoad(pid, s) == CheckLongestRoad(pid, t)
  {
    assert BoardOf(s) == BoardOf(t);
    OthersLongestRoadFrame(s, t, s.players, t.players, pid);
  }

  /** The largest-army check reads only the players' ids and knight counts. */
  lemma {:induction false} OthersMostKnightsFrame(ps: seq<Player>, qs: seq<Player>, pid: PlayerId)
    requires |ps| == |qs| && forall i :: 0 <= i < |ps| ==> ps[i].id == qs[i].id && ps[i].knightsPlayed == qs[i].knightsPlayed
    ensures OthersMostKnights(ps, pid) == OthersMostKnights(qs, pid)
  {
    if |ps| > 0 {
      OthersMostKnightsFrame(ps[..|ps| - 1], qs[..|qs| - 1], pid);
    }
  }

  lemma CheckLargestArmyFrame(s: GameState, t: GameState, pid: PlayerId)
    requires |s.players| == |t.players|
    requires forall i :: 0 <= i < |s.players| ==> s.players[i].id == t.players[i].id && s.players[i].knightsPlayed == t.players[i].knightsPlayed
    ensures CheckLargestArmy(pid, s) == CheckLargestArmy(pid, t)
  {
    OthersMostKnightsFrame(s.players, t.players, pid);
    assert IndexOfPlayer(s.players, pid) == IndexOfPlayer(t.players, pid) by {
      IndexFrame(s.players, t.players, pid);
    }
  }

  lemma {:induction false} IndexFrame(ps: seq<Player>, qs: seq<Player>, pid: PlayerId)
    requires |ps| == |qs| && forall i :: 0 <= i < |ps| ==> ps[i].id == qs[i].id
    ensures IndexOfPlayer(ps, pid) == IndexOfPlayer(qs, pid)
  {
    if |ps| > 0 && ps[0].id != pid {
      IndexFrame(ps[1..], qs[1..], pid);
    }
  }

  /** The state with the longest-road badge moved to `pid`: the flag on exactly its entries, the holder recorded. */
  function WithLongestRoad(s: GameState, pid: PlayerId): GameState
  {
    var players := seq(|s.players|, i requires 0 <= i < |s.players| => s.players[i].(hasLongestRoad := s.players[i].id == pid));
    s.(players := players, longestRoadPlayerId := Some(pid))
  }

  function WithLargestArmy(s: GameState, pid: PlayerId): GameState
  {
    var players := seq(|s.players|, i requires 0 <= i < |s.players| => s.players[i].(hasLargestArmy := s.players[i].id == pid));
    s.(players := players, largestArmyPlayerId := Some(pid))
  }

  /** Moving a badge changes nothing else, and nothing either check reads. */
  lemma WithLongestRoadFacts(s: GameState, pid: PlayerId)
    ensures var r := WithLongestRoad(s, pid);
      LongestRoadAwarded(r, pid) && OnlyLongestRoadBadgeChanged(s, r) && CheckLongestRoad(pid, r) == CheckLongestRoad(pid, s)
  {
    CheckLongestRoadFrame(s, WithLongestRoad(s, pid), pid);
  }

  lemma WithLargestArmyFacts(s: GameState, pid: PlayerId)
    ensures var r := WithLargestArmy(s, pid);
      LargestArmyAwarded(r, pid) && OnlyLargestArmyBadgeChanged(s, r) && CheckLargestArmy(pid, r) == CheckLargestArmy(pid, s)
  {
    CheckLargestArmyFrame(s, WithLargestArmy(s, pid), pid);
  }

  /**
   * Awards the longest-road badge to `pid` when the check passes: the flag is
   * set on exactly the entries of `pid` and the holder is recorded.
   */
  function UpdateLongestRoad(s: GameState, pid: PlayerId): (r: GameState)
    ensures !CheckLongestRoad(pid, s) ==> r == s
    ensures CheckLongestRoad(pid, s) ==> LongestRoadAwarded(r, pid) && OnlyLongestRoadBadgeChanged(s, r)
    ensures CheckLongestRoad(pid, r) == CheckLongestRoad(pid, s)
  {
    if CheckLongestRoad(pid, s) then
      WithLongestRoadFacts(s, pid);
      WithLongestRoad(s, pid)
    else s
  }

  function UpdateLargestArmy(s: GameState, pid: PlayerId): (r: GameState)
    ensures !CheckLargestArmy(pid, s) ==> r == s
    ensures CheckLargestArmy(pid, s) ==> LargestArmyAwarded(r, pid) && OnlyLargestArmyBadgeChanged(s, r)
    ensures CheckLargestArmy(pid, r) == CheckLargestArmy(pid, s)
  {
    if CheckLargestArmy(pid, s) then
      WithLargestArmyFacts(s, pid);
      WithLargestArmy(s, pid)
    else s
  }

  /** Re-evaluating the badge right away changes nothing. */
  lemma UpdateLongestRoadIdempotent(s: GameState, pid: PlayerId)
    ensures UpdateLongestRoad(UpdateLongestRoad(s, pid), pid) == UpdateLongestRoad(s, pid)
  {
    if CheckLongestRoad(pid, s) {
      WithLongestRoadFacts(s, pid);
      WithLongestRoadTwice(s, pid);
    }
  }

  lemma WithLongestRoadTwice(s: GameState, pid: PlayerId)
    ensures WithLongestRoad(WithLongestRoad(s, pid), pid) == WithLongestRoad(s, pid)
  {
    var r := WithLongestRoad(s, pid);
    assert WithLongestRoad(r, pid).players == r.players;
  }

  lemma UpdateLargestArmyIdempotent(s: GameState, pid: PlayerId)
    ensures UpdateLargestArmy(UpdateLargestArmy(s, pid), pid) == UpdateLargestArmy(s, pid)
  {
    if CheckLargestArmy(pid, s) {
      WithLargestArmyFacts(s, pid);
      WithLargestArmyTwice(s, pid);
    }
  }

  lemma WithLargestArmyTwice(s: GameState, pid: PlayerId)
    ensures WithLargestArmy(WithLargestArmy(s, pid), pid) == WithLargestArmy(s, pid)
  {
    var r := WithLargestArmy(s, pid);
    assert WithLargestArmy(r, pid).players == r.players;
  }

  /** With unique ids, each update keeps every badge held at most once. */
  lemma UpdatesKeepBadgesHeldOnce(s: GameState, pid: PlayerId)
    requires UniquePlayerIds(s.players) && BadgesHeldOnce(s.players)
    ensures BadgesHeldOnce(UpdateLongestRoad(s, pid).players)
    ensures BadgesHeldOnce(UpdateLargestArmy(s, pid).players)
  {
    var r := UpdateLongestRoad(s, pid);
    if CheckLongestRoad(pid, s) {
      RoadAwardedOnce(s, r, pid);
    }
    var a := UpdateLargestArmy(s, pid);
    if CheckLargestArmy(pid, s) {
      ArmyAwardedOnce(s, a, pid);
    }
  }

  /** Setting the longest-road flag on exactly the entries of `pid` keeps both badges held at most once (ids unique). */
  lemma RoadAwardedOnce(s: GameState, r: GameState, pid: PlayerId)
    requires UniquePlayerIds(s.players) && BadgesHeldOnce(s.players)
    requires LongestRoadAwarded(r, pid) && OnlyLongestRoadBadgeChanged(s, r)
    ensures BadgesHeldOnce(r.players)
  {
    var ps, qs := s.players, r.players;
    assert forall i :: 0 <= i < |qs| ==> qs[i].hasLargestArmy == ps[i].hasLargestArmy;
  }

  lemma ArmyAwardedOnce(s: GameState, r: GameState, pid: PlayerId)
    requires UniquePlayerIds(s.players) && BadgesHeldOnce(s.players)
    requires LargestArmyAwarded(r, pid) && OnlyLargestArmyBadgeChanged(s, r)
    ensures BadgesHeldOnce(r.players)
  {
    var ps, qs := s.players, r.players;
    assert forall i :: 0 <= i < |qs| ==> qs[i].hasLongestRoad == ps[i].hasLongestRoad;
  }

  /** Whatever the check answers, a longest-road update changes only the badge fields. */
  lemma LongestRoadBadgeOnly(s: GameState, pid: PlayerId)
    ensures OnlyLongestRoadBadgeChanged(s, UpdateLongestRoad(s, pid))
  {
  }

  lemma LargestArmyBadgeOnly(s: GameState, pid: PlayerId)
    ensures OnlyLargestArmyBadgeChanged(s, UpdateLargestArmy(s, pid))
  {
  }

  /** A change of badge fields only keeps the ids and every resource record. */
  lemma BadgeChangeKeepsHands(s: GameState, t: GameState)
    requires OnlyLongestRoadBadgeChanged(s, t) || OnlyLargestArmyBadgeChanged(s, t)
    ensures SameIds(s.players, t.players)
    ensures forall i :: 0 <= i < |s.players| ==> t.players[i].resources == s.players[i].resources
    ensures AllNonNegative(s.players) ==> AllNonNegative(t.players)
  {
  }

  // ===========================================================================
  // Building
  // ===========================================================================

  /** `edges.map(e => e.id === edgeId ? {...e, road: {playerId}} : e)`. */
  function PlaceRoad(es: seq<Edge>, edgeId: EdgeId, pid: PlayerId): (r: seq<Edge>)
    ensures |r| == |es|
    ensures forall i :: 0 <= i < |es| ==> r[i] == (if es[i].id == edgeId then es[i].(road := Some(pid)) else es[i])
  {
    seq(|es|, i requires 0 <= i < |es| => if es[i].id == edgeId then es[i].(road := Some(pid)) else es[i])
  }

  /** `vertices.map(v => v.id === vertexId ? {...v, building: b} : v)`. */
  function PlaceBuilding(vs: seq<Vertex>, vertexId: VertexId, b: Building): (r: seq<Vertex>)
    ensures |r| == |vs|
    ensures forall i :: 0 <= i < |vs| ==> r[i] == (if vs[i].id == vertexId then vs[i].(building := Some(b)) else vs[i])
  {
    seq(|vs|, i requires 0 <= i < |vs| => if vs[i].id == vertexId then vs[i].(building := Some(b)) else vs[i])
  }

  /** The record after a build: the cost is paid unless the piece is free. */
  function Charge(res: Resources, cost: Bundle, free: bool): Resources
  {
    if free then res else Pay(res, cost)
  }

  /** The state right after a road is placed, before the badge is re-evaluated. */
  function RoadPlaced(s: GameState, p: Player, edgeId: EdgeId, isInitial: bool): GameState
  {
    s.(players := ReplacePlayer(s.players, p.id, p.(roads := p.roads - 1, resources := Charge(p.resources, RoadCost, isInitial))),
       edges := PlaceRoad(s.edges, edgeId, p.id))
  }

  /**
   * What a successful road build leaves: the target edge carries the road,
   * the builder's entries have one road fewer and have paid unless the road is
   * free, nothing else changes, and then the badge goes to the builder exactly
   * when the longest-road check passes on the result.
   */
  predicate RoadBuilt(s: GameState, r: GameState, pid: PlayerId, edgeId: EdgeId, isInitial: bool)
    requires FindPlayer(s.players, pid).Some?
  {
    var placed := RoadPlaced(s, FindPlayer(s.players, pid).value, edgeId, isInitial);
    if CheckLongestRoad(pid, r) then LongestRoadAwarded(r, pid) && OnlyLongestRoadBadgeChanged(placed, r)
    else r == placed
  }

  function HandleBuildRoad(pid: PlayerId, edgeId: EdgeId, s: GameState, isInitial: bool): (r: GameState)
    ensures FindPlayer(s.players, pid).None? ==> r == s
    ensures FindPlayer(s.players, pid).Some? && !CanBuildRoad(FindPlayer(s.players, pid).value, edgeId, s, isInitial).Valid? ==> r == s
    ensures FindPlayer(s.players, pid).Some? && CanBuildRoad(FindPlayer(s.players, pid).value, edgeId, s, isInitial).Valid? ==>
      RoadBuilt(s, r, pid, edgeId, isInitial)
    ensures AllNonNegative(s.players) ==> AllNonNegative(r.players)
    ensures SameIds(s.players, r.players)
  {
    match FindPlayer(s.players, pid)
    case None => s
    case Some(p) =>
      if !CanBuildRoad(p, edgeId, s, isInitial).Valid? then s
      else
        RoadBuildEffect(s, p, edgeId, isInitial);
        UpdateLongestRoad(RoadPlaced(s, p, edgeId, isInitial), pid)
  }

  /** Two player lists agree on ids, entry by entry. */
  predicate SameIds(ps: seq<Player>, qs: seq<Player>)
  {
    |ps| == |qs| && forall i :: 0 <= i < |ps| ==> ps[i].id == qs[i].id
  }

  /** The player list after a build keeps its ids, and stays non-negative when the cost was affordable. */
  lemma RoadBuildEffect(s: GameState, p: Player, edgeId: EdgeId, isInitial: bool)
    requires FindPlayer(s.players, p.id) == Some(p)
    requires isInitial || HasResources(p, RoadCost)
    ensures AllNonNegative(s.players) ==> AllNonNegative(UpdateLongestRoad(RoadPlaced(s, p, edgeId, isInitial), p.id).players)
    ensures SameIds(s.players, UpdateLongestRoad(RoadPlaced(s, p, edgeId, isInitial), p.id).players)
  {
    var np := p.(roads := p.roads - 1, resources := Charge(p.resources, RoadCost, isInitial));
    if AllNonNegative(s.players) && !isInitial {
      assert p.resources.NonNegative() by { assert s.players[IndexOfPlayer(s.players, p.id)] == p; }
      PayAffordable(p, RoadCost);
    }
    ReplaceKeepsHands(s.players, p.id, np);
    var placed := RoadPlaced(s, p, edgeId, isInitial);
    assert placed.players == ReplacePlayer(s.players, p.id, np);
    var r := UpdateLongestRoad(placed, p.id);
    LongestRoadBadgeOnly(placed, p.id);
    BadgeChangeKeepsHands(placed, r);
  }

  /** Replacing a player by a record with the same id keeps the ids, and non-negative hands when its own is. */
  lemma ReplaceKeepsHands(ps: seq<Player>, id: PlayerId, np: Player)
    requires np.id == id
    ensures SameIds(ps, ReplacePlayer(ps, id, np))
    ensures AllNonNegative(ps) && (AllNonNegative(ps) ==> np.resources.NonNegative()) ==>
      AllNonNegative(ReplacePlayer(ps, id, np))
  {
  }

  // ---------------------------------------------------------------------------
  // Settlements and cities
  // ---------------------------------------------------------------------------

  /** `hexes.filter(hex => hex.vertexIds.includes(vertexId))`, in table order. */
  function HexesAround(hs: seq<Hex>, vid: VertexId): (r: seq<Hex>)
    ensures forall h :: h in r <==> h in hs && vid in h.vertexIds
    ensures |r| <= |hs|
  {
    if |hs| == 0 then []
    else HexesAround(hs[..|hs| - 1], vid) + (if vid in hs[|hs| - 1].vertexIds then [hs[|hs| - 1]] else [])
  }

  /** How many of the hexes produce resource `k`. */
  function Producing(hs: seq<Hex>, k: Resource): nat
  {
    if |hs| == 0 then 0
    else Producing(hs[..|hs| - 1], k) + (if TerrainToResource(hs[|hs| - 1].terrain) == Some(k) then 1 else 0)
  }

  /** One resource per non-desert hex: the five per-resource counts add up to the non-desert hexes. */
  lemma {:induction false} ProducingTotal(hs: seq<Hex>)
    ensures Producing(hs, Wood) + Producing(hs, Brick) + Producing(hs, Sheep) + Producing(hs, Wheat) + Producing(hs, Ore)
            == NonDesert(hs)
  {
    if |hs| > 0 {
      ProducingTotal(hs[..|hs| - 1]);
    }
  }

  /** The record after one unit of each hex's resource is added. */
  function Gain(res: Resources, hs: seq<Hex>): (r: Resources)
    ensures forall k :: r.Get(k) == res.Get(k) + Producing(hs, k)
  {
    Resources(res.wood + Producing(hs, Wood), res.brick + Producing(hs, Brick), res.sheep + Producing(hs, Sheep),
              res.wheat + Producing(hs, Wheat), res.ore + Producing(hs, Ore))
  }

  /** Crediting the next hex's resource, if any, extends the gain by that hex. */
  lemma GainStep(base: Resources, hs: seq<Hex>, i: int, before: Resources, after: Resources)
    requires 0 <= i < |hs| && before == Gain(base, hs[..i])
    requires TerrainToResource(hs[i].terrain).None? ==> after == before
    requires TerrainToResource(hs[i].terrain).Some? ==>
      var k := TerrainToResource(hs[i].terrain).value; after == before.With(k, before.Get(k) + 1)
    ensures after == Gain(base, hs[..i + 1])
  {
    assert hs[..i + 1][..i] == hs[..i];
    ResourcesExt(after, Gain(base, hs[..i + 1]));
  }

  /**
   * The builder's record after a settlement: the cost is paid outside initial
   * placement, and the second initial settlement yields one of each adjacent
   * hex's resource.
   */
  function SettlementResources(res: Resources, s: GameState, vid: VertexId, isInitial: bool): (r: Resources)
    ensures forall k :: r.Get(k) == res.Get(k) - (if isInitial then 0 else Amount(SettlementCost, k))
                                    + (if isInitial && s.initialPlacementRound == 2 then Producing(HexesAround(s.hexes, vid), k) else 0)
  {
    var paid := Charge(res, SettlementCost, isInitial);
    if isInitial && s.initialPlacementRound == 2 then Gain(paid, HexesAround(s.hexes, vid)) else paid
  }

  /** The state after a settlement of `p` is placed on `vid`. */
  function SettlementPlaced(s: GameState, p: Player, vid: VertexId, isInitial: bool): GameState
  {
    s.(players := ReplacePlayer(s.players, p.id, p.(settlements := p.settlements - 1,
                                                   resources := SettlementResources(p.resources, s, vid, isInitial))),
       vertices := PlaceBuilding(s.vertices, vid, Building(Settlement, p.id)))
  }

  method HandleBuildSettlement(pid: PlayerId, vertexId: VertexId, s: GameState, isInitial: bool) returns (r: GameState)
    ensures FindPlayer(s.players, pid).None? ==> r == s
    ensures FindPlayer(s.players, pid).Some? && !CanBuildSettlement(FindPlayer(s.players, pid).value, vertexId, s, isInitial).Valid? ==> r == s
    ensures FindPlayer(s.players, pid).Some? && CanBuildSettlement(FindPlayer(s.players, pid).value, vertexId, s, isInitial).Valid? ==>
      r == SettlementPlaced(s, FindPlayer(s.players, pid).value, vertexId, isInitial)
  {
    var found := FindPlayer(s.players, pid);
    if found.None? {
      return s;
    }
    var player := found.value;
    if !CanBuildSettlement(player, vertexId, s, isInitial).Valid? {
      return s;
    }
    var resources := player.resources;
    if !isInitial {
      resources := DeductCost(resources, SettlementCost);
    }
    if isInitial && s.initialPlacementRound == 2 {
      if FindVertex(s.vertices, vertexId).Some? {
        var adjacentHexes := HexesAround(s.hexes, vertexId);
        var base := resources;
        for i := 0 to |adjacentHexes|
          invariant resources == Gain(base, adjacentHexes[..i])
        {
          var before := resources;
          var terrainResource := TerrainToResource(adjacentHexes[i].terrain);
          if terrainResource.Some? {
            var k := terrainResource.value;
            resources := resources.With(k, resources.Get(k) + 1);
          }
          GainStep(base, adjacentHexes, i, before, resources);
        }
        assert adjacentHexes[..|adjacentHexes|] == adjacentHexes;
      }
    }
    ResourcesExt(resources, SettlementResources(player.resources, s, vertexId, isInitial));
    var updatedPlayer := player.(settlements := player.settlements - 1, resources := resources);
    r := s.(players := ReplacePlayer(s.players, pid, updatedPlayer),
            vertices := PlaceBuilding(s.vertices, vertexId, Building(Settlement, pid)));
  }

  /** A legal settlement leaves every resource count non-negative. */
  lemma SettlementKeepsNonNegative(s: GameState, p: Player, vid: VertexId, isInitial: bool)
    requires FindPlayer(s.players, p.id) == Some(p) && AllNonNegative(s.players)
    requires CanBuildSettlement(p, vid, s, isInitial).Valid?
    ensures AllNonNegative(SettlementPlaced(s, p, vid, isInitial).players)
  {
    assert p.resources.NonNegative();
    var res := SettlementResources(p.resources, s, vid, isInitial);
    if !isInitial {
      PayAffordable(p, SettlementCost);
    }
    assert res.NonNegative() by {
      assert forall k :: res.Get(k) >= Charge(p.resources, SettlementCost, isInitial).Get(k);
      assert Charge(p.resources, SettlementCost, isInitial).NonNegative();
    }
  }

  /** Buildings with unique vertex ids: placing at a vertex that exists replaces exactly its one entry. */
  lemma {:induction false} PlaceBuildingCount(vs: seq<Vertex>, vid: VertexId, b: Building, m: int, pid: PlayerId, kind: BuildingKind)
    requires UniqueVertexIds(vs) && 0 <= m < |vs| && vs[m].id == vid
    ensures BuildingCount(PlaceBuilding(vs, vid, b), pid, kind)
            == BuildingCount(vs, pid, kind) - (if vs[m].building == Some(Building(kind, pid)) then 1 else 0)
               + (if b == Building(kind, pid) then 1 else 0)
  {
    var n := |vs| - 1;
    var placed := PlaceBuilding(vs, vid, b);
    assert placed[..n] == PlaceBuilding(vs[..n], vid, b);
    if m == n {
      assert placed[n] == vs[n].(building := Some(b));
      assert PlaceBuilding(vs[..n], vid, b) == vs[..n] by {
        forall i | 0 <= i < n ensures vs[i].id != vid {
          assert vs[i].id != vs[n].id;
        }
      }
    } else {
      assert vs[n].id != vs[m].id;
      assert placed[n] == vs[n];
      assert UniqueVertexIds(vs[..n]);
      PlaceBuildingCount(vs[..n], vid, b, m, pid, kind);
    }
  }

  /** A settlement scores one more point for its builder (vertex ids unique). */
  lemma SettlementAddsPoint(s: GameState, p: Player, vid: VertexId, isInitial: bool)
    requires FindPlayer(s.players, p.id) == Some(p) && UniqueVertexIds(s.vertices)
    requires CanBuildSettlement(p, vid, s, isInitial).Valid?
    ensures var r := SettlementPlaced(s, p, vid, isInitial);
      FindPlayer(r.players, p.id).Some? && VictoryPoints(FindPlayer(r.players, p.id).value, r) == VictoryPoints(p, s) + 1
  {
    var r := SettlementPlaced(s, p, vid, isInitial);
    var m := IndexOfVertex(s.vertices, vid);
    var np := p.(settlements := p.settlements - 1, resources := SettlementResources(p.resources, s, vid, isInitial));
    FindReplacedPlayer(s.players, p.id, np);
    PlaceBuildingCount(s.vertices, vid, Building(Settlement, p.id), m, p.id, Settlement);
    PlaceBuildingCount(s.vertices, vid, Building(Settlement, p.id), m, p.id, City);
  }

  /**
   * The distance rule holds on the whole board after a legal settlement,
   * given unique vertex ids and a symmetric, irreflexive neighbour relation.
   */
  lemma SettlementKeepsSpacing(s: GameState, p: Player, vid: VertexId, isInitial: bool)
    requires CanBuildSettlement(p, vid, s, isInitial).Valid?
    requires UniqueVertexIds(s.vertices) && NeighboursSymmetric(s.vertices) && NeighboursIrreflexive(s.vertices)
    requires BuildingsSpaced(s.vertices)
    ensures BuildingsSpaced(SettlementPlaced(s, p, vid, isInitial).vertices)
  {
    var vs := s.vertices;
    var placed := PlaceBuilding(vs, vid, Building(Settlement, p.id));
    var m := IndexOfVertex(vs, vid);
    forall i, j | 0 <= i < |vs| && 0 <= j < |vs| && placed[i].building.Some? && placed[j].building.Some?
      ensures placed[j].id !in placed[i].neighborVertexIds
    {
      if vs[i].id == vid && vs[j].id == vid {
        assert i == m && j == m;
      } else if vs[i].id == vid {
        assert i == m;
        NotANeighbour(s, m, j);
      } else if vs[j].id == vid {
        assert j == m;
        if vs[m].id in vs[i].neighborVertexIds {
          NotANeighbour(s, m, i);
        }
      }
    }
  }

  /** A vertex holding a building is not listed around an empty vertex that passes the distance rule. */
  lemma NotANeighbour(s: GameState, m: int, j: int)
    requires UniqueVertexIds(s.vertices) && 0 <= m < |s.vertices| && 0 <= j < |s.vertices|
    requires DistanceRuleHolds(s, s.vertices[m]) && s.vertices[j].building.Some?
    ensures s.vertices[j].id !in s.vertices[m].neighborVertexIds
  {
    FindUniqueVertex(s.vertices, j);
  }

  /** The state after `p` upgrades the settlement on `vid`. */
  function CityPlaced(s: GameState, p: Player, vid: VertexId): GameState
  {
    s.(players := ReplacePlayer(s.players, p.id, p.(settlements := p.settlements + 1, cities := p.cities - 1,
                                                   resources := Pay(p.resources, CityCost))),
       vertices := PlaceBuilding(s.vertices, vid, Building(City, p.id)))
  }

  method HandleBuildCity(pid: PlayerId, vertexId: VertexId, s: GameState) returns (r: GameState)
    ensures FindPlayer(s.players, pid).None? ==> r == s
    ensures FindPlayer(s.players, pid).Some? && !CanBuildCity(FindPlayer(s.players, pid).value, vertexId, s).Valid? ==> r == s
    ensures FindPlayer(s.players, pid).Some? && CanBuildCity(FindPlayer(s.players, pid).value, vertexId, s).Valid? ==>
      r == CityPlaced(s, FindPlayer(s.players, pid).value, vertexId)
  {
    var found := FindPlayer(s.players, pid);
    if found.None? {
      return s;
    }
    var player := found.value;
    if !CanBuildCity(player, vertexId, s).Valid? {
      return s;
    }
    var resources := DeductCost(player.resources, CityCost);
    var updatedPlayer := player.(settlements := player.settlements + 1, cities := player.cities - 1, resources := resources);
    r := s.(players := ReplacePlayer(s.players, pid, updatedPlayer),
            vertices := PlaceBuilding(s.vertices, vertexId, Building(City, pid)));
  }

  /** A legal city scores one more point: a settlement's 1 becomes a city's 2 (vertex ids unique). */
  lemma CityAddsPoint(s: GameState, p: Player, vid: VertexId)
    requires FindPlayer(s.players, p.id) == Some(p) && UniqueVertexIds(s.vertices)
    requires CanBuildCity(p, vid, s).Valid?
    ensures var r := CityPlaced(s, p, vid);
      FindPlayer(r.players, p.id).Some? && VictoryPoints(FindPlayer(r.players, p.id).value, r) == VictoryPoints(p, s) + 1
  {
    var m := IndexOfVertex(s.vertices, vid);
    var np := p.(settlements := p.settlements + 1, cities := p.cities - 1, resources := Pay(p.resources, CityCost));
    var r := CityPlaced(s, p, vid);
    var vs := PlaceBuilding(s.vertices, vid, Building(City, p.id));
    assert r.players == ReplacePlayer(s.players, p.id, np) && r.vertices == vs;
    FindReplacedPlayer(s.players, p.id, np);
    assert s.vertices[m].building == Some(Building(Settlement, p.id));
    PlaceBuildingCount(s.vertices, vid, Building(City, p.id), m, p.id, Settlement);
    PlaceBuildingCount(s.vertices, vid, Building(City, p.id), m, p.id, City);
    assert BuildingCount(vs, p.id, Settlement) == BuildingCount(s.vertices, p.id, Settlement) - 1;
    assert BuildingCount(vs, p.id, City) == BuildingCount(s.vertices, p.id, City) + 1;
  }

  /** A legal city keeps every count non-negative. */
  lemma CityKeepsNonNegative(s: GameState, p: Player, vid: VertexId)
    requires FindPlayer(s.players, p.id) == Some(p) && AllNonNegative(s.players)
    requires CanBuildCity(p, vid, s).Valid?
    ensures AllNonNegative(CityPlaced(s, p, vid).players)
  {
    PayAffordable(p, CityCost);
  }

  /** A city goes where a building already stands, so the distance rule is kept (vertex ids unique). */
  lemma CityKeepsSpacing(s: GameState, p: Player, vid: VertexId)
    requires UniqueVertexIds(s.vertices) && BuildingsSpaced(s.vertices)
    requires CanBuildCity(p, vid, s).Valid?
    ensures BuildingsSpaced(CityPlaced(s, p, vid).vertices)
  {
    var m := IndexOfVertex(s.vertices, vid);
    forall i | 0 <= i < |s.vertices| && s.vertices[i].id == vid ensures i == m {}
  }

  // ===========================================================================
  // Development cards
  // ===========================================================================

  /** The state after `p` buys the top (last) card of the deck. */
  function CardBought(s: GameState, p: Player): GameState
    requires |s.devCardDeck| > 0
  {
    var n := |s.devCardDeck| - 1;
    s.(players := ReplacePlayer(s.players, p.id, p.(resources := Pay(p.resources, DevCardCost),
                                                   devCards := p.devCards + [s.devCardDeck[n]])),
       devCardDeck := s.devCardDeck[..n])
  }

  method HandleBuyDevCard(pid: PlayerId, s: GameState) returns (r: GameState)
    ensures FindPlayer(s.players, pid).None? ==> r == s
    ensures FindPlayer(s.players, pid).Some? && !CanBuyDevCard(FindPlayer(s.players, pid).value, s).Valid? ==> r == s
    ensures FindPlayer(s.players, pid).Some? && CanBuyDevCard(FindPlayer(s.players, pid).value, s).Valid? ==>
      |s.devCardDeck| > 0 && r == CardBought(s, FindPlayer(s.players, pid).value)
  {
    var found := FindPlayer(s.players, pid);
    if found.None? {
      return s;
    }
    var player := found.value;
    if !CanBuyDevCard(player, s).Valid? {
      return s;
    }
    var resources := DeductCost(player.resources, DevCardCost);
    var devCards := player.devCards;
    var newDeck := s.devCardDeck;
    var drawnCard := newDeck[|newDeck| - 1];
    newDeck := newDeck[..|newDeck| - 1];
    devCards := devCards + [drawnCard];
    var updatedPlayer := player.(resources := resources, devCards := devCards);
    r := s.(players := ReplacePlayer(s.players, pid, updatedPlayer), devCardDeck := newDeck);
  }

  /**
   * A purchase moves one card from the deck to a hand: with unique player
   * ids the cards in hands and in the deck together stay the same multiset,
   * and no resource count goes negative.
   */
  lemma CardPurchaseConservesCards(s: GameState, p: Player)
    requires FindPlayer(s.players, p.id) == Some(p) && UniquePlayerIds(s.players)
    requires CanBuyDevCard(p, s).Valid?
    ensures var r := CardBought(s, p);
      CardsInHands(r.players) + multiset(r.devCardDeck) == CardsInHands(s.players) + multiset(s.devCardDeck)
    ensures AllNonNegative(s.players) ==> AllNonNegative(CardBought(s, p).players)
  {
    var r := CardBought(s, p);
    var n := |s.devCardDeck| - 1;
    var c := s.devCardDeck[n];
    var np := p.(resources := Pay(p.resources, DevCardCost), devCards := p.devCards + [c]);
    assert r.players == ReplacePlayer(s.players, p.id, np) && r.devCardDeck == s.devCardDeck[..n];
    BuyerGainsCard(s.players, p, np, c);
    DrawLast(s.devCardDeck);
    ShiftOne(CardsInHands(r.players), CardsInHands(s.players), multiset(r.devCardDeck), multiset(s.devCardDeck), c);
    PurchaseKeepsNonNegative(s, p);
  }

  /** Paying for a card the buyer can afford leaves every count non-negative. */
  lemma PurchaseKeepsNonNegative(s: GameState, p: Player)
    requires FindPlayer(s.players, p.id) == Some(p)
    requires CanBuyDevCard(p, s).Valid?
    ensures AllNonNegative(s.players) ==> AllNonNegative(CardBought(s, p).players)
  {
    var n := |s.devCardDeck| - 1;
    var np := p.(resources := Pay(p.resources, DevCardCost), devCards := p.devCards + [s.devCardDeck[n]]);
    assert CardBought(s, p).players == ReplacePlayer(s.players, p.id, np);
    if AllNonNegative(s.players) {
      PayAffordable(p, DevCardCost);
      ReplaceKeepsHands(s.players, p.id, np);
    }
  }

  /** With unique ids, replacing the buyer by a record holding one more card adds exactly that card to the hands. */
  lemma BuyerGainsCard(ps: seq<Player>, p: Player, np: Player, c: DevCard)
    requires FindPlayer(ps, p.id) == Some(p) && UniquePlayerIds(ps)
    requires np.devCards == p.devCards + [c]
    ensures CardsInHands(ReplacePlayer(ps, p.id, np)) == CardsInHands(ps) + multiset{c}
  {
    var qs := ReplacePlayer(ps, p.id, np);
    var k := IndexOfPlayer(ps, p.id);
    forall i | 0 <= i < |ps| && i != k ensures ps[i].devCards == qs[i].devCards {
      assert ps[i].id != p.id;
    }
    assert ps[k] == p && qs[k] == np;
    HandGainsCard(ps, qs, k, c);
  }

  /** Taking the last card off a deck removes exactly that card. */
  lemma DrawLast(deck: seq<DevCard>)
    requires |deck| > 0
    ensures multiset(deck) == multiset(deck[..|deck| - 1]) + multiset{deck[|deck| - 1]}
  {
    assert deck == deck[..|deck| - 1] + [deck[|deck| - 1]];
  }

  /** Appending `c` to one hand adds exactly `c` to the cards in hands. */
  lemma HandGainsCard(ps: seq<Player>, qs: seq<Player>, k: int, c: DevCard)
    requires |ps| == |qs| && 0 <= k < |ps|
    requires forall i :: 0 <= i < |ps| && i != k ==> ps[i].devCards == qs[i].devCards
    requires qs[k].devCards == ps[k].devCards + [c]
    ensures CardsInHands(qs) == CardsInHands(ps) + multiset{c}
  {
    CardsInHandsPointUpdate(ps, qs, k);
    var mine := multiset(ps[k].devCards);
    assert multiset(qs[k].devCards) == mine + multiset{c};
    CancelRight(CardsInHands(qs), CardsInHands(ps) + multiset{c}, mine);
  }

  lemma ShiftOne<T>(h: multiset<T>, h0: multiset<T>, rest: multiset<T>, all: multiset<T>, c: T)
    requires h == h0 + multiset{c} && all == rest + multiset{c}
    ensures h + rest == h0 + all
  {
  }

  lemma CancelRight<T>(a: multiset<T>, b: multiset<T>, m: multiset<T>)
    requires a + m == b + m
    ensures a == b
  {
    forall x ensures a[x] == b[x] {
      assert (a + m)[x] == (b + m)[x];
    }
  }

  /** The hand after a card is played: one copy removed if held, and the card appended to the played list. */
  function PlayCard(p: Player, card: DevCard): (r: Player)
    ensures card in p.devCards ==> multiset(r.devCards) + multiset{card} == multiset(p.devCards)
    ensures card !in p.devCards ==> r.devCards == p.devCards
    ensures r.playedDevCards == p.playedDevCards + [card]
    ensures r == p.(devCards := r.devCards, playedDevCards := r.playedDevCards)
  {
    p.(devCards := RemoveFirst(p.devCards, card), playedDevCards := p.playedDevCards + [card])
  }

  // ---------------------------------------------------------------------------
  // Stealing a resource
  // ---------------------------------------------------------------------------

  function Pos(n: int): nat
  {
    if n > 0 then n else 0
  }

  /** The pool after the first `n` resources (in record order) are pushed, one entry per unit held. */
  function PoolUpTo(res: Resources, n: nat): (r: seq<Resource>)
    requires n <= |AllResources|
  {
    if n == 0 then [] else PoolUpTo(res, n - 1) + Repeat(AllResources[n - 1], Pos(res.Get(AllResources[n - 1])))
  }

  /** The list the victim's resources are drawn from. */
  function StealPool(res: Resources): seq<Resource>
  {
    PoolUpTo(res, |AllResources|)
  }

  /** The position of a resource in the record order. */
  function ResourceIndex(k: Resource): (i: nat)
    ensures i < |AllResources| && AllResources[i] == k
  {
    match k
    case Wood => 0
    case Brick => 1
    case Sheep => 2
    case Wheat => 3
    case Ore => 4
  }

  /** `ResourceIndex` inverts indexing into the record order. */
  lemma ResourceIndexOf(i: nat)
    requires i < |AllResources|
    ensures ResourceIndex(AllResources[i]) == i
  {
    if i == 0 {} else if i == 1 {} else if i == 2 {} else if i == 3 {} else {}
  }

  lemma {:induction false} PoolUpToCounts(res: Resources, n: nat, k: Resource)
    requires n <= |AllResources|
    ensures multiset(PoolUpTo(res, n))[k] == if ResourceIndex(k) < n then Pos(res.Get(k)) else 0
  {
    if n > 0 {
      var x := AllResources[n - 1];
      PoolUpToCounts(res, n - 1, k);
      RepeatCount(x, Pos(res.Get(x)), k);
      ResourceIndexOf(n - 1);
    }
  }

  /** Each resource appears in the pool as often as the victim holds it (negative counts give none). */
  lemma StealPoolCounts(res: Resources)
    ensures forall k :: multiset(StealPool(res))[k] == Pos(res.Get(k))
  {
    forall k ensures multiset(StealPool(res))[k] == Pos(res.Get(k)) {
      PoolUpToCounts(res, |AllResources|, k);
    }
  }

  /** The pool is empty exactly when the victim holds nothing. */
  lemma StealPoolEmpty(res: Resources)
    ensures |StealPool(res)| == 0 <==> (forall k :: res.Get(k) <= 0)
  {
    StealPoolCounts(res);
    var pool := StealPool(res);
    if |pool| > 0 {
      assert pool[0] in multiset(pool);
    } else {
      assert multiset(pool) == multiset{};
    }
    if forall k :: res.Get(k) <= 0 {
      assert multiset(pool) == multiset{};
    }
  }

  /** Every entry of the pool is a resource the victim holds at least one of. */
  lemma StealPoolHeld(res: Resources, i: int)
    requires 0 <= i < |StealPool(res)|
    ensures res.Get(StealPool(res)[i]) >= 1
  {
    StealPoolCounts(res);
    assert StealPool(res)[i] in multiset(StealPool(res));
  }

  /** The pick is below the pool size whenever the pool is non-empty (`Math.floor(Math.random() * length)`). */
  predicate ValidPick(ps: seq<Player>, victimId: PlayerId, pick: nat)
  {
    match FindPlayer(ps, victimId)
    case None => true
    case Some(v) => |StealPool(v.resources)| == 0 || pick < |StealPool(v.resources)|
  }

  /** The victim's entries lose one `k`, then the stealer's entries gain one; a victim who is the stealer only loses. */
  function TakeOne(ps: seq<Player>, stealerId: PlayerId, victimId: PlayerId, k: Resource): (r: seq<Player>)
    ensures |r| == |ps|
    ensures forall i :: 0 <= i < |ps| ==>
      (r[i] == if ps[i].id == victimId then ps[i].(resources := ps[i].resources.With(k, ps[i].resources.Get(k) - 1))
               else if ps[i].id == stealerId then ps[i].(resources := ps[i].resources.With(k, ps[i].resources.Get(k) + 1))
               else ps[i])
  {
    seq(|ps|, i requires 0 <= i < |ps| =>
      if ps[i].id == victimId then ps[i].(resources := ps[i].resources.With(k, ps[i].resources.Get(k) - 1))
      else if ps[i].id == stealerId then ps[i].(resources := ps[i].resources.With(k, ps[i].resources.Get(k) + 1))
      else ps[i])
  }

  /** The players after the theft; nothing changes for an unknown victim or an empty pool. */
  function StealResult(ps: seq<Player>, stealerId: PlayerId, victimId: PlayerId, pick: nat): (r: seq<Player>)
    requires ValidPick(ps, victimId, pick)
    ensures |r| == |ps| && forall i :: 0 <= i < |ps| ==> r[i] == ps[i].(resources := r[i].resources)
  {
    match FindPlayer(ps, victimId)
    case None => ps
    case Some(v) =>
      var pool := StealPool(v.resources);
      if |pool| == 0 then ps else TakeOne(ps, stealerId, victimId, pool[pick])
  }

  method StealRandomResource(ps: seq<Player>, stealerId: PlayerId, victimId: PlayerId, pick: nat) returns (r: seq<Player>)
    requires ValidPick(ps, victimId, pick)
    ensures r == StealResult(ps, stealerId, victimId, pick)
  {
    var victim := FindPlayer(ps, victimId);
    if victim.None? {
      return ps;
    }
    var availableResources := BuildStealPool(victim.value.resources);
    if |availableResources| == 0 {
      return ps;
    }
    var stolenResource := availableResources[pick];
    r := TakeOne(ps, stealerId, victimId, stolenResource);
  }

  /** `Object.entries(resources).forEach(([r, n]) => { for (i = 0; i < n; i++) pool.push(r) })`. */
  method BuildStealPool(res: Resources) returns (availableResources: seq<Resource>)
    ensures availableResources == StealPool(res)
  {
    availableResources := [];
    for i := 0 to |AllResources|
      invariant availableResources == PoolUpTo(res, i)
    {
      var k := AllResources[i];
      var amount := res.Get(k);
      var j := 0;
      while j < amount
        invariant 0 <= j <= Pos(amount)
        invariant availableResources == PoolUpTo(res, i) + Repeat(k, j)
        decreases amount - j
      {
        availableResources := availableResources + [k];
        j := j + 1;
      }
      assert j == Pos(amount);
    }
  }

  /**
   * With unique ids and a stealer who is present and not the victim, the
   * theft moves one unit from victim to stealer: every per-resource total is
   * conserved and no count goes negative.
   */
  lemma StealConserves(ps: seq<Player>, stealerId: PlayerId, victimId: PlayerId, pick: nat)
    requires ValidPick(ps, victimId, pick) && UniquePlayerIds(ps)
    requires FindPlayer(ps, stealerId).Some? && stealerId != victimId
    ensures forall k :: ResourceSum(StealResult(ps, stealerId, victimId, pick), k) == ResourceSum(ps, k)
    ensures AllNonNegative(ps) ==> AllNonNegative(StealResult(ps, stealerId, victimId, pick))
  {
    match FindPlayer(ps, victimId)
    case None =>
    case Some(v) =>
      var pool := StealPool(v.resources);
      if |pool| > 0 {
        StealPoolHeld(v.resources, pick);
        TakeOneConserves(ps, stealerId, victimId, pool[pick]);
      }
  }

  lemma TakeOneConserves(ps: seq<Player>, stealerId: PlayerId, victimId: PlayerId, stolen: Resource)
    requires UniquePlayerIds(ps) && stealerId != victimId
    requires FindPlayer(ps, stealerId).Some? && FindPlayer(ps, victimId).Some?
    requires FindPlayer(ps, victimId).value.resources.Get(stolen) >= 1
    ensures forall k :: ResourceSum(TakeOne(ps, stealerId, victimId, stolen), k) == ResourceSum(ps, k)
    ensures AllNonNegative(ps) ==> AllNonNegative(TakeOne(ps, stealerId, victimId, stolen))
  {
    var r := TakeOne(ps, stealerId, victimId, stolen);
    var iv, ist := IndexOfPlayer(ps, victimId), IndexOfPlayer(ps, stealerId);
    assert ps[iv].id == victimId && ps[ist].id == stealerId;
    assert r[iv] == ps[iv].(resources := ps[iv].resources.With(stolen, ps[iv].resources.Get(stolen) - 1));
    assert r[ist] == ps[ist].(resources := ps[ist].resources.With(stolen, ps[ist].resources.Get(stolen) + 1));
    forall i | 0 <= i < |ps| && i != iv && i != ist ensures r[i] == ps[i] {
      assert ps[i].id != victimId && ps[i].id != stealerId;
    }
    MoveOne(ps, r, iv, ist, stolen);
  }

  /** Moving one held unit from the entry at `iv` to the one at `ist` conserves totals and non-negative counts. */
  lemma MoveOne(ps: seq<Player>, r: seq<Player>, iv: int, ist: int, stolen: Resource)
    requires |ps| == |r| && 0 <= iv < |ps| && 0 <= ist < |ps| && iv != ist
    requires ps[iv].resources.Get(stolen) >= 1
    requires r[iv] == ps[iv].(resources := ps[iv].resources.With(stolen, ps[iv].resources.Get(stolen) - 1))
    requires r[ist] == ps[ist].(resources := ps[ist].resources.With(stolen, ps[ist].resources.Get(stolen) + 1))
    requires forall i :: 0 <= i < |ps| && i != iv && i != ist ==> r[i] == ps[i]
    ensures forall k :: ResourceSum(r, k) == ResourceSum(ps, k)
    ensures AllNonNegative(ps) ==> AllNonNegative(r)
  {
    var mid := ps[iv := r[iv]];
    forall k ensures ResourceSum(r, k) == ResourceSum(ps, k) {
      TwoPointUpdate(ps, mid, r, iv, ist, k);
    }
  }

  lemma TwoPointUpdate(ps: seq<Player>, mid: seq<Player>, r: seq<Player>, iv: int, ist: int, k: Resource)
    requires |ps| == |mid| == |r| && 0 <= iv < |ps| && 0 <= ist < |ps| && iv != ist
    requires mid == ps[iv := r[iv]] && forall i :: 0 <= i < |ps| && i != iv && i != ist ==> r[i] == ps[i]
    requires r[iv].resources.Get(k) + r[ist].resources.Get(k) == ps[iv].resources.Get(k) + ps[ist].resources.Get(k)
    ensures ResourceSum(r, k) == ResourceSum(ps, k)
  {
    ResourceSumPointUpdate(ps, mid, iv, k);
    ResourceSumPointUpdate(mid, r, ist, k);
  }

  /** With unique ids the victim ends with one resource fewer in total. */
  lemma StealTakesOne(ps: seq<Player>, stealerId: PlayerId, victimId: PlayerId, pick: nat)
    requires ValidPick(ps, victimId, pick) && UniquePlayerIds(ps)
    requires FindPlayer(ps, victimId).Some? && |StealPool(FindPlayer(ps, victimId).value.resources)| > 0
    ensures var r := StealResult(ps, stealerId, victimId, pick);
      FindPlayer(r, victimId).Some? &&
      FindPlayer(r, victimId).value.resources.Total() == FindPlayer(ps, victimId).value.resources.Total() - 1
  {
    var r := StealResult(ps, stealerId, victimId, pick);
    var iv := IndexOfPlayer(ps, victimId);
    assert r[iv].id == victimId;
    assert IndexOfPlayer(r, victimId) == iv;
  }

  // ---------------------------------------------------------------------------
  // Knight
  // ---------------------------------------------------------------------------

  /** `hexes.map(hex => ({...hex, hasRobber: hex.id === targetHexId}))`. */
  function MoveRobber(hs: seq<Hex>, target: HexId): (r: seq<Hex>)
    ensures |r| == |hs| && forall i :: 0 <= i < |hs| ==> r[i] == hs[i].(hasRobber := hs[i].id == target)
  {
    seq(|hs|, i requires 0 <= i < |hs| => hs[i].(hasRobber := hs[i].id == target))
  }

  /** A steal happens when a victim id is given and is not the empty string. */
  predicate Steals(stealFrom: Option<PlayerId>)
  {
    stealFrom.Some? && stealFrom.value != ""
  }

  function KnightPlayer(p: Player): Player
  {
    PlayCard(p, Knight).(knightsPlayed := p.knightsPlayed + 1)
  }

  /** Replacing the knight player's entry changes nobody's resources, so the pick stays in range. */
  lemma KnightKeepsPick(ps: seq<Player>, p: Player, victimId: PlayerId, pick: nat)
    requires FindPlayer(ps, p.id) == Some(p) && ValidPick(ps, victimId, pick)
    ensures ValidPick(ReplacePlayer(ps, p.id, KnightPlayer(p)), victimId, pick)
  {
    if victimId == p.id {
      FindReplacedPlayer(ps, p.id, KnightPlayer(p));
    } else {
      FindOtherPlayer(ps, p.id, KnightPlayer(p), victimId);
    }
  }

  /** The state after the knight is played and the robber moved, before the badge is re-evaluated. */
  function KnightPlayed(s: GameState, p: Player, target: HexId, stealFrom: Option<PlayerId>, pick: nat): GameState
    requires Steals(stealFrom) ==> ValidPick(ReplacePlayer(s.players, p.id, KnightPlayer(p)), stealFrom.value, pick)
  {
    var updated := ReplacePlayer(s.players, p.id, KnightPlayer(p));
    var players := if Steals(stealFrom) then StealResult(updated, p.id, stealFrom.value, pick) else updated;
    s.(players := players, hexes := MoveRobber(s.hexes, target))
  }

  function HandlePlayKnight(pid: PlayerId, target: HexId, stealFrom: Option<PlayerId>, s: GameState, pick: nat): (r: GameState)
    requires stealFrom.Some? ==> ValidPick(s.players, stealFrom.value, pick)
    ensures FindPlayer(s.players, pid).None? ==> r == s
    ensures FindPlayer(s.players, pid).Some? ==>
      var p := FindPlayer(s.players, pid).value;
      (Steals(stealFrom) ==> ValidPick(ReplacePlayer(s.players, p.id, KnightPlayer(p)), stealFrom.value, pick)) &&
      var played := KnightPlayed(s, p, target, stealFrom, pick);
      (if CheckLargestArmy(pid, r) then LargestArmyAwarded(r, pid) && OnlyLargestArmyBadgeChanged(played, r) else r == played)
  {
    match FindPlayer(s.players, pid)
    case None => s
    case Some(p) =>
      assert Steals(stealFrom) ==> ValidPick(ReplacePlayer(s.players, p.id, KnightPlayer(p)), stealFrom.value, pick) by {
        if Steals(stealFrom) {
          KnightKeepsPick(s.players, p, stealFrom.value, pick);
        }
      }
      UpdateLargestArmy(KnightPlayed(s, p, target, stealFrom, pick), pid)
  }

  /** Afterwards the robber stands exactly on the hexes whose id is the target; nothing else about the hexes changes. */
  lemma KnightMovesRobber(pid: PlayerId, target: HexId, stealFrom: Option<PlayerId>, s: GameState, pick: nat)
    requires stealFrom.Some? ==> ValidPick(s.players, stealFrom.value, pick)
    requires FindPlayer(s.players, pid).Some?
    ensures var r := HandlePlayKnight(pid, target, stealFrom, s, pick);
      |r.hexes| == |s.hexes| &&
      forall i :: 0 <= i < |s.hexes| ==> (r.hexes[i].hasRobber <==> s.hexes[i].id == target) && r.hexes[i].id == s.hexes[i].id
  {
  }

  /**
   * The knight's player has one more knight played and KNIGHT appended to the
   * played list; every other player's cards and knights are unchanged.
   */
  lemma KnightCountsKnight(pid: PlayerId, target: HexId, stealFrom: Option<PlayerId>, s: GameState, pick: nat)
    requires stealFrom.Some? ==> ValidPick(s.players, stealFrom.value, pick)
    requires FindPlayer(s.players, pid).Some?
    ensures var r := HandlePlayKnight(pid, target, stealFrom, s, pick);
      var p := FindPlayer(s.players, pid).value;
      |r.players| == |s.players| &&
      forall i :: 0 <= i < |s.players| ==>
        r.players[i].id == s.players[i].id &&
        (s.players[i].id == pid ==>
           r.players[i].knightsPlayed == p.knightsPlayed + 1 && r.players[i].playedDevCards == p.playedDevCards + [Knight]) &&
        (s.players[i].id != pid ==>
           r.players[i].knightsPlayed == s.players[i].knightsPlayed && r.players[i].devCards == s.players[i].devCards &&
           r.players[i].playedDevCards == s.players[i].playedDevCards)
  {
    var p := FindPlayer(s.players, pid).value;
    if Steals(stealFrom) {
      KnightKeepsPick(s.players, p, stealFrom.value, pick);
    }
    var updated := ReplacePlayer(s.players, p.id, KnightPlayer(p));
    var played := KnightPlayed(s, p, target, stealFrom, pick);
    assert |played.players| == |updated| &&
      forall i :: 0 <= i < |updated| ==> played.players[i] == updated[i].(resources := played.players[i].resources);
    LargestArmyBadgeOnly(played, pid);
    assert HandlePlayKnight(pid, target, stealFrom, s, pick) == UpdateLargestArmy(played, pid);
  }

  /**
   * With unique ids and a victim other than the knight's player, the
   * per-resource totals are conserved and no count goes negative.
   */
  lemma KnightConserves(pid: PlayerId, target: HexId, stealFrom: Option<PlayerId>, s: GameState, pick: nat)
    requires stealFrom.Some? ==> ValidPick(s.players, stealFrom.value, pick)
    requires FindPlayer(s.players, pid).Some? && UniquePlayerIds(s.players) && stealFrom != Some(pid)
    ensures var r := HandlePlayKnight(pid, target, stealFrom, s, pick);
      forall k :: ResourceSum(r.players, k) == ResourceSum(s.players, k)
    ensures AllNonNegative(s.players) ==> AllNonNegative(HandlePlayKnight(pid, target, stealFrom, s, pick).players)
  {
    var p := FindPlayer(s.players, pid).value;
    KnightBadgeKeepsResources(pid, target, stealFrom, s, pick);
    KnightPlayedConserves(s, p, target, stealFrom, pick);
    var played := KnightPlayed(s, p, target, stealFrom, pick);
    var r := HandlePlayKnight(pid, target, stealFrom, s, pick);
    assert forall k :: ResourceSum(r.players, k) == ResourceSum(played.players, k);
    assert forall k :: ResourceSum(played.players, k) == ResourceSum(s.players, k);
  }

  /** The badge update after a knight changes no resource. */
  lemma KnightBadgeKeepsResources(pid: PlayerId, target: HexId, stealFrom: Option<PlayerId>, s: GameState, pick: nat)
    requires stealFrom.Some? ==> ValidPick(s.players, stealFrom.value, pick)
    requires FindPlayer(s.players, pid).Some?
    ensures var p := FindPlayer(s.players, pid).value;
      Steals(stealFrom) ==> ValidPick(ReplacePlayer(s.players, p.id, KnightPlayer(p)), stealFrom.value, pick)
    ensures var p := FindPlayer(s.players, pid).value;
      var played := KnightPlayed(s, p, target, stealFrom, pick);
      var r := HandlePlayKnight(pid, target, stealFrom, s, pick);
      (forall k :: ResourceSum(r.players, k) == ResourceSum(played.players, k)) &&
      (AllNonNegative(played.players) ==> AllNonNegative(r.players))
  {
    var p := FindPlayer(s.players, pid).value;
    if Steals(stealFrom) {
      KnightKeepsPick(s.players, p, stealFrom.value, pick);
    }
    var played := KnightPlayed(s, p, target, stealFrom, pick);
    assert HandlePlayKnight(pid, target, stealFrom, s, pick) == UpdateLargestArmy(played, pid);
    ArmyUpdateKeepsHands(played, pid);
  }

  /** Re-evaluating the largest-army badge changes no resource. */
  lemma ArmyUpdateKeepsHands(played: GameState, pid: PlayerId)
    ensures forall k :: ResourceSum(UpdateLargestArmy(played, pid).players, k) == ResourceSum(played.players, k)
    ensures AllNonNegative(played.players) ==> AllNonNegative(UpdateLargestArmy(played, pid).players)
  {
    var r := UpdateLargestArmy(played, pid);
    LargestArmyBadgeOnly(played, pid);
    BadgeChangeKeepsHands(played, r);
    forall k ensures ResourceSum(r.players, k) == ResourceSum(played.players, k) {
      ResourceSumUnchanged(played.players, r.players, k);
    }
  }

  /** Moving the knight card from hand to played changes no resource. */
  lemma KnightCardKeepsHands(ps: seq<Player>, p: Player)
    requires FindPlayer(ps, p.id) == Some(p) && UniquePlayerIds(ps)
    ensures forall k :: ResourceSum(ReplacePlayer(ps, p.id, KnightPlayer(p)), k) == ResourceSum(ps, k)
    ensures AllNonNegative(ps) ==> AllNonNegative(ReplacePlayer(ps, p.id, KnightPlayer(p)))
  {
    var updated := ReplacePlayer(ps, p.id, KnightPlayer(p));
    forall i | 0 <= i < |ps| ensures updated[i].resources == ps[i].resources {
      if ps[i].id == p.id {
        FindUniquePlayer(ps, i);
      }
    }
    forall k ensures ResourceSum(updated, k) == ResourceSum(ps, k) {
      ResourceSumUnchanged(ps, updated, k);
    }
  }

  lemma KnightPlayedConserves(s: GameState, p: Player, target: HexId, stealFrom: Option<PlayerId>, pick: nat)
    requires FindPlayer(s.players, p.id) == Some(p) && UniquePlayerIds(s.players) && stealFrom != Some(p.id)
    requires Steals(stealFrom) ==> ValidPick(ReplacePlayer(s.players, p.id, KnightPlayer(p)), stealFrom.value, pick)
    ensures forall k :: ResourceSum(KnightPlayed(s, p, target, stealFrom, pick).players, k) == ResourceSum(s.players, k)
    ensures AllNonNegative(s.players) ==> AllNonNegative(KnightPlayed(s, p, target, stealFrom, pick).players)
  {
    var updated := ReplacePlayer(s.players, p.id, KnightPlayer(p));
    KnightCardKeepsHands(s.players, p);
    if Steals(stealFrom) {
      FindReplacedPlayer(s.players, p.id, KnightPlayer(p));
      StealConserves(updated, p.id, stealFrom.value, pick);
    }
  }

  // ---------------------------------------------------------------------------
  // Year of plenty
  // ---------------------------------------------------------------------------

  /** The record after one unit of each listed resource is added, in list order. */
  function GainEach(res: Resources, ks: seq<Resource>): (r: Resources)
    ensures forall k :: r.Get(k) == res.Get(k) + Count(ks, k)
  {
    if |ks| == 0 then res
    else
      var prev := GainEach(res, ks[..|ks| - 1]);
      prev.With(ks[|ks| - 1], prev.Get(ks[|ks| - 1]) + 1)
  }

  /** Adding the next listed resource extends the gain by one entry. */
  lemma GainEachStep(base: Resources, ks: seq<Resource>, i: int, before: Resources)
    requires 0 <= i < |ks| && before == GainEach(base, ks[..i])
    ensures before.With(ks[i], before.Get(ks[i]) + 1) == GainEach(base, ks[..i + 1])
  {
    assert ks[..i + 1][..i] == ks[..i];
  }

  function YearOfPlentyPlayed(s: GameState, p: Player, ks: seq<Resource>): GameState
  {
    s.(players := ReplacePlayer(s.players, p.id, PlayCard(p, YearOfPlenty).(resources := GainEach(p.resources, ks))))
  }

  method HandlePlayYearOfPlenty(pid: PlayerId, resources: seq<Resource>, s: GameState) returns (r: GameState)
    ensures FindPlayer(s.players, pid).None? ==> r == s
    ensures FindPlayer(s.players, pid).Some? ==> r == YearOfPlentyPlayed(s, FindPlayer(s.players, pid).value, resources)
  {
    var found := FindPlayer(s.players, pid);
    if found.None? {
      return s;
    }
    var player := found.value;
    var updatedPlayer := PlayCard(player, YearOfPlenty);
    var res := player.resources;
    for i := 0 to |resources|
      invariant res == GainEach(player.resources, resources[..i])
    {
      GainEachStep(player.resources, resources, i, res);
      res := res.With(resources[i], res.Get(resources[i]) + 1);
    }
    assert resources[..|resources|] == resources;
    updatedPlayer := updatedPlayer.(resources := res);
    r := s.(players := ReplacePlayer(s.players, pid, updatedPlayer));
  }

  /** The chosen resources come from the bank: with unique ids each total grows by how often it was chosen. */
  lemma YearOfPlentyFromBank(s: GameState, p: Player, ks: seq<Resource>)
    requires FindPlayer(s.players, p.id) == Some(p) && UniquePlayerIds(s.players)
    ensures forall k :: ResourceSum(YearOfPlentyPlayed(s, p, ks).players, k) == ResourceSum(s.players, k) + Count(ks, k)
    ensures AllNonNegative(s.players) ==> AllNonNegative(YearOfPlentyPlayed(s, p, ks).players)
  {
    var ps := s.players;
    var np := PlayCard(p, YearOfPlenty).(resources := GainEach(p.resources, ks));
    var qs := ReplacePlayer(ps, p.id, np);
    assert YearOfPlentyPlayed(s, p, ks).players == qs;
    var m := IndexOfPlayer(ps, p.id);
    assert ps[m] == p && qs[m] == np;
    forall i | 0 <= i < |ps| && i != m ensures qs[i] == ps[i] {
      assert ps[i].id != p.id;
    }
    GainAtOne(ps, qs, m, ks);
  }

  /** Adding the listed resources to entry `m` alone raises each total by its count in the list. */
  lemma GainAtOne(ps: seq<Player>, qs: seq<Player>, m: int, ks: seq<Resource>)
    requires |qs| == |ps| && 0 <= m < |ps|
    requires forall i :: 0 <= i < |ps| && i != m ==> qs[i] == ps[i]
    requires forall k :: qs[m].resources.Get(k) == ps[m].resources.Get(k) + Count(ks, k)
    ensures forall k :: ResourceSum(qs, k) == ResourceSum(ps, k) + Count(ks, k)
    ensures AllNonNegative(ps) ==> AllNonNegative(qs)
  {
    forall k ensures ResourceSum(qs, k) == ResourceSum(ps, k) + Count(ks, k) {
      ResourceSumPointUpdate(ps, qs, m, k);
    }
    if AllNonNegative(ps) {
      var g := qs[m].resources;
      assert ps[m].resources.NonNegative();
      assert g.Get(Wood) >= 0 && g.Get(Brick) >= 0 && g.Get(Sheep) >= 0 && g.Get(Wheat) >= 0 && g.Get(Ore) >= 0;
    }
  }

  // ---------------------------------------------------------------------------
  // Monopoly
  // ---------------------------------------------------------------------------

  /** How much of `k` the players other than `pid` hold together. */
  function OthersHolding(ps: seq<Player>, pid: PlayerId, k: Resource): int
  {
    if |ps| == 0 then 0
    else OthersHolding(ps[..|ps| - 1], pid, k) + (if ps[|ps| - 1].id != pid then ps[|ps| - 1].resources.Get(k) else 0)
  }

  /** Every other player's `k` becomes 0 and the caller's entries gain what they held. */
  function MonopolyPlayed(s: GameState, p: Player, k: Resource): GameState
  {
    var np := PlayCard(p, Monopoly);
    var total := OthersHolding(s.players, p.id, k);
    s.(players := seq(|s.players|, i requires 0 <= i < |s.players| =>
         if s.players[i].id == p.id then np.(resources := np.resources.With(k, np.resources.Get(k) + total))
         else s.players[i].(resources := s.players[i].resources.With(k, 0))))
  }

  method HandlePlayMonopoly(pid: PlayerId, resourceType: Resource, s: GameState) returns (r: GameState)
    ensures FindPlayer(s.players, pid).None? ==> r == s
    ensures FindPlayer(s.players, pid).Some? ==> r == MonopolyPlayed(s, FindPlayer(s.players, pid).value, resourceType)
  {
    var found := FindPlayer(s.players, pid);
    if found.None? {
      return s;
    }
    var player := found.value;
    var updatedPlayer := PlayCard(player, Monopoly);
    var updatedPlayers, totalCollected := CollectFromOthers(s.players, pid, updatedPlayer, resourceType);
    var finalPlayers := seq(|updatedPlayers|, i requires 0 <= i < |updatedPlayers| =>
      if updatedPlayers[i].id == pid
      then updatedPlayers[i].(resources := updatedPlayers[i].resources.With(resourceType, updatedPlayers[i].resources.Get(resourceType) + totalCollected))
      else updatedPlayers[i]);
    assert finalPlayers == MonopolyPlayed(s, player, resourceType).players;
    r := s.(players := finalPlayers);
  }

  /** The first pass: the caller's entries become `np`, the others give up their `k`, and the amounts are summed. */
  method CollectFromOthers(ps: seq<Player>, pid: PlayerId, np: Player, k: Resource)
    returns (updatedPlayers: seq<Player>, totalCollected: int)
    requires np.id == pid
    ensures |updatedPlayers| == |ps|
    ensures forall j :: 0 <= j < |ps| ==>
      (updatedPlayers[j] == if ps[j].id == pid then np else ps[j].(resources := ps[j].resources.With(k, 0)))
    ensures totalCollected == OthersHolding(ps, pid, k)
  {
    totalCollected := 0;
    updatedPlayers := [];
    for i := 0 to |ps|
      invariant |updatedPlayers| == i
      invariant forall j :: 0 <= j < i ==>
        (updatedPlayers[j] == if ps[j].id == pid then np else ps[j].(resources := ps[j].resources.With(k, 0)))
      invariant totalCollected == OthersHolding(ps[..i], pid, k)
    {
      assert ps[..i + 1][..i] == ps[..i];
      var q := ps[i];
      if q.id == pid {
        updatedPlayers := updatedPlayers + [np];
      } else {
        var amountToTake := q.resources.Get(k);
        totalCollected := totalCollected + amountToTake;
        updatedPlayers := updatedPlayers + [q.(resources := q.resources.With(k, 0))];
      }
    }
    assert ps[..|ps|] == ps;
  }

  /** How much of `k` the entries of `pid` hold together. */
  function OwnHolding(ps: seq<Player>, pid: PlayerId, k: Resource): int
  {
    if |ps| == 0 then 0
    else OwnHolding(ps[..|ps| - 1], pid, k) + (if ps[|ps| - 1].id == pid then ps[|ps| - 1].resources.Get(k) else 0)
  }

  lemma {:induction false} HoldingSplit(ps: seq<Player>, pid: PlayerId, k: Resource)
    ensures ResourceSum(ps, k) == OwnHolding(ps, pid, k) + OthersHolding(ps, pid, k)
  {
    if |ps| > 0 {
      HoldingSplit(ps[..|ps| - 1], pid, k);
    }
  }

  /** With unique ids the entries of `pid` hold exactly what its one entry holds. */
  lemma {:induction false} OwnHoldingUnique(ps: seq<Player>, m: int, k: Resource)
    requires UniquePlayerIds(ps) && 0 <= m < |ps|
    ensures OwnHolding(ps, ps[m].id, k) == ps[m].resources.Get(k)
  {
    var n := |ps| - 1;
    if m < n {
      OwnHoldingUnique(ps[..n], m, k);
    } else {
      NoneHolding(ps[..n], ps[m].id, k);
    }
  }

  lemma {:induction false} NoneHolding(ps: seq<Player>, pid: PlayerId, k: Resource)
    requires forall i :: 0 <= i < |ps| ==> ps[i].id != pid
    ensures OwnHolding(ps, pid, k) == 0
  {
    if |ps| > 0 {
      NoneHolding(ps[..|ps| - 1], pid, k);
    }
  }

  /** Entries whose count of `k` is 0 contribute nothing to the others' holding. */
  lemma {:induction false} OthersHoldingZero(ps: seq<Player>, pid: PlayerId, k: Resource)
    requires forall i :: 0 <= i < |ps| && ps[i].id != pid ==> ps[i].resources.Get(k) == 0
    ensures OthersHolding(ps, pid, k) == 0
  {
    if |ps| > 0 {
      OthersHoldingZero(ps[..|ps| - 1], pid, k);
    }
  }

  /**
   * Monopoly moves every other player's `k` to the caller: with unique ids
   * every per-resource total is conserved, and the others are left with none.
   */
  lemma MonopolyConserves(s: GameState, p: Player, k: Resource)
    requires FindPlayer(s.players, p.id) == Some(p) && UniquePlayerIds(s.players)
    ensures forall k' :: ResourceSum(MonopolyPlayed(s, p, k).players, k') == ResourceSum(s.players, k')
    ensures forall i :: 0 <= i < |s.players| && s.players[i].id != p.id ==> MonopolyPlayed(s, p, k).players[i].resources.Get(k) == 0
  {
    var r := MonopolyPlayed(s, p, k).players;
    forall k' ensures ResourceSum(r, k') == ResourceSum(s.players, k') {
      if k' == k {
        MonopolyConservesChosen(s, p, k);
      } else {
        ResourceSumUnchanged(s.players, r, k');
      }
    }
  }

  lemma MonopolyConservesChosen(s: GameState, p: Player, k: Resource)
    requires FindPlayer(s.players, p.id) == Some(p) && UniquePlayerIds(s.players)
    ensures ResourceSum(MonopolyPlayed(s, p, k).players, k) == ResourceSum(s.players, k)
  {
    var ps := s.players;
    var r := MonopolyPlayed(s, p, k).players;
    var m := IndexOfPlayer(ps, p.id);
    var np := PlayCard(p, Monopoly);
    assert ps[m] == p && np.resources == p.resources;
    assert r[m] == np.(resources := np.resources.With(k, np.resources.Get(k) + OthersHolding(ps, p.id, k)));
    forall i | 0 <= i < |ps| && ps[i].id != p.id ensures r[i].resources.Get(k) == 0 {
      assert r[i] == ps[i].(resources := ps[i].resources.With(k, 0));
    }
    MonopolySums(ps, r, m, k);
  }

  /** Zeroing every other entry's `k` and crediting their total to entry `m` keeps the total of `k`. */
  lemma MonopolySums(ps: seq<Player>, qs: seq<Player>, m: int, k: Resource)
    requires UniquePlayerIds(ps) && |qs| == |ps| && 0 <= m < |ps|
    requires forall i :: 0 <= i < |ps| ==> qs[i].id == ps[i].id
    requires forall i :: 0 <= i < |ps| && ps[i].id != ps[m].id ==> qs[i].resources.Get(k) == 0
    requires qs[m].resources.Get(k) == ps[m].resources.Get(k) + OthersHolding(ps, ps[m].id, k)
    ensures ResourceSum(qs, k) == ResourceSum(ps, k)
  {
    var pid := ps[m].id;
    assert UniquePlayerIds(qs);
    HoldingSplit(ps, pid, k);
    HoldingSplit(qs, pid, k);
    OwnHoldingUnique(ps, m, k);
    OwnHoldingUnique(qs, m, k);
    OthersHoldingZero(qs, pid, k);
  }

  // ---------------------------------------------------------------------------
  // Road building
  // ---------------------------------------------------------------------------

  /** `Math.min(edgeIds.length, 2, player.roads)`, as the number of loop rounds it allows. */
  function FreeRoadCount(n: nat, roads: int): (r: nat)
    ensures r <= n && r <= 2
    ensures roads >= 0 ==> r == if n <= 2 && n <= roads then n else if 2 <= roads then 2 else roads
  {
    var m := if n <= 2 && n <= roads then n else if 2 <= roads then 2 else roads;
    if m < 0 then 0 else m
  }

  /** The free builds of the listed edges, one after another. */
  function FreeRoads(pid: PlayerId, es: seq<EdgeId>, s: GameState): GameState
  {
    if |es| == 0 then s else HandleBuildRoad(pid, es[|es| - 1], FreeRoads(pid, es[..|es| - 1], s), true)
  }

  method HandlePlayRoadBuilding(pid: PlayerId, edgeIds: seq<EdgeId>, s: GameState) returns (r: GameState)
    ensures FindPlayer(s.players, pid).None? ==> r == s
    ensures FindPlayer(s.players, pid).Some? ==>
      var p := FindPlayer(s.players, pid).value;
      r == FreeRoads(pid, edgeIds[..FreeRoadCount(|edgeIds|, p.roads)],
                     s.(players := ReplacePlayer(s.players, pid, PlayCard(p, RoadBuilding))))
  {
    var found := FindPlayer(s.players, pid);
    if found.None? {
      return s;
    }
    var player := found.value;
    var updatedPlayer := PlayCard(player, RoadBuilding);
    var start := s.(players := ReplacePlayer(s.players, pid, updatedPlayer));
    var currentState := start;
    var maxRoads := FreeRoadCount(|edgeIds|, player.roads);
    for i := 0 to maxRoads
      invariant currentState == FreeRoads(pid, edgeIds[..i], start)
    {
      assert edgeIds[..i + 1][..i] == edgeIds[..i];
      currentState := HandleBuildRoad(pid, edgeIds[i], currentState, true);
    }
    r := currentState;
  }

  /**
   * Free roads cost nothing: with unique ids every player keeps the same
   * resources, and the ids stay as they were.
   */
  lemma {:induction false} FreeRoadsKeepResources(pid: PlayerId, es: seq<EdgeId>, s: GameState)
    requires UniquePlayerIds(s.players)
    ensures SameIds(s.players, FreeRoads(pid, es, s).players)
    ensures forall i :: 0 <= i < |s.players| ==> FreeRoads(pid, es, s).players[i].resources == s.players[i].resources
  {
    if |es| > 0 {
      var prev := FreeRoads(pid, es[..|es| - 1], s);
      FreeRoadsKeepResources(pid, es[..|es| - 1], s);
      assert UniquePlayerIds(prev.players);
      FreeRoadKeepsResources(pid, es[|es| - 1], prev);
    }
  }

  lemma FreeRoadKeepsResources(pid: PlayerId, edgeId: EdgeId, s: GameState)
    requires UniquePlayerIds(s.players)
    ensures forall i :: 0 <= i < |s.players| ==> HandleBuildRoad(pid, edgeId, s, true).players[i].resources == s.players[i].resources
  {
    if FindPlayer(s.players, pid).Some? {
      var m := IndexOfPlayer(s.players, pid);
      forall i | 0 <= i < |s.players| && s.players[i].id == pid ensures i == m {}
    }
  }

  /**
   * Free roads never take an edge away: with unique edge ids every edge that
   * carried a road still carries the same one, and every edge that changed
   * was free and now carries a road of `pid`.
   */
  lemma {:induction false} FreeRoadsKeepRoads(pid: PlayerId, es: seq<EdgeId>, s: GameState)
    requires UniqueEdgeIds(s.edges)
    ensures |FreeRoads(pid, es, s).edges| == |s.edges|
    ensures forall i :: 0 <= i < |s.edges| ==>
      FreeRoads(pid, es, s).edges[i].id == s.edges[i].id &&
      (FreeRoads(pid, es, s).edges[i] == s.edges[i] ||
       (s.edges[i].road.None? && FreeRoads(pid, es, s).edges[i] == s.edges[i].(road := Some(pid))))
  {
    if |es| > 0 {
      var prev := FreeRoads(pid, es[..|es| - 1], s);
      FreeRoadsKeepRoads(pid, es[..|es| - 1], s);
      assert UniqueEdgeIds(prev.edges);
      FreeRoadKeepsRoads(pid, es[|es| - 1], prev);
    }
  }

  lemma FreeRoadKeepsRoads(pid: PlayerId, edgeId: EdgeId, s: GameState)
    requires UniqueEdgeIds(s.edges)
    ensures var r := HandleBuildRoad(pid, edgeId, s, true);
      |r.edges| == |s.edges| &&
      forall i :: 0 <= i < |s.edges| ==>
        r.edges[i].id == s.edges[i].id &&
        (r.edges[i] == s.edges[i] || (s.edges[i].road.None? && r.edges[i] == s.edges[i].(road := Some(pid))))
  {
    var r := HandleBuildRoad(pid, edgeId, s, true);
    if FindPlayer(s.players, pid).Some? && CanBuildRoad(FindPlayer(s.players, pid).value, edgeId, s, true).Valid? {
      assert r.edges == PlaceRoad(s.edges, edgeId, pid);
      RoadOnEmptyEdge(s.edges, edgeId, pid);
    }
  }

  /** With unique edge ids, a road placed on an empty edge changes only that edge's owner. */
  lemma RoadOnEmptyEdge(es: seq<Edge>, edgeId: EdgeId, pid: PlayerId)
    requires UniqueEdgeIds(es) && FindEdge(es, edgeId).Some? && FindEdge(es, edgeId).value.road.None?
    ensures var r := PlaceRoad(es, edgeId, pid);
      forall i :: 0 <= i < |es| ==>
        r[i].id == es[i].id && (r[i] == es[i] || (es[i].road.None? && r[i] == es[i].(road := Some(pid))))
  {
    var m := IndexOfEdge(es, edgeId);
    forall i | 0 <= i < |es| && es[i].id == edgeId ensures i == m {}
  }
}
