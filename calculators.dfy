/**
 * Scores and board measurements (lib/game-logic/calculators.ts): victory
 * points, the longest road found by a backtracking depth-first search over a
 * shared visited set, the two badge checks, and dice-based resource yields.
 */
module Calculators {
  import opened Types
  import opened Constants
  import opened Validators

  // ===========================================================================
  // Victory points
  // ===========================================================================

  /** How many vertices hold a building of `kind` owned by `pid`. */
  function BuildingCount(vs: seq<Vertex>, pid: PlayerId, kind: BuildingKind): nat
  {
    if |vs| == 0 then 0
    else BuildingCount(vs[..|vs| - 1], pid, kind) + (if vs[|vs| - 1].building == Some(Building(kind, pid)) then 1 else 0)
  }

  /** 1 per own settlement, 2 per own city, 2 per badge, 1 per VICTORY_POINT card in hand. */
  function VictoryPoints(player: Player, s: GameState): int
  {
    SettlementPoints * BuildingCount(s.vertices, player.id, Settlement)
    + CityPoints * BuildingCount(s.vertices, player.id, City)
    + (if player.hasLongestRoad then LongestRoadPoints else 0)
    + (if player.hasLargestArmy then LargestArmyPoints else 0)
    + VictoryCardPoints * Count(player.devCards, VictoryPoint)
  }

  method CalculateVictoryPoints(player: Player, s: GameState) returns (points: int)
    ensures points == VictoryPoints(player, s)
    ensures points >= 0
  {
    points := 0;
    for i := 0 to |s.vertices|
      invariant points == SettlementPoints * BuildingCount(s.vertices[..i], player.id, Settlement)
                          + CityPoints * BuildingCount(s.vertices[..i], player.id, City)
    {
      var vx := s.vertices[i];
      assert s.vertices[..i + 1][..i] == s.vertices[..i];
      if vx.building.Some? && vx.building.value.owner == player.id {
        if vx.building.value.kind == Settlement {
          points := points + SettlementPoints;
        } else if vx.building.value.kind == City {
          points := points + CityPoints;
        }
      }
    }
    assert s.vertices[..|s.vertices|] == s.vertices;
    if player.hasLongestRoad {
      points := points + LongestRoadPoints;
    }
    if player.hasLargestArmy {
      points := points + LargestArmyPoints;
    }
    var victoryCardCount := Count(player.devCards, VictoryPoint);
    points := points + victoryCardCount * VictoryCardPoints;
  }

  // ===========================================================================
  // Longest road
  // ===========================================================================

  /** The two tables the search reads. */
  datatype Board = Board(edges: seq<Edge>, vertices: seq<Vertex>)

  function BoardOf(s: GameState): Board
  {
    Board(s.edges, s.vertices)
  }

  /** The edge with id `eid` (first match) carries a road of `pid`. */
  predicate OnRoad(s: Board, eid: EdgeId, pid: PlayerId)
  {
    match FindEdge(s.edges, eid)
    case None => false
    case Some(e) => e.road == Some(pid)
  }

  /** The ids present in the edge table. */
  function EdgeIds(s: Board): set<EdgeId>
  {
    set e | e in s.edges :: e.id
  }

  /** The ids whose first-matching edge carries a road of `pid`. */
  function OwnedEdgeIds(s: Board, pid: PlayerId): set<EdgeId>
  {
    set c | c in EdgeIds(s) && OnRoad(s, c, pid)
  }

  lemma FoundEdgeInTable(s: Board, eid: EdgeId)
    requires FindEdge(s.edges, eid).Some?
    ensures eid in EdgeIds(s)
  {
    var e := s.edges[IndexOfEdge(s.edges, eid)];
    assert e in s.edges;
  }

  /**
   * Among the listed edge ids around a vertex, those a search arriving on
   * `eid` may continue on: not `eid` itself, and carrying a road of `pid`.
   */
  function NextEdges(s: Board, eid: EdgeId, nids: seq<EdgeId>, pid: PlayerId): (r: seq<EdgeId>)
    ensures forall c :: c in r ==> c != eid && OnRoad(s, c, pid) && c in nids
    ensures forall j :: 0 <= j < |nids| && nids[j] != eid && OnRoad(s, nids[j], pid) ==> nids[j] in r
  {
    if |nids| == 0 then []
    else
      var last := nids[|nids| - 1];
      NextEdges(s, eid, nids[..|nids| - 1], pid) + (if last != eid && OnRoad(s, last, pid) then [last] else [])
  }

  /**
   * The search may pass through a vertex unless it holds another player's
   * building; a vertex id with no vertex contributes nothing.
   */
  function NextEdgesAt(s: Board, eid: EdgeId, vid: VertexId, pid: PlayerId): seq<EdgeId>
  {
    match FindVertex(s.vertices, vid)
    case None => []
    case Some(vx) =>
      if vx.building.Some? && vx.building.value.owner != pid then []
      else NextEdges(s, eid, vx.neighborEdgeIds, pid)
  }

  /** The continuation candidates through the listed endpoints, in visiting order. */
  function NextEdgesVia(s: Board, eid: EdgeId, ends: seq<VertexId>, pid: PlayerId): seq<EdgeId>
  {
    if |ends| == 0 then []
    else NextEdgesVia(s, eid, ends[..|ends| - 1], pid) + NextEdgesAt(s, eid, ends[|ends| - 1], pid)
  }

  /**
   * Every continuation of a search on edge `e` is another edge carrying a road
   * of `pid`, reached through an endpoint of `e` that exists and holds no
   * other player's building.
   */
  lemma {:induction false} ContinuationsAreLegal(s: Board, e: Edge, ends: seq<VertexId>, pid: PlayerId, c: EdgeId)
    requires c in NextEdgesVia(s, e.id, ends, pid)
    ensures c != e.id && OnRoad(s, c, pid) && c in OwnedEdgeIds(s, pid)
    ensures exists w :: (w in ends && FindVertex(s.vertices, w).Some? &&
      !(FindVertex(s.vertices, w).value.building.Some? && FindVertex(s.vertices, w).value.building.value.owner != pid) &&
      c in FindVertex(s.vertices, w).value.neighborEdgeIds)
  {
    var n := |ends| - 1;
    if c in NextEdgesVia(s, e.id, ends[..n], pid) {
      ContinuationsAreLegal(s, e, ends[..n], pid, c);
      var w :| w in ends[..n] && FindVertex(s.vertices, w).Some? &&
        !(FindVertex(s.vertices, w).value.building.Some? && FindVertex(s.vertices, w).value.building.value.owner != pid) &&
        c in FindVertex(s.vertices, w).value.neighborEdgeIds;
      assert w in ends;
    } else {
      assert c in NextEdgesAt(s, e.id, ends[n], pid);
      assert FindVertex(s.vertices, ends[n]).Some?;
    }
    FoundEdgeInTable(s, c);
  }

  lemma DifferenceShrinks(a: set<EdgeId>, v: set<EdgeId>, x: EdgeId)
    requires x in a && x !in v
    ensures |a - (v + {x})| < |a - v|
  {
    assert a - (v + {x}) == (a - v) - {x};
    assert x in a - v;
  }

  /**
   * The length `dfsRoadLength` returns for edge `eid` when the edges in `v`
   * are already visited: 0 for a visited edge, 1 for an id with no edge, and
   * otherwise 1 plus the longest continuation with `eid` marked visited.
   */
  function RoadLengthFrom(s: Board, pid: PlayerId, eid: EdgeId, v: set<EdgeId>): (r: nat)
    ensures r == 0 <==> eid in v
    decreases |EdgeIds(s) - v|, 0, 0
  {
    if eid in v then 0
    else match FindEdge(s.edges, eid)
      case None => 1
      case Some(e) =>
        FoundEdgeInTable(s, eid);
        DifferenceShrinks(EdgeIds(s), v, eid);
        1 + LongestOf(s, pid, NextEdgesVia(s, eid, e.Ends(), pid), v + {eid})
  }

  /** The largest `RoadLengthFrom` over the candidates `cs`, or 0 when there are none. */
  function LongestOf(s: Board, pid: PlayerId, cs: seq<EdgeId>, v: set<EdgeId>): (r: nat)
    decreases |EdgeIds(s) - v|, 1, |cs|
  {
    if |cs| == 0 then 0
    else
      var init := cs[..|cs| - 1];
      var rest := LongestOf(s, pid, init, v);
      var last := RoadLengthFrom(s, pid, cs[|cs| - 1], v);
      if last > rest then last else rest
  }

  /**
   * Bound: a search never counts more edges than the owned ones (plus the
   * start) that are not yet visited.
   */
  lemma {:induction false} RoadLengthFromBounded(s: Board, pid: PlayerId, eid: EdgeId, v: set<EdgeId>)
    ensures RoadLengthFrom(s, pid, eid, v) <= |(OwnedEdgeIds(s, pid) + {eid}) - v|
    decreases |EdgeIds(s) - v|
  {
    var owned := OwnedEdgeIds(s, pid);
    if eid !in v {
      assert eid in (owned + {eid}) - v;
      match FindEdge(s.edges, eid)
      case None =>
      case Some(e) =>
        FoundEdgeInTable(s, eid);
        DifferenceShrinks(EdgeIds(s), v, eid);
        var cs := NextEdgesVia(s, eid, e.Ends(), pid);
        var v' := v + {eid};
        var b := |owned - v'|;
        forall c | c in cs
          ensures RoadLengthFrom(s, pid, c, v') <= b
        {
          RoadLengthFromBounded(s, pid, c, v');
          ContinuationsAreLegal(s, e, e.Ends(), pid, c);
          assert (owned + {c}) - v' == owned - v';
        }
        LongestOfBounded(s, pid, cs, v', b);
        assert owned - v' == ((owned + {eid}) - v) - {eid};
    }
  }

  lemma LongestOfSnoc(s: Board, pid: PlayerId, cs: seq<EdgeId>, c: EdgeId, v: set<EdgeId>)
    ensures LongestOf(s, pid, cs + [c], v) ==
      if RoadLengthFrom(s, pid, c, v) > LongestOf(s, pid, cs, v) then RoadLengthFrom(s, pid, c, v) else LongestOf(s, pid, cs, v)
  {
    assert (cs + [c])[..|cs|] == cs;
  }

  /** Each candidate's length is at most the largest. */
  lemma {:induction false} LongestOfCovers(s: Board, pid: PlayerId, cs: seq<EdgeId>, v: set<EdgeId>, j: int)
    requires 0 <= j < |cs|
    ensures RoadLengthFrom(s, pid, cs[j], v) <= LongestOf(s, pid, cs, v)
  {
    if j < |cs| - 1 {
      var init := cs[..|cs| - 1];
      LongestOfCovers(s, pid, init, v, j);
      assert init[j] == cs[j];
    }
  }

  lemma {:induction false} LongestOfBounded(s: Board, pid: PlayerId, cs: seq<EdgeId>, v: set<EdgeId>, b: nat)
    requires forall c :: c in cs ==> RoadLengthFrom(s, pid, c, v) <= b
    ensures LongestOf(s, pid, cs, v) <= b
  {
    if |cs| > 0 {
      var init := cs[..|cs| - 1];
      LongestOfBounded(s, pid, init, v, b);
    }
  }

  /** `edges.filter(e => e.road?.playerId === pid)`. */
  function PlayerEdges(es: seq<Edge>, pid: PlayerId): (r: seq<Edge>)
    ensures forall e :: e in r <==> e in es && e.road == Some(pid)
    ensures |r| <= |es|
  {
    if |es| == 0 then []
    else PlayerEdges(es[..|es| - 1], pid) + (if es[|es| - 1].road == Some(pid) then [es[|es| - 1]] else [])
  }

  /** The largest fresh-search length over the start edges `starts`. */
  function LongestFrom(s: Board, pid: PlayerId, starts: seq<Edge>): nat
  {
    if |starts| == 0 then 0
    else
      var rest := LongestFrom(s, pid, starts[..|starts| - 1]);
      var last := RoadLengthFrom(s, pid, starts[|starts| - 1].id, {});
      if last > rest then last else rest
  }

  /** The value `calculateLongestRoad` computes. */
  function LongestRoad(s: GameState, pid: PlayerId): nat
  {
    LongestFrom(BoardOf(s), pid, PlayerEdges(s.edges, pid))
  }

  /** The length is 0 exactly when the player owns no road. */
  lemma LongestRoadZeroIff(s: GameState, pid: PlayerId)
    ensures LongestRoad(s, pid) == 0 <==> |PlayerEdges(s.edges, pid)| == 0
  {
    var starts := PlayerEdges(s.edges, pid);
    if |starts| > 0 {
      LongestFromCovers(BoardOf(s), pid, starts, 0);
      assert RoadLengthFrom(BoardOf(s), pid, starts[0].id, {}) >= 1;
    }
  }

  lemma LongestFromStep(s: Board, pid: PlayerId, starts: seq<Edge>, i: int)
    requires 0 <= i < |starts|
    ensures LongestFrom(s, pid, starts[..i + 1]) ==
      if RoadLengthFrom(s, pid, starts[i].id, {}) > LongestFrom(s, pid, starts[..i]) then RoadLengthFrom(s, pid, starts[i].id, {})
      else LongestFrom(s, pid, starts[..i])
  {
    assert starts[..i + 1][..i] == starts[..i];
  }

  lemma {:induction false} LongestFromCovers(s: Board, pid: PlayerId, starts: seq<Edge>, j: int)
    requires 0 <= j < |starts|
    ensures RoadLengthFrom(s, pid, starts[j].id, {}) <= LongestFrom(s, pid, starts)
  {
    if j < |starts| - 1 {
      LongestFromCovers(s, pid, starts[..|starts| - 1], j);
    }
  }

  /** Otherwise it lies between 1 and the number of edges carrying the player's roads. */
  lemma LongestRoadBounded(s: GameState, pid: PlayerId)
    ensures |PlayerEdges(s.edges, pid)| > 0 ==> 1 <= LongestRoad(s, pid) <= |PlayerEdges(s.edges, pid)|
  {
    var b := BoardOf(s);
    var starts := PlayerEdges(s.edges, pid);
    LongestRoadZeroIff(s, pid);
    var ids := set e | e in starts :: e.id;
    IdSetSize(starts);
    var owned := OwnedEdgeIds(b, pid);
    forall c | c in owned ensures c in ids {
      var k := IndexOfEdge(s.edges, c);
      assert s.edges[k] in starts;
    }
    forall e | e in starts
      ensures RoadLengthFrom(b, pid, e.id, {}) <= |ids|
    {
      RoadLengthFromBounded(b, pid, e.id, {});
      assert (owned + {e.id}) - {} <= ids;
      SubsetSize((owned + {e.id}) - {}, ids);
    }
    LongestFromBounded(b, pid, starts, |ids|);
  }

  lemma {:induction false} LongestFromBounded(s: Board, pid: PlayerId, starts: seq<Edge>, b: nat)
    requires forall e :: e in starts ==> RoadLengthFrom(s, pid, e.id, {}) <= b
    ensures LongestFrom(s, pid, starts) <= b
  {
    if |starts| > 0 {
      LongestFromBounded(s, pid, starts[..|starts| - 1], b);
    }
  }

  lemma {:induction false} IdSetSize(es: seq<Edge>)
    ensures |set e | e in es :: e.id| <= |es|
  {
    if |es| > 0 {
      var n := |es| - 1;
      IdSetSize(es[..n]);
      assert (set e | e in es :: e.id) == (set e | e in es[..n] :: e.id) + {es[n].id} by {
        assert es == es[..n] + [es[n]];
      }
    } else {
      assert (set e | e in es :: e.id) == {};
    }
  }

  lemma {:induction false} SubsetSize<T>(a: set<T>, b: set<T>)
    requires a <= b
    ensures |a| <= |b|
    decreases a
  {
    if a != {} {
      var x :| x in a;
      SubsetSize(a - {x}, b - {x});
    }
  }

  /** The shared visited set of the search. */
  class EdgeSet {
    var items: set<EdgeId>

    constructor ()
      ensures items == {}
    {
      items := {};
    }
  }

  /**
   * The recursive search. It marks `edgeId` visited, explores from both
   * endpoints, and removes the mark before returning, so the visited set is
   * as it was on entry (except when no edge has the id: the source returns
   * early and leaves the mark in place).
   */
  method DfsRoadLength(edgeId: EdgeId, visited: EdgeSet, s: GameState, pid: PlayerId) returns (len: int)
    modifies visited
    ensures len == RoadLengthFrom(BoardOf(s), pid, edgeId, old(visited.items))
    ensures visited.items ==
      if edgeId !in old(visited.items) && FindEdge(s.edges, edgeId).None? then old(visited.items) + {edgeId}
      else old(visited.items)
    decreases |EdgeIds(BoardOf(s)) - visited.items|, 1
  {
    if edgeId in visited.items {
      return 0;
    }
    visited.items := visited.items + {edgeId};
    var found := FindEdge(s.edges, edgeId);
    if found.None? {
      return 1;
    }
    var edge := found.value;
    ghost var v := visited.items;
    FoundEdgeInTable(BoardOf(s), edgeId);
    DifferenceShrinks(EdgeIds(BoardOf(s)), old(visited.items), edgeId);
    var maxNeighborLength := 0;
    ghost var done: seq<EdgeId> := [];
    var ends := edge.Ends();
    for k := 0 to |ends|
      invariant visited.items == v
      invariant done == NextEdgesVia(BoardOf(s), edgeId, ends[..k], pid)
      invariant maxNeighborLength == LongestOf(BoardOf(s), pid, done, v)
    {
      assert ends[..k + 1][..k] == ends[..k];
      var vertex := FindVertex(s.vertices, ends[k]);
      if vertex.None? {
        assert NextEdgesAt(BoardOf(s), edgeId, ends[k], pid) == [];
        assert done + [] == done;
        continue;
      }
      var vx := vertex.value;
      if vx.building.Some? && vx.building.value.owner != pid {
        assert NextEdgesAt(BoardOf(s), edgeId, ends[k], pid) == [];
        assert done + [] == done;
        continue;
      }
      maxNeighborLength := ExploreEdges(vx.neighborEdgeIds, edgeId, visited, s, pid, maxNeighborLength, done);
      done := done + NextEdges(BoardOf(s), edgeId, vx.neighborEdgeIds, pid);
    }
    assert ends[..|ends|] == ends;
    visited.items := visited.items - {edgeId};
    assert visited.items == old(visited.items);
    assert RoadLengthFrom(BoardOf(s), pid, edgeId, old(visited.items)) == 1 + LongestOf(BoardOf(s), pid, done, v);
    len := 1 + maxNeighborLength;
  }

  /**
   * The search through one endpoint: from every other edge listed around it
   * that carries a road of `pid`, search on, raising `maxSoFar` to the
   * longest result.
   */
  method ExploreEdges(nids: seq<EdgeId>, edgeId: EdgeId, visited: EdgeSet, s: GameState, pid: PlayerId,
                      maxSoFar: int, ghost done: seq<EdgeId>) returns (maxNeighborLength: int)
    requires maxSoFar == LongestOf(BoardOf(s), pid, done, visited.items)
    modifies visited
    ensures visited.items == old(visited.items)
    ensures maxNeighborLength == LongestOf(BoardOf(s), pid, done + NextEdges(BoardOf(s), edgeId, nids, pid), visited.items)
    decreases |EdgeIds(BoardOf(s)) - visited.items| + 1, 0
  {
    ghost var v := visited.items;
    maxNeighborLength := maxSoFar;
    ghost var seen := done;
    for j := 0 to |nids|
      invariant visited.items == v
      invariant seen == done + NextEdges(BoardOf(s), edgeId, nids[..j], pid)
      invariant maxNeighborLength == LongestOf(BoardOf(s), pid, seen, v)
    {
      assert nids[..j + 1][..j] == nids[..j];
      var neighborEdgeId := nids[j];
      if neighborEdgeId == edgeId {
        assert NextEdges(BoardOf(s), edgeId, nids[..j + 1], pid) == NextEdges(BoardOf(s), edgeId, nids[..j], pid) + [];
        continue;
      }
      if EdgeHasRoadOf(s, neighborEdgeId, pid) {
        var length := DfsRoadLength(neighborEdgeId, visited, s, pid);
        LongestOfSnoc(BoardOf(s), pid, seen, neighborEdgeId, v);
        seen := seen + [neighborEdgeId];
        assert NextEdges(BoardOf(s), edgeId, nids[..j + 1], pid) == NextEdges(BoardOf(s), edgeId, nids[..j], pid) + [neighborEdgeId];
        if length > maxNeighborLength {
          maxNeighborLength := length;
        }
      } else {
        assert NextEdges(BoardOf(s), edgeId, nids[..j + 1], pid) == NextEdges(BoardOf(s), edgeId, nids[..j], pid) + [];
      }
    }
    assert nids[..|nids|] == nids;
  }

  /** Runs a fresh search from every edge carrying the player's road and keeps the largest. */
  method CalculateLongestRoad(pid: PlayerId, s: GameState) returns (maxLength: int)
    ensures maxLength == LongestRoad(s, pid)
  {
    var playerEdges := PlayerEdges(s.edges, pid);
    if |playerEdges| == 0 {
      return 0;
    }
    maxLength := 0;
    for i := 0 to |playerEdges|
      invariant maxLength == LongestFrom(BoardOf(s), pid, playerEdges[..i])
    {
      var visited := new EdgeSet();
      var length := DfsRoadLength(playerEdges[i].id, visited, s, pid);
      LongestFromStep(BoardOf(s), pid, playerEdges, i);
      if length > maxLength {
        maxLength := length;
      }
    }
    assert playerEdges[..|playerEdges|] == playerEdges;
  }

  // ===========================================================================
  // Badges
  // ===========================================================================

  /**
   * `Math.max` over the other players' lengths; -1 stands for the `-Infinity`
   * of an empty list, which is below every length.
   */
  function OthersLongestRoad(s: GameState, ps: seq<Player>, pid: PlayerId): int
  {
    if |ps| == 0 then -1
    else
      var rest := OthersLongestRoad(s, ps[..|ps| - 1], pid);
      var last := ps[|ps| - 1];
      if last.id != pid && LongestRoad(s, last.id) > rest then LongestRoad(s, last.id) else rest
  }

  /** It is the largest of the other players' lengths, or -1 when there are none. */
  lemma {:induction false} OthersLongestRoadIsMax(s: GameState, ps: seq<Player>, pid: PlayerId)
    ensures OthersLongestRoad(s, ps, pid) >= -1
    ensures forall i :: 0 <= i < |ps| && ps[i].id != pid ==> LongestRoad(s, ps[i].id) <= OthersLongestRoad(s, ps, pid)
    ensures OthersLongestRoad(s, ps, pid) == -1 ||
            exists i :: 0 <= i < |ps| && ps[i].id != pid && OthersLongestRoad(s, ps, pid) == LongestRoad(s, ps[i].id)
  {
    if |ps| > 0 {
      var init := ps[..|ps| - 1];
      OthersLongestRoadIsMax(s, init, pid);
      forall i | 0 <= i < |ps| - 1 ensures ps[i] == init[i] {}
      if OthersLongestRoad(s, ps, pid) != -1 && OthersLongestRoad(s, ps, pid) == OthersLongestRoad(s, init, pid) {
        var i :| 0 <= i < |init| && init[i].id != pid && OthersLongestRoad(s, init, pid) == LongestRoad(s, init[i].id);
        assert ps[i] == init[i];
      }
    }
  }

  function CheckLongestRoad(pid: PlayerId, s: GameState): (r: bool)
    ensures r <==> (LongestRoad(s, pid) >= LongestRoadMin &&
      forall i :: 0 <= i < |s.players| && s.players[i].id != pid ==> LongestRoad(s, pid) > LongestRoad(s, s.players[i].id))
  {
    var playerRoadLength := LongestRoad(s, pid);
    OthersLongestRoadIsMax(s, s.players, pid);
    if playerRoadLength < LongestRoadMin then false
    else playerRoadLength > OthersLongestRoad(s, s.players, pid)
  }

  /** `Math.max(0, ...)` over the other players' knight counts. */
  function OthersMostKnights(ps: seq<Player>, pid: PlayerId): (r: int)
    ensures r >= 0
    ensures forall i :: 0 <= i < |ps| && ps[i].id != pid ==> ps[i].knightsPlayed <= r
    ensures r == 0 || exists i :: 0 <= i < |ps| && ps[i].id != pid && r == ps[i].knightsPlayed
  {
    if |ps| == 0 then 0
    else
      var rest := OthersMostKnights(ps[..|ps| - 1], pid);
      var last := ps[|ps| - 1];
      if last.id != pid && last.knightsPlayed > rest then last.knightsPlayed else rest
  }

  function CheckLargestArmy(pid: PlayerId, s: GameState): (r: bool)
    ensures r <==> (FindPlayer(s.players, pid).Some? &&
      FindPlayer(s.players, pid).value.knightsPlayed >= LargestArmyMin &&
      forall i :: 0 <= i < |s.players| && s.players[i].id != pid ==>
        FindPlayer(s.players, pid).value.knightsPlayed > s.players[i].knightsPlayed)
  {
    match FindPlayer(s.players, pid)
    case None => false
    case Some(player) =>
      if player.knightsPlayed < LargestArmyMin then false
      else player.knightsPlayed > OthersMostKnights(s.players, pid)
  }

  /** At most one player can pass the longest-road check. */
  lemma LongestRoadCheckExclusive(s: GameState, i: int, j: int)
    requires 0 <= i < |s.players| && 0 <= j < |s.players|
    requires s.players[i].id != s.players[j].id
    ensures !(CheckLongestRoad(s.players[i].id, s) && CheckLongestRoad(s.players[j].id, s))
  {
  }

  /** At most one player can pass the largest-army check. */
  lemma LargestArmyCheckExclusive(s: GameState, i: int, j: int)
    requires UniquePlayerIds(s.players)
    requires 0 <= i < |s.players| && 0 <= j < |s.players| && i != j
    ensures !(CheckLargestArmy(s.players[i].id, s) && CheckLargestArmy(s.players[j].id, s))
  {
    FindUniquePlayer(s.players, i);
    FindUniquePlayer(s.players, j);
  }

  // ===========================================================================
  // Resource yields of a dice roll
  // ===========================================================================

  /** `hexes.filter(hex => hex.number === roll && !hex.hasRobber)`. */
  function ActiveHexes(hs: seq<Hex>, roll: int): (r: seq<Hex>)
    ensures forall h :: h in r <==> h in hs && h.number == Some(roll) && !h.hasRobber
  {
    if |hs| == 0 then []
    else
      var last := hs[|hs| - 1];
      ActiveHexes(hs[..|hs| - 1], roll) + (if last.number == Some(roll) && !last.hasRobber then [last] else [])
  }

  /** A city yields 2, a settlement 1. */
  function BuildingYield(b: Building): int
  {
    if b.kind == City then 2 else 1
  }

  /** What the vertices `vids` (looked up by id) yield to `pid` from one producing hex. */
  function HexYield(s: GameState, vids: seq<VertexId>, pid: PlayerId): int
  {
    if |vids| == 0 then 0
    else
      HexYield(s, vids[..|vids| - 1], pid) + CornerYield(s, vids[|vids| - 1], pid)
  }

  /** What the building at vertex `v` (looked up by id) yields to `pid`: nothing unless `pid` owns it. */
  function CornerYield(s: GameState, v: VertexId, pid: PlayerId): int
  {
    var found := FindVertex(s.vertices, v);
    if found.Some? && found.value.building.Some? && found.value.building.value.owner == pid
    then BuildingYield(found.value.building.value) else 0
  }

  /** One more corner adds its own yield. */
  lemma HexYieldSnoc(s: GameState, vids: seq<VertexId>, v: VertexId, pid: PlayerId)
    ensures HexYield(s, vids + [v], pid) == HexYield(s, vids, pid) + CornerYield(s, v, pid)
  {
    assert (vids + [v])[..|vids|] == vids;
  }

  /** What the hexes `hs` yield to `pid` of resource `k`; a desert yields nothing. */
  function RollYield(s: GameState, hs: seq<Hex>, pid: PlayerId, k: Resource): int
  {
    if |hs| == 0 then 0
    else
      var last := hs[|hs| - 1];
      RollYield(s, hs[..|hs| - 1], pid, k)
      + (if TerrainToResource(last.terrain) == Some(k) then HexYield(s, last.vertexIds, pid) else 0)
  }

  /** What a roll of `roll` yields to `pid` of resource `k`. */
  function Yield(s: GameState, roll: int, pid: PlayerId, k: Resource): int
  {
    RollYield(s, ActiveHexes(s.hexes, roll), pid, k)
  }

  lemma {:induction false} HexYieldNonNegative(s: GameState, vids: seq<VertexId>, pid: PlayerId)
    ensures HexYield(s, vids, pid) >= 0
  {
    if |vids| > 0 {
      HexYieldNonNegative(s, vids[..|vids| - 1], pid);
    }
  }

  lemma {:induction false} RollYieldNonNegative(s: GameState, hs: seq<Hex>, pid: PlayerId, k: Resource)
    ensures RollYield(s, hs, pid, k) >= 0
  {
    if |hs| > 0 {
      RollYieldNonNegative(s, hs[..|hs| - 1], pid, k);
      HexYieldNonNegative(s, hs[|hs| - 1].vertexIds, pid);
    }
  }

  /** A roll never takes anything away. */
  lemma YieldNonNegative(s: GameState, roll: int, pid: PlayerId, k: Resource)
    ensures Yield(s, roll, pid, k) >= 0
  {
    RollYieldNonNegative(s, ActiveHexes(s.hexes, roll), pid, k);
  }

  /** Hexes that do not produce `k` (deserts, other terrains) contribute nothing to it. */
  lemma {:induction false} RollYieldOnlyFromProducers(s: GameState, hs: seq<Hex>, pid: PlayerId, k: Resource)
    requires forall i :: 0 <= i < |hs| ==> TerrainToResource(hs[i].terrain) != Some(k)
    ensures RollYield(s, hs, pid, k) == 0
  {
    if |hs| > 0 {
      RollYieldOnlyFromProducers(s, hs[..|hs| - 1], pid, k);
    }
  }

  /** A roll no hex carries, or whose hexes all hold the robber, yields nothing. */
  lemma YieldWithoutActiveHex(s: GameState, roll: int, pid: PlayerId, k: Resource)
    requires forall i :: 0 <= i < |s.hexes| ==> s.hexes[i].number != Some(roll) || s.hexes[i].hasRobber
    ensures Yield(s, roll, pid, k) == 0
  {
    NoActiveHexes(s.hexes, roll);
  }

  lemma {:induction false} NoActiveHexes(hs: seq<Hex>, roll: int)
    requires forall i :: 0 <= i < |hs| ==> hs[i].number != Some(roll) || hs[i].hasRobber
    ensures ActiveHexes(hs, roll) == []
  {
    if |hs| > 0 {
      NoActiveHexes(hs[..|hs| - 1], roll);
    }
  }

  predicate OwnerKnownAt(s: GameState, vid: VertexId)
  {
    var found := FindVertex(s.vertices, vid);
    found.None? || found.value.building.None? || FindPlayer(s.players, found.value.building.value.owner).Some?
  }

  /** Every building at the listed vertices belongs to one of the players. */
  predicate HexOwnersKnown(s: GameState, vids: seq<VertexId>)
  {
    forall j :: 0 <= j < |vids| ==> OwnerKnownAt(s, vids[j])
  }

  /** Every building on the producing hexes among `hs` belongs to one of the players. */
  predicate OwnersKnown(s: GameState, hs: seq<Hex>)
  {
    forall i :: 0 <= i < |hs| && TerrainToResource(hs[i].terrain).Some? ==> HexOwnersKnown(s, hs[i].vertexIds)
  }

  function PlayerIdSet(ps: seq<Player>): set<PlayerId>
  {
    set p | p in ps :: p.id
  }

  lemma PlayerIdSetFind(ps: seq<Player>, pid: PlayerId)
    ensures pid in PlayerIdSet(ps) <==> FindPlayer(ps, pid).Some?
  {
    if FindPlayer(ps, pid).Some? {
      assert ps[IndexOfPlayer(ps, pid)] in ps;
    }
  }

  /**
   * The distribution record of a roll: for each player id, the amounts the
   * roll yields. The source indexes the record by the building's owner, so a
   * building whose owner is no player makes it throw; that is `None` here.
   */
  method DistributeResources(roll: int, s: GameState) returns (r: Option<map<PlayerId, Bundle>>)
    ensures r.Some? <==> OwnersKnown(s, ActiveHexes(s.hexes, roll))
    ensures r.Some? ==> r.value.Keys == PlayerIdSet(s.players)
    ensures r.Some? ==> forall pid, k :: pid in r.value ==> Amount(r.value[pid], k) == Yield(s, roll, pid, k)
  {
    var distribution := EmptyRecord(s.players);
    var matchingHexes := ActiveHexes(s.hexes, roll);
    for i := 0 to |matchingHexes|
      invariant distribution.Keys == PlayerIdSet(s.players)
      invariant OwnersKnown(s, matchingHexes[..i])
      invariant RecordYields(distribution, s, matchingHexes[..i])
    {
      var hex := matchingHexes[i];
      assert matchingHexes[..i + 1] == matchingHexes[..i] + [hex];
      var resource := TerrainToResource(hex.terrain);
      if resource.None? {
        HexAddsNothing(distribution, s, matchingHexes[..i], hex);
        continue;
      }
      var credited := CreditHex(hex.vertexIds, resource.value, s, distribution);
      if credited.None? {
        assert !OwnersKnown(s, matchingHexes) by {
          assert matchingHexes[i] == hex;
        }
        return None;
      }
      HexAddsItsYield(distribution, credited.value, s, matchingHexes[..i], hex, resource.value);
      distribution := credited.value;
    }
    assert matchingHexes[..|matchingHexes|] == matchingHexes;
    r := Some(distribution);
  }

  /** Each listed player's record holds what the hexes `hs` yield to it. */
  predicate RecordYields(distribution: map<PlayerId, Bundle>, s: GameState, hs: seq<Hex>)
  {
    forall pid, k :: pid in distribution ==> Amount(distribution[pid], k) == RollYield(s, hs, pid, k)
  }

  /** A desert among the hexes adds nothing. */
  lemma HexAddsNothing(distribution: map<PlayerId, Bundle>, s: GameState, hs: seq<Hex>, hex: Hex)
    requires TerrainToResource(hex.terrain).None? && OwnersKnown(s, hs) && RecordYields(distribution, s, hs)
    ensures OwnersKnown(s, hs + [hex]) && RecordYields(distribution, s, hs + [hex])
  {
    assert (hs + [hex])[..|hs|] == hs;
  }

  /** A producing hex whose owners are all known adds its corners' yield of its resource. */
  lemma HexAddsItsYield(distribution: map<PlayerId, Bundle>, credited: map<PlayerId, Bundle>, s: GameState,
                        hs: seq<Hex>, hex: Hex, res: Resource)
    requires TerrainToResource(hex.terrain) == Some(res) && OwnersKnown(s, hs) && RecordYields(distribution, s, hs)
    requires HexOwnersKnown(s, hex.vertexIds) && credited.Keys == distribution.Keys
    requires forall pid, k :: pid in credited ==>
      Amount(credited[pid], k) == Amount(distribution[pid], k) + (if k == res then HexYield(s, hex.vertexIds, pid) else 0)
    ensures OwnersKnown(s, hs + [hex]) && RecordYields(credited, s, hs + [hex])
  {
    assert (hs + [hex])[..|hs|] == hs;
  }

  /** A record with an empty bundle for every player id. */
  method EmptyRecord(ps: seq<Player>) returns (distribution: map<PlayerId, Bundle>)
    ensures distribution.Keys == PlayerIdSet(ps)
    ensures forall pid :: pid in distribution ==> distribution[pid] == map[]
  {
    distribution := map[];
    for i := 0 to |ps|
      invariant distribution.Keys == PlayerIdSet(ps[..i])
      invariant forall pid :: pid in distribution ==> distribution[pid] == map[]
    {
      assert ps[..i + 1] == ps[..i] + [ps[i]];
      distribution := distribution[ps[i].id := map[]];
    }
    assert ps[..|ps|] == ps;
  }

  /**
   * The inner step of the distribution: every settlement or city at the
   * listed vertices credits its owner with 1 or 2 of `res`; `None` when an
   * owner has no entry in the record.
   */
  method CreditHex(vids: seq<VertexId>, res: Resource, s: GameState, distribution: map<PlayerId, Bundle>)
    returns (r: Option<map<PlayerId, Bundle>>)
    requires distribution.Keys == PlayerIdSet(s.players)
    ensures r.Some? <==> HexOwnersKnown(s, vids)
    ensures r.Some? ==> r.value.Keys == distribution.Keys
    ensures r.Some? ==> forall pid, k :: pid in r.value ==>
      Amount(r.value[pid], k) == Amount(distribution[pid], k) + (if k == res then HexYield(s, vids, pid) else 0)
  {
    var record := distribution;
    assert forall pid :: HexYield(s, vids[..0], pid) == 0;
    for j := 0 to |vids|
      invariant record.Keys == distribution.Keys
      invariant HexOwnersKnown(s, vids[..j])
      invariant RecordCredited(record, distribution, s, vids[..j], res)
    {
      assert vids[..j + 1] == vids[..j] + [vids[j]];
      var vertex := FindVertex(s.vertices, vids[j]);
      if vertex.None? || vertex.value.building.None? {
        RecordSkips(record, distribution, s, vids[..j], vids[j], res);
        continue;
      }
      var b := vertex.value.building.value;
      var owner := b.owner;
      var amount := if b.kind == City then 2 else 1;
      PlayerIdSetFind(s.players, owner);
      if owner !in record {
        assert !OwnerKnownAt(s, vids[j]);
        return None;
      }
      var bundle := record[owner];
      var current := if res in bundle then bundle[res] else 0;
      var next := record[owner := bundle[res := current + amount]];
      RecordCredits(record, next, distribution, s, vids[..j], vids[j], res, b, bundle, current, amount);
      record := next;
    }
    assert vids[..|vids|] == vids;
    r := Some(record);
  }

  /** Each listed player's record holds the distribution plus its yield of `res` from the corners `vids`. */
  predicate RecordCredited(record: map<PlayerId, Bundle>, distribution: map<PlayerId, Bundle>, s: GameState,
                           vids: seq<VertexId>, res: Resource)
    requires record.Keys == distribution.Keys
  {
    forall pid, k :: pid in record ==>
      Amount(record[pid], k) == Amount(distribution[pid], k) + (if k == res then HexYield(s, vids, pid) else 0)
  }

  /** A corner without a building credits nobody. */
  lemma RecordSkips(record: map<PlayerId, Bundle>, distribution: map<PlayerId, Bundle>, s: GameState,
                    vids: seq<VertexId>, v: VertexId, res: Resource)
    requires record.Keys == distribution.Keys && RecordCredited(record, distribution, s, vids, res)
    requires FindVertex(s.vertices, v).None? || FindVertex(s.vertices, v).value.building.None?
    ensures RecordCredited(record, distribution, s, vids + [v], res)
  {
    forall pid {
      HexYieldSnoc(s, vids, v, pid);
    }
  }

  /** A building at the corner adds its yield to its owner's amount of `res`. */
  lemma RecordCredits(record: map<PlayerId, Bundle>, next: map<PlayerId, Bundle>, distribution: map<PlayerId, Bundle>,
                      s: GameState, vids: seq<VertexId>, v: VertexId, res: Resource,
                      b: Building, bundle: Bundle, current: int, amount: int)
    requires record.Keys == distribution.Keys && RecordCredited(record, distribution, s, vids, res)
    requires FindVertex(s.vertices, v).Some? && FindVertex(s.vertices, v).value.building == Some(b)
    requires b.owner in record && bundle == record[b.owner] && current == Amount(bundle, res)
    requires amount == BuildingYield(b) && next == record[b.owner := bundle[res := current + amount]]
    ensures next.Keys == distribution.Keys && RecordCredited(next, distribution, s, vids + [v], res)
  {
    forall pid, k | pid in next
      ensures Amount(next[pid], k) == Amount(distribution[pid], k) + (if k == res then HexYield(s, vids + [v], pid) else 0)
    {
      HexYieldSnoc(s, vids, v, pid);
    }
  }

  // ===========================================================================
  // Adjacency lookups
  // ===========================================================================

  /** The vertex ids of the hex with id `hexId`, or none when there is no such hex. */
  function GetAdjacentVertices(hexId: HexId, s: GameState): (r: seq<VertexId>)
    ensures (forall i :: 0 <= i < |s.hexes| ==> s.hexes[i].id != hexId) ==> r == []
    ensures forall i :: 0 <= i < |s.hexes| && s.hexes[i].id == hexId && (forall j :: 0 <= j < i ==> s.hexes[j].id != hexId) ==>
      r == s.hexes[i].vertexIds
  {
    match FindHex(s.hexes, hexId)
    case None => []
    case Some(h) => h.vertexIds
  }

  /** The hex ids of the vertex with id `vertexId`, or none when there is no such vertex. */
  function GetAdjacentHexes(vertexId: VertexId, s: GameState): (r: seq<HexId>)
    ensures (forall i :: 0 <= i < |s.vertices| ==> s.vertices[i].id != vertexId) ==> r == []
    ensures forall i :: 0 <= i < |s.vertices| && s.vertices[i].id == vertexId && (forall j :: 0 <= j < i ==> s.vertices[j].id != vertexId) ==>
      r == s.vertices[i].hexIds
  {
    match FindVertex(s.vertices, vertexId)
    case None => []
    case Some(vx) => vx.hexIds
  }
}
