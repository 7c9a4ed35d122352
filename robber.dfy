/**
 * The robber (lib/game-logic/robberHandlers.ts): who must discard on a seven
 * and how much, the discard itself, moving the robber, the players it can
 * rob, and the theft of one random resource. The random index is a parameter.
 */
module Robber {
  import opened Types
  import opened Constants
  import opened ActionHandlers

  // ---------------------------------------------------------------------------
  // Discarding on a seven
  // ---------------------------------------------------------------------------

  /** A player must discard when holding more than `DiscardThreshold` cards in total. */
  function NeedsToDiscard(p: Player): (r: bool)
    ensures r <==> p.resources.Total() >= DiscardThreshold + 1
    ensures r ==> DiscardAmount(p) >= 4
  {
    p.resources.Total() > DiscardThreshold
  }

  /**
   * Half the hand, rounded down (`Math.floor(total / 2)`). Dafny's division
   * by a positive divisor rounds toward negative infinity, as `Math.floor` does.
   */
  function DiscardAmount(p: Player): (r: int)
    ensures 2 * r <= p.resources.Total() < 2 * r + 2
  {
    p.resources.Total() / 2
  }

  function Max0(n: int): int
  {
    if n > 0 then n else 0
  }

  /** One count after a discard of `amount`, clamped at zero. */
  function DiscardOne(n: int, k: Resource, bundle: Bundle): int
  {
    if k in bundle then Max0(n - bundle[k]) else n
  }

  /** The record after every listed resource is reduced by its listed amount, clamped at zero. */
  function Discarded(res: Resources, bundle: Bundle): (r: Resources)
    ensures forall k :: r.Get(k) == DiscardOne(res.Get(k), k, bundle)
  {
    Resources(DiscardOne(res.wood, Wood, bundle), DiscardOne(res.brick, Brick, bundle),
              DiscardOne(res.sheep, Sheep, bundle), DiscardOne(res.wheat, Wheat, bundle),
              DiscardOne(res.ore, Ore, bundle))
  }

  /** Every entry with the player's id gets its resources discarded; the other entries are kept. */
  function DiscardApplied(ps: seq<Player>, pid: PlayerId, bundle: Bundle): (r: seq<Player>)
    ensures |r| == |ps|
    ensures forall i :: 0 <= i < |ps| ==>
      r[i] == if ps[i].id == pid then ps[i].(resources := Discarded(ps[i].resources, bundle)) else ps[i]
  {
    if |ps| == 0 then []
    else
      DiscardApplied(ps[..|ps| - 1], pid, bundle) +
      [if ps[|ps| - 1].id == pid then ps[|ps| - 1].(resources := Discarded(ps[|ps| - 1].resources, bundle)) else ps[|ps| - 1]]
  }

  /** The state after a discard request: unchanged for an unknown player or a wrong total. */
  function DiscardResult(s: GameState, pid: PlayerId, bundle: Bundle): (r: GameState)
    ensures r == s.(players := r.players)
  {
    match FindPlayer(s.players, pid)
    case None => s
    case Some(p) =>
      if BundleSum(bundle) != DiscardAmount(p) then s
      else s.(players := DiscardApplied(s.players, pid, bundle))
  }

  method HandleDiscardResources(s: GameState, playerId: PlayerId, resourcesToDiscard: Bundle) returns (r: GameState)
    ensures r == DiscardResult(s, playerId, resourcesToDiscard)
  {
    var player := FindPlayer(s.players, playerId);
    if player.None? {
      return s;
    }
    var discardAmount := DiscardAmount(player.value);
    var totalDiscard := BundleSum(resourcesToDiscard);
    if totalDiscard != discardAmount {
      return s;
    }
    var updatedPlayers := [];
    for i := 0 to |s.players|
      invariant updatedPlayers == DiscardApplied(s.players[..i], playerId, resourcesToDiscard)
    {
      var p := s.players[i];
      if p.id == playerId {
        var updatedResources := DiscardFromRecord(p.resources, resourcesToDiscard);
        p := p.(resources := updatedResources);
      }
      assert s.players[..i + 1][..i] == s.players[..i];
      updatedPlayers := updatedPlayers + [p];
    }
    assert s.players[..|s.players|] == s.players;
    r := s.(players := updatedPlayers);
  }

  /** The `forEach` over the listed resources, each one reduced and clamped in turn. */
  method DiscardFromRecord(res: Resources, bundle: Bundle) returns (r: Resources)
    ensures r == Discarded(res, bundle)
  {
    r := res;
    for i := 0 to |AllResources|
      invariant forall k :: r.Get(k) == if ResourceIndex(k) < i then DiscardOne(res.Get(k), k, bundle) else res.Get(k)
    {
      var k := AllResources[i];
      if k in bundle {
        r := r.With(k, Max0(r.Get(k) - bundle[k]));
      }
    }
    ResourcesExt(r, Discarded(res, bundle));
  }

  /** A discard never makes a count negative, and changes nothing but resources. */
  lemma DiscardKeepsNonNegative(s: GameState, pid: PlayerId, bundle: Bundle)
    requires AllNonNegative(s.players)
    ensures AllNonNegative(DiscardResult(s, pid, bundle).players)
  {
    var r := DiscardResult(s, pid, bundle);
    forall i | 0 <= i < |r.players| ensures r.players[i].resources.NonNegative() {
      DiscardedNonNegative(s.players[i].resources, bundle);
    }
  }

  lemma DiscardedNonNegative(res: Resources, bundle: Bundle)
    requires res.NonNegative()
    ensures Discarded(res, bundle).NonNegative()
  {
    var d := Discarded(res, bundle);
    assert forall k :: d.Get(k) >= 0;
    assert d.Get(Wood) >= 0 && d.Get(Brick) >= 0 && d.Get(Sheep) >= 0 && d.Get(Wheat) >= 0 && d.Get(Ore) >= 0;
  }

  /**
   * A valid discard within the player's holdings removes exactly half the
   * hand (rounded down), and leaves every other player as it was.
   */
  lemma DiscardRemovesHalf(s: GameState, pid: PlayerId, bundle: Bundle)
    requires UniquePlayerIds(s.players)
    requires FindPlayer(s.players, pid).Some?
    requires BundleNonNegative(bundle)
    requires forall k :: Amount(bundle, k) <= FindPlayer(s.players, pid).value.resources.Get(k)
    requires BundleSum(bundle) == DiscardAmount(FindPlayer(s.players, pid).value)
    ensures var r := DiscardResult(s, pid, bundle);
      FindPlayer(r.players, pid).Some? &&
      FindPlayer(r.players, pid).value.resources.Total() ==
        FindPlayer(s.players, pid).value.resources.Total() - DiscardAmount(FindPlayer(s.players, pid).value)
    ensures var r := DiscardResult(s, pid, bundle);
      forall i :: 0 <= i < |s.players| && s.players[i].id != pid ==> r.players[i] == s.players[i]
  {
    var p := FindPlayer(s.players, pid).value;
    var r := DiscardResult(s, pid, bundle);
    var ip := IndexOfPlayer(s.players, pid);
    assert r.players[ip].id == pid;
    FindUniquePlayer(r.players, ip);
    DiscardExact(p.resources, bundle);
  }

  /** Within the holdings, the discard takes each listed amount exactly. */
  lemma DiscardExact(res: Resources, bundle: Bundle)
    requires BundleNonNegative(bundle)
    requires forall k :: Amount(bundle, k) <= res.Get(k)
    ensures Discarded(res, bundle).Total() == res.Total() - BundleSum(bundle)
  {
    var d := Discarded(res, bundle);
    forall k ensures d.Get(k) == res.Get(k) - Amount(bundle, k) {
      assert Amount(bundle, k) <= res.Get(k);
    }
    assert d.Get(Wood) + d.Get(Brick) + d.Get(Sheep) + d.Get(Wheat) + d.Get(Ore) == d.Total();
  }

  // ---------------------------------------------------------------------------
  // Moving the robber
  // ---------------------------------------------------------------------------

  /**
   * Moving the robber: an unknown hex, or the hex it already stands on,
   * leaves the state unchanged; otherwise the target gets the robber and
   * every other hex loses it, exactly as a knight moves it.
   */
  function HandleMoveRobber(s: GameState, hexId: HexId): (r: GameState)
    ensures r == s.(hexes := r.hexes)
    ensures FindHex(s.hexes, hexId).None? ==> r == s
    ensures FindHex(s.hexes, hexId).Some? && FindHex(s.hexes, hexId).value.hasRobber ==> r == s
    ensures FindHex(s.hexes, hexId).Some? && !FindHex(s.hexes, hexId).value.hasRobber ==>
      r.hexes == MoveRobber(s.hexes, hexId)
  {
    match FindHex(s.hexes, hexId)
    case None => s
    case Some(targetHex) =>
      if targetHex.hasRobber then s
      else
        s.(hexes := seq(|s.hexes|, i requires 0 <= i < |s.hexes| =>
          if s.hexes[i].id == hexId then s.hexes[i].(hasRobber := true)
          else if s.hexes[i].hasRobber then s.hexes[i].(hasRobber := false)
          else s.hexes[i]))
  }

  /** After a move, the robber stands on the target hex and nowhere else. */
  lemma MoveRobberPlacesOne(hs: seq<Hex>, target: HexId)
    requires UniqueHexIds(hs) && FindHex(hs, target).Some?
    ensures OneRobber(MoveRobber(hs, target))
    ensures forall i :: 0 <= i < |hs| ==> (MoveRobber(hs, target)[i].hasRobber <==> hs[i].id == target)
  {
    var t := IndexOfHex(hs, target);
    var r := MoveRobber(hs, target);
    assert r[t].hasRobber;
    forall j | 0 <= j < |hs| && r[j].hasRobber ensures j == t {
      FindUniqueHex(hs, j);
    }
  }

  /** With unique hex ids, a board with one robber keeps one robber after any move request. */
  lemma MoveRobberKeepsOne(s: GameState, hexId: HexId)
    requires UniqueHexIds(s.hexes) && OneRobber(s.hexes)
    ensures OneRobber(HandleMoveRobber(s, hexId).hexes)
    ensures FindHex(s.hexes, hexId).Some? ==> HandleMoveRobber(s, hexId).hexes[IndexOfHex(s.hexes, hexId)].hasRobber
  {
    if FindHex(s.hexes, hexId).Some? && !FindHex(s.hexes, hexId).value.hasRobber {
      MoveRobberPlacesOne(s.hexes, hexId);
    }
  }

  // ---------------------------------------------------------------------------
  // Who can be robbed
  // ---------------------------------------------------------------------------

  /** The owner of the building on the vertex with id `vid` (first match), if any. */
  function VertexOwner(s: GameState, vid: VertexId): Option<PlayerId>
  {
    match FindVertex(s.vertices, vid)
    case None => None
    case Some(v) => if v.building.Some? then Some(v.building.value.owner) else None
  }

  /** `id` owns a building on the vertex, is not the robbing player, exists and holds a positive total. */
  predicate RobbableAt(s: GameState, vid: VertexId, current: PlayerId, id: PlayerId)
  {
    VertexOwner(s, vid) == Some(id) && id != current &&
    FindPlayer(s.players, id).Some? && FindPlayer(s.players, id).value.resources.Total() > 0
  }

  /** The insertion-ordered set of robbable owners met along `vids`. */
  function CandidatesFrom(s: GameState, vids: seq<VertexId>, current: PlayerId): seq<PlayerId>
  {
    if |vids| == 0 then []
    else
      var prev := CandidatesFrom(s, vids[..|vids| - 1], current);
      var owner := VertexOwner(s, vids[|vids| - 1]);
      if owner.Some? && RobbableAt(s, vids[|vids| - 1], current, owner.value) && owner.value !in prev
      then prev + [owner.value] else prev
  }

  /** The players that can be robbed from the hex with id `hexId`; none for an unknown hex. */
  function StealCandidates(s: GameState, hexId: HexId, current: PlayerId): seq<PlayerId>
  {
    match FindHex(s.hexes, hexId)
    case None => []
    case Some(h) => CandidatesFrom(s, h.vertexIds, current)
  }

  method GetPlayersToStealFrom(s: GameState, hexId: HexId, currentPlayerId: PlayerId) returns (ids: seq<PlayerId>)
    ensures ids == StealCandidates(s, hexId, currentPlayerId)
  {
    var hex := FindHex(s.hexes, hexId);
    if hex.None? {
      return [];
    }
    var vids := hex.value.vertexIds;
    ids := [];
    for i := 0 to |vids|
      invariant ids == CandidatesFrom(s, vids[..i], currentPlayerId)
    {
      assert vids[..i + 1][..i] == vids[..i];
      var vertex := FindVertex(s.vertices, vids[i]);
      if vertex.Some? && vertex.value.building.Some? && vertex.value.building.value.owner != currentPlayerId {
        var owner := vertex.value.building.value.owner;
        var player := FindPlayer(s.players, owner);
        if player.Some? {
          var totalResources := player.value.resources.Total();
          if totalResources > 0 && owner !in ids {
            ids := ids + [owner];
          }
        }
      }
    }
    assert vids[..|vids|] == vids;
  }

  /**
   * The candidates are exactly the robbable owners met along the vertices,
   * each listed once, and never the robbing player.
   */
  lemma {:induction false} CandidatesCharacterised(s: GameState, vids: seq<VertexId>, current: PlayerId)
    ensures forall id :: id in CandidatesFrom(s, vids, current) <==>
      exists i :: 0 <= i < |vids| && RobbableAt(s, vids[i], current, id)
    ensures forall i, j :: 0 <= i < j < |CandidatesFrom(s, vids, current)| ==>
      CandidatesFrom(s, vids, current)[i] != CandidatesFrom(s, vids, current)[j]
    ensures current !in CandidatesFrom(s, vids, current)
  {
    if |vids| > 0 {
      var pre := vids[..|vids| - 1];
      var last := vids[|vids| - 1];
      CandidatesCharacterised(s, pre, current);
      var prev := CandidatesFrom(s, pre, current);
      var owner := VertexOwner(s, last);
      assert forall i :: 0 <= i < |pre| ==> pre[i] == vids[i];
      if owner.Some? && RobbableAt(s, last, current, owner.value) && owner.value !in prev {
        assert CandidatesFrom(s, vids, current) == prev + [owner.value];
        AppendedCandidate(s, vids, current, prev, owner.value);
      } else {
        assert CandidatesFrom(s, vids, current) == prev;
        forall id | RobbableAt(s, last, current, id)
          ensures id in prev
        {
          assert owner == Some(id);
        }
        forall id | exists i :: 0 <= i < |vids| && RobbableAt(s, vids[i], current, id)
          ensures id in prev
        {
          var i :| 0 <= i < |vids| && RobbableAt(s, vids[i], current, id);
          if i < |vids| - 1 {
            assert RobbableAt(s, pre[i], current, id);
          }
        }
      }
    }
  }

  /** The inductive step of `CandidatesCharacterised` when the last owner is appended. */
  lemma AppendedCandidate(s: GameState, vids: seq<VertexId>, current: PlayerId, prev: seq<PlayerId>, o: PlayerId)
    requires |vids| > 0 && RobbableAt(s, vids[|vids| - 1], current, o) && o !in prev
    requires forall id :: id in prev <==> exists i :: 0 <= i < |vids| - 1 && RobbableAt(s, vids[i], current, id)
    requires forall i, j :: 0 <= i < j < |prev| ==> prev[i] != prev[j]
    requires current !in prev
    ensures forall id :: id in prev + [o] <==> exists i :: 0 <= i < |vids| && RobbableAt(s, vids[i], current, id)
    ensures forall i, j :: 0 <= i < j < |prev + [o]| ==> (prev + [o])[i] != (prev + [o])[j]
    ensures current !in prev + [o]
  {
    SnocDistinct(prev, o);
    forall id | id in prev + [o]
      ensures exists i :: 0 <= i < |vids| && RobbableAt(s, vids[i], current, id)
    {
      if id == o {
        assert RobbableAt(s, vids[|vids| - 1], current, id);
      } else {
        assert id in prev;
      }
    }
    forall id | exists i :: 0 <= i < |vids| && RobbableAt(s, vids[i], current, id)
      ensures id in prev + [o]
    {
      var i :| 0 <= i < |vids| && RobbableAt(s, vids[i], current, id);
      if i == |vids| - 1 {
        assert VertexOwner(s, vids[i]) == Some(id) && VertexOwner(s, vids[i]) == Some(o);
      }
    }
  }

  lemma SnocDistinct<T>(xs: seq<T>, x: T)
    requires x !in xs && forall i, j :: 0 <= i < j < |xs| ==> xs[i] != xs[j]
    ensures forall i, j :: 0 <= i < j < |xs + [x]| ==> (xs + [x])[i] != (xs + [x])[j]
  {
  }

  /** Every listed candidate owns a building on the hex and holds resources; every such owner is listed. */
  lemma StealCandidatesCharacterised(s: GameState, hexId: HexId, current: PlayerId, id: PlayerId)
    ensures id in StealCandidates(s, hexId, current) <==>
      FindHex(s.hexes, hexId).Some? &&
      exists i :: 0 <= i < |FindHex(s.hexes, hexId).value.vertexIds| &&
        RobbableAt(s, FindHex(s.hexes, hexId).value.vertexIds[i], current, id)
    ensures current !in StealCandidates(s, hexId, current)
  {
    if FindHex(s.hexes, hexId).Some? {
      CandidatesCharacterised(s, FindHex(s.hexes, hexId).value.vertexIds, current);
    }
  }

  // ---------------------------------------------------------------------------
  // Stealing after the robber moves
  // ---------------------------------------------------------------------------

  /** The state after a theft: unchanged when either player is unknown or the victim's pool is empty. */
  function StealResourceResult(s: GameState, fromId: PlayerId, toId: PlayerId, pick: nat): (r: GameState)
    requires ValidPick(s.players, fromId, pick)
    ensures r == s.(players := r.players)
  {
    match FindPlayer(s.players, fromId)
    case None => s
    case Some(f) =>
      if FindPlayer(s.players, toId).None? then s
      else
        var pool := StealPool(f.resources);
        if |pool| == 0 then s else s.(players := TakeOne(s.players, toId, fromId, pool[pick]))
  }

  method HandleStealResource(s: GameState, fromPlayerId: PlayerId, toPlayerId: PlayerId, pick: nat) returns (r: GameState)
    requires ValidPick(s.players, fromPlayerId, pick)
    ensures r == StealResourceResult(s, fromPlayerId, toPlayerId, pick)
  {
    var fromPlayer := FindPlayer(s.players, fromPlayerId);
    var toPlayer := FindPlayer(s.players, toPlayerId);
    if fromPlayer.None? || toPlayer.None? {
      return s;
    }
    var availableResources := BuildStealPool(fromPlayer.value.resources);
    if |availableResources| == 0 {
      return s;
    }
    var stolenResource := availableResources[pick];
    r := s.(players := TakeOne(s.players, toPlayerId, fromPlayerId, stolenResource));
  }

  /** With both players known, the robber's theft is the knight's theft with the victim and thief as given. */
  lemma StealResourceIsKnightSteal(s: GameState, fromId: PlayerId, toId: PlayerId, pick: nat)
    requires ValidPick(s.players, fromId, pick) && FindPlayer(s.players, toId).Some?
    ensures StealResourceResult(s, fromId, toId, pick).players == StealResult(s.players, toId, fromId, pick)
  {
  }

  /** With unique ids and distinct players the theft conserves every resource and keeps counts non-negative. */
  lemma StealResourceConserves(s: GameState, fromId: PlayerId, toId: PlayerId, pick: nat)
    requires ValidPick(s.players, fromId, pick) && UniquePlayerIds(s.players) && fromId != toId
    ensures forall k :: ResourceSum(StealResourceResult(s, fromId, toId, pick).players, k) == ResourceSum(s.players, k)
    ensures AllNonNegative(s.players) ==> AllNonNegative(StealResourceResult(s, fromId, toId, pick).players)
  {
    if FindPlayer(s.players, toId).Some? {
      StealConserves(s.players, toId, fromId, pick);
    }
  }

  /** A victim whose record is non-negative and sums to zero cannot be robbed. */
  lemma StealFromEmptyHand(s: GameState, fromId: PlayerId, toId: PlayerId, pick: nat)
    requires ValidPick(s.players, fromId, pick) && FindPlayer(s.players, fromId).Some?
    requires FindPlayer(s.players, fromId).value.resources.NonNegative()
    requires FindPlayer(s.players, fromId).value.resources.Total() == 0
    ensures StealResourceResult(s, fromId, toId, pick) == s
  {
    var res := FindPlayer(s.players, fromId).value.resources;
    StealPoolEmpty(res);
    assert forall k :: res.Get(k) <= 0 by {
      forall k ensures res.Get(k) <= 0 {
        assert res.Get(k) >= 0;
      }
    }
  }

  /**
   * With unique ids, distinct players and a victim holding something, the
   * victim gives up one unit of the picked pool entry, a resource they
   * hold, and the thief gains that same unit.
   */
  lemma StealResourceMovesOne(s: GameState, fromId: PlayerId, toId: PlayerId, pick: nat, f: Player, t: Player, k: Resource)
    requires ValidPick(s.players, fromId, pick) && UniquePlayerIds(s.players) && fromId != toId
    requires FindPlayer(s.players, fromId) == Some(f) && FindPlayer(s.players, toId) == Some(t)
    requires pick < |StealPool(f.resources)| && k == StealPool(f.resources)[pick]
    ensures f.resources.Get(k) >= 1
    ensures FindPlayer(StealResourceResult(s, fromId, toId, pick).players, fromId) ==
      Some(f.(resources := f.resources.With(k, f.resources.Get(k) - 1)))
    ensures FindPlayer(StealResourceResult(s, fromId, toId, pick).players, toId) ==
      Some(t.(resources := t.resources.With(k, t.resources.Get(k) + 1)))
  {
    StealPoolHeld(f.resources, pick);
    assert StealResourceResult(s, fromId, toId, pick).players == TakeOne(s.players, toId, fromId, k);
    TakeOneEffect(s.players, toId, fromId, k, f, t);
  }

  /** The entries of the victim and the thief after one unit of `k` moves between them. */
  lemma TakeOneEffect(ps: seq<Player>, toId: PlayerId, fromId: PlayerId, k: Resource, f: Player, t: Player)
    requires UniquePlayerIds(ps) && fromId != toId
    requires FindPlayer(ps, fromId) == Some(f) && FindPlayer(ps, toId) == Some(t)
    ensures FindPlayer(TakeOne(ps, toId, fromId, k), fromId) == Some(f.(resources := f.resources.With(k, f.resources.Get(k) - 1)))
    ensures FindPlayer(TakeOne(ps, toId, fromId, k), toId) == Some(t.(resources := t.resources.With(k, t.resources.Get(k) + 1)))
  {
    var r := TakeOne(ps, toId, fromId, k);
    var iff, it := IndexOfPlayer(ps, fromId), IndexOfPlayer(ps, toId);
    assert UniquePlayerIds(r) by {
      assert forall i :: 0 <= i < |r| ==> r[i].id == ps[i].id;
    }
    assert r[iff] == f.(resources := f.resources.With(k, f.resources.Get(k) - 1));
    assert r[it] == t.(resources := t.resources.With(k, t.resources.Get(k) + 1));
    FindUniquePlayer(r, iff);
    FindUniquePlayer(r, it);
  }
}
