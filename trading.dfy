/**
 * Trading (lib/game-logic/tradingHandlers.ts): the harbours a player can
 * use, the bank's ratio for a resource, trades with the bank, and offers
 * between players that another player may accept or that may be withdrawn.
 */
module Trading {
  import opened Types
  import opened Constants
  import opened Validators
  import opened ActionHandlers

  // ---------------------------------------------------------------------------
  // Harbours and ratios
  // ---------------------------------------------------------------------------

  /** The vertices holding a building of `pid`, in table order (`filter`). */
  function Owned(vs: seq<Vertex>, pid: PlayerId): (r: seq<Vertex>)
    ensures forall v :: v in r <==> v in vs && OwnsBuildingAt(v, pid)
  {
    if |vs| == 0 then []
    else Owned(vs[..|vs| - 1], pid) + (if OwnsBuildingAt(vs[|vs| - 1], pid) then [vs[|vs| - 1]] else [])
  }

  /** The harbours met along `ws`, each recorded the first time it is met. */
  function DistinctPorts(ws: seq<Vertex>): seq<Port>
  {
    if |ws| == 0 then []
    else
      var prev := DistinctPorts(ws[..|ws| - 1]);
      var port := ws[|ws| - 1].port;
      if port.Some? && port.value !in prev then prev + [port.value] else prev
  }

  /** The harbours of the player's buildings. */
  function PortsOf(vs: seq<Vertex>, pid: PlayerId): seq<Port>
  {
    DistinctPorts(Owned(vs, pid))
  }

  method GetPlayerPorts(playerId: PlayerId, s: GameState) returns (ports: seq<Port>)
    ensures ports == PortsOf(s.vertices, playerId)
  {
    var playerVertices := Owned(s.vertices, playerId);
    ports := [];
    for i := 0 to |playerVertices|
      invariant ports == DistinctPorts(playerVertices[..i])
    {
      assert playerVertices[..i + 1][..i] == playerVertices[..i];
      var vertex := playerVertices[i];
      if vertex.port.Some? && vertex.port.value !in ports {
        ports := ports + [vertex.port.value];
      }
    }
    assert playerVertices[..|playerVertices|] == playerVertices;
  }

  lemma {:induction false} DistinctPortsCharacterised(ws: seq<Vertex>)
    ensures forall p :: p in DistinctPorts(ws) <==> exists v :: v in ws && v.port == Some(p)
    ensures forall i, j :: 0 <= i < j < |DistinctPorts(ws)| ==> DistinctPorts(ws)[i] != DistinctPorts(ws)[j]
  {
    if |ws| > 0 {
      var pre := ws[..|ws| - 1];
      DistinctPortsCharacterised(pre);
      forall p ensures p in DistinctPorts(ws) <==> exists v :: v in ws && v.port == Some(p) {
        if exists v :: v in ws && v.port == Some(p) {
          var v :| v in ws && v.port == Some(p);
          if v != ws[|ws| - 1] {
            assert v in pre;
          }
        }
        if p in DistinctPorts(pre) {
          var v :| v in pre && v.port == Some(p);
          assert v in ws;
        }
      }
    }
  }

  /** The player's harbours are exactly those on vertices with one of their buildings, each listed once. */
  lemma PortsOfCharacterised(vs: seq<Vertex>, pid: PlayerId)
    ensures forall p :: p in PortsOf(vs, pid) <==> exists v :: v in vs && OwnsBuildingAt(v, pid) && v.port == Some(p)
    ensures forall i, j :: 0 <= i < j < |PortsOf(vs, pid)| ==> PortsOf(vs, pid)[i] != PortsOf(vs, pid)[j]
  {
    DistinctPortsCharacterised(Owned(vs, pid));
  }

  /** The resource's own harbour gives 2:1, else a generic harbour 3:1, else the bank's 4:1. */
  function TradeRatio(k: Resource, ports: seq<Port>): (r: int)
    ensures r == ResourcePortRatio || r == GenericPortRatio || r == BankRatio
    ensures r == ResourcePortRatio <==> ResourcePort(k) in ports
    ensures r == BankRatio <==> ResourcePort(k) !in ports && GenericPort !in ports
  {
    if ResourcePort(k) in ports then ResourcePortRatio
    else if GenericPort in ports then GenericPortRatio
    else 4
  }

  /** Holding more harbours never makes a ratio worse. */
  lemma TradeRatioMonotone(k: Resource, ps: seq<Port>, qs: seq<Port>)
    requires forall p :: p in ps ==> p in qs
    ensures TradeRatio(k, qs) <= TradeRatio(k, ps)
  {
  }

  // ---------------------------------------------------------------------------
  // Trading with the bank
  // ---------------------------------------------------------------------------

  /** The bank's ratio for the player giving `giving`. */
  function BankTradeRatio(s: GameState, pid: PlayerId, giving: Resource): int
  {
    TradeRatio(giving, PortsOf(s.vertices, pid))
  }

  /**
   * The trade is accepted: the player exists, the amount is a multiple of the
   * ratio and is held. JavaScript's `%` truncates toward zero where Dafny's
   * does not, but the two are zero for the same amounts, and the division
   * that follows is then exact in both.
   */
  predicate BankTradeAccepted(s: GameState, pid: PlayerId, giving: Resource, givingAmount: int)
  {
    FindPlayer(s.players, pid).Some? &&
    givingAmount % BankTradeRatio(s, pid, giving) == 0 &&
    FindPlayer(s.players, pid).value.resources.Get(giving) >= givingAmount
  }

  /**
   * The record update as written: both new counts are computed from the old
   * record, and for the same resource the later key overwrites the earlier.
   */
  function TradedAsWritten(res: Resources, giving: Resource, givingAmount: int, receiving: Resource, receivingAmount: int): Resources
  {
    res.With(giving, res.Get(giving) - givingAmount).With(receiving, res.Get(receiving) + receivingAmount)
  }

  /** The record update as intended: the payment is taken, then the purchase is added to what is left. */
  function Traded(res: Resources, giving: Resource, givingAmount: int, receiving: Resource, receivingAmount: int): Resources
  {
    var paid := res.With(giving, res.Get(giving) - givingAmount);
    paid.With(receiving, paid.Get(receiving) + receivingAmount)
  }

  function MapResources(ps: seq<Player>, pid: PlayerId, f: Resources -> Resources): (r: seq<Player>)
    ensures |r| == |ps|
    ensures forall i :: 0 <= i < |ps| ==> r[i] == if ps[i].id == pid then ps[i].(resources := f(ps[i].resources)) else ps[i]
  {
    seq(|ps|, i requires 0 <= i < |ps| => if ps[i].id == pid then ps[i].(resources := f(ps[i].resources)) else ps[i])
  }

  /** `handleBankTrade` as written. */
  function BankTradeAsWritten(pid: PlayerId, giving: Resource, givingAmount: int, receiving: Resource, s: GameState): (r: GameState)
    ensures r == s.(players := r.players)
    ensures !BankTradeAccepted(s, pid, giving, givingAmount) ==> r == s
  {
    match FindPlayer(s.players, pid)
    case None => s
    case Some(player) =>
      var tradeRatio := BankTradeRatio(s, pid, giving);
      if givingAmount % tradeRatio != 0 then s
      else
        var receivingAmount := givingAmount / tradeRatio;
        if player.resources.Get(giving) < givingAmount then s
        else s.(players := MapResources(s.players, pid,
          res => TradedAsWritten(res, giving, givingAmount, receiving, receivingAmount)))
  }

  /** The bank trade with the payment taken before the purchase is added. */
  function HandleBankTrade(pid: PlayerId, giving: Resource, givingAmount: int, receiving: Resource, s: GameState): (r: GameState)
    ensures r == s.(players := r.players)
    ensures !BankTradeAccepted(s, pid, giving, givingAmount) ==> r == s
  {
    match FindPlayer(s.players, pid)
    case None => s
    case Some(player) =>
      var tradeRatio := BankTradeRatio(s, pid, giving);
      if givingAmount % tradeRatio != 0 then s
      else
        var receivingAmount := givingAmount / tradeRatio;
        if player.resources.Get(giving) < givingAmount then s
        else s.(players := MapResources(s.players, pid,
          res => Traded(res, giving, givingAmount, receiving, receivingAmount)))
  }

  /** For two different resources the two updates agree. */
  lemma BankTradeAgreesForDistinctResources(pid: PlayerId, giving: Resource, givingAmount: int, receiving: Resource, s: GameState)
    requires giving != receiving
    ensures BankTradeAsWritten(pid, giving, givingAmount, receiving, s) == HandleBankTrade(pid, giving, givingAmount, receiving, s)
  {
    forall res: Resources, n: int, m: int
      ensures TradedAsWritten(res, giving, n, receiving, m) == Traded(res, giving, n, receiving, m)
    {
      ResourcesExt(TradedAsWritten(res, giving, n, receiving, m), Traded(res, giving, n, receiving, m));
    }
    var a, b := BankTradeAsWritten(pid, giving, givingAmount, receiving, s), HandleBankTrade(pid, giving, givingAmount, receiving, s);
    if BankTradeAccepted(s, pid, giving, givingAmount) {
      assert a.players == b.players;
    }
  }

  /**
   * As written, trading a resource for itself pays nothing: the player's
   * count of that resource rises by the amount divided by the ratio.
   */
  lemma BankTradeAsWrittenSameResourceGains(pid: PlayerId, k: Resource, givingAmount: int, s: GameState)
    requires UniquePlayerIds(s.players)
    requires BankTradeAccepted(s, pid, k, givingAmount) && givingAmount > 0
    ensures var before := FindPlayer(s.players, pid).value.resources.Get(k);
      var r := BankTradeAsWritten(pid, k, givingAmount, k, s);
      FindPlayer(r.players, pid).Some? &&
      FindPlayer(r.players, pid).value.resources.Get(k) == before + givingAmount / BankTradeRatio(s, pid, k) > before
  {
    var r := BankTradeAsWritten(pid, k, givingAmount, k, s);
    var i := IndexOfPlayer(s.players, pid);
    assert r.players[i].id == pid;
    assert UniquePlayerIds(r.players) by {
      assert forall j :: 0 <= j < |r.players| ==> r.players[j].id == s.players[j].id;
    }
    FindUniquePlayer(r.players, i);
  }

  /** A concrete instance: one player with four wood and no harbour trades four wood for wood and ends with five. */
  lemma BankTradeAsWrittenExample()
    ensures var p := Player("p1", "", "", Human, Resources(4, 0, 0, 0, 0), 5, 4, 15, [], [], 0, 0, false, false);
      var s := GameState(MainGame, Actions, "p1", [p], [], [], [], [], None, None, None, 1, None, 0, None);
      BankTradeAsWritten("p1", Wood, 4, Wood, s).players[0].resources.wood == 5
  {
    var p := Player("p1", "", "", Human, Resources(4, 0, 0, 0, 0), 5, 4, 15, [], [], 0, 0, false, false);
    var s := GameState(MainGame, Actions, "p1", [p], [], [], [], [], None, None, None, 1, None, 0, None);
    assert PortsOf(s.vertices, "p1") == [];
    assert BankTradeRatio(s, "p1", Wood) == 4;
  }

  /**
   * An accepted bank trade takes `givingAmount` of `giving` and adds
   * `givingAmount / ratio` of `receiving`, touching no other count and no
   * other player.
   */
  lemma BankTradeEffect(pid: PlayerId, giving: Resource, givingAmount: int, receiving: Resource, s: GameState, k: Resource)
    requires BankTradeAccepted(s, pid, giving, givingAmount)
    ensures var r := HandleBankTrade(pid, giving, givingAmount, receiving, s);
      var q := givingAmount / BankTradeRatio(s, pid, giving);
      forall i :: 0 <= i < |s.players| ==>
        (r.players[i] == if s.players[i].id == pid
                         then s.players[i].(resources := r.players[i].resources) else s.players[i]) &&
        (s.players[i].id == pid ==>
          r.players[i].resources.Get(k) ==
            s.players[i].resources.Get(k) - (if k == giving then givingAmount else 0) + (if k == receiving then q else 0))
  {
  }

  /**
   * An accepted bank trade for a non-negative amount keeps the trader's counts
   * non-negative and never increases their total, since every ratio is at least 2.
   */
  lemma BankTradeNeverGains(pid: PlayerId, giving: Resource, givingAmount: int, receiving: Resource, s: GameState)
    requires UniquePlayerIds(s.players) && AllNonNegative(s.players)
    requires BankTradeAccepted(s, pid, giving, givingAmount) && givingAmount >= 0
    ensures var r := HandleBankTrade(pid, giving, givingAmount, receiving, s);
      AllNonNegative(r.players) &&
      FindPlayer(r.players, pid).Some? &&
      FindPlayer(r.players, pid).value.resources.Total() ==
        FindPlayer(s.players, pid).value.resources.Total() - givingAmount + givingAmount / BankTradeRatio(s, pid, giving) &&
      FindPlayer(r.players, pid).value.resources.Total() <= FindPlayer(s.players, pid).value.resources.Total()
  {
    var q := givingAmount / BankTradeRatio(s, pid, giving);
    assert 0 <= q <= givingAmount;
    var ps := s.players;
    var qs := MapResources(ps, pid, res => Traded(res, giving, givingAmount, receiving, q));
    assert HandleBankTrade(pid, giving, givingAmount, receiving, s).players == qs;
    var i := IndexOfPlayer(ps, pid);
    TradeOneEntry(ps, qs, i, giving, givingAmount, receiving, q);
  }

  /** Trading at the one entry `i` (ids unique) keeps every count non-negative and moves its total by `q - n`. */
  lemma TradeOneEntry(ps: seq<Player>, qs: seq<Player>, i: int, giving: Resource, n: int, receiving: Resource, q: int)
    requires UniquePlayerIds(ps) && AllNonNegative(ps) && |qs| == |ps| && 0 <= i < |ps|
    requires forall j :: 0 <= j < |ps| ==>
      qs[j] == if ps[j].id == ps[i].id then ps[j].(resources := Traded(ps[j].resources, giving, n, receiving, q)) else ps[j]
    requires ps[i].resources.Get(giving) >= n >= 0 && 0 <= q
    ensures AllNonNegative(qs)
    ensures FindPlayer(qs, ps[i].id) == Some(qs[i])
    ensures qs[i].resources.Total() == ps[i].resources.Total() - n + q
  {
    assert UniquePlayerIds(qs) by {
      assert forall j :: 0 <= j < |qs| ==> qs[j].id == ps[j].id;
    }
    FindUniquePlayer(qs, i);
    forall j | 0 <= j < |qs| ensures qs[j].resources.NonNegative() {
      if ps[j].id == ps[i].id {
        FindUniquePlayer(ps, i);
        assert j == i;
        TradedKeepsNonNegative(ps[j].resources, giving, n, receiving, q);
      }
    }
    TradedTotal(ps[i].resources, giving, n, receiving, q);
  }

  lemma TradedKeepsNonNegative(res: Resources, giving: Resource, n: int, receiving: Resource, q: int)
    requires res.NonNegative() && res.Get(giving) >= n >= 0 && q >= 0
    ensures Traded(res, giving, n, receiving, q).NonNegative()
  {
    var t := Traded(res, giving, n, receiving, q);
    assert forall k :: t.Get(k) >= 0 by {
      forall k ensures t.Get(k) >= 0 {
        assert res.Get(k) >= 0;
      }
    }
    assert t.Get(Wood) >= 0 && t.Get(Brick) >= 0 && t.Get(Sheep) >= 0 && t.Get(Wheat) >= 0 && t.Get(Ore) >= 0;
  }

  lemma TradedTotal(res: Resources, giving: Resource, n: int, receiving: Resource, q: int)
    ensures Traded(res, giving, n, receiving, q).Total() == res.Total() - n + q
  {
    var paid := res.With(giving, res.Get(giving) - n);
    WithTotal(res, giving, res.Get(giving) - n);
    WithTotal(paid, receiving, paid.Get(receiving) + q);
  }

  lemma WithTotal(res: Resources, k: Resource, n: int)
    ensures res.With(k, n).Total() == res.Total() - res.Get(k) + n
  {
  }

  // ---------------------------------------------------------------------------
  // Offers between players
  // ---------------------------------------------------------------------------

  /** The offer is recorded when its author exists and holds every offered amount. */
  function HandleCreateTradeOffer(pid: PlayerId, offering: Bundle, requesting: Bundle, s: GameState): (r: GameState)
    ensures r == s.(currentTradeOffer := r.currentTradeOffer)
    ensures r != s ==> r.currentTradeOffer == Some(TradeOffer(pid, offering, requesting))
    ensures r.currentTradeOffer == Some(TradeOffer(pid, offering, requesting)) <==>
      (FindPlayer(s.players, pid).Some? && HasResources(FindPlayer(s.players, pid).value, offering)) ||
      s.currentTradeOffer == Some(TradeOffer(pid, offering, requesting))
  {
    match FindPlayer(s.players, pid)
    case None => s
    case Some(player) =>
      if !HasResources(player, offering) then s
      else s.(currentTradeOffer := Some(TradeOffer(pid, offering, requesting)))
  }

  /** A withdrawn offer leaves nothing else changed. */
  function HandleDeclineTrade(s: GameState): (r: GameState)
    ensures r.currentTradeOffer.None?
    ensures r.(currentTradeOffer := s.currentTradeOffer) == s
  {
    s.(currentTradeOffer := None)
  }

  /** Creating an offer and withdrawing it restores the state, less any earlier offer. */
  lemma CreateThenDecline(pid: PlayerId, offering: Bundle, requesting: Bundle, s: GameState)
    ensures HandleDeclineTrade(HandleCreateTradeOffer(pid, offering, requesting, s)) == HandleDeclineTrade(s)
  {
  }

  /** Receiving a bundle: every listed amount is added. */
  function Receive(res: Resources, b: Bundle): (r: Resources)
    ensures forall k :: r.Get(k) == res.Get(k) + Amount(b, k)
  {
    Resources(res.wood + Amount(b, Wood), res.brick + Amount(b, Brick), res.sheep + Amount(b, Sheep),
              res.wheat + Amount(b, Wheat), res.ore + Amount(b, Ore))
  }

  /** `Object.entries(b).forEach(([r, n]) => { res[r] += n || 0 })`. */
  method CreditBundle(res: Resources, b: Bundle) returns (r: Resources)
    ensures r == Receive(res, b)
  {
    r := res;
    for i := 0 to |AllResources|
      invariant forall k :: r.Get(k) == res.Get(k) + (if ResourceIndex(k) < i then Amount(b, k) else 0)
    {
      var k := AllResources[i];
      if k in b {
        r := r.With(k, r.Get(k) + b[k]);
      }
    }
    ResourcesExt(r, Receive(res, b));
  }

  /** The offer's author gives the offered bundle and receives the requested one; the acceptor the reverse. */
  function Exchange(ps: seq<Player>, offer: TradeOffer, acceptingId: PlayerId): (r: seq<Player>)
    ensures |r| == |ps|
    ensures forall i :: 0 <= i < |ps| ==> (r[i] ==
      if ps[i].id == offer.playerId then ps[i].(resources := Receive(Pay(ps[i].resources, offer.offering), offer.requesting))
      else if ps[i].id == acceptingId then ps[i].(resources := Pay(Receive(ps[i].resources, offer.offering), offer.requesting))
      else ps[i])
  {
    seq(|ps|, i requires 0 <= i < |ps| => Exchanged(ps[i], offer, acceptingId))
  }

  /** One player's part in the exchange. */
  function Exchanged(p: Player, offer: TradeOffer, acceptingId: PlayerId): Player
  {
    if p.id == offer.playerId then p.(resources := Receive(Pay(p.resources, offer.offering), offer.requesting))
    else if p.id == acceptingId then p.(resources := Pay(Receive(p.resources, offer.offering), offer.requesting))
    else p
  }

  /** The exchange goes ahead when there is an offer, both players exist, they differ and both can pay. */
  predicate TradeAccepted(s: GameState, acceptingId: PlayerId)
  {
    s.currentTradeOffer.Some? &&
    FindPlayer(s.players, s.currentTradeOffer.value.playerId).Some? &&
    FindPlayer(s.players, acceptingId).Some? &&
    acceptingId != s.currentTradeOffer.value.playerId &&
    HasResources(FindPlayer(s.players, s.currentTradeOffer.value.playerId).value, s.currentTradeOffer.value.offering) &&
    HasResources(FindPlayer(s.players, acceptingId).value, s.currentTradeOffer.value.requesting)
  }

  /** The state after an acceptance: unchanged when refused, else the exchange with the offer cleared. */
  function AcceptResult(acceptingId: PlayerId, s: GameState): (r: GameState)
    ensures !TradeAccepted(s, acceptingId) ==> r == s
    ensures TradeAccepted(s, acceptingId) ==>
      r == s.(players := r.players, currentTradeOffer := None)
  {
    if !TradeAccepted(s, acceptingId) then s
    else s.(players := Exchange(s.players, s.currentTradeOffer.value, acceptingId), currentTradeOffer := None)
  }

  method HandleAcceptTrade(acceptingPlayerId: PlayerId, s: GameState) returns (r: GameState)
    ensures r == AcceptResult(acceptingPlayerId, s)
  {
    if s.currentTradeOffer.None? {
      return s;
    }
    var offer := s.currentTradeOffer.value;
    var offeringPlayer := FindPlayer(s.players, offer.playerId);
    var acceptingPlayer := FindPlayer(s.players, acceptingPlayerId);
    if offeringPlayer.None? || acceptingPlayer.None? {
      return s;
    }
    if acceptingPlayerId == offer.playerId {
      return s;
    }
    if !HasResources(offeringPlayer.value, offer.offering) {
      return s;
    }
    if !HasResources(acceptingPlayer.value, offer.requesting) {
      return s;
    }
    var updatedPlayers := [];
    for i := 0 to |s.players|
      invariant updatedPlayers == Exchange(s.players[..i], offer, acceptingPlayerId)
    {
      var p := s.players[i];
      if p.id == offer.playerId {
        var newResources := DeductCost(p.resources, offer.offering);
        newResources := CreditBundle(newResources, offer.requesting);
        p := p.(resources := newResources);
      } else if p.id == acceptingPlayerId {
        var newResources := CreditBundle(p.resources, offer.offering);
        newResources := DeductCost(newResources, offer.requesting);
        p := p.(resources := newResources);
      }
      assert p == Exchanged(s.players[i], offer, acceptingPlayerId);
      ExchangeSnoc(s.players[..i], s.players[i], offer, acceptingPlayerId);
      assert s.players[..i + 1] == s.players[..i] + [s.players[i]];
      updatedPlayers := updatedPlayers + [p];
    }
    assert s.players[..|s.players|] == s.players;
    r := s.(players := updatedPlayers, currentTradeOffer := None);
  }

  lemma ExchangeSnoc(ps: seq<Player>, p: Player, offer: TradeOffer, acceptingId: PlayerId)
    ensures Exchange(ps + [p], offer, acceptingId) == Exchange(ps, offer, acceptingId) + [Exchanged(p, offer, acceptingId)]
  {
    var a, b := Exchange(ps + [p], offer, acceptingId), Exchange(ps, offer, acceptingId) + [Exchanged(p, offer, acceptingId)];
    assert forall i :: 0 <= i < |a| ==> a[i] == b[i];
  }

  /**
   * With unique ids an accepted exchange conserves every per-resource total
   * across the players and, for non-negative bundles, keeps every count
   * non-negative.
   */
  lemma AcceptConserves(acceptingId: PlayerId, s: GameState)
    requires UniquePlayerIds(s.players) && TradeAccepted(s, acceptingId)
    ensures forall k :: ResourceSum(AcceptResult(acceptingId, s).players, k) == ResourceSum(s.players, k)
    ensures AllNonNegative(s.players) && BundleNonNegative(s.currentTradeOffer.value.offering) &&
            BundleNonNegative(s.currentTradeOffer.value.requesting) ==>
      AllNonNegative(AcceptResult(acceptingId, s).players)
  {
    var offer := s.currentTradeOffer.value;
    var ps := s.players;
    var r := AcceptResult(acceptingId, s).players;
    var io, ia := IndexOfPlayer(ps, offer.playerId), IndexOfPlayer(ps, acceptingId);
    forall i | 0 <= i < |ps| && i != io && i != ia ensures r[i] == ps[i] {
      assert ps[i].id != offer.playerId && ps[i].id != acceptingId;
    }
    var mid := ps[io := r[io]];
    forall k ensures ResourceSum(r, k) == ResourceSum(ps, k) {
      TwoPointUpdate(ps, mid, r, io, ia, k);
    }
    if AllNonNegative(ps) && BundleNonNegative(offer.offering) && BundleNonNegative(offer.requesting) {
      ExchangeKeepsNonNegative(ps[io], offer.offering, offer.requesting);
      ExchangeKeepsNonNegative(ps[ia], offer.requesting, offer.offering);
      forall i | 0 <= i < |r| ensures r[i].resources.NonNegative() {
        if i != io && i != ia {
          assert r[i] == ps[i];
        }
      }
    }
  }

  /** Paying a held bundle and receiving a non-negative one keeps a record non-negative, in either order. */
  lemma ExchangeKeepsNonNegative(p: Player, give: Bundle, get: Bundle)
    requires p.resources.NonNegative() && HasResources(p, give) && BundleNonNegative(get)
    ensures Receive(Pay(p.resources, give), get).NonNegative()
    ensures Pay(Receive(p.resources, get), give).NonNegative()
  {
    PayAffordable(p, give);
    var a, b := Receive(Pay(p.resources, give), get), Pay(Receive(p.resources, get), give);
    assert forall k :: a.Get(k) >= 0 && b.Get(k) >= 0 by {
      forall k ensures a.Get(k) >= 0 && b.Get(k) >= 0 {
        assert Pay(p.resources, give).Get(k) >= 0;
        assert Amount(get, k) >= 0;
      }
    }
    assert a.Get(Wood) >= 0 && a.Get(Brick) >= 0 && a.Get(Sheep) >= 0 && a.Get(Wheat) >= 0 && a.Get(Ore) >= 0;
    assert b.Get(Wood) >= 0 && b.Get(Brick) >= 0 && b.Get(Sheep) >= 0 && b.Get(Wheat) >= 0 && b.Get(Ore) >= 0;
  }

  /** Once the offer is withdrawn, an acceptance changes nothing. */
  lemma AcceptAfterDecline(acceptingId: PlayerId, s: GameState)
    ensures AcceptResult(acceptingId, HandleDeclineTrade(s)) == HandleDeclineTrade(s)
  {
  }
}
