/**
 * The game state of the rules engine (types/game.types.ts): enumerations,
 * the board records (hexes, vertices, edges), players, trade offers and the
 * whole game state, plus the first-match lookups (`Array.prototype.find`,
 * `findIndex`) and the replace-by-id updates (`map`) every rule is built from.
 *
 * Board ids `hex-N`, `vertex-N` and `edge-N` are represented by the natural N.
 * Player counters are JavaScript numbers and are modelled as `int`: that they
 * stay non-negative is proved about the handlers, not assumed by a type.
 */
module Types {

  datatype Option<T> = None | Some(value: T)

  datatype Resource = Wood | Brick | Sheep | Wheat | Ore

  /** The key order of a player's resource record. */
  const AllResources: seq<Resource> := [Wood, Brick, Sheep, Wheat, Ore]

  datatype Terrain = Forest | Hills | Pasture | Fields | Mountains | Desert

  datatype BuildingKind = Settlement | City

  datatype DevCard = Knight | VictoryPoint | RoadBuilding | YearOfPlenty | Monopoly

  /** GENERIC is the 3:1 harbour; the five others are 2:1 for one resource. */
  datatype Port = GenericPort | ResourcePort(resource: Resource)

  datatype PlayerKind = Human | AI

  datatype GamePhase = InitialPlacement | MainGame | GameOver

  datatype TurnPhase = DiceRoll | RobberActivation | Actions

  type PlayerId = string
  type HexId = nat
  type VertexId = nat
  type EdgeId = nat

  /** A player's full resource record `Record<ResourceType, number>`. */
  datatype Resources = Resources(wood: int, brick: int, sheep: int, wheat: int, ore: int)
  {
    function Get(r: Resource): int
    {
      match r
      case Wood => wood
      case Brick => brick
      case Sheep => sheep
      case Wheat => wheat
      case Ore => ore
    }

    /** The record with the count of `r` replaced by `n` (`{...res, [r]: n}`). */
    function With(r: Resource, n: int): (res: Resources)
      ensures res.Get(r) == n
      ensures forall k :: k != r ==> res.Get(k) == Get(k)
    {
      match r
      case Wood => this.(wood := n)
      case Brick => this.(brick := n)
      case Sheep => this.(sheep := n)
      case Wheat => this.(wheat := n)
      case Ore => this.(ore := n)
    }

    /** The sum of all five counts. */
    function Total(): int
    {
      wood + brick + sheep + wheat + ore
    }

    predicate NonNegative()
    {
      wood >= 0 && brick >= 0 && sheep >= 0 && wheat >= 0 && ore >= 0
    }
  }

  const NoResources: Resources := Resources(0, 0, 0, 0, 0)

  /** Two records agree on every resource exactly when they are equal. */
  lemma ResourcesExt(a: Resources, b: Resources)
    requires forall k :: a.Get(k) == b.Get(k)
    ensures a == b
  {
    assert a.Get(Wood) == b.Get(Wood) && a.Get(Brick) == b.Get(Brick);
    assert a.Get(Sheep) == b.Get(Sheep) && a.Get(Wheat) == b.Get(Wheat);
    assert a.Get(Ore) == b.Get(Ore);
  }

  /** A partial record of amounts (`Partial<Record<ResourceType, number>>`). */
  type Bundle = map<Resource, int>

  /** The amount a bundle lists for `r`; a missing entry counts as 0. */
  function Amount(b: Bundle, r: Resource): int
  {
    if r in b then b[r] else 0
  }

  /** The sum of a bundle's listed amounts. */
  function BundleSum(b: Bundle): int
  {
    Amount(b, Wood) + Amount(b, Brick) + Amount(b, Sheep) + Amount(b, Wheat) + Amount(b, Ore)
  }

  predicate BundleNonNegative(b: Bundle)
  {
    forall k :: k in b ==> b[k] >= 0
  }

  datatype Building = Building(kind: BuildingKind, owner: PlayerId)

  datatype Hex = Hex(id: HexId, terrain: Terrain, number: Option<int>, hasRobber: bool,
                     vertexIds: seq<VertexId>, edgeIds: seq<EdgeId>)

  datatype Vertex = Vertex(id: VertexId, hexIds: seq<HexId>, building: Option<Building>,
                           neighborVertexIds: seq<VertexId>, neighborEdgeIds: seq<EdgeId>,
                           port: Option<Port>)

  /** An edge joins the two vertices `u` and `v`; `road` is the owner of its road. */
  datatype Edge = Edge(id: EdgeId, u: VertexId, v: VertexId, hexIds: seq<HexId>, road: Option<PlayerId>)
  {
    function Ends(): seq<VertexId> { [u, v] }
  }

  datatype Player = Player(
    id: PlayerId, name: string, color: string, kind: PlayerKind,
    resources: Resources,
    settlements: int, cities: int, roads: int,
    devCards: seq<DevCard>, playedDevCards: seq<DevCard>,
    knightsPlayed: int, victoryPoints: int,
    hasLongestRoad: bool, hasLargestArmy: bool)

  datatype TradeOffer = TradeOffer(playerId: PlayerId, offering: Bundle, requesting: Bundle)

  datatype GameState = GameState(
    phase: GamePhase,
    turnPhase: TurnPhase,
    currentPlayerId: PlayerId,
    players: seq<Player>,
    hexes: seq<Hex>,
    vertices: seq<Vertex>,
    edges: seq<Edge>,
    devCardDeck: seq<DevCard>,
    lastDiceRoll: Option<(int, int)>,
    longestRoadPlayerId: Option<PlayerId>,
    largestArmyPlayerId: Option<PlayerId>,
    turnNumber: int,
    winner: Option<PlayerId>,
    initialPlacementRound: int,
    currentTradeOffer: Option<TradeOffer>)

  /** `ValidationResult`: valid, or invalid with the source's error message. */
  datatype Validation = Valid | Invalid(error: string)

  // ---------------------------------------------------------------------------
  // First-match lookups: `findIndex` gives -1 when nothing matches, `find`
  // gives the element at the first matching index.
  // ---------------------------------------------------------------------------

  function IndexOfPlayer(ps: seq<Player>, id: PlayerId): (r: int)
    ensures -1 <= r < |ps|
    ensures r == -1 <==> forall i :: 0 <= i < |ps| ==> ps[i].id != id
    ensures r >= 0 ==> ps[r].id == id && forall j :: 0 <= j < r ==> ps[j].id != id
  {
    if |ps| == 0 then -1
    else if ps[0].id == id then 0
    else
      var k := IndexOfPlayer(ps[1..], id);
      if k == -1 then -1 else k + 1
  }

  function FindPlayer(ps: seq<Player>, id: PlayerId): (r: Option<Player>)
    ensures r.None? <==> forall i :: 0 <= i < |ps| ==> ps[i].id != id
    ensures r.Some? ==> r.value.id == id && r.value == ps[IndexOfPlayer(ps, id)]
  {
    var i := IndexOfPlayer(ps, id);
    if i == -1 then None else Some(ps[i])
  }

  function IndexOfHex(hs: seq<Hex>, id: HexId): (r: int)
    ensures -1 <= r < |hs|
    ensures r == -1 <==> forall i :: 0 <= i < |hs| ==> hs[i].id != id
    ensures r >= 0 ==> hs[r].id == id && forall j :: 0 <= j < r ==> hs[j].id != id
  {
    if |hs| == 0 then -1
    else if hs[0].id == id then 0
    else
      var k := IndexOfHex(hs[1..], id);
      if k == -1 then -1 else k + 1
  }

  function FindHex(hs: seq<Hex>, id: HexId): (r: Option<Hex>)
    ensures r.None? <==> forall i :: 0 <= i < |hs| ==> hs[i].id != id
    ensures r.Some? ==> r.value.id == id && r.value == hs[IndexOfHex(hs, id)]
  {
    var i := IndexOfHex(hs, id);
    if i == -1 then None else Some(hs[i])
  }

  function IndexOfVertex(vs: seq<Vertex>, id: VertexId): (r: int)
    ensures -1 <= r < |vs|
    ensures r == -1 <==> forall i :: 0 <= i < |vs| ==> vs[i].id != id
    ensures r >= 0 ==> vs[r].id == id && forall j :: 0 <= j < r ==> vs[j].id != id
  {
    if |vs| == 0 then -1
    else if vs[0].id == id then 0
    else
      var k := IndexOfVertex(vs[1..], id);
      if k == -1 then -1 else k + 1
  }

  function FindVertex(vs: seq<Vertex>, id: VertexId): (r: Option<Vertex>)
    ensures r.None? <==> forall i :: 0 <= i < |vs| ==> vs[i].id != id
    ensures r.Some? ==> r.value.id == id && r.value == vs[IndexOfVertex(vs, id)]
  {
    var i := IndexOfVertex(vs, id);
    if i == -1 then None else Some(vs[i])
  }

  function IndexOfEdge(es: seq<Edge>, id: EdgeId): (r: int)
    ensures -1 <= r < |es|
    ensures r == -1 <==> forall i :: 0 <= i < |es| ==> es[i].id != id
    ensures r >= 0 ==> es[r].id == id && forall j :: 0 <= j < r ==> es[j].id != id
  {
    if |es| == 0 then -1
    else if es[0].id == id then 0
    else
      var k := IndexOfEdge(es[1..], id);
      if k == -1 then -1 else k + 1
  }

  function FindEdge(es: seq<Edge>, id: EdgeId): (r: Option<Edge>)
    ensures r.None? <==> forall i :: 0 <= i < |es| ==> es[i].id != id
    ensures r.Some? ==> r.value.id == id && r.value == es[IndexOfEdge(es, id)]
  {
    var i := IndexOfEdge(es, id);
    if i == -1 then None else Some(es[i])
  }

  /** With unique ids the first match is the only match. */
  lemma FindUniquePlayer(ps: seq<Player>, k: int)
    requires UniquePlayerIds(ps) && 0 <= k < |ps|
    ensures IndexOfPlayer(ps, ps[k].id) == k
    ensures FindPlayer(ps, ps[k].id) == Some(ps[k])
  {
  }

  predicate UniquePlayerIds(ps: seq<Player>)
  {
    forall i, j :: 0 <= i < j < |ps| ==> ps[i].id != ps[j].id
  }

  predicate UniqueHexIds(hs: seq<Hex>)
  {
    forall i, j :: 0 <= i < j < |hs| ==> hs[i].id != hs[j].id
  }

  predicate UniqueEdgeIds(es: seq<Edge>)
  {
    forall i, j :: 0 <= i < j < |es| ==> es[i].id != es[j].id
  }

  predicate UniqueVertexIds(vs: seq<Vertex>)
  {
    forall i, j :: 0 <= i < j < |vs| ==> vs[i].id != vs[j].id
  }

  /** With unique ids the first match is the only match. */
  lemma FindUniqueHex(hs: seq<Hex>, k: int)
    requires UniqueHexIds(hs) && 0 <= k < |hs|
    ensures IndexOfHex(hs, hs[k].id) == k
    ensures FindHex(hs, hs[k].id) == Some(hs[k])
  {
  }

  lemma FindUniqueVertex(vs: seq<Vertex>, k: int)
    requires UniqueVertexIds(vs) && 0 <= k < |vs|
    ensures IndexOfVertex(vs, vs[k].id) == k
    ensures FindVertex(vs, vs[k].id) == Some(vs[k])
  {
  }

  lemma FindUniqueEdge(es: seq<Edge>, k: int)
    requires UniqueEdgeIds(es) && 0 <= k < |es|
    ensures IndexOfEdge(es, es[k].id) == k
    ensures FindEdge(es, es[k].id) == Some(es[k])
  {
  }

  // ---------------------------------------------------------------------------
  // Shape of the vertex graph and the distance rule over the whole board.
  // ---------------------------------------------------------------------------

  /** How many of the hexes are not desert. */
  function NonDesert(hs: seq<Hex>): nat
  {
    if |hs| == 0 then 0
    else NonDesert(hs[..|hs| - 1]) + (if hs[|hs| - 1].terrain != Desert then 1 else 0)
  }

  /** Exactly one hex carries the robber. */
  predicate OneRobber(hs: seq<Hex>)
  {
    exists i :: 0 <= i < |hs| && hs[i].hasRobber && forall j :: 0 <= j < |hs| && hs[j].hasRobber ==> j == i
  }

  /** `a` lists `b` as a neighbour exactly when `b` lists `a`. */
  predicate NeighboursSymmetric(vs: seq<Vertex>)
  {
    forall i, j :: 0 <= i < |vs| && 0 <= j < |vs| && vs[j].id in vs[i].neighborVertexIds ==>
      vs[i].id in vs[j].neighborVertexIds
  }

  /** No vertex lists itself as a neighbour. */
  predicate NeighboursIrreflexive(vs: seq<Vertex>)
  {
    forall i :: 0 <= i < |vs| ==> vs[i].id !in vs[i].neighborVertexIds
  }

  /** No two neighbouring vertices both hold a building. */
  predicate BuildingsSpaced(vs: seq<Vertex>)
  {
    forall i, j :: 0 <= i < |vs| && 0 <= j < |vs| && vs[i].building.Some? && vs[j].building.Some? ==>
      vs[j].id !in vs[i].neighborVertexIds
  }

  // ---------------------------------------------------------------------------
  // Replace-by-id: `players.map(p => p.id === id ? updated : p)` and its kin.
  // ---------------------------------------------------------------------------

  function ReplacePlayer(ps: seq<Player>, id: PlayerId, np: Player): (r: seq<Player>)
    ensures |r| == |ps|
    ensures forall i :: 0 <= i < |ps| ==> r[i] == (if ps[i].id == id then np else ps[i])
  {
    seq(|ps|, i requires 0 <= i < |ps| => if ps[i].id == id then np else ps[i])
  }

  /** After replacing the entries of `id` by a record with that id, a lookup of `id` finds the new record. */
  lemma FindReplacedPlayer(ps: seq<Player>, id: PlayerId, np: Player)
    requires FindPlayer(ps, id).Some? && np.id == id
    ensures FindPlayer(ReplacePlayer(ps, id, np), id) == Some(np)
    ensures IndexOfPlayer(ReplacePlayer(ps, id, np), id) == IndexOfPlayer(ps, id)
  {
  }

  /** Lookups of other ids are not affected by the replacement. */
  lemma FindOtherPlayer(ps: seq<Player>, id: PlayerId, np: Player, other: PlayerId)
    requires np.id == id && other != id
    ensures FindPlayer(ReplacePlayer(ps, id, np), other) == FindPlayer(ps, other)
  {
    var qs := ReplacePlayer(ps, id, np);
    forall i | 0 <= i < |ps| ensures (qs[i].id == other) == (ps[i].id == other) && (ps[i].id == other ==> qs[i] == ps[i]) {}
  }

  /** Every player's resource record is non-negative. */
  predicate AllNonNegative(ps: seq<Player>)
  {
    forall i :: 0 <= i < |ps| ==> ps[i].resources.NonNegative()
  }

  /** How many of resource `r` the players hold together. */
  function ResourceSum(ps: seq<Player>, r: Resource): int
  {
    if |ps| == 0 then 0 else ResourceSum(ps[..|ps| - 1], r) + ps[|ps| - 1].resources.Get(r)
  }

  /** Changing one player's count of `r` changes the sum by the difference. */
  lemma {:induction false} ResourceSumPointUpdate(ps: seq<Player>, qs: seq<Player>, k: int, r: Resource)
    requires |ps| == |qs| && 0 <= k < |ps|
    requires forall i :: 0 <= i < |ps| && i != k ==> ps[i].resources.Get(r) == qs[i].resources.Get(r)
    ensures ResourceSum(qs, r) == ResourceSum(ps, r) - ps[k].resources.Get(r) + qs[k].resources.Get(r)
  {
    var n := |ps| - 1;
    if k == n {
      ResourceSumUnchanged(ps[..n], qs[..n], r);
    } else {
      ResourceSumPointUpdate(ps[..n], qs[..n], k, r);
    }
  }

  lemma {:induction false} ResourceSumUnchanged(ps: seq<Player>, qs: seq<Player>, r: Resource)
    requires |ps| == |qs|
    requires forall i :: 0 <= i < |ps| ==> ps[i].resources.Get(r) == qs[i].resources.Get(r)
    ensures ResourceSum(qs, r) == ResourceSum(ps, r)
  {
    if |ps| > 0 {
      ResourceSumUnchanged(ps[..|ps| - 1], qs[..|qs| - 1], r);
    }
  }

  /** The dev cards held in all players' hands, as a multiset. */
  function CardsInHands(ps: seq<Player>): multiset<DevCard>
  {
    if |ps| == 0 then multiset{} else CardsInHands(ps[..|ps| - 1]) + multiset(ps[|ps| - 1].devCards)
  }

  lemma {:induction false} CardsInHandsPointUpdate(ps: seq<Player>, qs: seq<Player>, k: int)
    requires |ps| == |qs| && 0 <= k < |ps|
    requires forall i :: 0 <= i < |ps| && i != k ==> ps[i].devCards == qs[i].devCards
    ensures CardsInHands(qs) + multiset(ps[k].devCards) == CardsInHands(ps) + multiset(qs[k].devCards)
  {
    var n := |ps| - 1;
    var a, b := CardsInHands(ps[..n]), CardsInHands(qs[..n]);
    assert CardsInHands(ps) == a + multiset(ps[n].devCards);
    assert CardsInHands(qs) == b + multiset(qs[n].devCards);
    if k == n {
      CardsInHandsUnchanged(ps[..n], qs[..n]);
    } else {
      CardsInHandsPointUpdate(ps[..n], qs[..n], k);
      var pk, qk, pn := multiset(ps[k].devCards), multiset(qs[k].devCards), multiset(ps[n].devCards);
      assert ps[n].devCards == qs[n].devCards;
      calc {
        CardsInHands(qs) + pk;
        b + pn + pk;
        (b + pk) + pn;
        (a + qk) + pn;
        CardsInHands(ps) + qk;
      }
    }
  }

  lemma {:induction false} CardsInHandsUnchanged(ps: seq<Player>, qs: seq<Player>)
    requires |ps| == |qs|
    requires forall i :: 0 <= i < |ps| ==> ps[i].devCards == qs[i].devCards
    ensures CardsInHands(qs) == CardsInHands(ps)
  {
    if |ps| > 0 {
      CardsInHandsUnchanged(ps[..|ps| - 1], qs[..|qs| - 1]);
    }
  }

  /** How many times `x` occurs in `s`. */
  function Count<T(==)>(s: seq<T>, x: T): (n: nat)
    ensures n == multiset(s)[x]
  {
    if |s| == 0 then 0
    else
      assert s == s[..|s| - 1] + [s[|s| - 1]];
      Count(s[..|s| - 1], x) + (if s[|s| - 1] == x then 1 else 0)
  }

  /** `splice(indexOf(x), 1)` when `x` occurs: the first occurrence removed. */
  function RemoveFirst<T(==)>(s: seq<T>, x: T): (r: seq<T>)
    ensures x in s ==> |r| == |s| - 1 && multiset(r) == multiset(s) - multiset{x}
    ensures x !in s ==> r == s
  {
    if |s| == 0 then s
    else if s[0] == x then
      assert s == [s[0]] + s[1..];
      s[1..]
    else
      assert s == [s[0]] + s[1..];
      [s[0]] + RemoveFirst(s[1..], x)
  }

  /** Decimal rendering of an integer, as in a template string. */
  function IntToString(i: int): string
  {
    if i < 0 then "-" + NatToString(-i) else NatToString(i)
  }

  function NatToString(n: nat): string
  {
    var d := "0123456789"[n % 10];
    if n < 10 then [d] else NatToString(n / 10) + [d]
  }
}
