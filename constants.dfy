/**
 * The rule constants and tables of the game (lib/constants/game.constants.ts):
 * thresholds, victory-point values, trade ratios, building costs, the terrain
 * and number-token distributions, the development-card deck and the hex rows.
 */
module Constants {
  import opened Types

  const VictoryPointsToWin: int := 10

  const InitialSettlements: int := 5
  const InitialCities: int := 4
  const InitialRoads: int := 15

  const LongestRoadMin: int := 5
  const LargestArmyMin: int := 3

  const SettlementPoints: int := 1
  const CityPoints: int := 2
  const LongestRoadPoints: int := 2
  const LargestArmyPoints: int := 2
  const VictoryCardPoints: int := 1

  const BankRatio: int := 4
  const GenericPortRatio: int := 3
  const ResourcePortRatio: int := 2

  const RobberActivationRoll: int := 7
  const DiscardThreshold: int := 7

  const RoadCost: Bundle := map[Wood := 1, Brick := 1]
  const SettlementCost: Bundle := map[Wood := 1, Brick := 1, Sheep := 1, Wheat := 1]
  const CityCost: Bundle := map[Wheat := 2, Ore := 3]
  const DevCardCost: Bundle := map[Sheep := 1, Wheat := 1, Ore := 1]

  /** The terrain distribution, in table order. */
  const TerrainDistribution: seq<(Terrain, nat)> :=
    [(Forest, 4), (Hills, 3), (Pasture, 4), (Fields, 4), (Mountains, 3), (Desert, 1)]

  const NumberTokens: seq<int> := [2, 3, 3, 4, 4, 5, 5, 6, 6, 8, 8, 9, 9, 10, 10, 11, 11, 12]

  /** The deck composition, in the key order `Object.entries` yields. */
  const DevCardDeck: seq<(DevCard, nat)> :=
    [(Knight, 14), (VictoryPoint, 5), (RoadBuilding, 2), (YearOfPlenty, 2), (Monopoly, 2)]

  /** Hexes per row of the board, top to bottom. */
  const HexGridRows: seq<nat> := [3, 4, 5, 4, 3]

  /** The resource a terrain produces; the desert produces nothing. */
  function TerrainToResource(t: Terrain): (r: Option<Resource>)
    ensures r.None? <==> t == Desert
  {
    match t
    case Forest => Some(Wood)
    case Hills => Some(Brick)
    case Pasture => Some(Sheep)
    case Fields => Some(Wheat)
    case Mountains => Some(Ore)
    case Desert => None
  }

  /** The five producing terrains yield five distinct resources. */
  lemma TerrainToResourceInjective()
    ensures forall a: Terrain, b: Terrain :: a != b && TerrainToResource(a).Some? ==> TerrainToResource(a) != TerrainToResource(b)
  {
  }

  /** `n` copies of `x`. */
  function Repeat<T>(x: T, n: nat): (r: seq<T>)
    ensures |r| == n && forall i :: 0 <= i < n ==> r[i] == x
  {
    if n == 0 then [] else Repeat(x, n - 1) + [x]
  }

  /** A count table expanded into the list its entries describe, in table order. */
  function Expand<T>(table: seq<(T, nat)>): seq<T>
  {
    if |table| == 0 then [] else Expand(table[..|table| - 1]) + Repeat(table[|table| - 1].0, table[|table| - 1].1)
  }

  function SumCounts<T>(table: seq<(T, nat)>): nat
  {
    if |table| == 0 then 0 else SumCounts(table[..|table| - 1]) + table[|table| - 1].1
  }

  function SumRows(rows: seq<nat>): nat
  {
    if |rows| == 0 then 0 else SumRows(rows[..|rows| - 1]) + rows[|rows| - 1]
  }

  lemma {:induction false} ExpandLength<T>(table: seq<(T, nat)>)
    ensures |Expand(table)| == SumCounts(table)
  {
    if |table| > 0 {
      ExpandLength(table[..|table| - 1]);
    }
  }

  lemma ExpandSnoc<T>(table: seq<(T, nat)>, x: (T, nat))
    ensures Expand(table + [x]) == Expand(table) + Repeat(x.0, x.1)
    ensures SumCounts(table + [x]) == SumCounts(table) + x.1
  {
    assert (table + [x])[..|table|] == table;
  }

  /** The terrain table as a chain of appended entries. */
  lemma TerrainDistributionExpanded()
    ensures SumCounts(TerrainDistribution) == 19
    ensures Expand(TerrainDistribution) == Repeat(Forest, 4) + Repeat(Hills, 3) + Repeat(Pasture, 4)
                                           + Repeat(Fields, 4) + Repeat(Mountains, 3) + Repeat(Desert, 1)
  {
    var t0: seq<(Terrain, nat)> := [];
    var t1 := t0 + [(Forest, 4)];
    var t2 := t1 + [(Hills, 3)];
    var t3 := t2 + [(Pasture, 4)];
    var t4 := t3 + [(Fields, 4)];
    var t5 := t4 + [(Mountains, 3)];
    assert t5 + [(Desert, 1)] == TerrainDistribution;
    ExpandSnoc(t0, (Forest, 4));
    ExpandSnoc(t1, (Hills, 3));
    ExpandSnoc(t2, (Pasture, 4));
    ExpandSnoc(t3, (Fields, 4));
    ExpandSnoc(t4, (Mountains, 3));
    ExpandSnoc(t5, (Desert, 1));
  }

  /** The hex rows hold 3 + 4 + 5 + 4 + 3 hexes. */
  lemma HexGridRowsSum()
    ensures SumRows(HexGridRows) == 19
  {
    var r1: seq<nat> := [3];
    var r2 := r1 + [4];
    var r3 := r2 + [5];
    var r4 := r3 + [4];
    assert r4 + [3] == HexGridRows;
    assert r1[..0] == [];
    assert SumRows(r1) == 3;
    assert r2[..1] == r1;
    assert SumRows(r2) == 7;
    assert r3[..2] == r2;
    assert SumRows(r3) == 12;
    assert r4[..3] == r3;
    assert SumRows(r4) == 16;
    assert (r4 + [3])[..4] == r4;
  }

  /** The terrain table fills exactly the 19 board slots, with one desert. */
  lemma TerrainTableFillsBoard()
    ensures SumCounts(TerrainDistribution) == 19 == SumRows(HexGridRows)
    ensures |Expand(TerrainDistribution)| == 19
    ensures multiset(Expand(TerrainDistribution))[Desert] == 1
  {
    HexGridRowsSum();
    TerrainDistributionExpanded();
    ExpandLength(TerrainDistribution);
    RepeatCount(Forest, 4, Desert);
    RepeatCount(Hills, 3, Desert);
    RepeatCount(Pasture, 4, Desert);
    RepeatCount(Fields, 4, Desert);
    RepeatCount(Mountains, 3, Desert);
    RepeatCount(Desert, 1, Desert);
  }

  /** There are 18 number tokens, all in 2..12 and none equal to the robber roll. */
  lemma NumberTokensWellFormed()
    ensures |NumberTokens| == 18
    ensures forall i :: 0 <= i < |NumberTokens| ==> 2 <= NumberTokens[i] <= 12 && NumberTokens[i] != RobberActivationRoll
  {
  }

  /** The deck table as a chain of appended entries. */
  lemma DevCardDeckExpanded()
    ensures SumCounts(DevCardDeck) == 25
    ensures Expand(DevCardDeck) == Repeat(Knight, 14) + Repeat(VictoryPoint, 5) + Repeat(RoadBuilding, 2)
                                   + Repeat(YearOfPlenty, 2) + Repeat(Monopoly, 2)
  {
    var d0: seq<(DevCard, nat)> := [];
    var d1 := d0 + [(Knight, 14)];
    var d2 := d1 + [(VictoryPoint, 5)];
    var d3 := d2 + [(RoadBuilding, 2)];
    var d4 := d3 + [(YearOfPlenty, 2)];
    assert d4 + [(Monopoly, 2)] == DevCardDeck;
    ExpandSnoc(d0, (Knight, 14));
    ExpandSnoc(d1, (VictoryPoint, 5));
    ExpandSnoc(d2, (RoadBuilding, 2));
    ExpandSnoc(d3, (YearOfPlenty, 2));
    ExpandSnoc(d4, (Monopoly, 2));
  }

  /** How many cards of each kind the deck table describes. */
  function DeckCount(c: DevCard): nat
  {
    match c
    case Knight => 14
    case VictoryPoint => 5
    case RoadBuilding => 2
    case YearOfPlenty => 2
    case Monopoly => 2
  }

  lemma DevCardDeckCount(c: DevCard)
    ensures multiset(Expand(DevCardDeck))[c] == DeckCount(c)
  {
    ExpandCount(DevCardDeck, c);
    DeckTableCount(c);
  }

  /** The deck table lists each kind as often as `DeckCount` says. */
  lemma DeckTableCount(c: DevCard)
    ensures TableCount(DevCardDeck, c) == DeckCount(c)
  {
    var d0: seq<(DevCard, nat)> := [];
    var d1 := d0 + [(Knight, 14)];
    var d2 := d1 + [(VictoryPoint, 5)];
    var d3 := d2 + [(RoadBuilding, 2)];
    var d4 := d3 + [(YearOfPlenty, 2)];
    assert d4 + [(Monopoly, 2)] == DevCardDeck;
    TableCountSnoc(d0, (Knight, 14), c);
    TableCountSnoc(d1, (VictoryPoint, 5), c);
    TableCountSnoc(d2, (RoadBuilding, 2), c);
    TableCountSnoc(d3, (YearOfPlenty, 2), c);
    TableCountSnoc(d4, (Monopoly, 2), c);
  }

  lemma TableCountSnoc<T>(table: seq<(T, nat)>, x: (T, nat), c: T)
    ensures TableCount(table + [x], c) == TableCount(table, c) + (if x.0 == c then x.1 else 0)
  {
    assert (table + [x])[..|table|] == table;
  }

  /** How many copies of `c` a count table lists. */
  function TableCount<T(==)>(table: seq<(T, nat)>, c: T): nat
  {
    if |table| == 0 then 0
    else TableCount(table[..|table| - 1], c) + (if table[|table| - 1].0 == c then table[|table| - 1].1 else 0)
  }

  /** Expanding a table yields each element as often as the table lists it. */
  lemma {:induction false} ExpandCount<T>(table: seq<(T, nat)>, c: T)
    ensures multiset(Expand(table))[c] == TableCount(table, c)
  {
    if |table| > 0 {
      var n := |table| - 1;
      ExpandCount(table[..n], c);
      RepeatCount(table[n].0, table[n].1, c);
    }
  }

  /** The deck holds 25 cards: 14 knights, 5 victory points and 2 of each progress card. */
  lemma DevCardDeckComposition()
    ensures |Expand(DevCardDeck)| == 25
    ensures forall c :: multiset(Expand(DevCardDeck))[c] == DeckCount(c)
  {
    DevCardDeckExpanded();
    ExpandLength(DevCardDeck);
    forall c ensures multiset(Expand(DevCardDeck))[c] == DeckCount(c) {
      DevCardDeckCount(c);
    }
  }

  lemma {:induction false} RepeatCount<T>(x: T, n: nat, y: T)
    ensures multiset(Repeat(x, n))[y] == if x == y then n else 0
  {
    if n > 0 {
      RepeatCount(x, n - 1, y);
    }
  }

  /** The building costs, resource by resource. */
  lemma BuildingCosts()
    ensures forall k :: Amount(RoadCost, k) == (if k in {Wood, Brick} then 1 else 0)
    ensures forall k :: Amount(SettlementCost, k) == (if k == Ore then 0 else 1)
    ensures forall k :: Amount(CityCost, k) == (if k == Wheat then 2 else if k == Ore then 3 else 0)
    ensures forall k :: Amount(DevCardCost, k) == (if k in {Sheep, Wheat, Ore} then 1 else 0)
  {
  }
}
