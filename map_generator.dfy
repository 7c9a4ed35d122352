/**
 * The board generator (lib/game-logic/mapGenerator.ts): the hex grid, the
 * shuffled terrains and number tokens, the vertices and edges of every hex,
 * and the adjacency lists. The generator works on arrays of hexes and
 * vertices whose entries it overwrites in place. The random swap indices of
 * each Fisher–Yates shuffle are a parameter.
 */
module MapGenerator {
  import opened Types
  import opened Constants

  // ---------------------------------------------------------------------------
  // Fisher–Yates shuffle
  // ---------------------------------------------------------------------------

  /** `a` with the entries at `i` and `j` exchanged. */
  function Swap<T>(a: seq<T>, i: int, j: int): (r: seq<T>)
    requires 0 <= i < |a| && 0 <= j < |a|
    ensures |r| == |a| && r[i] == a[j] && r[j] == a[i]
    ensures forall k :: 0 <= k < |a| && k != i && k != j ==> r[k] == a[k]
  {
    a[i := a[j]][j := a[i]]
  }

  /**
   * The swap indices of a shuffle of `n` entries: step `i` (from `n - 1` down
   * to 1) exchanges entry `i` with entry `js[i]`, where
   * `js[i] = Math.floor(Math.random() * (i + 1))`; `js[0]` is unused.
   */
  predicate SwapIndices(js: seq<nat>, n: int)
  {
    |js| == n && forall i :: 0 < i < n ==> js[i] <= i
  }

  /** The result of the steps `i`, `i - 1`, ..., 1 applied to `a`. */
  function ShuffleDown<T>(a: seq<T>, js: seq<nat>, i: int): (r: seq<T>)
    requires SwapIndices(js, |a|) && i < |a|
    ensures |r| == |a|
    decreases i
  {
    if i <= 0 then a else ShuffleDown(Swap(a, i, js[i]), js, i - 1)
  }

  /** The shuffle of `a` under the swap indices `js`. */
  function Shuffled<T>(a: seq<T>, js: seq<nat>): (r: seq<T>)
    requires SwapIndices(js, |a|)
    ensures |r| == |a|
  {
    ShuffleDown(a, js, |a| - 1)
  }

  lemma SwapPermutes<T>(a: seq<T>, i: int, j: int)
    requires 0 <= i < |a| && 0 <= j < |a|
    ensures multiset(Swap(a, i, j)) == multiset(a)
  {
    if i != j {
      var b := a[i := a[j]];
      assert multiset(b) == multiset(a) - multiset{a[i]} + multiset{a[j]};
      assert multiset(b[j := a[i]]) == multiset(b) - multiset{b[j]} + multiset{a[i]};
    }
  }

  lemma {:induction false} ShuffleDownPermutes<T>(a: seq<T>, js: seq<nat>, i: int)
    requires SwapIndices(js, |a|) && i < |a|
    ensures |ShuffleDown(a, js, i)| == |a|
    ensures multiset(ShuffleDown(a, js, i)) == multiset(a)
    decreases i
  {
    if i > 0 {
      SwapPermutes(a, i, js[i]);
      ShuffleDownPermutes(Swap(a, i, js[i]), js, i - 1);
    }
  }

  /** A shuffle is a permutation: the same length and the same multiset of entries. */
  lemma ShuffledPermutes<T>(a: seq<T>, js: seq<nat>)
    requires SwapIndices(js, |a|)
    ensures |Shuffled(a, js)| == |a|
    ensures multiset(Shuffled(a, js)) == multiset(a)
  {
    ShuffleDownPermutes(a, js, |a| - 1);
  }

  /** `shuffleArray`: a copy of the input, shuffled in place from the last entry down. */
  method ShuffleArray<T>(input: seq<T>, js: seq<nat>) returns (r: seq<T>)
    requires SwapIndices(js, |input|)
    ensures r == Shuffled(input, js)
  {
    var result := new T[|input|](k requires 0 <= k < |input| => input[k]);
    assert result[..] == input;
    var i := result.Length - 1;
    while i > 0
      invariant -1 <= i < result.Length
      invariant |result[..]| == |input|
      invariant ShuffleDown(result[..], js, i) == Shuffled(input, js)
      decreases i
    {
      var j := js[i];
      ghost var before := result[..];
      result[i], result[j] := result[j], result[i];
      assert result[..] == Swap(before, i, j);
      i := i - 1;
    }
    r := result[..];
  }

  /** A count table written out entry by entry (`forEach` with an inner `push` loop). */
  method ExpandTable<T>(table: seq<(T, nat)>) returns (deck: seq<T>)
    ensures deck == Expand(table)
  {
    deck := [];
    for t := 0 to |table|
      invariant deck == Expand(table[..t])
    {
      assert table[..t + 1][..t] == table[..t];
      var (item, count) := table[t];
      for i := 0 to count
        invariant deck == Expand(table[..t]) + Repeat(item, i)
      {
        deck := deck + [item];
      }
    }
    assert table[..|table|] == table;
  }

  // ---------------------------------------------------------------------------
  // Hexes, terrains and numbers
  // ---------------------------------------------------------------------------

  /** A hex as first created: desert, no number, no robber, no vertices or edges yet. */
  function BlankHex(id: HexId): Hex
  {
    Hex(id, Desert, None, false, [], [])
  }

  /** Row by row, `HexGridRows[r]` blank hexes with consecutive ids from 0. */
  method GenerateHexGrid() returns (hexes: seq<Hex>)
    ensures |hexes| == SumRows(HexGridRows) == 19
    ensures forall i :: 0 <= i < |hexes| ==> hexes[i] == BlankHex(i)
  {
    hexes := [];
    var hexId := 0;
    for rowIndex := 0 to |HexGridRows|
      invariant hexId == |hexes| == SumRows(HexGridRows[..rowIndex])
      invariant forall i :: 0 <= i < |hexes| ==> hexes[i] == BlankHex(i)
    {
      assert HexGridRows[..rowIndex + 1][..rowIndex] == HexGridRows[..rowIndex];
      var hexCount := HexGridRows[rowIndex];
      for colIndex := 0 to hexCount
        invariant hexId == |hexes| == SumRows(HexGridRows[..rowIndex]) + colIndex
        invariant forall i :: 0 <= i < |hexes| ==> hexes[i] == BlankHex(i)
      {
        hexes := hexes + [BlankHex(hexId)];
        hexId := hexId + 1;
      }
    }
    assert HexGridRows[..|HexGridRows|] == HexGridRows;
    HexGridRowsSum();
  }

  /** The terrains of the hexes in slot order. */
  function Terrains(hs: seq<Hex>): (r: seq<Terrain>)
    ensures |r| == |hs| && forall i :: 0 <= i < |hs| ==> r[i] == hs[i].terrain
  {
    seq(|hs|, i requires 0 <= i < |hs| => hs[i].terrain)
  }

  /** Slot `i` takes terrain `i` of the shuffled terrain deck. */
  method AssignTerrains(hexes: array<Hex>, js: seq<nat>)
    requires SwapIndices(js, |Expand(TerrainDistribution)|)
    requires hexes.Length <= |Expand(TerrainDistribution)|
    modifies hexes
    ensures forall i :: 0 <= i < hexes.Length ==>
      hexes[i] == old(hexes[i]).(terrain := Shuffled(Expand(TerrainDistribution), js)[i])
  {
    var terrainDeck := ExpandTable(TerrainDistribution);
    var shuffledTerrains := ShuffleArray(terrainDeck, js);
    ShuffledPermutes(terrainDeck, js);
    for index := 0 to hexes.Length
      invariant forall i :: 0 <= i < index ==> hexes[i] == old(hexes[i]).(terrain := shuffledTerrains[i])
      invariant forall i :: index <= i < hexes.Length ==> hexes[i] == old(hexes[i])
    {
      hexes[index] := hexes[index].(terrain := shuffledTerrains[index]);
    }
  }

  /** How many of the first `i` hexes are not desert: the number token slot `i` takes. */
  function TokenSlot(hs: seq<Hex>, i: int): nat
    requires 0 <= i <= |hs|
  {
    NonDesert(hs[..i])
  }

  /**
   * The hex after number assignment: a desert takes the robber, any other hex
   * the token in `slot`. Reading past the last token yields `undefined` in
   * the source, modelled as no number.
   */
  function Numbered(h: Hex, tokens: seq<int>, slot: nat): (r: Hex)
    ensures r.id == h.id && r.terrain == h.terrain && r.vertexIds == h.vertexIds && r.edgeIds == h.edgeIds
    ensures h.terrain == Desert ==> r.number == None && r.hasRobber
    ensures h.terrain != Desert ==> r.hasRobber == h.hasRobber
    ensures h.terrain != Desert && slot < |tokens| ==> r.number == Some(tokens[slot])
  {
    if h.terrain == Desert then h.(number := None, hasRobber := true)
    else h.(number := if slot < |tokens| then Some(tokens[slot]) else None)
  }

  lemma TokenSlotStep(hs: seq<Hex>, i: int)
    requires 0 <= i < |hs|
    ensures TokenSlot(hs, i + 1) == TokenSlot(hs, i) + (if hs[i].terrain != Desert then 1 else 0)
  {
    assert hs[..i + 1][..i] == hs[..i];
  }

  lemma {:induction false} TokenSlotBounded(hs: seq<Hex>, i: int, j: int)
    requires 0 <= i <= j <= |hs|
    ensures TokenSlot(hs, i) <= TokenSlot(hs, j)
    decreases j - i
  {
    if i < j {
      TokenSlotStep(hs, j - 1);
      TokenSlotBounded(hs, i, j - 1);
    }
  }

  /** Deserts take the robber and no number; the other hexes take the shuffled tokens in slot order. */
  method AssignNumbers(hexes: array<Hex>, js: seq<nat>)
    requires SwapIndices(js, |NumberTokens|)
    modifies hexes
    ensures forall i :: 0 <= i < hexes.Length ==>
      hexes[i] == Numbered(old(hexes[i]), Shuffled(NumberTokens, js), TokenSlot(old(hexes[..]), i))
  {
    ghost var start := hexes[..];
    var shuffledNumbers := ShuffleArray(NumberTokens, js);
    var numberIndex := 0;
    for index := 0 to hexes.Length
      invariant numberIndex == TokenSlot(start, index)
      invariant forall i :: 0 <= i < index ==> hexes[i] == Numbered(start[i], shuffledNumbers, TokenSlot(start, i))
      invariant forall i :: index <= i < hexes.Length ==> hexes[i] == start[i]
    {
      TokenSlotStep(start, index);
      var hex := hexes[index];
      if hex.terrain == Desert {
        hex := hex.(number := None, hasRobber := true);
      } else {
        hex := hex.(number := if numberIndex < |shuffledNumbers| then Some(shuffledNumbers[numberIndex]) else None);
        numberIndex := numberIndex + 1;
      }
      hexes[index] := hex;
    }
  }

  // ---------------------------------------------------------------------------
  // Vertices and edges
  // ---------------------------------------------------------------------------

  /** Six consecutive ids from `6 * h`: the vertices (and edges) the generator creates for hex slot `h`. */
  function SlotIds(h: nat): (r: seq<nat>)
    ensures |r| == 6 && forall i :: 0 <= i < 6 ==> r[i] == 6 * h + i
  {
    seq(6, i requires 0 <= i < 6 => 6 * h + i)
  }

  /** A vertex as first created on the hex with id `hexId`. */
  function FreshVertex(id: VertexId, hexId: HexId): Vertex
  {
    Vertex(id, [hexId], None, [], [], None)
  }

  /**
   * Six vertices per hex. The vertex record is keyed by the hex slot and the
   * corner, so no key is ever met twice and no vertex is shared: the branch
   * that would add a hex to an existing vertex is never taken.
   */
  method GenerateVertices(hexes: array<Hex>) returns (vertices: seq<Vertex>)
    modifies hexes
    ensures |vertices| == 6 * hexes.Length
    ensures forall k :: 0 <= k < |vertices| ==> vertices[k] == FreshVertex(k, old(hexes[k / 6]).id)
    ensures forall h :: 0 <= h < hexes.Length ==> hexes[h] == old(hexes[h]).(vertexIds := SlotIds(h))
  {
    vertices := [];
    var vertexMap: map<(int, int), nat> := map[];
    var vertexId := 0;
    for hexIndex := 0 to hexes.Length
      invariant vertexId == |vertices| == 6 * hexIndex
      invariant forall key :: key in vertexMap ==> 0 <= key.0 < hexIndex
      invariant forall k :: 0 <= k < |vertices| ==> vertices[k] == FreshVertex(k, old(hexes[k / 6]).id)
      invariant forall h :: 0 <= h < hexIndex ==> hexes[h] == old(hexes[h]).(vertexIds := SlotIds(h))
      invariant forall h :: hexIndex <= h < hexes.Length ==> hexes[h] == old(hexes[h])
    {
      var hex := hexes[hexIndex];
      var hexVertices := [];
      for i := 0 to 6
        invariant vertexId == |vertices| == 6 * hexIndex + i
        invariant forall key :: key in vertexMap ==> 0 <= key.0 < hexIndex || (key.0 == hexIndex && 0 <= key.1 < i)
        invariant hexVertices == SlotIds(hexIndex)[..i]
        invariant forall k :: 0 <= k < |vertices| ==> vertices[k] == FreshVertex(k, old(hexes[k / 6]).id)
      {
        var vertexKey := (hexIndex, i);
        if vertexKey !in vertexMap {
          var vertex := FreshVertex(vertexId, hex.id);
          vertices := vertices + [vertex];
          vertexMap := vertexMap[vertexKey := vertexId];
          vertexId := vertexId + 1;
        } else {
          assert false;
        }
        hexVertices := hexVertices + [vertexId - 1];
      }
      hexes[hexIndex] := hex.(vertexIds := hexVertices);
    }
  }

  /** The dedupe key of an edge: its two vertex ids in a fixed order, so both directions meet. */
  function EdgeKey(a: VertexId, b: VertexId): (r: (VertexId, VertexId))
    ensures r.0 <= r.1
    ensures (r.0 == a && r.1 == b) || (r.0 == b && r.1 == a)
  {
    if a <= b then (a, b) else (b, a)
  }

  lemma EdgeKeySymmetric(a: VertexId, b: VertexId, c: VertexId, d: VertexId)
    ensures EdgeKey(a, b) == EdgeKey(c, d) <==> (a == c && b == d) || (a == d && b == c)
  {
  }

  /** The key of side `i` of a hex: its corners `i` and `i + 1` (mod 6). */
  function SideKey(h: Hex, i: int): (VertexId, VertexId)
    requires |h.vertexIds| >= 6 && 0 <= i < 6
  {
    EdgeKey(h.vertexIds[i], h.vertexIds[(i + 1) % 6])
  }

  function KeyOf(e: Edge): (VertexId, VertexId)
  {
    EdgeKey(e.u, e.v)
  }

  /** Every hex slot `h` holds the six vertex ids `6 * h .. 6 * h + 5`, as `GenerateVertices` leaves it. */
  predicate SlotVertices(hs: seq<Hex>)
  {
    forall h :: 0 <= h < |hs| ==> hs[h].vertexIds == SlotIds(h)
  }

  /**
   * The edge list and its dedupe record agree: edge `k` has id `k` and no
   * road, and the record maps each edge's key to its index, so no key is
   * held by two edges.
   */
  predicate EdgeTable(edges: seq<Edge>, edgeMap: map<(VertexId, VertexId), nat>)
  {
    (forall k :: 0 <= k < |edges| ==> edges[k].id == k && edges[k].road == None) &&
    (forall key :: key in edgeMap ==> edgeMap[key] < |edges| && KeyOf(edges[edgeMap[key]]) == key) &&
    (forall k :: 0 <= k < |edges| ==> KeyOf(edges[k]) in edgeMap && edgeMap[KeyOf(edges[k])] == k)
  }

  /** `later` keeps every edge of `earlier` with the same key and at least the same hexes. */
  predicate Extends(earlier: seq<Edge>, later: seq<Edge>)
  {
    |earlier| <= |later| &&
    forall k :: 0 <= k < |earlier| ==> KeyOf(later[k]) == KeyOf(earlier[k]) && earlier[k].hexIds <= later[k].hexIds
  }

  /** Side `j` of `hex` is recorded by edge `e`, which lists the hex. */
  predicate RecordsSide(hex: Hex, j: int, e: Edge)
    requires |hex.vertexIds| >= 6 && 0 <= j < 6
  {
    KeyOf(e) == SideKey(hex, j) && hex.id in e.hexIds
  }

  lemma ExtendsKeepsSide(hex: Hex, j: int, earlier: seq<Edge>, later: seq<Edge>, k: int)
    requires |hex.vertexIds| >= 6 && 0 <= j < 6
    requires Extends(earlier, later) && 0 <= k < |earlier| && RecordsSide(hex, j, earlier[k])
    ensures RecordsSide(hex, j, later[k])
  {
    assert later[k].hexIds[..|earlier[k].hexIds|] == earlier[k].hexIds;
  }

  /** Every edge joins vertices with ids below `bound`. */
  predicate KeysBelow(edges: seq<Edge>, bound: int)
  {
    forall k :: 0 <= k < |edges| ==> KeyOf(edges[k]).1 < bound
  }

  /**
   * Sides `0 .. i - 1` of the hex holding the fresh vertices of slot `slot`
   * are done: each made a new edge, numbered from `6 * slot`, and every
   * earlier edge joins vertices of earlier slots.
   */
  predicate SlotSides(hex: Hex, slot: nat, i: nat, edges: seq<Edge>, hexEdges: seq<EdgeId>)
  {
    hex.vertexIds == SlotIds(slot) && i <= 6 && |edges| == 6 * slot + i && hexEdges == SlotIds(slot)[..i] &&
    KeysBelow(edges[..6 * slot], 6 * slot) &&
    forall j :: 0 <= j < i ==> RecordsSide(hex, j, edges[hexEdges[j]])
  }

  /**
   * One side of a hex: a new edge when its key is not yet recorded,
   * otherwise the hex is added to the edge already there. On a fresh slot
   * the key is always new.
   */
  method AddSide(hex: Hex, i: nat, edges: seq<Edge>, edgeMap: map<(VertexId, VertexId), nat>,
                 ghost slot: nat, ghost hexEdges: seq<EdgeId>)
    returns (edges': seq<Edge>, edgeMap': map<(VertexId, VertexId), nat>, id: EdgeId)
    requires |hex.vertexIds| >= 6 && i < 6 && EdgeTable(edges, edgeMap)
    ensures EdgeTable(edges', edgeMap') && Extends(edges, edges')
    ensures id < |edges'| && RecordsSide(hex, i, edges'[id])
    ensures forall x, j :: 0 <= x < |edges| && 0 <= j < 6 && RecordsSide(hex, j, edges[x]) ==> RecordsSide(hex, j, edges'[x])
    ensures SlotSides(hex, slot, i, edges, hexEdges) ==> SlotSides(hex, slot, i + 1, edges', hexEdges + [id])
  {
    var v1Id := hex.vertexIds[i];
    var v2Id := hex.vertexIds[(i + 1) % 6];
    var edgeKey := EdgeKey(v1Id, v2Id);
    ghost var slotted := SlotSides(hex, slot, i, edges, hexEdges);
    if slotted {
      SlotKeyNew(hex, slot, i, edges, hexEdges);
    }
    if edgeKey !in edgeMap {
      var edge := Edge(|edges|, v1Id, v2Id, [hex.id], None);
      edges' := edges + [edge];
      edgeMap' := edgeMap[edgeKey := |edges|];
      id := |edges|;
      if slotted {
        SlotSidesStep(hex, slot, i, edges, hexEdges, edge);
      }
    } else {
      id := edgeMap[edgeKey];
      edges' := edges[id := edges[id].(hexIds := edges[id].hexIds + [hex.id])];
      edgeMap' := edgeMap;
    }
  }

  /** On a fresh slot, side `i` joins a pair of vertices no earlier edge joins. */
  lemma SlotKeyNew(hex: Hex, slot: nat, i: nat, edges: seq<Edge>, hexEdges: seq<EdgeId>)
    requires SlotSides(hex, slot, i, edges, hexEdges) && i < 6
    ensures forall k :: 0 <= k < |edges| ==> KeyOf(edges[k]) != SideKey(hex, i)
  {
    forall k | 0 <= k < |edges|
      ensures KeyOf(edges[k]) != SideKey(hex, i)
    {
      if k < 6 * slot {
        assert edges[..6 * slot][k] == edges[k];
      } else {
        assert hexEdges[k - 6 * slot] == k;
      }
    }
  }

  lemma SlotSidesStep(hex: Hex, slot: nat, i: nat, edges: seq<Edge>, hexEdges: seq<EdgeId>, e: Edge)
    requires SlotSides(hex, slot, i, edges, hexEdges) && i < 6 && RecordsSide(hex, i, e)
    ensures SlotSides(hex, slot, i + 1, edges + [e], hexEdges + [|edges|])
  {
    assert SlotIds(slot)[..i + 1] == SlotIds(slot)[..i] + [6 * slot + i];
    assert (edges + [e])[..6 * slot] == edges[..6 * slot];
  }

  /** The six sides of one hex (the body of the per-hex loop). */
  method AddHexEdges(hex: Hex, edges: seq<Edge>, edgeMap: map<(VertexId, VertexId), nat>, ghost slot: nat)
    returns (edges': seq<Edge>, edgeMap': map<(VertexId, VertexId), nat>, hexEdges: seq<EdgeId>)
    requires |hex.vertexIds| >= 6 && EdgeTable(edges, edgeMap)
    ensures EdgeTable(edges', edgeMap') && Extends(edges, edges')
    ensures |hexEdges| == 6
    ensures forall j :: 0 <= j < 6 ==> hexEdges[j] < |edges'| && RecordsSide(hex, j, edges'[hexEdges[j]])
    ensures hex.vertexIds == SlotIds(slot) && |edges| == 6 * slot && KeysBelow(edges, 6 * slot) ==>
      |edges'| == 6 * slot + 6 && KeysBelow(edges', 6 * slot + 6) && hexEdges == SlotIds(slot)
  {
    ghost var slotted := hex.vertexIds == SlotIds(slot) && |edges| == 6 * slot && KeysBelow(edges, 6 * slot);
    if slotted {
      assert edges[..6 * slot] == edges;
    }
    edges', edgeMap' := edges, edgeMap;
    hexEdges := [];
    for i := 0 to 6
      invariant EdgeTable(edges', edgeMap') && Extends(edges, edges')
      invariant |hexEdges| == i
      invariant forall j :: 0 <= j < i ==> hexEdges[j] < |edges'| && RecordsSide(hex, j, edges'[hexEdges[j]])
      invariant slotted ==> SlotSides(hex, slot, i, edges', hexEdges)
    {
      var id;
      edges', edgeMap', id := AddSide(hex, i, edges', edgeMap', slot, hexEdges);
      hexEdges := hexEdges + [id];
    }
    if slotted {
      SlotKeysBelow(hex, slot, edges', hexEdges);
    }
  }

  /** After the six sides of a fresh slot, every edge joins vertices below the next slot. */
  lemma SlotKeysBelow(hex: Hex, slot: nat, edges: seq<Edge>, hexEdges: seq<EdgeId>)
    requires hex.vertexIds == SlotIds(slot) && |edges| == 6 * slot + 6 && hexEdges == SlotIds(slot)
    requires KeysBelow(edges[..6 * slot], 6 * slot)
    requires forall j :: 0 <= j < 6 ==> RecordsSide(hex, j, edges[hexEdges[j]])
    ensures KeysBelow(edges, 6 * slot + 6)
  {
    forall k | 0 <= k < |edges|
      ensures KeyOf(edges[k]).1 < 6 * slot + 6
    {
      if k < 6 * slot {
        assert edges[..6 * slot][k] == edges[k];
      } else {
        assert hexEdges[k - 6 * slot] == k;
      }
    }
  }

  /**
   * Six edges per hex, side `i` joining corners `i` and `(i + 1) % 6`. An
   * edge already created for the same pair of vertices (in either order)
   * is reused and records the hex as well.
   */
  method GenerateEdges(hexes: array<Hex>, vertices: seq<Vertex>) returns (edges: seq<Edge>)
    requires forall h :: 0 <= h < hexes.Length ==> |hexes[h].vertexIds| >= 6
    modifies hexes
    ensures forall k :: 0 <= k < |edges| ==> edges[k].id == k && edges[k].road == None
    ensures forall k, l :: 0 <= k < l < |edges| ==> KeyOf(edges[k]) != KeyOf(edges[l])
    ensures forall h :: 0 <= h < hexes.Length ==>
      hexes[h] == old(hexes[h]).(edgeIds := hexes[h].edgeIds) && |hexes[h].edgeIds| == 6
    ensures forall h, i :: 0 <= h < hexes.Length && 0 <= i < 6 ==>
      hexes[h].edgeIds[i] < |edges| && RecordsSide(hexes[h], i, edges[hexes[h].edgeIds[i]])
    ensures SlotVertices(old(hexes[..])) ==>
      |edges| == 6 * hexes.Length && forall h :: 0 <= h < hexes.Length ==> hexes[h].edgeIds == SlotIds(h)
  {
    ghost var start := hexes[..];
    edges := [];
    var edgeMap: map<(VertexId, VertexId), nat> := map[];
    for hexIndex := 0 to hexes.Length
      invariant EdgeTable(edges, edgeMap)
      invariant HexesDone(start, hexes[..], edges, hexIndex)
    {
      var hex := hexes[hexIndex];
      ghost var before := edges;
      ghost var hs := hexes[..];
      var hexEdges;
      edges, edgeMap, hexEdges := AddHexEdges(hex, edges, edgeMap, hexIndex);
      hexes[hexIndex] := hex.(edgeIds := hexEdges);
      HexDone(start, hs, before, edges, hexIndex, hexEdges);
      assert hexes[..] == hs[hexIndex := hex.(edgeIds := hexEdges)];
    }
  }

  /**
   * The hexes before `n` have their six edge ids, each recording its side;
   * the others are untouched; and on the slotted board the edges are
   * numbered hex by hex.
   */
  predicate HexesDone(start: seq<Hex>, hs: seq<Hex>, edges: seq<Edge>, n: int)
  {
    |hs| == |start| && 0 <= n <= |hs| &&
    (forall h :: 0 <= h < n ==> hs[h] == start[h].(edgeIds := hs[h].edgeIds) && |hs[h].edgeIds| == 6) &&
    SidesRecorded(hs, edges, n) &&
    (forall h :: n <= h < |hs| ==> hs[h] == start[h]) &&
    (SlotVertices(start) ==>
      |edges| == 6 * n && KeysBelow(edges, 6 * n) && forall h :: 0 <= h < n ==> hs[h].edgeIds == SlotIds(h))
  }

  /** Every side of the hexes before `n` names an edge that records it. */
  predicate SidesRecorded(hs: seq<Hex>, edges: seq<Edge>, n: int)
  {
    forall h :: 0 <= h < n && h < |hs| ==> HexSidesRecorded(hs[h], edges)
  }

  predicate HexSidesRecorded(hex: Hex, edges: seq<Edge>)
  {
    |hex.vertexIds| >= 6 && |hex.edgeIds| == 6 &&
    forall i :: 0 <= i < 6 ==> hex.edgeIds[i] < |edges| && RecordsSide(hex, i, edges[hex.edgeIds[i]])
  }

  /** Giving hex `n` the edges just added to the list finishes it. */
  lemma HexDone(start: seq<Hex>, hs: seq<Hex>, before: seq<Edge>, edges: seq<Edge>, n: int, hexEdges: seq<EdgeId>)
    requires HexesDone(start, hs, before, n) && n < |hs| && |hs[n].vertexIds| >= 6
    requires Extends(before, edges) && |hexEdges| == 6
    requires forall j :: 0 <= j < 6 ==> hexEdges[j] < |edges| && RecordsSide(hs[n], j, edges[hexEdges[j]])
    requires hs[n].vertexIds == SlotIds(n) && |before| == 6 * n && KeysBelow(before, 6 * n) ==>
      |edges| == 6 * n + 6 && KeysBelow(edges, 6 * n + 6) && hexEdges == SlotIds(n)
    ensures HexesDone(start, hs[n := hs[n].(edgeIds := hexEdges)], edges, n + 1)
  {
    var hs' := hs[n := hs[n].(edgeIds := hexEdges)];
    SidesStillRecorded(hs, before, edges, n, hexEdges);
    assert hs[n] == start[n];
    if SlotVertices(start) {
      assert hs[n].vertexIds == SlotIds(n);
      assert forall h :: 0 <= h < n + 1 ==> hs'[h].edgeIds == SlotIds(h);
    }
    assert forall h :: 0 <= h < n + 1 ==> hs'[h] == start[h].(edgeIds := hs'[h].edgeIds) && |hs'[h].edgeIds| == 6;
    assert forall h :: n + 1 <= h < |hs'| ==> hs'[h] == start[h];
  }

  lemma SidesStillRecorded(hs: seq<Hex>, before: seq<Edge>, edges: seq<Edge>, n: int, hexEdges: seq<EdgeId>)
    requires SidesRecorded(hs, before, n) && 0 <= n < |hs| && |hs[n].vertexIds| >= 6
    requires Extends(before, edges) && |hexEdges| == 6
    requires forall j :: 0 <= j < 6 ==> hexEdges[j] < |edges| && RecordsSide(hs[n], j, edges[hexEdges[j]])
    ensures SidesRecorded(hs[n := hs[n].(edgeIds := hexEdges)], edges, n + 1)
  {
    var hs' := hs[n := hs[n].(edgeIds := hexEdges)];
    forall h | 0 <= h < n + 1 && h < |hs'|
      ensures HexSidesRecorded(hs'[h], edges)
    {
      if h < n {
        assert hs'[h] == hs[h] && HexSidesRecorded(hs[h], before);
        forall i | 0 <= i < 6 ensures RecordsSide(hs[h], i, edges[hs[h].edgeIds[i]]) {
          ExtendsKeepsSide(hs[h], i, before, edges, hs[h].edgeIds[i]);
        }
      } else {
        forall i | 0 <= i < 6 ensures RecordsSide(hs'[n], i, edges[hexEdges[i]]) {
          assert SideKey(hs'[n], i) == SideKey(hs[n], i);
        }
      }
    }
  }

  // ---------------------------------------------------------------------------
  // Adjacency
  // ---------------------------------------------------------------------------

  /** Edge `e` joins `a` and `b`, in either direction. */
  predicate Joins(e: Edge, a: VertexId, b: VertexId)
  {
    (e.u == a && e.v == b) || (e.u == b && e.v == a)
  }

  /** The ids of the edges with `vid` as an endpoint, in edge order. */
  function EdgesAt(es: seq<Edge>, vid: VertexId): seq<EdgeId>
  {
    if |es| == 0 then []
    else EdgesAt(es[..|es| - 1], vid) + (if vid == es[|es| - 1].u || vid == es[|es| - 1].v then [es[|es| - 1].id] else [])
  }

  /** `acc` with the ids in `ws` other than `vid` added in order, each unless already present (`Set.add`). */
  function AddEnds(acc: seq<VertexId>, ws: seq<VertexId>, vid: VertexId): (r: seq<VertexId>)
    ensures forall w :: w in r <==> w in acc || (w != vid && w in ws)
  {
    if |ws| == 0 then acc
    else
      var prev := AddEnds(acc, ws[..|ws| - 1], vid);
      assert forall w :: w in ws <==> w in ws[..|ws| - 1] || w == ws[|ws| - 1];
      if ws[|ws| - 1] != vid && ws[|ws| - 1] !in prev then prev + [ws[|ws| - 1]] else prev
  }

  /** The insertion-ordered set of the other endpoints of the edges listed by id in `eids`. */
  function NeighboursVia(es: seq<Edge>, eids: seq<EdgeId>, vid: VertexId): seq<VertexId>
  {
    if |eids| == 0 then []
    else
      var prev := NeighboursVia(es, eids[..|eids| - 1], vid);
      match FindEdge(es, eids[|eids| - 1])
      case None => prev
      case Some(e) => AddEnds(prev, e.Ends(), vid)
  }

  /** A vertex's neighbours as computed from the edge list. */
  function NeighboursOf(es: seq<Edge>, vid: VertexId): seq<VertexId>
  {
    NeighboursVia(es, EdgesAt(es, vid), vid)
  }

  /** The second pass for one vertex: the other endpoints of its edges, collected into an insertion-ordered set. */
  method NeighbourIds(vertex: Vertex, edges: seq<Edge>) returns (ids: seq<VertexId>)
    ensures ids == NeighboursVia(edges, vertex.neighborEdgeIds, vertex.id)
  {
    var eids := vertex.neighborEdgeIds;
    ids := [];
    for n := 0 to |eids|
      invariant ids == NeighboursVia(edges, eids[..n], vertex.id)
    {
      assert eids[..n + 1][..n] == eids[..n];
      var edge := FindEdge(edges, eids[n]);
      if edge.Some? {
        var ends := edge.value.Ends();
        ghost var acc := ids;
        for m := 0 to |ends|
          invariant ids == AddEnds(acc, ends[..m], vertex.id)
        {
          assert ends[..m + 1][..m] == ends[..m];
          var vId := ends[m];
          if vId != vertex.id && vId !in ids {
            ids := ids + [vId];
          }
        }
        assert ends[..|ends|] == ends;
      }
    }
    assert eids[..|eids|] == eids;
  }

  /**
   * Two passes over the vertices: first the ids of the edges at each
   * vertex, then the other endpoints of those edges, each listed once.
   */
  method CalculateNeighbors(vertices: array<Vertex>, edges: seq<Edge>)
    modifies vertices
    ensures forall i :: 0 <= i < vertices.Length ==>
      vertices[i] == old(vertices[i]).(neighborEdgeIds := EdgesAt(edges, old(vertices[i]).id),
                                       neighborVertexIds := NeighboursOf(edges, old(vertices[i]).id))
  {
    ghost var start := vertices[..];
    for index := 0 to vertices.Length
      invariant forall i :: 0 <= i < index ==>
        vertices[i] == start[i].(neighborEdgeIds := EdgesAt(edges, start[i].id))
      invariant forall i :: index <= i < vertices.Length ==> vertices[i] == start[i]
    {
      var vertex := vertices[index];
      vertices[index] := vertex.(neighborEdgeIds := EdgesAt(edges, vertex.id));
    }
    for index := 0 to vertices.Length
      invariant forall i :: 0 <= i < index ==>
        vertices[i] == start[i].(neighborEdgeIds := EdgesAt(edges, start[i].id),
                                 neighborVertexIds := NeighboursOf(edges, start[i].id))
      invariant forall i :: index <= i < vertices.Length ==>
        vertices[i] == start[i].(neighborEdgeIds := EdgesAt(edges, start[i].id))
    {
      var vertex := vertices[index];
      var neighborVertexIds := NeighbourIds(vertex, edges);
      vertices[index] := vertex.(neighborVertexIds := neighborVertexIds);
    }
  }

  /** `neighborEdgeIds`: exactly the ids of the edges with the vertex as an endpoint. */
  lemma {:induction false} EdgesAtCharacterised(es: seq<Edge>, vid: VertexId)
    ensures forall x :: x in EdgesAt(es, vid) <==>
      exists k :: 0 <= k < |es| && es[k].id == x && (vid == es[k].u || vid == es[k].v)
  {
    if |es| > 0 {
      var pre := es[..|es| - 1];
      EdgesAtCharacterised(pre, vid);
      forall x | x in EdgesAt(es, vid)
        ensures exists k :: 0 <= k < |es| && es[k].id == x && (vid == es[k].u || vid == es[k].v)
      {
        if x in EdgesAt(pre, vid) {
          var k :| 0 <= k < |pre| && pre[k].id == x && (vid == pre[k].u || vid == pre[k].v);
          assert es[k] == pre[k];
        }
      }
      forall x | exists k :: 0 <= k < |es| && es[k].id == x && (vid == es[k].u || vid == es[k].v)
        ensures x in EdgesAt(es, vid)
      {
        var k :| 0 <= k < |es| && es[k].id == x && (vid == es[k].u || vid == es[k].v);
        if k < |pre| {
          assert pre[k] == es[k];
        }
      }
    }
  }

  /** The collected neighbours: the other endpoints of the listed edges that exist, each once. */
  lemma {:induction false} NeighboursViaCharacterised(es: seq<Edge>, eids: seq<EdgeId>, vid: VertexId)
    ensures forall w :: w in NeighboursVia(es, eids, vid) <==>
      w != vid && exists j :: 0 <= j < |eids| && FindEdge(es, eids[j]).Some? && w in FindEdge(es, eids[j]).value.Ends()
  {
    if |eids| > 0 {
      var pre := eids[..|eids| - 1];
      NeighboursViaCharacterised(es, pre, vid);
      forall w | w in NeighboursVia(es, eids, vid)
        ensures w != vid && exists j :: 0 <= j < |eids| && FindEdge(es, eids[j]).Some? && w in FindEdge(es, eids[j]).value.Ends()
      {
        if w in NeighboursVia(es, pre, vid) {
          var j :| 0 <= j < |pre| && FindEdge(es, pre[j]).Some? && w in FindEdge(es, pre[j]).value.Ends();
          assert eids[j] == pre[j];
        }
      }
      forall w | w != vid && exists j :: 0 <= j < |eids| && FindEdge(es, eids[j]).Some? && w in FindEdge(es, eids[j]).value.Ends()
        ensures w in NeighboursVia(es, eids, vid)
      {
        var j :| 0 <= j < |eids| && FindEdge(es, eids[j]).Some? && w in FindEdge(es, eids[j]).value.Ends();
        if j < |pre| {
          assert pre[j] == eids[j];
        }
      }
    }
  }

  /** With unique edge ids, `b` is a neighbour of `a` exactly when they differ and some edge joins them. */
  lemma NeighboursOfCharacterised(es: seq<Edge>, a: VertexId, b: VertexId)
    requires UniqueEdgeIds(es)
    ensures b in NeighboursOf(es, a) <==> b != a && exists k :: 0 <= k < |es| && Joins(es[k], a, b)
  {
    if b in NeighboursOf(es, a) {
      NeighbourHasEdge(es, a, b);
    }
    if b != a && exists k :: 0 <= k < |es| && Joins(es[k], a, b) {
      var k :| 0 <= k < |es| && Joins(es[k], a, b);
      EdgeGivesNeighbour(es, a, b, k);
    }
  }

  /** A listed neighbour is joined to the vertex by some edge. */
  lemma NeighbourHasEdge(es: seq<Edge>, a: VertexId, b: VertexId)
    requires UniqueEdgeIds(es) && b in NeighboursOf(es, a)
    ensures b != a && exists k :: 0 <= k < |es| && Joins(es[k], a, b)
  {
    var eids := EdgesAt(es, a);
    EdgesAtCharacterised(es, a);
    NeighboursViaCharacterised(es, eids, a);
    var j :| 0 <= j < |eids| && FindEdge(es, eids[j]).Some? && b in FindEdge(es, eids[j]).value.Ends();
    assert eids[j] in eids;
    var k :| 0 <= k < |es| && es[k].id == eids[j] && (a == es[k].u || a == es[k].v);
    FindUniqueEdge(es, k);
    assert Joins(es[k], a, b);
  }

  /** The other end of an edge at the vertex is listed as a neighbour. */
  lemma EdgeGivesNeighbour(es: seq<Edge>, a: VertexId, b: VertexId, k: int)
    requires UniqueEdgeIds(es) && b != a && 0 <= k < |es| && Joins(es[k], a, b)
    ensures b in NeighboursOf(es, a)
  {
    var eids := EdgesAt(es, a);
    EdgesAtCharacterised(es, a);
    NeighboursViaCharacterised(es, eids, a);
    FindUniqueEdge(es, k);
    assert es[k].id in eids;
    var j :| 0 <= j < |eids| && eids[j] == es[k].id;
    assert b in FindEdge(es, eids[j]).value.Ends();
  }

  /** Neighbour lists computed from edges with unique ids make a symmetric, irreflexive relation. */
  lemma NeighbourGraphShape(vs: seq<Vertex>, es: seq<Edge>)
    requires UniqueEdgeIds(es)
    requires forall i :: 0 <= i < |vs| ==> vs[i].neighborVertexIds == NeighboursOf(es, vs[i].id)
    ensures NeighboursSymmetric(vs) && NeighboursIrreflexive(vs)
  {
    forall i, j | 0 <= i < |vs| && 0 <= j < |vs| && vs[j].id in vs[i].neighborVertexIds
      ensures vs[i].id in vs[j].neighborVertexIds
    {
      NeighboursOfCharacterised(es, vs[i].id, vs[j].id);
      var k :| 0 <= k < |es| && Joins(es[k], vs[i].id, vs[j].id);
      assert Joins(es[k], vs[j].id, vs[i].id);
      NeighboursOfCharacterised(es, vs[j].id, vs[i].id);
    }
    forall i | 0 <= i < |vs|
      ensures vs[i].id !in vs[i].neighborVertexIds
    {
      NeighboursOfCharacterised(es, vs[i].id, vs[i].id);
    }
  }

  // ---------------------------------------------------------------------------
  // The whole board
  // ---------------------------------------------------------------------------

  /** The hexes after terrain assignment: blank hexes in slot order taking the terrains `ts`. */
  function TerrainHexes(ts: seq<Terrain>): (r: seq<Hex>)
    ensures |r| == |ts|
    ensures forall i :: 0 <= i < |ts| ==> r[i] == BlankHex(i).(terrain := ts[i])
  {
    seq(|ts|, i requires 0 <= i < |ts| => BlankHex(i).(terrain := ts[i]))
  }

  /** The hexes after number assignment with the token sequence `tokens`. */
  function NumberedHexes(hs: seq<Hex>, tokens: seq<int>): (r: seq<Hex>)
    ensures |r| == |hs|
    ensures forall i :: 0 <= i < |hs| ==> r[i] == Numbered(hs[i], tokens, TokenSlot(hs, i))
  {
    seq(|hs|, i requires 0 <= i < |hs| => Numbered(hs[i], tokens, TokenSlot(hs, i)))
  }

  /** The finished hexes of `generateMap` for the shuffled terrains `ts` and tokens `tokens`. */
  function BoardHexes(ts: seq<Terrain>, tokens: seq<int>): (r: seq<Hex>)
    ensures |r| == |ts|
  {
    var hs := NumberedHexes(TerrainHexes(ts), tokens);
    seq(|ts|, i requires 0 <= i < |ts| => hs[i].(vertexIds := SlotIds(i), edgeIds := SlotIds(i)))
  }

  /** The key of edge `k` of a board whose slots hold fresh vertices: side `k % 6` of slot `k / 6`. */
  function SlotSideKey(k: nat): (VertexId, VertexId)
  {
    EdgeKey(k, 6 * (k / 6) + (k % 6 + 1) % 6)
  }

  /** The finished vertices of `generateMap`: six per hex, each on one hex, with adjacency from `edges`. */
  function BoardVertices(edges: seq<Edge>): (r: seq<Vertex>)
    ensures |r| == 114
  {
    seq(114, k requires 0 <= k < 114 =>
      FreshVertex(k, k / 6).(neighborEdgeIds := EdgesAt(edges, k), neighborVertexIds := NeighboursOf(edges, k)))
  }

  /** The first three steps of `generateMap`: the grid, then terrains, then numbers, on one array of hexes. */
  method NumberedGrid(terrainSwaps: seq<nat>, numberSwaps: seq<nat>) returns (hexArray: array<Hex>)
    requires SwapIndices(terrainSwaps, |Expand(TerrainDistribution)|) && SwapIndices(numberSwaps, |NumberTokens|)
    ensures fresh(hexArray)
    ensures hexArray[..] ==
      NumberedHexes(TerrainHexes(Shuffled(Expand(TerrainDistribution), terrainSwaps)), Shuffled(NumberTokens, numberSwaps))
  {
    TerrainTableFillsBoard();
    hexArray := BlankGrid();
    ghost var grid := hexArray[..];
    AssignTerrains(hexArray, terrainSwaps);
    ghost var terrained := hexArray[..];
    TerrainedGrid(grid, terrained, Shuffled(Expand(TerrainDistribution), terrainSwaps));
    AssignNumbers(hexArray, numberSwaps);
    NumberedGridIs(terrained, hexArray[..], Shuffled(NumberTokens, numberSwaps));
  }

  /** The grid of `generateHexGrid` copied into a fresh array of 19 blank hexes. */
  method BlankGrid() returns (hexArray: array<Hex>)
    ensures fresh(hexArray) && hexArray.Length == 19
    ensures forall i :: 0 <= i < 19 ==> hexArray[i] == BlankHex(i)
  {
    var grid := GenerateHexGrid();
    hexArray := new Hex[19](i requires 0 <= i < 19 => grid[i]);
  }

  /** Blank slots given terrain `ts[i]` each are the terrain hexes of `ts`. */
  lemma TerrainedGrid(before: seq<Hex>, after: seq<Hex>, ts: seq<Terrain>)
    requires |before| == |after| == |ts|
    requires forall i :: 0 <= i < |before| ==> before[i] == BlankHex(i)
    requires forall i :: 0 <= i < |after| ==> after[i] == before[i].(terrain := ts[i])
    ensures after == TerrainHexes(ts)
  {
  }

  /** Hexes each numbered from their own token slot are the numbered hexes. */
  lemma NumberedGridIs(before: seq<Hex>, after: seq<Hex>, tokens: seq<int>)
    requires |before| == |after|
    requires forall i :: 0 <= i < |after| ==> after[i] == Numbered(before[i], tokens, TokenSlot(before, i))
    ensures after == NumberedHexes(before, tokens)
  {
  }

  /**
   * `generateMap`: the hex grid, its terrains and numbers, six vertices and
   * six edges per hex, and the adjacency lists, from the swap indices of the
   * terrain and number shuffles.
   */
  method GenerateMap(terrainSwaps: seq<nat>, numberSwaps: seq<nat>)
    returns (hexes: seq<Hex>, vertices: seq<Vertex>, edges: seq<Edge>)
    requires SwapIndices(terrainSwaps, |Expand(TerrainDistribution)|) && SwapIndices(numberSwaps, |NumberTokens|)
    ensures hexes == BoardHexes(Shuffled(Expand(TerrainDistribution), terrainSwaps), Shuffled(NumberTokens, numberSwaps))
    ensures vertices == BoardVertices(edges)
    ensures |edges| == 114
    ensures forall k :: 0 <= k < |edges| ==> edges[k].id == k && edges[k].road == None
    ensures forall k :: 0 <= k < |edges| ==> KeyOf(edges[k]) == SlotSideKey(k) && k / 6 in edges[k].hexIds
  {
    var vertexSeq;
    hexes, vertexSeq, edges := HexesAndEdges(terrainSwaps, numberSwaps);
    BoardEdgeKeys(hexes, edges);
    vertices := Neighbours(vertexSeq, edges);
  }

  /** The steps of `generateMap` before the adjacency lists: hexes, fresh vertices and the edges. */
  method HexesAndEdges(terrainSwaps: seq<nat>, numberSwaps: seq<nat>)
    returns (hexes: seq<Hex>, vertexSeq: seq<Vertex>, edges: seq<Edge>)
    requires SwapIndices(terrainSwaps, |Expand(TerrainDistribution)|) && SwapIndices(numberSwaps, |NumberTokens|)
    ensures hexes == BoardHexes(Shuffled(Expand(TerrainDistribution), terrainSwaps), Shuffled(NumberTokens, numberSwaps))
    ensures |vertexSeq| == 114 && forall k :: 0 <= k < 114 ==> vertexSeq[k] == FreshVertex(k, k / 6)
    ensures |edges| == 114 && forall k :: 0 <= k < |edges| ==> edges[k].id == k && edges[k].road == None
    ensures |hexes| == 19 && forall h :: 0 <= h < 19 ==>
      hexes[h].id == h && hexes[h].vertexIds == SlotIds(h) && hexes[h].edgeIds == SlotIds(h) &&
      forall i :: 0 <= i < 6 ==> RecordsSide(hexes[h], i, edges[hexes[h].edgeIds[i]])
  {
    TerrainTableFillsBoard();
    var hexArray;
    hexArray, vertexSeq := SlottedGrid(terrainSwaps, numberSwaps);
    ghost var slotted := hexArray[..];
    edges := GenerateEdges(hexArray, vertexSeq);
    hexes := hexArray[..];
    FinishedHexes(slotted, hexes,
      BoardHexes(Shuffled(Expand(TerrainDistribution), terrainSwaps), Shuffled(NumberTokens, numberSwaps)));
  }

  /** Hexes that are their slotted versions with the slot's edge ids are the finished board. */
  lemma FinishedHexes(slotted: seq<Hex>, hexes: seq<Hex>, board: seq<Hex>)
    requires |slotted| == |hexes| == |board| == 19
    requires forall h :: 0 <= h < 19 ==> slotted[h].(edgeIds := SlotIds(h)) == board[h]
    requires forall h :: 0 <= h < 19 ==> hexes[h] == slotted[h].(edgeIds := hexes[h].edgeIds)
    requires forall h :: 0 <= h < 19 ==> hexes[h].edgeIds == SlotIds(h)
    ensures hexes == board
  {
    forall h | 0 <= h < 19 ensures hexes[h] == board[h]
    {
      assert hexes[h] == slotted[h].(edgeIds := SlotIds(h));
    }
  }

  /** The numbered grid with six fresh vertices per hex, each hex listing its own. */
  method SlottedGrid(terrainSwaps: seq<nat>, numberSwaps: seq<nat>) returns (hexArray: array<Hex>, vertexSeq: seq<Vertex>)
    requires SwapIndices(terrainSwaps, |Expand(TerrainDistribution)|) && SwapIndices(numberSwaps, |NumberTokens|)
    ensures fresh(hexArray) && hexArray.Length == 19
    ensures forall h :: 0 <= h < 19 ==> |hexArray[h].vertexIds| >= 6
    ensures SlotVertices(hexArray[..])
    ensures |Shuffled(Expand(TerrainDistribution), terrainSwaps)| == 19
    ensures forall h :: 0 <= h < 19 ==>
      hexArray[h].(edgeIds := SlotIds(h)) ==
        BoardHexes(Shuffled(Expand(TerrainDistribution), terrainSwaps), Shuffled(NumberTokens, numberSwaps))[h]
    ensures forall h :: 0 <= h < 19 ==> hexArray[h].id == h
    ensures |vertexSeq| == 114 && forall k :: 0 <= k < 114 ==> vertexSeq[k] == FreshVertex(k, k / 6)
  {
    TerrainTableFillsBoard();
    hexArray := NumberedGrid(terrainSwaps, numberSwaps);
    ghost var numbered := hexArray[..];
    ghost var ts := Shuffled(Expand(TerrainDistribution), terrainSwaps);
    assert |ts| == 19;
    forall h | 0 <= h < 19 ensures numbered[h].id == h
    {
      assert numbered[h].id == TerrainHexes(ts)[h].id;
    }
    vertexSeq := GenerateVertices(hexArray);
    assert SlotVertices(hexArray[..]);
  }

  /** The last step of `generateMap` on the fresh vertices of the board. */
  method Neighbours(vertexSeq: seq<Vertex>, edges: seq<Edge>) returns (vertices: seq<Vertex>)
    requires |vertexSeq| == 114 && forall k :: 0 <= k < 114 ==> vertexSeq[k] == FreshVertex(k, k / 6)
    ensures vertices == BoardVertices(edges)
  {
    var vertexArray := new Vertex[114](k requires 0 <= k < 114 => vertexSeq[k]);
    assert vertexArray[..] == vertexSeq;
    CalculateNeighbors(vertexArray, edges);
    vertices := vertexArray[..];
  }

  /** On a board whose slots hold fresh vertices, edge `k` is side `k % 6` of hex slot `k / 6`. */
  lemma BoardEdgeKeys(hexes: seq<Hex>, edges: seq<Edge>)
    requires |hexes| == 19 && |edges| == 114
    requires forall h :: 0 <= h < 19 ==>
      hexes[h].id == h && hexes[h].vertexIds == SlotIds(h) && hexes[h].edgeIds == SlotIds(h) &&
      forall i :: 0 <= i < 6 ==> RecordsSide(hexes[h], i, edges[hexes[h].edgeIds[i]])
    ensures forall k :: 0 <= k < |edges| ==> KeyOf(edges[k]) == SlotSideKey(k) && k / 6 in edges[k].hexIds
  {
    forall k | 0 <= k < |edges|
      ensures KeyOf(edges[k]) == SlotSideKey(k) && k / 6 in edges[k].hexIds
    {
      var h, i := k / 6, k % 6;
      assert k == 6 * h + i && 0 <= h < 19 && 0 <= i < 6;
      assert hexes[h].edgeIds[i] == k;
      assert RecordsSide(hexes[h], i, edges[k]);
      SlotSideKeyAt(hexes[h], h, i);
      SlotSideKeyOf(h, i);
    }
  }

  lemma SlotSideKeyOf(h: nat, i: nat)
    requires i < 6
    ensures (6 * h + i) / 6 == h
    ensures SlotSideKey(6 * h + i) == EdgeKey(6 * h + i, 6 * h + (i + 1) % 6)
  {
    assert (6 * h + i) / 6 == h && (6 * h + i) % 6 == i;
  }

  lemma SlotSideKeyAt(hex: Hex, h: nat, i: nat)
    requires hex.vertexIds == SlotIds(h) && i < 6
    ensures SideKey(hex, i) == EdgeKey(6 * h + i, 6 * h + (i + 1) % 6)
  {
    var j := (i + 1) % 6;
    assert 0 <= j < 6;
    assert hex.vertexIds[i] == 6 * h + i && hex.vertexIds[j] == 6 * h + j;
  }

  // ---------------------------------------------------------------------------
  // Properties of the generated board
  // ---------------------------------------------------------------------------

  /** An entry occurring once in the multiset of `s` sits at exactly one index. */
  lemma {:induction false} SingleOccurrence<T>(s: seq<T>, x: T)
    requires multiset(s)[x] == 1
    ensures exists i :: 0 <= i < |s| && s[i] == x && forall j :: 0 <= j < |s| && s[j] == x ==> j == i
  {
    assert s == [s[0]] + s[1..];
    if s[0] == x {
      assert x !in s[1..];
      forall j | 0 < j < |s|
        ensures s[j] != x
      {
        assert s[j] == s[1..][j - 1];
      }
    } else {
      SingleOccurrence(s[1..], x);
      var i :| 0 <= i < |s[1..]| && s[1..][i] == x && forall j :: 0 <= j < |s[1..]| && s[1..][j] == x ==> j == i;
      forall j | 0 <= j < |s| && s[j] == x
        ensures j == i + 1
      {
        assert s[1..][j - 1] == x;
      }
    }
  }

  /** Every hex is desert or counted by `NonDesert`. */
  lemma {:induction false} NonDesertCount(hs: seq<Hex>)
    ensures NonDesert(hs) + multiset(Terrains(hs))[Desert] == |hs|
  {
    if |hs| > 0 {
      var pre := hs[..|hs| - 1];
      NonDesertCount(pre);
      assert Terrains(hs) == Terrains(pre) + [hs[|hs| - 1].terrain];
    }
  }

  /** A shuffled token is one of the number tokens: in 2..12 and never the robber roll. */
  lemma TokensInRange(tokens: seq<int>)
    requires multiset(tokens) == multiset(NumberTokens)
    ensures |tokens| == 18
    ensures forall k :: 0 <= k < |tokens| ==> 2 <= tokens[k] <= 12 && tokens[k] != RobberActivationRoll
  {
    NumberTokensWellFormed();
    assert |tokens| == |multiset(tokens)| == |multiset(NumberTokens)| == 18;
    forall k | 0 <= k < |tokens|
      ensures 2 <= tokens[k] <= 12 && tokens[k] != RobberActivationRoll
    {
      assert tokens[k] in multiset(NumberTokens);
      var j :| 0 <= j < |NumberTokens| && NumberTokens[j] == tokens[k];
    }
  }

  /** Every non-desert hex of a board with one desert among 19 takes a token slot below 18. */
  lemma TokenSlotsInRange(th: seq<Hex>, i: int)
    requires |th| == 19 && NonDesert(th) == 18 && 0 <= i < 19 && th[i].terrain != Desert
    ensures TokenSlot(th, i) < 18
  {
    TokenSlotStep(th, i);
    TokenSlotBounded(th, i + 1, 19);
    assert th[..19] == th;
  }

  /** One hex of the board, field by field. */
  lemma BoardHexAt(ts: seq<Terrain>, tokens: seq<int>, i: int)
    requires 0 <= i < |ts|
    ensures BoardHexes(ts, tokens)[i] ==
      Numbered(BlankHex(i).(terrain := ts[i]), tokens, TokenSlot(TerrainHexes(ts), i)).(vertexIds := SlotIds(i), edgeIds := SlotIds(i))
  {
  }

  /** One hex of such a board: its slot ids, its terrain, the robber on the desert, a valid token elsewhere. */
  lemma BoardHexFacts(ts: seq<Terrain>, tokens: seq<int>, th: seq<Hex>, i: int)
    requires |ts| == 19 && |tokens| == 18 && 0 <= i < 19
    requires forall k :: 0 <= k < 18 ==> 2 <= tokens[k] <= 12 && tokens[k] != RobberActivationRoll
    requires th == TerrainHexes(ts) && NonDesert(th) == 18
    ensures var h := BoardHexes(ts, tokens)[i];
      h.id == i && h.vertexIds == SlotIds(i) && h.edgeIds == SlotIds(i) && h.terrain == ts[i] &&
      (h.hasRobber <==> ts[i] == Desert) && (h.number.None? <==> ts[i] == Desert) &&
      (h.number.Some? ==> 2 <= h.number.value <= 12 && h.number.value != RobberActivationRoll)
  {
    BoardHexAt(ts, tokens, i);
    if ts[i] != Desert {
      TokenSlotsInRange(th, i);
    }
  }

  /**
   * The hexes of a board with 19 terrains of which one is the desert and 18
   * tokens in 2..12 other than 7: ids 0..18 in slot order with six vertex and
   * edge ids each, the robber exactly on the one desert, and a token on each
   * of the 18 other hexes.
   */
  lemma BoardHexesShape(ts: seq<Terrain>, tokens: seq<int>, hs: seq<Hex>)
    requires |ts| == 19 && multiset(ts)[Desert] == 1 && |tokens| == 18
    requires forall k :: 0 <= k < 18 ==> 2 <= tokens[k] <= 12 && tokens[k] != RobberActivationRoll
    requires hs == BoardHexes(ts, tokens)
    ensures |hs| == 19 && Terrains(hs) == ts
    ensures forall i :: 0 <= i < 19 ==> hs[i].id == i && hs[i].vertexIds == SlotIds(i) && hs[i].edgeIds == SlotIds(i)
    ensures UniqueHexIds(hs)
    ensures forall i :: 0 <= i < 19 ==> (hs[i].hasRobber <==> hs[i].terrain == Desert)
    ensures OneRobber(hs)
    ensures NonDesert(hs) == 18
    ensures forall i :: 0 <= i < 19 ==> (hs[i].number.None? <==> hs[i].terrain == Desert)
    ensures forall i :: 0 <= i < 19 && hs[i].number.Some? ==>
      2 <= hs[i].number.value <= 12 && hs[i].number.value != RobberActivationRoll
  {
    var th := TerrainHexes(ts);
    assert Terrains(th) == ts;
    NonDesertCount(th);
    forall i | 0 <= i < 19
      ensures hs[i].id == i && hs[i].vertexIds == SlotIds(i) && hs[i].edgeIds == SlotIds(i)
      ensures hs[i].terrain == ts[i]
      ensures hs[i].hasRobber <==> ts[i] == Desert
      ensures hs[i].number.None? <==> ts[i] == Desert
      ensures hs[i].number.Some? ==> 2 <= hs[i].number.value <= 12 && hs[i].number.value != RobberActivationRoll
    {
      BoardHexFacts(ts, tokens, th, i);
    }
    BoardWide(ts, hs);
  }

  /** Board-wide consequences of the per-hex facts: the terrain list, unique ids, one robber, 18 producers. */
  lemma {:induction false} BoardWide(ts: seq<Terrain>, hs: seq<Hex>)
    requires |ts| == 19 && |hs| == 19 && multiset(ts)[Desert] == 1
    requires forall i :: 0 <= i < 19 ==> hs[i].id == i && hs[i].terrain == ts[i] && (hs[i].hasRobber <==> ts[i] == Desert)
    ensures Terrains(hs) == ts && UniqueHexIds(hs) && OneRobber(hs) && NonDesert(hs) == 18
  {
    var t := Terrains(hs);
    assert t == ts by {
      assert |t| == |ts| && forall i :: 0 <= i < |t| ==> t[i] == ts[i];
    }
    NonDesertCount(hs);
    OnlyDesertRobbed(ts, hs);
  }

  /** With one desert among the terrains, the robber stands on exactly one hex. */
  lemma {:induction false} OnlyDesertRobbed(ts: seq<Terrain>, hs: seq<Hex>)
    requires |ts| == |hs| && multiset(ts)[Desert] == 1
    requires forall i :: 0 <= i < |hs| ==> (hs[i].hasRobber <==> ts[i] == Desert)
    ensures OneRobber(hs)
  {
    SingleOccurrence(ts, Desert);
    var d :| 0 <= d < |ts| && ts[d] == Desert && forall j :: 0 <= j < |ts| && ts[j] == Desert ==> j == d;
    assert hs[d].hasRobber;
  }

  /**
   * The hexes of any board built from a permutation of the terrain deck and
   * of the number tokens, as `generateMap` builds them from its two shuffles.
   */
  lemma BoardHexesProperties(ts: seq<Terrain>, tokens: seq<int>, hs: seq<Hex>)
    requires multiset(ts) == multiset(Expand(TerrainDistribution)) && multiset(tokens) == multiset(NumberTokens)
    requires hs == BoardHexes(ts, tokens)
    ensures |hs| == 19
    ensures forall i :: 0 <= i < 19 ==> hs[i].id == i && hs[i].vertexIds == SlotIds(i) && hs[i].edgeIds == SlotIds(i)
    ensures UniqueHexIds(hs)
    ensures multiset(Terrains(hs)) == multiset(Expand(TerrainDistribution))
    ensures forall i :: 0 <= i < 19 ==> (hs[i].hasRobber <==> hs[i].terrain == Desert)
    ensures OneRobber(hs)
    ensures NonDesert(hs) == 18
    ensures forall i :: 0 <= i < 19 ==> (hs[i].number.None? <==> hs[i].terrain == Desert)
    ensures forall i :: 0 <= i < 19 && hs[i].number.Some? ==>
      2 <= hs[i].number.value <= 12 && hs[i].number.value != RobberActivationRoll
  {
    TerrainTableFillsBoard();
    assert |ts| == |multiset(ts)| == 19;
    TokensInRange(tokens);
    BoardHexesShape(ts, tokens, hs);
  }

  /**
   * The vertices `generateMap` returns: one per id 0..113, each on the single
   * hex of its slot, with no buildings and no ports, and a neighbour relation
   * that is symmetric and never relates a vertex to itself.
   */
  lemma BoardVerticesProperties(edges: seq<Edge>, vs: seq<Vertex>)
    requires forall k :: 0 <= k < |edges| ==> edges[k].id == k
    requires vs == BoardVertices(edges)
    ensures |vs| == 114 && UniqueVertexIds(vs)
    ensures forall k :: 0 <= k < 114 ==> vs[k].id == k && vs[k].hexIds == [k / 6]
    ensures forall k :: 0 <= k < 114 ==> vs[k].building == None && vs[k].port == None
    ensures NeighboursSymmetric(vs) && NeighboursIrreflexive(vs)
  {
    forall k | 0 <= k < 114
      ensures vs[k].id == k && vs[k].neighborVertexIds == NeighboursOf(edges, vs[k].id)
    {
    }
    NeighbourGraphShape(vs, edges);
  }
}
