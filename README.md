# Catan rules engine — a Dafny model

This project models the rules engine of a browser Settlers of Catan game written in TypeScript. It covers:

- **Data.** The game's records: resources, hexes, vertices, edges, players, trade offers and the game state.
- **Constants.** The game constants and tables: costs, terrain and number-token distribution, development-card deck.
- **Map.** Map generation: hex grid, terrain and number shuffles, vertex and edge generation, neighbour computation.
- **Validation.** The validators that decide whether a road, settlement, city, card purchase, card play or bank trade is allowed.
- **Calculators:**
  - victory points;
  - the longest road, found by a backtracking depth-first search over a shared visited set;
  - the two badge checks;
  - resource yields of a dice roll.
- **Action handlers.** Building, buying and playing development cards (knight, year of plenty, monopoly, road building), and stealing.
- **Robber.** Discarding on a 7, moving the robber, choosing and robbing a victim.
- **Trading.** Ports, trade ratios, the bank trade, and player trade offers (create, accept, decline).
- **Utilities.** Player creation, the initial state, turn order in both phases, available build sites, resource distribution.
- **Store.** The game store: rolling the dice, road building with the initial-placement progression, settlements and cities, ending a turn with the victory check, moving the robber and discarding.

There is one Dafny module per source file. Code that works on values is modelled as functions. Loops and in-place updates are methods with loop invariants; each is proved equal to a specification function, and lemmas then state what the source promises about those functions. Map generation keeps its arrays. The store is a class whose fields are the current game state and the list of players who still have to discard.

Randomness is passed in as parameters:
- the dice values;
- the Fisher–Yates swap indices (`js[i] <= i`);
- the index of the card a thief draws.

Hex, vertex and edge ids (`hex-N`, `vertex-N`, `edge-N`) are modelled by the number `N`. Player ids are strings.

## Model

| member | source | states |
|---|---|---|
| Types.Resources.With | lib/game-logic/actionHandlers.ts:503-520 | a record update sets one resource count and keeps the other four |
| Types.IndexOfPlayer | lib/utils/gameUtils.ts:189-191 | `findIndex`: -1 exactly when no player has the id, otherwise the first index holding it |
| Types.FindPlayer | lib/utils/gameUtils.ts:173 | `players.find`: absent exactly when no player has the id, otherwise the first player with it |
| Types.IndexOfHex | lib/game-logic/robberHandlers.ts:160 | first index of a hex with the id, -1 exactly when there is none |
| Types.FindHex | lib/game-logic/robberHandlers.ts:160 | `hexes.find`: absent exactly when no hex has the id, otherwise the first with it |
| Types.IndexOfVertex | lib/game-logic/validators.ts:147 | first index of a vertex with the id, -1 exactly when there is none |
| Types.FindVertex | lib/game-logic/validators.ts:147 | `vertices.find`: absent exactly when no vertex has the id, otherwise the first with it |
| Types.IndexOfEdge | lib/game-logic/validators.ts:65 | first index of an edge with the id, -1 exactly when there is none |
| Types.FindEdge | lib/game-logic/validators.ts:65 | `edges.find`: absent exactly when no edge has the id, otherwise the first with it |
| Types.FindUniquePlayer | lib/utils/gameUtils.ts:173 | with unique player ids, looking a player up by its id finds exactly that player at its index |
| Types.FindUniqueHex | lib/game-logic/robberHandlers.ts:160 | with unique hex ids, the lookup by id finds exactly that hex |
| Types.FindUniqueVertex | lib/game-logic/validators.ts:147 | with unique vertex ids, the lookup by id finds exactly that vertex |
| Types.FindUniqueEdge | lib/game-logic/validators.ts:65 | with unique edge ids, the lookup by id finds exactly that edge |
| Types.ReplacePlayer | lib/game-logic/actionHandlers.ts:95-97 | `players.map(p => p.id === id ? np : p)`: same length, every entry with the id replaced, all others kept |
| Types.FindReplacedPlayer | lib/game-logic/actionHandlers.ts:95-97 | after replacing a present player, the lookup finds the new record at the same index |
| Types.FindOtherPlayer | lib/game-logic/actionHandlers.ts:95-97 | replacing one player leaves the lookup of every other id unchanged |
| Types.Count | lib/game-logic/calculators.ts:70-72 | `filter(c => c === x).length` equals the multiplicity of `x` |
| Types.RemoveFirst | lib/game-logic/actionHandlers.ts:371-374 | `indexOf` + `splice(i, 1)`: removes exactly one copy when present, otherwise leaves the hand unchanged |
| Constants.TerrainToResource | lib/constants/game.constants.ts:141-148 | only the desert yields no resource |
| Constants.TerrainToResourceInjective | lib/constants/game.constants.ts:141-148 | distinct producing terrains yield distinct resources |
| Constants.Repeat | lib/constants/game.constants.ts:112-119 | `n` copies of one entry |
| Constants.ExpandLength | lib/constants/game.constants.ts:112-119 | expanding a count table gives as many entries as the counts add up to |
| Constants.TerrainDistributionExpanded | lib/constants/game.constants.ts:112-119 | 19 terrains: 4 forest, 3 hills, 4 pasture, 4 fields, 3 mountains, 1 desert, in table order |
| Constants.HexGridRowsSum | lib/constants/game.constants.ts:225 | the rows 3, 4, 5, 4, 3 hold 19 hexes |
| Constants.TerrainTableFillsBoard | lib/constants/game.constants.ts:112-119 | the terrain table fills the grid exactly and holds one desert |
| Constants.NumberTokensWellFormed | lib/constants/game.constants.ts:125-136 | 18 tokens, one per producing hex, each in 2..12 and never 7 |
| Constants.DevCardDeckExpanded | lib/constants/game.constants.ts:157-163 | the deck is 14 knights, 5 victory points, 2 road building, 2 year of plenty, 2 monopoly |
| Constants.DevCardDeckCount | lib/constants/game.constants.ts:157-163 | each card kind occurs in the expanded deck as often as the table says |
| Constants.DevCardDeckComposition | lib/constants/game.constants.ts:157-163 | the deck holds 25 cards, with the multiplicities of the table |
| Constants.RepeatCount | lib/constants/game.constants.ts:157-163 | a repeated entry contributes its count to that kind and nothing to the others |
| Constants.BuildingCosts | lib/constants/game.constants.ts:76-103 | a road costs wood and brick; a settlement costs one of each resource except ore; a city costs 2 wheat and 3 ore; a card costs sheep, wheat and ore |
| Validators.HasResources | lib/game-logic/validators.ts:396-405 | true exactly when every listed cost is covered; for a hand without negative counts, exactly when no resource falls short |
| Validators.CanBuildRoad | lib/game-logic/validators.ts:34-101 | valid iff affordable (free in initial placement), a road piece is left, the edge exists and is free, and an endpoint holds the player's building or is shared with one of the player's roads |
| Validators.CanBuildSettlement | lib/game-logic/validators.ts:116-192 | valid iff affordable (free in initial placement), a settlement is left, the vertex exists and is empty, no neighbour is built on, and outside initial placement it touches the player's road |
| Validators.CanBuildCity | lib/game-logic/validators.ts:205-256 | valid iff 2 wheat and 3 ore are held, a city is left, and the vertex holds the player's own settlement |
| Validators.CanBuyDevCard | lib/game-logic/validators.ts:268-295 | valid iff sheep, wheat and ore are held and the deck is not empty |
| Validators.CanPlayDevCard | lib/game-logic/validators.ts:308-338 | valid iff the card is in the hand |
| Validators.CanTradeWithBank | lib/game-logic/validators.ts:352-384 | valid iff the offer is held and is exactly `ratio` times what is asked for |
| Validators.CanPlaceInitialSettlement | lib/game-logic/validators.ts:417-451 | valid iff the vertex exists, is empty and respects the distance rule |
| Validators.CanPlaceInitialRoad | lib/game-logic/validators.ts:464-496 | valid iff the edge exists, is free and has the vertex as an end |
| Validators.InitialSettlementAgrees | lib/game-logic/validators.ts:417-451 | for a player with a settlement left, the initial-placement check and `canBuildSettlement` in initial mode agree |
| Validators.InitialRoadAgrees | lib/game-logic/validators.ts:464-496 | a road the initial-placement check allows next to the player's own settlement is also allowed by `canBuildRoad` in initial mode |
| Calculators.CalculateVictoryPoints | lib/game-logic/calculators.ts:31-82 | the loop's total is the victory-point formula (1 per settlement, 2 per city, 2 per badge, 1 per victory card), never negative |
| Calculators.NextEdges | lib/game-logic/calculators.ts:194-205 | the edges the search continues to are exactly the listed neighbours, other than the current edge, that carry the player's road |
| Calculators.ContinuationsAreLegal | lib/game-logic/calculators.ts:183-207 | every continuation is the player's road, reached through an existing end vertex not built on by an opponent |
| Calculators.RoadLengthFrom | lib/game-logic/calculators.ts:159-211 | the search result is 0 exactly when the start edge was already visited |
| Calculators.RoadLengthFromBounded | lib/game-logic/calculators.ts:159-211 | a search never counts more edges than the player's unvisited roads (plus the start) |
| Calculators.LongestOfCovers | lib/game-logic/calculators.ts:200-203 | the running maximum is at least each continuation's length |
| Calculators.LongestOfBounded | lib/game-logic/calculators.ts:200-203 | the running maximum stays below any bound on every continuation |
| Calculators.PlayerEdges | lib/game-logic/calculators.ts:104 | exactly the edges carrying the player's road |
| Calculators.LongestRoadZeroIff | lib/game-logic/calculators.ts:95-145 | the longest road is 0 exactly when the player has no road |
| Calculators.LongestFromCovers | lib/game-logic/calculators.ts:126-136 | the result is at least the search from every start edge |
| Calculators.LongestRoadBounded | lib/game-logic/calculators.ts:95-145 | a player with roads has a longest road between 1 and the number of their roads |
| Calculators.LongestFromBounded | lib/game-logic/calculators.ts:126-136 | the maximum over start edges stays below any bound on every search |
| Calculators.EdgeSet.constructor | lib/game-logic/calculators.ts:129 | each search starts with an empty visited set |
| Calculators.DfsRoadLength | lib/game-logic/calculators.ts:159-211 | the recursive search returns the specified road length and restores the shared visited set (except after a missing edge, which stays marked) |
| Calculators.ExploreEdges | lib/game-logic/calculators.ts:192-206 | the search through one endpoint returns the running maximum over its continuations and leaves the visited set as it found it |
| Calculators.CalculateLongestRoad | lib/game-logic/calculators.ts:95-145 | the search over all start edges equals the specified longest road |
| Calculators.OthersLongestRoadIsMax | lib/game-logic/calculators.ts:359-366 | `Math.max` over the other players' lengths is at least each of them and is one of them (or the empty-list value) |
| Calculators.CheckLongestRoad | lib/game-logic/calculators.ts:345-370 | true iff the player's road is at least 5 long and strictly longer than every other player's |
| Calculators.OthersMostKnights | lib/game-logic/calculators.ts:398-405 | the largest knight count among the others (0 when there are none) |
| Calculators.CheckLargestArmy | lib/game-logic/calculators.ts:382-409 | true iff the player exists, has played at least 3 knights and strictly more than every other player |
| Calculators.LongestRoadCheckExclusive | lib/game-logic/calculators.ts:345-370 | no two players (distinct ids) pass the longest-road check together |
| Calculators.LargestArmyCheckExclusive | lib/game-logic/calculators.ts:382-409 | no two players (distinct ids) pass the largest-army check together |
| Calculators.ActiveHexes | lib/game-logic/calculators.ts:243-245 | exactly the hexes carrying the rolled number and no robber |
| Calculators.HexYieldNonNegative | lib/game-logic/calculators.ts:255-276 | a hex's corners never take anything from a player |
| Calculators.RollYieldNonNegative | lib/game-logic/calculators.ts:248-280 | the yield over several hexes is never negative |
| Calculators.YieldNonNegative | lib/game-logic/calculators.ts:224-285 | what a roll gives a player is never negative |
| Calculators.RollYieldOnlyFromProducers | lib/game-logic/calculators.ts:248-254 | a resource no active hex produces is not yielded |
| Calculators.YieldWithoutActiveHex | lib/game-logic/calculators.ts:243-254 | with no active hex of that resource a roll yields none of it |
| Calculators.NoActiveHexes | lib/game-logic/calculators.ts:243-245 | a roll no unrobbed hex carries activates no hex |
| Calculators.PlayerIdSetFind | lib/game-logic/calculators.ts:230-236 | the record has an entry exactly for the ids the player lookup finds |
| Calculators.DistributeResources | lib/game-logic/calculators.ts:224-285 | fails exactly when an active hex has a built corner whose owner is not a player; otherwise every player's record holds the roll's yield per resource |
| Calculators.EmptyRecord | lib/game-logic/calculators.ts:230-236 | one empty record per player |
| Calculators.CreditHex | lib/game-logic/calculators.ts:259-276 | crediting one hex adds 1 per settlement and 2 per city to the owner's record, and fails on an unknown owner |
| Calculators.GetAdjacentVertices | lib/game-logic/calculators.ts:297-309 | the vertex list of the first hex carrying the id, and empty when no hex carries it |
| Calculators.GetAdjacentHexes | lib/game-logic/calculators.ts:321-333 | the hex list of the first vertex carrying the id, and empty when no vertex carries it |
| GameUtils.BoardAdjacentVertices | lib/game-logic/calculators.ts:297-309 | on a generated board, hex `h` in 0..18 yields exactly its six distinct corner ids 6h..6h+5, and any other id yields none |
| GameUtils.BoardAdjacentHexes | lib/game-logic/calculators.ts:321-333 | on a generated board, vertex `v` in 0..113 yields exactly the one hex `v / 6` it was created on, and any other id yields none |
| GameUtils.BoardAdjacency | lib/game-logic/calculators.ts:297-333 | on a generated board the two lookups agree: a hex lists a vertex iff that vertex lists the hex |
| ActionHandlers.Pay | lib/game-logic/actionHandlers.ts:76-80 | each resource drops by its cost |
| ActionHandlers.PayAffordable | lib/game-logic/actionHandlers.ts:76-80 | paying an affordable cost never leaves a negative count |
| ActionHandlers.DeductCost | lib/game-logic/actionHandlers.ts:76-80 | the `forEach` over the cost entries computes the payment |
| ActionHandlers.UpdateLongestRoad | lib/game-logic/actionHandlers.ts:419-437 | unchanged unless the check passes; then the player holds the badge alone and only badge fields change; the check's answer is unchanged |
| ActionHandlers.UpdateLargestArmy | lib/game-logic/actionHandlers.ts:449-466 | same, for the largest army |
| ActionHandlers.UpdateLongestRoadIdempotent | lib/game-logic/actionHandlers.ts:419-437 | awarding the longest road twice is the same as once |
| ActionHandlers.UpdateLargestArmyIdempotent | lib/game-logic/actionHandlers.ts:449-466 | awarding the largest army twice is the same as once |
| ActionHandlers.UpdatesKeepBadgesHeldOnce | lib/game-logic/actionHandlers.ts:419-466 | with unique ids, no badge is ever held by two players after an update |
| ActionHandlers.PlaceRoad | lib/game-logic/actionHandlers.ts:87-89 | the edge with the id gets the player's road; other edges unchanged |
| ActionHandlers.PlaceBuilding | lib/game-logic/actionHandlers.ts:191-193 | the vertex with the id gets the building; other vertices unchanged |
| ActionHandlers.HandleBuildRoad | lib/game-logic/actionHandlers.ts:39-115 | unknown player or rejected road: state unchanged; otherwise the road is placed, a piece and (outside initial placement) its cost are taken, and the longest road is re-awarded; ids and non-negative hands are kept |
| ActionHandlers.RoadBuildEffect | lib/game-logic/actionHandlers.ts:39-115 | a road built by an able player keeps every hand non-negative and every player id in place |
| ActionHandlers.HexesAround | lib/game-logic/actionHandlers.ts:170-172 | exactly the hexes listing the vertex |
| ActionHandlers.ProducingTotal | lib/game-logic/actionHandlers.ts:174-180 | the second settlement's start-up resources add up to the number of producing hexes around it |
| ActionHandlers.Gain | lib/game-logic/actionHandlers.ts:174-180 | one card per producing hex, of that hex's resource |
| ActionHandlers.SettlementResources | lib/game-logic/actionHandlers.ts:157-181 | outside initial placement the cost is paid; in round 2 of placement one card per adjacent producing hex is received |
| ActionHandlers.HandleBuildSettlement | lib/game-logic/actionHandlers.ts:129-212 | unknown player or rejected settlement: unchanged; otherwise the specified placement (building, piece, resources) |
| ActionHandlers.SettlementKeepsNonNegative | lib/game-logic/actionHandlers.ts:129-212 | an allowed settlement leaves no hand negative |
| ActionHandlers.PlaceBuildingCount | lib/game-logic/actionHandlers.ts:191-193 | placing a building changes the owner's count of that kind by exactly the replaced and the new building |
| ActionHandlers.SettlementAddsPoint | lib/game-logic/actionHandlers.ts:129-212 | an allowed settlement is worth exactly one more victory point to its builder |
| ActionHandlers.SettlementKeepsSpacing | lib/game-logic/actionHandlers.ts:129-212 | on a board whose neighbour relation is symmetric and irreflexive, an allowed settlement keeps every two buildings non-adjacent |
| ActionHandlers.NotANeighbour | lib/game-logic/validators.ts:155-168 | a vertex passing the distance rule is not adjacent to any built vertex |
| ActionHandlers.HandleBuildCity | lib/game-logic/actionHandlers.ts:225-273 | unknown player or rejected city: unchanged; otherwise the specified upgrade |
| ActionHandlers.CityAddsPoint | lib/game-logic/actionHandlers.ts:225-273 | an allowed city is worth exactly one more victory point to its builder |
| ActionHandlers.CityKeepsNonNegative | lib/game-logic/actionHandlers.ts:225-273 | an allowed city leaves no hand negative |
| ActionHandlers.CityKeepsSpacing | lib/game-logic/actionHandlers.ts:225-273 | an upgrade keeps the buildings spaced |
| ActionHandlers.HandleBuyDevCard | lib/game-logic/actionHandlers.ts:285-334 | unknown player or rejected purchase: unchanged; otherwise the deck is not empty and its top card moves to the hand |
| ActionHandlers.CardPurchaseConservesCards | lib/game-logic/actionHandlers.ts:285-334 | a purchase keeps the cards in hands plus the deck the same multiset, and no hand becomes negative |
| ActionHandlers.PlayCard | lib/game-logic/actionHandlers.ts:369-374 | one copy of the card leaves the hand (if held) and the card is appended to the played list; nothing else changes |
| ActionHandlers.ResourceIndex | lib/game-logic/actionHandlers.ts:487-496 | each resource's position in the pool order |
| ActionHandlers.PoolUpToCounts | lib/game-logic/actionHandlers.ts:487-496 | the pool built so far holds each earlier resource as often as the victim has it |
| ActionHandlers.StealPoolCounts | lib/game-logic/actionHandlers.ts:487-496 | the draw pool holds each resource as many times as the victim has it |
| ActionHandlers.StealPoolEmpty | lib/game-logic/actionHandlers.ts:487-496 | the pool is empty exactly when the victim holds nothing |
| ActionHandlers.StealPoolHeld | lib/game-logic/actionHandlers.ts:498-499 | any drawn card is one the victim holds |
| ActionHandlers.TakeOne | lib/game-logic/actionHandlers.ts:502-522 | the victim loses one card of the resource and the thief gains it; others unchanged |
| ActionHandlers.StealResult | lib/game-logic/actionHandlers.ts:479-523 | a theft changes only resource counts |
| ActionHandlers.StealRandomResource | lib/game-logic/actionHandlers.ts:479-523 | the method computes the specified theft |
| ActionHandlers.BuildStealPool | lib/game-logic/actionHandlers.ts:487-496 | the loop builds the specified pool |
| ActionHandlers.StealConserves | lib/game-logic/actionHandlers.ts:479-523 | with unique ids and a thief other than the victim, every resource total is conserved and no hand becomes negative |
| ActionHandlers.TakeOneConserves | lib/game-logic/actionHandlers.ts:502-522 | moving a held card from victim to thief conserves totals and non-negative hands |
| ActionHandlers.StealTakesOne | lib/game-logic/actionHandlers.ts:479-523 | a victim holding anything loses exactly one card |
| ActionHandlers.MoveRobber | lib/game-logic/actionHandlers.ts:377-380 | the robber stands exactly on the target hex |
| ActionHandlers.HandlePlayKnight | lib/game-logic/actionHandlers.ts:348-407 | unknown player: unchanged; otherwise card played, knight counted, robber moved, optional theft, then largest army re-awarded |
| ActionHandlers.KnightMovesRobber | lib/game-logic/actionHandlers.ts:348-407 | after a knight the robber stands exactly on the target hex |
| ActionHandlers.KnightCountsKnight | lib/game-logic/actionHandlers.ts:348-407 | the player's knight count rises by one and the knight is recorded as played; other players' cards and counts are unchanged |
| ActionHandlers.KnightConserves | lib/game-logic/actionHandlers.ts:348-407 | a knight conserves every resource total and non-negative hands |
| ActionHandlers.KnightBadgeKeepsResources | lib/game-logic/actionHandlers.ts:395-405 | the badge update after a knight does not touch resources |
| ActionHandlers.KnightPlayedConserves | lib/game-logic/actionHandlers.ts:360-393 | the knight's own effect conserves totals and non-negative hands |
| ActionHandlers.GainEach | lib/game-logic/actionHandlers.ts:562-565 | each chosen resource adds one card |
| ActionHandlers.HandlePlayYearOfPlenty | lib/game-logic/actionHandlers.ts:536-577 | unknown player: unchanged; otherwise card played and one card per chosen resource |
| ActionHandlers.YearOfPlentyFromBank | lib/game-logic/actionHandlers.ts:536-577 | the totals grow by exactly the chosen cards, and no hand becomes negative |
| ActionHandlers.HandlePlayMonopoly | lib/game-logic/actionHandlers.ts:590-657 | unknown player: unchanged; otherwise the specified collection |
| ActionHandlers.CollectFromOthers | lib/game-logic/actionHandlers.ts:619-632 | every other player's count of the resource drops to 0 and the total collected is what they held |
| ActionHandlers.HoldingSplit | lib/game-logic/actionHandlers.ts:619-645 | the total of a resource is the player's part plus the others' part |
| ActionHandlers.OwnHoldingUnique | lib/game-logic/actionHandlers.ts:636-645 | with unique ids, the player's part is their own count |
| ActionHandlers.NoneHolding | lib/game-logic/actionHandlers.ts:600 | an absent player holds nothing |
| ActionHandlers.OthersHoldingZero | lib/game-logic/actionHandlers.ts:619-632 | once the others hold none, nothing more is collected |
| ActionHandlers.MonopolyConserves | lib/game-logic/actionHandlers.ts:590-657 | a monopoly conserves every resource total and leaves every other player without the chosen resource |
| ActionHandlers.MonopolyConservesChosen | lib/game-logic/actionHandlers.ts:590-657 | the chosen resource's total is conserved |
| ActionHandlers.FreeRoadCount | lib/game-logic/actionHandlers.ts:697-705 | at most two free roads, at most the requested number, and no more than the road pieces left |
| ActionHandlers.HandlePlayRoadBuilding | lib/game-logic/actionHandlers.ts:670-713 | unknown player: unchanged; otherwise card played and the first free roads built as initial-placement roads |
| ActionHandlers.FreeRoadsKeepResources | lib/game-logic/actionHandlers.ts:697-705 | free roads cost nothing and keep the player ids |
| ActionHandlers.FreeRoadKeepsResources | lib/game-logic/actionHandlers.ts:697-705 | one free road costs nothing |
| ActionHandlers.FreeRoadsKeepRoads | lib/game-logic/actionHandlers.ts:697-705 | free roads only fill empty edges with the player's road |
| ActionHandlers.FreeRoadKeepsRoads | lib/game-logic/actionHandlers.ts:697-705 | one free road only fills an empty edge |
| Robber.NeedsToDiscard | lib/game-logic/robberHandlers.ts:23-34 | true iff the hand has more than 7 cards, in which case at least 4 must go |
| Robber.DiscardAmount | lib/game-logic/robberHandlers.ts:45-60 | half the hand, rounded down |
| Robber.Discarded | lib/game-logic/robberHandlers.ts:100-117 | each resource drops by the discarded amount, clamped at 0 |
| Robber.DiscardApplied | lib/game-logic/robberHandlers.ts:120-130 | only the discarding player's hand changes |
| Robber.DiscardResult | lib/game-logic/robberHandlers.ts:73-142 | only the players change |
| Robber.HandleDiscardResources | lib/game-logic/robberHandlers.ts:73-142 | the handler computes the specified discard |
| Robber.DiscardFromRecord | lib/game-logic/robberHandlers.ts:100-117 | the loop over the discard record computes the specified hand |
| Robber.DiscardKeepsNonNegative | lib/game-logic/robberHandlers.ts:73-142 | discarding never makes a count negative |
| Robber.DiscardRemovesHalf | lib/game-logic/robberHandlers.ts:73-142 | discarding the required half (out of held cards) leaves exactly the rest, and other players are unchanged |
| Robber.DiscardExact | lib/game-logic/robberHandlers.ts:100-117 | discarding held cards removes exactly their number |
| Robber.HandleMoveRobber | lib/game-logic/robberHandlers.ts:154-198 | unknown hex or the robber's own hex: unchanged; otherwise the robber moves there and nothing but the hexes changes |
| Robber.MoveRobberPlacesOne | lib/game-logic/robberHandlers.ts:177-181 | after a move to an existing hex (unique ids) there is exactly one robber, on that hex |
| Robber.MoveRobberKeepsOne | lib/game-logic/robberHandlers.ts:154-198 | a board with one robber keeps one, and it stands on the requested hex whenever that hex exists |
| Robber.GetPlayersToStealFrom | lib/game-logic/robberHandlers.ts:211-249 | the loop returns the specified candidates |
| Robber.CandidatesCharacterised | lib/game-logic/robberHandlers.ts:225-245 | a candidate is exactly a player other than the current one who owns a building on a listed corner and holds a card; no id appears twice |
| Robber.StealCandidatesCharacterised | lib/game-logic/robberHandlers.ts:211-249 | candidates of a hex are the robbable owners of its corners; the current player is never one |
| Robber.StealResourceResult | lib/game-logic/robberHandlers.ts:262-340 | only the players change |
| Robber.HandleStealResource | lib/game-logic/robberHandlers.ts:262-340 | the handler computes the specified theft |
| Robber.StealResourceIsKnightSteal | lib/game-logic/robberHandlers.ts:262-340 | with a known thief the robber theft is the knight's theft with the roles in that order |
| Robber.StealResourceConserves | lib/game-logic/robberHandlers.ts:262-340 | with unique ids and distinct victim and thief, every total is conserved and hands stay non-negative |
| Robber.StealFromEmptyHand | lib/game-logic/robberHandlers.ts:286-293 | robbing an empty hand changes nothing |
| Robber.StealResourceMovesOne | lib/game-logic/robberHandlers.ts:262-340 | the drawn card leaves the victim and reaches the thief; nothing else about them changes |
| Robber.TakeOneEffect | lib/game-logic/actionHandlers.ts:502-522 | the victim's and thief's new records after a one-card move |
| Trading.Owned | lib/game-logic/tradingHandlers.ts:28-30 | exactly the vertices holding the player's building |
| Trading.GetPlayerPorts | lib/game-logic/tradingHandlers.ts:24-45 | the loop returns the specified ports |
| Trading.DistinctPortsCharacterised | lib/game-logic/tradingHandlers.ts:33-42 | the list holds each port of the listed vertices exactly once |
| Trading.PortsOfCharacterised | lib/game-logic/tradingHandlers.ts:24-45 | a port is listed exactly when one of the player's buildings stands on it, and only once |
| Trading.TradeRatio | lib/game-logic/tradingHandlers.ts:57-90 | 2 with the resource's own port, otherwise 3 with a generic port, otherwise 4 |
| Trading.TradeRatioMonotone | lib/game-logic/tradingHandlers.ts:57-90 | more ports never make the ratio worse |
| Trading.MapResources | lib/game-logic/tradingHandlers.ts:151-162 | only the trading player's hand is rewritten |
| Trading.BankTradeAsWritten | lib/game-logic/tradingHandlers.ts:105-181 | the handler as written changes only the players, and a rejected trade changes nothing |
| Trading.HandleBankTrade | lib/game-logic/tradingHandlers.ts:105-181 | the corrected handler changes only the players, and a rejected trade changes nothing |
| Trading.BankTradeAgreesForDistinctResources | lib/game-logic/tradingHandlers.ts:151-162 | for two different resources the handler as written and the corrected one agree |
| Trading.BankTradeAsWrittenSameResourceGains | lib/game-logic/tradingHandlers.ts:155-161 | as written, trading a resource for itself pays nothing and strictly gains |
| Trading.BankTradeAsWrittenExample | lib/game-logic/tradingHandlers.ts:155-161 | a concrete trade of 4 wood for wood raises the hand from 4 to 5 wood |
| Trading.BankTradeEffect | lib/game-logic/tradingHandlers.ts:105-181 | an accepted trade takes the offered amount and gives amount / ratio of the requested resource; other players are unchanged |
| Trading.BankTradeNeverGains | lib/game-logic/tradingHandlers.ts:105-181 | a corrected trade keeps hands non-negative and never increases the player's card total |
| Trading.TradedKeepsNonNegative | lib/game-logic/tradingHandlers.ts:155-161 | paying held cards and receiving some keeps the hand non-negative |
| Trading.TradedTotal | lib/game-logic/tradingHandlers.ts:155-161 | the hand's total changes by what is received minus what is paid |
| Trading.WithTotal | lib/game-logic/tradingHandlers.ts:155-161 | rewriting one count changes the total by the difference |
| Trading.HandleCreateTradeOffer | lib/game-logic/tradingHandlers.ts:195-236 | only the current offer changes; if it changes, it becomes the new offer. The new offer is stored exactly when the player exists and holds what is offered (or it was already the stored offer) |
| Trading.HandleDeclineTrade | lib/game-logic/tradingHandlers.ts:359-366 | the offer is cleared and nothing else changes |
| Trading.CreateThenDecline | lib/game-logic/tradingHandlers.ts:195-236 | creating and then declining an offer is the same as declining alone |
| Trading.Receive | lib/game-logic/tradingHandlers.ts:290-296 | each resource grows by the bundle |
| Trading.CreditBundle | lib/game-logic/tradingHandlers.ts:290-296 | the loop over the bundle computes the specified hand |
| Trading.Exchange | lib/game-logic/tradingHandlers.ts:300-330 | the offering player pays the offer and receives the request; the accepting player the reverse; others unchanged |
| Trading.AcceptResult | lib/game-logic/tradingHandlers.ts:248-348 | a rejected acceptance changes nothing; an accepted one changes only the players and clears the offer |
| Trading.HandleAcceptTrade | lib/game-logic/tradingHandlers.ts:248-348 | the handler computes the specified acceptance |
| Trading.AcceptConserves | lib/game-logic/tradingHandlers.ts:248-348 | an accepted trade conserves every total; with non-negative bundles it keeps hands non-negative |
| Trading.ExchangeKeepsNonNegative | lib/game-logic/tradingHandlers.ts:300-330 | both sides of an affordable exchange keep non-negative hands |
| Trading.AcceptAfterDecline | lib/game-logic/tradingHandlers.ts:359-366 | after a decline there is nothing to accept |
| MapGenerator.Swap | lib/game-logic/mapGenerator.ts:361 | a swap exchanges two positions and keeps the rest |
| MapGenerator.Shuffled | lib/game-logic/mapGenerator.ts:353-366 | a shuffle keeps the length |
| MapGenerator.SwapPermutes | lib/game-logic/mapGenerator.ts:361 | a swap is a permutation |
| MapGenerator.ShuffleDownPermutes | lib/game-logic/mapGenerator.ts:359-362 | every pass is a permutation |
| MapGenerator.ShuffledPermutes | lib/game-logic/mapGenerator.ts:353-366 | a shuffle is a permutation of its input |
| MapGenerator.ShuffleArray | lib/game-logic/mapGenerator.ts:353-366 | the in-place loop computes the specified shuffle |
| MapGenerator.ExpandTable | lib/game-logic/mapGenerator.ts:134-140 | the nested loop lists each entry as often as its count |
| MapGenerator.GenerateHexGrid | lib/game-logic/mapGenerator.ts:95-120 | 19 blank hexes numbered 0 to 18 |
| MapGenerator.Terrains | lib/game-logic/mapGenerator.ts:131-153 | the terrains in board order |
| MapGenerator.AssignTerrains | lib/game-logic/mapGenerator.ts:131-153 | hex i gets the i-th shuffled terrain and nothing else changes |
| MapGenerator.Numbered | lib/game-logic/mapGenerator.ts:175-183 | the desert gets no number and the robber; every other hex gets its token |
| MapGenerator.AssignNumbers | lib/game-logic/mapGenerator.ts:164-185 | every hex becomes its numbered version, tokens taken in order |
| MapGenerator.SlotIds | lib/game-logic/mapGenerator.ts:205-236 | each hex's six corner slots |
| MapGenerator.GenerateVertices | lib/game-logic/mapGenerator.ts:196-240 | six fresh vertices per hex, and each hex lists its six |
| MapGenerator.EdgeKey | lib/game-logic/mapGenerator.ts:264-270 | the order-independent key of a vertex pair |
| MapGenerator.EdgeKeySymmetric | lib/game-logic/mapGenerator.ts:264-270 | two pairs share a key exactly when they are the same unordered pair |
| MapGenerator.AddSide | lib/game-logic/mapGenerator.ts:262-292 | a hex side gets the existing edge with its key or a new one |
| MapGenerator.AddHexEdges | lib/game-logic/mapGenerator.ts:258-294 | all six sides of a hex are recorded |
| MapGenerator.GenerateEdges | lib/game-logic/mapGenerator.ts:252-297 | edge ids are their positions, no two edges share a key, and every hex lists an edge for each of its sides |
| MapGenerator.AddEnds | lib/game-logic/mapGenerator.ts:328-336 | the neighbour list gains the other end of each edge |
| MapGenerator.NeighbourIds | lib/game-logic/mapGenerator.ts:326-337 | the loop computes the specified neighbours |
| MapGenerator.CalculateNeighbors | lib/game-logic/mapGenerator.ts:309-342 | every vertex gets the edges touching it and the vertices across them; nothing else changes |
| MapGenerator.EdgesAtCharacterised | lib/game-logic/mapGenerator.ts:314-316 | a vertex's edges are exactly those with it as an end |
| MapGenerator.NeighboursViaCharacterised | lib/game-logic/mapGenerator.ts:326-337 | the neighbours are exactly the other ends of the listed edges |
| MapGenerator.NeighboursOfCharacterised | lib/game-logic/mapGenerator.ts:309-342 | two vertices are neighbours exactly when an edge joins them |
| MapGenerator.NeighbourGraphShape | lib/game-logic/mapGenerator.ts:309-342 | the neighbour relation is symmetric and no vertex is its own neighbour |
| MapGenerator.TerrainHexes | lib/game-logic/mapGenerator.ts:131-153 | the grid after terrain assignment |
| MapGenerator.NumberedHexes | lib/game-logic/mapGenerator.ts:164-185 | the grid after number assignment |
| MapGenerator.BoardHexes | lib/game-logic/mapGenerator.ts:27-85 | the final hexes, one per terrain |
| MapGenerator.BoardVertices | lib/game-logic/mapGenerator.ts:27-85 | 114 vertices |
| MapGenerator.NumberedGrid | lib/game-logic/mapGenerator.ts:36-48 | the array after both shuffles holds the specified numbered grid |
| MapGenerator.GenerateMap | lib/game-logic/mapGenerator.ts:27-85 | hexes and vertices as specified; 114 edges, numbered in order, empty, one per hex side |
| MapGenerator.Neighbours | lib/game-logic/mapGenerator.ts:309-342 | the neighbour pass yields the specified vertices |
| MapGenerator.BoardEdgeKeys | lib/game-logic/mapGenerator.ts:252-297 | the k-th edge is side k mod 6 of hex k / 6 |
| MapGenerator.NonDesertCount | lib/game-logic/mapGenerator.ts:175-183 | every hex is either desert or producing |
| MapGenerator.TokensInRange | lib/constants/game.constants.ts:125-136 | any permutation of the tokens has 18 entries in 2..12 and never 7 |
| MapGenerator.TokenSlotsInRange | lib/game-logic/mapGenerator.ts:180-181 | with one desert among 19 hexes, the token index never passes 17 |
| MapGenerator.BoardHexesShape | lib/game-logic/mapGenerator.ts:27-85 | for any 19-terrain arrangement with one desert and any token permutation: ids 0..18, unique, the robber exactly on the desert, 18 producing hexes, a number on every hex but the desert, every number in 2..12 and not 7 |
| MapGenerator.BoardHexesProperties | lib/game-logic/mapGenerator.ts:27-85 | the generated hexes have those properties and exactly the terrain distribution |
| MapGenerator.BoardVerticesProperties | lib/game-logic/mapGenerator.ts:27-85 | 114 empty vertices with unique ids, each on its hex, with a symmetric irreflexive neighbour relation |
| GameUtils.CreatePlayer | lib/utils/gameUtils.ts:62-92 | the new player carries the given id, name, color and kind |
| GameUtils.NewPlayerHoldsNothing | lib/utils/gameUtils.ts:62-92 | a new player holds no cards, can afford nothing, has 5 settlements, 4 cities and 15 roads, and has not won |
| GameUtils.GetPlayerById | lib/utils/gameUtils.ts:169-174 | absent exactly when no player has the id; otherwise a player with that id |
| GameUtils.CheckVictory | lib/utils/gameUtils.ts:250-254 | true iff the stored points reach 10 |
| GameUtils.InitialDeck | lib/utils/gameUtils.ts:112-113 | the shuffled deck has all 25 cards |
| GameUtils.CreateInitialGameState | lib/utils/gameUtils.ts:106-157 | no state without players; otherwise initial placement, round 1, turn 1, first player to act, the shuffled deck, no badges, no roll |
| GameUtils.InitialStateProperties | lib/utils/gameUtils.ts:106-157 | the initial deck is a permutation of the 25-card deck, and the state starts as the game requires |
| GameUtils.GetNextPlayer | lib/utils/gameUtils.ts:185-221 | a next player exists exactly when there are players, and is one of them |
| GameUtils.NextPlayerOrder | lib/utils/gameUtils.ts:185-221 | round 1 of placement goes forward and stays on the last player; round 2 goes back and stays on the first; the main game goes round-robin |
| GameUtils.MainGameRotates | lib/utils/gameUtils.ts:212-214 | with two or more players the turn always passes to someone else, and after the last comes the first |
| GameUtils.SettlementSites | lib/utils/gameUtils.ts:266-298 | no more sites than vertices |
| GameUtils.GetAvailableSettlementPositions | lib/utils/gameUtils.ts:266-298 | the loop returns the specified sites |
| GameUtils.SettlementSitesCharacterised | lib/utils/gameUtils.ts:266-298 | a listed site is exactly an empty vertex respecting the distance rule and touching the player's road |
| GameUtils.SettlementSitesAgree | lib/utils/gameUtils.ts:266-298 | for a player who can pay and has a settlement left, a vertex is offered exactly when `canBuildSettlement` allows it |
| GameUtils.RoadSites | lib/utils/gameUtils.ts:310-345 | no more sites than edges |
| GameUtils.GetAvailableRoadPositions | lib/utils/gameUtils.ts:310-345 | the loop returns the specified sites |
| GameUtils.RoadSitesCharacterised | lib/utils/gameUtils.ts:310-345 | a listed site is exactly a free edge connected to the player's network |
| GameUtils.RoadSitesAgree | lib/utils/gameUtils.ts:310-345 | for a player with a road left, an edge is offered exactly when `canBuildRoad` (initial mode, no cost) allows it |
| GameUtils.Plus | lib/utils/gameUtils.ts:398-404 | resources add per kind |
| GameUtils.Gains | lib/utils/gameUtils.ts:370-410 | a player's gains are the roll's yield over the given hexes |
| GameUtils.DistributeResources | lib/utils/gameUtils.ts:357-427 | the nested loop computes the specified distribution |
| GameUtils.CreditedByHexes | lib/utils/gameUtils.ts:370-410 | crediting hex by hex gives the specified players |
| GameUtils.CreditCorners | lib/utils/gameUtils.ts:385-408 | each built corner's owner gets 1 for a settlement and 2 for a city |
| GameUtils.NoGainWithoutHexes | lib/utils/gameUtils.ts:370-410 | without active hexes nobody gains |
| GameUtils.DistributionEffect | lib/utils/gameUtils.ts:357-427 | only resources change; each player gains exactly the roll's yield and never loses; a roll no unrobbed hex carries changes nothing |
| GameStore.Discarders | store/gameStore.ts:205-207 | at most one id per player |
| GameStore.DiscardersCharacterised | store/gameStore.ts:205-207 | an id is listed exactly when its player holds more than 7 cards |
| GameStore.RollEffect | store/gameStore.ts:173-220 | a 7 moves to robber activation and touches no hand; any other sum moves to actions and gives each player exactly the yield; only the dice, the phase and the hands change |
| GameStore.BuildingsPlaced | store/gameStore.ts:251 | at most one per vertex |
| GameStore.InitialPlacementSnake | store/gameStore.ts:246-287 | the placement turns follow the snake order 0, 1, …, n-1, n-1, …, 0, with round 2 after n buildings, then the main game starts with the first player rolling |
| GameStore.SnakeTurnsOfPlayer | store/gameStore.ts:246-287 | in the snake order every player gets exactly two turns, one in each round |
| GameStore.RejectedInitialRoadPassesTurn | store/gameStore.ts:243-287 | a rejected road in initial placement still passes the turn |
| GameStore.PlacedAfterBuilding | store/gameStore.ts:251 | a building on an empty vertex adds one to the count |
| GameStore.BuildingCounts | store/gameStore.ts:310-386 | a settlement adds at most one building and exactly one when allowed; a city leaves the count and the phase unchanged |
| GameStore.Rescored | store/gameStore.ts:405-411 | every player's points are recomputed |
| GameStore.FirstWinner | store/gameStore.ts:413-415 | absent iff nobody reaches 10; otherwise the first player who does |
| GameStore.RescoredPlayers | store/gameStore.ts:405-411 | rescoring changes only the stored points, which are never negative |
| GameStore.EndTurnScores | store/gameStore.ts:395-454 | ending a turn fails only without players, and then stores every recomputed score |
| GameStore.EndTurnWinner | store/gameStore.ts:413-430 | the game ends exactly when some player reaches 10; the winner is the first such player and the turn number is kept |
| GameStore.EndTurnAdvances | store/gameStore.ts:432-445 | without a winner in the main game the next seat rolls, and the turn number rises by one |
| GameStore.RobberActionEffect | store/gameStore.ts:613-646 | the robber action ends in the action phase, keeps a single robber, conserves every total when the victim is not the thief, and touches no hand without a victim |
| GameStore.Without | store/gameStore.ts:673 | the filtered list is never longer |
| GameStore.WithoutEffect | store/gameStore.ts:673 | every copy of the player's id is removed, and everything else is kept with its multiplicity |
| GameStore.Store.constructor | store/gameStore.ts:96-104 | no game and nobody waiting to discard |
| GameStore.Store.RollDice | store/gameStore.ts:173-220 | no game: nothing changes; otherwise the state becomes the specified roll, and on a 7 the discard list is the players holding more than 7 |
| GameStore.Store.BuildRoad | store/gameStore.ts:231-299 | the state becomes the specified road action; the discard list is kept |
| GameStore.Store.BuildSettlement | store/gameStore.ts:310-357 | the state becomes the specified settlement action |
| GameStore.Store.BuildCity | store/gameStore.ts:368-386 | the state becomes the specified city action |
| GameStore.Store.EndTurn | store/gameStore.ts:395-454 | the state becomes the specified end of turn; without players it stays as it was |
| GameStore.Store.MoveRobber | store/gameStore.ts:613-646 | the state becomes the specified robber action |
| GameStore.Store.DiscardResources | store/gameStore.ts:658-683 | the state becomes the specified discard and the player leaves the waiting list |

## Left out

- Randomness: `Math.random` in the shuffles, dice and theft is replaced by parameters. The dice are in 1..6, the swap indices satisfy `js[i] <= i`, and the theft index lies inside the victim's pool.
- Board size: the header comment of lib/game-logic/mapGenerator.ts:6 speaks of 54 vertices and 72 edges, but the code keys vertices by hex slot and corner, so no corner is shared and it builds 114 vertices and 114 edges. The model follows the code. A geometric board with shared corners is not modelled.
- Logging (`console.*`) and the store's UI fields: selection, build mode and highlighting. `highlightAvailablePositions` is left out except for the build-site queries it calls.
- `initializeGame` in the store and `rollDice` in the utilities: they only wire the generator, the player factory and the random dice together.
- `cloneGameState`: a deep copy, which is the identity on values.
- The AI, the UI components and the probability and colour tables.
- Port generation: the generator creates no ports. A missing `port` field, which the source pushes as `undefined`, is skipped when ports are listed, so trade ratios are unaffected.
- MapGenerator.NumberedHexes: reading past the shuffled tokens gives `undefined` in the source; it is modelled as no number. It cannot happen on the real tables (`MapGenerator.TokenSlotsInRange`).
- MapGenerator.EdgeKey: the source keys edges by the sorted pair of id strings; the model uses the ordered pair of vertex numbers. Both are order-independent and injective on unordered pairs.
- GameStore.EndTurnResult: with no players, `getNextPlayer` returns `undefined` and reading its id throws. This is modelled as no result, which leaves the store unchanged.
- GameStore.Store.MoveRobber: the store passes the victim's id through untouched. The theft index must be valid for the victim (`ValidPick`), because the source draws it from the victim's pool.
- Calculators.DfsRoadLength: the search counts a path's length as the source does, including the way it may revisit through a vertex. The model does not claim this is the length of the longest trail in graph-theoretic terms.
- Validators.CanPlayDevCard: the source accepts the turn number but never reads it, and neither does the model. No rule about cards bought or played in the same turn is enforced.
- Player counters are unbounded integers, as JavaScript numbers are for these magnitudes.

## Findings

| source | as written | input that shows it | evidently intended | confidence | as-written member | corrected member |
|---|---|---|---|---|---|---|
| lib/game-logic/tradingHandlers.ts:155-161 | both new counts are computed from the old hand and written with computed keys, so when `giving == receiving` the second key overwrites the first | a player with 4 wood and no port trades 4 wood for wood: the hand becomes 5 wood instead of 1 | pay first, then receive (a net loss of `amount - amount / ratio`) | high; not executed | Trading.BankTradeAsWritten | Trading.HandleBankTrade |
