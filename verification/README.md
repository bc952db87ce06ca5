# My4X game logic in Dafny

A model of the `game/` layer of My4X, a turn-based strategy game on a hex grid, and of the noise generator of its engine,
with proofs of what its algorithms and protocols promise.

## How the model is built

State that the game changes in place is modelled by classes with the same fields: `Map`, `TileRegistry`, `Unit`, `City`,
`BuildQueue`, `DiplomacyManager`, `GameState`, `GameSession`, `TurnManager`, `ReconnectionManager`, `PredictionManager`,
`FogOfWar`, `CombatLog`, `PerlinNoise`. Each class has a view as a value (`World`, `Table`, `Client`, ...), and each method
states its whole new state as a function of the old view, so that whole runs can be reasoned about on values. The validity
predicate of `GameState` says that the unit index agrees with the unit list; every operation that takes a state, from a
move to a reconciliation, an elimination or a load, is proved to keep it.

| files | subject |
|---|---|
| Common, Hex, Terrain, TileSets, Diplomacy | grid geometry, neighbour tables, terrain, ordered tile sets, relations |
| Units, Registry, Cities, Worlds, GameState | units, the spatial index, cities and build queues, the state as a value and as an object |
| ZoneOfControl, Routes, SearchState, Pathfinding, MovementRange, SearchRules | zones of control, the two A* searches, the budgeted fill, and their rules over the list of units |
| MapGenerator, Smoothing, PerlinNoise | spawn placement, terrain smoothing, gradient noise |
| Combat, Actions, ActionLaws, ActionRuns, MoveReach | the three player actions, what they mean, and runs of them |
| Predictions, PredictionManager | optimistic actions, rollback and replay |
| Disagreements, Scenarios | concrete states: on which the code surprises, and as examples of the laws |
| Economy, TurnResolver | what a turn does to cities, stockpiles and units |
| Protocol, ProtocolRuns, Sessions, Reconnection | players, turns, timeouts, elimination |
| FogOfWar, CombatLog | visibility over runs, the ring buffer |
| SaveFormat, Serialization | the saved message as a record, saving and loading |

Integers are unbounded, except that faction ids are 32 bits wide and their casts are written out; division truncates toward
zero where the game divides possibly negative numbers; times and noise are exact reals. The order in which hash tables are
walked and in which equal entries leave a priority queue is left open. Coordinates that the game looks up in its map must be
in the map, as its assertions demand.

## Where code and comments disagree

The model follows the code.

- The stale-entry checks of both A* searches (`game/src/Pathfinding.cpp:192-198`) compare a score with itself and never skip
  anything. Tiles are expanded again; the searches are proved to end and to be optimal all the same.
- A rejection re-queues later predictions with their old snapshots (`game/src/PredictionManager.cpp:82-84`). This is harmless
  exactly when the kept moves are by units that no lost prediction moved (`RejectKeepsChainIffUndisturbed`); otherwise a later
  rejection can misplace a unit (`RejectingBothMisplacesScout`).
- An eliminated player cannot reconnect, but registering it again lets it back in (`EliminatedStaysOut`).
- `turnsRemaining` is right unless the front item is already paid for (`ForecastIsExactUnlessPaid`,
  `FreeItemIsForecastTooEarly`).
- A turn duration of zero is documented as no deadline (`game/include/game/TurnManager.h:12`); the code lets such a turn
  expire at once (`StartedTurnExpires`).
- `applyAction` is documented to check that the unit belongs to the player (`game/include/game/GameSession.h:100`); the code
  only asks whether the player exists (`OwnershipIsNotChecked`, `ForeignUnitIsMoved`).
- `DestinationOccupied` is never returned (`MoveValidate`), and a move can enter a tile another faction holds
  (`OccupiedTileIsEntered`).
- Elimination compares the signed owner of a city with the unsigned faction id, while captures cast the one to the other
  (`EliminationMissesCitiesOfLargeIds`, `OwnerOfACityCountsAsEliminated`).
- A unit is saved by the name of its template only, so a template of a stock name with other stats is replaced on loading
  (`SaveLoadRoundTrip`, `OtherWarriorIsNotRestored`).

## Model

| member | source | states |
|---|---|---|
| Hex.DistanceIsMetric | game/src/Pathfinding.cpp:116-130 | hex distance is zero exactly on equal tiles, symmetric, and obeys the triangle inequality, on and off the map |
| Hex.DistanceIsMaxDelta | game/src/Pathfinding.cpp:116-130 | the final halving is exact: the distance is the largest cube-coordinate difference |
| Hex.StepPathIsLong | game/src/Pathfinding.cpp:116-148 | no sequence of neighbour steps, even one leaving the map, is shorter than the distance |
| Hex.ShortestStepPath | game/src/Pathfinding.cpp:116-148 | between any two map tiles a sequence of exactly that many neighbour steps exists that never leaves the map |
| Hex.DistanceBoundsRowAndColumn | game/src/FogOfWar.cpp:102-118 | rows and columns never differ by more than the distance, which is why a bounding box misses nothing |
| Hex.TablesGiveDistanceOne | game/src/TurnResolver.cpp:30-48 | every neighbour table, for either row parity, holds an offset exactly when it leads to distance 1 |
| Hex.NeighboursAreDistanceOne | game/src/NeutralAI.cpp:123-147 | all four tables (search, direction, turn, AI) list, once each, exactly the map tiles at distance 1 |
| Hex.HexNeighbours | game/src/Pathfinding.cpp:132-148 | the table loop returns exactly the map tiles at distance 1, without repeats |
| Hex.OppositeLeadsBack | game/include/game/HexDirection.h:24-82 | a step and then the opposite step leads back to the tile, and distinct directions lead to distinct tiles |
| Terrain.Map.SetTerrainType | game/src/Tile.cpp:13-13 | exactly one tile changes its terrain |
| Diplomacy.RelationsAreMutual | game/src/DiplomacyManager.cpp:9-61 | relations are mutual and nobody is at war with itself |
| Diplomacy.FactionIdRoundTrip | game/src/CaptureAction.cpp:73-79 | the casts between the signed city owner and the unsigned faction id lose nothing |
| Diplomacy.DiplomacyManager.GetRelation | game/src/DiplomacyManager.cpp:49-61 | an unset pair is at peace; a set pair has the state stored under its canonical key |
| Diplomacy.DiplomacyManager.SetRelation | game/src/DiplomacyManager.cpp:63-70 | setting a pair changes both directions of that pair and no other relation; a faction has no relation with itself |
| Diplomacy.DiplomacyManager.InitializeDefaults | game/src/DiplomacyManager.cpp:80-88 | the double loop gives every pair of listed factions its default relation, in order, repeated ids included |
| Diplomacy.LastPairDecides | game/src/DiplomacyManager.cpp:80-88 | of several listed pairs of the same two ids the last one decides |
| Diplomacy.OtherPairsKept | game/src/DiplomacyManager.cpp:80-88 | a pair of ids that no two listed factions have keeps its relation |
| Diplomacy.DistinctIdsGetDefaults | game/src/DiplomacyManager.cpp:80-88 | with distinct ids every listed pair ends up with its default relation |
| Diplomacy.WhoStartsAtWar | game/src/DiplomacyManager.cpp:13-47 | by default two players are at war, and a hostile faction with anyone not hostile; everybody else is at peace, in either order |
| Units.LevelIsMonotone | game/src/Unit.cpp:87-97 | the level is determined by the experience, and more experience never lowers it |
| Units.LevelsTake | game/src/Unit.cpp:87-97 | the levels are reached at 100, 250, 500, 750 and 1000 points of experience |
| Units.GainMeans | game/src/Unit.cpp:64-76 | gaining experience adds it if positive, fits the level to the sum, and the flag tells of any level gained so far; nothing else changes |
| Units.Unit.MoveTo | game/src/Unit.cpp:15-21 | a paid move changes position and movement only, and keeps movement within bounds |
| Units.Unit.TakeDamage | game/src/Unit.cpp:32-35 | health drops by the damage and stops at zero; nothing else changes |
| Units.Unit.SetHealth | game/src/Unit.cpp:47-47 | health is clamped to the range of the template |
| Units.Unit.SetMovementRemaining | game/src/Unit.cpp:48-50 | movement is clamped to the range of the template |
| Units.Unit.ResetMovement | game/src/Unit.cpp:46-46 | movement is refilled; nothing else changes |
| Units.Unit.AddExperience | game/src/Unit.cpp:64-76 | the level fits the new experience, the result says whether it rose, and the flag is raised but never lowered |
| Units.Unit.SetExperience | game/src/Unit.cpp:78-81 | experience is clamped at zero and the level recomputed |
| Units.Unit.RecomputeLevel | game/src/Unit.cpp:87-97 | the threshold loop finds the level that counts the reached thresholds |
| Registry.AgreesAfterAdd | game/src/TileRegistry.cpp:15-15 | registering a new unit keeps the index in agreement with the longer unit list |
| Registry.AgreesAfterRemove | game/src/TileRegistry.cpp:17-27 | unregistering a unit keeps agreement with the shorter list and leaves no empty entry |
| Registry.AgreesAfterMove | game/src/TileRegistry.cpp:15-27 | unregister, move, register keeps agreement with the list of moved positions |
| Registry.AgreeingIndexHasListOccupancy | game/src/TileRegistry.cpp:45-51 | scans that read an agreeing index see exactly the factions of the listed units on every tile |
| Registry.TileRegistry.RegisterUnit | game/src/TileRegistry.cpp:15-15 | the unit is appended to the entry of its tile |
| Registry.TileRegistry.UnregisterUnit | game/src/TileRegistry.cpp:17-27 | every occurrence of the unit leaves the entry of the tile, and an empty entry is dropped |
| Registry.TileRegistry.OccupiedMeansFound | game/src/TileRegistry.cpp:53-56 | a tile counts as occupied exactly when some lookup finds something on it |
| ZoneOfControl.FindAdjacentEnemyFactions | game/src/ZoneOfControl.cpp:16-40 | the nested loops list, once each, exactly the factions at war with the mover that stand next to the tile |
| ZoneOfControl.IsInEnemyZoc | game/src/ZoneOfControl.cpp:44-47 | true exactly when some enemy faction stands next to the tile |
| ZoneOfControl.IsMovementBlockedByZoc | game/src/ZoneOfControl.cpp:49-68 | true exactly when one and the same enemy controls both ends of the step |
| ZoneOfControl.NoWarNoZoc | game/src/ZoneOfControl.cpp:16-68 | a faction at war with nobody is never in a zone of control and never blocked by one |
| Routes.Travel.HeuristicIsAdmissible | game/src/Pathfinding.cpp:116-130 | no walk costs less than the distance of its ends |
| Routes.Travel.CostAtLeastSteps | game/include/game/TerrainType.h:61-100 | every step of a walk costs at least 1, since every passable terrain does |
| SearchState.PushKeepsInv | game/src/Pathfinding.cpp:95-112 | improving a tile keeps the search invariant: scores along parent chains strictly fall, and every unsettled tile is queued |
| SearchState.TopGoalIsOptimal | game/src/Pathfinding.cpp:178-190 | when the goal is popped, its score is at most the cost of every walk to it |
| SearchState.EmptyQueueMeansUnreachable | game/src/Pathfinding.cpp:178-213 | when the queue runs empty no walk reaches the goal |
| SearchState.PushLowersPotential | game/src/Pathfinding.cpp:95-112 | every push lowers (tiles without score, sum of scores) lexicographically, so the searches end although tiles are expanded again |
| Pathfinding.BlockedAgrees | game/src/Pathfinding.cpp:68-79 | a tile is blocked on map and index exactly when the route rules say so; what those rules are on a state is SearchRules.PlainStepIff |
| Pathfinding.ReconstructPath | game/src/Pathfinding.cpp:82-92 | following parents from the goal ends at the start and, reversed, gives a walk no dearer than the score, without repeats |
| Pathfinding.TryExpandNeighbor | game/src/Pathfinding.cpp:95-112 | one expansion keeps the invariant, lowers scores only, and leaves the neighbour no dearer than through the current tile |
| Pathfinding.FindPath | game/src/Pathfinding.cpp:150-213 | a path is a repeat-free walk of legal steps (SearchRules.PlainStepIff) to the goal of least total cost, and there is none exactly when start is goal or no walk reaches the goal, as when it is blocked; no unit the index holds on the path is of another faction |
| Pathfinding.FindPathWithZoc | game/src/Pathfinding.cpp:215-282 | the same under zone-of-control rules (SearchRules.ZocStepIff): no tile strictly between the ends is in enemy control, no step joins two tiles of one enemy, the cost is least among all such walks, and there is none for distinct ends exactly when no such walk exists; no unit on the path is of another faction |
| Pathfinding.ZocWalkIsLegal | game/src/Pathfinding.cpp:257-280 | every repeat-free walk of the zone-of-control search obeys both rules |
| Pathfinding.BlockedGoalUnreachable | game/src/Pathfinding.cpp:157-160 | no walk reaches a blocked goal, so returning early loses nothing |
| MovementRange.FinalCostsAreExact | game/src/Pathfinding.cpp:284-349 | after the fill a tile has a cost exactly when that cost is its least and within budget |
| MovementRange.OfferCost | game/src/Pathfinding.cpp:315-336 | one relaxation keeps a witness walk for every recorded cost and the frontier invariant |
| MovementRange.ComputeMovementRange | game/src/Pathfinding.cpp:284-349 | the result lists, once each, precisely the tiles other than the start whose least cost is within the budget, with that cost; no unit the index holds on a reported tile is of another faction |
| MovementRange.RelaxAll | game/src/Pathfinding.cpp:313-338 | relaxing all neighbours within the budget settles the popped tile |
| SearchRules.PlainStepIff | game/src/Pathfinding.cpp:68-79 | on a valid state a step of the plain search is legal exactly when it leads to a map tile at distance 1 with passable terrain on which every listed unit is of the faction of the mover |
| SearchRules.ZocStepIff | game/src/Pathfinding.cpp:257-280 | under zone-of-control rules, moreover, it leaves the start or a tile no enemy at war has listed units next to, and no such enemy has units next to both ends |
| SearchRules.PathsAvoidForeignUnits | game/src/Pathfinding.cpp:150-282 | no tile of a path of either search is impassable or held by a listed unit of another faction |
| SearchRules.ReportedTilesAreFree | game/src/Pathfinding.cpp:284-349 | nor is any tile the movement range reports |
| MapGenerator.SpawnsAreWithinFactorTwo | game/src/MapGenerator.cpp:189-226 | if as many allowed tiles exist pairwise at least d apart, the chosen spawns are pairwise at least d/2 apart |
| MapGenerator.SpawnsAreDistinct | game/src/MapGenerator.cpp:202-224 | with enough allowed tiles no two spawns coincide |
| MapGenerator.FirstSpawnIsCentral | game/src/MapGenerator.cpp:170-207 | no allowed tile has the smaller Euclidean distance to the centre than the first spawn, or is nearer along one axis and no farther along the other; every spawn is passable and at least two tiles from each border |
| MapGenerator.ChebyshevIsSquare | game/src/MapGenerator.cpp:215-221 | being within d of a tile means being in the square of half-width d around it |
| MapGenerator.CollectCandidates | game/src/MapGenerator.cpp:170-179 | the candidates are exactly the passable tiles inside the border margin |
| MapGenerator.ClosestToCentre | game/src/MapGenerator.cpp:191-207 | the first spawn is a candidate closest to the centre |
| MapGenerator.DistanceToSpawns | game/src/MapGenerator.cpp:215-221 | the inner loop finds the Chebyshev distance to the nearest existing spawn |
| MapGenerator.FarthestCandidate | game/src/MapGenerator.cpp:210-225 | the next spawn is a candidate farthest from its nearest existing spawn |
| MapGenerator.FindSpawnPoints | game/src/MapGenerator.cpp:169-227 | every spawn is allowed, the first is closest to the centre, each later one is farthest from the earlier ones, and there are as many as asked for unless no tile is allowed or none is asked for |
| Smoothing.SmoothedIsUnique | game/src/MapGenerator.cpp:144-165 | the simultaneous update of all tiles has one result, so rewriting in place from a snapshot can give nothing else |
| Smoothing.SmoothingFollowsSurroundings | game/src/MapGenerator.cpp:125-138 | a tile never becomes a terrain rarer around it than its own, and only its own or one next to it |
| Smoothing.SmoothingInFigures | game/src/MapGenerator.cpp:105-165 | the tiles around a tile are the up to eight others in the square around it; with at least four of its own terrain among them it stays, with fewer it becomes a terrain that the largest number of them have |
| Smoothing.NoTerrainAppears | game/src/MapGenerator.cpp:144-165 | after any number of passes no terrain type appears that the map did not have |
| Smoothing.CountSameNeighbours | game/src/MapGenerator.cpp:105-122 | counts the surrounding tiles and those of the same terrain |
| Smoothing.MostCommonNeighbour | game/src/MapGenerator.cpp:125-138 | returns the most frequent surrounding terrain, the earliest of the enumeration on a tie |
| Smoothing.SmoothOnce | game/src/MapGenerator.cpp:146-163 | one pass over the map in place is the simultaneous update of the map before it |
| Smoothing.SmoothMap | game/src/MapGenerator.cpp:144-165 | the given number of simultaneous updates, none for a negative number |
| GameStates.GameState.UnitsAtIsExact | game/src/TileRegistry.cpp:45-51 | in every valid state a unit is returned for a tile exactly when it is listed and stands there, and only once |
| GameStates.GameState.IndexShowsBoard | game/src/TileRegistry.cpp:45-51 | in every valid state scans of the index see the occupancy of the unit list |
| GameStates.GameState.AddUnit | game/src/GameState.cpp:137-141 | the unit joins the end of the list, the index keeps agreeing, and its position in the list is returned |
| GameStates.GameState.RemoveUnit | game/src/GameState.cpp:143-150 | the unit leaves the list and the index; an index out of range changes nothing and is reported |
| GameStates.GameState.RemoveDeadUnits | game/src/GameState.cpp:152-178 | exactly the dead leave, in order, and their number is returned; the selection stays on its unit if that lives and is cleared if it died, a negative one is left alone and one past the end is shifted |
| GameStates.GameState.AddCity | game/src/GameState.cpp:36-41 | the city gets the next id and only its centre tile is registered |
| GameStates.GameState.RestoreCity | game/src/GameState.cpp:83-89 | the city keeps its id and every one of its tiles is registered |
| GameStates.GameState.AddBuilding | game/src/GameState.cpp:97-106 | the building gets the next id, joins the list, and only its first tile, if any, is registered |
| GameStates.GameState.RestoreBuilding | game/src/GameState.cpp:123-129 | the building joins the list with its id and every one of its tiles is registered |
| GameStates.GameState.NextTurn | game/src/GameState.cpp:16-16 | only the turn number changes, by one |
| GameStates.GameState.constructor | game/src/GameState.cpp:9-13 | a new state has turn 1, empty lists, an empty index, id counters at 1, and fog of the size of the map in which nothing has been seen |
| GameStates.GameState.RecalculateFog | game/src/GameState.cpp:212-212 | the fog of the faction remembers the units and cities of this state as seen now; the game itself stays as it is |
| Combat.CombatIsSound | game/src/Combat.cpp:21-48 | damage is at least 1 and at most the health left, deaths are exact, at most one side dies, and there is a counter strike exactly from a surviving melee defender to a non-ranged attack |
| Combat.DamageIsMonotone | game/src/Combat.cpp:10-17 | more attack never lowers the damage and more defence or terrain bonus never raises it, truncation included |
| Combat.NegativeDefenceRoundsToZero | game/src/Combat.cpp:10-17 | truncating division gives the floored result exactly when the effective defence is not negative and odd |
| Actions.MoveValidate | game/src/MoveAction.cpp:17-60 | the checks, in order, give the specified verdict, which is never `DestinationOccupied` |
| Actions.MoveExecute | game/src/MoveAction.cpp:62-85 | a valid move relocates the unit in list and index and deducts the terrain cost; an invalid one changes nothing |
| Actions.AttackValidate | game/src/AttackAction.cpp:27-74 | the checks, in order, give the specified verdict on the state as a value |
| Actions.ApplyCombat | game/src/AttackAction.cpp:104-139 | damage, experience and movement end as specified for both units, whatever the order of the calls |
| Actions.AttackExecute | game/src/AttackAction.cpp:76-154 | a valid attack applies the combat result, pays one movement point, removes the dead from list and index, and reports the combat; an invalid one changes nothing; the figures are those of ActionLaws.BlowsAreExact |
| Actions.IsCityDefended | game/src/CaptureAction.cpp:124-136 | the scan of the index finds a living unit of the owner on a city tile exactly when there is one |
| Actions.FindCityCentreAt | game/src/CaptureAction.cpp:115-122 | returns the first city centred on the tile |
| Actions.CaptureValidate | game/src/CaptureAction.cpp:14-59 | the checks, in order, give the specified verdict |
| Actions.IsFactionEliminated | game/src/CaptureAction.cpp:97-113 | true exactly when no city has the id as its signed owner number and no living unit is of the faction |
| Actions.CaptureExecute | game/src/CaptureAction.cpp:61-95 | a valid capture hands the city over and clears its queue, and reports whether the old owner is now eliminated; an invalid one changes nothing |
| Actions.Execute | game/src/PredictionManager.cpp:73-84 | any action has exactly the effect of the value-level step and reports whether it executed |
| ActionLaws.HoldersExert | game/src/ZoneOfControl.cpp:16-40 | over the list of units: an enemy faction holds a tile exactly when it is at war and one of its listed units stands on a map tile at distance 1 |
| ActionLaws.MoveExecutesIff | game/src/MoveAction.cpp:17-60 | a move executes exactly when a living unit can pay for a passable map tile at distance 1 and no one enemy has units next to both ends; nothing else is refused |
| ActionLaws.AttackExecutesIff | game/src/AttackAction.cpp:27-74 | an attack executes exactly between living units of factions at war, with a movement point left and the target in range |
| ActionLaws.CaptureExecutesIff | game/src/CaptureAction.cpp:14-59 | a capture executes exactly when a living unit stands on the centre of a city and, of the first such city, the owner is at war with it and has no living unit on its tiles |
| ActionLaws.CaptureHandsOver | game/src/CaptureAction.cpp:61-95 | the city ends up with the faction of the unit, an empty queue and no progress, everything else stays, and the faction cannot capture it again |
| ActionLaws.BlowsAreExact | game/src/AttackAction.cpp:86-107 | the health both fighters keep, in figures: half of defence plus the ground under the one that is hit is held against the attack, at least one point is lost, and only a surviving melee target within one tile strikes back |
| ActionLaws.TargetsGroundProtectsTarget | game/src/AttackAction.cpp:94-97 | better ground under the target never leaves it less health, and over equal ground there it keeps the same, whatever the ground under the attacker and elsewhere |
| ActionLaws.AttackersGroundProtectsAttacker | game/src/AttackAction.cpp:99-100 | the same of the attacker and the counter strike, as long as the other ground does not decide whether the target lives to strike |
| ActionLaws.DeadAreRemoved | game/src/AttackAction.cpp:133-151 | of the units after the blows exactly the dead one leaves, if one is dead, and everybody else and the rest of the world stay as they were |
| ActionLaws.ExperienceIsForDamage | game/src/AttackAction.cpp:110-131 | the experience gained is three times the health the enemy lost, fifty for its death and ten for the target that stood it, none for the dead; the attacker pays one movement point |
| Scenarios.HillsProtectTheirUnit | game/src/AttackAction.cpp:94-103 | a warrior on plains deals 9 to a warrior on hills and 10 to one on plains, and takes 10 either way |
| ActionRuns.CaptureGarrisonsOneMore | game/src/CaptureAction.cpp:61-136 | a capture garrisons exactly the captured city, which had no living owner unit before |
| ActionRuns.ActionLowersPotential | game/src/CaptureAction.cpp:61-95 | every executed move, attack or capture lowers the sum of movement, or keeps all units and lowers the number of ungarrisoned cities; and it keeps all bounds |
| ActionRuns.RunsAreBounded | game/src/MoveAction.cpp:62-85 | a run of successful actions is no longer than the fall of the potential, so there is no infinite run within a turn |
| MoveReach.ReportedTilesAreReached | game/src/MoveAction.cpp:17-85 | at war with nobody, every tile the range reports is reached by moves that all succeed and leave budget minus the reported cost |
| MoveReach.MovesStayInRange | game/src/MoveAction.cpp:17-85 | with only own units on the map, whatever moves are made, the unit ends on a reported tile or the start, with no more movement than budget minus its cost |
| MoveReach.RangeIsWhatMovesReach | game/src/Pathfinding.cpp:284-349 | with only own units on the map, the tiles some run of moves reaches are exactly those of least cost within the budget |
| MoveReach.RangeTravelIsSearched | game/src/Pathfinding.cpp:284-349 | on a valid state the rules about which runs of moves reason are those the search follows on map and index |
| MoveReach.RangeOfUnit | game/src/Pathfinding.cpp:284-349 | the computed range of a unit of a valid state reports, with only own units on the map, exactly the other tiles that some run of successful moves brings it to |
| Predictions.RollbackUndoesMove | game/src/PredictionManager.cpp:186-205 | rolling back a move that was just made restores the state before it |
| Predictions.RollbackRestores | game/src/PredictionManager.cpp:53-66 | rolling back a suffix of the queue, newest first, restores the state before its first move |
| Predictions.RejectReplaysFromBefore | game/src/PredictionManager.cpp:46-89 | with snapshots taken just before each move, rejecting entry k gives the state before it with the later moves replayed and failing ones skipped, and the queue is the earlier entries and the successful ones in order |
| Predictions.PredictExtendsChain | game/src/PredictionManager.cpp:16-32 | predicting a move keeps the queue a chain of true snapshots |
| Predictions.ConfirmOldestKeepsChain | game/src/PredictionManager.cpp:34-44 | confirming the oldest prediction keeps the chain |
| Predictions.ConfirmTakesOneEntry | game/src/PredictionManager.cpp:34-44 | confirming a pending id, wherever it stands, takes its entry and no other; the rest keep their order, state and next id stay |
| Predictions.ConfirmingUnknownIsNothing | game/src/PredictionManager.cpp:38-40 | an id that is not pending changes nothing |
| Predictions.ConfirmationsCommute | game/src/PredictionManager.cpp:34-44 | confirming two ids in either order leads to the same client |
| Predictions.RejectKeepsChainIffUndisturbed | game/src/PredictionManager.cpp:68-87 | the queue after a rejection is a chain of true snapshots ending in the new state, through whatever states, if and only if no kept move is by a unit that an earlier lost prediction moved |
| Predictions.ReconcileAdoptsServer | game/src/PredictionManager.cpp:91-144 | with units of the same kinds and nothing pending, reconciling adopts the server position, health and movement of every unit and its turn |
| Predictions.RejectingLastMoveOfUnit | game/src/PredictionManager.cpp:46-89 | in peace, rejecting a move after which its unit was not moved again loses no other prediction and leaves such a chain |
| Predictions.ReconcileWithBaseChangesNothing | game/src/PredictionManager.cpp:91-144 | reconciling with a server that shows the state a queue of moves started from replays every move and changes neither state nor queue |
| Predictions.RunKeepsIds | game/src/PredictionManager.cpp:16-144 | over any run of predictions, confirmations, rejections and reconciliations, pending ids stay distinct and ascending |
| PredictionManagers.PredictionManager.CaptureSnapshot | game/src/PredictionManager.cpp:157-184 | the snapshot holds the acting unit before the action |
| PredictionManagers.PredictionManager.PredictAction | game/src/PredictionManager.cpp:16-32 | the action is tried on the state and queued under a fresh id with that snapshot exactly if it executed |
| PredictionManagers.PredictionManager.ConfirmAction | game/src/PredictionManager.cpp:34-44 | the first entry with the id leaves the queue and the state stays, as Predictions.ConfirmTakesOneEntry describes it; an unknown id changes nothing and is reported |
| PredictionManagers.PredictionManager.RejectAction | game/src/PredictionManager.cpp:46-89 | rollback of the suffix, removal and replay, on units and index, as specified on values |
| PredictionManagers.PredictionManager.RollbackPrediction | game/src/PredictionManager.cpp:186-205 | position, health and movement of the acting unit are put back, in list and index |
| PredictionManagers.PredictionManager.Reapply | game/src/PredictionManager.cpp:73-87 | the replay keeps exactly the predictions that succeed, in order |
| PredictionManagers.PredictionManager.Reconcile | game/src/PredictionManager.cpp:91-144 | the server data is adopted index by index, then every pending prediction is replayed on it; the number kept is returned |
| FogOfWar.ApplyVision | game/src/FogOfWar.cpp:102-118 | the bounding-box scan makes visible every map tile within range of the centre and touches no other |
| FogOfWar.SetChangesOneTile | game/src/FogOfWar.cpp:98-100 | the linear index is in range and gives every tile its own entry |
| FogOfWar.FogOfWar.Recalculate | game/src/FogOfWar.cpp:27-57 | the grids of all factions go on showing what the run of recalculations, extended by this one, has seen |
| FogOfWar.FogOfWar.GetVisibility | game/src/FogOfWar.cpp:19-25 | a query answers what the run of recalculations has seen of the tile; unexplored without a grid |
| FogOfWar.OneRecalculation | game/src/FogOfWar.cpp:27-57 | afterwards a tile is visible exactly when a friendly unit or city tile has it in range, explored exactly when it is not but was seen before, and no other faction notices |
| FogOfWar.SeesIff | game/src/FogOfWar.cpp:39-56 | a map tile is seen exactly within the sight range of some listed unit of the faction or within three of some tile of one of its cities |
| FogOfWar.VisibilityInClosedForm | game/src/FogOfWar.cpp:27-57 | over any run a tile is unexplored exactly when no recalculation for the faction ever saw it, and visible exactly when the latest one did |
| FogOfWar.SeenStaysSeen | game/src/FogOfWar.cpp:31-37 | over any run a seen tile never becomes unexplored again |
| SaveFormat.SaveLoadRoundTrip | game/src/Serialization.cpp:131-328 | loading a saved state restores everything that is saved if and only if every unit has a stock template and every building order carries the name of one of the game's factories and holds that factory; then saving again gives the same message |
| SaveFormat.SavingFailsOnUnknownNames | game/src/Serialization.cpp:77-88 | saving fails exactly when some unit has a template name the format does not know |
| SaveFormat.NothingElseIsLost | game/src/Serialization.cpp:131-328 | after saving and loading a saveable state, turn, terrain, cities, buildings, resources and id counters are what they were, and every unit is but for its level-up flag |
| SaveFormat.UnitCodesAreFixed | game/src/Serialization.cpp:77-102 | warrior, archer and settler have the codes 1, 2 and 3; zero is refused as unspecified and any other number as unknown |
| SaveFormat.TerrainCodesAreFixed | game/src/Serialization.cpp:34-75 | the code of a terrain is its place in the enumeration, and no other number is read |
| SaveFormat.TerrainIsRestored | game/src/Serialization.cpp:138-150 | the written tiles, painted on any map of the size, give the written terrain back |
| SaveFormat.UnitRoundTrip | game/src/Serialization.cpp:206-322 | a unit comes back, but for its level-up flag, exactly when its template is a stock template; the level is recomputed right |
| SaveFormat.CityRoundTrip | game/src/Serialization.cpp:153-291 | a city comes back with tiles, surplus and queue exactly when its building orders are of the game's factories and named by them |
| SaveFormat.ItemRoundTrip | game/src/Serialization.cpp:172-285 | an order comes back exactly when it is a unit order or of one of the game's factories and named by it |
| SaveFormat.BuildingRoundTrip | game/src/Serialization.cpp:187-311 | every building comes back, tiles and allowed terrains included |
| SaveFormat.SavingAgainGivesSameMessage | game/src/Serialization.cpp:131-226 | what is not saved has no influence on the message |
| Serialization.SerializeGameState | game/src/Serialization.cpp:131-226 | the loops write exactly the specified message, or fail with the first unknown unit name |
| Serialization.DeserializeGameState | game/src/Serialization.cpp:228-328 | the loader builds a valid state, unit index included, showing exactly what the message says, or stops at the first entry it cannot read |
| Serialization.LoadUnits | game/src/Serialization.cpp:313-322 | units are rebuilt and registered one by one |
| Serialization.SaveLoadSave | game/src/Serialization.cpp:131-328 | on objects: saving a saveable state and loading it gives back all that is saved, and saving again gives the same message |
| Protocol.AdvanceIsExact | game/src/TurnManager.cpp:56-82 | the turn rises by exactly one, with all flags cleared and the clock restarted, exactly when a turn is in progress, there are players, and all connected ones have ended or time is up; otherwise nothing changes |
| Protocol.DeadlineForcesAdvance | game/src/TurnManager.cpp:56-113 | past the deadline of a turn in progress, trying to advance with at least one player always succeeds and clears every flag |
| Protocol.StartedTurnExpires | game/src/TurnManager.cpp:38-54 | a turn expires exactly when its duration is over, a duration of zero being no exception |
| Protocol.StepKeepsAgreement | game/src/ReconnectionManager.cpp:14-112 | every event, player actions included, keeps both tables listing the same players with the same connections, and moves the turn only by advancing it |
| Protocol.RunKeepsAgreement | game/src/ReconnectionManager.cpp:14-112 | over any run both tables agree and the turn is the number of successful advances later |
| Protocol.EliminationIsDue | game/src/ReconnectionManager.cpp:46-112 | a player is eliminated only when its stored time of disconnection, which ProtocolRuns.OfflineSince ties to the event, is the timeout ago; then both tables and all units of the faction are cleared |
| Protocol.EliminateAllFacts | game/src/ReconnectionManager.cpp:92-112 | eliminating several players in any order removes exactly them and exactly the units of their factions |
| Protocol.EliminatedStaysOut | game/src/ReconnectionManager.cpp:46-60 | an eliminated player is back in the tables after an event if and only if the event registers it again; reconnecting fails and changes nothing |
| Protocol.EliminatedNeverReturn | game/src/ReconnectionManager.cpp:46-86 | over any run without a new registration an eliminated player stays out |
| Protocol.OwnershipIsNotChecked | game/src/GameSession.cpp:90-106 | what handing in an action does depends on the player only through being in the session |
| Protocol.TryAdvanceOutcome | game/src/TurnManager.cpp:56-82 | the branches of an attempt to advance in one condition and one outcome |
| ProtocolRuns.EliminationHasACause | game/src/ReconnectionManager.cpp:30-112 | over any run, a player connected at the start and newly eliminated at some time went offline in an earlier event, at least the timeout before, and did not reconnect in between |
| ProtocolRuns.OfflinePlayerGoesWhenDue | game/src/ReconnectionManager.cpp:30-112 | over any run, a player who went offline at time t and has not come back is eliminated by a check at time now exactly when now - t has reached the timeout; with its faction it can reconnect before that and not after |
| ProtocolRuns.OfflineSince | game/src/ReconnectionManager.cpp:38-39 | over any run, as long as such a player stays away, the table holds its faction, that it is not connected, and the time of the event in which it went offline |
| ProtocolRuns.OtherReconnectionsChangeNothing | game/src/ReconnectionManager.cpp:48-65 | a reconnection of an eliminated, unknown or connected player, or under another faction, changes nothing |
| ProtocolRuns.TurnIsOverWhen | game/src/TurnManager.cpp:9-54 | over any run of events within a turn, it is over when its duration has passed since the start, or a grace period above zero since the first player of the session ended it; later endings do not count |
| ProtocolRuns.EndingIsOnesOwn | game/src/TurnManager.cpp:18-34 | ending the turn raises the flag of that player and of nobody else |
| ProtocolRuns.TurnAdvancesIff | game/src/TurnManager.cpp:56-82 | an attempt raises the turn number exactly when a turn is in progress, there are players, and every connected one has ended it or its deadline or active grace deadline has come |
| ProtocolRuns.TurnWaitsForNewcomer | game/src/GameSession.cpp:14-25 | a player who registers during a turn is waited for: the turn does not advance until its time is up |
| Sessions.GameSession.ApplyAction | game/src/GameSession.cpp:90-106 | the outcome and the new state are those of the protocol: only an unknown player is refused |
| Sessions.GameSession.EndTurn | game/src/GameSession.cpp:110-117 | the flag of a known player is set and no other |
| Sessions.GameSession.TryAdvanceTurn | game/src/GameSession.cpp:130-137 | the turn is resolved and all flags cleared exactly when there are players and every connected one has ended |
| Sessions.GameSession.ResetTurnFlags | game/src/GameSession.cpp:149-153 | the loop clears every flag |
| Sessions.TurnManager.StartTurn | game/src/TurnManager.cpp:9-16 | the clock is set for a new turn |
| Sessions.TurnManager.PlayerEndTurn | game/src/TurnManager.cpp:18-34 | a known player is marked in session and ready set, and the first one to end opens the grace period if there is one |
| Sessions.TurnManager.IsExpired | game/src/TurnManager.cpp:38-54 | expired exactly past the deadline, or past the grace deadline once that is active |
| Sessions.TurnManager.ForceEndRemainingPlayers | game/src/TurnManager.cpp:106-113 | every connected player who has not ended is ended, and nobody else |
| Sessions.TurnManager.TryAdvance | game/src/TurnManager.cpp:56-82 | on the session objects, an attempt to advance is the step of the protocol |
| Sessions.GameSession.AddPlayer | game/src/GameSession.cpp:14-25 | an unknown player joins connected and with the turn open; a known one is left as it is |
| Reconnection.EliminatePlayerUnits | game/src/ReconnectionManager.cpp:142-150 | the backward loop removes exactly the units of the faction, from list and index, keeping the order of the rest |
| Reconnection.ReconnectionManager.RegisterPlayer | game/src/ReconnectionManager.cpp:14-24 | an unknown player is entered as connected, even one eliminated before |
| Reconnection.ReconnectionManager.HandleDisconnect | game/src/ReconnectionManager.cpp:30-44 | a connected player is marked disconnected at that time in both tables, the time from which ProtocolRuns.OfflinePlayerGoesWhenDue counts; otherwise nothing changes |
| Reconnection.ReconnectionManager.HandleReconnect | game/src/ReconnectionManager.cpp:46-86 | the outcome and the new tables are those of the protocol step, a late attempt eliminating the player; on success the message of the whole state is kept for the client, and if the state cannot be written the player stays connected and the error is thrown |
| Reconnection.ReconnectionManager.CheckAllTimeouts | game/src/ReconnectionManager.cpp:92-112 | exactly the overdue players are eliminated, each once, in some order, and returned |
| Economy.TurnFoodLedger | game/src/TurnResolver.cpp:138-160 | in a turn that does not break off, the food received is the rise of the surplus plus the threshold paid, and the city grows, by one, exactly when the surplus reaches it |
| Economy.FoodLedger | game/src/TurnResolver.cpp:138-160 | over any number of turns none of which breaks off, all food a city received equals the rise of its surplus plus the thresholds of every population step, in closed form |
| Economy.TurnProductionLedger | game/src/TurnResolver.cpp:145-150 | in a turn that does not break off the front order of a city completes, and leaves no progress, exactly when progress, five and the production of the buildings on its tiles reach its cost; otherwise exactly that much is added |
| Economy.ProductionLedger | game/src/TurnResolver.cpp:145-150 | over any number of turns in which no order of the city completes, its progress rises by five a turn and all the production collected |
| Economy.BuildingCountsOnce | game/src/TurnResolver.cpp:87-98 | a building adds its yields to those of a city exactly once if it stands on one of its tiles, and nothing otherwise, wherever it is in the list |
| Economy.CompletedOrderIsPlaced | game/src/TurnResolver.cpp:117-135 | after the turn in which an order completes, a building of its factory stands on its target, owned by the owner of the city, under a new id; or a fresh unit of the owner stands on or next to the centre |
| Economy.TurnRestsUnits | game/src/TurnResolver.cpp:197-212 | a turn that does not break off keeps every unit, with its movement back and otherwise unchanged |
| Scenarios.MineSpeedsProduction | game/src/TurnResolver.cpp:145-147 | a city with one mine puts seven, not five, into an order of cost twenty |
| Economy.CityChangesOnce | game/src/TurnResolver.cpp:138-160 | in a turn that does not break off a city changes exactly once, when the loop comes to it |
| Economy.RoutedGoldIsConserved | game/src/TurnResolver.cpp:103-114 | routed gold ends up, undiminished, in one stockpile |
| Economy.GoldReachesOwner | game/src/TurnResolver.cpp:103-114 | the first faction with the id of a positive owner gets all of the gold and no other faction any; without one the common stockpile does |
| Economy.GoldLedger | game/src/TurnResolver.cpp:87-160 | over any number of turns, broken off or not, all stockpiles together gain exactly the gold the loop collected, buildings finished earlier in the loop counting for later cities |
| TurnResolver.FindSpawnTile | game/src/TurnResolver.cpp:70-84 | the first neighbour of the centre where nobody stands, or the centre |
| Economy.SpawnTileIsFree | game/src/TurnResolver.cpp:70-84 | a new unit appears on the first map tile next to the centre, in the order of the table, where nobody stands, or on the centre when every such tile is taken |
| Economy.NothingIsMissing | game/src/TurnResolver.cpp:164-179 | without a unit registry, as the session resolves its turns, no turn breaks off |
| TurnResolver.CollectCityYields | game/src/TurnResolver.cpp:87-98 | the loop adds up the yields of the buildings on the city tiles |
| TurnResolver.RouteGoldToFaction | game/src/TurnResolver.cpp:103-114 | gold goes to the stockpile of the owner, or to the common one if the owner is not registered |
| TurnResolver.SpawnCompletedUnit | game/src/TurnResolver.cpp:117-123 | a finished unit appears on the spawn tile for the city owner, in list and index; an unknown type places nothing and is reported |
| TurnResolver.HandleCompletedProduction | game/src/TurnResolver.cpp:126-135 | a finished building is owned and added; a finished unit is spawned, or its unknown type reported |
| TurnResolver.ResolveOneCity | game/src/TurnResolver.cpp:139-159 | one round of the loop on the objects is the value-level round, broken off at an unknown unit type before the city is fed; food, production and gold obey the ledgers of Economy |
| TurnResolver.ResolveAllCities | game/src/TurnResolver.cpp:138-160 | the loop over all cities on the objects is the value-level loop, for which the ledgers of food, production and gold are proved, and the state stays valid |
| TurnResolver.ResolveGameTurn | game/src/TurnResolver.cpp:164-212 | cities, then movement, then the turn counter, with the ledgers of Economy.TurnFoodLedger, TurnProductionLedger and GoldLedger; none of the latter two steps if the cities break off |
| Cities.ForecastIsExactUnlessPaid | game/src/BuildQueue.cpp:33-39 | the forecast is the turn in which the front item completes if and only if the item is not already paid for |
| Cities.BuildQueue.Enqueue | game/src/BuildQueue.cpp:5-14 | a building order is appended with the name and cost its factory gives, whatever factory it is |
| Cities.BuildQueue.EnqueueUnit | game/src/BuildQueue.cpp:16-24 | a unit order is appended |
| Cities.BuildQueue.ApplyProduction | game/src/BuildQueue.cpp:43-61 | production goes to the front item, which completes exactly when its cost is reached; what exceeds the cost is lost |
| Cities.BuildQueue.Cancel | game/src/BuildQueue.cpp:63-68 | the front item and its progress go |
| Cities.BuildQueue.Clear | game/src/BuildQueue.cpp:70-75 | the drain loop leaves an empty queue and no progress |
| Cities.BuildQueue.AllItems | game/src/BuildQueue.cpp:79-87 | draining a copy lists all items in order and leaves the queue as it was |
| Cities.City.AddTile | game/src/City.cpp:28-31 | the tile is owned afterwards, and the result says whether it was new |
| Cities.City.GrowPopulation | game/src/City.cpp:23-26 | only the population changes |
| Cities.BuildQueue.TurnsRemaining | game/src/BuildQueue.cpp:33-39 | the forecast for a queue with production, and zero without either |
| Cities.FreeItemIsForecastTooEarly | game/src/BuildQueue.cpp:33-39 | a free item in an empty queue is forecast for zero turns and completes after one |
| TileSets.SortedLists | game/src/Serialization.cpp:161-164 | iterating an ordered set of tiles meets each once, by row and then column |
| CombatLogs.ForgettingShowsNewest | game/src/CombatLog.cpp:9-15 | a log that forgets at every step shows, after any run of appends and clears, the last events since the last clear, up to the capacity |
| CombatLogs.RunLog | game/src/CombatLog.cpp:7-60 | on the ring buffer: after any run the log shows exactly those events |
| CombatLogs.CombatLog.Append | game/src/CombatLog.cpp:9-15 | the event joins the history and the ring goes on showing its newest part |
| CombatLogs.CombatLog.RecentEvents | game/src/CombatLog.cpp:23-38 | the last n shown events, oldest first, or all of them if there are fewer |
| CombatLogs.CombatLog.EventsForTurn | game/src/CombatLog.cpp:40-53 | the shown events of the turn |
| CombatLogs.OfTurnIsOrderedFilter | game/src/CombatLog.cpp:40-53 | that filter takes exactly the events of the turn, in their order |
| CombatLogs.CombatLog.AllEvents | game/src/CombatLog.cpp:55-55 | everything the log shows |
| CombatLogs.CombatLog.Clear | game/src/CombatLog.cpp:57-60 | the history starts anew |
| Disagreements.RejectingBothMisplacesScout | game/src/PredictionManager.cpp:82-84 | after rejecting two predictions of one unit, oldest first, the unit is left on the middle tile instead of back at its start |
| Disagreements.ForeignUnitIsMoved | game/src/GameSession.cpp:90-106 | a player of faction 1 moves a unit of faction 2 |
| Disagreements.OccupiedTileIsEntered | game/src/MoveAction.cpp:17-60 | a unit of faction 1 moves onto a tile that a unit of faction 2 holds |
| Disagreements.OwnerOfACityCountsAsEliminated | game/src/CaptureAction.cpp:97-113 | a faction that a city belongs to, as captures read its owner, counts as eliminated |
| Disagreements.OtherWarriorIsNotRestored | game/src/Serialization.cpp:77-88 | a unit whose template is called Warrior but has other stats does not come back from a save |
| PerlinNoise.PerlinNoise.Sample | engine/src/PerlinNoise.cpp:53-77 | the noise always lies between -1 and 1, and every table index is in range |
| PerlinNoise.BlendIsBounded | engine/src/PerlinNoise.cpp:31-77 | whatever the four hashes, the blend of the corner contributions lies between -1 and 1 |
| PerlinNoise.BoundIsAttained | engine/src/PerlinNoise.cpp:31-77 | a blend of four gradients that all point at the middle of the cell is 1 there |
| PerlinNoise.FadeCentred | engine/src/PerlinNoise.cpp:31-34 | seen from the middle of the cell, the fade curve leans the way the position does |
| PerlinNoise.FadeIsFlat | engine/src/PerlinNoise.cpp:31-34 | the fade curve starts as flat as a cube, never above ten times it |
| PerlinNoise.EdgesAgree | engine/src/PerlinNoise.cpp:53-77 | two cells sharing an edge give the same value everywhere on it, also where the table wraps from 255 to 0 |
| PerlinNoise.PerlinNoise.ClosedCellFormula | engine/src/PerlinNoise.cpp:53-77 | the formula of a cell gives the noise on the whole closed cell, its far edges included |
| PerlinNoise.PerlinNoise.SampleIsPeriodic | engine/src/PerlinNoise.cpp:53-77 | the noise repeats every 256 units along either axis |
| PerlinNoise.ZeroAtCorners | engine/src/PerlinNoise.cpp:53-77 | the noise is zero at every lattice point |
| PerlinNoise.PerlinNoise.constructor | engine/src/PerlinNoise.cpp:16-29 | the table is the shuffled numbers, twice |
| PerlinNoise.SampleReachesOne | engine/src/PerlinNoise.cpp:16-77 | with a suitable shuffle the noise itself is 1 at a point, so the bound is sharp |
| Worlds.EliminationMissesCitiesOfLargeIds | game/src/CaptureAction.cpp:97-113 | with 32-bit owners the elimination test is right for ids below 2^31; from there on it only asks for living units, whatever cities the faction holds |

## Left out

- FindPath: costs are unbounded integers, and a tile without a score stands for the "infinite" initial score, so overflow of 32-bit costs is not modelled.
- FindSpawnPoints: map sides are assumed to fit a 32-bit integer, as they do in the game, so that the initial minimum exceeds every distance.
- FindPathWithZoc: the goal tile may itself lie in an enemy zone of control, as in the game.
- RejectReplaysFromBefore: about queues of moves only; attacks and captures change more than the one unit that is snapshotted, and rolling them back is not claimed to restore the state.
- EliminatedNeverReturn: assumes no new registration, since the code lets a registered-again player back in.
- RestoreCity: agreement of the city and building indexes with their lists is not claimed; adding registers one tile, restoring registers all.
- SaveLoadRoundTrip: elevation, rivers, water level, factions, relations and fog are not saved by the game and not part of the round trip; the byte encoding of the message is not modelled.
- DeserializeGameState: requires tiles on the map, populations of at least 1 and equally long tile lists, which the game asserts or relies on.
- RangeOfUnit: the equivalence with runs of moves needs a map with own units only, because the range treats tiles of other factions as blocked while the moves themselves do not refuse occupied tiles.
- ResolveGameTurn: the neutral factions' intents are computed and dropped by the game in this version, and are not modelled.
- FoodLedger: about turns that do not break off at an unknown unit type; in one that does, the city at which it breaks off and those after it are not fed.
- ProductionLedger: likewise about turns that do not break off, and about those in which no order of the city completes; what a completion does is TurnProductionLedger.
- LoadUnits: only the three stock templates the loader registers are known.
- Sample: exact reals, so rounding of floats is not modelled; the seeded shuffle of the table is an input.
- SmoothMap: the noise that fills the map before smoothing (`hashNoise`, `fractalNoise`, `classifyTerrain`) is not modelled; the map is an input.
- TryAdvance: clocks are passed in as reals; the ready set of the turn manager is kept but nothing is decided by it.
- ApplyAction: message strings of results are not modelled.
- Rendering, camera, audio, menus, animation, particles and the other parts of `engine/` and `app/`: user interface.
- `network/` and `server/`: remote calls and stubs.
- `LobbyManager`, `ActionProcessor`, `FactionRegistry`, `GamePersistence`, `SaveLoad`: per-call checks, dispatch, or files and foreign libraries.
- `removeCity`, `removeBuilding`, city and faction queries, `clearLevelUpFlag` and other one-line accessors are not modelled.
- The random initial terrain and the demo rivers of a new map: the initial terrain is an input.
- The status field of a pending prediction: written but never read.
