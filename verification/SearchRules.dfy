/** The rules of the searches on a game state, in terms of its map and its list of units. */
module SearchRules {
  import opened Hex
  import opened Terrain
  import opened Diplomacy
  import opened Units
  import opened Registry
  import opened ZoneOfControl
  import opened Cities
  import opened Worlds
  import opened GameStates
  import opened Routes
  import opened Pathfinding
  import opened ActionLaws

  /** A unit of faction `f` may enter the tile: its terrain is passable, and whoever stands on it, dead or alive, is
      of the same faction. */
  ghost predicate MayEnter(w: World, f: FactionId, p: Coord)
    requires w.grid.Has(p)
  {
    && PropertiesOf(w.grid.At(p)).passable
    && forall i :: 0 <= i < |w.units| && w.units[i].pos == p ==> w.units[i].factionId == f
  }

  ghost predicate HeldByEnemy(w: World, f: FactionId, p: Coord) {
    exists e :: Holds(w, e, f, p)
  }

  ghost predicate OneEnemyHoldsBoth(w: World, f: FactionId, p: Coord, q: Coord) {
    exists e :: Holds(w, e, f, p) && Holds(w, e, f, q)
  }

  lemma BlockedByListedUnits(tr: Travel, w: World, p: Coord)
    requires tr.board.grid == w.grid && tr.board.occupancy == OccupancyOf(w.units) && w.grid.Has(p)
    ensures tr.Blocked(p) <==> !MayEnter(w, tr.faction, p)
  {
    hide OccupancyOf;
    forall f
      ensures f in FactionsOn(OccupancyOf(w.units), p)
              <==> exists i :: 0 <= i < |w.units| && w.units[i].pos == p && w.units[i].factionId == f
    {
      OccupancyMembers(w.units, p, f);
    }
    if i :| 0 <= i < |w.units| && w.units[i].pos == p && w.units[i].factionId != tr.faction {
      assert w.units[i].factionId in FactionsOn(OccupancyOf(w.units), p);
    }
  }

  /** The rules over the board of a list of units. */
  lemma StepOnBoard(tr: Travel, w: World, u: Coord, v: Coord)
    requires tr.board.grid == w.grid && tr.board.occupancy == OccupancyOf(w.units)
    requires tr.zoc ==> tr.board.relations == w.relations
    ensures tr.CanStep(u, v)
            <==> && w.grid.Has(v) && HexDistance(u, v) == 1 && MayEnter(w, tr.faction, v)
                 && (tr.zoc ==> && (u == tr.start || !HeldByEnemy(w, tr.faction, u))
                                && !OneEnemyHoldsBoth(w, tr.faction, u, v))
  {
    hide HexDistance, InMapNeighbours, OccupancyOf, Exerts, Holds, MayEnter, Travel.Blocked;
    NeighboursAreDistanceOne(SEARCH_TABLE, u, w.grid.height, w.grid.width);
    if w.grid.Has(v) {
      BlockedByListedUnits(tr, w, v);
    }
    if tr.zoc {
      assert tr.board == w.Board();
      forall e, p
        ensures Exerts(tr.board, tr.faction, p, e) <==> Holds(w, e, tr.faction, p)
      {
        HoldersExert(w, tr.faction, p, e);
      }
    }
  }

  /** On a valid state a step of the plain search is legal exactly when it leads to a tile of the map at distance 1
      whose terrain is passable and on which every listed unit is of the mover's faction. */
  lemma PlainStepIff(state: GameState, f: FactionId, start: Coord, u: Coord, v: Coord)
    requires state.Valid()
    ensures var w := state.View();
            PlainTravel(state.map_, state.registry, f, start).CanStep(u, v)
            <==> w.grid.Has(v) && HexDistance(u, v) == 1 && MayEnter(w, f, v)
  {
    hide Agrees, StatesOf, CityStatesOf, Positions, OwnedCities, OccupancyOf, IndexOccupancy, MayEnter, Travel.CanStep, HexDistance;
    state.IndexShowsBoard();
    StepOnBoard(PlainTravel(state.map_, state.registry, f, start), state.View(), u, v);
  }

  /** Under zone-of-control rules, moreover, the step leaves the start or a tile that no enemy has units next to,
      and no enemy has units next to both of its ends. */
  lemma ZocStepIff(state: GameState, f: FactionId, start: Coord, u: Coord, v: Coord)
    requires state.Valid()
    ensures var w := state.View();
            ZocTravel(state.map_, state.registry, state.diplomacy, f, start).CanStep(u, v)
            <==> && w.grid.Has(v) && HexDistance(u, v) == 1 && MayEnter(w, f, v)
                 && (u == start || !HeldByEnemy(w, f, u)) && !OneEnemyHoldsBoth(w, f, u, v)
  {
    hide Agrees, StatesOf, CityStatesOf, Positions, OwnedCities, OccupancyOf, IndexOccupancy, MayEnter, Travel.CanStep, HexDistance,
         HeldByEnemy, OneEnemyHoldsBoth;
    state.IndexShowsBoard();
    StepOnBoard(ZocTravel(state.map_, state.registry, state.diplomacy, f, start), state.View(), u, v);
  }

  /** The search of either kind over a state. */
  ghost function SearchOver(state: GameState, f: FactionId, start: Coord, zoc: bool): Travel
    requires state.Valid()
    reads state, state.map_, state.registry, state.diplomacy, state.units, state.cities
  {
    if zoc then ZocTravel(state.map_, state.registry, state.diplomacy, f, start)
    else PlainTravel(state.map_, state.registry, f, start)
  }

  /** No tile of a path found by either search is held by a unit of another faction. */
  lemma PathsAvoidForeignUnits(state: GameState, f: FactionId, start: Coord, zoc: bool, path: seq<Coord>, goal: Coord)
    requires state.Valid() && SearchOver(state, f, start, zoc).WalkTo(path, goal)
    ensures var w := state.View();
            forall k :: 0 <= k < |path| ==> w.grid.Has(path[k]) && MayEnter(w, f, path[k])
  {
    hide Agrees, StatesOf, CityStatesOf, Positions, OwnedCities, OccupancyOf, IndexOccupancy, MayEnter, Travel.CanStep, HexDistance,
         HeldByEnemy, OneEnemyHoldsBoth;
    var tr := SearchOver(state, f, start, zoc);
    forall k | 0 <= k < |path|
      ensures state.View().grid.Has(path[k]) && MayEnter(state.View(), f, path[k])
    {
      assert tr.CanStep(TileBefore(start, path, k), path[k]);
      PlainStepIff(state, f, start, TileBefore(start, path, k), path[k]);
      ZocStepIff(state, f, start, TileBefore(start, path, k), path[k]);
    }
  }

  /** Nor is any tile that the movement range reports. */
  lemma ReportedTilesAreFree(state: GameState, f: FactionId, start: Coord, t: Coord, cost: nat)
    requires state.Valid() && t != start && PlainTravel(state.map_, state.registry, f, start).IsLeastCost(t, cost)
    ensures var w := state.View(); w.grid.Has(t) && MayEnter(w, f, t)
  {
    hide Agrees, StatesOf, CityStatesOf, Positions, OwnedCities, OccupancyOf, IndexOccupancy, MayEnter, Travel.CanStep, HexDistance;
    var tr := PlainTravel(state.map_, state.registry, f, start);
    var p :| tr.WalkTo(p, t) && tr.PathCost(p) == cost;
    PathsAvoidForeignUnits(state, f, start, false, p, t);
  }
}
