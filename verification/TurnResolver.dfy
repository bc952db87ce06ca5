/** Turn resolution on the game state. */
module TurnResolver {
  import opened Common
  import opened Hex
  import opened Diplomacy
  import opened Units
  import opened Registry
  import opened Cities
  import opened Worlds
  import opened GameStates
  import opened Economy

  /** Finds a free tile next to the centre, in table order, by looking at the index. */
  method FindSpawnTile(centre: Coord, state: GameState) returns (tile: Coord)
    requires state.Valid()
    ensures tile == SpawnTile(state.View(), centre)
  {
    hide Agrees, StatesOf, CityStatesOf, Positions, OwnedCities, HexDistance;
    ghost var w := state.View();
    var neighbours := HexNeighbours(TURN_TABLE, centre, state.map_.height, state.map_.width);
    for i := 0 to |neighbours|
      invariant state.Valid() && state.View() == w
      invariant FirstFree(w, neighbours, centre) == FirstFree(w, neighbours[i..], centre)
    {
      EmptyEntryMeansNobody(state, neighbours[i]);
      if state.registry.UnitsAt(neighbours[i]) == [] {
        return neighbours[i];
      }
    }
    return centre;
  }

  lemma EmptyEntryMeansNobody(state: GameState, p: Coord)
    requires state.Valid()
    ensures state.registry.UnitsAt(p) == [] <==> state.View().NobodyAt(p)
  {
    hide Agrees, StatesOf, CityStatesOf, Positions, OwnedCities;
    var entries := state.registry.UnitsAt(p);
    if entries != [] {
      state.UnitsAtIsExact(p, entries[0]);
      var i :| 0 <= i < |state.units| && state.units[i] == entries[0];
      state.UnitStateAt(i);
    }
    if i :| 0 <= i < |state.View().units| && state.View().units[i].pos == p {
      state.UnitStateAt(i);
      state.UnitsAtIsExact(p, state.units[i]);
    }
  }

  /** Sums the yields of the buildings overlapping the city. */
  method CollectCityYields(city: City, buildings: seq<Building>) returns (total: Resource)
    ensures total == CityYields(city.State(), buildings)
  {
    total := Resource(0, 0, 0);
    for i := 0 to |buildings|
      invariant total == CityYields(city.State(), buildings[..i])
    {
      assert buildings[..i + 1][..i] == buildings[..i];
      if exists c | c in buildings[i].occupiedTiles :: c in city.tiles {
        total := total.Plus(buildings[i].yieldPerTurn);
      }
    }
    assert buildings[..|buildings|] == buildings;
  }

  method RouteGoldToFaction(state: GameState, factionId: int, gold: int)
    requires state.Valid()
    modifies state`factions, state`factionResources
    ensures state.Valid() && state.View() == RouteGold(old(state.View()), factionId, gold)
  {
    hide Agrees, StatesOf, CityStatesOf, Positions, OwnedCities;
    if factionId > 0 {
      var targetId := ToFactionId(factionId);
      for k := 0 to |state.factions|
        invariant state.factions == old(state.factions) && state.factionResources == old(state.factionResources)
        invariant forall j :: 0 <= j < k ==> state.factions[j].id != targetId
      {
        if state.factions[k].id == targetId {
          var f := state.factions[k];
          state.factions := state.factions[k := f.(stockpile := AddGold(f.stockpile, gold))];
          return;
        }
      }
    }
    state.factionResources := AddGold(state.factionResources, gold);
  }

  /** Looking an unknown key up throws; `missing` stands for that exception. */
  method SpawnCompletedUnit(state: GameState, city: City, key: string, templates: Templates) returns (missing: Option<string>)
    requires state.Valid()
    modifies state`units, state.registry`units
    ensures state.Valid() && missing == MissingKey(Some(NewUnit(key)), Some(templates))
    ensures state.View() == Place(old(state.View()), old(city.State()), Some(NewUnit(key)), Some(templates))
    ensures old(state.units) <= state.units
    ensures forall i :: |old(state.units)| <= i < |state.units| ==> fresh(state.units[i])
  {
    hide Agrees, StatesOf, CityStatesOf, Positions, OwnedCities, SpawnTile;
    if key !in templates {
      return Some(key);
    }
    ghost var w, c := state.View(), city.State();
    var tile := FindSpawnTile(city.centre, state);
    assert state.View() == w && tile == SpawnTile(w, c.centre);
    var unit := new Unit(tile, templates[key], ToFactionId(city.factionId));
    assert state.View() == w;
    assert unit.State() == NewUnitState(tile, templates[key], ToFactionId(c.factionId));
    var _ := state.AddUnit(unit);
    return None;
  }

  method HandleCompletedProduction(state: GameState, city: City, completed: Option<Completed>, templates: Option<Templates>)
    returns (missing: Option<string>)
    requires state.Valid()
    modifies state`units, state`buildings, state`nextBuildingId, state.registry`units, state.registry`buildings
    ensures state.Valid() && missing == MissingKey(completed, templates)
    ensures state.View() == Place(old(state.View()), old(city.State()), completed, templates)
    ensures old(state.units) <= state.units
    ensures forall i :: |old(state.units)| <= i < |state.units| ==> fresh(state.units[i])
  {
    hide Agrees, StatesOf, CityStatesOf, Positions, OwnedCities, SpawnTile;
    missing := None;
    match completed
    case None =>
    case Some(NewBuilding(building)) =>
      var _ := state.AddBuilding(building.(factionId := ToFactionId(city.factionId)));
    case Some(NewUnit(key)) =>
      match templates {
        case None =>
        case Some(known) => missing := SpawnCompletedUnit(state, city, key, known);
      }
  }

  /** Production: the queue advances, and what it completes is placed. */
  method ApplyCityProduction(state: GameState, k: nat, totalProduction: int) returns (completed: Option<Completed>)
    requires state.Valid() && k < |state.cities|
    modifies state.cities[k].buildQueue`queue, state.cities[k].buildQueue`accumulated
    ensures state.Valid()
    ensures completed == CompletedBy(old(state.View()).cities[k].queue, totalProduction)
    ensures var w := old(state.View());
            state.View() == w.(cities := w.cities[k := w.cities[k].(queue := AfterProduction(w.cities[k].queue, totalProduction))])
  {
    hide Agrees, StatesOf, CityStatesOf, Positions, AfterProduction, Complete;
    ghost var w := state.View();
    state.CityStateAt(k);
    completed := state.cities[k].buildQueue.ApplyProduction(totalProduction);
    assert CityStatesOf(state.cities) == w.cities[k := w.cities[k].(queue := AfterProduction(w.cities[k].queue, totalProduction))];
  }

  /** Food: the surplus grows, and the population with it once the threshold is met. */
  method FeedCity(state: GameState, k: nat, food: int)
    requires state.Valid() && k < |state.cities|
    modifies state.cities`population, state.cities`foodSurplus
    ensures state.Valid() && state.cities == old(state.cities)
    ensures state.View() == old(state.View()).(cities := old(state.View()).cities[k := Fed(old(state.View()).cities[k], food)])
  {
    hide Agrees, StatesOf, CityStatesOf, Positions;
    ghost var w := state.View();
    state.CityStateAt(k);
    FeedOne(state.cities[k], food);
    assert CityStatesOf(state.cities) == w.cities[k := Fed(w.cities[k], food)];
  }

  method FeedOne(city: City, food: int)
    requires city.Valid()
    modifies city`population, city`foodSurplus
    ensures city.Valid() && city.State() == Fed(old(city.State()), food)
  {
    city.AddFoodSurplus(food);
    var threshold := GrowthThreshold(city.population);
    if city.foodSurplus >= threshold {
      city.GrowPopulation(1);
      city.SetFoodSurplus(city.foodSurplus - threshold);
    }
  }

  lemma PlaceIgnoresQueues(w: World, cities: seq<CityState>, city: CityState, queue: QueueState, completed: Option<Completed>,
                           templates: Option<Templates>)
    ensures Place(w.(cities := cities), city.(queue := queue), completed, templates)
            == Place(w, city, completed, templates).(cities := cities)
    ensures Place(w, city, completed, templates).cities == w.cities
  {
    FirstFreeIgnoresCities(w, cities, InMapNeighbours(TURN_TABLE, city.centre, w.grid.height, w.grid.width), city.centre);
  }

  lemma {:induction false} FirstFreeIgnoresCities(w: World, cities: seq<CityState>, tiles: seq<Coord>, otherwise: Coord)
    ensures FirstFree(w.(cities := cities), tiles, otherwise) == FirstFree(w, tiles, otherwise)
  {
    if tiles != [] {
      FirstFreeIgnoresCities(w, cities, tiles[1..], otherwise);
      assert w.(cities := cities).NobodyAt(tiles[0]) == w.NobodyAt(tiles[0]);
    }
  }

  /** Production and what it completes. */
  method BuildCity(state: GameState, k: nat, totalProduction: int, templates: Option<Templates>) returns (missing: Option<string>)
    requires state.Valid() && k < |state.cities|
    modifies state`units, state`buildings, state`nextBuildingId, state.registry`units, state.registry`buildings,
             QueuesOf(state.cities)`queue, QueuesOf(state.cities)`accumulated
    ensures state.Valid()
    ensures var w := old(state.View());
            var city := w.cities[k];
            var completed := CompletedBy(city.queue, totalProduction);
            && missing == MissingKey(completed, templates)
            && state.View() == Place(w, city, completed, templates).(
                                 cities := w.cities[k := city.(queue := AfterProduction(city.queue, totalProduction))])
    ensures old(state.units) <= state.units
    ensures forall i :: |old(state.units)| <= i < |state.units| ==> fresh(state.units[i])
  {
    hide Agrees, StatesOf, CityStatesOf, Positions, OwnedCities, AfterProduction, CompletedBy, Place, MissingKey,
         GameState.IndexAgrees;
    ghost var w := state.View();
    ghost var city := w.cities[k];
    ghost var queue := AfterProduction(city.queue, totalProduction);
    var completed := ApplyCityProduction(state, k, totalProduction);
    PlaceIgnoresQueues(w, w.cities[k := city.(queue := queue)], city, queue, completed, templates);
    state.CityStateAt(k);
    assert state.cities[k].State() == city.(queue := queue);
    missing := HandleCompletedProduction(state, state.cities[k], completed, templates);
  }

  /** Everything that happens to city `k` but the gold: production, what it completes, and food. */
  method BuildAndFeed(state: GameState, k: nat, income: Resource, templates: Option<Templates>) returns (missing: Option<string>)
    requires state.Valid() && k < |state.cities|
    modifies state`units, state`buildings, state`nextBuildingId, state.registry`units, state.registry`buildings,
             state.cities`population, state.cities`foodSurplus,
             QueuesOf(state.cities)`queue, QueuesOf(state.cities)`accumulated
    ensures state.Valid() && state.cities == old(state.cities)
    ensures Resolution(state.View(), missing) == BuiltAndFed(old(state.View()), k, income, templates)
    ensures old(state.units) <= state.units
    ensures forall i :: |old(state.units)| <= i < |state.units| ==> fresh(state.units[i])
  {
    hide Agrees, StatesOf, CityStatesOf, Positions, OwnedCities, AfterProduction, CompletedBy, Place, Fed,
         MissingKey, GameState.IndexAgrees, UnitState.Ok, IsLevelFor, TotalProduction;
    ghost var w := state.View();
    missing := BuildCity(state, k, TotalProduction(income), templates);
    if missing.None? {
      FeedCity(state, k, income.food);
    }
  }

  /** Collects the city's yields and hands its gold over. */
  method CollectAndRoute(state: GameState, k: nat) returns (income: Resource)
    requires state.Valid() && k < |state.cities|
    modifies state`factions, state`factionResources
    ensures state.Valid()
    ensures income == CityYields(old(state.View()).cities[k], old(state.buildings))
    ensures state.View() == RouteGold(old(state.View()), old(state.View()).cities[k].factionId, income.gold)
  {
    hide Agrees, StatesOf, CityStatesOf, Positions, OwnedCities, CityYields, RouteGold;
    ghost var w := state.View();
    state.CityStateAt(k);
    income := CollectCityYields(state.cities[k], state.buildings);
    assert state.View() == w;
    RouteGoldToFaction(state, state.cities[k].factionId, income.gold);
  }

  method ResolveOneCity(state: GameState, k: nat, templates: Option<Templates>) returns (missing: Option<string>)
    requires state.Valid() && k < |state.cities|
    modifies state`factions, state`factionResources, state`units, state`buildings, state`nextBuildingId,
             state.registry`units, state.registry`buildings, state.cities`population, state.cities`foodSurplus,
             QueuesOf(state.cities)`queue, QueuesOf(state.cities)`accumulated
    ensures state.Valid() && state.cities == old(state.cities)
    ensures Resolution(state.View(), missing) == ResolveCity(old(state.View()), k, templates)
    ensures old(state.units) <= state.units
    ensures forall i :: |old(state.units)| <= i < |state.units| ==> fresh(state.units[i])
  {
    hide Agrees, StatesOf, CityStatesOf, Positions, OwnedCities, AfterProduction, Fed, CityYields, RouteGold,
         BuiltAndFed, GameState.IndexAgrees;
    ghost var w := state.View();
    state.CityStateAt(k);
    var income := CollectAndRoute(state, k);
    RoutingKeepsCities(w, w.cities[k].factionId, income.gold);
    missing := BuildAndFeed(state, k, income, templates);
  }

  /** Yields, production and food for all cities, in order, up to an unknown unit key. */
  method ResolveAllCities(state: GameState, templates: Option<Templates>) returns (missing: Option<string>)
    requires state.Valid()
    modifies state`factions, state`factionResources, state`units, state`buildings, state`nextBuildingId,
             state.registry`units, state.registry`buildings, state.cities`population, state.cities`foodSurplus,
             QueuesOf(state.cities)`queue, QueuesOf(state.cities)`accumulated
    ensures state.Valid() && state.cities == old(state.cities)
    ensures Resolution(state.View(), missing) == ResolveCities(old(state.View()), |old(state.View()).cities|, templates)
    ensures old(state.units) <= state.units
    ensures forall i :: |old(state.units)| <= i < |state.units| ==> fresh(state.units[i])
  {
    hide *;
    state.ViewCounts();
    ghost var w := state.View();
    ghost var now := w;
    NoCityYet(w, templates);
    for k := 0 to |state.cities|
      invariant state.Valid() && state.cities == old(state.cities) && |w.cities| == |state.cities|
      invariant state.View() == now && ResolveCities(w, k, templates) == Resolution(now, None)
      invariant old(state.units) <= state.units
      invariant forall i :: |old(state.units)| <= i < |state.units| ==> fresh(state.units[i])
    {
      OneMoreCity(w, k, now, templates);
      missing := ResolveOneCity(state, k, templates);
      now := state.View();
      if missing.Some? {
        return;
      }
    }
    return None;
  }

  lemma NoCityYet(w: World, templates: Option<Templates>)
    ensures ResolveCities(w, 0, templates) == Resolution(w, None)
  {
  }

  lemma OneMoreCity(w: World, k: nat, now: World, templates: Option<Templates>)
    requires k < |w.cities| && ResolveCities(w, k, templates) == Resolution(now, None)
    ensures ResolveCities(w, k + 1, templates) == ResolveCity(now, k, templates)
    ensures ResolveCity(now, k, templates).missing.Some? ==>
              ResolveCities(w, |w.cities|, templates) == ResolveCity(now, k, templates)
  {
    hide ResolveCity;
    if ResolveCity(now, k, templates).missing.Some? {
      BrokenOffStays(w, k + 1, |w.cities|, templates);
    }
  }

  lemma {:induction false} BrokenOffStays(w: World, n: nat, m: nat, templates: Option<Templates>)
    requires n <= m <= |w.cities| && ResolveCities(w, n, templates).missing.Some?
    ensures ResolveCities(w, m, templates) == ResolveCities(w, n, templates)
    decreases m
  {
    hide ResolveCity;
    if n < m {
      BrokenOffStays(w, n, m - 1, templates);
    }
  }

  /** Resets every unit's movement. */
  method ResetAllMovement(state: GameState)
    requires state.Valid()
    modifies state.units`movementRemaining
    ensures state.Valid() && state.View() == old(state.View()).(units := Rested(old(state.View()).units))
  {
    hide Agrees, StatesOf, CityStatesOf, Positions, OwnedCities, IsLevelFor;
    ghost var w := state.View();
    ghost var done := w.units;
    for i := 0 to |state.units|
      invariant state.Valid() && |done| == |w.units| && state.View() == w.(units := done)
      invariant forall j :: 0 <= j < |done| ==> done[j] == if j < i then Rested(w.units)[j] else w.units[j]
    {
      done := done[i := done[i].(movementRemaining := done[i].tmpl.movementRange)];
      ResetMovementOf(state, i);
    }
    assert done == Rested(w.units);
  }

  method ResetMovementOf(state: GameState, i: nat)
    requires state.Valid() && i < |state.units|
    modifies state.units`movementRemaining
    ensures state.Valid()
    ensures var units := old(state.View()).units;
            && i < |units|
            && state.View() == old(state.View()).(units := units[i := units[i].(movementRemaining := units[i].tmpl.movementRange)])
  {
    hide Agrees, StatesOf, CityStatesOf, Positions, OwnedCities, IsLevelFor;
    ghost var units := state.View().units;
    ghost var next := units[i].(movementRemaining := units[i].tmpl.movementRange);
    state.UnitsDistinct(i);
    IndexAfterChange(state.registry.units, state.units, units, i, next);
    state.units[i].ResetMovement();
    assert StatesOf(state.units) == units[i := next];
  }

  /** Cities, movement, turn counter.  The neutral factions' intents are computed in between and dropped. */
  method ResolveGameTurn(state: GameState, templates: Option<Templates>) returns (missing: Option<string>)
    requires state.Valid()
    modifies state`turn, state`factions, state`factionResources, state`units, state`buildings, state`nextBuildingId,
             state.registry`units, state.registry`buildings, state.units`movementRemaining,
             state.cities`population, state.cities`foodSurplus,
             QueuesOf(state.cities)`queue, QueuesOf(state.cities)`accumulated
    ensures state.Valid() && state.cities == old(state.cities)
    ensures Resolution(state.View(), missing) == ResolveTurn(old(state.View()), templates)
  {
    hide Agrees, StatesOf, CityStatesOf, Positions, OwnedCities, ResolveCities, Rested, GameState.IndexAgrees,
         GameState.Valid, GameState.View;
    missing := ResolveAllCities(state, templates);
    if missing.None? {
      FinishGameTurn(state);
    }
  }

  method FinishGameTurn(state: GameState)
    requires state.Valid()
    modifies state`turn, state.units`movementRemaining
    ensures state.Valid()
    ensures var w := old(state.View()); state.View() == w.(units := Rested(w.units), turn := w.turn + 1)
  {
    hide Agrees, StatesOf, CityStatesOf, Positions, OwnedCities, Rested, GameState.IndexAgrees;
    ResetAllMovement(state);
    state.NextTurn();
  }
}
