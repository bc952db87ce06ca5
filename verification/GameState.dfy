/** The central state container.  Every operation keeps the unit index in agreement with the unit list. */
module GameStates {
  import opened Common
  import opened Hex
  import opened Terrain
  import opened Diplomacy
  import opened Units
  import opened Registry
  import opened Cities
  import opened TileSets
  import opened Worlds
  import Fog = FogOfWar

  /** The living units, in order. */
  function Living(units: seq<UnitState>): seq<UnitState> {
    if units == [] then []
    else
      var rest := Living(units[1..]);
      if units[0].Alive() then [units[0]] + rest else rest
  }

  /** The state owns its cities and their queues one by one. */
  ghost predicate OwnedCities(cities: seq<City>)
    reads cities
  {
    && NoDuplicates(cities)
    && (forall i, j :: 0 <= i < j < |cities| ==> cities[i].buildQueue != cities[j].buildQueue)
    && (forall i :: 0 <= i < |cities| ==> cities[i].Valid())
  }

  lemma OwnedCitiesAdd(cities: seq<City>, city: City)
    requires OwnedCities(cities) && city.Valid() && city !in cities && city.buildQueue !in QueuesOf(cities)
    ensures OwnedCities(cities + [city])
  {
  }

  /** Unregister, change a unit, register again: the index agrees with the changed list. */
  lemma IndexAfterRelocation(index: Index<Unit>, units: seq<Unit>, states: seq<UnitState>, k: nat, u: UnitState)
    requires |states| == |units| && k < |units| && Agrees(index, units, Positions(states))
    ensures Agrees(Registered(Unregistered(index, states[k].pos, units[k]), u.pos, units[k]), units, Positions(states[k := u]))
    ensures NoDuplicates(units)
  {
    hide Registered, Unregistered, Positions;
    PositionsUpdate(states, k, u);
    AgreesAfterMove(index, units, Positions(states), k, u.pos);
  }

  lemma IndexAfterChange(index: Index<Unit>, units: seq<Unit>, states: seq<UnitState>, k: nat, u: UnitState)
    requires |states| == |units| && k < |units| && Agrees(index, units, Positions(states)) && u.pos == states[k].pos
    ensures Agrees(index, units, Positions(states[k := u])) && NoDuplicates(units)
  {
    hide Positions;
    PositionsUpdate(states, k, u);
    assert Positions(states)[k := u.pos] == Positions(states);
  }

  method RegisterCityTiles(registry: TileRegistry, tiles: set<Coord>, id: CityId)
    modifies registry`cities
    ensures forall p :: p in registry.cities <==> p in old(registry.cities) || p in tiles
    ensures forall p :: p in registry.cities ==> registry.cities[p] == if p in tiles then id else old(registry.cities)[p]
  {
    var todo := tiles;
    while todo != {}
      invariant todo <= tiles
      invariant forall p :: p in registry.cities <==> p in old(registry.cities) || p in tiles - todo
      invariant forall p :: p in registry.cities ==>
                  registry.cities[p] == if p in tiles - todo then id else old(registry.cities)[p]
    {
      var tile := FirstTile(todo);
      registry.RegisterCity(tile, id);
      todo := todo - {tile};
    }
  }

  method RegisterBuildingTiles(registry: TileRegistry, tiles: set<Coord>, id: BuildingId)
    modifies registry`buildings
    ensures forall p :: p in registry.buildings <==> p in old(registry.buildings) || p in tiles
    ensures forall p :: p in registry.buildings ==>
              registry.buildings[p] == if p in tiles then id else old(registry.buildings)[p]
  {
    var todo := tiles;
    while todo != {}
      invariant todo <= tiles
      invariant forall p :: p in registry.buildings <==> p in old(registry.buildings) || p in tiles - todo
      invariant forall p :: p in registry.buildings ==>
                  registry.buildings[p] == if p in tiles - todo then id else old(registry.buildings)[p]
    {
      var tile := FirstTile(todo);
      registry.RegisterBuilding(tile, id);
      todo := todo - {tile};
    }
  }

  class GameState {
    var turn: int
    const map_: Map
    const registry: TileRegistry
    const diplomacy: DiplomacyManager
    const fog: Fog.FogOfWar
    var cities: seq<City>
    var buildings: seq<Building>
    var units: seq<Unit>
    var factions: seq<Faction>
    var factionResources: Resource
    var nextCityId: CityId
    var nextBuildingId: BuildingId

    ghost predicate Valid()
      reads this, map_, registry, units, cities
    {
      && map_.Valid() && fog.rows == map_.height && fog.cols == map_.width
      && IndexAgrees()
      && (forall i :: 0 <= i < |units| ==> units[i].Valid())
      && OwnedCities(cities)
    }

    /** The unit index holds exactly the listed units, each once, each where it stands, and no empty entry. */
    ghost predicate IndexAgrees()
      reads this, registry, units
    {
      Agrees(registry.units, units, Positions(StatesOf(units)))
    }

    ghost function View(): World
      reads this, map_, diplomacy, units, cities, QueuesOf(cities)
    {
      World.World(turn, map_.View(), diplomacy.relations, StatesOf(units), CityStatesOf(cities), buildings, factions,
                  factionResources, nextCityId, nextBuildingId)
    }

    lemma ValidViewIsOk()
      requires Valid()
      ensures View().Ok()
    {
    }

    /** Unit `i` was taken off the index, changed to `next` and put back, and nothing else happened since the
        state was `before` with the index `index`. */
    lemma Relocated(before: World, index: Index<Unit>, i: nat, next: UnitState)
      requires map_.Valid() && fog.rows == map_.height && fog.cols == map_.width
      requires OwnedCities(cities) && View() == before.(units := View().units)
      requires |before.units| == |units| && i < |units| && Agrees(index, units, Positions(before.units)) && before.Ok()
      requires units[i].State() == next && next.Ok()
      requires forall j :: 0 <= j < |units| && j != i ==> units[j].State() == before.units[j]
      requires registry.units == Registered(Unregistered(index, before.units[i].pos, units[i]), next.pos, units[i])
      ensures Valid() && View() == before.(units := before.units[i := next])
    {
      hide Agrees, StatesOf, CityStatesOf, Positions, Registered, Unregistered, IsLevelFor;
      IndexAfterRelocation(index, units, before.units, i, next);
      assert StatesOf(units) == before.units[i := next];
    }

    lemma UnitStateAt(i: nat)
      requires Valid() && i < |units|
      ensures |View().units| == |units| && View().units[i] == units[i].State()
    {
    }

    lemma ViewCounts()
      requires Valid()
      ensures |View().units| == |units| && |View().cities| == |cities|
    {
    }

    lemma CityStateAt(k: nat)
      requires Valid() && k < |cities|
      ensures |View().cities| == |cities| && View().cities[k] == cities[k].State()
      ensures forall j :: 0 <= j < |cities| && j != k ==> cities[j] != cities[k] && cities[j].buildQueue != cities[k].buildQueue
    {
    }

    /** Units are distinct objects. */
    lemma UnitsDistinct(i: nat)
      requires Valid() && i < |units|
      ensures forall j :: 0 <= j < |units| && j != i ==> units[j] != units[i]
    {
    }

    /** What `unitsAt` promises: a unit is returned for a tile exactly when it is listed and stands there. */
    lemma UnitsAtIsExact(p: Coord, u: Unit)
      requires Valid()
      ensures u in registry.UnitsAt(p) <==> u in units && u.Pos() == p
      ensures NoDuplicates(registry.UnitsAt(p))
    {
      if u in registry.UnitsAt(p) {
        assert Stands(units, Positions(StatesOf(units)), u, p);
      }
      if u in units && u.Pos() == p {
        var i :| 0 <= i < |units| && units[i] == u;
        assert units[i] in EntriesAt(registry.units, Positions(StatesOf(units))[i]);
      }
    }

    /** Scans of the index see the board of the unit list. */
    lemma IndexShowsBoard()
      requires Valid()
      ensures registry.UnitOccupancy() == OccupancyOf(View().units)
    {
      AgreeingIndexHasListOccupancy(registry.units, units, StatesOf(units));
    }

    /** The source draws the first terrain at random; here it is given. */
    constructor (initial: Grid)
      requires initial.height > 0 && initial.width > 0
      ensures Valid() && fresh(map_) && fresh(registry) && fresh(diplomacy)
      ensures registry.units == map[] && registry.cities == map[] && registry.buildings == map[]
      ensures units == [] && cities == []
      ensures fresh(fog) && fog.Valid() && fog.sights == []
      ensures View() == World.World(1, initial, map[], [], [], [], [], Resource(0, 0, 0), 1, 1)
    {
      turn := 1;
      map_ := new Map(initial);
      registry := new TileRegistry();
      diplomacy := new DiplomacyManager();
      fog := new Fog.FogOfWar(initial.height, initial.width);
      cities, buildings, units, factions := [], [], [], [];
      factionResources := Resource(0, 0, 0);
      nextCityId, nextBuildingId := 1, 1;
    }

    method NextTurn()
      requires Valid()
      modifies this`turn
      ensures Valid() && View() == old(View()).(turn := old(turn) + 1)
    {
      hide Agrees, StatesOf, CityStatesOf, Positions, Registered, Unregistered, NoDuplicates, OwnedCities;
      turn := turn + 1;
    }

    method SetTurn(t: int)
      requires Valid()
      modifies this`turn
      ensures Valid() && View() == old(View()).(turn := t)
    {
      hide Agrees, StatesOf, CityStatesOf, Positions, Registered, Unregistered, NoDuplicates, OwnedCities;
      turn := t;
    }

    /** The faction looks around: its fog remembers this state as seen now. */
    method RecalculateFog(f: FactionId)
      requires Valid() && fog.Valid()
      modifies fog
      ensures Valid() && View() == old(View()) && fog.Valid()
      ensures fog.sights == old(fog.sights) + [Fog.Sight(f, map_.height, map_.width, View().units, View().cities)]
    {
      hide Agrees, StatesOf, CityStatesOf, Positions, OwnedCities;
      fog.Recalculate(f, units, cities, map_);
    }

    // ---- Units -----------------------------------------------------------------------

    method AddUnit(u: Unit) returns (index: nat)
      requires Valid() && u.Valid() && u !in units
      modifies this`units, registry`units
      ensures Valid() && units == old(units) + [u]
      ensures View() == old(View()).(units := old(View()).units + [u.State()])
      ensures index == |old(units)|
    {
      hide Agrees, StatesOf, CityStatesOf, Positions, Registered, Unregistered, NoDuplicates, OwnedCities;
      AgreesAfterAdd(registry.units, units, Positions(StatesOf(units)), u, u.Pos());
      registry.RegisterUnit(u.Pos(), u);
      units := units + [u];
      assert StatesOf(units) == old(StatesOf(units)) + [u.State()];
      PositionsAdd(old(StatesOf(units)), u.State());
      return |units| - 1;
    }

    /** False stands for the exception an index out of range throws. */
    method RemoveUnit(index: nat) returns (ok: bool)
      requires Valid()
      modifies this`units, registry`units
      ensures Valid() && ok == (index < |old(units)|)
      ensures units == if ok then RemoveAt(old(units), index) else old(units)
      ensures View() == if ok then old(View()).(units := RemoveAt(old(View()).units, index)) else old(View())
    {
      hide Agrees, StatesOf, CityStatesOf, Positions, Registered, Unregistered, NoDuplicates, OwnedCities;
      if index >= |units| {
        return false;
      }
      var u := units[index];
      AgreesAfterRemove(registry.units, units, Positions(StatesOf(units)), index);
      registry.UnregisterUnit(u.Pos(), u);
      units := units[..index] + units[index + 1..];
      assert StatesOf(units) == RemoveAt(old(StatesOf(units)), index);
      PositionsRemove(old(StatesOf(units)), index);
      return true;
    }

    /** One step of the walk over the dead: unit `index` goes if it is dead, and the selection is cleared or shifted. */
    method DropIfDead(index: nat, selected: int) returns (dropped: bool, selected': int)
      requires Valid() && index < |units|
      modifies this`units, registry`units
      ensures Valid() && dropped == !old(View()).units[index].Alive()
      ensures units == if dropped then RemoveAt(old(units), index) else old(units)
      ensures View() == if dropped then old(View()).(units := RemoveAt(old(View()).units, index)) else old(View())
      ensures selected' == if dropped then Shifted(selected, index) else selected
    {
      hide Agrees, StatesOf, CityStatesOf, Positions, NoDuplicates, OwnedCities;
      dropped, selected' := false, selected;
      if !units[index].IsAlive() {
        var _ := RemoveUnit(index);
        dropped := true;
        if selected' == index {
          selected' := -1;
        } else if selected' > index {
          selected' := selected' - 1;
        }
      }
    }

    /** Removes the dead units, walking backwards, and keeps the selection on the unit it was on: a living unit
        keeps it, a dead one clears it.  A selection past the end is shifted down with the units below it, and a
        negative one is left alone. */
    method RemoveDeadUnits(selected: int) returns (removed: nat, selected': int)
      requires Valid()
      modifies this`units, registry`units
      ensures Valid() && removed == |old(units)| - |units|
      ensures View() == old(View()).(units := Living(old(View()).units))
      ensures 0 <= selected < |old(units)| && old(View()).units[selected].Alive() ==>
                0 <= selected' < |units| && units[selected'] == old(units)[selected]
      ensures 0 <= selected < |old(units)| && !old(View()).units[selected].Alive() ==> selected' == -1
      ensures selected < 0 ==> selected' == selected
      ensures selected >= |old(units)| ==> selected' == selected - removed
    {
      hide Agrees, StatesOf, CityStatesOf, Positions, NoDuplicates, OwnedCities, QueuesOf, RemoveAt,
           SelectionFollows, Walked, IndexAgrees, GameState.IndexAgrees, Map.Valid, Map.View, UnitState.Ok,
           Unit.Valid;
      removed, selected' := 0, selected;
      ghost var all, before := units, View();
      var i := |units|;
      WalkStarts(before, all, selected);
      while i > 0
        invariant Valid() && 0 <= i <= |all| && i <= |units|
        invariant Walked(before, all, View(), units, i, selected, selected', removed)
      {
        i := i - 1;
        WalkStep(before, all, View(), units, i, selected, selected', removed);
        var dropped;
        dropped, selected' := DropIfDead(i, selected');
        if dropped {
          removed := removed + 1;
        }
      }
      WalkEnds(before, all, View(), units, selected, selected', removed);
    }

    // ---- Cities and buildings ------------------------------------------------------------

    /** Registers the centre tile only. */
    method AddCity(city: City) returns (id: CityId)
      requires Valid() && city.Valid() && city !in cities && city.buildQueue !in QueuesOf(cities)
      modifies this`cities, this`nextCityId, registry`cities, city`id
      ensures Valid() && cities == old(cities) + [city] && id == old(nextCityId)
      ensures View() == old(View()).(cities := old(View()).cities + [old(city.State()).(id := id)], nextCityId := id + 1)
      ensures registry.cities == old(registry.cities)[city.centre := id]
    {
      hide Agrees, StatesOf, CityStatesOf, Positions, OwnedCities;
      id := nextCityId;
      city.id := id;
      nextCityId := nextCityId + 1;
      registry.RegisterCity(city.centre, id);
      assert OwnedCities(cities);
      OwnedCitiesAdd(cities, city);
      cities := cities + [city];
      assert CityStatesOf(cities) == old(CityStatesOf(cities)) + [old(city.State()).(id := id)];
    }

    /** Registers every tile of the city and keeps its id. */
    method RestoreCity(city: City)
      requires Valid() && city.Valid() && city !in cities && city.buildQueue !in QueuesOf(cities)
      modifies this`cities, registry`cities
      ensures Valid() && cities == old(cities) + [city]
      ensures View() == old(View()).(cities := old(View()).cities + [city.State()])
      ensures forall p :: p in registry.cities <==> p in old(registry.cities) || p in city.tiles
      ensures forall p :: p in registry.cities ==>
                registry.cities[p] == if p in city.tiles then city.id else old(registry.cities)[p]
    {
      hide Agrees, StatesOf, CityStatesOf, Positions, OwnedCities;
      RegisterCityTiles(registry, city.tiles, city.id);
      OwnedCitiesAdd(cities, city);
      cities := cities + [city];
      assert CityStatesOf(cities) == old(CityStatesOf(cities)) + [city.State()];
    }

    /** Registers the first tile only, if there is one. */
    method AddBuilding(building: Building) returns (id: BuildingId)
      requires Valid()
      modifies this`buildings, this`nextBuildingId, registry`buildings
      ensures Valid() && id == old(nextBuildingId)
      ensures registry.buildings == if building.occupiedTiles == {} then old(registry.buildings)
                                    else old(registry.buildings)[FirstTile(building.occupiedTiles) := id]
      ensures View() == old(View()).(buildings := old(buildings) + [building.(id := id)], nextBuildingId := id + 1)
    {
      hide Agrees, StatesOf, CityStatesOf, Positions;
      id := nextBuildingId;
      nextBuildingId := nextBuildingId + 1;
      if building.occupiedTiles != {} {
        registry.RegisterBuilding(FirstTile(building.occupiedTiles), id);
      }
      buildings := buildings + [building.(id := id)];
    }

    /** Registers every tile of the building and keeps its id. */
    method RestoreBuilding(building: Building)
      requires Valid()
      modifies this`buildings, registry`buildings
      ensures Valid()
      ensures View() == old(View()).(buildings := old(buildings) + [building])
      ensures forall p :: p in registry.buildings <==> p in old(registry.buildings) || p in building.occupiedTiles
      ensures forall p :: p in registry.buildings ==>
                registry.buildings[p] == if p in building.occupiedTiles then building.id else old(registry.buildings)[p]
    {
      hide Agrees, StatesOf, CityStatesOf, Positions, OwnedCities;
      RegisterBuildingTiles(registry, building.occupiedTiles, building.id);
      buildings := buildings + [building];
    }

    method SetNextCityId(id: CityId)
      requires Valid()
      modifies this`nextCityId
      ensures Valid() && View() == old(View()).(nextCityId := id)
    {
      hide Agrees, StatesOf, CityStatesOf, Positions;
      nextCityId := id;
    }

    method SetNextBuildingId(id: BuildingId)
      requires Valid()
      modifies this`nextBuildingId
      ensures Valid() && View() == old(View()).(nextBuildingId := id)
    {
      hide Agrees, StatesOf, CityStatesOf, Positions;
      nextBuildingId := id;
    }

    method SetFactionResources(r: Resource)
      requires Valid()
      modifies this`factionResources
      ensures Valid() && View() == old(View()).(factionResources := r)
    {
      hide Agrees, StatesOf, CityStatesOf, Positions;
      factionResources := r;
    }
  }

  /** Where the selection is after the units from index `i` on have been handled. */
  ghost predicate SelectionFollows(all: seq<Unit>, states: seq<UnitState>, left: seq<Unit>, i: nat, selected: int, current: int, removed: int)
    requires |states| == |all|
  {
    if selected < 0 then current == selected
    else if selected >= |all| then current == selected - removed
    else if selected < i then current == selected
    else if states[selected].Alive() then i <= current < |left| && left[current] == all[selected]
    else current == -1
  }

  /** A selection after unit `i` is removed. */
  function Shifted(selected: int, i: nat): int {
    if selected == i then -1 else if selected > i then selected - 1 else selected
  }

  /** The walk over the units `before`, listed as `all`, has handled those from index `i` on. */
  ghost predicate Walked(before: World, all: seq<Unit>, now: World, left: seq<Unit>, i: nat, selected: int, current: int, removed: int) {
    && |before.units| == |all| && |now.units| == |left| && removed == |all| - |left|
    && i <= |all| && i <= |left| && left[..i] == all[..i]
    && now == before.(units := before.units[..i] + Living(before.units[i..]))
    && SelectionFollows(all, before.units, left, i, selected, current, removed)
  }

  lemma WalkStarts(before: World, all: seq<Unit>, selected: int)
    requires |before.units| == |all|
    ensures Walked(before, all, before, all, |all|, selected, selected, 0)
  {
    assert before.units[..|all|] + Living(before.units[|all|..]) == before.units;
  }

  lemma WalkEnds(before: World, all: seq<Unit>, now: World, left: seq<Unit>, selected: int, current: int, removed: int)
    requires Walked(before, all, now, left, 0, selected, current, removed)
    ensures removed == |all| - |left| && now == before.(units := Living(before.units))
    ensures |before.units| == |all|
    ensures 0 <= selected < |all| && before.units[selected].Alive() ==>
              0 <= current < |left| && left[current] == all[selected]
    ensures 0 <= selected < |all| && !before.units[selected].Alive() ==> current == -1
    ensures selected < 0 ==> current == selected
    ensures selected >= |all| ==> current == selected - removed
  {
    assert before.units[0..] == before.units;
    assert before.units[..0] + Living(before.units) == Living(before.units);
  }

  lemma LivingStep(states: seq<UnitState>, i: nat)
    requires i < |states|
    ensures var before, after := states[..i + 1] + Living(states[i + 1..]), states[..i] + Living(states[i..]);
            before[i] == states[i] && after == if states[i].Alive() then before else RemoveAt(before, i)
  {
    assert states[i..][0] == states[i] && states[i..][1..] == states[i + 1..];
  }

  lemma SelectionStep(all: seq<Unit>, states: seq<UnitState>, left: seq<Unit>, i: nat, selected: int, current: int, removed: int)
    requires |states| == |all| && i < |all| && i < |left| && left[..i + 1] == all[..i + 1] && removed == |all| - |left|
    requires SelectionFollows(all, states, left, i + 1, selected, current, removed)
    ensures states[i].Alive() ==> SelectionFollows(all, states, left, i, selected, current, removed)
    ensures !states[i].Alive() ==>
              SelectionFollows(all, states, RemoveAt(left, i), i, selected, Shifted(current, i), removed + 1)
  {
    assert left[i] == left[..i + 1][i] == all[i];
  }

  /** Handling unit `i`: if it lives nothing changes, and if not it goes and the selection is cleared or shifted. */
  lemma WalkStep(before: World, all: seq<Unit>, now: World, left: seq<Unit>, i: nat, selected: int, current: int, removed: int)
    requires Walked(before, all, now, left, i + 1, selected, current, removed)
    ensures i < |left| == |now.units| && i < |all|
    ensures now.units[i].Alive() ==> Walked(before, all, now, left, i, selected, current, removed)
    ensures !now.units[i].Alive() ==>
              && i <= |RemoveAt(left, i)|
              && Walked(before, all, now.(units := RemoveAt(now.units, i)), RemoveAt(left, i), i, selected,
                        Shifted(current, i), removed + 1)
  {
    hide Living, SelectionFollows;
    LivingStep(before.units, i);
    SelectionStep(all, before.units, left, i, selected, current, removed);
    assert left[i] == left[..i + 1][i] == all[i];
    assert left[..i] == left[..i + 1][..i] == all[..i];
    assert RemoveAt(left, i)[..i] == left[..i];
  }
}
