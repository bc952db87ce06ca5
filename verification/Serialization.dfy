/** Saving a game state into a message and loading it back, proved to follow the save format. */
module Serialization {
  import opened Common
  import opened Hex
  import opened Terrain
  import opened Diplomacy
  import opened Units
  import opened Registry
  import opened Cities
  import opened TileSets
  import opened Worlds
  import opened GameStates
  import opened SaveFormat

  // ---- Saving -----------------------------------------------------------------------------

  method SerializeTiles(map_: Map) returns (tiles: seq<TileMessage>)
    requires map_.Valid()
    ensures tiles == TilesBefore(map_.View(), map_.height, 0)
  {
    tiles := [];
    for row := 0 to map_.height
      invariant tiles == TilesBefore(map_.View(), row, 0)
    {
      for col := 0 to map_.width
        invariant tiles == TilesBefore(map_.View(), row, col)
      {
        tiles := tiles + [TileMessage(row, col, TerrainCode(map_.Tile(Coord(row, col))))];
      }
    }
  }

  /** Iterates a set of tiles in its order. */
  method ListTiles(tiles: set<Coord>) returns (rows: seq<int>, cols: seq<int>)
    ensures rows == Rows(Sorted(tiles)) && cols == Cols(Sorted(tiles))
  {
    rows, cols := [], [];
    var todo := tiles;
    ghost var done: seq<Coord> := [];
    while todo != {}
      invariant done + Sorted(todo) == Sorted(tiles)
      invariant rows == Rows(done) && cols == Cols(done)
    {
      var tile := FirstTile(todo);
      assert done + [tile] + Sorted(todo - {tile}) == done + Sorted(todo);
      rows, cols, done := rows + [tile.row], cols + [tile.col], done + [tile];
      todo := todo - {tile};
    }
    assert done + [] == done;
  }

  method SerializeItems(queue: BuildQueue) returns (messages: seq<ItemMessage>)
    ensures |messages| == |queue.queue| && forall i :: 0 <= i < |messages| ==> messages[i] == WriteItem(queue.queue[i])
  {
    var items := queue.AllItems();
    messages := [];
    for i := 0 to |items|
      invariant |messages| == i && forall j :: 0 <= j < i ==> messages[j] == WriteItem(items[j])
    {
      messages := messages + [match items[i]
                              case UnitOrder(name, cost, target, key) => ItemMessage(name, cost, target.row, target.col, 1, key)
                              case BuildingOrder(name, cost, target, _) => ItemMessage(name, cost, target.row, target.col, 0, "")];
    }
  }

  method SerializeCity(city: City) returns (m: CityMessage)
    ensures m == WriteCity(city.State())
  {
    hide Sorted, WriteItem, Rows, Cols;
    var rows, cols := ListTiles(city.tiles);
    var items := SerializeItems(city.buildQueue);
    m := CityMessage(city.id, city.name, city.centre.row, city.centre.col, city.factionId, city.population, rows, cols,
                     items, city.buildQueue.accumulated, city.foodSurplus);
    assert items == WriteCity(city.State()).items;
  }

  method SerializeBuilding(b: Building) returns (m: BuildingMessage)
    ensures m == WriteBuilding(b)
  {
    hide Sorted, Rows, Cols;
    var rows, cols := ListTiles(b.occupiedTiles);
    var terrains: seq<int> := [];
    for n := 0 to |ALL_TERRAINS|
      invariant terrains == TerrainCodes(b.allowedTerrains, n)
    {
      if ALL_TERRAINS[n] in b.allowedTerrains {
        terrains := terrains + [n];
      }
    }
    m := BuildingMessage(b.id, b.name, rows, cols, b.yieldPerTurn, b.constructionCost, terrains, b.modelKey, b.factionId,
                         b.underConstruction);
  }

  method SerializeUnit(u: Unit) returns (r: Result<UnitMessage, SaveError>)
    ensures r == WriteUnit(u.State())
  {
    match UnitTypeCode(u.tmpl.name)
    case Err(e) => return Err(e);
    case Ok(code) =>
      return Ok(UnitMessage(code, u.row, u.col, u.health, u.movementRemaining, ToSigned(u.factionId), u.experience));
  }

  method SerializeUnits(units: seq<Unit>) returns (r: Result<seq<UnitMessage>, SaveError>)
    ensures r == Collect(StatesOf(units), WriteUnit)
  {
    hide WriteUnit, StatesOf;
    ghost var states := StatesOf(units);
    var messages: seq<UnitMessage> := [];
    for i := 0 to |units|
      invariant Collect(states[..i], WriteUnit) == Ok(messages)
    {
      CollectStep(states, WriteUnit, i);
      var m := SerializeUnit(units[i]);
      if m.Err? {
        CollectFails(states, WriteUnit, i + 1);
        return Err(m.error);
      }
      messages := messages + [m.value];
    }
    assert states[..|units|] == states;
    return Ok(messages);
  }

  method SerializeCities(cities: seq<City>) returns (messages: seq<CityMessage>)
    ensures |messages| == |cities|
    ensures forall k :: 0 <= k < |cities| ==> messages[k] == WriteCity(CityStatesOf(cities)[k])
  {
    hide *;
    messages := [];
    for k := 0 to |cities|
      invariant |messages| == k && forall j :: 0 <= j < k ==> messages[j] == WriteCity(CityStatesOf(cities)[j])
    {
      var m := SerializeCity(cities[k]);
      messages := messages + [m];
    }
  }

  method SerializeBuildings(buildings: seq<Building>) returns (messages: seq<BuildingMessage>)
    ensures |messages| == |buildings| && forall k :: 0 <= k < |buildings| ==> messages[k] == WriteBuilding(buildings[k])
  {
    messages := [];
    for k := 0 to |buildings|
      invariant |messages| == k && forall j :: 0 <= j < k ==> messages[j] == WriteBuilding(buildings[j])
    {
      var m := SerializeBuilding(buildings[k]);
      messages := messages + [m];
    }
  }

  method SerializeGameState(state: GameState) returns (r: Result<StateMessage, SaveError>)
    requires state.Valid()
    ensures r == Write(state.View())
  {
    hide Agrees, StatesOf, CityStatesOf, WriteCity, WriteBuilding, WriteUnit, TilesBefore, Collect;
    var tiles := SerializeTiles(state.map_);
    var cities := SerializeCities(state.cities);
    var buildings := SerializeBuildings(state.buildings);
    var units := SerializeUnits(state.units);
    if units.Err? {
      return Err(units.error);
    }
    r := Ok(StateMessage(SCHEMA_VERSION, state.turn, state.map_.width, state.map_.height, tiles, cities, buildings,
                         units.value, state.factionResources, state.nextCityId, state.nextBuildingId));
    assert Write(state.View()).value.cities == cities;
    assert Write(state.View()).value.buildings == buildings;
  }

  // ---- Loading ----------------------------------------------------------------------------

  method LoadTerrain(map_: Map, tiles: seq<TileMessage>) returns (error: Option<LoadError>)
    requires map_.Valid() && TilesInMap(map_.View(), tiles)
    modifies map_`tiles
    ensures map_.Valid()
    ensures match error
            case None => Painted(old(map_.View()), tiles) == Ok(map_.View())
            case Some(e) => Painted(old(map_.View()), tiles) == Err(e)
  {
    hide WithTerrain, TerrainOf;
    ghost var before := map_.View();
    for i := 0 to |tiles|
      invariant map_.Valid() && Painted(before, tiles[..i]) == Ok(map_.View())
    {
      PaintedStep(before, tiles, i);
      var t := TerrainOf(tiles[i].terrain);
      if t.Err? {
        PaintedFails(before, tiles, i + 1);
        return Some(t.error);
      }
      map_.SetTerrainType(Coord(tiles[i].row, tiles[i].col), t.value);
    }
    assert tiles[..|tiles|] == tiles;
    return None;
  }

  /** The queue is filled item by item; an unknown building name stops it. */
  method LoadItems(queue: BuildQueue, messages: seq<ItemMessage>) returns (error: Option<LoadError>)
    requires queue.queue == []
    modifies queue`queue, queue`accumulated
    ensures match error
            case None => Collect(messages, ReadItem) == Ok(queue.queue)
            case Some(e) => Collect(messages, ReadItem) == Err(e)
  {
    for i := 0 to |messages|
      invariant Collect(messages[..i], ReadItem) == Ok(queue.queue)
    {
      CollectStep(messages, ReadItem, i);
      var m := messages[i];
      var target := Coord(m.targetRow, m.targetCol);
      if m.orderType == 1 {
        queue.RestoreItem(UnitOrder(m.name, m.productionCost, target, m.templateKey));
      } else {
        var factory := FactoryNamed(m.name);
        if factory.Err? {
          CollectFails(messages, ReadItem, i + 1);
          return Some(factory.error);
        }
        queue.RestoreItem(BuildingOrder(m.name, m.productionCost, target, factory.value));
      }
    }
    assert messages[..|messages|] == messages;
    return None;
  }

  method LoadTiles(city: City, rows: seq<int>, cols: seq<int>)
    requires city.Valid() && |rows| <= |cols|
    modifies city`tiles
    ensures city.Valid() && city.tiles == old(city.tiles) + ListedTiles(rows, cols)
  {
    for i := 0 to |rows|
      invariant city.Valid() && city.tiles == old(city.tiles) + ListedTiles(rows[..i], cols)
    {
      var _ := city.AddTile(Coord(rows[i], cols[i]));
      OneMoreTile(rows, cols, i);
    }
    assert rows[..|rows|] == rows;
  }

  lemma OneMoreTile(rows: seq<int>, cols: seq<int>, i: nat)
    requires i < |rows| <= |cols|
    ensures ListedTiles(rows[..i + 1], cols) == ListedTiles(rows[..i], cols) + {Coord(rows[i], cols[i])}
  {
    var shorter, longer := rows[..i], rows[..i + 1];
    assert Coord(longer[i], cols[i]) in ListedTiles(longer, cols);
    forall c | c in ListedTiles(shorter, cols)
      ensures c in ListedTiles(longer, cols)
    {
      var j :| 0 <= j < i && c == Coord(shorter[j], cols[j]);
      assert c == Coord(longer[j], cols[j]);
    }
    forall c | c in ListedTiles(longer, cols) && c != Coord(rows[i], cols[i])
      ensures c in ListedTiles(shorter, cols)
    {
      var j :| 0 <= j < i + 1 && c == Coord(longer[j], cols[j]);
      assert c == Coord(shorter[j], cols[j]);
    }
  }

  method LoadCity(m: CityMessage) returns (r: Result<City, LoadError>)
    requires m.population >= 1 && |m.tileRows| <= |m.tileCols|
    ensures match r
            case Err(e) => ReadCity(m) == Err(e)
            case Ok(city) => fresh(city) && fresh(city.buildQueue) && city.Valid() && ReadCity(m) == Ok(city.State())
  {
    hide Collect, ListedTiles, ReadItem;
    var city := new City(m.name, Coord(m.centreRow, m.centreCol), m.factionId);
    city.SetId(m.id);
    city.GrowPopulation(m.population - 1);
    LoadTiles(city, m.tileRows, m.tileCols);
    var error := LoadItems(city.buildQueue, m.items);
    if error.Some? {
      return Err(error.value);
    }
    city.buildQueue.SetAccumulatedProduction(m.accumulated);
    city.SetFoodSurplus(m.foodSurplus);
    return Ok(city);
  }

  method LoadBuilding(m: BuildingMessage) returns (r: Result<Building, LoadError>)
    requires |m.tileRows| <= |m.tileCols|
    ensures r == ReadBuilding(m)
  {
    hide TerrainOf;
    var tiles: set<Coord> := {};
    for i := 0 to |m.tileRows|
      invariant tiles == ListedTiles(m.tileRows[..i], m.tileCols)
    {
      OneMoreTile(m.tileRows, m.tileCols, i);
      tiles := tiles + {Coord(m.tileRows[i], m.tileCols[i])};
    }
    assert m.tileRows[..|m.tileRows|] == m.tileRows;
    var terrains: set<TerrainType> := {};
    ghost var read: seq<TerrainType> := [];
    for i := 0 to |m.allowedTerrains|
      invariant Collect(m.allowedTerrains[..i], TerrainOf) == Ok(read) && terrains == TerrainSet(read)
    {
      CollectStep(m.allowedTerrains, TerrainOf, i);
      var t := TerrainOf(m.allowedTerrains[i]);
      if t.Err? {
        CollectFails(m.allowedTerrains, TerrainOf, i + 1);
        return Err(t.error);
      }
      assert TerrainSet(read + [t.value]) == TerrainSet(read) + {t.value};
      terrains, read := terrains + {t.value}, read + [t.value];
    }
    assert m.allowedTerrains[..|m.allowedTerrains|] == m.allowedTerrains;
    return Ok(Building(m.id, m.name, m.yieldPerTurn, m.constructionCost, tiles, terrains, m.modelKey, m.factionId,
                       m.underConstruction));
  }

  method LoadUnit(m: UnitMessage) returns (r: Result<Unit, LoadError>)
    ensures match r
            case Err(e) => ReadUnit(m) == Err(e)
            case Ok(u) => fresh(u) && u.Valid() && ReadUnit(m) == Ok(u.State())
  {
    hide LevelOf, IsLevelFor;
    var tmpl := TemplateOf(m.unitType);
    if tmpl.Err? {
      return Err(tmpl.error);
    }
    var u := new Unit(Coord(m.row, m.col), tmpl.value, ToFactionId(m.factionId));
    u.SetHealth(m.health);
    u.SetMovementRemaining(m.movementRemaining);
    u.SetExperience(m.experience);
    return Ok(u);
  }

  method LoadAndRestoreCity(state: GameState, m: CityMessage) returns (error: Option<LoadError>)
    requires state.Valid() && m.population >= 1 && |m.tileRows| <= |m.tileCols|
    modifies state`cities, state.registry`cities
    ensures state.Valid()
    ensures match error
            case None => ReadCity(m).Ok?
                         && state.View() == old(state.View()).(cities := old(state.View()).cities + [ReadCity(m).value])
            case Some(e) => ReadCity(m) == Err(e)
  {
    hide ReadCity, Agrees, StatesOf, CityStatesOf, Positions, OwnedCities;
    ghost var before := state.View();
    var city := LoadCity(m);
    if city.Err? {
      return Some(city.error);
    }
    assert state.View() == before;
    state.RestoreCity(city.value);
    return None;
  }

  method LoadCities(state: GameState, messages: seq<CityMessage>) returns (error: Option<LoadError>)
    requires state.Valid() && state.cities == []
    requires forall k :: 0 <= k < |messages| ==> messages[k].population >= 1 && |messages[k].tileRows| <= |messages[k].tileCols|
    modifies state`cities, state.registry`cities
    ensures state.Valid()
    ensures match error
            case None => Collect(messages, ReadCity).Ok?
                         && state.View() == old(state.View()).(cities := Collect(messages, ReadCity).value)
            case Some(e) => Collect(messages, ReadCity) == Err(e)
  {
    hide ReadCity, Agrees, StatesOf, CityStatesOf, Positions, OwnedCities;
    ghost var before := state.View();
    for k := 0 to |messages|
      invariant state.Valid()
      invariant Collect(messages[..k], ReadCity) == Ok(state.View().cities)
      invariant state.View() == before.(cities := state.View().cities)
    {
      CollectStep(messages, ReadCity, k);
      error := LoadAndRestoreCity(state, messages[k]);
      if error.Some? {
        CollectFails(messages, ReadCity, k + 1);
        return;
      }
    }
    assert messages[..|messages|] == messages;
    return None;
  }

  method LoadBuildings(state: GameState, messages: seq<BuildingMessage>) returns (error: Option<LoadError>)
    requires state.Valid() && state.buildings == []
    requires forall k :: 0 <= k < |messages| ==> |messages[k].tileRows| <= |messages[k].tileCols|
    modifies state`buildings, state.registry`buildings
    ensures state.Valid()
    ensures match error
            case None => Collect(messages, ReadBuilding).Ok?
                         && state.View() == old(state.View()).(buildings := Collect(messages, ReadBuilding).value)
            case Some(e) => Collect(messages, ReadBuilding) == Err(e)
  {
    hide ReadBuilding, Agrees, StatesOf, CityStatesOf, Positions, OwnedCities;
    ghost var before := state.View();
    for k := 0 to |messages|
      invariant state.Valid()
      invariant Collect(messages[..k], ReadBuilding) == Ok(state.View().buildings)
      invariant state.View() == before.(buildings := state.View().buildings)
    {
      CollectStep(messages, ReadBuilding, k);
      var b := LoadBuilding(messages[k]);
      if b.Err? {
        CollectFails(messages, ReadBuilding, k + 1);
        return Some(b.error);
      }
      state.RestoreBuilding(b.value);
    }
    assert messages[..|messages|] == messages;
    return None;
  }

  method LoadUnits(state: GameState, messages: seq<UnitMessage>) returns (error: Option<LoadError>)
    requires state.Valid() && state.units == []
    modifies state`units, state.registry`units
    ensures state.Valid()
    ensures match error
            case None => Collect(messages, ReadUnit).Ok?
                         && state.View() == old(state.View()).(units := Collect(messages, ReadUnit).value)
            case Some(e) => Collect(messages, ReadUnit) == Err(e)
  {
    hide ReadUnit, Agrees, StatesOf, CityStatesOf, Positions, OwnedCities, GameState.IndexAgrees, Map.Valid,
         Map.View, UnitState.Ok, Unit.Valid;
    ghost var before := state.View();
    for k := 0 to |messages|
      invariant state.Valid()
      invariant Collect(messages[..k], ReadUnit) == Ok(state.View().units)
      invariant state.View() == before.(units := state.View().units)
    {
      CollectStep(messages, ReadUnit, k);
      var u := LoadUnit(messages[k]);
      if u.Err? {
        CollectFails(messages, ReadUnit, k + 1);
        return Some(u.error);
      }
      var _ := state.AddUnit(u.value);
    }
    assert messages[..|messages|] == messages;
    return None;
  }

  /** Loading stops at the first entry it cannot read; otherwise the state shows what the message says, and its
      unit index has been rebuilt along with it.  `blank` is the terrain the fresh map was drawn with. */
  method DeserializeGameState(m: StateMessage, blank: Grid) returns (r: Result<GameState, LoadError>)
    requires InBounds(m) && (m.height > 0 && m.width > 0 ==> blank.height == m.height && blank.width == m.width)
    ensures match r
            case Err(e) => Read(m, blank) == Err(e)
            case Ok(state) => fresh(state) && state.Valid() && Read(m, blank) == Ok(state.View())
  {
    hide Painted, Collect, ReadCity, ReadBuilding, ReadUnit, Agrees, StatesOf, CityStatesOf, Positions, OwnedCities;
    if m.height <= 0 || m.width <= 0 {
      return Err(InvalidDimensions);
    }
    var state := new GameState(blank);
    state.SetTurn(m.turn);
    var error := LoadStateTerrain(state, m.tiles);
    if error.Some? {
      return Err(error.value);
    }
    error := LoadCities(state, m.cities);
    if error.Some? {
      return Err(error.value);
    }
    state.SetNextCityId(m.nextCityId);
    error := LoadBuildings(state, m.buildings);
    if error.Some? {
      return Err(error.value);
    }
    state.SetNextBuildingId(m.nextBuildingId);
    error := LoadUnits(state, m.units);
    if error.Some? {
      return Err(error.value);
    }
    state.SetFactionResources(m.factionResources);
    return Ok(state);
  }

  method LoadStateTerrain(state: GameState, tiles: seq<TileMessage>) returns (error: Option<LoadError>)
    requires state.Valid() && TilesInMap(state.View().grid, tiles)
    modifies state.map_`tiles
    ensures state.Valid()
    ensures match error
            case None => Painted(old(state.View()).grid, tiles).Ok?
                         && state.View() == old(state.View()).(grid := Painted(old(state.View()).grid, tiles).value)
            case Some(e) => Painted(old(state.View()).grid, tiles) == Err(e)
  {
    hide Painted, Agrees, StatesOf, CityStatesOf, Positions, OwnedCities;
    error := LoadTerrain(state.map_, tiles);
  }

  method SaveThenLoad(state: GameState, blank: Grid) returns (message: StateMessage, loaded: GameState)
    requires state.Valid() && IsSaveable(state.View()) && state.map_.height > 0 && state.map_.width > 0
    requires blank.height == state.map_.height && blank.width == state.map_.width
    ensures Write(state.View()) == Ok(message)
    ensures fresh(loaded) && loaded.Valid() && loaded.View() == Saved(state.View())
  {
    hide Write, Read, InBounds, Saved, IsSaveable, Agrees, StatesOf, CityStatesOf, Positions, OwnedCities;
    ghost var w := state.View();
    state.ValidViewIsOk();
    SaveableIsWritten(w);
    SaveLoadRoundTrip(w, blank);
    WrittenSize(w);
    var r := SerializeGameState(state);
    assert state.View() == w;
    message := r.value;
    var l := DeserializeGameState(message, blank);
    assert state.View() == w;
    loaded := l.value;
  }

  /** Saving a state and loading the message, on any terrain, gives back all that is saved, when all that is
      saved can be; and saving once more gives the same message. */
  method SaveLoadSave(state: GameState, blank: Grid) returns (loaded: GameState, first: StateMessage, second: StateMessage)
    requires state.Valid() && IsSaveable(state.View()) && state.map_.height > 0 && state.map_.width > 0
    requires blank.height == state.map_.height && blank.width == state.map_.width
    ensures fresh(loaded) && loaded.Valid() && loaded.View() == Saved(state.View())
    ensures Write(state.View()) == Ok(first) && second == first
  {
    hide Write, Saved, IsSaveable, Agrees, StatesOf, CityStatesOf, Positions, OwnedCities;
    ghost var w := state.View();
    first, loaded := SaveThenLoad(state, blank);
    assert state.View() == w;
    SavingAgainGivesSameMessage(w);
    assert loaded.View() == Saved(w);
    var s := SerializeGameState(loaded);
    assert loaded.View() == Saved(w) && state.View() == w;
    second := s.value;
  }

  lemma SaveableIsWritten(w: World)
    requires IsSaveable(w)
    ensures Write(w).Ok?
  {
    SavingFailsOnUnknownNames(w);
  }

  lemma WrittenSize(w: World)
    requires Write(w).Ok?
    ensures Write(w).value.height == w.grid.height && Write(w).value.width == w.grid.width
  {
  }
}
