/** The saved message as a record, how a state is written into it and read back, and when nothing is lost. */
module SaveFormat {
  import opened Common
  import opened Hex
  import opened Terrain
  import opened Diplomacy
  import opened Units
  import opened Registry
  import opened Cities
  import opened TileSets
  import opened Worlds

  const SCHEMA_VERSION := 1

  // ---- Messages.  Enumerations are open in the message: any number can be in it. ---------------

  datatype TileMessage = TileMessage(row: int, col: int, terrain: int)

  datatype ItemMessage = ItemMessage(
    name: string, productionCost: int, targetRow: int, targetCol: int, orderType: int, templateKey: string)

  datatype CityMessage = CityMessage(
    id: CityId, name: string, centreRow: int, centreCol: int, factionId: int, population: int, tileRows: seq<int>,
    tileCols: seq<int>, items: seq<ItemMessage>, accumulated: int, foodSurplus: int)

  datatype BuildingMessage = BuildingMessage(
    id: BuildingId, name: string, tileRows: seq<int>, tileCols: seq<int>, yieldPerTurn: Resource,
    constructionCost: Resource, allowedTerrains: seq<int>, modelKey: string, factionId: FactionId, underConstruction: bool)

  datatype UnitMessage = UnitMessage(
    unitType: int, row: int, col: int, health: int, movementRemaining: int, factionId: int, experience: int)

  datatype StateMessage = StateMessage(
    schemaVersion: int, turn: int, width: int, height: int, tiles: seq<TileMessage>, cities: seq<CityMessage>,
    buildings: seq<BuildingMessage>, units: seq<UnitMessage>, factionResources: Resource, nextCityId: CityId,
    nextBuildingId: BuildingId)

  datatype SaveError = UnknownUnit(name: string)

  datatype LoadError =
    InvalidDimensions | UnknownTerrain(code: int) | UnknownBuilding(name: string) | UnspecifiedUnitType | UnknownUnitType(code: int)

  // ---- Lists of values that may fail to convert ----------------------------------------------

  /** The conversions of a list, or the error of the first entry that has none. */
  function Collect<A, B, E>(xs: seq<A>, f: A -> Result<B, E>): Result<seq<B>, E> {
    if xs == [] then Ok([])
    else
      match Collect(xs[..|xs| - 1], f)
      case Err(e) => Err(e)
      case Ok(ys) =>
        match f(xs[|xs| - 1])
        case Err(e) => Err(e)
        case Ok(y) => Ok(ys + [y])
  }

  lemma {:induction false} CollectElements<A, B, E>(xs: seq<A>, f: A -> Result<B, E>, ys: seq<B>)
    ensures Collect(xs, f) == Ok(ys) <==> |ys| == |xs| && forall i :: 0 <= i < |xs| ==> f(xs[i]) == Ok(ys[i])
  {
    if xs != [] {
      var n := |xs| - 1;
      if |ys| == n + 1 {
        CollectElements(xs[..n], f, ys[..n]);
        assert ys == ys[..n] + [ys[n]];
        assert forall i :: 0 <= i < n ==> xs[..n][i] == xs[i] && ys[..n][i] == ys[i];
      } else if Collect(xs[..n], f).Ok? {
        CollectElements(xs[..n], f, Collect(xs[..n], f).value);
      }
    }
  }

  /** Reading one entry more. */
  lemma CollectStep<A, B, E>(xs: seq<A>, f: A -> Result<B, E>, i: nat)
    requires i < |xs|
    ensures Collect(xs[..i + 1], f) == if Collect(xs[..i], f).Err? then Collect(xs[..i], f)
                                       else if f(xs[i]).Err? then Err(f(xs[i]).error)
                                       else Ok(Collect(xs[..i], f).value + [f(xs[i]).value])
  {
    assert xs[..i + 1][..i] == xs[..i];
  }

  /** The first failing entry decides the error. */
  lemma {:induction false} CollectFails<A, B, E>(xs: seq<A>, f: A -> Result<B, E>, i: nat)
    requires i <= |xs| && Collect(xs[..i], f).Err?
    ensures Collect(xs, f) == Collect(xs[..i], f)
    decreases |xs| - i
  {
    if i < |xs| {
      CollectStep(xs, f, i);
      CollectFails(xs, f, i + 1);
    } else {
      assert xs[..i] == xs;
    }
  }

  // ---- Terrain -------------------------------------------------------------------------

  function TerrainCode(t: TerrainType): int {
    match t case Plains => 0 case Hills => 1 case Forest => 2 case Water => 3 case Mountain => 4 case Desert => 5 case Swamp => 6
  }

  function TerrainOf(code: int): Result<TerrainType, LoadError> {
    if 0 <= code < |ALL_TERRAINS| then Ok(ALL_TERRAINS[code]) else Err(UnknownTerrain(code))
  }

  lemma TerrainRoundTrip(t: TerrainType)
    ensures TerrainOf(TerrainCode(t)) == Ok(t)
  {
  }

  /** The codes of the terrain types are their places in the enumeration, and no other number is one. */
  lemma TerrainCodesAreFixed(t: TerrainType, code: int)
    ensures TerrainOf(code) == Ok(t) <==> TerrainCode(t) == code
    ensures TerrainOf(code).Err? <==> code < 0 || code > 6
    ensures TerrainCode(Plains) == 0 && TerrainCode(Hills) == 1 && TerrainCode(Forest) == 2 && TerrainCode(Water) == 3
            && TerrainCode(Mountain) == 4 && TerrainCode(Desert) == 5 && TerrainCode(Swamp) == 6
  {
  }

  /** The tiles before `(row, col)`, row by row. */
  function TilesBefore(g: Grid, row: nat, col: nat): seq<TileMessage>
    requires row <= g.height && col <= g.width && (col > 0 ==> row < g.height)
    decreases row, col
  {
    if col > 0 then TilesBefore(g, row, col - 1) + [TileMessage(row, col - 1, TerrainCode(g.At(Coord(row, col - 1))))]
    else if row > 0 then TilesBefore(g, row - 1, g.width)
    else []
  }

  predicate TilesInMap(g: Grid, tiles: seq<TileMessage>) {
    forall i :: 0 <= i < |tiles| ==> g.Has(Coord(tiles[i].row, tiles[i].col))
  }

  /** The listed tiles get the listed terrain, in order. */
  function Painted(g: Grid, tiles: seq<TileMessage>): (r: Result<Grid, LoadError>)
    requires TilesInMap(g, tiles)
    ensures r.Ok? ==> r.value.height == g.height && r.value.width == g.width
  {
    if tiles == [] then Ok(g)
    else
      var last := tiles[|tiles| - 1];
      match Painted(g, tiles[..|tiles| - 1])
      case Err(e) => Err(e)
      case Ok(h) =>
        match TerrainOf(last.terrain)
        case Err(e) => Err(e)
        case Ok(t) => Ok(WithTerrain(h, Coord(last.row, last.col), t))
  }

  lemma PaintedStep(g: Grid, tiles: seq<TileMessage>, i: nat)
    requires TilesInMap(g, tiles) && i < |tiles|
    ensures Painted(g, tiles[..i + 1]) == if Painted(g, tiles[..i]).Err? then Painted(g, tiles[..i])
                                          else if TerrainOf(tiles[i].terrain).Err? then Err(TerrainOf(tiles[i].terrain).error)
                                          else Ok(WithTerrain(Painted(g, tiles[..i]).value, Coord(tiles[i].row, tiles[i].col),
                                                              TerrainOf(tiles[i].terrain).value))
  {
    assert tiles[..i + 1][..i] == tiles[..i];
  }

  lemma {:induction false} PaintedFails(g: Grid, tiles: seq<TileMessage>, i: nat)
    requires TilesInMap(g, tiles) && i <= |tiles| && Painted(g, tiles[..i]).Err?
    ensures Painted(g, tiles) == Painted(g, tiles[..i])
    decreases |tiles| - i
  {
    if i < |tiles| {
      PaintedStep(g, tiles, i);
      PaintedFails(g, tiles, i + 1);
    } else {
      assert tiles[..i] == tiles;
    }
  }

  /** Painting the tiles of one grid onto another of the same size copies those tiles and no others. */
  lemma {:induction false} PaintedCopies(g: Grid, onto: Grid, row: nat, col: nat)
    requires row <= g.height && col <= g.width && (col > 0 ==> row < g.height)
    requires onto.height == g.height && onto.width == g.width
    ensures TilesInMap(onto, TilesBefore(g, row, col))
    ensures var r := Painted(onto, TilesBefore(g, row, col));
            r.Ok? && forall c :: g.Has(c) ==> r.value.At(c) == if Before(c, Coord(row, col)) then g.At(c) else onto.At(c)
    decreases row, col
  {
    hide TerrainOf, TerrainCode;
    if col > 0 {
      PaintedCopies(g, onto, row, col - 1);
      var tiles, d := TilesBefore(g, row, col), Coord(row, col - 1);
      assert tiles[..|tiles| - 1] == TilesBefore(g, row, col - 1);
      TerrainRoundTrip(g.At(d));
      forall c | g.Has(c)
        ensures Before(c, Coord(row, col)) <==> Before(c, d) || c == d
      {
      }
    } else if row > 0 {
      PaintedCopies(g, onto, row - 1, g.width);
    }
  }

  lemma TerrainIsRestored(g: Grid, onto: Grid)
    requires onto.height == g.height && onto.width == g.width
    ensures TilesInMap(onto, TilesBefore(g, g.height, 0))
    ensures Painted(onto, TilesBefore(g, g.height, 0)) == Ok(g)
  {
    PaintedCopies(g, onto, g.height, 0);
    SameGrid(g, Painted(onto, TilesBefore(g, g.height, 0)).value);
  }

  // ---- Sets -----------------------------------------------------------------------------

  /** A set of tiles is written as two lists and read pair by pair. */
  function ListedTiles(rows: seq<int>, cols: seq<int>): set<Coord> {
    set i | 0 <= i < |rows| && i < |cols| :: Coord(rows[i], cols[i])
  }

  lemma TilesAreRestored(tiles: set<Coord>)
    ensures ListedTiles(Rows(Sorted(tiles)), Cols(Sorted(tiles))) == tiles
  {
    SortedLists(tiles);
    var list := Sorted(tiles);
    forall c
      ensures c in ListedTiles(Rows(list), Cols(list)) <==> c in tiles
    {
      if c in tiles {
        var i :| 0 <= i < |list| && list[i] == c;
        assert Coord(Rows(list)[i], Cols(list)[i]) == c;
      }
    }
  }

  /** The members of a terrain set among the first `n` terrains, in the order of the enumeration. */
  function TerrainCodes(terrains: set<TerrainType>, n: nat): seq<int>
    requires n <= |ALL_TERRAINS|
  {
    if n == 0 then []
    else
      var rest := TerrainCodes(terrains, n - 1);
      if ALL_TERRAINS[n - 1] in terrains then rest + [n - 1] else rest
  }

  function TerrainSet(terrains: seq<TerrainType>): set<TerrainType> {
    set t | t in terrains
  }

  lemma TerrainNumbers(n: nat, t: TerrainType)
    requires n < |ALL_TERRAINS|
    ensures TerrainCode(t) == n <==> t == ALL_TERRAINS[n]
    ensures TerrainOf(n) == Ok(ALL_TERRAINS[n])
  {
  }

  lemma {:induction false} TerrainCodesAreRead(terrains: set<TerrainType>, n: nat)
    requires n <= |ALL_TERRAINS|
    ensures var r := Collect(TerrainCodes(terrains, n), TerrainOf);
            r.Ok? && forall t :: t in r.value <==> t in terrains && TerrainCode(t) < n
  {
    hide TerrainCode, TerrainOf;
    if n == 0 {
      forall t: TerrainType
        ensures TerrainCode(t) >= 0
      {
        TerrainCodeIsNumber(t);
      }
    } else {
      TerrainCodesAreRead(terrains, n - 1);
      var t0 := ALL_TERRAINS[n - 1];
      forall t: TerrainType
        ensures TerrainCode(t) == n - 1 <==> t == t0
      {
        TerrainNumbers(n - 1, t);
      }
      OneMoreCode(terrains, n);
    }
  }

  lemma OneMoreCode(terrains: set<TerrainType>, n: nat)
    requires 1 <= n <= |ALL_TERRAINS| && Collect(TerrainCodes(terrains, n - 1), TerrainOf).Ok?
    ensures var rest, t0 := Collect(TerrainCodes(terrains, n - 1), TerrainOf).value, ALL_TERRAINS[n - 1];
            Collect(TerrainCodes(terrains, n), TerrainOf) == Ok(if t0 in terrains then rest + [t0] else rest)
  {
    hide TerrainOf;
    TerrainNumbers(n - 1, ALL_TERRAINS[n - 1]);
    var rest := TerrainCodes(terrains, n - 1);
    assert (rest + [n - 1])[..|rest|] == rest;
  }

  lemma TerrainCodeIsNumber(t: TerrainType)
    ensures 0 <= TerrainCode(t) < |ALL_TERRAINS|
  {
  }

  // ---- Units ---------------------------------------------------------------------------

  const WARRIOR := UnitTemplate("Warrior", 100, 15, 10, 2, 1, 2)
  const ARCHER := UnitTemplate("Archer", 70, 12, 5, 2, 3, 3)
  const SETTLER := UnitTemplate("Settler", 50, 0, 3, 3, 0, 2)

  /** Units are saved by the name of their template only. */
  function UnitTypeCode(name: string): Result<int, SaveError> {
    if name == "Warrior" then Ok(1)
    else if name == "Archer" then Ok(2)
    else if name == "Settler" then Ok(3)
    else Err(UnknownUnit(name))
  }

  function TemplateOf(code: int): Result<UnitTemplate, LoadError> {
    if code == 1 then Ok(WARRIOR)
    else if code == 2 then Ok(ARCHER)
    else if code == 3 then Ok(SETTLER)
    else if code == 0 then Err(UnspecifiedUnitType)
    else Err(UnknownUnitType(code))
  }

  function WriteUnit(u: UnitState): Result<UnitMessage, SaveError> {
    match UnitTypeCode(u.tmpl.name)
    case Err(e) => Err(e)
    case Ok(code) =>
      Ok(UnitMessage(code, u.pos.row, u.pos.col, u.health, u.movementRemaining, ToSigned(u.factionId), u.experience))
  }

  function ReadUnit(m: UnitMessage): Result<UnitState, LoadError> {
    match TemplateOf(m.unitType)
    case Err(e) => Err(e)
    case Ok(tmpl) =>
      Ok(UnitState(Coord(m.row, m.col), Clamp(m.health, tmpl.maxHealth), Clamp(m.movementRemaining, tmpl.movementRange),
                   ToFactionId(m.factionId), tmpl, Max(0, m.experience), LevelOf(Max(0, m.experience)), false))
  }

  /** The codes of the unit types: 1 for warriors, 2 for archers, 3 for settlers.  Zero and any other number are no unit
      type, and a name has a code exactly when a template of that name can be loaded. */
  lemma UnitCodesAreFixed(name: string, code: int)
    ensures UnitTypeCode(name) == Ok(code) <==> TemplateOf(code).Ok? && TemplateOf(code).value.name == name
    ensures TemplateOf(code).Ok? ==> TemplateOf(code).value.name == ["Warrior", "Archer", "Settler"][code - 1]
    ensures TemplateOf(code).Ok? <==> 1 <= code <= 3
    ensures TemplateOf(code) == Err(UnspecifiedUnitType) <==> code == 0
    ensures code < 0 || code > 3 ==> TemplateOf(code) == Err(UnknownUnitType(code))
  {
  }

  /** The template is one of the three the loader knows. */
  predicate HasStockTemplate(u: UnitState) {
    u.tmpl == WARRIOR || u.tmpl == ARCHER || u.tmpl == SETTLER
  }

  /** A unit comes back, but for its level-up flag, exactly when its template is a stock template. */
  lemma UnitRoundTrip(u: UnitState)
    requires u.Ok() && WriteUnit(u).Ok?
    ensures ReadUnit(WriteUnit(u).value) == Ok(u.(justLeveledUp := false)) <==> HasStockTemplate(u)
    ensures ReadUnit(WriteUnit(u).value).Ok?
  {
    hide LevelOf, IsLevelFor;
    FactionIdRoundTrip(u.factionId, 0);
    LevelOfIsLevel(u.experience);
    LevelIsMonotone(u.level, u.experience, LevelOf(u.experience), u.experience);
    LevelIsMonotone(LevelOf(u.experience), u.experience, u.level, u.experience);
  }

  // ---- Build queues and cities -----------------------------------------------------------

  function FactoryNamed(name: string): Result<BuildingFactory, LoadError> {
    if name == "City Center" then Ok(CityCenter)
    else if name == "Farm" then Ok(Farm)
    else if name == "Mine" then Ok(Mine)
    else if name == "Lumber Mill" then Ok(LumberMill)
    else if name == "Barracks" then Ok(Barracks)
    else if name == "Market" then Ok(Market)
    else Err(UnknownBuilding(name))
  }

  function WriteItem(q: QueueItem): ItemMessage {
    match q
    case BuildingOrder(name, cost, target, _) => ItemMessage(name, cost, target.row, target.col, 0, "")
    case UnitOrder(name, cost, target, key) => ItemMessage(name, cost, target.row, target.col, 1, key)
  }

  function ReadItem(m: ItemMessage): Result<QueueItem, LoadError> {
    var target := Coord(m.targetRow, m.targetCol);
    if m.orderType == 1 then Ok(UnitOrder(m.name, m.productionCost, target, m.templateKey))
    else
      match FactoryNamed(m.name)
      case Err(e) => Err(e)
      case Ok(factory) => Ok(BuildingOrder(m.name, m.productionCost, target, factory))
  }

  /** A building order of one of the game's factories carries the name it gives to what it makes. */
  predicate IsNamedByFactory(q: QueueItem) {
    q.BuildingOrder? ==> !q.factory.Other? && q.name == MakeBuilding(q.factory, Coord(0, 0)).name
  }

  /** An order comes back exactly when it is a unit order or named by its factory. */
  lemma ItemRoundTrip(q: QueueItem)
    ensures ReadItem(WriteItem(q)) == Ok(q) <==> IsNamedByFactory(q)
  {
  }

  function WriteCity(c: CityState): CityMessage {
    var tiles := Sorted(c.tiles);
    CityMessage(c.id, c.name, c.centre.row, c.centre.col, c.factionId, c.population, Rows(tiles), Cols(tiles),
                seq(|c.queue.items|, i requires 0 <= i < |c.queue.items| => WriteItem(c.queue.items[i])),
                c.queue.accumulated, c.foodSurplus)
  }

  function ReadCity(m: CityMessage): Result<CityState, LoadError> {
    var centre := Coord(m.centreRow, m.centreCol);
    match Collect(m.items, ReadItem)
    case Err(e) => Err(e)
    case Ok(items) =>
      Ok(CityState(m.id, m.name, centre, m.factionId, 1 + (m.population - 1), {centre} + ListedTiles(m.tileRows, m.tileCols),
                   m.foodSurplus, QueueState(items, m.accumulated)))
  }

  predicate HasNamedOrders(c: CityState) {
    forall i :: 0 <= i < |c.queue.items| ==> IsNamedByFactory(c.queue.items[i])
  }

  /** A city comes back exactly when its building orders are named by their factories. */
  lemma CityRoundTrip(c: CityState)
    requires c.Ok()
    ensures ReadCity(WriteCity(c)) == Ok(c) <==> HasNamedOrders(c)
  {
    hide ReadItem, WriteItem, IsNamedByFactory;
    TilesAreRestored(c.tiles);
    var m := WriteCity(c);
    assert {c.centre} + c.tiles == c.tiles;
    CollectElements(m.items, ReadItem, c.queue.items);
    forall i | 0 <= i < |c.queue.items|
      ensures ReadItem(m.items[i]) == Ok(c.queue.items[i]) <==> IsNamedByFactory(c.queue.items[i])
    {
      ItemRoundTrip(c.queue.items[i]);
    }
  }

  // ---- Buildings --------------------------------------------------------------------------

  function WriteBuilding(b: Building): BuildingMessage {
    var tiles := Sorted(b.occupiedTiles);
    BuildingMessage(b.id, b.name, Rows(tiles), Cols(tiles), b.yieldPerTurn, b.constructionCost,
                    TerrainCodes(b.allowedTerrains, |ALL_TERRAINS|), b.modelKey, b.factionId, b.underConstruction)
  }

  function ReadBuilding(m: BuildingMessage): Result<Building, LoadError> {
    match Collect(m.allowedTerrains, TerrainOf)
    case Err(e) => Err(e)
    case Ok(terrains) =>
      Ok(Building(m.id, m.name, m.yieldPerTurn, m.constructionCost, ListedTiles(m.tileRows, m.tileCols),
                  TerrainSet(terrains), m.modelKey, m.factionId, m.underConstruction))
  }

  /** Every building comes back. */
  lemma BuildingRoundTrip(b: Building)
    ensures ReadBuilding(WriteBuilding(b)) == Ok(b)
  {
    hide TerrainCode;
    TilesAreRestored(b.occupiedTiles);
    TerrainCodesAreRead(b.allowedTerrains, |ALL_TERRAINS|);
    forall t: TerrainType
      ensures TerrainCode(t) < |ALL_TERRAINS|
    {
      TerrainCodeIsNumber(t);
    }
    var terrains := Collect(TerrainCodes(b.allowedTerrains, |ALL_TERRAINS|), TerrainOf).value;
    assert TerrainSet(terrains) == b.allowedTerrains;
  }

  // ---- The whole state ---------------------------------------------------------------------

  function Write(w: World): Result<StateMessage, SaveError> {
    match Collect(w.units, WriteUnit)
    case Err(e) => Err(e)
    case Ok(units) =>
      Ok(StateMessage(
           SCHEMA_VERSION, w.turn, w.grid.width, w.grid.height, TilesBefore(w.grid, w.grid.height, 0),
           seq(|w.cities|, k requires 0 <= k < |w.cities| => WriteCity(w.cities[k])),
           seq(|w.buildings|, k requires 0 <= k < |w.buildings| => WriteBuilding(w.buildings[k])),
           units, w.factionResources, w.nextCityId, w.nextBuildingId))
  }

  /** Saving fails exactly when some unit has a name the format does not know. */
  lemma SavingFailsOnUnknownNames(w: World)
    ensures Write(w).Ok? <==> forall i :: 0 <= i < |w.units| ==> UnitTypeCode(w.units[i].tmpl.name).Ok?
  {
    var r := Collect(w.units, WriteUnit);
    if r.Ok? {
      CollectElements(w.units, WriteUnit, r.value);
    } else if forall i :: 0 <= i < |w.units| ==> UnitTypeCode(w.units[i].tmpl.name).Ok? {
      var units := seq(|w.units|, i requires 0 <= i < |w.units| => WriteUnit(w.units[i]).value);
      CollectElements(w.units, WriteUnit, units);
    }
  }

  /** What the loader relies on: tiles on the map, populations of at least one, and as many columns as rows. */
  predicate InBounds(m: StateMessage) {
    && (m.height > 0 && m.width > 0 ==>
          forall i :: 0 <= i < |m.tiles| ==> InMap(Coord(m.tiles[i].row, m.tiles[i].col), m.height, m.width))
    && (forall k :: 0 <= k < |m.cities| ==> m.cities[k].population >= 1 && |m.cities[k].tileRows| <= |m.cities[k].tileCols|)
    && (forall k :: 0 <= k < |m.buildings| ==> |m.buildings[k].tileRows| <= |m.buildings[k].tileCols|)
  }

  /** Reading onto a fresh map of the right size, whose terrain was drawn at random. */
  function Read(m: StateMessage, blank: Grid): Result<World, LoadError>
    requires InBounds(m) && (m.height > 0 && m.width > 0 ==> blank.height == m.height && blank.width == m.width)
  {
    if m.height <= 0 || m.width <= 0 then Err(InvalidDimensions)
    else
      match Painted(blank, m.tiles)
      case Err(e) => Err(e)
      case Ok(grid) =>
        match Collect(m.cities, ReadCity)
        case Err(e) => Err(e)
        case Ok(cities) =>
          match Collect(m.buildings, ReadBuilding)
          case Err(e) => Err(e)
          case Ok(buildings) =>
            match Collect(m.units, ReadUnit)
            case Err(e) => Err(e)
            case Ok(units) =>
              Ok(World.World(m.turn, grid, map[], units, cities, buildings, [], m.factionResources, m.nextCityId, m.nextBuildingId))
  }

  function WithFlagsLowered(units: seq<UnitState>): seq<UnitState> {
    seq(|units|, i requires 0 <= i < |units| => units[i].(justLeveledUp := false))
  }

  /** What is saved of a state: everything but the relations, the factions and the level-up flags. */
  function Saved(w: World): World {
    w.(relations := map[], factions := [], units := WithFlagsLowered(w.units))
  }

  ghost predicate IsSaveable(w: World) {
    && (forall i :: 0 <= i < |w.units| ==> HasStockTemplate(w.units[i]))
    && (forall k :: 0 <= k < |w.cities| ==> HasNamedOrders(w.cities[k]))
  }

  lemma WrittenIsInBounds(w: World)
    requires w.Ok() && Write(w).Ok?
    ensures InBounds(Write(w).value)
  {
    hide TilesBefore, Sorted, Collect, TerrainCodes, WriteItem;
    TerrainIsRestored(w.grid, w.grid);
  }

  /** Loading a saved state restores everything that is saved exactly when every unit has a stock template and
      every building order is named by its factory, whatever terrain the fresh map had. */
  lemma SaveLoadRoundTrip(w: World, blank: Grid)
    requires w.Ok() && w.grid.height > 0 && w.grid.width > 0 && Write(w).Ok?
    requires blank.height == w.grid.height && blank.width == w.grid.width
    ensures InBounds(Write(w).value)
    ensures Read(Write(w).value, blank) == Ok(Saved(w)) <==> IsSaveable(w)
    ensures IsSaveable(w) ==> Write(Read(Write(w).value, blank).value) == Write(w)
  {
    hide Collect, WriteUnit, ReadUnit, WriteCity, ReadCity, WriteBuilding, ReadBuilding, TilesBefore, Painted,
         WithFlagsLowered, HasStockTemplate, HasNamedOrders, InBounds, UnitState.Ok, CityState.Ok;
    WrittenIsInBounds(w);
    var m := Write(w).value;
    TerrainIsRestored(w.grid, blank);
    CitiesRoundTrip(w.cities, m.cities);
    BuildingsRoundTrip(w.buildings, m.buildings);
    UnitsRoundTrip(w.units, m.units);
    SavingAgainGivesSameMessage(w);
  }

  /** What survives of a saveable state, field by field: all but the relations, the factions and the level-up flags. */
  lemma NothingElseIsLost(w: World, blank: Grid)
    requires w.Ok() && w.grid.height > 0 && w.grid.width > 0 && Write(w).Ok? && IsSaveable(w)
    requires blank.height == w.grid.height && blank.width == w.grid.width
    ensures InBounds(Write(w).value) && Read(Write(w).value, blank).Ok?
    ensures var v := Read(Write(w).value, blank).value;
            && v.turn == w.turn && v.grid == w.grid && v.cities == w.cities && v.buildings == w.buildings
            && v.factionResources == w.factionResources && v.nextCityId == w.nextCityId && v.nextBuildingId == w.nextBuildingId
            && |v.units| == |w.units| && forall i :: 0 <= i < |w.units| ==> v.units[i] == w.units[i].(justLeveledUp := false)
  {
    hide Write, Read, IsSaveable, InBounds;
    SaveLoadRoundTrip(w, blank);
  }

  lemma CitiesRoundTrip(cities: seq<CityState>, messages: seq<CityMessage>)
    requires forall k :: 0 <= k < |cities| ==> cities[k].Ok()
    requires |messages| == |cities| && forall k :: 0 <= k < |cities| ==> messages[k] == WriteCity(cities[k])
    ensures Collect(messages, ReadCity) == Ok(cities) <==> forall k :: 0 <= k < |cities| ==> HasNamedOrders(cities[k])
  {
    hide ReadCity, WriteCity, HasNamedOrders, CityState.Ok;
    CollectElements(messages, ReadCity, cities);
    forall k | 0 <= k < |cities|
      ensures ReadCity(messages[k]) == Ok(cities[k]) <==> HasNamedOrders(cities[k])
    {
      CityRoundTrip(cities[k]);
    }
  }

  lemma BuildingsRoundTrip(buildings: seq<Building>, messages: seq<BuildingMessage>)
    requires |messages| == |buildings| && forall k :: 0 <= k < |buildings| ==> messages[k] == WriteBuilding(buildings[k])
    ensures Collect(messages, ReadBuilding) == Ok(buildings)
  {
    hide ReadBuilding, WriteBuilding;
    CollectElements(messages, ReadBuilding, buildings);
    forall k | 0 <= k < |buildings|
      ensures ReadBuilding(messages[k]) == Ok(buildings[k])
    {
      BuildingRoundTrip(buildings[k]);
    }
  }

  lemma UnitsRoundTrip(units: seq<UnitState>, messages: seq<UnitMessage>)
    requires (forall i :: 0 <= i < |units| ==> units[i].Ok()) && Collect(units, WriteUnit) == Ok(messages)
    ensures Collect(messages, ReadUnit) == Ok(WithFlagsLowered(units)) <==> forall i :: 0 <= i < |units| ==> HasStockTemplate(units[i])
  {
    hide ReadUnit, WriteUnit, HasStockTemplate, UnitState.Ok;
    CollectElements(units, WriteUnit, messages);
    CollectElements(messages, ReadUnit, WithFlagsLowered(units));
    forall i | 0 <= i < |units|
      ensures ReadUnit(messages[i]) == Ok(WithFlagsLowered(units)[i]) <==> HasStockTemplate(units[i])
    {
      UnitRoundTrip(units[i]);
    }
  }

  /** What is not saved does not matter to the message, so a loaded state is saved as the same message again. */
  lemma SavingAgainGivesSameMessage(w: World)
    ensures Write(Saved(w)) == Write(w)
  {
    hide WriteCity, WriteBuilding, TilesBefore;
    SameCollect(w.units, WithFlagsLowered(w.units), WriteUnit);
  }

  lemma {:induction false} SameCollect<A, B, E>(xs: seq<A>, ys: seq<A>, f: A -> Result<B, E>)
    requires |xs| == |ys| && forall i :: 0 <= i < |xs| ==> f(xs[i]) == f(ys[i])
    ensures Collect(xs, f) == Collect(ys, f)
  {
    if xs != [] {
      SameCollect(xs[..|xs| - 1], ys[..|ys| - 1], f);
    }
  }
}
