/** What resolving a turn does to the state, and the ledgers of food, production and gold it keeps. */
module Economy {
  import opened Common
  import opened Hex
  import opened Diplomacy
  import opened Units
  import opened Registry
  import opened Cities
  import opened Worlds

  /** `UnitTypeRegistry`, as far as spawning needs it. */
  type Templates = map<string, UnitTemplate>

  // ---- One city ---------------------------------------------------------------------------

  predicate Overlaps(city: CityState, building: Building) {
    exists c | c in building.occupiedTiles :: c in city.tiles
  }

  /** The yields of all buildings overlapping the city, each counted once. */
  function CityYields(city: CityState, buildings: seq<Building>): Resource {
    if buildings == [] then Resource(0, 0, 0)
    else
      var rest := CityYields(city, buildings[..|buildings| - 1]);
      if Overlaps(city, buildings[|buildings| - 1]) then rest.Plus(buildings[|buildings| - 1].yieldPerTurn) else rest
  }

  /** The first faction with the given id, or the number of factions. */
  function FactionSlot(factions: seq<Faction>, id: FactionId): (k: nat)
    ensures k <= |factions| && (k < |factions| ==> factions[k].id == id)
    ensures forall j :: 0 <= j < k ==> factions[j].id != id
  {
    if factions == [] then 0
    else
      var k := FactionSlot(factions[..|factions| - 1], id);
      if k < |factions| - 1 then k
      else if factions[|factions| - 1].id == id then |factions| - 1
      else |factions|
  }

  function AddGold(r: Resource, gold: int): Resource {
    r.(gold := r.gold + gold)
  }

  /** Gold goes to the owning faction's stockpile, or to the global one if there is no such faction. */
  function RouteGold(w: World, factionId: int, gold: int): World {
    var k := FactionSlot(w.factions, ToFactionId(factionId));
    if factionId > 0 && k < |w.factions| then
      w.(factions := w.factions[k := w.factions[k].(stockpile := AddGold(w.factions[k].stockpile, gold))])
    else
      w.(factionResources := AddGold(w.factionResources, gold))
  }

  /** The first tile of the list that nobody stands on, or `otherwise`. */
  function FirstFree(w: World, tiles: seq<Coord>, otherwise: Coord): Coord {
    if tiles == [] then otherwise
    else if w.NobodyAt(tiles[0]) then tiles[0]
    else FirstFree(w, tiles[1..], otherwise)
  }

  function SpawnTile(w: World, centre: Coord): Coord {
    FirstFree(w, InMapNeighbours(TURN_TABLE, centre, w.grid.height, w.grid.width), centre)
  }

  lemma {:induction false} FirstFreeFacts(w: World, tiles: seq<Coord>, otherwise: Coord)
    ensures var t := FirstFree(w, tiles, otherwise);
            || (exists k :: 0 <= k < |tiles| && tiles[k] == t && w.NobodyAt(t) && forall j :: 0 <= j < k ==> !w.NobodyAt(tiles[j]))
            || (t == otherwise && forall n :: n in tiles ==> !w.NobodyAt(n))
  {
    if tiles != [] && !w.NobodyAt(tiles[0]) {
      var rest, t := tiles[1..], FirstFree(w, tiles, otherwise);
      FirstFreeFacts(w, rest, otherwise);
      if k :| 0 <= k < |rest| && rest[k] == t && w.NobodyAt(t) && forall j :: 0 <= j < k ==> !w.NobodyAt(rest[j]) {
        assert tiles[k + 1] == t;
        assert forall j :: 1 <= j < k + 1 ==> tiles[j] == rest[j - 1];
      } else {
        assert tiles == [tiles[0]] + rest;
      }
    } else if tiles != [] {
      assert tiles[0] == FirstFree(w, tiles, otherwise);
    }
  }

  /** New units appear next to the city where nobody stands, on the first such neighbour in the order of the table, and
      on its centre only when every neighbour is taken. */
  lemma SpawnTileIsFree(w: World, centre: Coord)
    ensures var t, ns := SpawnTile(w, centre), InMapNeighbours(TURN_TABLE, centre, w.grid.height, w.grid.width);
            || (w.grid.Has(t) && HexDistance(centre, t) == 1 && w.NobodyAt(t)
                && exists k :: 0 <= k < |ns| && ns[k] == t && forall j :: 0 <= j < k ==> !w.NobodyAt(ns[j]))
            || (t == centre && forall n :: w.grid.Has(n) && HexDistance(centre, n) == 1 ==> !w.NobodyAt(n))
  {
    hide HexDistance, InMapNeighbours;
    NeighboursAreDistanceOne(TURN_TABLE, centre, w.grid.height, w.grid.width);
    FirstFreeFacts(w, InMapNeighbours(TURN_TABLE, centre, w.grid.height, w.grid.width), centre);
  }

  function NewUnitState(pos: Coord, tmpl: UnitTemplate, factionId: FactionId): UnitState {
    UnitState(pos, tmpl.maxHealth, tmpl.movementRange, factionId, tmpl, 0, 0, false)
  }

  /** The key of a finished unit order that the registry, if one is given, does not know: looking it up throws. */
  function MissingKey(completed: Option<Completed>, templates: Option<Templates>): Option<string> {
    if completed.Some? && completed.value.NewUnit? && templates.Some? && completed.value.templateKey !in templates.value
    then Some(completed.value.templateKey)
    else None
  }

  /** A finished building is placed; a finished unit is spawned, unless its type is not known or no unit types
      are given. */
  function Place(w: World, city: CityState, completed: Option<Completed>, templates: Option<Templates>): World {
    match completed
    case None => w
    case Some(NewBuilding(building)) =>
      w.(buildings := w.buildings + [building.(factionId := ToFactionId(city.factionId), id := w.nextBuildingId)],
         nextBuildingId := w.nextBuildingId + 1)
    case Some(NewUnit(key)) =>
      if templates.None? || key !in templates.value then w
      else w.(units := w.units + [NewUnitState(SpawnTile(w, city.centre), templates.value[key], ToFactionId(city.factionId))])
  }

  function TotalProduction(income: Resource): int {
    PRODUCTION_PER_TURN + income.production
  }

  /** Food is added to the surplus, and one step of growth is paid from it if it suffices. */
  function Fed(city: CityState, food: int): CityState {
    var surplus := city.foodSurplus + food;
    var threshold := GrowthThreshold(city.population);
    if surplus >= threshold then city.(population := city.population + 1, foodSurplus := surplus - threshold)
    else city.(foodSurplus := surplus)
  }

  /** Where resolving has got to: the state, and the unknown unit key at which it broke off, if it did. */
  datatype Resolution = Resolution(world: World, missing: Option<string>)

  /** City `k` produces, what it completes is placed, and then it is fed.  An unknown unit key breaks the turn off
      when the order has already left the queue and the city is not yet fed. */
  function BuiltAndFed(w: World, k: nat, income: Resource, templates: Option<Templates>): (r: Resolution)
    requires k < |w.cities|
    ensures |r.world.cities| == |w.cities|
  {
    var city := w.cities[k];
    var completed := CompletedBy(city.queue, TotalProduction(income));
    var producing := city.(queue := AfterProduction(city.queue, TotalProduction(income)));
    var missing := MissingKey(completed, templates);
    Resolution(Place(w, city, completed, templates).(cities := w.cities[k := if missing.Some? then producing else Fed(producing, income.food)]),
               missing)
  }

  /** Yields are collected before anything of this city's turn happens, so a building completed earlier in
      the loop already counts for the cities after it. */
  function ResolveCity(w: World, k: nat, templates: Option<Templates>): (r: Resolution)
    requires k < |w.cities|
    ensures |r.world.cities| == |w.cities|
  {
    var income := CityYields(w.cities[k], w.buildings);
    BuiltAndFed(RouteGold(w, w.cities[k].factionId, income.gold), k, income, templates)
  }

  // ---- All cities, and the turn --------------------------------------------------------------

  /** The first `n` cities have been resolved, in order, unless one of them broke the turn off. */
  function ResolveCities(w: World, n: nat, templates: Option<Templates>): (r: Resolution)
    requires n <= |w.cities|
    ensures |r.world.cities| == |w.cities|
  {
    if n == 0 then Resolution(w, None)
    else
      var before := ResolveCities(w, n - 1, templates);
      if before.missing.Some? then before else ResolveCity(before.world, n - 1, templates)
  }

  function Rested(units: seq<UnitState>): (r: seq<UnitState>)
    ensures |r| == |units|
    ensures forall i :: 0 <= i < |units| ==> r[i] == units[i].(movementRemaining := units[i].tmpl.movementRange)
  {
    seq(|units|, i requires 0 <= i < |units| => units[i].(movementRemaining := units[i].tmpl.movementRange))
  }

  /** Cities, then movement, then the turn counter. */
  function ResolveTurn(w: World, templates: Option<Templates>): (r: Resolution)
    ensures |r.world.cities| == |w.cities|
  {
    var r := ResolveCities(w, |w.cities|, templates);
    if r.missing.Some? then r else r.(world := r.world.(units := Rested(r.world.units), turn := r.world.turn + 1))
  }

  /** Turn after turn, until one breaks off. */
  function ResolveTurns(w: World, n: nat, templates: Option<Templates>): (r: Resolution)
    ensures |r.world.cities| == |w.cities|
  {
    if n == 0 then Resolution(w, None)
    else
      var before := ResolveTurns(w, n - 1, templates);
      if before.missing.Some? then before else ResolveTurn(before.world, templates)
  }

  /** Without a registry, as the session resolves its turns, no turn breaks off. */
  lemma {:induction false} NothingIsMissing(w: World, n: nat)
    requires n <= |w.cities|
    ensures ResolveCities(w, n, None).missing.None?
  {
    hide Place, AfterProduction, Fed, RouteGold, CityYields, CompletedBy;
    if n > 0 {
      NothingIsMissing(w, n - 1);
    }
  }

  // ---- The food ledger ------------------------------------------------------------------------

  /** The yields city `k` collects while turn `w` is resolved. */
  function IncomeIn(w: World, k: nat, templates: Option<Templates>): Resource
    requires k < |w.cities|
  {
    var at := ResolveCities(w, k, templates).world;
    CityYields(at.cities[k], at.buildings)
  }

  function FoodReceived(w: World, k: nat, n: nat, templates: Option<Templates>): int
    requires k < |w.cities|
  {
    if n == 0 then 0
    else FoodReceived(w, k, n - 1, templates) + IncomeIn(ResolveTurns(w, n - 1, templates).world, k, templates).food
  }

  /** What growing from population `p` to `q` costs, one threshold a step, in closed form. */
  function GrowthPaid(p: int, q: int): int {
    10 * (q - p) + 5 * ((q * (q - 1)) / 2 - (p * (p - 1)) / 2)
  }

  lemma TriangleStep(q: int)
    ensures (q + 1) * q / 2 == q * (q - 1) / 2 + q
  {
    assert (q + 1) * q == q * (q - 1) + 2 * q;
  }

  lemma RoutingKeepsCities(w: World, factionId: int, gold: int)
    ensures RouteGold(w, factionId, gold).cities == w.cities
  {
  }

  lemma OtherCitiesKept(w: World, k: nat, j: nat, templates: Option<Templates>)
    requires k < |w.cities| && j < |w.cities| && j != k
    ensures ResolveCity(w, k, templates).world.cities[j] == w.cities[j]
  {
    hide RouteGold, Place, CityYields, Fed, AfterProduction, CompletedBy;
    RoutingKeepsCities(w, w.cities[k].factionId, CityYields(w.cities[k], w.buildings).gold);
  }

  /** In a whole turn city `k` changes exactly once, when its turn in the loop comes. */
  lemma {:induction false} CityChangesOnce(w: World, k: nat, n: nat, templates: Option<Templates>)
    requires k < |w.cities| && n <= |w.cities|
    ensures n <= k ==> ResolveCities(w, n, templates).world.cities[k] == w.cities[k]
    ensures n > k && ResolveCities(w, n, templates).missing.None? ==>
              && ResolveCities(w, k, templates).missing.None?
              && ResolveCity(ResolveCities(w, k, templates).world, k, templates).missing.None?
              && ResolveCities(w, n, templates).world.cities[k]
                 == ResolveCity(ResolveCities(w, k, templates).world, k, templates).world.cities[k]
    decreases n
  {
    hide ResolveCity;
    if n > 0 {
      CityChangesOnce(w, k, n - 1, templates);
      if n - 1 != k {
        OtherCitiesKept(ResolveCities(w, n - 1, templates).world, n - 1, k, templates);
      }
    }
  }

  /** A turn that does not break off: the food received is the change of the surplus plus the threshold paid if
      the city grew, and it grows by at most one. */
  lemma TurnFoodLedger(w: World, k: nat, templates: Option<Templates>)
    requires k < |w.cities| && ResolveTurn(w, templates).missing.None?
    ensures var before, after := w.cities[k], ResolveTurn(w, templates).world.cities[k];
            && IncomeIn(w, k, templates).food == after.foodSurplus - before.foodSurplus + GrowthPaid(before.population, after.population)
            && before.population <= after.population <= before.population + 1
            && (after.population > before.population
                <==> before.foodSurplus + IncomeIn(w, k, templates).food >= GrowthThreshold(before.population))
  {
    hide ResolveCity, ResolveCities, CityYields, Fed, GrowthPaid;
    CityChangesOnce(w, k, |w.cities|, templates);
    CityChangesOnce(w, k, k, templates);
    var at := ResolveCities(w, k, templates).world;
    CityIsFed(at, k, templates);
    FedLedger(w.cities[k], CityYields(at.cities[k], at.buildings).food);
  }

  /** Of its own turn, only what it is fed shows in a city's population and surplus. */
  lemma CityIsFed(w: World, k: nat, templates: Option<Templates>)
    requires k < |w.cities| && ResolveCity(w, k, templates).missing.None?
    ensures var fed, after := Fed(w.cities[k], CityYields(w.cities[k], w.buildings).food), ResolveCity(w, k, templates).world.cities[k];
            after.population == fed.population && after.foodSurplus == fed.foodSurplus
  {
    hide RouteGold, Place, CityYields, AfterProduction, CompletedBy;
    RoutingKeepsCities(w, w.cities[k].factionId, CityYields(w.cities[k], w.buildings).gold);
  }

  lemma FedLedger(city: CityState, food: int)
    ensures var after := Fed(city, food);
            && food == after.foodSurplus - city.foodSurplus + GrowthPaid(city.population, after.population)
            && city.population <= after.population <= city.population + 1
            && (after.population > city.population <==> city.foodSurplus + food >= GrowthThreshold(city.population))
  {
    TriangleStep(city.population);
  }

  lemma GrowthPaidAdds(p: int, q: int, r: int)
    ensures GrowthPaid(p, r) == GrowthPaid(p, q) + GrowthPaid(q, r)
  {
  }

  /** Any number of turns: all food a city received is its surplus's rise plus the thresholds of every
      population step it made, and the population never falls. */
  lemma {:induction false} FoodLedger(w: World, k: nat, n: nat, templates: Option<Templates>)
    requires k < |w.cities| && ResolveTurns(w, n, templates).missing.None?
    ensures var before, after := w.cities[k], ResolveTurns(w, n, templates).world.cities[k];
            && FoodReceived(w, k, n, templates)
               == after.foodSurplus - before.foodSurplus + GrowthPaid(before.population, after.population)
            && before.population <= after.population <= before.population + n
  {
    hide ResolveTurn, GrowthPaid, IncomeIn;
    if n == 0 {
      GrowthPaidAdds(w.cities[k].population, w.cities[k].population, w.cities[k].population);
    } else {
      var mid := ResolveTurns(w, n - 1, templates).world;
      FoodLedger(w, k, n - 1, templates);
      TurnFoodLedger(mid, k, templates);
      GrowthPaidAdds(w.cities[k].population, mid.cities[k].population, ResolveTurn(mid, templates).world.cities[k].population);
    }
  }

  // ---- The production ledger -------------------------------------------------------------------

  /** Of its own turn, only the production it puts in shows in a city's queue. */
  lemma CityBuilds(w: World, k: nat, templates: Option<Templates>)
    requires k < |w.cities|
    ensures ResolveCity(w, k, templates).world.cities[k].queue
            == AfterProduction(w.cities[k].queue, TotalProduction(CityYields(w.cities[k], w.buildings)))
  {
    hide RouteGold, Place, CityYields, AfterProduction, CompletedBy, TotalProduction;
    RoutingKeepsCities(w, w.cities[k].factionId, CityYields(w.cities[k], w.buildings).gold);
  }

  /** A turn that does not break off: the front order of a city completes exactly when what is accumulated, five and
      the production of the buildings on its tiles reach its cost, and then leaves no progress behind; otherwise
      exactly that much is added. */
  lemma TurnProductionLedger(w: World, k: nat, templates: Option<Templates>)
    requires k < |w.cities| && ResolveTurn(w, templates).missing.None?
    ensures var before, after := w.cities[k].queue, ResolveTurn(w, templates).world.cities[k].queue;
            var reached := before.accumulated + 5 + IncomeIn(w, k, templates).production;
            if before.items == [] then after == before
            else if reached >= before.items[0].productionCost then after.items == before.items[1..] && after.accumulated == 0
            else after.items == before.items && after.accumulated == reached
  {
    hide ResolveCity, ResolveCities, CityYields;
    CityChangesOnce(w, k, |w.cities|, templates);
    CityChangesOnce(w, k, k, templates);
    CityBuilds(ResolveCities(w, k, templates).world, k, templates);
  }

  /** The production city `k` collects from its buildings over `n` turns. */
  function ProductionReceived(w: World, k: nat, n: nat, templates: Option<Templates>): int
    requires k < |w.cities|
  {
    if n == 0 then 0
    else ProductionReceived(w, k, n - 1, templates) + IncomeIn(ResolveTurns(w, n - 1, templates).world, k, templates).production
  }

  /** Turns take orders off the front of a queue and never add any. */
  lemma {:induction false} QueueOnlyShrinks(w: World, k: nat, n: nat, templates: Option<Templates>)
    requires k < |w.cities| && ResolveTurns(w, n, templates).missing.None?
    ensures |ResolveTurns(w, n, templates).world.cities[k].queue.items| <= |w.cities[k].queue.items|
  {
    hide ResolveTurn, IncomeIn;
    if n > 0 {
      QueueOnlyShrinks(w, k, n - 1, templates);
      TurnProductionLedger(ResolveTurns(w, n - 1, templates).world, k, templates);
    }
  }

  /** Any number of turns in which no order completes: the progress made is five a turn and all the production of the
      buildings. */
  lemma {:induction false} ProductionLedger(w: World, k: nat, n: nat, templates: Option<Templates>)
    requires k < |w.cities| && w.cities[k].queue.items != [] && ResolveTurns(w, n, templates).missing.None?
    requires |ResolveTurns(w, n, templates).world.cities[k].queue.items| == |w.cities[k].queue.items|
    ensures var before, after := w.cities[k].queue, ResolveTurns(w, n, templates).world.cities[k].queue;
            && after.items == before.items
            && after.accumulated == before.accumulated + 5 * n + ProductionReceived(w, k, n, templates)
  {
    hide ResolveTurn, IncomeIn;
    if n > 0 {
      QueueOnlyShrinks(w, k, n - 1, templates);
      TurnProductionLedger(ResolveTurns(w, n - 1, templates).world, k, templates);
      ProductionLedger(w, k, n - 1, templates);
    }
  }

  /** A building adds its yields to those of a city exactly once if it stands on one of the city's tiles, however
      many they share, and nothing otherwise, wherever it is in the list. */
  lemma {:induction false} BuildingCountsOnce(city: CityState, buildings: seq<Building>, j: nat)
    requires j < |buildings|
    ensures CityYields(city, buildings)
            == if buildings[j].occupiedTiles * city.tiles != {}
               then CityYields(city, RemoveAt(buildings, j)).Plus(buildings[j].yieldPerTurn)
               else CityYields(city, RemoveAt(buildings, j))
  {
    var init := buildings[..|buildings| - 1];
    OverlapsMeansShared(city, buildings[j]);
    if j == |buildings| - 1 {
      assert RemoveAt(buildings, j) == init;
    } else {
      BuildingCountsOnce(city, init, j);
      assert RemoveAt(buildings, j)[..|buildings| - 2] == RemoveAt(init, j);
    }
  }

  lemma OverlapsMeansShared(city: CityState, building: Building)
    ensures Overlaps(city, building) <==> building.occupiedTiles * city.tiles != {}
  {
    if Overlaps(city, building) {
      var c :| c in building.occupiedTiles && c in city.tiles;
      assert c in building.occupiedTiles * city.tiles;
    }
  }

  // ---- What a turn leaves behind -----------------------------------------------------------------

  ghost predicate Extends<T>(longer: seq<T>, s: seq<T>) {
    |s| <= |longer| && longer[..|s|] == s
  }

  lemma CityOnlyAdds(w: World, k: nat, templates: Option<Templates>)
    requires k < |w.cities|
    ensures var after := ResolveCity(w, k, templates).world;
            Extends(after.buildings, w.buildings) && Extends(after.units, w.units) && after.nextBuildingId >= w.nextBuildingId
  {
    hide CityYields, Fed, AfterProduction, CompletedBy, SpawnTile;
  }

  /** Cities only add to the lists of buildings and units. */
  lemma {:induction false} CitiesOnlyAdd(w: World, m: nat, n: nat, templates: Option<Templates>)
    requires m <= n <= |w.cities|
    ensures var before, after := ResolveCities(w, m, templates).world, ResolveCities(w, n, templates).world;
            && Extends(after.buildings, before.buildings) && Extends(after.units, before.units)
            && after.nextBuildingId >= before.nextBuildingId
    decreases n
  {
    hide ResolveCity;
    if n > m {
      CitiesOnlyAdd(w, m, n - 1, templates);
      CityOnlyAdds(ResolveCities(w, n - 1, templates).world, n - 1, templates);
    }
  }

  /** A turn that does not break off keeps every unit, with all its movement back and otherwise as it was, and gives
      units that appear all of theirs. */
  lemma TurnRestsUnits(w: World, templates: Option<Templates>)
    requires ResolveTurn(w, templates).missing.None?
    ensures var units := ResolveTurn(w, templates).world.units;
            && |units| >= |w.units|
            && (forall i :: 0 <= i < |w.units| ==> units[i] == w.units[i].(movementRemaining := w.units[i].tmpl.movementRange))
            && (forall i :: 0 <= i < |units| ==> units[i].movementRemaining == units[i].tmpl.movementRange)
  {
    hide ResolveCities;
    NoCityYet(w, templates);
    CitiesOnlyAdd(w, 0, |w.cities|, templates);
    var all := ResolveCities(w, |w.cities|, templates).world.units;
    forall i | 0 <= i < |w.units|
      ensures all[i] == w.units[i]
    {
      assert all[..|w.units|][i] == all[i];
    }
  }

  /** What a completed building order makes stands on its target and belongs to the owner of the city, under an id not
      given out before; what a completed unit order makes is a fresh unit of the owner on or next to the
      centre of the city. */
  lemma CompletedOrderIsPlaced(w: World, k: nat, templates: Option<Templates>) returns (j: nat)
    requires k < |w.cities| && ResolveTurn(w, templates).missing.None? && w.cities[k].queue.items != []
    requires |ResolveTurn(w, templates).world.cities[k].queue.items| < |w.cities[k].queue.items|
    ensures var after, order, owner := ResolveTurn(w, templates).world, w.cities[k].queue.items[0], ToFactionId(w.cities[k].factionId);
            match order
            case BuildingOrder(_, _, target, factory) =>
              && |w.buildings| <= j < |after.buildings|
              && after.buildings[j] == MakeBuilding(factory, target).(factionId := owner, id := after.buildings[j].id)
              && (factory.Other? || after.buildings[j].occupiedTiles == {target})
              && w.nextBuildingId <= after.buildings[j].id < after.nextBuildingId
            case UnitOrder(_, _, _, key) =>
              templates.Some? ==>
                && key in templates.value && |w.units| <= j < |after.units|
                && after.units[j].tmpl == templates.value[key] && after.units[j].factionId == owner
                && after.units[j].health == templates.value[key].maxHealth
                && after.units[j].experience == 0 && after.units[j].level == 0
                && HexDistance(w.cities[k].centre, after.units[j].pos) <= 1
  {
    hide ResolveCities, ResolveCity, CityYields, MakeBuilding, HexDistance;
    var n := |w.cities|;
    CityChangesOnce(w, k, n, templates);
    CityChangesOnce(w, k, k, templates);
    var before := ResolveCities(w, k, templates).world;
    var built := ResolveCity(before, k, templates).world;
    CityBuilds(before, k, templates);
    NoCityYet(w, templates);
    CitiesOnlyAdd(w, 0, k, templates);
    CitiesOnlyAdd(w, k + 1, n, templates);
    NextCity(w, k, templates);
    CityPlaces(before, k, templates);
    MadeOnItsTile(w.cities[k].queue.items[0]);
    j := if w.cities[k].queue.items[0].BuildingOrder? then |before.buildings| else |before.units|;
    var last := ResolveCities(w, n, templates).world;
    assert |built.buildings| > j && w.cities[k].queue.items[0].BuildingOrder? ==> last.buildings[..|built.buildings|][j] == last.buildings[j];
    assert |built.units| > j && w.cities[k].queue.items[0].UnitOrder? ==> last.units[..|built.units|][j] == last.units[j];
  }

  lemma NextCity(w: World, k: nat, templates: Option<Templates>)
    requires k < |w.cities| && ResolveCities(w, k, templates).missing.None?
    ensures ResolveCities(w, k + 1, templates) == ResolveCity(ResolveCities(w, k, templates).world, k, templates)
  {
  }

  lemma NoCityYet(w: World, templates: Option<Templates>)
    ensures ResolveCities(w, 0, templates).world == w
  {
  }

  /** Where a city's own turn puts what it completes. */
  lemma CityPlaces(w: World, k: nat, templates: Option<Templates>)
    requires k < |w.cities| && ResolveCity(w, k, templates).missing.None? && w.cities[k].queue.items != []
    requires |ResolveCity(w, k, templates).world.cities[k].queue.items| < |w.cities[k].queue.items|
    ensures var after, order, owner := ResolveCity(w, k, templates).world, w.cities[k].queue.items[0], ToFactionId(w.cities[k].factionId);
            match order
            case BuildingOrder(_, _, target, factory) =>
              && after.buildings == w.buildings + [MakeBuilding(factory, target).(factionId := owner, id := w.nextBuildingId)]
              && after.nextBuildingId == w.nextBuildingId + 1
            case UnitOrder(_, _, _, key) =>
              templates.Some? ==>
                && key in templates.value && |after.units| == |w.units| + 1
                && after.units[|w.units|] == NewUnitState(after.units[|w.units|].pos, templates.value[key], owner)
                && HexDistance(w.cities[k].centre, after.units[|w.units|].pos) <= 1
  {
    hide CityYields, Fed, SpawnTile, MakeBuilding, RouteGold, HexDistance;
    var income := CityYields(w.cities[k], w.buildings);
    var routed := RouteGold(w, w.cities[k].factionId, income.gold);
    RoutingKeepsLists(w, w.cities[k].factionId, income.gold);
    SpawnTileIsFree(routed, w.cities[k].centre);
    DistanceZero(w.cities[k].centre, w.cities[k].centre);
    CityBuilds(w, k, templates);
    assert CompletedBy(w.cities[k].queue, TotalProduction(income)) == Some(Complete(w.cities[k].queue.items[0]));
    assert ResolveCity(w, k, templates) == BuiltAndFed(routed, k, income, templates);
    assert ResolveCity(w, k, templates).world.buildings == Place(routed, w.cities[k], Some(Complete(w.cities[k].queue.items[0])), templates).buildings;
  }

  lemma RoutingKeepsLists(w: World, factionId: int, gold: int)
    ensures var after := RouteGold(w, factionId, gold);
            after == w.(factions := after.factions, factionResources := after.factionResources)
  {
  }

  lemma MadeOnItsTile(order: QueueItem)
    ensures order.BuildingOrder? && !order.factory.Other? ==> MakeBuilding(order.factory, order.target).occupiedTiles == {order.target}
  {
  }

  // ---- The gold ledger -------------------------------------------------------------------------

  function StockpiledGold(factions: seq<Faction>): int {
    if factions == [] then 0 else StockpiledGold(factions[..|factions| - 1]) + factions[|factions| - 1].stockpile.gold
  }

  function TotalGold(w: World): int {
    StockpiledGold(w.factions) + w.factionResources.gold
  }

  lemma {:induction false} StockpiledGoldUpdate(factions: seq<Faction>, k: nat, f: Faction)
    requires k < |factions|
    ensures StockpiledGold(factions[k := f]) == StockpiledGold(factions) - factions[k].stockpile.gold + f.stockpile.gold
  {
    var init := factions[..|factions| - 1];
    if k == |factions| - 1 {
      assert factions[k := f][..|factions| - 1] == init;
    } else {
      StockpiledGoldUpdate(init, k, f);
      assert factions[k := f][..|factions| - 1] == init[k := f];
    }
  }

  /** Wherever gold is routed, no coin is lost or made. */
  lemma RoutedGoldIsConserved(w: World, factionId: int, gold: int)
    ensures TotalGold(RouteGold(w, factionId, gold)) == TotalGold(w) + gold
  {
    var k := FactionSlot(w.factions, ToFactionId(factionId));
    if factionId > 0 && k < |w.factions| {
      StockpiledGoldUpdate(w.factions, k, w.factions[k].(stockpile := AddGold(w.factions[k].stockpile, gold)));
    }
  }

  /** Whose gold it is: the first faction with the id of a positive owner gets all of it and nobody else any; without
      such a faction it goes to the common stockpile. */
  lemma GoldReachesOwner(w: World, factionId: int, gold: int, k: nat)
    requires k < |w.factions|
    ensures var after := RouteGold(w, factionId, gold);
            && |after.factions| == |w.factions|
            && after.factions[k] == w.factions[k].(stockpile := after.factions[k].stockpile)
            && after.factions[k].stockpile
               == w.factions[k].stockpile.(gold := w.factions[k].stockpile.gold + if IsOwner(w.factions, k, factionId) then gold else 0)
            && after.factionResources
               == w.factionResources.(gold := w.factionResources.gold
                                              + if exists j :: IsOwner(w.factions, j, factionId) then 0 else gold)
  {
    var slot := FactionSlot(w.factions, ToFactionId(factionId));
    if factionId > 0 && slot < |w.factions| {
      assert IsOwner(w.factions, slot, factionId);
    }
  }

  /** Faction `k` is the first with the id of the owner, who is somebody. */
  ghost predicate IsOwner(factions: seq<Faction>, k: int, owner: int) {
    && owner > 0 && 0 <= k < |factions| && factions[k].id == ToFactionId(owner)
    && forall j :: 0 <= j < k ==> factions[j].id != ToFactionId(owner)
  }

  /** The gold the loop has collected from the first `n` cities, or from those up to the one where it broke off. */
  function GoldCollected(w: World, n: nat, templates: Option<Templates>): int
    requires n <= |w.cities|
  {
    if n == 0 then 0
    else GoldCollected(w, n - 1, templates)
         + if ResolveCities(w, n - 1, templates).missing.Some? then 0 else IncomeIn(w, n - 1, templates).gold
  }

  lemma {:induction false} CitiesGoldLedger(w: World, n: nat, templates: Option<Templates>)
    requires n <= |w.cities|
    ensures TotalGold(ResolveCities(w, n, templates).world) == TotalGold(w) + GoldCollected(w, n, templates)
  {
    hide ResolveCity, TotalGold, CityYields;
    if n > 0 {
      CitiesGoldLedger(w, n - 1, templates);
      ResolveCityGold(ResolveCities(w, n - 1, templates).world, n - 1, templates);
    }
  }

  lemma ResolveCityGold(w: World, k: nat, templates: Option<Templates>)
    requires k < |w.cities|
    ensures TotalGold(ResolveCity(w, k, templates).world) == TotalGold(w) + CityYields(w.cities[k], w.buildings).gold
  {
    hide RouteGold, CityYields, Fed, AfterProduction, CompletedBy, SpawnTile;
    RoutedGoldIsConserved(w, w.cities[k].factionId, CityYields(w.cities[k], w.buildings).gold);
  }

  lemma TurnGoldLedger(w: World, templates: Option<Templates>)
    ensures TotalGold(ResolveTurn(w, templates).world) == TotalGold(w) + GoldCollected(w, |w.cities|, templates)
  {
    hide ResolveCities, GoldCollected, Rested;
    CitiesGoldLedger(w, |w.cities|, templates);
  }

  function GoldReceived(w: World, n: nat, templates: Option<Templates>): int {
    if n == 0 then 0
    else
      var before := ResolveTurns(w, n - 1, templates);
      GoldReceived(w, n - 1, templates)
      + if before.missing.Some? then 0 else GoldCollected(before.world, |before.world.cities|, templates)
  }

  /** Any number of turns, broken off or not: all stockpiles together gain exactly the gold the cities collected. */
  lemma {:induction false} GoldLedger(w: World, n: nat, templates: Option<Templates>)
    ensures TotalGold(ResolveTurns(w, n, templates).world) == TotalGold(w) + GoldReceived(w, n, templates)
  {
    hide ResolveTurn, TotalGold, GoldCollected;
    if n > 0 {
      GoldLedger(w, n - 1, templates);
      TurnGoldLedger(ResolveTurns(w, n - 1, templates).world, templates);
    }
  }
}
