/** Resources, buildings, build queues and cities. */
module Cities {
  import opened Common
  import opened Hex
  import opened Terrain
  import opened Diplomacy
  import opened Registry

  datatype Resource = Resource(gold: int, production: int, food: int) {
    function Plus(r: Resource): Resource {
      Resource(gold + r.gold, production + r.production, food + r.food)
    }
  }

  datatype Building = Building(
    id: BuildingId, name: string, yieldPerTurn: Resource, constructionCost: Resource, occupiedTiles: set<Coord>,
    allowedTerrains: set<TerrainType>, modelKey: string, factionId: FactionId, underConstruction: bool)

  /** What a build order can hold: the game's own factory functions, or any other. */
  datatype BuildingFactory = CityCenter | Farm | Mine | LumberMill | Barracks | Market | Other(make: Coord -> Building)

  function MakeBuilding(factory: BuildingFactory, tile: Coord): Building {
    match factory
    case CityCenter => Building(0, "City Center", Resource(0, 1, 1), Resource(0, 0, 0), {tile}, {}, "building_city_center", 0, false)
    case Farm => Building(0, "Farm", Resource(0, 0, 2), Resource(0, 20, 0), {tile}, {}, "building_farm", 0, false)
    case Mine => Building(0, "Mine", Resource(0, 2, 0), Resource(0, 10, 0), {tile}, {TerrainType.Hills}, "building_mine", 0, false)
    case LumberMill => Building(0, "Lumber Mill", Resource(0, 2, 0), Resource(0, 15, 0), {tile}, {TerrainType.Forest}, "building_lumber_mill", 0, false)
    case Barracks => Building(0, "Barracks", Resource(0, 0, 0), Resource(0, 25, 0), {tile}, {}, "building_barracks", 0, false)
    case Other(make) => make(tile)
    case Market => Building(0, "Market", Resource(3, 0, 0), Resource(0, 30, 0), {tile}, {}, "building_market", 0, false)
  }

  /** A building order holds a factory and a target; a unit order holds a template key. */
  datatype QueueItem =
    | BuildingOrder(name: string, productionCost: int, target: Coord, factory: BuildingFactory)
    | UnitOrder(name: string, productionCost: int, target: Coord, templateKey: string)

  datatype Completed = NewBuilding(building: Building) | NewUnit(templateKey: string)

  datatype QueueState = QueueState(items: seq<QueueItem>, accumulated: int)

  function Complete(item: QueueItem): Completed {
    match item
    case BuildingOrder(_, _, target, factory) => NewBuilding(MakeBuilding(factory, target))
    case UnitOrder(_, _, _, key) => NewUnit(key)
  }

  /** Production goes to the front item; what exceeds its cost is lost. */
  function AfterProduction(q: QueueState, amount: int): QueueState {
    if q.items == [] then q
    else if q.accumulated + amount >= q.items[0].productionCost then QueueState(q.items[1..], 0)
    else q.(accumulated := q.accumulated + amount)
  }

  function CompletedBy(q: QueueState, amount: int): Option<Completed> {
    if q.items != [] && q.accumulated + amount >= q.items[0].productionCost then Some(Complete(q.items[0])) else None
  }

  /** C++ integer division: truncation toward zero. */
  function TruncDiv(a: int, b: int): int
    requires b > 0
  {
    if a >= 0 then a / b else -((-a) / b)
  }

  class BuildQueue {
    var queue: seq<QueueItem>
    var accumulated: int

    ghost function State(): QueueState
      reads this
    {
      QueueState(queue, accumulated)
    }

    constructor ()
      ensures State() == QueueState([], 0)
    {
      queue, accumulated := [], 0;
    }

    method Enqueue(factory: BuildingFactory, target: Coord)
      modifies this`queue, this`accumulated
      ensures var proto := MakeBuilding(factory, Coord(0, 0));
              State() == old(State()).(items := old(queue) + [BuildingOrder(proto.name, proto.constructionCost.production, target, factory)])
    {
      var proto := MakeBuilding(factory, Coord(0, 0));
      queue := queue + [BuildingOrder(proto.name, proto.constructionCost.production, target, factory)];
    }

    method EnqueueUnit(templateKey: string, productionCost: int)
      modifies this`queue, this`accumulated
      ensures State() == old(State()).(items := old(queue) + [UnitOrder(templateKey, productionCost, Coord(0, 0), templateKey)])
    {
      queue := queue + [UnitOrder(templateKey, productionCost, Coord(0, 0), templateKey)];
    }

    function TurnsRemaining(productionPerTurn: int): (turns: int)
      reads this
      ensures queue != [] && productionPerTurn > 0 ==> turns == TurnsFor(State(), productionPerTurn)
      ensures queue == [] || productionPerTurn <= 0 ==> turns == 0
    {
      if queue == [] || productionPerTurn <= 0 then 0
      else TruncDiv(queue[0].productionCost - accumulated + productionPerTurn - 1, productionPerTurn)
    }

    method ApplyProduction(amount: int) returns (result: Option<Completed>)
      modifies this`queue, this`accumulated
      ensures State() == AfterProduction(old(State()), amount)
      ensures result == CompletedBy(old(State()), amount)
    {
      if queue == [] {
        return None;
      }
      accumulated := accumulated + amount;
      var item := queue[0];
      if accumulated >= item.productionCost {
        result := Some(Complete(item));
        queue := queue[1..];
        accumulated := 0;
        return;
      }
      return None;
    }

    method Cancel()
      modifies this`queue, this`accumulated
      ensures State() == if old(queue) == [] then old(State()) else QueueState(old(queue)[1..], 0)
    {
      if queue != [] {
        queue := queue[1..];
        accumulated := 0;
      }
    }

    method Clear()
      modifies this`queue, this`accumulated
      ensures State() == QueueState([], 0)
    {
      while queue != []
        decreases |queue|
      {
        queue := queue[1..];
      }
      accumulated := 0;
    }

    /** Drains a copy of the queue. */
    method AllItems() returns (result: seq<QueueItem>)
      ensures result == queue
    {
      result := [];
      var copy := queue;
      while copy != []
        invariant result + copy == queue
        decreases |copy|
      {
        result := result + [copy[0]];
        copy := copy[1..];
      }
    }

    method RestoreItem(item: QueueItem)
      modifies this`queue, this`accumulated
      ensures State() == old(State()).(items := old(queue) + [item])
    {
      queue := queue + [item];
    }

    method SetAccumulatedProduction(amount: int)
      modifies this`queue, this`accumulated
      ensures State() == old(State()).(accumulated := amount)
    {
      accumulated := amount;
    }
  }

  /** `n` turns of production, keeping count only of whether the front item is still the same one. */
  function ProduceFor(q: QueueState, amount: int, n: nat): QueueState {
    if n == 0 then q else AfterProduction(ProduceFor(q, amount, n - 1), amount)
  }

  /** The front item is still being built after every one of the first `n - 1` turns and completes in turn `n`. */
  ghost predicate CompletesInTurn(q: QueueState, amount: int, n: int) {
    && n >= 1
    && (forall k: nat :: k < n ==> ProduceFor(q, amount, k).items == q.items)
    && CompletedBy(ProduceFor(q, amount, n - 1), amount).Some?
  }

  function TurnsFor(q: QueueState, amount: int): int
    requires q.items != [] && amount > 0
  {
    TruncDiv(q.items[0].productionCost - q.accumulated + amount - 1, amount)
  }

  lemma {:induction false} StillBuilding(q: QueueState, amount: int, n: nat)
    requires q.items != [] && amount > 0
    requires n == 0 || q.accumulated + n * amount < q.items[0].productionCost
    ensures ProduceFor(q, amount, n) == q.(accumulated := q.accumulated + n * amount)
  {
    if n > 0 {
      assert n * amount == (n - 1) * amount + amount;
      StillBuilding(q, amount, n - 1);
    }
  }

  /** The forecast is exactly the turn in which the front item completes, unless the item is already paid
      for: then it still takes one more turn, which the forecast leaves out. */
  lemma ForecastIsExactUnlessPaid(q: QueueState, amount: int)
    requires q.items != [] && amount > 0
    ensures CompletesInTurn(q, amount, TurnsFor(q, amount)) <==> q.accumulated < q.items[0].productionCost
  {
    hide ProduceFor, Complete;
    var missing := q.items[0].productionCost - q.accumulated;
    var n := TurnsFor(q, amount);
    if missing > 0 {
      DivCeil(missing, amount);
      forall k: nat | k < n
        ensures ProduceFor(q, amount, k).items == q.items
      {
        MulMonotone(k, n - 1, amount);
        StillBuilding(q, amount, k);
      }
      StillBuilding(q, amount, n - 1);
      assert (n - 1) * amount + amount == n * amount;
    } else {
      NonPositiveForecast(missing, amount);
    }
  }

  /** A free item in an empty queue is forecast for now and completes after one turn. */
  lemma FreeItemIsForecastTooEarly()
    ensures var q := QueueState([BuildingOrder("City Center", 0, Coord(0, 0), CityCenter)], 0);
            TurnsFor(q, PRODUCTION_PER_TURN) == 0 && CompletesInTurn(q, PRODUCTION_PER_TURN, 1)
  {
    var q := QueueState([BuildingOrder("City Center", 0, Coord(0, 0), CityCenter)], 0);
    assert ProduceFor(q, PRODUCTION_PER_TURN, 0) == q;
  }

  lemma DivCeil(x: int, d: int)
    requires x > 0 && d > 0
    ensures var n := (x + d - 1) / d; n >= 1 && (n - 1) * d < x <= n * d
  {
    var y := x + d - 1;
    assert y == d * (y / d) + y % d;
  }

  lemma MulMonotone(a: nat, b: nat, d: nat)
    requires a <= b
    ensures a * d <= b * d
  {
  }

  lemma NonPositiveForecast(x: int, d: int)
    requires x <= 0 && d > 0
    ensures TruncDiv(x + d - 1, d) <= 0
  {
    var y := x + d - 1;
    if y >= 0 {
      assert y < d;
    }
  }

  // ---- Cities ---------------------------------------------------------------------

  datatype CityState = CityState(
    id: CityId, name: string, centre: Coord, factionId: int, population: int, tiles: set<Coord>, foodSurplus: int,
    queue: QueueState)
  {
    ghost predicate Ok() {
      population >= 1 && centre in tiles
    }
  }

  function GrowthThreshold(population: int): int {
    10 + 5 * population
  }

  const PRODUCTION_PER_TURN := 5

  class City {
    var id: CityId
    const name: string
    const centre: Coord
    var factionId: int
    var population: int
    var tiles: set<Coord>
    const buildQueue: BuildQueue
    var foodSurplus: int

    ghost function State(): CityState
      reads this, buildQueue
    {
      CityState(id, name, centre, factionId, population, tiles, foodSurplus, buildQueue.State())
    }

    ghost predicate Valid()
      reads this
    {
      population >= 1 && centre in tiles
    }

    constructor (name: string, centre: Coord, factionId: int)
      ensures Valid() && fresh(buildQueue)
      ensures State() == CityState(0, name, centre, factionId, 1, {centre}, 0, QueueState([], 0))
    {
      id, this.name, this.centre, this.factionId := 0, name, centre, factionId;
      population, tiles, foodSurplus := 1, {centre}, 0;
      buildQueue := new BuildQueue();
    }

    method SetId(newId: CityId)
      requires Valid()
      modifies this`id
      ensures Valid() && State() == old(State()).(id := newId)
    {
      id := newId;
    }

    method SetFactionId(newFactionId: int)
      requires Valid()
      modifies this`factionId
      ensures Valid() && State() == old(State()).(factionId := newFactionId)
    {
      factionId := newFactionId;
    }

    method GrowPopulation(amount: int)
      requires Valid() && amount >= 0
      modifies this`population
      ensures Valid() && State() == old(State()).(population := old(population) + amount)
    {
      population := population + amount;
    }

    method AddTile(tile: Coord) returns (inserted: bool)
      requires Valid()
      modifies this`tiles
      ensures Valid() && State() == old(State()).(tiles := old(tiles) + {tile})
      ensures inserted == (tile !in old(tiles))
    {
      inserted := tile !in tiles;
      tiles := tiles + {tile};
    }

    method SetFoodSurplus(surplus: int)
      requires Valid()
      modifies this`foodSurplus
      ensures Valid() && State() == old(State()).(foodSurplus := surplus)
    {
      foodSurplus := surplus;
    }

    method AddFoodSurplus(amount: int)
      requires Valid()
      modifies this`foodSurplus
      ensures Valid() && State() == old(State()).(foodSurplus := old(foodSurplus) + amount)
    {
      foodSurplus := foodSurplus + amount;
    }
  }

  ghost function QueuesOf(cities: seq<City>): set<BuildQueue> {
    set i | 0 <= i < |cities| :: cities[i].buildQueue
  }

  /** The states of a list of cities, in order. */
  ghost function CityStatesOf(cities: seq<City>): (s: seq<CityState>)
    reads cities, QueuesOf(cities)
    ensures |s| == |cities| && forall i :: 0 <= i < |cities| ==> s[i] == cities[i].State()
  {
    if cities == [] then []
    else
      assert QueuesOf(cities[..|cities| - 1]) <= QueuesOf(cities);
      CityStatesOf(cities[..|cities| - 1]) + [cities[|cities| - 1].State()]
  }
}
