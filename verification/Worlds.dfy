/**
 The game state as a value, and what the three player actions do to it.

 The class `GameState` is proved to follow these functions; every statement about whole runs is about them.
 */
module Worlds {
  import opened Common
  import opened Hex
  import opened Terrain
  import opened Diplomacy
  import opened Units
  import opened Registry
  import opened ZoneOfControl
  import opened Cities
  import opened Combat

  datatype Faction = Faction(id: FactionId, kind: FactionType, stockpile: Resource)

  datatype World = World(
    turn: int, grid: Grid, relations: Relations, units: seq<UnitState>, cities: seq<CityState>,
    buildings: seq<Building>, factions: seq<Faction>, factionResources: Resource,
    nextCityId: CityId, nextBuildingId: BuildingId)
  {
    /** What every operation keeps of the units and cities themselves. */
    ghost predicate Ok() {
      && (forall i :: 0 <= i < |units| ==> units[i].Ok())
      && (forall i :: 0 <= i < |cities| ==> cities[i].Ok())
    }

    ghost function Board(): Board {
      ZoneOfControl.Board(grid, OccupancyOf(units), relations)
    }

    /** Nobody stands on `p`, dead or alive. */
    predicate NobodyAt(p: Coord) {
      forall i :: 0 <= i < |units| ==> units[i].pos != p
    }
  }

  datatype GameAction = Move(unitIndex: nat, dest: Coord) | Attack(attacker: nat, target: nat) | Capture(unitIndex: nat)

  // ---- Moving -----------------------------------------------------------------------

  datatype MoveValidation =
    MoveValid | UnitNotFound | UnitDead | NoMovementRemaining | NotAdjacent | ImpassableTerrain
    | InsufficientMovement | DestinationOccupied | BlockedByZoneOfControl

  const ADJACENT_DISTANCE := 1

  /** The tests before the destination tile is looked up, which must be in the map. */
  predicate MoveLooksUpTile(w: World, i: nat, dest: Coord) {
    && i < |w.units| && w.units[i].Alive() && w.units[i].movementRemaining > 0
    && HexDistance(w.units[i].pos, dest) == ADJACENT_DISTANCE
  }

  ghost function ValidateMove(w: World, i: nat, dest: Coord): MoveValidation
    requires MoveLooksUpTile(w, i, dest) ==> w.grid.Has(dest)
  {
    if i >= |w.units| then UnitNotFound
    else if !w.units[i].Alive() then UnitDead
    else if w.units[i].movementRemaining <= 0 then NoMovementRemaining
    else if HexDistance(w.units[i].pos, dest) != ADJACENT_DISTANCE then NotAdjacent
    else
      var terrain := PropertiesOf(w.grid.At(dest));
      if !terrain.passable then ImpassableTerrain
      else if w.units[i].movementRemaining < terrain.movementCost then InsufficientMovement
      else if BlockedByZoc(w.Board(), w.units[i].factionId, w.units[i].pos, dest) then BlockedByZoneOfControl
      else MoveValid
  }

  function Moved(w: World, i: nat, dest: Coord): World
    requires i < |w.units| && w.grid.Has(dest)
  {
    var u := w.units[i];
    w.(units := w.units[i := u.(pos := dest, movementRemaining := u.movementRemaining - PropertiesOf(w.grid.At(dest)).movementCost)])
  }

  // ---- Attacking --------------------------------------------------------------------

  datatype AttackValidation =
    AttackValid | AttackerNotFound | TargetNotFound | AttackerDead | TargetDead | SameFaction | AttackNotAtWar
    | AttackNoMovement | OutOfRange

  const ATTACK_MOVEMENT_COST := 1
  const MELEE_RANGE := 1

  function ValidateAttack(w: World, a: nat, t: nat): AttackValidation {
    if a >= |w.units| then AttackerNotFound
    else if t >= |w.units| then TargetNotFound
    else if !w.units[a].Alive() then AttackerDead
    else if !w.units[t].Alive() then TargetDead
    else if w.units[a].factionId == w.units[t].factionId then SameFaction
    else if !AtWar(w.relations, w.units[a].factionId, w.units[t].factionId) then AttackNotAtWar
    else if w.units[a].movementRemaining < ATTACK_MOVEMENT_COST then AttackNoMovement
    else if HexDistance(w.units[a].pos, w.units[t].pos) > w.units[a].tmpl.attackRange then OutOfRange
    else AttackValid
  }

  function ContextOf(w: World, a: nat, t: nat): CombatContext
    requires a < |w.units| && t < |w.units| && w.grid.Has(w.units[a].pos) && w.grid.Has(w.units[t].pos)
  {
    CombatContext(
      PropertiesOf(w.grid.At(w.units[t].pos)).defenseModifier,
      PropertiesOf(w.grid.At(w.units[a].pos)).defenseModifier,
      HexDistance(w.units[a].pos, w.units[t].pos) > MELEE_RANGE)
  }

  /** The attacker after the fight: damaged, wiser if alive, one movement point poorer. */
  function AttackerAfter(a: UnitState, r: CombatResult): UnitState {
    var hurt := a.(health := Max(0, a.health - r.damageToAttacker));
    var wiser := if hurt.Alive()
                 then GainExperience(hurt, r.damageToDefender * XP_PER_DAMAGE_DEALT + (if r.defenderDied then XP_KILL_BONUS else 0))
                 else hurt;
    wiser.(movementRemaining := Clamp(Max(0, a.movementRemaining - ATTACK_MOVEMENT_COST), a.tmpl.movementRange))
  }

  function TargetAfter(t: UnitState, r: CombatResult): UnitState {
    var hurt := t.(health := Max(0, t.health - r.damageToDefender));
    if hurt.Alive() then
      GainExperience(hurt, XP_DEFEND_SURVIVE
                           + (if r.damageToAttacker > 0 then r.damageToAttacker * XP_PER_DAMAGE_DEALT else 0)
                           + (if r.attackerDied then XP_KILL_BONUS else 0))
    else hurt
  }

  function RemoveIfDead(units: seq<UnitState>, i: nat): seq<UnitState>
    requires i < |units|
  {
    if units[i].Alive() then units else RemoveAt(units, i)
  }

  /** The higher index first, so that the lower one stays valid. */
  function DeadRemoved(units: seq<UnitState>, hi: nat, lo: nat): seq<UnitState>
    requires lo < hi < |units|
  {
    RemoveIfDead(RemoveIfDead(units, hi), lo)
  }

  /** All units after the blows, the dead still among them. */
  function Struck(w: World, a: nat, t: nat): (units: seq<UnitState>)
    requires a < |w.units| && t < |w.units| && a != t
    requires w.grid.Has(w.units[a].pos) && w.grid.Has(w.units[t].pos)
    ensures |units| == |w.units|
  {
    var r := ResolveCombat(w.units[a], w.units[t], ContextOf(w, a, t));
    w.units[t := TargetAfter(w.units[t], r)][a := AttackerAfter(w.units[a], r)]
  }

  function Fought(w: World, a: nat, t: nat): World
    requires a < |w.units| && t < |w.units| && a != t
    requires w.grid.Has(w.units[a].pos) && w.grid.Has(w.units[t].pos)
  {
    w.(units := DeadRemoved(Struck(w, a, t), if a > t then a else t, if a > t then t else a))
  }

  // ---- Capturing --------------------------------------------------------------------

  datatype CaptureValidation =
    CaptureValid | CaptureUnitNotFound | CaptureUnitDead | NoCityAtPosition | CityOwnedBySameFaction
    | CaptureNotAtWar | CityIsDefended

  /** The first city centred on `p`, or the number of cities. */
  function CityCentredAt(cities: seq<CityState>, p: Coord): (k: nat)
    ensures k <= |cities| && (k < |cities| ==> cities[k].centre == p)
    ensures forall j :: 0 <= j < k ==> cities[j].centre != p
  {
    if cities == [] then 0
    else
      var k := CityCentredAt(cities[..|cities| - 1], p);
      if k < |cities| - 1 then k
      else if cities[|cities| - 1].centre == p then |cities| - 1
      else |cities|
  }

  /** A living unit of the owner stands on some tile of the city. */
  ghost predicate Defended(w: World, city: CityState) {
    exists i :: 0 <= i < |w.units| && w.units[i].Alive() && w.units[i].pos in city.tiles
                && w.units[i].factionId == ToFactionId(city.factionId)
  }

  ghost function ValidateCapture(w: World, i: nat): CaptureValidation {
    if i >= |w.units| then CaptureUnitNotFound
    else if !w.units[i].Alive() then CaptureUnitDead
    else
      var k := CityCentredAt(w.cities, w.units[i].pos);
      if k == |w.cities| then NoCityAtPosition
      else
        var owner := ToFactionId(w.cities[k].factionId);
        if owner == w.units[i].factionId then CityOwnedBySameFaction
        else if !AtWar(w.relations, w.units[i].factionId, owner) then CaptureNotAtWar
        else if Defended(w, w.cities[k]) then CityIsDefended
        else CaptureValid
  }

  function Captured(w: World, i: nat): World
    requires i < |w.units| && CityCentredAt(w.cities, w.units[i].pos) < |w.cities|
  {
    var k := CityCentredAt(w.cities, w.units[i].pos);
    w.(cities := w.cities[k := w.cities[k].(factionId := ToSigned(w.units[i].factionId), queue := QueueState([], 0))])
  }

  /** No city and no living unit is left. */
  ghost predicate Eliminated(w: World, f: FactionId) {
    && (forall k :: 0 <= k < |w.cities| ==> w.cities[k].factionId != f as int)
    && (forall i :: 0 <= i < |w.units| ==> !(w.units[i].Alive() && w.units[i].factionId == f))
  }

  /** No city, whoever its signed owner number is read as by the cast captures use, and no living unit. */
  ghost predicate OwnsNothing(w: World, f: FactionId) {
    && (forall k :: 0 <= k < |w.cities| ==> ToFactionId(w.cities[k].factionId) != f)
    && NoLivingUnit(w, f)
  }

  ghost predicate NoLivingUnit(w: World, f: FactionId) {
    forall i :: 0 <= i < |w.units| ==> !(w.units[i].Alive() && w.units[i].factionId == f)
  }

  /** With 32-bit owner numbers, the elimination test is right for ids below 2^31.  From there on no city counts
      for the faction, so it only asks for living units. */
  lemma EliminationMissesCitiesOfLargeIds(w: World, f: FactionId)
    requires forall k :: 0 <= k < |w.cities| ==> -0x8000_0000 <= w.cities[k].factionId < 0x8000_0000
    ensures f < 0x8000_0000 ==> (Eliminated(w, f) <==> OwnsNothing(w, f))
    ensures f >= 0x8000_0000 ==> (Eliminated(w, f) <==> NoLivingUnit(w, f))
  {
    forall k | 0 <= k < |w.cities|
      ensures ToFactionId(w.cities[k].factionId) == f <==> w.cities[k].factionId == ToSigned(f)
    {
      FactionIdRoundTrip(f, w.cities[k].factionId);
    }
  }

  // ---- Any action -------------------------------------------------------------------

  /** The tiles an action looks up are in the map. */
  predicate LooksInMap(w: World, action: GameAction) {
    match action
    case Move(i, dest) => MoveLooksUpTile(w, i, dest) ==> w.grid.Has(dest)
    case Attack(a, t) => ValidateAttack(w, a, t) == AttackValid ==> w.grid.Has(w.units[a].pos) && w.grid.Has(w.units[t].pos)
    case Capture(_) => true
  }

  ghost predicate Executes(w: World, action: GameAction)
    requires LooksInMap(w, action)
  {
    match action
    case Move(i, dest) => ValidateMove(w, i, dest) == MoveValid
    case Attack(a, t) => ValidateAttack(w, a, t) == AttackValid
    case Capture(i) => ValidateCapture(w, i) == CaptureValid
  }

  /** The state after an attempt: unchanged unless the action executes. */
  ghost function After(w: World, action: GameAction): World
    requires LooksInMap(w, action)
  {
    if !Executes(w, action) then w
    else
      match action
      case Move(i, dest) => Moved(w, i, dest)
      case Attack(a, t) => Fought(w, a, t)
      case Capture(i) => Captured(w, i)
  }
}
