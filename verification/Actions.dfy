/** The three player actions, carried out on the game state. */
module Actions {
  import opened Common
  import opened Hex
  import opened Terrain
  import opened Diplomacy
  import opened Units
  import opened Registry
  import opened ZoneOfControl
  import opened Cities
  import opened Combat
  import opened Worlds
  import opened GameStates

  datatype MoveResult = MoveResult(executed: bool, validation: MoveValidation, movementCostDeducted: int)

  method MoveValidate(state: GameState, i: nat, dest: Coord) returns (v: MoveValidation)
    requires state.Valid() && LooksInMap(state.View(), Move(i, dest))
    ensures v == ValidateMove(state.View(), i, dest) && v != DestinationOccupied
  {
    hide Agrees, StatesOf, CityStatesOf, Positions, BlockedByZoc, HexDistance;
    if i >= |state.units| {
      return UnitNotFound;
    }
    var unit := state.units[i];
    assert unit.State() == state.View().units[i];
    if !unit.IsAlive() {
      return UnitDead;
    }
    if unit.movementRemaining <= 0 {
      return NoMovementRemaining;
    }
    if HexDistance(unit.Pos(), dest) != ADJACENT_DISTANCE {
      return NotAdjacent;
    }
    var terrain := PropertiesOf(state.map_.Tile(dest));
    if !terrain.passable {
      return ImpassableTerrain;
    }
    if unit.movementRemaining < terrain.movementCost {
      return InsufficientMovement;
    }
    state.IndexShowsBoard();
    var blocked := IsMovementBlockedByZoc(unit.Pos(), dest, unit.factionId, state.map_, state.registry, state.diplomacy);
    if blocked {
      return BlockedByZoneOfControl;
    }
    return MoveValid;
  }

  /** The state becomes what `After` says, and the index still agrees with the list. */
  method MoveExecute(state: GameState, i: nat, dest: Coord) returns (result: MoveResult)
    requires state.Valid() && LooksInMap(state.View(), Move(i, dest))
    modifies state.registry`units, state.units`row, state.units`col, state.units`movementRemaining
    ensures state.Valid()
    ensures state.View() == old(After(state.View(), Move(i, dest)))
    ensures result.executed == old(Executes(state.View(), Move(i, dest)))
    ensures result.validation == old(ValidateMove(state.View(), i, dest))
    ensures result.movementCostDeducted
            == if result.executed then PropertiesOf(state.map_.Tile(dest)).movementCost else 0
  {
    hide Agrees, StatesOf, CityStatesOf, Positions, OwnedCities, QueuesOf, GameState.IndexAgrees, ValidateMove, Moved;
    ghost var w := state.View();
    var validation := MoveValidate(state, i, dest);
    assert state.View() == w;
    if validation != MoveValid {
      return MoveResult(false, validation, 0);
    }
    ValidMoveCanBeMade(state, i, dest);
    MoveUnit(state, i, dest);
    return MoveResult(true, MoveValid, PropertiesOf(state.map_.Tile(dest)).movementCost);
  }

  lemma ValidMoveCanBeMade(state: GameState, i: nat, dest: Coord)
    requires state.Valid() && LooksInMap(state.View(), Move(i, dest)) && ValidateMove(state.View(), i, dest) == MoveValid
    ensures i < |state.units| && InMap(dest, state.map_.height, state.map_.width)
    ensures 0 < PropertiesOf(state.map_.Tile(dest)).movementCost <= state.units[i].movementRemaining
  {
    hide Agrees, StatesOf, CityStatesOf, Positions, OwnedCities, QueuesOf, GameState.IndexAgrees, BlockedByZoc,
         HexDistance;
    if i < |state.units| {
      state.UnitStateAt(i);
    }
  }

  /** Unregister from the old tile, move, register on the new tile. */
  method MoveUnit(state: GameState, i: nat, dest: Coord)
    requires state.Valid() && i < |state.units| && InMap(dest, state.map_.height, state.map_.width)
    requires 0 < PropertiesOf(state.map_.Tile(dest)).movementCost <= state.units[i].movementRemaining
    modifies state.registry`units, state.units`row, state.units`col, state.units`movementRemaining
    ensures state.Valid()
    ensures state.View() == Moved(old(state.View()), i, dest)
  {
    hide Agrees, CityStatesOf, Positions, OwnedCities, Registered, Unregistered, IsLevelFor, PropertiesOf;
    var unit := state.units[i];
    var cost := PropertiesOf(state.map_.Tile(dest)).movementCost;
    ghost var before, index := state.View(), state.registry.units;
    ghost var next := Moved(before, i, dest).units[i];
    state.ValidViewIsOk();
    state.UnitsDistinct(i);
    MoveRegistered(state.registry, unit, dest, cost);
    state.Relocated(before, index, i, next);
  }

  // ---- Attacking ------------------------------------------------------------------------

  datatype AttackResult = AttackResult(executed: bool, validation: AttackValidation, combat: CombatResult)

  const NO_COMBAT := CombatResult(0, 0, false, false)

  function AttackValidate(state: GameState, a: nat, t: nat): (v: AttackValidation)
    requires state.Valid()
    reads state, state.map_, state.registry, state.diplomacy, state.units, state.cities, QueuesOf(state.cities)
    ensures v == ValidateAttack(state.View(), a, t)
  {
    if a >= |state.units| then AttackerNotFound
    else if t >= |state.units| then TargetNotFound
    else
      var attacker, target := state.units[a], state.units[t];
      if !attacker.IsAlive() then AttackerDead
      else if !target.IsAlive() then TargetDead
      else if attacker.factionId == target.factionId then SameFaction
      else if !state.diplomacy.AreAtWar(attacker.factionId, target.factionId) then AttackNotAtWar
      else if attacker.movementRemaining < ATTACK_MOVEMENT_COST then AttackNoMovement
      else if HexDistance(attacker.Pos(), target.Pos()) > attacker.tmpl.attackRange then OutOfRange
      else AttackValid
  }

  /** Damage, experience and the attacker's movement, applied to the two units in the source's order. */
  method ApplyCombat(attacker: Unit, target: Unit, combat: CombatResult)
    requires attacker != target && attacker.Valid() && target.Valid()
    requires combat.damageToDefender >= 0 && combat.damageToAttacker >= 0
    modifies attacker`health, attacker`movementRemaining, attacker`experience, attacker`level, attacker`justLeveledUp,
             target`health, target`experience, target`level, target`justLeveledUp
    ensures attacker.Valid() && target.Valid()
    ensures attacker.State() == AttackerAfter(old(attacker.State()), combat)
    ensures target.State() == TargetAfter(old(target.State()), combat)
  {
    hide IsLevelFor, LevelOf, GainExperience, UnitState.Ok;
    target.TakeDamage(combat.damageToDefender);
    attacker.TakeDamage(combat.damageToAttacker);
    RewardAttacker(attacker, combat);
    RewardTarget(target, combat);
    attacker.SetMovementRemaining(Max(0, attacker.movementRemaining - ATTACK_MOVEMENT_COST));
  }

  method RewardAttacker(attacker: Unit, combat: CombatResult)
    requires attacker.Valid()
    modifies attacker`experience, attacker`level, attacker`justLeveledUp
    ensures attacker.Valid()
    ensures var xp := combat.damageToDefender * XP_PER_DAMAGE_DEALT + (if combat.defenderDied then XP_KILL_BONUS else 0);
            attacker.State() == if old(attacker.State()).Alive() then GainExperience(old(attacker.State()), xp) else old(attacker.State())
  {
    hide IsLevelFor, LevelOf, GainExperience;
    if attacker.IsAlive() {
      var attackerXp := combat.damageToDefender * XP_PER_DAMAGE_DEALT;
      if combat.defenderDied {
        attackerXp := attackerXp + XP_KILL_BONUS;
      }
      var _ := attacker.AddExperience(attackerXp);
    }
  }

  method RewardTarget(target: Unit, combat: CombatResult)
    requires target.Valid()
    modifies target`experience, target`level, target`justLeveledUp
    ensures target.Valid()
    ensures var xp := XP_DEFEND_SURVIVE
                      + (if combat.damageToAttacker > 0 then combat.damageToAttacker * XP_PER_DAMAGE_DEALT else 0)
                      + (if combat.attackerDied then XP_KILL_BONUS else 0);
            target.State() == if old(target.State()).Alive() then GainExperience(old(target.State()), xp) else old(target.State())
  {
    hide IsLevelFor, LevelOf, GainExperience;
    if target.IsAlive() {
      var defenderXp := XP_DEFEND_SURVIVE;
      if combat.damageToAttacker > 0 {
        defenderXp := defenderXp + combat.damageToAttacker * XP_PER_DAMAGE_DEALT;
      }
      if combat.attackerDied {
        defenderXp := defenderXp + XP_KILL_BONUS;
      }
      var _ := target.AddExperience(defenderXp);
    }
  }

  method AttackExecute(state: GameState, a: nat, t: nat) returns (result: AttackResult)
    requires state.Valid() && LooksInMap(state.View(), Attack(a, t))
    modifies state`units, state.registry`units,
             state.units`health, state.units`movementRemaining, state.units`experience, state.units`level, state.units`justLeveledUp
    ensures state.Valid()
    ensures forall i :: 0 <= i < |state.units| ==> state.units[i] in old(state.units)
    ensures state.View() == old(After(state.View(), Attack(a, t)))
    ensures result.executed == old(Executes(state.View(), Attack(a, t)))
    ensures result.validation == old(ValidateAttack(state.View(), a, t))
    ensures result.combat == if result.executed
                             then old(var w := state.View(); ResolveCombat(w.units[a], w.units[t], ContextOf(w, a, t)))
                             else NO_COMBAT
  {
    hide Agrees, StatesOf, CityStatesOf, Positions, OwnedCities, HexDistance, IsLevelFor, ResolveCombat, Fought,
         ContextOf, GameState.IndexAgrees;
    var validation := AttackValidate(state, a, t);
    if validation != AttackValid {
      return AttackResult(false, validation, NO_COMBAT);
    }
    var combat := Fight(state, a, t);
    return AttackResult(true, AttackValid, combat);
  }

  /** The fight between two units known to be able to fight, and the removal of the dead. */
  method Fight(state: GameState, a: nat, t: nat) returns (combat: CombatResult)
    requires state.Valid() && ValidateAttack(state.View(), a, t) == AttackValid && LooksInMap(state.View(), Attack(a, t))
    modifies state`units, state.registry`units,
             state.units`health, state.units`movementRemaining, state.units`experience, state.units`level, state.units`justLeveledUp
    ensures state.Valid()
    ensures forall i :: 0 <= i < |state.units| ==> state.units[i] in old(state.units)
    ensures state.View() == Fought(old(state.View()), a, t)
    ensures combat == old(var w := state.View(); ResolveCombat(w.units[a], w.units[t], ContextOf(w, a, t)))
  {
    hide Agrees, StatesOf, CityStatesOf, Positions, OwnedCities, HexDistance, IsLevelFor, ResolveCombat,
         AttackerAfter, TargetAfter, QueuesOf, ComputeDamage, GameState.IndexAgrees;
    var attacker, target := state.units[a], state.units[t];
    ghost var before := state.View();
    state.UnitStateAt(a);
    state.UnitStateAt(t);
    var context := ContextFor(state, attacker, target);
    assert context == ContextOf(before, a, t);
    combat := ResolveCombatOf(attacker, target, context);
    CombatIsSound(before.units[a], before.units[t], context);
    HurtUnits(state, a, t, combat);
    RemoveDeadOfPair(state, if a > t then a else t, if a > t then t else a);
  }

  /** Higher index first, so that the lower one stays valid. */
  method RemoveDeadOfPair(state: GameState, hi: nat, lo: nat)
    requires state.Valid() && lo < hi < |state.View().units|
    modifies state`units, state.registry`units
    ensures state.Valid()
    ensures forall i :: 0 <= i < |state.units| ==> state.units[i] in old(state.units)
    ensures state.View() == old(state.View()).(units := DeadRemoved(old(state.View().units), hi, lo))
  {
    hide Agrees, StatesOf, CityStatesOf, Positions, OwnedCities, IsLevelFor, GameState.IndexAgrees;
    RemoveUnitIfDead(state, hi);
    RemoveUnitIfDead(state, lo);
  }

  function ContextFor(state: GameState, attacker: Unit, target: Unit): (context: CombatContext)
    requires state.map_.Valid()
    requires InMap(attacker.Pos(), state.map_.height, state.map_.width) && InMap(target.Pos(), state.map_.height, state.map_.width)
    reads state.map_, attacker, target
  {
    CombatContext(
      PropertiesOf(state.map_.Tile(target.Pos())).defenseModifier,
      PropertiesOf(state.map_.Tile(attacker.Pos())).defenseModifier,
      HexDistance(attacker.Pos(), target.Pos()) > MELEE_RANGE)
  }

  /** `resolveCombat` on the unit objects. */
  function ResolveCombatOf(attacker: Unit, defender: Unit, context: CombatContext): (r: CombatResult)
    reads attacker, defender
    ensures r == ResolveCombat(attacker.State(), defender.State(), context)
  {
    var damageToDefender := Min(ComputeDamage(attacker.Attack(), defender.Defense(), context.terrainDefenseBonus), defender.health);
    var defenderDied := damageToDefender >= defender.health;
    if defender.tmpl.attackRange == 1 && !defenderDied && !context.rangedAttack then
      var damageToAttacker :=
        Min(ComputeDamage(defender.Attack(), attacker.Defense(), context.attackerTerrainDefenseBonus), attacker.health);
      CombatResult(damageToDefender, damageToAttacker, defenderDied, damageToAttacker >= attacker.health)
    else
      CombatResult(damageToDefender, 0, defenderDied, false)
  }

  method HurtUnits(state: GameState, a: nat, t: nat, combat: CombatResult)
    requires state.Valid() && a < |state.units| && t < |state.units| && a != t
    requires combat.damageToDefender >= 0 && combat.damageToAttacker >= 0
    modifies state.units`health, state.units`movementRemaining, state.units`experience, state.units`level, state.units`justLeveledUp
    ensures state.Valid() && state.units == old(state.units)
    ensures var w := old(state.View());
            state.View() == w.(units := w.units[t := TargetAfter(w.units[t], combat)][a := AttackerAfter(w.units[a], combat)])
  {
    hide Agrees, StatesOf, CityStatesOf, Positions, OwnedCities, IsLevelFor, AttackerAfter, TargetAfter;
    ghost var w := state.View();
    state.UnitsDistinct(a);
    AfterKeepsPlace(w.units[a], w.units[t], combat);
    ghost var hurt := w.units[t := TargetAfter(w.units[t], combat)];
    ghost var both := hurt[a := AttackerAfter(w.units[a], combat)];
    IndexAfterChange(state.registry.units, state.units, w.units, t, TargetAfter(w.units[t], combat));
    IndexAfterChange(state.registry.units, state.units, hurt, a, AttackerAfter(w.units[a], combat));
    ApplyCombat(state.units[a], state.units[t], combat);
    assert StatesOf(state.units) == both;
  }

  lemma AfterKeepsPlace(a: UnitState, t: UnitState, combat: CombatResult)
    ensures AttackerAfter(a, combat).pos == a.pos && TargetAfter(t, combat).pos == t.pos
  {
  }

  method RemoveUnitIfDead(state: GameState, i: nat)
    requires state.Valid() && i < |state.units|
    modifies state`units, state.registry`units
    ensures state.Valid()
    ensures forall i :: 0 <= i < |state.units| ==> state.units[i] in old(state.units)
    ensures state.View() == old(state.View()).(units := RemoveIfDead(old(state.View()).units, i))
  {
    hide Agrees, StatesOf, CityStatesOf, Positions, OwnedCities, IsLevelFor;
    assert state.units[i].State() == state.View().units[i];
    if !state.units[i].IsAlive() {
      var _ := state.RemoveUnit(i);
    }
  }

  // ---- Capturing ------------------------------------------------------------------------

  datatype CaptureResult = CaptureResult(
    executed: bool, validation: CaptureValidation, previousOwner: FactionId, newOwner: FactionId,
    capturedCityName: string, factionEliminated: bool, eliminatedFactionId: FactionId)

  /** Looks through the units on every tile of the city for a living one of its owner. */
  method IsCityDefended(state: GameState, k: nat) returns (defended: bool)
    requires state.Valid() && k < |state.cities|
    ensures defended <==> Defended(state.View(), state.View().cities[k])
  {
    hide Agrees, StatesOf, CityStatesOf, Positions, OwnedCities, IsLevelFor, GuardOn, Defended, IndexShowsGuard;
    var city := state.cities[k];
    var owner := ToFactionId(city.factionId);
    ghost var w := state.View();
    assert city.State() == w.cities[k];
    DefendedByGuard(w, w.cities[k]);
    var todo := city.tiles;
    while todo != {}
      invariant todo <= city.tiles && state.Valid() && state.View() == w
      invariant forall tile :: tile in city.tiles - todo ==> !GuardOn(w, tile, owner)
    {
      var tile :| tile in todo;
      GuardOnTile(state, tile, owner);
      if IndexShowsGuard(state.registry, tile, owner) {
        return true;
      }
      todo := todo - {tile};
    }
    return false;
  }

  predicate IndexShowsGuard(registry: TileRegistry, tile: Coord, owner: FactionId)
    reads registry, registry.UnitsAt(tile)
  {
    exists u | u in registry.UnitsAt(tile) :: u.IsAlive() && u.factionId == owner
  }

  ghost predicate GuardOn(w: World, tile: Coord, owner: FactionId) {
    exists i :: 0 <= i < |w.units| && w.units[i].pos == tile && w.units[i].Alive() && w.units[i].factionId == owner
  }

  lemma DefendedByGuard(w: World, city: CityState)
    ensures Defended(w, city) <==> exists tile :: tile in city.tiles && GuardOn(w, tile, ToFactionId(city.factionId))
  {
    if Defended(w, city) {
      var i :| 0 <= i < |w.units| && w.units[i].Alive() && w.units[i].pos in city.tiles
               && w.units[i].factionId == ToFactionId(city.factionId);
      assert GuardOn(w, w.units[i].pos, ToFactionId(city.factionId));
    }
  }

  lemma GuardOnTile(state: GameState, tile: Coord, owner: FactionId)
    requires state.Valid()
    ensures IndexShowsGuard(state.registry, tile, owner) <==> GuardOn(state.View(), tile, owner)
  {
    hide Agrees, CityStatesOf, Positions, OwnedCities, IsLevelFor, StatesOf;
    var w := state.View();
    if u :| u in state.registry.UnitsAt(tile) && u.IsAlive() && u.factionId == owner {
      state.UnitsAtIsExact(tile, u);
      var i :| 0 <= i < |state.units| && state.units[i] == u;
      state.UnitStateAt(i);
      assert w.units[i].pos == tile && w.units[i].Alive() && w.units[i].factionId == owner;
    }
    if i :| 0 <= i < |w.units| && w.units[i].pos == tile && w.units[i].Alive() && w.units[i].factionId == owner {
      state.UnitStateAt(i);
      state.UnitsAtIsExact(tile, state.units[i]);
    }
  }

  /** The index of the first city centred on a tile, or the number of cities: both scans of the source. */
  method FindCityCentreAt(state: GameState, p: Coord) returns (k: nat)
    requires state.Valid()
    ensures k == CityCentredAt(state.View().cities, p)
  {
    hide Agrees, StatesOf, CityStatesOf, Positions, OwnedCities, IsLevelFor;
    ghost var cities := state.View().cities;
    k := 0;
    while k < |state.cities|
      invariant k <= |state.cities| && forall j :: 0 <= j < k ==> cities[j].centre != p
    {
      assert cities[k] == state.cities[k].State();
      if state.cities[k].centre == p {
        return;
      }
      k := k + 1;
    }
  }

  method CaptureValidate(state: GameState, i: nat) returns (v: CaptureValidation)
    requires state.Valid()
    ensures v == ValidateCapture(state.View(), i)
  {
    hide Agrees, StatesOf, CityStatesOf, Positions, OwnedCities, IsLevelFor, Defended;
    if i >= |state.units| {
      return CaptureUnitNotFound;
    }
    var unit := state.units[i];
    state.UnitStateAt(i);
    if !unit.IsAlive() {
      return CaptureUnitDead;
    }
    var k := FindCityCentreAt(state, unit.Pos());
    if k == |state.cities| {
      return NoCityAtPosition;
    }
    var city := state.cities[k];
    assert city.State() == state.View().cities[k];
    var owner := ToFactionId(city.factionId);
    if owner == unit.factionId {
      return CityOwnedBySameFaction;
    }
    if !state.diplomacy.AreAtWar(unit.factionId, owner) {
      return CaptureNotAtWar;
    }
    var defended := IsCityDefended(state, k);
    if defended {
      return CityIsDefended;
    }
    return CaptureValid;
  }

  /** Cities are compared by their signed owner number, units by faction id. */
  method IsFactionEliminated(state: GameState, f: FactionId) returns (eliminated: bool)
    requires state.Valid()
    ensures eliminated <==> Eliminated(state.View(), f)
    ensures state.Valid() && state.View() == old(state.View())
  {
    hide Agrees, StatesOf, CityStatesOf, Positions, OwnedCities, IsLevelFor;
    ghost var w := state.View();
    for k := 0 to |state.cities|
      invariant forall j :: 0 <= j < k ==> w.cities[j].factionId != f as int
    {
      assert w.cities[k] == state.cities[k].State();
      if state.cities[k].factionId == f as int {
        return false;
      }
    }
    for i := 0 to |state.units|
      invariant forall j :: 0 <= j < i ==> !(w.units[j].Alive() && w.units[j].factionId == f)
    {
      assert w.units[i] == state.units[i].State();
      if state.units[i].IsAlive() && state.units[i].factionId == f {
        return false;
      }
    }
    return true;
  }

  method HandOver(city: City, f: FactionId)
    requires city.Valid()
    modifies city`factionId, city.buildQueue`queue, city.buildQueue`accumulated
    ensures city.Valid()
    ensures city.State() == old(city.State()).(factionId := ToSigned(f), queue := QueueState([], 0))
  {
    city.SetFactionId(ToSigned(f));
    city.buildQueue.Clear();
  }

  /** Hands city `k` over and clears its queue. */
  method TransferCity(state: GameState, k: nat, f: FactionId)
    requires state.Valid() && k < |state.cities|
    modifies state.cities`factionId, QueuesOf(state.cities)`queue, QueuesOf(state.cities)`accumulated
    ensures state.Valid() && state.cities == old(state.cities)
    ensures var w := old(state.View());
            state.View() == w.(cities := w.cities[k := w.cities[k].(factionId := ToSigned(f), queue := QueueState([], 0))])
  {
    hide Agrees, StatesOf, CityStatesOf, Positions, IsLevelFor, GameState.IndexAgrees, Map.Valid, Map.View,
         UnitState.Ok, Unit.Valid;
    ghost var before := CityStatesOf(state.cities);
    state.CityStateAt(k);
    var city := state.cities[k];
    HandOver(city, f);
    assert CityStatesOf(state.cities) == before[k := before[k].(factionId := ToSigned(f), queue := QueueState([], 0))];
  }

  /** What a capture reports: the owners before and after, the city, and whether the previous owner has
      anything left once it is gone. */
  ghost function CaptureReport(before: World, after: World, i: nat): CaptureResult
    requires i < |before.units| && CityCentredAt(before.cities, before.units[i].pos) < |before.cities|
  {
    var city := before.cities[CityCentredAt(before.cities, before.units[i].pos)];
    var owner := ToFactionId(city.factionId);
    CaptureResult(true, CaptureValid, owner, before.units[i].factionId, city.name,
                  Eliminated(after, owner), if Eliminated(after, owner) then owner else 0)
  }

  method CaptureExecute(state: GameState, i: nat) returns (result: CaptureResult)
    requires state.Valid()
    modifies state.cities`factionId, QueuesOf(state.cities)`queue, QueuesOf(state.cities)`accumulated
    ensures state.Valid()
    ensures state.View() == old(After(state.View(), Capture(i)))
    ensures result.executed == old(Executes(state.View(), Capture(i)))
    ensures result == if result.executed then CaptureReport(old(state.View()), state.View(), i)
                      else CaptureResult(false, old(ValidateCapture(state.View(), i)), 0, 0, "", false, 0)
  {
    hide Agrees, StatesOf, CityStatesOf, Positions, OwnedCities, IsLevelFor, Defended, Eliminated, Captured,
         GameState.IndexAgrees;
    var validation := CaptureValidate(state, i);
    if validation != CaptureValid {
      return CaptureResult(false, validation, 0, 0, "", false, 0);
    }
    result := TakeCity(state, i);
  }

  /** The city changes hands, its queue is emptied, and the outcome is reported. */
  method TakeCity(state: GameState, i: nat) returns (result: CaptureResult)
    requires state.Valid() && ValidateCapture(state.View(), i) == CaptureValid
    modifies state.cities`factionId, QueuesOf(state.cities)`queue, QueuesOf(state.cities)`accumulated
    ensures state.Valid() && state.View() == Captured(old(state.View()), i)
    ensures result == CaptureReport(old(state.View()), state.View(), i)
  {
    hide Agrees, StatesOf, CityStatesOf, Positions, OwnedCities, Defended, Eliminated, Captured, ValidateCapture,
         GameState.Valid, GameState.View;
    var previousOwner, name := HandOverStanding(state, i);
    var newOwner := state.units[i].factionId;
    var eliminated := IsFactionEliminated(state, previousOwner);
    return CaptureResult(true, CaptureValid, previousOwner, newOwner, name, eliminated,
                         if eliminated then previousOwner else 0);
  }

  /** Hands over the city the unit stands on. */
  method HandOverStanding(state: GameState, i: nat) returns (previousOwner: FactionId, name: string)
    requires state.Valid() && ValidateCapture(state.View(), i) == CaptureValid
    modifies state.cities`factionId, QueuesOf(state.cities)`queue, QueuesOf(state.cities)`accumulated
    ensures state.Valid() && state.View() == Captured(old(state.View()), i)
    ensures i < |state.units| && state.units[i].factionId == old(state.View()).units[i].factionId
    ensures var city := old(state.View().cities)[CityCentredAt(old(state.View().cities), old(state.View().units)[i].pos)];
            previousOwner == ToFactionId(city.factionId) && name == city.name
  {
    hide Agrees, StatesOf, CityStatesOf, Positions, OwnedCities, IsLevelFor, Defended, AtWar, GameState.IndexAgrees;
    var unit := state.units[i];
    state.UnitStateAt(i);
    ghost var before := state.View();
    var k := FindCityCentreAt(state, unit.Pos());
    assert state.View() == before;
    state.CityStateAt(k);
    previousOwner, name := ToFactionId(state.cities[k].factionId), state.cities[k].name;
    TransferCity(state, k, unit.factionId);
  }

  // ---- Any action ------------------------------------------------------------------------

  /** `std::visit` over the action variant. */
  method Execute(state: GameState, action: GameAction) returns (executed: bool)
    requires state.Valid() && LooksInMap(state.View(), action)
    modifies state`units, state.registry`units, state.units`row, state.units`col,
             state.units`health, state.units`movementRemaining, state.units`experience, state.units`level, state.units`justLeveledUp,
             state.cities`factionId, QueuesOf(state.cities)`queue, QueuesOf(state.cities)`accumulated
    ensures state.Valid()
    ensures forall i :: 0 <= i < |state.units| ==> state.units[i] in old(state.units)
    ensures state.View() == old(After(state.View(), action))
    ensures executed == old(Executes(state.View(), action))
  {
    hide *;
    match action
    case Move(i, dest) =>
      var r := MoveExecute(state, i, dest);
      executed := r.executed;
    case Attack(a, t) =>
      var r := AttackExecute(state, a, t);
      executed := r.executed;
    case Capture(i) =>
      var r := CaptureExecute(state, i);
      executed := r.executed;
  }
}
