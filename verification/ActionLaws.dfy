/** What an action that executes says about units, terrain and relations, and that nothing else is refused. */
module ActionLaws {
  import opened Common
  import opened Hex
  import opened Terrain
  import opened Diplomacy
  import opened Units
  import opened Registry
  import opened ZoneOfControl
  import opened Cities
  import opened Combat
  import opened Worlds

  // ---- Moving -----------------------------------------------------------------------

  /** A listed unit of faction `e` stands on a map tile next to `p`. */
  ghost predicate StandsNextTo(w: World, e: FactionId, p: Coord) {
    exists i :: 0 <= i < |w.units| && w.units[i].factionId == e && w.grid.Has(w.units[i].pos)
                && HexDistance(p, w.units[i].pos) == 1
  }

  /** `e`, at war with `f`, has a listed unit next to `p`. */
  ghost predicate Holds(w: World, e: FactionId, f: FactionId, p: Coord) {
    AtWar(w.relations, f, e) && StandsNextTo(w, e, p)
  }

  /** Zone of control over the board is zone of control over the list of units. */
  lemma HoldersExert(w: World, f: FactionId, p: Coord, e: FactionId)
    ensures Exerts(w.Board(), f, p, e) <==> Holds(w, e, f, p)
  {
    hide HexDistance, InMapNeighbours, OccupancyOf;
    NeighboursAreDistanceOne(SEARCH_TABLE, p, w.grid.height, w.grid.width);
    RelationsAreMutual(w.relations, f, f);
    if Exerts(w.Board(), f, p, e) {
      var q :| q in w.Board().Neighbours(p) && e in FactionsOn(w.Board().occupancy, q);
      OccupancyMembers(w.units, q, e);
    }
    if Holds(w, e, f, p) {
      var i :| 0 <= i < |w.units| && w.units[i].factionId == e && w.grid.Has(w.units[i].pos) && HexDistance(p, w.units[i].pos) == 1;
      OccupancyMembers(w.units, w.units[i].pos, e);
      assert w.units[i].pos in w.Board().Neighbours(p);
    }
  }

  /** A move executes exactly when a living unit can pay for a passable tile next to it and no enemy faction has
      units next to both ends of the step. */
  lemma MoveExecutesIff(w: World, i: nat, dest: Coord)
    requires LooksInMap(w, Move(i, dest))
    ensures Executes(w, Move(i, dest))
            <==> && i < |w.units| && w.units[i].health > 0
                 && w.grid.Has(dest) && HexDistance(w.units[i].pos, dest) == 1
                 && PropertiesOf(w.grid.At(dest)).passable
                 && PropertiesOf(w.grid.At(dest)).movementCost <= w.units[i].movementRemaining
                 && forall e :: !(Holds(w, e, w.units[i].factionId, w.units[i].pos) && Holds(w, e, w.units[i].factionId, dest))
  {
    hide HexDistance, Exerts, Holds;
    if i < |w.units| {
      var f := w.units[i].factionId;
      forall e, p
        ensures Exerts(w.Board(), f, p, e) <==> Holds(w, e, f, p)
      {
        HoldersExert(w, f, p, e);
      }
    }
  }

  // ---- Capturing --------------------------------------------------------------------

  /** A capture executes exactly when a living unit stands on the centre of a city, and of the first such city
      the owner is at war with it and has no living unit on its tiles. */
  lemma CaptureExecutesIff(w: World, i: nat)
    ensures Executes(w, Capture(i))
            <==> && i < |w.units| && w.units[i].health > 0
                 && exists k :: IsFirstCityAt(w, k, w.units[i].pos)
                      && AtWar(w.relations, w.units[i].factionId, ToFactionId(w.cities[k].factionId))
                      && forall j :: 0 <= j < |w.units| && w.units[j].health > 0 && w.units[j].pos in w.cities[k].tiles
                           ==> w.units[j].factionId != ToFactionId(w.cities[k].factionId)
  {
    if i < |w.units| {
      var k := CityCentredAt(w.cities, w.units[i].pos);
      forall j | IsFirstCityAt(w, j, w.units[i].pos)
        ensures j == k
      {
        assert w.cities[j].centre == w.units[i].pos;
      }
      if k < |w.cities| {
        assert IsFirstCityAt(w, k, w.units[i].pos);
        RelationsAreMutual(w.relations, w.units[i].factionId, w.units[i].factionId);
      }
    }
  }

  ghost predicate IsFirstCityAt(w: World, k: int, p: Coord) {
    0 <= k < |w.cities| && w.cities[k].centre == p && forall j :: 0 <= j < k ==> w.cities[j].centre != p
  }

  /** The captured city belongs to the faction of the unit, builds nothing and has no progress; it is otherwise
      what it was, as is everything else, and the faction cannot capture it again. */
  lemma CaptureHandsOver(w: World, i: nat, k: nat)
    requires Executes(w, Capture(i)) && IsFirstCityAt(w, k, w.units[i].pos)
    ensures var w' := After(w, Capture(i));
            && w' == w.(cities := w'.cities) && |w'.cities| == |w.cities|
            && (forall j :: 0 <= j < |w.cities| && j != k ==> w'.cities[j] == w.cities[j])
            && w'.cities[k] == w.cities[k].(factionId := w'.cities[k].factionId, queue := w'.cities[k].queue)
            && ToFactionId(w'.cities[k].factionId) == w.units[i].factionId
            && w'.cities[k].queue.items == [] && w'.cities[k].queue.accumulated == 0
            && forall j :: 0 <= j < |w.units| && w.units[j].factionId == w.units[i].factionId && w.units[j].pos == w.units[i].pos
                 ==> !Executes(w', Capture(j))
  {
    var w' := After(w, Capture(i));
    FactionIdRoundTrip(w.units[i].factionId, 0);
    RelationsAreMutual(w.relations, w.units[i].factionId, w.units[i].factionId);
    assert CityCentredAt(w.cities, w.units[i].pos) == k;
    assert forall j :: 0 <= j < |w.cities| ==> w'.cities[j].centre == w.cities[j].centre;
    assert CityCentredAt(w'.cities, w.units[i].pos) == k;
  }

  // ---- Attacking --------------------------------------------------------------------

  /** An attack executes exactly when both units live, their factions are at war, and the attacker has a movement
      point left and the target in range. */
  lemma AttackExecutesIff(w: World, a: nat, t: nat)
    requires LooksInMap(w, Attack(a, t))
    ensures Executes(w, Attack(a, t))
            <==> && a < |w.units| && t < |w.units| && w.units[a].health > 0 && w.units[t].health > 0
                 && AtWar(w.relations, w.units[a].factionId, w.units[t].factionId)
                 && w.units[a].movementRemaining >= 1
                 && HexDistance(w.units[a].pos, w.units[t].pos) <= w.units[a].tmpl.attackRange
  {
    hide HexDistance;
    if a < |w.units| {
      RelationsAreMutual(w.relations, w.units[a].factionId, w.units[a].factionId);
    }
  }

  /** What a blow leaves of `health`: half the defence, with what the ground adds to it, is held against the attack. */
  function HealthLeft(health: int, attack: int, defence: int, ground: int): int {
    Max(0, health - Max(1, attack - TruncDiv(defence + ground, 2)))
  }

  function Ground(w: World, p: Coord): int
    requires w.grid.Has(p)
  {
    PropertiesOf(w.grid.At(p)).defenseModifier
  }

  ghost predicate CanFight(w: World, a: nat, t: nat) {
    LooksInMap(w, Attack(a, t)) && Executes(w, Attack(a, t))
  }

  lemma FightersAreOnTheMap(w: World, a: nat, t: nat)
    requires CanFight(w, a, t)
    ensures a < |w.units| && t < |w.units| && a != t && w.units[a].Alive() && w.units[t].Alive()
    ensures w.grid.Has(w.units[a].pos) && w.grid.Has(w.units[t].pos)
  {
    hide HexDistance, Relation;
  }

  /** The blows in figures: the target is protected by the ground it stands on, and strikes back, if it lives, is
      a melee unit and is within one tile, at an attacker protected by the ground it stands on. */
  lemma BlowsAreExact(w: World, a: nat, t: nat)
    requires CanFight(w, a, t)
    ensures a < |w.units| && t < |w.units| && a != t && w.grid.Has(w.units[a].pos) && w.grid.Has(w.units[t].pos)
    ensures var u, v, units := w.units[a], w.units[t], Struck(w, a, t);
            && units[t].health == HealthLeft(v.health, u.tmpl.attack + 2 * u.level, v.tmpl.defense + 2 * v.level, Ground(w, v.pos))
            && units[a].health == if units[t].health > 0 && v.tmpl.attackRange == 1 && HexDistance(u.pos, v.pos) <= 1
                                  then HealthLeft(u.health, v.tmpl.attack + 2 * v.level, u.tmpl.defense + 2 * u.level, Ground(w, u.pos))
                                  else u.health
  {
    hide HexDistance, Relation, LevelOf, ValidateAttack, TruncDiv;
    FightersAreOnTheMap(w, a, t);
  }

  /** Of the units after the blows exactly the target leaves if it is dead, the attacker if it is, and nobody
      otherwise; the rest of the world stays. */
  lemma DeadAreRemoved(w: World, a: nat, t: nat)
    requires CanFight(w, a, t)
    ensures a < |w.units| && t < |w.units| && a != t && w.grid.Has(w.units[a].pos) && w.grid.Has(w.units[t].pos)
    ensures var w', units := After(w, Attack(a, t)), Struck(w, a, t);
            && w' == w.(units := w'.units)
            && w'.units == if units[t].health == 0 then units[..t] + units[t + 1..]
                           else if units[a].health == 0 then units[..a] + units[a + 1..]
                           else units
    ensures forall j :: 0 <= j < |w.units| && j != a && j != t ==> Struck(w, a, t)[j] == w.units[j]
  {
    hide HexDistance, Relation, LevelOf, ValidateAttack, HealthLeft;
    FightersAreOnTheMap(w, a, t);
    BlowsAreExact(w, a, t);
    HealthLeftIsNatural(w, a, t);
  }

  lemma HealthLeftIsNatural(w: World, a: nat, t: nat)
    requires CanFight(w, a, t)
    ensures a < |w.units| && t < |w.units| && a != t && w.grid.Has(w.units[a].pos) && w.grid.Has(w.units[t].pos)
    ensures Struck(w, a, t)[a].health >= 0 && Struck(w, a, t)[t].health >= 0
    ensures Struck(w, a, t)[t].health == 0 ==> Struck(w, a, t)[a].health > 0
  {
    hide Struck, ValidateAttack;
    FightersAreOnTheMap(w, a, t);
    BlowsAreExact(w, a, t);
  }

  /** The same units at war on the same kind of map, over any other ground. */
  ghost predicate OnlyGroundDiffers(w: World, w': World) {
    w' == w.(grid := w'.grid) && w'.grid.height == w.grid.height && w'.grid.width == w.grid.width
  }

  /** The ground under the target, and no other, protects the target: better ground there never leaves it less
      health, and over equal ground there it ends with the same health, whatever the ground elsewhere. */
  lemma TargetsGroundProtectsTarget(w: World, w': World, a: nat, t: nat)
    requires CanFight(w, a, t) && OnlyGroundDiffers(w, w')
    ensures CanFight(w', a, t) && a < |w.units| && t < |w.units| && a != t
    ensures w.grid.Has(w.units[a].pos) && w.grid.Has(w.units[t].pos)
    ensures Ground(w, w.units[t].pos) <= Ground(w', w.units[t].pos) ==>
              Struck(w, a, t)[t].health <= Struck(w', a, t)[t].health
    ensures Ground(w, w.units[t].pos) == Ground(w', w.units[t].pos) ==>
              Struck(w, a, t)[t].health == Struck(w', a, t)[t].health
  {
    hide HexDistance, Relation, Ground, Struck;
    FightersAreOnTheMap(w, a, t);
    BlowsAreExact(w, a, t);
    BlowsAreExact(w', a, t);
  }

  /** The ground under the attacker, and no other, protects the attacker from the counter strike, as long as the
      other ground does not decide whether the target lives to strike at all. */
  lemma AttackersGroundProtectsAttacker(w: World, w': World, a: nat, t: nat)
    requires CanFight(w, a, t) && OnlyGroundDiffers(w, w')
    ensures CanFight(w', a, t) && a < |w.units| && t < |w.units| && a != t
    ensures w.grid.Has(w.units[a].pos) && w.grid.Has(w.units[t].pos)
    ensures (Struck(w, a, t)[t].health == 0 <==> Struck(w', a, t)[t].health == 0) ==>
              && (Ground(w, w.units[a].pos) <= Ground(w', w.units[a].pos) ==> Struck(w, a, t)[a].health <= Struck(w', a, t)[a].health)
              && (Ground(w, w.units[a].pos) == Ground(w', w.units[a].pos) ==> Struck(w, a, t)[a].health == Struck(w', a, t)[a].health)
  {
    hide HexDistance, Relation, Ground, Struck;
    FightersAreOnTheMap(w, a, t);
    BlowsAreExact(w, a, t);
    BlowsAreExact(w', a, t);
  }

  /** What the fight teaches: three points for every point of health taken off the enemy and fifty for its death, ten
      more for the target's having stood it, and nothing for the dead.  The attacker pays one movement point. */
  lemma ExperienceIsForDamage(w: World, a: nat, t: nat)
    requires CanFight(w, a, t) && w.Ok()
    ensures a < |w.units| && t < |w.units| && a != t && w.grid.Has(w.units[a].pos) && w.grid.Has(w.units[t].pos)
    ensures var u, v, u', v' := w.units[a], w.units[t], Struck(w, a, t)[a], Struck(w, a, t)[t];
            && u'.experience - u.experience
               == (if u'.health == 0 then 0 else 3 * (v.health - v'.health) + if v'.health == 0 then 50 else 0)
            && v'.experience - v.experience
               == (if v'.health == 0 then 0 else 10 + 3 * (u.health - u'.health) + if u'.health == 0 then 50 else 0)
            && u'.movementRemaining == u.movementRemaining - 1 && v'.movementRemaining == v.movementRemaining
            && u'.pos == u.pos && v'.pos == v.pos && u'.factionId == u.factionId && v'.factionId == v.factionId
            && u'.tmpl == u.tmpl && v'.tmpl == v.tmpl
  {
    hide HexDistance, Relation, LevelOf, ValidateAttack, ComputeDamage, IsLevelFor;
    FightersAreOnTheMap(w, a, t);
    var u, v := w.units[a], w.units[t];
    assert u.Ok() && v.Ok();
    DamageIsPositive(u.Attack(), v.Defense(), ContextOf(w, a, t).terrainDefenseBonus);
    DamageIsPositive(v.Attack(), u.Defense(), ContextOf(w, a, t).attackerTerrainDefenseBonus);
    ExecutedAttackIsPaid(w, a, t);
  }

  lemma ExecutedAttackIsPaid(w: World, a: nat, t: nat)
    requires CanFight(w, a, t)
    ensures a < |w.units| && w.units[a].movementRemaining >= 1
  {
    hide HexDistance, Relation;
  }

  lemma DamageIsPositive(attack: int, defence: int, ground: int)
    ensures ComputeDamage(attack, defence, ground) >= 1
  {
  }
}
