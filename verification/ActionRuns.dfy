/** Whole runs of player actions within one turn: they all end. */
module ActionRuns {
  import opened Common
  import opened Hex
  import opened Diplomacy
  import opened Units
  import opened Registry
  import opened ZoneOfControl
  import opened Combat
  import opened Worlds

  // ---- Every run of successful actions is finite ----------------------------------------

  function MovementSum(units: seq<UnitState>): int {
    if units == [] then 0 else MovementSum(units[..|units| - 1]) + units[|units| - 1].movementRemaining
  }

  /** A living unit of the owner stands on the centre of city `k`. */
  ghost predicate Garrisoned(w: World, k: nat)
    requires k < |w.cities|
  {
    exists i :: 0 <= i < |w.units| && w.units[i].Alive() && w.units[i].pos == w.cities[k].centre
                && w.units[i].factionId == ToFactionId(w.cities[k].factionId)
  }

  ghost function Ungarrisoned(w: World): set<nat> {
    set k: nat | k < |w.cities| && !Garrisoned(w, k)
  }

  /** The lexicographic measure (movement left, cities without a garrison) as one number: there are never
      more ungarrisoned cities than cities. */
  ghost function Potential(w: World): int {
    MovementSum(w.units) * (|w.cities| + 1) + |Ungarrisoned(w)|
  }

  lemma {:induction false} MovementSumUpdate(units: seq<UnitState>, i: nat, u: UnitState)
    requires i < |units|
    ensures MovementSum(units[i := u]) == MovementSum(units) - units[i].movementRemaining + u.movementRemaining
  {
    var init := units[..|units| - 1];
    if i == |units| - 1 {
      assert units[i := u][..|units| - 1] == init;
    } else {
      MovementSumUpdate(init, i, u);
      assert units[i := u][..|units| - 1] == init[i := u];
    }
  }

  lemma {:induction false} MovementSumRemove(units: seq<UnitState>, i: nat)
    requires i < |units|
    ensures MovementSum(RemoveAt(units, i)) == MovementSum(units) - units[i].movementRemaining
  {
    var init := units[..|units| - 1];
    if i == |units| - 1 {
      assert RemoveAt(units, i) == init;
    } else {
      MovementSumRemove(init, i);
      assert RemoveAt(units, i)[..|units| - 2] == RemoveAt(init, i);
    }
  }

  lemma {:induction false} MovementSumNonNegative(units: seq<UnitState>)
    requires forall i :: 0 <= i < |units| ==> units[i].Ok()
    ensures MovementSum(units) >= 0
  {
    if units != [] {
      MovementSumNonNegative(units[..|units| - 1]);
      assert units[|units| - 1].Ok();
    }
  }

  lemma UngarrisonedBound(w: World)
    ensures |Ungarrisoned(w)| <= |w.cities|
  {
    IndexSetBound(Ungarrisoned(w), |w.cities|);
  }

  lemma {:induction false} IndexSetBound(s: set<nat>, n: nat)
    requires forall k :: k in s ==> k < n
    ensures |s| <= n
    decreases n
  {
    if n > 0 {
      IndexSetBound(s - {n - 1}, n - 1);
    } else {
      assert s == {};
    }
  }

  lemma PotentialNonNegative(w: World)
    requires w.Ok()
    ensures Potential(w) >= 0
  {
    MovementSumNonNegative(w.units);
    MulNonNegative(MovementSum(w.units), |w.cities| + 1);
  }

  lemma MulNonNegative(a: int, b: int)
    requires a >= 0 && b >= 0
    ensures a * b >= 0
  {
  }

  /** Spending movement pays for any number of garrisons lost. */
  lemma LessMovementLowersPotential(w: World, w': World)
    requires |w'.cities| == |w.cities| && MovementSum(w'.units) < MovementSum(w.units)
    ensures Potential(w') < Potential(w)
  {
    hide Ungarrisoned, MovementSum;
    UngarrisonedBound(w');
    MulStep(MovementSum(w'.units), MovementSum(w.units), |w.cities| + 1);
  }

  lemma {:induction false} MulStep(a: int, b: int, n: int)
    requires a < b && n >= 0
    ensures a * n + n <= b * n
    decreases b - a
  {
    assert b * n == (b - 1) * n + n;
    if a < b - 1 {
      MulStep(a, b - 1, n);
    }
  }

  lemma GainKeepsOk(u: UnitState, xp: int)
    requires u.Ok()
    ensures GainExperience(u, xp).Ok()
    ensures GainExperience(u, xp).movementRemaining == u.movementRemaining && GainExperience(u, xp).tmpl == u.tmpl
  {
    LevelOfIsLevel(u.experience + xp);
  }

  lemma FightKeepsOk(a: UnitState, t: UnitState, r: CombatResult)
    requires a.Ok() && t.Ok() && 0 <= r.damageToDefender && 0 <= r.damageToAttacker
    ensures AttackerAfter(a, r).Ok() && TargetAfter(t, r).Ok()
    ensures AttackerAfter(a, r).movementRemaining == Max(0, a.movementRemaining - 1)
    ensures TargetAfter(t, r).movementRemaining == t.movementRemaining
  {
    hide IsLevelFor, GainExperience;
    var ha, ht := a.(health := Max(0, a.health - r.damageToAttacker)), t.(health := Max(0, t.health - r.damageToDefender));
    GainKeepsOk(ha, r.damageToDefender * XP_PER_DAMAGE_DEALT + (if r.defenderDied then XP_KILL_BONUS else 0));
    GainKeepsOk(ht, XP_DEFEND_SURVIVE + (if r.damageToAttacker > 0 then r.damageToAttacker * XP_PER_DAMAGE_DEALT else 0)
                    + (if r.attackerDied then XP_KILL_BONUS else 0));
  }

  lemma RemoveIfDeadFacts(units: seq<UnitState>, i: nat)
    requires i < |units| && forall j :: 0 <= j < |units| ==> units[j].Ok()
    ensures forall j :: 0 <= j < |RemoveIfDead(units, i)| ==> RemoveIfDead(units, i)[j].Ok()
    ensures MovementSum(RemoveIfDead(units, i)) <= MovementSum(units)
    ensures i <= |RemoveIfDead(units, i)|
  {
    MovementSumRemove(units, i);
    assert units[i].Ok();
  }

  /** Two units are changed: both stay within bounds, one has less movement left and the other as much. */
  lemma HurtLowersMovement(units: seq<UnitState>, a: nat, t: nat, attacker: UnitState, target: UnitState)
    requires a < |units| && t < |units| && a != t && forall i :: 0 <= i < |units| ==> units[i].Ok()
    requires attacker.Ok() && attacker.movementRemaining < units[a].movementRemaining
    requires target.Ok() && target.movementRemaining == units[t].movementRemaining
    ensures var hurt := units[t := target][a := attacker];
            && (forall i :: 0 <= i < |hurt| ==> hurt[i].Ok())
            && MovementSum(hurt) < MovementSum(units)
  {
    hide MovementSum, UnitState.Ok;
    MovementSumUpdate(units, t, target);
    MovementSumUpdate(units[t := target], a, attacker);
  }

  lemma RemovalsKeepBounds(units: seq<UnitState>, hi: nat, lo: nat)
    requires lo < hi < |units| && forall i :: 0 <= i < |units| ==> units[i].Ok()
    ensures var left := DeadRemoved(units, hi, lo);
            && (forall i :: 0 <= i < |left| ==> left[i].Ok())
            && MovementSum(left) <= MovementSum(units)
  {
    hide RemoveIfDead, MovementSum, UnitState.Ok;
    RemoveIfDeadFacts(units, hi);
    RemoveIfDeadFacts(RemoveIfDead(units, hi), lo);
  }

  lemma ValidAttackFacts(w: World, a: nat, t: nat)
    requires ValidateAttack(w, a, t) == AttackValid && LooksInMap(w, Attack(a, t))
    ensures a < |w.units| && t < |w.units| && a != t && w.units[a].Alive() && w.units[t].Alive()
    ensures w.grid.Has(w.units[a].pos) && w.grid.Has(w.units[t].pos) && w.units[a].movementRemaining >= 1
  {
    hide Relation, HexDistance;
  }

  lemma FightFacts(w: World, a: nat, t: nat)
    requires w.Ok() && ValidateAttack(w, a, t) == AttackValid && LooksInMap(w, Attack(a, t))
    ensures Fought(w, a, t).Ok() && MovementSum(Fought(w, a, t).units) < MovementSum(w.units)
  {
    hide ValidateAttack, LooksInMap, ResolveCombat, ContextOf, AttackerAfter, TargetAfter, DeadRemoved, MovementSum,
         UnitState.Ok, Relation, HexDistance;
    ValidAttackFacts(w, a, t);
    var r := ResolveCombat(w.units[a], w.units[t], ContextOf(w, a, t));
    CombatIsSound(w.units[a], w.units[t], ContextOf(w, a, t));
    FightKeepsOk(w.units[a], w.units[t], r);
    var attacker, target := AttackerAfter(w.units[a], r), TargetAfter(w.units[t], r);
    HurtLowersMovement(w.units, a, t, attacker, target);
    RemovalsKeepBounds(w.units[t := target][a := attacker], if a > t then a else t, if a > t then t else a);
  }

  /** A capture garrisons exactly the captured city: its new owner's unit stands on its centre, while before
      no living unit of its owner stood on any of its tiles. */
  lemma CaptureGarrisonsOneMore(w: World, i: nat)
    requires w.Ok() && ValidateCapture(w, i) == CaptureValid
    ensures var k := CityCentredAt(w.cities, w.units[i].pos);
            k in Ungarrisoned(w) && Ungarrisoned(Captured(w, i)) == Ungarrisoned(w) - {k}
  {
    var k := CityCentredAt(w.cities, w.units[i].pos);
    var w' := Captured(w, i);
    FactionIdRoundTrip(w.units[i].factionId, 0);
    assert w.cities[k].Ok();
    assert !Garrisoned(w, k);
    assert Garrisoned(w', k) by {
      assert w'.units[i].Alive() && w'.units[i].pos == w'.cities[k].centre
             && w'.units[i].factionId == ToFactionId(w'.cities[k].factionId);
    }
    forall j: nat | j < |w.cities| && j != k
      ensures Garrisoned(w', j) <==> Garrisoned(w, j)
    {
      assert w'.cities[j] == w.cities[j];
    }
  }

  lemma GarrisonLowersPotential(w: World, w': World)
    requires w'.units == w.units && |w'.cities| == |w.cities| && |Ungarrisoned(w')| < |Ungarrisoned(w)|
    ensures Potential(w') < Potential(w)
  {
  }

  lemma MoveFacts(w: World, i: nat, dest: Coord)
    requires w.Ok() && LooksInMap(w, Move(i, dest)) && ValidateMove(w, i, dest) == MoveValid
    ensures Moved(w, i, dest).Ok() && MovementSum(Moved(w, i, dest).units) < MovementSum(w.units)
  {
    hide HexDistance, BlockedByZoc;
    var w' := Moved(w, i, dest);
    MovementSumUpdate(w.units, i, w'.units[i]);
    assert w.units[i].Ok();
  }

  /** Every action that executes keeps the state well-formed and lowers the potential, so it lowers
      (movement left, ungarrisoned cities) lexicographically. */
  lemma ActionLowersPotential(w: World, action: GameAction)
    requires w.Ok() && LooksInMap(w, action) && Executes(w, action)
    ensures After(w, action).Ok() && |After(w, action).cities| == |w.cities|
    ensures Potential(After(w, action)) < Potential(w)
    ensures MovementSum(After(w, action).units) < MovementSum(w.units)
            || (After(w, action).units == w.units && |Ungarrisoned(After(w, action))| < |Ungarrisoned(w)|)
  {
    hide Potential, Garrisoned, Defended, BlockedByZoc, HexDistance;
    match action
    case Move(i, dest) =>
      MoveFacts(w, i, dest);
      LessMovementLowersPotential(w, Moved(w, i, dest));
    case Attack(a, t) =>
      FightFacts(w, a, t);
      hide Fought;
      LessMovementLowersPotential(w, Fought(w, a, t));
    case Capture(i) =>
      CaptureGarrisonsOneMore(w, i);
      GarrisonLowersPotential(w, Captured(w, i));
  }

  /** The states a run of actions goes through, all of them executing. */
  ghost predicate SuccessfulRun(w: World, actions: seq<GameAction>, w': World)
    decreases |actions|
  {
    if actions == [] then w' == w
    else
      && LooksInMap(w, actions[0]) && Executes(w, actions[0])
      && SuccessfulRun(After(w, actions[0]), actions[1..], w')
  }

  /** Within a turn no infinite run of successful actions exists: the starting potential bounds every run. */
  lemma {:induction false} RunsAreBounded(w: World, actions: seq<GameAction>, w': World)
    requires w.Ok() && SuccessfulRun(w, actions, w')
    ensures w'.Ok() && |actions| <= Potential(w) - Potential(w') && Potential(w') >= 0
    decreases |actions|
  {
    hide Potential, Executes, After;
    PotentialNonNegative(w);
    if actions != [] {
      ActionLowersPotential(w, actions[0]);
      RunsAreBounded(After(w, actions[0]), actions[1..], w');
    }
  }
}
