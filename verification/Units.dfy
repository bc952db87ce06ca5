/** Units: stats, health and movement bounds, experience and levels. */
module Units {
  import opened Common
  import opened Hex
  import opened Diplomacy

  const MAX_UNIT_LEVEL: nat := 5
  const XP_THRESHOLDS: seq<int> := [100, 250, 500, 750, 1000]
  const STAT_BONUS_PER_LEVEL := 2
  const XP_PER_DAMAGE_DEALT := 3
  const XP_KILL_BONUS := 50
  const XP_DEFEND_SURVIVE := 10

  datatype UnitTemplate = UnitTemplate(
    name: string, maxHealth: nat, attack: int, defense: int, movementRange: nat, attackRange: int, sightRange: int)

  /** Every field of a unit, as a value. */
  datatype UnitState = UnitState(
    pos: Coord, health: int, movementRemaining: int, factionId: FactionId, tmpl: UnitTemplate,
    experience: int, level: nat, justLeveledUp: bool)
  {
    predicate Alive() { health > 0 }

    function Attack(): int { tmpl.attack + level * STAT_BONUS_PER_LEVEL }

    function Defense(): int { tmpl.defense + level * STAT_BONUS_PER_LEVEL }

    /** What every unit method keeps. */
    ghost predicate Ok() {
      && 0 <= health <= tmpl.maxHealth
      && 0 <= movementRemaining <= tmpl.movementRange
      && 0 <= experience
      && IsLevelFor(level, experience)
    }
  }

  /** `level` counts the thresholds that `experience` has reached. */
  ghost predicate IsLevelFor(level: nat, experience: int) {
    && level <= MAX_UNIT_LEVEL
    && (forall i :: 0 <= i < level ==> XP_THRESHOLDS[i] <= experience)
    && (level < MAX_UNIT_LEVEL ==> experience < XP_THRESHOLDS[level])
  }

  /** The level is a function of the experience, and more experience never lowers it. */
  lemma LevelIsMonotone(l: nat, x: int, m: nat, y: int)
    requires IsLevelFor(l, x) && IsLevelFor(m, y) && x <= y
    ensures l <= m && (x == y ==> l == m)
  {
  }

  /** The experience each level takes. */
  lemma LevelsTake(l: nat, x: int)
    requires IsLevelFor(l, x)
    ensures (l >= 1 <==> x >= 100) && (l >= 2 <==> x >= 250) && (l >= 3 <==> x >= 500) && (l >= 4 <==> x >= 750)
    ensures (l == 5 <==> x >= 1000) && l <= 5
  {
    assert XP_THRESHOLDS[0] == 100 && XP_THRESHOLDS[1] == 250 && XP_THRESHOLDS[2] == 500 && XP_THRESHOLDS[3] == 750
           && XP_THRESHOLDS[4] == 1000;
  }

  function Clamp(x: int, hi: nat): nat {
    Max(0, Min(x, hi))
  }

  class Unit {
    var row: int
    var col: int
    var health: int
    var movementRemaining: int
    const factionId: FactionId
    const tmpl: UnitTemplate
    var experience: int
    var level: nat
    var justLeveledUp: bool

    ghost function State(): UnitState
      reads this
    {
      UnitState(Coord(row, col), health, movementRemaining, factionId, tmpl, experience, level, justLeveledUp)
    }

    ghost predicate Valid()
      reads this
    {
      State().Ok()
    }

    constructor (pos: Coord, tmpl: UnitTemplate, factionId: FactionId)
      ensures Valid()
      ensures State() == UnitState(pos, tmpl.maxHealth, tmpl.movementRange, factionId, tmpl, 0, 0, false)
    {
      row, col := pos.row, pos.col;
      health, movementRemaining := tmpl.maxHealth, tmpl.movementRange;
      this.factionId, this.tmpl := factionId, tmpl;
      experience, level, justLeveledUp := 0, 0, false;
    }

    function Pos(): Coord
      reads this
    {
      Coord(row, col)
    }

    predicate IsAlive()
      reads this
    {
      health > 0
    }

    function Attack(): int
      reads this
    {
      tmpl.attack + level * STAT_BONUS_PER_LEVEL
    }

    function Defense(): int
      reads this
    {
      tmpl.defense + level * STAT_BONUS_PER_LEVEL
    }

    method MoveTo(dest: Coord, cost: int)
      requires Valid() && 0 < cost <= movementRemaining
      modifies this`row, this`col, this`movementRemaining
      ensures Valid()
      ensures State() == old(State()).(pos := dest, movementRemaining := old(movementRemaining) - cost)
    {
      row, col := dest.row, dest.col;
      movementRemaining := movementRemaining - cost;
    }

    method SetPosition(dest: Coord)
      requires Valid()
      modifies this`row, this`col
      ensures Valid() && State() == old(State()).(pos := dest)
    {
      row, col := dest.row, dest.col;
    }

    method TakeDamage(amount: int)
      requires Valid() && amount >= 0
      modifies this`health
      ensures Valid() && State() == old(State()).(health := Max(0, old(health) - amount))
    {
      health := Max(0, health - amount);
    }

    method ResetMovement()
      requires Valid()
      modifies this`movementRemaining
      ensures Valid() && State() == old(State()).(movementRemaining := tmpl.movementRange)
    {
      movementRemaining := tmpl.movementRange;
    }

    method SetHealth(h: int)
      requires Valid()
      modifies this`health
      ensures Valid() && State() == old(State()).(health := Clamp(h, tmpl.maxHealth))
    {
      health := Max(0, Min(h, tmpl.maxHealth));
    }

    method SetMovementRemaining(remaining: int)
      requires Valid()
      modifies this`movementRemaining
      ensures Valid() && State() == old(State()).(movementRemaining := Clamp(remaining, tmpl.movementRange))
    {
      movementRemaining := Max(0, Min(remaining, tmpl.movementRange));
    }

    /** Everything but the experience, level and level-up flag is kept; the level fits the new experience. */
    method AddExperience(xp: int) returns (leveledUp: bool)
      requires Valid()
      modifies this`experience, this`level, this`justLeveledUp
      ensures Valid()
      ensures State() == GainExperience(old(State()), xp)
      ensures leveledUp == (level > old(level))
    {
      LevelOfIsLevel(experience);
      LevelIsMonotone(level, experience, LevelOf(experience), experience);
      if xp <= 0 {
        return false;
      }
      var previousLevel := level;
      experience := experience + xp;
      RecomputeLevel();
      LevelIsMonotone(previousLevel, old(experience), level, experience);
      if level > previousLevel {
        justLeveledUp := true;
        return true;
      }
      return false;
    }

    method SetExperience(xp: int)
      requires Valid()
      modifies this`experience, this`level
      ensures Valid()
      ensures State() == old(State()).(experience := Max(0, xp), level := LevelOf(Max(0, xp)))
    {
      experience := Max(0, xp);
      RecomputeLevel();
    }

    method RecomputeLevel()
      modifies this`level
      ensures IsLevelFor(level, experience)
      ensures State() == old(State()).(level := LevelOf(experience))
    {
      var newLevel: nat := 0;
      var i := 0;
      while i < |XP_THRESHOLDS|
        invariant 0 <= i <= |XP_THRESHOLDS| && newLevel == i
        invariant forall j :: 0 <= j < i ==> XP_THRESHOLDS[j] <= experience
      {
        if experience >= XP_THRESHOLDS[i] {
          newLevel := i + 1;
        } else {
          break;
        }
        i := i + 1;
      }
      level := Min(newLevel, MAX_UNIT_LEVEL);
      LevelOfIsLevel(experience);
      LevelIsMonotone(level, experience, LevelOf(experience), experience);
      LevelIsMonotone(LevelOf(experience), experience, level, experience);
    }
  }

  /** The level for an amount of experience, by threshold. */
  function LevelOf(experience: int): nat {
    if experience >= 1000 then 5
    else if experience >= 750 then 4
    else if experience >= 500 then 3
    else if experience >= 250 then 2
    else if experience >= 100 then 1
    else 0
  }

  lemma LevelOfIsLevel(experience: int)
    ensures IsLevelFor(LevelOf(experience), experience)
  {
  }

  /** What gaining `xp` does to a unit: the flag is raised when a level is gained and never lowered. */
  function GainExperience(u: UnitState, xp: int): UnitState {
    if xp <= 0 then u
    else
      var l := LevelOf(u.experience + xp);
      u.(experience := u.experience + xp, level := l, justLeveledUp := u.justLeveledUp || l > u.level)
  }

  /** What gaining experience means: the level fits the sum, the flag tells of any level gained so far, and nothing else
      changes. */
  lemma GainMeans(u: UnitState, xp: int)
    requires u.Ok()
    ensures var v := GainExperience(u, xp);
            && v == u.(experience := u.experience + Max(0, xp), level := v.level, justLeveledUp := v.justLeveledUp)
            && IsLevelFor(v.level, v.experience) && v.level >= u.level
            && (v.justLeveledUp <==> u.justLeveledUp || v.level > u.level)
  {
    LevelOfIsLevel(u.experience + Max(0, xp));
    LevelIsMonotone(u.level, u.experience, GainExperience(u, xp).level, u.experience + Max(0, xp));
  }

  /** The states of a list of units, in order. */
  ghost function StatesOf(units: seq<Unit>): (s: seq<UnitState>)
    reads units
    ensures |s| == |units| && forall i :: 0 <= i < |units| ==> s[i] == units[i].State()
  {
    if units == [] then [] else StatesOf(units[..|units| - 1]) + [units[|units| - 1].State()]
  }
}
