/** Combat resolution: computed from the two units and the terrain, changing neither. */
module Combat {
  import opened Common
  import opened Units
  import opened Cities

  const MINIMUM_DAMAGE := 1
  const DEFENSE_DIVISOR := 2

  datatype CombatContext = CombatContext(terrainDefenseBonus: int, attackerTerrainDefenseBonus: int, rangedAttack: bool)

  datatype CombatResult = CombatResult(damageToDefender: int, damageToAttacker: int, defenderDied: bool, attackerDied: bool)

  function ComputeDamage(attackStat: int, defenseStat: int, terrainBonus: int): int {
    Max(MINIMUM_DAMAGE, attackStat - TruncDiv(defenseStat + terrainBonus, DEFENSE_DIVISOR))
  }

  function ResolveCombat(attacker: UnitState, defender: UnitState, context: CombatContext): CombatResult {
    var damageToDefender :=
      Min(ComputeDamage(attacker.Attack(), defender.Defense(), context.terrainDefenseBonus), defender.health);
    var defenderDied := damageToDefender >= defender.health;
    if defender.tmpl.attackRange == 1 && !defenderDied && !context.rangedAttack then
      var damageToAttacker :=
        Min(ComputeDamage(defender.Attack(), attacker.Defense(), context.attackerTerrainDefenseBonus), attacker.health);
      CombatResult(damageToDefender, damageToAttacker, defenderDied, damageToAttacker >= attacker.health)
    else
      CombatResult(damageToDefender, 0, defenderDied, false)
  }

  /** Between living units: every attack hurts, no damage exceeds the health left, a death is reported exactly
      when no health is left, the two never both die, and only a surviving melee defender in reach hits back. */
  lemma CombatIsSound(attacker: UnitState, defender: UnitState, context: CombatContext)
    requires attacker.health > 0 && defender.health > 0
    ensures var r := ResolveCombat(attacker, defender, context);
            && 1 <= r.damageToDefender <= defender.health
            && 0 <= r.damageToAttacker <= attacker.health
            && (r.defenderDied <==> defender.health - r.damageToDefender == 0)
            && (r.attackerDied <==> attacker.health - r.damageToAttacker == 0)
            && !(r.defenderDied && r.attackerDied)
            && (r.damageToAttacker > 0 <==> defender.tmpl.attackRange == 1 && !r.defenderDied && !context.rangedAttack)
  {
  }

  /** A stronger attack never hurts less, and a better defence or terrain never hurts more. */
  lemma DamageIsMonotone(attack: int, attack': int, defense: int, defense': int, bonus: int, bonus': int)
    requires attack <= attack' && defense >= defense' && bonus >= bonus'
    ensures ComputeDamage(attack, defense, bonus) <= ComputeDamage(attack', defense', bonus')
  {
  }

  /** Division truncates: damage differs from what rounding down would give exactly when the effective
      defence is odd and negative, which only a swamp's -1 can make it. */
  lemma NegativeDefenceRoundsToZero(attack: int, effective: int)
    requires attack >= 1
    ensures ComputeDamage(attack, effective, 0) == Max(MINIMUM_DAMAGE, attack - effective / DEFENSE_DIVISOR)
            <==> effective >= 0 || effective % 2 == 0
  {
  }
}
