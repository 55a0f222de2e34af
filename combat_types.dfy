/**
 * Value types shared by the combat core: attack and damage results, the stats an
 * entity exposes, grimoire bonuses and the attack definition.
 */
module CombatTypes {

  /** Attacker-side outcome: raw damage before the defender's defense. */
  datatype AttackResult = AttackResult(rawDamage: int, attackName: string, isCritical: bool)

  /** AttackResult.None: the result of a missed or invalid attack. */
  const NoAttack: AttackResult := AttackResult(0, "None", false)

  /** Defender-side outcome of one hit. */
  datatype DamageResult = DamageResult(
    rawDamage: int,
    finalDamage: int,
    wasCritical: bool,
    wasBlocked: bool,
    damageReduced: int)

  /** DamageResult.Blocked: nothing gets through. */
  const Blocked: DamageResult := DamageResult(0, 0, false, true, 0)

  /** DamageResult.None. */
  const NoDamage: DamageResult := DamageResult(0, 0, false, false, 0)

  /** The EntityStats resource: the base values an entity is configured with. */
  datatype EntityStats = EntityStats(vitalityStat: int, attackStat: int, defenseStat: int)

  /** What the damage formulas read from an entity (the IEntityStats shape). */
  datatype StatBlock = StatBlock(maxHealth: int, attack: int, defense: int)

  /** Bonuses a grimoire adds to every attack it owns. */
  datatype GrimoireStats = GrimoireStats(bonusAttack: int)

  /**
   * An attack definition: its name, damage coefficient and the timing fields the
   * spawners and slots read from it.
   */
  datatype AttackData = AttackData(
    name: string,
    damageCoefficient: real,
    cooldownDuration: real,
    castDuration: real,
    allowMovementDuringCast: bool)
}
