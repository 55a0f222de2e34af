/** Defender-side damage (Core/Combat/Calculations/DamageCalculator.cs). */
module DamageCalculator {
  import opened CombatTypes
  import Numerics

  /** Smallest damage an unblocked hit deals. */
  const MinimumDamage: int := 1

  /**
   * Applies the defender's defense to an attack. A hit whose raw damage does not
   * exceed the defense is blocked and deals nothing; any other hit deals the
   * difference, which is at least MinimumDamage.
   */
  function Calculate(defender: StatBlock, attackResult: AttackResult): (r: DamageResult)
    ensures r.rawDamage == attackResult.rawDamage
    ensures r.wasBlocked <==> attackResult.rawDamage <= defender.defense
    ensures r.wasBlocked ==> r.finalDamage == 0 && r.damageReduced == r.rawDamage && !r.wasCritical
    ensures !r.wasBlocked ==>
      r.finalDamage == attackResult.rawDamage - defender.defense &&
      r.finalDamage >= MinimumDamage &&
      r.damageReduced == defender.defense &&
      r.wasCritical == attackResult.isCritical
  {
    var rawDamage := attackResult.rawDamage;
    var damageAfterDefense := rawDamage - defender.defense;
    var finalDamage := Numerics.Max(MinimumDamage, damageAfterDefense);
    var damageReduced := rawDamage - finalDamage;
    if damageAfterDefense <= 0 then
      Blocked.(rawDamage := rawDamage, damageReduced := rawDamage)
    else
      DamageResult(rawDamage, finalDamage, attackResult.isCritical, false, damageReduced)
  }

  /** Final damage is never negative, and it is zero exactly when the hit was blocked. */
  lemma FinalDamageZeroIffBlocked(defender: StatBlock, attackResult: AttackResult)
    ensures Calculate(defender, attackResult).finalDamage >= 0
    ensures Calculate(defender, attackResult).finalDamage == 0 <==> Calculate(defender, attackResult).wasBlocked
  {
  }

  /** Raising the defense never raises the damage taken. */
  lemma MoreDefenseNeverHurtsMore(d1: StatBlock, d2: StatBlock, attackResult: AttackResult)
    requires d1.defense <= d2.defense
    ensures Calculate(d2, attackResult).finalDamage <= Calculate(d1, attackResult).finalDamage
  {
  }

  /** 30 raw damage against 10 defense: 20 gets through, 10 is absorbed. */
  lemma ExampleUnblockedHit()
    ensures Calculate(StatBlock(100, 0, 10), AttackResult(30, "Fireball", false))
         == DamageResult(30, 20, false, false, 10)
  {
  }

  /**
   * 5 raw damage against 10 defense is blocked: the result deals 0, below
   * MinimumDamage, so the floor of 1 applies to unblocked hits only.
   */
  lemma ExampleBlockedHit()
    ensures Calculate(StatBlock(100, 0, 10), AttackResult(5, "RockBody", true))
         == DamageResult(5, 0, false, true, 5)
    ensures Calculate(StatBlock(100, 0, 10), AttackResult(5, "RockBody", true)).finalDamage < MinimumDamage
  {
  }
}
