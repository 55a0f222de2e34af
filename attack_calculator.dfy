/** Attacker-side damage (Core/Combat/Calculations/AttackCalculator.cs). */
module AttackCalculator {
  import opened CombatTypes
  import Numerics

  /** The entity's attack plus the grimoire's bonus. */
  function TotalAttack(entity: StatBlock, grimoire: GrimoireStats): int
  {
    entity.attack + grimoire.bonusAttack
  }

  /** A total attack scaled by a coefficient, the fraction dropped toward zero as C#'s `(int)` cast does. */
  function ScaledDamage(totalAttack: int, coefficient: real): int
  {
    Numerics.TruncateTowardZero(totalAttack as real * coefficient)
  }

  /** Raw damage of an attack: the total attack scaled by the attack's coefficient. Never critical. */
  function Calculate(entity: StatBlock, grimoire: GrimoireStats, attack: AttackData): (r: AttackResult)
    ensures r.rawDamage == ScaledDamage(TotalAttack(entity, grimoire), attack.damageCoefficient)
    ensures r.attackName == attack.name && !r.isCritical
  {
    var totalAttack := entity.attack + grimoire.bonusAttack;
    AttackResult(ScaledDamage(totalAttack, attack.damageCoefficient), attack.name, false)
  }

  /**
   * The damage of an attack before any stats are injected: its coefficient alone,
   * which is what Calculate gives for a total attack of one.
   */
  function CalculateBase(attack: AttackData): (r: AttackResult)
    ensures r == Calculate(StatBlock(0, 1, 0), GrimoireStats(0), attack)
    ensures forall e: StatBlock, g: GrimoireStats {:trigger Calculate(e, g, attack)} ::
      TotalAttack(e, g) == 1 ==> r == Calculate(e, g, attack)
  {
    AttackResult(Numerics.TruncateTowardZero(attack.damageCoefficient), attack.name, false)
  }

  /** With a non-negative coefficient, more total attack never means less raw damage. */
  lemma RawDamageMonotone(e1: StatBlock, g1: GrimoireStats, e2: StatBlock, g2: GrimoireStats, attack: AttackData)
    requires attack.damageCoefficient >= 0.0
    requires TotalAttack(e1, g1) <= TotalAttack(e2, g2)
    ensures Calculate(e1, g1, attack).rawDamage <= Calculate(e2, g2, attack).rawDamage
  {
    ScaledDamageMonotone(TotalAttack(e1, g1), TotalAttack(e2, g2), attack.damageCoefficient);
  }

  lemma ScaledDamageMonotone(a1: int, a2: int, c: real)
    requires c >= 0.0 && a1 <= a2
    ensures ScaledDamage(a1, c) <= ScaledDamage(a2, c)
  {
    Numerics.ScaleMonotone(a1 as real, a2 as real, c);
    Numerics.TruncateTowardZeroMonotone(a1 as real * c, a2 as real * c);
  }

  /**
   * Nothing clamps the result: a negative total attack with a coefficient of at
   * least one gives negative raw damage.
   */
  lemma NegativeAttackIsNotClamped(entity: StatBlock, grimoire: GrimoireStats, attack: AttackData)
    requires TotalAttack(entity, grimoire) < 0 && attack.damageCoefficient >= 1.0
    ensures Calculate(entity, grimoire, attack).rawDamage < 0
  {
    var t := TotalAttack(entity, grimoire) as real;
    Numerics.ScaleMonotone(1.0, attack.damageCoefficient, -t);
    assert t * attack.damageCoefficient <= t;
  }

  /** A coefficient of 1.5 on 7 attack gives 10 (10.5 truncated). */
  lemma ExampleFireball()
    ensures Calculate(StatBlock(100, 5, 0), GrimoireStats(2), AttackData("Fireball", 1.5, 0.0, 0.0, true)).rawDamage == 10
  {
  }
}
