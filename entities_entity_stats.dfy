/**
 * The entity health holder with external multipliers
 * (Core/Entities/Components/EntityStatsComponent.cs). The final damage of a hit comes
 * from DamageCalculator.CalculateFinalDamage, which is not part of this model: it is
 * a parameter.
 */
module EntitiesEntityStats {
  import opened Wrappers
  import opened CombatTypes
  import Numerics

  datatype StatsSignal = EntityDied | HealthChanged(newHealth: int) | StatsUpdated

  /** Health after one hit, and the signals the hit emits. */
  datatype Hit = Hit(health: int, emitted: seq<StatsSignal>)

  /**
   * TakeDamage: health drops by the final damage, floored at zero; HealthChanged
   * carries the new value, and EntityDied follows whenever health is then at zero.
   */
  function TakeHit(health: int, finalDamage: int): (r: Hit)
    ensures r.health >= 0
    ensures r.health == 0 || r.health == health - finalDamage
    ensures health - finalDamage >= 0 ==> r.health == health - finalDamage
    ensures |r.emitted| >= 1 && r.emitted[0] == HealthChanged(r.health)
    ensures r.emitted == [HealthChanged(r.health)] + (if r.health == 0 then [EntityDied] else [])
  {
    var h := Numerics.Max(0, health - finalDamage);
    Hit(h, [HealthChanged(h)] + if h <= 0 then [EntityDied] else [])
  }

  /** Total of a run of integer damages. */
  function Total(damages: seq<int>): int
  {
    if |damages| == 0 then 0 else damages[0] + Total(damages[1..])
  }

  /** Health after a run of hits, first to last. */
  function HealthAfter(health: int, damages: seq<int>): int
    decreases |damages|
  {
    if |damages| == 0 then health else HealthAfter(TakeHit(health, damages[0]).health, damages[1..])
  }

  /**
   * With non-negative damages, a run of hits on non-negative health loses exactly the
   * total, floored once at zero: the floor never gives back health a later hit would take.
   */
  lemma {:induction false} HitsAddUp(health: int, damages: seq<int>)
    requires health >= 0
    requires forall i :: 0 <= i < |damages| ==> damages[i] >= 0
    ensures HealthAfter(health, damages) == Numerics.Max(0, health - Total(damages))
    decreases |damages|
  {
    if |damages| > 0 {
      HitsAddUp(TakeHit(health, damages[0]).health, damages[1..]);
      TotalNonNegative(damages[1..]);
    }
  }

  lemma {:induction false} TotalNonNegative(damages: seq<int>)
    requires forall i :: 0 <= i < |damages| ==> damages[i] >= 0
    ensures Total(damages) >= 0
    decreases |damages|
  {
    if |damages| > 0 {
      TotalNonNegative(damages[1..]);
    }
  }

  /** A hit taken at zero health emits EntityDied again. */
  lemma DiesAgainAtZero(finalDamage: int)
    requires finalDamage >= 0
    ensures TakeHit(0, finalDamage).emitted == [HealthChanged(0), EntityDied]
  {
  }

  /** MaxHealth: the vitality scaled by the health multiplier, rounded to the nearest integer. */
  function ScaledMaxHealth(vitality: int, healthMultiplier: real): (n: int)
    ensures -0.5 <= vitality as real * healthMultiplier - n as real <= 0.5
    ensures healthMultiplier == 1.0 ==> n == vitality
  {
    Numerics.RoundHalfToEven(vitality as real * healthMultiplier)
  }

  /** RecalculateStats: health above the new maximum is cut to it, and never raised. */
  function Recalculated(health: int, maxHealth: int): (r: int)
    ensures r <= health && r <= maxHealth
    ensures health <= maxHealth ==> r == health
    ensures health > maxHealth ==> r == maxHealth
  {
    if health > maxHealth then maxHealth else health
  }

  class EntityStatsComponent {
    /** The EntityStats export; None when it is not set. */
    const entityStats: Option<EntityStats>
    var currentHealth: int
    var healthMultiplier: real
    var damageMultiplier: real
    var signals: seq<StatsSignal>

    constructor (entityStats: Option<EntityStats>)
      ensures this.entityStats == entityStats && currentHealth == 0
      ensures healthMultiplier == 1.0 && damageMultiplier == 1.0 && signals == []
    {
      this.entityStats := entityStats;
      currentHealth := 0;
      healthMultiplier := 1.0;
      damageMultiplier := 1.0;
      signals := [];
    }

    function MaxHealth(): int
      requires entityStats.Some?
      reads this
    {
      ScaledMaxHealth(entityStats.value.vitalityStat, healthMultiplier)
    }

    /** AttackPower: the attack stat scaled by the damage multiplier, rounded. */
    function AttackPower(): (n: int)
      requires entityStats.Some?
      reads this
      ensures -0.5 <= entityStats.value.attackStat as real * damageMultiplier - n as real <= 0.5
      ensures damageMultiplier == 1.0 ==> n == entityStats.value.attackStat
    {
      Numerics.RoundHalfToEven(entityStats.value.attackStat as real * damageMultiplier)
    }

    /** _Ready: throws without stats; otherwise health starts at MaxHealth. */
    method Ready() returns (thrown: bool)
      modifies this
      ensures thrown <==> entityStats.None?
      ensures thrown ==> currentHealth == old(currentHealth)
      ensures !thrown ==> currentHealth == MaxHealth()
      ensures healthMultiplier == old(healthMultiplier) && damageMultiplier == old(damageMultiplier)
      ensures signals == old(signals)
    {
      if entityStats.None? {
        return true;
      }
      currentHealth := MaxHealth();
      return false;
    }

    /** The coordinator's multiplier setters. */
    method SetMultipliers(health: real, damage: real)
      modifies this
      ensures healthMultiplier == health && damageMultiplier == damage
      ensures currentHealth == old(currentHealth) && signals == old(signals)
    {
      healthMultiplier := health;
      damageMultiplier := damage;
    }

    method TakeDamage(damage: DamageResult)
      modifies this
      ensures var hit := TakeHit(old(currentHealth), damage.finalDamage);
        currentHealth == hit.health && signals == old(signals) + hit.emitted
      ensures healthMultiplier == old(healthMultiplier) && damageMultiplier == old(damageMultiplier)
    {
      currentHealth := Numerics.Max(0, currentHealth - damage.finalDamage);
      signals := signals + [HealthChanged(currentHealth)];
      if currentHealth <= 0 {
        signals := signals + [EntityDied];
      }
    }

    method RecalculateStats()
      requires entityStats.Some?
      modifies this
      ensures currentHealth == Recalculated(old(currentHealth), MaxHealth())
      ensures signals == old(signals) + [StatsUpdated]
      ensures healthMultiplier == old(healthMultiplier) && damageMultiplier == old(damageMultiplier)
    {
      var newMax := MaxHealth();
      if currentHealth > newMax {
        currentHealth := newMax;
      }
      signals := signals + [StatsUpdated];
    }

    method ResetStats()
      requires entityStats.Some?
      modifies this
      ensures currentHealth == MaxHealth()
      ensures signals == old(signals)
      ensures healthMultiplier == old(healthMultiplier) && damageMultiplier == old(damageMultiplier)
    {
      currentHealth := MaxHealth();
    }
  }

  /**
   * Raising the health multiplier does not heal: after 100 vitality at 1.0 takes 30
   * damage, a 1.2 multiplier recalculates MaxHealth to 120 and leaves health at 70.
   */
  method RaisedMultiplierDoesNotHeal() returns (health: int, maxHealth: int)
    ensures health == 70 && maxHealth == 120
  {
    var stats := new EntityStatsComponent(Some(EntityStats(100, 5, 3)));
    var thrown := stats.Ready();
    stats.TakeDamage(DamageResult(30, 30, false, false, 0));
    stats.SetMultipliers(1.2, 1.0);
    stats.RecalculateStats();
    health := stats.currentHealth;
    maxHealth := stats.MaxHealth();
  }
}
