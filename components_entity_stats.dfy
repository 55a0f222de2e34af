/**
 * The older entity health holder (Core/Components/EntityStatsComponent.cs): health
 * starts at, and resets to, the vitality stat; a hit is taken exactly as the
 * multiplier-aware component takes it.
 */
module ComponentsEntityStats {
  import opened Wrappers
  import opened CombatTypes
  import opened EntitiesEntityStats

  class EntityStatsComponent {
    const entityStats: Option<EntityStats>
    var currentHealth: int
    var signals: seq<StatsSignal>

    constructor (entityStats: Option<EntityStats>)
      ensures this.entityStats == entityStats && currentHealth == 0 && signals == []
    {
      this.entityStats := entityStats;
      currentHealth := 0;
      signals := [];
    }

    /** _Ready: throws without stats; otherwise health starts at VitalityStat. */
    method Ready() returns (thrown: bool)
      modifies this
      ensures thrown <==> entityStats.None?
      ensures thrown ==> currentHealth == old(currentHealth)
      ensures !thrown ==> currentHealth == entityStats.value.vitalityStat
      ensures signals == old(signals)
    {
      if entityStats.None? {
        return true;
      }
      currentHealth := entityStats.value.vitalityStat;
      return false;
    }

    method TakeDamage(damage: DamageResult)
      modifies this
      ensures var hit := TakeHit(old(currentHealth), damage.finalDamage);
        currentHealth == hit.health && signals == old(signals) + hit.emitted
    {
      currentHealth := if currentHealth - damage.finalDamage > 0 then currentHealth - damage.finalDamage else 0;
      signals := signals + [HealthChanged(currentHealth)];
      if currentHealth <= 0 {
        signals := signals + [EntityDied];
      }
    }

    method ResetStats()
      requires entityStats.Some?
      modifies this
      ensures currentHealth == entityStats.value.vitalityStat && signals == old(signals)
    {
      currentHealth := entityStats.value.vitalityStat;
    }
  }

  /** Missing stats throw on _Ready; a 40-vitality entity dies from a 50-damage hit. */
  method SetupThenLethalHit() returns (missingThrows: bool, health: int, emitted: seq<StatsSignal>)
    ensures missingThrows && health == 0 && emitted == [HealthChanged(0), EntityDied]
  {
    var missing := new EntityStatsComponent(None);
    missingThrows := missing.Ready();
    var stats := new EntityStatsComponent(Some(EntityStats(40, 5, 3)));
    var thrown := stats.Ready();
    stats.TakeDamage(DamageResult(50, 50, false, false, 0));
    health := stats.currentHealth;
    emitted := stats.signals;
  }
}
