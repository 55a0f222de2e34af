/** Wiring of an enemy's components (Scenes/Enemies/ComponentManager.cs). */
module EnemyComponentManager {
  import opened CombatTypes
  import DamageCalculator
  import opened StatsComponent
  import Hurtbox

  /** The grimoire, as far as this manager uses it: it is handed the entity's stats. */
  class Grimoire {
    var statsReceived: seq<StatBlock>

    constructor ()
      ensures statsReceived == []
    {
      statsReceived := [];
    }

    method UpdateEntityStats(stats: StatBlock)
      modifies this
      ensures statsReceived == old(statsReceived) + [stats]
    {
      statsReceived := statsReceived + [stats];
    }
  }

  /** How _Ready ends: normally, or with the exception for a missing component. */
  datatype ReadyOutcome = SetupComplete | MissingStatsComponent | MissingHurtboxComponent

  class ComponentManager {
    const statsComponent: StatsComponent?
    const hurtboxComponent: Hurtbox.HurtboxComponent?
    const grimoire: Grimoire?
    var listeningToStats: bool
    var listeningToHurtbox: bool

    constructor (statsComponent: StatsComponent?, hurtboxComponent: Hurtbox.HurtboxComponent?, grimoire: Grimoire?)
      ensures this.statsComponent == statsComponent && this.hurtboxComponent == hurtboxComponent
      ensures this.grimoire == grimoire && !listeningToStats && !listeningToHurtbox
    {
      this.statsComponent := statsComponent;
      this.hurtboxComponent := hurtboxComponent;
      this.grimoire := grimoire;
      listeningToStats := false;
      listeningToHurtbox := false;
    }

    /**
     * _Ready: stats first, then the hurtbox, then the grimoire; a missing stats or
     * hurtbox component throws and stops the setup where it is.
     */
    method Ready() returns (outcome: ReadyOutcome)
      modifies this, grimoire
      ensures statsComponent == null ==>
        outcome == MissingStatsComponent && listeningToStats == old(listeningToStats) &&
        listeningToHurtbox == old(listeningToHurtbox)
      ensures statsComponent != null && hurtboxComponent == null ==>
        outcome == MissingHurtboxComponent && listeningToStats && listeningToHurtbox == old(listeningToHurtbox)
      ensures statsComponent != null && hurtboxComponent != null ==>
        outcome == SetupComplete && listeningToStats && listeningToHurtbox
      ensures grimoire != null ==>
        grimoire.statsReceived == old(grimoire.statsReceived) +
          (if outcome == SetupComplete then [statsComponent.entityStats] else [])
    {
      if statsComponent == null {
        return MissingStatsComponent;
      }
      listeningToStats := true;
      if hurtboxComponent == null {
        return MissingHurtboxComponent;
      }
      listeningToHurtbox := true;
      if grimoire != null {
        grimoire.UpdateEntityStats(statsComponent.entityStats);
      }
      outcome := SetupComplete;
    }

    /** OnAttackReceived: the defender-side damage of the hit, applied to the stats component. */
    method OnAttackReceived(attackResult: AttackResult)
      requires statsComponent != null
      modifies statsComponent
      ensures statsComponent.Snapshot() ==
        AfterHit(old(statsComponent.Snapshot()), statsComponent.invincibilityDuration,
                 DamageCalculator.Calculate(old(statsComponent.entityStats), attackResult).finalDamage)
      ensures statsComponent.entityStats == old(statsComponent.entityStats)
    {
      var damageResult := DamageCalculator.Calculate(statsComponent.entityStats, attackResult);
      statsComponent.TakeDamage(damageResult);
    }

    /** OnStatsUpdated: the grimoire, if any, gets the new stats. */
    method OnStatsUpdated()
      requires statsComponent != null
      modifies grimoire
      ensures grimoire != null ==> grimoire.statsReceived == old(grimoire.statsReceived) + [statsComponent.entityStats]
    {
      if grimoire != null {
        grimoire.UpdateEntityStats(statsComponent.entityStats);
      }
    }
  }

  /**
   * A hit the defense blocks takes no health from a living enemy, yet it still opens
   * an invincibility window when the duration is positive.
   */
  lemma BlockedHitStillGrantsInvincibility(s: HealthState, invincibilityDuration: real, defender: StatBlock, attackResult: AttackResult)
    requires !s.invincible && s.health >= 0 && invincibilityDuration > 0.0
    requires attackResult.rawDamage <= defender.defense
    ensures AfterHit(s, invincibilityDuration, DamageCalculator.Calculate(defender, attackResult).finalDamage).health == s.health
    ensures AfterHit(s, invincibilityDuration, DamageCalculator.Calculate(defender, attackResult).finalDamage).invincible
  {
  }
}
