/** Health, death and invincibility frames (Core/Components/Stats/StatsComponent.cs). */
module StatsComponent {
  import opened CombatTypes
  import Numerics

  datatype StatsSignal = Died | HealthChanged | InvincibilityEnded | InvincibilityStarted | StatsUpdated

  /** The part of the component a hit changes: health, the invincibility flag, signals and timer starts. */
  datatype HealthState = HealthState(
    health: int,
    invincible: bool,
    signals: seq<StatsSignal>,
    timerStarts: seq<real>)

  /**
   * TakeDamage: ignored while invincible; otherwise health drops by the final damage,
   * floored at zero, HealthChanged is emitted, Died too when health is at or below
   * zero, and a positive invincibility duration starts a new window.
   */
  function AfterHit(s: HealthState, invincibilityDuration: real, finalDamage: int): (r: HealthState)
    ensures s.invincible ==> r == s
    ensures !s.invincible ==> r.health >= 0 && r.health == Numerics.Max(0, s.health - finalDamage)
    ensures !s.invincible ==> (r.invincible <==> invincibilityDuration > 0.0)
    ensures !s.invincible ==> |r.signals| > |s.signals| && r.signals[|s.signals|] == HealthChanged
    ensures !s.invincible ==> (Died in r.signals[|s.signals|..] <==> r.health == 0)
  {
    if s.invincible then s
    else
      var health := Numerics.Max(0, s.health - finalDamage);
      var died: seq<StatsSignal> := if health <= 0 then [Died] else [];
      var started: seq<StatsSignal> := if invincibilityDuration > 0.0 then [InvincibilityStarted] else [];
      var emitted := [HealthChanged] + died + started;
      assert (s.signals + emitted)[|s.signals|..] == emitted;
      HealthState(
        health,
        invincibilityDuration > 0.0,
        s.signals + emitted,
        s.timerStarts + if invincibilityDuration > 0.0 then [invincibilityDuration] else [])
  }

  /** With a positive duration, a second hit inside the window changes nothing. */
  lemma SecondHitInWindowIgnored(s: HealthState, invincibilityDuration: real, first: int, second: int)
    requires invincibilityDuration > 0.0
    ensures AfterHit(AfterHit(s, invincibilityDuration, first), invincibilityDuration, second)
         == AfterHit(s, invincibilityDuration, first)
  {
  }

  /** A non-negative hit on non-negative health never raises it. */
  lemma HitNeverHeals(s: HealthState, invincibilityDuration: real, finalDamage: int)
    requires s.health >= 0 && finalDamage >= 0
    ensures AfterHit(s, invincibilityDuration, finalDamage).health <= s.health
  {
  }

  /** Died is emitted again by every further hit taken at zero health, not only the first. */
  lemma DiesAgainAtZero(s: HealthState, invincibilityDuration: real, finalDamage: int)
    requires !s.invincible && s.health <= 0 && finalDamage >= 0
    ensures AfterHit(s, invincibilityDuration, finalDamage).signals[|s.signals| + 1] == Died
  {
  }

  class StatsComponent {
    var currentHealthPoints: int
    const invincibilityDuration: real
    var entityStats: StatBlock
    var maxHealthPoints: int
    var invincible: bool
    /** InvincibilityTimer.Start calls, with the time each was started for. */
    var timerStarts: seq<real>
    var signals: seq<StatsSignal>

    /** The component as _Ready leaves it: maximum health from the stats, not invincible. */
    constructor (currentHealthPoints: int, invincibilityDuration: real, entityStats: StatBlock)
      ensures this.currentHealthPoints == currentHealthPoints && this.invincibilityDuration == invincibilityDuration
      ensures this.entityStats == entityStats && maxHealthPoints == entityStats.maxHealth
      ensures !invincible && timerStarts == [] && signals == []
    {
      this.currentHealthPoints := currentHealthPoints;
      this.invincibilityDuration := invincibilityDuration;
      this.entityStats := entityStats;
      maxHealthPoints := entityStats.maxHealth;
      invincible := false;
      timerStarts := [];
      signals := [];
    }

    function Snapshot(): HealthState
      reads this
    {
      HealthState(currentHealthPoints, invincible, signals, timerStarts)
    }

    /** UpdateBaseStats: new stats and maximum, StatsUpdated; current health is not clamped. */
    method UpdateBaseStats(newStats: StatBlock)
      modifies this
      ensures entityStats == newStats && maxHealthPoints == newStats.maxHealth
      ensures signals == old(signals) + [StatsUpdated]
      ensures currentHealthPoints == old(currentHealthPoints) && invincible == old(invincible)
      ensures timerStarts == old(timerStarts)
    {
      entityStats := newStats;
      maxHealthPoints := entityStats.maxHealth;
      signals := signals + [StatsUpdated];
    }

    method TakeDamage(damage: DamageResult)
      modifies this
      ensures Snapshot() == AfterHit(old(Snapshot()), invincibilityDuration, damage.finalDamage)
      ensures entityStats == old(entityStats) && maxHealthPoints == old(maxHealthPoints)
    {
      if invincible {
        return;
      }
      currentHealthPoints := Numerics.Max(0, currentHealthPoints - damage.finalDamage);
      signals := signals + [HealthChanged];
      if currentHealthPoints <= 0 {
        signals := signals + [Died];
      }
      if invincibilityDuration > 0.0 {
        StartInvincibility();
      }
    }

    method StartInvincibility()
      modifies this
      ensures invincible && timerStarts == old(timerStarts) + [invincibilityDuration]
      ensures signals == old(signals) + [InvincibilityStarted]
      ensures currentHealthPoints == old(currentHealthPoints)
      ensures entityStats == old(entityStats) && maxHealthPoints == old(maxHealthPoints)
    {
      invincible := true;
      timerStarts := timerStarts + [invincibilityDuration];
      signals := signals + [InvincibilityStarted];
    }

    /** The timer's timeout: InvincibilityEnded, then hits count again. */
    method OnInvincibilityEnded()
      modifies this
      ensures !invincible && signals == old(signals) + [InvincibilityEnded]
      ensures currentHealthPoints == old(currentHealthPoints) && timerStarts == old(timerStarts)
      ensures entityStats == old(entityStats) && maxHealthPoints == old(maxHealthPoints)
    {
      signals := signals + [InvincibilityEnded];
      invincible := false;
    }
  }
}
