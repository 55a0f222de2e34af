/**
 * The unified attack area (Core/Combat/Attacks/Attack.cs): per-target hit cooldowns,
 * lifetime and destroy-on-hit.
 */
module Attacks {
  import opened CombatTypes
  import Numerics
  import AttackCalculator

  /** A Godot instance id. */
  type TargetId = nat

  /**
   * The value stored per target: seconds left before it may be hit again, or Never
   * for the float.MaxValue a one-shot attack stores.
   */
  datatype HitTimer = Remaining(seconds: real) | Never

  /** Whether a timer has run out; Never does not. */
  predicate Expired(timer: HitTimer)
  {
    timer.Remaining? && timer.seconds <= 0.0
  }

  /** One frame's worth of time off a timer; Never is unaffected. */
  function Elapse(timer: HitTimer, delta: real): HitTimer
  {
    match timer
    case Remaining(s) => Remaining(s - delta)
    case Never => Never
  }

  /** CanHit: a target is hittable if it has no entry, or, with a positive cooldown, its entry has run out. */
  predicate CanHitTarget(cooldowns: map<TargetId, HitTimer>, hitCooldown: real, target: TargetId)
  {
    if hitCooldown <= 0.0 then target !in cooldowns
    else target !in cooldowns || Expired(cooldowns[target])
  }

  /**
   * RegisterHit: the target gets a fresh timer (Never for a one-shot attack), which
   * blocks it at once; no other target is affected.
   */
  function WithHit(cooldowns: map<TargetId, HitTimer>, hitCooldown: real, target: TargetId): (r: map<TargetId, HitTimer>)
    ensures r.Keys == cooldowns.Keys + {target}
    ensures !CanHitTarget(r, hitCooldown, target)
    ensures hitCooldown > 0.0 ==> r[target] == Remaining(hitCooldown)
    ensures forall t :: t in cooldowns && t != target ==> r[t] == cooldowns[t]
    ensures forall t :: t != target ==> CanHitTarget(r, hitCooldown, t) == CanHitTarget(cooldowns, hitCooldown, t)
  {
    cooldowns[target := if hitCooldown > 0.0 then Remaining(hitCooldown) else Never]
  }

  /**
   * UpdateCooldowns: with a positive hit cooldown every timer loses delta and the
   * ones that ran out are dropped; otherwise nothing changes.
   */
  function Tick(cooldowns: map<TargetId, HitTimer>, hitCooldown: real, delta: real): map<TargetId, HitTimer>
  {
    if hitCooldown <= 0.0 then cooldowns
    else map t | t in cooldowns && !Expired(Elapse(cooldowns[t], delta)) :: Elapse(cooldowns[t], delta)
  }

  /** Tick over a run of frames, first to last. */
  function TickAll(cooldowns: map<TargetId, HitTimer>, hitCooldown: real, deltas: seq<real>): map<TargetId, HitTimer>
  {
    if |deltas| == 0 then cooldowns
    else TickAll(Tick(cooldowns, hitCooldown, deltas[0]), hitCooldown, deltas[1..])
  }

  /** A target with no entry keeps having none while frames pass. */
  lemma {:induction false} AbsentStaysAbsent(cooldowns: map<TargetId, HitTimer>, hitCooldown: real, deltas: seq<real>, target: TargetId)
    requires target !in cooldowns
    ensures target !in TickAll(cooldowns, hitCooldown, deltas)
  {
    if |deltas| > 0 {
      AbsentStaysAbsent(Tick(cooldowns, hitCooldown, deltas[0]), hitCooldown, deltas[1..], target);
    }
  }

  /**
   * With a positive hit cooldown and non-negative frame deltas, a target whose timer
   * holds s seconds becomes hittable again exactly when the frames add up to s.
   */
  lemma {:induction false} TimerRunsOutAfterItsSeconds(cooldowns: map<TargetId, HitTimer>, hitCooldown: real, deltas: seq<real>, target: TargetId)
    requires hitCooldown > 0.0 && Numerics.AllNonNegative(deltas)
    requires target in cooldowns && cooldowns[target].Remaining? && cooldowns[target].seconds > 0.0
    ensures CanHitTarget(TickAll(cooldowns, hitCooldown, deltas), hitCooldown, target)
        <==> Numerics.Sum(deltas) >= cooldowns[target].seconds
  {
    if |deltas| > 0 {
      var next := Tick(cooldowns, hitCooldown, deltas[0]);
      var left := cooldowns[target].seconds - deltas[0];
      Numerics.SumNonNegative(deltas[1..]);
      if left <= 0.0 {
        assert target !in next;
        AbsentStaysAbsent(next, hitCooldown, deltas[1..], target);
      } else {
        assert next[target] == Remaining(left);
        TimerRunsOutAfterItsSeconds(next, hitCooldown, deltas[1..], target);
      }
    }
  }

  /**
   * The per-target cooldown window: after a hit on a positive-cooldown attack the
   * target is blocked until the frames add up to HitCooldown, and free from then on.
   */
  lemma HitCooldownWindow(cooldowns: map<TargetId, HitTimer>, hitCooldown: real, deltas: seq<real>, target: TargetId)
    requires hitCooldown > 0.0 && Numerics.AllNonNegative(deltas)
    ensures CanHitTarget(TickAll(WithHit(cooldowns, hitCooldown, target), hitCooldown, deltas), hitCooldown, target)
        <==> Numerics.Sum(deltas) >= hitCooldown
  {
    TimerRunsOutAfterItsSeconds(WithHit(cooldowns, hitCooldown, target), hitCooldown, deltas, target);
  }

  /** A one-shot attack's ticks change nothing, so a target once hit stays blocked. */
  lemma {:induction false} OneShotStaysBlocked(cooldowns: map<TargetId, HitTimer>, hitCooldown: real, deltas: seq<real>, target: TargetId)
    requires hitCooldown <= 0.0
    ensures TickAll(cooldowns, hitCooldown, deltas) == cooldowns
    ensures !CanHitTarget(TickAll(WithHit(cooldowns, hitCooldown, target), hitCooldown, deltas), hitCooldown, target)
    decreases |deltas|
  {
    if |deltas| > 0 {
      OneShotStaysBlocked(cooldowns, hitCooldown, deltas[1..], target);
      OneShotStaysBlocked(WithHit(cooldowns, hitCooldown, target), hitCooldown, deltas[1..], target);
    }
  }

  /** Whether the lifetime timer reaches zero on one of the frames (only an active timer ticks). */
  predicate ExpiresWithin(timer: real, active: bool, deltas: seq<real>)
    decreases |deltas|
  {
    |deltas| > 0 && active && (timer - deltas[0] <= 0.0 || ExpiresWithin(timer - deltas[0], active, deltas[1..]))
  }

  /**
   * With non-negative frame deltas, a non-permanent attack with a lifetime is freed
   * on some frame of a non-empty run exactly when the run adds up to the time left.
   */
  lemma {:induction false} LifetimeEndsWhenSpent(timer: real, deltas: seq<real>)
    requires Numerics.AllNonNegative(deltas) && |deltas| > 0
    ensures ExpiresWithin(timer, true, deltas) <==> Numerics.Sum(deltas) >= timer
    decreases |deltas|
  {
    Numerics.SumNonNegative(deltas[1..]);
    if |deltas| > 1 {
      LifetimeEndsWhenSpent(timer - deltas[0], deltas[1..]);
    }
  }

  class Attack {
    const attackData: AttackData
    const hitCooldown: real
    const isPermanent: bool
    const lifetime: real
    const destroyOnHit: bool
    var attackResult: AttackResult
    var targetCooldowns: map<TargetId, HitTimer>
    var lifetimeTimer: real
    /** QueueFree was called. */
    var freed: bool

    /** The node as _Ready leaves it: full lifetime, base damage, no hits recorded. */
    constructor (attackData: AttackData, hitCooldown: real, isPermanent: bool, lifetime: real, destroyOnHit: bool)
      ensures this.attackData == attackData && this.hitCooldown == hitCooldown
      ensures this.isPermanent == isPermanent && this.lifetime == lifetime && this.destroyOnHit == destroyOnHit
      ensures lifetimeTimer == lifetime && attackResult == AttackCalculator.CalculateBase(attackData)
      ensures targetCooldowns == map[] && !freed
    {
      this.attackData := attackData;
      this.hitCooldown := hitCooldown;
      this.isPermanent := isPermanent;
      this.lifetime := lifetime;
      this.destroyOnHit := destroyOnHit;
      lifetimeTimer := lifetime;
      attackResult := AttackCalculator.CalculateBase(attackData);
      targetCooldowns := map[];
      freed := false;
    }

    /** The lifetime timer only runs for a non-permanent attack with a positive lifetime. */
    predicate LifetimeActive()
    {
      !isPermanent && lifetime > 0.0
    }

    function CanHit(target: TargetId): bool
      reads this
    {
      CanHitTarget(targetCooldowns, hitCooldown, target)
    }

    /** _Process without movement: lifetime countdown, then the cooldown tick. */
    method Process(delta: real)
      modifies this
      ensures lifetimeTimer == if LifetimeActive() then old(lifetimeTimer) - delta else old(lifetimeTimer)
      ensures freed == (old(freed) || (LifetimeActive() && lifetimeTimer <= 0.0))
      ensures targetCooldowns == Tick(old(targetCooldowns), hitCooldown, delta)
      ensures attackResult == old(attackResult)
    {
      if !isPermanent && lifetime > 0.0 {
        lifetimeTimer := lifetimeTimer - delta;
        if lifetimeTimer <= 0.0 {
          freed := true;
        }
      }
      UpdateCooldowns(delta);
    }

    /** UpdateStats: the attack's damage from the owner's stats and grimoire. */
    method UpdateStats(entity: StatBlock, grimoire: GrimoireStats)
      modifies this
      ensures attackResult == AttackCalculator.Calculate(entity, grimoire, attackData)
      ensures targetCooldowns == old(targetCooldowns) && lifetimeTimer == old(lifetimeTimer) && freed == old(freed)
    {
      attackResult := AttackCalculator.Calculate(entity, grimoire, attackData);
    }

    method RegisterHit(target: TargetId)
      modifies this
      ensures targetCooldowns == WithHit(old(targetCooldowns), hitCooldown, target)
      ensures attackResult == old(attackResult) && lifetimeTimer == old(lifetimeTimer) && freed == old(freed)
    {
      if hitCooldown > 0.0 {
        targetCooldowns := targetCooldowns[target := Remaining(hitCooldown)];
      } else {
        targetCooldowns := targetCooldowns[target := Never];
      }
    }

    /** Subtracts delta from every entry, collecting the expired keys, then removes them. */
    method UpdateCooldowns(delta: real)
      modifies this
      ensures targetCooldowns == Tick(old(targetCooldowns), hitCooldown, delta)
      ensures attackResult == old(attackResult) && lifetimeTimer == old(lifetimeTimer) && freed == old(freed)
    {
      if hitCooldown <= 0.0 {
        return;
      }
      var start := targetCooldowns;
      var expiredKeys: seq<TargetId> := [];
      var pending := targetCooldowns.Keys;
      while pending != {}
        invariant pending <= start.Keys
        invariant targetCooldowns.Keys == start.Keys
        invariant forall t :: t in pending ==> targetCooldowns[t] == start[t]
        invariant forall t :: t in start && t !in pending ==> targetCooldowns[t] == Elapse(start[t], delta)
        invariant forall t :: t in expiredKeys <==> t in start && t !in pending && Expired(targetCooldowns[t])
        invariant attackResult == old(attackResult) && lifetimeTimer == old(lifetimeTimer) && freed == old(freed)
        decreases pending
      {
        var key :| key in pending;
        targetCooldowns := targetCooldowns[key := Elapse(targetCooldowns[key], delta)];
        if Expired(targetCooldowns[key]) {
          expiredKeys := expiredKeys + [key];
        }
        pending := pending - {key};
      }
      var elapsed := targetCooldowns;
      var i := 0;
      while i < |expiredKeys|
        invariant 0 <= i <= |expiredKeys|
        invariant forall t :: t in targetCooldowns <==> t in elapsed && t !in expiredKeys[..i]
        invariant forall t :: t in targetCooldowns ==> targetCooldowns[t] == elapsed[t]
        invariant attackResult == old(attackResult) && lifetimeTimer == old(lifetimeTimer) && freed == old(freed)
      {
        targetCooldowns := targetCooldowns - {expiredKeys[i]};
        i := i + 1;
      }
      assert expiredKeys[..i] == expiredKeys;
    }

    /** OnAttackAreaEntered: touching a hurtbox frees a destroy-on-hit attack. */
    method OnAttackAreaEntered(areaIsHurtbox: bool)
      modifies this
      ensures freed == (old(freed) || (areaIsHurtbox && destroyOnHit))
      ensures targetCooldowns == old(targetCooldowns) && attackResult == old(attackResult)
      ensures lifetimeTimer == old(lifetimeTimer)
    {
      if !areaIsHurtbox {
        return;
      }
      if destroyOnHit {
        freed := true;
      }
    }
  }
}
