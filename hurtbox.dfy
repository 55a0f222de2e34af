/**
 * The receiving side of a hit (Core/Components/Hurtbox/HurtboxComponent.cs): the
 * attack's per-target gate decides, the hit is registered and AttackReceived carries
 * the attack's result.
 */
module Hurtbox {
  import opened CombatTypes
  import opened Attacks

  class HurtboxComponent {
    /** GetInstanceId() of this hurtbox. */
    const instanceId: TargetId
    /** AttackReceived emissions, in order. */
    var received: seq<AttackResult>

    constructor (instanceId: TargetId)
      ensures this.instanceId == instanceId && received == []
    {
      this.instanceId := instanceId;
      received := [];
    }

    /** ReceiveAttack: a hit the attack still allows is registered on it and forwarded. */
    method ReceiveAttack(attack: Attack)
      modifies this, attack
      ensures old(attack.CanHit(instanceId)) ==>
        attack.targetCooldowns == WithHit(old(attack.targetCooldowns), attack.hitCooldown, instanceId) &&
        received == old(received) + [attack.attackResult]
      ensures !old(attack.CanHit(instanceId)) ==>
        attack.targetCooldowns == old(attack.targetCooldowns) && received == old(received)
      ensures attack.attackResult == old(attack.attackResult) && attack.freed == old(attack.freed)
      ensures attack.lifetimeTimer == old(attack.lifetimeTimer)
    {
      var targetId := instanceId;
      if !attack.CanHit(targetId) {
        return;
      }
      attack.RegisterHit(targetId);
      received := received + [attack.attackResult];
    }

    /**
     * OnHurtboxAreaEntered: the same gate for an area that enters the hurtbox; an
     * area that is not an attack (null here) is ignored.
     */
    method OnHurtboxAreaEntered(area: Attack?)
      modifies this, area
      ensures area == null ==> received == old(received)
      ensures area != null && old(area.CanHit(instanceId)) ==>
        area.targetCooldowns == WithHit(old(area.targetCooldowns), area.hitCooldown, instanceId) &&
        received == old(received) + [area.attackResult]
      ensures area != null && !old(area.CanHit(instanceId)) ==>
        area.targetCooldowns == old(area.targetCooldowns) && received == old(received)
      ensures area != null ==> area.attackResult == old(area.attackResult) && area.freed == old(area.freed)
    {
      if area == null {
        return;
      }
      var targetId := instanceId;
      if !area.CanHit(targetId) {
        return;
      }
      area.RegisterHit(targetId);
      received := received + [area.attackResult];
    }
  }

  /** What one attack goes through: frames passing, and contacts with hurtboxes. */
  datatype Contact = Frame(delta: real) | Touch(target: TargetId)

  /** How many AttackReceived a given hurtbox emits for one attack over a run of contacts. */
  function Deliveries(cooldowns: map<TargetId, HitTimer>, hitCooldown: real, run: seq<Contact>, hurtbox: TargetId): nat
    decreases |run|
  {
    if |run| == 0 then 0
    else match run[0]
      case Frame(d) => Deliveries(Tick(cooldowns, hitCooldown, d), hitCooldown, run[1..], hurtbox)
      case Touch(t) =>
        if CanHitTarget(cooldowns, hitCooldown, t) then
          (if t == hurtbox then 1 else 0) + Deliveries(WithHit(cooldowns, hitCooldown, t), hitCooldown, run[1..], hurtbox)
        else Deliveries(cooldowns, hitCooldown, run[1..], hurtbox)
  }

  /**
   * A one-shot attack (HitCooldown <= 0) damages each hurtbox at most once, however
   * the frames and contacts interleave; a hurtbox it already hit never again.
   */
  lemma {:induction false} OneShotHitsEachHurtboxOnce(cooldowns: map<TargetId, HitTimer>, hitCooldown: real, run: seq<Contact>, hurtbox: TargetId)
    requires hitCooldown <= 0.0
    ensures Deliveries(cooldowns, hitCooldown, run, hurtbox) <= (if hurtbox in cooldowns then 0 else 1)
    decreases |run|
  {
    if |run| > 0 {
      match run[0]
      case Frame(d) =>
        OneShotHitsEachHurtboxOnce(Tick(cooldowns, hitCooldown, d), hitCooldown, run[1..], hurtbox);
      case Touch(t) =>
        if CanHitTarget(cooldowns, hitCooldown, t) {
          OneShotHitsEachHurtboxOnce(WithHit(cooldowns, hitCooldown, t), hitCooldown, run[1..], hurtbox);
        } else {
          OneShotHitsEachHurtboxOnce(cooldowns, hitCooldown, run[1..], hurtbox);
        }
    }
  }
}
