/**
 * One attack's lifecycle (Core/Combat/Components/AttackSlot.cs): cooldown, cast timer
 * and the spawner it drives. The spawner's own behaviour is outside this file, so the
 * slot records the calls it makes on it and is told whether the spawner is complete.
 */
module AttackSlot {
  import opened Wrappers
  import opened CombatTypes
  import opened Vectors
  import Numerics

  /** A Godot node, by identity. */
  type NodeId = nat

  /** Calls the slot makes on its spawner, in order. */
  datatype SpawnerCall =
    | SpawnerReset
    | SpawnerActivate(direction: Vec2, position: Vec2, stats: Option<EntityStats>, data: AttackData, owner: NodeId)
    | SpawnerProcess(delta: real)

  class AttackSlot {
    /** The exported AttackData; None stands for an unassigned one. */
    const attackData: Option<AttackData>
    /** Whether a Spawner is assigned. */
    const hasSpawner: bool
    var cooldownRemaining: real
    var castElapsed: real
    var isActive: bool
    var castCompleted: bool
    var spawnerCalls: seq<SpawnerCall>

    /** Only an activation makes a slot active, and activation needs both a spawner and data. */
    ghost predicate Valid()
      reads this
    {
      isActive ==> hasSpawner && attackData.Some?
    }

    constructor (attackData: Option<AttackData>, hasSpawner: bool)
      ensures Valid()
      ensures this.attackData == attackData && this.hasSpawner == hasSpawner
      ensures cooldownRemaining == 0.0 && castElapsed == 0.0 && !isActive && !castCompleted
      ensures spawnerCalls == []
    {
      this.attackData := attackData;
      this.hasSpawner := hasSpawner;
      cooldownRemaining := 0.0;
      castElapsed := 0.0;
      isActive := false;
      castCompleted := false;
      spawnerCalls := [];
    }

    function Cooldown(): real
    {
      if attackData.Some? then attackData.value.cooldownDuration else 0.0
    }

    function CastDuration(): real
    {
      if attackData.Some? then attackData.value.castDuration else 0.0
    }

    function AllowMovementDuringCast(): bool
    {
      if attackData.Some? then attackData.value.allowMovementDuringCast else true
    }

    predicate IsInstantCast()
    {
      CastDuration() <= 0.0
    }

    predicate IsReady()
      reads this
    {
      cooldownRemaining <= 0.0
    }

    predicate IsCastComplete()
      reads this
    {
      castCompleted
    }

    predicate IsExecutionComplete()
      reads this
    {
      !isActive
    }

    /**
     * GetCooldownProgress: a fraction in [0, 1] that is 0 exactly when the slot is
     * ready, 1 from the full cooldown up, and 0 for a slot without cooldown.
     */
    function GetCooldownProgress(): (p: real)
      reads this
      ensures 0.0 <= p <= 1.0
      ensures Cooldown() <= 0.0 ==> p == 0.0
      ensures Cooldown() > 0.0 ==> (p == 0.0 <==> IsReady())
      ensures Cooldown() > 0.0 ==> (p == 1.0 <==> cooldownRemaining >= Cooldown())
    {
      if Cooldown() <= 0.0 then 0.0
      else Numerics.Clamp(cooldownRemaining / Cooldown(), 0.0, 1.0)
    }

    /**
     * Activate: without a spawner or data nothing happens; otherwise the cooldown and
     * the cast restart (an instant cast is complete at once) and the spawner is reset
     * and activated. Readiness is not checked here.
     */
    method Activate(direction: Vec2, position: Vec2, stats: Option<EntityStats>, owner: NodeId)
      requires Valid()
      modifies this
      ensures Valid()
      ensures !hasSpawner || attackData.None? ==> unchanged(this)
      ensures hasSpawner && attackData.Some? ==>
        cooldownRemaining == Cooldown() && castElapsed == 0.0 && isActive &&
        castCompleted == IsInstantCast() &&
        spawnerCalls == old(spawnerCalls) + [SpawnerReset, SpawnerActivate(direction, position, stats, attackData.value, owner)]
    {
      if !hasSpawner {
        return;
      }
      if attackData.None? {
        return;
      }
      cooldownRemaining := Cooldown();
      castElapsed := 0.0;
      isActive := true;
      castCompleted := IsInstantCast();
      spawnerCalls := spawnerCalls + [SpawnerReset, SpawnerActivate(direction, position, stats, attackData.value, owner)];
    }

    /**
     * Process: the cooldown counts down to zero whether or not the slot is active;
     * an active slot also advances its cast, ticks its spawner and goes inactive once
     * the spawner reports completion. The cast flag, once set, stays set.
     */
    method Process(delta: real, spawnerCompleteAfterProcess: bool)
      requires Valid()
      modifies this
      ensures Valid()
      ensures cooldownRemaining == if old(cooldownRemaining) > 0.0 then Numerics.MaxReal(0.0, old(cooldownRemaining) - delta) else old(cooldownRemaining)
      ensures !old(isActive) ==>
        !isActive && castElapsed == old(castElapsed) && castCompleted == old(castCompleted) && spawnerCalls == old(spawnerCalls)
      ensures old(isActive) ==>
        castElapsed == old(castElapsed) + delta &&
        castCompleted == (old(castCompleted) || castElapsed >= CastDuration()) &&
        spawnerCalls == old(spawnerCalls) + [SpawnerProcess(delta)] &&
        isActive == !spawnerCompleteAfterProcess
    {
      if cooldownRemaining > 0.0 {
        cooldownRemaining := Numerics.MaxReal(0.0, cooldownRemaining - delta);
      }
      if !isActive {
        return;
      }
      castElapsed := castElapsed + delta;
      if !castCompleted && castElapsed >= CastDuration() {
        castCompleted := true;
      }
      spawnerCalls := spawnerCalls + [SpawnerProcess(delta)];
      if spawnerCompleteAfterProcess {
        isActive := false;
      }
    }

    /** Reset: back to idle without touching the cooldown. */
    method Reset()
      modifies this
      ensures Valid()
      ensures !isActive && !castCompleted && castElapsed == 0.0
      ensures cooldownRemaining == old(cooldownRemaining) && spawnerCalls == old(spawnerCalls)
    {
      isActive := false;
      castCompleted := false;
      castElapsed := 0.0;
    }
  }

  /** Without AttackData a slot is an instant, movable, cooldown-free attack. */
  lemma DefaultsWithoutData(slot: AttackSlot)
    requires slot.attackData.None?
    ensures slot.Cooldown() == 0.0 && slot.IsInstantCast() && slot.AllowMovementDuringCast()
    ensures slot.GetCooldownProgress() == 0.0
  {
  }

  /**
   * A slot's execution can end before its cast does: a spawner that finishes on the
   * first tick of a one-second cast leaves the slot inactive with the cast incomplete.
   */
  method ExecutionCanEndBeforeCast() returns (executionComplete: bool, castComplete: bool)
    ensures executionComplete && !castComplete
  {
    var slot := new AttackSlot(Some(AttackData("Beam", 1.0, 2.0, 1.0, false)), true);
    slot.Activate(Zero, Zero, None, 0);
    slot.Process(0.1, true);
    executionComplete := slot.IsExecutionComplete();
    castComplete := slot.IsCastComplete();
  }

  /** Activate does not check readiness: a slot still cooling down is activated again. */
  method ActivationIgnoresCooldown() returns (readyBefore: bool, calls: seq<SpawnerCall>)
    ensures !readyBefore
    ensures var bolt := AttackData("Bolt", 1.0, 2.0, 0.0, true);
      calls == [SpawnerReset, SpawnerActivate(Zero, Zero, None, bolt, 0), SpawnerReset, SpawnerActivate(Zero, Zero, None, bolt, 0)]
  {
    var slot := new AttackSlot(Some(AttackData("Bolt", 1.0, 2.0, 0.0, true)), true);
    slot.Activate(Zero, Zero, None, 0);
    readyBefore := slot.IsReady();
    slot.Activate(Zero, Zero, None, 0);
    calls := slot.spawnerCalls;
  }
}
