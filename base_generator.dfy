/**
 * The attack generators' shared loop (BaseGenerator.cs): a spawn cooldown that
 * counts down while positive, and a spawn attempt whenever it is not.
 */
module BaseGenerator {
  import opened Wrappers
  import opened CombatTypes
  import opened Numerics

  /** The attack prefab: whether its root implements IAttack. */
  datatype Prefab = Prefab(path: string, isAttack: bool)

  /** The stats a spawned attack received before it was configured and added. */
  datatype PushedStats = PushedStats(entity: Option<EntityStats>, grimoire: Option<GrimoireStats>)

  /** One generated attack; `stats` is None when the instance is not an attack. */
  datatype Generated = Generated(path: string, stats: Option<PushedStats>)

  /** The outcome of one frame: the new timer and whether a spawn happened. */
  datatype Frame = Frame(timer: real, spawned: bool)

  /**
   * One _Process: the timer goes down only while positive; at or below zero a spawn
   * is attempted, which succeeds with a prefab and then restarts the cooldown.
   */
  function Step(timer: real, delta: real, spawnCooldown: real, hasPrefab: bool): (f: Frame)
    ensures timer > 0.0 && timer - delta > 0.0 ==> f == Frame(timer - delta, false)
    ensures (if timer > 0.0 then timer - delta else timer) <= 0.0 ==> f.spawned == hasPrefab
    ensures !f.spawned ==> f.timer == (if timer > 0.0 then timer - delta else timer)
    ensures f.spawned ==> f.timer == spawnCooldown
    ensures !hasPrefab ==> !f.spawned && f.timer == (if timer > 0.0 then timer - delta else timer)
  {
    var t := if timer > 0.0 then timer - delta else timer;
    if t <= 0.0 && hasPrefab then Frame(spawnCooldown, true) else Frame(t, false)
  }

  /** How many spawns a run of frames produces, at most one per frame. */
  function Spawns(timer: real, deltas: seq<real>, spawnCooldown: real, hasPrefab: bool): (n: nat)
    ensures n <= |deltas|
    decreases |deltas|
  {
    if |deltas| == 0 then 0
    else
      var f := Step(timer, deltas[0], spawnCooldown, hasPrefab);
      (if f.spawned then 1 else 0) + Spawns(f.timer, deltas[1..], spawnCooldown, hasPrefab)
  }

  /** Without a prefab nothing is ever spawned. */
  lemma {:induction false} NoPrefabNoSpawns(timer: real, deltas: seq<real>, spawnCooldown: real)
    ensures Spawns(timer, deltas, spawnCooldown, false) == 0
    decreases |deltas|
  {
    if |deltas| > 0 {
      NoPrefabNoSpawns(Step(timer, deltas[0], spawnCooldown, false).timer, deltas[1..], spawnCooldown);
    }
  }

  /** Without a prefab an expired timer is never restarted, so every later frame retries. */
  lemma {:induction false} NoPrefabTimerStaysExpired(timer: real, deltas: seq<real>, spawnCooldown: real)
    requires timer <= 0.0
    ensures forall i :: 0 <= i <= |deltas| ==> FinalTimer(timer, deltas[..i], spawnCooldown, false) == timer
    decreases |deltas|
  {
    if |deltas| > 0 {
      NoPrefabTimerStaysExpired(timer, deltas[1..], spawnCooldown);
      forall i | 0 < i <= |deltas|
        ensures FinalTimer(timer, deltas[..i], spawnCooldown, false) == timer
      {
        assert deltas[..i][1..] == deltas[1..][..i - 1];
      }
    }
  }

  /** The timer after a run of frames. */
  function FinalTimer(timer: real, deltas: seq<real>, spawnCooldown: real, hasPrefab: bool): real
    decreases |deltas|
  {
    if |deltas| == 0 then timer
    else FinalTimer(Step(timer, deltas[0], spawnCooldown, hasPrefab).timer, deltas[1..], spawnCooldown, hasPrefab)
  }

  /** A running cooldown holds back every spawn until at least its remaining time has passed. */
  lemma {:induction false} NoSpawnBeforeCooldown(timer: real, deltas: seq<real>, spawnCooldown: real, hasPrefab: bool)
    requires timer > 0.0 && AllNonNegative(deltas) && Sum(deltas) < timer
    ensures Spawns(timer, deltas, spawnCooldown, hasPrefab) == 0
    decreases |deltas|
  {
    if |deltas| > 0 {
      assert Sum(deltas) == deltas[0] + Sum(deltas[1..]);
      SumNonNegative(deltas[1..]);
      NoSpawnBeforeCooldown(timer - deltas[0], deltas[1..], spawnCooldown, hasPrefab);
    }
  }

  /**
   * The converse: with a prefab, frames that add up to at least the time left
   * produce a spawn, on the frame where the timer crosses zero at the latest.
   */
  lemma {:induction false} SpawnOnceCooldownRunsOut(timer: real, deltas: seq<real>, spawnCooldown: real)
    requires |deltas| > 0 && Sum(deltas) >= timer
    ensures Spawns(timer, deltas, spawnCooldown, true) >= 1
    decreases |deltas|
  {
    var f := Step(timer, deltas[0], spawnCooldown, true);
    if !f.spawned {
      SpawnOnceCooldownRunsOut(f.timer, deltas[1..], spawnCooldown);
    }
  }

  /** A fresh generator (timer 0) with a prefab spawns on its very first frame. */
  lemma FirstFrameSpawns(delta: real, spawnCooldown: real)
    ensures Step(0.0, delta, spawnCooldown, true) == Frame(spawnCooldown, true)
  {
  }

  class BaseGenerator {
    const spawnCooldown: real
    const attackPrefab: Option<Prefab>
    var entityStats: Option<EntityStats>
    var grimoireStats: Option<GrimoireStats>
    var cooldownTimer: real
    var generated: seq<Generated>

    /** The exported default: one second between spawns. */
    constructor (attackPrefab: Option<Prefab>)
      ensures spawnCooldown == 1.0 && this.attackPrefab == attackPrefab
      ensures entityStats.None? && grimoireStats.None? && cooldownTimer == 0.0 && generated == []
    {
      spawnCooldown := 1.0;
      this.attackPrefab := attackPrefab;
      entityStats := None;
      grimoireStats := None;
      cooldownTimer := 0.0;
      generated := [];
    }

    predicate CanSpawn()
      reads this
    {
      cooldownTimer <= 0.0
    }

    method Ready()
      modifies this
      ensures cooldownTimer == 0.0 && CanSpawn()
      ensures entityStats == old(entityStats) && grimoireStats == old(grimoireStats) && generated == old(generated)
    {
      cooldownTimer := 0.0;
    }

    method UpdateStats(entity: Option<EntityStats>, grimoire: Option<GrimoireStats>)
      modifies this
      ensures entityStats == entity && grimoireStats == grimoire
      ensures cooldownTimer == old(cooldownTimer) && generated == old(generated)
    {
      entityStats := entity;
      grimoireStats := grimoire;
    }

    /** What TrySpawn produces: an attack receives the stored stats before it is added. */
    function Instance(): Generated
      requires attackPrefab.Some?
      reads this
    {
      Generated(attackPrefab.value.path,
        if attackPrefab.value.isAttack then Some(PushedStats(entityStats, grimoireStats)) else None)
    }

    /** TrySpawn: nothing without a prefab; otherwise one instance and a full cooldown. */
    method TrySpawn()
      modifies this
      ensures attackPrefab.None? ==> cooldownTimer == old(cooldownTimer) && generated == old(generated)
      ensures attackPrefab.Some? ==> cooldownTimer == spawnCooldown && generated == old(generated) + [Instance()]
      ensures entityStats == old(entityStats) && grimoireStats == old(grimoireStats)
    {
      if attackPrefab.None? {
        return;
      }
      generated := generated + [Instance()];
      cooldownTimer := spawnCooldown;
    }

    /** _Process: one Step of the cooldown, spawning when that step does. */
    method Process(delta: real)
      modifies this
      ensures var f := Step(old(cooldownTimer), delta, spawnCooldown, attackPrefab.Some?);
        cooldownTimer == f.timer &&
        generated == old(generated) + (if f.spawned then [Instance()] else [])
      ensures entityStats == old(entityStats) && grimoireStats == old(grimoireStats)
    {
      if cooldownTimer > 0.0 {
        cooldownTimer := cooldownTimer - delta;
      }
      if CanSpawn() {
        TrySpawn();
      }
    }
  }
}
