/**
 * The IceShard spell (IceShard.cs): an attack node that fires BurstCount
 * sub-projectiles on a repeating timer and then frees itself.
 */
module IceShard {
  import opened Wrappers
  import opened CombatTypes
  import opened Vectors

  /** An AttackData resource as this spell sees it. */
  datatype ShotData = ShotData(name: string, damageCoefficient: real)

  /** The Execute call a sub-projectile that is an attack receives. */
  datatype SubExecute = SubExecute(direction: Direction, ownerStats: Option<EntityStats>, data: ShotData, damageMultiplier: real)

  /** One placed sub-projectile: where, facing which way, and the Execute it received if any. */
  datatype SubShot = SubShot(position: Vec2, facing: Direction, execute: Option<SubExecute>)

  class IceShard {
    const projectileScene: Option<string>
    const subProjectileData: Option<ShotData>
    /** Whether the projectile scene's root implements IAttack. */
    const projectileIsAttack: bool
    const burstCount: int
    const burstDelay: real
    var direction: Direction
    var ownerStats: Option<EntityStats>
    /** Stored by Execute and never read again. */
    var attackData: Option<ShotData>
    var damageMultiplier: real
    var projectilesFired: int
    var timerRunning: bool
    var freed: bool
    var shots: seq<SubShot>

    /** The exported defaults: three shards a tenth of a second apart. */
    constructor (projectileScene: Option<string>, subProjectileData: Option<ShotData>, projectileIsAttack: bool)
      ensures this.projectileScene == projectileScene && this.subProjectileData == subProjectileData
      ensures this.projectileIsAttack == projectileIsAttack
      ensures burstCount == 3 && burstDelay == 0.1
      ensures projectilesFired == 0 && !timerRunning && !freed && shots == []
    {
      this.projectileScene := projectileScene;
      this.subProjectileData := subProjectileData;
      this.projectileIsAttack := projectileIsAttack;
      burstCount := 3;
      burstDelay := 0.1;
      direction := Raw(Zero);
      ownerStats := None;
      attackData := None;
      damageMultiplier := 0.0;
      projectilesFired := 0;
      timerRunning := false;
      freed := false;
      shots := [];
    }

    /** Whether a spawn can succeed: scene and sub-projectile data set, and the attack container found. */
    predicate CanSpawn(containerFound: bool)
    {
      projectileScene.Some? && subProjectileData.Some? && containerFound
    }

    /**
     * The shard placed at `position`: it faces the stored direction and, when it is
     * an attack, is executed with the stored stats and multiplier but with
     * SubProjectileData rather than the stored parent data.
     */
    function ShotAt(position: Vec2): SubShot
      requires subProjectileData.Some?
      reads this
    {
      SubShot(position, direction,
        if projectileIsAttack then Some(SubExecute(direction, ownerStats, subProjectileData.value, damageMultiplier)) else None)
    }

    /**
     * SpawnSubProjectile: a missing scene, data or container frees the node and
     * counts nothing; otherwise one shard is placed and the count goes up by one.
     */
    method SpawnSubProjectile(position: Vec2, containerFound: bool)
      modifies this
      ensures !CanSpawn(containerFound) ==> freed && shots == old(shots) && projectilesFired == old(projectilesFired)
      ensures CanSpawn(containerFound) ==>
        freed == old(freed) && shots == old(shots) + [old(ShotAt(position))] && projectilesFired == old(projectilesFired) + 1
      ensures direction == old(direction) && ownerStats == old(ownerStats) && attackData == old(attackData)
      ensures damageMultiplier == old(damageMultiplier) && timerRunning == old(timerRunning)
    {
      if !CanSpawn(containerFound) {
        freed := true;
        return;
      }
      shots := shots + [ShotAt(position)];
      projectilesFired := projectilesFired + 1;
    }

    /**
     * Execute: stores the normalized direction, stats, data and multiplier and fires
     * the first shard at once; with BurstCount at most one the node frees itself,
     * otherwise the repeating timer starts (even when that first spawn failed).
     */
    method Execute(aim: Vec2, stats: Option<EntityStats>, data: Option<ShotData>, multiplier: real, position: Vec2, containerFound: bool)
      modifies this
      ensures direction == Normalize(Raw(aim)) && ownerStats == stats && attackData == data && damageMultiplier == multiplier
      ensures !CanSpawn(containerFound) ==> shots == old(shots) && projectilesFired == old(projectilesFired)
      ensures CanSpawn(containerFound) ==> shots == old(shots) + [ShotAt(position)] && projectilesFired == old(projectilesFired) + 1
      ensures burstCount <= 1 ==> freed && timerRunning == old(timerRunning)
      ensures burstCount > 1 ==> timerRunning && freed == (old(freed) || !CanSpawn(containerFound))
    {
      direction := Normalize(Raw(aim));
      ownerStats := stats;
      attackData := data;
      damageMultiplier := multiplier;
      SpawnSubProjectile(position, containerFound);
      if burstCount <= 1 {
        freed := true;
        return;
      }
      timerRunning := true;
    }

    /**
     * OnBurstTimerTimeout: one more shard; once BurstCount have been fired the timer
     * stops and the node frees itself. A freed node receives no further timeouts.
     */
    method OnBurstTimerTimeout(position: Vec2, containerFound: bool)
      requires timerRunning && !freed
      modifies this
      ensures !CanSpawn(containerFound) ==> shots == old(shots) && projectilesFired == old(projectilesFired)
      ensures CanSpawn(containerFound) ==> shots == old(shots) + [old(ShotAt(position))] && projectilesFired == old(projectilesFired) + 1
      ensures projectilesFired >= burstCount ==> !timerRunning && freed
      ensures projectilesFired < burstCount ==> timerRunning && freed == !CanSpawn(containerFound)
      ensures direction == old(direction) && ownerStats == old(ownerStats) && damageMultiplier == old(damageMultiplier)
    {
      SpawnSubProjectile(position, containerFound);
      if projectilesFired >= burstCount {
        timerRunning := false;
        freed := true;
      }
    }
  }

  /**
   * With the defaults, Execute and two timeouts fire three shards, all with the
   * sub-projectile data rather than the parent's, and the node ends freed with its
   * timer stopped.
   */
  method ThreeShardsThenFree() returns (fired: int, dataUsed: seq<ShotData>, freed: bool, timer: bool)
    ensures fired == 3 && !timer && freed
    ensures dataUsed == [ShotData("Shard", 0.5), ShotData("Shard", 0.5), ShotData("Shard", 0.5)]
  {
    var shard := new IceShard(Some("res://Scenes/Attacks/Projectiles/Projectile.tscn"), Some(ShotData("Shard", 0.5)), true);
    shard.Execute(Vec2(0.0, 2.0), None, Some(ShotData("IceShard", 2.0)), 1.0, Zero, true);
    shard.OnBurstTimerTimeout(Zero, true);
    shard.OnBurstTimerTimeout(Zero, true);
    fired := shard.projectilesFired;
    dataUsed := [shard.shots[0].execute.value.data, shard.shots[1].execute.value.data, shard.shots[2].execute.value.data];
    freed := shard.freed;
    timer := shard.timerRunning;
  }

  /** A missing container frees the node on the first shard without counting it. */
  method MissingContainerFreesWithoutCounting() returns (fired: int, freed: bool)
    ensures fired == 0 && freed
  {
    var shard := new IceShard(Some("res://Scenes/Attacks/Projectiles/Projectile.tscn"), Some(ShotData("Shard", 0.5)), true);
    shard.Execute(Vec2(1.0, 0.0), None, None, 1.0, Zero, false);
    fired := shard.projectilesFired;
    freed := shard.freed;
  }
}
