/** Count shots from one aim, DelayBetweenShots apart (BurstSpawner.cs). */
module BurstSpawner {
  import opened Wrappers
  import opened CombatTypes
  import opened Vectors
  import opened AttackSpawnerComponent

  class BurstSpawner {
    const config: SpawnerConfig
    const attackScene: Option<AttackScene>
    const count: int
    const delayBetweenShots: real
    var direction: Direction
    var position: Vec2
    var ownerStats: Option<EntityStats>
    var spawned: int
    var timeSinceLastSpawn: real
    var effects: seq<SpawnEffect>

    constructor (config: SpawnerConfig, attackScene: Option<AttackScene>, count: int, delayBetweenShots: real)
      ensures this.config == config && this.attackScene == attackScene
      ensures this.count == count && this.delayBetweenShots == delayBetweenShots
      ensures spawned == 0 && timeSinceLastSpawn == 0.0 && effects == []
      ensures direction == Raw(Zero) && position == Zero && ownerStats.None?
    {
      this.config := config;
      this.attackScene := attackScene;
      this.count := count;
      this.delayBetweenShots := delayBetweenShots;
      direction := Raw(Zero);
      position := Zero;
      ownerStats := None;
      spawned := 0;
      timeSinceLastSpawn := 0.0;
      effects := [];
    }

    /** The exported defaults: three shots, a quarter second apart. */
    constructor WithDefaults(config: SpawnerConfig, attackScene: Option<AttackScene>)
      ensures this.config == config && this.attackScene == attackScene
      ensures count == 3 && delayBetweenShots == 0.25
      ensures spawned == 0 && timeSinceLastSpawn == 0.0 && effects == []
    {
      this.config := config;
      this.attackScene := attackScene;
      count := 3;
      delayBetweenShots := 0.25;
      direction := Raw(Zero);
      position := Zero;
      ownerStats := None;
      spawned := 0;
      timeSinceLastSpawn := 0.0;
      effects := [];
    }

    predicate IsComplete()
      reads this
    {
      spawned >= count
    }

    /** The shot every spawn of the current burst uses. */
    function CurrentShot(): Shot
      reads this
    {
      Shot(direction, position, ownerStats, None)
    }

    /** Activate: stores the normalized aim, spawns the first shot at once and restarts the timer. */
    method Activate(aim: Vec2, at: Vec2, stats: Option<EntityStats>)
      modifies this
      ensures direction == Normalize(Raw(aim)) && position == at && ownerStats == stats
      ensures spawned == 1 && timeSinceLastSpawn == 0.0
      ensures effects == old(effects) + SpawnAttackInstance(attackScene, CurrentShot())
      ensures count <= 1 ==> IsComplete()
    {
      direction := Normalize(Raw(aim));
      position := at;
      ownerStats := stats;
      effects := effects + SpawnAttackInstance(attackScene, CurrentShot());
      spawned := 1;
      timeSinceLastSpawn := 0.0;
    }

    /**
     * Process: a finished burst ignores the frame; otherwise the frame's time is
     * added and every shot that has become due fires now, never more than Count in
     * all, so a long frame catches up instead of dropping shots.
     */
    method Process(delta: real)
      modifies this
      ensures old(spawned) >= count ==> unchanged(this)
      ensures old(spawned) < count ==>
        var n := CatchUpShots(old(spawned), old(timeSinceLastSpawn) + delta, count, delayBetweenShots);
        spawned == old(spawned) + n &&
        timeSinceLastSpawn == Leftover(old(spawned), old(timeSinceLastSpawn) + delta, count, delayBetweenShots) &&
        effects == old(effects) + Repeat(SpawnAttackInstance(attackScene, CurrentShot()), n)
      ensures old(spawned) < count ==> spawned <= count && (spawned == count || timeSinceLastSpawn < delayBetweenShots)
      ensures direction == old(direction) && position == old(position) && ownerStats == old(ownerStats)
    {
      if spawned >= count {
        return;
      }
      timeSinceLastSpawn := timeSinceLastSpawn + delta;
      var once := SpawnAttackInstance(attackScene, CurrentShot());
      ghost var start := timeSinceLastSpawn;
      ghost var startSpawned := spawned;
      ghost var startEffects := effects;
      ghost var total := CatchUpShots(startSpawned, start, count, delayBetweenShots);
      ghost var left := Leftover(startSpawned, start, count, delayBetweenShots);
      ghost var k: nat := 0;
      while timeSinceLastSpawn >= delayBetweenShots && spawned < count
        invariant spawned == startSpawned + k && spawned <= count
        invariant Leftover(spawned, timeSinceLastSpawn, count, delayBetweenShots) == left
        invariant k + CatchUpShots(spawned, timeSinceLastSpawn, count, delayBetweenShots) == total
        invariant effects == startEffects + Repeat(once, k)
        invariant direction == old(direction) && position == old(position) && ownerStats == old(ownerStats)
        decreases count - spawned
      {
        effects := effects + once;
        spawned := spawned + 1;
        timeSinceLastSpawn := timeSinceLastSpawn - delayBetweenShots;
        k := k + 1;
      }
    }

    /** Reset: counters to zero and the stored aim, position and stats cleared. */
    method Reset()
      modifies this
      ensures spawned == 0 && timeSinceLastSpawn == 0.0
      ensures direction == Raw(Zero) && position == Zero && ownerStats.None?
      ensures effects == old(effects)
    {
      spawned := 0;
      timeSinceLastSpawn := 0.0;
      direction := Raw(Zero);
      position := Zero;
      ownerStats := None;
    }
  }

  /**
   * A one-second frame right after activating the default burst fires the two
   * remaining shots together: three instances in all, and the burst is complete.
   */
  method LongFrameCatchesUp() returns (instances: nat, complete: bool)
    ensures instances == 3 && complete
  {
    var scene := Some(AttackScene("res://Scenes/Attacks/Projectiles/Projectile.tscn", true));
    var burst := new BurstSpawner.WithDefaults(DefaultConfig, scene);
    burst.Activate(Vec2(1.0, 0.0), Zero, None);
    ghost var first := burst.effects;
    burst.Process(1.0);
    assert CatchUpShots(1, 1.0, 3, 0.25) == 2;
    RepeatAddsN(scene, burst.CurrentShot(), 2);
    AddedCountConcat(first, Repeat(SpawnAttackInstance(scene, burst.CurrentShot()), 2));
    instances := AddedCount(burst.effects);
    complete := burst.IsComplete();
  }
}
