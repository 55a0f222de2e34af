/** One instance per activation (SingleShotSpawner.cs). */
module SingleShotSpawner {
  import opened Wrappers
  import opened CombatTypes
  import opened Vectors
  import opened AttackSpawnerComponent

  type NodeId = nat

  class SingleShotSpawner {
    const config: SpawnerConfig
    const attackScene: Option<AttackScene>
    var hasSpawned: bool
    var effects: seq<SpawnEffect>

    constructor (config: SpawnerConfig, attackScene: Option<AttackScene>)
      ensures this.config == config && this.attackScene == attackScene
      ensures !hasSpawned && effects == []
    {
      this.config := config;
      this.attackScene := attackScene;
      hasSpawned := false;
      effects := [];
    }

    predicate IsComplete()
      reads this
    {
      hasSpawned
    }

    /** Activate: spawns once, with the direction as given, and is complete from then on. */
    method Activate(direction: Vec2, position: Vec2, ownerStats: Option<EntityStats>, attackData: Option<AttackData>, owner: NodeId)
      modifies this
      ensures IsComplete()
      ensures effects == old(effects) + SpawnAttackInstance(attackScene, Shot(Raw(direction), position, ownerStats, attackData))
    {
      effects := effects + SpawnAttackInstance(attackScene, Shot(Raw(direction), position, ownerStats, attackData));
      hasSpawned := true;
    }

    /** Process: a single shot has nothing left to do. */
    method Process(delta: real)
    {
    }

    method Reset()
      modifies this
      ensures !IsComplete() && effects == old(effects)
    {
      hasSpawned := false;
    }
  }
}
