/** One projectile per Execute, then SkillFired (SingleSpawnComponent.cs). */
module SingleSpawnComponent {
  import opened Wrappers
  import opened AttackSpawnComponent

  class SingleSpawnComponent {
    const projectileScene: Option<ProjectileScene>
    const data: Option<SpawnData>
    /** Instances placed, oldest first. */
    var placed: seq<Placed>
    /** The cooldown carried by each SkillFired signal, oldest first. */
    var skillFired: seq<real>

    constructor (projectileScene: Option<ProjectileScene>, data: Option<SpawnData>)
      ensures this.projectileScene == projectileScene && this.data == data
      ensures placed == [] && skillFired == []
    {
      this.projectileScene := projectileScene;
      this.data := data;
      placed := [];
      skillFired := [];
    }

    /**
     * Execute: without a scene or data nothing is placed and nothing is signalled;
     * otherwise exactly one instance is placed and then one SkillFired carries the
     * data's cooldown.
     */
    method Execute(ctx: AttackContext)
      modifies this
      ensures projectileScene.None? || data.None? ==> placed == old(placed) && skillFired == old(skillFired)
      ensures projectileScene.Some? && data.Some? ==>
        placed == old(placed) + [Place(projectileScene.value, data.value, ctx)] &&
        skillFired == old(skillFired) + [data.value.cooldownDuration]
    {
      if projectileScene.None? || data.None? {
        return;
      }
      var p := SpawnProjectile(projectileScene.value, data.value, ctx);
      placed := placed + [p];
      skillFired := skillFired + [data.value.cooldownDuration];
    }
  }

  /**
   * A rock-body scene (no Projectile script, hitbox as its second child) fired with
   * plain data: one instance, no movement child, its hitbox initialised with the
   * owner's stats, and one SkillFired with the cooldown.
   */
  method RockBodyIsInitialisedThroughItsHitbox() returns (p: Placed, signals: seq<real>)
    ensures p.movement.None? && p.init.HitboxInit? && p.init.child == 1
    ensures signals == [0.5]
  {
    var scene := ProjectileScene("res://Scenes/Attacks/Body/RockBody/RockBody.tscn", false, [OtherChild, HitboxChild, HitboxChild]);
    var component := new SingleSpawnComponent(Some(scene), Some(SpawnData(0.5, None)));
    var ctx := AttackContext(Vectors.Vec2(1.0, 0.0), Vectors.Zero, None, 1, 1.0, 2);
    component.Execute(ctx);
    assert FirstHitbox(scene.children) == Some(1) by {
      assert scene.children[1..][0] == HitboxChild;
    }
    p := component.placed[0];
    signals := component.skillFired;
  }
}
