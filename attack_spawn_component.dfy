/**
 * The older spawn components (AttackSpawnComponent.cs and its two subclasses):
 * the attack context they receive and what placing one projectile instance does.
 */
module AttackSpawnComponent {
  import opened Wrappers
  import opened CombatTypes
  import opened Vectors

  type NodeId = nat

  /** The world context of one attack (the AttackContext record). */
  datatype AttackContext = AttackContext(
    direction: Vec2,
    spawnPosition: Vec2,
    ownerStats: Option<EntityStats>,
    owner: NodeId,
    damageMultiplier: real,
    attacksContainer: NodeId)

  /**
   * The exported Data resource: the cooldown it reports with SkillFired, and the
   * movement type when it is projectile data.
   */
  datatype SpawnData = SpawnData(cooldownDuration: real, projectileMovement: Option<nat>)

  /** The children a projectile scene is built with. */
  datatype ChildKind = HitboxChild | OtherChild

  /** A projectile scene: whether its root is a Projectile, and its children in order. */
  datatype ProjectileScene = ProjectileScene(path: string, isProjectile: bool, children: seq<ChildKind>)

  /** How a placed instance is initialised. */
  datatype Init =
    | ProjectileInit(ctx: AttackContext, data: SpawnData)
    | HitboxInit(child: nat, stats: Option<EntityStats>, data: SpawnData, multiplier: real)
    | NoInit

  /**
   * One placed instance: its position, the direction its rotation is the angle of,
   * the movement child it received, the container it was added to and its initialisation.
   */
  datatype Placed = Placed(scene: string, position: Vec2, facing: Vec2, movement: Option<nat>, container: NodeId, init: Init)

  /** The index of the first hitbox child, if there is one. */
  function FirstHitbox(children: seq<ChildKind>): (r: Option<nat>)
    ensures r.Some? ==> r.value < |children| && children[r.value] == HitboxChild
    ensures r.Some? ==> forall j :: 0 <= j < r.value ==> children[j] != HitboxChild
    ensures r.None? ==> forall j :: 0 <= j < |children| ==> children[j] != HitboxChild
  {
    if |children| == 0 then None
    else if children[0] == HitboxChild then Some(0)
    else
      var rest := FirstHitbox(children[1..]);
      if rest.Some? then Some(rest.value + 1) else None
  }

  /** The scan over the children that stops at the first hitbox. */
  method FindFirstHitbox(children: seq<ChildKind>) returns (r: Option<nat>)
    ensures r == FirstHitbox(children)
  {
    var i := 0;
    r := None;
    while i < |children|
      invariant 0 <= i <= |children|
      invariant forall j :: 0 <= j < i ==> children[j] != HitboxChild
      invariant r.None?
    {
      if children[i] == HitboxChild {
        r := Some(i);
        break;
      }
      i := i + 1;
    }
  }

  /**
   * SpawnProjectile: the instance goes at the context's spawn position, faces its
   * direction, gets one movement child exactly when the data is projectile data,
   * and is initialised as a Projectile with the whole context, or else through its
   * first hitbox child with the owner's stats, the data and the multiplier.
   */
  function Place(scene: ProjectileScene, data: SpawnData, ctx: AttackContext): (p: Placed)
    ensures p.position == ctx.spawnPosition && p.facing == ctx.direction
    ensures p.movement == data.projectileMovement && p.container == ctx.attacksContainer
    ensures scene.isProjectile ==> p.init == ProjectileInit(ctx, data)
    ensures !scene.isProjectile && FirstHitbox(scene.children).None? ==> p.init == NoInit
    ensures !scene.isProjectile && FirstHitbox(scene.children).Some? ==>
      p.init == HitboxInit(FirstHitbox(scene.children).value, ctx.ownerStats, data, ctx.damageMultiplier)
  {
    var init :=
      if scene.isProjectile then ProjectileInit(ctx, data)
      else match FirstHitbox(scene.children)
        case Some(i) => HitboxInit(i, ctx.ownerStats, data, ctx.damageMultiplier)
        case None => NoInit;
    Placed(scene.path, ctx.spawnPosition, ctx.direction, data.projectileMovement, ctx.attacksContainer, init)
  }

  /** The placing step itself, with the hitbox scan as a loop. */
  method SpawnProjectile(scene: ProjectileScene, data: SpawnData, ctx: AttackContext) returns (p: Placed)
    ensures p == Place(scene, data, ctx)
  {
    var init: Init;
    if scene.isProjectile {
      init := ProjectileInit(ctx, data);
    } else {
      var hitbox := FindFirstHitbox(scene.children);
      if hitbox.Some? {
        init := HitboxInit(hitbox.value, ctx.ownerStats, data, ctx.damageMultiplier);
      } else {
        init := NoInit;
      }
    }
    p := Placed(scene.path, ctx.spawnPosition, ctx.direction, data.projectileMovement, ctx.attacksContainer, init);
  }
}
