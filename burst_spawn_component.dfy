/**
 * BurstCount projectiles driven by a repeating timer (BurstSpawnComponent.cs).
 * Timers are named by numbers; a tick is the timeout of one running timer.
 */
module BurstSpawnComponent {
  import opened Wrappers
  import opened Vectors
  import opened AttackSpawnComponent

  type TimerId = nat

  class BurstSpawnComponent {
    const projectileScene: Option<ProjectileScene>
    const data: Option<SpawnData>
    const burstCount: int
    const burstDelay: real
    var currentCtx: Option<AttackContext>
    var fired: int
    /** The timer the component holds a reference to. */
    var burstTimer: Option<TimerId>
    /** Every timer still ticking into OnBurstTick. */
    var runningTimers: set<TimerId>
    var nextTimer: TimerId
    var placed: seq<Placed>
    var skillFired: seq<real>

    /** The component's bookkeeping: the held timer is running, and only an executed component has timers. */
    ghost predicate Valid()
      reads this
    {
      fired >= 0 &&
      (burstTimer.Some? ==> burstTimer.value in runningTimers && fired < burstCount) &&
      (runningTimers != {} ==> burstCount > 1) &&
      (runningTimers != {} ==> currentCtx.Some? && projectileScene.Some? && data.Some?) &&
      (forall t :: t in runningTimers ==> t < nextTimer)
    }

    /** The exported defaults: three shots a tenth of a second apart. */
    constructor (projectileScene: Option<ProjectileScene>, data: Option<SpawnData>)
      ensures Valid()
      ensures this.projectileScene == projectileScene && this.data == data
      ensures burstCount == 3 && burstDelay == 0.1
      ensures currentCtx.None? && fired == 0 && burstTimer.None? && runningTimers == {}
      ensures placed == [] && skillFired == []
    {
      this.projectileScene := projectileScene;
      this.data := data;
      burstCount := 3;
      burstDelay := 0.1;
      currentCtx := None;
      fired := 0;
      burstTimer := None;
      runningTimers := {};
      nextTimer := 0;
      placed := [];
      skillFired := [];
    }

    /** What SpawnOne places: the stored context, moved to where the owner is now. */
    function ShotAt(ownerPosition: Vec2): Placed
      requires currentCtx.Some? && projectileScene.Some? && data.Some?
      reads this
    {
      Place(projectileScene.value, data.value, currentCtx.value.(spawnPosition := ownerPosition))
    }

    method SpawnOne(ownerPosition: Vec2)
      requires currentCtx.Some? && projectileScene.Some? && data.Some?
      modifies this
      ensures placed == old(placed) + [old(ShotAt(ownerPosition))]
      ensures fired == old(fired) + 1
      ensures currentCtx == old(currentCtx) && burstTimer == old(burstTimer)
      ensures runningTimers == old(runningTimers) && nextTimer == old(nextTimer)
      ensures skillFired == old(skillFired)
    {
      var p := SpawnProjectile(projectileScene.value, data.value, currentCtx.value.(spawnPosition := ownerPosition));
      placed := placed + [p];
      fired := fired + 1;
    }

    /**
     * Execute: without a scene or data nothing happens. Otherwise the context is
     * stored, the count restarts, one shot is placed and SkillFired is emitted; with
     * BurstCount above one a new repeating timer starts. A timer left from an earlier
     * burst keeps running.
     */
    method Execute(ctx: AttackContext, ownerPosition: Vec2)
      requires Valid()
      modifies this
      ensures Valid()
      ensures projectileScene.None? || data.None? ==> unchanged(this)
      ensures projectileScene.Some? && data.Some? ==>
        currentCtx == Some(ctx) && fired == 1 &&
        placed == old(placed) + [ShotAt(ownerPosition)] &&
        skillFired == old(skillFired) + [data.value.cooldownDuration]
      ensures projectileScene.Some? && data.Some? && burstCount <= 1 ==>
        burstTimer == old(burstTimer) && runningTimers == old(runningTimers)
      ensures projectileScene.Some? && data.Some? && burstCount > 1 ==>
        burstTimer == Some(old(nextTimer)) && runningTimers == old(runningTimers) + {old(nextTimer)}
    {
      if projectileScene.None? || data.None? {
        return;
      }
      currentCtx := Some(ctx);
      fired := 0;
      SpawnOne(ownerPosition);
      skillFired := skillFired + [data.value.cooldownDuration];
      if burstCount <= 1 {
        return;
      }
      burstTimer := Some(nextTimer);
      runningTimers := runningTimers + {nextTimer};
      nextTimer := nextTimer + 1;
    }

    /**
     * OnBurstTick: one more shot; once BurstCount shots are out the held timer is
     * stopped and released. With no timer held at that point the call fails on the
     * missing reference (`ok` false) after the shot is placed.
     */
    method OnBurstTick(timer: TimerId, ownerPosition: Vec2) returns (ok: bool)
      requires Valid() && timer in runningTimers
      modifies this
      ensures placed == old(placed) + [old(ShotAt(ownerPosition))] && fired == old(fired) + 1
      ensures ok == (fired < burstCount || old(burstTimer).Some?)
      ensures ok ==> Valid()
      ensures fired < burstCount ==> burstTimer == old(burstTimer) && runningTimers == old(runningTimers)
      ensures fired >= burstCount && ok ==> burstTimer.None? && runningTimers == old(runningTimers) - {old(burstTimer).value}
      ensures currentCtx == old(currentCtx) && skillFired == old(skillFired)
    {
      SpawnOne(ownerPosition);
      if fired >= burstCount {
        if burstTimer.None? {
          return false;
        }
        runningTimers := runningTimers - {burstTimer.value};
        burstTimer := None;
      }
      return true;
    }
  }

  /**
   * One burst with the defaults: Execute and two ticks place three shots, each at
   * the owner's position when it fires, and leave no timer running.
   */
  method DefaultBurstPlacesThree() returns (positions: seq<Vec2>, running: set<TimerId>)
    ensures positions == [Vec2(0.0, 0.0), Vec2(1.0, 0.0), Vec2(2.0, 0.0)]
    ensures running == {}
  {
    var scene := ProjectileScene("res://Scenes/Attacks/Projectiles/Projectile.tscn", true, []);
    var component := new BurstSpawnComponent(Some(scene), Some(SpawnData(0.3, Some(0))));
    var ctx := AttackContext(Vec2(1.0, 0.0), Vec2(9.0, 9.0), None, 1, 1.0, 2);
    component.Execute(ctx, Vec2(0.0, 0.0));
    var timer := component.burstTimer.value;
    var ok := component.OnBurstTick(timer, Vec2(1.0, 0.0));
    ok := component.OnBurstTick(timer, Vec2(2.0, 0.0));
    positions := [component.placed[0].position, component.placed[1].position, component.placed[2].position];
    running := component.runningTimers;
  }

  /**
   * Executing again while a burst is running leaves the first timer ticking: once
   * the second burst completes and its timer is released, the next tick of the
   * first timer finds no held timer and fails, after placing a fourth shot of the
   * second burst.
   */
  method ExecuteMidBurstLeaksATimer() returns (lastTickOk: bool, shots: nat)
    ensures !lastTickOk && shots == 6
  {
    var scene := ProjectileScene("res://Scenes/Attacks/Projectiles/Projectile.tscn", true, []);
    var component := new BurstSpawnComponent(Some(scene), Some(SpawnData(0.3, Some(0))));
    var ctx := AttackContext(Vec2(1.0, 0.0), Zero, None, 1, 1.0, 2);
    component.Execute(ctx, Zero);
    var first := component.burstTimer.value;
    var ok := component.OnBurstTick(first, Zero);
    component.Execute(ctx, Zero);
    var second := component.burstTimer.value;
    ok := component.OnBurstTick(first, Zero);
    ok := component.OnBurstTick(second, Zero);
    lastTickOk := component.OnBurstTick(first, Zero);
    shots := |component.placed|;
  }
}
