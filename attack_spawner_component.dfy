/**
 * What every spawner shares (AttackSpawnerComponent.cs): its configuration, the
 * spawning of one attack instance, and the catch-up rule the multi-shot spawners use.
 */
module AttackSpawnerComponent {
  import opened Wrappers
  import opened CombatTypes
  import opened Vectors

  /** The exported configuration. */
  datatype SpawnerConfig = SpawnerConfig(castDuration: real, cooldown: real, allowMovementDuringCast: bool)

  /** A fresh spawner: no cast, no cooldown, movement allowed. */
  const DefaultConfig: SpawnerConfig := SpawnerConfig(0.0, 0.0, true)

  predicate IsInstantCast(config: SpawnerConfig)
  {
    config.castDuration <= 0.0
  }

  /** The default configuration is an instant cast that allows movement. */
  lemma DefaultIsInstantAndMovable()
    ensures IsInstantCast(DefaultConfig) && DefaultConfig.allowMovementDuringCast
  {
  }

  /** The attack scene: whether its root node implements IAttack. */
  datatype AttackScene = AttackScene(path: string, implementsAttack: bool)

  /**
   * The arguments of one spawn. Spawners that pass no attack data (the
   * three-argument form) leave `attackData` None.
   */
  datatype Shot = Shot(direction: Direction, position: Vec2, ownerStats: Option<EntityStats>, attackData: Option<AttackData>)

  /** What one spawn does to the scene tree. */
  datatype SpawnEffect = Executed(shot: Shot) | AddedToCurrentScene(shot: Shot) | InstanceFreed(path: string)

  /** How many instances a run of effects added to the scene. */
  function AddedCount(effects: seq<SpawnEffect>): nat
  {
    if |effects| == 0 then 0
    else AddedCount(effects[..|effects| - 1]) + (if effects[|effects| - 1].AddedToCurrentScene? then 1 else 0)
  }

  /**
   * SpawnAttackInstance: nothing without a scene; an instance that is not an attack
   * is freed; an attack is executed with the shot and then added to the current
   * scene, so exactly one instance is added exactly when the scene is an attack.
   */
  function SpawnAttackInstance(scene: Option<AttackScene>, shot: Shot): (effects: seq<SpawnEffect>)
    ensures scene.None? ==> effects == []
    ensures AddedCount(effects) == (if scene.Some? && scene.value.implementsAttack then 1 else 0)
    ensures forall i :: 0 <= i < |effects| && effects[i].AddedToCurrentScene? ==>
      0 < i && effects[i - 1] == Executed(effects[i].shot) && effects[i].shot == shot
    ensures scene.Some? && !scene.value.implementsAttack ==> effects == [InstanceFreed(scene.value.path)]
  {
    if scene.None? then []
    else if scene.value.implementsAttack then
      var effects := [Executed(shot), AddedToCurrentScene(shot)];
      assert effects[..1] == [Executed(shot)];
      assert AddedCount(effects[..1]) == 0 by {
        assert effects[..1][..0] == [];
      }
      effects
    else
      var effects := [InstanceFreed(scene.value.path)];
      assert effects[..0] == [];
      effects
  }

  /** n spawns of the same shot, one after the other. */
  function Repeat(effects: seq<SpawnEffect>, n: nat): seq<SpawnEffect>
  {
    if n == 0 then [] else Repeat(effects, n - 1) + effects
  }

  lemma {:induction false} AddedCountConcat(a: seq<SpawnEffect>, b: seq<SpawnEffect>)
    ensures AddedCount(a + b) == AddedCount(a) + AddedCount(b)
    decreases |b|
  {
    if |b| == 0 {
      assert a + b == a;
    } else {
      assert (a + b)[..|a + b| - 1] == a + b[..|b| - 1];
      AddedCountConcat(a, b[..|b| - 1]);
    }
  }

  /** n spawns of an attack scene add n instances. */
  lemma {:induction false} RepeatAddsN(scene: Option<AttackScene>, shot: Shot, n: nat)
    ensures AddedCount(Repeat(SpawnAttackInstance(scene, shot), n))
         == (if scene.Some? && scene.value.implementsAttack then n else 0)
  {
    if n > 0 {
      RepeatAddsN(scene, shot, n - 1);
      AddedCountConcat(Repeat(SpawnAttackInstance(scene, shot), n - 1), SpawnAttackInstance(scene, shot));
    }
  }

  /**
   * The catch-up loop of the multi-shot spawners: how many shots fire when
   * `elapsed` seconds have built up, one per whole delay, without passing `count`.
   */
  function CatchUpShots(spawned: int, elapsed: real, count: int, delay: real): (n: nat)
    ensures spawned >= count ==> n == 0
    ensures spawned < count ==> spawned + n <= count
    decreases if spawned < count then count - spawned else 0
  {
    if spawned < count && elapsed >= delay then 1 + CatchUpShots(spawned + 1, elapsed - delay, count, delay)
    else 0
  }

  /**
   * The time left on the spawn timer after that catch-up: less than a delay unless
   * the burst is done, and never overdrawn once a shot has fired.
   */
  function Leftover(spawned: int, elapsed: real, count: int, delay: real): (r: real)
    ensures spawned + CatchUpShots(spawned, elapsed, count, delay) < count ==> r < delay
    ensures CatchUpShots(spawned, elapsed, count, delay) > 0 ==> r >= 0.0
    ensures CatchUpShots(spawned, elapsed, count, delay) == 0 ==> r == elapsed
    decreases if spawned < count then count - spawned else 0
  {
    if spawned < count && elapsed >= delay then Leftover(spawned + 1, elapsed - delay, count, delay)
    else elapsed
  }

  /** Each shot fired takes exactly one delay off the timer, and only time already built up is spent. */
  lemma {:induction false} LeftoverAccountsForEveryShot(spawned: int, elapsed: real, count: int, delay: real)
    ensures Leftover(spawned, elapsed, count, delay)
         == elapsed - CatchUpShots(spawned, elapsed, count, delay) as real * delay
    decreases if spawned < count then count - spawned else 0
  {
    if spawned < count && elapsed >= delay {
      LeftoverAccountsForEveryShot(spawned + 1, elapsed - delay, count, delay);
      var n := CatchUpShots(spawned + 1, elapsed - delay, count, delay);
      assert (n + 1) as real * delay == n as real * delay + delay;
    }
  }

  /** No shot that is due is held back: with a positive delay, enough time fires all of them. */
  lemma {:induction false} EnoughTimeFiresEverything(spawned: int, elapsed: real, count: int, delay: real)
    requires delay > 0.0 && spawned < count
    requires elapsed >= (count - spawned) as real * delay
    ensures spawned + CatchUpShots(spawned, elapsed, count, delay) == count
    decreases count - spawned
  {
    assert elapsed >= delay by {
      assert (count - spawned) as real * delay >= 1.0 * delay;
    }
    if spawned + 1 < count {
      EnoughTimeFiresEverything(spawned + 1, elapsed - delay, count, delay);
    }
  }
}
