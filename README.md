# RotOfTime core, modelled in Dafny

RotOfTime is a Godot action game written in C#. This project models the logic at the
heart of it and proves properties of that model. Godot's nodes, signals, timers and
scene loading stay at the edges, as parameters and logs.

- **Damage pipeline.** The integer damage and attack formulas, with C#'s truncating
  cast. The health holders clamp health and honour invincibility.
- **Attack slots and the attack manager.** A slot moves through cooldown, cast,
  active and completed. The manager is a keyed table of cooldown entries. Neither adds
  a readiness check or a single-cast lock, since the code has neither.
- **Spawn strategies.**
  - Single-shot, burst and turret spawners, including their catch-up loops.
  - The older timer-driven burst component, the ice shard spell and the cooldown
    generator. Each timer timeout is an explicit event.
- **Hit delivery.** An attack keeps a per-target hit-cooldown map, and the hurtbox
  consumes it. Factions choose the collision layer and mask. The attack registries
  are lookups with a fallback.
- **Entity state machines.**
  - The generic state registry and `ChangeState`, which exits the old state before
    entering the new one.
  - The player states: idle, move, dash, casting and the older attack state.
  - The basic enemy, which tracks its target, and its idle, chasing and attacking states.
- **Meta-progression bookkeeping.**
  - Equipping artifacts under a slot budget.
  - Inventory counts.
  - Isotope and money balances.
  - Progression counters and their multipliers.
  - Milestone sets and the ability loadout.
- **Small helpers.** The level-to-scene fallback lookup, the saved stats record and
  the play-time formatter.

Mostly, each C# source file becomes one Dafny module, and a helper that several files
share lives with its first user:
- the `AttackSpawnComponent` module also holds the placing code of SingleSpawnComponent.cs;
- `AttackSpawnerComponent` also holds the catch-up arithmetic of BurstSpawner.cs;
- `PlayerEntity` also holds the velocity rule of EntityMovementComponent.cs and the
  Move-or-Idle choice that DashState.cs and other player states end with.

The modelling rules:
- A file that updates fields in place becomes a `class`. Its methods state the whole
  new state.
- A file that only computes becomes functions and lemmas.
- State changes requested from the engine become appended logs. These include
  `ChangeState` calls, spawned instances, signals, timer starts and save requests.
  Ordering and "nothing else changes" can therefore be stated.
- C# `null` is `Option`, and a thrown exception is an error flag.
- Where a comment and the code disagree, the model follows the code, and the table says so:
  - a blocked hit deals 0 damage, not at least 1;
  - the attacking enemy stops instead of slowing.

Shared modules:
- `Wrappers`: `Option`.
- `Numerics`: truncation, clamping and sums.
- `Vectors`: a vector tagged raw or normalized, and a velocity that is either stopped
  or moving along a heading at a speed.
- `GameConstants`: collision layers as 32-bit values, and factions.
- `CombatTypes`: the combat records.

## Model

| member | source | states |
|---|---|---|
| DamageCalculator.Calculate | Core/Combat/Calculations/DamageCalculator.cs:15-33 | raw damage is carried over; the hit is blocked exactly when raw damage does not exceed defense; a blocked hit deals 0, absorbs all the raw damage and is not critical; an unblocked hit deals raw minus defense (at least MinimumDamage) and absorbs the defense |
| DamageCalculator.FinalDamageZeroIffBlocked | Core/Combat/Calculations/DamageCalculator.cs:19-32 | final damage is never negative and is zero exactly when the hit was blocked |
| DamageCalculator.MoreDefenseNeverHurtsMore | Core/Combat/Calculations/DamageCalculator.cs:19-32 | raising the defender's defense never raises the final damage |
| DamageCalculator.ExampleUnblockedHit | Core/Combat/Calculations/DamageCalculator.cs:17-32 | 30 raw damage against 10 defense deals 20 and absorbs 10 |
| DamageCalculator.ExampleBlockedHit | Core/Combat/Calculations/DamageCalculator.cs:17-24 | 5 raw damage against 10 defense is blocked and deals 0, below MinimumDamage: the floor of 1 applies to unblocked hits only |
| AttackCalculator.Calculate | Core/Combat/Calculations/AttackCalculator.cs:13-22 | raw damage is the entity's attack plus the grimoire bonus, times the coefficient, truncated toward zero; the attack's name is carried and the result is never critical |
| AttackCalculator.CalculateBase | Core/Combat/Calculations/AttackCalculator.cs:27-33 | the base damage is what Calculate gives for a total attack of one, whatever the defense and vitality |
| AttackCalculator.RawDamageMonotone | Core/Combat/Calculations/AttackCalculator.cs:15-16 | with a non-negative coefficient, more total attack never gives less raw damage |
| AttackCalculator.NegativeAttackIsNotClamped | Core/Combat/Calculations/AttackCalculator.cs:15-21 | nothing clamps the result: a negative total attack with a coefficient of at least one gives negative raw damage |
| AttackCalculator.ExampleFireball | Core/Combat/Calculations/AttackCalculator.cs:13-21 | 7 total attack with coefficient 1.5 gives 10 raw damage (10.5 truncated) |
| AttackSlot.AttackSlot.constructor | Core/Combat/Components/AttackSlot.cs:14-41 | a new slot is idle, off cooldown and has made no spawner calls |
| AttackSlot.AttackSlot.GetCooldownProgress | Core/Combat/Components/AttackSlot.cs:134-140 | the progress lies in [0, 1]; it is 0 for a slot without cooldown; otherwise it is 0 exactly when the slot is ready and 1 exactly when the full cooldown remains |
| AttackSlot.AttackSlot.Activate | Core/Combat/Components/AttackSlot.cs:68-93 | without a spawner or data nothing changes; otherwise the cooldown and the cast restart (an instant cast completes at once), the slot becomes active and the spawner is reset and then activated; readiness is not checked |
| AttackSlot.AttackSlot.Process | Core/Combat/Components/AttackSlot.cs:95-122 | a running cooldown counts down to a floor of 0 whether or not the slot is active; an active slot advances its cast, marks it complete once the elapsed time reaches the cast duration, ticks its spawner and goes inactive when the spawner reports completion |
| AttackSlot.AttackSlot.Reset | Core/Combat/Components/AttackSlot.cs:124-132 | the slot goes idle with no cast progress; the cooldown is kept |
| AttackSlot.DefaultsWithoutData | Core/Combat/Components/AttackSlot.cs:38-41 | a slot without AttackData has no cooldown, is an instant cast, allows movement and reports progress 0 |
| AttackSlot.ExecutionCanEndBeforeCast | Core/Combat/Components/AttackSlot.cs:105-121 | a spawner finishing on the first tick of a one-second cast leaves the slot's execution complete while its cast is not |
| AttackSlot.ActivationIgnoresCooldown | Core/Combat/Components/AttackSlot.cs:68-93 | a slot still cooling down is activated again and its spawner is reset and activated a second time |
| AttackManagerComponent.TickEntries | Core/Combat/Components/AttackManagerComponent.cs:113-121 | _Process keeps the same keys and ticks every entry on its own |
| AttackManagerComponent.TicksKeepConfiguration | Core/Combat/Components/AttackManagerComponent.cs:113-121 | frames change only the remaining cooldown of an entry, never its scene, cooldown or cast settings |
| AttackManagerComponent.OffCooldownAfterItsTime | Core/Combat/Components/AttackManagerComponent.cs:113-121 | with non-negative frame times, an entry on cooldown comes off it exactly when the frames add up to the time it had left |
| AttackManagerComponent.StaysOffCooldown | Core/Combat/Components/AttackManagerComponent.cs:117-119 | an entry off cooldown is left untouched by later frames |
| AttackManagerComponent.AttackManagerComponent.constructor | Core/Combat/Components/AttackManagerComponent.cs:10 | the manager starts with no attacks, no signals and no relays |
| AttackManagerComponent.AttackManagerComponent.RegisterAttack | Core/Combat/Components/AttackManagerComponent.cs:21-49 | a taken key is left alone; a scene whose root is not an attack registers nothing; otherwise the key gets an entry off cooldown with the instance's metadata; the temporary instance is freed either way |
| AttackManagerComponent.AttackManagerComponent.UnregisterAttack | Core/Combat/Components/AttackManagerComponent.cs:51-54 | the key's entry is removed and nothing else changes |
| AttackManagerComponent.AttackManagerComponent.TryFire | Core/Combat/Components/AttackManagerComponent.cs:56-93 | an unknown key or a key on cooldown gives null and changes nothing; a non-attack instance is freed and gives null; otherwise the instance is executed and added, the key's cooldown restarts, CastStarted is emitted, and CastCompleted follows at once for an instant attack or is relayed later |
| AttackManagerComponent.AttackManagerComponent.OnInstanceCastCompleted | Core/Combat/Components/AttackManagerComponent.cs:85-88 | a relayed instance's cast completion emits CastCompleted under the key it was fired with |
| AttackManagerComponent.AttackManagerComponent.OnInstanceFinished | Core/Combat/Components/AttackManagerComponent.cs:90 | a relayed instance's finish emits AttackFinished under the key it was fired with |
| AttackManagerComponent.AttackManagerComponent.GetCooldownProgress | Core/Combat/Components/AttackManagerComponent.cs:100-106 | the progress lies in [0, 1]; it is 0 for an unknown key or one without cooldown, and otherwise 0 exactly when the key is off cooldown |
| AttackManagerComponent.AttackManagerComponent.GetAttackMetadata | Core/Combat/Components/AttackManagerComponent.cs:108-111 | the entry for a known key, and null for an unknown one |
| AttackManagerComponent.AttackManagerComponent.Process | Core/Combat/Components/AttackManagerComponent.cs:113-121 | the table becomes TickEntries of the old table and nothing else changes |
| AttackManagerComponent.TwoCastsMayOverlap | Core/Combat/Components/AttackManagerComponent.cs:56-93 | two non-instant attacks under different keys both fire, one right after the other: nothing locks one key while another casts |
| AttackManagerComponent.RefiringIsRefused | Core/Combat/Components/AttackManagerComponent.cs:58-62 | a key that has just fired is refused and reports being on cooldown |
| AttackSpawnComponent.FirstHitbox | Core/Combat/Components/AttackSpawnComponents/SingleSpawnComponent.cs:43-50 | the index found holds a hitbox child and no earlier child is one; None exactly when no child is a hitbox |
| AttackSpawnComponent.FindFirstHitbox | Core/Combat/Components/AttackSpawnComponents/SingleSpawnComponent.cs:43-50 | the loop over the children that stops at the first hitbox returns exactly FirstHitbox |
| AttackSpawnComponent.Place | Core/Combat/Components/AttackSpawnComponents/SingleSpawnComponent.cs:22-52 | the instance goes to the spawn position facing the context's direction, gets a movement child exactly when the data is projectile data, is added to the attacks container, and is initialised as a Projectile with the whole context or else through its first hitbox child with the owner's stats, the data and the multiplier (not at all without one) |
| AttackSpawnComponent.SpawnProjectile | Core/Combat/Components/AttackSpawnComponents/SingleSpawnComponent.cs:22-52 | the placing step with its hitbox loop yields exactly Place |
| AttackSpawnerComponent.DefaultIsInstantAndMovable | Core/Combat/Components/AttackSpawnerComponents/AttackSpawnerComponent.cs:25-43 | a spawner with the exported defaults is an instant cast that allows movement |
| AttackSpawnerComponent.SpawnAttackInstance | Core/Combat/Components/AttackSpawnerComponents/AttackSpawnerComponent.cs:68-90 | without a scene nothing happens; a non-attack instance is only freed; an attack instance is executed with the shot and then added to the current scene, so exactly one instance is added exactly when the scene is an attack |
| AttackSpawnerComponent.AddedCountConcat | Core/Combat/Components/AttackSpawnerComponents/AttackSpawnerComponent.cs:89 | the instances added by two runs of spawns add up |
| AttackSpawnerComponent.RepeatAddsN | Core/Combat/Components/AttackSpawnerComponents/AttackSpawnerComponent.cs:68-90 | n spawns of an attack scene add n instances, and n spawns of anything else add none |
| AttackSpawnerComponent.CatchUpShots | Core/Combat/Components/AttackSpawnerComponents/BurstSpawner.cs:52-57 | the catch-up loop fires nothing once the count is reached and never passes the count |
| AttackSpawnerComponent.Leftover | Core/Combat/Components/AttackSpawnerComponents/BurstSpawner.cs:52-57 | after the catch-up the timer holds less than one delay unless every shot has fired, is never overdrawn once a shot fired, and is untouched when none fired |
| AttackSpawnerComponent.LeftoverAccountsForEveryShot | Core/Combat/Components/AttackSpawnerComponents/BurstSpawner.cs:50-57 | each shot fired takes exactly one delay off the built-up time |
| AttackSpawnerComponent.EnoughTimeFiresEverything | Core/Combat/Components/AttackSpawnerComponents/BurstSpawner.cs:52-57 | with a positive delay, time for every remaining shot fires all of them in one frame |
| SingleShotSpawner.SingleShotSpawner.constructor | Core/Combat/Components/AttackSpawnerComponents/SingleShotSpawner.cs:8-12 | a new spawner has not spawned and is not complete |
| SingleShotSpawner.SingleShotSpawner.Activate | Core/Combat/Components/AttackSpawnerComponents/SingleShotSpawner.cs:14-19 | one attack instance is spawned with the raw direction, position, stats and data, and the spawner is complete |
| SingleShotSpawner.SingleShotSpawner.Reset | Core/Combat/Components/AttackSpawnerComponents/SingleShotSpawner.cs:25-28 | the spawner is no longer complete and spawns nothing |
| BurstSpawner.BurstSpawner.constructor | Core/Combat/Components/AttackSpawnerComponents/BurstSpawner.cs:11-31 | a new spawner has spawned nothing, with a zero aim, position and no stats |
| BurstSpawner.BurstSpawner.WithDefaults | Core/Combat/Components/AttackSpawnerComponents/BurstSpawner.cs:23-29 | the exported defaults are three shots 0.25 seconds apart |
| BurstSpawner.BurstSpawner.Activate | Core/Combat/Components/AttackSpawnerComponents/BurstSpawner.cs:33-43 | the aim is normalized and kept with the position and stats, the first shot is spawned at once, the count of spawned shots is one and the timer restarts; a count of at most one is complete straight away |
| BurstSpawner.BurstSpawner.Process | Core/Combat/Components/AttackSpawnerComponents/BurstSpawner.cs:45-58 | a complete burst is untouched; otherwise the frame time builds up and CatchUpShots shots are spawned with the same shot, leaving Leftover on the timer, so the burst never passes its count and never holds back a due shot |
| BurstSpawner.BurstSpawner.Reset | Core/Combat/Components/AttackSpawnerComponents/BurstSpawner.cs:60-67 | the count and timer go back to zero and the aim, position and stats are cleared |
| BurstSpawner.LongFrameCatchesUp | Core/Combat/Components/AttackSpawnerComponents/BurstSpawner.cs:45-58 | one frame of a second after activation fires the other two shots of the default burst, which is then complete |
| TurretSpawner.TurretSpawner.constructor | Core/Combat/Components/AttackSpawnerComponents/TurretSpawner.cs:13-23 | a new turret has spawned nothing, with a zero aim, position and no stats or data |
| TurretSpawner.TurretSpawner.WithDefaults | Core/Combat/Components/AttackSpawnerComponents/TurretSpawner.cs:20-21 | the defaults are three shots 0.25 seconds apart |
| TurretSpawner.TurretSpawner.Activate | Core/Combat/Components/AttackSpawnerComponents/TurretSpawner.cs:25-36 | the aim is normalized and fixed with the position, stats and attack data, the first shot is spawned at once and the timer restarts; a count of at most one is complete straight away |
| TurretSpawner.TurretSpawner.Process | Core/Combat/Components/AttackSpawnerComponents/TurretSpawner.cs:38-51 | a complete turret is untouched; otherwise CatchUpShots shots of the fixed shot are spawned, leaving Leftover on the timer |
| TurretSpawner.TurretSpawner.Reset | Core/Combat/Components/AttackSpawnerComponents/TurretSpawner.cs:53-61 | the count and timer go back to zero and the aim, position, stats and data are cleared |
| TurretSpawner.ProcessAfterResetFiresEmptyShots | Core/Combat/Components/AttackSpawnerComponents/TurretSpawner.cs:38-61 | processing a reset turret is not guarded: it spawns the whole count with a zero aim at the origin and no stats or data |
| SingleSpawnComponent.SingleSpawnComponent.constructor | Core/Combat/Components/AttackSpawnComponents/SingleSpawnComponent.cs:8-10 | a new component has placed nothing and emitted nothing |
| SingleSpawnComponent.SingleSpawnComponent.Execute | Core/Combat/Components/AttackSpawnComponents/SingleSpawnComponent.cs:10-20 | without a scene or data nothing happens; otherwise exactly one instance is placed as Place describes and SkillFired carries the data's cooldown |
| SingleSpawnComponent.RockBodyIsInitialisedThroughItsHitbox | Core/Combat/Components/AttackSpawnComponents/SingleSpawnComponent.cs:22-52 | a non-Projectile scene with plain data gets no movement child and is initialised through its first hitbox child, and SkillFired reports the cooldown |
| BurstSpawnComponent.BurstSpawnComponent.constructor | Core/Combat/Components/AttackSpawnComponents/BurstSpawnComponent.cs:10-15 | the defaults are three shots 0.1 seconds apart, with no context, no timer and nothing fired |
| BurstSpawnComponent.BurstSpawnComponent.SpawnOne | Core/Combat/Components/AttackSpawnComponents/BurstSpawnComponent.cs:56-89 | one instance is placed at the owner's current position with the stored context and the fired count goes up by one |
| BurstSpawnComponent.BurstSpawnComponent.Execute | Core/Combat/Components/AttackSpawnComponents/BurstSpawnComponent.cs:17-42 | without a scene or data nothing happens; otherwise the context is stored, the count restarts, one shot is placed and SkillFired emitted, and a repeating timer is started when more than one shot is due |
| BurstSpawnComponent.BurstSpawnComponent.OnBurstTick | Core/Combat/Components/AttackSpawnComponents/BurstSpawnComponent.cs:44-54 | each tick places one shot; once the count is reached the current timer is stopped, freed and forgotten; the tick fails (a null timer) exactly when the count is reached with no timer held |
| BurstSpawnComponent.DefaultBurstPlacesThree | Core/Combat/Components/AttackSpawnComponents/BurstSpawnComponent.cs:17-54 | a default burst from an owner moving one unit per tick places three shots along its path and leaves no timer running |
| BurstSpawnComponent.ExecuteMidBurstLeaksATimer | Core/Combat/Components/AttackSpawnComponents/BurstSpawnComponent.cs:25-53 | executing again mid-burst replaces the timer without stopping the first, so after six shots the orphaned timer's tick meets a null timer |
| IceShard.IceShard.constructor | Scenes/Attacks/Spells/IceShard/IceShard.cs:17-40 | the defaults are three shards 0.1 seconds apart, nothing fired, no timer, not freed |
| IceShard.IceShard.SpawnSubProjectile | Scenes/Attacks/Spells/IceShard/IceShard.cs:81-108 | without a scene, sub-projectile data or the attacks container the shard frees itself and spawns nothing; otherwise one sub-projectile is placed at the shard's position with the shard's direction, stats, the sub-projectile data and the multiplier, and the count goes up |
| IceShard.IceShard.Execute | Scenes/Attacks/Spells/IceShard/IceShard.cs:42-68 | the aim is normalized and the context kept; the first shard is spawned at once; a burst of at most one frees the node, a longer one starts the repeating timer |
| IceShard.IceShard.OnBurstTimerTimeout | Scenes/Attacks/Spells/IceShard/IceShard.cs:70-79 | each tick spawns a shard; once the count is reached the timer stops and the node frees itself |
| IceShard.ThreeShardsThenFree | Scenes/Attacks/Spells/IceShard/IceShard.cs:42-108 | a default ice shard fires three shards, each with the sub-projectile data, then stops its timer and frees itself |
| IceShard.MissingContainerFreesWithoutCounting | Scenes/Attacks/Spells/IceShard/IceShard.cs:90-96 | without the attacks container the shard frees itself and counts no shard |
| AttacksRegistry.GetAttackData | Core/Combat/Attacks/AttackRegistry.cs:21-27 | the entry returned is one of the table's, and a type missing from the table falls back to the None entry |
| AttacksRegistry.EveryTypeIsRegistered | Core/Combat/Attacks/AttackRegistry.cs:12-17 | every attack type of this namespace is in the table, so the lookup never falls back |
| AttacksRegistry.Coefficients | Core/Combat/Attacks/AttackRegistry.cs:14-16 | None has coefficient 0, RockBody 1.0 and Fireball 1.5 |
| CombatRegistry.GetAttackData | Core/Combat/Registry/AttackRegistry.cs:47-53 | the entry returned is one of the table's; a registered type gets the entry bearing its own name, any other the None entry with coefficient 0 |
| CombatRegistry.RegisteredTypes | Core/Combat/Registry/AttackRegistry.cs:14-43 | exactly None, RockBody and Fireball are registered |
| CombatRegistry.BasicProjectileFallsBackToNone | Core/Combat/Registry/AttackRegistry.cs:47-53 | BasicProjectile, declared as a type but not registered, falls back to the None entry |
| CombatRegistry.OnlyFireballIsAProjectile | Core/Combat/Registry/AttackRegistry.cs:30-41 | only Fireball carries projectile settings: speed 200 to 200, no acceleration, lifetime 5 |
| CombatAttackDamage.AttackLayer | Core/Combat/Components/AttackDamageComponent.cs:16-21 | an attack never sits on a damage-box layer; the Enemy faction attacks on EnemyAttack and the others on PlayerAttack; Core/Components/AttackDamageComponent.cs:15-20 declares the same map, and its component uses this function |
| CombatAttackDamage.TargetMask | Core/Combat/Components/AttackDamageComponent.cs:23-28 | a faction's attacks target only damage boxes, never their own faction's, and always some |
| CombatAttackDamage.AlliesShareTheirLayers | Core/Combat/Components/AttackDamageComponent.cs:16-28 | Player and Ally attack on the same layer with the same mask; each side targets the other's damage box |
| CombatAttackDamage.AttackHitbox.constructor | Core/Combat/Components/AttackHitboxComponent.cs:11-16 | a hitbox starts with the given layers and no attack result |
| CombatAttackDamage.AttackDamageComponent.constructor | Core/Combat/Components/AttackDamageComponent.cs:30-36 | a component starts with its exports, no faction override and no attack result |
| CombatAttackDamage.AttackDamageComponent.Ready | Core/Combat/Components/AttackDamageComponent.cs:38-48 | without a hitbox nothing happens; an earlier faction override is kept; otherwise the exported faction's layer and mask are applied and the override is recorded |
| CombatAttackDamage.AttackDamageComponent.UpdateStats | Core/Combat/Components/AttackDamageComponent.cs:54-60 | the owner's faction is applied, the raw damage of the owner's stats with this attack becomes the current result, and the hitbox carries that result |
| CombatAttackDamage.AttackDamageComponent.ApplyFaction | Core/Combat/Components/AttackDamageComponent.cs:62-69 | the faction is set; with a hitbox its layer and mask follow the faction and the override is recorded |
| ComponentsAttackDamage.AttackHitbox.constructor | Core/Components/AttackHitboxComponent.cs:10-20 | a hitbox starts with the given layers, no attack result and no damage component |
| ComponentsAttackDamage.AttackDamageComponent.constructor | Core/Components/AttackDamageComponent.cs:21-25 | a component starts with its exports and no attack result |
| ComponentsAttackDamage.AttackDamageComponent.Ready | Core/Components/AttackDamageComponent.cs:28-38 | with a hitbox only its collision layer is set, from the faction, and the hitbox is pointed back at the component; the mask is left alone |
| ComponentsAttackDamage.AttackDamageComponent.UpdateStats | Core/Components/AttackDamageComponent.cs:44-50 | the raw damage of the owner's stats with the registry's data for the attack type becomes the current result, and the hitbox carries it |
| Numerics.Clamp | Core/Combat/Components/AttackSlot.cs:139 | the result lies in the bounds, equals the input inside them and the nearer bound outside |
| Numerics.TruncateTowardZero | Core/Combat/Calculations/AttackCalculator.cs:16 | the integer part toward zero, for positive and negative inputs alike |
| Numerics.TruncateTowardZeroMonotone | Core/Combat/Calculations/AttackCalculator.cs:16 | truncation toward zero never reverses an order |
| Numerics.RoundHalfToEven | Core/Entities/Components/EntityStatsComponent.cs:31-34 | the nearest integer, with ties going to the even one |
| Numerics.Ceiling | Scenes/Player/StateMachine/States/DashState.cs:9-28 | the least integer not below the input |
| PlayerEntity.WalkVelocity | Core/Entities/Components/EntityMovementComponent.cs:10-23 | Move with a direction gives a velocity heading along it at the given speed, StopMovement gives none; the player is stopped exactly when the direction is zero |
| PlayerEntity.MoveOrIdle | Scenes/Player/StateMachine/States/DashState.cs:30-34 | the state asks for Move exactly when a direction is held and for Idle exactly when none is |
| PlayerEntity.Player.constructor | Scenes/Player/Player.cs:5-9 | the player moves at Speed 200 and starts stopped, with no active attack and no requests |
| PlayerIdleState.Next | Scenes/Player/StateMachine/States/IdleState.cs:15-62 | dash with a direction wins; after that a fired non-instant slot asks for Casting, a fired instant one asks for nothing; otherwise a held direction asks for Move; Idle never asks for Idle or Attack |
| PlayerIdleState.InstantFireStaysIdle | Scenes/Player/StateMachine/States/IdleState.cs:29-30 | a fired instant attack keeps the player idle for the frame even while a direction is held |
| PlayerIdleState.DashWithoutDirectionIgnored | Scenes/Player/StateMachine/States/IdleState.cs:23-27 | dash pressed with no direction changes nothing about the frame |
| PlayerIdleState.IdleState.Enter | Scenes/Player/StateMachine/States/IdleState.cs:9-13 | the movement component and the body are stopped and nothing else changes |
| PlayerIdleState.IdleState.PhysicsProcess | Scenes/Player/StateMachine/States/IdleState.cs:15-36 | the body's velocity is held at zero; unless dash wins, a pressed slot is sent to the manager aimed at the mouse and placed 16 units along the aim; the request Next describes is issued and a Casting request records the slot |
| PlayerIdleState.IdleState.TryFireAttack | Scenes/Player/StateMachine/States/IdleState.cs:38-62 | no slot pressed: nothing happens and false; otherwise the fire request is sent; a refusal gives false; a fire gives true, and a non-instant spawner also records the slot and asks for Casting |
| PlayerMoveState.Next | Scenes/Player/StateMachine/States/MoveState.cs:10-58 | dash with a direction wins; after that a fired non-instant key asks for Casting, a fired instant one asks for nothing; otherwise no direction asks for Idle; Move never asks for Move or Attack |
| PlayerMoveState.WalkingNeedsADirection | Scenes/Player/StateMachine/States/MoveState.cs:21-32 | the player walks only with a direction and no dash, and never on a frame that fires an attack |
| PlayerMoveState.MoveState.PhysicsProcess | Scenes/Player/StateMachine/States/MoveState.cs:10-33 | a pressed key is sent to the attack manager unless dash wins; the request Next describes is issued; on a walking frame the movement and body velocity head along the direction at Speed, otherwise they are kept; a Casting request records the key |
| PlayerMoveState.MoveState.TryFireAttack | Scenes/Player/StateMachine/States/MoveState.cs:35-59 | no key pressed: nothing happens and false; otherwise the fire request is sent; null gives false; an attack gives true, and non-instant metadata also records the key and asks for Casting |
| PlayerDashState.RemainingIsStartMinusSum | Scenes/Player/StateMachine/States/DashState.cs:23 | after any run of frames the dash time left is the start minus the frames' sum |
| PlayerDashState.Frames | Scenes/Player/StateMachine/States/DashState.cs:21-23 | k frames of the same length |
| PlayerDashState.FramesSum | Scenes/Player/StateMachine/States/DashState.cs:23 | k frames of length d add up to k times d |
| PlayerDashState.RemainingAfterFrames | Scenes/Player/StateMachine/States/DashState.cs:18-23 | after k equal frames of length d a dash has 0.2 minus k times d left |
| PlayerDashState.CeilingScaled | Scenes/Player/StateMachine/States/DashState.cs:28 | scaling a ceiling's bounds by a positive frame length keeps them |
| PlayerDashState.DashEndsOnFrame | Scenes/Player/StateMachine/States/DashState.cs:18-35 | with equal positive frames a dash ends on frame ceiling(0.2 / d) and on no earlier frame |
| PlayerDashState.DashState.constructor | Scenes/Player/StateMachine/States/DashState.cs:11 | no dash time is left before the first dash |
| PlayerDashState.DashState.Enter | Scenes/Player/StateMachine/States/DashState.cs:13-19 | the movement and body velocity head along the input direction at 600 and 0.2 seconds of dash begin |
| PlayerDashState.DashState.PhysicsProcess | Scenes/Player/StateMachine/States/DashState.cs:21-36 | the frame comes off the dash time, the body takes the movement velocity, and once the time is at or below zero the state asks for Move or Idle by the direction held |
| PlayerCastingState.AllowsMovement | Scenes/Player/StateMachine/States/CastingState.cs:21-22 | movement is allowed exactly when metadata exists and allows movement during the cast; missing metadata roots the player |
| PlayerCastingState.CastingState.constructor | Scenes/Player/StateMachine/States/CastingState.cs:9-10 | no key is held, movement is not allowed and no handler is connected |
| PlayerCastingState.CastingState.Enter | Scenes/Player/StateMachine/States/CastingState.cs:12-31 | the player's active key is taken; without one the state asks for Idle; with one the movement flag follows the metadata, the cast handler is connected, and a rooted cast stops the player |
| PlayerCastingState.CastingState.Exit | Scenes/Player/StateMachine/States/CastingState.cs:33-38 | the handler is disconnected and both the state's and the player's active key are cleared |
| PlayerCastingState.CastingState.PhysicsProcess | Scenes/Player/StateMachine/States/CastingState.cs:40-65 | dash with a direction asks for Dash; otherwise a cast that allows movement walks or stops by the direction, and a rooted one leaves the velocities alone |
| PlayerCastingState.CastingState.OnCastCompleted | Scenes/Player/StateMachine/States/CastingState.cs:67-77 | a completion under another key is ignored; the state's own key asks for Move or Idle by the direction held |
| PlayerCastingState.RootedCastWaitsForItsOwnKey | Scenes/Player/StateMachine/States/CastingState.cs:12-77 | a rooted cast stops the player, ignores another key's completion and asks for Move on its own key's completion with a direction held |
| PlayerAttackState.AttackState.constructor | Scenes/Player/StateMachine/States/AttackState.cs:9 | no cooldown is pending before the first Enter |
| PlayerAttackState.AttackState.Enter | Scenes/Player/StateMachine/States/AttackState.cs:11-25 | exactly one projectile is spawned, aimed at the mouse, 16 units along the aim, with the player's stats; the cooldown starts at the player's attack cooldown |
| PlayerAttackState.AttackState.PhysicsProcess | Scenes/Player/StateMachine/States/AttackState.cs:27-60 | the frame comes off the cooldown; dash with a direction asks for Dash at once; otherwise the player walks or stops, and Move or Idle is asked for only once the cooldown is at or below zero |
| BasicEnemy.AfterEntered | Scenes/Enemies/BasicEnemy/BasicEnemy.cs:33-38 | a Player entering becomes the target; any other body leaves the target as it was |
| BasicEnemy.AfterExited | Scenes/Enemies/BasicEnemy/BasicEnemy.cs:40-44 | the target is cleared exactly when the body leaving is the target |
| BasicEnemy.OnlyPlayersAreTargeted | Scenes/Enemies/BasicEnemy/BasicEnemy.cs:33-44 | whatever bodies come and go, the target is always a Player or nothing |
| BasicEnemy.OthersLeavingKeepTheTarget | Scenes/Enemies/BasicEnemy/BasicEnemy.cs:33-44 | non-players entering and other bodies leaving never lose the current target |
| BasicEnemy.BasicEnemy.constructor | Scenes/Enemies/BasicEnemy/BasicEnemy.cs:10-13 | the enemy moves at Speed 50 and starts stopped, with no target and no handlers connected |
| BasicEnemy.BasicEnemy.Ready | Scenes/Enemies/BasicEnemy/BasicEnemy.cs:15-22 | the detection handlers are connected exactly when a detection area is set |
| BasicEnemy.BasicEnemy.OnDetectionAreaBodyEntered | Scenes/Enemies/BasicEnemy/BasicEnemy.cs:33-38 | the target becomes AfterEntered of the old one and stays a Player or nothing |
| BasicEnemy.BasicEnemy.OnDetectionAreaBodyExited | Scenes/Enemies/BasicEnemy/BasicEnemy.cs:40-44 | the target becomes AfterExited of the old one and stays a Player or nothing |
| BasicEnemy.BasicEnemy.PhysicsProcess | Scenes/Enemies/BasicEnemy/BasicEnemy.cs:24-31 | without a target nothing changes; with one the velocity heads for the target's position at Speed |
| BasicEnemy.SecondPlayerTakesOver | Scenes/Enemies/BasicEnemy/BasicEnemy.cs:33-44 | a second Player entering replaces the first as the target, and the first leaving afterwards does not clear it |
| EnemyIdleState.Next | Scenes/Enemies/BasicEnemy/StateMachine/States/IdleState.cs:18-21 | Idle asks for a state exactly when there is a target, and that state is Chasing |
| EnemyIdleState.IdleState.Enter | Scenes/Enemies/BasicEnemy/StateMachine/States/IdleState.cs:8-11 | the enemy is stopped and nothing else changes |
| EnemyIdleState.IdleState.PhysicsProcess | Scenes/Enemies/BasicEnemy/StateMachine/States/IdleState.cs:13-22 | the enemy is held still and asks for Chasing once it has a target |
| EnemyChasingState.Next | Scenes/Enemies/BasicEnemy/StateMachine/States/ChasingState.cs:10-14 | Chasing asks for a state exactly when the target is lost, and that state is Idle |
| EnemyChasingState.ChasingState.PhysicsProcess | Scenes/Enemies/BasicEnemy/StateMachine/States/ChasingState.cs:8-19 | without a target it asks for Idle and keeps its velocity; with one it heads for the target at Speed |
| EnemyAttackingState.Next | Scenes/Enemies/BasicEnemy/StateMachine/States/AttackingState.cs:19-35 | a lost target asks for Idle; with a target, Chasing is asked for exactly when the distance exceeds the attack range, and nothing within range |
| EnemyAttackingState.AttackingIsUnreachable | Scenes/Enemies/BasicEnemy/StateMachine/States/IdleState.cs:18-21 | no state asks for Attacking, so an enemy that starts elsewhere never reaches it, whatever frames follow |
| EnemyAttackingState.LosingTheTargetWinsOverRange | Scenes/Enemies/BasicEnemy/StateMachine/States/AttackingState.cs:22-26 | a lost target sends the attacking enemy to Idle whatever the distance |
| EnemyAttackingState.AttackingState.Enter | Scenes/Enemies/BasicEnemy/StateMachine/States/AttackingState.cs:13-17 | the enemy is stopped (not slowed, whatever the comment says) and nothing else changes |
| EnemyAttackingState.AttackingState.PhysicsProcess | Scenes/Enemies/BasicEnemy/StateMachine/States/AttackingState.cs:19-44 | the request Next describes is issued; within range the enemy creeps toward the target at 0.4 of its speed and asks for a body attack along the normalized direction; otherwise its velocity and attacks are kept |
| Attacks.WithHit | Core/Combat/Attacks/Attack.cs:80-86 | after a hit the target is on the table and cannot be hit again; with a hit cooldown its timer holds the full cooldown (one-shot attacks block it for good); every other target's entry and hittability are unchanged |
| Attacks.AbsentStaysAbsent | Core/Combat/Attacks/Attack.cs:88-101 | frames never add a target to the cooldown table |
| Attacks.TimerRunsOutAfterItsSeconds | Core/Combat/Attacks/Attack.cs:72-101 | with a hit cooldown and non-negative frames, a target still counting down becomes hittable again exactly when the frames add up to the time it had left |
| Attacks.HitCooldownWindow | Core/Combat/Attacks/Attack.cs:72-101 | with a hit cooldown, a target just hit is blocked until the frames add up to the cooldown and hittable exactly from then on |
| Attacks.OneShotStaysBlocked | Core/Combat/Attacks/Attack.cs:74-90 | without a hit cooldown frames leave the table alone, and a target once hit is never hit again |
| Attacks.LifetimeEndsWhenSpent | Core/Combat/Attacks/Attack.cs:55-61 | a limited lifetime runs out within a run of non-negative frames exactly when the frames add up to it |
| Attacks.Attack.constructor | Core/Combat/Attacks/Attack.cs:36-45 | _Ready starts the lifetime timer at the lifetime and the result at the base damage of the attack, with no target on cooldown |
| Attacks.Attack.Process | Core/Combat/Attacks/Attack.cs:47-65 | a limited, non-permanent lifetime loses the frame and frees the attack once at or below zero; the hit cooldowns tick; the result is kept |
| Attacks.Attack.UpdateStats | Core/Combat/Attacks/Attack.cs:67-70 | the result becomes AttackCalculator.Calculate of the entity's and grimoire's stats and nothing else changes |
| Attacks.Attack.RegisterHit | Core/Combat/Attacks/Attack.cs:80-86 | the cooldown table becomes WithHit of the old one |
| Attacks.Attack.UpdateCooldowns | Core/Combat/Attacks/Attack.cs:88-101 | every timer loses the frame and the ones at or below zero are removed; a one-shot attack's table is left alone |
| Attacks.Attack.OnAttackAreaEntered | Core/Combat/Attacks/Attack.cs:103-109 | the attack frees itself exactly when a hurtbox entered and it is destroyed on hit |
| Hurtbox.HurtboxComponent.constructor | Core/Components/Hurtbox/HurtboxComponent.cs:10-13 | a new hurtbox has received nothing |
| Hurtbox.HurtboxComponent.ReceiveAttack | Core/Components/Hurtbox/HurtboxComponent.cs:18-25 | an attack that can hit this hurtbox registers the hit and AttackReceived carries its result; otherwise nothing happens |
| Hurtbox.HurtboxComponent.OnHurtboxAreaEntered | Core/Components/Hurtbox/HurtboxComponent.cs:27-36 | an area that is not an attack is ignored; an attack is gated exactly as in ReceiveAttack |
| Hurtbox.OneShotHitsEachHurtboxOnce | Core/Components/Hurtbox/HurtboxComponent.cs:18-36 | an attack without hit cooldown delivers at most one hit to a hurtbox over any run of contacts and frames, and none to one it already hit |
| StatsComponent.AfterHit | Core/Components/Stats/StatsComponent.cs:54-66 | an invincible entity is untouched; otherwise health drops by the final damage to a floor of 0, HealthChanged is emitted, Died follows exactly when health is 0, and invincibility starts exactly when the duration is positive |
| StatsComponent.SecondHitInWindowIgnored | Core/Components/Stats/StatsComponent.cs:56-65 | with a positive duration a second hit inside the invincibility window changes nothing |
| StatsComponent.HitNeverHeals | Core/Components/Stats/StatsComponent.cs:58 | a non-negative hit never raises health |
| StatsComponent.DiesAgainAtZero | Core/Components/Stats/StatsComponent.cs:58-62 | a hit on an entity already at zero health emits Died again |
| StatsComponent.StatsComponent.constructor | Core/Components/Stats/StatsComponent.cs:27-43 | _Ready takes the maximum health from the stats and starts without invincibility |
| StatsComponent.StatsComponent.UpdateBaseStats | Core/Components/Stats/StatsComponent.cs:45-50 | the stats are replaced, the maximum health follows them and StatsUpdated is emitted; health is kept |
| StatsComponent.StatsComponent.TakeDamage | Core/Components/Stats/StatsComponent.cs:54-66 | health, invincibility, signals and timer starts become AfterHit of the old ones |
| StatsComponent.StatsComponent.StartInvincibility | Core/Components/Stats/StatsComponent.cs:76-81 | the entity becomes invincible, the timer starts for the duration and InvincibilityStarted is emitted |
| StatsComponent.StatsComponent.OnInvincibilityEnded | Core/Components/Stats/StatsComponent.cs:83-87 | InvincibilityEnded is emitted and the entity can be hit again |
| EnemyComponentManager.Grimoire.constructor | Scenes/Enemies/ComponentManager.cs:17 | a grimoire has received no stats |
| EnemyComponentManager.Grimoire.UpdateEntityStats | Scenes/Enemies/ComponentManager.cs:29 | the stats passed are recorded |
| EnemyComponentManager.ComponentManager.constructor | Scenes/Enemies/ComponentManager.cs:15-17 | the exports are kept and no handler is connected |
| EnemyComponentManager.ComponentManager.Ready | Scenes/Enemies/ComponentManager.cs:19-62 | a missing stats component throws first; a missing hurtbox throws after the stats handlers are connected; otherwise both are connected and the grimoire, if any, gets the stats |
| EnemyComponentManager.ComponentManager.OnAttackReceived | Scenes/Enemies/ComponentManager.cs:40-50 | the stats component takes AfterHit of the defender-side damage computed from its own stats |
| EnemyComponentManager.ComponentManager.OnStatsUpdated | Scenes/Enemies/ComponentManager.cs:64-67 | the grimoire, if any, gets the current stats |
| EnemyComponentManager.BlockedHitStillGrantsInvincibility | Scenes/Enemies/ComponentManager.cs:40-50 | a hit the defense blocks takes no health from a living enemy but still makes it invincible when the duration is positive |
| StateMachine.RegistryKeepsLastStateOfEachName | Core/Entities/StateMachine/StateMachine.cs:18-26 | every state child is registered under its name, and a name shared by several children maps to the last of them |
| StateMachine.InitCalls | Core/Entities/StateMachine/StateMachine.cs:18-26 | Init is called at most once per child and only on state children |
| StateMachine.Change | Core/Entities/StateMachine/StateMachine.cs:29-40 | an unknown name fails; otherwise the registry is kept, the named state becomes current, earlier calls are kept and the last call is its Enter |
| StateMachine.NestedChangeLandsOnInnerTarget | Core/Entities/StateMachine/StateMachine.cs:29-40 | a change issued from inside another lands on the inner target |
| StateMachine.SelfChangeReenters | Core/Entities/StateMachine/StateMachine.cs:37-39 | changing to the current state exits and re-enters it |
| StateMachine.StateMachine.constructor | Core/Entities/StateMachine/StateMachine.cs:11-12 | the machine starts with no states and no current state |
| StateMachine.StateMachine.Ready | Core/Entities/StateMachine/StateMachine.cs:14-27 | the children's registry is added and their Init calls made; the current state is kept |
| StateMachine.StateMachine.ChangeState | Core/Entities/StateMachine/StateMachine.cs:29-40 | it throws, changing nothing, exactly when Change fails; otherwise the machine becomes Change of the old one |
| StateMachine.StateMachine.ProcessTick | Core/Entities/StateMachine/StateMachine.cs:42-45 | the current state, if any, gets Process with the frame time |
| StateMachine.StateMachine.PhysicsTick | Core/Entities/StateMachine/StateMachine.cs:47-50 | the current state, if any, gets PhysicsProcess with the frame time |
| StateMachine.DuplicateNameAndUnknownState | Core/Entities/StateMachine/StateMachine.cs:18-40 | with two children of one name the later one is registered, both are initialised, and an unknown state throws |
| BaseGenerator.Step | Core/Combat/Attacks/Generators/BaseGenerator.cs:27-34 | a running timer loses the frame; when the timer is at or below zero after that, including one that crossed zero during this frame, the generator spawns exactly when it has a prefab; a spawn resets the timer to the cooldown, and otherwise the lowered timer is kept |
| BaseGenerator.Spawns | Core/Combat/Attacks/Generators/BaseGenerator.cs:27-34 | at most one spawn per frame |
| BaseGenerator.NoPrefabNoSpawns | Core/Combat/Attacks/Generators/BaseGenerator.cs:42-44 | without a prefab nothing is ever spawned |
| BaseGenerator.NoPrefabTimerStaysExpired | Core/Combat/Attacks/Generators/BaseGenerator.cs:29-44 | without a prefab an expired timer stays where it is, so TrySpawn runs every frame |
| BaseGenerator.NoSpawnBeforeCooldown | Core/Combat/Attacks/Generators/BaseGenerator.cs:29-33 | frames that add up to less than the time left spawn nothing |
| BaseGenerator.SpawnOnceCooldownRunsOut | Core/Combat/Attacks/Generators/BaseGenerator.cs:27-44 | with a prefab, a non-empty run of frames that adds up to at least the time left spawns at least once |
| BaseGenerator.FirstFrameSpawns | Core/Combat/Attacks/Generators/BaseGenerator.cs:22-33 | after _Ready the first frame spawns and restarts the cooldown |
| BaseGenerator.BaseGenerator.constructor | Core/Combat/Attacks/Generators/BaseGenerator.cs:14-19 | the spawn cooldown defaults to 1 and nothing has been generated |
| BaseGenerator.BaseGenerator.Ready | Core/Combat/Attacks/Generators/BaseGenerator.cs:22-25 | the timer is zero, so the generator can spawn |
| BaseGenerator.BaseGenerator.UpdateStats | Core/Combat/Attacks/Generators/BaseGenerator.cs:36-40 | the entity and grimoire stats are stored and nothing else changes |
| BaseGenerator.BaseGenerator.TrySpawn | Core/Combat/Attacks/Generators/BaseGenerator.cs:42-56 | without a prefab nothing happens; otherwise one instance carrying the stored stats is added and the timer restarts at the cooldown |
| BaseGenerator.BaseGenerator.Process | Core/Combat/Attacks/Generators/BaseGenerator.cs:27-34 | the timer and the instances follow one Step |
| EntitiesEntityStats.TakeHit | Core/Entities/Components/EntityStatsComponent.cs:53-57 | health drops by the final damage to a floor of 0; HealthChanged carries the new health, and EntityDied follows exactly when it is 0 |
| EntitiesEntityStats.HitsAddUp | Core/Entities/Components/EntityStatsComponent.cs:49-58 | non-negative hits in a row leave the health at its start minus their total, floored at 0 |
| EntitiesEntityStats.TotalNonNegative | Core/Entities/Components/EntityStatsComponent.cs:53 | the total of non-negative hits is non-negative |
| EntitiesEntityStats.DiesAgainAtZero | Core/Entities/Components/EntityStatsComponent.cs:53-57 | a hit at zero health emits HealthChanged(0) and EntityDied again |
| EntitiesEntityStats.ScaledMaxHealth | Core/Entities/Components/EntityStatsComponent.cs:25-31 | the maximum health is within one half of vitality times the health multiplier, and with the default multiplier of 1 it is the vitality |
| EntitiesEntityStats.Recalculated | Core/Entities/Components/EntityStatsComponent.cs:63-70 | health never rises: it is kept when within the new maximum and lowered to it otherwise |
| EntitiesEntityStats.EntityStatsComponent.constructor | Core/Entities/Components/EntityStatsComponent.cs:20-28 | both multipliers start at 1, with no health and no signals |
| EntitiesEntityStats.EntityStatsComponent.AttackPower | Core/Entities/Components/EntityStatsComponent.cs:28-34 | the attack power is within one half of the attack stat times the damage multiplier, and with the default multiplier of 1 it is the attack stat |
| EntitiesEntityStats.EntityStatsComponent.Ready | Core/Entities/Components/EntityStatsComponent.cs:36-47 | missing stats throw and leave health alone; otherwise health starts at the maximum |
| EntitiesEntityStats.EntityStatsComponent.SetMultipliers | Core/Entities/Components/EntityStatsComponent.cs:25-28 | the multipliers are set and health is left alone |
| EntitiesEntityStats.EntityStatsComponent.TakeDamage | Core/Entities/Components/EntityStatsComponent.cs:49-58 | health and the emitted signals follow TakeHit of the final damage |
| EntitiesEntityStats.EntityStatsComponent.RecalculateStats | Core/Entities/Components/EntityStatsComponent.cs:63-70 | health becomes Recalculated against the new maximum and StatsUpdated is emitted |
| EntitiesEntityStats.EntityStatsComponent.ResetStats | Core/Entities/Components/EntityStatsComponent.cs:72-75 | health returns to the maximum |
| EntitiesEntityStats.RaisedMultiplierDoesNotHeal | Core/Entities/Components/EntityStatsComponent.cs:63-70 | raising the health multiplier lifts the maximum to 120 but leaves a wounded entity at 70 |
| ComponentsEntityStats.EntityStatsComponent.constructor | Core/Components/EntityStatsComponent.cs:20-22 | a component starts with no health and no signals |
| ComponentsEntityStats.EntityStatsComponent.Ready | Core/Components/EntityStatsComponent.cs:24-35 | missing stats throw and leave health alone; otherwise health starts at the vitality stat |
| ComponentsEntityStats.EntityStatsComponent.TakeDamage | Core/Components/EntityStatsComponent.cs:38-49 | health and the emitted signals follow TakeHit of the final damage |
| ComponentsEntityStats.EntityStatsComponent.ResetStats | Core/Components/EntityStatsComponent.cs:51-54 | health returns to the vitality stat |
| ComponentsEntityStats.SetupThenLethalHit | Core/Components/EntityStatsComponent.cs:24-49 | setup without stats throws; a lethal hit leaves 0 health and emits HealthChanged(0) then EntityDied |
| ArtifactManager.SlotTotal | Core/Artifacts/ArtifactManager.cs:21 | nothing equipped uses no slots |
| ArtifactManager.SlotTotalCoversEach | Core/Artifacts/ArtifactManager.cs:21 | the slots used cover each equipped artifact's own cost |
| ArtifactManager.RemoveFirst | Core/Artifacts/ArtifactManager.cs:46 | List.Remove drops one occurrence of the artifact when present, and changes nothing otherwise |
| ArtifactManager.SlotTotalAfterRemove | Core/Artifacts/ArtifactManager.cs:20-46 | removing an equipped artifact frees exactly its slot cost |
| ArtifactManager.SlotTotalOfCons | Core/Artifacts/ArtifactManager.cs:21 | the slots used by a list are its head's cost plus the rest's |
| ArtifactManager.LoadOwned | Core/Artifacts/ArtifactManager.cs:84-91 | at most one artifact per path, and each one is what some path loads to |
| ArtifactManager.LoadEquipped | Core/Artifacts/ArtifactManager.cs:93-100 | every artifact equipped on load is owned |
| ArtifactManager.Paths | Core/Artifacts/ArtifactManager.cs:73-76 | the resource path of each artifact, in order |
| ArtifactManager.OwnedRoundTrip | Core/Artifacts/ArtifactManager.cs:73-91 | saving the owned paths and loading them back gives the same owned list, when every path loads to its artifact |
| ArtifactManager.EquippedRoundTrip | Core/Artifacts/ArtifactManager.cs:76-100 | saving the equipped paths and loading them back against the owned list gives the same equipped list |
| ArtifactManager.LoadKeepsDuplicates | Core/Artifacts/ArtifactManager.cs:93-100 | loading does not check for duplicates or slots: a path listed twice is equipped twice |
| ArtifactManager.ArtifactManager.constructor | Core/Artifacts/ArtifactManager.cs:16-19 | nothing owned or equipped, and one slot |
| ArtifactManager.ArtifactManager.UsedSlots | Core/Artifacts/ArtifactManager.cs:21 | the slots used cover each equipped artifact's cost |
| ArtifactManager.ArtifactManager.Equip | Core/Artifacts/ArtifactManager.cs:26-42 | it succeeds exactly when CanEquip holds (present, owned, not equipped, and fitting the free slots), and then appends the artifact; it accepts any state, and a state whose equipped artifacts are owned, distinct and within the slots stays so |
| ArtifactManager.ArtifactManager.Unequip | Core/Artifacts/ArtifactManager.cs:44-51 | it accepts any state and succeeds exactly when the artifact is equipped; it then removes the first copy, freeing exactly its cost, and the artifact is no longer equipped when the list had no duplicates; a valid state stays valid |
| ArtifactManager.ArtifactManager.AddOwned | Core/Artifacts/ArtifactManager.cs:53-60 | a present artifact not yet owned is appended; anything else changes nothing; equipped is untouched, so a valid state stays valid |
| ArtifactManager.ArtifactManager.OwnedPaths | Core/Artifacts/ArtifactManager.cs:73 | one path per owned artifact, in order |
| ArtifactManager.ArtifactManager.EquippedPaths | Core/Artifacts/ArtifactManager.cs:76 | one path per equipped artifact, in order |
| ArtifactManager.ArtifactManager.LoadFromPaths | Core/Artifacts/ArtifactManager.cs:79-101 | both lists are cleared; owned becomes every loadable path's artifact, and equipped every loadable path whose artifact is owned; the slot count is kept |
| ArtifactManager.SlotBudgetIsEnforced | Core/Artifacts/ArtifactManager.cs:20-41 | with one slot, the first one-slot artifact is equipped and uses the slot, and a second one is refused |
| ArtifactManager.UnequipFreesTheSlot | Core/Artifacts/ArtifactManager.cs:20-50 | unequipping the only artifact succeeds and frees its slot, so another one-slot artifact can then be equipped |
| ArtifactManager.UnequipAfterDuplicateLoad | Core/Artifacts/ArtifactManager.cs:26-100 | after a load that equips an artifact twice, Unequip succeeds but the artifact stays equipped, and equipping it again is refused |
| InventoryManager.Quantity | Autoload/InventoryManager.cs:37-40 | the stored count, and 0 for an absent item |
| InventoryManager.Added | Autoload/InventoryManager.cs:18-22 | the item's count becomes its old count (0 when absent) plus the amount; every other item is unchanged |
| InventoryManager.Removed | Autoload/InventoryManager.cs:24-30 | it fails exactly when the item is missing or short of the amount; otherwise the count drops by the amount and the item is deleted once at or below zero |
| InventoryManager.AddThenRemoveRestores | Autoload/InventoryManager.cs:18-30 | adding a positive amount and then removing it gives back the inventory it started from |
| InventoryManager.AddThenRemoveDropsAZeroCount | Autoload/InventoryManager.cs:18-30 | a loaded zero count does not survive an add and remove of the same amount: the item is deleted |
| InventoryManager.PositiveCountsKept | Autoload/InventoryManager.cs:18-30 | with positive counts, a positive add and any successful remove keep every count positive |
| InventoryManager.InventoryManager.constructor | Autoload/InventoryManager.cs:16 | the inventory starts empty |
| InventoryManager.InventoryManager.AddItem | Autoload/InventoryManager.cs:18-22 | the inventory becomes Added of the old one |
| InventoryManager.InventoryManager.RemoveItem | Autoload/InventoryManager.cs:24-30 | it succeeds exactly when Removed does, and then the inventory becomes that; otherwise nothing changes |
| InventoryManager.InventoryManager.GetQuantity | Autoload/InventoryManager.cs:37-40 | the stored count, 0 for an absent item |
| InventoryManager.InventoryManager.GetAllItems | Autoload/InventoryManager.cs:42 | a copy with the same items and counts |
| InventoryManager.InventoryManager.Load | Autoload/InventoryManager.cs:44-47 | the inventory becomes a copy of the input, or empty for null |
| InventoryManager.SnapshotIsIndependent | Autoload/InventoryManager.cs:42 | a copy taken before a removal keeps the old count |
| InventoryManager.DefaultAmountIsOne | Autoload/InventoryManager.cs:18-40 | without an amount each call counts one item: two adds and one remove leave a count of 1 |
| EconomyManager.Floored | Core/Economy/EconomyManager.cs:14-18 | the setter's Max(0, value): non-negative values kept, negative ones become 0 |
| EconomyManager.NeverNegative | Core/Economy/EconomyManager.cs:14-48 | from a non-negative balance no run of adds, spends and loads makes it negative |
| EconomyManager.AddThenSpendRestores | Core/Economy/EconomyManager.cs:27-42 | adding and then spending the same positive amount restores the balance |
| EconomyManager.EconomyManager.constructor | Core/Economy/EconomyManager.cs:12 | the balance starts at 0 with no events |
| EconomyManager.EconomyManager.AddIsotopes | Core/Economy/EconomyManager.cs:27-32 | a non-positive amount changes nothing and fires nothing; otherwise the balance rises by the amount and one event carries the new total |
| EconomyManager.EconomyManager.SpendIsotopes | Core/Economy/EconomyManager.cs:34-42 | it succeeds exactly when the amount is positive and affordable, then the balance drops by it and one event carries the new total; otherwise nothing changes |
| EconomyManager.EconomyManager.Load | Core/Economy/EconomyManager.cs:45-48 | the balance becomes the saved one floored at 0 and no event fires |
| ProgressionManager.HealthMultiplier | Autoload/ProgressionManager.cs:24 | 1 + 0.2 per resonance: at least 1 for a non-negative count, below 1 for a negative one |
| ProgressionManager.DamageMultiplier | Autoload/ProgressionManager.cs:25 | 1 + 0.1 per resonance: at least 1 for a non-negative count, below 1 for a negative one |
| ProgressionManager.MultipliersGrow | Autoload/ProgressionManager.cs:24-25 | both multipliers never decrease with more resonances, and health grows twice as fast as damage |
| ProgressionManager.ProgressionManager.constructor | Autoload/ProgressionManager.cs:11-12 | elevation 1 and no resonances |
| ProgressionManager.ProgressionManager.ActivateResonance | Autoload/ProgressionManager.cs:14-17 | one more resonance; elevation unchanged |
| ProgressionManager.ProgressionManager.AdvanceElevation | Autoload/ProgressionManager.cs:19-22 | one more elevation; resonances unchanged |
| ProgressionManager.ProgressionManager.Load | Autoload/ProgressionManager.cs:27-31 | both counters are set verbatim |
| ProgressionManager.LoadIsNotValidated | Autoload/ProgressionManager.cs:24-31 | two resonances give 1.4 and 1.2; loading -5 resonances is accepted and gives a health multiplier of 0 |
| GameManager.LoadedMeta | Autoload/GameManager.cs:26-29 | the saved meta data when there is one, else fresh meta data (version 1, no money) |
| GameManager.GameManager.constructor | Autoload/GameManager.cs:20-29 | _Ready loads the meta data with that fallback and has saved nothing |
| GameManager.GameManager.PlayerDied | Autoload/GameManager.cs:36-40 | the start menu is requested; money is not reset, whatever the log message says, and nothing is saved |
| GameManager.GameManager.AddMoney | Autoload/GameManager.cs:42-49 | a non-positive amount changes nothing and does not save; otherwise money rises by the amount and the new meta data is saved |
| GameManager.GameManager.SpendMoney | Autoload/GameManager.cs:51-60 | it succeeds exactly when the amount is positive and affordable, then money drops by it and is saved; otherwise nothing changes; money never goes below zero from a non-negative start |
| GameManager.MoneySurvivesDeath | Autoload/GameManager.cs:36-60 | money earned before a death is still there after it; an unaffordable spend is refused; each change is saved once |
| MilestoneManager.Collapse | Autoload/MilestoneManager.cs:34-37 | the set holds exactly the milestones listed |
| MilestoneManager.RepeatsCollapse | Autoload/MilestoneManager.cs:36 | a milestone listed twice is stored once |
| MilestoneManager.MilestoneManager.constructor | Autoload/MilestoneManager.cs:27 | no milestone is completed |
| MilestoneManager.MilestoneManager.CompleteMilestone | Autoload/MilestoneManager.cs:29-32 | the milestone is added and no other is removed |
| MilestoneManager.MilestoneManager.LoadMilestones | Autoload/MilestoneManager.cs:34-37 | the set is replaced by the milestones listed |
| MilestoneManager.CompleteIsIdempotent | Autoload/MilestoneManager.cs:29-37 | completing a milestone twice is completing it once, and a later load forgets milestones it does not list |
| GameStateManager.GameStateManager.constructor | Autoload/GameStateManager.cs:46 | no milestone is completed |
| GameStateManager.GameStateManager.CompleteMilestone | Autoload/GameStateManager.cs:30-33 | the milestone is added and no other is removed |
| GameStateManager.GameStateManager.LoadMilestones | Autoload/GameStateManager.cs:35-38 | the set is replaced by the milestones listed |
| GameStateManager.GameStateManager.Complete | Autoload/GameStateManager.cs:20-23 | Complete does what CompleteMilestone does |
| GameStateManager.CompleteThenQuery | Autoload/GameStateManager.cs:15-23 | a completed milestone reports completed and the other does not |
| AbilityManager.AbilityManager.constructor | Autoload/AbilityManager.cs:15-58 | the loadout is exactly the basic attack bound to the projectile scene |
| AbilityManager.AbilityManager.EquipAbility | Autoload/AbilityManager.cs:20-23 | the key is bound to the scene, overwriting any earlier binding; other keys are unchanged |
| AbilityManager.AbilityManager.UnequipAbility | Autoload/AbilityManager.cs:25-28 | only that key is removed, and an absent key changes nothing |
| AbilityManager.AbilityManager.GetAbilityScene | Autoload/AbilityManager.cs:35-43 | the bound scene exactly when the key has an ability, and null otherwise |
| AbilityManager.LoadoutOperations | Autoload/AbilityManager.cs:15-43 | the default binding is there; a copy taken before an unequip keeps both bindings; an unequipped key has no scene |
| SceneExtensionManager.TowerLevelToGameScene | Core/SceneExtensionManager.cs:53-56 | the mapped scene for a mapped level, and TowerLevel0 for any other |
| SceneExtensionManager.EveryLevelHasAScenePath | Core/SceneExtensionManager.cs:37-56 | whatever the level, the scene it leads to has a resource path |
| SceneExtensionManager.UnmappedLevelsFallBack | Core/SceneExtensionManager.cs:42-46 | only Level0 is mapped, so every level leads to the scene Level0 leads to |
| SceneExtensionManager.OnlyTheStartMenu | Core/SceneExtensionManager.cs:32-35 | the menu table holds exactly the start menu |
| SerializableStats.SerializableStats.constructor | Core/GameData/SerializableStats.cs:7-9 | the defaults are 100 health, 1 attack and 10 defense |
| SerializableStats.SerializableStats.CopyFrom | Core/GameData/SerializableStats.cs:11-17 | a null source changes nothing; otherwise all three values are those of the source |
| SerializableStats.CopyKeepsDefaultsOnNull | Core/GameData/SerializableStats.cs:7-17 | copying from null keeps the defaults, and a later copy takes the source's values |
| SerializableStats.CopyIsIdempotent | Core/GameData/SerializableStats.cs:11-17 | copying the same stats twice leaves what copying them once left, which is those stats |
| GameData.NewGameData | Core/GameData/GameData.cs:12-17 | a new record has version 1, no play time and Level0 as its level |
| GameData.Quot | Core/GameData/GameData.cs:21-27 | C#'s integer division truncates toward zero: for a non-negative dividend it is floor division, and for a negative one the part left over lies between minus the divisor and zero |
| GameData.WholeSeconds | Core/GameData/GameData.cs:23 | the whole seconds of the play time, with the fraction dropped toward zero for either sign |
| GameData.Rem | Core/GameData/GameData.cs:21-27 | C#'s remainder: quotient times divisor plus remainder gives the dividend back, and the remainder has the dividend's sign and is smaller than the divisor |
| GameData.ClockOf | Core/GameData/GameData.cs:23-26 | for non-negative time the hours lie in 0..23 and the minutes and seconds in 0..59; negative time gives non-positive hours |
| GameData.DayRemainder | Core/GameData/GameData.cs:23-26 | the hours, minutes and seconds add back up to the total modulo one day |
| GameData.D2 | Core/GameData/GameData.cs:25-26 | a number below 100 becomes its two digits with a leading zero; a negative one gets a minus sign in front of its padded magnitude |
| GameData.FormatPlayTime | Core/GameData/GameData.cs:21-27 | the text is HH:MM:SS when the hours component is positive and MM:SS otherwise |
| GameData.GroupOfD2 | Core/GameData/GameData.cs:25-26 | a two-digit group reads back as the number written |
| GameData.FormatReadsBack | Core/GameData/GameData.cs:21-27 | for non-negative play time the text reads back as the whole seconds modulo one day: only whole days and fractions are lost |
| GameData.WholeDaysAreDropped | Core/GameData/GameData.cs:21-27 | one day shows as 00:00, and a day and an hour as 01:00:00 |
| GameData.NegativeTimeShowsSigns | Core/GameData/GameData.cs:21-27 | five seconds of negative play time shows as 00:-05 |

## Left out

- Float arithmetic: timers, speeds and multipliers are exact reals, so C# `float`
  rounding is not modelled. This includes 0.1-second steps that do not add up exactly.
- The `float.MaxValue` timer of a one-shot attack is the marker `Attacks.HitTimer.Never`,
  not a very large number.
- 32-bit integer overflow is not modelled. Health, damage, money, isotopes and counters are
  unbounded integers.
- `Mathf.RoundToInt` is modelled by `Numerics.RoundHalfToEven` on the exact product of a stat
  and its multiplier. The float rounding of that product before it is rounded to an
  integer is not modelled.
- Vectors.Normalize: tags a vector as normalized and keeps it. Unit length is not modelled,
  because `Vector2.Normalized()` needs a float square root.
- Vectors.Toward: the velocity `direction.Normalized() * speed` is kept as a heading and a
  speed. Its length is not modelled, for the same reason.
- Vector kinematics:
  - normalization is symbolic: a vector is tagged normalized, its length is not computed;
  - the distance to the target and the target's position are inputs;
  - `MoveAndSlide`, physics and the movement components are not part of this model;
  - the player's own frame handling in Player.cs is not part of this model.
- Input: the input component and the mouse position are inputs to each frame.
- The scene tree and resources:
  - instantiating a scene, adding it as a child and `QueueFree` become log entries and flags;
  - `GD.Load` is a map from resource paths to scenes, given as a parameter.
- Attack managers: the player's and the enemy's attack managers derive from a base class
  that is not part of this model. Their `TryFire` replies are parameters of the states
  that call them.
- The damage calculator's `CalculateRawDamage` and `CalculateFinalDamage` are called
  but not defined in this snapshot. Their results are parameters of the members that
  use them.
- Persistence: SaveManager (JSON file I/O) and SceneManager are not part of this model.
  A save is a recorded request carrying the saved data, and a scene change is a
  recorded menu request.
- UI and menus are not part of this model: the artifacts and bonfire menus, the debug
  overlay, the HUD, save selection, the start menu, Main and the save button.
- Collision wiring with no decision logic is not part of this model:
  - the three attack hitbox components;
  - Core/Components/HurtboxComponent.cs;
  - the projectile, fireball and rock bodies, and the grimoire;
  - the bonfire, elevation item, resonance trigger, isotope pickup and level scripts;
  - Scenes/Player/ComponentManager.cs, whose handlers only throw.
- ArtifactManager's total health and damage bonus getters sum float multipliers, and
  are not modelled.
- `GameData.GetFormattedLastSaved`, the creation and save timestamps, and the player
  record are not modelled: they are date formatting and plain data.
- `GameData.WholeSeconds` takes play time as exact whole seconds. The millisecond
  rounding of `TimeSpan.FromSeconds` is not modelled.
- AbilityManager's `SaveLoadout` and `LoadLoadout` only write log lines, and are not modelled.
- `ProgressionManager.ProgressionManager.GetHealthMultiplier` and
  `ProgressionManager.ProgressionManager.GetDamageMultiplier` carry no contract of their own.
  The functions that specify them carry the properties.
- Three members the enemy states read are missing from BasicEnemy.cs in this snapshot:
  `Target`, `AttackRange` and `TryBodyAttack`. They are modelled as the fields
  `target` and `attackRange` and the log `bodyAttacks`.
- The two `Milestone` enums declared in one namespace are modelled in separate modules.
- Mismatched `Activate` arities between spawner generations are not reconciled. Each
  file is modelled against its own signature.
- An artifact's slot cost is a natural number. The model does not consider negative costs.
