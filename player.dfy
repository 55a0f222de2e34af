/**
 * The player body as its states see it: velocities, the active attack, and the
 * state changes and attack requests the states issue. The body's own frame
 * handling (Player.cs) is not part of this model.
 */
module PlayerEntity {
  import opened Wrappers
  import opened Vectors
  import opened CombatTypes

  /** The player's states, by class name. */
  datatype PlayerStateId = IdleState | MoveState | DashState | CastingState | AttackState

  /** One physics frame of input: movement vector, dash edge, the pressed attack slot or key, the mouse. */
  datatype PlayerInput = PlayerInput(
    direction: Vec2,
    dashJustPressed: bool,
    pressedSlot: Option<nat>,
    pressedKey: Option<string>,
    mousePosition: Vec2)

  /** A point `distance` units from `origin` along the normalized aim. */
  datatype SpawnPoint = AlongAim(origin: Vec2, aim: Direction, distance: real)

  /** A fire request the states send to an attack manager, or a projectile an old-style state spawns. */
  datatype FireRequest =
    | SlotFire(slot: nat, aim: Direction, at: SpawnPoint, stats: Option<EntityStats>)
    | KeyFire(key: string, aim: Direction, at: SpawnPoint, stats: Option<EntityStats>)
    | ProjectileShot(aim: Direction, at: SpawnPoint, stats: Option<EntityStats>)

  /** Player.Speed. */
  const PlayerSpeed: real := 200.0

  /** Attacks spawn this far along the aim. */
  const SpawnOffset: real := 16.0

  /** The aim toward the mouse: `(mouse - position).Normalized()`. */
  function AimAt(mouse: Vec2, position: Vec2): Direction
  {
    Normalize(Raw(Sub(mouse, position)))
  }

  /** Where an attack aimed from `position` appears. */
  function SpawnPointFrom(position: Vec2, aim: Direction): SpawnPoint
  {
    AlongAim(position, aim, SpawnOffset)
  }

  /** A state change request as the appended log entry it becomes. */
  function Request(next: Option<PlayerStateId>): seq<PlayerStateId>
  {
    if next.Some? then [next.value] else []
  }

  /** Dash pressed while a direction is held: every state that can dash checks this first. */
  predicate DashRequested(input: PlayerInput)
  {
    input.dashJustPressed && !IsZero(input.direction)
  }

  /** The movement component after Move(direction, speed), or StopMovement() for a zero direction. */
  function WalkVelocity(direction: Vec2, speed: real): (v: Velocity)
    ensures v == Stopped <==> IsZero(direction)
  {
    if IsZero(direction) then Stopped else Toward(direction, speed)
  }

  /** The Move-or-Idle choice several states end with. */
  function MoveOrIdle(direction: Vec2): (s: PlayerStateId)
    ensures s == MoveState <==> !IsZero(direction)
    ensures s == IdleState <==> IsZero(direction)
  {
    if !IsZero(direction) then MoveState else IdleState
  }

  class Player {
    const speed: real
    const attackCooldown: real
    const stats: Option<EntityStats>
    var position: Vec2
    /** CharacterBody2D.Velocity. */
    var velocity: Velocity
    /** EntityMovementComponent.Velocity. */
    var movementVelocity: Velocity
    var activeAttackSlot: Option<nat>
    var activeAttackKey: Option<string>
    /** ChangeState calls issued by the states, oldest first. */
    var requests: seq<PlayerStateId>
    /** Fire requests and spawned projectiles, oldest first. */
    var fired: seq<FireRequest>

    constructor (attackCooldown: real, stats: Option<EntityStats>, position: Vec2)
      ensures speed == PlayerSpeed && this.attackCooldown == attackCooldown && this.stats == stats
      ensures this.position == position && velocity == Stopped && movementVelocity == Stopped
      ensures activeAttackSlot.None? && activeAttackKey.None? && requests == [] && fired == []
    {
      speed := PlayerSpeed;
      this.attackCooldown := attackCooldown;
      this.stats := stats;
      this.position := position;
      velocity := Stopped;
      movementVelocity := Stopped;
      activeAttackSlot := None;
      activeAttackKey := None;
      requests := [];
      fired := [];
    }
  }
}
