/**
 * The older player Attack state (Scenes/Player/StateMachine/States/AttackState.cs):
 * one projectile on Enter, then a cooldown during which the player may move.
 */
module PlayerAttackState {
  import opened Wrappers
  import opened Vectors
  import opened PlayerEntity
  import opened CombatTypes

  /** The projectile Enter spawns: aimed at the mouse, SpawnOffset units along the aim. */
  function ProjectileToward(mousePosition: Vec2, position: Vec2, stats: Option<EntityStats>): FireRequest
  {
    var aim := AimAt(mousePosition, position);
    ProjectileShot(aim, SpawnPointFrom(position, aim), stats)
  }

  class AttackState {
    var cooldownRemaining: real

    constructor ()
      ensures cooldownRemaining == 0.0
    {
      cooldownRemaining := 0.0;
    }

    /**
     * Enter: exactly one projectile, aimed at the mouse and placed SpawnOffset
     * units along the aim, executed with the player's stats; the cooldown starts at
     * the player's AttackCooldown.
     */
    method Enter(player: Player, mousePosition: Vec2)
      modifies this, player
      ensures player.fired == old(player.fired) + [ProjectileToward(mousePosition, player.position, player.stats)]
      ensures cooldownRemaining == player.attackCooldown
      ensures player.requests == old(player.requests)
      ensures player.velocity == old(player.velocity) && player.movementVelocity == old(player.movementVelocity)
      ensures player.position == old(player.position)
    {
      player.fired := player.fired + [ProjectileToward(mousePosition, player.position, player.stats)];
      cooldownRemaining := player.attackCooldown;
    }

    /**
     * PhysicsProcess: the cooldown loses the frame; dash with a direction leaves at
     * once; otherwise the player walks or stops, and the state asks for Move or Idle
     * only once the cooldown is at or below zero.
     */
    method PhysicsProcess(player: Player, input: PlayerInput, delta: real)
      modifies this, player
      ensures cooldownRemaining == old(cooldownRemaining) - delta
      ensures player.requests == old(player.requests) +
        (if DashRequested(input) then [DashState] else if cooldownRemaining <= 0.0 then [MoveOrIdle(input.direction)] else [])
      ensures !DashRequested(input) ==>
        player.movementVelocity == WalkVelocity(input.direction, player.speed) && player.velocity == player.movementVelocity
      ensures DashRequested(input) ==>
        player.velocity == old(player.velocity) && player.movementVelocity == old(player.movementVelocity)
      ensures player.fired == old(player.fired) && player.position == old(player.position)
    {
      cooldownRemaining := cooldownRemaining - delta;
      var direction := input.direction;
      if DashRequested(input) {
        player.requests := player.requests + [DashState];
        return;
      }
      player.movementVelocity := WalkVelocity(direction, player.speed);
      player.velocity := player.movementVelocity;
      if cooldownRemaining <= 0.0 {
        player.requests := player.requests + [MoveOrIdle(direction)];
      }
    }
  }
}
