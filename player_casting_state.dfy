/**
 * The player's Casting state (Scenes/Player/StateMachine/States/CastingState.cs):
 * holds the player until the attack manager reports the cast of the active key
 * complete.
 */
module PlayerCastingState {
  import opened Wrappers
  import opened Vectors
  import opened PlayerEntity
  import AttackManagerComponent

  /** Movement permission from the key's metadata, false when there is none. */
  function AllowsMovement(metadata: Option<AttackManagerComponent.Entry>): (allow: bool)
    ensures allow <==> metadata.Some? && metadata.value.allowMovementDuringCast
  {
    if metadata.Some? then metadata.value.allowMovementDuringCast else false
  }

  class CastingState {
    var activeAttackKey: Option<string>
    var allowMovement: bool
    /** Whether OnCastCompleted is subscribed to the manager's CastCompleted. */
    var subscribed: bool

    constructor ()
      ensures activeAttackKey.None? && !allowMovement && !subscribed
    {
      activeAttackKey := None;
      allowMovement := false;
      subscribed := false;
    }

    /**
     * Enter: with no active key on the player the state asks for Idle at once and
     * subscribes nothing (the machine then runs this state's Exit). Otherwise it takes the movement permission from the key's
     * metadata (`metadata` is what GetAttackMetadata returns for it), subscribes to
     * CastCompleted, and stops the player unless movement is allowed.
     */
    method Enter(player: Player, metadata: Option<AttackManagerComponent.Entry>)
      modifies this, player
      ensures activeAttackKey == player.activeAttackKey == old(player.activeAttackKey)
      ensures activeAttackKey.None? ==>
        player.requests == old(player.requests) + [IdleState] && subscribed == old(subscribed) && allowMovement == old(allowMovement) &&
        player.velocity == old(player.velocity) && player.movementVelocity == old(player.movementVelocity)
      ensures activeAttackKey.Some? ==>
        player.requests == old(player.requests) && subscribed && allowMovement == AllowsMovement(metadata)
      ensures activeAttackKey.Some? && !allowMovement ==> player.velocity == Stopped && player.movementVelocity == Stopped
      ensures activeAttackKey.Some? && allowMovement ==>
        player.velocity == old(player.velocity) && player.movementVelocity == old(player.movementVelocity)
      ensures player.fired == old(player.fired) && player.activeAttackSlot == old(player.activeAttackSlot)
    {
      activeAttackKey := player.activeAttackKey;
      if activeAttackKey.None? {
        player.requests := player.requests + [IdleState];
        return;
      }
      allowMovement := AllowsMovement(metadata);
      subscribed := true;
      if !allowMovement {
        player.movementVelocity := Stopped;
        player.velocity := Stopped;
      }
    }

    /** Exit: unsubscribes and clears the active key, on the player and here. */
    method Exit(player: Player)
      modifies this, player
      ensures !subscribed && activeAttackKey.None? && player.activeAttackKey.None?
      ensures allowMovement == old(allowMovement)
      ensures player.requests == old(player.requests) && player.fired == old(player.fired)
      ensures player.velocity == old(player.velocity) && player.movementVelocity == old(player.movementVelocity)
    {
      subscribed := false;
      player.activeAttackKey := None;
      activeAttackKey := None;
    }

    /**
     * PhysicsProcess: dash with a direction leaves for Dash whatever the permission;
     * otherwise a state that allows movement walks or stops, and one that does not
     * leaves the player untouched.
     */
    method PhysicsProcess(player: Player, input: PlayerInput)
      modifies player
      ensures player.requests == old(player.requests) + (if DashRequested(input) then [DashState] else [])
      ensures !DashRequested(input) && allowMovement ==>
        player.movementVelocity == WalkVelocity(input.direction, player.speed) && player.velocity == player.movementVelocity
      ensures DashRequested(input) || !allowMovement ==>
        player.velocity == old(player.velocity) && player.movementVelocity == old(player.movementVelocity)
      ensures player.fired == old(player.fired)
      ensures player.activeAttackSlot == old(player.activeAttackSlot) && player.activeAttackKey == old(player.activeAttackKey)
    {
      if DashRequested(input) {
        player.requests := player.requests + [DashState];
        return;
      }
      if allowMovement {
        player.movementVelocity := WalkVelocity(input.direction, player.speed);
        player.velocity := player.movementVelocity;
      }
    }

    /**
     * OnCastCompleted: a completion for any other key is ignored; for the active
     * key the state asks for Move or Idle by the current direction.
     */
    method OnCastCompleted(player: Player, attackKey: string, input: PlayerInput)
      requires subscribed
      modifies player
      ensures Some(attackKey) != activeAttackKey ==> player.requests == old(player.requests)
      ensures Some(attackKey) == activeAttackKey ==> player.requests == old(player.requests) + [MoveOrIdle(input.direction)]
      ensures player.velocity == old(player.velocity) && player.movementVelocity == old(player.movementVelocity)
      ensures player.fired == old(player.fired) && player.activeAttackKey == old(player.activeAttackKey)
    {
      if Some(attackKey) != activeAttackKey {
        return;
      }
      player.requests := player.requests + [MoveOrIdle(input.direction)];
    }
  }

  /**
   * A cast that does not allow movement: Enter stops the player, a frame with a
   * direction does not move it, and the completion of another key changes nothing
   * while the own key's completion asks for Move.
   */
  method RootedCastWaitsForItsOwnKey() returns (velocity: Velocity, requests: seq<PlayerStateId>)
    ensures velocity == Stopped
    ensures requests == [MoveState]
  {
    var player := new Player(0.5, None, Zero);
    player.activeAttackKey := Some("fireball");
    var state := new CastingState();
    var entry := AttackManagerComponent.Entry(
      AttackManagerComponent.AttackScene("res://Scenes/Attacks/Projectiles/Fireball/Fireball.tscn", true, 1.0, false, false),
      1.0, 1.0, false, false);
    state.Enter(player, Some(entry));
    var walking := PlayerInput(Vec2(1.0, 0.0), false, None, None, Zero);
    state.PhysicsProcess(player, walking);
    state.OnCastCompleted(player, "basic_attack", walking);
    state.OnCastCompleted(player, "fireball", walking);
    velocity := player.velocity;
    requests := player.requests;
  }
}
