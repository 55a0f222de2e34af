/** The player's Move state (Scenes/Player/StateMachine/States/MoveState.cs). */
module PlayerMoveState {
  import opened Wrappers
  import opened Vectors
  import opened PlayerEntity

  /**
   * The keyed attack manager's answer: no instance (refused), or an instance, with
   * the key's IsInstantCast from its metadata (None when there is no metadata).
   */
  datatype KeyReply = NoInstance | Instance(metadataInstant: Option<bool>)

  predicate FiresAttack(key: Option<string>, reply: KeyReply)
  {
    key.Some? && reply.Instance?
  }

  /**
   * The state Move asks for: Dash first, then Casting after a non-instant fire
   * (nothing after an instant one), then Idle when the direction is zero.
   */
  function Next(direction: Vec2, dashJustPressed: bool, key: Option<string>, reply: KeyReply): (next: Option<PlayerStateId>)
    ensures dashJustPressed && !IsZero(direction) ==> next == Some(DashState)
    ensures next == Some(CastingState) <==>
      !(dashJustPressed && !IsZero(direction)) && FiresAttack(key, reply) && reply.metadataInstant == Some(false)
    ensures next == Some(IdleState) <==>
      !(dashJustPressed && !IsZero(direction)) && !FiresAttack(key, reply) && IsZero(direction)
    ensures next != Some(MoveState) && next != Some(AttackState)
  {
    if dashJustPressed && !IsZero(direction) then Some(DashState)
    else if FiresAttack(key, reply) then
      (if reply.metadataInstant == Some(false) then Some(CastingState) else None)
    else if IsZero(direction) then Some(IdleState)
    else None
  }

  /** Whether the frame ends by walking: no state change and no fire. */
  predicate Walks(direction: Vec2, dashJustPressed: bool, key: Option<string>, reply: KeyReply)
  {
    Next(direction, dashJustPressed, key, reply).None? && !FiresAttack(key, reply)
  }

  /** A frame that walks has a non-zero direction, and a fired attack never walks. */
  lemma WalkingNeedsADirection(direction: Vec2, dashJustPressed: bool, key: Option<string>, reply: KeyReply)
    ensures Walks(direction, dashJustPressed, key, reply) ==> !IsZero(direction) && !(dashJustPressed && !IsZero(direction))
    ensures FiresAttack(key, reply) ==> !Walks(direction, dashJustPressed, key, reply)
  {
  }

  class MoveState {
    constructor ()
    {
    }

    /**
     * PhysicsProcess: the request Next describes; a pressed key (unless dash wins)
     * goes to the manager; a non-instant fire records the key; only a frame that
     * walks moves the player, at Player.Speed along the input.
     */
    method PhysicsProcess(player: Player, input: PlayerInput, reply: KeyReply)
      modifies player
      ensures player.requests == old(player.requests) + Request(Next(input.direction, input.dashJustPressed, input.pressedKey, reply))
      ensures player.fired == old(player.fired) + (if !DashRequested(input) && input.pressedKey.Some? then
          var aim := AimAt(input.mousePosition, player.position);
          [KeyFire(input.pressedKey.value, aim, SpawnPointFrom(player.position, aim), player.stats)] else [])
      ensures Walks(input.direction, input.dashJustPressed, input.pressedKey, reply) ==>
        player.movementVelocity == Toward(input.direction, player.speed) && player.velocity == player.movementVelocity
      ensures !Walks(input.direction, input.dashJustPressed, input.pressedKey, reply) ==>
        player.movementVelocity == old(player.movementVelocity) && player.velocity == old(player.velocity)
      ensures Next(input.direction, input.dashJustPressed, input.pressedKey, reply) == Some(CastingState) ==>
        player.activeAttackKey == input.pressedKey
      ensures Next(input.direction, input.dashJustPressed, input.pressedKey, reply) != Some(CastingState) ==>
        player.activeAttackKey == old(player.activeAttackKey)
      ensures player.activeAttackSlot == old(player.activeAttackSlot) && player.position == old(player.position)
    {
      var direction := input.direction;
      if DashRequested(input) {
        player.requests := player.requests + [DashState];
        return;
      }
      var firedNow := TryFireAttack(player, input, reply);
      if firedNow {
        return;
      }
      if IsZero(direction) {
        player.requests := player.requests + [IdleState];
        return;
      }
      player.movementVelocity := Toward(direction, player.speed);
      player.velocity := player.movementVelocity;
    }

    method TryFireAttack(player: Player, input: PlayerInput, reply: KeyReply) returns (firedNow: bool)
      modifies player
      ensures firedNow == FiresAttack(input.pressedKey, reply)
      ensures input.pressedKey.None? ==> player.fired == old(player.fired)
      ensures input.pressedKey.Some? ==>
        var aim := AimAt(input.mousePosition, player.position);
        player.fired == old(player.fired) + [KeyFire(input.pressedKey.value, aim, SpawnPointFrom(player.position, aim), player.stats)]
      ensures firedNow && reply.metadataInstant == Some(false) ==>
        player.activeAttackKey == input.pressedKey && player.requests == old(player.requests) + [CastingState]
      ensures !(firedNow && reply.metadataInstant == Some(false)) ==>
        player.activeAttackKey == old(player.activeAttackKey) && player.requests == old(player.requests)
      ensures player.velocity == old(player.velocity) && player.movementVelocity == old(player.movementVelocity)
      ensures player.activeAttackSlot == old(player.activeAttackSlot) && player.position == old(player.position)
    {
      if input.pressedKey.None? {
        return false;
      }
      var aim := AimAt(input.mousePosition, player.position);
      player.fired := player.fired + [KeyFire(input.pressedKey.value, aim, SpawnPointFrom(player.position, aim), player.stats)];
      if reply.NoInstance? {
        return false;
      }
      if reply.metadataInstant == Some(false) {
        player.activeAttackKey := input.pressedKey;
        player.requests := player.requests + [CastingState];
      }
      return true;
    }
  }
}
