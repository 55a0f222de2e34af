/** The player's Idle state (Scenes/Player/StateMachine/States/IdleState.cs). */
module PlayerIdleState {
  import opened Wrappers
  import opened Vectors
  import opened PlayerEntity

  /**
   * The slot attack manager's answer to a fire request: refused, or fired, with
   * whether the slot's spawner is an instant cast (None when it has no spawner).
   */
  datatype SlotReply = Refused | Fired(spawnerInstant: Option<bool>)

  /** Whether TryFireAttack reports a fire: a slot was pressed and the manager fired it. */
  predicate FiresAttack(slot: Option<nat>, reply: SlotReply)
  {
    slot.Some? && reply.Fired?
  }

  /**
   * The state Idle asks for after a physics frame: Dash when dash is pressed while
   * moving; after a fire, Casting for a non-instant spawner and nothing otherwise;
   * else Move when the direction is non-zero.
   */
  function Next(direction: Vec2, dashJustPressed: bool, slot: Option<nat>, reply: SlotReply): (next: Option<PlayerStateId>)
    ensures dashJustPressed && !IsZero(direction) ==> next == Some(DashState)
    ensures next == Some(DashState) ==> dashJustPressed && !IsZero(direction)
    ensures next == Some(CastingState) <==>
      !(dashJustPressed && !IsZero(direction)) && FiresAttack(slot, reply) && reply.spawnerInstant == Some(false)
    ensures next == Some(MoveState) <==>
      !(dashJustPressed && !IsZero(direction)) && !FiresAttack(slot, reply) && !IsZero(direction)
    ensures next != Some(IdleState) && next != Some(AttackState)
  {
    if dashJustPressed && !IsZero(direction) then Some(DashState)
    else if FiresAttack(slot, reply) then
      (if reply.spawnerInstant == Some(false) then Some(CastingState) else None)
    else if !IsZero(direction) then Some(MoveState)
    else None
  }

  /** A fired instant attack keeps the player idle for that frame, even while a direction is held. */
  lemma InstantFireStaysIdle(direction: Vec2, slot: nat, spawnerInstant: Option<bool>)
    requires spawnerInstant != Some(false)
    ensures Next(direction, false, Some(slot), Fired(spawnerInstant)).None?
  {
  }

  /** Dash with no direction is ignored: the frame goes on as if dash were not pressed. */
  lemma DashWithoutDirectionIgnored(slot: Option<nat>, reply: SlotReply)
    ensures Next(Zero, true, slot, reply) == Next(Zero, false, slot, reply)
  {
  }

  class IdleState {
    constructor ()
    {
    }

    /** Enter: movement stopped and velocity zeroed. */
    method Enter(player: Player)
      modifies player
      ensures player.movementVelocity == Stopped && player.velocity == Stopped
      ensures player.requests == old(player.requests) && player.fired == old(player.fired)
      ensures player.activeAttackSlot == old(player.activeAttackSlot) && player.activeAttackKey == old(player.activeAttackKey)
      ensures player.position == old(player.position)
    {
      player.movementVelocity := Stopped;
      player.velocity := Stopped;
    }

    /**
     * PhysicsProcess: velocity is held at zero; a pressed slot (unless dash wins)
     * is sent to the manager with the mouse aim; a non-instant fire records the slot
     * and asks for Casting; the request Next describes is issued.
     */
    method PhysicsProcess(player: Player, input: PlayerInput, reply: SlotReply)
      modifies player
      ensures player.velocity == Stopped && player.movementVelocity == old(player.movementVelocity)
      ensures player.requests == old(player.requests) + Request(Next(input.direction, input.dashJustPressed, input.pressedSlot, reply))
      ensures player.fired == old(player.fired) + (if !DashRequested(input) && input.pressedSlot.Some? then
          var aim := AimAt(input.mousePosition, player.position);
          [SlotFire(input.pressedSlot.value, aim, SpawnPointFrom(player.position, aim), player.stats)] else [])
      ensures Next(input.direction, input.dashJustPressed, input.pressedSlot, reply) == Some(CastingState) ==>
        player.activeAttackSlot == input.pressedSlot
      ensures Next(input.direction, input.dashJustPressed, input.pressedSlot, reply) != Some(CastingState) ==>
        player.activeAttackSlot == old(player.activeAttackSlot)
      ensures player.activeAttackKey == old(player.activeAttackKey) && player.position == old(player.position)
    {
      player.velocity := Stopped;
      var direction := input.direction;
      if DashRequested(input) {
        player.requests := player.requests + [DashState];
        return;
      }
      var firedNow := TryFireAttack(player, input, reply);
      if firedNow {
        return;
      }
      if !IsZero(direction) {
        player.requests := player.requests + [MoveState];
      }
    }

    method TryFireAttack(player: Player, input: PlayerInput, reply: SlotReply) returns (firedNow: bool)
      modifies player
      ensures firedNow == FiresAttack(input.pressedSlot, reply)
      ensures input.pressedSlot.None? ==> player.fired == old(player.fired)
      ensures input.pressedSlot.Some? ==>
        var aim := AimAt(input.mousePosition, player.position);
        player.fired == old(player.fired) + [SlotFire(input.pressedSlot.value, aim, SpawnPointFrom(player.position, aim), player.stats)]
      ensures firedNow && reply.spawnerInstant == Some(false) ==>
        player.activeAttackSlot == input.pressedSlot && player.requests == old(player.requests) + [CastingState]
      ensures !(firedNow && reply.spawnerInstant == Some(false)) ==>
        player.activeAttackSlot == old(player.activeAttackSlot) && player.requests == old(player.requests)
      ensures player.velocity == old(player.velocity) && player.movementVelocity == old(player.movementVelocity)
      ensures player.activeAttackKey == old(player.activeAttackKey) && player.position == old(player.position)
    {
      if input.pressedSlot.None? {
        return false;
      }
      var aim := AimAt(input.mousePosition, player.position);
      player.fired := player.fired + [SlotFire(input.pressedSlot.value, aim, SpawnPointFrom(player.position, aim), player.stats)];
      if reply.Refused? {
        return false;
      }
      if reply.spawnerInstant == Some(false) {
        player.activeAttackSlot := input.pressedSlot;
        player.requests := player.requests + [CastingState];
      }
      return true;
    }
  }
}
