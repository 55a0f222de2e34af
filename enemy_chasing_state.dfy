/** The basic enemy's Chasing state (Scenes/Enemies/BasicEnemy/StateMachine/States/ChasingState.cs). */
module EnemyChasingState {
  import opened Wrappers
  import opened Vectors
  import opened BasicEnemy

  /** Chasing gives up for Idle when the target is gone, and otherwise stays put. */
  function Next(hasTarget: bool): (next: Option<EnemyStateId>)
    ensures next.Some? <==> !hasTarget
    ensures next.Some? ==> next.value == IdleState
  {
    if hasTarget then None else Some(IdleState)
  }

  class ChasingState {
    constructor ()
    {
    }

    /**
     * PhysicsProcess: without a target, ask for Idle and leave the velocity alone;
     * with one, head for its current position at Speed.
     */
    method PhysicsProcess(enemy: BasicEnemy, targetPosition: Vec2)
      modifies enemy
      ensures enemy.requests == old(enemy.requests) + (if enemy.target.None? then [IdleState] else [])
      ensures enemy.target.None? ==> enemy.velocity == old(enemy.velocity)
      ensures enemy.target.Some? ==> enemy.velocity == Toward(Sub(targetPosition, enemy.position), enemy.speed)
      ensures enemy.target == old(enemy.target) && enemy.position == old(enemy.position)
      ensures enemy.bodyAttacks == old(enemy.bodyAttacks) && enemy.listening == old(enemy.listening)
    {
      if enemy.target.None? {
        enemy.requests := enemy.requests + [IdleState];
        return;
      }
      var direction := Sub(targetPosition, enemy.position);
      enemy.velocity := Toward(direction, enemy.speed);
    }
  }
}
