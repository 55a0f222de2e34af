/** The basic enemy's Idle state (Scenes/Enemies/BasicEnemy/StateMachine/States/IdleState.cs). */
module EnemyIdleState {
  import opened Wrappers
  import opened Vectors
  import opened BasicEnemy

  /** Idle asks for Chasing exactly when there is a target, and never for anything else. */
  function Next(hasTarget: bool): (next: Option<EnemyStateId>)
    ensures next.Some? <==> hasTarget
    ensures next.Some? ==> next.value == ChasingState
  {
    if hasTarget then Some(ChasingState) else None
  }

  class IdleState {
    constructor ()
    {
    }

    /** Enter: the enemy stops. */
    method Enter(enemy: BasicEnemy)
      modifies enemy
      ensures enemy.velocity == Stopped
      ensures enemy.target == old(enemy.target) && enemy.position == old(enemy.position)
      ensures enemy.requests == old(enemy.requests) && enemy.bodyAttacks == old(enemy.bodyAttacks)
      ensures enemy.listening == old(enemy.listening)
    {
      enemy.velocity := Stopped;
    }

    /** PhysicsProcess: the enemy stays stopped, and a target sends it chasing. */
    method PhysicsProcess(enemy: BasicEnemy)
      modifies enemy
      ensures enemy.velocity == Stopped
      ensures enemy.requests == old(enemy.requests) + (if enemy.target.Some? then [ChasingState] else [])
      ensures enemy.target == old(enemy.target) && enemy.position == old(enemy.position)
      ensures enemy.bodyAttacks == old(enemy.bodyAttacks) && enemy.listening == old(enemy.listening)
    {
      enemy.velocity := Stopped;
      if enemy.target.Some? {
        enemy.requests := enemy.requests + [ChasingState];
      }
    }
  }
}
