/**
 * The basic enemy's Attacking state
 * (Scenes/Enemies/BasicEnemy/StateMachine/States/AttackingState.cs), and what the
 * three enemy states together allow.
 */
module EnemyAttackingState {
  import opened Wrappers
  import opened Vectors
  import opened BasicEnemy
  import EnemyIdleState
  import EnemyChasingState

  /** Attacking creeps at this fraction of Speed. */
  const CreepFactor: real := 0.4

  /**
   * Attacking: a lost target sends it to Idle, before distance is looked at; a
   * target beyond the attack range sends it back to Chasing; in range it stays.
   */
  function Next(hasTarget: bool, distance: real, attackRange: real): (next: Option<EnemyStateId>)
    ensures !hasTarget ==> next == Some(IdleState)
    ensures hasTarget ==> (next == Some(ChasingState) <==> distance > attackRange)
    ensures hasTarget && distance <= attackRange ==> next.None?
  {
    if !hasTarget then Some(IdleState)
    else if distance > attackRange then Some(ChasingState)
    else None
  }

  /** One physics frame as the states see it: is there a target, and how far it is. */
  datatype Frame = Frame(hasTarget: bool, distance: real)

  /** The state a frame leaves the enemy in, when each request is carried out. */
  function Step(state: EnemyStateId, f: Frame, attackRange: real): EnemyStateId
  {
    var next := match state
      case IdleState => EnemyIdleState.Next(f.hasTarget)
      case ChasingState => EnemyChasingState.Next(f.hasTarget)
      case AttackingState => Next(f.hasTarget, f.distance, attackRange);
    if next.Some? then next.value else state
  }

  /** The state after a run of frames. */
  function Run(state: EnemyStateId, frames: seq<Frame>, attackRange: real): EnemyStateId
    decreases |frames|
  {
    if |frames| == 0 then state else Run(Step(state, frames[0], attackRange), frames[1..], attackRange)
  }

  /**
   * Neither Idle nor Chasing ever asks for Attacking, so an enemy that starts idle
   * never reaches it, whatever the targets and distances.
   */
  lemma {:induction false} AttackingIsUnreachable(state: EnemyStateId, frames: seq<Frame>, attackRange: real)
    requires state != AttackingState
    ensures Run(state, frames, attackRange) != AttackingState
    decreases |frames|
  {
    if |frames| > 0 {
      AttackingIsUnreachable(Step(state, frames[0], attackRange), frames[1..], attackRange);
    }
  }

  /** Once in Attacking, a frame without a target always lands in Idle. */
  lemma LosingTheTargetWinsOverRange(distance: real, attackRange: real)
    ensures Step(AttackingState, Frame(false, distance), attackRange) == IdleState
  {
  }

  class AttackingState {
    constructor ()
    {
    }

    /** Enter: the enemy stops. */
    method Enter(enemy: BasicEnemy)
      modifies enemy
      ensures enemy.velocity == Stopped
      ensures enemy.target == old(enemy.target) && enemy.position == old(enemy.position)
      ensures enemy.requests == old(enemy.requests) && enemy.bodyAttacks == old(enemy.bodyAttacks)
      ensures enemy.listening == old(enemy.listening)
    {
      enemy.velocity := Stopped;
    }

    /**
     * PhysicsProcess: the transition Next describes; when it stays, the enemy creeps
     * toward the target at CreepFactor times Speed and tries a body attack along the
     * same direction.
     */
    method PhysicsProcess(enemy: BasicEnemy, targetPosition: Vec2, distance: real)
      modifies enemy
      ensures var next := Next(enemy.target.Some?, distance, enemy.attackRange);
        enemy.requests == old(enemy.requests) + (if next.Some? then [next.value] else [])
      ensures Next(enemy.target.Some?, distance, enemy.attackRange).Some? ==>
        enemy.velocity == old(enemy.velocity) && enemy.bodyAttacks == old(enemy.bodyAttacks)
      ensures Next(enemy.target.Some?, distance, enemy.attackRange).None? ==>
        var direction := Sub(targetPosition, enemy.position);
        enemy.velocity == Toward(direction, enemy.speed * CreepFactor) &&
        enemy.bodyAttacks == old(enemy.bodyAttacks) + [Normalize(Raw(direction))]
      ensures enemy.target == old(enemy.target) && enemy.position == old(enemy.position)
      ensures enemy.listening == old(enemy.listening)
    {
      if enemy.target.None? {
        enemy.requests := enemy.requests + [IdleState];
        return;
      }
      if distance > enemy.attackRange {
        enemy.requests := enemy.requests + [ChasingState];
        return;
      }
      var direction := Sub(targetPosition, enemy.position);
      enemy.velocity := Toward(direction, enemy.speed * CreepFactor);
      enemy.bodyAttacks := enemy.bodyAttacks + [Normalize(Raw(direction))];
    }
  }
}
