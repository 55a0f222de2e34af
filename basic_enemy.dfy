/**
 * The basic enemy body (Scenes/Enemies/BasicEnemy/BasicEnemy.cs): it tracks the
 * player that entered its detection area and, on its own physics frame, heads for
 * it. Its states (Idle, Chasing, Attacking) read the target, the speed and an attack
 * range and record the state changes and body attacks they ask for.
 */
module BasicEnemy {
  import opened Wrappers
  import opened Vectors

  /** The enemy's states, by class name. */
  datatype EnemyStateId = IdleState | ChasingState | AttackingState

  /** A physics body, by identity, and whether it is the Player. */
  datatype Body = Body(id: nat, isPlayer: bool)

  /** What the detection area reports. */
  datatype DetectionEvent = Entered(body: Body) | Exited(body: Body)

  /** Speed's exported default. */
  const EnemySpeed: real := 50.0

  /** The target after a body enters: a Player takes over, anything else is ignored. */
  function AfterEntered(target: Option<Body>, body: Body): (r: Option<Body>)
    ensures body.isPlayer ==> r == Some(body)
    ensures !body.isPlayer ==> r == target
  {
    if body.isPlayer then Some(body) else target
  }

  /** The target after a body leaves: cleared only when the leaving body is the target. */
  function AfterExited(target: Option<Body>, body: Body): (r: Option<Body>)
    ensures target == Some(body) ==> r.None?
    ensures target != Some(body) ==> r == target
  {
    if target == Some(body) then None else target
  }

  /** The target after a run of detection events, oldest first. */
  function Track(target: Option<Body>, events: seq<DetectionEvent>): Option<Body>
    decreases |events|
  {
    if |events| == 0 then target
    else
      var next := match events[0]
        case Entered(b) => AfterEntered(target, b)
        case Exited(b) => AfterExited(target, b);
      Track(next, events[1..])
  }

  predicate IsPlayerOrNone(target: Option<Body>)
  {
    target.Some? ==> target.value.isPlayer
  }

  /** Whatever bodies come and go, the enemy only ever targets the Player. */
  lemma {:induction false} OnlyPlayersAreTargeted(target: Option<Body>, events: seq<DetectionEvent>)
    requires IsPlayerOrNone(target)
    ensures IsPlayerOrNone(Track(target, events))
    decreases |events|
  {
    if |events| > 0 {
      var next := match events[0]
        case Entered(b) => AfterEntered(target, b)
        case Exited(b) => AfterExited(target, b);
      OnlyPlayersAreTargeted(next, events[1..]);
    }
  }

  /** Bodies other than the target leaving, and non-players entering, never lose the target. */
  lemma {:induction false} OthersLeavingKeepTheTarget(player: Body, events: seq<DetectionEvent>)
    requires forall i :: 0 <= i < |events| ==>
      (events[i].Entered? && !events[i].body.isPlayer) || (events[i].Exited? && events[i].body != player)
    ensures Track(Some(player), events) == Some(player)
    decreases |events|
  {
    if |events| > 0 {
      OthersLeavingKeepTheTarget(player, events[1..]);
    }
  }

  class BasicEnemy {
    const speed: real
    /** AttackRange, read by the Attacking state; not declared on the body in this snapshot. */
    const attackRange: real
    /** Whether the DetectionArea export is set. */
    const hasDetectionArea: bool
    var position: Vec2
    var velocity: Velocity
    var target: Option<Body>
    /** Whether the detection handlers are connected. */
    var listening: bool
    /** ChangeState calls issued by the states, oldest first. */
    var requests: seq<EnemyStateId>
    /** TryBodyAttack calls, with the direction passed, oldest first. */
    var bodyAttacks: seq<Direction>

    constructor (attackRange: real, hasDetectionArea: bool, position: Vec2)
      ensures speed == EnemySpeed && this.attackRange == attackRange && this.hasDetectionArea == hasDetectionArea
      ensures this.position == position && velocity == Stopped && target.None? && !listening
      ensures requests == [] && bodyAttacks == []
    {
      speed := EnemySpeed;
      this.attackRange := attackRange;
      this.hasDetectionArea := hasDetectionArea;
      this.position := position;
      velocity := Stopped;
      target := None;
      listening := false;
      requests := [];
      bodyAttacks := [];
    }

    predicate Valid()
      reads this
    {
      IsPlayerOrNone(target)
    }

    /** _Ready: the handlers are connected only when there is a detection area. */
    method Ready()
      modifies this
      ensures listening == (old(listening) || hasDetectionArea)
      ensures target == old(target) && velocity == old(velocity) && position == old(position)
      ensures requests == old(requests) && bodyAttacks == old(bodyAttacks)
    {
      if hasDetectionArea {
        listening := true;
      }
    }

    /** A body entered the detection area: a Player becomes the target. */
    method OnDetectionAreaBodyEntered(body: Body)
      requires Valid()
      modifies this
      ensures Valid()
      ensures target == AfterEntered(old(target), body)
      ensures velocity == old(velocity) && position == old(position) && listening == old(listening)
      ensures requests == old(requests) && bodyAttacks == old(bodyAttacks)
    {
      if body.isPlayer {
        target := Some(body);
      }
    }

    /** A body left the detection area: the target is dropped only if it is that body. */
    method OnDetectionAreaBodyExited(body: Body)
      requires Valid()
      modifies this
      ensures Valid()
      ensures target == AfterExited(old(target), body)
      ensures velocity == old(velocity) && position == old(position) && listening == old(listening)
      ensures requests == old(requests) && bodyAttacks == old(bodyAttacks)
    {
      if target == Some(body) {
        target := None;
      }
    }

    /**
     * _PhysicsProcess: nothing without a target; with one, the velocity heads for
     * the target's current position at Speed.
     */
    method PhysicsProcess(targetPosition: Vec2)
      modifies this
      ensures target.None? ==> velocity == old(velocity)
      ensures target.Some? ==> velocity == Toward(Sub(targetPosition, position), speed)
      ensures target == old(target) && position == old(position) && listening == old(listening)
      ensures requests == old(requests) && bodyAttacks == old(bodyAttacks)
    {
      if target.None? {
        return;
      }
      velocity := Toward(Sub(targetPosition, position), speed);
    }
  }

  /**
   * A second Player entering replaces the first as the target, and the first
   * leaving afterwards does not clear it.
   */
  method SecondPlayerTakesOver() returns (afterSecond: Option<Body>, afterFirstLeft: Option<Body>)
    ensures afterSecond == Some(Body(2, true)) && afterFirstLeft == Some(Body(2, true))
  {
    var enemy := new BasicEnemy(30.0, true, Zero);
    enemy.Ready();
    enemy.OnDetectionAreaBodyEntered(Body(1, true));
    enemy.OnDetectionAreaBodyEntered(Body(7, false));
    enemy.OnDetectionAreaBodyEntered(Body(2, true));
    afterSecond := enemy.target;
    enemy.OnDetectionAreaBodyExited(Body(1, true));
    afterFirstLeft := enemy.target;
  }
}
