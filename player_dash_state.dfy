/** The player's Dash state (Scenes/Player/StateMachine/States/DashState.cs): a timed burst of speed. */
module PlayerDashState {
  import opened Vectors
  import opened Numerics
  import opened PlayerEntity

  const DashSpeed: real := 600.0
  const DashDuration: real := 0.2

  /** The dash timer after a run of physics frames, each subtracting its delta. */
  function RemainingAfter(remaining: real, deltas: seq<real>): real
    decreases |deltas|
  {
    if |deltas| == 0 then remaining else RemainingAfter(remaining - deltas[0], deltas[1..])
  }

  /** The timer loses exactly the frames' total time. */
  lemma {:induction false} RemainingIsStartMinusSum(remaining: real, deltas: seq<real>)
    ensures RemainingAfter(remaining, deltas) == remaining - Sum(deltas)
    decreases |deltas|
  {
    if |deltas| > 0 {
      RemainingIsStartMinusSum(remaining - deltas[0], deltas[1..]);
    }
  }

  /** k frames of the same length. */
  function Frames(delta: real, k: nat): (ds: seq<real>)
    ensures |ds| == k && forall i :: 0 <= i < k ==> ds[i] == delta
  {
    if k == 0 then [] else [delta] + Frames(delta, k - 1)
  }

  lemma {:induction false} FramesSum(delta: real, k: nat)
    ensures Sum(Frames(delta, k)) == k as real * delta
  {
    if k > 0 {
      assert Frames(delta, k)[1..] == Frames(delta, k - 1);
      FramesSum(delta, k - 1);
    }
  }

  /** After k frames of length d the dash timer holds DashDuration - k·d. */
  lemma RemainingAfterFrames(d: real, k: nat)
    ensures RemainingAfter(DashDuration, Frames(d, k)) == DashDuration - k as real * d
  {
    RemainingIsStartMinusSum(DashDuration, Frames(d, k));
    FramesSum(d, k);
  }

  /** ⌈q⌉ frames reach q·d, and any fewer stay below it. */
  lemma CeilingScaled(q: real, d: real, n: int, k: int)
    requires d > 0.0 && n as real - 1.0 < q <= n as real && k < n
    ensures q * d <= n as real * d
    ensures k as real * d < q * d
  {
    ScaleMonotone(q, n as real, d);
    ScaleMonotone(k as real, (n - 1) as real, d);
    assert (q - (n - 1) as real) * d > 0.0;
  }

  /** Before frame ⌈0.2 / d⌉ the dash timer is still positive. */
  lemma StillDashingBefore(d: real, k: nat)
    requires d > 0.0 && k < Ceiling(DashDuration / d)
    ensures RemainingAfter(DashDuration, Frames(d, k)) > 0.0
  {
    var q := DashDuration / d;
    QuotientTimesDivisor(DashDuration, d);
    CeilingScaled(q, d, Ceiling(q), k);
    var spent := k as real * d;
    RemainingAfterFrames(d, k);
    assert spent < DashDuration;
  }

  lemma QuotientTimesDivisor(x: real, d: real)
    requires d > 0.0
    ensures (x / d) * d == x
  {
  }

  /**
   * At a constant frame length d the dash ends on frame ⌈0.2 / d⌉: the timer is
   * still positive after every earlier frame and at or below zero after that one.
   */
  lemma DashEndsOnFrame(d: real)
    requires d > 0.0
    ensures var n := Ceiling(DashDuration / d);
      n >= 1 &&
      RemainingAfter(DashDuration, Frames(d, n)) <= 0.0 &&
      forall k: nat :: k < n ==> RemainingAfter(DashDuration, Frames(d, k)) > 0.0
  {
    var q := DashDuration / d;
    assert q * d == DashDuration;
    var n := Ceiling(q);
    CeilingScaled(q, d, n, 0);
    RemainingAfterFrames(d, n);
    forall k: nat | k < n
      ensures RemainingAfter(DashDuration, Frames(d, k)) > 0.0
    {
      StillDashingBefore(d, k);
    }
  }

  class DashState {
    var dashTimeRemaining: real

    constructor ()
      ensures dashTimeRemaining == 0.0
    {
      dashTimeRemaining := 0.0;
    }

    /** Enter: dash along the input at DashSpeed, for DashDuration. */
    method Enter(player: Player, input: PlayerInput)
      modifies this, player
      ensures player.movementVelocity == Toward(input.direction, DashSpeed) && player.velocity == player.movementVelocity
      ensures dashTimeRemaining == DashDuration
      ensures player.requests == old(player.requests) && player.fired == old(player.fired)
      ensures player.activeAttackSlot == old(player.activeAttackSlot) && player.activeAttackKey == old(player.activeAttackKey)
    {
      player.movementVelocity := Toward(input.direction, DashSpeed);
      player.velocity := player.movementVelocity;
      dashTimeRemaining := DashDuration;
    }

    /**
     * PhysicsProcess: the timer loses the frame; the dash velocity is kept; only
     * when the timer is at or below zero does the state ask for Move or Idle.
     */
    method PhysicsProcess(player: Player, input: PlayerInput, delta: real)
      modifies this, player
      ensures dashTimeRemaining == old(dashTimeRemaining) - delta
      ensures player.velocity == player.movementVelocity && player.movementVelocity == old(player.movementVelocity)
      ensures player.requests == old(player.requests) + (if dashTimeRemaining <= 0.0 then [MoveOrIdle(input.direction)] else [])
      ensures player.fired == old(player.fired)
      ensures player.activeAttackSlot == old(player.activeAttackSlot) && player.activeAttackKey == old(player.activeAttackKey)
    {
      dashTimeRemaining := dashTimeRemaining - delta;
      player.velocity := player.movementVelocity;
      if dashTimeRemaining <= 0.0 {
        player.requests := player.requests + [MoveOrIdle(input.direction)];
      }
    }
  }
}
