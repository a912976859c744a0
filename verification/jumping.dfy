/** Jump bookkeeping: the charge, stamina, buffer and coyote parts of
    `StaminaAbilities`, the grounded branch of `UpdateAll`, and `Jump`. */
module Jumping {
  import opened Vectors
  import Mathf
  import opened Settings

  /** The keys `StaminaAbilities` polls, sampled once per tick. */
  datatype Keys = Keys(
    spaceHeld: bool,
    spaceReleased: bool,
    shiftHeld: bool,
    shiftReleased: bool,
    bulletTimeHeld: bool)

  const NoKeys := Keys(false, false, false, false, false)

  /** The agent fields the jump bookkeeping reads and writes. */
  datatype Agent = Agent(
    stamina: real,
    chargeProgress: real,
    jumpBuffer: real,
    timeSinceGrounded: real,
    grounded: bool,
    friction: real,
    currentSpeed: real,
    velocity: Vec3)

  /** The stamina a pending charge has taken and would give back if its
      buffered jump expired unused. */
  function Refund(s: PlayerSettings, a: Agent): real {
    a.chargeProgress * s.timeToChargeMaxJump * s.jumpChargeStaminaDrain
  }

  /** The guard of a charge step. */
  predicate CanCharge(a: Agent) {
    a.stamina > 0.0 && a.chargeProgress < 1.0
  }

  lemma DivMulCancel(u: real, t: real, k: real)
    requires t > 0.0
    ensures (u / t) * t * k == u * k
  {
    assert (u / t) * t == u;
  }

  /** Holding space: one charge step when the guard allows it (with a halved
      friction), otherwise full friction. */
  function ChargeStep(s: PlayerSettings, a: Agent, spaceHeld: bool, unscaledDelta: real): (r: Agent)
    requires s.timeToChargeMaxJump > 0.0
    // progress only moves while space is held, stamina is left and progress < 1
    ensures r.chargeProgress != a.chargeProgress ==> spaceHeld && CanCharge(a)
    ensures spaceHeld && CanCharge(a) ==> r.jumpBuffer == 0.0
    ensures spaceHeld && CanCharge(a) && unscaledDelta > 0.0 ==> r.chargeProgress > a.chargeProgress
    // what a step drains is exactly what it adds to the pending refund
    ensures r.stamina + Refund(s, r) == a.stamina + Refund(s, a)
    ensures spaceHeld ==> r.friction == (if CanCharge(a) then s.friction * 0.5 else s.friction)
    ensures !spaceHeld ==> r == a
    ensures r.jumpBuffer == a.jumpBuffer || r.jumpBuffer == 0.0
    ensures r.velocity == a.velocity && r.grounded == a.grounded && r.currentSpeed == a.currentSpeed
  {
    if !spaceHeld then a
    else if CanCharge(a) then
      DivMulCancel(unscaledDelta, s.timeToChargeMaxJump, s.jumpChargeStaminaDrain);
      a.(chargeProgress := a.chargeProgress + unscaledDelta / s.timeToChargeMaxJump,
         stamina := a.stamina - unscaledDelta * s.jumpChargeStaminaDrain,
         jumpBuffer := 0.0,
         friction := s.friction * 0.5)
    else
      a.(friction := s.friction)
  }

  /** Holding shift: sprint speed while stamina lasts, draining it per tick. */
  function SprintStep(s: PlayerSettings, a: Agent, shiftHeld: bool, delta: real): (r: Agent)
    ensures shiftHeld && a.stamina > 0.0 ==>
      r.currentSpeed == s.sprintSpeed && a.stamina - r.stamina == delta * s.sprintStaminaDrain
    ensures shiftHeld && a.stamina <= 0.0 ==> r.currentSpeed == s.baseSpeed && r.stamina == a.stamina
    ensures !shiftHeld ==> r == a
    ensures r.chargeProgress == a.chargeProgress && r.jumpBuffer == a.jumpBuffer && r.velocity == a.velocity
  {
    if !shiftHeld then a
    else if a.stamina > 0.0 then
      a.(currentSpeed := s.sprintSpeed, stamina := a.stamina - delta * s.sprintStaminaDrain)
    else
      a.(currentSpeed := s.baseSpeed)
  }

  /** The jump buffer counts down; when it runs out the pending charge is
      refunded and forgotten. */
  function BufferStep(s: PlayerSettings, a: Agent, delta: real): (r: Agent)
    // expiry pays back exactly the pending refund and clears the charge
    ensures a.jumpBuffer > 0.0 && a.jumpBuffer - delta <= 0.0 ==>
      r.chargeProgress == 0.0 && r.stamina == a.stamina + Refund(s, a)
    ensures !(a.jumpBuffer > 0.0 && a.jumpBuffer - delta <= 0.0) ==>
      r.chargeProgress == a.chargeProgress && r.stamina == a.stamina
    // so stamina plus pending refund is unchanged either way
    ensures r.stamina + Refund(s, r) == a.stamina + Refund(s, a)
    ensures a.jumpBuffer > 0.0 ==> r.jumpBuffer == a.jumpBuffer - delta
    ensures a.jumpBuffer <= 0.0 ==> r == a
  {
    if a.jumpBuffer > 0.0 then
      var b := a.jumpBuffer - delta;
      if b <= 0.0 then
        a.(jumpBuffer := b, stamina := a.stamina + Refund(s, a), chargeProgress := 0.0)
      else
        a.(jumpBuffer := b)
    else
      a
  }

  /** `Jump`: a vertical impulse interpolated by the charge, a forward boost
      along the wish direction, and the charge and buffer consumed. */
  function Jump(s: PlayerSettings, a: Agent, wishDirection: Vec3): (r: Agent)
    ensures r.chargeProgress == 0.0 && r.jumpBuffer == 0.0
    ensures var impulse := r.velocity.y - a.velocity.y - wishDirection.y * s.jumpForwardBoost;
      && (s.minJumpForce <= s.maxJumpForce ==> s.minJumpForce <= impulse <= s.maxJumpForce)
      && (a.chargeProgress >= 1.0 ==> impulse == s.maxJumpForce)
      && (a.chargeProgress <= 0.0 ==> impulse == s.minJumpForce)
    ensures r.velocity.x == a.velocity.x + wishDirection.x * s.jumpForwardBoost
    ensures r.velocity.z == a.velocity.z + wishDirection.z * s.jumpForwardBoost
    ensures r.stamina == a.stamina && r.friction == a.friction && r.grounded == a.grounded
  {
    var v := a.velocity.WithY(a.velocity.y + Mathf.Lerp(s.minJumpForce, s.maxJumpForce, a.chargeProgress));
    a.(velocity := v.Add(wishDirection.Scale(s.jumpForwardBoost)), jumpBuffer := 0.0, chargeProgress := 0.0)
  }

  /** Whether releasing space jumps now: grounded, within coyote time of leaving
      the ground, or while a buffered jump is pending. */
  predicate MayJump(s: PlayerSettings, a: Agent) {
    a.grounded || a.timeSinceGrounded <= s.coyoteTime || a.jumpBuffer > 0.0
  }

  /** Releasing space: jump if allowed, otherwise open the jump buffer. */
  function ReleaseStep(s: PlayerSettings, a: Agent, spaceReleased: bool, wishDirection: Vec3): (r: Agent)
    ensures spaceReleased && MayJump(s, a) ==> r == Jump(s, a, wishDirection).(friction := s.friction)
    ensures spaceReleased && !MayJump(s, a) ==>
      && r.jumpBuffer == s.jumpBufferTime
      && r.velocity == a.velocity
      && r.chargeProgress == a.chargeProgress
      && r.stamina == a.stamina
      && r.friction == s.friction
    ensures !spaceReleased ==> r == a
  {
    if !spaceReleased then a
    else if MayJump(s, a) then Jump(s, a, wishDirection).(friction := s.friction)
    else a.(jumpBuffer := s.jumpBufferTime, friction := s.friction)
  }

  /** With none of space, shift or the bullet-time key held, stamina recovers
      and is clamped to [0, maxStamina]; this is the only clamp on stamina. */
  function RecoveryStep(s: PlayerSettings, a: Agent, keys: Keys, delta: real): (r: Agent)
    ensures Recovering(keys) && s.maxStamina >= 0.0 ==> 0.0 <= r.stamina <= s.maxStamina
    ensures Recovering(keys) && 0.0 <= a.stamina <= s.maxStamina && s.staminaRecoveryRate * delta >= 0.0 ==>
      r.stamina >= a.stamina
    // from within the range, recovery adds rate * delta and saturates at maxStamina
    ensures Recovering(keys) && 0.0 <= a.stamina <= s.maxStamina && s.staminaRecoveryRate * delta >= 0.0 ==>
      r.stamina == Mathf.Min(a.stamina + s.staminaRecoveryRate * delta, s.maxStamina)
    ensures !Recovering(keys) ==> r == a
    ensures r.chargeProgress == a.chargeProgress && r.jumpBuffer == a.jumpBuffer && r.velocity == a.velocity
  {
    if Recovering(keys) then
      a.(stamina := Mathf.Clamp(a.stamina + s.staminaRecoveryRate * delta, 0.0, s.maxStamina))
    else a
  }

  predicate Recovering(keys: Keys) {
    !keys.spaceHeld && !keys.shiftHeld && !keys.bulletTimeHeld
  }

  /** The jump and stamina part of `StaminaAbilities`, in the source's order:
      charge, sprint, buffer countdown, space release, shift release, recovery. */
  function StaminaTick(s: PlayerSettings, a: Agent, keys: Keys, delta: real, unscaledDelta: real, wishDirection: Vec3): (r: Agent)
    requires s.timeToChargeMaxJump > 0.0
    // the only step that raises the charge is a charge step, under its guard
    ensures a.chargeProgress >= 0.0 && r.chargeProgress > a.chargeProgress ==> keys.spaceHeld && CanCharge(a)
    ensures a.chargeProgress >= 0.0 && r.chargeProgress > a.chargeProgress ==>
      r.chargeProgress == a.chargeProgress + unscaledDelta / s.timeToChargeMaxJump
    // a non-negative charge stays non-negative
    ensures a.chargeProgress >= 0.0 && unscaledDelta >= 0.0 ==> r.chargeProgress >= 0.0
    // the buffer never exceeds its configured length
    ensures a.jumpBuffer <= s.jumpBufferTime && s.jumpBufferTime >= 0.0 && delta >= 0.0 ==>
      r.jumpBuffer <= s.jumpBufferTime
  {
    var a1 := ChargeStep(s, a, keys.spaceHeld, unscaledDelta);
    var a2 := SprintStep(s, a1, keys.shiftHeld, delta);
    var a3 := BufferStep(s, a2, delta);
    var a4 := ReleaseStep(s, a3, keys.spaceReleased, wishDirection);
    var a5 := if keys.shiftReleased then a4.(currentSpeed := s.baseSpeed) else a4;
    RecoveryStep(s, a5, keys, delta)
  }

  /** The grounding branch of `UpdateAll` (movement itself aside): on the
      ground the coyote timer resets and a buffered jump fires; in the air the
      coyote timer runs. */
  function LandingStep(s: PlayerSettings, a: Agent, wishDirection: Vec3, delta: real): (r: Agent)
    ensures a.grounded ==> r.timeSinceGrounded == 0.0 && r.jumpBuffer <= 0.0
    ensures a.grounded && a.jumpBuffer > 0.0 ==> r == Jump(s, a, wishDirection).(timeSinceGrounded := 0.0)
    ensures !(a.grounded && a.jumpBuffer > 0.0) ==> r.velocity == a.velocity && r.chargeProgress == a.chargeProgress
    ensures !a.grounded ==> r.timeSinceGrounded == a.timeSinceGrounded + delta
  {
    if a.grounded then
      var b := a.(timeSinceGrounded := 0.0);
      if b.jumpBuffer > 0.0 then Jump(s, b, wishDirection) else b
    else
      a.(timeSinceGrounded := a.timeSinceGrounded + delta)
  }

  // ---------------------------------------------------------------------
  // Runs of charge steps

  /** Space held for a run of ticks with the given unscaled deltas. */
  function Charges(s: PlayerSettings, a: Agent, unscaled: seq<real>): Agent
    requires s.timeToChargeMaxJump > 0.0
    decreases |unscaled|
  {
    if unscaled == [] then a
    else Charges(s, ChargeStep(s, a, true, unscaled[0]), unscaled[1..])
  }

  function Sum(xs: seq<real>): real {
    if xs == [] then 0.0 else xs[0] + Sum(xs[1..])
  }

  /** Starting from no charge, the refund a run of charge steps banks is exactly
      the stamina those steps drained. */
  lemma {:induction false} RefundEqualsDrained(s: PlayerSettings, a: Agent, unscaled: seq<real>)
    requires s.timeToChargeMaxJump > 0.0
    requires a.chargeProgress == 0.0
    ensures Refund(s, Charges(s, a, unscaled)) == a.stamina - Charges(s, a, unscaled).stamina
  {
    LedgerAcrossCharges(s, a, unscaled);
  }

  lemma {:induction false} LedgerAcrossCharges(s: PlayerSettings, a: Agent, unscaled: seq<real>)
    requires s.timeToChargeMaxJump > 0.0
    ensures Charges(s, a, unscaled).stamina + Refund(s, Charges(s, a, unscaled)) == a.stamina + Refund(s, a)
    decreases |unscaled|
  {
    if unscaled != [] {
      LedgerAcrossCharges(s, ChargeStep(s, a, true, unscaled[0]), unscaled[1..]);
    }
  }

  /** What a run of charge steps adds to the progress, step by step. */
  function Progress(unscaled: seq<real>, t: real): real
    requires t > 0.0
  {
    if unscaled == [] then 0.0 else unscaled[0] / t + Progress(unscaled[1..], t)
  }

  /** What a run of charge steps drains from stamina, step by step. */
  function Drained(unscaled: seq<real>, d: real): real {
    if unscaled == [] then 0.0 else unscaled[0] * d + Drained(unscaled[1..], d)
  }

  /** Charge steps accumulate: when the run's shares fit in what is left of the
      charge and its drains in the stamina, progress rises by each step's share
      and stamina falls by each step's drain. Zero steps, which every tick
      after a frame's first sees, add and drain nothing, whether or not the
      guard lets them through. */
  lemma {:induction false} ChargesAccumulate(s: PlayerSettings, a: Agent, unscaled: seq<real>)
    requires Valid(s)
    requires forall i :: 0 <= i < |unscaled| ==> unscaled[i] >= 0.0
    requires a.chargeProgress + Progress(unscaled, s.timeToChargeMaxJump) <= 1.0
    requires a.stamina > Drained(unscaled, s.jumpChargeStaminaDrain)
    ensures Charges(s, a, unscaled).chargeProgress == a.chargeProgress + Progress(unscaled, s.timeToChargeMaxJump)
    ensures Charges(s, a, unscaled).stamina == a.stamina - Drained(unscaled, s.jumpChargeStaminaDrain)
    decreases |unscaled|
  {
    if unscaled != [] {
      var u := unscaled[0];
      StepShares(u, s.timeToChargeMaxJump, s.jumpChargeStaminaDrain);
      SharesNonNegative(unscaled[1..], s.timeToChargeMaxJump, s.jumpChargeStaminaDrain);
      if CanCharge(a) {
        GuardedChargeStep(s, a, u);
      } else {
        // only a full charge blocks the step here, and then the step is zero
        assert a.chargeProgress >= 1.0;
        assert u == 0.0;
        BlockedChargeStep(s, a, u);
      }
      ChargesAccumulate(s, ChargeStep(s, a, true, u), unscaled[1..]);
    }
  }

  /** The per-step progress shares add up to the total time over the charge time. */
  lemma {:induction false} ProgressIsShare(unscaled: seq<real>, t: real)
    requires t > 0.0
    ensures Progress(unscaled, t) == Sum(unscaled) / t
    decreases |unscaled|
  {
    if unscaled != [] {
      ProgressIsShare(unscaled[1..], t);
      DivAdd(unscaled[0], Sum(unscaled[1..]), t);
    }
  }

  /** The per-step drains add up to the total time times the drain rate. */
  lemma {:induction false} DrainedIsShare(unscaled: seq<real>, d: real)
    ensures Drained(unscaled, d) == Sum(unscaled) * d
    decreases |unscaled|
  {
    if unscaled != [] {
      DrainedIsShare(unscaled[1..], d);
      MulAdd(unscaled[0], Sum(unscaled[1..]), d);
    }
  }

  lemma {:induction false} SharesNonNegative(unscaled: seq<real>, t: real, d: real)
    requires forall i :: 0 <= i < |unscaled| ==> unscaled[i] >= 0.0
    requires t > 0.0 && d >= 0.0
    ensures Progress(unscaled, t) >= 0.0 && Drained(unscaled, d) >= 0.0
    decreases |unscaled|
  {
    if unscaled != [] {
      StepShares(unscaled[0], t, d);
      SharesNonNegative(unscaled[1..], t, d);
    }
  }

  // Arithmetic step: a non-negative tick adds a non-negative share and drain.
  lemma StepShares(u: real, t: real, d: real)
    requires u >= 0.0 && t > 0.0 && d >= 0.0
    ensures u / t >= 0.0 && u * d >= 0.0
    ensures u > 0.0 ==> u / t > 0.0
  {
  }

  // Arithmetic step: dividing a sum by t is summing the quotients.
  lemma DivAdd(u: real, rest: real, t: real)
    requires t > 0.0
    ensures (u + rest) / t == u / t + rest / t
  {
  }

  // Arithmetic step: multiplying a sum by d is summing the products.
  lemma MulAdd(u: real, rest: real, d: real)
    ensures (u + rest) * d == u * d + rest * d
  {
  }

  /** A charge step its guard blocks changes neither progress nor stamina. */
  lemma BlockedChargeStep(s: PlayerSettings, a: Agent, u: real)
    requires s.timeToChargeMaxJump > 0.0 && !CanCharge(a)
    ensures ChargeStep(s, a, true, u).chargeProgress == a.chargeProgress
    ensures ChargeStep(s, a, true, u).stamina == a.stamina
  {
  }

  /** A charge step that its guard allows, in closed form. */
  lemma GuardedChargeStep(s: PlayerSettings, a: Agent, u: real)
    requires s.timeToChargeMaxJump > 0.0 && CanCharge(a)
    ensures ChargeStep(s, a, true, u).chargeProgress == a.chargeProgress + u / s.timeToChargeMaxJump
    ensures ChargeStep(s, a, true, u).stamina == a.stamina - u * s.jumpChargeStaminaDrain
  {
  }

  /** Holding the charge from zero for exactly the charge time, with enough
      stamina, reaches full charge, and the jump then adds exactly the maximum
      jump force. */
  lemma FullChargeGivesMaxJump(s: PlayerSettings, a: Agent, unscaled: seq<real>, wishDirection: Vec3)
    requires Valid(s)
    requires forall i :: 0 <= i < |unscaled| ==> unscaled[i] >= 0.0
    requires Sum(unscaled) == s.timeToChargeMaxJump
    requires a.chargeProgress == 0.0
    requires a.stamina > s.timeToChargeMaxJump * s.jumpChargeStaminaDrain
    ensures Charges(s, a, unscaled).chargeProgress == 1.0
    ensures var c := Charges(s, a, unscaled);
      Jump(s, c, wishDirection).velocity.y == c.velocity.y + s.maxJumpForce + wishDirection.y * s.jumpForwardBoost
  {
    ProgressIsShare(unscaled, s.timeToChargeMaxJump);
    DrainedIsShare(unscaled, s.jumpChargeStaminaDrain);
    DivSelf(Sum(unscaled), s.timeToChargeMaxJump);
    assert Progress(unscaled, s.timeToChargeMaxJump) == 1.0;
    ChargesAccumulate(s, a, unscaled);
  }

  // Arithmetic step: a charge time over itself is full progress.
  lemma DivSelf(x: real, t: real)
    requires t > 0.0 && x == t
    ensures x / t == 1.0
  {
  }

  /** The refund on buffer expiry is not clamped, so `StaminaTick` can end
      above `maxStamina`: with the default profile, a 1.5 s charge from full
      stamina, a 9 s release tick in the air and an expiry tick with the
      bullet-time key held leave 145 stamina out of 100. The ticks here are
      longer than any the clock produces: the release tick recovers 45 while
      it opens the buffer, so the buffer never counts down under recovery.
      `RefundOvershootWithShortTicks` follows the same charge with 0.1 s ticks. */
  lemma RefundCanExceedMaxStamina()
    ensures
      var a1 := StaminaTick(Defaults, TraceStart, NoKeys.(spaceHeld := true), 1.5, 1.5, Zero);
      var a2 := StaminaTick(Defaults, a1, NoKeys.(spaceReleased := true), 9.0, 9.0, Zero);
      var a3 := StaminaTick(Defaults, a2, NoKeys.(bulletTimeHeld := true), 0.3, 0.3, Zero);
      a3.stamina == 145.0 && a3.stamina > Defaults.maxStamina
  {
    TraceTick1();
    TraceTick2();
    TraceTick3();
  }

  const TraceStart := Agent(100.0, 0.0, 0.0, 1.0, false, 50.0, 20.0, Zero)
  const TraceAfter1 := TraceStart.(chargeProgress := 0.5, stamina := 55.0, friction := 25.0)
  const TraceAfter2 := TraceAfter1.(jumpBuffer := 0.3, friction := 50.0, stamina := 100.0)

  lemma TraceTick1()
    ensures StaminaTick(Defaults, TraceStart, NoKeys.(spaceHeld := true), 1.5, 1.5, Zero) == TraceAfter1
  {
    assert 1.5 / 3.0 == 0.5;
    assert ChargeStep(Defaults, TraceStart, true, 1.5) == TraceAfter1;
  }

  lemma TraceTick2()
    ensures StaminaTick(Defaults, TraceAfter1, NoKeys.(spaceReleased := true), 9.0, 9.0, Zero) == TraceAfter2
  {
    assert !MayJump(Defaults, TraceAfter1);
  }

  lemma TraceTick3()
    ensures StaminaTick(Defaults, TraceAfter2, NoKeys.(bulletTimeHeld := true), 0.3, 0.3, Zero).stamina == 145.0
  {
    assert Refund(Defaults, TraceAfter2) == 45.0;
  }

  /** After the same charge, with 0.1 s ticks: the release opens the 0.3 s
      buffer, and only three ticks of recovery (1.5 stamina) pass before the
      buffer runs out with the bullet-time key held and refunds 45. */
  lemma RefundOvershootWithShortTicks()
    ensures
      var b1 := StaminaTick(Defaults, TraceAfter1, NoKeys.(spaceReleased := true), 0.1, 0.1, Zero);
      var b2 := StaminaTick(Defaults, b1, NoKeys, 0.1, 0.1, Zero);
      var b3 := StaminaTick(Defaults, b2, NoKeys, 0.1, 0.1, Zero);
      var b4 := StaminaTick(Defaults, b3, NoKeys.(bulletTimeHeld := true), 0.1, 0.1, Zero);
      b4.stamina == 101.5 && b4.stamina - Defaults.maxStamina == Defaults.staminaRecoveryRate * Defaults.jumpBufferTime
  {
    ShortTickRelease();
    ShortTickWait();
    ShortTickExpiry();
  }

  const ShortAfterRelease := TraceAfter1.(jumpBuffer := 0.3, friction := 50.0, stamina := 55.5)
  const ShortBeforeExpiry := ShortAfterRelease.(jumpBuffer := 0.1, stamina := 56.5)

  lemma ShortTickRelease()
    ensures StaminaTick(Defaults, TraceAfter1, NoKeys.(spaceReleased := true), 0.1, 0.1, Zero) == ShortAfterRelease
  {
    assert !MayJump(Defaults, TraceAfter1);
  }

  lemma ShortTickWait()
    ensures StaminaTick(Defaults, StaminaTick(Defaults, ShortAfterRelease, NoKeys, 0.1, 0.1, Zero), NoKeys, 0.1, 0.1, Zero)
            == ShortBeforeExpiry
  {
    var b2 := ShortAfterRelease.(jumpBuffer := 0.2, stamina := 56.0);
    assert StaminaTick(Defaults, ShortAfterRelease, NoKeys, 0.1, 0.1, Zero) == b2;
  }

  lemma ShortTickExpiry()
    ensures StaminaTick(Defaults, ShortBeforeExpiry, NoKeys.(bulletTimeHeld := true), 0.1, 0.1, Zero).stamina == 101.5
  {
    assert Refund(Defaults, ShortBeforeExpiry) == 45.0;
  }

  /** `GetKeyUp(Space)` holds for the whole rendered frame, so every tick of a
      long frame sees the same release. In the air past coyote time, the
      first tick opens the jump buffer and the second tick, with the buffer
      still running, jumps: the release jumps mid-air instead of waiting for
      the ground. */
  lemma ReleaseRepeatsWithinFrame(s: PlayerSettings, a: Agent, keys: Keys, delta: real,
                                  unscaled1: real, unscaled2: real, wishDirection: Vec3)
    requires s.timeToChargeMaxJump > 0.0
    requires keys.spaceReleased && !keys.spaceHeld
    requires !MayJump(s, a) && 0.0 <= delta < s.jumpBufferTime
    ensures var r1 := StaminaTick(s, a, keys, delta, unscaled1, wishDirection);
      && r1.jumpBuffer == s.jumpBufferTime && r1.velocity == a.velocity
      && r1.chargeProgress == a.chargeProgress
    ensures var r1 := StaminaTick(s, a, keys, delta, unscaled1, wishDirection);
      var r2 := StaminaTick(s, r1, keys, delta, unscaled2, wishDirection);
      && r2.velocity == Jump(s, a, wishDirection).velocity
      && r2.jumpBuffer == 0.0 && r2.chargeProgress == 0.0
  {
  }

  /** A 20 ms frame of two 10 ms ticks in which space is released, after the
      1.5 s charge: the agent is in the air and 1 s past grounding, yet jumps
      at half charge within the frame. */
  lemma TwoTickReleaseJumps()
    ensures
      var b1 := StaminaTick(Defaults, TraceAfter1, NoKeys.(spaceReleased := true), 0.01, 0.01, Zero);
      var b2 := StaminaTick(Defaults, b1, NoKeys.(spaceReleased := true), 0.01, 0.0, Zero);
      && b1.jumpBuffer == Defaults.jumpBufferTime && b1.velocity.y == 0.0
      && b2.jumpBuffer == 0.0 && b2.chargeProgress == 0.0
      && b2.velocity.y == Mathf.Lerp(Defaults.minJumpForce, Defaults.maxJumpForce, 0.5) > 0.0
  {
    ReleaseRepeatsWithinFrame(Defaults, TraceAfter1, NoKeys.(spaceReleased := true), 0.01, 0.01, 0.0, Zero);
  }
}
