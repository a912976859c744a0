/** The grappling hook of `StaminaAbilities`: a cast gated by the hook timer,
    a single pull once the timer reaches `hookPullDelay`, and a reset of the
    whole cycle at twice that delay. The rope object itself is external; the
    model only tracks whether one exists. */
module Hook {
  import opened Vectors
  import opened Optional
  import Mathf
  import opened Settings
  import opened BallPool

  /** `_hookRope != null`, `_hookTimer`, `_hookFlyTimer`, `_hookPulled` and
      `_hookPullingBall`. */
  datatype HookState = HookState(rope: bool, timer: real, flyTimer: real, pulled: bool, pullingBall: Option<nat>)

  const Idle := HookState(false, 0.0, 0.0, false, None)

  /** What the aiming probes found: a ball, a point of level geometry, or
      nothing to hook onto. */
  datatype HookTarget = TargetBall(slot: nat) | TargetGround | NoTarget

  /** The probes are tried in order: a sphere cast against projectiles (which
      only counts if it hit a ball), then a ray and a sphere cast against the
      level. `projectileHit` is `None` for no hit, `Some(None)` for a hit that
      is not a ball, `Some(Some(i))` for ball slot i. */
  function ResolveTarget(projectileHit: Option<Option<nat>>, rayHitLevel: bool, sphereHitLevel: bool): (t: HookTarget)
    // a ball in range wins over the level
    ensures projectileHit.Some? && projectileHit.value.Some? ==> t == TargetBall(projectileHit.value.value)
    // any projectile hit shadows the level probes, even one that is not a ball
    ensures projectileHit.Some? && projectileHit.value.None? ==> t == NoTarget
    ensures projectileHit.None? ==> (t == TargetGround <==> rayHitLevel || sphereHitLevel)
    ensures t.TargetBall? ==> projectileHit == Some(Some(t.slot))
  {
    match projectileHit
    case Some(hit) =>
      (match hit
       case Some(i) => TargetBall(i)
       case None => NoTarget)
    case None =>
      if rayHitLevel || sphereHitLevel then TargetGround else NoTarget
  }

  datatype HookTick = HookTick(hook: HookState, hold: HoldState, velocity: Vec3, cast: bool, pullFired: bool)

  /** The cycle's invariant: an idle hook has zeroed timers and nothing pending;
      a live rope's timer lies in [0, 2 * pullDelay), it has pulled exactly
      when the timer has reached the pull delay, and a ball is still being
      pulled only before the pull. */
  predicate HookInv(s: PlayerSettings, h: HookState) {
    && (!h.rope ==> h.timer == 0.0 && h.flyTimer == 0.0 && !h.pulled && h.pullingBall.None?)
    && (h.rope ==>
          && 0.0 <= h.timer < 2.0 * s.hookPullDelay
          && (h.pulled <==> h.timer >= s.hookPullDelay)
          && (h.pullingBall.Some? ==> !h.pulled))
  }

  /** The ball the hook is pulling once this tick's cast is settled: a ball
      just hooked, or the one already being pulled. */
  function PendingBall(h: HookState, castPressed: bool, target: HookTarget): (b: Option<nat>)
    ensures target.TargetBall? && h.timer <= 0.0 && castPressed ==> b == Some(target.slot)
    ensures !(h.timer <= 0.0 && castPressed) ==> b == h.pullingBall
  {
    if h.timer <= 0.0 && castPressed && target.TargetBall? then Some(target.slot) else h.pullingBall
  }

  /** One tick of the hook part of `StaminaAbilities`. `castPressed` is the
      cast key, `endToStart` the rope's end-to-start direction, and `flyStep`
      how far the rope's easing helper advanced its fly timer this tick. */
  function StepHook(s: PlayerSettings, h: HookState, hold: HoldState, velocity: Vec3, castPressed: bool,
                    target: HookTarget, endToStart: Vec3, flyStep: real, delta: real): (r: HookTick)
    // a cast creates a rope only with the timer at rest and a target found
    ensures r.cast <==> h.timer <= 0.0 && castPressed && target != NoTarget
    // the pull fires only once per cycle: never when already pulled
    ensures r.pullFired ==> !h.pulled
    // the pull leaves vertical speed in [hookUpPower, 40 + hookUpPower]
    ensures r.pullFired ==> s.hookUpPower <= r.velocity.y <= 40.0 + s.hookUpPower
    // a pulled ball is captured into the hold when the pull fires, and the
    // agent keeps its horizontal velocity; without one the rope yanks the agent
    ensures r.pullFired ==> r.hook.pullingBall.None?
    ensures r.hold.ball != hold.ball ==> r.pullFired
    ensures var pending := PendingBall(h, castPressed, target);
      r.pullFired && pending.Some? ==>
        r.hold.ball == pending && r.velocity.x == velocity.x && r.velocity.z == velocity.z
    ensures var pending := PendingBall(h, castPressed, target);
      r.pullFired && pending.None? ==>
        r.velocity.x == s.hookPullPower * endToStart.x && r.velocity.z == s.hookPullPower * endToStart.z
    // nothing else touches the agent's velocity
    ensures !r.pullFired ==> r.velocity == velocity
    // once the timer reaches twice the pull delay everything is reset
    ensures (h.rope || r.cast) && h.timer + delta >= 2.0 * s.hookPullDelay ==>
      !r.hook.rope && !r.hook.pulled && r.hook.timer == 0.0 && r.hook.flyTimer == 0.0
    // without a rope the timers do not run
    ensures !h.rope && !r.cast ==> r.hook == h && r.velocity == velocity
    ensures s.hookPullDelay > 0.0 && delta >= 0.0 && HookInv(s, h) ==> HookInv(s, r.hook)
  {
    var castNow := h.timer <= 0.0 && castPressed;
    var created := castNow && target != NoTarget;
    var h1 := if created then h.(rope := true) else h;
    var h2 := if castNow && target.TargetBall? then h1.(pullingBall := Some(target.slot)) else h1;
    var hold1 := if castNow && target.TargetBall? then hold.(pulledBall := true) else hold;
    if !h2.rope then
      HookTick(h2, hold1, velocity, created, false)
    else
      var fly := if h2.timer <= s.hookPullDelay then h2.flyTimer + flyStep else h2.flyTimer;
      var t := h2.timer + delta;
      var fire := t >= s.hookPullDelay && !h2.pulled;
      var hold2 := if fire && h2.pullingBall.Some? then hold1.(ball := h2.pullingBall) else hold1;
      var v :=
        if !fire then velocity
        else
          var pulledVelocity := if h2.pullingBall.Some? then velocity else endToStart.Scale(s.hookPullPower);
          pulledVelocity.WithY(Mathf.Clamp(pulledVelocity.y, 0.0, 40.0) + s.hookUpPower);
      var h3 := if fire then h2.(pulled := true, pullingBall := None) else h2;
      var h4 := h3.(timer := t, flyTimer := fly);
      var h5 := if t >= 2.0 * s.hookPullDelay then h4.(pulled := false, rope := false, timer := 0.0, flyTimer := 0.0) else h4;
      HookTick(h5, hold2, v, created, fire)
  }

  /** Exactly one pull per cycle: a tick after the pull never pulls again,
      after a pull the hook stays pulled until it resets, and a cycle that
      ends this tick has pulled, at the latest in this same tick (the pull is
      checked before the reset). */
  lemma PullFiresOncePerCycle(s: PlayerSettings, h: HookState, hold: HoldState, velocity: Vec3, castPressed: bool,
                              target: HookTarget, endToStart: Vec3, flyStep: real, delta: real)
    requires s.hookPullDelay > 0.0 && delta >= 0.0
    requires HookInv(s, h)
    ensures var r := StepHook(s, h, hold, velocity, castPressed, target, endToStart, flyStep, delta);
      && (h.pulled ==> !r.pullFired)
      && (r.pullFired ==> r.hook.pulled || !r.hook.rope)
      && (h.rope && !r.hook.rope ==> h.pulled || r.pullFired)
      && (h.rope && r.hook.rope && !r.cast ==> r.hook.timer >= h.timer)
  {
  }

  /** The default profile's 0.4 s pull delay: a cast followed by a 0.41 s tick
      has pulled and holds the rope; another 0.4 s brings the hook back to idle
      with no rope left. */
  lemma HookCycleScenario(hold: HoldState, velocity: Vec3, endToStart: Vec3)
    ensures
      var r1 := StepHook(Defaults, Idle, hold, velocity, true, TargetGround, endToStart, 0.0, 0.41);
      var r2 := StepHook(Defaults, r1.hook, r1.hold, r1.velocity, false, NoTarget, endToStart, 0.0, 0.4);
      && r1.cast && r1.pullFired && r1.hook.rope && r1.hook.pulled
      && !r2.pullFired && r2.hook == Idle
  {
  }
}
