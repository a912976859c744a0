/** The ball counter of `UpdateBalls`: a reload countdown that restores one
    ball at a time up to `maxBallCount`, and a shot that spends one ball and
    spawns it from the pool. */
module Ammo {
  import opened Vectors
  import opened Settings
  import opened BallPool
  import opened Optional

  datatype AmmoState = AmmoState(count: int, reloadCountdown: real, shootCooldown: real)

  /** `Awake` starts with a full counter. */
  function InitialAmmo(s: PlayerSettings): (a: AmmoState)
    requires s.maxBallCount >= 0
    ensures InRange(s, a)
    ensures a.count == s.maxBallCount
  {
    AmmoState(s.maxBallCount, 0.0, 0.0)
  }

  predicate InRange(s: PlayerSettings, a: AmmoState) {
    0 <= a.count <= s.maxBallCount
  }

  /** The reload countdown: below the maximum it runs down, and when it runs
      out one ball comes back; it is re-armed only if the counter is still
      below the maximum. */
  function Reload(s: PlayerSettings, a: AmmoState, delta: real): (r: AmmoState)
    // at most one ball per tick, and only while below the maximum
    ensures r.count == a.count || (r.count == a.count + 1 && a.count < s.maxBallCount)
    ensures a.count >= s.maxBallCount ==> r == a
    ensures a.count < s.maxBallCount ==> (r.count == a.count + 1 <==> a.reloadCountdown - delta <= 0.0)
    // re-armed only if still below the maximum
    ensures r.count == a.count + 1 ==>
      r.reloadCountdown == (if r.count < s.maxBallCount then s.ballReloadTime else a.reloadCountdown - delta)
    ensures InRange(s, a) ==> InRange(s, r)
    ensures r.shootCooldown == a.shootCooldown
  {
    if a.count < s.maxBallCount then
      var c := a.reloadCountdown - delta;
      if c <= 0.0 then
        var n := a.count + 1;
        a.(count := n, reloadCountdown := if n < s.maxBallCount then s.ballReloadTime else c)
      else
        a.(reloadCountdown := c)
    else
      a
  }

  /** The mouse state and kick-range probe a shot depends on. */
  datatype ShotInput = ShotInput(aimHeld: bool, clickPressed: bool, targetInKickRange: bool)

  /** Whether the shot fires this tick. */
  predicate ShotAllowed(a: AmmoState, input: ShotInput, hold: HoldState) {
    && input.aimHeld && input.clickPressed
    && a.shootCooldown <= 0.0
    && a.count > 0
    && !input.targetInKickRange
    && hold.ball.None?
  }

  /** The shot cooldown runs down only while it is positive. */
  function CoolDown(a: AmmoState, delta: real): (r: AmmoState)
    ensures a.shootCooldown > 0.0 ==> r.shootCooldown == a.shootCooldown - delta
    ensures a.shootCooldown <= 0.0 ==> r == a
    ensures r.count == a.count && r.reloadCountdown == a.reloadCountdown
  {
    if a.shootCooldown > 0.0 then a.(shootCooldown := a.shootCooldown - delta) else a
  }

  datatype BallsTick = BallsTick(ammo: AmmoState, pool: Pool, shot: Option<nat>)

  /** The counter part of `UpdateBalls`: reload, cooldown, and the shot that
      spawns a ball. Holding, trajectory preview and the per-ball updates are
      not part of this step; `pool` is the pool as the trajectory preview
      leaves it. */
  function UpdateBallCount(s: PlayerSettings, a: AmmoState, pool: Pool, hold: HoldState, input: ShotInput,
                           prefab: Ball, start: Vec3, delta: real): (r: BallsTick)
    // the shot fires exactly when the gate holds after reloading and cooling down
    ensures r.shot.Some? <==> ShotAllowed(CoolDown(Reload(s, a, delta), delta), input, hold)
    // a shot needs a ball and spends exactly one; without a shot only reloading moves the count
    ensures r.shot.Some? ==> Reload(s, a, delta).count > 0 && r.ammo.count == Reload(s, a, delta).count - 1
    ensures r.shot.None? ==> r.ammo.count == Reload(s, a, delta).count
    // a shot restarts the shot cooldown and leaves the reload countdown armed
    ensures r.shot.Some? ==>
      && r.ammo.shootCooldown == s.shootCooldown
      && (s.ballReloadTime > 0.0 ==> r.ammo.reloadCountdown > 0.0)
    // the shot ball is the pool's spawn
    ensures r.shot.Some? ==>
      var sp := SpawnPlayerBall(pool, prefab, start);
      r.pool == sp.pool && r.shot.value == sp.slot
    ensures r.shot.None? ==> r.pool == pool
    ensures InRange(s, a) ==> InRange(s, r.ammo)
  {
    var a1 := Reload(s, a, delta);
    var a2 := CoolDown(a1, delta);
    if ShotAllowed(a2, input, hold) then
      var sp := SpawnPlayerBall(pool, prefab, start);
      var countdown := if a2.reloadCountdown <= 0.0 then s.ballReloadTime else a2.reloadCountdown;
      BallsTick(AmmoState(a2.count - 1, countdown, s.shootCooldown), sp.pool, Some(sp.slot))
    else
      BallsTick(a2, pool, None)
  }

  /** One tick's inputs to the counter. */
  datatype CountInput = CountInput(input: ShotInput, hold: HoldState, delta: real)

  function RunBallCount(s: PlayerSettings, a: AmmoState, pool: Pool, ticks: seq<CountInput>, prefab: Ball, start: Vec3): BallsTick
    decreases |ticks|
  {
    if ticks == [] then BallsTick(a, pool, None)
    else
      var t := UpdateBallCount(s, a, pool, ticks[0].hold, ticks[0].input, prefab, start, ticks[0].delta);
      RunBallCount(s, t.ammo, t.pool, ticks[1..], prefab, start)
  }

  /** From the initial full counter, the count stays within [0, maxBallCount]
      over any run of ticks. */
  lemma {:induction false} BallCountStaysInRange(s: PlayerSettings, pool: Pool, ticks: seq<CountInput>, prefab: Ball, start: Vec3)
    requires s.maxBallCount >= 0
    ensures InRange(s, RunBallCount(s, InitialAmmo(s), pool, ticks, prefab, start).ammo)
  {
    RunPreservesRange(s, InitialAmmo(s), pool, ticks, prefab, start);
  }

  lemma {:induction false} RunPreservesRange(s: PlayerSettings, a: AmmoState, pool: Pool, ticks: seq<CountInput>, prefab: Ball, start: Vec3)
    requires InRange(s, a)
    ensures InRange(s, RunBallCount(s, a, pool, ticks, prefab, start).ammo)
    decreases |ticks|
  {
    if ticks != [] {
      var t := UpdateBallCount(s, a, pool, ticks[0].hold, ticks[0].input, prefab, start, ticks[0].delta);
      RunPreservesRange(s, t.ammo, t.pool, ticks[1..], prefab, start);
    }
  }
}
