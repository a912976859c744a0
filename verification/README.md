# TowerThatGodBuilt player controller: a Dafny model

This project models the discrete and scalar bookkeeping of the first-person
player controller in `Assets/Source/PlayerController.cs` of the Unity game
*TowerThatGodBuilt*. The agent runs, charges and buffers jumps, spends stamina,
casts a grappling hook, shoots and kicks pooled balls, and lets those balls
ricochet off enemies and level geometry. The controller's pieces are sequential
per-tick step functions over a small state record. Each piece is modelled as a
pure Dafny function over immutable datatypes:

- **Clock** (`Update`): a fixed-step clock. Each rendered frame becomes either
  k >= 1 ticks of `MIN_FRAME_DELTA` with a carried remainder, or one short tick
  of the whole accumulated time. A non-positive `GAME_DELTA_SCALE` freezes it.
- **Locomotion** (`Accelerate`, and the wish speed of `GroundMove` and
  `AirMove`): Quake-style acceleration on the horizontal plane.
- **Jumping** (`StaminaAbilities`, `Jump`, and the grounded branch of `UpdateAll`):
  - jump charging, sprinting and the jump buffer with its stamina refund
  - jump release with coyote time, and stamina recovery
  - the jump impulse
- **Hook** (the hook part of `StaminaAbilities`):
  - the cast gate and the choice of target
  - one pull per cycle, and the reset at twice the pull delay
- **BallPool** (`SpawnPlayerBall`, `DisableBall`, `InitBall`, `StopHoldingBall`):
  the ball pool as a `seq` of slots that are reused, never removed.
- **Ammo** (the counter part of `UpdateBalls`): the ball counter, the reload
  countdown, the shot cooldown and the shot.
- **BallCollisions** (`CalculateBallCollisions`, `BallRicocheCharged`,
  `ReflectToPlayer`, `ReflectToNearbyEnemy`):
  - the enemy sweep with its win gate, its filters and the enemy-type dispatch
  - the ricochet counter
  - the level bounce with its restitution
- **Kick** (`UpdateKick`): the cooldown and the performing timer, the
  per-kick de-duplication of targets, and the ball kick.

How the source maps to the model:

- Floats are Dafny `real`, and `Vector3` is `Vectors.Vec3`.
- The engine's `Mathf.Clamp`, `Clamp01` and `Lerp` are `Mathf`. `Lerp`
  clamps its parameter, as the engine's does.
- Engine physics queries become inputs: the hits of a sweep, the targets in
  the kick box, what the hook probes found.
- Vectors the source normalises arrive already normalised.
- Key and mouse states are per-tick input records. The engine's edge queries
  (`GetKeyUp`, `GetKeyDown`, `GetMouseButtonDown`, `GetMouseButtonUp`) hold for
  a whole rendered frame, and a long frame calls `UpdateAll` once per tick
  (lines 233-238). A caller that composes a frame's ticks must therefore pass
  the same edge to every tick of that frame.
- Side effects on other objects are returned as effect lists: kicks and hits
  on enemies, deflected enemy projectiles, pushed rope nodes.
- `GAME_DELTA_SCALE` and `MIN_FRAME_DELTA` are declared in a utility class that
  is not part of this model. They are parameters (`Clock.ClockParams`), held
  fixed over a run of frames. The controller's own debug keys can change
  `GAME_DELTA_SCALE`; see "## Left out".

Where the code behaves unexpectedly, the model follows the code:

- **Stamina** is not kept within [0, `maxStamina`].
  - A charge step has no lower clamp.
  - The refund when a buffered jump expires is not clamped either.
  - Only recovery clamps (`Jumping.RecoveryStep`).
  - With the ticks the clock produces, recovery runs only while the buffer
    counts down, so the refund can leave stamina above `maxStamina` by about
    `staminaRecoveryRate * (jumpBufferTime + one tick)`.
    `Jumping.RefundOvershootWithShortTicks` reaches 101.5 out of 100 with the
    default profile and 0.1 s ticks.
  - `Jumping.RefundCanExceedMaxStamina` shows that `StaminaTick` itself has
    no bound. With ticks longer than the clock produces it reaches 145.
- **Jump charge progress** is not clamped to [0, 1]. It can overshoot 1 by one
  step. The impulse still stays within [`minJumpForce`, `maxJumpForce`],
  because `Lerp` clamps.
- **Ricochet charge after disabling.** `DisableBall` does not clear
  `ricocheCharged` or `chargedBounceCount`. `SpawnPlayerBall` stops the
  charge particles but does not clear the flag either. So a reused slot can
  come back charged (`BallPool.SpawnKeepsStaleCharge`).
- **Kick counters.** A kick resets `groundBounceCount` and `lifeTime`, not
  `bounceCount` (`Kick.KickBall`).
- **Blocker and WindGuy** hits still reflect the ball. They take a kick in the
  first switch and fall into the second switch's `default`
  (`BallCollisions.HitEnemy`).
- **Game time in bullet time.** A long frame advances the game by
  `timeScale * GAME_DELTA_SCALE` times the accumulated time it consumes. A
  short frame advances it by exactly the time it consumes. With
  `GAME_DELTA_SCALE` 1, `timeScale` 0.5 and `MIN_FRAME_DELTA` 0.01, a 0.05 s
  frame consumes 0.04 s in four ticks whose deltas sum to 0.02 s, while a
  0.005 s frame advances the game by the whole 0.005 s
  (`Clock.AdvanceFrame`, `Clock.BulletTimeFrames`).
- **A release repeats within a frame.** Every tick of a long frame sees the
  same `GetKeyUp(Space)`. In the air past coyote time, the first tick opens
  the jump buffer (line 374). The second tick finds the buffer running
  (line 371) and jumps. So releasing space in a frame of two or more ticks
  jumps mid-air at once, instead of buffering the jump until landing
  (`Jumping.ReleaseRepeatsWithinFrame`, `Jumping.TwoTickReleaseJumps`).
- **Predicted balls deflect projectiles.** The level sweep deflects enemy
  projectiles even for predicted balls. See Findings.

## Model

| member | source | states |
|---|---|---|
| Mathf.Clamp | Assets/Source/PlayerController.cs:384 | the result lies in [lo, hi] when lo <= hi, equals x inside the range, and the lower bound wins when x is below it |
| Mathf.Clamp01 | Assets/Source/PlayerController.cs:516 | the result lies in [0, 1] and is t itself inside that range |
| Mathf.Lerp | Assets/Source/PlayerController.cs:561 | with a <= b the result lies in [a, b] whatever the parameter; t <= 0 gives a, t >= 1 gives b |
| Mathf.Min | Assets/Source/PlayerController.cs:611-613 | the result is one of the two arguments and at most both |
| Vectors.ReflectKeepsSqrMagnitude | Assets/Source/PlayerController.cs:972 | `Vector3.Reflect` off a unit normal keeps the squared length of the vector |
| Vectors.ReflectFlipsNormalComponent | Assets/Source/PlayerController.cs:972 | reflection off a unit normal negates the component along the normal |
| Vectors.Reflect | Assets/Source/PlayerController.cs:965 | `Vector3.Reflect(v, n)` is v - 2 (v . n) n, the reflection the level loop uses at lines 965, 968 and 972; off a unit normal it keeps the squared length and negates the normal component (`Vectors.ReflectKeepsSqrMagnitude`, `Vectors.ReflectFlipsNormalComponent`) |
| Clock.SumSpansAppend | Assets/Source/PlayerController.cs:234-239 | the accumulated time consumed by two runs of ticks adds up |
| Clock.Drain | Assets/Source/PlayerController.cs:234-239 | the `while (fullDelta > MIN_FRAME_DELTA)` loop runs k times with k * MIN + rest = accumulator and rest <= MIN; it runs at least once exactly when the accumulator exceeds MIN, and then leaves a positive rest |
| Clock.DivShift | Assets/Source/PlayerController.cs:236 | taking one MIN off the accumulator lowers accumulator / MIN by one, so the loop terminates |
| Clock.FixedTicks | Assets/Source/PlayerController.cs:233-238 | k ticks of the same delta, of which only the first sees the frame's unscaled delta, consuming k * MIN in total |
| Clock.AdvanceFrame | Assets/Source/PlayerController.cs:220-243 | a frozen clock runs nothing and keeps its carry; otherwise the accumulated time the ticks consume plus the new carry is the scaled frame time plus the old carry; a long frame runs k >= 1 ticks of MIN * timeScale * GAME_DELTA_SCALE with carry in (0, MIN] and advances the game by timeScale * GAME_DELTA_SCALE times the time it consumes, which differs from it whenever that factor is not 1; a short frame runs one tick of the whole accumulator, carries 0 and advances the game by exactly that; only the first tick gets the unscaled delta |
| Clock.RunFramesConservesTime | Assets/Source/PlayerController.cs:220-243 | over any run of frames, consumed tick time plus the final carry equals the initial carry plus the sum of scaled frame times |
| Clock.FrozenClockRunsNothing | Assets/Source/PlayerController.cs:221-225 | with `GAME_DELTA_SCALE` held at or below 0 (no P press, see Left out) no frame of the run produces a tick and the carry never moves |
| Clock.BulletTimeFrames | Assets/Source/PlayerController.cs:220-243 | at timeScale 0.5 with 10 ms ticks, a 50 ms frame runs four ticks consuming 40 ms but advancing the game by 20 ms, and a 5 ms frame advances it by the whole 5 ms |
| Locomotion.WishSpeedIsAllOrNothing | Assets/Source/PlayerController.cs:572 | since the wish direction is normalised first, `sqrMagnitude * currentSpeed` is the full current speed with input and 0 without |
| Locomotion.Gain | Assets/Source/PlayerController.cs:610-613 | the speed added is acceleration * deficit * delta or the deficit, whichever is smaller |
| Locomotion.Accelerate | Assets/Source/PlayerController.cs:601-617 | y is never modified; velocity is unchanged when wishSpeed <= velocity . dir; otherwise x and z move along dir by min(acceleration * deficit * delta, deficit) |
| Locomotion.AccelerateNeverOvershoots | Assets/Source/PlayerController.cs:601-617 | for a horizontal unit direction the speed along it never drops and never passes the wish speed, and lands on it when acceleration * delta >= 1 |
| Locomotion.GainClampsToDeficit | Assets/Source/PlayerController.cs:610-613 | with a positive deficit the speed gained lies in [0, deficit], and it is the whole deficit iff acceleration * delta >= 1 |
| Locomotion.DefaultGroundGainClamps | Assets/Source/PlayerController.cs:23 | with the default ground acceleration 15, from rest at wish speed 20 and delta 0.1 the gain 30 is clamped to the deficit 20 |
| Jumping.DivMulCancel | Assets/Source/PlayerController.cs:344-345 | the progress a charge step adds, times charge time and drain rate, is the stamina that step drains |
| Jumping.CanCharge | Assets/Source/PlayerController.cs:343 | the charge guard: stamina > 0 and progress < 1 |
| Jumping.Refund | Assets/Source/PlayerController.cs:365 | the stamina an expiring buffer gives back: progress * timeToChargeMaxJump * jumpChargeStaminaDrain |
| Jumping.ChargeStep | Assets/Source/PlayerController.cs:342-352 | progress moves only while space is held, stamina > 0 and progress < 1; such a step zeroes the buffer and, with a positive tick, raises progress; stamina plus pending refund is unchanged; friction is halved while charging and full otherwise; without space nothing changes |
| Jumping.SprintStep | Assets/Source/PlayerController.cs:353-360 | with shift held and stamina left the speed is sprint speed and stamina drops by delta * drain; with none left the speed is base speed |
| Jumping.BufferStep | Assets/Source/PlayerController.cs:362-368 | when the buffer expires the pending refund is paid back exactly and progress is reset to 0; stamina plus pending refund is unchanged either way |
| Jumping.Jump | Assets/Source/PlayerController.cs:560-569 | the vertical impulse lies in [minJumpForce, maxJumpForce], is the maximum from progress >= 1 and the minimum from progress <= 0; x and z get the forward boost; progress and buffer are zeroed; stamina is untouched |
| Jumping.ReleaseRepeatsWithinFrame | Assets/Source/PlayerController.cs:233-238 | in the air past coyote time, two ticks that both see the space release (as two ticks of one long frame do) first open the buffer without moving the agent, then jump with the pending charge and clear charge and buffer |
| Jumping.TwoTickReleaseJumps | Assets/Source/PlayerController.cs:370-375 | with the default profile, a 20 ms frame of two 10 ms ticks that releases space 1 s after leaving the ground jumps at half charge within the frame |
| Jumping.ReleaseStep | Assets/Source/PlayerController.cs:370-377 | releasing space jumps when grounded, within coyote time or with a buffered jump pending, and otherwise opens the buffer without moving the agent; friction is restored |
| Jumping.MayJump | Assets/Source/PlayerController.cs:371-372 | releasing space jumps when grounded, within coyote time, or with a buffered jump pending |
| Jumping.RecoveryStep | Assets/Source/PlayerController.cs:383-385 | with space, shift and the bullet-time key all up, stamina is clamped into [0, maxStamina], and from within that range becomes min(stamina + rate * delta, maxStamina); with any of them down nothing changes |
| Jumping.Recovering | Assets/Source/PlayerController.cs:383 | stamina recovers only with space, shift and the bullet-time key all up |
| Jumping.StaminaTick | Assets/Source/PlayerController.cs:341-385 | over a whole tick, progress rises only by one guarded charge step of unscaledDelta / timeToChargeMaxJump; a non-negative progress stays non-negative; the buffer never exceeds jumpBufferTime |
| Jumping.LandingStep | Assets/Source/PlayerController.cs:256-268 | on the ground the coyote timer is 0 and a pending buffered jump fires; in the air the coyote timer grows by delta |
| Jumping.RefundEqualsDrained | Assets/Source/PlayerController.cs:343-367 | starting from no charge, the refund after any run of charge steps equals exactly the stamina those steps drained |
| Jumping.LedgerAcrossCharges | Assets/Source/PlayerController.cs:343-345 | stamina plus pending refund is invariant over any run of charge steps |
| Jumping.GuardedChargeStep | Assets/Source/PlayerController.cs:343-345 | a charge step its guard allows adds unscaledDelta / timeToChargeMaxJump to progress and drains unscaledDelta * drain rate |
| Jumping.BlockedChargeStep | Assets/Source/PlayerController.cs:343 | a step whose guard fails (no stamina, or progress already at 1) changes neither progress nor stamina |
| Jumping.ChargesAccumulate | Assets/Source/PlayerController.cs:343-345 | for a run of non-negative unscaled deltas (zero-length ticks included) that keeps progress <= 1 and finds stamina left, the run adds each step's share to progress and drains each step's cost from stamina |
| Jumping.ProgressIsShare | Assets/Source/PlayerController.cs:344 | the progress shares of a run add up to its total time over the charge time |
| Jumping.DrainedIsShare | Assets/Source/PlayerController.cs:345 | the drains of a run add up to its total time times the drain rate |
| Jumping.SharesNonNegative | Assets/Source/PlayerController.cs:344-345 | a run of non-negative unscaled deltas never lowers progress or raises stamina |
| Jumping.FullChargeGivesMaxJump | Assets/Source/PlayerController.cs:560-561 | holding for exactly timeToChargeMaxJump in non-negative ticks from zero reaches progress 1, and the jump then adds exactly maxJumpForce |
| Jumping.RefundCanExceedMaxStamina | Assets/Source/PlayerController.cs:362-385 | `StaminaTick` has no upper clamp: with the default profile, a 1.5 s charge, a 9 s airborne release tick and an expiry tick leave stamina at 145, above maxStamina 100. These ticks are longer than the clock produces |
| Jumping.TraceTick1 | Assets/Source/PlayerController.cs:342-352 | a 1.5 s charge tick from full stamina reaches progress 0.5 and stamina 55 |
| Jumping.TraceTick2 | Assets/Source/PlayerController.cs:370-385 | releasing in the air opens the buffer, and a long tick recovers stamina to 100 |
| Jumping.TraceTick3 | Assets/Source/PlayerController.cs:362-367 | the buffer expiring with bullet time held refunds 45 on top of 100 |
| Jumping.RefundOvershootWithShortTicks | Assets/Source/PlayerController.cs:362-385 | after the same charge with 0.1 s ticks, the release and two waiting ticks recover 1.5, and the expiry tick refunds 45, ending at 101.5: above maxStamina by staminaRecoveryRate * jumpBufferTime |
| Jumping.ShortTickRelease | Assets/Source/PlayerController.cs:370-385 | a 0.1 s airborne release tick opens the 0.3 s buffer and recovers 0.5 stamina |
| Jumping.ShortTickWait | Assets/Source/PlayerController.cs:362-385 | two 0.1 s ticks with no keys count the buffer down to 0.1 and recover 1 stamina |
| Jumping.ShortTickExpiry | Assets/Source/PlayerController.cs:362-367 | the buffer running out with the bullet-time key held refunds 45, giving 101.5 |
| Hook.ResolveTarget | Assets/Source/PlayerController.cs:393-414 | a ball hit by the projectile probe wins; a projectile hit that is not a ball masks the level probes; otherwise either level probe finds a ground point |
| Hook.PendingBall | Assets/Source/PlayerController.cs:414-427 | a cast onto a ball marks that ball to be pulled; without a cast the marked ball is kept |
| Hook.StepHook | Assets/Source/PlayerController.cs:392-463 | a rope is cast only with timer <= 0 and a target; the pull fires only when not yet pulled and leaves vertical speed in [hookUpPower, 40 + hookUpPower]; with a pulled ball the pull hands it to the hold and keeps the horizontal velocity, without one it sets the horizontal velocity to hookPullPower along the rope; at 2 * hookPullDelay rope, pulled flag and both timers reset; the cycle invariant is kept |
| Hook.PullFiresOncePerCycle | Assets/Source/PlayerController.cs:444-462 | a hook that has pulled never pulls again, after a pull it stays pulled until the reset, and every cycle that ends has pulled, at the latest in its last tick |
| Hook.HookCycleScenario | Assets/Source/PlayerController.cs:43 | with the 0.4 s default delay, a cast then a 0.41 s tick has pulled and keeps the rope; a further 0.4 s returns the hook to idle |
| BallPool.InitBall | Assets/Source/PlayerController.cs:1173-1176 | a ball about to be appended records the list position it will occupy and nothing else changes |
| BallPool.AddBall | Assets/Source/PlayerController.cs:1161-1166 | appending keeps every old slot and keeps every slot's index equal to its position |
| BallPool.FirstInactive | Assets/Source/PlayerController.cs:1150-1159 | finds the lowest inactive slot, or reports that all are active |
| BallPool.SpawnPlayerBall | Assets/Source/PlayerController.cs:1148-1171 | reuses the lowest inactive slot, reactivated at the start position with `imaginary` cleared; appends only when every slot is active, so the pool grows by at most one; no other slot changes; indices stay equal to positions |
| BallPool.DisableBall | Assets/Source/PlayerController.cs:983-993 | lifetime, bounce counters and velocity are zeroed, hitEnemy and inHold cleared, radius 1, slot inactive; the ricochet charge, spin, position and index are kept |
| BallPool.DisableSlot | Assets/Source/PlayerController.cs:983-993 | disabling one slot leaves every other slot and every index as it was |
| BallPool.SpawnReusesDisabledSlot | Assets/Source/PlayerController.cs:1150-1158 | a slot just disabled, with all slots before it active, is the next one spawned, without growing the pool |
| BallPool.SpawnKeepsStaleCharge | Assets/Source/PlayerController.cs:1150-1158 | a ball disabled while charged comes back charged when its slot is reused |
| BallPool.StopHoldingBall | Assets/Source/PlayerController.cs:1134-1145 | the held ball, if any, loses `inHold` and optionally takes the agent's velocity; the hold is emptied; other slots are untouched |
| Ammo.InitialAmmo | Assets/Source/PlayerController.cs:181 | the counter starts full, at maxBallCount |
| Ammo.Reload | Assets/Source/PlayerController.cs:663-673 | at most one ball per tick and only below the maximum, exactly when the countdown runs out; re-armed only if still below the maximum; the range is kept |
| Ammo.CoolDown | Assets/Source/PlayerController.cs:675-677 | a running shot cooldown drops by delta, a finished one stays as it is; the counter and reload countdown are untouched |
| Ammo.ShotAllowed | Assets/Source/PlayerController.cs:698 | the shot condition: right button held, left button pressed, cooldown over, a ball left, no target in kick range and no ball in hold |
| Ammo.UpdateBallCount | Assets/Source/PlayerController.cs:662-710 | a shot happens iff the shot gate allows it on the counter after reloading and cooling down; it needs a ball and spends exactly one, restarts the shot cooldown, leaves the reload armed, and is the pool's spawn; without a shot only reloading moves the count; the range is kept |
| Ammo.BallCountStaysInRange | Assets/Source/PlayerController.cs:181 | from the initial full counter the count stays in [0, maxBallCount] over any run of ticks |
| Ammo.RunPreservesRange | Assets/Source/PlayerController.cs:662-710 | any run of ticks from an in-range counter keeps it in range |
| BallCollisions.RicochetCharged | Assets/Source/PlayerController.cs:839-852 | true iff the ball was charged with fewer than 3 charged bounces; the third clears flag and count; `chargedBounceCount < 3` and (not charged implies count 0) are kept |
| BallCollisions.ChargeLastsThreeBounces | Assets/Source/PlayerController.cs:839-852 | over n checks a charged ball succeeds min(n, 3 - count) times, 3 for a fresh charge, and an uncharged ball never does |
| BallCollisions.ReflectToPlayer | Assets/Source/PlayerController.cs:821-826 | the ball heads toward the agent at 10 horizontally with y = 20 and no spin; nothing else changes |
| BallCollisions.ReflectToNearbyEnemy | Assets/Source/PlayerController.cs:828-837 | with a closest other enemy the ball heads along the unit direction to it at speed exactly 200; without one it is `ReflectToPlayer`; only velocity and spin change, and spin is removed |
| BallCollisions.ReflectionFor | Assets/Source/PlayerController.cs:923-952 | the reflection table kind by kind: a ricochet enemy always sends the ball toward the nearest enemy; every other kind (the dummy, both shooters, and blockers and wind guys through `default`) does so iff `BallRicocheCharged` succeeds; an uncharged ball comes back to the agent from every kind but a ricochet enemy |
| BallCollisions.ChargeForHit | Assets/Source/PlayerController.cs:923-952 | the ball is sent on toward the nearest enemy iff the reference table says so; a ricochet enemy charges the ball without touching its counter, other kinds spend a charged bounce; only the charge fields change and the charge invariant is kept |
| BallCollisions.SpendOrReturn | Assets/Source/PlayerController.cs:924-929 | the shared case body: after a successful `BallRicocheCharged` the ball goes toward the nearest enemy with the spent charge, otherwise back to the agent unchanged in charge |
| BallCollisions.Respond | Assets/Source/PlayerController.cs:923-952 | the type switch, case by case, agrees with the reflection table in both directions; spin is removed; apart from velocity and spin the ball is what `ChargeForHit` leaves |
| BallCollisions.EnemyEffects | Assets/Source/PlayerController.cs:894-917 | a predicted ball neither kicks nor hits an enemy; a real ball kicks Blocker and WindGuy with the incoming velocity, and every other kind takes a hit |
| BallCollisions.HitEnemy | Assets/Source/PlayerController.cs:879-952 | a hard hit (sqrMagnitude > 25) counts one bounce; the reflection follows the reference table for every kind, Blocker and WindGuy included; the charge is settled as `ChargeForHit` says and its invariant is kept; only velocity, spin and counters change |
| BallCollisions.EnemySweep | Assets/Source/PlayerController.cs:866-954 | the call is won iff a win gate lies among the hits for a real ball; predicted balls cause no effects; each hit adds at most one effect and one bounce; position, lifetime and radius are untouched |
| BallCollisions.IgnoredHitsChangeNothing | Assets/Source/PlayerController.cs:867-877 | self hits and hits with no enemy, an immune enemy or a receding ball leave the ball unchanged |
| BallCollisions.Restitution | Assets/Source/PlayerController.cs:971-976 | 0.95 iff the reflected y <= 5 and ball.speed <= 40, otherwise 0.6 |
| BallCollisions.LevelBounceAsWritten | Assets/Source/PlayerController.cs:956-980 | only the ball's velocity and spin change; an enemy projectile yields exactly one deflection, off the hit normal whichever way it faces, sends the ball up at y = 20 and keeps its spin, predicted ball or not; level geometry has no effect on anything else, removes spin and scales the reflected velocity by the restitution |
| BallCollisions.PredictionDeflectsProjectile | Assets/Source/PlayerController.cs:964-969 | as written, a predicted ball whose path meets a projectile moving into or out of a surface leaves a deflection of that projectile with a changed velocity |
| BallCollisions.ReflectNegatedNormal | Assets/Source/PlayerController.cs:968 | reflecting off the negated normal is reflecting off the normal |
| BallCollisions.DeflectionKeepsSpeed | Assets/Source/PlayerController.cs:968 | off a unit normal a deflected projectile keeps its squared speed and its motion along the normal is reversed |
| BallCollisions.LevelBounceLosesEnergy | Assets/Source/PlayerController.cs:971-979 | off a unit normal of level geometry the squared speed becomes restitution squared times the old one, so a level bounce never speeds the ball up |
| BallCollisions.Deflections | Assets/Source/PlayerController.cs:956-969 | the reference list of a level loop's deflections: only projectile hits, in strictly increasing hit order |
| BallCollisions.DeflectionsCover | Assets/Source/PlayerController.cs:964-969 | every projectile hit has its deflection in the list |
| BallCollisions.LevelSweepAsWritten | Assets/Source/PlayerController.cs:956-980 | the level loop as written: never a win, its effects are exactly the deflections of the projectile hits whatever the ball does, and only velocity and spin change |
| BallCollisions.CalculateBallCollisionsAsWritten | Assets/Source/PlayerController.cs:854-981 | the call as written: won iff a real ball hits a win gate, a win skips the level loop, and a predicted ball, which never wins, still deflects every projectile it meets; the charge invariant is kept |
| BallCollisions.LevelSweep | Assets/Source/PlayerController.cs:956-980 | corrected level loop: the ball moves exactly as written; a real ball deflects every projectile it meets, as written; a predicted ball deflects none |
| BallCollisions.CalculateBallCollisions | Assets/Source/PlayerController.cs:854-981 | corrected call: won iff a real ball hits a win gate, and a win skips the level loop; a real ball behaves exactly as written and a predicted ball moves as written but has no effect on anything else; the charge invariant is kept |
| BallCollisions.RestitutionScenario | Assets/Source/PlayerController.cs:972-975 | a low bounce keeps 95% at speed 30 and 60% at speed 50; a high bounce keeps 60% |
| Kick.KickRadius | Assets/Source/PlayerController.cs:516-517 | the kicked ball's radius lies in [1, 3]: 1 at rest, 3 from speed 50 up |
| Kick.KickVelocity | Assets/Source/PlayerController.cs:1182-1185 | the velocity `SetKickVelocityToBall` gives a kicked ball: the camera forward at maxBallSpeed plus half the agent's velocity |
| Kick.KickBall | Assets/Source/PlayerController.cs:502-519 | groundBounceCount and lifeTime reset, bounceCount and charge kept; any held ball let go; the kick velocity and start spin set; radius in [1, 3]; no other slot changes |
| Kick.SweepTargets | Assets/Source/PlayerController.cs:487-532 | effects reach only keys not hit before in the kick, and each reached key is remembered; a win needs a win gate; a kicked ball is in the pool, comes from a target with an unseen key and has the kick velocity with its ground bounces and lifetime reset; with no ball kicked the pool and hold are untouched |
| Kick.SweepKeysDistinct | Assets/Source/PlayerController.cs:487-492 | no two effects of one sweep reach targets with the same key |
| Kick.DistinctKeysPrepend | Assets/Source/PlayerController.cs:487-492 | effects on one target, followed by distinct-key effects on later targets whose keys differ from that target's, still reach no key twice |
| Kick.UpdateKick | Assets/Source/PlayerController.cs:469-540 | while cooling down only the cooldown runs; targets are reached only during a kick; a win returns before the end-of-kick reset; the end of a kick arms the cooldown and forgets the keys |
| Kick.KickHitsEachKeyOnce | Assets/Source/PlayerController.cs:487-492 | within one kick a key reached on one tick is not reached again on the next |

## Left out

- Unity physics queries are not modelled. These are the sphere casts, ray casts,
  overlap boxes and `MoveSphereOutCollision`. Their results are inputs.
- Normalisation, vector magnitudes, `Vector3.Angle` and quaternion rotations
  are not modelled, because they need square roots or trigonometry. The
  directions they produce are inputs.
- Floating-point rounding is not modelled. All arithmetic is exact over `real`.
- Feedback is not modelled: particles, camera shake, hit-stop, bullet time's
  `Time.timeScale`, UI text, sliders and the trajectory line renderer. This
  includes the highlight a predicted ball gives an enemy it meets (lines
  918-921), its only effect on an enemy.
- Rope physics is not modelled: `UpdateRopeMovement`, the C-key rope, the rope
  node impulses and `MoveToPosition`. The hook's fly timer advance is an input
  (`flyStep`). `Assets/Source/RopeNode.cs` is only a field declaration.
- `HoldBallLogic` and `PredictAndDrawBallTrajectory` are not modelled. The hold
  state they leave is an input to the shot.
- Ammo.UpdateBallCount: `pool` is the pool as the trajectory preview
  (lines 1107-1131) leaves it. While aiming with a scope, the preview spawns
  into the lowest inactive slot, or appends one, simulates it and disables
  it. That slot keeps the prediction's ricochet charge, and a shot in the
  same tick reuses it.
- `UpdateBall` is not modelled. It covers ball integration: gravity, spin
  curving, lifetime, wind areas and the ground roll damping.
- `ApplyFriction`, gravity and player collisions are not modelled, because they
  need vector magnitudes. `GroundMove`'s and `AirMove`'s choice between
  acceleration and deceleration rates is a dot product with a normalised
  velocity; the rate arrives as an input to `Locomotion.Accelerate`.
- The `BulletTime` stamina drain is not modelled; its key only blocks recovery.
- The player class selection is not modelled: one `PlayerSettings` profile is
  given.
- `Assets/Source/Features/SceneEditor/UI/SavePanel/LoadPanelViewController.cs`
  is not modelled; it is UI wiring.
- `Assets/Source/Features/SceneEditor/Data/CubeData.cs` is not modelled; it is a
  data record.
- The commented-out ball collection and air-catch code is not modelled.
- Clock.RunFrames: `GAME_DELTA_SCALE` is held fixed over a run. `DebugStuff`
  (lines 1240-1260) is not modelled. It runs on every tick (line 309) and in
  the frozen branch (line 222). Its P key toggles `GAME_DELTA_SCALE` between
  0 and 1, and because `GetKeyDown(P)` holds for the whole frame, a frame with
  an even number of ticks toggles it back. Its T key reloads the scene, and
  L, K and J shake the camera. `Clock.FrozenClockRunsNothing` therefore covers
  only runs without a P press.
- Jumping.StaminaTick: the charge and buffer contracts hold for non-negative
  charge progress and a non-negative tick, the only values the controller
  produces. They are not stated for arbitrary states.
- Clock.AdvanceFrame: `MIN_FRAME_DELTA` must be positive. With 0 or less,
  `while (fullDelta > MIN_FRAME_DELTA)` would never end, so there is nothing
  to model.
- BallCollisions.LevelSweep and BallCollisions.CalculateBallCollisions: these
  are the corrected behaviour. For the code as written, see
  `BallCollisions.LevelSweepAsWritten` and
  `BallCollisions.CalculateBallCollisionsAsWritten`.
- Hook.StepHook: the cycle invariant is stated for a positive pull delay and a
  non-negative tick.

## Findings

| source | as written | input that shows it | evidently intended | confidence | as-written member | corrected member |
|---|---|---|---|---|---|---|
| Assets/Source/PlayerController.cs:964-969 | the level sweep deflects an enemy projectile whenever the ball's sweep hits one, even for the imaginary balls `PredictAndDrawBallTrajectory` simulates every frame while aiming | an imaginary ball whose predicted path meets an enemy projectile moving with velocity (0, 0, -10) toward a surface with normal (0, 0, 1): the real projectile's velocity becomes (0, 0, 10) | like the particles, enemy hits and win gate of `CalculateBallCollisions`, which the code keeps to real balls, the deflection applies only to real balls | medium, not executed | BallCollisions.CalculateBallCollisionsAsWritten | BallCollisions.CalculateBallCollisions |

`BallCollisions.LevelBounceAsWritten`, `BallCollisions.LevelSweepAsWritten` and
`BallCollisions.CalculateBallCollisionsAsWritten` model the code as written.
`BallCollisions.PredictionDeflectsProjectile` proves the discrepancy for every
projectile that moves into or out of the surface. The corrected
`BallCollisions.LevelSweep` drops the deflections of a predicted ball and
keeps everything else. `BallCollisions.CalculateBallCollisions` proves the
intended property: a predicted ball has no effect on anything but itself.
