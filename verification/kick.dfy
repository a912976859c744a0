/** `UpdateKick`: a cooldown, a kick that lasts `kickDuration`, and, while it
    lasts, the targets inside the kick box, each hit at most once per kick.
    Which colliders are in the box is a physics query, so the targets of a
    tick are an input. */
module Kick {
  import opened Vectors
  import opened Optional
  import Mathf
  import opened Settings
  import opened BallPool

  /** `_kickCooldownTimer`, `_kickPerformingTimer` and `_alreadyHitByKick`. */
  datatype KickState = KickState(cooldown: real, performing: real, alreadyHit: seq<int>)

  const Ready := KickState(0.0, 0.0, [])

  /** One collider in the kick box. `key` is the hash the de-duplication list
      stores (the parent's, when there is one); the flags say which components
      it carries, and `ball` is the pool slot of its ball, if any. */
  datatype KickTarget = KickTarget(key: int, winGate: bool, ball: Option<nat>, enemy: bool, ropeNode: bool)

  /** The tick's inputs: the mouse press, the camera's forward direction, the
      agent's velocity and speed, and the spin the next shot would get. */
  datatype KickInput = KickInput(clickPressed: bool, forward: Vec3, playerVelocity: Vec3, playerSpeed: real,
                                 startAngularVelocity: Vec3, delta: real)

  datatype KickEffect =
    | EnemyKicked(target: nat, impulse: Vec3)
    | RopeNodePushed(target: nat, impulse: Vec3)

  /** Every ball a target names is a slot of the pool. */
  predicate TargetsInPool(targets: seq<KickTarget>, pool: Pool) {
    forall i :: 0 <= i < |targets| && targets[i].ball.Some? ==> targets[i].ball.value < |pool|
  }

  /** `SetKickVelocityToBall`: along the camera at full ball speed, plus half
      the agent's velocity. */
  function KickVelocity(s: PlayerSettings, input: KickInput): Vec3 {
    input.forward.Scale(s.maxBallSpeed).Add(input.playerVelocity.Scale(0.5))
  }

  /** The collider radius a kicked ball gets: from 1 at rest to 3 at speed 50. */
  function KickRadius(playerSpeed: real): (r: real)
    ensures 1.0 <= r <= 3.0
    ensures playerSpeed <= 0.0 ==> r == 1.0
    ensures playerSpeed >= 50.0 ==> r == 3.0
  {
    Mathf.Lerp(1.0, 3.0, Mathf.Clamp01(playerSpeed / 50.0))
  }

  datatype BallKick = BallKick(pool: Pool, hold: HoldState)

  /** The ball branch of the kick loop: the ground-bounce counter and lifetime
      restart, any held ball is let go, and the ball flies off with the kick
      velocity and the current start spin. */
  function KickBall(s: PlayerSettings, pool: Pool, hold: HoldState, slot: nat, input: KickInput): (r: BallKick)
    requires slot < |pool|
    ensures |r.pool| == |pool|
    ensures r.hold == (if hold.ball.Some? then NotHolding else hold)
    ensures var b := r.pool[slot];
      && b.groundBounceCount == 0 && b.lifeTime == 0.0
      && b.bounceCount == pool[slot].bounceCount
      && b.velocity == KickVelocity(s, input)
      && b.angularVelocity == input.startAngularVelocity
      && 1.0 <= b.radius <= 3.0
      && b.ricocheCharged == pool[slot].ricocheCharged && b.active == pool[slot].active
    // a kicked ball that was held is no longer held
    ensures hold.ball == Some(slot) ==> !r.pool[slot].inHold
    // the held ball, if another one, is let go; no other slot changes
    ensures forall j :: 0 <= j < |pool| && j != slot && Some(j) != hold.ball ==> r.pool[j] == pool[j]
    ensures forall j :: 0 <= j < |pool| && j != slot && Some(j) == hold.ball ==>
      r.pool[j] == pool[j].(inHold := false)
  {
    var b1 := pool[slot].(groundBounceCount := 0, lifeTime := 0.0);
    var released := StopHoldingBall(pool[slot := b1], hold, false, input.playerVelocity);
    var p := released.0;
    var b2 := p[slot].(velocity := KickVelocity(s, input), angularVelocity := input.startAngularVelocity,
                       radius := KickRadius(input.playerSpeed));
    BallKick(p[slot := b2], released.1)
  }

  datatype KickSweep = KickSweep(seen: seq<int>, pool: Pool, hold: HoldState, effects: seq<KickEffect>,
                                 won: bool, kicked: Option<nat>)

  /** The index of the target an effect came from. */
  function EffectTarget(e: KickEffect): nat {
    match e
    case EnemyKicked(t, _) => t
    case RopeNodePushed(t, _) => t
  }

  /** The target loop of `UpdateKick` from target `i` on, with `seen` the keys
      already hit during this kick. */
  function SweepTargets(s: PlayerSettings, input: KickInput, targets: seq<KickTarget>, i: nat, seen: seq<int>,
                        pool: Pool, hold: HoldState): (r: KickSweep)
    requires i <= |targets|
    requires TargetsInPool(targets, pool)
    ensures |r.pool| == |pool|
    // effects only reach keys not seen before in this kick
    ensures forall k :: 0 <= k < |r.effects| ==>
      i <= EffectTarget(r.effects[k]) < |targets|
      && targets[EffectTarget(r.effects[k])].key !in seen
      && targets[EffectTarget(r.effects[k])].key in r.seen
    ensures forall x :: x in seen ==> x in r.seen
    // a win is a win gate among the new targets, a kick one ball among them
    ensures r.won ==> exists j :: i <= j < |targets| && targets[j].winGate && targets[j].key in r.seen
    ensures r.kicked.Some? ==>
      && !r.won && r.kicked.value < |pool|
      && (exists j :: i <= j < |targets| && targets[j].ball == r.kicked && targets[j].key !in seen)
      && r.pool[r.kicked.value].velocity == KickVelocity(s, input)
      && r.pool[r.kicked.value].groundBounceCount == 0 && r.pool[r.kicked.value].lifeTime == 0.0
    // without a ball or a new key among the targets, nothing is kicked
    ensures r.kicked.None? ==> r.pool == pool && r.hold == hold
    decreases |targets| - i
  {
    if i == |targets| then KickSweep(seen, pool, hold, [], false, None)
    else
      var t := targets[i];
      if t.key in seen then SweepTargets(s, input, targets, i + 1, seen, pool, hold)
      else
        var seen' := seen + [t.key];
        if t.winGate then KickSweep(seen', pool, hold, [], true, None)
        else if t.ball.Some? then
          var k := KickBall(s, pool, hold, t.ball.value, input);
          KickSweep(seen', k.pool, k.hold, [], false, t.ball)
        else
          var impulse := input.forward.Scale(s.kickPower);
          var here := (if t.enemy then [EnemyKicked(i, impulse)] else []) + (if t.ropeNode then [RopeNodePushed(i, impulse)] else []);
          var rest := SweepTargets(s, input, targets, i + 1, seen', pool, hold);
          KickSweep(rest.seen, rest.pool, rest.hold, here + rest.effects, rest.won, rest.kicked)
  }

  /** Effects on different targets are on targets with different keys. */
  predicate DistinctKeys(targets: seq<KickTarget>, effects: seq<KickEffect>) {
    forall k, l :: 0 <= k < |effects| && 0 <= l < |effects| && EffectTarget(effects[k]) < EffectTarget(effects[l]) ==>
      EffectTarget(effects[l]) < |targets| && targets[EffectTarget(effects[k])].key != targets[EffectTarget(effects[l])].key
  }

  /** No key is hit twice in one kick: two effects of a sweep on different
      targets are on different keys. */
  lemma {:induction false} SweepKeysDistinct(s: PlayerSettings, input: KickInput, targets: seq<KickTarget>, i: nat,
                                             seen: seq<int>, pool: Pool, hold: HoldState)
    requires i <= |targets|
    requires TargetsInPool(targets, pool)
    ensures DistinctKeys(targets, SweepTargets(s, input, targets, i, seen, pool, hold).effects)
    decreases |targets| - i
  {
    if i < |targets| {
      var t := targets[i];
      if t.key in seen {
        SweepKeysDistinct(s, input, targets, i + 1, seen, pool, hold);
      } else if !t.winGate && t.ball.None? {
        var seen' := seen + [t.key];
        SweepKeysDistinct(s, input, targets, i + 1, seen', pool, hold);
        var impulse := input.forward.Scale(s.kickPower);
        var here := (if t.enemy then [EnemyKicked(i, impulse)] else []) + (if t.ropeNode then [RopeNodePushed(i, impulse)] else []);
        var rest := SweepTargets(s, input, targets, i + 1, seen', pool, hold);
        assert forall k :: 0 <= k < |here| ==> EffectTarget(here[k]) == i;
        DistinctKeysPrepend(targets, i, here, rest.effects, seen');
      }
    }
  }

  /** Effects on one new target, followed by distinct-key effects on later
      targets whose keys were not yet seen, have distinct keys. */
  lemma DistinctKeysPrepend(targets: seq<KickTarget>, i: nat, here: seq<KickEffect>, rest: seq<KickEffect>, seen: seq<int>)
    requires i < |targets| && targets[i].key in seen
    requires forall k :: 0 <= k < |here| ==> EffectTarget(here[k]) == i
    requires forall k :: 0 <= k < |rest| ==>
      i < EffectTarget(rest[k]) < |targets| && targets[EffectTarget(rest[k])].key !in seen
    requires DistinctKeys(targets, rest)
    ensures DistinctKeys(targets, here + rest)
  {
    var all := here + rest;
    forall k, l | 0 <= k < |all| && 0 <= l < |all| && EffectTarget(all[k]) < EffectTarget(all[l])
      ensures EffectTarget(all[l]) < |targets| && targets[EffectTarget(all[k])].key != targets[EffectTarget(all[l])].key
    {
      assert l >= |here|;
      var el := rest[l - |here|];
      assert all[l] == el;
      if k >= |here| {
        assert all[k] == rest[k - |here|];
      } else {
        assert all[k] == here[k];
      }
    }
  }

  datatype KickTick = KickTick(kick: KickState, pool: Pool, hold: HoldState, effects: seq<KickEffect>,
                               won: bool, kicked: Option<nat>)

  /** `UpdateKick`. */
  function UpdateKick(s: PlayerSettings, k: KickState, pool: Pool, hold: HoldState, input: KickInput,
                      targets: seq<KickTarget>): (r: KickTick)
    requires TargetsInPool(targets, pool)
    ensures |r.pool| == |pool|
    // while cooling down nothing is kicked and only the cooldown runs
    ensures k.cooldown > 0.0 && k.cooldown - input.delta > 0.0 ==>
      r == KickTick(k.(cooldown := k.cooldown - input.delta), pool, hold, [], false, None)
    // targets are only reached while a kick is being performed
    ensures r.effects != [] || r.won || r.kicked.Some? ==>
      k.performing > 0.0 || (k.performing <= 0.0 && input.clickPressed)
    // no key hit earlier in this kick is hit again
    ensures forall e :: e in r.effects ==> EffectTarget(e) < |targets| && targets[EffectTarget(e)].key !in k.alreadyHit
    // a win returns before the end-of-kick reset; otherwise the end of the kick
    // arms the cooldown and forgets the keys
    ensures r.won ==>
      && (exists j :: 0 <= j < |targets| && targets[j].winGate && targets[j].key in r.kick.alreadyHit)
      && r.kick.performing == (if k.performing <= 0.0 then s.kickDuration else k.performing) - input.delta
    ensures !r.won && r.kick.performing <= 0.0 && (r.effects != [] || r.kicked.Some?) ==>
      r.kick.cooldown == s.kickCooldown && r.kick.alreadyHit == []
    ensures r.kicked.Some? ==> r.kicked.value < |pool| && r.pool[r.kicked.value].velocity == KickVelocity(s, input)
    ensures r.kicked.None? ==> r.pool == pool && r.hold == hold
    // while the kick goes on, every key it reached is remembered
    ensures r.kick.performing > 0.0 ==>
      forall e :: e in r.effects ==> EffectTarget(e) < |targets| && targets[EffectTarget(e)].key in r.kick.alreadyHit
    ensures forall x :: x in k.alreadyHit && r.kick.performing > 0.0 && !(k.cooldown > 0.0 && k.cooldown - input.delta > 0.0) ==>
      x in r.kick.alreadyHit
  {
    var cd := if k.cooldown > 0.0 then k.cooldown - input.delta else k.cooldown;
    if cd > 0.0 then KickTick(k.(cooldown := cd), pool, hold, [], false, None)
    else
      var performing := if k.performing <= 0.0 && input.clickPressed then s.kickDuration else k.performing;
      if performing <= 0.0 then KickTick(KickState(cd, performing, k.alreadyHit), pool, hold, [], false, None)
      else
        var left := performing - input.delta;
        var sw := SweepTargets(s, input, targets, 0, k.alreadyHit, pool, hold);
        if sw.won then KickTick(KickState(cd, left, sw.seen), sw.pool, sw.hold, sw.effects, true, sw.kicked)
        else if left <= 0.0 then KickTick(KickState(s.kickCooldown, left, []), sw.pool, sw.hold, sw.effects, false, sw.kicked)
        else KickTick(KickState(cd, left, sw.seen), sw.pool, sw.hold, sw.effects, false, sw.kicked)
  }

  /** Within one kick a target is hit on one tick at most: a key reached on a
      tick that does not end the kick is not reached again on the next. */
  lemma KickHitsEachKeyOnce(s: PlayerSettings, k: KickState, pool: Pool, hold: HoldState,
                            input1: KickInput, targets1: seq<KickTarget>, input2: KickInput, targets2: seq<KickTarget>)
    requires TargetsInPool(targets1, pool)
    requires var r1 := UpdateKick(s, k, pool, hold, input1, targets1);
      r1.kick.performing > 0.0 && TargetsInPool(targets2, r1.pool)
    ensures var r1 := UpdateKick(s, k, pool, hold, input1, targets1);
      var r2 := UpdateKick(s, r1.kick, r1.pool, r1.hold, input2, targets2);
      forall e1, e2 :: e1 in r1.effects && e2 in r2.effects ==>
        targets1[EffectTarget(e1)].key != targets2[EffectTarget(e2)].key
  {
  }
}
