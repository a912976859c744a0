/** `CalculateBallCollisions`: one ball's hits in one tick. The enemy sweep
    comes first, hit by hit in the order the engine reports them; a win gate
    ends the whole call; then the level and enemy-projectile sweep bounces
    the ball. Sweeps are physics queries, so their hits are inputs here, and
    every normalised direction arrives already normalised. */
module BallCollisions {
  import opened Vectors
  import opened Optional
  import opened BallPool

  datatype EnemyType = Dummy | Blocker | WindGuy | HorizontalShooter | VerticalShooter | Ricoche

  /** What a hit reveals about the enemy behind it: its kind, its hit-immunity
      countdown, the unit direction from it to the agent, and the unit
      direction from the ball to the closest other enemy, if there is one. */
  datatype Enemy = Enemy(kind: EnemyType, hitImmuneCountdown: real, toPlayer: Vec3, toNearest: Option<Vec3>)

  /** One hit of the enemy hurt-box sweep. `isSelf` is a hit on the ball's own
      transform; `winGate` a hit on a win gate; `enemy` the enemy component
      found on the hit collider's parents. */
  datatype EnemyHit = EnemyHit(isSelf: bool, winGate: bool, enemy: Option<Enemy>, normal: Vec3)

  /** One hit of the level sweep; `projectile` holds the velocity of the enemy
      projectile that was hit, if the hit was one. */
  datatype LevelHit = LevelHit(projectile: Option<Vec3>, normal: Vec3)

  /** What a collision does to other objects, indexed by the hit that caused it. */
  datatype Effect =
    | TakeKick(hit: nat, velocity: Vec3)
    | TakeHit(hit: nat)
    | DeflectProjectile(hit: nat, velocity: Vec3)

  /** The ricochet counter is below three, and it is zero on an uncharged ball. */
  predicate ChargeInv(b: Ball) {
    0 <= b.chargedBounceCount < 3 && (!b.ricocheCharged ==> b.chargedBounceCount == 0)
  }

  /** `BallRicocheCharged`: a charged ball spends one of its three charged
      bounces; the third one discharges it and resets the counter. */
  function RicochetCharged(b: Ball): (r: (Ball, bool))
    ensures r.1 <==> b.ricocheCharged && b.chargedBounceCount < 3
    ensures !r.1 ==> r.0 == b
    ensures r.1 && b.chargedBounceCount + 1 < 3 ==> r.0 == b.(chargedBounceCount := b.chargedBounceCount + 1)
    ensures r.1 && b.chargedBounceCount + 1 >= 3 ==> r.0 == b.(chargedBounceCount := 0, ricocheCharged := false)
    ensures ChargeInv(b) ==> ChargeInv(r.0)
  {
    if b.ricocheCharged && b.chargedBounceCount < 3 then
      var n := b.chargedBounceCount + 1;
      if n >= 3 then (b.(chargedBounceCount := 0, ricocheCharged := false), true)
      else (b.(chargedBounceCount := n), true)
    else (b, false)
  }

  /** How many of `n` consecutive charged-bounce checks succeed. */
  function ChargedChecks(b: Ball, n: nat): nat
    decreases n
  {
    if n == 0 then 0
    else
      var r := RicochetCharged(b);
      (if r.1 then 1 else 0) + ChargedChecks(r.0, n - 1)
  }

  /** A charged ball ricochets toward other enemies on exactly the charged
      bounces it has left, three for a freshly charged ball, however many
      hits follow. */
  lemma {:induction false} ChargeLastsThreeBounces(b: Ball, n: nat)
    requires ChargeInv(b)
    ensures b.ricocheCharged ==> ChargedChecks(b, n) == (if n < 3 - b.chargedBounceCount then n else 3 - b.chargedBounceCount)
    ensures !b.ricocheCharged ==> ChargedChecks(b, n) == 0
    decreases n
  {
    if n > 0 {
      var r := RicochetCharged(b);
      ChargeLastsThreeBounces(r.0, n - 1);
    }
  }

  /** `ReflectToPlayer`: back toward the agent at 10, lifted to 20, spin removed. */
  function ReflectToPlayer(b: Ball, e: Enemy): (r: Ball)
    ensures r.velocity.y == 20.0 && r.velocity.x == 10.0 * e.toPlayer.x && r.velocity.z == 10.0 * e.toPlayer.z
    ensures r.angularVelocity == Zero
    ensures r == b.(velocity := r.velocity, angularVelocity := Zero)
  {
    b.(velocity := e.toPlayer.Scale(10.0).WithY(20.0), angularVelocity := Zero)
  }

  /** `ReflectToNearbyEnemy`: at 200 toward the closest other enemy, or back to
      the agent when there is none; spin removed either way. */
  function ReflectToNearbyEnemy(b: Ball, e: Enemy): (r: Ball)
    // a unit direction gives the ball a speed of exactly 200
    ensures e.toNearest.Some? && SqrMagnitude(e.toNearest.value) == 1.0 ==> SqrMagnitude(r.velocity) == 40000.0
    ensures e.toNearest.Some? ==> r.velocity == e.toNearest.value.Scale(200.0)
    ensures e.toNearest.None? ==> r == ReflectToPlayer(b, e)
    ensures r == b.(velocity := r.velocity, angularVelocity := Zero)
  {
    match e.toNearest
    case Some(d) =>
      SqrMagnitudeScale(200.0, d);
      b.(velocity := d.Scale(200.0), angularVelocity := Zero)
    case None => ReflectToPlayer(b, e)
  }

  datatype Reflection = TowardPlayer | TowardNearestEnemy

  /** Whether `BallRicocheCharged` would succeed: the ball has a charged
      bounce left. */
  predicate HasChargedBounce(b: Ball) {
    b.ricocheCharged && b.chargedBounceCount < 3
  }

  /** The reflection table of the second `switch (enemy.type)`, kind by kind:
      a ricochet enemy always sends the ball on; the dummy, the shooters and
      the `default` case (blockers, wind guys) send it on only while it has a
      charged bounce left, and back to the agent otherwise. */
  function ReflectionFor(kind: EnemyType, b: Ball): (d: Reflection)
    ensures kind == Ricoche ==> d == TowardNearestEnemy
    ensures kind != Ricoche ==> (d == TowardNearestEnemy <==> RicochetCharged(b).1)
    // an uncharged ball comes back to the agent from every kind but a ricochet enemy
    ensures ChargeInv(b) && !b.ricocheCharged && kind != Ricoche ==> d == TowardPlayer
  {
    match kind
    case Ricoche => TowardNearestEnemy
    case Dummy => if HasChargedBounce(b) then TowardNearestEnemy else TowardPlayer
    case HorizontalShooter => if HasChargedBounce(b) then TowardNearestEnemy else TowardPlayer
    case VerticalShooter => if HasChargedBounce(b) then TowardNearestEnemy else TowardPlayer
    case Blocker => if HasChargedBounce(b) then TowardNearestEnemy else TowardPlayer
    case WindGuy => if HasChargedBounce(b) then TowardNearestEnemy else TowardPlayer
  }

  /** The charge side of the second `switch (enemy.type)`: a ricochet enemy
      charges the ball and always sends it on; every other kind spends a
      charged bounce if the ball has one. The flag says whether the ball is
      sent on toward the nearest enemy. */
  function ChargeForHit(b: Ball, kind: EnemyType): (r: (Ball, bool))
    ensures r.1 <==> ReflectionFor(kind, b) == TowardNearestEnemy
    ensures kind == Ricoche ==> r.0.ricocheCharged && r.0.chargedBounceCount == b.chargedBounceCount
    ensures kind != Ricoche ==> r.0 == RicochetCharged(b).0
    ensures r.0 == b.(ricocheCharged := r.0.ricocheCharged, chargedBounceCount := r.0.chargedBounceCount)
    ensures ChargeInv(b) ==> ChargeInv(r.0)
  {
    if kind == Ricoche then (b.(ricocheCharged := true), true)
    else RicochetCharged(b)
  }

  /** `if (BallRicocheCharged(ref ball)) ReflectToNearbyEnemy(...) else
      ReflectToPlayer(...)`, the body the non-ricochet cases share. */
  function SpendOrReturn(b: Ball, e: Enemy): (r: Ball)
    ensures RicochetCharged(b).1 ==> r == ReflectToNearbyEnemy(RicochetCharged(b).0, e)
    ensures !RicochetCharged(b).1 ==> r == ReflectToPlayer(b, e)
  {
    var c := RicochetCharged(b);
    if c.1 then ReflectToNearbyEnemy(c.0, e) else ReflectToPlayer(c.0, e)
  }

  /** The second `switch (enemy.type)` of the enemy sweep, case by case. */
  function Respond(b: Ball, e: Enemy): (r: Ball)
    // the switch agrees with the reflection table in both directions
    ensures ReflectionFor(e.kind, b) == TowardPlayer ==> r.velocity == e.toPlayer.Scale(10.0).WithY(20.0)
    ensures ReflectionFor(e.kind, b) == TowardNearestEnemy ==>
      r.velocity == (if e.toNearest.Some? then e.toNearest.value.Scale(200.0) else e.toPlayer.Scale(10.0).WithY(20.0))
    ensures r.angularVelocity == Zero
    // and settles the charge as `ChargeForHit` says
    ensures r == ChargeForHit(b, e.kind).0.(velocity := r.velocity, angularVelocity := Zero)
  {
    match e.kind
    case Dummy => SpendOrReturn(b, e)
    case HorizontalShooter => SpendOrReturn(b, e)
    case VerticalShooter => SpendOrReturn(b, e)
    case Ricoche => ReflectToNearbyEnemy(b.(ricocheCharged := true), e)
    case Blocker => SpendOrReturn(b, e)
    case WindGuy => SpendOrReturn(b, e)
  }

  /** The effect an enemy hit has on the enemy: blockers and wind guys are
      kicked with the ball's incoming velocity, all others take a hit; a
      predicted (imaginary) ball does neither. */
  function EnemyEffects(e: Enemy, hit: nat, incoming: Vec3, imaginary: bool): (r: seq<Effect>)
    ensures imaginary ==> r == []
    ensures !imaginary ==> |r| == 1 && r[0].hit == hit && !r[0].DeflectProjectile?
    ensures !imaginary ==> (r[0].TakeKick? <==> e.kind == Blocker || e.kind == WindGuy)
    ensures !imaginary && r[0].TakeKick? ==> r[0].velocity == incoming
  {
    if imaginary then []
    else if e.kind == Blocker || e.kind == WindGuy then [TakeKick(hit, incoming)]
    else [TakeHit(hit)]
  }

  datatype Sweep = Sweep(ball: Ball, effects: seq<Effect>, won: bool)

  /** One enemy hit that passed the sweep's filters: the bounce counter, the
      enemy's reaction, and the reflection. */
  function HitEnemy(b: Ball, e: Enemy, hit: nat, imaginary: bool): (r: Sweep)
    ensures !r.won
    ensures r.effects == EnemyEffects(e, hit, b.velocity, imaginary)
    // hard hits count as bounces
    ensures r.ball.bounceCount == b.bounceCount + (if SqrMagnitude(b.velocity) > 25.0 then 1 else 0)
    // the switch agrees with the reflection table
    ensures ReflectionFor(e.kind, b) == TowardPlayer ==>
      r.ball.velocity == e.toPlayer.Scale(10.0).WithY(20.0)
    ensures ReflectionFor(e.kind, b) == TowardNearestEnemy ==>
      r.ball.velocity == (if e.toNearest.Some? then e.toNearest.value.Scale(200.0) else e.toPlayer.Scale(10.0).WithY(20.0))
    ensures r.ball.angularVelocity == Zero
    // the charge is settled as `ChargeForHit` says; nothing else about the ball changes
    ensures r.ball == ChargeForHit(b, e.kind).0.(velocity := r.ball.velocity, angularVelocity := Zero, bounceCount := r.ball.bounceCount)
    ensures ChargeInv(b) ==> ChargeInv(r.ball)
  {
    // the switch leaves the bounce counter alone, so counting after it is the same
    var responded := Respond(b, e);
    var counted := responded.(bounceCount := b.bounceCount + (if SqrMagnitude(b.velocity) > 25.0 then 1 else 0));
    Sweep(counted, EnemyEffects(e, hit, b.velocity, imaginary), false)
  }

  /** Whether the enemy loop skips a hit without touching the ball: no enemy
      behind it, an enemy still immune, or a ball already moving away. */
  predicate Skipped(h: EnemyHit, velocity: Vec3) {
    h.enemy.None? || h.enemy.value.hitImmuneCountdown > 0.0 || Dot(h.normal, velocity) > 0.0
  }

  /** The win gate test of the loop, which a predicted ball never triggers. */
  predicate Wins(h: EnemyHit, imaginary: bool) {
    !h.isSelf && !imaginary && h.winGate
  }

  /** The enemy loop of `CalculateBallCollisions` from hit `i` on. */
  function EnemySweep(b: Ball, imaginary: bool, hits: seq<EnemyHit>, i: nat): (r: Sweep)
    requires i <= |hits|
    // the call is won exactly when a win gate lies among the remaining hits
    ensures r.won <==> exists j :: i <= j < |hits| && Wins(hits[j], imaginary)
    ensures imaginary ==> r.effects == []
    ensures |r.effects| <= |hits| - i
    ensures forall k :: 0 <= k < |r.effects| ==> i <= r.effects[k].hit < |hits| && !r.effects[k].DeflectProjectile?
    ensures b.bounceCount <= r.ball.bounceCount <= b.bounceCount + (|hits| - i)
    ensures ChargeInv(b) ==> ChargeInv(r.ball)
    // only the agent's velocity and the counters can change
    ensures r.ball.position == b.position && r.ball.active == b.active && r.ball.index == b.index
    ensures r.ball.lifeTime == b.lifeTime && r.ball.radius == b.radius && r.ball.groundBounceCount == b.groundBounceCount
    decreases |hits| - i
  {
    if i == |hits| then Sweep(b, [], false)
    else
      var h := hits[i];
      if h.isSelf then EnemySweep(b, imaginary, hits, i + 1)
      else if Wins(h, imaginary) then Sweep(b, [], true)
      else if Skipped(h, b.velocity) then EnemySweep(b, imaginary, hits, i + 1)
      else
        var s := HitEnemy(b, h.enemy.value, i, imaginary);
        var rest := EnemySweep(s.ball, imaginary, hits, i + 1);
        Sweep(rest.ball, s.effects + rest.effects, rest.won)
  }

  /** A sweep whose every hit is the ball itself or is skipped at the ball's
      velocity leaves the ball as it was. */
  lemma {:induction false} IgnoredHitsChangeNothing(b: Ball, imaginary: bool, hits: seq<EnemyHit>, i: nat)
    requires i <= |hits|
    requires forall j :: i <= j < |hits| ==> hits[j].isSelf || (!Wins(hits[j], imaginary) && Skipped(hits[j], b.velocity))
    ensures EnemySweep(b, imaginary, hits, i) == Sweep(b, [], false)
    decreases |hits| - i
  {
    if i < |hits| {
      IgnoredHitsChangeNothing(b, imaginary, hits, i + 1);
    }
  }

  /** The level bounce's restitution: 0.95 for a low, slow bounce, else 0.6. */
  function Restitution(reflectedY: real, speed: real): (c: real)
    ensures c == 0.95 || c == 0.6
    ensures c == 0.95 <==> reflectedY <= 5.0 && speed <= 40.0
  {
    if reflectedY <= 5.0 && speed <= 40.0 then 0.95 else 0.6
  }

  /** One hit of the level loop as the code writes it: an enemy projectile
      sends the ball up at 20 and is itself deflected; level geometry reflects
      the ball with restitution and removes its spin. The loop consults
      `imaginaryBall` only for its particles, so a predicted ball deflects a
      projectile just as a real one does. */
  function LevelBounceAsWritten(b: Ball, h: LevelHit, hit: nat): (r: Sweep)
    ensures !r.won
    // only the ball's velocity and spin change
    ensures r.ball == b.(velocity := r.ball.velocity, angularVelocity := r.ball.angularVelocity)
    // a projectile: one deflection, off the normal whichever way it faces;
    // the ball bounced up at 20, spin kept
    ensures h.projectile.Some? ==>
      && r.effects == [DeflectProjectile(hit, Reflect(h.projectile.value, h.normal))]
      && r.ball.velocity.y == 20.0 && r.ball.angularVelocity == b.angularVelocity
    // level geometry: no effect on anything else, spin removed, and the ball
    // keeps the restitution's share of the reflected velocity
    ensures h.projectile.None? ==>
      && r.effects == [] && r.ball.angularVelocity == Zero
      && r.ball.velocity == Reflect(b.velocity, h.normal).Scale(Restitution(Reflect(b.velocity, h.normal).y, b.speed))
  {
    var reflected := Reflect(b.velocity, h.normal);
    match h.projectile
    case Some(pv) =>
      var deflected := Reflect(pv, h.normal.Neg());
      ReflectNegatedNormal(pv, h.normal);
      Sweep(b.(velocity := reflected.WithY(20.0)), [DeflectProjectile(hit, deflected)], false)
    case None =>
      Sweep(b.(velocity := reflected.Scale(Restitution(reflected.y, b.speed)), angularVelocity := Zero), [], false)
  }

  /** Deflecting off the flipped normal is the same as off the normal itself. */
  lemma ReflectNegatedNormal(v: Vec3, n: Vec3)
    ensures Reflect(v, n.Neg()) == Reflect(v, n)
  {
  }

  /** Off a unit normal a deflected projectile keeps its speed, and its motion
      along the normal is reversed. */
  lemma DeflectionKeepsSpeed(b: Ball, h: LevelHit, hit: nat)
    requires h.projectile.Some? && SqrMagnitude(h.normal) == 1.0
    ensures var d := LevelBounceAsWritten(b, h, hit).effects[0].velocity;
      && SqrMagnitude(d) == SqrMagnitude(h.projectile.value)
      && Dot(d, h.normal) == -Dot(h.projectile.value, h.normal)
  {
    ReflectKeepsSqrMagnitude(h.projectile.value, h.normal);
    ReflectFlipsNormalComponent(h.projectile.value, h.normal);
  }

  // Arithmetic step: a squared length is never negative.
  lemma SqrMagnitudeNonNegative(v: Vec3)
    ensures SqrMagnitude(v) >= 0.0
  {
    assert v.x * v.x >= 0.0 && v.y * v.y >= 0.0 && v.z * v.z >= 0.0;
  }

  /** Off a unit normal of level geometry the ball keeps 95% or 60% of its
      speed, so a level bounce never speeds it up. */
  lemma LevelBounceLosesEnergy(b: Ball, h: LevelHit, hit: nat)
    requires h.projectile.None?
    requires SqrMagnitude(h.normal) == 1.0
    ensures var r := LevelBounceAsWritten(b, h, hit);
      var c := Restitution(Reflect(b.velocity, h.normal).y, b.speed);
      && SqrMagnitude(r.ball.velocity) == c * c * SqrMagnitude(b.velocity)
      && SqrMagnitude(r.ball.velocity) <= SqrMagnitude(b.velocity)
  {
    var reflected := Reflect(b.velocity, h.normal);
    var c := Restitution(reflected.y, b.speed);
    ReflectKeepsSqrMagnitude(b.velocity, h.normal);
    SqrMagnitudeScale(c, reflected);
    SqrMagnitudeNonNegative(b.velocity);
    var m := SqrMagnitude(b.velocity);
    assert c * c <= 1.0;
    assert c * c * m <= m by {
      assert (1.0 - c * c) * m >= 0.0;
    }
  }

  /** The deflections a run of level hits from `i` on causes: one per enemy
      projectile, in hit order, each off that hit's normal. */
  function Deflections(hits: seq<LevelHit>, i: nat): (d: seq<Effect>)
    requires i <= |hits|
    ensures |d| <= |hits| - i
    ensures forall k :: 0 <= k < |d| ==>
      && d[k].DeflectProjectile? && i <= d[k].hit < |hits|
      && hits[d[k].hit].projectile.Some?
    ensures forall k, l :: 0 <= k < l < |d| ==> d[k].hit < d[l].hit
    decreases |hits| - i
  {
    if i == |hits| then []
    else
      var rest := Deflections(hits, i + 1);
      match hits[i].projectile
      case Some(pv) => [DeflectProjectile(i, Reflect(pv, hits[i].normal))] + rest
      case None => rest
  }

  /** Every projectile hit from `i` on has its deflection in the list. */
  lemma {:induction false} DeflectionsCover(hits: seq<LevelHit>, i: nat, j: nat)
    requires i <= j < |hits| && hits[j].projectile.Some?
    ensures DeflectProjectile(j, Reflect(hits[j].projectile.value, hits[j].normal)) in Deflections(hits, i)
    decreases |hits| - i
  {
    if j > i {
      DeflectionsCover(hits, i + 1, j);
    }
  }

  /** The level loop of `CalculateBallCollisions` from hit `i` on, as written. */
  function LevelSweepAsWritten(b: Ball, hits: seq<LevelHit>, i: nat): (r: Sweep)
    requires i <= |hits|
    ensures !r.won
    // what the loop does to projectiles depends on the hits alone, not on the ball
    ensures r.effects == Deflections(hits, i)
    // the level never changes the counters or the charge
    ensures r.ball == b.(velocity := r.ball.velocity, angularVelocity := r.ball.angularVelocity)
    decreases |hits| - i
  {
    if i == |hits| then Sweep(b, [], false)
    else
      var s := LevelBounceAsWritten(b, hits[i], i);
      var rest := LevelSweepAsWritten(s.ball, hits, i + 1);
      Sweep(rest.ball, s.effects + rest.effects, false)
  }

  /** `CalculateBallCollisions` as written: the enemy loop, then, unless a win
      gate ended the call, the level loop. */
  function CalculateBallCollisionsAsWritten(b: Ball, imaginary: bool, enemyHits: seq<EnemyHit>, levelHits: seq<LevelHit>): (r: Sweep)
    ensures r.won <==> exists j :: 0 <= j < |enemyHits| && Wins(enemyHits[j], imaginary)
    // a win ends the call before the level loop
    ensures r.won ==> r.ball == EnemySweep(b, imaginary, enemyHits, 0).ball
    // a predicted ball touches no enemy, but deflects every projectile it meets
    ensures imaginary ==> !r.won && r.effects == Deflections(levelHits, 0)
    ensures ChargeInv(b) ==> ChargeInv(r.ball)
    ensures r.ball.position == b.position && r.ball.active == b.active && r.ball.index == b.index
    ensures r.ball.lifeTime == b.lifeTime && r.ball.radius == b.radius && r.ball.groundBounceCount == b.groundBounceCount
  {
    var s := EnemySweep(b, imaginary, enemyHits, 0);
    if s.won then s
    else
      var l := LevelSweepAsWritten(s.ball, levelHits, 0);
      Sweep(l.ball, s.effects + l.effects, false)
  }

  /** A predicted ball whose path meets an enemy projectile moving into or
      out of the surface changes that projectile's velocity. */
  lemma PredictionDeflectsProjectile(b: Ball, enemyHits: seq<EnemyHit>, levelHits: seq<LevelHit>, j: nat)
    requires j < |levelHits| && levelHits[j].projectile.Some?
    requires SqrMagnitude(levelHits[j].normal) == 1.0
    requires Dot(levelHits[j].projectile.value, levelHits[j].normal) != 0.0
    ensures var r := CalculateBallCollisionsAsWritten(b, true, enemyHits, levelHits);
      exists v :: DeflectProjectile(j, v) in r.effects && v != levelHits[j].projectile.value
  {
    var pv := levelHits[j].projectile.value;
    DeflectionsCover(levelHits, 0, j);
    ReflectFlipsNormalComponent(pv, levelHits[j].normal);
    assert Reflect(pv, levelHits[j].normal) != pv;
  }

  /** The level loop with the projectile deflection kept to real balls, like
      the particles, enemy hits and win gate of the enemy loop. */
  function LevelSweep(b: Ball, imaginary: bool, hits: seq<LevelHit>, i: nat): (r: Sweep)
    requires i <= |hits|
    ensures !r.won
    ensures imaginary ==> r.effects == []
    ensures !imaginary ==> r.effects == Deflections(hits, i)
    // the ball moves exactly as in the code as written
    ensures r.ball == LevelSweepAsWritten(b, hits, i).ball
    ensures r.ball == b.(velocity := r.ball.velocity, angularVelocity := r.ball.angularVelocity)
  {
    var w := LevelSweepAsWritten(b, hits, i);
    if imaginary then w.(effects := []) else w
  }

  /** `CalculateBallCollisions` with the level loop's deflection kept to real
      balls, so a predicted ball has no effect on anything but itself. */
  function CalculateBallCollisions(b: Ball, imaginary: bool, enemyHits: seq<EnemyHit>, levelHits: seq<LevelHit>): (r: Sweep)
    ensures r.won <==> exists j :: 0 <= j < |enemyHits| && Wins(enemyHits[j], imaginary)
    ensures r.won ==> r.ball == EnemySweep(b, imaginary, enemyHits, 0).ball
    ensures imaginary ==> r.effects == [] && !r.won
    // a real ball behaves as written; a predicted one moves as written
    ensures !imaginary ==> r == CalculateBallCollisionsAsWritten(b, imaginary, enemyHits, levelHits)
    ensures r.ball == CalculateBallCollisionsAsWritten(b, imaginary, enemyHits, levelHits).ball
    ensures ChargeInv(b) ==> ChargeInv(r.ball)
    ensures r.ball.position == b.position && r.ball.active == b.active && r.ball.index == b.index
    ensures r.ball.lifeTime == b.lifeTime && r.ball.radius == b.radius && r.ball.groundBounceCount == b.groundBounceCount
  {
    var s := EnemySweep(b, imaginary, enemyHits, 0);
    if s.won then s
    else
      var l := LevelSweep(s.ball, imaginary, levelHits, 0);
      Sweep(l.ball, s.effects + l.effects, false)
  }

  /** A low bounce at speed 30 keeps 95% of the velocity; at speed 50 only 60%. */
  lemma RestitutionScenario()
    ensures Restitution(2.0, 30.0) == 0.95
    ensures Restitution(2.0, 50.0) == 0.6
    ensures Restitution(6.0, 30.0) == 0.6
  {
  }
}
