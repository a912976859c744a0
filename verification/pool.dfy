/** The ball pool (`_balls`): slots are never removed, only deactivated and
    reactivated; `SpawnPlayerBall` reuses the first inactive slot and appends
    a new one only when every slot is active. */
module BallPool {
  import opened Vectors
  import opened Optional

  /** The per-ball state of `PlayerBall` the controller reads and writes. The
      engine's `activeSelf` flag is `active`; the collider radius is `radius`. */
  datatype Ball = Ball(
    active: bool,
    imaginary: bool,
    index: int,
    position: Vec3,
    velocity: Vec3,
    angularVelocity: Vec3,
    speed: real,
    radius: real,
    lifeTime: real,
    bounceCount: int,
    groundBounceCount: int,
    chargedBounceCount: int,
    ricocheCharged: bool,
    hitEnemy: bool,
    inHold: bool)

  type Pool = seq<Ball>

  /** Every slot knows its own position in the pool. */
  predicate Indexed(pool: Pool) {
    forall i :: 0 <= i < |pool| ==> pool[i].index == i
  }

  /** `InitBall`: a ball about to be appended records the list position it
      will occupy. */
  function InitBall(pool: Pool, b: Ball): (r: Ball)
    ensures r.index == |pool|
    ensures r.(index := b.index) == b
  {
    b.(index := |pool|)
  }

  /** `InitBall` followed by `_balls.Add`, as in `Awake`, `SpawnPlayerBall`
      and `OnBallSpawnerFound`. */
  function AddBall(pool: Pool, b: Ball): (r: Pool)
    ensures |r| == |pool| + 1 && r[..|pool|] == pool
    ensures r[|pool|] == InitBall(pool, b)
    ensures Indexed(pool) ==> Indexed(r)
  {
    pool + [InitBall(pool, b)]
  }

  /** The lowest index at or after `from` whose slot is inactive, if any. */
  function FirstInactive(pool: Pool, from: nat): (r: Option<nat>)
    requires from <= |pool|
    ensures r.Some? ==>
      && from <= r.value < |pool|
      && !pool[r.value].active
      && (forall j :: from <= j < r.value ==> pool[j].active)
    ensures r.None? ==> forall j :: from <= j < |pool| ==> pool[j].active
    decreases |pool| - from
  {
    if from == |pool| then None
    else if !pool[from].active then Some(from)
    else FirstInactive(pool, from + 1)
  }

  datatype Spawned = Spawned(pool: Pool, slot: nat)

  /** `SpawnPlayerBall`. `prefab` is the state of a freshly instantiated ball;
      `start` is `BallStartPosition()`. Pushing the new ball out of level
      geometry is a physics query and is not modelled. */
  function SpawnPlayerBall(pool: Pool, prefab: Ball, start: Vec3): (r: Spawned)
    ensures r.slot < |r.pool| && r.pool[r.slot].position == start
    ensures |pool| <= |r.pool| <= |pool| + 1
    // a reused slot is the lowest-index inactive one, reactivated and real
    ensures r.slot < |pool| ==>
      && !pool[r.slot].active
      && (forall j :: 0 <= j < r.slot ==> pool[j].active)
      && |r.pool| == |pool|
      && r.pool[r.slot] == pool[r.slot].(active := true, position := start, imaginary := false)
    // the pool grows only when every slot is active
    ensures r.slot == |pool| <==> forall j :: 0 <= j < |pool| ==> pool[j].active
    ensures r.slot == |pool| ==> r.pool == AddBall(pool, prefab.(position := start))
    // no other slot changes
    ensures forall j :: 0 <= j < |pool| && j != r.slot ==> r.pool[j] == pool[j]
    ensures Indexed(pool) ==> Indexed(r.pool)
  {
    match FirstInactive(pool, 0)
    case Some(i) =>
      Spawned(pool[i := pool[i].(active := true, position := start, imaginary := false)], i)
    case None =>
      Spawned(AddBall(pool, prefab.(position := start)), |pool|)
  }

  /** `DisableBall`: the transient fields are zeroed and the slot deactivated;
      the ricochet charge, spin, position and index are left as they were. */
  function DisableBall(b: Ball): (r: Ball)
    ensures !r.active
    ensures r.lifeTime == 0.0 && r.radius == 1.0 && r.velocity == Zero
    ensures r.bounceCount == 0 && r.groundBounceCount == 0
    ensures !r.hitEnemy && !r.inHold
    ensures r.ricocheCharged == b.ricocheCharged && r.chargedBounceCount == b.chargedBounceCount
    ensures r.index == b.index && r.imaginary == b.imaginary
    ensures r.angularVelocity == b.angularVelocity && r.position == b.position && r.speed == b.speed
  {
    b.(lifeTime := 0.0, radius := 1.0, bounceCount := 0, groundBounceCount := 0,
       hitEnemy := false, inHold := false, velocity := Zero, active := false)
  }

  function DisableSlot(pool: Pool, i: nat): (r: Pool)
    requires i < |pool|
    ensures |r| == |pool| && !r[i].active
    ensures forall j :: 0 <= j < |pool| && j != i ==> r[j] == pool[j]
    ensures Indexed(pool) ==> Indexed(r)
  {
    pool[i := DisableBall(pool[i])]
  }

  /** A disabled slot is the next one reused when every slot before it is
      active, and reusing it does not grow the pool. */
  lemma SpawnReusesDisabledSlot(pool: Pool, i: nat, prefab: Ball, start: Vec3)
    requires i < |pool|
    requires forall j :: 0 <= j < i ==> pool[j].active
    ensures var r := SpawnPlayerBall(DisableSlot(pool, i), prefab, start);
      r.slot == i && |r.pool| == |pool| && r.pool[i].active && !r.pool[i].imaginary
  {
    var d := DisableSlot(pool, i);
    var r := SpawnPlayerBall(d, prefab, start);
    assert !d[i].active;
  }

  /** Neither disabling nor spawning clears the ricochet charge, so a ball
      that was disabled while charged comes back charged. */
  lemma SpawnKeepsStaleCharge(pool: Pool, i: nat, prefab: Ball, start: Vec3)
    requires i < |pool|
    requires forall j :: 0 <= j < i ==> pool[j].active
    requires pool[i].ricocheCharged
    ensures var r := SpawnPlayerBall(DisableSlot(pool, i), prefab, start);
      r.slot == i && r.pool[i].ricocheCharged
  {
    SpawnReusesDisabledSlot(pool, i, prefab, start);
  }

  /** The ball the agent holds (`_ballInHold`), how long it has been held, and
      whether it arrived by the hook (`_pulledBall`). Holding is a single
      optional slot, so at most one ball is ever held. */
  datatype HoldState = HoldState(ball: Option<nat>, holdingTime: real, pulledBall: bool)

  const NotHolding := HoldState(None, 0.0, false)

  /** `StopHoldingBall`: the held ball, if any, is let go, optionally with the
      agent's velocity. */
  function StopHoldingBall(pool: Pool, hold: HoldState, inheritVelocity: bool, playerVelocity: Vec3): (r: (Pool, HoldState))
    ensures |r.0| == |pool|
    ensures hold.ball.None? ==> r == (pool, hold)
    ensures hold.ball.Some? ==> r.1 == NotHolding
    ensures hold.ball.Some? && hold.ball.value < |pool| ==>
      && !r.0[hold.ball.value].inHold
      && r.0[hold.ball.value].velocity == (if inheritVelocity then playerVelocity else pool[hold.ball.value].velocity)
    ensures forall j :: 0 <= j < |pool| && Some(j) != hold.ball ==> r.0[j] == pool[j]
  {
    match hold.ball
    case None => (pool, hold)
    case Some(i) =>
      if i < |pool| then
        var b := pool[i].(inHold := false);
        var b' := if inheritVelocity then b.(velocity := playerVelocity) else b;
        (pool[i := b'], NotHolding)
      else
        (pool, NotHolding)
  }
}
