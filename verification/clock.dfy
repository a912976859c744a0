/** The fixed-step simulation clock of `Update`: each rendered frame is turned
    into a sequence of simulation ticks, and the time the ticks did not use is
    carried to the next frame. */
module Clock {

  /** The two global constants the clock reads. `GAME_DELTA_SCALE` is the
      pause/run-rate switch; `MIN_FRAME_DELTA` is the fixed tick size. */
  datatype ClockParams = ClockParams(gameDeltaScale: real, minFrameDelta: real)

  /** What the engine reports for one frame: `Time.deltaTime` (already scaled by
      the slow-motion factor), `Time.unscaledDeltaTime`, and `Time.timeScale`. */
  datatype Frame = Frame(deltaTime: real, unscaledDeltaTime: real, timeScale: real)

  /** One call of `UpdateAll`: the `delta` it is passed, the `_unscaledDelta` it
      sees, and `span`, the amount of accumulated frame time it consumed. */
  datatype Tick = Tick(delta: real, unscaledDelta: real, span: real)

  datatype FrameResult = FrameResult(ticks: seq<Tick>, carry: real)

  function SumSpans(ticks: seq<Tick>): real {
    if ticks == [] then 0.0 else ticks[0].span + SumSpans(ticks[1..])
  }

  lemma {:induction false} SumSpansAppend(a: seq<Tick>, b: seq<Tick>)
    ensures SumSpans(a + b) == SumSpans(a) + SumSpans(b)
  {
    if a == [] {
      assert a + b == b;
    } else {
      assert (a + b)[1..] == a[1..] + b;
      SumSpansAppend(a[1..], b);
    }
  }

  /** The `while (fullDelta > MIN_FRAME_DELTA)` loop: how many times it runs on
      an accumulator `acc`, and what is left of the accumulator afterwards. */
  function Drain(acc: real, minDelta: real): (r: (nat, real))
    requires minDelta > 0.0
    ensures r.0 as real * minDelta + r.1 == acc
    ensures r.1 <= minDelta
    ensures acc > minDelta <==> r.0 >= 1
    ensures r.0 >= 1 ==> r.1 > 0.0
    decreases if acc > minDelta then (acc / minDelta).Floor else 0
  {
    if acc > minDelta then
      DivShift(acc, minDelta);
      assert ((acc - minDelta) / minDelta).Floor == (acc / minDelta).Floor - 1;
      var rest := Drain(acc - minDelta, minDelta);
      (rest.0 + 1, rest.1)
    else
      (0, acc)
  }

  lemma DivShift(a: real, m: real)
    requires m > 0.0
    ensures (a - m) / m == a / m - 1.0
  {
    assert m / m == 1.0;
    assert (a - m) / m == a / m - m / m;
  }

  /** The game time a run of ticks advances: the sum of the deltas `UpdateAll`
      is passed. */
  function SumDeltas(ticks: seq<Tick>): real {
    if ticks == [] then 0.0 else ticks[0].delta + SumDeltas(ticks[1..])
  }

  /** `k` fixed ticks of size `delta`, of which only the first sees the
      frame's unscaled delta (the loop zeroes `_unscaledDelta` after each tick). */
  function FixedTicks(k: nat, delta: real, unscaled: real, span: real): (ticks: seq<Tick>)
    ensures |ticks| == k
    ensures forall i :: 0 <= i < k ==> ticks[i].delta == delta && ticks[i].span == span
    ensures forall i :: 0 < i < k ==> ticks[i].unscaledDelta == 0.0
    ensures k > 0 ==> ticks[0].unscaledDelta == unscaled
    ensures SumSpans(ticks) == k as real * span
    ensures SumDeltas(ticks) == k as real * delta
  {
    if k == 0 then []
    else
      var rest := FixedTicks(k - 1, delta, 0.0, span);
      [Tick(delta, unscaled, span)] + rest
  }

  /** One execution of `Update` given the carry `_previousDelta` from the
      previous frame. */
  function AdvanceFrame(p: ClockParams, carry: real, f: Frame): (r: FrameResult)
    requires p.minFrameDelta > 0.0
    // a frozen clock runs nothing and keeps its carry
    ensures p.gameDeltaScale <= 0.0 ==> r.ticks == [] && r.carry == carry
    // the time emitted plus the new carry is the scaled frame time plus the old carry
    ensures p.gameDeltaScale > 0.0 ==>
      SumSpans(r.ticks) + r.carry == f.deltaTime * p.gameDeltaScale + carry
    // long frame: k >= 1 fixed ticks and a carry in (0, MIN_FRAME_DELTA]
    ensures p.gameDeltaScale > 0.0 && f.deltaTime * p.gameDeltaScale + carry > p.minFrameDelta ==>
      && |r.ticks| >= 1
      && |r.ticks| as real * p.minFrameDelta + r.carry == f.deltaTime * p.gameDeltaScale + carry
      && 0.0 < r.carry <= p.minFrameDelta
      && (forall i :: 0 <= i < |r.ticks| ==>
            r.ticks[i].delta == p.minFrameDelta * f.timeScale * p.gameDeltaScale)
    // short frame: one tick of the whole accumulated time, nothing carried
    ensures p.gameDeltaScale > 0.0 && f.deltaTime * p.gameDeltaScale + carry <= p.minFrameDelta ==>
      && |r.ticks| == 1
      && r.ticks[0].delta == f.deltaTime * p.gameDeltaScale + carry
      && r.carry == 0.0
    // game time: a short frame advances the game by exactly the time it
    // consumes, a long frame by timeScale * GAME_DELTA_SCALE times that
    ensures p.gameDeltaScale > 0.0 && f.deltaTime * p.gameDeltaScale + carry <= p.minFrameDelta ==>
      SumDeltas(r.ticks) == SumSpans(r.ticks)
    ensures p.gameDeltaScale > 0.0 && f.deltaTime * p.gameDeltaScale + carry > p.minFrameDelta ==>
      SumDeltas(r.ticks) == f.timeScale * p.gameDeltaScale * SumSpans(r.ticks)
    // so in bullet time (timeScale * GAME_DELTA_SCALE != 1) a long frame's game
    // time differs from the time it consumes
    ensures p.gameDeltaScale > 0.0 && f.deltaTime * p.gameDeltaScale + carry > p.minFrameDelta
            && f.timeScale * p.gameDeltaScale != 1.0 ==>
      SumSpans(r.ticks) > 0.0 && SumDeltas(r.ticks) != SumSpans(r.ticks)
    // only the first tick of a frame sees the unscaled delta
    ensures p.gameDeltaScale > 0.0 ==> r.ticks[0].unscaledDelta == f.unscaledDeltaTime * p.gameDeltaScale
    ensures forall i :: 0 < i < |r.ticks| ==> r.ticks[i].unscaledDelta == 0.0
  {
    if p.gameDeltaScale <= 0.0 then
      FrameResult([], carry)
    else
      var full := f.deltaTime * p.gameDeltaScale + carry;
      var unscaled := f.unscaledDeltaTime * p.gameDeltaScale;
      if full > p.minFrameDelta then
        var drained := Drain(full, p.minFrameDelta);
        var delta := p.minFrameDelta * f.timeScale * p.gameDeltaScale;
        var k := drained.0 as real;
        Regroup(k, p.minFrameDelta, f.timeScale, p.gameDeltaScale);
        PositiveProduct(k, p.minFrameDelta);
        ScaledDiffers(f.timeScale * p.gameDeltaScale, k * p.minFrameDelta, k * delta);
        FrameResult(FixedTicks(drained.0, delta, unscaled, p.minFrameDelta), drained.1)
      else
        FrameResult([Tick(full, unscaled, full)], 0.0)
  }

  /** A run of frames: all ticks in order, and the final carry. */
  function RunFrames(p: ClockParams, carry: real, frames: seq<Frame>): (r: FrameResult)
    requires p.minFrameDelta > 0.0
    decreases frames
  {
    if frames == [] then FrameResult([], carry)
    else
      var first := AdvanceFrame(p, carry, frames[0]);
      var rest := RunFrames(p, first.carry, frames[1..]);
      FrameResult(first.ticks + rest.ticks, rest.carry)
  }

  function SumScaledDeltas(p: ClockParams, frames: seq<Frame>): real {
    if frames == [] then 0.0
    else frames[0].deltaTime * p.gameDeltaScale + SumScaledDeltas(p, frames[1..])
  }

  /** Over any run of frames the clock neither creates nor loses time: the
      ticks' spans plus the final carry equal the initial carry plus the sum of
      the scaled frame times. */
  lemma {:induction false} RunFramesConservesTime(p: ClockParams, carry: real, frames: seq<Frame>)
    requires p.minFrameDelta > 0.0 && p.gameDeltaScale > 0.0
    decreases frames
    ensures SumSpans(RunFrames(p, carry, frames).ticks) + RunFrames(p, carry, frames).carry
            == carry + SumScaledDeltas(p, frames)
  {
    if frames != [] {
      var first := AdvanceFrame(p, carry, frames[0]);
      var rest := RunFrames(p, first.carry, frames[1..]);
      RunFramesConservesTime(p, first.carry, frames[1..]);
      SumSpansAppend(first.ticks, rest.ticks);
    }
  }

  /** With the clock frozen, no frame produces a tick and the carry never moves. */
  lemma {:induction false} FrozenClockRunsNothing(p: ClockParams, carry: real, frames: seq<Frame>)
    requires p.minFrameDelta > 0.0 && p.gameDeltaScale <= 0.0
    ensures RunFrames(p, carry, frames) == FrameResult([], carry)
    decreases frames
  {
    if frames != [] {
      FrozenClockRunsNothing(p, carry, frames[1..]);
    }
  }

  // Arithmetic step: k ticks of MIN * ts * g regroup as ts * g times k * MIN.
  lemma Regroup(k: real, m: real, ts: real, g: real)
    ensures k * (m * ts * g) == ts * g * (k * m)
  {
  }

  /** At half speed with 10 ms ticks, a 50 ms frame consumes 40 ms in four
      ticks but advances the game by only 20 ms; a 5 ms frame advances it by
      the whole 5 ms. */
  lemma BulletTimeFrames()
    ensures var r := AdvanceFrame(ClockParams(1.0, 0.01), 0.0, Frame(0.05, 0.1, 0.5));
      |r.ticks| == 4 && SumSpans(r.ticks) == 0.04 && SumDeltas(r.ticks) == 0.02
    ensures var r := AdvanceFrame(ClockParams(1.0, 0.01), 0.0, Frame(0.005, 0.01, 0.5));
      SumSpans(r.ticks) == 0.005 && SumDeltas(r.ticks) == 0.005
  {
    var r := AdvanceFrame(ClockParams(1.0, 0.01), 0.0, Frame(0.05, 0.1, 0.5));
    var n := |r.ticks|;
    assert n as real * 0.01 + r.carry == 0.05;
    assert n == 4;
  }

  // Arithmetic step: at least one positive-length tick consumes positive time.
  lemma PositiveProduct(a: real, b: real)
    requires a >= 1.0 && b > 0.0
    ensures a * b > 0.0
  {
  }

  // Arithmetic step: scaling a positive amount by c leaves it unchanged iff c is 1.
  lemma ScaledDiffers(c: real, x: real, y: real)
    requires x > 0.0 && y == c * x
    ensures y == x <==> c == 1.0
  {
    var d := c - 1.0;
    assert y - x == d * x;
    if d > 0.0 {
      assert d * x > 0.0;
    } else if d < 0.0 {
      assert d * x < 0.0;
    }
  }
}
