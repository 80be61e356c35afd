/**
 The slow, never-stopping turn of the background sky (js/bg.js, `tick`): the
 frame time clamp, the idle fraction, the blend of the active and idle
 angular speeds, and the accumulated angle.
 */
module Rotation {
  import opened Numeric
  import opened Config

  /** The longest frame the simulation advances by, in ms. */
  const MaxFrameMs: real := 50.0

  /** `Math.min(50, now - lastT)`: the frame time, capped so a stalled tab does not jump. */
  function FrameDt(now: real, lastT: real): (dt: real)
    ensures dt <= MaxFrameMs && dt <= now - lastT
    ensures dt == MaxFrameMs || dt == now - lastT
    ensures lastT <= now ==> 0.0 <= dt
  {
    Min(MaxFrameMs, now - lastT)
  }

  /** The last user activity: the later of the last cursor move and the last scroll. */
  function LastActivity(lastMove: real, lastScroll: real): (t: real)
    ensures lastMove <= t && lastScroll <= t
    ensures t == lastMove || t == lastScroll
  {
    Max(lastMove, lastScroll)
  }

  /**
   `idleT`: 0 until `delay` ms of inactivity have passed, then rising
   linearly to 1 over `fade` ms. With `fade == 0` the division yields an
   infinity of the sign of `idle - delay`, which the clamp turns into a step.
   */
  function IdleFraction(idle: real, delay: real, fade: real): (t: real)
    ensures 0.0 <= t <= 1.0
    ensures 0.0 <= fade && idle <= delay ==> t == 0.0
    ensures 0.0 < fade && delay + fade <= idle ==> t == 1.0
    ensures fade == 0.0 && delay < idle ==> t == 1.0
  {
    if fade == 0.0 then (if delay < idle then 1.0 else 0.0)
    else
      IdleRatio(idle - delay, fade);
      Clamp01((idle - delay) / fade)
  }

  lemma IdleRatio(a: real, fade: real)
    requires fade != 0.0
    ensures 0.0 < fade && a <= 0.0 ==> a / fade <= 0.0
    ensures 0.0 < fade <= a ==> 1.0 <= a / fade
  {
    var q := a / fade;
    assert q * fade == a;
  }

  /** The idle fraction never falls while the user stays inactive. */
  lemma IdleFractionGrows(idle1: real, idle2: real, delay: real, fade: real)
    requires idle1 <= idle2 && 0.0 < fade
    ensures IdleFraction(idle1, delay, fade) <= IdleFraction(idle2, delay, fade)
  {
    var q1, q2 := (idle1 - delay) / fade, (idle2 - delay) / fade;
    assert q1 * fade == idle1 - delay && q2 * fade == idle2 - delay;
    assert q1 <= q2;
    ClampMonotone(q1, q2, 0.0, 1.0);
  }

  /** `rotSpeed`: the active speed blended toward the idle speed by the idle fraction. */
  function RotSpeed(c: Config, idle: real): (speed: real)
    ensures Min(c.rotActive, c.rotIdle) <= speed <= Max(c.rotActive, c.rotIdle)
  {
    Lerp(c.rotActive, c.rotIdle, IdleFraction(idle, c.idleDelayMs, c.idleFadeMs))
  }

  /**
   The three phases of the blend: the active speed up to the idle delay,
   the idle speed once the fade is over, and a speed between the two in
   the fade.
   */
  lemma RotationPhases(c: Config, idle: real)
    requires 0.0 < c.idleFadeMs
    ensures idle <= c.idleDelayMs ==> RotSpeed(c, idle) == c.rotActive
    ensures c.idleDelayMs + c.idleFadeMs <= idle ==> RotSpeed(c, idle) == c.rotIdle
    ensures c.idleDelayMs < idle < c.idleDelayMs + c.idleFadeMs ==>
      Min(c.rotActive, c.rotIdle) <= RotSpeed(c, idle) <= Max(c.rotActive, c.rotIdle)
    ensures c.rotActive != c.rotIdle && c.idleDelayMs < idle < c.idleDelayMs + c.idleFadeMs ==>
      Min(c.rotActive, c.rotIdle) < RotSpeed(c, idle) < Max(c.rotActive, c.rotIdle)
  {
    if c.rotActive != c.rotIdle && c.idleDelayMs < idle < c.idleDelayMs + c.idleFadeMs {
      FadingFraction(idle, c.idleDelayMs, c.idleFadeMs);
    }
  }

  /** Inside the fade window the idle fraction lies strictly between 0 and 1. */
  lemma FadingFraction(idle: real, delay: real, fade: real)
    requires 0.0 < fade && delay < idle < delay + fade
    ensures 0.0 < IdleFraction(idle, delay, fade) < 1.0
  {
    var q := (idle - delay) / fade;
    FractionBelowOne(idle - delay, fade);
    assert q * fade == idle - delay;
    assert q != 0.0;
  }

  /**
   As the user stays inactive the speed moves monotonically from
   `rotActive` toward `rotIdle`, never back.
   */
  lemma RotSpeedMovesTowardIdle(c: Config, idle1: real, idle2: real)
    requires 0.0 < c.idleFadeMs && idle1 <= idle2
    ensures c.rotActive <= c.rotIdle ==> RotSpeed(c, idle1) <= RotSpeed(c, idle2)
    ensures c.rotIdle <= c.rotActive ==> RotSpeed(c, idle2) <= RotSpeed(c, idle1)
  {
    IdleFractionGrows(idle1, idle2, c.idleDelayMs, c.idleFadeMs);
    LerpMonotone(c.rotActive, c.rotIdle,
      IdleFraction(idle1, c.idleDelayMs, c.idleFadeMs), IdleFraction(idle2, c.idleDelayMs, c.idleFadeMs));
  }

  /** The largest turn of one frame: 50 ms at the larger of the two speeds. */
  function MaxTurn(c: Config): real
  {
    MaxFrameMs * Max(c.rotActive, c.rotIdle)
  }

  /** The rotation angle and the time of the previous frame. */
  datatype Spin = Spin(theta: real, lastT: real)

  /** The clock readings one frame of the rotation uses. */
  datatype FrameTimes = FrameTimes(now: real, lastMove: real, lastScroll: real)

  /**
   One frame: clamp the frame time, blend the speed, advance the angle by
   `speed * dt`. While the user is active the sky turns at `rotActive`,
   once the fade is over at `rotIdle`; with both speeds positive and the
   clock moving on, it always turns forward.
   */
  function SpinStep(s: Spin, f: FrameTimes, c: Config): (r: Spin)
    ensures r.lastT == f.now
    ensures r.theta == s.theta + RotSpeed(c, f.now - LastActivity(f.lastMove, f.lastScroll)) * FrameDt(f.now, s.lastT)
    ensures 0.0 <= c.rotActive && 0.0 <= c.rotIdle && s.lastT <= f.now ==>
      s.theta <= r.theta <= s.theta + MaxTurn(c)
    ensures 0.0 < c.rotActive && 0.0 < c.rotIdle && s.lastT < f.now ==> s.theta < r.theta
    ensures 0.0 <= c.idleFadeMs && f.now - LastActivity(f.lastMove, f.lastScroll) <= c.idleDelayMs ==>
      r.theta == s.theta + c.rotActive * FrameDt(f.now, s.lastT)
    ensures 0.0 < c.idleFadeMs && c.idleDelayMs + c.idleFadeMs <= f.now - LastActivity(f.lastMove, f.lastScroll) ==>
      r.theta == s.theta + c.rotIdle * FrameDt(f.now, s.lastT)
  {
    var dt := FrameDt(f.now, s.lastT);
    var speed := RotSpeed(c, f.now - LastActivity(f.lastMove, f.lastScroll));
    StepBound(speed, dt, Max(c.rotActive, c.rotIdle));
    StepPositive(speed, dt, Min(c.rotActive, c.rotIdle));
    assert MaxTurn(c) == MaxFrameMs * Max(c.rotActive, c.rotIdle);
    Spin(s.theta + speed * dt, f.now)
  }

  lemma StepPositive(speed: real, dt: real, low: real)
    ensures 0.0 < low <= speed && 0.0 < dt ==> 0.0 < speed * dt
  {
  }

  lemma StepBound(speed: real, dt: real, top: real)
    ensures 0.0 <= speed <= top && 0.0 <= dt <= MaxFrameMs ==>
      0.0 <= speed * dt <= MaxFrameMs * top
  {
    if 0.0 <= speed <= top && 0.0 <= dt <= MaxFrameMs {
      ScaleMonotone(dt, speed, top);
      ScaleMonotone(top, dt, MaxFrameMs);
    }
  }

  /** The spin after a run of frames. */
  function SpinRun(s: Spin, fs: seq<FrameTimes>, c: Config): Spin
    decreases |fs|
  {
    if |fs| == 0 then s else SpinRun(SpinStep(s, fs[0], c), fs[1..], c)
  }

  /** Clock readings that never run backwards, starting no earlier than `t`. */
  predicate Ticking(t: real, fs: seq<FrameTimes>)
  {
    (|fs| > 0 ==> t <= fs[0].now) && forall i :: 0 <= i < |fs| - 1 ==> fs[i].now <= fs[i + 1].now
  }

  /** With non-negative speeds and a clock that does not run backwards the sky never turns back. */
  lemma {:induction false} RotationNeverReverses(s: Spin, fs: seq<FrameTimes>, c: Config)
    requires 0.0 <= c.rotActive && 0.0 <= c.rotIdle
    requires Ticking(s.lastT, fs)
    ensures s.theta <= SpinRun(s, fs, c).theta
    decreases |fs|
  {
    if |fs| > 0 {
      var next := SpinStep(s, fs[0], c);
      assert Ticking(next.lastT, fs[1..]);
      RotationNeverReverses(next, fs[1..], c);
    }
  }

  /** `n` frames' worth of the per-frame turn `per`, added up one frame at a time. */
  function Budget(n: nat, per: real): (b: real)
    ensures 0.0 <= per ==> 0.0 <= b
  {
    if n == 0 then 0.0 else Budget(n - 1, per) + per
  }

  lemma {:induction false} BudgetIsProduct(n: nat, per: real)
    ensures Budget(n, per) == (n as real) * per
  {
    if n > 0 {
      BudgetIsProduct(n - 1, per);
      CountOneMore(n, per);
    }
  }

  lemma CountOneMore(n: nat, per: real)
    requires 0 < n
    ensures (n as real) * per == ((n - 1) as real) * per + per
  {
  }

  /**
   `n` frames turn the sky by at most `Budget(n, MaxTurn(c))`, which is
   `n * MaxTurn(c)` by `BudgetIsProduct`.
   */
  lemma {:induction false} RotationWithinBudget(s: Spin, fs: seq<FrameTimes>, c: Config)
    requires 0.0 <= c.rotActive && 0.0 <= c.rotIdle
    requires Ticking(s.lastT, fs)
    ensures SpinRun(s, fs, c).theta <= s.theta + Budget(|fs|, MaxTurn(c))
    decreases |fs|
  {
    if |fs| > 0 {
      var next := SpinStep(s, fs[0], c);
      assert Ticking(next.lastT, fs[1..]);
      RotationWithinBudget(next, fs[1..], c);
    }
  }
}
