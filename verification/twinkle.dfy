/**
 Twinkles (js/bg.js): `maybeStartTwinkles`, which turns the expected number
 of starts per frame into a whole number with one random draw and then
 picks that many particles, and the opacity/size envelope of a running
 twinkle.
 */
module Twinkle {
  import opened Numeric
  import opened Config
  import opened Particles

  /** The expected number of starts: particles times rate per second times the frame in seconds. */
  function Expected(count: nat, rate: real, dt: real): (e: real)
    ensures count == 0 || rate == 0.0 || dt == 0.0 ==> e == 0.0
    ensures 0 < count && 0.0 < rate && 0.0 < dt ==> 0.0 < e
    ensures 0.0 <= rate && 0.0 <= dt ==> 0.0 <= e
  {
    ExpectedSign(count as real, rate, dt / 1000.0);
    (count as real) * rate * (dt / 1000.0)
  }

  lemma ExpectedSign(n: real, rate: real, secs: real)
    requires 0.0 <= n
    ensures 0.0 < n && 0.0 < rate && 0.0 < secs ==> 0.0 < n * rate * secs
    ensures 0.0 <= rate && 0.0 <= secs ==> 0.0 <= n * rate * secs
  {
    if 0.0 <= rate && 0.0 <= secs {
      ScaleMonotone(n, 0.0, rate);
      ScaleMonotone(n * rate, 0.0, secs);
      if 0.0 < n && 0.0 < rate && 0.0 < secs {
        PositiveProduct(n, rate);
        PositiveProduct(n * rate, secs);
      }
    }
  }

  /** A whole second of frames expects `rate` starts per particle. */
  lemma ExpectedPerSecond(count: nat, rate: real)
    ensures Expected(count, rate, 1000.0) == (count as real) * rate
  {
  }

  /** The expectation is additive in the frame time: two short frames expect what one long frame does. */
  lemma ExpectedAdditive(count: nat, rate: real, dt1: real, dt2: real)
    ensures Expected(count, rate, dt1 + dt2) == Expected(count, rate, dt1) + Expected(count, rate, dt2)
  {
    var n := (count as real) * rate;
    assert (dt1 + dt2) / 1000.0 == dt1 / 1000.0 + dt2 / 1000.0;
    assert n * ((dt1 + dt2) / 1000.0) == n * (dt1 / 1000.0) + n * (dt2 / 1000.0);
  }

  /** For a non-negative rate a longer frame never expects fewer starts. */
  lemma ExpectedGrows(count: nat, rate: real, dt1: real, dt2: real)
    requires 0.0 <= rate && dt1 <= dt2
    ensures Expected(count, rate, dt1) <= Expected(count, rate, dt2)
  {
    ExpectedAdditive(count, rate, dt1, dt2 - dt1);
    assert dt1 + (dt2 - dt1) == dt2;
  }

  /**
   The number of starts: the floor of the expectation, plus one when the
   draw `u` falls below its fractional part.
   */
  function StartCount(expected: real, u: real): (n: int)
    ensures n == expected.Floor || n == expected.Floor + 1
    ensures n == expected.Floor + 1 <==> u < expected - (expected.Floor as real)
    ensures expected == (expected.Floor as real) && 0.0 <= u ==> n == expected.Floor
    ensures 0.0 <= u < 1.0 ==> expected - 1.0 < (n as real) && (n as real) < expected + 1.0
  {
    var whole := expected.Floor;
    if u < expected - (whole as real) then whole + 1 else whole
  }

  /** An empty pool never schedules a twinkle, so no pick ever indexes it. */
  lemma EmptyPoolStartsNothing(rate: real, dt: real, u: real)
    requires 0.0 <= u
    ensures StartCount(Expected(0, rate, dt), u) == 0
  {
  }

  /** The position of the last occurrence of `i` in `picks`. */
  function LastPick(picks: seq<int>, i: int): (k: nat)
    requires i in picks
    ensures k < |picks| && picks[k] == i
    ensures forall j :: k < j < |picks| ==> picks[j] != i
  {
    if picks[|picks| - 1] == i then |picks| - 1 else LastPick(picks[..|picks| - 1], i)
  }

  /**
   `maybeStartTwinkles(dt)`. Draw 0 of `rand` decides the extra start, draw
   `k + 1` picks the particle of the k-th start, and `clock(k)` is the time
   read when that particle is stamped. A particle picked several times keeps
   the stamp of its last pick; no particle that was not picked, and no other
   field, changes.
   */
  method StartTwinkles(ps: seq<Particle>, c: Config, dt: real, rand: nat -> real, clock: nat -> real)
    returns (qs: seq<Particle>, picks: seq<int>)
    requires Uniform(rand)
    requires |ps| < TwoTo31
    ensures var n := StartCount(Expected(|ps|, c.twinkleRate, dt), rand(0));
      |picks| == (if n < 0 then 0 else n)
    ensures forall k :: 0 <= k < |picks| ==> 0 <= picks[k] < |ps|
    ensures forall k :: 0 <= k < |picks| ==> picks[k] == PickIndex(rand(k + 1), |ps|)
    ensures |qs| == |ps|
    ensures forall i :: 0 <= i < |ps| ==> qs[i] == ps[i].(twinkleUntil := qs[i].twinkleUntil)
    ensures forall i :: 0 <= i < |ps| && i !in picks ==> qs[i] == ps[i]
    ensures forall i :: 0 <= i < |ps| && i in picks ==>
      qs[i].twinkleUntil == clock(LastPick(picks, i)) + c.twinkleMs
    ensures (forall k: nat :: clock(k) == clock(0)) ==>
      forall i :: 0 <= i < |ps| && i in picks ==> qs[i].twinkleUntil == clock(0) + c.twinkleMs
  {
    var n := StartCount(Expected(|ps|, c.twinkleRate, dt), rand(0));
    if |ps| == 0 {
      EmptyPoolStartsNothing(c.twinkleRate, dt, rand(0));
    }
    var bound := if n < 0 then 0 else n;
    picks := Picks(bound, |ps|, rand);
    qs := StampAll(ps, picks, clock, c.twinkleMs);
  }

  /** Stamp the picks in order, the k-th with `clock(k) + ms`. */
  method StampAll(ps: seq<Particle>, picks: seq<int>, clock: nat -> real, ms: real)
    returns (qs: seq<Particle>)
    requires forall k :: 0 <= k < |picks| ==> 0 <= picks[k] < |ps|
    ensures Stamped(ps, qs, picks, clock, ms)
  {
    qs := ps;
    var k := 0;
    while k < |picks|
      invariant 0 <= k <= |picks|
      invariant Stamped(ps, qs, picks[..k], clock, ms)
    {
      StampKeeps(ps, qs, picks[..k], picks[k], clock, ms);
      assert picks[..k + 1] == picks[..k] + [picks[k]];
      qs := Stamp(qs, picks[k], clock(k) + ms);
      k := k + 1;
    }
    assert picks[..k] == picks;
  }

  /** The particle indices drawn for `count` starts: draw `k + 1` picks the k-th. */
  function Picks(count: nat, len: nat, rand: nat -> real): (picks: seq<int>)
    requires Uniform(rand) && len < TwoTo31
    requires count == 0 || 0 < len
    ensures |picks| == count
    ensures forall k :: 0 <= k < count ==> 0 <= picks[k] < len
    ensures forall k :: 0 <= k < count ==> picks[k] == PickIndex(rand(k + 1), len)
  {
    seq(count, k requires 0 <= k < count => PickIndex(rand(k + 1), len))
  }

  /**
   What the particles look like after the stamps in `picks`: only
   `twinkleUntil` differs, unpicked particles are untouched, and a picked
   particle carries the time of its last pick plus `ms`.
   */
  ghost predicate Stamped(ps: seq<Particle>, qs: seq<Particle>, picks: seq<int>,
                          clock: nat -> real, ms: real)
  {
    && |qs| == |ps|
    && (forall i :: 0 <= i < |ps| ==> qs[i] == ps[i].(twinkleUntil := qs[i].twinkleUntil))
    && (forall i :: 0 <= i < |ps| && i !in picks ==> qs[i] == ps[i])
    && (forall i :: 0 <= i < |ps| && i in picks ==> qs[i].twinkleUntil == clock(LastPick(picks, i)) + ms)
  }

  /** One more pick, stamped with the clock read for it, keeps `Stamped`. */
  lemma StampKeeps(ps: seq<Particle>, qs: seq<Particle>, picks: seq<int>, idx: int,
                   clock: nat -> real, ms: real)
    requires Stamped(ps, qs, picks, clock, ms)
    requires 0 <= idx < |ps|
    ensures Stamped(ps, Stamp(qs, idx, clock(|picks|) + ms), picks + [idx], clock, ms)
  {
    LastPickAppend(picks, idx);
    var rs := Stamp(qs, idx, clock(|picks|) + ms);
    var ext := picks + [idx];
    forall i | 0 <= i < |ps| && i in ext
      ensures rs[i].twinkleUntil == clock(LastPick(ext, i)) + ms
    {
      if i != idx {
        assert i in picks;
      }
    }
  }

  /** `P[idx].twinkleUntil = until`, and nothing else. */
  function Stamp(qs: seq<Particle>, idx: int, until: real): (rs: seq<Particle>)
    requires 0 <= idx < |qs|
    ensures |rs| == |qs|
    ensures rs[idx] == qs[idx].(twinkleUntil := until)
    ensures forall i :: 0 <= i < |qs| && i != idx ==> rs[i] == qs[i]
  {
    qs[idx := qs[idx].(twinkleUntil := until)]
  }

  /** Appending a pick makes it the last pick of its index and leaves the others' last picks alone. */
  lemma LastPickAppend(picks: seq<int>, idx: int)
    ensures LastPick(picks + [idx], idx) == |picks|
    ensures forall i :: i in picks && i != idx ==> LastPick(picks + [idx], i) == LastPick(picks, i)
  {
    var ext := picks + [idx];
    assert ext[..|ext| - 1] == picks;
  }

  /** The twinkle progress `t`, from 0 at the start to 1 at `twinkleUntil`, kept in [0, 1]. */
  function Phase(until: real, now: real, ms: real): (t: real)
    requires now < until
    ensures 0.0 <= t <= 1.0
    ensures 0.0 < ms && now + ms <= until ==> t == 0.0
  {
    if ms == 0.0 then 0.0 else
      RemainingAtLeastOne(until - now, ms);
      Clamp01(1.0 - (until - now) / ms)
  }

  lemma RemainingAtLeastOne(a: real, b: real)
    requires b != 0.0
    ensures 0.0 < b <= a ==> 1.0 <= a / b
  {
    var q := a / b;
    assert q * b == a;
  }

  /** The progress only grows while a twinkle runs. */
  lemma PhaseAdvances(until: real, now1: real, now2: real, ms: real)
    requires now1 <= now2 < until && 0.0 < ms
    ensures Phase(until, now1, ms) <= Phase(until, now2, ms)
  {
    DivideMonotone(until - now2, until - now1, ms);
    ClampMonotone(1.0 - (until - now1) / ms, 1.0 - (until - now2) / ms, 0.0, 1.0);
  }

  lemma DivideMonotone(a: real, b: real, d: real)
    requires a <= b && 0.0 < d
    ensures a / d <= b / d
  {
    var qa, qb := a / d, b / d;
    assert qa * d == a && qb * d == b;
  }

  /** The bell `sin(PI t)`: 0 at the start, never outside [0, 1]. */
  function Bell(t: real, m: MathFns): (b: real)
    requires Lawful(m) && 0.0 <= t <= 1.0
    ensures 0.0 <= b <= 1.0
    ensures t == 0.0 ==> b == 0.0
  {
    ScaleWithinUnit(PI, t);
    m.sin(PI * t)
  }

  /** What the renderer draws of a particle this frame: its opacity and radius multiplier. */
  datatype Look = Look(alpha: real, sizeMul: real)

  /**
   `l` lies on the twinkle curve at height `b`: the opacity dipped and the
   radius grown by the same fraction `b` of their full swings.
   */
  predicate OnCurve(l: Look, alphaBase: real, c: Config, b: real)
  {
    && 0.0 <= b <= 1.0
    && l.alpha == alphaBase * (1.0 - c.twinkleDepth * b)
    && l.sizeMul == 1.0 + c.twinkleSizePulse * b
  }

  /**
   The twinkle envelope: while `now < twinkleUntil` the opacity dips by
   `twinkleDepth * bell` and the radius grows by `twinkleSizePulse * bell`;
   otherwise the particle shows its base opacity at its base size.
   */
  function Envelope(p: Particle, now: real, c: Config, m: MathFns): (l: Look)
    requires Lawful(m)
    ensures now >= p.twinkleUntil ==> l == Look(p.alphaBase, 1.0)
    ensures now < p.twinkleUntil ==>
      OnCurve(l, p.alphaBase, c, Bell(Phase(p.twinkleUntil, now, c.twinkleMs), m))
    ensures 0.0 <= p.alphaBase && 0.0 <= c.twinkleDepth <= 1.0 ==>
      p.alphaBase * (1.0 - c.twinkleDepth) <= l.alpha <= p.alphaBase
    ensures 0.0 <= c.twinkleSizePulse ==> 1.0 <= l.sizeMul <= 1.0 + c.twinkleSizePulse
  {
    if now < p.twinkleUntil then
      var bell := Bell(Phase(p.twinkleUntil, now, c.twinkleMs), m);
      Look(Dip(p.alphaBase, c.twinkleDepth, bell), Pulse(c.twinkleSizePulse, bell))
    else Look(p.alphaBase, 1.0)
  }

  /**
   Strictly inside a twinkle (started, not yet over, and a positive
   `twinkleMs` long) the bell is positive, so a particle of positive base
   opacity is dimmed by any positive depth and grown by any positive pulse.
   */
  lemma TwinkleDimsAndGrows(p: Particle, now: real, c: Config, m: MathFns)
    requires Lawful(m)
    requires 0.0 < p.twinkleUntil - now < c.twinkleMs
    ensures 0.0 < c.twinkleDepth && 0.0 < p.alphaBase ==> Envelope(p, now, c, m).alpha < p.alphaBase
    ensures 0.0 < c.twinkleSizePulse ==> 1.0 < Envelope(p, now, c, m).sizeMul
  {
    var t := Phase(p.twinkleUntil, now, c.twinkleMs);
    PhaseInside(p.twinkleUntil, now, c.twinkleMs);
    var b := Bell(t, m);
    BellInside(t, m);
    var l := Envelope(p, now, c, m);
    if 0.0 < c.twinkleDepth && 0.0 < p.alphaBase {
      PositiveProduct(c.twinkleDepth, b);
      PositiveProduct(p.alphaBase, c.twinkleDepth * b);
      assert l.alpha == p.alphaBase - p.alphaBase * (c.twinkleDepth * b);
    }
    if 0.0 < c.twinkleSizePulse {
      PositiveProduct(c.twinkleSizePulse, b);
    }
  }

  /** Strictly inside a twinkle the progress lies strictly between 0 and 1. */
  lemma PhaseInside(until: real, now: real, ms: real)
    requires 0.0 < until - now < ms
    ensures 0.0 < Phase(until, now, ms) < 1.0
  {
    var r := (until - now) / ms;
    FractionBelowOne(until - now, ms);
    assert r * ms == until - now;
    assert r != 0.0;
  }

  /** The bell is positive strictly between its two ends. */
  lemma BellInside(t: real, m: MathFns)
    requires Lawful(m) && 0.0 < t < 1.0
    ensures 0.0 < Bell(t, m)
  {
    PositiveProduct(PI, t);
    assert PI * t < PI;
  }

  /** The dipped opacity `alphaBase * (1 - depth * bell)`. */
  function Dip(a: real, depth: real, bell: real): (alpha: real)
    requires 0.0 <= bell <= 1.0
    ensures 0.0 <= a && 0.0 <= depth <= 1.0 ==> a * (1.0 - depth) <= alpha <= a
    ensures bell == 0.0 ==> alpha == a
    ensures bell == 1.0 ==> alpha == a * (1.0 - depth)
  {
    DipBounds(a, depth, bell);
    a * (1.0 - depth * bell)
  }

  lemma DipBounds(a: real, depth: real, bell: real)
    requires 0.0 <= bell <= 1.0
    ensures 0.0 <= a && 0.0 <= depth <= 1.0 ==>
      a * (1.0 - depth) <= a * (1.0 - depth * bell) <= a
    ensures bell == 0.0 ==> a * (1.0 - depth * bell) == a
  {
    if 0.0 <= a && 0.0 <= depth <= 1.0 {
      ScaleWithinUnit(depth, bell);
      ScaleMonotone(a, 1.0 - depth, 1.0 - depth * bell);
      ScaleMonotone(a, 1.0 - depth * bell, 1.0);
    }
    if bell == 0.0 {
      ScaleEqual(1.0 - depth * bell, 1.0, a);
    }
  }

  /** The grown radius multiplier `1 + pulse * bell`. */
  function Pulse(pulse: real, bell: real): (mul: real)
    requires 0.0 <= bell <= 1.0
    ensures 0.0 <= pulse ==> 1.0 <= mul <= 1.0 + pulse
    ensures bell == 0.0 ==> mul == 1.0
    ensures bell == 1.0 ==> mul == 1.0 + pulse
  {
    PulseBounds(pulse, bell);
    1.0 + pulse * bell
  }

  lemma PulseBounds(pulse: real, bell: real)
    requires 0.0 <= bell <= 1.0
    ensures 0.0 <= pulse ==> 1.0 <= 1.0 + pulse * bell <= 1.0 + pulse
  {
    if 0.0 <= pulse {
      ScaleWithinUnit(pulse, bell);
    }
  }

  /**
   At the first instant of a twinkle (a full `twinkleMs` still to run) the
   bell is 0, so the particle looks exactly as it does between twinkles.
   */
  lemma EnvelopeStartsFlat(p: Particle, now: real, c: Config, m: MathFns)
    requires Lawful(m)
    requires 0.0 < c.twinkleMs && now + c.twinkleMs == p.twinkleUntil
    ensures Envelope(p, now, c, m) == Look(p.alphaBase, 1.0)
  {
    assert Phase(p.twinkleUntil, now, c.twinkleMs) == 0.0;
  }
}
