/**
 The motion of one particle per frame (js/bg.js, the loop body of `tick`):
 the cursor swirl, the drift, the velocity damping and the wrap-around at
 the widened viewport edge.
 */
module Forces {
  import opened Numeric
  import opened Config
  import opened Particles

  /**
   Wrapping around the viewport enlarged by `m` on each side: below `-m` a
   coordinate re-enters at `size + m`, above `size + m` it re-enters at
   `-m`. The two tests run in that order, as in the script.
   */
  function Wrap(v: real, size: real, m: real): (r: real)
    ensures -m <= size + m ==> -m <= r <= size + m
    ensures WrappedTo(r, v, size, m)
  {
    var low := if v < -m then size + m else v;
    if size + m < low then -m else low
  }

  /**
   `r` is where the wrap puts the coordinate `v`: an in-box coordinate
   stays, one below the box re-enters at the far edge, one above it at the
   near edge.
   */
  predicate WrappedTo(r: real, v: real, size: real, m: real)
  {
    && (-m <= v <= size + m ==> r == v)
    && (v < -m ==> r == size + m)
    && (-m <= v && size + m < v ==> r == -m)
  }

  /** Wrapping a wrapped coordinate changes nothing. */
  lemma WrapIdempotent(v: real, size: real, m: real)
    ensures Wrap(Wrap(v, size, m), size, m) == Wrap(v, size, m)
  {
  }

  /** The stir strength, fading linearly to 0 over the 800 ms after the last cursor move. */
  function SwirlActivity(now: real, lastMove: real): (a: real)
    ensures 0.0 <= a <= 1.0
    ensures now <= lastMove ==> a == 1.0
    ensures lastMove + 800.0 <= now ==> a == 0.0
  {
    Clamp01(1.0 - (now - lastMove) / 800.0)
  }

  /** The activity only decays while the cursor rests. */
  lemma SwirlActivityDecays(now1: real, now2: real, lastMove: real)
    requires now1 <= now2
    ensures SwirlActivity(now2, lastMove) <= SwirlActivity(now1, lastMove)
  {
    assert (now1 - lastMove) / 800.0 <= (now2 - lastMove) / 800.0;
    ClampMonotone(1.0 - (now2 - lastMove) / 800.0, 1.0 - (now1 - lastMove) / 800.0, 0.0, 1.0);
  }

  /** The swirl acts only near the cursor and only while the cursor is recently active. */
  predicate SwirlGate(dist: real, radius: real, activity: real)
  {
    dist < radius && activity > 0.01
  }

  /** `tN`, the closeness to the cursor: 1 at the cursor, falling to 0 at the radius. */
  function Closeness(dist: real, radius: real): (t: real)
    requires 0.0 <= dist < radius
    ensures 0.0 < t <= 1.0
    ensures dist == 0.0 <==> t == 1.0
  {
    FractionBelowOne(dist, radius);
    1.0 - dist / radius
  }

  /** Nearer particles feel a larger closeness. */
  lemma ClosenessDecreasing(d1: real, d2: real, radius: real)
    requires 0.0 <= d1 <= d2 < radius
    ensures Closeness(d2, radius) <= Closeness(d1, radius)
  {
    assert d1 / radius <= d2 / radius;
  }

  /** The falloff `tN^swirlFalloff` keeps the closeness range (0, 1]. */
  function Falloff(t: real, e: real, m: MathFns): (f: real)
    requires LawfulPowHypot(m)
    requires 0.0 < t <= 1.0 && 0.0 < e
    ensures 0.0 < f <= 1.0
    ensures t == 1.0 ==> f == 1.0
  {
    m.pow(t, e)
  }

  /** For a positive exponent the falloff grows with the closeness. */
  lemma FalloffIncreasing(t1: real, t2: real, e: real, m: MathFns)
    requires LawfulPowHypot(m)
    requires 0.0 < t1 <= t2 <= 1.0 && 0.0 < e
    ensures Falloff(t1, e, m) <= Falloff(t2, e, m)
  {
    if t1 < t2 {
      assert m.pow(t1, e) < m.pow(t2, e);
    }
  }

  /**
   The tangential impulse `(-dy, dx) * inv * k`, with `inv = 1/dist` for
   `dist > 0.0001` and 0 closer in.
   */
  function Impulse(ox: real, oy: real, dist: real, k: real): (v: Vec)
    ensures v.x * ox + v.y * oy == 0.0
    ensures dist <= 0.0001 ==> v == Vec(0.0, 0.0)
    ensures dist > 0.0001 && dist * dist == ox * ox + oy * oy ==> v.x * v.x + v.y * v.y == k * k
    ensures dist > 0.0001 && dist * dist == ox * ox + oy * oy ==> ox * v.y - oy * v.x == dist * k
  {
    var inv := if dist > 0.0001 then 1.0 / dist else 0.0;
    var v := Vec(-oy * inv * k, ox * inv * k);
    Tangential(ox, oy, inv * k);
    ImpulseMagnitude(ox, oy, dist, k);
    ImpulseTurn(ox, oy, dist, k);
    v
  }

  /**
   The impulse turns counter-clockwise about the cursor: its cross product
   with the offset is `+dist * k`.
   */
  lemma ImpulseTurn(ox: real, oy: real, dist: real, k: real)
    ensures dist > 0.0001 && dist * dist == ox * ox + oy * oy ==>
      ox * (ox * (1.0 / dist) * k) - oy * (-oy * (1.0 / dist) * k) == dist * k
  {
    if dist > 0.0001 && dist * dist == ox * ox + oy * oy {
      var inv := 1.0 / dist;
      assert dist * inv == 1.0;
      assert ox * (ox * inv * k) - oy * (-oy * inv * k) == (ox * ox + oy * oy) * inv * k;
      assert (dist * dist) * inv * k == dist * (dist * inv) * k;
    }
  }

  lemma ImpulseMagnitude(ox: real, oy: real, dist: real, k: real)
    ensures dist > 0.0001 && dist * dist == ox * ox + oy * oy ==>
      (-oy * (1.0 / dist) * k) * (-oy * (1.0 / dist) * k)
      + (ox * (1.0 / dist) * k) * (ox * (1.0 / dist) * k) == k * k
  {
    if dist > 0.0001 && dist * dist == ox * ox + oy * oy {
      UnitMagnitude(ox, oy, dist, k);
    }
  }

  lemma Tangential(ox: real, oy: real, s: real)
    ensures (-oy * s) * ox + (ox * s) * oy == 0.0
  {
    assert (-oy * s) * ox == -(ox * oy * s);
    assert (ox * s) * oy == ox * oy * s;
  }

  lemma UnitMagnitude(ox: real, oy: real, dist: real, k: real)
    requires 0.0 < dist && dist * dist == ox * ox + oy * oy
    ensures (-oy * (1.0 / dist) * k) * (-oy * (1.0 / dist) * k)
          + (ox * (1.0 / dist) * k) * (ox * (1.0 / dist) * k) == k * k
  {
    var inv := 1.0 / dist;
    var q := inv * inv;
    assert dist * inv == 1.0;
    assert (-oy * inv * k) * (-oy * inv * k) == oy * oy * q * k * k;
    assert (ox * inv * k) * (ox * inv * k) == ox * ox * q * k * k;
    assert oy * oy * q * k * k + ox * ox * q * k * k == (ox * ox + oy * oy) * q * k * k;
    assert (dist * dist) * q == (dist * inv) * (dist * inv);
  }

  /** The depth factor of the swirl, `0.6 + 0.4 z`: nearer particles are stirred less. */
  function DepthFactor(z: real): (d: real)
    ensures 0.0 <= z ==> 0.6 <= d
  {
    0.6 + 0.4 * z
  }

  /**
   The swirl strength `k` felt at distance `dist` from the cursor by a
   particle at depth `z`: `swirlStrength * tN^swirlFalloff * (0.6 + 0.4 z) * activity`.
   */
  function StrengthAt(z: real, dist: real, activity: real, c: Config, m: MathFns): real
    requires 0.0 <= dist < c.swirlRadius
  {
    Strength(c.swirlStrength, m.pow(Closeness(dist, c.swirlRadius), c.swirlFalloff), DepthFactor(z), activity)
  }
  /** The squared swirl strength at distance `dist`: the size of the kick, squared. */
  function KickAt(z: real, dist: real, activity: real, c: Config, m: MathFns): real
    requires 0.0 <= dist < c.swirlRadius
  {
    var k := StrengthAt(z, dist, activity, c, m);
    k * k
  }


  /** `q` differs from `p` at most in position and velocity. */
  predicate MotionOnly(p: Particle, q: Particle)
  {
    SameBody(p, q) && q.twinkleUntil == p.twinkleUntil
  }

  /** The squared size of the velocity change from `p` to `q`. */
  function Kick2(p: Particle, q: Particle): real
  {
    (q.vx - p.vx) * (q.vx - p.vx) + (q.vy - p.vy) * (q.vy - p.vy)
  }

  /** `k`: strength times falloff times the depth factor times activity. */
  function Strength(s: real, fall: real, depth: real, activity: real): real
  {
    s * fall * depth * activity
  }

  /** With every factor in range, `k` lies between 0 and strength times the depth factor. */
  lemma StrengthBound(s: real, fall: real, depth: real, activity: real)
    ensures 0.0 <= s && 0.0 <= fall <= 1.0 && 0.0 <= depth && 0.0 <= activity <= 1.0
      ==> 0.0 <= Strength(s, fall, depth, activity) <= s * depth
  {
    if 0.0 <= s && 0.0 <= fall <= 1.0 && 0.0 <= depth && 0.0 <= activity <= 1.0 {
      ScaleWithinUnit(s, fall);
      var sf := s * fall;
      ScaleMonotone(depth, sf, s);
      assert 0.0 <= sf * depth <= s * depth;
      ScaleWithinUnit(sf * depth, activity);
    }
  }

  /**
   The swirl step for cursor position `(mx, my)`: inside the radius, and
   while the activity exceeds 0.01, the velocity receives the tangential
   impulse of size `StrengthAt` (none within 0.0001 of the cursor, where
   the direction is undefined); nothing else about the particle changes.
   */
  function Swirl(p: Particle, mx: real, my: real, activity: real, c: Config, m: MathFns): (q: Particle)
    requires LawfulPowHypot(m)
    ensures MotionOnly(p, q) && q.x == p.x && q.y == p.y
    ensures var dist := m.hypot(p.x - mx, p.y - my);
      !SwirlGate(dist, c.swirlRadius, activity) || dist <= 0.0001 ==> q == p
    ensures var dist := m.hypot(p.x - mx, p.y - my);
      SwirlGate(dist, c.swirlRadius, activity) && 0.0001 < dist ==>
        Kick2(p, q) == KickAt(p.z, dist, activity, c, m)
    ensures var dist := m.hypot(p.x - mx, p.y - my);
      SwirlGate(dist, c.swirlRadius, activity) && 0.0001 < dist ==>
        (p.x - mx) * (q.vy - p.vy) - (p.y - my) * (q.vx - p.vx) == dist * StrengthAt(p.z, dist, activity, c, m)
    ensures (q.vx - p.vx) * (p.x - mx) + (q.vy - p.vy) * (p.y - my) == 0.0
  {
    var ox, oy := p.x - mx, p.y - my;
    var dist := m.hypot(ox, oy);
    if SwirlGate(dist, c.swirlRadius, activity) then
      var k := StrengthAt(p.z, dist, activity, c, m);
      var v := Impulse(ox, oy, dist, k);
      var q := p.(vx := p.vx + v.x, vy := p.vy + v.y);
      if 0.0001 < dist then
        HypotSquare(ox, oy, m);
        AwayKick(p, q, ox, oy, dist, k);
        q
      else q
    else p
  }

  /** `hypot` at one argument pair: a non-negative root of the sum of squares. */
  lemma HypotSquare(a: real, b: real, m: MathFns)
    requires LawfulPowHypot(m)
    ensures m.hypot(a, b) * m.hypot(a, b) == a * a + b * b
  {
  }

  /** The velocity change of `q` over `p` is the impulse `v`, seen through the kick's size and products. */
  lemma KickOf(p: Particle, q: Particle, v: Vec, ox: real, oy: real)
    requires q == p.(vx := p.vx + v.x, vy := p.vy + v.y)
    ensures Kick2(p, q) == v.x * v.x + v.y * v.y
    ensures ox * (q.vy - p.vy) - oy * (q.vx - p.vx) == ox * v.y - oy * v.x
    ensures (q.vx - p.vx) * ox + (q.vy - p.vy) * oy == v.x * ox + v.y * oy
  {
    assert q.vx - p.vx == v.x && q.vy - p.vy == v.y;
  }

  /** Away from the cursor the impulse of strength `k` has size `k` and turns counter-clockwise. */
  lemma AwayKick(p: Particle, q: Particle, ox: real, oy: real, dist: real, k: real)
    requires 0.0001 < dist && dist * dist == ox * ox + oy * oy
    requires q == p.(vx := p.vx + Impulse(ox, oy, dist, k).x, vy := p.vy + Impulse(ox, oy, dist, k).y)
    ensures Kick2(p, q) == k * k
    ensures ox * (q.vy - p.vy) - oy * (q.vx - p.vx) == dist * k
    ensures (q.vx - p.vx) * ox + (q.vy - p.vy) * oy == 0.0
  {
    var v := Impulse(ox, oy, dist, k);
    KickOf(p, q, v, ox, oy);
  }

  /**
   Inside the gate, away from the cursor itself, the impulse has exactly the
   strength `k`, which is never more than `swirlStrength` times the depth factor.
   */
  lemma SwirlImpulseBound(p: Particle, mx: real, my: real, activity: real, c: Config, m: MathFns)
    requires LawfulPowHypot(m)
    requires 0.0 <= c.swirlStrength && 0.0 < c.swirlFalloff && 0.0 <= p.z && 0.0 <= activity <= 1.0
    ensures Kick2(p, Swirl(p, mx, my, activity, c, m))
      <= (c.swirlStrength * DepthFactor(p.z)) * (c.swirlStrength * DepthFactor(p.z))
  {
    var dist := m.hypot(p.x - mx, p.y - my);
    var q := Swirl(p, mx, my, activity, c, m);
    var cap := c.swirlStrength * DepthFactor(p.z);
    if SwirlGate(dist, c.swirlRadius, activity) && 0.0001 < dist {
      var k := StrengthAt(p.z, dist, activity, c, m);
      var fall := Falloff(Closeness(dist, c.swirlRadius), c.swirlFalloff, m);
      assert 0.0 < fall <= 1.0;
      StrengthBound(c.swirlStrength, fall, DepthFactor(p.z), activity);
      assert 0.0 <= k <= cap;
      SquareMonotone(k, cap);
    } else {
      assert q == p;
      SquareNonNegative(cap);
    }
  }

  /**
   The swirl fades with distance: of two particles at the same depth, the
   farther one never gets a larger kick than the nearer one (outside the
   0.0001 dead zone around the cursor), and while the swirl is on and
   reaches the farther one, a strictly smaller kick.
   */
  lemma SwirlFadesWithDistance(p1: Particle, p2: Particle, mx: real, my: real, activity: real,
                               c: Config, m: MathFns)
    requires LawfulPowHypot(m)
    requires p1.z == p2.z && 0.0 <= p1.z
    requires 0.0 <= c.swirlStrength && 0.0 < c.swirlFalloff && 0.0 <= activity <= 1.0
    requires 0.0001 < m.hypot(p1.x - mx, p1.y - my) <= m.hypot(p2.x - mx, p2.y - my)
    ensures Kick2(p2, Swirl(p2, mx, my, activity, c, m)) <= Kick2(p1, Swirl(p1, mx, my, activity, c, m))
  {
    var d2 := m.hypot(p2.x - mx, p2.y - my);
    if SwirlGate(d2, c.swirlRadius, activity) {
      KickInside(p2, mx, my, activity, c, m);
      KickAtLeast(p1, d2, mx, my, activity, c, m);
    } else {
      KickOutside(p2, mx, my, activity, c, m);
      KickNonNegative(p1, Swirl(p1, mx, my, activity, c, m));
    }
  }

  /**
   While the swirl is on and reaches the farther of two particles at the
   same depth, the farther one gets a strictly smaller kick.
   */
  lemma SwirlFadesStrictly(p1: Particle, p2: Particle, mx: real, my: real, activity: real,
                           c: Config, m: MathFns)
    requires LawfulPowHypot(m)
    requires p1.z == p2.z && 0.0 <= p1.z
    requires 0.0 < c.swirlStrength && 0.0 < c.swirlFalloff && 0.0 <= activity <= 1.0
    requires 0.0001 < m.hypot(p1.x - mx, p1.y - my) < m.hypot(p2.x - mx, p2.y - my)
    requires SwirlGate(m.hypot(p2.x - mx, p2.y - my), c.swirlRadius, activity)
    ensures Kick2(p2, Swirl(p2, mx, my, activity, c, m)) < Kick2(p1, Swirl(p1, mx, my, activity, c, m))
  {
    KickInside(p2, mx, my, activity, c, m);
    KickAtLeast(p1, m.hypot(p2.x - mx, p2.y - my), mx, my, activity, c, m);
  }

  /**
   A particle at distance `dist` from the cursor is kicked at least as hard
   as the swirl kicks at any larger distance `d` the swirl still reaches,
   and strictly harder when `d` is farther and the strength positive.
   */
  lemma KickAtLeast(p: Particle, d: real, mx: real, my: real, activity: real, c: Config, m: MathFns)
    requires LawfulPowHypot(m)
    requires 0.0 <= p.z && 0.0 <= c.swirlStrength && 0.0 < c.swirlFalloff && 0.0 <= activity <= 1.0
    requires 0.0001 < m.hypot(p.x - mx, p.y - my) <= d && SwirlGate(d, c.swirlRadius, activity)
    ensures KickAt(p.z, d, activity, c, m)
      <= Kick2(p, Swirl(p, mx, my, activity, c, m))
    ensures 0.0 < c.swirlStrength && m.hypot(p.x - mx, p.y - my) < d ==>
      KickAt(p.z, d, activity, c, m)
        < Kick2(p, Swirl(p, mx, my, activity, c, m))
  {
    var dist := m.hypot(p.x - mx, p.y - my);
    KickBeyond(p.z, dist, d, Kick2(p, Swirl(p, mx, my, activity, c, m)), activity, c, m);
  }

  /** The squared strength at `dist` bounds the squared strength at any farther `d` the swirl reaches. */
  lemma KickBeyond(z: real, dist: real, d: real, a: real, activity: real, c: Config, m: MathFns)
    requires LawfulPowHypot(m)
    requires 0.0 <= z && 0.0 <= c.swirlStrength && 0.0 < c.swirlFalloff && 0.0 <= activity <= 1.0
    requires 0.0 <= dist <= d && SwirlGate(d, c.swirlRadius, activity)
    requires a == KickAt(z, dist, activity, c, m)
    ensures KickAt(z, d, activity, c, m) <= a
    ensures 0.0 < c.swirlStrength && dist < d ==>
      KickAt(z, d, activity, c, m) < a
  {
    SquaresFade(z, dist, d, activity, c, m);
  }

  /** Inside the gate, away from the cursor, the kick is `KickAt`, the square of `StrengthAt`. */
  lemma KickInside(p: Particle, mx: real, my: real, activity: real, c: Config, m: MathFns)
    requires LawfulPowHypot(m)
    requires var dist := m.hypot(p.x - mx, p.y - my);
      SwirlGate(dist, c.swirlRadius, activity) && 0.0001 < dist
    ensures Kick2(p, Swirl(p, mx, my, activity, c, m)) == KickAt(p.z, m.hypot(p.x - mx, p.y - my), activity, c, m)
  {
  }

  /** Outside the gate there is no kick. */
  lemma KickOutside(p: Particle, mx: real, my: real, activity: real, c: Config, m: MathFns)
    requires LawfulPowHypot(m)
    requires !SwirlGate(m.hypot(p.x - mx, p.y - my), c.swirlRadius, activity)
    ensures Kick2(p, Swirl(p, mx, my, activity, c, m)) == 0.0
  {
    assert Swirl(p, mx, my, activity, c, m) == p;
  }

  /** The squared strength falls with distance, strictly while every factor is positive. */
  lemma SquaresFade(z: real, d1: real, d2: real, activity: real, c: Config, m: MathFns)
    requires LawfulPowHypot(m)
    requires 0.0 <= z && 0.0 <= c.swirlStrength && 0.0 < c.swirlFalloff && 0.0 <= activity <= 1.0
    requires 0.0 <= d1 <= d2 < c.swirlRadius
    ensures KickAt(z, d2, activity, c, m) <= KickAt(z, d1, activity, c, m)
    ensures 0.0 < c.swirlStrength && 0.01 < activity && d1 < d2 ==>
      KickAt(z, d2, activity, c, m) < KickAt(z, d1, activity, c, m)
  {
    var k1, k2 := StrengthAt(z, d1, activity, c, m), StrengthAt(z, d2, activity, c, m);
    StrengthAtFades(z, d1, d2, activity, c, m);
    SquareMonotone(k2, k1);
    if 0.0 < c.swirlStrength && 0.01 < activity && d1 < d2 {
      SquareStrict(k2, k1);
    }
  }

  lemma KickNonNegative(p: Particle, q: Particle)
    ensures 0.0 <= Kick2(p, q)
  {
    SquareNonNegative(q.vx - p.vx);
    SquareNonNegative(q.vy - p.vy);
  }

  /** `StrengthAt` falls with distance, strictly while every factor is positive. */
  lemma StrengthAtFades(z: real, d1: real, d2: real, activity: real, c: Config, m: MathFns)
    requires LawfulPowHypot(m)
    requires 0.0 <= z && 0.0 <= c.swirlStrength && 0.0 < c.swirlFalloff && 0.0 <= activity <= 1.0
    requires 0.0 <= d1 <= d2 < c.swirlRadius
    ensures 0.0 <= StrengthAt(z, d2, activity, c, m) <= StrengthAt(z, d1, activity, c, m)
    ensures 0.0 < c.swirlStrength && 0.01 < activity && d1 < d2 ==>
      StrengthAt(z, d2, activity, c, m) < StrengthAt(z, d1, activity, c, m)
  {
    var t1, t2 := Closeness(d1, c.swirlRadius), Closeness(d2, c.swirlRadius);
    ClosenessDecreasing(d1, d2, c.swirlRadius);
    FalloffIncreasing(t2, t1, c.swirlFalloff, m);
    var f1, f2 := Falloff(t1, c.swirlFalloff, m), Falloff(t2, c.swirlFalloff, m);
    if d1 < d2 {
      assert d1 / c.swirlRadius < d2 / c.swirlRadius;
      assert f2 < f1;
    }
    StrengthMonotone(c.swirlStrength, f2, f1, DepthFactor(z), activity);
  }

  /** The strength grows with the falloff, strictly when the other factors are positive. */
  lemma StrengthMonotone(s: real, f1: real, f2: real, depth: real, activity: real)
    requires 0.0 <= s && 0.0 <= f1 <= f2 <= 1.0 && 0.0 <= depth && 0.0 <= activity <= 1.0
    ensures 0.0 <= Strength(s, f1, depth, activity) <= Strength(s, f2, depth, activity)
    ensures 0.0 < s && f1 < f2 && 0.0 < depth && 0.0 < activity ==>
      Strength(s, f1, depth, activity) < Strength(s, f2, depth, activity)
  {
    StrengthBound(s, f1, depth, activity);
    ScaleMonotone(s, f1, f2);
    ScaleMonotoneRight(s * f1, s * f2, depth);
    ScaleMonotoneRight(s * f1 * depth, s * f2 * depth, activity);
    if 0.0 < s && f1 < f2 && 0.0 < depth && 0.0 < activity {
      StrengthStrict(s, f1, f2, depth, activity);
    }
  }

  lemma StrengthStrict(s: real, f1: real, f2: real, depth: real, activity: real)
    requires 0.0 < s && f1 < f2 && 0.0 < depth && 0.0 < activity
    ensures Strength(s, f1, depth, activity) < Strength(s, f2, depth, activity)
  {
    ScaleStrictLeft(s, f1, f2);
    ScaleStrictRight(s * f1, s * f2, depth);
    ScaleStrictRight(s * f1 * depth, s * f2 * depth, activity);
  }

  lemma ScaleStrictLeft(a: real, x: real, y: real)
    requires 0.0 < a && x < y
    ensures a * x < a * y
  {
  }

  lemma ScaleStrictRight(x: real, y: real, a: real)
    requires 0.0 < a && x < y
    ensures x * a < y * a
  {
  }

  /**
   The drift step: move by the fixed drift scaled by `0.15 z` plus the
   current velocity, damp the velocity by `velDamp`, then wrap both
   coordinates at the viewport widened by `edgeMargin`.
   */
  function Drift(p: Particle, w: real, h: real, c: Config): (q: Particle)
    ensures MotionOnly(p, q)
    ensures q.vx == Damp(p.vx, c.velDamp) && q.vy == Damp(p.vy, c.velDamp)
    ensures WrappedTo(q.x, p.x + DriftStep(p.dx, p.z) + p.vx, w, c.edgeMargin)
    ensures WrappedTo(q.y, p.y + DriftStep(p.dy, p.z) + p.vy, h, c.edgeMargin)
    ensures -c.edgeMargin <= w + c.edgeMargin ==> -c.edgeMargin <= q.x <= w + c.edgeMargin
    ensures -c.edgeMargin <= h + c.edgeMargin ==> -c.edgeMargin <= q.y <= h + c.edgeMargin
  {
    p.(x := Glide(p.x, p.dx, p.z, p.vx, w, c.edgeMargin), y := Glide(p.y, p.dy, p.z, p.vy, h, c.edgeMargin),
       vx := Damp(p.vx, c.velDamp), vy := Damp(p.vy, c.velDamp))
  }

  /** One frame of damping of a velocity component by the factor `d`. */
  function Damp(v: real, d: real): real
  {
    v * d
  }

  /** The fixed drift of one frame, scaled by `0.15 z`: farther particles (larger `z`) drift faster. */
  function DriftStep(d: real, z: real): real
  {
    d * 0.15 * z
  }

  /** One coordinate's move: drift scaled by depth, plus velocity, then wrapped into the box. */
  function Glide(v: real, dv: real, z: real, vel: real, size: real, m: real): (r: real)
    ensures WrappedTo(r, v + DriftStep(dv, z) + vel, size, m)
    ensures -m <= size + m ==> -m <= r <= size + m
    ensures dv == 0.0 && vel == 0.0 && -m <= v <= size + m ==> r == v
  {
    Wrap(v + DriftStep(dv, z) + vel, size, m)
  }

  /** A particle at rest with no drift and inside the box stays where it is. */
  lemma DriftAtRest(p: Particle, w: real, h: real, c: Config)
    requires p.vx == 0.0 && p.vy == 0.0 && p.dx == 0.0 && p.dy == 0.0
    requires -c.edgeMargin <= p.x <= w + c.edgeMargin && -c.edgeMargin <= p.y <= h + c.edgeMargin
    ensures Drift(p, w, h, c) == p
  {
  }

  /** One frame of motion: the swirl, then the drift. */
  function Advance(p: Particle, w: real, h: real, mx: real, my: real, activity: real,
                   c: Config, m: MathFns): (q: Particle)
    requires LawfulPowHypot(m)
    ensures MotionOnly(p, q)
    ensures var s := Swirl(p, mx, my, activity, c, m);
      && q.vx == Damp(s.vx, c.velDamp) && q.vy == Damp(s.vy, c.velDamp)
      && WrappedTo(q.x, p.x + DriftStep(p.dx, p.z) + s.vx, w, c.edgeMargin)
      && WrappedTo(q.y, p.y + DriftStep(p.dy, p.z) + s.vy, h, c.edgeMargin)
    ensures !SwirlGate(m.hypot(p.x - mx, p.y - my), c.swirlRadius, activity) ==>
      && q.vx == Damp(p.vx, c.velDamp) && q.vy == Damp(p.vy, c.velDamp)
      && WrappedTo(q.x, p.x + DriftStep(p.dx, p.z) + p.vx, w, c.edgeMargin)
      && WrappedTo(q.y, p.y + DriftStep(p.dy, p.z) + p.vy, h, c.edgeMargin)
    ensures -c.edgeMargin <= w + c.edgeMargin ==> -c.edgeMargin <= q.x <= w + c.edgeMargin
    ensures -c.edgeMargin <= h + c.edgeMargin ==> -c.edgeMargin <= q.y <= h + c.edgeMargin
  {
    var s := Swirl(p, mx, my, activity, c, m);
    assert s.x == p.x && s.y == p.y && s.dx == p.dx && s.dy == p.dy && s.z == p.z;
    Drift(s, w, h, c)
  }

  /** A velocity component damped `n` times by the factor `d`. */
  function Damped(v: real, d: real, n: nat): real
  {
    if n == 0 then v else Damp(Damped(v, d, n - 1), d)
  }

  /** Damping `n` times is scaling by the `n`-th power of the factor. */
  lemma {:induction false} DampedIsPower(v: real, d: real, n: nat)
    ensures Damped(v, d, n) == v * Pow(d, n)
  {
    if n > 0 {
      DampedIsPower(v, d, n - 1);
      var e := Pow(d, n - 1);
      calc {
        Damped(v, d, n);
        Damp(Damped(v, d, n - 1), d);
        Damp(v * e, d);
        (v * e) * d;
        { Reassociate(v, e, d); }
        v * (d * e);
        { ScaleEqual(d * e, Pow(d, n), v); }
        v * Pow(d, n);
      }
    } else {
      ScaleEqual(Pow(d, n), 1.0, v);
    }
  }

  lemma Reassociate(v: real, e: real, d: real)
    ensures (v * e) * d == v * (d * e)
  {
  }

  /**
   `n` frames of drift with no swirl: each frame damps the velocity once,
   so after `n` frames each component is damped `n` times, and only the
   position and velocity change.
   */
  function DriftFrames(p: Particle, w: real, h: real, c: Config, n: nat): (q: Particle)
    ensures MotionOnly(p, q)
    ensures q.vx == Damped(p.vx, c.velDamp, n) && q.vy == Damped(p.vy, c.velDamp, n)
  {
    if n == 0 then p else Drift(DriftFrames(p, w, h, c, n - 1), w, h, c)
  }

  /**
   Without swirl the velocity decays geometrically: after `n` frames it is
   the starting velocity times `velDamp^n`.
   */
  lemma GeometricDamping(p: Particle, w: real, h: real, c: Config, n: nat)
    ensures DriftFrames(p, w, h, c, n).vx == p.vx * Pow(c.velDamp, n)
    ensures DriftFrames(p, w, h, c, n).vy == p.vy * Pow(c.velDamp, n)
  {
    DampedIsPower(p.vx, c.velDamp, n);
    DampedIsPower(p.vy, c.velDamp, n);
  }

  /** Damping by a factor in [0, 1] never increases a magnitude. */
  lemma DampShrinks(v: real, d: real)
    requires 0.0 <= d <= 1.0
    ensures Abs(Damp(v, d)) <= Abs(v)
  {
    ScaleWithinUnit(Abs(v), d);
    AbsOfScaled(v, d);
  }

  /** With `velDamp` in [0, 1] the speed never grows from one frame to the next. */
  lemma DampingNeverSpeedsUp(p: Particle, w: real, h: real, c: Config)
    requires 0.0 <= c.velDamp <= 1.0
    ensures Abs(Drift(p, w, h, c).vx) <= Abs(p.vx)
    ensures Abs(Drift(p, w, h, c).vy) <= Abs(p.vy)
  {
    DampShrinks(p.vx, c.velDamp);
    DampShrinks(p.vy, c.velDamp);
  }
}
