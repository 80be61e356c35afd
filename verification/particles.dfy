/**
 The particle pool of the background (js/bg.js): the particle record,
 the automatic particle count, and `initParticles`, which rebuilds the
 whole pool from random draws.
 */
module Particles {
  import opened Numeric
  import opened Color
  import opened Config

  datatype Particle = Particle(
    x: real, y: real,        // persistent simulation-space position
    z: real,                 // depth, smaller is nearer
    r: real,                 // base radius
    dx: real, dy: real,      // fixed signed drift
    vx: real, vy: real,      // swirl velocity, damped every frame
    alphaBase: real,         // opacity ceiling
    rgb: Rgb,
    twinkleUntil: real)      // end of the current twinkle, 0 when none was started

  /** The spawn-time attributes: depth, radius, drift, opacity ceiling and colour. */
  predicate SameBody(p: Particle, q: Particle)
  {
    && p.z == q.z && p.r == q.r && p.dx == q.dx && p.dy == q.dy
    && p.alphaBase == q.alphaBase && p.rgb == q.rgb
  }

  const AreaPerParticle: real := 2800.0
  const MinCount: int := 220
  const MaxCount: int := 1200

  /** The area-based count, rounded and kept within [220, 1200]. */
  function BaseCount(w: real, h: real): (c: real)
    ensures (MinCount as real) <= c && c <= (MaxCount as real)
    ensures c == c.Floor as real
  {
    Clamp(Round(w * h / AreaPerParticle) as real, MinCount as real, MaxCount as real)
  }

  /** The base count scaled by the density clamped to [0, 1], rounded. */
  function Scaled(base: real, density: real): (n: int)
    requires 0.0 <= base
    ensures 0 <= n <= Round(base)
  {
    var d := Clamp01(density);
    ScaleWithinUnit(base, d);
    RoundMonotone(base * d, base);
    Round(base * d)
  }

  /**
   `autoCount`: one particle per 2800 square pixels of viewport, rounded,
   kept within [220, 1200], then scaled by the density clamped to [0, 1]
   and rounded again.
   */
  function AutoCount(w: real, h: real, density: real): (n: int)
    ensures 0 <= n <= MaxCount
  {
    Scaled(BaseCount(w, h), density)
  }

  /** At full density the count is exactly the clamped area-based count. */
  lemma AutoCountAtFullDensity(w: real, h: real, density: real)
    requires 1.0 <= density
    ensures AutoCount(w, h, density) as real == BaseCount(w, h)
    ensures MinCount <= AutoCount(w, h, density)
  {
    var base := BaseCount(w, h);
    assert base * Clamp01(density) == base;
    RoundOfInteger(base.Floor);
  }

  /** The count never decreases as the density grows. */
  lemma AutoCountMonotone(w: real, h: real, d1: real, d2: real)
    requires d1 <= d2
    ensures AutoCount(w, h, d1) <= AutoCount(w, h, d2)
  {
    ScaledMonotone(BaseCount(w, h), d1, d2);
  }

  lemma ScaledMonotone(base: real, d1: real, d2: real)
    requires 0.0 <= base && d1 <= d2
    ensures Scaled(base, d1) <= Scaled(base, d2)
  {
    var c1, c2 := Clamp01(d1), Clamp01(d2);
    ClampMonotone(d1, d2, 0.0, 1.0);
    ScaleMonotone(base, c1, c2);
    var p1, p2 := base * c1, base * c2;
    RoundMonotone(p1, p2);
    assert Scaled(base, d1) == Round(p1);
    assert Scaled(base, d2) == Round(p2);
  }

  /** The density is clamped at 1, so densities above 1 never raise the count. */
  lemma AutoCountDensityCap(w: real, h: real, d: real)
    requires 1.0 <= d
    ensures AutoCount(w, h, d) == AutoCount(w, h, 1.0)
  {
    assert Clamp01(d) == Clamp01(1.0);
  }

  /** Without any density the pool is empty, whatever the viewport. */
  lemma AutoCountZeroDensity(w: real, h: real, d: real)
    requires d <= 0.0
    ensures AutoCount(w, h, d) == 0
  {
  }

  /** An 800 by 600 viewport at density 1 holds the minimum, 220 particles. */
  lemma AutoCountExample()
    ensures AutoCount(800.0, 600.0, 1.0) == 220
  {
    assert Round(800.0 * 600.0 / AreaPerParticle) == 171;
    assert BaseCount(800.0, 600.0) == 220.0;
    AutoCountAtFullDensity(800.0, 600.0, 1.0);
  }

  /** The eleven `Math.random()` draws one particle consumes, in call order. */
  datatype SpawnDraws = SpawnDraws(
    dominant: real, pick: real, x: real, y: real, z: real, r: real,
    dxSpeed: real, dxSign: real, dySpeed: real, dySign: real, alpha: real)
  {
    predicate Valid()
    {
      && 0.0 <= dominant < 1.0 && 0.0 <= pick < 1.0
      && 0.0 <= x < 1.0 && 0.0 <= y < 1.0 && 0.0 <= z < 1.0 && 0.0 <= r < 1.0
      && 0.0 <= dxSpeed < 1.0 && 0.0 <= dxSign < 1.0
      && 0.0 <= dySpeed < 1.0 && 0.0 <= dySign < 1.0
      && 0.0 <= alpha < 1.0
    }
  }

  const DrawsPerParticle: nat := 11

  /** The draws of the k-th particle: `rand(11k)` to `rand(11k + 10)`. */
  function DrawsAt(rand: nat -> real, k: nat): (d: SpawnDraws)
    requires Uniform(rand)
    ensures d.Valid()
  {
    var b := DrawsPerParticle * k;
    SpawnDraws(rand(b), rand(b + 1), rand(b + 2), rand(b + 3), rand(b + 4), rand(b + 5),
               rand(b + 6), rand(b + 7), rand(b + 8), rand(b + 9), rand(b + 10))
  }

  /** `(Math.random() * len) | 0`: an index into a list of `len` entries. */
  function PickIndex(u: real, len: nat): (i: int)
    requires 0.0 <= u < 1.0 && 0 < len < TwoTo31
    ensures 0 <= i < len
  {
    DrawIndex(u, len);
    ToInt32(u * (len as real))
  }

  /** A drift speed with a random sign: negative exactly when the sign draw is below one half. */
  function Signed(speed: real, sign: real): (v: real)
    ensures Abs(v) == Abs(speed)
    ensures 0.0 < speed ==> (v < 0.0 <==> sign < 0.5)
  {
    speed * (if sign < 0.5 then -1.0 else 1.0)
  }

  /** A coordinate spawned in the viewport widened by the margin on both sides. */
  predicate InSpawnBox(v: real, size: real, margin: real)
  {
    0.0 < size + margin * 2.0 ==> -margin <= v < size + margin
  }

  /** The ranges of a freshly spawned particle. */
  predicate Fresh(p: Particle, w: real, h: real, margin: real)
  {
    && InSpawnBox(p.x, w, margin) && InSpawnBox(p.y, h, margin)
    && 0.2 <= p.z < 1.2
    && 0.6 <= p.r < 2.2
    && 0.05 <= Abs(p.dx) < 0.35
    && 0.03 <= Abs(p.dy) < 0.23
    && p.vx == 0.0 && p.vy == 0.0
    && 0.35 <= p.alphaBase < 0.7
    && p.twinkleUntil == 0.0
  }

  /** `Math.random() * (size + 2m) - m`: a coordinate in the widened viewport. */
  function SpawnCoordinate(u: real, size: real, margin: real): (v: real)
    requires 0.0 <= u < 1.0
    ensures InSpawnBox(v, size, margin)
  {
    var span := size + margin * 2.0;
    if 0.0 < span then DrawWithin(u, span); u * span - margin
    else u * span - margin
  }

  /**
   The colour draw: a dominant colour when the first draw falls below
   `dominantWeight`, else an accent, each picked by the second draw.
   */
  function SpawnColor(c: Config, d: SpawnDraws): (rgb: Rgb)
    requires d.Valid()
    ensures rgb in DominantColors <==> d.dominant < c.dominantWeight
    ensures rgb in DominantColors || rgb in AccentColors
  {
    PaletteDecodes();
    if d.dominant < c.dominantWeight
      then HexToRgb(Dominant[PickIndex(d.pick, |Dominant|)])
      else HexToRgb(Accents[PickIndex(d.pick, |Accents|)])
  }

  /** One particle of `initParticles`. */
  function Spawn(w: real, h: real, c: Config, d: SpawnDraws): (p: Particle)
    requires d.Valid()
    ensures Fresh(p, w, h, c.edgeMargin)
    ensures p.rgb in DominantColors <==> d.dominant < c.dominantWeight
    ensures p.rgb in DominantColors || p.rgb in AccentColors
    ensures (p.dx < 0.0 <==> d.dxSign < 0.5) && (p.dy < 0.0 <==> d.dySign < 0.5)
  {
    Particle(
      SpawnCoordinate(d.x, w, c.edgeMargin),
      SpawnCoordinate(d.y, h, c.edgeMargin),
      d.z * 1.0 + 0.2,
      d.r * 1.6 + 0.6,
      Signed(d.dxSpeed * 0.3 + 0.05, d.dxSign),
      Signed(d.dySpeed * 0.2 + 0.03, d.dySign),
      0.0, 0.0,
      d.alpha * 0.35 + 0.35,
      SpawnColor(c, d),
      0.0)
  }

  /**
   `initParticles`: a whole new pool of `autoCount()` particles, the k-th
   built from draws `11k` to `11k + 10` of the random source.
   */
  function InitParticles(w: real, h: real, c: Config, rand: nat -> real): (ps: seq<Particle>)
    requires Uniform(rand)
    ensures |ps| == AutoCount(w, h, c.density)
    ensures forall i :: 0 <= i < |ps| ==> Fresh(ps[i], w, h, c.edgeMargin)
    ensures forall i :: 0 <= i < |ps| ==>
      (ps[i].rgb in DominantColors <==> rand(DrawsPerParticle * i) < c.dominantWeight)
    ensures forall i :: 0 <= i < |ps| ==> ps[i].rgb in DominantColors || ps[i].rgb in AccentColors
  {
    seq(AutoCount(w, h, c.density), k requires 0 <= k => Spawn(w, h, c, DrawsAt(rand, k)))
  }
}
