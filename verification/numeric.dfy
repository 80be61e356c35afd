/**
 Real-number helpers shared by the particle background and the carousel:
 the clamping and rounding idioms of the scripts, the `v|0` integer cast,
 the random source, and the transcendental functions, which are kept
 abstract and described only by the facts the model relies on.
 */
module Numeric {

  /** `Math.PI`, written out as a decimal. */
  const PI: real := 3.141592653589793

  function Abs(x: real): (r: real)
    ensures 0.0 <= r
    ensures r == x || r == -x
  {
    if x < 0.0 then -x else x
  }

  function Max(a: real, b: real): (r: real)
    ensures a <= r && b <= r
    ensures r == a || r == b
  {
    if a < b then b else a
  }

  function Min(a: real, b: real): (r: real)
    ensures r <= a && r <= b
    ensures r == a || r == b
  {
    if a < b then a else b
  }

  /**
   The easing step `v + (target - v) * k` used for the cursor and scroll
   smoothing and for the rotation-speed blend: for `k` in [0, 1] the result
   lies between `v` and `target` and is no further from the target than `v`,
   strictly between the two for `k` strictly inside (0, 1).
   */
  function Lerp(v: real, target: real, k: real): (r: real)
    ensures 0.0 <= k <= 1.0 ==> Min(v, target) <= r <= Max(v, target)
    ensures 0.0 <= k <= 1.0 ==> Abs(target - r) <= Abs(target - v)
    ensures k == 0.0 ==> r == v
    ensures k == 1.0 ==> r == target
    ensures 0.0 < k < 1.0 && v != target ==> Min(v, target) < r < Max(v, target)
  {
    LerpBetween(v, target, k);
    LerpEnds(v, target, k);
    LerpStrict(v, target, k);
    v + (target - v) * k
  }

  lemma LerpBetween(v: real, target: real, k: real)
    ensures 0.0 <= k <= 1.0 ==> Min(v, target) <= v + (target - v) * k
    ensures 0.0 <= k <= 1.0 ==> v + (target - v) * k <= Max(v, target)
  {
    if 0.0 <= k <= 1.0 {
      if v <= target {
        EaseUp(v, target, k);
      } else {
        EaseDown(v, target, k);
      }
    }
  }

  lemma LerpStrict(v: real, target: real, k: real)
    ensures 0.0 < k < 1.0 && v != target ==> Min(v, target) < v + (target - v) * k < Max(v, target)
  {
    if 0.0 < k < 1.0 && v != target {
      StepBetween(v, target, target - v, k);
    }
  }

  lemma StepBetween(v: real, target: real, d: real, k: real)
    requires d == target - v && d != 0.0 && 0.0 < k < 1.0
    ensures Min(v, target) < v + d * k < Max(v, target)
  {
    if 0.0 < d {
      PartialStep(d, k);
      assert Min(v, target) == v && Max(v, target) == target;
    } else {
      PartialStep(-d, k);
      assert (-d) * k == -(d * k);
      assert Min(v, target) == target && Max(v, target) == v;
    }
  }

  /** A fraction strictly inside (0, 1) of a positive step is positive and shorter than the step. */
  lemma PartialStep(d: real, k: real)
    requires 0.0 < d && 0.0 < k < 1.0
    ensures 0.0 < d * k < d
  {
    PositiveProduct(d, k);
    PositiveProduct(d, 1.0 - k);
    assert d * (1.0 - k) == d - d * k;
  }

  /** A larger blend factor moves the step further from `v` toward `target`. */
  lemma LerpMonotone(v: real, target: real, k1: real, k2: real)
    requires k1 <= k2
    ensures v <= target ==> Lerp(v, target, k1) <= Lerp(v, target, k2)
    ensures target <= v ==> Lerp(v, target, k2) <= Lerp(v, target, k1)
  {
    if v <= target {
      LerpRises(v, target, k1, k2);
    }
    if target <= v {
      LerpFalls(v, target, k1, k2);
    }
  }

  lemma LerpRises(v: real, target: real, k1: real, k2: real)
    requires k1 <= k2 && v <= target
    ensures Lerp(v, target, k1) <= Lerp(v, target, k2)
  {
    var d := target - v;
    ScaleMonotone(d, k1, k2);
    var x1, x2 := v + d * k1, v + d * k2;
    assert x1 <= x2;
    assert Lerp(v, target, k1) == x1;
    assert Lerp(v, target, k2) == x2;
  }

  lemma LerpFalls(v: real, target: real, k1: real, k2: real)
    requires k1 <= k2 && target <= v
    ensures Lerp(v, target, k2) <= Lerp(v, target, k1)
  {
    var e := v - target;
    ScaleMonotone(e, k1, k2);
    var x1, x2 := v - e * k1, v - e * k2;
    assert x2 <= x1;
    assert Lerp(v, target, k1) == x1;
    assert Lerp(v, target, k2) == x2;
  }

  lemma EaseUp(v: real, target: real, k: real)
    requires v <= target && 0.0 <= k <= 1.0
    ensures Min(v, target) <= v + (target - v) * k <= Max(v, target)
  {
    assert Min(v, target) == v && Max(v, target) == target;
  }

  lemma EaseDown(v: real, target: real, k: real)
    requires target < v && 0.0 <= k <= 1.0
    ensures Min(v, target) <= v + (target - v) * k <= Max(v, target)
  {
    assert Min(v, target) == target && Max(v, target) == v;
  }

  lemma LerpEnds(v: real, target: real, k: real)
    ensures k == 0.0 ==> v + (target - v) * k == v
    ensures k == 1.0 ==> v + (target - v) * k == target
  {
  }

  /** A planar vector: a position, an offset or a velocity impulse. */
  datatype Vec = Vec(x: real, y: real)

  /** `Math.max(lo, Math.min(hi, v))`, which is also `THREE.MathUtils.clamp(v, lo, hi)`. */
  function Clamp(v: real, lo: real, hi: real): (r: real)
    ensures lo <= hi ==> lo <= r <= hi
    ensures lo <= v <= hi ==> r == v
    ensures v <= lo ==> r == lo
    ensures lo <= hi <= v ==> r == hi
  {
    var capped := if v < hi then v else hi;
    if capped < lo then lo else capped
  }

  /** Clamping is monotone: it never reorders two inputs. */
  lemma ClampMonotone(a: real, b: real, lo: real, hi: real)
    requires a <= b
    ensures Clamp(a, lo, hi) <= Clamp(b, lo, hi)
  {
  }

  /** The `clamp01` helper of the background script. */
  function Clamp01(v: real): (r: real)
    ensures 0.0 <= r <= 1.0
    ensures 0.0 <= v <= 1.0 ==> r == v
    ensures v <= 0.0 ==> r == 0.0
    ensures 1.0 <= v ==> r == 1.0
  {
    Clamp(v, 0.0, 1.0)
  }

  /** Scaling by a factor in [0, 1] shrinks a non-negative quantity. */
  lemma ScaleWithinUnit(a: real, t: real)
    requires 0.0 <= a && 0.0 <= t <= 1.0
    ensures 0.0 <= a * t <= a
  {
  }

  /** A draw in [0, 1) scales a positive span into [0, span). */
  lemma DrawWithin(u: real, span: real)
    requires 0.0 <= u < 1.0 && 0.0 < span
    ensures 0.0 <= u * span < span
  {
  }

  /** A part over a larger positive whole is a fraction in [0, 1). */
  lemma FractionBelowOne(a: real, b: real)
    requires 0.0 <= a < b
    ensures 0.0 <= a / b < 1.0
  {
    var q := a / b;
    assert q * b == a;
  }

  /** Equal factors give equal products (the solver does not always substitute inside a product). */
  lemma ScaleEqual(a: real, b: real, k: real)
    requires a == b
    ensures a * k == b * k
  {
  }

  /** A non-negative factor scales the magnitude by itself. */
  lemma AbsOfScaled(a: real, k: real)
    requires 0.0 <= k
    ensures Abs(a * k) == Abs(a) * k
  {
    if 0.0 <= a {
      ScaleMonotone(a, 0.0, k);
    } else {
      ScaleMonotoneRight(a, 0.0, k);
      assert Abs(a) * k == -(a * k);
    }
  }

  /** Multiplying by a non-negative factor keeps the order. */
  lemma ScaleMonotone(a: real, x: real, y: real)
    requires 0.0 <= a && x <= y
    ensures a * x <= a * y
  {
  }

  /** The product of two positive quantities is positive. */
  lemma PositiveProduct(a: real, b: real)
    requires 0.0 < a && 0.0 < b
    ensures 0.0 < a * b
  {
  }

  /** `Math.round`: the nearest integer, with halves rounded up. */
  function Round(x: real): (n: int)
    ensures x - 0.5 < (n as real) && (n as real) <= x + 0.5
  {
    (x + 0.5).Floor
  }

  /** The rounding is monotone, so scaling a count up never rounds it down. */
  lemma RoundMonotone(a: real, b: real)
    requires a <= b
    ensures Round(a) <= Round(b)
  {
  }

  /** The same, with the factor on the right. */
  lemma ScaleMonotoneRight(x: real, y: real, a: real)
    requires 0.0 <= a && x <= y
    ensures x * a <= y * a
  {
  }

  /** Squaring is strictly monotone on the non-negative reals. */
  lemma SquareStrict(a: real, b: real)
    requires 0.0 <= a < b
    ensures a * a < b * b
  {
    var d := b - a;
    assert b * b == a * a + d * (a + b) by {
      assert b == a + d;
    }
    assert 0.0 < d * (a + b);
  }

  /** Squares are never negative. */
  lemma SquareNonNegative(a: real)
    ensures 0.0 <= a * a
  {
  }

  /** Squaring is monotone on the non-negative reals. */
  lemma SquareMonotone(a: real, b: real)
    requires 0.0 <= a <= b
    ensures a * a <= b * b
  {
    ScaleMonotone(a, a, b);
    ScaleMonotone(b, a, b);
  }

  /** Integers are fixed by rounding. */
  lemma RoundOfInteger(n: int)
    ensures Round(n as real) == n
  {
  }

  /** Truncation toward zero, the first step of ECMAScript's ToInt32. */
  function Truncate(x: real): (n: int)
    ensures Abs(n as real) <= Abs(x) && Abs(x) < Abs(n as real) + 1.0
    ensures (n < 0 ==> x < 0.0) && (x < 0.0 ==> n <= 0)
  {
    if x < 0.0 then -((-x).Floor) else x.Floor
  }

  const TwoTo31: int := 0x8000_0000
  const TwoTo32: int := 0x1_0000_0000

  /**
   ECMAScript ToInt32, the conversion behind `v|0`: truncate toward zero,
   reduce modulo 2^32 and read the result as a signed 32-bit integer.
   (NaN and the infinities, which map to 0, do not arise over the reals.)
   */
  function ToInt32(x: real): (n: int)
    ensures -TwoTo31 <= n < TwoTo31
    ensures (n - Truncate(x)) % TwoTo32 == 0
    ensures 0.0 <= x && x < (TwoTo31 as real) ==> n == x.Floor
  {
    var m := Truncate(x) % TwoTo32;
    if m >= TwoTo31 then m - TwoTo32 else m
  }

  /**
   `(u * len) | 0` for a draw `u` in [0, 1): the floor of the scaled draw,
   an index into a list of `len` entries.
   */
  lemma DrawIndex(u: real, len: int)
    requires 0.0 <= u < 1.0 && 0 < len < TwoTo31
    ensures ToInt32(u * (len as real)) == (u * (len as real)).Floor
    ensures 0 <= ToInt32(u * (len as real)) < len
  {
    var x := ScaledBelow(u, len);
    FloorIndex(x, len);
  }

  /** The scaled draw `u * len`, named so that its bounds are stated once. */
  lemma ScaledBelow(u: real, len: int) returns (x: real)
    requires 0.0 <= u < 1.0 && 0 < len
    ensures x == u * (len as real)
    ensures 0.0 <= x && x < len as real
  {
    x := u * (len as real);
    DrawWithin(u, len as real);
  }

  lemma FloorIndex(x: real, len: int)
    requires 0.0 <= x && x < (len as real) && len < TwoTo31
    ensures ToInt32(x) == x.Floor
    ensures 0 <= x.Floor < len
  {
    assert x.Floor as real <= x;
  }

  /** `b` raised to the natural power `n`. */
  function Pow(b: real, n: nat): real
  {
    if n == 0 then 1.0 else b * Pow(b, n - 1)
  }

  /**
   A source of `Math.random()` draws: the i-th call answers `rand(i)`.
   */
  ghost predicate Uniform(rand: nat -> real)
  {
    forall i: nat :: 0.0 <= rand(i) < 1.0
  }

  /**
   The transcendental functions the scripts call (`Math.sin`, `Math.cos`,
   `Math.pow`, `Math.hypot`), passed in as values. Nothing about them is
   computed; the model uses only the facts collected in `Lawful`.
   */
  datatype MathFns = MathFns(
    sin: real -> real,
    cos: real -> real,
    pow: (real, real) -> real,
    hypot: (real, real) -> real)

  /**
   The laws of the four functions the model relies on. `PI` is the double
   nearest to π and lies just below it, so `sin` is positive strictly
   inside (0, PI).
   */
  ghost predicate Lawful(m: MathFns)
  {
    && (forall x :: -1.0 <= m.sin(x) <= 1.0)
    && (forall x :: 0.0 <= x <= PI ==> 0.0 <= m.sin(x))
    && (forall x :: 0.0 < x < PI ==> 0.0 < m.sin(x))
    && LawfulTurn(m)
    && LawfulPowHypot(m)
  }

  /** The part of `Lawful` a rotation needs: `sin² + cos² = 1`, and the zero angle. */
  ghost predicate LawfulTurn(m: MathFns)
  {
    && (forall x :: m.sin(x) * m.sin(x) + m.cos(x) * m.cos(x) == 1.0)
    && m.sin(0.0) == 0.0
    && m.cos(0.0) == 1.0
  }

  /** The part of `Lawful` about `pow` and `hypot` alone, all that the particle motion needs. */
  ghost predicate LawfulPowHypot(m: MathFns)
  {
    && (forall b, e :: 0.0 < b <= 1.0 && 0.0 < e ==> 0.0 < m.pow(b, e) <= 1.0)
    && (forall e :: m.pow(1.0, e) == 1.0)
    && (forall b1, b2, e :: 0.0 < b1 < b2 && 0.0 < e ==> m.pow(b1, e) < m.pow(b2, e))
    && (forall a, b :: 0.0 <= m.hypot(a, b) && m.hypot(a, b) * m.hypot(a, b) == a * a + b * b)
  }

}
