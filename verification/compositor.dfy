/**
 Where and how a particle is drawn (js/bg.js, the second half of the loop
 body of `tick`): the depth-scaled cursor and scroll parallax, the rotation
 of the whole sky about the viewport centre, and the glow/core sprite pair
 with its opacity cull.
 */
module Compositor {
  import opened Options
  import opened Numeric
  import opened Color
  import opened Config
  import opened Particles
  import opened Twinkle

  /** The cursor parallax `(px (1.8 - z) 8, py (1.8 - z) 6)`: nearer particles shift more. */
  function CursorShift(px: real, py: real, z: real): (v: Vec)
    ensures z == 1.8 ==> v == Vec(0.0, 0.0)
    ensures px == 0.0 && py == 0.0 ==> v == Vec(0.0, 0.0)
    ensures z <= 1.8 ==> Abs(v.x) == Abs(px) * (1.8 - z) * 8.0 && Abs(v.y) == Abs(py) * (1.8 - z) * 6.0
    ensures z < 1.8 ==> SameSign(v.x, px) && SameSign(v.y, py)
  {
    MagnitudeIfNear(px, 1.8 - z, 8.0);
    MagnitudeIfNear(py, 1.8 - z, 6.0);
    Vec(DepthScale(px, 1.8 - z, 8.0), DepthScale(py, 1.8 - z, 6.0))
  }

  /** The scroll parallax `sOffset * scrollStrength * (1.4 - z)`: nearer particles shift more. */
  function ScrollShift(sOffset: real, strength: real, z: real): (dy: real)
    ensures z == 1.4 ==> dy == 0.0
    ensures sOffset == 0.0 || strength == 0.0 ==> dy == 0.0
    ensures z <= 1.4 ==> Abs(dy) == Abs(sOffset * strength) * (1.4 - z)
    ensures z < 1.4 ==> SameSign(dy, sOffset * strength)
  {
    MagnitudeIfNear(sOffset * strength, 1.4 - z, 1.0);
    DepthScale(sOffset * strength, 1.4 - z, 1.0)
  }

  /** `a` and `b` are both positive, both negative or both zero. */
  predicate SameSign(a: real, b: real)
  {
    (0.0 < a <==> 0.0 < b) && (a < 0.0 <==> b < 0.0)
  }

  /**
   `amount * depth * gain`, the shape shared by all three parallax terms:
   for a positive depth factor and gain the shift points the way `amount` does.
   */
  function DepthScale(amount: real, depth: real, gain: real): (r: real)
    ensures amount == 0.0 || depth == 0.0 ==> r == 0.0
    ensures 0.0 < depth && 0.0 < gain ==> SameSign(r, amount)
  {
    ScaledKeepsSign(amount, depth, gain);
    amount * depth * gain
  }

  /** Two positive factors keep the sign. */
  lemma ScaledKeepsSign(a: real, depth: real, gain: real)
    ensures 0.0 < depth && 0.0 < gain ==> SameSign(a * depth * gain, a)
  {
    if 0.0 < depth && 0.0 < gain {
      var k := depth * gain;
      PositiveProduct(depth, gain);
      assert a * depth * gain == a * k;
      if 0.0 < a {
        PositiveProduct(a, k);
      } else if a < 0.0 {
        PositiveProduct(-a, k);
        assert (-a) * k == -(a * k);
      }
    }
  }

  lemma MagnitudeIfNear(amount: real, depth: real, gain: real)
    ensures 0.0 <= depth && 0.0 <= gain ==> Abs(DepthScale(amount, depth, gain)) == Abs(amount) * depth * gain
  {
    if 0.0 <= depth && 0.0 <= gain {
      Magnitude(amount, depth, gain);
    }
  }

  /** A larger depth factor, here a nearer particle, never shifts less. */
  lemma DepthScaleMonotone(amount: real, d1: real, d2: real, gain: real)
    requires 0.0 <= d1 <= d2 && 0.0 <= gain
    ensures Abs(DepthScale(amount, d1, gain)) <= Abs(DepthScale(amount, d2, gain))
  {
    Magnitude(amount, d1, gain);
    Magnitude(amount, d2, gain);
    ScaleMonotone(Abs(amount), d1, d2);
    ScaleMonotoneRight(Abs(amount) * d1, Abs(amount) * d2, gain);
  }

  lemma Magnitude(amount: real, depth: real, gain: real)
    requires 0.0 <= depth && 0.0 <= gain
    ensures Abs(DepthScale(amount, depth, gain)) == Abs(amount) * depth * gain
  {
    AbsOfScaled(amount * depth, gain);
    AbsOfScaled(amount, depth);
    ScaleEqual(Abs(amount * depth), Abs(amount) * depth, gain);
  }

  /** Nearer particles (smaller `z`) move more with the scroll than farther ones. */
  lemma NearerScrollsMore(sOffset: real, strength: real, z1: real, z2: real)
    requires z1 <= z2 <= 1.4
    ensures Abs(ScrollShift(sOffset, strength, z2)) <= Abs(ScrollShift(sOffset, strength, z1))
  {
    DepthScaleMonotone(sOffset * strength, 1.4 - z2, 1.4 - z1, 1.0);
  }

  /** Nearer particles move more with the cursor than farther ones. */
  lemma NearerFollowsCursorMore(px: real, py: real, z1: real, z2: real)
    requires z1 <= z2 <= 1.8
    ensures Abs(CursorShift(px, py, z2).x) <= Abs(CursorShift(px, py, z1).x)
    ensures Abs(CursorShift(px, py, z2).y) <= Abs(CursorShift(px, py, z1).y)
  {
    DepthScaleMonotone(px, 1.8 - z2, 1.8 - z1, 8.0);
    DepthScaleMonotone(py, 1.8 - z2, 1.8 - z1, 6.0);
  }

  /** The squared distance between two points. */
  function Dist2(a: Vec, b: Vec): real
  {
    (a.x - b.x) * (a.x - b.x) + (a.y - b.y) * (a.y - b.y)
  }

  /**
   `q` is `p` turned about `centre` by the angle whose sine and cosine are
   `sn` and `cs`: with `d` and `e` the offsets of `p` and `q` from the
   centre, the dot product `d.e` is `|d|^2 cs` and the cross product
   `d x e` is `|d|^2 sn`.
   */
  predicate TurnedBy(p: Vec, centre: Vec, q: Vec, sn: real, cs: real)
  {
    var dx, dy, ex, ey := p.x - centre.x, p.y - centre.y, q.x - centre.x, q.y - centre.y;
    && dx * ex + dy * ey == Dist2(p, centre) * cs
    && dx * ey - dy * ex == Dist2(p, centre) * sn
  }

  /**
   The sky rotation: the point is turned by `theta` about the centre. The
   turn keeps its distance to the centre, and the zero turn is the identity.
   */
  function RotateAbout(p: Vec, centre: Vec, theta: real, m: MathFns): (q: Vec)
    requires LawfulTurn(m)
    ensures Dist2(q, centre) == Dist2(p, centre)
    ensures TurnedBy(p, centre, q, m.sin(theta), m.cos(theta))
    ensures theta == 0.0 ==> q == p
  {
    var dx, dy := p.x - centre.x, p.y - centre.y;
    var s, c := m.sin(theta), m.cos(theta);
    var q := Vec(centre.x + (dx * c - dy * s), centre.y + (dx * s + dy * c));
    TurnFacts(p, centre, q, s, c);
    q
  }

  /** The facts `RotateAbout` promises, for the turned point written out with `s` and `c`. */
  lemma TurnFacts(p: Vec, centre: Vec, q: Vec, s: real, c: real)
    requires s * s + c * c == 1.0
    requires q == Vec(centre.x + ((p.x - centre.x) * c - (p.y - centre.y) * s),
                      centre.y + ((p.x - centre.x) * s + (p.y - centre.y) * c))
    ensures Dist2(q, centre) == Dist2(p, centre)
    ensures TurnedBy(p, centre, q, s, c)
    ensures s == 0.0 && c == 1.0 ==> q == p
  {
    var dx, dy := p.x - centre.x, p.y - centre.y;
    var u, v := dx * c - dy * s, dx * s + dy * c;
    assert q.x - centre.x == u && q.y - centre.y == v;
    TurnKeepsLength(dx, dy, s, c);
    TurnAngle(dx, dy, s, c);
    TurnByZero(dx, dy, s, c);
  }

  lemma TurnAngle(dx: real, dy: real, s: real, c: real)
    ensures dx * (dx * c - dy * s) + dy * (dx * s + dy * c) == (dx * dx + dy * dy) * c
    ensures dx * (dx * s + dy * c) - dy * (dx * c - dy * s) == (dx * dx + dy * dy) * s
  {
  }

  /**
   Away from the centre a turn is determined by its sine and cosine: two
   points turned from the same point by the same angle coincide.
   */
  lemma TurnIsUnique(p: Vec, centre: Vec, q1: Vec, q2: Vec, sn: real, cs: real)
    requires p != centre
    requires TurnedBy(p, centre, q1, sn, cs) && TurnedBy(p, centre, q2, sn, cs)
    ensures q1 == q2
  {
    UniqueOffset(p.x - centre.x, p.y - centre.y, q1.x - centre.x, q1.y - centre.y,
                 q2.x - centre.x, q2.y - centre.y, Dist2(p, centre) * cs, Dist2(p, centre) * sn);
  }

  /** The offset `a` with `d.a == along` and `d x a == across` is unique for `d != 0`. */
  lemma UniqueOffset(dx: real, dy: real, a1: real, a2: real, b1: real, b2: real, along: real, across: real)
    requires dx != 0.0 || dy != 0.0
    requires dx * a1 + dy * a2 == along && dx * a2 - dy * a1 == across
    requires dx * b1 + dy * b2 == along && dx * b2 - dy * b1 == across
    ensures a1 == b1 && a2 == b2
  {
    var u1, u2 := a1 - b1, a2 - b2;
    var n := dx * dx + dy * dy;
    Differences(dx, dy, a1, a2, b1, b2, u1, u2);
    Cancel(dx, dy, u1, u2, n);
    NormPositive(dx, dy, n);
    ZeroFactor(n, u1);
    ZeroFactor(n, u2);
  }

  /** Both products of `d` with `a - b` are the differences of the products with `a` and `b`. */
  lemma Differences(dx: real, dy: real, a1: real, a2: real, b1: real, b2: real, u1: real, u2: real)
    requires u1 == a1 - b1 && u2 == a2 - b2
    ensures dx * u1 + dy * u2 == (dx * a1 + dy * a2) - (dx * b1 + dy * b2)
    ensures dx * u2 - dy * u1 == (dx * a2 - dy * a1) - (dx * b2 - dy * b1)
  {
  }

  /** An offset orthogonal and parallel to `d` is scaled to zero by `|d|^2`. */
  lemma Cancel(dx: real, dy: real, ux: real, uy: real, n: real)
    requires n == dx * dx + dy * dy
    requires dx * ux + dy * uy == 0.0 && dx * uy - dy * ux == 0.0
    ensures n * ux == 0.0 && n * uy == 0.0
  {
    var a, b := dx * ux + dy * uy, dx * uy - dy * ux;
    assert n * ux == dx * a - dy * b;
    assert n * uy == dy * a + dx * b;
  }

  /** A non-zero vector has a positive squared length. */
  lemma NormPositive(dx: real, dy: real, n: real)
    requires dx != 0.0 || dy != 0.0
    requires n == dx * dx + dy * dy
    ensures 0.0 < n
  {
    var ax := if dx < 0.0 then -dx else dx;
    var ay := if dy < 0.0 then -dy else dy;
    assert ax * ax == dx * dx && ay * ay == dy * dy;
    SquareMonotone(0.0, ax);
    SquareMonotone(0.0, ay);
    if dx != 0.0 {
      SquareStrict(0.0, ax);
    } else {
      SquareStrict(0.0, ay);
    }
  }

  /** A product with a positive factor vanishes only with the other factor. */
  lemma ZeroFactor(n: real, u: real)
    requires 0.0 < n && n * u == 0.0
    ensures u == 0.0
  {
  }

  lemma TurnKeepsLength(dx: real, dy: real, s: real, c: real)
    requires s * s + c * c == 1.0
    ensures (dx * c - dy * s) * (dx * c - dy * s) + (dx * s + dy * c) * (dx * s + dy * c)
         == dx * dx + dy * dy
  {
    var u, v := dx * c - dy * s, dx * s + dy * c;
    assert u * u + v * v == (dx * dx + dy * dy) * (s * s + c * c);
    ScaleEqual(s * s + c * c, 1.0, dx * dx + dy * dy);
  }

  lemma TurnByZero(dx: real, dy: real, s: real, c: real)
    ensures s == 0.0 && c == 1.0 ==> dx * c - dy * s == dx && dx * s + dy * c == dy
  {
  }

  /** Anything dimmer than this is skipped. */
  const MinAlpha: real := 0.02

  /** The two discs drawn for a particle: a faint wide glow and the core. */
  datatype Sprite = Sprite(
    at: Vec, rgb: Rgb,
    glowAlpha: real, glowRadius: real,
    coreAlpha: real, coreRadius: real)

  /**
   The cull and the sprite pair: nothing below opacity 0.02; otherwise a
   glow at 0.18 of the opacity and 3.2 times the core radius, and the core
   at the opacity and the radius scaled by the twinkle size multiplier.
   */
  function Render(p: Particle, l: Look, at: Vec): (s: Option<Sprite>)
    ensures s.None? <==> l.alpha < MinAlpha
    ensures s.Some? ==> s.value.at == at && s.value.rgb == p.rgb
    ensures s.Some? ==> MinAlpha <= s.value.coreAlpha == l.alpha
    ensures s.Some? ==> s.value.glowAlpha == 0.18 * s.value.coreAlpha
    ensures s.Some? ==> s.value.coreRadius == p.r * l.sizeMul
    ensures s.Some? ==> s.value.glowRadius == 3.2 * s.value.coreRadius
  {
    if l.alpha < MinAlpha then None
    else
      var core := p.r * l.sizeMul;
      Some(Sprite(at, p.rgb, l.alpha * 0.18, core * 3.2, l.alpha, core))
  }

  /** What the frame knows about the view: its size, the smoothed inputs and the sky angle. */
  datatype View = View(w: real, h: real, px: real, py: real, sOffset: real, theta: real)

  /** The drawn position: base plus cursor and scroll parallax, then turned about the centre. */
  function Place(p: Particle, v: View, c: Config, m: MathFns): (at: Vec)
    requires Lawful(m)
    ensures var shift := CursorShift(v.px, v.py, p.z);
      var base := Vec(p.x + shift.x, p.y + shift.y + ScrollShift(v.sOffset, c.scrollStrength, p.z));
      && Dist2(at, Vec(v.w * 0.5, v.h * 0.5)) == Dist2(base, Vec(v.w * 0.5, v.h * 0.5))
      && TurnedBy(base, Vec(v.w * 0.5, v.h * 0.5), at, m.sin(v.theta), m.cos(v.theta))
      && (v.theta == 0.0 ==> at == base)
  {
    var shift := CursorShift(v.px, v.py, p.z);
    var base := Vec(p.x + shift.x, p.y + shift.y + ScrollShift(v.sOffset, c.scrollStrength, p.z));
    RotateAbout(base, Vec(v.w * 0.5, v.h * 0.5), v.theta, m)
  }

  /** The particle's sprite this frame, or nothing when its opacity is culled. */
  function Draw(p: Particle, v: View, now: real, c: Config, m: MathFns): (s: Option<Sprite>)
    requires Lawful(m)
    ensures s.None? <==> Envelope(p, now, c, m).alpha < MinAlpha
    ensures s.Some? ==> s.value.at == Place(p, v, c, m)
  {
    Render(p, Envelope(p, now, c, m), Place(p, v, c, m))
  }

  /**
   A particle between twinkles always shows: its base opacity, at least
   0.35 from spawn, is far above the cull.
   */
  lemma RestingParticleShows(p: Particle, v: View, now: real, c: Config, m: MathFns)
    requires Lawful(m)
    requires 0.35 <= p.alphaBase && p.twinkleUntil <= now
    ensures Draw(p, v, now, c, m).Some?
  {
    assert Envelope(p, now, c, m).alpha == p.alphaBase;
  }

  /**
   A twinkle dips a freshly spawned particle below the cull only when the
   depth exceeds 1 - 0.02/0.35; at depth 0.94 or less it always stays visible.
   */
  lemma ShallowTwinkleShows(p: Particle, v: View, now: real, c: Config, m: MathFns)
    requires Lawful(m)
    requires 0.35 <= p.alphaBase && 0.0 <= c.twinkleDepth <= 0.94
    ensures Draw(p, v, now, c, m).Some?
  {
    var l := Envelope(p, now, c, m);
    var keep := 1.0 - c.twinkleDepth;
    assert p.alphaBase * keep <= l.alpha;
    ScaleMonotoneRight(0.35, p.alphaBase, keep);
    assert 0.021 <= 0.35 * keep;
    assert MinAlpha <= l.alpha;
  }
}
