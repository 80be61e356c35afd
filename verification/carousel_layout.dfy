/**
 The ring layout of the music carousel (js/main.js): one ring, or two
 stacked rings once there are more than 18 images, the number of slots per
 ring, each image's ring and slot, the clamped plane size, the ring radius
 and each plane's place on the cylinder.
 */
module CarouselLayout {
  import opened Numeric

  /** The number of entries of the image list the page ships. */
  const ImageCount: nat := 24

  /** Two rings exactly when there are more than 18 images. */
  function Rows(n: nat): (rows: nat)
    ensures rows == 1 || rows == 2
    ensures rows == 2 <==> n > 18
  {
    if n > 18 then 2 else 1
  }

  /** `Math.ceil(n / rows)`: the fewest slots per ring that seat all `n` images. */
  function PerRing(n: nat, rows: nat): (k: nat)
    requires 0 < rows
    ensures n <= rows * k
    ensures k == 0 || rows * (k - 1) < n
  {
    CeilDiv(n, rows);
    (n + rows - 1) / rows
  }

  lemma CeilDiv(n: nat, rows: nat)
    requires 0 < rows
    ensures n <= rows * ((n + rows - 1) / rows)
    ensures (n + rows - 1) / rows == 0 || rows * ((n + rows - 1) / rows - 1) < n
  {
    var q, r := (n + rows - 1) / rows, (n + rows - 1) % rows;
    assert n + rows - 1 == rows * q + r;
    assert rows * (q - 1) == rows * q - rows;
  }

  /** A plane's place in the layout: which ring and which slot of that ring. */
  datatype Slot = Slot(ring: nat, index: nat)

  /**
   Image `i` goes round-robin over the rings when there are two, so its
   slot is `i / 2` on ring `i % 2`; with one ring, slot `i`.
   */
  function SlotOf(i: nat, rows: nat): (s: Slot)
    requires rows == 1 || rows == 2
    ensures s.ring < rows
  {
    if rows == 2 then Slot(i % 2, i / 2) else Slot(0, i)
  }

  /** The image seated at a slot: the inverse of `SlotOf`. */
  function ImageAt(s: Slot, rows: nat): nat
    requires rows == 1 || rows == 2
  {
    if rows == 2 then 2 * s.index + s.ring else s.index
  }

  /** Every image can be found again from its slot. */
  lemma SlotRoundTrip(i: nat, rows: nat)
    requires rows == 1 || rows == 2
    ensures ImageAt(SlotOf(i, rows), rows) == i
  {
  }

  /** Every slot of a ring can be found again from the image it seats. */
  lemma ImageRoundTrip(s: Slot, rows: nat)
    requires rows == 1 || rows == 2
    requires s.ring < rows
    ensures SlotOf(ImageAt(s, rows), rows) == s
  {
  }

  /** No two images share a slot. */
  lemma SlotsDistinct(i: nat, j: nat, rows: nat)
    requires rows == 1 || rows == 2
    requires i != j
    ensures SlotOf(i, rows) != SlotOf(j, rows)
  {
    SlotRoundTrip(i, rows);
    SlotRoundTrip(j, rows);
  }

  /** Every image of the list gets a slot that exists on its ring. */
  lemma SlotWithinRing(i: nat, n: nat)
    requires i < n
    ensures SlotOf(i, Rows(n)).index < PerRing(n, Rows(n))
  {
    var rows := Rows(n);
    var k := PerRing(n, rows);
    if rows == 2 {
      assert 2 * (i / 2) <= i;
    }
  }

  /** The widest plane, and the height-to-width ratio of every plane. */
  const BaseWidth: real := 2.6
  const Aspect: real := 0.69
  const Spacing: real := 1.18

  /** `clamp(3.0 - 0.06 * perRing, 1.45, 2.6)`: fuller rings get narrower planes. */
  function PlaneWidth(perRing: nat): (w: real)
    ensures 1.45 <= w <= BaseWidth
    ensures 1.45 <= 3.0 - 0.06 * (perRing as real) <= BaseWidth ==> w == 3.0 - 0.06 * (perRing as real)
  {
    Clamp(3.0 - 0.06 * (perRing as real), 1.45, BaseWidth)
  }

  /** A fuller ring never gets wider planes. */
  lemma PlaneWidthShrinks(k1: nat, k2: nat)
    requires k1 <= k2
    ensures PlaneWidth(k2) <= PlaneWidth(k1)
  {
    ClampMonotone(3.0 - 0.06 * (k2 as real), 3.0 - 0.06 * (k1 as real), 1.45, BaseWidth);
  }

  /** The plane height, `0.69` of the width. */
  function PlaneHeight(w: real): (h: real)
    ensures 1.45 <= w <= BaseWidth ==> 1.45 * Aspect <= h <= BaseWidth * Aspect
  {
    w * Aspect
  }

  /** The ring radius: the circumference holds `perRing` planes at `1.18` times their width. */
  function RingRadius(w: real, perRing: nat): (r: real)
    ensures 2.0 * PI * r == w * (perRing as real) * Spacing
    ensures 0.0 <= w ==> 0.0 <= r
  {
    w * (perRing as real) * Spacing / (2.0 * PI)
  }

  /**
   The vertical distance between the two rings' centres, chosen so that
   planes of height `h` in the upper and lower rings leave a clearance of
   exactly `0.6` between the lower edge of one and the upper edge of the other.
   */
  function RowGap(h: real): (g: real)
    ensures (RowY(0, 2, g) - h / 2.0) - (RowY(1, 2, g) + h / 2.0) == 0.6
  {
    h + 0.6
  }

  /**
   A plane's height on the cylinder: 0 with one ring; half the row gap
   above the centre for ring 0 and half below for ring 1 with two.
   */
  function RowY(ring: nat, rows: nat, gap: real): (y: real)
    ensures rows != 2 ==> y == 0.0
    ensures rows == 2 && ring == 0 ==> y == gap / 2.0
    ensures rows == 2 && ring != 0 ==> y == -gap / 2.0
  {
    if rows == 2 then (if ring == 0 then gap / 2.0 else -gap / 2.0) else 0.0
  }

  /** With two rings they sit one row gap apart, symmetric about the centre. */
  lemma RingsSymmetric(gap: real)
    ensures RowY(0, 2, gap) - RowY(1, 2, gap) == gap
    ensures RowY(0, 2, gap) + RowY(1, 2, gap) == 0.0
  {
  }

  /** `(index / perRing) * 2 PI`: the slots divide the full turn evenly. */
  function SlotAngle(index: nat, perRing: nat): (a: real)
    requires index < perRing
    ensures 0.0 <= a < 2.0 * PI
  {
    var f := (index as real) / (perRing as real);
    FractionBelowOne(index as real, perRing as real);
    ScaleWithinUnit(2.0 * PI, f);
    f * PI * 2.0
  }

  /** Later slots sit at strictly larger angles, so no two slots of a ring coincide. */
  lemma SlotAnglesIncrease(i: nat, j: nat, perRing: nat)
    requires i < j < perRing
    ensures SlotAngle(i, perRing) < SlotAngle(j, perRing)
  {
    var n := perRing as real;
    var fi, fj := (i as real) / n, (j as real) / n;
    assert fi * n == i as real && fj * n == j as real;
    assert fi < fj;
  }

  /** The layout constants computed once from the number of images. */
  datatype Layout = Layout(rows: nat, perRing: nat, planeW: real, planeH: real,
                           radius: real, rowGap: real)

  function LayoutOf(n: nat): (l: Layout)
    ensures l.rows == Rows(n) && l.perRing == PerRing(n, l.rows)
    ensures 1.45 <= l.planeW <= BaseWidth && l.planeH == l.planeW * Aspect
    ensures l.rowGap == l.planeH + 0.6
    ensures 0.0 <= l.radius
  {
    var rows := Rows(n);
    var perRing := PerRing(n, rows);
    var w := PlaneWidth(perRing);
    var h := PlaneHeight(w);
    Layout(rows, perRing, w, h, RingRadius(w, perRing), RowGap(h))
  }

  /** The shipped list of 24 images: two rings of 12, planes 2.28 wide. */
  lemma ShippedLayout()
    ensures LayoutOf(ImageCount).rows == 2
    ensures LayoutOf(ImageCount).perRing == 12
    ensures LayoutOf(ImageCount).planeW == 2.28
  {
  }

  /** A point in the carousel's 3-D space. */
  datatype Vec3 = Vec3(x: real, y: real, z: real)

  /**
   Image `i`'s plane: on the circle of the ring radius at its slot angle,
   at its ring's height. `ring` and `angle` are what the plane records for
   the sway and focus effects.
   */
  datatype Plane = Plane(at: Vec3, ring: nat, angle: real, baseY: real)

  function PlaneOf(i: nat, l: Layout, m: MathFns): (p: Plane)
    requires Lawful(m)
    requires l.rows == 1 || l.rows == 2
    requires SlotOf(i, l.rows).index < l.perRing
    ensures p.at.x * p.at.x + p.at.z * p.at.z == l.radius * l.radius
    ensures p.at.y == p.baseY == RowY(p.ring, l.rows, l.rowGap)
    ensures p.ring == SlotOf(i, l.rows).ring
    ensures 0.0 <= p.angle < 2.0 * PI
  {
    var s := SlotOf(i, l.rows);
    var a := SlotAngle(s.index, l.perRing);
    var y := RowY(s.ring, l.rows, l.rowGap);
    OnCircle(m.cos(a), m.sin(a), l.radius);
    Plane(Vec3(m.cos(a) * l.radius, y, m.sin(a) * l.radius), s.ring, a, y)
  }

  lemma OnCircle(c: real, s: real, r: real)
    requires s * s + c * c == 1.0
    ensures (c * r) * (c * r) + (s * r) * (s * r) == r * r
  {
    assert (c * r) * (c * r) + (s * r) * (s * r) == (s * s + c * c) * (r * r);
    ScaleEqual(s * s + c * c, 1.0, r * r);
  }
}
