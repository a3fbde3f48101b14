/**
 * Camera framing: `center_camera`, `camera_offset` and the arithmetic of
 * `animator.setup_camera`. The factor `np.arctan(alpha * 90 / 3.1415)` that
 * scales every extent is the real parameter `k`.
 */
module Camera {
  import opened Wrappers

  /** The bounds `(xmin, xmax, ymin, ymax, zmin, zmax)` the reader reports. */
  datatype Box = Box(xmin: real, xmax: real, ymin: real, ymax: real, zmin: real, zmax: real)

  /** The lower bound of the box on axis a (0 = x, 1 = y, 2 = z). */
  function Lower(b: Box, a: nat): real
    requires a < 3
  {
    if a == 0 then b.xmin else if a == 1 then b.ymin else b.zmin
  }

  /** The upper bound of the box on axis a. */
  function Upper(b: Box, a: nat): real
    requires a < 3
  {
    if a == 0 then b.xmax else if a == 1 then b.ymax else b.zmax
  }

  function Abs(x: real): real {
    if x < 0.0 then -x else x
  }

  /** Python's `max(a, b, c)`. */
  function Max3(a: real, b: real, c: real): (m: real)
    ensures m >= a && m >= b && m >= c
  {
    var ab := if b > a then b else a;
    if c > ab then c else ab
  }

  function Min3(a: real, b: real, c: real): (m: real)
    ensures m <= a && m <= b && m <= c
  {
    var ab := if b < a then b else a;
    if c < ab then c else ab
  }

  /** `delta_x = abs(bds[1] - bds[0])`. */
  function DeltaX(b: Box): (d: real)
    ensures d >= 0.0
  {
    Abs(b.xmax - b.xmin)
  }

  /** `delta_y = abs(bds[3] - bds[2])`. */
  function DeltaY(b: Box): (d: real)
    ensures d >= 0.0
  {
    Abs(b.ymax - b.ymin)
  }

  /** `delta_z = abs(bds[4] - bds[5])`. */
  function DeltaZ(b: Box): (d: real)
    ensures d >= 0.0
  {
    Abs(b.zmin - b.zmax)
  }

  /** The argument the source hands to `np.arctan` for view angle `alpha`. */
  function AngleArgument(alpha: real): real {
    alpha * 90.0 / 3.1415
  }

  /** `camera_offset(alpha, bds)` with `k = np.arctan(alpha * 90 / 3.1415)`. */
  function CameraOffset(k: real, b: Box): real {
    OffsetOf(k, DeltaX(b), DeltaZ(b), DeltaY(b))
  }

  /** `1.5 * max(g(delta_x), g(delta_z), g(delta_y))` with `g(delta) = k * delta`. */
  function OffsetOf(k: real, dx: real, dz: real, dy: real): real {
    1.5 * Max3(k * dx, k * dz, k * dy)
  }

  /** `center_camera(bds)`: the midpoint of the box on every axis. */
  function CenterCamera(b: Box): (c: seq<real>)
    ensures |c| == 3
    ensures forall a :: 0 <= a < 3 ==> c[a] - Lower(b, a) == Upper(b, a) - c[a]
    ensures forall a :: 0 <= a < 3 && Lower(b, a) <= Upper(b, a) ==> Lower(b, a) <= c[a] <= Upper(b, a)
  {
    var h := (x: real, y: real) => 0.5 * (x + y);
    [h(b.xmax, b.xmin), h(b.ymax, b.ymin), h(b.zmax, b.zmin)]
  }

  /** The box with every coordinate multiplied by s. */
  function Scale(b: Box, s: real): Box {
    Box(s * b.xmin, s * b.xmax, s * b.ymin, s * b.ymax, s * b.zmin, s * b.zmax)
  }

  /** The box moved by (u, v, w). */
  function Translate(b: Box, u: real, v: real, w: real): Box {
    Box(b.xmin + u, b.xmax + u, b.ymin + v, b.ymax + v, b.zmin + w, b.zmax + w)
  }

  /**
   * The offset covers every axis: it is at least 1.5 k times each extent.
   * It is never negative when k >= 0, and it is 0 for a point box.
   */
  lemma OffsetBounds(k: real, b: Box)
    ensures CameraOffset(k, b) >= 1.5 * (k * DeltaX(b))
    ensures CameraOffset(k, b) >= 1.5 * (k * DeltaY(b))
    ensures CameraOffset(k, b) >= 1.5 * (k * DeltaZ(b))
    ensures k >= 0.0 ==> CameraOffset(k, b) >= 0.0
    ensures b.xmin == b.xmax && b.ymin == b.ymax && b.zmin == b.zmax ==> CameraOffset(k, b) == 0.0
  {
    BoundsOfDeltas(k, DeltaX(b), DeltaY(b), DeltaZ(b));
  }

  lemma BoundsOfDeltas(k: real, dx: real, dy: real, dz: real)
    requires dx >= 0.0 && dy >= 0.0 && dz >= 0.0
    ensures OffsetOf(k, dx, dz, dy) >= 1.5 * (k * dx)
    ensures OffsetOf(k, dx, dz, dy) >= 1.5 * (k * dy)
    ensures OffsetOf(k, dx, dz, dy) >= 1.5 * (k * dz)
    ensures k >= 0.0 ==> OffsetOf(k, dx, dz, dy) >= 0.0
    ensures dx == 0.0 && dy == 0.0 && dz == 0.0 ==> OffsetOf(k, dx, dz, dy) == 0.0
  {
    if k >= 0.0 {
      MulNonNegative(k, dx);
    }
  }

  /** With k >= 0 the offset is 1.5 k times the largest extent; with k < 0, times the smallest. */
  lemma OffsetClosedForm(k: real, b: Box)
    ensures k >= 0.0 ==> CameraOffset(k, b) == 1.5 * (k * Max3(DeltaX(b), DeltaY(b), DeltaZ(b)))
    ensures k < 0.0 ==> CameraOffset(k, b) == 1.5 * (k * Min3(DeltaX(b), DeltaY(b), DeltaZ(b)))
  {
    ClosedFormOfDeltas(k, DeltaX(b), DeltaY(b), DeltaZ(b));
  }

  lemma ClosedFormOfDeltas(k: real, dx: real, dy: real, dz: real)
    ensures k >= 0.0 ==> OffsetOf(k, dx, dz, dy) == 1.5 * (k * Max3(dx, dy, dz))
    ensures k < 0.0 ==> OffsetOf(k, dx, dz, dy) == 1.5 * (k * Min3(dx, dy, dz))
  {
    assert Max3(dx, dz, dy) == Max3(dx, dy, dz);
    assert Min3(dx, dz, dy) == Min3(dx, dy, dz);
    if k >= 0.0 {
      ScaledMax(k, dx, dz, dy);
    } else {
      NegatedScaledMax(k, dx, dz, dy);
    }
  }

  lemma MulMonotone(k: real, x: real, y: real)
    requires k >= 0.0 && x <= y
    ensures k * x <= k * y
  {
    assert k * y - k * x == k * (y - x);
  }

  lemma MulAntitone(k: real, x: real, y: real)
    requires k < 0.0 && x <= y
    ensures k * x >= k * y
  {
    assert k * x - k * y == -k * (y - x);
  }

  lemma MulNonNegative(k: real, x: real)
    requires k >= 0.0 && x >= 0.0
    ensures k * x >= 0.0
  {
  }

  /** Scaling by s >= 0 commutes with taking the largest of three. */
  lemma ScaledMax(s: real, a: real, b: real, c: real)
    requires s >= 0.0
    ensures Max3(s * a, s * b, s * c) == s * Max3(a, b, c)
  {
    var m := Max3(a, b, c);
    MulMonotone(s, a, m);
    MulMonotone(s, b, m);
    MulMonotone(s, c, m);
  }

  /** Scaling by s < 0 turns the smallest of three into the largest. */
  lemma NegatedScaledMax(s: real, a: real, b: real, c: real)
    requires s < 0.0
    ensures Max3(s * a, s * b, s * c) == s * Min3(a, b, c)
  {
    var m := Min3(a, b, c);
    MulAntitone(s, m, a);
    MulAntitone(s, m, b);
    MulAntitone(s, m, c);
  }

  /**
   * Extents s > 0 times as large give an offset exactly s times as large;
   * `Scale(b, s)` is such a box (ScaleDeltas).
   */
  lemma OffsetScales(k: real, b: Box, c: Box, s: real)
    requires s > 0.0
    requires DeltaX(c) == s * DeltaX(b) && DeltaY(c) == s * DeltaY(b) && DeltaZ(c) == s * DeltaZ(b)
    ensures CameraOffset(k, c) == s * CameraOffset(k, b)
  {
    ScaledDeltas(k, s, DeltaX(b), DeltaY(b), DeltaZ(b));
  }

  /** Multiplying every coordinate by s > 0 multiplies every extent by s. */
  lemma ScaleDeltas(b: Box, s: real)
    requires s > 0.0
    ensures DeltaX(Scale(b, s)) == s * DeltaX(b)
    ensures DeltaY(Scale(b, s)) == s * DeltaY(b)
    ensures DeltaZ(Scale(b, s)) == s * DeltaZ(b)
  {
    var c := Scale(b, s);
    ScaledAbs(s, b.xmax - b.xmin);
    ScaledAbs(s, b.ymax - b.ymin);
    ScaledAbs(s, b.zmin - b.zmax);
    assert c.xmax - c.xmin == s * (b.xmax - b.xmin);
    assert c.ymax - c.ymin == s * (b.ymax - b.ymin);
    assert c.zmin - c.zmax == s * (b.zmin - b.zmax);
  }

  lemma ScaledDeltas(k: real, s: real, dx: real, dy: real, dz: real)
    requires s > 0.0
    ensures OffsetOf(k, s * dx, s * dz, s * dy) == s * OffsetOf(k, dx, dz, dy)
  {
    Reassociate(k, s, dx);
    Reassociate(k, s, dy);
    Reassociate(k, s, dz);
    ScaledOffsets(s, k * dx, k * dz, k * dy, k * (s * dx), k * (s * dz), k * (s * dy));
  }

  lemma ScaledOffsets(s: real, a: real, b: real, c: real, sa: real, sb: real, sc: real)
    requires s > 0.0 && sa == s * a && sb == s * b && sc == s * c
    ensures 1.5 * Max3(sa, sb, sc) == s * (1.5 * Max3(a, b, c))
  {
    ScaledMax(s, a, b, c);
  }

  lemma Reassociate(k: real, s: real, d: real)
    ensures k * (s * d) == s * (k * d)
  {
  }

  lemma ScaledAbs(s: real, x: real)
    requires s > 0.0
    ensures Abs(s * x) == s * Abs(x)
  {
    if x < 0.0 {
      assert s * x < 0.0;
      assert -(s * x) == s * -x;
    } else {
      MulNonNegative(s, x);
    }
  }

  /** Moving the box does not change the offset. */
  lemma OffsetTranslationInvariant(k: real, b: Box, u: real, v: real, w: real)
    ensures CameraOffset(k, Translate(b, u, v, w)) == CameraOffset(k, b)
  {
    var c := Translate(b, u, v, w);
    assert c.xmax - c.xmin == b.xmax - b.xmin;
    assert c.ymax - c.ymin == b.ymax - b.ymin;
    assert c.zmin - c.zmax == b.zmin - b.zmax;
  }

  /** A larger factor never gives a smaller offset. */
  lemma OffsetMonotoneInFactor(k1: real, k2: real, b: Box)
    requires k1 <= k2
    ensures CameraOffset(k1, b) <= CameraOffset(k2, b)
  {
    FactorMonotoneDeltas(k1, k2, DeltaX(b), DeltaY(b), DeltaZ(b));
  }

  lemma FactorMonotoneDeltas(k1: real, k2: real, dx: real, dy: real, dz: real)
    requires k1 <= k2 && dx >= 0.0 && dy >= 0.0 && dz >= 0.0
    ensures OffsetOf(k1, dx, dz, dy) <= OffsetOf(k2, dx, dz, dy)
  {
    FactorMonotone(k1, k2, dx);
    FactorMonotone(k1, k2, dy);
    FactorMonotone(k1, k2, dz);
  }

  lemma FactorMonotone(k1: real, k2: real, d: real)
    requires k1 <= k2 && d >= 0.0
    ensures k1 * d <= k2 * d
  {
    assert k2 * d - k1 * d == (k2 - k1) * d;
  }

  /** With a non-negative factor, a box no wider on any axis never gives a larger offset. */
  lemma OffsetMonotoneInBox(k: real, b1: Box, b2: Box)
    requires k >= 0.0
    requires DeltaX(b1) <= DeltaX(b2) && DeltaY(b1) <= DeltaY(b2) && DeltaZ(b1) <= DeltaZ(b2)
    ensures CameraOffset(k, b1) <= CameraOffset(k, b2)
  {
    MonotoneDeltas(k, DeltaX(b1), DeltaY(b1), DeltaZ(b1), DeltaX(b2), DeltaY(b2), DeltaZ(b2));
  }

  lemma MonotoneDeltas(k: real, x1: real, y1: real, z1: real, x2: real, y2: real, z2: real)
    requires k >= 0.0 && x1 <= x2 && y1 <= y2 && z1 <= z2
    ensures OffsetOf(k, x1, z1, y1) <= OffsetOf(k, x2, z2, y2)
  {
    ClosedFormOfDeltas(k, x1, y1, z1);
    ClosedFormOfDeltas(k, x2, y2, z2);
    Max3Monotone(x1, y1, z1, x2, y2, z2);
    ScaledMonotone(k, Max3(x1, y1, z1), Max3(x2, y2, z2), OffsetOf(k, x1, z1, y1), OffsetOf(k, x2, z2, y2));
  }

  lemma ScaledMonotone(k: real, m1: real, m2: real, o1: real, o2: real)
    requires k >= 0.0 && m1 <= m2 && o1 == 1.5 * (k * m1) && o2 == 1.5 * (k * m2)
    ensures o1 <= o2
  {
    MulMonotone(k, m1, m2);
  }

  lemma Max3Monotone(a1: real, b1: real, c1: real, a2: real, b2: real, c2: real)
    requires a1 <= a2 && b1 <= b2 && c1 <= c2
    ensures Max3(a1, b1, c1) <= Max3(a2, b2, c2)
  {
  }

  /**
   * Since `arctan` is non-decreasing, a wider view angle never gives a
   * smaller offset, whatever non-decreasing function stands for it.
   */
  lemma OffsetMonotoneInAngle(arctan: real -> real, alpha1: real, alpha2: real, b: Box)
    requires forall x, y :: x <= y ==> arctan(x) <= arctan(y)
    requires alpha1 <= alpha2
    ensures CameraOffset(arctan(AngleArgument(alpha1)), b) <= CameraOffset(arctan(AngleArgument(alpha2)), b)
  {
    assert AngleArgument(alpha1) <= AngleArgument(alpha2);
    OffsetMonotoneInFactor(arctan(AngleArgument(alpha1)), arctan(AngleArgument(alpha2)), b);
  }

  /** Python list indexing `lst[i]` for a list of length n: negative i counts from the end. */
  function PyIndex(i: int, n: nat): (r: Option<nat>)
    ensures r.Some? <==> 0 <= n + i && i < n
    ensures r.Some? ==> r.value < n && (r.value == i || r.value == n + i)
  {
    if 0 <= i < n then Some(i) else if 0 <= n + i && i < 0 then Some(n + i) else None
  }

  /** The camera state `setup_camera` sets on the view. */
  datatype Pose = Pose(focal: seq<real>, position: seq<real>, viewUp: seq<int>)

  /**
   * `setup_camera`: the focal point is the box centre; the position is the
   * centre moved by the offset along axis `camShift`; the up vector is 1
   * on axis `camViewUp` and 0 elsewhere. An axis index outside Python's
   * range raises `IndexError` (None).
   */
  method SetupCamera(b: Box, k: real, camShift: int, camViewUp: int) returns (r: Option<Pose>)
    ensures r.Some? <==> PyIndex(camShift, 3).Some? && PyIndex(camViewUp, 3).Some?
    ensures r.Some? ==> r.value.focal == CenterCamera(b)
    ensures r.Some? ==> (
      && |r.value.position| == 3
      && forall a :: 0 <= a < 3 ==>
           r.value.position[a] == CenterCamera(b)[a] + (if a == PyIndex(camShift, 3).value then CameraOffset(k, b) else 0.0))
    ensures r.Some? ==> (
      && |r.value.viewUp| == 3
      && forall a :: 0 <= a < 3 ==> r.value.viewUp[a] == (if a == PyIndex(camViewUp, 3).value then 1 else 0))
  {
    var focal := CenterCamera(b);
    var position := new real[3];
    position[0], position[1], position[2] := focal[0], focal[1], focal[2];
    var shift := PyIndex(camShift, 3);
    if shift.None? {
      return None;
    }
    position[shift.value] := position[shift.value] + CameraOffset(k, b);
    var up := new int[3];
    up[0], up[1], up[2] := 0, 0, 0;
    var upAxis := PyIndex(camViewUp, 3);
    if upAxis.None? {
      return None;
    }
    up[upAxis.value] := 1;
    r := Some(Pose(focal, position[..], up[..]));
  }
}
