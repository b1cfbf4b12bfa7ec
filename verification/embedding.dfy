/**
 The geometry of `_fixEmbedding` in the brick game system: the point of a box nearest
 to a ball's centre, and the push that moves a ball sunk into the box back out of it.
 */
module Embedding {
  import opened Wrappers
  import opened Reals
  import opened Transform
  import opened Colliders

  /** Below this squared distance the centre counts as inside the box. */
  const Eps := 0.00000001
  /** The extra distance every push adds beyond contact. */
  const Clearance := 0.1

  /** `Math.max(lo, Math.min(v, hi))`. */
  function Clamp(v: real, lo: real, hi: real): (c: real)
    ensures lo <= hi ==> lo <= c <= hi
    ensures lo <= v <= hi ==> c == v
    ensures v < lo ==> c == lo
    ensures hi < v && lo <= hi ==> c == hi
  {
    Max(lo, Min(v, hi))
  }

  /** The box's sides are in order. */
  predicate Proper(b: Bounds) {
    b.left <= b.right && b.top <= b.bottom
  }

  predicate Inside(c: Point, b: Bounds) {
    b.left <= c.x <= b.right && b.top <= c.y <= b.bottom
  }

  /** The point of the box nearest to `c`. */
  function Nearest(c: Point, b: Bounds): (n: Point)
    ensures Proper(b) ==> Inside(n, b)
    ensures Inside(c, b) ==> n == c
  {
    Point(Clamp(c.x, b.left, b.right), Clamp(c.y, b.top, b.bottom))
  }

  /** `distSq`: the squared distance from `c` to its nearest point of the box. */
  function Gap(c: Point, b: Bounds): (q: real)
    ensures q >= 0.0
  {
    SqLen(c.x - Nearest(c, b).x, c.y - Nearest(c, b).y)
  }

  /** Moving a point by a displacement. */
  function Shift(c: Point, d: Point): Point {
    Point(c.x + d.x, c.y + d.y)
  }

  // ---- The nearest point ----

  /** Clamping to an interval gets no farther from `v` than any point of the interval. */
  lemma ClampClosest(v: real, lo: real, hi: real, p: real)
    requires lo <= p <= hi
    ensures Abs(v - Clamp(v, lo, hi)) <= Abs(v - p)
  {
  }

  /** A real's square is the square of its absolute value. */
  lemma SquareAbs(a: real)
    ensures a * a == Abs(a) * Abs(a)
  {
  }

  /** Squaring is monotone on absolute values. */
  lemma SquareMono(a: real, b: real)
    requires Abs(a) <= Abs(b)
    ensures a * a <= b * b
  {
    SquareAbs(a);
    SquareAbs(b);
    if Abs(a) < Abs(b) {
      SquareLess(Abs(a), Abs(b));
    }
  }

  /** `Nearest` is a nearest point: no point of the box is closer to `c`. */
  lemma NearestClosest(c: Point, b: Bounds, p: Point)
    requires Inside(p, b)
    ensures Gap(c, b) <= SqLen(c.x - p.x, c.y - p.y)
  {
    ClampClosest(c.x, b.left, b.right, p.x);
    ClampClosest(c.y, b.top, b.bottom, p.y);
    SquareMono(c.x - Nearest(c, b).x, c.x - p.x);
    SquareMono(c.y - Nearest(c, b).y, c.y - p.y);
  }

  /** The gap is zero exactly for a centre inside the box. */
  lemma GapZero(c: Point, b: Bounds)
    requires Proper(b)
    ensures Gap(c, b) == 0.0 <==> Inside(c, b)
  {
    var dx := c.x - Nearest(c, b).x;
    var dy := c.y - Nearest(c, b).y;
    SquareZero(dx);
    SquareZero(dy);
    if Gap(c, b) == 0.0 {
      assert dx * dx >= 0.0 && dy * dy >= 0.0;
      assert dx == 0.0 && dy == 0.0;
    }
  }

  // ---- The push out of a box ----

  /** The four ways out of a box, in the order `_fixEmbedding` prefers them on a tie. */
  datatype Side = Left | Right | Top | Bottom

  /** `pushLeft`, `pushRight`, `pushTop`, `pushBottom`: how far the centre must move to clear that side. */
  function Push(c: Point, radius: real, b: Bounds, s: Side): real {
    match s
    case Left => c.x - b.left + radius
    case Right => b.right - c.x + radius
    case Top => c.y - b.top + radius
    case Bottom => b.bottom - c.y + radius
  }

  /** The side with the shortest push (`Math.min` of the four), ties going to the earlier side. */
  function Shortest(c: Point, radius: real, b: Bounds): (s: Side)
    ensures forall t :: Push(c, radius, b, s) <= Push(c, radius, b, t)
    ensures s == Left <==> forall t :: Push(c, radius, b, Left) <= Push(c, radius, b, t)
    ensures s == Right <==> Push(c, radius, b, Right) < Push(c, radius, b, Left) &&
                            Push(c, radius, b, Right) <= Push(c, radius, b, Top) &&
                            Push(c, radius, b, Right) <= Push(c, radius, b, Bottom)
    ensures s == Bottom ==> Push(c, radius, b, Bottom) < Push(c, radius, b, Top)
  {
    var pl := Push(c, radius, b, Left);
    var pr := Push(c, radius, b, Right);
    var pt := Push(c, radius, b, Top);
    var pb := Push(c, radius, b, Bottom);
    var m := Min(Min(Min(pl, pr), pt), pb);
    if m == pl then Left else if m == pr then Right else if m == pt then Top else Bottom
  }

  /** The displacement of the inside case: the shortest push along its axis, plus the clearance. */
  function InsidePush(c: Point, radius: real, b: Bounds): (d: Point)
    ensures var s := Shortest(c, radius, b); var m := Push(c, radius, b, s) + Clearance;
      d == match s
        case Left => Point(-m, 0.0)
        case Right => Point(m, 0.0)
        case Top => Point(0.0, -m)
        case Bottom => Point(0.0, m)
  {
    var s := Shortest(c, radius, b);
    var m := Push(c, radius, b, s);
    match s
    case Left => Point(-(m + Clearance), 0.0)
    case Right => Point(m + Clearance, 0.0)
    case Top => Point(0.0, -(m + Clearance))
    case Bottom => Point(0.0, m + Clearance)
  }

  /** The ball overlaps the box from outside: the centre is near, but not at, the box. */
  predicate Grazing(c: Point, radius: real, b: Bounds) {
    Gap(c, b) < radius * radius && Gap(c, b) > Eps
  }

  /** The offset from the nearest point, divided by `dist`, times `m`: `(nx, ny) * m`. */
  function AlongOffset(c: Point, b: Bounds, dist: real, m: real): Point
    requires dist != 0.0
  {
    Point((c.x - Nearest(c, b).x) / dist * m, (c.y - Nearest(c, b).y) / dist * m)
  }

  /**
   The push `_fixEmbedding` gives a ball of centre `c` against box `b`: along the
   normal from the nearest point when the centre is outside but within the radius, by
   the shortest side when the centre is (within `Eps`) inside, and none otherwise.
   A square root of zero, which a true square root never gives here, pushes nothing.
   */
  function PushOut(sqrt: real -> real, c: Point, radius: real, b: Bounds): (d: Option<Point>)
    ensures Gap(c, b) <= Eps ==> d == Some(InsidePush(c, radius, b))
    ensures !Grazing(c, radius, b) && Gap(c, b) > Eps ==> d.None?
  {
    var n := Nearest(c, b);
    var dx := c.x - n.x;
    var dy := c.y - n.y;
    var distSq := SqLen(dx, dy);
    if distSq < radius * radius && distSq > Eps then
      var dist := sqrt(distSq);
      if dist == 0.0 then None
      else
        var overlap := radius - dist;
        Some(AlongOffset(c, b, dist, overlap + Clearance))
    else if distSq <= Eps then Some(InsidePush(c, radius, b))
    else None
  }

  /** With a true square root, a push is given exactly when the ball is inside or grazing the box. */
  lemma PushOutIff(sqrt: real -> real, c: Point, radius: real, b: Bounds)
    requires IsSqrt(sqrt)
    ensures PushOut(sqrt, c, radius, b).Some? <==> Gap(c, b) <= Eps || Grazing(c, radius, b)
  {
    var n := Nearest(c, b);
    var q := Gap(c, b);
    assert q == SqLen(c.x - n.x, c.y - n.y);
    if Grazing(c, radius, b) {
      SqrtZeroIff(sqrt, q);
    }
  }

  // ---- A push clears the box ----

  /** Adding the push along the normal scales the offset from the nearest point. */
  lemma AlongNormal(dx: real, dist: real, m: real)
    requires dist != 0.0
    ensures dx + dx / dist * m == dx * ((dist + m) / dist)
  {
    var u := dx / dist;
    assert dx == u * dist;
    assert dx * ((dist + m) / dist) == u * (dist + m);
  }

  /** Moving away from an interval along the clamping offset keeps the clamped value. */
  lemma ClampAway(v: real, lo: real, hi: real, k: real)
    requires lo <= hi && k > 0.0
    ensures Clamp(Clamp(v, lo, hi) + (v - Clamp(v, lo, hi)) * k, lo, hi) == Clamp(v, lo, hi)
  {
    var n := Clamp(v, lo, hi);
    if v > hi {
      assert (v - n) * k > 0.0;
    } else if v < lo {
      assert (v - n) * k < 0.0;
    }
  }

  /** A scaled vector's squared length is the scale squared times the squared length. */
  lemma ScaledSqLen(x: real, y: real, k: real)
    ensures SqLen(x * k, y * k) == (k * k) * SqLen(x, y)
  {
  }

  /** `((a / l) * (a / l)) * (l * l) == a * a`. */
  lemma CancelSquare(a: real, l: real, q: real, k: real)
    requires l != 0.0 && q == l * l && k == a / l
    ensures (k * k) * q == a * a
  {
    assert k * l == a;
    assert (k * k) * (l * l) == (k * l) * (k * l);
  }

  /** The gap, from the offsets to the nearest point. */
  lemma GapFrom(c: Point, b: Bounds, ex: real, ey: real)
    requires c.x - Nearest(c, b).x == ex && c.y - Nearest(c, b).y == ey
    ensures Gap(c, b) == SqLen(ex, ey)
  {
  }

  /** The gap of a point whose offsets to its nearest point are scaled by `k`. */
  lemma ScaledGap(c: Point, b: Bounds, dx: real, dy: real, k: real, q: real)
    requires c.x - Nearest(c, b).x == dx * k && c.y - Nearest(c, b).y == dy * k && q == SqLen(dx, dy)
    ensures Gap(c, b) == (k * k) * q
  {
    GapFrom(c, b, dx * k, dy * k);
    ScaledSqLen(dx, dy, k);
  }

  /**
   The push along the normal leaves the ball's centre `radius + 0.1` from the box,
   with the same nearest point: the ball no longer overlaps it.
   */
  lemma GrazingPushClears(sqrt: real -> real, c: Point, radius: real, b: Bounds)
    requires IsSqrt(sqrt) && Proper(b) && radius >= 0.0 && Grazing(c, radius, b)
    ensures PushOut(sqrt, c, radius, b).Some?
    ensures var c' := Shift(c, PushOut(sqrt, c, radius, b).value);
      Nearest(c', b) == Nearest(c, b) && Gap(c', b) == (radius + Clearance) * (radius + Clearance)
    ensures Gap(Shift(c, PushOut(sqrt, c, radius, b).value), b) > radius * radius
  {
    var n := Nearest(c, b);
    var q := Gap(c, b);
    var dist := sqrt(q);
    GrazingDistance(sqrt, q, radius);
    var m := radius - dist + Clearance;
    assert q == SqLen(c.x - n.x, c.y - n.y);
    assert PushOut(sqrt, c, radius, b) == Some(AlongOffset(c, b, dist, m));
    NormalPushClears(c, b, dist, m, radius + Clearance);
    SquareLess(radius, radius + Clearance);
  }

  /** In the grazing case the distance is a positive square root below the radius. */
  lemma GrazingDistance(sqrt: real -> real, q: real, radius: real)
    requires IsSqrt(sqrt) && radius >= 0.0 && Eps < q < radius * radius
    ensures 0.0 < sqrt(q) < radius && sqrt(q) * sqrt(q) == q
  {
    assert SqrtAt(sqrt, q);
    SqrtZeroIff(sqrt, q);
    SqrtLess(sqrt, q, radius);
  }

  /** Moving `c` along the offset from its nearest point, to `dist + m` away from it. */
  lemma NormalPushClears(c: Point, b: Bounds, dist: real, m: real, e: real)
    requires Proper(b) && 0.0 < dist && dist * dist == Gap(c, b) && dist + m == e && e > 0.0
    ensures Nearest(Shift(c, AlongOffset(c, b, dist, m)), b) == Nearest(c, b)
    ensures Gap(Shift(c, AlongOffset(c, b, dist, m)), b) == e * e
  {
    var n := Nearest(c, b);
    var k := e / dist;
    NormalPushNearest(c, b, dist, m, e, k);
    ScaledGap(Shift(c, AlongOffset(c, b, dist, m)), b, c.x - n.x, c.y - n.y, k, Gap(c, b));
    CancelSquare(e, dist, Gap(c, b), k);
  }

  /** ... it keeps the nearest point and scales the offsets from it by `k`. */
  lemma NormalPushNearest(c: Point, b: Bounds, dist: real, m: real, e: real, k: real)
    requires Proper(b) && 0.0 < dist && dist + m == e && e > 0.0 && k == e / dist
    ensures var c' := Shift(c, AlongOffset(c, b, dist, m));
      Nearest(c', b) == Nearest(c, b) &&
      c'.x - Nearest(c', b).x == (c.x - Nearest(c, b).x) * k &&
      c'.y - Nearest(c', b).y == (c.y - Nearest(c, b).y) * k
  {
    var n := Nearest(c, b);
    var c' := Shift(c, AlongOffset(c, b, dist, m));
    CoordAway(c.x, b.left, b.right, dist, m, e, k, c'.x);
    CoordAway(c.y, b.top, b.bottom, dist, m, e, k, c'.y);
  }

  /**
   One coordinate of the normal push: the clamped value stays, and the offset from it
   grows by the factor `k`.
   */
  lemma CoordAway(v: real, lo: real, hi: real, dist: real, m: real, e: real, k: real, v': real)
    requires lo <= hi && 0.0 < dist && dist + m == e && e > 0.0 && k == e / dist
    requires v' == v + (v - Clamp(v, lo, hi)) / dist * m
    ensures Clamp(v', lo, hi) == Clamp(v, lo, hi)
    ensures v' - Clamp(v', lo, hi) == (v - Clamp(v, lo, hi)) * k
  {
    var n := Clamp(v, lo, hi);
    AlongNormal(v - n, dist, m);
    assert v' == n + (v - n) * k;
    ClampAway(v, lo, hi, k);
  }

  /**
   A ball whose centre is inside the box moves out through its nearest side and ends
   `radius + 0.1` from the box.
   */
  lemma InsidePushClears(sqrt: real -> real, c: Point, radius: real, b: Bounds)
    requires Proper(b) && radius >= 0.0 && Inside(c, b)
    ensures PushOut(sqrt, c, radius, b) == Some(InsidePush(c, radius, b))
    ensures Gap(Shift(c, InsidePush(c, radius, b)), b) == (radius + Clearance) * (radius + Clearance)
  {
    GapZero(c, b);
    var d := InsidePush(c, radius, b);
    var c' := Shift(c, d);
    var e := radius + Clearance;
    match Shortest(c, radius, b)
    case Left =>
      assert c'.x == b.left - e && c'.y == c.y;
      assert Nearest(c', b) == Point(b.left, c.y);
    case Right =>
      assert c'.x == b.right + e && c'.y == c.y;
      assert Nearest(c', b) == Point(b.right, c.y);
    case Top =>
      assert c'.y == b.top - e && c'.x == c.x;
      assert Nearest(c', b) == Point(c.x, b.top);
    case Bottom =>
      assert c'.y == b.bottom + e && c'.x == c.x;
      assert Nearest(c', b) == Point(c.x, b.bottom);
  }
}
