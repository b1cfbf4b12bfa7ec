/**
 The swept-collision tests of the physics system: a moving circle against a static box
 (its Minkowski sum with the circle) and against a static circle, both reduced to a point
 ray against edges and circles. `d` is the displacement of this sub-step: the ray is
 `P(t) = p + t * d` and a hit at `t` in [0, 1) lies within this sub-step.
 */
module Sweep {
  import opened Wrappers
  import opened Reals
  import opened Transform
  import opened Colliders

  /** A contact: the fraction `t` of the displacement and the surface normal there. */
  datatype Hit = Hit(t: real, normal: Point)

  function Dot(a: Point, b: Point): real {
    a.x * b.x + a.y * b.y
  }

  function Len2(a: Point): real {
    SqLen(a.x, a.y)
  }

  function Sub(a: Point, b: Point): Point {
    Point(a.x - b.x, a.y - b.y)
  }

  /** Degenerate-displacement, length and normal thresholds of the source. */
  const MinRayLen2: real := 0.000000000001
  const MinNormalLen: real := 0.00000001

  /** The quadratic `a t² + b t + c` whose roots are the ray's crossings of the circle. */
  function Quad(a: real, b: real, c: real, u: real): real {
    a * u * u + b * u + c
  }

  function Disc(a: real, b: real, c: real): real {
    b * b - 4.0 * a * c
  }

  /** The smaller root of the quadratic. */
  function Root1(sqrt: real -> real, a: real, b: real, c: real): real
    requires a != 0.0
  {
    (-b - sqrt(Disc(a, b, c))) / (2.0 * a)
  }

  /** The point of the ray `e + u d`. */
  function RayAt(e: Point, d: Point, u: real): Point {
    Point(e.x + u * d.x, e.y + u * d.y)
  }

  /**
   `_rayCircleIntersect`: the entry time of the ray into the circle of radius `r` around
   `c`, or None when the displacement is (nearly) zero, the ray misses the circle, or the
   entry root is negative (the start point is inside the circle or the circle is behind).
   */
  function RayCircle(sqrt: real -> real, p: Point, d: Point, c: Point, r: real): (t: Option<real>)
    ensures t.Some? ==> t.value >= 0.0
    ensures Len2(d) < MinRayLen2 ==> t == None
  {
    var e := Sub(p, c);
    var a := Len2(d);
    if a < MinRayLen2 then None
    else
      var b := 2.0 * Dot(e, d);
      var cc := Len2(e) - r * r;
      if Disc(a, b, cc) < 0.0 then None
      else
        var t1 := Root1(sqrt, a, b, cc);
        if t1 >= 0.0 then Some(t1) else None
  }

  /** The squared distance from the ray point at `u` to the centre is the quadratic. */
  lemma QuadOfRay(e: Point, d: Point, r: real, u: real)
    ensures Len2(RayAt(e, d, u)) - r * r == Quad(Len2(d), 2.0 * Dot(e, d), Len2(e) - r * r, u)
  {
  }

  /** Completing the square: `(2au + b)² − (b² − 4ac) = 4a · Quad(u)`. */
  lemma CompleteSquare(a: real, b: real, c: real, u: real)
    ensures (2.0 * a * u + b) * (2.0 * a * u + b) - Disc(a, b, c) == 4.0 * a * Quad(a, b, c, u)
  {
  }

  /**
   The root `t1 = (−b − √D) / 2a` is the first crossing: the quadratic is zero there,
   positive before it, and its slope `2a t1 + b = −√D` is not positive.
   */
  lemma FirstRoot(sqrt: real -> real, a: real, b: real, c: real)
    requires IsSqrt(sqrt) && a > 0.0 && Disc(a, b, c) >= 0.0
    ensures Quad(a, b, c, Root1(sqrt, a, b, c)) == 0.0
    ensures 2.0 * a * Root1(sqrt, a, b, c) + b <= 0.0
    ensures forall u :: u < Root1(sqrt, a, b, c) ==> Quad(a, b, c, u) > 0.0
  {
    var disc := Disc(a, b, c);
    assert SqrtAt(sqrt, disc);
    var s := sqrt(disc);
    var t1 := Root1(sqrt, a, b, c);
    assert 2.0 * a * t1 + b == -s;
    CompleteSquare(a, b, c, t1);
    assert (-s) * (-s) == disc;
    assert 4.0 * a * Quad(a, b, c, t1) == 0.0;
    forall u | u < t1 ensures Quad(a, b, c, u) > 0.0 {
      var w := 2.0 * a * u + b;
      assert w < -s by {
        assert 2.0 * a * u < 2.0 * a * t1;
      }
      SquareLess(s, -w);
      CompleteSquare(a, b, c, u);
      assert 4.0 * a * Quad(a, b, c, u) > 0.0;
    }
  }

  /**
   A ray-circle hit is the first contact: at `t` the point is exactly on the circle, at
   every earlier time it is strictly outside, and the ray is heading inward (or
   tangential) there, so the outward normal opposes the displacement.
   */
  lemma RayCircleContact(sqrt: real -> real, p: Point, d: Point, c: Point, r: real)
    requires IsSqrt(sqrt) && RayCircle(sqrt, p, d, c, r).Some?
    ensures var t := RayCircle(sqrt, p, d, c, r).value;
      var e := Sub(p, c);
      Len2(RayAt(e, d, t)) == r * r &&
      Dot(RayAt(e, d, t), d) <= 0.0 &&
      forall u :: 0.0 <= u < t ==> Len2(RayAt(e, d, u)) > r * r
  {
    var t := RayCircle(sqrt, p, d, c, r).value;
    var e := Sub(p, c);
    var a := Len2(d);
    var b := 2.0 * Dot(e, d);
    var cc := Len2(e) - r * r;
    assert t == Root1(sqrt, a, b, cc);
    FirstRoot(sqrt, a, b, cc);
    QuadOfRay(e, d, r, t);
    assert Dot(RayAt(e, d, t), d) == (2.0 * a * t + b) / 2.0;
    forall u | 0.0 <= u < t ensures Len2(RayAt(e, d, u)) > r * r {
      QuadOfRay(e, d, r, u);
    }
  }

  /** Scaling a vector of positive length by the inverse of its length gives a unit vector. */
  lemma UnitNormal(sqrt: real -> real, n: Point)
    requires IsSqrt(sqrt) && sqrt(Len2(n)) > 0.0
    ensures var len := sqrt(Len2(n)); Len2(Point(n.x / len, n.y / len)) == 1.0
  {
    var len := sqrt(Len2(n));
    assert SqrtAt(sqrt, Len2(n));
    var ux := n.x / len;
    var uy := n.y / len;
    assert ux * len == n.x && uy * len == n.y;
    ScaledSquare(ux, n.x, len);
    ScaledSquare(uy, n.y, len);
    SquareLess(0.0, len);
    CancelSum(ux * ux, uy * uy, len * len, n.x * n.x, n.y * n.y);
  }

  lemma ScaledSquare(u: real, x: real, l: real)
    requires u * l == x
    ensures (u * u) * (l * l) == x * x
  {
  }

  lemma CancelSum(a: real, b: real, l: real, x: real, y: real)
    requires l > 0.0 && a * l == x && b * l == y && l == x + y
    ensures a + b == 1.0
  {
    assert (a + b) * l == 1.0 * l;
  }

  /** Dividing by a positive length keeps the sign of a dot product. */
  lemma ScaledDot(n: Point, d: Point, len: real)
    requires len > 0.0 && Dot(n, d) <= 0.0
    ensures Dot(Point(n.x / len, n.y / len), d) <= 0.0
  {
    assert Dot(Point(n.x / len, n.y / len), d) == Dot(n, d) / len;
  }

  /**
   `_sweepCircleCircle`: the moving circle of radius `radius` at `p` against the static
   circle of radius `otherRadius` at `center`, as a ray against their summed radius. The
   normal points from the static centre to the moving centre at contact.
   */
  function SweepCircleCircle(sqrt: real -> real, p: Point, d: Point, radius: real,
                             center: Point, otherRadius: real): (h: Option<Hit>)
    ensures h.Some? ==> 0.0 <= h.value.t < 1.0
  {
    var t := RayCircle(sqrt, p, d, center, radius + otherRadius);
    if t.Some? && t.value >= 0.0 && t.value < 1.0 then
      var n := Sub(RayAt(p, d, t.value), center);
      var len := sqrt(Len2(n));
      if len > MinNormalLen then Some(Hit(t.value, Point(n.x / len, n.y / len))) else None
    else None
  }

  /**
   A circle-circle hit is a first contact at distance `radius + otherRadius`, with a unit
   normal that does not point along the displacement.
   */
  lemma SweepCircleCircleContact(sqrt: real -> real, p: Point, d: Point, radius: real,
                                 center: Point, otherRadius: real)
    requires IsSqrt(sqrt)
    requires SweepCircleCircle(sqrt, p, d, radius, center, otherRadius).Some?
    ensures var h := SweepCircleCircle(sqrt, p, d, radius, center, otherRadius).value;
      var e := Sub(p, center);
      Len2(h.normal) == 1.0 && Dot(h.normal, d) <= 0.0 &&
      Len2(RayAt(e, d, h.t)) == (radius + otherRadius) * (radius + otherRadius)
  {
    var t := RayCircle(sqrt, p, d, center, radius + otherRadius).value;
    var e := Sub(p, center);
    RayCircleContact(sqrt, p, d, center, radius + otherRadius);
    var n := Sub(RayAt(p, d, t), center);
    assert n == RayAt(e, d, t);
    UnitNormal(sqrt, n);
    ScaledDot(n, d, sqrt(Len2(n)));
  }

  // ---- Earliest-candidate selection ----

  /** A candidate contact, tagged with what was hit. */
  datatype Cand<T> = Cand(hit: Hit, tag: T)

  /** `t < minT`, where a missing limit is +Infinity. */
  predicate Below(t: real, limit: Option<real>) {
    limit.None? || t < limit.value
  }

  predicate Beats<T>(c: Option<Cand<T>>, limit: Option<real>) {
    c.Some? && Below(c.value.hit.t, limit)
  }

  /** The running `minT`: the best candidate's time, or the initial bound. */
  function Limit<T>(best: Option<Cand<T>>, bound: Option<real>): Option<real> {
    if best.Some? then Some(best.value.hit.t) else bound
  }

  /**
   The selection loop shared by both sweeps and by the per-body search: scan the
   candidates in order and keep one only when it is strictly earlier than the best so far.
   */
  function Earliest<T>(cs: seq<Option<Cand<T>>>, best: Option<Cand<T>>, bound: Option<real>): Option<Cand<T>>
    decreases |cs|
  {
    if |cs| == 0 then best
    else Earliest(cs[1..], if Beats(cs[0], Limit(best, bound)) then cs[0] else best, bound)
  }

  /**
   The selection returns a candidate no later than every candidate under the initial
   limit, and when it returns a new candidate, that is the first one reaching the
   minimum: ties go to the earlier candidate.
   */
  lemma {:induction false} EarliestSpec<T>(cs: seq<Option<Cand<T>>>, best: Option<Cand<T>>, bound: Option<real>)
    ensures var r := Earliest(cs, best, bound);
      best.Some? ==> r.Some? && r.value.hit.t <= best.value.hit.t
    ensures var r := Earliest(cs, best, bound);
      forall i :: 0 <= i < |cs| && Beats(cs[i], Limit(best, bound)) ==>
        r.Some? && r.value.hit.t <= cs[i].value.hit.t
    ensures var r := Earliest(cs, best, bound);
      r != best ==> exists i :: 0 <= i < |cs| && cs[i] == r && Beats(r, Limit(best, bound)) &&
                       forall j :: 0 <= j < i && Beats(cs[j], Limit(best, bound)) ==>
                         cs[j].value.hit.t > r.value.hit.t
    decreases |cs|
  {
    if |cs| > 0 {
      var lim := Limit(best, bound);
      var best' := if Beats(cs[0], lim) then cs[0] else best;
      var lim' := Limit(best', bound);
      EarliestSpec(cs[1..], best', bound);
      var r := Earliest(cs, best, bound);
      assert r == Earliest(cs[1..], best', bound);
      forall i | 0 <= i < |cs| && Beats(cs[i], lim) ensures r.Some? && r.value.hit.t <= cs[i].value.hit.t {
        if i > 0 {
          assert cs[1..][i - 1] == cs[i];
          if !Beats(cs[i], lim') {
            assert best'.Some?;
          }
        }
      }
      if r != best {
        if r == best' {
          assert cs[0] == r;
        } else {
          var i' :| 0 <= i' < |cs[1..]| && cs[1..][i'] == r && Beats(r, lim') &&
            forall j :: 0 <= j < i' && Beats(cs[1..][j], lim') ==> cs[1..][j].value.hit.t > r.value.hit.t;
          var i := i' + 1;
          assert cs[i] == r;
          forall j | 0 <= j < i && Beats(cs[j], lim) ensures cs[j].value.hit.t > r.value.hit.t {
            if j > 0 {
              assert cs[1..][j - 1] == cs[j];
            }
          }
        }
      }
    }
  }

  /** Every candidate the selection returns comes from the list or is the initial best. */
  lemma {:induction false} EarliestFrom<T>(cs: seq<Option<Cand<T>>>, best: Option<Cand<T>>, bound: Option<real>)
    ensures Earliest(cs, best, bound) == best || Earliest(cs, best, bound) in cs
    decreases |cs|
  {
    if |cs| > 0 {
      EarliestFrom(cs[1..], if Beats(cs[0], Limit(best, bound)) then cs[0] else best, bound);
    }
  }

  // ---- Moving circle against a static box ----

  /** The axis normals of the four expanded edges. */
  const LeftNormal := Point(-1.0, 0.0)
  const RightNormal := Point(1.0, 0.0)
  const TopNormal := Point(0.0, -1.0)
  const BottomNormal := Point(0.0, 1.0)

  /**
   An expanded-edge test along one axis: the motion must face the edge (`facing`), the
   time to reach it must be non-negative, and the other coordinate at that time must lie
   within the edge's span.
   */
  function EdgeCand(facing: bool, gap: real, speed: real, from: real, slope: real,
                    lo: real, hi: real, normal: Point, tag: nat): (c: Option<Cand<nat>>)
    requires facing ==> speed != 0.0
    ensures c.Some? ==> facing && c.value.hit.t >= 0.0 && c.value.hit.normal == normal && c.value.tag == tag
    ensures c.Some? ==> c.value.hit.t * speed == gap
    ensures c.Some? ==> lo <= from + c.value.hit.t * slope <= hi
  {
    if facing then
      var t := gap / speed;
      if t >= 0.0 && lo <= from + t * slope <= hi then Some(Cand(Hit(t, normal), tag)) else None
    else None
  }

  /** A corner test: the ray against the circle of the circle's radius around the corner. */
  function CornerCand(sqrt: real -> real, p: Point, d: Point, radius: real, corner: Point, tag: nat)
    : (c: Option<Cand<nat>>)
    ensures c.Some? ==> c.value.hit.t >= 0.0 && c.value.tag == tag
  {
    var t := RayCircle(sqrt, p, d, corner, radius);
    if t.Some? && t.value >= 0.0 then
      var n := Sub(RayAt(p, d, t.value), corner);
      var len := sqrt(Len2(n));
      if len > MinNormalLen then Some(Cand(Hit(t.value, Point(n.x / len, n.y / len)), tag)) else None
    else None
  }

  /**
   The eight tests of `_sweepCircleBox` in source order: left, right, top and bottom
   expanded edges (tags 0-3), then the corners left-top, right-top, left-bottom and
   right-bottom (tags 4-7).
   */
  function BoxCandidates(sqrt: real -> real, p: Point, d: Point, radius: real, b: Bounds)
    : (cs: seq<Option<Cand<nat>>>)
    ensures |cs| == 8
  {
    [ EdgeCand(d.x > 0.0, b.left - radius - p.x, d.x, p.y, d.y, b.top, b.bottom, LeftNormal, 0),
      EdgeCand(d.x < 0.0, b.right + radius - p.x, d.x, p.y, d.y, b.top, b.bottom, RightNormal, 1),
      EdgeCand(d.y > 0.0, b.top - radius - p.y, d.y, p.x, d.x, b.left, b.right, TopNormal, 2),
      EdgeCand(d.y < 0.0, b.bottom + radius - p.y, d.y, p.x, d.x, b.left, b.right, BottomNormal, 3),
      CornerCand(sqrt, p, d, radius, Point(b.left, b.top), 4),
      CornerCand(sqrt, p, d, radius, Point(b.right, b.top), 5),
      CornerCand(sqrt, p, d, radius, Point(b.left, b.bottom), 6),
      CornerCand(sqrt, p, d, radius, Point(b.right, b.bottom), 7) ]
  }

  /**
   `_sweepCircleBox`: the earliest of the eight tests (strictly earlier wins, so ties go
   to the earlier test), reported only when it lies within this displacement (`t < 1`).
   */
  function SweepCircleBox(sqrt: real -> real, p: Point, d: Point, radius: real, b: Bounds): (h: Option<Hit>)
    ensures h.Some? ==> 0.0 <= h.value.t < 1.0
  {
    var r := Earliest(BoxCandidates(sqrt, p, d, radius, b), None, None);
    EarliestFrom(BoxCandidates(sqrt, p, d, radius, b), None, None);
    if r.Some? && r.value.hit.t < 1.0 then Some(r.value.hit) else None
  }

  /** A corner candidate's normal is a unit vector that does not point along the motion. */
  lemma CornerNormal(sqrt: real -> real, p: Point, d: Point, radius: real, corner: Point, tag: nat)
    requires IsSqrt(sqrt) && CornerCand(sqrt, p, d, radius, corner, tag).Some?
    ensures var h := CornerCand(sqrt, p, d, radius, corner, tag).value.hit;
      Len2(h.normal) == 1.0 && Dot(h.normal, d) <= 0.0
  {
    var t := RayCircle(sqrt, p, d, corner, radius).value;
    RayCircleContact(sqrt, p, d, corner, radius);
    var n := Sub(RayAt(p, d, t), corner);
    assert n == RayAt(Sub(p, corner), d, t);
    UnitNormal(sqrt, n);
    ScaledDot(n, d, sqrt(Len2(n)));
  }

  /** Every candidate normal is a unit vector that does not point along the motion. */
  lemma BoxCandidateNormals(sqrt: real -> real, p: Point, d: Point, radius: real, b: Bounds, i: nat)
    requires IsSqrt(sqrt) && i < 8 && BoxCandidates(sqrt, p, d, radius, b)[i].Some?
    ensures var h := BoxCandidates(sqrt, p, d, radius, b)[i].value.hit;
      Len2(h.normal) == 1.0 && Dot(h.normal, d) <= 0.0
  {
    var cs := BoxCandidates(sqrt, p, d, radius, b);
    if i == 4 {
      CornerNormal(sqrt, p, d, radius, Point(b.left, b.top), 4);
    } else if i == 5 {
      CornerNormal(sqrt, p, d, radius, Point(b.right, b.top), 5);
    } else if i == 6 {
      CornerNormal(sqrt, p, d, radius, Point(b.left, b.bottom), 6);
    } else if i == 7 {
      CornerNormal(sqrt, p, d, radius, Point(b.right, b.bottom), 7);
    }
  }

  /**
   A box hit is the earliest of the eight tests below `t = 1`, and its normal is a unit
   vector facing against the displacement: an axis normal of an edge the motion faces,
   or the direction from the struck corner to the centre.
   */
  lemma SweepCircleBoxSpec(sqrt: real -> real, p: Point, d: Point, radius: real, b: Bounds)
    ensures var h := SweepCircleBox(sqrt, p, d, radius, b);
      var cs := BoxCandidates(sqrt, p, d, radius, b);
      forall i :: 0 <= i < 8 && cs[i].Some? && cs[i].value.hit.t < 1.0 ==>
        h.Some? && h.value.t <= cs[i].value.hit.t
    ensures var h := SweepCircleBox(sqrt, p, d, radius, b);
      IsSqrt(sqrt) && h.Some? ==> Len2(h.value.normal) == 1.0 && Dot(h.value.normal, d) <= 0.0
  {
    var cs := BoxCandidates(sqrt, p, d, radius, b);
    EarliestSpec(cs, None, None);
    EarliestFrom(cs, None, None);
    var r := Earliest(cs, None, None);
    if IsSqrt(sqrt) && r.Some? {
      var i :| 0 <= i < |cs| && cs[i] == r;
      BoxCandidateNormals(sqrt, p, d, radius, b, i);
    }
  }
}
