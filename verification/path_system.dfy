/**
 The three lanes monsters walk around the brick field (inner, middle, outer), their
 lengths, and the point reached after walking a given distance along one of them.
 */
module PathSystem {
  import opened Wrappers
  import opened Reals
  import opened Transform

  /** The field's placement: its top-left corner, its size and the grid's cell size. */
  datatype Layout = Layout(originX: real, originY: real, fieldWidth: real, fieldHeight: real, cellSize: real)

  /** A lane: its corner points, the distance walked on reaching each of them, and its length. */
  datatype Lane = Lane(points: seq<Point>, segLens: seq<real>, total: real)

  /** The system's state: no lanes until `Init` has run (`_inited`), then inner, middle and outer. */
  datatype PathSystem = PathSystem(lanes: Option<seq<Lane>>)

  /** How much farther out than its share of a cell every lane runs. */
  const Extra := 5.0

  /** The constructor: not initialised. */
  function New(): (p: PathSystem)
    ensures p.lanes.None?
  {
    PathSystem(None)
  }

  /** The lanes' distances from the field's edge, inner to outer: a quarter, a half and three quarters of a cell, plus 5. */
  function Offsets(cellSize: real): (o: seq<real>)
    ensures |o| == 3
    ensures o[0] == cellSize * 0.25 + Extra && o[1] == cellSize * 0.5 + Extra && o[2] == cellSize * 0.75 + Extra
    ensures cellSize > 0.0 ==> o[0] < o[1] < o[2]
    ensures cellSize >= 0.0 ==> o[0] >= Extra
  {
    [cellSize * 0.25 + Extra, cellSize * 0.5 + Extra, cellSize * 0.75 + Extra]
  }

  /**
   A lane's corners at distance `d`: top right, top left, bottom left, bottom right.
   Above, left of and below the field the lane runs outside it; on the right it runs
   `d` inside the field's right edge.
   */
  function Corners(l: Layout, d: real): (ps: seq<Point>)
    ensures |ps| == 4
    ensures ps[0].y == ps[1].y && ps[1].x == ps[2].x && ps[2].y == ps[3].y && ps[3].x == ps[0].x
    ensures ps[0].x == l.originX + l.fieldWidth - d && ps[1].x == l.originX - d
    ensures ps[0].y == l.originY - d && ps[2].y == l.originY + l.fieldHeight + d
  {
    var left := l.originX;
    var right := l.originX + l.fieldWidth;
    var top := l.originY;
    var bottom := l.originY + l.fieldHeight;
    [Point(right - d, top - d), Point(left - d, top - d), Point(left - d, bottom + d), Point(right - d, bottom + d)]
  }

  /** The length of the straight segment from `p` to `q`. */
  function SegLen(sqrt: real -> real, p: Point, q: Point): real {
    sqrt(SqLen(q.x - p.x, q.y - p.y))
  }

  /** The lane has at least one point and one cumulative length per point, from 0 up to its total. */
  predicate Shaped(lane: Lane) {
    |lane.points| > 0 && |lane.segLens| == |lane.points| && lane.segLens[0] == 0.0 &&
    lane.total == lane.segLens[|lane.segLens| - 1]
  }

  /** The cumulative lengths add up the lengths of the successive segments. */
  predicate Measured(sqrt: real -> real, lane: Lane) {
    Shaped(lane) &&
    forall i :: 1 <= i < |lane.points| ==>
      lane.segLens[i] == lane.segLens[i - 1] + SegLen(sqrt, lane.points[i - 1], lane.points[i])
  }

  /** The loop of `_calculateAllPaths` over one lane's points: the running total after each segment. */
  method MeasureLane(sqrt: real -> real, points: seq<Point>) returns (lane: Lane)
    requires |points| > 0
    ensures lane.points == points && Measured(sqrt, lane)
  {
    var total := 0.0;
    var segLens := [0.0];
    var j := 1;
    while j < |points|
      invariant 1 <= j <= |points|
      invariant |segLens| == j && segLens[0] == 0.0 && total == segLens[j - 1]
      invariant forall i :: 1 <= i < j ==> segLens[i] == segLens[i - 1] + SegLen(sqrt, points[i - 1], points[i])
    {
      total := total + SegLen(sqrt, points[j - 1], points[j]);
      segLens := segLens + [total];
      j := j + 1;
    }
    lane := Lane(points, segLens, total);
  }

  /** The lanes are well formed: none before `Init`, and afterwards three shaped ones. */
  predicate Valid(p: PathSystem) {
    p.lanes.Some? ==> |p.lanes.value| == 3 && forall i :: 0 <= i < 3 ==> Shaped(p.lanes.value[i])
  }

  /** `_calculateAllPaths`: lane `i` has the corners at the `i`-th offset and their cumulative lengths. */
  method CalculateAllPaths(sqrt: real -> real, l: Layout) returns (lanes: seq<Lane>)
    ensures |lanes| == 3
    ensures forall i :: 0 <= i < 3 ==>
      lanes[i].points == Corners(l, Offsets(l.cellSize)[i]) && Measured(sqrt, lanes[i])
  {
    var ds := Offsets(l.cellSize);
    var inner := MeasureLane(sqrt, Corners(l, ds[0]));
    var middle := MeasureLane(sqrt, Corners(l, ds[1]));
    var outer := MeasureLane(sqrt, Corners(l, ds[2]));
    lanes := [inner, middle, outer];
  }

  /** `Init`: the lanes of the layout, and the system initialised. */
  method Init(sqrt: real -> real, l: Layout) returns (p: PathSystem)
    ensures p.lanes.Some? && Valid(p)
    ensures forall i :: 0 <= i < 3 ==>
      p.lanes.value[i].points == Corners(l, Offsets(l.cellSize)[i]) && Measured(sqrt, p.lanes.value[i])
  {
    var lanes := CalculateAllPaths(sqrt, l);
    p := PathSystem(Some(lanes));
  }

  // ---- The lanes' lengths ----

  /** Along an axis the square root gives the distance. */
  lemma AxisLen(sqrt: real -> real, a: real)
    requires IsSqrt(sqrt)
    ensures sqrt(SqLen(a, 0.0)) == Abs(a) && sqrt(SqLen(0.0, a)) == Abs(a)
  {
    assert SqLen(a, 0.0) == a * a && SqLen(0.0, a) == a * a;
    SqrtOfSquare(sqrt, a);
  }

  /**
   Every lane is made of axis-aligned segments: the top one as long as the field is
   wide, the left one the field's height plus twice the distance, the bottom one the
   width again; so the total is `2 * fieldWidth + fieldHeight + 2 * d`.
   */
  lemma LaneLengths(sqrt: real -> real, l: Layout, d: real, lane: Lane)
    requires IsSqrt(sqrt) && Measured(sqrt, lane) && lane.points == Corners(l, d)
    requires l.fieldWidth >= 0.0 && l.fieldHeight + 2.0 * d >= 0.0
    ensures lane.segLens == [0.0, l.fieldWidth, 2.0 * d + l.fieldHeight + l.fieldWidth,
                             2.0 * d + l.fieldHeight + 2.0 * l.fieldWidth]
    ensures lane.total == 2.0 * l.fieldWidth + l.fieldHeight + 2.0 * d
  {
    var ps := lane.points;
    assert ps[1].x - ps[0].x == -l.fieldWidth && ps[1].y - ps[0].y == 0.0;
    assert ps[2].x - ps[1].x == 0.0 && ps[2].y - ps[1].y == l.fieldHeight + 2.0 * d;
    assert ps[3].x - ps[2].x == l.fieldWidth && ps[3].y - ps[2].y == 0.0;
    AxisLen(sqrt, -l.fieldWidth);
    AxisLen(sqrt, l.fieldHeight + 2.0 * d);
    AxisLen(sqrt, l.fieldWidth);
  }

  /** Each cumulative length is at least the one before: segment lengths are square roots. */
  lemma StepsUp(sqrt: real -> real, lane: Lane)
    requires IsSqrt(sqrt) && Measured(sqrt, lane)
    ensures forall i :: 1 <= i < |lane.segLens| ==> lane.segLens[i - 1] <= lane.segLens[i]
  {
    forall i | 1 <= i < |lane.segLens|
      ensures lane.segLens[i - 1] <= lane.segLens[i]
    {
      var a := lane.points[i - 1];
      var b := lane.points[i];
      assert SqrtAt(sqrt, SqLen(b.x - a.x, b.y - a.y));
    }
  }

  /** A sequence that never steps down is ordered between any two positions. */
  lemma {:induction false} UpFrom(s: seq<real>, i: nat, j: nat)
    requires forall k :: 1 <= k < |s| ==> s[k - 1] <= s[k]
    requires i <= j < |s|
    ensures s[i] <= s[j]
    decreases j - i
  {
    if i < j {
      UpFrom(s, i, j - 1);
    }
  }

  /** The cumulative lengths start at 0, never decrease and end at the total. */
  lemma Monotone(sqrt: real -> real, lane: Lane)
    requires IsSqrt(sqrt) && Measured(sqrt, lane)
    ensures lane.segLens[0] == 0.0 && lane.total == lane.segLens[|lane.segLens| - 1]
    ensures forall i, j :: 0 <= i <= j < |lane.segLens| ==> lane.segLens[i] <= lane.segLens[j]
    ensures lane.total >= 0.0
  {
    StepsUp(sqrt, lane);
    forall i, j | 0 <= i <= j < |lane.segLens|
      ensures lane.segLens[i] <= lane.segLens[j]
    {
      UpFrom(lane.segLens, i, j);
    }
  }

  // ---- Positions along a lane ----

  /** `Math.min(pathOffset, 2)`: the lane a monster walks; a negative offset is not modelled. */
  function LaneIndex(pathOffset: nat): (i: nat)
    ensures i < 3
    ensures pathOffset <= 2 ==> i == pathOffset
  {
    if pathOffset < 2 then pathOffset else 2
  }

  /** `v` lies between `a` and `b`, whichever is smaller. */
  predicate Between(v: real, a: real, b: real) {
    Min(a, b) <= v <= Max(a, b)
  }

  /** A fraction of a difference lies between 0 and the difference. */
  lemma ScaleBetween(d: real, t: real)
    ensures 0.0 <= t <= 1.0 ==> Between(d * t, 0.0, d)
  {
    if 0.0 <= t <= 1.0 {
      var u := 1.0 - t;
      NonNegProduct(if d >= 0.0 then d else -d, t);
      NonNegProduct(if d >= 0.0 then d else -d, u);
      assert d - d * t == d * u;
    }
  }

  lemma NonNegProduct(a: real, b: real)
    requires a >= 0.0 && b >= 0.0
    ensures a * b >= 0.0
  {
  }

  /** Linear interpolation from `p1` to `p2`: a fraction between 0 and 1 stays on the segment. */
  function Lerp(p1: Point, p2: Point, t: real): (r: Point)
    ensures 0.0 <= t <= 1.0 ==> Between(r.x, p1.x, p2.x) && Between(r.y, p1.y, p2.y)
    ensures t == 0.0 ==> r == p1
    ensures t == 1.0 ==> r == p2
  {
    ScaleBetween(p2.x - p1.x, t);
    ScaleBetween(p2.y - p1.y, t);
    Point(p1.x + (p2.x - p1.x) * t, p1.y + (p2.y - p1.y) * t)
  }

  /**
   The search of `GetPositionAtProgress`: the first index from `i` on whose cumulative
   length reaches `progress`, or `|segLens|` when there is none.
   */
  function FirstReaching(segLens: seq<real>, progress: real, i: nat): (k: nat)
    requires 1 <= i <= |segLens|
    ensures i <= k <= |segLens|
    ensures k < |segLens| ==> progress <= segLens[k]
    ensures forall j :: i <= j < k ==> segLens[j] < progress
    decreases |segLens| - i
  {
    if i == |segLens| then |segLens|
    else if progress <= segLens[i] then i
    else FirstReaching(segLens, progress, i + 1)
  }

  /** `segIdx`: the segment before the first index reached, segment 0 when none is. */
  function SegmentIndex(segLens: seq<real>, progress: real): nat
    requires |segLens| >= 1
  {
    var k := FirstReaching(segLens, progress, 1);
    if k < |segLens| then k - 1 else 0
  }

  /**
   Strictly inside a shaped lane, the segment found ends at or after `progress` and
   starts before it, every earlier corner is passed, and so the fraction along it is in `(0, 1]`.
   */
  lemma SegmentFound(lane: Lane, progress: real)
    requires Shaped(lane) && 0.0 < progress < lane.total
    ensures var k := SegmentIndex(lane.segLens, progress);
      k + 1 < |lane.points| && lane.segLens[k] < progress <= lane.segLens[k + 1] &&
      forall j :: 0 <= j <= k ==> lane.segLens[j] < progress
  {
    var s := lane.segLens;
    var k := FirstReaching(s, progress, 1);
  }

  /** `t`: how far along segment `k` the walked distance lies. */
  function Fraction(segLens: seq<real>, k: nat, progress: real): real
    requires k + 1 < |segLens| && segLens[k] < segLens[k + 1]
  {
    (progress - segLens[k]) / (segLens[k + 1] - segLens[k])
  }

  /** A distance within a segment's span gives a fraction in `(0, 1]`, and exactly 1 at its end. */
  lemma FractionBounds(segLens: seq<real>, k: nat, progress: real)
    requires k + 1 < |segLens| && segLens[k] < progress <= segLens[k + 1]
    ensures 0.0 < Fraction(segLens, k, progress) <= 1.0
    ensures progress == segLens[k + 1] ==> Fraction(segLens, k, progress) == 1.0
  {
    var a := progress - segLens[k];
    var b := segLens[k + 1] - segLens[k];
    assert 0.0 < a <= b;
    assert a / b * b == a;
  }

  /**
   `GetPositionAtProgress`: nothing before `Init`; on the lane `min(pathOffset, 2)`,
   its first point for a distance at most 0, its last point for a distance at least its
   length, and otherwise the interpolation along the first segment that reaches the
   distance, which lies on that segment.
   */
  function GetPositionAtProgress(p: PathSystem, progress: real, pathOffset: nat): (r: Option<Point>)
    requires Valid(p)
    ensures p.lanes.None? <==> r.None?
    ensures p.lanes.Some? && progress <= 0.0 ==> r == Some(p.lanes.value[LaneIndex(pathOffset)].points[0])
    ensures p.lanes.Some? && 0.0 < progress && progress >= p.lanes.value[LaneIndex(pathOffset)].total ==>
      var ps := p.lanes.value[LaneIndex(pathOffset)].points;
      r == Some(ps[|ps| - 1])
    ensures p.lanes.Some? && 0.0 < progress < p.lanes.value[LaneIndex(pathOffset)].total ==>
      var lane := p.lanes.value[LaneIndex(pathOffset)];
      var k := SegmentIndex(lane.segLens, progress);
      k + 1 < |lane.points| && lane.segLens[k] < progress <= lane.segLens[k + 1] &&
      (forall j :: 0 <= j <= k ==> lane.segLens[j] < progress) &&
      0.0 < Fraction(lane.segLens, k, progress) <= 1.0 &&
      r == Some(Lerp(lane.points[k], lane.points[k + 1], Fraction(lane.segLens, k, progress))) &&
      Between(r.value.x, lane.points[k].x, lane.points[k + 1].x) &&
      Between(r.value.y, lane.points[k].y, lane.points[k + 1].y)
  {
    match p.lanes
    case None => None
    case Some(lanes) =>
      var lane := lanes[LaneIndex(pathOffset)];
      var ps := lane.points;
      if progress <= 0.0 then Some(ps[0])
      else if progress >= lane.total then Some(ps[|ps| - 1])
      else
        SegmentFound(lane, progress);
        var k := SegmentIndex(lane.segLens, progress);
        FractionBounds(lane.segLens, k, progress);
        Some(Lerp(ps[k], ps[k + 1], Fraction(lane.segLens, k, progress)))
  }

  /**
   On a lane whose cumulative lengths strictly increase, walking exactly to an inner
   corner puts the walker on that corner.
   */
  lemma PositionAtCorner(p: PathSystem, pathOffset: nat, j: nat)
    requires Valid(p) && p.lanes.Some?
    requires var s := p.lanes.value[LaneIndex(pathOffset)].segLens;
      forall i :: 1 <= i < |s| ==> s[i - 1] < s[i]
    requires 0 < j < |p.lanes.value[LaneIndex(pathOffset)].points| - 1
    ensures var lane := p.lanes.value[LaneIndex(pathOffset)];
      GetPositionAtProgress(p, lane.segLens[j], pathOffset) == Some(lane.points[j])
  {
    var lane := p.lanes.value[LaneIndex(pathOffset)];
    var s := lane.segLens;
    assert forall i :: 1 <= i <= j ==> s[i - 1] < s[i];
    StrictUpFrom(s, 0, j);
    StrictUpFrom(s, j, |s| - 1);
    var k := FirstReaching(s, s[j], 1);
    assert k == j by {
      if k < j {
        StrictUpFrom(s, k, j);
      }
    }
    FractionBounds(s, j - 1, s[j]);
  }

  /** A strictly increasing sequence is strictly ordered between any two distinct positions. */
  lemma {:induction false} StrictUpFrom(s: seq<real>, i: nat, j: nat)
    requires forall k :: 1 <= k < |s| ==> s[k - 1] < s[k]
    requires i <= j < |s|
    ensures i < j ==> s[i] < s[j]
    decreases j - i
  {
    if i + 1 < j {
      StrictUpFrom(s, i, j - 1);
    }
  }

  /** On the lanes `Init` builds, the segments strictly lengthen the walk when the field has an area. */
  lemma BuiltLanesIncrease(sqrt: real -> real, l: Layout, d: real, lane: Lane)
    requires IsSqrt(sqrt) && Measured(sqrt, lane) && lane.points == Corners(l, d)
    requires l.fieldWidth > 0.0 && l.fieldHeight + 2.0 * d > 0.0
    ensures forall i :: 1 <= i < |lane.segLens| ==> lane.segLens[i - 1] < lane.segLens[i]
  {
    LaneLengths(sqrt, l, d, lane);
  }

  /** `GetTotalLength`: 0 before `Init`, else the length of lane `min(pathOffset, 2)`. */
  function GetTotalLength(p: PathSystem, pathOffset: nat): (t: real)
    requires Valid(p)
    ensures p.lanes.None? ==> t == 0.0
    ensures p.lanes.Some? ==> t == p.lanes.value[LaneIndex(pathOffset)].total
  {
    match p.lanes
    case None => 0.0
    case Some(lanes) => lanes[LaneIndex(pathOffset)].total
  }

  /** `GetEndPosition`, where the base stands: the origin before `Init`, else the middle lane's last point. */
  function GetEndPosition(p: PathSystem): (e: Point)
    requires Valid(p)
    ensures p.lanes.None? ==> e == Point(0.0, 0.0)
    ensures p.lanes.Some? ==> var ps := p.lanes.value[1].points; e == ps[|ps| - 1]
  {
    match p.lanes
    case None => Point(0.0, 0.0)
    case Some(lanes) => lanes[1].points[|lanes[1].points| - 1]
  }

  /** `GetStartPosition`, where monsters appear: the origin before `Init`, else the lane's first point. */
  function GetStartPosition(p: PathSystem, pathOffset: nat): (s: Point)
    requires Valid(p)
    ensures p.lanes.None? ==> s == Point(0.0, 0.0)
    ensures p.lanes.Some? ==> s == p.lanes.value[LaneIndex(pathOffset)].points[0]
  {
    match p.lanes
    case None => Point(0.0, 0.0)
    case Some(lanes) => lanes[LaneIndex(pathOffset)].points[0]
  }

  /**
   The end of the walk: a distance at least the lane's length reaches the same point as
   the base's position on the middle lane, and any lane's end for the others.
   */
  lemma WalkEnds(p: PathSystem, pathOffset: nat, progress: real)
    requires Valid(p) && p.lanes.Some? && progress > 0.0
    requires progress >= GetTotalLength(p, pathOffset)
    ensures LaneIndex(pathOffset) == 1 ==> GetPositionAtProgress(p, progress, pathOffset) == Some(GetEndPosition(p))
    ensures GetPositionAtProgress(p, 0.0, pathOffset) == Some(GetStartPosition(p, pathOffset))
  {
  }
}
