/**
Shape polylines: cumulative distances, projection with a monotonicity floor, and interpolation.

Coordinates and metres are reals. The trigonometric and square-root functions are parameters, collected in
`Metric`; what a proof needs of them is stated by `Sane`.
*/
module Geometry {
  import opened Common

  const M_PER_DEG_LAT := 111320.0

  datatype Point = Point(lat: real, lon: real)

  datatype Metric = Metric(haversine: (Point, Point) -> real, cosLat: real -> real, root: real -> real) {
    ghost predicate Sane() {
      && (forall a, b :: haversine(a, b) >= 0.0)
      && (forall x :: x >= 0.0 ==> root(x) >= 0.0)
    }
  }

  function Clamp(x: real, lo: real, hi: real): (r: real)
    requires lo <= hi
    ensures lo <= r <= hi
    ensures lo <= x <= hi ==> r == x
  {
    MinReal(MaxReal(x, lo), hi)
  }

  // ----- one segment

  /** A point and a segment from (0, 0) to (sx, sy) in the local plane. */
  datatype Local = Local(px: real, py: real, sx: real, sy: real) {
    function LengthSquared(): real { sx * sx + sy * sy }

    function Dot(): real { px * sx + py * sy }

    /** Squared distance from the point to the segment's point at parameter t. */
    function GapSquared(t: real): real {
      (px - t * sx) * (px - t * sx) + (py - t * sy) * (py - t * sy)
    }

    /** The parameter the code projects to. */
    function Parameter(): (t: real)
      requires LengthSquared() > 0.0
      ensures 0.0 <= t <= 1.0
    {
      Clamp(Dot() / LengthSquared(), 0.0, 1.0)
    }
  }

  function ToLocal(m: Metric, p: Point, a: Point, b: Point): Local {
    var kLon := M_PER_DEG_LAT * m.cosLat((a.lat + b.lat) / 2.0);
    Local((p.lon - a.lon) * kLon, (p.lat - a.lat) * M_PER_DEG_LAT, (b.lon - a.lon) * kLon,
          (b.lat - a.lat) * M_PER_DEG_LAT)
  }

  /** Length of a segment in the local plane; points closer than a micrometre count as one. */
  function PlanarLength(m: Metric, a: Point, b: Point): real {
    var s := ToLocal(m, a, a, b).LengthSquared();
    if s <= 0.000000000001 then 0.0 else m.root(s)
  }

  /** Distance along the segment and perpendicular offset. */
  function ProjectToSegment(m: Metric, p: Point, a: Point, b: Point): (real, real) {
    var q := ToLocal(m, p, a, b);
    if q.LengthSquared() <= 0.000000000001 then (0.0, m.root(q.GapSquared(0.0)))
    else (q.Parameter() * m.root(q.LengthSquared()), m.root(q.GapSquared(q.Parameter())))
  }

  lemma AlongWithinSegment(m: Metric, p: Point, a: Point, b: Point)
    requires m.Sane()
    ensures 0.0 <= ProjectToSegment(m, p, a, b).0 <= PlanarLength(m, a, b)
  {
    hide Local.LengthSquared, Local.Parameter, Local.GapSquared, ToLocal;
    var q := ToLocal(m, p, a, b);
    SpanSame(m, p, a, b);
    if q.LengthSquared() > 0.000000000001 {
      var t, length := q.Parameter(), m.root(q.LengthSquared());
      PartOfLength(t, length);
      assert ProjectToSegment(m, p, a, b).0 == t * length;
      assert PlanarLength(m, a, b) == length;
    }
  }

  lemma SpanSame(m: Metric, p: Point, a: Point, b: Point)
    ensures ToLocal(m, p, a, b).LengthSquared() == ToLocal(m, a, a, b).LengthSquared()
  {
  }

  lemma PartOfLength(t: real, length: real)
    requires 0.0 <= t <= 1.0 && length >= 0.0
    ensures 0.0 <= t * length <= length
  {
  }

  /** Expanding the squared gap around two parameters. */
  lemma GapDifference(q: Local, t: real, u: real)
    ensures q.GapSquared(u) - q.GapSquared(t)
         == (u - t) * ((u + t) * q.LengthSquared() - 2.0 * q.Dot())
  {
    GapExpanded(q.px, q.sx, t, u);
    GapExpanded(q.py, q.sy, t, u);
    Factored(u - t, u + t, q.sx * q.sx, q.sy * q.sy, q.px * q.sx, q.py * q.sy);
  }

  lemma Factored(f: real, h: real, xx: real, yy: real, px: real, py: real)
    ensures f * (h * xx - 2.0 * px) + f * (h * yy - 2.0 * py) == f * (h * (xx + yy) - 2.0 * (px + py))
  {
    assert h * (xx + yy) == h * xx + h * yy;
  }

  lemma GapExpanded(p: real, s: real, t: real, u: real)
    ensures (p - u * s) * (p - u * s) - (p - t * s) * (p - t * s) == (u - t) * ((u + t) * (s * s) - 2.0 * (p * s))
  {
    assert (p - u * s) * (p - u * s) == p * p - 2.0 * (u * (p * s)) + (u * u) * (s * s);
    assert (p - t * s) * (p - t * s) == p * p - 2.0 * (t * (p * s)) + (t * t) * (s * s);
    assert (u - t) * ((u + t) * (s * s)) == (u * u) * (s * s) - (t * t) * (s * s);
    assert (u - t) * (2.0 * (p * s)) == 2.0 * (u * (p * s)) - 2.0 * (t * (p * s));
  }

  /** The projection parameter is the nearest of all points of the segment. */
  lemma ParameterIsNearest(q: Local, u: real)
    requires q.LengthSquared() > 0.0 && 0.0 <= u <= 1.0
    ensures q.GapSquared(q.Parameter()) <= q.GapSquared(u)
  {
    var s, d, t := q.LengthSquared(), q.Dot(), q.Parameter();
    hide Local.LengthSquared, Local.Dot, Local.GapSquared;
    GapDifference(q, t, u);
    NearestSign(s, d, t, u);
  }

  lemma NearestSign(s: real, d: real, t: real, u: real)
    requires s > 0.0 && 0.0 <= u <= 1.0 && t == Clamp(d / s, 0.0, 1.0)
    ensures (u - t) * ((u + t) * s - 2.0 * d) >= 0.0
  {
    var r := d / s;
    assert r * s == d;
    assert (u + t) * s - 2.0 * d == (u + t - 2.0 * r) * s;
    if r < 0.0 {
      assert u * ((u - 2.0 * r) * s) >= 0.0;
    } else if r > 1.0 {
      assert (u + 1.0 - 2.0 * r) * s <= 0.0;
      assert (u - 1.0) * ((u + 1.0 - 2.0 * r) * s) >= 0.0;
    } else {
      assert (u - r) * ((u - r) * s) == ((u - r) * (u - r)) * s;
      assert (u - r) * (u - r) >= 0.0;
    }
  }

  // ----- a polyline

  datatype Shape = Shape(points: seq<Point>, cumulative: seq<real>) {
    ghost predicate Valid(m: Metric) {
      && |points| >= 2 && |cumulative| == |points| && cumulative[0] == 0.0
      && (forall i :: 0 <= i < |points| - 1 ==>
            cumulative[i + 1] == cumulative[i] + m.haversine(points[i], points[i + 1]))
    }

    function Total(): real
      requires cumulative != []
    {
      cumulative[|cumulative| - 1]
    }
  }

  lemma TotalNonNegative(m: Metric, s: Shape)
    requires m.Sane() && s.Valid(m)
    ensures s.cumulative != [] && s.Total() >= 0.0
  {
    CumulativeOrdered(m, s, 0, |s.points| - 1);
  }

  /** None stands for the constructor's ValueError. */
  method BuildShape(m: Metric, points: seq<Point>) returns (r: Option<Shape>)
    ensures r.None? <==> |points| < 2
    ensures r.Some? ==> r.value.points == points && r.value.Valid(m)
  {
    if |points| < 2 {
      return None;
    }
    var cumulative := [0.0];
    for i := 0 to |points| - 1
      invariant |cumulative| == i + 1 && cumulative[0] == 0.0
      invariant forall j :: 0 <= j < i ==> cumulative[j + 1] == cumulative[j] + m.haversine(points[j], points[j + 1])
    {
      cumulative := cumulative + [cumulative[i] + m.haversine(points[i], points[i + 1])];
    }
    return Some(Shape(points, cumulative));
  }

  lemma {:induction false} CumulativeOrdered(m: Metric, s: Shape, i: nat, j: nat)
    requires m.Sane() && s.Valid(m) && i <= j < |s.points|
    ensures 0.0 <= s.cumulative[i] <= s.cumulative[j] <= s.Total()
    decreases j, |s.points| - i
  {
    if i < j {
      CumulativeOrdered(m, s, i, j - 1);
      assert s.cumulative[j] == s.cumulative[j - 1] + m.haversine(s.points[j - 1], s.points[j]);
    } else if i > 0 {
      CumulativeOrdered(m, s, 0, i - 1);
      assert s.cumulative[i] == s.cumulative[i - 1] + m.haversine(s.points[i - 1], s.points[i]);
    }
    CumulativeBelowTotal(m, s, j);
  }

  lemma {:induction false} CumulativeBelowTotal(m: Metric, s: Shape, j: nat)
    requires m.Sane() && s.Valid(m) && j < |s.points|
    ensures s.cumulative[j] <= s.Total()
    decreases |s.points| - j
  {
    if j < |s.points| - 1 {
      assert s.cumulative[j + 1] == s.cumulative[j] + m.haversine(s.points[j], s.points[j + 1]);
      CumulativeBelowTotal(m, s, j + 1);
    }
  }

  datatype Projection = Projection(along: real, offset: real, segment: nat)

  /** The point at parameter t of segment i. */
  function OnSegment(s: Shape, i: nat, t: real): Point
    requires i + 1 < |s.points|
  {
    var a, b := s.points[i], s.points[i + 1];
    Point(a.lat + (b.lat - a.lat) * t, a.lon + (b.lon - a.lon) * t)
  }

  /** The parameter at which segment i reaches the floor. */
  function FloorShare(s: Shape, floor: real, i: nat): real
    requires i + 1 < |s.cumulative|
  {
    Clamp((floor - s.cumulative[i]) / MaxReal(s.cumulative[i + 1] - s.cumulative[i], 0.000000001), 0.0, 1.0)
  }

  /** What segment i offers: its nearest point, moved up to the floor when it lies below it. */
  function Candidate(m: Metric, s: Shape, p: Point, floor: real, i: nat): Projection
    requires i + 1 < |s.points| && |s.cumulative| == |s.points|
  {
    var a, b := s.points[i], s.points[i + 1];
    var (along, offset) := ProjectToSegment(m, p, a, b);
    if s.cumulative[i] + along < floor then
      Projection(floor, m.haversine(p, OnSegment(s, i, FloorShare(s, floor, i))), i)
    else Projection(s.cumulative[i] + along, offset, i)
  }

  /** Segment i reaches the floor. */
  predicate Eligible(s: Shape, floor: real, i: nat)
    requires i + 1 < |s.cumulative|
  {
    s.cumulative[i + 1] >= floor
  }

  /** `r` is the first of the nearest candidates on eligible segments. */
  ghost predicate Projects(m: Metric, s: Shape, p: Point, floor: real, r: Projection)
    requires |s.cumulative| == |s.points| >= 2
  {
    && r.segment + 1 < |s.points| && Eligible(s, floor, r.segment) && r == Candidate(m, s, p, floor, r.segment)
    && (forall i: nat :: i + 1 < |s.points| && Eligible(s, floor, i) ==>
          && r.offset <= Candidate(m, s, p, floor, i).offset
          && (i < r.segment ==> r.offset < Candidate(m, s, p, floor, i).offset))
  }

  /**
  Projects a point at or beyond a floor. None stands for the code's assertion failing, which it does exactly
  when the floor lies beyond the end of the shape.
  */
  method Project(m: Metric, s: Shape, p: Point, floor: real) returns (best: Option<Projection>)
    requires m.Sane() && s.Valid(m)
    ensures best.None? <==> floor > s.Total()
    ensures best.Some? ==> Projects(m, s, p, floor, best.value) && best.value.along >= floor
  {
    hide Candidate;
    best := None;
    for i := 0 to |s.points| - 1
      invariant best.None? ==> forall j: nat :: j < i ==> !Eligible(s, floor, j)
      invariant best.Some? ==>
                  && best.value.segment < i && Eligible(s, floor, best.value.segment)
                  && best.value == Candidate(m, s, p, floor, best.value.segment)
                  && forall j: nat :: j < i && Eligible(s, floor, j) ==>
                       best.value.offset <= Candidate(m, s, p, floor, j).offset
                       && (j < best.value.segment ==> best.value.offset < Candidate(m, s, p, floor, j).offset)
    {
      if s.cumulative[i + 1] < floor {
        continue;
      }
      var c := Candidate(m, s, p, floor, i);
      CandidateAtFloor(m, s, p, floor, i);
      if best.None? || c.offset < best.value.offset {
        best := Some(c);
      }
    }
    if best.None? {
      assert !Eligible(s, floor, |s.points| - 2);
    } else {
      CumulativeBelowTotal(m, s, best.value.segment + 1);
      CandidateAtFloor(m, s, p, floor, best.value.segment);
    }
  }

  lemma CandidateAtFloor(m: Metric, s: Shape, p: Point, floor: real, i: nat)
    requires i + 1 < |s.points| && |s.cumulative| == |s.points|
    ensures Candidate(m, s, p, floor, i).along >= floor && Candidate(m, s, p, floor, i).segment == i
  {
    hide ProjectToSegment;
  }

  lemma ProjectionUnique(m: Metric, s: Shape, p: Point, floor: real, q: Projection, r: Projection)
    requires |s.cumulative| == |s.points| >= 2 && Projects(m, s, p, floor, q) && Projects(m, s, p, floor, r)
    ensures q == r
  {
    assert Eligible(s, floor, q.segment) && Eligible(s, floor, r.segment);
  }

  ghost predicate Increasing(root: real -> real) {
    forall x, y :: 0.0 <= x <= y ==> root(x) <= root(y)
  }

  /** The planar gap between a point and the point at parameter u of segment i. */
  function GapAt(m: Metric, s: Shape, p: Point, i: nat, u: real): real
    requires i + 1 < |s.points|
  {
    m.root(ToLocal(m, p, s.points[i], s.points[i + 1]).GapSquared(u))
  }

  /** With floor 0 every segment is eligible and offers its nearest point. */
  lemma UnrestrictedCandidate(m: Metric, s: Shape, p: Point, i: nat)
    requires m.Sane() && s.Valid(m) && i + 1 < |s.points|
    ensures var (along, offset) := ProjectToSegment(m, p, s.points[i], s.points[i + 1]);
            Candidate(m, s, p, 0.0, i) == Projection(s.cumulative[i] + along, offset, i) && Eligible(s, 0.0, i)
  {
    AlongWithinSegment(m, p, s.points[i], s.points[i + 1]);
    CumulativeOrdered(m, s, i, i + 1);
    hide ProjectToSegment;
  }

  /** An unrestricted projection is the closest position: no point of any segment is closer in the plane. */
  lemma ProjectionIsClosest(m: Metric, s: Shape, p: Point, r: Projection, i: nat, u: real)
    requires m.Sane() && Increasing(m.root) && s.Valid(m) && Projects(m, s, p, 0.0, r)
    requires i + 1 < |s.points| && 0.0 <= u <= 1.0
    requires ToLocal(m, p, s.points[i], s.points[i + 1]).LengthSquared() <= 0.000000000001 ==> u == 0.0
    ensures r.offset <= GapAt(m, s, p, i, u)
  {
    var a, b := s.points[i], s.points[i + 1];
    UnrestrictedCandidate(m, s, p, i);
    assert r.offset <= Candidate(m, s, p, 0.0, i).offset == ProjectToSegment(m, p, a, b).1;
    SegmentIsClosest(m, ToLocal(m, p, a, b), u);
  }

  lemma SegmentIsClosest(m: Metric, q: Local, u: real)
    requires Increasing(m.root) && 0.0 <= u <= 1.0
    ensures q.LengthSquared() > 0.0 ==> m.root(q.GapSquared(q.Parameter())) <= m.root(q.GapSquared(u))
  {
    if q.LengthSquared() > 0.0 {
      GapNonNegative(q, q.Parameter());
      ParameterIsNearest(q, u);
    }
  }

  lemma GapNonNegative(q: Local, t: real)
    ensures q.GapSquared(t) >= 0.0
  {
    var x, y := q.px - t * q.sx, q.py - t * q.sy;
    assert x * x >= 0.0 && y * y >= 0.0;
  }

  /** No planar segment, laid from its start, reaches past the end of the shape. */
  ghost predicate PlanarWithin(m: Metric, s: Shape)
    requires s.Valid(m)
  {
    forall i :: 0 <= i < |s.points| - 1 ==> s.cumulative[i] + PlanarLength(m, s.points[i], s.points[i + 1]) <= s.Total()
  }

  /** Then a projection never runs past the end of the shape. */
  lemma ProjectionWithinShape(m: Metric, s: Shape, p: Point, floor: real, r: Projection)
    requires m.Sane() && s.Valid(m) && PlanarWithin(m, s) && Projects(m, s, p, floor, r)
    ensures r.along <= s.Total()
  {
    var i := r.segment;
    AlongWithinSegment(m, p, s.points[i], s.points[i + 1]);
    CumulativeBelowTotal(m, s, i + 1);
  }

  lemma FarEndProjectsToEnd(m: Metric, a: Point, b: Point)
    requires m.Sane()
    ensures ProjectToSegment(m, b, a, b).0 == PlanarLength(m, a, b)
  {
    var q := ToLocal(m, b, a, b);
    SpanSame(m, b, a, b);
    if q.LengthSquared() > 0.0 {
      EndParameter(q);
    }
    hide Local.LengthSquared, Local.Parameter, Local.GapSquared, ToLocal;
  }

  lemma EndParameter(q: Local)
    requires q.px == q.sx && q.py == q.sy && q.LengthSquared() > 0.0
    ensures q.Parameter() == 1.0
  {
    assert q.Dot() == q.LengthSquared();
    hide Local.Dot, Local.LengthSquared;
  }

  /** The end of the last segment is closer to that segment than to every other. */
  ghost predicate EndStandsAlone(m: Metric, s: Shape)
    requires |s.points| >= 2
  {
    forall i :: 0 <= i < |s.points| - 2 ==> Offset(m, s, i) > Offset(m, s, |s.points| - 2)
  }

  /** How far the end of the shape is from segment i. */
  function Offset(m: Metric, s: Shape, i: nat): real
    requires i + 1 < |s.points|
  {
    ProjectToSegment(m, s.points[|s.points| - 1], s.points[i], s.points[i + 1]).1
  }

  /**
  The end of such a shape projects past the end exactly when the planar length of the last segment exceeds its
  great-circle length.
  */
  lemma EndOverrunsIff(m: Metric, s: Shape)
    requires m.Sane() && s.Valid(m) && EndStandsAlone(m, s)
    ensures var last := |s.points| - 2;
            (exists r :: Projects(m, s, s.points[last + 1], 0.0, r) && r.along > s.Total())
            <==> PlanarLength(m, s.points[last], s.points[last + 1]) > m.haversine(s.points[last], s.points[last + 1])
  {
    var last := |s.points| - 2;
    var p, a, b := s.points[last + 1], s.points[last], s.points[last + 1];
    var r := Candidate(m, s, p, 0.0, last);
    hide Candidate, ProjectToSegment, PlanarLength, Metric.Sane;
    forall i: nat | i + 1 < |s.points|
      ensures Candidate(m, s, p, 0.0, i).offset == Offset(m, s, i) && Eligible(s, 0.0, i)
    {
      UnrestrictedCandidate(m, s, p, i);
    }
    UnrestrictedCandidate(m, s, p, last);
    CandidateAtFloor(m, s, p, 0.0, last);
    FarEndProjectsToEnd(m, a, b);
    assert Projects(m, s, p, 0.0, r);
    assert r.along == s.cumulative[last] + PlanarLength(m, a, b);
    forall q | Projects(m, s, p, 0.0, q) ensures q == r {
      ProjectionUnique(m, s, p, 0.0, q, r);
    }
  }

  /** On a one-segment shape, some point projects past the end exactly when the planar length is the longer one. */
  lemma OverrunIff(m: Metric, s: Shape)
    requires m.Sane() && s.Valid(m) && |s.points| == 2
    ensures PlanarLength(m, s.points[0], s.points[1]) > s.Total()
       <==> exists p, r :: Projects(m, s, p, 0.0, r) && r.along > s.Total()
  {
    EndOverrunsIff(m, s);
    hide Projects;
    if p, r :| Projects(m, s, p, 0.0, r) && r.along > s.Total() {
      if PlanarWithin(m, s) {
        ProjectionWithinShape(m, s, p, 0.0, r);
      }
    }
  }

  /** The point is on the polyline exactly `target` metres along. */
  ghost predicate LiesAt(s: Shape, target: real, point: Point, i: nat, t: real)
    requires |s.cumulative| == |s.points|
  {
    && i + 1 < |s.points| && 0.0 <= t <= 1.0
    && var a, b := s.points[i], s.points[i + 1];
    && point == Point(a.lat + (b.lat - a.lat) * t, a.lon + (b.lon - a.lon) * t)
    && s.cumulative[i] + t * (s.cumulative[i + 1] - s.cumulative[i]) == target
  }

  ghost predicate LiesOn(s: Shape, target: real, point: Point)
    requires |s.cumulative| == |s.points|
  {
    exists i, t :: LiesAt(s, target, point, i, t)
  }

  /** Interpolates at a distance clamped to the shape; the result lies exactly that far along it. */
  method PointAt(m: Metric, s: Shape, distance: real) returns (point: Point)
    requires m.Sane() && s.Valid(m)
    ensures s.Total() >= 0.0 && LiesOn(s, Clamp(distance, 0.0, s.Total()), point)
  {
    CumulativeOrdered(m, s, 0, 0);
    var target := Clamp(distance, 0.0, s.Total());
    for k := 0 to |s.cumulative| - 1
      invariant s.cumulative[k] <= target
    {
      if s.cumulative[k + 1] >= target {
        var length := s.cumulative[k + 1] - s.cumulative[k];
        var u := if length <= 0.0 then 0.0 else (target - s.cumulative[k]) / length;
        FractionBounds(target - s.cumulative[k], length);
        point := OnSegment(s, k, u);
        assert LiesAt(s, target, point, k, u);
        return;
      }
    }
    point := s.points[|s.points| - 1];
    assert LiesAt(s, target, point, |s.points| - 2, 1.0);
  }

  /** Below the floor a candidate is measured, along the great circle, to the place on its segment at the floor. */
  lemma BelowFloor(m: Metric, s: Shape, p: Point, floor: real, i: nat) returns (place: Point, t: real)
    requires m.Sane() && s.Valid(m) && i + 1 < |s.points| && Eligible(s, floor, i)
    requires s.cumulative[i] + ProjectToSegment(m, p, s.points[i], s.points[i + 1]).0 < floor
    requires s.cumulative[i + 1] - s.cumulative[i] >= 0.000000001
    ensures LiesAt(s, floor, place, i, t)
    ensures Candidate(m, s, p, floor, i) == Projection(floor, m.haversine(p, place), i)
  {
    AlongWithinSegment(m, p, s.points[i], s.points[i + 1]);
    hide ProjectToSegment, Metric.Sane, Shape.Valid, LiesAt, FloorShare, OnSegment, Candidate;
    t := FloorShare(s, floor, i);
    place := OnSegment(s, i, t);
    FloorLiesAt(s, floor, i);
    CandidateBelow(m, s, p, floor, i);
  }

  lemma CandidateBelow(m: Metric, s: Shape, p: Point, floor: real, i: nat)
    requires |s.cumulative| == |s.points| && i + 1 < |s.points|
    requires s.cumulative[i] + ProjectToSegment(m, p, s.points[i], s.points[i + 1]).0 < floor
    ensures var place := OnSegment(s, i, FloorShare(s, floor, i));
            Candidate(m, s, p, floor, i) == Projection(floor, m.haversine(p, place), i)
  {
    hide ProjectToSegment, OnSegment, FloorShare;
  }

  lemma FloorShareIs(s: Shape, floor: real, i: nat)
    requires i + 1 < |s.cumulative| && s.cumulative[i] <= floor <= s.cumulative[i + 1]
    requires s.cumulative[i + 1] - s.cumulative[i] >= 0.000000001
    ensures var t := FloorShare(s, floor, i);
            0.0 <= t <= 1.0 && t * (s.cumulative[i + 1] - s.cumulative[i]) == floor - s.cumulative[i]
  {
    FractionBounds(floor - s.cumulative[i], s.cumulative[i + 1] - s.cumulative[i]);
  }

  lemma FloorLiesAt(s: Shape, floor: real, i: nat)
    requires |s.cumulative| == |s.points| && i + 1 < |s.points| && s.cumulative[i] <= floor <= s.cumulative[i + 1]
    requires s.cumulative[i + 1] - s.cumulative[i] >= 0.000000001
    ensures LiesAt(s, floor, OnSegment(s, i, FloorShare(s, floor, i)), i, FloorShare(s, floor, i))
  {
    FloorShareIs(s, floor, i);
    hide FloorShare;
  }

  /** The point at parameter u of the segment is that far along it and that far from p. */
  ghost predicate AttainedAt(m: Metric, p: Point, a: Point, b: Point, along: real, offset: real, u: real) {
    && 0.0 <= u <= 1.0 && along == u * PlanarLength(m, a, b)
    && offset == m.root(ToLocal(m, p, a, b).GapSquared(u))
  }

  /** An unrestricted projection is attained: its offset and its distance belong to one point of its segment. */
  lemma ProjectionAttained(m: Metric, s: Shape, p: Point, r: Projection) returns (u: real)
    requires m.Sane() && s.Valid(m) && Projects(m, s, p, 0.0, r)
    ensures AttainedAt(m, p, s.points[r.segment], s.points[r.segment + 1], r.along - s.cumulative[r.segment], r.offset,
                       u)
  {
    UnrestrictedCandidate(m, s, p, r.segment);
    hide AttainedAt, ProjectToSegment, Candidate, Metric.Sane, Shape.Valid;
    u := SegmentAttained(m, p, s.points[r.segment], s.points[r.segment + 1]);
  }

  lemma SegmentAttained(m: Metric, p: Point, a: Point, b: Point) returns (u: real)
    ensures var (along, offset) := ProjectToSegment(m, p, a, b); AttainedAt(m, p, a, b, along, offset, u)
  {
    var q := ToLocal(m, p, a, b);
    SpanSame(m, p, a, b);
    u := if q.LengthSquared() <= 0.000000000001 then 0.0 else q.Parameter();
    hide Local.LengthSquared, Local.Parameter, Local.GapSquared, ToLocal;
  }

  /** The plane is in metres: 111320 to a degree of latitude, and that times the cosine to a degree of longitude. */
  lemma PlaneInMetres(m: Metric, p: Point, a: Point, b: Point)
    ensures var q, k := ToLocal(m, p, a, b), M_PER_DEG_LAT * m.cosLat((a.lat + b.lat) / 2.0);
            && q.LengthSquared() == Squares(b.lat - a.lat, b.lon - a.lon, k)
            && q.GapSquared(0.0) == Squares(p.lat - a.lat, p.lon - a.lon, k)
  {
  }

  /** Squared metres of a step of that many degrees, k metres to a degree of longitude. */
  function Squares(lat: real, lon: real, k: real): real {
    (lat * 111320.0) * (lat * 111320.0) + (lon * k) * (lon * k)
  }

  lemma FractionBounds(x: real, length: real)
    requires 0.0 <= x <= length
    ensures var t := if length <= 0.0 then 0.0 else x / length; 0.0 <= t <= 1.0 && t * length == x
  {
  }
}
