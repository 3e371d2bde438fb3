/**
A trip's stops along its shape, and four independent readers of them: the locator, the ETA engine, the
list of remaining stations, and the timetable interpolator.
*/
module Trips {
  import opened Common
  import opened Geometry

  datatype Stop = Stop(
    stopId: string, name: string, sequence: int, at: Point, arrival: int, departure: int, distance: real)

  /** A stop_times row joined with its stop, before distances are known. */
  datatype Call = Call(stopId: string, name: string, sequence: int, at: Point, arrival: int, departure: int)

  ghost predicate Ordered(stops: seq<Stop>) {
    forall i, j :: 0 <= i <= j < |stops| ==> stops[i].distance <= stops[j].distance
  }

  ghost predicate Distinct(stops: seq<Stop>) {
    forall i, j :: 0 <= i < j < |stops| ==> stops[i] != stops[j]
  }

  // ----- distances along the trip

  /** Stop i's distance: projected at or beyond the previous stop's, or without a shape the summed straight line. */
  ghost predicate DistanceOf(m: Metric, shape: Option<Shape>, stops: seq<Stop>, i: nat)
    requires i < |stops| && (shape.Some? ==> shape.value.Valid(m))
  {
    var floor := if i == 0 then 0.0 else stops[i - 1].distance;
    match shape
    case Some(s) => exists r :: Projects(m, s, stops[i].at, floor, r) && r.along == stops[i].distance
    case None => stops[i].distance == (if i == 0 then 0.0 else floor + m.haversine(stops[i - 1].at, stops[i].at))
  }

  function Placed(c: Call, distance: real): Stop {
    Stop(c.stopId, c.name, c.sequence, c.at, c.arrival, c.departure, distance)
  }

  /** The stops are the first of the calls, each at its distance. */
  ghost predicate PlacedAs(m: Metric, calls: seq<Call>, shape: Option<Shape>, stops: seq<Stop>)
    requires shape.Some? ==> shape.value.Valid(m)
  {
    && |stops| <= |calls|
    && (forall i :: 0 <= i < |stops| ==>
          var c := calls[i];
          stops[i] == Stop(c.stopId, c.name, c.sequence, c.at, c.arrival, c.departure, stops[i].distance))
    && (forall i :: 0 <= i < |stops| ==> DistanceOf(m, shape, stops, i))
  }

  /** Some but not all calls are placed, the last of them past the end of the shape. */
  ghost predicate Overruns(m: Metric, calls: seq<Call>, shape: Shape, stops: seq<Stop>)
    requires shape.Valid(m)
  {
    && 0 < |stops| < |calls| && PlacedAs(m, calls, Some(shape), stops)
    && stops[|stops| - 1].distance > shape.Total()
  }

  /**
  Places every call. None stands for the projection's failing assertion, met exactly when an earlier call is placed
  past the end of the shape.
  */
  method BuildStopSequence(m: Metric, calls: seq<Call>, shape: Option<Shape>) returns (r: Option<seq<Stop>>)
    requires m.Sane() && (shape.Some? ==> shape.value.Valid(m))
    ensures r.None? <==> shape.Some? && exists stops :: Overruns(m, calls, shape.value, stops)
    ensures r.Some? ==> |r.value| == |calls| && PlacedAs(m, calls, shape, r.value) && Ordered(r.value)
    ensures r.Some? ==> forall i :: 0 <= i < |calls| ==> r.value[i].distance >= 0.0
    ensures r.Some? && shape.Some? ==> forall i :: 0 <= i < |calls| - 1 ==> r.value[i].distance <= shape.value.Total()
  {
    var stops: seq<Stop>, floor := [], 0.0;
    if shape.Some? { TotalNonNegative(m, shape.value); }
    for n := 0 to |calls|
      invariant |stops| == n && floor == (if n == 0 then 0.0 else stops[n - 1].distance) && floor >= 0.0
      invariant PlacedAs(m, calls, shape, stops) && Ordered(stops)
      invariant forall i :: 0 <= i < n ==> stops[i].distance >= 0.0
      invariant shape.Some? ==> forall i :: 0 <= i < n - 1 ==> stops[i].distance <= shape.value.Total()
    {
      hide Projects, PlacedAs, Ordered;
      var distance := 0.0;
      if shape.Some? {
        var projection := Project(m, shape.value, calls[n].at, floor);
        if projection.None? {
          assert Overruns(m, calls, shape.value, stops);
          return None;
        }
        distance := projection.value.along;
      } else if n > 0 {
        distance := floor + m.haversine(calls[n - 1].at, calls[n].at);
      }
      assert DistanceOf(m, shape, stops + [Placed(calls[n], distance)], n);
      PlacedNext(m, calls, shape, stops, distance);
      stops := stops + [Placed(calls[n], distance)];
      floor := distance;
    }
    if shape.Some? {
      NoPrefixOverruns(m, calls, shape.value, stops);
    }
    return Some(stops);
  }

  lemma NoPrefixOverruns(m: Metric, calls: seq<Call>, s: Shape, stops: seq<Stop>)
    requires s.Valid(m) && PlacedAs(m, calls, Some(s), stops) && |stops| == |calls|
    requires forall i :: 0 <= i < |calls| - 1 ==> stops[i].distance <= s.Total()
    ensures forall p :: !Overruns(m, calls, s, p)
  {
    hide PlacedAs, DistanceOf;
    forall p ensures !Overruns(m, calls, s, p) {
      if Overruns(m, calls, s, p) {
        PlacedOnce(m, calls, Some(s), p, stops, |p|);
      }
    }
  }

  /** One more call placed. */
  lemma PlacedNext(m: Metric, calls: seq<Call>, shape: Option<Shape>, stops: seq<Stop>, distance: real)
    requires shape.Some? ==> shape.value.Valid(m)
    requires PlacedAs(m, calls, shape, stops) && Ordered(stops) && |stops| < |calls|
    requires stops != [] ==> stops[|stops| - 1].distance <= distance
    requires DistanceOf(m, shape, stops + [Placed(calls[|stops|], distance)], |stops|)
    ensures var longer := stops + [Placed(calls[|stops|], distance)];
            PlacedAs(m, calls, shape, longer) && Ordered(longer)
  {
    hide DistanceOf;
    var longer := stops + [Placed(calls[|stops|], distance)];
    forall i | 0 <= i < |stops| ensures DistanceOf(m, shape, longer, i) {
      DistanceKept(m, shape, stops, longer, i);
    }
  }

  /** There is only one way to place the calls. */
  lemma {:induction false} PlacedOnce(m: Metric, calls: seq<Call>, shape: Option<Shape>, p: seq<Stop>, q: seq<Stop>,
                                      n: nat)
    requires shape.Some? ==> shape.value.Valid(m)
    requires PlacedAs(m, calls, shape, p) && PlacedAs(m, calls, shape, q) && n <= |p| && n <= |q|
    ensures p[..n] == q[..n]
  {
    if n > 0 {
      PlacedOnce(m, calls, shape, p, q, n - 1);
      assert forall i :: 0 <= i < n - 1 ==> p[..n - 1][i] == p[i] && q[..n - 1][i] == q[i];
      hide Projects;
      assert DistanceOf(m, shape, p, n - 1) && DistanceOf(m, shape, q, n - 1);
      hide DistanceOf;
      assert n > 1 ==> p[n - 2] == q[n - 2];
      assert p[n - 1].at == q[n - 1].at == calls[n - 1].at;
      DistanceOnce(m, shape, p, q, n - 1);
    }
  }

  lemma DistanceOnce(m: Metric, shape: Option<Shape>, p: seq<Stop>, q: seq<Stop>, i: nat)
    requires shape.Some? ==> shape.value.Valid(m)
    requires i < |p| && i < |q| && DistanceOf(m, shape, p, i) && DistanceOf(m, shape, q, i)
    requires p[i].at == q[i].at && (i > 0 ==> p[i - 1] == q[i - 1])
    ensures p[i].distance == q[i].distance
  {
    hide Projects;
    if shape.Some? {
      var floor := if i == 0 then 0.0 else p[i - 1].distance;
      var r :| Projects(m, shape.value, p[i].at, floor, r) && r.along == p[i].distance;
      var t :| Projects(m, shape.value, q[i].at, floor, t) && t.along == q[i].distance;
      ProjectionUnique(m, shape.value, p[i].at, floor, r, t);
    }
  }

  /** No call is placed past the end of a shape whose planar segments stay within it. */
  lemma NoOverrun(m: Metric, calls: seq<Call>, s: Shape, stops: seq<Stop>)
    requires m.Sane() && s.Valid(m) && PlanarWithin(m, s)
    ensures !Overruns(m, calls, s, stops)
  {
    if Overruns(m, calls, s, stops) {
      var last := |stops| - 1;
      var floor := if last == 0 then 0.0 else stops[last - 1].distance;
      assert DistanceOf(m, Some(s), stops, last);
      var r :| Projects(m, s, stops[last].at, floor, r) && r.along == stops[last].distance;
      ProjectionWithinShape(m, s, stops[last].at, floor, r);
    }
  }

  /** The failing family: a first call at the end of a shape whose last planar segment is too long, then any other. */
  lemma EndFirstOverruns(m: Metric, calls: seq<Call>, s: Shape)
    requires m.Sane() && s.Valid(m) && EndStandsAlone(m, s) && |calls| >= 2
    requires var last := |s.points| - 2;
             && calls[0].at == s.points[last + 1]
             && PlanarLength(m, s.points[last], s.points[last + 1]) > m.haversine(s.points[last], s.points[last + 1])
    ensures exists stops :: Overruns(m, calls, s, stops)
  {
    EndOverrunsIff(m, s);
    hide Projects;
    var r :| Projects(m, s, calls[0].at, 0.0, r) && r.along > s.Total();
    var stops := [Placed(calls[0], r.along)];
    assert DistanceOf(m, Some(s), stops, 0);
    assert Overruns(m, calls, s, stops);
  }

  lemma DistanceKept(m: Metric, shape: Option<Shape>, stops: seq<Stop>, longer: seq<Stop>, i: nat)
    requires i < |stops| && stops <= longer && (shape.Some? ==> shape.value.Valid(m)) && DistanceOf(m, shape, stops, i)
    ensures DistanceOf(m, shape, longer, i)
  {
    hide Projects;
    assert longer[i] == stops[i] && (i > 0 ==> longer[i - 1] == stops[i - 1]);
  }

  // ----- the locator

  /** First stop from i on within the radius of a distance along the shape; |stops| when none. */
  function FirstWithin(stops: seq<Stop>, distance: real, radius: real, i: nat): (r: nat)
    requires i <= |stops|
    ensures i <= r <= |stops|
    ensures forall j :: i <= j < r ==> !Within(stops[j], distance, radius)
    ensures r < |stops| ==> Within(stops[r], distance, radius)
    decreases |stops| - i
  {
    if i == |stops| || Within(stops[i], distance, radius) then i else FirstWithin(stops, distance, radius, i + 1)
  }

  predicate Within(stop: Stop, distance: real, radius: real) {
    -radius <= stop.distance - distance <= radius
  }

  /** First stop from i on beyond a distance; |stops| when none. */
  function FirstBeyond(stops: seq<Stop>, distance: real, i: nat): (r: nat)
    requires i <= |stops|
    ensures i <= r <= |stops|
    ensures forall j :: i <= j < r ==> stops[j].distance <= distance
    ensures r < |stops| ==> stops[r].distance > distance
    decreases |stops| - i
  {
    if i == |stops| || stops[i].distance > distance then i else FirstBeyond(stops, distance, i + 1)
  }

  /** (current, next, at station). */
  datatype Fix = Fix(current: Option<Stop>, next: Option<Stop>, atStation: bool)

  function StopAt(stops: seq<Stop>, i: int): Option<Stop> {
    if 0 <= i < |stops| then Some(stops[i]) else None
  }

  method LocateByDistance(stops: seq<Stop>, distance: real, radius: real) returns (r: Fix)
    ensures var w := FirstWithin(stops, distance, radius, 0);
            var f := FirstBeyond(stops, distance, 0);
            r == if w < |stops| then Fix(Some(stops[w]), StopAt(stops, w + 1), true)
                 else Fix(StopAt(stops, f - 1), StopAt(stops, f), false)
  {
    for i := 0 to |stops|
      invariant FirstWithin(stops, distance, radius, 0) == FirstWithin(stops, distance, radius, i)
    {
      var gap := stops[i].distance - distance;
      if (if gap < 0.0 then -gap else gap) <= radius {
        return Fix(Some(stops[i]), if i + 1 < |stops| then Some(stops[i + 1]) else None, true);
      }
    }
    var current: Option<Stop>, next: Option<Stop> := None, None;
    for i := 0 to |stops|
      invariant FirstBeyond(stops, distance, 0) == FirstBeyond(stops, distance, i)
      invariant current == StopAt(stops, i - 1) && next == None
    {
      if stops[i].distance <= distance {
        current := Some(stops[i]);
      } else {
        next := Some(stops[i]);
        break;
      }
    }
    return Fix(current, next, false);
  }

  /** `stops.index(stop)`: the first equal stop. */
  function IndexOf(stops: seq<Stop>, stop: Stop): (r: nat)
    requires stop in stops
    ensures r < |stops| && stops[r] == stop && forall j :: 0 <= j < r ==> stops[j] != stop
  {
    if stops[0] == stop then 0 else 1 + IndexOf(stops[1..], stop)
  }

  /** Stations still ahead, from the next one. */
  function Remaining(stops: seq<Stop>, next: Option<Stop>): seq<Stop>
    requires next.Some? ==> next.value in stops
  {
    match next
    case None => []
    case Some(stop) => stops[IndexOf(stops, stop)..]
  }

  /** Index of the nearest stop: the first of the closest, as `min` picks it. */
  function Nearest(m: Metric, stops: seq<Stop>, p: Point): (r: nat)
    requires stops != []
    ensures r < |stops|
    ensures forall j :: 0 <= j < |stops| ==> m.haversine(p, stops[r].at) <= m.haversine(p, stops[j].at)
    ensures forall j :: 0 <= j < r ==> m.haversine(p, stops[r].at) < m.haversine(p, stops[j].at)
  {
    if |stops| == 1 then 0 else
    var n := |stops| - 1;
    var best := Nearest(m, stops[..n], p);
    if m.haversine(p, stops[n].at) < m.haversine(p, stops[best].at) then n else best
  }

  datatype Location = Location(
    fix: Fix, destination: Option<Stop>, distance: Option<real>, offset: Option<real>, remaining: seq<Stop>)

  /** Where a vehicle is on its trip. */
  method Locate(m: Metric, stops: seq<Stop>, shape: Option<Shape>, p: Point, radius: real) returns (r: Location)
    requires m.Sane() && (shape.Some? ==> shape.value.Valid(m))
    ensures stops == [] ==> r == Location(Fix(None, None, false), None, None, None, [])
    ensures stops != [] ==> LocatedOk(m, stops, shape, p, radius, r)
  {
    hide Projects, Nearest, IndexOf, Shape.Valid, Remaining, FirstWithin, FirstBeyond;
    if stops == [] {
      return Location(Fix(None, None, false), None, None, None, []);
    }
    var destination := Some(stops[|stops| - 1]);
    if shape.Some? {
      TotalNonNegative(m, shape.value);
      var projection := Project(m, shape.value, p, 0.0);
      var distance := projection.value.along;
      var fix := LocateByDistance(stops, distance, radius);
      r := Location(fix, destination, Some(distance), Some(projection.value.offset), Remaining(stops, fix.next));
      return;
    }
    var i := Nearest(m, stops, p);
    var nearest := stops[i];
    var gap := m.haversine(p, nearest.at);
    var index := IndexOf(stops, nearest);
    var next := if index + 1 < |stops| then Some(stops[index + 1]) else None;
    return Location(Fix(Some(nearest), next, gap <= radius), destination, Some(nearest.distance), None,
                    Remaining(stops, next));
  }

  /** The position both readers measure from. */
  ghost predicate VehicleDistance(m: Metric, stops: seq<Stop>, shape: Option<Shape>, p: Point, d: real)
    requires stops != [] && (shape.Some? ==> shape.value.Valid(m))
  {
    match shape
    case Some(s) => exists r :: Projects(m, s, p, 0.0, r) && r.along == d
    case None => d == stops[Nearest(m, stops, p)].distance
  }

  ghost predicate LocatedOk(m: Metric, stops: seq<Stop>, shape: Option<Shape>, p: Point, radius: real, r: Location)
    requires stops != [] && (shape.Some? ==> shape.value.Valid(m))
  {
    && r.destination == Some(stops[|stops| - 1]) && r.distance.Some?
    && VehicleDistance(m, stops, shape, p, r.distance.value)
    && (r.fix.next.Some? ==> r.fix.next.value in stops) && r.remaining == Remaining(stops, r.fix.next)
    && (match shape
        case Some(s) =>
          && (exists q :: Projects(m, s, p, 0.0, q) && q.along == r.distance.value && r.offset == Some(q.offset))
          && var w, f := FirstWithin(stops, r.distance.value, radius, 0), FirstBeyond(stops, r.distance.value, 0);
          r.fix == if w < |stops| then Fix(Some(stops[w]), StopAt(stops, w + 1), true)
                   else Fix(StopAt(stops, f - 1), StopAt(stops, f), false)
        case None =>
          && r.offset.None?
          && var n := Nearest(m, stops, p);
          var i := IndexOf(stops, stops[n]);
          r.fix == Fix(Some(stops[n]), StopAt(stops, i + 1), m.haversine(p, stops[n].at) <= radius))
  }

  lemma VehicleDistanceUnique(m: Metric, stops: seq<Stop>, shape: Option<Shape>, p: Point, d: real, e: real)
    requires stops != [] && (shape.Some? ==> shape.value.Valid(m))
    requires VehicleDistance(m, stops, shape, p, d) && VehicleDistance(m, stops, shape, p, e)
    ensures d == e
  {
    hide Projects;
    if shape.Some? {
      var q :| Projects(m, shape.value, p, 0.0, q) && q.along == d;
      var r :| Projects(m, shape.value, p, 0.0, r) && r.along == e;
      ProjectionUnique(m, shape.value, p, 0.0, q, r);
    }
  }

  // ----- the ETA engine

  datatype StationEta = StationEta(stopId: string, sequence: int, distanceLeft: real, etaSeconds: real)

  /** `[stop for stop in stops if stop.distance > threshold]`. */
  function Ahead(stops: seq<Stop>, threshold: real): seq<Stop> {
    if stops == [] then []
    else (if stops[0].distance > threshold then [stops[0]] else []) + Ahead(stops[1..], threshold)
  }

  /** A predictor's answer is used only when it has one non-negative value per remaining stop. */
  function Usable(predictions: Option<seq<real>>, count: nat): Option<seq<real>> {
    if predictions.Some? && |predictions.value| == count && forall i :: 0 <= i < count ==> predictions.value[i] >= 0.0
    then predictions else None
  }

  /** ETAs of the stops ahead: the predictor's when usable, else travel at `speed` plus a dwell per earlier stop. */
  method ComputeEtas(stops: seq<Stop>, distance: real, radius: real, speed: real, dwell: real,
                     predictions: Option<seq<real>>)
      returns (etas: seq<StationEta>)
    requires speed > 0.0
    ensures var ahead := Ahead(stops, distance + radius);
            var usable := && predictions.Some? && |predictions.value| == |ahead|
                          && forall i :: 0 <= i < |ahead| ==> predictions.value[i] >= 0.0;
            && |etas| == |ahead|
            && (forall i :: 0 <= i < |etas| ==>
                  && etas[i].stopId == ahead[i].stopId && etas[i].sequence == ahead[i].sequence
                  && etas[i].distanceLeft == ahead[i].distance - distance > radius
                  && etas[i].etaSeconds == (if usable then predictions.value[i]
                                            else etas[i].distanceLeft / speed + dwell * i as real))
            && (!usable && Ordered(stops) && radius >= 0.0 && dwell >= 0.0 ==>
                  forall i, j :: 0 <= i <= j < |etas| ==> 0.0 <= etas[i].etaSeconds <= etas[j].etaSeconds)
  {
    hide Ahead, Heuristic;
    var remaining := Ahead(stops, distance + radius);
    AheadBeyond(stops, distance + radius);
    var predicted := Usable(predictions, |remaining|);
    etas := [];
    for index := 0 to |remaining|
      invariant |etas| == index
      invariant forall i :: 0 <= i < index ==>
                  && etas[i].stopId == remaining[i].stopId && etas[i].sequence == remaining[i].sequence
                  && etas[i].distanceLeft == remaining[i].distance - distance > radius
                  && (predicted.Some? ==> etas[i].etaSeconds == predicted.value[i])
                  && (predicted.None? ==> etas[i].etaSeconds == Heuristic(etas[i].distanceLeft, speed, dwell, i))
    {
      var stop := remaining[index];
      var left := stop.distance - distance;
      var eta := if predicted.Some? then predicted.value[index] else Heuristic(left, speed, dwell, index);
      etas := etas + [StationEta(stop.stopId, stop.sequence, left, eta)];
    }
    forall i | 0 <= i < |etas|
      ensures Heuristic(etas[i].distanceLeft, speed, dwell, i) == etas[i].distanceLeft / speed + dwell * i as real
    {
      HeuristicIs(etas[i].distanceLeft, speed, dwell, i);
    }
    if predicted.None? && Ordered(stops) && radius >= 0.0 && dwell >= 0.0 {
      EtasGrow(stops, distance, radius, speed, dwell, etas);
    }
  }

  /** Heuristic ETAs are non-negative and never decrease along the trip. */
  lemma EtasGrow(stops: seq<Stop>, distance: real, radius: real, speed: real, dwell: real, etas: seq<StationEta>)
    requires speed > 0.0 && radius >= 0.0 && dwell >= 0.0 && Ordered(stops)
    requires var ahead := Ahead(stops, distance + radius);
             && |etas| == |ahead|
             && forall i :: 0 <= i < |etas| ==>
                  && etas[i].distanceLeft == ahead[i].distance - distance > radius
                  && etas[i].etaSeconds == Heuristic(etas[i].distanceLeft, speed, dwell, i)
    ensures forall i, j :: 0 <= i <= j < |etas| ==> 0.0 <= etas[i].etaSeconds <= etas[j].etaSeconds
  {
    hide Ahead, Heuristic;
    var remaining := Ahead(stops, distance + radius);
    AheadIsSuffix(stops, distance + radius);
    forall i, j | 0 <= i <= j < |etas|
      ensures 0.0 <= etas[i].etaSeconds <= etas[j].etaSeconds
    {
      assert remaining[i].distance <= remaining[j].distance;
      HeuristicGrows(etas[i].distanceLeft, etas[j].distanceLeft, speed, dwell, i, j);
    }
  }

  lemma {:induction false} AheadBeyond(stops: seq<Stop>, threshold: real)
    ensures forall i :: 0 <= i < |Ahead(stops, threshold)| ==> Ahead(stops, threshold)[i].distance > threshold
  {
    if stops != [] {
      AheadBeyond(stops[1..], threshold);
    }
  }

  function Heuristic(left: real, speed: real, dwell: real, index: nat): real
    requires speed > 0.0
  {
    left / speed + dwell * index as real
  }

  lemma HeuristicIs(left: real, speed: real, dwell: real, index: nat)
    requires speed > 0.0
    ensures Heuristic(left, speed, dwell, index) == left / speed + dwell * index as real
  {
  }

  lemma HeuristicGrows(x: real, y: real, speed: real, dwell: real, i: nat, j: nat)
    requires speed > 0.0 && dwell >= 0.0 && 0.0 <= x <= y && i <= j
    ensures 0.0 <= Heuristic(x, speed, dwell, i) <= Heuristic(y, speed, dwell, j)
  {
    assert x / speed >= 0.0 && (y - x) / speed >= 0.0 && y / speed == x / speed + (y - x) / speed;
    Dwells(dwell, i, j);
  }

  lemma Dwells(dwell: real, i: nat, j: nat)
    requires dwell >= 0.0 && i <= j
    ensures 0.0 <= dwell * i as real <= dwell * j as real
  {
    var x, y := i as real, j as real;
    assert dwell * (y - x) >= 0.0 && dwell * y == dwell * x + dwell * (y - x);
  }

  /** On ordered stops the filter is a suffix: everything from the first stop beyond the threshold. */
  lemma {:induction false} AheadIsSuffix(stops: seq<Stop>, threshold: real)
    requires Ordered(stops)
    ensures Ahead(stops, threshold) == stops[FirstBeyond(stops, threshold, 0)..]
  {
    var f := FirstBeyond(stops, threshold, 0);
    AheadFrom(stops, threshold, 0);
    assert stops[0..] == stops;
  }

  lemma {:induction false} AheadFrom(stops: seq<Stop>, threshold: real, i: nat)
    requires Ordered(stops) && i <= |stops|
    ensures Ahead(stops[i..], threshold) == stops[FirstBeyond(stops, threshold, i)..]
    decreases |stops| - i
  {
    if i < |stops| {
      AheadFrom(stops, threshold, i + 1);
      assert stops[i..][1..] == stops[i + 1..];
      if stops[i].distance > threshold {
        assert FirstBeyond(stops, threshold, i + 1) == i + 1 by {
          assert i + 1 < |stops| ==> stops[i].distance <= stops[i + 1].distance;
        }
      }
    }
  }

  lemma BeyondAfter(stops: seq<Stop>, threshold: real, w: nat)
    requires Ordered(stops) && w < |stops| && stops[w].distance <= threshold
    ensures FirstBeyond(stops, threshold, 0) > w
  {
    assert forall j :: 0 <= j <= w ==> stops[j].distance <= stops[w].distance;
  }

  lemma IndexOfDistinct(stops: seq<Stop>, i: nat)
    requires Distinct(stops) && i < |stops|
    ensures IndexOf(stops, stops[i]) == i
  {
  }

  lemma RemainingFrom(stops: seq<Stop>, i: nat)
    requires Distinct(stops) && i <= |stops|
    ensures Remaining(stops, StopAt(stops, i)) == stops[i..]
  {
    if i < |stops| {
      IndexOfDistinct(stops, i);
    }
  }

  lemma SuffixEnd(stops: seq<Stop>, a: nat, b: nat, rest: seq<Stop>, etas: seq<Stop>)
    requires a <= b <= |stops| && rest == stops[a..] && etas == stops[b..]
    ensures |etas| <= |rest| && etas == rest[|rest| - |etas|..]
  {
    SuffixOfSuffix(stops, a, b - a);
  }

  /** At a station: what is ahead starts after it. */
  lemma AheadOfStation(stops: seq<Stop>, d: real, radius: real, w: nat)
    requires Ordered(stops) && Distinct(stops) && w < |stops| && stops[w].distance <= d + radius
    ensures var rest, etas := Remaining(stops, StopAt(stops, w + 1)), Ahead(stops, d + radius);
            |etas| <= |rest| && etas == rest[|rest| - |etas|..]
  {
    hide Ahead, Remaining, IndexOf, Ordered, Distinct, StopAt, FirstBeyond;
    StopAtIsThere(stops, w + 1);
    AheadIsSuffix(stops, d + radius);
    BeyondAfter(stops, d + radius, w);
    RemainingFrom(stops, w + 1);
    SuffixEnd(stops, w + 1, FirstBeyond(stops, d + radius, 0), Remaining(stops, StopAt(stops, w + 1)),
              Ahead(stops, d + radius));
  }

  lemma StopAtIsThere(stops: seq<Stop>, i: nat)
    ensures StopAt(stops, i).Some? ==> StopAt(stops, i).value in stops
  {
  }

  /** Nothing between two thresholds: the same first stop lies beyond both. */
  lemma SameBeyond(stops: seq<Stop>, d: real, radius: real)
    requires radius >= 0.0 && FirstWithin(stops, d, radius, 0) == |stops|
    ensures FirstBeyond(stops, d, 0) == FirstBeyond(stops, d + radius, 0)
  {
    var f := FirstBeyond(stops, d, 0);
    assert f < |stops| ==> !Within(stops[f], d, radius);
    assert forall j :: 0 <= j < f ==> stops[j].distance <= d + radius;
  }

  /** Between stations: nothing lies within the radius, so both lists start at the same stop. */
  lemma AheadBetweenStations(stops: seq<Stop>, d: real, radius: real)
    requires Ordered(stops) && Distinct(stops) && radius >= 0.0 && FirstWithin(stops, d, radius, 0) == |stops|
    ensures Remaining(stops, StopAt(stops, FirstBeyond(stops, d, 0))) == Ahead(stops, d + radius)
  {
    hide Ahead, Remaining, IndexOf, Ordered, Distinct, StopAt, FirstBeyond, FirstWithin;
    SameBeyond(stops, d, radius);
    StopAtIsThere(stops, FirstBeyond(stops, d, 0));
    AheadIsSuffix(stops, d + radius);
    RemainingFrom(stops, FirstBeyond(stops, d, 0));
  }

  /**
  Two independently written notions of "remaining stations" agree: the ETA engine's list is always a suffix of
  the locator's, and equal to it whenever the trip has a shape and the train is not at a station.
  */
  lemma RemainingAgree(m: Metric, stops: seq<Stop>, shape: Option<Shape>, p: Point, radius: real, loc: Location,
                       d: real)
    requires stops != [] && Ordered(stops) && Distinct(stops) && radius >= 0.0 && (shape.Some? ==> shape.value.Valid(m))
    requires LocatedOk(m, stops, shape, p, radius, loc) && VehicleDistance(m, stops, shape, p, d)
    ensures var etas := Ahead(stops, d + radius);
            |etas| <= |loc.remaining| && etas == loc.remaining[|loc.remaining| - |etas|..]
    ensures shape.Some? && !loc.fix.atStation ==> Ahead(stops, d + radius) == loc.remaining
  {
    hide VehicleDistance, Shape.Valid, Ordered, Distinct, Ahead, Remaining;
    VehicleDistanceUnique(m, stops, shape, p, d, loc.distance.value);
    if shape.Some? {
      var w := FirstWithin(stops, d, radius, 0);
      if w < |stops| {
        AheadOfStation(stops, d, radius, w);
      } else {
        AheadBetweenStations(stops, d, radius);
      }
    } else {
      NearestIsVehicleDistance(m, stops, p, d);
      var n := Nearest(m, stops, p);
      IndexOfDistinct(stops, n);
      AheadOfStation(stops, d, radius, n);
    }
  }

  lemma NearestIsVehicleDistance(m: Metric, stops: seq<Stop>, p: Point, d: real)
    requires stops != [] && VehicleDistance(m, stops, None, p, d)
    ensures d == stops[Nearest(m, stops, p)].distance
  {
  }
}
