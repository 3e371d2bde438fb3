/**
The backward timetable pass: real trips for a planner's leg shape, latest first.
*/
module LatestDeparture {
  import opened Common
  import opened Network
  import opened Planner
  import Preferences

  /** Minimum seconds between alighting and re-boarding at the same station. */
  const INTERCHANGE_BUFFER := 120

  /** A row of the timetable query for one leg: board departure, alight arrival, headsign. */
  datatype Row = Row(departure: int, arrival: int, headsign: Option<string>)

  datatype StopTime = StopTime(tripId: string, stopId: string, sequence: int, arrival: int, departure: int)

  datatype Trip = Trip(routeId: string, serviceId: string, directionId: Option<int>, headsign: Option<string>)

  datatype Timetable = Timetable(stopTimes: set<StopTime>, trips: map<string, Trip>)

  /** The query's result before ordering: every same-day trip riding the leg, within the deadline if any. */
  function Rows(t: Timetable, active: set<string>, leg: Leg, deadline: Option<int>): set<Row> {
    set b, a | b in t.stopTimes && a in t.stopTimes && Rideable(t, active, leg, b, a)
      && (deadline.None? || a.arrival <= deadline.value)
      :: Row(b.departure, a.arrival, t.trips[b.tripId].headsign)
  }

  predicate Rideable(t: Timetable, active: set<string>, leg: Leg, b: StopTime, a: StopTime)
    ensures Rideable(t, active, leg, b, a) ==> b.tripId in t.trips
  {
    && leg.RideLeg? && b.tripId in t.trips && a.tripId == b.tripId
    && b.stopId == leg.board.stopId && a.stopId == leg.alight.stopId && b.sequence < a.sequence
    && var trip := t.trips[b.tripId];
    && trip.routeId == leg.routeId && trip.serviceId in active
    && (leg.directionId.Some? ==> trip.directionId == leg.directionId)
  }

  /** `int(round(x))`: the nearest integer, ties to even. */
  function Rounded(x: real): (r: int)
    ensures -0.5 <= x - r as real <= 0.5
    ensures x - r as real == 0.5 || x - r as real == -0.5 ==> r % 2 == 0
  {
    var f := x.Floor;
    var part := x - f as real;
    if part < 0.5 || (part == 0.5 && f % 2 == 0) then f else f + 1
  }

  // ----- the specification: assignments of trips to ride legs

  /** Seconds that must pass between arriving at the start of `legs` and the next boarding, after a ride. */
  function Gap(legs: seq<Leg>): int {
    if legs == [] then 0 else if legs[0].RideLeg? then INTERCHANGE_BUFFER else WalkBefore(legs)
  }

  /** Rounded walking seconds ahead of the first ride. */
  function WalkBefore(legs: seq<Leg>): int {
    if legs == [] || legs[0].RideLeg? then 0 else Rounded(legs[0].walkSeconds) + WalkBefore(legs[1..])
  }

  /** One timetable row per ride leg, every connection kept. */
  ghost predicate Feasible(t: Timetable, active: set<string>, legs: seq<Leg>, rows: seq<Row>) {
    if legs == [] then rows == []
    else if legs[0].WalkLeg? then Feasible(t, active, legs[1..], rows)
    else
      && rows != [] && rows[0] in Rows(t, active, legs[0], None)
      && (|rows| > 1 ==> rows[0].arrival + Gap(legs[1..]) <= rows[1].departure)
      && Feasible(t, active, legs[1..], rows[1..])
  }

  ghost predicate SomeFeasible(t: Timetable, active: set<string>, legs: seq<Leg>) {
    exists rows :: Feasible(t, active, legs, rows)
  }

  predicate HasRide(legs: seq<Leg>) {
    exists i :: 0 <= i < |legs| && legs[i].RideLeg?
  }

  /** No feasible assignment departs later on any of its rides. */
  ghost predicate LatestOf(t: Timetable, active: set<string>, legs: seq<Leg>, chosen: seq<Row>) {
    && Feasible(t, active, legs, chosen)
    && (forall rows: seq<Row> :: Feasible(t, active, legs, rows) ==>
          |rows| == |chosen| && forall i :: 0 <= i < |rows| ==> rows[i].departure <= chosen[i].departure)
  }

  lemma {:induction false} FeasibleShape(t: Timetable, active: set<string>, legs: seq<Leg>, rows: seq<Row>)
    requires Feasible(t, active, legs, rows)
    ensures rows != [] <==> HasRide(legs)
  {
    if legs != [] {
      FeasibleShape(t, active, legs[1..], if legs[0].WalkLeg? then rows else rows[1..]);
      if HasRide(legs[1..]) {
        var i :| 0 <= i < |legs[1..]| && legs[1..][i].RideLeg?;
        assert legs[i + 1].RideLeg?;
      }
      if legs[0].WalkLeg? && HasRide(legs) {
        var i :| 0 <= i < |legs| && legs[i].RideLeg?;
        assert legs[1..][i - 1].RideLeg?;
      }
    }
  }

  /** A walk in front changes nothing but the deadline. */
  lemma LatestAfterWalk(t: Timetable, active: set<string>, legs: seq<Leg>, chosen: seq<Row>)
    requires legs != [] && legs[0].WalkLeg? && LatestOf(t, active, legs[1..], chosen)
    ensures LatestOf(t, active, legs, chosen)
  {
    forall rows: seq<Row> | Feasible(t, active, legs, rows)
      ensures Feasible(t, active, legs[1..], rows)
    {
    }
  }

  /** Choosing the latest row in time for the latest rest is latest for the whole: the greedy exchange. */
  lemma LatestAfterRide(t: Timetable, active: set<string>, legs: seq<Leg>, chosen: seq<Row>, row: Row)
    requires legs != [] && legs[0].RideLeg? && LatestOf(t, active, legs[1..], chosen)
    requires var deadline := if chosen == [] then None else Some(chosen[0].departure - Gap(legs[1..]));
             && row in Rows(t, active, legs[0], deadline)
             && forall r :: r in Rows(t, active, legs[0], deadline) ==> r.departure <= row.departure
    ensures LatestOf(t, active, legs, [row] + chosen)
  {
    var all := [row] + chosen;
    RowsWithin(t, active, legs[0], if chosen == [] then None else Some(chosen[0].departure - Gap(legs[1..])), row);
    assert all[1..] == chosen;
    assert Feasible(t, active, legs, all);
    forall rows: seq<Row> | Feasible(t, active, legs, rows)
      ensures |rows| == |all| && forall i :: 0 <= i < |rows| ==> rows[i].departure <= all[i].departure
    {
      var rest := rows[1..];
      assert Feasible(t, active, legs[1..], rest);
      assert forall i :: 1 <= i < |rows| ==> rows[i] == rest[i - 1] && all[i] == chosen[i - 1];
      FeasibleInTime(t, active, legs, rows, chosen);
    }
  }

  /** Any feasible first row is a candidate within the greedy deadline. */
  lemma FeasibleInTime(t: Timetable, active: set<string>, legs: seq<Leg>, rows: seq<Row>, chosen: seq<Row>)
    requires legs != [] && legs[0].RideLeg? && Feasible(t, active, legs, rows) && LatestOf(t, active, legs[1..], chosen)
    ensures var deadline := if chosen == [] then None else Some(chosen[0].departure - Gap(legs[1..]));
            rows != [] && rows[0] in Rows(t, active, legs[0], deadline)
  {
    var rest := rows[1..];
    assert Feasible(t, active, legs[1..], rest);
    assert |rest| == |chosen|;
    if chosen != [] {
      assert rest[0] == rows[1] && rest[0].departure <= chosen[0].departure;
      RowsNarrow(t, active, legs[0], chosen[0].departure - Gap(legs[1..]), rows[0]);
    }
  }

  lemma RowsWithin(t: Timetable, active: set<string>, leg: Leg, deadline: Option<int>, row: Row)
    requires row in Rows(t, active, leg, deadline)
    ensures row in Rows(t, active, leg, None) && (deadline.Some? ==> row.arrival <= deadline.value)
  {
  }

  lemma RowsNarrow(t: Timetable, active: set<string>, leg: Leg, deadline: int, row: Row)
    requires row in Rows(t, active, leg, None) && row.arrival <= deadline
    ensures row in Rows(t, active, leg, Some(deadline))
  {
  }

  // ----- the backward pass

  /** The query's conditions, as it states them. */
  predicate Selected(t: Timetable, active: set<string>, leg: Leg, deadline: Option<int>, b: StopTime, a: StopTime)
    requires leg.RideLeg? && b.tripId in t.trips
  {
    && a.tripId == b.tripId
    && b.stopId == leg.board.stopId && a.stopId == leg.alight.stopId && b.sequence < a.sequence
    && t.trips[b.tripId].routeId == leg.routeId && t.trips[b.tripId].serviceId in active
    && (leg.directionId.None? || t.trips[b.tripId].directionId == leg.directionId)
    && (deadline.None? || a.arrival <= deadline.value)
  }

  /** The rows of the database query. */
  method Query(t: Timetable, active: set<string>, leg: Leg, deadline: Option<int>) returns (rows: set<Row>)
    ensures rows == Rows(t, active, leg, deadline)
  {
    if leg.WalkLeg? {
      return {};
    }
    forall b: StopTime, a: StopTime | b.tripId in t.trips
      ensures Selected(t, active, leg, deadline, b, a)
         <==> Rideable(t, active, leg, b, a) && (deadline.None? || a.arrival <= deadline.value)
    {
    }
    hide Selected, Rideable;
    rows := set b, a |
      b in t.stopTimes && a in t.stopTimes && b.tripId in t.trips && Selected(t, active, leg, deadline, b, a)
      :: Row(b.departure, a.arrival, t.trips[b.tripId].headsign);
  }

  /** `_latest_trip`: the latest departure among the rows; ties are the database's choice. */
  method LatestTrip(t: Timetable, active: set<string>, leg: Leg, deadline: Option<int>) returns (r: Option<Row>)
    ensures r.None? <==> Rows(t, active, leg, deadline) == {}
    ensures r.Some? ==> r.value in Rows(t, active, leg, deadline)
                        && forall other :: other in Rows(t, active, leg, deadline) ==>
                            other.departure <= r.value.departure
  {
    hide Rows;
    var rows := Query(t, active, leg, deadline);
    if rows == {} {
      return None;
    }
    LatestExists(rows);
    var row :| row in rows && forall other :: other in rows ==> other.departure <= row.departure;
    return Some(row);
  }

  lemma LatestExists(rows: set<Row>)
    requires rows != {}
    ensures exists row :: row in rows && forall other :: other in rows ==> other.departure <= row.departure
  {
    var x :| x in rows;
    if rows != {x} {
      LatestExists(rows - {x});
      var y :| y in rows - {x} && forall other :: other in rows - {x} ==> other.departure <= y.departure;
      var z := if x.departure <= y.departure then y else x;
      assert forall other :: other in rows ==> other.departure <= z.departure;
    }
  }

  datatype LatestPlan = LatestPlan(departBy: int, arriveBy: int, totalMinutes: int, rows: seq<Row>)

  /** `math.ceil(seconds / 60)`. */
  function CeilMinutes(seconds: int): (m: int)
    ensures 60 * (m - 1) < seconds <= 60 * m
  {
    -((-seconds) / 60)
  }

  /** Rounded walking seconds behind the last ride; 0 when there is no ride. */
  function WalkAfter(legs: seq<Leg>): int {
    if !HasRide(legs) || legs[|legs| - 1].RideLeg? then 0
    else WalkAfter(legs[..|legs| - 1]) + Rounded(legs[|legs| - 1].walkSeconds)
  }

  /** The plan rides the latest feasible assignment, and its clock runs from the first step to the last. */
  ghost predicate IsLatest(t: Timetable, active: set<string>, legs: seq<Leg>, p: LatestPlan) {
    && LatestOf(t, active, legs, p.rows) && p.rows != []
    && p.departBy == p.rows[0].departure - WalkBefore(legs)
    && p.arriveBy == p.rows[|p.rows| - 1].arrival + WalkAfter(legs)
    && 60 * (p.totalMinutes - 1) < p.arriveBy - p.departBy <= 60 * p.totalMinutes
  }

  /**
  The latest departure over a leg shape, in seconds of the service day. `legs` is any leg list; the
  planner supplies its fastest one.
  */
  method LatestDepartureFor(t: Timetable, active: set<string>, legs: seq<Leg>) returns (r: Option<LatestPlan>)
    ensures r.None? <==> active == {} || !HasRide(legs) || !SomeFeasible(t, active, legs)
    ensures r.Some? ==> IsLatest(t, active, legs, r.value)
  {
    hide Rows, Feasible, LatestOf, Rounded, WalkAfter, SomeFeasible;
    if active == {} {
      return None;
    }
    NothingToRide(t, active);
    var deadline: Option<int>, laterIsRide, chosen: seq<Row> := None, false, [];
    var i := |legs|;
    assert legs[|legs|..] == [];
    while i > 0
      invariant 0 <= i <= |legs| && LatestOf(t, active, legs[i..], chosen)
      invariant deadline == if chosen == [] then None else Some(chosen[0].departure - WalkBefore(legs[i..]))
      invariant laterIsRide <==> i < |legs| && legs[i].RideLeg?
    {
      i := i - 1;
      var leg := legs[i];
      assert legs[i..][1..] == legs[i + 1..] && legs[i..][0] == leg;
      if leg.WalkLeg? {
        if deadline.Some? {
          deadline := Some(deadline.value - Rounded(leg.walkSeconds));
        }
        laterIsRide := false;
        LatestAfterWalk(t, active, legs[i..], chosen);
        continue;
      }
      var arrivalDeadline := deadline;
      if arrivalDeadline.Some? && laterIsRide {
        arrivalDeadline := Some(arrivalDeadline.value - INTERCHANGE_BUFFER);
      }
      LatestIsFeasible(t, active, legs[i + 1..], chosen);
      FeasibleShape(t, active, legs[i + 1..], chosen);
      assert arrivalDeadline == if chosen == [] then None else Some(chosen[0].departure - Gap(legs[i + 1..]));
      var resolved := LatestTrip(t, active, leg, arrivalDeadline);
      if resolved.None? {
        NoneFeasible(t, active, legs, i, chosen);
        return None;
      }
      LatestAfterRide(t, active, legs[i..], chosen, resolved.value);
      chosen := [resolved.value] + chosen;
      deadline := Some(resolved.value.departure);
      laterIsRide := true;
    }
    assert legs[0..] == legs;
    LatestIsFeasible(t, active, legs, chosen);
    FeasibleShape(t, active, legs, chosen);
    if chosen == [] {
      return None;
    }
    var departBy := chosen[0].departure - WalkBefore(legs);
    var arriveBy := chosen[|chosen| - 1].arrival + WalkAfter(legs);
    return Some(LatestPlan(departBy, arriveBy, CeilMinutes(arriveBy - departBy), chosen));
  }

  lemma NothingToRide(t: Timetable, active: set<string>)
    ensures LatestOf(t, active, [], [])
  {
  }

  lemma LatestIsFeasible(t: Timetable, active: set<string>, legs: seq<Leg>, chosen: seq<Row>)
    requires LatestOf(t, active, legs, chosen)
    ensures Feasible(t, active, legs, chosen) && SomeFeasible(t, active, legs)
  {
  }

  /** A leg without a row in time leaves the whole shape infeasible. */
  lemma NoneFeasible(t: Timetable, active: set<string>, legs: seq<Leg>, i: nat, chosen: seq<Row>)
    requires i < |legs| && legs[i].RideLeg? && LatestOf(t, active, legs[i + 1..], chosen)
    requires var deadline := if chosen == [] then None else Some(chosen[0].departure - Gap(legs[i + 1..]));
             Rows(t, active, legs[i], deadline) == {}
    ensures !SomeFeasible(t, active, legs)
  {
    forall rows: seq<Row> | Feasible(t, active, legs, rows)
      ensures false
    {
      var rest := FeasibleSuffix(t, active, legs, rows, i);
      assert legs[i..][1..] == legs[i + 1..];
      FeasibleInTime(t, active, legs[i..], rest, chosen);
    }
  }

  lemma {:induction false} FeasibleSuffix(t: Timetable, active: set<string>, legs: seq<Leg>, rows: seq<Row>, i: nat)
      returns (rest: seq<Row>)
    requires i <= |legs| && Feasible(t, active, legs, rows)
    ensures Feasible(t, active, legs[i..], rest)
  {
    if i == 0 {
      rest := rows;
      assert legs[0..] == legs;
    } else {
      rest := FeasibleSuffix(t, active, legs[1..], if legs[0].WalkLeg? then rows else rows[1..], i - 1);
      assert legs[1..][i - 1..] == legs[i..];
    }
  }

  // ----- the walks at both ends

  /** Rounded seconds of a list of walks. */
  function WalkSum(walks: seq<Leg>): int
    requires forall i :: 0 <= i < |walks| ==> walks[i].WalkLeg?
  {
    if walks == [] then 0 else Rounded(walks[0].walkSeconds) + WalkSum(walks[1..])
  }

  lemma {:induction false} WalkSumLast(walks: seq<Leg>)
    requires walks != [] && forall i :: 0 <= i < |walks| ==> walks[i].WalkLeg?
    ensures WalkSum(walks) == WalkSum(walks[..|walks| - 1]) + Rounded(walks[|walks| - 1].walkSeconds)
  {
    var n := |walks| - 1;
    if n > 0 {
      WalkSumLast(walks[1..]);
      assert walks[1..][..n - 1] == walks[..n][1..];
    }
  }

  lemma {:induction false} WalkAfterIs(front: seq<Leg>, ride: Leg, walks: seq<Leg>)
    requires ride.RideLeg? && forall i :: 0 <= i < |walks| ==> walks[i].WalkLeg?
    ensures WalkAfter(front + [ride] + walks) == WalkSum(walks)
  {
    var legs := front + [ride] + walks;
    assert legs[|front|].RideLeg?;
    if walks != [] {
      var n := |walks| - 1;
      WalkAfterIs(front, ride, walks[..n]);
      WalkSumLast(walks);
      assert legs[..|legs| - 1] == front + [ride] + walks[..n];
    }
  }

  lemma {:induction false} WalkBeforeIs(walks: seq<Leg>, ride: Leg, back: seq<Leg>)
    requires ride.RideLeg? && forall i :: 0 <= i < |walks| ==> walks[i].WalkLeg?
    ensures WalkBefore(walks + [ride] + back) == WalkSum(walks)
  {
    var legs := walks + [ride] + back;
    if walks != [] {
      WalkBeforeIs(walks[1..], ride, back);
      assert legs[1..] == walks[1..] + [ride] + back;
    }
  }

  function RideCount(legs: seq<Leg>): nat {
    if legs == [] then 0 else (if legs[0].RideLeg? then 1 else 0) + RideCount(legs[1..])
  }

  /**
  Every connection is kept: between two successive rides there are at least 120 seconds on the same platform, or time
  for every walk in between.
  */
  lemma {:induction false} ConnectionKept(t: Timetable, active: set<string>, front: seq<Leg>, ride: Leg,
                                          walks: seq<Leg>, next: Leg, back: seq<Leg>, rows: seq<Row>)
    requires ride.RideLeg? && next.RideLeg? && forall i :: 0 <= i < |walks| ==> walks[i].WalkLeg?
    requires Feasible(t, active, front + [ride] + walks + [next] + back, rows)
    ensures var k := RideCount(front);
            && k + 1 < |rows| && rows[k] in Rows(t, active, ride, None)
            && rows[k].arrival + (if walks == [] then 120 else WalkSum(walks)) <= rows[k + 1].departure
  {
    hide Rows;
    var legs, rest := front + [ride] + walks + [next] + back, walks + [next] + back;
    if front == [] {
      assert legs == [ride] + rest && legs[1..] == rest;
      assert rest[|walks|].RideLeg?;
      FeasibleShape(t, active, rest, rows[1..]);
      if walks != [] {
        WalkBeforeIs(walks, next, back);
      }
    } else {
      assert legs[1..] == front[1..] + [ride] + walks + [next] + back;
      ConnectionKept(t, active, front[1..], ride, walks, next, back, if front[0].WalkLeg? then rows else rows[1..]);
    }
  }

  /** The day ends when the last train has arrived and every walk after it is walked. */
  lemma ArrivesAfterWalks(t: Timetable, active: set<string>, front: seq<Leg>, ride: Leg, walks: seq<Leg>,
                          plan: LatestPlan)
    requires ride.RideLeg? && forall i :: 0 <= i < |walks| ==> walks[i].WalkLeg?
    requires IsLatest(t, active, front + [ride] + walks, plan)
    ensures plan.arriveBy == plan.rows[|plan.rows| - 1].arrival + WalkSum(walks)
  {
    WalkAfterIs(front, ride, walks);
  }

  /** And it starts early enough to walk every walk ahead of the first train. */
  lemma DepartsBeforeWalks(t: Timetable, active: set<string>, walks: seq<Leg>, ride: Leg, back: seq<Leg>,
                           plan: LatestPlan)
    requires ride.RideLeg? && forall i :: 0 <= i < |walks| ==> walks[i].WalkLeg?
    requires IsLatest(t, active, walks + [ride] + back, plan)
    ensures plan.departBy == plan.rows[0].departure - WalkSum(walks)
  {
    WalkBeforeIs(walks, ride, back);
  }

  // ----- what the result means to a rider

  /** Nobody who keeps every connection can leave the origin later. */
  lemma NoLaterStart(t: Timetable, active: set<string>, legs: seq<Leg>, plan: LatestPlan, rows: seq<Row>)
    requires IsLatest(t, active, legs, plan) && Feasible(t, active, legs, rows)
    ensures rows != [] && rows[0].departure - WalkBefore(legs) <= plan.departBy
  {
  }

  predicate TrainsRunForward(rows: seq<Row>) {
    forall i :: 0 <= i < |rows| ==> rows[i].departure <= rows[i].arrival
  }

  predicate WalksTakeTime(legs: seq<Leg>) {
    forall i :: 0 <= i < |legs| && legs[i].WalkLeg? ==> legs[i].walkSeconds >= 0.0
  }

  lemma {:induction false} WalkBeforeNonNegative(legs: seq<Leg>)
    requires WalksTakeTime(legs)
    ensures WalkBefore(legs) >= 0 && Gap(legs) >= 0
  {
    if legs != [] && legs[0].WalkLeg? {
      assert forall i :: 0 <= i < |legs[1..]| ==> legs[1..][i] == legs[i + 1];
      WalkBeforeNonNegative(legs[1..]);
    }
  }

  lemma {:induction false} WalkAfterNonNegative(legs: seq<Leg>)
    requires WalksTakeTime(legs)
    ensures WalkAfter(legs) >= 0
  {
    if HasRide(legs) && legs[|legs| - 1].WalkLeg? {
      WalkAfterNonNegative(legs[..|legs| - 1]);
    }
  }

  /** When trains run forward in time, a feasible day ends after it starts. */
  lemma {:induction false} DayRunsForward(t: Timetable, active: set<string>, legs: seq<Leg>, rows: seq<Row>)
    requires Feasible(t, active, legs, rows) && rows != [] && TrainsRunForward(rows) && WalksTakeTime(legs)
    ensures rows[0].departure <= rows[|rows| - 1].arrival
  {
    assert forall i :: 0 <= i < |legs[1..]| ==> legs[1..][i] == legs[i + 1];
    if legs[0].WalkLeg? {
      DayRunsForward(t, active, legs[1..], rows);
    } else if |rows| > 1 {
      assert forall i :: 0 <= i < |rows[1..]| ==> rows[1..][i] == rows[i + 1];
      DayRunsForward(t, active, legs[1..], rows[1..]);
      WalkBeforeNonNegative(legs[1..]);
    }
  }

  /** The reported minutes are never negative. */
  lemma MinutesNonNegative(t: Timetable, active: set<string>, legs: seq<Leg>, plan: LatestPlan)
    requires IsLatest(t, active, legs, plan) && TrainsRunForward(plan.rows) && WalksTakeTime(legs)
    ensures plan.departBy <= plan.arriveBy && plan.totalMinutes >= 0
  {
    DayRunsForward(t, active, legs, plan.rows);
    WalkBeforeNonNegative(legs);
    WalkAfterNonNegative(legs);
  }

  /** The planner never plans a walk of negative length. */
  lemma PlannedWalksTakeTime(g: Graph, base: Params, preference: string, origin: StopId, destination: StopId,
                             departure: real, plan: JourneyPlan)
    requires g.Valid() && Preferences.IsPlanFor(g, base, preference, origin, destination, departure, plan)
    ensures WalksTakeTime(plan.legs)
  {
    var w := Preferences.SearchWeights(base, preference).value;
    var acts, cuts :| Optimal(g, w, origin, destination, acts)
      && Assembled(g, base, origin, destination, departure, acts, cuts, plan);
    assert Path(g, base.minHop, At(origin), acts, At(destination));
    assert Assembled(g, base, origin, destination, departure, acts, cuts, plan);
    assert Cut(g, base, acts, plan.legs, cuts, |acts|);
    hide Path, Assembled, Cut;
    forall i | 0 <= i < |plan.legs| && plan.legs[i].WalkLeg?
      ensures plan.legs[i].walkSeconds >= 0.0
    {
      PlannedWalk(g, base, origin, destination, acts, plan.legs, cuts, i);
    }
  }

  lemma PlannedWalk(g: Graph, base: Params, origin: StopId, destination: StopId, acts: seq<Action>, legs: seq<Leg>,
                    cuts: seq<nat>, i: nat)
    requires g.Valid() && Path(g, base.minHop, At(origin), acts, At(destination))
    requires Cut(g, base, acts, legs, cuts, |acts|) && i < |legs| && legs[i].WalkLeg?
    ensures legs[i].walkSeconds >= 0.0
  {
    assert Piece(g, base, acts, legs, cuts, |acts|, i);
    var a := acts[cuts[i]];
    assert Enabled(g, base.minHop, StateAt(g, At(origin), acts, cuts[i]), a);
    assert WalkEdge(a.to, a.distance, a.seconds) in g.walkEdges[a.from];
  }

  /** The whole operation: plan the fastest journey, then ride it as late as the day's timetable allows. */
  method LatestDepartureBetween(g: Graph, base: Params, t: Timetable, active: set<string>, origin: StopId,
                                destination: StopId, now: real)
      returns (journey: PlanResult, r: Option<LatestPlan>)
    requires g.Valid() && base.NonNegative()
    ensures journey.Planned? <==>
              && origin != destination && {origin, destination} <= g.stopNames.Keys
              && Connected(g, base.minHop, origin, destination)
    ensures journey.Refused? ==> r.None?
    ensures journey.Planned? ==>
              var legs := journey.plan.legs;
              && Preferences.IsPlanFor(g, base, "fastest", origin, destination, now, journey.plan)
              && (r.None? <==> active == {} || !HasRide(legs) || !SomeFeasible(t, active, legs))
              && (r.Some? ==> IsLatest(t, active, legs, r.value))
              && (r.Some? && TrainsRunForward(r.value.rows) ==>
                    r.value.departBy <= r.value.arriveBy && r.value.totalMinutes >= 0)
  {
    hide Feasible, LatestOf, Rows, Preferences.IsPlanFor, Connected;
    journey := Preferences.Plan(g, base, origin, destination, now, "fastest");
    if journey.Refused? {
      return journey, None;
    }
    PlannedWalksTakeTime(g, base, "fastest", origin, destination, now, journey.plan);
    r := LatestDepartureFor(t, active, journey.plan.legs);
    if r.Some? && TrainsRunForward(r.value.rows) {
      MinutesNonNegative(t, active, journey.plan.legs, r.value);
    }
  }
}
