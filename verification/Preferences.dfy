/**
The planner's entry point and what it promises of a returned plan: the shape of its legs, the honesty of
its clock, and how the three preferences compare.
*/
module Preferences {
  import opened Common
  import opened Network
  import opened Planner
  import Search

  /** Search weights for a preference; None for an unrecognised one. Timing never uses them. */
  function SearchWeights(base: Params, preference: string): Option<Params> {
    if preference == "fastest" then Some(base)
    else if preference == "fewer_transfers" then Some(base.(boardPenalty := base.boardPenalty * 4.0))
    else if preference == "less_walking" then Some(base.(walkMultiplier := base.walkMultiplier * 6.0))
    else None
  }

  /** What a plan is: an optimal, cycle-free action list under the preference's weights, faithfully assembled. */
  ghost predicate IsPlanFor(g: Graph, base: Params, preference: string, origin: StopId, destination: StopId,
                            departure: real, plan: JourneyPlan) {
    SearchWeights(base, preference).Some? && exists acts, cuts ::
      && Optimal(g, SearchWeights(base, preference).value, origin, destination, acts)
      && Simple(g, At(origin), acts)
      && Assembled(g, base, origin, destination, departure, acts, cuts, plan)
  }

  method Plan(g: Graph, base: Params, origin: StopId, destination: StopId, departure: real, preference: string)
      returns (r: PlanResult)
    requires g.Valid() && base.NonNegative()
    ensures r.Planned? <==>
              && origin != destination && origin in g.stopNames && destination in g.stopNames
              && SearchWeights(base, preference).Some? && Connected(g, base.minHop, origin, destination)
    ensures r.Planned? ==> IsPlanFor(g, base, preference, origin, destination, departure, r.plan)
    ensures r.Refused? ==>
              match r.error
              case UnknownStop(s) =>
                && origin != destination && s !in g.stopNames
                && s == (if origin !in g.stopNames then origin else destination)
              case UnknownPreference(p) =>
                && origin != destination && {origin, destination} <= g.stopNames.Keys
                && p == preference && SearchWeights(base, p).None?
              case NoRoute =>
                || origin == destination
                || (&& {origin, destination} <= g.stopNames.Keys && SearchWeights(base, preference).Some?
                    && !Connected(g, base.minHop, origin, destination))
  {
    if origin == destination {
      return Refused(NoRoute);
    }
    if origin !in g.stopNames {
      return Refused(UnknownStop(origin));
    }
    if destination !in g.stopNames {
      return Refused(UnknownStop(destination));
    }
    var weights := SearchWeights(base, preference);
    if weights.None? {
      return Refused(UnknownPreference(preference));
    }
    hide Path, Assembled, Simple;
    var actions := Search.Dijkstra(g, origin, destination, weights.value);
    if actions.None? {
      return Refused(NoRoute);
    }
    var plan := BuildPlan(g, base, origin, destination, departure, actions.value);
    assert Path(g, base.minHop, At(origin), actions.value, At(destination));
    return Planned(plan);
  }

  // ----- the shape of the legs

  /** Legs chain stop to stop from origin to destination. */
  ghost predicate Chained(legs: seq<Leg>, origin: StopId, destination: StopId) {
    && legs != [] && legs[0].board.stopId == origin && legs[|legs| - 1].alight.stopId == destination
    && (forall j :: 0 < j < |legs| ==> legs[j - 1].alight.stopId == legs[j].board.stopId)
  }

  /** Leg j runs from the stop where its first action starts to the stop where its last one ends. */
  ghost predicate LegSpans(g: Graph, origin: StopId, acts: seq<Action>, legs: seq<Leg>, cuts: seq<nat>, j: nat)
    requires j < |legs| && |cuts| == |legs| + 1
  {
    && cuts[j] < cuts[j + 1] <= |acts|
    && StateAt(g, At(origin), acts, cuts[j]) == At(legs[j].board.stopId)
    && StateAt(g, At(origin), acts, cuts[j + 1]) == At(legs[j].alight.stopId)
    && (legs[j].RideLeg? ==> |legs[j].stations| >= 2)
  }

  lemma SimpleLegSpans(g: Graph, base: Params, origin: StopId, destination: StopId, acts: seq<Action>, legs: seq<Leg>,
                       cuts: seq<nat>, j: nat)
    requires Path(g, base.minHop, At(origin), acts, At(destination)) && Simple(g, At(origin), acts)
    requires Cut(g, base, acts, legs, cuts, |acts|) && j < |legs|
    ensures LegSpans(g, origin, acts, legs, cuts, j)
  {
    assert Piece(g, base, acts, legs, cuts, |acts|, j);
    var lo, hi := cuts[j], cuts[j + 1];
    assert Enabled(g, base.minHop, StateAt(g, At(origin), acts, lo), acts[lo]);
    assert StateAt(g, At(origin), acts, lo) != StateAt(g, At(origin), acts, hi);
  }

  lemma SpansChain(g: Graph, origin: StopId, destination: StopId, acts: seq<Action>, legs: seq<Leg>, cuts: seq<nat>)
    requires origin != destination && |cuts| == |legs| + 1 && cuts[0] == 0 && cuts[|legs|] == |acts|
    requires StateAt(g, At(origin), acts, |acts|) == At(destination)
    requires forall j :: 0 <= j < |legs| ==> LegSpans(g, origin, acts, legs, cuts, j)
    ensures Chained(legs, origin, destination)
  {
    assert legs != [];
    assert LegSpans(g, origin, acts, legs, cuts, 0) && LegSpans(g, origin, acts, legs, cuts, |legs| - 1);
    forall j | 0 < j < |legs|
      ensures legs[j - 1].alight.stopId == legs[j].board.stopId
    {
      assert LegSpans(g, origin, acts, legs, cuts, j - 1) && LegSpans(g, origin, acts, legs, cuts, j);
    }
  }

  /**
  Every returned plan is a word of (walk | board ride+ alight)*, whose legs chain from origin to
  destination and whose ride legs span at least two stations.
  */
  lemma PlanShape(g: Graph, base: Params, preference: string, origin: StopId, destination: StopId, departure: real,
                  plan: JourneyPlan)
    requires origin != destination && IsPlanFor(g, base, preference, origin, destination, departure, plan)
    ensures Chained(plan.legs, origin, destination)
    ensures forall j :: 0 <= j < |plan.legs| && plan.legs[j].RideLeg? ==> |plan.legs[j].stations| >= 2
  {
    var acts, cuts :|
      && Optimal(g, SearchWeights(base, preference).value, origin, destination, acts)
      && Simple(g, At(origin), acts) && Assembled(g, base, origin, destination, departure, acts, cuts, plan);
    hide Path, Piece, Simple, Chained;
    forall j | 0 <= j < |plan.legs|
      ensures LegSpans(g, origin, acts, plan.legs, cuts, j)
    {
      SimpleLegSpans(g, base, origin, destination, acts, plan.legs, cuts, j);
    }
    PathEnds(g, base.minHop, origin, destination, acts);
    SpansChain(g, origin, destination, acts, plan.legs, cuts);
    forall j | 0 <= j < |plan.legs| && plan.legs[j].RideLeg?
      ensures |plan.legs[j].stations| >= 2
    {
      assert LegSpans(g, origin, acts, plan.legs, cuts, j);
    }
  }

  lemma PathEnds(g: Graph, minHop: real, origin: StopId, destination: StopId, acts: seq<Action>)
    requires Path(g, minHop, At(origin), acts, At(destination))
    ensures StateAt(g, At(origin), acts, |acts|) == At(destination)
  {
  }

  // ----- rides and the timetable

  /** Seconds the timetable gives from leaving call i to reaching the next. */
  function Scheduled(p: Pattern, i: nat): real
    requires i + 1 < |p.stops|
  {
    p.stops[i + 1].arrival as real - p.stops[i].departure as real
  }

  /** Seconds the train stands at the calls strictly between b and e. */
  function Dwells(p: Pattern, b: nat, e: nat): real
    requires e < |p.stops|
  {
    if e <= b + 1 then 0.0
    else Dwells(p, b, e - 1) + (p.stops[e - 1].departure as real - p.stops[e - 1].arrival as real)
  }

  /** Seconds the train moves between leaving call b and reaching call e. */
  function Moving(p: Pattern, b: nat, e: nat): real
    requires b < e < |p.stops|
  {
    p.stops[e].arrival as real - p.stops[b].departure as real - Dwells(p, b, e)
  }

  /** The least seconds of a number of hops. */
  function Minimum(hops: nat, minHop: real): real {
    hops as real * minHop
  }

  ghost predicate NoneShorter(p: Pattern, b: nat, e: nat, minHop: real)
    requires e < |p.stops|
  {
    forall i :: b <= i < e ==> Scheduled(p, i) >= minHop
  }

  ghost predicate NoneLonger(p: Pattern, b: nat, e: nat, minHop: real)
    requires e < |p.stops|
  {
    forall i :: b <= i < e ==> Scheduled(p, i) <= minHop
  }

  /**
  A ride from call b to call e takes the timetable's span less the dwells when no hop is shorter than the minimum, the
  minimum per hop when none is longer, and never less than either.
  */
  ghost predicate FollowsTimetable(p: Pattern, b: nat, e: nat, minHop: real, seconds: real)
    requires b < e < |p.stops|
  {
    && seconds >= Moving(p, b, e) && seconds >= Minimum(e - b, minHop)
    && (NoneShorter(p, b, e, minHop) ==> seconds == Moving(p, b, e))
    && (NoneLonger(p, b, e, minHop) ==> seconds == Minimum(e - b, minHop))
  }

  lemma OneHop(p: Pattern, b: nat, minHop: real)
    requires b + 1 < |p.stops|
    ensures FollowsTimetable(p, b, b + 1, minHop, Hop(p, b, minHop))
  {
    assert NoneShorter(p, b, b + 1, minHop) ==> Scheduled(p, b) >= minHop;
    assert NoneLonger(p, b, b + 1, minHop) ==> Scheduled(p, b) <= minHop;
    HopsGrow(0, minHop);
    hide NoneShorter, NoneLonger, Minimum;
  }

  lemma OneMoreHop(p: Pattern, b: nat, e: nat, minHop: real, seconds: real)
    requires b < e && e + 1 < |p.stops| && FollowsTimetable(p, b, e, minHop, seconds)
    ensures FollowsTimetable(p, b, e + 1, minHop, seconds + Hop(p, e, minHop))
  {
    assert NoneShorter(p, b, e + 1, minHop) ==> NoneShorter(p, b, e, minHop) && Scheduled(p, e) >= minHop;
    assert NoneLonger(p, b, e + 1, minHop) ==> NoneLonger(p, b, e, minHop) && Scheduled(p, e) <= minHop;
    MovingGrows(p, b, e);
    HopsGrow(e - b, minHop);
    hide NoneShorter, NoneLonger, Moving, Minimum;
  }

  lemma MovingGrows(p: Pattern, b: nat, e: nat)
    requires b < e && e + 1 < |p.stops|
    ensures Moving(p, b, e + 1) == Moving(p, b, e) + Scheduled(p, e)
  {
  }

  lemma HopsGrow(hops: nat, minHop: real)
    ensures Minimum(hops + 1, minHop) == Minimum(hops, minHop) + minHop && Minimum(0, minHop) == 0.0
  {
    var n := hops as real;
    assert (n + 1.0) * minHop == n * minHop + minHop;
  }

  /** The first m rides after a boarding. */
  lemma {:induction false} RidesFollow(g: Graph, base: Params, origin: StopId, destination: StopId, acts: seq<Action>,
                                       lo: nat, m: nat)
    requires Path(g, base.minHop, At(origin), acts, At(destination))
    requires m >= 1 && lo + 1 + m <= |acts| && acts[lo].Board? && RidesOn(acts, lo, lo + 1 + m)
    ensures acts[lo].key in g.patterns && acts[lo].index + m < |g.patterns[acts[lo].key].stops|
    ensures FollowsTimetable(g.patterns[acts[lo].key], acts[lo].index, acts[lo].index + m, base.minHop,
                             Clock(base, acts[lo + 1..lo + 1 + m]))
  {
    hide Path, Enabled, FollowsTimetable, PathCost;
    RideOnPath(g, base, origin, destination, acts, lo + m);
    var p, b := g.patterns[acts[lo].key], acts[lo].index;
    var seconds := Clock(base, acts[lo + 1..lo + m]);
    ClockOfRide(base, acts, lo + 1, lo + m);
    if m == 1 {
      NoClock(base, acts, lo + 1);
      OneHop(p, b, base.minHop);
    } else {
      RidesFollow(g, base, origin, destination, acts, lo, m - 1);
      OneMoreHop(p, b, b + m - 1, base.minHop, seconds);
    }
  }

  /** Every ride of a path costs the hop of its pattern. */
  lemma RideOnPath(g: Graph, base: Params, origin: StopId, destination: StopId, acts: seq<Action>, i: nat)
    requires Path(g, base.minHop, At(origin), acts, At(destination)) && i < |acts| && acts[i].Ride?
    ensures acts[i].key in g.patterns && 1 <= acts[i].index < |g.patterns[acts[i].key].stops|
    ensures acts[i].hop == Hop(g.patterns[acts[i].key], acts[i].index - 1, base.minHop)
  {
    hide Enabled;
    assert Enabled(g, base.minHop, StateAt(g, At(origin), acts, i), acts[i]);
    RideIsHop(g, base, StateAt(g, At(origin), acts, i), acts[i]);
  }

  lemma ClockOfRide(base: Params, acts: seq<Action>, from: nat, to: nat)
    requires from <= to < |acts| && acts[to].Ride?
    ensures Clock(base, acts[from..to + 1]) == Clock(base, acts[from..to]) + acts[to].hop
  {
    assert acts[from..to + 1][..to - from] == acts[from..to];
  }

  lemma NoClock(base: Params, acts: seq<Action>, i: nat)
    requires i <= |acts|
    ensures Clock(base, acts[i..i]) == 0.0
  {
  }

  lemma RideIsHop(g: Graph, base: Params, s: State, a: Action)
    requires a.Ride? && Enabled(g, base.minHop, s, a)
    ensures a.key in g.patterns && 1 <= a.index < |g.patterns[a.key].stops|
    ensures a.hop == Hop(g.patterns[a.key], a.index - 1, base.minHop)
  {
  }

  /** The leg shows calls b..e of pattern k, under the names of the pattern. */
  ghost predicate RideOf(g: Graph, k: PatternKey, b: nat, e: nat, leg: Leg) {
    && leg.RideLeg? && k in g.patterns && b < e < |g.patterns[k].stops|
    && var p := g.patterns[k];
    && leg.routeId == p.routeId && leg.directionId == p.directionId && leg.platformHint == p.headsign
    && |leg.stations| == e - b + 1
    && (forall i :: 0 <= i <= e - b ==> leg.stations[i] == JourneyStop(p.stops[b + i].stopId, p.stops[b + i].name))
    && leg.board == leg.stations[0] && leg.alight == leg.stations[e - b]
  }

  /** Every ride of every plan follows the timetable of a pattern, under every preference. */
  lemma RideTimes(g: Graph, base: Params, preference: string, origin: StopId, destination: StopId, departure: real,
                  plan: JourneyPlan, j: nat)
    requires IsPlanFor(g, base, preference, origin, destination, departure, plan)
    requires j < |plan.legs| && plan.legs[j].RideLeg?
    ensures exists k, b, e :: RideOf(g, k, b, e, plan.legs[j])
                              && FollowsTimetable(g.patterns[k], b, e, base.minHop, plan.legs[j].rideSeconds)
  {
    hide Simple, Path, FollowsTimetable, RideOf, Piece;
    var acts, cuts :|
      && Optimal(g, SearchWeights(base, preference).value, origin, destination, acts)
      && Simple(g, At(origin), acts) && Assembled(g, base, origin, destination, departure, acts, cuts, plan);
    assert Assembled(g, base, origin, destination, departure, acts, cuts, plan);
    SimpleLegSpans(g, base, origin, destination, acts, plan.legs, cuts, j);
    PieceIsRide(g, base, origin, destination, acts, plan.legs, cuts, j);
  }

  lemma PieceIsRide(g: Graph, base: Params, origin: StopId, destination: StopId, acts: seq<Action>, legs: seq<Leg>,
                    cuts: seq<nat>, j: nat)
    requires Path(g, base.minHop, At(origin), acts, At(destination)) && Cut(g, base, acts, legs, cuts, |acts|)
    requires j < |legs| && legs[j].RideLeg? && LegSpans(g, origin, acts, legs, cuts, j)
    ensures exists k, b, e :: RideOf(g, k, b, e, legs[j])
                              && FollowsTimetable(g.patterns[k], b, e, base.minHop, legs[j].rideSeconds)
  {
    hide Path, FollowsTimetable, PathCost;
    assert Piece(g, base, acts, legs, cuts, |acts|, j);
    var lo, hi := cuts[j], cuts[j + 1];
    var k, b, e := acts[lo].key, acts[lo].index, acts[hi - 1].index;
    assert |legs[j].stations| == e - b + 1;
    RidesFollow(g, base, origin, destination, acts, lo, hi - lo - 2);
    assert RideOf(g, k, b, e, legs[j]);
  }

  // ----- names and walks

  /** Shown under its name, or its id when it has none. */
  ghost predicate Named(g: Graph, stop: JourneyStop) {
    stop.name == if stop.stopId in g.stopNames then g.stopNames[stop.stopId] else stop.stopId
  }

  /** Walking legs are edges of the network, and endpoints carry the network's names. */
  lemma WalksAreEdges(g: Graph, base: Params, preference: string, origin: StopId, destination: StopId, departure: real,
                      plan: JourneyPlan, j: nat)
    requires IsPlanFor(g, base, preference, origin, destination, departure, plan)
    ensures plan.origin.stopId == origin && Named(g, plan.origin)
    ensures plan.destination.stopId == destination && Named(g, plan.destination)
    ensures j < |plan.legs| && plan.legs[j].WalkLeg? ==>
              var leg := plan.legs[j];
              && Named(g, leg.board) && Named(g, leg.alight) && leg.board.stopId in g.walkEdges
              && WalkEdge(leg.alight.stopId, leg.distance, leg.walkSeconds) in g.walkEdges[leg.board.stopId]
  {
    hide Simple;
    var acts, cuts :|
      && Optimal(g, SearchWeights(base, preference).value, origin, destination, acts)
      && Simple(g, At(origin), acts) && Assembled(g, base, origin, destination, departure, acts, cuts, plan);
    assert Assembled(g, base, origin, destination, departure, acts, cuts, plan);
    if j < |plan.legs| && plan.legs[j].WalkLeg? {
      assert Piece(g, base, acts, plan.legs, cuts, |acts|, j);
      assert Enabled(g, base.minHop, StateAt(g, At(origin), acts, cuts[j]), acts[cuts[j]]);
    }
  }

  // ----- time

  function RideSeconds(legs: seq<Leg>): real {
    if legs == [] then 0.0
    else RideSeconds(legs[..|legs| - 1]) + (if legs[|legs| - 1].RideLeg? then legs[|legs| - 1].rideSeconds else 0.0)
  }

  ghost predicate WaitsAre(legs: seq<Leg>, wait: real) {
    forall j :: 0 <= j < |legs| && legs[j].RideLeg? ==> legs[j].waitSeconds == wait
  }

  lemma {:induction false} TotalSplits(legs: seq<Leg>, wait: real)
    requires WaitsAre(legs, wait)
    ensures TotalSeconds(legs) == Rides(legs) as real * wait + RideSeconds(legs) + WalkSeconds(legs)
  {
    if legs != [] {
      TotalSplits(legs[..|legs| - 1], wait);
      var n := Rides(legs[..|legs| - 1]) as real;
      assert (n + 1.0) * wait == n * wait + wait;
    }
  }

  /**
  The clock is honest under every preference: the displayed time is one unweighted boarding wait per ride plus the
  riding and the walking of the legs, and the arrival is the departure plus that.
  */
  lemma TimeConserved(g: Graph, base: Params, preference: string, origin: StopId, destination: StopId, departure: real,
                      plan: JourneyPlan)
    requires IsPlanFor(g, base, preference, origin, destination, departure, plan)
    ensures var waiting := Rides(plan.legs) as real * base.boardPenalty;
            plan.travelSeconds == waiting + RideSeconds(plan.legs) + WalkSeconds(plan.legs)
    ensures plan.expectedArrivalAt == departure + plan.travelSeconds
    ensures plan.interchanges == Max(Rides(plan.legs) - 1, 0) && plan.walkingDistance == WalkDistance(plan.legs)
  {
    hide Optimal, Simple, Assembled, SearchWeights;
    var acts, cuts :|
      && Optimal(g, SearchWeights(base, preference).value, origin, destination, acts)
      && Simple(g, At(origin), acts) && Assembled(g, base, origin, destination, departure, acts, cuts, plan);
    AssembledClock(g, base, origin, destination, departure, acts, cuts, plan);
  }

  lemma AssembledClock(g: Graph, base: Params, origin: StopId, destination: StopId, departure: real,
                       acts: seq<Action>, cuts: seq<nat>, plan: JourneyPlan)
    requires Assembled(g, base, origin, destination, departure, acts, cuts, plan)
    ensures var waiting := Rides(plan.legs) as real * base.boardPenalty;
            plan.travelSeconds == waiting + RideSeconds(plan.legs) + WalkSeconds(plan.legs)
    ensures plan.expectedArrivalAt == departure + plan.travelSeconds
    ensures plan.interchanges == Max(Rides(plan.legs) - 1, 0) && plan.walkingDistance == WalkDistance(plan.legs)
  {
    hide Cut, PathCost;
    PlannedWaits(g, base, acts, plan.legs, cuts);
    TotalSplits(plan.legs, base.boardPenalty);
  }

  /** Every ride of a plan waits the base penalty, whatever the search weighed it with. */
  lemma PlannedWaits(g: Graph, base: Params, acts: seq<Action>, legs: seq<Leg>, cuts: seq<nat>)
    requires Cut(g, base, acts, legs, cuts, |acts|)
    ensures WaitsAre(legs, base.boardPenalty)
  {
    forall j | 0 <= j < |legs| && legs[j].RideLeg?
      ensures legs[j].waitSeconds == base.boardPenalty
    {
      assert Piece(g, base, acts, legs, cuts, |acts|, j);
    }
  }

  /** The fastest plan's displayed time is the one-to-all search's value for the same pair. */
  lemma FastestIsTravelSeconds(g: Graph, base: Params, origin: StopId, destination: StopId, departure: real,
                               plan: JourneyPlan, p: seq<Action>)
    requires base.walkMultiplier == 1.0 && IsPlanFor(g, base, "fastest", origin, destination, departure, plan)
    requires Optimal(g, base, origin, destination, p)
    ensures plan.travelSeconds == PathCost(base, p)
  {
    var acts, cuts :|
      && Optimal(g, base, origin, destination, acts)
      && Assembled(g, base, origin, destination, departure, acts, cuts, plan);
    assert base == base.(walkMultiplier := 1.0);
  }

  /** `travel_seconds_from` and a "fastest" plan agree on every pair of stops the planner accepts. */
  method CompareReach(g: Graph, base: Params, origin: StopId, destination: StopId, departure: real)
      returns (reach: Option<map<StopId, real>>, r: PlanResult)
    requires g.Valid() && base.NonNegative()
    ensures r.Planned?
       <==> reach.Some? && destination in reach.value && origin != destination && destination in g.stopNames
    ensures r.Planned? && base.walkMultiplier == 1.0 ==> r.plan.travelSeconds == reach.value[destination]
  {
    reach := Search.TravelSecondsFrom(g, origin, base);
    r := Plan(g, base, origin, destination, departure, "fastest");
    assert reach.Some? ==> Search.Distances(g, base, origin, reach.value);
    if r.Planned? && base.walkMultiplier == 1.0 {
      ghost var p :| Optimal(g, base, origin, destination, p) && PathCost(base, p) == reach.value[destination];
      FastestIsTravelSeconds(g, base, origin, destination, departure, r.plan, p);
    }
  }

  // ----- exchange laws between preferences

  /** The part of a search cost spent on boarding. */
  function BoardCost(w: Params, acts: seq<Action>): real {
    if acts == [] then 0.0
    else BoardCost(w, acts[..|acts| - 1]) + (if acts[|acts| - 1].Board? then w.boardPenalty else 0.0)
  }

  /** The part of a search cost spent on walking. */
  function WalkCost(w: Params, acts: seq<Action>): real {
    if acts == [] then 0.0
    else
      var last := acts[|acts| - 1];
      WalkCost(w, acts[..|acts| - 1]) + (if last.Walk? then last.seconds * w.walkMultiplier else 0.0)
  }

  /** Quadrupling the boarding penalty adds three times the boarding cost. */
  lemma {:induction false} FewerTransfersCost(base: Params, acts: seq<Action>)
    ensures PathCost(base.(boardPenalty := base.boardPenalty * 4.0), acts)
         == PathCost(base, acts) + 3.0 * BoardCost(base, acts)
  {
    if acts != [] {
      FewerTransfersCost(base, acts[..|acts| - 1]);
    }
  }

  lemma {:induction false} BoardCostCounts(base: Params, acts: seq<Action>)
    ensures BoardCost(base, acts) == (Boardings(acts) as real) * base.boardPenalty
  {
    if acts != [] {
      BoardCostCounts(base, acts[..|acts| - 1]);
      var n := Boardings(acts[..|acts| - 1]) as real;
      assert (n + 1.0) * base.boardPenalty == n * base.boardPenalty + base.boardPenalty;
    }
  }

  lemma CheaperBoardsLess(base: Params, p: seq<Action>, q: seq<Action>)
    requires base.boardPenalty > 0.0 && BoardCost(base, q) <= BoardCost(base, p)
    ensures Boardings(q) <= Boardings(p)
  {
    BoardCostCounts(base, p);
    BoardCostCounts(base, q);
    Unscale(Boardings(q) as real, Boardings(p) as real, base.boardPenalty);
  }

  /** Multiplying the walking weight by six adds five times the walking cost. */
  lemma {:induction false} LessWalkingCost(base: Params, acts: seq<Action>)
    ensures PathCost(base.(walkMultiplier := base.walkMultiplier * 6.0), acts)
         == PathCost(base, acts) + 5.0 * WalkCost(base, acts)
  {
    if acts != [] {
      LessWalkingCost(base, acts[..|acts| - 1]);
      var a := acts[|acts| - 1];
      if a.Walk? {
        assert a.seconds * (base.walkMultiplier * 6.0) == 6.0 * (a.seconds * base.walkMultiplier);
      }
    }
  }

  lemma {:induction false} WalkCostScales(base: Params, acts: seq<Action>)
    ensures WalkCost(base, acts) == Walking(acts) * base.walkMultiplier
  {
    if acts != [] {
      WalkCostScales(base, acts[..|acts| - 1]);
      var a, w := acts[|acts| - 1], Walking(acts[..|acts| - 1]);
      if a.Walk? {
        assert (w + a.seconds) * base.walkMultiplier == w * base.walkMultiplier + a.seconds * base.walkMultiplier;
      }
    }
  }

  lemma Unscale(x: real, y: real, unit: real)
    requires unit > 0.0 && x * unit <= y * unit
    ensures x <= y
  {
    assert unit * (y - x) == y * unit - x * unit;
  }

  /** The two optimal action lists behind two plans, compared under both weightings. */
  lemma Exchange(g: Graph, base: Params, preference: string, origin: StopId, destination: StopId, departure: real,
                 fast: JourneyPlan, other: JourneyPlan) returns (p: seq<Action>, q: seq<Action>)
    requires IsPlanFor(g, base, "fastest", origin, destination, departure, fast)
    requires IsPlanFor(g, base, preference, origin, destination, departure, other)
    ensures var w := SearchWeights(base, preference).value;
            PathCost(base, p) <= PathCost(base, q) && PathCost(w, q) <= PathCost(w, p)
    ensures fast.travelSeconds == Clock(base, p) && other.travelSeconds == Clock(base, q)
    ensures Rides(fast.legs) == Boardings(p) && fast.interchanges == Max(Boardings(p) - 1, 0)
    ensures Rides(other.legs) == Boardings(q) && other.interchanges == Max(Boardings(q) - 1, 0)
    ensures WalkSeconds(fast.legs) == Walking(p) && WalkSeconds(other.legs) == Walking(q)
  {
    var w := SearchWeights(base, preference).value;
    ghost var c, d;
    p, c :| Optimal(g, base, origin, destination, p) && Assembled(g, base, origin, destination, departure, p, c, fast);
    q, d :| Optimal(g, w, origin, destination, q) && Assembled(g, base, origin, destination, departure, q, d, other);
    hide Assembled, Path;
    AssembledTotals(g, base, origin, destination, departure, p, c, fast);
    AssembledTotals(g, base, origin, destination, departure, q, d, other);
    assert base.minHop == w.minHop;
  }

  lemma FewerTransfersWeights(base: Params)
    ensures SearchWeights(base, "fewer_transfers") == Some(base.(boardPenalty := base.boardPenalty * 4.0))
  {
    assert |"fewer_transfers"| != |"fastest"|;
  }

  lemma LessWalkingWeights(base: Params)
    ensures SearchWeights(base, "less_walking") == Some(base.(walkMultiplier := base.walkMultiplier * 6.0))
  {
    assert |"less_walking"| != |"fastest"| && |"less_walking"| != |"fewer_transfers"|;
  }

  /** Four-fold boarding cost never yields more boardings, and the plan never shows less time than the fastest. */
  lemma FewerTransfers(g: Graph, base: Params, origin: StopId, destination: StopId, departure: real, fast: JourneyPlan,
                       few: JourneyPlan)
    requires base.boardPenalty > 0.0
    requires IsPlanFor(g, base, "fastest", origin, destination, departure, fast)
    requires IsPlanFor(g, base, "fewer_transfers", origin, destination, departure, few)
    ensures few.interchanges <= fast.interchanges && Rides(few.legs) <= Rides(fast.legs)
    ensures base.walkMultiplier == 1.0 ==> fast.travelSeconds <= few.travelSeconds
  {
    hide IsPlanFor;
    FewerTransfersWeights(base);
    var p, q := Exchange(g, base, "fewer_transfers", origin, destination, departure, fast, few);
    hide SearchWeights, PathCost;
    BoardsLess(base, p, q);
    assert base.walkMultiplier == 1.0 ==> base == base.(walkMultiplier := 1.0);
  }

  /** Cheaper when boarding counts four-fold but not when it counts once: no more boardings. */
  lemma BoardsLess(base: Params, p: seq<Action>, q: seq<Action>)
    requires base.boardPenalty > 0.0 && PathCost(base, p) <= PathCost(base, q)
    requires var w := base.(boardPenalty := base.boardPenalty * 4.0); PathCost(w, q) <= PathCost(w, p)
    ensures Boardings(q) <= Boardings(p)
  {
    hide PathCost;
    FewerTransfersCost(base, p);
    FewerTransfersCost(base, q);
    CheaperBoardsLess(base, p, q);
  }

  /** Six-fold walking cost never yields more walking time, and the plan never shows less time than the fastest. */
  lemma LessWalking(g: Graph, base: Params, origin: StopId, destination: StopId, departure: real, fast: JourneyPlan,
                    less: JourneyPlan)
    requires base.walkMultiplier > 0.0
    requires IsPlanFor(g, base, "fastest", origin, destination, departure, fast)
    requires IsPlanFor(g, base, "less_walking", origin, destination, departure, less)
    ensures WalkSeconds(less.legs) <= WalkSeconds(fast.legs)
    ensures base.walkMultiplier == 1.0 ==> fast.travelSeconds <= less.travelSeconds
  {
    hide IsPlanFor;
    LessWalkingWeights(base);
    var p, q := Exchange(g, base, "less_walking", origin, destination, departure, fast, less);
    hide SearchWeights, PathCost;
    WalksLess(base, p, q);
    assert base.walkMultiplier == 1.0 ==> base == base.(walkMultiplier := 1.0);
  }

  /** Cheaper when walking counts six-fold but not when it counts once: no more walking. */
  lemma WalksLess(base: Params, p: seq<Action>, q: seq<Action>)
    requires base.walkMultiplier > 0.0 && PathCost(base, p) <= PathCost(base, q)
    requires var w := base.(walkMultiplier := base.walkMultiplier * 6.0); PathCost(w, q) <= PathCost(w, p)
    ensures Walking(q) <= Walking(p)
  {
    hide PathCost, Walking;
    LessWalkingCost(base, p);
    LessWalkingCost(base, q);
    assert WalkCost(base, q) <= WalkCost(base, p);
    hide WalkCost;
    WalkCostScales(base, p);
    WalkCostScales(base, q);
    Unscale(Walking(q), Walking(p), base.walkMultiplier);
  }

  lemma AssembledTotals(g: Graph, base: Params, origin: StopId, destination: StopId, departure: real,
                        acts: seq<Action>, cuts: seq<nat>, plan: JourneyPlan)
    requires Assembled(g, base, origin, destination, departure, acts, cuts, plan)
    ensures plan.travelSeconds == Clock(base, acts) && WalkSeconds(plan.legs) == Walking(acts)
    ensures Rides(plan.legs) == Boardings(acts) && plan.interchanges == Max(Boardings(acts) - 1, 0)
  {
  }
}
