/**
From action lists to journey plans: leg assembly, route preferences, and the planner's entry point.
*/
module Planner {
  import opened Common
  import opened Network

  datatype JourneyStop = JourneyStop(stopId: StopId, name: string)

  datatype Leg =
    | RideLeg(board: JourneyStop, alight: JourneyStop, routeId: string, directionId: Option<int>, platformHint: string,
              stations: seq<JourneyStop>, rideSeconds: real, waitSeconds: real)
    | WalkLeg(board: JourneyStop, alight: JourneyStop, distance: real, walkSeconds: real)

  datatype JourneyPlan = JourneyPlan(
    origin: JourneyStop, destination: JourneyStop, departureAt: real, expectedArrivalAt: real,
    travelSeconds: real, interchanges: nat, walkingDistance: real, legs: seq<Leg>)

  datatype PlanError = NoRoute | UnknownStop(stopId: StopId) | UnknownPreference(preference: string)

  datatype PlanResult = Planned(plan: JourneyPlan) | Refused(error: PlanError)

  function StopNamed(g: Graph, stopId: StopId): JourneyStop {
    JourneyStop(stopId, if stopId in g.stopNames then g.stopNames[stopId] else stopId)
  }

  function StationsOf(p: Pattern, lo: nat, hi: nat): (r: seq<JourneyStop>)
    requires lo <= hi < |p.stops|
    ensures |r| == hi - lo + 1
  {
    seq(hi - lo + 1, i requires 0 <= i < hi - lo + 1 => JourneyStop(p.stops[lo + i].stopId, p.stops[lo + i].name))
  }

  // ----- measures of action lists and of leg lists

  /** Real elapsed seconds of an action list: the search cost with walking unweighted. */
  function Clock(base: Params, acts: seq<Action>): real {
    PathCost(base.(walkMultiplier := 1.0), acts)
  }

  function Boardings(acts: seq<Action>): nat {
    if acts == [] then 0 else Boardings(acts[..|acts| - 1]) + (if acts[|acts| - 1].Board? then 1 else 0)
  }

  function Walking(acts: seq<Action>): real {
    if acts == [] then 0.0
    else Walking(acts[..|acts| - 1]) + (if acts[|acts| - 1].Walk? then acts[|acts| - 1].seconds else 0.0)
  }

  function LegSeconds(leg: Leg): real {
    match leg
    case RideLeg(_, _, _, _, _, _, ride, wait) => wait + ride
    case WalkLeg(_, _, _, walk) => walk
  }

  function TotalSeconds(legs: seq<Leg>): real {
    if legs == [] then 0.0 else TotalSeconds(legs[..|legs| - 1]) + LegSeconds(legs[|legs| - 1])
  }

  function WalkSeconds(legs: seq<Leg>): real {
    if legs == [] then 0.0
    else WalkSeconds(legs[..|legs| - 1]) + (if legs[|legs| - 1].WalkLeg? then legs[|legs| - 1].walkSeconds else 0.0)
  }

  function WalkDistance(legs: seq<Leg>): real {
    if legs == [] then 0.0
    else WalkDistance(legs[..|legs| - 1]) + (if legs[|legs| - 1].WalkLeg? then legs[|legs| - 1].distance else 0.0)
  }

  function Rides(legs: seq<Leg>): nat {
    if legs == [] then 0 else Rides(legs[..|legs| - 1]) + (if legs[|legs| - 1].RideLeg? then 1 else 0)
  }

  // ----- which actions a leg stands for

  /** acts[lo..hi] is `board ride* alight` on one pattern, one stop at a time. */
  ghost predicate RideWord(acts: seq<Action>, lo: nat, hi: nat)
    requires hi <= |acts|
  {
    && lo + 2 <= hi && acts[lo].Board?
    && acts[hi - 1] == Alight(acts[lo].key, acts[lo].index + (hi - lo - 2))
    && RidesOn(acts, lo, hi - 1)
  }

  ghost predicate RidesOn(acts: seq<Action>, lo: nat, hi: nat)
    requires lo < |acts| && acts[lo].Board? && hi <= |acts|
  {
    forall j :: lo < j < hi ==>
        acts[j].Ride? && acts[j].key == acts[lo].key && acts[j].index == acts[lo].index + (j - lo)
  }

  /** The leg is an exact account of acts[lo..hi]. */
  ghost predicate Describes(g: Graph, base: Params, acts: seq<Action>, lo: nat, hi: nat, leg: Leg)
    requires hi <= |acts|
  {
    match leg
    case WalkLeg(board, alight, distance, seconds) =>
      && hi == lo + 1 && acts[lo] == Walk(board.stopId, alight.stopId, distance, seconds)
      && board == StopNamed(g, board.stopId) && alight == StopNamed(g, alight.stopId)
    case RideLeg(board, alight, routeId, directionId, hint, stations, ride, wait) =>
      && RideWord(acts, lo, hi) && acts[lo].key in g.patterns
      && var p, b, e := g.patterns[acts[lo].key], acts[lo].index, acts[hi - 1].index;
      && b <= e < |p.stops| && stations == StationsOf(p, b, e)
      && board == stations[0] && alight == stations[e - b]
      && routeId == p.routeId && directionId == p.directionId && hint == p.headsign
      && ride == Clock(base, acts[lo + 1..hi - 1]) && wait == base.boardPenalty
  }

  /** `legs` cuts acts[..n] into consecutive described pieces. */
  ghost predicate Cut(g: Graph, base: Params, acts: seq<Action>, legs: seq<Leg>, cuts: seq<nat>, n: nat) {
    && |cuts| == |legs| + 1 && cuts[0] == 0 && cuts[|legs|] == n <= |acts|
    && (forall j :: 0 <= j < |legs| ==> Piece(g, base, acts, legs, cuts, n, j))
  }

  ghost predicate Piece(g: Graph, base: Params, acts: seq<Action>, legs: seq<Leg>, cuts: seq<nat>, n: nat, j: nat)
    requires n <= |acts| && |cuts| == |legs| + 1 && j < |legs|
  {
    cuts[j] < cuts[j + 1] <= n && Describes(g, base, acts, cuts[j], cuts[j + 1], legs[j])
  }

  ghost predicate Assembled(g: Graph, base: Params, origin: StopId, destination: StopId, departure: real,
                            acts: seq<Action>, cuts: seq<nat>, plan: JourneyPlan) {
    && Cut(g, base, acts, plan.legs, cuts, |acts|)
    && plan.origin == StopNamed(g, origin) && plan.destination == StopNamed(g, destination)
    && plan.departureAt == departure && plan.expectedArrivalAt == departure + plan.travelSeconds
    && plan.travelSeconds == Clock(base, acts) == TotalSeconds(plan.legs)
    && plan.walkingDistance == WalkDistance(plan.legs) && WalkSeconds(plan.legs) == Walking(acts)
    && Rides(plan.legs) == Boardings(acts) && plan.interchanges == Max(Rides(plan.legs) - 1, 0)
  }

  // ----- folding actions into legs

  /** Mid-ride: boarded at acts[lo], riding since. */
  ghost predicate Riding(g: Graph, base: Params, origin: StopId, acts: seq<Action>, lo: nat, n: nat,
                         boarded: (PatternKey, nat), ride: real)
    requires n <= |acts|
  {
    && lo < n && acts[lo] == Board(boarded.0, boarded.1) && RidesOn(acts, lo, n)
    && StateAt(g, At(origin), acts, n) == On(boarded.0, boarded.1 + (n - 1 - lo))
    && ride == Clock(base, acts[lo + 1..n])
  }

  /** The accumulators after the first n actions. */
  datatype Fold = Fold(
    legs: seq<Leg>, boarded: Option<(PatternKey, nat)>, rideSeconds: real, totalSeconds: real, walkingTotal: real)

  ghost predicate Folded(g: Graph, base: Params, origin: StopId, acts: seq<Action>, n: nat, f: Fold, cuts: seq<nat>) {
    && n <= |acts| && |cuts| == |f.legs| + 1 && cuts[|f.legs|] <= n && Cut(g, base, acts, f.legs, cuts, cuts[|f.legs|])
    && (match f.boarded
        case None => cuts[|f.legs|] == n && StateAt(g, At(origin), acts, n).At?
        case Some(b) => Riding(g, base, origin, acts, cuts[|f.legs|], n, b, f.rideSeconds))
    && Tallied(base, acts[..n], f)
  }

  ghost predicate Tallied(base: Params, done: seq<Action>, f: Fold) {
    && f.totalSeconds == Clock(base, done)
    && f.totalSeconds == TotalSeconds(f.legs) + (if f.boarded.Some? then base.boardPenalty + f.rideSeconds else 0.0)
    && f.walkingTotal == WalkDistance(f.legs) && WalkSeconds(f.legs) == Walking(done)
    && Rides(f.legs) + (if f.boarded.Some? then 1 else 0) == Boardings(done)
  }

  lemma Tallies(base: Params, acts: seq<Action>, n: nat)
    requires n < |acts|
    ensures Clock(base, acts[..n + 1]) == Clock(base, acts[..n]) + Weight(base.(walkMultiplier := 1.0), acts[n])
    ensures Walking(acts[..n + 1]) == Walking(acts[..n]) + (if acts[n].Walk? then acts[n].seconds else 0.0)
    ensures Boardings(acts[..n + 1]) == Boardings(acts[..n]) + (if acts[n].Board? then 1 else 0)
  {
    assert acts[..n + 1][..n] == acts[..n];
  }

  lemma FoldWalk(g: Graph, base: Params, origin: StopId, acts: seq<Action>, n: nat, f: Fold, cuts: seq<nat>, leg: Leg)
    requires Folded(g, base, origin, acts, n, f, cuts) && n < |acts| && acts[n].Walk?
    requires Enabled(g, base.minHop, StateAt(g, At(origin), acts, n), acts[n])
    requires leg == WalkLeg(StopNamed(g, acts[n].from), StopNamed(g, acts[n].to), acts[n].distance, acts[n].seconds)
    ensures Folded(g, base, origin, acts, n + 1,
                   f.(legs := f.legs + [leg], walkingTotal := f.walkingTotal + leg.distance,
                      totalSeconds := f.totalSeconds + leg.walkSeconds),
                   cuts + [n + 1])
  {
    hide Cut;
    Tallies(base, acts, n);
    AppendLeg(g, base, acts, f.legs, cuts, n + 1, leg);
  }

  lemma FoldBoard(g: Graph, base: Params, origin: StopId, acts: seq<Action>, n: nat, f: Fold, cuts: seq<nat>)
    requires Folded(g, base, origin, acts, n, f, cuts) && n < |acts| && acts[n].Board?
    requires Enabled(g, base.minHop, StateAt(g, At(origin), acts, n), acts[n])
    ensures Folded(g, base, origin, acts, n + 1,
                   f.(boarded := Some((acts[n].key, acts[n].index)), rideSeconds := 0.0,
                      totalSeconds := f.totalSeconds + base.boardPenalty),
                   cuts)
  {
    hide Cut;
    Tallies(base, acts, n);
    assert acts[n + 1..n + 1] == [];
  }

  lemma FoldRide(g: Graph, base: Params, origin: StopId, acts: seq<Action>, n: nat, f: Fold, cuts: seq<nat>)
    requires Folded(g, base, origin, acts, n, f, cuts) && n < |acts| && acts[n].Ride?
    requires Enabled(g, base.minHop, StateAt(g, At(origin), acts, n), acts[n])
    ensures Folded(g, base, origin, acts, n + 1,
                   f.(rideSeconds := f.rideSeconds + acts[n].hop, totalSeconds := f.totalSeconds + acts[n].hop), cuts)
  {
    hide Cut;
    Tallies(base, acts, n);
    var lo := cuts[|f.legs|];
    assert acts[lo + 1..n + 1][..n - lo - 1] == acts[lo + 1..n];
  }

  /** Alighting is only ever reached while riding the same pattern: the planner's own assertion. */
  lemma AlightsFromBoarded(g: Graph, base: Params, origin: StopId, acts: seq<Action>, n: nat, f: Fold, cuts: seq<nat>)
    requires Folded(g, base, origin, acts, n, f, cuts) && n < |acts| && acts[n].Alight?
    requires Enabled(g, base.minHop, StateAt(g, At(origin), acts, n), acts[n])
    ensures f.boarded.Some? && f.boarded.value.0 == acts[n].key
    ensures acts[n].key in g.patterns && f.boarded.value.1 <= acts[n].index < |g.patterns[acts[n].key].stops|
  {
    hide Cut;
  }

  /** The leg of a ride from one index of a pattern to a later one. */
  function RideLegOf(p: Pattern, from: nat, to: nat, seconds: real, wait: real): Leg
    requires from <= to < |p.stops|
  {
    var stations := StationsOf(p, from, to);
    RideLeg(stations[0], stations[|stations| - 1], p.routeId, p.directionId, p.headsign, stations, seconds, wait)
  }

  lemma FoldAlight(g: Graph, base: Params, origin: StopId, acts: seq<Action>, n: nat, f: Fold, cuts: seq<nat>, leg: Leg)
    requires Folded(g, base, origin, acts, n, f, cuts) && n < |acts| && acts[n].Alight? && f.boarded.Some?
    requires Enabled(g, base.minHop, StateAt(g, At(origin), acts, n), acts[n])
    requires acts[n].key in g.patterns && f.boarded.value.1 <= acts[n].index < |g.patterns[acts[n].key].stops|
    requires leg == RideLegOf(g.patterns[acts[n].key], f.boarded.value.1, acts[n].index, f.rideSeconds,
                              base.boardPenalty)
    ensures Folded(g, base, origin, acts, n + 1, f.(legs := f.legs + [leg], boarded := None), cuts + [n + 1])
  {
    hide Cut;
    Tallies(base, acts, n);
    AppendLeg(g, base, acts, f.legs, cuts, n + 1, leg);
  }

  lemma FoldStart(g: Graph, base: Params, origin: StopId, acts: seq<Action>)
    ensures Folded(g, base, origin, acts, 0, Fold([], None, 0.0, 0.0, 0.0), [0])
  {
    assert acts[..0] == [];
  }

  lemma FoldEnd(g: Graph, base: Params, origin: StopId, destination: StopId, departure: real, acts: seq<Action>,
                f: Fold, cuts: seq<nat>, plan: JourneyPlan)
    requires Folded(g, base, origin, acts, |acts|, f, cuts) && Path(g, base.minHop, At(origin), acts, At(destination))
    requires plan == JourneyPlan(StopNamed(g, origin), StopNamed(g, destination), departure, departure + f.totalSeconds,
                                 f.totalSeconds, Max(Rides(f.legs) - 1, 0), f.walkingTotal, f.legs)
    ensures Assembled(g, base, origin, destination, departure, acts, cuts, plan)
  {
    hide Cut;
    assert acts[..|acts|] == acts;
  }

  lemma PathStep(g: Graph, base: Params, origin: StopId, destination: StopId, acts: seq<Action>, n: nat)
    requires Path(g, base.minHop, At(origin), acts, At(destination)) && n < |acts|
    ensures Enabled(g, base.minHop, StateAt(g, At(origin), acts, n), acts[n])
  {
  }

  /** An alighting ends the ride that was boarded, later on the same pattern. */
  ghost predicate Foldable(g: Graph, f: Fold, a: Action) {
    a.Alight? ==>
      && f.boarded.Some? && f.boarded.value.0 == a.key && a.key in g.patterns
      && f.boarded.value.1 <= a.index < |g.patterns[a.key].stops|
  }

  /** The accumulators after one more action. */
  ghost function NextFold(g: Graph, base: Params, f: Fold, a: Action): Fold
    requires Foldable(g, f, a)
  {
    match a
    case Walk(from, to, distance, seconds) =>
      var leg := WalkLeg(StopNamed(g, from), StopNamed(g, to), distance, seconds);
      f.(legs := f.legs + [leg], walkingTotal := f.walkingTotal + distance, totalSeconds := f.totalSeconds + seconds)
    case Board(key, index) =>
      f.(boarded := Some((key, index)), rideSeconds := 0.0, totalSeconds := f.totalSeconds + base.boardPenalty)
    case Ride(_, _, hop) => f.(rideSeconds := f.rideSeconds + hop, totalSeconds := f.totalSeconds + hop)
    case Alight(key, index) =>
      var leg := RideLegOf(g.patterns[key], f.boarded.value.1, index, f.rideSeconds, base.boardPenalty);
      f.(legs := f.legs + [leg], boarded := None)
  }

  lemma NextFoldIs(g: Graph, base: Params, f: Fold, a: Action)
    requires Foldable(g, f, a)
    ensures var next := NextFold(g, base, f, a);
            match a
            case Walk(from, to, distance, seconds) =>
              next == Fold(f.legs + [WalkLeg(StopNamed(g, from), StopNamed(g, to), distance, seconds)], f.boarded,
                           f.rideSeconds, f.totalSeconds + seconds, f.walkingTotal + distance)
            case Board(key, index) =>
              next == Fold(f.legs, Some((key, index)), 0.0, f.totalSeconds + base.boardPenalty, f.walkingTotal)
            case Ride(_, _, hop) =>
              next == Fold(f.legs, f.boarded, f.rideSeconds + hop, f.totalSeconds + hop, f.walkingTotal)
            case Alight(key, index) =>
              var leg := RideLegOf(g.patterns[key], f.boarded.value.1, index, f.rideSeconds, base.boardPenalty);
              next == Fold(f.legs + [leg], None, f.rideSeconds, f.totalSeconds, f.walkingTotal)
  {
    hide RideLegOf, StopNamed;
  }

  ghost function NextCuts(cuts: seq<nat>, a: Action, n: nat): seq<nat> {
    if a.Walk? || a.Alight? then cuts + [n + 1] else cuts
  }

  /** One more action of a path folds in, and the planner's own assertion holds on the way. */
  lemma FoldStep(g: Graph, base: Params, origin: StopId, destination: StopId, acts: seq<Action>, n: nat, f: Fold,
                 cuts: seq<nat>)
    requires Path(g, base.minHop, At(origin), acts, At(destination)) && n < |acts|
    requires Folded(g, base, origin, acts, n, f, cuts)
    ensures Foldable(g, f, acts[n])
    ensures acts[n].Alight? ==>
              && f.boarded.Some? && f.boarded.value.0 == acts[n].key && acts[n].key in g.patterns
              && f.boarded.value.1 <= acts[n].index < |g.patterns[acts[n].key].stops|
    ensures Folded(g, base, origin, acts, n + 1, NextFold(g, base, f, acts[n]), NextCuts(cuts, acts[n], n))
  {
    hide Folded, Path, Enabled;
    PathStep(g, base, origin, destination, acts, n);
    match acts[n]
    case Walk(from, to, distance, seconds) =>
      FoldWalk(g, base, origin, acts, n, f, cuts, WalkLeg(StopNamed(g, from), StopNamed(g, to), distance, seconds));
    case Board(_, _) => FoldBoard(g, base, origin, acts, n, f, cuts);
    case Ride(_, _, _) => FoldRide(g, base, origin, acts, n, f, cuts);
    case Alight(key, index) =>
      AlightsFromBoarded(g, base, origin, acts, n, f, cuts);
      FoldAlight(g, base, origin, acts, n, f, cuts,
                 RideLegOf(g.patterns[key], f.boarded.value.1, index, f.rideSeconds, base.boardPenalty));
  }

  /** Folds an action list into legs and timings. */
  method BuildPlan(g: Graph, base: Params, origin: StopId, destination: StopId, departure: real, actions: seq<Action>)
      returns (plan: JourneyPlan)
    requires Path(g, base.minHop, At(origin), actions, At(destination))
    ensures exists cuts :: Assembled(g, base, origin, destination, departure, actions, cuts, plan)
  {
    var legs: seq<Leg>, walkingTotal, totalSeconds, rideSeconds := [], 0.0, 0.0, 0.0;
    var boarded: Option<(PatternKey, nat)> := None;
    hide *;
    ghost var f, cuts := Fold([], None, 0.0, 0.0, 0.0), [0];
    FoldStart(g, base, origin, actions);
    for n := 0 to |actions|
      invariant f == Fold(legs, boarded, rideSeconds, totalSeconds, walkingTotal)
      invariant Folded(g, base, origin, actions, n, f, cuts)
    {
      var action := actions[n];
      FoldStep(g, base, origin, destination, actions, n, f, cuts);
      NextFoldIs(g, base, f, action);
      f, cuts := NextFold(g, base, f, action), NextCuts(cuts, action, n);
      match action {
        case Walk(from, to, distance, seconds) =>
          legs := legs + [WalkLeg(StopNamed(g, from), StopNamed(g, to), distance, seconds)];
          walkingTotal := walkingTotal + distance;
          totalSeconds := totalSeconds + seconds;
        case Board(key, index) =>
          boarded := Some((key, index));
          rideSeconds := 0.0;
          totalSeconds := totalSeconds + base.boardPenalty;
        case Ride(_, _, hop) =>
          rideSeconds := rideSeconds + hop;
          totalSeconds := totalSeconds + hop;
        case Alight(key, alightIndex) =>
          assert boarded.Some? && boarded.value.0 == key;
          legs := legs + [RideLegOf(g.patterns[key], boarded.value.1, alightIndex, rideSeconds, base.boardPenalty)];
          boarded := None;
      }
    }
    plan := JourneyPlan(StopNamed(g, origin), StopNamed(g, destination), departure, departure + totalSeconds,
                        totalSeconds, Max(Rides(legs) - 1, 0), walkingTotal, legs);
    FoldEnd(g, base, origin, destination, departure, actions, f, cuts, plan);
  }

  lemma AppendLeg(g: Graph, base: Params, acts: seq<Action>, legs: seq<Leg>, cuts: seq<nat>, hi: nat, leg: Leg)
    requires |cuts| == |legs| + 1 && Cut(g, base, acts, legs, cuts, cuts[|legs|])
    requires cuts[|legs|] < hi <= |acts| && Describes(g, base, acts, cuts[|legs|], hi, leg)
    ensures Cut(g, base, acts, legs + [leg], cuts + [hi], hi)
    ensures TotalSeconds(legs + [leg]) == TotalSeconds(legs) + LegSeconds(leg)
    ensures WalkSeconds(legs + [leg]) == WalkSeconds(legs) + (if leg.WalkLeg? then leg.walkSeconds else 0.0)
    ensures WalkDistance(legs + [leg]) == WalkDistance(legs) + (if leg.WalkLeg? then leg.distance else 0.0)
    ensures Rides(legs + [leg]) == Rides(legs) + (if leg.RideLeg? then 1 else 0)
  {
    hide Describes, Cut;
    assert (legs + [leg])[..|legs|] == legs;
    AppendCut(g, base, acts, legs, cuts, hi, leg);
  }

  lemma AppendCut(g: Graph, base: Params, acts: seq<Action>, legs: seq<Leg>, cuts: seq<nat>, hi: nat, leg: Leg)
    requires |cuts| == |legs| + 1 && Cut(g, base, acts, legs, cuts, cuts[|legs|])
    requires cuts[|legs|] < hi <= |acts| && Describes(g, base, acts, cuts[|legs|], hi, leg)
    ensures Cut(g, base, acts, legs + [leg], cuts + [hi], hi)
  {
    hide Describes;
    var longer, longerCuts := legs + [leg], cuts + [hi];
    forall j | 0 <= j < |longer|
      ensures Piece(g, base, acts, longer, longerCuts, hi, j)
    {
      if j < |legs| {
        assert Piece(g, base, acts, legs, cuts, cuts[|legs|], j);
      }
    }
  }
}
