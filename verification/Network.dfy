/**
The routable network and the two-layer state graph the journey planner searches.

States are `At(stop)` (off the train) and `On(pattern, index)` (riding). The four
kinds of edges are the four actions a rider can take. `Enabled` and `Dest` describe the
edges declaratively; the search itself finds them by scanning `patternsAt` and `walkEdges`.
*/
module Network {
  import opened Common

  type StopId = string

  datatype PatternKey = PatternKey(routeId: string, direction: int)

  datatype PatternStop = PatternStop(stopId: StopId, name: string, arrival: int, departure: int)

  datatype Pattern = Pattern(routeId: string, directionId: Option<int>, headsign: string, stops: seq<PatternStop>)

  datatype WalkEdge = WalkEdge(to: StopId, distance: real, seconds: real)

  datatype Graph = Graph(
    patterns: map<PatternKey, Pattern>,
    patternsAt: map<StopId, seq<(PatternKey, nat)>>,
    walkEdges: map<StopId, seq<WalkEdge>>,
    stopNames: map<StopId, string>)
  {
    /** What graph construction guarantees (proved of the construction in module NetworkBuilder). */
    ghost predicate Valid() {
      && (forall k :: k in patterns ==> |patterns[k].stops| >= 2)
      && IndexExact(patterns, patternsAt)
      && WalksForward(walkEdges)
    }
  }

  /** `patternsAt` lists (key, i) under a stop exactly when pattern `key` calls there at position i. */
  ghost predicate IndexExact(patterns: map<PatternKey, Pattern>, index: map<StopId, seq<(PatternKey, nat)>>) {
    && (forall s, e {:trigger CallsAt(patterns, e.0, e.1, s)} {:trigger e in index[s]} ::
          s in index && e in index[s] ==> CallsAt(patterns, e.0, e.1, s))
    && (forall k, i: nat, s {:trigger CallsAt(patterns, k, i, s)} :: CallsAt(patterns, k, i, s) ==>
          s in index && (k, i) in index[s])
  }

  ghost predicate CallsAt(patterns: map<PatternKey, Pattern>, k: PatternKey, i: nat, s: StopId) {
    k in patterns && i < |patterns[k].stops| && patterns[k].stops[i].stopId == s
  }

  ghost predicate WalksForward(edges: map<StopId, seq<WalkEdge>>) {
    forall s, e :: s in edges && e in edges[s] ==> e.seconds >= 0.0
  }

  /** Search weights. `walkMultiplier` weighs walking in the search only. */
  datatype Params = Params(
    walkMax: real, walkSpeed: real, transferOverhead: real,
    boardPenalty: real, minHop: real, walkMultiplier: real)
  {
    predicate NonNegative() {
      boardPenalty >= 0.0 && minHop >= 0.0 && walkMultiplier >= 0.0
    }
  }

  datatype State = At(stop: StopId) | On(key: PatternKey, index: nat)

  datatype Action =
    | Board(key: PatternKey, index: nat)
    | Ride(key: PatternKey, index: nat, hop: real)
    | Alight(key: PatternKey, index: nat)
    | Walk(from: StopId, to: StopId, distance: real, seconds: real)

  /** Scheduled seconds from stop i to stop i+1 of a pattern, never below `minHop`. */
  function Hop(p: Pattern, i: nat, minHop: real): (r: real)
    requires i + 1 < |p.stops|
    ensures r >= minHop
  {
    var scheduled := (p.stops[i + 1].arrival - p.stops[i].departure) as real;
    if scheduled < minHop then minHop else scheduled
  }

  /** Action `a` can be taken in state `s`. */
  ghost predicate Enabled(g: Graph, minHop: real, s: State, a: Action) {
    match a
    case Board(k, i) =>
      k in g.patterns && i + 1 < |g.patterns[k].stops| && s == At(g.patterns[k].stops[i].stopId)
    case Ride(k, i, hop) =>
      k in g.patterns && 1 <= i < |g.patterns[k].stops| && s == On(k, i - 1) && hop == Hop(g.patterns[k], i - 1, minHop)
    case Alight(k, i) =>
      k in g.patterns && i < |g.patterns[k].stops| && s == On(k, i)
    case Walk(from, to, distance, seconds) =>
      s == At(from) && from in g.walkEdges && WalkEdge(to, distance, seconds) in g.walkEdges[from]
  }

  /** The state an action leads to; it depends on the action alone. */
  ghost function Dest(g: Graph, a: Action): State {
    match a
    case Board(k, i) => On(k, i)
    case Ride(k, i, _) => On(k, i)
    case Alight(k, i) =>
      if k in g.patterns && i < |g.patterns[k].stops| then At(g.patterns[k].stops[i].stopId) else On(k, i)
    case Walk(_, to, _, _) => At(to)
  }

  /** What one action costs in the search. */
  function Weight(w: Params, a: Action): real {
    match a
    case Board(_, _) => w.boardPenalty
    case Ride(_, _, hop) => hop
    case Alight(_, _) => 0.0
    case Walk(_, _, _, seconds) => seconds * w.walkMultiplier
  }

  lemma WeightNonNegative(g: Graph, w: Params, s: State, a: Action)
    requires g.Valid() && w.NonNegative() && Enabled(g, w.minHop, s, a)
    ensures Weight(w, a) >= 0.0
  {
    if a.Walk? {
      var e := WalkEdge(a.to, a.distance, a.seconds);
      assert e in g.walkEdges[a.from];
      assert e.seconds >= 0.0;
    }
  }

  // ----- action sequences as paths

  /** The state reached after the first i actions. */
  ghost function StateAt(g: Graph, s: State, p: seq<Action>, i: nat): State
    requires i <= |p|
  {
    if i == 0 then s else Dest(g, p[i - 1])
  }

  ghost predicate Path(g: Graph, minHop: real, s: State, p: seq<Action>, t: State) {
    && (forall i {:trigger StateAt(g, s, p, i)} :: 0 <= i < |p| ==> Enabled(g, minHop, StateAt(g, s, p, i), p[i]))
    && StateAt(g, s, p, |p|) == t
  }

  function PathCost(w: Params, p: seq<Action>): real {
    if p == [] then 0.0 else PathCost(w, p[..|p| - 1]) + Weight(w, p[|p| - 1])
  }

  /** No state is visited twice. */
  ghost predicate Simple(g: Graph, s: State, p: seq<Action>) {
    forall i, j :: 0 <= i < j <= |p| ==> StateAt(g, s, p, i) != StateAt(g, s, p, j)
  }

  ghost predicate Optimal(g: Graph, w: Params, origin: StopId, destination: StopId, p: seq<Action>) {
    && Path(g, w.minHop, At(origin), p, At(destination))
    && (forall q :: Path(g, w.minHop, At(origin), q, At(destination)) ==> PathCost(w, p) <= PathCost(w, q))
  }

  ghost predicate Connected(g: Graph, minHop: real, origin: StopId, destination: StopId) {
    exists p :: Path(g, minHop, At(origin), p, At(destination))
  }

  lemma {:induction false} CostOfCons(w: Params, a: Action, p: seq<Action>)
    ensures PathCost(w, [a] + p) == Weight(w, a) + PathCost(w, p)
  {
    if p == [] {
      assert [a] + p == [a];
      assert [a][..0] == [];
      assert PathCost(w, [a]) == PathCost(w, []) + Weight(w, a);
    } else {
      var n := |p| - 1;
      CostOfCons(w, a, p[..n]);
      assert ([a] + p)[..|p|] == [a] + p[..n];
    }
  }

  lemma PathOfCons(g: Graph, minHop: real, u: State, a: Action, p: seq<Action>, t: State)
    requires Enabled(g, minHop, u, a) && Path(g, minHop, Dest(g, a), p, t)
    ensures Path(g, minHop, u, [a] + p, t)
    ensures forall i :: 0 <= i <= |p| ==> StateAt(g, u, [a] + p, i + 1) == StateAt(g, Dest(g, a), p, i)
  {
    var q := [a] + p;
    forall i | 0 <= i <= |p|
      ensures StateAt(g, u, q, i + 1) == StateAt(g, Dest(g, a), p, i)
    {
      assert i > 0 ==> q[i] == p[i - 1];
    }
    forall i | 0 <= i < |q|
      ensures Enabled(g, minHop, StateAt(g, u, q, i), q[i])
    {
      if i > 0 {
        assert q[i] == p[i - 1];
        assert Enabled(g, minHop, StateAt(g, Dest(g, a), p, i - 1), p[i - 1]);
        assert StateAt(g, u, q, i) == StateAt(g, Dest(g, a), p, i - 1);
      }
    }
  }
}
