/**
Lazy-deletion Dijkstra over the state graph: labels, predecessor links, and a heap that
may hold stale entries. `rank` is a ghost record of the order in which states settle.
*/
module Search {
  import opened Common
  import opened Network

  datatype Entry = Entry(cost: real, ticket: nat, state: State)

  /** Heap order: cost first, then insertion order. */
  predicate Before(x: Entry, y: Entry) {
    x.cost < y.cost || (x.cost == y.cost && x.ticket <= y.ticket)
  }

  /** The search's mutable tables as one value. */
  datatype Labels = Labels(
    best: map<State, real>, prev: map<State, (State, Action)>, queue: set<Entry>, ticket: nat)

  /** The tables after relaxing one edge. */
  function Relaxed(l: Labels, from: State, to: State, newCost: real, action: Action): Labels {
    if to in l.best && l.best[to] <= newCost then l
    else Labels(l.best[to := newCost], l.prev[to := (from, action)],
                l.queue + {Entry(newCost, l.ticket, to)}, l.ticket + 1)
  }

  /** Every state the search can ever label. */
  ghost function Universe(g: Graph, origin: StopId): set<State> {
    {At(origin)}
    + (set k, i | k in g.patterns && 0 <= i < |g.patterns[k].stops| :: On(k, i))
    + (set k, i | k in g.patterns && 0 <= i < |g.patterns[k].stops| :: At(g.patterns[k].stops[i].stopId))
    + (set s, e | s in g.walkEdges && e in g.walkEdges[s] :: At(e.to))
  }

  lemma DestInUniverse(g: Graph, origin: StopId, minHop: real, s: State, a: Action)
    requires Enabled(g, minHop, s, a)
    ensures Known(g, origin, Dest(g, a))
  {
    if a.Walk? {
      assert WalkEdge(a.to, a.distance, a.seconds) in g.walkEdges[a.from];
    }
  }

  // ----- the invariant, clause by clause

  /** The origin keeps label 0, and every other label has a settled predecessor edge that justifies it. */
  ghost predicate Justified(g: Graph, w: Params, origin: StopId, l: Labels, rank: map<State, nat>) {
    && At(origin) in l.best && l.best[At(origin)] == 0.0
    && l.prev.Keys == l.best.Keys - {At(origin)}
    && (forall v :: v in l.best ==> l.best[v] >= 0.0)
    && (forall v {:trigger JustifiedBy(g, w, l, rank, v)} :: v in l.prev ==> JustifiedBy(g, w, l, rank, v))
  }

  /** Only states of the network are labelled; this bounds the run. */
  ghost predicate Bounded(g: Graph, origin: StopId, l: Labels) {
    forall v {:trigger Known(g, origin, v)} :: v in l.best ==> Known(g, origin, v)
  }

  ghost predicate Known(g: Graph, origin: StopId, v: State) {
    v in Universe(g, origin)
  }

  ghost predicate JustifiedBy(g: Graph, w: Params, l: Labels, rank: map<State, nat>, v: State)
    requires v in l.prev
  {
    var (u, a) := l.prev[v];
    && u in rank && u in l.best && v in l.best
    && Enabled(g, w.minHop, u, a) && Dest(g, a) == v
    && l.best[v] == l.best[u] + Weight(w, a)
    && (v in rank ==> rank[u] < rank[v])
  }

  /** Settled labels are at most `bound`, the others at least `bound`. */
  ghost predicate Split(l: Labels, rank: map<State, nat>, bound: real) {
    && rank.Keys <= l.best.Keys
    && (forall v :: v in rank ==> l.best[v] <= bound && rank[v] < |rank|)
    && (forall v :: v in l.best && v !in rank ==> bound <= l.best[v])
  }

  /** Every unsettled label is queued; entries of settled states are stale; costs of one state never repeat. */
  ghost predicate Queued(l: Labels, rank: map<State, nat>) {
    && (forall v {:trigger HasEntry(l, v)} :: v in l.best && v !in rank ==> HasEntry(l, v))
    && (forall e :: e in l.queue ==>
          && e.ticket < l.ticket && e.state in l.best && l.best[e.state] <= e.cost
          && (e.state in rank ==> l.best[e.state] < e.cost))
    && (forall e, f {:trigger e in l.queue, f in l.queue} ::
          e in l.queue && f in l.queue && e.state == f.state && e.cost == f.cost ==> e == f)
  }

  ghost predicate HasEntry(l: Labels, v: State)
    requires v in l.best
  {
    exists e :: e in l.queue && e.state == v && e.cost == l.best[v]
  }

  ghost predicate Inv(g: Graph, w: Params, origin: StopId, l: Labels, rank: map<State, nat>, bound: real) {
    && Justified(g, w, origin, l, rank)
    && Split(l, rank, bound)
    && Queued(l, rank)
  }

  ghost predicate LabelledWithin(l: Labels, t: State, c: real) {
    t in l.best && l.best[t] <= c
  }

  /** Every edge out of s has been relaxed at s's label. */
  ghost predicate Covered(g: Graph, w: Params, l: Labels, s: State) {
    && s in l.best
    && (forall a :: Enabled(g, w.minHop, s, a) ==> LabelledWithin(l, Dest(g, a), l.best[s] + Weight(w, a)))
  }

  /** Labels only improve. */
  ghost predicate Improves(l: Labels, m: Labels) {
    forall v :: v in l.best ==> v in m.best && m.best[v] <= l.best[v]
  }

  /** Settled labels are final. */
  ghost predicate Final(l: Labels, m: Labels, rank: map<State, nat>) {
    forall v :: v in rank ==> v in l.best && v in m.best && m.best[v] == l.best[v]
  }

  /** Relaxing an edge of the state that settled last keeps the invariant. */
  lemma RelaxKeeps(g: Graph, w: Params, origin: StopId, l: Labels, rank: map<State, nat>, bound: real, u: State,
                   a: Action)
    requires Weight(w, a) >= 0.0 && Inv(g, w, origin, l, rank, bound)
    requires u in rank && l.best[u] == bound && Enabled(g, w.minHop, u, a)
    ensures var m := Relaxed(l, u, Dest(g, a), bound + Weight(w, a), a);
            Inv(g, w, origin, m, rank, bound) && Final(l, m, rank)
  {
    hide Justified, Queued, Split, Final, Enabled;
    var t, c := Dest(g, a), bound + Weight(w, a);
    SplitAfterRelax(l, rank, bound, t, c, u, a);
    if !LabelledWithin(l, t, c) {
      JustifiedAfterPush(g, w, origin, l, rank, u, a);
      QueuedAfterPush(l, rank, t, c, u, a);
    }
  }

  lemma SplitAfterRelax(l: Labels, rank: map<State, nat>, bound: real, t: State, c: real, u: State, a: Action)
    requires Split(l, rank, bound) && bound <= c
    ensures Split(Relaxed(l, u, t, c, a), rank, bound) && Final(l, Relaxed(l, u, t, c, a), rank)
    ensures u in rank ==> u in l.best
    ensures !LabelledWithin(l, t, c) ==> t !in rank
  {
  }

  lemma JustifiedAfterPush(g: Graph, w: Params, origin: StopId, l: Labels, rank: map<State, nat>, u: State, a: Action)
    requires Justified(g, w, origin, l, rank) && u in rank && u in l.best && Enabled(g, w.minHop, u, a)
    requires Weight(w, a) >= 0.0 && Dest(g, a) !in rank
    requires !LabelledWithin(l, Dest(g, a), l.best[u] + Weight(w, a))
    ensures Justified(g, w, origin, Relaxed(l, u, Dest(g, a), l.best[u] + Weight(w, a), a), rank)
  {
    var t := Dest(g, a);
    var m := Relaxed(l, u, t, l.best[u] + Weight(w, a), a);
    assert t != At(origin);
    assert m.prev.Keys == l.prev.Keys + {t};
    forall v | v in m.prev
      ensures JustifiedBy(g, w, m, rank, v)
    {
      assert v != t ==> v in l.prev && JustifiedBy(g, w, l, rank, v);
    }
  }

  lemma QueuedAfterPush(l: Labels, rank: map<State, nat>, t: State, c: real, u: State, a: Action)
    requires Queued(l, rank) && t !in rank && (t in l.best ==> c < l.best[t])
    ensures Queued(Relaxed(l, u, t, c, a), rank)
  {
    var m := Relaxed(l, u, t, c, a);
    var pushed := Entry(c, l.ticket, t);
    assert pushed in m.queue;
    forall v | v in m.best && v !in rank
      ensures HasEntry(m, v)
    {
      if v != t {
        assert HasEntry(l, v);
        var e :| e in l.queue && e.state == v && e.cost == l.best[v];
        assert e in m.queue;
      }
    }
  }

  lemma RelaxBounded(g: Graph, origin: StopId, minHop: real, l: Labels, u: State, c: real, a: Action)
    requires Bounded(g, origin, l) && Enabled(g, minHop, u, a)
    ensures Bounded(g, origin, Relaxed(l, u, Dest(g, a), c, a))
  {
    var m := Relaxed(l, u, Dest(g, a), c, a);
    DestInUniverse(g, origin, minHop, u, a);
    forall v | v in m.best ensures Known(g, origin, v) {
      assert v != Dest(g, a) ==> Known(g, origin, v);
    }
  }

  lemma BoundedAfterPop(g: Graph, origin: StopId, l: Labels, e: Entry)
    requires Bounded(g, origin, l)
    ensures Bounded(g, origin, l.(queue := l.queue - {e}))
  {
    forall v | v in l.best ensures Known(g, origin, v) {
      assert Known(g, origin, v);
    }
  }

  /** Popping a stale entry loses nothing. */
  lemma DropStale(g: Graph, w: Params, origin: StopId, l: Labels, rank: map<State, nat>, bound: real, e: Entry)
    requires Inv(g, w, origin, l, rank, bound) && e in l.queue && l.best[e.state] < e.cost
    ensures Inv(g, w, origin, l.(queue := l.queue - {e}), rank, bound)
  {
    var m := l.(queue := l.queue - {e});
    forall v | v in m.best && v !in rank
      ensures HasEntry(m, v)
    {
      assert HasEntry(l, v);
      var f :| f in l.queue && f.state == v && f.cost == l.best[v];
      assert f in m.queue;
    }
    forall v | v in m.prev ensures JustifiedBy(g, w, m, rank, v) { assert JustifiedBy(g, w, l, rank, v); }
  }

  /** Popping the least entry, when it is current, settles its state for the first and only time. */
  lemma Settle(g: Graph, w: Params, origin: StopId, l: Labels, rank: map<State, nat>, bound: real, e: Entry)
    requires Inv(g, w, origin, l, rank, bound) && e in l.queue && e.cost <= l.best[e.state]
    requires forall f :: f in l.queue ==> Before(e, f)
    ensures e.state !in rank && e.cost == l.best[e.state]
    ensures Inv(g, w, origin, l.(queue := l.queue - {e}), rank[e.state := |rank|], e.cost)
  {
    var m := l.(queue := l.queue - {e});
    var after := rank[e.state := |rank|];
    SettleSplit(l, rank, bound, e);
    SettleQueued(l, rank, e);
    forall v | v in m.prev ensures JustifiedBy(g, w, m, after, v) { assert JustifiedBy(g, w, l, rank, v); }
  }

  lemma SettleSplit(l: Labels, rank: map<State, nat>, bound: real, e: Entry)
    requires Split(l, rank, bound) && Queued(l, rank) && e in l.queue && e.cost <= l.best[e.state]
    requires forall f :: f in l.queue ==> Before(e, f)
    ensures e.state !in rank && e.cost == l.best[e.state]
    ensures Split(l.(queue := l.queue - {e}), rank[e.state := |rank|], e.cost)
  {
    var after := rank[e.state := |rank|];
    assert after.Keys == rank.Keys + {e.state};
    assert |after.Keys| == |rank.Keys| + 1;
    forall v | v in l.best && v !in after
      ensures e.cost <= l.best[v]
    {
      assert HasEntry(l, v);
      var f :| f in l.queue && f.state == v && f.cost == l.best[v];
      assert Before(e, f);
    }
  }

  lemma SettleQueued(l: Labels, rank: map<State, nat>, e: Entry)
    requires Queued(l, rank) && e in l.queue && e.cost <= l.best[e.state]
    ensures Queued(l.(queue := l.queue - {e}), rank[e.state := |rank|])
  {
    var m := l.(queue := l.queue - {e});
    var after := rank[e.state := |rank|];
    forall v | v in m.best && v !in after
      ensures HasEntry(m, v)
    {
      assert HasEntry(l, v);
      var f :| f in l.queue && f.state == v && f.cost == l.best[v];
      assert f in m.queue;
    }
  }

  lemma CoveredPersists(g: Graph, w: Params, l: Labels, m: Labels, rank: map<State, nat>, s: State)
    requires Covered(g, w, l, s) && Improves(l, m) && Final(l, m, rank) && s in rank
    ensures Covered(g, w, m, s)
  {
    forall a | Enabled(g, w.minHop, s, a)
      ensures LabelledWithin(m, Dest(g, a), m.best[s] + Weight(w, a))
    {
      assert LabelledWithin(l, Dest(g, a), l.best[s] + Weight(w, a));
    }
  }

  /** `heapq`'s promise: a non-empty heap has a least entry. */
  lemma LeastEntry(q: set<Entry>)
    requires q != {}
    ensures exists e :: e in q && forall f :: f in q ==> Before(e, f)
    decreases q
  {
    var x :| x in q;
    var rest := q - {x};
    if rest == {} {
      assert q == {x};
    } else {
      LeastEntry(rest);
      var y :| y in rest && forall f :: f in rest ==> Before(y, f);
      var least := if Before(x, y) then x else y;
      forall f | f in q ensures Before(least, f) { assert f == x || f in rest; }
    }
  }

  // ----- optimality

  /**
  Exchange along a path: while the search has covered all settled states but t, the cost of
  any prefix is either an upper bound on its end's label or already at least `bound`.
  */
  lemma {:induction false} PrefixBound(g: Graph, w: Params, origin: StopId, l: Labels, rank: map<State, nat>,
                                       bound: real, t: State, p: seq<Action>, goal: State, i: nat)
    requires g.Valid() && w.NonNegative() && Split(l, rank, bound) && LabelledWithin(l, At(origin), 0.0)
    requires forall s {:trigger Covered(g, w, l, s)} :: s in rank && s != t ==> Covered(g, w, l, s)
    requires t in rank ==> l.best[t] == bound
    requires Path(g, w.minHop, At(origin), p, goal) && i <= |p|
    ensures LabelledWithin(l, StateAt(g, At(origin), p, i), PathCost(w, p[..i])) || bound <= PathCost(w, p[..i])
  {
    if i == 0 {
      assert p[..0] == [];
    } else {
      PrefixBound(g, w, origin, l, rank, bound, t, p, goal, i - 1);
      var s, a := StateAt(g, At(origin), p, i - 1), p[i - 1];
      assert p[..i][..i - 1] == p[..i - 1];
      WeightNonNegative(g, w, s, a);
      if PathCost(w, p[..i - 1]) < bound {
        assert s in rank && s != t;
        assert Covered(g, w, l, s);
        assert LabelledWithin(l, Dest(g, a), l.best[s] + Weight(w, a));
      }
    }
  }

  lemma AllSettled(l: Labels, rank: map<State, nat>)
    requires Queued(l, rank) && l.queue == {}
    ensures l.best.Keys <= rank.Keys
  {
    forall v | v in l.best ensures v in rank {
      assert v !in rank ==> HasEntry(l, v);
    }
  }

  /** Once every label is settled, the labelled states are closed under every action. */
  lemma {:induction false} ClosedUnderActions(g: Graph, w: Params, origin: StopId, l: Labels, rank: map<State, nat>,
                                              p: seq<Action>, goal: State, i: nat)
    requires LabelledWithin(l, At(origin), 0.0) && l.best.Keys <= rank.Keys
    requires forall s {:trigger Covered(g, w, l, s)} :: s in rank ==> Covered(g, w, l, s)
    requires Path(g, w.minHop, At(origin), p, goal) && i <= |p|
    ensures var s := StateAt(g, At(origin), p, i); s in rank && LabelledWithin(l, s, PathCost(w, p[..i]))
  {
    if i == 0 {
      assert p[..0] == [];
    } else {
      ClosedUnderActions(g, w, origin, l, rank, p, goal, i - 1);
      assert p[..i][..i - 1] == p[..i - 1];
      var s, a := StateAt(g, At(origin), p, i - 1), p[i - 1];
      assert Covered(g, w, l, s) && Enabled(g, w.minHop, s, a);
      assert LabelledWithin(l, Dest(g, a), l.best[s] + Weight(w, a));
    }
  }

  // ----- expanding a state

  /** The tables after boarding every pattern listed at a stop. */
  function Boarded(g: Graph, w: Params, l: Labels, stop: StopId, cost: real, calls: seq<(PatternKey, nat)>): Labels {
    if calls == [] then l else
    var m := Boarded(g, w, l, stop, cost, calls[..|calls| - 1]);
    var (key, index) := calls[|calls| - 1];
    if key in g.patterns && index < |g.patterns[key].stops| - 1
    then Relaxed(m, At(stop), On(key, index), cost + w.boardPenalty, Board(key, index)) else m
  }

  /** The tables after walking every edge out of a stop. */
  function Walked(w: Params, l: Labels, stop: StopId, cost: real, walks: seq<WalkEdge>): Labels {
    if walks == [] then l else
    var e := walks[|walks| - 1];
    var a := Walk(stop, e.to, e.distance, e.seconds);
    Relaxed(Walked(w, l, stop, cost, walks[..|walks| - 1]), At(stop), At(e.to), cost + Weight(w, a), a)
  }

  function CallsOf(g: Graph, stop: StopId): seq<(PatternKey, nat)> {
    if stop in g.patternsAt then g.patternsAt[stop] else []
  }

  function WalksOf(g: Graph, stop: StopId): seq<WalkEdge> {
    if stop in g.walkEdges then g.walkEdges[stop] else []
  }

  /** The tables after relaxing every edge out of a state settled at `cost`. */
  function Expanded(g: Graph, w: Params, l: Labels, state: State, cost: real): Labels {
    match state
    case At(stop) =>
      Walked(w, Boarded(g, w, l, stop, cost, CallsOf(g, stop)), stop, cost, WalksOf(g, stop))
    case On(key, index) =>
      if key !in g.patterns || index >= |g.patterns[key].stops| then l else
      var p := g.patterns[key];
      var m := Relaxed(l, state, At(p.stops[index].stopId), cost, Alight(key, index));
      if index + 1 >= |p.stops| then m else
      var hop := Hop(p, index, w.minHop);
      Relaxed(m, state, On(key, index + 1), cost + hop, Ride(key, index + 1, hop))
  }

  /** `m` follows from `l` by relaxing edges of the state u, which settled last. */
  ghost predicate Extends(g: Graph, w: Params, origin: StopId, l: Labels, m: Labels, rank: map<State, nat>, u: State) {
    && u in rank && u in l.best
    && Inv(g, w, origin, m, rank, l.best[u]) && Bounded(g, origin, m) && Final(l, m, rank)
  }

  /** One more relaxed edge. */
  lemma Extend(g: Graph, w: Params, origin: StopId, l: Labels, m: Labels, rank: map<State, nat>, u: State, a: Action)
    requires Extends(g, w, origin, l, m, rank, u) && Enabled(g, w.minHop, u, a) && Weight(w, a) >= 0.0
    ensures Extends(g, w, origin, l, Relaxed(m, u, Dest(g, a), l.best[u] + Weight(w, a), a), rank, u)
  {
    hide Inv, Bounded, Enabled;
    RelaxKeeps(g, w, origin, m, rank, l.best[u], u, a);
    RelaxBounded(g, origin, w.minHop, m, u, l.best[u] + Weight(w, a), a);
  }

  /** What every single relaxation out of u keeps, boarding a list of patterns keeps. */
  lemma {:induction false} BoardedKeeps(g: Graph, w: Params, l: Labels, stop: StopId, cost: real,
                                        calls: seq<(PatternKey, nat)>, P: Labels -> bool)
    requires P(l) && forall j :: 0 <= j < |calls| ==> CallsAt(g.patterns, calls[j].0, calls[j].1, stop)
    requires forall m, a :: P(m) && Enabled(g, w.minHop, At(stop), a) ==>
               P(Relaxed(m, At(stop), Dest(g, a), cost + Weight(w, a), a))
    ensures P(Boarded(g, w, l, stop, cost, calls))
  {
    if calls != [] {
      var n := |calls| - 1;
      BoardedKeeps(g, w, l, stop, cost, calls[..n], P);
      var a := Board(calls[n].0, calls[n].1);
      assert Enabled(g, w.minHop, At(stop), a) || a.index >= |g.patterns[a.key].stops| - 1;
    }
  }

  lemma {:induction false} WalkedKeeps(g: Graph, w: Params, l: Labels, stop: StopId, cost: real, walks: seq<WalkEdge>,
                                       P: Labels -> bool)
    requires P(l) && forall j :: 0 <= j < |walks| ==> walks[j] in WalksOf(g, stop)
    requires forall m, a :: P(m) && Enabled(g, w.minHop, At(stop), a) ==>
               P(Relaxed(m, At(stop), Dest(g, a), cost + Weight(w, a), a))
    ensures P(Walked(w, l, stop, cost, walks))
  {
    if walks != [] {
      var e := walks[|walks| - 1];
      WalkedKeeps(g, w, l, stop, cost, walks[..|walks| - 1], P);
      assert Enabled(g, w.minHop, At(stop), Walk(stop, e.to, e.distance, e.seconds));
    }
  }

  lemma CallsAreHere(g: Graph, stop: StopId)
    requires g.Valid()
    ensures var calls := CallsOf(g, stop);
            forall j :: 0 <= j < |calls| ==> CallsAt(g.patterns, calls[j].0, calls[j].1, stop)
  {
    forall j | 0 <= j < |CallsOf(g, stop)|
      ensures CallsAt(g.patterns, CallsOf(g, stop)[j].0, CallsOf(g, stop)[j].1, stop)
    {
      assert CallsOf(g, stop)[j] in g.patternsAt[stop];
    }
  }

  lemma RidingKeeps(g: Graph, w: Params, l: Labels, u: State, cost: real, P: Labels -> bool)
    requires u.On? && P(l)
    requires forall m, a :: P(m) && Enabled(g, w.minHop, u, a) ==> P(Relaxed(m, u, Dest(g, a), cost + Weight(w, a), a))
    ensures P(Expanded(g, w, l, u, cost))
  {
    hide Relaxed;
    var key, index := u.key, u.index;
    if key in g.patterns && index < |g.patterns[key].stops| {
      var p := g.patterns[key];
      var off := Alight(key, index);
      assert Enabled(g, w.minHop, u, off) && cost + Weight(w, off) == cost;
      assert P(Relaxed(l, u, Dest(g, off), cost + Weight(w, off), off));
      if index + 1 < |p.stops| {
        assert Enabled(g, w.minHop, u, Ride(key, index + 1, Hop(p, index, w.minHop)));
      }
    }
  }

  /** What every single relaxation out of u keeps, expanding u keeps. */
  lemma ExpandedKeeps(g: Graph, w: Params, l: Labels, u: State, cost: real, P: Labels -> bool)
    requires g.Valid() && P(l)
    requires forall m, a :: P(m) && Enabled(g, w.minHop, u, a) ==> P(Relaxed(m, u, Dest(g, a), cost + Weight(w, a), a))
    ensures P(Expanded(g, w, l, u, cost))
  {
    match u
    case At(stop) =>
      CallsAreHere(g, stop);
      hide Graph.Valid, Boarded, Walked, Relaxed, Enabled;
      BoardedKeeps(g, w, l, stop, cost, CallsOf(g, stop), P);
      WalkedKeeps(g, w, Boarded(g, w, l, stop, cost, CallsOf(g, stop)), stop, cost, WalksOf(g, stop), P);
    case On(_, _) => RidingKeeps(g, w, l, u, cost, P);
  }

  /** Relaxing never loses a label, so each edge of a boarded or walked list stays relaxed. */
  lemma {:induction false} BoardedCovers(g: Graph, w: Params, l: Labels, stop: StopId, cost: real,
                                         calls: seq<(PatternKey, nat)>, j: nat)
    requires j < |calls| && calls[j].0 in g.patterns && calls[j].1 + 1 < |g.patterns[calls[j].0].stops|
    ensures LabelledWithin(Boarded(g, w, l, stop, cost, calls), On(calls[j].0, calls[j].1), cost + w.boardPenalty)
  {
    if j < |calls| - 1 {
      BoardedCovers(g, w, l, stop, cost, calls[..|calls| - 1], j);
    }
  }

  lemma {:induction false} WalkedCovers(w: Params, l: Labels, stop: StopId, cost: real, walks: seq<WalkEdge>, j: nat)
    requires j < |walks|
    ensures LabelledWithin(Walked(w, l, stop, cost, walks), At(walks[j].to), cost + walks[j].seconds * w.walkMultiplier)
  {
    if j < |walks| - 1 {
      WalkedCovers(w, l, stop, cost, walks[..|walks| - 1], j);
    }
  }

  lemma {:induction false} WalkedImproves(w: Params, l: Labels, stop: StopId, cost: real, walks: seq<WalkEdge>,
                                          t: State, c: real)
    requires LabelledWithin(l, t, c)
    ensures LabelledWithin(Walked(w, l, stop, cost, walks), t, c)
  {
    if walks != [] {
      WalkedImproves(w, l, stop, cost, walks[..|walks| - 1], t, c);
    }
  }

  /** After expanding u, every edge out of u is relaxed. */
  lemma ExpandedRelaxes(g: Graph, w: Params, l: Labels, u: State, cost: real, a: Action)
    requires g.Valid() && Enabled(g, w.minHop, u, a)
    ensures LabelledWithin(Expanded(g, w, l, u, cost), Dest(g, a), cost + Weight(w, a))
  {
    if a.Board? {
      hide Boarded, Walked;
      BoardingRelaxed(g, w, l, u.stop, cost, a);
      WalkedImproves(w, Boarded(g, w, l, u.stop, cost, CallsOf(g, u.stop)), u.stop, cost, WalksOf(g, u.stop),
                     Dest(g, a), cost + Weight(w, a));
    } else if a.Walk? {
      hide Boarded, Walked, Graph.Valid;
      WalkRelaxed(g, w, Boarded(g, w, l, u.stop, cost, CallsOf(g, u.stop)), u.stop, cost, a);
    }
  }

  lemma BoardingRelaxed(g: Graph, w: Params, l: Labels, stop: StopId, cost: real, a: Action)
    requires g.Valid() && a.Board? && Enabled(g, w.minHop, At(stop), a)
    ensures LabelledWithin(Boarded(g, w, l, stop, cost, CallsOf(g, stop)), Dest(g, a), cost + Weight(w, a))
  {
    hide Boarded;
    assert CallsAt(g.patterns, a.key, a.index, stop);
    var calls := CallsOf(g, stop);
    var j :| 0 <= j < |calls| && calls[j] == (a.key, a.index);
    BoardedCovers(g, w, l, stop, cost, calls, j);
  }

  lemma WalkRelaxed(g: Graph, w: Params, l: Labels, stop: StopId, cost: real, a: Action)
    requires a.Walk? && Enabled(g, w.minHop, At(stop), a)
    ensures LabelledWithin(Walked(w, l, stop, cost, WalksOf(g, stop)), Dest(g, a), cost + Weight(w, a))
  {
    hide Walked;
    var walks := WalksOf(g, stop);
    var j :| 0 <= j < |walks| && walks[j] == WalkEdge(a.to, a.distance, a.seconds);
    WalkedCovers(w, l, stop, cost, walks, j);
  }

  lemma ExpandedExtends(g: Graph, w: Params, origin: StopId, l: Labels, rank: map<State, nat>, u: State)
    requires g.Valid() && w.NonNegative() && Extends(g, w, origin, l, l, rank, u)
    ensures Extends(g, w, origin, l, Expanded(g, w, l, u, l.best[u]), rank, u)
  {
    hide Inv, Bounded, Final;
    var P := (m: Labels) => Extends(g, w, origin, l, m, rank, u);
    forall m: Labels, a | P(m) && Enabled(g, w.minHop, u, a)
      ensures P(Relaxed(m, u, Dest(g, a), l.best[u] + Weight(w, a), a))
    {
      WeightNonNegative(g, w, u, a);
      Extend(g, w, origin, l, m, rank, u, a);
    }
    ExpandedKeeps(g, w, l, u, l.best[u], P);
  }

  lemma ExpandedImproves(g: Graph, w: Params, l: Labels, u: State, cost: real)
    requires g.Valid()
    ensures Improves(l, Expanded(g, w, l, u, cost))
  {
    ExpandedKeeps(g, w, l, u, cost, m => Improves(l, m));
  }

  /** Expanding the state that settled last covers all its edges. */
  lemma ExpandedCovers(g: Graph, w: Params, l: Labels, rank: map<State, nat>, u: State)
    requires g.Valid() && u in rank && u in l.best && Final(l, Expanded(g, w, l, u, l.best[u]), rank)
    ensures Covered(g, w, Expanded(g, w, l, u, l.best[u]), u)
  {
    forall a | Enabled(g, w.minHop, u, a)
      ensures LabelledWithin(Expanded(g, w, l, u, l.best[u]), Dest(g, a), l.best[u] + Weight(w, a))
    {
      ExpandedRelaxes(g, w, l, u, l.best[u], a);
    }
  }

  // ----- the search object

  class Searcher {
    var best: map<State, real>
    var prev: map<State, (State, Action)>
    var queue: set<Entry>
    var ticket: nat
    ghost var rank: map<State, nat>

    ghost function View(): Labels
      reads this
    {
      Labels(best, prev, queue, ticket)
    }

    constructor (start: State)
      ensures View() == Labels(map[start := 0.0], map[], {Entry(0.0, 0, start)}, 1) && rank == map[]
    {
      best, prev, queue, ticket := map[start := 0.0], map[], {Entry(0.0, 0, start)}, 1;
      rank := map[];
    }

    method Pop() returns (e: Entry)
      requires queue != {}
      modifies this`queue
      ensures e in old(queue) && queue == old(queue) - {e}
      ensures forall f :: f in old(queue) ==> Before(e, f)
    {
      LeastEntry(queue);
      e :| e in queue && forall f :: f in queue ==> Before(e, f);
      queue := queue - {e};
    }

    /** Records a cheaper way to `to`, if `newCost` is one. */
    method Relax(from: State, to: State, newCost: real, action: Action)
      modifies this`best, this`prev, this`queue, this`ticket
      ensures View() == Relaxed(old(View()), from, to, newCost, action)
    {
      if to !in best || newCost < best[to] {
        best := best[to := newCost];
        prev := prev[to := (from, action)];
        queue := queue + {Entry(newCost, ticket, to)};
        ticket := ticket + 1;
      }
    }

    /** Pops one entry: None when it is stale, else the state it settles, at its final cost. */
    method SettleNext(ghost g: Graph, ghost w: Params, ghost origin: StopId, ghost bound: real)
        returns (settled: Option<(State, real)>)
      requires queue != {} && Progress(g, w, origin, View(), rank, bound)
      modifies this`queue, this`rank
      ensures queue < old(queue)
      ensures settled.None? ==> rank == old(rank) && Progress(g, w, origin, View(), rank, bound)
      ensures settled.Some? ==> JustSettled(g, w, origin, View(), old(rank), rank, settled.value.0, settled.value.1)
    {
      hide Justified, Split, Extends, Bounded, Covered;
      ghost var l := View();
      var e := Pop();
      assert View() == l.(queue := l.queue - {e});
      if e.cost > best[e.state] {
        ProgressAfterStale(g, w, origin, l, rank, bound, e);
        return None;
      }
      ProgressAfterPop(g, w, origin, l, rank, bound, e);
      rank := rank[e.state := |rank|];
      return Some((e.state, e.cost));
    }

    /** Relaxes every edge out of one settled state. */
    method Expand(g: Graph, state: State, cost: real, w: Params)
      requires g.Valid()
      requires state.On? ==> state.key in g.patterns && state.index < |g.patterns[state.key].stops|
      modifies this`best, this`prev, this`queue, this`ticket
      ensures View() == Expanded(g, w, old(View()), state, cost)
    {
      hide Graph.Valid, Boarded, Walked, Relaxed;
      match state
      case At(stop) =>
        CallsAreHere(g, stop);
        ExpandBoards(g, stop, cost, w, CallsOf(g, stop));
        ExpandWalks(stop, cost, w, WalksOf(g, stop));
      case On(key, index) =>
        var pattern := g.patterns[key];
        var here := pattern.stops[index];
        Relax(state, At(here.stopId), cost, Alight(key, index));
        if index < |pattern.stops| - 1 {
          var hop := Hop(pattern, index, w.minHop);
          Relax(state, On(key, index + 1), cost + hop, Ride(key, index + 1, hop));
        }
    }

    method ExpandBoards(g: Graph, stop: StopId, cost: real, w: Params, calls: seq<(PatternKey, nat)>)
      requires forall j :: 0 <= j < |calls| ==> CallsAt(g.patterns, calls[j].0, calls[j].1, stop)
      modifies this`best, this`prev, this`queue, this`ticket
      ensures View() == Boarded(g, w, old(View()), stop, cost, calls)
    {
      for j := 0 to |calls|
        invariant View() == Boarded(g, w, old(View()), stop, cost, calls[..j])
      {
        var (key, index) := calls[j];
        assert CallsAt(g.patterns, calls[j].0, calls[j].1, stop);
        assert calls[..j + 1][..j] == calls[..j];
        var pattern := g.patterns[key];
        if index >= |pattern.stops| - 1 {
          continue; // boarding at the terminus is pointless
        }
        Relax(At(stop), On(key, index), cost + w.boardPenalty, Board(key, index));
      }
      assert calls[..|calls|] == calls;
    }

    method ExpandWalks(stop: StopId, cost: real, w: Params, walks: seq<WalkEdge>)
      modifies this`best, this`prev, this`queue, this`ticket
      ensures View() == Walked(w, old(View()), stop, cost, walks)
    {
      for j := 0 to |walks|
        invariant View() == Walked(w, old(View()), stop, cost, walks[..j])
      {
        var e := walks[j];
        assert walks[..j + 1][..j] == walks[..j] && walks[..j + 1][j] == e;
        var action := Walk(stop, e.to, e.distance, e.seconds);
        Relax(At(stop), At(e.to), cost + Weight(w, action), action);
      }
      assert walks[..|walks|] == walks;
    }

    /** Follows predecessor links back from the target. */
    method Reconstruct(g: Graph, w: Params, origin: StopId, target: State, ghost bound: real)
        returns (actions: seq<Action>)
      requires Inv(g, w, origin, View(), rank, bound) && target in rank
      ensures Path(g, w.minHop, At(origin), actions, target) && PathCost(w, actions) == best[target]
      ensures Simple(g, At(origin), actions)
    {
      actions := [];
      var start := At(origin);
      var state := target;
      assert Reverse(actions) == [];
      while state != start
        invariant state in rank && state in best
        invariant Path(g, w.minHop, state, Reverse(actions), target)
        invariant best[state] + PathCost(w, Reverse(actions)) == best[target]
        invariant forall i :: 0 <= i <= |actions| ==> StateAt(g, state, Reverse(actions), i) in rank
        invariant forall i, j :: 0 <= i < j <= |actions| ==>
                    rank[StateAt(g, state, Reverse(actions), i)] < rank[StateAt(g, state, Reverse(actions), j)]
        decreases rank[state]
      {
        assert JustifiedBy(g, w, View(), rank, state);
        var (before, action) := prev[state];
        ghost var tail := Reverse(actions);
        actions := actions + [action];
        assert Reverse(actions) == [action] + tail;
        PathOfCons(g, w.minHop, before, action, tail, target);
        CostOfCons(w, action, tail);
        forall i, j | 0 <= i < j <= |actions|
          ensures StateAt(g, before, Reverse(actions), i) in rank && StateAt(g, before, Reverse(actions), j) in rank
          ensures rank[StateAt(g, before, Reverse(actions), i)] < rank[StateAt(g, before, Reverse(actions), j)]
        {
          assert StateAt(g, before, Reverse(actions), j) == StateAt(g, state, tail, j - 1);
          if i > 0 {
            assert StateAt(g, before, Reverse(actions), i) == StateAt(g, state, tail, i - 1);
          } else {
            assert StateAt(g, state, tail, 0) == state;
          }
        }
        state := before;
      }
      actions := Reverse(actions);
    }
  }

  lemma StateExists(g: Graph, origin: StopId, s: State)
    requires Known(g, origin, s)
    ensures s.On? ==> s.key in g.patterns && s.index < |g.patterns[s.key].stops|
  {
  }

  /** `u` settled at `cost`: it is the newest in `rank`, and all that settled before is covered. */
  ghost predicate JustSettled(g: Graph, w: Params, origin: StopId, l: Labels, before: map<State, nat>,
                              rank: map<State, nat>, u: State, cost: real) {
    && u !in before && rank == before[u := |before|] && Known(g, origin, u)
    && Extends(g, w, origin, l, l, rank, u) && l.best[u] == cost
    && forall s {:trigger Covered(g, w, l, s)} :: s in before ==> Covered(g, w, l, s)
  }

  /** The loop invariant of both searches: a consistent table whose settled states are all expanded. */
  ghost predicate Progress(g: Graph, w: Params, origin: StopId, l: Labels, rank: map<State, nat>, bound: real) {
    && Inv(g, w, origin, l, rank, bound) && Bounded(g, origin, l)
    && (forall s {:trigger Covered(g, w, l, s)} :: s in rank ==> Covered(g, w, l, s))
  }

  lemma Initially(g: Graph, w: Params, origin: StopId)
    ensures Progress(g, w, origin, Labels(map[At(origin) := 0.0], map[], {Entry(0.0, 0, At(origin))}, 1), map[], 0.0)
  {
    InitiallyConsistent(g, w, origin, Labels(map[At(origin) := 0.0], map[], {Entry(0.0, 0, At(origin))}, 1));
  }

  lemma InitiallyConsistent(g: Graph, w: Params, origin: StopId, l: Labels)
    requires l.best == map[At(origin) := 0.0] && l.prev == map[] && l.queue == {Entry(0.0, 0, At(origin))}
    requires l.ticket == 1
    ensures Progress(g, w, origin, l, map[], 0.0)
  {
    assert Queued(l, map[]) by {
      assert Entry(0.0, 0, At(origin)) in l.queue;
      assert HasEntry(l, At(origin));
    }
    assert Bounded(g, origin, l) by {
      assert Known(g, origin, At(origin));
    }
    assert Justified(g, w, origin, l, map[]);
    assert Split(l, map[], 0.0);
  }

  lemma ProgressAfterStale(g: Graph, w: Params, origin: StopId, l: Labels, rank: map<State, nat>, bound: real, e: Entry)
    requires Progress(g, w, origin, l, rank, bound) && e in l.queue && l.best[e.state] < e.cost
    ensures Progress(g, w, origin, l.(queue := l.queue - {e}), rank, bound)
  {
    var m := l.(queue := l.queue - {e});
    DropStale(g, w, origin, l, rank, bound, e);
    BoundedAfterPop(g, origin, l, e);
    forall s | s in rank ensures Covered(g, w, m, s) {
      assert Covered(g, w, l, s);
      CoveredPersists(g, w, l, m, rank, s);
    }
  }

  /** Settling the least current entry. */
  lemma ProgressAfterPop(g: Graph, w: Params, origin: StopId, l: Labels, rank: map<State, nat>, bound: real, e: Entry)
    requires Progress(g, w, origin, l, rank, bound) && e in l.queue && e.cost <= l.best[e.state]
    requires forall f :: f in l.queue ==> Before(e, f)
    ensures JustSettled(g, w, origin, l.(queue := l.queue - {e}), rank, rank[e.state := |rank|], e.state, e.cost)
  {
    var m := l.(queue := l.queue - {e});
    Settle(g, w, origin, l, rank, bound, e);
    BoundedAfterPop(g, origin, l, e);
    assert Known(g, origin, e.state);
    forall s | s in rank ensures Covered(g, w, m, s) {
      assert Covered(g, w, l, s);
      CoveredPersists(g, w, l, m, rank, s);
    }
  }

  /** Expanding it covers it too. */
  lemma ProgressAfterExpand(g: Graph, w: Params, origin: StopId, l: Labels, before: map<State, nat>,
                            rank: map<State, nat>, u: State, cost: real)
    requires g.Valid() && w.NonNegative() && JustSettled(g, w, origin, l, before, rank, u, cost)
    ensures Progress(g, w, origin, Expanded(g, w, l, u, l.best[u]), rank, l.best[u])
  {
    var m := Expanded(g, w, l, u, l.best[u]);
    ExpandedExtends(g, w, origin, l, rank, u);
    ExpandedImproves(g, w, l, u, l.best[u]);
    ExpandedCovers(g, w, l, rank, u);
    forall s | s in rank ensures Covered(g, w, m, s) {
      if s != u {
        assert Covered(g, w, l, s);
        CoveredPersists(g, w, l, m, rank, s);
      }
    }
  }

  /** A path that costs what the last settled stop is labelled with is optimal. */
  lemma NothingCheaper(g: Graph, w: Params, origin: StopId, l: Labels, before: map<State, nat>, rank: map<State, nat>,
                       t: StopId, p: seq<Action>, cost: real)
    requires g.Valid() && w.NonNegative() && JustSettled(g, w, origin, l, before, rank, At(t), cost)
    requires Path(g, w.minHop, At(origin), p, At(t)) && PathCost(w, p) == l.best[At(t)]
    ensures Optimal(g, w, origin, t, p)
  {
    forall q | Path(g, w.minHop, At(origin), q, At(t))
      ensures PathCost(w, p) <= PathCost(w, q)
    {
      PrefixBound(g, w, origin, l, rank, l.best[At(t)], At(t), q, At(t), |q|);
      assert q[..|q|] == q;
    }
  }

  /** When the queue runs dry, the labelled stops are exactly the connected ones, at their least costs. */
  lemma Exhausted(g: Graph, w: Params, origin: StopId, l: Labels, rank: map<State, nat>, bound: real, t: StopId)
    requires g.Valid() && w.NonNegative() && Progress(g, w, origin, l, rank, bound) && l.queue == {}
    ensures At(t) in l.best <==> Connected(g, w.minHop, origin, t)
    ensures At(t) in l.best ==>
              At(t) in rank && exists p :: Optimal(g, w, origin, t, p) && PathCost(w, p) == l.best[At(t)]
  {
    AllSettled(l, rank);
    forall q | Path(g, w.minHop, At(origin), q, At(t))
      ensures LabelledWithin(l, At(t), PathCost(w, q))
    {
      ClosedUnderActions(g, w, origin, l, rank, q, At(t), |q|);
      assert q[..|q|] == q;
    }
    if At(t) in l.best {
      var p := PathToLabel(g, w, origin, l, rank, bound, At(t));
      assert Optimal(g, w, origin, t, p);
    }
  }

  /** Cheapest action sequence from origin to destination, or None when there is none. */
  method Dijkstra(g: Graph, origin: StopId, destination: StopId, w: Params) returns (r: Option<seq<Action>>)
    requires g.Valid() && w.NonNegative()
    ensures r.Some? ==> Optimal(g, w, origin, destination, r.value) && Simple(g, At(origin), r.value)
    ensures r.None? <==> !Connected(g, w.minHop, origin, destination)
  {
    var start, target := At(origin), At(destination);
    hide Inv, Bounded, Covered, Expanded, Simple, Path, Graph.Valid;
    var search := new Searcher(start);
    ghost var bound := 0.0;
    Initially(g, w, origin);
    while search.queue != {}
      invariant fresh(search)
      invariant Progress(g, w, origin, search.View(), search.rank, bound) && target !in search.rank
      decreases Universe(g, origin) - search.rank.Keys, search.queue
    {
      ghost var before := search.rank;
      var next := search.SettleNext(g, w, origin, bound);
      if next.Some? {
        var (state, cost) := next.value;
        ghost var l := search.View();
        if state == target {
          var actions := search.Reconstruct(g, w, origin, target, cost);
          NothingCheaper(g, w, origin, l, before, search.rank, destination, actions, cost);
          return Some(actions);
        }
        StateExists(g, origin, state);
        search.Expand(g, state, cost, w);
        ProgressAfterExpand(g, w, origin, l, before, search.rank, state, cost);
        bound := cost;
      }
    }
    Exhausted(g, w, origin, search.View(), search.rank, bound, destination);
    return None;
  }

  /** Exactly the reachable stops, each at the cost of a cheapest way there. */
  ghost predicate Distances(g: Graph, w: Params, origin: StopId, r: map<StopId, real>) {
    && (forall stop :: stop in r <==> Connected(g, w.minHop, origin, stop))
    && (forall stop :: stop in r ==> exists p :: Optimal(g, w, origin, stop, p) && PathCost(w, p) == r[stop])
  }

  /** One-to-all: None for an unknown origin. */
  method TravelSecondsFrom(g: Graph, origin: StopId, w: Params) returns (r: Option<map<StopId, real>>)
    requires g.Valid() && w.NonNegative()
    ensures r.None? <==> origin !in g.stopNames
    ensures r.Some? ==> Distances(g, w, origin, r.value)
  {
    if origin !in g.stopNames {
      return None;
    }
    hide Distances;
    var all := SettleAll(g, origin, w);
    return Some(all);
  }

  /** The same search with no target. */
  method SettleAll(g: Graph, origin: StopId, w: Params) returns (r: map<StopId, real>)
    requires g.Valid() && w.NonNegative()
    ensures Distances(g, w, origin, r)
  {
    hide Inv, Bounded, Covered, Expanded, Connected, Graph.Valid;
    var search := new Searcher(At(origin));
    ghost var bound := 0.0;
    Initially(g, w, origin);
    while search.queue != {}
      invariant fresh(search)
      invariant Progress(g, w, origin, search.View(), search.rank, bound)
      decreases Universe(g, origin) - search.rank.Keys, search.queue
    {
      ghost var before := search.rank;
      var next := search.SettleNext(g, w, origin, bound);
      if next.Some? {
        var (state, cost) := next.value;
        ghost var l := search.View();
        StateExists(g, origin, state);
        search.Expand(g, state, cost, w);
        ProgressAfterExpand(g, w, origin, l, before, search.rank, state, cost);
        bound := cost;
      }
    }
    forall stop ensures At(stop) in search.best <==> Connected(g, w.minHop, origin, stop)
      ensures At(stop) in search.best ==>
                exists p :: Optimal(g, w, origin, stop, p) && PathCost(w, p) == search.best[At(stop)]
    {
      Exhausted(g, w, origin, search.View(), search.rank, bound, stop);
    }
    r := map s | s in search.best && s.At? :: s.stop := search.best[s];
    assert forall stop :: At(stop) in search.best ==> stop in r && r[stop] == search.best[At(stop)];
  }

  /** Every settled label is the cost of some path. */
  lemma {:induction false} PathToLabel(g: Graph, w: Params, origin: StopId, l: Labels, rank: map<State, nat>,
                                       bound: real, s: State)
      returns (p: seq<Action>)
    requires Inv(g, w, origin, l, rank, bound) && s in rank
    ensures Path(g, w.minHop, At(origin), p, s) && PathCost(w, p) == l.best[s]
    decreases rank[s]
  {
    if s == At(origin) {
      p := [];
    } else {
      assert JustifiedBy(g, w, l, rank, s);
      var (u, a) := l.prev[s];
      var q := PathToLabel(g, w, origin, l, rank, bound, u);
      p := q + [a];
      assert p[..|q|] == q;
      forall i | 0 <= i < |p| ensures Enabled(g, w.minHop, StateAt(g, At(origin), p, i), p[i]) {
        assert StateAt(g, At(origin), p, i) == StateAt(g, At(origin), q, i);
      }
    }
  }
}
