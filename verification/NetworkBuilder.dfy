/**
Building the routable network: the index of patterns by stop and the walking edges. Together they
establish what the search demands of its graph.
*/
module NetworkBuilder {
  import opened Common
  import opened Network

  datatype Station = Station(stopId: StopId, name: string, parent: Option<string>)

  // ----- one pattern per route and direction

  /** A trip with the number of its stop times. */
  datatype TripCount = TripCount(routeId: string, direction: Option<int>, tripId: string, stopCount: nat)

  datatype TripRow = TripRow(routeId: string, direction: Option<int>, headsign: Option<string>)

  function KeyOf(row: TripCount): PatternKey {
    PatternKey(row.routeId, if row.direction.Some? then row.direction.value else 0)
  }

  /** The trip runs on the route in the direction; one without a direction counts as direction 0. */
  predicate Serves(row: TripCount, k: PatternKey) {
    row.routeId == k.routeId && (row.direction == Some(k.direction) || (row.direction.None? && k.direction == 0))
  }

  /** Row i is the first with the most stops of its route and direction. */
  ghost predicate Represents(counts: seq<TripCount>, k: PatternKey, i: int) {
    && 0 <= i < |counts| && Serves(counts[i], k)
    && forall j :: 0 <= j < |counts| && Serves(counts[j], k) ==>
         counts[j].stopCount <= counts[i].stopCount && (j < i ==> counts[j].stopCount < counts[i].stopCount)
  }

  /** The row represents k among the first n. */
  ghost predicate RepresentedBy(counts: seq<TripCount>, n: nat, k: PatternKey, row: TripCount)
    requires n <= |counts|
  {
    exists i :: Represents(counts[..n], k, i) && row == counts[i]
  }

  /** `chosen` holds the representatives of the first n rows, `order` their keys as first met. */
  ghost predicate ChosenTo(counts: seq<TripCount>, n: nat, chosen: map<PatternKey, TripCount>, order: seq<PatternKey>)
    requires n <= |counts|
  {
    && (forall k :: k in order <==> k in chosen)
    && (forall i :: 0 <= i < n ==> KeyOf(counts[i]) in chosen)
    && (forall k :: k in chosen ==> RepresentedBy(counts, n, k, chosen[k]))
  }

  lemma ChooseNext(counts: seq<TripCount>, n: nat, chosen: map<PatternKey, TripCount>, order: seq<PatternKey>)
    requires n < |counts| && ChosenTo(counts, n, chosen, order)
    ensures var row := counts[n];
            var k := KeyOf(row);
            var longer := k !in chosen || row.stopCount > chosen[k].stopCount;
            ChosenTo(counts, n + 1, if longer then chosen[k := row] else chosen,
                     if k in chosen then order else order + [k])
  {
    hide RepresentedBy;
    var row, k := counts[n], KeyOf(counts[n]);
    var next := if k !in chosen || row.stopCount > chosen[k].stopCount then chosen[k := row] else chosen;
    forall x | x in next
      ensures RepresentedBy(counts, n + 1, x, next[x])
    {
      if x in chosen {
        RepresentedNext(counts, n, x, chosen[x]);
      } else {
        RepresentedFirst(counts, n);
      }
    }
  }

  /** The representative of the first n rows, against row n. */
  lemma RepresentedNext(counts: seq<TripCount>, n: nat, k: PatternKey, row: TripCount)
    requires n < |counts| && RepresentedBy(counts, n, k, row)
    ensures var replaced := KeyOf(counts[n]) == k && counts[n].stopCount > row.stopCount;
            RepresentedBy(counts, n + 1, k, if replaced then counts[n] else row)
  {
    var i :| Represents(counts[..n], k, i) && row == counts[i];
    assert counts[..n + 1] == counts[..n] + [counts[n]];
    var replaced := KeyOf(counts[n]) == k && counts[n].stopCount > row.stopCount;
    assert Represents(counts[..n + 1], k, if replaced then n else i);
  }

  lemma RepresentedFirst(counts: seq<TripCount>, n: nat)
    requires n < |counts| && forall i :: 0 <= i < n ==> KeyOf(counts[i]) != KeyOf(counts[n])
    ensures RepresentedBy(counts, n + 1, KeyOf(counts[n]), counts[n])
  {
    assert Represents(counts[..n + 1], KeyOf(counts[n]), n);
  }

  method ChooseRepresentatives(counts: seq<TripCount>)
      returns (chosen: map<PatternKey, TripCount>, order: seq<PatternKey>)
    ensures ChosenTo(counts, |counts|, chosen, order)
  {
    chosen, order := map[], [];
    for n := 0 to |counts|
      invariant ChosenTo(counts, n, chosen, order)
    {
      ChooseNext(counts, n, chosen, order);
      var row := counts[n];
      var key := KeyOf(row);
      if key !in chosen {
        order := order + [key];
      }
      if key !in chosen || row.stopCount > chosen[key].stopCount {
        chosen := chosen[key := row];
      }
    }
  }

  /** The pattern of a trip with its calls. */
  function PatternOf(trip: TripRow, calls: seq<PatternStop>): Pattern
    requires |calls| >= 2
  {
    var named := trip.headsign.Some? && trip.headsign.value != "";
    var headsign := if named then trip.headsign.value else "Towards " + calls[|calls| - 1].name;
    Pattern(trip.routeId, trip.direction, headsign, calls)
  }

  function CallsOf(calls: map<string, seq<PatternStop>>, tripId: string): seq<PatternStop> {
    if tripId in calls then calls[tripId] else []
  }

  /** Row i makes pattern k: it represents k, its trip exists and calls at two or more stops. */
  ghost predicate Makes(counts: seq<TripCount>, trips: map<string, TripRow>, calls: map<string, seq<PatternStop>>,
                        k: PatternKey, i: int) {
    0 <= i < |counts| && Represents(counts, k, i) && Kept(counts[i], trips, calls)
  }

  /** The trip's route and direction, its calls in order, and its headsign or, without one, its last stop. */
  ghost predicate MadeFrom(p: Pattern, trip: TripRow, calls: seq<PatternStop>) {
    && p.routeId == trip.routeId && p.directionId == trip.direction && p.stops == calls && calls != []
    && (trip.headsign.Some? && trip.headsign.value != "" ==> p.headsign == trip.headsign.value)
    && (trip.headsign.None? || trip.headsign.value == "" ==> p.headsign == "Towards " + calls[|calls| - 1].name)
  }

  /** Every route and direction is represented by its longest trip, the first of them, and by nothing else. */
  ghost predicate PatternsExact(counts: seq<TripCount>, trips: map<string, TripRow>,
                                calls: map<string, seq<PatternStop>>, patterns: map<PatternKey, Pattern>) {
    && (forall k :: k in patterns ==> exists i :: Makes(counts, trips, calls, k, i))
    && (forall k, i :: Makes(counts, trips, calls, k, i) ==>
          k in patterns && MadeFrom(patterns[k], trips[counts[i].tripId], CallsOf(calls, counts[i].tripId)))
  }

  lemma RepresentsOnce(counts: seq<TripCount>, k: PatternKey, i: int, j: int)
    requires Represents(counts, k, i) && Represents(counts, k, j)
    ensures i == j
  {
  }

  /** `_build_patterns` after its queries: `counts`, `trips` and `calls` are what they answer. */
  method BuildPatterns(counts: seq<TripCount>, trips: map<string, TripRow>, calls: map<string, seq<PatternStop>>)
      returns (patterns: map<PatternKey, Pattern>, keys: seq<PatternKey>)
    ensures PatternsExact(counts, trips, calls, patterns)
    ensures forall k :: k in keys <==> k in patterns
    ensures forall k :: k in patterns ==> |patterns[k].stops| >= 2
  {
    hide ChosenTo, PatternsExact, PatternOf, Kept;
    var chosen, order := ChooseRepresentatives(counts);
    ChosenKeys(counts, chosen, order);
    patterns, keys := map[], [];
    for n := 0 to |order|
      invariant forall k :: k in keys <==> k in patterns
      invariant forall k :: k in patterns <==> k in order[..n] && Kept(chosen[k], trips, calls)
      invariant forall k :: k in patterns ==> patterns[k] == Made(chosen[k], trips, calls)
    {
      var key := order[n];
      assert key in order && order[..n + 1] == order[..n] + [key];
      if !Kept(chosen[key], trips, calls) {
        continue;
      }
      patterns := patterns[key := Made(chosen[key], trips, calls)];
      keys := keys + [key];
    }
    assert order[..|order|] == order;
    MadeExactly(counts, trips, calls, chosen, order, patterns);
  }

  lemma ChosenKeys(counts: seq<TripCount>, chosen: map<PatternKey, TripCount>, order: seq<PatternKey>)
    requires ChosenTo(counts, |counts|, chosen, order)
    ensures forall k :: k in order <==> k in chosen
  {
  }

  lemma MadeExactly(counts: seq<TripCount>, trips: map<string, TripRow>, calls: map<string, seq<PatternStop>>,
                    chosen: map<PatternKey, TripCount>, order: seq<PatternKey>, patterns: map<PatternKey, Pattern>)
    requires ChosenTo(counts, |counts|, chosen, order)
    requires forall k :: k in patterns <==> k in chosen && Kept(chosen[k], trips, calls)
    requires forall k :: k in patterns ==> patterns[k] == Made(chosen[k], trips, calls)
    ensures PatternsExact(counts, trips, calls, patterns)
    ensures forall k :: k in patterns ==> |patterns[k].stops| >= 2
  {
    hide Made, MadeFrom, Represents, ChosenTo;
    forall k | k in patterns
      ensures exists i :: Makes(counts, trips, calls, k, i)
      ensures |patterns[k].stops| >= 2
    {
      var i := ChosenFrom(counts, chosen, order, k);
      MadeIs(chosen[k], trips, calls);
      assert Makes(counts, trips, calls, k, i);
    }
    forall k, i | Makes(counts, trips, calls, k, i)
      ensures k in patterns && MadeFrom(patterns[k], trips[counts[i].tripId], CallsOf(calls, counts[i].tripId))
    {
      ChosenIs(counts, chosen, order, k, i);
      MadeIs(counts[i], trips, calls);
    }
  }

  lemma ChosenFrom(counts: seq<TripCount>, chosen: map<PatternKey, TripCount>, order: seq<PatternKey>, k: PatternKey)
      returns (i: int)
    requires ChosenTo(counts, |counts|, chosen, order) && k in chosen
    ensures 0 <= i < |counts| && Represents(counts, k, i) && chosen[k] == counts[i]
  {
    hide RepresentedBy, Represents, KeyOf;
    assert RepresentedBy(counts, |counts|, k, chosen[k]);
    i := RepresentedIs(counts, k, chosen[k]);
  }

  lemma RepresentedIs(counts: seq<TripCount>, k: PatternKey, row: TripCount) returns (i: int)
    requires RepresentedBy(counts, |counts|, k, row)
    ensures 0 <= i < |counts| && Represents(counts, k, i) && row == counts[i]
  {
    hide Serves;
    assert counts[..|counts|] == counts;
    i :| Represents(counts, k, i) && row == counts[i];
  }

  /** The row chosen for a key is its representative. */
  lemma ChosenIs(counts: seq<TripCount>, chosen: map<PatternKey, TripCount>, order: seq<PatternKey>, k: PatternKey,
                 i: int)
    requires ChosenTo(counts, |counts|, chosen, order) && Represents(counts, k, i)
    ensures k in chosen && chosen[k] == counts[i]
  {
    KeyIs(counts[i], k);
    assert KeyOf(counts[i]) in chosen;
    var j := ChosenFrom(counts, chosen, order, k);
    RepresentsOnce(counts, k, i, j);
  }

  lemma KeyIs(row: TripCount, k: PatternKey)
    ensures Serves(row, k) <==> KeyOf(row) == k
  {
  }

  lemma MadeIs(row: TripCount, trips: map<string, TripRow>, calls: map<string, seq<PatternStop>>)
    requires Kept(row, trips, calls)
    ensures MadeFrom(Made(row, trips, calls), trips[row.tripId], CallsOf(calls, row.tripId))
    ensures |Made(row, trips, calls).stops| >= 2
  {
  }

  function Made(row: TripCount, trips: map<string, TripRow>, calls: map<string, seq<PatternStop>>): Pattern
    requires Kept(row, trips, calls)
  {
    PatternOf(trips[row.tripId], CallsOf(calls, row.tripId))
  }

  predicate Kept(row: TripCount, trips: map<string, TripRow>, calls: map<string, seq<PatternStop>>) {
    row.tripId in trips && |CallsOf(calls, row.tripId)| >= 2
  }

  // ----- the index

  function Append<K, V>(m: map<K, seq<V>>, k: K, v: V): map<K, seq<V>> {
    m[k := (if k in m then m[k] else []) + [v]]
  }

  /** The index covers the first n patterns and the first i stops of the next one, exactly. */
  ghost predicate IndexedTo(patterns: map<PatternKey, Pattern>, keys: seq<PatternKey>, n: nat, i: nat,
                            index: map<StopId, seq<(PatternKey, nat)>>)
    requires n <= |keys|
  {
    && (forall s, e {:trigger e in index[s]} :: s in index && e in index[s] ==>
          CallsAt(patterns, e.0, e.1, s) && (e.0 in keys[..n] || (n < |keys| && e.0 == keys[n] && e.1 < i)))
    && (forall k, j: nat, s {:trigger CallsAt(patterns, k, j, s)} ::
          CallsAt(patterns, k, j, s) && (k in keys[..n] || (n < |keys| && k == keys[n] && j < i)) ==>
              s in index && (k, j) in index[s])
  }

  lemma IndexAppend(patterns: map<PatternKey, Pattern>, keys: seq<PatternKey>, n: nat, i: nat,
                    index: map<StopId, seq<(PatternKey, nat)>>)
    requires n < |keys| && keys[n] in patterns && i < |patterns[keys[n]].stops|
    requires IndexedTo(patterns, keys, n, i, index)
    ensures IndexedTo(patterns, keys, n, i + 1, Append(index, patterns[keys[n]].stops[i].stopId, (keys[n], i)))
  {
    var stop, entry := patterns[keys[n]].stops[i].stopId, (keys[n], i);
    var longer := Append(index, stop, entry);
    assert CallsAt(patterns, keys[n], i, stop);
    assert entry in longer[stop];
    forall s, e: (PatternKey, nat) | s in longer && e in longer[s]
      ensures CallsAt(patterns, e.0, e.1, s) && (e.0 in keys[..n] || (e.0 == keys[n] && e.1 < i + 1))
    {
      assert e == entry || (s in index && e in index[s]);
    }
    forall k, j: nat, s | CallsAt(patterns, k, j, s) && (k in keys[..n] || (k == keys[n] && j < i + 1))
      ensures s in longer && (k, j) in longer[s]
    {
      assert (k, j) == entry || (s in index && (k, j) in index[s]);
    }
  }

  /** `patterns_at`: every call of every pattern, listed under its stop. `keys` is the dictionary's order. */
  method IndexPatterns(patterns: map<PatternKey, Pattern>, keys: seq<PatternKey>)
      returns (index: map<StopId, seq<(PatternKey, nat)>>)
    requires forall k :: k in keys <==> k in patterns
    ensures IndexExact(patterns, index)
  {
    index := map[];
    for n := 0 to |keys|
      invariant IndexedTo(patterns, keys, n, 0, index)
    {
      var key := keys[n];
      assert key in keys;
      var pattern := patterns[key];
      for i := 0 to |pattern.stops|
        invariant IndexedTo(patterns, keys, n, i, index)
      {
        IndexAppend(patterns, keys, n, i, index);
        index := Append(index, pattern.stops[i].stopId, (key, i));
      }
      assert keys[..n + 1] == keys[..n] + [key];
    }
    assert keys[..|keys|] == keys;
  }

  // ----- walking edges

  /** Two stations are walkable when close enough or in one complex. */
  predicate Walkable(a: Station, b: Station, distance: real, params: Params) {
    distance <= params.walkMax || (a.parent.Some? && a.parent == b.parent)
  }

  /** `e` out of stop `s` is one of the two edges of the pair (a, b). */
  ghost predicate EdgeOf(a: Station, b: Station, distance: real, params: Params, s: StopId, e: WalkEdge)
    requires params.walkSpeed > 0.0
  {
    && Walkable(a, b, distance, params)
    && ((s == a.stopId && e.to == b.stopId) || (s == b.stopId && e.to == a.stopId))
    && e.distance == distance && e.seconds == distance / params.walkSpeed + params.transferOverhead
  }

  ghost predicate PairEdge(stops: seq<Station>, params: Params, distance: (Station, Station) -> real, x: int, y: int,
                           s: StopId, e: WalkEdge)
    requires params.walkSpeed > 0.0
  {
    0 <= x < y < |stops| && EdgeOf(stops[x], stops[y], distance(stops[x], stops[y]), params, s, e)
  }

  /** Pair (x, y) comes before (i, j) in `combinations` order. */
  predicate Earlier(x: int, y: int, i: int, j: int) {
    x < i || (x == i && y < j)
  }

  /** Exactly the pairs before (i, j) have their two edges. */
  ghost predicate WalkedTo(stops: seq<Station>, params: Params, distance: (Station, Station) -> real, i: nat, j: nat,
                           edges: map<StopId, seq<WalkEdge>>)
    requires params.walkSpeed > 0.0
  {
    && (forall s, e :: s in edges && e in edges[s] ==>
          exists x, y :: Earlier(x, y, i, j) && PairEdge(stops, params, distance, x, y, s, e))
    && (forall x, y, s, e :: Earlier(x, y, i, j) && PairEdge(stops, params, distance, x, y, s, e) ==>
          s in edges && e in edges[s])
  }

  /** Rows meet: after the last pair of row i come the first of row i + 1. */
  lemma NextRow(stops: seq<Station>, params: Params, distance: (Station, Station) -> real, i: nat, j: nat, i': nat,
                j': nat, edges: map<StopId, seq<WalkEdge>>)
    requires params.walkSpeed > 0.0 && WalkedTo(stops, params, distance, i, j, edges)
    requires forall x, y :: 0 <= x < y < |stops| ==> (Earlier(x, y, i, j) <==> Earlier(x, y, i', j'))
    ensures WalkedTo(stops, params, distance, i', j', edges)
  {
    forall s, e | s in edges && e in edges[s]
      ensures exists x, y :: Earlier(x, y, i', j') && PairEdge(stops, params, distance, x, y, s, e)
    {
      var x, y :| Earlier(x, y, i, j) && PairEdge(stops, params, distance, x, y, s, e);
      assert Earlier(x, y, i', j');
    }
  }

  lemma WalkAppend(stops: seq<Station>, params: Params, distance: (Station, Station) -> real, i: nat, j: nat,
                   edges: map<StopId, seq<WalkEdge>>)
    requires params.walkSpeed > 0.0 && i < j < |stops| && WalkedTo(stops, params, distance, i, j, edges)
    ensures var a, b := stops[i], stops[j];
            var d := distance(a, b);
            var t := d / params.walkSpeed + params.transferOverhead;
            var there := Append(edges, a.stopId, WalkEdge(b.stopId, d, t));
            var both := Append(there, b.stopId, WalkEdge(a.stopId, d, t));
            WalkedTo(stops, params, distance, i, j + 1, if Walkable(a, b, d, params) then both else edges)
  {
    var a, b := stops[i], stops[j];
    var d := distance(a, b);
    var t := d / params.walkSpeed + params.transferOverhead;
    var there, back := WalkEdge(b.stopId, d, t), WalkEdge(a.stopId, d, t);
    var longer := if Walkable(a, b, d, params) then Append(Append(edges, a.stopId, there), b.stopId, back) else edges;
    forall s, e | s in longer && e in longer[s]
      ensures exists x, y :: Earlier(x, y, i, j + 1) && PairEdge(stops, params, distance, x, y, s, e)
    {
      if s in edges && e in edges[s] {
        var x, y :| Earlier(x, y, i, j) && PairEdge(stops, params, distance, x, y, s, e);
        assert Earlier(x, y, i, j + 1);
      } else {
        assert Earlier(i, j, i, j + 1) && PairEdge(stops, params, distance, i, j, s, e);
      }
    }
    forall x, y, s, e | Earlier(x, y, i, j + 1) && PairEdge(stops, params, distance, x, y, s, e)
      ensures s in longer && e in longer[s]
    {
      if x == i && y == j {
        assert e == there || e == back;
      } else {
        assert Earlier(x, y, i, j);
      }
    }
  }

  lemma NothingWalked(stops: seq<Station>, params: Params, distance: (Station, Station) -> real)
    requires params.walkSpeed > 0.0
    ensures WalkedTo(stops, params, distance, 0, 0, map[])
  {
  }

  /** `_build_walk_edges`; great-circle distance is the parameter `distance`. */
  method BuildWalkEdges(stops: seq<Station>, params: Params, distance: (Station, Station) -> real)
      returns (edges: map<StopId, seq<WalkEdge>>)
    requires params.walkSpeed > 0.0
    ensures WalkedTo(stops, params, distance, |stops|, 0, edges)
  {
    edges := map[];
    NothingWalked(stops, params, distance);
    hide WalkedTo;
    for i := 0 to |stops|
      invariant WalkedTo(stops, params, distance, i, 0, edges)
    {
      NextRow(stops, params, distance, i, 0, i, i + 1, edges);
      for j := i + 1 to |stops|
        invariant WalkedTo(stops, params, distance, i, j, edges)
      {
        var a, b := stops[i], stops[j];
        var d := distance(a, b);
        WalkAppend(stops, params, distance, i, j, edges);
        if d > params.walkMax && !(a.parent.Some? && a.parent == b.parent) {
          continue;
        }
        var seconds := d / params.walkSpeed + params.transferOverhead;
        edges := Append(edges, a.stopId, WalkEdge(b.stopId, d, seconds));
        edges := Append(edges, b.stopId, WalkEdge(a.stopId, d, seconds));
      }
      NextRow(stops, params, distance, i, |stops|, i + 1, 0, edges);
    }
  }

  /** Walking is symmetric: the way back exists and costs the same. */
  lemma WalksBothWays(stops: seq<Station>, params: Params, distance: (Station, Station) -> real,
                      edges: map<StopId, seq<WalkEdge>>, s: StopId, e: WalkEdge)
    requires params.walkSpeed > 0.0 && WalkedTo(stops, params, distance, |stops|, 0, edges) && s in edges
    requires e in edges[s]
    ensures e.to in edges && WalkEdge(s, e.distance, e.seconds) in edges[e.to]
  {
    var x, y :| Earlier(x, y, |stops|, 0) && PairEdge(stops, params, distance, x, y, s, e);
    assert PairEdge(stops, params, distance, x, y, e.to, WalkEdge(s, e.distance, e.seconds));
  }

  /** A built network meets every demand of the search. */
  method BuildGraph(stops: seq<Station>, counts: seq<TripCount>, trips: map<string, TripRow>,
                    calls: map<string, seq<PatternStop>>,
                    params: Params, distance: (Station, Station) -> real, names: map<StopId, string>) returns (g: Graph)
    requires params.walkSpeed > 0.0 && params.transferOverhead >= 0.0 && forall a, b :: distance(a, b) >= 0.0
    ensures g.Valid() && PatternsExact(counts, trips, calls, g.patterns) && g.stopNames == names
    ensures WalkedTo(stops, params, distance, |stops|, 0, g.walkEdges)
    ensures forall s, e :: s in g.walkEdges && e in g.walkEdges[s] ==>
              e.to in g.walkEdges && WalkEdge(s, e.distance, e.seconds) in g.walkEdges[e.to]
  {
    hide PatternsExact;
    var patterns, keys := BuildPatterns(counts, trips, calls);
    var index := IndexPatterns(patterns, keys);
    var edges := BuildWalkEdges(stops, params, distance);
    forall s, e: WalkEdge | s in edges && e in edges[s]
      ensures e.seconds >= 0.0 && e.to in edges && WalkEdge(s, e.distance, e.seconds) in edges[e.to]
    {
      WalksBothWays(stops, params, distance, edges, s, e);
      assert e.distance >= 0.0;
      assert e.distance / params.walkSpeed >= 0.0;
    }
    g := Graph(patterns, index, edges, names);
  }
}
