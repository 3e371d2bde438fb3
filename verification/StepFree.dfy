/**
Step-free reachability: which gates share a component of the pathways graph with a lift and a platform.
A missing id or endpoint is the empty string, which the code treats as absent.
*/
module StepFree {
  import opened Common

  type NodeId = string

  datatype Edge = Edge(from: NodeId, to: NodeId)

  type Adjacency = map<NodeId, set<NodeId>>

  // ----- the specification: walks over usable edges, in either direction

  predicate Usable(e: Edge) {
    e.from != "" && e.to != "" && e.from != e.to
  }

  ghost predicate Joined(edges: seq<Edge>, a: NodeId, b: NodeId) {
    exists e :: e in edges && Usable(e) && ((e.from == a && e.to == b) || (e.from == b && e.to == a))
  }

  ghost predicate IsWalk(edges: seq<Edge>, walk: seq<NodeId>) {
    walk != [] && forall i {:trigger walk[i]} :: 0 < i < |walk| ==> Joined(edges, walk[i - 1], walk[i])
  }

  ghost predicate WalkBetween(edges: seq<Edge>, walk: seq<NodeId>, a: NodeId, b: NodeId) {
    IsWalk(edges, walk) && walk[0] == a && walk[|walk| - 1] == b
  }

  ghost predicate Linked(edges: seq<Edge>, a: NodeId, b: NodeId) {
    exists walk :: WalkBetween(edges, walk, a, b)
  }

  ghost predicate Endpoint(edges: seq<Edge>, a: NodeId) {
    exists b :: Joined(edges, a, b)
  }

  lemma LinkedToSelf(edges: seq<Edge>, a: NodeId)
    ensures Linked(edges, a, a)
  {
    assert WalkBetween(edges, [a], a, a);
  }

  lemma LinkedExtends(edges: seq<Edge>, a: NodeId, b: NodeId, c: NodeId)
    requires Linked(edges, a, b) && Joined(edges, b, c)
    ensures Linked(edges, a, c)
  {
    hide Joined;
    var walk :| WalkBetween(edges, walk, a, b);
    var longer := walk + [c];
    forall i {:trigger longer[i]} | 0 < i < |longer| ensures Joined(edges, longer[i - 1], longer[i]) {
      if i < |walk| { assert longer[i] == walk[i] && longer[i - 1] == walk[i - 1]; }
    }
    assert WalkBetween(edges, longer, a, c);
  }

  lemma LinkedSymmetric(edges: seq<Edge>, a: NodeId, b: NodeId)
    requires Linked(edges, a, b)
    ensures Linked(edges, b, a)
  {
    var walk :| WalkBetween(edges, walk, a, b);
    var back := Reverse(walk);
    forall i {:trigger back[i]} | 0 < i < |back| ensures Joined(edges, back[i - 1], back[i]) {
      assert Joined(edges, walk[|walk| - 1 - i], walk[|walk| - i]) by { assert walk[|walk| - i] == walk[|walk| - i]; }
      JoinedSymmetric(edges, walk[|walk| - 1 - i], walk[|walk| - i]);
    }
    assert WalkBetween(edges, back, b, a);
  }

  lemma JoinedSymmetric(edges: seq<Edge>, a: NodeId, b: NodeId)
    requires Joined(edges, a, b)
    ensures Joined(edges, b, a)
  {
  }

  lemma {:induction false} LinkedTransitive(edges: seq<Edge>, a: NodeId, b: NodeId, c: NodeId)
    requires Linked(edges, a, b) && Linked(edges, b, c)
    ensures Linked(edges, a, c)
  {
    var walk :| WalkBetween(edges, walk, b, c);
    AppendWalk(edges, a, walk);
  }

  lemma {:induction false} AppendWalk(edges: seq<Edge>, a: NodeId, walk: seq<NodeId>)
    requires IsWalk(edges, walk) && Linked(edges, a, walk[0])
    ensures Linked(edges, a, walk[|walk| - 1])
  {
    hide Joined, Linked;
    if |walk| > 1 {
      var n := |walk| - 1;
      assert forall i :: 0 <= i < n ==> walk[..n][i] == walk[i];
      AppendWalk(edges, a, walk[..n]);
      assert Joined(edges, walk[n - 1], walk[n]);
      LinkedExtends(edges, a, walk[n - 1], walk[n]);
    }
  }

  // ----- the adjacency dictionary

  ghost predicate Mirrors(adjacency: Adjacency, edges: seq<Edge>) {
    forall a, b :: Adjacent(adjacency, a, b) <==> Joined(edges, a, b)
  }

  predicate Adjacent(adjacency: Adjacency, a: NodeId, b: NodeId) {
    a in adjacency && b in adjacency[a]
  }

  /** Every key has a neighbour. */
  ghost predicate NoLoners(adjacency: Adjacency) {
    forall a :: a in adjacency ==> adjacency[a] != {}
  }

  function WithNeighbour(adjacency: Adjacency, a: NodeId, b: NodeId): Adjacency {
    adjacency[a := (if a in adjacency then adjacency[a] else {}) + {b}]
  }

  function WithEdge(adjacency: Adjacency, e: Edge): Adjacency {
    if Usable(e) then WithNeighbour(WithNeighbour(adjacency, e.from, e.to), e.to, e.from) else adjacency
  }

  method BuildAdjacency(edges: seq<Edge>) returns (adjacency: Adjacency)
    ensures Mirrors(adjacency, edges) && NoLoners(adjacency)
  {
    adjacency := map[];
    assert edges[..0] == [];
    for n := 0 to |edges|
      invariant Mirrors(adjacency, edges[..n]) && NoLoners(adjacency)
    {
      var e := edges[n];
      EdgeMirrored(edges, n, adjacency);
      hide Mirrors;
      if e.from == "" || e.to == "" || e.from == e.to {
        continue;
      }
      adjacency := WithNeighbour(adjacency, e.from, e.to);
      adjacency := WithNeighbour(adjacency, e.to, e.from);
    }
    assert edges[..|edges|] == edges;
  }

  lemma OneMoreEdge(edges: seq<Edge>, n: nat, a: NodeId, b: NodeId)
    requires n < |edges|
    ensures Joined(edges[..n + 1], a, b)
       <==> Joined(edges[..n], a, b)
            || (Usable(edges[n]) && ((edges[n].from == a && edges[n].to == b)
                                     || (edges[n].from == b && edges[n].to == a)))
  {
    assert edges[..n + 1] == edges[..n] + [edges[n]];
    if e :| e in edges[..n] && Usable(e) && ((e.from == a && e.to == b) || (e.from == b && e.to == a)) {
      assert e in edges[..n + 1];
    }
    assert edges[n] in edges[..n + 1];
  }

  lemma EdgeMirrored(edges: seq<Edge>, n: nat, adjacency: Adjacency)
    requires n < |edges| && Mirrors(adjacency, edges[..n])
    ensures Mirrors(WithEdge(adjacency, edges[n]), edges[..n + 1])
  {
    var e := edges[n];
    var after := WithEdge(adjacency, e);
    forall a, b
      ensures Adjacent(after, a, b) <==> Joined(edges[..n + 1], a, b)
    {
      hide Joined;
      OneMoreEdge(edges, n, a, b);
      assert Adjacent(adjacency, a, b) <==> Joined(edges[..n], a, b);
    }
  }

  // ----- one component

  /** Everything found is linked to the start, and everything found and not pending has been explored. */
  ghost predicate Exploring(edges: seq<Edge>, start: NodeId, seen: set<NodeId>, pending: set<NodeId>) {
    && start in seen && pending <= seen
    && (forall b :: b in seen ==> Linked(edges, start, b))
    && (forall a, b :: a in seen && a !in pending && Joined(edges, a, b) ==> b in seen)
  }

  lemma ExploreNode(edges: seq<Edge>, adjacency: Adjacency, start: NodeId, seen: set<NodeId>, pending: set<NodeId>,
                    node: NodeId, neighbours: set<NodeId>, rest: set<NodeId>)
    requires Mirrors(adjacency, edges) && Exploring(edges, start, seen, pending) && node in pending
    requires neighbours == if node in adjacency then adjacency[node] else {}
    requires pending - {node} <= rest <= pending
    ensures Exploring(edges, start, seen + neighbours, rest + (neighbours - seen))
  {
    hide Joined, Linked;
    forall b | b in neighbours ensures Linked(edges, start, b) {
      assert Adjacent(adjacency, node, b);
      LinkedExtends(edges, start, node, b);
    }
    forall a, b | a in seen + neighbours && a !in rest + (neighbours - seen) && Joined(edges, a, b)
      ensures b in seen + neighbours
    {
      if a == node {
        assert Adjacent(adjacency, node, b);
      }
    }
  }

  function Elements(s: seq<NodeId>): set<NodeId> { set x | x in s }

  /** Marks and queues the neighbours not seen before. */
  method Visit(neighbours: set<NodeId>, seen: set<NodeId>, frontier: seq<NodeId>)
      returns (seen': set<NodeId>, frontier': seq<NodeId>)
    ensures seen' == seen + neighbours && Elements(frontier') == Elements(frontier) + (neighbours - seen)
    ensures neighbours <= seen ==> frontier' == frontier
  {
    seen', frontier' := seen, frontier;
    var todo := neighbours;
    while todo != {}
      invariant todo <= neighbours && seen' == seen + (neighbours - todo)
      invariant Elements(frontier') == Elements(frontier) + ((neighbours - todo) - seen)
      invariant neighbours <= seen ==> frontier' == frontier
    {
      var neighbour :| neighbour in todo;
      todo := todo - {neighbour};
      if neighbour !in seen' {
        seen' := seen' + {neighbour};
        assert Elements(frontier' + [neighbour]) == Elements(frontier') + {neighbour};
        frontier' := frontier' + [neighbour];
      }
    }
  }

  /** `_component_of`: depth-first worklist from a node. */
  method ComponentOf(start: NodeId, adjacency: Adjacency, ghost edges: seq<Edge>) returns (seen: set<NodeId>)
    requires Mirrors(adjacency, edges)
    ensures ComponentExact(seen, start, edges)
  {
    hide Joined, Linked, Mirrors;
    seen := {start};
    var frontier := [start];
    ghost var nodes := {start} + (set a, b | a in adjacency && b in adjacency[a] :: b);
    LinkedToSelf(edges, start);
    while frontier != []
      invariant seen <= nodes && Exploring(edges, start, seen, Elements(frontier))
      decreases nodes - seen, |frontier|
    {
      hide Exploring;
      var node := frontier[|frontier| - 1];
      ghost var pending := Elements(frontier);
      frontier := frontier[..|frontier| - 1];
      var neighbours := if node in adjacency then adjacency[node] else {};
      assert pending - {node} <= Elements(frontier) <= pending;
      ExploreNode(edges, adjacency, start, seen, pending, node, neighbours, Elements(frontier));
      seen, frontier := Visit(neighbours, seen, frontier);
    }
    forall b | Linked(edges, start, b) ensures b in seen {
      LinkedStays(edges, start, seen, b);
    }
  }

  lemma LinkedStays(edges: seq<Edge>, start: NodeId, seen: set<NodeId>, b: NodeId)
    requires Exploring(edges, start, seen, {}) && Linked(edges, start, b)
    ensures b in seen
  {
    var walk :| WalkBetween(edges, walk, start, b);
    WalkStays(edges, seen, walk, |walk| - 1);
  }

  lemma {:induction false} WalkStays(edges: seq<Edge>, seen: set<NodeId>, walk: seq<NodeId>, i: nat)
    requires IsWalk(edges, walk) && i < |walk| && walk[0] in seen
    requires forall a, b :: a in seen && Joined(edges, a, b) ==> b in seen
    ensures walk[i] in seen
  {
    hide Joined;
    if i > 0 {
      WalkStays(edges, seen, walk, i - 1);
      assert Joined(edges, walk[i - 1], walk[i]);
    }
  }

  // ----- qualifying gates

  ghost predicate Qualifies(gate: NodeId, lifts: seq<NodeId>, platforms: seq<NodeId>, edges: seq<Edge>) {
    && gate != "" && Endpoint(edges, gate)
    && (exists l :: l in lifts && l != "" && Linked(edges, gate, l))
    && (exists p :: p in platforms && p != "" && Linked(edges, gate, p))
  }

  ghost predicate CacheExact(cache: map<NodeId, set<NodeId>>, edges: seq<Edge>) {
    forall a :: a in cache ==> ComponentExact(cache[a], a, edges)
  }

  ghost predicate ComponentExact(component: set<NodeId>, a: NodeId, edges: seq<Edge>) {
    forall b :: b in component <==> Linked(edges, a, b)
  }

  /** One component serves all its members: the cache is shared safely because links are symmetric and transitive. */
  lemma ComponentShared(component: set<NodeId>, a: NodeId, b: NodeId, edges: seq<Edge>)
    requires ComponentExact(component, a, edges) && b in component
    ensures ComponentExact(component, b, edges)
  {
    hide Linked;
    LinkedSymmetric(edges, a, b);
    forall c ensures c in component <==> Linked(edges, b, c) {
      if c in component {
        LinkedTransitive(edges, b, a, c);
      } else if Linked(edges, b, c) {
        LinkedTransitive(edges, a, b, c);
      }
    }
  }

  /** Exactly the gates with mapped step-free links to a lift and to a platform. */
  method StepFreeGateIds(gates: seq<NodeId>, lifts: seq<NodeId>, platforms: seq<NodeId>, edges: seq<Edge>)
      returns (qualified: set<NodeId>)
    ensures forall g :: g in qualified <==> g in gates && Qualifies(g, lifts, platforms, edges)
  {
    var liftIds := set l | l in lifts && l != "";
    var platformIds := set p | p in platforms && p != "";
    var adjacency := BuildAdjacency(edges);
    qualified := {};
    var cache: map<NodeId, set<NodeId>> := map[];
    for n := 0 to |gates|
      invariant CacheExact(cache, edges)
      invariant forall g :: g in qualified <==> g in gates[..n] && Qualifies(g, lifts, platforms, edges)
    {
      hide Linked, Joined;
      var gate := gates[n];
      assert gates[..n + 1] == gates[..n] + [gate];
      AdjacentIffEndpoint(adjacency, edges, gate);
      hide Mirrors, NoLoners, ComponentExact, CacheExact, Qualifies;
      NotQualified(gate, lifts, platforms, edges);
      if gate == "" || gate !in adjacency {
        continue;
      }
      var component;
      if gate in cache {
        component := cache[gate];
        Cached(cache, gate, edges);
      } else {
        component := ComponentOf(gate, adjacency, edges);
        CacheGrows(cache, component, gate, edges);
        cache := cache + map b | b in component :: component;
      }
      QualifiesIff(component, gate, lifts, platforms, edges);
      if component * liftIds != {} && component * platformIds != {} {
        qualified := qualified + {gate};
      }
    }
    assert gates[..|gates|] == gates;
  }

  lemma Cached(cache: map<NodeId, set<NodeId>>, gate: NodeId, edges: seq<Edge>)
    requires CacheExact(cache, edges) && gate in cache
    ensures ComponentExact(cache[gate], gate, edges)
  {
  }

  /** Caching a component for all its members keeps the cache exact. */
  lemma CacheGrows(cache: map<NodeId, set<NodeId>>, component: set<NodeId>, gate: NodeId, edges: seq<Edge>)
    requires CacheExact(cache, edges) && ComponentExact(component, gate, edges)
    ensures CacheExact(cache + map b | b in component :: component, edges)
  {
    hide ComponentExact;
    forall b | b in component ensures ComponentExact(component, b, edges) {
      ComponentShared(component, gate, b, edges);
    }
  }

  lemma NotQualified(gate: NodeId, lifts: seq<NodeId>, platforms: seq<NodeId>, edges: seq<Edge>)
    ensures gate == "" || !Endpoint(edges, gate) ==> !Qualifies(gate, lifts, platforms, edges)
  {
  }

  /** The test on the component decides the gate. */
  lemma QualifiesIff(component: set<NodeId>, gate: NodeId, lifts: seq<NodeId>, platforms: seq<NodeId>, edges: seq<Edge>)
    requires ComponentExact(component, gate, edges) && gate != "" && Endpoint(edges, gate)
    ensures var liftIds := set l | l in lifts && l != "";
            var platformIds := set p | p in platforms && p != "";
            component * liftIds != {} && component * platformIds != {} <==> Qualifies(gate, lifts, platforms, edges)
  {
    hide Linked, Joined, ComponentExact;
    var liftIds := set l | l in lifts && l != "";
    var platformIds := set p | p in platforms && p != "";
    MeetsIff(component, gate, liftIds, edges);
    MeetsIff(component, gate, platformIds, edges);
  }

  lemma AdjacentIffEndpoint(adjacency: Adjacency, edges: seq<Edge>, a: NodeId)
    requires Mirrors(adjacency, edges) && NoLoners(adjacency)
    ensures a in adjacency <==> Endpoint(edges, a)
  {
    hide Joined;
    if a in adjacency {
      var b :| b in adjacency[a];
      assert Adjacent(adjacency, a, b);
    }
    if b :| Joined(edges, a, b) {
      assert Adjacent(adjacency, a, b);
    }
  }

  lemma MeetsIff(component: set<NodeId>, gate: NodeId, ids: set<NodeId>, edges: seq<Edge>)
    requires ComponentExact(component, gate, edges)
    ensures component * ids != {} <==> exists l :: l in ids && Linked(edges, gate, l)
  {
    hide Linked;
    if component * ids != {} {
      var l :| l in component * ids;
    }
    if l :| l in ids && Linked(edges, gate, l) {
      assert l in component * ids;
    }
  }
}
