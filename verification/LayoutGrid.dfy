/**
The mutable positions and spatial grid of the schematic layout, the trial moves of its optimiser and its
snapping pass. Distances are reals; the angle functions are parameters.
*/
module LayoutGrid {
  import opened Common

  datatype Point = Point(x: real, y: real)

  type Cell = (int, int)

  type Edge = (nat, nat)

  const CELL := 64.0
  const CANVAS_W := 2400.0
  const CANVAS_H := 2800.0

  /** The widest multiplier of the repulsion distance, and the multiple of it that is searched. */
  const WIDEST := 2.6
  const SEARCHED := 2.2

  const HARD_MIN_DIST := 30.0

  function Key(p: Point): Cell {
    ((p.x / CELL).Floor, (p.y / CELL).Floor)
  }

  function Times(x: real, y: real): real {
    x * y
  }

  function Square(x: real): real {
    x * x
  }

  /** The squared distance of two points. */
  function Gap(p: Point, q: Point): real {
    Square(q.x - p.x) + Square(q.y - p.y)
  }

  /** Trigonometry: the deviation from the nearest octilinear direction, that direction, and the length of a vector. */
  datatype Angles = Angles(dev: (real, real) -> real, dir: (real, real) -> Point, hypot: (real, real) -> real)

  ghost predicate Sane(t: Angles) {
    && (forall x, y :: t.hypot(x, y) >= 0.0 && Square(t.hypot(x, y)) == Square(x) + Square(y))
    && (forall x, y :: Square(t.dir(x, y).x) + Square(t.dir(x, y).y) == 1.0)
    && t.dev(0.0, 0.0) == 0.0
    && (forall x, y :: t.dev(-x, -y) == t.dev(x, y))
  }

  function Deviation(t: Angles, p: Point, q: Point): real {
    t.dev(q.x - p.x, q.y - p.y)
  }

  function Distance(t: Angles, p: Point, q: Point): real {
    t.hypot(q.x - p.x, q.y - p.y)
  }

  // ----- the grid

  predicate InCell(grid: map<Cell, set<nat>>, c: Cell, i: nat) {
    c in grid && i in grid[c]
  }

  /** Every node is in the cell of its position and in no other. */
  ghost predicate Indexed(pos: seq<Point>, grid: map<Cell, set<nat>>) {
    forall c, i: nat :: InCell(grid, c, i) <==> i < |pos| && Key(pos[i]) == c
  }

  function At(grid: map<Cell, set<nat>>, c: Cell): set<nat> {
    if c in grid then grid[c] else {}
  }

  function Put(grid: map<Cell, set<nat>>, c: Cell, i: nat): (r: map<Cell, set<nat>>)
    ensures forall d, j: nat :: InCell(r, d, j) <==> InCell(grid, d, j) || (d == c && j == i)
  {
    grid[c := At(grid, c) + {i}]
  }

  function Drop(grid: map<Cell, set<nat>>, c: Cell, i: nat): (r: map<Cell, set<nat>>)
    ensures forall d, j: nat :: InCell(r, d, j) <==> InCell(grid, d, j) && !(d == c && j == i)
  {
    grid[c := At(grid, c) - {i}]
  }

  /** Cell k lies in the square block of cells around c. */
  predicate InBlock(k: Cell, c: Cell, reach: int) {
    c.0 - reach <= k.0 <= c.0 + reach && c.1 - reach <= k.1 <= c.1 + reach
  }

  /** Cell k comes before c, column by column. */
  predicate Before(k: Cell, c: Cell) {
    k.0 < c.0 || (k.0 == c.0 && k.1 < c.1)
  }

  function Reach(radius: real): int {
    (radius / CELL).Floor + 1
  }

  ghost predicate Distinct(s: seq<nat>) {
    forall a, b :: 0 <= a < b < |s| ==> s[a] != s[b]
  }

  lemma DistinctAppend(s: seq<nat>, t: seq<nat>)
    requires Distinct(s) && Distinct(t) && forall x :: x in s ==> x !in t
    ensures Distinct(s + t)
  {
    forall a, b | 0 <= a < b < |s + t|
      ensures (s + t)[a] != (s + t)[b]
    {
      if a < |s| <= b {
        assert s[a] in s && t[b - |s|] in t;
      }
    }
  }

  lemma FloorsClose(x: real, y: real, reach: int)
    requires -CELL * reach as real <= y - x <= CELL * reach as real
    ensures (x / CELL).Floor - reach <= (y / CELL).Floor <= (x / CELL).Floor + reach
  {
    assert x / CELL - reach as real <= y / CELL <= x / CELL + reach as real;
  }

  lemma ProductPositive(a: real, b: real)
    requires a > 0.0 && b > 0.0
    ensures a * b > 0.0
  {
  }

  lemma SquareStrict(a: real, b: real)
    requires 0.0 <= a < b
    ensures Square(a) < Square(b)
  {
    ProductPositive(b - a, b + a);
    assert (b - a) * (b + a) == b * b - a * a;
  }

  lemma SquareOrder(x: real, limit: real)
    requires limit >= 0.0 && Square(x) <= Square(limit)
    ensures -limit <= x <= limit
  {
    assert Square(-x) == Square(x);
    if x > limit { SquareStrict(limit, x); }
    if x < -limit { SquareStrict(limit, -x); }
  }

  lemma SquareMono(a: real, b: real)
    requires 0.0 <= a <= b
    ensures Square(a) <= Square(b)
  {
    assert a * (b - a) >= 0.0 && b * (b - a) >= 0.0;
  }

  lemma SquareNonNegative(x: real)
    ensures Square(x) >= 0.0
  {
  }

  /** No node closer than the block's reach, and so none within the radius asked for, lies outside the block. */
  lemma BlockCovers(p: Point, q: Point, radius: real, within: real)
    requires 0.0 <= within <= CELL * Reach(radius) as real
    requires Gap(p, q) <= Square(within)
    ensures InBlock(Key(q), Key(p), Reach(radius))
    ensures radius <= CELL * Reach(radius) as real
  {
    SquareNonNegative(q.x - p.x);
    SquareNonNegative(q.y - p.y);
    SquareOrder(q.x - p.x, within);
    SquareOrder(q.y - p.y, within);
    FloorsClose(p.x, q.x, Reach(radius));
    FloorsClose(p.y, q.y, Reach(radius));
  }

  // ----- repulsion

  /** Weight, repulsion distance (34 unless an option changes it) and multipliers. */
  datatype Repulsion = Repulsion(weight: real, distance: real, mult: map<nat, real>, t: Angles)

  /** Multipliers stay between 1.0 and the cap of the label feedback. */
  ghost predicate Capped(r: Repulsion) {
    Sane(r.t) && r.distance > 0.0 && forall i :: i in r.mult ==> 1.0 <= r.mult[i] <= WIDEST
  }

  function Multiplier(r: Repulsion, i: nat): real {
    if i in r.mult then r.mult[i] else 1.0
  }

  function PairRadius(r: Repulsion, i: nat, j: nat): real {
    r.distance * MaxReal(Multiplier(r, i), Multiplier(r, j))
  }

  /** What node j adds to the repulsion of node i. */
  function Push(r: Repulsion, pos: seq<Point>, i: nat, j: nat): real
    requires i < |pos| && j < |pos|
  {
    var radius, d := PairRadius(r, i, j), Distance(r.t, pos[i], pos[j]);
    if radius != 0.0 && d < radius then r.weight * Square((radius - d) / radius) else 0.0
  }

  /** The pushes of those among the first n nodes that are in s. */
  ghost function PushOf(r: Repulsion, pos: seq<Point>, i: nat, s: set<nat>, n: nat): real
    requires i < |pos| && n <= |pos|
  {
    if n == 0 then 0.0
    else PushOf(r, pos, i, s, n - 1) + if n - 1 in s then Push(r, pos, i, n - 1) else 0.0
  }

  ghost function Members(s: seq<nat>): set<nat> {
    set j | j in s
  }

  predicate IsOther(i: nat, j: nat) {
    j != i
  }

  ghost function Others(pos: seq<Point>, i: nat): set<nat> {
    set j | 0 <= j < |pos| && IsOther(i, j)
  }

  /** The other nodes in the block searched around i. */
  ghost function Nearby(r: Repulsion, pos: seq<Point>, i: nat): set<nat>
    requires i < |pos|
  {
    set j | 0 <= j < |pos| && j != i && InBlock(Key(pos[j]), Key(pos[i]), Reach(r.distance * SEARCHED))
  }

  lemma {:induction false} PushOfAdd(r: Repulsion, pos: seq<Point>, i: nat, s: set<nat>, j: nat, n: nat)
    requires i < |pos| && n <= |pos| && j !in s && j < |pos|
    ensures PushOf(r, pos, i, s + {j}, n) == PushOf(r, pos, i, s, n) + if j < n then Push(r, pos, i, j) else 0.0
  {
    if n > 0 { PushOfAdd(r, pos, i, s, j, n - 1); }
  }

  lemma {:induction false} PushOfSame(r: Repulsion, pos: seq<Point>, i: nat, s: set<nat>, all: set<nat>, n: nat)
    requires i < |pos| && n <= |pos| && s <= all
    requires forall j :: 0 <= j < |pos| && j in all && j !in s ==> Push(r, pos, i, j) == 0.0
    ensures PushOf(r, pos, i, s, n) == PushOf(r, pos, i, all, n)
  {
    if n > 0 { PushOfSame(r, pos, i, s, all, n - 1); }
  }

  /** The searched block reaches as far as the widest repulsion. It does for the default distance. */
  predicate BlockSuffices(distance: real) {
    WIDEST * distance <= CELL * Reach(distance * SEARCHED) as real
  }

  /** Node j is outside the block searched around i, yet pushes it. */
  ghost predicate Missed(r: Repulsion, pos: seq<Point>, i: nat, j: nat) {
    && Capped(r) && i < |pos| && j < |pos| && Push(r, pos, i, j) != 0.0
    && !InBlock(Key(pos[j]), Key(pos[i]), Reach(r.distance * SEARCHED))
  }

  lemma DefaultSuffices()
    ensures BlockSuffices(34.0) && !BlockSuffices(29.0)
  {
    assert Reach(34.0 * SEARCHED) == 2 && Reach(29.0 * SEARCHED) == 1;
  }

  lemma RadiusBounds(r: Repulsion, i: nat, j: nat)
    requires Capped(r)
    ensures 0.0 < PairRadius(r, i, j) <= r.distance * WIDEST
  {
    var most := MaxReal(Multiplier(r, i), Multiplier(r, j));
    assert 1.0 <= most <= WIDEST;
    ProductPositive(r.distance, most);
    Scaled(r.distance, most, WIDEST);
    assert PairRadius(r, i, j) == r.distance * most;
  }

  lemma Scaled(k: real, x: real, y: real)
    requires k >= 0.0 && x <= y
    ensures k * x <= k * y
  {
  }

  /** Where the block suffices, a node outside it pushes nothing. */
  lemma FarPushesNothing(r: Repulsion, pos: seq<Point>, i: nat, j: nat)
    requires BlockSuffices(r.distance)
    ensures !Missed(r, pos, i, j)
  {
    if Missed(r, pos, i, j) {
      var d, most := Distance(r.t, pos[i], pos[j]), CELL * Reach(r.distance * SEARCHED) as real;
      RadiusBounds(r, i, j);
      hide PairRadius, Reach;
      SquareMono(d, most);
      BlockCovers(pos[i], pos[j], r.distance * SEARCHED, most);
    }
  }

  /** No layout has a missed node exactly when the block suffices. */
  lemma BlockSufficesIff(t: Angles, distance: real)
    requires Sane(t) && distance > 0.0
    ensures BlockSuffices(distance)
       <==> forall r: Repulsion, pos, i, j :: r.t == t && r.distance == distance ==> !Missed(r, pos, i, j)
  {
    if BlockSuffices(distance) {
      forall r: Repulsion, pos, i, j | r.t == t && r.distance == distance
        ensures !Missed(r, pos, i, j)
      {
        FarPushesNothing(r, pos, i, j);
      }
    } else {
      JustOutside(t, distance);
    }
  }

  /** Two nodes one of which lies just outside the block of the other, and within its widest repulsion. */
  lemma JustOutside(t: Angles, distance: real)
    requires Sane(t) && distance > 0.0 && !BlockSuffices(distance)
    ensures exists r: Repulsion, pos, i, j :: r.t == t && r.distance == distance && Missed(r, pos, i, j)
  {
    var reach := Reach(distance * SEARCHED);
    var edge := CELL * reach as real;
    var room := WIDEST * distance - edge;
    var step := if room < CELL then room / 2.0 else CELL / 2.0;
    var r := Repulsion(1.0, distance, map[0 := WIDEST], t);
    var pos := [Point(0.0, 0.0), Point(-(edge + step), 0.0)];
    assert reach >= 1;
    assert Key(pos[0]) == (0, 0) && Key(pos[1]).0 < -reach by {
      FloorBelow(edge + step, reach, step);
    }
    StraightDistance(t, edge + step);
    assert Distance(t, pos[0], pos[1]) == edge + step;
    assert PairRadius(r, 0, 1) == distance * WIDEST;
    PushPositive(PairRadius(r, 0, 1), edge + step);
    assert Push(r, pos, 0, 1) != 0.0;
    assert Missed(r, pos, 0, 1);
  }

  lemma FloorBelow(x: real, reach: int, step: real)
    requires x == CELL * reach as real + step && 0.0 < step < CELL
    ensures (-x / CELL).Floor < -reach
  {
    assert -x / CELL < -(reach as real);
  }

  lemma StraightDistance(t: Angles, x: real)
    requires Sane(t) && x >= 0.0
    ensures t.hypot(-x, 0.0) == x
  {
    var d := t.hypot(-x, 0.0);
    assert Square(-x) == Square(x) && Square(0.0) == 0.0;
    if d < x { SquareStrict(d, x); } else if x < d { SquareStrict(x, d); }
  }

  lemma PushPositive(radius: real, d: real)
    requires 0.0 <= d < radius
    ensures Square((radius - d) / radius) > 0.0
  {
    var part := (radius - d) / radius;
    assert part > 0.0;
    ProductPositive(part, part);
  }

  // ----- what a snapping pass keeps

  function Capping(m: real): real {
    if m < 900.0 then m else 900.0
  }

  /** No pair of nodes came closer than 30 units and closer than it was. */
  ghost predicate Kept(before: seq<Point>, after: seq<Point>) {
    && |after| == |before|
    && forall j, k :: 0 <= j < k < |before| ==> Gap(after[j], after[k]) >= Capping(Gap(before[j], before[k]))
  }

  lemma KeptTransitive(a: seq<Point>, b: seq<Point>, c: seq<Point>)
    requires Kept(a, b) && Kept(b, c)
    ensures Kept(a, c)
  {
    hide Gap;
    assert forall j, k :: 0 <= j < k < |a| ==>
        Gap(c[j], c[k]) >= Capping(Gap(b[j], b[k])) && Gap(b[j], b[k]) >= Capping(Gap(a[j], a[k]));
  }

  /** In particular the smallest distance never falls below the smaller of 30 and what it was. */
  lemma SmallestGapKept(before: seq<Point>, after: seq<Point>, least: real)
    requires Kept(before, after) && least <= 900.0
    requires forall j, k :: 0 <= j < k < |before| ==> Gap(before[j], before[k]) >= least
    ensures forall j, k :: 0 <= j < k < |after| ==> Gap(after[j], after[k]) >= least
  {
    hide Gap;
    assert forall j, k :: 0 <= j < k < |before| ==>
        Gap(after[j], after[k]) >= Capping(Gap(before[j], before[k])) && Gap(before[j], before[k]) >= least;
  }

  lemma GapSymmetric(p: Point, q: Point)
    ensures Gap(p, q) == Gap(q, p)
  {
  }

  /** The sum of all positions. */
  ghost function Total(pos: seq<Point>): Point {
    if pos == [] then Point(0.0, 0.0)
    else Point(Total(pos[..|pos| - 1]).x + pos[|pos| - 1].x, Total(pos[..|pos| - 1]).y + pos[|pos| - 1].y)
  }

  lemma {:induction false} TotalOfUpdate(pos: seq<Point>, i: nat, p: Point)
    requires i < |pos|
    ensures Total(pos[i := p]) == Point(Total(pos).x + p.x - pos[i].x, Total(pos).y + p.y - pos[i].y)
  {
    var last := |pos| - 1;
    if i < last {
      assert pos[i := p][..last] == pos[..last][i := p];
      TotalOfUpdate(pos[..last], i, p);
    } else {
      assert pos[i := p][..last] == pos[..last];
    }
  }

  /** Where an edge's ends go: the same midpoint and length, in the octilinear direction nearest to the edge. */
  function Straightened(t: Angles, p: Point, q: Point): (Point, Point) {
    var length, u := Distance(t, p, q), t.dir(q.x - p.x, q.y - p.y);
    var mx, my := (p.x + q.x) / 2.0, (p.y + q.y) / 2.0;
    (Point(mx - u.x * length / 2.0, my - u.y * length / 2.0), Point(mx + u.x * length / 2.0, my + u.y * length / 2.0))
  }

  lemma ScaleSquares(u: Point, l: real)
    requires Square(u.x) + Square(u.y) == 1.0
    ensures Square(u.x * l) + Square(u.y * l) == Square(l)
  {
    assert Square(u.x * l) == Square(u.x) * Square(l);
    assert Square(u.y * l) == Square(u.y) * Square(l);
  }

  lemma StraightenedSpan(t: Angles, p: Point, q: Point)
    ensures var (a, b) := Straightened(t, p, q); var u := t.dir(q.x - p.x, q.y - p.y);
            b.x - a.x == Times(u.x, Distance(t, p, q)) && b.y - a.y == Times(u.y, Distance(t, p, q))
  {
  }

  /** Straightening keeps the length and the midpoint of an edge. */
  lemma StraightenedKeeps(t: Angles, p: Point, q: Point)
    requires Sane(t)
    ensures var (a, b) := Straightened(t, p, q);
            Gap(a, b) == Gap(p, q) && a.x + b.x == p.x + q.x && a.y + b.y == p.y + q.y
  {
    var (a, b) := Straightened(t, p, q);
    var length, u := Distance(t, p, q), t.dir(q.x - p.x, q.y - p.y);
    hide Square;
    StraightenedSpan(t, p, q);
    assert b.x - a.x == u.x * length && b.y - a.y == u.y * length;
    ScaleSquares(u, length);
  }

  function Along(t: Angles, u: Point, l: real): real {
    t.dev(Times(u.x, l), Times(u.y, l))
  }

  /** Every multiple of an octilinear direction counts as straight. */
  ghost predicate Octilinear(t: Angles) {
    forall x, y, l :: l > 0.0 ==> Along(t, t.dir(x, y), l) < 0.01
  }

  /** No node but i and the one moving with it is within 30 units of p. */
  ghost predicate Clear(pos: seq<Point>, i: nat, p: Point, movingWith: int) {
    forall j :: 0 <= j < |pos| && j != i && j != movingWith ==> Gap(p, pos[j]) >= 900.0
  }

  /** Two ends that are clear of all other nodes and as far from each other as before endanger no pair. */
  lemma TwoMovesKeep(pos: seq<Point>, a: nat, b: nat, na: Point, nb: Point)
    requires a < |pos| && b < |pos| && a != b
    requires Clear(pos, a, na, -1) && Clear(pos, b, nb, a) && Gap(na, nb) == Gap(pos[a], pos[b])
    ensures Kept(pos, pos[a := na][b := nb])
  {
    var after := pos[a := na][b := nb];
    forall j, k | 0 <= j < k < |pos|
      ensures Gap(after[j], after[k]) >= Capping(Gap(pos[j], pos[k]))
    {
      GapSymmetric(after[j], after[k]);
      GapSymmetric(pos[j], pos[k]);
      hide Gap;
    }
  }

  /** Edge e leaves i for another node than the one moving with it. */
  predicate Leaves(e: Edge, i: nat, movingWith: int) {
    (e.0 == i || e.1 == i) && OtherEnd(e, i) != movingWith
  }

  function OtherEnd(e: Edge, i: nat): nat {
    if e.1 == i then e.0 else e.1
  }

  ghost predicate Straight(t: Angles, p: Point, q: Point) {
    Deviation(t, p, q) < 0.01
  }

  /** Moving i to p bends no straight edge of i, other than the one to the node moving with it. */
  ghost predicate BendsNone(t: Angles, pos: seq<Point>, edges: seq<Edge>, i: nat, p: Point, movingWith: int)
    requires i < |pos| && forall e :: e in edges ==> e.0 < |pos| && e.1 < |pos|
  {
    forall e :: e in edges && Leaves(e, i, movingWith) ==> StaysStraight(t, pos[i], p, pos[OtherEnd(e, i)])
  }

  /** If the line to q is straight from `before`, it still is from `after`. */
  predicate StaysStraight(t: Angles, before: Point, after: Point, q: Point) {
    Deviation(t, before, q) < 0.01 ==> Deviation(t, after, q) <= 0.01
  }

  // ----- the layout

  predicate InCanvas(p: Point) {
    40.0 <= p.x <= CANVAS_W - 40.0 && 40.0 <= p.y <= CANVAS_H - 40.0
  }

  function Moved(p: Point, move: Point): Point {
    Point(p.x + move.x, p.y + move.y)
  }

  /**
  From `before` to `after` node i took the best of its candidate moves: nothing else moved, it moved only into the
  canvas and to a cost lower by more than 1e-9, and no candidate inside the canvas is lower still by more than that.
  */
  ghost predicate NodeOptimized(before: seq<Point>, after: seq<Point>, i: nat, moves: seq<Point>,
                                cost: (seq<Point>, nat) -> real) {
    && OnlyMoves(before, after, i)
    && (after != before ==> InCanvas(after[i]) && cost(after, i) < cost(before, i) - 0.000000001)
    && (after[i] == before[i] || exists m :: m in moves && after[i] == Moved(before[i], m))
    && (forall m :: m in moves && InCanvas(Moved(before[i], m))
          ==> cost(before[i := Moved(before[i], m)], i) >= cost(after, i) - 0.000000001)
  }

  /** The first n nodes of an order were optimised in turn, for a total gain. */
  ghost predicate Swept(a: seq<Point>, b: seq<Point>, order: seq<nat>, n: nat, s: nat,
                        moves: (nat, seq<Point>, nat) -> seq<Point>, cost: nat -> (seq<Point>, nat) -> real, gain: real)
    requires n <= |order|
    decreases n
  {
    if n == 0 then a == b && gain == 0.0
    else
      var i := order[n - 1];
      exists m :: NodeOptimized(m, b, i, moves(s, m, i), cost(s))
                  && Swept(a, m, order, n - 1, s, moves, cost, gain - (cost(s)(m, i) - cost(s)(b, i)))
  }

  /** The first sweeps were carried out in turn, each over its whole order. */
  ghost predicate Optimized(a: seq<Point>, b: seq<Point>, orders: seq<seq<nat>>, sweeps: nat,
                            moves: (nat, seq<Point>, nat) -> seq<Point>, cost: nat -> (seq<Point>, nat) -> real)
    requires sweeps <= |orders|
    decreases sweeps
  {
    if sweeps == 0 then a == b
    else
      var s := sweeps - 1;
      exists m, gain ::
        Optimized(a, m, orders, s, moves, cost) && Swept(m, b, orders[s], |orders[s]|, s, moves, cost, gain)
  }

  /** The last of them gained less than 0.05. */
  ghost predicate EndedQuietly(a: seq<Point>, b: seq<Point>, orders: seq<seq<nat>>, s: nat,
                               moves: (nat, seq<Point>, nat) -> seq<Point>, cost: nat -> (seq<Point>, nat) -> real)
    requires s < |orders|
  {
    exists m, gain ::
      && Optimized(a, m, orders, s, moves, cost) && Swept(m, b, orders[s], |orders[s]|, s, moves, cost, gain)
      && gain < 0.05
  }

  lemma SweptNot(a: seq<Point>, order: seq<nat>, s: nat, moves: (nat, seq<Point>, nat) -> seq<Point>,
                 cost: nat -> (seq<Point>, nat) -> real)
    ensures Swept(a, a, order, 0, s, moves, cost, 0.0)
  {
  }

  lemma SweptNext(a: seq<Point>, m: seq<Point>, b: seq<Point>, order: seq<nat>, n: nat, s: nat,
                  moves: (nat, seq<Point>, nat) -> seq<Point>, cost: nat -> (seq<Point>, nat) -> real,
                  before: real, gained: real)
    requires n < |order| && Swept(a, m, order, n, s, moves, cost, before)
    requires NodeOptimized(m, b, order[n], moves(s, m, order[n]), cost(s))
    requires gained == cost(s)(m, order[n]) - cost(s)(b, order[n])
    ensures Swept(a, b, order, n + 1, s, moves, cost, before + gained)
  {
    hide NodeOptimized;
    assert before + gained - gained == before;
  }

  lemma OptimizedNot(a: seq<Point>, orders: seq<seq<nat>>, moves: (nat, seq<Point>, nat) -> seq<Point>,
                     cost: nat -> (seq<Point>, nat) -> real)
    ensures Optimized(a, a, orders, 0, moves, cost)
  {
  }

  lemma OptimizedNext(a: seq<Point>, m: seq<Point>, b: seq<Point>, orders: seq<seq<nat>>, s: nat,
                      moves: (nat, seq<Point>, nat) -> seq<Point>, cost: nat -> (seq<Point>, nat) -> real, gain: real)
    requires s < |orders| && Optimized(a, m, orders, s, moves, cost)
    requires Swept(m, b, orders[s], |orders[s]|, s, moves, cost, gain)
    ensures Optimized(a, b, orders, s + 1, moves, cost)
  {
    hide Swept;
  }

  ghost predicate OnlyMoves(before: seq<Point>, after: seq<Point>, i: nat) {
    |after| == |before| && i < |before| && after == before[i := after[i]]
  }

  class Layout {
    var pos: seq<Point>
    var grid: map<Cell, set<nat>>
    const edges: seq<Edge>
    var adjacent: seq<seq<Edge>>

    ghost predicate Valid()
      reads this
    {
      && Indexed(pos, grid)
      && |adjacent| == |pos|
      && (forall e :: e in edges ==> e.0 < |pos| && e.1 < |pos|)
      && (forall i: nat, e :: i < |pos| ==> (e in adjacent[i] <==> e in edges && (e.0 == i || e.1 == i)))
    }

    constructor (points: seq<Point>, edges: seq<Edge>)
      requires forall e :: e in edges ==> e.0 < |points| && e.1 < |points|
      ensures Valid() && pos == points && this.edges == edges
    {
      pos := points;
      this.edges := edges;
      grid := map[];
      adjacent := seq(|points|, _ => []);
      new;
      for n := 0 to |edges|
        invariant pos == points && this.edges == edges && |adjacent| == |points| && grid == map[]
        invariant forall i, e :: 0 <= i < |points| ==> (e in adjacent[i] <==> e in edges[..n] && (e.0 == i || e.1 == i))
      {
        var e := edges[n];
        adjacent := adjacent[e.0 := adjacent[e.0] + [e]];
        adjacent := adjacent[e.1 := adjacent[e.1] + [e]];
        assert edges[..n + 1] == edges[..n] + [e];
      }
      assert edges[..|edges|] == edges;
      for n := 0 to |points|
        invariant pos == points && this.edges == edges && |adjacent| == |points|
        invariant forall i, e :: 0 <= i < |points| ==> (e in adjacent[i] <==> e in edges && (e.0 == i || e.1 == i))
        invariant forall c, i: nat :: InCell(grid, c, i) <==> i < n && Key(points[i]) == c
      {
        grid := Put(grid, Key(points[n]), n);
      }
    }

    /** Moves one node and rehomes it in the grid when it changes cell. */
    method MoveTo(i: nat, p: Point)
      requires Valid() && i < |pos|
      modifies this`pos, this`grid
      ensures Valid() && pos == old(pos)[i := p]
    {
      var oldKey := Key(pos[i]);
      pos := pos[i := p];
      var newKey := Key(pos[i]);
      if newKey != oldKey {
        grid := Put(Drop(grid, oldKey, i), newKey, i);
      }
    }

    predicate Listable(j: nat, exclude: int, c: Cell, r: int)
      reads this
    {
      j < |pos| && j != exclude && InBlock(Key(pos[j]), c, r)
    }

    /** The nodes of the cells around p, each once, in any order within a cell. */
    method NearNodes(p: Point, exclude: int, radius: real) returns (out: seq<nat>)
      requires Valid()
      ensures Distinct(out) && forall k :: 0 <= k < |out| ==> out[k] < |pos|
      ensures forall j: nat :: j in out <==> j < |pos| && j != exclude && InBlock(Key(pos[j]), Key(p), Reach(radius))
      ensures forall j :: 0 <= j < |pos| && j != exclude && Gap(p, pos[j]) <= Square(radius) && radius >= 0.0 ==>
                j in out
    {
      var c, r := Key(p), Reach(radius);
      out := [];
      var gx := c.0 - r;
      while gx < c.0 + r + 1
        invariant gx >= c.0 - r && (r >= 0 ==> gx <= c.0 + r + 1)
        invariant Distinct(out)
        invariant forall j: nat :: Listable(j, exclude, c, r) && Key(pos[j]).0 < gx <==> j in out
      {
        var gy := c.1 - r;
        while gy < c.1 + r + 1
          invariant c.1 - r <= gy <= c.1 + r + 1
          invariant Distinct(out)
          invariant forall j: nat :: Listable(j, exclude, c, r) && Before(Key(pos[j]), (gx, gy)) <==> j in out
        {
          var more := Listed(At(grid, (gx, gy)), exclude);
          assert forall j: nat :: j in more <==> InCell(grid, (gx, gy), j) && j != exclude;
          DistinctAppend(out, more);
          out := out + more;
          gy := gy + 1;
        }
        gx := gx + 1;
      }
      assert forall k :: 0 <= k < |out| ==> out[k] in out;
      forall j | 0 <= j < |pos| && j != exclude && Gap(p, pos[j]) <= Square(radius) && radius >= 0.0
        ensures j in out
      {
        BlockCovers(p, pos[j], radius, radius);
      }
    }

    /** The elements of a cell but the excluded one. */
    static method Listed(cell: set<nat>, exclude: int) returns (out: seq<nat>)
      ensures Distinct(out) && forall j: nat :: j in out <==> j in cell && j != exclude
    {
      var todo := cell;
      out := [];
      while todo != {}
        invariant todo <= cell && Distinct(out)
        invariant forall j: nat :: j in out <==> j in cell && j !in todo && j != exclude
      {
        var j :| j in todo;
        todo := todo - {j};
        if j != exclude { out := out + [j]; }
      }
    }

    /** What one node adds. */
    method PushFrom(r: Repulsion, i: nat, j: nat) returns (pushed: real)
      requires Capped(r) && i < |pos| && j < |pos|
      ensures pushed == Push(r, pos, i, j)
    {
      var mi := if i in r.mult then r.mult[i] else 1.0;
      var mj := if j in r.mult then r.mult[j] else 1.0;
      var radius := r.distance * (if mi < mj then mj else mi);
      var d := r.t.hypot(pos[j].x - pos[i].x, pos[j].y - pos[i].y);
      RadiusBounds(r, i, j);
      assert radius == PairRadius(r, i, j);
      pushed := 0.0;
      if d < radius {
        var part := (radius - d) / radius;
        pushed := r.weight * (part * part);
      }
    }

    /** Repulsion summed over the block; where the block suffices, that is the sum over all other nodes. */
    method RepulsionOf(r: Repulsion, i: nat) returns (c: real)
      requires Valid() && Capped(r) && i < |pos|
      ensures c == PushOf(r, pos, i, Nearby(r, pos, i), |pos|)
      ensures BlockSuffices(r.distance) ==> c == PushOf(r, pos, i, Others(pos, i), |pos|)
    {
      var near := NearNodes(pos[i], i, r.distance * SEARCHED);
      c := 0.0;
      assert Members(near[..0]) == {};
      NoPushes(r, pos, i, |pos|);
      for n := 0 to |near|
        invariant c == PushOf(r, pos, i, Members(near[..n]), |pos|)
      {
        var j := near[n];
        var pushed := PushFrom(r, i, j);
        c := c + pushed;
        PushOfAdd(r, pos, i, Members(near[..n]), j, |pos|);
        assert Members(near[..n + 1]) == Members(near[..n]) + {j};
      }
      assert near[..|near|] == near;
      assert Members(near) == Nearby(r, pos, i);
      if BlockSuffices(r.distance) {
        forall j | 0 <= j < |pos| && j in Others(pos, i) && j !in Members(near)
          ensures Push(r, pos, i, j) == 0.0
        {
          FarPushesNothing(r, pos, i, j);
        }
        PushOfSame(r, pos, i, Members(near), Others(pos, i), |pos|);
      }
    }

    /**
    Tries every candidate move of a node, restoring it each time, and keeps the best. All positions but its own, and
    the whole grid, are as if nothing had been tried; it moves only to a cost strictly lower by more than 1e-9, and no
    candidate inside the canvas is lower still by more than that.
    */
    method OptimizeNode(i: nat, moves: seq<Point>, cost: (seq<Point>, nat) -> real) returns (gained: real)
      requires Valid() && i < |pos|
      modifies this`pos, this`grid
      ensures Valid() && NodeOptimized(old(pos), pos, i, moves, cost) && gained == cost(old(pos), i) - cost(pos, i)
    {
      ghost var start := pos;
      var base := cost(pos, i);
      var best, bestAt: Option<Point> := 0.0, None;
      var p0 := pos[i];
      for n := 0 to |moves|
        invariant Valid() && pos == start
        invariant bestAt.None? ==> best == 0.0
        invariant bestAt.Some? ==>
                    InCanvas(bestAt.value) && base + best == cost(start[i := bestAt.value], i) && best < -0.000000001
        invariant bestAt.Some? ==> exists m :: m in moves && bestAt.value == Moved(p0, m)
        invariant forall k :: 0 <= k < n && InCanvas(Moved(p0, moves[k]))
                    ==> cost(start[i := Moved(p0, moves[k])], i) >= base + best - 0.000000001
      {
        var p := Point(p0.x + moves[n].x, p0.y + moves[n].y);
        if !(40.0 <= p.x <= 2360.0 && 40.0 <= p.y <= 2760.0) { continue; }
        MoveTo(i, p);
        var c := cost(pos, i);
        MoveTo(i, p0);
        assert pos == start;
        if c < base + best - 0.000000001 {
          best, bestAt := c - base, Some(p);
          assert moves[n] in moves;
        }
      }
      if bestAt.Some? {
        MoveTo(i, bestAt.value);
      }
      gained := -best;
      assert start[i := start[i]] == start;
    }

    /**
    The sweeps of the optimiser: in each, the nodes of a given order are optimised one after the other under that
    sweep's cost and candidate moves; a quiet sweep past the middle ends them.
    */
    method Optimize(orders: seq<seq<nat>>, moves: (nat, seq<Point>, nat) -> seq<Point>,
                    cost: nat -> (seq<Point>, nat) -> real)
        returns (sweeps: nat)
      requires Valid() && forall s, i :: 0 <= s < |orders| && i in orders[s] ==> i < |pos|
      modifies this`pos, this`grid
      ensures Valid() && |pos| == |old(pos)| && sweeps <= |orders|
      ensures Optimized(old(pos), pos, orders, sweeps, moves, cost)
      ensures sweeps < |orders| ==>
                sweeps - 1 > |orders| / 2 && EndedQuietly(old(pos), pos, orders, sweeps - 1, moves, cost)
      ensures forall i :: 0 <= i < |pos| && pos[i] != old(pos)[i] ==>
                InCanvas(pos[i]) && exists s :: 0 <= s < |orders| && i in orders[s]
    {
      hide Swept, Optimized, Indexed;
      ghost var start := pos;
      sweeps := 0;
      OptimizedNot(pos, orders, moves, cost);
      while sweeps < |orders|
        invariant Valid() && |pos| == |start| && sweeps <= |orders|
        invariant Optimized(start, pos, orders, sweeps, moves, cost)
        invariant forall i :: 0 <= i < |pos| && pos[i] != start[i] ==>
                    InCanvas(pos[i]) && exists s :: 0 <= s < |orders| && i in orders[s]
      {
        var s := sweeps;
        ghost var before := pos;
        var improved := 0.0;
        SweptNot(pos, orders[s], s, moves, cost);
        for n := 0 to |orders[s]|
          invariant Valid() && |pos| == |start| && Swept(before, pos, orders[s], n, s, moves, cost, improved)
          invariant forall i :: 0 <= i < |pos| && pos[i] != start[i] ==>
                      InCanvas(pos[i]) && exists s :: 0 <= s < |orders| && i in orders[s]
        {
          var i := orders[s][n];
          assert i in orders[s];
          ghost var middle := pos;
          var gained := OptimizeNode(i, moves(s, pos, i), cost(s));
          SweptNext(before, middle, pos, orders[s], n, s, moves, cost, improved, gained);
          improved := improved + gained;
        }
        OptimizedNext(start, before, pos, orders, s, moves, cost, improved);
        sweeps := s + 1;
        if improved < 0.05 && s > |orders| / 2 { break; }
      }
    }

    /** Whether a node may be snapped to p. */
    method SnapOk(t: Angles, i: nat, p: Point, movingWith: Option<nat>) returns (ok: bool)
      requires Valid() && Sane(t) && i < |pos|
      ensures var w := if movingWith.Some? then movingWith.value else -1;
              ok <==> Clear(pos, i, p, w) && BendsNone(t, pos, edges, i, p, w)
    {
      hide Clear, BendsNone, Sane, Indexed;
      var clear := ClearOf(t, i, p, movingWith);
      if !clear { return false; }
      ok := BendsNoEdge(t, i, p, movingWith);
    }

    /** No node within the hard distance. */
    method ClearOf(t: Angles, i: nat, p: Point, movingWith: Option<nat>) returns (ok: bool)
      requires Valid() && Sane(t) && i < |pos|
      ensures ok <==> Clear(pos, i, p, if movingWith.Some? then movingWith.value else -1)
    {
      hide Gap, Indexed, Reach, InBlock, Key;
      ghost var w: int := if movingWith.Some? then movingWith.value else -1;
      var near := NearNodes(p, i, HARD_MIN_DIST + CELL);
      for n := 0 to |near|
        invariant forall k :: 0 <= k < n && near[k] != w ==> Gap(p, pos[near[k]]) >= 900.0
      {
        var j := near[n];
        if movingWith == Some(j) { continue; }
        CloserThan(t, p, pos[j]);
        if Distance(t, p, pos[j]) < HARD_MIN_DIST { return false; }
      }
      NearAreAll(pos, near, i, p, w);
      return true;
    }

    /** No straight edge of the node is bent. */
    method BendsNoEdge(t: Angles, i: nat, p: Point, movingWith: Option<nat>) returns (ok: bool)
      requires Valid() && i < |pos|
      ensures ok <==> BendsNone(t, pos, edges, i, p, if movingWith.Some? then movingWith.value else -1)
    {
      hide Indexed, Deviation;
      ghost var w: int := if movingWith.Some? then movingWith.value else -1;
      for n := 0 to |adjacent[i]|
        invariant forall k :: 0 <= k < n && Leaves(adjacent[i][k], i, w)
                    ==> StaysStraight(t, pos[i], p, pos[OtherEnd(adjacent[i][k], i)])
      {
        var e := adjacent[i][n];
        assert e in adjacent[i];
        var other := OtherEnd(e, i);
        if movingWith == Some(other) { continue; }
        if Deviation(t, pos[i], pos[other]) < 0.01 && Deviation(t, p, pos[other]) > 0.01 { return false; }
      }
      assert forall e :: e in edges && Leaves(e, i, w) ==> e in adjacent[i];
      return true;
    }

    /** Snaps one edge when both ends may move. */
    method SnapEdge(t: Angles, e: Edge, tolerance: real) returns (fired: bool)
      requires Valid() && Sane(t) && e in edges
      modifies this`pos, this`grid
      ensures Valid() && |pos| == |old(pos)|
      ensures fired <==> Snappable(t, old(pos), edges, e, tolerance)
      ensures !fired ==> pos == old(pos)
      ensures fired ==>
                var (na, nb) := Straightened(t, old(pos)[e.0], old(pos)[e.1]);
                e.0 != e.1 && pos == old(pos)[e.0 := na][e.1 := nb]
      ensures Kept(old(pos), pos) && Total(pos) == Total(old(pos))
      ensures KeepsStraight(t, old(pos), pos, edges)
      ensures fired && Octilinear(t) ==> Straight(t, pos[e.0], pos[e.1])
    {
      hide Gap, Straightened, Indexed, Kept, Total, Deviation, BendsNone, Clear, Sane, Octilinear;
      ghost var start := pos;
      var (a, b) := e;
      var pa, pb := pos[a], pos[b];
      var dev := Deviation(t, pa, pb);
      assert dev == t.dev(pb.x - pa.x, pb.y - pa.y) by { DeviationIs(t, pa, pb); }
      NothingSnapped(t, pos, edges);
      if dev < 0.01 || dev > tolerance { return false; }
      var (na, nb) := Straightened(t, pa, pb);
      var first := SnapOk(t, a, na, None);
      if !first { return false; }
      var second := SnapOk(t, b, nb, Some(a));
      if !second { return false; }
      MoveTo(a, na);
      MoveTo(b, nb);
      Snapped(t, start, edges, e);
      return true;
    }

    /** Up to three rounds over the edges, until one changes nothing. */
    method Snap(t: Angles, order: seq<Edge>, tolerance: real) returns (snapped: nat, rounds: nat)
      requires Valid() && Sane(t) && forall e :: e in order ==> e in edges
      modifies this`pos, this`grid
      ensures Valid() && Kept(old(pos), pos) && Total(pos) == Total(old(pos))
      ensures 1 <= rounds <= 3 && (rounds < 3 ==> NoneSnappable(t, pos, edges, order, tolerance))
      ensures snapped == 0 <==> NoneSnappable(t, old(pos), edges, order, tolerance)
      ensures snapped == 0 ==> pos == old(pos)
      ensures forall i :: 0 <= i < |pos| && pos[i] != old(pos)[i] ==> Touched(order, i)
    {
      hide Gap, Indexed, Kept, Total, Sane, Snappable;
      ghost var start := pos;
      snapped, rounds := 0, 0;
      KeptReflexive(pos);
      var changed := true;
      while changed && rounds < 3
        invariant Valid() && Kept(start, pos) && |pos| == |start| && Total(pos) == Total(start)
        invariant rounds <= 3 && (rounds == 0 ==> changed && snapped == 0)
        invariant !changed ==> NoneSnappable(t, pos, edges, order, tolerance)
        invariant snapped == 0 ==> pos == start
        invariant rounds > 0 ==> (snapped == 0 <==> NoneSnappable(t, start, edges, order, tolerance))
        invariant forall i :: 0 <= i < |pos| && pos[i] != start[i] ==> Touched(order, i)
        decreases 3 - rounds
      {
        changed := false;
        ghost var first := pos;
        for n := 0 to |order|
          invariant Valid() && Kept(start, pos) && |pos| == |start| && Total(pos) == Total(start)
          invariant !changed ==> pos == first && NoneSnappable(t, pos, edges, order[..n], tolerance)
          invariant changed ==> snapped > 0
          invariant snapped == 0 ==> pos == start
          invariant rounds == 0 ==> (snapped == 0 <==> NoneSnappable(t, start, edges, order[..n], tolerance))
          invariant rounds > 0 ==> (snapped == 0 ==> NoneSnappable(t, start, edges, order, tolerance))
          invariant rounds > 0 && NoneSnappable(t, start, edges, order, tolerance) ==> snapped == 0
          invariant forall i :: 0 <= i < |pos| && pos[i] != start[i] ==> Touched(order, i)
        {
          ghost var before := pos;
          assert order[n] in order && order[..n + 1] == order[..n] + [order[n]];
          var fired := SnapEdge(t, order[n], tolerance);
          KeptTransitive(start, before, pos);
          if fired {
            snapped := snapped + 1;
            changed := true;
          }
        }
        assert order[..|order|] == order;
        rounds := rounds + 1;
      }
    }
  }

  /** The edge deviates within the tolerance, and both straightened ends may take their places, one with the other. */
  ghost predicate Snappable(t: Angles, pos: seq<Point>, edges: seq<Edge>, e: Edge, tolerance: real)
    requires e in edges && forall x :: x in edges ==> x.0 < |pos| && x.1 < |pos|
  {
    var p, q := pos[e.0], pos[e.1];
    var (na, nb) := Straightened(t, p, q);
    && 0.01 <= t.dev(q.x - p.x, q.y - p.y) <= tolerance
    && Clear(pos, e.0, na, -1) && BendsNone(t, pos, edges, e.0, na, -1)
    && Clear(pos, e.1, nb, e.0) && BendsNone(t, pos, edges, e.1, nb, e.0)
  }

  ghost predicate NoneSnappable(t: Angles, pos: seq<Point>, edges: seq<Edge>, order: seq<Edge>, tolerance: real)
    requires forall x :: x in edges ==> x.0 < |pos| && x.1 < |pos|
    requires forall e :: e in order ==> e in edges
  {
    forall e :: e in order ==> !Snappable(t, pos, edges, e, tolerance)
  }

  ghost predicate Touched(order: seq<Edge>, i: nat) {
    exists e :: e in order && (e.0 == i || e.1 == i)
  }

  lemma KeptReflexive(pos: seq<Point>)
    ensures Kept(pos, pos)
  {
  }

  lemma NothingSnapped(t: Angles, pos: seq<Point>, edges: seq<Edge>)
    requires forall e :: e in edges ==> e.0 < |pos| && e.1 < |pos|
    ensures Kept(pos, pos) && KeepsStraight(t, pos, pos, edges)
  {
  }

  lemma DeviationIs(t: Angles, p: Point, q: Point)
    ensures Deviation(t, p, q) == t.dev(q.x - p.x, q.y - p.y)
  {
  }

  lemma DeviationSymmetric(t: Angles, p: Point, q: Point)
    requires Sane(t)
    ensures Deviation(t, p, q) == Deviation(t, q, p) && Deviation(t, p, p) == 0.0
  {
    assert t.dev(-(q.x - p.x), -(q.y - p.y)) == t.dev(q.x - p.x, q.y - p.y);
  }

  /** Every edge that was straight still is, to within the closed bound of one hundredth of a degree. */
  ghost predicate KeepsStraight(t: Angles, before: seq<Point>, after: seq<Point>, edges: seq<Edge>)
    requires |before| == |after| && forall e :: e in edges ==> e.0 < |before| && e.1 < |before|
  {
    forall e :: e in edges && Straight(t, before[e.0], before[e.1]) ==> Deviation(t, after[e.0], after[e.1]) <= 0.01
  }

  lemma StraightKept(t: Angles, pos: seq<Point>, edges: seq<Edge>, a: nat, b: nat, na: Point, nb: Point, x: Edge)
    requires Sane(t) && a < |pos| && b < |pos| && a != b && x in edges
    requires forall e :: e in edges ==> e.0 < |pos| && e.1 < |pos|
    requires !Straight(t, pos[a], pos[b]) && Straight(t, pos[x.0], pos[x.1])
    requires BendsNone(t, pos, edges, a, na, -1) && BendsNone(t, pos, edges, b, nb, a)
    ensures var after := pos[a := na][b := nb]; Deviation(t, after[x.0], after[x.1]) <= 0.01
  {
    var after := pos[a := na][b := nb];
    DeviationSymmetric(t, pos[x.0], pos[x.1]);
    DeviationSymmetric(t, after[x.0], after[x.1]);
    hide Sane, Deviation;
  }

  /** Straightening an edge that is not straight yet makes it so. */
  lemma StraightenedIsStraight(t: Angles, p: Point, q: Point)
    requires Sane(t) && Octilinear(t) && !Straight(t, p, q)
    ensures var (a, b) := Straightened(t, p, q); Straight(t, a, b)
  {
    StraightenedSpan(t, p, q);
    if Distance(t, p, q) == 0.0 {
      ZeroLength(t, q.x - p.x, q.y - p.y);
    }
    assert Distance(t, p, q) > 0.0;
    assert Along(t, t.dir(q.x - p.x, q.y - p.y), Distance(t, p, q)) < 0.01;
    hide Straightened, Sane, Octilinear, Times;
    var (a, b) := Straightened(t, p, q);
    assert Deviation(t, a, b) == Along(t, t.dir(q.x - p.x, q.y - p.y), Distance(t, p, q));
  }

  lemma ZeroLength(t: Angles, x: real, y: real)
    requires Sane(t) && t.hypot(x, y) == 0.0
    ensures x == 0.0 && y == 0.0
  {
    SquareNonNegative(x);
    SquareNonNegative(y);
    assert Square(0.0) == 0.0 == Square(x) + Square(y);
    SquareOrder(x, 0.0);
    SquareOrder(y, 0.0);
  }

  lemma Snapped(t: Angles, pos: seq<Point>, edges: seq<Edge>, e: Edge)
    requires Sane(t) && e in edges && forall x :: x in edges ==> x.0 < |pos| && x.1 < |pos|
    requires !Straight(t, pos[e.0], pos[e.1])
    requires var (na, nb) := Straightened(t, pos[e.0], pos[e.1]);
             && Clear(pos, e.0, na, -1) && Clear(pos, e.1, nb, e.0)
             && BendsNone(t, pos, edges, e.0, na, -1) && BendsNone(t, pos, edges, e.1, nb, e.0)
    ensures var (na, nb) := Straightened(t, pos[e.0], pos[e.1]);
            var after := pos[e.0 := na][e.1 := nb];
            && e.0 != e.1 && Kept(pos, after) && Total(after) == Total(pos) && KeepsStraight(t, pos, after, edges)
            && (Octilinear(t) ==> Straight(t, after[e.0], after[e.1]))
  {
    var (a, b) := e;
    var (na, nb) := Straightened(t, pos[a], pos[b]);
    var after := pos[a := na][b := nb];
    hide Gap, Straightened, Kept, Total, Deviation, BendsNone, Clear, Sane, Octilinear;
    assert a != b by { DeviationSymmetric(t, pos[a], pos[a]); }
    StraightenedKeeps(t, pos[a], pos[b]);
    TwoMovesKeep(pos, a, b, na, nb);
    TotalOfUpdate(pos, a, na);
    TotalOfUpdate(pos[a := na], b, nb);
    forall x | x in edges && Straight(t, pos[x.0], pos[x.1])
      ensures Deviation(t, after[x.0], after[x.1]) <= 0.01
    {
      StraightKept(t, pos, edges, a, b, na, nb, x);
    }
    if Octilinear(t) { StraightenedIsStraight(t, pos[a], pos[b]); }
  }

  lemma {:induction false} NoPushes(r: Repulsion, pos: seq<Point>, i: nat, n: nat)
    requires i < |pos| && n <= |pos|
    ensures PushOf(r, pos, i, {}, n) == 0.0
  {
    if n > 0 { NoPushes(r, pos, i, n - 1); }
  }

  lemma CloserThan(t: Angles, p: Point, q: Point)
    requires Sane(t)
    ensures Distance(t, p, q) < HARD_MIN_DIST <==> Gap(p, q) < 900.0
  {
    var d := Distance(t, p, q);
    assert Square(d) == Gap(p, q);
    assert Square(30.0) == 900.0;
    if d < HARD_MIN_DIST { SquareStrict(d, 30.0); } else { SquareMono(30.0, d); }
  }

  /** A point clear of the nodes in its block is clear of all. */
  lemma NearAreAll(pos: seq<Point>, near: seq<nat>, i: nat, p: Point, w: int)
    requires var reach := Reach(HARD_MIN_DIST + CELL);
             forall j: nat :: j in near <==> j < |pos| && j != i && InBlock(Key(pos[j]), Key(p), reach)
    requires forall k :: 0 <= k < |near| && near[k] < |pos| && near[k] != w ==> Gap(p, pos[near[k]]) >= 900.0
    ensures Clear(pos, i, p, w)
  {
    hide Gap, Reach, InBlock, Key;
    forall j: nat | j < |pos| && j != i && j != w
      ensures Gap(p, pos[j]) >= 900.0
    {
      if InBlock(Key(pos[j]), Key(p), Reach(HARD_MIN_DIST + CELL)) {
        assert j in near;
      } else {
        CoveredBy30(p, pos[j]);
      }
    }
  }

  lemma CoveredBy30(p: Point, q: Point)
    ensures Gap(p, q) < 900.0 ==> InBlock(Key(q), Key(p), Reach(HARD_MIN_DIST + CELL))
  {
    if Gap(p, q) < 900.0 {
      BlockCovers(p, q, HARD_MIN_DIST + CELL, 30.0);
    }
  }
}
