/** Timetable interpolation: where a trip's train would be at a moment of the service day. */
module Interpolation {
  import opened Common
  import opened Geometry
  import opened Trips

  /** Where on the trip a moment falls: standing at a stop, or on the way to the next one. */
  datatype Slot = AtStop(i: nat) | Between(i: nat)

  /** First intermediate stop from i on whose dwell covers the moment. */
  function DwellFrom(stops: seq<Stop>, elapsed: int, i: nat): Option<Slot>
    decreases |stops| - i
  {
    if i + 1 >= |stops| then None
    else if stops[i].arrival <= elapsed <= stops[i].departure then Some(AtStop(i))
    else DwellFrom(stops, elapsed, i + 1)
  }

  /** First hop from i on whose travel time covers the moment. */
  function TravelFrom(stops: seq<Stop>, elapsed: int, i: nat): Option<Slot>
    decreases |stops| - i
  {
    if i + 1 >= |stops| then None
    else if stops[i].departure <= elapsed <= stops[i + 1].arrival then Some(Between(i))
    else TravelFrom(stops, elapsed, i + 1)
  }

  function SlotAt(stops: seq<Stop>, elapsed: int): Option<Slot>
    requires stops != []
  {
    if elapsed <= stops[0].departure then Some(AtStop(0))
    else if elapsed >= stops[|stops| - 1].arrival then Some(AtStop(|stops| - 1))
    else if DwellFrom(stops, elapsed, 1).Some? then DwellFrom(stops, elapsed, 1)
    else TravelFrom(stops, elapsed, 0)
  }

  /** Share of a hop covered, as the code computes and clamps it. */
  function Fraction(elapsed: int, from: int, to: int): (f: real)
    ensures 0.0 <= f <= 1.0
  {
    if to - from <= 0 then 0.0 else Clamp((elapsed - from) as real / (to - from) as real, 0.0, 1.0)
  }

  /** The distance along the shape a slot denotes. */
  function DistanceAt(stops: seq<Stop>, slot: Slot, elapsed: int): real
    requires match slot case AtStop(i) => i < |stops| case Between(i) => i + 1 < |stops|
  {
    match slot
    case AtStop(i) => stops[i].distance
    case Between(i) => OnTheWay(stops[i], stops[i + 1], elapsed)
  }

  function OnTheWay(from: Stop, to: Stop, elapsed: int): real {
    from.distance + Part(Fraction(elapsed, from.departure, to.arrival), to.distance - from.distance)
  }

  function Part(fraction: real, whole: real): real { fraction * whole }

  /** On the way, distance is covered in proportion to time; on a hop that takes no time, none is. */
  lemma Proportional(from: Stop, to: Stop, elapsed: int)
    requires from.departure <= elapsed <= to.arrival
    ensures (OnTheWay(from, to, elapsed) - from.distance) * (to.arrival - from.departure) as real
         == (elapsed - from.departure) as real * (to.distance - from.distance)
    ensures from.departure == to.arrival ==> OnTheWay(from, to, elapsed) == from.distance
  {
    if from.departure < to.arrival {
      var x, span := (elapsed - from.departure) as real, (to.arrival - from.departure) as real;
      Share(x, span, to.distance - from.distance);
      assert Fraction(elapsed, from.departure, to.arrival) == x / span;
    }
  }

  lemma Share(x: real, span: real, whole: real)
    requires 0.0 <= x <= span && span > 0.0
    ensures 0.0 <= x / span <= 1.0 && Part(x / span, whole) * span == x * whole
  {
    var f := x / span;
    assert f * span == x;
    assert Part(f, whole) * span == (f * span) * whole;
  }

  lemma {:induction false} SlotInRange(stops: seq<Stop>, elapsed: int, i: nat)
    ensures DwellFrom(stops, elapsed, i).Some? ==>
              var s := DwellFrom(stops, elapsed, i).value;
              s.AtStop? && i <= s.i && s.i + 1 < |stops| && stops[s.i].arrival <= elapsed <= stops[s.i].departure
    ensures TravelFrom(stops, elapsed, i).Some? ==>
              var s := TravelFrom(stops, elapsed, i).value;
              s.Between? && i <= s.i && s.i + 1 < |stops| && stops[s.i].departure <= elapsed <= stops[s.i + 1].arrival
    decreases |stops| - i
  {
    if i + 1 < |stops| {
      SlotInRange(stops, elapsed, i + 1);
    }
  }

  /** A moment past departure i and before the last arrival is in some later dwell or hop: time has no gaps. */
  lemma {:induction false} NoGapFrom(stops: seq<Stop>, elapsed: int, i: nat)
    requires i + 1 < |stops| && stops[i].departure <= elapsed < stops[|stops| - 1].arrival
    ensures DwellFrom(stops, elapsed, i + 1).Some? || TravelFrom(stops, elapsed, i).Some?
    decreases |stops| - i
  {
    if elapsed > stops[i + 1].arrival {
      if elapsed > stops[i + 1].departure {
        NoGapFrom(stops, elapsed, i + 1);
      }
    }
  }

  /**
  No gaps: every moment has a slot, with one exact exception - a single-stop trip whose arrival is later than
  its departure, between the two.
  */
  lemma SlotMissingIff(stops: seq<Stop>, elapsed: int)
    requires stops != []
    ensures SlotAt(stops, elapsed).None? <==> |stops| == 1 && stops[0].departure < elapsed < stops[0].arrival
  {
    if |stops| > 1 && stops[0].departure < elapsed < stops[|stops| - 1].arrival {
      NoGapFrom(stops, elapsed, 0);
    }
  }

  /** The train stands exactly until the first departure, from the last arrival on, and in intermediate dwells. */
  lemma StandsIff(stops: seq<Stop>, elapsed: int)
    requires stops != [] && SlotAt(stops, elapsed).Some?
    ensures SlotAt(stops, elapsed).value.AtStop?
       <==> || elapsed <= stops[0].departure || elapsed >= stops[|stops| - 1].arrival
            || exists k :: 0 < k < |stops| - 1 && stops[k].arrival <= elapsed <= stops[k].departure
  {
    DwellIff(stops, elapsed, 1);
    SlotInRange(stops, elapsed, 0);
  }

  lemma {:induction false} DwellIff(stops: seq<Stop>, elapsed: int, i: nat)
    ensures DwellFrom(stops, elapsed, i).Some?
       <==> exists k :: i <= k < |stops| - 1 && stops[k].arrival <= elapsed <= stops[k].departure
    ensures DwellFrom(stops, elapsed, i).Some? ==> DwellFrom(stops, elapsed, i).value.AtStop?
    decreases |stops| - i
  {
    if i + 1 < |stops| {
      DwellIff(stops, elapsed, i + 1);
    }
  }

  /** The estimated position, or None when the trip cannot be placed. */
  method Interpolate(m: Metric, stops: seq<Stop>, shape: Option<Shape>, elapsed: int) returns (r: Option<Point>)
    requires m.Sane() && (shape.Some? ==> shape.value.Valid(m))
    ensures r.None? <==> stops == [] || shape.None? || SlotAt(stops, elapsed).None?
    ensures r.Some? ==>
              match SlotAt(stops, elapsed).value
              case AtStop(k) => k < |stops| && r.value == stops[k].at
              case Between(k) =>
                k + 1 < |stops| && shape.value.Total() >= 0.0
                && LiesOn(shape.value, Clamp(DistanceAt(stops, Between(k), elapsed), 0.0, shape.value.Total()), r.value)
  {
    hide LiesOn, Fraction, Shape.Valid, Metric.Sane, Clamp;
    if stops == [] || shape.None? {
      return None;
    }
    if elapsed <= stops[0].departure {
      return Some(stops[0].at);
    }
    if elapsed >= stops[|stops| - 1].arrival {
      return Some(stops[|stops| - 1].at);
    }
    for k := 1 to |stops|
      invariant DwellFrom(stops, elapsed, 1) == DwellFrom(stops, elapsed, k)
    {
      if k == |stops| - 1 {
        break;
      }
      if stops[k].arrival <= elapsed <= stops[k].departure {
        return Some(stops[k].at);
      }
    }
    for k := 0 to |stops| - 1
      invariant TravelFrom(stops, elapsed, 0) == TravelFrom(stops, elapsed, k)
      invariant DwellFrom(stops, elapsed, 1).None?
    {
      var from, to := stops[k], stops[k + 1];
      if from.departure <= elapsed <= to.arrival {
        var fraction := Fraction(elapsed, from.departure, to.arrival);
        var distance := from.distance + Part(fraction, to.distance - from.distance);
        var point := PointAt(m, shape.value, distance);
        return Some(point);
      }
    }
    return None;
  }

  // ----- monotonicity

  /** Times are ordered within and across stops. */
  ghost predicate Timely(stops: seq<Stop>) {
    && (forall i :: 0 <= i < |stops| ==> stops[i].arrival <= stops[i].departure)
    && (forall i, j :: 0 <= i < j < |stops| ==> stops[i].departure <= stops[j].arrival)
  }

  /** The stops a slot lies between. */
  function Low(s: Slot): nat { s.i }

  function High(s: Slot): nat { if s.AtStop? then s.i else s.i + 1 }

  /** The moment belongs to the slot; the first and last stops extend to all earlier and later moments. */
  ghost predicate Covers(stops: seq<Stop>, s: Slot, elapsed: int) {
    && High(s) < |stops|
    && (match s
        case AtStop(i) => (i > 0 ==> stops[i].arrival <= elapsed) && (i < |stops| - 1 ==> elapsed <= stops[i].departure)
        case Between(i) => stops[i].departure <= elapsed <= stops[i + 1].arrival)
  }

  lemma SlotCovers(stops: seq<Stop>, elapsed: int)
    requires stops != [] && SlotAt(stops, elapsed).Some?
    ensures Covers(stops, SlotAt(stops, elapsed).value, elapsed)
  {
    SlotInRange(stops, elapsed, 1);
    SlotInRange(stops, elapsed, 0);
  }

  lemma OnTheWayBetween(from: Stop, to: Stop, elapsed: int)
    requires from.distance <= to.distance
    ensures from.distance <= OnTheWay(from, to, elapsed) <= to.distance
  {
    hide Part, Fraction;
    PartBounds(Fraction(elapsed, from.departure, to.arrival), to.distance - from.distance);
  }

  lemma OnTheWayGrows(from: Stop, to: Stop, a: int, b: int)
    requires from.distance <= to.distance && a <= b
    ensures OnTheWay(from, to, a) <= OnTheWay(from, to, b)
  {
    hide Part, Fraction;
    FractionGrows(a, b, from.departure, to.arrival);
    PartGrows(Fraction(a, from.departure, to.arrival), Fraction(b, from.departure, to.arrival),
              to.distance - from.distance);
  }

  lemma DistanceBetween(stops: seq<Stop>, s: Slot, elapsed: int)
    requires Ordered(stops) && High(s) < |stops|
    ensures stops[Low(s)].distance <= DistanceAt(stops, s, elapsed) <= stops[High(s)].distance
  {
    hide OnTheWay;
    if s.Between? {
      OnTheWayBetween(stops[s.i], stops[s.i + 1], elapsed);
    }
  }

  lemma FractionGrows(a: int, b: int, from: int, to: int)
    requires a <= b
    ensures Fraction(a, from, to) <= Fraction(b, from, to)
  {
    if to - from > 0 {
      var span := (to - from) as real;
      var x, y := (a - from) as real, (b - from) as real;
      assert (y - x) / span >= 0.0 && y / span == x / span + (y - x) / span;
    }
  }

  /** Later moments lie in later slots, unless both fall on the same hop. */
  lemma SlotsInOrder(stops: seq<Stop>, s: Slot, t: Slot, a: int, b: int)
    requires Timely(stops) && Covers(stops, s, a) && Covers(stops, t, b) && a < b
    ensures High(s) <= Low(t) || s == t
  {
  }

  /** The denoted distance never decreases as time passes. */
  lemma DistanceMonotone(stops: seq<Stop>, a: int, b: int)
    requires stops != [] && Timely(stops) && Ordered(stops) && a <= b
    requires SlotAt(stops, a).Some? && SlotAt(stops, b).Some?
    ensures High(SlotAt(stops, a).value) < |stops| && High(SlotAt(stops, b).value) < |stops|
    ensures DistanceAt(stops, SlotAt(stops, a).value, a) <= DistanceAt(stops, SlotAt(stops, b).value, b)
  {
    var s, t := SlotAt(stops, a).value, SlotAt(stops, b).value;
    hide SlotAt, OnTheWay;
    SlotCovers(stops, a);
    SlotCovers(stops, b);
    if a < b {
      SlotsInOrder(stops, s, t, a, b);
      if s == t {
        if s.Between? {
          OnTheWayGrows(stops[s.i], stops[s.i + 1], a, b);
        }
      } else {
        DistanceBetween(stops, s, a);
        DistanceBetween(stops, t, b);
        assert stops[High(s)].distance <= stops[Low(t)].distance;
      }
    }
  }

  lemma PartBounds(f: real, whole: real)
    requires 0.0 <= f <= 1.0 && whole >= 0.0
    ensures 0.0 <= Part(f, whole) <= whole
  {
    PartOfLength(f, whole);
  }

  lemma PartGrows(x: real, y: real, whole: real)
    requires x <= y && whole >= 0.0
    ensures Part(x, whole) <= Part(y, whole)
  {
    assert (y - x) * whole >= 0.0;
  }
}
