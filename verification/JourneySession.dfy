/**
Tracked journeys: lifecycle transitions, the event log, and the worker's evaluation of live sessions.
Tables are maps and sequences; a transaction is one operation.
*/
module JourneySession {
  import opened Common

  type JourneyId = nat
  type StopId = string

  datatype Status = Active | Completed | Missed | Abandoned

  datatype Json = Ids(ids: seq<StopId>) | Flag(on: bool)

  type Payload = map<string, Json>

  datatype Journey = Journey(
    userId: string, origin: StopId, destination: StopId, vehicleId: Option<string>, status: Status,
    startedAt: real, endedAt: Option<real>, payload: Option<Payload>)
  {
    function Rows(key: string): seq<StopId> {
      if payload.Some? && key in payload.value && payload.value[key].Ids? then payload.value[key].ids else []
    }

    function Planned(): seq<StopId> { Rows("interchange_stop_ids") }

    function Notified(): seq<StopId> { Rows("notified_interchanges") }

    predicate DelayNotified() {
      payload.Some? && "delay_notified" in payload.value && payload.value["delay_notified"] == Flag(true)
    }

    /** `{**payload, key: value}`. */
    function With(key: string, value: Json): Journey {
      this.(payload := Some((if payload.Some? then payload.value else map[])[key := value]))
    }
  }

  datatype EventType = StartedEvent | SupersededEvent | ClosedEvent(status: Status)

  datatype Event = Event(journey: JourneyId, what: EventType)

  datatype Kind = JourneyCompleted | MissedStop | Interchange(stop: StopId) | Delay

  datatype Notice = Notice(journey: JourneyId, userId: string, kind: Kind)

  datatype World = World(journeys: map<JourneyId, Journey>, nextId: JourneyId, events: seq<Event>, notices: seq<Notice>)

  /** What the worker sees of a journey's train: stations by (stop, sequence), and the ETA's delay. */
  datatype Sighting = Sighting(
    current: Option<(StopId, int)>, next: Option<StopId>, tripStops: seq<(StopId, int)>, delay: Option<real>)

  datatype Config = Config(maxAge: real, delayNotify: real)

  datatype Outcome = WasAbandoned | WasCompleted | WasMissed | Reminded | Delayed

  // ----- transitions

  predicate ActiveOf(w: World, userId: string, j: JourneyId) {
    j in w.journeys && w.journeys[j].userId == userId && w.journeys[j].status.Active?
  }

  /** Ends an active journey owned by the user; None when there is no match. */
  function Finished(w: World, userId: string, j: JourneyId, status: Status, now: real): Option<World> {
    if !ActiveOf(w, userId, j) then None
    else Some(w.(journeys := w.journeys[j := w.journeys[j].(status := status, endedAt := Some(now))],
                 events := w.events + [Event(j, ClosedEvent(status))]))
  }

  function Superseded(w: World, j: JourneyId, now: real): World
    requires j in w.journeys
  {
    w.(journeys := w.journeys[j := w.journeys[j].(status := Abandoned, endedAt := Some(now))],
       events := w.events + [Event(j, SupersededEvent)])
  }

  function Added(w: World, journey: Journey): World {
    w.(journeys := w.journeys[w.nextId := journey], nextId := w.nextId + 1,
       events := w.events + [Event(w.nextId, StartedEvent)])
  }

  function Notify(w: World, j: JourneyId, kind: Kind): World
    requires j in w.journeys
  {
    w.(notices := w.notices + [Notice(j, w.journeys[j].userId, kind)])
  }

  function Close(w: World, j: JourneyId, status: Status, kind: Kind, now: real): World
    requires j in w.journeys
  {
    match Finished(w, w.journeys[j].userId, j, status, now)
    case None => w
    case Some(v) => Notify(v, j, kind)
  }

  /** Sequence of the destination on the trip: its first call there. */
  function SequenceOf(stops: seq<(StopId, int)>, stop: StopId): Option<int> {
    if stops == [] then None else if stops[0].0 == stop then Some(stops[0].1) else SequenceOf(stops[1..], stop)
  }

  predicate HasPassed(journey: Journey, s: Sighting, sequence: int) {
    var d := SequenceOf(s.tripStops, journey.destination);
    d.Some? && sequence > d.value
  }

  predicate ShouldRemind(journey: Journey, s: Sighting) {
    s.next.Some? && s.next.value in journey.Planned() && s.next.value !in journey.Notified()
  }

  predicate ShouldNotifyDelay(journey: Journey, s: Sighting, c: Config) {
    !journey.DelayNotified() && s.delay.Some? && s.delay.value >= c.delayNotify
  }

  /** One evaluation of one journey: at most one outcome, in priority order. */
  function Evaluated(w: World, c: Config, j: JourneyId, now: real, seen: Option<Sighting>): (World, Option<Outcome>)
    requires j in w.journeys
  {
    var journey := w.journeys[j];
    if now - journey.startedAt > c.maxAge then
      match Finished(w, journey.userId, j, Abandoned, now)
      case None => (w, None)
      case Some(v) => (v, Some(WasAbandoned))
    else if journey.vehicleId.None? || seen.None? || seen.value.current.None? then (w, None)
    else
      var s, current := seen.value, seen.value.current.value;
      if current.0 == journey.destination then
        (Close(w, j, Completed, JourneyCompleted, now), if journey.status.Active? then Some(WasCompleted) else None)
      else if HasPassed(journey, s, current.1) then
        (Close(w, j, Missed, MissedStop, now), if journey.status.Active? then Some(WasMissed) else None)
      else if ShouldRemind(journey, s) then
        var v := Notify(w, j, Interchange(s.next.value));
        var after := journey.With("notified_interchanges", Ids(journey.Notified() + [s.next.value]));
        (v.(journeys := v.journeys[j := after]), Some(Reminded))
      else if ShouldNotifyDelay(journey, s, c) then
        var v := Notify(w, j, Delay);
        (v.(journeys := v.journeys[j := journey.With("delay_notified", Flag(true))]), Some(Delayed))
      else (w, None)
  }

  datatype StartRequest = StartRequest(
    userId: string, origin: StopId, destination: StopId, vehicleId: Option<string>, interchanges: seq<StopId>)

  datatype StartError = SameStop | UnknownStop(stop: StopId)

  datatype StartResult = Begun(id: JourneyId) | Rejected(error: StartError)

  /** The first stop, of the origin, the destination and the interchanges, that does not exist. */
  function FirstUnknown(asked: seq<StopId>, stops: set<StopId>): (r: Option<StopId>)
    ensures r.None? <==> forall s :: s in asked ==> s in stops
    ensures r.Some? ==> exists i :: 0 <= i < |asked| && asked[i] == r.value && r.value !in stops
                                    && forall k :: 0 <= k < i ==> asked[k] in stops
  {
    if asked == [] then None else if asked[0] !in stops then Some(asked[0]) else FirstUnknown(asked[1..], stops)
  }

  function Asked(r: StartRequest): seq<StopId> {
    [r.origin, r.destination] + r.interchanges
  }

  predicate Valid(r: StartRequest, stops: set<StopId>) {
    && r.origin != r.destination && r.origin in stops && r.destination in stops
    && forall s :: s in r.interchanges ==> s in stops
  }

  function NewJourney(r: StartRequest, now: real): Journey {
    Journey(r.userId, r.origin, r.destination, r.vehicleId, Active, now, None,
            if r.interchanges == [] then None else Some(map["interchange_stop_ids" := Ids(r.interchanges)]))
  }

  // ----- the tables as an object

  class Store {
    const stops: set<StopId>
    const config: Config
    var journeys: map<JourneyId, Journey>
    var nextId: JourneyId
    var events: seq<Event>
    var notices: seq<Notice>

    ghost function View(): World
      reads this
    {
      World(journeys, nextId, events, notices)
    }

    constructor (stops: set<StopId>, config: Config)
      ensures this.stops == stops && this.config == config && View() == World(map[], 0, [], [])
    {
      this.stops, this.config := stops, config;
      journeys, nextId, events, notices := map[], 0, [], [];
    }

    /** `active_for_user`. */
    method ActiveForUser(userId: string) returns (r: Option<JourneyId>)
      ensures r.Some? ==> ActiveOf(View(), userId, r.value)
      ensures r.None? ==> forall j :: !ActiveOf(View(), userId, j)
    {
      var active := set j | j in journeys && journeys[j].userId == userId && journeys[j].status.Active?;
      if active == {} {
        assert forall j :: ActiveOf(View(), userId, j) ==> j in active;
        return None;
      }
      var j :| j in active;
      return Some(j);
    }

    /** What is wrong with a request, if anything: equal stations, or the first stop that does not exist. */
    method FirstError(r: StartRequest) returns (error: Option<StartError>)
      ensures error.None? <==> Valid(r, stops)
      ensures error.Some? ==>
                match error.value
                case SameStop => r.origin == r.destination
                case UnknownStop(s) =>
                  && r.origin != r.destination
                  && FirstUnknown([r.origin, r.destination] + r.interchanges, stops) == Some(s)
    {
      if r.origin == r.destination {
        return Some(SameStop);
      }
      var asked := Asked(r);
      for n := 0 to |asked|
        invariant FirstUnknown(asked, stops) == FirstUnknown(asked[n..], stops)
      {
        if asked[n] !in stops {
          return Some(UnknownStop(asked[n]));
        }
        assert asked[n..][1..] == asked[n + 1..];
      }
      return None;
    }

    /** Starts a journey, superseding any active one. */
    method Start(r: StartRequest, now: real) returns (result: StartResult)
      modifies this`journeys, this`nextId, this`events
      ensures result.Begun? <==> Valid(r, stops)
      ensures result.Begun? ==> result.id == old(nextId) && StartedFrom(old(View()), View(), r, now)
      ensures result.Begun? ==>
                && result.id in journeys
                && var journey := journeys[result.id];
                && journey.userId == r.userId && journey.origin == r.origin && journey.destination == r.destination
                && journey.vehicleId == r.vehicleId && journey.status == Active
                && journey.startedAt == now && journey.endedAt == None
                && journey.Planned() == r.interchanges && journey.Notified() == [] && !journey.DelayNotified()
      ensures result.Begun? && OneActive(old(View())) ==>
                forall j :: ActiveOf(old(View()), r.userId, j) && j != result.id ==>
                  j in journeys && journeys[j] == old(journeys)[j].(status := Abandoned, endedAt := Some(now))
      ensures result.Rejected? ==> View() == old(View())
      ensures result.Rejected? ==>
                match result.error
                case SameStop => r.origin == r.destination
                case UnknownStop(s) =>
                  && r.origin != r.destination
                  && FirstUnknown([r.origin, r.destination] + r.interchanges, stops) == Some(s)
    {
      var error := FirstError(r);
      if error.Some? {
        return Rejected(error.value);
      }
      hide FirstUnknown, Valid, Journey.Notified, Journey.Planned, Journey.DelayNotified;
      var existing := ActiveForUser(r.userId);
      ghost var before := View();
      if existing.Some? {
        journeys := journeys[existing.value := journeys[existing.value].(status := Abandoned, endedAt := Some(now))];
        events := events + [Event(existing.value, SupersededEvent)];
      }
      result := Begun(nextId);
      journeys := journeys[nextId := NewJourney(r, now)];
      events := events + [Event(nextId, StartedEvent)];
      nextId := nextId + 1;
      FreshNotified(r, now);
      assert existing.Some? ==> ActiveOf(before, r.userId, existing.value)
                                && View() == Added(Superseded(before, existing.value, now), NewJourney(r, now));
    }

    /** `complete`, `mark_missed` and `abandon` end here. */
    method Finish(userId: string, j: JourneyId, status: Status, now: real) returns (ok: bool)
      modifies this`journeys, this`events
      ensures ok <==> j in old(journeys) && old(journeys)[j].userId == userId && old(journeys)[j].status == Active
      ensures ok ==> journeys == old(journeys)[j := old(journeys)[j].(status := status, endedAt := Some(now))]
      ensures ok <==> Finished(old(View()), userId, j, status, now).Some?
      ensures View() == if ok then Finished(old(View()), userId, j, status, now).value else old(View())
    {
      if j !in journeys || journeys[j].userId != userId || !journeys[j].status.Active? {
        return false;
      }
      journeys := journeys[j := journeys[j].(status := status, endedAt := Some(now))];
      events := events + [Event(j, ClosedEvent(status))];
      return true;
    }

    method Evaluate(j: JourneyId, now: real, seen: Option<Sighting>) returns (outcome: Option<Outcome>)
      requires j in journeys
      modifies this`journeys, this`events, this`notices
      ensures (View(), outcome) == Evaluated(old(View()), config, j, now, seen)
    {
      var journey := journeys[j];
      if now - journey.startedAt > config.maxAge {
        var finished := Finish(journey.userId, j, Abandoned, now);
        return if finished then Some(WasAbandoned) else None;
      }
      if journey.vehicleId.None? || seen.None? || seen.value.current.None? { return None; }
      var s, current := seen.value, seen.value.current.value;
      if current.0 == journey.destination {
        var finished := Finish(journey.userId, j, Completed, now);
        if !finished { return None; }
        notices := notices + [Notice(j, journey.userId, JourneyCompleted)];
        return Some(WasCompleted);
      }
      if HasPassed(journey, s, current.1) {
        var finished := Finish(journey.userId, j, Missed, now);
        if !finished { return None; }
        notices := notices + [Notice(j, journey.userId, MissedStop)];
        return Some(WasMissed);
      }
      if ShouldRemind(journey, s) {
        notices := notices + [Notice(j, journey.userId, Interchange(s.next.value))];
        journeys := journeys[j := journey.With("notified_interchanges", Ids(journey.Notified() + [s.next.value]))];
        return Some(Reminded);
      }
      if ShouldNotifyDelay(journey, s, config) {
        notices := notices + [Notice(j, journey.userId, Delay)];
        journeys := journeys[j := journey.With("delay_notified", Flag(true))];
        return Some(Delayed);
      }
      return None;
    }
  }

  /** A start: the user's active journey, if any, is superseded, then the new one is added. */
  ghost predicate StartedFrom(w: World, v: World, r: StartRequest, now: real) {
    (v == Added(w, NewJourney(r, now)) && forall j :: !ActiveOf(w, r.userId, j))
    || exists j :: ActiveOf(w, r.userId, j) && v == Added(Superseded(w, j, now), NewJourney(r, now))
  }

  // ----- the invariant of every run

  function Count<T(==)>(s: seq<T>, x: T): nat {
    multiset(s)[x]
  }

  lemma CountAppend<T>(s: seq<T>, x: T, y: T)
    ensures Count(s + [x], y) == Count(s, y) + (if x == y then 1 else 0)
  {
  }

  function Closings(events: seq<Event>, j: JourneyId): nat {
    Count(events, Event(j, SupersededEvent)) + Count(events, Event(j, ClosedEvent(Completed)))
    + Count(events, Event(j, ClosedEvent(Missed))) + Count(events, Event(j, ClosedEvent(Abandoned)))
  }

  function Terminal(w: World, j: JourneyId): nat
    requires j in w.journeys
  {
    var u := w.journeys[j].userId;
    Count(w.notices, Notice(j, u, JourneyCompleted)) + Count(w.notices, Notice(j, u, MissedStop))
  }

  /** One "started" event, one closing event iff ended, and notices that match the journey's flags. */
  ghost predicate JourneyOk(w: World, j: JourneyId)
    requires j in w.journeys
  {
    var journey := w.journeys[j];
    && j < w.nextId
    && Count(w.events, Event(j, StartedEvent)) == 1
    && Closings(w.events, j) == (if journey.status.Active? then 0 else 1)
    && Terminal(w, j) <= (if journey.status.Active? then 0 else 1)
    && (journey.status.Missed? ==> Count(w.notices, Notice(j, journey.userId, MissedStop)) == 1)
    && (journey.endedAt.None? <==> journey.status.Active?)
    && Count(w.notices, Notice(j, journey.userId, Delay)) == (if journey.DelayNotified() then 1 else 0)
    && (forall s ::
          Count(w.notices, Notice(j, journey.userId, Interchange(s))) == (if s in journey.Notified() then 1 else 0))
    && (forall s :: s in journey.Notified() ==> s in journey.Planned())
  }

  ghost predicate OneActive(w: World) {
    forall i, j, u :: ActiveOf(w, u, i) && ActiveOf(w, u, j) ==> i == j
  }

  /** Nothing is recorded about journeys that do not exist. */
  ghost predicate NothingAhead(w: World) {
    && (forall e :: e in w.events ==> e.journey in w.journeys)
    && (forall n :: n in w.notices ==> n.journey in w.journeys)
    && (forall j :: j in w.journeys ==> j < w.nextId)
  }

  ghost predicate Inv(w: World) {
    OneActive(w) && NothingAhead(w) && forall j :: j in w.journeys ==> JourneyOk(w, j)
  }

  /** Ended journeys are frozen; live ones keep their plan and never lose a flag. */
  ghost predicate Evolves(w: World, v: World) {
    forall j :: j in w.journeys ==> j in v.journeys && JourneyEvolves(w.journeys[j], v.journeys[j])
  }

  ghost predicate JourneyEvolves(a: Journey, b: Journey) {
    && (!a.status.Active? ==> a == b)
    && b.userId == a.userId && b.origin == a.origin && b.destination == a.destination && b.vehicleId == a.vehicleId
    && b.startedAt == a.startedAt && b.Planned() == a.Planned() && a.Notified() <= b.Notified()
    && (a.DelayNotified() ==> b.DelayNotified())
  }

  lemma JourneyOkElsewhere(w: World, v: World, j: JourneyId)
    requires j in w.journeys && j in v.journeys && v.journeys[j] == w.journeys[j] && JourneyOk(w, j)
    requires w.nextId <= v.nextId
    requires forall x :: Count(v.events, Event(j, x)) == Count(w.events, Event(j, x))
    requires forall u, k :: Count(v.notices, Notice(j, u, k)) == Count(w.notices, Notice(j, u, k))
    ensures JourneyOk(v, j)
  {
  }

  ghost predicate EventsAbout(w: World, v: World, t: JourneyId) {
    v.events == w.events || exists x :: v.events == w.events + [Event(t, x)]
  }

  ghost predicate NoticesAbout(w: World, v: World, t: JourneyId) {
    v.notices == w.notices || exists u, k :: v.notices == w.notices + [Notice(t, u, k)]
  }

  lemma OthersUnaffected(w: World, v: World, t: JourneyId, j: JourneyId)
    requires EventsAbout(w, v, t) && NoticesAbout(w, v, t) && j != t && w.nextId <= v.nextId
    requires j in w.journeys && j in v.journeys && v.journeys[j] == w.journeys[j] && JourneyOk(w, j)
    ensures JourneyOk(v, j)
  {
    hide JourneyOk;
    JourneyOkElsewhere(w, v, j);
  }

  lemma LogsStayWithin(w: World, v: World, t: JourneyId)
    requires NothingAhead(w) && EventsAbout(w, v, t) && NoticesAbout(w, v, t) && t in v.journeys
    requires w.journeys.Keys <= v.journeys.Keys && forall j :: j in v.journeys ==> j < v.nextId
    ensures NothingAhead(v)
  {
  }

  /** What a transition touching only journey `t` must show: the log grew about `t` alone. */
  lemma StepOn(w: World, v: World, t: JourneyId)
    requires Inv(w) && t in w.journeys && v.nextId == w.nextId && v.journeys.Keys == w.journeys.Keys
    requires forall j :: j in w.journeys && j != t ==> v.journeys[j] == w.journeys[j]
    requires EventsAbout(w, v, t) && NoticesAbout(w, v, t)
    requires v.journeys[t].userId == w.journeys[t].userId
    requires v.journeys[t].status.Active? ==> w.journeys[t].status.Active?
    requires JourneyOk(v, t) && JourneyEvolves(w.journeys[t], v.journeys[t])
    ensures Inv(v) && Evolves(w, v)
  {
    hide JourneyOk, EventsAbout, NoticesAbout, NothingAhead, OneActive, JourneyEvolves;
    IdsBelowNext(w);
    LogsStayWithin(w, v, t);
    ActivesShrink(w, v, t);
    forall j | j in v.journeys ensures JourneyOk(v, j) {
      if j != t { OthersUnaffected(w, v, t, j); }
    }
    forall j | j in w.journeys ensures JourneyEvolves(w.journeys[j], v.journeys[j]) {
      if j != t { UnchangedEvolves(w.journeys[j]); }
    }
  }

  lemma JourneyOkIn(w: World, j: JourneyId)
    requires Inv(w) && j in w.journeys
    ensures JourneyOk(w, j)
  {
  }

  lemma NewJourneyOf(r: StartRequest, now: real)
    ensures NewJourney(r, now).userId == r.userId
  {
  }

  lemma IdsBelowNext(w: World)
    requires NothingAhead(w)
    ensures forall j :: j in w.journeys ==> j < w.nextId
  {
  }

  lemma UnchangedEvolves(a: Journey)
    ensures JourneyEvolves(a, a)
  {
  }

  lemma ActivesShrink(w: World, v: World, t: JourneyId)
    requires OneActive(w) && t in w.journeys && v.journeys.Keys == w.journeys.Keys
    requires forall j :: j in w.journeys && j != t ==> v.journeys[j] == w.journeys[j]
    requires v.journeys[t].userId == w.journeys[t].userId
    requires v.journeys[t].status.Active? ==> w.journeys[t].status.Active?
    ensures OneActive(v)
  {
    forall u, j | ActiveOf(v, u, j) ensures ActiveOf(w, u, j) {
      assert j in w.journeys;
    }
  }

  /** Ending a journey adds exactly its closing event. */
  lemma EndedOk(w: World, v: World, j: JourneyId, status: Status, what: EventType, now: real)
    requires j in w.journeys && w.journeys[j].status.Active? && JourneyOk(w, j)
    requires
      || (what == SupersededEvent && status.Abandoned?)
      || (what == ClosedEvent(status) && (status.Completed? || status.Abandoned?))
    requires v == w.(journeys := w.journeys[j := w.journeys[j].(status := status, endedAt := Some(now))],
                     events := w.events + [Event(j, what)])
    ensures JourneyOk(v, j) && JourneyEvolves(w.journeys[j], v.journeys[j]) && EventsAbout(w, v, j)
  {
    forall y { CountAppend(w.events, Event(j, what), Event(j, y)); }
  }

  lemma FinishKeeps(w: World, userId: string, j: JourneyId, status: Status, now: real)
    requires Inv(w) && Finished(w, userId, j, status, now).Some? && (status.Completed? || status.Abandoned?)
    ensures var v := Finished(w, userId, j, status, now).value; Inv(v) && Evolves(w, v)
  {
    hide Inv, JourneyOk, JourneyEvolves, EventsAbout, Evolves;
    JourneyOkIn(w, j);
    var v := Finished(w, userId, j, status, now).value;
    EndedOk(w, v, j, status, ClosedEvent(status), now);
    StepOn(w, v, j);
  }

  lemma ClosedOk(w: World, j: JourneyId, status: Status, kind: Kind, now: real)
    requires j in w.journeys && w.journeys[j].status.Active? && JourneyOk(w, j)
    requires (status.Completed? && kind.JourneyCompleted?) || (status.Missed? && kind.MissedStop?)
    ensures var v := Close(w, j, status, kind, now);
            && JourneyOk(v, j) && JourneyEvolves(w.journeys[j], v.journeys[j])
            && EventsAbout(w, v, j) && NoticesAbout(w, v, j)
  {
    hide JourneyOk, Journey.Notified, Journey.Planned, Journey.DelayNotified;
    var v := Close(w, j, status, kind, now);
    SamePayload(w.journeys[j], v.journeys[j]);
    ClosedJourneyOk(w, v, j, status, kind);
  }

  lemma ClosedJourneyOk(w: World, v: World, j: JourneyId, status: Status, kind: Kind)
    requires j in w.journeys && w.journeys[j].status.Active? && JourneyOk(w, j)
    requires (status.Completed? && kind.JourneyCompleted?) || (status.Missed? && kind.MissedStop?)
    requires j in v.journeys && v.nextId == w.nextId && v.journeys[j].userId == w.journeys[j].userId
    requires v.journeys[j].status == status && v.journeys[j].endedAt.Some?
    requires v.journeys[j].payload == w.journeys[j].payload
    requires v.events == w.events + [Event(j, ClosedEvent(status))]
    requires v.notices == w.notices + [Notice(j, w.journeys[j].userId, kind)]
    ensures JourneyOk(v, j)
  {
    SamePayload(w.journeys[j], v.journeys[j]);
    ClosingEvents(w, v, j, status);
    ClosingNotices(w, v, j, kind);
    hide Journey.Notified, Journey.Planned, Journey.DelayNotified, Count, Closings;
  }

  lemma ClosingEvents(w: World, v: World, j: JourneyId, status: Status)
    requires v.events == w.events + [Event(j, ClosedEvent(status))] && !status.Active?
    ensures Closings(v.events, j) == Closings(w.events, j) + 1
    ensures Count(v.events, Event(j, StartedEvent)) == Count(w.events, Event(j, StartedEvent))
  {
    hide Count;
    forall y { CountAppend(w.events, Event(j, ClosedEvent(status)), Event(j, y)); }
  }

  lemma ClosingNotices(w: World, v: World, j: JourneyId, kind: Kind)
    requires j in w.journeys && j in v.journeys && v.journeys[j].userId == w.journeys[j].userId
    requires v.notices == w.notices + [Notice(j, w.journeys[j].userId, kind)]
    requires kind.JourneyCompleted? || kind.MissedStop?
    ensures Terminal(v, j) == Terminal(w, j) + 1
    ensures var u := w.journeys[j].userId;
            && Count(v.notices, Notice(j, u, Delay)) == Count(w.notices, Notice(j, u, Delay))
            && (forall s ::
                  Count(v.notices, Notice(j, u, Interchange(s))) == Count(w.notices, Notice(j, u, Interchange(s))))
            && Count(v.notices, Notice(j, u, kind)) == Count(w.notices, Notice(j, u, kind)) + 1
  {
    hide Count;
    var u := w.journeys[j].userId;
    forall k { CountAppend(w.notices, Notice(j, u, kind), Notice(j, u, k)); }
  }

  lemma SamePayload(a: Journey, b: Journey)
    requires a.payload == b.payload
    ensures a.Notified() == b.Notified() && a.Planned() == b.Planned() && a.DelayNotified() == b.DelayNotified()
  {
  }

  lemma CloseKeeps(w: World, j: JourneyId, status: Status, kind: Kind, now: real)
    requires Inv(w) && j in w.journeys && w.journeys[j].status.Active?
    requires (status.Completed? && kind.JourneyCompleted?) || (status.Missed? && kind.MissedStop?)
    ensures var v := Close(w, j, status, kind, now); Inv(v) && Evolves(w, v)
  {
    hide Inv, JourneyOk, JourneyEvolves, EventsAbout, NoticesAbout, Evolves;
    JourneyOkIn(w, j);
    ClosedOk(w, j, status, kind, now);
    StepOn(w, Close(w, j, status, kind, now), j);
  }

  /** A live journey that gains one notice and the flag recording it. */
  ghost function Flagged(w: World, j: JourneyId, kind: Kind, after: Journey): World
    requires j in w.journeys
  {
    var v := Notify(w, j, kind);
    v.(journeys := v.journeys[j := after])
  }

  lemma FlaggedOk(w: World, j: JourneyId, kind: Kind, after: Journey)
    requires j in w.journeys && w.journeys[j].status.Active? && JourneyOk(w, j)
    requires after == w.journeys[j].(payload := after.payload) && after.Planned() == w.journeys[j].Planned()
    requires match kind
             case Interchange(s) =>
               && after.Notified() == w.journeys[j].Notified() + [s]
               && s !in w.journeys[j].Notified() && s in after.Planned()
               && after.DelayNotified() == w.journeys[j].DelayNotified()
             case Delay =>
               && after.Notified() == w.journeys[j].Notified()
               && after.DelayNotified() && !w.journeys[j].DelayNotified()
             case JourneyCompleted => false
             case MissedStop => false
    ensures var v := Flagged(w, j, kind, after);
            && JourneyOk(v, j) && JourneyEvolves(w.journeys[j], v.journeys[j])
            && EventsAbout(w, v, j) && NoticesAbout(w, v, j)
  {
    hide Journey.Notified, Journey.Planned, Journey.DelayNotified;
    var u := w.journeys[j].userId;
    forall k { CountAppend(w.notices, Notice(j, u, kind), Notice(j, u, k)); }
  }

  lemma RemindedPayload(journey: Journey, stop: StopId)
    ensures var after := journey.With("notified_interchanges", Ids(journey.Notified() + [stop]));
            && after.Notified() == journey.Notified() + [stop] && after.Planned() == journey.Planned()
            && after.DelayNotified() == journey.DelayNotified()
  {
    assert |"notified_interchanges"| != |"interchange_stop_ids"| && |"notified_interchanges"| != |"delay_notified"|;
  }

  lemma DelayedPayload(journey: Journey)
    ensures var after := journey.With("delay_notified", Flag(true));
            after.Notified() == journey.Notified() && after.Planned() == journey.Planned() && after.DelayNotified()
  {
    assert |"delay_notified"| != |"interchange_stop_ids"| && |"notified_interchanges"| != |"delay_notified"|;
  }

  lemma RemindKeeps(w: World, j: JourneyId, s: Sighting)
    requires Inv(w) && j in w.journeys && w.journeys[j].status.Active? && ShouldRemind(w.journeys[j], s)
    ensures var journey := w.journeys[j];
            var after := journey.With("notified_interchanges", Ids(journey.Notified() + [s.next.value]));
            var v := Flagged(w, j, Interchange(s.next.value), after);
            Inv(v) && Evolves(w, v)
  {
    hide Inv, JourneyOk, JourneyEvolves, EventsAbout, NoticesAbout, Evolves;
    hide Journey.Notified, Journey.Planned, Journey.DelayNotified;
    var journey := w.journeys[j];
    var after := journey.With("notified_interchanges", Ids(journey.Notified() + [s.next.value]));
    JourneyOkIn(w, j);
    RemindedPayload(journey, s.next.value);
    FlaggedOk(w, j, Interchange(s.next.value), after);
    StepOn(w, Flagged(w, j, Interchange(s.next.value), after), j);
  }

  lemma DelayKeeps(w: World, c: Config, j: JourneyId, s: Sighting)
    requires Inv(w) && j in w.journeys && w.journeys[j].status.Active? && ShouldNotifyDelay(w.journeys[j], s, c)
    ensures var v := Flagged(w, j, Delay, w.journeys[j].With("delay_notified", Flag(true))); Inv(v) && Evolves(w, v)
  {
    hide Inv, JourneyOk, JourneyEvolves, EventsAbout, NoticesAbout, Evolves;
    hide Journey.Notified, Journey.Planned, Journey.DelayNotified;
    JourneyOkIn(w, j);
    var after := w.journeys[j].With("delay_notified", Flag(true));
    DelayedPayload(w.journeys[j]);
    FlaggedOk(w, j, Delay, after);
    StepOn(w, Flagged(w, j, Delay, after), j);
  }

  lemma EvaluateKeeps(w: World, c: Config, j: JourneyId, now: real, seen: Option<Sighting>)
    requires Inv(w) && j in w.journeys && w.journeys[j].status.Active?
    ensures var v := Evaluated(w, c, j, now, seen).0; Inv(v) && Evolves(w, v)
  {
    hide Inv, Evolves;
    var journey := w.journeys[j];
    EvolvesSelf(w);
    if now - journey.startedAt > c.maxAge {
      FinishKeeps(w, journey.userId, j, Abandoned, now);
    } else if journey.vehicleId.Some? && seen.Some? && seen.value.current.Some? {
      var s, current := seen.value, seen.value.current.value;
      if current.0 == journey.destination {
        CloseKeeps(w, j, Completed, JourneyCompleted, now);
      } else if HasPassed(journey, s, current.1) {
        CloseKeeps(w, j, Missed, MissedStop, now);
      } else if ShouldRemind(journey, s) {
        RemindKeeps(w, j, s);
      } else if ShouldNotifyDelay(journey, s, c) {
        DelayKeeps(w, c, j, s);
      }
    }
  }

  lemma EvolvesSelf(w: World)
    ensures Evolves(w, w)
  {
  }

  lemma AddedOk(w: World, r: StartRequest, now: real)
    requires NothingAhead(w)
    ensures JourneyOk(Added(w, NewJourney(r, now)), w.nextId)
    ensures EventsAbout(w, Added(w, NewJourney(r, now)), w.nextId)
  {
    var id := w.nextId;
    forall x ensures Count(w.events, Event(id, x)) == 0 { assert Event(id, x) !in w.events; }
    forall u, k ensures Count(w.notices, Notice(id, u, k)) == 0 { assert Notice(id, u, k) !in w.notices; }
    forall x { CountAppend(w.events, Event(id, StartedEvent), Event(id, x)); }
    FreshNotified(r, now);
    hide Journey.Notified, Journey.Planned, Journey.DelayNotified;
  }

  lemma AddKeeps(w: World, r: StartRequest, now: real)
    requires Inv(w) && forall j :: !ActiveOf(w, r.userId, j)
    ensures var v := Added(w, NewJourney(r, now)); Inv(v) && Evolves(w, v)
  {
    hide JourneyOk, EventsAbout, NothingAhead, OneActive, JourneyEvolves, NewJourney;
    var v, id := Added(w, NewJourney(r, now)), w.nextId;
    IdsBelowNext(w);
    assert id !in w.journeys;
    AddedOk(w, r, now);
    NewJourneyOf(r, now);
    LogsStayWithin(w, v, id);
    OneMoreActive(w, v, NewJourney(r, now));
    forall j | j in v.journeys ensures JourneyOk(v, j) {
      if j != id { OthersUnaffected(w, v, id, j); }
    }
    forall j | j in w.journeys ensures JourneyEvolves(w.journeys[j], v.journeys[j]) {
      UnchangedEvolves(w.journeys[j]);
    }
  }

  lemma OneMoreActive(w: World, v: World, journey: Journey)
    requires OneActive(w) && w.nextId !in w.journeys && v == Added(w, journey)
    requires forall j :: !ActiveOf(w, journey.userId, j)
    ensures OneActive(v)
  {
    forall u, j | ActiveOf(v, u, j)
      ensures (j == w.nextId && u == journey.userId) || (j != w.nextId && ActiveOf(w, u, j))
    {
    }
  }

  lemma FreshNotified(r: StartRequest, now: real)
    ensures NewJourney(r, now).Notified() == [] && !NewJourney(r, now).DelayNotified()
    ensures NewJourney(r, now).Planned() == r.interchanges
  {
    assert |"notified_interchanges"| != |"interchange_stop_ids"| && |"delay_notified"| != |"interchange_stop_ids"|;
  }

  lemma SupersedeKeeps(w: World, userId: string, j: JourneyId, now: real)
    requires Inv(w) && ActiveOf(w, userId, j)
    ensures var v := Superseded(w, j, now); Inv(v) && Evolves(w, v) && forall i :: !ActiveOf(v, userId, i)
  {
    hide JourneyOk, JourneyEvolves, EventsAbout, Evolves, NothingAhead;
    var v := Superseded(w, j, now);
    EndedOk(w, v, j, Abandoned, SupersededEvent, now);
    StepOn(w, v, j);
    assert forall i :: ActiveOf(v, userId, i) ==> ActiveOf(w, userId, i) && i != j;
  }

  lemma StartKeeps(w: World, v: World, r: StartRequest, now: real)
    requires Inv(w) && StartedFrom(w, v, r, now)
    ensures Inv(v) && Evolves(w, v)
  {
    hide Inv, Evolves;
    if forall j :: !ActiveOf(w, r.userId, j) {
      AddKeeps(w, r, now);
    } else {
      var j :| ActiveOf(w, r.userId, j) && v == Added(Superseded(w, j, now), NewJourney(r, now));
      SupersedeKeeps(w, r.userId, j, now);
      AddKeeps(Superseded(w, j, now), r, now);
      EvolvesTransitive(w, Superseded(w, j, now), v);
    }
  }

  lemma EvolvesTransitive(u: World, v: World, w: World)
    requires Evolves(u, v) && Evolves(v, w)
    ensures Evolves(u, w)
  {
  }

  // ----- what an evaluation finds, by where the train is

  ghost predicate Rising(stops: seq<(StopId, int)>) {
    forall i, k :: 0 <= i < k < |stops| ==> stops[i].1 < stops[k].1
  }

  /** The journey is live, not too old, and its train is seen at call k of its trip. */
  ghost predicate SeenAt(w: World, c: Config, j: JourneyId, now: real, s: Sighting, k: nat) {
    && j in w.journeys && w.journeys[j].status.Active? && w.journeys[j].vehicleId.Some?
    && now - w.journeys[j].startedAt <= c.maxAge
    && k < |s.tripStops| && s.current == Some(s.tripStops[k]) && Rising(s.tripStops)
  }

  lemma {:induction false} FirstCall(stops: seq<(StopId, int)>, stop: StopId, d: nat)
    requires d <= |stops| && (forall i :: 0 <= i < d ==> stops[i].0 != stop) && (d < |stops| ==> stops[d].0 == stop)
    ensures SequenceOf(stops, stop) == if d < |stops| then Some(stops[d].1) else None
  {
    if stops != [] && d > 0 {
      assert forall i :: 0 <= i < |stops| - 1 ==> stops[1..][i] == stops[i + 1];
      FirstCall(stops[1..], stop, d - 1);
    }
  }

  /**
  With the train at call k and the destination first called at d (or nowhere, d being the end): completed at the
  destination, missed beyond it, and otherwise still under way.
  */
  lemma OutcomeByPosition(w: World, c: Config, j: JourneyId, now: real, s: Sighting, k: nat, d: nat)
    requires SeenAt(w, c, j, now, s, k)
    requires var stop := w.journeys[j].destination;
             && d <= |s.tripStops| && (forall i :: 0 <= i < d ==> s.tripStops[i].0 != stop)
             && (d < |s.tripStops| ==> s.tripStops[d].0 == stop)
    ensures var v := Evaluated(w, c, j, now, Some(s)).0;
            && j in v.journeys
            && var status, here := v.journeys[j].status, s.tripStops[k].0 == w.journeys[j].destination;
            && (status.Completed? <==> here)
            && (status.Missed? <==> d < k && !here)
            && (status.Active? <==> k < d)
    ensures k >= d ==>
              var v := Evaluated(w, c, j, now, Some(s)).0;
              var journey, here := w.journeys[j], s.tripStops[k].0 == w.journeys[j].destination;
              && v.journeys[j].endedAt == Some(now)
              && v.events == w.events + [Event(j, ClosedEvent(if here then Completed else Missed))]
              && v.notices == w.notices + [Notice(j, journey.userId, if here then JourneyCompleted else MissedStop)]
  {
    FirstCall(s.tripStops, w.journeys[j].destination, d);
    hide Journey.Notified, Journey.Planned, Journey.DelayNotified, SequenceOf;
  }

  /** Under way, the rider is reminded of a planned interchange that is next, once; otherwise told of a delay, once. */
  lemma NoticesUnderWay(w: World, c: Config, j: JourneyId, now: real, s: Sighting, k: nat, d: nat)
    requires SeenAt(w, c, j, now, s, k) && k < d <= |s.tripStops|
    requires forall i :: 0 <= i < d ==> s.tripStops[i].0 != w.journeys[j].destination
    requires d < |s.tripStops| ==> s.tripStops[d].0 == w.journeys[j].destination
    ensures var (v, outcome) := Evaluated(w, c, j, now, Some(s));
            var journey := w.journeys[j];
            var remind := s.next.Some? && s.next.value in journey.Planned() && s.next.value !in journey.Notified();
            var late := s.delay.Some? && s.delay.value >= c.delayNotify && !journey.DelayNotified();
            && outcome == (if remind then Some(Reminded) else if late then Some(Delayed) else None)
            && v.notices == w.notices
                            + (if remind then [Notice(j, journey.userId, Interchange(s.next.value))]
                               else if late then [Notice(j, journey.userId, Delay)] else [])
            && v.events == w.events
  {
    FirstCall(s.tripStops, w.journeys[j].destination, d);
    hide Journey.Notified, Journey.Planned, Journey.DelayNotified, Journey.With, SequenceOf;
  }

  /** A journey too old is abandoned; a young one whose train is not seen is left alone. */
  lemma OutcomeUnseen(w: World, c: Config, j: JourneyId, now: real, seen: Option<Sighting>)
    requires j in w.journeys && w.journeys[j].status.Active?
    ensures var v := Evaluated(w, c, j, now, seen).0;
            && (now - w.journeys[j].startedAt > c.maxAge ==>
                  j in v.journeys && v.journeys[j].status == Abandoned && v.notices == w.notices)
            && var unseen := w.journeys[j].vehicleId.None? || seen.None? || seen.value.current.None?;
            && (now - w.journeys[j].startedAt <= c.maxAge && unseen ==> v == w)
  {
  }

  // ----- runs

  datatype Op =
    | StartJourney(request: StartRequest, at: real)
    | CompleteJourney(userId: string, id: JourneyId, at: real)
    | AbandonJourney(userId: string, id: JourneyId, at: real)
    | EvaluateJourney(id: JourneyId, at: real, seen: Option<Sighting>)

  /** One transaction; the worker evaluates only journeys it lists as active. */
  ghost predicate Step(stops: set<StopId>, c: Config, w: World, op: Op, v: World) {
    match op
    case StartJourney(r, now) => if Valid(r, stops) then StartedFrom(w, v, r, now) else v == w
    case CompleteJourney(u, j, now) => v == (match Finished(w, u, j, Completed, now) case None => w case Some(x) => x)
    case AbandonJourney(u, j, now) => v == (match Finished(w, u, j, Abandoned, now) case None => w case Some(x) => x)
    case EvaluateJourney(j, now, seen) =>
      j in w.journeys && w.journeys[j].status.Active? && v == Evaluated(w, c, j, now, seen).0
  }

  ghost predicate Run(stops: set<StopId>, c: Config, worlds: seq<World>, ops: seq<Op>) {
    |worlds| == |ops| + 1 && forall i {:trigger ops[i]} :: 0 <= i < |ops| ==>
        Step(stops, c, worlds[i], ops[i], worlds[i + 1])
  }

  lemma StepKeeps(stops: set<StopId>, c: Config, w: World, op: Op, v: World)
    requires Inv(w) && Step(stops, c, w, op, v)
    ensures Inv(v) && Evolves(w, v)
  {
    hide Inv, Evolves;
    EvolvesSelf(w);
    match op
    case StartJourney(r, now) => if Valid(r, stops) { StartKeeps(w, v, r, now); }
    case CompleteJourney(u, j, now) =>
      if Finished(w, u, j, Completed, now).Some? { FinishKeeps(w, u, j, Completed, now); }
    case AbandonJourney(u, j, now) =>
      if Finished(w, u, j, Abandoned, now).Some? { FinishKeeps(w, u, j, Abandoned, now); }
    case EvaluateJourney(j, now, seen) => EvaluateKeeps(w, c, j, now, seen);
  }

  /** Over every interleaving of API calls and worker evaluations, from any sound state. */
  lemma {:induction false} RunKeeps(stops: set<StopId>, c: Config, worlds: seq<World>, ops: seq<Op>, i: nat, j: nat)
    requires Run(stops, c, worlds, ops) && Inv(worlds[0]) && i <= j <= |ops|
    ensures Inv(worlds[i]) && Inv(worlds[j]) && Evolves(worlds[i], worlds[j])
    decreases j, j - i
  {
    hide Inv, Evolves, Step;
    if i < j {
      RunKeeps(stops, c, worlds, ops, i, j - 1);
      assert ops[j - 1] == ops[j - 1];
      StepKeeps(stops, c, worlds[j - 1], ops[j - 1], worlds[j]);
      EvolvesTransitive(worlds[i], worlds[j - 1], worlds[j]);
    } else {
      if j > 0 {
        RunKeeps(stops, c, worlds, ops, j - 1, j - 1);
        assert ops[j - 1] == ops[j - 1];
        StepKeeps(stops, c, worlds[j - 1], ops[j - 1], worlds[j]);
      }
      EvolvesSelf(worlds[i]);
    }
  }

  /** The promises to a user, over every run from empty tables. */
  lemma Lifecycle(stops: set<StopId>, c: Config, worlds: seq<World>, ops: seq<Op>, i: nat, k: nat, j: JourneyId)
    requires Run(stops, c, worlds, ops) && worlds[0] == World(map[], 0, [], []) && i <= k <= |ops|
    requires j in worlds[i].journeys
    ensures j in worlds[k].journeys
    ensures !worlds[i].journeys[j].status.Active? ==> worlds[k].journeys[j] == worlds[i].journeys[j]
    ensures worlds[i].journeys[j].Notified() <= worlds[k].journeys[j].Notified()
    ensures Count(worlds[k].events, Event(j, StartedEvent)) == 1
    ensures Closings(worlds[k].events, j) == (if worlds[k].journeys[j].status.Active? then 0 else 1)
    ensures Terminal(worlds[k], j) <= 1 && Count(worlds[k].notices, Notice(j, worlds[k].journeys[j].userId, Delay)) <= 1
    ensures var u, planned := worlds[k].journeys[j].userId, worlds[k].journeys[j].Planned();
            forall s :: Count(worlds[k].notices, Notice(j, u, Interchange(s))) <= (if s in planned then 1 else 0)
    ensures forall i', u :: ActiveOf(worlds[k], u, i') && ActiveOf(worlds[k], u, j) ==> i' == j
  {
    assert Inv(worlds[0]);
    hide Step, Run, Inv, Evolves, JourneyOk;
    RunKeeps(stops, c, worlds, ops, i, k);
    EvolvesIn(worlds[i], worlds[k], j);
    OnlyActive(worlds[k], j);
    JourneyOkIn(worlds[k], j);
    JourneyOkMeans(worlds[k], j);
  }

  lemma EvolvesIn(w: World, v: World, j: JourneyId)
    requires Evolves(w, v) && j in w.journeys
    ensures j in v.journeys && JourneyEvolves(w.journeys[j], v.journeys[j])
  {
  }

  lemma OnlyActive(w: World, j: JourneyId)
    requires Inv(w)
    ensures forall i, u :: ActiveOf(w, u, i) && ActiveOf(w, u, j) ==> i == j
  {
  }

  lemma JourneyOkMeans(w: World, j: JourneyId)
    requires j in w.journeys && JourneyOk(w, j)
    ensures Count(w.events, Event(j, StartedEvent)) == 1
    ensures Closings(w.events, j) == (if w.journeys[j].status.Active? then 0 else 1)
    ensures Terminal(w, j) <= 1 && Count(w.notices, Notice(j, w.journeys[j].userId, Delay)) <= 1
    ensures var u, planned := w.journeys[j].userId, w.journeys[j].Planned();
            forall s :: Count(w.notices, Notice(j, u, Interchange(s))) <= (if s in planned then 1 else 0)
  {
    hide Count, Journey.Notified, Journey.Planned, Journey.DelayNotified;
  }
}
