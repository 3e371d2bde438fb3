/** The polling engine: fetch, diff, store, history, number, publish - in that order. */
module RealtimeEngine {
  import opened Snapshots

  /** Where a cycle may fail. */
  datatype Fault =
    | NoFault | FetchFails | StoreFails | HistoryFails | SequenceFails | PublishFails | AfterPublishFails

  datatype Outcome = Completed(sequence: nat) | Failed

  /** What outlives a cycle: the position store, the sequence counter and the update stream. */
  datatype EngineState = EngineState(store: Snapshot, sequence: nat, stream: seq<Update>)

  /** `{p.vehicle_id: p for p in positions}`: the last report of a vehicle wins. */
  function ByVehicle(positions: seq<(VehicleId, Position)>): Snapshot {
    if positions == [] then map[]
    else ByVehicle(positions[..|positions| - 1])[positions[|positions| - 1].0 := positions[|positions| - 1].1]
  }

  /** The last report of a vehicle is the one kept, and no other vehicle appears. */
  lemma {:induction false} LastReportWins(positions: seq<(VehicleId, Position)>, v: VehicleId)
    ensures v in ByVehicle(positions) <==> exists i :: 0 <= i < |positions| && positions[i].0 == v
    ensures forall i ::
              && 0 <= i < |positions| && positions[i].0 == v
              && (forall k :: i < k < |positions| ==> positions[k].0 != v)
              ==> v in ByVehicle(positions) && ByVehicle(positions)[v] == positions[i].1
  {
    if positions != [] {
      var n := |positions| - 1;
      LastReportWins(positions[..n], v);
      assert forall i :: 0 <= i < n ==> positions[..n][i] == positions[i];
    }
  }

  /** A store that has nothing to apply is not written, and a history with nothing to add neither. */
  predicate Succeeds(e: EngineState, current: Snapshot, fault: Fault) {
    var d := DiffSnapshots(e.store, current, 0.0, 0.0);
    fault.NoFault? || (fault.StoreFails? && !d.HasChanges()) || (fault.HistoryFails? && d.changed == map[])
  }

  /** The state one cycle leaves behind. */
  function Polled(e: EngineState, current: Snapshot, fault: Fault): EngineState {
    var d := DiffSnapshots(e.store, current, 0.0, 0.0);
    var stored := e.(store := Apply(e.store, d.changed, d.removed));
    if fault.FetchFails? || (fault.StoreFails? && d.HasChanges()) then e
    else if (fault.HistoryFails? && d.changed != map[]) || fault.SequenceFails? then stored
    else if fault.PublishFails? then stored.(sequence := e.sequence + 1)
    else stored.(sequence := e.sequence + 1, stream := e.stream + [Update(e.sequence + 1, d.changed, d.removed)])
  }

  /** What changed and what was removed do not depend on the clock; only staleness does. */
  lemma ClockDoesNotMatter(previous: Snapshot, current: Snapshot, now: real, staleAfter: real)
    ensures var d, e := DiffSnapshots(previous, current, now, staleAfter), DiffSnapshots(previous, current, 0.0, 0.0);
            d.changed == e.changed && d.removed == e.removed
  {
  }

  class Engine {
    var store: Snapshot
    var sequence: nat
    var stream: seq<Update>
    var polls: nat
    var failures: nat
    var consecutiveFailures: nat

    function View(): EngineState
      reads this
    {
      EngineState(store, sequence, stream)
    }

    constructor ()
      ensures View() == EngineState(map[], 0, []) && polls == failures == consecutiveFailures == 0
    {
      store, sequence, stream := map[], 0, [];
      polls, failures, consecutiveFailures := 0, 0, 0;
    }

    method PollOnce(positions: seq<(VehicleId, Position)>, now: real, staleAfter: real, fault: Fault)
        returns (r: Outcome)
      modifies this`store, this`sequence, this`stream, this`polls
      ensures View() == Polled(old(View()), ByVehicle(positions), fault) && polls == old(polls) + 1
      ensures r.Completed? <==> Succeeds(old(View()), ByVehicle(positions), fault)
      ensures r.Completed? ==> r.sequence == sequence
    {
      hide DiffSnapshots, Apply, ByVehicle;
      ClockDoesNotMatter(store, ByVehicle(positions), now, staleAfter);
      polls := polls + 1;
      if fault.FetchFails? { return Failed; }
      var current := ByVehicle(positions);
      var diff := DiffSnapshots(store, current, now, staleAfter);
      if diff.HasChanges() {
        if fault.StoreFails? { return Failed; }
      }
      store := Apply(store, diff.changed, diff.removed);
      if diff.changed != map[] {
        if fault.HistoryFails? { return Failed; }
      }
      if fault.SequenceFails? { return Failed; }
      sequence := sequence + 1;
      if fault.PublishFails? { return Failed; }
      stream := stream + [Update(sequence, diff.changed, diff.removed)];
      if fault.AfterPublishFails? { return Failed; }
      return Completed(sequence);
    }

    /** The scheduler's entry point: counts failures instead of raising. */
    method PollSafe(positions: seq<(VehicleId, Position)>, now: real, staleAfter: real, fault: Fault)
        returns (r: Outcome)
      modifies this
      ensures View() == Polled(old(View()), ByVehicle(positions), fault) && polls == old(polls) + 1
      ensures r.Completed? <==> Succeeds(old(View()), ByVehicle(positions), fault)
      ensures failures == old(failures) + (if r.Failed? then 1 else 0)
      ensures consecutiveFailures == if r.Failed? then old(consecutiveFailures) + 1 else 0
    {
      r := PollOnce(positions, now, staleAfter, fault);
      if r.Failed? {
        failures := failures + 1;
        consecutiveFailures := consecutiveFailures + 1;
      } else {
        consecutiveFailures := 0;
      }
    }
  }

  /**
  The module promises that a failed cycle leaves state untouched. It does so exactly when the fetch or the store
  fails, or when numbering fails and the feed had not changed; otherwise the store or the counter has moved on.
  */
  lemma FailedCycleUntouchedIff(e: EngineState, current: Snapshot, fault: Fault)
    requires !Succeeds(e, current, fault)
    ensures Polled(e, current, fault) == e
       <==> fault.FetchFails? || fault.StoreFails? || (fault.SequenceFails? && current == e.store)
  {
    DiffApplies(e.store, current, 0.0, 0.0);
    NoChangesIffEqual(e.store, current, 0.0, 0.0);
  }

  /** Failing between storing and publishing loses the diff: the next cycle finds nothing left to announce. */
  lemma FailedCycleLosesTheDiff(e: EngineState, current: Snapshot)
    requires !Succeeds(e, current, HistoryFails)
    ensures var after := Polled(e, current, HistoryFails);
            && after.store == current && after.stream == e.stream
            && Polled(after, current, NoFault).stream == e.stream + [Update(e.sequence + 1, map[], {})]
  {
    hide DiffSnapshots, Apply;
    DiffApplies(e.store, current, 0.0, 0.0);
    NoChangesIffEqual(current, current, 0.0, 0.0);
  }

  /** The stream is the exact record of `run`: frame i takes snapshot i-1 to snapshot i, and the store is at the end. */
  ghost predicate Recorded(e: EngineState, run: seq<Snapshot>) {
    && |run| == e.sequence + 1 && |e.stream| == e.sequence && e.store == run[e.sequence]
    && (forall i {:trigger e.stream[i]} :: 0 <= i < e.sequence ==> e.stream[i] == UpdateOf(run, i + 1))
  }

  /** Whether a cycle publishes. */
  predicate Publishes(e: EngineState, current: Snapshot, fault: Fault) {
    Succeeds(e, current, fault) || fault.AfterPublishFails?
  }

  /** A cycle that publishes extends the record by one snapshot, even when what follows publishing fails. */
  lemma SuccessRecorded(e: EngineState, run: seq<Snapshot>, current: Snapshot, fault: Fault)
    requires Recorded(e, run) && Publishes(e, current, fault)
    ensures Recorded(Polled(e, current, fault), run + [current])
    ensures Polled(e, current, fault).stream == e.stream + [UpdateOf(run + [current], |run|)]
  {
    hide DiffSnapshots, Apply;
    var longer, after := run + [current], Polled(e, current, fault);
    DiffApplies(e.store, current, 0.0, 0.0);
    assert longer[|run| - 1] == e.store;
    forall i {:trigger after.stream[i]} | 0 <= i < after.sequence
      ensures after.stream[i] == UpdateOf(longer, i + 1)
    {
      if i < e.sequence {
        assert after.stream[i] == e.stream[i];
        SameUpdate(run, longer, i + 1);
      }
    }
  }

  /** The cycles after which the stream is still an exact record. */
  predicate Harmless(e: EngineState, current: Snapshot, fault: Fault) {
    || Succeeds(e, current, fault) || fault.FetchFails? || fault.StoreFails? || fault.AfterPublishFails?
    || (fault.SequenceFails? && current == e.store)
  }

  /** A harmless cycle either extends the record by its snapshot or changes nothing. */
  lemma HarmlessCycle(e: EngineState, current: Snapshot, fault: Fault)
    requires Harmless(e, current, fault) && !Publishes(e, current, fault)
    ensures Polled(e, current, fault) == e
  {
    if fault.SequenceFails? {
      FailedCycleUntouchedIff(e, current, fault);
    }
  }

  /**
  After a failed cycle the stream is still an exact record exactly when the state is untouched or the failure came
  after publishing.
  */
  lemma FailureRecordedIff(e: EngineState, run: seq<Snapshot>, current: Snapshot, fault: Fault)
    requires Recorded(e, run) && !Succeeds(e, current, fault)
    ensures (exists later :: run <= later && Recorded(Polled(e, current, fault), later))
       <==> Polled(e, current, fault) == e || fault.AfterPublishFails?
    ensures (exists later :: run <= later && Recorded(Polled(e, current, fault), later))
       <==> Harmless(e, current, fault)
  {
    FailedCycleUntouchedIff(e, current, fault);
    var after := Polled(e, current, fault);
    if after == e {
      assert run <= run && Recorded(after, run);
    }
    if fault.AfterPublishFails? {
      SuccessRecorded(e, run, current, fault);
      assert run <= run + [current];
    } else if later :| run <= later && Recorded(after, later) {
      assert |later| == |run|;
      assert later == run;
      DiffApplies(e.store, current, 0.0, 0.0);
    }
  }
}
