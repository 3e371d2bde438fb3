/** Vehicle snapshots: the diff of two of them, its application, and replay of a run of diffs. */
module Snapshots {
  import opened Common

  type VehicleId = string

  datatype Position = Position(
    latitude: real, longitude: real, timestamp: real, tripId: Option<string>, routeId: Option<string>) {
    predicate IsStale(now: real, staleAfter: real) {
      now - timestamp > staleAfter
    }
  }

  type Snapshot = map<VehicleId, Position>

  datatype SnapshotDiff = SnapshotDiff(
    total: nat, added: set<VehicleId>, moved: set<VehicleId>, removed: set<VehicleId>, stale: set<VehicleId>,
    changed: Snapshot)
  {
    predicate HasChanges() {
      changed != map[] || removed != {}
    }
  }

  function Lookup(s: Snapshot, v: VehicleId): Option<Position> {
    if v in s then Some(s[v]) else None
  }

  /** `diff_snapshots`: classifies every vehicle of two consecutive snapshots. */
  function DiffSnapshots(previous: Snapshot, current: Snapshot, now: real, staleAfter: real): SnapshotDiff {
    var changed := map v | v in current && Lookup(previous, v) != Some(current[v]) :: current[v];
    SnapshotDiff(
      |current|,
      (set v | v in changed && v !in previous),
      (set v | v in changed && v in previous),
      previous.Keys - current.Keys,
      (set v | v in current && current[v].IsStale(now, staleAfter)),
      changed)
  }

  /** The store's atomic update, and what a client does with an update frame: upsert, then delete. */
  function Apply(s: Snapshot, upserts: Snapshot, removed: set<VehicleId>): Snapshot {
    (s + upserts) - removed
  }

  /** Applying the diff of two snapshots to the first gives the second. */
  lemma DiffApplies(previous: Snapshot, current: Snapshot, now: real, staleAfter: real)
    ensures var d := DiffSnapshots(previous, current, now, staleAfter);
            Apply(previous, d.changed, d.removed) == current
  {
    var d := DiffSnapshots(previous, current, now, staleAfter);
    var after := Apply(previous, d.changed, d.removed);
    assert forall v :: v in after <==> v in current;
    assert forall v :: v in current ==> after[v] == current[v];
  }

  /** The classes are disjoint and exact. */
  lemma DiffExact(previous: Snapshot, current: Snapshot, now: real, staleAfter: real)
    ensures var d := DiffSnapshots(previous, current, now, staleAfter);
            && d.added !! d.moved !! d.removed
            && d.changed.Keys == d.added + d.moved
            && (forall v :: v in d.added <==> v in current && v !in previous)
            && (forall v :: v in d.moved <==> v in current && v in previous && previous[v] != current[v])
            && (forall v :: v in d.removed <==> v in previous && v !in current)
            && (forall v :: v in d.stale <==> v in current && now - current[v].timestamp > staleAfter)
            && d.total == |current|
  {
  }

  /** Nothing is reported exactly when nothing changed. */
  lemma NoChangesIffEqual(previous: Snapshot, current: Snapshot, now: real, staleAfter: real)
    ensures DiffSnapshots(previous, current, now, staleAfter).HasChanges() <==> previous != current
  {
    DiffApplies(previous, current, now, staleAfter);
    var d := DiffSnapshots(previous, current, now, staleAfter);
    if !d.HasChanges() {
      assert Apply(previous, d.changed, d.removed) == previous;
    }
  }

  // ----- runs

  /** A numbered update frame. */
  datatype Update = Update(seqNo: nat, changed: Snapshot, removed: set<VehicleId>)

  /** The update published by the poll that led to snapshot i. */
  function UpdateOf(run: seq<Snapshot>, i: nat): Update
    requires 0 < i < |run|
  {
    var d := DiffSnapshots(run[i - 1], run[i], 0.0, 0.0);
    Update(i, d.changed, d.removed)
  }

  function Receive(s: Snapshot, u: Update): Snapshot {
    Apply(s, u.changed, u.removed)
  }

  /** Receiving updates k+1..n in order. */
  function Replay(s: Snapshot, run: seq<Snapshot>, k: nat, n: nat): Snapshot
    requires k <= n < |run|
  {
    if n == k then s else Receive(Replay(s, run, k, n - 1), UpdateOf(run, n))
  }

  /** What update i does to one vehicle: overwrite it with its new state, or leave it when that did not change. */
  lemma ReceiveOne(s: Snapshot, run: seq<Snapshot>, i: nat, v: VehicleId)
    requires 0 < i < |run|
    ensures Lookup(Receive(s, UpdateOf(run, i)), v)
         == if Lookup(run[i - 1], v) == Lookup(run[i], v) then Lookup(s, v) else Lookup(run[i], v)
  {
  }

  ghost predicate Untouched(run: seq<Snapshot>, k: nat, n: nat, v: VehicleId)
    requires n < |run|
  {
    forall i :: k < i <= n ==> Lookup(run[i - 1], v) == Lookup(run[i], v)
  }

  /** A vehicle touched since k is up to date; an untouched one is as it was at the start of the replay. */
  lemma {:induction false} ReplayOne(s: Snapshot, run: seq<Snapshot>, k: nat, n: nat, v: VehicleId)
    requires k <= n < |run|
    ensures Lookup(Replay(s, run, k, n), v) == if Untouched(run, k, n, v) then Lookup(s, v) else Lookup(run[n], v)
  {
    hide Receive, UpdateOf, Lookup;
    if n > k {
      ReplayOne(s, run, k, n - 1, v);
      ReceiveOne(Replay(s, run, k, n - 1), run, n, v);
      if Untouched(run, k, n, v) {
        assert Untouched(run, k, n - 1, v);
      } else if Lookup(run[n - 1], v) == Lookup(run[n], v) {
        assert !Untouched(run, k, n - 1, v);
      }
    }
  }

  lemma {:induction false} UntouchedIsConstant(run: seq<Snapshot>, k: nat, n: nat, i: nat, v: VehicleId)
    requires k <= i <= n < |run| && Untouched(run, k, n, v)
    ensures Lookup(run[i], v) == Lookup(run[n], v)
    decreases n - i
  {
    if i < n {
      UntouchedIsConstant(run, k, n, i + 1, v);
    }
  }

  lemma SameLookups(a: Snapshot, b: Snapshot)
    requires forall v :: Lookup(a, v) == Lookup(b, v)
    ensures a == b
  {
    assert forall v :: v in a <==> Lookup(a, v).Some?;
    assert forall v :: v in b <==> Lookup(b, v).Some?;
    forall v | v in a ensures v in b && a[v] == b[v] {
      assert Lookup(a, v) == Lookup(b, v);
    }
  }

  /**
  Convergence: receiving updates k+1..n on top of any snapshot m with k <= m <= n gives snapshot n.
  Replaying from too old a tag is harmless.
  */
  lemma Convergence(run: seq<Snapshot>, k: nat, m: nat, n: nat)
    requires k <= m <= n < |run|
    ensures Replay(run[m], run, k, n) == run[n]
  {
    forall v ensures Lookup(Replay(run[m], run, k, n), v) == Lookup(run[n], v) {
      ReplayOne(run[m], run, k, n, v);
      if Untouched(run, k, n, v) {
        UntouchedIsConstant(run, k, n, m, v);
      }
    }
    SameLookups(Replay(run[m], run, k, n), run[n]);
  }

  /**
  The exact price of missed updates: a client at snapshot m that only receives updates k+1..n converges if
  and only if every vehicle that differed between m and k changes again after k. (For m >= k it always does.)
  */
  lemma GapHealsIff(run: seq<Snapshot>, m: nat, k: nat, n: nat)
    requires m <= n < |run| && k <= n
    ensures Replay(run[m], run, k, n) == run[n]
       <==> forall v {:trigger Lookup(run[k], v)} :: Lookup(run[m], v) != Lookup(run[k], v) ==> !Untouched(run, k, n, v)
  {
    var last := Replay(run[m], run, k, n);
    forall v
      ensures Lookup(last, v) == Lookup(run[n], v)
         <==> (Lookup(run[m], v) != Lookup(run[k], v) ==> !Untouched(run, k, n, v))
    {
      ReplayOne(run[m], run, k, n, v);
      if Untouched(run, k, n, v) {
        UntouchedIsConstant(run, k, n, k, v);
      }
    }
    if forall v {:trigger Lookup(run[k], v)} :: Lookup(run[m], v) != Lookup(run[k], v) ==> !Untouched(run, k, n, v) {
      forall v ensures Lookup(last, v) == Lookup(run[n], v) {
        assert Lookup(run[k], v) == Lookup(run[k], v);
      }
      SameLookups(last, run[n]);
    }
  }

  lemma SameUpdate(run: seq<Snapshot>, longer: seq<Snapshot>, i: nat)
    requires 0 < i < |run| && run <= longer
    ensures UpdateOf(run, i) == UpdateOf(longer, i)
  {
    hide DiffSnapshots;
    assert run[i] == longer[i] && run[i - 1] == longer[i - 1];
  }

  /** Later polls do not change what an earlier replay gives. */
  lemma {:induction false} ReplayOfPrefix(s: Snapshot, run: seq<Snapshot>, longer: seq<Snapshot>, k: nat, n: nat)
    requires k <= n < |run| && run <= longer
    ensures Replay(s, run, k, n) == Replay(s, longer, k, n)
  {
    hide UpdateOf, Receive;
    if n > k {
      ReplayOfPrefix(s, run, longer, k, n - 1);
      SameUpdate(run, longer, n);
    }
  }
}
