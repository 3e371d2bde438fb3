/**
The live pipeline as a state machine: the polling engine, the update stream, the hub of one API replica and
any number of clients that connect, lose their connection and come back with their last sequence number.

A step is allowed under the hypotheses of the protocol: a poll cycle is one step and leaves the stream an exact
record (RealtimeEngine.FailureRecordedIff says which failures do); the hub's queue has room for what the stream
delivers; the tag of a snapshot frame is not newer than its contents; no broadcast falls between a client's first
frames and its registration, so connecting is one step. Snapshots.GapHealsIff says exactly what missed updates cost,
and the last part of this module what a dropped one does.
*/
module LiveSystem {
  import opened Common
  import opened Snapshots
  import opened RealtimeEngine
  import opened LiveHub

  type ClientId = nat

  datatype Client = Client(state: Snapshot, lastSeq: Option<nat>, connected: bool)

  datatype World = World(engine: EngineState, feed: seq<Update>, hub: HubState<Update>, clients: map<ClientId, Client>)

  datatype Step =
    | Poll(current: Snapshot, fault: Fault)
    | Submit
    | Consume(lost: set<ClientId>)
    | Connect(c: ClientId, tag: nat)
    | Disconnect(c: ClientId)
    | Restart

  function ReceiveAll(s: Snapshot, us: seq<Update>): Snapshot {
    if us == [] then s else Receive(ReceiveAll(s, us[..|us| - 1]), us[|us| - 1])
  }

  function Knows(w: World, c: ClientId): Client {
    if c in w.clients then w.clients[c] else Client(map[], None, false)
  }

  /** The (re)connect handler: replay what was missed if it is still buffered, else send a full snapshot. */
  function Connected(w: World, client: Client, tag: nat): Client {
    var replay := if client.lastSeq.Some? then SinceOf(w.hub.buffer, client.lastSeq.value) else None;
    match replay
    case Some(us) =>
      Client(ReceiveAll(client.state, us), if us == [] then client.lastSeq else Some(us[|us| - 1].seqNo), true)
    case None => Client(w.engine.store, Some(tag), true)
  }

  function Broadcast(client: Client, u: Update, lost: bool): Client {
    if !client.connected then client
    else if lost then client.(connected := false)
    else Client(Receive(client.state, u), Some(u.seqNo), true)
  }

  /** What the code can do at all. */
  predicate Possible(w: World, step: Step) {
    match step
    case Poll(_, _) => true
    case Submit => w.feed != []
    case Consume(_) => w.hub.queue != []
    case Connect(c, _) => !Knows(w, c).connected
    case Disconnect(_) => true
    case Restart => true
  }

  /** The hypotheses of the protocol. */
  predicate Allowed(w: World, step: Step) {
    && Possible(w, step)
    && (match step
        case Poll(current, fault) => Harmless(w.engine, current, fault)
        case Submit => w.hub.HasRoom()
        case Consume(_) => true
        case Connect(_, tag) => tag <= w.engine.sequence
        case Disconnect(_) => true
        case Restart => true)
  }

  function Next(w: World, step: Step): World
    requires Possible(w, step)
  {
    match step
    case Poll(current, fault) =>
      var e := Polled(w.engine, current, fault);
      w.(engine := e, feed := w.feed + (if |e.stream| > |w.engine.stream| then e.stream[|w.engine.stream|..] else []))
    case Submit => w.(feed := w.feed[1..], hub := w.hub.Enqueued(w.feed[0]))
    case Consume(lost) =>
      var u := w.hub.queue[0];
      w.(hub := w.hub.Consumed(Some(u.seqNo)),
         clients := map c | c in w.clients :: Broadcast(w.clients[c], u, c in lost))
    case Connect(c, tag) => w.(clients := w.clients[c := Connected(w, Knows(w, c), tag)])
    case Disconnect(c) => w.(clients := w.clients[c := Knows(w, c).(connected := false)])
    case Restart => // a replica starts reading the stream from now, with nothing buffered and nobody connected
      w.(feed := [], hub := HubState([], w.hub.maxQueue, [], w.hub.maxSize),
         clients := map c | c in w.clients :: w.clients[c].(connected := false))
  }

  // ----- the invariant

  /** The state some snapshot m reaches by receiving updates k+1..j, for k <= j and k <= m. */
  ghost predicate OnTrack(run: seq<Snapshot>, state: Snapshot, j: nat) {
    j < |run| && exists k: nat, m: nat :: Drifts(run, state, k, m, j)
  }

  ghost predicate Drifts(run: seq<Snapshot>, state: Snapshot, k: nat, m: nat, j: nat)
    requires j < |run|
  {
    k <= j && k <= m < |run| && state == Replay(run[m], run, k, j)
  }

  /** A last-seen number is honest: the client is on track there, or holds a snapshot at least that new. */
  ghost predicate Tagged(run: seq<Snapshot>, state: Snapshot, last: nat, b: nat) {
    (last <= b && OnTrack(run, state, last)) || exists m :: last <= m < |run| && state == run[m]
  }

  ghost predicate ClientOk(run: seq<Snapshot>, client: Client, b: nat) {
    && (client.connected ==> OnTrack(run, client.state, b))
    && (client.lastSeq.Some? ==> Tagged(run, client.state, client.lastSeq.value, b))
  }

  /** `us` are the updates after b, in order. */
  ghost predicate UpdatesAfter(run: seq<Snapshot>, b: nat, us: seq<Update>) {
    && b + |us| < |run|
    && (forall i {:trigger us[i]} :: 0 <= i < |us| ==> us[i] == UpdateOf(run, b + 1 + i))
  }

  /** The buffer holds the last updates up to b under their numbers. */
  ghost predicate BufferOk(run: seq<Snapshot>, b: nat, buffer: seq<(int, Update)>) {
    && |buffer| <= b < |run|
    && (forall i {:trigger buffer[i]} :: 0 <= i < |buffer| ==>
          var n := b - |buffer| + 1 + i; buffer[i] == (n, UpdateOf(run, n)))
  }

  /** The hub has processed the updates up to b; the rest are queued or in flight, none missing. */
  ghost predicate Inv(w: World, run: seq<Snapshot>, b: nat) {
    && Recorded(w.engine, run) && b < |run|
    && UpdatesAfter(run, b, w.hub.queue + w.feed) && b + |w.hub.queue| + |w.feed| == w.engine.sequence
    && BufferOk(run, b, w.hub.buffer)
    && (forall c :: c in w.clients ==> ClientOk(run, w.clients[c], b))
  }

  // ----- facts about tracks

  lemma SnapshotOnTrack(run: seq<Snapshot>, m: nat, j: nat)
    requires j <= m < |run|
    ensures OnTrack(run, run[m], j)
  {
    assert Drifts(run, run[m], j, m, j);
  }

  lemma OnTrackReceives(run: seq<Snapshot>, state: Snapshot, j: nat)
    requires OnTrack(run, state, j) && j + 1 < |run|
    ensures OnTrack(run, Receive(state, UpdateOf(run, j + 1)), j + 1)
  {
    hide Receive, UpdateOf;
    var k: nat, m: nat :| Drifts(run, state, k, m, j);
    assert Drifts(run, Receive(state, UpdateOf(run, j + 1)), k, m, j + 1);
  }

  lemma {:induction false} OnTrackReceivesAll(run: seq<Snapshot>, state: Snapshot, j: nat, us: seq<Update>)
    requires OnTrack(run, state, j) && UpdatesAfter(run, j, us)
    ensures OnTrack(run, ReceiveAll(state, us), j + |us|)
  {
    hide Receive, UpdateOf, OnTrack;
    if us != [] {
      var n := |us| - 1;
      assert forall i :: 0 <= i < n ==> us[..n][i] == us[i];
      OnTrackReceivesAll(run, state, j, us[..n]);
      OnTrackReceives(run, ReceiveAll(state, us[..n]), j + n);
      assert us[n] == UpdateOf(run, j + 1 + n);
    }
  }

  lemma OnTrackLater(run: seq<Snapshot>, longer: seq<Snapshot>, state: Snapshot, j: nat)
    requires OnTrack(run, state, j) && run <= longer
    ensures OnTrack(longer, state, j)
  {
    hide Replay;
    var k: nat, m: nat :| Drifts(run, state, k, m, j);
    ReplayOfPrefix(run[m], run, longer, k, j);
    assert run[m] == longer[m];
    assert Drifts(longer, state, k, m, j);
  }

  lemma ClientOkLater(run: seq<Snapshot>, longer: seq<Snapshot>, client: Client, b: nat, b': nat)
    requires ClientOk(run, client, b) && run <= longer && b <= b'
    requires client.connected ==> b == b'
    ensures ClientOk(longer, client, b')
  {
    hide OnTrack;
    if client.connected {
      OnTrackLater(run, longer, client.state, b);
    }
    if client.lastSeq.Some? {
      var last := client.lastSeq.value;
      if last <= b && OnTrack(run, client.state, last) {
        OnTrackLater(run, longer, client.state, last);
      } else {
        var m :| last <= m < |run| && client.state == run[m];
        assert longer[m] == run[m];
      }
    }
  }

  /** Whatever frames a (re)connecting client is sent, it ends on track where the hub is. */
  lemma ConnectOk(w: World, run: seq<Snapshot>, b: nat, client: Client, tag: nat)
    requires Inv(w, run, b) && ClientOk(run, client, b) && tag <= w.engine.sequence
    ensures ClientOk(run, Connected(w, client, tag), b)
  {
    hide OnTrack, UpdateOf, ReceiveAll, ClientOk, Recorded;
    assert Recorded(w.engine, run);
    StoreIsLast(w.engine, run);
    var replay := if client.lastSeq.Some? then SinceOf(w.hub.buffer, client.lastSeq.value) else None;
    if replay.None? {
      SnapshotOnTrack(run, w.engine.sequence, b);
      SnapshotClientOk(run, w.engine.sequence, tag, b);
    } else {
      ReplayOk(run, b, w.hub.buffer, client, replay.value);
    }
  }

  lemma StoreIsLast(e: EngineState, run: seq<Snapshot>)
    requires Recorded(e, run)
    ensures e.sequence < |run| && e.store == run[e.sequence]
  {
  }

  lemma SnapshotClientOk(run: seq<Snapshot>, n: nat, tag: nat, b: nat)
    requires b <= n < |run| && tag <= n && OnTrack(run, run[n], b)
    ensures ClientOk(run, Client(run[n], Some(tag), true), b)
  {
  }

  lemma ReplayOk(run: seq<Snapshot>, b: nat, buffer: seq<(int, Update)>, client: Client, us: seq<Update>)
    requires BufferOk(run, b, buffer) && ClientOk(run, client, b)
    requires client.lastSeq.Some? && SinceOf(buffer, client.lastSeq.value) == Some(us)
    ensures var last := if us == [] then client.lastSeq else Some(us[|us| - 1].seqNo);
            ClientOk(run, Client(ReceiveAll(client.state, us), last, true), b)
  {
    hide OnTrack, UpdateOf;
    var last := client.lastSeq.value;
    var from := if last < b then last else b;
    if !(last <= b && OnTrack(run, client.state, last)) {
      var m :| last <= m < |run| && client.state == run[m];
      SnapshotOnTrack(run, m, from);
    }
    assert OnTrack(run, client.state, from);
    ReplayedUpdates(run, b, buffer, last, us);
    OnTrackReceivesAll(run, client.state, from, us);
    if us != [] {
      assert us[|us| - 1] == UpdateOf(run, b);
      NumberOfUpdate(run, b);
    }
  }

  lemma NumberOfUpdate(run: seq<Snapshot>, i: nat)
    requires 0 < i < |run|
    ensures UpdateOf(run, i).seqNo == i
  {
  }

  lemma ReplayedUpdates(run: seq<Snapshot>, b: nat, buffer: seq<(int, Update)>, last: nat, us: seq<Update>)
    requires BufferOk(run, b, buffer) && SinceOf(buffer, last) == Some(us)
    ensures |us| == Max(b - last, 0) && UpdatesAfter(run, if last < b then last else b, us)
  {
    hide UpdateOf, MessagesAfter;
    assert Consecutive(buffer) by {
      assert buffer[0].0 == b - |buffer| + 1;
      assert forall i :: 0 <= i < |buffer| ==> buffer[i].0 == b - |buffer| + 1 + i;
    }
    assert buffer[|buffer| - 1].0 == b;
    assert buffer[|buffer| - |buffer|..] == buffer;
    SinceSome(buffer, buffer, last);
    var missing := Max(b - last, 0);
    var tail := buffer[|buffer| - missing..];
    assert us == Payloads(tail);
    forall i {:trigger us[i]} | 0 <= i < |us|
      ensures us[i] == UpdateOf(run, b - missing + 1 + i)
    {
      assert us[i] == tail[i].1 == buffer[|buffer| - missing + i].1;
    }
  }

  // ----- every step keeps the invariant

  lemma PollKeeps(w: World, run: seq<Snapshot>, b: nat, step: Step) returns (run': seq<Snapshot>)
    requires Inv(w, run, b) && step.Poll? && Allowed(w, step)
    ensures run <= run' && Inv(Next(w, step), run', b)
  {
    hide UpdateOf, ClientOk, Polled, Succeeds, Publishes, Harmless;
    if Publishes(w.engine, step.current, step.fault) {
      run' := run + [step.current];
      var v := Next(w, step);
      SuccessRecorded(w.engine, run, step.current, step.fault);
      var pending, longer := w.hub.queue + w.feed, v.hub.queue + v.feed;
      assert v.engine.stream[|w.engine.stream|..] == [UpdateOf(run', |run|)];
      assert longer == pending + [UpdateOf(run', |run|)];
      UpdatesLater(run, run', b, pending);
      assert UpdatesAfter(run', b, longer) by {
        assert b + 1 + |pending| == |run|;
      }
      BufferLater(run, run', b, w.hub.buffer);
      forall c | c in v.clients ensures ClientOk(run', v.clients[c], b) {
        ClientOkLater(run, run', w.clients[c], b, b);
      }
    } else {
      run' := run;
      HarmlessCycle(w.engine, step.current, step.fault);
      assert Next(w, step).feed == w.feed;
    }
  }

  lemma UpdatesLater(run: seq<Snapshot>, longer: seq<Snapshot>, b: nat, us: seq<Update>)
    requires UpdatesAfter(run, b, us) && run <= longer
    ensures UpdatesAfter(longer, b, us)
  {
    hide UpdateOf;
    forall i {:trigger us[i]} | 0 <= i < |us| ensures us[i] == UpdateOf(longer, b + 1 + i) {
      SameUpdate(run, longer, b + 1 + i);
    }
  }

  lemma BufferLater(run: seq<Snapshot>, longer: seq<Snapshot>, b: nat, buffer: seq<(int, Update)>)
    requires BufferOk(run, b, buffer) && run <= longer
    ensures BufferOk(longer, b, buffer)
  {
    hide UpdateOf;
    forall i {:trigger buffer[i]} | 0 <= i < |buffer|
      ensures var n := b - |buffer| + 1 + i; buffer[i] == (n, UpdateOf(longer, n))
    {
      SameUpdate(run, longer, b - |buffer| + 1 + i);
    }
  }

  lemma ConsumeKeeps(w: World, run: seq<Snapshot>, b: nat, step: Step)
    requires Inv(w, run, b) && step.Consume? && Allowed(w, step)
    ensures Inv(Next(w, step), run, b + 1)
  {
    hide UpdateOf, ClientOk, Receive, Recorded;
    var v, u := Next(w, step), w.hub.queue[0];
    var pending := w.hub.queue + w.feed;
    assert pending[0] == u == UpdateOf(run, b + 1);
    NumberOfUpdate(run, b + 1);
    assert v.hub.queue + v.feed == pending[1..];
    assert forall i :: 0 <= i < |pending| - 1 ==> pending[1..][i] == pending[i + 1];
    assert UpdatesAfter(run, b + 1, v.hub.queue + v.feed);
    assert BufferOk(run, b + 1, v.hub.buffer);
    forall c | c in v.clients ensures ClientOk(run, v.clients[c], b + 1) {
      BroadcastOk(run, w.clients[c], b, c in step.lost);
    }
  }

  lemma BroadcastOk(run: seq<Snapshot>, client: Client, b: nat, lost: bool)
    requires ClientOk(run, client, b) && b + 1 < |run|
    ensures ClientOk(run, Broadcast(client, UpdateOf(run, b + 1), lost), b + 1)
  {
    hide OnTrack, Receive, UpdateOf;
    if client.connected && !lost {
      OnTrackReceives(run, client.state, b);
      NumberOfUpdate(run, b + 1);
    } else {
      ClientOkLater(run, run, client.(connected := false), b, b + 1);
    }
  }

  lemma SubmitKeeps(w: World, run: seq<Snapshot>, b: nat, step: Step)
    requires Inv(w, run, b) && step.Submit? && Allowed(w, step)
    ensures Inv(Next(w, step), run, b)
  {
    hide UpdateOf, ClientOk, Recorded;
    var v := Next(w, step);
    assert v.hub.queue + v.feed == w.hub.queue + w.feed;
  }

  lemma ConnectionKeeps(w: World, run: seq<Snapshot>, b: nat, step: Step)
    requires Inv(w, run, b) && (step.Connect? || step.Disconnect?) && Allowed(w, step)
    ensures Inv(Next(w, step), run, b)
  {
    hide ClientOk, Recorded, UpdatesAfter, BufferOk, Connected;
    var client := Knows(w, step.c);
    UnknownClientOk(run, b);
    assert ClientOk(run, client, b);
    if step.Connect? {
      ConnectOk(w, run, b, client, step.tag);
    } else {
      DisconnectedOk(run, client, b);
    }
  }

  lemma UnknownClientOk(run: seq<Snapshot>, b: nat)
    ensures ClientOk(run, Client(map[], None, false), b)
  {
  }

  lemma DisconnectedOk(run: seq<Snapshot>, client: Client, b: nat)
    requires ClientOk(run, client, b)
    ensures ClientOk(run, client.(connected := false), b)
  {
  }

  lemma RestartKeeps(w: World, run: seq<Snapshot>, b: nat, step: Step)
    requires Inv(w, run, b) && step.Restart?
    ensures Inv(Next(w, step), run, w.engine.sequence)
  {
    hide ClientOk;
    var v := Next(w, step);
    forall c | c in v.clients ensures ClientOk(run, v.clients[c], w.engine.sequence) {
      DisconnectedOk(run, w.clients[c], b);
      ClientOkLater(run, run, v.clients[c], b, w.engine.sequence);
    }
  }

  lemma StepKeeps(w: World, run: seq<Snapshot>, b: nat, step: Step) returns (run': seq<Snapshot>, b': nat)
    requires Inv(w, run, b) && Allowed(w, step)
    ensures run <= run' && Inv(Next(w, step), run', b')
  {
    hide *;
    run', b' := run, b;
    match step
    case Poll(_, _) => run' := PollKeeps(w, run, b, step);
    case Submit => SubmitKeeps(w, run, b, step);
    case Consume(_) => ConsumeKeeps(w, run, b, step); b' := b + 1;
    case Connect(_, _) => ConnectionKeeps(w, run, b, step);
    case Disconnect(_) => ConnectionKeeps(w, run, b, step);
    case Restart => RestartKeeps(w, run, b, step); b' := w.engine.sequence;
  }

  // ----- whole runs

  function Start(maxQueue: int, maxSize: nat): World {
    World(EngineState(map[], 0, []), [], HubState([], maxQueue, [], maxSize), map[])
  }

  /** A sequence of possible steps from w. */
  predicate Runs(w: World, steps: seq<Step>)
    decreases |steps|
  {
    steps == [] || (Possible(w, steps[0]) && Runs(Next(w, steps[0]), steps[1..]))
  }

  /** Every step of a run keeps to the hypotheses. */
  predicate Faithful(w: World, steps: seq<Step>)
    requires Runs(w, steps)
    decreases |steps|
  {
    steps == [] || (Allowed(w, steps[0]) && Faithful(Next(w, steps[0]), steps[1..]))
  }

  function After(w: World, steps: seq<Step>): World
    requires Runs(w, steps)
    decreases |steps|
  {
    if steps == [] then w else After(Next(w, steps[0]), steps[1..])
  }

  lemma {:induction false} RunKeeps(w: World, steps: seq<Step>, run: seq<Snapshot>, b: nat)
      returns (run': seq<Snapshot>, b': nat)
    requires Inv(w, run, b) && Runs(w, steps) && Faithful(w, steps)
    ensures Inv(After(w, steps), run', b')
    decreases |steps|
  {
    hide Inv, Next, Allowed, Possible;
    if steps == [] {
      run', b' := run, b;
    } else {
      var r, c := StepKeeps(w, run, b, steps[0]);
      run', b' := RunKeeps(Next(w, steps[0]), steps[1..], r, c);
    }
  }

  /** Once nothing is in flight, every connected client shows the store. */
  lemma DrainedClientsAgree(w: World, run: seq<Snapshot>, b: nat, c: ClientId)
    requires Inv(w, run, b) && w.feed == [] && w.hub.queue == []
    requires c in w.clients && w.clients[c].connected
    ensures w.clients[c].state == w.engine.store
  {
    hide Replay;
    assert ClientOk(run, w.clients[c], b);
    var k: nat, m: nat :| Drifts(run, w.clients[c].state, k, m, b);
    Convergence(run, k, m, b);
  }

  /**
  Safety over whole runs: however polls, deliveries, broadcasts, lost connections, reconnects, evictions from the
  replay buffer and replica restarts interleave, a connected client equals the store whenever nothing is in flight.
  */
  lemma LiveClientsConverge(maxQueue: int, maxSize: nat, steps: seq<Step>, c: ClientId)
    requires Runs(Start(maxQueue, maxSize), steps) && Faithful(Start(maxQueue, maxSize), steps)
    requires var w := After(Start(maxQueue, maxSize), steps);
             w.feed == [] && w.hub.queue == [] && c in w.clients && w.clients[c].connected
    ensures var w := After(Start(maxQueue, maxSize), steps); w.clients[c].state == w.engine.store
  {
    hide Runs, Faithful, After;
    var w := Start(maxQueue, maxSize);
    assert Inv(w, [map[]], 0);
    var run, b := RunKeeps(w, steps, [map[]], 0);
    DrainedClientsAgree(After(w, steps), run, b, c);
  }

  // ----- what a full queue costs

  /** Updates lo+1..hi under their numbers. */
  function Numbered(run: seq<Snapshot>, lo: nat, hi: nat): (r: seq<(int, Update)>)
    requires lo <= hi < |run|
    ensures |r| == hi - lo
  {
    if hi == lo then [] else Numbered(run, lo, hi - 1) + [(hi, UpdateOf(run, hi))]
  }

  lemma {:induction false} NumberedAt(run: seq<Snapshot>, lo: nat, hi: nat, i: nat)
    requires lo <= hi < |run| && i < hi - lo
    ensures Numbered(run, lo, hi)[i] == (lo + 1 + i, UpdateOf(run, lo + 1 + i))
  {
    hide UpdateOf;
    if i < hi - lo - 1 { NumberedAt(run, lo, hi - 1, i); }
  }

  lemma {:induction false} AfterConcat(s: seq<(int, Update)>, t: seq<(int, Update)>, last: int)
    ensures MessagesAfter(s + t, last) == MessagesAfter(s, last) + MessagesAfter(t, last)
  {
    if s == [] {
      assert s + t == t;
    } else {
      assert (s + t)[1..] == s[1..] + t;
      AfterConcat(s[1..], t, last);
    }
  }

  lemma {:induction false} ReceiveConcat(s: Snapshot, us: seq<Update>, vs: seq<Update>)
    ensures ReceiveAll(s, us + vs) == ReceiveAll(ReceiveAll(s, us), vs)
  {
    hide Receive;
    if vs == [] {
      assert us + vs == us;
    } else {
      assert (us + vs)[..|us + vs| - 1] == us + vs[..|vs| - 1];
      ReceiveConcat(s, us, vs[..|vs| - 1]);
    }
  }

  /** A client that saw update k and receives the buffered updates after it replays them. */
  lemma {:induction false} NumberedReplays(run: seq<Snapshot>, state: Snapshot, lo: nat, hi: nat, k: nat)
    requires lo <= hi < |run|
    ensures k >= hi ==> MessagesAfter(Numbered(run, lo, hi), k) == []
    ensures k <= hi ==> ReceiveAll(state, MessagesAfter(Numbered(run, lo, hi), k)) == Replay(state, run, Max(k, lo), hi)
  {
    hide UpdateOf, Receive, MessagesAfter;
    if lo == hi {
      NothingNumbered(run, lo, k);
    } else {
      NumberedReplays(run, state, lo, hi - 1, k);
      AfterOneMore(run, lo, hi, k);
      hide Numbered;
      if k < hi {
        ReceiveOneMore(state, MessagesAfter(Numbered(run, lo, hi - 1), k), UpdateOf(run, hi));
      }
    }
  }

  lemma NothingNumbered(run: seq<Snapshot>, lo: nat, k: nat)
    requires lo < |run|
    ensures MessagesAfter(Numbered(run, lo, lo), k) == []
  {
  }

  lemma AfterOneMore(run: seq<Snapshot>, lo: nat, hi: nat, k: nat)
    requires lo < hi < |run|
    ensures MessagesAfter(Numbered(run, lo, hi), k)
         == MessagesAfter(Numbered(run, lo, hi - 1), k) + if k < hi then [UpdateOf(run, hi)] else []
  {
    hide UpdateOf;
    AfterConcat(Numbered(run, lo, hi - 1), [(hi, UpdateOf(run, hi))], k);
    OnlyAfter(hi, UpdateOf(run, hi), k);
    hide MessagesAfter;
  }

  lemma OnlyAfter(number: int, u: Update, last: int)
    ensures MessagesAfter([(number, u)], last) == if number > last then [u] else []
  {
  }

  lemma ReceiveOneMore(s: Snapshot, us: seq<Update>, u: Update)
    ensures ReceiveAll(s, us + [u]) == Receive(ReceiveAll(s, us), u)
  {
    assert (us + [u])[..|us|] == us;
  }

  /** The buffer of a hub that processed updates lo+1..n but dropped update d. */
  function WithoutUpdate(run: seq<Snapshot>, lo: nat, d: nat, n: nat): seq<(int, Update)>
    requires lo < d <= n < |run|
  {
    Numbered(run, lo, d - 1) + Numbered(run, d, n)
  }

  /** Every vehicle that update d changed changes again in d+1..n. */
  ghost predicate Overwritten(run: seq<Snapshot>, d: nat, n: nat) {
    && 0 < d <= n < |run|
    && forall v {:trigger Lookup(run[d], v)} ::
         Lookup(run[d - 1], v) != Lookup(run[d], v) ==> !Untouched(run, d, n, v)
  }

  /**
  Update d was dropped, older updates are still buffered, and a client that saw update k < d and holds a snapshot m
  with k <= m < d comes back. It is told that the gap cannot be bridged exactly when an update before d is missing too.
  Otherwise it is answered as if nothing were missing, and converges if and only if every vehicle that update d changed
  changes again; with d the newest update, that is if and only if d changed nothing.
  */
  lemma DroppedUpdateHealsIff(run: seq<Snapshot>, lo: nat, d: nat, n: nat, k: nat, m: nat)
    requires lo + 1 < d <= n < |run| && k <= m < d
    ensures var answer := SinceOf(WithoutUpdate(run, lo, d, n), k);
            && (answer.Some? <==> lo <= k)
            && (answer.Some? ==> (ReceiveAll(run[m], answer.value) == run[n] <==> Overwritten(run, d, n)))
  {
    hide UpdateOf, Receive, ReceiveAll, Numbered, WithoutUpdate, Untouched, Lookup;
    hide MessagesAfter, Replay, SinceOf, Overwritten;
    AnswerWithout(run, lo, d, n, k);
    if lo <= k {
      var before, after := MessagesAfter(Numbered(run, lo, d - 1), k), MessagesAfter(Numbered(run, d, n), k);
      NumberedReplays(run, run[m], lo, d - 1, k);
      NumberedReplays(run, run[d - 1], d, n, k);
      Convergence(run, k, m, d - 1);
      ReceiveConcat(run[m], before, after);
      HealsWhenOverwritten(run, d, n);
    }
  }

  /** A client that stays connected while update d is dropped converges under the same condition. */
  lemma HealsWhenOverwritten(run: seq<Snapshot>, d: nat, n: nat)
    requires 0 < d <= n < |run|
    ensures Replay(run[d - 1], run, d, n) == run[n] <==> Overwritten(run, d, n)
  {
    hide UpdateOf, Receive, Untouched, Lookup, Replay;
    GapHealsIff(run, d - 1, d, n);
  }

  lemma {:induction false} ReplaySplits(s: Snapshot, run: seq<Snapshot>, a: nat, b: nat, c: nat)
    requires a <= b <= c < |run|
    ensures Replay(Replay(s, run, a, b), run, b, c) == Replay(s, run, a, c)
  {
    hide UpdateOf, Receive;
    if b < c { ReplaySplits(s, run, a, b, c - 1); }
  }

  /**
  A client that was connected while update d was dropped and goes on to see update k >= d, then loses its connection and
  comes back: it is answered without a snapshot, and converges if and only if every vehicle of update d changes again.
  */
  lemma DroppedWhileConnected(run: seq<Snapshot>, lo: nat, d: nat, n: nat, k: nat)
    requires lo < d <= k <= n < |run| && (lo + 1 < d || d < n)
    ensures var answer := SinceOf(WithoutUpdate(run, lo, d, n), k);
            && answer.Some?
            && (ReceiveAll(Replay(run[d - 1], run, d, k), answer.value) == run[n] <==> Overwritten(run, d, n))
  {
    hide UpdateOf, Receive, ReceiveAll, Numbered, Untouched, Lookup, MessagesAfter, Replay, Overwritten;
    LaterAnswer(run, lo, d, n, k);
    NumberedReplays(run, Replay(run[d - 1], run, d, k), d, n, k);
    ReplaySplits(run[d - 1], run, d, k, n);
    HealsWhenOverwritten(run, d, n);
  }

  /** A client past the dropped update is answered from what followed it. */
  lemma LaterAnswer(run: seq<Snapshot>, lo: nat, d: nat, n: nat, k: nat)
    requires lo < d <= k <= n < |run| && (lo + 1 < d || d < n)
    ensures SinceOf(WithoutUpdate(run, lo, d, n), k) == Some(MessagesAfter(Numbered(run, d, n), k))
  {
    hide UpdateOf, MessagesAfter, Numbered;
    var before, after := Numbered(run, lo, d - 1), Numbered(run, d, n);
    if lo + 1 < d {
      NumberedAt(run, lo, d - 1, 0);
      NumberedAt(run, lo, d - 1, d - lo - 2);
    }
    if d < n {
      NumberedAt(run, d, n, 0);
      NumberedAt(run, d, n, n - d - 1);
    }
    NumberedReplays(run, map[], lo, d - 1, k);
    NumberedReplays(run, map[], d, n, k);
    AfterConcat(before, after, k);
    assert [] + MessagesAfter(after, k) == MessagesAfter(after, k);
  }

  /** What the buffer answers. */
  lemma AnswerWithout(run: seq<Snapshot>, lo: nat, d: nat, n: nat, k: nat)
    requires lo + 1 < d <= n < |run| && k < d
    ensures var before, after := MessagesAfter(Numbered(run, lo, d - 1), k), MessagesAfter(Numbered(run, d, n), k);
            SinceOf(WithoutUpdate(run, lo, d, n), k) == if k < lo then None else Some(before + after)
  {
    hide UpdateOf, MessagesAfter, Numbered;
    var before, after := Numbered(run, lo, d - 1), Numbered(run, d, n);
    NumberedAt(run, lo, d - 1, 0);
    NumberedAt(run, lo, d - 1, d - lo - 2);
    if d < n {
      NumberedAt(run, d, n, n - d - 1);
    }
    assert (before + after)[0] == before[0];
    assert (before + after)[|before + after| - 1].0 == if d < n then n else d - 1;
    AfterConcat(before, after, k);
    if d == n && k == d - 1 {
      NumberedReplays(run, map[], lo, d - 1, k);
      NumberedReplays(run, map[], d, n, d);
      assert after == [] && before + after == before;
    }
  }

  /** With no older update buffered, every client that missed the dropped one is sent a snapshot and converges. */
  lemma DroppedFirstIsHealed(w: World, run: seq<Snapshot>, d: nat, n: nat, client: Client, tag: nat)
    requires 0 < d <= n < |run| && w.hub.buffer == WithoutUpdate(run, d - 1, d, n)
    requires client.lastSeq.Some? && client.lastSeq.value < d
    ensures Connected(w, client, tag).state == w.engine.store
  {
    hide UpdateOf;
    assert w.hub.buffer == Numbered(run, d, n);
    if d < n {
      NumberedAt(run, d, n, 0);
      NumberedAt(run, d, n, n - d - 1);
    }
  }

  // ----- and that it happens

  ghost predicate Reaches(w: World, v: World) {
    exists steps :: Runs(w, steps) && After(w, steps) == v
  }

  lemma {:induction false} RunsOn(w: World, steps: seq<Step>, step: Step)
    requires Runs(w, steps) && Possible(After(w, steps), step)
    ensures Runs(w, steps + [step]) && After(w, steps + [step]) == Next(After(w, steps), step)
    decreases |steps|
  {
    hide Next, Possible;
    if steps == [] {
      assert [step][1..] == [];
    } else {
      assert (steps + [step])[1..] == steps[1..] + [step];
      RunsOn(Next(w, steps[0]), steps[1..], step);
    }
  }

  lemma ReachesNext(w: World, v: World, step: Step)
    requires Reaches(w, v) && Possible(v, step)
    ensures Reaches(w, Next(v, step))
  {
    hide Runs, After, Next, Possible;
    var steps :| Runs(w, steps) && After(w, steps) == v;
    RunsOn(w, steps, step);
  }

  /** The engine after publishing updates 1..n. */
  ghost function Published(run: seq<Snapshot>, n: nat): EngineState
    requires n < |run|
  {
    EngineState(run[n], n, seq(n, i requires 0 <= i < n => UpdateOf(run, i + 1)))
  }

  /** A world whose stream has nothing in flight. */
  ghost function Settled(run: seq<Snapshot>, n: nat, hub: HubState<Update>, clients: map<ClientId, Client>): World
    requires n < |run|
  {
    World(Published(run, n), [], hub, clients)
  }

  ghost predicate NobodyConnected(clients: map<ClientId, Client>) {
    forall c :: c in clients ==> !clients[c].connected
  }

  lemma PublishedStream(run: seq<Snapshot>, n: nat)
    requires n + 1 < |run|
    ensures Published(run, n + 1).stream == Published(run, n).stream + [UpdateOf(run, n + 1)]
  {
    hide UpdateOf;
  }

  lemma PublishedNext(run: seq<Snapshot>, n: nat)
    requires n + 1 < |run|
    ensures Polled(Published(run, n), run[n + 1], NoFault) == Published(run, n + 1)
    ensures Published(run, n + 1).stream == Published(run, n).stream + [UpdateOf(run, n + 1)]
  {
    hide DiffSnapshots, Apply;
    DiffApplies(run[n], run[n + 1], 0.0, 0.0);
    PublishedStream(run, n);
    assert UpdateOf(run, n + 1).seqNo == n + 1;
    hide UpdateOf;
  }

  /** A poll and the delivery of its update, which a full queue drops. */
  lemma PollAndSubmit(start: World, run: seq<Snapshot>, n: nat, hub: HubState<Update>, clients: map<ClientId, Client>)
    requires n + 1 < |run| && Reaches(start, Settled(run, n, hub, clients))
    ensures Reaches(start, Settled(run, n + 1, hub.Enqueued(UpdateOf(run, n + 1)), clients))
  {
    hide Reaches, Polled, UpdateOf;
    var w, poll := Settled(run, n, hub, clients), Poll(run[n + 1], NoFault);
    PublishedNext(run, n);
    ReachesNext(start, w, poll);
    var v := Next(w, poll);
    assert v.feed == [UpdateOf(run, n + 1)];
    ReachesNext(start, v, Submit);
    assert v.feed[1..] == [];
  }

  /** The hub takes its oldest update; nobody is there to hear it. */
  lemma ConsumeUnheard(start: World, run: seq<Snapshot>, n: nat, hub: HubState<Update>, clients: map<ClientId, Client>)
    requires n < |run| && hub.queue != [] && NobodyConnected(clients) && Reaches(start, Settled(run, n, hub, clients))
    ensures Reaches(start, Settled(run, n, hub.Consumed(Some(hub.queue[0].seqNo)), clients))
  {
    hide Reaches, UpdateOf;
    var w := Settled(run, n, hub, clients);
    ReachesNext(start, w, Consume({}));
    assert Next(w, Consume({})).clients == clients;
  }

  function UpdatesOf(run: seq<Snapshot>, lo: nat, hi: nat): seq<Update>
    requires lo <= hi < |run|
  {
    Payloads(Numbered(run, lo, hi))
  }

  lemma UpdatesOfNext(run: seq<Snapshot>, lo: nat, hi: nat)
    requires lo <= hi && hi + 1 < |run|
    ensures UpdatesOf(run, lo, hi + 1) == UpdatesOf(run, lo, hi) + [UpdateOf(run, hi + 1)]
  {
    hide UpdateOf;
  }

  /** The hub's state with a buffer that has not been full yet. */
  function HubOf(queue: seq<Update>, maxQueue: int, buffer: seq<(int, Update)>, maxSize: nat): HubState<Update> {
    HubState(queue, maxQueue, buffer, maxSize)
  }

  /** Updates n+1..m arrive one by one and wait in the queue. */
  lemma {:induction false} Fill(start: World, run: seq<Snapshot>, n: nat, m: nat, maxQueue: int,
                                buffer: seq<(int, Update)>, maxSize: nat, clients: map<ClientId, Client>)
    requires n <= m < |run| && m - n <= maxQueue
    requires Reaches(start, Settled(run, n, HubOf([], maxQueue, buffer, maxSize), clients))
    ensures Reaches(start, Settled(run, m, HubOf(UpdatesOf(run, n, m), maxQueue, buffer, maxSize), clients))
  {
    hide Reaches, UpdateOf, Settled;
    if n < m {
      Fill(start, run, n, m - 1, maxQueue, buffer, maxSize, clients);
      var hub := HubOf(UpdatesOf(run, n, m - 1), maxQueue, buffer, maxSize);
      PollAndSubmit(start, run, m - 1, hub, clients);
      UpdatesOfNext(run, n, m - 1);
      assert hub.Enqueued(UpdateOf(run, m)) == HubOf(UpdatesOf(run, n, m), maxQueue, buffer, maxSize);
    } else {
      assert UpdatesOf(run, n, n) == [];
    }
  }

  /** The queued updates lo+1..hi move into the buffer. */
  lemma {:induction false} Drain(start: World, run: seq<Snapshot>, n: nat, lo: nat, mid: nat, hi: nat, maxQueue: int,
                                 buffer: seq<(int, Update)>, maxSize: nat, clients: map<ClientId, Client>)
    requires n < |run| && lo <= mid <= hi < |run| && |buffer| + (hi - lo) <= maxSize && NobodyConnected(clients)
    requires Reaches(start, Settled(run, n, HubOf(UpdatesOf(run, lo, hi), maxQueue, buffer, maxSize), clients))
    ensures var queue, held := UpdatesOf(run, lo, hi)[mid - lo..], buffer + Numbered(run, lo, mid);
            Reaches(start, Settled(run, n, HubOf(queue, maxQueue, held, maxSize), clients))
    decreases mid
  {
    hide Reaches, UpdateOf, Settled, NobodyConnected;
    var us := UpdatesOf(run, lo, hi);
    if lo == mid {
      assert us[0..] == us;
      assert buffer + Numbered(run, lo, lo) == buffer;
    } else {
      Drain(start, run, n, lo, mid - 1, hi, maxQueue, buffer, maxSize, clients);
      var held := buffer + Numbered(run, lo, mid - 1);
      var hub := HubOf(us[mid - 1 - lo..], maxQueue, held, maxSize);
      ConsumeUnheard(start, run, n, hub, clients);
      NumberedAt(run, lo, hi, mid - 1 - lo);
      NumberOfUpdate(run, mid);
      assert hub.queue[0] == UpdateOf(run, mid);
      assert us[mid - 1 - lo..][1..] == us[mid - lo..];
      assert held + [(mid, UpdateOf(run, mid))] == buffer + Numbered(run, lo, mid);
      assert hub.Consumed(Some(mid)) == HubOf(us[mid - lo..], maxQueue, buffer + Numbered(run, lo, mid), maxSize);
    }
  }

  /** Updates n+1..m pass through the queue into the buffer, one by one. */
  lemma {:induction false} Flow(start: World, run: seq<Snapshot>, n: nat, m: nat, maxQueue: int,
                                buffer: seq<(int, Update)>, maxSize: nat, clients: map<ClientId, Client>)
    requires n <= m < |run| && |buffer| + (m - n) <= maxSize && maxQueue >= 1 && NobodyConnected(clients)
    requires Reaches(start, Settled(run, n, HubOf([], maxQueue, buffer, maxSize), clients))
    ensures Reaches(start, Settled(run, m, HubOf([], maxQueue, buffer + Numbered(run, n, m), maxSize), clients))
  {
    hide Reaches, UpdateOf, Settled, NobodyConnected;
    if n == m {
      assert buffer + Numbered(run, n, n) == buffer;
    } else {
      Flow(start, run, n, m - 1, maxQueue, buffer, maxSize, clients);
      var held := buffer + Numbered(run, n, m - 1);
      Fill(start, run, m - 1, m, maxQueue, held, maxSize, clients);
      Drain(start, run, m, m - 1, m, m, maxQueue, held, maxSize, clients);
      assert UpdatesOf(run, m - 1, m)[1..] == [];
      assert held + Numbered(run, m - 1, m) == buffer + Numbered(run, n, m) by {
        assert Numbered(run, m - 1, m - 1) == [];
      }
    }
  }

  /**
  It happens: for every sequence of snapshots and every bound on the queue, the pipeline can drop update d and still
  deliver all others, the client that came to update k in the meantime can reconnect, and with nothing in flight it
  shows the store if and only if every vehicle that update d changed changes again.
  */
  lemma DropHappens(run: seq<Snapshot>, maxQueue: int, maxSize: nat, k: nat, d: nat, n: nat, c: ClientId)
    requires run != [] && run[0] == map[] && 1 <= maxQueue && k + maxQueue < d <= n < |run| && n <= maxSize
    ensures exists w: World ::
              && Reaches(Start(maxQueue, maxSize), w) && w.feed == [] && w.hub.queue == [] && w.engine.store == run[n]
              && c in w.clients && w.clients[c].connected
              && (w.clients[c].state == w.engine.store <==> Overwritten(run, d, n))
  {
    hide Reaches, UpdateOf, Overwritten;
    var start, a := Start(maxQueue, maxSize), d - 1 - maxQueue;
    assert Settled(run, 0, HubOf([], maxQueue, [], maxSize), map[]) == start;
    ReachesSelf(start);
    Flow(start, run, 0, k, maxQueue, [], maxSize, map[]);
    var clients := map[c := Client(run[k], Some(k), false)];
    Visit(start, run, k, HubOf([], maxQueue, [] + Numbered(run, 0, k), maxSize), c);
    Flow(start, run, k, a, maxQueue, [] + Numbered(run, 0, k), maxSize, clients);
    NumberedJoin(run, 0, k, a);
    assert [] + Numbered(run, 0, k) + Numbered(run, k, a) == Numbered(run, 0, a);
    Overflow(start, run, a, d, maxQueue, Numbered(run, 0, a), maxSize, clients);
    NumberedJoin(run, 0, a, d - 1);
    Flow(start, run, d, n, maxQueue, Numbered(run, 0, d - 1), maxSize, clients);
    Return(start, run, k, d, n, HubOf([], maxQueue, WithoutUpdate(run, 0, d, n), maxSize), clients, c);
  }

  /** The smallest loss: the first vehicle ever seen appears in an update that a full queue drops. */
  lemma DroppingLosesVehicle(maxQueue: int, maxSize: nat, v: VehicleId, p: Position, c: ClientId)
    requires 1 <= maxQueue < maxSize
    ensures exists w: World ::
              && Reaches(Start(maxQueue, maxSize), w) && w.feed == [] && w.hub.queue == []
              && c in w.clients && w.clients[c].connected && w.clients[c].state != w.engine.store
  {
    hide Reaches;
    var d := maxQueue + 1;
    var run: seq<Snapshot> := seq(d + 1, i => if i < d then map[] else map[v := p]);
    assert !Overwritten(run, d, d) by {
      assert Lookup(run[d - 1], v) != Lookup(run[d], v) && Untouched(run, d, d, v);
    }
    DropHappens(run, maxQueue, maxSize, 0, d, d, c);
  }

  lemma ReachesSelf(w: World)
    ensures Reaches(w, w)
  {
    assert Runs(w, []) && After(w, []) == w;
  }

  lemma {:induction false} NumberedJoin(run: seq<Snapshot>, lo: nat, mid: nat, hi: nat)
    requires lo <= mid <= hi < |run|
    ensures Numbered(run, lo, mid) + Numbered(run, mid, hi) == Numbered(run, lo, hi)
  {
    hide UpdateOf;
    if mid < hi { NumberedJoin(run, lo, mid, hi - 1); }
  }

  /** A new client comes, is sent snapshot k, and goes. */
  lemma Visit(start: World, run: seq<Snapshot>, k: nat, hub: HubState<Update>, c: ClientId)
    requires k < |run| && Reaches(start, Settled(run, k, hub, map[]))
    ensures Reaches(start, Settled(run, k, hub, map[c := Client(run[k], Some(k), false)]))
  {
    hide Reaches, UpdateOf;
    var w := Settled(run, k, hub, map[]);
    ReachesNext(start, w, Connect(c, k));
    var v := Next(w, Connect(c, k));
    ReachesNext(start, v, Disconnect(c));
    assert Next(v, Disconnect(c)) == Settled(run, k, hub, map[c := Client(run[k], Some(k), false)]);
  }

  /** The queue fills with updates a+1..d-1, update d finds no room, and the queue empties. */
  lemma Overflow(start: World, run: seq<Snapshot>, a: nat, d: nat, maxQueue: int, buffer: seq<(int, Update)>,
                 maxSize: nat, clients: map<ClientId, Client>)
    requires a < d < |run| && maxQueue == d - 1 - a >= 1 && |buffer| + maxQueue <= maxSize && NobodyConnected(clients)
    requires Reaches(start, Settled(run, a, HubOf([], maxQueue, buffer, maxSize), clients))
    ensures Reaches(start, Settled(run, d, HubOf([], maxQueue, buffer + Numbered(run, a, d - 1), maxSize), clients))
  {
    hide Reaches, UpdateOf, Settled, NobodyConnected;
    Fill(start, run, a, d - 1, maxQueue, buffer, maxSize, clients);
    var full := HubOf(UpdatesOf(run, a, d - 1), maxQueue, buffer, maxSize);
    PollAndSubmit(start, run, d - 1, full, clients);
    assert full.Enqueued(UpdateOf(run, d)) == full;
    Drain(start, run, d, a, d - 1, d - 1, maxQueue, buffer, maxSize, clients);
    assert UpdatesOf(run, a, d - 1)[maxQueue..] == [];
  }

  lemma Return(start: World, run: seq<Snapshot>, k: nat, d: nat, n: nat, hub: HubState<Update>,
               clients: map<ClientId, Client>, c: ClientId)
    requires k + 1 < d <= n < |run| && hub.buffer == WithoutUpdate(run, 0, d, n) && hub.queue == []
    requires clients == map[c := Client(run[k], Some(k), false)] && Reaches(start, Settled(run, n, hub, clients))
    ensures exists w: World ::
              && Reaches(start, w) && w.feed == [] && w.hub.queue == [] && w.engine.store == run[n]
              && c in w.clients && w.clients[c].connected
              && (w.clients[c].state == w.engine.store <==> Overwritten(run, d, n))
  {
    hide Reaches, UpdateOf, Overwritten, ReceiveAll, SinceOf;
    var w := Settled(run, n, hub, clients);
    DroppedUpdateHealsIff(run, 0, d, n, k, k);
    ReachesNext(start, w, Connect(c, n));
  }
}
