# MetroPulse verification model

A Dafny model of the algorithmic core of MetroPulse, a live metro information system: its journey planner, the
replication of live train positions to clients, its request limiter, the geometry and timetable readers behind train
positions, tracked commuter journeys, step-free reachability, the GTFS dataset validator and the layout tool of the
schematic map. `dafny verify dfyconfig.toml` checks everything.

| module | what it models |
|---|---|
| `Common` | options and list reversal |
| `Network`, `NetworkBuilder` | the two-layer state graph of the planner and its construction |
| `Search` | the lazy-deletion Dijkstra search, to one target and to all |
| `Planner`, `Preferences` | folding actions into legs and timings; preferences and what they guarantee |
| `LatestDeparture` | the backward timetable pass |
| `Snapshots`, `RealtimeEngine`, `LiveHub`, `LiveSystem` | diffs, poll cycles, the replay buffer and queue, and the whole pipeline as a state machine |
| `RateLimit` | the token bucket and its eviction |
| `Geometry`, `Trips`, `Interpolation` | shapes, stop distances, the locator, ETAs and timetable interpolation |
| `JourneySession` | lifecycle and worker evaluation of tracked journeys |
| `StepFree` | components of the pathways graph |
| `Validator` | the dataset validator |
| `LayoutGrid` | the spatial hash, trial moves and snapping of the layout tool |

Code that updates state is a class or a method with loops, proved against functions of the old state; the theorems are
lemmas about those functions. Seconds, metres and coordinates are `real`; times of the service day are `int`. Database
tables and Redis hashes are maps, sets and sequences with their obvious meaning, and a transaction is one operation.
Clocks, great-circle distance, cosine, square root, octilinear directions and text formats are parameters; what a proof
needs of them is stated by `Metric.Sane`, `Sane` and `Octilinear` (a length is non-negative, a
vector's length squares to the sum of squares, an octilinear direction is a unit vector with no deviation, deviation is the
same both ways and zero for no vector), and nothing else is assumed.

## Where the code and its documentation differ

- `realtime_engine.py` promises that a failed cycle leaves state untouched. The store is updated before history, numbering
  and publishing, so it does not; `FailedCycleUntouchedIff` says exactly when it does.
- `live_hub.py` remarks that dropping a message on a full queue is safe because clients notice the gap. Neither the buffer
  nor the client compares consecutive numbers. For one dropped update, `DroppedUpdateHealsIff`, `HealsWhenOverwritten` and
  `DroppedWhileConnected` say exactly when a client recovers that was away, stayed, or left later; `DropHappens` and
  `DroppingLosesVehicle` say that the code gets there.
- `geometry.py` asserts that a projection always finds a segment. Its planar constant (111320 m per degree) exceeds the
  great-circle value (about 111195), so the planar length of every short segment exceeds its cumulative length, in any
  direction; a stop projected near the end of a shape can pass the end, and the next stop projected from there trips the
  assertion. `Project` and `BuildStopSequence` give the exact conditions, `EndFirstOverruns` failing inputs and
  `NoOverrun` a condition on the shape that excludes them.
- `schedule_position_source.py` promises a timeline with no gaps; `SlotMissingIff` gives the one exception, a single-stop
  trip whose arrival is later than its departure.
- `validation.py` checks that (trip, stop_sequence) is unique on the text, while the table is keyed by the integer;
  `KeysUniqueIff` says when that is enough, `CanonicalKeysUnique` gives a condition on each row alone, and `RespelledPasses`
  inputs where it is not. The keys of the calendar, calendar exception and shape point tables are not checked at all
  (`RepeatedRowPasses`).
- `schematic_layout.py` searches 2.2 repulsion distances around a node while multipliers reach 2.6. Whole cells make up for
  it at the default distance; `BlockSufficesIff` says for which distances they do.
- `middleware.py` treats eviction as bounding memory only. It is unobservable, and the window bound burst + rate * T holds,
  exactly when burst <= 300 * rate (`EvictionInvisibleIff`, `WindowBoundIff`).

## Hypotheses

- The planner's weights are non-negative; the built network satisfies the rest (`NetworkBuilder.BuildGraph`). Statements about
  displayed time need the base walking multiplier 1, the default; the exchange laws need a positive boarding penalty or
  walking multiplier.
- The limiter's rate is positive and its burst at least 1, as the configuration enforces; its clock never runs backwards.
- The live pipeline: a poll cycle is one step and leaves the stream an exact record (`FailureRecordedIff`); the queue has
  room; a snapshot's number is not newer than its contents (the handler reads trains, then the number, so a poll between
  the two breaks it); connecting is one step.
- The worker evaluates only journeys that are active, one transaction at a time.
- Suffix and equality of remaining stations need distinct stops and a non-negative radius, which sequence numbers and the
  configuration provide.
- Repulsion multipliers lie between 1 and 2.6, as the label feedback keeps them, and the repulsion distance is positive.
- `ProjectionIsClosest` needs a square root that never decreases.

## Model

| member | source | states |
|---|---|---|
| `Search.Dijkstra` | src/metropulse/application/journey_planner.py:342-365 | Some(actions) is an action sequence of minimal search cost over all sequences from origin to destination, visiting no state twice; None exactly when no sequence connects them |
| `Search.TravelSecondsFrom` | src/metropulse/application/journey_planner.py:202-217 | None exactly for an unknown origin; otherwise the key set is exactly the reachable stops, each with the cost of a cheapest sequence |
| `Search.SettleAll` | src/metropulse/application/journey_planner.py:216-230 | the same search without a target labels exactly the reachable stops at their least costs |
| `Search.Searcher.Pop` | src/metropulse/application/journey_planner.py:359 | removes a least entry by cost, then by insertion order |
| `Search.Searcher.SettleNext` | src/metropulse/application/journey_planner.py:358-361 | a stale entry changes nothing but the queue; a current one settles a state never settled before, at its final cost |
| `Search.Searcher.Relax` | src/metropulse/application/journey_planner.py:421-435 | label, predecessor and queue change exactly when the new cost is strictly lower |
| `Search.Searcher.Expand` | src/metropulse/application/journey_planner.py:367-419 | the tables after expanding are those of relaxing every edge out of the state, in order |
| `Search.Searcher.ExpandBoards` | src/metropulse/application/journey_planner.py:379-390 | every pattern calling at the stop is boarded at its weighted cost, except at its terminus |
| `Search.Searcher.ExpandWalks` | src/metropulse/application/journey_planner.py:391-401 | every walking edge is relaxed at its weighted cost while the action keeps the real seconds |
| `Search.Searcher.Reconstruct` | src/metropulse/application/journey_planner.py:437-447 | following predecessors always reaches the start, and the reversed list is a path from it whose cost is the label and which repeats no state |
| `Search.RelaxKeeps` | src/metropulse/application/journey_planner.py:421-435 | relaxing an edge of the last settled state keeps the whole invariant and changes no settled label |
| `Search.Settle` | src/metropulse/application/journey_planner.py:359-361 | the least current entry belongs to an unsettled state, and settling it keeps the invariant with a later rank than its predecessor |
| `Search.DropStale` | src/metropulse/application/journey_planner.py:360-361 | discarding a stale entry keeps a current entry for every unsettled label |
| `Search.ExpandedRelaxes` | src/metropulse/application/journey_planner.py:379-419 | after an expansion every edge the network allows out of the state is relaxed; boarding at the terminus is not an edge |
| `Search.ExpandedExtends` | src/metropulse/application/journey_planner.py:367-419 | an expansion keeps the invariant and every settled label |
| `Search.PrefixBound` | src/metropulse/application/journey_planner.py:358-364 | every prefix of every competing sequence bounds the label of its end or already costs at least the settled bound |
| `Search.NothingCheaper` | src/metropulse/application/journey_planner.py:362-363 | when the target settles, the reconstructed sequence is optimal |
| `Search.Exhausted` | src/metropulse/application/journey_planner.py:358-365 | when the queue is empty the labelled stops are exactly the connected ones, at least cost |
| `NetworkBuilder.IndexPatterns` | src/metropulse/application/journey_planner.py:255-261 | a stop lists (pattern, index) exactly when the pattern calls there at that index |
| `NetworkBuilder.BuildWalkEdges` | src/metropulse/application/journey_planner.py:325-338 | the edges are exactly the two directions of every pair within walking distance or in one complex |
| `NetworkBuilder.WalksBothWays` | src/metropulse/application/journey_planner.py:336-337 | every walking edge has its reverse with the same distance and time |
| `NetworkBuilder.ChooseRepresentatives` | src/metropulse/application/journey_planner.py:289-294 | the first trip with the most stops of every route and direction, and of nothing else, in order of first meeting |
| `NetworkBuilder.BuildPatterns` | src/metropulse/application/journey_planner.py:289-323 | exactly the routes and directions whose representative trip exists and calls at two or more stops have a pattern, with that trip's route, direction, calls in order, and its headsign or else its last stop |
| `NetworkBuilder.BuildGraph` | src/metropulse/application/journey_planner.py:249-270 | a built network satisfies everything the search demands of its graph, its patterns and walking edges are exact, and walking is symmetric |
| `Network.WeightNonNegative` | src/metropulse/application/journey_planner.py:385-419 | no action has a negative weight in a well-formed network |
| `Planner.BuildPlan` | src/metropulse/application/journey_planner.py:451-527 | some cutting shows that the legs split the action list into consecutive words walk or board ride* alight on one pattern with consecutive indices, each leg is an exact account of its word, and the totals are those of the list |
| `Planner.AlightsFromBoarded` | src/metropulse/application/journey_planner.py:491-494 | the assertion that an alight matches the boarded pattern never fails |
| `Planner.FoldStep` | src/metropulse/application/journey_planner.py:467-515 | one more action of a path folds into the accumulators, and the assertion holds on the way |
| `Preferences.Plan` | src/metropulse/application/journey_planner.py:162-195 | a plan is returned exactly when both stops are known and distinct, the preference is recognised and a route exists; otherwise the error of the first check that fails |
| `Preferences.PlanShape` | src/metropulse/application/journey_planner.py:467-515 | legs chain stop to stop from origin to destination and every ride leg has at least two stations |
| `Preferences.RideTimes` | src/metropulse/application/journey_planner.py:410-418 | every ride shows consecutive calls of one pattern and takes the timetable's span less the dwells when no hop is below the minimum, the minimum per hop when none is above it, and never less than either |
| `Preferences.OneMoreHop` | src/metropulse/application/journey_planner.py:410-418 | one more hop extends a ride by the timetable or the minimum, whichever is longer |
| `Preferences.WalksAreEdges` | src/metropulse/application/journey_planner.py:473-480 | every walking leg is an edge of the network with its distance and seconds, and ends carry the network's names |
| `Preferences.TimeConserved` | src/metropulse/application/journey_planner.py:467-527 | displayed time is one base wait per ride plus the riding and walking of the legs, under every preference |
| `Preferences.FastestIsTravelSeconds` | src/metropulse/application/journey_planner.py:202-230 | the displayed time of a fastest plan is the optimal search cost (unit walking multiplier) |
| `Preferences.CompareReach` | src/metropulse/application/journey_planner.py:162-230 | a fastest plan exists exactly when the one-to-all search reaches the destination, and shows the same seconds |
| `Preferences.Exchange` | src/metropulse/application/journey_planner.py:110-131 | two plans of different preferences compare in opposite order under the two weightings |
| `Preferences.FewerTransfers` | src/metropulse/application/journey_planner.py:123-126 | the fewer-transfers plan never has more rides or interchanges than the fastest and never shows a shorter time |
| `Preferences.LessWalking` | src/metropulse/application/journey_planner.py:127-130 | the less-walking plan never has more walking seconds than the fastest and never shows a shorter time |
| `LatestDeparture.LatestTrip` | src/metropulse/application/journey_tools.py:211-247 | a row of latest departure among all trips riding the leg in time; None exactly when there is none |
| `LatestDeparture.Query` | src/metropulse/application/journey_tools.py:225-243 | the rows are exactly those of trips riding the leg in order, on its route, direction and an active service, within the deadline |
| `LatestDeparture.LatestDepartureFor` | src/metropulse/application/journey_tools.py:121-155 | the chosen rows keep every walk and 120-second buffer and no feasible assignment departs later on any of its rides; None exactly when there is no service, no ride or no feasible assignment; minutes are the ceiling of the span |
| `LatestDeparture.LatestDepartureBetween` | src/metropulse/application/journey_tools.py:100-169 | the operation over the planner's fastest plan, with non-negative minutes whenever the chosen trains run forward in time |
| `LatestDeparture.LatestAfterRide` | src/metropulse/application/journey_tools.py:132-141 | greedy exchange: the latest row in time in front of a latest rest is latest for the whole |
| `LatestDeparture.LatestAfterWalk` | src/metropulse/application/journey_tools.py:127-131 | a walk in front keeps the choice latest |
| `LatestDeparture.NoneFeasible` | src/metropulse/application/journey_tools.py:135-137 | a leg without a row in time means that no assignment is feasible at all |
| `LatestDeparture.NoLaterStart` | src/metropulse/application/journey_tools.py:146-148 | no feasible assignment lets the rider leave the origin later |
| `LatestDeparture.ConnectionKept` | src/metropulse/application/journey_tools.py:45-47 | in a feasible assignment every two successive rides are 120 seconds apart, or as long as the rounded walks between them |
| `LatestDeparture.ArrivesAfterWalks` | src/metropulse/application/journey_tools.py:146-148 | the day ends at the last train's arrival plus the rounded seconds of every walk after it |
| `LatestDeparture.DepartsBeforeWalks` | src/metropulse/application/journey_tools.py:146-147 | and starts at the first train's departure less the rounded seconds of every walk before it |
| `LatestDeparture.DayRunsForward` | src/metropulse/application/journey_tools.py:121-141 | a feasible assignment of forward-running trains ends no earlier than it starts |
| `LatestDeparture.MinutesNonNegative` | src/metropulse/application/journey_tools.py:146-155 | then the reported minutes are non-negative |
| `LatestDeparture.PlannedWalksTakeTime` | src/metropulse/application/journey_planner.py:335-337 | no planned walk has negative length |
| `LatestDeparture.Rounded` | src/metropulse/application/journey_tools.py:129 | rounding moves a walk by at most half a second, ties going to the even second |
| `Snapshots.DiffApplies` | src/metropulse/application/snapshot.py:34-69 | applying the changed and removed vehicles to the previous snapshot gives the current one |
| `Snapshots.DiffExact` | src/metropulse/application/snapshot.py:42-69 | added, moved and removed are disjoint and exactly the classes the documentation names, stale is exactly the vehicles older than the threshold, and the total counts the current ones |
| `Snapshots.NoChangesIffEqual` | src/metropulse/application/snapshot.py:28-31 | nothing is reported exactly when the snapshots are equal |
| `Snapshots.ReplayOne` | src/metropulse/application/snapshot.py:47-54 | over any replay a vehicle touched since the start is current and an untouched one is as it was |
| `Snapshots.Convergence` | src/metropulse/application/snapshot.py:34-69 | for k <= m <= n, replaying updates k+1..n over snapshot m gives snapshot n, so replaying from an older number is harmless |
| `Snapshots.GapHealsIff` | src/metropulse/application/snapshot.py:34-69 | a client that missed updates m+1..k converges exactly when every vehicle that differed between m and k changes again |
| `RealtimeEngine.Engine.PollOnce` | src/metropulse/application/realtime_engine.py:143-193 | store, sequence and stream after a cycle, for success and for a failure in fetching, storing, history, numbering, publishing and after publishing |
| `RealtimeEngine.Engine.PollSafe` | src/metropulse/application/realtime_engine.py:117-141 | the same, with failures counted and never raised |
| `RealtimeEngine.LastReportWins` | src/metropulse/application/realtime_engine.py:154 | the last report of a vehicle in the feed is the one kept, and no other vehicle appears |
| `RealtimeEngine.FailedCycleUntouchedIff` | src/metropulse/application/realtime_engine.py:1-12 | a failed cycle leaves state untouched exactly when the fetch or the store failed, or numbering failed on an unchanged feed; the documentation says always |
| `RealtimeEngine.FailedCycleLosesTheDiff` | src/metropulse/application/realtime_engine.py:164-174 | after a failed history write the store has moved on and the next cycle announces nothing |
| `RealtimeEngine.SuccessRecorded` | src/metropulse/application/realtime_engine.py:154-176 | a cycle that publishes, even if it fails afterwards, appends exactly the numbered difference of consecutive snapshots |
| `RealtimeEngine.FailureRecordedIff` | src/metropulse/application/realtime_engine.py:164-176 | after a failed cycle the stream is still an exact record exactly when the state is untouched or the failure came after publishing, which is told beforehand by the stage that fails |
| `RealtimeEngine.HarmlessCycle` | src/metropulse/application/realtime_engine.py:148-174 | such a cycle publishes or changes nothing |
| `LiveHub.ReplayBuffer.Add` | src/metropulse/application/live_hub.py:37-39 | the buffer always holds the newest messages added, up to its bound |
| `LiveHub.ReplayBuffer.LatestSequence` | src/metropulse/application/live_hub.py:41-44 | the number of the last message added |
| `LiveHub.ReplayBuffer.Since` | src/metropulse/application/live_hub.py:46-61 | the answer is that of the newest messages, oldest first |
| `LiveHub.SinceExact` | src/metropulse/application/live_hub.py:46-61 | after consecutive additions with eviction: None exactly when the buffer is empty or a needed message is not held, else precisely the messages after the given number, in order |
| `LiveHub.SinceNoneIff` | src/metropulse/application/live_hub.py:53-60 | the gap is reported exactly when it cannot be bridged |
| `LiveHub.Hub.Enqueue` | src/metropulse/application/live_hub.py:151-155 | a message is queued when there is room and dropped otherwise |
| `LiveHub.Hub.RunOnce` | src/metropulse/application/live_hub.py:157-165 | the oldest message leaves the queue and is buffered when it carries a number |
| `LiveSystem.ConnectOk` | src/metropulse/api/ws/live.py:61-71 | whether replay or snapshot is sent, a (re)connecting client ends consistent with what the hub has processed |
| `LiveSystem.ReplayOk` | src/metropulse/api/ws/live.py:61-65 | a replay brings a client from its last number to the hub's newest |
| `LiveSystem.StepKeeps` | src/metropulse/application/live_hub.py:151-165 | every allowed step of polls, delivery, broadcast, connect, disconnect and restart keeps the invariant |
| `LiveSystem.RunKeeps` | src/metropulse/application/live_hub.py:157-165 | so does every run of such steps |
| `LiveSystem.DrainedClientsAgree` | src/metropulse/api/ws/live.py:71-80 | with nothing in flight every connected client equals the store |
| `LiveSystem.LiveClientsConverge` | src/metropulse/api/ws/live.py:46-80 | from an empty system, over every run of allowed steps |
| `LiveSystem.DroppedUpdateHealsIff` | src/metropulse/application/live_hub.py:130-155 | after one update d was dropped, a client that saw any update before it is sent a snapshot exactly when an earlier update is missing too; otherwise it is answered as if nothing were missing, and converges exactly when every vehicle of update d changes again; the code comment calls dropping safe |
| `LiveSystem.HealsWhenOverwritten` | src/metropulse/application/live_hub.py:130-155 | a client that stays connected while update d is dropped converges under the same condition |
| `LiveSystem.DroppedWhileConnected` | src/metropulse/application/live_hub.py:130-155 | so does one that was connected then, sees later updates, and reconnects: it is always answered without a snapshot |
| `LiveSystem.DroppedFirstIsHealed` | src/metropulse/api/ws/live.py:61-67 | with no update older than the dropped one buffered, the client is sent a snapshot and converges |
| `LiveSystem.DropHappens` | src/metropulse/application/live_hub.py:130-165 | for every sequence of snapshots, every bound on the queue and a replay buffer that holds them all, a run drops any update d beyond the bound, delivers the rest, and ends with a reconnected client and nothing in flight, where client and store agree exactly under that condition |
| `LiveSystem.DroppingLosesVehicle` | src/metropulse/application/live_hub.py:130-155 | the smallest loss: the first vehicle appears in a dropped update, and a connected client never shows it |
| `RateLimit.RateLimiter.Consume` | src/metropulse/api/middleware.py:57-68 | verdict and buckets after a request |
| `RateLimit.RateLimiter.Prune` | src/metropulse/api/middleware.py:70-74 | exactly the buckets idle for more than 300 seconds go |
| `RateLimit.SoundRun` | src/metropulse/api/middleware.py:57-68 | tokens stay between 0 and burst over every run |
| `RateLimit.SimulationStep` | src/metropulse/api/middleware.py:57-74 | one request keeps the pruned and the unpruned limiter equivalent |
| `RateLimit.EvictionInvisibleFrom` | src/metropulse/api/middleware.py:24-26 | with burst <= 300 * rate, every request of every run gets the same verdict and retry time with and without eviction |
| `RateLimit.EvictionVisible` | src/metropulse/api/middleware.py:24-26 | otherwise a run of more than 10000 clients tells the two apart |
| `RateLimit.EvictionInvisibleIff` | src/metropulse/api/middleware.py:24-74 | eviction is unobservable exactly when burst <= 300 * rate |
| `RateLimit.Conservation` | src/metropulse/api/middleware.py:59-65 | admissions plus remaining tokens never exceed the initial tokens plus what dripped in |
| `RateLimit.WindowBound` | src/metropulse/api/middleware.py:57-68 | in a window of length T of any run a client is admitted at most burst + rate * T times, when burst <= 300 * rate |
| `RateLimit.ComebackAdmits` | src/metropulse/api/middleware.py:57-74 | a client that is drained, evicted by a crowd and comes back is admitted two full bursts |
| `RateLimit.WindowBoundIff` | src/metropulse/api/middleware.py:57-74 | the limiter keeps the window bound on every run from the start exactly when burst <= 300 * rate |
| `RateLimit.ConformingAdmitted` | src/metropulse/api/middleware.py:57-68 | the converse: a request is admitted whenever no stretch of its client's requests up to it exceeds burst + rate * length, with eviction and whatever other clients do |
| `RateLimit.FundedRun` | src/metropulse/api/middleware.py:57-68 | over every run a client's bucket is full or holds at least what it is owed since one of its requests |
| `RateLimit.RetryAfterExact` | src/metropulse/api/middleware.py:61-64 | a refused client is admitted after the promised wait, and refused again a full second too early |
| `RateLimit.AdmittedAfterWait` | src/metropulse/api/middleware.py:57-74 | a refused client is admitted after the wait, whether its bucket was kept or evicted meanwhile |
| `RateLimit.RetryAfterKept` | src/metropulse/api/middleware.py:57-74 | the promise of a refusal over any run of the limiter as it is, with eviction; refusal a full second early is also kept when burst <= 300 * rate |
| `Geometry.ParameterIsNearest` | src/metropulse/domain/geometry.py:124 | the clamped parameter minimises the distance over the whole segment |
| `Geometry.ProjectionIsClosest` | src/metropulse/domain/geometry.py:62-69 | an unrestricted projection is the closest position: no point of any segment is closer in the plane |
| `Geometry.ProjectionAttained` | src/metropulse/domain/geometry.py:78-91 | its offset and its distance along belong to one point of its segment |
| `Geometry.BelowFloor` | src/metropulse/domain/geometry.py:80-89 | a segment reached below the floor offers the floor itself, at the great-circle distance to the place on the segment at the floor |
| `Geometry.PlaneInMetres` | src/metropulse/domain/geometry.py:116-121 | the plane measures 111320 m to a degree of latitude and that times the cosine of the mid latitude to a degree of longitude |
| `Geometry.AlongWithinSegment` | src/metropulse/domain/geometry.py:108-127 | the distance along lies between 0 and the planar length of the segment |
| `Geometry.BuildShape` | src/metropulse/domain/geometry.py:43-50 | cumulative great-circle lengths; refused exactly below two points |
| `Geometry.CumulativeOrdered` | src/metropulse/domain/geometry.py:47-50 | cumulative distances are non-decreasing and within the total |
| `Geometry.Project` | src/metropulse/domain/geometry.py:62-93 | the first nearest candidate on the segments reaching the floor, never below the floor; the assertion fails exactly when the floor exceeds the total length |
| `Geometry.ProjectionWithinShape` | src/metropulse/domain/geometry.py:62-93 | if no planar segment reaches past the end, no projection does |
| `Geometry.EndOverrunsIff` | src/metropulse/domain/geometry.py:15-16 | the end of a shape projects past the end exactly when the planar length of the last segment exceeds its great-circle length, on every shape whose end lies on no earlier segment |
| `Geometry.OverrunIff` | src/metropulse/domain/geometry.py:15-16 | on one segment, some point projects past the end exactly when the planar length exceeds the great-circle length |
| `Geometry.PointAt` | src/metropulse/domain/geometry.py:95-105 | the point lies on the polyline at exactly the clamped distance |
| `Trips.BuildStopSequence` | src/metropulse/application/route_resolver.py:275-313 | every stop keeps its call's fields; distances are non-decreasing and each is its stop's projection beyond the previous; the assertion fails exactly when some call but the last is placed past the end of the shape, and on success no such call is |
| `Trips.PlacedOnce` | src/metropulse/application/route_resolver.py:289-312 | there is only one way to place the calls |
| `Trips.NoOverrun` | src/metropulse/application/route_resolver.py:292-294 | no call is placed past the end of a shape whose planar segments stay within it |
| `Trips.EndFirstOverruns` | src/metropulse/application/route_resolver.py:292-294 | the failing input: a first call at the end of a shape whose last planar segment is longer than its great-circle length, then any other call |
| `Trips.LocateByDistance` | src/metropulse/application/route_resolver.py:256-272 | at the first stop within the radius, else between the last stop behind and the first beyond |
| `Trips.Locate` | src/metropulse/application/route_resolver.py:210-253 | stations, distance, offset and remaining list with and without a shape, and for a trip without stops |
| `Trips.ComputeEtas` | src/metropulse/application/eta_engine.py:105-137 | one ETA per stop ahead: the predictor's when it gave one non-negative value for each, else distance left over speed plus a dwell per earlier stop, non-negative and non-decreasing |
| `Trips.AheadIsSuffix` | src/metropulse/application/eta_engine.py:105-109 | on ordered stops the filter is a suffix |
| `Trips.AheadOfStation` | src/metropulse/application/route_resolver.py:260-263 | at a station the ETA engine's list is a suffix of the locator's |
| `Trips.AheadBetweenStations` | src/metropulse/application/route_resolver.py:264-272 | between stations the two lists are equal |
| `Trips.RemainingAgree` | src/metropulse/application/route_resolver.py:320-327 | the ETA engine's list is always a suffix of the locator's, and equal with a shape and no station in reach |
| `Interpolation.NoGapFrom` | src/metropulse/application/schedule_position_source.py:109-113 | any moment between two departures and the last arrival falls into a dwell or a hop |
| `Interpolation.SlotMissingIff` | src/metropulse/application/schedule_position_source.py:96-100 | no moment is uncovered, except exactly on a single-stop trip that departs before it arrives |
| `Interpolation.StandsIff` | src/metropulse/application/schedule_position_source.py:105-111 | the train stands exactly until the first departure, from the last arrival on, and in intermediate dwells |
| `Interpolation.Proportional` | src/metropulse/application/schedule_position_source.py:112-123 | on the way, distance is covered in proportion to time |
| `Interpolation.Interpolate` | src/metropulse/application/schedule_position_source.py:89-125 | None exactly without stops, shape or slot; otherwise the stop's place or the point at the interpolated, clamped distance |
| `Interpolation.SlotsInOrder` | src/metropulse/application/schedule_position_source.py:105-124 | later moments lie in later slots |
| `Interpolation.DistanceMonotone` | src/metropulse/application/schedule_position_source.py:105-124 | with ordered times and distances the denoted distance never decreases |
| `JourneySession.Store.ActiveForUser` | src/metropulse/infrastructure/db/commuter_repositories.py:431-436 | an active journey of the user, or None exactly when there is none |
| `JourneySession.Store.Start` | src/metropulse/application/commuter/journeys.py:32-96 | a valid request abandons the active journey and adds a new one with the request's data and its event; otherwise nothing changes, and the error is equal stations or the first stop asked for that does not exist |
| `JourneySession.Store.Finish` | src/metropulse/application/commuter/journeys.py:148-165 | only an active journey owned by the user ends, with one event; otherwise nothing changes |
| `JourneySession.Store.Evaluate` | src/metropulse/application/commuter/journey_session.py:60-98 | one outcome in priority order: too old, arrived, passed, interchange, delay |
| `JourneySession.OutcomeByPosition` | src/metropulse/application/commuter/journey_session.py:88-92 | with the train seen at a call, the journey is completed at the destination, missed exactly beyond its first call there, and otherwise stays live, with the matching event, notice and end time |
| `JourneySession.NoticesUnderWay` | src/metropulse/application/commuter/journey_session.py:94-98 | under way, a planned interchange not yet notified is reminded of exactly when it is next, and otherwise a delay of the threshold or more exactly when not yet told |
| `JourneySession.OutcomeUnseen` | src/metropulse/application/commuter/journey_session.py:71-86 | a journey too old is abandoned, and a young one whose train is not seen is left alone |
| `JourneySession.StartKeeps` | src/metropulse/application/commuter/journeys.py:59-84 | starting keeps one active journey per user and the event count |
| `JourneySession.FinishKeeps` | src/metropulse/application/commuter/journeys.py:148-165 | ending adds exactly the one closing event |
| `JourneySession.CloseKeeps` | src/metropulse/application/commuter/journey_session.py:100-147 | arrival and missing end the journey with one terminal notification |
| `JourneySession.RemindKeeps` | src/metropulse/application/commuter/journey_session.py:149-176 | a reminder is given once per planned interchange and its flag costs no other flag |
| `JourneySession.DelayKeeps` | src/metropulse/application/commuter/journey_session.py:178-204 | a delay is notified once and its flag costs no other flag |
| `JourneySession.StepKeeps` | src/metropulse/application/commuter/journey_session.py:60-98 | every API call and every evaluation of an active journey keeps the invariant |
| `JourneySession.RunKeeps` | src/metropulse/application/commuter/journey_session.py:60-98 | so does every interleaving, and ended journeys are frozen between any two moments |
| `JourneySession.Lifecycle` | src/metropulse/application/commuter/journeys.py:32-165 | over every run from empty tables: one active journey per user, frozen after the end, one started event, one closing event exactly when ended, at most one terminal, one delay and one notification per planned interchange |
| `StepFree.BuildAdjacency` | src/metropulse/application/commuter/accessibility_graph.py:53-59 | neighbours are exactly the other ends of usable edges, in both directions |
| `StepFree.ComponentOf` | src/metropulse/application/commuter/accessibility_graph.py:26-35 | exactly the nodes linked to the start by a walk; the worklist ends |
| `StepFree.Visit` | src/metropulse/application/commuter/accessibility_graph.py:29-34 | one node's unseen neighbours join both the seen set and the frontier |
| `StepFree.ExploreNode` | src/metropulse/application/commuter/accessibility_graph.py:29-34 | exploring a node keeps seen nodes linked and unexplored ones on the frontier |
| `StepFree.ComponentShared` | src/metropulse/application/commuter/accessibility_graph.py:69-72 | a component is the component of each of its members, so caching it for all is sound |
| `StepFree.StepFreeGateIds` | src/metropulse/application/commuter/accessibility_graph.py:38-75 | exactly the gates that end a usable edge and are linked to a lift and to a platform |
| `Validator.Report.Add` | src/metropulse/application/validation.py:74-79 | appends the issue, and errors appear exactly with an error-severity issue |
| `Validator.CheckPresence` | src/metropulse/application/validation.py:126-134 | an error exactly when a required file, or both calendars, are missing; a missing shapes file is no error |
| `Validator.CheckColumns` | src/metropulse/application/validation.py:137-146 | an error exactly when the file is empty or lacks a listed column |
| `Validator.CheckStructure` | src/metropulse/application/validation.py:107-111 | no error exactly when the dataset is well structured |
| `Validator.CheckFilled` | src/metropulse/application/validation.py:157-159 | an error exactly when a listed column is blank |
| `Validator.CheckAgency` | src/metropulse/application/validation.py:153-159 | an error exactly when a row leaves a mandatory field blank |
| `Validator.CheckRoutes` | src/metropulse/application/validation.py:162-176 | the non-empty ids, and an error exactly when an id is empty or repeated or a type is no integer |
| `Validator.CheckStops` | src/metropulse/application/validation.py:179-196 | the same for stops and their coordinates |
| `Validator.CheckDays` | src/metropulse/application/validation.py:210-213 | an error exactly when a weekday is not 0 or 1 |
| `Validator.CheckPeriod` | src/metropulse/application/validation.py:214-221 | an error exactly when a date does not parse or the end precedes the start |
| `Validator.CheckCalendarRows` | src/metropulse/application/validation.py:199-221 | the services, and an error exactly when a row of the calendar is unsound |
| `Validator.CheckCalendarDates` | src/metropulse/application/validation.py:222-233 | the same for calendar exceptions |
| `Validator.CheckShapes` | src/metropulse/application/validation.py:236-252 | an error exactly when a shape point is unsound |
| `Validator.CheckTrips` | src/metropulse/application/validation.py:255-281 | the trip ids, and an error exactly when an id is empty or repeated or a reference the code looks up is unknown |
| `Validator.CheckTimes` | src/metropulse/application/validation.py:304-313 | an error exactly when a time does not parse or the departure precedes the arrival |
| `Validator.CheckStopTimes` | src/metropulse/application/validation.py:284-313 | an error exactly when a reference is unknown, a (trip, sequence text) is repeated or not an integer, or times do not parse in order |
| `Validator.ServicesKnown` | src/metropulse/application/validation.py:275-276 | with sound calendars some service is known, so the guard on services hides nothing |
| `Validator.VerdictIff` | src/metropulse/application/validation.py:102-123 | skipped checks, early returns and guards together hide nothing |
| `Validator.ValidateDataset` | src/metropulse/application/validation.py:102-123 | the report is free of errors exactly when the dataset is clean: structured, well formed and referentially closed, with unique route, stop and trip ids and unique sequence texts within a trip |
| `Validator.ReferencesResolve` | src/metropulse/application/validation.py:162-313 | in a clean dataset every stop time names exactly one stop and one trip, and every trip exactly one route |
| `Validator.RaggedRowFails` | src/metropulse/application/validation.py:156-159 | a mandatory agency column missing from one row reads as blank and is an error |
| `Validator.KeysUniqueIff` | src/metropulse/application/validation.py:297-304 | a clean dataset has unique integer stop-time keys exactly when no trip spells one sequence number in two ways, since uniqueness is checked on the text |
| `Validator.CanonicalKeysUnique` | src/metropulse/application/validation.py:297-304 | so it has when each row, looked at alone, spells its number canonically |
| `Validator.RespelledPasses` | src/metropulse/application/validation.py:297-304 | the failing input: any stop time of a clean dataset repeated with a second spelling of its number passes |
| `Validator.RepeatedRowPasses` | src/metropulse/application/validation.py:199-252 | any row of the calendar, calendar exception or shape files of a clean dataset may be repeated, taking its table key twice, and the validator finds no error |
| `LayoutGrid.Layout.constructor` | tools/schematic_layout.py:194-218 | the grid indexes every node by its cell, and a node's edge list is exactly its incident edges |
| `LayoutGrid.Layout.MoveTo` | tools/schematic_layout.py:443-449 | only the one position changes and the grid follows it |
| `LayoutGrid.Layout.NearNodes` | tools/schematic_layout.py:228-237 | each node of the block once, none excluded wrongly, and every node within the radius |
| `LayoutGrid.BlockCovers` | tools/schematic_layout.py:228-234 | the block covers every point up to its reach, which is at least the radius |
| `LayoutGrid.FarPushesNothing` | tools/schematic_layout.py:266-271 | where 2.6 times the repulsion distance is within the reach of the block, a node outside it has no repulsion |
| `LayoutGrid.Layout.PushFrom` | tools/schematic_layout.py:264-271 | what one node adds, from the larger of two multipliers and the distance |
| `LayoutGrid.BlockSufficesIff` | tools/schematic_layout.py:266-271 | no layout misses a node exactly under that condition on the distance, which an option may change |
| `LayoutGrid.JustOutside` | tools/schematic_layout.py:266-271 | otherwise two nodes are missed |
| `LayoutGrid.DefaultSuffices` | tools/schematic_layout.py:57 | the default distance 34 meets the condition; 29 does not |
| `LayoutGrid.Layout.RepulsionOf` | tools/schematic_layout.py:262-272 | the repulsion summed over the nodes of the block, which under that condition is the sum over all other nodes |
| `LayoutGrid.Layout.OptimizeNode` | tools/schematic_layout.py:361-390 | trial moves leave no trace; the node moves only inside the canvas, to a candidate lower by more than 1e-9, and no candidate is lower still by more than that |
| `LayoutGrid.Layout.Optimize` | tools/schematic_layout.py:349-393 | the sweeps are optimisations of each listed node in turn, all of them or, past the middle, up to one that gains less than 0.05; only listed nodes move and only into the canvas |
| `LayoutGrid.Layout.ClearOf` | tools/schematic_layout.py:425-431 | true exactly when no other node is within 30 units |
| `LayoutGrid.Layout.BendsNoEdge` | tools/schematic_layout.py:432-441 | true exactly when no straight edge of the node is bent |
| `LayoutGrid.Layout.SnapOk` | tools/schematic_layout.py:424-441 | true exactly when no other node is within 30 units and no straight edge of the node is bent |
| `LayoutGrid.StraightenedKeeps` | tools/schematic_layout.py:410-414 | straightening keeps the length and the midpoint of an edge |
| `LayoutGrid.TwoMovesKeep` | tools/schematic_layout.py:415-417 | moving both ends endangers no pair, although each is checked on its own |
| `LayoutGrid.Layout.SnapEdge` | tools/schematic_layout.py:403-419 | an edge is straightened exactly when it deviates by 0.01 degrees to the tolerance and both ends may move, else nothing moves; no pair comes closer than 30 and than it was; straight edges stay straight; the sum of positions is kept |
| `LayoutGrid.Layout.Snap` | tools/schematic_layout.py:396-422 | the same for distances and the sum of positions over all rounds; nothing snaps exactly when no edge can at the start, and none can at the end unless all three rounds ran; only ends of edges move |
| `LayoutGrid.SmallestGapKept` | tools/schematic_layout.py:396-422 | hence the smallest distance never falls below the smaller of 30 and what it was |

## Left out

- NetworkBuilder.BuildGraph: the database queries are inputs (trips with their stop counts, calls in sequence order), and the cached graph and its version are not modelled.
- Planner.BuildPlan: route names and colours carried by ride legs are display data.
- Search.Searcher.Pop: the binary heap is a set with extraction of a least entry by cost and insertion order; its array layout is not modelled.
- LatestDeparture.LatestTrip: among rows of equal departure any may be returned, as the query leaves it open.
- LatestDeparture.LatestDepartureBetween: the legs of the response and calendar datetimes are not built; times are seconds of the service day.
- LatestDeparture.LatestDepartureFor: reach and meet are one-line uses of the one-to-all search.
- RealtimeEngine.Engine.PollOnce: enrichment of trains, cached states, alerts, heartbeats and domain events after publishing.
- RealtimeEngine.Engine.PollSafe: the text of the last error.
- LiveSystem.DroppedUpdateHealsIff: one dropped update; several at once are not treated.
- LiveSystem.StepKeeps: a snapshot read that races a poll, broadcasts missed between replay and registration, failures while frames are being sent, and several replicas at once.
- LiveHub.Hub.RunOnce: a broadcast that times out is a lost connection in `LiveSystem`; the sending itself is not modelled.
- RateLimit.RateLimiter.Consume: exempt paths, the 429 response and metrics.
- Geometry.Project: floating-point rounding; trigonometric values are parameters.
- Trips.ComputeEtas: speed selection, dwell medians, confidence, delay and the predictor itself; speed and dwell are inputs.
- Trips.Locate: trip resolution, id mapping and their caches.
- Interpolation.Interpolate: which trips are active at a moment, and how positions are labelled.
- JourneySession.Store.Start: route and trip ids, notification texts and published events; a journey's payload holds only the keys the code writes.
- StepFree.StepFreeGateIds: node records other than ids, and the conversion of ids to text; an absent id is the empty string.
- Validator.ValidateDataset: parsing of text formats (stripping, integers, decimals, dates, times) is a set of partial functions, so NaN and infinity are not modelled; files, columns and what a message says are enumerations, since others are never looked at, and optional numeric columns are not read by the code either.
- Validator.CheckTrips: an unknown shape is a warning in the code and stays one; which warnings are given is not stated.
- LayoutGrid.Layout.constructor: positions and edges are inputs; the projection of coordinates and the lines behind the edges are not modelled.
- LayoutGrid.Layout.OptimizeNode: the candidate moves and the local cost are parameters; edge, triple and geographic costs are not modelled.
- LayoutGrid.Layout.Optimize: the sum of local costs is not claimed to fall, because moving a node changes edge repulsion charged to other nodes; the random order of nodes is an input and the returned total is not modelled.
- LayoutGrid.Layout.Snap: the order of edges by deviation is an input; an edge left at exactly 0.01 degrees may be bent by a later snap, so straightness is stated for each snap and not across the pass.
- Label placement, the preview, HTTP routes, schemas, migrations, the coach, crowd, exit and fare scoring, and the mobile clients' screens.
