/** The per-client token bucket and the eviction of idle buckets. */
module RateLimit {
  import opened Common

  const MAX_TRACKED := 10000
  const IDLE_EVICT := 300.0

  type ClientKey = string

  datatype Bucket = Bucket(tokens: real, last: real)

  type Buckets = map<ClientKey, Bucket>

  /** Steady rate per second and burst; the configuration admits only these values. */
  datatype Limits = Limits(rate: real, burst: int) {
    predicate Configured() { rate > 0.0 && burst >= 1 }
  }

  datatype Verdict = Admitted | Refused(retryAfter: int)

  /** `math.ceil`. */
  function Ceil(x: real): (r: int)
    ensures (r - 1) as real < x <= r as real
  {
    -((-x).Floor)
  }

  /** Tokens a client has at a moment; an untracked client has a full bucket. */
  function Level(b: Buckets, l: Limits, key: ClientKey, now: real): real {
    if key in b then Refilled(b[key], l, now) else l.burst as real
  }

  function Refilled(bucket: Bucket, l: Limits, now: real): real {
    MinReal(l.burst as real, bucket.tokens + (now - bucket.last) * l.rate)
  }

  function Judge(level: real, l: Limits): Verdict
    requires l.Configured()
  {
    if level < 1.0 then Refused(Max(Ceil((1.0 - level) / l.rate), 1)) else Admitted
  }

  function Pruned(b: Buckets, now: real): Buckets {
    map k | k in b && now - b[k].last <= IDLE_EVICT :: b[k]
  }

  /** The buckets after one request; `evict` says whether idle buckets are pruned at all. */
  function Consumed(b: Buckets, l: Limits, key: ClientKey, now: real, evict: bool): Buckets {
    var level := Level(b, l, key, now);
    if level < 1.0 then b[key := Bucket(level, now)]
    else
      var after := b[key := Bucket(level - 1.0, now)];
      if evict && |after| > MAX_TRACKED then Pruned(after, now) else after
  }

  class RateLimiter {
    const limits: Limits
    var buckets: Buckets

    constructor (limits: Limits)
      ensures this.limits == limits && buckets == map[]
    {
      this.limits := limits;
      buckets := map[];
    }

    method Consume(key: ClientKey, now: real) returns (r: Verdict)
      requires limits.Configured()
      modifies this
      ensures buckets == Consumed(old(buckets), limits, key, now, true)
      ensures r == Judge(Level(old(buckets), limits, key, now), limits)
    {
      var bucket := if key in buckets then buckets[key] else Bucket(limits.burst as real, now);
      var tokens := MinReal(limits.burst as real, bucket.tokens + (now - bucket.last) * limits.rate);
      assert tokens == Level(buckets, limits, key, now);
      if tokens < 1.0 {
        buckets := buckets[key := Bucket(tokens, now)];
        var retryAfter := Ceil((1.0 - tokens) / limits.rate);
        return Refused(Max(retryAfter, 1));
      }
      buckets := buckets[key := Bucket(tokens - 1.0, now)];
      if |buckets| > MAX_TRACKED {
        Prune(now);
      }
      return Admitted;
    }

    method Prune(now: real)
      modifies this
      ensures buckets == Pruned(old(buckets), now)
    {
      var stale := set k | k in buckets && now - buckets[k].last > IDLE_EVICT;
      ghost var all := stale;
      while stale != {}
        invariant stale <= all
        invariant buckets == old(buckets) - (all - stale)
      {
        var key :| key in stale;
        stale := stale - {key};
        buckets := buckets - {key};
      }
    }
  }

  // ----- runs

  datatype Request = Request(key: ClientKey, time: real)

  function Verdicts(b: Buckets, l: Limits, reqs: seq<Request>, evict: bool): (r: seq<Verdict>)
    requires l.Configured()
    ensures |r| == |reqs|
    decreases |reqs|
  {
    if reqs == [] then []
    else [Judge(Level(b, l, reqs[0].key, reqs[0].time), l)]
         + Verdicts(Consumed(b, l, reqs[0].key, reqs[0].time, evict), l, reqs[1..], evict)
  }

  function Final(b: Buckets, l: Limits, reqs: seq<Request>, evict: bool): Buckets
    decreases |reqs|
  {
    if reqs == [] then b else Final(Consumed(b, l, reqs[0].key, reqs[0].time, evict), l, reqs[1..], evict)
  }

  /** The clock never runs backwards, starting from `start`. */
  ghost predicate Monotone(reqs: seq<Request>, start: real) {
    && (forall i :: 0 <= i < |reqs| ==> start <= reqs[i].time)
    && (forall i, j :: 0 <= i < j < |reqs| ==> reqs[i].time <= reqs[j].time)
  }

  lemma MonotoneTail(reqs: seq<Request>, start: real)
    requires reqs != [] && Monotone(reqs, start)
    ensures start <= reqs[0].time && Monotone(reqs[1..], reqs[0].time)
  {
    assert forall i :: 0 <= i < |reqs[1..]| ==> reqs[1..][i] == reqs[i + 1];
  }

  /** Tokens are between 0 and burst, and no bucket is dated in the future. */
  ghost predicate Sound(b: Buckets, l: Limits, now: real) {
    forall k :: k in b ==> 0.0 <= b[k].tokens <= l.burst as real && b[k].last <= now
  }

  lemma Drips(elapsed: real, rate: real)
    requires elapsed >= 0.0 && rate > 0.0
    ensures elapsed * rate >= 0.0
  {
  }

  lemma LevelBounds(b: Buckets, l: Limits, key: ClientKey, now: real)
    requires l.Configured() && Sound(b, l, now)
    ensures 0.0 <= Level(b, l, key, now) <= l.burst as real
  {
    if key in b {
      RefilledBounds(b[key], l, now);
    }
    hide Refilled;
  }

  lemma RefilledBounds(bucket: Bucket, l: Limits, now: real)
    requires l.Configured() && 0.0 <= bucket.tokens && bucket.last <= now
    ensures 0.0 <= Refilled(bucket, l, now) <= l.burst as real
  {
    var dripped := (now - bucket.last) * l.rate;
    Drips(now - bucket.last, l.rate);
    assert dripped >= 0.0;
    assert l.burst as real >= 0.0;
    assert Refilled(bucket, l, now) == MinReal(l.burst as real, bucket.tokens + dripped);
  }

  lemma SoundStep(b: Buckets, l: Limits, key: ClientKey, before: real, now: real, evict: bool)
    requires l.Configured() && Sound(b, l, before) && before <= now
    ensures Sound(Consumed(b, l, key, now, evict), l, now)
  {
    LevelBounds(b, l, key, now);
    hide Level;
  }

  /** Tokens stay within [0, burst] over every run. */
  lemma {:induction false} SoundRun(b: Buckets, l: Limits, reqs: seq<Request>, start: real, evict: bool)
    requires l.Configured() && Sound(b, l, start) && Monotone(reqs, start)
    ensures Sound(Final(b, l, reqs, evict), l, if reqs == [] then start else reqs[|reqs| - 1].time)
    decreases |reqs|
  {
    if reqs != [] {
      MonotoneTail(reqs, start);
      SoundStep(b, l, reqs[0].key, start, reqs[0].time, evict);
      SoundRun(Consumed(b, l, reqs[0].key, reqs[0].time, evict), l, reqs[1..], reqs[0].time, evict);
    }
  }

  // ----- eviction is invisible

  /** `p` is `u` without some buckets that have been idle long enough to be evicted. */
  ghost predicate Simulates(p: Buckets, u: Buckets, now: real) {
    && (forall k :: k in p ==> k in u && p[k] == u[k])
    && (forall k :: k in u && k !in p ==> now - u[k].last > IDLE_EVICT)
  }

  lemma SameLevel(p: Buckets, u: Buckets, l: Limits, key: ClientKey, now: real)
    requires l.Configured() && Sound(u, l, now) && Simulates(p, u, now) && l.burst as real <= IDLE_EVICT * l.rate
    ensures Level(p, l, key, now) == Level(u, l, key, now)
  {
    hide Refilled;
    if key in u && key !in p {
      IdleIsFull(u[key], l, now);
    }
  }

  lemma IdleIsFull(bucket: Bucket, l: Limits, now: real)
    requires l.Configured() && bucket.tokens >= 0.0 && now - bucket.last > IDLE_EVICT
    requires l.burst as real <= IDLE_EVICT * l.rate
    ensures Refilled(bucket, l, now) == l.burst as real
  {
    ProductOrder(IDLE_EVICT, now - bucket.last, l.rate);
  }

  lemma ProductOrder(x: real, y: real, rate: real)
    requires rate > 0.0
    ensures x >= y ==> x * rate >= y * rate
    ensures x < y ==> x * rate < y * rate
  {
  }

  lemma SimulationStep(p: Buckets, u: Buckets, l: Limits, key: ClientKey, before: real, now: real)
    requires l.Configured() && Sound(u, l, before) && before <= now && Simulates(p, u, before)
    requires l.burst as real <= IDLE_EVICT * l.rate
    ensures Level(p, l, key, now) == Level(u, l, key, now)
    ensures Simulates(Consumed(p, l, key, now, true), Consumed(u, l, key, now, false), now)
  {
    assert Simulates(p, u, now);
    SameLevel(p, u, l, key, now);
  }

  /** With and without eviction, every request of every run gets the same verdict and the same retry time. */
  lemma {:induction false} EvictionInvisibleFrom(p: Buckets, u: Buckets, l: Limits, reqs: seq<Request>, start: real)
    requires l.Configured() && Sound(u, l, start) && Simulates(p, u, start) && Monotone(reqs, start)
    requires l.burst as real <= IDLE_EVICT * l.rate
    ensures Verdicts(p, l, reqs, true) == Verdicts(u, l, reqs, false)
    decreases |reqs|
  {
    if reqs != [] {
      var key, now := reqs[0].key, reqs[0].time;
      MonotoneTail(reqs, start);
      SimulationStep(p, u, l, key, start, now);
      SoundStep(u, l, key, start, now, false);
      EvictionInvisibleFrom(Consumed(p, l, key, now, true), Consumed(u, l, key, now, false), l, reqs[1..], now);
    }
  }

  // ----- admissions in a window

  function Admissions(reqs: seq<Request>, verdicts: seq<Verdict>, key: ClientKey): nat
    requires |reqs| == |verdicts|
  {
    if reqs == [] then 0
    else (if reqs[0].key == key && verdicts[0].Admitted? then 1 else 0) + Admissions(reqs[1..], verdicts[1..], key)
  }

  lemma LevelGrows(b: Buckets, l: Limits, key: ClientKey, t: real, now: real)
    requires l.Configured() && Sound(b, l, t) && t <= now
    ensures Level(b, l, key, now) <= Level(b, l, key, t) + (now - t) * l.rate
  {
    Drips(now - t, l.rate);
    if key in b {
      DripSplits(b[key].last, t, now, l.rate);
    }
  }

  /** A request takes one token from its own client when admitted and nothing from anyone otherwise. */
  lemma LevelAfter(b: Buckets, l: Limits, key: ClientKey, other: ClientKey, now: real)
    requires l.Configured()
    ensures Level(Consumed(b, l, key, now, false), l, other, now)
         == Level(b, l, other, now) - (if other == key && Level(b, l, key, now) >= 1.0 then 1.0 else 0.0)
  {
    assert Level(b, l, key, now) <= l.burst as real;
    FreshLevel(l, Level(b, l, key, now), now);
    FreshLevel(l, Level(b, l, key, now) - 1.0, now);
    hide Refilled;
  }

  lemma FreshLevel(l: Limits, tokens: real, now: real)
    ensures Refilled(Bucket(tokens, now), l, now) == MinReal(l.burst as real, tokens)
  {
    assert (now - now) * l.rate == 0.0;
  }

  lemma DripSplits(a: real, b: real, c: real, rate: real)
    ensures (c - a) * rate == (b - a) * rate + (c - b) * rate
  {
  }

  /** Conservation: admissions plus what is left never exceed what there was plus what dripped in. */
  lemma {:induction false} Conservation(b: Buckets, l: Limits, reqs: seq<Request>, key: ClientKey, start: real,
                                        end: real)
    requires l.Configured() && Sound(b, l, start) && Monotone(reqs, start) && start <= end
    requires forall i :: 0 <= i < |reqs| ==> reqs[i].time <= end
    ensures Admissions(reqs, Verdicts(b, l, reqs, false), key) as real + Level(Final(b, l, reqs, false), l, key, end)
         <= Level(b, l, key, start) + (end - start) * l.rate
    decreases |reqs|
  {
    hide Level, Consumed, Sound, Monotone, Admissions, Verdicts;
    if reqs == [] {
      assert Admissions([], [], key) == 0 by { NoAdmissions(key); }
      LevelGrows(b, l, key, start, end);
    } else {
      var r := reqs[0];
      MonotoneTail(reqs, start);
      ConservationStep(b, l, r, key, start, end);
      Conservation(Consumed(b, l, r.key, r.time, false), l, reqs[1..], key, r.time, end);
      AdmissionsHead(b, l, reqs, key);
    }
  }

  lemma NoAdmissions(key: ClientKey)
    ensures Admissions([], [], key) == 0
  {
  }

  lemma AdmissionsHead(b: Buckets, l: Limits, reqs: seq<Request>, key: ClientKey)
    requires l.Configured() && reqs != []
    ensures Admissions(reqs, Verdicts(b, l, reqs, false), key)
         == (if reqs[0].key == key && Level(b, l, key, reqs[0].time) >= 1.0 then 1 else 0)
            + Admissions(reqs[1..], Verdicts(Consumed(b, l, reqs[0].key, reqs[0].time, false), l, reqs[1..], false),
                         key)
  {
    hide Level, Consumed;
    var rest := Verdicts(Consumed(b, l, reqs[0].key, reqs[0].time, false), l, reqs[1..], false);
    assert Verdicts(b, l, reqs, false)[1..] == rest;
  }

  /** One request: what it takes and what dripped in before it. */
  lemma ConservationStep(b: Buckets, l: Limits, r: Request, key: ClientKey, start: real, end: real)
    requires l.Configured() && Sound(b, l, start) && start <= r.time
    ensures Sound(Consumed(b, l, r.key, r.time, false), l, r.time)
    ensures Level(Consumed(b, l, r.key, r.time, false), l, key, r.time) + (end - r.time) * l.rate
            + (if r.key == key && Level(b, l, key, r.time) >= 1.0 then 1.0 else 0.0)
         <= Level(b, l, key, start) + (end - start) * l.rate
  {
    hide Level, Consumed, Sound;
    SoundStep(b, l, r.key, start, r.time, false);
    LevelGrows(b, l, key, start, r.time);
    LevelAfter(b, l, r.key, key, r.time);
    DripSplits(start, r.time, end, l.rate);
  }

  /** In any window of any run, a client is admitted at most burst + rate * length times. */
  lemma WindowBound(b: Buckets, l: Limits, reqs: seq<Request>, key: ClientKey, start: real, end: real)
    requires l.Configured() && l.burst as real <= IDLE_EVICT * l.rate
    requires Sound(b, l, start) && Monotone(reqs, start) && start <= end
    requires forall i :: 0 <= i < |reqs| ==> reqs[i].time <= end
    ensures Admissions(reqs, Verdicts(b, l, reqs, true), key) as real <= l.burst as real + (end - start) * l.rate
  {
    EvictionInvisibleFrom(b, b, l, reqs, start);
    Conservation(b, l, reqs, key, start, end);
    SoundRun(b, l, reqs, start, false);
    LevelBounds(b, l, key, start);
    var finalTime := if reqs == [] then start else reqs[|reqs| - 1].time;
    assert Sound(Final(b, l, reqs, false), l, end);
    LevelBounds(Final(b, l, reqs, false), l, key, end);
  }

  // ----- retry_after

  /** Requests of others leave a client's bucket alone. */
  lemma {:induction false} OthersKeep(b: Buckets, l: Limits, reqs: seq<Request>, key: ClientKey)
    requires key in b && forall i :: 0 <= i < |reqs| ==> reqs[i].key != key
    ensures var f := Final(b, l, reqs, false); key in f && f[key] == b[key]
    decreases |reqs|
  {
    if reqs != [] {
      OthersKeep(Consumed(b, l, reqs[0].key, reqs[0].time, false), l, reqs[1..], key);
    }
  }

  /**
  A refused client whose next request comes `retryAfter` or more seconds later is admitted; one that comes a
  full second too early is refused again.
  */
  lemma RetryAfterExact(b: Buckets, l: Limits, key: ClientKey, t: real, others: seq<Request>, again: real)
    requires l.Configured() && Judge(Level(b, l, key, t), l).Refused? && t <= again
    requires forall i :: 0 <= i < |others| ==> others[i].key != key
    ensures var wait := Judge(Level(b, l, key, t), l).retryAfter;
            var later := Judge(Level(Final(Consumed(b, l, key, t, false), l, others, false), l, key, again), l);
            && (again >= t + wait as real ==> later.Admitted?)
            && (wait > 1 && again <= t + (wait - 1) as real ==> later.Refused?)
  {
    hide *;
    var level := Level(b, l, key, t);
    var after := Consumed(b, l, key, t, false);
    RefusalKeeps(b, l, key, t);
    OthersKeep(after, l, others, key);
    KnownLevel(Final(after, l, others, false), l, key, Bucket(level, t), again);
    RetryWait(level, l, Judge(level, l).retryAfter, t, again);
  }

  lemma RefusalKeeps(b: Buckets, l: Limits, key: ClientKey, t: real)
    requires l.Configured() && Judge(Level(b, l, key, t), l).Refused?
    ensures var level := Level(b, l, key, t); var after := Consumed(b, l, key, t, false);
            level < 1.0 && key in after && after[key] == Bucket(level, t) && Consumed(b, l, key, t, true) == after
  {
  }

  lemma RetryWait(level: real, l: Limits, wait: int, t: real, again: real)
    requires l.Configured() && Judge(level, l) == Refused(wait) && t <= again
    ensures var later := Judge(Refilled(Bucket(level, t), l, again), l);
            && (again >= t + wait as real ==> later.Admitted?)
            && (wait > 1 && again <= t + (wait - 1) as real ==> later.Refused?)
  {
    RetryArithmetic(level, l.rate, wait, again - t);
  }

  lemma KnownLevel(b: Buckets, l: Limits, key: ClientKey, bucket: Bucket, now: real)
    requires key in b && b[key] == bucket
    ensures Level(b, l, key, now) == Refilled(bucket, l, now)
  {
  }

  lemma RetryArithmetic(level: real, rate: real, wait: int, elapsed: real)
    requires rate > 0.0 && level < 1.0 && elapsed >= 0.0 && wait == Max(Ceil((1.0 - level) / rate), 1)
    ensures elapsed >= wait as real ==> level + elapsed * rate >= 1.0
    ensures wait > 1 && elapsed <= (wait - 1) as real ==> level + elapsed * rate < 1.0
  {
    var need := (1.0 - level) / rate;
    assert need * rate == 1.0 - level;
    ProductOrder(elapsed, need, rate);
  }

  /** Requests of others leave a client's bucket alone or evict it. */
  lemma {:induction false} OthersKeepOrEvict(b: Buckets, l: Limits, reqs: seq<Request>, key: ClientKey, bucket: Bucket)
    requires key in b ==> b[key] == bucket
    requires forall i :: 0 <= i < |reqs| ==> reqs[i].key != key
    ensures var f := Final(b, l, reqs, true); key in f ==> f[key] == bucket
    decreases |reqs|
  {
    if reqs != [] {
      OthersKeepOrEvict(Consumed(b, l, reqs[0].key, reqs[0].time, true), l, reqs[1..], key, bucket);
    }
  }

  /** After the wait a refused client is admitted, whether its bucket was evicted or not. */
  lemma AdmittedAfterWait(b: Buckets, l: Limits, key: ClientKey, t: real, others: seq<Request>, again: real)
    requires l.Configured() && Judge(Level(b, l, key, t), l).Refused? && t <= again
    requires forall i :: 0 <= i < |others| ==> others[i].key != key
    ensures var wait := Judge(Level(b, l, key, t), l).retryAfter;
            var f := Final(Consumed(b, l, key, t, true), l, others, true);
            again >= t + wait as real ==> Judge(Level(f, l, key, again), l).Admitted?
  {
    hide *;
    var level := Level(b, l, key, t);
    var after := Consumed(b, l, key, t, true);
    RefusalKeeps(b, l, key, t);
    OthersKeepOrEvict(after, l, others, key, Bucket(level, t));
    var f := Final(after, l, others, true);
    RetryWait(level, l, Judge(level, l).retryAfter, t, again);
    if key in f {
      KnownLevel(f, l, key, Bucket(level, t), again);
    } else {
      UnknownAdmitted(f, l, key, again);
    }
  }

  lemma UnknownAdmitted(b: Buckets, l: Limits, key: ClientKey, now: real)
    requires l.Configured() && key !in b
    ensures Judge(Level(b, l, key, now), l).Admitted?
  {
  }

  /**
  The promise of a refusal, kept by the limiter as it is, with eviction and whatever other clients do meanwhile: after
  the wait the client is admitted. Where eviction is invisible, it is also refused again a full second too early.
  */
  lemma RetryAfterKept(b: Buckets, l: Limits, key: ClientKey, t: real, others: seq<Request>, again: real, start: real)
    requires l.Configured() && Sound(b, l, start)
    requires Monotone([Request(key, t)] + others + [Request(key, again)], start)
    requires forall i :: 0 <= i < |others| ==> others[i].key != key
    ensures var verdicts := Verdicts(b, l, [Request(key, t)] + others + [Request(key, again)], true);
            var first, last := verdicts[0], verdicts[|others| + 1];
            first.Refused? ==>
              && (again >= t + first.retryAfter as real ==> last.Admitted?)
              && (l.burst as real <= IDLE_EVICT * l.rate && first.retryAfter > 1
                  && again <= t + (first.retryAfter - 1) as real
                  ==> last.Refused?)
  {
    var reqs := [Request(key, t)] + others + [Request(key, again)];
    assert reqs[0].time == t && reqs[|others| + 1].time == again;
    assert t <= again;
    hide *;
    FirstAndLast(b, l, Request(key, t), others, Request(key, again), true);
    FirstAndLast(b, l, Request(key, t), others, Request(key, again), false);
    if Judge(Level(b, l, key, t), l).Refused? {
      AdmittedAfterWait(b, l, key, t, others, again);
      RetryAfterExact(b, l, key, t, others, again);
      if l.burst as real <= IDLE_EVICT * l.rate {
        EvictionInvisibleFromSame(b, l, reqs, start);
      }
    }
  }

  lemma EvictionInvisibleFromSame(b: Buckets, l: Limits, reqs: seq<Request>, start: real)
    requires l.Configured() && l.burst as real <= IDLE_EVICT * l.rate && Sound(b, l, start) && Monotone(reqs, start)
    ensures Verdicts(b, l, reqs, true) == Verdicts(b, l, reqs, false)
  {
    hide Sound, Monotone, Verdicts;
    EvictionInvisibleFrom(b, b, l, reqs, start);
  }

  lemma FirstAndLast(b: Buckets, l: Limits, first: Request, others: seq<Request>, last: Request, evict: bool)
    requires l.Configured()
    ensures var verdicts := Verdicts(b, l, [first] + others + [last], evict);
            var after := Consumed(b, l, first.key, first.time, evict);
            && verdicts[0] == Judge(Level(b, l, first.key, first.time), l)
            && verdicts[|others| + 1] == Judge(Level(Final(after, l, others, evict), l, last.key, last.time), l)
  {
    hide Level, Consumed;
    var reqs := [first] + others + [last];
    assert reqs[1..] == others + [last];
    RunSplits(Consumed(b, l, first.key, first.time, evict), l, others, [last], evict);
  }

  // ----- exactly when eviction is invisible

  function Repeat(key: ClientKey, t: real, n: nat): seq<Request> {
    if n == 0 then [] else Repeat(key, t, n - 1) + [Request(key, t)]
  }

  /** The i-th of an endless supply of distinct clients; the client under scrutiny is the empty name. */
  function Name(i: nat): ClientKey { seq(i, j => 'c') }

  function Crowd(t: real, n: nat): seq<Request> {
    if n == 0 then [] else Crowd(t, n - 1) + [Request(Name(n), t)]
  }

  lemma {:induction false} FinalSplits(b: Buckets, l: Limits, xs: seq<Request>, ys: seq<Request>, evict: bool)
    requires l.Configured()
    ensures Final(b, l, xs + ys, evict) == Final(Final(b, l, xs, evict), l, ys, evict)
    decreases |xs|
  {
    hide Consumed;
    if xs == [] {
      assert xs + ys == ys;
    } else {
      assert (xs + ys)[1..] == xs[1..] + ys;
      FinalSplits(Consumed(b, l, xs[0].key, xs[0].time, evict), l, xs[1..], ys, evict);
    }
  }

  lemma {:induction false} RunSplits(b: Buckets, l: Limits, xs: seq<Request>, ys: seq<Request>, evict: bool)
    requires l.Configured()
    ensures Final(b, l, xs + ys, evict) == Final(Final(b, l, xs, evict), l, ys, evict)
    ensures Verdicts(b, l, xs + ys, evict) == Verdicts(b, l, xs, evict) + Verdicts(Final(b, l, xs, evict), l, ys, evict)
    decreases |xs|
  {
    hide Consumed, Judge, Level;
    FinalSplits(b, l, xs, ys, evict);
    if xs == [] {
      assert xs + ys == ys;
    } else {
      var after := Consumed(b, l, xs[0].key, xs[0].time, evict);
      assert (xs + ys)[1..] == xs[1..] + ys;
      RunSplits(after, l, xs[1..], ys, evict);
      VerdictsHead(b, l, xs, evict);
      VerdictsHead(b, l, xs + ys, evict);
      hide Verdicts;
    }
  }

  lemma VerdictsHead(b: Buckets, l: Limits, xs: seq<Request>, evict: bool)
    requires l.Configured() && xs != []
    ensures Verdicts(b, l, xs, evict)
         == [Judge(Level(b, l, xs[0].key, xs[0].time), l)]
            + Verdicts(Consumed(b, l, xs[0].key, xs[0].time, evict), l, xs[1..], evict)
  {
    hide Consumed, Judge, Level;
  }

  lemma FinalSnoc(b: Buckets, l: Limits, xs: seq<Request>, r: Request, evict: bool)
    requires l.Configured()
    ensures Final(b, l, xs + [r], evict) == Consumed(Final(b, l, xs, evict), l, r.key, r.time, evict)
    ensures var verdicts := Verdicts(b, l, xs + [r], evict);
            verdicts[|xs|] == Judge(Level(Final(b, l, xs, evict), l, r.key, r.time), l)
  {
    RunSplits(b, l, xs, [r], evict);
    var f := Final(b, l, xs, evict);
    assert [r][1..] == [];
    assert Final(f, l, [r], evict) == Final(Consumed(f, l, r.key, r.time, evict), l, [], evict);
  }

  lemma OwnLevelAfter(b: Buckets, l: Limits, key: ClientKey, now: real, evict: bool)
    requires l.Configured() && Level(b, l, key, now) <= l.burst as real
    ensures var level := Level(b, l, key, now);
            Level(Consumed(b, l, key, now, evict), l, key, now) == if level < 1.0 then level else level - 1.0
  {
    assert (now - now) * l.rate == 0.0;
  }

  lemma {:induction false} Drain(b: Buckets, l: Limits, key: ClientKey, t: real, n: nat, evict: bool)
    requires l.Configured() && n <= l.burst && Level(b, l, key, t) == l.burst as real
    ensures Level(Final(b, l, Repeat(key, t, n), evict), l, key, t) == (l.burst - n) as real
  {
    if n > 0 {
      Drain(b, l, key, t, n - 1, evict);
      FinalSnoc(b, l, Repeat(key, t, n - 1), Request(key, t), evict);
      OwnLevelAfter(Final(b, l, Repeat(key, t, n - 1), evict), l, key, t, evict);
    }
  }

  lemma {:induction false} Starve(b: Buckets, l: Limits, key: ClientKey, t: real, n: nat, evict: bool)
    requires l.Configured() && n < l.burst && Level(b, l, key, t) < l.burst as real
    ensures Level(Final(b, l, Repeat(key, t, n), evict), l, key, t) < (l.burst - n) as real
  {
    if n > 0 {
      Starve(b, l, key, t, n - 1, evict);
      FinalSnoc(b, l, Repeat(key, t, n - 1), Request(key, t), evict);
      OwnLevelAfter(Final(b, l, Repeat(key, t, n - 1), evict), l, key, t, evict);
    }
  }

  /** Draining from nothing leaves a single, empty bucket dated `t`. */
  lemma {:induction false} DrainFresh(l: Limits, key: ClientKey, t: real, n: nat, evict: bool)
    requires l.Configured() && n <= l.burst
    ensures var f := Final(map[], l, Repeat(key, t, n), evict);
            f == if n == 0 then map[] else map[key := Bucket((l.burst - n) as real, t)]
  {
    hide Level, Consumed;
    if n == 0 {
      assert Repeat(key, t, 0) == [];
    } else {
      hide Final;
      DrainFresh(l, key, t, n - 1, evict);
      FinalSnoc(map[], l, Repeat(key, t, n - 1), Request(key, t), evict);
      DrainOnce(l, key, t, n, evict);
    }
  }

  /** The n-th request drains what the earlier ones left. */
  lemma DrainOnce(l: Limits, key: ClientKey, t: real, n: nat, evict: bool)
    requires l.Configured() && 0 < n <= l.burst
    ensures var before := if n == 1 then map[] else map[key := Bucket((l.burst - n + 1) as real, t)];
            Consumed(before, l, key, t, evict) == map[key := Bucket((l.burst - n) as real, t)]
  {
    var tokens := (l.burst - n + 1) as real;
    FreshLevel(l, tokens, t);
    var after: Buckets := map[key := Bucket(tokens - 1.0, t)];
    assert after.Keys == {key};
    assert |after.Keys| == 1;
  }

  /** What n newcomers leave of a single client: one bucket each, until the limit is passed and the idle one goes. */
  ghost predicate Filled(bucket: Bucket, f: Buckets, n: nat) {
    && (n < MAX_TRACKED ==> |f| == n + 1 && "" in f && f[""] == bucket)
    && (n == MAX_TRACKED ==> "" !in f)
    && forall k :: k in f ==> |k| <= n
  }

  /** A crowd of n newcomers adds n buckets; the one that makes the count exceed the limit evicts the idle. */
  lemma {:induction false} CrowdFills(bucket: Bucket, l: Limits, t: real, n: nat)
    requires l.Configured() && n <= MAX_TRACKED && t - bucket.last > IDLE_EVICT
    ensures Filled(bucket, Final(map["" := bucket], l, Crowd(t, n), true), n)
  {
    hide Filled, Consumed;
    var b: Buckets := map["" := bucket];
    if n == 0 {
      FilledByNobody(bucket, b);
      assert Crowd(t, 0) == [];
    } else {
      hide Final;
      CrowdFills(bucket, l, t, n - 1);
      FinalSnoc(b, l, Crowd(t, n - 1), Request(Name(n), t), true);
      Newcomer(bucket, Final(b, l, Crowd(t, n - 1), true), l, t, n);
    }
  }

  lemma FilledByNobody(bucket: Bucket, b: Buckets)
    requires b == map["" := bucket]
    ensures Filled(bucket, b, 0)
  {
    assert b.Keys == {""};
    assert |b.Keys| == 1;
  }

  /** The n-th newcomer. */
  lemma Newcomer(bucket: Bucket, f: Buckets, l: Limits, t: real, n: nat)
    requires l.Configured() && 0 < n <= MAX_TRACKED && t - bucket.last > IDLE_EVICT && Filled(bucket, f, n - 1)
    ensures Filled(bucket, Consumed(f, l, Name(n), t, true), n)
  {
    assert |Name(n)| == n && Name(n) !in f;
    assert Level(f, l, Name(n), t) == l.burst as real;
    var after := f[Name(n) := Bucket(l.burst as real - 1.0, t)];
    assert after.Keys == f.Keys + {Name(n)};
    assert |after.Keys| == |f.Keys| + 1;
    hide Level;
  }

  lemma {:induction false} CrowdIsOthers(t: real, n: nat)
    ensures forall i :: 0 <= i < |Crowd(t, n)| ==> Crowd(t, n)[i].key != "" && Crowd(t, n)[i].time == t
  {
    if n > 0 {
      CrowdIsOthers(t, n - 1);
      assert |Name(n)| == n;
    }
  }

  lemma {:induction false} RepeatAt(key: ClientKey, t: real, n: nat)
    ensures |Repeat(key, t, n)| == n && forall i :: 0 <= i < n ==> Repeat(key, t, n)[i] == Request(key, t)
  {
    if n > 0 { RepeatAt(key, t, n - 1); }
  }

  /** Drain a client, let a crowd of 10000 arrive after the idle limit, and let the client come back. */
  function Comeback(l: Limits, t: real): seq<Request>
    requires l.Configured()
  {
    Repeat("", 0.0, l.burst) + Crowd(t, MAX_TRACKED) + Repeat("", t, l.burst)
  }

  function ComebackHead(l: Limits, t: real): seq<Request>
    requires l.Configured()
  {
    Repeat("", 0.0, l.burst) + Crowd(t, MAX_TRACKED) + Repeat("", t, l.burst - 1)
  }

  lemma CrowdAfterDrain(l: Limits, t: real, evict: bool)
    requires l.Configured()
    ensures Final(map[], l, Repeat("", 0.0, l.burst) + Crowd(t, MAX_TRACKED), evict)
         == Final(map["" := Bucket(0.0, 0.0)], l, Crowd(t, MAX_TRACKED), evict)
  {
    hide Final, Verdicts, Crowd, Repeat;
    DrainFresh(l, "", 0.0, l.burst, evict);
    RunSplits(map[], l, Repeat("", 0.0, l.burst), Crowd(t, MAX_TRACKED), evict);
  }

  lemma ComebackSplits(l: Limits, t: real, evict: bool)
    requires l.Configured()
    ensures Comeback(l, t) == ComebackHead(l, t) + [Request("", t)]
    ensures var b := map["" := Bucket(0.0, 0.0)];
            var crowded := Final(b, l, Crowd(t, MAX_TRACKED), evict);
            Final(map[], l, ComebackHead(l, t), evict) == Final(crowded, l, Repeat("", t, l.burst - 1), evict)
  {
    assert Repeat("", t, l.burst) == Repeat("", t, l.burst - 1) + [Request("", t)];
    hide Final, Verdicts, Crowd, Repeat;
    CrowdAfterDrain(l, t, evict);
    RunSplits(map[], l, Repeat("", 0.0, l.burst) + Crowd(t, MAX_TRACKED), Repeat("", t, l.burst - 1), evict);
  }

  lemma ComebackEvicted(l: Limits, t: real)
    requires l.Configured() && t > IDLE_EVICT
    ensures Level(Final(map[], l, ComebackHead(l, t), true), l, "", t) == 1.0
  {
    hide Final, Crowd, Repeat, ComebackHead;
    var b := map["" := Bucket(0.0, 0.0)];
    ComebackSplits(l, t, true);
    CrowdFills(Bucket(0.0, 0.0), l, t, MAX_TRACKED);
    Drain(Final(b, l, Crowd(t, MAX_TRACKED), true), l, "", t, l.burst - 1, true);
  }

  lemma ComebackKept(l: Limits, t: real)
    requires l.Configured() && t * l.rate < l.burst as real
    ensures Level(Final(map[], l, ComebackHead(l, t), false), l, "", t) < 1.0
  {
    hide Final, Crowd, Repeat, ComebackHead;
    var b := map["" := Bucket(0.0, 0.0)];
    ComebackSplits(l, t, false);
    CrowdIsOthers(t, MAX_TRACKED);
    OthersKeep(b, l, Crowd(t, MAX_TRACKED), "");
    Starve(Final(b, l, Crowd(t, MAX_TRACKED), false), l, "", t, l.burst - 1, false);
  }

  lemma EvictionVisible(l: Limits, t: real)
    requires l.Configured() && t > IDLE_EVICT && t * l.rate < l.burst as real
    ensures Verdicts(map[], l, Comeback(l, t), true) != Verdicts(map[], l, Comeback(l, t), false)
  {
    hide Final, ComebackHead, Comeback, Verdicts, Level;
    ComebackSplits(l, t, true);
    ComebackEvicted(l, t);
    ComebackKept(l, t);
    FinalSnoc(map[], l, ComebackHead(l, t), Request("", t), true);
    FinalSnoc(map[], l, ComebackHead(l, t), Request("", t), false);
  }

  lemma ComebackMonotone(l: Limits, t: real)
    requires l.Configured() && t >= 0.0
    ensures Monotone(Comeback(l, t), 0.0)
  {
    RepeatAt("", 0.0, l.burst);
    RepeatAt("", t, l.burst);
    CrowdIsOthers(t, MAX_TRACKED);
  }

  ghost predicate EvictionInvisible(l: Limits)
    requires l.Configured()
  {
    forall reqs, start :: Monotone(reqs, start) ==> Verdicts(map[], l, reqs, true) == Verdicts(map[], l, reqs, false)
  }

  /** No run of any clients can tell eviction from no eviction, if and only if 300 idle seconds refill the burst. */
  lemma EvictionInvisibleIff(l: Limits)
    requires l.Configured()
    ensures EvictionInvisible(l) <==> l.burst as real <= IDLE_EVICT * l.rate
  {
    if l.burst as real <= IDLE_EVICT * l.rate {
      forall reqs, start | Monotone(reqs, start)
        ensures Verdicts(map[], l, reqs, true) == Verdicts(map[], l, reqs, false)
      {
        EvictionInvisibleFrom(map[], map[], l, reqs, start);
      }
    } else {
      var t := TooSoon(l);
      EvictionVisible(l, t);
      ComebackMonotone(l, t);
    }
  }

  /** A moment after the idle limit at which the burst has not dripped in again. */
  lemma TooSoon(l: Limits) returns (t: real)
    requires l.Configured() && l.burst as real > IDLE_EVICT * l.rate
    ensures t > IDLE_EVICT && t * l.rate < l.burst as real
  {
    var full := l.burst as real / l.rate;
    QuotientOrder(IDLE_EVICT, l.burst as real, l.rate);
    t := (IDLE_EVICT + full) / 2.0;
    QuotientOrder(t, l.burst as real, l.rate);
  }

  lemma QuotientOrder(x: real, total: real, rate: real)
    requires rate > 0.0
    ensures x < total / rate <==> x * rate < total
  {
    var full := total / rate;
    assert full * rate == total;
    ProductOrder(x, full, rate);
  }

  // ----- exactly when the window bound holds

  lemma {:induction false} AdmissionsConcat(xs: seq<Request>, vs: seq<Verdict>, ys: seq<Request>, ws: seq<Verdict>,
                                            key: ClientKey)
    requires |xs| == |vs| && |ys| == |ws|
    ensures Admissions(xs + ys, vs + ws, key) == Admissions(xs, vs, key) + Admissions(ys, ws, key)
  {
    if xs == [] {
      assert xs + ys == ys && vs + ws == ws;
    } else {
      assert (xs + ys)[1..] == xs[1..] + ys && (vs + ws)[1..] == vs[1..] + ws;
      AdmissionsConcat(xs[1..], vs[1..], ys, ws, key);
    }
  }

  /** Admissions of consecutive stretches add up. */
  lemma AdmissionsSplit(b: Buckets, l: Limits, xs: seq<Request>, ys: seq<Request>, key: ClientKey, evict: bool)
    requires l.Configured()
    ensures Admissions(xs + ys, Verdicts(b, l, xs + ys, evict), key)
         == Admissions(xs, Verdicts(b, l, xs, evict), key)
            + Admissions(ys, Verdicts(Final(b, l, xs, evict), l, ys, evict), key)
  {
    hide Verdicts, Final, Admissions;
    RunSplits(b, l, xs, ys, evict);
    AdmissionsConcat(xs, Verdicts(b, l, xs, evict), ys, Verdicts(Final(b, l, xs, evict), l, ys, evict), key);
  }

  /** A client with a full bucket is admitted as often in a row as the burst allows. */
  lemma {:induction false} DrainAdmits(b: Buckets, l: Limits, key: ClientKey, t: real, n: nat, evict: bool)
    requires l.Configured() && n <= l.burst && Level(b, l, key, t) == l.burst as real
    ensures Admissions(Repeat(key, t, n), Verdicts(b, l, Repeat(key, t, n), evict), key) == n
  {
    hide Level, Final, Consumed, Verdicts;
    if n == 0 {
      assert Repeat(key, t, 0) == [];
    } else {
      var xs, last := Repeat(key, t, n - 1), [Request(key, t)];
      DrainAdmits(b, l, key, t, n - 1, evict);
      AdmissionsSplit(b, l, xs, last, key, evict);
      Drain(b, l, key, t, n - 1, evict);
      OneAdmitted(Final(b, l, xs, evict), l, key, t, evict);
    }
  }

  lemma OneAdmitted(b: Buckets, l: Limits, key: ClientKey, t: real, evict: bool)
    requires l.Configured() && Level(b, l, key, t) >= 1.0
    ensures Admissions([Request(key, t)], Verdicts(b, l, [Request(key, t)], evict), key) == 1
  {
    hide Level, Consumed;
  }

  /** The client of the comeback is admitted two full bursts. */
  lemma ComebackAdmits(l: Limits, t: real)
    requires l.Configured() && t > IDLE_EVICT
    ensures Admissions(Comeback(l, t), Verdicts(map[], l, Comeback(l, t), true), "") >= 2 * l.burst
  {
    hide Final, Verdicts, Admissions, Crowd, Repeat, Consumed;
    var first, crowd, again := Repeat("", 0.0, l.burst), Crowd(t, MAX_TRACKED), Repeat("", t, l.burst);
    var b := map["" := Bucket(0.0, 0.0)];
    DrainAdmits(map[], l, "", 0.0, l.burst, true);
    AdmissionsSplit(map[], l, first, crowd, "", true);
    AdmissionsSplit(map[], l, first + crowd, again, "", true);
    CrowdAfterDrain(l, t, true);
    CrowdFills(Bucket(0.0, 0.0), l, t, MAX_TRACKED);
    DrainAdmits(Final(b, l, crowd, true), l, "", t, l.burst, true);
  }

  /** No run from the start admits a client more than burst + rate * length times. */
  ghost predicate WindowBounded(l: Limits)
    requires l.Configured()
  {
    forall reqs, start, end, key :: Within(reqs, start, end) ==>
      Admissions(reqs, Verdicts(map[], l, reqs, true), key) as real <= l.burst as real + (end - start) * l.rate
  }

  ghost predicate Within(reqs: seq<Request>, start: real, end: real) {
    Monotone(reqs, start) && start <= end && forall i :: 0 <= i < |reqs| ==> reqs[i].time <= end
  }

  /** The bound holds for the limiter, with its eviction, if and only if 300 idle seconds refill the burst. */
  lemma WindowBoundIff(l: Limits)
    requires l.Configured()
    ensures WindowBounded(l) <==> l.burst as real <= IDLE_EVICT * l.rate
  {
    hide Verdicts, Admissions, Monotone;
    if l.burst as real <= IDLE_EVICT * l.rate {
      forall reqs, start, end, key | Within(reqs, start, end)
        ensures Admissions(reqs, Verdicts(map[], l, reqs, true), key) as real
             <= l.burst as real + (end - start) * l.rate
      {
        WindowBound(map[], l, reqs, key, start, end);
      }
    } else {
      var t := TooSoon(l);
      ComebackMonotone(l, t);
      ComebackWithin(l, t);
      ComebackAdmits(l, t);
      hide Comeback;
      assert Within(Comeback(l, t), 0.0, t);
      assert (t - 0.0) * l.rate == t * l.rate;
    }
  }

  lemma ComebackWithin(l: Limits, t: real)
    requires l.Configured() && t >= 0.0
    ensures forall i :: 0 <= i < |Comeback(l, t)| ==> Comeback(l, t)[i].time <= t
  {
    RepeatAt("", 0.0, l.burst);
    RepeatAt("", t, l.burst);
    CrowdIsOthers(t, MAX_TRACKED);
  }

  // ----- conforming clients are never refused

  /** Requests of one client. */
  function CountOf(reqs: seq<Request>, key: ClientKey): nat {
    if reqs == [] then 0
    else CountOf(reqs[..|reqs| - 1], key) + (if reqs[|reqs| - 1].key == key then 1 else 0)
  }

  function Dripped(elapsed: real, rate: real): real {
    elapsed * rate
  }

  lemma DrippedGrows(a: real, b: real, c: real, rate: real)
    requires rate > 0.0 && b <= c
    ensures Dripped(c - a, rate) == Dripped(b - a, rate) + Dripped(c - b, rate)
    ensures Dripped(c - b, rate) >= 0.0 && Dripped(a - a, rate) == 0.0
  {
    DripSplits(a, b, c, rate);
    Drips(c - b, rate);
  }

  /** Since its request i the client has been owed a full burst plus the drip, less its requests. */
  ghost predicate Owed(l: Limits, reqs: seq<Request>, n: nat, i: int, key: ClientKey, level: real, now: real) {
    && 0 <= i < n <= |reqs| && reqs[i].key == key
    && level >= l.burst as real + Dripped(now - reqs[i].time, l.rate) - CountOf(reqs[i..n], key) as real
  }

  /** After the first n requests the client's bucket is full, or holds what it is owed since some request of its own. */
  ghost predicate Funded(b: Buckets, l: Limits, reqs: seq<Request>, n: nat, key: ClientKey, now: real) {
    var level := Level(b, l, key, now);
    level >= l.burst as real || exists i :: Owed(l, reqs, n, i, key, level, now)
  }

  /** Dripping in up to the brim. */
  lemma LevelLater(b: Buckets, l: Limits, key: ClientKey, now: real, later: real)
    requires l.Configured() && now <= later
    ensures Level(b, l, key, later) >= MinReal(l.burst as real, Level(b, l, key, now) + Dripped(later - now, l.rate))
  {
    hide Dripped;
    if key in b {
      RefilledLater(b[key], l, now, later);
    } else {
      DrippedGrows(now, now, later, l.rate);
    }
    hide Refilled;
  }

  lemma RefilledLater(bucket: Bucket, l: Limits, now: real, later: real)
    requires l.Configured() && now <= later
    ensures Refilled(bucket, l, later)
         >= MinReal(l.burst as real, Refilled(bucket, l, now) + Dripped(later - now, l.rate))
  {
    RefilledIs(bucket, l, now);
    RefilledIs(bucket, l, later);
    DrippedGrows(bucket.last, now, later, l.rate);
    hide Refilled, Dripped;
  }

  lemma RefilledIs(bucket: Bucket, l: Limits, now: real)
    ensures Refilled(bucket, l, now) == MinReal(l.burst as real, bucket.tokens + Dripped(now - bucket.last, l.rate))
  {
  }

  /** One request takes at most one token from its client, and eviction takes none. */
  lemma LevelAfterConsumed(b: Buckets, l: Limits, key: ClientKey, other: ClientKey, now: real)
    requires l.Configured()
    ensures Level(Consumed(b, l, key, now, true), l, other, now)
         >= Level(b, l, other, now) - (if other == key then 1.0 else 0.0)
  {
    LevelAtMostBurst(b, l, other, now);
    LevelAtMostBurst(b, l, key, now);
    FreshLevel(l, Level(b, l, key, now), now);
    FreshLevel(l, Level(b, l, key, now) - 1.0, now);
    hide Refilled;
  }

  lemma LevelAtMostBurst(b: Buckets, l: Limits, key: ClientKey, now: real)
    ensures Level(b, l, key, now) <= l.burst as real
  {
  }

  lemma CountOfNext(reqs: seq<Request>, i: nat, n: nat, key: ClientKey)
    requires i <= n < |reqs|
    ensures CountOf(reqs[i..n + 1], key) == CountOf(reqs[i..n], key) + (if reqs[n].key == key then 1 else 0)
  {
    assert reqs[i..n + 1][..n - i] == reqs[i..n];
  }

  /** The claim on the bucket survives the drip up to a later moment. */
  lemma FundedLater(b: Buckets, l: Limits, reqs: seq<Request>, n: nat, key: ClientKey, now: real, later: real)
    requires l.Configured() && now <= later && Funded(b, l, reqs, n, key, now)
    ensures Funded(b, l, reqs, n, key, later)
  {
    hide Level, CountOf, Dripped;
    LevelLater(b, l, key, now, later);
    var level, after := Level(b, l, key, now), Level(b, l, key, later);
    DrippedGrows(now, now, later, l.rate);
    if level < l.burst as real && after < l.burst as real {
      var i :| Owed(l, reqs, n, i, key, level, now);
      DrippedGrows(reqs[i].time, now, later, l.rate);
      assert Owed(l, reqs, n, i, key, after, later);
    }
  }

  /** And one more request of any client. */
  lemma FundedStep(b: Buckets, l: Limits, reqs: seq<Request>, n: nat, key: ClientKey)
    requires l.Configured() && n < |reqs| && Funded(b, l, reqs, n, key, reqs[n].time)
    ensures Funded(Consumed(b, l, reqs[n].key, reqs[n].time, true), l, reqs, n + 1, key, reqs[n].time)
  {
    hide Level, CountOf, Consumed, Dripped;
    var now := reqs[n].time;
    var level := Level(b, l, key, now);
    var after := Level(Consumed(b, l, reqs[n].key, now, true), l, key, now);
    LevelAfterConsumed(b, l, reqs[n].key, key, now);
    if level < l.burst as real {
      var i :| Owed(l, reqs, n, i, key, level, now);
      CountOfNext(reqs, i, n, key);
      assert Owed(l, reqs, n + 1, i, key, after, now);
    } else if reqs[n].key == key {
      CountOfNone(reqs, n, key);
      CountOfNext(reqs, n, n, key);
      DrippedGrows(now, now, now, l.rate);
      assert Owed(l, reqs, n + 1, n, key, after, now);
    }
  }

  lemma CountOfNone(reqs: seq<Request>, n: nat, key: ClientKey)
    requires n <= |reqs|
    ensures CountOf(reqs[n..n], key) == 0
  {
  }

  lemma {:induction false} FundedRun(l: Limits, reqs: seq<Request>, start: real, n: nat, key: ClientKey, now: real)
    requires l.Configured() && Monotone(reqs, start) && n <= |reqs|
    requires if n == 0 then start <= now else reqs[n - 1].time <= now
    ensures Funded(Final(map[], l, reqs[..n], true), l, reqs, n, key, now)
  {
    hide Final, Consumed, Funded;
    if n == 0 {
      FullAtFirst(l, reqs, key, now);
      assert reqs[..0] == [];
    } else {
      var r, before := reqs[n - 1], Final(map[], l, reqs[..n - 1], true);
      FundedRun(l, reqs, start, n - 1, key, r.time);
      FundedStep(before, l, reqs, n - 1, key);
      assert reqs[..n] == reqs[..n - 1] + [r];
      FinalSnoc(map[], l, reqs[..n - 1], r, true);
      FundedLater(Final(map[], l, reqs[..n], true), l, reqs, n, key, r.time, now);
    }
  }

  lemma FullAtFirst(l: Limits, reqs: seq<Request>, key: ClientKey, now: real)
    ensures Funded(Final(map[], l, [], true), l, reqs, 0, key, now)
  {
  }

  /** The verdict on request j. */
  lemma VerdictAt(l: Limits, reqs: seq<Request>, j: nat)
    requires l.Configured() && j < |reqs|
    ensures var level := Level(Final(map[], l, reqs[..j], true), l, reqs[j].key, reqs[j].time);
            Verdicts(map[], l, reqs, true)[j] == Judge(level, l)
  {
    hide Final, Consumed, Level, Judge;
    RunSplits(map[], l, reqs[..j], reqs[j..], true);
    assert reqs[..j] + reqs[j..] == reqs;
    VerdictsHead(Final(map[], l, reqs[..j], true), l, reqs[j..], true);
  }

  /**
  The converse of the window bound: from the start, whatever other clients do and evicted or not, a request is admitted
  whenever no stretch of its client's requests up to it exceeds the burst plus what the stretch's length drips in.
  */
  lemma ConformingAdmitted(l: Limits, reqs: seq<Request>, start: real, j: nat)
    requires l.Configured() && Monotone(reqs, start) && j < |reqs|
    requires forall i :: 0 <= i <= j && reqs[i].key == reqs[j].key ==>
               CountOf(reqs[i..j + 1], reqs[j].key) as real <= l.burst as real + (reqs[j].time - reqs[i].time) * l.rate
    ensures Verdicts(map[], l, reqs, true)[j].Admitted?
  {
    var key, now := reqs[j].key, reqs[j].time;
    hide Final, Verdicts, CountOf, Level, Funded, Monotone;
    FundedRun(l, reqs, start, j, key, now);
    VerdictAt(l, reqs, j);
    FundedMeans(Final(map[], l, reqs[..j], true), l, reqs, j);
  }

  lemma FundedMeans(b: Buckets, l: Limits, reqs: seq<Request>, j: nat)
    requires l.Configured() && j < |reqs| && Funded(b, l, reqs, j, reqs[j].key, reqs[j].time)
    requires forall i :: 0 <= i <= j && reqs[i].key == reqs[j].key ==>
               CountOf(reqs[i..j + 1], reqs[j].key) as real <= l.burst as real + (reqs[j].time - reqs[i].time) * l.rate
    ensures Level(b, l, reqs[j].key, reqs[j].time) >= 1.0
  {
    hide CountOf, Level;
    var key, now := reqs[j].key, reqs[j].time;
    if Level(b, l, key, now) < l.burst as real {
      var i :| Owed(l, reqs, j, i, key, Level(b, l, key, now), now);
      CountOfNext(reqs, i, j, key);
    }
  }
}
