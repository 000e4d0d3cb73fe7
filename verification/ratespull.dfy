/** The pool of feeds of one instrument (`RatesPull` of ratespull.go). Each
    feed runs as a routine that pushes readings into a buffered queue; here a
    routine is a record holding that queue as a sequence, filled by the
    environment, together with the last reading taken from it. */
module Pulls {
  import opened Wrappers
  import opened Errors
  import opened Results
  import Config
  import Sources

  /** One running feed: its title, the readings waiting in its queue (oldest
      first) and the last reading the pool has taken out. */
  datatype RateRoutine = RateRoutine(title: string, queue: seq<Sources.RateInfo>, lastRate: Sources.RateInfo)

  /** A pool: its title and its routines, in the order they were added. */
  datatype RatesPull = RatesPull(title: string, threads: seq<RateRoutine>)

  /** What one `GetRate` call reports, with the pool after it. */
  datatype Step = Step(result: RateResult, next: RatesPull)

  /** The zero `RateInfo` a routine starts with: rate 0, expired at time 0. */
  const NoRate: Sources.RateInfo := Sources.RateInfo(0.0, 0, "")

  // ---------------------------------------------------------------------------
  // Draining a queue
  // ---------------------------------------------------------------------------

  /** The inner loop of `GetRate`: take readings out one at a time until none is
      ready, remembering each as the last rate. */
  function Drain(r: RateRoutine): (d: RateRoutine)
    ensures d.title == r.title && d.queue == []
    ensures r.queue == [] ==> d.lastRate == r.lastRate
    ensures r.queue != [] ==> d.lastRate == r.queue[|r.queue| - 1]
    decreases |r.queue|
  {
    if r.queue == [] then r
    else Drain(r.(queue := r.queue[1..], lastRate := r.queue[0]))
  }

  /** Every routine of a pool drained. */
  function DrainAll(ts: seq<RateRoutine>): (ds: seq<RateRoutine>)
    ensures |ds| == |ts|
    ensures forall i :: 0 <= i < |ts| ==> ds[i] == Drain(ts[i])
  {
    seq(|ts|, i requires 0 <= i < |ts| => Drain(ts[i]))
  }

  /** A drained routine has nothing left to drain. */
  lemma DrainIdempotent(r: RateRoutine)
    ensures Drain(Drain(r)) == Drain(r)
  {
  }

  lemma DrainAllIdempotent(ts: seq<RateRoutine>)
    ensures DrainAll(DrainAll(ts)) == DrainAll(ts)
  {
    forall i | 0 <= i < |ts|
      ensures DrainAll(DrainAll(ts))[i] == DrainAll(ts)[i]
    {
      DrainIdempotent(ts[i]);
    }
  }

  lemma DrainAllConcat(ts: seq<RateRoutine>, r: RateRoutine)
    ensures DrainAll(ts + [r]) == DrainAll(ts) + [Drain(r)]
  {
  }

  // ---------------------------------------------------------------------------
  // The expiry test and the readings it counts
  // ---------------------------------------------------------------------------

  /** A routine's last reading counts when it expires strictly after `now`. */
  predicate Live(r: RateRoutine, now: int) {
    r.lastRate.expires > now
  }

  /** The number of routines whose last reading is live. */
  function LiveCount(ts: seq<RateRoutine>, now: int): nat {
    if ts == [] then 0
    else LiveCount(ts[..|ts| - 1], now) + (if Live(ts[|ts| - 1], now) then 1 else 0)
  }

  /** The sum of the live last readings. */
  function LiveSum(ts: seq<RateRoutine>, now: int): real {
    if ts == [] then 0.0
    else LiveSum(ts[..|ts| - 1], now) + (if Live(ts[|ts| - 1], now) then ts[|ts| - 1].lastRate.rate else 0.0)
  }

  /** The positions of the routines whose last reading is live. */
  function LiveIndices(ts: seq<RateRoutine>, now: int): set<int> {
    set i | 0 <= i < |ts| && Live(ts[i], now)
  }

  /** The running count is the number of live positions: a routine is counted
      exactly when its last reading expires after `now`. */
  lemma {:induction false} LiveCountIsLivePositions(ts: seq<RateRoutine>, now: int)
    ensures LiveCount(ts, now) == |LiveIndices(ts, now)|
  {
    if ts != [] {
      var pre := ts[..|ts| - 1];
      var n := |ts| - 1;
      LiveCountIsLivePositions(pre, now);
      var before := LiveIndices(pre, now);
      assert before == set i | 0 <= i < n && Live(ts[i], now);
      if Live(ts[n], now) {
        assert LiveIndices(ts, now) == before + {n};
        assert n !in before;
      } else {
        assert LiveIndices(ts, now) == before;
      }
    }
  }

  lemma LiveCountBounded(ts: seq<RateRoutine>, now: int)
    ensures LiveCount(ts, now) <= |ts|
  {
  }

  /** When every live reading lies in `[lo, hi]`, so does their sum, scaled by their number. */
  lemma {:induction false} LiveSumBounds(ts: seq<RateRoutine>, now: int, lo: real, hi: real)
    requires forall i :: 0 <= i < |ts| && Live(ts[i], now) ==> lo <= ts[i].lastRate.rate <= hi
    ensures LiveCount(ts, now) as real * lo <= LiveSum(ts, now) <= LiveCount(ts, now) as real * hi
  {
    if ts != [] {
      var n := |ts| - 1;
      assert forall i :: 0 <= i < n ==> ts[..n][i] == ts[i];
      LiveSumBounds(ts[..n], now, lo, hi);
      LiveSumBoundsStep(ts, now, lo, hi);
    }
  }

  lemma LiveSumBoundsStep(ts: seq<RateRoutine>, now: int, lo: real, hi: real)
    requires ts != []
    requires Live(ts[|ts| - 1], now) ==> lo <= ts[|ts| - 1].lastRate.rate <= hi
    requires var pre := ts[..|ts| - 1];
             LiveCount(pre, now) as real * lo <= LiveSum(pre, now) <= LiveCount(pre, now) as real * hi
    ensures LiveCount(ts, now) as real * lo <= LiveSum(ts, now) <= LiveCount(ts, now) as real * hi
  {
    var pre := ts[..|ts| - 1];
    var r := ts[|ts| - 1];
    if Live(r, now) {
      BoundsStep(LiveCount(pre, now) as real, LiveSum(pre, now), r.lastRate.rate, lo, hi);
    }
  }

  lemma BoundsStep(c: real, sum: real, x: real, lo: real, hi: real)
    requires c * lo <= sum <= c * hi && lo <= x <= hi
    ensures (c + 1.0) * lo <= sum + x <= (c + 1.0) * hi
  {
    assert (c + 1.0) * lo == c * lo + lo && (c + 1.0) * hi == c * hi + hi;
  }

  // ---------------------------------------------------------------------------
  // GetRate
  // ---------------------------------------------------------------------------

  /** The summary of drained routines at time `now`: every routine is in the
      total, the live ones are counted and averaged, and no error is ever reported. */
  function Aggregate(ts: seq<RateRoutine>, now: int): (r: RateResult)
    ensures r.totalSources == |ts| && r.errors == []
    ensures 0 <= r.countSources <= r.totalSources
    ensures r.countSources == |LiveIndices(ts, now)|
    ensures r.countSources > 0 ==> r.rate * r.countSources as real == LiveSum(ts, now)
    ensures r.countSources == 0 ==> r.rate == 0.0
  {
    LiveCountIsLivePositions(ts, now);
    LiveCountBounded(ts, now);
    RateResult(Mean(LiveSum(ts, now), LiveCount(ts, now)), LiveCount(ts, now), |ts|, [])
  }

  /** `RatesPull.GetRate` as one step: drain every queue, then aggregate. */
  function Collect(p: RatesPull, now: int): (o: Step)
    ensures o.next.title == p.title && |o.next.threads| == |p.threads|
    ensures forall i :: 0 <= i < |p.threads| ==>
              && o.next.threads[i].queue == []
              && o.next.threads[i].title == p.threads[i].title
              && o.next.threads[i].lastRate ==
                   (if p.threads[i].queue == [] then p.threads[i].lastRate
                    else p.threads[i].queue[|p.threads[i].queue| - 1])
    ensures o.result == Aggregate(o.next.threads, now)
  {
    var next := p.(threads := DrainAll(p.threads));
    Step(Aggregate(next.threads, now), next)
  }

  /** `RatesPull.GetRate` (ratespull.go:29-82) with the loops of the source: each
      queue is emptied item by item, then the routine's last reading is summed
      when it expires after `now`. The outcome is the one-step definition `Collect`. */
  method GetRate(p: RatesPull, now: int) returns (result: RateResult, next: RatesPull)
    ensures Step(result, next) == Collect(p, now)
  {
    var threads := p.threads;
    var sum := 0.0;
    var count := 0;
    var i := 0;
    while i < |threads|
      invariant 0 <= i <= |threads| == |p.threads|
      invariant forall k :: 0 <= k < i ==> threads[k] == Drain(p.threads[k])
      invariant forall k :: i <= k < |threads| ==> threads[k] == p.threads[k]
      invariant sum == LiveSum(threads[..i], now)
      invariant count == LiveCount(threads[..i], now)
    {
      var routine := threads[i];
      while routine.queue != []
        invariant Drain(routine) == Drain(threads[i])
        decreases |routine.queue|
      {
        routine := routine.(lastRate := routine.queue[0], queue := routine.queue[1..]);
      }
      var before := threads;
      threads := threads[i := routine];
      assert threads[..i] == before[..i];
      assert threads[..i + 1][..i] == threads[..i];
      if routine.lastRate.expires > now {
        sum := sum + routine.lastRate.rate;
        count := count + 1;
      }
      i := i + 1;
    }
    assert threads[..i] == threads;
    assert threads == DrainAll(p.threads);
    result := RateResult(Mean(sum, count), count, |threads|, []);
    next := p.(threads := threads);
  }

  /** Asking twice at the same instant, with nothing queued in between, gives the same answer. */
  lemma GetRateIdempotent(p: RatesPull, now: int)
    ensures Collect(Collect(p, now).next, now) == Collect(p, now)
  {
    DrainAllIdempotent(p.threads);
  }

  /** A reading that expires exactly at `now` is not counted; one second later it would have been. */
  lemma ExpiryIsStrict(p: RatesPull, now: int, i: int)
    requires 0 <= i < |p.threads|
    requires Collect(p, now).next.threads[i].lastRate.expires == now
    ensures i !in LiveIndices(Collect(p, now).next.threads, now)
    ensures i in LiveIndices(Collect(p, now - 1).next.threads, now - 1)
  {
  }

  /** The reported rate lies between the smallest and largest live reading. */
  lemma RateWithinReadings(p: RatesPull, now: int, lo: real, hi: real)
    requires var ts := Collect(p, now).next.threads;
             forall i :: 0 <= i < |ts| && Live(ts[i], now) ==> lo <= ts[i].lastRate.rate <= hi
    requires Collect(p, now).result.countSources > 0
    ensures lo <= Collect(p, now).result.rate <= hi
  {
    AggregateWithinReadings(Collect(p, now).next.threads, now, lo, hi);
  }

  lemma AggregateWithinReadings(ts: seq<RateRoutine>, now: int, lo: real, hi: real)
    requires forall i :: 0 <= i < |ts| && Live(ts[i], now) ==> lo <= ts[i].lastRate.rate <= hi
    requires Aggregate(ts, now).countSources > 0
    ensures lo <= Aggregate(ts, now).rate <= hi
  {
    LiveSumBounds(ts, now, lo, hi);
    MeanWithinBounds(LiveSum(ts, now), LiveCount(ts, now), lo, hi);
  }

  /** Two feeds with a 30-second TTL, each of which queued one reading scraped
      at time 1: at time 1 both count and the rate is their mean; at time 31
      both readings have expired and nothing counts, though both stay in the total. */
  lemma TwoFeedsExpireTogether(a: Sources.RateInfo, b: Sources.RateInfo)
    requires a == Sources.RateInfo(100.0, 1 + 30, "bitstamp")
    requires b == Sources.RateInfo(102.0, 1 + 30, "coinbase")
    ensures var p := RatesPull("Bitcoin", [RateRoutine("bitstamp", [a], NoRate), RateRoutine("coinbase", [b], NoRate)]);
            && Collect(p, 1).result == RateResult(101.0, 2, 2, [])
            && Collect(p, 31).result == RateResult(0.0, 0, 2, [])
  {
    var p := RatesPull("Bitcoin", [RateRoutine("bitstamp", [a], NoRate), RateRoutine("coinbase", [b], NoRate)]);
    var ts := Collect(p, 1).next.threads;
    assert ts == Collect(p, 31).next.threads;
    assert ts == [RateRoutine("bitstamp", [], a), RateRoutine("coinbase", [], b)];
    PairCounts(ts[0], ts[1], 1);
    PairCounts(ts[0], ts[1], 31);
  }

  lemma PairCounts(r1: RateRoutine, r2: RateRoutine, now: int)
    ensures LiveCount([r1, r2], now) == (if Live(r1, now) then 1 else 0) + (if Live(r2, now) then 1 else 0)
    ensures LiveSum([r1, r2], now) ==
              (if Live(r1, now) then r1.lastRate.rate else 0.0) + (if Live(r2, now) then r2.lastRate.rate else 0.0)
  {
    var ts := [r1, r2];
    assert ts[..1] == [r1];
    assert ts[..1][..0] == [];
    assert LiveCount([r1], now) == (if Live(r1, now) then 1 else 0);
    assert LiveSum([r1], now) == (if Live(r1, now) then r1.lastRate.rate else 0.0);
  }

  // ---------------------------------------------------------------------------
  // AddSource, Destroy, getRatesCheckPull
  // ---------------------------------------------------------------------------

  /** The routine `AddSource` starts for a feed: its title, an empty queue, no reading yet. */
  function NewRoutine(s: Sources.RateSource): (r: RateRoutine)
    ensures r.title == s.title && r.queue == [] && r.lastRate.expires == 0
  {
    RateRoutine(s.title, [], NoRate)
  }

  /** `RatesPull.AddSource`, bookkeeping only: one routine is appended and the others are kept. */
  function AddSource(p: RatesPull, s: Sources.RateSource): (q: RatesPull)
    ensures q.title == p.title
    ensures |q.threads| == |p.threads| + 1
    ensures q.threads[..|p.threads|] == p.threads
    ensures q.threads[|p.threads|] == NewRoutine(s)
  {
    p.(threads := p.threads + [NewRoutine(s)])
  }

  /** A routine just added has produced nothing yet: at any time after the
      epoch it adds to the total but not to the count or the rate. */
  lemma AddSourceCountsOnlyInTotal(p: RatesPull, s: Sources.RateSource, now: int)
    requires now >= 0
    ensures var before := Collect(p, now).result;
            var after := Collect(AddSource(p, s), now).result;
            && after.totalSources == before.totalSources + 1
            && after.countSources == before.countSources
            && after.rate == before.rate
  {
    var ts := p.threads;
    DrainAllConcat(ts, NewRoutine(s));
    var ds := DrainAll(ts) + [Drain(NewRoutine(s))];
    assert ds[..|ds| - 1] == DrainAll(ts);
    LiveCountIsLivePositions(ds, now);
    LiveCountIsLivePositions(DrainAll(ts), now);
  }

  /** `RatesPull.Destroy`: every routine is stopped and the pool is left with none. */
  function Destroy(p: RatesPull): (q: RatesPull)
    ensures q.title == p.title && q.threads == []
  {
    p.(threads := [])
  }

  /** After `Destroy` the pool reports no source at all. */
  lemma DestroyedPoolReportsNothing(p: RatesPull, now: int)
    ensures Collect(Destroy(p), now).result == RateResult(0.0, 0, 0, [])
  {
    LiveCountIsLivePositions([], now);
  }

  /** The routines `getRatesCheckPull` starts for initialised feeds, in order. */
  function Routines(ss: seq<Sources.RateSource>): (ts: seq<RateRoutine>)
    ensures |ts| == |ss|
    ensures forall i :: 0 <= i < |ss| ==> ts[i] == NewRoutine(ss[i])
  {
    seq(|ss|, i requires 0 <= i < |ss| => NewRoutine(ss[i]))
  }

  /** `getRatesCheckPull` (ratespull.go:147-163): each configured feed is
      initialised; failures are skipped, the others are added in order. The
      error result is always nil. */
  method GetRatesCheckPull(config: seq<Config.RateFeed>, title: string) returns (r: Result<RatesPull, Error>)
    ensures r.Success?
    ensures r.value.title == title
    ensures r.value.threads == Routines(Sources.Accepted(config))
  {
    var pull := RatesPull(title, []);
    var i := 0;
    while i < |config|
      invariant 0 <= i <= |config|
      invariant pull.title == title
      invariant pull.threads == Routines(Sources.Accepted(config[..i]))
    {
      assert config[..i + 1][..i] == config[..i];
      var bs := Sources.Init(config[i]);
      if bs.Success? {
        pull := AddSource(pull, bs.value);
      }
      i := i + 1;
    }
    assert config[..i] == config;
    r := Success(pull);
  }

  /** Every routine of a freshly built pool belongs to a configured feed that initialised. */
  lemma CheckPullRoutinesComeFromConfig(config: seq<Config.RateFeed>, i: int)
    requires 0 <= i < |Sources.Accepted(config)|
    ensures exists j :: 0 <= j < |config| && Sources.Init(config[j]).Success? &&
                        Routines(Sources.Accepted(config))[i].title == config[j].title
  {
    Sources.AcceptedComeFromConfig(config);
    var j :| 0 <= j < |config| && Sources.Init(config[j]) == Success(Sources.Accepted(config)[i]);
    assert Routines(Sources.Accepted(config))[i].title == config[j].title;
  }
}
