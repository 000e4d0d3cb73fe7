/** The older pool generation of fabric.go. It declares the same Go names as
    ratespull.go and cannot be built together with it, so it is a module of its
    own. A pool keeps one stop channel and one unbuffered rate channel per feed:
    a stop channel is modelled by whether it is closed, a rate channel by the
    reading a blocked sender is offering on it, if any. */
module Fabric {
  import opened Wrappers
  import opened Errors
  import opened Results
  import Config
  import Sources

  datatype RatesPull = RatesPull(title: string, stopChans: seq<bool>, rateChans: seq<Option<Sources.RateInfo>>)

  /** What one `GetRate` call reports, with the pool after it. */
  datatype Step = Step(result: RateResult, next: RatesPull)

  /** The two lists grow together, one entry per feed. */
  predicate WellFormed(p: RatesPull) {
    |p.stopChans| == |p.rateChans|
  }

  /** The number of channels with a reading ready. */
  function ReadyCount(cs: seq<Option<Sources.RateInfo>>): nat {
    if cs == [] then 0
    else ReadyCount(cs[..|cs| - 1]) + (if cs[|cs| - 1].Some? then 1 else 0)
  }

  /** The sum of the ready readings. */
  function ReadySum(cs: seq<Option<Sources.RateInfo>>): real {
    if cs == [] then 0.0
    else ReadySum(cs[..|cs| - 1]) + (if cs[|cs| - 1].Some? then cs[|cs| - 1].value.rate else 0.0)
  }

  /** The positions of the channels with a reading ready. */
  function ReadyIndices(cs: seq<Option<Sources.RateInfo>>): set<int> {
    set i | 0 <= i < |cs| && cs[i].Some?
  }

  /** The running count is the number of ready channels. */
  lemma {:induction false} ReadyCountIsReadyPositions(cs: seq<Option<Sources.RateInfo>>)
    ensures ReadyCount(cs) == |ReadyIndices(cs)|
  {
    if cs != [] {
      var pre := cs[..|cs| - 1];
      var n := |cs| - 1;
      ReadyCountIsReadyPositions(pre);
      var before := ReadyIndices(pre);
      assert before == set i | 0 <= i < n && cs[i].Some?;
      if cs[n].Some? {
        assert ReadyIndices(cs) == before + {n};
        assert n !in before;
      } else {
        assert ReadyIndices(cs) == before;
      }
    }
  }

  lemma ReadyCountBounded(cs: seq<Option<Sources.RateInfo>>)
    ensures ReadyCount(cs) <= |cs|
  {
  }

  /** `RatesPull.GetRate` of fabric.go: one non-blocking receive per rate
      channel. Every offered reading is taken and counted, whatever its expiry
      time; channels with nothing ready are skipped; the stop channels are not
      looked at. */
  function GetRate(p: RatesPull): (o: Step)
    ensures o.result.totalSources == |p.rateChans| && o.result.errors == []
    ensures 0 <= o.result.countSources <= o.result.totalSources
    ensures o.result.countSources == |ReadyIndices(p.rateChans)|
    ensures o.result.countSources > 0 ==> o.result.rate * o.result.countSources as real == ReadySum(p.rateChans)
    ensures o.result.countSources == 0 ==> o.result.rate == 0.0
    ensures o.next.title == p.title && o.next.stopChans == p.stopChans
    ensures |o.next.rateChans| == |p.rateChans|
    ensures forall i :: 0 <= i < |o.next.rateChans| ==> o.next.rateChans[i].None?
  {
    ReadyCountIsReadyPositions(p.rateChans);
    ReadyCountBounded(p.rateChans);
    var count := ReadyCount(p.rateChans);
    var result := RateResult(Mean(ReadySum(p.rateChans), count), count, |p.rateChans|, []);
    Step(result, p.(rateChans := seq(|p.rateChans|, _ => None)))
  }

  /** Two pools offering readings of the same rates count the same, however
      long ago those readings expired: there is no expiry test. */
  lemma {:induction false} ExpiryIsIgnored(cs: seq<Option<Sources.RateInfo>>, ds: seq<Option<Sources.RateInfo>>)
    requires |cs| == |ds|
    requires forall i :: 0 <= i < |cs| ==> (cs[i].Some? <==> ds[i].Some?)
    requires forall i :: 0 <= i < |cs| && cs[i].Some? ==> cs[i].value.rate == ds[i].value.rate
    ensures ReadyCount(cs) == ReadyCount(ds) && ReadySum(cs) == ReadySum(ds)
  {
    if cs != [] {
      var n := |cs| - 1;
      ExpiryIsIgnored(cs[..n], ds[..n]);
    }
  }

  /** The readings a pool offers are all consumed: a second call right after counts none. */
  lemma SecondReadFindsNothing(p: RatesPull)
    ensures GetRate(GetRate(p).next).result.countSources == 0
    ensures GetRate(GetRate(p).next).result.totalSources == GetRate(p).result.totalSources
  {
    var q := GetRate(p).next;
    assert ReadyIndices(q.rateChans) == {};
  }

  /** `RatesPull.AddSource` of fabric.go, bookkeeping only: a fresh open stop
      channel and an empty rate channel are appended. */
  function AddSource(p: RatesPull, s: Sources.RateSource): (q: RatesPull)
    ensures q.title == p.title
    ensures q.stopChans == p.stopChans + [false]
    ensures q.rateChans == p.rateChans + [None]
  {
    p.(stopChans := p.stopChans + [false], rateChans := p.rateChans + [None])
  }

  lemma AddSourcePreservesWellFormed(p: RatesPull, s: Sources.RateSource)
    requires WellFormed(p)
    ensures WellFormed(AddSource(p, s))
    ensures |AddSource(p, s).rateChans| == |p.rateChans| + 1
  {
  }

  /** `RatesPull.Destroy` of fabric.go: every stop channel is closed. Closing a
      channel that is already closed is a Go panic. The rate channels stay. */
  function Destroy(p: RatesPull): (r: Result<RatesPull, Error>)
    ensures r.Failure? <==> exists i :: 0 <= i < |p.stopChans| && p.stopChans[i]
    ensures r.Failure? ==> r.error.Panic?
    ensures r.Success? ==>
              && r.value.title == p.title
              && r.value.rateChans == p.rateChans
              && |r.value.stopChans| == |p.stopChans|
              && forall i :: 0 <= i < |p.stopChans| ==> r.value.stopChans[i]
  {
    if exists i :: 0 <= i < |p.stopChans| && p.stopChans[i] then Failure(Panic("close of closed channel"))
    else Success(p.(stopChans := seq(|p.stopChans|, _ => true)))
  }

  /** `Destroy` does not shrink the pool: a later `GetRate` still reports every feed. */
  lemma DestroyKeepsTotal(p: RatesPull)
    requires Destroy(p).Success?
    ensures GetRate(Destroy(p).value).result.totalSources == GetRate(p).result.totalSources
    ensures WellFormed(p) ==> WellFormed(Destroy(p).value)
  {
  }

  /** A second `Destroy` of a pool with at least one feed panics. */
  lemma DestroyTwicePanics(p: RatesPull)
    requires Destroy(p).Success? && |p.stopChans| > 0
    ensures Destroy(Destroy(p).value).Failure?
  {
    assert Destroy(p).value.stopChans[0];
  }

  /** `getRatesCheckPull` of fabric.go: the feeds whose `init` succeeds are
      added in order; the error result is always nil. */
  function GetRatesCheckPull(config: seq<Config.RateFeed>, title: string): (r: Result<RatesPull, Error>)
    ensures r.Success? && r.value.title == title
    ensures WellFormed(r.value) && |r.value.rateChans| == |Sources.Accepted(config)|
    ensures forall i :: 0 <= i < |r.value.rateChans| ==> r.value.rateChans[i].None? && !r.value.stopChans[i]
  {
    Success(AddAll(RatesPull(title, [], []), Sources.Accepted(config)))
  }

  /** `AddSource` for each source in turn. */
  function AddAll(p: RatesPull, ss: seq<Sources.RateSource>): (q: RatesPull)
    ensures q.title == p.title
    ensures q.stopChans == p.stopChans + seq(|ss|, _ => false)
    ensures q.rateChans == p.rateChans + seq(|ss|, _ => None)
    decreases |ss|
  {
    if ss == [] then p else AddAll(AddSource(p, ss[0]), ss[1..])
  }
}
