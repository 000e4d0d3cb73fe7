/** The decisions of `showStatus` (main.go): which figures are shown, the
    guarded cross rate, and the source counts. The line of text built from
    them is not modelled; an undefined figure is `None`. */
module Status {
  import opened Wrappers
  import opened Results
  import Config
  import Pulls

  datatype Status = Status(
    btcUsd: Option<real>,
    eurUsd: Option<real>,
    btcEur: Option<real>,
    btcActive: int,
    btcTotal: int,
    eurActive: int,
    eurTotal: int)

  /** The BTC/EUR figure: the quotient of the two rates, or 0 when the euro rate is not positive. */
  function CrossRate(btcUsd: real, eurUsd: real): (x: real)
    ensures eurUsd > 0.0 ==> x * eurUsd == btcUsd
    ensures eurUsd <= 0.0 ==> x == 0.0
  {
    if eurUsd > 0.0 then btcUsd / eurUsd else 0.0
  }

  /** `showStatus` on the results of the bitcoin pool `r1` and the euro pool `r2`. */
  function ShowStatus(r1: RateResult, r2: RateResult, config: Config.Configuration): (s: Status)
    ensures s.btcUsd.Some? <==> r1.countSources >= config.minBitcoin
    ensures s.btcUsd.Some? ==> s.btcUsd.value == r1.rate
    ensures s.eurUsd.Some? <==> r2.countSources >= config.minEuro
    ensures s.eurUsd.Some? ==> s.eurUsd.value == r2.rate
    ensures s.btcEur.Some? <==> s.btcUsd.Some? && s.eurUsd.Some?
    ensures s.btcEur.Some? && r2.rate > 0.0 ==> s.btcEur.value * r2.rate == r1.rate
    ensures s.btcEur.Some? && r2.rate <= 0.0 ==> s.btcEur.value == 0.0
    ensures s.btcActive == r1.countSources && s.btcTotal == r1.totalSources
    ensures s.eurActive == r2.countSources && s.eurTotal == r2.totalSources
  {
    var btcOk := r1.countSources >= config.minBitcoin;
    var eurOk := r2.countSources >= config.minEuro;
    Status(
      if btcOk then Some(r1.rate) else None,
      if eurOk then Some(r2.rate) else None,
      if btcOk && eurOk then Some(CrossRate(r1.rate, r2.rate)) else None,
      r1.countSources, r1.totalSources, r2.countSources, r2.totalSources)
  }

  /** The three figures shown are consistent: BTC/EUR times EUR/USD is BTC/USD
      whenever the euro rate is positive. */
  lemma CrossRateConsistent(r1: RateResult, r2: RateResult, config: Config.Configuration)
    requires ShowStatus(r1, r2, config).btcEur.Some? && r2.rate > 0.0
    ensures var s := ShowStatus(r1, r2, config);
            s.btcEur.value * s.eurUsd.value == s.btcUsd.value
  {
  }

  /** Shown against two live pools at time `now`: the BTC/USD figure appears
      exactly when at least `MinBitcoin` bitcoin feeds hold an unexpired reading,
      and the active counts never exceed the totals. */
  lemma QuorumCountsLiveFeeds(bpull: Pulls.RatesPull, epull: Pulls.RatesPull, now: int, config: Config.Configuration)
    ensures var b := Pulls.Collect(bpull, now);
            var e := Pulls.Collect(epull, now);
            var s := ShowStatus(b.result, e.result, config);
            && (s.btcUsd.Some? <==> |Pulls.LiveIndices(b.next.threads, now)| >= config.minBitcoin)
            && (s.eurUsd.Some? <==> |Pulls.LiveIndices(e.next.threads, now)| >= config.minEuro)
            && 0 <= s.btcActive <= s.btcTotal == |bpull.threads|
            && 0 <= s.eurActive <= s.eurTotal == |epull.threads|
  {
  }
}
