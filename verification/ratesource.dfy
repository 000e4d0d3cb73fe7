/** One price feed with its time-to-live cache (`RateSource` of ratesource.go).
    The clock is the parameter `now` (Unix seconds) and the scraper call is an
    oracle: `GetRate` receives what `Scraper.getData()` would return, and
    whether that value is used at all is part of what is proved. */
module Sources {
  import opened Wrappers
  import opened Errors
  import opened Config
  import Scrapers
  import Numbers

  /** The time-to-live a feed gets when its configured `Expires` is below one second. */
  const DefaultExpires: int := 30

  /** One reading handed from a feed to its pool. */
  datatype RateInfo = RateInfo(rate: real, expires: int, sourceTitle: string)

  /** A feed after `init`: its title, scraper, TTL and the last successful scrape. */
  datatype RateSource = RateSource(
    title: string,
    scraper: Scrapers.Scraper,
    expires: int,
    lastScrapTime: int,
    lastResult: real)

  /** What one call of `getRate` returns, together with the feed's state after it. */
  datatype Sample = Sample(outcome: Result<RateInfo, Error>, next: RateSource)

  /** The TTL normalisation of `init`: below one second means the default. */
  function NormalizeExpires(configured: int): (e: int)
    ensures e >= 1
    ensures configured >= 1 ==> e == configured
    ensures configured < 1 ==> e == DefaultExpires
  {
    if configured < 1 then DefaultExpires else configured
  }

  /** `RateSource.init` on a fresh (zero) `RateSource`: the TTL is normalised,
      the cache is empty, the title is copied, and the result is exactly the
      outcome of `getScraper`, whose error is passed on unchanged. */
  function Init(feed: RateFeed): (r: Result<RateSource, Error>)
    ensures var sc := Scrapers.GetScraper(feed.scrapperClass, feed.url, feed.scraperOptions);
            && (r.Success? <==> sc.Success?)
            && (r.Failure? ==> r.error == sc.error)
            && (r.Success? ==> r.value.scraper == sc.value)
    ensures r.Success? ==>
              && r.value.title == feed.title
              && r.value.lastScrapTime == 0
              && r.value.expires >= 1
              && (feed.expires >= 1 ==> r.value.expires == feed.expires)
              && (feed.expires < 1 ==> r.value.expires == DefaultExpires)
  {
    var sc := Scrapers.GetScraper(feed.scrapperClass, feed.url, feed.scraperOptions);
    if sc.Failure? then Failure(sc.error)
    else Success(RateSource(feed.title, sc.value, NormalizeExpires(feed.expires), 0, 0.0))
  }

  /** The cache test of `getRate` as written (ratesource.go:56-57): the stored
      reading is served when it is LATER than its TTL, not within it. */
  predicate ServesCache(s: RateSource, now: int) {
    s.lastScrapTime > 0 && s.lastScrapTime + s.expires < now
  }

  /** `RateSource.getRate` at time `now`; `scraped` is what `getData()` would return. */
  function GetRate(s: RateSource, now: int, scraped: Result<string, Error>): (r: Sample)
    // the title, scraper and TTL never change
    ensures r.next.title == s.title && r.next.scraper == s.scraper && r.next.expires == s.expires
    // the cached branch: stored value, its expiry time, no state change
    ensures ServesCache(s, now) ==>
              r.outcome == Success(RateInfo(s.lastResult, s.lastScrapTime + s.expires, s.title)) && r.next == s
    // a failed scrape or parse invalidates the cache and keeps the last value
    ensures r.outcome.Failure? ==> r.next.lastScrapTime == 0 && r.next.lastResult == s.lastResult
    ensures !ServesCache(s, now) && scraped.Failure? ==> r.outcome == Failure(scraped.error)
    ensures !ServesCache(s, now) && scraped.Success? ==>
              (r.outcome.Success? <==> Numbers.GetFloat(scraped.value).Success?)
    ensures !ServesCache(s, now) && scraped.Success? && Numbers.GetFloat(scraped.value).Failure? ==>
              r.outcome == Failure(Numbers.GetFloat(scraped.value).error)
    // a fresh reading is stamped now and expires one TTL later
    ensures !ServesCache(s, now) && r.outcome.Success? ==>
              && scraped.Success?
              && r.outcome.value == RateInfo(Numbers.GetFloat(scraped.value).value, now + s.expires, s.title)
              && r.next.lastResult == r.outcome.value.rate
              && r.next.lastScrapTime == now
  {
    if ServesCache(s, now) then
      Sample(Success(RateInfo(s.lastResult, s.lastScrapTime + s.expires, s.title)), s)
    else if scraped.Failure? then
      Sample(Failure(scraped.error), s.(lastScrapTime := 0))
    else
      var parsed := Numbers.GetFloat(scraped.value);
      if parsed.Failure? then
        Sample(Failure(parsed.error), s.(lastScrapTime := 0))
      else
        Sample(Success(RateInfo(parsed.value, now + s.expires, s.title)), s.(lastResult := parsed.value, lastScrapTime := now))
  }

  /** The cached branch makes no scraper call: its result does not depend on the oracle. */
  lemma CacheIgnoresScraper(s: RateSource, now: int, a: Result<string, Error>, b: Result<string, Error>)
    requires ServesCache(s, now)
    ensures GetRate(s, now, a) == GetRate(s, now, b)
  {
  }

  /** Outside the cached branch the scraper is consulted: its failure is what is returned. */
  lemma MissConsultsScraper(s: RateSource, now: int, e: Error)
    requires !ServesCache(s, now)
    ensures GetRate(s, now, Failure(e)).outcome == Failure(e)
  {
  }

  /** The inverted test: a reading still within its TTL is never served from
      the cache (the scraper is asked again), and whatever the cache serves has
      already expired at `now`, despite the comment "not expired yet". */
  lemma CacheServesOnlyExpiredReadings(s: RateSource, now: int, scraped: Result<string, Error>)
    ensures 0 < s.lastScrapTime && now <= s.lastScrapTime + s.expires ==> !ServesCache(s, now)
    ensures ServesCache(s, now) ==>
              var r := GetRate(s, now, scraped);
              r.outcome.Success? && r.outcome.value.expires < now
  {
  }

  /** Once a feed is served from the cache it stays there: the call leaves it
      unchanged and every later call is a cache hit too, so the scraper is
      never asked again. */
  lemma CacheHitIsPermanent(s: RateSource, now: int, later: int, scraped: Result<string, Error>)
    requires ServesCache(s, now) && now <= later
    ensures GetRate(s, now, scraped).next == s
    ensures ServesCache(GetRate(s, now, scraped).next, later)
  {
  }

  /** After a failure, the next call cannot be served from the cache. */
  lemma FailureInvalidatesCache(s: RateSource, now: int, scraped: Result<string, Error>, later: int)
    requires GetRate(s, now, scraped).outcome.Failure?
    ensures !ServesCache(GetRate(s, now, scraped).next, later)
  {
  }

  /** A valid feed (TTL of at least one second, as after `init`) stays valid. */
  predicate Valid(s: RateSource) {
    s.expires >= 1
  }

  lemma InitIsValid(feed: RateFeed)
    requires Init(feed).Success?
    ensures Valid(Init(feed).value)
  {
  }

  /** A freshly scraped reading of a valid feed expires strictly after `now`. */
  lemma FreshReadingOutlivesNow(s: RateSource, now: int, scraped: Result<string, Error>)
    requires Valid(s)
    requires !ServesCache(s, now)
    requires GetRate(s, now, scraped).outcome.Success?
    ensures GetRate(s, now, scraped).outcome.value.expires > now
    ensures Valid(GetRate(s, now, scraped).next)
  {
  }

  // ---------------------------------------------------------------------------
  // The configuration filter shared by both generations of getRatesCheckPull
  // ---------------------------------------------------------------------------

  /** The feeds of a configuration whose `init` succeeds, initialised, in
      configuration order; the others are skipped. */
  function Accepted(config: seq<RateFeed>): (ss: seq<RateSource>)
    ensures |ss| <= |config|
    ensures |ss| == |config| <==> forall j :: 0 <= j < |config| ==> Init(config[j]).Success?
  {
    if config == [] then []
    else
      var rest := Accepted(config[..|config| - 1]);
      var last := Init(config[|config| - 1]);
      if last.Success? then rest + [last.value] else rest
  }

  /** Accepting is compositional: the accepted sources of two lists are the
      accepted sources of the first followed by those of the second. */
  lemma {:induction false} AcceptedConcat(c1: seq<RateFeed>, c2: seq<RateFeed>)
    ensures Accepted(c1 + c2) == Accepted(c1) + Accepted(c2)
    decreases |c2|
  {
    if c2 == [] {
      assert c1 + c2 == c1;
    } else {
      var c2' := c2[..|c2| - 1];
      assert (c1 + c2)[..|c1 + c2| - 1] == c1 + c2';
      assert (c1 + c2)[|c1 + c2| - 1] == c2[|c2| - 1];
      AcceptedConcat(c1, c2');
    }
  }

  /** A single feed is kept exactly when its `init` succeeds. */
  lemma AcceptedSingle(f: RateFeed)
    ensures Accepted([f]) == if Init(f).Success? then [Init(f).value] else []
  {
    assert [f][..0] == [];
  }

  /** Every accepted source is the successful `init` of some configured feed. */
  lemma {:induction false} AcceptedComeFromConfig(config: seq<RateFeed>)
    ensures forall i :: 0 <= i < |Accepted(config)| ==>
              exists j :: 0 <= j < |config| && Init(config[j]) == Success(Accepted(config)[i])
  {
    if config != [] {
      var pre := config[..|config| - 1];
      AcceptedComeFromConfig(pre);
      forall i | 0 <= i < |Accepted(config)|
        ensures exists j :: 0 <= j < |config| && Init(config[j]) == Success(Accepted(config)[i])
      {
        var last := Init(config[|config| - 1]);
        assert Accepted(config) == if last.Success? then Accepted(pre) + [last.value] else Accepted(pre);
        if i < |Accepted(pre)| {
          assert Accepted(config)[i] == Accepted(pre)[i];
          var j :| 0 <= j < |pre| && Init(pre[j]) == Success(Accepted(pre)[i]);
          assert config[j] == pre[j];
        } else {
          assert Init(config[|config| - 1]) == Success(Accepted(config)[i]);
        }
      }
    } else {
      assert Accepted(config) == [];
    }
  }
}
