# bitcointicker, modelled in Dafny

bitcointicker is a console tool written in Go. It polls several web price
feeds for BTC/USD and for EUR/USD and prints an averaged rate for each pair,
plus the BTC/EUR cross rate. This project models the tool's sequential
decision logic as pure Dafny functions over immutable datatypes:

- **Sources** (ratesource.go). A feed (`RateSource`) has a time-to-live cache.
  `GetRate` decides whether to serve the cache, scrape again, or invalidate.
  `Numbers.GetFloat` cleans scraped text down to `[0-9.]` and parses it as a
  decimal.
- **Scrapers** (scraper.go). The scraper-kind dispatch, the JSON scraper's
  initialisation and the pre-checks of its `getData`, and the walk of a
  slash-separated data path over an already decoded JSON object.
- **Pulls** (ratespull.go). A pool of feeds. Each feed is a routine with a
  queue of readings. `GetRate` drains every queue, counts the readings that
  have not expired and averages them. Also covered: `AddSource`, `Destroy`,
  and building a pool from the configuration.
- **Fabric** (fabric.go). The older pool generation, with one unbuffered
  channel per feed and no expiry test. It reuses the Go names of
  ratespull.go, so it is a separate module.
- **Status** (main.go, `showStatus`). The quorum tests, the guarded cross
  rate and the reported counts. The figures are optional values.
- **Results**, **Config**, **Errors**, **Wrappers** hold the shared records.
  `RateResult` and its averaging rule are in Results. The configuration
  records are in Config. Go errors, including runtime panics, are in Errors.
  `Option` and `Result` are in Wrappers.

The model abstracts the following:
- The wall clock is the parameter `now`, in Unix seconds.
- What the scraper returns is a `Result<string, Error>` parameter of
  `Sources.GetRate`.
- The HTTP request, reading the body and JSON decoding are a
  `Result<map<string, JValue>, Error>` parameter of `Scrapers.GetData`.
- `strconv.FormatFloat` is a function parameter `fmt`.
- Rates are exact `real`s.
- Queue contents and ready channel values are plain data, filled in by
  whoever builds the pool value.
- A Go runtime panic is the distinct error `Panic`. Three places produce one:
  calling `Kind()` on a JSON null, asserting the map type on a boolean or an
  array, and closing a channel that is already closed.

The code differs from its own comment in one place. The model follows the
code.

- **Inverted cache test** (ratesource.go:56-57). The comment says "not
  expired yet", but the cached reading is served only once its TTL has
  *passed* (`LastScrapTime + Expires < now`). A reading still within its TTL
  causes a new scrape. `Sources.CacheServesOnlyExpiredReadings` states this.

## Model

| member | source | states |
|---|---|---|
| Sources.NormalizeExpires | ratesource.go:25-29 | a configured TTL below 1 becomes 30 seconds; any TTL of at least 1 is kept; so the result is always at least 1 |
| Sources.Init | ratesource.go:24-44 | init succeeds exactly when `getScraper` does and returns its error unchanged; on success the scraper is the one `getScraper` built, the title is copied, the cache is empty (`LastScrapTime` 0) and the TTL is normalised |
| Sources.GetRate | ratesource.go:50-98 | the cached branch (`ServesCache`: a reading exists and `LastScrapTime + Expires < now`) returns the stored rate stamped `LastScrapTime + Expires` and leaves the state alone; a failed scrape returns the scraper's error and a failed parse returns `getFloat`'s error; either invalidates the cache and keeps `LastResult`; a fresh reading is the parsed value, stamped `now + Expires`, with the source's title, and becomes the new cache |
| Sources.CacheServesOnlyExpiredReadings | ratesource.go:56-65 | a reading still within its TTL is never served from the cache, and whatever the cache serves has already expired at `now` (the inverted test) |
| Sources.CacheIgnoresScraper | ratesource.go:56-65 | the cached branch does not depend on what the scraper would return |
| Sources.MissConsultsScraper | ratesource.go:67-73 | outside the cached branch a scraper failure is exactly what is returned |
| Sources.CacheHitIsPermanent | ratesource.go:56-65 | once a feed is served from the cache, the call leaves it unchanged and every later call is served from the cache too, so the scraper is never asked again |
| Sources.FailureInvalidatesCache | ratesource.go:69-84 | after a failed call the next call cannot be served from the cache, whatever the time |
| Sources.FreshReadingOutlivesNow | ratesource.go:86-97 | for a feed with a valid TTL, a freshly scraped reading expires strictly after `now` and the feed stays valid |
| Sources.InitIsValid | ratesource.go:25-29 | every source `init` produces has a TTL of at least one second |
| Sources.Accepted | ratespull.go:150-160 | the filter keeps at most one source per configured feed, and keeps one for every feed exactly when every feed's `init` succeeds |
| Sources.AcceptedConcat | ratespull.go:150-160 | the config filter is compositional: accepting two lists is accepting each and concatenating |
| Sources.AcceptedComeFromConfig | ratespull.go:150-160 | every accepted source is the successful `init` of some configured feed |
| Numbers.GetFloat | ratesource.go:100-113 | the parse succeeds exactly when the text left after cleaning holds a digit and at most one point; a failure carries that cleaned text; a success is never negative |
| Numbers.Clean | ratesource.go:102-104 | the replacement never lengthens the text and leaves only digits and points |
| Numbers.ParseFloat | ratesource.go:106-110 | on text of digits and points, `strconv.ParseFloat` succeeds exactly when there is a digit and at most one point, and otherwise fails with a syntax error carrying the text |
| Numbers.CleanKeepsExactlyNumeric | ratesource.go:102-104 | only digits and points survive the cleanup, and text made only of them is left as it is |
| Numbers.CleanConcat | ratesource.go:102-104 | the cleanup works character by character, so it distributes over concatenation and keeps the kept characters in order |
| Numbers.CleanIdempotent | ratesource.go:102-104 | cleaning twice is cleaning once |
| Numbers.GetFloatSeesOnlyCleanedText | ratesource.go:102-106 | `getFloat` only depends on the cleaned text |
| Numbers.GetFloatReadsDecimal | ratesource.go:104-112 | digits, a point and digits read as the integer written by all the digits over ten to the number of fraction digits, and that integer is the integer part shifted by the fraction's length plus the fraction |
| Numbers.GetFloatReadsDigits | ratesource.go:104-112 | any non-empty run of digits, leading zeros included, reads as the integer it writes |
| Numbers.GetFloatReadsLeadingZeros | ratesource.go:104-112 | "0042" reads as 42 |
| Numbers.GetFloatReadsNatText | ratesource.go:104-112 | a natural number printed in plain decimal reads back as itself |
| Numbers.GetFloatRefusesTwoPoints | ratesource.go:106-110 | text with a second decimal point is refused with a syntax error carrying that text |
| Numbers.GetFloatReadsPrice | ratesource.go:102-112 | "$1,234.56 USD" reads as 1234.56 |
| Numbers.GetFloatRefusesNoDigits | ratesource.go:102-110 | "n/a" cleans to the empty text and is refused |
| Scrapers.GetScraper | scraper.go:42-55 | every kind other than "json" fails with "Scraper class not found"; for "json" the scraper is returned exactly when its `init` succeeds, holding the Url and option 1 as data path |
| Scrapers.Init | scraper.go:64-81 | init fails with code "init" exactly when the Url or option 1 is empty; the Url is checked first ("Url not provided"), then the path ("Data Path not provided"); on success both are stored |
| Scrapers.Split | scraper.go:125 | splitting on "/" gives at least one segment, none holding the separator, and joining them gives the path back |
| Scrapers.SplitJoin | scraper.go:125 | the other round trip: separator-free segments joined and split come back unchanged |
| Scrapers.Walk | scraper.go:125-164 | a walk over a non-empty path always ends inside the loop, never at the fallback after it |
| Scrapers.WalkFindsExactlyScalars | scraper.go:127-158 | the walk finds a value exactly when the path leads through objects to a string or a number, and returns that scalar's text (a string verbatim) |
| Scrapers.WalkErrorAt | scraper.go:128-160 | at the first segment that does not lead on, the walk reports a missing key, a scalar before the last segment ("not enough deep"), a non-scalar at the last segment, or the panic for a null or a non-object intermediate |
| Scrapers.WalkOverSplitNeverExhausts | scraper.go:125-164 | the walk over a split data path never reaches the fallback error after the loop |
| Scrapers.ScalarText | scraper.go:136-146 | a string value is returned verbatim and a number as `strconv.FormatFloat` renders it |
| Scrapers.WalkResult | scraper.go:128-164 | the walk's end becomes a value exactly when it found one, and then it is the text found; a missing key gives "data" / "Can not get data by path", a scalar too early "Not found by Path. No enought deep", a non-scalar at the end (or the fallback after the loop) "Not found by Path. Given path is array, not a single value", and a wrong type a panic |
| Scrapers.GetData | scraper.go:83-166 | an empty Url fails with code "url", then an empty data path with code "json", before any fetch; a failed fetch or decode is passed on; otherwise the result is a value exactly when the path leads to a scalar, and it is that scalar's text |
| Scrapers.GetDataErrorAt | scraper.go:125-164 | for a fetched document, at the first data-path segment that does not lead on, `getData` fails with the "data" error for a missing key, for a scalar too early or for a non-scalar at the end, and panics on a null or a non-object intermediate |
| Scrapers.PrechecksPrecedeFetch | scraper.go:88-94 | when a pre-check fails the response plays no part |
| Scrapers.InitPassesPrechecks | scraper.go:64-94 | a scraper built by `getScraper` passes both pre-checks, so it fails only on the fetch, on the path ("data"), or by a panic |
| Results.Mean | ratespull.go:75-77 | the rate times the count is the sum, and the rate stays 0 when nothing counted |
| Results.MeanWithinBounds | ratespull.go:75-77 | the mean of readings within `[lo, hi]` lies within `[lo, hi]` |
| Pulls.Drain | ratespull.go:36-61 | draining empties the queue, keeps the title, and leaves the last queued reading as the last rate, or the old last rate when nothing was queued |
| Pulls.DrainIdempotent | ratespull.go:38-61 | draining twice is draining once: a drained routine has nothing left to take |
| Pulls.LiveCountIsLivePositions | ratespull.go:66-72 | the running count equals the number of routines whose last reading expires strictly after `now` |
| Pulls.LiveSumBounds | ratespull.go:66-72 | when every live reading lies in `[lo, hi]`, the sum of the live readings lies between count times `lo` and count times `hi` |
| Pulls.Aggregate | ratespull.go:63-81 | the total is the number of routines; the count is the number of live routines and never exceeds the total; the rate times the count is the sum of the live readings, or the rate is 0 when none is live; the error list is empty |
| Pulls.Collect | ratespull.go:29-82 | one `GetRate` step: every queue is drained as above, title and size are kept, and the result is the aggregate of the drained routines |
| Pulls.GetRate | ratespull.go:29-82 | the loop version, with its inner drain loop and running sum and count, computes exactly the one-step `Collect` |
| Pulls.GetRateIdempotent | ratespull.go:36-82 | asking twice at the same instant with nothing queued in between gives the same result and pool |
| Pulls.ExpiryIsStrict | ratespull.go:66 | a reading that expires exactly at `now` is not counted, but it is counted one second earlier |
| Pulls.RateWithinReadings | ratespull.go:66-77 | the reported rate lies between the smallest and largest live reading |
| Pulls.TwoFeedsExpireTogether | ratespull.go:29-82 | two readings of 100 and 102 with a 30-second TTL, scraped at time 1, average to 101 with 2 of 2 sources at time 1; at time 31 nothing counts and the total is still 2 |
| Pulls.AddSource | ratespull.go:84-125 | one routine is appended, holding the source's title, an empty queue and the zero reading; the others are kept |
| Pulls.AddSourceCountsOnlyInTotal | ratespull.go:84-125 | a routine just added raises the total by one and changes neither the count nor the rate |
| Pulls.Destroy | ratespull.go:127-145 | the pool is left with no routine |
| Pulls.DestroyedPoolReportsNothing | ratespull.go:144 | after `Destroy` the next result is rate 0 with 0 of 0 sources |
| Pulls.GetRatesCheckPull | ratespull.go:147-163 | the error result is always nil; the pool has the given title and one fresh routine per feed whose `init` succeeds, in configuration order |
| Pulls.CheckPullRoutinesComeFromConfig | ratespull.go:150-160 | every routine of a new pool carries the title of a configured feed that initialised |
| Fabric.GetRate | fabric.go:19-51 | the count is the number of channels with a reading ready, whatever its expiry; the total is the number of channels; the rate times the count is the sum of the ready readings, or the rate is 0 when none is ready; every offered reading is consumed |
| Fabric.ReadyCountIsReadyPositions | fabric.go:26-42 | the running count equals the number of channels with a reading ready |
| Fabric.ExpiryIsIgnored | fabric.go:26-42 | readings of equal rates count the same whatever their expiry times |
| Fabric.SecondReadFindsNothing | fabric.go:26-48 | a second call straight after the first counts nothing and reports the same total |
| Fabric.AddSource | fabric.go:53-88 | one open stop channel and one empty rate channel are appended |
| Fabric.AddSourcePreservesWellFormed | fabric.go:86-87 | the two channel lists keep equal length |
| Fabric.Destroy | fabric.go:90-96 | every stop channel is closed and the rate channels stay as they are; if a stop channel is already closed, the result is a panic |
| Fabric.DestroyKeepsTotal | fabric.go:90-96 | `Destroy` does not shrink the pool, so the total reported afterwards is unchanged |
| Fabric.DestroyTwicePanics | fabric.go:93-95 | destroying a non-empty pool twice panics |
| Fabric.GetRatesCheckPull | fabric.go:98-114 | the error result is always nil; the pool has one open stop channel and one empty rate channel per feed whose `init` succeeds |
| Fabric.AddAll | fabric.go:101-111 | adding sources one by one appends one open stop channel and one empty rate channel each |
| Status.CrossRate | main.go:135-140 | with a positive euro rate, the cross rate times the euro rate is the bitcoin rate; otherwise the cross rate is 0 |
| Status.ShowStatus | main.go:111-150 | BTC/USD is shown exactly when the bitcoin count reaches `MinBitcoin`; EUR/USD exactly when the euro count reaches `MinEuro`; BTC/EUR exactly when both are shown, and it is their guarded quotient; the counts and totals are reported unchanged |
| Status.CrossRateConsistent | main.go:118-143 | with a positive euro rate, the BTC/EUR figure shown times the EUR/USD figure shown is the BTC/USD figure shown |
| Status.QuorumCountsLiveFeeds | main.go:111-134 | against two pools at time `now`, BTC/USD is shown exactly when at least `MinBitcoin` bitcoin routines hold an unexpired reading, and likewise for EUR/USD; active counts never exceed totals |

## Left out

- Goroutines and channels. The worker loops are left out: ratespull.go:94-122 and fabric.go:60-84. So is the stop handshake of ratespull.go:130-142. Queue contents and ready channel values are inputs, and `Destroy` is modelled by the pool state it leaves.
- Blocking on a full queue. The worker's blocking send on the capacity-2 queue is concurrency and is not modelled.
- The `ok == false` branch of a receive. ratespull.go:51-53 and fabric.go:36-38 handle a closed rate channel. No pool that still lists a routine or channel has closed it, so the branch cannot be taken in the model's states.
- HTTP, reading the body and `json.Unmarshal` (scraper.go:96-123). They are I/O and library calls. Their outcome is the `response` parameter of `Scrapers.GetData`.
- The `Int` and `Float32` kinds (scraper.go:140-143). `json.Unmarshal` never produces them, so `JValue` has no such case.
- Floating point. Rates are exact reals, with no rounding in parsing, sums or division. `strconv.FormatFloat` is the parameter `fmt`. The `%0.2f` and `%0.5f` output of `showStatus` is not modelled.
- Numbers.GetFloat: the range error of `strconv.ParseFloat` on numbers beyond float64 is not modelled. Every well-formed digit string reads as its exact value.
- Sources.GetRate: `LastScrapTime + Expires` and `now + Expires` are unbounded integers. Go's int wrap-around near the end of its range is not modelled.
- The clock. ratespull.go:63-64 reads `time.Now()` once per routine inside the loop. The model uses one `now` for the whole `GetRate` call.
- Logging. All `Trace`, `Warning` and `Info` output is left out, including `fmt.Println(config)` in scraper.go:76.
- Process plumbing in main.go. Signal handling, the status loop and shutdown are left out, as is the assembly and printing of the status line.
- config.go. Loading the file and setting up the loggers are I/O. Only the records are mirrored.
