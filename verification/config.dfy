/** The configuration records of config.go, as plain values (loading them from disk is not modelled). */
module Config {
  import opened Scrapers

  /** One configured price feed. */
  datatype RateFeed = RateFeed(
    title: string,
    url: string,
    scrapperClass: string,
    scraperOptions: ScraperOptions,
    expires: int)

  /** The whole configuration file: two feed lists and the quorum for each instrument. */
  datatype Configuration = Configuration(
    bitcoinFeeds: seq<RateFeed>,
    euroFeeds: seq<RateFeed>,
    minBitcoin: int,
    minEuro: int,
    logFile: string)
}
