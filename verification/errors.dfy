/** The errors the feed layer produces, whichever Go type carried them. */
module Errors {

  datatype Error =
      /** `ScraperError{code, message}` of scraper.go; the I/O layer also reports "http" and "json" codes with it. */
    | ScraperError(code: string, message: string)
      /** `errors.New("Scraper class not found")`, the only error of the class dispatch. */
    | ClassNotFound
      /** The invalid-syntax error of `strconv.ParseFloat`, carrying the cleaned text it refused. */
    | SyntaxError(text: string)
      /** A Go runtime panic; the program would crash here rather than return an error. */
    | Panic(reason: string)
}
