/** The scraper layer of scraper.go: kind dispatch, the JSON scraper's
    initialisation, its pre-checks and the walk of a slash-separated data path
    over an already-decoded JSON document. The HTTP request, reading the body
    and `json.Unmarshal` are an oracle: `GetData` receives their outcome. */
module Scrapers {
  import opened Wrappers
  import opened Errors

  /** The three free-form option slots of a feed; only `opt1` (the data path) is used. */
  datatype ScraperOptions = ScraperOptions(opt1: string, opt2: string, opt3: string)

  /** `JSONScraper`, the only implementation of the `Scraper` interface. */
  datatype Scraper = JsonScraper(url: string, dataPath: string)

  /** A JSON value as `json.Unmarshal` decodes it into `interface{}`:
      strings, float64 numbers, objects, `null` (a nil interface) and
      everything else (booleans and arrays). */
  datatype JValue =
    | Str(s: string)
    | Num(x: real)
    | Obj(fields: map<string, JValue>)
    | Null
    | Other

  /** The kind tag `getScraper` recognises. */
  const JsonClass: string := "json"

  /** The separator `strings.Split` is called with on the data path. */
  const Separator: char := '/'

  /** The kinds the path walk accepts as a value (reflect.String or reflect.Float64;
      the Int and Float32 kinds cannot come out of `json.Unmarshal`). */
  predicate IsScalar(v: JValue) {
    v.Str? || v.Num?
  }

  /** The text the walk returns for a scalar: a string verbatim, a number
      through `strconv.FormatFloat`, which is the parameter `fmt`. */
  function ScalarText(v: JValue, fmt: real -> string): (t: string)
    requires IsScalar(v)
    ensures v.Str? ==> t == v.s
    ensures v.Num? ==> t == fmt(v.x)
  {
    if v.Str? then v.s else fmt(v.x)
  }

  // ---------------------------------------------------------------------------
  // Dispatch and initialisation
  // ---------------------------------------------------------------------------

  /** `JSONScraper.init`: the Url is checked first, then the data path (option 1). */
  function Init(url: string, opts: ScraperOptions): (r: Result<Scraper, Error>)
    ensures r.Failure? <==> url == "" || opts.opt1 == ""
    ensures r.Failure? ==> r.error.ScraperError? && r.error.code == "init"
    ensures url == "" ==> r == Failure(ScraperError("init", "Url not provided"))
    ensures url != "" && opts.opt1 == "" ==> r == Failure(ScraperError("init", "Data Path not provided"))
    ensures r.Success? ==> r.value.url == url && r.value.dataPath == opts.opt1
  {
    if url == "" then Failure(ScraperError("init", "Url not provided"))
    else if opts.opt1 == "" then Failure(ScraperError("init", "Data Path not provided"))
    else Success(JsonScraper(url, opts.opt1))
  }

  /** `getScraper`: a tag dispatch that knows only the kind "json". */
  function GetScraper(kind: string, url: string, opts: ScraperOptions): (r: Result<Scraper, Error>)
    ensures kind != JsonClass ==> r == Failure(ClassNotFound)
    ensures r.Success? <==> kind == JsonClass && url != "" && opts.opt1 != ""
    ensures r.Success? ==> r.value == JsonScraper(url, opts.opt1)
    ensures kind == JsonClass && r.Failure? ==> r.error.ScraperError? && r.error.code == "init"
  {
    if kind == JsonClass then Init(url, opts) else Failure(ClassNotFound)
  }

  // ---------------------------------------------------------------------------
  // strings.Split(path, "/")
  // ---------------------------------------------------------------------------

  /** Rejoins segments with the separator; the inverse of `Split`. */
  function Join(parts: seq<string>): string
    requires |parts| >= 1
  {
    if |parts| == 1 then parts[0] else parts[0] + [Separator] + Join(parts[1..])
  }

  /** `strings.Split(s, "/")`: never empty (the empty string gives one empty
      segment), no segment holds the separator, and joining gives `s` back. */
  function Split(s: string): (parts: seq<string>)
    ensures |parts| >= 1
    ensures forall i :: 0 <= i < |parts| ==> Separator !in parts[i]
    ensures Join(parts) == s
  {
    if s == [] then [""]
    else if s[0] == Separator then [""] + Split(s[1..])
    else
      var rest := Split(s[1..]);
      assert [s[0]] + s[1..] == s;
      [[s[0]] + rest[0]] + rest[1..]
  }

  /** Splitting text that starts with a separator-free segment keeps that segment in front. */
  lemma {:induction false} SplitPrefix(p: string, x: string)
    requires Separator !in p
    ensures Split(p + x)[0] == p + Split(x)[0]
    ensures Split(p + x)[1..] == Split(x)[1..]
  {
    if p != [] {
      assert (p + x)[0] == p[0];
      assert (p + x)[1..] == p[1..] + x;
      SplitPrefix(p[1..], x);
      assert [p[0]] + p[1..] == p;
    } else {
      assert p + x == x;
    }
  }

  /** The other direction of the round trip: separator-free segments survive `Join` then `Split`. */
  lemma {:induction false} SplitJoin(parts: seq<string>)
    requires |parts| >= 1
    requires forall i :: 0 <= i < |parts| ==> Separator !in parts[i]
    ensures Split(Join(parts)) == parts
  {
    if |parts| == 1 {
      SplitPrefix(parts[0], "");
      assert parts[0] + "" == parts[0];
    } else {
      SplitJoin(parts[1..]);
      SplitAfterSegment(parts[0], Join(parts[1..]));
      assert [parts[0]] + parts[1..] == parts;
    }
  }

  /** A separator-free segment followed by a separator splits off as the first segment. */
  lemma {:induction false} SplitAfterSegment(p: string, tail: string)
    requires Separator !in p
    ensures Split(p + [Separator] + tail) == [p] + Split(tail)
  {
    var s := p + [Separator] + tail;
    if p == [] {
      assert s == [Separator] + tail;
      SplitAtSeparator(tail);
    } else {
      assert s[0] == p[0] && s[1..] == p[1..] + [Separator] + tail;
      SplitAfterSegment(p[1..], tail);
      assert [p[0]] + p[1..] == p;
    }
  }

  /** A leading separator opens an empty first segment. */
  lemma SplitAtSeparator(t: string)
    ensures Split([Separator] + t) == [""] + Split(t)
  {
    var s := [Separator] + t;
    assert s[0] == Separator && s[1..] == t;
  }

  // ---------------------------------------------------------------------------
  // The path walk (scraper.go:125-164)
  // ---------------------------------------------------------------------------

  /** How the loop over path segments ends. `Exhausted` is the exit after the
      loop (scraper.go:164), which only an empty path could reach. */
  datatype WalkOutcome =
    | Found(text: string)
    | Missing        // "Can not get data by path"
    | TooShallow     // "Not found by Path. No enought deep"
    | NotScalar      // "Not found by Path. Given path is array, not a single value"
    | BadType        // a runtime panic: Kind() on a nil type, or asserting a map on a bool/array
    | Exhausted      // the same "array" error, after the loop

  /** The walk, one segment per step, with the checks in the order the loop body makes them. */
  function Walk(m: map<string, JValue>, path: seq<string>, fmt: real -> string): (w: WalkOutcome)
    decreases |path|
    ensures |path| >= 1 ==> w != Exhausted
    ensures w == Exhausted ==> path == []
  {
    if path == [] then Exhausted
    else if path[0] !in m then Missing
    else
      var v := m[path[0]];
      if v.Null? then BadType
      else if IsScalar(v) then
        if |path| == 1 then Found(ScalarText(v, fmt)) else TooShallow
      else if |path| == 1 then NotScalar
      else if v.Obj? then Walk(v.fields, path[1..], fmt)
      else BadType
  }

  /** Where a path leads when every step before the last names an object:
      an independent description of "the value at this path". */
  function Navigate(v: JValue, path: seq<string>): Option<JValue>
    decreases |path|
  {
    if path == [] then Some(v)
    else if v.Obj? && path[0] in v.fields then Navigate(v.fields[path[0]], path[1..])
    else None
  }

  /** The walk succeeds exactly when the path leads to a string or a number,
      and then returns that scalar's text (a string verbatim). */
  lemma {:induction false} WalkFindsExactlyScalars(m: map<string, JValue>, path: seq<string>, fmt: real -> string)
    requires |path| >= 1
    decreases |path|
    ensures Walk(m, path, fmt).Found? <==>
              Navigate(Obj(m), path).Some? && IsScalar(Navigate(Obj(m), path).value)
    ensures Walk(m, path, fmt).Found? ==>
              Walk(m, path, fmt).text == ScalarText(Navigate(Obj(m), path).value, fmt)
  {
    if path[0] in m {
      var v := m[path[0]];
      assert Navigate(Obj(m), path) == Navigate(v, path[1..]);
      if |path| > 1 && v.Obj? {
        WalkFindsExactlyScalars(v.fields, path[1..], fmt);
      }
    }
  }

  /** The error the walk reports at the first segment that does not lead on:
      `k` segments have led through objects down to `inner`, and segment `k`
      is missing, a scalar too early, a non-scalar at the end, a null, or a
      boolean or array where an object is needed. */
  lemma {:induction false} WalkErrorAt(m: map<string, JValue>, path: seq<string>, fmt: real -> string,
                                       k: nat, inner: map<string, JValue>)
    requires k < |path|
    requires Navigate(Obj(m), path[..k]) == Some(Obj(inner))
    decreases k
    ensures path[k] !in inner ==> Walk(m, path, fmt) == Missing
    ensures path[k] in inner && inner[path[k]].Null? ==> Walk(m, path, fmt) == BadType
    ensures path[k] in inner && IsScalar(inner[path[k]]) && k < |path| - 1 ==> Walk(m, path, fmt) == TooShallow
    ensures path[k] in inner && inner[path[k]].Other? && k < |path| - 1 ==> Walk(m, path, fmt) == BadType
    ensures path[k] in inner && (inner[path[k]].Obj? || inner[path[k]].Other?) && k == |path| - 1 ==>
              Walk(m, path, fmt) == NotScalar
  {
    if k == 0 {
      assert path[..0] == [];
    } else {
      var v := m[path[0]];
      assert path[..k][1..] == path[1..][..k - 1];
      assert Navigate(Obj(m), path[..k]) == Navigate(v, path[1..][..k - 1]);
      assert v.Obj?;
      WalkErrorAt(v.fields, path[1..], fmt, k - 1, inner);
    }
  }

  /** The walk over the split data path never falls out of its loop. */
  lemma WalkOverSplitNeverExhausts(m: map<string, JValue>, dataPath: string, fmt: real -> string)
    ensures Walk(m, Split(dataPath), fmt) != Exhausted
  {
  }

  /** The messages `getData` reports when the data path does not lead to a scalar. */
  const NoDataMessage := "Can not get data by path"
  const TooShallowMessage := "Not found by Path. No enought deep"
  const NotScalarMessage := "Not found by Path. Given path is array, not a single value"

  /** Maps the end of the walk to what `getData` returns. */
  function WalkResult(w: WalkOutcome): (r: Result<string, Error>)
    ensures r.Success? <==> w.Found?
    ensures w.Found? ==> r.value == w.text
    ensures w == Missing ==> r == Failure(ScraperError("data", NoDataMessage))
    ensures w == TooShallow ==> r == Failure(ScraperError("data", TooShallowMessage))
    ensures w == NotScalar || w == Exhausted ==> r == Failure(ScraperError("data", NotScalarMessage))
    ensures w == BadType ==> r.Failure? && r.error.Panic?
  {
    match w
    case Found(t) => Success(t)
    case Missing => Failure(ScraperError("data", NoDataMessage))
    case TooShallow => Failure(ScraperError("data", TooShallowMessage))
    case NotScalar => Failure(ScraperError("data", NotScalarMessage))
    case BadType => Failure(Panic("runtime error"))
    case Exhausted => Failure(ScraperError("data", NotScalarMessage))
  }

  /** `JSONScraper.getData`. `response` is the outcome of the HTTP request,
      the body read and `json.Unmarshal` into a top-level object. */
  function GetData(s: Scraper, response: Result<map<string, JValue>, Error>, fmt: real -> string): (r: Result<string, Error>)
    ensures s.url == "" ==> r == Failure(ScraperError("url", "Url not provided"))
    ensures s.url != "" && s.dataPath == "" ==> r == Failure(ScraperError("json", "Data Path not provided"))
    ensures s.url != "" && s.dataPath != "" && response.Failure? ==> r == Failure(response.error)
    ensures r.Success? <==>
              && s.url != "" && s.dataPath != "" && response.Success?
              && var at := Navigate(Obj(response.value), Split(s.dataPath));
                 at.Some? && IsScalar(at.value)
    ensures r.Success? ==> r.value == ScalarText(Navigate(Obj(response.value), Split(s.dataPath)).value, fmt)
  {
    if s.url == "" then Failure(ScraperError("url", "Url not provided"))
    else if s.dataPath == "" then Failure(ScraperError("json", "Data Path not provided"))
    else if response.Failure? then Failure(response.error)
    else
      WalkFindsExactlyScalars(response.value, Split(s.dataPath), fmt);
      WalkResult(Walk(response.value, Split(s.dataPath), fmt))
  }

  /** The error `getData` reports for a fetched document when the first `k`
      segments of the data path lead through objects down to `inner` and
      segment `k` does not lead on. */
  lemma GetDataErrorAt(s: Scraper, m: map<string, JValue>, fmt: real -> string, k: nat, inner: map<string, JValue>)
    requires s.url != "" && s.dataPath != ""
    requires k < |Split(s.dataPath)|
    requires Navigate(Obj(m), Split(s.dataPath)[..k]) == Some(Obj(inner))
    ensures var path := Split(s.dataPath);
            var r := GetData(s, Success(m), fmt);
            && (path[k] !in inner ==> r == Failure(ScraperError("data", NoDataMessage)))
            && (path[k] in inner && inner[path[k]].Null? ==> r.Failure? && r.error.Panic?)
            && (path[k] in inner && IsScalar(inner[path[k]]) && k < |path| - 1 ==>
                  r == Failure(ScraperError("data", TooShallowMessage)))
            && (path[k] in inner && inner[path[k]].Other? && k < |path| - 1 ==> r.Failure? && r.error.Panic?)
            && (path[k] in inner && (inner[path[k]].Obj? || inner[path[k]].Other?) && k == |path| - 1 ==>
                  r == Failure(ScraperError("data", NotScalarMessage)))
  {
    WalkErrorAt(m, Split(s.dataPath), fmt, k, inner);
  }

  /** Both pre-checks of `getData` happen before any fetch: when one fails, the response is irrelevant. */
  lemma PrechecksPrecedeFetch(s: Scraper, a: Result<map<string, JValue>, Error>,
                              b: Result<map<string, JValue>, Error>, fmt: real -> string)
    requires s.url == "" || s.dataPath == ""
    ensures GetData(s, a, fmt) == GetData(s, b, fmt)
    ensures GetData(s, a, fmt).Failure?
  {
  }

  /** A scraper built by a successful `getScraper` passes both pre-checks, so
      its failures come from the fetch or from the path. */
  lemma InitPassesPrechecks(kind: string, url: string, opts: ScraperOptions,
                            response: Result<map<string, JValue>, Error>, fmt: real -> string)
    requires GetScraper(kind, url, opts).Success?
    ensures var r := GetData(GetScraper(kind, url, opts).value, response, fmt);
            r.Failure? ==> response.Failure? || (r.error.ScraperError? && r.error.code == "data") || r.error.Panic?
  {
    var s := GetScraper(kind, url, opts).value;
    if response.Success? {
      WalkOverSplitNeverExhausts(response.value, s.dataPath, fmt);
    }
  }
}
