/** The `GET /jobs` route: it reads the query string, hands the options to `searchJobs` and answers
    with the page as JSON, or with status 500 when the listings cannot be fetched. Each query
    parameter is the string the client sent, or `None` when it is absent. */
module JobsRoute {
  import opened Wrappers
  import JsNumbers
  import Seqs
  import opened JobListings

  datatype Query = Query(
    category: Option<string>,
    roleType: Option<string>,
    search: Option<string>,
    usOnly: Option<string>,
    postedWithin: Option<string>,
    limit: Option<string>,
    offset: Option<string>)

  datatype Response = Json(result: SearchResult) | ServerError(status: int, error: string)

  const MaxLimit: int := 100

  /** `parseInt(x)` of a query value; an absent value is parsed as the text "undefined", which
      holds no number. */
  function ParseQuery(x: Option<string>): Option<int> {
    if x.Some? then JsNumbers.ParseInt(x.value) else None
  }

  /** `n || fallback` for a number `n`: not a number and 0 both give the fallback. */
  function OrElse(n: Option<int>, fallback: int): (r: int)
    ensures n.Some? && n.value != 0 ==> r == n.value
    ensures n.None? || n == Some(0) ==> r == fallback
  {
    if n.Some? && n.value != 0 then n.value else fallback
  }

  /** The text the client sends for each window. */
  function WindowName(w: Window): string {
    match w
    case Week => "7d"
    case TwoWeeks => "14d"
    case Month => "30d"
    case AllTime => "all"
  }

  /** `postedWithin` is passed on only when it is one of the four window names. */
  function ParseWindow(x: Option<string>): Option<Window> {
    if x == Some("7d") then Some(Week)
    else if x == Some("14d") then Some(TwoWeeks)
    else if x == Some("30d") then Some(Month)
    else if x == Some("all") then Some(AllTime)
    else None
  }

  /** A window name is read back as its window, and only a window name is read as a window. */
  lemma ParseWindowName(x: Option<string>, w: Window)
    ensures ParseWindow(Some(WindowName(w))) == Some(w)
    ensures ParseWindow(x) == Some(w) ==> x == Some(WindowName(w))
  {
  }

  /** The route's `limit` as written: `Math.min(parseInt(limit) || 50, 100)`. Nothing keeps it
      above zero. */
  function LimitAsWritten(x: Option<string>): (r: int)
    ensures r <= MaxLimit
  {
    var n := OrElse(ParseQuery(x), DefaultLimit);
    if n < MaxLimit then n else MaxLimit
  }

  /** The page size the route evidently intends: the number sent, capped at 100, and the default
      50 when it is absent, not a number, or not positive. */
  function PageLimit(x: Option<string>): (r: int)
    ensures 1 <= r <= MaxLimit
    ensures x.None? ==> r == DefaultLimit
  {
    var n := OrElse(ParseQuery(x), DefaultLimit);
    if n <= 0 then DefaultLimit else if n < MaxLimit then n else MaxLimit
  }

  /** Both readings agree on every limit that is absent, unreadable or positive; they differ only
      on a negative one. */
  lemma LimitReadings(x: Option<string>)
    ensures LimitAsWritten(x) == PageLimit(x) <==> LimitAsWritten(x) > 0
  {
  }

  /** A limit the client renders from a number is read back as written: as itself up to 100, as
      100 above, as 50 for zero, and as itself when negative. */
  lemma LimitAsWrittenOfNumber(n: int)
    ensures LimitAsWritten(Some(JsNumbers.IntToString(n))) ==
      (if n == 0 then DefaultLimit else if n < MaxLimit then n else MaxLimit)
  {
    JsNumbers.ParseIntOfIntToString(n);
  }

  /** With the corrected limit, a number is read back as itself between 1 and 100, as 100 above,
      and as 50 for zero or below. */
  lemma PageLimitOfNumber(n: int)
    ensures PageLimit(Some(JsNumbers.IntToString(n))) ==
      (if n <= 0 then DefaultLimit else if n < MaxLimit then n else MaxLimit)
  {
    JsNumbers.ParseIntOfIntToString(n);
  }

  /** The route's `offset`: `parseInt(offset) || 0`. */
  function ParseOffset(x: Option<string>): (r: int)
    ensures ParseQuery(x).Some? ==> r == ParseQuery(x).value
    ensures ParseQuery(x).None? ==> r == 0
  {
    OrElse(ParseQuery(x), 0)
  }

  /** An offset the client renders from a number is read back as that number. */
  lemma ParseOffsetOfNumber(n: int)
    ensures ParseOffset(Some(JsNumbers.IntToString(n))) == n
  {
    JsNumbers.ParseIntOfIntToString(n);
  }

  /** The options the route passes to `searchJobs`, with the page size `limit`. */
  function OptionsWith(q: Query, limit: int): SearchOptions {
    SearchOptions(
      q.category, q.roleType, q.search,
      q.usOnly == Some("true"),
      ParseWindow(q.postedWithin),
      Some(limit),
      Some(ParseOffset(q.offset)))
  }

  /** The options the route passes to `searchJobs`, with the limit as written: at most 100, 50
      when absent, and possibly zero or negative. */
  function Options(q: Query): (o: SearchOptions)
    ensures o.usOnly <==> q.usOnly == Some("true")
    ensures o.limit.Some? && o.limit.value <= MaxLimit
    ensures q.limit.None? ==> o.limit == Some(DefaultLimit)
    ensures o.offset.Some?
  {
    OptionsWith(q, LimitAsWritten(q.limit))
  }

  /** The options with the corrected page size, between 1 and 100. */
  function OptionsFixed(q: Query): (o: SearchOptions)
    ensures o.usOnly <==> q.usOnly == Some("true")
    ensures o.limit.Some? && 1 <= o.limit.value <= MaxLimit
    ensures o.offset.Some?
  {
    OptionsWith(q, PageLimit(q.limit))
  }

  /** The two option sets differ at most in the limit, and not at all when the written limit is
      positive. */
  lemma OptionsAgree(q: Query)
    ensures OptionsFixed(q) == Options(q).(limit := Some(PageLimit(q.limit)))
    ensures LimitAsWritten(q.limit) > 0 <==> OptionsFixed(q) == Options(q)
  {
    LimitReadings(q.limit);
  }

  /** The text filters reach the search unchanged, `usOnly` only as the text "true", and the
      window only as one of the four window names. */
  lemma OptionsFilters(q: Query)
    ensures var o := Options(q);
      && o.category == q.category && o.roleType == q.roleType && o.search == q.search
      && (o.usOnly <==> q.usOnly == Some("true"))
      && (o.postedWithin.Some? ==> q.postedWithin == Some(WindowName(o.postedWithin.value)))
      && (forall w :: q.postedWithin == Some(WindowName(w)) ==> o.postedWithin == Some(w))
  {
    forall w | q.postedWithin == Some(WindowName(w)) ensures Options(q).postedWithin == Some(w) {
      ParseWindowName(q.postedWithin, w);
    }
    if Options(q).postedWithin.Some? {
      ParseWindowName(q.postedWithin, Options(q).postedWithin.value);
    }
  }

  /** The response for fetched listings, or for a failed fetch: status 500 with a fixed message
      whatever the failure said. */
  function Respond(fetched: Result<seq<JobListing>, string>, o: SearchOptions, now: int): (r: Response)
    ensures fetched.Err? <==> r == ServerError(500, "Failed to fetch job listings")
    ensures fetched.Ok? ==> r.Json? && r.result == Search(fetched.value, o, now)
  {
    match fetched
    case Err(_) => ServerError(500, "Failed to fetch job listings")
    case Ok(all) => Json(Search(all, o, now))
  }

  /** The route as written: the page of `searchJobs` for the route's options as JSON, or the 500.
      `now` is the time in seconds that `searchJobs` reads. */
  function ListJobs(q: Query, fetched: Result<seq<JobListing>, string>, now: int): (r: Response)
    ensures fetched.Err? <==> r == ServerError(500, "Failed to fetch job listings")
    ensures fetched.Ok? ==> r.Json? && r.result == Search(fetched.value, Options(q), now)
  {
    Respond(fetched, Options(q), now)
  }

  /** The route with the corrected limit. */
  function ListJobsFixed(q: Query, fetched: Result<seq<JobListing>, string>, now: int): (r: Response)
    ensures fetched.Err? <==> r == ServerError(500, "Failed to fetch job listings")
    ensures fetched.Ok? ==> r.Json? && r.result == Search(fetched.value, OptionsFixed(q), now)
  {
    Respond(fetched, OptionsFixed(q), now)
  }

  /** The corrected route never answers with more than 100 jobs, nor with more than the total it
      reports. */
  lemma ListJobsBounded(q: Query, fetched: Result<seq<JobListing>, string>, now: int)
    ensures var r := ListJobsFixed(q, fetched, now);
      r.Json? ==> |r.result.jobs| <= MaxLimit && |r.result.jobs| <= r.result.total
  {
    if fetched.Ok? {
      SearchShape(fetched.value, OptionsFixed(q), now);
    }
  }

  /** The route as written answers like the corrected one exactly when its limit is positive, so
      every request whose limit is absent, unreadable, zero or positive is bounded as well. */
  lemma ListJobsAgree(q: Query, all: seq<JobListing>, now: int)
    ensures LimitAsWritten(q.limit) > 0 ==> ListJobs(q, Ok(all), now) == ListJobsFixed(q, Ok(all), now)
    ensures LimitAsWritten(q.limit) > 0 ==>
      |ListJobs(q, Ok(all), now).result.jobs| <= MaxLimit
  {
    OptionsAgree(q);
    ListJobsBounded(q, Ok(all), now);
  }

  /** `slice(0, -1)` of the ranked jobs keeps all but the last. */
  lemma MinusOneSlice(ranked: seq<GroupedJob>, o: SearchOptions)
    requires o.offset == Some(0) && o.limit == Some(-1)
    ensures |ranked| >= 1 ==> |Page(ranked, o).jobs| == |ranked| - 1
    ensures Page(ranked, o).total == |ranked|
  {
  }

  /** A page size of -1 without an offset is `slice(0, -1)`: every ranked job but the last. */
  lemma MinusOnePage(all: seq<JobListing>, q: Query, now: int)
    requires q.offset.None?
    ensures var r := Search(all, OptionsWith(q, -1), now);
      r.total >= 1 ==> |r.jobs| == r.total - 1
  {
    var o := OptionsWith(q, -1);
    assert o.offset == Some(0) && o.limit == Some(-1);
    MinusOneSlice(Ranked(all, o, now), o);
  }

  /** The text "-1" is read as written as the limit -1. */
  lemma MinusOneLimit(x: Option<string>)
    requires x == Some("-1")
    ensures LimitAsWritten(x) == -1
  {
    assert JsNumbers.IntToString(-1) == "-1";
    JsNumbers.ParseIntOfIntToString(-1);
  }

  /** As written, `limit=-1` asks `slice` to stop one before the end: the route answers with every
      ranked job but the last, which exceeds 100 as soon as 102 jobs are ranked. */
  lemma NegativeLimitPage(all: seq<JobListing>, q: Query, now: int)
    requires q.limit == Some("-1") && q.offset.None?
    ensures LimitAsWritten(q.limit) == -1
    ensures var r := ListJobs(q, Ok(all), now);
      r.Json? && (r.result.total >= 1 ==> |r.result.jobs| == r.result.total - 1)
  {
    MinusOneLimit(q.limit);
    assert Options(q) == OptionsWith(q, -1);
    MinusOnePage(all, q, now);
  }

  /** `GET /jobs` end to end: `fetchListings` runs against the cache at `nowMs`, and the search
      reads the clock again (`searchNowMs`) for the posting window. */
  method GetJobs(cache: ListingsCache, q: Query, nowMs: int, outcome: FetchOutcome, fetchedAt: int, searchNowMs: int)
    returns (r: Response)
    modifies cache
    ensures var (s, fetched) := FetchStep(old(cache.State()), nowMs, outcome, fetchedAt);
      cache.State() == s && r == ListJobs(q, fetched, JsNumbers.FloorDiv(searchNowMs, 1000))
  {
    var fetched := cache.FetchListings(nowMs, outcome, fetchedAt);
    match fetched {
      case Err(_) =>
        r := ServerError(500, "Failed to fetch job listings");
      case Ok(all) =>
        var result := SearchJobs(all, Options(q), JsNumbers.FloorDiv(searchNowMs, 1000));
        r := Json(result);
    }
  }
}
