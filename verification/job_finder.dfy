/** The job finder page: the "posted ... ago" badge, the marking of jobs that are already tracked
    as applications, the page state with its Previous/Next buttons, the request it sends for a
    page, and the location label of a job card. */
module JobFinder {
  import opened Wrappers
  import JsNumbers
  import Seqs
  import JobListings
  import JobsRoute

  const PageSize: int := 25
  const SecondsPerDay: int := 86400

  /** The fields of a job the page reads. */
  datatype Job = Job(
    id: string,
    companyName: Option<string>,
    title: Option<string>,
    url: Option<string>,
    locations: Option<seq<string>>,
    datePosted: Option<int>)

  /** The fields of a tracked application the page reads. */
  datatype Application = Application(company: Option<string>, title: Option<string>, url: Option<string>)

  /* ---------------------------------------------------------------- formatPostedAgo */

  /** `formatPostedAgo`: the age of a posting at `now` (seconds) in whole days, weeks or months;
      the empty string for a job without a date. */
  function FormatPostedAgo(datePosted: int, now: int): (r: string)
    ensures r == "" <==> datePosted == 0
  {
    if datePosted == 0 then ""
    else
      var days := JsNumbers.FloorDiv(now - datePosted, SecondsPerDay);
      if days == 0 then "Today"
      else if days == 1 then "1d ago"
      else if days < 7 then JsNumbers.IntToString(days) + "d ago"
      else if days < 30 then JsNumbers.IntToString(JsNumbers.FloorDiv(days, 7)) + "w ago"
      else JsNumbers.IntToString(JsNumbers.FloorDiv(days, 30)) + "mo ago"
  }

  /** What the badge says about the time elapsed since the posting: "Today" exactly within its
      first day; then the number of whole days up to a week, of whole weeks up to 30 days, and of
      whole 30-day months beyond. A posting dated in the future shows a negative number of days. */
  lemma PostedAgoMeaning(datePosted: int, now: int)
    requires datePosted != 0
    ensures var r, e := FormatPostedAgo(datePosted, now), now - datePosted;
      && (r == "Today" <==> 0 <= e < SecondsPerDay)
      && (e < 0 || SecondsPerDay <= e < 7 * SecondsPerDay ==>
            exists n :: n != 0 && n < 7 && SecondsPerDay * n <= e < SecondsPerDay * n + SecondsPerDay
                        && r == JsNumbers.IntToString(n) + "d ago")
      && (7 * SecondsPerDay <= e < 30 * SecondsPerDay ==>
            exists w :: 1 <= w <= 4 && 7 * SecondsPerDay * w <= e < 7 * SecondsPerDay * w + 7 * SecondsPerDay
                        && r == JsNumbers.IntToString(w) + "w ago")
      && (30 * SecondsPerDay <= e ==>
            exists m :: 1 <= m && 30 * SecondsPerDay * m <= e < 30 * SecondsPerDay * m + 30 * SecondsPerDay
                        && r == JsNumbers.IntToString(m) + "mo ago")
  {
    var e := now - datePosted;
    PostedToday(datePosted, now);
    if e < 0 || SecondsPerDay <= e < 7 * SecondsPerDay {
      PostedDays(datePosted, now);
    }
    if 7 * SecondsPerDay <= e < 30 * SecondsPerDay {
      PostedWeeks(datePosted, now);
    }
    if 30 * SecondsPerDay <= e {
      PostedMonths(datePosted, now);
    }
  }

  lemma PostedToday(datePosted: int, now: int)
    requires datePosted != 0
    ensures FormatPostedAgo(datePosted, now) == "Today" <==> 0 <= now - datePosted < SecondsPerDay
  {
    var r := FormatPostedAgo(datePosted, now);
    if JsNumbers.FloorDiv(now - datePosted, SecondsPerDay) != 0 {
      assert r[|r| - 1] == 'o';
    }
  }

  lemma PostedDays(datePosted: int, now: int)
    requires datePosted != 0
    requires var e := now - datePosted; e < 0 || SecondsPerDay <= e < 7 * SecondsPerDay
    ensures var e := now - datePosted;
      exists n :: n != 0 && n < 7 && SecondsPerDay * n <= e < SecondsPerDay * n + SecondsPerDay
                  && FormatPostedAgo(datePosted, now) == JsNumbers.IntToString(n) + "d ago"
  {
    var days := JsNumbers.FloorDiv(now - datePosted, SecondsPerDay);
    if days == 1 {
      assert JsNumbers.IntToString(1) == "1";
    }
    assert FormatPostedAgo(datePosted, now) == JsNumbers.IntToString(days) + "d ago";
  }

  lemma PostedWeeks(datePosted: int, now: int)
    requires datePosted != 0
    requires 7 * SecondsPerDay <= now - datePosted < 30 * SecondsPerDay
    ensures var e := now - datePosted;
      exists w :: 1 <= w <= 4 && 7 * SecondsPerDay * w <= e < 7 * SecondsPerDay * w + 7 * SecondsPerDay
                  && FormatPostedAgo(datePosted, now) == JsNumbers.IntToString(w) + "w ago"
  {
    var days := JsNumbers.FloorDiv(now - datePosted, SecondsPerDay);
    assert 7 <= days < 30;
    var w := JsNumbers.FloorDiv(days, 7);
    JsNumbers.MulLe(SecondsPerDay, 7 * w, days);
    JsNumbers.MulLe(SecondsPerDay, days + 1, 7 * w + 7);
    assert FormatPostedAgo(datePosted, now) == JsNumbers.IntToString(w) + "w ago";
  }

  lemma PostedMonths(datePosted: int, now: int)
    requires datePosted != 0
    requires 30 * SecondsPerDay <= now - datePosted
    ensures var e := now - datePosted;
      exists m :: 1 <= m && 30 * SecondsPerDay * m <= e < 30 * SecondsPerDay * m + 30 * SecondsPerDay
                  && FormatPostedAgo(datePosted, now) == JsNumbers.IntToString(m) + "mo ago"
  {
    var days := JsNumbers.FloorDiv(now - datePosted, SecondsPerDay);
    assert 30 <= days;
    var m := JsNumbers.FloorDiv(days, 30);
    JsNumbers.MulLe(SecondsPerDay, 30 * m, days);
    JsNumbers.MulLe(SecondsPerDay, days + 1, 30 * m + 30);
    assert FormatPostedAgo(datePosted, now) == JsNumbers.IntToString(m) + "mo ago";
  }

  /* ---------------------------------------------------------------- trackedKeys / isJobTracked */

  /** The `company|title` key of the page: both parts lower-cased and trimmed, a missing part empty. */
  function CompanyTitleKey(company: Option<string>, title: Option<string>): string {
    JobListings.Normal(company.GetOr("")) + "|" + JobListings.Normal(title.GetOr(""))
  }

  /** What `trackedKeys` adds for one application: its key and, when it has one, its url. */
  function EntriesOf(): Application -> set<string> {
    (a: Application) => {CompanyTitleKey(a.company, a.title)} + (if JobListings.Truthy(a.url) then {a.url.value} else {})
  }

  /** The union of `f(x)` over the elements of `xs`, added left to right. */
  function UnionOf<T>(xs: seq<T>, f: T -> set<string>): set<string> {
    if xs == [] then {} else UnionOf(xs[..|xs| - 1], f) + f(xs[|xs| - 1])
  }

  lemma {:induction false} UnionOfMembers<T>(xs: seq<T>, f: T -> set<string>, x: string)
    ensures x in UnionOf(xs, f) <==> exists a :: a in xs && x in f(a)
  {
    if xs != [] {
      var init := xs[..|xs| - 1];
      UnionOfMembers(init, f, x);
      assert xs == init + [xs[|xs| - 1]];
    }
  }

  /** The set `trackedKeys` holds after adding the applications of `apps` in order. */
  function TrackedSet(apps: seq<Application>): set<string> {
    UnionOf(apps, EntriesOf())
  }

  /** `trackedKeys`: one set of strings collecting the keys and the urls of the applications. */
  method TrackedKeys(apps: seq<Application>) returns (tracked: set<string>)
    ensures tracked == TrackedSet(apps)
  {
    tracked := {};
    for i := 0 to |apps|
      invariant tracked == UnionOf(apps[..i], EntriesOf())
    {
      var a := apps[i];
      assert apps[..i + 1][..i] == apps[..i];
      ghost var before := tracked;
      tracked := tracked + {CompanyTitleKey(a.company, a.title)};
      if JobListings.Truthy(a.url) {
        tracked := tracked + {a.url.value};
      }
      assert tracked == before + EntriesOf()(a);
    }
    assert apps[..|apps|] == apps;
  }

  /** The set holds exactly the applications' keys and their non-empty urls. */
  lemma TrackedSetMembers(apps: seq<Application>, x: string)
    ensures x in TrackedSet(apps) <==>
      exists a :: a in apps && (x == CompanyTitleKey(a.company, a.title) || (JobListings.Truthy(a.url) && x == a.url.value))
  {
    UnionOfMembers(apps, EntriesOf(), x);
  }

  /** `isJobTracked`: the job's key is in the set, or its url is non-empty and in the set. */
  predicate IsJobTracked(tracked: set<string>, job: Job) {
    || CompanyTitleKey(job.companyName, job.title) in tracked
    || (JobListings.Truthy(job.url) && job.url.value in tracked)
  }

  /** A key always holds the separator. */
  lemma KeyHasBar(company: Option<string>, title: Option<string>)
    ensures '|' in CompanyTitleKey(company, title)
  {
    BarBetween(JobListings.Normal(company.GetOr("")), JobListings.Normal(title.GetOr("")));
  }

  lemma BarBetween(a: string, b: string)
    ensures '|' in a + "|" + b
  {
    assert (a + "|" + b)[|a|] == '|';
  }

  /** When no url holds a `|`, keys and urls cannot meet in the shared set, and a job is tracked
      exactly when an application has its key or, for a job with a url, its url. */
  lemma TrackedMatches(apps: seq<Application>, job: Job)
    requires forall a :: a in apps && a.url.Some? ==> '|' !in a.url.value
    requires job.url.Some? ==> '|' !in job.url.value
    ensures IsJobTracked(TrackedSet(apps), job) <==>
      || (exists a :: a in apps && CompanyTitleKey(a.company, a.title) == CompanyTitleKey(job.companyName, job.title))
      || (JobListings.Truthy(job.url) && exists a :: a in apps && a.url == job.url)
  {
    var key := CompanyTitleKey(job.companyName, job.title);
    KeyHasBar(job.companyName, job.title);
    TrackedSetMembers(apps, key);
    if JobListings.Truthy(job.url) {
      TrackedSetMembers(apps, job.url.value);
      forall a | a in apps ensures job.url.value != CompanyTitleKey(a.company, a.title) {
        KeyHasBar(a.company, a.title);
      }
    }
  }

  /** Without that condition a url can stand for a key: a job is tracked when its url equals the
      key of an application, whatever the job's company and title. */
  lemma UrlMatchesKey(apps: seq<Application>, job: Job, a: Application)
    requires a in apps && job.url == Some(CompanyTitleKey(a.company, a.title))
    ensures IsJobTracked(TrackedSet(apps), job)
  {
    TrackedSetMembers(apps, job.url.value);
    KeyHasBar(a.company, a.title);
  }

  /* ---------------------------------------------------------------- pagination */

  /** `Math.ceil(total / PAGE_SIZE)`, the number of the last page. */
  function LastPage(total: int): (n: int)
    ensures PageSize * n - PageSize < total <= PageSize * n
  {
    JsNumbers.CeilDiv(total, PageSize)
  }

  /** The page Previous moves to: `Math.max(1, p - 1)`. */
  function PreviousPage(p: int): int {
    if p - 1 > 1 then p - 1 else 1
  }

  /** The page Next moves to: `Math.min(Math.ceil(total / PAGE_SIZE), p + 1)`. */
  function NextPage(p: int, total: int): int {
    if LastPage(total) < p + 1 then LastPage(total) else p + 1
  }

  /** Previous and Next keep a page between 1 and the last page; each moves by one page when its
      button is enabled (`page > 1`, `page < last`) and stays put otherwise. */
  lemma PagesStayInRange(p: int, total: int)
    requires 1 <= p <= LastPage(total)
    ensures 1 <= PreviousPage(p) <= LastPage(total)
    ensures 1 <= NextPage(p, total) <= LastPage(total)
    ensures PreviousPage(p) == (if p > 1 then p - 1 else p)
    ensures NextPage(p, total) == (if p < LastPage(total) then p + 1 else p)
  {
  }

  /** The `page` state of the page. */
  class Pager {
    var page: int

    constructor ()
      ensures page == 1
    {
      page := 1;
    }

    /** The effect that returns to the first page when the search, a filter or the window changes. */
    method Reset()
      modifies this
      ensures page == 1
    {
      page := 1;
    }

    method Previous()
      modifies this
      ensures page == PreviousPage(old(page))
    {
      page := if page - 1 > 1 then page - 1 else 1;
    }

    method Next(total: int)
      modifies this
      ensures page == NextPage(old(page), total)
    {
      var last := JsNumbers.CeilDiv(total, PageSize);
      page := if last < page + 1 then last else page + 1;
    }
  }

  /** `(page - 1) * PAGE_SIZE`, the offset of the request. */
  function RequestOffset(page: int): int {
    (page - 1) * PageSize
  }

  /** The query string `useJobs` sends for a page: each option only when it is truthy, `usOnly`
      as "true", and the numbers as decimal text. */
  function RequestQuery(search: string, category: string, roleType: string, usOnly: bool,
                        postedWithin: JobListings.Window, page: int): JobsRoute.Query {
    var offset := RequestOffset(page);
    JobsRoute.Query(
      if category != "" then Some(category) else None,
      if roleType != "" then Some(roleType) else None,
      if search != "" then Some(search) else None,
      if usOnly then Some("true") else None,
      Some(JobsRoute.WindowName(postedWithin)),
      Some(JsNumbers.IntToString(PageSize)),
      if offset != 0 then Some(JsNumbers.IntToString(offset)) else None)
  }

  /** The route reads the page's filters back as the page holds them: an empty text is no
      filter, and the window is always sent. */
  lemma RequestFilters(search: string, category: string, roleType: string, usOnly: bool,
                       postedWithin: JobListings.Window, page: int)
    ensures var o := JobsRoute.Options(RequestQuery(search, category, roleType, usOnly, postedWithin, page));
      && (JobListings.Truthy(o.category) <==> category != "")
      && (JobListings.Truthy(o.category) ==> o.category.value == category)
      && (JobListings.Truthy(o.roleType) <==> roleType != "")
      && (JobListings.Truthy(o.roleType) ==> o.roleType.value == roleType)
      && (JobListings.Truthy(o.search) <==> search != "")
      && (JobListings.Truthy(o.search) ==> o.search.value == search)
      && o.usOnly == usOnly
      && o.postedWithin == Some(postedWithin)
  {
    JobsRoute.OptionsFilters(RequestQuery(search, category, roleType, usOnly, postedWithin, page));
  }

  /** The route reads the page's paging back as sent: 25 jobs from offset `(page - 1) * 25`. */
  lemma RequestPaging(search: string, category: string, roleType: string, usOnly: bool,
                      postedWithin: JobListings.Window, page: int)
    ensures var o := JobsRoute.Options(RequestQuery(search, category, roleType, usOnly, postedWithin, page));
      o.limit == Some(PageSize) && o.offset == Some(RequestOffset(page))
  {
    var q := RequestQuery(search, category, roleType, usOnly, postedWithin, page);
    JobsRoute.LimitAsWrittenOfNumber(PageSize);
    assert JobsRoute.LimitAsWritten(q.limit) == PageSize;
    if RequestOffset(page) != 0 {
      JobsRoute.ParseOffsetOfNumber(RequestOffset(page));
    }
    assert JobsRoute.ParseOffset(q.offset) == RequestOffset(page);
  }

  /** The "Showing first–last" range of the page. */
  function ShowingRange(page: int, total: int): (int, int) {
    (RequestOffset(page) + 1, if page * PageSize < total then page * PageSize else total)
  }

  /** On a page between 1 and the last, the range shown names exactly the jobs the server returns
      for the page's request: it starts one past the offset, and it counts as many jobs as the
      page holds. */
  lemma ShowingMatchesPage(ranked: seq<JobListings.GroupedJob>, o: JobListings.SearchOptions, page: int)
    requires o.limit == Some(PageSize) && o.offset == Some(RequestOffset(page))
    requires 1 <= page <= LastPage(|ranked|)
    ensures var (first, last) := ShowingRange(page, |ranked|);
      && 1 <= first <= last <= |ranked|
      && |JobListings.Page(ranked, o).jobs| == last - first + 1
      && JobListings.Page(ranked, o).jobs == ranked[first - 1..last]
  {
    var offset := RequestOffset(page);
    assert PageSize * page - PageSize < |ranked|;
  }

  /* ---------------------------------------------------------------- locationLabel */

  /** The location line of a job card: the number of locations when there are several, the only
      location when there is one, and nothing for none. */
  function LocationLabel(locations: Option<seq<string>>): (r: Option<string>)
    ensures r.Some? <==> locations.Some? && locations.value != []
  {
    if locations.Some? && |locations.value| > 1 then Some(JsNumbers.IntToString(|locations.value|) + " locations")
    else if locations.Some? && |locations.value| == 1 then Some(locations.value[0])
    else None
  }

  /** A label for several locations starts with their number, which `parseInt` reads back. */
  lemma LocationLabelCount(locations: seq<string>)
    requires |locations| > 1
    ensures LocationLabel(Some(locations)).Some?
    ensures JsNumbers.ParseInt(LocationLabel(Some(locations)).value) == Some(|locations|)
  {
    JsNumbers.ParseIntOfNumberPrefix(|locations|, " locations");
  }
}
