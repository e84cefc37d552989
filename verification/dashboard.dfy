/** The dashboard service: the headline rates (`getStats`), the applications-per-day series
    (`getChartData`) and the status flow graph (`getSankeyData`). The database queries are
    replaced by the records they return, passed in as parameters. */
module Dashboard {
  import opened Wrappers
  import opened Tallies
  import opened Flows
  import JsNumbers
  import Sorting
  import Text

  /* ---------------------------------------------------------------- getStats */

  datatype Stats = Stats(totalApplications: nat, responseRate: int, rejectionRate: int, interviewConversion: int)

  function Is(s: string): string -> bool {
    x => x == s
  }

  /** Number of applications whose status is `s`. */
  function CountStatus(statuses: seq<string>, s: string): (n: nat)
    ensures n <= |statuses|
  {
    CountWhereBound(statuses, Is(s));
    CountWhere(statuses, Is(s))
  }

  /** Applications that heard back: interviews, offers and rejections. */
  function Responded(statuses: seq<string>): nat {
    CountStatus(statuses, "INTERVIEW") + CountStatus(statuses, "OFFER") + CountStatus(statuses, "REJECTED")
  }

  /** `getStats` over the statuses of the user's applications. */
  function GetStats(statuses: seq<string>): (r: Stats)
    ensures r.totalApplications == |statuses|
    ensures |statuses| == 0 ==> r == Stats(0, 0, 0, 0)
    ensures 0 <= r.rejectionRate <= r.responseRate <= 100
    ensures 0 <= r.interviewConversion <= 100
    ensures Responded(statuses) == 0 ==> r.interviewConversion == 0
  {
    var total := |statuses|;
    if total == 0 then Stats(0, 0, 0, 0)
    else
      var rejected := CountStatus(statuses, "REJECTED");
      var interviews := CountStatus(statuses, "INTERVIEW");
      var offers := CountStatus(statuses, "OFFER");
      var responded := interviews + offers + rejected;
      RespondedBound(statuses);
      JsNumbers.RoundPercent(responded, total);
      JsNumbers.RoundPercent(rejected, total);
      JsNumbers.RoundMonotone(rejected * 100, responded * 100, total);
      var conversion :=
        if responded > 0 then
          JsNumbers.RoundPercent(interviews + offers, responded);
          JsNumbers.Round((interviews + offers) * 100, responded)
        else 0;
      Stats(total, JsNumbers.Round(responded * 100, total), JsNumbers.Round(rejected * 100, total), conversion)
  }

  /** Distinct statuses are counted apart, so at most every application has responded. */
  lemma {:induction false} RespondedBound(statuses: seq<string>)
    ensures Responded(statuses) <= |statuses|
  {
    if statuses != [] {
      RespondedBound(statuses[..|statuses| - 1]);
    }
  }

  /* ------------------------------------------------------------ getChartData */

  datatype DayCount = DayCount(date: string, count: nat)

  /** The calendar day `createdAt.toISOString().slice(0, 10)` of an ISO timestamp. */
  function Day(iso: string): string {
    Text.Take(iso, 10)
  }

  function Days(createdAt: seq<string>): (r: seq<string>)
    ensures |r| == |createdAt| && forall i :: 0 <= i < |r| ==> r[i] == Day(createdAt[i])
  {
    seq(|createdAt|, i requires 0 <= i < |createdAt| => Day(createdAt[i]))
  }

  /** `Object.entries(buckets).map(([date, count]) => ({ date, count }))`. */
  function Entries(keys: seq<string>, counts: map<string, nat>): (r: seq<DayCount>)
    requires forall k :: k in keys ==> k in counts
    ensures |r| == |keys|
    ensures forall i :: 0 <= i < |r| ==> r[i] == DayCount(keys[i], counts[keys[i]])
  {
    if keys == [] then []
    else [DayCount(keys[0], counts[keys[0]])] + Entries(keys[1..], counts)
  }

  /** The series `getChartData` returns for applications created at the given ISO timestamps. */
  function ChartOf(createdAt: seq<string>): seq<DayCount> {
    TallyOfContents(Days(createdAt));
    Entries(TallyOf(Days(createdAt)).keys, TallyOf(Days(createdAt)).counts)
  }

  /** `getChartData`: one bucket per day, incremented once per application. */
  method ChartData(createdAt: seq<string>) returns (entries: seq<DayCount>)
    ensures entries == ChartOf(createdAt)
  {
    var buckets: Tally<string> := Tally([], map[]);
    for k := 0 to |createdAt|
      invariant buckets == TallyOf(Days(createdAt[..k]))
    {
      var date := Day(createdAt[k]);
      assert Days(createdAt[..k + 1]) == Days(createdAt[..k]) + [date];
      TallyOfSnoc(Days(createdAt[..k]), date);
      buckets := Bump(buckets, date);
    }
    assert createdAt[..|createdAt|] == createdAt;
    TallyOfContents(Days(createdAt));
    entries := Entries(buckets.keys, buckets.counts);
  }

  function SumCounts(entries: seq<DayCount>): nat {
    if entries == [] then 0 else entries[0].count + SumCounts(entries[1..])
  }

  function Always(d: string): bool {
    true
  }

  lemma {:induction false} SumCountsOfEntries(keys: seq<string>, counts: map<string, nat>)
    requires forall k :: k in keys ==> k in counts
    ensures SumCounts(Entries(keys, counts)) == SumWhere(keys, counts, Always)
  {
    if keys != [] {
      SumCountsOfEntries(keys[1..], counts);
    }
  }

  lemma EntriesDates(keys: seq<string>, counts: map<string, nat>)
    requires NoDuplicates(keys) && forall k :: k in keys ==> k in counts
    ensures forall i, j :: 0 <= i < j < |Entries(keys, counts)| ==> Entries(keys, counts)[i].date != Entries(keys, counts)[j].date
    ensures forall d :: (exists e :: e in Entries(keys, counts) && e.date == d) <==> d in keys
    ensures forall e :: e in Entries(keys, counts) ==> e.date in counts && e.count == counts[e.date]
  {
    var entries := Entries(keys, counts);
    forall d | d in keys ensures exists e :: e in entries && e.date == d {
      var i :| 0 <= i < |keys| && keys[i] == d;
      assert entries[i].date == d;
    }
  }

  /** One entry per distinct day, counting the applications created that day. */
  lemma ChartDays(createdAt: seq<string>)
    ensures forall i, j :: 0 <= i < j < |ChartOf(createdAt)| ==> ChartOf(createdAt)[i].date != ChartOf(createdAt)[j].date
    ensures forall d :: (exists e :: e in ChartOf(createdAt) && e.date == d) <==> d in Days(createdAt)
    ensures forall e :: e in ChartOf(createdAt) ==> e.count == multiset(Days(createdAt))[e.date] >= 1
  {
    var days := Days(createdAt);
    var t := TallyOf(days);
    TallyOfContents(days);
    EntriesDates(t.keys, t.counts);
  }

  /** The counts add up to the number of applications. */
  lemma ChartTotal(createdAt: seq<string>)
    ensures SumCounts(ChartOf(createdAt)) == |createdAt|
  {
    var days := Days(createdAt);
    var t := TallyOf(days);
    TallyOfContents(days);
    TallyOfSum(days, Always);
    CountWhereAll(days, Always);
    SumCountsOfEntries(t.keys, t.counts);
  }

  /** When the applications come sorted by creation time, the days come out in ascending order. */
  lemma ChartAscending(createdAt: seq<string>)
    requires forall i, j :: 0 <= i < j < |createdAt| ==> Text.NotAbove(createdAt[i], createdAt[j])
    ensures forall i, j :: 0 <= i < j < |ChartOf(createdAt)| ==> Text.Below(ChartOf(createdAt)[i].date, ChartOf(createdAt)[j].date)
  {
    var days := Days(createdAt);
    var t := TallyOf(days);
    TallyOfContents(days);
    TallyOfOrder(days);
    var entries := ChartOf(createdAt);
    forall i, j | 0 <= i < j < |entries| ensures Text.Below(entries[i].date, entries[j].date) {
      var a, b := t.keys[i], t.keys[j];
      var ia, ib := FirstIndex(days, a), FirstIndex(days, b);
      Text.TakeNotAbove(createdAt[ia], createdAt[ib], 10);
      assert a != b;
    }
  }
}
