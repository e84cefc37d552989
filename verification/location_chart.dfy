/** The dashboard's location chart: every application is counted under its trimmed location, or
    under "Unspecified" when it has none, and the ten most frequent locations are shown, the most
    frequent first. */
module LocationChart {
  import opened Wrappers
  import Text
  import opened Tallies
  import Sorting

  datatype LocationCount = LocationCount(location: string, count: nat)

  const Unspecified: string := "Unspecified"

  /** How many locations the chart shows. */
  const TopLocations: int := 10

  /** `normalizeLocation`: the trimmed location, or "Unspecified" for a missing or blank one. */
  function NormalizeLocation(loc: Option<string>): (r: string)
    ensures r != ""
    ensures loc.None? || Text.AllSpace(loc.value) ==> r == Unspecified
    ensures loc.Some? && !Text.AllSpace(loc.value) ==> r == Text.Trim(loc.value) && Text.Trim(r) == r
  {
    if loc.None? then Unspecified
    else
      Text.TrimShape(loc.value);
      Text.TrimIdempotent(loc.value);
      if Text.Trim(loc.value) != "" then Text.Trim(loc.value) else Unspecified
  }

  /** The location each application is counted under. */
  function Normalized(locs: seq<Option<string>>): (r: seq<string>)
    ensures |r| == |locs|
  {
    if locs == [] then [] else Normalized(locs[..|locs| - 1]) + [NormalizeLocation(locs[|locs| - 1])]
  }

  /** `Object.entries(byLocation).map(([location, count]) => ({ location, count }))`. */
  function Entries(keys: seq<string>, counts: map<string, nat>): (r: seq<LocationCount>)
    requires forall k :: k in keys ==> k in counts
    ensures |r| == |keys|
    ensures forall i :: 0 <= i < |r| ==> r[i] == LocationCount(keys[i], counts[keys[i]])
  {
    if keys == [] then []
    else [LocationCount(keys[0], counts[keys[0]])] + Entries(keys[1..], counts)
  }

  /** One entry per location, in the order the locations first occur. */
  function AllEntries(locs: seq<Option<string>>): seq<LocationCount> {
    var t := TallyOf(Normalized(locs));
    TallyOfContents(Normalized(locs));
    Entries(t.keys, t.counts)
  }

  /** The comparator `(a, b) => b.count - a.count` as a sort key: larger counts first. */
  function ByCountDescending(): LocationCount -> int {
    (e: LocationCount) => -(e.count as int)
  }

  /** The entries after the stable sort by descending count. */
  function Ranked(locs: seq<Option<string>>): seq<LocationCount> {
    Sorting.SortByKey(AllEntries(locs), ByCountDescending())
  }

  /** The data of the chart: the first ten ranked entries. */
  function ChartOf(locs: seq<Option<string>>): seq<LocationCount> {
    Top(Ranked(locs))
  }

  /** `slice(0, 10)`. */
  function Top(r: seq<LocationCount>): seq<LocationCount> {
    if |r| <= TopLocations then r else r[..TopLocations]
  }

  /** The counting loop of the chart's `useMemo`: one more count for the location of each
      application, in order. */
  method CountLocations(locs: seq<Option<string>>) returns (byLocation: Tally<string>)
    ensures byLocation == TallyOf(Normalized(locs))
  {
    byLocation := Tally([], map[]);
    for k := 0 to |locs|
      invariant byLocation == TallyOf(Normalized(locs[..k]))
    {
      var loc := NormalizeLocation(locs[k]);
      CountStep(locs, k);
      byLocation := Bump(byLocation, loc);
    }
    assert locs[..|locs|] == locs;
  }

  /** Counting one more application bumps the count of its location. */
  lemma CountStep(locs: seq<Option<string>>, k: nat)
    requires k < |locs|
    ensures TallyOf(Normalized(locs[..k + 1])) == Bump(TallyOf(Normalized(locs[..k])), NormalizeLocation(locs[k]))
  {
    var loc := NormalizeLocation(locs[k]);
    assert locs[..k + 1][..k] == locs[..k];
    assert Normalized(locs[..k + 1]) == Normalized(locs[..k]) + [loc];
    TallyOfSnoc(Normalized(locs[..k]), loc);
  }

  /** The chart's `useMemo`: count, then sort the entries and keep ten. */
  method LocationData(locs: seq<Option<string>>) returns (data: seq<LocationCount>)
    ensures data == ChartOf(locs)
  {
    var byLocation := CountLocations(locs);
    TallyOfContents(Normalized(locs));
    var entries := Entries(byLocation.keys, byLocation.counts);
    var sorted := Sorting.SortByKey(entries, ByCountDescending());
    data := Top(sorted);
  }

  /** The entries list each key once, with its count. */
  lemma EntriesFacts(keys: seq<string>, counts: map<string, nat>)
    requires NoDuplicates(keys) && forall k :: k in keys ==> k in counts
    ensures var es := Entries(keys, counts);
      && NoDuplicates(es)
      && (forall i, j :: 0 <= i < j < |es| ==> es[i].location != es[j].location)
      && (forall e :: e in es ==> e.location in keys && e.count == counts[e.location])
      && (forall l :: l in keys ==> exists e :: e in es && e.location == l)
  {
    var es := Entries(keys, counts);
    forall l | l in keys ensures exists e :: e in es && e.location == l {
      var i :| 0 <= i < |keys| && keys[i] == l;
      assert es[i].location == l;
    }
  }

  /** The entries of the tally of `xs` list each element of `xs` once, with its multiplicity. */
  lemma TallyEntriesFacts(xs: seq<string>)
    ensures var t := TallyOf(xs);
      && (forall k :: k in t.keys ==> k in t.counts)
      && var es := Entries(t.keys, t.counts);
      && NoDuplicates(es)
      && (forall i, j :: 0 <= i < j < |es| ==> es[i].location != es[j].location)
      && (forall e :: e in es ==> e.count == multiset(xs)[e.location] >= 1)
      && (forall l :: l in xs <==> exists e :: e in es && e.location == l)
  {
    var t := TallyOf(xs);
    TallyOfContents(xs);
    EntriesFacts(t.keys, t.counts);
  }

  /** Each entry counts the applications counted under its location, at least one; the locations
      are distinct, and they are exactly the locations the applications are counted under. */
  lemma AllEntriesFacts(locs: seq<Option<string>>)
    ensures var es := AllEntries(locs);
      && NoDuplicates(es)
      && (forall i, j :: 0 <= i < j < |es| ==> es[i].location != es[j].location)
      && (forall e :: e in es ==> e.count == multiset(Normalized(locs))[e.location] >= 1)
      && (forall l :: l in Normalized(locs) <==> exists e :: e in es && e.location == l)
  {
    TallyEntriesFacts(Normalized(locs));
  }

  /** The ranked entries are the entries, by non-increasing count. */
  lemma RankedOrder(locs: seq<Option<string>>)
    ensures var r := Ranked(locs);
      && multiset(r) == multiset(AllEntries(locs))
      && |r| == |AllEntries(locs)|
      && (forall e :: e in r <==> e in AllEntries(locs))
      && (forall i, j :: 0 <= i < j < |r| ==> r[i].count >= r[j].count)
  {
    var es := AllEntries(locs);
    var r := Ranked(locs);
    Sorting.SortByKeySorted(es, ByCountDescending());
    forall i, j | 0 <= i < j < |r| ensures r[i].count >= r[j].count {
      assert ByCountDescending()(r[i]) <= ByCountDescending()(r[j]);
    }
    forall e ensures e in r <==> e in es {
      assert e in r <==> e in multiset(r);
      assert e in es <==> e in multiset(es);
    }
  }

  /** The ranked entries are the entries in sorted order, each location once. */
  lemma RankedFacts(locs: seq<Option<string>>)
    ensures var r := Ranked(locs);
      && multiset(r) == multiset(AllEntries(locs))
      && |r| == |AllEntries(locs)|
      && (forall e :: e in r <==> e in AllEntries(locs))
      && (forall i, j :: 0 <= i < j < |r| ==> r[i].count >= r[j].count)
      && (forall i, j :: 0 <= i < j < |r| ==> r[i].location != r[j].location)
  {
    var es := AllEntries(locs);
    var r := Ranked(locs);
    RankedOrder(locs);
    AllEntriesFacts(locs);
    DistinctPermutation(es, r);
    forall i, j | 0 <= i < j < |r| ensures r[i].location != r[j].location {
      assert r[i] in es && r[j] in es;
      assert r[i] != r[j];
    }
  }

  /** The chart shows at most ten locations, each once, the most frequent first, with their
      counts; it shows all of them when there are ten or fewer. */
  lemma ChartFacts(locs: seq<Option<string>>)
    ensures var data := ChartOf(locs);
      && |data| <= TopLocations
      && (|AllEntries(locs)| <= TopLocations ==> |data| == |AllEntries(locs)|)
      && (forall i, j :: 0 <= i < j < |data| ==> data[i].count >= data[j].count)
      && (forall i, j :: 0 <= i < j < |data| ==> data[i].location != data[j].location)
      && (forall e :: e in data ==>
            e.location in Normalized(locs) && e.count == multiset(Normalized(locs))[e.location] >= 1)
  {
    var r := Ranked(locs);
    RankedFacts(locs);
    AllEntriesFacts(locs);
    var data := ChartOf(locs);
    assert forall e :: e in data ==> e in r;
  }

  /** In a list sorted by non-increasing count, an entry left out of the first ten counts no more
      than any of them. */
  lemma OffTopBelow(r: seq<LocationCount>, j: nat)
    requires forall i, k :: 0 <= i < k < |r| ==> r[i].count >= r[k].count
    requires j < |r| && r[j] !in Top(r)
    ensures forall d :: d in Top(r) ==> r[j].count <= d.count
  {
    forall d | d in Top(r) ensures r[j].count <= d.count {
      var i :| 0 <= i < |Top(r)| && Top(r)[i] == d;
      assert r[i] == d;
    }
  }

  /** A location left off the chart is counted no more often than any location on it. */
  lemma ChartIsTop(locs: seq<Option<string>>, l: string)
    requires l in Normalized(locs)
    requires forall e :: e in ChartOf(locs) ==> e.location != l
    ensures forall e :: e in ChartOf(locs) ==> multiset(Normalized(locs))[l] <= e.count
  {
    var r := Ranked(locs);
    var j: nat :| j < |r| && r[j].location == l && r[j].count == multiset(Normalized(locs))[l] by {
      RankedFacts(locs);
      AllEntriesFacts(locs);
      var e :| e in AllEntries(locs) && e.location == l;
      assert e in r;
    }
    RankedOrder(locs);
    OffTopBelow(r, j);
  }

  /** Every application is counted somewhere, so there are entries exactly when there are
      applications. */
  lemma AllEntriesEmpty(locs: seq<Option<string>>)
    ensures AllEntries(locs) == [] <==> locs == []
  {
    if locs != [] {
      AllEntriesFacts(locs);
      var l := Normalized(locs)[0];
      assert l in Normalized(locs);
    }
  }

  /** So the chart is empty, and the empty state shown, exactly when there are no applications. */
  lemma ChartEmpty(locs: seq<Option<string>>)
    ensures ChartOf(locs) == [] <==> locs == []
  {
    assert |Ranked(locs)| == |AllEntries(locs)| by {
      RankedOrder(locs);
    }
    AllEntriesEmpty(locs);
  }

  /** The counts of the entries, added up. */
  function SumCounts(es: seq<LocationCount>): nat {
    if es == [] then 0 else es[0].count + SumCounts(es[1..])
  }

  /** The test every location passes, for summing all the counts. */
  function Always(l: string): bool {
    true
  }

  /** The sum of a concatenation is the sum of its parts. */
  lemma {:induction false} SumCountsAppend(a: seq<LocationCount>, b: seq<LocationCount>)
    ensures SumCounts(a + b) == SumCounts(a) + SumCounts(b)
  {
    if a != [] {
      assert (a + b)[1..] == a[1..] + b;
      SumCountsAppend(a[1..], b);
    } else {
      assert a + b == b;
    }
  }

  /** A sequence is its part before `i`, its `i`-th element and its part after. */
  lemma SplitAt<T>(b: seq<T>, i: nat)
    requires i < |b|
    ensures b == b[..i] + [b[i]] + b[i + 1..]
  {
  }

  /** Taking one entry out of a sequence takes its copy out of the multiset. */
  lemma MultisetRemove<T>(b: seq<T>, i: nat)
    requires i < |b|
    ensures multiset(b[..i] + b[i + 1..]) == multiset(b) - multiset{b[i]}
  {
    SplitAt(b, i);
    assert multiset(b) == multiset(b[..i]) + multiset{b[i]} + multiset(b[i + 1..]);
  }

  /** The sum of a sequence with one entry in the middle. */
  lemma SumCountsAround(front: seq<LocationCount>, e: LocationCount, back: seq<LocationCount>)
    ensures SumCounts(front + [e] + back) == SumCounts(front) + e.count + SumCounts(back)
  {
    SumCountsAppend(front + [e], back);
    SumCountsAppend(front, [e]);
  }

  /** Taking one entry out of a sequence takes its count out of the sum. */
  lemma SumCountsRemove(b: seq<LocationCount>, i: nat)
    requires i < |b|
    ensures SumCounts(b) == b[i].count + SumCounts(b[..i] + b[i + 1..])
  {
    SplitAt(b, i);
    SumCountsAround(b[..i], b[i], b[i + 1..]);
    SumCountsAppend(b[..i], b[i + 1..]);
  }

  /** Rearranging the entries does not change their sum. */
  lemma {:induction false} SumCountsPermutation(a: seq<LocationCount>, b: seq<LocationCount>)
    requires multiset(a) == multiset(b)
    decreases |a|
    ensures SumCounts(a) == SumCounts(b)
  {
    if a != [] {
      assert a[0] in multiset(b);
      var i :| 0 <= i < |b| && b[i] == a[0];
      assert a == [a[0]] + a[1..];
      assert multiset(a[1..]) == multiset(a) - multiset{a[0]};
      MultisetRemove(b, i);
      SumCountsPermutation(a[1..], b[..i] + b[i + 1..]);
      SumCountsRemove(b, i);
    } else {
      assert |b| == |multiset(b)|;
    }
  }

  lemma {:induction false} SumCountsOfEntries(keys: seq<string>, counts: map<string, nat>)
    requires forall k :: k in keys ==> k in counts
    ensures SumCounts(Entries(keys, counts)) == SumWhere(keys, counts, Always)
  {
    if keys != [] {
      SumCountsOfEntries(keys[1..], counts);
    }
  }

  /** Before the cut to ten, the counts add up to the number of applications. */
  lemma RankedSum(locs: seq<Option<string>>)
    ensures SumCounts(Ranked(locs)) == |locs|
  {
    var xs := Normalized(locs);
    var t := TallyOf(xs);
    TallyOfContents(xs);
    TallyOfSum(xs, Always);
    CountWhereAll(xs, Always);
    SumCountsOfEntries(t.keys, t.counts);
    RankedOrder(locs);
    SumCountsPermutation(Ranked(locs), AllEntries(locs));
  }

  /** Cutting to ten keeps at most the whole sum, and all of it when there are ten or fewer. */
  lemma TopSum(r: seq<LocationCount>)
    ensures SumCounts(Top(r)) <= SumCounts(r)
    ensures |r| <= TopLocations ==> SumCounts(Top(r)) == SumCounts(r)
  {
    if |r| > TopLocations {
      assert r == r[..TopLocations] + r[TopLocations..];
      SumCountsAppend(r[..TopLocations], r[TopLocations..]);
    }
  }

  /** The chart accounts for at most every application, and for all of them when it shows every
      location. */
  lemma ChartSum(locs: seq<Option<string>>)
    ensures SumCounts(ChartOf(locs)) <= |locs|
    ensures |AllEntries(locs)| <= TopLocations ==> SumCounts(ChartOf(locs)) == |locs|
  {
    RankedSum(locs);
    RankedOrder(locs);
    TopSum(Ranked(locs));
  }

  /** Among locations counted equally often, the chart keeps the order in which they first occur. */
  lemma RankedStable(locs: seq<Option<string>>, n: nat)
    ensures var k := -(n as int);
      Sorting.WithKey(Ranked(locs), ByCountDescending(), k) == Sorting.WithKey(AllEntries(locs), ByCountDescending(), k)
  {
    Sorting.SortByKeyStable(AllEntries(locs), ByCountDescending(), -(n as int));
  }
}
