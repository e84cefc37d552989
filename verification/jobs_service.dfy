/** The job listing service: grouping the Simplify listings by company and title, the category,
    role and United States filters, the filter/sort/slice pipeline of `searchJobs`, the one-hour
    listings cache, and the page arithmetic of the Hiring.Cafe request. The wall clock and the
    outcome of the listings download are parameters. */
module JobListings {
  import opened Wrappers
  import opened Tallies
  import opened Seqs
  import Text
  import JsNumbers
  import Sorting

  /** A listing of the Simplify feed; `Option` fields are the ones the code reads with `??` or
      `?.`. */
  datatype JobListing = JobListing(
    id: string,
    companyName: Option<string>,
    companyUrl: string,
    title: Option<string>,
    url: string,
    locations: Option<seq<string>>,
    terms: Option<seq<string>>,
    datePosted: Option<int>,
    active: bool,
    isVisible: Option<bool>,
    category: Option<string>)

  /** A listing group as the service returns it. */
  datatype GroupedJob = GroupedJob(
    id: string,
    companyName: Option<string>,
    companyUrl: string,
    title: Option<string>,
    url: string,
    locations: seq<string>,
    datePosted: int,
    category: Option<string>)

  /* ------------------------------------------------------------ groupByCompanyAndTitle */

  /** `s.toLowerCase().trim()`. */
  function Normal(s: string): string {
    Text.Trim(Text.Lower(s))
  }

  /** The grouping key `${company}|${title}`, both lower-cased and trimmed. */
  function Key(l: JobListing): string {
    Normal(l.companyName.GetOr("")) + "|" + Normal(l.title.GetOr(""))
  }

  /** The key of every listing, in order. The grouping functions take the key function as a
      parameter; the service always passes `Key`. */
  function KeysOf(ls: seq<JobListing>, key: JobListing -> string): (r: seq<string>)
    ensures |r| == |ls| && forall i :: 0 <= i < |ls| ==> r[i] == key(ls[i])
  {
    if ls == [] then [] else KeysOf(ls[..|ls| - 1], key) + [key(ls[|ls| - 1])]
  }

  /** The bucket of key `k`: the listings with that key, in order. */
  function Bucket(ls: seq<JobListing>, key: JobListing -> string, k: string): (r: seq<JobListing>)
    ensures forall l :: l in r <==> l in ls && key(l) == k
  {
    if ls == [] then []
    else Bucket(ls[..|ls| - 1], key, k) + (if key(ls[|ls| - 1]) == k then [ls[|ls| - 1]] else [])
  }

  /** `group.flatMap((g) => g.locations ?? [])`. */
  function FlatLocations(group: seq<JobListing>): seq<string> {
    if group == [] then [] else group[0].locations.GetOr([]) + FlatLocations(group[1..])
  }

  /** The flattened list holds exactly the locations of the group's listings. */
  lemma {:induction false} FlatLocationsMembers(group: seq<JobListing>)
    ensures forall x :: x in FlatLocations(group) <==> exists g :: g in group && x in g.locations.GetOr([])
  {
    if group != [] {
      FlatLocationsMembers(group[1..]);
      assert forall g :: g in group[1..] ==> g in group;
      assert forall g :: g in group ==> g == group[0] || g in group[1..];
    }
  }

  /** `filter(Boolean)` on strings: the empty string is dropped. */
  function NonEmpty(xs: seq<string>): seq<string> {
    if xs == [] then []
    else (if xs[0] != "" then [xs[0]] else []) + NonEmpty(xs[1..])
  }

  /** `[...new Set(locations)].filter(Boolean).sort()`. */
  function GroupLocations(group: seq<JobListing>): seq<string> {
    Sorting.SortStrings(NonEmpty(FirstSeen(FlatLocations(group))))
  }

  function DateOf(l: JobListing): int {
    l.datePosted.GetOr(0)
  }

  function Dates(group: seq<JobListing>): seq<int> {
    seq(|group|, i requires 0 <= i < |group| => DateOf(group[i]))
  }

  /** One group: the fields of its first listing, the merged locations and the latest date. */
  function GroupOf(group: seq<JobListing>): GroupedJob
    requires group != []
  {
    var first := group[0];
    GroupedJob(first.id, first.companyName, first.companyUrl, first.title, first.url,
      GroupLocations(group), Max(Dates(group)), first.category)
  }

  /** The groups, one per distinct key, in the order in which the keys first occur. */
  function GroupsBy(ls: seq<JobListing>, key: JobListing -> string): (r: seq<GroupedJob>)
    ensures |r| == |FirstSeen(KeysOf(ls, key))|
  {
    var keys := FirstSeen(KeysOf(ls, key));
    seq(|keys|, t requires 0 <= t < |keys| =>
      FirstSeenWithin(KeysOf(ls, key), t);
      BucketNonEmpty(ls, key, keys[t]);
      GroupOf(Bucket(ls, key, keys[t])))
  }

  function Grouped(ls: seq<JobListing>): seq<GroupedJob> {
    GroupsBy(ls, Key)
  }

  lemma BucketNonEmpty(ls: seq<JobListing>, key: JobListing -> string, k: string)
    requires k in KeysOf(ls, key)
    ensures Bucket(ls, key, k) != []
  {
    var i :| 0 <= i < |ls| && KeysOf(ls, key)[i] == k;
    assert ls[i] in Bucket(ls, key, k);
  }

  lemma BucketEmpty(ls: seq<JobListing>, key: JobListing -> string, k: string)
    requires k !in KeysOf(ls, key)
    ensures Bucket(ls, key, k) == []
  {
    forall l | l in ls ensures key(l) != k {
      var i :| 0 <= i < |ls| && ls[i] == l;
      assert KeysOf(ls, key)[i] == key(l);
    }
  }

  lemma BucketSnoc(ls: seq<JobListing>, l: JobListing, key: JobListing -> string, k: string)
    ensures Bucket(ls + [l], key, k) == Bucket(ls, key, k) + (if key(l) == k then [l] else [])
    ensures KeysOf(ls + [l], key) == KeysOf(ls, key) + [key(l)]
  {
    assert (ls + [l])[..|ls|] == ls;
  }

  /** `groupByCompanyAndTitle`: the service groups by the company/title key. */
  method GroupByCompanyAndTitle(listings: seq<JobListing>) returns (result: seq<GroupedJob>)
    ensures result == Grouped(listings)
  {
    result := GroupBy(listings, Key);
  }

  /** The two loops of `groupByCompanyAndTitle` for a given key function: the listings are pushed
      into per-key buckets of a `Map`, whose keys iterate in insertion order, and each bucket
      becomes one group. */
  method GroupBy(listings: seq<JobListing>, key: JobListing -> string) returns (result: seq<GroupedJob>)
    ensures result == GroupsBy(listings, key)
  {
    var buckets, order := FillBuckets(listings, key);
    forall j | 0 <= j < |order| ensures order[j] in buckets && buckets[order[j]] != [] {
      GroupAt(listings, key, j);
    }
    result := GroupEach(buckets, order);
    forall j | 0 <= j < |order| ensures result[j] == GroupsBy(listings, key)[j] {
      GroupAt(listings, key, j);
    }
  }

  /** The second loop: one group per key of the `Map`, in its key order. */
  method GroupEach(buckets: map<string, seq<JobListing>>, order: seq<string>) returns (result: seq<GroupedJob>)
    requires forall j :: 0 <= j < |order| ==> order[j] in buckets && buckets[order[j]] != []
    ensures |result| == |order|
    ensures forall j :: 0 <= j < |order| ==> result[j] == GroupOf(buckets[order[j]])
  {
    result := [];
    for j := 0 to |order|
      invariant |result| == j
      invariant forall t :: 0 <= t < j ==> result[t] == GroupOf(buckets[order[t]])
    {
      var group := buckets[order[j]];
      result := result + [GroupOf(group)];
    }
  }

  /** The `j`-th key of the `Map` has a non-empty bucket, whose group is the `j`-th group. */
  lemma GroupAt(ls: seq<JobListing>, key: JobListing -> string, j: nat)
    requires j < |FirstSeen(KeysOf(ls, key))|
    ensures var k := FirstSeen(KeysOf(ls, key))[j];
      && k in BucketsOf(ls, key) && BucketsOf(ls, key)[k] != []
      && GroupsBy(ls, key)[j] == GroupOf(BucketsOf(ls, key)[k])
  {
    var k := FirstSeen(KeysOf(ls, key))[j];
    BucketsOfKeys(ls, key);
    BucketsOfContents(ls, key);
    FirstSeenFacts(KeysOf(ls, key));
    BucketNonEmpty(ls, key, k);
    assert k in BucketsOf(ls, key);
    assert BucketsOf(ls, key)[k] == Bucket(ls, key, k);
    assert GroupsBy(ls, key)[j] == GroupOf(Bucket(ls, key, k));
  }

  /** The first loop: `order` lists the `Map`'s keys in insertion order, and `buckets` is the
      `Map` after every listing has been pushed into its key's bucket. */
  method FillBuckets(listings: seq<JobListing>, key: JobListing -> string)
    returns (buckets: map<string, seq<JobListing>>, order: seq<string>)
    ensures order == FirstSeen(KeysOf(listings, key))
    ensures buckets == BucketsOf(listings, key)
  {
    buckets, order := map[], [];
    for i := 0 to |listings|
      invariant order == FirstSeen(KeysOf(listings[..i], key))
      invariant buckets == BucketsOf(listings[..i], key)
    {
      var l := listings[i];
      var k := key(l);
      assert listings[..i + 1] == listings[..i] + [l];
      FillStep(listings[..i], l, key);
      var existing := if k in buckets then buckets[k] else [];
      if k !in buckets {
        order := order + [k];
      }
      buckets := buckets[k := existing + [l]];
    }
    assert listings[..|listings|] == listings;
  }

  /** One more listing: its key joins the order if it is new, and the listing joins its bucket. */
  lemma FillStep(ls: seq<JobListing>, l: JobListing, key: JobListing -> string)
    ensures var m, k := BucketsOf(ls, key), key(l);
      && FirstSeen(KeysOf(ls + [l], key)) ==
           (if k in m then FirstSeen(KeysOf(ls, key)) else FirstSeen(KeysOf(ls, key)) + [k])
      && BucketsOf(ls + [l], key) == m[k := (if k in m then m[k] else []) + [l]]
  {
    BucketsOfSnoc(ls, l, key);
    assert KeysOf(ls + [l], key) == KeysOf(ls, key) + [key(l)] by {
      assert (ls + [l])[..|ls|] == ls;
    }
    FirstSeenSnoc(KeysOf(ls, key), key(l));
    BucketsOfKeys(ls, key);
  }

  /** The `Map` of buckets after pushing every listing of `ls`, left to right. */
  function BucketsOf(ls: seq<JobListing>, key: JobListing -> string): map<string, seq<JobListing>> {
    if ls == [] then map[]
    else
      var m, l := BucketsOf(ls[..|ls| - 1], key), ls[|ls| - 1];
      m[key(l) := (if key(l) in m then m[key(l)] else []) + [l]]
  }

  lemma BucketsOfSnoc(ls: seq<JobListing>, l: JobListing, key: JobListing -> string)
    ensures var m := BucketsOf(ls, key);
      BucketsOf(ls + [l], key) == m[key(l) := (if key(l) in m then m[key(l)] else []) + [l]]
  {
    assert (ls + [l])[..|ls|] == ls;
  }

  /** The `Map` has a bucket for exactly the keys that occur, which `FirstSeen` lists. */
  lemma BucketsOfKeys(ls: seq<JobListing>, key: JobListing -> string)
    ensures forall k :: k in BucketsOf(ls, key) <==> k in FirstSeen(KeysOf(ls, key))
  {
    FirstSeenFacts(KeysOf(ls, key));
    BucketsOfContents(ls, key);
  }

  /** Each bucket holds the listings with its key, in input order. */
  lemma {:induction false} BucketsOfContents(ls: seq<JobListing>, key: JobListing -> string)
    ensures forall k :: k in BucketsOf(ls, key) <==> k in KeysOf(ls, key)
    ensures forall k :: k in BucketsOf(ls, key) ==> BucketsOf(ls, key)[k] == Bucket(ls, key, k)
  {
    if ls != [] {
      var init, l := ls[..|ls| - 1], ls[|ls| - 1];
      assert ls == init + [l];
      BucketsOfContents(init, key);
      BucketSnoc(init, l, key, key(l));
      if key(l) !in BucketsOf(init, key) {
        BucketEmpty(init, key, key(l));
      }
      forall k | k in BucketsOf(ls, key) ensures BucketsOf(ls, key)[k] == Bucket(ls, key, k) {
        BucketSnoc(init, l, key, k);
      }
    }
  }

  /** The first member of a bucket is the first listing with that key. */
  lemma {:induction false} BucketHead(ls: seq<JobListing>, key: JobListing -> string, k: string)
    requires k in KeysOf(ls, key)
    ensures Bucket(ls, key, k) != [] && Bucket(ls, key, k)[0] == ls[FirstIndex(KeysOf(ls, key), k)]
  {
    var init, l := ls[..|ls| - 1], ls[|ls| - 1];
    assert ls == init + [l];
    BucketSnoc(init, l, key, k);
    if k in KeysOf(init, key) {
      BucketHead(init, key, k);
      FirstIndexOfPrefix(KeysOf(init, key), key(l), k);
    } else {
      BucketEmpty(init, key, k);
      FirstIndexOfAppended(KeysOf(init, key), k);
    }
  }

  /** Dropping the empty strings keeps every other element. */
  lemma {:induction false} NonEmptyMembers(xs: seq<string>)
    ensures forall x :: x in NonEmpty(xs) <==> x in xs && x != ""
  {
    if xs != [] {
      NonEmptyMembers(xs[1..]);
      assert xs == [xs[0]] + xs[1..];
    }
  }

  lemma {:induction false} NonEmptyDistinct(xs: seq<string>)
    requires NoDuplicates(xs)
    ensures NoDuplicates(NonEmpty(xs))
  {
    if xs != [] {
      NonEmptyDistinct(xs[1..]);
      NonEmptyMembers(xs[1..]);
      var rest := NonEmpty(xs[1..]);
      var r := NonEmpty(xs);
      if xs[0] != "" {
        assert xs[0] !in xs[1..];
        assert r == [xs[0]] + rest;
        forall i, j | 0 <= i < j < |r| ensures r[i] != r[j] {
          if i == 0 {
            assert r[j] == rest[j - 1] && rest[j - 1] in rest;
          } else {
            assert r[i] == rest[i - 1] && r[j] == rest[j - 1];
          }
        }
      }
    }
  }

  /** A group's locations are sorted, listed once each, never empty strings, and exactly the
      non-empty locations of its listings; its date is the latest of theirs, a missing date
      counting as 0. */
  lemma GroupOfFacts(group: seq<JobListing>)
    requires group != []
    ensures Sorting.SortedStrings(GroupOf(group).locations)
    ensures NoDuplicates(GroupOf(group).locations)
    ensures forall x :: x in GroupOf(group).locations <==> x != "" && exists g :: g in group && x in g.locations.GetOr([])
    ensures forall g :: g in group ==> DateOf(g) <= GroupOf(group).datePosted
    ensures exists g :: g in group && DateOf(g) == GroupOf(group).datePosted
  {
    var d := NonEmpty(FirstSeen(FlatLocations(group)));
    FirstSeenFacts(FlatLocations(group));
    FlatLocationsMembers(group);
    NonEmptyMembers(FirstSeen(FlatLocations(group)));
    NonEmptyDistinct(FirstSeen(FlatLocations(group)));
    Sorting.SortStringsSorted(d);
    var sorted := Sorting.SortStrings(d);
    DistinctPermutation(d, sorted);
    forall x ensures x in sorted <==> x in d {
      assert x in sorted <==> x in multiset(sorted);
      assert x in d <==> x in multiset(d);
    }
    var ds := Dates(group);
    forall g | g in group ensures DateOf(g) <= Max(ds) {
      var i :| 0 <= i < |group| && group[i] == g;
      assert ds[i] in ds;
    }
    var i :| 0 <= i < |ds| && ds[i] == Max(ds);
    assert group[i] in group;
  }

  /** One group per distinct key, in the order in which the keys first occur; each takes its id,
      company, title, url and category from the first listing with its key. */
  lemma GroupsByFacts(ls: seq<JobListing>, key: JobListing -> string)
    ensures NoDuplicates(FirstSeen(KeysOf(ls, key)))
    ensures forall k :: k in FirstSeen(KeysOf(ls, key)) <==> exists l :: l in ls && key(l) == k
    ensures FirstSeenOrder(FirstSeen(KeysOf(ls, key)), KeysOf(ls, key))
    ensures forall t :: 0 <= t < |GroupsBy(ls, key)| ==>
      var k := FirstSeen(KeysOf(ls, key))[t];
      k in KeysOf(ls, key) &&
      var first := ls[FirstIndex(KeysOf(ls, key), k)];
      && key(first) == k
      && GroupsBy(ls, key)[t] == GroupOf(Bucket(ls, key, k))
      && GroupsBy(ls, key)[t].id == first.id && GroupsBy(ls, key)[t].companyName == first.companyName
      && GroupsBy(ls, key)[t].companyUrl == first.companyUrl && GroupsBy(ls, key)[t].title == first.title
      && GroupsBy(ls, key)[t].url == first.url && GroupsBy(ls, key)[t].category == first.category
  {
    var keys := KeysOf(ls, key);
    FirstSeenFacts(keys);
    forall k ensures k in keys <==> exists l :: l in ls && key(l) == k {
      if k in keys {
        var i :| 0 <= i < |ls| && keys[i] == k;
        assert ls[i] in ls;
      }
      if exists l :: l in ls && key(l) == k {
        var l :| l in ls && key(l) == k;
        var i :| 0 <= i < |ls| && ls[i] == l;
        assert keys[i] == k;
      }
    }
    forall t | 0 <= t < |GroupsBy(ls, key)|
      ensures FirstSeen(keys)[t] in keys
      ensures Bucket(ls, key, FirstSeen(keys)[t])[0] == ls[FirstIndex(keys, FirstSeen(keys)[t])]
    {
      BucketHead(ls, key, FirstSeen(keys)[t]);
    }
  }

  /** Every group is made of listings of `ls`: its first listing is one of them, and its date is
      the date of one of them. */
  lemma GroupedFrom(ls: seq<JobListing>, g: GroupedJob)
    requires g in Grouped(ls)
    ensures exists l :: l in ls && l.id == g.id && l.companyName == g.companyName && l.title == g.title
                         && l.url == g.url && l.category == g.category
    ensures exists l :: l in ls && DateOf(l) == g.datePosted
  {
    GroupsByFacts(ls, Key);
    var t :| 0 <= t < |Grouped(ls)| && Grouped(ls)[t] == g;
    var k := FirstSeen(KeysOf(ls, Key))[t];
    var first := ls[FirstIndex(KeysOf(ls, Key), k)];
    assert first in ls;
    var b := Bucket(ls, Key, k);
    BucketNonEmpty(ls, Key, k);
    GroupOfFacts(b);
    var m :| m in b && DateOf(m) == g.datePosted;
    assert m in ls;
  }

  /* ------------------------------------------------------------------- matchers */

  /** The category strings `matchesCategory` recognises, lower-cased. */
  predicate KnownCategory(q: string) {
    || q == "software" || q == "software engineering"
    || q == "product" || q == "product management"
    || q == "ai" || q == "data" || Text.Contains(q, "data science") || Text.Contains(q, "ai/ml")
    || q == "quant" || Text.Contains(q, "quantitative")
    || q == "hardware"
  }

  lemma PrefixContained(s: string, p: string)
    ensures Text.StartsWith(s, p) ==> Text.Contains(s, p)
  {
    assert s[0..] == s;
  }

  /** `matchesCategory`: a listing matches a known category by keywords in its own category, and
      every listing matches a category that is not recognised. */
  function MatchesCategory(l: JobListing, category: string): (r: bool)
    ensures !KnownCategory(Text.Lower(category)) ==> r
    ensures Text.Lower(category) in {"software", "software engineering"} ==>
      (r <==> Text.Contains(Text.Lower(l.category.GetOr("")), "software"))
  {
    var cat := Text.Lower(l.category.GetOr(""));
    var q := Text.Lower(category);
    if q == "software" || q == "software engineering" then
      PrefixContained(cat, "software");
      Text.Contains(cat, "software") || cat == "software" || cat == "software engineering"
    else if q == "product" || q == "product management" then Text.Contains(cat, "product")
    else if q == "ai" || q == "data" || Text.Contains(q, "data science") || Text.Contains(q, "ai/ml") then
      Text.Contains(cat, "ai") || Text.Contains(cat, "data") || Text.Contains(cat, "ml") || Text.Contains(cat, "machine learning")
    else if q == "quant" || Text.Contains(q, "quantitative") then Text.Contains(cat, "quant")
    else if q == "hardware" then Text.Contains(cat, "hardware")
    else true
  }

  /** The role types `matchesRoleType` recognises, lower-cased. */
  predicate KnownRole(q: string) {
    q == "frontend" || q == "backend" || q == "fullstack" || q == "full stack" || q == "data"
  }

  /** `matchesRoleType`: a listing matches a known role by keywords in its title, and every
      listing matches a role that is not recognised. */
  function MatchesRoleType(l: JobListing, roleType: string): (r: bool)
    ensures !KnownRole(Text.Lower(roleType)) ==> r
  {
    var title := Text.Lower(l.title.GetOr(""));
    var q := Text.Lower(roleType);
    if q == "frontend" then
      || Text.Contains(title, "frontend") || Text.Contains(title, "front-end") || Text.Contains(title, "front end")
      || Text.Contains(title, "ui") || Text.Contains(title, "front end") || Text.Contains(title, "ui/ux")
      || Text.Contains(title, "react") || Text.Contains(title, "front-end engineer")
    else if q == "backend" then
      || Text.Contains(title, "backend") || Text.Contains(title, "back-end") || Text.Contains(title, "back end")
      || Text.Contains(title, "server") || Text.Contains(title, "api") || Text.Contains(title, "infrastructure")
      || Text.Contains(title, "platform") || Text.Contains(title, "systems engineer")
    else if q == "fullstack" || q == "full stack" then
      Text.Contains(title, "full stack") || Text.Contains(title, "fullstack") || Text.Contains(title, "full-stack")
    else if q == "data" then
      || Text.Contains(title, "data") || Text.Contains(title, "analytics") || Text.Contains(title, "machine learning")
      || Text.Contains(title, "ml") || Text.Contains(title, "ai") || Text.Contains(title, "research")
    else true
  }

  /* ------------------------------------------------------------ isUSLocation */

  /** A character of the regular-expression class `\w`. */
  predicate IsWordChar(c: char) {
    ('a' <= c <= 'z') || ('A' <= c <= 'Z') || ('0' <= c <= '9') || c == '_'
  }

  /** `\b` at position `i` of `s`: exactly one of the neighbours is a word character. */
  predicate Boundary(s: string, i: int) {
    0 <= i <= |s| && ((i > 0 && IsWordChar(s[i - 1])) != (i < |s| && IsWordChar(s[i])))
  }

  /** `w` occurs at position `i` of `s` as a whole word. */
  predicate WordAt(s: string, i: int, w: string) {
    0 <= i && i + |w| <= |s| && s[i..i + |w|] == w && Boundary(s, i) && Boundary(s, i + |w|)
  }

  predicate HasWord(s: string, w: string) {
    exists i :: 0 <= i <= |s| && WordAt(s, i, w)
  }

  const UsStateCodes: seq<string> := [
    "AK", "AL", "AR", "AZ", "CA", "CO", "CT", "DC", "DE", "FL", "GA", "HI", "IA", "ID", "IL", "IN",
    "KS", "KY", "LA", "MA", "MD", "ME", "MI", "MN", "MO", "MS", "MT", "NC", "ND", "NE", "NH", "NJ",
    "NM", "NV", "NY", "OH", "OK", "OR", "PA", "RI", "SC", "SD", "TN", "TX", "UT", "VA", "VT", "WA",
    "WI", "WV", "WY"]

  const NonUsPatterns: seq<string> := [
    "canada", "ontario", "toronto", "vancouver", "montreal", "calgary", "quebec",
    "british columbia", ", on", ", bc", ", ab", ", qc", ", ns", ", nb", ", mb", ", sk",
    "united kingdom", ", uk", "london", "manchester", "edinburgh", "birmingham", "cambridge, uk",
    "remote - canada", "remote - uk", "remote (canada)", "remote (uk)",
    "germany", "france", "netherlands", "australia", "india", "singapore"]

  /** `US_STATE_CODES.test(loc)`: a two-letter state code as a whole word, case-sensitive. */
  predicate HasStateCode(loc: string) {
    exists c :: c in UsStateCodes && HasWord(loc, c)
  }

  predicate HasNonUsPattern(lower: string) {
    exists p :: p in NonUsPatterns && Text.Contains(lower, p)
  }

  /** `/\b,?\s*us\b/` matching between positions `i` and `k + 2`: a word boundary, an optional
      comma, white space, then `us` followed by a word boundary. */
  predicate UsPatternAt(s: string, i: int, k: int) {
    && 0 <= i <= k && k + 2 <= |s|
    && Boundary(s, i)
    && (forall m :: i <= m < k ==> Text.IsSpace(s[m]) || (m == i && s[m] == ','))
    && s[k..k + 2] == "us"
    && Boundary(s, k + 2)
  }

  predicate UsPattern(s: string) {
    exists i, k :: 0 <= i <= k && k + 2 <= |s| && UsPatternAt(s, i, k)
  }

  /** The pattern `\b,?\s*us\b` matches exactly when `us` occurs as a whole word. */
  lemma UsPatternIsWord(s: string)
    ensures UsPattern(s) <==> HasWord(s, "us")
  {
    if UsPattern(s) {
      UsPatternWord(s);
    }
    if HasWord(s, "us") {
      var k :| 0 <= k <= |s| && WordAt(s, k, "us");
      assert UsPatternAt(s, k, k);
    }
  }

  /** A match of the pattern ends in the word `us`. */
  lemma UsPatternWord(s: string)
    requires UsPattern(s)
    ensures HasWord(s, "us")
  {
    var i, k :| 0 <= i <= k && k + 2 <= |s| && UsPatternAt(s, i, k);
    assert s[k..k + 2] == "us";
    assert s[k] == 'u';
    if k > i {
      assert Text.IsSpace(s[k - 1]) || s[k - 1] == ',';
    }
    assert Boundary(s, k);
    assert WordAt(s, k, "us");
  }

  /** `isUSLocation`: a non-US pattern anywhere in the lower-cased text rules the location out
      before any state code, country name or "remote" spelling can count it in. */
  function IsUSLocation(loc: string): (r: bool)
    ensures HasNonUsPattern(Text.Lower(loc)) ==> !r
    ensures !HasNonUsPattern(Text.Lower(loc)) && HasStateCode(loc) ==> r
  {
    var lower := Text.Lower(loc);
    if HasNonUsPattern(lower) then false
    else if HasStateCode(loc) then true
    else if Text.Contains(lower, "usa") || Text.Contains(lower, "united states") || Text.Contains(lower, "remote in usa") then true
    else if UsPattern(lower) then true
    else lower == "remote" || Text.Contains(lower, "remote - us") || Text.Contains(lower, "remote us")
  }

  /** `hasUSLocation`: true for a listing without locations, otherwise true when some location
      is classified as in the United States. */
  function HasUSLocation(locations: seq<string>): (r: bool)
    ensures locations == [] ==> r
    ensures r <==> locations == [] || exists loc :: loc in locations && IsUSLocation(loc)
  {
    locations == [] || Any(locations, IsUSLocation)
  }

  /** Without a non-US pattern, the word "us" on its own classifies a location as in the United
      States, whatever punctuation or spacing precedes it. */
  lemma UsWordCounts(loc: string)
    requires !HasNonUsPattern(Text.Lower(loc))
    requires HasWord(Text.Lower(loc), "us")
    ensures IsUSLocation(loc)
  {
    UsPatternIsWord(Text.Lower(loc));
  }

  /* ---------------------------------------------------------------- searchJobs */

  /** `listing.terms?.some((t) => t.includes("Summer 2026")) ?? false`. */
  predicate IsSummer2026(l: JobListing) {
    l.terms.Some? && Any(l.terms.value, (t: string) => Text.Contains(t, "Summer 2026"))
  }

  /** The first filter of `searchJobs`: active, not explicitly hidden, and offered for Summer 2026. */
  predicate Eligible(l: JobListing) {
    l.active && l.isVisible != Some(false) && IsSummer2026(l)
  }

  /** A string option that `if (s)` accepts: present and not empty. */
  predicate Truthy(o: Option<string>) {
    o.Some? && o.value != ""
  }

  /** The free-text filter; `q` is the lower-cased search text. */
  predicate MatchesSearch(l: JobListing, q: string) {
    || Text.Contains(Text.Lower(l.companyName.GetOr("")), q)
    || Text.Contains(Text.Lower(l.title.GetOr("")), q)
    || Any(l.locations.GetOr([]), (loc: string) => Text.Contains(Text.Lower(loc), q))
  }

  function ByCategory(category: string): JobListing -> bool {
    (l: JobListing) => MatchesCategory(l, category)
  }

  function ByRole(roleType: string): JobListing -> bool {
    (l: JobListing) => MatchesRoleType(l, roleType)
  }

  function BySearch(search: string): JobListing -> bool {
    (l: JobListing) => MatchesSearch(l, Text.Lower(search))
  }

  /** The `postedWithin` values; the service defaults to `TwoWeeks`. */
  datatype Window = Week | TwoWeeks | Month | AllTime

  function WindowDays(w: Window): int
    requires w != AllTime
  {
    match w
    case Week => 7
    case TwoWeeks => 14
    case Month => 30
  }

  const SecondsPerDay: int := 86400
  const DefaultLimit: int := 50

  /** The options of `searchJobs` for the Simplify source; `None` is an absent option. */
  datatype SearchOptions = SearchOptions(
    category: Option<string>,
    roleType: Option<string>,
    search: Option<string>,
    usOnly: bool,
    postedWithin: Option<Window>,
    limit: Option<int>,
    offset: Option<int>)

  datatype SearchResult = SearchResult(jobs: seq<GroupedJob>, total: int)

  /** What a listing must satisfy to reach the grouping step. */
  predicate Passes(l: JobListing, o: SearchOptions) {
    && Eligible(l)
    && (Truthy(o.category) ==> MatchesCategory(l, o.category.value))
    && (Truthy(o.roleType) ==> MatchesRoleType(l, o.roleType.value))
    && (Truthy(o.search) ==> MatchesSearch(l, Text.Lower(o.search.value)))
  }

  function PassesOf(o: SearchOptions): JobListing -> bool {
    (l: JobListing) => Passes(l, o)
  }

  /** The listing filters of `searchJobs`: the listings that pass all of them, in their order. */
  function FilterListings(all: seq<JobListing>, o: SearchOptions): seq<JobListing> {
    Filter(all, PassesOf(o))
  }

  /** The oldest `date_posted` the window admits at `now` (in seconds); `None` for "all". */
  function Cutoff(o: SearchOptions, now: int): Option<int> {
    var w := o.postedWithin.GetOr(TwoWeeks);
    if w == AllTime then None else Some(now - WindowDays(w) * SecondsPerDay)
  }

  function ByUsLocation(): GroupedJob -> bool {
    (g: GroupedJob) => HasUSLocation(g.locations)
  }

  function PostedSince(cutoff: int): GroupedJob -> bool {
    (g: GroupedJob) => g.datePosted >= cutoff
  }

  /** What a group must satisfy to be counted in `total`. */
  predicate Kept(g: GroupedJob, o: SearchOptions, now: int) {
    && (o.usOnly ==> HasUSLocation(g.locations))
    && (Cutoff(o, now).Some? ==> g.datePosted >= Cutoff(o, now).value)
  }

  function KeptOf(o: SearchOptions, now: int): GroupedJob -> bool {
    (g: GroupedJob) => Kept(g, o, now)
  }

  /** Each group is posted no earlier than the groups after it. */
  predicate NewestOrder(s: seq<GroupedJob>) {
    forall i, j :: 0 <= i < j < |s| ==> s[i].datePosted >= s[j].datePosted
  }

  /** The sort key of `(a, b) => b.date_posted - a.date_posted`: newest first. */
  function NewestFirst(g: GroupedJob): int {
    -g.datePosted
  }

  /** The group filters and the sort of `searchJobs`: the groups that are kept, newest first. */
  function RankGroups(grouped: seq<GroupedJob>, o: SearchOptions, now: int): seq<GroupedJob> {
    Sorting.SortByKey(Filter(grouped, KeptOf(o, now)), NewestFirst)
  }

  /** The groups of the listings that pass the filters, kept by the group filters, newest first. */
  function Ranked(all: seq<JobListing>, o: SearchOptions, now: int): seq<GroupedJob> {
    RankGroups(Grouped(FilterListings(all, o)), o, now)
  }

  /** The page of `searchJobs` out of the ranked groups: `total` counts them and `jobs` is the
      slice from `offset` of length `limit`, with the defaults 0 and 50. */
  function Page(ranked: seq<GroupedJob>, o: SearchOptions): SearchResult {
    var offset := o.offset.GetOr(0);
    SearchResult(Slice(ranked, offset, offset + o.limit.GetOr(DefaultLimit)), |ranked|)
  }

  /** What `searchJobs` returns for the Simplify source. */
  function Search(all: seq<JobListing>, o: SearchOptions, now: int): SearchResult {
    Page(Ranked(all, o, now), o)
  }

  /** `searchJobs` for the Simplify source: the filters reassign `filtered`, the grouped list is
      filtered again, sorted in place and sliced. `now` is `Math.floor(Date.now() / 1000)`. */
  method SearchJobs(all: seq<JobListing>, o: SearchOptions, now: int) returns (r: SearchResult)
    ensures r == Search(all, o, now)
  {
    var grouped := RankJobs(all, o, now);
    var total := |grouped|;
    var offset := o.offset.GetOr(0);
    var limit := o.limit.GetOr(DefaultLimit);
    r := SearchResult(Slice(grouped, offset, offset + limit), total);
  }

  /** The part of `searchJobs` before the slice: filter the listings, group them, filter and sort
      the groups. */
  method RankJobs(all: seq<JobListing>, o: SearchOptions, now: int) returns (grouped: seq<GroupedJob>)
    ensures grouped == Ranked(all, o, now)
  {
    var filtered := FilterSteps(all, o);
    grouped := GroupByCompanyAndTitle(filtered);
    grouped := FilterAndSort(grouped, o, now);
  }

  /** The listing filters of `searchJobs`, each reassigning `filtered`. Every step keeps the
      listings of `all` that pass the filters applied so far (`passed`). */
  method FilterSteps(all: seq<JobListing>, o: SearchOptions) returns (filtered: seq<JobListing>)
    ensures filtered == FilterListings(all, o)
  {
    filtered := Filter(all, Eligible);
    ghost var passed: JobListing -> bool := Eligible;
    if Truthy(o.category) {
      ghost var next := (l: JobListing) => passed(l) && MatchesCategory(l, o.category.value);
      FilterFuse(all, passed, ByCategory(o.category.value), next);
      filtered, passed := Filter(filtered, ByCategory(o.category.value)), next;
    }
    if Truthy(o.roleType) {
      ghost var next := (l: JobListing) => passed(l) && MatchesRoleType(l, o.roleType.value);
      FilterFuse(all, passed, ByRole(o.roleType.value), next);
      filtered, passed := Filter(filtered, ByRole(o.roleType.value)), next;
    }
    if Truthy(o.search) {
      ghost var next := (l: JobListing) => passed(l) && MatchesSearch(l, Text.Lower(o.search.value));
      FilterFuse(all, passed, BySearch(o.search.value), next);
      filtered, passed := Filter(filtered, BySearch(o.search.value)), next;
    }
    assert forall l :: passed(l) == PassesOf(o)(l);
    FilterSame(all, passed, PassesOf(o));
  }

  /** The group filters of `searchJobs` and its in-place sort. */
  method FilterAndSort(groups: seq<GroupedJob>, o: SearchOptions, now: int) returns (grouped: seq<GroupedJob>)
    ensures grouped == RankGroups(groups, o, now)
  {
    grouped := groups;
    ghost var kept: GroupedJob -> bool := (g: GroupedJob) => true;
    FilterAllPass(groups, kept);
    if o.usOnly {
      ghost var next := (g: GroupedJob) => kept(g) && HasUSLocation(g.locations);
      FilterFuse(groups, kept, ByUsLocation(), next);
      grouped, kept := Filter(grouped, ByUsLocation()), next;
    }
    var window := o.postedWithin.GetOr(TwoWeeks);
    if window != AllTime {
      var cutoff := now - WindowDays(window) * SecondsPerDay;
      ghost var next := (g: GroupedJob) => kept(g) && g.datePosted >= cutoff;
      FilterFuse(groups, kept, PostedSince(cutoff), next);
      grouped, kept := Filter(grouped, PostedSince(cutoff)), next;
    }
    assert forall g :: kept(g) == KeptOf(o, now)(g);
    FilterSame(groups, kept, KeptOf(o, now));
    grouped := Sorting.SortByKey(grouped, NewestFirst);
  }

  /** A listing reaches the grouping step exactly when it is one of `all` and passes every filter. */
  lemma FilterListingsMembers(all: seq<JobListing>, o: SearchOptions)
    ensures forall l :: l in FilterListings(all, o) <==> l in all && Passes(l, o)
  {
    FilterMembers(all, PassesOf(o));
  }

  /** The ranked groups are exactly the groups that the group filters keep, each as often as in
      `grouped`, ordered newest first. */
  lemma RankGroupsFacts(grouped: seq<GroupedJob>, o: SearchOptions, now: int)
    ensures forall g :: g in RankGroups(grouped, o, now) <==> g in grouped && Kept(g, o, now)
    ensures NewestOrder(RankGroups(grouped, o, now))
    ensures |RankGroups(grouped, o, now)| <= |grouped|
  {
    var kept := Filter(grouped, KeptOf(o, now));
    FilterMembers(grouped, KeptOf(o, now));
    Sorting.SortByKeySorted(kept, NewestFirst);
    var ranked := Sorting.SortByKey(kept, NewestFirst);
    forall g ensures g in ranked <==> g in kept {
      assert g in ranked <==> g in multiset(ranked);
      assert g in kept <==> g in multiset(kept);
    }
    forall i, j | 0 <= i < j < |ranked| ensures ranked[i].datePosted >= ranked[j].datePosted {
      assert NewestFirst(ranked[i]) <= NewestFirst(ranked[j]);
    }
  }

  /** A page is a contiguous run of the ranked groups, no longer than `limit` (when that is not
      negative) and no longer than `total`. */
  lemma PageFacts(ranked: seq<GroupedJob>, o: SearchOptions)
    ensures Page(ranked, o).total == |ranked|
    ensures |Page(ranked, o).jobs| <= |ranked|
    ensures o.limit.GetOr(DefaultLimit) >= 0 ==> |Page(ranked, o).jobs| <= o.limit.GetOr(DefaultLimit)
    ensures exists a, b :: 0 <= a <= b <= |ranked| && Page(ranked, o).jobs == ranked[a..b]
    ensures NewestOrder(ranked) ==> NewestOrder(Page(ranked, o).jobs)
  {
    var offset := o.offset.GetOr(0);
    SliceWithin(ranked, offset, offset + o.limit.GetOr(DefaultLimit));
    var jobs := Page(ranked, o).jobs;
    var a, b :| 0 <= a <= b <= |ranked| && jobs == ranked[a..b];
    NewestOrderSlice(ranked, a, b);
  }

  /** A run of groups newest first stays newest first. */
  lemma NewestOrderSlice(ranked: seq<GroupedJob>, a: nat, b: nat)
    requires a <= b <= |ranked|
    ensures NewestOrder(ranked) ==> NewestOrder(ranked[a..b])
  {
    if NewestOrder(ranked) {
      var jobs := ranked[a..b];
      forall i, j | 0 <= i < j < |jobs| ensures jobs[i].datePosted >= jobs[j].datePosted {
        assert jobs[i] == ranked[a + i] && jobs[j] == ranked[a + j];
      }
    }
  }

  /** The jobs `searchJobs` returns: at most `limit` and at most `total` of them, newest first. */
  lemma SearchShape(all: seq<JobListing>, o: SearchOptions, now: int)
    ensures var r := Search(all, o, now);
      && |r.jobs| <= r.total
      && (o.limit.GetOr(DefaultLimit) >= 0 ==> |r.jobs| <= o.limit.GetOr(DefaultLimit))
      && NewestOrder(r.jobs)
  {
    PageFacts(Ranked(all, o, now), o);
    RankGroupsFacts(Grouped(FilterListings(all, o)), o, now);
  }

  /** Each job `searchJobs` returns is a group the group filters keep, made from a listing that
      is active, visible, for Summer 2026 and passes every requested filter. */
  lemma SearchProvenance(all: seq<JobListing>, o: SearchOptions, now: int, g: GroupedJob)
    requires g in Search(all, o, now).jobs
    ensures Kept(g, o, now)
    ensures exists l :: (l in all && Passes(l, o) && l.id == g.id
                         && l.companyName == g.companyName && l.title == g.title && l.url == g.url)
  {
    var filtered := FilterListings(all, o);
    var ranked := Ranked(all, o, now);
    PageFacts(ranked, o);
    var a, b :| 0 <= a <= b <= |ranked| && Page(ranked, o).jobs == ranked[a..b];
    assert g in ranked;
    RankGroupsFacts(Grouped(filtered), o, now);
    GroupedFrom(filtered, g);
    FilterListingsMembers(all, o);
  }

  /** When a window is in force, every returned job was posted at or after `now` minus the
      window's days. */
  lemma SearchWithinWindow(all: seq<JobListing>, o: SearchOptions, now: int, g: GroupedJob)
    requires g in Search(all, o, now).jobs
    requires o.postedWithin.GetOr(TwoWeeks) != AllTime
    ensures g.datePosted >= now - WindowDays(o.postedWithin.GetOr(TwoWeeks)) * SecondsPerDay
  {
    SearchProvenance(all, o, now, g);
  }

  /* ---------------------------------------------------------------- fetchListings */

  const CacheTtlMs: int := 60 * 60 * 1000

  /** What the download of the listings file produced. */
  datatype FetchOutcome = NotOk(status: int) | NotArray | Listings(data: seq<JobListing>)

  /** The module-level cache `cachedListings`/`cacheTime`. */
  datatype CacheState = CacheState(cached: Option<seq<JobListing>>, cacheTime: int)

  predicate Fresh(s: CacheState, now: int) {
    s.cached.Some? && now - s.cacheTime < CacheTtlMs
  }

  /** One call of `fetchListings` at `now` (milliseconds): the cached listings while they are fresh,
      otherwise the downloaded ones, stored with the time `fetchedAt` read after the download; a
      failed download is an error and changes nothing. */
  function FetchStep(s: CacheState, now: int, outcome: FetchOutcome, fetchedAt: int)
    : (CacheState, Result<seq<JobListing>, string>)
  {
    if Fresh(s, now) then (s, Ok(s.cached.value))
    else
      match outcome
      case NotOk(status) => (s, Err("Failed to fetch listings: " + JsNumbers.IntToString(status)))
      case NotArray => (s, Err("Invalid listings format"))
      case Listings(data) => (CacheState(Some(data), fetchedAt), Ok(data))
  }

  class ListingsCache {
    var cached: Option<seq<JobListing>>
    var cacheTime: int

    constructor ()
      ensures cached == None && cacheTime == 0
    {
      cached := None;
      cacheTime := 0;
    }

    function State(): CacheState
      reads this
    {
      CacheState(cached, cacheTime)
    }

    /** `fetchListings`, with the clock readings and the download's outcome as parameters. */
    method FetchListings(now: int, outcome: FetchOutcome, fetchedAt: int)
      returns (r: Result<seq<JobListing>, string>)
      modifies this
      ensures (State(), r) == FetchStep(old(State()), now, outcome, fetchedAt)
    {
      if cached.Some? && now - cacheTime < CacheTtlMs {
        return Ok(cached.value);
      }
      match outcome {
        case NotOk(status) =>
          r := Err("Failed to fetch listings: " + JsNumbers.IntToString(status));
        case NotArray =>
          r := Err("Invalid listings format");
        case Listings(data) =>
          cached := Some(data);
          cacheTime := fetchedAt;
          r := Ok(data);
      }
    }
  }

  /** While the cache is fresh a call neither downloads nor changes it: the result is the cached
      listings whatever the download would have produced. */
  lemma CacheHit(s: CacheState, now: int, o1: FetchOutcome, o2: FetchOutcome, t1: int, t2: int)
    requires Fresh(s, now)
    ensures FetchStep(s, now, o1, t1) == FetchStep(s, now, o2, t2) == (s, Ok(s.cached.value))
  {
  }

  /** A stale cache downloads: the result is then decided by the download alone. */
  lemma CacheMiss(s: CacheState, now: int, outcome: FetchOutcome, t: int)
    requires !Fresh(s, now)
    ensures FetchStep(s, now, outcome, t).1.Ok? <==> outcome.Listings?
    ensures outcome.Listings? ==> FetchStep(s, now, outcome, t) == (CacheState(Some(outcome.data), t), Ok(outcome.data))
  {
  }

  /** A failed download leaves the cache as it was and reports an error. */
  lemma FailureKeepsCache(s: CacheState, now: int, outcome: FetchOutcome, t: int)
    requires !Fresh(s, now) && !outcome.Listings?
    ensures FetchStep(s, now, outcome, t).0 == s && FetchStep(s, now, outcome, t).1.Err?
  {
  }

  /** After a successful download at `t`, every call within the next hour is served from the cache
      with the same listings, whatever its own download would produce. */
  lemma FreshAfterDownload(s: CacheState, now: int, data: seq<JobListing>, t: int, later: int, o: FetchOutcome, t2: int)
    requires !Fresh(s, now)
    requires t <= later < t + CacheTtlMs
    ensures var s' := FetchStep(s, now, Listings(data), t).0;
      Fresh(s', later) && FetchStep(s', later, o, t2) == (s', Ok(data))
  {
  }

  /** The error of a download that did not succeed names its HTTP status. */
  lemma StatusInError(s: CacheState, now: int, status: int, t: int)
    requires !Fresh(s, now)
    ensures var e := FetchStep(s, now, NotOk(status), t).1;
      e.Err? && e.error == "Failed to fetch listings: " + JsNumbers.IntToString(status)
  {
  }

  /* ---------------------------------------------------------------- Hiring.Cafe paging */

  /** The `size` and `page` of the request body. */
  datatype CafePage = CafePage(size: int, page: int)

  /** `searchHiringCafeJobs` rounds the offset down to a page boundary and passes `page * limit`
      on; `searchHiringCafeAPI` divides again when `limit > 0` and asks for at most 50 results.
      A limit of 0 or below gives page 0 (the first division is then not a number, which the
      second one ignores). */
  function CafeRequest(limit: Option<int>, offset: Option<int>): (r: CafePage)
    ensures limit.GetOr(50) > 0 ==> r.size == (if limit.GetOr(50) < 50 then limit.GetOr(50) else 50)
    ensures limit.GetOr(50) <= 0 ==> r == CafePage(limit.GetOr(50), 0)
  {
    var lim := limit.GetOr(50);
    var off := offset.GetOr(0);
    var size := if lim < 50 then lim else 50;
    if lim > 0 then
      var page := JsNumbers.FloorDiv(off, lim);
      CafePage(size, JsNumbers.FloorDiv(page * lim, lim))
    else CafePage(size, 0)
  }

  /** With a positive limit the requested page is the one holding `offset`, and the page size is
      between 1 and 50. */
  lemma CafePageHoldsOffset(limit: Option<int>, offset: Option<int>)
    requires limit.GetOr(50) > 0
    ensures var r := CafeRequest(limit, offset);
      && 1 <= r.size <= 50
      && limit.GetOr(50) * r.page <= offset.GetOr(0) < limit.GetOr(50) * r.page + limit.GetOr(50)
  {
    var lim, off := limit.GetOr(50), offset.GetOr(0);
    var page := JsNumbers.FloorDiv(off, lim);
    FloorDivExact(page, lim);
  }

  lemma FloorDivExact(q: int, d: int)
    requires d > 0
    ensures JsNumbers.FloorDiv(q * d, d) == q
  {
    var r := JsNumbers.FloorDiv(q * d, d);
    if r < q {
      JsNumbers.MulLe(d, r + 1, q);
    }
    if r > q {
      JsNumbers.MulLe(d, q + 1, r);
    }
  }
}
