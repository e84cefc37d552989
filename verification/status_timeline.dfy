/** The status history of an application: each recorded change is listed with the labels of the
    old and new status and how long ago it happened, joined to the next change by a connector line;
    a missing or empty history shows "No status changes yet.". Times are milliseconds since the
    epoch; the current time is a parameter. */
module StatusTimeline {
  import opened Wrappers
  import JsNumbers
  import Tallies
  import opened Statuses

  /** A recorded change; `changedAtMs` is `None` when the timestamp does not parse as a date. */
  datatype StatusChange = StatusChange(id: string, fromStatus: string, toStatus: string, changedAtMs: Option<int>)

  /** What `timeAgo` shows: a relative phrase, or the calendar date of the change. */
  datatype Ago = JustNow | Minutes(minutes: nat) | Hours(hours: nat) | Days(days: nat) | CalendarDate

  const MsPerSecond: int := 1000
  const MsPerMinute: int := 60 * 1000
  const MsPerHour: int := 60 * 60 * 1000
  const MsPerDay: int := 24 * 60 * 60 * 1000

  /** `timeAgo`: whole seconds elapsed, then whole minutes, hours and days, each checked against
      the next unit. A date that does not parse gives no number, fails every comparison and ends at
      the calendar date. */
  function TimeAgo(changedAtMs: Option<int>, nowMs: int): Ago {
    if changedAtMs.None? then CalendarDate
    else
      var seconds := JsNumbers.FloorDiv(nowMs - changedAtMs.value, 1000);
      if seconds < 60 then JustNow
      else
        var minutes := JsNumbers.FloorDiv(seconds, 60);
        if minutes < 60 then Minutes(minutes)
        else
          var hours := JsNumbers.FloorDiv(minutes, 60);
          if hours < 24 then Hours(hours)
          else
            var days := JsNumbers.FloorDiv(hours, 24);
            if days < 30 then Days(days) else CalendarDate
  }

  /** Under a minute, future times included, is "just now". */
  lemma JustNowMeaning(changedAtMs: int, nowMs: int)
    ensures TimeAgo(Some(changedAtMs), nowMs) == JustNow <==> nowMs - changedAtMs < MsPerMinute
  {
  }

  /** `m` minutes ago is shown exactly when between `m` and `m + 1` whole minutes have passed, for
      `m` from 1 to 59. */
  lemma MinutesMeaning(changedAtMs: int, nowMs: int, m: nat)
    ensures TimeAgo(Some(changedAtMs), nowMs) == Minutes(m) <==>
      1 <= m < 60 && MsPerMinute * m <= nowMs - changedAtMs < MsPerMinute * (m + 1)
  {
  }

  /** `h` hours ago is shown exactly when between `h` and `h + 1` whole hours have passed, for `h`
      from 1 to 23. */
  lemma HoursMeaning(changedAtMs: int, nowMs: int, h: nat)
    ensures TimeAgo(Some(changedAtMs), nowMs) == Hours(h) <==>
      1 <= h < 24 && MsPerHour * h <= nowMs - changedAtMs < MsPerHour * (h + 1)
  {
  }

  /** `d` days ago is shown exactly when between `d` and `d + 1` whole days have passed, for `d`
      from 1 to 29. */
  lemma DaysMeaning(changedAtMs: int, nowMs: int, d: nat)
    ensures TimeAgo(Some(changedAtMs), nowMs) == Days(d) <==>
      1 <= d < 30 && MsPerDay * d <= nowMs - changedAtMs < MsPerDay * (d + 1)
  {
  }

  /** The calendar date is shown for a date that does not parse and from thirty days on. */
  lemma CalendarMeaning(changedAtMs: Option<int>, nowMs: int)
    ensures TimeAgo(changedAtMs, nowMs) == CalendarDate <==>
      changedAtMs.None? || nowMs - changedAtMs.value >= 30 * MsPerDay
  {
  }

  /** The unit of a phrase, from the finest to the calendar date. */
  function Scale(a: Ago): nat {
    match a
    case JustNow => 0
    case Minutes(_) => 1
    case Hours(_) => 2
    case Days(_) => 3
    case CalendarDate => 4
  }

  /** The number in a phrase, 0 when it has none. */
  function Amount(a: Ago): nat {
    match a
    case Minutes(m) => m
    case Hours(h) => h
    case Days(d) => d
    case _ => 0
  }

  /** `a` reads as no later than `b`: a finer unit, or the same unit and no larger number. */
  predicate NoOlder(a: Ago, b: Ago) {
    Scale(a) < Scale(b) || (Scale(a) == Scale(b) && Amount(a) <= Amount(b))
  }

  /** As the clock moves on, what a change shows never goes back to a more recent phrase. */
  lemma TimeAgoMonotone(changedAtMs: Option<int>, now1: int, now2: int)
    requires now1 <= now2
    ensures NoOlder(TimeAgo(changedAtMs, now1), TimeAgo(changedAtMs, now2))
  {
  }

  /** The text of a relative phrase; `None` for the calendar date, whose locale formatting is not
      part of this model. */
  function Phrase(a: Ago): (r: Option<string>)
    ensures r.None? <==> a.CalendarDate?
  {
    match a
    case JustNow => Some("just now")
    case Minutes(m) => Some(JsNumbers.IntToString(m) + "m ago")
    case Hours(h) => Some(JsNumbers.IntToString(h) + "h ago")
    case Days(d) => Some(JsNumbers.IntToString(d) + "d ago")
    case CalendarDate => None
  }

  /** The unit letter of a numbered phrase. */
  function UnitLetter(a: Ago): char {
    match a
    case Minutes(_) => 'm'
    case Hours(_) => 'h'
    case _ => 'd'
  }

  /** A numbered phrase is its number followed by the unit letter and " ago". */
  lemma NumberedPhrase(a: Ago)
    requires a.Minutes? || a.Hours? || a.Days?
    ensures Phrase(a) == Some(JsNumbers.IntToString(Amount(a)) + [UnitLetter(a)] + " ago")
  {
    var n := JsNumbers.IntToString(Amount(a));
    assert [UnitLetter(a)] + " ago" == if a.Minutes? then "m ago" else if a.Hours? then "h ago" else "d ago";
    assert n + [UnitLetter(a)] + " ago" == n + ([UnitLetter(a)] + " ago");
  }

  /** A numbered phrase ends in "ago", never "just now". */
  lemma NumberedNotJustNow(a: Ago)
    requires a.Minutes? || a.Hours? || a.Days?
    ensures Phrase(a) != Some("just now")
  {
    NumberedPhrase(a);
    var t := Phrase(a).value;
    assert t[|t| - 1] == 'o';
  }

  /** Different phrases read differently. */
  lemma PhraseInjective(a: Ago, b: Ago)
    requires Phrase(a).Some? && Phrase(a) == Phrase(b)
    ensures a == b
  {
    if !a.JustNow? {
      NumberedNotJustNow(a);
    }
    if !b.JustNow? {
      NumberedNotJustNow(b);
    }
    if !a.JustNow? && !b.JustNow? {
      NumberedPhrase(a);
      NumberedPhrase(b);
      var sa := JsNumbers.IntToString(Amount(a));
      var sb := JsNumbers.IntToString(Amount(b));
      var t := Phrase(a).value;
      assert |sa| == |t| - 5 == |sb|;
      assert t[|sa|] == UnitLetter(a) && t[|sb|] == UnitLetter(b);
      assert sa == t[..|sa|] == sb;
      JsNumbers.IntToStringInjective(Amount(a), Amount(b));
    }
  }

  /** `Array.isArray(statusChanges) ? statusChanges : []`: `None` is a value that is not an array. */
  function Safe(changes: Option<seq<StatusChange>>): seq<StatusChange> {
    if changes.Some? then changes.value else []
  }

  /** `STATUS_LABELS[x]`: the label of a status name, nothing for any other text. */
  function LabelOf(name: string): (r: Option<string>)
    ensures r.Some? <==> exists s :: Name(s) == name
    ensures forall s :: Name(s) == name ==> r == Some(Label(s))
  {
    var s := FromName(name);
    if s.Some? then Some(Label(s.value)) else None
  }

  /** One line of the history. */
  datatype Entry = Entry(id: string, fromLabel: Option<string>, toLabel: Option<string>, ago: Ago, connector: bool)

  datatype View = NoChanges | Changes(entries: seq<Entry>)

  /** The line of the `i`-th of `n` changes. */
  function EntryOf(c: StatusChange, i: nat, n: nat, nowMs: int): Entry {
    Entry(c.id, LabelOf(c.fromStatus), LabelOf(c.toStatus), TimeAgo(c.changedAtMs, nowMs), i < n - 1)
  }

  /** The component's rendering. */
  function Timeline(changes: Option<seq<StatusChange>>, nowMs: int): View {
    var safe := Safe(changes);
    if |safe| == 0 then NoChanges
    else Changes(seq(|safe|, i requires 0 <= i < |safe| => EntryOf(safe[i], i, |safe|, nowMs)))
  }

  /** The empty state is shown exactly when the history is missing, not a list, or empty. */
  lemma TimelineEmpty(changes: Option<seq<StatusChange>>, nowMs: int)
    ensures Timeline(changes, nowMs) == NoChanges <==> changes.None? || changes.value == []
  {
  }

  /** Otherwise every change is listed once, in order, with the labels of its statuses and its age. */
  lemma TimelineEntries(changes: seq<StatusChange>, nowMs: int, i: nat)
    requires changes != [] && i < |changes|
    ensures var v := Timeline(Some(changes), nowMs);
      && v.Changes? && |v.entries| == |changes|
      && v.entries[i].id == changes[i].id
      && v.entries[i].fromLabel == LabelOf(changes[i].fromStatus)
      && v.entries[i].toLabel == LabelOf(changes[i].toStatus)
      && v.entries[i].ago == TimeAgo(changes[i].changedAtMs, nowMs)
  {
  }

  function HasConnector(): Entry -> bool {
    (e: Entry) => e.connector
  }

  /** Lines in which every line but the last is joined to the next. */
  lemma {:induction false} ConnectorsButLast(es: seq<Entry>)
    requires es != []
    requires forall i :: 0 <= i < |es| ==> (es[i].connector <==> i < |es| - 1)
    ensures Tallies.CountWhere(es, HasConnector()) == |es| - 1
    ensures !es[|es| - 1].connector
  {
    var init := es[..|es| - 1];
    forall e | e in init ensures HasConnector()(e) {
      var j :| 0 <= j < |init| && init[j] == e;
      assert es[j] == e;
    }
    Tallies.CountWhereAll(init, HasConnector());
  }

  /** A connector is drawn under every change but the last: one fewer than the changes. */
  lemma TimelineConnectors(changes: seq<StatusChange>, nowMs: int)
    requires changes != []
    ensures var v := Timeline(Some(changes), nowMs);
      && v.Changes?
      && Tallies.CountWhere(v.entries, HasConnector()) == |changes| - 1
      && !v.entries[|changes| - 1].connector
      && (|changes| > 1 ==> v.entries[0].connector)
  {
    ConnectorsButLast(Timeline(Some(changes), nowMs).entries);
  }
}
