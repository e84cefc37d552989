/** The CSV import dialog: the guess of which column holds which field, the reading of a status
    cell, the mapping of the parsed rows to applications, and the conditions of its preview and
    import buttons. A parsed row is a dictionary from column header to cell text. */
module CsvImport {
  import opened Wrappers
  import Text
  import Tallies
  import Seqs
  import opened Statuses

  /** The fields of an application that a column can be mapped to. */
  datatype Field = Title | Company | Location | SalaryMin | SalaryMax | Url | StatusField | DateApplied

  /** The fields in the order `guessMapping` tries them. */
  const FieldOrder: seq<Field> := [Title, Company, Location, SalaryMin, SalaryMax, Url, StatusField, DateApplied]

  /* ---------------------------------------------------------------- guessMapping */

  /** One alternative of an anchored header pattern: a whole word, or two words joined by
      `.?`, i.e. directly or with any one character that is not a line terminator between them. */
  datatype Pattern = Word(w: string) | Joined(a: string, b: string)

  predicate IsLineTerminator(c: char) {
    c == '\n' || c == '\r' || c == '\U{2028}' || c == '\U{2029}'
  }

  predicate PatternMatches(p: Pattern, h: string) {
    match p
    case Word(w) => h == w
    case Joined(a, b) =>
      || h == a + b
      || (|h| == |a| + 1 + |b| && h[..|a|] == a && h[|a| + 1..] == b && !IsLineTerminator(h[|a|]))
  }


  /** The alternatives of each field's pattern. */
  function PatternsOf(f: Field): seq<Pattern> {
    match f
    case Title => [Joined("job", "title"), Word("title"), Word("position"), Word("role")]
    case Company => [Word("company"), Word("employer"), Word("organization"), Word("org")]
    case Location => [Word("location"), Word("city"), Word("place")]
    case SalaryMin => [Joined("salary", "min"), Joined("min", "salary"), Joined("salary", "low")]
    case SalaryMax => [Joined("salary", "max"), Joined("max", "salary"), Joined("salary", "high")]
    case Url => [Word("url"), Word("link"), Joined("job", "url"), Joined("job", "link"), Word("posting")]
    case StatusField => [Word("status"), Word("stage"), Word("state")]
    case DateApplied => [Joined("date", "applied"), Joined("applied", "date"), Word("date"), Word("applied")]
  }

  /** One of the alternatives of the field's pattern from the `i`-th on accepts `h`. */
  predicate MatchesFrom(f: Field, i: nat, h: string)
    decreases |PatternsOf(f)| - i
  {
    i < |PatternsOf(f)| && (PatternMatches(PatternsOf(f)[i], h) || MatchesFrom(f, i + 1, h))
  }

  /** The field's pattern accepts `h`. */
  predicate FieldMatches(f: Field, h: string) {
    MatchesFrom(f, 0, h)
  }

  /** A header as the patterns see it: lower-cased, then trimmed. */
  function HeaderForm(h: string): string {
    Text.Trim(Text.Lower(h))
  }

  /** The field's pattern accepts the header. */
  predicate HeaderMatches(f: Field, h: string) {
    FieldMatches(f, HeaderForm(h))
  }

  /** `headers.map((h) => h.toLowerCase().trim())`. */
  function LowerAll(headers: seq<string>): (lower: seq<string>)
    ensures |lower| == |headers|
    ensures forall i :: 0 <= i < |headers| ==> lower[i] == HeaderForm(headers[i])
  {
    seq(|headers|, i requires 0 <= i < |headers| => HeaderForm(headers[i]))
  }

  /** `lower.findIndex(...)`: the position of the first header the field's pattern accepts, or
      -1. */
  function HeaderIndex(lower: seq<string>, f: Field): (r: int)
    ensures -1 <= r < |lower|
  {
    if lower == [] then -1
    else if FieldMatches(f, lower[0]) then 0
    else
      var r := HeaderIndex(lower[1..], f);
      if r == -1 then -1 else r + 1
  }

  /** The index is -1 exactly when no header matches, and otherwise the first header that does. */
  lemma {:induction false} HeaderIndexFacts(lower: seq<string>, f: Field)
    ensures HeaderIndex(lower, f) == -1 <==> forall i :: 0 <= i < |lower| ==> !FieldMatches(f, lower[i])
    ensures var r := HeaderIndex(lower, f);
      r != -1 ==> FieldMatches(f, lower[r]) && forall j :: 0 <= j < r ==> !FieldMatches(f, lower[j])
  {
    if lower != [] && !FieldMatches(f, lower[0]) {
      HeaderIndexFacts(lower[1..], f);
      assert forall i :: 0 < i < |lower| ==> lower[i] == lower[1..][i - 1];
    }
  }

  /** The mapping built by trying `fields` in order: each field that some header matches is set
      to the first such header. */
  function MappingOf(headers: seq<string>, lower: seq<string>, fields: seq<Field>): map<Field, string>
    requires |lower| == |headers|
  {
    if fields == [] then map[]
    else
      var m := MappingOf(headers, lower, fields[..|fields| - 1]);
      var f := fields[|fields| - 1];
      var idx := HeaderIndex(lower, f);
      if idx != -1 then m[f := headers[idx]] else m
  }

  /** The fields tried and matched are the fields mapped, each to its first matching header. */
  lemma {:induction false} MappingOfMembers(headers: seq<string>, lower: seq<string>, fields: seq<Field>)
    requires |lower| == |headers|
    ensures forall f :: f in MappingOf(headers, lower, fields) <==> f in fields && HeaderIndex(lower, f) != -1
    ensures forall f :: f in MappingOf(headers, lower, fields) ==>
      MappingOf(headers, lower, fields)[f] == headers[HeaderIndex(lower, f)]
  {
    if fields != [] {
      var init := fields[..|fields| - 1];
      MappingOfMembers(headers, lower, init);
      assert fields == init + [fields[|fields| - 1]];
    }
  }

  /** The mapping `guessMapping` returns. */
  function GuessedMapping(headers: seq<string>): map<Field, string> {
    MappingOf(headers, LowerAll(headers), FieldOrder)
  }

  /** The loop of `guessMapping` over the fields of its pattern table, in order. */
  method MapFields(headers: seq<string>, fields: seq<Field>) returns (mapping: map<Field, string>)
    ensures mapping == MappingOf(headers, LowerAll(headers), fields)
  {
    mapping := map[];
    var lower := LowerAll(headers);
    for k := 0 to |fields|
      invariant mapping == MappingOf(headers, lower, fields[..k])
    {
      var field := fields[k];
      assert fields[..k + 1][..k] == fields[..k];
      var idx := HeaderIndex(lower, field);
      if idx != -1 {
        mapping := mapping[field := headers[idx]];
      }
    }
    assert fields[..|fields|] == fields;
  }

  /** `guessMapping`: for each field in turn, look for the first matching header. */
  method GuessMapping(headers: seq<string>) returns (mapping: map<Field, string>)
    ensures mapping == GuessedMapping(headers)
  {
    mapping := MapFields(headers, FieldOrder);
  }

  /** Trying `fields` in order, a field among them is mapped exactly when some header matches it,
      and it is mapped to the first one. */
  lemma MappingMeaning(headers: seq<string>, fields: seq<Field>, f: Field)
    requires f in fields
    ensures var m := MappingOf(headers, LowerAll(headers), fields);
      && (f in m <==> exists i :: 0 <= i < |headers| && HeaderMatches(f, headers[i]))
      && (f in m ==>
            exists i :: (0 <= i < |headers| && m[f] == headers[i] && HeaderMatches(f, headers[i])
                         && forall j :: 0 <= j < i ==> !HeaderMatches(f, headers[j])))
  {
    var lower := LowerAll(headers);
    MappingOfMembers(headers, lower, fields);
    HeaderIndexFacts(lower, f);
  }

  /** A field is mapped exactly when some header matches it, and it is mapped to the first one. */
  lemma GuessedMappingMeaning(headers: seq<string>, f: Field)
    ensures f in GuessedMapping(headers) <==> exists i :: 0 <= i < |headers| && HeaderMatches(f, headers[i])
    ensures f in GuessedMapping(headers) ==>
      exists i :: (0 <= i < |headers| && GuessedMapping(headers)[f] == headers[i] && HeaderMatches(f, headers[i])
                   && forall j :: 0 <= j < i ==> !HeaderMatches(f, headers[j]))
  {
    assert f in FieldOrder;
    MappingMeaning(headers, FieldOrder, f);
  }

  /** Only a non-empty text matches alternatives that each begin with a word. */
  lemma {:induction false} MatchesFromNotEmpty(f: Field, i: nat, h: string)
    requires forall p :: p in PatternsOf(f) ==> (p.Word? && p.w != []) || (p.Joined? && p.a != [])
    requires MatchesFrom(f, i, h)
    decreases |PatternsOf(f)| - i
    ensures h != []
  {
    if !PatternMatches(PatternsOf(f)[i], h) {
      MatchesFromNotEmpty(f, i + 1, h);
    } else {
      assert PatternsOf(f)[i] in PatternsOf(f);
    }
  }

  /** Every alternative of every pattern begins with a word. */
  lemma PatternsNotEmpty(f: Field)
    ensures forall p :: p in PatternsOf(f) ==> (p.Word? && p.w != []) || (p.Joined? && p.a != [])
  {
  }

  /** A header that matches a field is not empty. */
  lemma MatchedNotEmpty(f: Field, h: string)
    requires HeaderMatches(f, h)
    ensures h != []
  {
    PatternsNotEmpty(f);
    var form := HeaderForm(h);
    MatchesFromNotEmpty(f, 0, form);
    Text.TrimShape(Text.Lower(h));
  }

  /** `canProceed`: the title and the company columns are both chosen. */
  predicate CanProceed(mapping: map<Field, string>) {
    && Title in mapping && mapping[Title] != ""
    && Company in mapping && mapping[Company] != ""
  }

  /** A guessed field is mapped to a header that is not empty. */
  lemma GuessedNotEmpty(headers: seq<string>, f: Field)
    ensures f in GuessedMapping(headers) <==> exists i :: 0 <= i < |headers| && HeaderMatches(f, headers[i])
    ensures f in GuessedMapping(headers) ==> GuessedMapping(headers)[f] != ""
  {
    GuessedMappingMeaning(headers, f);
    if f in GuessedMapping(headers) {
      var i :| (0 <= i < |headers| && GuessedMapping(headers)[f] == headers[i] && HeaderMatches(f, headers[i])
                && forall j :: 0 <= j < i ==> !HeaderMatches(f, headers[j]));
      MatchedNotEmpty(f, headers[i]);
    }
  }

  /** With the guessed mapping the preview is open exactly when some header reads as a title and
      some header reads as a company. */
  lemma GuessedCanProceed(headers: seq<string>)
    ensures CanProceed(GuessedMapping(headers)) <==>
      && (exists i :: 0 <= i < |headers| && HeaderMatches(Title, headers[i]))
      && (exists i :: 0 <= i < |headers| && HeaderMatches(Company, headers[i]))
  {
    GuessedNotEmpty(headers, Title);
    GuessedNotEmpty(headers, Company);
  }

  /* ---------------------------------------------------------------- normalizeStatus */

  /** `s` without its leading characters that satisfy `sep`. */
  function DropLeading(s: string, sep: char -> bool): (r: string)
    ensures |r| <= |s| && r == s[|s| - |r|..]
    ensures s != [] && sep(s[0]) ==> |r| < |s|
  {
    if s != [] && sep(s[0]) then DropLeading(s[1..], sep) else s
  }

  /** `s.replace(/[...]+/g, fill)`: every run of characters satisfying `sep` becomes one `fill`. */
  function CollapseRuns(s: string, sep: char -> bool, fill: char): (r: string)
    decreases |s|
  {
    if s == [] then []
    else if sep(s[0]) then [fill] + CollapseRuns(DropLeading(s, sep), sep, fill)
    else [s[0]] + CollapseRuns(s[1..], sep, fill)
  }

  /** No separator survives the replacement, and a text without separators is left as it is. */
  lemma {:induction false} CollapseRunsShape(s: string, sep: char -> bool, fill: char)
    requires !sep(fill)
    decreases |s|
    ensures forall i :: 0 <= i < |CollapseRuns(s, sep, fill)| ==> !sep(CollapseRuns(s, sep, fill)[i])
    ensures (forall i :: 0 <= i < |s| ==> !sep(s[i])) ==> CollapseRuns(s, sep, fill) == s
  {
    if s != [] {
      if sep(s[0]) {
        CollapseRunsShape(DropLeading(s, sep), sep, fill);
      } else {
        CollapseRunsShape(s[1..], sep, fill);
        assert s == [s[0]] + s[1..];
      }
    }
  }

  /** The characters of `/[\s-]+/`. */
  predicate IsSeparator(c: char) {
    Text.IsSpace(c) || c == '-'
  }

  /** `s.replace(/[\s-]+/g, "_")`. */
  function Underscored(s: string): string {
    CollapseRuns(s, IsSeparator, '_')
  }

  /** The dictionary `labelMap` after setting the upper-cased label of each status of `ss` in
      order: a later status with the same label overwrites an earlier one. */
  function LabelMapOf(ss: seq<Status>): map<string, Status> {
    if ss == [] then map[]
    else LabelMapOf(ss[..|ss| - 1])[Text.Upper(Label(ss[|ss| - 1])) := ss[|ss| - 1]]
  }

  /** The `labelMap` loop of `normalizeStatus`. */
  method BuildLabelMap() returns (labelMap: map<string, Status>)
    ensures labelMap == LabelMapOf(ApplicationStatuses)
  {
    labelMap := map[];
    for k := 0 to |ApplicationStatuses|
      invariant labelMap == LabelMapOf(ApplicationStatuses[..k])
    {
      var s := ApplicationStatuses[k];
      assert ApplicationStatuses[..k + 1][..k] == ApplicationStatuses[..k];
      labelMap := labelMap[Text.Upper(Label(s)) := s];
    }
    assert ApplicationStatuses[..|ApplicationStatuses|] == ApplicationStatuses;
  }

  /** The label map after one more status. */
  lemma LabelMapStep(ss: seq<Status>, k: nat)
    requires k < |ss|
    ensures LabelMapOf(ss[..k + 1]) == LabelMapOf(ss[..k])[Name(BoardStatus(ss[k])) := ss[k]]
  {
    assert ss[..k + 1][..k] == ss[..k];
    LabelIsBoardName(ss[k]);
  }

  /** The upper-cased label of a status is the name of its board column. */
  lemma LabelIsBoardName(s: Status)
    ensures Text.Upper(Label(s)) == Name(BoardStatus(s))
  {
    var u := Text.Upper(Label(s));
    var n := Name(BoardStatus(s));
    assert |u| == |n|;
    forall i | 0 <= i < |u| ensures u[i] == n[i] {
    }
  }

  /** The label map as a table: the status whose upper-cased label is `key`. */
  function LabelLookup(key: string): (r: Option<Status>)
    ensures r.Some? ==> r.value != Applied && key == Name(BoardStatus(r.value))
    ensures r.None? ==> forall s :: key != Name(BoardStatus(s))
  {
    if key == "SAVED" then Some(Saved)
    else if key == "APPLIED" then Some(UnderReview)
    else if key == "INTERVIEW" then Some(Interview)
    else if key == "OFFER" then Some(Offer)
    else if key == "REJECTED" then Some(Rejected)
    else None
  }

  /** The maps the loop builds, status by status. */
  lemma LabelMapSteps()
    ensures var ss := ApplicationStatuses;
      && LabelMapOf(ss) == LabelMapOf(ss[..5])["REJECTED" := Rejected]
      && LabelMapOf(ss[..5]) == LabelMapOf(ss[..4])["OFFER" := Offer]
      && LabelMapOf(ss[..4]) == LabelMapOf(ss[..3])["INTERVIEW" := Interview]
      && LabelMapOf(ss[..3]) == LabelMapOf(ss[..2])["APPLIED" := UnderReview]
      && LabelMapOf(ss[..2]) == LabelMapOf(ss[..1])["APPLIED" := Applied]
      && LabelMapOf(ss[..1]) == map["SAVED" := Saved]
  {
    var ss := ApplicationStatuses;
    assert ss[..0] == [];
    LabelMapStep(ss, 0);
    LabelMapStep(ss, 1);
    LabelMapStep(ss, 2);
    LabelMapStep(ss, 3);
    LabelMapStep(ss, 4);
    LabelMapStep(ss, 5);
    assert ss[..6] == ss;
  }

  /** The map the loop builds is the table: one entry per label, with "APPLIED" going to
      UNDER_REVIEW, the status listed after APPLIED, whose label overwrites it. */
  lemma LabelMapIsLookup(key: string)
    ensures key in LabelMapOf(ApplicationStatuses) <==> LabelLookup(key).Some?
    ensures key in LabelMapOf(ApplicationStatuses) ==> LabelMapOf(ApplicationStatuses)[key] == LabelLookup(key).value
  {
    LabelMapSteps();
    if key == "SAVED" {
    } else if key == "APPLIED" {
    } else if key == "INTERVIEW" {
    } else if key == "OFFER" {
    } else if key == "REJECTED" {
    } else {
    }
  }

  /** What `normalizeStatus` returns: nothing for a missing or empty cell; the status whose name
      is the upper-cased cell with its separator runs replaced, if there is one; otherwise the
      status whose label is the upper-cased, trimmed cell, if there is one. */
  function NormalizedStatus(raw: Option<string>): Option<Status> {
    if raw.None? || raw.value == "" then None
    else
      var named := FromName(Underscored(Text.Upper(raw.value)));
      if named.Some? then named else LabelLookup(Text.Trim(Text.Upper(raw.value)))
  }

  /** `normalizeStatus`, which builds its label map with a loop on every call. */
  method NormalizeStatus(raw: Option<string>) returns (r: Option<Status>)
    ensures r == NormalizedStatus(raw)
  {
    if raw.None? || raw.value == "" {
      return None;
    }
    var upper := Underscored(Text.Upper(raw.value));
    var named := FromName(upper);
    if named.Some? {
      return named;
    }
    var labelMap := BuildLabelMap();
    var key := Text.Trim(Text.Upper(raw.value));
    LabelMapIsLookup(key);
    r := if key in labelMap then Some(labelMap[key]) else None;
  }

  /** Capital letters and underscores, with no two underscores in a row and none at either end:
      the way the status names are written. */
  predicate NameLike(n: string) {
    && n != [] && n[0] != '_' && n[|n| - 1] != '_'
    && (forall i :: 0 <= i < |n| ==> 'A' <= n[i] <= 'Z' || n[i] == '_')
    && (forall i, j :: 0 <= i && j == i + 1 < |n| ==> !(n[i] == '_' && n[j] == '_'))
  }

  lemma NamesAreNameLike(s: Status)
    ensures NameLike(Name(s))
  {
  }

  /** `n` in lower case, with hyphens for underscores: "under-review" for UNDER_REVIEW. */
  function Hyphenated(n: string): (r: string)
    ensures |r| == |n|
    ensures forall i :: 0 <= i < |n| ==> r[i] == if n[i] == '_' then '-' else Text.LowerChar(n[i])
  {
    seq(|n|, i requires 0 <= i < |n| => if n[i] == '_' then '-' else Text.LowerChar(n[i]))
  }

  /** Upper-casing leaves separators alone. */
  lemma SeparatorUpper(c: char)
    requires IsSeparator(c)
    ensures Text.UpperChar(c) == c
  {
  }

  /** A capital letter or an underscore, hyphenated and upper-cased again, is a separator exactly
      when it was an underscore, and is otherwise itself. */
  lemma HyphenatedChar(c: char)
    requires 'A' <= c <= 'Z' || c == '_'
    ensures var u := Text.UpperChar(if c == '_' then '-' else Text.LowerChar(c));
      && (IsSeparator(u) <==> c == '_')
      && (c != '_' ==> u == c)
  {
  }

  /** A text that is its own upper case and holds no separator is left as it is. */
  lemma {:induction false} NameLikeUnchanged(n: string)
    requires NameLike(n)
    ensures Text.Upper(n) == n && Underscored(n) == n
  {
    forall i | 0 <= i < |n| ensures !IsSeparator(n[i]) && Text.UpperChar(n[i]) == n[i] {
      HyphenatedChar(n[i]);
    }
    assert !IsSeparator('_');
    CollapseRunsShape(n, IsSeparator, '_');
  }

  /** A separator that stands alone is replaced by one `fill`. */
  lemma {:induction false} CollapseSingle(s: string, sep: char -> bool, fill: char)
    requires forall i, j :: 0 <= i && j == i + 1 < |s| ==> !(sep(s[i]) && sep(s[j]))
    decreases |s|
    ensures |CollapseRuns(s, sep, fill)| == |s|
    ensures forall i :: 0 <= i < |s| ==> CollapseRuns(s, sep, fill)[i] == if sep(s[i]) then fill else s[i]
  {
    if s != [] {
      var rest := s[1..];
      assert forall i :: 0 <= i < |rest| ==> rest[i] == s[i + 1];
      if sep(s[0]) {
        assert rest == [] || !sep(rest[0]);
        assert DropLeading(rest, sep) == rest;
        assert DropLeading(s, sep) == rest;
      }
      CollapseSingle(rest, sep, fill);
    }
  }

  /** A leading separator becomes a leading `fill`. */
  lemma CollapseFirst(s: string, sep: char -> bool, fill: char)
    requires s != [] && sep(s[0])
    ensures CollapseRuns(s, sep, fill) != [] && CollapseRuns(s, sep, fill)[0] == fill
  {
  }

  /** The lower-case, hyphenated spelling of a name reads back as the name. */
  lemma HyphenatedUnderscored(n: string)
    requires NameLike(n)
    ensures Underscored(Text.Upper(Hyphenated(n))) == n
  {
    var h := Hyphenated(n);
    var u := Text.Upper(h);
    forall i | 0 <= i < |n| ensures (IsSeparator(u[i]) <==> n[i] == '_') && (n[i] != '_' ==> u[i] == n[i]) {
      assert u[i] == Text.UpperChar(h[i]);
      HyphenatedChar(n[i]);
    }
    CollapseSingle(u, IsSeparator, '_');
    var r := Underscored(u);
    assert |r| == |n|;
    forall i | 0 <= i < |n| ensures r[i] == n[i] {
    }
  }

  /** A status cell is read back from the status's name, whatever its case, and written with
      hyphens ("under-review"). */
  lemma NormalizedStatusOfName(s: Status)
    ensures NormalizedStatus(Some(Name(s))) == Some(s)
    ensures NormalizedStatus(Some(Text.Lower(Name(s)))) == Some(s)
    ensures NormalizedStatus(Some(Hyphenated(Name(s)))) == Some(s)
  {
    var n := Name(s);
    NamesAreNameLike(s);
    NameLikeUnchanged(n);
    assert Text.Upper(Text.Lower(n)) == n by {
      forall i | 0 <= i < |n| ensures Text.UpperChar(Text.LowerChar(n[i])) == n[i] {
        HyphenatedChar(n[i]);
      }
    }
    HyphenatedUnderscored(n);
  }

  /** A status cell holding a label is read back as the status's board column. */
  lemma NormalizedStatusOfLabel(s: Status)
    ensures NormalizedStatus(Some(Label(s))) == Some(BoardStatus(s))
  {
    LabelIsBoardName(s);
    NamesAreNameLike(BoardStatus(s));
    NameLikeUnchanged(Name(BoardStatus(s)));
  }

  /** No status name begins with an underscore. */
  lemma UnderscoreNotNamed(r: string)
    requires r != [] && r[0] == '_'
    ensures FromName(r).None?
  {
    if FromName(r).Some? {
      NamesAreNameLike(FromName(r).value);
    }
  }

  /** A cell that begins with a separator is never read by name. */
  lemma LeadingSeparatorNotNamed(raw: string)
    requires raw != [] && IsSeparator(raw[0])
    ensures FromName(Underscored(Text.Upper(raw))).None?
  {
    var u := Text.Upper(raw);
    SeparatorUpper(raw[0]);
    CollapseFirst(u, IsSeparator, '_');
    UnderscoreNotNamed(Underscored(u));
  }

  /** Padding a name with white space does not change its upper case. */
  lemma UpperPadded(pad: string, n: string, pad2: string)
    requires Text.AllSpace(pad) && Text.AllSpace(pad2) && NameLike(n)
    ensures Text.Upper(pad + n + pad2) == pad + n + pad2
  {
    NameLikeUnchanged(n);
    var cell := pad + n + pad2;
    forall i | 0 <= i < |cell| ensures Text.UpperChar(cell[i]) == cell[i] {
      if i < |pad| {
        SeparatorUpper(pad[i]);
      } else if i < |pad| + |n| {
        assert cell[i] == n[i - |pad|] && Text.Upper(n)[i - |pad|] == n[i - |pad|];
      } else {
        SeparatorUpper(pad2[i - |pad| - |n|]);
      }
    }
  }

  /** A cell not read by name is looked up as a label. */
  lemma ReadAsLabel(raw: string)
    requires raw != "" && FromName(Underscored(Text.Upper(raw))).None?
    ensures NormalizedStatus(Some(raw)) == LabelLookup(Text.Trim(Text.Upper(raw)))
  {
  }

  /** A text written like a status name, padded with white space, trims back to itself once
      upper-cased. */
  lemma TrimUpperPadded(pad: string, n: string, pad2: string)
    requires Text.AllSpace(pad) && Text.AllSpace(pad2) && NameLike(n)
    ensures Text.Trim(Text.Upper(pad + n + pad2)) == n
  {
    UpperPadded(pad, n, pad2);
    Text.TrimPadded(pad, n, pad2);
  }

  /** A text written like a status name, with white space before it, is not read by name but
      looked up as a label. */
  lemma PaddedNameLike(pad: string, n: string, pad2: string)
    requires pad != [] && Text.AllSpace(pad) && Text.AllSpace(pad2) && NameLike(n)
    ensures NormalizedStatus(Some(pad + n + pad2)) == LabelLookup(n)
  {
    var cell := pad + n + pad2;
    assert cell[0] == pad[0];
    LeadingSeparatorNotNamed(cell);
    ReadAsLabel(cell);
    TrimUpperPadded(pad, n, pad2);
  }

  /** A status name with white space before it is not read by name but looked up as a label. */
  lemma PaddedName(pad: string, s: Status, pad2: string)
    requires pad != [] && Text.AllSpace(pad) && Text.AllSpace(pad2)
    ensures NormalizedStatus(Some(pad + Name(s) + pad2)) == LabelLookup(Name(s))
  {
    NamesAreNameLike(s);
    PaddedNameLike(pad, Name(s), pad2);
  }

  /** So " APPLIED " becomes UNDER_REVIEW, and " UNDER_REVIEW " is not recognised. */
  lemma PaddedApplied(pad: string, pad2: string)
    requires pad != [] && Text.AllSpace(pad) && Text.AllSpace(pad2)
    ensures NormalizedStatus(Some(pad + Name(Applied) + pad2)) == Some(UnderReview)
    ensures NormalizedStatus(Some(pad + Name(UnderReview) + pad2)) == None
  {
    PaddedName(pad, Applied, pad2);
    PaddedName(pad, UnderReview, pad2);
  }

  /** A status is found only for a non-empty cell that reads as its name, or as the label the
      label map keeps for it; it is always one of the listed statuses. */
  lemma NormalizedStatusMeaning(raw: Option<string>, s: Status)
    requires NormalizedStatus(raw) == Some(s)
    ensures raw.Some? && raw.value != ""
    ensures s in ApplicationStatuses
    ensures || Underscored(Text.Upper(raw.value)) == Name(s)
            || (Text.Trim(Text.Upper(raw.value)) == Text.Upper(Label(s)) && s != Applied)
  {
    StatusesListed(s);
    LabelIsBoardName(s);
  }

  /* ---------------------------------------------------------------- getMapped */

  /** An imported application. The salary cells are kept as text: their conversion by `Number`
      is not part of this model. */
  datatype MappedRow = MappedRow(
    title: string,
    company: string,
    location: Option<string>,
    salaryMin: Option<string>,
    salaryMax: Option<string>,
    url: Option<string>,
    status: Option<Status>,
    dateApplied: Option<string>)

  /** `row[mapping.f]`: an unmapped field looks up the key "undefined". */
  function Cell(row: map<string, string>, mapping: map<Field, string>, f: Field): Option<string> {
    var key := if f in mapping then mapping[f] else "undefined";
    if key in row then Some(row[key]) else None
  }

  /** `cell?.trim() || undefined`. */
  function Trimmed(cell: Option<string>): (r: Option<string>)
    ensures r.Some? ==> r.value != "" && Text.Trim(r.value) == r.value
    ensures r.None? <==> cell.None? || Text.AllSpace(cell.value)
  {
    if cell.None? then None
    else
      Text.TrimShape(cell.value);
      Text.TrimIdempotent(cell.value);
      if Text.Trim(cell.value) != "" then Some(Text.Trim(cell.value)) else None
  }

  /** `mapping.f && row[mapping.f] ? ... : undefined` for a salary. */
  function SalaryCell(row: map<string, string>, mapping: map<Field, string>, f: Field): (r: Option<string>)
    ensures r.Some? ==> f in mapping && mapping[f] != "" && r == Cell(row, mapping, f) && r.value != ""
  {
    var cell := Cell(row, mapping, f);
    if f in mapping && mapping[f] != "" && cell.Some? && cell.value != "" then cell else None
  }

  /** One row of `getMapped`: skipped when the trimmed title or company is missing or empty. */
  function MapRow(row: map<string, string>, mapping: map<Field, string>): (r: Option<MappedRow>)
    ensures r.None? <==> Trimmed(Cell(row, mapping, Title)).None? || Trimmed(Cell(row, mapping, Company)).None?
    ensures r.Some? ==> r.value.title != "" && Text.Trim(r.value.title) == r.value.title
    ensures r.Some? ==> r.value.company != "" && Text.Trim(r.value.company) == r.value.company
    ensures r.Some? && r.value.location.Some? ==> r.value.location.value != ""
    ensures r.Some? && r.value.url.Some? ==> r.value.url.value != ""
    ensures r.Some? && r.value.dateApplied.Some? ==> r.value.dateApplied.value != ""
  {
    var title := Trimmed(Cell(row, mapping, Title));
    var company := Trimmed(Cell(row, mapping, Company));
    if title.None? || company.None? then None
    else
      Some(MappedRow(
        title.value,
        company.value,
        Trimmed(Cell(row, mapping, Location)),
        SalaryCell(row, mapping, SalaryMin),
        SalaryCell(row, mapping, SalaryMax),
        Trimmed(Cell(row, mapping, Url)),
        NormalizedStatus(Cell(row, mapping, StatusField)),
        Trimmed(Cell(row, mapping, DateApplied))))
  }

  function MapRowOf(mapping: map<Field, string>): map<string, string> -> Option<MappedRow> {
    (row: map<string, string>) => MapRow(row, mapping)
  }

  /** `getMapped`: the rows mapped, the skipped ones dropped, the others in order. */
  function GetMapped(rows: seq<map<string, string>>, mapping: map<Field, string>): (r: seq<MappedRow>)
    ensures |r| <= |rows|
  {
    Seqs.FilterMap(rows, MapRowOf(mapping))
  }

  /** The rows skipped for a missing title or company. */
  function SkippedBy(mapping: map<Field, string>): map<string, string> -> bool {
    Seqs.NoneOf(MapRowOf(mapping))
  }

  /** The mapped rows are exactly the mappings of the rows that map. */
  lemma GetMappedMembers(rows: seq<map<string, string>>, mapping: map<Field, string>)
    ensures forall m :: m in GetMapped(rows, mapping) <==> exists row :: row in rows && MapRow(row, mapping) == Some(m)
  {
    Seqs.FilterMapMembers(rows, MapRowOf(mapping));
  }

  /** One row is mapped for each row that is not skipped. */
  lemma GetMappedCount(rows: seq<map<string, string>>, mapping: map<Field, string>)
    ensures |GetMapped(rows, mapping)| == |rows| - Tallies.CountWhere(rows, SkippedBy(mapping))
  {
    Seqs.FilterMapCount(rows, MapRowOf(mapping));
  }

  /** The mapped rows keep the order of the rows: a single row gives its mapping or nothing, and
      the rows of a concatenation give the mapped rows of each part in turn. */
  lemma GetMappedOrder(a: seq<map<string, string>>, b: seq<map<string, string>>,
                       row: map<string, string>, mapping: map<Field, string>)
    ensures GetMapped([row], mapping) == (if MapRow(row, mapping).Some? then [MapRow(row, mapping).value] else [])
    ensures GetMapped(a + b, mapping) == GetMapped(a, mapping) + GetMapped(b, mapping)
  {
    Seqs.FilterMapAppend(a, b, MapRowOf(mapping));
    assert [row][1..] == [];
  }

  /* ---------------------------------------------------------------- preview */

  const PreviewRows: int := 50

  /** What the preview step shows: the number of rows ready to import, the number skipped (shown
      only when some were), the first 50 mapped rows, the count of the others (shown only when
      there are more than 50), and whether the import button is enabled. */
  datatype Preview = Preview(
    ready: int,
    skipped: Option<int>,
    shown: seq<MappedRow>,
    more: Option<int>,
    importEnabled: bool)

  /** The preview of `total` parsed rows of which `mapped` were mapped. */
  function PreviewFrom(total: nat, mapped: seq<MappedRow>, pending: bool): Preview {
    Preview(
      |mapped|,
      if total != |mapped| then Some(total - |mapped|) else None,
      if |mapped| <= PreviewRows then mapped else mapped[..PreviewRows],
      if |mapped| > PreviewRows then Some(|mapped| - PreviewRows) else None,
      !pending && |mapped| != 0)
  }

  function PreviewOf(rows: seq<map<string, string>>, mapping: map<Field, string>, pending: bool): Preview {
    PreviewFrom(|rows|, GetMapped(rows, mapping), pending)
  }

  /** The preview of rows of which `skipped` were skipped. */
  lemma PreviewShape(total: nat, mapped: seq<MappedRow>, skipped: nat, pending: bool)
    requires |mapped| == total - skipped
    ensures var p := PreviewFrom(total, mapped, pending);
      && |p.shown| <= PreviewRows
      && p.shown == mapped[..|p.shown|]
      && (p.skipped.Some? ==> p.skipped.value == skipped > 0)
      && (p.skipped.None? ==> skipped == 0)
      && |p.shown| + p.more.GetOr(0) + p.skipped.GetOr(0) == total
      && (p.importEnabled <==> !pending && skipped < total)
  {
  }

  /** The preview lists at most 50 rows, the first ones, and accounts for every row: the ones
      listed, the ones counted as more, and the ones skipped add up to the rows parsed. Import is
      possible exactly when nothing is pending and some row is not skipped. */
  lemma PreviewFacts(rows: seq<map<string, string>>, mapping: map<Field, string>, pending: bool)
    ensures var p := PreviewOf(rows, mapping, pending);
      && |p.shown| <= PreviewRows
      && p.shown == GetMapped(rows, mapping)[..|p.shown|]
      && (p.skipped.Some? ==> p.skipped.value == Tallies.CountWhere(rows, SkippedBy(mapping)) > 0)
      && (p.skipped.None? ==> Tallies.CountWhere(rows, SkippedBy(mapping)) == 0)
      && |p.shown| + p.more.GetOr(0) + p.skipped.GetOr(0) == |rows|
      && (p.importEnabled <==> !pending && Tallies.CountWhere(rows, SkippedBy(mapping)) < |rows|)
  {
    GetMappedCount(rows, mapping);
    PreviewShape(|rows|, GetMapped(rows, mapping), Tallies.CountWhere(rows, SkippedBy(mapping)), pending);
  }
}
