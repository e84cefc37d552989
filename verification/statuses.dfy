/** The application status enumeration of the client and its tables: the full list, the board
    columns, the board column of a status, and the display labels. */
module Statuses {
  import opened Wrappers

  datatype Status = Saved | Applied | UnderReview | Interview | Offer | Rejected

  /** The enumeration value as it is written in the tables and sent over the wire. */
  function Name(s: Status): string {
    match s
    case Saved => "SAVED"
    case Applied => "APPLIED"
    case UnderReview => "UNDER_REVIEW"
    case Interview => "INTERVIEW"
    case Offer => "OFFER"
    case Rejected => "REJECTED"
  }

  /** `APPLICATION_STATUSES`. */
  const ApplicationStatuses: seq<Status> := [Saved, Applied, UnderReview, Interview, Offer, Rejected]

  /** `BOARD_STATUSES`: the columns of the board. */
  const BoardStatuses: seq<Status> := [Saved, Applied, Interview, Offer, Rejected]

  /** `boardStatus`: the column a status is shown in. */
  function BoardStatus(s: Status): Status {
    if s == UnderReview then Applied else s
  }

  /** `STATUS_LABELS`. */
  function Label(s: Status): string {
    match s
    case Saved => "Saved"
    case Applied => "Applied"
    case UnderReview => "Applied"
    case Interview => "Interview"
    case Offer => "Offer"
    case Rejected => "Rejected"
  }

  /** The statuses of `ss` other than `x`, in their order. */
  function Without(ss: seq<Status>, x: Status): (r: seq<Status>)
    ensures forall s :: s in r <==> s in ss && s != x
    ensures |r| <= |ss|
  {
    if ss == [] then []
    else if ss[0] == x then Without(ss[1..], x)
    else [ss[0]] + Without(ss[1..], x)
  }

  /** The status whose `Name` is `name`, if any. */
  function FromName(name: string): (r: Option<Status>)
    ensures r.Some? ==> Name(r.value) == name
    ensures r.None? ==> forall s :: Name(s) != name
  {
    if name == "SAVED" then Some(Saved)
    else if name == "APPLIED" then Some(Applied)
    else if name == "UNDER_REVIEW" then Some(UnderReview)
    else if name == "INTERVIEW" then Some(Interview)
    else if name == "OFFER" then Some(Offer)
    else if name == "REJECTED" then Some(Rejected)
    else None
  }

  /** Every status is listed once, and distinct statuses have distinct names. */
  lemma StatusesListed(s: Status)
    ensures s in ApplicationStatuses
    ensures FromName(Name(s)) == Some(s)
  {
  }

  /** `boardStatus` moves UNDER_REVIEW into the Applied column, keeps every other status, always
      yields a board column, and is idempotent. */
  lemma BoardStatusColumn(s: Status)
    ensures BoardStatus(s) in BoardStatuses
    ensures BoardStatus(s) == s <==> s != UnderReview
    ensures s == UnderReview ==> BoardStatus(s) == Applied
    ensures BoardStatus(BoardStatus(s)) == BoardStatus(s)
  {
  }

  /** The board columns are the statuses with UNDER_REVIEW removed, in the same order. */
  lemma BoardIsApplicationWithoutUnderReview()
    ensures BoardStatuses == Without(ApplicationStatuses, UnderReview)
  {
  }

  /** A status shows the label of its board column. */
  lemma BoardStatusKeepsLabel(s: Status)
    ensures Label(BoardStatus(s)) == Label(s)
  {
  }

  /** APPLIED and UNDER_REVIEW are the only two statuses that share a label. */
  lemma SharedLabels(a: Status, b: Status)
    ensures a != b && Label(a) == Label(b) <==> {a, b} == {Applied, UnderReview}
  {
  }
}
