/** The `get_status_label` template filter. */
module FeedStatusTag {
  import opened Wrappers
  import opened Models

  /** The label of the status whose code is `value`, or "" for any other string. */
  function GetStatusLabel(value: string): (shown: string)
    ensures forall t: StatusType :: value == t.Code() ==> shown == t.Label()
    ensures (forall t: StatusType :: value != t.Code()) ==> shown == ""
  {
    match StatusTypeOf(value)
    case Some(t) => t.Label()
    case None => ""
  }

  /** The label is empty exactly when the code is unknown, and two known
      codes with the same label are the same code. */
  lemma GetStatusLabelKnown(v1: string, v2: string)
    ensures GetStatusLabel(v1) == "" <==> StatusTypeOf(v1).None?
    ensures GetStatusLabel(v1) != "" && GetStatusLabel(v1) == GetStatusLabel(v2) ==> v1 == v2
  {
    if StatusTypeOf(v1).Some? && StatusTypeOf(v2).Some? && StatusTypeOf(v1) != StatusTypeOf(v2) {
      LabelsDistinct(StatusTypeOf(v1).value, StatusTypeOf(v2).value);
    }
  }
}
