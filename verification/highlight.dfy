/** The row colouring of the subscriptions list, a function of the subscription status. */
module Highlight {
  import opened Wrappers
  import opened Records

  /** Chakra background and text colour tokens; absent means no highlight. */
  datatype RowStyle = RowStyle(bg: Option<string>, color: Option<string>)

  const Warning := RowStyle(Some("yellow.100"), Some("yellow.600"))
  const Error := RowStyle(Some("red.100"), Some("red.500"))
  const Neutral := RowStyle(None, None)

  const WarningStatuses: set<Status> := {PastDue}
  const ErrorStatuses: set<Status> := {Canceled, Incomplete, IncompleteExpired, Unpaid}
  const NeutralStatuses: set<Status> := {Active, Trialing, Paused}

  /** `getRowHighlight`: yellow for past-due, red for the four failed or ended states,
      nothing otherwise. */
  function RowHighlight(status: Status): (r: RowStyle)
    ensures r == Warning <==> status in WarningStatuses
    ensures r == Error <==> status in ErrorStatuses
    ensures r == Neutral <==> status in NeutralStatuses
  {
    if status == PastDue then Warning
    else if status == Canceled || status == Incomplete || status == IncompleteExpired || status == Unpaid then Error
    else
      assert status.Active? || status.Trialing? || status.Paused?;
      Neutral
  }

  /** The three classes partition the statuses: each status is in exactly one of them. */
  lemma StatusClassesPartition(status: Status)
    ensures status in WarningStatuses + ErrorStatuses + NeutralStatuses
    ensures WarningStatuses !! ErrorStatuses && ErrorStatuses !! NeutralStatuses
    ensures WarningStatuses !! NeutralStatuses
  {
  }
}
