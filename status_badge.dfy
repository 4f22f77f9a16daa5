/** The badge shown for a submission's review status, on the dashboard and on
    the submission detail page (both pages carry the same switch). */
module StatusBadges {
  import opened Wrappers

  datatype Badge = Approved | Rejected | NeedsRevision | Pending

  /** "approved", "rejected" and "revision" have their own badges; every
      other status, unknown strings included, shows Pending. */
  function BadgeFor(status: string): (b: Badge)
    ensures b == Approved <==> status == "approved"
    ensures b == Rejected <==> status == "rejected"
    ensures b == NeedsRevision <==> status == "revision"
    ensures b == Pending <==> status != "approved" && status != "rejected" && status != "revision"
  {
    if status == "approved" then Approved
    else if status == "rejected" then Rejected
    else if status == "revision" then NeedsRevision
    else Pending
  }

  /** The detail page shows a badge only for an entry that has a status. */
  function DetailBadge(status: Option<string>): (b: Option<Badge>)
    ensures b.Some? <==> status.Some?
    ensures status.Some? ==> b.value == BadgeFor(status.value)
  {
    if status.Some? then Some(BadgeFor(status.value)) else None
  }
}
