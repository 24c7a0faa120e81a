/** The "Edit Interval" dialog (src/components/edit-interval-dialog.tsx):
    the form starts from the site's interval, or 60 seconds; a value is
    accepted when it is at least 30 seconds; an accepted submit passes the
    site's id and the value to the page and asks for the dialog to close. */
module EditIntervalDialog {
  import opened Types

  /** The schema's lower bound, in seconds. */
  const MinInterval := 30

  /** The value the form shows when the site has no interval. */
  const DefaultInterval := 60

  /** The choices offered in the select box, in seconds. */
  const IntervalOptions: seq<int> := [30, 60, 300, 900, 1800]

  /** `z.coerce.number().min(30)` on an already numeric value. */
  predicate AcceptsInterval(v: int) {
    v >= MinInterval
  }

  /** `website?.interval` is truthy: there is a site, it has an interval,
      and the interval is not 0. */
  predicate HasInterval(website: Option<Website>) {
    website.Some? && website.value.interval.Some? && website.value.interval.value != 0
  }

  /** `website?.interval || 60`: the site's interval unless there is no site,
      no interval, or the interval is 0. */
  function InitialInterval(website: Option<Website>): (v: int)
    ensures v != 0
    ensures HasInterval(website) ==> v == website.value.interval.value
    ensures !HasInterval(website) ==> v == DefaultInterval
  {
    if HasInterval(website) then website.value.interval.value else DefaultInterval
  }

  /** The starting value passes the schema whenever the stored interval does
      (or there is none). */
  lemma InitialIntervalAccepted(website: Option<Website>)
    requires website.Some? && website.value.interval.Some? ==> AcceptsInterval(website.value.interval.value)
    ensures AcceptsInterval(InitialInterval(website))
  {
  }

  /** Every option in the select box passes the schema. */
  lemma OptionsAccepted()
    ensures forall i :: 0 <= i < |IntervalOptions| ==> AcceptsInterval(IntervalOptions[i])
  {
  }

  /** A call the dialog makes to its owner. */
  datatype Call = UpdateInterval(websiteId: string, interval: int) | OpenChange(open: bool)

  /** A submit of `value`. With no site the dialog renders nothing and there
      is nothing to submit; a value the schema refuses never reaches
      `onSubmit`. */
  function Submit(website: Option<Website>, value: int): (calls: seq<Call>)
    ensures calls != [] <==> website.Some? && AcceptsInterval(value)
    ensures calls != [] ==> calls == [UpdateInterval(website.value.id, value), OpenChange(false)]
    ensures forall i :: 0 <= i < |calls| && calls[i].UpdateInterval? ==> calls[i].interval >= MinInterval
  {
    match website
    case None => []
    case Some(w) =>
      if AcceptsInterval(value) then [UpdateInterval(w.id, value), OpenChange(false)] else []
  }
}
