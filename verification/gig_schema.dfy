/** The enumerations and the `gigs` row shape of the backend schema, as far
    as the create-gig dialog, the billing view and the navigation use them. */
module GigSchema {
  import opened Wrappers
  import opened CivilTime

  datatype GigStatus = Draft | Scheduled | InProgress | Completed | Canceled

  datatype GigFrequency = Weekly | BiWeekly | Monthly

  datatype AppRole = Admin | Dj

  /** Row identifiers are assigned by the backend on insert. */
  type GigId = nat

  type UserId = string

  function FrequencyName(f: GigFrequency): string {
    match f
    case Weekly => "weekly"
    case BiWeekly => "bi-weekly"
    case Monthly => "monthly"
  }

  /** The frequency a form string names, if it names one. */
  function ParseFrequency(s: string): (r: Option<GigFrequency>)
    ensures r.Some? <==> (s == "weekly" || s == "bi-weekly" || s == "monthly")
    ensures r.Some? ==> FrequencyName(r.value) == s
  {
    if s == "weekly" then Some(Weekly)
    else if s == "bi-weekly" then Some(BiWeekly)
    else if s == "monthly" then Some(Monthly)
    else None
  }

  function RoleName(r: AppRole): string {
    match r
    case Admin => "admin"
    case Dj => "dj"
  }

  /** The columns the create-gig dialog writes into a `gigs` row. Columns it
      leaves out are null (or the backend default) in the stored row.
      `frequency` is the string the dialog sends; the column's enumeration
      type is checked by the backend. */
  datatype GigInsert = GigInsert(
    customerId: string,
    venueId: string,
    start: DateTime,
    end: DateTime,
    quotedAmount: int,
    status: GigStatus,
    isRecurring: bool,
    frequency: Option<string>,
    recurrenceCount: Option<int>,
    createdBy: Option<UserId>,
    parentGigId: Option<GigId>)
}
