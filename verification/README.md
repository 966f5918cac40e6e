# Vibe Management: a verified model of the scheduling, billing and navigation logic

Vibe Management is a dashboard for a DJ agency. Administrators manage
customers, venues, gigs, DJs and billing. DJs see their own schedule and
payouts. Most of the application is forms and lists wired to a hosted
backend. This project models the few places where the client itself
decides something, and proves what those decisions guarantee:

- **Recurring gigs** (`CreateGigDialog`). Submitting the create-gig form
  inserts a draft *parent* gig. When the gig is recurring, the dialog then
  inserts `count - 1` *sibling* gigs as one batch. Each sibling is shifted
  from the parent's original start by `7·i` days, `14·i` days or `i`
  calendar months, keeps the parent's duration and points back at the
  parent.
  - Dates are a civil date-time (year, month, day, milliseconds of the day)
    with the day overflow of JavaScript `setDate`/`setMonth` written out
    (`CivilTime`).
  - The occurrence count goes through JavaScript `parseInt`, modelled in
    full (`NumberParsing`).
  - The backend table is a class whose inserts may fail (`CreateGig`).
- **Billing totals** (`BillingView`). Four folds over the fetched gig and
  assignment rows, each null amount counting 0. The stored totals change
  only when both queries succeed. A null or zero amount is shown as a dash.
- **Navigation** (`AppLayout`, `Dashboard`, `App`):
  - which sidebar entry is current (prefix matching on the location);
  - the avatar initials;
  - the role label and the role's sidebar entries;
  - how the user fields are loaded;
  - the landing page's role redirect and the route table it lands in.
- **Breadcrumbs**. Each item becomes a link, an emphasised span or a muted
  span, and a separator follows every item but the last.

Files, one module each: `wrappers.dfy`, `civil_time.dfy`,
`number_parsing.dfy`, `gig_schema.dfy`, `toast.dfy`, `recurrence.dfy`,
`create_gig.dfy`, `billing.dfy`, `layout.dfy`, `dashboard.dfy` and `breadcrumb.dfy`.

Two behaviours of the code are worth stating plainly, because the model
follows them:

- **Missing role.** A missing role row is treated exactly like the DJ
  role, and so is any role other than "admin". The redirect, the header
  label and the sidebar all do this.
- **Occurrence count.** The count field goes to `parseInt` as typed, so
  any string is accepted there.

## Model

| member | source | states |
|---|---|---|
| CivilTime.AddDays | src/components/gigs/CreateGigDialog.tsx:95-97 | `setDate(getDate() + n)` gives a valid date at the same time of day whose time value is exactly `n · 86 400 000` ms later |
| CivilTime.ShiftMonth | src/components/gigs/CreateGigDialog.tsx:99 | moving `n` months carries into the year so that `12·year + month` grows by exactly `n`, and the month stays in 1..12 |
| CivilTime.AddMonths | src/components/gigs/CreateGigDialog.tsx:99 | `setMonth(getMonth() + n)` keeps the day of the month when the target month has it; otherwise the excess days overflow into the following month; the time of day is kept |
| CivilTime.FromTimeValue | src/components/gigs/CreateGigDialog.tsx:102 | `new Date(t)` is a valid date-time whose time value is `t` |
| CivilTime.TimeValue | src/components/gigs/CreateGigDialog.tsx:88 | `getTime()`: milliseconds since 1970-01-01T00:00. Defined by its body; its meaning is stated by `TimeValueAnchors` (JavaScript's values at two instants), `TimeValueInjective`, `FromTimeValue` and `FromTimeValueRoundTrip` (the inverse `new Date(t)`) |
| CivilTime.NormalizeKeepsDay | src/components/gigs/CreateGigDialog.tsx:95-99 | rolling an out-of-range day into neighbouring months yields a valid date with the same day number and time of day |
| CivilTime.DayIndexInjective | src/components/gigs/CreateGigDialog.tsx:88 | two valid dates with the same day number are the same calendar day |
| CivilTime.TimeValueInjective | src/components/gigs/CreateGigDialog.tsx:88 | two valid date-times with the same `getTime()` are equal |
| CivilTime.TimeValueAnchors | src/components/gigs/CreateGigDialog.tsx:88 | the time value is 0 at 1970-01-01T00:00 and 1704067200000 at 2024-01-01T00:00, as JavaScript counts it |
| CivilTime.FromTimeValueRoundTrip | src/components/gigs/CreateGigDialog.tsx:92 | copying a date through its time value gives the same date back |
| CivilTime.AddDaysCompose | src/components/gigs/CreateGigDialog.tsx:95-97 | shifting by `a` days and then by `b` days equals shifting by `a + b` days |
| CivilTime.AddMonthsNotCumulative | src/components/gigs/CreateGigDialog.tsx:99 | month shifts do not compose: 2023-01-31 plus one month is 2023-03-03, plus one more is 2023-04-03, while plus two months is 2023-03-31 |
| NumberParsing.ParseInt | src/components/gigs/CreateGigDialog.tsx:85 | `parseInt(s)`: skip leading white space, read an optional sign and a `0x` prefix, then the longest digit run; none is NaN. Defined by its body; its meaning is stated by `ParseIntDecimal` (every integer's numeral reads back), `ParseIntNaN` (no digit gives NaN), `DigitRunIsLongest` and `TrimStartSkipsWhiteSpace` |
| NumberParsing.TrimStartSkipsWhiteSpace | src/components/gigs/CreateGigDialog.tsx:85 | `parseInt` skips exactly the leading white space: the rest is a suffix that does not start with white space |
| NumberParsing.DigitValue | src/components/gigs/CreateGigDialog.tsx:85 | a digit's value is below the radix, and in radix 10 a character has a value exactly when it is `0`..`9` |
| NumberParsing.DigitRunIsLongest | src/components/gigs/CreateGigDialog.tsx:85 | the digits read are the longest run of digits at the front |
| NumberParsing.NatDigitsValue | src/components/gigs/CreateGigDialog.tsx:85 | the value of the decimal numeral of `n` is `n` |
| NumberParsing.ParseIntDecimal | src/components/gigs/CreateGigDialog.tsx:85 | `parseInt` reads back the numeral of every integer, sign included, and stops at the first character that cannot continue it: not a digit, and not `x`/`X` after a lone "0", which would start a hexadecimal prefix (so "2.5" and "2x" give 2) |
| NumberParsing.ParseIntNaN | src/components/gigs/CreateGigDialog.tsx:85 | a string with no decimal digit in it (empty, "-", "abc") parses to NaN |
| GigSchema.ParseFrequency | src/integrations/supabase/types.ts:487 | a form string names a frequency exactly when it is "weekly", "bi-weekly" or "monthly", and then that frequency's name is the string |
| Recurrence.SiblingCount | src/components/gigs/CreateGigDialog.tsx:83-91 | the early return and the loop bound `i < count`, both directions: a positive number of siblings `n` only for a recurring gig whose count field parses to `n + 1`, and a recurring gig whose count field parses to any `m ≥ 2`, however spelled, gets `m - 1` siblings |
| Recurrence.SiblingStart | src/components/gigs/CreateGigDialog.tsx:92-100 | sibling `i` starts `7·i` days (weekly) or `14·i` days (bi-weekly) after the parent, or `i` months later (monthly): on the same day when the target month has it, otherwise the spare days carry into the following month (2024-01-31 plus one month is 2024-03-02); with any other frequency string it starts with the parent; always a valid date at the parent's time of day |
| Recurrence.SiblingRow | src/components/gigs/CreateGigDialog.tsx:102-113 | sibling `i` copies the customer, venue and quoted amount; it is a non-recurring draft with no frequency, count or creator; it points at the parent; it starts at `SiblingStart` and lasts exactly as long as the parent |
| Recurrence.Siblings | src/components/gigs/CreateGigDialog.tsx:90-114 | the series has `SiblingCount` rows: none when not recurring, when the count field is empty, or when it parses to NaN or to at most 1; otherwise `count - 1`. Row `k` is sibling `k + 1`, and each row satisfies the sibling invariant (parent's customer, venue and amount, a non-recurring draft pointing at the parent, the parent's duration) |
| Recurrence.ShiftStart | src/components/gigs/CreateGigDialog.tsx:92-100 | one loop step moves a fresh copy of the parent's start to exactly `SiblingStart` |
| Recurrence.SiblingsStep | src/components/gigs/CreateGigDialog.tsx:104-113 | the first `i` siblings are the first `i - 1` followed by sibling `i`, so pushing sibling `i` extends the series in order |
| Recurrence.NextSibling | src/components/gigs/CreateGigDialog.tsx:92-113 | one loop iteration (fresh shifted start, end one duration later, row literal) builds exactly sibling `i` |
| Recurrence.BuildSiblings | src/components/gigs/CreateGigDialog.tsx:83-114 | the loop builds exactly the series: `SiblingCount` rows, for i = 1, 2, … in order |
| Recurrence.SeriesSize | src/components/gigs/CreateGigDialog.tsx:91 | a recurring gig whose count field holds the numeral of `n` gets `n - 1` siblings when `n ≥ 2`, and none otherwise |
| Recurrence.CountSpellings | src/components/gigs/CreateGigDialog.tsx:85-91 | the count field is read as `parseInt` reads it: "03", " 3" and "3.5" each give 2 siblings, and "1e3" gives none |
| Recurrence.NoSeriesWithoutDigits | src/components/gigs/CreateGigDialog.tsx:83-91 | a count field with no digit gives no siblings |
| Recurrence.DayShiftsChain | src/components/gigs/CreateGigDialog.tsx:92-97 | for weekly and bi-weekly series, shifting each sibling from the parent equals shifting it from the previous sibling |
| Recurrence.MonthlyShiftsDoNotChain | src/components/gigs/CreateGigDialog.tsx:92-99 | for monthly series the two differ: from 2023-01-31 the second sibling is 2023-03-31, not a month after the first sibling (2023-03-03) |
| Recurrence.WeeklySeriesExample | src/components/gigs/CreateGigDialog.tsx:90-114 | weekly, count "3", 2024-01-01 20:00–23:00 gives exactly two siblings, 2024-01-08 and 2024-01-15, at 20:00–23:00 |
| Recurrence.MonthlySeriesExample | src/components/gigs/CreateGigDialog.tsx:98-102 | monthly, count "2", from 2024-01-31 20:00 gives one sibling, on 2024-03-02 at 20:00 |
| CreateGig.Lookup | src/components/gigs/CreateGigDialog.tsx:111 | an id is found exactly when some row carries it, and what is found is that row's content |
| CreateGig.LookupUnique | src/components/gigs/CreateGigDialog.tsx:111 | with strictly increasing ids, looking up a row's id finds that row |
| CreateGig.StampKeepsIdsFresh | src/components/gigs/CreateGigDialog.tsx:117 | appending a batch with consecutive new ids keeps every id unique and below the next id |
| CreateGig.GigsTable.Insert | src/components/gigs/CreateGigDialog.tsx:130-149 | a successful insert appends the row under a fresh id and returns the id; a failed insert changes nothing and returns the error |
| CreateGig.GigsTable.InsertBatch | src/components/gigs/CreateGigDialog.tsx:116-118 | a batch is stored whole, in order, under consecutive fresh ids, or not at all |
| CreateGig.ParentRow | src/components/gigs/CreateGigDialog.tsx:132-145 | the parent is a draft created by the user, with no parent of its own; it carries the frequency and the parsed count only when recurring (null otherwise) |
| CreateGig.SeriesIdsFresh | src/components/gigs/CreateGigDialog.tsx:130-153 | after a successful submit the ids in the table are still unique |
| CreateGig.SeriesPointsAtParent | src/components/gigs/CreateGigDialog.tsx:130-153 | after a successful submit the table grew by `1 + SiblingCount` rows; the parent's id finds the parent; every sibling names the parent's id and is found by its own id |
| CreateGig.CreateGigDialog.constructor | src/components/gigs/CreateGigDialog.tsx:33-47 | the dialog starts with the blank form and is not busy |
| CreateGig.CreateGigDialog.GenerateRecurringGigs | src/components/gigs/CreateGigDialog.tsx:82-120 | with no siblings, nothing is inserted and there is no error. Otherwise the siblings are appended as one batch, or, when the batch fails, nothing is stored and the error is returned |
| CreateGig.CreateGigDialog.InsertSeries | src/components/gigs/CreateGigDialog.tsx:130-153 | the parent is inserted first and the siblings only after it succeeds. A failed parent insert stores nothing and hands out no id. A failed batch leaves the parent stored. Otherwise the table ends with the parent followed by its siblings |
| CreateGig.CreateGigDialog.HandleSubmit | src/components/gigs/CreateGigDialog.tsx:122-184 | no user: "Not authenticated", nothing stored and no id used. Parent insert fails: error toast, nothing stored and no id used. Batch fails: the parent stays in the table (no rollback), error toast, the form is kept and the dialog stays open. Success: the parent then its siblings are stored, the "Gig created" toast shows, the form is blank and the dialog closed. The busy flag ends false in every case |
| Billing.OrZero | src/components/billing/BillingView.tsx:43-44 | `Number(x)` with a fallback to 0 on a nullable column: null counts 0. Defined by its body; `CellAgreesWithTotal` ties it to what the cell shows |
| Billing.Total | src/components/billing/BillingView.tsx:42-44 | `reduce((sum, x) => sum + f(x), 0)`, a left fold. Defined by its body; its meaning is stated by `TotalAppend` (additive over concatenation), `TotalPermutation` (order-independent) and `TotalNonNegative` |
| Billing.TotalOf | src/components/billing/BillingView.tsx:42-53 | `rows?.reduce(...)` with a fallback to 0: no data gives 0, otherwise the fold of the rows. Defined by its body; `Summarize`, `SummarizeOrderIndependent` and `SummarizeNonNegative` state its meaning per total |
| Billing.Summarize | src/components/billing/BillingView.tsx:42-53 | no rows, or no data, give 0 for every total |
| Billing.TotalAppend | src/components/billing/BillingView.tsx:42 | the fold of two batches of rows is the sum of their folds |
| Billing.TotalPermutation | src/components/billing/BillingView.tsx:42-44 | the fold does not depend on the order of the rows |
| Billing.TotalNonNegative | src/components/billing/BillingView.tsx:42-44 | with no negative term the fold is not negative |
| Billing.SummarizeOrderIndependent | src/components/billing/BillingView.tsx:42-53 | the same rows in any order give the same four totals |
| Billing.SummarizeNonNegative | src/components/billing/BillingView.tsx:42-53 | with non-negative amounts every total is non-negative |
| Billing.PendingPayoutsCountEveryRow | src/components/billing/BillingView.tsx:53 | every assignment row raises `pendingPayouts` by its payout, with no filter on gig or paid state |
| Billing.SummarizeExample | src/components/billing/BillingView.tsx:42-59 | gigs (100, null, 50) and (200, 200, 200) with payouts 75 and 25 give totals 300, 200, 250 and 100 |
| Billing.AmountCell | src/components/billing/BillingView.tsx:174-181 | a cell shows a dash exactly when the amount is null or 0, and otherwise shows the amount |
| Billing.CellAgreesWithTotal | src/components/billing/BillingView.tsx:174-181 | what a cell shows is what the total counts for that row: 0 for a dash, the amount otherwise |
| Billing.BillingView.constructor | src/components/billing/BillingView.tsx:19-26 | the view starts with zero totals and no rows |
| Billing.BillingView.LoadBillingData | src/components/billing/BillingView.tsx:32-71 | a failed gig query, or a failed assignment query after a good gig query, leaves totals and rows unchanged and shows the destructive "Error loading billing data" toast with the error's message. Otherwise the totals are `Summarize` of the rows, and both row lists are stored as fetched |
| Layout.IsCurrentPath | src/components/layouts/AppLayout.tsx:77-79 | an entry is current exactly when the location is its path, or its path followed by "/" and more |
| Layout.CurrentPathExamples | src/components/layouts/AppLayout.tsx:78 | "/dashboard/gigs/42" is current for "/dashboard/gigs"; "/dashboard/gigsx" and "/dashboard" are not |
| Layout.Split | src/components/layouts/AppLayout.tsx:89 | `split` on a character yields between 1 and `length + 1` pieces |
| Layout.JoinGlue | src/components/layouts/AppLayout.tsx:89 | gluing text onto the first piece glues it onto the joined string |
| Layout.JoinSplit | src/components/layouts/AppLayout.tsx:89 | joining the pieces with the separator gives back the string |
| Layout.SplitWord | src/components/layouts/AppLayout.tsx:89 | a word without the separator becomes the front of the first piece of what follows it |
| Layout.SplitJoin | src/components/layouts/AppLayout.tsx:89 | splitting separator-free words joined by the separator gives back the words |
| Layout.SplitPiecesLackSeparator | src/components/layouts/AppLayout.tsx:89 | no piece of a split contains the separator |
| Layout.FirstChars | src/components/layouts/AppLayout.tsx:89 | the first characters of the pieces number at most one per piece |
| Layout.FirstCharsLackSpace | src/components/layouts/AppLayout.tsx:89 | first characters of space-free pieces contain no space |
| Layout.Initials | src/components/layouts/AppLayout.tsx:165 | the initials are never longer than the name |
| Layout.InitialsNoLonger | src/components/layouts/AppLayout.tsx:89 | taking the first character of each piece of a split never gives more characters than the string has |
| Layout.InitialsLackSpace | src/components/layouts/AppLayout.tsx:89 | the initials never contain a space |
| Layout.InitialsOfWords | src/components/layouts/AppLayout.tsx:89 | the initials of space-joined words are the words' first characters; an empty word adds nothing |
| Layout.InitialsOfNothing | src/components/layouts/AppLayout.tsx:89 | an empty name has empty initials |
| Layout.InitialsExample | src/components/layouts/AppLayout.tsx:165 | "Ada  Lovelace" (two spaces) gives "AL" |
| Layout.RoleLabel | src/components/layouts/AppLayout.tsx:117 | the header reads "Admin Dashboard" exactly when the role string is "admin", and "DJ Dashboard" for every other string, the empty one included |
| Layout.Sidebar | src/components/layouts/AppLayout.tsx:124-158 | the admin role gets Customers, Venues, Gigs, DJs, Billing in that order; any other role gets My Schedule, My Payouts; each entry has its path and is current exactly when `IsCurrentPath` holds |
| Layout.SidebarPathsDiffer | src/components/layouts/AppLayout.tsx:124-158 | two entries of the same sidebar differ in the first character after "/dashboard/" |
| Layout.CurrentFixesChar | src/components/layouts/AppLayout.tsx:78 | a current entry's path is a prefix of the location |
| Layout.AtMostOneCurrent | src/components/layouts/AppLayout.tsx:124-158 | whatever the location, at most one sidebar entry is current |
| Layout.AppLayout.constructor | src/components/layouts/AppLayout.tsx:36-38 | name, email and role start empty |
| Layout.AppLayout.LoadUserData | src/components/layouts/AppLayout.tsx:41-64 | with no user nothing changes. Otherwise name and email are set only from a returned profile row, and the role only from a returned role row; without the row the old value stays |
| DashboardRedirect.RedirectBasedOnRole | src/pages/Dashboard.tsx:10-25 | no user: no navigation. The admin role goes to "/dashboard/customers"; any other role, or none, goes to "/dashboard/schedule"; both replace the history entry |
| DashboardRedirect.MatchRoute | src/App.tsx:25-34 | a path gets the not-found page exactly when no route names it, and otherwise gets a page that a route names for it |
| DashboardRedirect.DjPathsUnrouted | src/App.tsx:25-34 | no route names "/dashboard/schedule" or "/dashboard/payouts" |
| DashboardRedirect.RedirectTargets | src/pages/Dashboard.tsx:20-24 | the admin redirect lands on the customer list; every other redirect lands on the not-found page |
| DashboardRedirect.AdminSidebarTargets | src/App.tsx:28-32 | every admin sidebar entry has a page |
| DashboardRedirect.DjSidebarTargets | src/App.tsx:25-34 | neither DJ sidebar entry has a page: both show the not-found page |
| Breadcrumb.RenderItem | src/components/breadcrumb.tsx:19-43 | the text is unchanged. It is a link exactly when it has a non-empty href and is not last, and then links to that href. It is emphasised exactly when it is last. A separator follows exactly when it is not last |
| Breadcrumb.Render | src/components/breadcrumb.tsx:18-45 | one rendered item per input item, in input order, each knowing whether it is last |
| Breadcrumb.RenderPlan | src/components/breadcrumb.tsx:23-37 | item `k` keeps its text; it is a link exactly when it has an href and is not last; the last item is emphasised even with an href; any other item without an href is muted |
| Breadcrumb.SeparatorCount | src/components/breadcrumb.tsx:41-43 | there are never more separators than items; there are none exactly when no item has one, and one per item exactly when every item has one |
| Breadcrumb.SeparatorsAllButLast | src/components/breadcrumb.tsx:41-43 | when every item but the last has a separator, there are `n - 1` separators |
| Breadcrumb.SeparatorsBetween | src/components/breadcrumb.tsx:41-43 | `n ≥ 1` items give `n - 1` separators; no items give none |

## Left out

- Backend calls are not modelled. Supabase authentication, queries and
  inserts become parameters:
  - the signed-in user is `Option<UserId>`;
  - a query result is `data` or `error`;
  - a failing insert is a `fault` argument.
  The reasons the backend might reject a row are not modelled. For example,
  a recurring gig whose frequency was left unselected sends "" to the enum
  column.
- Row ids are UUIDs in the backend. The model hands out consecutive
  numbers, because only their uniqueness matters here.
- Toasts are returned as values. `window.location.reload()` and
  `onOpenChange` are not modelled, apart from the `open` flag.
- Time zones are not modelled: local time is taken to be UTC.
  - Daylight-saving shifts, which can move `setDate`/`setMonth` results by
    an hour, are not modelled.
  - The parent row is sent the raw `datetime-local` string while siblings
    are sent `toISOString()`. These agree only under that assumption.
  - Parsing of the `datetime-local` text is not modelled. The form holds
    parsed date-times.
- The range limits of JavaScript `Date` (±8.64·10^15 ms) are not modelled.
- `parseInt` is exact. Its float rounding for numerals above 2^53 is not
  modelled.
- `parseFloat` and floating-point arithmetic are not modelled. The quoted
  amount is integer cents, already parsed, so float rounding in the totals
  and the `toFixed(2)` display are out too.
- `Number(x) || 0` on a column that is never null, such as `quoted_amount`
  or `total_payout`, is the value itself. Those columns are plain `int`.
- The form's `required` and `min="2"` checks are partly modelled.
  `Submittable` keeps the required start, end and amount. The count field
  is modelled for any string, which covers everything those checks let
  through.
- Layout.FirstChars: a name is read as Unicode code points, while `n[0]`
  in JavaScript takes the first UTF-16 code unit. For a word starting with
  a character outside the Basic Multilingual Plane (an emoji, say) the
  source's initials hold half a surrogate pair where the model holds the
  whole character. `Initials`, `InitialsOfWords` and `InitialsExample`
  inherit this.
- Route matching is exact. The router's case-insensitive and
  trailing-slash matching are not modelled.
- Rendering and the surrounding screens are not modelled:
  - list, grid and view-toggle rendering;
  - the pages;
  - sign-out;
  - loading customers and venues into the dialog's selects;
  - the customer, venue and DJ create dialogs.
  These copy fields into inserts, or render fetched rows, and make no
  decision of their own.
- Ordering between concurrent asynchronous effects is not modelled. Each
  handler runs as one sequential step.
