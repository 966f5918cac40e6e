/** The billing view: four totals folded over the fetched gig and
    assignment rows, the state they are stored in, and the dash shown for
    a missing or zero amount. Amounts are integer cents. */
module Billing {
  import opened Wrappers
  import opened CivilTime
  import opened GigSchema
  import opened Notifications

  /** The columns of a `gigs` row the billing query selects. */
  datatype GigBillingRow = GigBillingRow(
    quotedAmount: int,
    invoicedAmount: Option<int>,
    amountReceived: Option<int>,
    status: GigStatus,
    customerName: Option<string>)

  /** The columns of a `gig_assignments` row the billing query selects. */
  datatype PayoutRow = PayoutRow(
    totalPayout: int,
    djName: Option<string>,
    gigStart: Option<DateTime>,
    customerName: Option<string>)

  datatype Stats = Stats(totalQuoted: int, totalInvoiced: int, totalReceived: int, pendingPayouts: int)

  const ZeroStats: Stats := Stats(0, 0, 0, 0)

  /** `Number(x) || 0` on a nullable numeric column: null counts as 0. */
  function OrZero(x: Option<int>): int {
    if x.Some? then x.value else 0
  }

  function QuotedTerm(g: GigBillingRow): int { g.quotedAmount }
  function InvoicedTerm(g: GigBillingRow): int { OrZero(g.invoicedAmount) }
  function ReceivedTerm(g: GigBillingRow): int { OrZero(g.amountReceived) }
  function PayoutTerm(a: PayoutRow): int { a.totalPayout }

  /** `reduce((sum, x) => sum + f(x), 0)`: a fold from the left. */
  function Total<T>(xs: seq<T>, f: T -> int): int {
    if xs == [] then 0 else Total(xs[..|xs| - 1], f) + f(xs[|xs| - 1])
  }

  /** `rows?.reduce(...) || 0`: no data at all gives 0. */
  function TotalOf<T>(rows: Option<seq<T>>, f: T -> int): int {
    if rows.Some? then Total(rows.value, f) else 0
  }

  /** The four totals, each over every row fetched. */
  function Summarize(gigs: Option<seq<GigBillingRow>>, assignments: Option<seq<PayoutRow>>): (r: Stats)
    ensures (gigs.None? || gigs == Some([])) ==> r.totalQuoted == 0 && r.totalInvoiced == 0 && r.totalReceived == 0
    ensures (assignments.None? || assignments == Some([])) ==> r.pendingPayouts == 0
  {
    Stats(TotalOf(gigs, QuotedTerm), TotalOf(gigs, InvoicedTerm), TotalOf(gigs, ReceivedTerm),
          TotalOf(assignments, PayoutTerm))
  }

  // ---------------------------------------------------------------------
  // Properties of the fold

  /** Every row contributes its own term: the total of two batches of rows
      is the sum of their totals. */
  lemma {:induction false} TotalAppend<T>(xs: seq<T>, ys: seq<T>, f: T -> int)
    ensures Total(xs + ys, f) == Total(xs, f) + Total(ys, f)
  {
    if ys == [] {
      assert xs + ys == xs;
    } else {
      var zs := xs + ys;
      assert zs[..|zs| - 1] == xs + ys[..|ys| - 1];
      assert zs[|zs| - 1] == ys[|ys| - 1];
      TotalAppend(xs, ys[..|ys| - 1], f);
    }
  }

  /** The query has no ordering, and the totals do not depend on the order
      in which the rows arrive. */
  lemma {:induction false} TotalPermutation<T>(xs: seq<T>, ys: seq<T>, f: T -> int)
    requires multiset(xs) == multiset(ys)
    ensures Total(xs, f) == Total(ys, f)
    decreases |xs|
  {
    if xs != [] {
      var last := xs[|xs| - 1];
      assert xs == xs[..|xs| - 1] + [last];
      assert last in multiset(ys);
      var i :| 0 <= i < |ys| && ys[i] == last;
      assert ys == ys[..i] + [last] + ys[i + 1..];
      var rest := ys[..i] + ys[i + 1..];
      assert multiset(xs) == multiset(xs[..|xs| - 1]) + multiset{last};
      assert multiset(ys) == multiset(ys[..i]) + multiset{last} + multiset(ys[i + 1..]);
      assert multiset(rest) == multiset(ys[..i]) + multiset(ys[i + 1..]);
      var front, back := multiset(xs[..|xs| - 1]), multiset(rest);
      forall z ensures front[z] == back[z] {
        assert (front + multiset{last})[z] == (back + multiset{last})[z];
      }
      assert multiset(xs[..|xs| - 1]) == multiset(rest);
      TotalPermutation(xs[..|xs| - 1], rest, f);
      TotalAppend(ys[..i], [last], f);
      TotalAppend(ys[..i] + [last], ys[i + 1..], f);
      TotalAppend(ys[..i], ys[i + 1..], f);
      assert Total([last], f) == f(last) by {
        assert [last][..0] == [];
      }
    } else {
      assert |ys| == |multiset(ys)| == 0;
    }
  }

  /** Summaries of the same rows in any two orders are equal. */
  lemma SummarizeOrderIndependent(g1: seq<GigBillingRow>, g2: seq<GigBillingRow>, a1: seq<PayoutRow>, a2: seq<PayoutRow>)
    requires multiset(g1) == multiset(g2) && multiset(a1) == multiset(a2)
    ensures Summarize(Some(g1), Some(a1)) == Summarize(Some(g2), Some(a2))
  {
    TotalPermutation(g1, g2, QuotedTerm);
    TotalPermutation(g1, g2, InvoicedTerm);
    TotalPermutation(g1, g2, ReceivedTerm);
    TotalPermutation(a1, a2, PayoutTerm);
  }

  /** With no negative amounts, no total is negative. */
  lemma {:induction false} TotalNonNegative<T>(xs: seq<T>, f: T -> int)
    requires forall k :: 0 <= k < |xs| ==> f(xs[k]) >= 0
    ensures Total(xs, f) >= 0
  {
    if xs != [] {
      TotalNonNegative(xs[..|xs| - 1], f);
    }
  }

  /** The totals of all four columns are non-negative when the amounts in the
      rows are. */
  lemma SummarizeNonNegative(gigs: Option<seq<GigBillingRow>>, assignments: Option<seq<PayoutRow>>)
    requires gigs.Some? ==> forall k :: 0 <= k < |gigs.value| ==>
      && gigs.value[k].quotedAmount >= 0
      && OrZero(gigs.value[k].invoicedAmount) >= 0
      && OrZero(gigs.value[k].amountReceived) >= 0
    requires assignments.Some? ==> forall k :: 0 <= k < |assignments.value| ==> assignments.value[k].totalPayout >= 0
    ensures var s := Summarize(gigs, assignments);
      s.totalQuoted >= 0 && s.totalInvoiced >= 0 && s.totalReceived >= 0 && s.pendingPayouts >= 0
  {
    if gigs.Some? {
      TotalNonNegative(gigs.value, QuotedTerm);
      TotalNonNegative(gigs.value, InvoicedTerm);
      TotalNonNegative(gigs.value, ReceivedTerm);
    }
    if assignments.Some? {
      TotalNonNegative(assignments.value, PayoutTerm);
    }
  }

  /** `pendingPayouts` takes no notice of anything but the payout: one more
      assignment row, whatever its gig, raises it by that row's payout. */
  lemma PendingPayoutsCountEveryRow(gigs: Option<seq<GigBillingRow>>, assignments: seq<PayoutRow>, a: PayoutRow)
    ensures Summarize(gigs, Some(assignments + [a])).pendingPayouts
         == Summarize(gigs, Some(assignments)).pendingPayouts + a.totalPayout
  {
    TotalAppend(assignments, [a], PayoutTerm);
    assert [a][..0] == [];
  }

  /** Two gigs, one never invoiced, and two assignments. */
  lemma SummarizeExample()
    ensures Summarize(
              Some([GigBillingRow(100, None, Some(50), Completed, None),
                    GigBillingRow(200, Some(200), Some(200), Completed, None)]),
              Some([PayoutRow(75, None, None, None), PayoutRow(25, None, None, None)]))
         == Stats(300, 200, 250, 100)
  {
    var g := [GigBillingRow(100, None, Some(50), Completed, None),
              GigBillingRow(200, Some(200), Some(200), Completed, None)];
    var a := [PayoutRow(75, None, None, None), PayoutRow(25, None, None, None)];
    TotalOfTwo(g[0], g[1], QuotedTerm);
    TotalOfTwo(g[0], g[1], InvoicedTerm);
    TotalOfTwo(g[0], g[1], ReceivedTerm);
    TotalOfTwo(a[0], a[1], PayoutTerm);
  }

  lemma TotalOfTwo<T>(x: T, y: T, f: T -> int)
    ensures Total([x, y], f) == f(x) + f(y)
  {
    assert [x, y][..1] == [x];
    assert [x][..0] == [];
    assert Total([x], f) == Total([], f) + f(x);
  }

  // ---------------------------------------------------------------------
  // The invoice table's amount cells

  datatype Cell = Dash | Amount(cents: int)

  /** A falsy amount (null or 0) is shown as a dash, any other as itself. */
  function AmountCell(x: Option<int>): (r: Cell)
    ensures r == Dash <==> (x.None? || x == Some(0))
    ensures r.Amount? ==> x == Some(r.cents)
  {
    if x.Some? && x.value != 0 then Amount(x.value) else Dash
  }

  /** What the cell shows agrees with what the total counts: a dash counts
      0 and a shown amount counts itself. */
  lemma CellAgreesWithTotal(g: GigBillingRow)
    ensures InvoicedTerm(g) == (match AmountCell(g.invoicedAmount) case Dash => 0 case Amount(c) => c)
    ensures ReceivedTerm(g) == (match AmountCell(g.amountReceived) case Dash => 0 case Amount(c) => c)
  {}

  // ---------------------------------------------------------------------
  // The view's state

  /** What a query returns: rows, or an error message (and then no rows). */
  datatype QueryResult<T> = QueryResult(data: Option<seq<T>>, error: Option<string>)

  /** The destructive toast shown when either query fails. */
  function LoadErrorToast(message: string): Toast {
    Toast("Error loading billing data", message, true)
  }

  class BillingView {
    var stats: Stats
    var invoices: seq<GigBillingRow>
    var payouts: seq<PayoutRow>

    constructor()
      ensures stats == ZeroStats && invoices == [] && payouts == []
    {
      stats := ZeroStats;
      invoices := [];
      payouts := [];
    }

    /** `loadBillingData`: the gig query, its three totals, the assignment
        query and its total; state is written only once both queries have
        succeeded. A failed query shows the error toast with its message. */
    method LoadBillingData(gigsResult: QueryResult<GigBillingRow>, assignmentsResult: QueryResult<PayoutRow>)
      returns (toast: Option<Toast>)
      modifies this
      ensures gigsResult.error.Some? ==>
        toast == Some(LoadErrorToast(gigsResult.error.value)) && stats == old(stats) && invoices == old(invoices) && payouts == old(payouts)
      ensures gigsResult.error.None? && assignmentsResult.error.Some? ==>
        toast == Some(LoadErrorToast(assignmentsResult.error.value)) && stats == old(stats) && invoices == old(invoices) && payouts == old(payouts)
      ensures gigsResult.error.None? && assignmentsResult.error.None? ==>
        && toast.None?
        && stats == Summarize(gigsResult.data, assignmentsResult.data)
        && invoices == (if gigsResult.data.Some? then gigsResult.data.value else [])
        && payouts == (if assignmentsResult.data.Some? then assignmentsResult.data.value else [])
    {
      if gigsResult.error.Some? {
        return Some(LoadErrorToast(gigsResult.error.value));
      }
      var gigs := gigsResult.data;
      var quoted := TotalOf(gigs, QuotedTerm);
      var invoiced := TotalOf(gigs, InvoicedTerm);
      var received := TotalOf(gigs, ReceivedTerm);
      if assignmentsResult.error.Some? {
        return Some(LoadErrorToast(assignmentsResult.error.value));
      }
      var assignments := assignmentsResult.data;
      var totalPayouts := TotalOf(assignments, PayoutTerm);
      stats := Stats(quoted, invoiced, received, totalPayouts);
      invoices := if gigs.Some? then gigs.value else [];
      payouts := if assignments.Some? then assignments.value else [];
      toast := None;
    }
  }
}
