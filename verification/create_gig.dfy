/** The submit sequence of the create-gig dialog: authentication, the parent
    row, then the series of siblings as one batch, over a row store whose
    inserts may fail. */
module CreateGig {
  import opened Wrappers
  import opened NumberParsing
  import opened GigSchema
  import opened Recurrence
  import opened Notifications

  /** A row as the store keeps it: the inserted columns and the id the store
      gave it. */
  datatype StoredGig = StoredGig(id: GigId, gig: GigInsert)

  /** The rows a batch insert stores: consecutive ids from `first`, in the
      order of the batch. */
  function Stamp(first: GigId, gs: seq<GigInsert>): (r: seq<StoredGig>)
    ensures |r| == |gs|
  {
    seq(|gs|, k requires 0 <= k < |gs| => StoredGig(first + k, gs[k]))
  }

  /** Ids in the store are strictly increasing and below the next id to hand
      out, so every id names at most one row. */
  ghost predicate IdsFresh(rows: seq<StoredGig>, nextId: GigId) {
    && (forall i, j :: 0 <= i < j < |rows| ==> rows[i].id < rows[j].id)
    && (forall i :: 0 <= i < |rows| ==> rows[i].id < nextId)
  }

  lemma StampKeepsIdsFresh(rows: seq<StoredGig>, nextId: GigId, gs: seq<GigInsert>)
    requires IdsFresh(rows, nextId)
    ensures IdsFresh(rows + Stamp(nextId, gs), nextId + |gs|)
  {
    var all := rows + Stamp(nextId, gs);
    forall i | 0 <= i < |all| ensures all[i].id < nextId + |gs| && (i >= |rows| ==> all[i].id == nextId + (i - |rows|)) {
      if i >= |rows| {
        assert all[i] == Stamp(nextId, gs)[i - |rows|];
      }
    }
  }

  /** The first row with the given id, if any. */
  function Lookup(rows: seq<StoredGig>, id: GigId): (r: Option<GigInsert>)
    ensures r.Some? <==> exists k :: 0 <= k < |rows| && rows[k].id == id
    ensures r.Some? ==> exists k :: 0 <= k < |rows| && rows[k] == StoredGig(id, r.value)
  {
    if rows == [] then None
    else if rows[0].id == id then Some(rows[0].gig)
    else
      var rest := Lookup(rows[1..], id);
      assert forall k :: 1 <= k < |rows| ==> rows[k] == rows[1..][k - 1];
      rest
  }

  /** The `gigs` table of the backend: rows in insertion order and the id
      the next insert will be given. */
  class GigsTable {
    var rows: seq<StoredGig>
    var nextId: GigId

    ghost predicate Valid()
      reads this
    {
      IdsFresh(rows, nextId)
    }

    constructor()
      ensures Valid() && rows == [] && nextId == 0
    {
      rows := [];
      nextId := 0;
    }

    /** Insert one row and return its id. A failing insert (`fault`) stores
        nothing and reports the backend's message. */
    method Insert(g: GigInsert, fault: Option<string>) returns (r: Result<GigId, string>)
      requires Valid()
      modifies this
      ensures Valid()
      ensures fault.Some? ==> r == Failure(fault.value) && rows == old(rows) && nextId == old(nextId)
      ensures fault.None? ==> && r == Success(old(nextId))
                              && rows == old(rows) + [StoredGig(old(nextId), g)]
                              && nextId == old(nextId) + 1
    {
      if fault.Some? {
        return Failure(fault.value);
      }
      StampKeepsIdsFresh(rows, nextId, [g]);
      assert Stamp(nextId, [g]) == [StoredGig(nextId, g)];
      rows := rows + [StoredGig(nextId, g)];
      r := Success(nextId);
      nextId := nextId + 1;
    }

    /** Insert several rows in one statement: all of them or, on failure,
        none. */
    method InsertBatch(gs: seq<GigInsert>, fault: Option<string>) returns (error: Option<string>)
      requires Valid()
      modifies this
      ensures Valid()
      ensures fault.Some? ==> error == fault && rows == old(rows) && nextId == old(nextId)
      ensures fault.None? ==> && error.None?
                              && rows == old(rows) + Stamp(old(nextId), gs)
                              && nextId == old(nextId) + |gs|
    {
      if fault.Some? {
        return fault;
      }
      StampKeepsIdsFresh(rows, nextId, gs);
      rows := rows + Stamp(nextId, gs);
      nextId := nextId + |gs|;
      error := None;
    }
  }

  /** The parent row: a draft owned by the signed-in user, carrying the
      frequency and the parsed count only when the gig is recurring (an
      unparsable count is stored as null). */
  function ParentRow(form: GigForm, user: UserId): (r: GigInsert)
    requires Submittable(form)
    ensures r.status == Draft && r.createdBy == Some(user) && r.parentGigId.None?
    ensures r.customerId == form.customerId && r.venueId == form.venueId
    ensures r.start == form.start.value && r.end == form.end.value
    ensures r.quotedAmount == form.quotedAmount.value
    ensures r.isRecurring == form.isRecurring
    ensures r.frequency.Some? <==> form.isRecurring
    ensures form.isRecurring ==> r.frequency == Some(form.frequency) && r.recurrenceCount == ParseInt(form.recurrenceCount)
    ensures !form.isRecurring ==> r.recurrenceCount.None?
  {
    GigInsert(
      customerId := form.customerId,
      venueId := form.venueId,
      start := form.start.value,
      end := form.end.value,
      quotedAmount := form.quotedAmount.value,
      status := Draft,
      isRecurring := form.isRecurring,
      frequency := if form.isRecurring then Some(form.frequency) else None,
      recurrenceCount := if form.isRecurring then ParseInt(form.recurrenceCount) else None,
      createdBy := Some(user),
      parentGigId := None)
  }

  function CreatedToast(form: GigForm): Toast {
    Toast("Gig created",
          if form.isRecurring then "Created " + form.recurrenceCount + " recurring gigs"
          else "The gig has been scheduled successfully.",
          false)
  }

  function ErrorToast(message: string): Toast {
    Toast("Error creating gig", message, true)
  }

  const NotAuthenticated: string := "Not authenticated"

  /** The table after a successful submit: the rows that were there, the
      parent, then its siblings with the ids that follow the parent's. */
  function RowsAfterSeries(before: seq<StoredGig>, parentId: GigId, form: GigForm, user: UserId): seq<StoredGig>
    requires Submittable(form)
  {
    before + [StoredGig(parentId, ParentRow(form, user))] + Stamp(parentId + 1, Siblings(form, parentId))
  }

  lemma SeriesIdsFresh(before: seq<StoredGig>, nextId: GigId, form: GigForm, user: UserId)
    requires Submittable(form) && IdsFresh(before, nextId)
    ensures IdsFresh(RowsAfterSeries(before, nextId, form, user), nextId + 1 + SiblingCount(form))
  {
    var parent := StoredGig(nextId, ParentRow(form, user));
    StampKeepsIdsFresh(before, nextId, [parent.gig]);
    assert Stamp(nextId, [parent.gig]) == [parent];
    StampKeepsIdsFresh(before + [parent], nextId + 1, Siblings(form, nextId));
  }

  /** After a successful submit every row of the series that is not the
      parent names the parent's id, and that id finds the parent row. */
  lemma SeriesPointsAtParent(before: seq<StoredGig>, nextId: GigId, form: GigForm, user: UserId)
    requires Submittable(form) && IdsFresh(before, nextId)
    ensures var after := RowsAfterSeries(before, nextId, form, user);
      && |after| == |before| + 1 + SiblingCount(form)
      && Lookup(after, nextId) == Some(ParentRow(form, user))
      && forall k :: |before| < k < |after| ==>
           after[k].gig.parentGigId == Some(nextId) && Lookup(after, after[k].id) == Some(after[k].gig)
  {
    var after := RowsAfterSeries(before, nextId, form, user);
    SeriesIdsFresh(before, nextId, form, user);
    assert after[|before|] == StoredGig(nextId, ParentRow(form, user));
    LookupUnique(after, |before|);
    forall k | |before| < k < |after|
      ensures after[k].gig.parentGigId == Some(nextId) && Lookup(after, after[k].id) == Some(after[k].gig)
    {
      SeriesRow(before, nextId, form, user, k - |before| - 1);
      LookupUnique(after, k);
    }
  }

  lemma SeriesRow(before: seq<StoredGig>, nextId: GigId, form: GigForm, user: UserId, i: int)
    requires Submittable(form) && 0 <= i < SiblingCount(form)
    ensures var after := RowsAfterSeries(before, nextId, form, user);
      after[|before| + 1 + i].gig == Siblings(form, nextId)[i]
      && after[|before| + 1 + i].gig.parentGigId == Some(nextId)
  {
    var sibs := Siblings(form, nextId);
    assert IsSiblingOf(sibs[i], form, nextId);
  }

  /** With strictly increasing ids, looking up a row's id finds that row. */
  lemma {:induction false} LookupUnique(rows: seq<StoredGig>, k: int)
    requires forall i, j :: 0 <= i < j < |rows| ==> rows[i].id < rows[j].id
    requires 0 <= k < |rows|
    ensures Lookup(rows, rows[k].id) == Some(rows[k].gig)
  {
    if k > 0 {
      assert rows[0].id < rows[k].id;
      assert rows[1..][k - 1] == rows[k];
      LookupUnique(rows[1..], k - 1);
    }
  }

  /** The dialog: its form state, whether it is open, and the busy flag of
      its submit button. */
  class CreateGigDialog {
    var form: GigForm
    var open: bool
    var loading: bool

    constructor(isOpen: bool)
      ensures form == BlankForm && open == isOpen && !loading
    {
      form := BlankForm;
      open := isOpen;
      loading := false;
    }

    /** `generateRecurringGigs`: build the siblings and, when there is at
        least one, insert them as one batch. */
    method GenerateRecurringGigs(table: GigsTable, parentId: GigId, fault: Option<string>)
      returns (error: Option<string>)
      requires Submittable(form) && table.Valid()
      modifies table
      ensures table.Valid()
      ensures var sibs := Siblings(form, parentId);
        if sibs != [] && fault.Some? then
          error == fault && table.rows == old(table.rows) && table.nextId == old(table.nextId)
        else
          && error.None?
          && table.rows == old(table.rows) + Stamp(old(table.nextId), sibs)
          && table.nextId == old(table.nextId) + |sibs|
    {
      var recurringGigs := BuildSiblings(form, parentId);
      error := None;
      if |recurringGigs| > 0 {
        error := table.InsertBatch(recurringGigs, fault);
      } else {
        assert Stamp(table.nextId, recurringGigs) == [];
        assert table.rows + [] == table.rows;
      }
    }

    /** The inserts of `handleSubmit`: the parent row, then, for a recurring
        gig, its siblings. The first failure is returned, and what was
        already stored stays. */
    method InsertSeries(table: GigsTable, user: UserId, parentFault: Option<string>, batchFault: Option<string>)
      returns (error: Option<string>)
      requires Submittable(form) && table.Valid()
      modifies table
      ensures table.Valid()
      ensures parentFault.Some? ==> error == parentFault && table.rows == old(table.rows) && table.nextId == old(table.nextId)
      ensures parentFault.None? ==>
        var parentId := old(table.nextId);
        var sibs := Siblings(form, parentId);
        if sibs != [] && batchFault.Some? then
          && error == batchFault
          && table.rows == old(table.rows) + [StoredGig(parentId, ParentRow(form, user))]
        else
          && error.None?
          && table.rows == RowsAfterSeries(old(table.rows), parentId, form, user)
    {
      var inserted := table.Insert(ParentRow(form, user), parentFault);
      if inserted.Failure? {
        return Some(inserted.error);
      }
      var parentId := inserted.value;
      error := None;
      if form.isRecurring {
        error := GenerateRecurringGigs(table, parentId, batchFault);
      } else {
        assert Siblings(form, parentId) == [];
        assert Stamp(parentId + 1, []) == [];
      }
    }

    /** `handleSubmit`: check the user, insert the parent and its siblings,
        then close and reset the dialog. The first failing step ends the
        sequence with an error toast and leaves whatever was already stored
        in place; the form and the dialog are then left as they were. */
    method HandleSubmit(table: GigsTable, user: Option<UserId>, parentFault: Option<string>, batchFault: Option<string>)
      returns (toast: Toast)
      requires Submittable(form) && table.Valid()
      modifies this, table
      ensures table.Valid() && !loading
      ensures user.None? ==>
        && toast == ErrorToast(NotAuthenticated)
        && table.rows == old(table.rows) && table.nextId == old(table.nextId)
        && form == old(form) && open == old(open)
      ensures user.Some? && parentFault.Some? ==>
        && toast == ErrorToast(parentFault.value)
        && table.rows == old(table.rows) && table.nextId == old(table.nextId)
        && form == old(form) && open == old(open)
      ensures user.Some? && parentFault.None? ==>
        var parentId := old(table.nextId);
        var parent := StoredGig(parentId, ParentRow(old(form), user.value));
        var sibs := Siblings(old(form), parentId);
        if sibs != [] && batchFault.Some? then
          && toast == ErrorToast(batchFault.value)
          && table.rows == old(table.rows) + [parent]
          && form == old(form) && open == old(open)
        else
          && toast == CreatedToast(old(form))
          && table.rows == RowsAfterSeries(old(table.rows), parentId, old(form), user.value)
          && form == BlankForm && !open
    {
      loading := true;
      if user.None? {
        toast := ErrorToast(NotAuthenticated);
      } else {
        var error := InsertSeries(table, user.value, parentFault, batchFault);
        if error.Some? {
          toast := ErrorToast(error.value);
        } else {
          toast := CreatedToast(form);
          open := false;
          form := BlankForm;
        }
      }
      loading := false;
    }
  }
}
