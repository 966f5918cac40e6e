/** The recurring-gig expansion of the create-gig dialog: from the form that
    created a parent gig, the sibling rows of its series. */
module Recurrence {
  import opened Wrappers
  import opened CivilTime
  import opened NumberParsing
  import opened GigSchema

  /** The dialog's form state. Empty text fields are `None` (dates, amount)
      or `""` (frequency, occurrence count); amounts are in cents. */
  datatype GigForm = GigForm(
    customerId: string,
    venueId: string,
    start: Option<DateTime>,
    end: Option<DateTime>,
    quotedAmount: Option<int>,
    isRecurring: bool,
    frequency: string,
    recurrenceCount: string)

  /** The form as it is first shown and as it is reset after a creation. */
  const BlankForm: GigForm := GigForm("", "", None, None, None, false, "", "")

  /** What the browser's `required` inputs guarantee before a submit. */
  predicate Submittable(form: GigForm) {
    && form.start.Some? && form.start.value.Valid()
    && form.end.Some? && form.end.value.Valid()
    && form.quotedAmount.Some?
  }

  /** The number of sibling rows a series gets: none when the gig is not
      recurring, when the count field is empty, or when it parses to NaN or
      to at most 1; otherwise one fewer than the count. */
  function SiblingCount(form: GigForm): (n: nat)
    ensures n > 0 ==> form.isRecurring && ParseInt(form.recurrenceCount) == Some(n + 1)
    ensures var count := ParseInt(form.recurrenceCount);
      form.isRecurring && count.Some? && count.value >= 2 ==> n == count.value - 1
  {
    if !form.isRecurring || form.recurrenceCount == "" then 0
    else match ParseInt(form.recurrenceCount)
      case None => 0
      case Some(n) => if n >= 2 then n - 1 else 0
  }

  /** The start of the i-th sibling, always shifted from the parent's start. */
  function SiblingStart(start: DateTime, frequency: string, i: int): (r: DateTime)
    requires start.Valid()
    ensures r.Valid() && r.msOfDay == start.msOfDay
    ensures frequency == "weekly" ==> TimeValue(r) == TimeValue(start) + 7 * i * MsPerDay
    ensures frequency == "bi-weekly" ==> TimeValue(r) == TimeValue(start) + 14 * i * MsPerDay
    ensures frequency == "monthly" ==>
      var (ty, tm) := ShiftMonth(start.year, start.month, i);
      if start.day <= DaysInMonth(ty, tm) then r == DateTime(ty, tm, start.day, start.msOfDay)
      else r == DateTime(NextMonth(ty, tm).0, NextMonth(ty, tm).1, start.day - DaysInMonth(ty, tm), start.msOfDay)
    ensures ParseFrequency(frequency).None? ==> r == start
  {
    match ParseFrequency(frequency)
    case Some(Weekly) => AddDays(start, 7 * i)
    case Some(BiWeekly) => AddDays(start, 14 * i)
    case Some(Monthly) => AddMonths(start, i)
    case None => start
  }

  /** The invariant every generated occurrence satisfies: it copies the
      parent's customer, venue and quoted amount, is a non-recurring draft
      pointing back at the parent, and lasts exactly as long as the parent. */
  predicate IsSiblingOf(row: GigInsert, form: GigForm, parentId: GigId)
    requires Submittable(form)
  {
    && row.customerId == form.customerId
    && row.venueId == form.venueId
    && row.quotedAmount == form.quotedAmount.value
    && row.status == Draft
    && !row.isRecurring
    && row.parentGigId == Some(parentId)
    && row.frequency.None? && row.recurrenceCount.None? && row.createdBy.None?
    && row.start.Valid() && row.end.Valid()
    && TimeValue(row.end) - TimeValue(row.start) == TimeValue(form.end.value) - TimeValue(form.start.value)
  }

  /** The i-th sibling row of the series. */
  function SiblingRow(form: GigForm, parentId: GigId, i: int): (r: GigInsert)
    requires Submittable(form)
    ensures IsSiblingOf(r, form, parentId)
    ensures r.start == SiblingStart(form.start.value, form.frequency, i)
  {
    var start := SiblingStart(form.start.value, form.frequency, i);
    var duration := TimeValue(form.end.value) - TimeValue(form.start.value);
    GigInsert(form.customerId, form.venueId, start, FromTimeValue(TimeValue(start) + duration),
              form.quotedAmount.value, Draft, false, None, None, None, Some(parentId))
  }

  /** All sibling rows of the series, in the order they are built. */
  function Siblings(form: GigForm, parentId: GigId): (r: seq<GigInsert>)
    requires Submittable(form)
    ensures |r| == SiblingCount(form)
    ensures forall k :: 0 <= k < |r| ==> r[k] == SiblingRow(form, parentId, k + 1) && IsSiblingOf(r[k], form, parentId)
  {
    seq(SiblingCount(form), k => SiblingRow(form, parentId, k + 1))
  }

  /** The first i siblings are the first i - 1 followed by sibling i. */
  lemma SiblingsStep(form: GigForm, parentId: GigId, i: int)
    requires Submittable(form) && 1 <= i <= SiblingCount(form)
    ensures Siblings(form, parentId)[..i] == Siblings(form, parentId)[..i - 1] + [SiblingRow(form, parentId, i)]
  {
    var sibs := Siblings(form, parentId);
    assert sibs[i - 1] == SiblingRow(form, parentId, i);
    assert sibs[..i] == sibs[..i - 1] + [sibs[i - 1]];
  }

  /** One step of the loop: a fresh copy of the start date, moved with
      `setDate` or `setMonth` according to the frequency string. */
  method ShiftStart(startDate: DateTime, frequency: string, i: int) returns (nextStart: DateTime)
    requires startDate.Valid()
    ensures nextStart == SiblingStart(startDate, frequency, i)
  {
    nextStart := startDate;
    if frequency == "weekly" {
      nextStart := AddDays(nextStart, 7 * i);
    } else if frequency == "bi-weekly" {
      nextStart := AddDays(nextStart, 14 * i);
    } else if frequency == "monthly" {
      nextStart := AddMonths(nextStart, i);
    }
  }

  /** The body of one loop iteration: the shifted start, the end one
      duration later, and the row literal. */
  method NextSibling(form: GigForm, parentId: GigId, duration: int, i: int) returns (row: GigInsert)
    requires Submittable(form)
    requires duration == TimeValue(form.end.value) - TimeValue(form.start.value)
    ensures row == SiblingRow(form, parentId, i)
  {
    var nextStart := ShiftStart(form.start.value, form.frequency, i);
    var nextEnd := FromTimeValue(TimeValue(nextStart) + duration);
    row := GigInsert(
      customerId := form.customerId,
      venueId := form.venueId,
      start := nextStart,
      end := nextEnd,
      quotedAmount := form.quotedAmount.value,
      status := Draft,
      parentGigId := Some(parentId),
      isRecurring := false,
      frequency := None,
      recurrenceCount := None,
      createdBy := None);
  }

  /** The loop of `generateRecurringGigs`: for i = 1 .. count - 1, a fresh
      copy of the start date is shifted by i weeks, i fortnights or i months,
      the end is the shifted start plus the parent's duration, and the row is
      appended. */
  method BuildSiblings(form: GigForm, parentId: GigId) returns (rows: seq<GigInsert>)
    requires Submittable(form)
    ensures rows == Siblings(form, parentId)
  {
    rows := [];
    if !form.isRecurring || form.recurrenceCount == "" {
      return;
    }
    var count := ParseInt(form.recurrenceCount);
    var duration := TimeValue(form.end.value) - TimeValue(form.start.value);
    var i := 1;
    while count.Some? && i < count.value
      invariant 1 <= i <= SiblingCount(form) + 1
      invariant i == 1 || (count.Some? && i <= count.value)
      invariant rows == Siblings(form, parentId)[..i - 1]
    {
      var row := NextSibling(form, parentId, duration, i);
      SiblingsStep(form, parentId, i);
      rows := rows + [row];
      i := i + 1;
    }
  }

  // ---------------------------------------------------------------------
  // Properties of the series

  /** A recurring gig whose count field holds the numeral of n gets n - 1
      siblings when n >= 2 and none otherwise. */
  lemma SeriesSize(form: GigForm, n: int)
    requires form.isRecurring && form.recurrenceCount == DecimalString(n)
    ensures SiblingCount(form) == if n >= 2 then n - 1 else 0
  {
    ParseIntDecimal(n, "");
    assert DecimalString(n) + "" == DecimalString(n);
  }

  /** Other spellings the count field accepts: a leading zero or space and a
      fractional part are ignored, and an exponent is not read. */
  lemma CountSpellings(form: GigForm)
    requires form.isRecurring
    ensures form.recurrenceCount == "03" ==> SiblingCount(form) == 2
    ensures form.recurrenceCount == " 3" ==> SiblingCount(form) == 2
    ensures form.recurrenceCount == "3.5" ==> SiblingCount(form) == 2
    ensures form.recurrenceCount == "1e3" ==> SiblingCount(form) == 0
  {
    ParseIntDecimal(3, ".5");
    assert DecimalString(3) + ".5" == "3.5";
    ParseIntDecimal(1, "e3");
    assert DecimalString(1) + "e3" == "1e3";
    ParseIntDecimal(3, "");
    assert DecimalString(3) + "" == "3";
    assert TrimStart(" 3") == "3";
    TrimStartAtNumber("03");
    assert ReadSign("03") == (false, "03");
    assert ReadRadix("03") == (10, "03");
    assert "03"[1..] == "3" && "3"[1..] == [];
    assert DigitRunLength("03", 10) == 2;
    assert "03"[..2] == "03" && "03"[..1] == "0";
    assert DigitsValue("03", 10) == 3;
  }

  /** A count field with no digit in it (left empty, or "-") gives no siblings. */
  lemma NoSeriesWithoutDigits(form: GigForm)
    requires forall k :: 0 <= k < |form.recurrenceCount| ==> !IsDecimalDigit(form.recurrenceCount[k])
    ensures SiblingCount(form) == 0
  {
    ParseIntNaN(form.recurrenceCount);
  }

  /** For the weekly and bi-weekly frequencies, shifting each sibling from the
      parent's start agrees with shifting it from the previous sibling. */
  lemma DayShiftsChain(start: DateTime, frequency: string, i: int)
    requires start.Valid()
    requires frequency == "weekly" || frequency == "bi-weekly"
    ensures SiblingStart(start, frequency, i + 1)
         == AddDays(SiblingStart(start, frequency, i), if frequency == "weekly" then 7 else 14)
  {
    if frequency == "weekly" {
      AddDaysCompose(start, 7 * i, 7);
      assert 7 * i + 7 == 7 * (i + 1);
    } else {
      AddDaysCompose(start, 14 * i, 14);
      assert 14 * i + 14 == 14 * (i + 1);
    }
  }

  /** For the monthly frequency the two differ: from 2023-01-31 the second
      sibling starts on 2023-03-31, not a month after the first sibling
      (2023-03-03), which would be 2023-04-03. */
  lemma MonthlyShiftsDoNotChain()
    ensures var start := DateTime(2023, 1, 31, 72_000_000);
      && SiblingStart(start, "monthly", 1) == DateTime(2023, 3, 3, 72_000_000)
      && SiblingStart(start, "monthly", 2) == DateTime(2023, 3, 31, 72_000_000)
      && AddMonths(SiblingStart(start, "monthly", 1), 1) == DateTime(2023, 4, 3, 72_000_000)
  {}

  /** A weekly series of three from 2024-01-01 20:00 to 23:00: siblings on
      2024-01-08 and 2024-01-15, same hours, pointing at the parent. */
  lemma WeeklySeriesExample(parentId: GigId)
    ensures var form := GigForm("c1", "v1", Some(DateTime(2024, 1, 1, 72_000_000)),
                                Some(DateTime(2024, 1, 1, 82_800_000)), Some(25_000), true, "weekly", "3");
      && Submittable(form)
      && Siblings(form, parentId) == [
           GigInsert("c1", "v1", DateTime(2024, 1, 8, 72_000_000), DateTime(2024, 1, 8, 82_800_000),
                     25_000, Draft, false, None, None, None, Some(parentId)),
           GigInsert("c1", "v1", DateTime(2024, 1, 15, 72_000_000), DateTime(2024, 1, 15, 82_800_000),
                     25_000, Draft, false, None, None, None, Some(parentId))]
  {
    var form := GigForm("c1", "v1", Some(DateTime(2024, 1, 1, 72_000_000)),
                        Some(DateTime(2024, 1, 1, 82_800_000)), Some(25_000), true, "weekly", "3");
    assert DecimalString(3) == "3";
    SeriesSize(form, 3);
    FromTimeValueRoundTrip(DateTime(2024, 1, 8, 82_800_000));
    FromTimeValueRoundTrip(DateTime(2024, 1, 15, 82_800_000));
  }

  /** A monthly series of two from 2024-01-31 20:00: "one month later" is
      February 31st, which rolls over to 2024-03-02. */
  lemma MonthlySeriesExample(parentId: GigId)
    ensures var form := GigForm("c1", "v1", Some(DateTime(2024, 1, 31, 72_000_000)),
                                Some(DateTime(2024, 1, 31, 82_800_000)), Some(25_000), true, "monthly", "2");
      && Submittable(form)
      && |Siblings(form, parentId)| == 1
      && Siblings(form, parentId)[0].start == DateTime(2024, 3, 2, 72_000_000)
      && Siblings(form, parentId)[0].end == DateTime(2024, 3, 2, 82_800_000)
  {
    var form := GigForm("c1", "v1", Some(DateTime(2024, 1, 31, 72_000_000)),
                        Some(DateTime(2024, 1, 31, 82_800_000)), Some(25_000), true, "monthly", "2");
    assert DecimalString(2) == "2";
    SeriesSize(form, 2);
    FromTimeValueRoundTrip(DateTime(2024, 3, 2, 82_800_000));
  }
}
