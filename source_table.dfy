/**
 * The source table: validation of the default row and the 200 slot rows,
 * and the list of desired metric definitions built from them.
 */
module SourceTable {
  import opened Wrappers
  import opened MetricIds
  import opened Validator

  /** The number of slot rows the sheet holds (sheet rows 3 to 202). */
  const SlotCount: nat := 200

  /**
   * One record of the desired-state list. A record built from a filled row
   * carries the slot's id; a record built from the default row has none.
   */
  datatype Entry = Entry(id: Option<string>, name: string, scope: string, metricType: string, active: string)

  /** Why a build or a sheet check throws; slot is the 1-based number in the message's 'ga:metric' id. */
  datatype BuildError = InvalidDefaultRow | InvalidRow(slot: nat)

  /** A row that stops the build: neither empty nor valid. */
  predicate IsRejected(row: Row) {
    !IsEmpty(row) && !IsValid(row)
  }

  /** The index of the first rejected row, if there is one. */
  function FirstRejected(rows: seq<Row>): (r: Option<nat>)
    ensures r.None? <==> forall k :: 0 <= k < |rows| ==> !IsRejected(rows[k])
    ensures r.Some? ==> r.value < |rows| && IsRejected(rows[r.value])
                        && forall k :: 0 <= k < r.value ==> !IsRejected(rows[k])
  {
    if rows == [] then None
    else if IsRejected(rows[0]) then Some(0)
    else match FirstRejected(rows[1..])
      case None => None
      case Some(k) => Some(k + 1)
  }

  /** JavaScript's `s || fallback` on a string: "" is the only falsy string. */
  function OrElse(s: string, fallback: string): string {
    if s == "" then fallback else s
  }

  /** The record of a filled row at 0-based index i. */
  function SlotEntry(row: Row, i: nat): Entry {
    Entry(Some(MetricId(i + 1)), row.name, row.scope, row.metricType, row.active)
  }

  /** The record of an empty row: the default row's cells, each with its hard fallback. */
  function DefaultEntry(defaultRow: Row): Entry {
    Entry(None, OrElse(defaultRow.name, "(n/a)"), OrElse(defaultRow.scope, "HIT"),
          OrElse(defaultRow.metricType, "INTEGER"), OrElse(defaultRow.active, "false"))
  }

  function EntryFor(defaultRow: Row, row: Row, i: nat): Entry {
    if IsEmpty(row) then DefaultEntry(defaultRow) else SlotEntry(row, i)
  }

  /**
   * What buildSourceData computes from a default row and the slot rows:
   * an error, or one record per row in row order.
   */
  function SourceData(defaultRow: Row, rows: seq<Row>): Result<seq<Entry>, BuildError> {
    if !IsValid(defaultRow) then Failure(InvalidDefaultRow)
    else match FirstRejected(rows)
      case Some(i) => Failure(InvalidRow(i + 1))
      case None => Success(seq(|rows|, i requires 0 <= i < |rows| => EntryFor(defaultRow, rows[i], i)))
  }

  /** What isValidSheet decides: it passes (returns true) or throws. */
  function SheetCheck(defaultRow: Row, rows: seq<Row>): (r: Outcome<BuildError>)
    ensures r == Pass <==> IsValid(defaultRow) && forall k :: 0 <= k < |rows| ==> !IsRejected(rows[k])
    ensures r == Fail(InvalidDefaultRow) <==> !IsValid(defaultRow)
    ensures r.Fail? && r.error.InvalidRow? ==>
      IsValid(defaultRow) && 1 <= r.error.slot <= |rows| && IsRejected(rows[r.error.slot - 1])
      && forall k :: 0 <= k < r.error.slot - 1 ==> !IsRejected(rows[k])
  {
    if !IsValid(defaultRow) then Fail(InvalidDefaultRow)
    else match FirstRejected(rows)
      case Some(i) => Fail(InvalidRow(i + 1))
      case None => Pass
  }

  /** buildSourceData: validate the default row, then walk the rows, pushing one record each. */
  method BuildSourceData(defaultRow: Row, rows: seq<Row>) returns (r: Result<seq<Entry>, BuildError>)
    ensures r == SourceData(defaultRow, rows)
  {
    if !IsValid(defaultRow) {
      return Failure(InvalidDefaultRow);
    }
    var sourceMetrics: seq<Entry> := [];
    var i := 0;
    while i < |rows|
      invariant 0 <= i <= |rows|
      invariant forall k :: 0 <= k < i ==> !IsRejected(rows[k])
      invariant |sourceMetrics| == i
      invariant forall k :: 0 <= k < i ==> sourceMetrics[k] == EntryFor(defaultRow, rows[k], k)
    {
      if !IsEmpty(rows[i]) && !IsValid(rows[i]) {
        return Failure(InvalidRow(i + 1));
      }
      if !IsEmpty(rows[i]) {
        sourceMetrics := sourceMetrics + [Entry(Some(MetricId(i + 1)), rows[i].name, rows[i].scope,
                                                rows[i].metricType, rows[i].active)];
      } else {
        sourceMetrics := sourceMetrics + [Entry(None, OrElse(defaultRow.name, "(n/a)"),
                                                OrElse(defaultRow.scope, "HIT"),
                                                OrElse(defaultRow.metricType, "INTEGER"),
                                                OrElse(defaultRow.active, "false"))];
      }
      i := i + 1;
    }
    assert FirstRejected(rows) == None;
    assert sourceMetrics == seq(|rows|, k requires 0 <= k < |rows| => EntryFor(defaultRow, rows[k], k));
    return Success(sourceMetrics);
  }

  /** isValidSheet: validate the default row, then every slot row, throwing at the first bad one. */
  method IsValidSheet(defaultRow: Row, rows: seq<Row>) returns (r: Outcome<BuildError>)
    ensures r == SheetCheck(defaultRow, rows)
  {
    if !IsValid(defaultRow) {
      return Fail(InvalidDefaultRow);
    }
    var i := 0;
    while i < |rows|
      invariant 0 <= i <= |rows|
      invariant forall k :: 0 <= k < i ==> !IsRejected(rows[k])
    {
      if !IsEmpty(rows[i]) && !IsValid(rows[i]) {
        return Fail(InvalidRow(i + 1));
      }
      i := i + 1;
    }
    return Pass;
  }

  /** The default row is checked before any slot: an invalid one fails the build whatever the slots hold. */
  lemma InvalidDefaultFailsFirst(defaultRow: Row, rows: seq<Row>)
    requires !IsValid(defaultRow)
    ensures SourceData(defaultRow, rows) == Failure(InvalidDefaultRow)
  {
  }

  /** A rejected row fails the whole build, naming the first such row; no list is produced. */
  lemma FirstRejectedRowFailsBuild(defaultRow: Row, rows: seq<Row>, i: nat)
    requires IsValid(defaultRow)
    requires i < |rows| && IsRejected(rows[i])
    requires forall k :: 0 <= k < i ==> !IsRejected(rows[k])
    ensures SourceData(defaultRow, rows) == Failure(InvalidRow(i + 1))
  {
  }

  /** A row with only its name filled is rejected, not treated as empty. */
  lemma NameOnlyRowIsRejected(name: string)
    requires name != ""
    ensures IsRejected(Row(name, "", "", ""))
  {
  }

  /**
   * A successful build has one record per row, in row order: a filled row gives
   * the id of its slot and its own cells verbatim, an empty row gives a record
   * with no id.
   */
  lemma SourceDataShape(defaultRow: Row, rows: seq<Row>, entries: seq<Entry>)
    requires SourceData(defaultRow, rows) == Success(entries)
    ensures |entries| == |rows|
    ensures forall i :: 0 <= i < |rows| && !IsEmpty(rows[i]) ==>
      IsValid(rows[i]) && entries[i] == Entry(Some(MetricId(i + 1)), rows[i].name, rows[i].scope,
                                             rows[i].metricType, rows[i].active)
    ensures forall i :: 0 <= i < |rows| && IsEmpty(rows[i]) ==> entries[i].id == None
  {
  }

  /**
   * The hard fallbacks never apply: after the default row has been validated,
   * every record of an empty row is exactly the default row's four cells.
   */
  lemma EmptyRowsCopyDefault(defaultRow: Row, rows: seq<Row>, entries: seq<Entry>, i: nat)
    requires SourceData(defaultRow, rows) == Success(entries)
    requires i < |rows| && IsEmpty(rows[i])
    ensures entries[i] == Entry(None, defaultRow.name, defaultRow.scope, defaultRow.metricType, defaultRow.active)
  {
  }

  /** The ids of a built list are positional: the id of record i names slot i + 1. */
  lemma EntryIdsArePositional(defaultRow: Row, rows: seq<Row>, entries: seq<Entry>, i: nat)
    requires SourceData(defaultRow, rows) == Success(entries)
    requires i < |entries| && entries[i].id.Some?
    ensures ParseMetricId(entries[i].id.value) == Some(i + 1)
  {
    MetricIdRoundTrip(i + 1);
  }

  /** No two records of a built list carry the same id. */
  lemma EntryIdsAreDistinct(defaultRow: Row, rows: seq<Row>, entries: seq<Entry>, i: nat, j: nat)
    requires SourceData(defaultRow, rows) == Success(entries)
    requires i < j < |entries| && entries[i].id.Some? && entries[j].id.Some?
    ensures entries[i].id != entries[j].id
  {
    EntryIdsArePositional(defaultRow, rows, entries, i);
    EntryIdsArePositional(defaultRow, rows, entries, j);
  }

  /** isValidSheet passes exactly when buildSourceData, given the same rows, does not throw, and both throw the same error. */
  lemma SheetCheckAgreesWithBuild(defaultRow: Row, rows: seq<Row>)
    ensures SheetCheck(defaultRow, rows) == Pass <==> SourceData(defaultRow, rows).Success?
    ensures forall e :: SheetCheck(defaultRow, rows) == Fail(e) <==> SourceData(defaultRow, rows) == Failure(e)
  {
  }

  /** The default row of the examples below. */
  const SessionsRow := Row("Sessions", "HIT", "INTEGER", "true")

  /** A filled slot row of the examples below. */
  const RevenueRow := Row("Revenue", "PRODUCT", "CURRENCY", "true")

  /** A table of empty slots under a valid default yields that many copies of the default row, none with an id. */
  lemma AllEmptyYieldsDefaults()
    ensures SourceData(SessionsRow, seq(SlotCount, _ => EmptyRow))
         == Success(seq(SlotCount, _ => Entry(None, "Sessions", "HIT", "INTEGER", "true")))
  {
    var rows := seq(SlotCount, _ => EmptyRow);
    assert FirstRejected(rows) == None;
    assert seq(|rows|, i requires 0 <= i < |rows| => EntryFor(SessionsRow, rows[i], i))
        == seq(SlotCount, _ => Entry(None, "Sessions", "HIT", "INTEGER", "true"));
  }

  /** A table with only slot 5 filled builds: slot 5 gets the id 'ga:metric5', every other slot copies the default. */
  lemma OneFilledSlot()
    ensures var r := SourceData(SessionsRow, seq(SlotCount, i => if i == 4 then RevenueRow else EmptyRow));
      r.Success? && |r.value| == SlotCount
      && r.value[4] == Entry(Some("ga:metric5"), "Revenue", "PRODUCT", "CURRENCY", "true")
      && forall i :: 0 <= i < SlotCount && i != 4 ==> r.value[i] == Entry(None, "Sessions", "HIT", "INTEGER", "true")
  {
    var rows := seq(SlotCount, i => if i == 4 then RevenueRow else EmptyRow);
    assert IsValid(rows[4]);
    assert forall k :: 0 <= k < |rows| ==> !IsRejected(rows[k]);
    assert DigitChar(5) == '5';
    assert MetricId(5) == "ga:metric5";
  }

  /**
   * The sheet as the script lays it out: sheet row 2 is the default row
   * (labelled DEFAULT/EMPTY) and sheet rows 3 to 202 are slots 1 to 200.
   */
  datatype Sheet = Sheet(defaultRow: Row, slots: seq<Row>)

  predicate WellFormed(sheet: Sheet) {
    |sheet.slots| == SlotCount
  }

  /** isValidSheet on a sheet: the default comes from sheet row 2. */
  function CheckFromSheet(sheet: Sheet): Outcome<BuildError> {
    SheetCheck(sheet.defaultRow, sheet.slots)
  }

  /** buildSourceData on a sheet as written: its default comes from sheet row 3, which is slot 1. */
  function BuildFromSheetAsWritten(sheet: Sheet): Result<seq<Entry>, BuildError>
    requires WellFormed(sheet)
  {
    SourceData(sheet.slots[0], sheet.slots)
  }

  /** buildSourceData on a sheet with its default read from sheet row 2, where the sheet keeps it. */
  function BuildFromSheet(sheet: Sheet): (r: Result<seq<Entry>, BuildError>)
    requires WellFormed(sheet)
    ensures r.Success? <==> CheckFromSheet(sheet) == Pass
    ensures r.Success? ==> |r.value| == SlotCount
    ensures r.Success? ==> forall i :: 0 <= i < SlotCount && IsEmpty(sheet.slots[i]) ==>
      r.value[i] == Entry(None, sheet.defaultRow.name, sheet.defaultRow.scope,
                          sheet.defaultRow.metricType, sheet.defaultRow.active)
  {
    var r := SourceData(sheet.defaultRow, sheet.slots);
    SheetCheckAgreesWithBuild(sheet.defaultRow, sheet.slots);
    if r.Success? then
      forall i | 0 <= i < SlotCount && IsEmpty(sheet.slots[i]) {
        EmptyRowsCopyDefault(sheet.defaultRow, sheet.slots, r.value, i);
      }
      r
    else r
  }

  /**
   * As written, a sheet that isValidSheet accepts can still fail to build:
   * with a valid default in row 2 and slot 1 empty, the build reads the empty
   * slot 1 as its default and throws.
   */
  lemma AsWrittenRejectsCheckedSheet()
    ensures var sheet := Sheet(SessionsRow, seq(SlotCount, _ => EmptyRow));
      CheckFromSheet(sheet) == Pass && BuildFromSheetAsWritten(sheet) == Failure(InvalidDefaultRow)
  {
  }

  /**
   * As written, a sheet with slot 1 filled builds, but slot 1 keeps its own id
   * while every empty slot copies slot 1 rather than the default row in sheet row 2.
   */
  lemma AsWrittenFillsFromSlotOne()
    ensures var sheet := Sheet(SessionsRow, seq(SlotCount, i => if i == 0 then RevenueRow else EmptyRow));
      var r := BuildFromSheetAsWritten(sheet);
      r.Success? && |r.value| == SlotCount && r.value[0].id == Some(MetricId(1))
      && forall i :: 1 <= i < SlotCount ==> r.value[i] == Entry(None, "Revenue", "PRODUCT", "CURRENCY", "true")
  {
    var sheet := Sheet(SessionsRow, seq(SlotCount, i => if i == 0 then RevenueRow else EmptyRow));
    assert IsValid(sheet.slots[0]);
    assert forall k :: 0 <= k < |sheet.slots| ==> !IsRejected(sheet.slots[k]);
  }
}
