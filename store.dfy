/**
 * The spreadsheet as the script sees it: one read of the whole worksheet
 * "Sayfa1" per pass, and saving as a replacement of the whole worksheet by
 * the fetched table with the new row appended.
 */
module Store {
  import opened Records

  /** What reading the worksheet gave: its rows, or the exception's text. */
  datatype ReadResult = ReadOk(rows: Table) | ReadFailed(reason: string)

  /** The table a pass works on: the rows read, or no rows when the read failed. */
  function FetchRows(r: ReadResult): Table {
    match r
    case ReadOk(rows) => rows
    case ReadFailed(_) => []
  }

  /**
   * A failed read is not fatal: the pass goes on with a table that holds no
   * row of any tank, so the detail view shows neither history rows nor the
   * "no records" notice.
   */
  lemma FailedReadShowsNoHistory(reason: string, tank: string)
    ensures History(FetchRows(ReadFailed(reason)), tank) == []
    ensures HistoryPanel(FetchRows(ReadFailed(reason)), tank) == Hidden
  {
  }

  /**
   * How the save call ended: the worksheet was replaced and the cache
   * cleared; the replace itself raised; or the replace went through and
   * clearing the cache raised afterwards.
   */
  datatype WriteOutcome = Replaced | UpdateRaised | CacheClearRaised

  /** What the save call returns: true only when both steps of its `try` completed. */
  function WriteReturns(o: WriteOutcome): bool {
    o.Replaced?
  }

  /** The worksheet after the save call tried to replace `sheet` by `upload`. */
  function SheetAfterWrite(sheet: Table, upload: Table, o: WriteOutcome): (after: Table)
    ensures WriteReturns(o) ==> after == upload
    ensures after == sheet || after == upload
  {
    if o.UpdateRaised? then sheet else upload
  }

  /** A false result does not mean nothing was written: the replace may have gone through before the cache clear raised. */
  lemma FalseResultAfterReplace(sheet: Table, upload: Table)
    ensures !WriteReturns(CacheClearRaised)
    ensures SheetAfterWrite(sheet, upload, CacheClearRaised) == upload
  {
  }

  /** The table a save uploads: the fetched table followed by the new row. */
  function Upload(fetched: Table, entry: FormEntry, tank: string, date: string): Table {
    Append(fetched, NewRow(entry, tank, date))
  }

  /** `after` is `sheet` followed by exactly one row: the new row for `tank` on `date`. */
  ghost predicate AppendedOnce(sheet: Table, after: Table, entry: FormEntry, tank: string, date: string) {
    && |after| == |sheet| + 1
    && after[..|sheet|] == sheet
    && after[|sheet|].tankId == tank && after[|sheet|].date == date
    && EntryOf(after[|sheet|]) == entry
    && History(after, tank) == History(sheet, tank) + [NewRow(entry, tank, date)]
  }

  /**
   * Saving from a good read: when the call returns true, the worksheet is the
   * old rows followed by exactly one new row for the tank and date, which ends
   * the tank's history; when the replace raised, the worksheet is as it was;
   * in every case it is one of the two.
   */
  lemma SaveOutcome(sheet: Table, entry: FormEntry, tank: string, date: string, o: WriteOutcome)
    ensures var after := SheetAfterWrite(sheet, Upload(FetchRows(ReadOk(sheet)), entry, tank, date), o);
      && (WriteReturns(o) ==> AppendedOnce(sheet, after, entry, tank, date))
      && (o.UpdateRaised? ==> after == sheet)
      && (after == sheet || AppendedOnce(sheet, after, entry, tank, date))
  {
    var row := NewRow(entry, tank, date);
    HistoryAfterAppend(sheet, row);
  }

  /** A save adds a row; it never replaces one: saving the same form twice gives two equal rows. */
  lemma SavingTwiceAddsTwoRows(sheet: Table, entry: FormEntry, tank: string, date: string)
    ensures var once := SheetAfterWrite(sheet, Upload(FetchRows(ReadOk(sheet)), entry, tank, date), Replaced);
      var twice := SheetAfterWrite(once, Upload(FetchRows(ReadOk(once)), entry, tank, date), Replaced);
      var n := |History(sheet, tank)|;
      && |twice| == |sheet| + 2
      && |History(twice, tank)| == n + 2
      && History(twice, tank)[n] == History(twice, tank)[n + 1] == NewRow(entry, tank, date)
  {
    var row := NewRow(entry, tank, date);
    HistoryAfterAppend(sheet, row);
    HistoryAfterAppend(Append(sheet, row), row);
  }

  /**
   * A save after a failed read uploads only the new row, so once the replace
   * goes through the worksheet holds that row alone, whatever it held before.
   */
  lemma SaveAfterFailedRead(sheet: Table, reason: string, entry: FormEntry, tank: string, date: string, o: WriteOutcome)
    requires !o.UpdateRaised?
    ensures SheetAfterWrite(sheet, Upload(FetchRows(ReadFailed(reason)), entry, tank, date), o)
            == [NewRow(entry, tank, date)]
  {
  }
}
