/**
 * scripts/update-google-sheets.js: the header check and the row building
 * of the spreadsheet update. Each `dailyHistory` day becomes a 19-cell row,
 * which is appended when the day's date is not yet in column A and written
 * over its old row otherwise. The Sheets API reads are inputs (the values
 * of `A1:S1` and of `A:A`) and its writes are the returned requests.
 */
module Sheets {
  import opened Wrappers
  import opened Strings
  import opened Seqs

  /** `SHEET_NAME`. */
  const SheetName: string := "AI予想実績"

  /** The 19 column headers of `createHeaderRow`. */
  const Headers: seq<string> := [
    "日付", "レース数", "単勝的中率", "複勝的中率", "3連複的中率", "3連単的中率",
    "単勝回収率", "複勝回収率", "3連複回収率", "3連単回収率",
    "単勝投資額", "単勝払戻", "複勝投資額", "複勝払戻", "3連複投資額", "3連複払戻",
    "3連単投資額", "3連単払戻", "更新日時"]

  /** The header row to write: only when `A1:S1` came back without values. */
  function HeaderWrite(values: Option<seq<seq<string>>>): (w: Option<seq<string>>)
    ensures w.Some? <==> values.None? || values.value == []
    ensures w.Some? ==> w.value == Headers
  {
    if values.None? || values.value == [] then Some(Headers) else None
  }

  /** The columns A to S, one per header. */
  lemma HeadersFillColumns()
    ensures |Headers| == ('S' as int - 'A' as int) + 1
  {
  }

  // ---------------------------------------------------------------- rows

  /** One bet type's part of `actualRecovery`. */
  datatype BetRecovery = BetRecovery(recoveryRate: real, totalInvestment: int, totalPayout: int)

  /** `actualRecovery`: the four bet types. */
  datatype Recovery = Recovery(win: BetRecovery, place: BetRecovery, trifecta: BetRecovery, trio: BetRecovery)

  /** The fields of a `dailyHistory` day that the row shows. */
  datatype Day = Day(
    date: string,
    totalRaces: nat,
    topPickHitRate: real,
    topPickPlaceRate: real,
    top3HitRate: real,
    top3IncludedRate: real,
    actualRecovery: Option<Recovery>)

  /** A cell value: a string, a number, or a rate shown as
      `(rate * 100).toFixed(2) + '%'`. */
  datatype Cell = Text(text: string) | Num(n: int) | Percent(rate: real)

  /** The placeholder of the recovery cells of a day without `actualRecovery`. */
  const NA: Cell := Text("N/A")

  /** The twelve recovery cells (columns G to R): four rates, then investment
      and payout per bet type. */
  function RecoveryCells(r: Option<Recovery>): (cs: seq<Cell>)
    ensures |cs| == 12
    ensures r.None? ==> forall k :: 0 <= k < 12 ==> cs[k] == NA
  {
    match r
    case None => [NA, NA, NA, NA, NA, NA, NA, NA, NA, NA, NA, NA]
    case Some(a) =>
      [Percent(a.win.recoveryRate), Percent(a.place.recoveryRate),
       Percent(a.trifecta.recoveryRate), Percent(a.trio.recoveryRate),
       Num(a.win.totalInvestment), Num(a.win.totalPayout),
       Num(a.place.totalInvestment), Num(a.place.totalPayout),
       Num(a.trifecta.totalInvestment), Num(a.trifecta.totalPayout),
       Num(a.trio.totalInvestment), Num(a.trio.totalPayout)]
  }

  /** `rowData`: date, race count, four hit rates, the recovery cells, and
      the time of the run `now`. */
  function RowData(day: Day, now: string): (row: seq<Cell>)
  {
    [Text(day.date), Num(day.totalRaces),
     Percent(day.topPickHitRate), Percent(day.topPickPlaceRate),
     Percent(day.top3HitRate), Percent(day.top3IncludedRate)]
    + RecoveryCells(day.actualRecovery) + [Text(now)]
  }

  /** A row has one cell per header; it starts with the date and ends with
      the time; without `actualRecovery` the cells 6 to 17 (columns G to R)
      are `N/A`, and with it none of them is. */
  lemma RowDataSpec(day: Day, now: string)
    ensures |RowData(day, now)| == |Headers|
    ensures RowData(day, now)[0] == Text(day.date) && RowData(day, now)[18] == Text(now)
    ensures day.actualRecovery.None? <==> forall k :: 6 <= k < 18 ==> RowData(day, now)[k] == NA
  {
    var row := RowData(day, now);
    var rc := RecoveryCells(day.actualRecovery);
    assert forall k :: 6 <= k < 18 ==> row[k] == rc[k - 6];
    if day.actualRecovery.Some? {
      assert row[6] != NA;
    }
  }

  // ---------------------------------------------------------------- partition

  /** `response.data.values.slice(1).map(row => row[0])`: column A below
      the header; an empty row has no first cell (`undefined`). */
  function ExistingDates(values: Option<seq<seq<string>>>): (r: seq<Option<string>>)
    ensures values.Some? && values.value != [] ==> |r| == |values.value| - 1
    ensures values.None? || values.value == [] ==> r == []
  {
    if values.None? || values.value == [] then []
    else Map(values.value[1..], (row: seq<string>) => if row == [] then None else Some(row[0]))
  }

  /** `existingDates.indexOf(date)`: the first position holding the date, or -1. */
  function IndexOfDate(existing: seq<Option<string>>, date: string): (k: int)
    ensures -1 <= k < |existing|
    ensures k == -1 <==> Some(date) !in existing
    ensures k >= 0 ==> existing[k] == Some(date) && forall j :: 0 <= j < k ==> existing[j] != Some(date)
  {
    if existing == [] then -1
    else if existing[0] == Some(date) then 0
    else
      var k := IndexOfDate(existing[1..], date);
      assert existing == [existing[0]] + existing[1..];
      if k == -1 then -1 else k + 1
  }

  /** An update request: the range of one row and its values. */
  datatype Update = Update(range: string, values: seq<seq<Cell>>)

  /** `${SHEET_NAME}!A${rowNumber}:S${rowNumber}`. */
  function RowRange(rowNumber: nat): string
  {
    SheetName + "!A" + NatToString(rowNumber) + ":S" + NatToString(rowNumber)
  }

  /** A day whose date is not in column A yet. */
  function IsNew(existing: seq<Option<string>>): Day -> bool
  {
    (day: Day) => IndexOfDate(existing, day.date) == -1
  }

  /** A day whose date is already in column A. */
  function IsKnown(existing: seq<Option<string>>): Day -> bool
  {
    (day: Day) => IndexOfDate(existing, day.date) != -1
  }

  /** The row of a new day. */
  function AppendRow(now: string): Day -> seq<Cell>
  {
    (day: Day) => RowData(day, now)
  }

  /** The update of a known day: its row goes to the row after the header that holds its date. */
  function UpdateOf(existing: seq<Option<string>>, now: string): Day --> Update
  {
    (day: Day) requires IndexOfDate(existing, day.date) != -1 =>
      Update(RowRange(IndexOfDate(existing, day.date) + 2), [RowData(day, now)])
  }

  /** `rowsToAppend`. */
  function RowsToAppend(existing: seq<Option<string>>, days: seq<Day>, now: string): seq<seq<Cell>>
  {
    FilterMap(days, IsNew(existing), AppendRow(now))
  }

  /** `rowsToUpdate`. */
  function RowsToUpdate(existing: seq<Option<string>>, days: seq<Day>, now: string): seq<Update>
  {
    FilterMap(days, IsKnown(existing), UpdateOf(existing, now))
  }

  /** The loop over `dailyHistory` that fills the two lists. */
  method UpdateSpreadsheet(values: Option<seq<seq<string>>>, days: seq<Day>, now: string)
    returns (rowsToAppend: seq<seq<Cell>>, rowsToUpdate: seq<Update>)
    ensures rowsToAppend == RowsToAppend(ExistingDates(values), days, now)
    ensures rowsToUpdate == RowsToUpdate(ExistingDates(values), days, now)
  {
    var existingDates := ExistingDates(values);
    rowsToAppend, rowsToUpdate := [], [];
    for i := 0 to |days|
      invariant rowsToAppend == RowsToAppend(existingDates, days[..i], now)
      invariant rowsToUpdate == RowsToUpdate(existingDates, days[..i], now)
    {
      assert days[..i + 1][..i] == days[..i];
      var day := days[i];
      var rowData := RowData(day, now);
      var existingIndex := IndexOfDate(existingDates, day.date);
      if existingIndex == -1 {
        rowsToAppend := rowsToAppend + [rowData];
      } else {
        var rowNumber := existingIndex + 2;
        rowsToUpdate := rowsToUpdate + [Update(RowRange(rowNumber), [rowData])];
      }
    }
    assert days[..|days|] == days;
  }

  lemma {:induction false} PartitionSizes(existing: seq<Option<string>>, days: seq<Day>, now: string)
    ensures |RowsToAppend(existing, days, now)| + |RowsToUpdate(existing, days, now)| == |days|
  {
    if days != [] {
      PartitionSizes(existing, days[..|days| - 1], now);
    }
  }

  /** Every day lands in exactly one list: the appended rows are those of the
      days whose date is absent, the updates those of the days whose date is
      present, and together they are as many as the days. */
  lemma Partition(existing: seq<Option<string>>, days: seq<Day>, now: string)
    ensures |RowsToAppend(existing, days, now)| + |RowsToUpdate(existing, days, now)| == |days|
    ensures forall row :: row in RowsToAppend(existing, days, now) <==>
      exists k :: 0 <= k < |days| && Some(days[k].date) !in existing && row == RowData(days[k], now)
    ensures forall u :: u in RowsToUpdate(existing, days, now) <==>
      exists k :: 0 <= k < |days| && Some(days[k].date) in existing && u == UpdateOf(existing, now)(days[k])
  {
    PartitionSizes(existing, days, now);
    FilterMapMembers(days, IsNew(existing), AppendRow(now));
    FilterMapMembers(days, IsKnown(existing), UpdateOf(existing, now));
  }

  /** An update goes to the first row below the header whose column A is the
      day's date: row number index + 2, range `A{n}:S{n}`. */
  lemma UpdateTargetsMatchingRow(existing: seq<Option<string>>, day: Day, now: string)
    requires Some(day.date) in existing
    ensures var n := IndexOfDate(existing, day.date) + 2;
      UpdateOf(existing, now)(day) == Update(RowRange(n), [RowData(day, now)])
      && 2 <= n <= |existing| + 1 && existing[n - 2] == Some(day.date)
      && forall j :: 0 <= j < n - 2 ==> existing[j] != Some(day.date)
  {
  }

  /** The row of an existing date is found at its line of the sheet: index k
      of column A below the header is sheet row k + 2. */
  lemma ExistingDatesRows(values: Option<seq<seq<string>>>, k: nat)
    requires values.Some? && k + 1 < |values.value| && values.value[k + 1] != []
    ensures ExistingDates(values)[k] == Some(values.value[k + 1][0])
  {
    var f := (row: seq<string>) => if row == [] then None else Some(row[0]);
    MapAt(values.value[1..], f);
  }

  /** The appended rows keep the order of the new days: the i-th appended row
      belongs to the i-th new day. */
  lemma AppendsInOrder(existing: seq<Option<string>>, days: seq<Day>, now: string)
    ensures RowsToAppend(existing, days, now) == Map(Filter(days, IsNew(existing)), AppendRow(now))
  {
    FilterMapIsMapOfFilter(days, IsNew(existing), AppendRow(now));
  }
}
