/**
 * Observation records and the table they form: building the new row from
 * the form, appending it to the fetched table, and the per-tank history
 * shown under the form.
 */
module Records {

  /**
   * One row of the sheet, column by column: "Tarih", "Tank ID", "Tür",
   * "Sıcaklık", "pH", "Tuzluluk", "Oksijen", "Işık", "Yemleme", "Gözlemler".
   * The measurements are copied values; nothing here computes with them.
   */
  datatype Record = Record(
    date: string,
    tankId: string,
    species: string,
    temperature: real,
    ph: real,
    salinity: real,
    oxygen: real,
    light: int,
    feeding: string,
    observations: string)

  /** The sheet as fetched or written: rows in insertion order. */
  type Table = seq<Record>

  /** What the detail form collects, everything of a row but its date and tank. */
  datatype FormEntry = FormEntry(
    species: string,
    temperature: real,
    ph: real,
    salinity: real,
    oxygen: real,
    light: int,
    feeding: string,
    observations: string)

  /** The species selectbox, first choice preselected. */
  const SpeciesChoices: seq<string> := ["Çipura", "Levrek"]

  /** The form as first shown: the widgets' default values. */
  const DefaultEntry: FormEntry := FormEntry(SpeciesChoices[0], 17.0, 8.0, 25.0, 8.0, 500, "", "")

  /** The form part of a row. */
  function EntryOf(row: Record): FormEntry {
    FormEntry(row.species, row.temperature, row.ph, row.salinity, row.oxygen,
              row.light, row.feeding, row.observations)
  }

  /** The row saved for `tank` on `date` from the submitted form. */
  function NewRow(entry: FormEntry, tank: string, date: string): (row: Record)
    ensures row.date == date && row.tankId == tank
    ensures EntryOf(row) == entry
  {
    Record(date, tank, entry.species, entry.temperature, entry.ph, entry.salinity,
           entry.oxygen, entry.light, entry.feeding, entry.observations)
  }

  /** A row is fully determined by its date, tank and form part. */
  lemma RowFromParts(row: Record)
    ensures NewRow(EntryOf(row), row.tankId, row.date) == row
  {
  }

  /** The table with one more row at its end. */
  function Append(t: Table, row: Record): (r: Table)
    ensures |r| == |t| + 1
    ensures r[..|t|] == t && r[|t|] == row
  {
    t + [row]
  }

  /** The rows whose "Tank ID" is `tank`, in table order. */
  function History(t: Table, tank: string): (h: Table)
    ensures |h| <= |t|
    ensures forall k :: 0 <= k < |h| ==> h[k].tankId == tank
    ensures multiset(h) <= multiset(t)
    decreases |t|
  {
    if t == [] then []
    else
      assert t == [t[0]] + t[1..];
      (if t[0].tankId == tank then [t[0]] else []) + History(t[1..], tank)
  }

  /** Filtering a concatenation filters each part. */
  lemma {:induction false} HistoryConcat(a: Table, b: Table, tank: string)
    ensures History(a + b, tank) == History(a, tank) + History(b, tank)
    decreases |a|
  {
    if a == [] {
      assert a + b == b;
    } else {
      assert (a + b)[0] == a[0];
      assert (a + b)[1..] == a[1..] + b;
      HistoryConcat(a[1..], b, tank);
    }
  }

  /** The history is empty exactly when no row belongs to the tank. */
  lemma {:induction false} HistoryEmptyIff(t: Table, tank: string)
    ensures History(t, tank) == [] <==> forall i :: 0 <= i < |t| ==> t[i].tankId != tank
    decreases |t|
  {
    if t != [] {
      HistoryEmptyIff(t[1..], tank);
      assert forall i :: 1 <= i < |t| ==> t[i] == t[1..][i - 1];
    }
  }

  /** The history of a one-row table: that row, if it belongs to the tank. */
  lemma HistorySingle(row: Record, tank: string)
    ensures History([row], tank) == if row.tankId == tank then [row] else []
  {
    var t := [row];
    assert t[1..] == [];
    assert History(t[1..], tank) == [];
  }

  /** After appending a row, its tank's history is the old one followed by that row. */
  lemma HistoryAfterAppend(t: Table, row: Record)
    ensures History(Append(t, row), row.tankId) == History(t, row.tankId) + [row]
    ensures History(Append(t, row), row.tankId)[|History(t, row.tankId)|] == row
  {
    HistoryConcat(t, [row], row.tankId);
    HistorySingle(row, row.tankId);
  }

  /** Appending a row leaves every other tank's history as it was. */
  lemma HistoryAfterAppendOther(t: Table, row: Record, tank: string)
    requires tank != row.tankId
    ensures History(Append(t, row), tank) == History(t, tank)
  {
    HistoryConcat(t, [row], tank);
    HistorySingle(row, tank);
  }

  /** Every index shifted one place up. */
  function Shift(idx: seq<int>): (r: seq<int>)
    ensures |r| == |idx| && forall k :: 0 <= k < |idx| ==> r[k] == idx[k] + 1
  {
    seq(|idx|, k requires 0 <= k < |idx| => idx[k] + 1)
  }

  /** The positions of the rows belonging to `tank`, ascending: the boolean mask as indices. */
  function MatchIndices(t: Table, tank: string): seq<int>
    decreases |t|
  {
    if t == [] then []
    else (if t[0].tankId == tank then [0] else []) + Shift(MatchIndices(t[1..], tank))
  }

  /** `h` is the rows of `t` at the strictly ascending positions `idx`. */
  ghost predicate Picks(t: Table, idx: seq<int>, h: Table) {
    && |idx| == |h|
    && (forall k :: 0 <= k < |idx| ==> 0 <= idx[k] < |t| && t[idx[k]] == h[k])
    && (forall j, k :: 0 <= j < k < |idx| ==> idx[j] < idx[k])
  }

  /** Putting one row in front: a pick of the rest, shifted, possibly preceded by position 0. */
  lemma PicksCons(x: Record, rest: Table, hit: bool, inner: seq<int>, innerRows: Table)
    requires Picks(rest, inner, innerRows)
    ensures Picks([x] + rest, (if hit then [0] else []) + Shift(inner),
                  (if hit then [x] else []) + innerRows)
  {
    var t := [x] + rest;
    var idx := (if hit then [0] else []) + Shift(inner);
    var h := (if hit then [x] else []) + innerRows;
    var off := if hit then 1 else 0;
    forall k | off <= k < |idx|
      ensures idx[k] == inner[k - off] + 1 && h[k] == innerRows[k - off]
    {
    }
    forall k | 0 <= k < |idx|
      ensures 0 <= idx[k] < |t| && t[idx[k]] == h[k]
    {
      if k >= off {
        assert t[idx[k]] == rest[inner[k - off]];
      }
    }
  }

  /** Position i + 1 is picked after the shift exactly when i was picked before. */
  lemma ShiftMembership(hit: bool, inner: seq<int>, i: int)
    requires forall k :: 0 <= k < |inner| ==> 0 <= inner[k]
    ensures 0 in (if hit then [0] else []) + Shift(inner) <==> hit
    ensures 0 <= i ==> (i + 1 in (if hit then [0] else []) + Shift(inner) <==> i in inner)
  {
    var shifted := Shift(inner);
    var idx := (if hit then [0] else []) + shifted;
    assert 0 !in shifted;
    if i in inner {
      var k :| 0 <= k < |inner| && inner[k] == i;
      assert shifted[k] == i + 1;
    }
    if 0 <= i && i + 1 in shifted {
      var k :| 0 <= k < |shifted| && shifted[k] == i + 1;
      assert inner[k] == i;
    }
  }

  /**
   * The history is exactly the subsequence of rows whose "Tank ID" is `tank`:
   * it picks rows at ascending positions, and a position is picked if and
   * only if its row belongs to the tank.
   */
  lemma {:induction false} HistoryIsMaskedRows(t: Table, tank: string)
    ensures Picks(t, MatchIndices(t, tank), History(t, tank))
    ensures forall i :: 0 <= i < |t| ==> (i in MatchIndices(t, tank) <==> t[i].tankId == tank)
    decreases |t|
  {
    if t != [] {
      var rest := t[1..];
      HistoryIsMaskedRows(rest, tank);
      var inner := MatchIndices(rest, tank);
      var hit := t[0].tankId == tank;
      assert t == [t[0]] + rest;
      PicksCons(t[0], rest, hit, inner, History(rest, tank));
      forall i | 0 <= i < |t|
        ensures i in MatchIndices(t, tank) <==> t[i].tankId == tank
      {
        ShiftMembership(hit, inner, i - 1);
        if i > 0 {
          assert t[i] == rest[i - 1];
        }
      }
    }
  }

  /** What the detail screen shows under the form. */
  datatype HistoryView =
    | Hidden           // the fetched table is empty: no rows and no notice under the heading
    | NoRecords        // the table has rows but none for this tank: a notice
    | Rows(rows: Table)  // the tank's rows, as a table

  /** The history section for `tank` over the fetched table. */
  function HistoryPanel(t: Table, tank: string): (v: HistoryView)
    ensures v.Hidden? <==> t == []
    ensures v.NoRecords? <==> t != [] && forall i :: 0 <= i < |t| ==> t[i].tankId != tank
    ensures v.Rows? ==> v.rows == History(t, tank) && v.rows != []
  {
    HistoryEmptyIff(t, tank);
    if t == [] then Hidden
    else
      var h := History(t, tank);
      if h == [] then NoRecords else Rows(h)
  }
}
