/**
 * The shaping rules of `write_sheet` (main.py:124-165), on column names,
 * column kinds and cells: the listed columns that exist are dropped, the
 * first numeric column named after a cost, revenue, weight or value sorts
 * the rows in descending order, and each column gets a width and a format.
 */
module Report {
  import opened Wrappers
  import opened Sequences
  import Text
  import opened Cells

  /** The pandas dtype of a column, as far as `write_sheet` asks about it. */
  datatype Kind = Numeric | Temporal | Textual

  datatype Column = Column(name: string, kind: Kind)

  /** A frame: its columns and its rows, the cell of column `j` at position `j`. */
  datatype Frame = Frame(columns: seq<Column>, rows: seq<seq<Option<Cell>>>)

  /** main.py:21-26, including the adjacent literals that Python joins into one name. */
  const IGNORED_COLUMNS: seq<string> := [
    "HS Code Description", "Importer Address", "Importer Contact", "Exporter Address",
    "Exporter ContactPackaging type",
    "Number of packages", "Package unit", "TEU", "Freight fee", "Insurance fee",
    "Loading Place", "Unloading Place", "Customs", "incoterms", "Carrier", "VOCC",
    "Vessel Name", "Voyage", "House Bill Number", "Customs Declaration Number"]

  // ----- dropping columns (main.py:125-126) -----------------------------------------

  /** The positions of the columns whose name is not listed in `drop`, in order. */
  function KeptIndices(cols: seq<Column>, drop: seq<string>): (ix: seq<nat>)
    ensures forall k :: 0 <= k < |ix| ==> ix[k] < |cols| && cols[ix[k]].name !in drop
    ensures forall j :: 0 <= j < |cols| && cols[j].name !in drop ==> j in ix
    ensures forall a, b :: 0 <= a < b < |ix| ==> ix[a] < ix[b]
    decreases |cols|
  {
    if cols == [] then []
    else
      var n := |cols| - 1;
      KeptIndices(cols[..n], drop) + (if cols[n].name !in drop then [n] else [])
  }

  /**
   * `df.drop(columns=[col for col in drop if col in df.columns])`: every
   * column whose name is listed goes, and a listed name no column has is
   * ignored.
   */
  function DropColumns(f: Frame, drop: seq<string>): Frame
  {
    var ix := KeptIndices(f.columns, drop);
    Frame(seq(|ix|, k requires 0 <= k < |ix| => f.columns[ix[k]]),
          seq(|f.rows|, i requires 0 <= i < |f.rows| => seq(|ix|, k requires 0 <= k < |ix| => CellAt(f.rows[i], ix[k]))))
  }

  /**
   * Dropping keeps exactly the columns whose name is not listed, in their
   * order, each with its own cells; the rows keep their order.
   */
  lemma DropColumnsKeeps(f: Frame, drop: seq<string>)
    ensures forall c :: c in DropColumns(f, drop).columns <==> c in f.columns && c.name !in drop
    ensures |DropColumns(f, drop).rows| == |f.rows|
    ensures var ix := KeptIndices(f.columns, drop);
      && |DropColumns(f, drop).columns| == |ix|
      && (forall k :: 0 <= k < |ix| ==> DropColumns(f, drop).columns[k] == f.columns[ix[k]])
      && (forall i, k :: 0 <= i < |f.rows| && 0 <= k < |ix| ==> DropColumns(f, drop).rows[i][k] == CellAt(f.rows[i], ix[k]))
      && (forall a, b :: 0 <= a < b < |ix| ==> ix[a] < ix[b])
  {
    var ix := KeptIndices(f.columns, drop);
    var g := DropColumns(f, drop);
    forall c | c in f.columns && c.name !in drop
      ensures c in g.columns
    {
      var j :| 0 <= j < |f.columns| && f.columns[j] == c;
      var k :| 0 <= k < |ix| && ix[k] == j;
      assert g.columns[k] == c;
    }
  }

  /** When no column carries a listed name, dropping changes no column. */
  lemma DropNothing(f: Frame, drop: seq<string>)
    requires forall j :: 0 <= j < |f.columns| ==> f.columns[j].name !in drop
    ensures DropColumns(f, drop).columns == f.columns
  {
    KeptAll(f.columns, drop);
  }

  /** Every position is kept when no column carries a listed name. */
  lemma {:induction false} KeptAll(cols: seq<Column>, drop: seq<string>)
    requires forall j :: 0 <= j < |cols| ==> cols[j].name !in drop
    ensures |KeptIndices(cols, drop)| == |cols|
    ensures forall k :: 0 <= k < |cols| ==> KeptIndices(cols, drop)[k] == k
    decreases |cols|
  {
    if cols != [] {
      KeptAll(cols[..|cols| - 1], drop);
    }
  }

  // ----- the sort column (main.py:128-138) -----------------------------------------

  /** One of the words that mark an amount (main.py:131 and 161) occurs in the lower-cased name. */
  predicate NamesAmount(name: string)
  {
    var l := Text.Lower(name);
    Text.Contains(l, "cost") || Text.Contains(l, "revenue") || Text.Contains(l, "weight") || Text.Contains(l, "value")
  }

  /** A column that can sort the sheet: an amount name on a numeric column. */
  predicate Sorts(c: Column)
  {
    c.kind == Numeric && NamesAmount(c.name)
  }

  function FirstSorting(cols: seq<Column>, from: nat): (r: Option<nat>)
    requires from <= |cols|
    ensures r.Some? ==> from <= r.value < |cols| && Sorts(cols[r.value])
                        && forall j :: from <= j < r.value ==> !Sorts(cols[j])
    ensures r.None? ==> forall j :: from <= j < |cols| ==> !Sorts(cols[j])
    decreases |cols| - from
  {
    if from == |cols| then None
    else if Sorts(cols[from]) then Some(from)
    else FirstSorting(cols, from + 1)
  }

  /** `next(col for col in columns if ...; None)`: the first column that sorts, if any. */
  function SortColumn(cols: seq<Column>): (r: Option<nat>)
    ensures r.Some? ==> r.value < |cols| && Sorts(cols[r.value]) && forall j :: 0 <= j < r.value ==> !Sorts(cols[j])
    ensures r.None? <==> forall j :: 0 <= j < |cols| ==> !Sorts(cols[j])
  {
    FirstSorting(cols, 0)
  }

  // ----- sorting in descending order --------------------------------------------------

  /** The number in a cell; anything else (NaN) sorts last. */
  function NumKey(c: Option<Cell>): Option<int>
  {
    match c
    case Some(Int(n)) => Some(n)
    case _ => None
  }

  /** `a` may come before `b` in a descending order with missing values last. */
  predicate DescOk(a: Option<int>, b: Option<int>)
  {
    b.None? || (a.Some? && a.value >= b.value)
  }

  function Key(row: seq<Option<Cell>>, j: nat): Option<int>
  {
    NumKey(CellAt(row, j))
  }

  predicate SortedDesc(rows: seq<seq<Option<Cell>>>, j: nat)
  {
    forall p, q :: 0 <= p < q < |rows| ==> DescOk(Key(rows[p], j), Key(rows[q], j))
  }

  function InsertDesc(x: seq<Option<Cell>>, rows: seq<seq<Option<Cell>>>, j: nat): (r: seq<seq<Option<Cell>>>)
    ensures multiset(r) == multiset(rows) + multiset{x}
    decreases |rows|
  {
    if rows == [] then [x]
    else if DescOk(Key(x, j), Key(rows[0], j)) then [x] + rows
    else
      assert rows == [rows[0]] + rows[1..];
      [rows[0]] + InsertDesc(x, rows[1..], j)
  }

  lemma {:induction false} InsertDescSorted(x: seq<Option<Cell>>, rows: seq<seq<Option<Cell>>>, j: nat)
    requires SortedDesc(rows, j)
    ensures SortedDesc(InsertDesc(x, rows, j), j)
    decreases |rows|
  {
    if rows != [] && !DescOk(Key(x, j), Key(rows[0], j)) {
      var rest := InsertDesc(x, rows[1..], j);
      InsertDescSorted(x, rows[1..], j);
      forall q | 0 <= q < |rest|
        ensures DescOk(Key(rows[0], j), Key(rest[q], j))
      {
        assert rest[q] in multiset(rest);
        if rest[q] != x {
          assert rest[q] in rows[1..];
          var t :| 0 <= t < |rows[1..]| && rows[1..][t] == rest[q];
          assert rows[t + 1] == rest[q];
        }
      }
      var r := [rows[0]] + rest;
      assert forall p, q :: 0 < p < q < |r| ==> r[p] == rest[p - 1] && r[q] == rest[q - 1];
    }
  }

  /** `sort_values(by=column, ascending=False)`; missing values go last. */
  function SortDesc(rows: seq<seq<Option<Cell>>>, j: nat): (r: seq<seq<Option<Cell>>>)
    ensures SortedDesc(r, j)
    ensures multiset(r) == multiset(rows)
    decreases |rows|
  {
    if rows == [] then []
    else
      assert rows == [rows[0]] + rows[1..];
      InsertDescSorted(rows[0], SortDesc(rows[1..], j), j);
      InsertDesc(rows[0], SortDesc(rows[1..], j), j)
  }

  /** main.py:125-138: drop the listed columns when a list is given, then sort by the sort column if there is one. */
  function Shape(f: Frame, drop: seq<string>): Frame
  {
    var g := if drop != [] then DropColumns(f, drop) else f;
    match SortColumn(g.columns)
    case None => g
    case Some(j) => Frame(g.columns, SortDesc(g.rows, j))
  }

  /**
   * Shaping keeps the columns left after dropping and the same rows; when a
   * sort column exists the rows are in descending order of it, otherwise
   * they keep their order.
   */
  lemma ShapeRows(f: Frame, drop: seq<string>)
    ensures var g := if drop != [] then DropColumns(f, drop) else f;
      && Shape(f, drop).columns == g.columns
      && multiset(Shape(f, drop).rows) == multiset(g.rows)
      && (SortColumn(g.columns).Some? ==> SortedDesc(Shape(f, drop).rows, SortColumn(g.columns).value))
      && (SortColumn(g.columns).None? ==> Shape(f, drop).rows == g.rows)
  {
  }

  // ----- widths and formats (main.py:148-165) ------------------------------------------

  function Max(a: int, b: int): int
  {
    if a >= b then a else b
  }

  /** The cells of column `j`. */
  function ColumnCells(f: Frame, j: nat): (cells: seq<Option<Cell>>)
    ensures |cells| == |f.rows| && forall i :: 0 <= i < |f.rows| ==> cells[i] == CellAt(f.rows[i], j)
  {
    seq(|f.rows|, i requires 0 <= i < |f.rows| => CellAt(f.rows[i], j))
  }

  /** `isnull().all()`; true of an empty column. */
  predicate AllNull(cells: seq<Option<Cell>>)
  {
    forall i :: 0 <= i < |cells| ==> cells[i].None?
  }

  /** `astype(str).map(len).max()`: the length of the longest cell text. */
  function LongestText(cells: seq<Option<Cell>>): nat
    decreases |cells|
  {
    if cells == [] then 0
    else Max(LongestText(cells[..|cells| - 1]), |Show(cells[|cells| - 1])|)
  }

  /** The longest text is at least as long as every cell's text, and is some cell's length. */
  lemma {:induction false} LongestTextIs(cells: seq<Option<Cell>>)
    ensures forall i :: 0 <= i < |cells| ==> |Show(cells[i])| <= LongestText(cells)
    ensures cells != [] ==> exists i :: 0 <= i < |cells| && |Show(cells[i])| == LongestText(cells)
    decreases |cells|
  {
    if cells != [] {
      var init := cells[..|cells| - 1];
      LongestTextIs(init);
      assert forall i :: 0 <= i < |init| ==> init[i] == cells[i];
      var n := |Show(cells[|cells| - 1])|;
      if init != [] && n < LongestText(init) {
        var i :| 0 <= i < |init| && |Show(init[i])| == LongestText(init);
        assert |Show(cells[i])| == LongestText(cells);
      }
    }
  }

  /** main.py:151-154. */
  function Width(name: string, cells: seq<Option<Cell>>): nat
  {
    Max(if AllNull(cells) then 10 else LongestText(cells), |name|) + 5
  }

  datatype Format = DateFormat | NumberFormat | General

  /** What `set_column` receives for one column. */
  datatype Setting = Setting(width: nat, format: Format)

  /** main.py:158-165: dates get five more characters and a date format, amounts a number format. */
  function SettingOf(col: Column, cells: seq<Option<Cell>>): Setting
  {
    var w := Width(col.name, cells);
    if col.kind == Temporal then Setting(w + 5, DateFormat)
    else if Sorts(col) then Setting(w, NumberFormat)
    else Setting(w, General)
  }

  /**
   * The width is five more than the longer of the header and the longest
   * cell text (10 when every cell is missing), five more again for dates;
   * the format follows the column's kind and name.
   */
  lemma SettingBounds(col: Column, cells: seq<Option<Cell>>)
    ensures var s := SettingOf(col, cells);
      var extra := if col.kind == Temporal then 10 else 5;
      && s.width >= |col.name| + extra
      && (AllNull(cells) ==> s.width == Max(10, |col.name|) + extra)
      && (!AllNull(cells) ==> forall i :: 0 <= i < |cells| ==> s.width >= |Show(cells[i])| + extra)
      && (!AllNull(cells) ==> s.width == |col.name| + extra || exists i :: 0 <= i < |cells| && s.width == |Show(cells[i])| + extra)
      && (s.format == DateFormat <==> col.kind == Temporal)
      && (s.format == NumberFormat <==> Sorts(col))
  {
    LongestTextIs(cells);
    if !AllNull(cells) {
      assert cells != [];
    }
  }

  /** `astype(str).map(len).max()` and `isnull().all()` of one column, in one pass. */
  method ScanColumn(cells: seq<Option<Cell>>) returns (longest: nat, allNull: bool)
    ensures longest == LongestText(cells)
    ensures allNull == AllNull(cells)
  {
    longest, allNull := 0, true;
    for i := 0 to |cells|
      invariant longest == LongestText(cells[..i])
      invariant allNull == AllNull(cells[..i])
    {
      assert cells[..i + 1][..i] == cells[..i];
      longest := Max(longest, |Show(cells[i])|);
      if cells[i].Some? {
        allNull := false;
      }
    }
    assert cells[..|cells|] == cells;
  }

  /** The setting of one column, from its scan. */
  method ColumnSetting(col: Column, cells: seq<Option<Cell>>) returns (s: Setting)
    ensures s == SettingOf(col, cells)
  {
    var longest, allNull := ScanColumn(cells);
    var width := Max(if allNull then 10 else longest, |col.name|) + 5;
    if col.kind == Temporal {
      s := Setting(width + 5, DateFormat);
    } else if Sorts(col) {
      s := Setting(width, NumberFormat);
    } else {
      s := Setting(width, General);
    }
  }

  /** The loop of main.py:148-165: one setting per column, in column order. */
  method ColumnSettings(f: Frame) returns (settings: seq<Setting>)
    ensures |settings| == |f.columns|
    ensures forall j :: 0 <= j < |f.columns| ==> settings[j] == SettingOf(f.columns[j], ColumnCells(f, j))
  {
    settings := [];
    for j := 0 to |f.columns|
      invariant |settings| == j
      invariant forall k :: 0 <= k < j ==> settings[k] == SettingOf(f.columns[k], ColumnCells(f, k))
    {
      var s := ColumnSetting(f.columns[j], ColumnCells(f, j));
      settings := settings + [s];
    }
  }

  /** One written sheet: its name, its frame as written, and the setting of each column. */
  datatype Sheet = Sheet(name: string, frame: Frame, settings: seq<Setting>)

  /** `sheet` is what `write_sheet(f, name, drop)` writes. */
  predicate Written(sheet: Sheet, name: string, f: Frame, drop: seq<string>)
  {
    && sheet.name == name
    && sheet.frame == Shape(f, drop)
    && |sheet.settings| == |sheet.frame.columns|
    && forall j :: 0 <= j < |sheet.frame.columns| ==>
         sheet.settings[j] == SettingOf(sheet.frame.columns[j], ColumnCells(sheet.frame, j))
  }

  /** `write_sheet(df_sheet, sheet_name, drop_columns)`. */
  method WriteSheet(f: Frame, name: string, drop: seq<string>) returns (sheet: Sheet)
    ensures Written(sheet, name, f, drop)
  {
    var g := Shape(f, drop);
    var settings := ColumnSettings(g);
    sheet := Sheet(name, g, settings);
  }
}
