/**
 * The ingestion loop (main.py:50-76): each uploaded workbook is read with
 * its first row skipped, the leading index column is dropped, and the file
 * is skipped when it holds no data or lacks a required column; the files
 * that pass are tagged with their name and concatenated in upload order.
 */
module Ingest {
  import opened Wrappers
  import opened Sequences
  import Text
  import opened Cells

  /** The columns every file must have (main.py:16-19). */
  const REQUIRED_COLUMNS: seq<string> :=
    ["Importer", "Date", "Master Bill Number", "Quantity", "Value(USD)", "Unit Price(USD)", "Description"]

  /** A header cell: a text, or another kind of value (a number, a date) that has no `strip`. */
  datatype Label = Name(text: string) | NonText

  /** A worksheet as `pd.read_excel(file, header=1)` returns it: the header and the data rows. */
  datatype Sheet = Sheet(header: seq<Label>, rows: seq<seq<Option<Cell>>>)

  /** An uploaded file: its name, and its worksheet or `None` when reading it raised. */
  datatype Upload = Upload(name: string, sheet: Option<Sheet>)

  /** A file that passed: its name (the `source_file` column), its stripped column names, its rows. */
  datatype Table = Table(source: string, columns: seq<string>, rows: seq<seq<Option<Cell>>>)

  /** What the loop does with one file. */
  datatype Verdict =
    | Accepted(table: Table)
    | SkippedEmpty                          // st.warning: "is empty and was skipped"
    | SkippedMissing(missing: seq<string>)  // st.warning: "is missing required columns"
    | SkippedError                          // st.error: the except branch

  function Tail<T>(s: seq<T>): seq<T>
  {
    if s == [] then [] else s[1..]
  }

  /** `df.iloc[:, 1:]`: drops the leading index column. */
  function DropIndexColumn(sh: Sheet): Sheet
  {
    Sheet(Tail(sh.header), seq(|sh.rows|, i requires 0 <= i < |sh.rows| => Tail(sh.rows[i])))
  }

  /**
   * Some row holds a present value in some column; false exactly when
   * `df.empty or df.dropna(how='all').shape[0] == 0`.
   */
  predicate HasData(sh: Sheet)
  {
    exists i, j :: 0 <= i < |sh.rows| && 0 <= j < |sh.header| && CellAt(sh.rows[i], j).Some?
  }

  /** Every header cell is a text, so `col.strip()` does not raise. */
  predicate AllNamed(header: seq<Label>)
  {
    forall j :: 0 <= j < |header| ==> header[j].Name?
  }

  /** `[col.strip() for col in df.columns]`. */
  function StrippedColumns(header: seq<Label>): (cols: seq<string>)
    requires AllNamed(header)
    ensures |cols| == |header|
  {
    seq(|header|, j requires 0 <= j < |header| => Text.Strip(header[j].text))
  }

  /** `[col for col in required_columns if col not in df.columns]`. */
  function Missing(columns: seq<string>): (missing: seq<string>)
    ensures forall c :: c in missing <==> c in REQUIRED_COLUMNS && c !in columns
    ensures NoDups(missing)
    ensures forall i, j :: 0 <= i < j < |missing| ==>
              IndexOf(REQUIRED_COLUMNS, missing[i]) < IndexOf(REQUIRED_COLUMNS, missing[j])
  {
    var keep := (c: string) => c !in columns;
    SelectKeepsOrder(REQUIRED_COLUMNS, keep);
    Select(REQUIRED_COLUMNS, keep)
  }

  /** The body of the loop for one file (main.py:54-71). */
  function Check(u: Upload): Verdict
  {
    match u.sheet
    case None => SkippedError
    case Some(raw) =>
      var sh := DropIndexColumn(raw);
      if !HasData(sh) then SkippedEmpty
      else if !AllNamed(sh.header) then SkippedError
      else
        var cols := StrippedColumns(sh.header);
        var missing := Missing(cols);
        if missing != [] then SkippedMissing(missing)
        else Accepted(Table(u.name, cols, sh.rows))
  }

  /** A table has every required column. */
  predicate Complete(t: Table)
  {
    forall c :: c in REQUIRED_COLUMNS ==> c in t.columns
  }

  /**
   * A file is accepted exactly when it could be read, still holds a present
   * value once the index column is gone, and every required column is among
   * its stripped column names; the accepted table is then that file's.
   */
  lemma CheckAccepts(u: Upload)
    ensures Check(u).Accepted? <==>
      && u.sheet.Some?
      && HasData(DropIndexColumn(u.sheet.value))
      && AllNamed(DropIndexColumn(u.sheet.value).header)
      && forall c :: c in REQUIRED_COLUMNS ==> c in StrippedColumns(DropIndexColumn(u.sheet.value).header)
    ensures Check(u).Accepted? ==>
      && Complete(Check(u).table)
      && Check(u).table.source == u.name
      && Check(u).table.rows == DropIndexColumn(u.sheet.value).rows
  {
    if u.sheet.Some? {
      var sh := DropIndexColumn(u.sheet.value);
      if HasData(sh) && AllNamed(sh.header) {
        MissingNone(StrippedColumns(sh.header));
      }
    }
  }

  /** No required column is missing exactly when every one is present. */
  lemma MissingNone(columns: seq<string>)
    ensures Missing(columns) == [] <==> forall c :: c in REQUIRED_COLUMNS ==> c in columns
  {
    var missing := Missing(columns);
    if missing != [] {
      assert missing[0] in missing;
    }
  }

  /** The tables of the accepted verdicts, in order. */
  function Kept(vs: seq<Verdict>): seq<Table>
    decreases |vs|
  {
    if vs == [] then []
    else
      var v := vs[|vs| - 1];
      Kept(vs[..|vs| - 1]) + (if v.Accepted? then [v.table] else [])
  }

  /** One more verdict keeps its table after the others when it is an acceptance. */
  lemma KeptSnoc(vs: seq<Verdict>, v: Verdict)
    ensures Kept(vs + [v]) == Kept(vs) + (if v.Accepted? then [v.table] else [])
  {
    assert (vs + [v])[..|vs|] == vs;
  }

  /** The verdicts of two batches in a row keep the tables of the first, then those of the second. */
  lemma {:induction false} KeptAppend(a: seq<Verdict>, b: seq<Verdict>)
    ensures Kept(a + b) == Kept(a) + Kept(b)
    decreases |b|
  {
    if b == [] {
      assert a + b == a;
    } else {
      var init := b[..|b| - 1];
      assert (a + b)[..|a + b| - 1] == a + init;
      assert (a + b)[|a + b| - 1] == b[|b| - 1];
      KeptAppend(a, init);
    }
  }

  /** A table is kept exactly when some verdict accepted it. */
  lemma {:induction false} KeptAre(vs: seq<Verdict>)
    ensures forall t :: t in Kept(vs) <==> exists i :: 0 <= i < |vs| && vs[i] == Accepted(t)
    decreases |vs|
  {
    if vs != [] {
      var init := vs[..|vs| - 1];
      KeptAre(init);
      assert forall i :: 0 <= i < |init| ==> init[i] == vs[i];
    }
  }

  /** The verdict of every upload, in upload order. */
  function Verdicts(us: seq<Upload>): (vs: seq<Verdict>)
    ensures |vs| == |us|
    ensures forall i :: 0 <= i < |us| ==> vs[i] == Check(us[i])
  {
    Map(us, Check)
  }

  /** The verdicts of one more upload are the earlier ones and then its own. */
  lemma VerdictsSnoc(us: seq<Upload>, i: nat)
    requires i < |us|
    ensures Verdicts(us[..i + 1]) == Verdicts(us[..i]) + [Check(us[i])]
  {
    assert us[..i + 1] == us[..i] + [us[i]];
    MapAppend(us[..i], [us[i]], Check);
  }

  /** The tables of the accepted files, in upload order. */
  function AcceptedTables(us: seq<Upload>): seq<Table>
  {
    Kept(Verdicts(us))
  }

  /**
   * Every accepted table has all required columns and comes from one of the
   * uploads, whose name it carries; and a table is accepted exactly when
   * some upload's verdict accepted it.
   */
  lemma AcceptedTablesAre(us: seq<Upload>)
    ensures forall t :: t in AcceptedTables(us) <==> exists i :: 0 <= i < |us| && Check(us[i]) == Accepted(t)
    ensures forall t :: t in AcceptedTables(us) ==>
              Complete(t) && exists i :: 0 <= i < |us| && us[i].name == t.source
  {
    var vs := Verdicts(us);
    KeptAre(vs);
    forall t | t in AcceptedTables(us)
      ensures Complete(t) && exists i :: 0 <= i < |us| && us[i].name == t.source
    {
      var i :| 0 <= i < |vs| && vs[i] == Accepted(t);
      CheckAccepts(us[i]);
    }
  }

  /** The accepted tables of two batches in a row are those of the first, then those of the second. */
  lemma AcceptedTablesAppend(a: seq<Upload>, b: seq<Upload>)
    ensures AcceptedTables(a + b) == AcceptedTables(a) + AcceptedTables(b)
  {
    MapAppend(a, b, Check);
    KeptAppend(Verdicts(a), Verdicts(b));
  }

  /**
   * The ingestion loop (main.py:51-69): one verdict per file, and the
   * accepted tables appended to `all_data` in upload order.
   */
  method IngestFiles(uploads: seq<Upload>) returns (allData: seq<Table>, verdicts: seq<Verdict>)
    ensures |verdicts| == |uploads|
    ensures forall i :: 0 <= i < |uploads| ==> verdicts[i] == Check(uploads[i])
    ensures allData == Kept(verdicts)
  {
    allData, verdicts := [], [];
    for i := 0 to |uploads|
      invariant verdicts == Verdicts(uploads[..i])
      invariant allData == Kept(verdicts)
    {
      var v := Check(uploads[i]);
      VerdictsSnoc(uploads, i);
      KeptSnoc(verdicts, v);
      verdicts := verdicts + [v];
      if v.Accepted? {
        allData := allData + [v.table];
      }
    }
    assert uploads[..|uploads|] == uploads;
  }

  // ----- the concatenated frame -------------------------------------------------

  /** One row of the concatenated frame, reduced to the columns the pipeline reads. */
  datatype Raw = Raw(
    importer: Option<Cell>,
    date: Option<Cell>,
    bill: Option<Cell>,
    quantity: Option<Cell>,
    value: Option<Cell>,
    unitPrice: Option<Cell>,
    description: Option<Cell>,
    source: string)

  /** The cell of the column named `name`, its first occurrence. */
  function Field(t: Table, row: seq<Option<Cell>>, name: string): Option<Cell>
    requires name in t.columns
  {
    CellAt(row, IndexOf(t.columns, name))
  }

  function RawRow(t: Table, row: seq<Option<Cell>>): Raw
    requires Complete(t)
  {
    Raw(Field(t, row, "Importer"), Field(t, row, "Date"), Field(t, row, "Master Bill Number"),
        Field(t, row, "Quantity"), Field(t, row, "Value(USD)"), Field(t, row, "Unit Price(USD)"),
        Field(t, row, "Description"), t.source)
  }

  function TableRows(t: Table): (rs: seq<Raw>)
    requires Complete(t)
    ensures |rs| == |t.rows|
  {
    seq(|t.rows|, i requires 0 <= i < |t.rows| => RawRow(t, t.rows[i]))
  }

  /** The rows of each table, table by table. */
  function RowsOfTables(ts: seq<Table>): (rss: seq<seq<Raw>>)
    requires forall i :: 0 <= i < |ts| ==> Complete(ts[i])
    ensures |rss| == |ts| && forall i :: 0 <= i < |ts| ==> rss[i] == TableRows(ts[i])
  {
    seq(|ts|, i requires 0 <= i < |ts| => TableRows(ts[i]))
  }

  /** `pd.concat(all_data, ignore_index=True)`: columns are matched by name, rows follow file order. */
  function Concat(ts: seq<Table>): seq<Raw>
    requires forall i :: 0 <= i < |ts| ==> Complete(ts[i])
  {
    Flatten(RowsOfTables(ts))
  }

  /** The rows of two batches of tables in a row are those of the first, then those of the second. */
  lemma ConcatAppend(a: seq<Table>, b: seq<Table>)
    requires forall i :: 0 <= i < |a| ==> Complete(a[i])
    requires forall i :: 0 <= i < |b| ==> Complete(b[i])
    ensures forall i :: 0 <= i < |a + b| ==> Complete((a + b)[i])
    ensures Concat(a + b) == Concat(a) + Concat(b)
  {
    assert RowsOfTables(a + b) == RowsOfTables(a) + RowsOfTables(b);
    FlattenAppend(RowsOfTables(a), RowsOfTables(b));
  }

  /** Concatenating a single accepted file yields its rows, each tagged with the file's name. */
  lemma ConcatOne(t: Table)
    requires Complete(t)
    ensures Concat([t]) == TableRows(t)
    ensures forall r :: r in Concat([t]) ==> r.source == t.source
  {
    var rss := RowsOfTables([t]);
    assert rss == [TableRows(t)];
    assert rss[..0] == [];
    assert Flatten(rss) == Flatten(rss[..0]) + TableRows(t);
  }
}
