/**
 * The whole run of main.py:50-171 once the files are read: ingest, derive,
 * cluster the importer names (whose result no sheet uses), aggregate, and
 * write the five sheets.
 */
module Pipeline {
  import opened Wrappers
  import opened Sequences
  import opened Cells
  import Text
  import Ingest
  import Derive
  import Aggregate
  import Clustering
  import opened Report

  const CLEANED_SHEET := "Cleaned Data"
  const PRODUCTS_SHEET := "Products per Container"
  const WEIGHT_SHEET := "Weight per Product"
  const COST_SHEET := "Shipment Cost"
  const VALUE_SHEET := "Total Value per Importer"

  function TextCell(s: string): Option<Cell>
  {
    Some(Text(s))
  }

  function IntCell(n: Option<int>): Option<Cell>
  {
    match n
    case None => None
    case Some(v) => Some(Int(v))
  }

  function StrCell(s: Option<string>): Option<Cell>
  {
    match s
    case None => None
    case Some(v) => Some(Text(v))
  }

  function DateCell(d: Option<Date>): Option<Cell>
  {
    match d
    case None => None
    case Some(v) => Some(Stamp(v))
  }

  /** The dtype pandas gives a column as read: numeric when every present cell is a number, dates when every one is a date. */
  function KindOf(cells: seq<Option<Cell>>): Kind
  {
    if forall i :: 0 <= i < |cells| ==> cells[i].None? || cells[i].value.Int? then Numeric
    else if forall i :: 0 <= i < |cells| ==> cells[i].None? || cells[i].value.Stamp? then Temporal
    else Textual
  }

  // ----- the five frames ----------------------------------------------------------

  /**
   * The columns of the frame after main.py:93 that the model follows: the
   * required columns in the order of the required list (where `pd.concat`
   * keeps the first file's order), then the derived ones in the order main.py
   * adds them.
   */
  function CleanedColumns(rows: seq<Derive.Row>): seq<Column>
  {
    CleanedColumnsOf(KindOf(Map(rows, (r: Derive.Row) => r.rawValue)),
                     KindOf(Map(rows, (r: Derive.Row) => r.rawUnitPrice)),
                     KindOf(Map(rows, (r: Derive.Row) => r.description)))
  }

  /** Those columns, given the kinds pandas reads for the three raw columns it cannot know in advance. */
  function CleanedColumnsOf(value: Kind, price: Kind, description: Kind): seq<Column>
  {
    [Column("Importer", Textual), Column("Date", Temporal), Column("Master Bill Number", Textual),
     Column("Quantity", Numeric), Column("Value(USD)", value), Column("Unit Price(USD)", price),
     Column("Description", description),
     Column("source_file", Textual), Column("Normalized_Importer", Textual), Column("Date_str", Textual),
     Column("Unique Master Bill Number", Textual), Column("Container Name", Textual),
     Column("Weight (kgs)", Numeric), Column("Value (USD)", Numeric), Column("Unit Price (USD)", Numeric),
     Column("Shipment Cost", Numeric)]
  }

  function CleanedRow(r: Derive.Row): seq<Option<Cell>>
  {
    [TextCell(r.importer), DateCell(r.date), StrCell(r.masterBill), IntCell(r.weight),
     r.rawValue, r.rawUnitPrice, r.description,
     TextCell(r.source), TextCell(r.normalized), StrCell(r.dateStr),
     TextCell(r.container), TextCell(r.container),
     IntCell(r.weight), IntCell(r.value), IntCell(r.unitPrice), IntCell(r.value)]
  }

  function CleanedFrame(rows: seq<Derive.Row>): Frame
  {
    Frame(CleanedColumns(rows), Map(rows, CleanedRow))
  }

  function ProductsFrame(t: seq<Aggregate.ProductsRow>): Frame
  {
    Frame([Column("Container Name", Textual), Column("Total Products in Container", Numeric),
           Column("Products List", Textual)],
          Map(t, (p: Aggregate.ProductsRow) => [TextCell(p.container), Some(Int(p.count)), Some(Items(p.products))]))
  }

  function WeightFrame(t: seq<Aggregate.WeightRow>): Frame
  {
    Frame([Column("Container Name", Textual),
           Column("Description", KindOf(Map(t, (w: Aggregate.WeightRow) => Some(w.description)))),
           Column("Weight (kgs)", Numeric)],
          Map(t, (w: Aggregate.WeightRow) => [TextCell(w.container), Some(w.description), Some(Int(w.weight))]))
  }

  /** A grouped sum as a two-column frame: the key, then its total. */
  function TotalsFrame(keyName: string, totalName: string, g: seq<(string, int)>): Frame
  {
    Frame([Column(keyName, Textual), Column(totalName, Numeric)],
          Map(g, (e: (string, int)) => [TextCell(e.0), Some(Int(e.1))]))
  }

  // ----- which column sorts each sheet --------------------------------------------

  /** A name whose lower-cased form holds `k` at position `i`, for `k` one of the amount words, names an amount. */
  lemma NamesAmountAt(name: string, k: string, i: nat)
    requires k == "cost" || k == "revenue" || k == "weight" || k == "value"
    requires Text.OccursAt(Text.Lower(name), k, i)
    ensures NamesAmount(name)
  {
  }

  /** "Description" names no amount. */
  lemma DescriptionNoAmount()
    ensures !NamesAmount("Description")
  {
    var l := Text.Lower("Description");
    assert l == "description";
    Text.NotContainsPair(l, "cost", 0);
    Text.NotContainsChar(l, "revenue", 'v');
    Text.NotContainsChar(l, "weight", 'w');
    Text.NotContainsChar(l, "value", 'v');
  }

  /** "Weight (kgs)" names an amount. */
  lemma WeightLower()
    ensures Text.Lower("Weight (kgs)") == "weight (kgs)"
  {
  }

  lemma WeightNamesAmount()
    ensures NamesAmount("Weight (kgs)")
  {
    WeightLower();
    var l := "weight (kgs)";
    assert l[0] == 'w' && l[1] == 'e' && l[2] == 'i' && l[3] == 'g' && l[4] == 'h' && l[5] == 't';
    NamesAmountAt("Weight (kgs)", "weight", 0);
  }

  /** The weight sheet sorts by "Weight (kgs)", whatever the kind of its description column. */
  lemma WeightSortColumn(t: seq<Aggregate.WeightRow>)
    ensures SortColumn(WeightFrame(t).columns) == Some(2)
  {
    var cols := WeightFrame(t).columns;
    DescriptionNoAmount();
    WeightNamesAmount();
    assert !Sorts(cols[0]) && !Sorts(cols[1]) && Sorts(cols[2]);
  }

  /** "Total Shipment Cost (USD)" names an amount. */
  lemma TotalCostLower()
    ensures Text.Lower("Total Shipment Cost (USD)") == "total shipment cost (usd)"
  {
  }

  lemma TotalCostNamesAmount()
    ensures NamesAmount("Total Shipment Cost (USD)")
  {
    TotalCostLower();
    var l := "total shipment cost (usd)";
    assert l[15] == 'c' && l[16] == 'o' && l[17] == 's' && l[18] == 't';
    NamesAmountAt("Total Shipment Cost (USD)", "cost", 15);
  }

  /** The shipment-cost sheet sorts by its total. */
  lemma CostSortColumn(g: seq<(string, int)>)
    ensures SortColumn(TotalsFrame("Container Name", "Total Shipment Cost (USD)", g).columns) == Some(1)
  {
    var cols := TotalsFrame("Container Name", "Total Shipment Cost (USD)", g).columns;
    TotalCostNamesAmount();
    assert !Sorts(cols[0]) && Sorts(cols[1]);
  }

  /** "Total Value(USD) per Importer" names an amount. */
  lemma TotalValueLower()
    ensures Text.Lower("Total Value(USD) per Importer") == "total value(usd) per importer"
  {
  }

  lemma TotalValueNamesAmount()
    ensures NamesAmount("Total Value(USD) per Importer")
  {
    TotalValueLower();
    var l := "total value(usd) per importer";
    assert l[6] == 'v' && l[7] == 'a' && l[8] == 'l' && l[9] == 'u' && l[10] == 'e';
    NamesAmountAt("Total Value(USD) per Importer", "value", 6);
  }

  /** The value-per-importer sheet sorts by its total. */
  lemma ValueSortColumn(g: seq<(string, int)>)
    ensures SortColumn(TotalsFrame("Importer", "Total Value(USD) per Importer", g).columns) == Some(1)
  {
    var cols := TotalsFrame("Importer", "Total Value(USD) per Importer", g).columns;
    TotalValueNamesAmount();
    assert !Sorts(cols[0]) && Sorts(cols[1]);
  }

  /** "Value(USD)" names an amount. */
  lemma ValueLower()
    ensures Text.Lower("Value(USD)") == "value(usd)"
  {
  }

  lemma ValueNamesAmount()
    ensures NamesAmount("Value(USD)")
  {
    ValueLower();
    var l := "value(usd)";
    assert l[0] == 'v' && l[1] == 'a' && l[2] == 'l' && l[3] == 'u' && l[4] == 'e';
    NamesAmountAt("Value(USD)", "value", 0);
  }

  lemma ProductsLower()
    ensures Text.Lower("Total Products in Container") == "total products in container"
  {
  }

  /** "st" never occurs in "total products in container", so neither does "cost". */
  lemma ProductsNoCost()
    ensures !Text.Contains("total products in container", "cost")
  {
    var l := "total products in container";
    assert !Text.HasPairFrom(l, 's', 't', 25);
    assert !Text.HasPairFrom(l, 's', 't', 24);
    assert !Text.HasPairFrom(l, 's', 't', 23);
    assert !Text.HasPairFrom(l, 's', 't', 22);
    assert !Text.HasPairFrom(l, 's', 't', 21);
    assert !Text.HasPairFrom(l, 's', 't', 20);
    assert !Text.HasPairFrom(l, 's', 't', 19);
    assert !Text.HasPairFrom(l, 's', 't', 18);
    assert !Text.HasPairFrom(l, 's', 't', 17);
    assert !Text.HasPairFrom(l, 's', 't', 16);
    assert !Text.HasPairFrom(l, 's', 't', 15);
    assert !Text.HasPairFrom(l, 's', 't', 14);
    assert !Text.HasPairFrom(l, 's', 't', 13);
    assert !Text.HasPairFrom(l, 's', 't', 12);
    assert !Text.HasPairFrom(l, 's', 't', 11);
    assert !Text.HasPairFrom(l, 's', 't', 10);
    assert !Text.HasPairFrom(l, 's', 't', 9);
    assert !Text.HasPairFrom(l, 's', 't', 8);
    assert !Text.HasPairFrom(l, 's', 't', 7);
    assert !Text.HasPairFrom(l, 's', 't', 6);
    assert !Text.HasPairFrom(l, 's', 't', 5);
    assert !Text.HasPairFrom(l, 's', 't', 4);
    assert !Text.HasPairFrom(l, 's', 't', 3);
    assert !Text.HasPairFrom(l, 's', 't', 2);
    assert !Text.HasPairFrom(l, 's', 't', 1);
    assert !Text.HasPairFrom(l, 's', 't', 0);
    Text.NotContainsPair(l, "cost", 2);
  }

  /** "Total Products in Container" names no amount: it holds no "cost", and no 'v' or 'w'. */
  lemma ProductsNoAmount()
    ensures !NamesAmount("Total Products in Container")
  {
    ProductsLower();
    var l := "total products in container";
    ProductsNoCost();
    Text.NotContainsChar(l, "revenue", 'v');
    Text.NotContainsChar(l, "weight", 'w');
    Text.NotContainsChar(l, "value", 'v');
  }

  /** The products sheet has no sort column, so it keeps the order of its groups. */
  lemma ProductsSortColumn(t: seq<Aggregate.ProductsRow>)
    ensures SortColumn(ProductsFrame(t).columns) == None
  {
    var cols := ProductsFrame(t).columns;
    ProductsNoAmount();
    assert !Sorts(cols[0]) && !Sorts(cols[1]) && !Sorts(cols[2]);
  }

  /** A name whose lower-cased form lacks a letter of each amount word names no amount. */
  lemma LacksAmount(name: string, c: char, r: char, w: char, v: char)
    requires c in "cost" && c !in Text.Lower(name)
    requires r in "revenue" && r !in Text.Lower(name)
    requires w in "weight" && w !in Text.Lower(name)
    requires v in "value" && v !in Text.Lower(name)
    ensures !NamesAmount(name)
  {
    var l := Text.Lower(name);
    Text.NotContainsChar(l, "cost", c);
    Text.NotContainsChar(l, "revenue", r);
    Text.NotContainsChar(l, "weight", w);
    Text.NotContainsChar(l, "value", v);
  }

  lemma QuantityLower()
    ensures Text.Lower("Quantity") == "quantity"
  {
  }

  /** "Quantity" names no amount. */
  lemma QuantityNoAmount()
    ensures !NamesAmount("Quantity")
  {
    QuantityLower();
    LacksAmount("Quantity", 'c', 'r', 'w', 'v');
  }

  lemma UnitPriceLower()
    ensures Text.Lower("Unit Price(USD)") == "unit price(usd)"
  {
  }

  /** "Unit Price(USD)" names no amount. */
  lemma UnitPriceNoAmount()
    ensures !NamesAmount("Unit Price(USD)")
  {
    UnitPriceLower();
    LacksAmount("Unit Price(USD)", 'o', 'v', 'w', 'v');
  }

  /** The names of the cleaned frame's columns, in order. */
  const CLEANED_NAMES: seq<string> := ["Importer", "Date", "Master Bill Number", "Quantity", "Value(USD)", "Unit Price(USD)", "Description", "source_file", "Normalized_Importer", "Date_str", "Unique Master Bill Number", "Container Name", "Weight (kgs)", "Value (USD)", "Unit Price (USD)", "Shipment Cost"]

  /** No cleaned column carries an ignored name (four columns at a time). */
  lemma NotIgnored0(n: string)
    requires n in ["Importer", "Date", "Master Bill Number", "Quantity"]
    ensures n !in IGNORED_COLUMNS
  {
    forall k | 0 <= k < |IGNORED_COLUMNS|
      ensures IGNORED_COLUMNS[k] != n
    {
    }
  }

  lemma NotIgnored1(n: string)
    requires n in ["Value(USD)", "Unit Price(USD)", "Description", "source_file"]
    ensures n !in IGNORED_COLUMNS
  {
    forall k | 0 <= k < |IGNORED_COLUMNS|
      ensures IGNORED_COLUMNS[k] != n
    {
    }
  }

  lemma NotIgnored2(n: string)
    requires n in ["Normalized_Importer", "Date_str", "Unique Master Bill Number", "Container Name"]
    ensures n !in IGNORED_COLUMNS
  {
    forall k | 0 <= k < |IGNORED_COLUMNS|
      ensures IGNORED_COLUMNS[k] != n
    {
    }
  }

  lemma NotIgnored3(n: string)
    requires n in ["Weight (kgs)", "Value (USD)", "Unit Price (USD)", "Shipment Cost"]
    ensures n !in IGNORED_COLUMNS
  {
    forall k | 0 <= k < |IGNORED_COLUMNS|
      ensures IGNORED_COLUMNS[k] != n
    {
    }
  }

  /** No column of the cleaned frame carries an ignored name. */
  lemma CleanedNamesKept(value: Kind, price: Kind, description: Kind)
    ensures forall j :: 0 <= j < 16 ==> CleanedColumnsOf(value, price, description)[j].name !in IGNORED_COLUMNS
  {
    var cols := CleanedColumnsOf(value, price, description);
    forall j | 0 <= j < 16
      ensures cols[j].name !in IGNORED_COLUMNS
    {
      var n := cols[j].name;
      assert n == CLEANED_NAMES[j];
      if j < 4 {
        NotIgnored0(n);
      } else if j < 8 {
        NotIgnored1(n);
      } else if j < 12 {
        NotIgnored2(n);
      } else {
        NotIgnored3(n);
      }
    }
  }

  /** None of the first four cleaned columns sorts. */
  lemma CleanedHeadNoSort(value: Kind, price: Kind, description: Kind)
    ensures forall j :: 0 <= j < 4 ==> !Sorts(CleanedColumnsOf(value, price, description)[j])
  {
    var cols := CleanedColumnsOf(value, price, description);
    QuantityNoAmount();
    assert !Sorts(cols[0]) && !Sorts(cols[1]) && !Sorts(cols[2]) && !Sorts(cols[3]);
  }

  /** With a raw value column that is not numeric, none of the cleaned columns 4 to 11 sorts. */
  lemma CleanedMiddleNoSort(value: Kind, price: Kind, description: Kind)
    requires value != Numeric
    ensures forall j :: 4 <= j < 12 ==> !Sorts(CleanedColumnsOf(value, price, description)[j])
  {
    var cols := CleanedColumnsOf(value, price, description);
    UnitPriceNoAmount();
    DescriptionNoAmount();
    assert !Sorts(cols[4]) && !Sorts(cols[5]) && !Sorts(cols[6]) && !Sorts(cols[7]);
    assert !Sorts(cols[8]) && !Sorts(cols[9]) && !Sorts(cols[10]) && !Sorts(cols[11]);
  }

  /** The first sorting column among the cleaned columns: the raw value when numeric, else the weight. */
  lemma CleanedColumnsSort(value: Kind, price: Kind, description: Kind)
    ensures SortColumn(CleanedColumnsOf(value, price, description)) == if value == Numeric then Some(4) else Some(12)
  {
    var cols := CleanedColumnsOf(value, price, description);
    CleanedHeadNoSort(value, price, description);
    if value == Numeric {
      ValueNamesAmount();
      assert Sorts(cols[4]);
    } else {
      CleanedMiddleNoSort(value, price, description);
      WeightNamesAmount();
      assert Sorts(cols[12]);
    }
  }

  /**
   * The cleaned sheet keeps all its columns and sorts by the raw "Value(USD)"
   * column when pandas reads it as numbers, and otherwise by "Weight (kgs)".
   */
  lemma CleanedSortColumn(rows: seq<Derive.Row>)
    ensures DropColumns(CleanedFrame(rows), IGNORED_COLUMNS).columns == CleanedColumns(rows)
    ensures SortColumn(DropColumns(CleanedFrame(rows), IGNORED_COLUMNS).columns) ==
              if KindOf(Map(rows, (r: Derive.Row) => r.rawValue)) == Numeric then Some(4) else Some(12)
  {
    var value := KindOf(Map(rows, (r: Derive.Row) => r.rawValue));
    var price := KindOf(Map(rows, (r: Derive.Row) => r.rawUnitPrice));
    var description := KindOf(Map(rows, (r: Derive.Row) => r.description));
    CleanedNamesKept(value, price, description);
    DropNothing(CleanedFrame(rows), IGNORED_COLUMNS);
    CleanedColumnsSort(value, price, description);
  }

  // ----- the run ---------------------------------------------------------------------

  /** The derived rows of the accepted files, in upload order. */
  function Rows(p: Derive.Parsers, uploads: seq<Ingest.Upload>): seq<Derive.Row>
  {
    Ingest.AcceptedTablesAre(uploads);
    Derive.DeriveRows(p, Ingest.Concat(Ingest.AcceptedTables(uploads)))
  }

  /** The five frames of main.py:167-171, in the order they are written. */
  function Frames(rows: seq<Derive.Row>): (r: seq<Frame>)
    ensures |r| == 5
  {
    [CleanedFrame(rows),
     ProductsFrame(Aggregate.ProductsPerContainer(rows)),
     WeightFrame(Aggregate.WeightPerProduct(rows)),
     TotalsFrame("Container Name", "Total Shipment Cost (USD)", Aggregate.ShipmentCost(rows)),
     TotalsFrame("Importer", "Total Value(USD) per Importer", Aggregate.ValuePerImporter(rows))]
  }

  const SHEET_NAMES: seq<string> := [CLEANED_SHEET, PRODUCTS_SHEET, WEIGHT_SHEET, COST_SHEET, VALUE_SHEET]

  /** Only the cleaned sheet drops columns. */
  const SHEET_DROPS: seq<seq<string>> := [IGNORED_COLUMNS, [], [], [], []]

  /** The five sheets, in order, each written from its frame. */
  predicate WorkbookOf(rows: seq<Derive.Row>, sheets: seq<Sheet>)
  {
    && |sheets| == 5
    && forall i :: 0 <= i < 5 ==> Written(sheets[i], SHEET_NAMES[i], Frames(rows)[i], SHEET_DROPS[i])
  }

  method WriteWorkbook(rows: seq<Derive.Row>) returns (sheets: seq<Sheet>)
    ensures WorkbookOf(rows, sheets)
  {
    var frames := Frames(rows);
    var s0 := WriteSheet(frames[0], SHEET_NAMES[0], SHEET_DROPS[0]);
    var s1 := WriteSheet(frames[1], SHEET_NAMES[1], SHEET_DROPS[1]);
    var s2 := WriteSheet(frames[2], SHEET_NAMES[2], SHEET_DROPS[2]);
    var s3 := WriteSheet(frames[3], SHEET_NAMES[3], SHEET_DROPS[3]);
    var s4 := WriteSheet(frames[4], SHEET_NAMES[4], SHEET_DROPS[4]);
    sheets := [s0, s1, s2, s3, s4];
    forall i | 0 <= i < 5
      ensures Written(sheets[i], SHEET_NAMES[i], frames[i], SHEET_DROPS[i])
    {
      if i == 0 { assert sheets[i] == s0; }
      else if i == 1 { assert sheets[i] == s1; }
      else if i == 2 { assert sheets[i] == s2; }
      else if i == 3 { assert sheets[i] == s3; }
      else { assert sheets[i] == s4; }
    }
  }

  /** The importer names as `normalize_importer_names` sees them: the `Normalized_Importer` column. */
  function NormalizedColumn(rows: seq<Derive.Row>): seq<string>
  {
    Map(rows, (r: Derive.Row) => r.normalized)
  }

  /** The workbook: the importer clusters (computed, then unused) and the five sheets. */
  datatype Workbook = Workbook(clusters: Clustering.Clusters, sheets: seq<Sheet>)

  /**
   * main.py:50-171: one verdict per upload; no workbook when no file was
   * accepted; otherwise the five sheets, in order, each written from its
   * frame. Every aggregate is keyed on the stripped, upper-cased importer,
   * never on the canonical names of the clustering.
   */
  method Run(uploads: seq<Ingest.Upload>, p: Derive.Parsers, sim: (string, string) -> Clustering.Score)
    returns (verdicts: seq<Ingest.Verdict>, workbook: Option<Workbook>)
    ensures |verdicts| == |uploads| && forall i :: 0 <= i < |uploads| ==> verdicts[i] == Ingest.Check(uploads[i])
    ensures workbook.None? <==> Ingest.AcceptedTables(uploads) == []
    ensures workbook.Some? ==>
      && workbook.value.clusters ==
           Clustering.Cluster(Distinct(NormalizedColumn(Rows(p, uploads))), sim, Clustering.SIMILARITY_THRESHOLD)
      && WorkbookOf(Rows(p, uploads), workbook.value.sheets)
  {
    var allData;
    allData, verdicts := Ingest.IngestFiles(uploads);
    assert verdicts == Ingest.Verdicts(uploads);
    if allData == [] {
      workbook := None;
      return;
    }
    var rows := Rows(p, uploads);
    var importers := Map(rows, (r: Derive.Row) => r.importer);
    var normalized, canonical, mapping :=
      Clustering.NormalizeImporterNames(importers, sim, Clustering.SIMILARITY_THRESHOLD);
    assert normalized == NormalizedColumn(rows);
    var sheets := WriteWorkbook(rows);
    workbook := Some(Workbook(Clustering.Clusters(canonical, mapping), sheets));
  }

  // ----- what the workbook holds -------------------------------------------------------

  /**
   * A sheet written from a frame whose sort column, once the listed columns
   * are dropped, is `j` holds the remaining columns and rows, in descending
   * order of column `j`.
   */
  lemma SortedSheet(sheet: Sheet, name: string, f: Frame, drop: seq<string>, j: nat)
    requires Written(sheet, name, f, drop)
    requires SortColumn((if drop != [] then DropColumns(f, drop) else f).columns) == Some(j)
    ensures var g := if drop != [] then DropColumns(f, drop) else f;
      && sheet.frame.columns == g.columns
      && multiset(sheet.frame.rows) == multiset(g.rows)
      && SortedDesc(sheet.frame.rows, j)
  {
    ShapeRows(f, drop);
  }

  /**
   * The products sheet is its frame unchanged, so its rows stay in the
   * ascending container order of the grouping; the weight, cost and value
   * sheets are each in descending order of their amount column, and each
   * holds exactly the rows of its aggregate.
   */
  lemma WorkbookSorted(rows: seq<Derive.Row>, sheets: seq<Sheet>)
    requires WorkbookOf(rows, sheets)
    ensures sheets[1].frame == Frames(rows)[1]
    ensures multiset(sheets[2].frame.rows) == multiset(Frames(rows)[2].rows) && SortedDesc(sheets[2].frame.rows, 2)
    ensures multiset(sheets[3].frame.rows) == multiset(Frames(rows)[3].rows) && SortedDesc(sheets[3].frame.rows, 1)
    ensures multiset(sheets[4].frame.rows) == multiset(Frames(rows)[4].rows) && SortedDesc(sheets[4].frame.rows, 1)
  {
    var fs := Frames(rows);
    assert Written(sheets[1], SHEET_NAMES[1], fs[1], SHEET_DROPS[1]);
    ProductsSortColumn(Aggregate.ProductsPerContainer(rows));
    ShapeRows(fs[1], []);
    assert Written(sheets[2], SHEET_NAMES[2], fs[2], SHEET_DROPS[2]);
    assert Written(sheets[3], SHEET_NAMES[3], fs[3], SHEET_DROPS[3]);
    assert Written(sheets[4], SHEET_NAMES[4], fs[4], SHEET_DROPS[4]);
    WeightSortColumn(Aggregate.WeightPerProduct(rows));
    CostSortColumn(Aggregate.ShipmentCost(rows));
    ValueSortColumn(Aggregate.ValuePerImporter(rows));
    SortedSheet(sheets[2], SHEET_NAMES[2], fs[2], [], 2);
    SortedSheet(sheets[3], SHEET_NAMES[3], fs[3], [], 1);
    SortedSheet(sheets[4], SHEET_NAMES[4], fs[4], [], 1);
  }

  /**
   * The cleaned sheet keeps every modelled column and all rows, sorted in
   * descending order of the raw value when it is numeric, else of the weight.
   */
  lemma CleanedSheetSorted(rows: seq<Derive.Row>, sheets: seq<Sheet>)
    requires WorkbookOf(rows, sheets)
    ensures sheets[0].frame.columns == CleanedColumns(rows)
    ensures multiset(sheets[0].frame.rows) == multiset(DropColumns(CleanedFrame(rows), IGNORED_COLUMNS).rows)
    ensures SortedDesc(sheets[0].frame.rows,
                       if KindOf(Map(rows, (r: Derive.Row) => r.rawValue)) == Numeric then 4 else 12)
  {
    var f := Frames(rows)[0];
    assert Written(sheets[0], SHEET_NAMES[0], f, SHEET_DROPS[0]);
    CleanedSortColumn(rows);
    var j := if KindOf(Map(rows, (r: Derive.Row) => r.rawValue)) == Numeric then 4 else 12;
    SortedSheet(sheets[0], SHEET_NAMES[0], f, IGNORED_COLUMNS, j);
  }
}
