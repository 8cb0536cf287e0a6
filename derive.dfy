/**
 * The per-row derivations on the concatenated frame (main.py:77-93): the
 * importer key, the parsed date and its `'%B%d'` text, the master bill
 * number with its fallback, the container name, and the numeric columns.
 */
module Derive {
  import opened Wrappers
  import opened Sequences
  import Text
  import opened Cells
  import Ingest

  /**
   * `pd.to_datetime(..., errors='coerce')` and `pd.to_numeric(..., errors='coerce')`
   * applied to one present cell; `None` is a value they coerce to NaT / NaN.
   */
  datatype Parsers = Parsers(date: Cell -> Option<Date>, number: Cell -> Option<int>)

  /** A missing cell parses as missing. */
  function ParseDate(p: Parsers, c: Option<Cell>): Option<Date>
  {
    match c
    case None => None
    case Some(v) => p.date(v)
  }

  function ParseNumber(p: Parsers, c: Option<Cell>): Option<int>
  {
    match c
    case None => None
    case Some(v) => p.number(v)
  }

  /** One row of the frame after main.py:93, restricted to the columns the model follows. */
  datatype Row = Row(
    importer: string,             // Importer, stripped and upper-cased
    normalized: string,           // Normalized_Importer
    date: Option<Date>,           // Date, parsed
    dateStr: Option<string>,      // Date_str
    masterBill: Option<string>,   // Master Bill Number, after the fallback
    container: string,            // Unique Master Bill Number and Container Name
    weight: Option<int>,          // Quantity and Weight (kgs)
    value: Option<int>,           // Value (USD) and Shipment Cost
    unitPrice: Option<int>,       // Unit Price (USD)
    description: Option<Cell>,    // Description
    rawValue: Option<Cell>,       // Value(USD), as read
    rawUnitPrice: Option<Cell>,   // Unit Price(USD), as read
    source: string)               // source_file

  /** `astype(str).str.strip().str.upper()` (main.py:77): never missing, trimmed, no lower-case ASCII letter. */
  function ImporterKey(c: Option<Cell>): (k: string)
    ensures Text.Trimmed(k)
    ensures forall ch :: ch in k ==> !('a' <= ch <= 'z')
  {
    var s := Text.Strip(Show(c));
    Text.UpperTrimmed(s);
    Text.UpperHasNoLower(s);
    Text.Upper(s)
  }

  /** `dt.strftime('%B%d')`: NaT stays missing. */
  function DateStr(d: Option<Date>): Option<string>
  {
    match d
    case None => None
    case Some(v) => Some(DateText(v))
  }

  /**
   * main.py:83-84: the bill number as text, the text "nan" read as missing,
   * and a missing one replaced by `Importer + " " + Date_str` (itself
   * missing when the date is).
   */
  function MasterBill(bill: Option<Cell>, importer: string, dateStr: Option<string>): Option<string>
  {
    var text := Show(bill);
    if text != "nan" then Some(text)
    else
      match dateStr
      case None => None
      case Some(s) => Some(importer + " " + s)
  }

  /** main.py:86-87: `astype(str).str.strip()`; a missing bill prints as "nan". */
  function ContainerName(master: Option<string>): string
  {
    Text.Strip(if master.Some? then master.value else "nan")
  }

  /** Derives one row of the frame from one concatenated row. */
  function DeriveRow(p: Parsers, r: Ingest.Raw): Row
  {
    var importer := ImporterKey(r.importer);
    var date := ParseDate(p, r.date);
    var dateStr := DateStr(date);
    var master := MasterBill(r.bill, importer, dateStr);
    Row(importer, Text.Normalize(importer), date, dateStr, master, ContainerName(master),
        ParseNumber(p, r.quantity), ParseNumber(p, r.value), ParseNumber(p, r.unitPrice),
        r.description, r.value, r.unitPrice, r.source)
  }

  function DeriveRows(p: Parsers, rs: seq<Ingest.Raw>): (rows: seq<Row>)
    ensures |rows| == |rs| && forall i :: 0 <= i < |rs| ==> rows[i] == DeriveRow(p, rs[i])
  {
    seq(|rs|, i requires 0 <= i < |rs| => DeriveRow(p, rs[i]))
  }

  // ----- properties of the derivation -------------------------------------------

  /** A month name starts with a capital letter. */
  lemma MonthNameCapital(m: Month)
    ensures MonthName(m) != [] && 'A' <= MonthName(m)[0] <= 'Z'
  {
  }

  /** The `'%B%d'` text has no whitespace at either end. */
  lemma DateTextTrimmed(d: Date)
    ensures DateText(d) != [] && Text.Trimmed(DateText(d))
  {
    MonthNameCapital(d.month);
    var t := DateText(d);
    assert t[0] == MonthName(d.month)[0];
    assert t[|t| - 1] == DigitChar(d.day % 10);
  }

  /** A bill number that is present is kept as it reads, and the container is its trimmed text. */
  lemma BillKept(p: Parsers, r: Ingest.Raw)
    requires Show(r.bill) != "nan"
    ensures DeriveRow(p, r).masterBill == Some(Show(r.bill))
    ensures DeriveRow(p, r).container == Text.Strip(Show(r.bill))
    ensures Text.Trimmed(Show(r.bill)) ==> DeriveRow(p, r).container == Show(r.bill)
  {
  }

  /**
   * A missing bill number on a dated row becomes `Importer + " " + Date_str`,
   * and the container is that text; only an empty importer loses the space.
   */
  lemma BillFallback(p: Parsers, r: Ingest.Raw, d: Date)
    requires Show(r.bill) == "nan"
    requires ParseDate(p, r.date) == Some(d)
    ensures DeriveRow(p, r).masterBill == Some(DeriveRow(p, r).importer + " " + DateText(d))
    ensures DeriveRow(p, r).container ==
              if DeriveRow(p, r).importer == [] then DateText(d)
              else DeriveRow(p, r).importer + " " + DateText(d)
  {
    var row := DeriveRow(p, r);
    var importer := ImporterKey(r.importer);
    var joined := importer + " " + DateText(d);
    assert row.importer == importer;
    assert row.masterBill == MasterBill(r.bill, importer, Some(DateText(d))) == Some(joined);
    assert row.container == Text.Strip(joined);
    DateTextTrimmed(d);
    Text.StripJoin(importer, DateText(d));
  }

  /** A missing bill number on an undated row stays missing, and its container is "nan". */
  lemma BillUnknown(p: Parsers, r: Ingest.Raw)
    requires Show(r.bill) == "nan"
    requires ParseDate(p, r.date) == None
    ensures DeriveRow(p, r).masterBill == None
    ensures DeriveRow(p, r).container == "nan"
  {
    assert Text.Trimmed("nan");
  }

  /** The container name never has whitespace at either end. */
  lemma ContainerTrimmed(p: Parsers, r: Ingest.Raw)
    ensures Text.Trimmed(DeriveRow(p, r).container)
  {
  }

  /**
   * Two rows without a bill number, of one importer and dated on the same
   * month and day, fall into the same container, even in different years.
   */
  lemma FallbackSameDay(p: Parsers, r1: Ingest.Raw, r2: Ingest.Raw, d1: Date, d2: Date)
    requires Show(r1.bill) == "nan" && Show(r2.bill) == "nan"
    requires ParseDate(p, r1.date) == Some(d1) && ParseDate(p, r2.date) == Some(d2)
    requires ImporterKey(r1.importer) == ImporterKey(r2.importer)
    requires d1.month == d2.month && d1.day == d2.day
    ensures DeriveRow(p, r1).container == DeriveRow(p, r2).container
  {
    DateTextSame(d1, d2);
  }

  /** `Date_str` names the month and day of the parsed date, and is missing exactly when the date is. */
  lemma DateStrReads(d: Option<Date>)
    ensures DateStr(d).Some? <==> d.Some?
    ensures d.Some? ==> ReadDateText(DateStr(d).value) == Some((d.value.month, d.value.day))
  {
    if d.Some? {
      ReadDateTextOfDate(d.value);
    }
  }
}
