/**
 * Spreadsheet cell values and their text forms: pandas' `astype(str)` of a
 * cell (a missing cell prints as "nan") and `strftime('%B%d')` of a date
 * (the English month name, then the day as two digits).
 */
module Cells {
  import opened Wrappers

  type Month = m: int | 1 <= m <= 12 witness 1
  type Day = d: int | 1 <= d <= 31 witness 1

  /** A calendar date as pandas parses it (time of day is not modelled). */
  datatype Date = Date(year: nat, month: Month, day: Day)

  /** A present cell value; a missing one (NaN, NaT) is `None` of `Option<Cell>`. */
  datatype Cell =
    | Text(s: string)
    | Int(n: int)
    | Stamp(date: Date)
    | Items(xs: seq<Cell>)   // a Python list, as held in the "Products List" column

  /** The cell in column `j` of a row; a short row reads as missing. */
  function CellAt(row: seq<Option<Cell>>, j: nat): Option<Cell>
  {
    if j < |row| then row[j] else None
  }

  // ----- numbers as text ------------------------------------------------------

  function DigitChar(d: int): char
    requires 0 <= d <= 9
  {
    ('0' as int + d) as char
  }

  function DigitValue(c: char): int
  {
    c as int - '0' as int
  }

  /** Decimal digits of `n`, most significant first, without leading zeros. */
  function NatText(n: nat): (r: string)
    ensures r != []
    ensures forall c :: c in r ==> '0' <= c <= '9'
  {
    if n < 10 then [DigitChar(n)] else NatText(n / 10) + [DigitChar(n % 10)]
  }

  /** Reads back a string of decimal digits. */
  function ReadNat(s: string): int
  {
    if s == [] then 0 else 10 * ReadNat(s[..|s| - 1]) + DigitValue(s[|s| - 1])
  }

  lemma {:induction false} ReadNatText(n: nat)
    ensures ReadNat(NatText(n)) == n
  {
    if n >= 10 {
      ReadNatText(n / 10);
      var t := NatText(n / 10) + [DigitChar(n % 10)];
      assert t[..|t| - 1] == NatText(n / 10);
    }
  }

  /** Python's `str(int)`. */
  function IntText(n: int): string
  {
    if n < 0 then "-" + NatText(-n) else NatText(n)
  }

  /** `k` zero digits. */
  function Zeros(k: nat): (r: string)
    ensures |r| == k && forall i :: 0 <= i < k ==> r[i] == '0'
  {
    seq(k, _ => '0')
  }

  /** `n` written with at least `width` digits, padded on the left with zeros. */
  function ZeroPad(n: nat, width: nat): (r: string)
    ensures |r| == if |NatText(n)| >= width then |NatText(n)| else width
    ensures r[|r| - |NatText(n)|..] == NatText(n)
    ensures forall i :: 0 <= i < |r| - |NatText(n)| ==> r[i] == '0'
  {
    var t := NatText(n);
    if |t| >= width then t
    else
      var r := Zeros(width - |t|) + t;
      assert r[|r| - |t|..] == t;
      r
  }

  /** A leading zero does not change the number a digit string reads as. */
  lemma {:induction false} ReadNatLeadingZero(s: string)
    ensures ReadNat("0" + s) == ReadNat(s)
    decreases |s|
  {
    if s != [] {
      var t := "0" + s;
      assert t[..|t| - 1] == "0" + s[..|s| - 1];
      ReadNatLeadingZero(s[..|s| - 1]);
    }
  }

  /** Leading zeros do not change the number a digit string reads as. */
  lemma {:induction false} ReadNatZeros(k: nat, s: string)
    ensures ReadNat(Zeros(k) + s) == ReadNat(s)
    decreases k
  {
    if k > 0 {
      assert Zeros(k) == "0" + Zeros(k - 1);
      assert Zeros(k) + s == "0" + (Zeros(k - 1) + s);
      ReadNatZeros(k - 1, s);
      ReadNatLeadingZero(Zeros(k - 1) + s);
    } else {
      assert Zeros(k) + s == s;
    }
  }

  /** The padded text reads back as the number. */
  lemma ReadZeroPad(n: nat, width: nat)
    ensures ReadNat(ZeroPad(n, width)) == n
  {
    var t := NatText(n);
    ReadNatText(n);
    if |t| < width {
      ReadNatZeros(width - |t|, t);
    }
  }

  /** A number below 100 has at most two digits. */
  lemma NatTextShort(n: nat)
    requires n < 100
    ensures |NatText(n)| <= 2
  {
  }

  // ----- dates as text ----------------------------------------------------------

  const MONTH_NAMES: seq<string> :=
    ["January", "February", "March", "April", "May", "June", "July",
     "August", "September", "October", "November", "December"]

  /** `strftime('%B')`: the full English month name. */
  function MonthName(m: Month): string
  {
    MONTH_NAMES[m - 1]
  }

  /** The month whose full name is `name`, if any. */
  function MonthNumber(name: string): Option<Month>
  {
    if name == "January" then Some(1)
    else if name == "February" then Some(2)
    else if name == "March" then Some(3)
    else if name == "April" then Some(4)
    else if name == "May" then Some(5)
    else if name == "June" then Some(6)
    else if name == "July" then Some(7)
    else if name == "August" then Some(8)
    else if name == "September" then Some(9)
    else if name == "October" then Some(10)
    else if name == "November" then Some(11)
    else if name == "December" then Some(12)
    else None
  }

  lemma MonthNumberOfName(m: Month)
    ensures MonthNumber(MonthName(m)) == Some(m)
  {
  }

  /** `strftime('%d')`: the day of the month as exactly two digits. */
  function TwoDigits(d: Day): (r: string)
    ensures |r| == 2
  {
    [DigitChar(d / 10), DigitChar(d % 10)]
  }

  /** `strftime('%B%d')`, as in "January05". */
  function DateText(d: Date): string
  {
    MonthName(d.month) + TwoDigits(d.day)
  }

  /** Splits a `'%B%d'` text back into its month and day. */
  function ReadDateText(s: string): Option<(Month, Day)>
  {
    if |s| < 2 then None
    else
      var day := 10 * DigitValue(s[|s| - 2]) + DigitValue(s[|s| - 1]);
      match MonthNumber(s[..|s| - 2])
      case Some(m) => if 1 <= day <= 31 then Some((m, day)) else None
      case None => None
  }

  /** The `'%B%d'` text of a date determines its month and day. */
  lemma ReadDateTextOfDate(d: Date)
    ensures ReadDateText(DateText(d)) == Some((d.month, d.day))
  {
    var s := DateText(d);
    assert s[..|s| - 2] == MonthName(d.month);
    MonthNumberOfName(d.month);
  }

  /** Two dates have the same `'%B%d'` text exactly when they share month and day (the year is lost). */
  lemma DateTextSame(a: Date, b: Date)
    ensures DateText(a) == DateText(b) <==> a.month == b.month && a.day == b.day
  {
    ReadDateTextOfDate(a);
    ReadDateTextOfDate(b);
  }

  /** Python's `str(Timestamp)` for a date at midnight, in a date column: "YYYY-MM-DD". */
  function IsoText(d: Date): string
  {
    ZeroPad(d.year, 4) + "-" + ZeroPad(d.month, 2) + "-" + ZeroPad(d.day, 2)
  }

  /** The month and the day each take exactly two characters. */
  lemma IsoTextParts(d: Date)
    ensures |ZeroPad(d.month, 2)| == 2 && |ZeroPad(d.day, 2)| == 2
  {
    NatTextShort(d.month);
    NatTextShort(d.day);
  }

  /** Year, month and day texts joined by dashes split back apart when month and day have two characters. */
  lemma DashJoinSplits(y1: string, m1: string, d1: string, y2: string, m2: string, d2: string)
    requires |m1| == |m2| == |d1| == |d2| == 2
    requires y1 + "-" + m1 + "-" + d1 == y2 + "-" + m2 + "-" + d2
    ensures y1 == y2 && m1 == m2 && d1 == d2
  {
    var s := y1 + "-" + m1 + "-" + d1;
    var t := y2 + "-" + m2 + "-" + d2;
    assert |y1| == |s| - 6 == |y2|;
    assert y1 == s[..|y1|] && y2 == t[..|y2|];
    assert m1 == s[|y1| + 1..|y1| + 3] && m2 == t[|y2| + 1..|y2| + 3];
    assert d1 == s[|y1| + 4..] && d2 == t[|y2| + 4..];
  }

  /** Different dates print differently: the text determines year, month and day. */
  lemma IsoTextInjective(a: Date, b: Date)
    requires IsoText(a) == IsoText(b)
    ensures a == b
  {
    IsoTextParts(a);
    IsoTextParts(b);
    DashJoinSplits(ZeroPad(a.year, 4), ZeroPad(a.month, 2), ZeroPad(a.day, 2),
                   ZeroPad(b.year, 4), ZeroPad(b.month, 2), ZeroPad(b.day, 2));
    ReadZeroPad(a.year, 4);
    ReadZeroPad(b.year, 4);
    ReadZeroPad(a.month, 2);
    ReadZeroPad(b.month, 2);
    ReadZeroPad(a.day, 2);
    ReadZeroPad(b.day, 2);
  }

  /** January 5, 2020 prints as "2020-01-05". */
  lemma IsoTextExample()
    ensures IsoText(Date(2020, 1, 5)) == "2020-01-05"
  {
    assert NatText(2020) == "2020";
    assert ZeroPad(1, 2) == "01";
    assert ZeroPad(5, 2) == "05";
  }

  // ----- astype(str) ------------------------------------------------------------

  /** pandas `astype(str)` of one cell: a missing cell gives the text "nan". */
  function Show(c: Option<Cell>): string
  {
    match c
    case None => "nan"
    case Some(v) => Render(v)
  }

  /** Python's `str()` of a present value. */
  function Render(v: Cell): string
    decreases v, 1
  {
    match v
    case Text(s) => s
    case Int(n) => IntText(n)
    case Stamp(d) => IsoText(d)
    case Items(_) => "[" + ItemsText(v, 0) + "]"
  }

  /** Python's `repr()` of a value, as it appears inside a printed list. */
  function Repr(v: Cell): string
    decreases v, 1
  {
    match v
    case Text(s) => "'" + s + "'"
    case Int(n) => IntText(n)
    case Stamp(d) => "Timestamp('" + IsoText(d) + " 00:00:00')"
    case Items(_) => "[" + ItemsText(v, 0) + "]"
  }

  /** The elements of a list from position `i` on, as `repr`s separated by ", ". */
  function ItemsText(v: Cell, i: nat): string
    requires v.Items?
    decreases v, 0, |v.xs| - i
  {
    if i >= |v.xs| then ""
    else if i == |v.xs| - 1 then Repr(v.xs[i])
    else Repr(v.xs[i]) + ", " + ItemsText(v, i + 1)
  }
}
