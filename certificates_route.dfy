/**
 * The certificate spreadsheet import: the row scanner that turns the sheets
 * of a workbook into certificate records, and the import route that hands a
 * non-empty result to the batch insert.
 */
module CertificatesRoute {
  import opened JsRuntime
  import opened CertificateModel

  /**
   * The value of a spreadsheet cell; `Blank` is a missing cell or one
   * without a value. Numbers are integers.
   */
  datatype Cell = Blank | Text(s: string) | Number(n: int) | Boolean(b: bool)

  /** The cell exists and its value is truthy. */
  predicate Filled(cell: Cell)
  {
    match cell
    case Blank => false
    case Text(s) => s != ""
    case Number(n) => n != 0
    case Boolean(b) => b
  }

  /** The text of a cell's value, as JavaScript prints it. */
  function CellText(cell: Cell): string
  {
    match cell
    case Blank => ""
    case Text(s) => s
    case Number(n) => IntToDecimal(n)
    case Boolean(b) => if b then "true" else "false"
  }

  /** The cells of one row the scanner reads: column A (month), C (name) and D (number). */
  datatype Row = Row(a: Cell, c: Cell, d: Cell)

  /** A sheet: its name and its rows from row 0 to the last row of its range. */
  datatype Sheet = Sheet(name: string, rows: seq<Row>)

  predicate IsDigit(c: char)
  {
    '0' <= c <= '9'
  }

  // ---------------------------------------------------------------------
  // The year of a sheet: the first four digits followed by 年 in its name
  // ---------------------------------------------------------------------

  /** Four digits and then 年 start at `p`. */
  predicate YearAt(s: string, p: nat)
  {
    p + 5 <= |s| && (forall k :: p <= k < p + 4 ==> IsDigit(s[k])) && s[p + 4] == '年'
  }

  /** The leftmost position from `p` on where the year pattern matches. */
  function FindYear(s: string, p: nat): (r: Option<nat>)
    requires p <= |s|
    ensures r.Some? ==> p <= r.value && YearAt(s, r.value)
    ensures r.Some? ==> forall q :: p <= q < r.value ==> !YearAt(s, q)
    ensures r.None? ==> forall q :: p <= q <= |s| ==> !YearAt(s, q)
    decreases |s| - p
  {
    if p == |s| then None
    else if YearAt(s, p) then Some(p)
    else FindYear(s, p + 1)
  }

  /**
   * The year text of a sheet's dates: the matched digits read with
   * `parseInt` and printed back, else the current year, which the clock
   * supplies.
   */
  function SheetYear(name: string, currentYear: int): (y: string)
    ensures y != ""
    ensures FindYear(name, 0).None? ==> y == IntToDecimal(currentYear)
  {
    match FindYear(name, 0)
    case None => IntToDecimal(currentYear)
    case Some(p) => NatToDecimal(DigitsValue(name[p..p + 4]))
  }

  /** A digit string with no leading zero reads back as itself. */
  lemma {:induction false} DigitsRoundTrip(d: string)
    requires IsDigits(d) && (|d| == 1 || d[0] != '0')
    ensures NatToDecimal(DigitsValue(d)) == d
    decreases |d|
  {
    if |d| > 1 {
      var init := d[..|d| - 1];
      DigitsRoundTrip(init);
      LeadingDigitValue(init);
    }
  }

  /** Digits whose first one is not zero make a positive number. */
  lemma {:induction false} LeadingDigitValue(d: string)
    requires IsDigits(d) && d[0] != '0'
    ensures DigitsValue(d) >= 1
    decreases |d|
  {
    if |d| > 1 {
      LeadingDigitValue(d[..|d| - 1]);
    }
  }

  /** A sheet named for a year that does not start with 0 gets that year. */
  lemma SheetYearOfName(name: string, currentYear: int)
    requires FindYear(name, 0).Some?
    requires name[FindYear(name, 0).value] != '0'
    ensures var p := FindYear(name, 0).value;
            SheetYear(name, currentYear) == name[p..p + 4]
  {
    var p := FindYear(name, 0).value;
    DigitsRoundTrip(name[p..p + 4]);
  }

  // ---------------------------------------------------------------------
  // The month of a row: the first run of digits followed by 月 in column A
  // ---------------------------------------------------------------------

  /** Where the run of digits starting at `p` ends. */
  function DigitRunEnd(s: string, p: nat): (e: nat)
    requires p <= |s|
    ensures p <= e <= |s|
    decreases |s| - p
  {
    if p < |s| && IsDigit(s[p]) then DigitRunEnd(s, p + 1) else p
  }

  /** The run is all digits and ends at the end of the text or at a non-digit. */
  lemma {:induction false} DigitRun(s: string, p: nat)
    requires p <= |s|
    ensures forall k :: p <= k < DigitRunEnd(s, p) ==> IsDigit(s[k])
    ensures DigitRunEnd(s, p) == |s| || !IsDigit(s[DigitRunEnd(s, p)])
    decreases |s| - p
  {
    if p < |s| && IsDigit(s[p]) {
      DigitRun(s, p + 1);
    }
  }

  /**
   * The month pattern matches at `p`: a digit there, and 月 right after the
   * run of digits. A shorter run would be followed by a digit, so the
   * greedy run is the only way the pattern can match.
   */
  predicate MonthAt(s: string, p: nat)
  {
    p < |s| && IsDigit(s[p]) && DigitRunEnd(s, p) < |s| && s[DigitRunEnd(s, p)] == '月'
  }

  /** `MonthAt` is the regular expression: one digit or more, then 月. */
  lemma MonthAtIsPattern(s: string, p: nat, e: nat)
    requires p < e < |s|
    requires forall k :: p <= k < e ==> IsDigit(s[k])
    requires s[e] == '月'
    ensures MonthAt(s, p) && DigitRunEnd(s, p) == e
  {
    RunEndAt(s, p, e);
  }

  lemma {:induction false} RunEndAt(s: string, p: nat, e: nat)
    requires p <= e < |s|
    requires forall k :: p <= k < e ==> IsDigit(s[k])
    requires !IsDigit(s[e])
    ensures DigitRunEnd(s, p) == e
    decreases e - p
  {
    if p < e {
      RunEndAt(s, p + 1, e);
    }
  }

  /** The leftmost position from `p` on where the month pattern matches. */
  function FindMonth(s: string, p: nat): (r: Option<nat>)
    requires p <= |s|
    ensures r.Some? ==> p <= r.value < |s|
    decreases |s| - p
  {
    if p == |s| then None
    else if MonthAt(s, p) then Some(p)
    else FindMonth(s, p + 1)
  }

  /** `FindMonth` finds the leftmost match, and finds one whenever there is one. */
  lemma {:induction false} FindMonthLeftmost(s: string, p: nat)
    requires p <= |s|
    ensures FindMonth(s, p).Some? ==> MonthAt(s, FindMonth(s, p).value)
    ensures FindMonth(s, p).Some? ==> forall q :: p <= q < FindMonth(s, p).value ==> !MonthAt(s, q)
    ensures FindMonth(s, p).None? ==> forall q :: p <= q <= |s| ==> !MonthAt(s, q)
    decreases |s| - p
  {
    if p < |s| && !MonthAt(s, p) {
      FindMonthLeftmost(s, p + 1);
    }
  }

  /** The digits of a month, left-padded with zeros to two characters. */
  function PadMonth(g: string): string
  {
    if |g| == 0 then "00" else if |g| == 1 then "0" + g else g
  }

  /** Left-padded with zeros to two characters, the digits kept at the end. */
  lemma PadMonthShape(g: string)
    ensures var r := PadMonth(g);
      |r| == (if |g| < 2 then 2 else |g|) && r[|r| - |g|..] == g
      && (forall k :: 0 <= k < |r| - |g| ==> r[k] == '0')
      && (IsDigits(g) ==> MonthText(r))
  {
  }

  /** Two digits or more: what a month the scanner keeps looks like. */
  predicate MonthText(m: string)
  {
    |m| >= 2 && IsDigits(m)
  }

  /** The month a column-A cell names: the digits of the first match, padded to two. */
  function MonthOf(cell: Cell): (m: Option<string>)
  {
    if !Filled(cell) then None
    else
      var s := CellText(cell);
      match FindMonth(s, 0)
      case None => None
      case Some(p) => Some(PadMonth(s[p..DigitRunEnd(s, p)]))
  }

  /** A month is named only by a filled cell that matches, and it is two digits or more. */
  lemma MonthOfShape(cell: Cell)
    ensures MonthOf(cell).Some? <==> Filled(cell) && FindMonth(CellText(cell), 0).Some?
    ensures MonthOf(cell).Some? ==> MonthText(MonthOf(cell).value)
  {
    if Filled(cell) && FindMonth(CellText(cell), 0).Some? {
      var s := CellText(cell);
      var p := FindMonth(s, 0).value;
      DigitRun(s, p);
      FindMonthLeftmost(s, 0);
      assert IsDigits(s[p..DigitRunEnd(s, p)]);
    }
  }

  /** A row naming a month switches to it; any other row keeps the month it found. */
  function NextMonth(month: string, a: Cell): string
  {
    match MonthOf(a)
    case Some(named) => named
    case None => month
  }

  /** Digits from the start up to a 月: the first match is at 0 and its run ends at the 月. */
  lemma MonthAtStart(s: string, e: nat)
    requires 0 < e < |s|
    requires forall k :: 0 <= k < e ==> IsDigit(s[k])
    requires s[e] == '月'
    ensures FindMonth(s, 0) == Some(0) && DigitRunEnd(s, 0) == e
  {
    MonthAtIsPattern(s, 0, e);
  }

  /** A cell that starts with digits and 月 names the month of those digits. */
  lemma MonthOfLeadingDigits(g: string, rest: string)
    requires IsDigits(g)
    ensures MonthOf(Text(g + "月" + rest)) == Some(PadMonth(g))
  {
    var s := g + "月" + rest;
    assert s[..|g|] == g;
    MonthAtStart(s, |g|);
  }

  // ---------------------------------------------------------------------
  // The certificate number and the record of a row
  // ---------------------------------------------------------------------

  function DropDot(s: string): string
  {
    if |s| > 0 && s[0] == '.' then s[1..] else s
  }

  /** The first replacement: a leading `No`, any case, an optional dot and whitespace become `No.`. */
  function NoPrefixReplaced(s: string): (r: string)
    ensures (|s| >= 2 && (s[0] == 'N' || s[0] == 'n') && (s[1] == 'o' || s[1] == 'O')) ==> r == "No." + TrimStart(DropDot(s[2..]))
    ensures !(|s| >= 2 && (s[0] == 'N' || s[0] == 'n') && (s[1] == 'o' || s[1] == 'O')) ==> r == s
  {
    if |s| >= 2 && (s[0] == 'N' || s[0] == 'n') && (s[1] == 'o' || s[1] == 'O') then "No." + TrimStart(DropDot(s[2..]))
    else s
  }

  /** The second replacement: a leading `N`, any case, an optional dot and whitespace become `N.`. */
  function NPrefixReplaced(s: string): (r: string)
    ensures (|s| >= 1 && (s[0] == 'N' || s[0] == 'n')) ==> r == "N." + TrimStart(DropDot(s[1..]))
    ensures !(|s| >= 1 && (s[0] == 'N' || s[0] == 'n')) ==> r == s
  {
    if |s| >= 1 && (s[0] == 'N' || s[0] == 'n') then "N." + TrimStart(DropDot(s[1..])) else s
  }

  /** The two replacements in order, as the import applies them to a trimmed number. */
  function FormatNumber(s: string): (r: string)
    ensures |s| >= 1 && (s[0] == 'N' || s[0] == 'n') ==> |r| >= 2 && r[..2] == "N."
    ensures !(|s| >= 1 && (s[0] == 'N' || s[0] == 'n')) ==> r == s
    ensures s != "" ==> r != ""
  {
    NPrefixReplaced(NoPrefixReplaced(s))
  }

  lemma TrimStartIdempotent(s: string)
    ensures TrimStart(TrimStart(s)) == TrimStart(s)
  {
  }

  /** A number that already starts with `N.` and no whitespace after it is left alone. */
  lemma FormattedIsFixed(x: string)
    ensures FormatNumber("N." + TrimStart(x)) == "N." + TrimStart(x)
  {
    var tail := TrimStart(x);
    var r := "N." + tail;
    assert r[0] == 'N' && r[1] == '.';
    assert NoPrefixReplaced(r) == r;
    assert r[1..] == "." + tail;
    assert DropDot(r[1..]) == tail;
    TrimStartIdempotent(x);
  }

  /** Formatting a formatted number changes nothing more. */
  lemma FormatNumberIdempotent(s: string)
    ensures FormatNumber(FormatNumber(s)) == FormatNumber(s)
  {
    if |s| >= 1 && (s[0] == 'N' || s[0] == 'n') {
      var u := NoPrefixReplaced(s);
      assert u[0] == 'N' || u[0] == 'n';
      FormattedIsFixed(DropDot(u[1..]));
    }
  }

  /**
   * A number written `No.` gains a dot after its N: the first replacement
   * gives `No.` back and the second one then sees it begin with `N`.
   */
  lemma FormatNumberNoDot(t: string)
    requires TrimStart(t) == t
    ensures FormatNumber("No." + t) == "N.o." + t
  {
    NoPrefixKeepsNoDot(t);
    NPrefixOfNoDot(t);
  }

  lemma NoPrefixKeepsNoDot(t: string)
    requires TrimStart(t) == t
    ensures NoPrefixReplaced("No." + t) == "No." + t
  {
    var s := "No." + t;
    assert s[2..] == "." + t;
    assert DropDot(s[2..]) == t;
  }

  lemma NPrefixOfNoDot(t: string)
    ensures NPrefixReplaced("No." + t) == "N.o." + t
  {
    var s := "No." + t;
    assert s[1..] == "o." + t;
    assert TrimStart(s[1..]) == s[1..];
  }

  /** An `N` or `n` followed by whitespace becomes `N.`, the whitespace dropped. */
  lemma FormatNumberNSpace(c: char, t: string)
    requires c == 'N' || c == 'n'
    requires t == [] || (t[0] != 'o' && t[0] != 'O' && t[0] != '.')
    ensures FormatNumber([c] + t) == "N." + TrimStart(t)
  {
    var s := [c] + t;
    assert NoPrefixReplaced(s) == s;
    assert s[1..] == t;
  }

  /**
   * The record of a row under the month found so far: cells C and D must
   * hold values and a month must have been seen; the trimmed name and the
   * formatted number must both be non-empty.
   */
  function RowRecord(year: string, month: string, row: Row): (r: Option<CertRecord>)
  {
    if Filled(row.c) && Filled(row.d) && month != "" then
      var name := Trim(CellText(row.c));
      var certificateNo := FormatNumber(Trim(CellText(row.d)));
      if name != "" && certificateNo != "" then Some(CertRecord(certificateNo, name, year + "/" + month)) else None
    else None
  }

  /**
   * A row has a record exactly when C and D hold values, a month is known
   * and neither the name nor the number is blank; the record is dated by
   * the sheet's year and the month in force.
   */
  lemma RowRecordCases(year: string, month: string, row: Row)
    ensures RowRecord(year, month, row).Some? <==>
              (Filled(row.c) && Filled(row.d) && month != "" && Trim(CellText(row.c)) != "" && Trim(CellText(row.d)) != "")
    ensures RowRecord(year, month, row).Some? ==>
              RowRecord(year, month, row).value == CertRecord(FormatNumber(Trim(CellText(row.d))), Trim(CellText(row.c)), year + "/" + month)
  {
  }

  function Emitted(r: Option<CertRecord>): seq<CertRecord>
  {
    if r.Some? then [r.value] else []
  }

  // ---------------------------------------------------------------------
  // The scan
  // ---------------------------------------------------------------------

  /**
   * The month in force after the rows from 2 up to, not including, `n`:
   * the last one a row named, or none yet.
   */
  function MonthAfter(rows: seq<Row>, n: nat): string
    requires n <= 2 || n <= |rows|
  {
    if n <= 2 then "" else NextMonth(MonthAfter(rows, n - 1), rows[n - 1].a)
  }

  /** The records of the rows from 2 up to, not including, `n`, in row order. */
  function RecordsAfter(rows: seq<Row>, year: string, n: nat): seq<CertRecord>
    requires n <= 2 || n <= |rows|
  {
    if n <= 2 then []
    else RecordsAfter(rows, year, n - 1) + Emitted(RowRecord(year, MonthAfter(rows, n), rows[n - 1]))
  }

  /** The records of one sheet. */
  function SheetRecords(sheet: Sheet, currentYear: int): seq<CertRecord>
  {
    RecordsAfter(sheet.rows, SheetYear(sheet.name, currentYear), Max(2, |sheet.rows|))
  }

  function SheetReader(currentYear: int): Sheet -> seq<CertRecord>
  {
    sheet => SheetRecords(sheet, currentYear)
  }

  /** What `read` gives for each of the first `k` sheets, one after the other. */
  function Concat(read: Sheet -> seq<CertRecord>, sheets: seq<Sheet>, k: nat): seq<CertRecord>
    requires k <= |sheets|
  {
    if k == 0 then [] else Concat(read, sheets, k - 1) + read(sheets[k - 1])
  }

  /** The records of a workbook: its sheets in order, and in each its rows in order. */
  function WorkbookRecords(sheets: seq<Sheet>, currentYear: int): seq<CertRecord>
  {
    Concat(SheetReader(currentYear), sheets, |sheets|)
  }

  /** What every record of a sheet dated `year` looks like. */
  predicate WellFormed(r: CertRecord, year: string)
  {
    r.name != "" && Trimmed(r.name) && r.certificateNo != ""
    && |r.certDate| >= |year| + 3 && r.certDate[..|year| + 1] == year + "/" && MonthText(r.certDate[|year| + 1..])
  }

  /** The month in force is none or two digits or more. */
  lemma {:induction false} MonthShape(rows: seq<Row>, n: nat)
    requires n <= |rows|
    ensures MonthAfter(rows, n) == "" || MonthText(MonthAfter(rows, n))
  {
    if n > 2 {
      MonthShape(rows, n - 1);
      MonthOfShape(rows[n - 1].a);
    }
  }

  /** A row's record, when it has one, is well formed. */
  lemma RowRecordShape(year: string, month: string, row: Row)
    requires month == "" || MonthText(month)
    requires RowRecord(year, month, row).Some?
    ensures WellFormed(RowRecord(year, month, row).value, year)
  {
    var d := year + "/" + month;
    RowRecordCases(year, month, row);
    assert Trimmed(Trim(CellText(row.c)));
    assert d[..|year| + 1] == year + "/";
    assert d[|year| + 1..] == month;
  }

  /** Every record of the scan is well formed, and no row adds more than one. */
  lemma {:induction false} RecordsShape(rows: seq<Row>, year: string, n: nat)
    requires n <= |rows|
    ensures forall i :: 0 <= i < |RecordsAfter(rows, year, n)| ==> WellFormed(RecordsAfter(rows, year, n)[i], year)
    ensures |RecordsAfter(rows, year, n)| <= if n <= 2 then 0 else n - 2
  {
    if n > 2 {
      RecordsShape(rows, year, n - 1);
      var r := RowRecord(year, MonthAfter(rows, n), rows[n - 1]);
      if r.Some? {
        MonthShape(rows, n);
        RowRecordShape(year, MonthAfter(rows, n), rows[n - 1]);
      }
    }
  }

  /** Until a row names a month, no row yields a record. */
  lemma {:induction false} NoMonthNoRecords(rows: seq<Row>, year: string, n: nat)
    requires n <= |rows|
    requires forall j :: 2 <= j < n ==> MonthOf(rows[j].a).None?
    ensures MonthAfter(rows, n) == ""
    ensures RecordsAfter(rows, year, n) == []
  {
    if n > 2 {
      NoMonthNoRecords(rows, year, n - 1);
    }
  }

  /**
   * A row gets the month of the nearest row at or above it that names one:
   * the merged month cell covers the rows under it.
   */
  lemma {:induction false} MonthCarriesDown(rows: seq<Row>, m: nat, n: nat)
    requires 2 <= m < n <= |rows|
    requires MonthOf(rows[m].a).Some?
    requires forall j :: m < j < n ==> MonthOf(rows[j].a).None?
    ensures MonthAfter(rows, n) == MonthOf(rows[m].a).value
    decreases n - m
  {
    if n - 1 > m {
      MonthCarriesDown(rows, m, n - 1);
      assert MonthOf(rows[n - 1].a).None?;
    }
    assert MonthAfter(rows, n) == NextMonth(MonthAfter(rows, n - 1), rows[n - 1].a);
  }

  /** Only the sheets before `k` decide what the first `k` give. */
  lemma {:induction false} ConcatPrefix(read: Sheet -> seq<CertRecord>, a: seq<Sheet>, b: seq<Sheet>, k: nat)
    requires k <= |a| && k <= |b|
    requires a[..k] == b[..k]
    ensures Concat(read, a, k) == Concat(read, b, k)
  {
    if k > 0 {
      assert a[k - 1] == a[..k][k - 1] == b[..k][k - 1] == b[k - 1];
      assert a[..k - 1] == a[..k][..k - 1];
      assert b[..k - 1] == b[..k][..k - 1];
      ConcatPrefix(read, a, b, k - 1);
    }
  }

  /**
   * Reading the sheets of `s1 + s2` reads those of `s1`, then those of `s2`:
   * with `WorkbookRecords`' own reader, no month crosses from one sheet to
   * the next.
   */
  lemma {:induction false} ConcatAppend(read: Sheet -> seq<CertRecord>, s1: seq<Sheet>, s2: seq<Sheet>, k: nat)
    requires k <= |s2|
    ensures Concat(read, s1 + s2, |s1| + k) == Concat(read, s1, |s1|) + Concat(read, s2, k)
  {
    if k == 0 {
      assert (s1 + s2)[..|s1|] == s1[..|s1|];
      ConcatPrefix(read, s1 + s2, s1, |s1|);
    } else {
      ConcatAppend(read, s1, s2, k - 1);
      assert (s1 + s2)[|s1| + k - 1] == s2[k - 1];
    }
  }

  /** What the scan carries from row to row: the month in force and the records so far. */
  datatype ScanState = ScanState(month: string, records: seq<CertRecord>)

  /** One row: a month in column A replaces the one in force; then the row's record, if any. */
  function ReadRow(year: string, st: ScanState, row: Row): ScanState
  {
    var month := NextMonth(st.month, row.a);
    ScanState(month, st.records + Emitted(RowRecord(year, month, row)))
  }

  /** The state after `step` has read the rows from 2 up to, not including, `n`. */
  function Scan(step: (ScanState, Row) -> ScanState, rows: seq<Row>, n: nat): ScanState
    requires n <= 2 || n <= |rows|
  {
    if n <= 2 then ScanState("", []) else step(Scan(step, rows, n - 1), rows[n - 1])
  }

  /** The row loop: from the third row to the last, the month starting empty. */
  method ScanRows(step: (ScanState, Row) -> ScanState, rows: seq<Row>) returns (st: ScanState)
    ensures st == Scan(step, rows, Max(2, |rows|))
  {
    st := ScanState("", []);
    var rowNum := 2;
    while rowNum < |rows|
      invariant 2 <= rowNum && (rowNum == 2 || rowNum <= |rows|)
      invariant st == Scan(step, rows, rowNum)
    {
      st := step(st, rows[rowNum]);
      rowNum := rowNum + 1;
    }
  }

  /** Reading row by row gives the month and the records of the two recurrences above. */
  lemma {:induction false} ScanMatches(rows: seq<Row>, year: string, n: nat)
    requires n <= 2 || n <= |rows|
    ensures Scan((st, row) => ReadRow(year, st, row), rows, n) == ScanState(MonthAfter(rows, n), RecordsAfter(rows, year, n))
  {
    if n > 2 {
      ScanMatches(rows, year, n - 1);
    }
  }

  /** The records of one sheet whose year is `year`. */
  method ScanSheet(rows: seq<Row>, year: string) returns (records: seq<CertRecord>)
    ensures records == RecordsAfter(rows, year, Max(2, |rows|))
  {
    var st := ScanRows((st, row) => ReadRow(year, st, row), rows);
    ScanMatches(rows, year, Max(2, |rows|));
    records := st.records;
  }

  /** `parseExcelFile`: every sheet in order, and in each sheet every row from the third. */
  method ParseExcelFile(sheets: seq<Sheet>, currentYear: int) returns (certificates: seq<CertRecord>)
    ensures certificates == WorkbookRecords(sheets, currentYear)
  {
    certificates := [];
    for k := 0 to |sheets|
      invariant certificates == Concat(SheetReader(currentYear), sheets, k)
    {
      var sheet := sheets[k];
      var year := SheetYear(sheet.name, currentYear);
      var records := ScanSheet(sheet.rows, year);
      certificates := certificates + records;
    }
  }

  // ---------------------------------------------------------------------
  // The import route
  // ---------------------------------------------------------------------

  /** The answers of `POST /import`. */
  datatype ImportResponse =
    | NoFile                // 400: no file uploaded
    | NoRecords             // 400: the file holds no certificate
    | Imported(total: nat, inserted: nat, skipped: nat, errors: seq<InsertError>)

  /**
   * `POST /import`: the workbook is parsed; an empty result is refused
   * before anything is inserted; otherwise the records go to the batch
   * insert and its tally is reported with the total.
   */
  method Import(store: CertificateStore, file: Option<seq<Sheet>>, currentYear: int, faults: nat -> Fault)
    returns (response: ImportResponse)
    requires store.Valid()
    modifies store
    ensures store.Valid()
    ensures file.None? ==> response == NoFile && store.State() == old(store.State())
    ensures file.Some? && WorkbookRecords(file.value, currentYear) == [] ==>
              response == NoRecords && store.State() == old(store.State())
    ensures file.Some? && WorkbookRecords(file.value, currentYear) != [] ==>
              var certs := WorkbookRecords(file.value, currentYear);
              var r := BatchInsertSpec(old(store.State()), certs, faults);
              store.State() == r.0 && response == Imported(|certs|, r.1.insertedCount, r.1.skippedCount, r.1.errors)
  {
    if file.None? {
      return NoFile;
    }
    var certificates := ParseExcelFile(file.value, currentYear);
    if |certificates| == 0 {
      return NoRecords;
    }
    var result := store.BatchInsert(certificates, faults);
    response := Imported(|certificates|, result.insertedCount, result.skippedCount, result.errors);
  }
}
