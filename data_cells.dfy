/** graphql.model.DataCell: a cell value with its column header, and the rules that turn it
    into a GraphQL literal: blank, bare integer, bare boolean, or a quoted escaped string. */
module DataCells {
  import opened Wrappers
  import opened Strings
  import opened Decimals
  import opened Escaper
  import opened Headers

  /** The spreadsheet cell types. */
  datatype CellType = Numeric | Text | Formula | Blank | Boolean | Error

  /** What the importer asks of the spreadsheet cell behind a value: its type, and whether it
      is formatted as a date. */
  datatype CellInfo = CellInfo(cellType: CellType, dateFormatted: bool)

  /** A cell: its header object, the spreadsheet cell behind it, and the text read from it. */
  datatype DataCell = DataCell(header: Header, cell: CellInfo, value: string)

  /** isBlank: a BLANK cell, or a value that is empty after trimming. */
  predicate CellIsBlank(cell: CellInfo, value: string) {
    cell.cellType == Blank || IsBlank(value)
  }

  /** True when isInteger parses the value: a non-blank NUMERIC cell not formatted as a date. */
  predicate IsPlainNumber(cell: CellInfo, value: string) {
    !IsBlank(value) && cell.cellType == Numeric && !cell.dateFormatted
  }

  /** isInteger: new BigDecimal(value).setScale(0) compared with the value. setScale(0) has no
      rounding mode, so a fractional value throws instead of comparing unequal. The header
      takes no part. */
  function IsInteger(cell: CellInfo, value: string): Result<bool> {
    if IsPlainNumber(cell, value) then
      var d :- Parse(value);
      if IsWhole(d) then Ok(true) else Err(RoundingNecessary(value))
    else Ok(false)
  }

  predicate IsBooleanCell(cell: CellInfo) {
    cell.cellType == Boolean
  }

  /** quotationMarksNeeded: forced by the header, or neither integer nor boolean. The forced
      test comes first, so a forced header never evaluates isInteger. */
  function QuotationMarksNeeded(c: DataCell): Result<bool> {
    if IsForcedQuotations(c.header.text) then Ok(true)
    else
      var isInt :- IsInteger(c.cell, c.value);
      Ok(!isInt && !IsBooleanCell(c.cell))
  }

  /** getFormattedValue: an integer is rewritten without trailing zeros; a value needing
      quotation marks is escaped and quoted; a blank cell gives "". */
  function GetFormattedValue(c: DataCell): Result<string> {
    var isInt :- IsInteger(c.cell, c.value);
    var plain := if isInt then ToPlainString(StripTrailingZeros(Parse(c.value).value)) else c.value;
    var quoted :- QuotationMarksNeeded(c);
    var formatted := if quoted then "\"" + EscapeJsonString(plain) + "\"" else plain;
    if CellIsBlank(c.cell, c.value) then Ok("") else Ok(formatted)
  }

  /** For a non-blank, non-date NUMERIC cell isInteger returns true or throws, never false. */
  lemma IsIntegerNeverFalse(cell: CellInfo, value: string)
    requires IsPlainNumber(cell, value)
    ensures IsInteger(cell, value) != Ok(false)
    ensures IsInteger(cell, value) == Ok(true) <==> Parse(value).Ok? && IsWhole(Parse(value).value)
  {
  }

  /** A fractional value in a NUMERIC cell throws ArithmeticException (rounding necessary). */
  lemma FractionalThrows()
    ensures IsInteger(CellInfo(Numeric, false), "2.5") == Err(RoundingNecessary("2.5"))
  {
    BlankIffAllTrimmable("2.5");
    ParseTwoPointFive();
    assert Pow10(1) == 10;
    assert !IsTrimmable("2.5"[0]);
  }

  lemma ParseTwoPointFive()
    ensures Parse("2.5") == Ok(Decimal(25, 1))
  {
    assert "2.5" == "2" + "." + "5";
    ParsePointed("2", "5");
    assert "2" + "5" == "25";
    assert DigitsValue("25") == 25 by {
      assert "25"[..1] == "2";
    }
  }

  /** A blank cell always formats as "", whatever its type and header. */
  lemma BlankFormatsEmpty(c: DataCell)
    requires CellIsBlank(c.cell, c.value)
    ensures GetFormattedValue(c) == Ok("")
  {
  }

  /** Quotation marks are needed exactly when the header is forced, or the cell is neither an
      integer nor a boolean; the header's inferred-quotation latch takes no part. */
  lemma QuotationMarksRule(c: DataCell)
    requires IsInteger(c.cell, c.value).Ok?
    ensures QuotationMarksNeeded(c) == Ok(IsForcedQuotations(c.header.text) || (!IsInteger(c.cell, c.value).value && !IsBooleanCell(c.cell)))
  {
  }

  /** An integral number in a NUMERIC cell under a header that is not forced formats as the
      plain text of its stripped value, without quotation marks and without a point. */
  lemma IntegralFormatsBare(c: DataCell)
    requires IsPlainNumber(c.cell, c.value) && !IsForcedQuotations(c.header.text)
    requires Parse(c.value).Ok? && IsWhole(Parse(c.value).value)
    ensures GetFormattedValue(c) == Ok(ToPlainString(StripTrailingZeros(Parse(c.value).value)))
    ensures '.' !in GetFormattedValue(c).value
  {
    WholeStripsToInteger(Parse(c.value).value);
  }

  /** A non-blank value that is not an integer under a forced header is quoted:
      `"` + escapeJsonString(value) + `"`. */
  lemma ForcedIsQuoted(c: DataCell)
    requires !CellIsBlank(c.cell, c.value) && IsForcedQuotations(c.header.text) && IsInteger(c.cell, c.value) == Ok(false)
    ensures GetFormattedValue(c) == Ok("\"" + EscapeJsonString(c.value) + "\"")
  {
  }

  /** An integral number under a forced header is quoted too, but its text is first rewritten
      as the stripped plain integer: "42.0" becomes "\"42\"". */
  lemma ForcedIntegralIsQuoted(c: DataCell)
    requires IsPlainNumber(c.cell, c.value) && IsForcedQuotations(c.header.text)
    requires Parse(c.value).Ok? && IsWhole(Parse(c.value).value)
    ensures GetFormattedValue(c) == Ok("\"" + EscapeJsonString(ToPlainString(StripTrailingZeros(Parse(c.value).value))) + "\"")
    ensures '.' !in ToPlainString(StripTrailingZeros(Parse(c.value).value))
  {
    WholeStripsToInteger(Parse(c.value).value);
  }

  /** A boolean cell under a header that is not forced is emitted unchanged, without quotes. */
  lemma BooleanIsBare(c: DataCell)
    requires IsBooleanCell(c.cell) && !CellIsBlank(c.cell, c.value) && !IsForcedQuotations(c.header.text)
    ensures GetFormattedValue(c) == Ok(c.value)
  {
  }

  /** A date-formatted NUMERIC cell is quoted like text. */
  lemma DateIsQuoted(c: DataCell)
    requires c.cell.cellType == Numeric && c.cell.dateFormatted && !CellIsBlank(c.cell, c.value)
    ensures GetFormattedValue(c) == Ok("\"" + EscapeJsonString(c.value) + "\"")
  {
  }
}
