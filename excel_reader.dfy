/** graphql.excel.ExcelDataReader: turns the rows of each sheet into headers, cells and rows,
    latches on each header whether some value of its column needs quotation marks, and renames
    sheets through the `_mapping` sheet. Cell contents arrive already read: the spreadsheet
    library and its value formatter are not part of this model. */
module ExcelReader {
  import opened Wrappers
  import opened OrderedMaps
  import opened Constants
  import opened Headers
  import opened DataCells
  import opened DataModel

  /** A physically present spreadsheet cell: its type and the text the formatter reads. */
  datatype RawCell = RawCell(info: CellInfo, text: string)

  /** A sheet as the workbook holds it: its name and its defined rows, the first being the
      header row. A row lists positions 0 .. lastCellNum - 1, None where no cell exists. */
  datatype RawSheet = RawSheet(name: string, rows: seq<seq<Option<RawCell>>>)

  /** The positions of a row that hold a cell, in order. */
  function Present(raw: seq<Option<RawCell>>): (ps: seq<nat>)
    ensures forall k :: 0 <= k < |ps| ==> ps[k] < |raw| && raw[ps[k]].Some?
    ensures forall k, l :: 0 <= k < l < |ps| ==> ps[k] < ps[l]
    ensures forall i :: 0 <= i < |raw| && raw[i].Some? ==> i in ps
  {
    Positions(seq(|raw|, i requires 0 <= i < |raw| => raw[i].Some?))
  }

  lemma PresentSnoc(raw: seq<Option<RawCell>>, n: nat)
    requires n < |raw|
    ensures Present(raw[..n + 1]) == Present(raw[..n]) + (if raw[n].Some? then [n] else [])
  {
    var f := seq(|raw[..n + 1]|, i requires 0 <= i < |raw[..n + 1]| => raw[..n + 1][i].Some?);
    assert f[..n] == seq(|raw[..n]|, i requires 0 <= i < |raw[..n]| => raw[..n][i].Some?);
  }

  /** The texts of the cells of a row, skipping absent positions. */
  function Texts(raw: seq<Option<RawCell>>): (ts: seq<string>)
    ensures |ts| == |Present(raw)|
    ensures forall k :: 0 <= k < |ts| ==> ts[k] == raw[Present(raw)[k]].value.text
  {
    if raw == [] then []
    else
      var n := |raw| - 1;
      PresentSnoc(raw, n);
      assert raw[..n + 1] == raw;
      Texts(raw[..n]) + (if raw[n].Some? then [raw[n].value.text] else [])
  }

  lemma TextsSnoc(raw: seq<Option<RawCell>>, n: nat)
    requires n < |raw|
    ensures Texts(raw[..n + 1]) == Texts(raw[..n]) + (if raw[n].Some? then [raw[n].value.text] else [])
  {
    assert raw[..n + 1][..n] == raw[..n];
  }

  /** The texts the headers store: the present cells of the header row, `*` removed. */
  function HeaderTexts(sheet: RawSheet): (hs: seq<string>)
  {
    if sheet.rows == [] then []
    else
      var ts := Texts(sheet.rows[0]);
      seq(|ts|, j requires 0 <= j < |ts| => StoredText(ts[j]))
  }

  /** The cell built from a raw cell at position p: its header is the header of that position,
      or a fresh empty header beyond the last one. */
  predicate CellFor(c: DataCell, rc: RawCell, hs: seq<Header>, p: nat) {
    c.cell == rc.info && c.value == rc.text &&
    (p < |hs| ==> c.header == hs[p]) && (p >= |hs| ==> c.header.text == "")
  }

  /** One cell per present position, in position order. */
  predicate RowMatches(cells: seq<DataCell>, raw: seq<Option<RawCell>>, hs: seq<Header>) {
    var ps := Present(raw);
    |cells| == |ps| && forall q :: 0 <= q < |ps| ==> CellFor(cells[q], raw[ps[q]].value, hs, ps[q])
  }

  /** The cell at data row k, position j exists and needs quotation marks under header j. */
  predicate Needs(hs: seq<Header>, rows: seq<seq<Option<RawCell>>>, k: nat, j: nat)
    requires k < |rows| && j < |hs|
  {
    j < |rows[k]| && rows[k][j].Some? &&
    QuotationMarksNeeded(DataCell(hs[j], rows[k][j].value.info, rows[k][j].value.text)) == Ok(true)
  }

  /** The latch of header j after the rows before K and the positions before i of row K. */
  predicate Latched(hs: seq<Header>, rows: seq<seq<Option<RawCell>>>, j: nat, K: nat, i: nat)
    requires j < |hs| && K <= |rows|
  {
    !IsForcedQuotations(hs[j].text) &&
    ((exists k :: 1 <= k < K && Needs(hs, rows, k, j)) || (K < |rows| && j < i && Needs(hs, rows, K, j)))
  }

  /** A present cell of row k in a column whose header is not forced, whose number check
      throws: a fresh empty header is never forced. */
  predicate ThrowsAt(hs: seq<Header>, rows: seq<seq<Option<RawCell>>>, k: nat, p: nat)
    requires k < |rows|
  {
    p < |rows[k]| && rows[k][p].Some? &&
    (p >= |hs| || !IsForcedQuotations(hs[p].text)) &&
    IsInteger(rows[k][p].value.info, rows[k][p].value.text).Err?
  }

  /** The same, stated on the raw sheet: data row k, position p. */
  predicate Throws(sheet: RawSheet, k: nat, p: nat)
  {
    1 <= k < |sheet.rows| && p < |sheet.rows[k]| && sheet.rows[k][p].Some? &&
    (p >= |HeaderTexts(sheet)| || !IsForcedQuotations(HeaderTexts(sheet)[p])) &&
    IsInteger(sheet.rows[k][p].value.info, sheet.rows[k][p].value.text).Err?
  }

  /** The header row: one header per present cell, in order, each a new object with its latch
      clear. */
  method ReadHeaders(headerRow: seq<Option<RawCell>>) returns (headers: seq<Header>)
    ensures |headers| == |Texts(headerRow)|
    ensures forall j :: 0 <= j < |headers| ==> headers[j].text == StoredText(Texts(headerRow)[j])
    ensures forall j :: 0 <= j < |headers| ==> !headers[j].inferredQuotations && fresh(headers[j])
    ensures forall j, j' :: 0 <= j < j' < |headers| ==> headers[j] != headers[j']
  {
    headers := [];
    ghost var texts: seq<string> := [];
    var i := 0;
    while i < |headerRow|
      invariant 0 <= i <= |headerRow|
      invariant texts == Texts(headerRow[..i]) && |headers| == |texts|
      invariant forall j :: 0 <= j < |headers| ==> headers[j].text == StoredText(texts[j])
      invariant forall j :: 0 <= j < |headers| ==> !headers[j].inferredQuotations && fresh(headers[j])
      invariant forall j, j' :: 0 <= j < j' < |headers| ==> headers[j] != headers[j']
    {
      TextsSnoc(headerRow, i);
      if headerRow[i].Some? {
        var h := new Header(headerRow[i].value.text);
        assert h !in headers;
        DistinctSnoc(headers, h);
        headers := headers + [h];
        texts := texts + [headerRow[i].value.text];
      }
      i := i + 1;
    }
    assert headerRow[..i] == headerRow;
  }

  lemma DistinctSnoc(hs: seq<Header>, h: Header)
    requires forall j, j' :: 0 <= j < j' < |hs| ==> hs[j] != hs[j']
    requires h !in hs
    ensures forall j, j' :: 0 <= j < j' < |hs + [h]| ==> (hs + [h])[j] != (hs + [h])[j']
  {
  }

  lemma RowMatchesStep(cells: seq<DataCell>, raw: seq<Option<RawCell>>, hs: seq<Header>, i: nat, c: Option<DataCell>)
    requires i < |raw| && RowMatches(cells, raw[..i], hs)
    requires raw[i].None? ==> c.None?
    requires raw[i].Some? ==> c.Some? && CellFor(c.value, raw[i].value, hs, i)
    ensures RowMatches(cells + (if c.Some? then [c.value] else []), raw[..i + 1], hs)
  {
    PresentSnoc(raw, i);
    var ps := Present(raw[..i]);
    forall q | 0 <= q < |ps| ensures raw[..i + 1][ps[q]] == raw[..i][ps[q]] {
    }
  }

  /** The latch of header i after position i of row K: set when it was, or when the header is
      not forced and the cell there needs quotation marks. Other latches are unaffected. */
  lemma LatchedStep(hs: seq<Header>, rows: seq<seq<Option<RawCell>>>, K: nat, i: nat)
    requires 1 <= K < |rows|
    ensures forall j :: 0 <= j < |hs| && j != i ==> Latched(hs, rows, j, K, i + 1) == Latched(hs, rows, j, K, i)
    ensures i < |hs| ==> (Latched(hs, rows, i, K, i + 1) ==
                          (Latched(hs, rows, i, K, i) || (!IsForcedQuotations(hs[i].text) && Needs(hs, rows, K, i))))
  {
  }

  /** The cells of data row K, with the latches of its columns updated. */
  method ParseRow(rows: seq<seq<Option<RawCell>>>, K: nat, headers: seq<Header>) returns (r: Result<seq<DataCell>>, ghost bad: nat)
    requires 1 <= K < |rows|
    requires forall j, j' :: 0 <= j < j' < |headers| ==> headers[j] != headers[j']
    requires forall j :: 0 <= j < |headers| ==> headers[j].inferredQuotations == Latched(headers, rows, j, K, 0)
    modifies set j | 0 <= j < |headers| :: headers[j]
    ensures r.Ok? ==> RowMatches(r.value, rows[K], headers)
    ensures r.Ok? ==> forall j :: 0 <= j < |headers| ==> headers[j].inferredQuotations == Latched(headers, rows, j, K + 1, 0)
    ensures r.Err? ==> ThrowsAt(headers, rows, K, bad)
  {
    var raw := rows[K];
    var cells: seq<DataCell> := [];
    var total := if |raw| > |headers| then |raw| else |headers|;
    var i := 0;
    while i < total
      invariant 0 <= i <= total
      invariant RowMatches(cells, raw[..if i < |raw| then i else |raw|], headers)
      invariant forall j :: 0 <= j < |headers| ==> headers[j].inferredQuotations == Latched(headers, rows, j, K, i)
    {
      LatchedStep(headers, rows, K, i);
      var cell := if i < |raw| then raw[i] else None;
      var added: Option<DataCell> := None;
      if cell.Some? {
        var header: Header;
        if i < |headers| {
          header := headers[i];
        } else {
          header := new Header("");
        }
        var dc := DataCell(header, cell.value.info, cell.value.text);
        added := Some(dc);
        if !IsForcedQuotations(header.text) && !header.inferredQuotations {
          var q := QuotationMarksNeeded(dc);
          if q.Err? {
            return Err(q.failure), i;
          }
          header.SetInferredQuotations(q.value);
        }
      }
      if i < |raw| {
        RowMatchesStep(cells, raw, headers, i, added);
      }
      cells := cells + (if added.Some? then [added.value] else []);
      i := i + 1;
    }
    assert raw[..if i < |raw| then i else |raw|] == raw;
    LatchedNext(headers, rows, K, i);
    r, bad := Ok(cells), 0;
  }

  lemma LatchedNext(hs: seq<Header>, rows: seq<seq<Option<RawCell>>>, K: nat, i: nat)
    requires 1 <= K < |rows| && i >= |hs|
    ensures forall j :: 0 <= j < |hs| ==> Latched(hs, rows, j, K, i) == Latched(hs, rows, j, K + 1, 0)
  {
    forall j | 0 <= j < |hs| ensures Latched(hs, rows, j, K, i) == Latched(hs, rows, j, K + 1, 0) {
      if exists k :: 1 <= k < K + 1 && Needs(hs, rows, k, j) {
        var k :| 1 <= k < K + 1 && Needs(hs, rows, k, j);
        if k < K {
          assert exists k' :: 1 <= k' < K && Needs(hs, rows, k', j);
        }
      }
      if Needs(hs, rows, K, j) {
        assert exists k :: 1 <= k < K + 1 && Needs(hs, rows, k, j);
      }
    }
  }

  /** The data rows, in order, each with one cell per present position; the latches record
      the cells that need quotation marks. */
  method ParseRows(rows: seq<seq<Option<RawCell>>>, headers: seq<Header>)
      returns (r: Result<seq<DataRow>>, ghost badRow: nat, ghost badPos: nat)
    requires forall j, j' :: 0 <= j < j' < |headers| ==> headers[j] != headers[j']
    requires forall j :: 0 <= j < |headers| ==> !headers[j].inferredQuotations
    modifies set j | 0 <= j < |headers| :: headers[j]
    ensures r.Ok? ==> |r.value| == (if rows == [] then 0 else |rows| - 1)
    ensures r.Ok? ==> forall k :: 0 <= k < |r.value| ==> r.value[k].Valid() && RowMatches(r.value[k].cells, rows[k + 1], headers)
    ensures r.Ok? ==> forall j :: 0 <= j < |headers| ==> headers[j].inferredQuotations == Latched(headers, rows, j, |rows|, 0)
    ensures r.Err? ==> 1 <= badRow < |rows| && ThrowsAt(headers, rows, badRow, badPos)
  {
    if rows == [] {
      return Ok([]), 0, 0;
    }
    var dataRows: seq<DataRow> := [];
    var K := 1;
    while K < |rows|
      invariant 1 <= K <= |rows|
      invariant |dataRows| == K - 1
      invariant forall k :: 0 <= k < |dataRows| ==> dataRows[k].Valid() && RowMatches(dataRows[k].cells, rows[k + 1], headers)
      invariant forall j :: 0 <= j < |headers| ==> headers[j].inferredQuotations == Latched(headers, rows, j, K, 0)
    {
      var cells, bad := ParseRow(rows, K, headers);
      if cells.Err? {
        return Err(cells.failure), K, bad;
      }
      var row := new DataRow(cells.value);
      dataRows := dataRows + [row];
      K := K + 1;
    }
    r, badRow, badPos := Ok(dataRows), 0, 0;
  }

  /** parseSheet. The header row's present cells become the headers, in order. Each further row
      gets one cell per present position below max(lastCellNum, number of headers). The latch
      of a header is written only while it is neither forced nor set, so it ends true exactly
      when the header is not forced and some cell of its column needs quotation marks.
      Evaluating quotationMarksNeeded on a fractional or malformed number throws. */
  method ParseSheet(sheet: RawSheet) returns (r: Result<DataSheet>)
    ensures r.Ok? ==> r.value.name == sheet.name
    ensures r.Ok? ==> |r.value.headers| == |HeaderTexts(sheet)| &&
                      forall j :: 0 <= j < |r.value.headers| ==> r.value.headers[j].text == HeaderTexts(sheet)[j]
    ensures r.Ok? ==> forall j, j' :: 0 <= j < j' < |r.value.headers| ==> r.value.headers[j] != r.value.headers[j']
    ensures r.Ok? ==> |r.value.dataRows| == (if sheet.rows == [] then 0 else |sheet.rows| - 1)
    ensures r.Ok? ==> forall k :: 0 <= k < |r.value.dataRows| ==>
                        r.value.dataRows[k].Valid() && RowMatches(r.value.dataRows[k].cells, sheet.rows[k + 1], r.value.headers)
    ensures r.Ok? ==> forall j :: 0 <= j < |r.value.headers| ==>
                        r.value.headers[j].inferredQuotations == Latched(r.value.headers, sheet.rows, j, |sheet.rows|, 0)
    ensures r.Err? ==> exists k, p :: Throws(sheet, k, p)
  {
    var headers: seq<Header> := [];
    if sheet.rows != [] {
      headers := ReadHeaders(sheet.rows[0]);
    }
    assert |headers| == |HeaderTexts(sheet)| && forall j :: 0 <= j < |headers| ==> headers[j].text == HeaderTexts(sheet)[j];
    var dataRows, badRow, badPos := ParseRows(sheet.rows, headers);
    if dataRows.Err? {
      assert Throws(sheet, badRow, badPos);
      return Err(dataRows.failure);
    }
    r := Ok(DataSheet(sheet.name, headers, dataRows.value));
  }

  function RemoveAt<T>(s: seq<T>, i: nat): (r: seq<T>)
    requires i < |s|
    ensures |r| == |s| - 1
    ensures forall j :: 0 <= j < |r| ==> r[j] == if j < i then s[j] else s[j + 1]
  {
    s[..i] + s[i + 1..]
  }

  /** The old-name to new-name table of the mapping sheet, put row by row into acc: cell 0 holds
      the old name, cell 1 the new one. A row with fewer than two cells throws at the missing
      index. */
  function MappingTableFrom(acc: OMap<string, string>, rows: seq<DataRow>): Result<OMap<string, string>>
    decreases |rows|
  {
    if rows == [] then Ok(acc)
    else
      var cs := rows[0].cells;
      if |cs| < 2 then Err(IndexOutOfBounds(|cs|))
      else MappingTableFrom(Put(acc, cs[0].value, cs[1].value), rows[1..])
  }

  function MappingTable(rows: seq<DataRow>): Result<OMap<string, string>> {
    MappingTableFrom([], rows)
  }

  /** The (old name, new name) pair of every mapping row, in row order. */
  function MappingPairs(rows: seq<DataRow>): (ps: OMap<string, string>)
    requires forall k :: 0 <= k < |rows| ==> |rows[k].cells| >= 2
    ensures |ps| == |rows| && forall k :: 0 <= k < |rows| ==> ps[k] == (rows[k].cells[0].value, rows[k].cells[1].value)
  {
    seq(|rows|, k requires 0 <= k < |rows| => (rows[k].cells[0].value, rows[k].cells[1].value))
  }

  /** With two cells in every row the table is the pairs put in row order. */
  lemma {:induction false} MappingTableFromPairs(acc: OMap<string, string>, rows: seq<DataRow>)
    requires forall k :: 0 <= k < |rows| ==> |rows[k].cells| >= 2
    ensures MappingTableFrom(acc, rows) == Ok(PutAll(acc, MappingPairs(rows)))
    decreases |rows|
  {
    if rows != [] {
      var cs := rows[0].cells;
      var ps := MappingPairs(rows);
      assert forall k :: 0 <= k < |rows[1..]| ==> rows[1..][k] == rows[k + 1];
      MappingTableFromPairs(Put(acc, cs[0].value, cs[1].value), rows[1..]);
      assert ps[1..] == MappingPairs(rows[1..]);
      assert ps[0] == (cs[0].value, cs[1].value);
      assert PutAll(acc, ps) == PutAll(Put(acc, cs[0].value, cs[1].value), ps[1..]);
    }
  }

  /** Otherwise the first row with fewer than two cells throws at the missing index. */
  lemma {:induction false} MappingTableShortRow(acc: OMap<string, string>, rows: seq<DataRow>, k: nat)
    requires k < |rows| && |rows[k].cells| < 2
    requires forall l :: 0 <= l < k ==> |rows[l].cells| >= 2
    ensures MappingTableFrom(acc, rows) == Err(IndexOutOfBounds(|rows[k].cells|))
    decreases |rows|
  {
    if k > 0 {
      var cs := rows[0].cells;
      assert forall l :: 0 <= l < |rows[1..]| ==> rows[1..][l] == rows[l + 1];
      MappingTableShortRow(Put(acc, cs[0].value, cs[1].value), rows[1..], k - 1);
    }
  }

  /** A later mapping row for the same old name overwrites an earlier one: each old name maps to
      the new name of its last row, and names without a row are absent. */
  lemma MappingLastRowWins(rows: seq<DataRow>, name: string)
    requires forall k :: 0 <= k < |rows| ==> |rows[k].cells| >= 2
    ensures MappingTable(rows).Ok?
    ensures Get(MappingTable(rows).value, name) ==
              if name in KeySet(MappingPairs(rows)) then Some(LastValue(MappingPairs(rows), name)) else None
  {
    MappingTableFromPairs([], rows);
    PutAllGet([], MappingPairs(rows), name);
  }

  /** A sheet after renaming: the new name when its name is an old name of the table. */
  function Renamed(s: DataSheet, table: OMap<string, string>): DataSheet {
    match Get(table, s.name)
    case Some(n) => s.(name := n)
    case None => s
  }

  function RenameAll(sheets: seq<DataSheet>, table: OMap<string, string>): (r: seq<DataSheet>)
    ensures |r| == |sheets| && forall i :: 0 <= i < |sheets| ==> r[i] == Renamed(sheets[i], table)
  {
    seq(|sheets|, i requires 0 <= i < |sheets| => Renamed(sheets[i], table))
  }

  /** Renaming keeps every sheet's headers and rows and changes exactly the names that are old
      names of the table, each to its new name. */
  lemma RenamedSheet(s: DataSheet, table: OMap<string, string>)
    ensures Renamed(s, table).headers == s.headers && Renamed(s, table).dataRows == s.dataRows
    ensures s.name in KeySet(table) ==> Some(Renamed(s, table).name) == Get(table, s.name)
    ensures s.name !in KeySet(table) ==> Renamed(s, table) == s
  {
  }

  /** fixMappingSheet. Without a mapping sheet nothing changes. Otherwise the mapping sheet is
      removed first; then a column count other than two throws; then each sheet whose name is an
      old name of the table is renamed to its new name. */
  method FixMappingSheet(data: DataFile) returns (r: Result<()>)
    modifies data
    ensures old(data.MappingSheet()).None? ==> data.dataSheets == old(data.dataSheets) && r.Ok?
    ensures old(data.MappingSheet()).Some? ==>
              var m := old(data.MappingSheet()).value;
              var ms := old(data.dataSheets)[m];
              var rest := RemoveAt(old(data.dataSheets), m);
              if |ms.headers| != 2 then r == Err(MappingSheetColumns(|ms.headers|)) && data.dataSheets == rest
              else match MappingTable(ms.dataRows)
                case Err(e) => r == Err(e) && data.dataSheets == rest
                case Ok(t) => r.Ok? && data.dataSheets == RenameAll(rest, t)
  {
    var m := data.MappingSheet();
    if m.None? {
      return Ok(());
    }
    var mappingSheet := data.dataSheets[m.value];
    data.dataSheets := RemoveAt(data.dataSheets, m.value);
    if |mappingSheet.headers| != 2 {
      return Err(MappingSheetColumns(|mappingSheet.headers|));
    }
    var table :- BuildMappingTable(mappingSheet.dataRows);
    RenameSheets(data, table);
    r := Ok(());
  }

  /** The forEach of put calls over the mapping rows. */
  method BuildMappingTable(rows: seq<DataRow>) returns (r: Result<OMap<string, string>>)
    ensures r == MappingTable(rows)
  {
    var table: OMap<string, string> := [];
    var k := 0;
    while k < |rows|
      invariant 0 <= k <= |rows|
      invariant MappingTableFrom(table, rows[k..]) == MappingTable(rows)
    {
      assert rows[k..][0] == rows[k] && rows[k..][1..] == rows[k + 1..];
      var cs := rows[k].cells;
      if |cs| < 2 {
        return Err(IndexOutOfBounds(|cs|));
      }
      table := Put(table, cs[0].value, cs[1].value);
      k := k + 1;
    }
    assert rows[k..] == [];
    r := Ok(table);
  }

  /** Renames, in place, every sheet whose name is an old name of the table. */
  method RenameSheets(data: DataFile, table: OMap<string, string>)
    modifies data
    ensures data.dataSheets == RenameAll(old(data.dataSheets), table)
  {
    ghost var before := data.dataSheets;
    var i := 0;
    while i < |data.dataSheets|
      invariant 0 <= i <= |data.dataSheets| == |before|
      invariant forall j :: 0 <= j < |before| ==> data.dataSheets[j] == if j < i then Renamed(before[j], table) else before[j]
    {
      data.dataSheets := data.dataSheets[i := Renamed(data.dataSheets[i], table)];
      i := i + 1;
    }
  }

  /** readExcelFile: every sheet parsed in workbook order, then the mapping sheet applied. A
      parse failure or a mapping failure aborts the read. */
  method ReadExcelFile(sheets: seq<RawSheet>) returns (r: Result<DataFile>)
    ensures r.Ok? ==> fresh(r.value)
    ensures r.Ok? && (forall i :: 0 <= i < |sheets| ==> !IsMappingName(sheets[i].name)) ==>
              |r.value.dataSheets| == |sheets| && forall i :: 0 <= i < |sheets| ==> r.value.dataSheets[i].name == sheets[i].name
  {
    var parsed: seq<DataSheet> := [];
    var i := 0;
    while i < |sheets|
      invariant 0 <= i <= |sheets| && |parsed| == i
      invariant forall j :: 0 <= j < i ==> parsed[j].name == sheets[j].name
    {
      var sheet :- ParseSheet(sheets[i]);
      parsed := parsed + [sheet];
      i := i + 1;
    }
    var data := new DataFile(parsed);
    var fixed := FixMappingSheet(data);
    if fixed.Err? {
      return Err(fixed.failure);
    }
    r := Ok(data);
  }
}
