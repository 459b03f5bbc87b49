/** The earlier ExcelDataReader (the `_out` iteration): sheets become ExcelSheetData values of
    plain strings, read in workbook order or, for deletes, in reverse order, and the sheet named
    exactly `_mapping` renames the others. Cell texts arrive already read. */
module ExcelReaderOut {
  import opened Wrappers
  import opened OrderedMaps
  import opened Constants
  import ExcelReader

  /** A sheet: its name, its header texts and its rows of texts. */
  datatype ExcelSheetData = ExcelSheetData(sheetName: string, headers: seq<string>, rows: seq<seq<string>>)

  /** A sheet of the workbook: its name and its defined rows, the first being the header row. A
      row lists positions 0 .. lastCellNum - 1, with the text of each present cell. */
  datatype WorkbookSheet = WorkbookSheet(name: string, rows: seq<seq<Option<string>>>)

  /** getCellValue: a missing cell reads as "". */
  function CellValue(c: Option<string>): string {
    if c.Some? then c.value else ""
  }

  /** The values of a data row, one per position. */
  function RowValues(raw: seq<Option<string>>): (vs: seq<string>)
    ensures |vs| == |raw| && forall i :: 0 <= i < |raw| ==> vs[i] == CellValue(raw[i])
  {
    seq(|raw|, i requires 0 <= i < |raw| => CellValue(raw[i]))
  }

  /** The header texts: the present cells of the header row, in order. */
  function HeaderValues(raw: seq<Option<string>>): seq<string> {
    if raw == [] then []
    else
      var n := |raw| - 1;
      HeaderValues(raw[..n]) + (if raw[n].Some? then [raw[n].value] else [])
  }

  /** The data rows that hold at least one position, as values. */
  function KeptRows(rs: seq<seq<Option<string>>>): seq<seq<string>> {
    if rs == [] then []
    else
      var n := |rs| - 1;
      KeptRows(rs[..n]) + (if |rs[n]| > 0 then [RowValues(rs[n])] else [])
  }

  /** What parseSheet builds from a sheet. */
  function ParsedSheet(ws: WorkbookSheet): ExcelSheetData {
    if ws.rows == [] then ExcelSheetData(ws.name, [], [])
    else ExcelSheetData(ws.name, HeaderValues(ws.rows[0]), KeptRows(ws.rows[1..]))
  }

  /** Every kept row is non-empty, and every position of a non-empty row is kept, missing cells
      as "": with no empty row, the rows are exactly the values of the data rows. */
  lemma {:induction false} KeptRowsShape(rs: seq<seq<Option<string>>>)
    ensures forall k :: 0 <= k < |KeptRows(rs)| ==> |KeptRows(rs)[k]| > 0
    ensures |KeptRows(rs)| <= |rs|
    ensures (forall k :: 0 <= k < |rs| ==> |rs[k]| > 0) ==>
              KeptRows(rs) == seq(|rs|, k requires 0 <= k < |rs| => RowValues(rs[k]))
  {
    if rs != [] {
      var n := |rs| - 1;
      KeptRowsShape(rs[..n]);
      if forall k :: 0 <= k < |rs| ==> |rs[k]| > 0 {
        assert forall k :: 0 <= k < n ==> |rs[..n][k]| > 0;
      }
    }
  }

  method ReadHeaderRow(raw: seq<Option<string>>) returns (headers: seq<string>)
    ensures headers == HeaderValues(raw)
  {
    headers := [];
    var i := 0;
    while i < |raw|
      invariant 0 <= i <= |raw| && headers == HeaderValues(raw[..i])
    {
      assert raw[..i + 1][..i] == raw[..i];
      if raw[i].Some? {
        headers := headers + [raw[i].value];
      }
      i := i + 1;
    }
    assert raw[..i] == raw;
  }

  /** parseSheet: the header row's present cells, then every data row that holds a position. */
  method ParseSheet(ws: WorkbookSheet) returns (d: ExcelSheetData)
    ensures d == ParsedSheet(ws)
  {
    if ws.rows == [] {
      return ExcelSheetData(ws.name, [], []);
    }
    var headers := ReadHeaderRow(ws.rows[0]);
    var data := ws.rows[1..];
    var rows: seq<seq<string>> := [];
    var k := 0;
    while k < |data|
      invariant 0 <= k <= |data| && rows == KeptRows(data[..k])
    {
      assert data[..k + 1][..k] == data[..k];
      var raw := data[k];
      var rowData: seq<string> := [];
      var i := 0;
      while i < |raw|
        invariant 0 <= i <= |raw| && rowData == RowValues(raw)[..i]
      {
        rowData := rowData + [CellValue(raw[i])];
        i := i + 1;
      }
      assert rowData == RowValues(raw);
      if rowData != [] {
        rows := rows + [rowData];
      }
      k := k + 1;
    }
    assert data[..k] == data;
    d := ExcelSheetData(ws.name, headers, rows);
  }

  /** The parsed sheets in workbook order, or in reverse order for a delete run. */
  function Ordered(sheets: seq<WorkbookSheet>, forDelete: bool): (r: seq<ExcelSheetData>)
    ensures |r| == |sheets|
    ensures forall i :: 0 <= i < |sheets| ==> r[i] == ParsedSheet(sheets[if forDelete then |sheets| - 1 - i else i])
  {
    var n := |sheets|;
    seq(n, i requires 0 <= i < n => ParsedSheet(sheets[if forDelete then n - 1 - i else i]))
  }

  /** The delete order is the creation order reversed, sheet by sheet. */
  lemma DeleteOrderReversed(sheets: seq<WorkbookSheet>)
    ensures forall i :: 0 <= i < |sheets| ==> Ordered(sheets, true)[i] == Ordered(sheets, false)[|sheets| - 1 - i]
  {
  }

  /** Position of the first sheet named exactly `_mapping` (case-sensitive), or -1. */
  function FirstMapping(sheets: seq<ExcelSheetData>): (m: int)
    ensures -1 <= m < |sheets|
    ensures m >= 0 ==> sheets[m].sheetName == MappingSheetName
    ensures forall j :: 0 <= j < |sheets| && (m < 0 || j < m) ==> sheets[j].sheetName != MappingSheetName
  {
    if sheets == [] then -1
    else if sheets[0].sheetName == MappingSheetName then 0
    else
      var m := FirstMapping(sheets[1..]);
      if m < 0 then -1 else m + 1
  }

  /** The old-name to new-name table, put row by row: get(0) is the old name, get(1) the new.
      A row with one value throws at index 1 (kept rows are never empty). */
  function TableFrom(acc: OMap<string, string>, rows: seq<seq<string>>): Result<OMap<string, string>>
    decreases |rows|
  {
    if rows == [] then Ok(acc)
    else if |rows[0]| < 2 then Err(IndexOutOfBounds(|rows[0]|))
    else TableFrom(Put(acc, rows[0][0], rows[0][1]), rows[1..])
  }

  function Renamed(s: ExcelSheetData, table: OMap<string, string>): ExcelSheetData {
    match Get(table, s.sheetName)
    case Some(n) => s.(sheetName := n)
    case None => s
  }

  /** applyMapping: without a sheet named `_mapping` nothing changes; a mapping sheet without
      exactly two headers throws; otherwise every sheet (the mapping sheet included) is renamed
      through the table, and then the mapping sheet itself is removed. */
  function MappingApplied(sheets: seq<ExcelSheetData>): Result<seq<ExcelSheetData>> {
    var m := FirstMapping(sheets);
    if m < 0 then Ok(sheets)
    else if |sheets[m].headers| != 2 then Err(MappingSheetColumns(|sheets[m].headers|))
    else
      var table :- TableFrom([], sheets[m].rows);
      var renamed := seq(|sheets|, i requires 0 <= i < |sheets| => Renamed(sheets[i], table));
      Ok(ExcelReader.RemoveAt(renamed, m))
  }

  method BuildTable(rows: seq<seq<string>>) returns (r: Result<OMap<string, string>>)
    ensures r == TableFrom([], rows)
  {
    var table: OMap<string, string> := [];
    var k := 0;
    while k < |rows|
      invariant 0 <= k <= |rows| && TableFrom(table, rows[k..]) == TableFrom([], rows)
    {
      assert rows[k..][0] == rows[k] && rows[k..][1..] == rows[k + 1..];
      if |rows[k]| < 2 {
        return Err(IndexOutOfBounds(|rows[k]|));
      }
      table := Put(table, rows[k][0], rows[k][1]);
      k := k + 1;
    }
    assert rows[k..] == [];
    r := Ok(table);
  }

  method ApplyMapping(sheets: seq<ExcelSheetData>) returns (r: Result<seq<ExcelSheetData>>)
    ensures r == MappingApplied(sheets)
  {
    var m := -1;
    var j := 0;
    while j < |sheets| && m < 0
      invariant 0 <= j <= |sheets|
      invariant m < 0 ==> forall i :: 0 <= i < j ==> sheets[i].sheetName != MappingSheetName
      invariant m >= 0 ==> m < j && sheets[m].sheetName == MappingSheetName &&
                           forall i :: 0 <= i < m ==> sheets[i].sheetName != MappingSheetName
    {
      if sheets[j].sheetName == MappingSheetName {
        m := j;
      }
      j := j + 1;
    }
    assert m == FirstMapping(sheets);
    if m < 0 {
      return Ok(sheets);
    }
    var mappingSheet := sheets[m];
    if |mappingSheet.headers| != 2 {
      return Err(MappingSheetColumns(|mappingSheet.headers|));
    }
    var table :- BuildTable(mappingSheet.rows);
    var renamed := sheets;
    var i := 0;
    while i < |renamed|
      invariant 0 <= i <= |renamed| == |sheets|
      invariant forall l :: 0 <= l < |sheets| ==> renamed[l] == if l < i then Renamed(sheets[l], table) else sheets[l]
    {
      renamed := renamed[i := Renamed(renamed[i], table)];
      i := i + 1;
    }
    assert renamed == seq(|sheets|, l requires 0 <= l < |sheets| => Renamed(sheets[l], table));
    r := Ok(ExcelReader.RemoveAt(renamed, m));
  }

  /** Without a sheet named exactly `_mapping` the sheets are returned unchanged; in particular
      a sheet named `_MAPPING` is kept as a data sheet. */
  lemma NoMappingUnchanged(sheets: seq<ExcelSheetData>)
    requires forall i :: 0 <= i < |sheets| ==> sheets[i].sheetName != MappingSheetName
    ensures MappingApplied(sheets) == Ok(sheets)
  {
  }

  /** With a well-formed mapping sheet, the result drops exactly that sheet and renames each other
      sheet to the new name of the last mapping row for its name, keeping headers and rows. */
  lemma MappingRenames(sheets: seq<ExcelSheetData>, i: nat)
    requires FirstMapping(sheets) >= 0
    requires TableFrom([], sheets[FirstMapping(sheets)].rows).Ok? && |sheets[FirstMapping(sheets)].headers| == 2
    requires i < |sheets| - 1
    ensures MappingApplied(sheets).Ok? && |MappingApplied(sheets).value| == |sheets| - 1
    ensures var m := FirstMapping(sheets);
            var s := sheets[if i < m then i else i + 1];
            var t := TableFrom([], sheets[m].rows).value;
            MappingApplied(sheets).value[i] == Renamed(s, t) &&
            Renamed(s, t).headers == s.headers && Renamed(s, t).rows == s.rows &&
            (s.sheetName in KeySet(t) ==> Some(Renamed(s, t).sheetName) == Get(t, s.sheetName)) &&
            (s.sheetName !in KeySet(t) ==> Renamed(s, t) == s)
  {
  }

  /** readExcelFile: parse every sheet in the chosen order, then apply the mapping sheet. */
  method ReadExcelFile(sheets: seq<WorkbookSheet>, forDelete: bool) returns (r: Result<seq<ExcelSheetData>>)
    ensures r == MappingApplied(Ordered(sheets, forDelete))
  {
    var all: seq<ExcelSheetData> := [];
    if forDelete {
      var i := |sheets| - 1;
      while i >= 0
        invariant -1 <= i < |sheets| && |all| == |sheets| - 1 - i
        invariant forall l :: 0 <= l < |all| ==> all[l] == ParsedSheet(sheets[|sheets| - 1 - l])
      {
        var d := ParseSheet(sheets[i]);
        all := all + [d];
        i := i - 1;
      }
    } else {
      var i := 0;
      while i < |sheets|
        invariant 0 <= i <= |sheets| && |all| == i
        invariant forall l :: 0 <= l < i ==> all[l] == ParsedSheet(sheets[l])
      {
        var d := ParseSheet(sheets[i]);
        all := all + [d];
        i := i + 1;
      }
    }
    assert all == Ordered(sheets, forDelete);
    r := ApplyMapping(all);
  }
}
