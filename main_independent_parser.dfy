/** graphql.parser.MainIndependentParser: a sheet without references. Every row becomes one
    create mutation of the sheet's object, made of the formatted values of its non-blank cells
    under their headers' attribute names. No lookup is made. */
module MainIndependentParser {
  import opened Wrappers
  import opened OrderedMaps
  import opened Headers
  import opened DataCells
  import opened DataModel
  import opened Attributes

  /** Column i of a row: passed over when the row has no cell there or the cell is blank,
      otherwise the header's attribute name with the cell's formatted value. The cell at i is
      the i-th of the row's cells, whatever its own header. */
  function ColumnStep(headers: seq<Header>, row: DataRow, i: nat): (s: Step)
    requires i < |headers|
    ensures s.Skip? <==> i >= |row.cells| || CellIsBlank(row.cells[i].cell, row.cells[i].value)
    ensures s.Emit? ==> s.name == AttributeName(headers[i].text) && Ok(s.value) == GetFormattedValue(row.cells[i])
  {
    if i >= |row.cells| then Skip
    else
      var cell := row.cells[i];
      if CellIsBlank(cell.cell, cell.value) then Skip
      else match GetFormattedValue(cell)
        case Err(f) => Fail(f)
        case Ok(v) => Emit(AttributeName(headers[i].text), v)
  }

  function RowSteps(headers: seq<Header>, row: DataRow): (ss: seq<Step>)
    ensures |ss| == |headers|
  {
    seq(|headers|, i requires 0 <= i < |headers| => ColumnStep(headers, row, i))
  }

  /** buildRowAttributes. */
  function RowAttributesOf(headers: seq<Header>, row: DataRow): Result<OMap<string, string>> {
    Fold([], RowSteps(headers, row))
  }

  method BuildRowAttributes(headers: seq<Header>, row: DataRow) returns (r: Result<OMap<string, string>>)
    ensures r == RowAttributesOf(headers, row)
  {
    ghost var steps := RowSteps(headers, row);
    var attributes: OMap<string, string> := [];
    var i := 0;
    while i < |headers|
      invariant 0 <= i <= |headers|
      invariant Fold(attributes, steps[i..]) == Fold([], steps)
    {
      assert steps[i..][0] == steps[i] && steps[i..][1..] == steps[i + 1..];
      if i < |row.cells| {
        var header := headers[i];
        var cell := row.cells[i];
        if !CellIsBlank(cell.cell, cell.value) {
          var v := GetFormattedValue(cell);
          if v.Err? {
            return Err(v.failure);
          }
          attributes := Put(attributes, AttributeName(header.text), v.value);
        }
      }
      i := i + 1;
    }
    assert steps[i..] == [];
    return Ok(attributes);
  }

  /** The cell at column i is non-blank and gets an attribute. */
  predicate Contributes(headers: seq<Header>, row: DataRow, i: nat) {
    i < |headers| && i < |row.cells| && !CellIsBlank(row.cells[i].cell, row.cells[i].value)
  }

  /** A row's map can be built exactly when every contributing cell formats. */
  lemma RowAttributesOk(headers: seq<Header>, row: DataRow)
    ensures RowAttributesOf(headers, row).Ok? <==>
            forall i :: 0 <= i < |headers| && Contributes(headers, row, i) ==> GetFormattedValue(row.cells[i]).Ok?
  {
    var steps := RowSteps(headers, row);
    FoldFails([], steps);
    StepsFail(headers, row);
  }

  lemma StepsFail(headers: seq<Header>, row: DataRow)
    ensures forall i :: 0 <= i < |headers| ==>
              (RowSteps(headers, row)[i].Fail? <==> Contributes(headers, row, i) && GetFormattedValue(row.cells[i]).Err?)
  {
    forall i | 0 <= i < |headers|
      ensures RowSteps(headers, row)[i].Fail? <==> Contributes(headers, row, i) && GetFormattedValue(row.cells[i]).Err?
    {
      assert RowSteps(headers, row)[i] == ColumnStep(headers, row, i);
    }
  }

  /** The column decisions of a row without a failure: contributing columns emit their
      attribute name with their formatted value, the others are passed over. */
  lemma RowStepsMeaning(headers: seq<Header>, row: DataRow)
    requires RowAttributesOf(headers, row).Ok?
    ensures NoFail(RowSteps(headers, row))
    ensures forall i :: 0 <= i < |headers| ==>
              (RowSteps(headers, row)[i].Emit? <==> Contributes(headers, row, i)) &&
              (RowSteps(headers, row)[i].Emit? ==>
                 RowSteps(headers, row)[i].name == AttributeName(headers[i].text) &&
                 Ok(RowSteps(headers, row)[i].value) == GetFormattedValue(row.cells[i]))
  {
    FoldFails([], RowSteps(headers, row));
  }

  /** The keys of a row's map are the attribute names of its contributing columns, and a name
      no later contributing column repeats holds its column's formatted value. Columns past the
      row's cells add nothing. */
  lemma RowAttributesShape(headers: seq<Header>, row: DataRow)
    requires RowAttributesOf(headers, row).Ok?
    ensures var attrs := RowAttributesOf(headers, row).value;
            forall k :: k in KeySet(attrs) <==>
              exists i :: 0 <= i < |headers| && Contributes(headers, row, i) && AttributeName(headers[i].text) == k
    ensures var attrs := RowAttributesOf(headers, row).value;
            forall i :: (0 <= i < |headers| && Contributes(headers, row, i) &&
                         forall j :: i < j < |headers| && Contributes(headers, row, j) ==>
                           AttributeName(headers[j].text) != AttributeName(headers[i].text)) ==>
              Get(attrs, AttributeName(headers[i].text)).Some? &&
              Ok(Get(attrs, AttributeName(headers[i].text)).value) == GetFormattedValue(row.cells[i])
  {
    RowAttributeKeys(headers, row);
    RowAttributeValues(headers, row);
  }

  lemma RowAttributeKeys(headers: seq<Header>, row: DataRow)
    requires RowAttributesOf(headers, row).Ok?
    ensures var attrs := RowAttributesOf(headers, row).value;
            forall k :: k in KeySet(attrs) <==>
              exists i :: 0 <= i < |headers| && Contributes(headers, row, i) && AttributeName(headers[i].text) == k
  {
    var steps := RowSteps(headers, row);
    var attrs := RowAttributesOf(headers, row).value;
    FoldFails([], steps);
    RowMap(steps);
    forall k ensures k in KeySet(attrs) <==>
                     exists i :: 0 <= i < |headers| && Contributes(headers, row, i) && AttributeName(headers[i].text) == k
    {
      if k in KeySet(attrs) {
        var i :| 0 <= i < |steps| && steps[i].Emit? && steps[i].name == k;
        assert steps[i] == ColumnStep(headers, row, i);
      }
      if exists i :: 0 <= i < |headers| && Contributes(headers, row, i) && AttributeName(headers[i].text) == k {
        var i :| 0 <= i < |headers| && Contributes(headers, row, i) && AttributeName(headers[i].text) == k;
        assert steps[i] == ColumnStep(headers, row, i);
      }
    }
  }

  lemma RowAttributeValues(headers: seq<Header>, row: DataRow)
    requires RowAttributesOf(headers, row).Ok?
    ensures var attrs := RowAttributesOf(headers, row).value;
            forall i :: (0 <= i < |headers| && Contributes(headers, row, i) &&
                         forall j :: i < j < |headers| && Contributes(headers, row, j) ==>
                           AttributeName(headers[j].text) != AttributeName(headers[i].text)) ==>
              Get(attrs, AttributeName(headers[i].text)).Some? &&
              Ok(Get(attrs, AttributeName(headers[i].text)).value) == GetFormattedValue(row.cells[i])
  {
    var attrs := RowAttributesOf(headers, row).value;
    forall i | 0 <= i < |headers| && Contributes(headers, row, i) &&
               forall j :: i < j < |headers| && Contributes(headers, row, j) ==>
                 AttributeName(headers[j].text) != AttributeName(headers[i].text)
      ensures Get(attrs, AttributeName(headers[i].text)).Some? &&
              Ok(Get(attrs, AttributeName(headers[i].text)).value) == GetFormattedValue(row.cells[i])
    {
      RowAttributeValueAt(headers, row, i);
    }
  }

  /** RowAttributeValues for one column. */
  lemma RowAttributeValueAt(headers: seq<Header>, row: DataRow, i: nat)
    requires RowAttributesOf(headers, row).Ok?
    requires i < |headers| && Contributes(headers, row, i)
    requires forall j :: i < j < |headers| && Contributes(headers, row, j) ==>
               AttributeName(headers[j].text) != AttributeName(headers[i].text)
    ensures var attrs := RowAttributesOf(headers, row).value;
            Get(attrs, AttributeName(headers[i].text)).Some? &&
            Ok(Get(attrs, AttributeName(headers[i].text)).value) == GetFormattedValue(row.cells[i])
  {
    var steps := RowSteps(headers, row);
    FoldFails([], steps);
    RowMap(steps);
    assert steps[i] == ColumnStep(headers, row, i);
    forall j | i < j < |steps| && steps[j].Emit? ensures steps[j].name != steps[i].name {
      assert steps[j] == ColumnStep(headers, row, j);
    }
  }

  /** buildMutations: one mutation per row whose map is not empty, in row order, named after
      the sheet. */
  function MutationsOf(obj: string, headers: seq<Header>, rows: seq<DataRow>, build: Builder): Result<seq<string>> {
    EmitAll(obj, seq(|rows|, k requires 0 <= k < |rows| => RowAttributesOf(headers, rows[k])), build)
  }

  method BuildMutations(obj: string, headers: seq<Header>, rows: seq<DataRow>, build: Builder) returns (r: Result<seq<string>>)
    ensures r == MutationsOf(obj, headers, rows, build)
  {
    ghost var results := seq(|rows|, k requires 0 <= k < |rows| => RowAttributesOf(headers, rows[k]));
    var mutations: seq<string> := [];
    var k := 0;
    while k < |rows|
      invariant 0 <= k <= |rows|
      invariant EmitFrom(mutations, obj, results[k..], build) == EmitAll(obj, results, build)
    {
      assert results[k..][0] == results[k] && results[k..][1..] == results[k + 1..];
      var attributes := BuildRowAttributes(headers, rows[k]);
      assert attributes == results[k];
      if attributes.Err? {
        return Err(attributes.failure);
      }
      if attributes.value != [] {
        var mutation := build(obj, attributes.value);
        if mutation.Err? {
          return Err(mutation.failure);
        }
        assert RowMutations(obj, results[k], build) == Ok([mutation.value]);
        mutations := mutations + [mutation.value];
      } else {
        assert RowMutations(obj, results[k], build) == Ok([]);
        assert mutations + [] == mutations;
      }
      k := k + 1;
    }
    assert results[k..] == [];
    return Ok(mutations);
  }

  /** parseAndGenerateMutations: the sheet's name, headers and rows; the query builder and the
      endpoints are not used. */
  method ParseAndGenerateMutations(sheet: DataSheet, build: Builder) returns (r: Result<seq<string>>)
    ensures r == MutationsOf(sheet.name, sheet.headers, sheet.dataRows, build)
  {
    r := BuildMutations(sheet.name, sheet.headers, sheet.dataRows, build);
  }
}
