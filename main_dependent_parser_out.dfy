/** The earlier graphql.parser.MainDependentParser, over string headers and rows of strings:
    `*Class.attr` headers are external attributes whose cells are replaced by cached ids; the
    other columns are copied as they are. */
module MainDependentParserOut {
  import opened Wrappers
  import opened OrderedMaps
  import opened ExternalAttributes
  import opened Attributes
  import opened ResolverParser
  import opened MutationBuilder
  import opened ExcelReaderOut

  /** row.get(i), or "" past the end of the row. */
  function CellAt(row: seq<string>, i: nat): string {
    if i < |row| then row[i] else ""
  }

  /** Column i of resolveRowAttributes. An external column is looked up whatever its value:
      the key is built from the parsed class and attribute and the value, and a key without
      an id throws IllegalStateException; the id goes under the target attribute name. Any
      other column is kept under the raw header when its value is not empty. */
  function ColumnStep(a2i: OMap<string, string>, headers: seq<string>, row: seq<string>, i: nat): Step
    requires i < |headers|
  {
    var header := headers[i];
    var value := CellAt(row, i);
    if IsExternalAttribute(header) then
      match Parse(header)
      case Err(f) => Fail(f)
      case Ok(ext) =>
        match BuildAttrKey(ext.className, ext.attributeName, value)
        case Err(f) => Fail(f)
        case Ok(key) =>
          match Get(a2i, key)
          case None => Fail(IdNotFound(key))
          case Some(id) => Emit(ExtractTargetAttributeName(header, ext.className), id)
    else if value != "" then Emit(header, value)
    else Skip
  }

  function RowSteps(a2i: OMap<string, string>, headers: seq<string>, row: seq<string>): (ss: seq<Step>)
    ensures |ss| == |headers| && forall i :: 0 <= i < |headers| ==> ss[i] == ColumnStep(a2i, headers, row, i)
  {
    seq(|headers|, i requires 0 <= i < |headers| => ColumnStep(a2i, headers, row, i))
  }

  /** resolveRowAttributes. */
  function RowAttributesOf(a2i: OMap<string, string>, headers: seq<string>, row: seq<string>): Result<OMap<string, string>> {
    Fold([], RowSteps(a2i, headers, row))
  }

  /** The key under which column i's id is cached, when the header parses. */
  function KeyOf(headers: seq<string>, row: seq<string>, i: nat): Result<string>
    requires i < |headers|
  {
    var ext :- Parse(headers[i]);
    BuildAttrKey(ext.className, ext.attributeName, CellAt(row, i))
  }

  /** The column is external and its key has an id. */
  predicate Found(a2i: OMap<string, string>, headers: seq<string>, row: seq<string>, i: nat)
    requires i < |headers|
  {
    IsExternalAttribute(headers[i]) && KeyOf(headers, row, i).Ok? && KeyOf(headers, row, i).value in KeySet(a2i)
  }

  /** The column puts an entry: an external column whose key has an id, or another column
      with a non-empty value. */
  predicate Contributes(a2i: OMap<string, string>, headers: seq<string>, row: seq<string>, i: nat)
    requires i < |headers|
  {
    if IsExternalAttribute(headers[i]) then Found(a2i, headers, row, i) else CellAt(row, i) != ""
  }

  /** The name column i puts its entry under. */
  function NameOf(headers: seq<string>, i: nat): string
    requires i < |headers|
  {
    if IsExternalAttribute(headers[i]) && Parse(headers[i]).Ok? then
      ExtractTargetAttributeName(headers[i], Parse(headers[i]).value.className)
    else headers[i]
  }

  lemma StepsMeaning(a2i: OMap<string, string>, headers: seq<string>, row: seq<string>)
    ensures forall i :: 0 <= i < |headers| ==>
              (RowSteps(a2i, headers, row)[i].Fail? <==> IsExternalAttribute(headers[i]) && !Found(a2i, headers, row, i))
    ensures forall i :: 0 <= i < |headers| && !RowSteps(a2i, headers, row)[i].Fail? ==>
              (RowSteps(a2i, headers, row)[i].Emit? <==> Contributes(a2i, headers, row, i))
    ensures forall i :: 0 <= i < |headers| && RowSteps(a2i, headers, row)[i].Emit? ==>
              RowSteps(a2i, headers, row)[i].name == NameOf(headers, i) &&
              RowSteps(a2i, headers, row)[i].value ==
                (if IsExternalAttribute(headers[i]) then Get(a2i, KeyOf(headers, row, i).value).value else CellAt(row, i))
  {
  }

  /** A row's map can be built exactly when every external column's key can be built and
      has an id, whatever the value, an empty one included. */
  lemma RowAttributesOk(a2i: OMap<string, string>, headers: seq<string>, row: seq<string>)
    ensures RowAttributesOf(a2i, headers, row).Ok? <==>
            forall i :: 0 <= i < |headers| && IsExternalAttribute(headers[i]) ==> Found(a2i, headers, row, i)
  {
    FoldFails([], RowSteps(a2i, headers, row));
    StepsMeaning(a2i, headers, row);
  }

  /** The keys of a row's map are the names of its contributing columns: the target
      attribute names of external columns and the raw headers of the others. A name no later
      contributing column repeats holds the cached id, or the column's value. */
  lemma RowAttributesShape(a2i: OMap<string, string>, headers: seq<string>, row: seq<string>)
    requires RowAttributesOf(a2i, headers, row).Ok?
    ensures var attrs := RowAttributesOf(a2i, headers, row).value;
            forall k :: k in KeySet(attrs) <==>
              exists i :: 0 <= i < |headers| && Contributes(a2i, headers, row, i) && NameOf(headers, i) == k
    ensures var attrs := RowAttributesOf(a2i, headers, row).value;
            forall i :: (0 <= i < |headers| && Contributes(a2i, headers, row, i) &&
                         forall j :: i < j < |headers| && Contributes(a2i, headers, row, j) ==>
                           NameOf(headers, j) != NameOf(headers, i)) ==>
              Get(attrs, NameOf(headers, i)) ==
                Some(if IsExternalAttribute(headers[i]) then Get(a2i, KeyOf(headers, row, i).value).value else CellAt(row, i))
  {
    var steps := RowSteps(a2i, headers, row);
    RowAttributesOk(a2i, headers, row);
    FoldFails([], steps);
    StepsMeaning(a2i, headers, row);
    RowMap(steps);
  }

  function RowMaps(a2i: OMap<string, string>, headers: seq<string>, rows: seq<seq<string>>)
    : (ms: seq<Result<OMap<string, string>>>)
    ensures |ms| == |rows| && forall k :: 0 <= k < |rows| ==> ms[k] == RowAttributesOf(a2i, headers, rows[k])
  {
    seq(|rows|, k requires 0 <= k < |rows| => RowAttributesOf(a2i, headers, rows[k]))
  }

  /** buildCreateMutation with the numeric test it is given. */
  function CreateBuilder(doubleParses: string -> bool): Builder {
    (obj, attrs) => BuildCreateMutation(obj, attrs, doubleParses)
  }

  /** buildMutations: one create mutation per row whose map is not empty, in row order. */
  function MutationsOf(a2i: OMap<string, string>, obj: string, headers: seq<string>, rows: seq<seq<string>>,
                       doubleParses: string -> bool): Result<seq<string>>
  {
    EmitAll(obj, RowMaps(a2i, headers, rows), CreateBuilder(doubleParses))
  }

  /** The mutations can be built exactly when every row's map and the create mutation of
      every non-empty map can; they are then one per non-empty map, in row order. */
  lemma MutationsShape(a2i: OMap<string, string>, obj: string, headers: seq<string>, rows: seq<seq<string>>,
                       doubleParses: string -> bool)
    ensures MutationsOf(a2i, obj, headers, rows, doubleParses).Ok? <==>
            AllRowsOk(obj, RowMaps(a2i, headers, rows), CreateBuilder(doubleParses))
    ensures MutationsOf(a2i, obj, headers, rows, doubleParses).Ok? ==>
              (forall k :: 0 <= k < |rows| ==> RowAttributesOf(a2i, headers, rows[k]).Ok?) &&
              MutationsOf(a2i, obj, headers, rows, doubleParses).value ==
                Emitted(obj, Values(RowMaps(a2i, headers, rows)), CreateBuilder(doubleParses))
  {
    EmitAllOk(obj, RowMaps(a2i, headers, rows), CreateBuilder(doubleParses));
  }

  /** The collect-and-resolve of the base class, which fills the cache for the sheet. */
  type Resolve = (OMap<string, string>, ExcelSheetData) -> (OMap<string, string>, Option<Failure>)

  /** parseAndGenerateMutations from a cache: the resolve, then the mutations named after
      the sheet, read with the cache the resolve leaves. */
  function ParseOf(a2i: OMap<string, string>, sheet: ExcelSheetData, resolve: Resolve, doubleParses: string -> bool)
    : (OMap<string, string>, Result<seq<string>>)
  {
    var (a2i', f) := resolve(a2i, sheet);
    if f.Some? then (a2i', Err(f.value))
    else (a2i', MutationsOf(a2i', sheet.sheetName, sheet.headers, sheet.rows, doubleParses))
  }

  /** The parser: the cache of its base class. */
  class MainDependentParser {
    var attr2id: OMap<string, string>

    constructor()
      ensures attr2id == []
    {
      attr2id := [];
    }

    method ParseAndGenerateMutations(sheet: ExcelSheetData, resolve: Resolve, doubleParses: string -> bool)
      returns (r: Result<seq<string>>)
      modifies this
      ensures (attr2id, r) == ParseOf(old(attr2id), sheet, resolve, doubleParses)
    {
      var resolved := resolve(attr2id, sheet);
      attr2id := resolved.0;
      if resolved.1.Some? {
        return Err(resolved.1.value);
      }
      r := BuildMutations(sheet.sheetName, sheet.headers, sheet.rows, doubleParses);
    }

    method BuildMutations(obj: string, headers: seq<string>, rows: seq<seq<string>>, doubleParses: string -> bool)
      returns (r: Result<seq<string>>)
      ensures r == MutationsOf(attr2id, obj, headers, rows, doubleParses)
    {
      ghost var build := CreateBuilder(doubleParses);
      ghost var results := RowMaps(attr2id, headers, rows);
      var mutations: seq<string> := [];
      var k := 0;
      while k < |rows|
        invariant 0 <= k <= |rows|
        invariant EmitFrom(mutations, obj, results[k..], build) == EmitAll(obj, results, build)
      {
        assert results[k..][0] == results[k] && results[k..][1..] == results[k + 1..];
        var attributes := ResolveRowAttributes(headers, rows[k]);
        if attributes.Err? {
          return Err(attributes.failure);
        }
        if attributes.value != [] {
          var mutation := BuildCreateMutation(obj, attributes.value, doubleParses);
          if mutation.Err? {
            assert RowMutations(obj, results[k], build) == Err(mutation.failure);
            return Err(mutation.failure);
          }
          assert RowMutations(obj, results[k], build) == Ok([mutation.value]);
          mutations := mutations + [mutation.value];
        } else {
          assert RowMutations(obj, results[k], build) == Ok([]);
          assert mutations + [] == mutations;
        }
        k := k + 1;
      }
      assert results[k..] == [];
      return Ok(mutations);
    }

    method ResolveRowAttributes(headers: seq<string>, row: seq<string>) returns (r: Result<OMap<string, string>>)
      ensures r == RowAttributesOf(attr2id, headers, row)
    {
      ghost var steps := RowSteps(attr2id, headers, row);
      var resolved: OMap<string, string> := [];
      var i := 0;
      while i < |headers|
        invariant 0 <= i <= |headers|
        invariant Fold(resolved, steps[i..]) == Fold([], steps)
      {
        assert steps[i..][0] == steps[i] && steps[i..][1..] == steps[i + 1..];
        var header := headers[i];
        var value := if i < |row| then row[i] else "";
        if IsExternalAttribute(header) {
          var ext := Parse(header);
          if ext.Err? {
            return Err(ext.failure);
          }
          var key := BuildAttrKey(ext.value.className, ext.value.attributeName, value);
          if key.Err? {
            return Err(key.failure);
          }
          var id := Get(attr2id, key.value);
          if id.None? {
            return Err(IdNotFound(key.value));
          }
          resolved := Put(resolved, ExtractTargetAttributeName(header, ext.value.className), id.value);
        } else if value != "" {
          resolved := Put(resolved, header, value);
        }
        i := i + 1;
      }
      assert steps[i..] == [];
      return Ok(resolved);
    }
  }
}
