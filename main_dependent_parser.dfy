/** graphql.parser.MainDependentParser: a main sheet read through
    ExternalAttributeResolverParser. The values of every reference column are collected and
    resolved into the cache first; then each row becomes one create mutation of the sheet's
    object, a reference cell giving the cached id under the header's role name. */
module MainDependentParser {
  import opened Wrappers
  import opened OrderedMaps
  import opened Headers
  import opened DataCells
  import opened DataModel
  import opened Attributes
  import opened ResolverParser

  /** The name and value a non-blank cell under header text t puts. The cell's formatted
      value is computed first. A reference is looked up in the cache under the key built
      from the header's class, attribute and that value; a key with no id throws
      IllegalStateException. */
  function ResolvedEntry(a2i: OMap<string, string>, t: string, cell: DataCell): Result<(string, string)> {
    var value :- GetFormattedValue(cell);
    if IsReference(t) then
      var cls :- ReferenceClassName(t);
      var attr :- ReferenceAttributeName(t);
      var key :- BuildAttrKey(cls, attr, value);
      match Get(a2i, key)
      case None => Err(IdNotFound(key))
      case Some(id) =>
        var role :- RoleName(t);
        Ok((role.value, id))
    else Ok((AttributeName(t), value))
  }

  /** The cell at column i is there and not blank. */
  predicate Contributes(headers: seq<Header>, row: DataRow, i: nat) {
    i < |headers| && i < |row.cells| && !CellIsBlank(row.cells[i].cell, row.cells[i].value)
  }

  /** Column i of resolveRowAttributes: a missing or blank cell is passed over. */
  function ColumnStep(a2i: OMap<string, string>, headers: seq<Header>, row: DataRow, i: nat): Step
    requires i < |headers|
  {
    if !Contributes(headers, row, i) then Skip
    else match ResolvedEntry(a2i, headers[i].text, row.cells[i])
      case Err(f) => Fail(f)
      case Ok((name, v)) => Emit(name, v)
  }

  function RowSteps(a2i: OMap<string, string>, headers: seq<Header>, row: DataRow): (ss: seq<Step>)
    ensures |ss| == |headers| && forall i :: 0 <= i < |headers| ==> ss[i] == ColumnStep(a2i, headers, row, i)
  {
    seq(|headers|, i requires 0 <= i < |headers| => ColumnStep(a2i, headers, row, i))
  }

  /** resolveRowAttributes. */
  function RowAttributesOf(a2i: OMap<string, string>, headers: seq<Header>, row: DataRow): Result<OMap<string, string>> {
    Fold([], RowSteps(a2i, headers, row))
  }

  /** A reference cell is stored under the header's role name with the id the cache holds
      for its key; a key without an id aborts with that key. Any other cell is stored under
      its attribute name with its formatted value. */
  lemma EntryMeaning(a2i: OMap<string, string>, t: string, cell: DataCell)
    requires GetFormattedValue(cell).Ok?
    ensures var value := GetFormattedValue(cell).value;
            !IsReference(t) ==> ResolvedEntry(a2i, t, cell) == Ok((AttributeName(t), value))
    ensures var value := GetFormattedValue(cell).value;
            (IsReference(t) && ReferenceParts(t).Ok? &&
             BuildAttrKey(ReferenceParts(t).value.0, ReferenceParts(t).value.1, value).Ok?) ==>
              var key := BuildAttrKey(ReferenceParts(t).value.0, ReferenceParts(t).value.1, value).value;
              (key !in KeySet(a2i) ==> ResolvedEntry(a2i, t, cell) == Err(IdNotFound(key))) &&
              (key in KeySet(a2i) ==>
                 RoleName(t).Ok? && RoleName(t).value.Some? &&
                 ResolvedEntry(a2i, t, cell) == Ok((RoleName(t).value.value, Get(a2i, key).value)))
    ensures IsReference(t) && ReferenceParts(t).Err? ==> ResolvedEntry(a2i, t, cell) == Err(ReferenceParts(t).failure)
  {
    if IsReference(t) && ReferenceParts(t).Ok? {
      assert DefaultRoleName(t).Ok?;
    }
  }

  lemma StepsMeaning(a2i: OMap<string, string>, headers: seq<Header>, row: DataRow)
    ensures forall i :: 0 <= i < |headers| ==>
              (RowSteps(a2i, headers, row)[i].Fail? <==>
                 Contributes(headers, row, i) && ResolvedEntry(a2i, headers[i].text, row.cells[i]).Err?)
    ensures forall i :: 0 <= i < |headers| && !RowSteps(a2i, headers, row)[i].Fail? ==>
              (RowSteps(a2i, headers, row)[i].Emit? <==> Contributes(headers, row, i)) &&
              (RowSteps(a2i, headers, row)[i].Emit? ==>
                 ResolvedEntry(a2i, headers[i].text, row.cells[i]) ==
                   Ok((RowSteps(a2i, headers, row)[i].name, RowSteps(a2i, headers, row)[i].value)))
  {
  }

  /** A row's map can be built exactly when every non-blank cell resolves. */
  lemma RowAttributesOk(a2i: OMap<string, string>, headers: seq<Header>, row: DataRow)
    ensures RowAttributesOf(a2i, headers, row).Ok? <==>
            forall i :: 0 <= i < |headers| && Contributes(headers, row, i) ==>
              ResolvedEntry(a2i, headers[i].text, row.cells[i]).Ok?
  {
    FoldFails([], RowSteps(a2i, headers, row));
    StepsMeaning(a2i, headers, row);
  }

  /** The keys of a row's map are the names of its non-blank cells' entries; a name no later
      non-blank cell repeats holds its cell's value. Columns past the row's cells add
      nothing. */
  lemma RowAttributesShape(a2i: OMap<string, string>, headers: seq<Header>, row: DataRow)
    requires RowAttributesOf(a2i, headers, row).Ok?
    ensures forall i :: 0 <= i < |headers| && Contributes(headers, row, i) ==>
              ResolvedEntry(a2i, headers[i].text, row.cells[i]).Ok?
    ensures var attrs := RowAttributesOf(a2i, headers, row).value;
            forall k :: k in KeySet(attrs) <==>
              exists i :: 0 <= i < |headers| && Contributes(headers, row, i) &&
                          ResolvedEntry(a2i, headers[i].text, row.cells[i]).value.0 == k
    ensures var attrs := RowAttributesOf(a2i, headers, row).value;
            forall i :: (0 <= i < |headers| && Contributes(headers, row, i) &&
                         forall j :: i < j < |headers| && Contributes(headers, row, j) ==>
                           ResolvedEntry(a2i, headers[j].text, row.cells[j]).value.0 !=
                           ResolvedEntry(a2i, headers[i].text, row.cells[i]).value.0) ==>
              var e := ResolvedEntry(a2i, headers[i].text, row.cells[i]).value;
              Get(attrs, e.0) == Some(e.1)
  {
    var steps := RowSteps(a2i, headers, row);
    RowAttributesOk(a2i, headers, row);
    FoldFails([], steps);
    StepsMeaning(a2i, headers, row);
    RowMap(steps);
  }

  function RowMaps(a2i: OMap<string, string>, headers: seq<Header>, rows: seq<DataRow>): (ms: seq<Result<OMap<string, string>>>)
    ensures |ms| == |rows| && forall k :: 0 <= k < |rows| ==> ms[k] == RowAttributesOf(a2i, headers, rows[k])
  {
    seq(|rows|, k requires 0 <= k < |rows| => RowAttributesOf(a2i, headers, rows[k]))
  }

  /** buildMutations: one mutation per row whose map is not empty, in row order. */
  function MutationsOf(a2i: OMap<string, string>, obj: string, headers: seq<Header>, rows: seq<DataRow>, build: Builder)
    : Result<seq<string>>
  {
    EmitAll(obj, RowMaps(a2i, headers, rows), build)
  }

  /** parseAndGenerateMutations from a cache: collect every reference column (none
      skipped), resolve, then build with the cache the resolve leaves. */
  function ParseOf(a2i: OMap<string, string>, sheet: DataSheet, exec: Executor, build: Builder)
    : (OMap<string, string>, Result<seq<string>>)
  {
    match CollectOf(sheet.headers, sheet.dataRows, {})
    case Err(f) => (a2i, Err(f))
    case Ok(entries) =>
      var (a2i', f) := ResolveEntries(a2i, entries, exec);
      if f.Some? then (a2i', Err(f.value))
      else (a2i', MutationsOf(a2i', sheet.name, sheet.headers, sheet.dataRows, build))
  }

  /** The mutations can be built exactly when every row's map and the mutation of every
      non-empty map can; they are then one per non-empty map, in row order. */
  lemma MutationsShape(a2i: OMap<string, string>, obj: string, headers: seq<Header>, rows: seq<DataRow>, build: Builder)
    ensures MutationsOf(a2i, obj, headers, rows, build).Ok? <==> AllRowsOk(obj, RowMaps(a2i, headers, rows), build)
    ensures MutationsOf(a2i, obj, headers, rows, build).Ok? ==>
              (forall k :: 0 <= k < |rows| ==> RowAttributesOf(a2i, headers, rows[k]).Ok?) &&
              MutationsOf(a2i, obj, headers, rows, build).value == Emitted(obj, Values(RowMaps(a2i, headers, rows)), build)
  {
    EmitAllOk(obj, RowMaps(a2i, headers, rows), build);
  }

  /** All reference columns are resolved before any mutation is built: mutations exist only
      after the whole collect and resolve succeeded, and they are read with the cache it
      left. No cached key is lost. */
  lemma ResolvedBeforeBuilt(a2i: OMap<string, string>, sheet: DataSheet, exec: Executor, build: Builder)
    ensures KeySet(a2i) <= KeySet(ParseOf(a2i, sheet, exec, build).0)
    ensures var (c, r) := ParseOf(a2i, sheet, exec, build);
            r.Ok? ==>
              CollectOf(sheet.headers, sheet.dataRows, {}).Ok? &&
              ResolveEntries(a2i, CollectOf(sheet.headers, sheet.dataRows, {}).value, exec) == (c, None) &&
              r == MutationsOf(c, sheet.name, sheet.headers, sheet.dataRows, build)
  {
    if CollectOf(sheet.headers, sheet.dataRows, {}).Ok? {
      ResolveEntriesGrows(a2i, CollectOf(sheet.headers, sheet.dataRows, {}).value, exec);
    }
  }

  /** The parser: the resolving base whose cache it fills and reads. */
  class MainDependentParser {
    const resolver: ExternalAttributeResolverParser

    constructor()
      ensures fresh(resolver) && resolver.attr2id == []
    {
      resolver := new ExternalAttributeResolverParser();
    }

    method ParseAndGenerateMutations(sheet: DataSheet, exec: Executor, build: Builder) returns (r: Result<seq<string>>)
      modifies resolver
      ensures (resolver.attr2id, r) == ParseOf(old(resolver.attr2id), sheet, exec, build)
    {
      var entries := CollectExternalAttributes(sheet.headers, sheet.dataRows, {});
      if entries.Err? {
        return Err(entries.failure);
      }
      var failure := resolver.ResolveAllExternalAttributesBatched(entries.value, exec);
      if failure.Some? {
        return Err(failure.value);
      }
      r := BuildMutations(sheet.name, sheet.headers, sheet.dataRows, build);
    }

    method BuildMutations(obj: string, headers: seq<Header>, rows: seq<DataRow>, build: Builder) returns (r: Result<seq<string>>)
      ensures r == MutationsOf(resolver.attr2id, obj, headers, rows, build)
    {
      ghost var results := RowMaps(resolver.attr2id, headers, rows);
      var mutations: seq<string> := [];
      var k := 0;
      while k < |rows|
        invariant 0 <= k <= |rows|
        invariant EmitFrom(mutations, obj, results[k..], build) == EmitAll(obj, results, build)
      {
        assert results[k..][0] == results[k] && results[k..][1..] == results[k + 1..];
        var attributes := ResolveRowAttributes(headers, rows[k]);
        if attributes.Err? {
          return Err(attributes.failure);
        }
        if attributes.value != [] {
          var mutation := build(obj, attributes.value);
          if mutation.Err? {
            return Err(mutation.failure);
          }
          assert RowMutations(obj, results[k], build) == Ok([mutation.value]);
          mutations := mutations + [mutation.value];
        } else {
          assert RowMutations(obj, results[k], build) == Ok([]);
          assert mutations + [] == mutations;
        }
        k := k + 1;
      }
      assert results[k..] == [];
      return Ok(mutations);
    }

    method ResolveRowAttributes(headers: seq<Header>, row: DataRow) returns (r: Result<OMap<string, string>>)
      ensures r == RowAttributesOf(resolver.attr2id, headers, row)
    {
      ghost var steps := RowSteps(resolver.attr2id, headers, row);
      var resolved: OMap<string, string> := [];
      var i := 0;
      while i < |headers|
        invariant 0 <= i <= |headers|
        invariant Fold(resolved, steps[i..]) == Fold([], steps)
      {
        assert steps[i..][0] == steps[i] && steps[i..][1..] == steps[i + 1..];
        if i < |row.cells| {
          var header := headers[i];
          var cell := row.cells[i];
          if !CellIsBlank(cell.cell, cell.value) {
            var entry := ResolvedEntry(resolver.attr2id, header.text, cell);
            if entry.Err? {
              return Err(entry.failure);
            }
            resolved := Put(resolved, entry.value.0, entry.value.1);
          }
        }
        i := i + 1;
      }
      assert steps[i..] == [];
      return Ok(resolved);
    }
  }
}
