/** graphql.parser.MainParser: a main sheet read through ExternalAttributeResolver. Every
    reference column is resolved first, one getIds call per column; then each row becomes
    one create mutation of the sheet's object, made by buildMainAttributes. */
module MainParser {
  import opened Wrappers
  import opened OrderedMaps
  import opened DataModel
  import opened Attributes
  import opened ResolverParser
  import opened Resolver

  /** The attribute map of each row, read with the table. */
  function RowMaps(table: Table, rows: seq<DataRow>): (ms: seq<Result<OMap<string, string>>>)
    ensures |ms| == |rows| && forall k :: 0 <= k < |rows| ==> ms[k] == CellsAttributes(table, rows[k].cells, None)
  {
    seq(|rows|, k requires 0 <= k < |rows| => CellsAttributes(table, rows[k].cells, None))
  }

  /** buildMainMutations: one mutation per row whose map is not empty, in row order. */
  function MainMutationsOf(table: Table, sheet: DataSheet, build: Builder): Result<seq<string>> {
    EmitAll(sheet.name, RowMaps(table, sheet.dataRows), build)
  }

  /** parseAndGenerateMutations from a table: the resolve, then the mutations read with the
      table it leaves. A resolve that throws ends the sheet with no mutation. */
  function ParseOf(table: Table, sheet: DataSheet, exec: Executor, build: Builder): (Table, Result<seq<string>>)
    requires AllValid(sheet.dataRows)
  {
    var (t, f) := ResolveHeaders(table, ExternalHeaders(sheet.headers), sheet.dataRows, exec);
    if f.Some? then (t, Err(f.value)) else (t, MainMutationsOf(t, sheet, build))
  }

  /** The mutations can be built exactly when every row's map and the mutation of every
      non-empty map can; they are then one per non-empty map, in row order. */
  lemma MainMutationsShape(table: Table, sheet: DataSheet, build: Builder)
    ensures MainMutationsOf(table, sheet, build).Ok? <==> AllRowsOk(sheet.name, RowMaps(table, sheet.dataRows), build)
    ensures MainMutationsOf(table, sheet, build).Ok? ==>
              (forall k :: 0 <= k < |sheet.dataRows| ==> CellsAttributes(table, sheet.dataRows[k].cells, None).Ok?) &&
              MainMutationsOf(table, sheet, build).value ==
                Emitted(sheet.name, Values(RowMaps(table, sheet.dataRows)), build)
  {
    EmitAllOk(sheet.name, RowMaps(table, sheet.dataRows), build);
  }

  /** Every reference column is resolved before any mutation is built: the mutations exist
      only when every reference header got its getIds table, and they are read with a table
      holding exactly those tables for those headers. The table only grows. */
  lemma ResolvedBeforeBuilt(table: Table, sheet: DataSheet, exec: Executor, build: Builder)
    requires AllValid(sheet.dataRows)
    ensures KeySet(table) <= KeySet(ParseOf(table, sheet, exec, build).0)
    ensures var hs := ExternalHeaders(sheet.headers);
            var (t, r) := ParseOf(table, sheet, exec, build);
            r.Ok? ==>
              (forall i :: 0 <= i < |hs| ==>
                 HeaderIds(hs[i], sheet.dataRows, exec).Ok? &&
                 Get(t, hs[i]) == Some(HeaderIds(hs[i], sheet.dataRows, exec).value)) &&
              r == MainMutationsOf(t, sheet, build)
  {
    var hs := ExternalHeaders(sheet.headers);
    ResolveHeadersKeeps(table, hs, sheet.dataRows, exec);
    if ResolveHeaders(table, hs, sheet.dataRows, exec).1.None? {
      ResolveHeadersTables(table, hs, sheet.dataRows, exec);
    }
  }

  /** The parser: the resolver whose table it fills and reads. */
  class MainParser {
    const resolver: ExternalAttributeResolver

    constructor()
      ensures fresh(resolver) && resolver.header2value2id == []
    {
      resolver := new ExternalAttributeResolver();
    }

    method ParseAndGenerateMutations(sheet: DataSheet, exec: Executor, build: Builder) returns (r: Result<seq<string>>)
      requires AllValid(sheet.dataRows)
      modifies resolver
      ensures (resolver.header2value2id, r) == ParseOf(old(resolver.header2value2id), sheet, exec, build)
    {
      var failure := resolver.ResolveAllExternalAttributes(sheet, exec);
      if failure.Some? {
        return Err(failure.value);
      }
      r := BuildMainMutations(sheet, build);
    }

    method BuildMainMutations(sheet: DataSheet, build: Builder) returns (r: Result<seq<string>>)
      ensures r == MainMutationsOf(resolver.header2value2id, sheet, build)
    {
      ghost var results := RowMaps(resolver.header2value2id, sheet.dataRows);
      var mutations: seq<string> := [];
      var k := 0;
      while k < |sheet.dataRows|
        invariant 0 <= k <= |sheet.dataRows|
        invariant EmitFrom(mutations, sheet.name, results[k..], build) == EmitAll(sheet.name, results, build)
      {
        assert results[k..][0] == results[k] && results[k..][1..] == results[k + 1..];
        var attributes := resolver.BuildMainAttributes(sheet.dataRows[k]);
        if attributes.Err? {
          return Err(attributes.failure);
        }
        if attributes.value != [] {
          var mutation := build(sheet.name, attributes.value);
          if mutation.Err? {
            return Err(mutation.failure);
          }
          assert RowMutations(sheet.name, results[k], build) == Ok([mutation.value]);
          mutations := mutations + [mutation.value];
        } else {
          assert RowMutations(sheet.name, results[k], build) == Ok([]);
          assert mutations + [] == mutations;
        }
        k := k + 1;
      }
      assert results[k..] == [];
      return Ok(mutations);
    }
  }
}
