/** graphql.Application: reads the workbook (in reverse sheet order for a delete run), picks a
    parser per sheet and sends every mutation to the GraphQL service, sheet by sheet, in list
    order. A delete run sends one bulk delete per main sheet instead and passes over the
    composition sheets. The first exception ends the run; whatever was sent before it stays
    sent. */
module Importer {
  import opened Wrappers
  import opened Sequences
  import opened Strings
  import opened Constants
  import opened ResolverParser
  import opened ExcelReaderOut
  import MainDependentParserOut
  import CompositionParserOut

  /** What the run cannot see: the query executor the parsers resolve references with, the
      collect-and-resolve steps of the parsers' base class, the Double.valueOf test, and
      whether executeQueryWithFallback throws for a given mutation. */
  datatype Environment = Environment(
    exec: Executor,
    resolveMain: MainDependentParserOut.Resolve,
    resolveSecondary: CompositionParserOut.SecondaryResolve,
    doubleParses: string -> bool,
    fails: string -> Option<Failure>)

  /** buildGraphQLDelete. */
  function DeleteMutation(name: string): string {
    "mutation { " + name + "___deleteBulk(options: { }) { deleted }}"
  }

  predicate IsCompositionSheet(sheet: ExcelSheetData) {
    StartsWith(sheet.sheetName, [CompositionPrefix])
  }

  /** The mutations of one sheet: the bulk delete in a delete run; otherwise those of a fresh
      parser, whose cache starts empty: the composition parser for a '#' sheet, the dependent
      main parser for any other. */
  function SheetMutations(sheet: ExcelSheetData, bulkDelete: bool, env: Environment): Result<seq<string>> {
    if bulkDelete then Ok([DeleteMutation(sheet.sheetName)])
    else if IsCompositionSheet(sheet) then
      CompositionParserOut.ParseOf([], sheet, env.exec, env.resolveSecondary, env.doubleParses).1
    else
      MainDependentParserOut.ParseOf([], sheet, env.resolveMain, env.doubleParses).1
  }

  /** Sending mutations in order: each one is sent, and the first that throws ends the loop. */
  function SendAll(sent: seq<string>, ms: seq<string>, fails: string -> Option<Failure>): (seq<string>, Option<Failure>)
    decreases |ms|
  {
    if ms == [] then (sent, None)
    else if fails(ms[0]).Some? then (sent + [ms[0]], fails(ms[0]))
    else SendAll(sent + [ms[0]], ms[1..], fails)
  }

  /** What one sheet of the list contributes: nothing for a composition sheet in a delete run,
      the sheet's mutations otherwise. Each sheet gets a fresh parser, so what a sheet
      contributes does not depend on the sheets before it. */
  function Contribution(sheet: ExcelSheetData, bulkDelete: bool, env: Environment): Result<seq<string>> {
    if bulkDelete && IsCompositionSheet(sheet) then Ok([]) else SheetMutations(sheet, bulkDelete, env)
  }

  function Contributions(sheets: seq<ExcelSheetData>, bulkDelete: bool, env: Environment): (outs: seq<Result<seq<string>>>)
    ensures |outs| == |sheets| && forall k :: 0 <= k < |sheets| ==> outs[k] == Contribution(sheets[k], bulkDelete, env)
  {
    seq(|sheets|, k requires 0 <= k < |sheets| => Contribution(sheets[k], bulkDelete, env))
  }

  /** The sheet loop from sheet k, over what each sheet contributes: a sheet whose mutations
      cannot be built ends the run, and so does a mutation that throws when sent. */
  function RunFrom(sent: seq<string>, outs: seq<Result<seq<string>>>, fails: string -> Option<Failure>, k: nat)
    : (seq<string>, Option<Failure>)
    decreases |outs| - k
  {
    if k >= |outs| then (sent, None)
    else match outs[k]
      case Err(f) => (sent, Some(f))
      case Ok(ms) =>
        var (sent', f) := SendAll(sent, ms, fails);
        if f.Some? then (sent', f) else RunFrom(sent', outs, fails, k + 1)
  }

  /** processExcelAndGenerateGraphQL(delete). */
  function Process(sent: seq<string>, workbook: seq<WorkbookSheet>, delete: bool, env: Environment)
    : (seq<string>, Option<Failure>)
  {
    match MappingApplied(Ordered(workbook, delete))
    case Err(f) => (sent, Some(f))
    case Ok(sheets) => RunFrom(sent, Contributions(sheets, delete, env), env.fails, 0)
  }

  /** delete(): the sheets read in delete order, every one of them parsed, compositions too. */
  function DeleteByParsing(sent: seq<string>, workbook: seq<WorkbookSheet>, env: Environment)
    : (seq<string>, Option<Failure>)
  {
    match MappingApplied(Ordered(workbook, true))
    case Err(f) => (sent, Some(f))
    case Ok(sheets) => RunFrom(sent, Contributions(sheets, false, env), env.fails, 0)
  }

  /** What the run means to send from sheet k: every contribution, concatenated in list order;
      the first sheet whose mutations cannot be built ends it. */
  function Planned(outs: seq<Result<seq<string>>>, k: nat): Result<seq<string>>
    decreases |outs| - k
  {
    if k >= |outs| then Ok([])
    else
      var ms :- outs[k];
      var rest :- Planned(outs, k + 1);
      Ok(ms + rest)
  }

  /** Mutations are sent in order until one throws: a run without exception sent them all;
      otherwise it sent those before the first failing one, and that one. */
  lemma {:induction false} SendAllShape(sent: seq<string>, ms: seq<string>, fails: string -> Option<Failure>)
    ensures SendAll(sent, ms, fails).1.None? <==> AllPass(ms, fails)
    ensures SendAll(sent, ms, fails).1.None? ==> SendAll(sent, ms, fails).0 == sent + ms
    ensures SendAll(sent, ms, fails).1.Some? ==>
              exists j :: 0 <= j < |ms| && SendAll(sent, ms, fails) == (sent + ms[..j + 1], fails(ms[j])) &&
                          fails(ms[j]).Some? && forall i :: 0 <= i < j ==> fails(ms[i]).None?
    decreases |ms|
  {
    if ms != [] {
      SendAllShape(sent + [ms[0]], ms[1..], fails);
      assert forall i :: 0 < i < |ms| ==> ms[i] == ms[1..][i - 1];
      if fails(ms[0]).Some? {
        assert ms[..1] == [ms[0]];
      } else if SendAll(sent, ms, fails).1.Some? {
        var j :| 0 <= j < |ms| - 1 && SendAll(sent + [ms[0]], ms[1..], fails) == (sent + [ms[0]] + ms[1..][..j + 1], fails(ms[1..][j])) &&
                 fails(ms[1..][j]).Some? && forall i :: 0 <= i < j ==> fails(ms[1..][i]).None?;
        SentPrefix(sent, ms, j);
      } else {
        AppendFirst(sent, ms);
      }
    }
  }

  /** None of the mutations throws when sent. */
  predicate AllPass(ms: seq<string>, fails: string -> Option<Failure>) {
    forall i :: 0 <= i < |ms| ==> fails(ms[i]).None?
  }

  lemma AllPassAppend(a: seq<string>, b: seq<string>, fails: string -> Option<Failure>)
    ensures AllPass(a + b, fails) <==> AllPass(a, fails) && AllPass(b, fails)
  {
    assert forall i :: 0 <= i < |a| ==> (a + b)[i] == a[i];
    assert forall i :: 0 <= i < |b| ==> (a + b)[|a| + i] == b[i];
  }

  lemma SentPrefix(sent: seq<string>, ms: seq<string>, j: nat)
    requires j + 1 < |ms|
    ensures sent + [ms[0]] + ms[1..][..j + 1] == sent + ms[..j + 2]
  {
    assert ms[..j + 2] == [ms[0]] + ms[1..][..j + 1];
  }

  /** A run ends without exception exactly when every sheet's mutations could be built and
      none of them threw when sent; it has then sent exactly the planned mutations, in order. */
  lemma {:induction false} RunSendsPlanned(sent: seq<string>, outs: seq<Result<seq<string>>>, fails: string -> Option<Failure>, k: nat)
    requires k <= |outs|
    ensures RunFrom(sent, outs, fails, k).1.None? <==> Planned(outs, k).Ok? && AllPass(Planned(outs, k).value, fails)
    ensures RunFrom(sent, outs, fails, k).1.None? ==> RunFrom(sent, outs, fails, k).0 == sent + Planned(outs, k).value
    decreases |outs| - k
  {
    if k < |outs| && outs[k].Ok? {
      var ms := outs[k].value;
      SendAllShape(sent, ms, fails);
      var sa := SendAll(sent, ms, fails);
      var rest := Planned(outs, k + 1);
      if rest.Ok? {
        assert Planned(outs, k) == Ok(ms + rest.value);
        AllPassAppend(ms, rest.value, fails);
      }
      if sa.1.Some? {
        assert RunFrom(sent, outs, fails, k) == sa;
      } else {
        assert RunFrom(sent, outs, fails, k) == RunFrom(sent + ms, outs, fails, k + 1);
        RunSendsPlanned(sent + ms, outs, fails, k + 1);
        if rest.Ok? {
          AppendAssoc(sent, ms, rest.value);
        }
      }
    }
  }

  /** The main sheets, in list order: the sheets a delete run does not pass over. */
  function DeleteTargets(sheets: seq<ExcelSheetData>): (names: seq<string>)
    ensures |names| <= |sheets|
  {
    if sheets == [] then []
    else (if IsCompositionSheet(sheets[0]) then [] else [sheets[0].sheetName]) + DeleteTargets(sheets[1..])
  }

  /** One bulk delete per name, in order. */
  function DeleteMutations(names: seq<string>): (ms: seq<string>)
    ensures |ms| == |names| && forall i :: 0 <= i < |names| ==> ms[i] == DeleteMutation(names[i])
  {
    if names == [] then [] else [DeleteMutation(names[0])] + DeleteMutations(names[1..])
  }

  /** A delete run plans one bulk delete per main sheet, whatever its rows, in list order, and
      nothing for a composition sheet. */
  lemma {:induction false} DeletePlan(sheets: seq<ExcelSheetData>, env: Environment, k: nat)
    requires k <= |sheets|
    ensures Planned(Contributions(sheets, true, env), k) == Ok(DeleteMutations(DeleteTargets(sheets[k..])))
    decreases |sheets| - k
  {
    if k < |sheets| {
      DeletePlan(sheets, env, k + 1);
      var outs := Contributions(sheets, true, env);
      assert sheets[k..][0] == sheets[k] && sheets[k..][1..] == sheets[k + 1..];
      var tail := DeleteTargets(sheets[k + 1..]);
      if !IsCompositionSheet(sheets[k]) {
        assert outs[k] == Ok([DeleteMutation(sheets[k].sheetName)]);
        assert DeleteTargets(sheets[k..]) == [sheets[k].sheetName] + tail;
        assert ([sheets[k].sheetName] + tail)[1..] == tail;
      } else {
        assert outs[k] == Ok([]);
        assert [] + DeleteMutations(tail) == DeleteMutations(tail);
        assert DeleteTargets(sheets[k..]) == tail;
      }
    }
  }

  /** A delete run whose sends do not throw sends exactly one bulk delete per main sheet of the
      list it read, in that list's order. */
  lemma DeleteRunSends(workbook: seq<WorkbookSheet>, env: Environment)
    requires forall m :: env.fails(m).None?
    ensures MappingApplied(Ordered(workbook, true)).Ok? ==>
              Process([], workbook, true, env) ==
                (DeleteMutations(DeleteTargets(MappingApplied(Ordered(workbook, true)).value)), None)
  {
    if MappingApplied(Ordered(workbook, true)).Ok? {
      var sheets := MappingApplied(Ordered(workbook, true)).value;
      DeletePlan(sheets, env, 0);
      assert sheets[0..] == sheets;
      var outs := Contributions(sheets, true, env);
      RunSendsPlanned([], outs, env.fails, 0);
      assert Process([], workbook, true, env) == RunFrom([], outs, env.fails, 0);
      var ds := DeleteMutations(DeleteTargets(sheets));
      assert [] + ds == ds;
    }
  }

  /** The application: what it has sent to the GraphQL service so far, in order. */
  class Application {
    var sent: seq<string>

    constructor()
      ensures sent == []
    {
      sent := [];
    }

    /** graphQLService.executeQueryWithFallback: the mutation goes out, and may throw. */
    method Execute(mutation: string, fails: string -> Option<Failure>) returns (failure: Option<Failure>)
      modifies this
      ensures sent == old(sent) + [mutation] && failure == fails(mutation)
    {
      sent := sent + [mutation];
      failure := fails(mutation);
    }

    /** getParserForSheet, then parseAndGenerateMutations on the new parser. */
    method ParseWithParserForSheet(sheet: ExcelSheetData, env: Environment) returns (r: Result<seq<string>>)
      ensures r == SheetMutations(sheet, false, env)
    {
      if StartsWith(sheet.sheetName, [CompositionPrefix]) {
        var parser := new CompositionParserOut.CompositionParser();
        r := parser.ParseAndGenerateMutations(sheet, env.exec, env.resolveSecondary, env.doubleParses);
      } else {
        var parser := new MainDependentParserOut.MainDependentParser();
        r := parser.ParseAndGenerateMutations(sheet, env.resolveMain, env.doubleParses);
      }
    }

    /** The sheet loop shared by processExcelAndGenerateGraphQL and delete. */
    method RunSheets(sheets: seq<ExcelSheetData>, bulkDelete: bool, env: Environment) returns (failure: Option<Failure>)
      modifies this
      ensures (sent, failure) == RunFrom(old(sent), Contributions(sheets, bulkDelete, env), env.fails, 0)
    {
      ghost var outs := Contributions(sheets, bulkDelete, env);
      var k := 0;
      while k < |sheets|
        invariant k <= |sheets|
        invariant RunFrom(sent, outs, env.fails, k) == RunFrom(old(sent), outs, env.fails, 0)
      {
        var sheet := sheets[k];
        if bulkDelete && StartsWith(sheet.sheetName, [CompositionPrefix]) {
          assert outs[k] == Ok([]);
          k := k + 1;
          continue;
        }
        var mutations: Result<seq<string>>;
        if bulkDelete {
          mutations := Ok([DeleteMutation(sheet.sheetName)]);
        } else {
          mutations := ParseWithParserForSheet(sheet, env);
        }
        assert mutations == outs[k];
        if mutations.Err? {
          return Some(mutations.failure);
        }
        ghost var before := sent;
        var ms := mutations.value;
        var j := 0;
        while j < |ms|
          invariant j <= |ms|
          invariant SendAll(sent, ms[j..], env.fails) == SendAll(before, ms, env.fails)
        {
          assert ms[j..][0] == ms[j] && ms[j..][1..] == ms[j + 1..];
          failure := Execute(ms[j], env.fails);
          if failure.Some? {
            return;
          }
          j := j + 1;
        }
        assert ms[j..] == [];
        k := k + 1;
      }
      failure := None;
    }

    method ProcessExcelAndGenerateGraphQL(workbook: seq<WorkbookSheet>, delete: bool, env: Environment)
      returns (failure: Option<Failure>)
      modifies this
      ensures (sent, failure) == Process(old(sent), workbook, delete, env)
    {
      var sheets := ReadExcelFile(workbook, delete);
      if sheets.Err? {
        return Some(sheets.failure);
      }
      failure := RunSheets(sheets.value, delete, env);
    }

    method Delete(workbook: seq<WorkbookSheet>, env: Environment) returns (failure: Option<Failure>)
      modifies this
      ensures (sent, failure) == DeleteByParsing(old(sent), workbook, env)
    {
      var sheets := ReadExcelFile(workbook, true);
      if sheets.Err? {
        return Some(sheets.failure);
      }
      failure := RunSheets(sheets.value, false, env);
    }
  }
}
