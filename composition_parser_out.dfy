/** The earlier graphql.parser.CompositionParser, over string headers and rows of strings. The
    first `*Class.attr` header names the parent; its values are resolved into the cache in
    batches, then the other external columns by the base class. Each row whose parent value
    has a cached id becomes one update mutation of that parent, creating the composed object
    under the sheet name without its `#`. */
module CompositionParserOut {
  import opened Wrappers
  import opened Sequences
  import opened OrderedMaps
  import opened Constants
  import opened ExternalAttributes
  import opened Attributes
  import opened Batching
  import opened ResolverParser
  import opened MutationBuilder
  import opened ExcelReaderOut

  /** The composition name: the sheet name without the prefix's length; a name shorter than
      the prefix throws StringIndexOutOfBoundsException. */
  function CompositionName(sheetName: string): (r: Result<string>)
    ensures r.Ok? <==> sheetName != []
    ensures r.Ok? ==> [sheetName[0]] + r.value == sheetName
  {
    if |sheetName| < 1 then Err(StringIndexOutOfBounds(sheetName)) else Ok(sheetName[1..])
  }

  /** The first external header at position i or later. */
  function FirstExternalFrom(headers: seq<string>, i: nat): (p: Option<nat>)
    ensures p.None? <==> forall j :: i <= j < |headers| ==> !IsExternalAttribute(headers[j])
    ensures p.Some? ==> i <= p.value < |headers| && IsExternalAttribute(headers[p.value]) &&
                        forall j :: i <= j < p.value ==> !IsExternalAttribute(headers[j])
    decreases |headers| - i
  {
    if i >= |headers| then None
    else if IsExternalAttribute(headers[i]) then Some(i)
    else FirstExternalFrom(headers, i + 1)
  }

  /** The position of the parent header. No earlier header is external, so none equals it,
      and indexOf finds it there. */
  function FirstExternal(headers: seq<string>): Option<nat> {
    FirstExternalFrom(headers, 0)
  }

  /** The loop of extractValuesForHeader: the non-empty values at position p, each once, in
      row order. A row too short is passed over. */
  function ParentValuesFrom(acc: seq<string>, rows: seq<seq<string>>, p: nat): seq<string>
    decreases |rows|
  {
    if rows == [] then acc
    else if p < |rows[0]| && rows[0][p] != "" then ParentValuesFrom(AddValue(acc, rows[0][p]), rows[1..], p)
    else ParentValuesFrom(acc, rows[1..], p)
  }

  /** Some row has the non-empty value v at position p. */
  predicate HasValue(rows: seq<seq<string>>, p: nat, v: string) {
    exists k :: 0 <= k < |rows| && p < |rows[k]| && rows[k][p] == v && v != ""
  }

  /** The gathered values repeat nothing and are exactly those started with and the
      non-empty values of the column. */
  lemma {:induction false} ParentValuesShape(acc: seq<string>, rows: seq<seq<string>>, p: nat)
    requires NoRepeats(acc)
    ensures NoRepeats(ParentValuesFrom(acc, rows, p))
    ensures forall v :: v in ParentValuesFrom(acc, rows, p) <==> v in acc || HasValue(rows, p, v)
    decreases |rows|
  {
    if rows != [] {
      var acc' := if p < |rows[0]| && rows[0][p] != "" then AddValue(acc, rows[0][p]) else acc;
      assert NoRepeats(acc') by {
        if acc' != acc {
          assert acc' == acc + [rows[0][p]];
        }
      }
      ParentValuesShape(acc', rows[1..], p);
      forall v ensures HasValue(rows, p, v) <==> (p < |rows[0]| && rows[0][p] == v && v != "") || HasValue(rows[1..], p, v) {
        if HasValue(rows, p, v) {
          var k :| 0 <= k < |rows| && p < |rows[k]| && rows[k][p] == v && v != "";
          if k > 0 { assert rows[1..][k - 1] == rows[k]; }
        }
        if HasValue(rows[1..], p, v) {
          var k :| 0 <= k < |rows[1..]| && p < |rows[1..][k]| && rows[1..][k][p] == v && v != "";
          assert rows[k + 1] == rows[1..][k];
        }
      }
    }
  }

  /** The batch loop of resolveParentIdsBatched: per batch, the getIds answer, then each entry
      put under the key built from the parent's class and attribute and the entry's value. */
  function ParentBatches(a2i: OMap<string, string>, parent: ExternalAttribute, bs: seq<seq<string>>, exec: Executor): Outcome
    decreases |bs|
  {
    if bs == [] then (a2i, None)
    else
      var o := ParentBatch(a2i, parent, bs[0], exec);
      if o.1.Some? then o else ParentBatches(o.0, parent, bs[1..], exec)
  }

  /** One batch of parent values: the getIds answer, then the puts. */
  function ParentBatch(a2i: OMap<string, string>, parent: ExternalAttribute, batch: seq<string>, exec: Executor): Outcome {
    match GetIdsOf(exec, parent.className, parent.attributeName, batch)
    case Err(f) => (a2i, Some(f))
    case Ok(resolved) => PutKeys(a2i, parent.className, parent.attributeName, resolved)
  }

  /** The cache only grows, even when a batch throws. */
  lemma {:induction false} ParentBatchesGrows(a2i: OMap<string, string>, parent: ExternalAttribute, bs: seq<seq<string>>,
                                              exec: Executor)
    ensures KeySet(a2i) <= KeySet(ParentBatches(a2i, parent, bs, exec).0)
    decreases |bs|
  {
    if bs != [] {
      var answer := GetIdsOf(exec, parent.className, parent.attributeName, bs[0]);
      if answer.Ok? {
        PutKeysGrows(a2i, parent.className, parent.attributeName, answer.value);
        ParentBatchesGrows(PutKeys(a2i, parent.className, parent.attributeName, answer.value).0, parent, bs[1..], exec);
      }
    }
  }

  /** At most a thousand parent values make one getIds call, and every entry of its answer is
      cached under its key. */
  lemma ParentOneBatch(a2i: OMap<string, string>, parent: ExternalAttribute, values: seq<string>, exec: Executor,
                       resolved: OMap<string, string>)
    requires 0 < |values| <= ResolveBatchSize
    requires GetIdsOf(exec, parent.className, parent.attributeName, values) == Ok(resolved)
    requires forall j :: 0 <= j < |resolved| ==> BuildAttrKey(parent.className, parent.attributeName, resolved[j].0).Ok?
    ensures ParentBatches(a2i, parent, Batches(values, ResolveBatchSize), exec) ==
            (PutAll(a2i, Keyed(parent.className, parent.attributeName, resolved)), None)
  {
    assert Batches(values, ResolveBatchSize) == [values] by {
      assert values[..|values|] == values;
    }
    PutKeysShape(a2i, parent.className, parent.attributeName, resolved);
  }

  /** row.get(i), or "" past the end of the row. */
  function CellAt(row: seq<string>, i: nat): string {
    if i < |row| then row[i] else ""
  }

  /** The loop of buildRowData from column i: each header text is put with its column's
      value. */
  function RowDataFrom(acc: OMap<string, string>, headers: seq<string>, row: seq<string>, i: nat): OMap<string, string>
    decreases |headers| - i
  {
    if i >= |headers| then acc
    else RowDataFrom(Put(acc, headers[i], CellAt(row, i)), headers, row, i + 1)
  }

  function RowDataOf(headers: seq<string>, row: seq<string>): OMap<string, string> {
    RowDataFrom([], headers, row, 0)
  }

  /** With distinct header texts, each header holds its own column's value, and a text not
      among the columns walked keeps what it had. */
  lemma {:induction false} RowDataValues(acc: OMap<string, string>, headers: seq<string>, row: seq<string>, i: nat)
    requires NoRepeats(headers)
    ensures forall j :: i <= j < |headers| ==> Get(RowDataFrom(acc, headers, row, i), headers[j]) == Some(CellAt(row, j))
    ensures forall h :: (forall j :: i <= j < |headers| ==> headers[j] != h) ==>
              Get(RowDataFrom(acc, headers, row, i), h) == Get(acc, h)
    decreases |headers| - i
  {
    if i < |headers| {
      var v := CellAt(row, i);
      var acc' := Put(acc, headers[i], v);
      var r := RowDataFrom(acc, headers, row, i);
      assert r == RowDataFrom(acc', headers, row, i + 1);
      RowDataValues(acc', headers, row, i + 1);
      forall j | i <= j < |headers| ensures Get(r, headers[j]) == Some(CellAt(row, j)) {
        if j == i {
          assert forall j' :: i < j' < |headers| ==> headers[j'] != headers[i];
          GetPut(acc, headers[i], v, headers[i]);
        }
      }
      forall h | forall j :: i <= j < |headers| ==> headers[j] != h ensures Get(r, h) == Get(acc, h) {
        GetPut(acc, headers[i], v, h);
      }
    }
  }

  /** rowData.get(header), with null read as "". */
  function ValueIn(rd: OMap<string, string>, h: string): string {
    var v := Get(rd, h);
    if v.Some? then v.value else ""
  }

  /** The cached id for a value of an external attribute. */
  function Lookup(a2i: OMap<string, string>, ext: ExternalAttribute, value: string): Result<Option<string>> {
    var key :- BuildAttrKey(ext.className, ext.attributeName, value);
    Ok(Get(a2i, key))
  }

  /** One column of the attribute loop: a header equal to the parent's is passed over, and
      so is an external column with an empty value or no cached id; a resolved external
      column puts its id under the target attribute name; any other column puts its value
      under its header. */
  function CompositionStep(a2i: OMap<string, string>, rd: OMap<string, string>, parent: string, h: string): Step {
    if h == parent then Skip
    else
      var value := ValueIn(rd, h);
      if IsExternalAttribute(h) then
        if value == "" then Skip
        else match Parse(h)
          case Err(f) => Fail(f)
          case Ok(ext) =>
            match Lookup(a2i, ext, value)
            case Err(f) => Fail(f)
            case Ok(None) => Skip
            case Ok(Some(id)) => Emit(ExtractTargetAttributeName(h, ext.className), id)
      else Emit(h, value)
  }

  function CompositionSteps(a2i: OMap<string, string>, rd: OMap<string, string>, headers: seq<string>, parent: string)
    : (ss: seq<Step>)
    ensures |ss| == |headers| && forall i :: 0 <= i < |headers| ==> ss[i] == CompositionStep(a2i, rd, parent, headers[i])
  {
    seq(|headers|, i requires 0 <= i < |headers| => CompositionStep(a2i, rd, parent, headers[i]))
  }

  function CompositionAttributesOf(a2i: OMap<string, string>, rd: OMap<string, string>, headers: seq<string>,
                                   parent: string): Result<OMap<string, string>> {
    Fold([], CompositionSteps(a2i, rd, headers, parent))
  }

  /** The id an external column with a value resolves to: its header parses and its key can
      be built. */
  predicate Resolves(a2i: OMap<string, string>, rd: OMap<string, string>, h: string) {
    Parse(h).Ok? && Lookup(a2i, Parse(h).value, ValueIn(rd, h)).Ok?
  }

  /** The column throws: an external column other than the parent, with a value, whose header
      does not parse or whose key cannot be built. */
  predicate Throws(a2i: OMap<string, string>, rd: OMap<string, string>, parent: string, h: string) {
    h != parent && IsExternalAttribute(h) && ValueIn(rd, h) != "" && !Resolves(a2i, rd, h)
  }

  /** The column puts an attribute: any column but the parent's, an external one only when
      its value has a cached id. */
  predicate Puts(a2i: OMap<string, string>, rd: OMap<string, string>, parent: string, h: string) {
    h != parent &&
    (IsExternalAttribute(h) ==>
       ValueIn(rd, h) != "" && Resolves(a2i, rd, h) && Lookup(a2i, Parse(h).value, ValueIn(rd, h)).value.Some?)
  }

  /** The name and value a putting column gives. */
  function EntryOf(a2i: OMap<string, string>, rd: OMap<string, string>, parent: string, h: string): (string, string)
    requires Puts(a2i, rd, parent, h)
  {
    if IsExternalAttribute(h) then
      (ExtractTargetAttributeName(h, Parse(h).value.className), Lookup(a2i, Parse(h).value, ValueIn(rd, h)).value.value)
    else (h, ValueIn(rd, h))
  }

  lemma StepsMeaning(a2i: OMap<string, string>, rd: OMap<string, string>, headers: seq<string>, parent: string)
    ensures forall i :: 0 <= i < |headers| ==>
              (CompositionSteps(a2i, rd, headers, parent)[i].Fail? <==> Throws(a2i, rd, parent, headers[i]))
    ensures forall i :: 0 <= i < |headers| ==>
              (CompositionSteps(a2i, rd, headers, parent)[i].Emit? <==> Puts(a2i, rd, parent, headers[i]))
    ensures forall i :: 0 <= i < |headers| && Puts(a2i, rd, parent, headers[i]) ==>
              var s := CompositionSteps(a2i, rd, headers, parent)[i];
              (s.name, s.value) == EntryOf(a2i, rd, parent, headers[i])
  {
  }

  /** The attribute map can be built exactly when no column throws. */
  lemma CompositionAttributesOk(a2i: OMap<string, string>, rd: OMap<string, string>, headers: seq<string>, parent: string)
    ensures CompositionAttributesOf(a2i, rd, headers, parent).Ok? <==>
            forall i :: 0 <= i < |headers| ==> !Throws(a2i, rd, parent, headers[i])
  {
    FoldFails([], CompositionSteps(a2i, rd, headers, parent));
    StepsMeaning(a2i, rd, headers, parent);
  }

  /** The keys of the map are the names the putting columns give: target attribute names for
      resolved external columns, the headers themselves otherwise; a name no later putting
      column repeats holds its column's id or value. */
  lemma CompositionAttributesShape(a2i: OMap<string, string>, rd: OMap<string, string>, headers: seq<string>, parent: string)
    requires CompositionAttributesOf(a2i, rd, headers, parent).Ok?
    ensures var attrs := CompositionAttributesOf(a2i, rd, headers, parent).value;
            forall k :: k in KeySet(attrs) <==>
              exists i :: 0 <= i < |headers| && Puts(a2i, rd, parent, headers[i]) && EntryOf(a2i, rd, parent, headers[i]).0 == k
    ensures var attrs := CompositionAttributesOf(a2i, rd, headers, parent).value;
            forall i :: (0 <= i < |headers| && Puts(a2i, rd, parent, headers[i]) &&
                         forall j :: i < j < |headers| && Puts(a2i, rd, parent, headers[j]) ==>
                           EntryOf(a2i, rd, parent, headers[j]).0 != EntryOf(a2i, rd, parent, headers[i]).0) ==>
              Get(attrs, EntryOf(a2i, rd, parent, headers[i]).0) == Some(EntryOf(a2i, rd, parent, headers[i]).1)
  {
    var steps := CompositionSteps(a2i, rd, headers, parent);
    FoldFails([], steps);
    StepsMeaning(a2i, rd, headers, parent);
    RowMap(steps);
  }

  /** An external column with an empty value or no cached id drops only itself. */
  lemma UnresolvedColumnChangesNothing(a2i: OMap<string, string>, rd: OMap<string, string>, headers: seq<string>,
                                       parent: string, i: nat)
    requires i < |headers| && IsExternalAttribute(headers[i])
    requires ValueIn(rd, headers[i]) == "" ||
             (Parse(headers[i]).Ok? && Lookup(a2i, Parse(headers[i]).value, ValueIn(rd, headers[i])) == Ok(None))
    ensures CompositionAttributesOf(a2i, rd, headers[..i] + headers[i + 1..], parent) ==
            CompositionAttributesOf(a2i, rd, headers, parent)
  {
    var steps := CompositionSteps(a2i, rd, headers, parent);
    assert steps[i].Skip?;
    StepsDropped(a2i, rd, headers, parent, i);
    FoldDropSkip([], steps, i);
  }

  /** The steps of the headers without column i are the steps without step i. */
  lemma StepsDropped(a2i: OMap<string, string>, rd: OMap<string, string>, headers: seq<string>, parent: string, i: nat)
    requires i < |headers|
    ensures var steps := CompositionSteps(a2i, rd, headers, parent);
            CompositionSteps(a2i, rd, headers[..i] + headers[i + 1..], parent) == steps[..i] + steps[i + 1..]
  {
    var steps := CompositionSteps(a2i, rd, headers, parent);
    var dropped := headers[..i] + headers[i + 1..];
    MapDrop(h => CompositionStep(a2i, rd, parent, h), headers, steps, CompositionSteps(a2i, rd, dropped, parent), i);
  }

  /** One row, the parent header at position p and parsed as parentAttr: its mutation, or
      nothing when its parent value is empty or has no cached id. */
  function RowOutput(a2i: OMap<string, string>, headers: seq<string>, p: nat, parentAttr: ExternalAttribute,
                     composition: string, doubleParses: string -> bool, row: seq<string>): Result<Option<string>>
    requires p < |headers|
  {
    var rd := RowDataOf(headers, row);
    var parent := headers[p];
    var parentValue := ValueIn(rd, parent);
    if parentValue == "" then Ok(None)
    else
      var parentId :- Lookup(a2i, parentAttr, parentValue);
      if parentId.None? then Ok(None)
      else
        var attrs :- CompositionAttributesOf(a2i, rd, headers, parent);
        var m :- BuildCompositionUpdateMutation(parentAttr.className, Id, parentId.value, composition, attrs, doubleParses);
        Ok(Some(m))
  }

  /** With distinct headers, a row is passed over exactly when its parent cell is empty or its
      parent value has no cached id. */
  lemma RowPassedOver(a2i: OMap<string, string>, headers: seq<string>, p: nat, parentAttr: ExternalAttribute,
                      composition: string, doubleParses: string -> bool, row: seq<string>)
    requires p < |headers| && NoRepeats(headers)
    ensures var pv := CellAt(row, p);
            RowOutput(a2i, headers, p, parentAttr, composition, doubleParses, row) == Ok(None) <==>
              pv == "" || Lookup(a2i, parentAttr, pv) == Ok(None)
  {
    RowDataValues([], headers, row, 0);
  }

  /** A row with a cached parent id gives the update mutation of the parent class, naming the
      parent by `_id` with that id and creating the composed object under the composition
      name. */
  lemma RowMutation(a2i: OMap<string, string>, headers: seq<string>, p: nat, parentAttr: ExternalAttribute,
                    composition: string, doubleParses: string -> bool, row: seq<string>, parentId: string)
    requires p < |headers| && NoRepeats(headers)
    requires CellAt(row, p) != "" && Lookup(a2i, parentAttr, CellAt(row, p)) == Ok(Some(parentId))
    ensures var attrs := CompositionAttributesOf(a2i, RowDataOf(headers, row), headers, headers[p]);
            var out := RowOutput(a2i, headers, p, parentAttr, composition, doubleParses, row);
            (out.Ok? <==> attrs.Ok? && FormatAttributes(attrs.value, doubleParses).Ok?) &&
            (out.Ok? ==>
               out.value == Some(Frame(parentAttr.className + GraphQLUpdateSuffix,
                                       UpdateData(Id, parentId, composition, FormatAttributes(attrs.value, doubleParses).value))))
  {
    RowDataValues([], headers, row, 0);
  }

  function RowOutputs(a2i: OMap<string, string>, headers: seq<string>, p: nat, parentAttr: ExternalAttribute,
                      composition: string, doubleParses: string -> bool, rows: seq<seq<string>>)
    : (outs: seq<Result<Option<string>>>)
    requires p < |headers|
    ensures |outs| == |rows| &&
            forall k :: 0 <= k < |rows| ==> outs[k] == RowOutput(a2i, headers, p, parentAttr, composition, doubleParses, rows[k])
  {
    seq(|rows|, k requires 0 <= k < |rows| => RowOutput(a2i, headers, p, parentAttr, composition, doubleParses, rows[k]))
  }

  /** buildCompositionMutations: the mutations of the rows, in row order. */
  function MutationsOf(a2i: OMap<string, string>, headers: seq<string>, p: nat, parentAttr: ExternalAttribute,
                       composition: string, doubleParses: string -> bool, rows: seq<seq<string>>): Result<seq<string>>
    requires p < |headers|
  {
    CollectRows([], RowOutputs(a2i, headers, p, parentAttr, composition, doubleParses, rows))
  }

  /** The mutations can be built exactly when no row throws; they are then the mutations of
      the rows not passed over, in row order. */
  lemma MutationsShape(a2i: OMap<string, string>, headers: seq<string>, p: nat, parentAttr: ExternalAttribute,
                       composition: string, doubleParses: string -> bool, rows: seq<seq<string>>)
    requires p < |headers|
    ensures var r := MutationsOf(a2i, headers, p, parentAttr, composition, doubleParses, rows);
            var outs := RowOutputs(a2i, headers, p, parentAttr, composition, doubleParses, rows);
            (r.Ok? <==> forall k :: 0 <= k < |rows| ==> outs[k].Ok?) &&
            (r.Ok? ==> r.value == Given(outs)) &&
            (r.Err? ==> exists k :: 0 <= k < |rows| && outs[k] == Err(r.failure) &&
                                    forall j :: 0 <= j < k ==> outs[j].Ok?)
  {
    var outs := RowOutputs(a2i, headers, p, parentAttr, composition, doubleParses, rows);
    CollectRowsShape([], outs);
    if CollectRows([], outs).Ok? {
      assert [] + Given(outs) == Given(outs);
    }
  }

  /** A row passed over leaves the other rows' mutations as they are. */
  lemma PassedOverRowChangesNothing(a2i: OMap<string, string>, headers: seq<string>, p: nat, parentAttr: ExternalAttribute,
                                    composition: string, doubleParses: string -> bool, rows: seq<seq<string>>, k: nat)
    requires p < |headers| && k < |rows|
    requires RowOutput(a2i, headers, p, parentAttr, composition, doubleParses, rows[k]) == Ok(None)
    ensures MutationsOf(a2i, headers, p, parentAttr, composition, doubleParses, rows[..k] + rows[k + 1..]) ==
            MutationsOf(a2i, headers, p, parentAttr, composition, doubleParses, rows)
  {
    var outs := RowOutputs(a2i, headers, p, parentAttr, composition, doubleParses, rows);
    var dropped := rows[..k] + rows[k + 1..];
    MapDrop(row => RowOutput(a2i, headers, p, parentAttr, composition, doubleParses, row), rows, outs,
            RowOutputs(a2i, headers, p, parentAttr, composition, doubleParses, dropped), k);
    CollectRowsDropNone([], outs, k);
  }

  /** collectExternalAttributes with a skip set followed by resolveAllExternalAttributesBatched:
      the base class's part, which fills the cache for the sheet's other external columns. */
  type SecondaryResolve = (OMap<string, string>, ExcelSheetData, set<string>) -> (OMap<string, string>, Option<Failure>)

  /** parseAndGenerateMutations from a cache: the header check, the composition name, the
      parent header, its values resolved in batches, the other external columns resolved,
      then the mutations built with the cache left. */
  function ParseOf(a2i: OMap<string, string>, sheet: ExcelSheetData, exec: Executor, resolve: SecondaryResolve,
                   doubleParses: string -> bool): (OMap<string, string>, Result<seq<string>>)
  {
    if sheet.headers == [] then (a2i, Err(MissingHeaders(sheet.sheetName)))
    else match CompositionName(sheet.sheetName)
      case Err(f) => (a2i, Err(f))
      case Ok(composition) =>
        match FirstExternal(sheet.headers)
        case None => (a2i, Err(MissingParentReference(sheet.sheetName)))
        case Some(p) =>
          var parentHeader := sheet.headers[p];
          match Parse(parentHeader)
          case Err(f) => (a2i, Err(f))
          case Ok(parentAttr) =>
            var values := ParentValuesFrom([], sheet.rows, p);
            var (a1, f1) := ParentBatches(a2i, parentAttr, Batches(values, ResolveBatchSize), exec);
            if f1.Some? then (a1, Err(f1.value))
            else
              var (a2, f2) := resolve(a1, sheet, {parentHeader});
              if f2.Some? then (a2, Err(f2.value))
              else (a2, MutationsOf(a2, sheet.headers, p, parentAttr, composition, doubleParses, sheet.rows))
  }

  /** A sheet without headers, or without an external header, is refused before anything is
      resolved. */
  lemma ParseRefuses(a2i: OMap<string, string>, sheet: ExcelSheetData, exec: Executor, resolve: SecondaryResolve,
                     doubleParses: string -> bool)
    ensures sheet.headers == [] ==> ParseOf(a2i, sheet, exec, resolve, doubleParses) == (a2i, Err(MissingHeaders(sheet.sheetName)))
    ensures sheet.headers != [] && sheet.sheetName != [] &&
            (forall i :: 0 <= i < |sheet.headers| ==> !IsExternalAttribute(sheet.headers[i])) ==>
              ParseOf(a2i, sheet, exec, resolve, doubleParses) == (a2i, Err(MissingParentReference(sheet.sheetName)))
  {
  }

  /** The parent values are resolved before the other external columns, both before any
      mutation is built, and the mutations are read with the cache left; the parent
      resolve loses no cached key. */
  lemma ResolvedBeforeBuilt(a2i: OMap<string, string>, sheet: ExcelSheetData, exec: Executor, resolve: SecondaryResolve,
                            doubleParses: string -> bool)
    ensures var (c, r) := ParseOf(a2i, sheet, exec, resolve, doubleParses);
            r.Ok? ==>
              sheet.sheetName != [] &&
              exists p :: FirstExternal(sheet.headers) == Some(p) && Parse(sheet.headers[p]).Ok? &&
                var parentIds := ParentBatches(a2i, Parse(sheet.headers[p]).value,
                                               Batches(ParentValuesFrom([], sheet.rows, p), ResolveBatchSize), exec);
                parentIds.1.None? && KeySet(a2i) <= KeySet(parentIds.0) &&
                resolve(parentIds.0, sheet, {sheet.headers[p]}) == (c, None) &&
                r == MutationsOf(c, sheet.headers, p, Parse(sheet.headers[p]).value, sheet.sheetName[1..], doubleParses, sheet.rows)
  {
    var out := ParseOf(a2i, sheet, exec, resolve, doubleParses);
    if sheet.headers != [] && sheet.sheetName != [] && FirstExternal(sheet.headers).Some? {
      var p := FirstExternal(sheet.headers).value;
      if Parse(sheet.headers[p]).Ok? {
        var parentAttr := Parse(sheet.headers[p]).value;
        var bs := Batches(ParentValuesFrom([], sheet.rows, p), ResolveBatchSize);
        ParentBatchesGrows(a2i, parentAttr, bs, exec);
        var (a1, f1) := ParentBatches(a2i, parentAttr, bs, exec);
        if f1.None? {
          var (a2, f2) := resolve(a1, sheet, {sheet.headers[p]});
          if f2.None? {
            assert CompositionName(sheet.sheetName) == Ok(sheet.sheetName[1..]);
            assert out == (a2, MutationsOf(a2, sheet.headers, p, parentAttr, sheet.sheetName[1..], doubleParses, sheet.rows));
            assert FirstExternal(sheet.headers) == Some(p) && Parse(sheet.headers[p]).Ok? &&
                   var parentIds := ParentBatches(a2i, Parse(sheet.headers[p]).value,
                                                  Batches(ParentValuesFrom([], sheet.rows, p), ResolveBatchSize), exec);
                   parentIds.1.None? && KeySet(a2i) <= KeySet(parentIds.0) &&
                   resolve(parentIds.0, sheet, {sheet.headers[p]}) == (out.0, None) &&
                   out.1 == MutationsOf(out.0, sheet.headers, p, Parse(sheet.headers[p]).value, sheet.sheetName[1..], doubleParses, sheet.rows);
          } else {
            assert out.1 == Err(f2.value);
          }
        } else {
          assert out.1 == Err(f1.value);
        }
      } else {
        assert out.1.Err?;
      }
    } else {
      assert out.1.Err?;
    }
  }

  /** The parser: the cache of its base class. */
  class CompositionParser {
    var attr2id: OMap<string, string>

    constructor()
      ensures attr2id == []
    {
      attr2id := [];
    }

    method ParseAndGenerateMutations(sheet: ExcelSheetData, exec: Executor, resolve: SecondaryResolve,
                                     doubleParses: string -> bool) returns (r: Result<seq<string>>)
      modifies this
      ensures (attr2id, r) == ParseOf(old(attr2id), sheet, exec, resolve, doubleParses)
    {
      if |sheet.headers| == 0 {
        return Err(MissingHeaders(sheet.sheetName));
      }
      if |sheet.sheetName| < 1 {
        return Err(StringIndexOutOfBounds(sheet.sheetName));
      }
      var composition := sheet.sheetName[1..];
      var p := FirstExternal(sheet.headers);
      if p.None? {
        return Err(MissingParentReference(sheet.sheetName));
      }
      var parentHeader := sheet.headers[p.value];
      var parentAttr := Parse(parentHeader);
      if parentAttr.Err? {
        return Err(parentAttr.failure);
      }
      var values := ExtractValuesForHeader(sheet.rows, p.value);
      var failure := ResolveParentIdsBatched(parentAttr.value, values, exec);
      if failure.Some? {
        return Err(failure.value);
      }
      var resolved := resolve(attr2id, sheet, {parentHeader});
      attr2id := resolved.0;
      if resolved.1.Some? {
        return Err(resolved.1.value);
      }
      r := BuildCompositionMutations(sheet.headers, p.value, parentAttr.value, composition, doubleParses, sheet.rows);
    }

    method ExtractValuesForHeader(rows: seq<seq<string>>, p: nat) returns (values: seq<string>)
      ensures values == ParentValuesFrom([], rows, p)
    {
      values := [];
      var k := 0;
      while k < |rows|
        invariant 0 <= k <= |rows|
        invariant ParentValuesFrom(values, rows[k..], p) == ParentValuesFrom([], rows, p)
      {
        assert rows[k..][0] == rows[k] && rows[k..][1..] == rows[k + 1..];
        if p < |rows[k]| {
          var value := rows[k][p];
          if value != "" {
            values := AddValue(values, value);
          }
        }
        k := k + 1;
      }
      assert rows[k..] == [];
    }

    method ResolveParentIdsBatched(parentAttr: ExternalAttribute, values: seq<string>, exec: Executor)
      returns (failure: Option<Failure>)
      modifies this
      ensures (attr2id, failure) == ParentBatches(old(attr2id), parentAttr, Batches(values, ResolveBatchSize), exec)
    {
      var total := |values|;
      var i := 0;
      assert values[0..] == values;
      while i < total
        invariant 0 <= i
        invariant ParentBatches(attr2id, parentAttr, Batches(values[Min(i, total)..], ResolveBatchSize), exec)
                  == ParentBatches(old(attr2id), parentAttr, Batches(values, ResolveBatchSize), exec)
      {
        BatchesFrom(values, ResolveBatchSize, i);
        var end := Min(i + ResolveBatchSize, total);
        var batch := values[i..end];
        var f := ResolveParentBatch(parentAttr, batch, exec);
        if f.Some? {
          return f;
        }
        i := i + ResolveBatchSize;
      }
      assert values[Min(i, total)..] == [];
      return None;
    }

    /** The body of the batch loop for one batch of parent values. */
    method ResolveParentBatch(parentAttr: ExternalAttribute, batch: seq<string>, exec: Executor)
      returns (failure: Option<Failure>)
      modifies this
      ensures (attr2id, failure) == ParentBatch(old(attr2id), parentAttr, batch, exec)
    {
      var resolved := GetIds(exec, parentAttr.className, parentAttr.attributeName, batch);
      if resolved.Err? {
        return Some(resolved.failure);
      }
      failure := PutResolved(parentAttr.className, parentAttr.attributeName, resolved.value);
    }

    /** The puts of one answer. */
    method PutResolved(cls: string, attr: string, resolved: OMap<string, string>) returns (failure: Option<Failure>)
      modifies this
      ensures (attr2id, failure) == PutKeys(old(attr2id), cls, attr, resolved)
    {
      var k := 0;
      while k < |resolved|
        invariant 0 <= k <= |resolved|
        invariant PutKeys(attr2id, cls, attr, resolved[k..]) == PutKeys(old(attr2id), cls, attr, resolved)
      {
        assert resolved[k..][0] == resolved[k] && resolved[k..][1..] == resolved[k + 1..];
        var key := BuildAttrKey(cls, attr, resolved[k].0);
        if key.Err? {
          return Some(key.failure);
        }
        attr2id := Put(attr2id, key.value, resolved[k].1);
        k := k + 1;
      }
      assert resolved[k..] == [];
      return None;
    }

    method BuildCompositionMutations(headers: seq<string>, p: nat, parentAttr: ExternalAttribute, composition: string,
                                     doubleParses: string -> bool, rows: seq<seq<string>>) returns (r: Result<seq<string>>)
      requires p < |headers|
      ensures r == MutationsOf(attr2id, headers, p, parentAttr, composition, doubleParses, rows)
    {
      ghost var outs := RowOutputs(attr2id, headers, p, parentAttr, composition, doubleParses, rows);
      var mutations: seq<string> := [];
      var k := 0;
      while k < |rows|
        invariant 0 <= k <= |rows|
        invariant CollectRows(mutations, outs[k..]) == CollectRows([], outs)
      {
        assert outs[k..][0] == outs[k] && outs[k..][1..] == outs[k + 1..];
        var out := BuildRow(headers, p, parentAttr, composition, doubleParses, rows[k]);
        if out.Err? {
          return Err(out.failure);
        }
        if out.value.Some? {
          mutations := mutations + [out.value.value];
        }
        k := k + 1;
      }
      assert outs[k..] == [];
      return Ok(mutations);
    }

    /** One row: the row data, the parent lookup, the attribute loop, the mutation. */
    method BuildRow(headers: seq<string>, p: nat, parentAttr: ExternalAttribute, composition: string,
                    doubleParses: string -> bool, row: seq<string>) returns (r: Result<Option<string>>)
      requires p < |headers|
      ensures r == RowOutput(attr2id, headers, p, parentAttr, composition, doubleParses, row)
    {
      var rowData := BuildRowData(headers, row);
      var parentValue := ValueIn(rowData, headers[p]);
      if parentValue == "" {
        return Ok(None);
      }
      var parentId := Lookup(attr2id, parentAttr, parentValue);
      if parentId.Err? {
        return Err(parentId.failure);
      }
      if parentId.value.None? {
        return Ok(None);
      }
      var attrs := BuildCompositionAttributes(rowData, headers, headers[p]);
      if attrs.Err? {
        return Err(attrs.failure);
      }
      var m := BuildCompositionUpdateMutation(parentAttr.className, Id, parentId.value.value, composition, attrs.value,
                                              doubleParses);
      if m.Err? {
        return Err(m.failure);
      }
      return Ok(Some(m.value));
    }

    /** The attribute loop over the headers. */
    method BuildCompositionAttributes(rowData: OMap<string, string>, headers: seq<string>, parent: string)
      returns (r: Result<OMap<string, string>>)
      ensures r == CompositionAttributesOf(attr2id, rowData, headers, parent)
    {
      ghost var steps := CompositionSteps(attr2id, rowData, headers, parent);
      var attributes: OMap<string, string> := [];
      var i := 0;
      while i < |headers|
        invariant 0 <= i <= |headers|
        invariant Fold(attributes, steps[i..]) == Fold([], steps)
      {
        assert steps[i..][0] == steps[i] && steps[i..][1..] == steps[i + 1..];
        var header := headers[i];
        if header != parent {
          var value := ValueIn(rowData, header);
          if IsExternalAttribute(header) {
            if value != "" {
              var ext := Parse(header);
              if ext.Err? {
                return Err(ext.failure);
              }
              var id := Lookup(attr2id, ext.value, value);
              if id.Err? {
                return Err(id.failure);
              }
              if id.value.Some? {
                attributes := Put(attributes, ExtractTargetAttributeName(header, ext.value.className), id.value.value);
              }
            }
          } else {
            attributes := Put(attributes, header, value);
          }
        }
        i := i + 1;
      }
      assert steps[i..] == [];
      return Ok(attributes);
    }

    method BuildRowData(headers: seq<string>, row: seq<string>) returns (rowData: OMap<string, string>)
      ensures rowData == RowDataOf(headers, row)
    {
      rowData := [];
      var i := 0;
      while i < |headers|
        invariant 0 <= i <= |headers|
        invariant RowDataFrom(rowData, headers, row, i) == RowDataOf(headers, row)
      {
        var value := if i < |row| then row[i] else "";
        rowData := Put(rowData, headers[i], value);
        i := i + 1;
      }
    }
  }
}
