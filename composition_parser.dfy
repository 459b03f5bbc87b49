/** graphql.parser.CompositionParser: a `#` sheet whose rows add composed objects to existing
    parents. The first reference column names the parent: its values are resolved into the
    cache first, then the other reference columns are. Each row whose parent value has a
    cached id then becomes one update mutation of that parent, creating the composed object
    under the sheet's role name. */
module CompositionParser {
  import opened Wrappers
  import opened Sequences
  import opened OrderedMaps
  import opened Constants
  import opened Headers
  import opened DataCells
  import opened DataModel
  import opened Attributes
  import opened Batching
  import opened ResolverParser
  import opened MutationBuilder

  /** The first reference header at position i or later. */
  function FirstReferenceFrom(headers: seq<Header>, i: nat): (p: Option<nat>)
    ensures p.None? <==> forall j :: i <= j < |headers| ==> !IsReference(headers[j].text)
    ensures p.Some? ==> i <= p.value < |headers| && IsReference(headers[p.value].text) &&
                        forall j :: i <= j < p.value ==> !IsReference(headers[j].text)
    decreases |headers| - i
  {
    if i >= |headers| then None
    else if IsReference(headers[i].text) then Some(i)
    else FirstReferenceFrom(headers, i + 1)
  }

  /** The position of the parent header: the first of the reference headers. No header before
      it is a reference, so it is also the first position indexOf finds for it. */
  function FirstReference(headers: seq<Header>): Option<nat> {
    FirstReferenceFrom(headers, 0)
  }

  /** The value buildRowData gives column i: the formatted value of the row's cell there, or
      "" past the row's cells. */
  function ColumnText(row: DataRow, i: nat): Result<string> {
    if i < |row.cells| then GetFormattedValue(row.cells[i]) else Ok("")
  }

  /** The values of buildRowData's columns, one per header. */
  function ColumnTexts(headers: seq<Header>, row: DataRow): (ts: seq<Result<string>>)
    ensures |ts| == |headers| && forall j :: 0 <= j < |headers| ==> ts[j] == ColumnText(row, j)
  {
    seq(|headers|, j requires 0 <= j < |headers| => ColumnText(row, j))
  }

  /** The loop of buildRowData from column i, over the columns' values: each header object
      is put with its column's value; a formatting that throws ends it. */
  function RowDataFrom(acc: OMap<Header, string>, headers: seq<Header>, ts: seq<Result<string>>, i: nat)
    : Result<OMap<Header, string>>
    requires |ts| == |headers|
    decreases |headers| - i
  {
    if i >= |headers| then Ok(acc)
    else
      var v :- ts[i];
      RowDataFrom(Put(acc, headers[i], v), headers, ts, i + 1)
  }

  function RowDataOf(headers: seq<Header>, row: DataRow): Result<OMap<Header, string>> {
    RowDataFrom([], headers, ColumnTexts(headers, row), 0)
  }

  /** A built row data means every column's value from i on was formatted. */
  lemma {:induction false} RowDataOkValues(acc: OMap<Header, string>, headers: seq<Header>, ts: seq<Result<string>>, i: nat)
    requires |ts| == |headers| && RowDataFrom(acc, headers, ts, i).Ok?
    ensures forall j :: i <= j < |headers| ==> ts[j].Ok?
    decreases |headers| - i
  {
    if i < |headers| {
      var acc' := Put(acc, headers[i], ts[i].value);
      assert RowDataFrom(acc, headers, ts, i) == RowDataFrom(acc', headers, ts, i + 1);
      RowDataOkValues(acc', headers, ts, i + 1);
    }
  }

  /** Every column's value from i on formatted means the row data is built. */
  lemma {:induction false} ValuesRowDataOk(acc: OMap<Header, string>, headers: seq<Header>, ts: seq<Result<string>>, i: nat)
    requires |ts| == |headers| && forall j :: i <= j < |headers| ==> ts[j].Ok?
    ensures RowDataFrom(acc, headers, ts, i).Ok?
    decreases |headers| - i
  {
    if i < |headers| {
      var acc' := Put(acc, headers[i], ts[i].value);
      assert RowDataFrom(acc, headers, ts, i) == RowDataFrom(acc', headers, ts, i + 1);
      ValuesRowDataOk(acc', headers, ts, i + 1);
    }
  }

  /** The row data can be built exactly when every column's value can. */
  lemma RowDataOk(acc: OMap<Header, string>, headers: seq<Header>, ts: seq<Result<string>>, i: nat)
    requires |ts| == |headers|
    ensures RowDataFrom(acc, headers, ts, i).Ok? <==> forall j :: i <= j < |headers| ==> ts[j].Ok?
  {
    if RowDataFrom(acc, headers, ts, i).Ok? {
      RowDataOkValues(acc, headers, ts, i);
    }
    if forall j :: i <= j < |headers| ==> ts[j].Ok? {
      ValuesRowDataOk(acc, headers, ts, i);
    }
  }

  /** A header not among the columns walked keeps what it had. */
  lemma {:induction false} RowDataKeeps(acc: OMap<Header, string>, headers: seq<Header>, ts: seq<Result<string>>, i: nat, h: Header)
    requires |ts| == |headers|
    requires RowDataFrom(acc, headers, ts, i).Ok?
    requires forall j :: i <= j < |headers| ==> headers[j] != h
    ensures Get(RowDataFrom(acc, headers, ts, i).value, h) == Get(acc, h)
    decreases |headers| - i
  {
    if i < |headers| {
      var acc' := Put(acc, headers[i], ts[i].value);
      assert RowDataFrom(acc, headers, ts, i) == RowDataFrom(acc', headers, ts, i + 1);
      RowDataKeeps(acc', headers, ts, i + 1, h);
      GetPut(acc, headers[i], ts[i].value, h);
    }
  }

  /** With distinct header objects, the first header walked keeps its own column's value. */
  lemma RowDataHead(acc: OMap<Header, string>, headers: seq<Header>, ts: seq<Result<string>>, i: nat)
    requires |ts| == |headers| && DistinctHeaders(headers) && i < |headers|
    requires RowDataFrom(acc, headers, ts, i).Ok?
    ensures ts[i].Ok? && Get(RowDataFrom(acc, headers, ts, i).value, headers[i]) == Some(ts[i].value)
  {
    var acc' := Put(acc, headers[i], ts[i].value);
    assert RowDataFrom(acc, headers, ts, i) == RowDataFrom(acc', headers, ts, i + 1);
    RowDataKeeps(acc', headers, ts, i + 1, headers[i]);
    GetPut(acc, headers[i], ts[i].value, headers[i]);
  }

  /** With distinct header objects, each header holds its own column's value. */
  lemma {:induction false} RowDataValues(acc: OMap<Header, string>, headers: seq<Header>, ts: seq<Result<string>>, i: nat)
    requires |ts| == |headers| && DistinctHeaders(headers)
    requires RowDataFrom(acc, headers, ts, i).Ok?
    ensures forall j :: i <= j < |headers| ==> ts[j].Ok? && Get(RowDataFrom(acc, headers, ts, i).value, headers[j]) == Some(ts[j].value)
    decreases |headers| - i
  {
    if i < |headers| {
      var acc' := Put(acc, headers[i], ts[i].value);
      var r := RowDataFrom(acc', headers, ts, i + 1);
      assert RowDataFrom(acc, headers, ts, i) == r;
      RowDataValues(acc', headers, ts, i + 1);
      RowDataHead(acc, headers, ts, i);
      forall j | i <= j < |headers| ensures ts[j].Ok? && Get(r.value, headers[j]) == Some(ts[j].value) {
        if j > i {
          assert i + 1 <= j;
        }
      }
    }
  }

  /** buildRowData: with distinct header objects, the row data can be built exactly when
      every column's value can, and then holds each header's own column value. */
  lemma RowData(headers: seq<Header>, row: DataRow)
    requires DistinctHeaders(headers)
    ensures RowDataOf(headers, row).Ok? <==> forall j :: 0 <= j < |headers| ==> ColumnText(row, j).Ok?
    ensures RowDataOf(headers, row).Ok? ==>
              forall j :: 0 <= j < |headers| ==> Get(RowDataOf(headers, row).value, headers[j]) == Some(ColumnText(row, j).value)
  {
    RowDataOk([], headers, ColumnTexts(headers, row), 0);
    if RowDataOf(headers, row).Ok? {
      RowDataValues([], headers, ColumnTexts(headers, row), 0);
    }
  }

  /** rowData.get(header), with null read as "": a reference with either is passed over, and
      another column puts "". */
  function ValueIn(rd: OMap<Header, string>, h: Header): string {
    var v := Get(rd, h);
    if v.Some? then v.value else ""
  }

  /** The cached id for a reference value: the key is built from the header's class,
      attribute and the value, and looked up. */
  function ReferenceLookup(a2i: OMap<string, string>, t: string, value: string): Result<Option<string>> {
    var cls :- ReferenceClassName(t);
    var attr :- ReferenceAttributeName(t);
    var key :- BuildAttrKey(cls, attr, value);
    Ok(Get(a2i, key))
  }

  /** One column of the attribute loop of buildCompositionMutations. The parent column is
      passed over, and so is a reference with an empty value or without a cached id; a
      resolved reference puts its id under the header's role name; any other column puts its
      value under its attribute name. */
  function CompositionStep(a2i: OMap<string, string>, rd: OMap<Header, string>, parent: Header, h: Header): Step {
    if h == parent then Skip
    else
      var value := ValueIn(rd, h);
      if IsReference(h.text) then
        if value == "" then Skip
        else match ReferenceLookup(a2i, h.text, value)
          case Err(f) => Fail(f)
          case Ok(None) => Skip
          case Ok(Some(id)) =>
            match RoleName(h.text)
            case Err(f) => Fail(f)
            case Ok(role) => Emit(role.value, id)
      else Emit(AttributeName(h.text), value)
  }

  function CompositionSteps(a2i: OMap<string, string>, rd: OMap<Header, string>, headers: seq<Header>, parent: Header)
    : (ss: seq<Step>)
    ensures |ss| == |headers| && forall i :: 0 <= i < |headers| ==> ss[i] == CompositionStep(a2i, rd, parent, headers[i])
  {
    seq(|headers|, i requires 0 <= i < |headers| => CompositionStep(a2i, rd, parent, headers[i]))
  }

  /** The composed object's attribute map of one row. */
  function CompositionAttributesOf(a2i: OMap<string, string>, rd: OMap<Header, string>, headers: seq<Header>,
                                   parent: Header): Result<OMap<string, string>> {
    Fold([], CompositionSteps(a2i, rd, headers, parent))
  }

  /** The column throws: a reference other than the parent, with a value, whose key cannot
      be built. */
  predicate Throws(a2i: OMap<string, string>, rd: OMap<Header, string>, parent: Header, h: Header) {
    h != parent && IsReference(h.text) && ValueIn(rd, h) != "" && ReferenceLookup(a2i, h.text, ValueIn(rd, h)).Err?
  }

  /** The column puts an attribute: any column but the parent, a reference only when its value
      has a cached id. */
  predicate Puts(a2i: OMap<string, string>, rd: OMap<Header, string>, parent: Header, h: Header) {
    h != parent &&
    (IsReference(h.text) ==>
       ValueIn(rd, h) != "" && ReferenceLookup(a2i, h.text, ValueIn(rd, h)).Ok? &&
       ReferenceLookup(a2i, h.text, ValueIn(rd, h)).value.Some?)
  }

  /** The name and value a putting column gives. */
  function EntryOf(a2i: OMap<string, string>, rd: OMap<Header, string>, parent: Header, h: Header): (string, string)
    requires Puts(a2i, rd, parent, h)
  {
    if IsReference(h.text) then
      RoleNameOfResolved(a2i, h.text, ValueIn(rd, h));
      (RoleName(h.text).value.value, ReferenceLookup(a2i, h.text, ValueIn(rd, h)).value.value)
    else (AttributeName(h.text), ValueIn(rd, h))
  }

  /** A reference whose key can be built has a role name. */
  lemma RoleNameOfResolved(a2i: OMap<string, string>, t: string, value: string)
    requires IsReference(t) && ReferenceLookup(a2i, t, value).Ok?
    ensures RoleName(t).Ok? && RoleName(t).value.Some?
  {
    assert ReferenceClassName(t).Ok?;
    assert DefaultRoleName(t).Ok?;
  }

  lemma StepsMeaning(a2i: OMap<string, string>, rd: OMap<Header, string>, headers: seq<Header>, parent: Header)
    ensures forall i :: 0 <= i < |headers| ==>
              (CompositionSteps(a2i, rd, headers, parent)[i].Fail? <==> Throws(a2i, rd, parent, headers[i]))
    ensures forall i :: 0 <= i < |headers| ==>
              (CompositionSteps(a2i, rd, headers, parent)[i].Emit? <==> Puts(a2i, rd, parent, headers[i]))
    ensures forall i :: 0 <= i < |headers| && Puts(a2i, rd, parent, headers[i]) ==>
              var s := CompositionSteps(a2i, rd, headers, parent)[i];
              (s.name, s.value) == EntryOf(a2i, rd, parent, headers[i])
  {
    forall i | 0 <= i < |headers| && IsReference(headers[i].text) && ValueIn(rd, headers[i]) != "" &&
               ReferenceLookup(a2i, headers[i].text, ValueIn(rd, headers[i])).Ok?
      ensures RoleName(headers[i].text).Ok? && RoleName(headers[i].text).value.Some?
    {
      RoleNameOfResolved(a2i, headers[i].text, ValueIn(rd, headers[i]));
    }
  }

  /** The attribute map can be built exactly when no column throws. */
  lemma CompositionAttributesOk(a2i: OMap<string, string>, rd: OMap<Header, string>, headers: seq<Header>, parent: Header)
    ensures CompositionAttributesOf(a2i, rd, headers, parent).Ok? <==>
            forall i :: 0 <= i < |headers| ==> !Throws(a2i, rd, parent, headers[i])
  {
    FoldFails([], CompositionSteps(a2i, rd, headers, parent));
    StepsMeaning(a2i, rd, headers, parent);
  }

  /** The keys of the map are the names the putting columns give: role names for resolved
      references, attribute names otherwise; a name no later putting column repeats holds
      its column's id or value. */
  lemma CompositionAttributesShape(a2i: OMap<string, string>, rd: OMap<Header, string>, headers: seq<Header>, parent: Header)
    requires CompositionAttributesOf(a2i, rd, headers, parent).Ok?
    ensures var attrs := CompositionAttributesOf(a2i, rd, headers, parent).value;
            forall k :: k in KeySet(attrs) <==>
              exists i :: 0 <= i < |headers| && Puts(a2i, rd, parent, headers[i]) && EntryOf(a2i, rd, parent, headers[i]).0 == k
    ensures var attrs := CompositionAttributesOf(a2i, rd, headers, parent).value;
            forall i :: (0 <= i < |headers| && Puts(a2i, rd, parent, headers[i]) &&
                         forall j :: i < j < |headers| && Puts(a2i, rd, parent, headers[j]) ==>
                           EntryOf(a2i, rd, parent, headers[j]).0 != EntryOf(a2i, rd, parent, headers[i]).0) ==>
              Get(attrs, EntryOf(a2i, rd, parent, headers[i]).0) == Some(EntryOf(a2i, rd, parent, headers[i]).1)
  {
    var steps := CompositionSteps(a2i, rd, headers, parent);
    FoldFails([], steps);
    StepsMeaning(a2i, rd, headers, parent);
    RowMap(steps);
  }

  /** A reference column with an empty value or no cached id drops only itself: the map
      without that column is the same map, or the same failure. */
  lemma UnresolvedColumnChangesNothing(a2i: OMap<string, string>, rd: OMap<Header, string>, headers: seq<Header>,
                                       parent: Header, i: nat)
    requires i < |headers| && IsReference(headers[i].text)
    requires ValueIn(rd, headers[i]) == "" || ReferenceLookup(a2i, headers[i].text, ValueIn(rd, headers[i])) == Ok(None)
    ensures CompositionAttributesOf(a2i, rd, headers[..i] + headers[i + 1..], parent) ==
            CompositionAttributesOf(a2i, rd, headers, parent)
  {
    var steps := CompositionSteps(a2i, rd, headers, parent);
    var dropped := headers[..i] + headers[i + 1..];
    MapDrop(h => CompositionStep(a2i, rd, parent, h), headers, steps, CompositionSteps(a2i, rd, dropped, parent), i);
    FoldDropSkip([], steps, i);
  }

  /** One row of buildCompositionMutations, the parent at position p: its mutation, or
      nothing when the parent value is empty or has no cached id. The mutation is built even
      when the attribute map is empty. */
  function RowOutput(a2i: OMap<string, string>, headers: seq<Header>, p: nat, composition: string,
                     doubleParses: string -> bool, row: DataRow): Result<Option<string>>
    requires p < |headers|
  {
    var rd :- RowDataOf(headers, row);
    var parent := headers[p];
    var parentValue := ValueIn(rd, parent);
    if parentValue == "" then Ok(None)
    else
      var parentId :- ReferenceLookup(a2i, parent.text, parentValue);
      if parentId.None? then Ok(None)
      else
        var attrs :- CompositionAttributesOf(a2i, rd, headers, parent);
        var cls := ReferenceClassName(parent.text).value;
        var m :- BuildCompositionUpdateMutation(cls, Id, parentId.value, composition, attrs, doubleParses);
        Ok(Some(m))
  }

  /** With distinct header objects, a row whose data can be built is passed over exactly when
      its parent cell is empty or its parent value has no cached id. */
  lemma RowPassedOver(a2i: OMap<string, string>, headers: seq<Header>, p: nat, composition: string,
                      doubleParses: string -> bool, row: DataRow)
    requires p < |headers| && DistinctHeaders(headers)
    requires RowDataOf(headers, row).Ok?
    ensures ColumnText(row, p).Ok?
    ensures var pv := ColumnText(row, p).value;
            RowOutput(a2i, headers, p, composition, doubleParses, row) == Ok(None) <==>
              pv == "" || ReferenceLookup(a2i, headers[p].text, pv) == Ok(None)
  {
    RowData(headers, row);
    var rd := RowDataOf(headers, row).value;
    var pv := ValueIn(rd, headers[p]);
    assert pv == ColumnText(row, p).value;
    if pv != "" {
      var look := ReferenceLookup(a2i, headers[p].text, pv);
      if look.Ok? && look.value.Some? {
        var attrs := CompositionAttributesOf(a2i, rd, headers, headers[p]);
        var out := RowOutput(a2i, headers, p, composition, doubleParses, row);
        assert attrs.Ok? ==> out.Err? || out.value.Some?;
      }
    }
  }

  /** A row with a cached parent id gives the parent class's update mutation: the parent is
      named by `_id` with that id, and the composed object is created with the row's attribute
      map under the composition name. */
  lemma RowMutation(a2i: OMap<string, string>, headers: seq<Header>, p: nat, composition: string,
                    doubleParses: string -> bool, row: DataRow, parentId: string)
    requires p < |headers| && DistinctHeaders(headers)
    requires RowDataOf(headers, row).Ok? && ColumnText(row, p).Ok?
    requires var pv := ColumnText(row, p).value;
             pv != "" && ReferenceLookup(a2i, headers[p].text, pv) == Ok(Some(parentId))
    ensures var rd := RowDataOf(headers, row).value;
            var attrs := CompositionAttributesOf(a2i, rd, headers, headers[p]);
            var out := RowOutput(a2i, headers, p, composition, doubleParses, row);
            (out.Ok? <==> attrs.Ok? && FormatAttributes(attrs.value, doubleParses).Ok?) &&
            (out.Ok? ==>
               out.value == Some(Frame(ReferenceClassName(headers[p].text).value + GraphQLUpdateSuffix,
                                       UpdateData(Id, parentId, composition, FormatAttributes(attrs.value, doubleParses).value))))
  {
    RowData(headers, row);
    assert ReferenceClassName(headers[p].text).Ok?;
  }

  function RowOutputs(a2i: OMap<string, string>, headers: seq<Header>, p: nat, composition: string,
                      doubleParses: string -> bool, rows: seq<DataRow>): (outs: seq<Result<Option<string>>>)
    requires p < |headers|
    ensures |outs| == |rows| &&
            forall k :: 0 <= k < |rows| ==> outs[k] == RowOutput(a2i, headers, p, composition, doubleParses, rows[k])
  {
    seq(|rows|, k requires 0 <= k < |rows| => RowOutput(a2i, headers, p, composition, doubleParses, rows[k]))
  }

  /** buildCompositionMutations: the mutations of the rows, in row order. */
  function MutationsOf(a2i: OMap<string, string>, headers: seq<Header>, p: nat, composition: string,
                       doubleParses: string -> bool, rows: seq<DataRow>): Result<seq<string>>
    requires p < |headers|
  {
    CollectRows([], RowOutputs(a2i, headers, p, composition, doubleParses, rows))
  }

  /** The mutations can be built exactly when no row throws; they are then the mutations of
      the rows not passed over, in row order. */
  lemma MutationsShape(a2i: OMap<string, string>, headers: seq<Header>, p: nat, composition: string,
                       doubleParses: string -> bool, rows: seq<DataRow>)
    requires p < |headers|
    ensures var r := MutationsOf(a2i, headers, p, composition, doubleParses, rows);
            var outs := RowOutputs(a2i, headers, p, composition, doubleParses, rows);
            (r.Ok? <==> forall k :: 0 <= k < |rows| ==> outs[k].Ok?) &&
            (r.Ok? ==> r.value == Given(outs)) &&
            (r.Err? ==> exists k :: 0 <= k < |rows| && outs[k] == Err(r.failure) &&
                                    forall j :: 0 <= j < k ==> outs[j].Ok?)
  {
    var outs := RowOutputs(a2i, headers, p, composition, doubleParses, rows);
    CollectRowsShape([], outs);
    if CollectRows([], outs).Ok? {
      assert [] + Given(outs) == Given(outs);
    }
  }

  /** A row passed over leaves the other rows' mutations as they are: the sheet without it
      gives the same mutations, or the same failure. */
  lemma PassedOverRowChangesNothing(a2i: OMap<string, string>, headers: seq<Header>, p: nat, composition: string,
                                    doubleParses: string -> bool, rows: seq<DataRow>, k: nat)
    requires p < |headers| && k < |rows|
    requires RowOutput(a2i, headers, p, composition, doubleParses, rows[k]) == Ok(None)
    ensures MutationsOf(a2i, headers, p, composition, doubleParses, rows[..k] + rows[k + 1..]) ==
            MutationsOf(a2i, headers, p, composition, doubleParses, rows)
  {
    var outs := RowOutputs(a2i, headers, p, composition, doubleParses, rows);
    var dropped := rows[..k] + rows[k + 1..];
    MapDrop(row => RowOutput(a2i, headers, p, composition, doubleParses, row), rows, outs,
            RowOutputs(a2i, headers, p, composition, doubleParses, dropped), k);
    CollectRowsDropNone([], outs, k);
  }

  /** The parent values extractValuesForHeader gathers: the formatted values of the non-blank
      cells at the parent's position, each once, in row order. A cell whose formatting throws
      ends the gathering. */
  lemma ParentValues(rows: seq<DataRow>, p: nat)
    ensures ColumnValues([], rows, p).Ok? <==> AllFormat(rows, p)
    ensures ColumnValues([], rows, p).Ok? ==>
              NoRepeats(ColumnValues([], rows, p).value) &&
              forall v :: v in ColumnValues([], rows, p).value <==> Yields(rows, p, v)
  {
    ColumnValuesOk([], rows, p);
    if ColumnValues([], rows, p).Ok? {
      ColumnValuesPrefix([], rows, p);
      ColumnValuesMembers([], rows, p);
    }
  }

  /** parseAndGenerateMutations from a cache: the header checks, the parent values resolved
      in batches, the other reference columns collected and resolved, then the mutations
      built with the cache left. */
  function ParseOf(a2i: OMap<string, string>, sheet: DataSheet, exec: Executor, doubleParses: string -> bool)
    : (OMap<string, string>, Result<seq<string>>)
  {
    if sheet.headers == [] then (a2i, Err(MissingHeaders(sheet.name)))
    else match FirstReference(sheet.headers)
      case None => (a2i, Err(MissingParentReference(sheet.name)))
      case Some(p) =>
        var parent := sheet.headers[p];
        match ColumnValues([], sheet.dataRows, p)
        case Err(f) => (a2i, Err(f))
        case Ok(values) =>
          var (a1, f1) := ResolveBatches(a2i, parent.text, Batches(values, ResolveBatchSize), exec);
          if f1.Some? then (a1, Err(f1.value))
          else match CollectOf(sheet.headers, sheet.dataRows, {parent})
            case Err(f) => (a1, Err(f))
            case Ok(entries) =>
              var (a2, f2) := ResolveEntries(a1, entries, exec);
              if f2.Some? then (a2, Err(f2.value))
              else (a2, MutationsOf(a2, sheet.headers, p, sheet.RoleName(), doubleParses, sheet.dataRows))
  }

  /** A sheet without headers, or without a reference header, is refused before anything is
      resolved. */
  lemma ParseRefuses(a2i: OMap<string, string>, sheet: DataSheet, exec: Executor, doubleParses: string -> bool)
    ensures sheet.headers == [] ==> ParseOf(a2i, sheet, exec, doubleParses) == (a2i, Err(MissingHeaders(sheet.name)))
    ensures sheet.headers != [] && (forall i :: 0 <= i < |sheet.headers| ==> !IsReference(sheet.headers[i].text)) ==>
              ParseOf(a2i, sheet, exec, doubleParses) == (a2i, Err(MissingParentReference(sheet.name)))
  {
  }

  /** The parent values are resolved before the other references, and both before any
      mutation is built: mutations exist only after every resolve succeeded, and are read
      with the cache left. No cached key is lost, and the parent ids stay cached through the
      second resolve. */
  lemma ResolvedBeforeBuilt(a2i: OMap<string, string>, sheet: DataSheet, exec: Executor, doubleParses: string -> bool)
    ensures KeySet(a2i) <= KeySet(ParseOf(a2i, sheet, exec, doubleParses).0)
    ensures var (c, r) := ParseOf(a2i, sheet, exec, doubleParses);
            r.Ok? ==>
              exists p :: FirstReference(sheet.headers) == Some(p) &&
                ColumnValues([], sheet.dataRows, p).Ok? &&
                var parentIds := ResolveBatches(a2i, sheet.headers[p].text,
                                                Batches(ColumnValues([], sheet.dataRows, p).value, ResolveBatchSize), exec);
                parentIds.1.None? && KeySet(parentIds.0) <= KeySet(c) &&
                r == MutationsOf(c, sheet.headers, p, sheet.RoleName(), doubleParses, sheet.dataRows)
  {
    var out := ParseOf(a2i, sheet, exec, doubleParses);
    if sheet.headers != [] && FirstReference(sheet.headers).Some? {
      var p := FirstReference(sheet.headers).value;
      var parent := sheet.headers[p];
      if ColumnValues([], sheet.dataRows, p).Ok? {
        var bs := Batches(ColumnValues([], sheet.dataRows, p).value, ResolveBatchSize);
        ResolveBatchesGrows(a2i, parent.text, bs, exec);
        var (a1, f1) := ResolveBatches(a2i, parent.text, bs, exec);
        if f1.None? && CollectOf(sheet.headers, sheet.dataRows, {parent}).Ok? {
          var entries := CollectOf(sheet.headers, sheet.dataRows, {parent}).value;
          ResolveEntriesGrows(a1, entries, exec);
          var (a2, f2) := ResolveEntries(a1, entries, exec);
          if f2.None? {
            assert out == (a2, MutationsOf(a2, sheet.headers, p, sheet.RoleName(), doubleParses, sheet.dataRows));
          } else {
            assert out == (a2, Err(f2.value));
          }
        } else if f1.None? {
          assert out == (a1, Err(CollectOf(sheet.headers, sheet.dataRows, {parent}).failure));
        } else {
          assert out == (a1, Err(f1.value));
        }
      } else {
        assert out == (a2i, Err(ColumnValues([], sheet.dataRows, p).failure));
      }
    } else {
      assert out.0 == a2i && out.1.Err?;
    }
  }

  /** The parser: the resolving base whose cache it fills and reads. */
  class CompositionParser {
    const resolver: ExternalAttributeResolverParser

    constructor()
      ensures fresh(resolver) && resolver.attr2id == []
    {
      resolver := new ExternalAttributeResolverParser();
    }

    method ParseAndGenerateMutations(sheet: DataSheet, exec: Executor, doubleParses: string -> bool)
      returns (r: Result<seq<string>>)
      modifies resolver
      ensures (resolver.attr2id, r) == ParseOf(old(resolver.attr2id), sheet, exec, doubleParses)
    {
      if |sheet.headers| == 0 {
        return Err(MissingHeaders(sheet.name));
      }
      var composition := sheet.RoleName();
      var p := FirstReference(sheet.headers);
      if p.None? {
        return Err(MissingParentReference(sheet.name));
      }
      var parent := sheet.headers[p.value];
      var values := ExtractValuesForHeader(sheet.dataRows, p.value);
      if values.Err? {
        return Err(values.failure);
      }
      var failure := resolver.ResolveHeader(parent, values.value, exec);
      if failure.Some? {
        return Err(failure.value);
      }
      var entries := CollectExternalAttributes(sheet.headers, sheet.dataRows, {parent});
      if entries.Err? {
        return Err(entries.failure);
      }
      failure := resolver.ResolveAllExternalAttributesBatched(entries.value, exec);
      if failure.Some? {
        return Err(failure.value);
      }
      r := BuildCompositionMutations(sheet.headers, p.value, composition, doubleParses, sheet.dataRows);
    }

    /** The parent column's distinct non-blank values, the parent at position p. */
    method ExtractValuesForHeader(rows: seq<DataRow>, p: nat) returns (r: Result<seq<string>>)
      ensures r == ColumnValues([], rows, p)
    {
      r := WalkColumn([], rows, p);
    }

    method BuildCompositionMutations(headers: seq<Header>, p: nat, composition: string, doubleParses: string -> bool,
                                     rows: seq<DataRow>) returns (r: Result<seq<string>>)
      requires p < |headers|
      ensures r == MutationsOf(resolver.attr2id, headers, p, composition, doubleParses, rows)
    {
      ghost var outs := RowOutputs(resolver.attr2id, headers, p, composition, doubleParses, rows);
      var mutations: seq<string> := [];
      var k := 0;
      while k < |rows|
        invariant 0 <= k <= |rows|
        invariant CollectRows(mutations, outs[k..]) == CollectRows([], outs)
      {
        assert outs[k..][0] == outs[k] && outs[k..][1..] == outs[k + 1..];
        var out := BuildRow(headers, p, composition, doubleParses, rows[k]);
        if out.Err? {
          return Err(out.failure);
        }
        if out.value.Some? {
          mutations := mutations + [out.value.value];
        }
        k := k + 1;
      }
      assert outs[k..] == [];
      return Ok(mutations);
    }

    /** One row: the row data, the parent lookup, the attribute loop, the mutation. */
    method BuildRow(headers: seq<Header>, p: nat, composition: string, doubleParses: string -> bool, row: DataRow)
      returns (r: Result<Option<string>>)
      requires p < |headers|
      ensures r == RowOutput(resolver.attr2id, headers, p, composition, doubleParses, row)
    {
      var rowData := BuildRowData(headers, row);
      if rowData.Err? {
        return Err(rowData.failure);
      }
      var parent := headers[p];
      var parentValue := ValueIn(rowData.value, parent);
      if parentValue == "" {
        return Ok(None);
      }
      var parentId := ReferenceLookup(resolver.attr2id, parent.text, parentValue);
      if parentId.Err? {
        return Err(parentId.failure);
      }
      if parentId.value.None? {
        return Ok(None);
      }
      var attrs := BuildCompositionAttributes(rowData.value, headers, parent);
      if attrs.Err? {
        return Err(attrs.failure);
      }
      var cls := ReferenceClassName(parent.text).value;
      var m := BuildCompositionUpdateMutation(cls, Id, parentId.value.value, composition, attrs.value, doubleParses);
      if m.Err? {
        return Err(m.failure);
      }
      return Ok(Some(m.value));
    }

    /** The attribute loop over the headers. */
    method BuildCompositionAttributes(rowData: OMap<Header, string>, headers: seq<Header>, parent: Header)
      returns (r: Result<OMap<string, string>>)
      ensures r == CompositionAttributesOf(resolver.attr2id, rowData, headers, parent)
    {
      ghost var steps := CompositionSteps(resolver.attr2id, rowData, headers, parent);
      var attributes: OMap<string, string> := [];
      var i := 0;
      while i < |headers|
        invariant 0 <= i <= |headers|
        invariant Fold(attributes, steps[i..]) == Fold([], steps)
      {
        assert steps[i..][0] == steps[i] && steps[i..][1..] == steps[i + 1..];
        var header := headers[i];
        if header != parent {
          var value := ValueIn(rowData, header);
          if IsReference(header.text) {
            if value != "" {
              var id := ReferenceLookup(resolver.attr2id, header.text, value);
              if id.Err? {
                return Err(id.failure);
              }
              if id.value.Some? {
                var role := RoleName(header.text);
                if role.Err? {
                  return Err(role.failure);
                }
                attributes := Put(attributes, role.value.value, id.value.value);
              }
            }
          } else {
            attributes := Put(attributes, AttributeName(header.text), value);
          }
        }
        i := i + 1;
      }
      assert steps[i..] == [];
      return Ok(attributes);
    }

    method BuildRowData(headers: seq<Header>, row: DataRow) returns (r: Result<OMap<Header, string>>)
      ensures r == RowDataOf(headers, row)
    {
      ghost var ts := ColumnTexts(headers, row);
      var rowData: OMap<Header, string> := [];
      var i := 0;
      while i < |headers|
        invariant 0 <= i <= |headers|
        invariant RowDataFrom(rowData, headers, ts, i) == RowDataOf(headers, row)
      {
        var value: string := "";
        if i < |row.cells| {
          var v := GetFormattedValue(row.cells[i]);
          if v.Err? {
            return Err(v.failure);
          }
          value := v.value;
        }
        rowData := Put(rowData, headers[i], value);
        i := i + 1;
      }
      return Ok(rowData);
    }
  }
}
