/** graphql.parser.ExternalAttributeResolver: the older base of the sheet parsers. It keeps,
    per reference header object, the value-to-id table getIds returned for the values of that
    column, and builds a row's attribute map by looking each reference cell up in its
    column's table by the cell's raw value. */
module Resolver {
  import opened Wrappers
  import opened Sequences
  import opened OrderedMaps
  import opened Headers
  import opened DataCells
  import opened DataModel
  import opened Attributes
  import opened ResolverParser

  /** header2value2id: per header object, the value-to-id table of its column. */
  type Table = OMap<Header, OMap<string, string>>

  /** getResolvedId: the table of the cell's header, looked up by the cell's raw value. For a
      header without a table the first get gives null and the second one throws. */
  function ResolvedIdOf(table: Table, c: DataCell): (r: Result<Option<string>>)
    ensures r.Err? <==> c.header !in KeySet(table)
    ensures r.Ok? ==> r.value.Some? == (c.value in KeySet(Get(table, c.header).value))
  {
    match Get(table, c.header)
    case None => Err(NullValue)
    case Some(value2id) => Ok(Get(value2id, c.value))
  }

  /** The cell is looked at: its header is not the parent header and it is not blank. */
  predicate Considered(c: DataCell, parent: Option<Header>) {
    parent != Some(c.header) && !CellIsBlank(c.cell, c.value)
  }

  /** One cell of buildCompositionAttributes: the parent column and blank cells are passed
      over; a reference cell gives its resolved id, and is passed over when its value has no
      id; any other cell gives its formatted value. */
  function CellStep(table: Table, c: DataCell, parent: Option<Header>): Step {
    if !Considered(c, parent) then Skip
    else if IsReference(c.header.text) then
      match ResolvedIdOf(table, c)
      case Err(f) => Fail(f)
      case Ok(None) => Skip
      case Ok(Some(id)) => Emit(AttributeName(c.header.text), id)
    else
      match GetFormattedValue(c)
      case Err(f) => Fail(f)
      case Ok(v) => Emit(AttributeName(c.header.text), v)
  }

  function CellSteps(table: Table, cells: seq<DataCell>, parent: Option<Header>): (ss: seq<Step>)
    ensures |ss| == |cells| && forall i :: 0 <= i < |cells| ==> ss[i] == CellStep(table, cells[i], parent)
  {
    seq(|cells|, i requires 0 <= i < |cells| => CellStep(table, cells[i], parent))
  }

  /** buildCompositionAttributes over a row's cells. */
  function CellsAttributes(table: Table, cells: seq<DataCell>, parent: Option<Header>): Result<OMap<string, string>> {
    Fold([], CellSteps(table, cells, parent))
  }

  /** The looked-at cell throws: a reference whose header has no table, or another cell
      whose formatting throws. */
  predicate Throws(table: Table, c: DataCell, parent: Option<Header>) {
    Considered(c, parent) &&
    if IsReference(c.header.text) then c.header !in KeySet(table) else GetFormattedValue(c).Err?
  }

  /** The looked-at cell puts an attribute: a reference whose value has an id, or another
      cell. */
  predicate Contributes(table: Table, c: DataCell, parent: Option<Header>) {
    Considered(c, parent) &&
    (IsReference(c.header.text) ==>
       c.header in KeySet(table) && c.value in KeySet(Get(table, c.header).value))
  }

  lemma StepsMeaning(table: Table, cells: seq<DataCell>, parent: Option<Header>)
    ensures forall i :: 0 <= i < |cells| ==>
              (CellSteps(table, cells, parent)[i].Fail? <==> Throws(table, cells[i], parent))
    ensures forall i :: 0 <= i < |cells| && !Throws(table, cells[i], parent) ==>
              (CellSteps(table, cells, parent)[i].Emit? <==> Contributes(table, cells[i], parent))
    ensures forall i :: 0 <= i < |cells| && CellSteps(table, cells, parent)[i].Emit? ==>
              CellSteps(table, cells, parent)[i].name == AttributeName(cells[i].header.text)
  {
  }

  /** A row's map can be built exactly when no looked-at cell throws. */
  lemma CompositionAttributesOk(table: Table, cells: seq<DataCell>, parent: Option<Header>)
    ensures CellsAttributes(table, cells, parent).Ok? <==>
            forall i :: 0 <= i < |cells| ==> !Throws(table, cells[i], parent)
  {
    FoldFails([], CellSteps(table, cells, parent));
    StepsMeaning(table, cells, parent);
  }

  /** The keys of a row's map are the attribute names (not the role names) of its
      contributing cells; a name no later contributing cell repeats holds the cell's id, for a
      reference, or its formatted value. */
  lemma CompositionAttributesShape(table: Table, cells: seq<DataCell>, parent: Option<Header>)
    requires CellsAttributes(table, cells, parent).Ok?
    ensures var attrs := CellsAttributes(table, cells, parent).value;
            forall k :: k in KeySet(attrs) <==>
              exists i :: 0 <= i < |cells| && Contributes(table, cells[i], parent) && AttributeName(cells[i].header.text) == k
    ensures var attrs := CellsAttributes(table, cells, parent).value;
            forall i :: (0 <= i < |cells| && Contributes(table, cells[i], parent) &&
                         forall j :: i < j < |cells| && Contributes(table, cells[j], parent) ==>
                           AttributeName(cells[j].header.text) != AttributeName(cells[i].header.text)) ==>
              var name := AttributeName(cells[i].header.text);
              name in KeySet(attrs) &&
              (IsReference(cells[i].header.text) ==> Get(attrs, name) == ResolvedIdOf(table, cells[i]).value) &&
              (!IsReference(cells[i].header.text) ==> Get(attrs, name).Some? && Ok(Get(attrs, name).value) == GetFormattedValue(cells[i]))
  {
    CompositionAttributeKeys(table, cells, parent);
    CompositionAttributeValues(table, cells, parent);
  }

  /** The key half of CompositionAttributesShape. */
  lemma CompositionAttributeKeys(table: Table, cells: seq<DataCell>, parent: Option<Header>)
    requires CellsAttributes(table, cells, parent).Ok?
    ensures var attrs := CellsAttributes(table, cells, parent).value;
            forall k :: k in KeySet(attrs) <==>
              exists i :: 0 <= i < |cells| && Contributes(table, cells[i], parent) && AttributeName(cells[i].header.text) == k
  {
    var steps := CellSteps(table, cells, parent);
    CompositionAttributesOk(table, cells, parent);
    FoldFails([], steps);
    StepsMeaning(table, cells, parent);
    RowMap(steps);
  }

  /** The value half of CompositionAttributesShape. */
  lemma CompositionAttributeValues(table: Table, cells: seq<DataCell>, parent: Option<Header>)
    requires CellsAttributes(table, cells, parent).Ok?
    ensures var attrs := CellsAttributes(table, cells, parent).value;
            forall i :: (0 <= i < |cells| && Contributes(table, cells[i], parent) &&
                         forall j :: i < j < |cells| && Contributes(table, cells[j], parent) ==>
                           AttributeName(cells[j].header.text) != AttributeName(cells[i].header.text)) ==>
              var name := AttributeName(cells[i].header.text);
              name in KeySet(attrs) &&
              (IsReference(cells[i].header.text) ==> Get(attrs, name) == ResolvedIdOf(table, cells[i]).value) &&
              (!IsReference(cells[i].header.text) ==> Get(attrs, name).Some? && Ok(Get(attrs, name).value) == GetFormattedValue(cells[i]))
  {
    var steps := CellSteps(table, cells, parent);
    var attrs := CellsAttributes(table, cells, parent).value;
    CompositionAttributesOk(table, cells, parent);
    FoldFails([], steps);
    StepsMeaning(table, cells, parent);
    RowMap(steps);
    forall i | 0 <= i < |cells| && Contributes(table, cells[i], parent) &&
               forall j :: i < j < |cells| && Contributes(table, cells[j], parent) ==>
                 AttributeName(cells[j].header.text) != AttributeName(cells[i].header.text)
      ensures var name := AttributeName(cells[i].header.text);
              name in KeySet(attrs) &&
              (IsReference(cells[i].header.text) ==> Get(attrs, name) == ResolvedIdOf(table, cells[i]).value) &&
              (!IsReference(cells[i].header.text) ==> Get(attrs, name).Some? && Ok(Get(attrs, name).value) == GetFormattedValue(cells[i]))
    {
      assert steps[i] == CellStep(table, cells[i], parent);
      assert steps[i].Emit?;
      forall j | i < j < |steps| && steps[j].Emit? ensures steps[j].name != steps[i].name {
        assert steps[j] == CellStep(table, cells[j], parent);
      }
    }
  }

  /** A reference whose value has no id, the parent column and a blank cell only drop their
      own column: the row without that cell gets the same map, or the same failure. */
  lemma PassedOverCellChangesNothing(table: Table, cells: seq<DataCell>, parent: Option<Header>, i: nat)
    requires i < |cells|
    requires !Considered(cells[i], parent) ||
             (IsReference(cells[i].header.text) && ResolvedIdOf(table, cells[i]) == Ok(None))
    ensures CellsAttributes(table, cells[..i] + cells[i + 1..], parent) == CellsAttributes(table, cells, parent)
  {
    var steps := CellSteps(table, cells, parent);
    var dropped := cells[..i] + cells[i + 1..];
    MapDrop(c => CellStep(table, c, parent), cells, steps, CellSteps(table, dropped, parent), i);
    FoldDropSkip([], steps, i);
  }

  /** sheetData.externalHeaders(): the reference headers, in header order. */
  function ExternalHeaders(headers: seq<Header>): (hs: seq<Header>)
    ensures forall i :: 0 <= i < |hs| ==> hs[i] in headers && IsReference(hs[i].text)
    ensures forall i :: 0 <= i < |headers| && IsReference(headers[i].text) ==> headers[i] in hs
    ensures |hs| <= |headers|
  {
    if headers == [] then []
    else (if IsReference(headers[0].text) then [headers[0]] else []) + ExternalHeaders(headers[1..])
  }

  ghost predicate AllValid(rows: seq<DataRow>) {
    forall k :: 0 <= k < |rows| ==> rows[k].Valid()
  }

  /** What row.get(header) finds in each row: the row's last cell under that header. */
  function Found(rows: seq<DataRow>, h: Header): (cs: seq<Option<DataCell>>)
    requires AllValid(rows)
    ensures |cs| == |rows| && forall k :: 0 <= k < |rows| ==> cs[k] == rows[k].Get(h)
  {
    seq(|rows|, k requires 0 <= k < |rows| => rows[k].Get(h))
  }

  /** extractValuesForHeader from the values so far: the formatted value of every cell found,
      blank ones included, added to the set in row order. */
  function ExtractFrom(acc: seq<string>, found: seq<Option<DataCell>>): Result<seq<string>>
    decreases |found|
  {
    if found == [] then Ok(acc)
    else match found[0]
      case None => ExtractFrom(acc, found[1..])
      case Some(c) =>
        var v :- GetFormattedValue(c);
        ExtractFrom(AddValue(acc, v), found[1..])
  }

  function ExtractValues(rows: seq<DataRow>, h: Header): Result<seq<string>>
    requires AllValid(rows)
  {
    ExtractFrom([], Found(rows, h))
  }

  /** Some cell found formats to v. */
  predicate Gives(found: seq<Option<DataCell>>, v: string) {
    exists k :: 0 <= k < |found| && found[k].Some? && GetFormattedValue(found[k].value) == Ok(v)
  }

  /** Every cell found formats. */
  predicate AllGiven(found: seq<Option<DataCell>>) {
    forall k :: 0 <= k < |found| && found[k].Some? ==> GetFormattedValue(found[k].value).Ok?
  }

  lemma GivesStep(found: seq<Option<DataCell>>)
    requires found != []
    ensures AllGiven(found) <==>
            (found[0].Some? ==> GetFormattedValue(found[0].value).Ok?) && AllGiven(found[1..])
    ensures forall v :: Gives(found, v) <==>
              (found[0].Some? && GetFormattedValue(found[0].value) == Ok(v)) || Gives(found[1..], v)
  {
    AllCons(found, (o: Option<DataCell>) => o.Some? ==> GetFormattedValue(o.value).Ok?);
    forall v ensures Gives(found, v) <==>
                     (found[0].Some? && GetFormattedValue(found[0].value) == Ok(v)) || Gives(found[1..], v)
    {
      ExistsCons(found, (o: Option<DataCell>) => o.Some? && GetFormattedValue(o.value) == Ok(v));
    }
  }

  /** The walk succeeds exactly when every cell found formats; it then holds the values it
      started with and the formatted values of the cells found, each once. */
  lemma {:induction false} ExtractFromShape(acc: seq<string>, found: seq<Option<DataCell>>)
    ensures ExtractFrom(acc, found).Ok? <==> AllGiven(found)
    ensures ExtractFrom(acc, found).Ok? ==>
              (forall v :: v in ExtractFrom(acc, found).value <==> v in acc || Gives(found, v)) &&
              (NoRepeats(acc) ==> NoRepeats(ExtractFrom(acc, found).value))
    decreases |found|
  {
    if found != [] {
      GivesStep(found);
      match found[0]
      case None => ExtractFromShape(acc, found[1..]);
      case Some(c) =>
        if GetFormattedValue(c).Ok? {
          var acc' := AddValue(acc, GetFormattedValue(c).value);
          assert NoRepeats(acc) ==> NoRepeats(acc') by {
            if NoRepeats(acc) && GetFormattedValue(c).value !in acc {
              assert forall a :: 0 <= a < |acc| ==> acc'[a] == acc[a];
            }
          }
          ExtractFromShape(acc', found[1..]);
        }
    }
  }

  /** extractValuesForHeader: the distinct formatted values of the cells row.get finds for
      the header, blank ones included; it throws when one of them does not format. */
  lemma ExtractValuesShape(rows: seq<DataRow>, h: Header)
    requires AllValid(rows)
    ensures ExtractValues(rows, h).Ok? <==> AllGiven(Found(rows, h))
    ensures ExtractValues(rows, h).Ok? ==>
              (forall v :: v in ExtractValues(rows, h).value <==> Gives(Found(rows, h), v)) &&
              NoRepeats(ExtractValues(rows, h).value)
  {
    ExtractFromShape([], Found(rows, h));
  }

  /** One header of resolveAllExternalAttributes: its column's values, its class and
      attribute, and the getIds table for them. */
  function HeaderIds(h: Header, rows: seq<DataRow>, exec: Executor): Result<OMap<string, string>>
    requires AllValid(rows)
  {
    var values :- ExtractValues(rows, h);
    var cls :- ReferenceClassName(h.text);
    var attr :- ReferenceAttributeName(h.text);
    GetIdsOf(exec, cls, attr, values)
  }

  /** The getIds table of every header, or what its resolution throws, in header order. */
  function AllHeaderIds(hs: seq<Header>, rows: seq<DataRow>, exec: Executor): (ids: seq<Result<OMap<string, string>>>)
    requires AllValid(rows)
    ensures |ids| == |hs| && forall i :: 0 <= i < |hs| ==> ids[i] == HeaderIds(hs[i], rows, exec)
  {
    seq(|hs|, i requires 0 <= i < |hs| => HeaderIds(hs[i], rows, exec))
  }

  /** Each header's table put in header order; the first header that throws ends it, with the
      tables of the earlier ones in place. */
  function PutTables(table: Table, hs: seq<Header>, ids: seq<Result<OMap<string, string>>>): (Table, Option<Failure>)
    requires |ids| == |hs|
    decreases |hs|
  {
    if hs == [] then (table, None)
    else match ids[0]
      case Err(f) => (table, Some(f))
      case Ok(m) => PutTables(Put(table, hs[0], m), hs[1..], ids[1..])
  }

  /** resolveAllExternalAttributes from a table. */
  function ResolveHeaders(table: Table, hs: seq<Header>, rows: seq<DataRow>, exec: Executor): (Table, Option<Failure>)
    requires AllValid(rows)
  {
    PutTables(table, hs, AllHeaderIds(hs, rows, exec))
  }

  lemma {:induction false} PutTablesKeeps(table: Table, hs: seq<Header>, ids: seq<Result<OMap<string, string>>>)
    requires |ids| == |hs|
    ensures KeySet(table) <= KeySet(PutTables(table, hs, ids).0)
    ensures forall h :: h !in hs ==> Get(PutTables(table, hs, ids).0, h) == Get(table, h)
    decreases |hs|
  {
    if hs != [] && ids[0].Ok? {
      var table' := Put(table, hs[0], ids[0].value);
      PutTablesKeeps(table', hs[1..], ids[1..]);
      forall h | h !in hs ensures Get(table', h) == Get(table, h) {
        GetPut(table, hs[0], ids[0].value, h);
      }
    }
  }

  lemma {:induction false} PutTablesNone(table: Table, hs: seq<Header>, ids: seq<Result<OMap<string, string>>>)
    requires |ids| == |hs|
    ensures PutTables(table, hs, ids).1.None? <==> forall i :: 0 <= i < |ids| ==> ids[i].Ok?
    decreases |hs|
  {
    if hs != [] && ids[0].Ok? {
      var rest := ids[1..];
      assert forall i :: 0 < i < |ids| ==> ids[i] == rest[i - 1];
      PutTablesNone(Put(table, hs[0], ids[0].value), hs[1..], rest);
    }
  }

  lemma {:induction false} PutTablesFirstFailure(table: Table, hs: seq<Header>, ids: seq<Result<OMap<string, string>>>)
    requires |ids| == |hs|
    ensures var f := PutTables(table, hs, ids).1;
            f.Some? ==> exists i :: 0 <= i < |ids| && ids[i] == Err(f.value) && forall j :: 0 <= j < i ==> ids[j].Ok?
    decreases |hs|
  {
    if hs != [] && ids[0].Ok? {
      var rest := ids[1..];
      var table' := Put(table, hs[0], ids[0].value);
      assert PutTables(table, hs, ids) == PutTables(table', hs[1..], rest);
      PutTablesFirstFailure(table', hs[1..], rest);
      var f := PutTables(table, hs, ids).1;
      if f.Some? {
        var i :| 0 <= i < |rest| && rest[i] == Err(f.value) && forall j :: 0 <= j < i ==> rest[j].Ok?;
        assert ids[i + 1] == rest[i];
        forall j | 0 <= j < i + 1 ensures ids[j].Ok? {
          if j > 0 { assert ids[j] == rest[j - 1]; }
        }
        assert 0 <= i + 1 < |ids| && ids[i + 1] == Err(f.value) && forall j :: 0 <= j < i + 1 ==> ids[j].Ok?;
      }
    } else if hs != [] {
      assert PutTables(table, hs, ids).1 == Some(ids[0].failure);
      assert ids[0] == Err(ids[0].failure);
    }
  }

  lemma PutTablesOk(table: Table, hs: seq<Header>, ids: seq<Result<OMap<string, string>>>)
    requires |ids| == |hs|
    ensures PutTables(table, hs, ids).1.None? <==> forall i :: 0 <= i < |ids| ==> ids[i].Ok?
    ensures var f := PutTables(table, hs, ids).1;
            f.Some? ==> exists i :: 0 <= i < |ids| && ids[i] == Err(f.value) && forall j :: 0 <= j < i ==> ids[j].Ok?
  {
    PutTablesNone(table, hs, ids);
    PutTablesFirstFailure(table, hs, ids);
  }

  /** One step of PutTables taken at position k. */
  lemma PutTablesStep(table: Table, hs: seq<Header>, ids: seq<Result<OMap<string, string>>>, k: nat)
    requires |ids| == |hs| && k < |hs|
    ensures ids[k].Err? ==> PutTables(table, hs[k..], ids[k..]) == (table, Some(ids[k].failure))
    ensures ids[k].Ok? ==>
              PutTables(table, hs[k..], ids[k..]) == PutTables(Put(table, hs[k], ids[k].value), hs[k + 1..], ids[k + 1..])
  {
    assert hs[k..][0] == hs[k] && hs[k..][1..] == hs[k + 1..];
    assert ids[k..][0] == ids[k] && ids[k..][1..] == ids[k + 1..];
  }

  /** Equal headers have equal results. */
  predicate Consistent(hs: seq<Header>, ids: seq<Result<OMap<string, string>>>)
    requires |ids| == |hs|
  {
    forall i, j :: 0 <= i < |hs| && 0 <= j < |hs| && hs[i] == hs[j] ==> ids[i] == ids[j]
  }

  lemma ConsistentTail(hs: seq<Header>, ids: seq<Result<OMap<string, string>>>)
    requires |ids| == |hs| && hs != [] && Consistent(hs, ids)
    ensures Consistent(hs[1..], ids[1..])
  {
    forall i, j | 0 <= i < |hs| - 1 && 0 <= j < |hs| - 1 && hs[1..][i] == hs[1..][j] ensures ids[1..][i] == ids[1..][j] {
      assert hs[i + 1] == hs[j + 1];
    }
  }

  lemma {:induction false} PutTablesTables(table: Table, hs: seq<Header>, ids: seq<Result<OMap<string, string>>>)
    requires |ids| == |hs| && Consistent(hs, ids)
    requires PutTables(table, hs, ids).1.None?
    ensures forall i :: 0 <= i < |hs| ==> ids[i].Ok? && Get(PutTables(table, hs, ids).0, hs[i]) == Some(ids[i].value)
    decreases |hs|
  {
    if hs != [] {
      var rest := hs[1..];
      PutTablesStep(table, hs, ids, 0);
      assert hs[0..] == hs && ids[0..] == ids;
      var m := ids[0].value;
      var table' := Put(table, hs[0], m);
      var t := PutTables(table', rest, ids[1..]).0;
      assert PutTables(table, hs, ids).0 == t;
      ConsistentTail(hs, ids);
      PutTablesTables(table', rest, ids[1..]);
      if hs[0] in rest {
        var j :| 0 <= j < |rest| && rest[j] == hs[0];
        assert hs[j + 1] == hs[0] && ids[1..][j] == ids[j + 1];
        assert ids[j + 1] == ids[0];
        assert Get(t, rest[j]) == Some(ids[1..][j].value);
      } else {
        PutTablesKeeps(table', rest, ids[1..]);
        GetPut(table, hs[0], m, hs[0]);
      }
      TablesCons(t, hs, ids);
    }
  }

  /** The first header's table and those of the others give every header's table. */
  lemma TablesCons(t: Table, hs: seq<Header>, ids: seq<Result<OMap<string, string>>>)
    requires |ids| == |hs| && hs != [] && ids[0].Ok? && Get(t, hs[0]) == Some(ids[0].value)
    requires forall k :: 0 <= k < |hs[1..]| ==> ids[1..][k].Ok? && Get(t, hs[1..][k]) == Some(ids[1..][k].value)
    ensures forall i :: 0 <= i < |hs| ==> ids[i].Ok? && Get(t, hs[i]) == Some(ids[i].value)
  {
    forall i | 0 < i < |hs| ensures ids[i].Ok? && Get(t, hs[i]) == Some(ids[i].value) {
      assert hs[i] == hs[1..][i - 1] && ids[i] == ids[1..][i - 1];
    }
  }

  /** Only the listed headers' entries change, and the table only grows. */
  lemma ResolveHeadersKeeps(table: Table, hs: seq<Header>, rows: seq<DataRow>, exec: Executor)
    requires AllValid(rows)
    ensures KeySet(table) <= KeySet(ResolveHeaders(table, hs, rows, exec).0)
    ensures forall h :: h !in hs ==> Get(ResolveHeaders(table, hs, rows, exec).0, h) == Get(table, h)
  {
    PutTablesKeeps(table, hs, AllHeaderIds(hs, rows, exec));
  }

  /** The run succeeds exactly when every header does; otherwise it fails as the first
      failing header does. */
  lemma ResolveHeadersOk(table: Table, hs: seq<Header>, rows: seq<DataRow>, exec: Executor)
    requires AllValid(rows)
    ensures ResolveHeaders(table, hs, rows, exec).1.None? <==> forall i :: 0 <= i < |hs| ==> HeaderIds(hs[i], rows, exec).Ok?
    ensures var f := ResolveHeaders(table, hs, rows, exec).1;
            f.Some? ==> exists i :: 0 <= i < |hs| && HeaderIds(hs[i], rows, exec) == Err(f.value) &&
                                    forall j :: 0 <= j < i ==> HeaderIds(hs[j], rows, exec).Ok?
  {
    var ids := AllHeaderIds(hs, rows, exec);
    PutTablesOk(table, hs, ids);
    var f := PutTables(table, hs, ids).1;
    if f.Some? {
      var i :| 0 <= i < |ids| && ids[i] == Err(f.value) && forall j :: 0 <= j < i ==> ids[j].Ok?;
      assert HeaderIds(hs[i], rows, exec) == Err(f.value);
    }
  }

  /** After a successful run every header holds its own getIds table. */
  lemma ResolveHeadersTables(table: Table, hs: seq<Header>, rows: seq<DataRow>, exec: Executor)
    requires AllValid(rows)
    requires ResolveHeaders(table, hs, rows, exec).1.None?
    ensures forall i :: 0 <= i < |hs| ==>
              HeaderIds(hs[i], rows, exec).Ok? &&
              Get(ResolveHeaders(table, hs, rows, exec).0, hs[i]) == Some(HeaderIds(hs[i], rows, exec).value)
  {
    var ids := AllHeaderIds(hs, rows, exec);
    assert Consistent(hs, ids);
    PutTablesTables(table, hs, ids);
  }

  /** The resolver: its table, filled by resolveAllExternalAttributes and read while the rows
      are built. */
  class ExternalAttributeResolver {
    var header2value2id: Table

    constructor()
      ensures header2value2id == []
    {
      header2value2id := [];
    }

    method GetResolvedId(c: DataCell) returns (r: Result<Option<string>>)
      ensures r == ResolvedIdOf(header2value2id, c)
    {
      var value2id := Get(header2value2id, c.header);
      if value2id.None? {
        return Err(NullValue);
      }
      r := Ok(Get(value2id.value, c.value));
    }

    /** buildCompositionAttributes: the cells in list order, each passed over, put, or
        ending the row with its failure. */
    method BuildCompositionAttributes(row: DataRow, parent: Option<Header>) returns (r: Result<OMap<string, string>>)
      ensures r == CellsAttributes(header2value2id, row.cells, parent)
    {
      ghost var steps := CellSteps(header2value2id, row.cells, parent);
      var attributes: OMap<string, string> := [];
      var i := 0;
      while i < |row.cells|
        invariant 0 <= i <= |row.cells|
        invariant Fold(attributes, steps[i..]) == Fold([], steps)
      {
        assert steps[i..][0] == steps[i] && steps[i..][1..] == steps[i + 1..];
        var cell := row.cells[i];
        if Considered(cell, parent) {
          if IsReference(cell.header.text) {
            var id := GetResolvedId(cell);
            if id.Err? {
              return Err(id.failure);
            }
            if id.value.Some? {
              attributes := Put(attributes, AttributeName(cell.header.text), id.value.value);
            }
          } else {
            var v := GetFormattedValue(cell);
            if v.Err? {
              return Err(v.failure);
            }
            attributes := Put(attributes, AttributeName(cell.header.text), v.value);
          }
        }
        i := i + 1;
      }
      assert steps[i..] == [];
      return Ok(attributes);
    }

    /** buildMainAttributes: no parent header, so no column is passed over for being one. */
    method BuildMainAttributes(row: DataRow) returns (r: Result<OMap<string, string>>)
      ensures r == CellsAttributes(header2value2id, row.cells, None)
    {
      r := BuildCompositionAttributes(row, None);
    }

    method ExtractValuesForHeader(rows: seq<DataRow>, h: Header) returns (r: Result<seq<string>>)
      requires AllValid(rows)
      ensures r == ExtractValues(rows, h)
    {
      ghost var found := Found(rows, h);
      var values: seq<string> := [];
      var k := 0;
      while k < |rows|
        invariant 0 <= k <= |rows|
        invariant ExtractFrom(values, found[k..]) == ExtractValues(rows, h)
      {
        assert found[k..][0] == found[k] && found[k..][1..] == found[k + 1..];
        var cell := rows[k].Get(h);
        if cell.Some? {
          var v := GetFormattedValue(cell.value);
          if v.Err? {
            return Err(v.failure);
          }
          values := AddValue(values, v.value);
        }
        k := k + 1;
      }
      assert found[k..] == [];
      return Ok(values);
    }

    /** resolveAllExternalAttributes: one getIds call per reference header, in header order,
        each table stored under its header. */
    method ResolveAllExternalAttributes(sheet: DataSheet, exec: Executor) returns (failure: Option<Failure>)
      requires AllValid(sheet.dataRows)
      modifies this
      ensures (header2value2id, failure) ==
              ResolveHeaders(old(header2value2id), ExternalHeaders(sheet.headers), sheet.dataRows, exec)
    {
      var hs := ExternalHeaders(sheet.headers);
      ghost var ids := AllHeaderIds(hs, sheet.dataRows, exec);
      var k := 0;
      while k < |hs|
        invariant 0 <= k <= |hs|
        invariant PutTables(header2value2id, hs[k..], ids[k..]) == PutTables(old(header2value2id), hs, ids)
      {
        var r := HeaderIdsFor(hs[k], sheet.dataRows, exec);
        PutTablesStep(header2value2id, hs, ids, k);
        if r.Err? {
          return Some(r.failure);
        }
        header2value2id := Put(header2value2id, hs[k], r.value);
        k := k + 1;
      }
      assert hs[k..] == [];
      return None;
    }

    /** One header of the loop: its column's values, its class and attribute, then getIds. */
    method HeaderIdsFor(h: Header, rows: seq<DataRow>, exec: Executor) returns (r: Result<OMap<string, string>>)
      requires AllValid(rows)
      ensures r == HeaderIds(h, rows, exec)
    {
      var values := ExtractValuesForHeader(rows, h);
      if values.Err? {
        return Err(values.failure);
      }
      var cls := ReferenceClassName(h.text);
      if cls.Err? {
        return Err(cls.failure);
      }
      var attr := ReferenceAttributeName(h.text);
      if attr.Err? {
        return Err(attr.failure);
      }
      r := GetIds(exec, cls.value, attr.value, values.value);
    }
  }
}
