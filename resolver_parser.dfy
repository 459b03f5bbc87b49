/** graphql.parser.ExternalAttributeResolverParser: the base of the sheet parsers that turn the
    values of reference columns into `_id`s. It collects the distinct values of each reference
    column, asks the GraphQL endpoints for their ids in batches, and caches the answers under a
    key built from class, attribute and value. */
module ResolverParser {
  import opened Wrappers
  import opened Sequences
  import opened Strings
  import opened OrderedMaps
  import opened Constants
  import opened Decimals
  import opened Headers
  import opened DataCells
  import opened DataModel
  import opened Batching
  import opened QueryBuilder
  import opened Json

  /** Values resolved per round of getIds calls. */
  const ResolveBatchSize: nat := 1000

  /** What GraphQLService.executeQueryWithFallback, followed by the JSON parser, makes of a
      query: an exception, an empty Optional, a text that is not JSON, or a parsed tree. */
  datatype Response = Threw(message: string) | Empty | Unparsable(message: string) | Parsed(root: Json)

  /** The endpoints, as a function of the query text. */
  type Executor = string -> Response

  /** getIdsBatch: one query, its response read by value2id. Every way the call can fail
      becomes its own failure. */
  function GetIdsBatch(exec: Executor, query: string): (r: Result<OMap<string, string>>)
    ensures r.Ok? <==> exec(query).Parsed? && Value2IdOf(exec(query).root).Ok?
    ensures exec(query).Threw? ==> r == Err(ExecutorFailed(exec(query).message))
    ensures exec(query).Empty? ==> r == Err(NoResponse)
    ensures exec(query).Unparsable? ==> r == Err(UnparsableResponse(exec(query).message))
  {
    match exec(query)
    case Threw(msg) => Err(ExecutorFailed(msg))
    case Empty => Err(NoResponse)
    case Unparsable(msg) => Err(UnparsableResponse(msg))
    case Parsed(root) => Value2IdOf(root)
  }

  method GetIdsBatchOf(exec: Executor, query: string) returns (r: Result<OMap<string, string>>)
    ensures r == GetIdsBatch(exec, query)
  {
    var response := exec(query);
    match response {
      case Threw(msg) => return Err(ExecutorFailed(msg));
      case Empty => return Err(NoResponse);
      case Unparsable(msg) => return Err(UnparsableResponse(msg));
      case Parsed(root) => r := Value2Id(root);
    }
  }

  /** The queries buildGetIdQuery returns for the values. */
  function Queries(cls: string, attr: string, values: seq<string>): (qs: seq<string>) {
    var bs := Batches(values, BatchSize);
    seq(|bs|, j requires 0 <= j < |bs| => GetIdQuery(cls, attr, bs[j]))
  }

  /** A list of the right length with each batch's query in place is the list of queries. */
  lemma QueriesAre(cls: string, attr: string, values: seq<string>, queries: seq<string>)
    requires |queries| == |Batches(values, BatchSize)|
    requires forall j :: 0 <= j < |queries| ==> queries[j] == GetIdQuery(cls, attr, Batches(values, BatchSize)[j])
    ensures queries == Queries(cls, attr, values)
  {
  }

  /** The loop of getIds from a partial table and duplicate list: each query's answer is put
      entry by entry, a key already present is recorded; the first failing query ends it. */
  function MergeBatches(exec: Executor, m: OMap<string, string>, dups: seq<string>, queries: seq<string>)
    : (r: Result<(OMap<string, string>, seq<string>)>)
    ensures r.Ok? <==> forall j :: 0 <= j < |queries| ==> GetIdsBatch(exec, queries[j]).Ok?
    decreases |queries|
  {
    if queries == [] then Ok((m, dups))
    else
      var b :- GetIdsBatch(exec, queries[0]);
      var p := PutTracking(m, dups, b);
      assert forall j :: 0 < j < |queries| ==> queries[j] == queries[1..][j - 1];
      MergeBatches(exec, p.0, p.1, queries[1..])
  }

  /** One query of the loop, when it succeeds. */
  lemma MergeStep(exec: Executor, m: OMap<string, string>, dups: seq<string>, queries: seq<string>)
    requires queries != [] && GetIdsBatch(exec, queries[0]).Ok?
    ensures var p := PutTracking(m, dups, GetIdsBatch(exec, queries[0]).value);
            MergeBatches(exec, m, dups, queries) == MergeBatches(exec, p.0, p.1, queries[1..])
  {
  }

  /** The loop fails with the failure of the first failing query. */
  lemma {:induction false} MergeBatchesFails(exec: Executor, m: OMap<string, string>, dups: seq<string>, queries: seq<string>)
    requires MergeBatches(exec, m, dups, queries).Err?
    ensures exists j :: 0 <= j < |queries| && GetIdsBatch(exec, queries[j]) == Err(MergeBatches(exec, m, dups, queries).failure) &&
                        forall i :: 0 <= i < j ==> GetIdsBatch(exec, queries[i]).Ok?
    decreases |queries|
  {
    var r := MergeBatches(exec, m, dups, queries);
    if GetIdsBatch(exec, queries[0]).Err? {
      assert GetIdsBatch(exec, queries[0]) == Err(r.failure);
    } else {
      var p := PutTracking(m, dups, GetIdsBatch(exec, queries[0]).value);
      MergeStep(exec, m, dups, queries);
      MergeBatchesFails(exec, p.0, p.1, queries[1..]);
      var j' :| 0 <= j' < |queries[1..]| && GetIdsBatch(exec, queries[1..][j']) == Err(r.failure) &&
                forall i :: 0 <= i < j' ==> GetIdsBatch(exec, queries[1..][i]).Ok?;
      var j := j' + 1;
      assert queries[j] == queries[1..][j'];
      assert MergeBatches(exec, p.0, p.1, queries[1..]) == r;
      forall i | 0 <= i < j ensures GetIdsBatch(exec, queries[i]).Ok? {
        if i > 0 {
          assert queries[i] == queries[1..][i - 1];
        }
      }
      assert GetIdsBatch(exec, queries[j]) == Err(r.failure);
    }
  }

  /** getIds: the value-to-id table of all the batches, or the keys that more than one
      answer entry carried. */
  function GetIdsOf(exec: Executor, cls: string, attr: string, values: seq<string>): Result<OMap<string, string>> {
    var p :- MergeBatches(exec, [], [], Queries(cls, attr, values));
    if p.1 != [] then Err(DuplicateValues(p.1)) else Ok(p.0)
  }

  method GetIds(exec: Executor, cls: string, attr: string, values: seq<string>) returns (r: Result<OMap<string, string>>)
    ensures r == GetIdsOf(exec, cls, attr, values)
  {
    var queries := BuildGetIdQuery(cls, attr, values);
    QueriesAre(cls, attr, values, queries);
    var m: OMap<string, string> := [];
    var dups: seq<string> := [];
    var k := 0;
    while k < |queries|
      invariant 0 <= k <= |queries|
      invariant MergeBatches(exec, m, dups, queries[k..]) == MergeBatches(exec, [], [], queries)
    {
      assert queries[k..][0] == queries[k] && queries[k..][1..] == queries[k + 1..];
      var b := GetIdsBatchOf(exec, queries[k]);
      if b.Err? {
        assert MergeBatches(exec, m, dups, queries[k..]) == Err(b.failure);
        return Err(b.failure);
      }
      MergeStep(exec, m, dups, queries[k..]);
      m, dups := PutEntries(m, dups, b.value);
      k := k + 1;
    }
    assert queries[k..] == [];
    if dups != [] {
      return Err(DuplicateValues(dups));
    }
    return Ok(m);
  }

  /** The forEach of getIds over one answer. */
  method PutEntries(m0: OMap<string, string>, dups0: seq<string>, src: OMap<string, string>)
    returns (m: OMap<string, string>, dups: seq<string>)
    ensures (m, dups) == PutTracking(m0, dups0, src)
  {
    m, dups := m0, dups0;
    var k := 0;
    while k < |src|
      invariant 0 <= k <= |src|
      invariant PutTracking(m, dups, src[k..]) == PutTracking(m0, dups0, src)
    {
      assert src[k..][0] == src[k] && src[k..][1..] == src[k + 1..];
      var previous := Get(m, src[k].0);
      if previous.Some? {
        dups := dups + [src[k].0];
      }
      m := Put(m, src[k].0, src[k].1);
      k := k + 1;
    }
    assert src[k..] == [];
  }

  /** The answers of the queries, when all of them succeed. */
  function Answers(exec: Executor, queries: seq<string>): (ms: seq<OMap<string, string>>)
    requires forall j :: 0 <= j < |queries| ==> GetIdsBatch(exec, queries[j]).Ok?
    ensures |ms| == |queries| && forall j :: 0 <= j < |queries| ==> ms[j] == GetIdsBatch(exec, queries[j]).value
  {
    seq(|queries|, j requires 0 <= j < |queries| => GetIdsBatch(exec, queries[j]).value)
  }

  /** When every query succeeds, the loop is one tracked put of all the answers' entries in
      query order. */
  lemma AnswersTail(exec: Executor, queries: seq<string>)
    requires queries != []
    requires forall j :: 0 <= j < |queries| ==> GetIdsBatch(exec, queries[j]).Ok?
    ensures Flatten(Answers(exec, queries)) == GetIdsBatch(exec, queries[0]).value + Flatten(Answers(exec, queries[1..]))
  {
    var a := Answers(exec, queries);
    var t := Answers(exec, queries[1..]);
    forall j | 0 <= j < |t| ensures a[1..][j] == t[j] {
      assert queries[1..][j] == queries[j + 1];
    }
    assert a[1..] == t;
    assert Flatten(a) == a[0] + Flatten(a[1..]);
  }

  lemma {:induction false} MergeAnswers(exec: Executor, m: OMap<string, string>, dups: seq<string>, queries: seq<string>)
    requires forall j :: 0 <= j < |queries| ==> GetIdsBatch(exec, queries[j]).Ok?
    ensures MergeBatches(exec, m, dups, queries) == Ok(PutTracking(m, dups, Flatten(Answers(exec, queries))))
    decreases |queries|
  {
    if queries != [] {
      var b := GetIdsBatch(exec, queries[0]).value;
      var p := PutTracking(m, dups, b);
      MergeStep(exec, m, dups, queries);
      assert forall j :: 0 <= j < |queries[1..]| ==> GetIdsBatch(exec, queries[1..][j]).Ok?;
      MergeAnswers(exec, p.0, p.1, queries[1..]);
      AnswersTail(exec, queries);
      PutTrackingAppend(m, dups, b, Flatten(Answers(exec, queries[1..])));
    }
  }

  /** getIds succeeds exactly when every query succeeds and no key comes back twice; then
      the table is every answer entry in order. Otherwise the repeated keys are reported. */
  lemma GetIdsAnswers(exec: Executor, cls: string, attr: string, values: seq<string>)
    requires forall j :: 0 <= j < |Queries(cls, attr, values)| ==> GetIdsBatch(exec, Queries(cls, attr, values)[j]).Ok?
    ensures var all := Flatten(Answers(exec, Queries(cls, attr, values)));
            (GetIdsOf(exec, cls, attr, values).Ok? <==> DistinctKeys(all)) &&
            (DistinctKeys(all) ==> GetIdsOf(exec, cls, attr, values) == Ok(all)) &&
            (!DistinctKeys(all) ==> GetIdsOf(exec, cls, attr, values).failure.DuplicateValues? &&
                                    GetIdsOf(exec, cls, attr, values).failure.keys != [])
  {
    var qs := Queries(cls, attr, values);
    var all := Flatten(Answers(exec, qs));
    MergeAnswers(exec, [], [], qs);
    var p := PutTracking([], [], all);
    assert GetIdsOf(exec, cls, attr, values) == if p.1 != [] then Err(DuplicateValues(p.1)) else Ok(p.0);
    TrackingFromEmpty(all);
  }

  /** A failing query fails getIds with its own failure, provided every earlier one succeeded. */
  lemma GetIdsFirstFailure(exec: Executor, cls: string, attr: string, values: seq<string>, j: nat)
    requires j < |Queries(cls, attr, values)|
    requires GetIdsBatch(exec, Queries(cls, attr, values)[j]).Err?
    requires forall i :: 0 <= i < j ==> GetIdsBatch(exec, Queries(cls, attr, values)[i]).Ok?
    ensures GetIdsOf(exec, cls, attr, values) == Err(GetIdsBatch(exec, Queries(cls, attr, values)[j]).failure)
  {
    var qs := Queries(cls, attr, values);
    var r := MergeBatches(exec, [], [], qs);
    MergeBatchesFails(exec, [], [], qs);
    var j' :| 0 <= j' < |qs| && GetIdsBatch(exec, qs[j']) == Err(r.failure) &&
              forall i :: 0 <= i < j' ==> GetIdsBatch(exec, qs[i]).Ok?;
    assert j' == j;
  }

  /** buildAttrKey: class, attribute and value run together. For an `_id` attribute (in any
      case) the value is read as a decimal and written back without trailing zeros, so that
      "12" and "12.0" share a key; a value that is not a number throws. */
  function BuildAttrKey(cls: string, attr: string, value: string): (r: Result<string>)
    ensures !EqualsIgnoreCase(attr, Id) ==> r == Ok(cls + attr + value)
    ensures EqualsIgnoreCase(attr, Id) ==> (r.Ok? <==> Parse(value).Ok?)
  {
    if EqualsIgnoreCase(attr, Id) then
      var d :- Parse(value);
      Ok(cls + attr + ToString(StripTrailingZeros(d)))
    else Ok(cls + attr + value)
  }

  /** An `_id` written with or without a zero fraction gives the same key. */
  lemma IdKeyIgnoresZeroFraction(cls: string, attr: string, ds: string, zeros: nat)
    requires EqualsIgnoreCase(attr, Id)
    requires ds != [] && AllDigits(ds)
    ensures BuildAttrKey(cls, attr, ds).Ok?
    ensures BuildAttrKey(cls, attr, ds + "." + Repeat('0', zeros)) == BuildAttrKey(cls, attr, ds)
  {
    TrailingZerosSameCanonical(ds, zeros);
  }

  /** LinkedHashSet.add: a value not yet present goes to the end. */
  function AddValue(vs: seq<string>, v: string): (r: seq<string>)
    ensures v in r && forall w :: w in r <==> w in vs || w == v
    ensures |vs| <= |r| <= |vs| + 1 && r[..|vs|] == vs
  {
    if v in vs then vs else vs + [v]
  }

  /** The inner loop of collectExternalAttributes for column i: the formatted value of every
      non-blank cell at position i, added to the set in row order. A row too short to have a
      cell at i is passed over; a cell whose formatting throws ends the walk. */
  function ColumnValues(acc: seq<string>, rows: seq<DataRow>, i: nat): Result<seq<string>>
    decreases |rows|
  {
    if rows == [] then Ok(acc)
    else if i < |rows[0].cells| && !CellIsBlank(rows[0].cells[i].cell, rows[0].cells[i].value) then
      var v :- GetFormattedValue(rows[0].cells[i]);
      ColumnValues(AddValue(acc, v), rows[1..], i)
    else ColumnValues(acc, rows[1..], i)
  }

  /** The row r has a non-blank cell at i. */
  predicate Filled(r: DataRow, i: nat) {
    i < |r.cells| && !CellIsBlank(r.cells[i].cell, r.cells[i].value)
  }

  predicate NoRepeats(vs: seq<string>) {
    forall a, b :: 0 <= a < b < |vs| ==> vs[a] != vs[b]
  }
  /** Every non-blank cell at position i formats without throwing. */
  predicate AllFormat(rows: seq<DataRow>, i: nat) {
    forall k :: 0 <= k < |rows| ==> Formats(rows[k], i)
  }

  /** The cell of r at i is blank or formats without throwing. */
  predicate Formats(r: DataRow, i: nat) {
    Filled(r, i) ==> GetFormattedValue(r.cells[i]).Ok?
  }

  /** Some non-blank cell at position i formats to v. */
  predicate Yields(rows: seq<DataRow>, i: nat, v: string) {
    exists k :: 0 <= k < |rows| && Filled(rows[k], i) && GetFormattedValue(rows[k].cells[i]) == Ok(v)
  }

  /** The column walk succeeds exactly when every non-blank cell formats. */
  lemma {:induction false} ColumnValuesOk(acc: seq<string>, rows: seq<DataRow>, i: nat)
    ensures ColumnValues(acc, rows, i).Ok? <==> AllFormat(rows, i)
    decreases |rows|
  {
    if rows != [] {
      var rest := rows[1..];
      AllFormatCons(rows, i);
      if !Filled(rows[0], i) {
        assert ColumnValues(acc, rows, i) == ColumnValues(acc, rest, i);
        ColumnValuesOk(acc, rest, i);
      } else if GetFormattedValue(rows[0].cells[i]).Ok? {
        var acc' := AddValue(acc, GetFormattedValue(rows[0].cells[i]).value);
        assert ColumnValues(acc, rows, i) == ColumnValues(acc', rest, i);
        ColumnValuesOk(acc', rest, i);
      }
    }
  }

  /** AllFormat peeled one row. */
  lemma AllFormatCons(rows: seq<DataRow>, i: nat)
    requires rows != []
    ensures AllFormat(rows, i) <==> Formats(rows[0], i) && AllFormat(rows[1..], i)
  {
    AllCons(rows, r => Formats(r, i));
  }


  /** A successful walk keeps what it started with, in front, and repeats no value. */
  lemma {:induction false} ColumnValuesPrefix(acc: seq<string>, rows: seq<DataRow>, i: nat)
    requires ColumnValues(acc, rows, i).Ok?
    ensures var vs := ColumnValues(acc, rows, i).value;
            |acc| <= |vs| && vs[..|acc|] == acc && (NoRepeats(acc) ==> NoRepeats(vs))
    decreases |rows|
  {
    if rows != [] {
      var vs := ColumnValues(acc, rows, i).value;
      if Filled(rows[0], i) {
        var acc' := AddValue(acc, GetFormattedValue(rows[0].cells[i]).value);
        ColumnValuesPrefix(acc', rows[1..], i);
        assert vs[..|acc|] == acc by {
          assert vs[..|acc'|][..|acc|] == acc'[..|acc|];
        }
      } else {
        ColumnValuesPrefix(acc, rows[1..], i);
      }
    }
  }

  /** A successful walk holds exactly the values it started with and the formatted values of
      the non-blank cells. */
  lemma {:induction false} ColumnValuesMembers(acc: seq<string>, rows: seq<DataRow>, i: nat)
    requires ColumnValues(acc, rows, i).Ok?
    ensures forall v :: v in ColumnValues(acc, rows, i).value <==> v in acc || Yields(rows, i, v)
    decreases |rows|
  {
    if rows != [] {
      var vs := ColumnValues(acc, rows, i).value;
      var acc' := if Filled(rows[0], i) then AddValue(acc, GetFormattedValue(rows[0].cells[i]).value) else acc;
      assert vs == ColumnValues(acc', rows[1..], i).value;
      ColumnValuesMembers(acc', rows[1..], i);
      YieldsStep(rows, i);
    }
  }

  lemma YieldsStep(rows: seq<DataRow>, i: nat)
    requires rows != []
    ensures forall v :: Yields(rows, i, v) <==>
              (Filled(rows[0], i) && GetFormattedValue(rows[0].cells[i]) == Ok(v)) || Yields(rows[1..], i, v)
  {
    forall v ensures Yields(rows, i, v) <==>
                     (Filled(rows[0], i) && GetFormattedValue(rows[0].cells[i]) == Ok(v)) || Yields(rows[1..], i, v)
    {
      if Yields(rows, i, v) {
        var k :| 0 <= k < |rows| && Filled(rows[k], i) && GetFormattedValue(rows[k].cells[i]) == Ok(v);
        if k > 0 { assert rows[1..][k - 1] == rows[k]; }
      }
      if Yields(rows[1..], i, v) {
        var k :| 0 <= k < |rows[1..]| && Filled(rows[1..][k], i) && GetFormattedValue(rows[1..][k].cells[i]) == Ok(v);
        assert rows[k + 1] == rows[1..][k];
      }
    }
  }

  /** A header whose column is collected: not skipped, and a reference. A null skip set is the
      empty set. */
  predicate Selected(h: Header, skip: set<Header>) {
    h !in skip && IsReference(h.text)
  }

  /** The outer loop of collectExternalAttributes from column i: each selected header gets the
      column's values, added to those of an earlier column with the same header object. */
  function CollectFrom(result: OMap<Header, seq<string>>, headers: seq<Header>, rows: seq<DataRow>,
                       skip: set<Header>, i: nat): Result<OMap<Header, seq<string>>>
    decreases |headers| - i
  {
    if i >= |headers| then Ok(result)
    else if !Selected(headers[i], skip) then CollectFrom(result, headers, rows, skip, i + 1)
    else
      var existing := Get(result, headers[i]);
      var vs :- ColumnValues(if existing.Some? then existing.value else [], rows, i);
      CollectFrom(Put(result, headers[i], vs), headers, rows, skip, i + 1)
  }

  /** collectExternalAttributes: reference header to the distinct formatted values of its
      column, headers in column order. */
  function CollectOf(headers: seq<Header>, rows: seq<DataRow>, skip: set<Header>): Result<OMap<Header, seq<string>>> {
    CollectFrom([], headers, rows, skip, 0)
  }

  /** One column of the collect loop. */
  lemma CollectStep(result: OMap<Header, seq<string>>, headers: seq<Header>, rows: seq<DataRow>, skip: set<Header>, i: nat)
    requires i < |headers|
    ensures !Selected(headers[i], skip) ==>
              CollectFrom(result, headers, rows, skip, i) == CollectFrom(result, headers, rows, skip, i + 1)
    ensures Selected(headers[i], skip) ==>
              var existing := Get(result, headers[i]);
              var vs := ColumnValues(if existing.Some? then existing.value else [], rows, i);
              CollectFrom(result, headers, rows, skip, i) ==
                if vs.Err? then Err(vs.failure) else CollectFrom(Put(result, headers[i], vs.value), headers, rows, skip, i + 1)
  {
  }

  method CollectExternalAttributes(headers: seq<Header>, rows: seq<DataRow>, skip: set<Header>)
    returns (r: Result<OMap<Header, seq<string>>>)
    ensures r == CollectOf(headers, rows, skip)
  {
    var result: OMap<Header, seq<string>> := [];
    var i := 0;
    while i < |headers|
      invariant 0 <= i <= |headers|
      invariant CollectFrom(result, headers, rows, skip, i) == CollectOf(headers, rows, skip)
    {
      var header := headers[i];
      CollectStep(result, headers, rows, skip, i);
      if Selected(header, skip) {
        var existing := Get(result, header);
        var vs := if existing.Some? then existing.value else [];
        var walked := WalkColumn(vs, rows, i);
        if walked.Err? {
          return Err(walked.failure);
        }
        result := Put(result, header, walked.value);
      }
      i := i + 1;
    }
    return Ok(result);
  }

  /** The inner loop over the rows for column i. */
  method WalkColumn(acc: seq<string>, rows: seq<DataRow>, i: nat) returns (r: Result<seq<string>>)
    ensures r == ColumnValues(acc, rows, i)
  {
    var values := acc;
    var k := 0;
    while k < |rows|
      invariant 0 <= k <= |rows|
      invariant ColumnValues(values, rows[k..], i) == ColumnValues(acc, rows, i)
    {
      assert rows[k..][0] == rows[k] && rows[k..][1..] == rows[k + 1..];
      var row := rows[k];
      if i < |row.cells| {
        var cell := row.cells[i];
        if !CellIsBlank(cell.cell, cell.value) {
          var v := GetFormattedValue(cell);
          if v.Err? {
            return Err(v.failure);
          }
          values := AddValue(values, v.value);
        }
      }
      k := k + 1;
    }
    assert rows[k..] == [];
    return Ok(values);
  }

  /** Some header at position i or later is h and is selected. */
  predicate Chosen(headers: seq<Header>, skip: set<Header>, i: nat, h: Header) {
    exists j :: i <= j < |headers| && headers[j] == h && Selected(h, skip)
  }

  predicate DistinctHeaders(headers: seq<Header>) {
    forall a, b :: 0 <= a < b < |headers| ==> headers[a] != headers[b]
  }

  /** Every selected column from i on formats all its non-blank cells. */
  predicate SelectedFormat(headers: seq<Header>, rows: seq<DataRow>, skip: set<Header>, i: nat) {
    forall j :: i <= j < |headers| && Selected(headers[j], skip) ==> AllFormat(rows, j)
  }

  lemma SelectedFormatStep(headers: seq<Header>, rows: seq<DataRow>, skip: set<Header>, i: nat)
    requires i < |headers|
    ensures SelectedFormat(headers, rows, skip, i) <==>
            (Selected(headers[i], skip) ==> AllFormat(rows, i)) && SelectedFormat(headers, rows, skip, i + 1)
  {
  }

  /** Collecting from column i succeeds exactly when every selected column's cells format. */
  lemma {:induction false} CollectFromOk(result: OMap<Header, seq<string>>, headers: seq<Header>, rows: seq<DataRow>,
                                         skip: set<Header>, i: nat)
    ensures CollectFrom(result, headers, rows, skip, i).Ok? <==>
            forall j :: i <= j < |headers| && Selected(headers[j], skip) ==> AllFormat(rows, j)
    decreases |headers| - i
  {
    assert SelectedFormat(headers, rows, skip, i) <==>
           forall j :: i <= j < |headers| && Selected(headers[j], skip) ==> AllFormat(rows, j);
    if i < |headers| {
      var h := headers[i];
      SelectedFormatStep(headers, rows, skip, i);
      if !Selected(h, skip) {
        CollectFromOk(result, headers, rows, skip, i + 1);
        assert CollectFrom(result, headers, rows, skip, i) == CollectFrom(result, headers, rows, skip, i + 1);
      } else {
        var existing := Get(result, h);
        var acc := if existing.Some? then existing.value else [];
        ColumnValuesOk(acc, rows, i);
        if AllFormat(rows, i) {
          var result' := Put(result, h, ColumnValues(acc, rows, i).value);
          CollectFromOk(result', headers, rows, skip, i + 1);
          assert CollectFrom(result, headers, rows, skip, i) == CollectFrom(result', headers, rows, skip, i + 1);
        } else {
          assert CollectFrom(result, headers, rows, skip, i).Err?;
        }
      }
    }
  }

  /** With distinct header objects, a successful collection from column i adds exactly the
      selected headers, each with the walk of its own column, and leaves earlier entries alone. */
  lemma {:induction false} CollectFromEntries(result: OMap<Header, seq<string>>, headers: seq<Header>, rows: seq<DataRow>,
                                              skip: set<Header>, i: nat)
    requires DistinctHeaders(headers)
    requires forall j :: i <= j < |headers| ==> headers[j] !in KeySet(result)
    requires CollectFrom(result, headers, rows, skip, i).Ok?
    ensures var r := CollectFrom(result, headers, rows, skip, i).value;
            (forall h :: h in KeySet(r) <==> h in KeySet(result) || Chosen(headers, skip, i, h)) &&
            (forall h :: h in KeySet(result) ==> Get(r, h) == Get(result, h)) &&
            (forall j :: i <= j < |headers| && Selected(headers[j], skip) ==>
               ColumnValues([], rows, j).Ok? && Get(r, headers[j]) == Some(ColumnValues([], rows, j).value))
    decreases |headers| - i
  {
    if i < |headers| {
      ChosenStep(headers, skip, i);
      var h := headers[i];
      var r := CollectFrom(result, headers, rows, skip, i).value;
      if !Selected(h, skip) {
        CollectFromEntries(result, headers, rows, skip, i + 1);
      } else {
        assert Get(result, h) == None;
        var vs := ColumnValues([], rows, i).value;
        var result' := Put(result, h, vs);
        assert r == CollectFrom(result', headers, rows, skip, i + 1).value;
        CollectFromEntries(result', headers, rows, skip, i + 1);
        forall k | k in KeySet(result) ensures Get(r, k) == Get(result, k) {
          GetPut(result, h, vs, k);
        }
        GetPut(result, h, vs, h);
      }
    }
  }

  lemma ChosenStep(headers: seq<Header>, skip: set<Header>, i: nat)
    requires i < |headers|
    ensures forall h :: Chosen(headers, skip, i, h) <==>
              (h == headers[i] && Selected(h, skip)) || Chosen(headers, skip, i + 1, h)
  {
  }

  /** collectExternalAttributes over distinct header objects: it fails exactly when a non-blank
      cell of a selected column fails to format. Otherwise its keys are the selected headers,
      and each header's values are the formatted values of its column's non-blank cells, each
      once. */
  lemma Collected(headers: seq<Header>, rows: seq<DataRow>, skip: set<Header>)
    requires DistinctHeaders(headers)
    ensures CollectOf(headers, rows, skip).Ok? <==>
            forall j :: 0 <= j < |headers| && Selected(headers[j], skip) ==> AllFormat(rows, j)
    ensures CollectOf(headers, rows, skip).Ok? ==>
              var r := CollectOf(headers, rows, skip).value;
              (forall h :: h in KeySet(r) <==> Chosen(headers, skip, 0, h)) &&
              forall j :: 0 <= j < |headers| && Selected(headers[j], skip) ==>
                Get(r, headers[j]).Some? && NoRepeats(Get(r, headers[j]).value) &&
                forall v :: v in Get(r, headers[j]).value <==> Yields(rows, j, v)
  {
    CollectFromOk([], headers, rows, skip, 0);
    if CollectOf(headers, rows, skip).Ok? {
      CollectFromEntries([], headers, rows, skip, 0);
      forall j | 0 <= j < |headers| && Selected(headers[j], skip)
        ensures ColumnValues([], rows, j).Ok?
        ensures NoRepeats(ColumnValues([], rows, j).value)
        ensures forall v :: v in ColumnValues([], rows, j).value <==> Yields(rows, j, v)
      {
        ColumnValuesPrefix([], rows, j);
        ColumnValuesMembers([], rows, j);
      }
    }
  }

  /** The state a resolve leaves: the cache, and the failure that ended it, if one did. */
  type Outcome = (OMap<string, string>, Option<Failure>)

  /** The inner forEach of resolveAllExternalAttributesBatched: each answer entry is put into
      the cache under its built key. A key that cannot be built throws, and the entries put
      before it stay. */
  function PutKeys(a2i: OMap<string, string>, cls: string, attr: string, resolved: OMap<string, string>): Outcome
    decreases |resolved|
  {
    if resolved == [] then (a2i, None)
    else match BuildAttrKey(cls, attr, resolved[0].0)
      case Err(f) => (a2i, Some(f))
      case Ok(k) => PutKeys(Put(a2i, k, resolved[0].1), cls, attr, resolved[1..])
  }

  /** The answer entries under their built keys, when every key can be built. */
  function Keyed(cls: string, attr: string, resolved: OMap<string, string>): (ks: OMap<string, string>)
    requires forall j :: 0 <= j < |resolved| ==> BuildAttrKey(cls, attr, resolved[j].0).Ok?
    ensures |ks| == |resolved|
  {
    seq(|resolved|, j requires 0 <= j < |resolved| => (BuildAttrKey(cls, attr, resolved[j].0).value, resolved[j].1))
  }

  /** The puts never lose a cached key. */
  lemma {:induction false} PutKeysGrows(a2i: OMap<string, string>, cls: string, attr: string, resolved: OMap<string, string>)
    ensures KeySet(a2i) <= KeySet(PutKeys(a2i, cls, attr, resolved).0)
    decreases |resolved|
  {
    if resolved != [] {
      var key := BuildAttrKey(cls, attr, resolved[0].0);
      if key.Ok? {
        PutKeysGrows(Put(a2i, key.value, resolved[0].1), cls, attr, resolved[1..]);
      }
    }
  }

  /** The puts fail exactly when some key cannot be built. */
  lemma {:induction false} PutKeysFails(a2i: OMap<string, string>, cls: string, attr: string, resolved: OMap<string, string>)
    ensures PutKeys(a2i, cls, attr, resolved).1.None? <==>
            forall j :: 0 <= j < |resolved| ==> BuildAttrKey(cls, attr, resolved[j].0).Ok?
    decreases |resolved|
  {
    if resolved != [] {
      var rest := resolved[1..];
      assert forall j :: 0 < j < |resolved| ==> resolved[j] == rest[j - 1];
      var key := BuildAttrKey(cls, attr, resolved[0].0);
      if key.Ok? {
        PutKeysFails(Put(a2i, key.value, resolved[0].1), cls, attr, rest);
      }
    }
  }

  /** When every key can be built, every entry is put under its key, in order. */
  lemma {:induction false} PutKeysAll(a2i: OMap<string, string>, cls: string, attr: string, resolved: OMap<string, string>)
    requires forall j :: 0 <= j < |resolved| ==> BuildAttrKey(cls, attr, resolved[j].0).Ok?
    ensures PutKeys(a2i, cls, attr, resolved).0 == PutAll(a2i, Keyed(cls, attr, resolved))
    decreases |resolved|
  {
    if resolved != [] {
      var ks := Keyed(cls, attr, resolved);
      KeyedTail(cls, attr, resolved);
      var a2i' := Put(a2i, ks[0].0, ks[0].1);
      assert PutKeys(a2i, cls, attr, resolved) == PutKeys(a2i', cls, attr, resolved[1..]);
      assert PutAll(a2i, ks) == PutAll(a2i', ks[1..]);
      PutKeysAll(a2i', cls, attr, resolved[1..]);
    }
  }

  lemma KeyedTail(cls: string, attr: string, resolved: OMap<string, string>)
    requires resolved != []
    requires forall j :: 0 <= j < |resolved| ==> BuildAttrKey(cls, attr, resolved[j].0).Ok?
    ensures forall j :: 0 <= j < |resolved| - 1 ==> BuildAttrKey(cls, attr, resolved[1..][j].0).Ok?
    ensures Keyed(cls, attr, resolved)[0] == (BuildAttrKey(cls, attr, resolved[0].0).value, resolved[0].1)
    ensures Keyed(cls, attr, resolved)[1..] == Keyed(cls, attr, resolved[1..])
  {
    assert forall j :: 0 <= j < |resolved| - 1 ==> resolved[1..][j] == resolved[j + 1];
  }

  /** The puts fail exactly when some key cannot be built; otherwise every entry is put under
      its key, in order. Either way no cached key is lost. */
  lemma PutKeysShape(a2i: OMap<string, string>, cls: string, attr: string, resolved: OMap<string, string>)
    ensures KeySet(a2i) <= KeySet(PutKeys(a2i, cls, attr, resolved).0)
    ensures PutKeys(a2i, cls, attr, resolved).1.None? <==>
            forall j :: 0 <= j < |resolved| ==> BuildAttrKey(cls, attr, resolved[j].0).Ok?
    ensures PutKeys(a2i, cls, attr, resolved).1.None? ==>
            PutKeys(a2i, cls, attr, resolved).0 == PutAll(a2i, Keyed(cls, attr, resolved))
  {
    PutKeysGrows(a2i, cls, attr, resolved);
    PutKeysFails(a2i, cls, attr, resolved);
    if PutKeys(a2i, cls, attr, resolved).1.None? {
      PutKeysAll(a2i, cls, attr, resolved);
    }
  }

  /** The batch loop for one reference header: per batch, the header's class and attribute
      names, the getIds answer, then the puts. A batch that throws ends the walk. */
  function ResolveBatches(a2i: OMap<string, string>, t: string, bs: seq<seq<string>>, exec: Executor): Outcome
    decreases |bs|
  {
    if bs == [] then (a2i, None)
    else
      var o := ResolveBatch(a2i, t, bs[0], exec);
      if o.1.Some? then o else ResolveBatches(o.0, t, bs[1..], exec)
  }

  /** One batch: the header's class and attribute names, the getIds answer, then the puts. */
  function ResolveBatch(a2i: OMap<string, string>, t: string, batch: seq<string>, exec: Executor): Outcome {
    match ReferenceClassName(t)
    case Err(f) => (a2i, Some(f))
    case Ok(cls) =>
      match ReferenceAttributeName(t)
      case Err(f) => (a2i, Some(f))
      case Ok(attr) =>
        match GetIdsOf(exec, cls, attr, batch)
        case Err(f) => (a2i, Some(f))
        case Ok(resolved) => PutKeys(a2i, cls, attr, resolved)
  }

  /** resolveAllExternalAttributesBatched: every header's values, in batches of a thousand. */
  function ResolveEntries(a2i: OMap<string, string>, entries: OMap<Header, seq<string>>, exec: Executor): Outcome
    decreases |entries|
  {
    if entries == [] then (a2i, None)
    else
      var o := ResolveBatches(a2i, entries[0].0.text, Batches(entries[0].1, ResolveBatchSize), exec);
      if o.1.Some? then o else ResolveEntries(o.0, entries[1..], exec)
  }

  /** The batch loop for one header, from element i: the batch of the next thousand values,
      then, unless it throws, the batches after it. */
  lemma ResolveBatchesAt(a2i: OMap<string, string>, t: string, values: seq<string>, i: nat, exec: Executor)
    requires i < |values|
    ensures var end := Min(i + ResolveBatchSize, |values|);
            var o := ResolveBatch(a2i, t, values[i..end], exec);
            ResolveBatches(a2i, t, Batches(values[i..], ResolveBatchSize), exec) ==
              if o.1.Some? then o else ResolveBatches(o.0, t, Batches(values[end..], ResolveBatchSize), exec)
  {
    BatchesFrom(values, ResolveBatchSize, i);
  }

  lemma {:induction false} ResolveBatchesGrows(a2i: OMap<string, string>, t: string, bs: seq<seq<string>>, exec: Executor)
    ensures KeySet(a2i) <= KeySet(ResolveBatches(a2i, t, bs, exec).0)
    decreases |bs|
  {
    if bs != [] {
      var o := ResolveBatch(a2i, t, bs[0], exec);
      ResolveBatchGrows(a2i, t, bs[0], exec);
      if o.1.None? {
        ResolveBatchesGrows(o.0, t, bs[1..], exec);
      }
    }
  }

  lemma ResolveBatchGrows(a2i: OMap<string, string>, t: string, batch: seq<string>, exec: Executor)
    ensures KeySet(a2i) <= KeySet(ResolveBatch(a2i, t, batch, exec).0)
  {
    if ReferenceClassName(t).Ok? && ReferenceAttributeName(t).Ok? {
      var cls := ReferenceClassName(t).value;
      var attr := ReferenceAttributeName(t).value;
      if GetIdsOf(exec, cls, attr, batch).Ok? {
        PutKeysGrows(a2i, cls, attr, GetIdsOf(exec, cls, attr, batch).value);
      }
    }
  }

  /** The cache only grows: a resolve, even one that throws, removes no key. */
  lemma {:induction false} ResolveEntriesGrows(a2i: OMap<string, string>, entries: OMap<Header, seq<string>>, exec: Executor)
    ensures KeySet(a2i) <= KeySet(ResolveEntries(a2i, entries, exec).0)
    decreases |entries|
  {
    if entries != [] {
      var o := ResolveBatches(a2i, entries[0].0.text, Batches(entries[0].1, ResolveBatchSize), exec);
      ResolveBatchesGrows(a2i, entries[0].0.text, Batches(entries[0].1, ResolveBatchSize), exec);
      ResolveEntriesGrows(o.0, entries[1..], exec);
    }
  }

  /** A header with at most a thousand values makes one getIds call, and every entry of its
      answer is cached under the key built from the header's class, attribute and the entry's
      value. */
  lemma ResolveOneBatch(a2i: OMap<string, string>, t: string, values: seq<string>, exec: Executor,
                        cls: string, attr: string, resolved: OMap<string, string>)
    requires 0 < |values| <= ResolveBatchSize
    requires ReferenceClassName(t) == Ok(cls) && ReferenceAttributeName(t) == Ok(attr)
    requires GetIdsOf(exec, cls, attr, values) == Ok(resolved)
    requires forall j :: 0 <= j < |resolved| ==> BuildAttrKey(cls, attr, resolved[j].0).Ok?
    ensures ResolveBatches(a2i, t, Batches(values, ResolveBatchSize), exec) == (PutAll(a2i, Keyed(cls, attr, resolved)), None)
  {
    assert Batches(values, ResolveBatchSize) == [values] by {
      assert values[..|values|] == values;
    }
    PutKeysShape(a2i, cls, attr, resolved);
  }

  /** The resolving part of the parser: the cache from `cls + attr + value` keys to ids. */
  class ExternalAttributeResolverParser {
    var attr2id: OMap<string, string>

    constructor()
      ensures attr2id == []
    {
      attr2id := [];
    }

    method ResolveAllExternalAttributesBatched(entries: OMap<Header, seq<string>>, exec: Executor)
      returns (failure: Option<Failure>)
      modifies this
      ensures (attr2id, failure) == ResolveEntries(old(attr2id), entries, exec)
    {
      var k := 0;
      while k < |entries|
        invariant 0 <= k <= |entries|
        invariant ResolveEntries(attr2id, entries[k..], exec) == ResolveEntries(old(attr2id), entries, exec)
      {
        assert entries[k..][0] == entries[k] && entries[k..][1..] == entries[k + 1..];
        var f := ResolveHeader(entries[k].0, entries[k].1, exec);
        if f.Some? {
          return f;
        }
        k := k + 1;
      }
      assert entries[k..] == [];
      return None;
    }

    /** The batch loop for one header. */
    method ResolveHeader(header: Header, values: seq<string>, exec: Executor) returns (failure: Option<Failure>)
      modifies this
      ensures (attr2id, failure) == ResolveBatches(old(attr2id), header.text, Batches(values, ResolveBatchSize), exec)
    {
      var total := |values|;
      var i := 0;
      assert values[0..] == values;
      while i < total
        invariant 0 <= i
        invariant ResolveBatches(attr2id, header.text, Batches(values[Min(i, total)..], ResolveBatchSize), exec)
                  == ResolveBatches(old(attr2id), header.text, Batches(values, ResolveBatchSize), exec)
      {
        var end := Min(i + ResolveBatchSize, total);
        var batch := values[i..end];
        ResolveBatchesAt(attr2id, header.text, values, i, exec);
        var f := ResolveBatchStep(header.text, batch, exec);
        if f.Some? {
          return f;
        }
        i := i + ResolveBatchSize;
        assert Min(i, total) == end;
      }
      assert values[Min(i, total)..] == [];
      return None;
    }

    /** The body of the batch loop for one batch. */
    method ResolveBatchStep(t: string, batch: seq<string>, exec: Executor) returns (failure: Option<Failure>)
      modifies this
      ensures (attr2id, failure) == ResolveBatch(old(attr2id), t, batch, exec)
    {
      var cls := ReferenceClassName(t);
      if cls.Err? {
        return Some(cls.failure);
      }
      var attr := ReferenceAttributeName(t);
      if attr.Err? {
        return Some(attr.failure);
      }
      var resolved := GetIds(exec, cls.value, attr.value, batch);
      if resolved.Err? {
        return Some(resolved.failure);
      }
      failure := PutResolved(cls.value, attr.value, resolved.value);
    }

    /** The puts of one answer. */
    method PutResolved(cls: string, attr: string, resolved: OMap<string, string>) returns (failure: Option<Failure>)
      modifies this
      ensures (attr2id, failure) == PutKeys(old(attr2id), cls, attr, resolved)
    {
      var k := 0;
      while k < |resolved|
        invariant 0 <= k <= |resolved|
        invariant PutKeys(attr2id, cls, attr, resolved[k..]) == PutKeys(old(attr2id), cls, attr, resolved)
      {
        assert resolved[k..][0] == resolved[k] && resolved[k..][1..] == resolved[k + 1..];
        var key := BuildAttrKey(cls, attr, resolved[k].0);
        if key.Err? {
          return Some(key.failure);
        }
        attr2id := Put(attr2id, key.value, resolved[k].1);
        k := k + 1;
      }
      assert resolved[k..] == [];
      return None;
    }
  }
}
