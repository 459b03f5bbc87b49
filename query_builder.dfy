/** graphql.graphql.GraphQLQueryBuilder: the getPage queries that look up the `_id` of records by
    one attribute, one query per batch of at most one hundred values. */
module QueryBuilder {
  import opened Strings
  import opened Constants
  import opened Batching

  const BatchSize: nat := 100

  /** The attribute projected next to `_id`: nothing when the attribute is `_id` itself. */
  function Projection(attr: string): string {
    if attr == Id then "" else attr
  }

  /** The getPage query for one batch of already formatted values. */
  function GetIdQuery(cls: string, attr: string, batch: seq<string>): string {
    "query {\n  " + cls + "___getPage(options: {\n    filter: {\n      " + attr + "___in: [" + Join(batch, ", ")
    + "]\n    }\n    offset: 0,\n    next: 999999\n  }) {\n    items {\n      " + Projection(attr)
    + "\n      _id\n    }\n  }\n}"
  }

  /** buildGetIdQuery: one query per batch, in order. The set's values arrive in its iteration
      order, without repetitions. */
  method BuildGetIdQuery(cls: string, attr: string, values: seq<string>) returns (queries: seq<string>)
    ensures |queries| == |Batches(values, BatchSize)|
    ensures forall j :: 0 <= j < |queries| ==> queries[j] == GetIdQuery(cls, attr, Batches(values, BatchSize)[j])
  {
    ghost var bs := Batches(values, BatchSize);
    queries := [];
    var i := 0;
    assert values[0..] == values;
    while i < |values|
      invariant 0 <= i <= |values|
      invariant |queries| <= |bs| && Batches(values[i..], BatchSize) == bs[|queries|..]
      invariant forall j :: 0 <= j < |queries| ==> queries[j] == GetIdQuery(cls, attr, bs[j])
      decreases |values| - i
    {
      var end := Min(i + BatchSize, |values|);
      BatchesFrom(values, BatchSize, i);
      var batch := values[i..end];
      assert bs[|queries|] == batch;
      assert bs[|queries| + 1..] == Batches(values[end..], BatchSize);
      queries := queries + [GetIdQuery(cls, attr, batch)];
      i := end;
    }
    assert values[i..] == [];
  }

  /** Across the queries every value is asked for once, in order: the batches concatenate back to
      the values, every batch but the last is full, and none is empty. */
  lemma QueriesCoverValues(values: seq<string>)
    ensures Flatten(Batches(values, BatchSize)) == values
    ensures forall j :: 0 <= j < |Batches(values, BatchSize)| ==> 0 < |Batches(values, BatchSize)[j]| <= BatchSize
    ensures forall j :: 0 <= j < |Batches(values, BatchSize)| - 1 ==> |Batches(values, BatchSize)[j]| == BatchSize
    ensures values == [] <==> Batches(values, BatchSize) == []
  {
    BatchesFlatten(values, BatchSize);
    BatchesCount(values, BatchSize);
    forall j | 0 <= j < |Batches(values, BatchSize)| - 1 ensures |Batches(values, BatchSize)[j]| == BatchSize {
      BatchesAt(values, BatchSize, j);
      BatchesAt(values, BatchSize, j + 1);
    }
  }
}
