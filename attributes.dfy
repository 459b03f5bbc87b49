/** The shape the sheet parsers share. A row's attribute map is built by a loop that looks
    at one column at a time and either passes over it, puts a name and a value into a
    LinkedHashMap, or throws; the sheet's mutations are one per row whose map is not empty,
    in row order. Each parser supplies the per-column decision; the loops and what they
    promise live here. */
module Attributes {
  import opened Wrappers
  import opened OrderedMaps

  /** The decision for one column. */
  datatype Step = Skip | Emit(name: string, value: string) | Fail(failure: Failure)

  /** The loop over the columns from a partial map: puts in column order, ended by the first
      failure. */
  function Fold(acc: OMap<string, string>, steps: seq<Step>): Result<OMap<string, string>>
    decreases |steps|
  {
    if steps == [] then Ok(acc)
    else match steps[0]
      case Skip => Fold(acc, steps[1..])
      case Emit(n, v) => Fold(Put(acc, n, v), steps[1..])
      case Fail(f) => Err(f)
  }

  predicate NoFail(steps: seq<Step>) {
    forall i :: 0 <= i < |steps| ==> !steps[i].Fail?
  }

  /** The (name, value) pairs of the Emit steps, in column order. */
  function Emits(steps: seq<Step>): (es: OMap<string, string>)
    ensures |es| <= |steps|
    decreases |steps|
  {
    if steps == [] then []
    else (if steps[0].Emit? then [(steps[0].name, steps[0].value)] else []) + Emits(steps[1..])
  }

  /** Without a failure the loop is a put of every emitted pair, in order. */
  lemma {:induction false} FoldIsPutAll(acc: OMap<string, string>, steps: seq<Step>)
    requires NoFail(steps)
    ensures Fold(acc, steps) == Ok(PutAll(acc, Emits(steps)))
    decreases |steps|
  {
    if steps != [] {
      assert NoFail(steps[1..]) by {
        forall i | 0 <= i < |steps[1..]| ensures !steps[1..][i].Fail? { assert steps[1..][i] == steps[i + 1]; }
      }
      var s := steps[0];
      if s.Emit? {
        FoldIsPutAll(Put(acc, s.name, s.value), steps[1..]);
        var es := Emits(steps);
        assert es[0] == (s.name, s.value) && es[1..] == Emits(steps[1..]);
      } else {
        assert s.Skip? by { assert !steps[0].Fail?; }
        FoldIsPutAll(acc, steps[1..]);
        assert Fold(acc, steps) == Fold(acc, steps[1..]);
        var e: OMap<string, string> := [];
        assert Emits(steps) == e + Emits(steps[1..]) == Emits(steps[1..]);
      }
    }
  }

  /** A name is emitted exactly when some column emits it. */
  lemma {:induction false} EmitsMembers(steps: seq<Step>, k: string)
    ensures k in KeySet(Emits(steps)) <==> exists i :: 0 <= i < |steps| && steps[i].Emit? && steps[i].name == k
    decreases |steps|
  {
    if steps != [] {
      var head: OMap<string, string> := if steps[0].Emit? then [(steps[0].name, steps[0].value)] else [];
      var es := Emits(steps);
      EmitsMembers(steps[1..], k);
      assert es == head + Emits(steps[1..]);
      assert KeySet(es) == KeySet(head) + KeySet(Emits(steps[1..])) by {
        forall x | x in KeySet(es) ensures x in KeySet(head) + KeySet(Emits(steps[1..])) {
          var j :| 0 <= j < |es| && es[j].0 == x;
          if j >= |head| { assert Emits(steps[1..])[j - |head|].0 == x; }
        }
        forall x | x in KeySet(Emits(steps[1..])) ensures x in KeySet(es) {
          var j :| 0 <= j < |Emits(steps[1..])| && Emits(steps[1..])[j].0 == x;
          assert es[j + |head|].0 == x;
        }
        if head != [] { assert es[0].0 == head[0].0; }
      }
      if exists i :: 0 <= i < |steps| && steps[i].Emit? && steps[i].name == k {
        var i :| 0 <= i < |steps| && steps[i].Emit? && steps[i].name == k;
        if i > 0 { assert steps[1..][i - 1] == steps[i]; }
      }
      if exists i :: 0 <= i < |steps[1..]| && steps[1..][i].Emit? && steps[1..][i].name == k {
        var i :| 0 <= i < |steps[1..]| && steps[1..][i].Emit? && steps[1..][i].name == k;
        assert steps[i + 1] == steps[1..][i];
      }
    }
  }

  /** The value a column emits is the one kept when no later column emits the same name. */
  lemma {:induction false} EmitsLast(steps: seq<Step>, i: nat)
    requires i < |steps| && steps[i].Emit?
    requires forall j :: i < j < |steps| && steps[j].Emit? ==> steps[j].name != steps[i].name
    ensures steps[i].name in KeySet(Emits(steps))
    ensures LastValue(Emits(steps), steps[i].name) == steps[i].value
    decreases |steps|
  {
    var k := steps[i].name;
    var es := Emits(steps);
    var tail := Emits(steps[1..]);
    EmitsMembers(steps[1..], k);
    if i == 0 {
      assert es[0] == (k, steps[0].value) && es[1..] == tail;
      forall j | 0 <= j < |steps[1..]| && steps[1..][j].Emit? ensures steps[1..][j].name != k {
        assert steps[1..][j] == steps[j + 1];
      }
      assert es[0].0 == k;
    } else {
      assert steps[1..][i - 1] == steps[i];
      forall j | i - 1 < j < |steps[1..]| && steps[1..][j].Emit? ensures steps[1..][j].name != k {
        assert steps[1..][j] == steps[j + 1];
      }
      EmitsLast(steps[1..], i - 1);
      var head: OMap<string, string> := if steps[0].Emit? then [(steps[0].name, steps[0].value)] else [];
      assert es == head + tail;
      if head == [] {
        assert es == tail;
      } else {
        assert es[0] == head[0] && es[1..] == tail;
        KeySetCons(es);
      }
    }
  }

  /** A column that is passed over can be left out of the loop without changing its result. */
  lemma {:induction false} FoldDropSkip(acc: OMap<string, string>, steps: seq<Step>, i: nat)
    requires i < |steps| && steps[i].Skip?
    ensures Fold(acc, steps[..i] + steps[i + 1..]) == Fold(acc, steps)
    decreases i
  {
    var dropped := steps[..i] + steps[i + 1..];
    if i == 0 {
      assert dropped == steps[1..];
    } else {
      var rest := steps[1..];
      assert dropped[0] == steps[0];
      assert dropped[1..] == rest[..i - 1] + rest[i..];
      assert rest[i - 1] == steps[i];
      match steps[0]
      case Skip => FoldDropSkip(acc, rest, i - 1);
      case Emit(n, v) => FoldDropSkip(Put(acc, n, v), rest, i - 1);
      case Fail(f) =>
    }
  }

  /** The loop fails exactly when some column fails, with the failure of the first one. */
  lemma {:induction false} FoldFails(acc: OMap<string, string>, steps: seq<Step>)
    ensures Fold(acc, steps).Err? <==> !NoFail(steps)
    ensures Fold(acc, steps).Err? ==>
              exists i :: 0 <= i < |steps| && steps[i] == Fail(Fold(acc, steps).failure) &&
                          forall j :: 0 <= j < i ==> !steps[j].Fail?
    decreases |steps|
  {
    if steps != [] {
      var s := steps[0];
      var acc' := if s.Emit? then Put(acc, s.name, s.value) else acc;
      if !s.Fail? {
        var rest := steps[1..];
        assert Fold(acc, steps) == Fold(acc', rest);
        FoldFails(acc', rest);
        assert forall j :: 0 < j < |steps| ==> steps[j] == rest[j - 1];
        if Fold(acc, steps).Err? {
          var f := Fold(acc, steps).failure;
          var i :| 0 <= i < |rest| && rest[i] == Fail(f) && forall j :: 0 <= j < i ==> !rest[j].Fail?;
          assert steps[i + 1] == rest[i];
          forall j | 0 <= j < i + 1 ensures !steps[j].Fail? {
            if j > 0 { assert steps[j] == rest[j - 1]; }
          }
          assert 0 <= i + 1 < |steps| && steps[i + 1] == Fail(f) && forall j :: 0 <= j < i + 1 ==> !steps[j].Fail?;
        }
      } else {
        assert steps[0] == Fail(Fold(acc, steps).failure);
      }
    }
  }

  /** A column loop from the empty map, when no column fails: its keys are the emitted names,
      and a name emitted by only one column holds that column's value. */
  lemma RowMap(steps: seq<Step>)
    requires NoFail(steps)
    ensures Fold([], steps).Ok?
    ensures forall k :: k in KeySet(Fold([], steps).value) <==>
                        exists i :: 0 <= i < |steps| && steps[i].Emit? && steps[i].name == k
    ensures forall i :: 0 <= i < |steps| && steps[i].Emit? &&
                        (forall j :: i < j < |steps| && steps[j].Emit? ==> steps[j].name != steps[i].name) ==>
                        Get(Fold([], steps).value, steps[i].name) == Some(steps[i].value)
  {
    FoldIsPutAll([], steps);
    forall k ensures k in KeySet(Fold([], steps).value) <==>
                     exists i :: 0 <= i < |steps| && steps[i].Emit? && steps[i].name == k
    {
      PutAllGet([], Emits(steps), k);
      EmitsMembers(steps, k);
    }
    forall i | 0 <= i < |steps| && steps[i].Emit? &&
               (forall j :: i < j < |steps| && steps[j].Emit? ==> steps[j].name != steps[i].name)
      ensures Get(Fold([], steps).value, steps[i].name) == Some(steps[i].value)
    {
      PutAllGet([], Emits(steps), steps[i].name);
      EmitsLast(steps, i);
    }
  }

  /** A mutation builder: object name and attribute map to the mutation text, or a failure. */
  type Builder = (string, OMap<string, string>) -> Result<string>

  /** What one row contributes: nothing for an empty map, else its mutation. */
  function RowMutations(obj: string, attrs: Result<OMap<string, string>>, build: Builder): Result<seq<string>> {
    var a :- attrs;
    if a == [] then Ok([])
    else
      var m :- build(obj, a);
      Ok([m])
  }

  /** The row loop from the mutations so far: each row's contribution in row order; the
      first failing row ends it. */
  function EmitFrom(acc: seq<string>, obj: string, results: seq<Result<OMap<string, string>>>, build: Builder)
    : Result<seq<string>>
    decreases |results|
  {
    if results == [] then Ok(acc)
    else
      var row :- RowMutations(obj, results[0], build);
      EmitFrom(acc + row, obj, results[1..], build)
  }

  function EmitAll(obj: string, results: seq<Result<OMap<string, string>>>, build: Builder): Result<seq<string>> {
    EmitFrom([], obj, results, build)
  }

  /** Every row's map can be built, and so can the mutation of every non-empty one. */
  predicate AllRowsOk(obj: string, results: seq<Result<OMap<string, string>>>, build: Builder) {
    forall i :: 0 <= i < |results| ==> RowMutations(obj, results[i], build).Ok?
  }

  /** The mutations of rows whose maps and mutations can all be built: one per non-empty map,
      in row order. */
  function Emitted(obj: string, attrs: seq<OMap<string, string>>, build: Builder): (ms: seq<string>)
    requires forall i :: 0 <= i < |attrs| && attrs[i] != [] ==> build(obj, attrs[i]).Ok?
    ensures |ms| <= |attrs|
  {
    if attrs == [] then []
    else
      var n := |attrs| - 1;
      Emitted(obj, attrs[..n], build) + (if attrs[n] != [] then [build(obj, attrs[n]).value] else [])
  }

  function Values(results: seq<Result<OMap<string, string>>>): (vs: seq<OMap<string, string>>)
    requires forall i :: 0 <= i < |results| ==> results[i].Ok?
    ensures |vs| == |results| && forall i :: 0 <= i < |results| ==> vs[i] == results[i].value
  {
    seq(|results|, i requires 0 <= i < |results| => results[i].value)
  }

  /** The row loop succeeds exactly when every row does; otherwise it fails as the first
      failing row does. */
  lemma {:induction false} EmitFromOk(acc: seq<string>, obj: string, results: seq<Result<OMap<string, string>>>, build: Builder)
    ensures EmitFrom(acc, obj, results, build).Ok? <==> AllRowsOk(obj, results, build)
    ensures EmitFrom(acc, obj, results, build).Err? ==>
              exists i :: 0 <= i < |results| &&
                          RowMutations(obj, results[i], build) == Err(EmitFrom(acc, obj, results, build).failure) &&
                          forall j :: 0 <= j < i ==> RowMutations(obj, results[j], build).Ok?
    decreases |results|
  {
    if results != [] {
      var rest := results[1..];
      assert forall i :: 0 < i < |results| ==> results[i] == rest[i - 1];
      var row := RowMutations(obj, results[0], build);
      if row.Ok? {
        EmitFromOk(acc + row.value, obj, rest, build);
        if EmitFrom(acc, obj, results, build).Err? {
          var i :| 0 <= i < |rest| && RowMutations(obj, rest[i], build) == Err(EmitFrom(acc, obj, results, build).failure) &&
                   forall j :: 0 <= j < i ==> RowMutations(obj, rest[j], build).Ok?;
          assert results[i + 1] == rest[i];
        }
      }
    }
  }

  /** When every row succeeds, every row's map was built, and the loop adds one mutation per
      non-empty map, in row order. */
  lemma {:induction false} EmitFromValue(acc: seq<string>, obj: string, results: seq<Result<OMap<string, string>>>, build: Builder)
    requires AllRowsOk(obj, results, build)
    ensures forall i :: 0 <= i < |results| ==> results[i].Ok?
    ensures EmitFrom(acc, obj, results, build) == Ok(acc + Emitted(obj, Values(results), build))
    decreases |results|
  {
    RowsOkAreOk(obj, results, build);
    if results == [] {
      assert Values(results) == [];
      assert acc + [] == acc;
    } else {
      EmittedFirst(obj, results, build);
      var row := RowMutations(obj, results[0], build).value;
      EmitFromCons(acc, obj, results, build);
      EmitFromValue(acc + row, obj, results[1..], build);
      var later := Emitted(obj, Values(results[1..]), build);
      assert acc + row + later == acc + (row + later);
    }
  }

  /** A row whose map is built was not a failing row. */
  lemma RowsOkAreOk(obj: string, results: seq<Result<OMap<string, string>>>, build: Builder)
    requires AllRowsOk(obj, results, build)
    ensures forall i :: 0 <= i < |results| ==> results[i].Ok?
  {
    forall i | 0 <= i < |results| ensures results[i].Ok? {
      assert RowMutations(obj, results[i], build).Ok?;
    }
  }

  /** One step of the row loop over a row that succeeds. */
  lemma EmitFromCons(acc: seq<string>, obj: string, results: seq<Result<OMap<string, string>>>, build: Builder)
    requires results != [] && RowMutations(obj, results[0], build).Ok?
    ensures EmitFrom(acc, obj, results, build) ==
            EmitFrom(acc + RowMutations(obj, results[0], build).value, obj, results[1..], build)
  {
  }

  /** The first row's mutations followed by those of the other rows. */
  lemma EmittedFirst(obj: string, results: seq<Result<OMap<string, string>>>, build: Builder)
    requires results != [] && AllRowsOk(obj, results, build)
    requires forall i :: 0 <= i < |results| ==> results[i].Ok?
    ensures AllRowsOk(obj, results[1..], build)
    ensures Emitted(obj, Values(results), build) ==
            RowMutations(obj, results[0], build).value + Emitted(obj, Values(results[1..]), build)
  {
    var rest := results[1..];
    assert AllRowsOk(obj, rest, build) by {
      forall i | 0 <= i < |rest| ensures RowMutations(obj, rest[i], build).Ok? {
        assert rest[i] == results[i + 1];
      }
    }
    var vs := Values(results);
    assert vs == [vs[0]] + Values(rest);
    forall i | 0 <= i < |vs| && vs[i] != [] ensures build(obj, vs[i]).Ok? {
      assert RowMutations(obj, results[i], build).Ok?;
    }
    EmittedAppend(obj, [vs[0]], Values(rest), build);
    EmittedOne(obj, vs[0], build);
  }

  lemma EmitAllOk(obj: string, results: seq<Result<OMap<string, string>>>, build: Builder)
    ensures EmitAll(obj, results, build).Ok? <==> AllRowsOk(obj, results, build)
    ensures AllRowsOk(obj, results, build) ==>
              (forall i :: 0 <= i < |results| ==> results[i].Ok?) &&
              EmitAll(obj, results, build) == Ok(Emitted(obj, Values(results), build))
    ensures EmitAll(obj, results, build).Err? ==>
              exists i :: 0 <= i < |results| &&
                          RowMutations(obj, results[i], build) == Err(EmitAll(obj, results, build).failure) &&
                          forall j :: 0 <= j < i ==> RowMutations(obj, results[j], build).Ok?
  {
    EmitFromOk([], obj, results, build);
    if AllRowsOk(obj, results, build) {
      EmitFromValue([], obj, results, build);
      assert [] + Emitted(obj, Values(results), build) == Emitted(obj, Values(results), build);
    }
  }

  /** Emission is row by row: the mutations of consecutive rows are the mutations of each
      part, in order. */
  lemma {:induction false} EmittedAppend(obj: string, a: seq<OMap<string, string>>, b: seq<OMap<string, string>>,
                                         build: Builder)
    requires forall i :: 0 <= i < |a| && a[i] != [] ==> build(obj, a[i]).Ok?
    requires forall i :: 0 <= i < |b| && b[i] != [] ==> build(obj, b[i]).Ok?
    ensures Emitted(obj, a + b, build) == Emitted(obj, a, build) + Emitted(obj, b, build)
    decreases |b|
  {
    if b == [] {
      assert a + b == a;
    } else {
      var n := |b| - 1;
      assert (a + b)[..|a + b| - 1] == a + b[..n];
      EmittedAppend(obj, a, b[..n], build);
    }
  }

  /** One row emits its mutation when its map is not empty, and nothing otherwise. */
  lemma EmittedOne(obj: string, attrs: OMap<string, string>, build: Builder)
    requires attrs != [] ==> build(obj, attrs).Ok?
    ensures Emitted(obj, [attrs], build) == if attrs != [] then [build(obj, attrs).value] else []
  {
    assert [attrs][..0] == [];
  }

  /** Rows whose maps are all empty emit nothing. */
  lemma {:induction false} EmptyRowsEmitNothing(obj: string, attrs: seq<OMap<string, string>>, build: Builder)
    requires forall i :: 0 <= i < |attrs| ==> attrs[i] == []
    ensures Emitted(obj, attrs, build) == []
  {
    if attrs != [] {
      EmptyRowsEmitNothing(obj, attrs[..|attrs| - 1], build);
    }
  }

  /** Rows whose maps are all non-empty emit one mutation each, in order. */
  lemma {:induction false} FullRowsEmitAll(obj: string, attrs: seq<OMap<string, string>>, build: Builder)
    requires forall i :: 0 <= i < |attrs| ==> attrs[i] != [] && build(obj, attrs[i]).Ok?
    ensures |Emitted(obj, attrs, build)| == |attrs|
    ensures forall i :: 0 <= i < |attrs| ==> Emitted(obj, attrs, build)[i] == build(obj, attrs[i]).value
  {
    if attrs != [] {
      FullRowsEmitAll(obj, attrs[..|attrs| - 1], build);
    }
  }
  /** The row loop of the composition parsers: each row gives its mutation, nothing (a row
      passed over), or a failure that ends the loop. Every mutation given is kept, whatever
      its attribute map. */
  function CollectRows(acc: seq<string>, outs: seq<Result<Option<string>>>): Result<seq<string>>
    decreases |outs|
  {
    if outs == [] then Ok(acc)
    else
      var o :- outs[0];
      CollectRows(if o.Some? then acc + [o.value] else acc, outs[1..])
  }

  /** The mutations the rows give, in row order. */
  function Given(outs: seq<Result<Option<string>>>): (ms: seq<string>)
    ensures |ms| <= |outs|
    decreases |outs|
  {
    if outs == [] then []
    else (if outs[0].Ok? && outs[0].value.Some? then [outs[0].value.value] else []) + Given(outs[1..])
  }

  /** The row loop succeeds exactly when no row fails, and then appends the given mutations
      in row order; otherwise it fails as the first failing row does. */
  lemma {:induction false} CollectRowsShape(acc: seq<string>, outs: seq<Result<Option<string>>>)
    ensures CollectRows(acc, outs).Ok? <==> forall i :: 0 <= i < |outs| ==> outs[i].Ok?
    ensures CollectRows(acc, outs).Ok? ==> CollectRows(acc, outs).value == acc + Given(outs)
    ensures CollectRows(acc, outs).Err? ==>
              exists i :: 0 <= i < |outs| && outs[i] == Err(CollectRows(acc, outs).failure) &&
                          forall j :: 0 <= j < i ==> outs[j].Ok?
    decreases |outs|
  {
    if outs != [] {
      var rest := outs[1..];
      assert forall i :: 0 < i < |outs| ==> outs[i] == rest[i - 1];
      if outs[0].Ok? {
        var o := outs[0].value;
        var acc' := if o.Some? then acc + [o.value] else acc;
        CollectRowsShape(acc', rest);
        if CollectRows(acc, outs).Err? {
          var i :| 0 <= i < |rest| && rest[i] == Err(CollectRows(acc, outs).failure) &&
                   forall j :: 0 <= j < i ==> rest[j].Ok?;
          assert outs[i + 1] == rest[i];
        }
        if CollectRows(acc, outs).Ok? {
          assert acc' + Given(rest) == acc + Given(outs);
        }
      }
    }
  }

  /** A row passed over can be left out of the loop without changing its result. */
  lemma {:induction false} CollectRowsDropNone(acc: seq<string>, outs: seq<Result<Option<string>>>, i: nat)
    requires i < |outs| && outs[i] == Ok(None)
    ensures CollectRows(acc, outs[..i] + outs[i + 1..]) == CollectRows(acc, outs)
    decreases i
  {
    var dropped := outs[..i] + outs[i + 1..];
    if i == 0 {
      assert dropped == outs[1..];
    } else {
      var rest := outs[1..];
      assert dropped[0] == outs[0];
      assert dropped[1..] == rest[..i - 1] + rest[i..];
      assert rest[i - 1] == outs[i];
      if outs[0].Ok? {
        var o := outs[0].value;
        CollectRowsDropNone(if o.Some? then acc + [o.value] else acc, rest, i - 1);
      }
    }
  }
}
