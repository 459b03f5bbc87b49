/** graphql.util.JsonUtils over a parsed JSON tree: the recursive lookup of an attribute's
    value, and the value-to-id table read from a getPage response. */
module Json {
  import opened Wrappers
  import opened OrderedMaps
  import opened Constants

  /** A parsed JSON node. Missing is the node `path` returns for an absent field. Object fields
      keep document order. A parsed response never repeats a field name in one object and never
      holds Missing as a field value; trees that do lie outside the response domain, and no
      lemma here relies on them. */
  datatype Json =
    | JString(s: string)
    | JNumber(text: string)
    | JBool(b: bool)
    | JNull
    | JObject(fields: seq<(string, Json)>)
    | JArray(items: seq<Json>)
    | Missing

  /** isValueNode: strings, numbers, booleans and null. */
  predicate IsValueNode(n: Json) {
    n.JString? || n.JNumber? || n.JBool? || n.JNull?
  }

  /** asText: the text of a value node; "" for containers and missing nodes. */
  function AsText(n: Json): string {
    match n
    case JString(s) => s
    case JNumber(t) => t
    case JBool(b) => if b then "true" else "false"
    case JNull => "null"
    case _ => ""
  }

  /** path(name): the field of an object, or the missing node. */
  function Path(n: Json, name: string): (r: Json)
    ensures !n.JObject? ==> r == Missing
  {
    if n.JObject? then
      match Get(n.fields, name)
      case Some(v) => v
      case None => Missing
    else Missing
  }

  /** The children an iteration visits: an object's field values or an array's elements. */
  function Children(n: Json): (cs: seq<Json>)
    ensures !n.JObject? && !n.JArray? ==> cs == []
  {
    match n
    case JObject(fs) => seq(|fs|, i requires 0 <= i < |fs| => fs[i].1)
    case JArray(xs) => xs
    case _ => []
  }

  function NumChildren(n: Json): nat {
    match n
    case JObject(fs) => |fs|
    case JArray(xs) => |xs|
    case _ => 0
  }

  /** The value the node itself gives for the attribute: a field holding a value node. */
  function DirectValue(n: Json, attr: string): (r: Option<string>)
    ensures r.Some? ==> n.JObject? && Get(n.fields, attr).Some? && IsValueNode(Get(n.fields, attr).value)
  {
    if n.JObject? then
      match Get(n.fields, attr)
      case Some(v) => if IsValueNode(v) then Some(AsText(v)) else None
      case None => None
    else None
  }

  /** findValueRecursive: the node's own value node for the attribute, or else the first child,
      in order, in which the search succeeds. */
  function FindValue(n: Json, attr: string): Option<string>
    decreases n, 1, 0
  {
    var d := DirectValue(n, attr);
    if d.Some? then d else FindFrom(n, attr, 0)
  }

  /** The search over the children of n from position i on. */
  function FindFrom(n: Json, attr: string, i: nat): Option<string>
    decreases n, 0, NumChildren(n) - i
  {
    if i >= NumChildren(n) then None
    else
      var r := match n
        case JObject(fs) => FindValue(fs[i].1, attr)
        case JArray(xs) => FindValue(xs[i], attr)
        case _ => None;
      if r.Some? then r else FindFrom(n, attr, i + 1)
  }

  /** Some object in the tree holds the attribute with a value node whose text is v. */
  ghost predicate Holds(n: Json, attr: string, v: string)
    decreases n
  {
    DirectValue(n, attr) == Some(v) ||
    match n
    case JObject(fs) => exists i :: 0 <= i < |fs| && Holds(fs[i].1, attr, v)
    case JArray(xs) => exists i :: 0 <= i < |xs| && Holds(xs[i], attr, v)
    case _ => false
  }

  /** Child i of n holds v. */
  ghost predicate ChildHolds(n: Json, attr: string, v: string, i: nat)
    decreases n, 0
  {
    match n
    case JObject(fs) => i < |fs| && Holds(fs[i].1, attr, v)
    case JArray(xs) => i < |xs| && Holds(xs[i], attr, v)
    case _ => false
  }

  /** What the search returns is in the tree. */
  lemma {:induction false} FindSound(n: Json, attr: string)
    ensures FindValue(n, attr).Some? ==> Holds(n, attr, FindValue(n, attr).value)
    decreases n, 1, 0
  {
    if DirectValue(n, attr).None? && FindValue(n, attr).Some? {
      var j := FindFromSound(n, attr, 0);
    }
  }

  lemma {:induction false} FindFromSound(n: Json, attr: string, i: nat) returns (j: nat)
    ensures FindFrom(n, attr, i).Some? ==> i <= j && ChildHolds(n, attr, FindFrom(n, attr, i).value, j)
    ensures FindFrom(n, attr, i).Some? ==> Holds(n, attr, FindFrom(n, attr, i).value)
    decreases n, 0, NumChildren(n) - i
  {
    j := i;
    if i < NumChildren(n) {
      match n
      case JObject(fs) =>
        FindSound(fs[i].1, attr);
        if FindValue(fs[i].1, attr).None? { j := FindFromSound(n, attr, i + 1); }
      case JArray(xs) =>
        FindSound(xs[i], attr);
        if FindValue(xs[i], attr).None? { j := FindFromSound(n, attr, i + 1); }
    }
  }

  /** A value anywhere in the tree is found: the search fails only when no object holds the
      attribute with a value node. */
  lemma {:induction false} FindComplete(n: Json, attr: string, v: string)
    requires Holds(n, attr, v)
    ensures FindValue(n, attr).Some?
    decreases n, 1, 0
  {
    if DirectValue(n, attr).None? {
      match n
      case JObject(fs) =>
        var j :| 0 <= j < |fs| && Holds(fs[j].1, attr, v);
        FindFromComplete(n, attr, v, 0, j);
      case JArray(xs) =>
        var j :| 0 <= j < |xs| && Holds(xs[j], attr, v);
        FindFromComplete(n, attr, v, 0, j);
    }
  }

  lemma {:induction false} FindFromComplete(n: Json, attr: string, v: string, i: nat, j: nat)
    requires i <= j && ChildHolds(n, attr, v, j)
    ensures FindFrom(n, attr, i).Some?
    decreases n, 0, j - i
  {
    match n
    case JObject(fs) =>
      if i == j { FindComplete(fs[j].1, attr, v); }
      else if FindValue(fs[i].1, attr).None? { FindFromComplete(n, attr, v, i + 1, j); }
    case JArray(xs) =>
      if i == j { FindComplete(xs[j], attr, v); }
      else if FindValue(xs[i], attr).None? { FindFromComplete(n, attr, v, i + 1, j); }
  }

  /** findValueRecursive, with its loop over the children and its early return. */
  method FindValueRecursive(n: Json, attr: string) returns (r: Option<string>)
    ensures r == FindValue(n, attr)
    decreases n
  {
    var d := DirectValue(n, attr);
    if d.Some? {
      return d;
    }
    var i := 0;
    while i < NumChildren(n)
      invariant 0 <= i <= NumChildren(n)
      invariant FindValue(n, attr) == FindFrom(n, attr, i)
      decreases NumChildren(n) - i
    {
      var found: Option<string> := None;
      match n {
        case JObject(fs) => found := FindValueRecursive(fs[i].1, attr);
        case JArray(xs) => found := FindValueRecursive(xs[i], attr);
      }
      if found.Some? {
        return found;
      }
      i := i + 1;
    }
    return None;
  }

  /** The key of an item: the text of its first child. */
  function ItemKey(item: Json): string
    requires Children(item) != []
  {
    AsText(Children(item)[0])
  }

  /** The id of an item: the text of its `_id` field ("" when absent). */
  function ItemId(item: Json): string {
    AsText(Path(item, Id))
  }

  /** The items of a getPage response: data, its first child, then items. A response whose
      data has no child throws. */
  function ResponseItems(root: Json): Result<seq<Json>> {
    var cs := Children(Path(root, "data"));
    if cs == [] then Err(MalformedResponse) else Ok(Children(Path(cs[0], "items")))
  }

  /** The loop of value2id from a partial table and duplicate list: each item's key is put with
      its id, and a key already present is recorded as a duplicate. An item without children
      throws. */
  function Collect(m: OMap<string, string>, dups: seq<string>, items: seq<Json>): Result<(OMap<string, string>, seq<string>)>
    decreases |items|
  {
    if items == [] then Ok((m, dups))
    else if Children(items[0]) == [] then Err(MalformedResponse)
    else
      var k := ItemKey(items[0]);
      Collect(Put(m, k, ItemId(items[0])), if k in KeySet(m) then dups + [k] else dups, items[1..])
  }

  /** value2id: the key-to-id table of the items, or the list of duplicated keys. */
  function Value2IdOf(root: Json): Result<OMap<string, string>> {
    var items :- ResponseItems(root);
    var p :- Collect([], [], items);
    if p.1 != [] then Err(DuplicateValues(p.1)) else Ok(p.0)
  }

  method Value2Id(root: Json) returns (r: Result<OMap<string, string>>)
    ensures r == Value2IdOf(root)
  {
    var items :- ResponseItems(root);
    var p :- CollectItems(items);
    if p.1 != [] {
      return Err(DuplicateValues(p.1));
    }
    return Ok(p.0);
  }

  /** The loop of value2id over the items. */
  method CollectItems(items: seq<Json>) returns (r: Result<(OMap<string, string>, seq<string>)>)
    ensures r == Collect([], [], items)
  {
    var m: OMap<string, string> := [];
    var dups: seq<string> := [];
    var k := 0;
    while k < |items|
      invariant 0 <= k <= |items|
      invariant Collect(m, dups, items[k..]) == Collect([], [], items)
    {
      assert items[k..][0] == items[k] && items[k..][1..] == items[k + 1..];
      if Children(items[k]) == [] {
        return Err(MalformedResponse);
      }
      var key := ItemKey(items[k]);
      var previous := Get(m, key);
      if previous.Some? {
        dups := dups + [key];
      }
      m := Put(m, key, ItemId(items[k]));
      k := k + 1;
    }
    assert items[k..] == [];
    return Ok((m, dups));
  }

  predicate AllHaveChildren(items: seq<Json>) {
    forall i :: 0 <= i < |items| ==> Children(items[i]) != []
  }

  /** The (key, id) entry of each item. */
  function Pairs(items: seq<Json>): (ps: OMap<string, string>)
    requires AllHaveChildren(items)
    ensures |ps| == |items|
    ensures forall i :: 0 <= i < |items| ==> ps[i] == (ItemKey(items[i]), ItemId(items[i]))
  {
    seq(|items|, i requires 0 <= i < |items| => (ItemKey(items[i]), ItemId(items[i])))
  }

  /** No item key repeats and none is already in m. */
  predicate NoRepeat(m: OMap<string, string>, items: seq<Json>)
    requires AllHaveChildren(items)
  {
    DistinctKeys(Pairs(items)) && forall i :: 0 <= i < |items| ==> ItemKey(items[i]) !in KeySet(m)
  }

  lemma RestHasChildren(items: seq<Json>)
    requires items != [] && AllHaveChildren(items)
    ensures AllHaveChildren(items[1..])
  {
    forall i | 0 <= i < |items| - 1 ensures Children(items[1..][i]) != [] { assert items[1..][i] == items[i + 1]; }
  }

  /** When every item has a child, the loop succeeds and puts every pair, in order. */
  lemma {:induction false} CollectPuts(m: OMap<string, string>, dups: seq<string>, items: seq<Json>)
    requires AllHaveChildren(items)
    ensures Collect(m, dups, items).Ok?
    ensures Collect(m, dups, items).value.0 == PutAll(m, Pairs(items))
    decreases |items|
  {
    if items != [] {
      var rest := items[1..];
      var k := ItemKey(items[0]);
      RestHasChildren(items);
      CollectPuts(Put(m, k, ItemId(items[0])), if k in KeySet(m) then dups + [k] else dups, rest);
      assert Pairs(items)[1..] == Pairs(rest);
      assert Pairs(items)[0] == (k, ItemId(items[0]));
    }
  }

  /** The loop only appends to the duplicate list. */
  lemma {:induction false} CollectPrefix(m: OMap<string, string>, dups: seq<string>, items: seq<Json>)
    requires AllHaveChildren(items)
    requires Collect(m, dups, items).Ok?
    ensures var d := Collect(m, dups, items).value.1;
            |dups| <= |d| && d[..|dups|] == dups
    decreases |items|
  {
    if items != [] {
      var rest := items[1..];
      var k := ItemKey(items[0]);
      var m' := Put(m, k, ItemId(items[0]));
      var dups' := if k in KeySet(m) then dups + [k] else dups;
      RestHasChildren(items);
      assert Collect(m, dups, items) == Collect(m', dups', rest);
      CollectPrefix(m', dups', rest);
      var d := Collect(m', dups', rest).value.1;
      assert d[..|dups|] == dups by {
        assert d[..|dups'|][..|dups|] == dups'[..|dups|];
      }
    }
  }

  /** The keys of the items after the first are keys of the items. */
  lemma PairsTailKeys(items: seq<Json>)
    requires items != [] && AllHaveChildren(items) && AllHaveChildren(items[1..])
    ensures KeySet(Pairs(items[1..])) <= KeySet(Pairs(items))
  {
    var rest := items[1..];
    forall x | x in KeySet(Pairs(rest)) ensures x in KeySet(Pairs(items)) {
      var i :| 0 <= i < |rest| && Pairs(rest)[i].0 == x;
      assert rest[i] == items[i + 1];
      assert Pairs(items)[i + 1].0 == x;
    }
  }

  /** The loop only appends to the duplicate list, and appends nothing exactly when no key
      repeats. */
  lemma {:induction false} CollectDups(m: OMap<string, string>, dups: seq<string>, items: seq<Json>)
    requires AllHaveChildren(items)
    requires Collect(m, dups, items).Ok?
    ensures var d := Collect(m, dups, items).value.1;
            |dups| <= |d| && d[..|dups|] == dups &&
            (|d| == |dups| <==> NoRepeat(m, items))
    decreases |items|
  {
    if items != [] {
      var rest := items[1..];
      var k := ItemKey(items[0]);
      var m' := Put(m, k, ItemId(items[0]));
      var dups' := if k in KeySet(m) then dups + [k] else dups;
      RestHasChildren(items);
      assert Collect(m, dups, items) == Collect(m', dups', rest);
      CollectDups(m', dups', rest);
      NoRepeatStep(m, items);
      var d := Collect(m', dups', rest).value.1;
      assert d[..|dups|] == dups by {
        assert d[..|dups'|][..|dups|] == dups'[..|dups|];
      }
    }
  }

  /** When every item has a child, the loop puts every pair, in order, and reports a duplicate
      exactly when some key repeats. */
  lemma CollectShape(m: OMap<string, string>, dups: seq<string>, items: seq<Json>)
    requires AllHaveChildren(items)
    ensures Collect(m, dups, items).Ok?
    ensures Collect(m, dups, items).value.0 == PutAll(m, Pairs(items))
    ensures var d := Collect(m, dups, items).value.1;
            |dups| <= |d| && d[..|dups|] == dups &&
            (|d| == |dups| <==> NoRepeat(m, items))
  {
    CollectPuts(m, dups, items);
    CollectDups(m, dups, items);
  }

  /** Each key the loop reports as a duplicate is a key of the items or of m. */
  lemma {:induction false} CollectReported(m: OMap<string, string>, dups: seq<string>, items: seq<Json>)
    requires AllHaveChildren(items)
    requires Collect(m, dups, items).Ok?
    ensures var d := Collect(m, dups, items).value.1;
            |dups| <= |d| &&
            forall t :: |dups| <= t < |d| ==> d[t] in KeySet(m) + KeySet(Pairs(items))
    decreases |items|
  {
    if items != [] {
      var rest := items[1..];
      var k := ItemKey(items[0]);
      var m' := Put(m, k, ItemId(items[0]));
      var dups' := if k in KeySet(m) then dups + [k] else dups;
      RestHasChildren(items);
      assert Collect(m, dups, items) == Collect(m', dups', rest);
      CollectReported(m', dups', rest);
      var d := Collect(m', dups', rest).value.1;
      assert Pairs(items)[0].0 == k;
      PairsTailKeys(items);
      CollectPrefix(m', dups', rest);
      ReportedStep(dups, dups', d, KeySet(m), k, KeySet(Pairs(rest)), KeySet(Pairs(items)));
    }
  }

  /** With every item well-formed, the loop is the tracked puts of the items' pairs. */
  lemma {:induction false} CollectIsTracking(m: OMap<string, string>, dups: seq<string>, items: seq<Json>)
    requires AllHaveChildren(items)
    ensures Collect(m, dups, items) == Ok(PutTracking(m, dups, Pairs(items)))
    decreases |items|
  {
    if items != [] {
      var rest := items[1..];
      var k := ItemKey(items[0]);
      RestHasChildren(items);
      CollectIsTracking(Put(m, k, ItemId(items[0])), if k in KeySet(m) then dups + [k] else dups, rest);
      assert Pairs(items)[1..] == Pairs(rest);
      assert Pairs(items)[0] == (k, ItemId(items[0]));
    }
  }

  lemma ReportedStep(dups: seq<string>, dups': seq<string>, d: seq<string>, known: set<string>,
                     k: string, restKeys: set<string>, allKeys: set<string>)
    requires dups' == dups || dups' == dups + [k]
    requires |dups'| <= |d| && d[..|dups'|] == dups'
    requires forall t :: |dups'| <= t < |d| ==> d[t] in known + {k} + restKeys
    requires k in allKeys && restKeys <= allKeys
    ensures forall t :: |dups| <= t < |d| ==> d[t] in known + allKeys
  {
    forall t | |dups| <= t < |d| ensures d[t] in known + allKeys {
      if t < |dups'| {
        assert d[t] == d[..|dups'|][t] == dups'[t] == k;
      }
    }
  }

  /** NoRepeat over items splits into the first key and the rest. */
  lemma NoRepeatStep(m: OMap<string, string>, items: seq<Json>)
    requires items != [] && AllHaveChildren(items) && AllHaveChildren(items[1..])
    ensures NoRepeat(m, items) <==>
            ItemKey(items[0]) !in KeySet(m) && NoRepeat(Put(m, ItemKey(items[0]), ItemId(items[0])), items[1..])
  {
    if NoRepeat(m, items) {
      NoRepeatTail(m, items);
    }
    if ItemKey(items[0]) !in KeySet(m) && NoRepeat(Put(m, ItemKey(items[0]), ItemId(items[0])), items[1..]) {
      NoRepeatCons(m, items);
    }
  }

  lemma NoRepeatTail(m: OMap<string, string>, items: seq<Json>)
    requires items != [] && AllHaveChildren(items) && AllHaveChildren(items[1..])
    requires NoRepeat(m, items)
    ensures ItemKey(items[0]) !in KeySet(m) && NoRepeat(Put(m, ItemKey(items[0]), ItemId(items[0])), items[1..])
  {
    var k := ItemKey(items[0]);
    var rest := items[1..];
    var ps := Pairs(items);
    var m' := Put(m, k, ItemId(items[0]));
    assert forall i :: 0 <= i < |rest| ==> rest[i] == items[i + 1];
    assert forall i :: 0 <= i < |rest| ==> Pairs(rest)[i] == ps[i + 1];
    forall i | 0 <= i < |rest| ensures ItemKey(rest[i]) !in KeySet(m') {
      assert ps[0].0 != ps[i + 1].0;
    }
  }

  lemma NoRepeatCons(m: OMap<string, string>, items: seq<Json>)
    requires items != [] && AllHaveChildren(items) && AllHaveChildren(items[1..])
    requires ItemKey(items[0]) !in KeySet(m) && NoRepeat(Put(m, ItemKey(items[0]), ItemId(items[0])), items[1..])
    ensures NoRepeat(m, items)
  {
    var m' := Put(m, ItemKey(items[0]), ItemId(items[0]));
    ConsDistinct(m', items);
    forall i | 0 <= i < |items| ensures ItemKey(items[i]) !in KeySet(m) {
      if i > 0 { assert items[1..][i - 1] == items[i]; }
    }
  }

  lemma ConsDistinct(m': OMap<string, string>, items: seq<Json>)
    requires items != [] && AllHaveChildren(items) && AllHaveChildren(items[1..])
    requires ItemKey(items[0]) in KeySet(m') && NoRepeat(m', items[1..])
    ensures DistinctKeys(Pairs(items))
  {
    var rest := items[1..];
    var ps := Pairs(items);
    forall i, j | 0 <= i < j < |ps| ensures ps[i].0 != ps[j].0 {
      assert rest[j - 1] == items[j];
      if i > 0 {
        assert rest[i - 1] == items[i];
        assert Pairs(rest)[i - 1].0 != Pairs(rest)[j - 1].0;
      } else {
        assert ItemKey(rest[j - 1]) !in KeySet(m');
      }
    }
  }



  /** With well-formed items whose keys are all different, value2id returns each key with its
      id, in item order. */
  lemma Value2IdDistinct(root: Json)
    requires ResponseItems(root).Ok? && AllHaveChildren(ResponseItems(root).value)
    requires DistinctKeys(Pairs(ResponseItems(root).value))
    ensures Value2IdOf(root) == Ok(Pairs(ResponseItems(root).value))
  {
    var items := ResponseItems(root).value;
    CollectShape([], [], items);
    PutAllFresh([], Pairs(items));
    assert NoRepeat([], items);
    assert [] + Pairs(items) == Pairs(items);
  }

  /** With well-formed items, a repeated key makes value2id throw, listing only keys of the
      items. */
  lemma Value2IdDuplicate(root: Json, i: nat, j: nat)
    requires ResponseItems(root).Ok? && AllHaveChildren(ResponseItems(root).value)
    requires i < j < |ResponseItems(root).value|
    requires ItemKey(ResponseItems(root).value[i]) == ItemKey(ResponseItems(root).value[j])
    ensures Value2IdOf(root).Err? && Value2IdOf(root).failure.DuplicateValues?
    ensures var d := Value2IdOf(root).failure.keys;
            ItemKey(ResponseItems(root).value[i]) in d &&
            forall t :: 0 <= t < |d| ==> d[t] in KeySet(Pairs(ResponseItems(root).value))
  {
    var items := ResponseItems(root).value;
    CollectShape([], [], items);
    CollectReported([], [], items);
    CollectIsTracking([], [], items);
    TrackingReportsRepeat([], [], Pairs(items), i, j);
    assert Pairs(items)[i].0 == Pairs(items)[j].0;
    assert !NoRepeat([], items);
  }

  /** An item without children makes value2id throw. */
  lemma {:induction false} CollectMalformed(m: OMap<string, string>, dups: seq<string>, items: seq<Json>, i: nat)
    requires i < |items| && Children(items[i]) == []
    ensures Collect(m, dups, items) == Err(MalformedResponse)
    decreases i
  {
    if Children(items[0]) != [] {
      var k := ItemKey(items[0]);
      assert items[1..][i - 1] == items[i];
      CollectMalformed(Put(m, k, ItemId(items[0])), if k in KeySet(m) then dups + [k] else dups, items[1..], i - 1);
    }
  }
}
