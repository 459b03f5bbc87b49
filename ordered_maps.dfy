/** java.util.LinkedHashMap as a sequence of entries in insertion order. Put of a present
    key replaces its value in place; Put of a new key appends an entry. */
module OrderedMaps {
  import opened Wrappers
  import opened Sequences

  type OMap<K, V> = seq<(K, V)>

  predicate DistinctKeys<K(==), V>(m: OMap<K, V>) {
    forall i, j :: 0 <= i < j < |m| ==> m[i].0 != m[j].0
  }

  function KeySet<K(==), V>(m: OMap<K, V>): set<K> {
    set i | 0 <= i < |m| :: m[i].0
  }

  function KeySeq<K(==), V>(m: OMap<K, V>): (ks: seq<K>)
    ensures |ks| == |m| && forall i :: 0 <= i < |m| ==> ks[i] == m[i].0
  {
    if m == [] then [] else [m[0].0] + KeySeq(m[1..])
  }

  /** Position of the first entry for k, or -1. */
  function Find<K(==), V>(m: OMap<K, V>, k: K): (i: int)
    ensures -1 <= i < |m|
    ensures i >= 0 ==> m[i].0 == k
    ensures forall j :: 0 <= j < |m| && (i == -1 || j < i) ==> m[j].0 != k
  {
    if m == [] then -1
    else if m[0].0 == k then 0
    else var r := Find(m[1..], k); if r == -1 then -1 else r + 1
  }

  /** Map.get: the value stored for k, None for an absent key. */
  function Get<K(==), V>(m: OMap<K, V>, k: K): (r: Option<V>)
    ensures r.Some? <==> k in KeySet(m)
  {
    var i := Find(m, k);
    if i < 0 then None else Some(m[i].1)
  }

  /** Map.put. */
  function Put<K(==), V>(m: OMap<K, V>, k: K, v: V): (r: OMap<K, V>)
    ensures KeySet(r) == KeySet(m) + {k}
    ensures k in KeySet(m) ==> |r| == |m| && KeySeq(r) == KeySeq(m)
    ensures k !in KeySet(m) ==> r == m + [(k, v)]
    ensures DistinctKeys(m) ==> DistinctKeys(r)
  {
    var i := Find(m, k);
    if i < 0 then
      var r := m + [(k, v)];
      assert KeySet(r) == KeySet(m) + {k} by {
        forall x | x in KeySet(r) ensures x in KeySet(m) + {k} {
          var j :| 0 <= j < |r| && r[j].0 == x;
          if j < |m| { assert m[j].0 == x; }
        }
        forall x | x in KeySet(m) ensures x in KeySet(r) {
          var j :| 0 <= j < |m| && m[j].0 == x;
          assert r[j].0 == x;
        }
        assert r[|m|].0 == k;
      }
      r
    else
      var r := m[i := (k, v)];
      assert KeySeq(r) == KeySeq(m);
      assert KeySet(r) == KeySet(m) by {
        forall x | x in KeySet(m) ensures x in KeySet(r) {
          var j :| 0 <= j < |m| && m[j].0 == x;
          assert r[j].0 == x;
        }
      }
      r
  }

  /** get after put: the key just put holds the new value; every other key is unaffected. */
  lemma GetPut<K, V>(m: OMap<K, V>, k: K, v: V, k': K)
    ensures Get(Put(m, k, v), k') == if k' == k then Some(v) else Get(m, k')
  {
    var r := Put(m, k, v);
    var i := Find(m, k);
    if i < 0 {
      if k' == k { FindIsFirst(r, k, |m|); } else { FindAppend(m, k', k, v); }
    } else {
      if k' == k {
        FindIsFirst(r, k, i);
      } else {
        FindSameKeys(m, r, k');
        var j := Find(m, k');
        assert j >= 0 ==> j != i;
      }
    }
  }

  lemma FindIsFirst<K, V>(m: OMap<K, V>, k: K, p: int)
    requires 0 <= p < |m| && m[p].0 == k
    requires forall j :: 0 <= j < p ==> m[j].0 != k
    ensures Find(m, k) == p
  {
  }

  lemma {:induction false} FindSameKeys<K, V>(m: OMap<K, V>, r: OMap<K, V>, k: K)
    requires |m| == |r| && forall j :: 0 <= j < |m| ==> m[j].0 == r[j].0
    ensures Find(m, k) == Find(r, k)
  {
    if m != [] {
      FindSameKeys(m[1..], r[1..], k);
    }
  }

  lemma {:induction false} FindAppend<K, V>(m: OMap<K, V>, k': K, k: K, v: V)
    requires k' != k
    ensures Find(m + [(k, v)], k') == Find(m, k')
  {
    if m != [] {
      assert (m + [(k, v)])[1..] == m[1..] + [(k, v)];
      FindAppend(m[1..], k', k, v);
    }
  }

  /** Puts every entry of src into m, in src's order (a forEach of put calls). */
  function PutAll<K(==), V>(m: OMap<K, V>, src: OMap<K, V>): (r: OMap<K, V>)
    decreases |src|
  {
    if src == [] then m else PutAll(Put(m, src[0].0, src[0].1), src[1..])
  }

  /** After PutAll, a key holds the value of its last entry in src, or its old value. */
  lemma {:induction false} PutAllGet<K, V>(m: OMap<K, V>, src: OMap<K, V>, k: K)
    ensures Get(PutAll(m, src), k) == (if k in KeySet(src) then Some(LastValue(src, k)) else Get(m, k))
    ensures KeySet(PutAll(m, src)) == KeySet(m) + KeySet(src)
    decreases |src|
  {
    if src != [] {
      var m' := Put(m, src[0].0, src[0].1);
      PutAllGet(m', src[1..], k);
      GetPut(m, src[0].0, src[0].1, k);
      KeySetCons(src);
    }
  }

  lemma KeySetCons<K, V>(src: OMap<K, V>)
    requires src != []
    ensures KeySet(src) == {src[0].0} + KeySet(src[1..])
  {
    forall x | x in KeySet(src) ensures x in {src[0].0} + KeySet(src[1..]) {
      var j :| 0 <= j < |src| && src[j].0 == x;
      if j > 0 { assert src[1..][j - 1].0 == x; }
    }
    forall x | x in KeySet(src[1..]) ensures x in KeySet(src) {
      var j :| 0 <= j < |src[1..]| && src[1..][j].0 == x;
      assert src[j + 1].0 == x;
    }
  }

  /** The value of the last entry for k in src. */
  function LastValue<K(==), V>(src: OMap<K, V>, k: K): V
    requires k in KeySet(src)
    decreases |src|
  {
    KeySetCons(src);
    if k in KeySet(src[1..]) then LastValue(src[1..], k) else src[0].1
  }

  /** The entry LastValue picks is the last one for k: no later entry has key k. */
  lemma {:induction false} LastValueIsLast<K, V>(src: OMap<K, V>, k: K)
    requires k in KeySet(src)
    ensures exists i :: 0 <= i < |src| && src[i] == (k, LastValue(src, k))
                        && forall j :: i < j < |src| ==> src[j].0 != k
    decreases |src|
  {
    KeySetCons(src);
    if k in KeySet(src[1..]) {
      LastValueIsLast(src[1..], k);
      var i' :| 0 <= i' < |src[1..]| && src[1..][i'] == (k, LastValue(src[1..], k))
                && forall j :: i' < j < |src[1..]| ==> src[1..][j].0 != k;
      var i := i' + 1;
      forall j | i < j < |src| ensures src[j].0 != k {
        assert src[j] == src[1..][j - 1];
      }
      assert src[i] == (k, LastValue(src, k));
    } else {
      forall j | 0 < j < |src| ensures src[j].0 != k {
        assert src[1..][j - 1] == src[j];
      }
      assert src[0] == (k, LastValue(src, k));
    }
  }

  /** PutAll keeps the keys distinct. */
  lemma {:induction false} PutAllDistinct<K, V>(m: OMap<K, V>, src: OMap<K, V>)
    requires DistinctKeys(m)
    ensures DistinctKeys(PutAll(m, src))
    decreases |src|
  {
    if src != [] {
      PutAllDistinct(Put(m, src[0].0, src[0].1), src[1..]);
    }
  }

  /** Putting entries whose keys are distinct and new appends them in order. */
  lemma {:induction false} PutAllFresh<K, V>(m: OMap<K, V>, src: OMap<K, V>)
    requires DistinctKeys(src)
    requires forall i :: 0 <= i < |src| ==> src[i].0 !in KeySet(m)
    ensures PutAll(m, src) == m + src
    decreases |src|
  {
    if src != [] {
      var m' := m + [src[0]];
      var rest := src[1..];
      assert Put(m, src[0].0, src[0].1) == m' && DistinctKeys(rest) &&
             forall i :: 0 <= i < |rest| ==> rest[i].0 !in KeySet(m') by {
        FreshTail(m, src);
      }
      assert PutAll(m, src) == PutAll(m', rest);
      PutAllFresh(m', rest);
      AppendFirst(m, src);
    }
  }

  lemma FreshTail<K, V>(m: OMap<K, V>, src: OMap<K, V>)
    requires src != [] && DistinctKeys(src)
    requires forall i :: 0 <= i < |src| ==> src[i].0 !in KeySet(m)
    ensures Put(m, src[0].0, src[0].1) == m + [src[0]]
    ensures DistinctKeys(src[1..])
    ensures forall i :: 0 <= i < |src| - 1 ==> src[1..][i].0 !in KeySet(m + [src[0]])
  {
    var rest := src[1..];
    var m' := m + [src[0]];
    assert KeySet(m') == KeySet(m) + {src[0].0} by {
      forall x | x in KeySet(m') ensures x in KeySet(m) + {src[0].0} {
        var j :| 0 <= j < |m'| && m'[j].0 == x;
        if j < |m| { assert m[j].0 == x; }
      }
      forall x | x in KeySet(m) ensures x in KeySet(m') {
        var j :| 0 <= j < |m| && m[j].0 == x;
        assert m'[j].0 == x;
      }
      assert m'[|m|].0 == src[0].0;
    }
    forall i, j | 0 <= i < j < |rest| ensures rest[i].0 != rest[j].0 {
      assert rest[i] == src[i + 1] && rest[j] == src[j + 1];
    }
    forall i | 0 <= i < |rest| ensures rest[i].0 !in KeySet(m') {
      assert rest[i] == src[i + 1];
      assert src[0].0 != src[i + 1].0;
    }
  }

  /** No key of src repeats and none is already in m. */
  predicate Fresh<K(==), V>(m: OMap<K, V>, src: OMap<K, V>) {
    DistinctKeys(src) && forall i :: 0 <= i < |src| ==> src[i].0 !in KeySet(m)
  }

  /** A forEach of put calls that also records, in order, each key whose put replaced a
      value already present. */
  function PutTracking<K(==), V>(m: OMap<K, V>, dups: seq<K>, src: OMap<K, V>): (OMap<K, V>, seq<K>)
    decreases |src|
  {
    if src == [] then (m, dups)
    else
      var k := src[0].0;
      PutTracking(Put(m, k, src[0].1), if k in KeySet(m) then dups + [k] else dups, src[1..])
  }

  /** The tracked puts leave the same map as PutAll, extend the record, and record nothing
      exactly when the keys are fresh. */
  lemma {:induction false} PutTrackingShape<K, V>(m: OMap<K, V>, dups: seq<K>, src: OMap<K, V>)
    ensures PutTracking(m, dups, src).0 == PutAll(m, src)
    ensures var d := PutTracking(m, dups, src).1;
            |dups| <= |d| && d[..|dups|] == dups && (|d| == |dups| <==> Fresh(m, src))
    decreases |src|
  {
    if src != [] {
      var k := src[0].0;
      var m' := Put(m, k, src[0].1);
      var dups' := if k in KeySet(m) then dups + [k] else dups;
      PutTrackingShape(m', dups', src[1..]);
      FreshStep(m, src);
      var d := PutTracking(m, dups, src).1;
      assert d == PutTracking(m', dups', src[1..]).1;
      assert d[..|dups|] == dups by {
        assert d[..|dups'|][..|dups|] == dups'[..|dups|];
      }
    }
  }
  /** The record of PutTracking read off the keys alone: known is the key set so far. */
  function TrackKeys<K(==)>(known: set<K>, dups: seq<K>, keys: seq<K>): seq<K>
    decreases |keys|
  {
    if keys == [] then dups
    else TrackKeys(known + {keys[0]}, if keys[0] in known then dups + [keys[0]] else dups, keys[1..])
  }

  lemma {:induction false} TrackingIsTrackKeys<K, V>(m: OMap<K, V>, dups: seq<K>, src: OMap<K, V>)
    ensures PutTracking(m, dups, src).1 == TrackKeys(KeySet(m), dups, KeySeq(src))
    decreases |src|
  {
    if src != [] {
      var k := src[0].0;
      var m' := Put(m, k, src[0].1);
      var dups' := if k in KeySet(m) then dups + [k] else dups;
      TrackingIsTrackKeys(m', dups', src[1..]);
      assert KeySeq(src)[0] == k && KeySeq(src)[1..] == KeySeq(src[1..]);
    }
  }

  /** TrackKeys only appends: every key already recorded stays recorded. */
  lemma {:induction false} TrackKeysKeeps<K>(known: set<K>, dups: seq<K>, keys: seq<K>)
    ensures forall t :: 0 <= t < |dups| ==> dups[t] in TrackKeys(known, dups, keys)
    decreases |keys|
  {
    if keys != [] {
      var dups' := if keys[0] in known then dups + [keys[0]] else dups;
      TrackKeysKeeps(known + {keys[0]}, dups', keys[1..]);
      assert forall t :: 0 <= t < |dups| ==> dups[t] == dups'[t];
    }
  }

  /** A key that is already known, or that repeats an earlier key of the list, is recorded. */
  lemma {:induction false} TrackKeysRepeat<K>(known: set<K>, dups: seq<K>, keys: seq<K>, i: nat, j: nat)
    requires j < |keys|
    requires keys[j] in known || (i < j && keys[i] == keys[j])
    ensures keys[j] in TrackKeys(known, dups, keys)
    decreases |keys|
  {
    var k := keys[0];
    var dups' := if k in known then dups + [k] else dups;
    var rest := keys[1..];
    if j == 0 {
      TrackKeysKeeps(known + {k}, dups', rest);
      assert dups'[|dups|] == k;
    } else if keys[j] in known || i == 0 {
      assert rest[j - 1] == keys[j];
      TrackKeysRepeat(known + {k}, dups', rest, 0, j - 1);
    } else {
      assert rest[j - 1] == keys[j] && rest[i - 1] == keys[i];
      TrackKeysRepeat(known + {k}, dups', rest, i - 1, j - 1);
    }
  }

  /** A put whose key m already holds, or an earlier entry i of src carried, is recorded. */
  lemma TrackingReportsRepeat<K, V>(m: OMap<K, V>, dups: seq<K>, src: OMap<K, V>, i: nat, j: nat)
    requires j < |src|
    requires src[j].0 in KeySet(m) || (i < j && src[i].0 == src[j].0)
    ensures src[j].0 in PutTracking(m, dups, src).1
  {
    TrackingIsTrackKeys(m, dups, src);
    TrackKeysRepeat(KeySet(m), dups, KeySeq(src), i, j);
  }

  /** From an empty map, no key is reported exactly when the keys are distinct, and the map
      is then the entries themselves. */
  lemma TrackingFromEmpty<K, V>(src: OMap<K, V>)
    ensures PutTracking([], [], src).1 == [] <==> DistinctKeys(src)
    ensures DistinctKeys(src) ==> PutTracking([], [], src).0 == src
  {
    PutTrackingShape([], [], src);
    if DistinctKeys(src) {
      assert Fresh([], src);
      PutAllFresh([], src);
      assert [] + src == src;
    }
  }


  /** Fresh splits into the first key and the rest. */
  lemma FreshStep<K, V>(m: OMap<K, V>, src: OMap<K, V>)
    requires src != []
    ensures Fresh(m, src) <==>
            src[0].0 !in KeySet(m) && Fresh(Put(m, src[0].0, src[0].1), src[1..])
  {
    var rest := src[1..];
    var m' := Put(m, src[0].0, src[0].1);
    assert forall i :: 0 <= i < |rest| ==> rest[i] == src[i + 1];
    if Fresh(m, src) {
      forall i | 0 <= i < |rest| ensures rest[i].0 !in KeySet(m') {
        assert src[0].0 != src[i + 1].0;
      }
    }
    if src[0].0 !in KeySet(m) && Fresh(m', rest) {
      forall i, j | 0 <= i < j < |src| ensures src[i].0 != src[j].0 {
        if i > 0 { assert rest[i - 1].0 != rest[j - 1].0; }
        else { assert rest[j - 1].0 !in KeySet(m'); }
      }
      forall i | 0 <= i < |src| ensures src[i].0 !in KeySet(m) {
        if i > 0 { assert rest[i - 1].0 !in KeySet(m'); }
      }
    }
  }

  /** Tracked puts of a concatenation run the second part from where the first left off. */
  lemma {:induction false} PutTrackingAppend<K, V>(m: OMap<K, V>, dups: seq<K>, a: OMap<K, V>, b: OMap<K, V>)
    ensures PutTracking(m, dups, a + b)
            == PutTracking(PutTracking(m, dups, a).0, PutTracking(m, dups, a).1, b)
    decreases |a|
  {
    if a != [] {
      var k := a[0].0;
      assert (a + b)[0] == a[0] && (a + b)[1..] == a[1..] + b;
      PutTrackingAppend(Put(m, k, a[0].1), if k in KeySet(m) then dups + [k] else dups, a[1..], b);
    } else {
      assert a + b == b;
    }
  }
}
