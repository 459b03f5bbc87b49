/** The java.lang.String operations the importer relies on, over seq<char>. */
module Strings {
  import opened Wrappers

  predicate StartsWith(s: string, prefix: string) {
    |prefix| <= |s| && s[..|prefix|] == prefix
  }

  predicate EndsWith(s: string, suffix: string) {
    |suffix| <= |s| && s[|s| - |suffix|..] == suffix
  }

  /** Number of occurrences of c in s. */
  function Count(s: string, c: char): nat {
    if s == [] then 0 else (if s[0] == c then 1 else 0) + Count(s[1..], c)
  }

  lemma {:induction false} CountZero(s: string, c: char)
    ensures Count(s, c) == 0 <==> c !in s
  {
    if s != [] {
      CountZero(s[1..], c);
      assert s == [s[0]] + s[1..];
    }
  }

  lemma {:induction false} CountAppend(a: string, b: string, c: char)
    ensures Count(a + b, c) == Count(a, c) + Count(b, c)
  {
    if a == [] {
      assert a + b == b;
    } else {
      assert (a + b)[1..] == a[1..] + b;
      CountAppend(a[1..], b, c);
    }
  }

  /** String.replace(String.valueOf(c), r): every c replaced by r, in one pass. */
  function ReplaceChar(s: string, c: char, r: string): (t: string)
    ensures |t| == |s| + (|r| - 1) * Count(s, c)
  {
    if s == [] then [] else (if s[0] == c then r else [s[0]]) + ReplaceChar(s[1..], c, r)
  }

  lemma {:induction false} ReplaceCharAppend(a: string, b: string, c: char, r: string)
    ensures ReplaceChar(a + b, c, r) == ReplaceChar(a, c, r) + ReplaceChar(b, c, r)
  {
    if a == [] {
      assert a + b == b;
    } else {
      assert (a + b)[0] == a[0];
      assert (a + b)[1..] == a[1..] + b;
      ReplaceCharAppend(a[1..], b, c, r);
    }
  }

  lemma {:induction false} ReplaceCharAbsent(s: string, c: char, r: string)
    requires c !in s
    ensures ReplaceChar(s, c, r) == s
  {
    if s != [] {
      ReplaceCharAbsent(s[1..], c, r);
      assert s == [s[0]] + s[1..];
    }
  }

  /** String.replace(String.valueOf(c), ""): c is gone and every other character is kept. */
  function DeleteChar(s: string, c: char): (t: string) {
    ReplaceChar(s, c, "")
  }

  lemma {:induction false} DeleteCharMembers(s: string, c: char)
    ensures c !in DeleteChar(s, c)
    ensures forall d :: d != c ==> (d in DeleteChar(s, c) <==> d in s)
  {
    if s != [] {
      DeleteCharMembers(s[1..], c);
      assert s == [s[0]] + s[1..];
    }
  }

  /** String.replace(p, "") for a non-empty p: occurrences removed left to right, without rescanning. */
  function RemoveAll(s: string, p: string): (t: string)
    requires |p| > 0
    ensures |t| <= |s|
    decreases |s|
  {
    if |s| < |p| then s
    else if s[..|p|] == p then RemoveAll(s[|p|..], p)
    else [s[0]] + RemoveAll(s[1..], p)
  }

  /** True when p occurs somewhere in s (String.contains). */
  predicate ContainsString(s: string, p: string) {
    exists i :: 0 <= i <= |s| - |p| && OccursAt(s, p, i)
  }

  predicate OccursAt(s: string, p: string, i: int)
    requires 0 <= i <= |s| - |p|
  {
    s[i..i + |p|] == p
  }

  lemma {:induction false} RemoveAllAbsent(s: string, p: string)
    requires |p| > 0
    requires !ContainsString(s, p)
    ensures RemoveAll(s, p) == s
    decreases |s|
  {
    if |s| >= |p| {
      assert s[0..0 + |p|] == s[..|p|];
      assert !OccursAt(s, p, 0);
      forall i | 0 <= i <= |s[1..]| - |p| ensures !OccursAt(s[1..], p, i) {
        assert s[1..][i..i + |p|] == s[i + 1..i + 1 + |p|];
        assert !OccursAt(s, p, i + 1);
      }
      RemoveAllAbsent(s[1..], p);
      assert s == [s[0]] + s[1..];
    }
  }

  /** String.indexOf(c, from): the first position at or after from holding c, or -1. */
  function IndexOfFrom(s: string, c: char, from: nat): (i: int)
    ensures i == -1 || (from <= i < |s| && s[i] == c)
    ensures forall k :: from <= k < |s| && (i == -1 || k < i) ==> s[k] != c
    decreases |s| - from
  {
    if from >= |s| then -1 else if s[from] == c then from else IndexOfFrom(s, c, from + 1)
  }

  /** The `[role]` override shared by both Header versions and ExternalAttribute: the text
      between the first `[` and the next `]`, when that text is not empty. */
  function BracketOverride(t: string): (r: Option<string>)
    ensures r.Some? ==> r.value != [] && ']' !in r.value && exists i ::
      0 <= i && i + |r.value| + 2 <= |t| && t[i] == '[' && '[' !in t[..i]
      && t[i + 1..i + 1 + |r.value|] == r.value && t[i + 1 + |r.value|] == ']'
  {
    if '[' !in t then None
    else
      var start := IndexOfFrom(t, '[', 0) + 1;
      var end := IndexOfFrom(t, ']', start);
      if end > start then
        assert forall k :: 0 <= k < start - 1 ==> t[k] != '[';
        assert forall k :: start <= k < end ==> t[k] != ']';
        Some(t[start..end])
      else None
  }

  /** The converse direction: a header written as pre + "[" + role + "]" + post, with no `[`
      before the role and a non-empty role, yields exactly that role. */
  lemma BracketOverrideOf(pre: string, role: string, post: string)
    requires '[' !in pre && ']' !in role && role != []
    ensures BracketOverride(pre + "[" + role + "]" + post) == Some(role)
  {
    var t := pre + "[" + role + "]" + post;
    assert t[|pre|] == '[';
    assert '[' in t;
    IndexFirst(t, '[', 0, |pre|);
    assert t[|pre| + 1 + |role|] == ']';
    IndexFirst(t, ']', |pre| + 1, |pre| + 1 + |role|);
    assert t[|pre| + 1..|pre| + 1 + |role|] == role;
  }

  /** IndexOfFrom finds position p when s[p] == c and no earlier position from `from` does. */
  lemma {:induction false} IndexFirst(s: string, c: char, from: nat, p: nat)
    requires from <= p < |s| && s[p] == c
    requires forall k :: from <= k < p ==> s[k] != c
    ensures IndexOfFrom(s, c, from) == p
    decreases p - from
  {
    if from < p {
      IndexFirst(s, c, from + 1, p);
    }
  }

  /** Character.toLowerCase, restricted to the ASCII letters. */
  function ToLowerChar(c: char): char {
    if 'A' <= c <= 'Z' then (c as int + 32) as char else c
  }

  function ToLower(s: string): (t: string)
    ensures |t| == |s|
    ensures forall k :: 0 <= k < |s| ==> t[k] == ToLowerChar(s[k])
  {
    if s == [] then [] else [ToLowerChar(s[0])] + ToLower(s[1..])
  }

  /** decapitalize: the first character lower-cased, the rest unchanged, "" kept as "". */
  function Decapitalize(s: string): (t: string)
    ensures |t| == |s|
    ensures s != [] ==> t[0] == ToLowerChar(s[0]) && t[1..] == s[1..]
  {
    if s == [] then s else [ToLowerChar(s[0])] + s[1..]
  }

  /** The characters String.trim removes: everything up to U+0020. */
  predicate IsTrimmable(c: char) { c <= ' ' }

  /** Number of leading characters that trim removes. */
  function LeadingTrimmable(s: string): (k: nat)
    ensures k <= |s| && (k == |s| || !IsTrimmable(s[k]))
    ensures forall j :: 0 <= j < k ==> IsTrimmable(s[j])
  {
    if s != [] && IsTrimmable(s[0]) then 1 + LeadingTrimmable(s[1..]) else 0
  }

  /** Length of s once the trailing characters that trim removes are gone. */
  function TrailingStart(s: string): (k: nat)
    ensures k <= |s| && (k == 0 || !IsTrimmable(s[k - 1]))
    ensures forall j :: k <= j < |s| ==> IsTrimmable(s[j])
  {
    if s != [] && IsTrimmable(s[|s| - 1]) then TrailingStart(s[..|s| - 1]) else |s|
  }

  /** String.trim. */
  function Trim(s: string): string {
    var u := s[LeadingTrimmable(s)..];
    u[..TrailingStart(u)]
  }

  /** Blank: empty, or only characters that trim removes. */
  predicate IsBlank(s: string) {
    Trim(s) == []
  }

  lemma BlankIffAllTrimmable(s: string)
    ensures IsBlank(s) <==> forall j :: 0 <= j < |s| ==> IsTrimmable(s[j])
  {
    var k := LeadingTrimmable(s);
    var u := s[k..];
    if !IsBlank(s) {
      assert k < |s| && !IsTrimmable(s[k]);
    }
  }

  /** Joins parts with a separator (Collectors.joining, Utils.join). */
  function Join(parts: seq<string>, sep: string): (t: string) {
    if parts == [] then []
    else if |parts| == 1 then parts[0]
    else parts[0] + sep + Join(parts[1..], sep)
  }

  /** All the c-separated fields of s, empty ones included: |fields| == Count(s, c) + 1. */
  function SplitAll(s: string, c: char): (fields: seq<string>)
    ensures |fields| == Count(s, c) + 1
    ensures forall k :: 0 <= k < |fields| ==> c !in fields[k]
  {
    if s == [] then [[]]
    else if s[0] == c then [[]] + SplitAll(s[1..], c)
    else
      var rest := SplitAll(s[1..], c);
      [[s[0]] + rest[0]] + rest[1..]
  }

  /** Joining the fields back with c gives the input: SplitAll loses nothing. */
  lemma {:induction false} SplitAllJoin(s: string, c: char)
    ensures Join(SplitAll(s, c), [c]) == s
  {
    if s != [] {
      var rest := SplitAll(s[1..], c);
      SplitAllJoin(s[1..], c);
      if s[0] == c {
        assert SplitAll(s, c) == [[]] + rest;
        assert ([[]] + rest)[1..] == rest;
        assert s == [] + [c] + s[1..];
      } else {
        var f := [[s[0]] + rest[0]] + rest[1..];
        if |rest| == 1 {
          assert s == [s[0]] + s[1..];
        } else {
          assert f[1..] == rest[1..];
          assert Join(rest, [c]) == rest[0] + [c] + Join(rest[1..], [c]);
          assert s == [s[0]] + s[1..];
        }
      }
    }
  }

  /** A field without the separator, followed by the separator, is split off as the first field. */
  lemma {:induction false} SplitAllField(f: string, c: char, rest: string)
    requires c !in f
    ensures SplitAll(f + [c] + rest, c) == [f] + SplitAll(rest, c)
  {
    if f == [] {
      assert f + [c] + rest == [c] + rest;
      assert ([c] + rest)[1..] == rest;
    } else {
      assert (f + [c] + rest)[1..] == f[1..] + [c] + rest;
      SplitAllField(f[1..], c, rest);
      assert f == [f[0]] + f[1..];
    }
  }

  lemma {:induction false} SplitAllNone(f: string, c: char)
    requires c !in f
    ensures SplitAll(f, c) == [f]
  {
    if f != [] {
      SplitAllNone(f[1..], c);
      assert f == [f[0]] + f[1..];
    }
  }

  /** Splitting a run of separators gives only empty fields. */
  lemma {:induction false} SplitSeparatorsOnly(c: char, n: nat)
    ensures forall k :: 0 <= k < |SplitAll(Repeat(c, n), c)| ==> SplitAll(Repeat(c, n), c)[k] == []
  {
    if n > 0 {
      SplitSeparatorsOnly(c, n - 1);
      assert Repeat(c, n) == [] + [c] + Repeat(c, n - 1);
      SplitAllField([], c, Repeat(c, n - 1));
    }
  }

  function DropTrailingEmpty(parts: seq<string>): (r: seq<string>)
    ensures |r| <= |parts| && r == parts[..|r|]
    ensures r == [] || r[|r| - 1] != []
    ensures forall k :: |r| <= k < |parts| ==> parts[k] == []
  {
    if parts == [] then []
    else if parts[|parts| - 1] == [] then DropTrailingEmpty(parts[..|parts| - 1])
    else parts
  }

  /** String.split on a one-character literal separator, limit 0: trailing empty fields are
      dropped, and a string without the separator gives itself as the only field. */
  function JavaSplit(s: string, c: char): seq<string> {
    if c !in s then [s] else DropTrailingEmpty(SplitAll(s, c))
  }

  /** The decimal digits of n, most significant first, without leading zeros. */
  function NatToString(n: nat): (t: string)
    ensures |t| >= 1
    ensures forall k :: 0 <= k < |t| ==> '0' <= t[k] <= '9'
    ensures n > 0 ==> t[0] != '0'
  {
    if n < 10 then [('0' as int + n) as char]
    else NatToString(n / 10) + [('0' as int + n % 10) as char]
  }

  function Repeat(c: char, n: nat): (t: string)
    ensures |t| == n && forall k :: 0 <= k < n ==> t[k] == c
  {
    if n == 0 then [] else [c] + Repeat(c, n - 1)
  }
}
