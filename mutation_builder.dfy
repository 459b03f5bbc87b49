/** graphql.graphql.GraphQLMutationBuilder: the create and composition-update mutations, and the
    rendering of an attribute map as GraphQL input fields. Double.valueOf, which isNumeric calls,
    is a parameter: `doubleParses` says whether a text parses as a double. */
module MutationBuilder {
  import opened Wrappers
  import opened Strings
  import opened Decimals
  import opened OrderedMaps
  import opened Constants

  /** isNumeric: false for "", otherwise whether Double.valueOf accepts the text. */
  predicate IsNumeric(s: string, doubleParses: string -> bool) {
    s != [] && doubleParses(s)
  }

  /** A value with its `"` escaped as `\"`; nothing else is escaped. */
  function EscapeQuotes(v: string): string {
    ReplaceChar(v, '"', "\\\"")
  }

  /** Reads `\"` back as `"`, left to right; every other character stands for itself. */
  function UnescapeQuotes(t: string): string
    decreases |t|
  {
    if |t| >= 2 && t[0] == '\\' && t[1] == '"' then "\"" + UnescapeQuotes(t[2..])
    else if t == [] then []
    else [t[0]] + UnescapeQuotes(t[1..])
  }

  /** The text a value becomes once lower-cased with every "()" removed. */
  function BooleanText(v: string): string {
    ToLower(RemoveAll(v, "()"))
  }

  /** One `name: value` field of formatAttributes, for a kept (non-blank) value: a boolean bare
      and lower-case; a number canonical (see NumberField); anything else quoted with `"`
      escaped. A number Double.valueOf accepts but BigDecimal rejects throws. */
  function FormatEntry(name: string, value: string, doubleParses: string -> bool): Result<string> {
    var v := Trim(value);
    var valBool := BooleanText(v);
    if valBool == "true" || valBool == "false" then Ok(name + ": " + valBool)
    else if IsNumeric(v, doubleParses) then
      var d :- Parse(v);
      Ok(NumberField(name, d))
    else Ok(name + ": \"" + EscapeQuotes(v) + "\"")
  }

  /** The field of a number: its stripped plain text, quoted when that text has a point or the
      name holds the real prefix. */
  function NumberField(name: string, d: Decimal): string {
    var plain := ToPlainString(StripTrailingZeros(d));
    if '.' in plain || ContainsString(name, RealPrefix) then name + ": \"" + plain + "\"" else name + ": " + plain
  }

  /** The entries whose value is not blank, in map order. */
  function Kept(attrs: OMap<string, string>): (r: OMap<string, string>)
    ensures forall i :: 0 <= i < |r| ==> !IsBlank(r[i].1)
    ensures |r| <= |attrs|
  {
    if attrs == [] then []
    else (if IsBlank(attrs[0].1) then [] else [attrs[0]]) + Kept(attrs[1..])
  }

  /** The values of the results, in order, or the failure of the first that failed. */
  function AllFields(fs: seq<Result<string>>): (r: Result<seq<string>>)
    ensures r.Ok? <==> forall i :: 0 <= i < |fs| ==> fs[i].Ok?
    ensures r.Ok? ==> |r.value| == |fs| && forall i :: 0 <= i < |fs| ==> r.value[i] == fs[i].value
    ensures r.Err? ==> exists i :: 0 <= i < |fs| && fs[i] == Err(r.failure) && forall j :: 0 <= j < i ==> fs[j].Ok?
  {
    if fs == [] then Ok([])
    else if fs[0].Err? then Err(fs[0].failure)
    else
      var rest := AllFields(fs[1..]);
      assert forall i :: 1 <= i < |fs| ==> fs[i] == fs[1..][i - 1];
      if rest.Err? then
        var k :| 0 <= k < |fs| - 1 && fs[1..][k] == Err(rest.failure) && forall j :: 0 <= j < k ==> fs[1..][j].Ok?;
        assert fs[k + 1] == Err(rest.failure);
        Err(rest.failure)
      else Ok([fs[0].value] + rest.value)
  }

  /** The field of each entry, in order, each one either its text or the failure it throws. */
  function Fields(es: OMap<string, string>, doubleParses: string -> bool): (fs: seq<Result<string>>)
    ensures |fs| == |es|
    ensures forall i :: 0 <= i < |es| ==> fs[i] == FormatEntry(es[i].0, es[i].1, doubleParses)
  {
    seq(|es|, i requires 0 <= i < |es| => FormatEntry(es[i].0, es[i].1, doubleParses))
  }

  /** formatAttributes: the fields of the non-blank entries joined with ", ", then every
      occurrence of the real prefix removed from the whole text. */
  function FormatAttributes(attrs: OMap<string, string>, doubleParses: string -> bool): Result<string> {
    var parts :- AllFields(Fields(Kept(attrs), doubleParses));
    Ok(RemoveAll(Join(parts, ", "), RealPrefix))
  }

  const MutationOpen: string := "mutation { "
  const DataOpen: string := "(data: { "
  const MutationClose: string := " }) { _id } }"

  /** The frame every mutation the importer sends shares: an operation applied to a data
      object, asking for the `_id` of the result. */
  function Frame(op: string, data: string): string {
    MutationOpen + op + DataOpen + data + MutationClose
  }

  /** Reads a mutation back into its operation, the text up to the first `(`, and the contents
      of its data object; None when the text is not framed that way. */
  function Unframe(t: string): Option<(string, string)> {
    if |t| < |MutationOpen| + |MutationClose| || t[..|MutationOpen|] != MutationOpen
       || t[|t| - |MutationClose|..] != MutationClose then None
    else
      var body := t[|MutationOpen|..|t| - |MutationClose|];
      var i := IndexOfFrom(body, '(', 0);
      if i < 0 || |body| < i + |DataOpen| || body[i..i + |DataOpen|] != DataOpen then None
      else Some((body[..i], body[i + |DataOpen|..]))
  }

  /** buildCreateMutation: the create operation of the object, with the formatted attributes as
      its data. */
  function BuildCreateMutation(obj: string, attrs: OMap<string, string>, doubleParses: string -> bool): (r: Result<string>)
    ensures r.Ok? <==> FormatAttributes(attrs, doubleParses).Ok?
    ensures r.Ok? ==> r.value == Frame(obj + "___create", FormatAttributes(attrs, doubleParses).value)
  {
    var input :- FormatAttributes(attrs, doubleParses);
    Ok(Frame(obj + "___create", input))
  }

  /** The data of a composition update: the parent's identifier, then the composed object
      created under the composition name. */
  function UpdateData(idAttr: string, idValue: string, composition: string, input: string): string {
    (idAttr + ": " + idValue + " , ") + (composition + ": { create: { " + input + " } }")
  }

  /** buildCompositionUpdateMutation: the parent identifier value is embedded as given, and the
      composed object is created under the composition name. */
  function BuildCompositionUpdateMutation(parent: string, idAttr: string, idValue: string, composition: string,
                                          attrs: OMap<string, string>, doubleParses: string -> bool): (r: Result<string>)
    ensures r.Ok? <==> FormatAttributes(attrs, doubleParses).Ok?
    ensures r.Ok? ==> r.value == Frame(parent + GraphQLUpdateSuffix,
                                       UpdateData(idAttr, idValue, composition, FormatAttributes(attrs, doubleParses).value))
  {
    var input :- FormatAttributes(attrs, doubleParses);
    Ok(Frame(parent + GraphQLUpdateSuffix, UpdateData(idAttr, idValue, composition, input)))
  }

  /** Unframe inverts Frame for every operation name without `(`. */
  lemma UnframeFrame(op: string, data: string)
    requires '(' !in op
    ensures Unframe(Frame(op, data)) == Some((op, data))
  {
    var t := Frame(op, data);
    assert t == MutationOpen + (op + DataOpen + data) + MutationClose;
    var body := t[|MutationOpen|..|t| - |MutationClose|];
    assert body == op + DataOpen + data;
    assert body[|op|] == '(';
    IndexFirst(body, '(', 0, |op|);
    assert body[..|op|] == op;
    assert body[|op|..|op| + |DataOpen|] == DataOpen;
    assert body[|op| + |DataOpen|..] == data;
  }

  /** Whatever Unframe reads back, framed again, is the text it read. */
  lemma FrameUnframe(t: string)
    requires Unframe(t).Some?
    ensures Frame(Unframe(t).value.0, Unframe(t).value.1) == t
  {
    var body := t[|MutationOpen|..|t| - |MutationClose|];
    var i := IndexOfFrom(body, '(', 0);
    var op, data := body[..i], body[i + |DataOpen|..];
    assert body == op + DataOpen + data;
    assert t == MutationOpen + body + MutationClose;
    assert Frame(op, data) == MutationOpen + (op + DataOpen + data) + MutationClose;
  }

  /** A create mutation reads back as the create operation of its object and the formatted
      attributes. */
  lemma CreateReadsBack(obj: string, attrs: OMap<string, string>, doubleParses: string -> bool)
    requires '(' !in obj && BuildCreateMutation(obj, attrs, doubleParses).Ok?
    ensures Unframe(BuildCreateMutation(obj, attrs, doubleParses).value) ==
            Some((obj + "___create", FormatAttributes(attrs, doubleParses).value))
  {
    UnframeFrame(obj + "___create", FormatAttributes(attrs, doubleParses).value);
  }

  /** A composition update mutation reads back as the update operation of the parent class, with
      the parent's identifier first and the composed object created from the formatted
      attributes last. */
  lemma CompositionUpdateReadsBack(parent: string, idAttr: string, idValue: string, composition: string,
                                   attrs: OMap<string, string>, doubleParses: string -> bool)
    requires '(' !in parent && BuildCompositionUpdateMutation(parent, idAttr, idValue, composition, attrs, doubleParses).Ok?
    ensures var data := Unframe(BuildCompositionUpdateMutation(parent, idAttr, idValue, composition, attrs, doubleParses).value);
            var input := FormatAttributes(attrs, doubleParses).value;
            data.Some? && data.value.0 == parent + GraphQLUpdateSuffix &&
            StartsWith(data.value.1, idAttr + ": " + idValue + " , ") &&
            EndsWith(data.value.1, composition + ": { create: { " + input + " } }")
  {
    var input := FormatAttributes(attrs, doubleParses).value;
    assert '(' !in GraphQLUpdateSuffix;
    UnframeFrame(parent + GraphQLUpdateSuffix, UpdateData(idAttr, idValue, composition, input));
    var head := idAttr + ": " + idValue + " , ";
    var tail := composition + ": { create: { " + input + " } }";
    var data := head + tail;
    assert data[..|head|] == head;
    assert data[|data| - |tail|..] == tail;
  }

  /** Blank values take no part: formatting the map equals formatting its non-blank entries, and
      a map of blank values formats as "". */
  lemma BlankEntriesIgnored(attrs: OMap<string, string>, doubleParses: string -> bool)
    ensures FormatAttributes(Kept(attrs), doubleParses) == FormatAttributes(attrs, doubleParses)
    ensures (forall i :: 0 <= i < |attrs| ==> IsBlank(attrs[i].1)) ==> FormatAttributes(attrs, doubleParses) == Ok("")
  {
    KeptIdempotent(attrs);
    if forall i :: 0 <= i < |attrs| ==> IsBlank(attrs[i].1) {
      KeptAllBlank(attrs);
    }
  }

  lemma {:induction false} KeptAllBlank(attrs: OMap<string, string>)
    requires forall i :: 0 <= i < |attrs| ==> IsBlank(attrs[i].1)
    ensures Kept(attrs) == []
  {
    if attrs != [] {
      assert forall i :: 0 <= i < |attrs| - 1 ==> attrs[1..][i] == attrs[i + 1];
      KeptAllBlank(attrs[1..]);
    }
  }

  lemma {:induction false} KeptIdempotent(attrs: OMap<string, string>)
    ensures Kept(Kept(attrs)) == Kept(attrs)
  {
    if attrs != [] {
      var k1 := Kept(attrs[1..]);
      KeptIdempotent(attrs[1..]);
      if IsBlank(attrs[0].1) {
        assert Kept(attrs) == k1;
      } else {
        var k := [attrs[0]] + k1;
        assert Kept(attrs) == k;
        assert k[0] == attrs[0] && k[1..] == k1;
        assert Kept(k) == [attrs[0]] + Kept(k1);
      }
    }
  }

  /** n copies of "()". */
  function Parens(n: nat): (t: string)
    ensures |t| == 2 * n
  {
    if n == 0 then [] else "()" + Parens(n - 1)
  }

  /** Every spelling of true or false, in any letter case and followed by any number of "()",
      is emitted bare and lower-case ("TRUE()" becomes `name: true`). */
  lemma BooleanIsBare(name: string, w: string, n: nat, doubleParses: string -> bool)
    requires ToLower(w) == "true" || ToLower(w) == "false"
    ensures FormatEntry(name, w + Parens(n), doubleParses) == Ok(name + ": " + ToLower(w))
  {
    var v := w + Parens(n);
    BooleanWordEnds(w);
    assert v[0] == w[0];
    PaddedLast(w, n);
    TrimUnpadded(v);
    RemoveAllKeeps(w, Parens(n));
    RemoveAllParens(n);
    assert w + [] == w;
  }

  /** A spelling of true or false holds no '(' and starts and ends with a letter. */
  lemma BooleanWordEnds(w: string)
    requires ToLower(w) == "true" || ToLower(w) == "false"
    ensures '(' !in w && w != []
    ensures ToLowerChar(w[0]) == ToLower(w)[0] && ToLowerChar(w[|w| - 1]) == ToLower(w)[|w| - 1]
  {
    var t := ToLower(w);
    NoParenInBooleans(t);
    forall k | 0 <= k < |w| ensures w[k] != '(' {
      assert t[k] in t && t[k] == ToLowerChar(w[k]);
    }
  }

  lemma NoParenInBooleans(t: string)
    requires t == "true" || t == "false"
    ensures '(' !in t
  {
    if t == "true" {
      assert t == ['t', 'r', 'u', 'e'];
    } else {
      assert t == ['f', 'a', 'l', 's', 'e'];
    }
  }

  /** The last character of a word followed by n "()": the word's own when n is 0, else ')'. */
  lemma PaddedLast(w: string, n: nat)
    requires w != []
    ensures (w + Parens(n))[|w + Parens(n)| - 1] == (if n == 0 then w[|w| - 1] else ')')
  {
    var v := w + Parens(n);
    if n == 0 {
      assert v == w;
    } else {
      assert Parens(n) == "()" + Parens(n - 1);
      assert v[|v| - 1] == Parens(n)[2 * n - 1];
      ParensLast(n);
    }
  }

  lemma ParensLast(n: nat)
    requires n > 0
    ensures Parens(n)[2 * n - 1] == ')'
  {
    if n > 1 {
      ParensLast(n - 1);
      assert Parens(n)[2 * n - 1] == Parens(n - 1)[2 * n - 3];
    }
  }

  lemma TrimUnpadded(s: string)
    requires s != [] && !IsTrimmable(s[0]) && !IsTrimmable(s[|s| - 1])
    ensures Trim(s) == s
  {
    assert LeadingTrimmable(s) == 0;
    assert s[0..] == s;
  }

  /** Removing "()" leaves a prefix without `(` as it is. */
  lemma {:induction false} RemoveAllKeeps(w: string, rest: string)
    requires '(' !in w
    ensures RemoveAll(w + rest, "()") == w + RemoveAll(rest, "()")
  {
    if w != [] {
      var s := w + rest;
      assert s[0] == w[0] && s[1..] == w[1..] + rest;
      if |s| >= 2 {
        assert s[..2][0] != '(';
      }
      RemoveAllKeeps(w[1..], rest);
      assert w == [w[0]] + w[1..];
    } else {
      assert w + rest == rest;
    }
  }

  /** Removing "()" from copies of "()" leaves nothing. */
  lemma {:induction false} RemoveAllParens(n: nat)
    ensures RemoveAll(Parens(n), "()") == []
  {
    if n > 0 {
      var s := Parens(n);
      assert s[..2] == "()" && s[2..] == Parens(n - 1);
      RemoveAllParens(n - 1);
    }
  }

  /** The example of the class: "TRUE()" is emitted as `name: true`. */
  lemma BooleanExample(name: string, doubleParses: string -> bool)
    ensures FormatEntry(name, "TRUE()", doubleParses) == Ok(name + ": true")
  {
    var l := ToLower("TRUE");
    assert l[0] == 't' && l[1] == 'r' && l[2] == 'u' && l[3] == 'e';
    assert l == "true";
    assert Parens(1) == "()" + Parens(0) == "()";
    assert "TRUE" + Parens(1) == "TRUE()";
    BooleanIsBare(name, "TRUE", 1, doubleParses);
    assert name + ": " + l == name + ": true";
  }

  /** A number is canonicalised by stripping trailing zeros and is quoted exactly when the
      canonical text has a point or the attribute name holds the real prefix; a whole number under
      a plain name is bare and has no point. */
  lemma NumberQuoting(name: string, d: Decimal)
    ensures var plain := ToPlainString(StripTrailingZeros(d));
            (NumberField(name, d) == name + ": \"" + plain + "\"" <==>
               StripTrailingZeros(d).scale > 0 || ContainsString(name, RealPrefix)) &&
            (IsWhole(d) && !ContainsString(name, RealPrefix) ==> NumberField(name, d) == name + ": " + plain && '.' !in plain)
  {
    var plain := ToPlainString(StripTrailingZeros(d));
    if IsWhole(d) { WholeStripsToInteger(d); }
    assert |name + ": \"" + plain + "\""| != |name + ": " + plain|;
  }

  /** A value text that throws in BigDecimal after Double.valueOf accepted it fails the whole map. */
  lemma UnparsableNumberThrows(name: string, value: string, doubleParses: string -> bool)
    requires var v := Trim(value); BooleanText(v) != "true" && BooleanText(v) != "false" && IsNumeric(v, doubleParses)
    requires Parse(Trim(value)).Err? && !IsBlank(value)
    ensures FormatEntry(name, value, doubleParses) == Err(NumberFormat(Trim(value)))
    ensures FormatAttributes([(name, value)], doubleParses) == Err(NumberFormat(Trim(value)))
  {
    assert Kept([(name, value)]) == [(name, value)];
  }

  /** Escaping only quotes leaves no bare `"` in the text, and reading `\"` back as `"` restores
      the value: the quoted literal ends where the value ends. */
  lemma {:induction false} EscapeQuotesRoundTrip(v: string)
    ensures UnescapeQuotes(EscapeQuotes(v)) == v
    ensures forall i :: 0 <= i < |EscapeQuotes(v)| && EscapeQuotes(v)[i] == '"' ==> i > 0 && EscapeQuotes(v)[i - 1] == '\\'
    decreases |v|
  {
    if v != [] {
      var rest := EscapeQuotes(v[1..]);
      EscapeQuotesRoundTrip(v[1..]);
      assert rest != [] ==> rest[0] != '"';
      var e := EscapeQuotes(v);
      if v[0] == '"' {
        assert e == "\\\"" + rest;
        assert e[2..] == rest;
        forall i | 0 <= i < |e| && e[i] == '"' ensures i > 0 && e[i - 1] == '\\' {
          if i >= 2 { assert e[i] == rest[i - 2]; assert e[i - 1] == if i == 2 then '"' else rest[i - 3]; }
        }
      } else {
        assert e == [v[0]] + rest;
        assert e[1..] == rest;
        assert !(|e| >= 2 && e[0] == '\\' && e[1] == '"');
        forall i | 0 <= i < |e| && e[i] == '"' ensures i > 0 && e[i - 1] == '\\' {
          if i >= 1 { assert e[i] == rest[i - 1]; assert i - 1 > 0 && rest[i - 2] == '\\'; }
        }
      }
    }
  }
}
