/** graphql.model.Header: a column header. The constructor removes the `*` markers; a `.`
    makes the header a reference "Class.attr"; a leading `§` forces quotation marks; a
    `[role]` segment overrides the role name a reference is stored under. */
module Headers {
  import opened Wrappers
  import opened Strings
  import opened Constants

  const ForcedQuotationPrefix: string := "§"
  const ExternalReferencePrefix: char := '*'

  /** The text the constructor stores: the raw header with every `*` removed. */
  function StoredText(raw: string): (t: string)
    ensures ExternalReferencePrefix !in t
    ensures forall d :: d != ExternalReferencePrefix ==> (d in t <==> d in raw)
  {
    DeleteCharMembers(raw, ExternalReferencePrefix);
    DeleteChar(raw, ExternalReferencePrefix)
  }

  /** A header object. Maps keyed by headers use object identity, as Header does not
      override equals. The latch records that some value of the column needs quotation marks. */
  class Header {
    const text: string
    var inferredQuotations: bool

    constructor(raw: string)
      ensures text == StoredText(raw) && !inferredQuotations
    {
      text := StoredText(raw);
      inferredQuotations := false;
    }

    method SetInferredQuotations(b: bool)
      modifies this
      ensures inferredQuotations == b
    {
      inferredQuotations := b;
    }
  }

  predicate IsReference(t: string) {
    DependentSeparator in t
  }

  predicate IsForcedQuotations(t: string) {
    StartsWith(t, ForcedQuotationPrefix)
  }

  /** getAttributeName: the header without any `§`. */
  function AttributeName(t: string): (a: string)
    ensures '§' !in a
    ensures forall d :: d != '§' ==> (d in a <==> d in t)
  {
    DeleteCharMembers(t, '§');
    DeleteChar(t, '§')
  }

  /** The header with one leading REAL_PREFIX removed. */
  function Cleaned(t: string): string {
    if StartsWith(t, RealPrefix) then t[|RealPrefix|..] else t
  }

  /** Parts 0 and 1 of the split on `.`; fewer than two parts is an IllegalArgumentException. */
  function ReferenceParts(t: string): Result<(string, string)> {
    var parts := JavaSplit(Cleaned(t), DependentSeparator);
    if |parts| < 2 then Err(InvalidReferenceHeader(t)) else Ok((parts[0], parts[1]))
  }

  function ReferenceClassName(t: string): Result<string> {
    var p :- ReferenceParts(t);
    Ok(p.0)
  }

  function ReferenceAttributeName(t: string): Result<string> {
    var p :- ReferenceParts(t);
    Ok(p.1)
  }

  function DefaultRoleName(t: string): Result<string> {
    var c :- ReferenceClassName(t);
    Ok(Decapitalize(c) + "_")
  }

  /** roleName: None for a non-reference; the `[role]` override when present; otherwise the
      default role, which fails when the class name cannot be extracted. */
  function RoleName(t: string): (r: Result<Option<string>>)
    ensures r.Ok? ==> (r.value.Some? <==> IsReference(t))
  {
    if !IsReference(t) then Ok(None)
    else match BracketOverride(t) {
      case Some(role) => Ok(Some(role))
      case None => var d :- DefaultRoleName(t); Ok(Some(d))
    }
  }

  /** A header whose cleaned text is class "." attribute, optionally followed by further
      `.`-separated parts, has that class and that attribute: a third part is ignored, and the
      class keeps any `[role]` segment written in it. */
  lemma ReferenceOf(t: string, cls: string, attr: string, tail: string)
    requires Cleaned(t) == cls + "." + attr + tail
    requires '.' !in cls && '.' !in attr && attr != []
    requires tail == [] || tail[0] == '.'
    ensures ReferenceClassName(t) == Ok(cls)
    ensures ReferenceAttributeName(t) == Ok(attr)
  {
    var s := Cleaned(t);
    assert s == cls + [DependentSeparator] + (attr + tail);
    SplitAllField(cls, DependentSeparator, attr + tail);
    if tail == [] {
      SplitAllNone(attr, DependentSeparator);
      assert attr + tail == attr;
    } else {
      assert attr + tail == attr + [DependentSeparator] + tail[1..];
      SplitAllField(attr, DependentSeparator, tail[1..]);
    }
    var fields := SplitAll(s, DependentSeparator);
    assert fields[0] == cls && fields[1] == attr;
    assert s[|cls|] == DependentSeparator;
    assert |DropTrailingEmpty(fields)| >= 2;
  }

  /** A class name followed only by separators ("A.", "A..") has fewer than two parts once the
      trailing empty parts are dropped, and is rejected. */
  lemma ReferenceRejected(t: string, cls: string, dots: nat)
    requires Cleaned(t) == cls + Repeat('.', dots)
    requires '.' !in cls && dots > 0
    ensures ReferenceClassName(t) == Err(InvalidReferenceHeader(t))
    ensures ReferenceAttributeName(t) == Err(InvalidReferenceHeader(t))
  {
    var s := Cleaned(t);
    assert s == cls + [DependentSeparator] + Repeat('.', dots - 1);
    SplitAllField(cls, DependentSeparator, Repeat('.', dots - 1));
    SplitSeparatorsOnly('.', dots - 1);
    assert |DropTrailingEmpty(SplitAll(s, DependentSeparator))| < 2;
  }

  /** A reference header with a non-empty `[role]` (and no `[` before it) has that role. */
  lemma RoleNameOverride(pre: string, role: string, post: string)
    requires '[' !in pre && ']' !in role && role != []
    requires IsReference(pre + "[" + role + "]" + post)
    ensures RoleName(pre + "[" + role + "]" + post) == Ok(Some(role))
  {
    BracketOverrideOf(pre, role, post);
  }

  /** Without a `[` the role of "Class.attr" is the class name with a lower-case first letter,
      followed by `_`. */
  lemma RoleNameDefault(t: string, cls: string, attr: string)
    requires Cleaned(t) == cls + "." + attr
    requires '.' !in cls && '.' !in attr && attr != [] && '[' !in t
    ensures RoleName(t) == Ok(Some(Decapitalize(cls) + "_"))
  {
    ReferenceOf(t, cls, attr, []);
    assert cls + "." + attr + [] == cls + "." + attr;
    assert IsReference(t) by {
      if StartsWith(t, RealPrefix) {
        assert t == t[..|RealPrefix|] + Cleaned(t);
      }
      assert Cleaned(t)[|cls|] == '.';
    }
  }
}
