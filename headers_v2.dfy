/** v2.beans.Header, the older header grammar: the text is kept verbatim (no `*` removal),
    and the forced-quotation prefix is the two-character text the source file spells. */
module HeadersV2 {
  import opened Wrappers
  import opened Strings

  /** The literal prefix of isForcedQuotations: the section sign `§` (U+00A7) read as UTF-8
      and decoded as TIS-620, which gives two Thai letters. */
  const ForcedQuotationPrefix: string := "\U{0E22}\U{0E07}"

  predicate IsReference(t: string) {
    '.' in t
  }

  predicate IsForcedQuotations(t: string) {
    StartsWith(t, ForcedQuotationPrefix)
  }

  /** decapitalize(first part of the split on `.`) + "_"; a header made only of dots splits
      into no parts, and indexing part 0 throws. */
  function DefaultRoleName(t: string): Result<string> {
    var parts := JavaSplit(t, '.');
    if parts == [] then Err(IndexOutOfBounds(0)) else Ok(Decapitalize(parts[0]) + "_")
  }

  function RoleName(t: string): Result<Option<string>> {
    if !IsReference(t) then Ok(None)
    else match BracketOverride(t) {
      case Some(role) => Ok(Some(role))
      case None => var d :- DefaultRoleName(t); Ok(Some(d))
    }
  }

  /** A header starting with the section sign itself is not forced. */
  lemma SectionSignNotForced(rest: string)
    ensures !IsForcedQuotations("§" + rest)
  {
    assert ("§" + rest)[0] == '§';
  }

  /** The text before the first `.` is used as written, so a leading `*` survives into the
      default role: "*Class.attr" has role "*Class_" (first letter `*` is not lower-cased). */
  lemma DefaultRoleKeepsMarker(cls: string, attr: string)
    requires '.' !in cls && '.' !in attr && '[' !in cls && '[' !in attr
    ensures RoleName("*" + cls + "." + attr) == Ok(Some("*" + cls + "_"))
  {
    var t := "*" + cls + "." + attr;
    var first := "*" + cls;
    assert t == first + ['.'] + attr;
    assert t[|first|] == '.';
    SplitAllField(first, '.', attr);
    assert SplitAll(t, '.')[0] == first;
    assert '[' !in t;
    assert Decapitalize(first) == first;
  }

  /** A header made only of dots is a reference without a default role. */
  lemma DotsOnlyRejected(n: nat)
    requires n > 0
    ensures RoleName(Repeat('.', n)) == Err(IndexOutOfBounds(0))
  {
    var t := Repeat('.', n);
    assert t[0] == '.';
    DotsSplitEmpty(n);
    assert '[' !in t;
  }

  lemma {:induction false} DotsSplitEmpty(n: nat)
    requires n > 0
    ensures JavaSplit(Repeat('.', n), '.') == []
  {
    SplitSeparatorsOnly('.', n);
    assert Repeat('.', n)[0] == '.';
  }
}
