/** graphql.parser.ExternalAttribute: the `*Class.attr` header grammar of the string-header
    parsers, and the class/attribute pair it yields. */
module ExternalAttributes {
  import opened Wrappers
  import opened Strings
  import opened Constants
  import Headers

  const ExternalReferencePrefix: string := "*"

  /** Equality of the datatype is the field-wise equals of the Java class. */
  datatype ExternalAttribute = ExternalAttribute(className: string, attributeName: string)

  /** parseExternalAttribute: the first character is dropped whatever it is (an empty header
      throws StringIndexOutOfBoundsException); the rest must split into exactly two parts. */
  function Parse(header: string): Result<ExternalAttribute> {
    if |header| < |ExternalReferencePrefix| then Err(StringIndexOutOfBounds(header))
    else
      var parts := JavaSplit(header[|ExternalReferencePrefix|..], DependentSeparator);
      if |parts| != 2 then Err(InvalidExternalAttribute(header))
      else Ok(ExternalAttribute(parts[0], parts[1]))
  }

  /** The header text of an external attribute, with the given first character. */
  function Render(first: char, e: ExternalAttribute): string {
    [first] + e.className + "." + e.attributeName
  }

  /** Parse inverts Render for every attribute whose names hold no `.` and whose attribute
      name is not empty, whatever the first character. */
  lemma ParseRender(first: char, e: ExternalAttribute)
    requires '.' !in e.className && '.' !in e.attributeName && e.attributeName != []
    ensures Parse(Render(first, e)) == Ok(e)
  {
    var h := Render(first, e);
    var cleaned := h[1..];
    assert cleaned == e.className + [DependentSeparator] + e.attributeName;
    SplitAllField(e.className, DependentSeparator, e.attributeName);
    SplitAllNone(e.attributeName, DependentSeparator);
    assert cleaned[|e.className|] == DependentSeparator;
    var fields := SplitAll(cleaned, DependentSeparator);
    assert fields == [e.className, e.attributeName];
  }

  /** A third non-empty part makes the header invalid. */
  lemma ParseRejectsThreeParts(first: char, c: string, a: string, b: string)
    requires '.' !in c && '.' !in a && '.' !in b && b != []
    ensures Parse([first] + c + "." + a + "." + b) == Err(InvalidExternalAttribute([first] + c + "." + a + "." + b))
  {
    var h := [first] + c + "." + a + "." + b;
    var cleaned := h[1..];
    assert cleaned == c + [DependentSeparator] + (a + [DependentSeparator] + b);
    SplitAllField(c, DependentSeparator, a + [DependentSeparator] + b);
    SplitAllField(a, DependentSeparator, b);
    SplitAllNone(b, DependentSeparator);
    assert cleaned[|c|] == DependentSeparator;
    var fields := SplitAll(cleaned, DependentSeparator);
    assert fields == [c, a, b];
  }

  /** An empty header cannot drop its first character. */
  lemma ParseEmpty()
    ensures Parse("") == Err(StringIndexOutOfBounds(""))
  {
  }

  /** isExternalAttribute: starts with `*` and contains `.`. */
  predicate IsExternalAttribute(header: string) {
    StartsWith(header, ExternalReferencePrefix) && DependentSeparator in header
  }

  /** extractTargetAttributeName: the `[role]` override when present, otherwise the class
      name with a lower-case first letter followed by `_`. */
  function ExtractTargetAttributeName(header: string, className: string): string {
    match BracketOverride(header) {
      case Some(role) => role
      case None => Decapitalize(className) + "_"
    }
  }

  /** The target attribute named from a reference header and its class name is the role the
      header parser gives that header: Header.roleName reads the same `[role]` override and
      otherwise builds the same default from the class name it splits off. */
  lemma ExtractIsRoleName(t: string, className: string)
    requires Headers.IsReference(t)
    requires BracketOverride(t).Some? || Headers.ReferenceClassName(t) == Ok(className)
    ensures Headers.RoleName(t) == Ok(Some(ExtractTargetAttributeName(t, className)))
  {
  }

  /** An external attribute header whose attribute part holds a non-empty `[role]` targets
      that role, whatever the class. */
  lemma ExtractOverride(first: char, cls: string, pre: string, role: string, post: string)
    requires first != '[' && '[' !in cls && '[' !in pre && ']' !in role && role != []
    ensures ExtractTargetAttributeName(Render(first, ExternalAttribute(cls, pre + "[" + role + "]" + post)), cls) == role
  {
    var h := Render(first, ExternalAttribute(cls, pre + "[" + role + "]" + post));
    assert h == ([first] + cls + "." + pre) + "[" + role + "]" + post;
    assert '[' !in [first] + cls + "." + pre;
    BracketOverrideOf([first] + cls + "." + pre, role, post);
  }

  /** The example of the class's main method. */
  lemma ExtractTargetExample()
    ensures ExtractTargetAttributeName("Patologia.nome", "Evento") == "evento_"
  {
    assert '[' !in "Patologia.nome";
  }

  /** The text hashCode hashes. */
  function HashKey(e: ExternalAttribute): string {
    e.className + "|" + e.attributeName
  }

  /** hashCode agrees with equals: attributes that are equal have equal hash keys. */
  lemma HashKeyConsistent(e1: ExternalAttribute, e2: ExternalAttribute)
    requires e1.className == e2.className && e1.attributeName == e2.attributeName
    ensures HashKey(e1) == HashKey(e2)
  {
  }

  /** When neither class name holds `|`, equal hash keys mean equal attributes. */
  lemma HashKeyInjective(e1: ExternalAttribute, e2: ExternalAttribute)
    requires '|' !in e1.className && '|' !in e2.className
    requires HashKey(e1) == HashKey(e2)
    ensures e1 == e2
  {
    var k := HashKey(e1);
    var n1, n2 := |e1.className|, |e2.className|;
    assert k[n1] == '|' && k[..n1] == e1.className;
    assert HashKey(e2)[n2] == '|' && HashKey(e2)[..n2] == e2.className;
    assert n1 == n2;
    assert e1.attributeName == k[n1 + 1..];
    assert e2.attributeName == HashKey(e2)[n2 + 1..];
  }

  /** With a `|` in a name, distinct attributes can share a hash key; the hash table still
      tells them apart by equals. */
  lemma HashKeyCollision()
    ensures var e1, e2 := ExternalAttribute("A|b", "c"), ExternalAttribute("A", "b|c");
            e1 != e2 && HashKey(e1) == HashKey(e2)
  {
    assert HashKey(ExternalAttribute("A|b", "c")) == "A|b|c";
    assert HashKey(ExternalAttribute("A", "b|c")) == "A|b|c";
  }
}
