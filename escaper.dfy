/** Escaper.escapeJsonString, and the identical JsonUtils.escapeJsonString: a chain of five
    String.replace calls that makes text safe inside a JSON string literal. The decoder of the
    two-character escapes of section 7 of RFC 8259 is its partner. */
module Escaper {
  import opened Wrappers
  import opened Strings

  /** The chain as written: backslash first, then quote, newline, carriage return, tab. */
  function EscapeJsonString(text: string): string {
    ReplaceChar(ReplaceChar(ReplaceChar(ReplaceChar(ReplaceChar(
      text, '\\', "\\\\"), '"', "\\\""), '\n', "\\n"), '\r', "\\r"), '\t', "\\t")
  }

  predicate IsSpecial(c: char) {
    c == '\\' || c == '"' || c == '\n' || c == '\r' || c == '\t'
  }

  /** The escape of one character: a backslash and a letter for the five specials. */
  function EscapeChar(c: char): (t: string)
    ensures IsSpecial(c) ==> |t| == 2 && t[0] == '\\'
    ensures !IsSpecial(c) ==> t == [c]
  {
    if c == '\\' then "\\\\"
    else if c == '"' then "\\\""
    else if c == '\n' then "\\n"
    else if c == '\r' then "\\r"
    else if c == '\t' then "\\t"
    else [c]
  }

  /** Character-by-character escaping, the reference definition the chain is proved against. */
  function EscapeEach(s: string): string {
    if s == [] then [] else EscapeChar(s[0]) + EscapeEach(s[1..])
  }

  /** Number of the five special characters in s. */
  function Specials(s: string): nat {
    if s == [] then 0 else (if IsSpecial(s[0]) then 1 else 0) + Specials(s[1..])
  }

  lemma EscapeOne(c: char)
    ensures EscapeJsonString([c]) == EscapeChar(c)
  {
    if c == '\\' { EscapeBackslash(); }
    else if c == '"' { EscapeQuote(); }
    else if c == '\n' { EscapeNewline(); }
    else if c == '\r' { EscapeReturn(); }
    else if c == '\t' { EscapeTab(); }
    else { EscapePlain(c); }
  }

  lemma EscapeBackslash()
    ensures EscapeJsonString("\\") == "\\\\"
  {
    ReplaceCharAbsent("\\\\", '"', "\\\"");
    ReplaceCharAbsent("\\\\", '\n', "\\n");
    ReplaceCharAbsent("\\\\", '\r', "\\r");
    ReplaceCharAbsent("\\\\", '\t', "\\t");
  }

  lemma EscapeQuote()
    ensures EscapeJsonString("\"") == "\\\""
  {
    ReplaceCharAbsent("\"", '\\', "\\\\");
    ReplaceCharAbsent("\\\"", '\n', "\\n");
    ReplaceCharAbsent("\\\"", '\r', "\\r");
    ReplaceCharAbsent("\\\"", '\t', "\\t");
  }

  lemma EscapeNewline()
    ensures EscapeJsonString("\n") == "\\n"
  {
    ReplaceCharAbsent("\n", '\\', "\\\\");
    ReplaceCharAbsent("\n", '"', "\\\"");
    ReplaceCharAbsent("\\n", '\r', "\\r");
    ReplaceCharAbsent("\\n", '\t', "\\t");
  }

  lemma EscapeReturn()
    ensures EscapeJsonString("\r") == "\\r"
  {
    ReplaceCharAbsent("\r", '\\', "\\\\");
    ReplaceCharAbsent("\r", '"', "\\\"");
    ReplaceCharAbsent("\r", '\n', "\\n");
    ReplaceCharAbsent("\\r", '\t', "\\t");
  }

  lemma EscapeTab()
    ensures EscapeJsonString("\t") == "\\t"
  {
    ReplaceCharAbsent("\t", '\\', "\\\\");
    ReplaceCharAbsent("\t", '"', "\\\"");
    ReplaceCharAbsent("\t", '\n', "\\n");
    ReplaceCharAbsent("\t", '\r', "\\r");
  }

  lemma EscapePlain(c: char)
    requires !IsSpecial(c)
    ensures EscapeJsonString([c]) == [c]
  {
    ReplaceCharAbsent([c], '\\', "\\\\");
    ReplaceCharAbsent([c], '"', "\\\"");
    ReplaceCharAbsent([c], '\n', "\\n");
    ReplaceCharAbsent([c], '\r', "\\r");
    ReplaceCharAbsent([c], '\t', "\\t");
  }

  lemma EscapeAppend(a: string, b: string)
    ensures EscapeJsonString(a + b) == EscapeJsonString(a) + EscapeJsonString(b)
  {
    var r1a, r1b := ReplaceChar(a, '\\', "\\\\"), ReplaceChar(b, '\\', "\\\\");
    ReplaceCharAppend(a, b, '\\', "\\\\");
    var r2a, r2b := ReplaceChar(r1a, '"', "\\\""), ReplaceChar(r1b, '"', "\\\"");
    ReplaceCharAppend(r1a, r1b, '"', "\\\"");
    var r3a, r3b := ReplaceChar(r2a, '\n', "\\n"), ReplaceChar(r2b, '\n', "\\n");
    ReplaceCharAppend(r2a, r2b, '\n', "\\n");
    var r4a, r4b := ReplaceChar(r3a, '\r', "\\r"), ReplaceChar(r3b, '\r', "\\r");
    ReplaceCharAppend(r3a, r3b, '\r', "\\r");
    ReplaceCharAppend(r4a, r4b, '\t', "\\t");
  }

  /** Running backslash first makes the chain equal to escaping each character once: no
      backslash inserted by a later step is doubled by the first. */
  lemma {:induction false} ChainIsPerCharacter(s: string)
    ensures EscapeJsonString(s) == EscapeEach(s)
  {
    if s == [] {
    } else {
      assert s == [s[0]] + s[1..];
      EscapeAppend([s[0]], s[1..]);
      EscapeOne(s[0]);
      ChainIsPerCharacter(s[1..]);
    }
  }

  /** The length grows by exactly one per special character. */
  lemma {:induction false} EscapeLength(s: string)
    ensures |EscapeJsonString(s)| == |s| + Specials(s)
  {
    ChainIsPerCharacter(s);
    EachLength(s);
  }

  lemma {:induction false} EachLength(s: string)
    ensures |EscapeEach(s)| == |s| + Specials(s)
  {
    if s != [] {
      EachLength(s[1..]);
    }
  }

  /** A string is returned unchanged exactly when it holds none of the five specials. */
  lemma EscapeUnchanged(s: string)
    ensures EscapeJsonString(s) == s <==> Specials(s) == 0
  {
    EscapeLength(s);
    if Specials(s) == 0 {
      ChainIsPerCharacter(s);
      EachNoSpecials(s);
    }
  }

  lemma {:induction false} EachNoSpecials(s: string)
    requires Specials(s) == 0
    ensures EscapeEach(s) == s
  {
    if s != [] {
      EachNoSpecials(s[1..]);
      assert s == [s[0]] + s[1..];
    }
  }

  /** No raw newline, carriage return or tab survives, and every quote is preceded by a backslash. */
  lemma EscapeNoRawControls(s: string)
    ensures '\n' !in EscapeJsonString(s) && '\r' !in EscapeJsonString(s) && '\t' !in EscapeJsonString(s)
  {
    ChainIsPerCharacter(s);
    EachNoRawControls(s);
  }

  lemma {:induction false} EachNoRawControls(s: string)
    ensures '\n' !in EscapeEach(s) && '\r' !in EscapeEach(s) && '\t' !in EscapeEach(s)
  {
    if s != [] {
      EachNoRawControls(s[1..]);
    }
  }

  /** The character a two-character escape sequence `\x` of section 7 of RFC 8259 denotes.
      The six-character `\uXXXX` form is not decoded. */
  function Unescaped(x: char): (r: Option<char>)
  {
    if x == '"' then Some('"')
    else if x == '\\' then Some('\\')
    else if x == '/' then Some('/')
    else if x == 'b' then Some('\U{8}')
    else if x == 'f' then Some('\U{C}')
    else if x == 'n' then Some('\n')
    else if x == 'r' then Some('\r')
    else if x == 't' then Some('\t')
    else None
  }

  /** The content of a JSON string literal, decoded as section 7 of RFC 8259 reads it: None when
      it holds a raw quote, a raw control character (below U+0020), or a malformed escape. */
  function Unescape(t: string): (r: Option<string>)
    decreases |t|
  {
    if t == [] then Some([])
    else if t[0] == '\\' then
      if |t| < 2 then None
      else match Unescaped(t[1]) {
        case None => None
        case Some(c) => match Unescape(t[2..]) {
          case None => None
          case Some(rest) => Some([c] + rest)
        }
      }
    else if t[0] == '"' || t[0] < ' ' then None
    else match Unescape(t[1..]) {
      case None => None
      case Some(rest) => Some([t[0]] + rest)
    }
  }

  /** The control characters the chain leaves raw, which section 7 of RFC 8259 forbids. */
  predicate IsUnescapedControl(c: char) {
    c < ' ' && c != '\n' && c != '\r' && c != '\t'
  }

  /** Decoding the escaped text returns the input exactly when the input holds no control
      character other than newline, carriage return and tab; any other control character is
      left raw, and a raw control character makes the literal invalid. */
  lemma EscapeRoundTrip(s: string)
    ensures Unescape(EscapeJsonString(s)) == Some(s) <==> forall i :: 0 <= i < |s| ==> !IsUnescapedControl(s[i])
    ensures (exists i :: 0 <= i < |s| && IsUnescapedControl(s[i])) ==> Unescape(EscapeJsonString(s)) == None
  {
    ChainIsPerCharacter(s);
    EachRoundTrip(s);
  }

  /** Decoding one escaped character followed by more text. */
  lemma UnescapeCons(c: char, rest: string)
    ensures IsUnescapedControl(c) ==> Unescape(EscapeChar(c) + rest) == None
    ensures !IsUnescapedControl(c) ==>
              Unescape(EscapeChar(c) + rest) == if Unescape(rest).Some? then Some([c] + Unescape(rest).value) else None
  {
    var t := EscapeChar(c) + rest;
    if IsSpecial(c) {
      assert t[0] == '\\' && t[2..] == rest;
      assert Unescaped(t[1]) == Some(c);
    } else {
      assert t[0] == c && t[1..] == rest;
    }
  }

  lemma {:induction false} EachRoundTripSome(s: string)
    requires forall i :: 0 <= i < |s| ==> !IsUnescapedControl(s[i])
    ensures Unescape(EscapeEach(s)) == Some(s)
  {
    if s != [] {
      assert forall i :: 0 <= i < |s[1..]| ==> s[1..][i] == s[i + 1];
      EachRoundTripSome(s[1..]);
      UnescapeCons(s[0], EscapeEach(s[1..]));
      assert s == [s[0]] + s[1..];
    }
  }

  lemma {:induction false} EachRoundTripNone(s: string, i: nat)
    requires i < |s| && IsUnescapedControl(s[i])
    ensures Unescape(EscapeEach(s)) == None
  {
    UnescapeCons(s[0], EscapeEach(s[1..]));
    if i > 0 {
      assert s[1..][i - 1] == s[i];
      EachRoundTripNone(s[1..], i - 1);
    }
  }

  lemma EachRoundTrip(s: string)
    ensures (forall i :: 0 <= i < |s| ==> !IsUnescapedControl(s[i])) ==> Unescape(EscapeEach(s)) == Some(s)
    ensures (exists i :: 0 <= i < |s| && IsUnescapedControl(s[i])) ==> Unescape(EscapeEach(s)) == None
  {
    if forall i :: 0 <= i < |s| ==> !IsUnescapedControl(s[i]) {
      EachRoundTripSome(s);
    } else {
      var i :| 0 <= i < |s| && IsUnescapedControl(s[i]);
      EachRoundTripNone(s, i);
    }
  }
}
