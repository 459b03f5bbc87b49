/** The java.math.BigDecimal operations the importer calls, over plain decimal text: the
    String constructor, setScale(0), stripTrailingZeros, toPlainString and toString. */
module Decimals {
  import opened Wrappers
  import opened Strings

  /** unscaled * 10^(-scale); the scale may be negative, as after stripTrailingZeros. */
  datatype Decimal = Decimal(unscaled: int, scale: int)

  function Pow10(n: nat): (p: nat)
    ensures p >= 1
  {
    if n == 0 then 1 else 10 * Pow10(n - 1)
  }

  predicate IsDigit(c: char) { '0' <= c <= '9' }

  predicate AllDigits(s: string) { forall k :: 0 <= k < |s| ==> IsDigit(s[k]) }

  /** The value of a digit string, most significant digit first. */
  function DigitsValue(ds: string): nat
    requires AllDigits(ds)
  {
    if ds == [] then 0 else 10 * DigitsValue(ds[..|ds| - 1]) + (ds[|ds| - 1] as int - '0' as int)
  }

  function Abs(x: int): nat { if x < 0 then -x else x }

  /** new BigDecimal(text) for an optional sign, digits and an optional point: the scale is
      the number of digits after the point. Anything else is a NumberFormatException. */
  function Parse(text: string): (r: Result<Decimal>)
    ensures r.Ok? ==> r.value.scale >= 0
    ensures r.Ok? ==> text != [] && (IsDigit(text[0]) || text[0] in "+-.")
  {
    var signed := text != [] && (text[0] == '-' || text[0] == '+');
    var body := if signed then text[1..] else text;
    var dot := IndexOfFrom(body, '.', 0);
    var whole := if dot < 0 then body else body[..dot];
    var fraction := if dot < 0 then [] else body[dot + 1..];
    if whole + fraction == [] || !AllDigits(whole) || !AllDigits(fraction) then Err(NumberFormat(text))
    else
      var magnitude := DigitsValue(whole + fraction);
      Ok(Decimal(if signed && text[0] == '-' then -(magnitude as int) else magnitude, |fraction|))
  }

  /** setScale(0) without a rounding mode succeeds exactly when no non-zero digit lies after the
      point; otherwise it throws ArithmeticException. */
  predicate IsWhole(d: Decimal) {
    d.scale <= 0 || d.unscaled % Pow10(d.scale) == 0
  }

  /** stripTrailingZeros: removes factors of ten from the unscaled value, lowering the scale;
      zero becomes 0 with scale 0. */
  function StripTrailingZeros(d: Decimal): (r: Decimal)
    ensures r.unscaled == 0 ==> r.scale == 0
    ensures r.unscaled != 0 ==> r.unscaled % 10 != 0 && r.scale <= d.scale
    ensures (r.unscaled == 0) == (d.unscaled == 0)
    decreases Abs(d.unscaled)
  {
    if d.unscaled == 0 then Decimal(0, 0)
    else if d.unscaled % 10 == 0 then StripTrailingZeros(Decimal(d.unscaled / 10, d.scale - 1))
    else d
  }

  /** Multiplying the unscaled value by 10^k and raising the scale by k keeps the value, and
      stripTrailingZeros maps both forms to the same decimal: it is canonical. */
  lemma {:induction false} StripScaled(d: Decimal, k: nat)
    ensures StripTrailingZeros(Scaled(d, k)) == StripTrailingZeros(d)
  {
    if k > 0 && d.unscaled != 0 {
      var v := d.unscaled * Pow10(k - 1);
      assert d.unscaled * Pow10(k) == v * 10;
      assert v * 10 != 0 && (v * 10) % 10 == 0 && (v * 10) / 10 == v;
      StripScaled(d, k - 1);
    }
  }

  /** A whole value keeps no digits after the point once stripped. */
  lemma WholeStripsToInteger(d: Decimal)
    requires IsWhole(d)
    ensures StripTrailingZeros(d).scale <= 0
  {
    if d.scale > 0 {
      var p := Pow10(d.scale);
      var m := d.unscaled / p;
      assert d.unscaled == m * p + d.unscaled % p;
      assert d == Scaled(Decimal(m, 0), d.scale);
      StripScaled(Decimal(m, 0), d.scale);
    }
  }

  /** The same value written with k more digits after the point. */
  function Scaled(d: Decimal, k: nat): Decimal {
    Decimal(d.unscaled * Pow10(k), d.scale + k)
  }

  /** The digits of |d.unscaled|, most significant first. */
  function Coefficient(d: Decimal): string {
    NatToString(Abs(d.unscaled))
  }

  function Sign(d: Decimal): string {
    if d.unscaled < 0 then "-" else ""
  }

  /** The digits with a point inserted scale places from the right, zero-padded on the left. */
  function WithPoint(coeff: string, scale: nat): (t: string)
    requires scale > 0
    ensures '.' in t
  {
    if |coeff| > scale then coeff[..|coeff| - scale] + "." + coeff[|coeff| - scale..]
    else "0." + Repeat('0', scale - |coeff|) + coeff
  }

  /** toPlainString: no exponent; a negative scale appends zeros. */
  function ToPlainString(d: Decimal): (t: string)
    ensures '.' in t <==> d.scale > 0
  {
    if d.scale <= 0 then
      if d.unscaled == 0 then "0" else Sign(d) + Coefficient(d) + Repeat('0', -d.scale)
    else Sign(d) + WithPoint(Coefficient(d), d.scale)
  }

  /** toString: plain digits for scale 0, a point for a positive scale while the adjusted
      exponent is at least -6, scientific notation ("1E+2") otherwise. */
  function ToString(d: Decimal): string {
    var coeff := Coefficient(d);
    var adjusted := -d.scale + (|coeff| - 1);
    if d.scale == 0 then Sign(d) + coeff
    else if d.scale > 0 && adjusted >= -6 then Sign(d) + WithPoint(coeff, d.scale)
    else
      Sign(d) + [coeff[0]] + (if |coeff| > 1 then "." + coeff[1..] else "")
        + "E" + (if adjusted >= 0 then "+" + NatToString(adjusted) else "-" + NatToString(-adjusted))
  }

  lemma ShiftDistributes(va: int, p: int, vb: int, last: int)
    ensures 10 * (va * p + vb) + last == va * (10 * p) + (10 * vb + last)
  {
    calc {
      10 * (va * p + vb) + last;
      10 * (va * p) + 10 * vb + last;
      { assert 10 * (va * p) == va * (10 * p); }
      va * (10 * p) + (10 * vb + last);
    }
  }

  lemma {:induction false} DigitsAppend(a: string, b: string)
    requires AllDigits(a) && AllDigits(b)
    ensures AllDigits(a + b)
    ensures DigitsValue(a + b) == DigitsValue(a) * Pow10(|b|) + DigitsValue(b)
    decreases |b|
  {
    assert AllDigits(a + b) by {
      forall k | 0 <= k < |a + b| ensures IsDigit((a + b)[k]) {
        if k < |a| { assert (a + b)[k] == a[k]; } else { assert (a + b)[k] == b[k - |a|]; }
      }
    }
    if b == [] {
      assert a + b == a;
    } else {
      var b' := b[..|b| - 1];
      assert (a + b)[..|a + b| - 1] == a + b';
      assert AllDigits(b');
      DigitsAppend(a, b');
      var last := b[|b| - 1] as int - '0' as int;
      assert (a + b)[|a + b| - 1] == b[|b| - 1];
      ShiftDistributes(DigitsValue(a), Pow10(|b'|), DigitsValue(b'), last);
    }
  }

  lemma {:induction false} ZerosValue(n: nat)
    ensures AllDigits(Repeat('0', n)) && DigitsValue(Repeat('0', n)) == 0
  {
    if n > 0 {
      ZerosValue(n - 1);
      var z := Repeat('0', n);
      assert z[..n - 1] == Repeat('0', n - 1);
    }
  }

  /** Unsigned digits without a point parse to their value at scale 0. */
  lemma ParseWhole(ds: string)
    requires ds != [] && AllDigits(ds)
    ensures Parse(ds) == Ok(Decimal(DigitsValue(ds), 0))
  {
    assert '.' !in ds;
    assert ds + [] == ds;
  }

  /** Unsigned digits around a point parse to the value of all the digits, with the scale equal
      to the number of digits after the point. */
  lemma ParsePointed(ds: string, fs: string)
    requires ds + fs != [] && AllDigits(ds) && AllDigits(fs)
    ensures Parse(ds + "." + fs) == Ok(Decimal(DigitsValue(ds + fs), |fs|))
  {
    var t := ds + "." + fs;
    assert forall k :: 0 <= k < |ds| ==> t[k] == ds[k];
    assert t[|ds|] == '.';
    IndexFirst(t, '.', 0, |ds|);
    assert t[..|ds|] == ds && t[|ds| + 1..] == fs;
    if ds != [] {
      assert t[0] == ds[0];
    }
  }

  lemma ParseZeroFraction(ds: string, zeros: nat)
    requires ds != [] && AllDigits(ds)
    ensures Parse(ds + "." + Repeat('0', zeros)) == Ok(Scaled(Decimal(DigitsValue(ds), 0), zeros))
  {
    var z := Repeat('0', zeros);
    ZerosValue(zeros);
    assert DigitsValue(ds + z) == DigitsValue(ds) * Pow10(zeros) by {
      DigitsAppend(ds, z);
    }
    ParsePointed(ds, z);
  }

  /** "123" and "123.0" (any number of zeros after the point) parse to the same value and
      therefore strip to the same canonical decimal. */
  lemma TrailingZerosSameCanonical(ds: string, zeros: nat)
    requires ds != [] && AllDigits(ds)
    ensures Parse(ds).Ok? && Parse(ds + "." + Repeat('0', zeros)).Ok?
    ensures StripTrailingZeros(Parse(ds + "." + Repeat('0', zeros)).value) == StripTrailingZeros(Parse(ds).value)
  {
    ParseWhole(ds);
    ParseZeroFraction(ds, zeros);
    StripScaled(Decimal(DigitsValue(ds), 0), zeros);
  }
}
