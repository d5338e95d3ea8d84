/** Decimal numbers as Python's decimal.Decimal holds them: an integer
    coefficient and a count of fractional digits, so that Decimal("0") and
    Decimal("0.00") are different values that compare equal. */
module Numbers {
  import opened Wrappers
  import opened Text

  /** The number coef / 10^places, written with exactly `places` fractional digits. */
  datatype Dec = Dec(coef: int, places: nat)

  function Pow10(n: nat): (r: nat)
    ensures r >= 1
  {
    if n == 0 then 1 else 10 * Pow10(n - 1)
  }

  lemma {:induction false} Pow10Add(a: nat, b: nat)
    ensures Pow10(a + b) == Pow10(a) * Pow10(b)
    decreases a
  {
    if a > 0 {
      Pow10Add(a - 1, b);
      assert Pow10(a + b) == 10 * Pow10(a - 1 + b);
    }
  }

  function Abs(x: int): (r: nat)
    ensures r == x || r == -x
  {
    if x < 0 then -x else x
  }

  /** Decimal.quantize(Decimal("1." + "0" * p)) under the default context
      (ROUND_HALF_EVEN): the nearest number with p fractional digits, ties going
      to the even neighbour. A value that already has at most p fractional
      digits is only re-scaled. */
  function Quantize(d: Dec, p: nat): (r: Dec)
    ensures r.places == p
    ensures d.places <= p ==> r.coef == d.coef * Pow10(p - d.places)
    ensures d.places > p ==> 2 * Abs(d.coef - r.coef * Pow10(d.places - p)) <= Pow10(d.places - p)
    ensures d.places > p && 2 * Abs(d.coef - r.coef * Pow10(d.places - p)) == Pow10(d.places - p) ==>
              r.coef % 2 == 0
  {
    if d.places <= p then Dec(d.coef * Pow10(p - d.places), p)
    else Dec(RoundHalfEven(d.coef, Pow10(d.places - p)), p)
  }

  /** coef / q rounded to the nearest integer, ties to the even one. */
  function RoundHalfEven(coef: int, q: nat): (c: int)
    requires q >= 1
    ensures 2 * Abs(coef - c * q) <= q
    ensures 2 * Abs(coef - c * q) == q ==> c % 2 == 0
  {
    var lo, rem := coef / q, coef % q;
    var c := if 2 * rem < q then lo
             else if 2 * rem > q then lo + 1
             else if lo % 2 == 0 then lo else lo + 1;
    RoundingError(coef, q, lo, rem, c);
    c
  }

  /** The remainder left by rounding coef / q down or up. */
  lemma RoundingError(coef: int, q: nat, lo: int, rem: int, c: int)
    requires q >= 1 && lo == coef / q && rem == coef % q && (c == lo || c == lo + 1)
    ensures 0 <= rem < q
    ensures coef - c * q == (if c == lo then rem else rem - q)
  {
    assert coef == lo * q + rem;
    assert (lo + 1) * q == lo * q + q;
  }

  /** The integer part, truncated toward zero as Python's int(float) does it. */
  function Trunc(d: Dec): (t: int)
    ensures Abs(t) * Pow10(d.places) <= Abs(d.coef) < (Abs(t) + 1) * Pow10(d.places)
    ensures t > 0 ==> d.coef > 0
    ensures t < 0 ==> d.coef < 0
  {
    var whole: int := SplitAt(Abs(d.coef), d.places).0;
    if d.coef >= 0 then whole else -whole
  }

  /** m split into the digits before and after its last p digits. */
  function SplitAt(m: nat, p: nat): (r: (nat, nat))
    ensures r.1 < Pow10(p) && m == r.0 * Pow10(p) + r.1
    ensures r.0 * Pow10(p) <= m < (r.0 + 1) * Pow10(p)
  {
    var q := Pow10(p);
    DivMod(m, q);
    (m / q, m % q)
  }

  lemma DivMod(m: nat, q: nat)
    requires q >= 1
    ensures 0 <= m / q && 0 <= m % q < q
    ensures m == (m / q) * q + m % q
    ensures (m / q) * q <= m < (m / q + 1) * q
  {
    var t := m / q;
    assert m == t * q + m % q;
    assert (t + 1) * q == t * q + q;
  }

  // ------------------------------------------------------------ rendering

  function Zeros(n: nat): (z: string)
    ensures |z| == n && AllDigits(z) && DigitsValue(z) == 0
  {
    if n == 0 then [] else
      var z := Zeros(n - 1) + ['0'];
      assert z[..|z| - 1] == Zeros(n - 1);
      z
  }

  /** s padded on the left with zeros to at least n characters. */
  function ZeroPad(s: string, n: nat): (r: string)
    requires AllDigits(s)
    ensures AllDigits(r) && |r| == if |s| >= n then |s| else n
    ensures DigitsValue(r) == DigitsValue(s)
  {
    if |s| >= n then s
    else
      DigitsConcat(Zeros(n - |s|), s);
      Zeros(n - |s|) + s
  }

  lemma AllDigitsConcat(a: string, b: string)
    requires AllDigits(a) && AllDigits(b)
    ensures AllDigits(a + b)
  {
  }

  lemma {:induction false} DigitsConcat(a: string, b: string)
    requires AllDigits(a) && AllDigits(b)
    ensures AllDigits(a + b)
    ensures DigitsValue(a + b) == DigitsValue(a) * Pow10(|b|) + DigitsValue(b)
    decreases |b|
  {
    AllDigitsConcat(a, b);
    if b != [] {
      var b' := b[..|b| - 1];
      DigitsConcat(a, b');
      assert (a + b)[..|a + b| - 1] == a + b';
      assert (a + b)[|a + b| - 1] == b[|b| - 1];
      var x, p := DigitsValue(a), Pow10(|b'|);
      var last := DigitValue(b[|b| - 1]);
      assert DigitsValue(a + b) == 10 * (x * p + DigitsValue(b')) + last;
      assert Pow10(|b|) == 10 * p;
      assert x * (10 * p) == 10 * (x * p);
    } else {
      assert a + b == a;
    }
  }

  lemma {:induction false} NatToStringShort(n: nat, k: nat)
    requires k >= 1 && n < Pow10(k)
    ensures |NatToString(n)| <= k
    decreases k
  {
    if n >= 10 {
      NatToStringShort(n / 10, k - 1);
    }
  }

  /** str() of a number: an integer prints without a point, a decimal with
      exactly `places` fractional digits. */
  function Render(d: Dec): (s: string)
  {
    if d.places == 0 then IntToString(d.coef)
    else
      var (whole, frac) := SplitAt(Abs(d.coef), d.places);
      (if d.coef < 0 then "-" else "") + NatToString(whole) + "." + ZeroPad(NatToString(frac), d.places)
  }

  // -------------------------------------------------------------- parsing

  /** Digits with at most one decimal point and at least one digit. */
  function ParseUnsigned(body: string): (r: Option<Dec>)
    ensures r.Some? ==> r.value.coef >= 0
  {
    if '.' in body then
      var a := Before(body, '.');
      var b := body[|a| + 1..];
      if AllDigits(a) && AllDigits(b) && |a| + |b| >= 1 then
        AllDigitsConcat(a, b);
        Some(Dec(DigitsValue(a + b), |b|))
      else None
    else if AllDigits(body) && |body| >= 1 then Some(Dec(DigitsValue(body), 0))
    else None
  }

  /** Decimal(text) and float(text) for plain positional notation: surrounding
      white space, an optional sign, digits with an optional point. None when
      the text is not such a number (the constructor raises). */
  function ParseDec(text: string): Option<Dec>
  {
    ParseSign(Strip(text))
  }

  /** The optional sign and the unsigned number after it, on stripped text. */
  function ParseSign(t: string): Option<Dec>
  {
    if t != [] && (t[0] == '-' || t[0] == '+') then
      match ParseUnsigned(t[1..])
      case None => None
      case Some(d) => Some(if t[0] == '-' then Dec(-d.coef, d.places) else d)
    else ParseUnsigned(t)
  }

  lemma BeforePoint(a: string, b: string)
    requires AllDigits(a)
    ensures Before(a + "." + b, '.') == a
    ensures (a + "." + b)[|a| + 1..] == b
  {
    assert '.' !in a by {
      assert forall i :: 0 <= i < |a| ==> a[i] != '.';
    }
    BeforeConcat(a, '.', b);
  }

  lemma NoSpaceInNumber(s: string)
    requires forall i :: 0 <= i < |s| ==> IsDigit(s[i]) || s[i] == '-' || s[i] == '.'
    ensures Strip(s) == s
  {
  }

  lemma ParseUnsignedInt(a: string)
    requires AllDigits(a) && |a| >= 1
    ensures ParseUnsigned(a) == Some(Dec(DigitsValue(a), 0))
  {
    assert '.' !in a by {
      assert forall i :: 0 <= i < |a| ==> a[i] != '.';
    }
  }

  lemma ParseUnsignedFrac(a: string, b: string)
    requires AllDigits(a) && AllDigits(b) && |a| >= 1
    ensures AllDigits(a + b)
    ensures ParseUnsigned(a + "." + b) == Some(Dec(DigitsValue(a + b), |b|))
  {
    AllDigitsConcat(a, b);
    assert '.' in a + "." + b by {
      assert (a + "." + b)[|a|] == '.';
    }
    BeforePoint(a, b);
  }

  /** A body of digits and points, starting with a digit, read with and without a minus sign. */
  lemma ParseSigned(body: string, v: Dec)
    requires |body| >= 1 && IsDigit(body[0])
    requires forall i :: 0 <= i < |body| ==> IsDigit(body[i]) || body[i] == '.'
    requires ParseUnsigned(body) == Some(v)
    ensures ParseDec(body) == Some(v)
    ensures ParseDec("-" + body) == Some(Dec(-v.coef, v.places))
  {
    PlainParse(body, v);
    NegatedParse(body, v);
  }

  /** The body alone reads as the number. */
  lemma PlainParse(body: string, v: Dec)
    requires |body| >= 1 && IsDigit(body[0])
    requires forall i :: 0 <= i < |body| ==> IsDigit(body[i]) || body[i] == '.'
    requires ParseUnsigned(body) == Some(v)
    ensures ParseDec(body) == Some(v)
  {
    DigitsStripped(body);
    UnsignedText(body);
    StrippedParse(body, Some(v));
  }

  lemma DigitsStripped(body: string)
    requires forall i :: 0 <= i < |body| ==> IsDigit(body[i]) || body[i] == '.'
    ensures Strip(body) == body
  {
    NoSpaceInNumber(body);
  }

  /** The same body after a minus sign reads as the negated number. */
  lemma NegatedParse(body: string, v: Dec)
    requires forall i :: 0 <= i < |body| ==> IsDigit(body[i]) || body[i] == '.'
    requires ParseUnsigned(body) == Some(v)
    ensures ParseDec("-" + body) == Some(Dec(-v.coef, v.places))
  {
    var s := "-" + body;
    forall i | 0 <= i < |s|
      ensures IsDigit(s[i]) || s[i] == '-' || s[i] == '.'
    {
      if i > 0 {
        assert s[i] == body[i - 1];
      }
    }
    NoSpaceInNumber(s);
    SignedText(body, s, v);
    StrippedParse(s, Some(Dec(-v.coef, v.places)));
  }

  /** Text without surrounding white space is read as it stands. */
  lemma StrippedParse(s: string, v: Option<Dec>)
    requires Strip(s) == s && ParseSign(s) == v
    ensures ParseDec(s) == v
  {
  }

  lemma SignedText(body: string, s: string, v: Dec)
    requires s == "-" + body && ParseUnsigned(body) == Some(v)
    ensures ParseSign(s) == Some(Dec(-v.coef, v.places))
  {
    assert s[0] == '-' && s[1..] == body;
  }

  lemma UnsignedText(body: string)
    requires |body| >= 1 && IsDigit(body[0])
    ensures ParseSign(body) == ParseUnsigned(body)
  {
  }

  lemma RenderFracValue(m: nat, p: nat)
    requires p >= 1
    ensures var (whole, frac) := SplitAt(m, p);
      var b := ZeroPad(NatToString(frac), p);
      |b| == p && AllDigits(NatToString(whole) + b) && DigitsValue(NatToString(whole) + b) == m
  {
    var (whole, frac) := SplitAt(m, p);
    NatToStringShort(frac, p);
    var b := ZeroPad(NatToString(frac), p);
    ConcatValue(NatToString(whole), b, whole, frac, Pow10(p), m);
  }

  lemma ConcatValue(a: string, b: string, x: nat, y: nat, q: nat, m: nat)
    requires AllDigits(a) && AllDigits(b) && DigitsValue(a) == x && DigitsValue(b) == y
    requires Pow10(|b|) == q && m == x * q + y
    ensures AllDigits(a + b) && DigitsValue(a + b) == m
  {
    DigitsConcat(a, b);
  }

  lemma ParseRenderWhole(d: Dec)
    requires d.places == 0
    ensures ParseDec(Render(d)) == Some(d)
  {
    var a := NatToString(Abs(d.coef));
    ParseUnsignedInt(a);
    ParseSigned(a, Dec(Abs(d.coef), 0));
    if d.coef < 0 {
      assert Render(d) == "-" + a;
    } else {
      assert Render(d) == a;
    }
  }

  lemma PointedBody(a: string, b: string)
    requires AllDigits(a) && AllDigits(b) && |a| >= 1
    ensures IsDigit((a + "." + b)[0])
    ensures forall i :: 0 <= i < |a + "." + b| ==> IsDigit((a + "." + b)[i]) || (a + "." + b)[i] == '.'
  {
  }

  lemma RenderFractionShape(d: Dec)
    requires d.places > 0
    ensures var r := SplitAt(Abs(d.coef), d.places);
      d.coef < 0 ==> Render(d) == "-" + (NatToString(r.0) + "." + ZeroPad(NatToString(r.1), d.places))
    ensures var r := SplitAt(Abs(d.coef), d.places);
      d.coef >= 0 ==> Render(d) == NatToString(r.0) + "." + ZeroPad(NatToString(r.1), d.places)
  {
    var r := SplitAt(Abs(d.coef), d.places);
    var x := NatToString(r.0) + "." + ZeroPad(NatToString(r.1), d.places);
    assert "" + x == x;
  }

  lemma ParseFractionBody(d: Dec)
    requires d.places > 0
    ensures var r := SplitAt(Abs(d.coef), d.places);
      ParseUnsigned(NatToString(r.0) + "." + ZeroPad(NatToString(r.1), d.places)) == Some(Dec(Abs(d.coef), d.places))
  {
    var m := Abs(d.coef);
    var r := SplitAt(m, d.places);
    RenderFracValue(m, d.places);
    ParseUnsignedFrac(NatToString(r.0), ZeroPad(NatToString(r.1), d.places));
  }

  /** Reading back what str() printed gives the same decimal, for a number
      with a fractional part. */
  lemma ParseRenderFraction(d: Dec)
    requires d.places > 0
    ensures ParseDec(Render(d)) == Some(d)
  {
    var r := SplitAt(Abs(d.coef), d.places);
    var a := NatToString(r.0);
    var b := ZeroPad(NatToString(r.1), d.places);
    RenderFractionShape(d);
    ParseFractionBody(d);
    PointedBody(a, b);
    ParseSigned(a + "." + b, Dec(Abs(d.coef), d.places));
  }

  /** The text of an integer reads back as that integer, has no point and
      starts with a digit or a minus sign. */
  lemma ParseIntText(n: int)
    ensures ParseDec(IntToString(n)) == Some(Dec(n, 0))
    ensures '.' !in IntToString(n)
    ensures |IntToString(n)| >= 1 && (IsDigit(IntToString(n)[0]) || IntToString(n)[0] == '-')
  {
    ParseRender(Dec(n, 0));
    IntTextChars(n);
  }

  lemma IntTextChars(n: int)
    ensures '.' !in IntToString(n)
    ensures |IntToString(n)| >= 1 && (IsDigit(IntToString(n)[0]) || IntToString(n)[0] == '-')
  {
    var s := IntToString(n);
    assert forall k :: 0 <= k < |s| ==> IsDigit(s[k]) || s[k] == '-';
  }

  /** An integer truncates to itself. */
  lemma TruncWhole(n: int)
    ensures Trunc(Dec(n, 0)) == n
  {
    assert Pow10(0) == 1;
  }

  lemma ParseRender(d: Dec)
    ensures ParseDec(Render(d)) == Some(d)
  {
    if d.places == 0 {
      ParseRenderWhole(d);
    } else {
      ParseRenderFraction(d);
    }
  }
}
