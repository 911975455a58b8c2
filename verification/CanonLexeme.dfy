/** Number lexemes put together from literal pieces, after the productions of section 6
    of RFC 8259: that these texts are the lexemes, and which rational each denotes. */
module CanonLexeme {
  import opened Wrappers
  import opened Decimal
  import opened CanonNumber

  // ---------- Digits ----------

  const DIGITS := "0123456789"

  lemma DigitTable(c: char)
    requires IsDigit(c)
    ensures Digit(c) < 10 && DIGITS[Digit(c)] == c
  {
  }

  /** The decimal text of a number. */
  function Digits(n: nat): (s: string)
    ensures AllDigits(s) && s != "" && (s[0] == '0' ==> |s| == 1)
    ensures n > 0 ==> s[0] != '0'
  {
    if n < 10 then [DIGITS[n]] else Digits(n / 10) + [DIGITS[n % 10]]
  }

  /** Digit strings spell numbers to the base ten. */
  lemma {:induction false} DigitsValue(n: nat)
    ensures Nat(Digits(n)) == n
  {
    var s := Digits(n);
    if n < 10 {
      assert s[..0] == "";
    } else {
      DigitsValue(n / 10);
      assert s[..|s| - 1] == Digits(n / 10);
    }
  }

  function TenTo(k: nat): nat {
    if k == 0 then 1 else 10 * TenTo(k - 1)
  }

  lemma Regrouped(x: real, t: real)
    ensures (10.0 * x) * t == x * (10.0 * t)
    ensures (x / 10.0) * (10.0 * t) == x * t
  {
  }

  lemma TenAsReal(k: nat)
    requires k > 0
    ensures TenTo(k) as real == 10.0 * (TenTo(k - 1) as real)
  {
  }

  /** Scaling up multiplies by a power of ten. */
  lemma {:induction false} ScaledUp(n: nat, k: nat)
    ensures Scaled(n, k) == (n as real) * (TenTo(k) as real)
    decreases k
  {
    if k > 0 {
      TenAsReal(k);
      ScaledUp(10 * n, k - 1);
      Regrouped(n as real, TenTo(k - 1) as real);
    }
  }

  /** Scaling down divides by one. */
  lemma {:induction false} ScaledDown(n: nat, k: nat, e: int)
    requires e == 0 - k
    ensures Scaled(n, e) * (TenTo(k) as real) == n as real
    decreases k
  {
    if k > 0 {
      TenAsReal(k);
      ScaledDown(n, k - 1, e + 1);
      Regrouped(Scaled(n, e + 1), TenTo(k - 1) as real);
    }
  }

  // ---------- The productions ----------

  /** An integer part without superfluous zero, and a fraction, empty for none. */
  predicate MantissaPieces(i: string, f: string) {
    AllDigits(i) && i != "" && (i[0] == '0' ==> i == "0") && AllDigits(f)
  }

  /** Mark, sign and digits of an exponent; all empty for none. */
  predicate ExponentPieces(mark: string, sign: string, d: string) {
    if mark == "" then sign == "" && d == ""
    else mark in {"e", "E"} && sign in {"", "+", "-"} && AllDigits(d) && d != ""
  }

  function Mantissa(i: string, f: string): string {
    if f == "" then i else i + "." + f
  }

  /** The pieces in their order. */
  function Assembled(neg: bool, i: string, f: string, mark: string, sign: string, d: string): string {
    (if neg then "-" else "") + (Mantissa(i, f) + (mark + (sign + d)))
  }

  /** The number after the mark. */
  function Power(sign: string, d: string): int
    requires AllDigits(d)
  {
    if sign == "-" then -(Nat(d) as int) else Nat(d)
  }

  /** The digits before and after the point as one number, times ten to `e` less the
      places after the point. */
  ghost function Number(neg: bool, i: string, f: string, e: int): real
    requires AllDigits(i + f)
  {
    Signed(neg, Scaled(Nat(i + f), e - |f|))
  }

  lemma MantissaShape(i: string, f: string)
    requires MantissaPieces(i, f)
    ensures var m := Mantissa(i, f); m != "" && m[0] == i[0] && forall j :: 0 <= j < |m| ==> !IsMark(m[j])
  {
    var m := Mantissa(i, f);
    forall j | 0 <= j < |m|
      ensures !IsMark(m[j])
    {
      assert m[j] == if j < |i| then i[j] else if j == |i| then '.' else f[j - |i| - 1];
    }
  }

  lemma CutMantissaPieces(neg: bool, i: string, f: string, exponent: Option<string>)
    requires MantissaPieces(i, f)
    ensures CutMantissa(neg, Mantissa(i, f), exponent) ==
            Parts(neg, i, if f == "" then None else Some(f), exponent)
  {
    var m := Mantissa(i, f);
    assert m == i + (if f == "" then "" else "." + f);
    forall j | 0 <= j < |i|
      ensures m[j] != '.'
    {
      assert m[j] == i[j];
    }
    PointIs(m, |i|);
    assert m[..|i|] == i;
    if f != "" {
      assert m[|i| + 1..] == f;
    }
  }

  lemma CutUnsignedPieces(neg: bool, m: string, e: string, u: string)
    requires (forall j :: 0 <= j < |m| ==> !IsMark(m[j])) && u == m + e && (e != "" ==> IsMark(e[0]))
    ensures CutUnsigned(neg, u) == CutMantissa(neg, m, if e == "" then None else Some(e[1..]))
  {
    forall j | 0 <= j < |m|
      ensures !IsMark(u[j])
    {
      assert u[j] == m[j];
    }
    if e != "" {
      assert u[|m|] == e[0];
    }
    MarkIs(u, |m|);
    assert u[..|m|] == m;
    if e != "" {
      assert u[|m| + 1..] == e[1..];
    }
  }

  /** The parts that the pieces are cut into. */
  function PartsOf(neg: bool, i: string, f: string, mark: string, sign: string, d: string): Parts {
    Parts(neg, i, if f == "" then None else Some(f), if mark == "" then None else Some(sign + d))
  }

  lemma CutUnsignedAssembled(
      neg: bool, i: string, f: string, mark: string, sign: string, d: string, m: string, e: string)
    requires MantissaPieces(i, f) && ExponentPieces(mark, sign, d)
    requires m == Mantissa(i, f) && e == mark + (sign + d)
    ensures CutUnsigned(neg, m + e) == PartsOf(neg, i, f, mark, sign, d) && (m + e)[..1] == [i[0]]
  {
    MantissaShape(i, f);
    CutMantissaPieces(neg, i, f, if mark == "" then None else Some(sign + d));
    if mark == "" {
      assert e == "";
    } else {
      assert e[0] == mark[0] && e[1..] == sign + d;
    }
    CutUnsignedPieces(neg, m, e, m + e);
  }

  lemma CutSigned(neg: bool, u: string, s: string)
    requires u != "" && u[0] != '-' && s == (if neg then "-" else "") + u
    ensures Cut(s) == CutUnsigned(neg, u)
  {
    if neg {
      assert s[1..] == u;
    } else {
      assert s == u;
    }
  }

  /** Cutting a text put together from pieces gives the pieces back. */
  lemma CutAssembled(neg: bool, i: string, f: string, mark: string, sign: string, d: string, s: string)
    requires MantissaPieces(i, f) && ExponentPieces(mark, sign, d) && s == Assembled(neg, i, f, mark, sign, d)
    ensures Cut(s) == PartsOf(neg, i, f, mark, sign, d)
  {
    var m, e := Mantissa(i, f), mark + (sign + d);
    CutUnsignedAssembled(neg, i, f, mark, sign, d, m, e);
    assert (m + e)[0] == (m + e)[..1][0];
    CutSigned(neg, m + e, s);
  }

  lemma SignedDigits(sign: string, d: string, t: string)
    requires sign in {"", "+", "-"} && AllDigits(d) && d != "" && t == sign + d
    ensures ExponentDigits(t) == d && (t[0] == '-' <==> sign == "-")
  {
    if sign == "" {
      assert t == d;
    } else {
      assert t[1..] == d && t[0] == sign[0];
    }
  }

  lemma PartsValue(neg: bool, i: string, f: string, mark: string, sign: string, d: string, p: Parts)
    requires MantissaPieces(i, f) && ExponentPieces(mark, sign, d) && p == PartsOf(neg, i, f, mark, sign, d)
    ensures p.Grammatical() && p.Exponent() == Power(sign, d) && AllDigits(i + f)
    ensures p.Value() == Number(neg, i, f, Power(sign, d))
  {
    if mark != "" {
      SignedDigits(sign, d, sign + d);
    }
    assert p.Mantissa() == i + f && p.Fraction() == f;
  }

  lemma LexemeOfParts(s: string, p: Parts)
    requires Cut(s) == p && p.Grammatical()
    ensures IsLexeme(s) && Value(s) == p.Value()
    ensures ExponentFits(s) <==> -0x8000_0000_0000_0000 <= p.Exponent() < 0x8000_0000_0000_0000
  {
  }

  /** Every text put together from such pieces is a lexeme, and denotes the number its
      digits and the number after the mark say. */
  lemma LexemeValue(neg: bool, i: string, f: string, mark: string, sign: string, d: string, s: string)
    requires MantissaPieces(i, f) && ExponentPieces(mark, sign, d) && s == Assembled(neg, i, f, mark, sign, d)
    ensures IsLexeme(s) && AllDigits(i + f)
    ensures Value(s) == Number(neg, i, f, Power(sign, d))
    ensures ExponentFits(s) <==> -0x8000_0000_0000_0000 <= Power(sign, d) < 0x8000_0000_0000_0000
  {
    CutAssembled(neg, i, f, mark, sign, d, s);
    PartsValue(neg, i, f, mark, sign, d, PartsOf(neg, i, f, mark, sign, d));
    LexemeOfParts(s, PartsOf(neg, i, f, mark, sign, d));
  }

  lemma ExponentOf(t: string, c: char) returns (mark: string, sign: string, d: string)
    requires IsMark(c) && AllDigits(ExponentDigits(t)) && ExponentDigits(t) != ""
    ensures ExponentPieces(mark, sign, d) && [c] + t == mark + (sign + d)
  {
    mark, d := [c], ExponentDigits(t);
    sign := if IsSigned(t) then [t[0]] else "";
    assert t == sign + d;
  }

  lemma Around(m: string, j: nat)
    requires j < |m|
    ensures m == m[..j] + [m[j]] + m[j + 1..]
  {
  }

  lemma PointPieces(m: string, p: Parts)
    requires p == CutMantissa(p.neg, m, p.exponent) && p.Grammatical()
    ensures MantissaPieces(p.integer, p.Fraction()) && m == Mantissa(p.integer, p.Fraction())
  {
    var j := PointAt(m);
    if j < |m| {
      Around(m, j);
    } else {
      assert p.integer == m[..|m|] == m;
    }
  }

  lemma MarkPieces(u: string, k: nat, exponent: Option<string>) returns (mark: string, sign: string, d: string)
    requires k == MarkAt(u) && exponent == if k < |u| then Some(u[k + 1..]) else None
    requires exponent.Some? ==> AllDigits(ExponentDigits(exponent.value)) && ExponentDigits(exponent.value) != ""
    ensures ExponentPieces(mark, sign, d) && u[k..] == mark + (sign + d)
  {
    if k == |u| {
      mark, sign, d := "", "", "";
      assert u[k..] == mark + (sign + d);
    } else {
      mark, sign, d := ExponentOf(u[k + 1..], u[k]);
      assert u[k..] == [u[k]] + u[k + 1..];
    }
  }

  lemma UnsignedPieces(neg: bool, u: string, p: Parts)
    returns (i: string, f: string, mark: string, sign: string, d: string)
    requires p == CutUnsigned(neg, u) && p.Grammatical()
    ensures MantissaPieces(i, f) && ExponentPieces(mark, sign, d) && u == Mantissa(i, f) + (mark + (sign + d))
  {
    var k := MarkAt(u);
    i, f := p.integer, p.Fraction();
    PointPieces(u[..k], p);
    mark, sign, d := MarkPieces(u, k, p.exponent);
    assert u == u[..k] + u[k..];
  }

  /** Every lexeme is put together from such pieces. */
  lemma LexemePieces(s: string)
    returns (neg: bool, i: string, f: string, mark: string, sign: string, d: string)
    requires IsLexeme(s)
    ensures MantissaPieces(i, f) && ExponentPieces(mark, sign, d) && s == Assembled(neg, i, f, mark, sign, d)
  {
    neg := s != "" && s[0] == '-';
    var u := if neg then s[1..] else s;
    i, f, mark, sign, d := UnsignedPieces(neg, u, Cut(s));
    assert s == (if neg then "-" else "") + u;
  }

  /** The lexemes are exactly the texts the productions put together. */
  lemma LexemeIff(s: string)
    ensures IsLexeme(s) <==>
            exists neg, i, f, mark, sign, d ::
              MantissaPieces(i, f) && ExponentPieces(mark, sign, d) && s == Assembled(neg, i, f, mark, sign, d)
  {
    if IsLexeme(s) {
      var neg, i, f, mark, sign, d := LexemePieces(s);
    }
    forall neg, i, f, mark, sign, d |
      MantissaPieces(i, f) && ExponentPieces(mark, sign, d) && s == Assembled(neg, i, f, mark, sign, d)
      ensures IsLexeme(s)
    {
      LexemeValue(neg, i, f, mark, sign, d, s);
    }
  }

  // ---------- The canonical spelling, without cutting ----------

  /** No exponent, no zero at the end of the fraction, no negative zero. */
  predicate PlainPieces(neg: bool, i: string, f: string) {
    MantissaPieces(i, f) && (f != "" ==> f[|f| - 1] != '0') && !(neg && i == "0" && f == "")
  }

  function PlainText(neg: bool, i: string, f: string): string {
    Assembled(neg, i, f, "", "", "")
  }

  lemma PlainIff(neg: bool, i: string, f: string, t: string)
    requires MantissaPieces(i, f) && t == PlainText(neg, i, f)
    ensures IsPlain(t) <==> PlainPieces(neg, i, f)
  {
    CutAssembled(neg, i, f, "", "", "", t);
    LexemeValue(neg, i, f, "", "", "", t);
  }

  lemma ZeroNumber(neg: bool, i: string, f: string, e: int)
    requires AllDigits(i + f)
    ensures Number(neg, i, f, e) == 0.0 <==> Nat(i + f) == 0
  {
  }

  lemma MeaningOf(s: string, t: string, x: real, y: real, plain: bool, fits: bool)
    requires IsLexeme(s) && IsLexeme(t) && Value(s) == x && Value(t) == y
    requires (IsPlain(t) <==> plain) && (ExponentFits(s) <==> fits)
    ensures Canonical(s) == Some(t) <==> plain && |t| <= 4096 && y == x && (x == 0.0 ==> fits)
  {
    CanonicalMeaning(s, t);
  }

  /** What the number canonicalizer answers, in terms of the pieces alone: one text is
      the answer to another exactly when it is plain, has at most 4096 bytes and denotes
      the same rational; zero also needs an exponent that fits int64. */
  lemma AnswerIff(neg: bool, i: string, f: string, mark: string, sign: string, d: string, s: string,
                  neg': bool, i': string, f': string, t: string)
    requires MantissaPieces(i, f) && ExponentPieces(mark, sign, d) && s == Assembled(neg, i, f, mark, sign, d)
    requires MantissaPieces(i', f') && t == PlainText(neg', i', f')
    ensures IsLexeme(s) && AllDigits(i + f) && AllDigits(i' + f')
    ensures Canonical(s) == Some(t) <==>
      && PlainPieces(neg', i', f') && |t| <= 4096
      && Number(neg', i', f', 0) == Number(neg, i, f, Power(sign, d))
      && (Nat(i + f) == 0 ==> -0x8000_0000_0000_0000 <= Power(sign, d) < 0x8000_0000_0000_0000)
  {
    LexemeValue(neg, i, f, mark, sign, d, s);
    LexemeValue(neg', i', f', "", "", "", t);
    PlainIff(neg', i', f', t);
    ZeroNumber(neg, i, f, Power(sign, d));
    assert Power("", "") == 0;
    var fits := -0x8000_0000_0000_0000 <= Power(sign, d) < 0x8000_0000_0000_0000;
    MeaningOf(s, t, Number(neg, i, f, Power(sign, d)), Number(neg', i', f', 0), PlainPieces(neg', i', f'), fits);
  }

  /** Every answer is put together from plain pieces. */
  lemma AnswerPieces(s: string, t: string) returns (neg: bool, i: string, f: string)
    requires IsLexeme(s) && Canonical(s) == Some(t)
    ensures PlainPieces(neg, i, f) && t == PlainText(neg, i, f)
  {
    CanonicalMeaning(s, t);
    var mark, sign, d;
    neg, i, f, mark, sign, d := LexemePieces(t);
    CutAssembled(neg, i, f, mark, sign, d, t);
    PlainIff(neg, i, f, t);
  }
}
