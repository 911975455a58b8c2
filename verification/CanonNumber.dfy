/** Number lexemes of section 6 of RFC 8259 and their canonical spelling:
    an exact plain decimal, computed with wrapping 64-bit exponents. */
module CanonNumber {
  import opened Wrappers
  import opened Decimal

  const MAX_EXPANDED_NUMBER_BYTES: int := 4096

  const TWO_63: int := 0x8000_0000_0000_0000

  // ---------- Syntax ----------

  predicate IsMark(c: char) {
    c == 'e' || c == 'E'
  }

  /** The first exponent mark, or the length when there is none. */
  function MarkAt(s: string): (i: nat)
    ensures i <= |s| && (i < |s| ==> IsMark(s[i]))
    ensures forall j :: 0 <= j < i ==> !IsMark(s[j])
  {
    if s == "" || IsMark(s[0]) then 0 else 1 + MarkAt(s[1..])
  }

  /** The first decimal point, or the length when there is none. */
  function PointAt(s: string): (i: nat)
    ensures i <= |s| && (i < |s| ==> s[i] == '.')
    ensures forall j :: 0 <= j < i ==> s[j] != '.'
  {
    if s == "" || s[0] == '.' then 0 else 1 + PointAt(s[1..])
  }

  predicate IsSigned(t: string) {
    t != "" && (t[0] == '+' || t[0] == '-')
  }

  function ExponentDigits(t: string): string {
    if IsSigned(t) then t[1..] else t
  }

  /** A text cut at its sign, decimal point and exponent mark. */
  datatype Parts = Parts(neg: bool, integer: string, fraction: Option<string>, exponent: Option<string>)
  {
    /** The grammar of section 6 of RFC 8259. */
    predicate Grammatical() {
      && AllDigits(integer) && integer != "" && (integer[0] == '0' ==> |integer| == 1)
      && (fraction.Some? ==> AllDigits(fraction.value) && fraction.value != "")
      && (exponent.Some? ==> AllDigits(ExponentDigits(exponent.value)) && ExponentDigits(exponent.value) != "")
    }

    function Fraction(): string {
      if fraction.Some? then fraction.value else ""
    }

    function Exponent(): int
      requires Grammatical()
    {
      if exponent.None? then 0
      else
        var n := Nat(ExponentDigits(exponent.value));
        if exponent.value[0] == '-' then -(n as int) else n
    }

    /** The rational number the parts denote. */
    ghost function Value(): real
      requires Grammatical()
    {
      Signed(neg, Scaled(Nat(Mantissa()), Exponent() - |Fraction()|))
    }

    /** The digits before and after the point, as one string. */
    function Mantissa(): (w: string)
      requires Grammatical()
      ensures AllDigits(w)
    {
      integer + Fraction()
    }

    function Digits(): (d: string)
      requires Grammatical()
      ensures AllDigits(d)
    {
      TrimRight(TrimLeft(Mantissa()))
    }

    function Scale(): int
      requires Grammatical()
    {
      Exponent() - |Fraction()| + |TrimLeft(Mantissa())| - |Digits()|
    }

    /** No exponent, no superfluous zero, no negative zero. */
    predicate Plain() {
      && Grammatical() && exponent.None?
      && (fraction.Some? ==> fraction.value[|fraction.value| - 1] != '0')
      && !(neg && integer == "0" && fraction.None?)
    }
  }

  function CutMantissa(neg: bool, m: string, exponent: Option<string>): Parts {
    Parts(neg, m[..PointAt(m)], if PointAt(m) < |m| then Some(m[PointAt(m) + 1..]) else None, exponent)
  }

  function CutUnsigned(neg: bool, u: string): Parts {
    CutMantissa(neg, u[..MarkAt(u)], if MarkAt(u) < |u| then Some(u[MarkAt(u) + 1..]) else None)
  }

  function Cut(s: string): Parts {
    if s != "" && s[0] == '-' then CutUnsigned(true, s[1..]) else CutUnsigned(false, s)
  }

  predicate IsLexeme(s: string) {
    Cut(s).Grammatical()
  }

  ghost function Signed(neg: bool, x: real): real {
    if neg then -x else x
  }

  ghost function Value(s: string): real
    requires IsLexeme(s)
  {
    Cut(s).Value()
  }

  /** A plain decimal; there is one for every decimal rational (`PlainUnique`). */
  predicate IsPlain(s: string) {
    Cut(s).Plain()
  }

  predicate ExponentFits(s: string)
    requires IsLexeme(s)
  {
    -TWO_63 <= Cut(s).Exponent() < TWO_63
  }

  // ---------- The reference: unbounded expansion ----------

  /** A sign, an integer part and, unless it is empty, a fraction. */
  function SpellParts(neg: bool, integer: string, fraction: string): string {
    (if neg then "-" else "") + integer + (if fraction == "" then "" else "." + fraction)
  }

  function LayoutInteger(digits: string, scale: int): string {
    if scale >= 0 then digits + Zeros(scale)
    else if |digits| + scale > 0 then digits[..|digits| + scale]
    else "0"
  }

  function LayoutFraction(digits: string, scale: int): string {
    if scale >= 0 then ""
    else if |digits| + scale > 0 then digits[|digits| + scale..]
    else Zeros(-scale - |digits|) + digits
  }

  /** The digits with the decimal point `scale` places to the right of their end. */
  function Layout(neg: bool, digits: string, scale: int): string {
    SpellParts(neg, LayoutInteger(digits, scale), LayoutFraction(digits, scale))
  }

  function Expand(s: string): string
    requires IsLexeme(s)
  {
    var p := Cut(s);
    if p.Digits() == "" then "0" else Layout(p.neg, p.Digits(), p.Scale())
  }

  /** What `canonicalNumber` answers, in unbounded arithmetic. */
  function Canonical(s: string): Option<string>
    requires IsLexeme(s)
  {
    if Cut(s).Digits() == "" then (if ExponentFits(s) then Some("0") else None)
    else if |Expand(s)| <= MAX_EXPANDED_NUMBER_BYTES then Some(Expand(s))
    else None
  }

  // ---------- Spelling and cutting are inverse ----------

  lemma MarkIs(u: string, k: nat)
    requires k <= |u| && (k < |u| ==> IsMark(u[k])) && forall j :: 0 <= j < k ==> !IsMark(u[j])
    ensures MarkAt(u) == k
  {
  }

  lemma PointIs(m: string, k: nat)
    requires k <= |m| && (k < |m| ==> m[k] == '.') && forall j :: 0 <= j < k ==> m[j] != '.'
    ensures PointAt(m) == k
  {
  }

  function PlainParts(neg: bool, integer: string, fraction: string): Parts {
    Parts(neg, integer, if fraction == "" then None else Some(fraction), None)
  }

  lemma CutSpell(neg: bool, i: string, f: string)
    requires AllDigits(i) && AllDigits(f) && i != ""
    ensures Cut(SpellParts(neg, i, f)) == PlainParts(neg, i, f)
  {
    var t, u := SpellParts(neg, i, f), SpellParts(false, i, f);
    assert t == (if neg then "-" else "") + u;
    assert u[0] == i[0];
    if neg {
      assert t[1..] == u;
    }
    CutUnsignedSpell(neg, i, f, u);
  }

  lemma CutUnsignedSpell(neg: bool, i: string, f: string, u: string)
    requires AllDigits(i) && AllDigits(f) && u == SpellParts(false, i, f)
    ensures CutUnsigned(neg, u) == PlainParts(neg, i, f)
  {
    SpellShape(i, f);
    MarkIs(u, |u|);
    assert u[..|u|] == u;
    CutMantissaSpell(neg, i, f);
  }

  lemma CutMantissaSpell(neg: bool, i: string, f: string)
    requires AllDigits(i) && AllDigits(f)
    ensures CutMantissa(neg, SpellParts(false, i, f), None) == PlainParts(neg, i, f)
  {
    var u := SpellParts(false, i, f);
    SpellShape(i, f);
    PointIs(u, |i|);
    assert u == i + (if f == "" then "" else "." + f);
    assert u[..|i|] == i;
    if f != "" {
      assert u[|i| + 1..] == f;
    }
  }

  lemma SpellShape(i: string, f: string)
    requires AllDigits(i) && AllDigits(f)
    ensures var u := SpellParts(false, i, f);
            && (forall k :: 0 <= k < |u| ==> !IsMark(u[k])) && |i| <= |u|
            && (forall k :: 0 <= k < |i| ==> u[k] != '.') && (f != "" ==> |i| < |u| && u[|i|] == '.')
            && (f == "" ==> |u| == |i|)
  {
    var u := SpellParts(false, i, f);
    forall k | 0 <= k < |u|
      ensures !IsMark(u[k]) && (k < |i| ==> u[k] != '.')
    {
      assert u[k] == if k < |i| then i[k] else if k == |i| then '.' else f[k - |i| - 1];
    }
  }

  /** A lexeme without exponent is spelled from its own parts. */
  lemma SpellCut(s: string)
    requires IsLexeme(s) && Cut(s).exponent.None?
    ensures var p := Cut(s); s == SpellParts(p.neg, p.integer, p.Fraction())
  {
    var p := Cut(s);
    var u := if p.neg then s[1..] else s;
    assert u[..MarkAt(u)] == u;
    if p.fraction.Some? {
      assert u == p.integer + "." + p.Fraction();
    } else {
      assert u == p.integer;
    }
  }

  // ---------- Layout and its parts ----------

  /** Trimmed digits: nothing left to remove at either end. */
  predicate Trimmed(d: string) {
    AllDigits(d) && d != "" && d[0] != '0' && d[|d| - 1] != '0'
  }

  lemma {:induction false} TrimLeftIs(z: string, t: string)
    requires AllZeros(z) && (t != "" ==> t[0] != '0')
    ensures TrimLeft(z + t) == t
  {
    if z == "" {
      assert z + t == t;
    } else {
      assert (z + t)[1..] == z[1..] + t;
      TrimLeftIs(z[1..], t);
    }
  }

  lemma {:induction false} TrimRightIs(t: string, z: string)
    requires AllZeros(z) && (t != "" ==> t[|t| - 1] != '0')
    ensures TrimRight(t + z) == t
  {
    if z == "" {
      assert t + z == t;
    } else {
      assert (t + z)[..|t + z| - 1] == t + z[..|z| - 1];
      TrimRightIs(t, z[..|z| - 1]);
    }
  }

  lemma Untouched(d: string)
    requires d != "" ==> d[0] != '0'
    ensures TrimLeft(d) == d
    ensures d != "" && d[|d| - 1] != '0' ==> TrimRight(d) == d
  {
  }

  lemma WholeDigits(d: string, z: string)
    requires Trimmed(d) && AllZeros(z)
    ensures TrimLeft(d + z) == d + z && TrimRight(d + z) == d
  {
    Untouched(d + z);
    TrimRightIs(d, z);
  }

  lemma SmallDigits(d: string, z: string)
    requires Trimmed(d) && AllZeros(z)
    ensures TrimLeft("0" + (z + d)) == d && TrimRight(d) == d
  {
    assert "0" + (z + d) == ("0" + z) + d;
    TrimLeftIs("0" + z, d);
    Untouched(d);
  }

  lemma LayoutDigits(d: string, scale: int, i: string, f: string, w: string)
    requires Trimmed(d) && i == LayoutInteger(d, scale) && f == LayoutFraction(d, scale) && w == i + f
    ensures TrimRight(TrimLeft(w)) == d && |TrimLeft(w)| - |d| - |f| == scale
  {
    if scale >= 0 {
      assert w == d + Zeros(scale);
      WholeDigits(d, Zeros(scale));
    } else if |d| + scale > 0 {
      assert w == d;
      Untouched(d);
    } else {
      SmallDigits(d, Zeros(-scale - |d|));
    }
  }

  lemma LayoutShape(d: string, scale: int, i: string, f: string)
    requires Trimmed(d) && i == LayoutInteger(d, scale) && f == LayoutFraction(d, scale)
    ensures AllDigits(i) && i != "" && (i[0] == '0' ==> |i| == 1)
    ensures AllDigits(f) && (f != "" ==> f[|f| - 1] != '0')
  {
  }

  /** Laying out trimmed digits and reading the parts back changes nothing. */
  lemma LayoutParts(neg: bool, d: string, scale: int)
    requires Trimmed(d)
    ensures var p := Cut(Layout(neg, d, scale));
            p.Plain() && p.neg == neg && p.Digits() == d && p.Scale() == scale
  {
    var i, f := LayoutInteger(d, scale), LayoutFraction(d, scale);
    LayoutShape(d, scale, i, f);
    LayoutDigits(d, scale, i, f, i + f);
    CutSpell(neg, i, f);
  }

  /** The plain parts with given digits and scale are the ones `Layout` spells. */
  lemma PlainLayout(p: Parts)
    requires p.Plain() && p.Digits() != ""
    ensures p.integer == LayoutInteger(p.Digits(), p.Scale())
    ensures p.Fraction() == LayoutFraction(p.Digits(), p.Scale())
  {
    var i, f, d, l := p.integer, p.Fraction(), p.Digits(), TrimLeft(p.Mantissa());
    var z := PlainTrim(i, f, p.Mantissa(), l, d);
    LayoutOfTrimmed(i, f, l, d, z, p.Scale());
  }

  /** How the trimmed digits of plain parts sit in them. */
  predicate PlainlyTrimmed(i: string, f: string, l: string, d: string, z: string) {
    && AllZeros(z)
    && if f == "" then l == i && i == d + z
       else if i == "0" then l == d && f == z + d
       else l == d && d == i + f
  }

  lemma LayoutOfTrimmed(i: string, f: string, l: string, d: string, z: string, scale: int)
    requires i != "" && d != "" && PlainlyTrimmed(i, f, l, d, z) && scale == |l| - |d| - |f|
    ensures i == LayoutInteger(d, scale) && f == LayoutFraction(d, scale)
  {
    assert z == Zeros(|z|);
    if f != "" && i != "0" {
      assert d[..|i|] == i && d[|i|..] == f;
    }
  }

  lemma PlainTrim(i: string, f: string, w: string, l: string, d: string) returns (z: string)
    requires i != "" && (i[0] == '0' ==> |i| == 1) && (f != "" ==> f[|f| - 1] != '0')
    requires w == i + f && l == TrimLeft(w) && d == TrimRight(l)
    ensures d == "" <==> i == "0" && f == ""
    ensures d != "" ==> PlainlyTrimmed(i, f, l, d, z)
  {
    if f == "" {
      assert w == i;
      z := TrimWhole(i, l, d);
    } else if i[0] == '0' {
      assert i == "0" && w == "0" + f;
      z := TrimSmall(f, w, l, d);
    } else {
      z := "";
      assert w[0] == i[0] && w[|w| - 1] == f[|f| - 1];
      Untouched(w);
    }
  }

  lemma TrimWhole(i: string, l: string, d: string) returns (z: string)
    requires i != "" && (i[0] == '0' ==> |i| == 1) && l == TrimLeft(i) && d == TrimRight(l)
    ensures d == "" <==> i == "0"
    ensures d != "" ==> PlainlyTrimmed(i, "", l, d, z)
  {
    if i[0] == '0' {
      assert i == "0";
      TrimZero();
      z := "";
    } else {
      assert l == i;
      z := TrimRightRemoves(l, d);
      assert l[0] == (d + z)[0];
    }
  }

  lemma TrimZero()
    ensures TrimLeft("0") == "" && TrimRight("") == ""
  {
    assert "0"[1..] == "";
  }

  lemma TrimSmall(f: string, w: string, l: string, d: string) returns (z: string)
    requires f != "" && f[|f| - 1] != '0' && w == "0" + f && l == TrimLeft(w) && d == TrimRight(l)
    ensures d != "" && PlainlyTrimmed("0", f, l, d, z)
  {
    assert w[1..] == f;
    z := TrimLeftRemoves(f, l);
    assert f[|f| - 1] == (z + l)[|f| - 1];
    Untouched(l);
  }

  // ---------- Values ----------

  /** What is left after trimming has no zero at either end. */
  lemma TrimmedEnds(l: string, w: string, d: string)
    requires AllDigits(w) && l == TrimLeft(w) && d == TrimRight(l) && d != ""
    ensures Trimmed(d)
  {
    var y := TrimLeftRemoves(w, l);
    var z := TrimRightRemoves(l, d);
    assert l[0] == d[0];
  }

  lemma TrimmedNat(d: string)
    requires d == "" || Trimmed(d)
    ensures AllDigits(d) && (d == "" <==> Nat(d) == 0) && (d != "" ==> Nat(d) % 10 != 0)
  {
    if d != "" {
      NatPositive(d);
      LastDigit(d);
    }
  }

  lemma NormalForm(p: Parts)
    requires p.Grammatical()
    ensures p.Value() == Signed(p.neg, Scaled(Nat(p.Digits()), p.Scale()))
    ensures p.Digits() == "" <==> Nat(p.Digits()) == 0
    ensures p.Digits() != "" ==> Trimmed(p.Digits()) && Nat(p.Digits()) % 10 != 0
  {
    var w, d := p.Mantissa(), p.Digits();
    var l := TrimLeft(w);
    TrimmedValue(w, p.Exponent() - |p.Fraction()|, l, d, p.Scale());
    if d != "" {
      TrimmedEnds(l, w, d);
    }
    TrimmedNat(d);
  }

  lemma TrimmedValue(w: string, e: int, l: string, d: string, scale: int)
    requires AllDigits(w) && l == TrimLeft(w) && d == TrimRight(l) && scale == e + |l| - |d|
    ensures AllDigits(l) && AllDigits(d) && Scaled(Nat(w), e) == Scaled(Nat(d), scale)
  {
    TrimLeftValue(w, l);
    TrimRightValue(l, e, d, scale);
  }

  lemma PlainZero(p: Parts)
    requires p.Plain() && p.Digits() == ""
    ensures p == PlainParts(false, "0", "")
  {
    var w := p.Mantissa();
    var z := PlainTrim(p.integer, p.Fraction(), w, TrimLeft(w), p.Digits());
  }

  /** There is at most one plain decimal for a value. */
  lemma PlainUnique(s: string, t: string)
    requires IsPlain(s) && IsPlain(t) && Value(s) == Value(t)
    ensures s == t
  {
    var p, q := Cut(s), Cut(t);
    NormalForm(p);
    NormalForm(q);
    if p.Digits() == "" {
      PlainZero(p);
      PlainZero(q);
    } else {
      ScaledUnique(Nat(p.Digits()), p.Scale(), Nat(q.Digits()), q.Scale());
      NatInjective(p.Digits(), q.Digits());
      PlainLayout(p);
      PlainLayout(q);
    }
    SpellCut(s);
    SpellCut(t);
  }

  lemma ZeroIsPlain()
    ensures Cut("0") == PlainParts(false, "0", "") && IsPlain("0") && Value("0") == 0.0
  {
    CutSpell(false, "0", "");
    assert SpellParts(false, "0", "") == "0";
    var w := "0" + "";
    var z := PlainTrim("0", "", w, TrimLeft(w), TrimRight(TrimLeft(w)));
    NormalForm(Cut("0"));
  }

  /** The expansion is the plain decimal of the lexeme's own value. */
  lemma ExpandIsPlain(s: string)
    requires IsLexeme(s)
    ensures IsPlain(Expand(s)) && Value(Expand(s)) == Value(s)
  {
    var p := Cut(s);
    NormalForm(p);
    if p.Digits() == "" {
      ZeroIsPlain();
    } else {
      LayoutParts(p.neg, p.Digits(), p.Scale());
      NormalForm(Cut(Expand(s)));
    }
  }

  /** The main result on numbers: the answer is the plain decimal of the same
      rational, when that has at most 4096 bytes; zero needs its exponent to fit. */
  lemma {:induction false} CanonicalMeaning(s: string, t: string)
    requires IsLexeme(s)
    ensures Canonical(s) == Some(t) <==>
            && IsPlain(t) && Value(t) == Value(s) && |t| <= MAX_EXPANDED_NUMBER_BYTES
            && (Value(s) == 0.0 ==> ExponentFits(s))
  {
    NormalForm(Cut(s));
    ExpandIsPlain(s);
    if IsPlain(t) && Value(t) == Value(s) {
      PlainUnique(Expand(s), t);
    }
  }

  /** Canonical numbers are unique: one output for one rational. */
  lemma {:induction false} CanonicalUnique(a: string, b: string)
    requires IsLexeme(a) && IsLexeme(b) && Canonical(a).Some? && Canonical(b).Some?
    ensures Canonical(a) == Canonical(b) <==> Value(a) == Value(b)
  {
    CanonicalMeaning(a, Canonical(a).value);
    CanonicalMeaning(b, Canonical(b).value);
    CanonicalMeaning(a, Canonical(b).value);
  }

  /** Every output is a lexeme that is mapped to itself. */
  lemma {:induction false} CanonicalFixed(s: string)
    requires IsLexeme(s) && Canonical(s).Some?
    ensures var t := Canonical(s).value; IsLexeme(t) && Canonical(t) == Some(t)
  {
    var t := Canonical(s).value;
    CanonicalMeaning(s, t);
    CanonicalMeaning(t, t);
  }
}
