/** `canonicalNumber` as written: int64 exponents that wrap, refining the
    unbounded `CanonNumber.Canonical`. */
module CanonInt64 {
  import opened Wrappers
  import opened Decimal
  import opened CanonNumber

  const TWO_62: int := 0x4000_0000_0000_0000
  const TWO_64: int := 0x1_0000_0000_0000_0000

  type Int64 = x: int | -TWO_63 <= x < TWO_63

  /** The lengths of strings that fit the bound of `CanonicalNumber`. */
  type Length = x: int | 0 <= x < TWO_62

  /** Two's complement: a sum of two int64 is off by at most one turn. */
  function Wrap(x: int): Int64
    requires -TWO_64 <= x < TWO_64
  {
    if x < -TWO_63 then x + TWO_64 else if x >= TWO_63 then x - TWO_64 else x
  }

  const EXPONENT_LIMIT := "number exponent exceeds canonical expansion limit"
  const EXPANSION_LIMIT := "number exceeds canonical expansion limit"

  /** Base-ten `strconv.ParseInt` with 64 bits: None is a syntax or range error. */
  function ParseInt(t: string): Option<Int64> {
    var d := ExponentDigits(t);
    if d == "" || !AllDigits(d) then None
    else
      var n := if t[0] == '-' then -(Nat(d) as int) else Nat(d);
      if -TWO_63 <= n < TWO_63 then Some(n) else None
  }

  /** The length of the expansion, or None above the limit or below zero. */
  function ExpandedNumberLength(signLength: Length, digitsLength: Length, point: Int64): Option<nat> {
    var length: Int64 :=
      if point >= digitsLength then point
      else if point > 0 then digitsLength + 1
      else Wrap(Wrap(2 - point) + digitsLength);
    var total := Wrap(length + signLength);
    if total < 0 || total > MAX_EXPANDED_NUMBER_BYTES then None else Some(total)
  }

  /** The scale of `core/canon/json.go:187-189`. */
  function WrappedScale(exponent: Int64, fraction: Length, trimmed: Length): Int64 {
    Wrap(Wrap(exponent - fraction) + trimmed)
  }

  predicate ScaleOverflows(scale: Int64, point: Int64, length: Length) {
    (scale > 0 && point < length) || (scale < 0 && point > length)
  }

  /** The length of the expansion in unbounded arithmetic. */
  function TrueLength(sign: nat, length: nat, scale: int): int {
    sign + (if scale >= 0 then length + scale else if length + scale > 0 then length + 1 else 2 - scale)
  }

  /** The two steps of the scale wrap together or not at all. */
  lemma ScaleExact(e: Int64, fraction: Length, trimmed: Length)
    ensures var s, scale := WrappedScale(e, fraction, trimmed), e - fraction + trimmed;
            || s == scale
            || (s <= -TWO_62 && scale >= TWO_62)
            || (s >= TWO_62 && scale <= -TWO_62)
  {
  }

  predicate Accepted(sign: Length, length: Length, scale: Int64, point: Int64) {
    !ScaleOverflows(scale, point, length) && ExpandedNumberLength(sign, length, point).Some?
  }

  lemma LengthExact(sign: Length, length: Length, s: Int64, p: Int64)
    requires sign <= 1 && 1 <= length && p == Wrap(length + s)
    ensures Accepted(sign, length, s, p) <==> TrueLength(sign, length, s) <= MAX_EXPANDED_NUMBER_BYTES
    ensures Accepted(sign, length, s, p) ==>
              p == length + s && ExpandedNumberLength(sign, length, p) == Some(TrueLength(sign, length, s))
  {
  }

  /** Wrapping never lets a wrong length through: the guards accept exactly the
      expansions of at most 4096 bytes, and then nothing has wrapped and the length
      computed is that of the expansion. */
  lemma GuardsExact(
      sign: Length, e: Int64, fraction: Length, trimmed: Length, length: Length, s: Int64, p: Int64, scale: int)
    requires sign <= 1 && length >= 1 && scale == e - fraction + trimmed
    requires s == WrappedScale(e, fraction, trimmed) && p == Wrap(length + s)
    ensures Accepted(sign, length, s, p) <==>
            TrueLength(sign, length, scale) <= MAX_EXPANDED_NUMBER_BYTES
    ensures Accepted(sign, length, s, p) ==>
              p == length + scale && ExpandedNumberLength(sign, length, p) == Some(TrueLength(sign, length, scale))
  {
    ScaleExact(e, fraction, trimmed);
    LengthExact(sign, length, s, p);
  }

  lemma LayoutLength(neg: bool, d: string, scale: int)
    requires d != ""
    ensures |Layout(neg, d, scale)| == TrueLength(if neg then 1 else 0, |d|, scale)
  {
  }

  lemma CutBounds(s: string)
    ensures var p := Cut(s); |p.integer| + |p.Fraction()| <= |s|
  {
  }

  /** The reference decides by the length of the layout alone. */
  lemma CanonicalByLength(s: string, p: Parts, d: string, scale: int)
    requires IsLexeme(s) && p == Cut(s) && d == p.Digits() && scale == p.Scale()
    ensures Canonical(s).Some? <==>
            if d == "" then ExponentFits(s)
            else TrueLength(if p.neg then 1 else 0, |d|, scale) <= MAX_EXPANDED_NUMBER_BYTES
    ensures Canonical(s).Some? ==> Canonical(s) == Some(if d == "" then "0" else Layout(p.neg, d, scale))
  {
    if d != "" {
      LayoutLength(p.neg, d, scale);
    }
  }

  /** An exponent beyond int64 never has a short expansion. */
  lemma HugeExponent(sign: Length, length: Length, e: int, f: Length, t: Length, scale: int)
    requires (e < -TWO_63 || e >= TWO_63) && scale == e - f + t
    ensures TrueLength(sign, length, scale) > MAX_EXPANDED_NUMBER_BYTES
  {
  }

  /** A lexeme whose exponent does not fit is rejected by the reference too. */
  lemma {:induction false} HugeRejected(s: string, p: Parts)
    requires IsLexeme(s) && p == Cut(s) && !ExponentFits(s) && |s| < TWO_62
    ensures Canonical(s) == None
  {
    var d := p.Digits();
    if d != "" {
      CutBounds(s);
      CanonicalByLength(s, p, d, p.Scale());
      HugeExponent(if p.neg then 1 else 0, |d|, p.Exponent(), |p.Fraction()|,
                   |TrimLeft(p.Mantissa())| - |d|, p.Scale());
    }
  }

  /** The exponent as `canonicalNumber` gets it; None is an error of ParseInt. */
  function ParsedExponent(p: Parts): Option<Int64> {
    if p.exponent.None? then Some(0) else ParseInt(p.exponent.value)
  }

  lemma ExponentParsed(s: string, p: Parts)
    requires IsLexeme(s) && |s| < TWO_62 && p == Cut(s)
    ensures ParsedExponent(p) == if ExponentFits(s) then Some(p.Exponent()) else None
    ensures ParsedExponent(p).None? ==> Canonical(s) == None
  {
    if !ExponentFits(s) {
      HugeRejected(s, p);
    }
  }

  /** The reference from the exponent the code parsed. */
  lemma CanonicalFromParts(s: string, p: Parts, exponent: Int64, l: string, d: string, scale: int)
    requires IsLexeme(s) && |s| < TWO_62 && p == Cut(s) && ParsedExponent(p) == Some(exponent)
    requires l == TrimLeft(p.Mantissa()) && d == TrimRight(l) && scale == exponent - |p.Fraction()| + |l| - |d|
    ensures Canonical(s).Some? <==>
            d == "" || TrueLength(if p.neg then 1 else 0, |d|, scale) <= MAX_EXPANDED_NUMBER_BYTES
    ensures Canonical(s).Some? ==> Canonical(s) == Some(if d == "" then "0" else Layout(p.neg, d, scale))
  {
    ExponentParsed(s, p);
    assert p.Exponent() == exponent && ExponentFits(s);
    CanonicalByLength(s, p, d, scale);
  }

  /** The length `canonicalNumber` computes before it writes, from a nonzero number
      with `d` trimmed digits of which `t` trailing zeros are gone. */
  function ReservedLength(sign: Length, exponent: Int64, fraction: Length, t: Length, d: Length): Option<nat> {
    ExpandedNumberLength(sign, d, Wrap(d + WrappedScale(exponent, fraction, t)))
  }

  /** The same from the parts of a lexeme; None where the exponent is refused. */
  function ComputedLength(p: Parts): Option<nat>
    requires p.Grammatical() && |p.Mantissa()| < TWO_62
  {
    if ParsedExponent(p).None? then None
    else
      ReservedLength(if p.neg then 1 else 0, ParsedExponent(p).value, |p.Fraction()|,
                     |TrimLeft(p.Mantissa())| - |p.Digits()|, |p.Digits()|)
  }

  lemma DigitsLeft(w: string, l: string)
    requires l == TrimLeft(w) && l != ""
    ensures TrimRight(l) != ""
  {
    var y := TrimLeftRemoves(w, l);
    var z := TrimRightRemoves(l, TrimRight(l));
    assert l[0] == (TrimRight(l) + z)[0];
  }

  /** The text built from the digits and the position of the decimal point. */
  function PointLayout(sign: string, digits: string, point: int): string {
    if point >= |digits| then sign + digits + Zeros(point - |digits|)
    else if point > 0 then sign + digits[..point] + "." + digits[point..]
    else sign + "0." + Zeros(-point) + digits
  }

  lemma PointLayoutIsLayout(sign: string, digits: string, point: int, scale: int)
    requires (sign == "" || sign == "-") && digits != "" && point == |digits| + scale
    ensures PointLayout(sign, digits, point) == Layout(sign == "-", digits, scale)
  {
    if 0 < point < |digits| {
      assert sign + digits[..point] + "." + digits[point..] == sign + digits[..point] + ("." + digits[point..]);
    } else if point <= 0 {
      assert sign + "0." + Zeros(-point) + digits == sign + "0" + ("." + (Zeros(-point) + digits));
    }
  }

  // ---------- The code ----------

  /** `canonicalNumber`: on every lexeme the int64 code answers as the unbounded
      reference, and the length it reserves for a nonzero number is that of its text. */
  method CanonicalNumber(input: string) returns (r: Result<string, string>)
    requires |input| < TWO_62
    ensures IsLexeme(input) ==> (r.Success? <==> Canonical(input).Some?)
    ensures IsLexeme(input) && r.Success? ==> Some(r.value) == Canonical(input)
    ensures IsLexeme(input) && r.Success? && Cut(input).Digits() != "" ==>
              |Cut(input).Mantissa()| < TWO_62 && ComputedLength(Cut(input)) == Some(|r.value|)
  {
    ghost var p := Cut(input);
    var sign, integer, fraction, exponentText := CutNumber(input);
    var exponent: Int64 := 0;
    if exponentText.Some? {
      var parsed := ParseInt(exponentText.value);
      if parsed.None? {
        if IsLexeme(input) {
          ExponentParsed(input, p);
        }
        return Failure(EXPONENT_LIMIT);
      }
      exponent := parsed.value;
    }
    ghost var l := TrimLeft(integer + fraction);
    ghost var d := TrimRight(l);
    ghost var scale := exponent - |fraction| + |l| - |d|;
    r := Write(sign, integer, fraction, exponent, l, d, scale);
    if IsLexeme(input) {
      WriteAnswers(input, p, exponent, l, d, scale, r);
    }
  }

  /** What `Write` answers on the parts of a lexeme is what the reference answers. */
  lemma WriteAnswers(
      input: string, p: Parts, exponent: Int64, l: string, d: string, scale: int, r: Result<string, string>)
    requires IsLexeme(input) && |input| < TWO_62 && p == Cut(input) && ParsedExponent(p) == Some(exponent)
    requires l == TrimLeft(p.Mantissa()) && d == TrimRight(l) && scale == exponent - |p.Fraction()| + |l| - |d|
    requires |p.Mantissa()| < TWO_62
    requires var sign := if p.neg then 1 else 0;
      && (r.Success? <==> d == "" || TrueLength(sign, |d|, scale) <= MAX_EXPANDED_NUMBER_BYTES)
      && (r.Success? ==> r.value == if d == "" then "0" else Layout(p.neg, d, scale))
      && (r.Success? && d != "" ==> ReservedLength(sign, exponent, |p.Fraction()|, |l| - |d|, |d|) == Some(|r.value|))
    ensures r.Success? <==> Canonical(input).Some?
    ensures r.Success? ==> Some(r.value) == Canonical(input)
    ensures r.Success? && p.Digits() != "" ==> ComputedLength(p) == Some(|r.value|)
  {
    CanonicalFromParts(input, p, exponent, l, d, scale);
  }

  /** The sign, mark and point searches of `core/canon/json.go:163-182`. */
  method CutNumber(input: string) returns (sign: string, integer: string, fraction: string, exponent: Option<string>)
    ensures var p := Cut(input);
            && sign == (if p.neg then "-" else "") && integer == p.integer && fraction == p.Fraction()
            && exponent == p.exponent && |integer| + |fraction| <= |input|
  {
    var rest := input;
    sign, exponent := "", None;
    if rest != "" && rest[0] == '-' {
      sign := "-";
      rest := rest[1..];
    }
    var index := MarkAt(rest);
    if index < |rest| {
      exponent := Some(rest[index + 1..]);
    }
    rest := rest[..index];
    integer, fraction := rest, "";
    index := PointAt(rest);
    if index < |rest| {
      integer, fraction := rest[..index], rest[index + 1..];
    }
  }

  /** The part of `canonicalNumber` after the exponent is parsed. */
  method Write(sign: string, integer: string, fraction: string, exponent: Int64,
               ghost l: string, ghost d: string, ghost trueScale: int)
    returns (r: Result<string, string>)
    requires (sign == "" || sign == "-") && |integer| + |fraction| < TWO_62
    requires l == TrimLeft(integer + fraction) && d == TrimRight(l)
    requires trueScale == exponent - |fraction| + |l| - |d|
    ensures r.Success? <==> d == "" || TrueLength(|sign|, |d|, trueScale) <= MAX_EXPANDED_NUMBER_BYTES
    ensures r.Success? ==> r.value == if d == "" then "0" else Layout(sign == "-", d, trueScale)
    ensures r.Success? && d != "" ==> ReservedLength(|sign|, exponent, |fraction|, |l| - |d|, |d|) == Some(|r.value|)
  {
    var digits := TrimLeft(integer + fraction);
    if digits == "" {
      return Success("0");
    }
    var scale := Wrap(exponent - |fraction|);
    var trimmedDigits := TrimRight(digits);
    scale := Wrap(scale + (|digits| - |trimmedDigits|));
    DigitsLeft(integer + fraction, digits);
    digits := trimmedDigits;
    var point := Wrap(|digits| + scale);
    GuardsExact(|sign|, exponent, |fraction|, |l| - |d|, |digits|, scale, point, trueScale);
    r := Emit(sign, digits, scale, point);
    if r.Success? {
      PointLayoutIsLayout(sign, digits, point, trueScale);
    }
  }

  /** The guards of `core/canon/json.go:193-199` and the text they let through, which
      has the length reserved for it. */
  method Emit(sign: string, digits: string, scale: Int64, point: Int64) returns (r: Result<string, string>)
    requires (sign == "" || sign == "-") && digits != "" && |digits| < TWO_62
    ensures r.Success? <==> Accepted(|sign|, |digits|, scale, point)
    ensures r.Success? ==> r.value == PointLayout(sign, digits, point)
    ensures r.Success? ==> ExpandedNumberLength(|sign|, |digits|, point) == Some(|r.value|)
  {
    if (scale > 0 && point < |digits|) || (scale < 0 && point > |digits|) {
      return Failure(EXPONENT_LIMIT);
    }
    var length := ExpandedNumberLength(|sign|, |digits|, point);
    if length.None? {
      return Failure(EXPANSION_LIMIT);
    }
    var out := sign;
    if point >= |digits| {
      out := out + digits + Zeros(point - |digits|);
    } else if point > 0 {
      out := out + digits[..point] + "." + digits[point..];
    } else {
      out := out + "0." + Zeros(-point) + digits;
    }
    return Success(out);
  }
}
