/** Decimal digit strings, powers of ten and the facts about them that the
    number canonicalizer needs. */
module Decimal {

  predicate IsDigit(c: char) {
    '0' <= c <= '9'
  }

  predicate AllDigits(s: string) {
    forall i :: 0 <= i < |s| ==> IsDigit(s[i])
  }

  function Digit(c: char): nat
    requires IsDigit(c)
  {
    c as int - '0' as int
  }

  /** The natural number a digit string spells; the empty string spells 0. */
  function Nat(s: string): nat
    requires AllDigits(s)
  {
    if s == "" then 0 else 10 * Nat(s[..|s| - 1]) + Digit(s[|s| - 1])
  }

  /** The rational number n times ten to the power e, exactly. */
  ghost function Scaled(n: nat, e: int): (x: real)
    ensures x >= 0.0 && (x == 0.0 <==> n == 0)
    decreases if e < 0 then -e else e
  {
    if e == 0 then n as real else if e > 0 then Scaled(10 * n, e - 1) else Scaled(n, e + 1) / 10.0
  }

  predicate AllZeros(z: string) {
    forall i :: 0 <= i < |z| ==> z[i] == '0'
  }

  function Zeros(n: nat): (s: string)
    ensures |s| == n && AllDigits(s)
    ensures forall i :: 0 <= i < n ==> s[i] == '0'
  {
    seq(n, _ => '0')
  }

  function TrimLeft(s: string): (t: string)
    ensures |t| <= |s| && (AllDigits(s) ==> AllDigits(t))
  {
    if s != "" && s[0] == '0' then TrimLeft(s[1..]) else s
  }

  function TrimRight(s: string): (t: string)
    ensures |t| <= |s| && (AllDigits(s) ==> AllDigits(t))
  {
    if s != "" && s[|s| - 1] == '0' then TrimRight(s[..|s| - 1]) else s
  }

  /** What trimming removes is zeros, and all that can be removed. */
  lemma {:induction false} TrimLeftRemoves(s: string, t: string) returns (z: string)
    requires t == TrimLeft(s)
    ensures AllZeros(z) && s == z + t && (t != "" ==> t[0] != '0')
  {
    if s != "" && s[0] == '0' {
      var rest := s[1..];
      var more := TrimLeftRemoves(rest, t);
      z := "0" + more;
      assert s == "0" + rest;
    } else {
      z := "";
    }
  }

  lemma {:induction false} TrimRightRemoves(s: string, t: string) returns (z: string)
    requires t == TrimRight(s)
    ensures AllZeros(z) && s == t + z && (t != "" ==> t[|t| - 1] != '0')
  {
    if s != "" && s[|s| - 1] == '0' {
      var rest := s[..|s| - 1];
      var more := TrimRightRemoves(rest, t);
      z := more + "0";
      assert s == rest + "0";
    } else {
      z := "";
      assert s == s + z;
    }
  }

  lemma {:induction false} ScaledStep(n: nat, e: int)
    ensures Scaled(10 * n, e) == Scaled(n, e + 1)
    decreases if e < 0 then -e else 0
  {
    if e < -1 {
      ScaledStep(n, e + 1);
    }
  }

  lemma {:induction false} ScaledInjective(m: nat, n: nat, e: int)
    requires Scaled(m, e) == Scaled(n, e)
    ensures m == n
    decreases if e < 0 then -e else e
  {
    if e > 0 {
      ScaledInjective(10 * m, 10 * n, e - 1);
    } else if e < 0 {
      ScaledInjective(m, n, e + 1);
    }
  }

  lemma {:induction false} ScaledShift(n: nat, i: int, j: int) returns (p: nat)
    requires i < j
    ensures Scaled(n, j) == Scaled(10 * p, i)
    decreases j - i
  {
    p := n;
    ScaledStep(n, j - 1);
    if i < j - 1 {
      p := ScaledShift(10 * n, i, j - 1);
    }
  }

  /** Numbers not divisible by ten have one decimal exponent. */
  lemma ScaledUnique(m: nat, i: int, n: nat, j: int)
    requires m % 10 != 0 && n % 10 != 0 && Scaled(m, i) == Scaled(n, j)
    ensures i == j && m == n
  {
    if i < j {
      var p := ScaledShift(n, i, j);
      ScaledInjective(m, 10 * p, i);
    } else if j < i {
      var p := ScaledShift(m, j, i);
      ScaledInjective(10 * p, n, j);
    } else {
      ScaledInjective(m, n, i);
    }
  }

  lemma {:induction false} NatPositive(s: string)
    requires AllDigits(s) && s != "" && s[0] != '0'
    ensures Nat(s) > 0
  {
    if |s| > 1 {
      NatPositive(s[..|s| - 1]);
    } else {
      assert s[..|s| - 1] == "";
    }
  }

  lemma LastDigit(s: string)
    requires AllDigits(s) && s != "" && s[|s| - 1] != '0'
    ensures Nat(s) % 10 != 0
  {
    var k, c := Nat(s[..|s| - 1]), Digit(s[|s| - 1]);
    Remainder(k, c);
  }

  lemma Remainder(k: nat, c: nat)
    requires 0 < c < 10
    ensures (10 * k + c) % 10 == c
  {
  }

  /** Leading zeros do not count. */
  lemma {:induction false} TrimLeftValue(s: string, t: string)
    requires AllDigits(s) && t == TrimLeft(s)
    ensures Nat(t) == Nat(s)
  {
    if s != "" && s[0] == '0' {
      var rest := s[1..];
      TrimLeftValue(rest, t);
      ZeroAhead(rest);
      assert s == "0" + rest;
    }
  }

  lemma {:induction false} ZeroAhead(s: string)
    requires AllDigits(s)
    ensures Nat("0" + s) == Nat(s)
  {
    var z := "0" + s;
    if s == "" {
      assert z[..0] == "";
    } else {
      ZeroAhead(s[..|s| - 1]);
      assert z[..|z| - 1] == "0" + s[..|s| - 1];
    }
  }

  /** Trailing zeros move into the exponent. */
  lemma {:induction false} TrimRightValue(s: string, e: int, t: string, f: int)
    requires AllDigits(s) && t == TrimRight(s) && f == e + |s| - |t|
    ensures Scaled(Nat(s), e) == Scaled(Nat(t), f)
  {
    if s != "" && s[|s| - 1] == '0' {
      var rest := s[..|s| - 1];
      TrimRightValue(rest, e + 1, t, f);
      ScaledStep(Nat(rest), e);
    }
  }

  /** Digit strings without leading zeros are determined by their number. */
  lemma {:induction false} NatInjective(a: string, b: string)
    requires AllDigits(a) && AllDigits(b)
    requires a != "" ==> a[0] != '0'
    requires b != "" ==> b[0] != '0'
    requires Nat(a) == Nat(b)
    ensures a == b
  {
    if a == "" || b == "" {
      if a != "" { NatPositive(a); }
      if b != "" { NatPositive(b); }
    } else {
      var a', b' := a[..|a| - 1], b[..|b| - 1];
      NatInjective(a', b');
      assert a == a' + [a[|a| - 1]] && b == b' + [b[|b| - 1]];
    }
  }
}
