/** UTF-8 (section 3 of RFC 3629) and the order of byte strings: the order the keys and
    the cited hashes are sorted by is the byte order of their encodings. */
module Utf8 {
  import opened Order

  type Byte = x: int | 0 <= x < 256

  /** A code point in one to four bytes, six bits in each byte after the first. */
  function EncodeChar(c: char): (r: seq<Byte>)
    ensures r != []
  {
    var n := c as int;
    if n < 0x80 then [n]
    else if n < 0x800 then [0xC0 + n / 0x40, 0x80 + n % 0x40]
    else if n < 0x1_0000 then [0xE0 + n / 0x1000, 0x80 + n / 0x40 % 0x40, 0x80 + n % 0x40]
    else [0xF0 + n / 0x4_0000, 0x80 + n / 0x1000 % 0x40, 0x80 + n / 0x40 % 0x40, 0x80 + n % 0x40]
  }

  function Encode(s: string): seq<Byte> {
    if s == "" then [] else EncodeChar(s[0]) + Encode(s[1..])
  }

  /** The first difference decides, and a prefix comes first. */
  ghost predicate BytesLe(a: seq<int>, b: seq<int>) {
    a <= b || exists k :: 0 <= k < |a| && k < |b| && a[..k] == b[..k] && a[k] < b[k]
  }

  // ---------- The same order, one byte at a time ----------

  predicate LexLe(a: seq<int>, b: seq<int>) {
    a == [] || (b != [] && (a[0] < b[0] || (a[0] == b[0] && LexLe(a[1..], b[1..]))))
  }

  lemma Lex1(x: int, s: seq<int>, y: int, t: seq<int>)
    ensures LexLe([x] + s, [y] + t) <==> x < y || (x == y && LexLe(s, t))
  {
    assert ([x] + s)[1..] == s && ([y] + t)[1..] == t;
  }

  lemma PrefixStep(x: int, s: seq<int>, y: int, t: seq<int>)
    ensures [x] + s <= [y] + t <==> x == y && s <= t
  {
    var a, b := [x] + s, [y] + t;
    assert a[1..] == s && b[1..] == t;
    if a <= b {
      assert a[0] == b[0] && a[1..] <= b[1..];
    }
    if x == y && s <= t {
      assert b == [x] + (s + t[|s|..]) == a + t[|s|..];
    }
  }

  lemma BytesLeStep(x: int, s: seq<int>, y: int, t: seq<int>)
    ensures BytesLe([x] + s, [y] + t) <==> x < y || (x == y && BytesLe(s, t))
  {
    var a, b := [x] + s, [y] + t;
    PrefixStep(x, s, y, t);
    if x < y {
      assert a[..0] == b[..0] && a[0] < b[0];
    }
    if x == y && BytesLe(s, t) && !(s <= t) {
      var k :| 0 <= k < |s| && k < |t| && s[..k] == t[..k] && s[k] < t[k];
      Later(x, s, t, k);
      assert a[..k + 1] == b[..k + 1] && a[k + 1] < b[k + 1];
    }
    if BytesLe(a, b) && !(a <= b) {
      var k :| 0 <= k < |a| && k < |b| && a[..k] == b[..k] && a[k] < b[k];
      if k > 0 {
        Sooner(x, s, y, t, k);
      }
    }
  }

  lemma Later(x: int, s: seq<int>, t: seq<int>, k: nat)
    requires k < |s| && k < |t| && s[..k] == t[..k]
    ensures ([x] + s)[..k + 1] == ([x] + t)[..k + 1] && ([x] + s)[k + 1] == s[k] && ([x] + t)[k + 1] == t[k]
  {
    assert ([x] + s)[..k + 1] == [x] + s[..k];
    assert ([x] + t)[..k + 1] == [x] + t[..k];
  }

  lemma Sooner(x: int, s: seq<int>, y: int, t: seq<int>, k: nat)
    requires 0 < k <= |s| && k <= |t| && ([x] + s)[..k] == ([y] + t)[..k] && ([x] + s)[k] < ([y] + t)[k]
    ensures x == y && BytesLe(s, t)
  {
    var j := k - 1;
    assert ([x] + s)[..k][0] == x && ([y] + t)[..k][0] == y;
    assert ([x] + s)[..k][1..] == s[..j] && ([y] + t)[..k][1..] == t[..j];
    assert s[j] == ([x] + s)[k] && t[j] == ([y] + t)[k];
  }

  lemma {:induction false} LexIsBytes(a: seq<int>, b: seq<int>)
    ensures LexLe(a, b) <==> BytesLe(a, b)
  {
    if a != [] && b != [] {
      LexIsBytes(a[1..], b[1..]);
      BytesLeStep(a[0], a[1..], b[0], b[1..]);
      assert a == [a[0]] + a[1..] && b == [b[0]] + b[1..];
    }
  }

  // ---------- One code point ----------

  /** The number of bytes a code point takes. */
  function Width(n: int): nat {
    if n < 0x80 then 1 else if n < 0x800 then 2 else if n < 0x1_0000 then 3 else 4
  }

  /** The first byte tells the width, and wider is greater. */
  lemma FirstBytes(c: char, d: char)
    requires Width(c as int) != Width(d as int)
    ensures EncodeChar(c)[0] != EncodeChar(d)[0]
    ensures EncodeChar(c)[0] < EncodeChar(d)[0] <==> c < d
  {
  }

  lemma Lex2(x: int, x': int, s: seq<int>, y: int, y': int, t: seq<int>)
    ensures LexLe([x, x'] + s, [y, y'] + t) <==> x < y || (x == y && (x' < y' || (x' == y' && LexLe(s, t))))
  {
    assert [x, x'] + s == [x] + ([x'] + s) && [y, y'] + t == [y] + ([y'] + t);
    Lex1(x, [x'] + s, y, [y'] + t);
    Lex1(x', s, y', t);
  }

  lemma Split(n: int, m: int, b: int)
    requires b > 0
    ensures n < m <==> n / b < m / b || (n / b == m / b && n % b < m % b)
    ensures n == m <==> n / b == m / b && n % b == m % b
  {
    Quotients(n, m, b, n / b, n % b, m / b, m % b);
  }

  lemma Quotients(n: int, m: int, b: int, q: int, r: int, p: int, s: int)
    requires n == q * b + r && m == p * b + s && 0 <= r < b && 0 <= s < b
    ensures n < m <==> q < p || (q == p && r < s)
    ensures n == m <==> q == p && r == s
  {
    if q < p {
      Times(q + 1, p, b);
    } else if p < q {
      Times(p + 1, q, b);
    }
  }

  lemma Times(q: int, p: int, b: int)
    requires q <= p && b > 0
    ensures q * b <= p * b
  {
  }

  // Two, three and four bytes compare as the number they spread.

  lemma TwoBytes(base: int, n: int, m: int, s: seq<int>, t: seq<int>)
    ensures LexLe([base + n / 0x40, 0x80 + n % 0x40] + s, [base + m / 0x40, 0x80 + m % 0x40] + t) <==>
            n < m || (n == m && LexLe(s, t))
  {
    Split(n, m, 0x40);
    Lex2(base + n / 0x40, 0x80 + n % 0x40, s, base + m / 0x40, 0x80 + m % 0x40, t);
  }

  function Three(base: int, n: int): seq<int> {
    [base + n / 0x1000, 0x80 + n / 0x40 % 0x40, 0x80 + n % 0x40]
  }

  lemma ThreeShape(base: int, n: int, s: seq<int>)
    ensures Three(base, n) + s == [base + n / 0x40 / 0x40, 0x80 + n / 0x40 % 0x40] + ([0x80 + n % 0x40] + s)
  {
    assert n / 0x1000 == n / 0x40 / 0x40;
  }

  lemma ThreeBytes(base: int, n: int, m: int, s: seq<int>, t: seq<int>)
    ensures LexLe(Three(base, n) + s, Three(base, m) + t) <==> n < m || (n == m && LexLe(s, t))
  {
    ThreeShape(base, n, s);
    ThreeShape(base, m, t);
    TwoBytes(base, n / 0x40, m / 0x40, [0x80 + n % 0x40] + s, [0x80 + m % 0x40] + t);
    Lex1(0x80 + n % 0x40, s, 0x80 + m % 0x40, t);
    Split(n, m, 0x40);
  }

  function Four(base: int, n: int): seq<int> {
    [base + n / 0x4_0000, 0x80 + n / 0x1000 % 0x40, 0x80 + n / 0x40 % 0x40, 0x80 + n % 0x40]
  }

  lemma FourShape(base: int, n: int, s: seq<int>)
    ensures Four(base, n) + s == Three(base, n / 0x40) + ([0x80 + n % 0x40] + s)
  {
    assert n / 0x4_0000 == n / 0x40 / 0x1000 && n / 0x1000 == n / 0x40 / 0x40;
  }

  lemma FourBytes(base: int, n: int, m: int, s: seq<int>, t: seq<int>)
    ensures LexLe(Four(base, n) + s, Four(base, m) + t) <==> n < m || (n == m && LexLe(s, t))
  {
    FourShape(base, n, s);
    FourShape(base, m, t);
    ThreeBytes(base, n / 0x40, m / 0x40, [0x80 + n % 0x40] + s, [0x80 + m % 0x40] + t);
    Lex1(0x80 + n % 0x40, s, 0x80 + m % 0x40, t);
    Split(n, m, 0x40);
  }

  lemma SameWidth(c: char, d: char, s: seq<int>, t: seq<int>)
    requires Width(c as int) == Width(d as int)
    ensures LexLe(EncodeChar(c) + s, EncodeChar(d) + t) <==> c < d || (c == d && LexLe(s, t))
  {
    var n, m := c as int, d as int;
    if n < 0x80 {
      Lex1(n, s, m, t);
    } else if n < 0x800 {
      TwoBytes(0xC0, n, m, s, t);
    } else if n < 0x1_0000 {
      ThreeBytes(0xE0, n, m, s, t);
    } else {
      FourBytes(0xF0, n, m, s, t);
    }
  }

  lemma OtherWidth(c: char, d: char, s: seq<int>, t: seq<int>)
    requires Width(c as int) != Width(d as int)
    ensures LexLe(EncodeChar(c) + s, EncodeChar(d) + t) <==> c < d
  {
    var x, y := EncodeChar(c), EncodeChar(d);
    FirstBytes(c, d);
    assert x + s == [x[0]] + (x[1..] + s) && y + t == [y[0]] + (y[1..] + t);
    Lex1(x[0], x[1..] + s, y[0], y[1..] + t);
  }

  // ---------- Strings ----------

  lemma {:induction false} LexOfEncodings(a: string, b: string)
    ensures StrLe(a, b) <==> LexLe(Encode(a), Encode(b))
  {
    if a != "" && b != "" {
      LexOfEncodings(a[1..], b[1..]);
      if Width(a[0] as int) == Width(b[0] as int) {
        SameWidth(a[0], b[0], Encode(a[1..]), Encode(b[1..]));
      } else {
        OtherWidth(a[0], b[0], Encode(a[1..]), Encode(b[1..]));
      }
    }
  }

  /** The order of strings is the byte order of their UTF-8 encodings. */
  lemma OrderOfBytes(a: string, b: string)
    ensures StrLe(a, b) <==> BytesLe(Encode(a), Encode(b))
  {
    LexOfEncodings(a, b);
    LexIsBytes(Encode(a), Encode(b));
  }

  function Points(s: string): (r: seq<int>)
    ensures |r| == |s| && forall i :: 0 <= i < |s| ==> r[i] == s[i] as int
  {
    seq(|s|, i requires 0 <= i < |s| => s[i] as int)
  }

  lemma {:induction false} LexOfPoints(a: string, b: string)
    ensures StrLe(a, b) <==> LexLe(Points(a), Points(b))
  {
    if a != "" && b != "" {
      LexOfPoints(a[1..], b[1..]);
      assert Points(a)[1..] == Points(a[1..]) && Points(b)[1..] == Points(b[1..]);
    }
  }

  lemma PointsPrefix(a: string, b: string, k: nat)
    requires k <= |a| && k <= |b|
    ensures Points(a)[..k] == Points(b)[..k] <==> a[..k] == b[..k]
  {
    if Points(a)[..k] == Points(b)[..k] {
      forall i | 0 <= i < k
        ensures a[i] == b[i]
      {
        assert Points(a)[..k][i] == Points(b)[..k][i];
      }
    }
  }

  /** The same, on code points: the first difference decides, a prefix comes first. */
  lemma OrderOfPoints(a: string, b: string)
    ensures StrLe(a, b) <==>
            a <= b || exists k :: 0 <= k < |a| && k < |b| && a[..k] == b[..k] && a[k] as int < b[k] as int
  {
    LexOfPoints(a, b);
    LexIsBytes(Points(a), Points(b));
    if |a| <= |b| {
      PointsPrefix(a, b, |a|);
      assert Points(a) <= Points(b) <==> Points(a)[..|a|] == Points(b)[..|a|];
      assert a <= b <==> a[..|a|] == b[..|a|];
    }
    forall k | 0 <= k < |a| && k < |b|
      ensures Points(a)[..k] == Points(b)[..k] <==> a[..k] == b[..k]
    {
      PointsPrefix(a, b, k);
    }
  }

  /** No two strings have one encoding. */
  lemma EncodeInjective(a: string, b: string)
    requires Encode(a) == Encode(b)
    ensures a == b
  {
    OrderOfBytes(a, b);
    OrderOfBytes(b, a);
    LeAntisymmetric(a, b);
  }
}
