/** Go's string order and `sort.Strings`. Strings are sequences of code points;
    comparing their UTF-8 bytes gives the same order. */
module Order {

  predicate StrLe(a: string, b: string) {
    a == "" || (b != "" && (a[0] < b[0] || (a[0] == b[0] && StrLe(a[1..], b[1..]))))
  }

  predicate Sorted(s: seq<string>) {
    forall i, j :: 0 <= i < j < |s| ==> StrLe(s[i], s[j])
  }

  predicate Distinct<T(==)>(s: seq<T>) {
    forall i, j :: 0 <= i < j < |s| ==> s[i] != s[j]
  }

  function Insert(x: string, s: seq<string>): seq<string> {
    if s == [] then [x] else if StrLe(x, s[0]) then [x] + s else [s[0]] + Insert(x, s[1..])
  }

  /** `sort.Strings`. */
  function Sort(s: seq<string>): seq<string> {
    if s == [] then [] else Insert(s[0], Sort(s[1..]))
  }

  lemma {:induction false} LeReflexive(a: string)
    ensures StrLe(a, a)
  {
    if a != "" {
      LeReflexive(a[1..]);
    }
  }

  lemma {:induction false} LeTotal(a: string, b: string)
    ensures StrLe(a, b) || StrLe(b, a)
  {
    if a != "" && b != "" {
      LeTotal(a[1..], b[1..]);
    }
  }

  lemma {:induction false} LeAntisymmetric(a: string, b: string)
    requires StrLe(a, b) && StrLe(b, a)
    ensures a == b
  {
    if a != "" {
      LeAntisymmetric(a[1..], b[1..]);
      assert a == [a[0]] + a[1..] && b == [b[0]] + b[1..];
    }
  }

  lemma {:induction false} LeTransitive(a: string, b: string, c: string)
    requires StrLe(a, b) && StrLe(b, c)
    ensures StrLe(a, c)
  {
    if a != "" && a[0] == b[0] == c[0] {
      LeTransitive(a[1..], b[1..], c[1..]);
    }
  }

  lemma {:induction false} InsertSorted(x: string, s: seq<string>)
    requires Sorted(s)
    ensures Sorted(Insert(x, s)) && multiset(Insert(x, s)) == multiset{x} + multiset(s)
  {
    if s == [] {
    } else if StrLe(x, s[0]) {
      forall j | 0 <= j < |s|
        ensures StrLe(x, s[j])
      {
        if j > 0 {
          LeTransitive(x, s[0], s[j]);
        }
      }
      assert multiset([x] + s) == multiset{x} + multiset(s);
    } else {
      InsertSorted(x, s[1..]);
      LeTotal(x, s[0]);
      Below(s[0], x, s[1..], Insert(x, s[1..]));
      assert s == [s[0]] + s[1..];
    }
  }

  /** What is below an item and a list is below their members in any order. */
  lemma Below(low: string, x: string, s: seq<string>, t: seq<string>)
    requires StrLe(low, x) && forall j :: 0 <= j < |s| ==> StrLe(low, s[j])
    requires multiset(t) == multiset{x} + multiset(s)
    ensures forall j :: 0 <= j < |t| ==> StrLe(low, t[j])
  {
    forall j | 0 <= j < |t|
      ensures StrLe(low, t[j])
    {
      assert t[j] in multiset(t);
      if t[j] != x {
        assert t[j] in multiset(s);
        assert t[j] in s;
      }
    }
  }

  lemma {:induction false} SortCorrect(s: seq<string>)
    ensures Sorted(Sort(s)) && multiset(Sort(s)) == multiset(s)
  {
    if s != [] {
      SortCorrect(s[1..]);
      InsertSorted(s[0], Sort(s[1..]));
      assert s == [s[0]] + s[1..];
    }
  }

  /** A multiset has one sorted listing. */
  lemma {:induction false} SortedUnique(a: seq<string>, b: seq<string>)
    requires Sorted(a) && Sorted(b) && multiset(a) == multiset(b)
    ensures a == b
  {
    assert |multiset(a)| == |a| && |multiset(b)| == |b|;
    if a != [] {
      SameHead(a, b);
      SameTail(a, b);
      SortedUnique(a[1..], b[1..]);
      assert a == [a[0]] + a[1..] && b == [b[0]] + b[1..];
    }
  }

  lemma SameHead(a: seq<string>, b: seq<string>)
    requires Sorted(a) && Sorted(b) && multiset(a) == multiset(b) && a != [] && b != []
    ensures a[0] == b[0]
  {
    assert a[0] in multiset(b) && b[0] in multiset(a);
    FirstIsLeast(a, b[0]);
    FirstIsLeast(b, a[0]);
    LeAntisymmetric(a[0], b[0]);
  }

  lemma SameTail<T>(a: seq<T>, b: seq<T>)
    requires multiset(a) == multiset(b) && a != [] && b != [] && a[0] == b[0]
    ensures multiset(a[1..]) == multiset(b[1..])
  {
    assert a == [a[0]] + a[1..] && b == [b[0]] + b[1..];
    assert multiset(a[1..]) == multiset(a) - multiset{a[0]};
    assert multiset(b[1..]) == multiset(b) - multiset{b[0]};
  }

  lemma FirstIsLeast(a: seq<string>, x: string)
    requires Sorted(a) && a != [] && x in a
    ensures StrLe(a[0], x)
  {
    LeReflexive(a[0]);
  }

  /** Without repetition the elements alone determine the multiset. */
  lemma {:induction false} DistinctMultiset<T(!new)>(a: seq<T>, b: seq<T>)
    requires Distinct(a) && Distinct(b)
    requires forall x :: x in a <==> x in b
    ensures multiset(a) == multiset(b)
  {
    forall x
      ensures multiset(a)[x] == multiset(b)[x]
    {
      DistinctCount(a, x);
      DistinctCount(b, x);
    }
  }

  lemma {:induction false} DistinctCount<T>(a: seq<T>, x: T)
    requires Distinct(a)
    ensures multiset(a)[x] == if x in a then 1 else 0
  {
    if a != [] {
      assert a == [a[0]] + a[1..];
      DistinctCount(a[1..], x);
    }
  }

  lemma MultisetDistinct<T(!new)>(a: seq<T>, b: seq<T>)
    requires multiset(a) == multiset(b) && Distinct(a)
    ensures Distinct(b) && forall x :: x in a <==> x in b
  {
    forall x
      ensures x in a <==> x in b
    {
      assert x in a <==> x in multiset(a);
      assert x in b <==> x in multiset(b);
    }
    forall i, j | 0 <= i < j < |b|
      ensures b[i] != b[j]
    {
      DistinctCount(a, b[i]);
      if b[i] == b[j] {
        TwoPlaces(b, i, j);
      }
    }
  }

  lemma TwoPlaces<T>(b: seq<T>, i: int, j: int)
    requires 0 <= i < j < |b| && b[i] == b[j]
    ensures multiset(b)[b[i]] >= 2
  {
    var p, q := b[..j], b[j..];
    assert b == p + q;
    assert p[i] in multiset(p);
    assert q[0] in multiset(q);
  }

  /** Some listing of a finite set, as ranging over a Go map gives it. */
  ghost function Listing(s: set<string>): (r: seq<string>)
    ensures Distinct(r) && forall x :: x in r <==> x in s
  {
    if s == {} then []
    else
      var x :| x in s;
      var r := Listing(s - {x});
      assert forall y :: y in [x] + r <==> y == x || y in r;
      [x] + r
  }

  /** The keys of a map in sorted order. */
  ghost function SortedKeys(s: set<string>): seq<string> {
    Sort(Listing(s))
  }

  lemma SortedKeysCorrect(s: set<string>)
    ensures Sorted(SortedKeys(s)) && Distinct(SortedKeys(s))
    ensures forall x :: x in SortedKeys(s) <==> x in s
  {
    SortCorrect(Listing(s));
    MultisetDistinct(Listing(s), SortedKeys(s));
  }

  /** Sorting does not depend on the order in which the map is ranged over. */
  lemma SortOfKeys(keys: seq<string>, s: set<string>)
    requires Distinct(keys) && forall x :: x in keys <==> x in s
    ensures Sort(keys) == SortedKeys(s)
  {
    SortCorrect(keys);
    SortCorrect(Listing(s));
    DistinctMultiset(keys, Listing(s));
    SortedUnique(Sort(keys), SortedKeys(s));
  }
}
