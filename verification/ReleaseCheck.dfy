/** The loop of the release archive checker and the order-free property it decides. */
module ReleaseCheck {
  import opened Order

  const REQUIRED_PREFIX := "provehito/"
  const MAX_FILE_SIZE: int := 32 * 1024 * 1024
  const MAX_TOTAL_SIZE: int := 32 * 1024 * 1024

  type UInt64 = x: int | 0 <= x < 0x1_0000_0000_0000_0000

  /** An archive entry; `readable` and `clean` are the outcomes of reading
      its content and scanning it. */
  datatype Entry = Entry(
    name: string, encrypted: bool, regular: bool, size: UInt64, compressed: UInt64,
    readable: bool, clean: bool)

  /** The name rules of the checker, its case folding and its compression limit. */
  datatype Rules = Rules(
    badName: string -> bool, lower: string -> string, forbidden: string -> bool,
    tooDense: (UInt64, UInt64) -> bool)

  // ---------- The order-free property ----------

  predicate HasPrefix(name: string) {
    REQUIRED_PREFIX <= name
  }

  /** An entry below the prefix that is no directory. */
  predicate IsMember(e: Entry) {
    HasPrefix(e.name) && e.name != REQUIRED_PREFIX && e.name[|e.name| - 1] != '/'
  }

  function Relative(e: Entry): string {
    if HasPrefix(e.name) then e.name[|REQUIRED_PREFIX|..] else e.name
  }

  /** A member is a name below the prefix that does not end in a slash. */
  lemma MemberName(e: Entry, rest: string)
    requires e.name == "provehito/" + rest
    ensures IsMember(e) <==> rest != "" && rest[|rest| - 1] != '/'
    ensures Relative(e) == rest
  {
    assert e.name[10..] == rest;
    if rest == "" {
      assert e.name == "provehito/";
    } else {
      assert e.name[|e.name| - 1] == rest[|rest| - 1];
    }
  }

  /** The rules that look at one entry alone. */
  predicate LocallyFine(rules: Rules, e: Entry) {
    && !rules.badName(e.name) && !e.encrypted && e.regular && !rules.forbidden(e.name)
    && e.size <= 33_554_432 && !rules.tooDense(e.size, e.compressed) && HasPrefix(e.name)
    && (IsMember(e) ==> e.readable && e.clean)
  }

  function Names(entries: seq<Entry>): seq<string> {
    if entries == [] then [] else Names(entries[..|entries| - 1]) + [entries[|entries| - 1].name]
  }

  function Folds(rules: Rules, entries: seq<Entry>): seq<string> {
    if entries == [] then []
    else Folds(rules, entries[..|entries| - 1]) + [rules.lower(entries[|entries| - 1].name)]
  }

  function Total(entries: seq<Entry>): nat {
    if entries == [] then 0 else Total(entries[..|entries| - 1]) + entries[|entries| - 1].size
  }

  function Members(entries: seq<Entry>): seq<string> {
    if entries == [] then []
    else
      var e := entries[|entries| - 1];
      Members(entries[..|entries| - 1]) + (if IsMember(e) then [Relative(e)] else [])
  }

  predicate AllFine(rules: Rules, entries: seq<Entry>) {
    && (forall i :: 0 <= i < |entries| ==> LocallyFine(rules, entries[i]))
    && Distinct(Folds(rules, entries)) && Total(entries) <= 33_554_432
  }

  /** What structural PASS means. Distinct under folding implies distinct. */
  predicate Passes(rules: Rules, entries: seq<Entry>, expected: seq<string>) {
    AllFine(rules, entries) && (expected != [] ==> multiset(Members(entries)) == multiset(expected))
  }

  // ---------- The loop ----------

  lemma NewName(rules: Rules, entries: seq<Entry>, e: Entry)
    ensures e.name in Names(entries) ==> rules.lower(e.name) in Folds(rules, entries)
    decreases |entries|
  {
    if entries != [] {
      NewName(rules, entries[..|entries| - 1], e);
    }
  }

  lemma AllFineNext(rules: Rules, entries: seq<Entry>, e: Entry)
    ensures AllFine(rules, entries + [e]) <==>
      && AllFine(rules, entries) && LocallyFine(rules, e)
      && rules.lower(e.name) !in Folds(rules, entries) && Total(entries) + e.size <= MAX_TOTAL_SIZE
  {
    var all := entries + [e];
    assert all[..|all| - 1] == entries && all[|all| - 1] == e;
    DistinctNext(Folds(rules, entries), rules.lower(e.name));
    assert forall i :: 0 <= i < |entries| ==> all[i] == entries[i];
    assert all[|entries|] == e;
  }

  lemma DistinctNext(s: seq<string>, x: string)
    ensures Distinct(s + [x]) <==> Distinct(s) && x !in s
  {
    var t := s + [x];
    if Distinct(t) {
      assert forall i, j :: 0 <= i < j < |s| ==> t[i] == s[i] && t[j] == s[j];
      assert t[|s|] == x;
      assert forall i :: 0 <= i < |s| ==> t[i] == s[i];
    }
  }

  lemma {:induction false} AllFinePrefix(rules: Rules, entries: seq<Entry>, i: nat)
    requires i <= |entries| && AllFine(rules, entries)
    ensures AllFine(rules, entries[..i])
    decreases |entries|
  {
    if i == |entries| {
      assert entries[..i] == entries;
    } else {
      var init := entries[..|entries| - 1];
      assert entries == init + [entries[|entries| - 1]];
      AllFineNext(rules, init, entries[|entries| - 1]);
      AllFinePrefix(rules, init, i);
      assert init[..i] == entries[..i];
    }
  }

  /** What one turn of the loop does to its variables; `fine` is false when the
      entry gave a structural finding. */
  datatype Tally = Tally(seen: set<string>, folds: set<string>, total: UInt64, members: seq<string>, fine: bool)

  /** The body of the loop, with its order of tests and its early exits. */
  method Visit(rules: Rules, e: Entry, t: Tally) returns (r: Tally)
    requires t.total <= MAX_TOTAL_SIZE
    requires e.name in t.seen ==> rules.lower(e.name) in t.folds
    ensures r.total <= MAX_TOTAL_SIZE
    ensures r.fine <==> t.fine && LocallyFine(rules, e) && rules.lower(e.name) !in t.folds
                        && t.total + e.size <= MAX_TOTAL_SIZE
    ensures r.fine ==> r == Tally(t.seen + {e.name}, t.folds + {rules.lower(e.name)}, t.total + e.size,
                                  t.members + (if IsMember(e) then [Relative(e)] else []), true)
    ensures t.folds <= r.folds && t.seen <= r.seen
    ensures e.name in r.seen - t.seen ==> rules.lower(e.name) in r.folds
    ensures r.seen <= t.seen + {e.name}
  {
    r := t;
    if rules.badName(e.name) || e.encrypted || !e.regular {
      return r.(fine := false);
    }
    if e.name in r.seen {
      return r.(fine := false);
    }
    r := r.(seen := r.seen + {e.name});
    var fold := rules.lower(e.name);
    if fold in r.folds {
      return r.(fine := false);
    }
    r := r.(folds := r.folds + {fold});
    if rules.forbidden(e.name) || e.size > MAX_FILE_SIZE {
      return r.(fine := false);
    }
    var room: UInt64 := MAX_TOTAL_SIZE - r.total;
    if e.size > room {
      return r.(fine := false);
    }
    r := r.(total := r.total + e.size);
    if rules.tooDense(e.size, e.compressed) || !HasPrefix(e.name) {
      return r.(fine := false);
    }
    if e.name == REQUIRED_PREFIX || e.name[|e.name| - 1] == '/' {
      return r;
    }
    r := r.(members := r.members + [Relative(e)]);
    if !e.readable || !e.clean {
      return r.(fine := false);
    }
  }

  /** `Check`: structural PASS exactly for the order-free property. The running
      total stays within its limit, so it neither wraps nor underflows. */
  method Check(rules: Rules, entries: seq<Entry>, expected: seq<string>) returns (pass: bool)
    ensures pass <==> Passes(rules, entries, expected)
  {
    var t := Tally({}, {}, 0, [], true);
    var i := 0;
    while i < |entries|
      invariant 0 <= i <= |entries| && t.total <= MAX_TOTAL_SIZE
      invariant t.fine <==> AllFine(rules, entries[..i])
      invariant t.fine ==> t.total == Total(entries[..i]) && t.members == Members(entries[..i])
      invariant t.fine ==> forall x :: x in t.folds <==> x in Folds(rules, entries[..i])
      invariant forall n :: n in t.seen ==> rules.lower(n) in t.folds
    {
      var e := entries[i];
      ghost var done := entries[..i];
      assert entries[..i + 1] == done + [e];
      AllFineNext(rules, done, e);
      assert (done + [e])[..|done + [e]| - 1] == done;
      t := Visit(rules, e, t);
      i := i + 1;
    }
    assert entries[..i] == entries;
    if !t.fine {
      return false;
    }
    if |expected| > 0 {
      pass := SortedEqual(t.members, expected);
    } else {
      pass := true;
    }
  }

  /** Sorting both lists and comparing them decides equality as multisets. */
  method SortedEqual(a: seq<string>, b: seq<string>) returns (equal: bool)
    ensures equal <==> multiset(a) == multiset(b)
  {
    SortCorrect(a);
    SortCorrect(b);
    if multiset(a) == multiset(b) {
      SortedUnique(Sort(a), Sort(b));
    }
    equal := EqualSlices(Sort(a), Sort(b));
  }

  method EqualSlices(a: seq<string>, b: seq<string>) returns (equal: bool)
    ensures equal <==> a == b
  {
    if |a| != |b| {
      return false;
    }
    var i := 0;
    while i < |a|
      invariant 0 <= i <= |a| && forall j :: 0 <= j < i ==> a[j] == b[j]
    {
      if a[i] != b[i] {
        return false;
      }
      i := i + 1;
    }
    return true;
  }

  // ---------- Order does not matter ----------

  function Own(e: Entry): seq<string> {
    if IsMember(e) then [Relative(e)] else []
  }

  /** What the entries add up to, order aside. */
  datatype Sums = Sums(folds: multiset<string>, total: nat, members: multiset<string>)

  function Plus(rules: Rules, s: Sums, e: Entry): Sums {
    Sums(s.folds + multiset{rules.lower(e.name)}, s.total + e.size, s.members + multiset(Own(e)))
  }

  function SumOf(rules: Rules, entries: seq<Entry>): Sums {
    if entries == [] then Sums(multiset{}, 0, multiset{})
    else Plus(rules, SumOf(rules, entries[..|entries| - 1]), entries[|entries| - 1])
  }

  lemma {:induction false} SumMeans(rules: Rules, entries: seq<Entry>)
    ensures SumOf(rules, entries) ==
            Sums(multiset(Folds(rules, entries)), Total(entries), multiset(Members(entries)))
  {
    if entries != [] {
      SumMeans(rules, entries[..|entries| - 1]);
    }
  }

  lemma PlusCommutes(rules: Rules, s: Sums, x: Entry, y: Entry)
    ensures Plus(rules, Plus(rules, s, x), y) == Plus(rules, Plus(rules, s, y), x)
  {
  }

  lemma SumNext(rules: Rules, entries: seq<Entry>, x: Entry, all: seq<Entry>)
    requires all == entries + [x]
    ensures SumOf(rules, all) == Plus(rules, SumOf(rules, entries), x)
  {
    assert all[..|all| - 1] == entries;
  }

  lemma Shorter<T>(b: seq<T>, j: nat, n: nat, rest: seq<T>, less: seq<T>)
    requires j < n && n + 1 == |b| && rest == b[..j] + b[j + 1..] && less == b[..n][..j] + b[..n][j + 1..]
    ensures rest == less + [b[n]] && b == b[..n] + [b[n]] && b[..n][j] == b[j]
  {
  }

  /** Taking one entry out takes its contribution out. */
  lemma {:induction false} Removed(rules: Rules, b: seq<Entry>, j: nat, rest: seq<Entry>)
    requires j < |b| && rest == b[..j] + b[j + 1..]
    ensures SumOf(rules, b) == Plus(rules, SumOf(rules, rest), b[j])
    decreases |b|
  {
    var n := |b| - 1;
    if j == n {
      assert rest == b[..n];
    } else {
      var less := b[..n][..j] + b[..n][j + 1..];
      Removed(rules, b[..n], j, less);
      Shorter(b, j, n, rest, less);
      SumNext(rules, less, b[n], rest);
      SumNext(rules, b[..n], b[n], b);
      PlusCommutes(rules, SumOf(rules, less), b[n], b[j]);
    }
  }

  lemma Without<T>(a: seq<T>, n: nat, b: seq<T>, j: nat, rest: seq<T>)
    requires multiset(a) == multiset(b) && n + 1 == |a| && j < |b| && b[j] == a[n] && rest == b[..j] + b[j + 1..]
    ensures multiset(a[..n]) == multiset(rest)
  {
    var x := a[n];
    assert a == a[..n] + [x];
    assert b == b[..j] + ([x] + b[j + 1..]);
    ItemLast(a, a[..n], x);
    ItemWithin(b, b[..j], b[j + 1..], x, rest);
    Cancel(multiset(a[..n]), multiset(rest), x);
  }

  lemma ItemLast<T>(s: seq<T>, init: seq<T>, x: T)
    requires s == init + [x]
    ensures multiset(s) == multiset(init) + multiset{x}
  {
  }

  lemma ItemWithin<T>(s: seq<T>, front: seq<T>, back: seq<T>, x: T, rest: seq<T>)
    requires s == front + ([x] + back) && rest == front + back
    ensures multiset(s) == multiset(rest) + multiset{x}
  {
  }

  lemma Cancel<T>(m: multiset<T>, n: multiset<T>, x: T)
    requires m + multiset{x} == n + multiset{x}
    ensures m == n
  {
    assert m == (m + multiset{x}) - multiset{x};
  }

  lemma {:induction false} SumPermuted(rules: Rules, a: seq<Entry>, b: seq<Entry>)
    requires multiset(a) == multiset(b)
    ensures SumOf(rules, a) == SumOf(rules, b)
    decreases |a|
  {
    assert |multiset(a)| == |a| && |multiset(b)| == |b|;
    if a != [] {
      var n := |a| - 1;
      assert a[n] in multiset(b);
      var j :| 0 <= j < |b| && b[j] == a[n];
      var rest := b[..j] + b[j + 1..];
      Without(a, n, b, j, rest);
      SumPermuted(rules, a[..n], rest);
      Removed(rules, b, j, rest);
    }
  }

  /** The verdict does not depend on the order of the archive's entries. */
  lemma OrderFree(rules: Rules, a: seq<Entry>, b: seq<Entry>, expected: seq<string>)
    requires multiset(a) == multiset(b) && Passes(rules, a, expected)
    ensures Passes(rules, b, expected)
  {
    SumMeans(rules, a);
    SumMeans(rules, b);
    SumPermuted(rules, a, b);
    MultisetDistinct(Folds(rules, a), Folds(rules, b));
    forall i | 0 <= i < |b|
      ensures LocallyFine(rules, b[i])
    {
      assert b[i] in multiset(a);
    }
  }
}
