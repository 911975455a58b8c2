/** JSON values up to number spelling and member order, and the one tree that
    stands for each. */
module CanonValue {
  import opened CanonNumber
  import opened JsonDecoder
  import opened CanonParse
  import opened CanonGrammar
  import opened Order

  /** Every number in the value is within the expansion limit. */
  ghost predicate Fits(v: Json)
    decreases v, 1
  {
    match v
    case JNum(n) => Canonical(n).Some?
    case JArr(items) => AllFit(items)
    case JObj(fields) => forall k :: k in fields ==> Fits(fields[k])
    case _ => true
  }

  ghost predicate AllFit(items: seq<Json>)
    decreases items, 0
  {
    items == [] || (Fits(items[0]) && AllFit(items[1..]))
  }

  function CanonicalLexeme(n: Lexeme): Lexeme
    requires Canonical(n).Some?
  {
    CanonicalMeaning(n, Canonical(n).value);
    Canonical(n).value
  }

  /** The value with every number spelled canonically. */
  ghost function Normal(v: Json): Json
    requires Fits(v)
    decreases v, 1
  {
    match v
    case JNum(n) => JNum(CanonicalLexeme(n))
    case JArr(items) => JArr(NormalItems(items))
    case JObj(fields) => JObj(map k | k in fields :: Normal(fields[k]))
    case _ => v
  }

  ghost function NormalItems(items: seq<Json>): (r: seq<Json>)
    requires AllFit(items)
    ensures |r| == |items|
    decreases items, 0
  {
    if items == [] then [] else [Normal(items[0])] + NormalItems(items[1..])
  }

  /** The same JSON value: numbers by rational value, objects by key. */
  ghost predicate Same(v: Json, w: Json)
    decreases v, 1
  {
    match v
    case JNum(n) => w.JNum? && Value(n) == Value(w.n)
    case JArr(items) => w.JArr? && AllSame(items, w.items)
    case JObj(fields) =>
      w.JObj? && fields.Keys == w.fields.Keys && forall k :: k in fields ==> Same(fields[k], w.fields[k])
    case _ => v == w
  }

  ghost predicate AllSame(a: seq<Json>, b: seq<Json>)
    decreases a, 0
  {
    if a == [] || b == [] then a == b else Same(a[0], b[0]) && AllSame(a[1..], b[1..])
  }

  lemma {:induction false} NormalFixed(v: Json)
    requires Fits(v)
    ensures Fits(Normal(v)) && Normal(Normal(v)) == Normal(v)
    decreases v, 1
  {
    match v
    case JNum(n) => CanonicalFixed(n);
    case JArr(items) => NormalItemsFixed(items);
    case JObj(fields) =>
      var n := Normal(v);
      forall k | k in fields
        ensures Fits(n.fields[k]) && Normal(n.fields[k]) == n.fields[k]
      {
        NormalFixed(fields[k]);
      }
      assert Normal(n).fields == n.fields;
    case _ =>
  }

  lemma {:induction false} NormalItemsFixed(items: seq<Json>)
    requires AllFit(items)
    ensures AllFit(NormalItems(items)) && NormalItems(NormalItems(items)) == NormalItems(items)
    decreases items, 0
  {
    if items != [] {
      NormalFixed(items[0]);
      NormalItemsFixed(items[1..]);
      assert NormalItems(items)[1..] == NormalItems(items[1..]);
    }
  }

  /** Normal forms are equal exactly for the same JSON value. */
  lemma {:induction false} NormalUnique(v: Json, w: Json)
    requires Fits(v) && Fits(w)
    ensures Normal(v) == Normal(w) <==> Same(v, w)
    decreases v, 1
  {
    if v.JNum? && w.JNum? {
      CanonicalUnique(v.n, w.n);
    } else if v.JArr? && w.JArr? {
      NormalItemsUnique(v.items, w.items);
    } else if v.JObj? && w.JObj? {
      var a, b := Normal(v).fields, Normal(w).fields;
      assert a.Keys == v.fields.Keys && b.Keys == w.fields.Keys;
      if v.fields.Keys == w.fields.Keys {
        forall k | k in v.fields
          ensures a[k] == b[k] <==> Same(v.fields[k], w.fields[k])
        {
          NormalUnique(v.fields[k], w.fields[k]);
        }
        assert a == b <==> forall k :: k in v.fields ==> a[k] == b[k];
      }
    }
  }

  lemma {:induction false} NormalItemsUnique(a: seq<Json>, b: seq<Json>)
    requires AllFit(a) && AllFit(b)
    ensures NormalItems(a) == NormalItems(b) <==> AllSame(a, b)
    decreases a, 0
  {
    if a != [] && b != [] {
      NormalUnique(a[0], b[0]);
      NormalItemsUnique(a[1..], b[1..]);
      SameCons(Normal(a[0]), NormalItems(a[1..]), Normal(b[0]), NormalItems(b[1..]));
    }
  }

  lemma SameCons<T>(x: T, s: seq<T>, y: T, t: seq<T>)
    ensures [x] + s == [y] + t <==> x == y && s == t
  {
    if [x] + s == [y] + t {
      assert ([x] + s)[0] == x && ([y] + t)[0] == y;
      assert ([x] + s)[1..] == s && ([y] + t)[1..] == t;
    }
  }

  // ---------- The tree printed for a value ----------

  /** Members in sorted key order. */
  ghost function TreeOf(v: Json): Tree
    decreases v, 1, 0
  {
    match v
    case JNull => TNull
    case JBool(b) => TBool(b)
    case JStr(s) => TStr(s)
    case JNum(n) => TNum(n)
    case JArr(items) => TArr(TreesOf(items))
    case JObj(fields) => (SortedKeysCorrect(fields.Keys); TObj(MembersOf(v, SortedKeys(fields.Keys))))
  }

  ghost function TreesOf(items: seq<Json>): (r: seq<Tree>)
    ensures |r| == |items|
    decreases items, 0, 0
  {
    if items == [] then [] else [TreeOf(items[0])] + TreesOf(items[1..])
  }

  ghost predicate Keyed(v: Json, keys: seq<string>) {
    v.JObj? && forall k :: k in keys ==> k in v.fields
  }

  ghost function MembersOf(v: Json, keys: seq<string>): seq<Member>
    requires Keyed(v, keys)
    decreases v, 0, keys
  {
    if keys == [] then []
    else [Member(keys[0], TreeOf(v.fields[keys[0]]))] + MembersOf(v, keys[1..])
  }

  /** Reading back what is printed gives the value. */
  lemma {:induction false} TreeMeans(v: Json)
    ensures DistinctKeys(TreeOf(v)) && Meaning(TreeOf(v)) == v
    decreases v, 1, 0
  {
    match v
    case JArr(items) => TreesMean(items);
    case JObj(fields) =>
      var keys := SortedKeys(fields.Keys);
      SortedKeysCorrect(fields.Keys);
      MembersMean(v, keys, map[]);
      FreshMeans(MembersOf(v, keys), map[]);
    case _ =>
  }

  lemma {:induction false} TreesMean(items: seq<Json>)
    ensures AllDistinct(TreesOf(items)) && Meanings(TreesOf(items)) == items
    decreases items, 0, 0
  {
    if items != [] {
      TreeMeans(items[0]);
      TreesMean(items[1..]);
      assert TreesOf(items)[1..] == TreesOf(items[1..]);
      assert items == [items[0]] + items[1..];
      AllDistinctStep(TreesOf(items));
    }
  }

  /** `obj` holds the part of the object that is not in `keys`. */
  lemma {:induction false} MembersMean(v: Json, keys: seq<string>, obj: map<string, Json>)
    requires Keyed(v, keys) && Distinct(keys)
    requires forall k :: k in v.fields <==> k in obj || k in keys
    requires forall k :: k in obj ==> k !in keys && obj[k] == v.fields[k]
    ensures Fresh(MembersOf(v, keys), obj) && AddMembers(obj, MembersOf(v, keys)) == v.fields
    decreases v, 0, keys
  {
    if keys == [] {
      assert obj == v.fields;
    } else {
      var k, rest := keys[0], keys[1..];
      TreeMeans(v.fields[k]);
      assert keys == [k] + rest;
      MembersMean(v, rest, obj[k := v.fields[k]]);
      assert MembersOf(v, keys)[1..] == MembersOf(v, rest);
    }
  }
}
