/** Go values as JSON values: integers, strings, lists and structs with named
    fields, and what the decoder makes of them. */
module JsonRecord {
  import opened Wrappers
  import opened Decimal
  import opened CanonLexeme
  import opened CanonNumber
  import opened Order
  import opened CanonParse
  import opened CanonValue

  // ---------- Values whose numbers are canonical ----------

  ghost predicate AllCanonical(v: Json)
    decreases v, 1
  {
    match v
    case JNum(n) => Canonical(n) == Some(n)
    case JArr(items) => ItemsCanonical(items)
    case JObj(fields) => forall k :: k in fields ==> AllCanonical(fields[k])
    case _ => true
  }

  ghost predicate ItemsCanonical(items: seq<Json>)
    decreases items, 0
  {
    items == [] || (AllCanonical(items[0]) && ItemsCanonical(items[1..]))
  }

  lemma {:induction false} CanonicalIsNormal(v: Json)
    requires AllCanonical(v)
    ensures Fits(v) && Normal(v) == v
    decreases v, 1
  {
    if v.JArr? {
      CanonicalItems(v.items);
    } else if v.JObj? {
      forall k | k in v.fields
        ensures Fits(v.fields[k]) && Normal(v.fields[k]) == v.fields[k]
      {
        CanonicalIsNormal(v.fields[k]);
      }
      assert Normal(v).fields == v.fields;
    }
  }

  lemma {:induction false} CanonicalItems(items: seq<Json>)
    requires ItemsCanonical(items)
    ensures AllFit(items) && NormalItems(items) == items
    decreases items, 0
  {
    if items != [] {
      CanonicalIsNormal(items[0]);
      CanonicalItems(items[1..]);
      assert items == [items[0]] + items[1..];
    }
  }

  // ---------- Integers ----------

  predicate IsInt64(n: int) {
    -TWO_63 <= n < TWO_63
  }

  lemma {:induction false} DigitsShort(n: nat, k: nat)
    requires k > 0 && n < TenTo(k)
    ensures |Digits(n)| <= k
  {
    if n >= 10 {
      DigitsShort(n / 10, k - 1);
    }
  }

  lemma TenTo19()
    ensures TenTo(19) > TWO_63
  {
    assert TenTo(5) == 100_000;
    assert TenTo(10) == 10_000_000_000;
    assert TenTo(15) == 1_000_000_000_000_000;
  }

  /** The decimal text of an int64. */
  function IntText(n: int): string {
    SpellParts(n < 0, Digits(if n < 0 then -n else n), "")
  }

  lemma IntCut(n: int)
    ensures Cut(IntText(n)) == Parts(n < 0, Digits(if n < 0 then -n else n), None, None)
    ensures IsPlain(IntText(n))
  {
    var d := Digits(if n < 0 then -n else n);
    CutSpell(n < 0, d, "");
  }

  /** An int64 is written as its own canonical number. */
  lemma IntCanonical(n: int)
    requires IsInt64(n)
    ensures IsLexeme(IntText(n)) && |IntText(n)| <= 20 && Canonical(IntText(n)) == Some(IntText(n))
  {
    var m: nat := if n < 0 then -n else n;
    TenTo19();
    DigitsShort(m, 19);
    IntCut(n);
    PlainCanonical(IntText(n));
  }

  /** The text of an int64 denotes it. */
  lemma IntValue(n: int)
    ensures IsLexeme(IntText(n)) && Value(IntText(n)) == n as real
  {
    var neg, d := n < 0, Digits(if n < 0 then -n else n);
    DigitsValue(if n < 0 then -n else n);
    assert IntText(n) == Assembled(neg, d, "", "", "", "");
    LexemeValue(neg, d, "", "", "", "", IntText(n));
    assert d + "" == d;
  }

  lemma PlainCanonical(s: string)
    requires IsPlain(s) && |s| <= MAX_EXPANDED_NUMBER_BYTES
    ensures IsLexeme(s) && Canonical(s) == Some(s)
  {
    CanonicalMeaning(s, s);
  }

  /** Numbers beyond int64 do not occur. */
  function IntJson(n: int): Json {
    if IsInt64(n) then (IntCanonical(n); JNum(IntText(n))) else JNull
  }

  /** An integer field: absent or null leaves zero, a fraction or an exponent or a
      value beyond int64 is refused. */
  function ReadInt(o: Option<Json>): Option<int> {
    if o.None? || o.value.JNull? then Some(0)
    else if !o.value.JNum? then None
    else
      var p := Cut(o.value.n);
      var n := if p.neg then -(Nat(p.integer) as int) else Nat(p.integer);
      if p.fraction.None? && p.exponent.None? && IsInt64(n) then Some(n) else None
  }

  lemma IntInverse(n: int)
    requires IsInt64(n)
    ensures ReadInt(Some(IntJson(n))) == Some(n)
  {
    IntCut(n);
    DigitsValue(if n < 0 then -n else n);
  }

  // ---------- Strings and lists ----------

  /** A string field: absent or null leaves the empty string. */
  function ReadText(o: Option<Json>): Option<string> {
    if o.None? || o.value.JNull? then Some("") else if o.value.JStr? then Some(o.value.s) else None
  }

  function OmitEmpty(s: string): Option<Json> {
    if s == "" then None else Some(JStr(s))
  }

  function ReadBool(o: Option<Json>): Option<bool> {
    if o.None? || o.value.JNull? then Some(false) else if o.value.JBool? then Some(o.value.b) else None
  }

  function ListJson<T>(items: seq<T>, write: T -> Json): (r: seq<Json>)
    ensures |r| == |items|
  {
    if items == [] then [] else [write(items[0])] + ListJson(items[1..], write)
  }

  function ReadItems<T>(items: seq<Json>, read: Json -> Option<T>): Option<seq<T>> {
    if items == [] then Some([])
    else
      match read(items[0])
      case None => None
      case Some(x) =>
        match ReadItems(items[1..], read)
        case None => None
        case Some(more) => Some([x] + more)
  }

  /** Reading undoes writing of this item. */
  ghost predicate Inverse<T>(x: T, write: T -> Json, read: Json -> Option<T>) {
    read(write(x)) == Some(x) && AllCanonical(write(x))
  }

  lemma {:induction false} ListInverse<T(!new)>(items: seq<T>, write: T -> Json, read: Json -> Option<T>)
    requires forall x :: x in items ==> Inverse(x, write, read)
    ensures ReadItems(ListJson(items, write), read) == Some(items) && ItemsCanonical(ListJson(items, write))
  {
    if items != [] {
      var x, more := items[0], items[1..];
      ListInverse(more, write, read);
      FirstInverse(x, more, items, write, read);
    }
  }

  lemma FirstInverse<T(!new)>(x: T, more: seq<T>, items: seq<T>, write: T -> Json, read: Json -> Option<T>)
    requires items != [] && x == items[0] && more == items[1..] && Inverse(x, write, read)
    requires ReadItems(ListJson(more, write), read) == Some(more) && ItemsCanonical(ListJson(more, write))
    ensures ReadItems(ListJson(items, write), read) == Some(items) && ItemsCanonical(ListJson(items, write))
  {
    assert items == [x] + more;
    assert ListJson(items, write)[1..] == ListJson(more, write);
  }

  // ---------- Structs ----------

  /** The fields that are written, under their names. */
  function Record(keys: seq<string>, values: seq<Option<Json>>): map<string, Json>
    requires |keys| == |values|
  {
    if keys == [] then map[]
    else
      var n := |keys| - 1;
      var r := Record(keys[..n], values[..n]);
      if values[n].Some? then r[keys[n] := values[n].value] else r
  }

  function Get(fields: map<string, Json>, key: string): Option<Json> {
    if key in fields then Some(fields[key]) else None
  }

  function Gets(fields: map<string, Json>, keys: seq<string>): (r: seq<Option<Json>>)
    ensures |r| == |keys| && forall i :: 0 <= i < |r| ==> r[i] == Get(fields, keys[i])
  {
    seq(|keys|, i requires 0 <= i < |keys| => Get(fields, keys[i]))
  }

  /** The decoder refuses fields it does not know. */
  predicate Known(fields: map<string, Json>, keys: seq<string>) {
    forall k :: k in fields ==> k in keys
  }

  lemma {:induction false} RecordKnown(keys: seq<string>, values: seq<Option<Json>>)
    requires |keys| == |values|
    ensures Known(Record(keys, values), keys)
  {
    if keys != [] {
      var n := |keys| - 1;
      RecordKnown(keys[..n], values[..n]);
      assert keys == keys[..n] + [keys[n]];
    }
  }

  lemma {:induction false} RecordGet(keys: seq<string>, values: seq<Option<Json>>, i: nat)
    requires |keys| == |values| && Distinct(keys) && i < |keys|
    ensures Get(Record(keys, values), keys[i]) == values[i]
    decreases |keys|
  {
    var n := |keys| - 1;
    if i < n {
      RecordGet(keys[..n], values[..n], i);
    } else {
      RecordKnown(keys[..n], values[..n]);
    }
  }

  /** What is written under distinct names is what is looked up. */
  lemma RecordInverse(keys: seq<string>, values: seq<Option<Json>>)
    requires |keys| == |values| && Distinct(keys)
    ensures Gets(Record(keys, values), keys) == values && Known(Record(keys, values), keys)
  {
    RecordKnown(keys, values);
    forall i | 0 <= i < |keys|
      ensures Gets(Record(keys, values), keys)[i] == values[i]
    {
      RecordGet(keys, values, i);
    }
  }

  ghost predicate FieldCanonical(o: Option<Json>) {
    match o
    case None => true
    case Some(v) => AllCanonical(v)
  }

  ghost predicate FieldsCanonical(values: seq<Option<Json>>) {
    forall i :: 0 <= i < |values| ==> FieldCanonical(values[i])
  }

  lemma {:induction false} RecordCanonical(keys: seq<string>, values: seq<Option<Json>>)
    requires |keys| == |values|
    requires FieldsCanonical(values)
    ensures AllCanonical(JObj(Record(keys, values)))
  {
    if keys != [] {
      var n := |keys| - 1;
      RecordCanonical(keys[..n], values[..n]);
      assert FieldCanonical(values[n]);
    }
  }
}
