/** What the canonical texts are, said of the texts themselves: members in the byte
    order of their keys and numbers in canonical spelling, at every depth. */
module CanonOrder {
  import opened Wrappers
  import opened Order
  import opened Utf8
  import opened CanonNumber
  import opened JsonDecoder
  import opened CanonParse
  import opened CanonGrammar
  import opened CanonValue
  import opened CanonBytes

  function KeysOf(members: seq<Member>): (r: seq<string>)
    ensures |r| == |members| && forall i :: 0 <= i < |r| ==> r[i] == members[i].key
  {
    seq(|members|, i requires 0 <= i < |members| => members[i].key)
  }

  /** Strictly before, in the order of the encoded bytes. */
  ghost predicate Precedes(a: string, b: string) {
    BytesLe(Encode(a), Encode(b)) && Encode(a) != Encode(b)
  }

  ghost predicate Ascending(keys: seq<string>) {
    forall i, j :: 0 <= i < j < |keys| ==> Precedes(keys[i], keys[j])
  }

  /** Keys strictly ascend in every object, and every number is spelled canonically. */
  ghost predicate Ordered(t: Tree) {
    match t
    case TNum(n) => Canonical(n) == Some(n)
    case TArr(items) => forall i :: 0 <= i < |items| ==> Ordered(items[i])
    case TObj(members) => Ascending(KeysOf(members)) && forall i :: 0 <= i < |members| ==> Ordered(members[i].value)
    case _ => true
  }

  lemma AscendingIff(keys: seq<string>)
    ensures Ascending(keys) <==> Sorted(keys) && Distinct(keys)
  {
    forall i, j | 0 <= i < j < |keys|
      ensures Precedes(keys[i], keys[j]) <==> StrLe(keys[i], keys[j]) && keys[i] != keys[j]
    {
      OrderOfBytes(keys[i], keys[j]);
      if Encode(keys[i]) == Encode(keys[j]) {
        EncodeInjective(keys[i], keys[j]);
      }
    }
  }

  // ---------- The printed tree is ordered ----------

  lemma {:induction false} TreeOrdered(v: Json)
    requires Fits(v)
    ensures Ordered(TreeOf(Normal(v)))
    decreases v, 1, 0
  {
    match v
    case JNum(n) => CanonicalFixed(n);
    case JArr(items) => TreesOrdered(items);
    case JObj(fields) =>
      var w := Normal(v);
      var keys := SortedKeys(fields.Keys);
      assert w.fields.Keys == fields.Keys;
      SortedKeysCorrect(fields.Keys);
      AscendingIff(keys);
      MembersOrdered(v, keys);
      MembersKeys(w, keys);
    case _ =>
  }

  lemma {:induction false} TreesOrdered(items: seq<Json>)
    requires AllFit(items)
    ensures forall t :: t in TreesOf(NormalItems(items)) ==> Ordered(t)
    decreases items, 0, 0
  {
    if items != [] {
      TreeOrdered(items[0]);
      TreesOrdered(items[1..]);
      assert NormalItems(items)[1..] == NormalItems(items[1..]);
    }
  }

  lemma {:induction false} MembersOrdered(v: Json, keys: seq<string>)
    requires Fits(v) && Keyed(v, keys) && Keyed(Normal(v), keys)
    ensures forall m :: m in MembersOf(Normal(v), keys) ==> Ordered(m.value)
    decreases v, 0, keys
  {
    if keys != [] {
      TreeOrdered(v.fields[keys[0]]);
      MembersOrdered(v, keys[1..]);
    }
  }

  lemma {:induction false} MembersKeys(w: Json, keys: seq<string>)
    requires Keyed(w, keys)
    ensures KeysOf(MembersOf(w, keys)) == keys
    decreases keys
  {
    if keys != [] {
      MembersKeys(w, keys[1..]);
      FirstKey(Member(keys[0], TreeOf(w.fields[keys[0]])), MembersOf(w, keys[1..]));
      assert keys == [keys[0]] + keys[1..];
    }
  }

  lemma FirstKey(m: Member, rest: seq<Member>)
    ensures KeysOf([m] + rest) == [m.key] + KeysOf(rest)
  {
  }

  /** Every canonical text spells an ordered tree, which denotes the input's value with
      its numbers respelled. */
  lemma OutputOrdered(input: Text) returns (t: Tree)
    requires Bytes(input).Success?
    ensures Bytes(input).value == Spell(t) && Ordered(t)
    ensures Meaning(t) == Normal(Parse(input).value)
  {
    var v := Parse(input).value;
    t := TreeOf(Normal(v));
    TreeOrdered(v);
    TreeMeans(Normal(v));
  }

  // ---------- An ordered tree is the printed one ----------

  lemma {:induction false} AddedMembers(obj: map<string, Json>, members: seq<Member>, i: nat)
    requires i < |members| && Distinct(KeysOf(members))
    ensures members[i].key in AddMembers(obj, members)
    ensures AddMembers(obj, members)[members[i].key] == Meaning(members[i].value)
    decreases members
  {
    var first, rest := members[0], members[1..];
    var next := obj[first.key := Meaning(first.value)];
    RestDistinct(members);
    if i > 0 {
      AddedMembers(next, rest, i - 1);
    } else {
      Unnamed(next, rest, first.key);
    }
  }

  lemma RestDistinct(members: seq<Member>)
    requires members != [] && Distinct(KeysOf(members))
    ensures Distinct(KeysOf(members[1..])) && members[0].key !in KeysOf(members[1..])
  {
    var keys, rest := KeysOf(members), KeysOf(members[1..]);
    assert forall i :: 0 <= i < |rest| ==> rest[i] == keys[i + 1];
  }

  lemma {:induction false} Unnamed(obj: map<string, Json>, members: seq<Member>, key: string)
    requires key in obj && key !in KeysOf(members)
    ensures key in AddMembers(obj, members) && AddMembers(obj, members)[key] == obj[key]
    decreases members
  {
    if members != [] {
      var rest := members[1..];
      assert KeysOf(members) == [members[0].key] + KeysOf(rest);
      Unnamed(obj[members[0].key := Meaning(members[0].value)], rest, key);
    }
  }

  lemma {:induction false} AddedKeys(obj: map<string, Json>, members: seq<Member>)
    ensures forall k :: k in AddMembers(obj, members) <==> k in obj || k in KeysOf(members)
    decreases members
  {
    if members != [] {
      var rest := members[1..];
      assert KeysOf(members) == [members[0].key] + KeysOf(rest);
      AddedKeys(obj[members[0].key := Meaning(members[0].value)], rest);
    }
  }

  lemma SortedIsSort(keys: seq<string>, s: set<string>)
    requires Sorted(keys) && Distinct(keys) && forall x :: x in keys <==> x in s
    ensures SortedKeys(s) == keys
  {
    SortOfKeys(keys, s);
    SortCorrect(keys);
    SortedUnique(keys, Sort(keys));
  }

  /** The object that members with distinct keys make has exactly those fields. */
  ghost predicate Holds(v: Json, members: seq<Member>) {
    && v.JObj? && (forall k :: k in v.fields <==> k in KeysOf(members))
    && forall i :: 0 <= i < |members| ==>
         members[i].key in v.fields && v.fields[members[i].key] == Meaning(members[i].value)
  }

  lemma MeaningHolds(members: seq<Member>)
    requires Distinct(KeysOf(members))
    ensures Holds(Meaning(TObj(members)), members)
  {
    AddedKeys(map[], members);
    forall i | 0 <= i < |members|
      ensures members[i].key in AddMembers(map[], members)
      ensures AddMembers(map[], members)[members[i].key] == Meaning(members[i].value)
    {
      AddedMembers(map[], members, i);
    }
  }

  /** What is printed for the meaning of an ordered tree is that tree. */
  lemma {:induction false} OrderedPrinted(t: Tree)
    requires Ordered(t)
    ensures DistinctKeys(t) && Fits(Meaning(t)) && Normal(Meaning(t)) == Meaning(t) && TreeOf(Meaning(t)) == t
    decreases t, 1
  {
    match t
    case TArr(items) => OrderedItems(items);
    case TObj(members) =>
      var v := Meaning(t);
      AscendingIff(KeysOf(members));
      MeaningHolds(members);
      OrderedValues(members);
      FieldsNormal(v, members);
      SortedIsSort(KeysOf(members), v.fields.Keys);
      MembersBack(v, members);
      DistinctMembers(members);
    case _ =>
  }

  lemma DistinctMembers(members: seq<Member>)
    requires Distinct(KeysOf(members)) && forall i :: 0 <= i < |members| ==> DistinctKeys(members[i].value)
    ensures DistinctKeys(TObj(members))
  {
    forall i, j | 0 <= i < j < |members|
      ensures members[i].key != members[j].key
    {
      assert KeysOf(members)[i] != KeysOf(members)[j];
    }
  }

  ghost predicate PrintedBack(t: Tree) {
    DistinctKeys(t) && Fits(Meaning(t)) && Normal(Meaning(t)) == Meaning(t) && TreeOf(Meaning(t)) == t
  }

  lemma {:induction false} OrderedValues(members: seq<Member>)
    requires forall i :: 0 <= i < |members| ==> Ordered(members[i].value)
    ensures forall i :: 0 <= i < |members| ==> PrintedBack(members[i].value)
    decreases members, 0
  {
    forall i | 0 <= i < |members|
      ensures PrintedBack(members[i].value)
    {
      OrderedPrinted(members[i].value);
    }
  }

  lemma {:induction false} OrderedItems(items: seq<Tree>)
    requires forall i :: 0 <= i < |items| ==> Ordered(items[i])
    ensures (forall i :: 0 <= i < |items| ==> DistinctKeys(items[i])) && AllFit(Meanings(items))
    ensures NormalItems(Meanings(items)) == Meanings(items) && TreesOf(Meanings(items)) == items
    decreases items, 0
  {
    if items != [] {
      var first, rest := items[0], items[1..];
      OrderedPrinted(first);
      OrderedItems(rest);
      assert items == [first] + rest;
      assert Meanings(items)[1..] == Meanings(rest);
    }
  }

  lemma FieldsNormal(v: Json, members: seq<Member>)
    requires Holds(v, members) && forall i :: 0 <= i < |members| ==> PrintedBack(members[i].value)
    ensures Fits(v) && Normal(v) == v
  {
    forall k | k in v.fields
      ensures Fits(v.fields[k]) && Normal(v.fields[k]) == v.fields[k]
    {
      var i :| 0 <= i < |members| && KeysOf(members)[i] == k;
      assert PrintedBack(members[i].value);
    }
    assert Normal(v).fields == v.fields;
  }

  ghost predicate FieldBack(v: Json, m: Member) {
    v.JObj? && m.key in v.fields && v.fields[m.key] == Meaning(m.value) && PrintedBack(m.value)
  }

  lemma {:induction false} MembersBack(v: Json, members: seq<Member>)
    requires v.JObj? && forall m :: m in members ==> FieldBack(v, m)
    ensures Keyed(v, KeysOf(members)) && MembersOf(v, KeysOf(members)) == members
  {
    if members != [] {
      var m, rest := members[0], members[1..];
      MembersBack(v, rest);
      assert members == [m] + rest;
      FirstKey(m, rest);
      assert FieldBack(v, m);
      KeyedFirst(v, m.key, KeysOf(rest), KeysOf(members));
    }
  }

  lemma KeyedFirst(v: Json, key: string, rest: seq<string>, keys: seq<string>)
    requires v.JObj? && key in v.fields && Keyed(v, rest) && keys == [key] + rest
    ensures Keyed(v, keys) && MembersOf(v, keys) == [Member(key, TreeOf(v.fields[key]))] + MembersOf(v, rest)
  {
    assert keys[1..] == rest;
  }

  /** A text is canonical, that is left as it is, exactly when it spells an ordered tree. */
  lemma CanonicalTextIff(text: Text)
    ensures Bytes(text) == Success(text) <==> exists t :: Spell(t) == text && Ordered(t)
  {
    if Bytes(text) == Success(text) {
      var t := OutputOrdered(text);
    }
    forall t | Spell(t) == text && Ordered(t)
      ensures Bytes(text) == Success(text)
    {
      OrderedPrinted(t);
      ParseOfSpell(t);
    }
  }
}
