/** `writeValue` and `Bytes`: canonical JSON text. */
module CanonBytes {
  import opened Wrappers
  import opened CanonInt64
  import opened JsonDecoder
  import opened CanonParse
  import opened CanonGrammar
  import opened CanonValue
  import opened Order

  /** The text of a value in sorted, compact, canonical form. */
  ghost function Printed(v: Json): Text
    requires Fits(v)
  {
    Spell(TreeOf(Normal(v)))
  }

  ghost function Bytes(input: Text): Result<Text, Error> {
    match Parse(input)
    case Failure(e) => Failure(e)
    case Success(v) => if Fits(v) then Success(Printed(v)) else Failure(NumberLimit)
  }

  // ---------- The printer on a buffer ----------

  class Buffer {
    var out: Text

    constructor ()
      ensures out == []
    {
      out := [];
    }

    method Write(raw: Raw)
      modifies this
      ensures out == old(out) + [raw]
    {
      out := out + [raw];
    }
  }

  lemma {:induction false} FitsAppend(init: seq<Json>, v: Json, items: seq<Json>)
    requires items == init + [v]
    ensures AllFit(items) <==> AllFit(init) && Fits(v)
    decreases |init|
  {
    if init == [] {
      assert items[1..] == [];
    } else {
      FitsAppend(init[1..], v, items[1..]);
    }
  }

  lemma FitsPrefix(items: seq<Json>, i: nat)
    requires i < |items|
    ensures AllFit(items[..i + 1]) <==> AllFit(items[..i]) && Fits(items[i])
  {
    FitsAppend(items[..i], items[i], items[..i + 1]);
  }

  lemma FitsShorter(items: seq<Json>, i: nat)
    requires i <= |items| && AllFit(items)
    ensures AllFit(items[..i])
    decreases i
  {
    if i > 0 {
      FitsShorter(items[1..], i - 1);
      assert items[..i][1..] == items[1..][..i - 1];
    }
  }

  /** The text of the first items, without the brackets. */
  ghost function ItemsPrinted(items: seq<Json>): Text
    requires AllFit(items)
  {
    SpellItems(TreesOf(NormalItems(items)))
  }

  ghost predicate KeysFit(fields: map<string, Json>, keys: seq<string>) {
    forall k :: k in keys ==> k in fields && Fits(fields[k])
  }

  ghost function MembersPrinted(fields: map<string, Json>, keys: seq<string>): Text
    requires KeysFit(fields, keys)
  {
    if keys == [] then []
    else
      var k, init := keys[|keys| - 1], keys[..|keys| - 1];
      MembersPrinted(fields, init) + (if init == [] then [] else [Comma])
      + ([Str(k), Colon] + Printed(fields[k]))
  }

  lemma {:induction false} MoreItemsAppend(items: seq<Tree>, t: Tree)
    ensures SpellMoreItems(items + [t]) == SpellMoreItems(items) + ([Comma] + Spell(t))
    decreases |items|
  {
    if items == [] {
      assert [t][1..] == [];
      Ends(Spell(t));
    } else {
      MoreItemsAppend(items[1..], t);
      assert (items + [t])[1..] == items[1..] + [t];
      Regroup([Comma] + Spell(items[0]), SpellMoreItems(items[1..]), [Comma] + Spell(t));
    }
  }

  lemma Ends(x: Text)
    ensures [Comma] + x + [] == [] + ([Comma] + x) && x + [] == x
  {
  }

  lemma ItemsAppend(items: seq<Tree>, t: Tree)
    ensures SpellItems(items + [t]) ==
            SpellItems(items) + ((if items == [] then [] else [Comma]) + Spell(t))
  {
    if items == [] {
      assert [t][1..] == [];
      Ends(Spell(t));
      assert [] + ([] + Spell(t)) == Spell(t);
    } else {
      MoreItemsAppend(items[1..], t);
      assert (items + [t])[1..] == items[1..] + [t];
      Regroup(Spell(items[0]), SpellMoreItems(items[1..]), [Comma] + Spell(t));
    }
  }

  lemma Shift<T>(x: T, s: seq<T>, y: T)
    ensures [x] + (s + [y]) == ([x] + s) + [y]
  {
  }

  lemma TreesStep(items: seq<Json>)
    requires items != [] && AllFit(items)
    ensures TreesOf(NormalItems(items)) == [TreeOf(Normal(items[0]))] + TreesOf(NormalItems(items[1..]))
  {
    assert NormalItems(items)[1..] == NormalItems(items[1..]);
  }

  lemma {:induction false} TreesAppend(items: seq<Json>, v: Json)
    requires AllFit(items) && Fits(v) && AllFit(items + [v])
    ensures TreesOf(NormalItems(items + [v])) == TreesOf(NormalItems(items)) + [TreeOf(Normal(v))]
    decreases |items|
  {
    if items == [] {
      assert [v][1..] == [];
    } else {
      var all := items + [v];
      assert all[1..] == items[1..] + [v] && all[0] == items[0];
      TreesAppend(items[1..], v);
      TreesStep(items);
      TreesStep(all);
      Shift(TreeOf(Normal(items[0])), TreesOf(NormalItems(items[1..])), TreeOf(Normal(v)));
    }
  }

  /** Printing one more item. */
  lemma ItemsPrintedStep(items: seq<Json>, i: nat)
    requires i < |items| && AllFit(items[..i]) && Fits(items[i])
    ensures AllFit(items[..i + 1])
    ensures ItemsPrinted(items[..i + 1]) ==
            ItemsPrinted(items[..i]) + (CommaLead(i) + Printed(items[i]))
  {
    FitsPrefix(items, i);
    assert items[..i + 1] == items[..i] + [items[i]];
    TreesAppend(items[..i], items[i]);
    ItemsAppend(TreesOf(NormalItems(items[..i])), TreeOf(Normal(items[i])));
  }

  lemma {:induction false} MoreMembersAppend(members: seq<Member>, m: Member)
    ensures SpellMoreMembers(members + [m]) == SpellMoreMembers(members) + ([Comma] + SpellMember(m))
    decreases |members|
  {
    if members == [] {
      assert [m][1..] == [];
      Ends(SpellMember(m));
    } else {
      MoreMembersAppend(members[1..], m);
      assert (members + [m])[1..] == members[1..] + [m];
      Regroup([Comma] + SpellMember(members[0]), SpellMoreMembers(members[1..]), [Comma] + SpellMember(m));
    }
  }

  lemma MembersAppend(members: seq<Member>, m: Member)
    ensures SpellMembers(members + [m]) ==
            SpellMembers(members) + ((if members == [] then [] else [Comma]) + SpellMember(m))
  {
    if members == [] {
      assert [m][1..] == [];
      Ends(SpellMember(m));
      assert [] + ([] + SpellMember(m)) == SpellMember(m);
    } else {
      MoreMembersAppend(members[1..], m);
      assert (members + [m])[1..] == members[1..] + [m];
      Regroup(SpellMember(members[0]), SpellMoreMembers(members[1..]), [Comma] + SpellMember(m));
    }
  }

  lemma {:induction false} MembersOfAppend(v: Json, keys: seq<string>, key: string)
    requires Keyed(v, keys) && Keyed(v, keys + [key])
    ensures MembersOf(v, keys + [key]) == MembersOf(v, keys) + [Member(key, TreeOf(v.fields[key]))]
    decreases |keys|
  {
    if keys == [] {
      assert [key][1..] == [];
    } else {
      assert (keys + [key])[1..] == keys[1..] + [key];
      MembersOfAppend(v, keys[1..], key);
    }
  }

  lemma {:induction false} MembersPrintedIs(v: Json, keys: seq<string>)
    requires Fits(v) && Keyed(v, keys)
    ensures MembersPrinted(v.fields, keys) == SpellMembers(MembersOf(Normal(v), keys))
    decreases |keys|
  {
    if keys != [] {
      var k, init := keys[|keys| - 1], keys[..|keys| - 1];
      assert keys == init + [k];
      MembersPrintedIs(v, init);
      MembersOfAppend(Normal(v), init, k);
      MembersAppend(MembersOf(Normal(v), init), Member(k, TreeOf(Normal(v.fields[k]))));
      var comma := if init == [] then [] else [Comma];
      Regroup(MembersPrinted(v.fields, init), comma, [Str(k), Colon] + Printed(v.fields[k]));
    }
  }

  /** What writing a value does to the buffer; an error leaves a partial text. */
  ghost predicate Wrote(v: Json, before: Text, error: Option<Error>, after: Text) {
    if Fits(v) then error == None && after == before + Printed(v) else error == Some(NumberLimit)
  }

  /** `writeValue`. */
  method WriteValue(buf: Buffer, v: Json) returns (error: Option<Error>)
    modifies buf
    ensures Wrote(v, old(buf.out), error, buf.out)
    decreases v, 2
  {
    if v.JArr? {
      error := WriteItems(buf, v);
    } else if v.JObj? {
      error := WriteFields(buf, v);
    } else if v.JNum? {
      error := WriteNumber(buf, v);
    } else {
      buf.Write(ScalarRaw(v));
      error := None;
    }
  }

  method WriteNumber(buf: Buffer, v: Json) returns (error: Option<Error>)
    requires v.JNum?
    modifies buf
    ensures Wrote(v, old(buf.out), error, buf.out)
  {
    var canonical := CanonicalNumber(v.n);
    if canonical.Failure? {
      return Some(NumberLimit);
    }
    assert canonical.value == CanonicalLexeme(v.n);
    NumberPrinted(v);
    buf.Write(Num(canonical.value));
    error := None;
  }

  lemma NumberPrinted(v: Json)
    requires v.JNum? && Fits(v)
    ensures Printed(v) == [Num(CanonicalLexeme(v.n))]
  {
    NumberTree(CanonicalLexeme(v.n));
  }

  lemma NumberTree(n: Lexeme)
    ensures Spell(TreeOf(JNum(n))) == [Num(n)]
  {
  }

  /** The one token of a value that holds no number and no other value. */
  function ScalarRaw(v: Json): (raw: Raw)
    requires v.JNull? || v.JBool? || v.JStr?
    ensures Fits(v) && Printed(v) == [raw]
  {
    if v.JNull? then Null else if v.JStr? then Str(v.s) else if v.b then True else False
  }

  lemma ArrayPrinted(v: Json)
    requires v.JArr? && Fits(v)
    ensures Printed(v) == [LBracket] + ItemsPrinted(v.items) + [RBracket]
  {
  }

  method WriteItems(buf: Buffer, v: Json) returns (error: Option<Error>)
    requires v.JArr?
    modifies buf
    ensures Wrote(v, old(buf.out), error, buf.out)
    decreases v, 1
  {
    buf.Write(LBracket);
    error := WriteAllItems(buf, v, v.items);
    if error.None? {
      buf.Write(RBracket);
      ArrayPrinted(v);
      Enclosed(old(buf.out), LBracket, ItemsPrinted(v.items), RBracket);
    }
  }

  method WriteAllItems(buf: Buffer, v: Json, items: seq<Json>) returns (error: Option<Error>)
    requires v.JArr? && v.items == items
    modifies buf
    ensures error == if AllFit(items) then None else Some(NumberLimit)
    ensures AllFit(items) ==> buf.out == old(buf.out) + ItemsPrinted(items)
    decreases v, 0
  {
    var i := 0;
    while i < |items|
      invariant 0 <= i <= |items| && AllFit(items[..i])
      invariant buf.out == old(buf.out) + ItemsPrinted(items[..i])
    {
      ghost var before := buf.out;
      if i > 0 {
        buf.Write(Comma);
      }
      ghost var mid := buf.out;
      error := WriteValue(buf, items[i]);
      if error.Some? {
        NotAllFit(items, i);
        return;
      }
      ItemsPrintedStep(items, i);
      Written(before, ItemsPrinted(items[..i]), CommaLead(i), mid, Printed(items[i]), old(buf.out), buf.out);
      i := i + 1;
    }
    assert items[..i] == items;
    error := None;
  }

  ghost function CommaLead(i: nat): Text {
    if i == 0 then [] else [Comma]
  }

  lemma NotAllFit(items: seq<Json>, i: nat)
    requires i < |items| && !Fits(items[i])
    ensures !AllFit(items)
  {
    if AllFit(items) {
      FitsShorter(items, i + 1);
      FitsPrefix(items, i);
    }
  }

  lemma Written(before: Text, done: Text, comma: Text, mid: Text, next: Text, head: Text, after: Text)
    requires before == head + done && mid == before + comma && after == mid + next
    ensures after == head + (done + (comma + next))
  {
  }

  lemma Enclosed(start: Text, open: Raw, inner: Text, close: Raw)
    ensures start + [open] + inner + [close] == start + ([open] + inner + [close])
  {
  }

  /** Ranging over the map gives the keys in some order; sorting fixes it. */
  method Keys(fields: map<string, Json>) returns (keys: seq<string>)
    ensures keys == SortedKeys(fields.Keys)
  {
    var left := fields.Keys;
    keys := [];
    while left != {}
      invariant left <= fields.Keys && Distinct(keys)
      invariant forall k :: k in keys <==> k in fields && k !in left
      decreases left
    {
      var key :| key in left;
      keys := keys + [key];
      left := left - {key};
    }
    SortOfKeys(keys, fields.Keys);
    keys := Sort(keys);
  }

  lemma MembersPrintedStep(fields: map<string, Json>, done: seq<string>, key: string, upto: seq<string>)
    requires KeysFit(fields, done) && key in fields && Fits(fields[key]) && upto == done + [key]
    ensures KeysFit(fields, upto)
    ensures MembersPrinted(fields, upto) ==
            MembersPrinted(fields, done) + (CommaLead(|done|) + ([Str(key), Colon] + Printed(fields[key])))
  {
    assert upto[..|upto| - 1] == done && upto[|upto| - 1] == key;
    Regroup(MembersPrinted(fields, done), CommaLead(|done|), [Str(key), Colon] + Printed(fields[key]));
  }

  method WriteKey(buf: Buffer, i: nat, key: string)
    modifies buf
    ensures buf.out == old(buf.out) + (CommaLead(i) + [Str(key), Colon])
  {
    if i > 0 {
      buf.Write(Comma);
    }
    buf.Write(Str(key));
    buf.Write(Colon);
  }

  lemma MemberWritten(before: Text, head: Text, done: Text, comma: Text, key: Text, mid: Text, value: Text, after: Text)
    requires before == head + done && mid == before + (comma + key) && after == mid + value
    ensures after == head + (done + (comma + (key + value)))
  {
  }

  /** One turn of the member loop. */
  lemma FieldWritten(
      fields: map<string, Json>, keys: seq<string>, i: nat, head: Text, before: Text, mid: Text, after: Text)
    requires i < |keys| && KeysFit(fields, keys[..i]) && keys[i] in fields && Fits(fields[keys[i]])
    requires before == head + MembersPrinted(fields, keys[..i])
    requires mid == before + (CommaLead(i) + [Str(keys[i]), Colon]) && after == mid + Printed(fields[keys[i]])
    ensures KeysFit(fields, keys[..i + 1]) && after == head + MembersPrinted(fields, keys[..i + 1])
  {
    var key := keys[i];
    assert keys[..i + 1] == keys[..i] + [key];
    MembersPrintedStep(fields, keys[..i], key, keys[..i + 1]);
    MemberWritten(before, head, MembersPrinted(fields, keys[..i]), CommaLead(i),
                  [Str(key), Colon], mid, Printed(fields[key]), after);
  }

  lemma ObjectPrinted(v: Json, keys: seq<string>)
    requires v.JObj? && Fits(v) && keys == SortedKeys(v.fields.Keys) && Keyed(v, keys)
    ensures Printed(v) == [LBrace] + MembersPrinted(v.fields, keys) + [RBrace]
  {
    MembersPrintedIs(v, keys);
    assert Normal(v).fields.Keys == v.fields.Keys;
  }

  method WriteFields(buf: Buffer, v: Json) returns (error: Option<Error>)
    requires v.JObj?
    modifies buf
    ensures Wrote(v, old(buf.out), error, buf.out)
    decreases v, 1
  {
    var keys := Keys(v.fields);
    SortedKeysCorrect(v.fields.Keys);
    buf.Write(LBrace);
    error := WriteAllFields(buf, v, keys);
    if error.None? {
      buf.Write(RBrace);
      ObjectPrinted(v, keys);
      Enclosed(old(buf.out), LBrace, MembersPrinted(v.fields, keys), RBrace);
    }
  }

  method WriteAllFields(buf: Buffer, v: Json, keys: seq<string>) returns (error: Option<Error>)
    requires v.JObj? && forall k :: k in keys <==> k in v.fields
    modifies buf
    ensures error == if Fits(v) then None else Some(NumberLimit)
    ensures Fits(v) ==> buf.out == old(buf.out) + MembersPrinted(v.fields, keys)
    decreases v, 0
  {
    var i := 0;
    while i < |keys|
      invariant 0 <= i <= |keys|
      invariant KeysFit(v.fields, keys[..i])
      invariant buf.out == old(buf.out) + MembersPrinted(v.fields, keys[..i])
    {
      ghost var before := buf.out;
      var key := keys[i];
      assert key in v.fields;
      WriteKey(buf, i, key);
      ghost var mid := buf.out;
      error := WriteValue(buf, v.fields[key]);
      if error.Some? {
        return;
      }
      FieldWritten(v.fields, keys, i, old(buf.out), before, mid, buf.out);
      i := i + 1;
    }
    assert keys[..i] == keys;
    error := None;
  }

  /** `Bytes` as written. */
  method CanonicalBytes(input: Text) returns (r: Result<Text, Error>)
    ensures r == Bytes(input)
  {
    var dec := new Decoder(input);
    var v := ParseFrom(dec);
    if v.Failure? {
      r := Failure(v.error);
    } else if dec.rest != [] {
      r := Failure(TrailingData);
    } else {
      r := Render(v.value);
    }
  }

  method Render(v: Json) returns (r: Result<Text, Error>)
    ensures r == if Fits(v) then Success(Printed(v)) else Failure(NumberLimit)
  {
    var out := new Buffer();
    var error := WriteValue(out, v);
    if error.Some? {
      return Failure(error.value);
    }
    assert [] + Printed(v) == Printed(v);
    r := Success(out.out);
  }

  // ---------- The canonical form ----------

  /** Exactly the texts of one value are accepted: no repeated key at any depth,
      no number beyond the limit, nothing after the value. */
  lemma BytesAccepts(input: Text)
    ensures Bytes(input).Success? <==>
            exists t :: Spell(t) == input && DistinctKeys(t) && Fits(Meaning(t))
  {
    if Parse(input).Success? {
      ParseIff(input, Parse(input).value);
    }
    if t :| Spell(t) == input && DistinctKeys(t) && Fits(Meaning(t)) {
      ParseOfSpell(t);
    }
  }

  /** The printed text parses to the value with canonical numbers. */
  lemma {:induction false} PrintedParses(v: Json)
    requires Fits(v)
    ensures Parse(Printed(v)) == Success(Normal(v)) && Same(v, Normal(v))
  {
    TreeMeans(Normal(v));
    ParseOfSpell(TreeOf(Normal(v)));
    NormalFixed(v);
    NormalUnique(v, Normal(v));
  }

  /** Canonical form: the same bytes exactly for the same JSON value. */
  lemma {:induction false} BytesCanonical(a: Text, b: Text)
    requires Bytes(a).Success? && Bytes(b).Success?
    ensures Bytes(a) == Bytes(b) <==> Same(Parse(a).value, Parse(b).value)
  {
    var v, w := Parse(a).value, Parse(b).value;
    NormalUnique(v, w);
    PrintedParses(v);
    PrintedParses(w);
  }

  /** `Bytes` keeps the value and is a fixed point on its own output. */
  lemma {:induction false} BytesFixed(a: Text)
    requires Bytes(a).Success?
    ensures var out := Bytes(a).value;
            && Parse(out).Success? && Same(Parse(a).value, Parse(out).value)
            && Bytes(out) == Success(out)
  {
    var v := Parse(a).value;
    PrintedParses(v);
    NormalFixed(v);
  }
}
