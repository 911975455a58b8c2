/** The parser accepts exactly the texts spelled by trees without repeated keys,
    and gives the value the tree denotes. */
module CanonGrammar {
  import opened Wrappers
  import opened JsonDecoder
  import opened CanonParse

  /** What a parse step yields on a spelled tree. */
  predicate Yields(r: Result<(Json, State), Error>, ok: bool, v: Json, d: State) {
    if ok then r == Success((v, d)) else r.Failure? && r.error.DuplicateKey?
  }

  lemma SpellHead(t: Tree)
    ensures Spell(t) != [] && (IsScalar(Spell(t)[0]) || Spell(t)[0].LBrace? || Spell(t)[0].LBracket?)
  {
  }

  /** A comma before an item, or a colon before a member value, is skipped. */
  lemma SkipPunctuation(x: Text, place: Place, stack: seq<Place>)
    requires place.ArrayComma? || place.ObjectColon?
    ensures ParseValue(State([if place.ArrayComma? then Comma else Colon] + x, place, stack))
            == ParseValue(State(x, if place.ArrayComma? then ArrayValue else ObjectValue, stack))
  {
    var p := if place.ArrayComma? then Comma else Colon;
    assert ([p] + x)[1..] == x;
  }

  // ---------- Every spelled text is parsed ----------

  lemma {:induction false} ParseSpelled(t: Tree, rest: Text, place: Place, stack: seq<Place>)
    requires ValueAllowed(place)
    ensures Yields(ParseValue(State(Spell(t) + rest, place, stack)),
                   DistinctKeys(t), Meaning(t), State(rest, ValueEnd(place), stack))
    decreases t, 2
  {
    var text := Spell(t) + rest;
    PopPushed(stack, place);
    match t
    case TArr(items) =>
      Nested(LBracket, SpellItems(items), RBracket, rest);
      Opened(text, SpellItems(items) + ([RBracket] + rest), LBracket, place, stack);
      ParseSpelledItems(items, rest, stack + [place]);
    case TObj(members) =>
      Nested(LBrace, SpellMembers(members), RBrace, rest);
      Opened(text, SpellMembers(members) + ([RBrace] + rest), LBrace, place, stack);
      ParseSpelledMembers(members, rest, stack + [place]);
      FreshMeans(members, map[]);
    case _ =>
      assert text[1..] == rest;
  }

  lemma Nested(open: Raw, inner: Text, close: Raw, rest: Text)
    ensures ([open] + inner + [close]) + rest == [open] + (inner + ([close] + rest))
  {
  }

  lemma Opened(text: Text, inner: Text, open: Raw, place: Place, stack: seq<Place>)
    requires text == [open] + inner && ValueAllowed(place) && (open.LBracket? || open.LBrace?)
    ensures var d := State(inner, if open.LBracket? then ArrayStart else ObjectStart, stack + [place]);
            ParseValue(State(text, place, stack))
            == if open.LBracket? then ParseItems(d, []) else ParseMembers(d, map[])
  {
    assert text[0] == open && text[1..] == inner;
  }

  lemma PopPushed(stack: seq<Place>, place: Place)
    ensures var s := stack + [place]; s[|s| - 1] == place && s[..|s| - 1] == stack
  {
  }

  predicate AllDistinct(items: seq<Tree>) {
    forall i :: 0 <= i < |items| ==> DistinctKeys(items[i])
  }

  /** The state after the bracket that closes the innermost array or object. */
  function Popped(rest: Text, stack: seq<Place>): State
    requires stack != []
  {
    State(rest, ValueEnd(stack[|stack| - 1]), stack[..|stack| - 1])
  }

  lemma ItemsStep(d: State, done: seq<Json>)
    requires More(d)
    ensures if ParseValue(d).Failure? then ParseItems(d, done) == Failure(ParseValue(d).error) else
            ParseItems(d, done) == ParseItems(ParseValue(d).value.1, done + [ParseValue(d).value.0])
  {
  }

  lemma ItemsEnd(text: Text, rest: Text, place: Place, stack: seq<Place>, done: seq<Json>)
    requires stack != [] && (place.ArrayStart? || place.ArrayComma?) && text == [] + ([RBracket] + rest)
    ensures ParseItems(State(text, place, stack), done) == Success((JArr(done), Popped(rest, stack)))
  {
    assert text[0] == RBracket && text[1..] == rest;
  }

  lemma ItemsShape(items: seq<Tree>, tail: Text)
    requires items != []
    ensures var after := SpellMoreItems(items[1..]) + tail;
            SpellItems(items) + tail == Spell(items[0]) + after
            && SpellMoreItems(items) + tail == [Comma] + (Spell(items[0]) + after)
  {
    Regroup(Spell(items[0]), SpellMoreItems(items[1..]), tail);
    CommaShape(Spell(items[0]), SpellMoreItems(items[1..]), tail);
  }

  lemma Regroup(x: Text, more: Text, tail: Text)
    ensures x + more + tail == x + (more + tail)
  {
  }

  lemma AllDistinctStep(items: seq<Tree>)
    requires items != []
    ensures AllDistinct(items) <==> DistinctKeys(items[0]) && AllDistinct(items[1..])
  {
    assert items == [items[0]] + items[1..];
  }

  lemma {:induction false} ParseSpelledItems(items: seq<Tree>, rest: Text, stack: seq<Place>)
    requires stack != []
    ensures Yields(ParseItems(State(SpellItems(items) + ([RBracket] + rest), ArrayStart, stack), []),
                   AllDistinct(items), JArr(Meanings(items)), Popped(rest, stack))
    decreases items, 1
  {
    var text := SpellItems(items) + ([RBracket] + rest);
    if items == [] {
      ItemsEnd(text, rest, ArrayStart, stack, []);
    } else {
      var v := Meaning(items[0]);
      var after := SpellMoreItems(items[1..]) + ([RBracket] + rest);
      ItemsShape(items, [RBracket] + rest);
      SpellHead(items[0]);
      ParseSpelled(items[0], after, ArrayStart, stack);
      ItemsStep(State(text, ArrayStart, stack), []);
      ParseSpelledMoreItems(items[1..], [] + [v], rest, stack);
      Shifted([], v, Meanings(items[1..]));
      assert [] + Meanings(items) == Meanings(items);
      AllDistinctStep(items);
    }
  }

  lemma {:induction false} ParseSpelledMoreItems(items: seq<Tree>, done: seq<Json>, rest: Text, stack: seq<Place>)
    requires stack != []
    ensures Yields(ParseItems(State(SpellMoreItems(items) + ([RBracket] + rest), ArrayComma, stack), done),
                   AllDistinct(items), JArr(done + Meanings(items)), Popped(rest, stack))
    decreases items, 1
  {
    var text := SpellMoreItems(items) + ([RBracket] + rest);
    if items == [] {
      ItemsEnd(text, rest, ArrayComma, stack, done);
      assert done + [] == done;
    } else {
      var v := Meaning(items[0]);
      var after := SpellMoreItems(items[1..]) + ([RBracket] + rest);
      ItemsShape(items, [RBracket] + rest);
      SkipPunctuation(Spell(items[0]) + after, ArrayComma, stack);
      ParseSpelled(items[0], after, ArrayValue, stack);
      ItemsStep(State(text, ArrayComma, stack), done);
      ParseSpelledMoreItems(items[1..], done + [v], rest, stack);
      Shifted(done, v, Meanings(items[1..]));
      AllDistinctStep(items);
    }
  }

  lemma Shifted<T>(done: seq<T>, x: T, more: seq<T>)
    ensures done + [x] + more == done + ([x] + more)
  {
  }

  /** Keys not yet in `obj`, not repeated, and values without repeated keys. */
  predicate Fresh(members: seq<Member>, obj: map<string, Json>) {
    members == [] ||
    (var m := members[0];
     m.key !in obj && DistinctKeys(m.value) && Fresh(members[1..], obj[m.key := Meaning(m.value)]))
  }

  lemma {:induction false} FreshMeans(members: seq<Member>, obj: map<string, Json>)
    ensures Fresh(members, obj) <==>
            DistinctKeys(TObj(members)) && forall i :: 0 <= i < |members| ==> members[i].key !in obj
  {
    if members != [] {
      var m, rest := members[0], members[1..];
      FreshMeans(rest, obj[m.key := Meaning(m.value)]);
      assert forall i :: 0 < i < |members| ==> members[i] == rest[i - 1];
      assert forall i :: 0 <= i < |rest| ==> rest[i] == members[i + 1];
    }
  }

  /** The text of a member, from its key to what follows its value. */
  function MemberText(place: Place, m: Member, after: Text): Text {
    (if place.ObjectComma? then [Comma] else []) + ([Str(m.key)] + ([Colon] + (Spell(m.value) + after)))
  }

  lemma KeyToken(text: Text, lead: Text, key: string, x: Text, place: Place, stack: seq<Place>)
    requires place.ObjectStart? || place.ObjectComma?
    requires lead == (if place.ObjectComma? then [Comma] else []) && text == lead + ([Str(key)] + x)
    ensures Token(State(text, place, stack)) == Success((Str(key), State(x, ObjectColon, stack)))
  {
    if place.ObjectComma? {
      assert text[0] == Comma && text[1..] == [Str(key)] + x;
      assert text[1..][1..] == x;
    } else {
      assert text[0] == Str(key) && text[1..] == x;
    }
  }

  lemma {:induction false} ParseSpelledMember(
      m: Member, after: Text, place: Place, stack: seq<Place>, obj: map<string, Json>)
    requires place.ObjectStart? || place.ObjectComma?
    ensures var d := State(MemberText(place, m, after), place, stack);
            var next := State(after, ObjectComma, stack);
            if m.key in obj || !DistinctKeys(m.value) then
              ParseMembers(d, obj).Failure? && ParseMembers(d, obj).error.DuplicateKey?
            else
              ParseMembers(d, obj) == ParseMembers(next, obj[m.key := Meaning(m.value)])
    decreases m, 3
  {
    var value := Spell(m.value) + after;
    var text := MemberText(place, m, after);
    KeyToken(text, if place.ObjectComma? then [Comma] else [], m.key, [Colon] + value, place, stack);
    SpellHead(m.value);
    SkipPunctuation(value, ObjectColon, stack);
    ParseSpelled(m.value, after, ObjectValue, stack);
    MembersStep(State(text, place, stack), m.key, State([Colon] + value, ObjectColon, stack), obj);
  }

  lemma MembersStep(d: State, key: string, d1: State, obj: map<string, Json>)
    requires Token(d) == Success((Str(key), d1)) && More(d1)
    ensures if key in obj then ParseMembers(d, obj) == Failure(DuplicateKey(key)) else
            if ParseValue(d1).Failure? then ParseMembers(d, obj) == Failure(ParseValue(d1).error) else
            ParseMembers(d, obj) == ParseMembers(ParseValue(d1).value.1, obj[key := ParseValue(d1).value.0])
  {
  }

  lemma MembersEnd(text: Text, rest: Text, place: Place, stack: seq<Place>, obj: map<string, Json>)
    requires stack != [] && (place.ObjectStart? || place.ObjectComma?) && text == [] + ([RBrace] + rest)
    ensures ParseMembers(State(text, place, stack), obj) == Success((JObj(obj), Popped(rest, stack)))
  {
    assert text[0] == RBrace && text[1..] == rest;
  }

  lemma MembersShape(members: seq<Member>, tail: Text)
    requires members != []
    ensures var after := SpellMoreMembers(members[1..]) + tail;
            SpellMembers(members) + tail == MemberText(ObjectStart, members[0], after)
            && SpellMoreMembers(members) + tail == MemberText(ObjectComma, members[0], after)
  {
    var m, more := members[0], SpellMoreMembers(members[1..]);
    MemberShape([Str(m.key)], [Colon], Spell(m.value), more, tail, SpellMember(m) + more);
    CommaShape(SpellMember(m), more, tail);
  }

  lemma MemberShape(key: Text, colon: Text, value: Text, more: Text, tail: Text, x: Text)
    requires |key| == |colon| == 1 && x == ([key[0], colon[0]] + value) + more
    ensures x + tail == [] + (key + (colon + (value + (more + tail))))
  {
    assert [key[0], colon[0]] == key + colon;
    assert ((key + colon) + value) + (more + tail) == key + (colon + (value + (more + tail)));
  }

  lemma CommaShape(x: Text, more: Text, tail: Text)
    ensures [Comma] + x + more + tail == [Comma] + (x + more + tail)
  {
  }

  lemma {:induction false} ParseSpelledMembers(members: seq<Member>, rest: Text, stack: seq<Place>)
    requires stack != []
    ensures Yields(ParseMembers(State(SpellMembers(members) + ([RBrace] + rest), ObjectStart, stack), map[]),
                   Fresh(members, map[]), JObj(AddMembers(map[], members)), Popped(rest, stack))
    decreases members, 4
  {
    if members == [] {
      MembersEnd(SpellMembers(members) + ([RBrace] + rest), rest, ObjectStart, stack, map[]);
    } else {
      MembersShape(members, [RBrace] + rest);
      ParseSpelledMember(members[0], SpellMoreMembers(members[1..]) + ([RBrace] + rest), ObjectStart, stack, map[]);
      ParseSpelledMoreMembers(members[1..], map[][members[0].key := Meaning(members[0].value)], rest, stack);
    }
  }

  lemma {:induction false} ParseSpelledMoreMembers(
      members: seq<Member>, obj: map<string, Json>, rest: Text, stack: seq<Place>)
    requires stack != []
    ensures Yields(ParseMembers(State(SpellMoreMembers(members) + ([RBrace] + rest), ObjectComma, stack), obj),
                   Fresh(members, obj), JObj(AddMembers(obj, members)), Popped(rest, stack))
    decreases members, 4
  {
    if members == [] {
      MembersEnd(SpellMoreMembers(members) + ([RBrace] + rest), rest, ObjectComma, stack, obj);
    } else {
      MembersShape(members, [RBrace] + rest);
      ParseSpelledMember(members[0], SpellMoreMembers(members[1..]) + ([RBrace] + rest), ObjectComma, stack, obj);
      ParseSpelledMoreMembers(members[1..], obj[members[0].key := Meaning(members[0].value)], rest, stack);
    }
  }

  // ---------- Only spelled texts are parsed ----------

  function Lead(place: Place): Text {
    if place.ArrayComma? then [Comma] else if place.ObjectColon? then [Colon] else []
  }

  function Entered(place: Place): Place {
    if place.ArrayComma? then ArrayValue else if place.ObjectColon? then ObjectValue else place
  }

  predicate BeforeValue(place: Place) {
    place.TopValue? || place.ArrayStart? || place.ArrayComma? || place.ObjectColon?
  }

  /** The text between a state and a later one. */
  predicate Consumed(d: State, text: Text, d': State) {
    d.rest == text + d'.rest
  }

  /** What one token does to the state it is taken from. */
  predicate Entering(raw: Raw, place: Place, stack: seq<Place>, d1: State) {
    && (raw.LBracket? ==> d1.place == ArrayStart && d1.stack == stack + [place])
    && (raw.LBrace? ==> d1.place == ObjectStart && d1.stack == stack + [place])
    && (IsScalar(raw) ==> d1.place == ValueEnd(place) && d1.stack == stack)
  }

  lemma TokenDirect(d: State, raw: Raw, d1: State)
    requires ValueAllowed(d.place) && Token(d) == Success((raw, d1)) && !raw.RBracket? && !raw.RBrace?
    ensures Consumed(d, [raw], d1) && Entering(raw, d.place, d.stack, d1)
  {
    TokenFirst(d, raw, d1);
    assert d.rest == [d.rest[0]] + d.rest[1..];
  }

  lemma TokenFirst(d: State, raw: Raw, d1: State)
    requires ValueAllowed(d.place) && Token(d) == Success((raw, d1)) && !raw.RBracket? && !raw.RBrace?
    ensures d.rest != [] && raw == d.rest[0] && d1.rest == d.rest[1..] && Entering(raw, d.place, d.stack, d1)
  {
  }

  lemma TokenBeforeValue(d: State, raw: Raw, d1: State)
    requires BeforeValue(d.place) && Token(d) == Success((raw, d1)) && !raw.RBracket? && !raw.RBrace?
    ensures Consumed(d, Lead(d.place) + [raw], d1) && Entering(raw, Entered(d.place), d.stack, d1)
  {
    if Lead(d.place) == [] {
      TokenDirect(d, raw, d1);
      assert [] + [raw] == [raw];
    } else {
      var e := State(d.rest[1..], Entered(d.place), d.stack);
      assert Token(e) == Token(d);
      TokenDirect(e, raw, d1);
      assert d.rest == [d.rest[0]] + e.rest;
      assert d.rest == Lead(d.place) + [raw] + d1.rest;
    }
  }

  lemma {:induction false} ParsedTree(d: State, v: Json, d': State) returns (t: Tree)
    requires BeforeValue(d.place) && ParseValue(d) == Success((v, d'))
    ensures DistinctKeys(t) && Meaning(t) == v && Consumed(d, Lead(d.place) + Spell(t), d')
    ensures d'.place == ValueEnd(Entered(d.place)) && d'.stack == d.stack
    decreases |d.rest|, 1
  {
    var (raw, d1) := Token(d).value;
    TokenBeforeValue(d, raw, d1);
    if raw.LBracket? {
      PopPushed(d.stack, Entered(d.place));
      var items := ParsedItems(d1, [], v, d');
      t := TArr(items);
      assert [] + Meanings(items) == Meanings(items);
      Bracketed(d, d1, d', Lead(d.place), LBracket, SpellItems(items), RBracket);
    } else if raw.LBrace? {
      PopPushed(d.stack, Entered(d.place));
      var members := ParsedMembers(d1, map[], v, d');
      t := TObj(members);
      FreshMeans(members, map[]);
      Bracketed(d, d1, d', Lead(d.place), LBrace, SpellMembers(members), RBrace);
    } else {
      t := ScalarTree(raw);
    }
  }

  lemma Bracketed(d: State, d1: State, d': State, lead: Text, open: Raw, inner: Text, close: Raw)
    requires Consumed(d, lead + [open], d1) && Consumed(d1, inner + [close], d')
    ensures Consumed(d, lead + ([open] + inner + [close]), d')
  {
    assert d.rest == lead + [open] + (inner + [close] + d'.rest);
  }

  function ScalarTree(raw: Raw): (t: Tree)
    requires IsScalar(raw)
    ensures Spell(t) == [raw] && Meaning(t) == Scalar(raw) && DistinctKeys(t)
  {
    match raw
    case Str(s) => TStr(s)
    case Num(n) => TNum(n)
    case True => TBool(true)
    case False => TBool(false)
    case Null => TNull
  }

  lemma ClosingToken(d: State, closer: Raw, d1: State)
    requires !More(d) && Token(d) == Success((closer, d1))
    ensures d.stack != [] && Consumed(d, [closer], d1) && d1 == Popped(d1.rest, d.stack)
    ensures closer == if d.place.ArrayStart? || d.place.ArrayComma? then RBracket else RBrace
  {
    assert d.rest == [d.rest[0]] + d.rest[1..];
  }

  /** The items still to come after a state inside an array. */
  function ItemsText(place: Place, items: seq<Tree>): Text {
    if place.ArrayStart? then SpellItems(items) else SpellMoreItems(items)
  }

  lemma {:induction false} ParsedItems(d: State, done: seq<Json>, v: Json, d': State) returns (items: seq<Tree>)
    requires (d.place.ArrayStart? || d.place.ArrayComma?) && ParseItems(d, done) == Success((v, d'))
    ensures AllDistinct(items) && v == JArr(done + Meanings(items))
    ensures Consumed(d, ItemsText(d.place, items) + [RBracket], d')
    ensures d.stack != [] && d' == Popped(d'.rest, d.stack)
    decreases |d.rest|, 2
  {
    if More(d) {
      var (x, d1) := ParseValue(d).value;
      var t := ParsedTree(d, x, d1);
      var more := ParsedItems(d1, done + [x], v, d');
      items := [t] + more;
      assert items[1..] == more;
      Shifted(done, x, Meanings(more));
      ItemConsumed(d, d1, d', t, more);
    } else {
      items := [];
      ClosingToken(d, Token(d).value.0, d');
      assert done + [] == done;
    }
  }

  /** Two stretches of text taken one after the other. */
  lemma Chained(x: Text, head: Text, y: Text, tail: Text, z: Text)
    requires x == head + y && y == tail + z
    ensures x == (head + tail) + z
  {
  }

  lemma NextItem(place: Place, t: Tree, more: seq<Tree>)
    requires place.ArrayStart? || place.ArrayComma?
    ensures ItemsText(place, [t] + more) == Lead(place) + Spell(t) + SpellMoreItems(more)
  {
    var items := [t] + more;
    assert items[1..] == more && items[0] == t;
  }

  lemma ItemConsumed(d: State, d1: State, d': State, t: Tree, more: seq<Tree>)
    requires d.place.ArrayStart? || d.place.ArrayComma?
    requires Consumed(d, Lead(d.place) + Spell(t), d1) && Consumed(d1, SpellMoreItems(more) + [RBracket], d')
    ensures Consumed(d, ItemsText(d.place, [t] + more) + [RBracket], d')
  {
    Joined(d, Lead(d.place) + Spell(t), d1, SpellMoreItems(more), RBracket, d');
    NextItem(d.place, t, more);
  }

  lemma Joined(d: State, head: Text, d1: State, tail: Text, close: Raw, d': State)
    requires Consumed(d, head, d1) && Consumed(d1, tail + [close], d')
    ensures Consumed(d, head + tail + [close], d')
  {
    Chained(d.rest, head, d1.rest, tail + [close], d'.rest);
    assert head + (tail + [close]) == head + tail + [close];
  }

  lemma KeyPieces(key: Raw, colon: Raw, value: Text, z: Text)
    ensures [key] + ([colon] + value + z) == ([key, colon] + value) + z
  {
  }

  lemma TokenBeforeKey(d: State, key: string, d1: State)
    requires (d.place.ObjectStart? || d.place.ObjectComma?) && Token(d) == Success((Str(key), d1))
    ensures Consumed(d, MemberLead(d.place) + [Str(key)], d1)
    ensures d1.place == ObjectColon && d1.stack == d.stack
  {
    if d.place.ObjectComma? {
      TwoHeads(d.rest);
    } else {
      assert d.rest == [] + [d.rest[0]] + d.rest[1..];
    }
  }

  lemma TwoHeads(x: Text)
    requires |x| >= 2
    ensures x == [x[0]] + [x[1..][0]] + x[1..][1..]
  {
  }

  function MembersText(place: Place, members: seq<Member>): Text {
    if place.ObjectStart? then SpellMembers(members) else SpellMoreMembers(members)
  }

  lemma {:induction false} ParsedMembers(d: State, obj: map<string, Json>, v: Json, d': State)
      returns (members: seq<Member>)
    requires (d.place.ObjectStart? || d.place.ObjectComma?) && ParseMembers(d, obj) == Success((v, d'))
    ensures Fresh(members, obj) && v == JObj(AddMembers(obj, members))
    ensures Consumed(d, MembersText(d.place, members) + [RBrace], d')
    ensures d.stack != [] && d' == Popped(d'.rest, d.stack)
    decreases |d.rest|, 2
  {
    if More(d) {
      var m, d2 := ParsedMember(d, obj, v, d');
      var more := ParsedMembers(d2, obj[m.key := Meaning(m.value)], v, d');
      members := [m] + more;
      assert members[1..] == more;
      MemberConsumed(d, d2, d', m, more);
    } else {
      members := [];
      ClosingToken(d, Token(d).value.0, d');
    }
  }

  lemma {:induction false} ParsedMember(d: State, obj: map<string, Json>, v: Json, d': State)
      returns (m: Member, d2: State)
    requires (d.place.ObjectStart? || d.place.ObjectComma?) && More(d) && ParseMembers(d, obj) == Success((v, d'))
    ensures m.key !in obj && DistinctKeys(m.value) && |d2.rest| < |d.rest|
    ensures ParseMembers(d2, obj[m.key := Meaning(m.value)]) == Success((v, d'))
    ensures Consumed(d, MemberLead(d.place) + SpellMember(m), d2) && d2.place == ObjectComma && d2.stack == d.stack
    decreases |d.rest|, 1
  {
    var (raw, d1) := Token(d).value;
    TokenBeforeKey(d, raw.text, d1);
    d2 := ParseValue(d1).value.1;
    var t := ParsedTree(d1, ParseValue(d1).value.0, d2);
    m := Member(raw.text, t);
    MemberPieces(MemberLead(d.place), m, d.rest, d1.rest, d2.rest);
  }

  lemma MemberPieces(lead: Text, m: Member, x: Text, y: Text, z: Text)
    requires x == lead + [Str(m.key)] + y && y == [Colon] + Spell(m.value) + z
    ensures x == lead + SpellMember(m) + z
  {
    KeyPieces(Str(m.key), Colon, Spell(m.value), z);
    Regroup(lead, [Str(m.key)], y);
    Regroup(lead, SpellMember(m), z);
  }

  function MemberLead(place: Place): Text {
    if place.ObjectComma? then [Comma] else []
  }

  lemma NextMember(place: Place, m: Member, more: seq<Member>)
    requires place.ObjectStart? || place.ObjectComma?
    ensures MembersText(place, [m] + more) == MemberLead(place) + SpellMember(m) + SpellMoreMembers(more)
  {
    var members := [m] + more;
    assert members[1..] == more && members[0] == m;
    if place.ObjectStart? {
      assert MembersText(place, members) == SpellMember(m) + SpellMoreMembers(more);
      assert [] + SpellMember(m) == SpellMember(m);
    }
  }

  lemma MemberConsumed(d: State, d2: State, d': State, m: Member, more: seq<Member>)
    requires d.place.ObjectStart? || d.place.ObjectComma?
    requires d.rest == MemberLead(d.place) + SpellMember(m) + d2.rest
    requires d2.rest == SpellMoreMembers(more) + [RBrace] + d'.rest
    ensures d.rest == MembersText(d.place, [m] + more) + [RBrace] + d'.rest
  {
    Joined(d, MemberLead(d.place) + SpellMember(m), d2, SpellMoreMembers(more), RBrace, d');
    NextMember(d.place, m, more);
  }

  // ---------- The grammar theorem ----------

  /** Every text spelled by a tree: accepted exactly without repeated keys. */
  lemma ParseOfSpell(t: Tree)
    ensures DistinctKeys(t) ==> Parse(Spell(t)) == Success(Meaning(t))
    ensures !DistinctKeys(t) ==> Parse(Spell(t)).Failure? && Parse(Spell(t)).error.DuplicateKey?
  {
    ParseSpelled(t, [], TopValue, []);
    assert Spell(t) + [] == Spell(t);
  }

  /** Nothing may follow the value: not a second value, not anything else. */
  lemma ParseTrailing(t: Tree, rest: Text)
    requires rest != []
    ensures Parse(Spell(t) + rest).Failure?
  {
    ParseSpelled(t, rest, TopValue, []);
  }

  /** `Bytes` accepts a text as a value exactly when the text spells a tree
      without repeated keys; the value is the one that tree denotes. */
  lemma ParseIff(text: Text, v: Json)
    ensures Parse(text) == Success(v) <==>
            exists t :: Spell(t) == text && DistinctKeys(t) && Meaning(t) == v
  {
    if Parse(text) == Success(v) {
      var d := State(text, TopValue, []);
      var d' := ParseValue(d).value.1;
      var t := ParsedTree(d, v, d');
      assert Spell(t) == text by {
        assert [] + Spell(t) == Spell(t);
        assert Spell(t) + [] == Spell(t);
      }
    }
    if t :| Spell(t) == text && DistinctKeys(t) && Meaning(t) == v {
      ParseOfSpell(t);
    }
  }
}
