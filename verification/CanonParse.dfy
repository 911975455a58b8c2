/** `parseValue`: a token stream becomes a value, or is rejected when a key is
    repeated. Trees are the reference: what a text spells, members in order. */
module CanonParse {
  import opened Wrappers
  import opened JsonDecoder

  /** The values of `parseValue`; objects are maps. */
  datatype Json =
    | JNull | JBool(b: bool) | JStr(s: string) | JNum(n: Lexeme)
    | JArr(items: seq<Json>) | JObj(fields: map<string, Json>)

  function Scalar(raw: Raw): Json
    requires IsScalar(raw)
  {
    match raw
    case Str(s) => JStr(s)
    case Num(n) => JNum(n)
    case True => JBool(true)
    case False => JBool(false)
    case Null => JNull
  }

  // ---------- The parser on states ----------

  function ParseValue(d: State): (r: Result<(Json, State), Error>)
    ensures r.Success? ==> |r.value.1.rest| < |d.rest|
    decreases |d.rest|, 0
  {
    match Token(d)
    case Failure(e) => Failure(e)
    case Success((raw, d1)) =>
      if raw.LBrace? then ParseMembers(d1, map[])
      else if raw.LBracket? then ParseItems(d1, [])
      else if IsScalar(raw) then Success((Scalar(raw), d1))
      else Failure(UnexpectedDelimiter)
  }

  function ParseMembers(d: State, obj: map<string, Json>): (r: Result<(Json, State), Error>)
    ensures r.Success? ==> |r.value.1.rest| < |d.rest|
    decreases |d.rest|, 1
  {
    match Token(d)
    case Failure(e) => Failure(e)
    case Success((raw, d1)) =>
      if !More(d) then Success((JObj(obj), d1))
      else if !raw.Str? then Failure(KeyNotString)
      else if raw.text in obj then Failure(DuplicateKey(raw.text))
      else
        match ParseValue(d1)
        case Failure(e) => Failure(e)
        case Success((v, d2)) => ParseMembers(d2, obj[raw.text := v])
  }

  function ParseItems(d: State, items: seq<Json>): (r: Result<(Json, State), Error>)
    ensures r.Success? ==> |r.value.1.rest| < |d.rest|
    decreases |d.rest|, 1
  {
    if More(d) then
      match ParseValue(d)
      case Failure(e) => Failure(e)
      case Success((v, d1)) => ParseItems(d1, items + [v])
    else
      match Token(d)
      case Failure(e) => Failure(e)
      case Success((_, d1)) => Success((JArr(items), d1))
  }

  /** The source's two errors for what follows the value are not told apart. */
  function Parse(text: Text): Result<Json, Error> {
    match ParseValue(State(text, TopValue, []))
    case Failure(e) => Failure(e)
    case Success((v, d)) => if d.rest == [] then Success(v) else Failure(TrailingData)
  }

  // ---------- The parser on the decoder object ----------

  predicate Matches(r: Result<Json, Error>, after: State, spec: Result<(Json, State), Error>) {
    match spec
    case Success(p) => r == Success(p.0) && after == p.1
    case Failure(e) => r == Failure(e)
  }

  /** `parseValue` as written: a recursive walk of a mutable decoder. */
  method ParseFrom(dec: Decoder) returns (r: Result<Json, Error>)
    modifies dec
    ensures Matches(r, dec.View(), ParseValue(old(dec.View())))
    decreases |dec.rest|, 1
  {
    var tok := dec.NextToken();
    if tok.Failure? {
      return Failure(tok.error);
    }
    if tok.value.LBrace? {
      r := ParseObject(dec);
    } else if tok.value.LBracket? {
      r := ParseArray(dec);
    } else if IsScalar(tok.value) {
      r := Success(Scalar(tok.value));
    } else {
      r := Failure(UnexpectedDelimiter);
    }
  }

  method ParseObject(dec: Decoder) returns (r: Result<Json, Error>)
    modifies dec
    ensures Matches(r, dec.View(), ParseMembers(old(dec.View()), map[]))
    decreases |dec.rest|, 2
  {
    var obj: map<string, Json>, seen: set<string> := map[], {};
    while More(dec.View())
      invariant |dec.rest| <= |old(dec.rest)| && seen == obj.Keys
      invariant ParseMembers(dec.View(), obj) == ParseMembers(old(dec.View()), map[])
      decreases |dec.rest|
    {
      var keyToken := dec.NextToken();
      if keyToken.Failure? {
        return Failure(keyToken.error);
      }
      if !keyToken.value.Str? {
        return Failure(KeyNotString);
      }
      var key := keyToken.value.text;
      if key in seen {
        return Failure(DuplicateKey(key));
      }
      seen := seen + {key};
      var value := ParseFrom(dec);
      if value.Failure? {
        return Failure(value.error);
      }
      obj := obj[key := value.value];
    }
    var end := dec.NextToken();
    r := if end.Failure? then Failure(end.error) else Success(JObj(obj));
  }

  method ParseArray(dec: Decoder) returns (r: Result<Json, Error>)
    modifies dec
    ensures Matches(r, dec.View(), ParseItems(old(dec.View()), []))
    decreases |dec.rest|, 2
  {
    var items: seq<Json> := [];
    while More(dec.View())
      invariant |dec.rest| <= |old(dec.rest)|
      invariant ParseItems(dec.View(), items) == ParseItems(old(dec.View()), [])
      decreases |dec.rest|
    {
      var value := ParseFrom(dec);
      if value.Failure? {
        return Failure(value.error);
      }
      items := items + [value.value];
    }
    var end := dec.NextToken();
    r := if end.Failure? then Failure(end.error) else Success(JArr(items));
  }

  // ---------- What texts spell ----------

  /** The syntax tree of a text, object members in the order written. */
  datatype Tree =
    | TNull | TBool(b: bool) | TStr(s: string) | TNum(n: Lexeme)
    | TArr(items: seq<Tree>) | TObj(members: seq<Member>)

  datatype Member = Member(key: string, value: Tree)

  function Spell(t: Tree): Text
    decreases t, 1
  {
    match t
    case TNull => [Null]
    case TBool(b) => [if b then True else False]
    case TStr(s) => [Str(s)]
    case TNum(n) => [Num(n)]
    case TArr(items) => [LBracket] + SpellItems(items) + [RBracket]
    case TObj(members) => [LBrace] + SpellMembers(members) + [RBrace]
  }

  function SpellItems(items: seq<Tree>): Text
    decreases items, 0
  {
    if items == [] then [] else Spell(items[0]) + SpellMoreItems(items[1..])
  }

  function SpellMoreItems(items: seq<Tree>): Text
    decreases items, 0
  {
    if items == [] then [] else [Comma] + Spell(items[0]) + SpellMoreItems(items[1..])
  }

  function SpellMember(m: Member): Text
    decreases m, 0
  {
    [Str(m.key), Colon] + Spell(m.value)
  }

  function SpellMembers(members: seq<Member>): Text
    decreases members, 0
  {
    if members == [] then [] else SpellMember(members[0]) + SpellMoreMembers(members[1..])
  }

  function SpellMoreMembers(members: seq<Member>): Text
    decreases members, 0
  {
    if members == [] then [] else [Comma] + SpellMember(members[0]) + SpellMoreMembers(members[1..])
  }

  /** No object has a repeated key, at any depth. */
  predicate DistinctKeys(t: Tree) {
    match t
    case TArr(items) => forall i :: 0 <= i < |items| ==> DistinctKeys(items[i])
    case TObj(members) =>
      && (forall i, j :: 0 <= i < j < |members| ==> members[i].key != members[j].key)
      && forall i :: 0 <= i < |members| ==> DistinctKeys(members[i].value)
    case _ => true
  }

  /** The value a tree denotes. */
  function Meaning(t: Tree): Json
    decreases t, 1
  {
    match t
    case TNull => JNull
    case TBool(b) => JBool(b)
    case TStr(s) => JStr(s)
    case TNum(n) => JNum(n)
    case TArr(items) => JArr(Meanings(items))
    case TObj(members) => JObj(AddMembers(map[], members))
  }

  function Meanings(items: seq<Tree>): (r: seq<Json>)
    ensures |r| == |items|
    decreases items, 0
  {
    if items == [] then [] else [Meaning(items[0])] + Meanings(items[1..])
  }

  function AddMembers(obj: map<string, Json>, members: seq<Member>): map<string, Json>
    decreases members, 0
  {
    if members == [] then obj else AddMembers(obj[members[0].key := Meaning(members[0].value)], members[1..])
  }
}
