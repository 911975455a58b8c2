/** The token-level view of a JSON text and the decoder that walks it. A text is
    the sequence of its lexical tokens: white space is gone, strings are decoded
    and numbers are kept as lexemes. */
module JsonDecoder {
  import opened Wrappers
  import opened CanonNumber

  /** Lexemes of texts that fit in memory; see `CanonInt64.CanonicalNumber`. */
  type Lexeme = s: string | IsLexeme(s) && |s| < 0x4000_0000_0000_0000
    ghost witness (ZeroIsPlain(); "0")

  /** `Junk` stands for bytes that are no token. */
  datatype Raw =
    | LBrace | RBrace | LBracket | RBracket | Comma | Colon
    | Str(text: string) | Num(lexeme: Lexeme) | True | False | Null
    | Junk

  type Text = seq<Raw>

  datatype Error =
    | EndOfInput | Syntax | KeyNotString | DuplicateKey(key: string) | UnexpectedDelimiter
    | MultipleValues | TrailingData | NumberLimit

  /** Where the decoder stands relative to the enclosing array or object. */
  datatype Place =
    | TopValue
    | ArrayStart | ArrayValue | ArrayComma
    | ObjectStart | ObjectKey | ObjectColon | ObjectValue | ObjectComma

  predicate ValueAllowed(place: Place) {
    place.TopValue? || place.ArrayStart? || place.ArrayValue? || place.ObjectValue?
  }

  /** The place after a complete value. */
  function ValueEnd(place: Place): Place {
    match place
    case ArrayStart => ArrayComma
    case ArrayValue => ArrayComma
    case ObjectValue => ObjectComma
    case _ => place
  }

  datatype State = State(rest: Text, place: Place, stack: seq<Place>)

  predicate IsScalar(raw: Raw) {
    raw.Str? || raw.Num? || raw.True? || raw.False? || raw.Null?
  }

  /** One call of `Decoder.Token`: commas and colons are checked and skipped. */
  function Token(d: State): (r: Result<(Raw, State), Error>)
    ensures r.Success? ==> |r.value.1.rest| < |d.rest|
    ensures r.Success? ==> IsScalar(r.value.0) || r.value.0.LBrace? || r.value.0.RBrace?
                           || r.value.0.LBracket? || r.value.0.RBracket?
    decreases |d.rest|
  {
    if d.rest == [] then Failure(EndOfInput)
    else
      var raw, rest := d.rest[0], d.rest[1..];
      match raw
      case LBracket =>
        if ValueAllowed(d.place) then Success((raw, State(rest, ArrayStart, d.stack + [d.place])))
        else Failure(Syntax)
      case LBrace =>
        if ValueAllowed(d.place) then Success((raw, State(rest, ObjectStart, d.stack + [d.place])))
        else Failure(Syntax)
      case RBracket =>
        if (d.place.ArrayStart? || d.place.ArrayComma?) && d.stack != []
        then Success((raw, State(rest, ValueEnd(d.stack[|d.stack| - 1]), d.stack[..|d.stack| - 1])))
        else Failure(Syntax)
      case RBrace =>
        if (d.place.ObjectStart? || d.place.ObjectComma?) && d.stack != []
        then Success((raw, State(rest, ValueEnd(d.stack[|d.stack| - 1]), d.stack[..|d.stack| - 1])))
        else Failure(Syntax)
      case Colon =>
        if d.place.ObjectColon? then Token(State(rest, ObjectValue, d.stack)) else Failure(Syntax)
      case Comma =>
        if d.place.ArrayComma? then Token(State(rest, ArrayValue, d.stack))
        else if d.place.ObjectComma? then Token(State(rest, ObjectKey, d.stack))
        else Failure(Syntax)
      case Junk => Failure(Syntax)
      case _ =>
        if raw.Str? && (d.place.ObjectStart? || d.place.ObjectKey?)
        then Success((raw, State(rest, ObjectColon, d.stack)))
        else if ValueAllowed(d.place) then Success((raw, State(rest, ValueEnd(d.place), d.stack)))
        else Failure(Syntax)
  }

  /** `Decoder.More`: something is left and it closes nothing. */
  predicate More(d: State) {
    d.rest != [] && !d.rest[0].RBracket? && !d.rest[0].RBrace?
  }

  /** The decoder object: its fields change as tokens are taken. */
  class Decoder {
    var rest: Text
    var place: Place
    var stack: seq<Place>

    function View(): State
      reads this
    {
      State(rest, place, stack)
    }

    constructor (input: Text)
      ensures View() == State(input, TopValue, [])
    {
      rest, place, stack := input, TopValue, [];
    }

    method NextToken() returns (r: Result<Raw, Error>)
      modifies this
      ensures match Token(old(View())) {
        case Success(pair) => r == Success(pair.0) && View() == pair.1
        case Failure(e) => r == Failure(e)
      }
    {
      ghost var start := View();
      while rest != []
        invariant Token(View()) == Token(start)
        decreases |rest|
      {
        var raw := rest[0];
        if raw.LBracket? || raw.LBrace? {
          if !ValueAllowed(place) { return Failure(Syntax); }
          rest, stack, place := rest[1..], stack + [place], if raw.LBracket? then ArrayStart else ObjectStart;
          return Success(raw);
        } else if raw.RBracket? {
          if !(place.ArrayStart? || place.ArrayComma?) || stack == [] { return Failure(Syntax); }
          rest, place, stack := rest[1..], ValueEnd(stack[|stack| - 1]), stack[..|stack| - 1];
          return Success(raw);
        } else if raw.RBrace? {
          if !(place.ObjectStart? || place.ObjectComma?) || stack == [] { return Failure(Syntax); }
          rest, place, stack := rest[1..], ValueEnd(stack[|stack| - 1]), stack[..|stack| - 1];
          return Success(raw);
        } else if raw.Colon? {
          if !place.ObjectColon? { return Failure(Syntax); }
          rest, place := rest[1..], ObjectValue;
        } else if raw.Comma? {
          if place.ArrayComma? {
            rest, place := rest[1..], ArrayValue;
          } else if place.ObjectComma? {
            rest, place := rest[1..], ObjectKey;
          } else {
            return Failure(Syntax);
          }
        } else if raw.Junk? {
          return Failure(Syntax);
        } else if raw.Str? && (place.ObjectStart? || place.ObjectKey?) {
          rest, place := rest[1..], ObjectColon;
          return Success(raw);
        } else {
          if !ValueAllowed(place) { return Failure(Syntax); }
          rest, place := rest[1..], ValueEnd(place);
          return Success(raw);
        }
      }
      return Failure(EndOfInput);
    }
  }
}
