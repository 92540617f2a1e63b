/** The token stream that the CSS tokenizer hands to the property parsers,
    and a cursor over it that advances one token at a time and can be
    rewound, as `try_parse` does. Whitespace and comments are already gone. */
module CssParser {
  import opened Lengths

  datatype Option<T> = None | Some(value: T)

  datatype Token =
    | Ident(name: string)
    | QuotedString(text: string)
    | Integer(intValue: int)
    | Number(numValue: real)
    | Dimension(magnitude: real, unitName: string)
    | Percentage(fraction: real)
    | Delim(symbol: char)

  /** Custom errors raised by a property parser after a token was read. */
  datatype ValueErrorKind = BadParse(message: string) | BadValue(message: string)

  datatype ParseError =
    | EndOfInput
    | UnexpectedToken(token: Token)
    | Custom(kind: ValueErrorKind)

  /** What a parser returns to its caller. */
  datatype Result<T> = Ok(value: T) | Err(error: ParseError)

  /** What a parser does to a token sequence read from position `pos`:
      on success, the value and the position just after what it consumed. */
  datatype Parsed<T> = Parsed(value: T, next: nat) | Failed(error: ParseError)

  /** The length parser consumes one token and accepts it or not. */
  type LengthParser = Token -> Option<Length>

  /** Reads one token and passes it to `accept`; end of input and a
      rejected token are the two ways this fails. */
  function ExpectAt<T>(tokens: seq<Token>, pos: nat, accept: Token -> Option<T>): (r: Parsed<T>)
    ensures r.Parsed? <==> pos < |tokens| && accept(tokens[pos]).Some?
    ensures r.Parsed? ==> r.next == pos + 1 && Some(r.value) == accept(tokens[pos])
    ensures r.Failed? && pos < |tokens| ==> r.error == UnexpectedToken(tokens[pos])
    ensures pos >= |tokens| ==> r == Failed(EndOfInput)
  {
    if pos < |tokens| then
      match accept(tokens[pos])
      case Some(v) => Parsed(v, pos + 1)
      case None => Failed(UnexpectedToken(tokens[pos]))
    else
      Failed(EndOfInput)
  }

  function IdentName(t: Token): (r: Option<string>) {
    if t.Ident? then Some(t.name) else None
  }

  function IntegerValue(t: Token): (r: Option<int>) {
    if t.Integer? then Some(t.intValue) else None
  }

  function StringText(t: Token): (r: Option<string>) {
    if t.QuotedString? then Some(t.text) else None
  }

  /** A parser's returned value and final position agree with its
      specification `spec`; after a failure the position is unspecified. */
  ghost predicate Agrees<T>(spec: Parsed<T>, r: Result<T>, pos: nat) {
    match spec
    case Parsed(v, n) => r == Ok(v) && pos == n
    case Failed(e) => r == Err(e)
  }

  /** The tokenizer's mutable cursor. */
  class Cursor {
    const tokens: seq<Token>
    var pos: nat

    ghost predicate Valid()
      reads this
    {
      pos <= |tokens|
    }

    constructor (tokens: seq<Token>)
      ensures Valid() && this.tokens == tokens && pos == 0
    {
      this.tokens := tokens;
      pos := 0;
    }

    /** Reads the next token, which is consumed whether or not `accept`
        takes it. */
    method Expect<T>(accept: Token -> Option<T>) returns (r: Result<T>)
      requires Valid()
      modifies this
      ensures Valid()
      ensures Agrees(ExpectAt(tokens, old(pos), accept), r, pos)
    {
      if pos < |tokens| {
        var t := tokens[pos];
        pos := pos + 1;
        match accept(t) {
          case Some(v) => r := Ok(v);
          case None => r := Err(UnexpectedToken(t));
        }
      } else {
        r := Err(EndOfInput);
      }
    }
  }
}
