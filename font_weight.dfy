/** The font-weight property (CSS 2, chapter 15): four keywords and the
    nine numeric weights. There is no cascade step: `Bolder` and `Lighter`
    stay as they are. */
module FontWeight {
  import opened CssParser

  datatype FontWeightSpec =
    | Normal
    | Bold
    | Bolder
    | Lighter
    | W100
    | W200
    | W300
    | W400
    | W500
    | W600
    | W700
    | W800
    | W900

  predicate IsNumeric(w: FontWeightSpec) {
    !(w.Normal? || w.Bold? || w.Bolder? || w.Lighter?)
  }

  /** The number a numeric weight stands for. */
  function WeightNumber(w: FontWeightSpec): (n: int)
    requires IsNumeric(w)
  {
    match w
    case W100 => 100
    case W200 => 200
    case W300 => 300
    case W400 => 400
    case W500 => 500
    case W600 => 600
    case W700 => 700
    case W800 => 800
    case W900 => 900
  }

  /** The integer table: only the nine multiples of 100 from 100 to 900. */
  function WeightOfInteger(i: int): (r: Option<FontWeightSpec>)
    ensures r.Some? <==> 100 <= i <= 900 && i % 100 == 0
    ensures r.Some? ==> IsNumeric(r.value) && WeightNumber(r.value) == i
  {
    if i == 100 then Some(W100)
    else if i == 200 then Some(W200)
    else if i == 300 then Some(W300)
    else if i == 400 then Some(W400)
    else if i == 500 then Some(W500)
    else if i == 600 then Some(W600)
    else if i == 700 then Some(W700)
    else if i == 800 then Some(W800)
    else if i == 900 then Some(W900)
    else None
  }

  /** Every numeric weight is reached from its own number. */
  lemma WeightNumberRoundTrip(w: FontWeightSpec)
    requires IsNumeric(w)
    ensures WeightOfInteger(WeightNumber(w)) == Some(w)
  {
  }

  /** The keyword table, matched exactly. */
  function Keyword(name: string): (r: Option<FontWeightSpec>)
    ensures r.Some? ==> !IsNumeric(r.value)
  {
    if name == "normal" then Some(Normal)
    else if name == "bold" then Some(Bold)
    else if name == "bolder" then Some(Bolder)
    else if name == "lighter" then Some(Lighter)
    else None
  }

  function KeywordName(w: FontWeightSpec): (name: string)
    requires !IsNumeric(w)
  {
    match w
    case Normal => "normal"
    case Bold => "bold"
    case Bolder => "bolder"
    case Lighter => "lighter"
  }

  /** Every keyword variant has exactly one name in the table. */
  lemma KeywordTableRoundTrip(w: FontWeightSpec, name: string)
    ensures !IsNumeric(w) ==> Keyword(KeywordName(w)) == Some(w)
    ensures Keyword(name) == Some(w) ==> KeywordName(w) == name
  {
  }

  function KeywordToken(t: Token): (r: Option<FontWeightSpec>) {
    if t.Ident? then Keyword(t.name) else None
  }

  const OutOfRangeError: ParseError := Custom(BadParse("parse error"))

  /** The keywords are tried first, then an integer from the table. */
  function ParseAt(tokens: seq<Token>, pos: nat): (r: Parsed<FontWeightSpec>)
    ensures r.Parsed? <==>
              pos < |tokens| &&
              (KeywordToken(tokens[pos]).Some? ||
               (tokens[pos].Integer? && WeightOfInteger(tokens[pos].intValue).Some?))
    ensures r.Parsed? ==> r.next == pos + 1
    ensures r.Parsed? && IsNumeric(r.value) ==> tokens[pos] == Integer(WeightNumber(r.value))
    ensures r.Parsed? && !IsNumeric(r.value) ==> tokens[pos] == Ident(KeywordName(r.value))
  {
    match ExpectAt(tokens, pos, KeywordToken)
    case Parsed(w, n) => Parsed(w, n)
    case Failed(_) =>
      match ExpectAt(tokens, pos, IntegerValue)
      case Failed(e) => Failed(e)
      case Parsed(i, n) =>
        match WeightOfInteger(i)
        case Some(w) => Parsed(w, n)
        case None => Failed(OutOfRangeError)
  }

  method Parse(p: Cursor) returns (r: Result<FontWeightSpec>)
    requires p.Valid()
    modifies p
    ensures p.Valid()
    ensures Agrees(ParseAt(p.tokens, old(p.pos)), r, p.pos)
  {
    var start := p.pos;
    var keyword := p.Expect(KeywordToken);
    if keyword.Ok? {
      return keyword;
    }
    p.pos := start;
    var i := p.Expect(IntegerValue);
    if i.Err? {
      return Err(i.error);
    }
    match WeightOfInteger(i.value) {
      case Some(w) => r := Ok(w);
      case None => r := Err(OutOfRangeError);
    }
  }

  /** An integer token parses exactly when it is one of the nine weights,
      and then to the weight it names; any other integer is a custom
      error, not an unexpected token. */
  lemma IntegerWeights(tokens: seq<Token>, pos: nat, i: int)
    requires pos < |tokens| && tokens[pos] == Integer(i)
    ensures ParseAt(tokens, pos).Parsed? <==> 100 <= i <= 900 && i % 100 == 0
    ensures ParseAt(tokens, pos).Parsed? ==> WeightNumber(ParseAt(tokens, pos).value) == i
    ensures ParseAt(tokens, pos).Failed? ==> ParseAt(tokens, pos).error == OutOfRangeError
  {
  }

  /** "normal", "bold" and "100" parse; "", "strange", "314" and "3.14"
      do not. */
  lemma Examples()
    ensures ParseAt([Ident("normal")], 0) == Parsed(Normal, 1)
    ensures ParseAt([Ident("bold")], 0) == Parsed(Bold, 1)
    ensures ParseAt([Integer(100)], 0) == Parsed(W100, 1)
    ensures ParseAt([], 0) == Failed(EndOfInput)
    ensures ParseAt([Ident("strange")], 0) == Failed(UnexpectedToken(Ident("strange")))
    ensures ParseAt([Integer(314)], 0) == Failed(OutOfRangeError)
    ensures ParseAt([Number(3.14)], 0) == Failed(UnexpectedToken(Number(3.14)))
  {
  }
}
