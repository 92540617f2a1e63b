/** The letter-spacing property (CSS Text Module Level 3): `normal` or a
    length. */
module LetterSpacing {
  import opened Lengths
  import opened CssParser

  datatype LetterSpacingSpec = Normal | Value(spacing: Length)

  /** The length a `Value` carries; `Normal` is a caller error. */
  function ValueOf(s: LetterSpacingSpec): (l: Length)
    requires s.Value?
    ensures Value(l) == s
  {
    s.spacing
  }

  /** `Normal` resolves to zero pixels; a length stays as it is. No
      inherited value takes part. */
  function Compute(s: LetterSpacingSpec): (r: LetterSpacingSpec)
    ensures r.Value?
    ensures s.Value? ==> r == s
    ensures s.Normal? ==> r.spacing.length == 0.0 && r.spacing.unit == Px
  {
    var spacing :=
      match s
      case Normal => Length(0.0, Px)
      case Value(l) => l;
    Value(spacing)
  }

  lemma ComputeIdempotent(s: LetterSpacingSpec)
    ensures Compute(Compute(s)) == Compute(s)
  {
  }

  function KeywordToken(t: Token): (r: Option<LetterSpacingSpec>) {
    if t == Ident("normal") then Some(Normal) else None
  }

  /** A length is tried first; otherwise the token must be `normal`. */
  function ParseAt(lp: LengthParser, tokens: seq<Token>, pos: nat): (r: Parsed<LetterSpacingSpec>)
    ensures r.Parsed? <==> pos < |tokens| && (lp(tokens[pos]).Some? || tokens[pos] == Ident("normal"))
    ensures r.Parsed? ==> r.next == pos + 1
    ensures r.Parsed? && r.value.Value? ==> lp(tokens[pos]) == Some(r.value.spacing)
    ensures r.Parsed? && r.value.Normal? ==> lp(tokens[pos]).None?
    ensures r.Failed? && pos < |tokens| ==> r.error == UnexpectedToken(tokens[pos])
    ensures pos >= |tokens| ==> r == Failed(EndOfInput)
  {
    match ExpectAt(tokens, pos, lp)
    case Parsed(l, n) => Parsed(Value(l), n)
    case Failed(_) => ExpectAt(tokens, pos, KeywordToken)
  }

  method Parse(p: Cursor, lp: LengthParser) returns (r: Result<LetterSpacingSpec>)
    requires p.Valid()
    modifies p
    ensures p.Valid()
    ensures Agrees(ParseAt(lp, p.tokens, old(p.pos)), r, p.pos)
  {
    var start := p.pos;
    var length := p.Expect(lp);
    if length.Ok? {
      return Ok(Value(length.value));
    }
    p.pos := start;
    r := p.Expect(KeywordToken);
  }

  /** "normal" parses to `Normal` and computes to 0px; "10em" parses and
      computes to 10em; "furlong" is an error. The token texts are given
      to the length parser, which must reject identifiers and read "10em"
      as ten em. */
  lemma Examples(lp: LengthParser)
    requires lp(Ident("normal")) == None && lp(Ident("furlong")) == None
    requires lp(Dimension(10.0, "em")) == Some(Length(10.0, Em))
    ensures ParseAt(lp, [Ident("normal")], 0) == Parsed(Normal, 1)
    ensures Compute(ParseAt(lp, [Ident("normal")], 0).value) == Value(Length(0.0, Px))
    ensures ParseAt(lp, [Dimension(10.0, "em")], 0) == Parsed(Value(Length(10.0, Em)), 1)
    ensures Compute(ParseAt(lp, [Dimension(10.0, "em")], 0).value) == Value(Length(10.0, Em))
    ensures ParseAt(lp, [Ident("furlong")], 0) == Failed(UnexpectedToken(Ident("furlong")))
  {
  }
}
