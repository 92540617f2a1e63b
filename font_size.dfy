/** The font-size property (CSS 2, chapter 15): its specified values, the
    cascade step that resolves them against the parent's font size, and
    its parser. */
module FontSize {
  import opened Lengths
  import opened CssParser

  datatype FontSizeSpec =
    | Smaller
    | Larger
    | XXSmall
    | XSmall
    | Small
    | Medium
    | Large
    | XLarge
    | XXLarge
    | Value(size: Length)

  /** The parent's computed values; only the font size is read here, and
      after the cascade it always holds the `Value` variant. */
  datatype ComputedValues = ComputedValues(fontSize: FontSizeSpec)

  /** The length a `Value` carries; any other variant is a caller error. */
  function ValueOf(s: FontSizeSpec): (l: Length)
    requires s.Value?
    ensures Value(l) == s
  {
    s.size
  }

  predicate IsAbsoluteKeyword(s: FontSizeSpec) {
    s.XXSmall? || s.XSmall? || s.Small? || s.Medium? || s.Large? || s.XLarge? || s.XXLarge?
  }

  /** How many steps of 1.2 an absolute-size keyword lies from `Medium`. */
  function AbsoluteStep(s: FontSizeSpec): (p: int)
    requires IsAbsoluteKeyword(s)
  {
    match s
    case XXSmall => -3
    case XSmall => -2
    case Small => -1
    case Medium => 0
    case Large => 1
    case XLarge => 2
    case XXLarge => 3
  }

  /** 1.2 raised to the integer power `p`, exactly. */
  function Pow12(p: int): (r: real)
    ensures r > 0.0
    decreases if p < 0 then -p else p
  {
    if p == 0 then 1.0
    else if p > 0 then 1.2 * Pow12(p - 1)
    else Pow12(p + 1) / 1.2
  }

  /** 12 points scaled by 1.2 to the power `p`, in inches. */
  function PointsToInches(p: int): (inches: real) {
    12.0 * Pow12(p) / PointsPerInch
  }

  /** Resolves a specified font size against the parent's computed one.
      The result is always a `Value`: no keyword survives. */
  function Compute(s: FontSizeSpec, v: ComputedValues): (r: FontSizeSpec)
    requires v.fontSize.Value?
    ensures r.Value?
    ensures IsAbsoluteKeyword(s) ==> r.size.unit == In
    ensures s.Smaller? || s.Larger? || (s.Value? && s.size.unit == Percent) ==>
              r.size.unit == v.fontSize.size.unit
    ensures s.Value? && s.size.unit != Percent ==> r == s
  {
    var size := ValueOf(v.fontSize);
    var newSize :=
      match s
      case Smaller => Length(size.length / 1.2, size.unit)
      case Larger => Length(size.length * 1.2, size.unit)
      case XXSmall => Length(PointsToInches(-3), In)
      case XSmall => Length(PointsToInches(-2), In)
      case Small => Length(PointsToInches(-1), In)
      case Medium => Length(PointsToInches(0), In)
      case Large => Length(PointsToInches(1), In)
      case XLarge => Length(PointsToInches(2), In)
      case XXLarge => Length(PointsToInches(3), In)
      case Value(l) =>
        if l.unit == Percent then Length(size.length * l.length, size.unit) else l;
    Value(newSize)
  }

  /** `Smaller` divides and `Larger` multiplies the inherited size by 1.2,
      keeping the inherited unit. */
  lemma SmallerLargerScaleInherited(v: ComputedValues)
    requires v.fontSize.Value?
    ensures Compute(Smaller, v).size.length * 1.2 == v.fontSize.size.length
    ensures Compute(Larger, v).size.length == v.fontSize.size.length * 1.2
    ensures Compute(Smaller, v).size.unit == Compute(Larger, v).size.unit == v.fontSize.size.unit
  {
  }

  /** Stepping up with `Larger` and back down with `Smaller` returns the
      size one started from, and the other way round. */
  lemma SmallerUndoesLarger(v: ComputedValues)
    requires v.fontSize.Value?
    ensures Compute(Smaller, ComputedValues(Compute(Larger, v))) == v.fontSize
    ensures Compute(Larger, ComputedValues(Compute(Smaller, v))) == v.fontSize
  {
  }

  /** A percentage of 120% is the same as `Larger`, and 100% keeps the
      inherited size. */
  lemma PercentAgreesWithLarger(v: ComputedValues)
    requires v.fontSize.Value?
    ensures Compute(Value(Length(1.2, Percent)), v) == Compute(Larger, v)
    ensures Compute(Value(Length(1.0, Percent)), v) == v.fontSize
  {
  }

  /** A percentage scales the magnitude of the inherited size. */
  lemma PercentScalesInherited(f: real, v: ComputedValues)
    requires v.fontSize.Value?
    ensures Compute(Value(Length(f, Percent)), v).size
            == Length(v.fontSize.size.length * f, v.fontSize.size.unit)
  {
  }

  /** An absolute-size keyword does not depend on the inherited size. */
  lemma AbsoluteSizeIgnoresInherited(s: FontSizeSpec, v: ComputedValues, w: ComputedValues)
    requires IsAbsoluteKeyword(s) && v.fontSize.Value? && w.fontSize.Value?
    ensures Compute(s, v) == Compute(s, w) == Value(Length(PointsToInches(AbsoluteStep(s)), In))
  {
  }

  /** `Medium` is 12pt, that is one sixth of an inch. */
  lemma MediumIsTwelvePoints(v: ComputedValues)
    requires v.fontSize.Value?
    ensures Compute(Medium, v) == Value(Length(12.0 / PointsPerInch, In))
    ensures Compute(Medium, v) == Value(Length(1.0 / 6.0, In))
  {
  }

  lemma Pow12Step(p: int)
    ensures Pow12(p + 1) == 1.2 * Pow12(p)
  {
  }

  lemma {:induction false} Pow12Increasing(p: int, q: int)
    requires p < q
    ensures Pow12(p) < Pow12(q)
    decreases q - p
  {
    Pow12Step(q - 1);
    if p < q - 1 {
      Pow12Increasing(p, q - 1);
    }
  }

  /** The seven absolute sizes strictly increase from `XXSmall` to
      `XXLarge`. */
  lemma AbsoluteSizesIncrease(s: FontSizeSpec, t: FontSizeSpec, v: ComputedValues)
    requires IsAbsoluteKeyword(s) && IsAbsoluteKeyword(t) && v.fontSize.Value?
    requires AbsoluteStep(s) < AbsoluteStep(t)
    ensures Compute(s, v).size.length < Compute(t, v).size.length
  {
    Pow12Increasing(AbsoluteStep(s), AbsoluteStep(t));
  }

  /** Neighbouring absolute sizes differ by a factor of exactly 1.2. */
  lemma AbsoluteSizesRatio(s: FontSizeSpec, t: FontSizeSpec, v: ComputedValues)
    requires IsAbsoluteKeyword(s) && IsAbsoluteKeyword(t) && v.fontSize.Value?
    requires AbsoluteStep(t) == AbsoluteStep(s) + 1
    ensures Compute(t, v).size.length == Compute(s, v).size.length * 1.2
  {
    Pow12Step(AbsoluteStep(s));
  }

  /** Computing an already computed size changes nothing unless it is a
      percentage. */
  lemma ComputeIdempotent(s: FontSizeSpec, v: ComputedValues)
    requires v.fontSize.Value?
    requires Compute(s, v).size.unit != Percent
    ensures Compute(Compute(s, v), v) == Compute(s, v)
  {
  }

  // ----- Parsing -----

  /** The keyword table, matched exactly. */
  function Keyword(name: string): (r: Option<FontSizeSpec>)
    ensures r.Some? ==> !r.value.Value?
  {
    if name == "smaller" then Some(Smaller)
    else if name == "larger" then Some(Larger)
    else if name == "xx-small" then Some(XXSmall)
    else if name == "x-small" then Some(XSmall)
    else if name == "small" then Some(Small)
    else if name == "medium" then Some(Medium)
    else if name == "large" then Some(Large)
    else if name == "x-large" then Some(XLarge)
    else if name == "xx-large" then Some(XXLarge)
    else None
  }

  /** The identifier that names a keyword variant. */
  function KeywordName(s: FontSizeSpec): (name: string)
    requires !s.Value?
  {
    match s
    case Smaller => "smaller"
    case Larger => "larger"
    case XXSmall => "xx-small"
    case XSmall => "x-small"
    case Small => "small"
    case Medium => "medium"
    case Large => "large"
    case XLarge => "x-large"
    case XXLarge => "xx-large"
  }

  /** Every keyword variant has exactly one name in the table. */
  lemma KeywordTableRoundTrip(s: FontSizeSpec, name: string)
    ensures !s.Value? ==> Keyword(KeywordName(s)) == Some(s)
    ensures Keyword(name) == Some(s) ==> KeywordName(s) == name
  {
  }

  function KeywordToken(t: Token): (r: Option<FontSizeSpec>) {
    if t.Ident? then Keyword(t.name) else None
  }

  /** A length is tried first; otherwise the token must be a keyword. */
  function ParseAt(lp: LengthParser, tokens: seq<Token>, pos: nat): (r: Parsed<FontSizeSpec>)
    ensures r.Parsed? <==> pos < |tokens| && (lp(tokens[pos]).Some? || KeywordToken(tokens[pos]).Some?)
    ensures r.Parsed? ==> r.next == pos + 1
    ensures r.Parsed? && r.value.Value? ==> lp(tokens[pos]) == Some(r.value.size)
    ensures r.Parsed? && !r.value.Value? ==> lp(tokens[pos]).None? && r.value == Keyword(tokens[pos].name).value
    ensures r.Failed? && pos < |tokens| ==> r.error == UnexpectedToken(tokens[pos])
    ensures pos >= |tokens| ==> r == Failed(EndOfInput)
  {
    match ExpectAt(tokens, pos, lp)
    case Parsed(l, n) => Parsed(Value(l), n)
    case Failed(_) => ExpectAt(tokens, pos, KeywordToken)
  }

  method Parse(p: Cursor, lp: LengthParser) returns (r: Result<FontSizeSpec>)
    requires p.Valid()
    modifies p
    ensures p.Valid()
    ensures Agrees(ParseAt(lp, p.tokens, old(p.pos)), r, p.pos)
  {
    var start := p.pos;
    var length := p.Expect(lp);
    if length.Ok? {
      return Ok(Value(length.value));
    }
    p.pos := start;
    r := p.Expect(KeywordToken);
  }

  /** An identifier outside the table, such as "furlong", is an error. */
  lemma UnknownIdentifierRejected(lp: LengthParser, name: string)
    requires lp(Ident(name)) == None && Keyword(name) == None
    ensures ParseAt(lp, [Ident(name)], 0) == Failed(UnexpectedToken(Ident(name)))
  {
  }

  lemma FurlongRejected(lp: LengthParser)
    requires lp(Ident("furlong")) == None
    ensures ParseAt(lp, [Ident("furlong")], 0).Failed?
  {
  }
}
