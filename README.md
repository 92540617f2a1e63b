# librsvg font properties: a Dafny model

This project models the CSS font-property value layer of librsvg's
`rsvg_internals/src/font_props.rs`. It covers four properties:

- **font-size** (`FontSizeSpec`): nine keywords or a length. Its cascade step
  (`compute`) resolves the keyword or length against the parent's computed font
  size and always returns a length.
- **font-weight** (`FontWeightSpec`): four keywords or one of the nine weights
  100 through 900.
- **letter-spacing** (`LetterSpacingSpec`): `normal` or a length. Its cascade
  step turns `normal` into zero pixels.
- **font-family** (`SingleFontFamily`): a quoted string, or consecutive
  identifiers joined by single spaces.

Files:

- `lengths.dfy`: the `Length` value, a magnitude and a unit.
- `css_parser.dfy`: the token stream the CSS tokenizer produces, and the parser
  cursor. The cursor is a `Cursor` class. Its position is a mutable field that a
  failed `try_parse` rewinds.
- `font_size.dfy`, `font_weight.dfy`, `letter_spacing.dfy`, `font_family.dfy`:
  one module per property.

Each parser appears twice:

- a pure function `ParseAt(tokens, pos)`. It states what the parser does to the
  tokens from `pos` on: the value, and the position after what it consumed, or
  the error.
- a method `Parse(p: Cursor)`. It advances the cursor step by step as the Rust
  code does. It is proved to agree with `ParseAt`.

The font-family method `AppendIdentifiers` keeps the Rust loop that appends a space and the next
identifier. Its loop invariant ties the accumulated string to
`JoinWithSpaces` of the identifiers read so far.

Modelling choices:

- Arithmetic is done on `real`. `1.2f64.powf(p)` becomes the exact power
  `Pow12(p)`.
- `POINTS_PER_INCH` is 72.
- The length parser (`Length::parse_to_parse_error`) lives in `length.rs`, which
  is not part of this model. It is a parameter `lp: Token -> Option<Length>`
  that reads one token.
- Keyword tables match identifiers exactly.

Two details of the code:

- An integer weight outside the table is reported as the custom error
  `ValueErrorKind::parse_error("parse error")` (font_props.rs:132).
- Keyword matching goes through the `parse_identifiers!` macro, which may be
  case-insensitive. That macro is not part of this model, so exact matching is
  modelled and nothing is claimed about case.

## Model

| member | source | states |
|---|---|---|
| `CssParser.ExpectAt` | rsvg_internals/src/font_props.rs:203-207 | reading one token succeeds exactly when a token is left and is accepted, consumes exactly that token, and fails with end of input or with the offending token |
| `CssParser.Cursor.Expect` | rsvg_internals/src/font_props.rs:203-207 | the cursor's read of one token returns what `ExpectAt` specifies and leaves the cursor just after the token on success |
| `FontSize.ValueOf` | rsvg_internals/src/font_props.rs:27-32 | `value()` is defined only on the `Value` variant and returns the length that rebuilds it |
| `FontSize.Pow12` | rsvg_internals/src/font_props.rs:35 | every integer power of 1.2 is positive |
| `FontSize.Compute` | rsvg_internals/src/font_props.rs:34-56 | compute is total on a parent whose size is a `Value` and always returns `Value`; absolute keywords give inches; `Smaller`, `Larger` and percentages keep the inherited unit; a non-percent length passes through unchanged |
| `FontSize.SmallerLargerScaleInherited` | rsvg_internals/src/font_props.rs:37-41 | `Smaller` is the inherited magnitude divided by 1.2 and `Larger` that magnitude times 1.2, both in the inherited unit |
| `FontSize.SmallerUndoesLarger` | rsvg_internals/src/font_props.rs:40-41 | computing `Larger` and then `Smaller` on the result (or the reverse) gives back the inherited size |
| `FontSize.PercentAgreesWithLarger` | rsvg_internals/src/font_props.rs:41-51 | a percentage of 1.2 computes to the same value as `Larger`, and a percentage of 1.0 to the inherited size |
| `FontSize.PercentScalesInherited` | rsvg_internals/src/font_props.rs:49-51 | a percentage length computes to the inherited magnitude times the fraction, in the inherited unit |
| `FontSize.AbsoluteSizeIgnoresInherited` | rsvg_internals/src/font_props.rs:42-48 | an absolute-size keyword computes to 12pt times 1.2 to the power of its step, in inches, whatever the inherited size |
| `FontSize.MediumIsTwelvePoints` | rsvg_internals/src/font_props.rs:35-45 | `Medium` computes to 12/72 inch, that is 12 points |
| `FontSize.Pow12Increasing` | rsvg_internals/src/font_props.rs:35 | powers of 1.2 strictly increase with the exponent |
| `FontSize.AbsoluteSizesIncrease` | rsvg_internals/src/font_props.rs:42-48 | the seven absolute sizes strictly increase from `XXSmall` to `XXLarge` |
| `FontSize.AbsoluteSizesRatio` | rsvg_internals/src/font_props.rs:35-48 | neighbouring absolute sizes differ by a factor of exactly 1.2 |
| `FontSize.ComputeIdempotent` | rsvg_internals/src/font_props.rs:49-55 | computing an already computed non-percent size changes nothing |
| `FontSize.KeywordTableRoundTrip` | rsvg_internals/src/font_props.rs:71-82 | each keyword variant is named by exactly one identifier of the table, and that identifier maps back to it |
| `FontSize.ParseAt` | rsvg_internals/src/font_props.rs:63-84 | parsing succeeds exactly when the next token is a length or a keyword; it consumes one token; a length takes priority, and a keyword result means the token was not a length; a failure reports the token itself as unexpected, or end of input |
| `FontSize.Parse` | rsvg_internals/src/font_props.rs:63-84 | the cursor-based parser, with its rewind after the failed length attempt, returns what `ParseAt` specifies |
| `FontSize.UnknownIdentifierRejected` | rsvg_internals/src/font_props.rs:70-83 | an identifier that is neither a length nor in the table fails with that token as the unexpected one |
| `FontSize.FurlongRejected` | rsvg_internals/src/font_props.rs:220-223 | "furlong" is not a font size |
| `FontWeight.WeightOfInteger` | rsvg_internals/src/font_props.rs:122-133 | an integer maps to a weight exactly when it is a multiple of 100 from 100 to 900, and then to the weight of that number |
| `FontWeight.WeightNumberRoundTrip` | rsvg_internals/src/font_props.rs:122-131 | every numeric weight is reached from its own number |
| `FontWeight.KeywordTableRoundTrip` | rsvg_internals/src/font_props.rs:109-115 | each of the four keywords is named by exactly one identifier of the table, and that identifier maps back to it |
| `FontWeight.ParseAt` | rsvg_internals/src/font_props.rs:105-135 | parsing succeeds exactly when the next token is a keyword, or an integer from the table; a numeric result came from the integer token naming it and a keyword result from its identifier; one token is consumed |
| `FontWeight.Parse` | rsvg_internals/src/font_props.rs:105-135 | the cursor-based parser, with its rewind after the failed keyword attempt, returns what `ParseAt` specifies |
| `FontWeight.IntegerWeights` | rsvg_internals/src/font_props.rs:117-133 | an integer token parses exactly when it is one of 100, 200, …, 900, to the weight of that number, and otherwise gives the custom "parse error" |
| `FontWeight.Examples` | rsvg_internals/src/font_props.rs:225-247 | "normal", "bold" and "100" parse to `Normal`, `Bold` and `W100`; "", "strange", "314" and "3.14" fail |
| `LetterSpacing.ValueOf` | rsvg_internals/src/font_props.rs:146-151 | `value()` is defined only on the `Value` variant and returns the length that rebuilds it |
| `LetterSpacing.Compute` | rsvg_internals/src/font_props.rs:153-160 | compute always returns `Value`; `Normal` becomes zero pixels and a length passes through unchanged |
| `LetterSpacing.ComputeIdempotent` | rsvg_internals/src/font_props.rs:153-160 | computing twice is the same as computing once |
| `LetterSpacing.ParseAt` | rsvg_internals/src/font_props.rs:167-181 | parsing succeeds exactly when the next token is a length or the identifier `normal`; a length takes priority; one token is consumed; a failure reports the token itself as unexpected, or end of input |
| `LetterSpacing.Parse` | rsvg_internals/src/font_props.rs:167-181 | the cursor-based parser returns what `ParseAt` specifies |
| `LetterSpacing.Examples` | rsvg_internals/src/font_props.rs:249-287 | "normal" parses to `Normal` and computes to 0px, "10em" parses and computes to 10em, and "furlong" fails |
| `FontFamily.JoinSnoc` | rsvg_internals/src/font_props.rs:207-210 | appending a name to the joined names appends exactly one space and that name |
| `FontFamily.NamesCons` | rsvg_internals/src/font_props.rs:203-210 | the names of an identifier run are the first identifier's name followed by the names of the rest |
| `FontFamily.JoinStep` | rsvg_internals/src/font_props.rs:207-210 | each pass of the loop extends the accumulated name by one space and the identifier it read |
| `FontFamily.IdentRunEnd` | rsvg_internals/src/font_props.rs:207-210 | the loop stops at the first token that is not an identifier, or at the end of input |
| `FontFamily.RunEndUnique` | rsvg_internals/src/font_props.rs:207-210 | any position preceded only by identifiers and followed by a non-identifier or the end is where the run ends |
| `FontFamily.ParseAt` | rsvg_internals/src/font_props.rs:187-213 | parsing succeeds exactly when the next token is a non-empty quoted string or an identifier, and consumes at least one token; apart from the empty quoted string, a failure reports the token itself as unexpected, or end of input |
| `FontFamily.AppendIdentifiers` | rsvg_internals/src/font_props.rs:205-210 | the loop appends a space and each further identifier, stops rewound at the end of the identifier run, and leaves the accumulated name equal to all the names read joined by single spaces |
| `FontFamily.Parse` | rsvg_internals/src/font_props.rs:187-213 | the cursor-based parser returns what `ParseAt` specifies |
| `FontFamily.QuotedNameVerbatim` | rsvg_internals/src/font_props.rs:193-201 | a non-empty quoted string is the family name verbatim; an empty one is the value error "empty string is not a valid font family name" |
| `FontFamily.IdentifierRunJoined` | rsvg_internals/src/font_props.rs:203-212 | an unquoted name is every consecutive identifier from the start, joined by single spaces, and parsing stops right after them |
| `FontFamily.SplitJoin` | rsvg_internals/src/font_props.rs:207-210 | joining names without spaces by single spaces loses nothing: cutting at the spaces gives the names back |
| `FontFamily.IdentifierNameSplits` | rsvg_internals/src/font_props.rs:203-212 | the parsed name of an identifier run without spaces splits back into exactly those identifiers |
| `FontFamily.Examples` | rsvg_internals/src/font_props.rs:289-317 | "'Hello world'", "\"Hello world\"" and "  Hello  world  " give "Hello world", "Plonk" gives "Plonk"; "", "''" and "42" fail |

## Left out

- `FontSizeSpec::normalize` and `LetterSpacingSpec::normalize`: they delegate to `Length::normalize` and `ViewParams`. `length.rs` and `drawing_ctx.rs` are not part of this model, and nor is their unit conversion.
- The length parser: `length.rs` is not part of this model. Its parser is a parameter that reads one token, and lemmas that need its answer on a token say so in their `requires`.
- The orientation tag of `Length<Both>` and `Length<Horizontal>`: it affects only normalization.
- The CSS tokenizer: the text-to-token step is foreign code. The model works on the token sequence, with whitespace already removed. The unit-test lemmas state each test string as the tokens it produces.
- `parse_str_to_parse_error` and any check that the input is exhausted: they are not in `font_props.rs`.
- Case-insensitive keyword matching: the `parse_identifiers!` macro is not part of this model. Keywords are matched exactly.
- Source locations in errors: the model keeps the error kind and the offending token, not where the token was.
- The cursor position after a failed parse: it is left unspecified. Callers discard it, or `try_parse` rewinds it.
- IEEE floating-point rounding and `powf`: reals and exact powers of 1.2 are used instead.
- `rsvg_internals/src/clip_path.rs`: it is a thin layer over cairo and the external child painter, and neither is part of this model.
- `tests/dimensions.c`: an integration test that loads and renders files.
