/** One font family name (CSS 2, chapter 15): a quoted string taken as it
    is, or a run of identifiers joined by single spaces. */
module FontFamily {
  import opened CssParser

  datatype SingleFontFamily = SingleFontFamily(name: string)

  const EmptyNameError: ParseError :=
    Custom(BadValue("empty string is not a valid font family name"))

  /** The names separated by exactly one space each. */
  function JoinWithSpaces(names: seq<string>): (joined: string) {
    if |names| == 0 then ""
    else if |names| == 1 then names[0]
    else names[0] + " " + JoinWithSpaces(names[1..])
  }

  /** Appending a name appends one space and that name. */
  lemma {:induction false} JoinSnoc(names: seq<string>, last: string)
    requires |names| > 0
    ensures JoinWithSpaces(names + [last]) == JoinWithSpaces(names) + " " + last
    decreases |names|
  {
    if |names| == 1 {
      assert names + [last] == [names[0], last];
    } else {
      assert (names + [last])[1..] == names[1..] + [last];
      JoinSnoc(names[1..], last);
    }
  }

  /** The identifier names of a run of identifier tokens. */
  function Names(ts: seq<Token>): (r: seq<string>)
    requires forall k | 0 <= k < |ts| :: ts[k].Ident?
    ensures |r| == |ts|
    ensures forall k | 0 <= k < |ts| :: r[k] == ts[k].name
  {
    if ts == [] then [] else Names(ts[..|ts| - 1]) + [ts[|ts| - 1].name]
  }

  lemma {:induction false} NamesCons(t: Token, ts: seq<Token>)
    requires t.Ident? && forall k | 0 <= k < |ts| :: ts[k].Ident?
    ensures Names([t] + ts) == [t.name] + Names(ts)
    decreases |ts|
  {
    if ts != [] {
      var init := ts[..|ts| - 1];
      assert ([t] + ts)[..|ts|] == [t] + init;
      NamesCons(t, init);
    }
  }

  lemma NamesSnoc(ts: seq<Token>, t: Token)
    requires t.Ident? && forall k | 0 <= k < |ts| :: ts[k].Ident?
    ensures Names(ts + [t]) == Names(ts) + [t.name]
  {
    assert (ts + [t])[..|ts|] == ts;
  }

  /** One more identifier adds one space and its name to the joined name. */
  lemma JoinStep(first: string, tokens: seq<Token>, a: nat, b: nat)
    requires a <= b < |tokens|
    requires forall k | a <= k <= b :: tokens[k].Ident?
    ensures JoinWithSpaces([first] + Names(tokens[a..b + 1]))
            == JoinWithSpaces([first] + Names(tokens[a..b])) + " " + tokens[b].name
  {
    var run := tokens[a..b];
    assert tokens[a..b + 1] == run + [tokens[b]];
    NamesSnoc(run, tokens[b]);
    JoinSnoc([first] + Names(run), tokens[b].name);
    assert [first] + Names(run) + [tokens[b].name] == [first] + (Names(run) + [tokens[b].name]);
  }

  /** Where the run of identifier tokens starting at `i` ends. */
  function IdentRunEnd(tokens: seq<Token>, i: nat): (e: nat)
    requires i <= |tokens|
    ensures i <= e <= |tokens|
    ensures forall k | i <= k < e :: tokens[k].Ident?
    ensures e == |tokens| || !tokens[e].Ident?
    decreases |tokens| - i
  {
    if i < |tokens| && tokens[i].Ident? then IdentRunEnd(tokens, i + 1) else i
  }

  /** The run of identifiers starting at `i` ends at the first token that
      is not an identifier. */
  lemma {:induction false} RunEndUnique(tokens: seq<Token>, i: nat, e: nat)
    requires i <= e <= |tokens|
    requires forall k | i <= k < e :: tokens[k].Ident?
    requires e == |tokens| || !tokens[e].Ident?
    ensures IdentRunEnd(tokens, i) == e
    decreases e - i
  {
    if i < e {
      RunEndUnique(tokens, i + 1, e);
    }
  }

  /** A quoted string wins; otherwise at least one identifier is needed,
      and every identifier right after it joins the name. */
  function ParseAt(tokens: seq<Token>, pos: nat): (r: Parsed<SingleFontFamily>)
    ensures r.Parsed? <==>
              pos < |tokens| &&
              ((tokens[pos].QuotedString? && tokens[pos].text != "") || tokens[pos].Ident?)
    ensures r.Parsed? ==> pos < r.next <= |tokens|
    ensures r.Failed? && pos < |tokens| && tokens[pos] != QuotedString("") ==>
              r.error == UnexpectedToken(tokens[pos])
    ensures pos >= |tokens| ==> r == Failed(EndOfInput)
  {
    match ExpectAt(tokens, pos, StringText)
    case Parsed(s, n) =>
      if s == "" then Failed(EmptyNameError) else Parsed(SingleFontFamily(s), n)
    case Failed(_) =>
      match ExpectAt(tokens, pos, IdentName)
      case Failed(e) => Failed(e)
      case Parsed(first, n) =>
        var end := IdentRunEnd(tokens, n);
        Parsed(SingleFontFamily(JoinWithSpaces([first] + Names(tokens[n..end]))), end)
  }

  /** The `while let` loop: appends a space and each further identifier
      to `first`, and stops, rewound, at the first token that is not one. */
  method AppendIdentifiers(p: Cursor, first: string) returns (value: string)
    requires p.Valid()
    modifies p
    ensures p.Valid() && old(p.pos) <= p.pos
    ensures p.pos == IdentRunEnd(p.tokens, old(p.pos))
    ensures value == JoinWithSpaces([first] + Names(p.tokens[old(p.pos)..p.pos]))
  {
    value := first;
    while true
      invariant p.Valid() && old(p.pos) <= p.pos
      invariant forall k | old(p.pos) <= k < p.pos :: p.tokens[k].Ident?
      invariant value == JoinWithSpaces([first] + Names(p.tokens[old(p.pos)..p.pos]))
      decreases |p.tokens| - p.pos
    {
      var save := p.pos;
      var next := p.Expect(IdentName);
      if next.Err? {
        p.pos := save;
        break;
      }
      JoinStep(first, p.tokens, old(p.pos), save);
      value := value + " " + next.value;
    }
    RunEndUnique(p.tokens, old(p.pos), p.pos);
  }

  method Parse(p: Cursor) returns (r: Result<SingleFontFamily>)
    requires p.Valid()
    modifies p
    ensures p.Valid()
    ensures Agrees(ParseAt(p.tokens, old(p.pos)), r, p.pos)
  {
    var start := p.pos;
    var quoted := p.Expect(StringText);
    if quoted.Ok? {
      if quoted.value == "" {
        return Err(EmptyNameError);
      }
      return Ok(SingleFontFamily(quoted.value));
    }
    p.pos := start;
    var first := p.Expect(IdentName);
    if first.Err? {
      return Err(first.error);
    }
    var value := AppendIdentifiers(p, first.value);
    r := Ok(SingleFontFamily(value));
  }

  /** A non-empty quoted string is the name verbatim; an empty one is a
      value error. */
  lemma QuotedNameVerbatim(tokens: seq<Token>, pos: nat, text: string)
    requires pos < |tokens| && tokens[pos] == QuotedString(text)
    ensures text != "" ==> ParseAt(tokens, pos) == Parsed(SingleFontFamily(text), pos + 1)
    ensures text == "" ==> ParseAt(tokens, pos) == Failed(EmptyNameError)
  {
  }

  /** An unquoted name is all the consecutive identifiers from `pos` on,
      joined by single spaces, and parsing stops right after them. */
  lemma IdentifierRunJoined(tokens: seq<Token>, pos: nat)
    requires pos < |tokens| && tokens[pos].Ident?
    ensures var end := IdentRunEnd(tokens, pos);
            ParseAt(tokens, pos) == Parsed(SingleFontFamily(JoinWithSpaces(Names(tokens[pos..end]))), end)
  {
    var t := tokens[pos];
    assert StringText(t) == None && IdentName(t) == Some(t.name);
    assert ExpectAt(tokens, pos, StringText).Failed?;
    assert ExpectAt(tokens, pos, IdentName) == Parsed(t.name, pos + 1);
    var end := IdentRunEnd(tokens, pos);
    assert IdentRunEnd(tokens, pos + 1) == end;
    assert tokens[pos..end] == [t] + tokens[pos + 1..end];
    NamesCons(t, tokens[pos + 1..end]);
  }

  /** The position of the first space in `s`. */
  function FirstSpace(s: string): (i: nat)
    requires ' ' in s
    ensures i < |s| && s[i] == ' '
    ensures forall k | 0 <= k < i :: s[k] != ' '
  {
    if s[0] == ' ' then 0 else 1 + FirstSpace(s[1..])
  }

  /** Cuts a string at every space. */
  function SplitAtSpaces(s: string): (parts: seq<string>)
    ensures |parts| > 0
    decreases |s|
  {
    if ' ' in s then
      var i := FirstSpace(s);
      [s[..i]] + SplitAtSpaces(s[i + 1..])
    else
      [s]
  }

  /** Joining with single spaces loses nothing when no name holds a
      space: cutting at the spaces gives the names back. */
  lemma {:induction false} SplitJoin(names: seq<string>)
    requires |names| > 0
    requires forall k | 0 <= k < |names| :: ' ' !in names[k]
    ensures SplitAtSpaces(JoinWithSpaces(names)) == names
    decreases |names|
  {
    if |names| > 1 {
      var head := names[0];
      var rest := JoinWithSpaces(names[1..]);
      var s := JoinWithSpaces(names);
      assert s == head + " " + rest;
      assert s[|head|] == ' ';
      var i := FirstSpace(s);
      assert forall k | 0 <= k < |head| :: s[k] == head[k];
      assert i == |head|;
      assert s[..i] == head;
      assert s[i + 1..] == rest;
      SplitJoin(names[1..]);
    }
  }

  /** A family name read from plain identifiers splits back into those
      identifiers, provided none of them holds an escaped space. */
  lemma IdentifierNameSplits(tokens: seq<Token>, pos: nat)
    requires pos < |tokens| && tokens[pos].Ident?
    requires forall k | pos <= k < IdentRunEnd(tokens, pos) :: ' ' !in tokens[k].name
    ensures var end := IdentRunEnd(tokens, pos);
            SplitAtSpaces(ParseAt(tokens, pos).value.name) == Names(tokens[pos..end])
  {
    IdentifierRunJoined(tokens, pos);
    var end := IdentRunEnd(tokens, pos);
    var run := tokens[pos..end];
    var names := Names(run);
    assert forall k | 0 <= k < |names| :: names[k] == tokens[pos + k].name;
    SplitJoin(names);
    assert ParseAt(tokens, pos).value.name == JoinWithSpaces(names);
  }

  /** "'Hello world'", "\"Hello world\"" and "  Hello  world  " all give
      "Hello world", "Plonk" gives "Plonk"; "", "''" and "42" fail. */
  lemma Examples()
    ensures ParseAt([QuotedString("Hello world")], 0) == Parsed(SingleFontFamily("Hello world"), 1)
    ensures ParseAt([Ident("Hello"), Ident("world")], 0) == Parsed(SingleFontFamily("Hello world"), 2)
    ensures ParseAt([Ident("Plonk")], 0) == Parsed(SingleFontFamily("Plonk"), 1)
    ensures ParseAt([], 0) == Failed(EndOfInput)
    ensures ParseAt([QuotedString("")], 0) == Failed(EmptyNameError)
    ensures ParseAt([Integer(42)], 0) == Failed(UnexpectedToken(Integer(42)))
  {
    var hw := [Ident("Hello"), Ident("world")];
    assert IdentRunEnd(hw, 1) == 2;
    assert Names(hw[1..2]) == ["world"];
    assert JoinWithSpaces(["Hello", "world"]) == "Hello" + " " + "world" == "Hello world";
    assert ["Hello"] + ["world"] == ["Hello", "world"];
    assert ParseAt([Ident("Plonk")], 0).value.name == JoinWithSpaces(["Plonk"] + Names([]));
  }
}
