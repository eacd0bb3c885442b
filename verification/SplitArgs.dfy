/** The tokenizer for JVM options (apps/runner/src/args.ts): quotes, backslash escapes, no shell. */
module SplitArgs {
  import opened Bytes
  import opened Text

  /** The tokenizer's locals between two characters. */
  datatype State = State(args: seq<string>, current: string, quote: Option<char>, escaped: bool)

  const START := State([], "", None, false)

  predicate IsQuote(c: char) { c == '"' || c == '\'' }

  function Next(s: State, c: char): State
  {
    if s.escaped then s.(current := s.current + [c], escaped := false)
    else if c == '\\' then s.(escaped := true)
    else if s.quote.Some? then
      if c == s.quote.value then s.(quote := None) else s.(current := s.current + [c])
    else if IsQuote(c) then s.(quote := Some(c))
    else if IsSpace(c) then
      if s.current != "" then s.(args := s.args + [s.current], current := "") else s
    else s.(current := s.current + [c])
  }

  function Scan(s: State, raw: string): (t: State)
    decreases |raw|
  {
    if raw == "" then s else Scan(Next(s, raw[0]), raw[1..])
  }

  /** The tokens a scan that ended here gives; None for a quote left open. */
  function Finish(s: State): Option<seq<string>>
  {
    var current := if s.escaped then s.current + "\\" else s.current;
    if s.quote.Some? then None
    else Some(if current != "" then s.args + [current] else s.args)
  }

  function Split(raw: string): Option<seq<string>> { Finish(Scan(START, raw)) }

  /** None for the unterminated-quote error. A missing field has no arguments. */
  method SplitArgs(raw: Option<string>) returns (args: Option<seq<string>>)
    ensures args == Split(if raw.Some? then raw.value else "")
  {
    if raw.None? || raw.value == "" { return Some([]); }
    var tokens: seq<string>, current, quote: Option<char>, escaped := [], "", None, false;
    for i := 0 to |raw.value|
      invariant Scan(State(tokens, current, quote, escaped), raw.value[i..]) == Scan(START, raw.value)
    {
      var c := raw.value[i];
      assert raw.value[i..][1..] == raw.value[i + 1..];
      if escaped {
        current, escaped := current + [c], false;
      } else if c == '\\' {
        escaped := true;
      } else if quote.Some? {
        if c == quote.value { quote := None; } else { current := current + [c]; }
      } else if c == '"' || c == '\'' {
        quote := Some(c);
      } else if IsSpace(c) {
        if current != "" { tokens, current := tokens + [current], ""; }
      } else {
        current := current + [c];
      }
    }
    if escaped { current := current + "\\"; }
    if quote.Some? { return None; }
    if current != "" { tokens := tokens + [current]; }
    args := Some(tokens);
  }

  lemma {:induction false} ScanJoin(s: State, a: string, b: string)
    ensures Scan(s, a + b) == Scan(Scan(s, a), b)
    decreases |a|
  {
    if a == "" {
      assert a + b == b;
    } else {
      assert (a + b)[1..] == a[1..] + b;
      ScanJoin(Next(s, a[0]), a[1..], b);
    }
  }

  lemma ScanOne(s: State, c: char)
    ensures Scan(s, [c]) == Next(s, c)
  {
    assert [c][1..] == "";
  }

  /** A backslash with nothing after it is a backslash: it reads as one that is escaped. */
  lemma TrailingBackslash(raw: string)
    requires !Scan(START, raw).escaped
    ensures Split(raw + "\\") == Split(raw + "\\\\")
  {
    var s := Scan(START, raw);
    ScanJoin(START, raw, "\\");
    ScanJoin(START, raw, "\\\\");
    ScanOne(s, '\\');
    assert ['\\', '\\'] == "\\\\";
    ScanEscape(s, '\\');
  }

  lemma ScanEscape(s: State, c: char)
    requires !s.escaped
    ensures Scan(s, ['\\', c]) == s.(current := s.current + [c])
  {
    assert ['\\', c][1..] == [c];
    ScanOne(Next(s, '\\'), c);
  }

  /** Tokens already found are never looked at again. */
  lemma {:induction false} ArgsPassive(before: seq<string>, s: State, raw: string)
    ensures Scan(s.(args := before + s.args), raw) == Scan(s, raw).(args := before + Scan(s, raw).args)
    decreases |raw|
  {
    if raw != "" {
      var t := Next(s, raw[0]);
      assert before + s.args + [s.current] == before + (s.args + [s.current]);
      assert Next(s.(args := before + s.args), raw[0]) == t.(args := before + t.args);
      ArgsPassive(before, t, raw[1..]);
    }
  }

  // ----- What a tokenizing promises -----

  lemma {:induction false} NoEmptyTokens(s: State, raw: string)
    requires "" !in s.args
    ensures "" !in Scan(s, raw).args
    decreases |raw|
  {
    if raw != "" { NoEmptyTokens(Next(s, raw[0]), raw[1..]); }
  }

  /** No token is ever empty, and the only refusal is a quote open at the end. */
  lemma SplitIs(raw: string)
    ensures Split(raw).None? <==> Scan(START, raw).quote.Some?
    ensures Split(raw).Some? ==> "" !in Split(raw).value
  {
    NoEmptyTokens(START, raw);
  }

  /** Text that ends outside quotes and escapes. */
  predicate Closed(raw: string)
  {
    Scan(START, raw).quote.None? && !Scan(START, raw).escaped
  }

  /** Two closed texts with white space between: the tokens of the one, then of the other. */
  lemma SplitConcat(a: string, space: char, b: string)
    requires Closed(a) && IsSpace(space)
    ensures Split(a + [space] + b) ==
            if Split(b).None? then None else Some(Split(a).value + Split(b).value)
  {
    var s := Scan(START, a);
    var found := Split(a).value;
    ScanJoin(START, a + [space], b);
    ScanJoin(START, a, [space]);
    assert Scan(s, [space]) == Next(s, space) == State(found, "", None, false) by {
      assert [space][1..] == "" && !IsQuote(space) && space != '\\';
    }
    ArgsPassive(found, START, b);
    assert found + [] == found;
    var t := Scan(START, b);
    assert Scan(START, a + [space] + b) == t.(args := found + t.args);
    if Split(b).Some? {
      var last := if t.escaped then t.current + "\\" else t.current;
      assert found + t.args + [last] == found + (t.args + [last]);
    }
  }

  // ----- Quoting -----

  /** A character inside quotes, as it is or after a backslash. */
  datatype Inner = Plain(c: char) | Escaped(c: char)

  /** One way to write a stretch of a token. */
  datatype Piece = Bare(c: char) | Backslashed(c: char) | Quoted(quote: char, inside: seq<Inner>)

  predicate InnerFits(i: Inner, quote: char) { i.Plain? ==> i.c != quote && i.c != '\\' }

  ghost predicate PieceFits(p: Piece)
  {
    match p
    case Bare(c) => c != '\\' && !IsQuote(c) && !IsSpace(c)
    case Backslashed(_) => true
    case Quoted(quote, inside) => IsQuote(quote) && forall i :: i in inside ==> InnerFits(i, quote)
  }

  function InnerText(inside: seq<Inner>): string
  {
    if inside == [] then ""
    else (if inside[0].Plain? then [inside[0].c] else ['\\', inside[0].c]) + InnerText(inside[1..])
  }

  function InnerValue(inside: seq<Inner>): string
  {
    if inside == [] then "" else [inside[0].c] + InnerValue(inside[1..])
  }

  function PieceText(p: Piece): string
  {
    match p
    case Bare(c) => [c]
    case Backslashed(c) => ['\\', c]
    case Quoted(quote, inside) => [quote] + InnerText(inside) + [quote]
  }

  function PieceValue(p: Piece): string
  {
    match p
    case Bare(c) => [c]
    case Backslashed(c) => [c]
    case Quoted(_, inside) => InnerValue(inside)
  }

  function TokenText(pieces: seq<Piece>): string
  {
    if pieces == [] then "" else PieceText(pieces[0]) + TokenText(pieces[1..])
  }

  function TokenValue(pieces: seq<Piece>): string
  {
    if pieces == [] then "" else PieceValue(pieces[0]) + TokenValue(pieces[1..])
  }

  lemma {:induction false} InnerScans(s: State, inside: seq<Inner>, quote: char)
    requires s.quote == Some(quote) && !s.escaped && forall i :: i in inside ==> InnerFits(i, quote)
    requires IsQuote(quote)
    ensures Scan(s, InnerText(inside)) == s.(current := s.current + InnerValue(inside))
    decreases |inside|
  {
    if inside == [] {
      assert s.current + "" == s.current;
    } else {
      var c := inside[0].c;
      var first := if inside[0].Plain? then [c] else ['\\', c];
      var t := s.(current := s.current + [c]);
      assert InnerFits(inside[0], quote);
      if inside[0].Plain? { ScanOne(s, c); } else { ScanEscape(s, c); }
      assert Scan(s, first) == t;
      ScanJoin(s, first, InnerText(inside[1..]));
      forall i | i in inside[1..] ensures InnerFits(i, quote) { assert i in inside; }
      InnerScans(t, inside[1..], quote);
      Associates(s.current, [c], InnerValue(inside[1..]));
    }
  }

  lemma PieceScans(s: State, p: Piece)
    requires s.quote.None? && !s.escaped && PieceFits(p)
    ensures Scan(s, PieceText(p)) == s.(current := s.current + PieceValue(p))
  {
    match p
    case Bare(c) => ScanOne(s, c);
    case Backslashed(c) => ScanEscape(s, c);
    case Quoted(quote, inside) =>
      ScanJoin(s, [quote] + InnerText(inside), [quote]);
      ScanJoin(s, [quote], InnerText(inside));
      ScanOne(s, quote);
      InnerScans(s.(quote := Some(quote)), inside, quote);
      ScanOne(s.(quote := Some(quote), current := s.current + InnerValue(inside)), quote);
  }

  lemma {:induction false} TokenScans(s: State, pieces: seq<Piece>)
    requires s.quote.None? && !s.escaped && forall p :: p in pieces ==> PieceFits(p)
    ensures Scan(s, TokenText(pieces)) == s.(current := s.current + TokenValue(pieces))
    decreases |pieces|
  {
    if pieces == [] {
      assert s.current + "" == s.current;
    } else {
      var value := PieceValue(pieces[0]);
      var t := s.(current := s.current + value);
      ScanJoin(s, PieceText(pieces[0]), TokenText(pieces[1..]));
      PieceScans(s, pieces[0]);
      TokenScans(t, pieces[1..]);
      Associates(s.current, value, TokenValue(pieces[1..]));
    }
  }

  ghost predicate AllFit(tokens: seq<seq<Piece>>)
  {
    forall token, p :: token in tokens && p in token ==> PieceFits(p)
  }

  predicate Blank(gap: string) { forall c <- gap :: IsSpace(c) }

  /** Each token after its gap, then the tail. */
  function Line(tokens: seq<seq<Piece>>, gaps: seq<string>, tail: string): string
    requires |gaps| == |tokens|
  {
    if tokens == [] then tail else gaps[0] + (TokenText(tokens[0]) + Line(tokens[1..], gaps[1..], tail))
  }

  /** Any white space first and last, and at least some between one token and the next. */
  ghost predicate Separates(gaps: seq<string>, tail: string)
  {
    Blank(tail) && forall i :: 0 <= i < |gaps| ==> Blank(gaps[i]) && (i > 0 ==> gaps[i] != "")
  }

  /** The values that are not empty, in order. */
  function NonEmptyValues(tokens: seq<seq<Piece>>): seq<string>
  {
    if tokens == [] then []
    else if TokenValue(tokens[0]) == "" then NonEmptyValues(tokens[1..])
    else [TokenValue(tokens[0])] + NonEmptyValues(tokens[1..])
  }

  /** The tokens found once the one being read ends. */
  function Ended(s: State): seq<string> { if s.current == "" then s.args else s.args + [s.current] }

  lemma {:induction false} GapScans(s: State, gap: string)
    requires s.quote.None? && !s.escaped && Blank(gap)
    ensures Scan(s, gap) == if gap == "" then s else State(Ended(s), "", None, false)
    decreases |gap|
  {
    if gap != "" {
      SpaceIsPlain(gap[0]);
      GapScans(Next(s, gap[0]), gap[1..]);
    }
  }

  lemma SpaceIsPlain(c: char)
    requires IsSpace(c)
    ensures c != '\\' && !IsQuote(c)
  {
  }

  /** A gap, then a token: what was being read is a token of its own. */
  lemma GapThenToken(s: State, gap: string, pieces: seq<Piece>)
    requires s.quote.None? && !s.escaped && Blank(gap) && (s.current == "" || gap != "")
    requires forall p :: p in pieces ==> PieceFits(p)
    ensures Scan(Scan(s, gap), TokenText(pieces)) == State(Ended(s), TokenValue(pieces), None, false)
  {
    GapScans(s, gap);
    TokenScans(Scan(s, gap), pieces);
    EmptyThen("", TokenValue(pieces));
  }

  lemma {:induction false} LineScans(s: State, tokens: seq<seq<Piece>>, gaps: seq<string>, tail: string)
    requires s.quote.None? && !s.escaped && |gaps| == |tokens| && AllFit(tokens)
    requires Separates(gaps, tail) && (s.current == "" || gaps == [] || gaps[0] != "")
    ensures Finish(Scan(s, Line(tokens, gaps, tail))) == Some(Ended(s) + NonEmptyValues(tokens))
    decreases |tokens|
  {
    if tokens == [] {
      GapScans(s, tail);
      EmptyThen([], Ended(s));
    } else {
      assert tokens[0] in tokens;
      var rest := Line(tokens[1..], gaps[1..], tail);
      var t := State(Ended(s), TokenValue(tokens[0]), None, false);
      GapThenToken(s, gaps[0], tokens[0]);
      ScanJoin(s, gaps[0], TokenText(tokens[0]) + rest);
      ScanJoin(Scan(s, gaps[0]), TokenText(tokens[0]), rest);
      LaterTokens(tokens, gaps, tail);
      LineScans(t, tokens[1..], gaps[1..], tail);
      ValuesAfter(s, tokens);
    }
  }

  lemma LaterTokens(tokens: seq<seq<Piece>>, gaps: seq<string>, tail: string)
    requires tokens != [] && |gaps| == |tokens| && AllFit(tokens) && Separates(gaps, tail)
    ensures AllFit(tokens[1..]) && Separates(gaps[1..], tail) && (gaps[1..] == [] || gaps[1..][0] != "")
  {
    forall i | 0 <= i < |gaps[1..]| ensures Blank(gaps[1..][i]) && gaps[1..][i] != "" {
      assert gaps[1..][i] == gaps[i + 1];
    }
  }

  lemma ValuesAfter(s: State, tokens: seq<seq<Piece>>)
    requires tokens != []
    ensures Ended(State(Ended(s), TokenValue(tokens[0]), None, false)) + NonEmptyValues(tokens[1..])
         == Ended(s) + NonEmptyValues(tokens)
  {
    var value := TokenValue(tokens[0]);
    if value != "" { Associates(Ended(s), [value], NonEmptyValues(tokens[1..])); }
  }

  /**
   * Splitting undoes quoting: tokens written bare, escaped or in either quote
   * style, in any mixture, come back in order, whatever white space separates
   * them and stands at either end; an empty one leaves no trace.
   */
  lemma SplitUndoesQuoting(tokens: seq<seq<Piece>>, gaps: seq<string>, tail: string)
    requires AllFit(tokens) && |gaps| == |tokens| && Separates(gaps, tail)
    ensures Split(Line(tokens, gaps, tail)) == Some(NonEmptyValues(tokens))
  {
    LineScans(START, tokens, gaps, tail);
    EmptyThen([], NonEmptyValues(tokens));
  }

  function AllValues(tokens: seq<seq<Piece>>): (values: seq<string>)
    ensures |values| == |tokens|
  {
    if tokens == [] then [] else [TokenValue(tokens[0])] + AllValues(tokens[1..])
  }

  /** So a list of arguments comes back unchanged exactly when none of them is empty. */
  lemma {:induction false} UnchangedIff(tokens: seq<seq<Piece>>)
    ensures NonEmptyValues(tokens) == AllValues(tokens) <==> "" !in AllValues(tokens)
    ensures |NonEmptyValues(tokens)| <= |tokens|
  {
    if tokens != [] {
      UnchangedIff(tokens[1..]);
      var value := TokenValue(tokens[0]);
      assert AllValues(tokens)[1..] == AllValues(tokens[1..]) && AllValues(tokens)[0] == value;
      if value != "" {
        assert NonEmptyValues(tokens)[1..] == NonEmptyValues(tokens[1..]);
        assert "" in AllValues(tokens) <==> "" in AllValues(tokens[1..]);
      }
    }
  }
}
