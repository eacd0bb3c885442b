/**
 * A child process's output, arriving in chunks cut anywhere, written out line
 * by line with a prefix: `pipeWithPrefixToMany` (apps/runner/src/process.ts).
 */
module LineSplitter {
  import opened Bytes
  import opened Text

  /** `text.split(/\r?\n/)`. */
  function Pieces(text: string): (pieces: seq<string>)
    ensures pieces != []
  {
    if text == "" then [""]
    else if text[0] == '\n' then [""] + Pieces(text[1..])
    else if text[0] == '\r' && |text| > 1 && text[1] == '\n' then [""] + Pieces(text[2..])
    else
      var rest := Pieces(text[1..]);
      [[text[0]] + rest[0]] + rest[1..]
  }

  function Front(pieces: seq<string>): seq<string>
    requires pieces != []
  {
    pieces[..|pieces| - 1]
  }

  function Last(pieces: seq<string>): string
    requires pieces != []
  {
    pieces[|pieces| - 1]
  }

  /** What is written for these lines. */
  function Written(lines: seq<string>, prefix: string): (out: string)
  {
    if lines == [] then "" else Written(Front(lines), prefix) + prefix + Last(lines) + "\n"
  }

  /** All that is written for a whole text: its lines, an unterminated last one with a newline added. */
  function Whole(text: string, prefix: string): string
  {
    var pieces := Pieces(text);
    Written(if Last(pieces) == "" then Front(pieces) else pieces, prefix)
  }

  lemma {:induction false} OnePiece(text: string)
    requires |Pieces(text)| == 1
    ensures Pieces(text) == [text]
  {
    if text != "" {
      OnePiece(text[1..]);
      assert [text[0]] + text[1..] == text;
    }
  }

  lemma OneTerminated(c: char)
    requires c !in {'\n', '\r'}
    ensures Pieces([c]) == [[c]] && Pieces([c] + "\n") == [[c]] + [""]
  {
    assert ([c] + "\n")[1..] == "\n" && [c][1..] == "" && "\n"[1..] == "";
    assert Pieces("") == [""] && Pieces("\n") == [""] + [""];
    assert [c] + "" == [c] && ([""] + [""])[1..] == [""];
  }

  /** A piece put before a list of pieces that ends with one more. */
  lemma MoreTerminated(first: string, c: char, plain: seq<string>, ended: seq<string>)
    requires plain != [] && ended == plain + [""] && Last(plain) != ""
    ensures [first] + ended == ([first] + plain) + [""] && Last([first] + plain) != ""
    ensures [[c] + ended[0]] + ended[1..] == ([[c] + plain[0]] + plain[1..]) + [""]
    ensures Last([[c] + plain[0]] + plain[1..]) != ""
  {
  }

  lemma {:induction false} TerminatedPieces(text: string)
    requires text != "" && text[|text| - 1] !in {'\n', '\r'}
    ensures Pieces(text + "\n") == Pieces(text) + [""] && Last(Pieces(text)) != ""
    decreases |text|
  {
    if |text| == 1 {
      OneTerminated(text[0]);
      assert text == [text[0]];
    } else {
      var later := if text[0] == '\r' && text[1] == '\n' then text[2..] else text[1..];
      assert (text + "\n")[|text| - |later|..] == later + "\n";
      TerminatedPieces(later);
      MoreTerminated("", text[0], Pieces(later), Pieces(later + "\n"));
    }
  }

  /** A last line without its line break is written as if it had one. */
  lemma UnterminatedLastLine(text: string, prefix: string)
    requires text != "" && text[|text| - 1] !in {'\n', '\r'}
    ensures Whole(text, prefix) == Whole(text + "\n", prefix)
  {
    TerminatedPieces(text);
    assert Front(Pieces(text) + [""]) == Pieces(text);
  }

  /** What the pieces of `a + b` are made of, in terms of the pieces of `a`. */
  ghost predicate Joins(ab: seq<string>, a: seq<string>, b: string)
    requires a != []
  {
    ab == Front(a) + Pieces(Last(a) + b)
  }

  lemma JoinsCons(first: string, ab: seq<string>, a: seq<string>, b: string)
    requires a != [] && Joins(ab, a, b)
    ensures Joins([first] + ab, [first] + a, b)
  {
    FrontCons(first, a);
    Associates([first], Front(a), Pieces(Last(a) + b));
  }

  /** A character put before the first of several pieces. */
  lemma JoinsLonger(c: char, ab: seq<string>, a: seq<string>, b: string)
    requires |a| > 1 && ab != [] && Joins(ab, a, b)
    ensures Joins([[c] + ab[0]] + ab[1..], [[c] + a[0]] + a[1..], b)
  {
    var tail := Pieces(Last(a) + b);
    FrontCons([c] + a[0], a[1..]);
    assert Front(a) == [a[0]] + Front(a[1..]) && Last(a) == Last(a[1..]);
    assert ab[0] == a[0] && ab[1..] == Front(a[1..]) + tail;
    assert [[c] + a[0]] + (Front(a[1..]) + tail) == [[c] + a[0]] + Front(a[1..]) + tail;
  }

  /** More text only goes on from the last piece, even where a line break is cut in two. */
  lemma {:induction false} PiecesJoin(a: string, b: string)
    ensures Joins(Pieces(a + b), Pieces(a), b)
    decreases |a|
  {
    if |Pieces(a)| == 1 {
      OnePiece(a);
      assert Front([a]) + Pieces(a + b) == Pieces(a + b);
    } else if a[0] == '\n' {
      assert (a + b)[1..] == a[1..] + b;
      PiecesJoin(a[1..], b);
      JoinsCons("", Pieces(a[1..] + b), Pieces(a[1..]), b);
    } else if a[0] == '\r' && |a| > 1 && a[1] == '\n' {
      assert (a + b)[2..] == a[2..] + b;
      PiecesJoin(a[2..], b);
      JoinsCons("", Pieces(a[2..] + b), Pieces(a[2..]), b);
    } else {
      assert (a + b)[1..] == a[1..] + b;
      PiecesJoin(a[1..], b);
      JoinsLonger(a[0], Pieces(a[1..] + b), Pieces(a[1..]), b);
    }
  }

  lemma FrontCons(first: string, rest: seq<string>)
    requires rest != []
    ensures Front([first] + rest) == [first] + Front(rest) && Last([first] + rest) == Last(rest)
  {
  }

  lemma {:induction false} WrittenJoin(a: seq<string>, b: seq<string>, prefix: string)
    ensures Written(a + b, prefix) == Written(a, prefix) + Written(b, prefix)
  {
    if b == [] {
      assert a + b == a;
      assert Written(a, prefix) + "" == Written(a, prefix);
    } else {
      assert Front(a + b) == a + Front(b) && Last(a + b) == Last(b);
      WrittenJoin(a, Front(b), prefix);
      var x, y := Written(a, prefix), Written(Front(b), prefix);
      assert (x + y) + prefix + Last(b) + "\n" == x + (y + prefix + Last(b) + "\n");
    }
  }

  lemma FrontJoin(a: seq<string>, b: seq<string>)
    requires b != []
    ensures Front(a + b) == a + Front(b) && Last(a + b) == Last(b)
  {
  }

  lemma WrittenSnoc(lines: seq<string>, line: string, prefix: string)
    ensures Written(lines + [line], prefix) == Written(lines, prefix) + (prefix + line + "\n")
  {
    FrontJoin(lines, [line]);
    assert Front([line]) == [] && lines + [] == lines;
    Associates(Written(lines, prefix), prefix, line);
    Associates(Written(lines, prefix), prefix + line, "\n");
  }

  /** `text` is everything that has arrived; `out` everything that has been written. */
  class PrefixPipe {
    const prefix: string
    var pending: string
    var out: string
    ghost var text: string

    ghost predicate Valid()
      reads this
    {
      pending == Last(Pieces(text)) && out == Written(Front(Pieces(text)), prefix)
    }

    constructor (prefix: string)
      ensures Valid() && text == "" && out == "" && this.prefix == prefix
    {
      this.prefix := prefix;
      pending, out, text := "", "", "";
    }

    method OnData(chunk: string)
      requires Valid()
      modifies this
      ensures Valid() && text == old(text) + chunk
    {
      PiecesJoin(text, chunk);
      ghost var before := Front(Pieces(text));
      pending := pending + chunk;
      var lines := Pieces(pending);
      FrontJoin(before, lines);
      pending, lines := lines[|lines| - 1], lines[..|lines| - 1];
      WrittenJoin(before, lines, prefix);
      WriteAll(lines);
      text := text + chunk;
    }

    method WriteAll(lines: seq<string>)
      modifies `out
      ensures out == old(out) + Written(lines, prefix)
    {
      for i := 0 to |lines|
        invariant out == old(out) + Written(lines[..i], prefix)
      {
        out := out + (prefix + lines[i] + "\n");
        WrittenSnoc(lines[..i], lines[i], prefix);
        assert lines[..i] + [lines[i]] == lines[..i + 1];
        Associates(old(out), Written(lines[..i], prefix), prefix + lines[i] + "\n");
      }
      assert lines[..|lines|] == lines;
    }

    method OnEnd()
      requires Valid()
      modifies `out
      ensures out == Whole(text, prefix)
    {
      ghost var pieces := Pieces(text);
      if pending != "" {
        out := out + prefix + pending + "\n";
        assert pieces == Front(pieces) + [Last(pieces)];
      }
    }
  }

  /** However the output is cut into chunks, what is written is what the whole of it gives at once. */
  method Pipe(chunks: seq<string>, prefix: string) returns (out: string)
    ensures out == Whole(Concat(chunks), prefix)
  {
    var pipe := new PrefixPipe(prefix);
    for i := 0 to |chunks|
      invariant pipe.Valid() && pipe.prefix == prefix && pipe.text == Concat(chunks[..i])
    {
      pipe.OnData(chunks[i]);
      ConcatSnoc(chunks[..i], chunks[i]);
      assert chunks[..i + 1] == chunks[..i] + [chunks[i]];
    }
    assert chunks[..|chunks|] == chunks;
    pipe.OnEnd();
    out := pipe.out;
  }

  // ----- The lines themselves -----

  /** One trailing carriage return is dropped. */
  function Chomp(line: string): string
  {
    if line != "" && line[|line| - 1] == '\r' then line[..|line| - 1] else line
  }

  function ChompAll(lines: seq<string>): (chomped: seq<string>)
    ensures |chomped| == |lines|
  {
    if lines == [] then [] else [Chomp(lines[0])] + ChompAll(lines[1..])
  }

  /** Every line between newlines, each but the last without one carriage return at its end. */
  function Lines(text: string): seq<string>
  {
    var lines := SplitOn(text, '\n');
    ChompAll(Front(lines)) + [Last(lines)]
  }

  lemma LinesCons(first: string, lines: seq<string>)
    requires lines != []
    ensures ChompAll(Front([first] + lines)) + [Last([first] + lines)]
         == [Chomp(first)] + (ChompAll(Front(lines)) + [Last(lines)])
  {
    FrontCons(first, lines);
  }

  lemma LinesLonger(c: char, lines: seq<string>)
    requires lines != [] && (|lines| > 1 ==> Chomp([c] + lines[0]) == [c] + Chomp(lines[0]))
    ensures var plain, longer := ChompAll(Front(lines)) + [Last(lines)], [[c] + lines[0]] + lines[1..];
            ChompAll(Front(longer)) + [Last(longer)] == [[c] + plain[0]] + plain[1..]
  {
    if |lines| > 1 {
      assert [lines[0]] + lines[1..] == lines;
      LinesCons(lines[0], lines[1..]);
      LinesCons([c] + lines[0], lines[1..]);
    } else {
      assert Front(lines) == [] && Front([[c] + lines[0]] + lines[1..]) == [];
    }
  }

  /** A character before a line stays when the line is chomped, unless it is a carriage return before a newline. */
  lemma ChompLonger(c: char, rest: string)
    requires !(c == '\r' && rest != "" && rest[0] == '\n')
    ensures var lines := SplitOn(rest, '\n');
            |lines| > 1 ==> Chomp([c] + lines[0]) == [c] + Chomp(lines[0])
  {
    var line := SplitOn(rest, '\n')[0];
    if line != "" {
      assert ([c] + line)[..|line|] == [c] + line[..|line| - 1];
    } else if |SplitOn(rest, '\n')| > 1 {
      assert rest[0] == '\n';
    }
  }

  /** Splitting as the code does is splitting into lines. */
  lemma {:induction false} PiecesAreLines(text: string)
    ensures Pieces(text) == Lines(text)
  {
    if text == "" {
      assert ChompAll([]) + [""] == [""];
    } else if text[0] == '\n' {
      PiecesAreLines(text[1..]);
      LinesCons("", SplitOn(text[1..], '\n'));
    } else if text[0] == '\r' && |text| > 1 && text[1] == '\n' {
      PiecesAreLines(text[2..]);
      CrLfSplits(text);
      LinesCons("\r", SplitOn(text[2..], '\n'));
      assert Chomp("\r") == "";
    } else {
      PiecesAreLines(text[1..]);
      ChompLonger(text[0], text[1..]);
      LinesLonger(text[0], SplitOn(text[1..], '\n'));
    }
  }

  lemma CrLfSplits(text: string)
    requires |text| > 1 && text[0] == '\r' && text[1] == '\n'
    ensures SplitOn(text, '\n') == ["\r"] + SplitOn(text[2..], '\n')
  {
    assert text[1..][1..] == text[2..];
    var rest := SplitOn(text[2..], '\n');
    assert SplitOn(text[1..], '\n') == [""] + rest;
    assert ([""] + rest)[1..] == rest;
    assert ['\r'] + "" == "\r";
  }
}
