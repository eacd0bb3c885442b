/**
 * A jar manifest's main section (packages/core/src/gatling-jar.ts): header
 * names, lower-cased, to values, with continuation lines joined.
 */
module Manifest {
  import opened Bytes
  import opened Text

  type Headers = map<string, string>

  /** `text.split(/\r\n|\r|\n/)`. */
  function SplitLines(text: string): (lines: seq<string>)
    ensures lines != []
  {
    if text == [] then [""]
    else if text[0] == '\r' && |text| > 1 && text[1] == '\n' then [""] + SplitLines(text[2..])
    else if text[0] == '\r' || text[0] == '\n' then [""] + SplitLines(text[1..])
    else
      var rest := SplitLines(text[1..]);
      [[text[0]] + rest[0]] + rest[1..]
  }

  /** `line.indexOf(c)`, None for -1. */
  function IndexOf(line: string, c: char): (i: Option<nat>)
    ensures i.Some? ==> i.value < |line| && line[i.value] == c && c !in line[..i.value]
    ensures i.None? <==> c !in line
  {
    if line == [] then None
    else if line[0] == c then Some(0)
    else
      match IndexOf(line[1..], c)
      case None => None
      case Some(k) =>
        assert line[..k + 1] == [line[0]] + line[1..][..k];
        Some(k + 1)
  }

  /** The header being read, if a line has begun one. */
  datatype Open = Open(name: string, value: string)

  function Commit(open: Option<Open>, headers: Headers): Headers
  {
    if open.Some? then headers[open.value.name := open.value.value] else headers
  }

  /** A line that begins a header; None without a colon. */
  function Begun(line: string): Option<Open>
  {
    var separator := IndexOf(line, ':');
    if separator.None? then None
    else Some(Open(Lower(Trim(line[..separator.value])), Trim(line[separator.value + 1..])))
  }

  /** What the lines still to read add to the headers. */
  function Scan(lines: seq<string>, open: Option<Open>, headers: Headers): Headers
  {
    if lines == [] || lines[0] == "" then Commit(open, headers)
    else if lines[0][0] == ' ' then
      var longer := if open.Some? then Some(Open(open.value.name, open.value.value + lines[0][1..])) else None;
      Scan(lines[1..], longer, headers)
    else Scan(lines[1..], Begun(lines[0]), Commit(open, headers))
  }

  function Parsed(text: string): Headers { Scan(SplitLines(text), None, map[]) }

  method ParseManifest(text: string) returns (headers: Headers)
    ensures headers == Parsed(text)
  {
    headers := map[];
    var name: Option<string>, value := None, "";
    var lines := SplitLines(text);
    var i := 0;
    while i < |lines|
      invariant i <= |lines|
      invariant Scan(lines[i..], if name.Some? then Some(Open(name.value, value)) else None, headers) == Parsed(text)
    {
      var line := lines[i];
      assert lines[i..][1..] == lines[i + 1..];
      i := i + 1;
      if line == "" { break; }
      if line[0] == ' ' {
        if name.Some? { value := value + line[1..]; }
        continue;
      }
      if name.Some? { headers := headers[name.value := value]; }
      name, value := None, "";
      var separator := IndexOf(line, ':');
      if separator.None? { continue; }
      name := Some(Lower(Trim(line[..separator.value])));
      value := Trim(line[separator.value + 1..]);
    }
    if name.Some? { headers := headers[name.value := value]; }
  }

  // ----- Writing a manifest: JAR File Specification, "Name-Value pairs and Sections" -----

  /**
   * A header whose value is cut, wherever the writer chose to wrap: what the first
   * line holds, then each further one.
   */
  datatype Header = Header(name: string, first: string, more: seq<string>)

  predicate OneLine(s: string) { '\r' !in s && '\n' !in s }

  ghost predicate WellFormed(h: Header)
  {
    && h.name != "" && h.name[0] != ' ' && ':' !in h.name && OneLine(h.name)
    && OneLine(h.first) && forall p :: p in h.more ==> OneLine(p)
  }

  /** The value a header was written with, and the value that is read back. */
  function Value(h: Header): string { h.first + Concat(h.more) }

  function ReadBack(h: Header): string { Trim(h.first) + Concat(h.more) }

  function Continued(pieces: seq<string>): (lines: seq<string>)
  {
    if pieces == [] then [] else [" " + pieces[0]] + Continued(pieces[1..])
  }

  function LinesOf(h: Header): (lines: seq<string>)
  {
    [h.name + ": " + h.first] + Continued(h.more)
  }

  function AllLines(headers: seq<Header>): (lines: seq<string>)
  {
    if headers == [] then [] else LinesOf(headers[0]) + AllLines(headers[1..])
  }

  function Terminated(lines: seq<string>, eol: string): string
  {
    if lines == [] then "" else lines[0] + eol + Terminated(lines[1..], eol)
  }

  const TERMINATORS: set<string> := {"\r\n", "\r", "\n"}

  /** The end of the main section: the end of the text, or a blank line and per-entry sections. */
  predicate EndsSection(tail: string, eol: string) { tail == "" || eol <= tail }

  lemma {:induction false} SplitLine(line: string, eol: string, rest: string)
    requires OneLine(line) && eol in TERMINATORS
    requires eol == "\r" ==> rest == "" || rest[0] != '\n'
    ensures SplitLines(line + eol + rest) == [line] + SplitLines(rest)
  {
    var text := line + eol + rest;
    if line == "" {
      EmptyThen(line, eol);
      DropOfSum(eol, rest, |eol|);
      EmptyThen(eol[|eol|..], rest);
    } else {
      DropOfSum(line, eol, 1);
      DropOfSum(line + eol, rest, 1);
      SplitLine(line[1..], eol, rest);
      assert [line[0]] + line[1..] == line;
    }
  }

  lemma SplitTail(tail: string, eol: string)
    requires eol in TERMINATORS && EndsSection(tail, eol)
    ensures SplitLines(tail)[0] == ""
  {
  }

  lemma {:induction false} TerminatedStarts(lines: seq<string>, eol: string, tail: string)
    requires forall l :: l in lines ==> OneLine(l) && l != ""
    requires eol == "\r" && EndsSection(tail, eol)
    ensures var text := Terminated(lines, eol) + tail;
            text == "" || text[0] != '\n'
  {
    if lines != [] { assert lines[0] in lines; }
  }

  lemma {:induction false} SplitTerminated(lines: seq<string>, eol: string, tail: string)
    requires forall l :: l in lines ==> OneLine(l) && l != ""
    requires eol in TERMINATORS && EndsSection(tail, eol)
    ensures SplitLines(Terminated(lines, eol) + tail) == lines + SplitLines(tail)
  {
    if lines == [] {
      EmptyThen(Terminated(lines, eol), tail);
      EmptyThen(lines, SplitLines(tail));
    } else {
      var rest := Terminated(lines[1..], eol) + tail;
      Associates(lines[0] + eol, Terminated(lines[1..], eol), tail);
      assert lines[0] in lines;
      forall l | l in lines[1..] ensures OneLine(l) && l != "" { assert l in lines; }
      if eol == "\r" { TerminatedStarts(lines[1..], eol, tail); }
      SplitLine(lines[0], eol, rest);
      SplitTerminated(lines[1..], eol, tail);
      FirstAndRest(lines, SplitLines(tail));
    }
  }

  lemma FirstAndRest<T>(all: seq<T>, more: seq<T>)
    requires all != []
    ensures [all[0]] + (all[1..] + more) == all + more
  {
  }

  lemma {:induction false} LinesAreLines(headers: seq<Header>)
    requires forall h :: h in headers ==> WellFormed(h)
    ensures forall l :: l in AllLines(headers) ==> OneLine(l) && l != ""
  {
    if headers != [] {
      assert headers[0] in headers;
      ContinuedAreLines(headers[0].more);
      forall h | h in headers[1..] ensures WellFormed(h) { assert h in headers; }
      LinesAreLines(headers[1..]);
    }
  }

  lemma {:induction false} ContinuedAreLines(pieces: seq<string>)
    requires forall p :: p in pieces ==> OneLine(p)
    ensures forall l :: l in Continued(pieces) ==> OneLine(l) && l != ""
  {
    if pieces != [] {
      assert pieces[0] in pieces;
      forall p | p in pieces[1..] ensures OneLine(p) { assert p in pieces; }
      ContinuedAreLines(pieces[1..]);
    }
  }

  lemma {:induction false} IndexAfter(a: string, c: char, b: string)
    requires c !in a
    ensures IndexOf(a + [c] + b, c) == Some(|a|)
  {
    if a != "" {
      assert (a + [c] + b)[1..] == a[1..] + [c] + b;
      IndexAfter(a[1..], c, b);
    }
  }

  /** Continuation lines join without a separator, whatever they hold. */
  lemma {:induction false} ScanContinued(pieces: seq<string>, rest: seq<string>, open: Open, headers: Headers)
    ensures Scan(Continued(pieces) + rest, Some(open), headers) ==
            Scan(rest, Some(Open(open.name, open.value + Concat(pieces))), headers)
  {
    if pieces == [] {
      assert Continued(pieces) + rest == rest;
      assert open.value + Concat(pieces) == open.value;
    } else {
      var lines := Continued(pieces) + rest;
      assert lines[0] == " " + pieces[0] && lines[0][1..] == pieces[0];
      assert lines[1..] == Continued(pieces[1..]) + rest;
      ScanContinued(pieces[1..], rest, Open(open.name, open.value + pieces[0]), headers);
      assert open.value + pieces[0] + Concat(pieces[1..]) == open.value + Concat(pieces);
    }
  }

  /** A header's first line opens it: its name is what stands before the colon. */
  lemma FirstLineBegins(h: Header)
    requires WellFormed(h)
    ensures var first := h.name + ": " + h.first;
      first[0] != ' ' && Begun(first) == Some(Open(Lower(Trim(h.name)), Trim(h.first)))
  {
    var first := h.name + ": " + h.first;
    assert first == h.name + [':'] + (" " + h.first);
    IndexAfter(h.name, ':', " " + h.first);
    assert first[..|h.name|] == h.name && first[|h.name| + 1..] == " " + h.first;
    assert (" " + h.first)[1..] == h.first;
  }

  lemma ScanHeader(h: Header, rest: seq<string>, open: Option<Open>, headers: Headers)
    requires WellFormed(h)
    ensures Scan(LinesOf(h) + rest, open, headers) ==
            Scan(rest, Some(Open(Lower(Trim(h.name)), ReadBack(h))), Commit(open, headers))
  {
    var first := h.name + ": " + h.first;
    assert LinesOf(h) + rest == [first] + (Continued(h.more) + rest);
    FirstLineBegins(h);
    ScanContinued(h.more, rest, Begun(first).value, Commit(open, headers));
  }

  /** The map the headers make, a later one of the same name replacing an earlier. */
  function Collected(written: seq<Header>, headers: Headers): Headers
  {
    if written == [] then headers
    else Collected(written[1..], headers[Lower(Trim(written[0].name)) := ReadBack(written[0])])
  }

  lemma {:induction false} ScanAll(written: seq<Header>, rest: seq<string>, open: Option<Open>, headers: Headers)
    requires forall h :: h in written ==> WellFormed(h)
    requires rest != [] && rest[0] == ""
    ensures Scan(AllLines(written) + rest, open, headers) == Collected(written, Commit(open, headers))
  {
    if written == [] {
      assert AllLines(written) + rest == rest;
    } else {
      assert written[0] in written;
      var more := AllLines(written[1..]) + rest;
      assert AllLines(written) + rest == LinesOf(written[0]) + more;
      ScanHeader(written[0], more, open, headers);
      forall h | h in written[1..] ensures WellFormed(h) { assert h in written; }
      ScanAll(written[1..], rest, Some(Open(Lower(Trim(written[0].name)), ReadBack(written[0]))),
          Commit(open, headers));
    }
  }

  ghost predicate DistinctNames(written: seq<Header>)
  {
    forall i, j :: 0 <= i < j < |written| ==> Lower(Trim(written[i].name)) != Lower(Trim(written[j].name))
  }

  /** A name no written header has is left as it was. */
  lemma {:induction false} CollectedKeeps(written: seq<Header>, headers: Headers, n: string)
    requires forall h :: h in written ==> n != Lower(Trim(h.name))
    ensures var all := Collected(written, headers);
      (n in all <==> n in headers) && (n in headers ==> all[n] == headers[n])
  {
    if written != [] {
      assert written[0] in written;
      forall h | h in written[1..] ensures n != Lower(Trim(h.name)) { assert h in written; }
      CollectedKeeps(written[1..], headers[Lower(Trim(written[0].name)) := ReadBack(written[0])], n);
    }
  }

  lemma {:induction false} CollectedAt(written: seq<Header>, headers: Headers, i: nat)
    requires DistinctNames(written) && i < |written|
    ensures var all := Collected(written, headers);
      Lower(Trim(written[i].name)) in all && all[Lower(Trim(written[i].name))] == ReadBack(written[i])
    decreases |written|
  {
    var more := headers[Lower(Trim(written[0].name)) := ReadBack(written[0])];
    if i == 0 {
      forall h | h in written[1..] ensures Lower(Trim(written[0].name)) != Lower(Trim(h.name)) {
        var j :| 0 <= j < |written[1..]| && written[1..][j] == h;
        assert written[j + 1] == h;
      }
      CollectedKeeps(written[1..], more, Lower(Trim(written[0].name)));
    } else {
      CollectedAt(written[1..], more, i - 1);
    }
  }

  lemma CollectedHas(written: seq<Header>, headers: Headers)
    requires DistinctNames(written)
    ensures var all := Collected(written, headers);
      && (forall h :: h in written ==> Lower(Trim(h.name)) in all && all[Lower(Trim(h.name))] == ReadBack(h))
      && (forall n :: n in all ==> n in headers || exists h :: h in written && n == Lower(Trim(h.name)))
  {
    var all := Collected(written, headers);
    forall h | h in written ensures Lower(Trim(h.name)) in all && all[Lower(Trim(h.name))] == ReadBack(h) {
      var i :| 0 <= i < |written| && written[i] == h;
      CollectedAt(written, headers, i);
    }
    forall n | n in all && n !in headers ensures exists h :: h in written && n == Lower(Trim(h.name)) {
      if forall h :: h in written ==> n != Lower(Trim(h.name)) { CollectedKeeps(written, headers, n); }
    }
  }

  /**
   * Reading a written main section back: exactly the headers that were written,
   * under their lower-cased names, wherever their values were wrapped, with any
   * of the three line terminators, ignoring whatever follows the blank line.
   */
  lemma ParseWritten(written: seq<Header>, eol: string, tail: string)
    requires (forall h :: h in written ==> WellFormed(h)) && DistinctNames(written)
    requires eol in TERMINATORS && EndsSection(tail, eol)
    ensures var headers := Parsed(Terminated(AllLines(written), eol) + tail);
      && (forall h :: h in written ==> Lower(Trim(h.name)) in headers && headers[Lower(Trim(h.name))] == ReadBack(h))
      && (forall n :: n in headers ==> exists h :: h in written && n == Lower(Trim(h.name)))
  {
    LinesAreLines(written);
    SplitTerminated(AllLines(written), eol, tail);
    SplitTail(tail, eol);
    ScanAll(written, SplitLines(tail), None, map[]);
    CollectedHas(written, map[]);
  }

  /** A value comes back whole exactly when its first line has no space at either end. */
  lemma WholeIff(h: Header)
    ensures ReadBack(h) == Value(h) <==> Trimmed(h.first)
  {
    TrimKeeps(h.first);
    var rest := Concat(h.more);
    if ReadBack(h) == Value(h) {
      assert |Trim(h.first)| + |rest| == |h.first| + |rest|;
      assert Trim(h.first) == ReadBack(h)[..|h.first|] == h.first;
    }
  }

  // ----- Simulations -----

  function NonEmpty(names: seq<string>): seq<string>
  {
    if names == [] then []
    else if Trim(names[0]) == "" then NonEmpty(names[1..])
    else [Trim(names[0])] + NonEmpty(names[1..])
  }

  const GATLING_SIMULATIONS := "gatling-simulations"

  function Listed(value: string): seq<string> { NonEmpty(SplitOn(value, ',')) }

  /** `Gatling-Simulations`, split. */
  function Simulations(headers: Headers): seq<string>
  {
    Listed(if GATLING_SIMULATIONS in headers then headers[GATLING_SIMULATIONS] else "")
  }

  lemma {:induction false} NonEmptyKeeps(names: seq<string>)
    requires forall n :: n in names ==> n != "" && Trimmed(n)
    ensures NonEmpty(names) == names
  {
    if names != [] {
      assert names[0] in names;
      TrimKeeps(names[0]);
      forall n | n in names[1..] ensures n != "" && Trimmed(n) { assert n in names; }
      NonEmptyKeeps(names[1..]);
    }
  }

  /** Whatever the spaces and empty entries of a list: the names in it, trimmed, and no empty one. */
  lemma {:induction false} NonEmptyIs(names: seq<string>)
    ensures "" !in NonEmpty(names) && forall x :: x in NonEmpty(names) ==> Trimmed(x)
    ensures forall n :: n in names && Trim(n) != "" ==> Trim(n) in NonEmpty(names)
    ensures forall x :: x in NonEmpty(names) ==> exists n :: n in names && Trim(n) == x
    ensures |NonEmpty(names)| <= |names|
  {
    if names != [] {
      NonEmptyIs(names[1..]);
      TrimKeeps(names[0]);
      forall x | x in NonEmpty(names) ensures exists n :: n in names && Trim(n) == x {
        if x in NonEmpty(names[1..]) {
          var n :| n in names[1..] && Trim(n) == x;
          assert n in names;
        } else {
          assert names[0] in names;
        }
      }
      forall n | n in names && Trim(n) != "" ensures Trim(n) in NonEmpty(names) {
        assert n == names[0] || n in names[1..];
      }
    }
  }

  ghost predicate ClassNames(classes: seq<string>)
  {
    forall c :: c in classes ==> c != "" && ',' !in c && forall x :: x in c ==> !IsSpace(x)
  }

  lemma {:induction false} JoinedHasNoSpace(classes: seq<string>)
    requires ClassNames(classes)
    ensures forall x :: x in JoinWith(classes, ',') ==> !IsSpace(x)
  {
    if classes != [] {
      assert classes[0] in classes;
      forall c | c in classes[1..] ensures c in classes {}
      JoinedHasNoSpace(classes[1..]);
    }
  }

  lemma ListedJoined(classes: seq<string>)
    requires ClassNames(classes)
    ensures Listed(JoinWith(classes, ',')) == classes
  {
    if classes == [] {
      assert Trim("") == "";
      assert NonEmpty([""]) == NonEmpty([""][1..]) == [];
    } else {
      SplitJoin(classes, ',');
      NonEmptyKeeps(classes);
    }
  }

  /** A comma-joined list of simulation classes is recovered exactly, however its header was wrapped. */
  lemma SimulationsRecovered(written: seq<Header>, h: Header, classes: seq<string>, eol: string, tail: string)
    requires (forall g :: g in written ==> WellFormed(g)) && DistinctNames(written) && h in written
    requires eol in TERMINATORS && EndsSection(tail, eol)
    requires Lower(Trim(h.name)) == GATLING_SIMULATIONS && Value(h) == JoinWith(classes, ',') && ClassNames(classes)
    ensures Simulations(Parsed(Terminated(AllLines(written), eol) + tail)) == classes
  {
    ParseWritten(written, eol, tail);
    JoinedHasNoSpace(classes);
    FirstOfValue(h);
    WholeIff(h);
    ListedJoined(classes);
  }

  /** A manifest that lists no simulations gives none. */
  lemma NoneListed(written: seq<Header>, eol: string, tail: string)
    requires (forall g :: g in written ==> WellFormed(g)) && DistinctNames(written)
    requires eol in TERMINATORS && EndsSection(tail, eol)
    requires forall g :: g in written ==> Lower(Trim(g.name)) != GATLING_SIMULATIONS
    ensures Simulations(Parsed(Terminated(AllLines(written), eol) + tail)) == []
  {
    ParseWritten(written, eol, tail);
    ListedJoined([]);
  }

  lemma FirstOfValue(h: Header)
    requires forall x :: x in Value(h) ==> !IsSpace(x)
    ensures Trimmed(h.first)
  {
    if h.first != "" {
      assert h.first[0] == Value(h)[0] && h.first[|h.first| - 1] == Value(h)[|h.first| - 1];
    }
  }
}
