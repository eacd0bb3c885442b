/**
 * The JavaScript string operations the other modules use, over
 * Dafny's `char`, a Unicode scalar value; none of them tells the two halves of a
 * surrogate pair apart.
 */
module Text {

  /** White space and line terminators: what `\s` matches and `trim` removes. */
  predicate IsSpace(c: char)
  {
    var n := c as int;
    || 9 <= n <= 13 || n == 0x20 || n == 0xA0 || n == 0x1680 || 0x2000 <= n <= 0x200A
    || n in {0x2028, 0x2029, 0x202F, 0x205F, 0x3000, 0xFEFF}
  }

  function TrimStart(s: string): (t: string)
    ensures t != [] ==> !IsSpace(t[0])
  {
    if s != [] && IsSpace(s[0]) then TrimStart(s[1..]) else s
  }

  function TrimEnd(s: string): (t: string)
    ensures t != [] ==> !IsSpace(t[|t| - 1])
    ensures t <= s
  {
    if s != [] && IsSpace(s[|s| - 1]) then TrimEnd(s[..|s| - 1]) else s
  }

  function Trim(s: string): string { TrimEnd(TrimStart(s)) }

  /** Neither end is white space. */
  predicate Trimmed(s: string) { s == [] || (!IsSpace(s[0]) && !IsSpace(s[|s| - 1])) }

  lemma TrimKeeps(s: string)
    ensures Trim(s) == s <==> Trimmed(s)
    ensures Trimmed(Trim(s))
  {
    var t := TrimStart(s);
    if Trim(s) != [] { assert Trim(s)[0] == t[0]; }
    if s != [] && IsSpace(s[0]) { TrimStartShrinks(s[1..]); }
  }

  lemma {:induction false} TrimStartShrinks(s: string)
    ensures |TrimStart(s)| <= |s|
  {
    if s != [] && IsSpace(s[0]) { TrimStartShrinks(s[1..]); }
  }

  /** `toLowerCase`, on the letters a manifest header name is made of. */
  function Lower(s: string): (t: string)
    ensures |t| == |s|
  {
    if s == [] then [] else [LowerChar(s[0])] + Lower(s[1..])
  }

  function LowerChar(c: char): char
  {
    if 'A' <= c <= 'Z' then (c as int + 32) as char else c
  }

  /** `split` on one character: the pieces between its occurrences. */
  function SplitOn(s: string, at: char): (pieces: seq<string>)
    ensures pieces != []
  {
    if s == [] then [""]
    else
      var rest := SplitOn(s[1..], at);
      if s[0] == at then [""] + rest else [[s[0]] + rest[0]] + rest[1..]
  }

  /** `join` with one character. */
  function JoinWith(pieces: seq<string>, at: char): string
  {
    if pieces == [] then ""
    else if |pieces| == 1 then pieces[0]
    else pieces[0] + [at] + JoinWith(pieces[1..], at)
  }

  lemma {:induction false} SplitAfter(s: string, rest: string, at: char)
    requires at !in s
    ensures SplitOn(s + [at] + rest, at) == [s] + SplitOn(rest, at)
  {
    var whole := s + [at] + rest;
    if s == [] {
      assert whole[1..] == rest;
    } else {
      assert whole[1..] == s[1..] + [at] + rest;
      SplitAfter(s[1..], rest, at);
      assert [s[0]] + s[1..] == s;
    }
  }

  lemma {:induction false} SplitNone(s: string, at: char)
    requires at !in s
    ensures SplitOn(s, at) == [s]
  {
    if s != [] {
      SplitNone(s[1..], at);
      assert [s[0]] + s[1..] == s;
    }
  }

  /** Splitting undoes joining. */
  lemma {:induction false} SplitJoin(pieces: seq<string>, at: char)
    requires pieces != [] && forall p :: p in pieces ==> at !in p
    ensures SplitOn(JoinWith(pieces, at), at) == pieces
  {
    assert pieces[0] in pieces;
    if |pieces| == 1 {
      SplitNone(pieces[0], at);
    } else {
      SplitAfter(pieces[0], JoinWith(pieces[1..], at), at);
      SplitJoin(pieces[1..], at);
    }
  }
}
