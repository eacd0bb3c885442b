/**
 * A whole log whose decoding depends on where it is cut: a header, an error
 * record that defines string 5, and a group record that leaves group 5 for a
 * new group 5 (packages/plugin-gatling/src/header.ts, record-decoder.ts, stream.ts).
 */
module RebindingLog {
  import opened Bytes
  import opened Feed
  import opened SimulationLog
  import opened StreamingDecoder

  const ZERO: seq<byte> := [0, 0, 0, 0]
  const TWO: seq<byte> := [0, 0, 0, 2]
  const BACK_TO_5: seq<byte> := [255, 255, 255, 251]

  /** String 5, given as the one letter `x`. */
  function Defines5(x: byte): seq<byte> { [0, 0, 0, 5, 0, 0, 0, 1, x, 0] }

  /** An empty version, simulation and description, no scenarios and no assertions. */
  function MinimalHeader(rest: seq<byte>): seq<byte>
  {
    [0] + (ZERO + (ZERO + (ZERO + (ZERO + (ZERO + (ZERO + (ZERO + rest)))))))
  }

  function ErrorRecord(rest: seq<byte>): seq<byte> { [4] + (Defines5(97) + (ZERO + rest)) }

  function GroupRecord(rest: seq<byte>): seq<byte>
  {
    [3] + (TWO + (BACK_TO_5 + (Defines5(98) + (ZERO + (ZERO + (ZERO + ([1] + rest)))))))
  }

  const LOG: seq<byte> := MinimalHeader(ErrorRecord(GroupRecord([])))

  // ----- What each field reads as -----

  lemma FourBytes(s: seq<byte>)
    requires |s| == 4
    ensures var n := 0x100_0000 * (s[0] as int) + 0x1_0000 * (s[1] as int) + 0x100 * (s[2] as int) + (s[3] as int);
            BigEndianSigned(s) == if s[0] < 128 then n else n - 0x1_0000_0000
  {
    assert s[..3][..2][..1][..0] == [];
    assert BigEndian(s[..3][..2][..1]) == s[0];
    assert BigEndian(s[..3][..2]) == 256 * (s[0] as int) + (s[1] as int);
    assert BigEndian(s[..3]) == 0x1_0000 * (s[0] as int) + 0x100 * (s[1] as int) + (s[2] as int);
    assert Power(256, 1) == 256;
    assert Power(256, 3) == 0x100_0000;
  }

  lemma {:induction false} AllZero(s: seq<byte>)
    requires forall i :: 0 <= i < |s| ==> s[i] == 0
    ensures BigEndian(s) == 0
  {
    if s != [] { AllZero(s[..|s| - 1]); }
  }

  lemma FirstFour(word: seq<byte>, rest: seq<byte>)
    requires |word| == 4
    ensures (word + rest)[..4] == word && (word + rest)[4..] == rest
  {
  }

  lemma Word(word: seq<byte>, rest: seq<byte>, c: Cache, f: Field)
    requires |word| == 4 && (f.Int32? || f.Many?)
    ensures (word + rest)[4..] == rest && ReadField(word + rest, c, f) == Done(Num(BigEndianSigned(word)), 4, c)
  {
    FirstFour(word, rest);
  }

  lemma EmptyText(rest: seq<byte>, c: Cache)
    ensures (ZERO + rest)[4..] == rest && ReadField(ZERO + rest, c, Inline) == Done(Str([]), 4, c)
  {
    FirstFour(ZERO, rest);
    FourBytes(ZERO);
  }

  lemma ZeroLong(rest: seq<byte>, c: Cache)
    ensures (ZERO + (ZERO + rest))[8..] == rest
    ensures ReadField(ZERO + (ZERO + rest), c, Int64) == Done(Num(0), 8, c)
  {
    var eight := (ZERO + (ZERO + rest))[..8];
    assert eight == [0, 0, 0, 0, 0, 0, 0, 0];
    AllZero(eight);
  }

  lemma OneByte(b: byte, rest: seq<byte>, c: Cache)
    requires b < 128
    ensures ([b] + rest)[1..] == rest && ReadField([b] + rest, c, Octet) == Done(Num(b), 1, c)
  {
    assert ([b] + rest)[..1] == [b] && [b][..0] == [];
    assert BigEndian([b]) == b;
    assert Power(256, 1) == 256;
  }

  lemma Back(rest: seq<byte>, c: Cache)
    requires 5 in c
    ensures (BACK_TO_5 + rest)[4..] == rest
    ensures ReadField(BACK_TO_5 + rest, c, Cached) == Done(Str(c[5]), 4, c)
    ensures AccessOf(BACK_TO_5 + rest, Cached) == Reference(5)
  {
    FirstFour(BACK_TO_5, rest);
    FourBytes(BACK_TO_5);
  }

  lemma Defines(x: byte, rest: seq<byte>, c: Cache)
    ensures (Defines5(x) + rest)[10..] == rest
    ensures ReadField(Defines5(x) + rest, c, Cached) == Done(Str([x]), 10, c[5 := [x]])
    ensures AccessOf(Defines5(x) + rest, Cached) == Definition(5)
  {
    var q := Defines5(x) + rest;
    FourBytes(q[..4]);
    var inline := q[4..];
    FourBytes(inline[..4]);
    assert inline[..4] == [0, 0, 0, 1] && inline[4..5] == [x];
    assert Latin1([x]) == [x];
    assert ReadInline(inline, c) == Done(Str([x]), 6, c);
  }

  // ----- What each record reads as -----

  /** The fields take `n` bytes and leave cache `d`. */
  predicate Reads(r: seq<byte>, c: Cache, fs: seq<Field>, n: nat, d: Cache)
  {
    var out := ReadFields(r, c, fs);
    out.Done? && out.used == n && out.cache == d
  }

  /** A field, then the fields after it. */
  lemma Then(r: seq<byte>, c: Cache, fs: seq<Field>, first: Reading<Value>, n: nat, d: Cache)
    requires fs != [] && first.Done? && ReadField(r, c, fs[0]) == first
    requires Reads(r[first.used..], first.cache, Rest(fs, first.value), n, d)
    ensures Reads(r, c, fs, first.used + n, d)
  {
  }

  /** A whole header is one step. */
  lemma HeaderTakes(r: seq<byte>, n: nat, d: Cache)
    requires ReadField(r, map[], Octet) == Done(Num(0), 1, map[]) && Reads(r[1..], map[], HEADER_FIELDS, n, d)
    ensures var out := LogStep(r, START);
      out.Took? && out.used == 1 + n && out.next.header.Some? && out.next.cache == map[]
  {
  }

  /** So is a whole record of a kind that names no scenario. */
  lemma RecordTakes(r: seq<byte>, s: DecodeState, kind: int, n: nat, d: Cache)
    requires s.header.Some? && kind != 2 && Shape(kind).Some?
               && ReadField(r, s.cache, Octet) == Done(Num(kind), 1, s.cache)
    requires Reads(r[1..], s.cache, Shape(kind).value, n, d)
    ensures var out := LogStep(r, s);
      out.Took? && out.used == 1 + n && out.next.header == s.header && out.next.cache == d
  {
    var vs := ReadFields(r[1..], s.cache, Shape(kind).value).value;
    FieldsFit(r[1..], s.cache, Shape(kind).value);
    assert ToEvent(kind, vs, s.header.value, s.users).Some?;
  }

  /** The two lists a header ends in, both empty. */
  lemma ListsRead(rest: seq<byte>, c: Cache)
    ensures Reads(ZERO + (ZERO + rest), c, [Many(Inline), Many(Payload)], 8, c)
  {
    var tail := ZERO + rest;
    FourBytes(ZERO);
    Word(ZERO, tail, c, Many(Inline));
    Word(ZERO, rest, c, Many(Payload));
    assert Rest([Many(Payload)], Num(0)) == [];
    Then(tail, c, [Many(Payload)], Done(Num(0), 4, c), 0, c);
    assert Rest([Many(Inline), Many(Payload)], Num(0)) == [Many(Payload)];
    Then(ZERO + tail, c, [Many(Inline), Many(Payload)], Done(Num(0), 4, c), 4, c);
  }

  /** The start time and the description before them. */
  lemma MiddleReads(rest: seq<byte>, c: Cache)
    ensures var r := ZERO + (ZERO + (ZERO + (ZERO + (ZERO + rest))));
      Reads(r, c, [Int64, Inline, Many(Inline), Many(Payload)], 20, c)
  {
    var lists := ZERO + (ZERO + rest);
    var text := ZERO + lists;
    ListsRead(rest, c);
    EmptyText(lists, c);
    assert [Inline, Many(Inline), Many(Payload)][1..] == [Many(Inline), Many(Payload)];
    Then(text, c, [Inline, Many(Inline), Many(Payload)], Done(Str([]), 4, c), 8, c);
    ZeroLong(text, c);
    assert [Int64, Inline, Many(Inline), Many(Payload)][1..] == [Inline, Many(Inline), Many(Payload)];
    Then(ZERO + (ZERO + text), c, [Int64, Inline, Many(Inline), Many(Payload)], Done(Num(0), 8, c), 12, c);
  }

  lemma HeaderFieldsRead(rest: seq<byte>, c: Cache)
    ensures Reads(ZERO + (ZERO + (ZERO + (ZERO + (ZERO + (ZERO + (ZERO + rest)))))), c, HEADER_FIELDS, 28, c)
  {
    var middle := ZERO + (ZERO + (ZERO + (ZERO + (ZERO + rest))));
    MiddleReads(rest, c);
    EmptyText(middle, c);
    EmptyText(ZERO + middle, c);
    var later := [Int64, Inline, Many(Inline), Many(Payload)];
    assert ([Inline] + later)[1..] == later && HEADER_FIELDS[1..] == [Inline] + later;
    Then(ZERO + middle, c, [Inline] + later, Done(Str([]), 4, c), 20, c);
    Then(ZERO + (ZERO + middle), c, HEADER_FIELDS, Done(Str([]), 4, c), 24, c);
  }

  lemma HeaderStep(rest: seq<byte>)
    ensures var out := LogStep(MinimalHeader(rest), START);
      out.Took? && out.used == 29 && out.next.header.Some? && out.next.cache == map[]
    ensures MinimalHeader(rest)[29..] == rest
  {
    OneByte(0, ZERO + (ZERO + (ZERO + (ZERO + (ZERO + (ZERO + (ZERO + rest)))))), map[]);
    HeaderFieldsRead(rest, map[]);
    HeaderTakes(MinimalHeader(rest), 28, map[]);
  }

  lemma ErrorFieldsRead(rest: seq<byte>, c: Cache)
    ensures Reads(Defines5(97) + (ZERO + rest), c, [Cached, Int32], 14, c[5 := [97]])
  {
    var d := c[5 := [97]];
    FourBytes(ZERO);
    Word(ZERO, rest, d, Int32);
    assert [Int32][1..] == [] && [Cached, Int32][1..] == [Int32];
    Then(ZERO + rest, d, [Int32], Done(Num(0), 4, d), 0, d);
    Defines(97, ZERO + rest, c);
    Then(Defines5(97) + (ZERO + rest), c, [Cached, Int32], Done(Str([97]), 10, d), 4, d);
  }

  lemma ErrorStep(rest: seq<byte>, s: DecodeState)
    requires s.header.Some?
    ensures var out := LogStep(ErrorRecord(rest), s);
      out.Took? && out.used == 15 && out.next.header.Some? && out.next.cache == s.cache[5 := [97]]
    ensures ErrorRecord(rest)[15..] == rest
  {
    OneByte(4, Defines5(97) + (ZERO + rest), s.cache);
    ErrorFieldsRead(rest, s.cache);
    RecordTakes(ErrorRecord(rest), s, 4, 14, s.cache[5 := [97]]);
  }

  const GROUP_TAIL: seq<Field> := [Int32, Int32, Int32, Octet]

  /** The two times, the cumulated time and the flag a group record ends in. */
  lemma GroupTailReads(rest: seq<byte>, c: Cache)
    ensures Reads(ZERO + (ZERO + (ZERO + ([1] + rest))), c, GROUP_TAIL, 13, c)
  {
    var flag: seq<byte> := [1] + rest;
    var zero: Reading<Value> := Done(Num(0), 4, c);
    FourBytes(ZERO);
    OneByte(1, rest, c);
    Word(ZERO, flag, c, Int32);
    Word(ZERO, ZERO + flag, c, Int32);
    Word(ZERO, ZERO + (ZERO + flag), c, Int32);
    assert [Octet][1..] == [] && [Int32, Octet][1..] == [Octet] && [Int32, Int32, Octet][1..] == [Int32, Octet]
        && GROUP_TAIL[1..] == [Int32, Int32, Octet];
    Then(flag, c, [Octet], Done(Num(1), 1, c), 0, c);
    Then(ZERO + flag, c, [Int32, Octet], zero, 1, c);
    Then(ZERO + (ZERO + flag), c, [Int32, Int32, Octet], zero, 5, c);
    Then(ZERO + (ZERO + (ZERO + flag)), c, GROUP_TAIL, zero, 9, c);
  }

  /** The two group names: the old string 5, then the new one. */
  lemma NamesRead(rest: seq<byte>, c: Cache, n: nat)
    requires 5 in c && Reads(rest, c[5 := [98]], GROUP_TAIL, n, c[5 := [98]])
    ensures Reads(BACK_TO_5 + (Defines5(98) + rest), c, [Cached, Cached] + GROUP_TAIL, 14 + n, c[5 := [98]])
  {
    var named, d := Defines5(98) + rest, c[5 := [98]];
    Back(named, c);
    Defines(98, rest, c);
    assert ([Cached] + GROUP_TAIL)[1..] == GROUP_TAIL && ([Cached, Cached] + GROUP_TAIL)[1..] == [Cached] + GROUP_TAIL;
    Then(named, c, [Cached] + GROUP_TAIL, Done(Str([98]), 10, d), n, d);
    Then(BACK_TO_5 + named, c, [Cached, Cached] + GROUP_TAIL, Done(Str(c[5]), 4, c), 10 + n, d);
  }

  lemma CountReads(rest: seq<byte>, c: Cache)
    ensures ReadField(TWO + rest, c, Many(Cached)) == Done(Num(2), 4, c) && (TWO + rest)[4..] == rest
    ensures Shape(3) == Some([Many(Cached)] + GROUP_TAIL)
    ensures Rest([Many(Cached)] + GROUP_TAIL, Num(2)) == [Cached, Cached] + GROUP_TAIL
  {
    FourBytes(TWO);
    Word(TWO, rest, c, Many(Cached));
    assert Repeat(Cached, 2) == [Cached, Cached];
    assert [Many(Cached)] + GROUP_TAIL == [Many(Cached), Int32, Int32, Int32, Octet];
    assert ([Many(Cached)] + GROUP_TAIL)[1..] == GROUP_TAIL;
  }

  /** What follows a group record's type byte and count. */
  function Names(rest: seq<byte>): seq<byte> { BACK_TO_5 + (Defines5(98) + (ZERO + (ZERO + (ZERO + ([1] + rest))))) }

  lemma GroupStep(rest: seq<byte>, s: DecodeState)
    requires s.header.Some? && 5 in s.cache
    ensures var out := LogStep(GroupRecord(rest), s); out.Took? && out.used == 32
  {
    var c := s.cache;
    var d := c[5 := [98]];
    GroupTailReads(rest, d);
    NamesRead(ZERO + (ZERO + (ZERO + ([1] + rest))), c, 13);
    CountReads(Names(rest), c);
    assert Reads(Names(rest), c, [Cached, Cached] + GROUP_TAIL, 27, d);
    GroupTakes(Names(rest), s, 27, d);
  }

  lemma GroupTakes(names: seq<byte>, s: DecodeState, n: nat, d: Cache)
    requires s.header.Some? && Reads(names, s.cache, [Cached, Cached] + GROUP_TAIL, n, d)
    ensures var out := LogStep([3] + (TWO + names), s); out.Took? && out.used == 5 + n
  {
    CountReads(names, s.cache);
    Then(TWO + names, s.cache, [Many(Cached)] + GROUP_TAIL, Done(Num(2), 4, s.cache), n, d);
    OneByte(3, TWO + names, s.cache);
    RecordTakes([3] + (TWO + names), s, 3, 4 + n, d);
  }

  // ----- And why it is not clean -----

  /** A reference to string 5, then another string 5. */
  lemma RebindingIsNotClean(rest: seq<byte>, c: Cache, fs: seq<Field>)
    requires 5 in c && c[5] != [98] && fs != []
    ensures !Clean(BACK_TO_5 + (Defines5(98) + rest), c, [Cached, Cached] + fs, {})
  {
    Back(Defines5(98) + rest, c);
    Defines(98, rest, c);
    assert ([Cached, Cached] + fs)[1..] == [Cached] + fs && ([Cached] + fs)[1..] == fs;
    assert !Unrebound(Defines5(98) + rest, c, [Cached] + fs, 5, c[5]);
  }

  lemma GroupIsNotClean(rest: seq<byte>, s: DecodeState)
    requires s.header.Some? && 5 in s.cache && s.cache[5] != [98]
    ensures !CleanStep(GroupRecord(rest), s)
  {
    OneByte(3, TWO + Names(rest), s.cache);
    CountReads(Names(rest), s.cache);
    RebindingIsNotClean(ZERO + (ZERO + (ZERO + ([1] + rest))), s.cache, GROUP_TAIL);
    assert !Clean(TWO + Names(rest), s.cache, [Many(Cached)] + GROUP_TAIL, {});
  }

  /** From a record that is not clean on, and from before it. */
  lemma NotEverywhere(r: seq<byte>, s: DecodeState)
    requires Progress(LogStep) && LogStep(r, s).Took?
    requires var out := LogStep(r, s); !CleanStep(r, s) || !Everywhere(LogStep, CleanStep, r[out.used..], out.next)
    ensures !Everywhere(LogStep, CleanStep, r, s)
  {
  }

  lemma RunsOn(r: seq<byte>, s: DecodeState)
    requires Progress(LogStep) && LogStep(r, s).Took?
    requires var out := LogStep(r, s); Run(LogStep, r[out.used..], out.next).end == AtEnd
    ensures Run(LogStep, r, s).end == AtEnd
  {
  }

  /**
   * The log is complete: the pull parser reads it to its end. Its third record
   * is not clean, so some way of cutting it makes the feed decode it to
   * something else.
   */
  lemma WholeLogIsNotClean()
    ensures Pull(LOG).end == AtEnd && !CleanLog(LOG)
    ensures exists chunks: seq<seq<byte>> :: Concat(chunks) == LOG && Fed(chunks).items != Pull(LOG).items
  {
    StepProgresses();
    var group := GroupRecord([]);
    var errors := ErrorRecord(group);
    HeaderStep(errors);
    var first := LogStep(LOG, START).next;
    ErrorStep(group, first);
    var second := LogStep(errors, first).next;
    GroupStep([], second);
    assert group[32..] == [];
    GroupIsNotClean([], second);
    NotEverywhere(group, second);
    NotEverywhere(errors, first);
    NotEverywhere(LOG, START);
    RunsOn(group, second);
    RunsOn(errors, first);
    RunsOn(LOG, START);
    var chunks := UncleanLogSomeChunks(LOG);
  }
}
