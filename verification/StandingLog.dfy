/**
 * A log the decoder never comes back from: a header, then an error record whose
 * message has length -14, which takes the reader back to where the record began
 * (packages/plugin-gatling/src/reader.ts, stream.ts, records.ts).
 */
module StandingLog {
  import opened Bytes
  import opened BinaryReader
  import opened Feed
  import opened RebindingLog
  import opened SimulationLog
  import opened StreamingDecoder

  const MINUS_14: seq<byte> := [255, 255, 255, 242]

  const STANDING: seq<byte> := MinimalHeader([4] + (ZERO + MINUS_14))

  lemma HeaderIsZeros(rest: seq<byte>)
    ensures |MinimalHeader(rest)| == 29 + |rest| && forall i :: 0 <= i < 29 ==> MinimalHeader(rest)[i] == 0
    ensures MinimalHeader(rest)[29..] == rest
  {
  }

  lemma FourFrom(s: seq<byte>, at: nat, word: seq<byte>)
    requires |word| == 4 && at + 4 <= |s| && forall i :: 0 <= i < 4 ==> s[at + i] == word[i]
    ensures IntAt(s, at) == BigEndianSigned(word)
  {
    assert s[at..at + 4] == word;
  }

  lemma TheBytes()
    ensures |STANDING| == 38 && STANDING[29] == 4
    ensures forall i :: 0 <= i < 4 ==>
              STANDING[25 + i] == ZERO[i] == STANDING[30 + i] && STANDING[34 + i] == MINUS_14[i]
  {
    var rest: seq<byte> := [4] + (ZERO + MINUS_14);
    HeaderIsZeros(rest);
    assert forall i :: 0 <= i < 9 ==> STANDING[29 + i] == STANDING[29..][i] == rest[i];
  }

  lemma TheIntegers()
    ensures |STANDING| == 38 && STANDING[29] == 4
    ensures IntAt(STANDING, 25) == 0 && IntAt(STANDING, 30) == 0 && IntAt(STANDING, 34) == -14
  {
    TheBytes();
    FourBytes(ZERO);
    FourBytes(MINUS_14);
    FourFrom(STANDING, 25, ZERO);
    FourFrom(STANDING, 30, ZERO);
    FourFrom(STANDING, 34, MINUS_14);
  }

  /** The fields of that record: one string, 13 bytes back and none forward; then the time, from the header's zeros. */
  lemma MessageGoesBack(c: Cache)
    ensures FieldAt(STANDING, 30, c, Cached) == DoneAt(Str([]), 25, c[0 := []])
    ensures FieldAt(STANDING, 25, c[0 := []], Int32) == DoneAt(Num(0), 29, c[0 := []])
  {
    TheIntegers();
  }

  lemma FieldsStand(c: Cache)
    ensures Flat([Cached, Int32])
    ensures var out := FieldsAt(STANDING, 30, c, [Cached, Int32]); out.DoneAt? && out.next == 29
  {
    var d := c[0 := []];
    var read := ReaderOf(STANDING);
    MessageGoesBack(c);
    assert read(30, c, Cached) == DoneAt(Str([]), 25, d) && read(25, d, Int32) == DoneAt(Num(0), 29, d);
    assert [Cached, Int32][1..] == [Int32] && [Int32][1..] == [];
    FirstBy(read, 25, d, [Int32]);
    FirstBy(read, 30, c, [Cached, Int32]);
  }

  lemma TypeByte(c: Cache)
    ensures FieldAt(STANDING, 29, c, Octet) == DoneAt(Num(4), 30, c)
  {
    TheBytes();
    assert STANDING[29..30] == [STANDING[29]];
    OneByte(4, [], c);
    assert [4] + [] == [4];
    assert ([4] + [])[..1] == STANDING[29..30];
  }

  /** Whatever the cache holds by then, the record is read and the reader stands where it stood. */
  lemma TurnStands(s: DecodeState)
    requires s.header.Some?
    ensures var turn := TurnAt(STANDING, 29, s); turn.Moved? && turn.next == 29 && turn.state.header == s.header
  {
    TypeByte(s.cache);
    FieldsStand(s.cache);
    FieldsAtFit(STANDING, 30, s.cache, [Cached, Int32]);
    var vs := FieldsAt(STANDING, 30, s.cache, [Cached, Int32]).value;
    assert Shape(4) == Some([Cached, Int32]);
    assert ToEvent(4, vs, s.header.value, s.users).Some?;
  }

  lemma {:induction false} Stands(s: DecodeState, turns: nat)
    requires s.header.Some?
    ensures var p := RunAt(STANDING, 29, s, turns); p.how == StillGoing && p.at == 29 && |p.items| == turns
    decreases turns
  {
    TheIntegers();
    if turns > 0 {
      TurnStands(s);
      var turn := TurnAt(STANDING, 29, s);
      assert TurnsOf(STANDING)(29, s) == turn;
      Stands(turn.state, turns - 1);
    }
  }

  lemma HeaderIsRead() returns (next: DecodeState)
    ensures TurnAt(STANDING, 0, START).Moved? && TurnAt(STANDING, 0, START).next == 29
    ensures TurnAt(STANDING, 0, START).state == next && next.header.Some?
  {
    var rest: seq<byte> := [4] + (ZERO + MINUS_14);
    HeaderStep(rest);
    assert STANDING[0..] == STANDING;
    TurnAgrees(STANDING, 0, START);
    assert TurnsOf(STANDING)(0, START) == TurnAt(STANDING, 0, START);
    next := TurnAt(STANDING, 0, START).state;
  }

  /**
   * However long it is watched, the decoder is still going: an event for every
   * turn, and no end. So the truncation of this log never comes back.
   */
  lemma NeverComesBack(turns: nat)
    ensures RunAt(STANDING, 0, START, turns).how == StillGoing && |RunAt(STANDING, 0, START, turns).items| == turns
    ensures CutAfter(STANDING, turns) == Unfinished
  {
    TheIntegers();
    if turns > 0 {
      var next := HeaderIsRead();
      assert TurnsOf(STANDING)(0, START) == TurnAt(STANDING, 0, START);
      Stands(next, turns - 1);
    }
  }
}
