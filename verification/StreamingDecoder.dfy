/**
 * The append-only decoder (packages/plugin-gatling/src/stream.ts) and the
 * truncation built on it (truncate.ts), against the pull parser.
 *
 * The source rewinds its position when a record is cut short but keeps the
 * string cache the interrupted read left behind, and says re-reading is
 * idempotent. It is, except when a record refers back to a string and redefines
 * that same string further on: then the second read sees the new string. The
 * lemmas below give the exact condition.
 */
module StreamingDecoder {
  import opened Bytes
  import opened Feed
  import opened SimulationLog
  import BinaryReader

  // ----- Truncation to whole records -----

  /** The reader meets no string of negative length in these bytes; Gatling writes none. */
  predicate Forward(bytes: seq<byte>) { Pull(bytes).end != Failed(GoesBack) }

  /** `truncateToWholeRecords` of such bytes: the consumed prefix of one push, or None when the push throws. */
  function Truncate(bytes: seq<byte>): (whole: Option<seq<byte>>)
  {
    var log := Pull(bytes);
    if log.end.Failed? then None else Some(bytes[..log.used])
  }

  datatype Cut = Whole(log: seq<byte>) | Refused | Unfinished

  /** `truncateToWholeRecords` of any bytes, watched for so many records: it need not have come back. */
  function CutAfter(bytes: seq<byte>, turns: nat): (cut: Cut)
  {
    var p := BinaryReader.RunAt(bytes, 0, START, turns);
    match p.how
    case Threw(_) => Refused
    case StillGoing => Unfinished
    case _ => Whole(if p.at >= |bytes| then bytes else bytes[..p.at])
  }

  function AsCut(whole: Option<seq<byte>>): Cut { if whole.Some? then Whole(whole.value) else Refused }

  lemma CutIsTruncate(bytes: seq<byte>, turns: nat)
    requires Forward(bytes) && |bytes| <= turns
    ensures CutAfter(bytes, turns) == AsCut(Truncate(bytes))
  {
    StepProgresses();
    if bytes == [] {
      assert bytes[..0] == [];
    } else {
      BinaryReader.RunAgrees(bytes, START, turns);
      TakeAll(bytes);
    }
  }

  /** Whenever it comes back from such bytes, it comes back with that. */
  lemma FinishedIsTruncate(bytes: seq<byte>, turns: nat)
    requires Forward(bytes) && CutAfter(bytes, turns) != Unfinished
    ensures CutAfter(bytes, turns) == AsCut(Truncate(bytes))
  {
    var more := if |bytes| <= turns then turns else |bytes|;
    BinaryReader.LoopLonger(BinaryReader.TurnsOf(bytes), |bytes|, 0, START, turns, more);
    CutIsTruncate(bytes, more);
  }

  /** A cut is a prefix. */
  lemma CutIsPrefix(bytes: seq<byte>, turns: nat)
    ensures CutAfter(bytes, turns).Whole? ==> CutAfter(bytes, turns).log <= bytes
  {
  }

  /** What begins such bytes is such too. */
  lemma ForwardPrefix(bytes: seq<byte>, n: nat)
    requires Forward(bytes) && n <= |bytes|
    ensures Forward(bytes[..n])
  {
    StepProgresses();
    StepExtends();
    TakeDrop(bytes, n);
    if n > 0 && Pull(bytes[..n]).end.Failed? { RunFails(LogStep, bytes[..n], bytes[n..], START); }
  }

  lemma PullCut(bytes: seq<byte>, n: nat)
    requires !Pull(bytes).end.Failed? && 0 < n && Pull(bytes).used <= n <= |bytes|
    ensures var whole, part := Pull(bytes), Pull(bytes[..n]);
            && part.items == whole.items && part.used == whole.used
            && part.end == (if n == whole.used then AtEnd else CutShort)
  {
    StepProgresses();
    StepExtends();
    assert bytes == bytes[..n] + bytes[n..];
    RunCut(LogStep, bytes[..n], bytes[n..], START);
  }

  /**
   * What a truncated log is: a prefix the pull parser reads to its end, giving
   * the very events the feed decoded; no longer prefix reads to its end;
   * truncating again changes nothing; a log comes back unchanged exactly when
   * the pull parser reads all of it.
   */
  lemma TruncateIsLongestWholeLog(bytes: seq<byte>)
    requires Truncate(bytes).Some?
    ensures var whole := Truncate(bytes).value;
      && whole <= bytes
      && (whole != [] ==> Pull(whole).end == AtEnd && Pull(whole).items == Pull(bytes).items)
      && (forall n :: |whole| < n <= |bytes| ==> Pull(bytes[..n]).end == CutShort)
      && Truncate(whole) == Some(whole)
      && (whole == bytes <==> bytes == [] || Pull(bytes).end == AtEnd)
  {
    var used := Pull(bytes).used;
    var whole := bytes[..used];
    if used > 0 { PullCut(bytes, used); }
    forall n | used < n <= |bytes| ensures Pull(bytes[..n]).end == CutShort { PullCut(bytes, n); }
    assert whole[..|whole|] == whole;
  }

  // ----- Re-reading a record whose first read ran short -----

  /** What reading a field does with the cache, seen from the field's first four bytes. */
  datatype Access = Neither | Definition(index: int) | Reference(index: int)

  function AccessOf(r: seq<byte>, f: Field): Access
  {
    if f != Cached || |r| < 4 then Neither
    else
      var i := BigEndianSigned(r[..4]);
      if i >= 0 then Definition(i) else Reference(-i)
  }

  /** The strings a record has defined itself, after one more field. */
  function Own(access: Access, own: set<int>): set<int>
  {
    if access.Definition? then own + {access.index} else own
  }

  /**
   * Reading `fs` from cache `c` ran short and left `d`. Stable: every reference
   * to a string this record has not itself defined sees what `d` holds.
   */
  predicate Stable(r: seq<byte>, c: Cache, d: Cache, fs: seq<Field>, own: set<int>)
    decreases |r|
  {
    fs == [] ||
    match ReadField(r, c, fs[0])
    case Done(v, n, c1) =>
      var access := AccessOf(r, fs[0]);
      && (access.Reference? && access.index !in own ==> access.index in d && d[access.index] == v.text)
      && Stable(r[n..], c1, d, Rest(fs, v), Own(access, own))
    case _ => true
  }

  /** Cache `x` of a second read beside cache `c` of the first, which ended at `d`. */
  ghost predicate Between(x: Cache, c: Cache, d: Cache, own: set<int>)
  {
    && (forall k :: k in own ==> k in x && k in c && x[k] == c[k])
    && (forall k :: k !in own ==> (k in x <==> k in d) && (k in x && k in d ==> x[k] == d[k]))
  }

  lemma {:induction false} CacheOnlyGrows(r: seq<byte>, c: Cache, fs: seq<Field>)
    ensures ReadFields(r, c, fs).Short? ==> c.Keys <= ReadFields(r, c, fs).dirty.Keys
    decreases |r|
  {
    if fs != [] {
      match ReadField(r, c, fs[0])
      case Done(v, n, c1) => CacheOnlyGrows(r[n..], c1, Rest(fs, v));
      case _ =>
    }
  }

  lemma PrefixRead(r: seq<byte>, p: seq<byte>, c: Cache, f: Field)
    requires p <= r && ReadField(p, c, f).Done?
    ensures ReadField(r, c, f) == ReadField(p, c, f)
    ensures AccessOf(r, f) == AccessOf(p, f)
    ensures p[ReadField(p, c, f).used..] <= r[ReadField(p, c, f).used..]
  {
    assert r == p + r[|p|..];
    FieldExtends(p, r[|p|..], c, f);
    if f.Cached? { assert r[..4] == p[..4]; }
  }

  lemma BetweenAtEnd(x: Cache, c: Cache, own: set<int>)
    requires Between(x, c, c, own)
    ensures x == c
  {
    forall k ensures (k in x <==> k in c) && (k in x && k in c ==> x[k] == c[k]) {
      if k in own { assert x[k] == c[k]; } else { assert k in x <==> k in c; }
    }
  }

  /** One field of a second read beside the same field of the first. */
  lemma RereadStep(r: seq<byte>, c: Cache, x: Cache, d: Cache, f: Field, own: set<int>)
    requires ReadField(r, c, f).Done? && Between(x, c, d, own)
    requires AccessOf(r, f).Reference? && AccessOf(r, f).index !in own ==>
               AccessOf(r, f).index in d && d[AccessOf(r, f).index] == ReadField(r, c, f).value.text
    ensures var first, second := ReadField(r, c, f), ReadField(r, x, f);
      second.Done? && second.value == first.value && second.used == first.used
      && Between(second.cache, first.cache, d, Own(AccessOf(r, f), own))
  {
    var access := AccessOf(r, f);
    if access.Definition? {
      var t := ReadInline(r[4..], c).value.text;
      assert ReadField(r, c, f).cache == c[access.index := t] && ReadField(r, x, f).cache == x[access.index := t];
    }
  }

  lemma SameTailsSameFields(q: seq<byte>, c: Cache, x: Cache, fs: seq<Field>)
    requires fs != [] && ReadField(q, c, fs[0]).Done? && ReadField(q, x, fs[0]).Done?
    requires ReadField(q, x, fs[0]).value == ReadField(q, c, fs[0]).value
    requires ReadField(q, x, fs[0]).used == ReadField(q, c, fs[0]).used
    requires var out := ReadField(q, c, fs[0]);
      var fs1 := Rest(fs, out.value);
      ReadFields(q[out.used..], ReadField(q, x, fs[0]).cache, fs1) == ReadFields(q[out.used..], out.cache, fs1)
    ensures ReadFields(q, x, fs) == ReadFields(q, c, fs)
  {
  }

  /** A stable cut is invisible: reading again from the cache it left gives what a first read gives. */
  lemma {:induction false} RereadAgrees(
      r: seq<byte>, e: seq<byte>, c: Cache, x: Cache, fs: seq<Field>, own: set<int>)
    requires ReadFields(r, c, fs).Short?
    requires Between(x, c, ReadFields(r, c, fs).dirty, own)
    requires Stable(r, c, ReadFields(r, c, fs).dirty, fs, own)
    ensures ReadFields(r + e, x, fs) == ReadFields(r + e, c, fs)
    decreases |r|
  {
    var d := ReadFields(r, c, fs).dirty;
    var out := ReadField(r, c, fs[0]);
    if out.Done? {
      var n, fs1, access := out.used, Rest(fs, out.value), AccessOf(r, fs[0]);
      RereadStep(r, c, x, d, fs[0], own);
      var again := ReadField(r, x, fs[0]);
      PrefixRead(r + e, r, c, fs[0]);
      PrefixRead(r + e, r, x, fs[0]);
      DropOfSum(r, e, n);
      RereadAgrees(r[n..], e, out.cache, again.cache, fs1, Own(access, own));
      SameTailsSameFields(r + e, c, x, fs);
    } else {
      BetweenAtEnd(x, c, own);
    }
  }

  // ----- Which records are safe to cut -----

  /** In what is left of a record, string `i` is only ever redefined as `t`, its last field excepted. */
  predicate Unrebound(r: seq<byte>, c: Cache, fs: seq<Field>, i: int, t: Text)
    decreases |r|
  {
    fs == [] ||
    match ReadField(r, c, fs[0])
    case Done(v, n, c1) =>
      && (AccessOf(r, fs[0]) == Definition(i) && Rest(fs, v) != [] ==> v == Str(t))
      && Unrebound(r[n..], c1, Rest(fs, v), i, t)
    case _ => true
  }

  /** No string is referred to, before the record defines it itself, and then redefined. */
  predicate Clean(r: seq<byte>, c: Cache, fs: seq<Field>, own: set<int>)
    decreases |r|
  {
    fs == [] ||
    match ReadField(r, c, fs[0])
    case Done(v, n, c1) =>
      var access := AccessOf(r, fs[0]);
      && (access.Reference? && access.index !in own ==> Unrebound(r[n..], c1, Rest(fs, v), access.index, v.text))
      && Clean(r[n..], c1, Rest(fs, v), Own(access, own))
    case _ => true
  }

  lemma {:induction false} UnreboundKeeps(
      r: seq<byte>, p: seq<byte>, c: Cache, fs: seq<Field>, i: int, t: Text)
    requires p <= r && ReadFields(p, c, fs).Short?
    requires i in c && c[i] == t && Unrebound(r, c, fs, i, t)
    ensures var d := ReadFields(p, c, fs).dirty; i in d && d[i] == t
    decreases |p|
  {
    var out := ReadField(p, c, fs[0]);
    if out.Done? {
      PrefixRead(r, p, c, fs[0]);
      UnreboundKeeps(r[out.used..], p[out.used..], out.cache, Rest(fs, out.value), i, t);
    }
  }

  lemma {:induction false} CleanIsStable(r: seq<byte>, p: seq<byte>, c: Cache, fs: seq<Field>, own: set<int>)
    requires p <= r && ReadFields(p, c, fs).Short? && Clean(r, c, fs, own)
    ensures Stable(p, c, ReadFields(p, c, fs).dirty, fs, own)
    decreases |p|
  {
    var out := ReadField(p, c, fs[0]);
    if out.Done? {
      var n, fs1, access := out.used, Rest(fs, out.value), AccessOf(p, fs[0]);
      PrefixRead(r, p, c, fs[0]);
      if access.Reference? && access.index !in own {
        UnreboundKeeps(r[n..], p[n..], out.cache, fs1, access.index, out.value.text);
      }
      CleanIsStable(r[n..], p[n..], out.cache, fs1, Own(access, own));
    }
  }

  /** A whole record, from its type byte, that is safe to cut anywhere. */
  predicate CleanRecord(r: seq<byte>, c: Cache)
  {
    var kind := ReadField(r, c, Octet);
    kind.Done? && Shape(kind.value.n).Some? ==> Clean(r[1..], c, Shape(kind.value.n).value, {})
  }

  predicate CleanStep(r: seq<byte>, s: DecodeState)
  {
    s.header.Some? ==> CleanRecord(r, s.cache)
  }

  /** Every record of a log is safe to cut. */
  ghost predicate CleanLog(bytes: seq<byte>)
  {
    StepProgresses();
    Everywhere(LogStep, CleanStep, bytes, START)
  }

  /** A record read from two caches its fields do not tell apart. */
  lemma SameFieldsSameRecord(q: seq<byte>, x: Cache, c: Cache, h: Header, users: nat)
    requires q != []
    requires var shape := Shape(ReadField(q, c, Octet).value.n);
      shape.Some? ==> ReadFields(q[1..], x, shape.value) == ReadFields(q[1..], c, shape.value)
    ensures ReadRecord(q, c, h, users) == ReadRecord(q, x, h, users)
  {
    assert ReadField(q, x, Octet) == ReadField(q, c, Octet).(cache := x);
  }

  lemma FieldsResume(r: seq<byte>, p: seq<byte>, e: seq<byte>, c: Cache, fs: seq<Field>)
    requires p <= r && ReadFields(p, c, fs).Short? && Clean(r, c, fs, {})
    ensures ReadFields(p + e, ReadFields(p, c, fs).dirty, fs) == ReadFields(p + e, c, fs)
  {
    CleanIsStable(r, p, c, fs, {});
    RereadAgrees(p, e, c, ReadFields(p, c, fs).dirty, fs, {});
  }

  lemma RecordResumes(r: seq<byte>, p: seq<byte>, e: seq<byte>, c: Cache, h: Header, users: nat)
    requires p <= r && p != [] && ReadRecord(p, c, h, users).Short? && CleanRecord(r, c)
    ensures ReadRecord(p + e, ReadRecord(p, c, h, users).dirty, h, users) == ReadRecord(p + e, c, h, users)
  {
    ShortRecord(p, c, h, users);
    PrefixRead(r, p, c, Octet);
    PrefixRead(p + e, p, c, Octet);
    var fs := Shape(ReadField(p, c, Octet).value.n).value;
    FieldsResume(r[1..], p[1..], e, c, fs);
    DropOfSum(p, e, 1);
    SameFieldsSameRecord(p + e, ReadFields(p[1..], c, fs).dirty, c, h, users);
  }

  /** A record cut after its type byte is cut in its fields. */
  lemma ShortRecord(p: seq<byte>, c: Cache, h: Header, users: nat)
    requires p != [] && ReadRecord(p, c, h, users).Short?
    ensures var kind := ReadField(p, c, Octet);
      && kind.Done? && kind.used == 1 && Shape(kind.value.n).Some?
      && var out := ReadFields(p[1..], c, Shape(kind.value.n).value);
         out.Short? && ReadRecord(p, c, h, users).dirty == out.dirty
  {
  }

  lemma StepResumes(r: seq<byte>, p: seq<byte>, e: seq<byte>, s: DecodeState)
    requires p <= r && p != [] && LogStep(p, s).Wait? && CleanStep(r, s)
    ensures Resumes(LogStep, p, e, s, LogStep(p, s).left)
  {
    if s.header.Some? { RecordStepResumes(r, p, e, s, s.header.value); }
  }

  lemma RecordStepResumes(r: seq<byte>, p: seq<byte>, e: seq<byte>, s: DecodeState, h: Header)
    requires p <= r && p != [] && LogStep(p, s).Wait? && CleanRecord(r, s.cache) && s.header == Some(h)
    ensures Resumes(LogStep, p, e, s, LogStep(p, s).left)
  {
    var out := ReadRecord(p, s.cache, h, s.users);
    RecordResumes(r, p, e, s.cache, h, s.users);
    var left := s.(cache := out.dirty);
    assert LogStep(p, s).left == left;
    SameRecordSameStep(p + e, s, left, h);
  }

  lemma SameRecordSameStep(q: seq<byte>, s: DecodeState, t: DecodeState, h: Header)
    requires s.header == Some(h) && t == s.(cache := t.cache)
    requires ReadRecord(q, t.cache, h, t.users) == ReadRecord(q, s.cache, h, s.users)
    ensures LogStep(q, t) == LogStep(q, s)
  {
  }

  /** The events handed out when the log arrives in these chunks. */
  function Fed(chunks: seq<seq<byte>>): (log: Log<Event, DecodeState, Fault>)
  {
    StepProgresses();
    RunChunks(LogStep, [], START, chunks)
  }

  // ----- And a record that is not clean has a cut that changes what it decodes to -----

  lemma CutRead(r: seq<byte>, k: nat, c: Cache, f: Field)
    requires k <= |r| && ReadField(r, c, f).Done? && ReadField(r, c, f).used <= k
    ensures ReadField(r[..k], c, f) == ReadField(r, c, f)
    ensures AccessOf(r[..k], f) == AccessOf(r, f)
  {
    assert r == r[..k] + r[k..];
    FieldExtends(r[..k], r[k..], c, f);
    PrefixRead(r, r[..k], c, f);
  }

  /** Where a redefinition is: in this field, or further on. */
  lemma ReboundNext(r: seq<byte>, c: Cache, fs: seq<Field>, i: int, t: Text)
    requires ReadFields(r, c, fs).Done? && !Unrebound(r, c, fs, i, t)
    ensures fs != [] && ReadField(r, c, fs[0]).Done?
    ensures var out := ReadField(r, c, fs[0]);
      var fs1 := Rest(fs, out.value);
      || (AccessOf(r, fs[0]) == Definition(i) && fs1 != [] && out.value.Str? && out.value != Str(t)
          && out.cache == c[i := out.value.text])
      || (ReadFields(r[out.used..], out.cache, fs1).Done? && !Unrebound(r[out.used..], out.cache, fs1, i, t))
  {
  }

  lemma {:induction false} ReboundCut(r: seq<byte>, c: Cache, fs: seq<Field>, i: int, t: Text) returns (k: nat)
    requires ReadFields(r, c, fs).Done? && !Unrebound(r, c, fs, i, t)
    ensures k <= |r| && ReadFields(r[..k], c, fs).Short?
    ensures var d := ReadFields(r[..k], c, fs).dirty; i in d && d[i] != t
    decreases |r|
  {
    ReboundNext(r, c, fs, i, t);
    var out := ReadField(r, c, fs[0]);
    var n, fs1 := out.used, Rest(fs, out.value);
    var j: nat := 0;
    if ReadFields(r[n..], out.cache, fs1).Done? && !Unrebound(r[n..], out.cache, fs1, i, t) {
      j := ReboundCut(r[n..], out.cache, fs1, i, t);
    }
    k := n + j;
    CutRead(r, k, c, fs[0]);
    TakeThenDrop(r, k, n);
    ShortAfter(r[..k], c, fs);
  }

  /** What is left of a cut record runs short, so the record does. */
  lemma ShortAfter(q: seq<byte>, c: Cache, fs: seq<Field>)
    requires fs != [] && ReadField(q, c, fs[0]).Done?
    ensures var out := ReadField(q, c, fs[0]);
      var rest := ReadFields(q[out.used..], out.cache, Rest(fs, out.value));
      && (rest.Short? ==> ReadFields(q, c, fs) == Short(rest.dirty))
      && (q[out.used..] == [] && Rest(fs, out.value) != [] ==> rest == Short(out.cache))
  {
  }

  predicate Clashes(r: seq<byte>, c: Cache, d: Cache, f: Field, own: set<int>)
  {
    var access := AccessOf(r, f);
    ReadField(r, c, f).Done? && access.Reference? && access.index !in own
    && !(access.index in d && d[access.index] == ReadField(r, c, f).value.text)
  }

  /** Why a record is not clean: this field, or further on. */
  lemma UncleanNext(r: seq<byte>, c: Cache, fs: seq<Field>, own: set<int>)
    requires !Clean(r, c, fs, own)
    ensures fs != [] && ReadField(r, c, fs[0]).Done?
    ensures var out, access := ReadField(r, c, fs[0]), AccessOf(r, fs[0]);
      var fs1 := Rest(fs, out.value);
      || (access.Reference? && access.index !in own && out.value.Str?
          && !Unrebound(r[out.used..], out.cache, fs1, access.index, out.value.text))
      || !Clean(r[out.used..], out.cache, fs1, Own(access, own))
  {
  }

  lemma UnstableFrom(q: seq<byte>, c: Cache, d: Cache, fs: seq<Field>, own: set<int>)
    requires fs != [] && ReadField(q, c, fs[0]).Done?
    requires var out := ReadField(q, c, fs[0]);
      || Clashes(q, c, d, fs[0], own)
      || !Stable(q[out.used..], out.cache, d, Rest(fs, out.value), Own(AccessOf(q, fs[0]), own))
    ensures !Stable(q, c, d, fs, own)
  {
  }

  lemma {:induction false} UncleanCut(r: seq<byte>, c: Cache, fs: seq<Field>, own: set<int>) returns (k: nat)
    requires ReadFields(r, c, fs).Done? && !Clean(r, c, fs, own)
    ensures k <= |r| && ReadFields(r[..k], c, fs).Short?
    ensures !Stable(r[..k], c, ReadFields(r[..k], c, fs).dirty, fs, own)
    decreases |r|
  {
    UncleanNext(r, c, fs, own);
    FieldsCons(r, c, fs);
    var out := ReadField(r, c, fs[0]);
    var n, fs1, access := out.used, Rest(fs, out.value), AccessOf(r, fs[0]);
    var j: nat;
    if access.Reference? && access.index !in own && !Unrebound(r[n..], out.cache, fs1, access.index, out.value.text) {
      j := ReboundCut(r[n..], out.cache, fs1, access.index, out.value.text);
    } else {
      j := UncleanCut(r[n..], out.cache, fs1, Own(access, own));
    }
    k := n + j;
    CutRead(r, k, c, fs[0]);
    TakeThenDrop(r, k, n);
    ShortAfter(r[..k], c, fs);
    UnstableFrom(r[..k], c, ReadFields(r[..k], c, fs).dirty, fs, own);
  }

  /** The same values but for some texts. */
  predicate Similar(vs: seq<Value>, ws: seq<Value>)
  {
    |vs| == |ws| && forall j :: 0 <= j < |vs| ==> vs[j] == ws[j] || (vs[j].Str? && ws[j].Str?)
  }

  lemma FieldsCons(r: seq<byte>, c: Cache, fs: seq<Field>)
    requires fs != [] && ReadFields(r, c, fs).Done?
    ensures ReadField(r, c, fs[0]).Done?
    ensures var head := ReadField(r, c, fs[0]);
            var tail := ReadFields(r[head.used..], head.cache, Rest(fs, head.value));
            tail.Done? && ReadFields(r, c, fs).value == [head.value] + tail.value
  {
  }

  lemma CacheChangesTextOnly(q: seq<byte>, x: Cache, c: Cache, f: Field)
    requires ReadField(q, x, f).Done? && ReadField(q, c, f).Done?
    ensures var again, out := ReadField(q, x, f), ReadField(q, c, f);
      out.used == again.used && (out.value == again.value || (out.value.Str? && again.value.Str?))
  {
  }

  lemma {:induction false} CacheChangesTextsOnly(q: seq<byte>, x: Cache, c: Cache, fs: seq<Field>)
    requires ReadFields(q, x, fs).Done? && ReadFields(q, c, fs).Done?
    ensures Similar(ReadFields(q, x, fs).value, ReadFields(q, c, fs).value)
    decreases |q|
  {
    if fs != [] {
      FieldsCons(q, x, fs);
      FieldsCons(q, c, fs);
      CacheChangesTextOnly(q, x, c, fs[0]);
      var out, again := ReadField(q, c, fs[0]), ReadField(q, x, fs[0]);
      assert Rest(fs, out.value) == Rest(fs, again.value);
      CacheChangesTextsOnly(q[out.used..], again.cache, out.cache, Rest(fs, out.value));
    }
  }

  lemma UnstableNext(r: seq<byte>, c: Cache, d: Cache, fs: seq<Field>, own: set<int>)
    requires !Stable(r, c, d, fs, own)
    ensures fs != [] && ReadField(r, c, fs[0]).Done?
    ensures var out := ReadField(r, c, fs[0]);
      Clashes(r, c, d, fs[0], own)
      || !Stable(r[out.used..], out.cache, d, Rest(fs, out.value), Own(AccessOf(r, fs[0]), own))
  {
  }

  lemma ClashDiffers(r: seq<byte>, c: Cache, x: Cache, d: Cache, f: Field, own: set<int>)
    requires Clashes(r, c, d, f, own) && Between(x, c, d, own) && c.Keys <= d.Keys
    ensures ReadField(r, x, f).Done? && ReadField(r, x, f).value != ReadField(r, c, f).value
  {
  }

  lemma TailsDiffer(q: seq<byte>, c: Cache, x: Cache, fs: seq<Field>)
    requires fs != [] && ReadFields(q, c, fs).Done? && ReadFields(q, x, fs).Done?
    requires ReadField(q, c, fs[0]).Done? && ReadField(q, x, fs[0]).Done?
    requires ReadField(q, x, fs[0]).used == ReadField(q, c, fs[0]).used
    requires ReadField(q, x, fs[0]).value == ReadField(q, c, fs[0]).value
    ensures var out, again := ReadField(q, c, fs[0]), ReadField(q, x, fs[0]);
      var fs1 := Rest(fs, out.value);
      var later, laterAgain := ReadFields(q[out.used..], out.cache, fs1), ReadFields(q[out.used..], again.cache, fs1);
      later.Done? && laterAgain.Done?
      && (laterAgain.value != later.value ==> ReadFields(q, x, fs).value != ReadFields(q, c, fs).value)
  {
    FieldsCons(q, c, fs);
    FieldsCons(q, x, fs);
    var vs, ws := ReadFields(q, c, fs).value, ReadFields(q, x, fs).value;
    if vs == ws { assert vs[1..] == ws[1..]; }
  }

  lemma {:induction false} RereadDiffers(
      r: seq<byte>, e: seq<byte>, c: Cache, x: Cache, fs: seq<Field>, own: set<int>)
    requires ReadFields(r, c, fs).Short? && Between(x, c, ReadFields(r, c, fs).dirty, own)
    requires !Stable(r, c, ReadFields(r, c, fs).dirty, fs, own)
    requires ReadFields(r + e, c, fs).Done? && ReadFields(r + e, x, fs).Done?
    ensures ReadFields(r + e, x, fs).value != ReadFields(r + e, c, fs).value
    decreases |r|
  {
    var d := ReadFields(r, c, fs).dirty;
    var out, access := ReadField(r, c, fs[0]), AccessOf(r, fs[0]);
    UnstableNext(r, c, d, fs, own);
    PrefixRead(r + e, r, c, fs[0]);
    if Clashes(r, c, d, fs[0], own) {
      CacheOnlyGrows(r, c, fs);
      ClashDiffers(r, c, x, d, fs[0], own);
      PrefixRead(r + e, r, x, fs[0]);
      FieldsCons(r + e, c, fs);
      FieldsCons(r + e, x, fs);
      assert ReadFields(r + e, x, fs).value[0] != ReadFields(r + e, c, fs).value[0];
    } else {
      RereadStep(r, c, x, d, fs[0], own);
      PrefixRead(r + e, r, x, fs[0]);
      TailsDiffer(r + e, c, x, fs);
      DropOfSum(r, e, out.used);
      RereadDiffers(r[out.used..], e, out.cache, ReadField(r, x, fs[0]).cache, Rest(fs, out.value), Own(access, own));
    }
  }

  lemma SameTexts(vs: seq<Value>, ws: seq<Value>)
    requires (forall v :: v in vs ==> v.Str?) && (forall w :: w in ws ==> w.Str?) && Texts(vs) == Texts(ws)
    ensures vs == ws
  {
    assert |vs| == |ws|;
    forall i | 0 <= i < |vs| ensures vs[i] == ws[i] { assert Texts(vs)[i] == vs[i].text && Texts(ws)[i] == ws[i].text; }
  }

  /** Values that begin with the same count differ in what it lists or in what follows. */
  lemma SameParts(vs: seq<Value>, ws: seq<Value>)
    requires vs != [] && ws != [] && vs[0] == ws[0] && 1 + Count(vs[0]) <= |vs| && 1 + Count(ws[0]) <= |ws|
    requires Listed(vs) == Listed(ws) && After(vs) == After(ws)
    ensures vs == ws
  {
    assert vs == [vs[0]] + Listed(vs) + After(vs);
    assert ws == [ws[0]] + Listed(ws) + After(ws);
  }

  lemma SimilarAfter(vs: seq<Value>, ws: seq<Value>)
    requires Similar(vs, ws) && vs != [] && vs[0].Num? && 1 + Count(vs[0]) <= |vs|
    ensures vs[0] == ws[0] && Similar(After(vs), After(ws))
  {
    var t, u := After(vs), After(ws);
    forall j | 0 <= j < |t| ensures t[j] == u[j] || (t[j].Str? && u[j].Str?) {
      assert t[j] == vs[1 + Count(vs[0]) + j] && u[j] == ws[1 + Count(vs[0]) + j];
    }
  }

  lemma RequestsDiffer(vs: seq<Value>, ws: seq<Value>, base: int)
    requires Fits([Many(Cached), Cached, Int32, Int32, Octet, Cached], vs)
    requires Fits([Many(Cached), Cached, Int32, Int32, Octet, Cached], ws)
    requires Similar(vs, ws) && ToRequest(vs, base) == ToRequest(ws, base)
    ensures vs == ws
  {
    RequestFits(vs);
    RequestFits(ws);
    assert Kind(Many(Cached), vs[0]);
    SimilarAfter(vs, ws);
    SameTexts(Listed(vs), Listed(ws));
    SameTails(After(vs), After(ws));
    SameParts(vs, ws);
  }

  /** The five values after a request's groups: two texts and three numbers. */
  lemma SameTails(t: seq<Value>, u: seq<Value>)
    requires |t| == 5 && Similar(t, u) && t[0].Str? && t[1].Num? && t[2].Num? && t[3].Num? && t[4].Str?
    requires u[0].Str? && u[4].Str? && t[0].text == u[0].text && OrAbsent(t[4].text) == OrAbsent(u[4].text)
    ensures t == u
  {
    assert t[1] == u[1] && t[2] == u[2] && t[3] == u[3];
  }

  lemma GroupsDiffer(vs: seq<Value>, ws: seq<Value>, base: int)
    requires Fits([Many(Cached), Int32, Int32, Int32, Octet], vs)
    requires Fits([Many(Cached), Int32, Int32, Int32, Octet], ws)
    requires Similar(vs, ws) && ToGroup(vs, base) == ToGroup(ws, base)
    ensures vs == ws
  {
    GroupFits(vs);
    GroupFits(ws);
    assert Kind(Many(Cached), vs[0]);
    SimilarAfter(vs, ws);
    SameTexts(Listed(vs), Listed(ws));
    assert After(vs) == After(ws);
    SameParts(vs, ws);
  }

  /** An event shows every text its record holds. */
  lemma EventsDiffer(kind: int, vs: seq<Value>, ws: seq<Value>, h: Header, users: nat)
    requires Shape(kind).Some? && Fits(Shape(kind).value, vs) && Fits(Shape(kind).value, ws)
    requires Similar(vs, ws) && vs != ws
    requires ToEvent(kind, vs, h, users).Some?
    ensures ToEvent(kind, vs, h, users) != ToEvent(kind, ws, h, users)
  {
    if kind == 1 {
      if ToRequest(vs, h.startMs) == ToRequest(ws, h.startMs) { RequestsDiffer(vs, ws, h.startMs); }
    } else if kind == 3 {
      if ToGroup(vs, h.startMs) == ToGroup(ws, h.startMs) { GroupsDiffer(vs, ws, h.startMs); }
    } else {
      PlainFits(Shape(kind).value, vs);
      PlainFits(Shape(kind).value, ws);
      assert forall j :: 0 <= j < |vs| ==> Kind(Shape(kind).value[j], vs[j]) && Kind(Shape(kind).value[j], ws[j]);
    }
  }

  lemma FieldsDiffer(p: seq<byte>, e: seq<byte>, c: Cache, fs: seq<Field>)
    requires ReadFields(p, c, fs).Short?
    requires var d := ReadFields(p, c, fs).dirty; !Stable(p, c, d, fs, {}) && ReadFields(p + e, d, fs).Done?
    requires ReadFields(p + e, c, fs).Done?
    ensures var d := ReadFields(p, c, fs).dirty;
      var vs, ws := ReadFields(p + e, c, fs).value, ReadFields(p + e, d, fs).value;
      vs != ws && Similar(vs, ws) && Fits(fs, vs) && Fits(fs, ws)
  {
    var d := ReadFields(p, c, fs).dirty;
    RereadDiffers(p, e, c, d, fs, {});
    CacheChangesTextsOnly(p + e, c, d, fs);
    FieldsFit(p + e, c, fs);
    FieldsFit(p + e, d, fs);
  }

  /** A whole record that is not clean: where to cut it, and that reading on does not give its event. */
  lemma UncleanRecord(r: seq<byte>, c: Cache, h: Header, users: nat) returns (k: nat)
    requires ReadRecord(r, c, h, users).Done? && !CleanRecord(r, c)
    ensures 0 < k <= |r| && ReadRecord(r[..k], c, h, users).Short?
    ensures var again := ReadRecord(r, ReadRecord(r[..k], c, h, users).dirty, h, users);
            again.Done? ==> again.value != ReadRecord(r, c, h, users).value
  {
    var kind := ReadField(r, c, Octet).value.n;
    var fs := Shape(kind).value;
    var j := UncleanCut(r[1..], c, fs, {});
    k := 1 + j;
    CutRead(r, k, c, Octet);
    TakeThenDrop(r, k, 1);
    TakeDrop(r[1..], j);
    var d := ReadFields(r[1..][..j], c, fs).dirty;
    if ReadRecord(r, d, h, users).Done? {
      FieldsDiffer(r[1..][..j], r[1..][j..], c, fs);
      EventsDiffer(kind, ReadFields(r[1..], c, fs).value, ReadFields(r[1..], d, fs).value, h, users);
    }
  }

  lemma UncleanStepSpoils(r: seq<byte>, s: DecodeState)
    requires Progress(LogStep) && LogStep(r, s).Took? && !CleanStep(r, s)
    ensures CutSpoils(LogStep, r, s)
  {
    var k := UncleanRecord(r, s.cache, s.header.value, s.users);
    assert LogStep(r[..k], s).Wait?;
    TwoRuns(LogStep, r, k, s);
    assert r[0..] == r;
    assert TwoChunks(LogStep, r, k, s).items == []
        || TwoChunks(LogStep, r, k, s).items[0] != Run(LogStep, r, s).items[0];
    assert SpoiltAt(LogStep, r, k, s);
  }

  lemma CleanCutsResume()
    ensures forall r, p, e, s :: CutResumes(LogStep, CleanStep, r, p, e, s)
  {
    forall r, p, e, s ensures CutResumes(LogStep, CleanStep, r, p, e, s) {
      if p <= r && p != [] && LogStep(p, s).Wait? && CleanStep(r, s) { StepResumes(r, p, e, s); }
    }
  }

  lemma UncleanStepsSpoil()
    requires Progress(LogStep)
    ensures forall r, s :: LogStep(r, s).Took? && !CleanStep(r, s) ==> CutSpoils(LogStep, r, s)
  {
    forall r, s | LogStep(r, s).Took? && !CleanStep(r, s) ensures CutSpoils(LogStep, r, s) {
      UncleanStepSpoils(r, s);
    }
  }

  /** A complete log of clean records decodes the same however it is cut into chunks. */
  lemma CleanLogAnyChunks(chunks: seq<seq<byte>>)
    requires Pull(Concat(chunks)).end == AtEnd && CleanLog(Concat(chunks))
    ensures Fed(chunks).end == AtEnd && Fed(chunks).items == Pull(Concat(chunks)).items
  {
    StepProgresses();
    StepExtends();
    CleanCutsResume();
    EverywhereAnyChunks(LogStep, CleanStep, START, chunks);
  }

  /** One with a record that is not clean has two chunks that decode to something else. */
  lemma UncleanLogSomeChunks(bytes: seq<byte>) returns (chunks: seq<seq<byte>>)
    requires Pull(bytes).end == AtEnd && !CleanLog(bytes)
    ensures Concat(chunks) == bytes && Fed(chunks).items != Pull(bytes).items
  {
    StepProgresses();
    StepExtends();
    UncleanStepsSpoil();
    SomewhereSpoils(LogStep, CleanStep, bytes, START);
    var k: nat :| k <= |bytes| && SpoiltAt(LogStep, bytes, k, START);
    chunks := [bytes[..k], bytes[k..]];
    ConcatTwo(bytes, k);
  }

  /**
   * The feed and the pull parser agree on a complete log however it is cut into
   * chunks, exactly when no record refers back to a string and then redefines it.
   */
  lemma FeedAgreesIffClean(bytes: seq<byte>)
    requires Pull(bytes).end == AtEnd
    ensures CleanLog(bytes) <==>
            (forall chunks: seq<seq<byte>> :: Concat(chunks) == bytes ==> Fed(chunks).items == Pull(bytes).items)
  {
    if CleanLog(bytes) {
      forall chunks: seq<seq<byte>> | Concat(chunks) == bytes ensures Fed(chunks).items == Pull(bytes).items {
        CleanLogAnyChunks(chunks);
      }
    } else {
      var chunks := UncleanLogSomeChunks(bytes);
    }
  }

  // ----- The decoder object -----

  /** `StreamingLogDecoder` over its one `BinaryReader` (stream.ts, reader.ts). */
  class StreamingLogDecoder {
    var buffer: seq<byte>
    /** Index into `buffer`; `base` is the file offset `buffer[0]` sits at. */
    var at: nat
    var base: nat
    var state: DecodeState
    var consumed: nat
    ghost var fed: seq<byte>

    /** The reader stands where the last record left it and holds every byte from `base` on. */
    ghost predicate Valid()
      reads this
    {
      base + at == consumed <= |fed| && buffer == fed[base..]
    }

    /** What is still to be decoded. */
    ghost function Pending(): seq<byte>
      reads this
      requires Valid()
    {
      fed[consumed..]
    }

    constructor ()
      ensures Valid() && fed == [] && consumed == 0 && state == START
    {
      buffer, at, base, state, consumed, fed := [], 0, 0, START, 0, [];
    }

    /** Keeps bytes from the last whole record on; never drops one the reader has not passed. */
    method Append(chunk: seq<byte>, keepFrom: nat)
      requires at <= |buffer|
      modifies `buffer, `base, `at
      ensures at <= |buffer| && base + at == old(base) + old(at)
      ensures buffer[at..] == old(buffer[at..]) + chunk
      ensures old(base) <= base && base + |buffer| == old(base) + |old(buffer)| + |chunk|
      ensures keepFrom >= old(base) + old(at) ==> at == 0
    {
      var cut := if keepFrom <= base then 0 else if keepFrom - base < at then keepFrom - base else at;
      buffer := buffer[cut..] + chunk;
      base := base + cut;
      at := at - cut;
    }

    /**
     * Decodes what it can, watched for so many records; `finished` is whether
     * it has come back. On a fault the source throws and the events of this call
     * are lost; the caller gives up on the log. Where no string has a negative
     * length it comes back, with the forward run over what was pending.
     */
    method Push(chunk: seq<byte>, turns: nat)
      returns (events: seq<Event>, fault: Option<Fault>, finished: bool)
      requires Valid()
      modifies this
      ensures Progress(LogStep)
      ensures var p := BinaryReader.RunAt(old(Pending()) + chunk, 0, old(state), turns);
        && finished == !p.how.StillGoing? && fault == (if p.how.Threw? then Some(p.how.fault) else None)
        && events == (if p.how.Threw? then [] else p.items)
        && (fault.None? ==> consumed == old(consumed) + p.at && state == p.state)
      ensures var r := old(Pending()) + chunk;
        var log := Run(LogStep, r, old(state));
        |r| <= turns && log.end != Failed(GoesBack) ==>
          && finished && fault == (if log.end.Failed? then Some(log.end.fault) else None)
          && events == Handed(log).items
          && (fault.None? ==> consumed == old(consumed) + log.used && state == log.state)
      ensures fault.None? ==> Valid() && buffer == old(Pending()) + chunk && fed == old(fed) + chunk
    {
      StepProgresses();
      assert buffer[at..] == Pending();
      Append(chunk, consumed);
      assert buffer[0..] == buffer;
      fed := fed + chunk;
      PushAgrees(buffer, state, turns);
      var next, how;
      events, at, next, how := BinaryReader.Decode(BinaryReader.TurnsOf(buffer), |buffer|, 0, state, turns);
      finished := !how.StillGoing?;
      if how.Threw? { return [], Some(how.fault), finished; }
      consumed, state := base + at, next;
      fault := None;
    }
  }

  lemma PushAgrees(r: seq<byte>, s: DecodeState, turns: nat)
    requires Progress(LogStep)
    ensures BinaryReader.RunAt(r, 0, s, turns).at <= |r|
    ensures var p, log := BinaryReader.RunAt(r, 0, s, turns), Run(LogStep, r, s);
      |r| <= turns && log.end != Failed(GoesBack) ==>
        p.at == log.used && p.items == log.items && p.state == log.state && !p.how.StillGoing?
        && (log.end.Failed? ==> p.how == BinaryReader.Threw(log.end.fault)) && (!log.end.Failed? ==> !p.how.Threw?)
  {
    BinaryReader.RunWithin(r, 0, s, turns);
    if |r| <= turns && Run(LogStep, r, s).end != Failed(GoesBack) { BinaryReader.RunAgrees(r, s, turns); }
  }

  /** `truncateToWholeRecords`: one push of everything, cut at what it consumed. */
  method TruncateToWholeRecords(bytes: seq<byte>, turns: nat) returns (cut: Cut)
    ensures cut == CutAfter(bytes, turns)
    ensures Forward(bytes) && |bytes| <= turns ==> cut == AsCut(Truncate(bytes))
  {
    var decoder := new StreamingLogDecoder();
    EmptyThen(decoder.Pending(), bytes);
    if Forward(bytes) && |bytes| <= turns { CutIsTruncate(bytes, turns); }
    var events, fault, finished := decoder.Push(bytes, turns);
    if fault.Some? { return Refused; }
    if !finished { return Unfinished; }
    var end := decoder.consumed;
    TakeAll(bytes);
    cut := Whole(if end >= |bytes| then bytes else bytes[..end]);
  }

  /** A push after these chunks, not failed so far, is the feed of one chunk more. */
  lemma PushIsOneRun(chunks: seq<seq<byte>>, chunk: seq<byte>, out: seq<Event>, consumed: nat, state: DecodeState)
    requires Fed(chunks).items == out && Fed(chunks).used == consumed && Fed(chunks).state == state
    requires !Fed(chunks).end.Failed?
    ensures Progress(LogStep) && consumed <= |Concat(chunks)|
    ensures var whole := Run(LogStep, Concat(chunks)[consumed..] + chunk, state);
      && Fed(chunks + [chunk]) == Join(Fed(chunks), Handed(whole))
      && Concat(chunks + [chunk]) == Concat(chunks) + chunk
      && (whole.end.AtEnd? || whole.end.CutShort? ==>
            (whole.end.AtEnd? <==> consumed + whole.used == |Concat(chunks + [chunk])|))
  {
    StepProgresses();
    ChunksSnoc(LogStep, [], START, chunks, chunk);
    assert [] + Concat(chunks) == Concat(chunks);
    ConcatSnoc(chunks, chunk);
  }
}
