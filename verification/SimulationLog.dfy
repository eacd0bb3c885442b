/**
 * Gatling's binary simulation.log, as the pull parser reads it
 * (packages/plugin-gatling/src/reader.ts, header.ts, record-decoder.ts, records.ts).
 *
 * Every read goes forward: it takes the bytes that are left and the string
 * cache, and answers one of three things: a value with the bytes it used, `Short` when the bytes
 * ran out first (the source's TruncatedError), or `Broken`. `Short` carries the
 * cache as the interrupted read left it, because the source rewinds its
 * position on a short read and not its cache.
 */
module SimulationLog {
  import opened Bytes
  import opened Feed

  /** A JavaScript string: UTF-16 code units. */
  type Text = seq<nat>
  type Cache = map<int, Text>

  datatype Field = Octet | Int32 | Int64 | Inline | Cached | Payload | Many(each: Field)
  datatype Value = Num(n: int) | Str(text: Text) | Raw(bytes: seq<byte>)

  /**
   * `GoesBack` is no fault of the source: a string of negative length moves its
   * reader backwards, and this reading, which only goes forward, stops there.
   * `BinaryReader` says what the source then does.
   */
  datatype Fault =
    | NotARunRecord | UnknownRecordType | UnknownScenario | DanglingReference | NegativePayload | BeforeBuffer
    | GoesBack

  datatype Reading<+T> =
    | Done(value: T, used: nat, cache: Cache)
    | Short(dirty: Cache)
    | Broken(fault: Fault)

  function Latin1(s: seq<byte>): Text { seq(|s|, i requires 0 <= i < |s| => s[i]) }

  function Utf16(s: seq<byte>): Text
  {
    if |s| < 2 then [] else var unit: nat := (s[0] as int) + 256 * (s[1] as int); [unit] + Utf16(s[2..])
  }

  function DecodeText(coder: byte, s: seq<byte>): Text
  {
    if coder == 0 then Latin1(s) else Utf16(s)
  }

  function ReadNumber(r: seq<byte>, c: Cache, width: nat): (out: Reading<Value>)
    requires width > 0
    ensures out.Done? ==> 0 < out.used <= |r|
  {
    if |r| < width then Short(c) else Done(Num(BigEndianSigned(r[..width])), width, c)
  }

  function ReadInline(r: seq<byte>, c: Cache): (out: Reading<Value>)
    ensures out.Done? ==> 0 < out.used <= |r| && out.value.Str? && out.cache == c
  {
    if |r| < 4 then Short(c)
    else
      var len := BigEndianSigned(r[..4]);
      if len == 0 then Done(Str([]), 4, c)
      else if len < 0 then Broken(GoesBack)
      else if |r| < 4 + len + 1 then Short(c)
      else Done(Str(DecodeText(r[4 + len], r[4..4 + len])), 4 + len + 1, c)
  }

  /** The sign decides: `i >= 0` defines `cache[i]` inline, `i < 0` reads `cache[-i]`. */
  function ReadCached(r: seq<byte>, c: Cache): (out: Reading<Value>)
    ensures out.Done? ==> 0 < out.used <= |r| && out.value.Str?
    ensures out.Short? ==> out.dirty == c
  {
    if |r| < 4 then Short(c)
    else
      var i := BigEndianSigned(r[..4]);
      if i >= 0 then
        match ReadInline(r[4..], c)
        case Done(v, n, _) => Done(v, 4 + n, c[i := v.text])
        case Short(_) => Short(c)
        case Broken(f) => Broken(f)
      else if -i in c then Done(Str(c[-i]), 4, c)
      else Broken(DanglingReference)
  }

  function ReadPayload(r: seq<byte>, c: Cache): (out: Reading<Value>)
    ensures out.Done? ==> 0 < out.used <= |r|
  {
    if |r| < 4 then Short(c)
    else
      var len := BigEndianSigned(r[..4]);
      if len < 0 then Broken(NegativePayload)
      else if |r| < 4 + len then Short(c)
      else Done(Raw(r[4..4 + len]), 4 + len, c)
  }

  /** A `Many` field reads its count; `Rest` then puts that many fields in front. */
  function ReadField(r: seq<byte>, c: Cache, f: Field): (out: Reading<Value>)
    ensures out.Done? ==> 0 < out.used <= |r| && Kind(f, out.value)
    ensures out.Short? ==> out.dirty == c
    ensures out.Done? && f != Cached ==> out.cache == c
  {
    match f
    case Octet => ReadNumber(r, c, 1)
    case Int32 => ReadNumber(r, c, 4)
    case Int64 => ReadNumber(r, c, 8)
    case Inline => ReadInline(r, c)
    case Cached => ReadCached(r, c)
    case Payload => ReadPayload(r, c)
    case Many(_) => ReadNumber(r, c, 4)
  }

  predicate Kind(f: Field, v: Value)
  {
    match f
    case Inline => v.Str?
    case Cached => v.Str?
    case Payload => v.Raw?
    case _ => v.Num?
  }

  function Repeat<T>(x: T, n: int): (s: seq<T>)
    ensures |s| == if n < 0 then 0 else n
    ensures forall i :: 0 <= i < |s| ==> s[i] == x
  {
    seq(if n < 0 then 0 else n, _ => x)
  }

  function Rest(fs: seq<Field>, v: Value): seq<Field>
    requires fs != []
  {
    if fs[0].Many? && v.Num? then Repeat(fs[0].each, v.n) + fs[1..] else fs[1..]
  }

  function ReadFields(r: seq<byte>, c: Cache, fs: seq<Field>): (out: Reading<seq<Value>>)
    ensures out.Done? ==> out.used <= |r| && (fs != [] ==> 0 < out.used)
    decreases |r|
  {
    if fs == [] then Done([], 0, c)
    else
      match ReadField(r, c, fs[0])
      case Short(d) => Short(d)
      case Broken(e) => Broken(e)
      case Done(v, n, c1) =>
        match ReadFields(r[n..], c1, Rest(fs, v))
        case Done(vs, m, c2) => Done([v] + vs, n + m, c2)
        case Short(d) => Short(d)
        case Broken(e) => Broken(e)
  }

  // ----- What more bytes can and cannot change -----

  lemma InlineExtends(r: seq<byte>, e: seq<byte>, c: Cache)
    ensures !ReadInline(r, c).Short? ==> ReadInline(r + e, c) == ReadInline(r, c)
    ensures ReadInline(r, c).Short? && ReadInline(r + e, c).Done? ==> |r| < ReadInline(r + e, c).used
  {
    if |r| >= 4 {
      assert (r + e)[..4] == r[..4];
      var len := BigEndianSigned(r[..4]);
      if len > 0 && |r| >= 4 + len + 1 {
        assert (r + e)[4..4 + len] == r[4..4 + len];
      }
    }
  }

  lemma FieldExtends(r: seq<byte>, e: seq<byte>, c: Cache, f: Field)
    ensures !ReadField(r, c, f).Short? ==> ReadField(r + e, c, f) == ReadField(r, c, f)
    ensures ReadField(r, c, f).Short? && ReadField(r + e, c, f).Done? ==> |r| < ReadField(r + e, c, f).used
  {
    assert |r| >= 1 ==> (r + e)[..1] == r[..1];
    assert |r| >= 4 ==> (r + e)[..4] == r[..4] && (r + e)[4..] == r[4..] + e;
    assert |r| >= 8 ==> (r + e)[..8] == r[..8];
    match f {
      case Inline => InlineExtends(r, e, c);
      case Cached => if |r| >= 4 { InlineExtends(r[4..], e, c); }
      case Payload =>
        if |r| >= 4 {
          var len := BigEndianSigned(r[..4]);
          if 0 <= len && 4 + len <= |r| { assert (r + e)[4..4 + len] == r[4..4 + len]; }
        }
      case _ =>
    }
  }

  /** More bytes never change an answer that did not run out of them. */
  lemma {:induction false} FieldsExtend(r: seq<byte>, e: seq<byte>, c: Cache, fs: seq<Field>)
    ensures !ReadFields(r, c, fs).Short? ==> ReadFields(r + e, c, fs) == ReadFields(r, c, fs)
    ensures ReadFields(r, c, fs).Short? && ReadFields(r + e, c, fs).Done? ==> |r| < ReadFields(r + e, c, fs).used
    decreases |r|
  {
    if fs != [] {
      FieldExtends(r, e, c, fs[0]);
      match ReadField(r, c, fs[0])
      case Done(v, n, c1) =>
        assert (r + e)[n..] == r[n..] + e;
        FieldsExtend(r[n..], e, c1, Rest(fs, v));
      case _ =>
    }
  }

  // ----- Records -----

  datatype Event =
    | Meta(simulation: Text, version: Text, startedAtMs: int, description: Option<Text>, assertions: seq<seq<byte>>)
    | Request(groups: seq<Text>, name: Text, startMs: int, endMs: int, ok: bool, message: Option<Text>)
    | User(scenario: Text, userId: nat, isStart: bool, tsMs: int)
    | Group(groups: seq<Text>, startMs: int, endMs: int, cumulatedMs: int, ok: bool)
    | Error(errorMessage: Text, tsMs: int)

  datatype Header = Header(
    version: Text, simulation: Text, startMs: int, description: Text,
    scenarios: seq<Text>, assertions: seq<seq<byte>>)

  const HEADER_FIELDS: seq<Field> := [Inline, Inline, Int64, Inline, Many(Inline), Many(Payload)]

  function Shape(kind: int): Option<seq<Field>>
  {
    if kind == 1 then Some([Many(Cached), Cached, Int32, Int32, Octet, Cached])
    else if kind == 2 then Some([Int32, Octet, Int32])
    else if kind == 3 then Some([Many(Cached), Int32, Int32, Int32, Octet])
    else if kind == 4 then Some([Cached, Int32])
    else None
  }

  /** The values `ReadFields` answers for these fields: right number, right kinds. */
  predicate Fits(fs: seq<Field>, vs: seq<Value>)
    decreases |vs|
  {
    if fs == [] then vs == []
    else vs != [] && Kind(fs[0], vs[0]) && Fits(Rest(fs, vs[0]), vs[1..])
  }

  lemma {:induction false} FieldsFit(r: seq<byte>, c: Cache, fs: seq<Field>)
    ensures ReadFields(r, c, fs).Done? ==> Fits(fs, ReadFields(r, c, fs).value)
    decreases |r|
  {
    if fs != [] {
      match ReadField(r, c, fs[0])
      case Done(v, n, c1) =>
        FieldsFit(r[n..], c1, Rest(fs, v));
        var out := ReadFields(r[n..], c1, Rest(fs, v));
        if out.Done? { assert ([v] + out.value)[1..] == out.value; }
      case _ =>
    }
  }

  /** Fields that are not lists are matched one value each. */
  lemma {:induction false} PrefixFits(pre: seq<Field>, fs: seq<Field>, vs: seq<Value>)
    requires Fits(pre + fs, vs) && forall f <- pre :: !f.Many?
    ensures |pre| <= |vs| && Fits(fs, vs[|pre|..])
    ensures forall i :: 0 <= i < |pre| ==> Kind(pre[i], vs[i])
  {
    if pre == [] {
      assert pre + fs == fs && vs[|pre|..] == vs;
    } else {
      assert (pre + fs)[1..] == pre[1..] + fs;
      PrefixFits(pre[1..], fs, vs[1..]);
      assert vs[1..][|pre| - 1..] == vs[|pre|..];
      assert forall i :: 1 <= i < |pre| ==> pre[i] == pre[1..][i - 1] && vs[i] == vs[1..][i - 1];
    }
  }

  function Texts(vs: seq<Value>): (ts: seq<Text>)
    requires forall v :: v in vs ==> v.Str?
    ensures |ts| == |vs| && forall i :: 0 <= i < |vs| ==> ts[i] == vs[i].text
  {
    seq(|vs|, i requires 0 <= i < |vs| => vs[i].text)
  }

  function Count(v: Value): (n: nat)
  {
    if v.Num? && v.n > 0 then v.n else 0
  }

  /** `text || undefined`. */
  function OrAbsent(text: Text): Option<Text>
  {
    if text == [] then None else Some(text)
  }

  function Listed(vs: seq<Value>): (part: seq<Value>)
    requires vs != [] && 1 + Count(vs[0]) <= |vs|
  {
    vs[1..1 + Count(vs[0])]
  }

  function After(vs: seq<Value>): (part: seq<Value>)
    requires vs != [] && 1 + Count(vs[0]) <= |vs|
  {
    vs[1 + Count(vs[0])..]
  }

  /** A value list a leading `Many` describes: the count, its values, then what follows. */
  lemma ManyFits(f: Field, fs: seq<Field>, vs: seq<Value>)
    requires Fits([Many(f)] + fs, vs) && !f.Many?
    ensures |vs| > 0 && 1 + Count(vs[0]) <= |vs| && Fits(fs, After(vs))
    ensures forall v :: v in Listed(vs) ==> Kind(f, v)
  {
    var n := Count(vs[0]);
    assert ([Many(f)] + fs)[1..] == fs;
    assert Rest([Many(f)] + fs, vs[0]) == Repeat(f, n) + fs;
    PrefixFits(Repeat(f, n), fs, vs[1..]);
    DropTwice(vs, 1, n);
    forall v | v in Listed(vs) ensures Kind(f, v) {
      var i :| 0 <= i < n && Listed(vs)[i] == v;
      assert vs[1..][i] == v && Repeat(f, n)[i] == f;
    }
  }

  /** The two lists a header ends in. */
  lemma ListsFit(lists: seq<Value>)
    requires Fits([Many(Inline), Many(Payload)], lists)
    ensures lists != [] && 1 + Count(lists[0]) <= |lists| && (forall v :: v in Listed(lists) ==> v.Str?)
    ensures var last := After(lists);
      last != [] && 1 + Count(last[0]) <= |last| && forall v :: v in Listed(last) ==> v.Raw?
  {
    assert [Many(Inline), Many(Payload)] == [Many(Inline)] + [Many(Payload)];
    ManyFits(Inline, [Many(Payload)], lists);
    assert [Many(Payload)] == [Many(Payload)] + [];
    ManyFits(Payload, [], After(lists));
    assert forall v :: v in Listed(lists) ==> Kind(Inline, v) && v.Str?;
    assert forall v :: v in Listed(After(lists)) ==> Kind(Payload, v) && v.Raw?;
  }

  /** The values of a header: four, then a list of scenarios, then a list of assertions. */
  lemma HeaderFits(vs: seq<Value>)
    requires Fits(HEADER_FIELDS, vs)
    ensures |vs| >= 4 && vs[0].Str? && vs[1].Str? && vs[2].Num? && vs[3].Str?
    ensures var lists := vs[4..];
      && lists != [] && 1 + Count(lists[0]) <= |lists| && (forall v :: v in Listed(lists) ==> v.Str?)
      && var last := After(lists);
         last != [] && 1 + Count(last[0]) <= |last| && forall v :: v in Listed(last) ==> v.Raw?
  {
    assert HEADER_FIELDS == [Inline, Inline, Int64, Inline] + [Many(Inline), Many(Payload)];
    PrefixFits([Inline, Inline, Int64, Inline], [Many(Inline), Many(Payload)], vs);
    assert Kind(Inline, vs[0]) && Kind(Inline, vs[1]) && Kind(Int64, vs[2]) && Kind(Inline, vs[3]);
    ListsFit(vs[4..]);
  }

  function ToHeader(vs: seq<Value>): Header
    requires Fits(HEADER_FIELDS, vs)
  {
    HeaderFits(vs);
    var lists := vs[4..];
    var payloads := Listed(After(lists));
    Header(vs[0].text, vs[1].text, vs[2].n, vs[3].text, Texts(Listed(lists)),
           seq(|payloads|, i requires 0 <= i < |payloads| => payloads[i].bytes))
  }

  lemma RequestFits(vs: seq<Value>)
    requires Fits([Many(Cached), Cached, Int32, Int32, Octet, Cached], vs)
    ensures vs != [] && 1 + Count(vs[0]) <= |vs| && |After(vs)| == 5
    ensures forall v :: v in Listed(vs) ==> v.Str?
    ensures var t := After(vs); t[0].Str? && t[1].Num? && t[2].Num? && t[3].Num? && t[4].Str?
  {
    var tail := [Cached, Int32, Int32, Octet, Cached];
    assert [Many(Cached), Cached, Int32, Int32, Octet, Cached] == [Many(Cached)] + tail;
    ManyFits(Cached, tail, vs);
    assert forall v :: v in Listed(vs) ==> Kind(Cached, v) && v.Str?;
    assert tail == tail + [];
    PrefixFits(tail, [], After(vs));
    assert Kind(tail[0], After(vs)[0]) && Kind(tail[1], After(vs)[1]) && Kind(tail[2], After(vs)[2])
        && Kind(tail[3], After(vs)[3]) && Kind(tail[4], After(vs)[4]);
    assert After(vs)[5..] == [];
  }

  lemma GroupFits(vs: seq<Value>)
    requires Fits([Many(Cached), Int32, Int32, Int32, Octet], vs)
    ensures vs != [] && 1 + Count(vs[0]) <= |vs| && |After(vs)| == 4
    ensures forall v :: v in Listed(vs) ==> v.Str?
    ensures var t := After(vs); t[0].Num? && t[1].Num? && t[2].Num? && t[3].Num?
  {
    var tail := [Int32, Int32, Int32, Octet];
    assert [Many(Cached), Int32, Int32, Int32, Octet] == [Many(Cached)] + tail;
    ManyFits(Cached, tail, vs);
    assert forall v :: v in Listed(vs) ==> Kind(Cached, v) && v.Str?;
    assert tail == tail + [];
    PrefixFits(tail, [], After(vs));
    assert Kind(tail[0], After(vs)[0]) && Kind(tail[1], After(vs)[1]) && Kind(tail[2], After(vs)[2])
        && Kind(tail[3], After(vs)[3]);
    assert After(vs)[4..] == [];
  }

  lemma PlainFits(fs: seq<Field>, vs: seq<Value>)
    requires Fits(fs, vs) && forall f <- fs :: !f.Many?
    ensures |vs| == |fs| && forall i :: 0 <= i < |fs| ==> Kind(fs[i], vs[i])
  {
    assert fs == fs + [];
    PrefixFits(fs, [], vs);
    assert vs[|fs|..] == [];
  }

  function ToRequest(vs: seq<Value>, base: int): Event
    requires Fits([Many(Cached), Cached, Int32, Int32, Octet, Cached], vs)
  {
    RequestFits(vs);
    var t := After(vs);
    Request(Texts(Listed(vs)), t[0].text, base + t[1].n, base + t[2].n, t[3].n != 0, OrAbsent(t[4].text))
  }

  function ToGroup(vs: seq<Value>, base: int): Event
    requires Fits([Many(Cached), Int32, Int32, Int32, Octet], vs)
  {
    GroupFits(vs);
    var t := After(vs);
    Group(Texts(Listed(vs)), base + t[0].n, base + t[1].n, t[2].n, t[3].n != 0)
  }

  /** `users` is how many user records came before this one; it numbers the next. */
  function ToEvent(kind: int, vs: seq<Value>, h: Header, users: nat): (out: Option<Event>)
    requires Shape(kind).Some? && Fits(Shape(kind).value, vs)
  {
    if kind == 1 then Some(ToRequest(vs, h.startMs))
    else if kind == 2 then
      PlainFits([Int32, Octet, Int32], vs);
      assert Kind([Int32, Octet, Int32][0], vs[0]) && Kind([Int32, Octet, Int32][1], vs[1])
          && Kind([Int32, Octet, Int32][2], vs[2]);
      if 0 <= vs[0].n < |h.scenarios| then
        Some(User(h.scenarios[vs[0].n], users, vs[1].n != 0, h.startMs + vs[2].n))
      else None
    else if kind == 3 then Some(ToGroup(vs, h.startMs))
    else
      PlainFits([Cached, Int32], vs);
      assert Kind([Cached, Int32][0], vs[0]) && Kind([Cached, Int32][1], vs[1]);
      Some(Error(vs[0].text, h.startMs + vs[1].n))
  }

  /** One record, from its type byte (record-decoder.ts). */
  function ReadRecord(r: seq<byte>, c: Cache, h: Header, users: nat): (out: Reading<Event>)
    ensures out.Done? ==> 1 < out.used <= |r|
  {
    match ReadField(r, c, Octet)
    case Short(d) => Short(d)
    case Broken(e) => Broken(e)
    case Done(kind, n, _) =>
      var shape := Shape(kind.n);
      if shape.None? then Broken(UnknownRecordType)
      else
        match ReadFields(r[n..], c, shape.value)
        case Short(d) => Short(d)
        case Broken(e) => Broken(e)
        case Done(vs, m, c1) =>
          FieldsFit(r[n..], c, shape.value);
          var event := ToEvent(kind.n, vs, h, users);
          if event.None? then Broken(UnknownScenario) else Done(event.value, n + m, c1)
  }

  /** The run header (header.ts): a Run record's type byte, then its fields. No cached string. */
  function ReadHeader(r: seq<byte>): (out: Reading<Header>)
    ensures out.Done? ==> 1 < out.used <= |r|
  {
    match ReadField(r, map[], Octet)
    case Short(d) => Short(d)
    case Broken(e) => Broken(e)
    case Done(kind, n, _) =>
      if kind.n != 0 then Broken(NotARunRecord)
      else
        match ReadFields(r[n..], map[], HEADER_FIELDS)
        case Short(d) => Short(d)
        case Broken(e) => Broken(e)
        case Done(vs, m, c1) =>
          FieldsFit(r[n..], map[], HEADER_FIELDS);
          Done(ToHeader(vs), n + m, c1)
  }

  function MetaOf(h: Header): Event
  {
    Meta(h.simulation, h.version, h.startMs, OrAbsent(h.description), h.assertions)
  }

  function Users(e: Event): nat { if e.User? then 1 else 0 }

  // ----- The log as a feed of events -----

  /** What the decoder carries from one record to the next. */
  datatype DecodeState = DecodeState(header: Option<Header>, cache: Cache, users: nat)

  const START := DecodeState(None, map[], 0)

  function LogStep(r: seq<byte>, s: DecodeState): Step<Event, DecodeState, Fault>
  {
    match s.header
    case None => (
      match ReadHeader(r)
      case Short(_) => Wait(s)
      case Broken(f) => Stop(f)
      case Done(h, n, _) => Took(MetaOf(h), n, s.(header := Some(h))))
    case Some(h) => AfterRecord(ReadRecord(r, s.cache, h, s.users), s)
  }

  function AfterRecord(out: Reading<Event>, s: DecodeState): Step<Event, DecodeState, Fault>
  {
    match out
    case Short(dirty) => Wait(s.(cache := dirty))
    case Broken(f) => Stop(f)
    case Done(event, n, c) => Took(event, n, DecodeState(s.header, c, s.users + Users(event)))
  }

  lemma StepProgresses()
    ensures Progress(LogStep)
  {
  }

  lemma RecordExtends(r: seq<byte>, e: seq<byte>, c: Cache, h: Header, users: nat)
    ensures !ReadRecord(r, c, h, users).Short? ==> ReadRecord(r + e, c, h, users) == ReadRecord(r, c, h, users)
    ensures ReadRecord(r, c, h, users).Short? && ReadRecord(r + e, c, h, users).Done?
      ==> |r| < ReadRecord(r + e, c, h, users).used
  {
    FieldExtends(r, e, c, Octet);
    if r != [] {
      var kind := ReadField(r, c, Octet);
      assert (r + e)[1..] == r[1..] + e;
      if Shape(kind.value.n).Some? { FieldsExtend(r[1..], e, c, Shape(kind.value.n).value); }
    }
  }

  lemma HeaderExtends(r: seq<byte>, e: seq<byte>)
    ensures !ReadHeader(r).Short? ==> ReadHeader(r + e) == ReadHeader(r)
    ensures ReadHeader(r).Short? && ReadHeader(r + e).Done? ==> |r| < ReadHeader(r + e).used
  {
    FieldExtends(r, e, map[], Octet);
    if r != [] {
      assert (r + e)[1..] == r[1..] + e;
      FieldsExtend(r[1..], e, map[], HEADER_FIELDS);
    }
  }

  lemma HeaderStepExtends(r: seq<byte>, e: seq<byte>, s: DecodeState)
    requires s.header.None?
    ensures ExtendsAt(LogStep, r, e, s)
  {
    HeaderExtends(r, e);
  }

  lemma RecordStepExtends(r: seq<byte>, e: seq<byte>, s: DecodeState)
    requires s.header.Some?
    ensures ExtendsAt(LogStep, r, e, s)
  {
    RecordExtends(r, e, s.cache, s.header.value, s.users);
    AfterExtends(ReadRecord(r, s.cache, s.header.value, s.users),
        ReadRecord(r + e, s.cache, s.header.value, s.users), s);
  }

  lemma AfterExtends(out: Reading<Event>, more: Reading<Event>, s: DecodeState)
    requires !out.Short? ==> more == out
    ensures !AfterRecord(out, s).Wait? ==> AfterRecord(more, s) == AfterRecord(out, s)
    ensures AfterRecord(out, s).Wait? <==> out.Short?
    ensures AfterRecord(more, s).Took? <==> more.Done?
    ensures more.Done? ==> AfterRecord(more, s).used == more.used
  {
  }

  lemma StepExtends()
    ensures Extends(LogStep)
  {
    forall r, e, s ensures ExtendsAt(LogStep, r, e, s) {
      if s.header.None? { HeaderStepExtends(r, e, s); } else { RecordStepExtends(r, e, s); }
    }
  }

  /**
   * `parseSimulationLog` on a finished buffer (records.ts): the header, then
   * records to the end of the buffer. A buffer without a header is cut short.
   */
  function Pull(bytes: seq<byte>): (log: Log<Event, DecodeState, Fault>)
    ensures log.used <= |bytes|
  {
    StepProgresses();
    if bytes == [] then Log([], 0, START, CutShort) else Run(LogStep, bytes, START)
  }
}
