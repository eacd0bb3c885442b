/**
 * Gatling's binary simulation.log, as it is written: what the decoder is for
 * (packages/plugin-gatling/src/reader.ts, header.ts, record-decoder.ts). A log
 * written in any of the ways the format allows, strings spelt out or referred
 * back to, in either coder, is read back as the events that were written.
 */
module LogWriter {
  import opened Bytes
  import opened Feed
  import opened SimulationLog

  // ----- Integers and strings -----

  /** `width` bytes of `n`, most significant first. */
  function ToBigEndian(n: nat, width: nat): (s: seq<byte>)
    ensures |s| == width
  {
    if width == 0 then [] else ToBigEndian(n / 256, width - 1) + [n % 256]
  }

  /** A two's-complement integer fits. */
  predicate Fits(n: int, width: nat) { 0 <= 2 * n + Power(256, width) && 2 * n < Power(256, width) }

  function Signed(n: int, width: nat): (s: seq<byte>)
    requires Fits(n, width)
    ensures |s| == width
  {
    ToBigEndian(if n < 0 then n + Power(256, width) else n, width)
  }

  lemma {:induction false} BigEndianReadsBack(n: nat, width: nat)
    requires n < Power(256, width)
    ensures BigEndian(ToBigEndian(n, width)) == n
  {
    if width > 0 {
      assert n / 256 < Power(256, width - 1);
      BigEndianReadsBack(n / 256, width - 1);
      var s := ToBigEndian(n, width);
      assert s[..width - 1] == ToBigEndian(n / 256, width - 1);
    }
  }

  /** The first bit is the sign. */
  lemma {:induction false} FirstBit(n: nat, width: nat)
    requires 0 < width && n < Power(256, width)
    ensures ToBigEndian(n, width)[0] < 128 <==> 2 * n < Power(256, width)
  {
    if width == 1 {
      assert Power(256, 1) == 256;
    } else {
      assert n / 256 < Power(256, width - 1);
      FirstBit(n / 256, width - 1);
      assert Power(256, width) == 256 * Power(256, width - 1);
      HalfOf(n, Power(256, width - 2), Power(256, width - 1));
    }
  }

  lemma HalfOf(n: nat, quarter: nat, power: nat)
    requires power == 256 * quarter
    ensures 2 * (n / 256) < power <==> 2 * n < 256 * power
  {
  }

  lemma SignedReadsBack(n: int, width: nat)
    requires 0 < width && Fits(n, width)
    ensures BigEndianSigned(Signed(n, width)) == n
  {
    var m := if n < 0 then n + Power(256, width) else n;
    BigEndianReadsBack(m, width);
    FirstBit(m, width);
  }

  /** How a string is spelt: coder 0 is Latin-1, any other UTF-16 with the low byte first. */
  datatype Spelling = Spelling(text: Text, coder: byte)

  predicate Units(text: Text, limit: nat) { forall i :: 0 <= i < |text| ==> text[i] < limit }

  function Utf16Bytes(text: Text): (s: seq<byte>)
    requires Units(text, 0x1_0000)
    ensures |s| == 2 * |text|
  {
    if text == [] then [] else [text[0] % 256, text[0] / 256] + Utf16Bytes(text[1..])
  }

  predicate Encodes(sp: Spelling) { Units(sp.text, if sp.coder == 0 then 256 else 0x1_0000) }

  function Encoded(sp: Spelling): (s: seq<byte>)
    requires Encodes(sp)
    ensures s == [] <==> sp.text == []
  {
    if sp.coder == 0 then seq(|sp.text|, i requires 0 <= i < |sp.text| => sp.text[i]) else Utf16Bytes(sp.text)
  }

  lemma {:induction false} Utf16ReadsBack(text: Text)
    requires Units(text, 0x1_0000)
    ensures Utf16(Utf16Bytes(text)) == text
  {
    if text != [] {
      Utf16ReadsBack(text[1..]);
      assert Utf16Bytes(text)[2..] == Utf16Bytes(text[1..]);
    }
  }

  lemma EncodedReadsBack(sp: Spelling)
    requires Encodes(sp)
    ensures DecodeText(sp.coder, Encoded(sp)) == sp.text
  {
    if sp.coder != 0 { Utf16ReadsBack(sp.text); }
  }

  predicate StringFits(sp: Spelling) { Encodes(sp) && Fits(|Encoded(sp)|, 4) }

  /** An empty string is its length alone; any other is followed by its coder. */
  function StringBytes(sp: Spelling): seq<byte>
    requires StringFits(sp)
  {
    if sp.text == [] then Signed(0, 4) else Signed(|Encoded(sp)|, 4) + (Encoded(sp) + [sp.coder])
  }

  /** A string the log defines, under an index, or one it refers back to. */
  datatype Ref = Define(index: int, spelling: Spelling) | Refer(index: int)

  predicate RefFits(ref: Ref, c: Cache)
  {
    match ref
    case Define(index, spelling) => 0 <= index && Fits(index, 4) && StringFits(spelling)
    case Refer(index) => 0 < index && Fits(-index, 4) && index in c
  }

  function RefText(ref: Ref, c: Cache): Text
    requires RefFits(ref, c)
  {
    match ref
    case Define(_, spelling) => spelling.text
    case Refer(index) => c[index]
  }

  function RefCache(ref: Ref, c: Cache): Cache
  {
    match ref
    case Define(index, spelling) => c[index := spelling.text]
    case Refer(_) => c
  }

  function RefBytes(ref: Ref, c: Cache): seq<byte>
    requires RefFits(ref, c)
  {
    match ref
    case Define(index, spelling) => Signed(index, 4) + StringBytes(spelling)
    case Refer(index) => Signed(-index, 4)
  }

  // ----- What each of them reads as -----

  lemma NumberReads(n: int, rest: seq<byte>, c: Cache, f: Field)
    requires Fits(n, 4) && (f.Int32? || f.Many?)
    ensures ReadField(Signed(n, 4) + rest, c, f) == Done(Num(n), 4, c)
  {
    SignedReadsBack(n, 4);
    assert (Signed(n, 4) + rest)[..4] == Signed(n, 4);
  }

  lemma LongReads(n: int, rest: seq<byte>, c: Cache)
    requires Fits(n, 8)
    ensures ReadField(Signed(n, 8) + rest, c, Int64) == Done(Num(n), 8, c)
  {
    SignedReadsBack(n, 8);
    assert (Signed(n, 8) + rest)[..8] == Signed(n, 8);
  }

  /** A byte, read signed. */
  function ByteValue(b: byte): int { if b < 128 then b else b - 256 }

  lemma ByteReads(b: byte, rest: seq<byte>, c: Cache)
    ensures ReadField([b] + rest, c, Octet) == Done(Num(ByteValue(b)), 1, c)
  {
    assert ([b] + rest)[..1] == [b] && [b][..0] == [];
    assert BigEndian([b]) == b;
    assert Power(256, 1) == 256;
  }

  lemma LengthThen(length: seq<byte>, body: seq<byte>, coder: byte, rest: seq<byte>)
    requires |length| == 4
    ensures var r := length + (body + [coder]) + rest;
      r[..4] == length && r[4..4 + |body|] == body && r[4 + |body|] == coder
  {
  }

  lemma StringReads(sp: Spelling, rest: seq<byte>, c: Cache)
    requires StringFits(sp)
    ensures ReadInline(StringBytes(sp) + rest, c) == Done(Str(sp.text), |StringBytes(sp)|, c)
  {
    var body := Encoded(sp);
    if sp.text == [] {
      SignedReadsBack(0, 4);
      assert (Signed(0, 4) + rest)[..4] == Signed(0, 4);
    } else {
      SignedReadsBack(|body|, 4);
      LengthThen(Signed(|body|, 4), body, sp.coder, rest);
      EncodedReadsBack(sp);
    }
  }

  lemma RefReads(ref: Ref, rest: seq<byte>, c: Cache)
    requires RefFits(ref, c)
    ensures ReadField(RefBytes(ref, c) + rest, c, Cached)
         == Done(Str(RefText(ref, c)), |RefBytes(ref, c)|, RefCache(ref, c))
  {
    match ref
    case Define(index, spelling) =>
      var r := RefBytes(ref, c) + rest;
      SignedReadsBack(index, 4);
      Associates(Signed(index, 4), StringBytes(spelling), rest);
      assert r[..4] == Signed(index, 4) && r[4..] == StringBytes(spelling) + rest;
      StringReads(spelling, rest, c);
    case Refer(index) =>
      SignedReadsBack(-index, 4);
      assert (Signed(-index, 4) + rest)[..4] == Signed(-index, 4);
  }

  lemma PayloadReads(bytes: seq<byte>, rest: seq<byte>, c: Cache)
    requires Fits(|bytes|, 4)
    ensures ReadField(Signed(|bytes|, 4) + bytes + rest, c, Payload) == Done(Raw(bytes), 4 + |bytes|, c)
  {
    var r := Signed(|bytes|, 4) + bytes + rest;
    SignedReadsBack(|bytes|, 4);
    assert r[..4] == Signed(|bytes|, 4) && r[4..4 + |bytes|] == bytes;
  }

  // ----- Fields one after the other -----

  /** A field as it was written, the value it has, and the cache before and after it. */
  datatype Cell = Cell(f: Field, bytes: seq<byte>, v: Value, before: Cache, after: Cache)

  /** It reads as that, whatever follows. */
  ghost predicate CellReads(cell: Cell)
  {
    && Kind(cell.f, cell.v) && cell.bytes != []
    && forall rest :: ReadField(cell.bytes + rest, cell.before, cell.f) == Done(cell.v, |cell.bytes|, cell.after)
  }

  function CellBytes(cells: seq<Cell>): (s: seq<byte>)
  {
    if cells == [] then [] else cells[0].bytes + CellBytes(cells[1..])
  }

  function CellValues(cells: seq<Cell>): (vs: seq<Value>)
    ensures |vs| == |cells| && forall i :: 0 <= i < |cells| ==> vs[i] == cells[i].v
  {
    seq(|cells|, i requires 0 <= i < |cells| => cells[i].v)
  }

  /** The cells are what these fields ask for, and each begins with the cache the last one left. */
  ghost predicate Follow(fs: seq<Field>, cells: seq<Cell>, c: Cache, d: Cache)
    decreases |cells|
  {
    if cells == [] then fs == [] && c == d
    else
      && fs != [] && cells[0].f == fs[0] && cells[0].before == c && CellReads(cells[0])
      && Follow(Rest(fs, cells[0].v), cells[1..], cells[0].after, d)
  }

  lemma BytesOf(cell: Cell, cells: seq<Cell>)
    ensures CellBytes([cell] + cells) == cell.bytes + CellBytes(cells)
  {
    assert ([cell] + cells)[1..] == cells;
  }

  lemma ValuesOf(cell: Cell, cells: seq<Cell>)
    ensures CellValues([cell] + cells) == [cell.v] + CellValues(cells)
  {
  }

  /** `ReadFields` reads these cells, whatever follows. */
  ghost predicate AllRead(fs: seq<Field>, cells: seq<Cell>, rest: seq<byte>, c: Cache, d: Cache)
  {
    ReadFields(CellBytes(cells) + rest, c, fs) == Done(CellValues(cells), |CellBytes(cells)|, d)
  }

  lemma OneMoreRead(fs: seq<Field>, cell: Cell, cells: seq<Cell>, rest: seq<byte>, d: Cache)
    requires fs != [] && cell.f == fs[0] && CellReads(cell) && AllRead(Rest(fs, cell.v), cells, rest, cell.after, d)
    ensures AllRead(fs, [cell] + cells, rest, cell.before, d)
  {
    var all, later := [cell] + cells, CellBytes(cells);
    assert all[1..] == cells;
    Associates(cell.bytes, later, rest);
    FirstCellRead(fs, cell, later + rest, cell.before);
    ValuesOf(cell, cells);
  }

  lemma {:induction false} CellsRead(fs: seq<Field>, cells: seq<Cell>, rest: seq<byte>, c: Cache, d: Cache)
    requires Follow(fs, cells, c, d)
    ensures AllRead(fs, cells, rest, c, d)
    decreases |cells|
  {
    if cells == [] {
      NoFields(fs, CellBytes(cells) + rest, c);
      assert CellValues(cells) == [];
    } else {
      var cell, later := cells[0], cells[1..];
      CellsRead(Rest(fs, cell.v), later, rest, cell.after, d);
      OneMoreRead(fs, cell, later, rest, d);
      assert [cell] + later == cells;
    }
  }

  lemma NoFields(fs: seq<Field>, r: seq<byte>, c: Cache)
    requires fs == []
    ensures ReadFields(r, c, fs) == Done([], 0, c)
  {
  }

  lemma FirstCellRead(fs: seq<Field>, cell: Cell, tail: seq<byte>, c: Cache)
    requires fs != [] && cell.f == fs[0] && cell.before == c && CellReads(cell)
    ensures var later := ReadFields(tail, cell.after, Rest(fs, cell.v));
      later.Done? ==>
        ReadFields(cell.bytes + tail, c, fs) == Done([cell.v] + later.value, |cell.bytes| + later.used, later.cache)
  {
    assert (cell.bytes + tail)[|cell.bytes|..] == tail;
  }

  lemma {:induction false} CellsJoin(a: seq<Cell>, b: seq<Cell>)
    ensures CellBytes(a + b) == CellBytes(a) + CellBytes(b)
  {
    if a == [] {
      EmptyThen(a, b);
      EmptyThen(CellBytes(a), CellBytes(b));
    } else {
      assert (a + b)[1..] == a[1..] + b;
      CellsJoin(a[1..], b);
      Associates(a[0].bytes, CellBytes(a[1..]), CellBytes(b));
    }
  }

  lemma ValuesJoin(a: seq<Cell>, b: seq<Cell>)
    ensures CellValues(a + b) == CellValues(a) + CellValues(b)
  {
  }

  // ----- Cells -----

  function NumberCell(f: Field, n: int, c: Cache): Cell
    requires Fits(n, 4)
  {
    Cell(f, Signed(n, 4), Num(n), c, c)
  }

  function ByteCell(b: byte, c: Cache): Cell { Cell(Octet, [b], Num(ByteValue(b)), c, c) }

  function RefCell(ref: Ref, c: Cache): Cell
    requires RefFits(ref, c)
  {
    Cell(Cached, RefBytes(ref, c), Str(RefText(ref, c)), c, RefCache(ref, c))
  }

  lemma NumberCellReads(f: Field, n: int, c: Cache)
    requires Fits(n, 4) && (f.Int32? || f.Many?)
    ensures CellReads(NumberCell(f, n, c))
  {
    forall rest ensures ReadField(Signed(n, 4) + rest, c, f) == Done(Num(n), 4, c) { NumberReads(n, rest, c, f); }
  }

  lemma ByteCellReads(b: byte, c: Cache)
    ensures CellReads(ByteCell(b, c))
  {
    forall rest ensures ReadField([b] + rest, c, Octet) == Done(Num(ByteValue(b)), 1, c) { ByteReads(b, rest, c); }
  }

  lemma RefCellReads(ref: Ref, c: Cache)
    requires RefFits(ref, c)
    ensures CellReads(RefCell(ref, c))
  {
    var cell := RefCell(ref, c);
    forall rest ensures ReadField(cell.bytes + rest, c, Cached) == Done(cell.v, |cell.bytes|, cell.after) {
      RefReads(ref, rest, c);
    }
  }

  // ----- Strings in a row, each seeing what the ones before it define -----

  predicate RefsFit(refs: seq<Ref>, c: Cache)
  {
    refs == [] || (RefFits(refs[0], c) && RefsFit(refs[1..], RefCache(refs[0], c)))
  }

  function RefsCache(refs: seq<Ref>, c: Cache): Cache
  {
    if refs == [] then c else RefsCache(refs[1..], RefCache(refs[0], c))
  }

  function RefsText(refs: seq<Ref>, c: Cache): (texts: seq<Text>)
    requires RefsFit(refs, c)
    ensures |texts| == |refs|
  {
    if refs == [] then [] else [RefText(refs[0], c)] + RefsText(refs[1..], RefCache(refs[0], c))
  }

  function RefsBytes(refs: seq<Ref>, c: Cache): seq<byte>
    requires RefsFit(refs, c)
  {
    if refs == [] then [] else RefBytes(refs[0], c) + RefsBytes(refs[1..], RefCache(refs[0], c))
  }

  function RefCells(refs: seq<Ref>, c: Cache): (cells: seq<Cell>)
    requires RefsFit(refs, c)
    ensures |cells| == |refs|
  {
    if refs == [] then [] else [RefCell(refs[0], c)] + RefCells(refs[1..], RefCache(refs[0], c))
  }

  function Strs(texts: seq<Text>): (vs: seq<Value>)
    ensures |vs| == |texts| && forall i :: 0 <= i < |texts| ==> vs[i] == Str(texts[i])
  {
    seq(|texts|, i requires 0 <= i < |texts| => Str(texts[i]))
  }

  lemma StrsOne(text: Text, texts: seq<Text>)
    ensures Strs([text] + texts) == [Str(text)] + Strs(texts)
  {
  }

  lemma {:induction false} RefCellsAre(refs: seq<Ref>, c: Cache)
    requires RefsFit(refs, c)
    ensures CellBytes(RefCells(refs, c)) == RefsBytes(refs, c)
    ensures CellValues(RefCells(refs, c)) == Strs(RefsText(refs, c))
  {
    if refs != [] {
      var cell := RefCell(refs[0], c);
      var more := RefCells(refs[1..], cell.after);
      RefCellsAre(refs[1..], cell.after);
      BytesOf(cell, more);
      ValuesOf(cell, more);
      StrsOne(RefText(refs[0], c), RefsText(refs[1..], cell.after));
    }
  }

  lemma FollowOne(cell: Cell, fs: seq<Field>, cells: seq<Cell>, d: Cache)
    requires CellReads(cell) && Follow(Rest([cell.f] + fs, cell.v), cells, cell.after, d)
    ensures Follow([cell.f] + fs, [cell] + cells, cell.before, d)
  {
    assert ([cell] + cells)[1..] == cells;
  }

  lemma RepeatOnce<T>(x: T, n: nat, more: seq<T>)
    requires n > 0
    ensures Repeat(x, n) + more == [x] + (Repeat(x, n - 1) + more)
  {
  }

  lemma PlainRest(f: Field, fs: seq<Field>, v: Value)
    requires !f.Many?
    ensures Rest([f] + fs, v) == fs
  {
  }

  /** After a list's count, its strings, then the fields after it. */
  lemma {:induction false} FollowRefs(refs: seq<Ref>, c: Cache, fs: seq<Field>, tail: seq<Cell>, d: Cache)
    requires RefsFit(refs, c) && Follow(fs, tail, RefsCache(refs, c), d)
    ensures Follow(Repeat(Cached, |refs|) + fs, RefCells(refs, c) + tail, c, d)
  {
    if refs == [] {
      EmptyThen(Repeat(Cached, 0), fs);
      EmptyThen(RefCells(refs, c), tail);
    } else {
      var cell, more := RefCell(refs[0], c), RefCells(refs[1..], RefCache(refs[0], c));
      RefCellReads(refs[0], c);
      FollowRefs(refs[1..], cell.after, fs, tail, d);
      PlainRest(Cached, Repeat(Cached, |refs| - 1) + fs, cell.v);
      FollowOne(cell, Repeat(Cached, |refs| - 1) + fs, more + tail, d);
      RepeatOnce(Cached, |refs|, fs);
      Associates([cell], more, tail);
    }
  }

  // ----- Records, from the format alone -----

  /** One record as it is written; times are offsets from the start of the run. */
  datatype Written =
    | RequestRecord(groups: seq<Ref>, name: Ref, start: int, end: int, ok: byte, message: Ref)
    | UserRecord(scenario: int, isStart: byte, ts: int)
    | GroupRecord(groups: seq<Ref>, start: int, end: int, cumulated: int, ok: byte)
    | ErrorRecord(message: Ref, ts: int)

  predicate RecordFits(w: Written, c: Cache, scenarios: seq<Text>)
  {
    match w
    case RequestRecord(groups, name, start, end, _, message) =>
      var named := RefsCache(groups, c);
      && Fits(|groups|, 4) && RefsFit(groups, c) && RefFits(name, named) && RefFits(message, RefCache(name, named))
      && Fits(start, 4) && Fits(end, 4)
    case UserRecord(scenario, _, ts) => 0 <= scenario < |scenarios| && Fits(scenario, 4) && Fits(ts, 4)
    case GroupRecord(groups, start, end, cumulated, _) =>
      && Fits(|groups|, 4) && RefsFit(groups, c) && Fits(start, 4) && Fits(end, 4) && Fits(cumulated, 4)
    case ErrorRecord(message, ts) => RefFits(message, c) && Fits(ts, 4)
  }

  /** The strings the log has defined once the record is written. */
  function CacheAfter(w: Written, c: Cache): Cache
  {
    match w
    case RequestRecord(groups, name, _, _, _, message) => RefCache(message, RefCache(name, RefsCache(groups, c)))
    case UserRecord(_, _, _) => c
    case GroupRecord(groups, _, _, _, _) => RefsCache(groups, c)
    case ErrorRecord(message, _) => RefCache(message, c)
  }

  /** Type byte, then the fields in the format's order. */
  function WriteRecord(w: Written, c: Cache, scenarios: seq<Text>): seq<byte>
    requires RecordFits(w, c, scenarios)
  {
    match w
    case RequestRecord(groups, name, start, end, ok, message) =>
      var named := RefsCache(groups, c);
      [1] + (Signed(|groups|, 4) + (RefsBytes(groups, c) + (RefBytes(name, named) + (Signed(start, 4) +
        (Signed(end, 4) + ([ok] + RefBytes(message, RefCache(name, named))))))))
    case UserRecord(scenario, isStart, ts) => [2] + (Signed(scenario, 4) + ([isStart] + Signed(ts, 4)))
    case GroupRecord(groups, start, end, cumulated, ok) =>
      [3] + (Signed(|groups|, 4) + (RefsBytes(groups, c) + (Signed(start, 4) + (Signed(end, 4) +
        (Signed(cumulated, 4) + [ok])))))
    case ErrorRecord(message, ts) => [4] + (RefBytes(message, c) + Signed(ts, 4))
  }

  /** What the record says, in a run that started at `startMs`, with so many user records before it. */
  function EventOf(w: Written, c: Cache, startMs: int, scenarios: seq<Text>, users: nat): Event
    requires RecordFits(w, c, scenarios)
  {
    match w
    case RequestRecord(groups, name, start, end, ok, message) =>
      var named := RefsCache(groups, c);
      var text := RefText(message, RefCache(name, named));
      Request(RefsText(groups, c), RefText(name, named), startMs + start, startMs + end, ok != 0,
              if text == [] then None else Some(text))
    case UserRecord(scenario, isStart, ts) => User(scenarios[scenario], users, isStart != 0, startMs + ts)
    case GroupRecord(groups, start, end, cumulated, ok) =>
      Group(RefsText(groups, c), startMs + start, startMs + end, cumulated, ok != 0)
    case ErrorRecord(message, ts) => Error(RefText(message, c), startMs + ts)
  }

  /** Each record sees the strings the ones before it defined. */
  predicate RecordsFit(ws: seq<Written>, c: Cache, scenarios: seq<Text>)
  {
    ws == [] || (RecordFits(ws[0], c, scenarios) && RecordsFit(ws[1..], CacheAfter(ws[0], c), scenarios))
  }

  function WriteRecords(ws: seq<Written>, c: Cache, scenarios: seq<Text>): seq<byte>
    requires RecordsFit(ws, c, scenarios)
  {
    if ws == [] then []
    else WriteRecord(ws[0], c, scenarios) + WriteRecords(ws[1..], CacheAfter(ws[0], c), scenarios)
  }

  /** Users are numbered by the user records before theirs, in file order. */
  function EventsOf(ws: seq<Written>, c: Cache, startMs: int, scenarios: seq<Text>, users: nat): (events: seq<Event>)
    requires RecordsFit(ws, c, scenarios)
    ensures |events| == |ws|
  {
    if ws == [] then []
    else
      [EventOf(ws[0], c, startMs, scenarios, users)] +
      EventsOf(ws[1..], CacheAfter(ws[0], c), startMs, scenarios, users + if ws[0].UserRecord? then 1 else 0)
  }

  // ----- The header, from the format alone -----

  /** The Run record a log starts with. */
  datatype WrittenHeader = WrittenHeader(
    version: Spelling, simulation: Spelling, startMs: int, description: Spelling,
    scenarios: seq<Spelling>, assertions: seq<seq<byte>>)

  predicate HeaderFits(h: WrittenHeader)
  {
    && StringFits(h.version) && StringFits(h.simulation) && StringFits(h.description) && Fits(h.startMs, 8)
    && Fits(|h.scenarios|, 4) && StringsFit(h.scenarios) && Fits(|h.assertions|, 4) && PayloadsFit(h.assertions)
  }

  predicate StringsFit(sps: seq<Spelling>) { forall i :: 0 <= i < |sps| ==> StringFits(sps[i]) }

  predicate PayloadsFit(ps: seq<seq<byte>>) { forall i :: 0 <= i < |ps| ==> Fits(|ps[i]|, 4) }

  function StringsBytes(sps: seq<Spelling>): seq<byte>
    requires StringsFit(sps)
  {
    if sps == [] then [] else StringBytes(sps[0]) + StringsBytes(sps[1..])
  }

  function PayloadsBytes(ps: seq<seq<byte>>): seq<byte>
    requires PayloadsFit(ps)
  {
    if ps == [] then [] else Signed(|ps[0]|, 4) + ps[0] + PayloadsBytes(ps[1..])
  }

  /** The strings themselves. */
  function Spelt(sps: seq<Spelling>): (texts: seq<Text>)
    ensures |texts| == |sps|
  {
    seq(|sps|, i requires 0 <= i < |sps| => sps[i].text)
  }

  function WriteHeader(h: WrittenHeader): seq<byte>
    requires HeaderFits(h)
  {
    [0] + (StringBytes(h.version) + (StringBytes(h.simulation) + (Signed(h.startMs, 8) +
      (StringBytes(h.description) + (Signed(|h.scenarios|, 4) + (StringsBytes(h.scenarios) +
      (Signed(|h.assertions|, 4) + PayloadsBytes(h.assertions))))))))
  }

  /** A whole log: its header, then its records. */
  predicate LogFits(h: WrittenHeader, ws: seq<Written>) { HeaderFits(h) && RecordsFit(ws, map[], Spelt(h.scenarios)) }

  function WriteLog(h: WrittenHeader, ws: seq<Written>): (s: seq<byte>)
    requires LogFits(h, ws)
  {
    WriteHeader(h) + WriteRecords(ws, map[], Spelt(h.scenarios))
  }

  /** What the header says. */
  function MetaEvent(h: WrittenHeader): Event
  {
    Meta(h.simulation.text, h.version.text, h.startMs,
         if h.description.text == [] then None else Some(h.description.text), h.assertions)
  }

  // ----- Reading a record back -----

  lemma ValuesFit(fs: seq<Field>, cells: seq<Cell>, c: Cache, d: Cache)
    requires Follow(fs, cells, c, d)
    ensures SimulationLog.Fits(fs, CellValues(cells))
  {
    CellsRead(fs, cells, [], c, d);
    FieldsFit(CellBytes(cells) + [], c, fs);
  }

  lemma RecordOf(kind: byte, cells: seq<Cell>, rest: seq<byte>, c: Cache, d: Cache, h: Header, users: nat)
    requires kind < 128 && Shape(kind).Some? && Follow(Shape(kind).value, cells, c, d)
    requires SimulationLog.Fits(Shape(kind).value, CellValues(cells))
    ensures var event := ToEvent(kind, CellValues(cells), h, users);
      event.Some? ==>
        ReadRecord([kind] + CellBytes(cells) + rest, c, h, users) == Done(event.value, 1 + |CellBytes(cells)|, d)
  {
    var r := [kind] + CellBytes(cells) + rest;
    Associates([kind], CellBytes(cells), rest);
    ByteReads(kind, CellBytes(cells) + rest, c);
    assert r[1..] == CellBytes(cells) + rest;
    CellsRead(Shape(kind).value, cells, rest, c, d);
  }

  lemma TextsOfStrs(texts: seq<Text>)
    ensures forall v :: v in Strs(texts) ==> v.Str?
    ensures Texts(Strs(texts)) == texts
  {
  }

  /** The parts of a value list that starts with a count. */
  lemma PartsOf(texts: seq<Text>, tail: seq<Value>)
    ensures var vs := [Num(|texts|)] + (Strs(texts) + tail);
      && 1 + Count(vs[0]) <= |vs| && Listed(vs) == Strs(texts) && After(vs) == tail
      && (forall v :: v in Listed(vs) ==> v.Str?) && Texts(Listed(vs)) == texts
  {
    var vs := [Num(|texts|)] + (Strs(texts) + tail);
    TextsOfStrs(texts);
    assert vs[1..1 + |texts|] == Strs(texts) && vs[1 + |texts|..] == tail;
  }

  /** A list's cells: its count, its strings, the fields after it. */
  function ListCells(groups: seq<Ref>, c: Cache, tail: seq<Cell>): seq<Cell>
    requires RefsFit(groups, c) && Fits(|groups|, 4)
  {
    [NumberCell(Many(Cached), |groups|, c)] + (RefCells(groups, c) + tail)
  }

  lemma ListCellsAre(groups: seq<Ref>, c: Cache, fs: seq<Field>, tail: seq<Cell>, d: Cache)
    requires RefsFit(groups, c) && Fits(|groups|, 4) && Follow(fs, tail, RefsCache(groups, c), d)
    ensures Follow([Many(Cached)] + fs, ListCells(groups, c, tail), c, d)
    ensures CellBytes(ListCells(groups, c, tail)) == Signed(|groups|, 4) + (RefsBytes(groups, c) + CellBytes(tail))
    ensures CellValues(ListCells(groups, c, tail)) ==
            [Num(|groups|)] + (Strs(RefsText(groups, c)) + CellValues(tail))
  {
    var count := NumberCell(Many(Cached), |groups|, c);
    NumberCellReads(Many(Cached), |groups|, c);
    FollowRefs(groups, c, fs, tail, d);
    ManyRest(fs, |groups|);
    FollowOne(count, fs, RefCells(groups, c) + tail, d);
    BytesOf(count, RefCells(groups, c) + tail);
    ValuesOf(count, RefCells(groups, c) + tail);
    CellsJoin(RefCells(groups, c), tail);
    ValuesJoin(RefCells(groups, c), tail);
    RefCellsAre(groups, c);
  }

  lemma ManyRest(fs: seq<Field>, n: nat)
    ensures Rest([Many(Cached)] + fs, Num(n)) == Repeat(Cached, n) + fs
  {
    assert ([Many(Cached)] + fs)[1..] == fs;
  }

  /** One cell in front, as fields, bytes and values. */
  lemma OneInFront(cell: Cell, fs: seq<Field>, cells: seq<Cell>, d: Cache)
    requires CellReads(cell) && !cell.f.Many? && Follow(fs, cells, cell.after, d)
    ensures Follow([cell.f] + fs, [cell] + cells, cell.before, d)
    ensures CellBytes([cell] + cells) == cell.bytes + CellBytes(cells)
    ensures CellValues([cell] + cells) == [cell.v] + CellValues(cells)
  {
    PlainRest(cell.f, fs, cell.v);
    FollowOne(cell, fs, cells, d);
    BytesOf(cell, cells);
    ValuesOf(cell, cells);
  }

  lemma LastCell(cell: Cell)
    requires CellReads(cell) && !cell.f.Many?
    ensures Follow([cell.f], [cell], cell.before, cell.after)
    ensures CellBytes([cell]) == cell.bytes && CellValues([cell]) == [cell.v]
  {
    OneInFront(cell, [], [], cell.after);
    assert [cell] + [] == [cell] && [cell.f] + [] == [cell.f];
    EmptyThen(CellBytes([]), cell.bytes);
    assert [cell.v] + CellValues([]) == [cell.v];
  }
}
