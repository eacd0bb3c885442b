/**
 * Reading back what was written: whatever header and records a log is written
 * with, the decoder (packages/plugin-gatling/src/record-decoder.ts, header.ts,
 * reader.ts) answers exactly those.
 */
module LogRoundTrip {
  import opened Bytes
  import opened Feed
  import opened SimulationLog
  import opened LogWriter
  import StreamingDecoder

  // ----- The cells after a record's list -----

  lemma OutcomeCells(ok: byte, message: Ref, c: Cache) returns (cells: seq<Cell>)
    requires RefFits(message, c)
    ensures Follow([Octet, Cached], cells, c, RefCache(message, c))
    ensures CellBytes(cells) == [ok] + RefBytes(message, c)
    ensures CellValues(cells) == [Num(ByteValue(ok)), Str(RefText(message, c))]
  {
    RefCellReads(message, c);
    LastCell(RefCell(message, c));
    cells := [RefCell(message, c)];
    ByteCellReads(ok, c);
    OneInFront(ByteCell(ok, c), [Cached], cells, RefCache(message, c));
    cells := [ByteCell(ok, c)] + cells;
    assert [Octet] + [Cached] == [Octet, Cached];
  }

  lemma IntInFront(n: int, fs: seq<Field>, later: seq<Cell>, c: Cache, d: Cache) returns (cells: seq<Cell>)
    requires LogWriter.Fits(n, 4) && Follow(fs, later, c, d)
    ensures Follow([Int32] + fs, cells, c, d)
    ensures CellBytes(cells) == Signed(n, 4) + CellBytes(later)
    ensures CellValues(cells) == [Num(n)] + CellValues(later)
  {
    NumberCellReads(Int32, n, c);
    OneInFront(NumberCell(Int32, n, c), fs, later, d);
    cells := [NumberCell(Int32, n, c)] + later;
  }

  lemma TimedCells(start: int, end: int, later: seq<Cell>, c: Cache, d: Cache) returns (cells: seq<Cell>)
    requires LogWriter.Fits(start, 4) && LogWriter.Fits(end, 4) && Follow([Octet, Cached], later, c, d)
    ensures Follow([Int32, Int32, Octet, Cached], cells, c, d)
    ensures CellBytes(cells) == Signed(start, 4) + (Signed(end, 4) + CellBytes(later))
    ensures CellValues(cells) == [Num(start)] + ([Num(end)] + CellValues(later))
  {
    cells := IntInFront(end, [Octet, Cached], later, c, d);
    cells := IntInFront(start, [Int32] + [Octet, Cached], cells, c, d);
    assert [Int32] + ([Int32] + [Octet, Cached]) == [Int32, Int32, Octet, Cached];
  }

  lemma NamedCells(name: Ref, later: seq<Cell>, c: Cache, d: Cache) returns (cells: seq<Cell>)
    requires RefFits(name, c) && Follow([Int32, Int32, Octet, Cached], later, RefCache(name, c), d)
    ensures Follow([Cached, Int32, Int32, Octet, Cached], cells, c, d)
    ensures CellBytes(cells) == RefBytes(name, c) + CellBytes(later)
    ensures CellValues(cells) == [Str(RefText(name, c))] + CellValues(later)
  {
    RefCellReads(name, c);
    OneInFront(RefCell(name, c), [Int32, Int32, Octet, Cached], later, d);
    cells := [RefCell(name, c)] + later;
    assert [Cached] + [Int32, Int32, Octet, Cached] == [Cached, Int32, Int32, Octet, Cached];
  }

  lemma RequestTail(name: Ref, start: int, end: int, ok: byte, message: Ref, c: Cache, d: Cache)
    returns (cells: seq<Cell>)
    requires RefFits(name, c) && d == RefCache(name, c) && RefFits(message, d)
    requires LogWriter.Fits(start, 4) && LogWriter.Fits(end, 4)
    ensures Follow([Cached, Int32, Int32, Octet, Cached], cells, c, RefCache(message, d))
    ensures CellBytes(cells) ==
            RefBytes(name, c) + (Signed(start, 4) + (Signed(end, 4) + ([ok] + RefBytes(message, d))))
    ensures CellValues(cells) ==
            [Str(RefText(name, c))] + ([Num(start)] + ([Num(end)] + [Num(ByteValue(ok)), Str(RefText(message, d))]))
  {
    cells := OutcomeCells(ok, message, d);
    cells := TimedCells(start, end, cells, d, RefCache(message, d));
    cells := NamedCells(name, cells, c, RefCache(message, d));
  }

  lemma GroupTail(start: int, end: int, cumulated: int, ok: byte, c: Cache) returns (cells: seq<Cell>)
    requires LogWriter.Fits(start, 4) && LogWriter.Fits(end, 4) && LogWriter.Fits(cumulated, 4)
    ensures Follow([Int32, Int32, Int32, Octet], cells, c, c)
    ensures CellBytes(cells) == Signed(start, 4) + (Signed(end, 4) + (Signed(cumulated, 4) + [ok]))
    ensures CellValues(cells) == [Num(start), Num(end), Num(cumulated), Num(ByteValue(ok))]
  {
    ByteCellReads(ok, c);
    LastCell(ByteCell(ok, c));
    cells := IntInFront(cumulated, [Octet], [ByteCell(ok, c)], c, c);
    cells := IntInFront(end, [Int32] + [Octet], cells, c, c);
    cells := IntInFront(start, [Int32] + ([Int32] + [Octet]), cells, c, c);
    assert [Int32] + ([Int32] + ([Int32] + [Octet])) == [Int32, Int32, Int32, Octet];
  }

  lemma UserCells(scenario: int, isStart: byte, ts: int, c: Cache) returns (cells: seq<Cell>)
    requires LogWriter.Fits(scenario, 4) && LogWriter.Fits(ts, 4)
    ensures Follow([Int32, Octet, Int32], cells, c, c)
    ensures CellBytes(cells) == Signed(scenario, 4) + ([isStart] + Signed(ts, 4))
    ensures CellValues(cells) == [Num(scenario), Num(ByteValue(isStart)), Num(ts)]
  {
    NumberCellReads(Int32, ts, c);
    LastCell(NumberCell(Int32, ts, c));
    cells := [NumberCell(Int32, ts, c)];
    ByteCellReads(isStart, c);
    OneInFront(ByteCell(isStart, c), [Int32], cells, c);
    cells := [ByteCell(isStart, c)] + cells;
    NumberCellReads(Int32, scenario, c);
    OneInFront(NumberCell(Int32, scenario, c), [Octet] + [Int32], cells, c);
    cells := [NumberCell(Int32, scenario, c)] + cells;
    assert [Int32] + ([Octet] + [Int32]) == [Int32, Octet, Int32];
  }

  lemma ErrorCells(message: Ref, ts: int, c: Cache) returns (cells: seq<Cell>)
    requires RefFits(message, c) && LogWriter.Fits(ts, 4)
    ensures Follow([Cached, Int32], cells, c, RefCache(message, c))
    ensures CellBytes(cells) == RefBytes(message, c) + Signed(ts, 4)
    ensures CellValues(cells) == [Str(RefText(message, c)), Num(ts)]
  {
    var d := RefCache(message, c);
    NumberCellReads(Int32, ts, d);
    LastCell(NumberCell(Int32, ts, d));
    cells := [NumberCell(Int32, ts, d)];
    RefCellReads(message, c);
    OneInFront(RefCell(message, c), [Int32], cells, d);
    cells := [RefCell(message, c)] + cells;
    assert [Cached] + [Int32] == [Cached, Int32];
  }

  // ----- A record -----

  /** The record reads back as what it says, whatever follows it. */
  ghost predicate RecordReads(w: Written, rest: seq<byte>, c: Cache, h: Header, users: nat)
    requires RecordFits(w, c, h.scenarios)
  {
    var bytes := WriteRecord(w, c, h.scenarios);
    ReadRecord(bytes + rest, c, h, users)
      == Done(EventOf(w, c, h.startMs, h.scenarios, users), |bytes|, CacheAfter(w, c))
  }

  /** The values of a request's fields after its groups. */
  function RequestRest(name: Text, start: int, end: int, ok: byte, message: Text): seq<Value>
  {
    [Str(name)] + ([Num(start)] + ([Num(end)] + [Num(ByteValue(ok)), Str(message)]))
  }

  lemma KindOne(vs: seq<Value>, h: Header, users: nat)
    requires SimulationLog.Fits([Many(Cached), Cached, Int32, Int32, Octet, Cached], vs)
    ensures ToEvent(1, vs, h, users) == Some(ToRequest(vs, h.startMs))
  {
  }

  lemma RequestOf(
      vs: seq<Value>, texts: seq<Text>, name: Text, start: int, end: int, ok: byte, message: Text, base: int)
    requires vs == [Num(|texts|)] + (Strs(texts) + RequestRest(name, start, end, ok, message))
    requires SimulationLog.Fits([Many(Cached), Cached, Int32, Int32, Octet, Cached], vs)
    ensures ToRequest(vs, base) == Request(texts, name, base + start, base + end, ok != 0, OrAbsent(message))
  {
    PartsOf(texts, RequestRest(name, start, end, ok, message));
  }

  lemma KindThree(vs: seq<Value>, h: Header, users: nat)
    requires SimulationLog.Fits([Many(Cached), Int32, Int32, Int32, Octet], vs)
    ensures ToEvent(3, vs, h, users) == Some(ToGroup(vs, h.startMs))
  {
  }

  lemma GroupOf(vs: seq<Value>, texts: seq<Text>, start: int, end: int, cumulated: int, ok: byte, base: int)
    requires vs == [Num(|texts|)] + (Strs(texts) + [Num(start), Num(end), Num(cumulated), Num(ByteValue(ok))])
    requires SimulationLog.Fits([Many(Cached), Int32, Int32, Int32, Octet], vs)
    ensures ToGroup(vs, base) == Group(texts, base + start, base + end, cumulated, ok != 0)
  {
    PartsOf(texts, [Num(start), Num(end), Num(cumulated), Num(ByteValue(ok))]);
  }

  /** Cells that spell a record, and whose values are what it says, are the record read back. */
  lemma AsWritten(w: Written, kind: byte, cells: seq<Cell>, rest: seq<byte>, c: Cache, h: Header, users: nat)
    requires RecordFits(w, c, h.scenarios) && WriteRecord(w, c, h.scenarios) == [kind] + CellBytes(cells)
    requires kind < 128 && Shape(kind).Some? && Follow(Shape(kind).value, cells, c, CacheAfter(w, c))
    requires SimulationLog.Fits(Shape(kind).value, CellValues(cells))
    requires ToEvent(kind, CellValues(cells), h, users) == Some(EventOf(w, c, h.startMs, h.scenarios, users))
    ensures RecordReads(w, rest, c, h, users)
  {
    RecordOf(kind, cells, rest, c, CacheAfter(w, c), h, users);
  }

  lemma RequestBytes(w: Written, c: Cache, named: Cache, d: Cache, scenarios: seq<Text>, tail: seq<byte>)
    requires w.RequestRecord? && RecordFits(w, c, scenarios)
    requires named == RefsCache(w.groups, c) && d == RefCache(w.name, named)
    requires tail ==
             RefBytes(w.name, named) + (Signed(w.start, 4) + (Signed(w.end, 4) + ([w.ok] + RefBytes(w.message, d))))
    ensures WriteRecord(w, c, scenarios) == [1] + (Signed(|w.groups|, 4) + (RefsBytes(w.groups, c) + tail))
  {
  }

  lemma RequestCells(w: Written, c: Cache, named: Cache, d: Cache, scenarios: seq<Text>) returns (cells: seq<Cell>)
    requires w.RequestRecord? && RecordFits(w, c, scenarios)
    requires named == RefsCache(w.groups, c) && d == RefCache(w.name, named)
    ensures WriteRecord(w, c, scenarios) == [1] + CellBytes(cells)
    ensures Follow([Many(Cached), Cached, Int32, Int32, Octet, Cached], cells, c, RefCache(w.message, d))
    ensures CellValues(cells) == [Num(|w.groups|)] + (Strs(RefsText(w.groups, c)) +
                                   RequestRest(RefText(w.name, named), w.start, w.end, w.ok, RefText(w.message, d)))
  {
    var tail := RequestTail(w.name, w.start, w.end, w.ok, w.message, named, d);
    RequestBytes(w, c, named, d, scenarios, CellBytes(tail));
    ListCellsAre(w.groups, c, [Cached, Int32, Int32, Octet, Cached], tail, RefCache(w.message, d));
    RequestFields();
    cells := ListCells(w.groups, c, tail);
  }

  lemma RequestFields()
    ensures [Many(Cached)] + [Cached, Int32, Int32, Octet, Cached]
         == [Many(Cached), Cached, Int32, Int32, Octet, Cached]
  {
  }

  lemma GroupCells(w: Written, c: Cache, scenarios: seq<Text>) returns (cells: seq<Cell>)
    requires w.GroupRecord? && RecordFits(w, c, scenarios)
    ensures WriteRecord(w, c, scenarios) == [3] + CellBytes(cells)
    ensures Follow([Many(Cached), Int32, Int32, Int32, Octet], cells, c, CacheAfter(w, c))
    ensures CellValues(cells) == [Num(|w.groups|)] + (Strs(RefsText(w.groups, c)) +
                                   [Num(w.start), Num(w.end), Num(w.cumulated), Num(ByteValue(w.ok))])
  {
    var tail := GroupTail(w.start, w.end, w.cumulated, w.ok, CacheAfter(w, c));
    var fs := [Int32, Int32, Int32, Octet];
    ListCellsAre(w.groups, c, fs, tail, CacheAfter(w, c));
    assert [Many(Cached)] + fs == [Many(Cached), Int32, Int32, Int32, Octet];
    cells := ListCells(w.groups, c, tail);
  }

  lemma RequestSays(
      w: Written, c: Cache, named: Cache, d: Cache, startMs: int, scenarios: seq<Text>, users: nat, message: Text)
    requires w.RequestRecord? && RecordFits(w, c, scenarios)
    requires named == RefsCache(w.groups, c) && d == RefCache(w.name, named) && message == RefText(w.message, d)
    ensures EventOf(w, c, startMs, scenarios, users) ==
            Request(RefsText(w.groups, c), RefText(w.name, named), startMs + w.start, startMs + w.end, w.ok != 0,
                    OrAbsent(message))
  {
  }

  /** A request's cells, and the three parts of what it says that come from strings. */
  lemma RequestParts(w: Written, c: Cache, startMs: int, scenarios: seq<Text>, users: nat)
    returns (cells: seq<Cell>, texts: seq<Text>, name: Text, message: Text)
    requires w.RequestRecord? && RecordFits(w, c, scenarios)
    ensures WriteRecord(w, c, scenarios) == [1] + CellBytes(cells)
    ensures Follow([Many(Cached), Cached, Int32, Int32, Octet, Cached], cells, c, CacheAfter(w, c))
    ensures CellValues(cells) ==
            [Num(|texts|)] + (Strs(texts) + RequestRest(name, w.start, w.end, w.ok, message))
    ensures EventOf(w, c, startMs, scenarios, users) ==
            Request(texts, name, startMs + w.start, startMs + w.end, w.ok != 0, OrAbsent(message))
  {
    var named := RefsCache(w.groups, c);
    var d := RefCache(w.name, named);
    texts, name, message := RefsText(w.groups, c), RefText(w.name, named), RefText(w.message, d);
    cells := RequestCells(w, c, named, d, scenarios);
    RequestSays(w, c, named, d, startMs, scenarios, users, message);
  }

  lemma RequestEvent(
      w: Written, vs: seq<Value>, texts: seq<Text>, name: Text, message: Text, h: Header, users: nat)
    requires w.RequestRecord? && vs == [Num(|texts|)] + (Strs(texts) + RequestRest(name, w.start, w.end, w.ok, message))
    requires SimulationLog.Fits([Many(Cached), Cached, Int32, Int32, Octet, Cached], vs)
    ensures ToEvent(1, vs, h, users) ==
            Some(Request(texts, name, h.startMs + w.start, h.startMs + w.end, w.ok != 0, OrAbsent(message)))
  {
    RequestOf(vs, texts, name, w.start, w.end, w.ok, message, h.startMs);
    KindOne(vs, h, users);
  }

  lemma GroupEvent(w: Written, c: Cache, vs: seq<Value>, h: Header, users: nat)
    requires w.GroupRecord? && RecordFits(w, c, h.scenarios)
    requires SimulationLog.Fits([Many(Cached), Int32, Int32, Int32, Octet], vs)
    requires vs == [Num(|w.groups|)] + (Strs(RefsText(w.groups, c)) +
                     [Num(w.start), Num(w.end), Num(w.cumulated), Num(ByteValue(w.ok))])
    ensures ToEvent(3, vs, h, users) == Some(EventOf(w, c, h.startMs, h.scenarios, users))
  {
    GroupOf(vs, RefsText(w.groups, c), w.start, w.end, w.cumulated, w.ok, h.startMs);
    KindThree(vs, h, users);
  }

  lemma RequestReads(w: Written, rest: seq<byte>, c: Cache, h: Header, users: nat)
    requires w.RequestRecord? && RecordFits(w, c, h.scenarios)
    ensures RecordReads(w, rest, c, h, users)
  {
    var cells, texts, name, message := RequestParts(w, c, h.startMs, h.scenarios, users);
    ValuesFit([Many(Cached), Cached, Int32, Int32, Octet, Cached], cells, c, CacheAfter(w, c));
    RequestEvent(w, CellValues(cells), texts, name, message, h, users);
    AsWritten(w, 1, cells, rest, c, h, users);
  }

  lemma GroupReads(w: Written, rest: seq<byte>, c: Cache, h: Header, users: nat)
    requires w.GroupRecord? && RecordFits(w, c, h.scenarios)
    ensures RecordReads(w, rest, c, h, users)
  {
    var cells := GroupCells(w, c, h.scenarios);
    ValuesFit([Many(Cached), Int32, Int32, Int32, Octet], cells, c, CacheAfter(w, c));
    GroupEvent(w, c, CellValues(cells), h, users);
    AsWritten(w, 3, cells, rest, c, h, users);
  }

  lemma UserEvent(w: Written, c: Cache, vs: seq<Value>, h: Header, users: nat)
    requires w.UserRecord? && RecordFits(w, c, h.scenarios) && SimulationLog.Fits([Int32, Octet, Int32], vs)
    requires vs == [Num(w.scenario), Num(ByteValue(w.isStart)), Num(w.ts)]
    ensures ToEvent(2, vs, h, users) == Some(EventOf(w, c, h.startMs, h.scenarios, users))
  {
  }

  lemma ErrorEvent(w: Written, c: Cache, vs: seq<Value>, h: Header, users: nat)
    requires w.ErrorRecord? && RecordFits(w, c, h.scenarios) && SimulationLog.Fits([Cached, Int32], vs)
    requires vs == [Str(RefText(w.message, c)), Num(w.ts)]
    ensures ToEvent(4, vs, h, users) == Some(EventOf(w, c, h.startMs, h.scenarios, users))
  {
  }

  lemma UserReads(w: Written, rest: seq<byte>, c: Cache, h: Header, users: nat)
    requires w.UserRecord? && RecordFits(w, c, h.scenarios)
    ensures RecordReads(w, rest, c, h, users)
  {
    var cells := UserCells(w.scenario, w.isStart, w.ts, c);
    ValuesFit([Int32, Octet, Int32], cells, c, c);
    UserEvent(w, c, CellValues(cells), h, users);
    AsWritten(w, 2, cells, rest, c, h, users);
  }

  lemma ErrorReads(w: Written, rest: seq<byte>, c: Cache, h: Header, users: nat)
    requires w.ErrorRecord? && RecordFits(w, c, h.scenarios)
    ensures RecordReads(w, rest, c, h, users)
  {
    var cells := ErrorCells(w.message, w.ts, c);
    ValuesFit([Cached, Int32], cells, c, CacheAfter(w, c));
    ErrorEvent(w, c, CellValues(cells), h, users);
    AsWritten(w, 4, cells, rest, c, h, users);
  }

  lemma WrittenRecordReads(w: Written, rest: seq<byte>, c: Cache, h: Header, users: nat)
    requires RecordFits(w, c, h.scenarios)
    ensures RecordReads(w, rest, c, h, users)
  {
    match w
    case RequestRecord(_, _, _, _, _, _) => RequestReads(w, rest, c, h, users);
    case UserRecord(_, _, _) => UserReads(w, rest, c, h, users);
    case GroupRecord(_, _, _, _, _) => GroupReads(w, rest, c, h, users);
    case ErrorRecord(_, _) => ErrorReads(w, rest, c, h, users);
  }

  // ----- Records that cannot be read -----

  /** A type byte that is none of the four. */
  lemma UnknownKindStops(kind: byte, rest: seq<byte>, c: Cache, h: Header, users: nat)
    requires kind < 1 || kind > 4
    ensures ReadRecord([kind] + rest, c, h, users) == Broken(UnknownRecordType)
  {
    ByteReads(kind, rest, c);
  }

  /** A log that does not start with a Run record. */
  lemma NotARunStops(kind: byte, rest: seq<byte>)
    requires kind != 0
    ensures ReadHeader([kind] + rest) == Broken(NotARunRecord)
  {
    ByteReads(kind, rest, map[]);
  }

  /** A reference to a string the log has not defined. */
  lemma DanglingStops(index: int, rest: seq<byte>, c: Cache)
    requires 0 < index && LogWriter.Fits(-index, 4) && index !in c
    ensures ReadField(Signed(-index, 4) + rest, c, Cached) == Broken(DanglingReference)
  {
    SignedReadsBack(-index, 4);
    assert (Signed(-index, 4) + rest)[..4] == Signed(-index, 4);
  }

  /** An assertion of negative length. */
  lemma NegativePayloadStops(n: int, rest: seq<byte>, c: Cache)
    requires n < 0 && LogWriter.Fits(n, 4)
    ensures ReadField(Signed(n, 4) + rest, c, Payload) == Broken(NegativePayload)
  {
    SignedReadsBack(n, 4);
    assert (Signed(n, 4) + rest)[..4] == Signed(n, 4);
  }

  /** A user of a scenario the header does not list. */
  lemma UnknownScenarioStops(
      scenario: int, isStart: byte, ts: int, rest: seq<byte>, c: Cache, h: Header, users: nat)
    requires LogWriter.Fits(scenario, 4) && LogWriter.Fits(ts, 4) && !(0 <= scenario < |h.scenarios|)
    ensures ReadRecord([2] + (Signed(scenario, 4) + ([isStart] + Signed(ts, 4))) + rest, c, h, users)
         == Broken(UnknownScenario)
  {
    var cells := UserCells(scenario, isStart, ts, c);
    var fs := [Int32, Octet, Int32];
    ValuesFit(fs, cells, c, c);
    CellsRead(fs, cells, rest, c, c);
    NoSuchScenario(CellValues(cells), h, users);
    Associates([2], CellBytes(cells), rest);
    ByteReads(2, CellBytes(cells) + rest, c);
    assert ([2] + CellBytes(cells) + rest)[1..] == CellBytes(cells) + rest;
  }

  lemma NoSuchScenario(vs: seq<Value>, h: Header, users: nat)
    requires SimulationLog.Fits([Int32, Octet, Int32], vs) && |vs| == 3 && vs[0].Num? && !(0 <= vs[0].n < |h.scenarios|)
    ensures ToEvent(2, vs, h, users) == None
  {
  }

  // ----- Records in a row -----

  lemma StepOf(r: seq<byte>, c: Cache, h: Header, users: nat, event: Event, n: nat, d: Cache)
    requires ReadRecord(r, c, h, users) == Done(event, n, d)
    ensures LogStep(r, DecodeState(Some(h), c, users)) == Took(event, n, DecodeState(Some(h), d, users + Users(event)))
  {
  }

  lemma UsersOf(w: Written, c: Cache, startMs: int, scenarios: seq<Text>, users: nat)
    requires RecordFits(w, c, scenarios)
    ensures Users(EventOf(w, c, startMs, scenarios, users)) == if w.UserRecord? then 1 else 0
  {
  }

  lemma RecordStep(w: Written, rest: seq<byte>, c: Cache, h: Header, users: nat, bytes: seq<byte>, event: Event)
    requires RecordFits(w, c, h.scenarios)
    requires bytes == WriteRecord(w, c, h.scenarios) && event == EventOf(w, c, h.startMs, h.scenarios, users)
    ensures LogStep(bytes + rest, DecodeState(Some(h), c, users)) ==
            Took(event, |bytes|, DecodeState(Some(h), CacheAfter(w, c), users + if w.UserRecord? then 1 else 0))
  {
    WrittenRecordReads(w, rest, c, h, users);
    UsersOf(w, c, h.startMs, h.scenarios, users);
    StepOf(bytes + rest, c, h, users, event, |bytes|, CacheAfter(w, c));
  }

  /** One item taken, then the run over what is left. */
  lemma OneStep<T(!new), E, S(!new), F>(
      step: (seq<T>, S) -> Step<E, S, F>, first: seq<T>, rest: seq<T>, s: S, item: E, next: S)
    requires Progress(step) && first != [] && step(first + rest, s) == Took(item, |first|, next)
    ensures Run(step, first + rest, s) == Prepend(item, |first|, Run(step, rest, next))
  {
    assert (first + rest)[|first|..] == rest;
  }

  /** These bytes run to their end, and to these events. */
  ghost predicate RunsTo(bytes: seq<byte>, s: DecodeState, events: seq<Event>)
    requires Progress(LogStep)
  {
    var log := Run(LogStep, bytes, s);
    log.end == AtEnd && log.items == events
  }

  lemma OneMoreEvent(
      bytes: seq<byte>, rest: seq<byte>, s: DecodeState, event: Event, next: DecodeState, events: seq<Event>)
    requires Progress(LogStep) && bytes != [] && LogStep(bytes + rest, s) == Took(event, |bytes|, next)
    requires RunsTo(rest, next, events)
    ensures RunsTo(bytes + rest, s, [event] + events)
  {
    OneStep(LogStep, bytes, rest, s, event, next);
  }

  lemma {:induction false} RecordsRead(ws: seq<Written>, c: Cache, h: Header, users: nat)
    requires RecordsFit(ws, c, h.scenarios) && Progress(LogStep)
    ensures RunsTo(WriteRecords(ws, c, h.scenarios), DecodeState(Some(h), c, users),
                   EventsOf(ws, c, h.startMs, h.scenarios, users))
  {
    if ws != [] {
      var w, d, n := ws[0], CacheAfter(ws[0], c), users + if ws[0].UserRecord? then 1 else 0;
      var bytes, event := WriteRecord(w, c, h.scenarios), EventOf(w, c, h.startMs, h.scenarios, users);
      var rest, events := WriteRecords(ws[1..], d, h.scenarios), EventsOf(ws[1..], d, h.startMs, h.scenarios, n);
      RecordsRead(ws[1..], d, h, n);
      RecordStep(w, rest, c, h, users, bytes, event);
      OneMoreEvent(bytes, rest, DecodeState(Some(h), c, users), event, DecodeState(Some(h), d, n), events);
    }
  }

  // ----- The header -----

  function StringCell(sp: Spelling, c: Cache): Cell
    requires StringFits(sp)
  {
    Cell(Inline, StringBytes(sp), Str(sp.text), c, c)
  }

  function PayloadCell(p: seq<byte>, c: Cache): Cell
    requires LogWriter.Fits(|p|, 4)
  {
    Cell(Payload, Signed(|p|, 4) + p, Raw(p), c, c)
  }

  function LongCell(n: int, c: Cache): Cell
    requires LogWriter.Fits(n, 8)
  {
    Cell(Int64, Signed(n, 8), Num(n), c, c)
  }

  lemma StringCellReads(sp: Spelling, c: Cache)
    requires StringFits(sp)
    ensures CellReads(StringCell(sp, c))
  {
    forall rest ensures ReadField(StringBytes(sp) + rest, c, Inline) == Done(Str(sp.text), |StringBytes(sp)|, c) {
      StringReads(sp, rest, c);
    }
  }

  lemma PayloadCellReads(p: seq<byte>, c: Cache)
    requires LogWriter.Fits(|p|, 4)
    ensures CellReads(PayloadCell(p, c))
  {
    var bytes := Signed(|p|, 4) + p;
    forall rest ensures ReadField(bytes + rest, c, Payload) == Done(Raw(p), |bytes|, c) { PayloadReads(p, rest, c); }
  }

  lemma LongCellReads(n: int, c: Cache)
    requires LogWriter.Fits(n, 8)
    ensures CellReads(LongCell(n, c))
  {
    forall rest ensures ReadField(Signed(n, 8) + rest, c, Int64) == Done(Num(n), 8, c) { LongReads(n, rest, c); }
  }

  /** Cells of one kind that leave the cache alone. */
  ghost predicate Alike(cells: seq<Cell>, f: Field, c: Cache)
  {
    forall i :: 0 <= i < |cells| ==>
      cells[i].f == f && cells[i].before == c && cells[i].after == c && CellReads(cells[i])
  }

  lemma {:induction false} FollowAlike(cells: seq<Cell>, f: Field, c: Cache, fs: seq<Field>, tail: seq<Cell>, d: Cache)
    requires !f.Many? && Alike(cells, f, c) && Follow(fs, tail, c, d)
    ensures Follow(Repeat(f, |cells|) + fs, cells + tail, c, d)
  {
    if cells == [] {
      EmptyThen(Repeat(f, 0), fs);
      EmptyThen(cells, tail);
    } else {
      var cell, more := cells[0], cells[1..];
      FollowAlike(more, f, c, fs, tail, d);
      PlainRest(f, Repeat(f, |more|) + fs, cell.v);
      FollowOne(cell, Repeat(f, |more|) + fs, more + tail, d);
      RepeatOnce(f, |cells|, fs);
      Associates([cell], more, tail);
      assert [cell] + more == cells;
    }
  }

  /** A list: its count, its elements, the fields after it. */
  lemma ListInFront(elems: seq<Cell>, f: Field, c: Cache, fs: seq<Field>, tail: seq<Cell>, d: Cache)
    returns (cells: seq<Cell>)
    requires !f.Many? && Alike(elems, f, c) && LogWriter.Fits(|elems|, 4) && Follow(fs, tail, c, d)
    ensures Follow([Many(f)] + fs, cells, c, d)
    ensures CellBytes(cells) == Signed(|elems|, 4) + (CellBytes(elems) + CellBytes(tail))
    ensures CellValues(cells) == [Num(|elems|)] + (CellValues(elems) + CellValues(tail))
  {
    var count := NumberCell(Many(f), |elems|, c);
    NumberCellReads(Many(f), |elems|, c);
    FollowAlike(elems, f, c, fs, tail, d);
    CountRest(f, fs, |elems|);
    FollowOne(count, fs, elems + tail, d);
    BytesOf(count, elems + tail);
    ValuesOf(count, elems + tail);
    CellsJoin(elems, tail);
    ValuesJoin(elems, tail);
    cells := [count] + (elems + tail);
  }

  lemma CountRest(f: Field, fs: seq<Field>, n: nat)
    ensures Rest([Many(f)] + fs, Num(n)) == Repeat(f, n) + fs
  {
    assert ([Many(f)] + fs)[1..] == fs;
  }

  function Raws(ps: seq<seq<byte>>): (vs: seq<Value>)
    ensures |vs| == |ps| && forall i :: 0 <= i < |ps| ==> vs[i] == Raw(ps[i])
  {
    seq(|ps|, i requires 0 <= i < |ps| => Raw(ps[i]))
  }

  lemma OneMoreAlike(cell: Cell, cells: seq<Cell>, f: Field, c: Cache)
    requires Alike(cells, f, c) && cell.f == f && cell.before == c && cell.after == c && CellReads(cell)
    ensures Alike([cell] + cells, f, c)
  {
    var all := [cell] + cells;
    assert forall i :: 1 <= i < |all| ==> all[i] == cells[i - 1];
  }

  lemma OneMoreSpelt(sps: seq<Spelling>)
    requires sps != []
    ensures Strs(Spelt(sps)) == [Str(sps[0].text)] + Strs(Spelt(sps[1..]))
  {
  }

  lemma OneMoreRaw(ps: seq<seq<byte>>)
    requires ps != []
    ensures Raws(ps) == [Raw(ps[0])] + Raws(ps[1..])
  {
  }

  lemma {:induction false} StringCells(sps: seq<Spelling>, c: Cache) returns (cells: seq<Cell>)
    requires StringsFit(sps)
    ensures |cells| == |sps| && Alike(cells, Inline, c)
    ensures CellBytes(cells) == StringsBytes(sps) && CellValues(cells) == Strs(Spelt(sps))
  {
    cells := [];
    if sps != [] {
      var more := StringCells(sps[1..], c);
      var cell := StringCell(sps[0], c);
      StringCellReads(sps[0], c);
      OneMoreAlike(cell, more, Inline, c);
      BytesOf(cell, more);
      ValuesOf(cell, more);
      OneMoreSpelt(sps);
      cells := [cell] + more;
    }
  }

  lemma {:induction false} PayloadCells(ps: seq<seq<byte>>, c: Cache) returns (cells: seq<Cell>)
    requires PayloadsFit(ps)
    ensures |cells| == |ps| && Alike(cells, Payload, c)
    ensures CellBytes(cells) == PayloadsBytes(ps) && CellValues(cells) == Raws(ps)
  {
    cells := [];
    if ps != [] {
      var more := PayloadCells(ps[1..], c);
      var cell := PayloadCell(ps[0], c);
      PayloadCellReads(ps[0], c);
      OneMoreAlike(cell, more, Payload, c);
      BytesOf(cell, more);
      ValuesOf(cell, more);
      OneMoreRaw(ps);
      cells := [cell] + more;
    }
  }

  lemma NoCells(c: Cache) returns (none: seq<Cell>)
    ensures none == [] && Follow([], none, c, c) && CellBytes(none) == [] && CellValues(none) == []
  {
    none := [];
  }

  lemma AssertionCells(assertions: seq<seq<byte>>, c: Cache) returns (cells: seq<Cell>)
    requires PayloadsFit(assertions) && LogWriter.Fits(|assertions|, 4)
    ensures Follow([Many(Payload)], cells, c, c)
    ensures CellBytes(cells) == Signed(|assertions|, 4) + PayloadsBytes(assertions)
    ensures CellValues(cells) == [Num(|assertions|)] + (Raws(assertions) + [])
  {
    var none := NoCells(c);
    var payloads := PayloadCells(assertions, c);
    cells := ListInFront(payloads, Payload, c, [], none, c);
    EmptyThen([], [Many(Payload)]);
    EmptyThen(CellBytes(none), CellBytes(payloads));
  }

  /** The values of the header's two lists. */
  function ListValues(scenarios: seq<Text>, assertions: seq<seq<byte>>): seq<Value>
  {
    [Num(|scenarios|)] + (Strs(scenarios) + ([Num(|assertions|)] + (Raws(assertions) + [])))
  }

  lemma ListsCells(scenarios: seq<Spelling>, assertions: seq<seq<byte>>, c: Cache) returns (cells: seq<Cell>)
    requires StringsFit(scenarios) && LogWriter.Fits(|scenarios|, 4)
    requires PayloadsFit(assertions) && LogWriter.Fits(|assertions|, 4)
    ensures Follow([Many(Inline), Many(Payload)], cells, c, c)
    ensures CellBytes(cells) == Signed(|scenarios|, 4) + (StringsBytes(scenarios) +
                                  (Signed(|assertions|, 4) + PayloadsBytes(assertions)))
    ensures CellValues(cells) == ListValues(Spelt(scenarios), assertions)
  {
    var last := AssertionCells(assertions, c);
    var strings := StringCells(scenarios, c);
    cells := ListInFront(strings, Inline, c, [Many(Payload)], last, c);
    assert [Many(Inline)] + [Many(Payload)] == [Many(Inline), Many(Payload)];
  }

  lemma StringInFront(sp: Spelling, fs: seq<Field>, later: seq<Cell>, c: Cache, d: Cache) returns (cells: seq<Cell>)
    requires StringFits(sp) && Follow(fs, later, c, d)
    ensures Follow([Inline] + fs, cells, c, d)
    ensures CellBytes(cells) == StringBytes(sp) + CellBytes(later)
    ensures CellValues(cells) == [Str(sp.text)] + CellValues(later)
  {
    StringCellReads(sp, c);
    OneInFront(StringCell(sp, c), fs, later, d);
    cells := [StringCell(sp, c)] + later;
  }

  lemma LongInFront(n: int, fs: seq<Field>, later: seq<Cell>, c: Cache, d: Cache) returns (cells: seq<Cell>)
    requires LogWriter.Fits(n, 8) && Follow(fs, later, c, d)
    ensures Follow([Int64] + fs, cells, c, d)
    ensures CellBytes(cells) == Signed(n, 8) + CellBytes(later)
    ensures CellValues(cells) == [Num(n)] + CellValues(later)
  {
    LongCellReads(n, c);
    OneInFront(LongCell(n, c), fs, later, d);
    cells := [LongCell(n, c)] + later;
  }

  function HeaderValues(h: WrittenHeader): seq<Value>
  {
    [Str(h.version.text)] + ([Str(h.simulation.text)] + ([Num(h.startMs)] + ([Str(h.description.text)] +
      ListValues(Spelt(h.scenarios), h.assertions))))
  }

  lemma StartCells(h: WrittenHeader, c: Cache) returns (cells: seq<Cell>)
    requires LogWriter.HeaderFits(h)
    ensures Follow([Int64] + ([Inline] + [Many(Inline), Many(Payload)]), cells, c, c)
    ensures CellBytes(cells) == Signed(h.startMs, 8) + (StringBytes(h.description) + (Signed(|h.scenarios|, 4) +
              (StringsBytes(h.scenarios) + (Signed(|h.assertions|, 4) + PayloadsBytes(h.assertions)))))
    ensures CellValues(cells) == [Num(h.startMs)] + ([Str(h.description.text)] +
                                   ListValues(Spelt(h.scenarios), h.assertions))
  {
    var fs := [Many(Inline), Many(Payload)];
    cells := ListsCells(h.scenarios, h.assertions, c);
    cells := StringInFront(h.description, fs, cells, c, c);
    cells := LongInFront(h.startMs, [Inline] + fs, cells, c, c);
  }

  lemma TwoStrings(a: Spelling, b: Spelling, fs: seq<Field>, later: seq<Cell>, c: Cache) returns (cells: seq<Cell>)
    requires StringFits(a) && StringFits(b) && Follow(fs, later, c, c)
    ensures Follow([Inline] + ([Inline] + fs), cells, c, c)
    ensures CellBytes(cells) == StringBytes(a) + (StringBytes(b) + CellBytes(later))
    ensures CellValues(cells) == [Str(a.text)] + ([Str(b.text)] + CellValues(later))
  {
    cells := StringInFront(b, fs, later, c, c);
    cells := StringInFront(a, [Inline] + fs, cells, c, c);
  }

  lemma HeaderCells(h: WrittenHeader, c: Cache) returns (cells: seq<Cell>)
    requires LogWriter.HeaderFits(h)
    ensures Follow(HEADER_FIELDS, cells, c, c)
    ensures WriteHeader(h) == [0] + CellBytes(cells)
    ensures CellValues(cells) == HeaderValues(h)
  {
    var later := StartCells(h, c);
    cells := TwoStrings(h.version, h.simulation, [Int64] + ([Inline] + [Many(Inline), Many(Payload)]), later, c);
    SixFields();
  }

  lemma SixFields()
    ensures [Inline] + ([Inline] + ([Int64] + ([Inline] + [Many(Inline), Many(Payload)]))) == HEADER_FIELDS
  {
  }

  lemma ListParts(elems: seq<Value>, tail: seq<Value>)
    ensures var vs := [Num(|elems|)] + (elems + tail);
      1 + Count(vs[0]) <= |vs| && Listed(vs) == elems && After(vs) == tail
  {
    var vs := [Num(|elems|)] + (elems + tail);
    assert vs[1..1 + |elems|] == elems && vs[1 + |elems|..] == tail;
  }

  /** The header as it is read. */
  function HeaderOf(h: WrittenHeader): Header
  {
    Header(h.version.text, h.simulation.text, h.startMs, h.description.text, Spelt(h.scenarios), h.assertions)
  }

  lemma FirstFour(h: WrittenHeader)
    ensures var vs := HeaderValues(h);
      && |vs| >= 4 && vs[0] == Str(h.version.text) && vs[1] == Str(h.simulation.text) && vs[2] == Num(h.startMs)
      && vs[3] == Str(h.description.text) && vs[4..] == ListValues(Spelt(h.scenarios), h.assertions)
  {
  }

  lemma HeaderSays(h: WrittenHeader, vs: seq<Value>)
    requires vs == HeaderValues(h) && SimulationLog.Fits(HEADER_FIELDS, vs)
    ensures ToHeader(vs) == HeaderOf(h)
  {
    FirstFour(h);
    ListParts(Strs(Spelt(h.scenarios)), [Num(|h.assertions|)] + (Raws(h.assertions) + []));
    ListParts(Raws(h.assertions), []);
    TextsOfStrs(Spelt(h.scenarios));
  }

  lemma WrittenHeaderReads(h: WrittenHeader, rest: seq<byte>)
    requires LogWriter.HeaderFits(h)
    ensures ReadHeader(WriteHeader(h) + rest) == Done(HeaderOf(h), |WriteHeader(h)|, map[])
  {
    var cells := HeaderCells(h, map[]);
    var r := WriteHeader(h) + rest;
    Associates([0], CellBytes(cells), rest);
    ByteReads(0, CellBytes(cells) + rest, map[]);
    assert r[1..] == CellBytes(cells) + rest;
    CellsRead(HEADER_FIELDS, cells, rest, map[], map[]);
    ValuesFit(HEADER_FIELDS, cells, map[], map[]);
    HeaderSays(h, CellValues(cells));
  }

  /**
   * A log reads back as it was written: every header and every list of records
   * whose fields fit, in whatever coder and with whatever references each
   * string is written, and to the end of its bytes.
   */
  lemma WrittenLogReads(h: WrittenHeader, ws: seq<Written>)
    requires LogFits(h, ws)
    ensures var log, scenarios := Pull(WriteLog(h, ws)), Spelt(h.scenarios);
            && log.end == AtEnd
            && log.items == [MetaEvent(h)] + EventsOf(ws, map[], h.startMs, scenarios, 0)
  {
    var head, rest := WriteHeader(h), WriteRecords(ws, map[], Spelt(h.scenarios));
    StepProgresses();
    WrittenHeaderReads(h, rest);
    RecordsRead(ws, map[], HeaderOf(h), 0);
    OneMoreEvent(head, rest, START, MetaEvent(h), DecodeState(Some(HeaderOf(h)), map[], 0),
        EventsOf(ws, map[], h.startMs, Spelt(h.scenarios), 0));
  }

  /** And so does a feed of it, in whatever chunks, where no record rebinds a string it has referred to. */
  lemma WrittenLogFed(h: WrittenHeader, ws: seq<Written>, chunks: seq<seq<byte>>)
    requires LogFits(h, ws) && Concat(chunks) == WriteLog(h, ws) && StreamingDecoder.CleanLog(WriteLog(h, ws))
    ensures StreamingDecoder.Fed(chunks).end == AtEnd
    ensures StreamingDecoder.Fed(chunks).items ==
            [MetaEvent(h)] + EventsOf(ws, map[], h.startMs, Spelt(h.scenarios), 0)
  {
    WrittenLogReads(h, ws);
    StreamingDecoder.CleanLogAnyChunks(chunks);
  }
}
