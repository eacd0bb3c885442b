/**
 * The reader as it is, by position (packages/plugin-gatling/src/reader.ts): a
 * string of negative length moves it backwards, so a record may end where it
 * began, or before. Where no such string is met it is the forward reading of
 * `SimulationLog`.
 */
module BinaryReader {
  import opened Bytes
  import opened Feed
  import opened SimulationLog

  /** `next` is where the reader stands after a read that succeeds. */
  datatype At<+T> =
    | DoneAt(value: T, next: nat, cache: Cache)
    | ShortAt(dirty: Cache)
    | BrokenAt(fault: Fault)

  // ----- Fields -----

  function NumberAt(buf: seq<byte>, at: nat, c: Cache, width: nat): (out: At<Value>)
  {
    if |buf| < at + width then ShortAt(c) else DoneAt(Num(BigEndianSigned(buf[at..at + width])), at + width, c)
  }

  /** The integer that starts here: a string's length, or a cached string's index. */
  function IntAt(buf: seq<byte>, at: nat): int
    requires at + 4 <= |buf|
  {
    BigEndianSigned(buf[at..at + 4])
  }

  /**
   * `need(len + 1)` passes for every negative length; `subarray` is then empty,
   * and the coder byte is read `-len` bytes back, which throws below index 0.
   */
  function InlineAt(buf: seq<byte>, at: nat, c: Cache): (out: At<Value>)
    ensures out.DoneAt? ==> out.value.Str? && out.cache == c
    ensures out.ShortAt? ==> out.dirty == c
  {
    if |buf| < at + 4 then ShortAt(c)
    else
      var len, from := IntAt(buf, at), at + 4;
      if len == 0 then DoneAt(Str([]), from, c)
      else if |buf| < from + len + 1 then ShortAt(c)
      else if from + len < 0 then BrokenAt(BeforeBuffer)
      else if len < 0 then DoneAt(Str([]), from + len + 1, c)
      else DoneAt(Str(DecodeText(buf[from + len], buf[from..from + len])), from + len + 1, c)
  }

  function CachedAt(buf: seq<byte>, at: nat, c: Cache): (out: At<Value>)
    ensures out.DoneAt? ==> out.value.Str?
    ensures out.ShortAt? ==> out.dirty == c
  {
    if |buf| < at + 4 then ShortAt(c)
    else
      var i := IntAt(buf, at);
      if i >= 0 then
        match InlineAt(buf, at + 4, c)
        case DoneAt(v, n, _) => DoneAt(v, n, c[i := v.text])
        case ShortAt(_) => ShortAt(c)
        case BrokenAt(f) => BrokenAt(f)
      else if -i in c then DoneAt(Str(c[-i]), at + 4, c)
      else BrokenAt(DanglingReference)
  }

  function PayloadAt(buf: seq<byte>, at: nat, c: Cache): (out: At<Value>)
    ensures out.DoneAt? ==> out.value.Raw?
  {
    if |buf| < at + 4 then ShortAt(c)
    else
      var len := IntAt(buf, at);
      if len < 0 then BrokenAt(NegativePayload)
      else if |buf| < at + 4 + len then ShortAt(c)
      else DoneAt(Raw(buf[at + 4..at + 4 + len]), at + 4 + len, c)
  }

  function FieldAt(buf: seq<byte>, at: nat, c: Cache, f: Field): (out: At<Value>)
    ensures out.DoneAt? ==> Kind(f, out.value)
  {
    match f
    case Octet => NumberAt(buf, at, c, 1)
    case Int32 => NumberAt(buf, at, c, 4)
    case Int64 => NumberAt(buf, at, c, 8)
    case Inline => InlineAt(buf, at, c)
    case Cached => CachedAt(buf, at, c)
    case Payload => PayloadAt(buf, at, c)
    case Many(_) => NumberAt(buf, at, c, 4)
  }

  // ----- Fields in a row, whatever reads one -----

  /** Reads one field at a position. */
  type FieldReader = (nat, Cache, Field) -> At<Value>

  function ReaderOf(buf: seq<byte>): FieldReader { (at: nat, c, f) => FieldAt(buf, at, c, f) }

  /** How many of these fields are lists; a list's own fields are not. */
  function Lists(fs: seq<Field>): nat
  {
    if fs == [] then 0 else (if fs[0].Many? then 1 else 0) + Lists(fs[1..])
  }

  predicate Flat(fs: seq<Field>) { forall f <- fs :: f.Many? ==> !f.each.Many? }

  lemma {:induction false} NoLists(fs: seq<Field>, more: seq<Field>)
    requires forall f <- fs :: !f.Many?
    ensures Lists(fs + more) == Lists(more)
  {
    if fs == [] {
      EmptyThen(fs, more);
    } else {
      assert (fs + more)[1..] == fs[1..] + more;
      NoLists(fs[1..], more);
    }
  }

  lemma RestShrinks(fs: seq<Field>, v: Value)
    requires fs != [] && Flat(fs)
    ensures var rest := Rest(fs, v);
      && Flat(rest)
      && (fs[0].Many? ==> Lists(rest) < Lists(fs))
      && (!fs[0].Many? ==> Lists(rest) == Lists(fs) && |rest| < |fs|)
  {
    assert fs[0] in fs;
    assert forall f <- fs[1..] :: f in fs;
    if fs[0].Many? && v.Num? { NoLists(Repeat(fs[0].each, v.n), fs[1..]); }
  }

  function FieldsBy(read: FieldReader, at: nat, c: Cache, fs: seq<Field>): (out: At<seq<Value>>)
    requires Flat(fs)
    decreases Lists(fs), |fs|
  {
    if fs == [] then DoneAt([], at, c)
    else
      match read(at, c, fs[0])
      case ShortAt(d) => ShortAt(d)
      case BrokenAt(e) => BrokenAt(e)
      case DoneAt(v, n, c1) =>
        RestShrinks(fs, v);
        match FieldsBy(read, n, c1, Rest(fs, v))
        case DoneAt(vs, m, c2) => DoneAt([v] + vs, m, c2)
        case ShortAt(d) => ShortAt(d)
        case BrokenAt(e) => BrokenAt(e)
  }

  ghost predicate OfItsKind(read: FieldReader, at: nat, c: Cache, f: Field)
  {
    read(at, c, f).DoneAt? ==> Kind(f, read(at, c, f).value)
  }

  lemma {:induction false} FieldsByFit(read: FieldReader, at: nat, c: Cache, fs: seq<Field>)
    requires Flat(fs) && forall a, d, f :: OfItsKind(read, a, d, f)
    ensures FieldsBy(read, at, c, fs).DoneAt? ==> Fits(fs, FieldsBy(read, at, c, fs).value)
    decreases Lists(fs), |fs|
  {
    if fs != [] {
      assert OfItsKind(read, at, c, fs[0]);
      var out := read(at, c, fs[0]);
      if out.DoneAt? {
        RestShrinks(fs, out.value);
        FieldsByFit(read, out.next, out.cache, Rest(fs, out.value));
        var later := FieldsBy(read, out.next, out.cache, Rest(fs, out.value));
        if later.DoneAt? { assert ([out.value] + later.value)[1..] == later.value; }
      }
    }
  }

  function FieldsAt(buf: seq<byte>, at: nat, c: Cache, fs: seq<Field>): (out: At<seq<Value>>)
    requires Flat(fs)
  {
    FieldsBy(ReaderOf(buf), at, c, fs)
  }

  lemma FieldsAtFit(buf: seq<byte>, at: nat, c: Cache, fs: seq<Field>)
    requires Flat(fs)
    ensures FieldsAt(buf, at, c, fs).DoneAt? ==> Fits(fs, FieldsAt(buf, at, c, fs).value)
  {
    forall a, d, f ensures OfItsKind(ReaderOf(buf), a, d, f) {
      assert ReaderOf(buf)(a, d, f) == FieldAt(buf, a, d, f);
    }
    FieldsByFit(ReaderOf(buf), at, c, fs);
  }

  lemma ShapesAreFlat(kind: int)
    ensures Shape(kind).Some? ==> Flat(Shape(kind).value)
    ensures Flat(HEADER_FIELDS)
  {
  }

  // ----- Records -----

  function RecordAt(buf: seq<byte>, at: nat, c: Cache, h: Header, users: nat): (out: At<Event>)
  {
    match FieldAt(buf, at, c, Octet)
    case ShortAt(d) => ShortAt(d)
    case BrokenAt(e) => BrokenAt(e)
    case DoneAt(kind, n, _) =>
      var shape := Shape(kind.n);
      if shape.None? then BrokenAt(UnknownRecordType)
      else
        ShapesAreFlat(kind.n);
        match FieldsAt(buf, n, c, shape.value)
        case ShortAt(d) => ShortAt(d)
        case BrokenAt(e) => BrokenAt(e)
        case DoneAt(vs, m, c1) =>
          FieldsAtFit(buf, n, c, shape.value);
          var event := ToEvent(kind.n, vs, h, users);
          if event.None? then BrokenAt(UnknownScenario) else DoneAt(event.value, m, c1)
  }

  function HeaderAt(buf: seq<byte>, at: nat): (out: At<Header>)
  {
    match FieldAt(buf, at, map[], Octet)
    case ShortAt(d) => ShortAt(d)
    case BrokenAt(e) => BrokenAt(e)
    case DoneAt(kind, n, _) =>
      if kind.n != 0 then BrokenAt(NotARunRecord)
      else
        ShapesAreFlat(0);
        match FieldsAt(buf, n, map[], HEADER_FIELDS)
        case ShortAt(d) => ShortAt(d)
        case BrokenAt(e) => BrokenAt(e)
        case DoneAt(vs, m, c1) =>
          FieldsAtFit(buf, n, map[], HEADER_FIELDS);
          DoneAt(ToHeader(vs), m, c1)
  }

  // ----- The decoder's loop, whatever one turn of it does -----

  /** One turn: an event and where the reader then stands, a wait for more bytes, or a throw. */
  datatype Turn = Moved(item: Event, next: nat, state: DecodeState) | Waits(left: DecodeState) | Stops(fault: Fault)

  type Turns = (nat, DecodeState) -> Turn

  function TurnAt(buf: seq<byte>, at: nat, s: DecodeState): (turn: Turn)
  {
    match s.header
    case None => (
      match HeaderAt(buf, at)
      case ShortAt(_) => Waits(s)
      case BrokenAt(f) => Stops(f)
      case DoneAt(h, n, _) => Moved(MetaOf(h), n, s.(header := Some(h))))
    case Some(h) => (
      match RecordAt(buf, at, s.cache, h, s.users)
      case ShortAt(dirty) => Waits(s.(cache := dirty))
      case BrokenAt(f) => Stops(f)
      case DoneAt(event, n, c) => Moved(event, n, DecodeState(s.header, c, s.users + Users(event))))
  }

  function TurnsOf(buf: seq<byte>): Turns { (at: nat, s: DecodeState) => TurnAt(buf, at, s) }

  datatype How = Ended | Waiting | Threw(fault: Fault) | StillGoing

  /** The events decoded, where the reader stands, the state left, and how it ended, if it has. */
  datatype Course = Course(items: seq<Event>, at: nat, state: DecodeState, how: How)

  /** The loop's first so many turns, over `end` bytes: it need not have ended. */
  function Loop(turn: Turns, end: nat, at: nat, s: DecodeState, turns: nat): (p: Course)
    decreases turns
  {
    if at >= end then Course([], at, s, Ended)
    else if turns == 0 then Course([], at, s, StillGoing)
    else
      match turn(at, s)
      case Waits(left) => Course([], at, left, Waiting)
      case Stops(f) => Course([], at, s, Threw(f))
      case Moved(item, next, t) =>
        var rest := Loop(turn, end, next, t, turns - 1);
        rest.(items := [item] + rest.items)
  }

  function RunAt(buf: seq<byte>, at: nat, s: DecodeState, turns: nat): (p: Course)
  {
    Loop(TurnsOf(buf), |buf|, at, s, turns)
  }

  // ----- The reader stays within its buffer -----

  ghost predicate Within(read: FieldReader, end: nat, at: nat, c: Cache, f: Field)
  {
    at <= end && read(at, c, f).DoneAt? ==> read(at, c, f).next <= end
  }

  lemma {:induction false} FieldsWithin(read: FieldReader, end: nat, at: nat, c: Cache, fs: seq<Field>)
    requires Flat(fs) && at <= end && forall a: nat, d, f :: Within(read, end, a, d, f)
    ensures FieldsBy(read, at, c, fs).DoneAt? ==> FieldsBy(read, at, c, fs).next <= end
    decreases Lists(fs), |fs|
  {
    if fs != [] {
      assert Within(read, end, at, c, fs[0]);
      var out := read(at, c, fs[0]);
      if out.DoneAt? {
        RestShrinks(fs, out.value);
        FieldsWithin(read, end, out.next, out.cache, Rest(fs, out.value));
      }
    }
  }

  lemma FieldWithin(buf: seq<byte>, at: nat, c: Cache, f: Field)
    requires at <= |buf|
    ensures FieldAt(buf, at, c, f).DoneAt? ==> FieldAt(buf, at, c, f).next <= |buf|
  {
  }

  lemma FieldsAtWithin(buf: seq<byte>, at: nat, c: Cache, fs: seq<Field>)
    requires Flat(fs) && at <= |buf|
    ensures FieldsAt(buf, at, c, fs).DoneAt? ==> FieldsAt(buf, at, c, fs).next <= |buf|
  {
    forall a: nat, d, f ensures Within(ReaderOf(buf), |buf|, a, d, f) {
      assert ReaderOf(buf)(a, d, f) == FieldAt(buf, a, d, f);
      if a <= |buf| { FieldWithin(buf, a, d, f); }
    }
    FieldsWithin(ReaderOf(buf), |buf|, at, c, fs);
  }

  lemma TurnWithin(buf: seq<byte>, at: nat, s: DecodeState)
    requires at <= |buf| && TurnAt(buf, at, s).Moved?
    ensures TurnAt(buf, at, s).next <= |buf|
  {
    var c := if s.header.None? then map[] else s.cache;
    FieldWithin(buf, at, c, Octet);
    var kind := FieldAt(buf, at, c, Octet).value.n;
    ShapesAreFlat(kind);
    if s.header.None? {
      FieldsAtWithin(buf, at + 1, c, HEADER_FIELDS);
    } else {
      FieldsAtWithin(buf, at + 1, c, Shape(kind).value);
    }
  }

  lemma {:induction false} RunWithin(buf: seq<byte>, at: nat, s: DecodeState, turns: nat)
    requires at <= |buf|
    ensures RunAt(buf, at, s, turns).at <= |buf|
    decreases turns
  {
    if at < |buf| && turns > 0 {
      var turn := TurnAt(buf, at, s);
      assert TurnsOf(buf)(at, s) == turn;
      if turn.Moved? {
        TurnWithin(buf, at, s);
        RunWithin(buf, turn.next, turn.state, turns - 1);
      }
    }
  }

  /** The loop itself. */
  method Decode(turn: Turns, end: nat, from: nat, s: DecodeState, turns: nat)
    returns (items: seq<Event>, at: nat, state: DecodeState, how: How)
    ensures Course(items, at, state, how) == Loop(turn, end, from, s, turns)
  {
    items, at, state, how := [], from, s, Ended;
    var left: nat := turns;
    while at < end
      invariant left <= turns && how == Ended
      invariant Loop(turn, end, from, s, turns) == After(items, Loop(turn, end, at, state, left))
      decreases left
    {
      if left == 0 {
        how := StillGoing;
        break;
      }
      match turn(at, state) {
        case Moved(item, next, t) =>
          AfterOne(items, item, Loop(turn, end, next, t, left - 1));
          items, at, state, left := items + [item], next, t, left - 1;
        case Waits(kept) =>
          state, how := kept, Waiting;
          break;
        case Stops(f) =>
          how := Threw(f);
          break;
      }
    }
    EmptyThen([], items);
  }

  function After(items: seq<Event>, rest: Course): Course { rest.(items := items + rest.items) }

  lemma AfterOne(items: seq<Event>, item: Event, rest: Course)
    ensures After(items, rest.(items := [item] + rest.items)) == After(items + [item], rest)
  {
    Associates(items, [item], rest.items);
  }

  /** Once it has ended, watching it for longer changes nothing. */
  lemma {:induction false} LoopLonger(turn: Turns, end: nat, at: nat, s: DecodeState, turns: nat, more: nat)
    requires turns <= more && Loop(turn, end, at, s, turns).how != StillGoing
    ensures Loop(turn, end, at, s, more) == Loop(turn, end, at, s, turns)
    decreases turns
  {
    if at < end && turns > 0 {
      match turn(at, s)
      case Moved(item, next, t) => LoopLonger(turn, end, next, t, turns - 1, more - 1);
      case _ =>
    }
  }

  // ----- Where no string has a negative length it is the forward reading -----

  function Shifted<T>(r: Reading<T>, at: nat): At<T>
  {
    match r
    case Done(v, n, c) => DoneAt(v, at + n, c)
    case Short(d) => ShortAt(d)
    case Broken(f) => BrokenAt(f)
  }

  lemma InlineAgrees(buf: seq<byte>, at: nat, c: Cache)
    requires at <= |buf| && ReadInline(buf[at..], c) != Broken(GoesBack)
    ensures InlineAt(buf, at, c) == Shifted(ReadInline(buf[at..], c), at)
  {
    var r := buf[at..];
    if |r| >= 4 {
      DropThenTake(buf, at, 4);
      var len := BigEndianSigned(r[..4]);
      if len > 0 && |r| >= 4 + len + 1 { SliceOfDrop(buf, at, 4, 4 + len); }
    }
  }

  lemma CachedAgrees(buf: seq<byte>, at: nat, c: Cache)
    requires at <= |buf| && ReadCached(buf[at..], c) != Broken(GoesBack)
    ensures CachedAt(buf, at, c) == Shifted(ReadCached(buf[at..], c), at)
  {
    if |buf| - at >= 4 {
      DropThenTake(buf, at, 4);
      DropTwice(buf, at, 4);
      if BigEndianSigned(buf[at..][..4]) >= 0 { InlineAgrees(buf, at + 4, c); }
    }
  }

  lemma FieldAgrees(buf: seq<byte>, at: nat, c: Cache, f: Field)
    requires at <= |buf| && ReadField(buf[at..], c, f) != Broken(GoesBack)
    ensures FieldAt(buf, at, c, f) == Shifted(ReadField(buf[at..], c, f), at)
  {
    var r := buf[at..];
    if |r| >= 1 { DropThenTake(buf, at, 1); }
    if |r| >= 4 { DropThenTake(buf, at, 4); }
    if |r| >= 8 { DropThenTake(buf, at, 8); }
    match f {
      case Inline => InlineAgrees(buf, at, c);
      case Cached => CachedAgrees(buf, at, c);
      case Payload =>
        if |r| >= 4 {
          var len := BigEndianSigned(r[..4]);
          if 0 <= len && 4 + len <= |r| { SliceOfDrop(buf, at, 4, 4 + len); }
        }
      case _ =>
    }
  }

  /** The forward reading of one field, as a reader by position. */
  function ForwardOf(buf: seq<byte>): FieldReader
  {
    (at: nat, c, f) => if at <= |buf| then Shifted(ReadField(buf[at..], c, f), at) else ShortAt(c)
  }

  /** Two readers agree on a field, or the second goes back. */
  ghost predicate AgreeOn(p: FieldReader, q: FieldReader, at: nat, c: Cache, f: Field)
  {
    q(at, c, f) != BrokenAt(GoesBack) ==> p(at, c, f) == q(at, c, f)
  }

  lemma {:induction false} ReadersAgree(p: FieldReader, q: FieldReader, at: nat, c: Cache, fs: seq<Field>)
    requires Flat(fs) && (forall a, d, f :: AgreeOn(p, q, a, d, f)) && FieldsBy(q, at, c, fs) != BrokenAt(GoesBack)
    ensures FieldsBy(p, at, c, fs) == FieldsBy(q, at, c, fs)
    decreases Lists(fs), |fs|
  {
    if fs != [] {
      assert AgreeOn(p, q, at, c, fs[0]);
      var out := q(at, c, fs[0]);
      if out.DoneAt? {
        RestShrinks(fs, out.value);
        ReadersAgree(p, q, out.next, out.cache, Rest(fs, out.value));
      }
    }
  }

  /** A field's value before those of the fields after it. */
  function Consed(v: Value, n: nat, later: Reading<seq<Value>>): Reading<seq<Value>>
  {
    if later.Done? then Done([v] + later.value, n + later.used, later.cache) else later
  }

  function ConsedAt(v: Value, later: At<seq<Value>>): At<seq<Value>>
  {
    if later.DoneAt? then DoneAt([v] + later.value, later.next, later.cache) else later
  }

  lemma ConsedShifts(v: Value, n: nat, later: Reading<seq<Value>>, at: nat)
    ensures Shifted(Consed(v, n, later), at) == ConsedAt(v, Shifted(later, at + n))
  {
  }

  lemma FirstForward(r: seq<byte>, c: Cache, fs: seq<Field>)
    requires fs != [] && ReadField(r, c, fs[0]).Done?
    ensures var out := ReadField(r, c, fs[0]);
      ReadFields(r, c, fs) == Consed(out.value, out.used, ReadFields(r[out.used..], out.cache, Rest(fs, out.value)))
  {
  }

  lemma FirstBy(read: FieldReader, at: nat, c: Cache, fs: seq<Field>)
    requires Flat(fs) && fs != [] && read(at, c, fs[0]).DoneAt?
    ensures var out := read(at, c, fs[0]);
      && Flat(Rest(fs, out.value))
      && FieldsBy(read, at, c, fs) == ConsedAt(out.value, FieldsBy(read, out.next, out.cache, Rest(fs, out.value)))
  {
    RestShrinks(fs, read(at, c, fs[0]).value);
  }

  /** `read` finds the field `r` begins with. */
  ghost predicate Finds(read: FieldReader, at: nat, r: seq<byte>, c: Cache, f: Field)
  {
    read(at, c, f) == Shifted(ReadField(r, c, f), at)
  }

  /** The first field is found, and so is what the later ones are read from. */
  lemma FirstFound(read: FieldReader, buf: seq<byte>, at: nat, r: seq<byte>, c: Cache, fs: seq<Field>)
    returns (v: Value, n: nat, d: Cache, fs1: seq<Field>, r1: seq<byte>)
    requires Flat(fs) && at <= |buf| && r == buf[at..] && fs != []
    requires Finds(read, at, r, c, fs[0]) && read(at, c, fs[0]).DoneAt?
    ensures at + n <= |buf| && r1 == buf[at + n..] && Flat(fs1)
    ensures Lists(fs1) < Lists(fs) || (Lists(fs1) == Lists(fs) && |fs1| < |fs|)
    ensures ReadFields(r, c, fs) == Consed(v, n, ReadFields(r1, d, fs1))
    ensures FieldsBy(read, at, c, fs) == ConsedAt(v, FieldsBy(read, at + n, d, fs1))
  {
    var out := ReadField(r, c, fs[0]);
    v, n, d := out.value, out.used, out.cache;
    fs1, r1 := Rest(fs, v), r[n..];
    DropTwice(buf, at, n);
    FirstForward(r, c, fs);
    FirstBy(read, at, c, fs);
    RestShrinks(fs, v);
  }

  lemma NotFound(read: FieldReader, at: nat, r: seq<byte>, c: Cache, fs: seq<Field>)
    requires Flat(fs) && fs != [] && Finds(read, at, r, c, fs[0]) && !ReadField(r, c, fs[0]).Done?
    ensures FieldsBy(read, at, c, fs) == Shifted(ReadFields(r, c, fs), at)
  {
  }

  lemma {:induction false} ForwardFields(read: FieldReader, buf: seq<byte>, at: nat, r: seq<byte>, c: Cache,
                                         fs: seq<Field>)
    requires Flat(fs) && at <= |buf| && r == buf[at..]
    requires forall a: nat, q, d, f :: a <= |buf| && q == buf[a..] ==> Finds(read, a, q, d, f)
    ensures FieldsBy(read, at, c, fs) == Shifted(ReadFields(r, c, fs), at)
    decreases Lists(fs), |fs|, 1
  {
    if fs == [] {
    } else {
      assert Finds(read, at, r, c, fs[0]);
      if read(at, c, fs[0]).DoneAt? {
        ForwardFieldsAfter(read, buf, at, r, c, fs);
      } else {
        NotFound(read, at, r, c, fs);
      }
    }
  }

  lemma ForwardFieldsAfter(read: FieldReader, buf: seq<byte>, at: nat, r: seq<byte>, c: Cache, fs: seq<Field>)
    requires Flat(fs) && at <= |buf| && r == buf[at..] && fs != []
    requires Finds(read, at, r, c, fs[0]) && read(at, c, fs[0]).DoneAt?
    requires forall a: nat, q, d, f :: a <= |buf| && q == buf[a..] ==> Finds(read, a, q, d, f)
    ensures FieldsBy(read, at, c, fs) == Shifted(ReadFields(r, c, fs), at)
    decreases Lists(fs), |fs|, 0
  {
    var v, n, d, fs1, r1 := FirstFound(read, buf, at, r, c, fs);
    ForwardFields(read, buf, at + n, r1, d, fs1);
    ConsedShifts(v, n, ReadFields(r1, d, fs1), at);
  }

  lemma FieldsAgree(buf: seq<byte>, at: nat, c: Cache, fs: seq<Field>)
    requires Flat(fs) && at <= |buf| && ReadFields(buf[at..], c, fs) != Broken(GoesBack)
    ensures FieldsAt(buf, at, c, fs) == Shifted(ReadFields(buf[at..], c, fs), at)
  {
    var p, q := ReaderOf(buf), ForwardOf(buf);
    forall a: nat, r, d, f | a <= |buf| && r == buf[a..] ensures Finds(q, a, r, d, f) {}
    ForwardFields(q, buf, at, buf[at..], c, fs);
    forall a, d, f ensures AgreeOn(p, q, a, d, f) { OneAgrees(buf, a, d, f); }
    ReadersAgree(p, q, at, c, fs);
  }

  lemma OneAgrees(buf: seq<byte>, at: nat, c: Cache, f: Field)
    ensures AgreeOn(ReaderOf(buf), ForwardOf(buf), at, c, f)
  {
    assert ReaderOf(buf)(at, c, f) == FieldAt(buf, at, c, f);
    if at <= |buf| {
      if ReadField(buf[at..], c, f) != Broken(GoesBack) { FieldAgrees(buf, at, c, f); }
    } else {
      BeyondIsShort(buf, at, c, f);
    }
  }

  lemma BeyondIsShort(buf: seq<byte>, at: nat, c: Cache, f: Field)
    requires at > |buf|
    ensures FieldAt(buf, at, c, f) == ShortAt(c)
  {
  }

  lemma RecordAgrees(buf: seq<byte>, at: nat, c: Cache, h: Header, users: nat)
    requires at <= |buf| && ReadRecord(buf[at..], c, h, users) != Broken(GoesBack)
    ensures RecordAt(buf, at, c, h, users) == Shifted(ReadRecord(buf[at..], c, h, users), at)
  {
    FieldAgrees(buf, at, c, Octet);
    if at < |buf| {
      var kind := ReadField(buf[at..], c, Octet).value.n;
      DropTwice(buf, at, 1);
      ShapesAreFlat(kind);
      if Shape(kind).Some? { FieldsAgree(buf, at + 1, c, Shape(kind).value); }
    }
  }

  lemma HeaderAgrees(buf: seq<byte>, at: nat)
    requires at <= |buf| && ReadHeader(buf[at..]) != Broken(GoesBack)
    ensures HeaderAt(buf, at) == Shifted(ReadHeader(buf[at..]), at)
  {
    FieldAgrees(buf, at, map[], Octet);
    if at < |buf| {
      DropTwice(buf, at, 1);
      ShapesAreFlat(0);
      if ReadField(buf[at..], map[], Octet).value.n == 0 { FieldsAgree(buf, at + 1, map[], HEADER_FIELDS); }
    }
  }

  type LogReader = (seq<byte>, DecodeState) -> Step<Event, DecodeState, Fault>

  function ShiftedStep(step: Step<Event, DecodeState, Fault>, at: nat): Turn
  {
    match step
    case Took(item, n, next) => Moved(item, at + n, next)
    case Wait(left) => Waits(left)
    case Stop(f) => Stops(f)
  }

  /** A turn of the loop and a forward step agree, or the step goes back. */
  ghost predicate AgreeAt(turn: Turns, step: LogReader, at: nat, r: seq<byte>, s: DecodeState)
  {
    step(r, s) != Stop(GoesBack) ==> turn(at, s) == ShiftedStep(step(r, s), at)
  }

  lemma TurnAgrees(buf: seq<byte>, at: nat, s: DecodeState)
    requires at <= |buf|
    ensures AgreeAt(TurnsOf(buf), LogStep, at, buf[at..], s)
  {
    assert TurnsOf(buf)(at, s) == TurnAt(buf, at, s);
    if LogStep(buf[at..], s) != Stop(GoesBack) {
      match s.header
      case None => HeaderAgrees(buf, at);
      case Some(h) => RecordAgrees(buf, at, s.cache, h, s.users);
    }
  }

  function ShiftedLog(log: Log<Event, DecodeState, Fault>, at: nat): Course
  {
    var how := match log.end case AtEnd => Ended case CutShort => Waiting case Failed(f) => Threw(f);
    Course(log.items, at + log.used, log.state, how)
  }

  function Before(item: Event, rest: Course): Course { rest.(items := [item] + rest.items) }

  lemma BeforeShifts(item: Event, n: nat, log: Log<Event, DecodeState, Fault>, at: nat)
    ensures ShiftedLog(Prepend(item, n, log), at) == Before(item, ShiftedLog(log, at + n))
  {
  }

  lemma FirstTurn(turn: Turns, step: LogReader, buf: seq<byte>, at: nat, r: seq<byte>, s: DecodeState, turns: nat)
    returns (item: Event, n: nat, next: DecodeState, r1: seq<byte>)
    requires Progress(step) && at <= |buf| && r == buf[at..] && turns > 0
    requires step(r, s).Took? && r != [] && turn(at, s) == ShiftedStep(step(r, s), at)
    ensures 0 < n && at + n <= |buf| && r1 == buf[at + n..]
    ensures Run(step, r, s) == Prepend(item, n, Run(step, r1, next))
    ensures Loop(turn, |buf|, at, s, turns) == Before(item, Loop(turn, |buf|, at + n, next, turns - 1))
  {
    var out := step(r, s);
    item, n, next, r1 := out.item, out.used, out.next, r[out.used..];
    DropTwice(buf, at, n);
  }

  lemma {:induction false} LoopAgrees(turn: Turns, step: LogReader, buf: seq<byte>, at: nat, r: seq<byte>,
                                      s: DecodeState,
                                      turns: nat)
    requires Progress(step) && at <= |buf| && r == buf[at..] && |r| <= turns
    requires forall a: nat, q, u :: a <= |buf| && q == buf[a..] ==> AgreeAt(turn, step, a, q, u)
    requires Run(step, r, s).end != Failed(GoesBack)
    ensures Loop(turn, |buf|, at, s, turns) == ShiftedLog(Run(step, r, s), at)
    decreases turns
  {
    if r != [] {
      assert AgreeAt(turn, step, at, r, s);
      if step(r, s).Took? {
        var item, n, next, r1 := FirstTurn(turn, step, buf, at, r, s, turns);
        LoopAgrees(turn, step, buf, at + n, r1, next, turns - 1);
        BeforeShifts(item, n, Run(step, r1, next), at);
      }
    }
  }

  /**
   * The decoder's loop over a buffer is the forward run, wherever that meets no
   * negative length: it ends, after at most a turn for each byte.
   */
  lemma RunAgrees(buf: seq<byte>, s: DecodeState, turns: nat)
    requires Progress(LogStep) && |buf| <= turns && Run(LogStep, buf, s).end != Failed(GoesBack)
    ensures RunAt(buf, 0, s, turns) == ShiftedLog(Run(LogStep, buf, s), 0)
  {
    assert buf[0..] == buf;
    forall a: nat, q, u | a <= |buf| && q == buf[a..] ensures AgreeAt(TurnsOf(buf), LogStep, a, q, u) {
      TurnAgrees(buf, a, u);
    }
    LoopAgrees(TurnsOf(buf), LogStep, buf, 0, buf, s, turns);
  }

  // ----- How far a record moves the reader -----

  /** What a string of this length moves the reader by, its length field included. */
  function TextWidth(len: int): int { if len == 0 then 4 else 5 + len }

  /** The length of the string a field reads here, if it reads one and its length is there. */
  function LengthOf(buf: seq<byte>, at: nat, f: Field): Option<int>
  {
    match f
    case Inline => if |buf| < at + 4 then None else Some(IntAt(buf, at))
    case Cached => if |buf| < at + 8 || IntAt(buf, at) < 0 then None else Some(IntAt(buf, at + 4))
    case _ => None
  }

  /** What a field moves the reader by. */
  function WidthOf(buf: seq<byte>, at: nat, f: Field): int
  {
    match f
    case Octet => 1
    case Int32 => 4
    case Int64 => 8
    case Inline => if LengthOf(buf, at, f).Some? then TextWidth(LengthOf(buf, at, f).value) else 4
    case Cached => 4 + if LengthOf(buf, at, f).Some? then TextWidth(LengthOf(buf, at, f).value) else 0
    case Payload => 4 + if |buf| < at + 4 then 0 else IntAt(buf, at)
    case Many(_) => 4
  }

  lemma FieldMoves(buf: seq<byte>, at: nat, c: Cache, f: Field)
    requires FieldAt(buf, at, c, f).DoneAt?
    ensures FieldAt(buf, at, c, f).next == at + WidthOf(buf, at, f)
    ensures WidthOf(buf, at, f) <= 0 ==> LengthOf(buf, at, f).Some? && LengthOf(buf, at, f).value < -4
  {
  }

  function Sum(widths: seq<int>): int { if widths == [] then 0 else widths[0] + Sum(widths[1..]) }

  /** The widths of the fields read one after the other. */
  function WidthsBy(read: FieldReader, width: (nat, Field) -> int, at: nat, c: Cache, fs: seq<Field>): seq<int>
    requires Flat(fs)
    decreases Lists(fs), |fs|
  {
    if fs == [] || !read(at, c, fs[0]).DoneAt? then []
    else
      var out := read(at, c, fs[0]);
      RestShrinks(fs, out.value);
      [width(at, fs[0])] + WidthsBy(read, width, out.next, out.cache, Rest(fs, out.value))
  }

  /** The string lengths met on the way. */
  function LengthsBy(read: FieldReader, length: (nat, Field) -> Option<int>, at: nat, c: Cache,
                     fs: seq<Field>): seq<int>
    requires Flat(fs)
    decreases Lists(fs), |fs|
  {
    if fs == [] then []
    else
      var out := read(at, c, fs[0]);
      var here := if length(at, fs[0]).Some? then [length(at, fs[0]).value] else [];
      if !out.DoneAt? then here
      else
        RestShrinks(fs, out.value);
        here + LengthsBy(read, length, out.next, out.cache, Rest(fs, out.value))
  }

  function Widths(buf: seq<byte>, at: nat, c: Cache, fs: seq<Field>): seq<int>
    requires Flat(fs)
  {
    WidthsBy(ReaderOf(buf), (a: nat, f: Field) => WidthOf(buf, a, f), at, c, fs)
  }

  function Lengths(buf: seq<byte>, at: nat, c: Cache, fs: seq<Field>): seq<int>
    requires Flat(fs)
  {
    LengthsBy(ReaderOf(buf), (a: nat, f: Field) => LengthOf(buf, a, f), at, c, fs)
  }

  ghost predicate MovesBy(read: FieldReader, width: (nat, Field) -> int, at: nat, c: Cache, f: Field)
  {
    read(at, c, f).DoneAt? ==> read(at, c, f).next == at + width(at, f)
  }

  lemma {:induction false} FieldsMoveBy(read: FieldReader, width: (nat, Field) -> int, at: nat, c: Cache,
                                        fs: seq<Field>)
    requires Flat(fs) && FieldsBy(read, at, c, fs).DoneAt? && forall a, d, f :: MovesBy(read, width, a, d, f)
    ensures FieldsBy(read, at, c, fs).next == at + Sum(WidthsBy(read, width, at, c, fs))
    decreases Lists(fs), |fs|
  {
    if fs != [] {
      assert MovesBy(read, width, at, c, fs[0]);
      var out := read(at, c, fs[0]);
      RestShrinks(fs, out.value);
      FieldsMoveBy(read, width, out.next, out.cache, Rest(fs, out.value));
    }
  }

  /** A string no shorter than -4 moves the reader on. */
  ghost predicate ForwardIf(width: (nat, Field) -> int, length: (nat, Field) -> Option<int>, at: nat, f: Field)
  {
    width(at, f) > 0 || (length(at, f).Some? && length(at, f).value < -4)
  }

  ghost predicate DoneForward(read: FieldReader, width: (nat, Field) -> int, length: (nat, Field) -> Option<int>,
                              at: nat, c: Cache, f: Field)
  {
    read(at, c, f).DoneAt? ==> ForwardIf(width, length, at, f)
  }

  lemma {:induction false} LongEnoughBy(read: FieldReader, width: (nat, Field) -> int,
                                        length: (nat, Field) -> Option<int>, at: nat, c: Cache, fs: seq<Field>)
    requires Flat(fs) && forall a, d, f :: DoneForward(read, width, length, a, d, f)
    requires forall l <- LengthsBy(read, length, at, c, fs) :: l >= -4
    ensures Sum(WidthsBy(read, width, at, c, fs)) >= 0
    decreases Lists(fs), |fs|
  {
    if fs != [] && read(at, c, fs[0]).DoneAt? {
      assert DoneForward(read, width, length, at, c, fs[0]);
      var out := read(at, c, fs[0]);
      RestShrinks(fs, out.value);
      var all, later := LengthsBy(read, length, at, c, fs),
                        LengthsBy(read, length, out.next, out.cache, Rest(fs, out.value));
      assert forall l <- later :: l in all;
      if length(at, fs[0]).Some? { assert all[0] == length(at, fs[0]).value && all[0] in all; }
      LongEnoughBy(read, width, length, out.next, out.cache, Rest(fs, out.value));
    }
  }

  /** A record's widths: its type byte, then its fields. */
  function RecordWidths(buf: seq<byte>, at: nat, c: Cache): seq<int>
  {
    var kind := FieldAt(buf, at, c, Octet);
    if !kind.DoneAt? || Shape(kind.value.n).None? then []
    else
      ShapesAreFlat(kind.value.n);
      [1] + Widths(buf, at + 1, c, Shape(kind.value.n).value)
  }

  function RecordLengths(buf: seq<byte>, at: nat, c: Cache): seq<int>
  {
    var kind := FieldAt(buf, at, c, Octet);
    if !kind.DoneAt? || Shape(kind.value.n).None? then []
    else
      ShapesAreFlat(kind.value.n);
      Lengths(buf, at + 1, c, Shape(kind.value.n).value)
  }

  /**
   * A record that is read moves the reader on exactly when the signed widths of
   * its fields add up to more than nothing; so it does whenever none of its
   * strings has a length below -4.
   */
  lemma RecordMovesIff(buf: seq<byte>, at: nat, c: Cache, h: Header, users: nat)
    requires RecordAt(buf, at, c, h, users).DoneAt?
    ensures RecordAt(buf, at, c, h, users).next > at <==> Sum(RecordWidths(buf, at, c)) > 0
    ensures (forall l <- RecordLengths(buf, at, c) :: l >= -4) ==> RecordAt(buf, at, c, h, users).next > at
  {
    var kind := FieldAt(buf, at, c, Octet).value.n;
    var fs := Shape(kind).value;
    var read, width, length := ReaderOf(buf), (a: nat, f: Field) => WidthOf(buf, a, f),
                               (a: nat, f: Field) => LengthOf(buf, a, f);
    forall a, d, f ensures MovesBy(read, width, a, d, f) && DoneForward(read, width, length, a, d, f) {
      assert read(a, d, f) == FieldAt(buf, a, d, f);
      if FieldAt(buf, a, d, f).DoneAt? { FieldMoves(buf, a, d, f); }
    }
    ShapesAreFlat(kind);
    FieldsMoveBy(read, width, at + 1, c, fs);
    assert Sum([1] + Widths(buf, at + 1, c, fs)) == 1 + Sum(Widths(buf, at + 1, c, fs)) by {
      assert ([1] + Widths(buf, at + 1, c, fs))[1..] == Widths(buf, at + 1, c, fs);
    }
    if forall l <- RecordLengths(buf, at, c) :: l >= -4 { LongEnoughBy(read, width, length, at + 1, c, fs); }
  }

  // ----- The forward reading stops exactly at a negative length -----

  /** The forward reader goes back on a field exactly when its string has a negative length. */
  ghost predicate BackIff(q: FieldReader, length: (nat, Field) -> Option<int>, at: nat, c: Cache, f: Field)
  {
    q(at, c, f) == BrokenAt(GoesBack) <==> length(at, f).Some? && length(at, f).value < 0
  }

  /** The lengths met: the first field's, if it has one, and the later ones'. */
  lemma LengthsFrom(read: FieldReader, length: (nat, Field) -> Option<int>, at: nat, c: Cache, fs: seq<Field>, l: int)
    requires Flat(fs) && fs != []
    ensures var out := read(at, c, fs[0]);
      && (out.DoneAt? ==> Flat(Rest(fs, out.value)))
      && (l in LengthsBy(read, length, at, c, fs) <==>
            || length(at, fs[0]) == Some(l)
            || (out.DoneAt? && l in LengthsBy(read, length, out.next, out.cache, Rest(fs, out.value))))
  {
    if read(at, c, fs[0]).DoneAt? { RestShrinks(fs, read(at, c, fs[0]).value); }
  }

  ghost predicate MeetsNegative(lengths: seq<int>) { exists l :: l in lengths && l < 0 }

  lemma {:induction false} GoesBackBy(p: FieldReader, q: FieldReader, length: (nat, Field) -> Option<int>,
                                      at: nat, c: Cache, fs: seq<Field>)
    requires Flat(fs) && (forall a, d, f :: AgreeOn(p, q, a, d, f)) && forall a, d, f :: BackIff(q, length, a, d, f)
    ensures FieldsBy(q, at, c, fs) == BrokenAt(GoesBack) <==> MeetsNegative(LengthsBy(p, length, at, c, fs))
    decreases Lists(fs), |fs|
  {
    if fs != [] {
      assert AgreeOn(p, q, at, c, fs[0]) && BackIff(q, length, at, c, fs[0]);
      var out := q(at, c, fs[0]);
      if out.DoneAt? {
        RestShrinks(fs, out.value);
        GoesBackBy(p, q, length, out.next, out.cache, Rest(fs, out.value));
      }
      forall l ensures l in LengthsBy(p, length, at, c, fs) <==>
        || length(at, fs[0]) == Some(l)
        || (p(at, c, fs[0]).DoneAt? &&
            Flat(Rest(fs, p(at, c, fs[0]).value)) &&
            l in LengthsBy(p, length, p(at, c, fs[0]).next, p(at, c, fs[0]).cache, Rest(fs, p(at, c, fs[0]).value)))
      {
        LengthsFrom(p, length, at, c, fs, l);
      }
    }
  }

  lemma BackOrNot(buf: seq<byte>, at: nat, c: Cache, f: Field)
    ensures ForwardOf(buf)(at, c, f) == BrokenAt(GoesBack) <==>
            LengthOf(buf, at, f).Some? && LengthOf(buf, at, f).value < 0
  {
    if at <= |buf| {
      var r := buf[at..];
      if |r| >= 4 { DropThenTake(buf, at, 4); }
      if |r| >= 8 {
        DropTwice(buf, at, 4);
        DropThenTake(buf, at + 4, 4);
      }
    }
  }

  /** Reading a record forwards stops for going back exactly when the reader meets a negative string length in it. */
  lemma GoesBackIff(buf: seq<byte>, at: nat, c: Cache, h: Header, users: nat)
    requires at <= |buf|
    ensures ReadRecord(buf[at..], c, h, users) == Broken(GoesBack) <==> MeetsNegative(RecordLengths(buf, at, c))
  {
    FieldAgrees(buf, at, c, Octet);
    if at < |buf| {
      var kind := ReadField(buf[at..], c, Octet).value.n;
      if Shape(kind).Some? {
        ShapesAreFlat(kind);
        DropTwice(buf, at, 1);
        FieldsGoBackIff(buf, at + 1, c, Shape(kind).value);
      }
    }
  }

  lemma FieldsGoBackIff(buf: seq<byte>, at: nat, c: Cache, fs: seq<Field>)
    requires Flat(fs) && at <= |buf|
    ensures ReadFields(buf[at..], c, fs) == Broken(GoesBack) <==> MeetsNegative(Lengths(buf, at, c, fs))
  {
    var p, q, length := ReaderOf(buf), ForwardOf(buf), (a: nat, f: Field) => LengthOf(buf, a, f);
    forall a: nat, r, d, f | a <= |buf| && r == buf[a..] ensures Finds(q, a, r, d, f) {}
    ForwardFields(q, buf, at, buf[at..], c, fs);
    forall a, d, f ensures AgreeOn(p, q, a, d, f) { OneAgrees(buf, a, d, f); }
    forall a, d, f ensures BackIff(q, length, a, d, f) { BackOrNot(buf, a, d, f); }
    GoesBackBy(p, q, length, at, c, fs);
  }
}
