/**
 * What a jar says about itself, read straight out of the zip
 * (packages/core/src/gatling-jar.ts): the central directory, the manifest
 * entry, and the facts drawn from them.
 *
 * Text decoding and inflating are parameters. The reader is one over a fixed
 * file: it answers with as many of the bytes asked for as there are.
 */
module GatlingJar {
  import opened Bytes
  import Manifest
  import opened Text

  /** Decodes bytes as text, and inflates a deflated stream, None when it is not one. */
  datatype Codec = Codec(text: seq<byte> -> string, inflate: seq<byte> -> Option<seq<byte>>)

  datatype JarError =
    | NotAJar | NoZip64Locator | NotZip64 | BadEntry(i: nat) | Truncated(position: nat, wanted: nat)
    | TooLarge | Unsupported(compression: nat) | NotDeflated

  datatype Result<+T> = Ok(value: T) | Err(error: JarError)

  datatype CentralEntry = CentralEntry(compression: nat, compressedSize: nat, localHeaderOffset: nat)

  type Directory = map<string, CentralEntry>

  const MAIN_CLASS := "io/gatling/app/Gatling.class"
  const MANIFEST := "META-INF/MANIFEST.MF"
  const GATLING_VERSION := "gatling-version"
  const EOCD_SIGNATURE := 0x06054b50
  const ZIP64_LOCATOR_SIGNATURE := 0x07064b50
  const ZIP64_EOCD_SIGNATURE := 0x06064b50
  const CENTRAL_ENTRY_SIGNATURE := 0x02014b50
  const EOCD_MIN_BYTES := 22
  const EOCD_MAX_BYTES := EOCD_MIN_BYTES + 0xffff
  const MAX_MANIFEST_BYTES := 1024 * 1024

  /** A little-endian integer of `width` bytes at `at`. */
  function Number(s: seq<byte>, at: nat, width: nat): nat
    requires at + width <= |s|
  {
    LittleEndian(s[at..at + width])
  }

  /** The same bytes read in a larger buffer. */
  lemma NumberWithin(s: seq<byte>, base: nat, part: seq<byte>, at: nat, width: nat)
    requires base + |part| <= |s| && s[base..base + |part|] == part && at + width <= |part|
    ensures Number(s, base + at, width) == Number(part, at, width)
  {
    SliceOfSlice(s, base, base + |part|, at, at + width);
  }

  function ReadExactly(jar: seq<byte>, position: nat, length: nat): Result<seq<byte>>
  {
    if length == 0 then Ok([])
    else if position + length <= |jar| then Ok(jar[position..position + length])
    else Err(Truncated(position, length))
  }

  function Min(a: nat, b: nat): nat { if a < b then a else b }

  function Tail(jar: seq<byte>): seq<byte> { jar[|jar| - Min(|jar|, EOCD_MAX_BYTES)..] }

  // ----- Finding the end of the directory -----

  predicate EocdAt(tail: seq<byte>, i: nat)
  {
    i + EOCD_MIN_BYTES <= |tail| && Number(tail, i, 4) == EOCD_SIGNATURE
  }

  /** The last end-of-central-directory signature that a whole record could start at. */
  method FindEocd(tail: seq<byte>) returns (eocd: Option<nat>)
    ensures eocd.Some? ==> EocdAt(tail, eocd.value) && forall j: nat :: eocd.value < j ==> !EocdAt(tail, j)
    ensures eocd.None? ==> forall j: nat :: !EocdAt(tail, j)
    ensures eocd == LastEocd(tail, |tail|)
  {
    var i := |tail| - EOCD_MIN_BYTES;
    while i >= 0
      invariant forall j: nat :: i < j ==> !EocdAt(tail, j)
      invariant LastEocd(tail, |tail|) == if i < 0 then None else LastEocd(tail, i + 1)
    {
      if Number(tail, i, 4) == EOCD_SIGNATURE { return Some(i); }
      i := i - 1;
    }
    eocd := None;
  }

  function LastEocd(tail: seq<byte>, below: nat): (eocd: Option<nat>)
    ensures eocd.Some? ==>
              && eocd.value < below && EocdAt(tail, eocd.value)
              && forall j: nat :: eocd.value < j < below ==> !EocdAt(tail, j)
    ensures eocd.None? ==> forall j: nat :: j < below ==> !EocdAt(tail, j)
  {
    if below == 0 then None
    else if EocdAt(tail, below - 1) then Some(below - 1)
    else LastEocd(tail, below - 1)
  }

  /** Where the directory is said to be. */
  datatype Span = Span(count: nat, size: nat, offset: nat)

  /** A field too small for its number: the Zip64 record has it. */
  predicate Saturated(span: Span) { span.count == 0xffff || span.offset == 0xffffffff || span.size == 0xffffffff }

  function Located(jar: seq<byte>): Result<Span>
  {
    var tail := Tail(jar);
    var found := LastEocd(tail, |tail|);
    if found.None? then Err(NotAJar)
    else
      var eocd := found.value;
      var span := Span(Number(tail, eocd + 10, 2), Number(tail, eocd + 12, 4), Number(tail, eocd + 16, 4));
      if !Saturated(span) then Ok(span)
      else if eocd < 20 || Number(tail, eocd - 20, 4) != ZIP64_LOCATOR_SIGNATURE then Err(NoZip64Locator)
      else
        var record := ReadExactly(jar, Number(tail, eocd - 12, 8), 56);
        if record.Err? then Err(record.error)
        else if Number(record.value, 0, 4) != ZIP64_EOCD_SIGNATURE then Err(NotZip64)
        else Ok(Span(Number(record.value, 32, 8), Number(record.value, 40, 8), Number(record.value, 48, 8)))
  }

  // ----- Entries -----

  /** `buffer.toString('utf8', from, to)`, which stops at the buffer's end. */
  function Slice(s: seq<byte>, from: nat, to: nat): seq<byte>
    requires from <= to
  {
    if |s| <= from then [] else s[from..Min(to, |s|)]
  }

  predicate HeaderAt(directory: seq<byte>, cursor: nat)
  {
    cursor + 46 <= |directory| && Number(directory, cursor, 4) == CENTRAL_ENTRY_SIGNATURE
  }

  /** The entry whose header is at the cursor, its name, and where the next one is. */
  function EntryAt(directory: seq<byte>, cursor: nat, codec: Codec): (string, CentralEntry, nat)
    requires HeaderAt(directory, cursor)
  {
    var nameLength := Number(directory, cursor + 28, 2);
    (codec.text(Slice(directory, cursor + 46, cursor + 46 + nameLength)),
     CentralEntry(Number(directory, cursor + 10, 2), Number(directory, cursor + 20, 4),
         Number(directory, cursor + 42, 4)),
     cursor + 46 + nameLength + Number(directory, cursor + 30, 2) + Number(directory, cursor + 32, 2))
  }

  /** What is read at a cursor: an entry's name, the entry and where the next one is, or no header. */
  type Reader = nat -> Option<(string, CentralEntry, nat)>

  function EntryReader(directory: seq<byte>, codec: Codec): Reader
  {
    (cursor: nat) => if HeaderAt(directory, cursor) then Some(EntryAt(directory, cursor, codec)) else None
  }

  /** Entries `i` up to `count`, added to those already read. */
  function Entries(read: Reader, cursor: nat, i: nat, count: nat, entries: Directory): Result<Directory>
    decreases count - i
  {
    if i >= count then Ok(entries)
    else
      match read(cursor)
      case None => Err(BadEntry(i))
      case Some((name, entry, next)) => Entries(read, next, i + 1, count, entries[name := entry])
  }

  function Central(jar: seq<byte>, codec: Codec): Result<Directory>
  {
    var span := Located(jar);
    if span.Err? then Err(span.error)
    else
      var directory := ReadExactly(jar, span.value.offset, span.value.size);
      if directory.Err? then Err(directory.error)
      else Entries(EntryReader(directory.value, codec), 0, 0, span.value.count, map[])
  }

  /** The end record, or the Zip64 record, says where the directory is. */
  method Locate(jar: seq<byte>) returns (r: Result<Span>)
    ensures r == Located(jar)
  {
    var tail := Tail(jar);
    var eocd := FindEocd(tail);
    if eocd.None? { return Err(NotAJar); }
    var count := Number(tail, eocd.value + 10, 2);
    var offset := Number(tail, eocd.value + 16, 4);
    var size := Number(tail, eocd.value + 12, 4);
    if count == 0xffff || offset == 0xffffffff || size == 0xffffffff {
      var locator := (eocd.value as int) - 20;
      if locator < 0 || Number(tail, locator, 4) != ZIP64_LOCATOR_SIGNATURE { return Err(NoZip64Locator); }
      var record := ReadExactly(jar, Number(tail, locator + 8, 8), 56);
      if record.Err? { return Err(record.error); }
      if Number(record.value, 0, 4) != ZIP64_EOCD_SIGNATURE { return Err(NotZip64); }
      count, size, offset := Number(record.value, 32, 8), Number(record.value, 40, 8), Number(record.value, 48, 8);
    }
    r := Ok(Span(count, size, offset));
  }

  method ReadEntries(directory: seq<byte>, count: nat, codec: Codec) returns (r: Result<Directory>)
    ensures r == Entries(EntryReader(directory, codec), 0, 0, count, map[])
  {
    var entries: Directory := map[];
    var cursor := 0;
    var i := 0;
    while i < count
      invariant i <= count
      invariant Entries(EntryReader(directory, codec), cursor, i, count, entries)
             == Entries(EntryReader(directory, codec), 0, 0, count, map[])
    {
      if cursor + 46 > |directory| || Number(directory, cursor, 4) != CENTRAL_ENTRY_SIGNATURE {
        return Err(BadEntry(i));
      }
      var (name, entry, next) := EntryAt(directory, cursor, codec);
      entries := entries[name := entry];
      cursor, i := next, i + 1;
    }
    r := Ok(entries);
  }

  method ReadCentralDirectory(jar: seq<byte>, codec: Codec) returns (r: Result<Directory>)
    ensures r == Central(jar, codec)
  {
    var span := Locate(jar);
    if span.Err? { return Err(span.error); }
    var directory := ReadExactly(jar, span.value.offset, span.value.size);
    if directory.Err? { return Err(directory.error); }
    r := ReadEntries(directory.value, span.value.count, codec);
  }

  // ----- The manifest entry and the facts -----

  function EntryText(jar: seq<byte>, entry: CentralEntry, codec: Codec): Result<string>
  {
    if entry.compressedSize > MAX_MANIFEST_BYTES then Err(TooLarge)
    else
      var local := ReadExactly(jar, entry.localHeaderOffset, 30);
      if local.Err? then Err(local.error)
      else
        var at := entry.localHeaderOffset + 30 + Number(local.value, 26, 2) + Number(local.value, 28, 2);
        var raw := ReadExactly(jar, at, entry.compressedSize);
        if raw.Err? then Err(raw.error)
        else if entry.compression == 0 then Ok(codec.text(raw.value))
        else if entry.compression != 8 then Err(Unsupported(entry.compression))
        else
          var inflated := codec.inflate(raw.value);
          if inflated.None? then Err(NotDeflated) else Ok(codec.text(inflated.value))
  }

  datatype Facts = Facts(carriesRuntime: bool, gatlingVersion: Option<string>, simulations: seq<string>)

  function FactsOf(headers: Manifest.Headers, directory: Directory): Facts
  {
    Facts(MAIN_CLASS in directory,
          if GATLING_VERSION in headers then Some(headers[GATLING_VERSION]) else None,
          Manifest.Simulations(headers))
  }

  /** What a jar says of itself. */
  function FactsIn(jar: seq<byte>, codec: Codec): Result<Facts>
  {
    var directory := Central(jar, codec);
    if directory.Err? then Err(directory.error)
    else if MANIFEST !in directory.value then Ok(FactsOf(map[], directory.value))
    else
      var manifest := EntryText(jar, directory.value[MANIFEST], codec);
      if manifest.Err? then Err(manifest.error)
      else Ok(FactsOf(Manifest.Parsed(manifest.value), directory.value))
  }

  method ParseGatlingJar(jar: seq<byte>, codec: Codec) returns (r: Result<Facts>)
    ensures r == FactsIn(jar, codec)
  {
    var directory := ReadCentralDirectory(jar, codec);
    if directory.Err? { return Err(directory.error); }
    var headers: Manifest.Headers := map[];
    if MANIFEST in directory.value {
      var manifest := EntryText(jar, directory.value[MANIFEST], codec);
      if manifest.Err? { return Err(manifest.error); }
      headers := Manifest.ParseManifest(manifest.value);
    }
    r := Ok(FactsOf(headers, directory.value));
  }

  // ----- The format: PKWARE APPNOTE.TXT, sections 4.3.12 and 4.3.14 to 4.3.16 -----

  /** A central directory entry as it is written; the last four fields are ones nobody here reads. */
  datatype Packed = Packed(
    name: seq<byte>, extra: seq<byte>, comment: seq<byte>, entry: CentralEntry,
    versions: seq<byte>, stamps: seq<byte>, uncompressed: seq<byte>, attributes: seq<byte>)

  function Length(e: Packed): nat { 46 + |e.name| + |e.extra| + |e.comment| }

  /** These bytes are the header of this entry. */
  ghost predicate HeaderOf(h: seq<byte>, e: Packed)
  {
    && |h| == Length(e)
    && Number(h, 0, 4) == CENTRAL_ENTRY_SIGNATURE
    && Number(h, 10, 2) == e.entry.compression
    && Number(h, 20, 4) == e.entry.compressedSize
    && Number(h, 28, 2) == |e.name|
    && Number(h, 30, 2) == |e.extra|
    && Number(h, 32, 2) == |e.comment|
    && Number(h, 42, 4) == e.entry.localHeaderOffset
    && h[46..46 + |e.name|] == e.name
  }

  /** The entries by name, a later one of the same name replacing an earlier. */
  function Named(es: seq<Packed>, codec: Codec, entries: Directory): Directory
  {
    if es == [] then entries else Named(es[1..], codec, entries[codec.text(es[0].name) := es[0].entry])
  }

  lemma HeaderReads(directory: seq<byte>, cursor: nat, h: seq<byte>, e: Packed, codec: Codec)
    requires cursor + Length(e) <= |directory| && h == directory[cursor..cursor + Length(e)] && HeaderOf(h, e)
    ensures HeaderAt(directory, cursor)
    ensures EntryAt(directory, cursor, codec) == (codec.text(e.name), e.entry, cursor + Length(e))
  {
    HeaderNumbers(directory, cursor, h);
    SliceOfSlice(directory, cursor, cursor + Length(e), 46, 46 + |e.name|);
    assert h[46..46 + |e.name|] == directory[cursor + 46..cursor + 46 + |e.name|];
  }

  lemma HeaderNumbers(directory: seq<byte>, cursor: nat, h: seq<byte>)
    requires 46 <= |h| && cursor + |h| <= |directory| && h == directory[cursor..cursor + |h|]
    ensures Number(directory, cursor, 4) == Number(h, 0, 4)
    ensures Number(directory, cursor + 10, 2) == Number(h, 10, 2)
    ensures Number(directory, cursor + 20, 4) == Number(h, 20, 4)
    ensures Number(directory, cursor + 28, 2) == Number(h, 28, 2)
    ensures Number(directory, cursor + 30, 2) == Number(h, 30, 2)
    ensures Number(directory, cursor + 32, 2) == Number(h, 32, 2)
    ensures Number(directory, cursor + 42, 4) == Number(h, 42, 4)
  {
    NumberWithin(directory, cursor, h, 0, 4);
    NumberWithin(directory, cursor, h, 10, 2);
    NumberWithin(directory, cursor, h, 20, 4);
    NumberWithin(directory, cursor, h, 28, 2);
    NumberWithin(directory, cursor, h, 30, 2);
    NumberWithin(directory, cursor, h, 32, 2);
    NumberWithin(directory, cursor, h, 42, 4);
  }

  /** What a reader finds: each entry at its start, and where the next one is. */
  ghost predicate Lists(read: Reader, starts: seq<nat>, es: seq<Packed>, codec: Codec)
  {
    |starts| == |es| + 1 &&
    forall i :: 0 <= i < |es| ==> read(starts[i]) == Some((codec.text(es[i].name), es[i].entry, starts[i + 1]))
  }

  lemma {:induction false} EntriesRead(read: Reader, starts: seq<nat>, i: nat, es: seq<Packed>, codec: Codec,
                                       entries: Directory)
    requires Lists(read, starts, es, codec) && i <= |es|
    ensures Entries(read, starts[i], i, |es|, entries) == Ok(Named(es[i..], codec, entries))
    decreases |es| - i
  {
    if i < |es| {
      EntriesRead(read, starts, i + 1, es, codec, entries[codec.text(es[i].name) := es[i].entry]);
      assert es[i..][0] == es[i] && es[i..][1..] == es[i + 1..];
    }
  }

  /** The reader's loop over this directory adds these entries to any it has. */
  ghost predicate ReadsAs(directory: seq<byte>, es: seq<Packed>, codec: Codec)
  {
    forall entries :: Entries(EntryReader(directory, codec), 0, 0, |es|, entries) == Ok(Named(es, codec, entries))
  }

  /** An end record at `eocd`, its comment running to the end of the file. */
  ghost predicate EndsAt(jar: seq<byte>, eocd: nat)
  {
    EocdAt(jar, eocd) && |jar| <= eocd + EOCD_MAX_BYTES
  }

  /** What the end record, or the Zip64 record its locator points at, says of the directory. */
  ghost predicate Says(jar: seq<byte>, eocd: nat, span: Span)
    requires EndsAt(jar, eocd)
  {
    var short := Span(Number(jar, eocd + 10, 2), Number(jar, eocd + 12, 4), Number(jar, eocd + 16, 4));
    if !Saturated(short) then span == short
    else
      && 20 <= eocd && |jar| <= eocd - 20 + EOCD_MAX_BYTES
      && Number(jar, eocd - 20, 4) == ZIP64_LOCATOR_SIGNATURE
      && var record := Number(jar, eocd - 12, 8);
         && record + 56 <= |jar| && Number(jar, record, 4) == ZIP64_EOCD_SIGNATURE
         && span == Span(Number(jar, record + 32, 8), Number(jar, record + 40, 8), Number(jar, record + 48, 8))
  }

  /** No end-of-directory signature starts after the true one. */
  ghost predicate Unshadowed(jar: seq<byte>, eocd: nat) { forall j: nat :: eocd < j ==> !EocdAt(jar, j) }

  lemma EocdInTail(jar: seq<byte>, base: nat, tail: seq<byte>, j: nat)
    requires base + |tail| == |jar| && tail == jar[base..]
    ensures EocdAt(tail, j) <==> EocdAt(jar, base + j)
  {
    if j + EOCD_MIN_BYTES <= |tail| {
      assert jar[base..base + |tail|] == tail;
      NumberWithin(jar, base, tail, j, 4);
    }
  }

  /** The scan stops at the true record exactly when no signature starts after it. */
  lemma FindsTrueEndIff(jar: seq<byte>, eocd: nat)
    requires EndsAt(jar, eocd)
    ensures var tail := Tail(jar);
      LastEocd(tail, |tail|) == Some(eocd - (|jar| - |tail|)) <==> Unshadowed(jar, eocd)
  {
    var tail := Tail(jar);
    var base := |jar| - |tail|;
    var at := eocd - base;
    var last := LastEocd(tail, |tail|);
    EocdInTail(jar, base, tail, at);
    if last == Some(at) {
      forall j: nat | eocd < j ensures !EocdAt(jar, j) { EocdInTail(jar, base, tail, j - base); }
    }
    if Unshadowed(jar, eocd) { EocdInTail(jar, base, tail, last.value); }
  }

  /** With no comment there is no room for one. */
  lemma NoCommentIsUnshadowed(jar: seq<byte>, eocd: nat)
    requires EndsAt(jar, eocd) && |jar| == eocd + EOCD_MIN_BYTES
    ensures Unshadowed(jar, eocd)
  {
  }

  lemma EndNumbers(jar: seq<byte>, base: nat, tail: seq<byte>, at: nat)
    requires base + |tail| <= |jar| && tail == jar[base..base + |tail|] && at + EOCD_MIN_BYTES <= |tail|
    ensures Number(jar, base + at + 10, 2) == Number(tail, at + 10, 2)
    ensures Number(jar, base + at + 12, 4) == Number(tail, at + 12, 4)
    ensures Number(jar, base + at + 16, 4) == Number(tail, at + 16, 4)
  {
    NumberWithin(jar, base, tail, at + 10, 2);
    NumberWithin(jar, base, tail, at + 12, 4);
    NumberWithin(jar, base, tail, at + 16, 4);
  }

  lemma LocatorNumbers(jar: seq<byte>, base: nat, tail: seq<byte>, at: nat)
    requires base + |tail| <= |jar| && tail == jar[base..base + |tail|] && at + 20 <= |tail|
    ensures Number(jar, base + at, 4) == Number(tail, at, 4)
    ensures Number(jar, base + at + 8, 8) == Number(tail, at + 8, 8)
  {
    NumberWithin(jar, base, tail, at, 4);
    NumberWithin(jar, base, tail, at + 8, 8);
  }

  lemma RecordNumbers(jar: seq<byte>, at: nat)
    requires at + 56 <= |jar|
    ensures var record := jar[at..at + 56];
      && Number(jar, at, 4) == Number(record, 0, 4)
      && Number(jar, at + 32, 8) == Number(record, 32, 8)
      && Number(jar, at + 40, 8) == Number(record, 40, 8)
      && Number(jar, at + 48, 8) == Number(record, 48, 8)
  {
    var record := jar[at..at + 56];
    NumberWithin(jar, at, record, 0, 4);
    NumberWithin(jar, at, record, 32, 8);
    NumberWithin(jar, at, record, 40, 8);
    NumberWithin(jar, at, record, 48, 8);
  }

  /** What the numbers of the end record are, in the tail and in the file. */
  function ShortSpan(s: seq<byte>, eocd: nat): Span
    requires eocd + EOCD_MIN_BYTES <= |s|
  {
    Span(Number(s, eocd + 10, 2), Number(s, eocd + 12, 4), Number(s, eocd + 16, 4))
  }

  lemma SaidInTail(jar: seq<byte>, eocd: nat) returns (at: nat)
    requires EndsAt(jar, eocd) && Unshadowed(jar, eocd)
    ensures var tail := Tail(jar);
      && LastEocd(tail, |tail|) == Some(at) && at + EOCD_MIN_BYTES <= |tail| && eocd == |jar| - |tail| + at
      && ShortSpan(tail, at) == ShortSpan(jar, eocd)
  {
    FindsTrueEndIff(jar, eocd);
    var tail := Tail(jar);
    var base := |jar| - |tail|;
    at := eocd - base;
    assert tail == jar[base..base + |tail|];
    EndNumbers(jar, base, tail, at);
  }

  lemma LocatesWhatIsSaid(jar: seq<byte>, eocd: nat, span: Span)
    requires EndsAt(jar, eocd) && Unshadowed(jar, eocd) && Says(jar, eocd, span)
    ensures Located(jar) == Ok(span)
  {
    var at := SaidInTail(jar, eocd);
    if Saturated(ShortSpan(jar, eocd)) {
      var tail := Tail(jar);
      var base := |jar| - |tail|;
      assert tail == jar[base..base + |tail|];
      LocatorNumbers(jar, base, tail, at - 20);
      RecordNumbers(jar, Number(jar, eocd - 12, 8));
    }
  }

  /** The directory of an archive, read back: exactly the entries it was laid out from. */
  lemma DirectoryReadsBack(jar: seq<byte>, eocd: nat, span: Span, es: seq<Packed>, codec: Codec)
    requires EndsAt(jar, eocd) && Unshadowed(jar, eocd) && Says(jar, eocd, span)
    requires span.count == |es| && span.offset + span.size <= |jar|
    requires ReadsAs(jar[span.offset..span.offset + span.size], es, codec)
    ensures Central(jar, codec) == Ok(Named(es, codec, map[]))
  {
    LocatesWhatIsSaid(jar, eocd, span);
    var directory := jar[span.offset..span.offset + span.size];
    if span.size == 0 { assert directory == []; }
    assert ReadExactly(jar, span.offset, span.size) == Ok(directory);
  }

  ghost predicate DistinctlyNamed(es: seq<Packed>, codec: Codec)
  {
    forall i, j :: 0 <= i < j < |es| ==> codec.text(es[i].name) != codec.text(es[j].name)
  }

  /** Distinctly named entries all survive, each under its own name, and nothing else is there. */
  lemma {:induction false} NamedHas(es: seq<Packed>, codec: Codec, entries: Directory)
    requires DistinctlyNamed(es, codec)
    ensures var all := Named(es, codec, entries);
      && (forall e :: e in es ==> codec.text(e.name) in all && all[codec.text(e.name)] == e.entry)
      && (forall n :: n in all ==> n in entries || exists e :: e in es && n == codec.text(e.name))
      && (forall n :: n in entries && (forall e :: e in es ==> n != codec.text(e.name)) ==>
            n in all && all[n] == entries[n])
  {
    if es != [] {
      var name := codec.text(es[0].name);
      forall e | e in es[1..] ensures codec.text(e.name) != name {
        var i :| 0 <= i < |es[1..]| && es[1..][i] == e;
        assert es[i + 1] == e;
      }
      NamedHas(es[1..], codec, entries[name := es[0].entry]);
      assert es[0] in es;
      forall e | e in es ensures e == es[0] || e in es[1..] {}
    }
  }

  lemma EntryFound(es: seq<Packed>, codec: Codec, e: Packed)
    requires DistinctlyNamed(es, codec) && e in es
    ensures var all := Named(es, codec, map[]); codec.text(e.name) in all && all[codec.text(e.name)] == e.entry
  {
    NamedHas(es, codec, map[]);
  }

  lemma NameFound(es: seq<Packed>, codec: Codec, name: string)
    requires DistinctlyNamed(es, codec)
    ensures name in Named(es, codec, map[]) <==> exists e :: e in es && codec.text(e.name) == name
  {
    NamedHas(es, codec, map[]);
  }

  // ----- Laying an archive out -----

  /** Where part `i` starts. */
  function StartOf(parts: seq<seq<byte>>, i: nat): nat
    requires i <= |parts|
  {
    if i == 0 then 0 else StartOf(parts, i - 1) + |parts[i - 1]|
  }

  lemma {:induction false} ConcatSplit(parts: seq<seq<byte>>, i: nat)
    requires i <= |parts|
    ensures Concat(parts) == Concat(parts[..i]) + Concat(parts[i..]) && |Concat(parts[..i])| == StartOf(parts, i)
  {
    if i == 0 {
      assert parts[..0] == [] && parts[0..] == parts;
      assert [] + Concat(parts) == Concat(parts);
    } else {
      ConcatSplit(parts, i - 1);
      assert parts[i - 1..][1..] == parts[i..];
      ConcatSnoc(parts[..i - 1], parts[i - 1]);
      assert parts[..i - 1] + [parts[i - 1]] == parts[..i];
      Associates(Concat(parts[..i - 1]), parts[i - 1], Concat(parts[i..]));
    }
  }

  lemma PartOf(parts: seq<seq<byte>>, i: nat)
    requires i < |parts|
    ensures var at := StartOf(parts, i);
      at + |parts[i]| <= |Concat(parts)| && Concat(parts)[at..at + |parts[i]|] == parts[i]
  {
    ConcatSplit(parts, i);
    assert parts[i..][0] == parts[i];
    var before, rest := Concat(parts[..i]), Concat(parts[i..][1..]);
    Associates(before, parts[i], rest);
    PartAt(before, parts[i], rest);
  }

  /** A number written as one part reads back. */
  lemma NumberOf(parts: seq<seq<byte>>, i: nat, n: nat, width: nat)
    requires i < |parts| && parts[i] == ToLittleEndian(n, width) && n < Power(256, width)
    ensures var at := StartOf(parts, i);
      at + width <= |Concat(parts)| && Number(Concat(parts), at, width) == n
  {
    PartOf(parts, i);
    NumberAt(Concat(parts), StartOf(parts, i), n, width);
  }

  lemma NumberAt(s: seq<byte>, at: nat, n: nat, width: nat)
    requires at + width <= |s| && s[at..at + width] == ToLittleEndian(n, width) && n < Power(256, width)
    ensures Number(s, at, width) == n
  {
    LittleEndianRoundTrip(n, width);
  }

  lemma Powers()
    ensures Power(256, 2) == 0x1_0000 && Power(256, 4) == 0x1_0000_0000
    ensures Power(256, 8) == 0x1_0000_0000_0000_0000
  {
    assert Power(256, 1) == 256;
    assert Power(256, 3) == 0x100_0000;
    assert Power(256, 5) == 0x100_0000_0000;
    assert Power(256, 7) == 0x100_0000_0000_0000;
  }

  /** Every field fits where the format puts it. */
  predicate Fits(e: Packed)
  {
    && |e.name| < 0x1_0000 && |e.extra| < 0x1_0000 && |e.comment| < 0x1_0000
    && e.entry.compression < 0x1_0000 && e.entry.compressedSize < 0x1_0000_0000
    && e.entry.localHeaderOffset < 0x1_0000_0000
    && |e.versions| == 6 && |e.stamps| == 8 && |e.uncompressed| == 4 && |e.attributes| == 8
  }

  function HeaderParts(e: Packed): (parts: seq<seq<byte>>)
    ensures |parts| == 14
  {
    [ToLittleEndian(CENTRAL_ENTRY_SIGNATURE, 4), e.versions, ToLittleEndian(e.entry.compression, 2), e.stamps,
     ToLittleEndian(e.entry.compressedSize, 4), e.uncompressed, ToLittleEndian(|e.name|, 2),
     ToLittleEndian(|e.extra|, 2), ToLittleEndian(|e.comment|, 2), e.attributes,
     ToLittleEndian(e.entry.localHeaderOffset, 4), e.name, e.extra, e.comment]
  }

  lemma HeaderStarts(e: Packed)
    requires Fits(e)
    ensures var p := HeaderParts(e);
      && StartOf(p, 0) == 0 && StartOf(p, 2) == 10 && StartOf(p, 4) == 20 && StartOf(p, 6) == 28 && StartOf(p, 7) == 30
      && StartOf(p, 8) == 32 && StartOf(p, 10) == 42 && StartOf(p, 11) == 46 && StartOf(p, 14) == Length(e)
  {
    var p := HeaderParts(e);
    assert StartOf(p, 1) == 4;
    assert StartOf(p, 3) == 12;
    assert StartOf(p, 5) == 24;
    assert StartOf(p, 6) == 28 && StartOf(p, 7) == 30;
    assert StartOf(p, 8) == 32 && StartOf(p, 9) == 34;
    assert StartOf(p, 10) == 42 && StartOf(p, 11) == 46;
    assert StartOf(p, 12) == 46 + |e.name|;
    assert StartOf(p, 13) == 46 + |e.name| + |e.extra|;
  }

  lemma WrittenHeader(e: Packed)
    requires Fits(e)
    ensures HeaderOf(Concat(HeaderParts(e)), e)
  {
    var p := HeaderParts(e);
    Powers();
    HeaderStarts(e);
    ConcatSplit(p, 14);
    assert p[..14] == p && p[14..] == [];
    NumberOf(p, 0, CENTRAL_ENTRY_SIGNATURE, 4);
    NumberOf(p, 2, e.entry.compression, 2);
    NumberOf(p, 4, e.entry.compressedSize, 4);
    NumberOf(p, 6, |e.name|, 2);
    NumberOf(p, 7, |e.extra|, 2);
    NumberOf(p, 8, |e.comment|, 2);
    NumberOf(p, 10, e.entry.localHeaderOffset, 4);
    PartOf(p, 11);
  }

  function Headers(es: seq<Packed>): (hs: seq<seq<byte>>)
    ensures |hs| == |es| && forall i :: 0 <= i < |es| ==> hs[i] == Concat(HeaderParts(es[i]))
  {
    seq(|es|, i requires 0 <= i < |es| => Concat(HeaderParts(es[i])))
  }

  function WriteDirectory(es: seq<Packed>): seq<byte> { Concat(Headers(es)) }

  ghost predicate HeadersOf(hs: seq<seq<byte>>, es: seq<Packed>)
  {
    |hs| == |es| && forall i :: 0 <= i < |es| ==> HeaderOf(hs[i], es[i])
  }

  lemma HeaderIsFound(hs: seq<seq<byte>>, i: nat, e: Packed, codec: Codec)
    requires i < |hs| && HeaderOf(hs[i], e)
    ensures EntryReader(Concat(hs), codec)(StartOf(hs, i)) == Some((codec.text(e.name), e.entry, StartOf(hs, i + 1)))
  {
    PartOf(hs, i);
    HeaderReads(Concat(hs), StartOf(hs, i), hs[i], e, codec);
  }

  function Starts(hs: seq<seq<byte>>): (starts: seq<nat>)
    ensures |starts| == |hs| + 1 && forall i :: 0 <= i <= |hs| ==> starts[i] == StartOf(hs, i)
  {
    seq(|hs| + 1, i requires 0 <= i <= |hs| => StartOf(hs, i))
  }

  lemma HeadersAreListed(hs: seq<seq<byte>>, es: seq<Packed>, codec: Codec)
    requires HeadersOf(hs, es)
    ensures Lists(EntryReader(Concat(hs), codec), Starts(hs), es, codec)
  {
    forall i | 0 <= i < |es|
      ensures EntryReader(Concat(hs), codec)(Starts(hs)[i])
           == Some((codec.text(es[i].name), es[i].entry, Starts(hs)[i + 1]))
    {
      HeaderIsFound(hs, i, es[i], codec);
    }
  }

  lemma WrittenDirectory(es: seq<Packed>, codec: Codec)
    requires forall e :: e in es ==> Fits(e)
    ensures ReadsAs(WriteDirectory(es), es, codec)
  {
    var hs := Headers(es);
    forall i | 0 <= i < |es| ensures HeaderOf(hs[i], es[i]) {
      assert es[i] in es;
      WrittenHeader(es[i]);
    }
    HeadersAreListed(hs, es, codec);
    ListedIsRead(Concat(hs), Starts(hs), es, codec);
  }

  lemma ListedIsRead(directory: seq<byte>, starts: seq<nat>, es: seq<Packed>, codec: Codec)
    requires Lists(EntryReader(directory, codec), starts, es, codec) && starts[0] == 0
    ensures ReadsAs(directory, es, codec)
  {
    assert es[0..] == es;
    forall entries
      ensures Entries(EntryReader(directory, codec), 0, 0, |es|, entries) == Ok(Named(es, codec, entries))
    {
      EntriesRead(EntryReader(directory, codec), starts, 0, es, codec, entries);
    }
  }

  /** The end record; `disks` are numbers nobody here reads. */
  function EndParts(span: Span, disks: seq<byte>, comment: seq<byte>): (parts: seq<seq<byte>>)
  {
    [ToLittleEndian(EOCD_SIGNATURE, 4), disks, ToLittleEndian(span.count, 2), ToLittleEndian(span.size, 4),
     ToLittleEndian(span.offset, 4), ToLittleEndian(|comment|, 2), comment]
  }

  predicate EndRecord(end: seq<byte>, span: Span)
  {
    && EOCD_MIN_BYTES <= |end| <= EOCD_MAX_BYTES && Number(end, 0, 4) == EOCD_SIGNATURE
    && span == Span(Number(end, 10, 2), Number(end, 12, 4), Number(end, 16, 4))
  }

  predicate Zip64Record(record: seq<byte>, span: Span)
  {
    && |record| == 56 && Number(record, 0, 4) == ZIP64_EOCD_SIGNATURE
    && span == Span(Number(record, 32, 8), Number(record, 40, 8), Number(record, 48, 8))
  }

  predicate Locator(locator: seq<byte>, record: nat)
  {
    |locator| == 20 && Number(locator, 0, 4) == ZIP64_LOCATOR_SIGNATURE && Number(locator, 8, 8) == record
  }

  lemma WrittenEnd(span: Span, disks: seq<byte>, comment: seq<byte>)
    requires span.count < 0x1_0000 && span.size < 0x1_0000_0000 && span.offset < 0x1_0000_0000
    requires |disks| == 6 && |comment| <= 0xffff
    ensures var end := Concat(EndParts(span, disks, comment));
            |end| == EOCD_MIN_BYTES + |comment| && EndRecord(end, span)
  {
    var p := EndParts(span, disks, comment);
    Powers();
    assert StartOf(p, 1) == 4;
    assert StartOf(p, 2) == 10 && StartOf(p, 3) == 12;
    assert StartOf(p, 4) == 16 && StartOf(p, 5) == 20;
    assert StartOf(p, 6) == 22 && StartOf(p, 7) == 22 + |comment|;
    NumberOf(p, 0, EOCD_SIGNATURE, 4);
    NumberOf(p, 2, span.count, 2);
    NumberOf(p, 3, span.size, 4);
    NumberOf(p, 4, span.offset, 4);
    ConcatSplit(p, 7);
    assert p[..7] == p && p[7..] == [];
  }

  /** An end record, in the file it ends. */
  lemma EndWithin(jar: seq<byte>, eocd: nat, end: seq<byte>, span: Span)
    requires EndRecord(end, span) && eocd <= |jar| && jar[eocd..] == end
    ensures EndsAt(jar, eocd)
    ensures span == Span(Number(jar, eocd + 10, 2), Number(jar, eocd + 12, 4), Number(jar, eocd + 16, 4))
  {
    assert jar[eocd..eocd + |end|] == end;
    EndNumbers(jar, eocd, end, 0);
    NumberWithin(jar, eocd, end, 0, 4);
  }

  lemma PartAt<T>(a: seq<T>, b: seq<T>, c: seq<T>)
    ensures (a + b + c)[|a|..|a| + |b|] == b && (a + b)[|a|..] == b
  {
  }

  lemma ClassicIs(files: seq<byte>, directory: seq<byte>, gap: seq<byte>, end: seq<byte>, es: seq<Packed>, codec: Codec)
    requires ReadsAs(directory, es, codec) && |es| < 0xffff && |directory| < 0xffffffff && |files| < 0xffffffff
    requires EndRecord(end, Span(|es|, |directory|, |files|))
    requires Unshadowed(files + directory + gap + end, |files| + |directory| + |gap|)
    ensures Central(files + directory + gap + end, codec) == Ok(Named(es, codec, map[]))
  {
    var jar := files + directory + gap + end;
    var span := Span(|es|, |directory|, |files|);
    var eocd := |files| + |directory| + |gap|;
    PartAt(files + directory + gap, end, []);
    EndWithin(jar, eocd, end, span);
    PartAt(files, directory, gap + end);
    assert jar == files + directory + (gap + end);
    DirectoryReadsBack(jar, eocd, span, es, codec);
  }

  lemma Zip64Is(files: seq<byte>, directory: seq<byte>, gap: seq<byte>, record: seq<byte>, between: seq<byte>,
                locator: seq<byte>, end: seq<byte>, short: Span, es: seq<Packed>, codec: Codec)
    requires ReadsAs(directory, es, codec) && Zip64Record(record, Span(|es|, |directory|, |files|))
    requires Locator(locator, |files| + |directory| + |gap|)
    requires Saturated(short) && EndRecord(end, short) && |end| + 20 <= EOCD_MAX_BYTES
    requires Unshadowed(files + directory + gap + record + between + locator + end,
                        |files| + |directory| + |gap| + 56 + |between| + 20)
    ensures Central(files + directory + gap + record + between + locator + end, codec) == Ok(Named(es, codec, map[]))
  {
    var jar := files + directory + gap + record + between + locator + end;
    var span := Span(|es|, |directory|, |files|);
    var at := |files| + |directory| + |gap|;
    Zip64Slices(files, directory, gap, record, between, locator, end);
    Zip64Reads(jar, at + 56 + |between| + 20, at, span, end, short, es, codec);
  }

  lemma Zip64Reads(jar: seq<byte>, eocd: nat, at: nat, span: Span, end: seq<byte>, short: Span, es: seq<Packed>,
                   codec: Codec)
    requires at + 56 <= |jar| && 20 <= eocd <= |jar| && Unshadowed(jar, eocd)
    requires Saturated(short) && EndRecord(end, short) && |end| + 20 <= EOCD_MAX_BYTES && jar[eocd..] == end
    requires Zip64Record(jar[at..at + 56], span) && Locator(jar[eocd - 20..eocd], at)
    requires span.count == |es| && span.offset + span.size <= |jar|
    requires ReadsAs(jar[span.offset..span.offset + span.size], es, codec)
    ensures Central(jar, codec) == Ok(Named(es, codec, map[]))
  {
    Zip64At(jar, eocd, at, span, end, short);
    DirectoryReadsBack(jar, eocd, span, es, codec);
  }

  lemma Zip64Slices<T>(files: seq<T>, directory: seq<T>, gap: seq<T>, record: seq<T>, between: seq<T>,
                       locator: seq<T>, end: seq<T>)
    ensures var jar := files + directory + gap + record + between + locator + end;
      var at := |files| + |directory| + |gap|;
      var eocd := at + |record| + |between| + |locator|;
      && jar[eocd..] == end && jar[eocd - |locator|..eocd] == locator && jar[at..at + |record|] == record
      && jar[|files|..|files| + |directory|] == directory
  {
    var first := files + directory + gap;
    PartAt(first + record + between, locator, end);
    Associates(first + record, between, locator);
    Associates(first + record, between + locator, end);
    PartAt(first, record, between + locator + end);
    Associates(files + directory, gap, record);
    Associates(files + directory, gap + record, between + locator + end);
    PartAt(files, directory, gap + record + (between + locator + end));
  }

  lemma Zip64At(jar: seq<byte>, eocd: nat, at: nat, span: Span, end: seq<byte>, short: Span)
    requires at + 56 <= |jar| && 20 <= eocd <= |jar|
    requires Saturated(short) && EndRecord(end, short) && |end| + 20 <= EOCD_MAX_BYTES && jar[eocd..] == end
    requires Zip64Record(jar[at..at + 56], span) && Locator(jar[eocd - 20..eocd], at)
    ensures EndsAt(jar, eocd) && Says(jar, eocd, span)
  {
    EndWithin(jar, eocd, end, short);
    LocatorNumbers(jar, eocd - 20, jar[eocd - 20..eocd], 0);
    RecordNumbers(jar, at);
  }

  /** An archive: local files, the directory, anything, the end record. */
  function Classic(files: seq<byte>, es: seq<Packed>, gap: seq<byte>, disks: seq<byte>, comment: seq<byte>): seq<byte>
  {
    var directory := WriteDirectory(es);
    files + directory + gap + Concat(EndParts(Span(|es|, |directory|, |files|), disks, comment))
  }

  /**
   * Laying out any entries and reading the directory back gives those entries,
   * whatever the comment, as long as no end signature starts after the true one.
   */
  lemma ClassicReadsBack(files: seq<byte>, es: seq<Packed>, gap: seq<byte>, disks: seq<byte>, comment: seq<byte>,
                         codec: Codec)
    requires (forall e :: e in es ==> Fits(e)) && |es| < 0xffff
    requires |WriteDirectory(es)| < 0xffffffff && |files| < 0xffffffff && |disks| == 6 && |comment| <= 0xffff
    requires Unshadowed(Classic(files, es, gap, disks, comment), |files| + |WriteDirectory(es)| + |gap|)
    ensures Central(Classic(files, es, gap, disks, comment), codec) == Ok(Named(es, codec, map[]))
  {
    var directory := WriteDirectory(es);
    WrittenEnd(Span(|es|, |directory|, |files|), disks, comment);
    WrittenDirectory(es, codec);
    ClassicIs(files, directory, gap, Concat(EndParts(Span(|es|, |directory|, |files|), disks, comment)), es, codec);
  }

  function RecordParts(span: Span, unread: seq<byte>): (parts: seq<seq<byte>>)
  {
    [ToLittleEndian(ZIP64_EOCD_SIGNATURE, 4), unread, ToLittleEndian(span.count, 8), ToLittleEndian(span.size, 8),
     ToLittleEndian(span.offset, 8)]
  }

  function LocatorParts(record: nat, disk: seq<byte>): (parts: seq<seq<byte>>)
  {
    [ToLittleEndian(ZIP64_LOCATOR_SIGNATURE, 4), disk, ToLittleEndian(record, 8), disk]
  }

  lemma WrittenRecord(span: Span, unread: seq<byte>)
    requires span.count < Power(256, 8) && span.size < Power(256, 8) && span.offset < Power(256, 8) && |unread| == 28
    ensures Zip64Record(Concat(RecordParts(span, unread)), span)
  {
    var p := RecordParts(span, unread);
    Powers();
    assert StartOf(p, 1) == 4;
    assert StartOf(p, 2) == 32 && StartOf(p, 3) == 40;
    assert StartOf(p, 4) == 48 && StartOf(p, 5) == 56;
    NumberOf(p, 0, ZIP64_EOCD_SIGNATURE, 4);
    NumberOf(p, 2, span.count, 8);
    NumberOf(p, 3, span.size, 8);
    NumberOf(p, 4, span.offset, 8);
    ConcatSplit(p, 5);
    assert p[..5] == p && p[5..] == [];
  }

  lemma WrittenLocator(record: nat, disk: seq<byte>)
    requires record < Power(256, 8) && |disk| == 4
    ensures Locator(Concat(LocatorParts(record, disk)), record)
  {
    var p := LocatorParts(record, disk);
    Powers();
    assert StartOf(p, 1) == 4 && StartOf(p, 2) == 8;
    assert StartOf(p, 3) == 16 && StartOf(p, 4) == 20;
    NumberOf(p, 0, ZIP64_LOCATOR_SIGNATURE, 4);
    NumberOf(p, 2, record, 8);
    ConcatSplit(p, 4);
    assert p[..4] == p && p[4..] == [];
  }

  /** An end record some of whose fields are too small for their numbers; the rest say what they like. */
  predicate Overflows(short: Span)
  {
    Saturated(short) && short.count < 0x1_0000 && short.size < 0x1_0000_0000 && short.offset < 0x1_0000_0000
  }

  /**
   * A Zip64 archive: the count, the size or the offset of the end record is
   * saturated, and the locator just before it points at the record with all three.
   */
  function Zip64(files: seq<byte>, es: seq<Packed>, gap: seq<byte>, unread: seq<byte>, between: seq<byte>,
                 disk: seq<byte>, short: Span, disks: seq<byte>, comment: seq<byte>): seq<byte>
  {
    var directory := WriteDirectory(es);
    var span := Span(|es|, |directory|, |files|);
    files + directory + gap + Concat(RecordParts(span, unread)) + between
      + Concat(LocatorParts(|files| + |directory| + |gap|, disk)) + Concat(EndParts(short, disks, comment))
  }

  /** The same for Zip64 archives, however many entries, when the comment leaves the locator inside the tail. */
  lemma Zip64ReadsBack(files: seq<byte>, es: seq<Packed>, gap: seq<byte>, unread: seq<byte>, between: seq<byte>,
                       disk: seq<byte>, short: Span, disks: seq<byte>, comment: seq<byte>, codec: Codec)
    requires (forall e :: e in es ==> Fits(e)) && |es| < Power(256, 8) && Overflows(short)
    requires |files| + |WriteDirectory(es)| + |gap| < Power(256, 8)
    requires |unread| == 28 && |disk| == 4 && |disks| == 6 && |comment| <= 0xffff - 20
    requires Unshadowed(Zip64(files, es, gap, unread, between, disk, short, disks, comment),
                        |files| + |WriteDirectory(es)| + |gap| + 56 + |between| + 20)
    ensures Central(Zip64(files, es, gap, unread, between, disk, short, disks, comment), codec)
         == Ok(Named(es, codec, map[]))
  {
    var directory := WriteDirectory(es);
    var at := |files| + |directory| + |gap|;
    var record, locator := Concat(RecordParts(Span(|es|, |directory|, |files|), unread)),
        Concat(LocatorParts(at, disk));
    var end := Concat(EndParts(short, disks, comment));
    WrittenParts(Span(|es|, |directory|, |files|), at, unread, disk, short, disks, comment);
    WrittenDirectory(es, codec);
    var jar := Zip64(files, es, gap, unread, between, disk, short, disks, comment);
    assert jar == files + directory + gap + record + between + locator + end;
    Zip64Is(files, directory, gap, record, between, locator, end, short, es, codec);
  }

  lemma WrittenParts(span: Span, at: nat, unread: seq<byte>, disk: seq<byte>, short: Span, disks: seq<byte>,
                     comment: seq<byte>)
    requires span.count < Power(256, 8) && span.size < Power(256, 8) && span.offset < Power(256, 8)
    requires at < Power(256, 8) && Overflows(short)
    requires |unread| == 28 && |disk| == 4 && |disks| == 6 && |comment| <= 0xffff - 20
    ensures Zip64Record(Concat(RecordParts(span, unread)), span)
    ensures Locator(Concat(LocatorParts(at, disk)), at)
    ensures var end := Concat(EndParts(short, disks, comment)); EndRecord(end, short) && |end| + 20 <= EOCD_MAX_BYTES
  {
    WrittenRecord(span, unread);
    WrittenLocator(at, disk);
    WrittenEnd(short, disks, comment);
  }

  /** A locator the comment pushes out of the tail is not looked for: the archive is refused. */
  lemma FarLocatorIsRefused(jar: seq<byte>, eocd: nat)
    requires EndsAt(jar, eocd) && Unshadowed(jar, eocd) && |jar| > eocd - 20 + EOCD_MAX_BYTES
    requires Saturated(Span(Number(jar, eocd + 10, 2), Number(jar, eocd + 12, 4), Number(jar, eocd + 16, 4)))
    ensures Located(jar) == Err(NoZip64Locator)
  {
    FindsTrueEndIff(jar, eocd);
    var tail := Tail(jar);
    var base := |jar| - |tail|;
    assert tail == jar[base..base + |tail|];
    EndNumbers(jar, base, tail, eocd - base);
  }

  // ----- The whole reading -----

  /** The entry's local header and its data, stored or deflated, hold this text. */
  ghost predicate Holds(jar: seq<byte>, entry: CentralEntry, text: string, codec: Codec)
  {
    && entry.localHeaderOffset + 30 <= |jar| && entry.compressedSize <= MAX_MANIFEST_BYTES
    && var at := entry.localHeaderOffset + 30 + Number(jar, entry.localHeaderOffset + 26, 2)
                 + Number(jar, entry.localHeaderOffset + 28, 2);
       && at + entry.compressedSize <= |jar|
       && var data := jar[at..at + entry.compressedSize];
          || (entry.compression == 0 && codec.text(data) == text)
          || (entry.compression == 8 && codec.inflate(data).Some? && codec.text(codec.inflate(data).value) == text)
  }

  lemma HeldTextIsRead(jar: seq<byte>, entry: CentralEntry, text: string, codec: Codec)
    requires Holds(jar, entry, text, codec)
    ensures EntryText(jar, entry, codec) == Ok(text)
  {
    var at := entry.localHeaderOffset;
    var local := jar[at..at + 30];
    NumberWithin(jar, at, local, 26, 2);
    NumberWithin(jar, at, local, 28, 2);
    var data := at + 30 + Number(jar, at + 26, 2) + Number(jar, at + 28, 2);
    if entry.compressedSize == 0 { assert jar[data..data] == []; }
  }

  /** What a packager put in a jar: its entries, and the headers of the manifest among them. */
  datatype Contents = Contents(
    es: seq<Packed>, manifest: Packed, written: seq<Manifest.Header>, listed: Manifest.Header, classes: seq<string>,
    eol: string, sections: string)

  /**
   * Distinctly named entries, one of them a manifest stored in the jar with
   * well-formed headers, which list the simulation classes.
   */
  ghost predicate Packs(jar: seq<byte>, c: Contents, codec: Codec)
  {
    && DistinctlyNamed(c.es, codec) && c.manifest in c.es && codec.text(c.manifest.name) == MANIFEST
    && (forall h :: h in c.written ==> Manifest.WellFormed(h)) && Manifest.DistinctNames(c.written)
    && c.listed in c.written && Lower(Trim(c.listed.name)) == Manifest.GATLING_SIMULATIONS
    && c.eol in Manifest.TERMINATORS && Manifest.EndsSection(c.sections, c.eol)
    && Holds(jar, c.manifest.entry, Manifest.Terminated(Manifest.AllLines(c.written), c.eol) + c.sections, codec)
    && Manifest.Value(c.listed) == JoinWith(c.classes, ',') && Manifest.ClassNames(c.classes)
  }

  /** Whether the main class is there, and exactly the version and the simulation classes the packager wrote. */
  ghost predicate Tells(facts: Facts, c: Contents, codec: Codec)
  {
    && facts.simulations == c.classes
    && (forall h :: h in c.written && Lower(Trim(h.name)) == GATLING_VERSION ==>
          facts.gatlingVersion == Some(Manifest.ReadBack(h)))
    && (facts.gatlingVersion.Some? ==> exists h :: h in c.written && Lower(Trim(h.name)) == GATLING_VERSION)
    && (facts.carriesRuntime <==> exists e :: e in c.es && codec.text(e.name) == MAIN_CLASS)
  }

  /** Reading the facts of any archive whose directory reads back. */
  lemma FactsOfDirectory(jar: seq<byte>, c: Contents, codec: Codec)
    requires Central(jar, codec) == Ok(Named(c.es, codec, map[])) && Packs(jar, c, codec)
    ensures FactsIn(jar, codec).Ok? && Tells(FactsIn(jar, codec).value, c, codec)
  {
    EntryFound(c.es, codec, c.manifest);
    NameFound(c.es, codec, MAIN_CLASS);
    var text := Manifest.Terminated(Manifest.AllLines(c.written), c.eol) + c.sections;
    HeldTextIsRead(jar, c.manifest.entry, text, codec);
    Manifest.ParseWritten(c.written, c.eol, c.sections);
    Manifest.SimulationsRecovered(c.written, c.listed, c.classes, c.eol, c.sections);
  }

  /** A packager's jar, laid out plainly: its facts come back. */
  lemma FactsRecovered(files: seq<byte>, c: Contents, gap: seq<byte>, disks: seq<byte>, comment: seq<byte>,
                       codec: Codec)
    requires (forall e :: e in c.es ==> Fits(e)) && |c.es| < 0xffff
    requires |WriteDirectory(c.es)| < 0xffffffff && |files| < 0xffffffff && |disks| == 6 && |comment| <= 0xffff
    requires var jar := Classic(files, c.es, gap, disks, comment);
      Unshadowed(jar, |files| + |WriteDirectory(c.es)| + |gap|) && Packs(jar, c, codec)
    ensures var facts := FactsIn(Classic(files, c.es, gap, disks, comment), codec);
      facts.Ok? && Tells(facts.value, c, codec)
  {
    ClassicReadsBack(files, c.es, gap, disks, comment, codec);
    FactsOfDirectory(Classic(files, c.es, gap, disks, comment), c, codec);
  }

  /** And laid out with the Zip64 records. */
  lemma Zip64FactsRecovered(files: seq<byte>, c: Contents, gap: seq<byte>, unread: seq<byte>, between: seq<byte>,
                            disk: seq<byte>, short: Span, disks: seq<byte>, comment: seq<byte>, codec: Codec)
    requires (forall e :: e in c.es ==> Fits(e)) && |c.es| < Power(256, 8) && Overflows(short)
    requires |files| + |WriteDirectory(c.es)| + |gap| < Power(256, 8)
    requires |unread| == 28 && |disk| == 4 && |disks| == 6 && |comment| <= 0xffff - 20
    requires var jar := Zip64(files, c.es, gap, unread, between, disk, short, disks, comment);
      && Unshadowed(jar, |files| + |WriteDirectory(c.es)| + |gap| + 56 + |between| + 20)
      && Packs(jar, c, codec)
    ensures var facts := FactsIn(Zip64(files, c.es, gap, unread, between, disk, short, disks, comment), codec);
      facts.Ok? && Tells(facts.value, c, codec)
  {
    Zip64ReadsBack(files, c.es, gap, unread, between, disk, short, disks, comment, codec);
    FactsOfDirectory(Zip64(files, c.es, gap, unread, between, disk, short, disks, comment), c, codec);
  }
}
