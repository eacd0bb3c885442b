/**
 * One live run as its processes share it: the run row, the chunk objects, the
 * assembled bundle, and the simulation.log Gatling is still writing.
 *
 * The row operations are the guarded updates of
 * packages/persistence/src/repositories/run.ts; assembly is LiveChunkStore's
 * (packages/storage/src/live-chunks.ts).
 */
module LiveRun {
  import opened Bytes

  datatype Status = Running | Parsing | Complete | Failed | Incomplete

  /**
   * `recorded` is the log whose SHA-256 and size the row carries, None while it
   * holds the placeholders an open writes. `abandoned` is stream_abandoned_at.
   */
  datatype Row = Row(status: Status, cursor: nat, abandoned: bool, recorded: Option<seq<byte>>)

  predicate Terminal(s: Status) { s.Complete? || s.Failed? || s.Incomplete? }

  /** What the pipeline takes for an end. */
  predicate Decided(s: Status) { s.Complete? || s.Failed? }

  /** Compare-and-set on status and cursor. */
  function AdvanceOffset(row: Row, from: nat, to: nat): (r: (Row, bool))
  {
    if row.status.Running? && row.cursor == from then (row.(cursor := to), true) else (row, false)
  }

  /** Compare-and-set off `running`; stamps the abandoned mark in the same statement. */
  function ClaimForClose(row: Row, abandoned: bool): (r: (Row, bool))
  {
    if row.status.Running? then (row.(status := Parsing, abandoned := abandoned || row.abandoned), true)
    else (row, false)
  }

  function ReleaseClose(row: Row): Row
  {
    if row.status.Parsing? then row.(status := Running) else row
  }

  function MarkIncomplete(row: Row): Row
  {
    if Terminal(row.status) then row else row.(status := Incomplete)
  }

  function FinalizeLive(row: Row, log: seq<byte>): Row
  {
    if row.status.Parsing? then row.(recorded := Some(log)) else row
  }

  // ----- Chunks -----

  type Chunks = map<nat, seq<byte>>

  /**
   * Every chunk in key order, from `at`; None where they leave a gap. A chunk's
   * key is the offset it starts at, so the next key has to be where it ends.
   */
  function Assemble(chunks: Chunks, at: nat): (log: Option<seq<byte>>)
    decreases |chunks|
  {
    if chunks == map[] then Some([])
    else if at !in chunks then None
    else
      assert |chunks - {at}| < |chunks| by { RemoveShrinks(chunks, at); }
      match Assemble(chunks - {at}, at + |chunks[at]|)
      case None => None
      case Some(rest) => Some(chunks[at] + rest)
  }

  lemma RemoveShrinks(chunks: Chunks, k: nat)
    requires k in chunks
    ensures |chunks - {k}| < |chunks|
  {
    assert (chunks - {k}).Keys == chunks.Keys - {k};
    assert |(chunks - {k}).Keys| == |chunks - {k}| && |chunks.Keys| == |chunks|;
  }

  /** A chunk that holds what the file has at its key. */
  predicate Copies(chunk: seq<byte>, file: seq<byte>, k: nat)
  {
    0 < |chunk| && k + |chunk| <= |file| && chunk == file[k..k + |chunk|]
  }

  /**
   * From `at`, the chunks tile the file up to the cursor, with at most one more
   * chunk: at the cursor, put but not yet advanced past.
   */
  ghost predicate Laid(chunks: Chunks, file: seq<byte>, at: nat, cursor: nat)
    decreases cursor - at
  {
    && at <= cursor <= |file|
    && if at == cursor then chunks.Keys <= {cursor} && (cursor in chunks ==> Copies(chunks[cursor], file, cursor))
       else at in chunks && Copies(chunks[at], file, at) && Laid(chunks - {at}, file, at + |chunks[at]|, cursor)
  }

  /** Where laid-out chunks end: at the cursor, or past the one chunk put there. */
  function Reach(chunks: Chunks, cursor: nat): nat
  {
    if cursor in chunks then cursor + |chunks[cursor]| else cursor
  }

  /** Assembling laid-out chunks gives back the file, byte for byte, to where they end. */
  lemma {:induction false} AssembleLaid(chunks: Chunks, file: seq<byte>, at: nat, cursor: nat)
    requires Laid(chunks, file, at, cursor)
    ensures at <= cursor <= Reach(chunks, cursor) <= |file|
    ensures Assemble(chunks, at) == Some(file[at..Reach(chunks, cursor)])
    decreases cursor - at
  {
    if at == cursor {
      if cursor in chunks {
        assert chunks - {at} == map[];
        assert chunks[cursor] + [] == chunks[cursor];
      } else {
        assert chunks == map[];
      }
    } else {
      var next := at + |chunks[at]|;
      AssembleLaid(chunks - {at}, file, next, cursor);
      assert Reach(chunks - {at}, cursor) == Reach(chunks, cursor);
      assert file[at..next] + file[next..Reach(chunks, cursor)] == file[at..Reach(chunks, cursor)];
    }
  }

  /** Putting at the cursor keeps the layout, whatever was there. */
  lemma {:induction false} PutKeepsLaid(chunks: Chunks, file: seq<byte>, at: nat, cursor: nat, chunk: seq<byte>)
    requires Laid(chunks, file, at, cursor) && Copies(chunk, file, cursor)
    ensures Laid(chunks[cursor := chunk], file, at, cursor)
    decreases cursor - at
  {
    if at < cursor {
      PutKeepsLaid(chunks - {at}, file, at + |chunks[at]|, cursor, chunk);
      assert chunks[cursor := chunk] - {at} == (chunks - {at})[cursor := chunk];
    }
  }

  /** Moving the cursor past the chunk put there keeps the layout. */
  lemma {:induction false} AdvanceKeepsLaid(chunks: Chunks, file: seq<byte>, at: nat, cursor: nat)
    requires Laid(chunks, file, at, cursor) && cursor in chunks
    ensures Laid(chunks, file, at, cursor + |chunks[cursor]|)
    decreases cursor - at
  {
    if at == cursor {
      assert (chunks - {at}).Keys == {};
    } else {
      AdvanceKeepsLaid(chunks - {at}, file, at + |chunks[at]|, cursor);
    }
  }

  lemma {:induction false} GrowthKeepsLaid(chunks: Chunks, file: seq<byte>, more: seq<byte>, at: nat, cursor: nat)
    requires Laid(chunks, file, at, cursor)
    ensures Laid(chunks, file + more, at, cursor)
    decreases cursor - at
  {
    var grown := file + more;
    assert forall i, j :: 0 <= i <= j <= |file| ==> grown[i..j] == file[i..j];
    if at < cursor {
      GrowthKeepsLaid(chunks - {at}, file, more, at + |chunks[at]|, cursor);
    }
  }

  // ----- The shared state -----

  datatype Live = Live(row: Row, chunks: Chunks, bundle: Option<seq<byte>>, file: seq<byte>)

  /**
   * What the stored bytes are: until a bundle is written, the chunks tile the
   * file to the cursor; a bundle, once written, is a prefix of the file, and
   * any log recorded on the row is too.
   */
  ghost predicate Sound(s: Live)
  {
    && s.row.cursor <= |s.file|
    && (s.bundle.None? ==> Laid(s.chunks, s.file, 0, s.row.cursor))
    && (s.bundle.Some? ==> s.bundle.value <= s.file)
    && (s.row.recorded.Some? ==> s.row.recorded.value <= s.file)
  }

  /** A run just opened, its log not yet written. */
  const OPENED := Live(Row(Running, 0, false, None), map[], None, [])

  /**
   * `LiveChunkStore.finalize`: an existing bundle is left alone; otherwise the
   * chunks are assembled into it. Chunks are then deleted, best effort. A call
   * that fails may have written the bundle all the same.
   */
  ghost predicate Finalizes(s: Live, t: Live, ok: bool)
  {
    var assembled := if s.bundle.Some? || s.chunks == map[] then s.bundle else Assemble(s.chunks, 0);
    && t.row == s.row && t.file == s.file
    && if ok then
         t.bundle == assembled && t.chunks.Keys <= s.chunks.Keys
         && (forall k :: k in t.chunks ==> t.chunks[k] == s.chunks[k])
         && (assembled.Some? || s.chunks == map[])
       else t.chunks == s.chunks && (t.bundle == s.bundle || t.bundle == assembled)
  }

  lemma FinalizeIsSound(s: Live, t: Live, ok: bool)
    requires Sound(s) && Finalizes(s, t, ok)
    ensures Sound(t)
    ensures s.bundle.None? && t.bundle.Some? ==> s.row.cursor <= |t.bundle.value|
    ensures s.bundle.Some? ==> t.bundle == s.bundle
  {
    if s.bundle.None? {
      AssembleLaid(s.chunks, s.file, 0, s.row.cursor);
      if s.chunks == map[] { assert t.chunks == map[]; }
    }
  }

  lemma GrowthIsSound(s: Live, more: seq<byte>)
    requires Sound(s)
    ensures Sound(s.(file := s.file + more))
  {
    if s.bundle.None? { GrowthKeepsLaid(s.chunks, s.file, more, 0, s.row.cursor); }
  }
}
