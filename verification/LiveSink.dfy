/**
 * Streaming: `RunnerLiveSink`'s open, appendAt and append
 * (apps/runner/src/live-sink.ts), and the tailer that feeds them
 * (apps/runner/src/log-tailer.ts).
 *
 * Everything another process may do between two awaits is `Interfere`; every
 * call to the stores may fail, and a failed put may have landed all the same.
 */
module LiveSink {
  import opened Bytes
  import opened Closing
  import opened LiveRun
  import opened StreamingDecoder

  /**
   * What the rest of the system may do to a run while its one sink waits: close
   * it, assemble it, delete its chunks once a bundle is written; Gatling may
   * write more. It never moves the cursor.
   */
  ghost predicate OthersMayDo(s: Live, t: Live)
  {
    && t.row.cursor == s.row.cursor
    && s.file <= t.file
    && (t.bundle.None? ==> s.bundle.None? && t.chunks == s.chunks)
    && (Sound(s) ==> Sound(t))
  }

  class Backend {
    var live: Live
    /** Whether the queue holds a parsing job for the run. */
    var queued: bool
    /** Whether a pipeline worker has taken the run. */
    ghost var taken: bool

    constructor (live: Live)
      ensures this.live == live && !queued && !taken
    {
      this.live, queued, taken := live, false, false;
    }

    method Interfere()
      modifies `live
      ensures OthersMayDo(old(live), live)
    {
    }

    /** The rest of the system, while this process holds the closing claim. A sweep may queue the run. */
    method Held()
      modifies `live, `queued, `taken
      ensures WhileHeld(old(live), live, taken)
      ensures (old(queued) ==> queued) && (old(taken) ==> taken)
    {
    }
  }

  datatype AbandonedOutcome = Kept | Empty | NotClaimed

  /** A put of a chunk, which may land though it fails, and the move of the cursor past it. */
  datatype PutFate = PutFate(stored: bool, landed: bool, moved: bool)

  datatype Outcome = Fine | NotOpen | Gap | TooLarge | Rejected | StoreFailed | ReadFailed

  class RunnerLiveSink {
    const backend: Backend
    const maxLogBytes: nat
    /** Whether the run's id is known; `isOpen` once its cursor has been read too. */
    var hasRun: bool
    var isOpen: bool
    var offset: nat
    var attemptBytes: nat
    var closed: bool
    /** The cursor this attempt was opened at, and the log this sink itself recorded. */
    ghost var from: nat
    ghost var kept: Option<seq<byte>>
    /** Whether the run has refused a chunk. */
    ghost var rejected: bool

    ghost predicate Valid()
      reads this, backend
    {
      && Sound(backend.live)
      && (isOpen ==>
            && offset == backend.live.row.cursor && from <= offset && attemptBytes == offset - from
            && (offset <= maxLogBytes || offset == from))
      && (!isOpen ==> attemptBytes == 0)
      && (isOpen ==> hasRun)
      && (kept.Some? ==> closed)
    }

    constructor (backend: Backend, maxLogBytes: nat)
      requires Sound(backend.live)
      ensures this.backend == backend && this.maxLogBytes == maxLogBytes && Valid()
      ensures !hasRun && !isOpen && !closed && kept == None && !rejected
    {
      this.backend, this.maxLogBytes := backend, maxLogBytes;
      hasRun, isOpen, offset, attemptBytes, closed, from, kept := false, false, 0, 0, false, 0, None;
      rejected := false;
    }

    /**
     * Finds or creates the run, then starts from the cursor its row holds. A
     * failure between the two leaves a sink that can only be aborted. `known`
     * and `answered` are whether the two calls are answered.
     */
    method Open(known: bool, answered: bool) returns (out: Outcome)
      requires Valid() && !hasRun
      modifies this, backend
      ensures closed == old(closed) && kept == old(kept) && rejected == old(rejected)
      ensures Valid() && old(backend.live.file) <= backend.live.file
      ensures backend.live.row.cursor == old(backend.live.row.cursor)
      ensures hasRun == known && (out.Fine? <==> known && answered)
      ensures out.Fine? ==> isOpen && attemptBytes == 0 && offset == from
      ensures !out.Fine? ==> !isOpen
    {
      backend.Interfere();
      hasRun := known;
      if !known || !answered { return ReadFailed; }
      offset, from := backend.live.row.cursor, backend.live.row.cursor;
      isOpen := true;
      out := Fine;
    }

    /**
     * Puts a chunk at the cursor, then moves the cursor past it. Either both
     * happened or the cursor stayed; what is stored stays sound throughout.
     * With both calls answered, only a run no longer at `running` refuses it.
     */
    method Append(bytes: seq<byte>, fate: PutFate) returns (out: Outcome)
      requires Valid() && (hasRun ==> isOpen)
      requires isOpen && bytes != [] ==> Copies(bytes, backend.live.file, offset)
      modifies `offset, `attemptBytes, `rejected, backend
      ensures Valid() && old(backend.live.file) <= backend.live.file
      ensures out.Fine? ==> offset == old(offset) + |bytes| && attemptBytes == old(attemptBytes) + |bytes|
      ensures !out.Fine? ==> offset == old(offset) && attemptBytes == old(attemptBytes)
      ensures old(isOpen) ==> backend.live.row.cursor == offset
      ensures bytes == [] ==> out == Fine && backend.live == old(backend.live)
      ensures bytes != [] ==>
                (out == NotOpen <==> !old(isOpen))
                && (out == TooLarge <==> old(isOpen) && old(offset) + |bytes| > maxLogBytes)
      ensures out in {Fine, NotOpen, TooLarge, StoreFailed, Rejected}
      ensures out == Rejected ==> !backend.live.row.status.Running?
      ensures rejected == (old(rejected) || out == Rejected)
      ensures bytes != [] && old(isOpen) && old(offset) + |bytes| <= maxLogBytes ==>
                && (out == StoreFailed <==> !fate.stored || !fate.moved)
                && (out.Fine? ==> backend.live.row.status.Running?)
    {
      if |bytes| == 0 { return Fine; }
      if !hasRun { return NotOpen; }
      if offset + |bytes| > maxLogBytes { return TooLarge; }

      if fate.stored || fate.landed {
        backend.live := backend.live.(chunks := backend.live.chunks[offset := bytes]);
        PutIsSound(old(backend.live), bytes);
      }
      if !fate.stored { return StoreFailed; }
      out := MoveCursor(bytes, fate.moved);
    }

    /** The second half of an append: compare-and-set of the cursor past the chunk put at it. */
    method MoveCursor(bytes: seq<byte>, answered: bool) returns (out: Outcome)
      requires Valid() && isOpen && offset + |bytes| <= maxLogBytes && Copies(bytes, backend.live.file, offset)
      requires backend.live.bundle.None? ==> offset in backend.live.chunks && backend.live.chunks[offset] == bytes
      modifies `offset, `attemptBytes, `rejected, backend
      ensures Valid() && old(backend.live.file) <= backend.live.file && backend.live.row.cursor == offset
      ensures out in {Fine, StoreFailed, Rejected}
      ensures out.Fine? ==> offset == old(offset) + |bytes| && attemptBytes == old(attemptBytes) + |bytes|
      ensures !out.Fine? ==> offset == old(offset) && attemptBytes == old(attemptBytes)
      ensures out == StoreFailed <==> !answered
      ensures rejected == (old(rejected) || out == Rejected)
      ensures out == Rejected ==> !backend.live.row.status.Running?
      ensures out == Fine ==> backend.live.row.status.Running?
    {
      backend.Interfere();
      if !answered { return StoreFailed; }
      var (row, advanced) := AdvanceOffset(backend.live.row, offset, offset + |bytes|);
      if !advanced {
        rejected := true;
        return Rejected;
      }
      AdvanceIsSound(backend.live, bytes);
      backend.live := backend.live.(row := row);
      offset, attemptBytes := offset + |bytes|, attemptBytes + |bytes|;
      out := Fine;
    }

    /**
     * Bytes read at `fileOffset`: what is already written is trimmed off, the
     * rest is appended, and a jump past the cursor is refused.
     */
    method AppendAt(fileOffset: nat, bytes: seq<byte>, fate: PutFate) returns (out: Outcome)
      requires Valid() && isOpen
      requires fileOffset + |bytes| <= |backend.live.file|
      requires bytes == backend.live.file[fileOffset..fileOffset + |bytes|]
      modifies `offset, `attemptBytes, `rejected, backend
      ensures Valid() && old(backend.live.file) <= backend.live.file
      ensures old(offset) <= offset == backend.live.row.cursor
      ensures out == Gap <==> old(offset) < fileOffset
      ensures out.Fine? ==> offset == if fileOffset + |bytes| <= old(offset) then old(offset) else fileOffset + |bytes|
      ensures !out.Fine? ==> offset == old(offset)
      ensures rejected == (old(rejected) || out == Rejected)
      ensures fileOffset <= old(offset) && fate.stored && fate.moved && fileOffset + |bytes| <= maxLogBytes ==>
                out.Fine? || (out == Rejected && !backend.live.row.status.Running?)
    {
      var at, rest := fileOffset, bytes;
      if at < offset {
        var alreadyWritten := offset - at;
        if alreadyWritten >= |rest| { return Fine; }
        rest := rest[alreadyWritten..];
        at := offset;
        assert rest == backend.live.file[at..at + |rest|];
      }
      if at != offset { return Gap; }
      out := Append(rest, fate);
    }

    // ----- Closing -----

    /** Three tries at the queue. */
    method EnqueueForParsing(refusals: nat) returns (ok: bool, tries: nat)
      modifies backend`queued
      ensures ok <==> refusals < 3
      ensures tries == if ok then refusals + 1 else 3
      ensures backend.queued == (old(backend.queued) || ok)
    {
      tries := 0;
      while tries < 3
        invariant tries <= 3 && tries <= refusals && backend.queued == old(backend.queued)
      {
        tries := tries + 1;
        if tries > refusals {
          backend.queued := true;
          return true, tries;
        }
      }
      ok := false;
    }

    /** The claim every closing starts with. It throws when the call fails, whether or not it landed. */
    method ClaimRun(abandoned: bool, calls: Calls) returns (threw: bool, claimed: bool)
      requires Valid()
      modifies backend`live
      ensures Valid() && threw == !calls.claim
      ensures threw ==> ClaimThrew(old(backend.live), backend.live, abandoned, calls.claimLanded)
      ensures !threw ==>
                && (claimed <==> old(backend.live).row.status.Running?)
                && backend.live == old(backend.live).(row := ClaimForClose(old(backend.live).row, abandoned).0)
    {
      var (row, moved) := ClaimForClose(backend.live.row, abandoned);
      threw, claimed := !calls.claim, moved;
      if calls.claim || calls.claimLanded { backend.live := backend.live.(row := row); }
    }

    /** Marks the run incomplete, unless it is at an end already. */
    method Mark()
      requires Valid()
      modifies backend`live
      ensures Valid() && backend.live == old(backend.live).(row := MarkIncomplete(old(backend.live).row))
    {
      backend.live := backend.live.(row := MarkIncomplete(backend.live.row));
    }

    /** Other processes' turn, while this sink holds the claim. */
    method Await()
      requires Valid()
      modifies backend
      ensures Valid() && WhileHeld(old(backend.live), backend.live, backend.taken)
      ensures (old(backend.queued) ==> backend.queued) && (old(backend.taken) ==> backend.taken)
    {
      ghost var s := backend.live;
      backend.Held();
      HeldIsSound(s, backend.live, backend.taken);
    }

    /**
     * A stream that finished; see `HealthyEnd`. It throws, with nothing undone,
     * when the claim itself throws.
     */
    method Close(calls: Calls) returns (threw: bool)
      requires Valid() && isOpen
      modifies `closed, `kept, backend
      ensures Valid() && (old(backend.taken) ==> backend.taken) && (old(backend.queued) ==> backend.queued)
      ensures old(closed) ==> !threw && closed && kept == old(kept) && backend.live == old(backend.live)
      ensures !old(closed) && !calls.claim ==>
                threw && !closed && kept == None
                    && ClaimThrew(old(backend.live), backend.live, false, calls.claimLanded)
      ensures !old(closed) && calls.claim && !old(backend.live).row.status.Running? ==>
                !threw && closed && kept == None && backend.live == old(backend.live)
      ensures !old(closed) && calls.claim && old(backend.live).row.status.Running? ==>
                && HealthyEnd(old(backend.live), backend.live, threw, closed, kept, calls, backend.taken)
                && (StoresLog(old(backend.live), calls) && !threw ==> backend.queued)
      ensures closed && !old(closed) ==> !backend.live.row.status.Running?
    {
      if closed { return false; }
      var claimed;
      threw, claimed := ClaimRun(false, calls);
      if threw { return; }
      if !claimed { closed := true; return false; }
      threw := StoreOrRelease(calls);
    }

    /** The claimed part of `Close`. */
    method StoreOrRelease(calls: Calls) returns (threw: bool)
      requires Valid() && !closed && backend.live.row.status.Parsing?
      modifies `closed, `kept, backend
      ensures Valid() && (old(backend.taken) ==> backend.taken) && (old(backend.queued) ==> backend.queued)
      ensures HealthyEnd(old(backend.live), backend.live, threw, closed, kept, calls, backend.taken)
      ensures StoresLog(old(backend.live), calls) && !threw ==> backend.queued
      ensures closed ==> !backend.live.row.status.Running?
    {
      if calls.read && backend.live.row.cursor > 0 {
        var stored := StoreLog(calls);
        if stored {
          var enqueued, tries := EnqueueForParsing(calls.refusals);
          return !enqueued;
        }
      }
      threw := MarkOrRelease(calls);
    }

    /** What is left of a close that has recorded nothing. */
    method MarkOrRelease(calls: Calls) returns (threw: bool)
      requires Valid() && !closed && !backend.live.row.status.Running?
      modifies `closed, backend
      ensures Valid() && (old(backend.taken) ==> backend.taken) && (old(backend.queued) ==> backend.queued)
      ensures closed == !threw && (threw <==> !(calls.read && old(backend.live.row.cursor) == 0 && calls.marks == 0))
      ensures var s, t := old(backend.live), backend.live;
        && s.file <= t.file && t.row == s.row.(status := t.row.status)
        && (closed ==> !t.row.status.Running?)
        && (!backend.taken && s.row.status.Parsing? ==>
              t.row.status == if !threw then Incomplete else if calls.release then Running else Parsing)
    {
      Await();
      if calls.read && backend.live.row.cursor == 0 && calls.marks == 0 {
        Mark();
        closed := true;
        return false;
      }
      if calls.release { backend.live := backend.live.(row := ReleaseClose(backend.live.row)); }
      threw := true;
    }

    /** The claimed part of `Close`: assembles, reads back, records. */
    method StoreLog(calls: Calls) returns (stored: bool)
      requires Valid() && !closed && !backend.live.row.status.Running?
      modifies `closed, `kept, backend
      ensures Valid() && (old(backend.taken) ==> backend.taken) && (old(backend.queued) ==> backend.queued)
      ensures stored <==> calls.finalize && calls.fetch && calls.record && Assembled(old(backend.live)).Some?
      ensures closed == stored && kept == (if stored then Assembled(old(backend.live)) else old(kept))
      ensures stored ==> backend.live.bundle == kept
      ensures RecordsOnRow(old(backend.live), backend.live, stored, kept, backend.taken)
    {
      ghost var s := backend.live;
      var (live, finalized) := FinalizeChunks(backend.live, calls);
      FinalizeIsSound(backend.live, live, finalized);
      backend.live := live;
      Await();
      if !finalized || !calls.fetch || live.bundle.None? || !calls.record { return false; }
      backend.live := backend.live.(row := FinalizeLive(backend.live.row, live.bundle.value));
      closed, kept := true, live.bundle;
      stored := true;
    }

    /**
     * A run that keeps nothing. A mark that fails leaves the claim behind, and
     * so does a claim whose answer is lost.
     */
    method AbortIncomplete(calls: Calls) returns (threw: bool)
      requires Valid() && hasRun
      modifies `closed, backend
      ensures Valid() && (old(backend.taken) ==> backend.taken) && (old(backend.queued) ==> backend.queued)
      ensures closed == !threw
      ensures old(closed) ==> !threw && backend.live == old(backend.live)
      ensures !old(closed) && !calls.claim ==>
                threw && ClaimThrew(old(backend.live), backend.live, false, calls.claimLanded)
      ensures !old(closed) && calls.claim && !old(backend.live).row.status.Running? ==>
                !threw && backend.live == old(backend.live)
      ensures !old(closed) && calls.claim && old(backend.live).row.status.Running? ==>
        var s, t := old(backend.live), backend.live;
        && threw == (calls.marks > 0)
        && s.file <= t.file && t == s.(file := t.file, row := s.row.(status := t.row.status)) && !t.row.status.Running?
        && (!backend.taken ==> t.row.status == if threw then Parsing else Incomplete)
    {
      if closed { return false; }
      var claimed;
      threw, claimed := ClaimRun(false, calls);
      if threw { return; }
      if !claimed { closed := true; return false; }
      Await();
      if calls.marks > 0 { return true; }
      Mark();
      closed := true;
      threw := false;
    }

    /**
     * A run whose Gatling died part-way; see `RunnerEnd`. It throws only when
     * the claim does, and then the sink is not closed.
     */
    method CloseAbandoned(calls: Calls) returns (threw: bool, outcome: AbandonedOutcome)
      requires Valid() && isOpen
      modifies `closed, `kept, backend
      ensures Valid() && (old(backend.taken) ==> backend.taken) && (old(backend.queued) ==> backend.queued)
      ensures closed == !threw && (threw <==> !old(closed) && !calls.claim)
      ensures threw ==>
                kept == None && ClaimThrew(old(backend.live), backend.live, true, calls.claimLanded)
      ensures !threw ==>
                && kept == (if outcome == Kept then WholeLog(old(backend.live), calls) else old(kept))
                && (outcome == NotClaimed <==> old(closed) || !old(backend.live).row.status.Running?)
      ensures !threw && outcome == NotClaimed ==> backend.live == old(backend.live)
      ensures !threw && outcome != NotClaimed ==>
                && RunnerEnd(old(backend.live), backend.live, outcome == Kept, calls, maxLogBytes, backend.taken)
                && (outcome == Kept && calls.refusals < 3 ==> backend.queued)
    {
      threw, outcome := false, NotClaimed;
      if closed { return; }
      var claimed;
      threw, claimed := ClaimRun(true, calls);
      if threw { return; }
      closed := true;
      if !claimed { return; }
      outcome := KeepOrMark(calls);
    }

    /** The claimed part of `CloseAbandoned`. */
    method KeepOrMark(calls: Calls) returns (outcome: AbandonedOutcome)
      requires Valid() && closed && backend.live.row.status.Parsing? && backend.live.row.abandoned
      modifies `kept, backend
      ensures Valid() && (old(backend.taken) ==> backend.taken) && (old(backend.queued) ==> backend.queued)
      ensures outcome != NotClaimed
      ensures kept == (if outcome == Kept then WholeLog(old(backend.live), calls) else old(kept))
      ensures RunnerEnd(old(backend.live), backend.live, outcome == Kept, calls, maxLogBytes, backend.taken)
      ensures outcome == Kept && calls.refusals < 3 ==> backend.queued
    {
      ghost var s := backend.live;
      var marksLeft := calls.marks;
      if calls.read {
        var stored, nothingWhole := false, true;
        if backend.live.row.cursor > 0 { stored, nothingWhole := StoreWholeLog(calls); }
        if stored {
          var enqueued, tries := EnqueueForParsing(calls.refusals);
          return Kept;
        }
        if nothingWhole {
          var marked := TryMark(s, marksLeft);
          if marked {
            UnkeptIsEnd(s, backend.live, calls, maxLogBytes, true, backend.taken);
            return Empty;
          }
          marksLeft := marksLeft - 1;
        }
      }
      var marked := TryMark(s, marksLeft);
      UnkeptIsEnd(s, backend.live, calls, maxLogBytes, marked, backend.taken);
      outcome := Empty;
    }

    /** One call to mark the run incomplete; it fails while any failures are left. */
    method TryMark(ghost s: Live, failures: nat) returns (marked: bool)
      requires Valid() && Unkept(s, backend.live, false, backend.taken)
      modifies backend
      ensures Valid() && (old(backend.taken) ==> backend.taken) && (old(backend.queued) ==> backend.queued)
      ensures marked == (failures == 0) && Unkept(s, backend.live, marked, backend.taken)
    {
      ghost var t, was := backend.live, backend.taken;
      Await();
      UnkeptAwaits(s, t, backend.live, was, backend.taken);
      marked := failures == 0;
      if marked { Mark(); }
    }

    /** Assembles, cuts to whole records, stores, records. */
    method StoreWholeLog(calls: Calls) returns (stored: bool, nothingWhole: bool)
      requires Valid() && closed && !backend.live.row.status.Running?
      modifies `kept, backend
      ensures Valid() && (old(backend.taken) ==> backend.taken) && (old(backend.queued) ==> backend.queued)
      ensures stored <==> Keeps(old(backend.live), calls, maxLogBytes)
      ensures nothingWhole <==> NothingWhole(old(backend.live), calls)
      ensures kept == (if stored then WholeLog(old(backend.live), calls) else old(kept))
      ensures stored ==> backend.live.bundle == kept
      ensures RecordsOnRow(old(backend.live), backend.live, stored, kept, backend.taken)
    {
      var whole := FetchWholeLog(calls);
      if whole.None? { return false, false; }
      if whole == Some([]) { return false, true; }
      stored := StoreAndRecord(whole.value, calls);
      nothingWhole := false;
    }

    method StoreAndRecord(whole: seq<byte>, calls: Calls) returns (stored: bool)
      requires Valid() && closed && !backend.live.row.status.Running?
      requires backend.live.bundle.Some? && whole <= backend.live.bundle.value
      modifies `kept, backend
      ensures Valid() && (old(backend.taken) ==> backend.taken) && (old(backend.queued) ==> backend.queued)
      ensures stored <==> |whole| <= maxLogBytes && calls.store && calls.record
      ensures kept == (if stored then Some(whole) else old(kept))
      ensures stored ==> backend.live.bundle == kept
      ensures RecordsOnRow(old(backend.live), backend.live, stored, kept, backend.taken)
    {
      Await();
      if |whole| > maxLogBytes || (!calls.store && !calls.storeLanded) { return false; }
      TruncationIsSound(backend.live, whole);
      backend.live := backend.live.(bundle := Some(whole));
      if !calls.store || !calls.record { return false; }
      backend.live := backend.live.(row := FinalizeLive(backend.live.row, whole));
      kept := Some(whole);
      stored := true;
    }

    method FetchWholeLog(calls: Calls) returns (whole: Option<seq<byte>>)
      requires Sound(backend.live)
      modifies backend`live
      ensures Sound(backend.live)
      ensures backend.live.row == old(backend.live.row) && backend.live.file == old(backend.live.file)
      ensures whole == if calls.finalize && calls.fetch then WholeLog(old(backend.live), calls) else None
      ensures whole.Some? ==> backend.live.bundle.Some? && whole.value <= backend.live.bundle.value
    {
      var (live, finalized) := FinalizeChunks(backend.live, calls);
      FinalizeIsSound(backend.live, live, finalized);
      backend.live := live;
      if !finalized || !calls.fetch || live.bundle.None? { return None; }
      CutIsPrefix(live.bundle.value, calls.turns);
      var cut := TruncateToWholeRecords(live.bundle.value, calls.turns);
      whole := if cut.Whole? then Some(cut.log) else None;
    }
  }

  /** The row after a log was to be recorded on it, or not. */
  ghost predicate RecordsOnRow(s: Live, t: Live, stored: bool, log: Option<seq<byte>>, taken: bool)
  {
    && s.file <= t.file && t.row.cursor == s.row.cursor && t.row.abandoned == s.row.abandoned && !t.row.status.Running?
    && (t.row.recorded == s.row.recorded || (stored && t.row.recorded == log))
    && (!taken ==> t.row == if stored && s.row.status.Parsing? then s.row.(recorded := log) else s.row)
  }

  lemma HeldIsSound(s: Live, t: Live, taken: bool)
    requires Sound(s) && WhileHeld(s, t, taken)
    ensures Sound(t)
  {
    var more := t.file[|s.file|..];
    assert t.file == s.file + more;
    GrowthIsSound(s, more);
  }

  lemma PutIsSound(s: Live, bytes: seq<byte>)
    requires Sound(s) && Copies(bytes, s.file, s.row.cursor)
    ensures Sound(s.(chunks := s.chunks[s.row.cursor := bytes]))
  {
    if s.bundle.None? { PutKeepsLaid(s.chunks, s.file, 0, s.row.cursor, bytes); }
  }

  lemma TruncationIsSound(s: Live, whole: seq<byte>)
    requires Sound(s) && s.bundle.Some? && whole <= s.bundle.value
    ensures Sound(s.(bundle := Some(whole))) && whole <= s.file
  {
  }

  lemma AdvanceIsSound(s: Live, bytes: seq<byte>)
    requires Sound(s) && Copies(bytes, s.file, s.row.cursor)
    requires s.bundle.None? ==> s.row.cursor in s.chunks && s.chunks[s.row.cursor] == bytes
    ensures Sound(s.(row := s.row.(cursor := s.row.cursor + |bytes|)))
  {
    if s.bundle.None? { AdvanceKeepsLaid(s.chunks, s.file, 0, s.row.cursor); }
  }

  /** How much of the file one read of the stream hands over at a time. */
  const HIGH_WATER_MARK := 64 * 1024

  /** One chunk read off the stream, whether it comes and how long it is, and what becomes of it. */
  datatype ReadFate = ReadFate(delivered: bool, length: nat, put: PutFate)

  /** One poll: the file found and its size read; the stream fails at the first chunk not listed. */
  datatype PollFate = PollFate(located: bool, sized: bool, chunks: seq<ReadFate>)

  /** So many chunks are delivered and stored, whatever their lengths. */
  ghost predicate Delivers(chunks: seq<ReadFate>, n: nat)
  {
    n <= |chunks| && forall i :: 0 <= i < n ==> chunks[i].delivered && chunks[i].put.stored && chunks[i].put.moved
  }

  /** What a poll may fail of: the run refused a chunk, the file is too large, or a call was not answered. */
  ghost predicate Troubled(rejected: bool, file: seq<byte>, ceiling: nat, polls: seq<PollFate>)
  {
    rejected || |file| > ceiling || exists i :: 0 <= i < |polls| && !Delivers(polls[i].chunks, |file|)
  }

  lemma OnePollTroubled(fate: PollFate, rejected: bool, size: nat, file: seq<byte>, ceiling: nat)
    requires size <= |file| && (rejected || size > ceiling || !Delivers(fate.chunks, size))
    ensures Troubled(rejected, file, ceiling, [fate])
  {
    if !Delivers(fate.chunks, size) { assert !Delivers([fate][0].chunks, |file|); }
  }

  lemma TroubleLasts(rejected: bool, file: seq<byte>, ceiling: nat, polls: seq<PollFate>, later: bool,
                     more: seq<byte>, a: seq<PollFate>, b: seq<PollFate>)
    requires Troubled(rejected, file, ceiling, polls) && (rejected ==> later) && file <= more
    ensures Troubled(later, more, ceiling, a + polls + b)
  {
    if i :| 0 <= i < |polls| && !Delivers(polls[i].chunks, |file|) {
      assert (a + polls + b)[|a| + i] == polls[i];
    }
  }

  /**
   * The tailer. Its reads are serialised: no call starts before the last one
   * returned, so `#reading` is always null on entry.
   */
  class SimulationLogTailer {
    const sink: RunnerLiveSink
    var located: bool
    var offset: nat
    var polling: bool
    var failed: bool

    ghost predicate Valid()
      reads this, sink, sink.backend
    {
      sink.Valid() && sink.isOpen && offset <= sink.offset
    }

    constructor (sink: RunnerLiveSink)
      requires sink.Valid() && sink.isOpen
      ensures this.sink == sink && Valid() && !failed
    {
      this.sink := sink;
      located, offset, polling, failed := false, 0, true, false;
    }

    /**
     * Re-reads the file from where the last read stopped. `seen` is the size
     * the file had when it was looked at. A read that returns has streamed all
     * of that; one that throws has streamed a prefix; no file offset ever jumps
     * past the cursor.
     */
    method ReadAvailable(fate: PollFate) returns (out: Outcome, seen: Option<nat>)
      requires Valid()
      modifies this, sink`offset, sink`attemptBytes, sink`rejected, sink.backend
      ensures Valid()
      ensures failed == old(failed) && polling == old(polling)
      ensures old(sink.offset) <= sink.offset == sink.backend.live.row.cursor <= |sink.backend.live.file|
      ensures old(sink.backend.live.file) <= sink.backend.live.file
      ensures out != Gap
      ensures seen.Some? ==> |old(sink.backend.live.file)| <= seen.value <= |sink.backend.live.file|
      ensures seen.Some? && out.Fine? ==> seen.value <= sink.offset
      ensures sink.rejected == (old(sink.rejected) || out == Rejected)
      ensures out.Fine? || Troubled(sink.rejected, sink.backend.live.file, sink.maxLogBytes, [fate])
      ensures seen.Some? <==> (old(located) || fate.located) && fate.sized
      ensures (old(located) || fate.located) && !fate.sized ==> !located && offset == 0
      ensures seen.Some? && out.Fine? ==> located && offset == seen.value
      ensures seen.Some? && Delivers(fate.chunks, seen.value) && seen.value <= sink.maxLogBytes ==>
                out.Fine? || (out == Rejected && !sink.backend.live.row.status.Running?)
    {
      seen := None;
      sink.backend.Interfere();
      if !located {
        located := fate.located;
        if !located { return Fine, None; }
      }
      if !fate.sized {
        located, offset := false, 0;
        return Fine, None;
      }
      var size := |sink.backend.live.file|;
      seen := Some(size);
      // A file that has shrunk is read again from 0; one that is only appended to never has.
      var start: int := if size < offset then 0 else offset;
      offset := start;
      if size == offset { return Fine, seen; }
      out := StreamTo(size, fate.chunks);
      if !out.Fine? {
        OnePollTroubled(fate, sink.rejected, size, sink.backend.live.file, sink.maxLogBytes);
      }
    }

    /** One stream over the file, up to the size it had; it may fail between any two chunks. */
    method StreamTo(size: nat, chunks: seq<ReadFate>) returns (out: Outcome)
      requires Valid() && offset <= size <= |sink.backend.live.file|
      modifies `offset, sink`offset, sink`attemptBytes, sink`rejected, sink.backend
      ensures Valid()
      ensures old(sink.offset) <= sink.offset == sink.backend.live.row.cursor
      ensures old(sink.backend.live.file) <= sink.backend.live.file
      ensures out != Gap
      ensures out.Fine? ==> offset == size <= sink.offset
      ensures sink.rejected == (old(sink.rejected) || out == Rejected)
      ensures Delivers(chunks, size) && size <= sink.maxLogBytes ==>
                out.Fine? || (out == Rejected && !sink.backend.live.row.status.Running?)
    {
      var fileOffset, read := offset, 0;
      while fileOffset < size
        invariant Valid() && read <= fileOffset == offset <= size <= |sink.backend.live.file|
        invariant old(sink.offset) <= sink.offset == sink.backend.live.row.cursor
        invariant sink.rejected == old(sink.rejected)
        invariant old(sink.backend.live.file) <= sink.backend.live.file
      {
        if read >= |chunks| || !chunks[read].delivered { return ReadFailed; }
        var k := chunks[read].length;
        if k == 0 || k > HIGH_WATER_MARK || k > size - fileOffset { k := 1; }
        out := sink.AppendAt(fileOffset, sink.backend.live.file[fileOffset..fileOffset + k], chunks[read].put);
        if !out.Fine? { return out; }
        offset, fileOffset, read := offset + k, fileOffset + k, read + 1;
      }
      out := Fine;
    }

    method Flush(fate: PollFate) returns (threw: bool, seen: Option<nat>)
      requires Valid()
      modifies this, sink`offset, sink`attemptBytes, sink`rejected, sink.backend
      ensures Valid() && failed == old(failed) && polling == old(polling)
      ensures old(sink.offset) <= sink.offset <= |sink.backend.live.file|
      ensures old(sink.backend.live.file) <= sink.backend.live.file
      ensures old(failed) ==> threw && sink.backend.live == old(sink.backend.live)
      ensures seen.Some? ==> |old(sink.backend.live.file)| <= seen.value <= |sink.backend.live.file|
      ensures seen.Some? && !threw ==> seen.value <= sink.offset
      ensures old(sink.rejected) ==> sink.rejected
      ensures threw ==> old(failed) || Troubled(sink.rejected, sink.backend.live.file, sink.maxLogBytes, [fate])
      ensures !old(failed) ==> (seen.Some? <==> (old(located) || fate.located) && fate.sized)
      ensures (seen.Some? && Delivers(fate.chunks, seen.value) && seen.value <= sink.maxLogBytes
               && sink.backend.live.row.status.Running?) ==> !threw
    {
      if failed { return true, None; }
      var out;
      out, seen := ReadAvailable(fate);
      threw := !out.Fine?;
    }

    /**
     * One firing of the poll timer. The first failure is remembered and ends
     * the polling. With every call answered, on a run at `running` and a file
     * within the limit, it streams every byte there was.
     */
    method Tick(fate: PollFate)
      requires Valid()
      modifies this, sink`offset, sink`attemptBytes, sink`rejected, sink.backend
      ensures Valid()
      ensures old(sink.offset) <= sink.offset <= |sink.backend.live.file|
      ensures old(sink.backend.live.file) <= sink.backend.live.file
      ensures old(failed) || !old(polling) ==> failed == old(failed) && sink.backend.live == old(sink.backend.live)
      ensures old(polling) && !old(failed) ==> (failed <==> !polling)
      ensures old(sink.rejected) ==> sink.rejected
      ensures failed ==> old(failed) || Troubled(sink.rejected, sink.backend.live.file, sink.maxLogBytes, [fate])
      ensures (old(polling) && !old(failed) && fate.located && fate.sized
               && Delivers(fate.chunks, |sink.backend.live.file|)
               && |sink.backend.live.file| <= sink.maxLogBytes && sink.backend.live.row.status.Running?) ==>
                !failed && polling && |old(sink.backend.live.file)| <= sink.offset
    {
      if !polling { return; }
      var threw, seen := Flush(fate);
      if threw && !failed { failed, polling := true, false; }
    }

    /**
     * The last read, after Gatling has exited. Returning normally, with the
     * file found and no longer growing, means every byte of it is on the row's
     * side of the cursor. With no poll failed before and every call answered it
     * does return, on a run at `running` and a file within the limit.
     */
    method Stop(fate: PollFate) returns (threw: bool, seen: Option<nat>)
      requires Valid()
      modifies this, sink`offset, sink`attemptBytes, sink`rejected, sink.backend
      ensures Valid() && !polling
      ensures old(sink.offset) <= sink.offset <= |sink.backend.live.file|
      ensures old(failed) ==> threw
      ensures !threw && seen.Some? && sink.backend.live.file == old(sink.backend.live.file) ==>
                sink.backend.live.row.cursor == |sink.backend.live.file|
      ensures !threw && seen.Some? ==> |old(sink.backend.live.file)| <= sink.offset
      ensures old(sink.backend.live.file) <= sink.backend.live.file
      ensures (!old(failed) && fate.located && fate.sized && Delivers(fate.chunks, |sink.backend.live.file|)
               && |sink.backend.live.file| <= sink.maxLogBytes && sink.backend.live.row.status.Running?) ==>
                !threw && seen.Some?
      ensures !threw ==> (seen.Some? <==> (old(located) || fate.located) && fate.sized)
      ensures old(sink.rejected) ==> sink.rejected
      ensures threw ==> old(failed) || Troubled(sink.rejected, sink.backend.live.file, sink.maxLogBytes, [fate])
    {
      polling := false;
      threw, seen := Flush(fate);
    }
  }
}
