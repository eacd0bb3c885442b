/**
 * What closing a run comes to, whichever process does it: which calls were
 * answered, what log they leave, and when that log is kept.
 */
module Closing {
  import opened Bytes
  import opened Feed
  import opened LiveRun
  import opened SimulationLog
  import opened StreamingDecoder

  /**
   * The fate of every call one closing makes. A claim or an object write that
   * fails may have landed. `marks` is how many calls to mark the run incomplete
   * fail before one succeeds, `refusals` how often the queue refuses the job,
   * `survivors` the chunk objects whose deletion fails. `turns` is how many
   * records the truncation is watched for: one that has not come back by then
   * counts as one that throws.
   */
  datatype Calls = Calls(
    claim: bool, claimLanded: bool, read: bool, finalize: bool, finalizeLanded: bool, fetch: bool, store: bool,
    storeLanded: bool, record: bool, release: bool, marks: nat, refusals: nat, survivors: set<nat>, turns: nat)

  /** The bundle `LiveChunkStore.finalize` leaves when it succeeds; None when it cannot, or has nothing. */
  function Assembled(s: Live): Option<seq<byte>> { Bundled(s.bundle, s.chunks) }

  function Bundled(bundle: Option<seq<byte>>, chunks: Chunks): Option<seq<byte>>
  {
    if bundle.Some? || chunks == map[] then bundle else Assemble(chunks, 0)
  }

  function FinalizeChunks(s: Live, calls: Calls): (r: (Live, bool))
    ensures Finalizes(s, r.0, r.1)
    ensures r.1 ==> r.0.bundle == Assembled(s)
    ensures r.1 <==> calls.finalize && (Assembled(s).Some? || s.chunks == map[])
  {
    if calls.finalize && (Assembled(s).Some? || s.chunks == map[]) then
      (s.(bundle := Assembled(s), chunks := map k | k in s.chunks && k in calls.survivors :: s.chunks[k]), true)
    else if calls.finalizeLanded && Assembled(s).Some? then (s.(bundle := Assembled(s)), false)
    else (s, false)
  }

  /** The whole-record log the assembled bytes hold; None when there are none, or they are not decoded. */
  function WholeLog(s: Live, calls: Calls): Option<seq<byte>> { WholeOf(Assembled(s), calls.turns) }

  function WholeOf(log: Option<seq<byte>>, turns: nat): Option<seq<byte>>
  {
    if log.None? then None
    else
      match CutAfter(log.value, turns)
      case Whole(whole) => Some(whole)
      case _ => None
  }

  /** Every call up to and including the one that records the log succeeds on a log worth keeping. */
  predicate Keeps(s: Live, calls: Calls, ceiling: nat)
  {
    && calls.finalize && calls.fetch && calls.store && calls.record
    && WholeLog(s, calls).Some? && 0 < |WholeLog(s, calls).value| <= ceiling
  }

  /** The one path on which marking the run incomplete is tried a second time. */
  predicate NothingWhole(s: Live, calls: Calls)
  {
    calls.finalize && calls.fetch && WholeLog(s, calls) == Some([])
  }

  /**
   * What may happen to a claimed run between two awaits of the process that
   * holds the claim: Gatling writes more; and a pipeline worker may take the
   * run, and then the status is the worker's too.
   */
  ghost predicate WhileHeld(s: Live, t: Live, taken: bool)
  {
    && s.file <= t.file
    && t == s.(file := t.file, row := s.row.(status := t.row.status))
    && (t.row.status != s.row.status ==> taken && !t.row.status.Running?)
  }

  /** A claim call that throws: the run is as it was, or claimed by nobody. */
  ghost predicate ClaimThrew(s: Live, t: Live, abandoned: bool, landed: bool)
  {
    t == if landed then s.(row := ClaimForClose(s.row, abandoned).0) else s
  }

  predicate StoresLog(s: Live, calls: Calls)
  {
    calls.read && s.row.cursor > 0 && calls.finalize && calls.fetch && calls.record && Assembled(s).Some?
  }

  /**
   * How a claimed healthy close ends. Stored: the whole assembled log is in the
   * store and on the row. Otherwise an empty run is `incomplete`, or it threw
   * and undid its claim if it could. `taken` is whether a pipeline worker took
   * the run meanwhile; what the row then says is the worker's as well.
   */
  ghost predicate HealthyEnd(s: Live, t: Live, threw: bool, closed: bool, kept: Option<seq<byte>>, calls: Calls,
                             taken: bool)
  {
    var stores := StoresLog(s, calls);
    && s.file <= t.file && t.row.cursor == s.row.cursor && t.row.abandoned == s.row.abandoned
    && (stores ==> closed && threw == (calls.refusals >= 3) && kept == Assembled(s) == t.bundle)
    && (!stores ==>
          && kept == None && closed == !threw
          && (threw <==> !(calls.read && s.row.cursor == 0 && calls.marks == 0)))
    && (t.row.recorded == s.row.recorded || (stores && t.row.recorded == kept))
    && (!taken ==>
          t.row == if stores then s.row.(status := Parsing, recorded := kept)
                   else s.row.(status := if !threw then Incomplete else if calls.release then Running else Parsing))
  }

  /**
   * How an abandoned run ends. Kept: at `parsing`, marked abandoned, with
   * exactly its whole-record log stored and recorded. Otherwise nothing new is
   * recorded, and the run is `incomplete` once one mark has landed.
   */
  ghost predicate AbandonedEnd(s: Live, t: Live, kept: bool, log: Option<seq<byte>>, marked: bool, taken: bool)
  {
    && s.file <= t.file && t.row.cursor == s.row.cursor && t.row.abandoned && !t.row.status.Running?
    && (kept ==> log.Some? && t.bundle == log)
    && (t.row.recorded == s.row.recorded || (kept && t.row.recorded == log))
    && (!taken ==>
          if kept then t.row == Row(Parsing, s.row.cursor, true, log)
          else t.row.recorded == s.row.recorded && t.row.status == (if marked then Incomplete else Parsing))
  }

  /** A claimed run on which nothing new is recorded, marked or not. */
  ghost predicate Unkept(s: Live, t: Live, marked: bool, taken: bool)
  {
    && s.file <= t.file && t.row.cursor == s.row.cursor && t.row.abandoned == s.row.abandoned
    && t.row.recorded == s.row.recorded && !t.row.status.Running?
    && (!taken ==> t.row.status == if marked then Incomplete else Parsing)
  }

  lemma UnkeptAwaits(s: Live, t: Live, u: Live, was: bool, taken: bool)
    requires Unkept(s, t, false, was) && WhileHeld(t, u, taken) && (was ==> taken)
    ensures Unkept(s, u, false, taken)
    ensures Unkept(s, u.(row := MarkIncomplete(u.row)), true, taken)
  {
  }

  /** `RunnerLiveSink.closeAbandoned`, which reads the cursor for itself. */
  ghost predicate RunnerEnd(s: Live, t: Live, kept: bool, calls: Calls, ceiling: nat, taken: bool)
  {
    var retried := calls.read && (s.row.cursor == 0 || NothingWhole(s, calls));
    && (kept <==> calls.read && s.row.cursor > 0 && Keeps(s, calls, ceiling))
    && AbandonedEnd(s, t, kept, WholeLog(s, calls), calls.marks == 0 || (retried && calls.marks == 1), taken)
  }

  lemma UnkeptIsEnd(s: Live, t: Live, calls: Calls, ceiling: nat, marked: bool, taken: bool)
    requires Unkept(s, t, marked, taken) && s.row.abandoned
    requires !(calls.read && s.row.cursor > 0 && Keeps(s, calls, ceiling))
    requires marked <==>
               calls.marks == 0 || (calls.read && (s.row.cursor == 0 || NothingWhole(s, calls)) && calls.marks == 1)
    ensures RunnerEnd(s, t, false, calls, ceiling, taken)
  {
  }

  /** `Sweeper#assembleAbandoned`, from the state it assembles: a run already seen to have bytes. */
  ghost predicate AssembledEnd(s: Live, t: Live, kept: bool, calls: Calls, ceiling: nat, taken: bool)
  {
    && (kept <==> Keeps(s, calls, ceiling))
    && AbandonedEnd(s, t, kept, WholeLog(s, calls),
                    calls.marks == 0 || (NothingWhole(s, calls) && calls.marks == 1), taken)
  }

  /**
   * What may happen to a claimed run between two awaits of a process that is
   * not its sink: as `WhileHeld`, and the sink's late put at the cursor, whose
   * advance is then refused.
   */
  ghost predicate WhileClosed(s: Live, t: Live, taken: bool)
  {
    && s.file <= t.file && s.chunks.Keys <= t.chunks.Keys <= s.chunks.Keys + {s.row.cursor}
    && (forall k :: k in s.chunks && k != s.row.cursor ==> t.chunks[k] == s.chunks[k])
    && t == s.(file := t.file, chunks := t.chunks, row := s.row.(status := t.row.status))
    && (t.row.status != s.row.status ==> taken && !t.row.status.Running?)
    && (Sound(s) ==> Sound(t))
  }

  /** How an assembly ends that was claimed in state `s`: from what it found when it came to the chunks. */
  ghost predicate SweeperEnd(s: Live, t: Live, kept: bool, calls: Calls, ceiling: nat, taken: bool)
  {
    exists seen :: WhileClosed(s, seen, taken) && AssembledEnd(seen, t, kept, calls, ceiling, taken)
  }

  /** On a claimed run with nothing new recorded, others leave it so. */
  lemma UnkeptStays(s: Live, t: Live, u: Live, was: bool, taken: bool)
    requires Unkept(s, t, false, was) && WhileClosed(t, u, taken) && (was ==> taken)
    ensures Unkept(s, u, false, taken)
    ensures Unkept(s, u.(row := MarkIncomplete(u.row)), true, taken)
  {
  }

  lemma UnkeptIsAssembledEnd(s: Live, t: Live, calls: Calls, ceiling: nat, marked: bool, taken: bool)
    requires Unkept(s, t, marked, taken) && s.row.abandoned && !Keeps(s, calls, ceiling)
    requires marked <==> calls.marks == 0 || (NothingWhole(s, calls) && calls.marks == 1)
    ensures AssembledEnd(s, t, false, calls, ceiling, taken)
  {
  }

  /**
   * The two implementations end a run with bytes the same way, whichever calls
   * fail: same row, and the same bundle when the log is kept, as long as the
   * cursor was read, the log fits under both ceilings and no pipeline worker
   * took the run meanwhile.
   */
  lemma ImplementationsAgree(s: Live, t: Live, u: Live, k1: bool, k2: bool, calls: Calls, c1: nat, c2: nat)
    requires RunnerEnd(s, t, k1, calls, c1, false) && AssembledEnd(s, u, k2, calls, c2, false)
    requires calls.read && s.row.cursor > 0
    requires WholeLog(s, calls).Some? ==> |WholeLog(s, calls).value| <= c1 && |WholeLog(s, calls).value| <= c2
    ensures k1 == k2 && t.row == u.row
    ensures k1 ==> t.bundle == u.bundle == t.row.recorded
  {
  }

  /**
   * A log kept from a sound run is a prefix of the file; and where no string of
   * the file, as far as it has since got, has a negative length, the pull parser
   * reads it to its end, with every record the assembled bytes held.
   */
  lemma KeptLogParses(s: Live, calls: Calls, ceiling: nat, file: seq<byte>)
    requires Sound(s) && Keeps(s, calls, ceiling) && s.file <= file
    ensures var log := WholeLog(s, calls).value;
      && log <= s.file
      && (Forward(file) ==> Pull(log).end == AtEnd && Pull(log).items == Pull(Assembled(s).value).items)
      && (s.bundle.None? ==> s.row.cursor <= |Assembled(s).value|)
  {
    if s.bundle.None? { AssembleLaid(s.chunks, s.file, 0, s.row.cursor); }
    CutParses(Assembled(s).value, calls.turns, file);
  }

  /** A truncation that came back, of the start of such a file. */
  lemma CutParses(bytes: seq<byte>, turns: nat, file: seq<byte>)
    requires bytes <= file && CutAfter(bytes, turns).Whole?
    ensures var log := CutAfter(bytes, turns).log;
      && log <= bytes
      && (Forward(file) && log != [] ==> Pull(log).end == AtEnd && Pull(log).items == Pull(bytes).items)
  {
    CutIsPrefix(bytes, turns);
    if Forward(file) {
      ForwardPrefix(file, |bytes|);
      assert bytes == file[..|bytes|];
      ForwardCutParses(bytes, turns);
    }
  }

  lemma ForwardCutParses(bytes: seq<byte>, turns: nat)
    requires Forward(bytes) && CutAfter(bytes, turns).Whole?
    ensures var log := CutAfter(bytes, turns).log;
      log != [] ==> Pull(log).end == AtEnd && Pull(log).items == Pull(bytes).items
  {
    FinishedIsTruncate(bytes, turns);
    if Truncate(bytes).Some? { TruncateIsLongestWholeLog(bytes); }
  }
}
