/**
 * Every interleaving over one live run: its sink, any number of processes that
 * close it (RunnerLiveSink's close, abortIncomplete and closeAbandoned, the
 * API's close, sweepers), sweeps that re-enqueue it, and the pipeline workers
 * that take its job. One step is one awaited call, which may fail.
 */
module ClosingProtocol {
  import opened Bytes
  import opened Closing
  import opened Feed
  import opened LiveRun
  import opened LiveSink
  import opened SimulationLog
  import opened StreamingDecoder
  import opened Traces

  datatype Role = Healthy | Aborting | Abandoning | Sweeping

  predicate MarksAbandoned(role: Role) { role.Abandoning? || role.Sweeping? }

  /** Where a closing process stands: the call it makes next, once its claim has landed. */
  datatype Phase =
    | ReadCursor | FinalizeChunks | Fetch | Store(whole: seq<byte>) | Record(log: seq<byte>) | Enqueue
    | Mark | Rescue | Release | Ended

  datatype Party = Party(role: Role, phase: Phase)

  /** The worker holding the run's ingest lock: it has seen the run not terminal, then marks, then ingests. */
  datatype Pipeline = Idle | Checked | Ingesting

  /**
   * `pending` is the chunk the sink has put and not yet advanced past. `queued`
   * is whether the queue has a job for the run that is not over: waiting, being
   * worked on, or to be delivered again. `everQueued` is whether it ever had one.
   */
  datatype State = State(
    live: Live, parties: map<nat, Party>, pending: Option<seq<byte>>,
    queued: bool, everQueued: bool, pipeline: Pipeline)

  const INITIAL := State(OPENED, map[], None, false, false, Idle)

  function Queued(s: State): State { s.(queued := true, everQueued := true) }

  predicate Holds(s: State, p: nat) { p in s.parties && !s.parties[p].phase.Ended? }

  function At(s: State, p: nat, phase: Phase): State
    requires p in s.parties
  {
    s.(parties := s.parties[p := s.parties[p].(phase := phase)])
  }

  /** Where a failed call sends a closing. */
  function OnFailure(role: Role): Phase
  {
    match role
    case Healthy => Release
    case Aborting => Ended
    case _ => Rescue
  }

  // ----- Steps -----

  ghost predicate Grow(s: State, t: State)
  {
    exists more :: t == s.(live := s.live.(file := s.live.file + more))
  }

  ghost predicate SinkPut(s: State, t: State)
  {
    s.pending.None? &&
    exists chunk :: Copies(chunk, s.live.file, s.live.row.cursor) &&
      var stored := s.live.(chunks := s.live.chunks[s.live.row.cursor := chunk]);
      t == s.(live := stored, pending := Some(chunk)) || t == s.(live := stored)
  }

  predicate SinkAdvance(s: State, t: State)
  {
    s.pending.Some? &&
    var row := AdvanceOffset(s.live.row, s.live.row.cursor, s.live.row.cursor + |s.pending.value|).0;
    t == s.(live := s.live.(row := row), pending := None)
  }

  /** A claim that lands. The sweeper claims only a run with bytes; one without it ends at once. */
  ghost predicate Claim(s: State, t: State, p: nat)
  {
    p !in s.parties && s.live.row.status.Running? &&
    exists role: Role ::
      (role.Sweeping? ==> s.live.row.cursor > 0) &&
      var row := ClaimForClose(s.live.row, MarksAbandoned(role)).0;
      var first := match role { case Aborting => Mark case Sweeping => FinalizeChunks case _ => ReadCursor };
      t == s.(live := s.live.(row := row), parties := s.parties[p := Party(role, first)])
  }

  /** A claim that lands with its answer lost: the run is claimed, by nobody. */
  ghost predicate LoseClaim(s: State, t: State)
  {
    s.live.row.status.Running? &&
    exists abandoned :: t == s.(live := s.live.(row := ClaimForClose(s.live.row, abandoned).0))
  }

  predicate SweepEmpty(s: State, t: State)
  {
    s.live.row.status.Running? && s.live.row.cursor == 0
    && t == s.(live := s.live.(row := MarkIncomplete(s.live.row)))
  }

  /** The sweeper's other arm: a run that has stood at `parsing` gets a job. */
  predicate SweepParsing(s: State, t: State)
  {
    s.live.row.status.Parsing? && t == Queued(s)
  }

  /** Each call of a closing, answered or not. */
  ghost predicate Proceed(s: State, t: State, p: nat)
  {
    Holds(s, p) &&
    var role, live := s.parties[p].role, s.live;
    var failed := At(s, p, OnFailure(role));
    match s.parties[p].phase
    case ReadCursor => t == failed || t == At(s, p, if live.row.cursor == 0 then Mark else FinalizeChunks)
    case FinalizeChunks =>
      exists ok :: Finalizes(live, t.live, ok) && t == (if ok then At(s, p, Fetch) else failed).(live := t.live)
    case Fetch =>
      t == failed ||
      (live.bundle.Some? && p in t.parties && Fetches(role, live.bundle.value, t.parties[p].phase)
       && t == At(s, p, t.parties[p].phase))
    case Store(whole) =>
      || t == failed
      || t == failed.(live := live.(bundle := Some(whole)))
      || t == At(s, p, Record(whole)).(live := live.(bundle := Some(whole)))
    case Record(log) => t == failed || t == Recorded(s, p, log)
    case Enqueue => t == At(s, p, Ended) || t == Queued(At(s, p, Ended))
    case Mark => t == failed || t == At(s, p, Ended).(live := live.(row := MarkIncomplete(live.row)))
    case Rescue => t == At(s, p, Ended) || t == At(s, p, Ended).(live := live.(row := MarkIncomplete(live.row)))
    case Release => t == At(s, p, Ended) || t == At(s, p, Ended).(live := live.(row := ReleaseClose(live.row)))
    case Ended => false
  }

  /**
   * The bundle read back: a healthy close records it, an abandoned one cuts it
   * to whole records first, if that comes back.
   */
  ghost predicate Fetches(role: Role, bundle: seq<byte>, phase: Phase)
  {
    if !MarksAbandoned(role) then phase == Record(bundle)
    else exists turns :: CutAfter(bundle, turns) != Unfinished && phase == AfterCut(role, CutAfter(bundle, turns))
  }

  function AfterCut(role: Role, cut: Cut): Phase
  {
    if !cut.Whole? then OnFailure(role) else if cut.log == [] then Mark else Store(cut.log)
  }

  /** `finalizeLive` writes only at `parsing`; the sweeper's own statement is not guarded. */
  function Recorded(s: State, p: nat, log: seq<byte>): State
    requires p in s.parties
  {
    var row := if s.parties[p].role.Sweeping? then s.live.row.(recorded := Some(log))
        else FinalizeLive(s.live.row, log);
    At(s, p, Enqueue).(live := s.live.(row := row))
  }

  // ----- The pipeline (apps/worker/src/pipeline/pipeline.service.ts) -----

  predicate PipeTake(s: State, t: State)
  {
    s.queued && s.pipeline.Idle? && !Decided(s.live.row.status) && t == s.(pipeline := Checked)
  }

  predicate PipeMark(s: State, t: State)
  {
    s.pipeline.Checked? && t == s.(live := s.live.(row := s.live.row.(status := Parsing)), pipeline := Ingesting)
  }

  predicate PipeEnd(s: State, t: State)
  {
    s.pipeline.Ingesting? &&
    var row := s.live.row;
    var finished := if Decided(row.status) then row else row.(status := if row.abandoned then Incomplete else Complete);
    var failed := if Decided(row.status) then row else row.(status := Status.Failed);
    || t == s.(pipeline := Idle)
    || t == s.(live := s.live.(row := finished), pipeline := Idle)
    || t == s.(live := s.live.(row := failed), pipeline := Idle)
  }

  ghost predicate PipeStep(s: State, t: State) { PipeTake(s, t) || PipeMark(s, t) || PipeEnd(s, t) }

  /** The job is over: acknowledged, or failed for good. A worker it was taken from may still be at work. */
  predicate JobEnds(s: State, t: State) { s.queued && t == s.(queued := false) }

  ghost predicate SinkStep(s: State, t: State) { SinkPut(s, t) || SinkAdvance(s, t) }

  ghost predicate PartyStep(s: State, t: State, p: nat) { Claim(s, t, p) || Proceed(s, t, p) }

  ghost predicate SweepStep(s: State, t: State) { SweepEmpty(s, t) || SweepParsing(s, t) }

  ghost predicate Step(s: State, t: State)
  {
    || Grow(s, t) || SinkStep(s, t) || SweepStep(s, t) || PipeStep(s, t) || JobEnds(s, t) || LoseClaim(s, t)
    || exists p :: PartyStep(s, t, p)
  }

  // ----- What every reachable state keeps -----

  ghost predicate Exclusive(s: State)
  {
    && (forall p, q :: Holds(s, p) && Holds(s, q) ==> p == q)
    && (forall p :: Holds(s, p) ==> !s.live.row.status.Running?)
    && (forall p :: Holds(s, p) ==> (MarksAbandoned(s.parties[p].role) <==> s.live.row.abandoned))
    && (s.live.row.status.Running? ==> !s.live.row.abandoned)
  }

  /** What a closing has in hand is a prefix of the file, and is what the bundle holds when it records it. */
  ghost predicate InHand(s: State)
  {
    && Sound(s.live)
    && (s.pending.Some? ==> Copies(s.pending.value, s.live.file, s.live.row.cursor))
    && (s.pending.Some? && s.live.bundle.None? ==>
          s.live.row.cursor in s.live.chunks && s.live.chunks[s.live.row.cursor] == s.pending.value)
    && forall p :: Holds(s, p) ==> Carries(s, s.parties[p])
  }

  /** A log with something in it that parses to its end, if no string of the file has a negative length. */
  predicate WholeRecords(log: seq<byte>, file: seq<byte>) { log != [] && (Forward(file) ==> Pull(log).end == AtEnd) }

  ghost predicate Carries(s: State, party: Party)
  {
    match party.phase
    case Store(whole) => whole <= s.live.file && WholeRecords(whole, s.live.file) && MarksAbandoned(party.role)
    case Record(log) => s.live.bundle == Some(log) && (MarksAbandoned(party.role) ==> WholeRecords(log, s.live.file))
    case Release => !MarksAbandoned(party.role)
    case Rescue => MarksAbandoned(party.role)
    case _ => true
  }

  /** A recorded log is what the store holds, and nobody is left who could replace it. */
  ghost predicate KeepsLog(s: State)
  {
    s.live.row.recorded.Some? ==>
      && s.live.bundle == s.live.row.recorded
      && !s.live.row.status.Running?
      && (s.live.row.abandoned ==> WholeRecords(s.live.bundle.value, s.live.file))
      && (forall p :: Holds(s, p) ==> s.parties[p].phase.Enqueue?)
  }

  ghost predicate PipelineFits(s: State)
  {
    && (s.queued || !s.pipeline.Idle? ==> s.everQueued)
    && (!s.pipeline.Idle? ==> !Decided(s.live.row.status))
    && (!s.everQueued ==> !Decided(s.live.row.status))
    && (!s.everQueued && s.live.row.recorded.Some? ==> s.live.row.status.Parsing?)
    && (!s.everQueued ==> forall p :: Holds(s, p) ==> s.live.row.status.Parsing?)
  }

  ghost predicate Inv(s: State) { Exclusive(s) && InHand(s) && KeepsLog(s) && PipelineFits(s) }

  lemma InitialInv()
    ensures Inv(INITIAL)
  {
  }

  /** A step that leaves every closing where it was. */
  lemma PartiesStay(s: State, t: State)
    requires t.parties == s.parties
    ensures forall p :: Holds(t, p) <==> Holds(s, p)
  {
  }

  /** If the file is forward later, it was before. */
  lemma GrowthKeepsForward(file: seq<byte>, more: seq<byte>)
    ensures Forward(file + more) ==> Forward(file)
  {
    if Forward(file + more) {
      ForwardPrefix(file + more, |file|);
      assert (file + more)[..|file|] == file;
    }
  }

  lemma GrowKeepsInv(s: State, t: State)
    requires Inv(s) && Grow(s, t)
    ensures Inv(t)
  {
    PartiesStay(s, t);
    var more :| t == s.(live := s.live.(file := s.live.file + more));
    GrowthIsSound(s.live, more);
    GrowthKeepsForward(s.live.file, more);
    assert InHand(t);
  }

  lemma PutKeepsInv(s: State, t: State)
    requires Inv(s) && SinkPut(s, t)
    ensures Inv(t)
  {
    PartiesStay(s, t);
    var chunk :| Copies(chunk, s.live.file, s.live.row.cursor)
      && t.live == s.live.(chunks := s.live.chunks[s.live.row.cursor := chunk])
      && (t == s.(live := t.live, pending := Some(chunk)) || t == s.(live := t.live));
    PutIsSound(s.live, chunk);
  }

  lemma AdvanceKeepsInv(s: State, t: State)
    requires Inv(s) && SinkAdvance(s, t)
    ensures Inv(t)
  {
    PartiesStay(s, t);
    if s.live.row.status.Running? { AdvanceIsSound(s.live, s.pending.value); }
  }

  lemma SweepKeepsInv(s: State, t: State)
    requires Inv(s) && SweepStep(s, t)
    ensures Inv(t)
  {
    PartiesStay(s, t);
  }

  lemma TakeKeepsInv(s: State, t: State)
    requires Inv(s) && PipeTake(s, t)
    ensures Inv(t)
  {
    PartiesStay(s, t);
  }

  lemma MarkKeepsInv(s: State, t: State)
    requires Inv(s) && PipeMark(s, t)
    ensures Inv(t)
  {
    PartiesStay(s, t);
  }

  lemma EndKeepsInv(s: State, t: State)
    requires Inv(s) && PipeEnd(s, t)
    ensures Inv(t)
  {
    PartiesStay(s, t);
  }

  lemma JobEndsKeepsInv(s: State, t: State)
    requires Inv(s) && JobEnds(s, t)
    ensures Inv(t)
  {
    PartiesStay(s, t);
  }

  lemma LoseClaimKeepsInv(s: State, t: State)
    requires Inv(s) && LoseClaim(s, t)
    ensures Inv(t)
  {
    PartiesStay(s, t);
  }

  lemma ClaimKeepsInv(s: State, t: State, p: nat)
    requires Inv(s) && Claim(s, t, p)
    ensures Inv(t)
  {
    forall q ensures Holds(t, q) <==> q == p {
      if Holds(s, q) { assert false; }
    }
  }

  /** Only the party that proceeds moves, and keeps its role. */
  lemma ProceedMoves(s: State, t: State, p: nat)
    requires Proceed(s, t, p)
    ensures p in s.parties && p in t.parties && t.parties == s.parties[p := t.parties[p]]
    ensures t.parties[p].role == s.parties[p].role && t.pending == s.pending
  {
  }

  /** Only the holder moves, and it either still holds or has ended. */
  lemma ProceedHolders(s: State, t: State, p: nat)
    requires Inv(s) && Proceed(s, t, p)
    ensures t.parties.Keys == s.parties.Keys && p in t.parties && t.parties[p].role == s.parties[p].role
    ensures forall q :: Holds(t, q) ==> q == p
  {
    ProceedMoves(s, t, p);
    forall q | Holds(t, q) ensures q == p {
      if q != p { assert Holds(s, q); }
    }
  }

  /** What one call of a closing does to what is stored: assembling aside, at most a new bundle that fits the file. */
  lemma ProceedStores(s: State, t: State, p: nat)
    requires Proceed(s, t, p) && Carries(s, s.parties[p])
    ensures t.live.file == s.live.file && t.live.row.cursor == s.live.row.cursor
    ensures !s.parties[p].phase.FinalizeChunks? ==>
              && t.live.chunks == s.live.chunks
              && (t.live.bundle == s.live.bundle || (t.live.bundle.Some? && t.live.bundle.value <= s.live.file))
              && (t.live.row.recorded == s.live.row.recorded || t.live.row.recorded == s.live.bundle)
    ensures s.parties[p].phase.FinalizeChunks? ==> t.live == s.live || exists ok :: Finalizes(s.live, t.live, ok)
  {
  }

  /** The bytes stored by one call of a closing are still the file's. */
  lemma ProceedSound(s: State, t: State, p: nat)
    requires Inv(s) && Proceed(s, t, p)
    ensures Sound(t.live) && t.live.file == s.live.file && t.live.row.cursor == s.live.row.cursor
    ensures t.pending == s.pending
    ensures t.live.bundle.None? ==> s.live.bundle.None? && t.live.chunks == s.live.chunks
  {
    assert Holds(s, p) && Carries(s, s.parties[p]);
    ProceedMoves(s, t, p);
    ProceedStores(s, t, p);
    if s.parties[p].phase.FinalizeChunks? && t.live != s.live {
      var ok :| Finalizes(s.live, t.live, ok);
      FinalizeIsSound(s.live, t.live, ok);
    }
  }

  lemma FetchCarries(s: State, t: State, p: nat)
    requires Sound(s.live) && Proceed(s, t, p) && s.parties[p].phase.Fetch? && p in t.parties
    requires t.live == s.live && Carries(s, s.parties[p])
    ensures Holds(t, p) ==> Carries(t, t.parties[p])
  {
    var role := s.parties[p].role;
    if s.live.bundle.Some? && t.parties[p].phase.Store? {
      var bundle := s.live.bundle.value;
      var turns :| CutAfter(bundle, turns) != Unfinished
          && t.parties[p].phase == AfterCut(role, CutAfter(bundle, turns));
      CutParses(bundle, turns, s.live.file);
    }
  }

  lemma StoreCarries(s: State, t: State, p: nat)
    requires Proceed(s, t, p) && s.parties[p].phase.Store? && Carries(s, s.parties[p])
    ensures p in t.parties && Carries(t, t.parties[p])
  {
  }

  /** A call that neither fetches nor stores leaves a closing with nothing in hand. */
  lemma OtherwiseCarries(s: State, t: State, p: nat)
    requires Proceed(s, t, p) && !s.parties[p].phase.Fetch? && !s.parties[p].phase.Store?
    requires Carries(s, s.parties[p])
    ensures p in t.parties && (Holds(t, p) ==> Carries(t, t.parties[p]))
  {
  }

  lemma ProceedCarries(s: State, t: State, p: nat)
    requires Inv(s) && Proceed(s, t, p)
    ensures p in t.parties && (Holds(t, p) ==> Carries(t, t.parties[p]))
  {
    assert Holds(s, p) && Carries(s, s.parties[p]);
    ProceedMoves(s, t, p);
    match s.parties[p].phase {
      case Fetch => FetchCarries(s, t, p);
      case Store(whole) => StoreCarries(s, t, p);
      case _ => OtherwiseCarries(s, t, p);
    }
  }

  lemma ProceedRow(s: State, t: State, p: nat)
    requires Inv(s) && Proceed(s, t, p)
    ensures t.live.row.abandoned == s.live.row.abandoned
    ensures Holds(t, p) ==> t.live.row.status == s.live.row.status
    ensures t.live.row.status.Running? ==>
              s.parties[p].phase.Release? && !Holds(t, p) && t.live.row.recorded == s.live.row.recorded
    ensures t.live.row.status == s.live.row.status
            || (s.parties[p].phase in {Mark, Rescue, Release} && !Decided(t.live.row.status)
                && !Decided(s.live.row.status))
  {
    assert Holds(s, p);
  }

  lemma ProceedQueue(s: State, t: State, p: nat)
    requires Proceed(s, t, p)
    ensures (s.queued ==> t.queued) && (s.everQueued ==> t.everQueued) && (t.queued ==> s.queued || t.everQueued)
    ensures t.pipeline == s.pipeline
  {
  }

  lemma ProceedLog(s: State, t: State, p: nat)
    requires Inv(s) && Proceed(s, t, p)
    ensures s.live.row.recorded.Some? ==>
              s.parties[p].phase.Enqueue? && t.live == s.live && !Holds(t, p)
    ensures s.live.row.recorded.None? && t.live.row.recorded.Some? ==>
              && s.parties[p].phase.Record? && t.parties[p].phase.Enqueue?
              && t.live.bundle == t.live.row.recorded && t.live.row.status == s.live.row.status
              && (t.live.row.abandoned ==> WholeRecords(t.live.bundle.value, t.live.file))
  {
    assert Holds(s, p) && Carries(s, s.parties[p]);
  }

  lemma ProceedKeepsInv(s: State, t: State, p: nat)
    requires Inv(s) && Proceed(s, t, p)
    ensures Inv(t)
  {
    ProceedHolders(s, t, p);
    ProceedSound(s, t, p);
    ProceedCarries(s, t, p);
    ProceedRow(s, t, p);
    ProceedQueue(s, t, p);
    ProceedLog(s, t, p);
    var party := s.parties[p];
    assert Holds(s, p);
    assert Exclusive(t);
    assert InHand(t);
    assert KeepsLog(t);
    assert PipelineFits(t);
  }

  lemma StepKeepsInv(s: State, t: State)
    requires Inv(s) && Step(s, t)
    ensures Inv(t)
  {
    if Grow(s, t) { GrowKeepsInv(s, t); }
    else if SinkPut(s, t) { PutKeepsInv(s, t); }
    else if SinkAdvance(s, t) { AdvanceKeepsInv(s, t); }
    else if SweepStep(s, t) { SweepKeepsInv(s, t); }
    else if PipeTake(s, t) { TakeKeepsInv(s, t); }
    else if PipeMark(s, t) { MarkKeepsInv(s, t); }
    else if PipeEnd(s, t) { EndKeepsInv(s, t); }
    else if JobEnds(s, t) { JobEndsKeepsInv(s, t); }
    else if LoseClaim(s, t) { LoseClaimKeepsInv(s, t); }
    else {
      var p :| PartyStep(s, t, p);
      if Claim(s, t, p) { ClaimKeepsInv(s, t, p); } else { ProceedKeepsInv(s, t, p); }
    }
  }

  // ----- What one step may do -----

  ghost predicate Held(s: State) { exists p :: Holds(s, p) }

  /** The bundle is short of the cursor: bytes arrived after it was written. */
  predicate Behind(s: State) { s.live.bundle.Some? && |s.live.bundle.value| < s.live.row.cursor }

  /** What no step of anyone breaks. */
  ghost predicate Respects(s: State, t: State)
  {
    && (Held(s) ==> t.live.row.cursor == s.live.row.cursor)
    && s.live.row.cursor <= t.live.row.cursor
    && (t.live.row.abandoned != s.live.row.abandoned ==>
          t.live.row.abandoned && s.live.row.status.Running? && t.live.row.status.Parsing?)
    && (Decided(s.live.row.status) ==> t.live.row.status == s.live.row.status)
    && (s.live.row.status.Incomplete? && !PipeStep(s, t) ==> t.live.row.status.Incomplete?)
    && (s.live.row.recorded.Some? ==> t.live.row.recorded == s.live.row.recorded && t.live.bundle == s.live.bundle)
    && (Held(s) && !s.live.row.abandoned ==> (Behind(t) <==> Behind(s)))
    && (s.everQueued ==> t.everQueued)
  }

  lemma ProceedRespects(s: State, t: State, p: nat)
    requires Inv(s) && Proceed(s, t, p)
    ensures Respects(s, t)
  {
    assert Holds(s, p) && Carries(s, s.parties[p]);
    ProceedRow(s, t, p);
    ProceedQueue(s, t, p);
    ProceedSound(s, t, p);
    ProceedLog(s, t, p);
    if s.parties[p].phase.FinalizeChunks? {
      var ok :| Finalizes(s.live, t.live, ok);
      FinalizeIsSound(s.live, t.live, ok);
    }
  }

  lemma GrowRespects(s: State, t: State)
    requires Inv(s) && Grow(s, t)
    ensures Respects(s, t)
  {
  }

  lemma SinkRespects(s: State, t: State)
    requires Inv(s) && SinkStep(s, t)
    ensures Respects(s, t)
  {
    if Held(s) { var p :| Holds(s, p); }
  }

  lemma SweepRespects(s: State, t: State)
    requires Inv(s) && SweepStep(s, t)
    ensures Respects(s, t)
  {
  }

  /** The pipeline writes the status alone, and a decided one not at all. */
  lemma PipeMoves(s: State, t: State)
    requires Inv(s) && PipeStep(s, t)
    ensures t.live == s.live.(row := s.live.row.(status := t.live.row.status)) && t.everQueued == s.everQueued
    ensures Decided(s.live.row.status) ==> t.live.row.status == s.live.row.status
  {
  }

  lemma PipeRespects(s: State, t: State)
    requires Inv(s) && PipeStep(s, t)
    ensures Respects(s, t)
  {
    PipeMoves(s, t);
  }

  lemma OverRespects(s: State, t: State)
    requires Inv(s) && (JobEnds(s, t) || LoseClaim(s, t))
    ensures Respects(s, t)
  {
    PartiesStay(s, t);
    if LoseClaim(s, t) { assert !Held(s); }
  }

  lemma ClaimRespects(s: State, t: State, p: nat)
    requires Inv(s) && Claim(s, t, p)
    ensures Respects(s, t)
  {
    assert !Held(s);
  }

  lemma StepRespects(s: State, t: State)
    requires Inv(s) && Step(s, t)
    ensures Respects(s, t)
  {
    if Grow(s, t) { GrowRespects(s, t); }
    else if SinkStep(s, t) { SinkRespects(s, t); }
    else if SweepStep(s, t) { SweepRespects(s, t); }
    else if PipeStep(s, t) { PipeRespects(s, t); }
    else if JobEnds(s, t) || LoseClaim(s, t) { OverRespects(s, t); }
    else {
      var p :| PartyStep(s, t, p);
      if Claim(s, t, p) { ClaimRespects(s, t, p); } else { ProceedRespects(s, t, p); }
    }
  }

  /** A step that is neither the sink's nor a closing's next call. */
  ghost predicate Elsewhere(s: State, t: State)
  {
    Grow(s, t) || SweepStep(s, t) || PipeStep(s, t) || JobEnds(s, t) || LoseClaim(s, t) || exists p :: Claim(s, t, p)
  }

  /** Whoever neither streams nor closes touches the row or the file only. */
  lemma OnlyRowOrFile(s: State, t: State)
    requires Elsewhere(s, t)
    ensures t.live.bundle == s.live.bundle && t.live.chunks == s.live.chunks
    ensures t.live.row.cursor == s.live.row.cursor && s.live.file <= t.live.file
  {
    if p :| Claim(s, t, p) {
      ClaimTouchesTheRow(s, t, p);
    } else if Grow(s, t) {
    } else if PipeStep(s, t) {
    } else {
      assert SweepStep(s, t) || JobEnds(s, t) || LoseClaim(s, t);
    }
  }

  lemma ClaimTouchesTheRow(s: State, t: State, p: nat)
    requires Claim(s, t, p)
    ensures t.live == s.live.(row := t.live.row) && t.live.row.cursor == s.live.row.cursor
  {
  }

  lemma ElsewhereLeavesTheHolder(s: State, t: State)
    requires Elsewhere(s, t) && !s.live.row.status.Running?
    ensures WhileHeld(s.live, t.live, PipeStep(s, t))
  {
    assert forall q :: !Claim(s, t, q);
  }

  /** Only the holder's own calls and its sink's are not elsewhere. */
  lemma HoldersOrElsewhere(s: State, t: State, p: nat)
    requires Inv(s) && Step(s, t) && Holds(s, p) && !Proceed(s, t, p)
    ensures SinkStep(s, t) || Elsewhere(s, t)
  {
    assert forall q :: Holds(s, q) ==> q == p;
    assert forall q :: PartyStep(s, t, q) ==> Claim(s, t, q);
  }

  /** Everyone but the sink, the pipeline included, stays within what a sink that closes its own run allows for. */
  lemma OthersLeaveTheSink(s: State, t: State, p: nat)
    requires Inv(s) && Step(s, t) && Holds(s, p) && !Proceed(s, t, p) && !SinkStep(s, t)
    ensures WhileHeld(s.live, t.live, PipeStep(s, t))
  {
    HoldersOrElsewhere(s, t, p);
    ElsewhereLeavesTheHolder(s, t);
  }

  /** What the sink still does while a claim is held: it may put at the cursor, and its advance is refused. */
  lemma SinkLeavesTheHolder(s: State, t: State)
    requires SinkStep(s, t) && !s.live.row.status.Running?
    ensures t.live == s.live.(chunks := t.live.chunks)
    ensures s.live.chunks.Keys <= t.live.chunks.Keys <= s.live.chunks.Keys + {s.live.row.cursor}
    ensures forall k :: k in s.live.chunks && k != s.live.row.cursor ==>
              k in t.live.chunks && t.live.chunks[k] == s.live.chunks[k]
  {
  }

  /**
   * And everyone at all stays within what a holder that is not the sink allows for:
   * a sweeper's claim, or the API's.
   */
  lemma OthersLeaveTheHolder(s: State, t: State, p: nat)
    requires Inv(s) && Step(s, t) && Holds(s, p) && !Proceed(s, t, p)
    ensures WhileClosed(s.live, t.live, PipeStep(s, t))
  {
    StepKeepsInv(s, t);
    assert Sound(t.live);
    if SinkStep(s, t) { SinkLeavesTheHolder(s, t); } else { OthersLeaveTheSink(s, t, p); }
  }

  /** While a claim is held, nobody else, the pipeline aside, writes the row or the bundle. */
  lemma HolderUndisturbed(s: State, t: State, p: nat)
    requires Inv(s) && Step(s, t) && Holds(s, p) && !Proceed(s, t, p) && !PipeStep(s, t)
    ensures t.live.row == s.live.row && t.live.bundle == s.live.bundle && s.live.file <= t.live.file
    ensures forall k :: k in s.live.chunks && k != s.live.row.cursor ==>
              k in t.live.chunks && t.live.chunks[k] == s.live.chunks[k]
  {
    if SinkStep(s, t) { SinkLeavesTheHolder(s, t); } else { OthersLeaveTheSink(s, t, p); }
  }

  /** Everything but the sink itself stays within what the sink allows for between its awaits. */
  lemma OthersAreWithinRely(s: State, t: State)
    requires Inv(s) && Step(s, t) && !SinkStep(s, t)
    ensures OthersMayDo(s.live, t.live)
  {
    StepKeepsInv(s, t);
    if exists p :: Proceed(s, t, p) {
      var p :| Proceed(s, t, p);
      ProceedSound(s, t, p);
    } else {
      assert forall q :: PartyStep(s, t, q) ==> Claim(s, t, q);
      OnlyRowOrFile(s, t);
    }
  }

  // ----- Runs -----

  ghost predicate IsRun(trace: seq<State>) { RunsFrom(Step, INITIAL, trace) }

  lemma RunKeepsInv(trace: seq<State>, i: nat)
    requires IsRun(trace) && i < |trace|
    ensures Inv(trace[i])
  {
    InitialInv();
    forall a, b ensures Preserves(Step, Inv, a, b) { if Inv(a) && Step(a, b) { StepKeepsInv(a, b); } }
    InvariantHolds(Step, INITIAL, trace, Inv, i);
  }

  /** In every reachable state at most one process is closing the run, and no chunk is then accepted. */
  lemma OneCloser(trace: seq<State>, i: nat, p: nat, q: nat)
    requires IsRun(trace) && i < |trace| && Holds(trace[i], p) && Holds(trace[i], q)
    ensures p == q && !trace[i].live.row.status.Running?
  {
    RunKeepsInv(trace, i);
  }

  lemma RunRespects(trace: seq<State>, i: nat)
    requires IsRun(trace) && i + 1 < |trace|
    ensures Respects(trace[i], trace[i + 1])
  {
    RunKeepsInv(trace, i);
    assert StepAt(Step, trace, i);
    StepRespects(trace[i], trace[i + 1]);
  }

  lemma RecordedIsStored(s: State)
    requires Inv(s) && s.live.row.recorded.Some?
    ensures s.live.row.recorded == s.live.bundle && !s.live.row.status.Running?
    ensures !s.everQueued ==> s.live.row.status.Parsing?
  {
  }

  lemma {:induction false} RecordedStays(trace: seq<State>, i: nat, j: nat)
    requires IsRun(trace) && i <= j < |trace| && trace[i].live.row.recorded.Some?
    ensures trace[j].live.row.recorded == trace[i].live.row.recorded
    decreases j
  {
    if i < j {
      RecordedStays(trace, i, j - 1);
      RunRespects(trace, j - 1);
      assert Respects(trace[j - 1], trace[j]);
    }
  }

  /** Once a log is recorded, every later state has it, stored whole, on a run that is never `running` again. */
  lemma RecordedForGood(trace: seq<State>, i: nat, j: nat)
    requires IsRun(trace) && i <= j < |trace| && trace[i].live.row.recorded.Some?
    ensures trace[j].live.row.recorded == trace[i].live.row.recorded == trace[j].live.bundle
    ensures !trace[j].live.row.status.Running?
    ensures !trace[j].everQueued ==> trace[j].live.row.status.Parsing?
  {
    RecordedStays(trace, i, j);
    RunKeepsInv(trace, j);
    RecordedIsStored(trace[j]);
  }

  /** Complete and failed are final. */
  lemma {:induction false} DecidedForGood(trace: seq<State>, i: nat, j: nat)
    requires IsRun(trace) && i <= j < |trace| && Decided(trace[i].live.row.status)
    ensures trace[j].live.row.status == trace[i].live.row.status
    decreases j
  {
    if i < j {
      DecidedForGood(trace, i, j - 1);
      RunRespects(trace, j - 1);
      assert Respects(trace[j - 1], trace[j]);
    }
  }

  /**
   * A recorded log is a prefix of simulation.log; an abandoned run's parses to
   * its end, if no string of the file has a negative length.
   */
  lemma RecordedLogIsTheFile(trace: seq<State>, i: nat)
    requires IsRun(trace) && i < |trace| && trace[i].live.row.recorded.Some?
    ensures var log := trace[i].live.row.recorded.value;
      && log <= trace[i].live.file
      && (trace[i].live.row.abandoned && Forward(trace[i].live.file) ==> Pull(log).end == AtEnd)
  {
    RunKeepsInv(trace, i);
  }

  // ----- No run is stranded -----

  ghost predicate SweeperClaims(s: State, t: State)
  {
    exists p :: Claim(s, t, p) && p in t.parties && t.parties[p].role.Sweeping?
  }

  /** What a sweep and a pipeline worker do by themselves: no closing that has begun goes on. */
  ghost predicate Recovers(s: State, t: State) { SweepStep(s, t) || SweeperClaims(s, t) || PipeStep(s, t) }

  lemma RecoveryIsStep(s: State, t: State)
    requires Recovers(s, t)
    ensures Step(s, t)
  {
    if SweeperClaims(s, t) {
      var p :| Claim(s, t, p) && p in t.parties && t.parties[p].role.Sweeping?;
      assert PartyStep(s, t, p);
    }
  }

  ghost predicate Finishes(s: State, trace: seq<State>)
  {
    RunsFrom(Recovers, s, trace) && Terminal(trace[|trace| - 1].live.row.status)
  }

  lemma FinishesFrom(s: State, t: State, rest: seq<State>) returns (trace: seq<State>)
    requires Recovers(s, t) && Finishes(t, rest)
    ensures Finishes(s, trace)
  {
    StepFirst(Recovers, s, t, rest);
    trace := [s] + rest;
  }

  /** A worker that has marked the run, or looked at it, finishes it. */
  lemma WorkerFinishes(s: State) returns (trace: seq<State>)
    requires !s.pipeline.Idle? && !Decided(s.live.row.status)
    ensures Finishes(s, trace)
    decreases if s.pipeline.Checked? then 1 else 0
  {
    var row := s.live.row;
    if s.pipeline.Ingesting? {
      var t := s.(live := s.live.(row := row.(status := if row.abandoned then Incomplete else Complete)),
          pipeline := Idle);
      assert PipeEnd(s, t);
      trace := FinishesFrom(s, t, [t]);
    } else {
      var t := s.(live := s.live.(row := row.(status := Parsing)), pipeline := Ingesting);
      assert PipeMark(s, t);
      var rest := WorkerFinishes(t);
      trace := FinishesFrom(s, t, rest);
    }
  }

  lemma ParsingFinishes(s: State) returns (trace: seq<State>)
    requires s.live.row.status.Parsing?
    ensures Finishes(s, trace)
    decreases if s.queued then 0 else 1
  {
    if !s.pipeline.Idle? {
      trace := WorkerFinishes(s);
    } else if s.queued {
      var t := s.(pipeline := Checked);
      assert PipeTake(s, t);
      var rest := WorkerFinishes(t);
      trace := FinishesFrom(s, t, rest);
    } else {
      assert SweepParsing(s, Queued(s));
      var rest := ParsingFinishes(Queued(s));
      trace := FinishesFrom(s, Queued(s), rest);
    }
  }

  /**
   * From every state, whatever closings have stopped for ever in it, sweeps and
   * a worker alone can bring the run to an end.
   */
  lemma NeverStranded(s: State) returns (trace: seq<State>)
    ensures RunsFrom(Recovers, s, trace) && Terminal(trace[|trace| - 1].live.row.status)
  {
    if Terminal(s.live.row.status) {
      trace := [s];
    } else if s.live.row.status.Parsing? {
      trace := ParsingFinishes(s);
    } else if s.live.row.cursor == 0 {
      var t := s.(live := s.live.(row := MarkIncomplete(s.live.row)));
      assert SweepEmpty(s, t);
      trace := FinishesFrom(s, t, [t]);
    } else {
      var p := FreshKey(s.parties);
      var row := ClaimForClose(s.live.row, true).0;
      var t := s.(live := s.live.(row := row), parties := s.parties[p := Party(Sweeping, FinalizeChunks)]);
      assert Claim(s, t, p) by { assert MarksAbandoned(Sweeping); }
      assert SweeperClaims(s, t);
      var rest := ParsingFinishes(t);
      trace := FinishesFrom(s, t, rest);
    }
  }

  // ----- Two claims the code does not meet, and when it does -----

  /** A closing that has its log, and hands it over unless something fails. */
  predicate HandsOver(phase: Phase) { phase.Store? || phase.Record? || phase.Enqueue? }

  /** A closing in this role makes a log of this bundle: as it is, or cut to records of which there are some. */
  ghost predicate Gives(role: Role, bundle: seq<byte>)
  {
    MarksAbandoned(role) ==>
      exists turns :: CutAfter(bundle, turns).Whole? && CutAfter(bundle, turns).log != []
  }

  /**
   * The bytes up to `n` of a later file are what the chunks may yet be assembled
   * into: a chunk at the cursor adds to them.
   */
  predicate MayAssemble(live: Live, file: seq<byte>, n: nat)
  {
    live.file <= file && live.row.cursor <= n <= |file| && (live.row.cursor in live.chunks ==> live.row.cursor < n)
  }

  /** The bundle there is gives a log, or the one that may yet be assembled does. */
  ghost predicate MayGive(live: Live, role: Role)
  {
    if live.bundle.Some? then Gives(role, live.bundle.value)
    else exists file, n: nat :: MayAssemble(live, file, n) && Gives(role, file[..n])
  }

  /** Whether a closing, going on from where it stands, may still hand a log over. */
  ghost predicate MayDeliver(live: Live, party: Party)
  {
    match party.phase
    case ReadCursor => live.row.cursor > 0 && MayGive(live, party.role)
    case FinalizeChunks => MayGive(live, party.role)
    case Fetch => live.bundle.Some? && Gives(party.role, live.bundle.value)
    case _ => HandsOver(party.phase)
  }

  /** The run's job is over, no worker is on it, and no closing may yet enqueue it. */
  ghost predicate LeftAlone(s: State)
  {
    !s.queued && s.pipeline.Idle? && forall p :: Holds(s, p) ==> !MayDeliver(s.live, s.parties[p])
  }

  ghost predicate AtRest(s: State) { Inv(s) && s.live.row.status.Incomplete? && LeftAlone(s) }

  /** Growth, and a put at the cursor, add nothing to what may be assembled. */
  lemma MayGiveLess(live: Live, later: Live, role: Role)
    requires live.bundle == later.bundle && live.file <= later.file && live.row.cursor == later.row.cursor
    requires live.row.cursor in live.chunks ==> live.row.cursor in later.chunks
    ensures MayGive(later, role) ==> MayGive(live, role)
  {
    if live.bundle.None? && MayGive(later, role) {
      var file, n: nat :| MayAssemble(later, file, n) && Gives(role, file[..n]);
      assert MayAssemble(live, file, n);
    }
  }

  /** What assembling gives is one of the things it may give. */
  lemma AssembledMayGive(live: Live, later: Live, ok: bool, role: Role)
    requires Sound(live) && Finalizes(live, later, ok)
    ensures later.bundle.Some? && Gives(role, later.bundle.value) ==> MayGive(live, role)
  {
    if live.bundle.None? && later.bundle.Some? && Gives(role, later.bundle.value) {
      AssembleLaid(live.chunks, live.file, 0, live.row.cursor);
      var n := Reach(live.chunks, live.row.cursor);
      assert later.bundle.value == live.file[..n];
      if live.row.cursor in live.chunks { LaidAtCursor(live.chunks, live.file, 0, live.row.cursor); }
      assert MayAssemble(live, live.file, n);
    }
  }

  lemma {:induction false} LaidAtCursor(chunks: Chunks, file: seq<byte>, at: nat, cursor: nat)
    requires Laid(chunks, file, at, cursor) && cursor in chunks
    ensures |chunks[cursor]| > 0
    decreases cursor - at
  {
    if at < cursor { LaidAtCursor(chunks - {at}, file, at + |chunks[at]|, cursor); }
  }

  /** A call of a closing that may hand nothing over leaves it so. */
  lemma ProceedKeepsRest(s: State, t: State, p: nat)
    requires Inv(s) && Proceed(s, t, p) && !MayDeliver(s.live, s.parties[p])
    ensures p in t.parties && (Holds(t, p) ==> !MayDeliver(t.live, t.parties[p]))
    ensures t.queued == s.queued && t.pipeline == s.pipeline
    ensures s.live.row.status.Incomplete? ==> t.live.row.status.Incomplete?
  {
    assert Holds(s, p) && Carries(s, s.parties[p]);
    ProceedMoves(s, t, p);
    match s.parties[p].phase {
      case FinalizeChunks => FinalizeKeepsRest(s, t, p);
      case Fetch => FetchKeepsRest(s, t, p);
      case _ => OtherCallKeepsRest(s, t, p);
    }
  }

  lemma FinalizeKeepsRest(s: State, t: State, p: nat)
    requires Inv(s) && Proceed(s, t, p) && s.parties[p].phase.FinalizeChunks? && !MayGive(s.live, s.parties[p].role)
    ensures p in t.parties && (Holds(t, p) ==> !MayDeliver(t.live, t.parties[p]))
    ensures t.queued == s.queued && t.pipeline == s.pipeline && t.live.row == s.live.row
  {
    var ok :| Finalizes(s.live, t.live, ok)
      && t == (if ok then At(s, p, Phase.Fetch) else At(s, p, OnFailure(s.parties[p].role))).(live := t.live);
    AssembledMayGive(s.live, t.live, ok, s.parties[p].role);
  }

  lemma FetchKeepsRest(s: State, t: State, p: nat)
    requires Inv(s) && Proceed(s, t, p) && s.parties[p].phase.Fetch? && !MayDeliver(s.live, s.parties[p])
    ensures p in t.parties && (Holds(t, p) ==> !MayDeliver(t.live, t.parties[p]))
    ensures t.queued == s.queued && t.pipeline == s.pipeline && t.live.row == s.live.row
  {
  }

  lemma OtherCallKeepsRest(s: State, t: State, p: nat)
    requires Inv(s) && Proceed(s, t, p) && !s.parties[p].phase.FinalizeChunks? && !s.parties[p].phase.Fetch?
    requires !MayDeliver(s.live, s.parties[p]) && Carries(s, s.parties[p])
    ensures p in t.parties && (Holds(t, p) ==> !MayDeliver(t.live, t.parties[p]))
    ensures t.queued == s.queued && t.pipeline == s.pipeline
    ensures s.live.row.status.Incomplete? ==> t.live.row.status.Incomplete?
  {
  }

  /** What is done elsewhere on an incomplete run left alone: Gatling writes, or the sink puts at the cursor. */
  lemma OthersAtRest(s: State, t: State)
    requires AtRest(s) && (SinkStep(s, t) || Elsewhere(s, t))
    ensures t.parties == s.parties && t.queued == s.queued && t.pipeline == s.pipeline
    ensures t.live.row == s.live.row && t.live.bundle == s.live.bundle && s.live.file <= t.live.file
    ensures s.live.row.cursor in s.live.chunks ==> s.live.row.cursor in t.live.chunks
  {
    assert forall q :: !Claim(s, t, q);
  }

  lemma StepKeepsRest(s: State, t: State)
    requires AtRest(s) && Step(s, t)
    ensures AtRest(t)
  {
    StepKeepsInv(s, t);
    if p :| Proceed(s, t, p) {
      ProceedHolders(s, t, p);
      ProceedKeepsRest(s, t, p);
    } else {
      assert forall q :: PartyStep(s, t, q) ==> Claim(s, t, q);
      OthersAtRest(s, t);
      forall q | Holds(t, q) ensures !MayDeliver(t.live, t.parties[q]) {
        assert Holds(s, q);
        MayGiveLess(s.live, t.live, t.parties[q].role);
      }
    }
  }

  /**
   * A job for the run, or a worker on it, takes it off `incomplete`: the pipeline
   * turns away only complete and failed runs.
   */
  lemma JobReopens(s: State) returns (trace: seq<State>)
    requires Inv(s) && s.live.row.status.Incomplete? && (s.queued || !s.pipeline.Idle?)
    ensures RunsFrom(Step, s, trace) && !trace[|trace| - 1].live.row.status.Incomplete?
  {
    if s.pipeline.Ingesting? {
      var failed := s.(live := s.live.(row := s.live.row.(status := Status.Failed)), pipeline := Idle);
      assert PipeEnd(s, failed);
      trace := [s, failed];
    } else {
      var checked := s.(pipeline := Checked);
      var marked := checked.(live := s.live.(row := s.live.row.(status := Parsing)), pipeline := Ingesting);
      assert PipeMark(checked, marked);
      if s.pipeline.Idle? {
        assert PipeTake(s, checked);
        trace := [s, checked, marked];
      } else {
        assert checked == s;
        trace := [s, marked];
      }
    }
  }

  /** So does a closing that still has its log to hand over. */
  lemma HandOverReopens(s: State, p: nat) returns (trace: seq<State>)
    requires Inv(s) && s.live.row.status.Incomplete? && Holds(s, p) && HandsOver(s.parties[p].phase)
    ensures RunsFrom(Step, s, trace) && !trace[|trace| - 1].live.row.status.Incomplete?
    decreases match s.parties[p].phase case Store(_) => 2 case Record(_) => 1 case _ => 0
  {
    var phase := s.parties[p].phase;
    if phase.Enqueue? {
      var t := Queued(At(s, p, Ended));
      assert Proceed(s, t, p) && PartyStep(s, t, p);
      StepKeepsInv(s, t);
      var rest := JobReopens(t);
      StepFirst(Step, s, t, rest);
      trace := [s] + rest;
    } else {
      var t := if phase.Store? then At(s, p, Record(phase.whole)).(live := s.live.(bundle := Some(phase.whole)))
               else Recorded(s, p, phase.log);
      assert Proceed(s, t, p) && PartyStep(s, t, p);
      StepKeepsInv(s, t);
      var rest := HandOverReopens(t, p);
      StepFirst(Step, s, t, rest);
      trace := [s] + rest;
    }
  }

  ghost predicate StaysIncomplete(s: State)
  {
    forall trace: seq<State> :: RunsFrom(Step, s, trace) ==> trace[|trace| - 1].live.row.status.Incomplete?
  }

  /** A trace off `incomplete`. */
  ghost predicate Reopens(s: State, trace: seq<State>)
  {
    RunsFrom(Step, s, trace) && !trace[|trace| - 1].live.row.status.Incomplete?
  }

  lemma ReopensFrom(s: State, t: State, rest: seq<State>) returns (trace: seq<State>)
    requires Step(s, t) && Reopens(t, rest)
    ensures Reopens(s, trace)
  {
    StepFirst(Step, s, t, rest);
    trace := [s] + rest;
  }

  /** A closing about to read a bundle back that gives a log. */
  lemma FetchReopens(s: State, p: nat) returns (trace: seq<State>)
    requires Inv(s) && s.live.row.status.Incomplete? && Holds(s, p) && s.parties[p].phase.Fetch?
    requires s.live.bundle.Some? && Gives(s.parties[p].role, s.live.bundle.value)
    ensures Reopens(s, trace)
  {
    var role, bundle := s.parties[p].role, s.live.bundle.value;
    var phase := Record(bundle);
    if MarksAbandoned(role) {
      var turns :| CutAfter(bundle, turns).Whole? && CutAfter(bundle, turns).log != [];
      phase := AfterCut(role, CutAfter(bundle, turns));
    }
    assert Fetches(role, bundle, phase);
    var t := At(s, p, phase);
    assert Proceed(s, t, p) && PartyStep(s, t, p);
    StepKeepsInv(s, t);
    var rest := HandOverReopens(t, p);
    trace := ReopensFrom(s, t, rest);
  }

  /** A closing about to assemble into a bundle that gives a log. */
  lemma FinalizeReopens(s: State, p: nat, later: Live) returns (trace: seq<State>)
    requires Inv(s) && s.live.row.status.Incomplete? && Holds(s, p) && s.parties[p].phase.FinalizeChunks?
    requires Finalizes(s.live, later, true) && later.bundle.Some? && Gives(s.parties[p].role, later.bundle.value)
    ensures Reopens(s, trace)
  {
    var t := At(s, p, Phase.Fetch).(live := later);
    assert Proceed(s, t, p) && PartyStep(s, t, p);
    StepKeepsInv(s, t);
    var rest := FetchReopens(t, p);
    trace := ReopensFrom(s, t, rest);
  }

  /** Laid-out chunks with something in them, assembled and cleared. */
  lemma ChunksAssemble(live: Live) returns (later: Live)
    requires Sound(live) && live.bundle.None? && live.chunks != map[]
    ensures Finalizes(live, later, true) && Reach(live.chunks, live.row.cursor) <= |live.file|
    ensures later.bundle == Some(live.file[..Reach(live.chunks, live.row.cursor)])
  {
    AssembleLaid(live.chunks, live.file, 0, live.row.cursor);
    later := live.(chunks := map[], bundle := Assemble(live.chunks, 0));
  }

  lemma {:induction false} LaidIsEmptyAtStart(chunks: Chunks, file: seq<byte>, at: nat, cursor: nat)
    requires Laid(chunks, file, at, cursor) && chunks == map[]
    ensures at == cursor
  {
  }

  /** No bundle, and a log in the first `n` bytes of a file this may grow to: grow, put what is missing, assemble. */
  lemma PutReopens(s: State, p: nat, file: seq<byte>, n: nat) returns (trace: seq<State>)
    requires Inv(s) && s.live.row.status.Incomplete? && Holds(s, p) && s.parties[p].phase.FinalizeChunks?
    requires s.live.bundle.None? && s.pending.None? && s.live.file == file && s.live.row.cursor < n <= |file|
    requires Gives(s.parties[p].role, file[..n])
    ensures Reopens(s, trace)
  {
    var k := s.live.row.cursor;
    var chunk := file[k..n];
    var t := s.(live := s.live.(chunks := s.live.chunks[k := chunk]));
    assert SinkPut(s, t) by { assert Copies(chunk, s.live.file, k); }
    StepKeepsInv(s, t);
    var later := ChunksAssemble(t.live);
    var rest := FinalizeReopens(t, p, later);
    trace := ReopensFrom(s, t, rest);
  }

  lemma GrowReopens(s: State, p: nat, file: seq<byte>, n: nat) returns (trace: seq<State>)
    requires Inv(s) && s.live.row.status.Incomplete? && Holds(s, p) && s.parties[p].phase.FinalizeChunks?
    requires s.live.bundle.None? && s.pending.None? && s.live.file <= file && s.live.row.cursor < n <= |file|
    requires Gives(s.parties[p].role, file[..n])
    ensures Reopens(s, trace)
  {
    var t := s.(live := s.live.(file := file));
    assert Grow(s, t) by { assert file == s.live.file + file[|s.live.file|..]; }
    StepKeepsInv(s, t);
    var rest := PutReopens(t, p, file, n);
    trace := ReopensFrom(s, t, rest);
  }

  /** The sink's refused advance clears what it had pending. */
  lemma AdvanceReopens(s: State, p: nat, file: seq<byte>, n: nat) returns (trace: seq<State>)
    requires Inv(s) && s.live.row.status.Incomplete? && Holds(s, p) && s.parties[p].phase.FinalizeChunks?
    requires s.live.bundle.None? && s.live.file <= file && s.live.row.cursor < n <= |file|
    requires Gives(s.parties[p].role, file[..n])
    ensures Reopens(s, trace)
  {
    if s.pending.None? {
      trace := GrowReopens(s, p, file, n);
    } else {
      var t := s.(pending := None);
      assert SinkAdvance(s, t);
      StepKeepsInv(s, t);
      var rest := GrowReopens(t, p, file, n);
      trace := ReopensFrom(s, t, rest);
    }
  }

  /** A closing at its chunks that may yet give a log. */
  lemma ChunksReopen(s: State, p: nat) returns (trace: seq<State>)
    requires Inv(s) && s.live.row.status.Incomplete? && Holds(s, p) && s.parties[p].phase.FinalizeChunks?
    requires MayGive(s.live, s.parties[p].role)
    ensures Reopens(s, trace)
  {
    var role, live := s.parties[p].role, s.live;
    if live.bundle.Some? {
      trace := FinalizeReopens(s, p, live);
    } else {
      var file, n: nat :| MayAssemble(live, file, n) && Gives(role, file[..n]);
      if live.row.cursor < n {
        trace := AdvanceReopens(s, p, file, n);
      } else if live.chunks != map[] {
        var later := ChunksAssemble(live);
        assert later.bundle.value == file[..n];
        trace := FinalizeReopens(s, p, later);
      } else {
        LaidIsEmptyAtStart(live.chunks, live.file, 0, live.row.cursor);
        NothingGivesNothing(role, file[..n]);
        trace := AdvanceReopens(s, p, file + [0], 1);
      }
    }
  }

  lemma NothingGivesNothing(role: Role, bytes: seq<byte>)
    requires bytes == [] && Gives(role, bytes)
    ensures !MarksAbandoned(role)
  {
    forall turns | CutAfter(bytes, turns).Whole? ensures CutAfter(bytes, turns).log == [] { CutIsPrefix(bytes, turns); }
  }

  lemma ReadReopens(s: State, p: nat) returns (trace: seq<State>)
    requires Inv(s) && s.live.row.status.Incomplete? && Holds(s, p) && s.parties[p].phase.ReadCursor?
    requires s.live.row.cursor > 0 && MayGive(s.live, s.parties[p].role)
    ensures Reopens(s, trace)
  {
    var t := At(s, p, FinalizeChunks);
    assert Proceed(s, t, p) && PartyStep(s, t, p);
    StepKeepsInv(s, t);
    var rest := ChunksReopen(t, p);
    trace := ReopensFrom(s, t, rest);
  }

  /** A closing that may hand a log over can take the run off `incomplete`. */
  lemma DeliveryReopens(s: State, p: nat) returns (trace: seq<State>)
    requires Inv(s) && s.live.row.status.Incomplete? && Holds(s, p) && MayDeliver(s.live, s.parties[p])
    ensures Reopens(s, trace)
  {
    match s.parties[p].phase {
      case ReadCursor => trace := ReadReopens(s, p);
      case FinalizeChunks => trace := ChunksReopen(s, p);
      case Fetch => trace := FetchReopens(s, p);
      case _ => trace := HandOverReopens(s, p);
    }
  }

  /**
   * `incomplete` is final exactly when the run's job is over, no worker is on it
   * and no closing may yet hand a log over: from every state of the protocol.
   */
  lemma IncompleteIsFinalIff(s: State)
    requires Inv(s) && s.live.row.status.Incomplete?
    ensures StaysIncomplete(s) <==> LeftAlone(s)
  {
    if LeftAlone(s) {
      forall a, b ensures Preserves(Step, AtRest, a, b) { if AtRest(a) && Step(a, b) { StepKeepsRest(a, b); } }
      forall trace: seq<State> | RunsFrom(Step, s, trace) ensures trace[|trace| - 1].live.row.status.Incomplete? {
        InvariantHolds(Step, s, trace, AtRest, |trace| - 1);
      }
    } else if s.queued || !s.pipeline.Idle? {
      var trace := JobReopens(s);
    } else {
      var p :| Holds(s, p) && MayDeliver(s.live, s.parties[p]);
      var trace := DeliveryReopens(s, p);
    }
  }

  /** A run marked incomplete by a closing that failed, while a sweep had already queued it. */
  lemma MarkedWhileQueued() returns (trace: seq<State>)
    ensures IsRun(trace)
    ensures trace[|trace| - 1] == State(
              Live(Row(Incomplete, 0, true, None), map[], None, []),
              map[0 := Party(Abandoning, Ended)], None, true, true, Idle)
  {
    var parsing := INITIAL.live.(row := Row(Parsing, 0, true, None));
    var claimed := INITIAL.(live := parsing, parties := map[0 := Party(Abandoning, ReadCursor)]);
    assert PartyStep(INITIAL, claimed, 0) by {
      assert MarksAbandoned(Abandoning);
      assert Claim(INITIAL, claimed, 0);
    }
    var waiting := Queued(claimed);
    assert SweepParsing(claimed, waiting);
    var failed := At(waiting, 0, Rescue);
    assert PartyStep(waiting, failed, 0) by { assert Proceed(waiting, failed, 0); }
    var marked := At(failed, 0, Ended).(live := parsing.(row := Row(Incomplete, 0, true, None)));
    assert PartyStep(failed, marked, 0) by { assert Proceed(failed, marked, 0); }
    trace := [INITIAL];
    Extend(Step, INITIAL, trace, claimed); trace := trace + [claimed];
    Extend(Step, INITIAL, trace, waiting); trace := trace + [waiting];
    Extend(Step, INITIAL, trace, failed); trace := trace + [failed];
    Extend(Step, INITIAL, trace, marked); trace := trace + [marked];
    assert marked.parties == map[0 := Party(Abandoning, Ended)];
  }

  /** From its opening a run can be incomplete, with every closing ended, and then be taken off it again. */
  lemma IncompleteCanReopen() returns (trace: seq<State>)
    ensures IsRun(trace) && |trace| > 2
    ensures trace[|trace| - 3].live.row.status.Incomplete? && !Held(trace[|trace| - 3])
    ensures trace[|trace| - 1].live.row.status.Parsing?
  {
    trace := MarkedWhileQueued();
    var s := trace[|trace| - 1];
    var taken := s.(pipeline := Checked);
    assert PipeTake(s, taken);
    var reopened := taken.(live := s.live.(row := Row(Parsing, 0, true, None)), pipeline := Ingesting);
    assert PipeMark(taken, reopened);
    Extend(Step, INITIAL, trace, taken); trace := trace + [taken];
    Extend(Step, INITIAL, trace, reopened); trace := trace + [reopened];
  }

  lemma {:induction false} BehindIsFixed(trace: seq<State>, i: nat, j: nat)
    requires IsRun(trace) && i <= j < |trace| && !trace[j].live.row.abandoned
    requires forall k :: i <= k < j ==> Held(trace[k])
    ensures Behind(trace[j]) <==> Behind(trace[i])
    decreases j
  {
    if i < j {
      RunRespects(trace, j - 1);
      assert Respects(trace[j - 1], trace[j]);
      assert Held(trace[j - 1]);
      BehindIsFixed(trace, i, j - 1);
    }
  }

  /**
   * The log a healthy close records covers every byte up to the cursor exactly
   * when, at its claim, no bundle shorter than the cursor was already written.
   * One is, when an earlier close wrote it, failed, and let the run go on.
   */
  lemma HealthyLogCoversIff(trace: seq<State>, i: nat, j: nat, p: nat)
    requires IsRun(trace) && i < j < |trace| && Claim(trace[i], trace[i + 1], p)
    requires forall k :: i < k < j ==> Holds(trace[k], p)
    requires trace[j].live.row.recorded.Some? && !trace[j].live.row.abandoned
    ensures trace[j].live.row.cursor <= |trace[j].live.row.recorded.value| <==> !Behind(trace[i])
  {
    forall k | i + 1 <= k < j ensures Held(trace[k]) { assert Holds(trace[k], p); }
    BehindIsFixed(trace, i + 1, j);
    RunKeepsInv(trace, j);
    RecordedIsStored(trace[j]);
  }

  /** One byte streamed of two, then a healthy close that has read the cursor. */
  lemma CloseBegins() returns (trace: seq<State>)
    ensures IsRun(trace)
    ensures trace[|trace| - 1] == State(
              Live(Row(Parsing, 1, false, None), map[0 := [1]], None, [1, 2]),
              map[0 := Party(Healthy, FinalizeChunks)], None, false, false, Idle)
  {
    var grown := INITIAL.(live := INITIAL.live.(file := [1, 2]));
    assert Grow(INITIAL, grown) by { assert INITIAL.live.file + [1, 2] == [1, 2]; }
    var put := grown.(live := grown.live.(chunks := map[0 := [1]]), pending := Some([1]));
    assert SinkPut(grown, put) by { assert Copies([1], grown.live.file, 0); }
    var advanced := put.(live := put.live.(row := Row(Running, 1, false, None)), pending := None);
    var parsing := advanced.live.(row := Row(Parsing, 1, false, None));
    var claimed := advanced.(live := parsing, parties := map[0 := Party(Healthy, ReadCursor)]);
    assert PartyStep(advanced, claimed, 0) by {
      assert !MarksAbandoned(Healthy);
      assert Claim(advanced, claimed, 0);
    }
    var read := At(claimed, 0, FinalizeChunks);
    assert PartyStep(claimed, read, 0) by { assert Proceed(claimed, read, 0); }
    trace := [INITIAL];
    Extend(Step, INITIAL, trace, grown); trace := trace + [grown];
    Extend(Step, INITIAL, trace, put); trace := trace + [put];
    Extend(Step, INITIAL, trace, advanced); trace := trace + [advanced];
    Extend(Step, INITIAL, trace, claimed); trace := trace + [claimed];
    Extend(Step, INITIAL, trace, read); trace := trace + [read];
    assert read.parties == map[0 := Party(Healthy, FinalizeChunks)];
  }

  lemma OneChunkAssembles(live: Live)
    requires live.chunks == map[0 := [1]] && live.bundle.None?
    ensures Finalizes(live, live.(chunks := map[], bundle := Some([1])), true)
  {
    assert live.chunks - {0} == map[];
    assert Assemble(live.chunks - {0}, 1) == Some([]);
    assert [1] + [] == [1];
  }

  /** A close that fails to read its bundle back releases the run with the bundle already written. */
  lemma FailedCloseLeavesBundle() returns (trace: seq<State>)
    ensures IsRun(trace)
    ensures trace[|trace| - 1] == State(
              Live(Row(Running, 1, false, None), map[], Some([1]), [1, 2]),
              map[0 := Party(Healthy, Ended)], None, false, false, Idle)
  {
    trace := CloseBegins();
    var read := trace[|trace| - 1];
    var written := read.live.(chunks := map[], bundle := Some([1]));
    OneChunkAssembles(read.live);
    var stored := At(read, 0, Fetch).(live := written);
    assert PartyStep(read, stored, 0) by { assert Proceed(read, stored, 0); }
    var failed := At(stored, 0, Release);
    assert PartyStep(stored, failed, 0) by { assert Proceed(stored, failed, 0); }
    var released := At(failed, 0, Ended).(live := written.(row := Row(Running, 1, false, None)));
    assert PartyStep(failed, released, 0) by { assert Proceed(failed, released, 0); }
    Extend(Step, INITIAL, trace, stored); trace := trace + [stored];
    Extend(Step, INITIAL, trace, failed); trace := trace + [failed];
    Extend(Step, INITIAL, trace, released); trace := trace + [released];
    assert released.parties == map[0 := Party(Healthy, Ended)];
  }

  /** A second byte streamed after such a close, and a second close that has read the cursor. */
  lemma SecondCloseBegins() returns (trace: seq<State>)
    ensures IsRun(trace)
    ensures var s := trace[|trace| - 1];
      && s.live == Live(Row(Parsing, 2, false, None), map[1 := [2]], Some([1]), [1, 2])
      && 1 in s.parties && s.parties[1] == Party(Healthy, FinalizeChunks)
  {
    trace := FailedCloseLeavesBundle();
    var s := trace[|trace| - 1];
    var put := s.(live := s.live.(chunks := map[1 := [2]]), pending := Some([2]));
    assert SinkPut(s, put) by { assert Copies([2], s.live.file, 1); }
    var advanced := put.(live := put.live.(row := Row(Running, 2, false, None)), pending := None);
    var parsing := advanced.live.(row := Row(Parsing, 2, false, None));
    var claimed := advanced.(live := parsing, parties := s.parties[1 := Party(Healthy, ReadCursor)]);
    assert PartyStep(advanced, claimed, 1) by {
      assert !MarksAbandoned(Healthy);
      assert Claim(advanced, claimed, 1);
    }
    var read := At(claimed, 1, FinalizeChunks);
    assert PartyStep(claimed, read, 1) by { assert Proceed(claimed, read, 1); }
    Extend(Step, INITIAL, trace, put); trace := trace + [put];
    Extend(Step, INITIAL, trace, advanced); trace := trace + [advanced];
    Extend(Step, INITIAL, trace, claimed); trace := trace + [claimed];
    Extend(Step, INITIAL, trace, read); trace := trace + [read];
  }

  /** The tail streamed after such a failed close is dropped by the close that succeeds. */
  lemma HealthyCloseCanDropATail() returns (trace: seq<State>)
    ensures IsRun(trace)
    ensures var live := trace[|trace| - 1].live;
      live.row == Row(Parsing, 2, false, Some([1])) && live.file == [1, 2]
  {
    trace := SecondCloseBegins();
    var read := trace[|trace| - 1];
    var cleared := read.live.(chunks := map[]);
    var kept := At(read, 1, Fetch).(live := cleared);
    assert PartyStep(read, kept, 1) by { assert Finalizes(read.live, cleared, true); }
    var fetched := At(kept, 1, Record([1]));
    assert PartyStep(kept, fetched, 1) by { assert Proceed(kept, fetched, 1); }
    var recorded := Recorded(fetched, 1, [1]);
    assert PartyStep(fetched, recorded, 1) by { assert Proceed(fetched, recorded, 1); }
    Extend(Step, INITIAL, trace, kept); trace := trace + [kept];
    Extend(Step, INITIAL, trace, fetched); trace := trace + [fetched];
    Extend(Step, INITIAL, trace, recorded); trace := trace + [recorded];
  }
}
