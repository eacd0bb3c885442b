/**
 * Cumulative counter sources that may be absent, not ready yet, or failing
 * (agent/internal/collect/collect.go): when a tick is skipped, when a source is
 * given up on and zero-filled, and what the emitted samples can then show.
 */
module Collect {
  import opened Bytes

  const DEGRADE_AFTER: nat := 3

  /** What one source remembers. */
  datatype Source = Source(everSucceeded: bool, failures: nat)

  const FRESH := Source(false, 0)

  /** What a read of a source comes to: a real value, zero-filled, or the whole tick skipped. */
  datatype Outcome = Real | Zero | Skip

  function After(s: Source, succeeded: bool): (r: (Source, Outcome))
  {
    if succeeded then (Source(true, 0), Real)
    else if s.everSucceeded then (s, Skip)
    else (Source(false, s.failures + 1), if s.failures + 1 >= DEGRADE_AFTER then Zero else Skip)
  }

  class CounterSource {
    var everSucceeded: bool
    var consecutiveFailures: nat

    constructor ()
      ensures Value() == FRESH
    {
      everSucceeded, consecutiveFailures := false, 0;
    }

    function Value(): Source
      reads this
    {
      Source(everSucceeded, consecutiveFailures)
    }

    method RecordSuccess()
      modifies this
      ensures Value() == After(old(Value()), true).0
    {
      everSucceeded, consecutiveFailures := true, 0;
    }

    method ShouldDegrade() returns (degrade: bool)
      modifies this
      ensures Value() == After(old(Value()), false).0
      ensures degrade <==> After(old(Value()), false).1.Zero?
    {
      if everSucceeded { return false; }
      consecutiveFailures := consecutiveFailures + 1;
      degrade := consecutiveFailures >= DEGRADE_AFTER;
    }
  }

  /** Which reads of one tick succeed; `host` is CPU times and memory together. */
  datatype Tick = Tick(host: bool, io: bool, proto: bool)

  /** Of each source in an emitted sample, whether its value is real rather than zero-filled. */
  datatype Sample = Sample(io: bool, proto: bool)

  datatype State = State(io: Source, proto: Source)

  const START := State(FRESH, FRESH)

  /** One call of `Sample`. A failed bandwidth read that skips the tick leaves the protocol counters unread. */
  function Step(s: State, tick: Tick): (r: (State, Option<Sample>))
  {
    if !tick.host then (s, None)
    else
      var (io, first) := After(s.io, tick.io);
      if first.Skip? then (State(io, s.proto), None)
      else
        var (proto, second) := After(s.proto, tick.proto);
        (State(io, proto), if second.Skip? then None else Some(Sample(first.Real?, second.Real?)))
  }

  class Collector {
    const io: CounterSource
    const proto: CounterSource
    var protoUnavailable: bool

    constructor ()
      ensures fresh(io) && fresh(proto) && io != proto && Value() == START && !protoUnavailable
    {
      io := new CounterSource();
      proto := new CounterSource();
      protoUnavailable := false;
    }

    function Value(): State
      reads io, proto
    {
      State(io.Value(), proto.Value())
    }

    method Read(tick: Tick) returns (sample: Option<Sample>)
      requires io != proto
      modifies this, io, proto
      ensures (Value(), sample) == Step(old(Value()), tick)
      ensures protoUnavailable == (old(protoUnavailable) || (sample.Some? && !sample.value.proto))
    {
      if !tick.host { return None; }
      var ioReal := tick.io;
      if tick.io {
        io.RecordSuccess();
      } else {
        var degrade := io.ShouldDegrade();
        if !degrade { return None; }
      }
      if tick.proto {
        proto.RecordSuccess();
        return Some(Sample(ioReal, true));
      }
      var degrade := proto.ShouldDegrade();
      if !degrade { return None; }
      protoUnavailable := true;
      sample := Some(Sample(ioReal, false));
    }
  }

  // ----- Whole runs -----

  /** The state and the samples after each of these ticks. */
  function StateAfter(ticks: seq<Tick>): State
  {
    if ticks == [] then START else Step(StateAfter(ticks[..|ticks| - 1]), ticks[|ticks| - 1]).0
  }

  /** What tick `i` emits. */
  function Emitted(ticks: seq<Tick>, i: nat): Option<Sample>
    requires i < |ticks|
  {
    Step(StateAfter(ticks[..i]), ticks[i]).1
  }

  lemma {:induction false} SucceededStays(ticks: seq<Tick>, i: nat, j: nat)
    requires i <= j <= |ticks|
    ensures StateAfter(ticks[..i]).io.everSucceeded ==> StateAfter(ticks[..j]).io.everSucceeded
    ensures StateAfter(ticks[..i]).proto.everSucceeded ==> StateAfter(ticks[..j]).proto.everSucceeded
    decreases j
  {
    if i < j {
      SucceededStays(ticks, i, j - 1);
      assert ticks[..j][..j - 1] == ticks[..j - 1];
    }
  }

  /** A source that has been real in a sample is never zero-filled in a later one. */
  lemma RealStaysReal(ticks: seq<Tick>, i: nat, j: nat)
    requires i <= j < |ticks| && Emitted(ticks, i).Some? && Emitted(ticks, j).Some?
    ensures Emitted(ticks, i).value.io ==> Emitted(ticks, j).value.io
    ensures Emitted(ticks, i).value.proto ==> Emitted(ticks, j).value.proto
  {
    assert ticks[..i + 1][..i] == ticks[..i];
    if i < j { SucceededStays(ticks, i + 1, j); }
  }

  /** How many times each source has been read, and failed. */
  function IoFailures(ticks: seq<Tick>): nat
  {
    if ticks == [] then 0
    else
      var last := ticks[|ticks| - 1];
      IoFailures(ticks[..|ticks| - 1]) + (if last.host && !last.io then 1 else 0)
  }

  function ProtoFailures(ticks: seq<Tick>): nat
  {
    if ticks == [] then 0
    else
      var last := ticks[|ticks| - 1];
      var read := last.host && !After(StateAfter(ticks[..|ticks| - 1]).io, last.io).1.Skip?;
      ProtoFailures(ticks[..|ticks| - 1]) + (if read && !last.proto then 1 else 0)
  }

  lemma {:induction false} FailuresCounted(ticks: seq<Tick>)
    ensures StateAfter(ticks).io.failures <= IoFailures(ticks)
              && StateAfter(ticks).proto.failures <= ProtoFailures(ticks)
  {
    if ticks != [] { FailuresCounted(ticks[..|ticks| - 1]); }
  }

  /** A source is zero-filled only after three failed reads of it, and never once it has succeeded. */
  lemma ZeroIsEarned(ticks: seq<Tick>, i: nat)
    requires i < |ticks| && Emitted(ticks, i).Some?
    ensures !Emitted(ticks, i).value.io ==>
              IoFailures(ticks[..i + 1]) >= DEGRADE_AFTER && !StateAfter(ticks[..i + 1]).io.everSucceeded
    ensures !Emitted(ticks, i).value.proto ==>
              ProtoFailures(ticks[..i + 1]) >= DEGRADE_AFTER && !StateAfter(ticks[..i + 1]).proto.everSucceeded
  {
    assert ticks[..i + 1][..i] == ticks[..i];
    FailuresCounted(ticks[..i + 1]);
  }

  // ----- Sources that are simply there or not -----

  ghost predicate Always(ticks: seq<Tick>, io: bool, proto: bool)
  {
    forall i :: 0 <= i < |ticks| ==> ticks[i] == Tick(true, io, proto)
  }

  /** Ticks it costs, at the start, to give up on the absent ones. */
  function Skipped(io: bool, proto: bool): nat
  {
    (if io then 0 else DEGRADE_AFTER - 1) + (if proto then 0 else DEGRADE_AFTER - 1)
  }

  lemma {:induction false} AlwaysState(ticks: seq<Tick>, io: bool, proto: bool)
    requires Always(ticks, io, proto)
    ensures var n, lag := |ticks|, if io then 0 else DEGRADE_AFTER - 1;
      StateAfter(ticks) == State(if io then Source(n > 0, 0) else Source(false, n),
                                 if proto then Source(n > lag, 0) else Source(false, if n < lag then 0 else n - lag))
  {
    if ticks != [] { AlwaysState(ticks[..|ticks| - 1], io, proto); }
  }

  /**
   * With CPU and memory readable and each source always there or never, exactly
   * the first ticks are skipped: none, two for one absent source, four for
   * both, because the second is not read until the first has been given up on.
   */
  lemma SkipsExactly(ticks: seq<Tick>, io: bool, proto: bool, i: nat)
    requires Always(ticks, io, proto) && i < |ticks|
    ensures Emitted(ticks, i) == if i < Skipped(io, proto) then None else Some(Sample(io, proto))
  {
    AlwaysState(ticks[..i], io, proto);
  }

  // ----- When a zero-filled sample is followed by a real one -----

  /** The outcomes of reading one source with these results. */
  function Outcomes(s: Source, results: seq<bool>): (outcomes: seq<Outcome>)
    ensures |outcomes| == |results|
    decreases |results|
  {
    if results == [] then []
    else
      var (next, outcome) := After(s, results[0]);
      [outcome] + Outcomes(next, results[1..])
  }

  ghost predicate Jumps(outcomes: seq<Outcome>)
  {
    exists i, j :: 0 <= i < j < |outcomes| && outcomes[i].Zero? && outcomes[j].Real?
  }

  lemma {:induction false} OutcomeOf(s: Source, results: seq<bool>, k: nat)
    requires k < |results| && (s.everSucceeded ==> s.failures == 0)
    ensures var o := Outcomes(s, results)[k];
      && (results[k] <==> o.Real?)
      && (o.Zero? <==>
            && !s.everSucceeded && s.failures + k + 1 >= DEGRADE_AFTER
            && forall j :: 0 <= j <= k ==> !results[j])
    decreases k
  {
    if k > 0 {
      OutcomeOf(After(s, results[0]).0, results[1..], k - 1);
      assert results[1..][k - 1] == results[k];
      if forall j :: 0 <= j <= k - 1 ==> !results[1..][j] {
        forall j | 0 <= j <= k && results[0] == false ensures !results[j] { if j > 0 { assert !results[1..][j - 1]; } }
      } else {
        var j :| 0 <= j <= k - 1 && results[1..][j];
        assert results[j + 1];
      }
    }
  }

  /**
   * Giving up is not always safe: a source is drawn jumping from zero to its
   * since-boot total exactly when its first three reads fail and a later one
   * succeeds.
   */
  lemma JumpsIff(results: seq<bool>)
    ensures Jumps(Outcomes(FRESH, results)) <==>
            |results| > DEGRADE_AFTER && !results[0] && !results[1] && !results[2]
            && exists k :: DEGRADE_AFTER <= k < |results| && results[k]
  {
    var outcomes := Outcomes(FRESH, results);
    forall k | 0 <= k < |results| ensures (results[k] <==> outcomes[k].Real?) {
      OutcomeOf(FRESH, results, k);
    }
    if |results| > 2 { OutcomeOf(FRESH, results, 2); }
    if i, j :| 0 <= i < j < |outcomes| && outcomes[i].Zero? && outcomes[j].Real? {
      OutcomeOf(FRESH, results, i);
      assert i >= 2 && results[j];
    }
    if |results| > DEGRADE_AFTER && !results[0] && !results[1] && !results[2] {
      if k :| DEGRADE_AFTER <= k < |results| && results[k] {
        assert outcomes[2].Zero? && outcomes[k].Real?;
      }
    }
  }

  /** Where one source's reading gets to. */
  function SourceAfter(s: Source, results: seq<bool>): Source
  {
    if results == [] then s else After(SourceAfter(s, results[..|results| - 1]), results[|results| - 1]).0
  }

  lemma {:induction false} OutcomeAt(s: Source, results: seq<bool>, k: nat)
    requires k < |results|
    ensures Outcomes(s, results)[k] == After(SourceAfter(s, results[..k]), results[k]).1
    decreases k
  {
    if k > 0 {
      OutcomeAt(After(s, results[0]).0, results[1..], k - 1);
      SourceShift(s, results[..k]);
      assert results[..k][1..] == results[1..][..k - 1];
    }
  }

  lemma {:induction false} SourceShift(s: Source, results: seq<bool>)
    requires results != []
    ensures SourceAfter(s, results) == SourceAfter(After(s, results[0]).0, results[1..])
  {
    var n := |results| - 1;
    if n > 0 {
      SourceShift(s, results[..n]);
      assert results[..n][1..] == results[1..][..n - 1] && results[..n][0] == results[0];
    } else {
      assert results[..0] == [] && results[1..] == [];
    }
  }

  /** The results of reading bandwidth: at every tick whose CPU times and memory were read. */
  function IoReads(ticks: seq<Tick>): (results: seq<bool>)
  {
    if ticks == [] then []
    else
      var last := ticks[|ticks| - 1];
      IoReads(ticks[..|ticks| - 1]) + (if last.host then [last.io] else [])
  }

  /** What the last of some reads of a source comes to. */
  function LastOutcome(results: seq<bool>): Outcome
    requires results != []
  {
    Outcomes(FRESH, results)[|results| - 1]
  }

  /** And the protocol counters: at every such tick that the bandwidth read did not skip. */
  function ProtoReads(ticks: seq<Tick>): (results: seq<bool>)
  {
    if ticks == [] then []
    else
      var last := ticks[|ticks| - 1];
      ProtoReads(ticks[..|ticks| - 1])
      + (if last.host && !LastOutcome(IoReads(ticks)).Skip? then [last.proto] else [])
  }

  lemma LastIs(results: seq<bool>, last: bool)
    ensures LastOutcome(results + [last]) == After(SourceAfter(FRESH, results), last).1
    ensures SourceAfter(FRESH, results + [last]) == After(SourceAfter(FRESH, results), last).0
  {
    OutcomeAt(FRESH, results + [last], |results|);
    assert (results + [last])[..|results|] == results;
  }

  lemma {:induction false} ReadsAreTheState(ticks: seq<Tick>)
    ensures StateAfter(ticks) == State(SourceAfter(FRESH, IoReads(ticks)), SourceAfter(FRESH, ProtoReads(ticks)))
  {
    if ticks != [] {
      var before, last := ticks[..|ticks| - 1], ticks[|ticks| - 1];
      ReadsAreTheState(before);
      LastIs(IoReads(before), last.io);
      LastIs(ProtoReads(before), last.proto);
      EmptyThen([], IoReads(before));
      EmptyThen([], ProtoReads(before));
    }
  }

  /**
   * What a sample shows of each source is what its latest read came to: real or
   * zero-filled. There is none when a read was skipped, or CPU or memory failed.
   */
  lemma SamplesShowOutcomes(ticks: seq<Tick>, i: nat)
    requires i < |ticks|
    ensures var upTo := ticks[..i + 1];
      Emitted(ticks, i) ==
        if !ticks[i].host || LastOutcome(IoReads(upTo)).Skip? || LastOutcome(ProtoReads(upTo)).Skip? then None
        else Some(Sample(LastOutcome(IoReads(upTo)).Real?, LastOutcome(ProtoReads(upTo)).Real?))
  {
    var before, upTo := ticks[..i], ticks[..i + 1];
    assert upTo[..i] == before && upTo[i] == ticks[i];
    ReadsAreTheState(before);
    LastIs(IoReads(before), ticks[i].io);
    LastIs(ProtoReads(before), ticks[i].proto);
  }
}
