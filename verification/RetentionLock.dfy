/**
 * One run's raw log under its advisory lock: any number of sweepers retaining
 * it, any number of verify, recompute and ingest jobs reading it, sessions that
 * die, and others who start or stop needing the log without taking the lock.
 * One step is one call; a call that fails may have taken effect.
 */
module RetentionLock {
  import opened Bytes
  import opened Retention
  import opened Traces

  /** The next call of a sweeper retaining the run. */
  datatype Phase = Trying | Checking | DeletingAgent | DeletingLog | Stamping | Unlocking | Gone

  datatype Who = Retainer(p: nat) | Reader(r: nat)

  /** `readers` is whether the log was there when each reader took the lock. */
  datatype State = State(
    stored: Stored, owner: Option<Who>, retainers: map<nat, Phase>, readers: map<nat, bool>)

  predicate Inside(phase: Phase) { !phase.Trying? && !phase.Gone? }

  function At(s: State, p: nat, phase: Phase): State
  {
    s.(retainers := s.retainers[p := phase])
  }

  // ----- Steps -----

  predicate Begin(s: State, t: State, p: nat)
  {
    p !in s.retainers && t == At(s, p, Trying)
  }

  /** One call of a retainer. Nothing it does after its re-check depends on still holding the lock. */
  predicate Retain(s: State, t: State, p: nat)
  {
    p in s.retainers &&
    var unlocking := At(s, p, Unlocking);
    match s.retainers[p]
    case Trying => t == At(s, p, Gone) || (s.owner.None? && t == At(s, p, Checking).(owner := Some(Retainer(p))))
    case Checking =>
      t == unlocking || (Due(s.stored) && t == At(s, p, if s.stored.agentKey then DeletingAgent else DeletingLog))
    case DeletingAgent =>
      var deleted := s.stored.(agent := false);
      t == unlocking || t == unlocking.(stored := deleted) || t == At(s, p, DeletingLog).(stored := deleted)
    case DeletingLog =>
      var deleted := s.stored.(log := false);
      t == unlocking || t == unlocking.(stored := deleted) || t == At(s, p, Stamping).(stored := deleted)
    case Stamping => t == unlocking || t == unlocking.(stored := s.stored.(stamped := true))
    case Unlocking => t == At(s, p, Gone).(owner := if s.owner == Some(Retainer(p)) then None else s.owner)
    case Gone => false
  }

  predicate Take(s: State, t: State, r: nat)
  {
    s.owner.None? && r !in s.readers && t == s.(owner := Some(Reader(r)), readers := s.readers[r := s.stored.log])
  }

  predicate Leave(s: State, t: State, r: nat)
  {
    s.owner == Some(Reader(r)) && t == s.(owner := None)
  }

  /** A verify scan, a version bump, a settled verification: nobody takes the lock for these. */
  ghost predicate NeedsChange(s: State, t: State)
  {
    exists needed :: t == s.(stored := s.stored.(needed := needed))
  }

  /** The session holding the lock dies; its process does not notice. */
  predicate Lose(s: State, t: State)
  {
    s.owner.Some? && t == s.(owner := None)
  }

  ghost predicate Orderly(s: State, t: State)
  {
    || (exists p :: Begin(s, t, p) || Retain(s, t, p))
    || (exists r :: Take(s, t, r) || Leave(s, t, r))
    || NeedsChange(s, t)
  }

  ghost predicate Step(s: State, t: State) { Orderly(s, t) || Lose(s, t) }

  // ----- What the objects keep, sessions dying or not -----

  ghost predicate Objects(s: State)
  {
    && Consistent(s.stored)
    && forall p :: p in s.retainers && s.retainers[p] in {DeletingLog, Stamping} ==>
         !s.stored.agent && (s.retainers[p].Stamping? ==> !s.stored.log)
  }

  lemma RetainKeepsObjects(s: State, t: State, p: nat)
    requires Objects(s) && Retain(s, t, p)
    ensures Objects(t)
  {
  }

  /**
   * A log goes only after its agent file, and a stamp comes only once both are
   * gone, even when locks are lost and retainers overlap.
   */
  lemma StepKeepsObjects(s: State, t: State)
    requires Objects(s) && Step(s, t)
    ensures Objects(t)
    ensures s.stored.log && !t.stored.log ==> !s.stored.agent
    ensures !s.stored.stamped && t.stored.stamped ==> !s.stored.log && !s.stored.agent
  {
    if p :| Retain(s, t, p) { RetainKeepsObjects(s, t, p); }
  }

  // ----- What the lock keeps, and which lost session it does not survive -----

  /** Whether a run like this can ever be due: `needed` comes and goes, the rest only rules it out. */
  predicate Retainable(stored: Stored) { stored.ripe && !stored.stamped && (stored.assembled || stored.agentKey) }

  /** A retainer that may yet delete the log. */
  predicate Deleting(s: State, p: nat)
  {
    p in s.retainers && s.stored.log &&
    (s.retainers[p].DeletingAgent? || s.retainers[p].DeletingLog? || (s.retainers[p].Checking? && Retainable(s.stored)))
  }

  /** Every retainer that may delete the log holds the lock, and the log a reader found is there while it reads. */
  ghost predicate Guarded(s: State)
  {
    && (forall p :: Deleting(s, p) ==> s.owner == Some(Retainer(p)))
    && (forall r :: s.owner == Some(Reader(r)) ==> r in s.readers && (s.readers[r] ==> s.stored.log))
  }

  /** A log that a reader found when it took the lock, gone while it holds it. */
  predicate Vanished(s: State)
  {
    && s.owner.Some? && s.owner.value.Reader?
    && s.owner.value.r in s.readers && s.readers[s.owner.value.r] && !s.stored.log
  }

  /** The session that dies is that of a retainer that may yet delete the log. */
  predicate Harmful(s: State) { s.owner.Some? && s.owner.value.Retainer? && Deleting(s, s.owner.value.p) }

  /** A retainer between taking the lock and unlocking it. */
  predicate Working(phase: Phase) { Inside(phase) && !phase.Unlocking? }

  /** What one call of a retainer moves. */
  lemma RetainMoves(s: State, t: State, p: nat)
    requires Retain(s, t, p)
    ensures p in s.retainers && p in t.retainers && t.retainers == s.retainers[p := t.retainers[p]]
    ensures t.readers == s.readers
    ensures t.owner == s.owner || (s.owner == None && s.retainers[p].Trying? && t.owner == Some(Retainer(p)))
            || (s.owner == Some(Retainer(p)) && s.retainers[p].Unlocking? && t.owner == None && t.retainers[p].Gone?)
    ensures Working(t.retainers[p]) ==> Working(s.retainers[p]) || t.owner == Some(Retainer(p))
    ensures t.stored.log == s.stored.log || (s.retainers[p].DeletingLog? && !t.stored.log)
    ensures Retainable(t.stored) ==> Retainable(s.stored)
    ensures Deleting(t, p) ==> Deleting(s, p) || t.owner == Some(Retainer(p))
  {
  }

  lemma RetainKeepsGuarded(s: State, t: State, p: nat)
    requires Guarded(s) && Retain(s, t, p)
    ensures Guarded(t)
  {
    RetainMoves(s, t, p);
    forall q | Deleting(t, q) ensures t.owner == Some(Retainer(q)) {
      if q != p { assert t.retainers[q] == s.retainers[q] && Deleting(s, q); }
    }
    assert s.stored.log && !t.stored.log ==> Deleting(s, p);
  }

  lemma StepKeepsGuarded(s: State, t: State)
    requires Guarded(s) && Step(s, t) && !(Lose(s, t) && Harmful(s))
    ensures Guarded(t)
  {
    if p :| Retain(s, t, p) {
      RetainKeepsGuarded(s, t, p);
    } else {
      forall q | Deleting(t, q) ensures t.owner == Some(Retainer(q)) { assert Deleting(s, q); }
    }
  }

  // ----- Runs -----

  ghost predicate Initial(s: State)
  {
    s.owner == None && s.retainers == map[] && s.readers == map[] && !s.stored.stamped && Consistent(s.stored)
  }

  ghost predicate IsRun(trace: seq<State>) { trace != [] && Initial(trace[0]) && RunsFrom(Step, trace[0], trace) }

  /** Step `i` kills the session of a retainer that may yet delete the log. */
  ghost predicate HarmsAt(trace: seq<State>, i: nat)
    requires i + 1 < |trace|
  {
    Lose(trace[i], trace[i + 1]) && Harmful(trace[i])
  }

  ghost predicate Unharmed(trace: seq<State>) { forall i: nat :: i + 1 < |trace| ==> !HarmsAt(trace, i) }

  lemma RunKeepsObjects(trace: seq<State>, i: nat)
    requires IsRun(trace) && i < |trace|
    ensures Objects(trace[i])
  {
    forall a, b ensures Preserves(Step, Objects, a, b) { if Objects(a) && Step(a, b) { StepKeepsObjects(a, b); } }
    InvariantHolds(Step, trace[0], trace, Objects, i);
  }

  /** In every run, of every kind of run that can be due: stamped means nothing is left. */
  lemma StampMeansGone(trace: seq<State>, i: nat)
    requires IsRun(trace) && i < |trace|
    ensures trace[i].stored.stamped ==> !trace[i].stored.log && !trace[i].stored.agent
  {
    RunKeepsObjects(trace, i);
  }

  /** In every run no log goes before its agent file. */
  lemma AgentFileGoesFirst(trace: seq<State>, i: nat)
    requires IsRun(trace) && i + 1 < |trace| && trace[i].stored.log && !trace[i + 1].stored.log
    ensures !trace[i].stored.agent
  {
    RunKeepsObjects(trace, i);
    assert StepAt(Step, trace, i);
    StepKeepsObjects(trace[i], trace[i + 1]);
  }

  lemma {:induction false} RunStaysGuarded(s: State, trace: seq<State>, i: nat)
    requires Guarded(s) && RunsFrom(Step, s, trace) && Unharmed(trace) && i < |trace|
    ensures Guarded(trace[i])
  {
    if i > 0 {
      RunStaysGuarded(s, trace, i - 1);
      assert StepAt(Step, trace, i - 1) && !HarmsAt(trace, i - 1);
      StepKeepsGuarded(trace[i - 1], trace[i]);
    }
  }

  /**
   * Over every run, readers' sessions dying or not: a log there when a reader
   * took the lock is there for as long as it holds it, if no session dies of a
   * retainer that may yet delete the log.
   */
  lemma NoLogVanishes(trace: seq<State>, i: nat)
    requires IsRun(trace) && Unharmed(trace) && i < |trace|
    ensures !Vanished(trace[i])
  {
    RunStaysGuarded(trace[0], trace, i);
  }

  lemma PrependUnharmed(s: State, t: State, rest: seq<State>)
    requires Step(s, t) && RunsFrom(Step, t, rest)
    ensures RunsFrom(Step, s, [s] + rest) && ([s] + rest)[|rest|] == rest[|rest| - 1]
    ensures !Lose(s, t) && Unharmed(rest) ==> Unharmed([s] + rest)
  {
    var trace := [s] + rest;
    StepFirst(Step, s, t, rest);
    if !Lose(s, t) && Unharmed(rest) {
      forall i: nat | i + 1 < |trace| ensures !HarmsAt(trace, i) {
        if i > 0 { assert !HarmsAt(rest, i - 1); }
      }
    }
  }

  /** A retainer without the lock, under a reader that found the log, goes on to delete it. */
  lemma OrphanDeletes(s: State, p: nat) returns (trace: seq<State>)
    requires Deleting(s, p) && s.owner.Some? && s.owner.value.Reader?
    requires s.owner.value.r in s.readers && s.readers[s.owner.value.r]
    ensures RunsFrom(Step, s, trace) && Unharmed(trace) && Vanished(trace[|trace| - 1])
    decreases match s.retainers[p] case Checking => if s.stored.needed then 3 else 2 case DeletingAgent => 1 case _ => 0
  {
    var t: State;
    if s.retainers[p].DeletingLog? {
      t := At(s, p, Stamping).(stored := s.stored.(log := false));
      assert Retain(s, t, p);
      trace := [s, t];
    } else {
      if s.retainers[p].DeletingAgent? {
        t := At(s, p, DeletingLog).(stored := s.stored.(agent := false));
        assert Retain(s, t, p);
      } else if s.stored.needed {
        t := s.(stored := s.stored.(needed := false));
        assert NeedsChange(s, t);
      } else {
        t := At(s, p, if s.stored.agentKey then DeletingAgent else DeletingLog);
        assert Retain(s, t, p);
      }
      var rest := OrphanDeletes(t, p);
      PrependUnharmed(s, t, rest);
      trace := [s] + rest;
    }
  }

  /**
   * Which lost session does harm: from a state that was guarded until it died,
   * a log can vanish under a reader, no other such session dying, exactly when
   * it was that of a retainer that may yet delete the log.
   */
  lemma LossHarmsIff(s: State, t: State)
    requires Guarded(s) && Lose(s, t)
    ensures Harmful(s) <==>
            (exists trace: seq<State> :: RunsFrom(Step, t, trace) && Unharmed(trace) && Vanished(trace[|trace| - 1]))
  {
    if Harmful(s) {
      var p := s.owner.value.p;
      var r := FreshKey(t.readers);
      var u := t.(owner := Some(Reader(r)), readers := t.readers[r := true]);
      assert Take(t, u, r);
      var rest := OrphanDeletes(u, p);
      PrependUnharmed(t, u, rest);
      assert RunsFrom(Step, t, [t] + rest) && Unharmed([t] + rest) && Vanished(([t] + rest)[|rest|]);
    } else {
      StepKeepsGuarded(s, t);
      forall trace: seq<State> | RunsFrom(Step, t, trace) && Unharmed(trace) ensures !Vanished(trace[|trace| - 1]) {
        RunStaysGuarded(t, trace, |trace| - 1);
      }
    }
  }

  // ----- Deletes under the lock -----

  ghost predicate Locked(s: State)
  {
    forall p :: p in s.retainers && Working(s.retainers[p]) ==> s.owner == Some(Retainer(p))
  }

  /** Step `i` kills the session of a retainer at work. */
  ghost predicate KillsAt(trace: seq<State>, i: nat)
    requires i + 1 < |trace|
  {
    && Lose(trace[i], trace[i + 1]) && trace[i].owner.value.Retainer?
    && trace[i].owner.value.p in trace[i].retainers && Working(trace[i].retainers[trace[i].owner.value.p])
  }

  /** Every other step leaves the retainers where they are, but for one that begins. */
  lemma OthersMoveNoRetainer(s: State, t: State)
    requires Step(s, t) && forall p :: !Retain(s, t, p)
    ensures forall q :: q in t.retainers && Working(t.retainers[q]) ==> q in s.retainers && Working(s.retainers[q])
    ensures s.owner.Some? && s.owner.value.Retainer? ==> t.owner == s.owner || Lose(s, t)
  {
  }

  lemma StepKeepsLocked(s: State, t: State)
    requires Locked(s) && Step(s, t)
    requires Lose(s, t) ==>
               !(s.owner.value.Retainer? && s.owner.value.p in s.retainers && Working(s.retainers[s.owner.value.p]))
    ensures Locked(t)
  {
    if p :| Retain(s, t, p) {
      RetainMoves(s, t, p);
      forall q | q in t.retainers && Working(t.retainers[q]) ensures t.owner == Some(Retainer(q)) {
        if q != p { assert t.retainers[q] == s.retainers[q]; }
      }
    } else {
      OthersMoveNoRetainer(s, t);
    }
  }

  lemma {:induction false} RunStaysLocked(trace: seq<State>, i: nat)
    requires IsRun(trace) && i < |trace| && forall j: nat :: j + 1 < |trace| ==> !KillsAt(trace, j)
    ensures Locked(trace[i])
  {
    if i > 0 {
      RunStaysLocked(trace, i - 1);
      assert StepAt(Step, trace, i - 1) && !KillsAt(trace, i - 1);
      StepKeepsLocked(trace[i - 1], trace[i]);
    }
  }

  /** While no retainer's session dies at work, only the retainer holding the lock changes what is stored. */
  lemma DeletesUnderLock(trace: seq<State>, i: nat)
    requires IsRun(trace) && i + 1 < |trace| && forall j: nat :: j + 1 < |trace| ==> !KillsAt(trace, j)
    requires trace[i + 1].stored != trace[i].stored.(needed := trace[i + 1].stored.needed)
    ensures exists p :: trace[i].owner == Some(Retainer(p)) && Retain(trace[i], trace[i + 1], p)
  {
    RunStaysLocked(trace, i);
    assert StepAt(Step, trace, i);
    var p :| Retain(trace[i], trace[i + 1], p);
  }

  // ----- What retention may touch -----

  /** Past its re-check, with a delete or the stamp still to make. */
  predicate Committed(phase: Phase) { phase.DeletingAgent? || phase.DeletingLog? || phase.Stamping? }

  /** At step `j` retainer `p` is re-checking a run that is ripe, unstamped, not needed, and has something to delete. */
  ghost predicate PassesAt(trace: seq<State>, p: nat, j: nat)
  {
    j + 1 < |trace| && Commits(trace[j], trace[j + 1], p)
  }

  /** A retainer that commits itself has just found the run due. */
  ghost predicate Commits(s: State, t: State, p: nat)
  {
    && p in s.retainers && s.retainers[p].Checking? && Retain(s, t, p)
    && s.stored.ripe && !s.stored.stamped && !s.stored.needed && (s.stored.assembled || s.stored.agentKey)
  }

  lemma RetainCommits(s: State, t: State, q: nat, p: nat)
    requires Retain(s, t, q) && p in t.retainers && Committed(t.retainers[p])
    ensures p in s.retainers && (Committed(s.retainers[p]) || Commits(s, t, p))
  {
    RetainMoves(s, t, q);
    if p == q { assert s.retainers[p].Checking? || Committed(s.retainers[p]); }
  }

  lemma OthersCommitNone(s: State, t: State, p: nat)
    requires Step(s, t) && (forall q :: !Retain(s, t, q)) && p in t.retainers && Committed(t.retainers[p])
    ensures p in s.retainers && Committed(s.retainers[p])
  {
  }

  lemma StepCommits(s: State, t: State, p: nat)
    requires Step(s, t) && p in t.retainers && Committed(t.retainers[p])
    ensures p in s.retainers && (Committed(s.retainers[p]) || Commits(s, t, p))
  {
    if q :| Retain(s, t, q) { RetainCommits(s, t, q, p); } else { OthersCommitNone(s, t, p); }
  }

  lemma {:induction false} CommittedPassed(trace: seq<State>, i: nat, p: nat)
    requires IsRun(trace) && i < |trace| && p in trace[i].retainers && Committed(trace[i].retainers[p])
    ensures exists j: nat :: j < i && PassesAt(trace, p, j)
  {
    assert i > 0;
    assert StepAt(Step, trace, i - 1);
    StepCommits(trace[i - 1], trace[i], p);
    if Committed(trace[i - 1].retainers[p]) {
      CommittedPassed(trace, i - 1, p);
    } else {
      assert PassesAt(trace, p, i - 1);
    }
  }

  /** A step that touches what is stored is one of a retainer past its re-check. */
  lemma ChangeIsCommitted(s: State, t: State) returns (p: nat)
    requires Step(s, t) && t.stored != s.stored.(needed := t.stored.needed)
    ensures Retain(s, t, p) && Committed(s.retainers[p])
  {
    p :| Retain(s, t, p);
  }

  /**
   * In every run, sessions dying or not: whoever touches the log, the agent
   * file or the stamp has re-checked the run before, and found it ripe,
   * unstamped, with something to delete, and needed by nobody.
   */
  lemma OnlyDueRunsAreTouched(trace: seq<State>, i: nat)
    requires IsRun(trace) && i + 1 < |trace|
    requires trace[i + 1].stored != trace[i].stored.(needed := trace[i + 1].stored.needed)
    ensures exists p, j: nat :: j < i && Retain(trace[i], trace[i + 1], p) && PassesAt(trace, p, j)
  {
    assert StepAt(Step, trace, i);
    var p := ChangeIsCommitted(trace[i], trace[i + 1]);
    CommittedPassed(trace, i, p);
  }

  /** So over a run in which the log is needed throughout, or which is never ripe, nothing stored is touched. */
  lemma {:induction false} NeededLogStays(trace: seq<State>, i: nat)
    requires IsRun(trace) && i < |trace|
    requires forall j :: 0 <= j < |trace| ==> trace[j].stored.needed || !trace[j].stored.ripe
    ensures trace[i].stored == trace[0].stored.(needed := trace[i].stored.needed)
  {
    if i > 0 {
      NeededLogStays(trace, i - 1);
      if trace[i].stored != trace[i - 1].stored.(needed := trace[i].stored.needed) {
        OnlyDueRunsAreTouched(trace, i - 1);
        assert false;
      }
    }
  }

  /** A run in which a session dies between the re-check and the delete, and a verify job's log vanishes. */
  lemma LostSessionLosesALog() returns (trace: seq<State>)
    ensures IsRun(trace) && Vanished(trace[|trace| - 1])
  {
    var stored := Stored(true, true, false, true, false, false, false);
    var s0 := State(stored, None, map[], map[]);
    var s1 := At(s0, 0, Trying);
    var s2 := At(s1, 0, Checking).(owner := Some(Retainer(0)));
    var s3 := At(s2, 0, DeletingLog);
    var s4 := s3.(owner := None);
    var s5 := s4.(owner := Some(Reader(0)), readers := map[0 := true]);
    var s6 := At(s5, 0, Stamping).(stored := stored.(log := false));
    assert Begin(s0, s1, 0) && Retain(s1, s2, 0) && Retain(s2, s3, 0);
    assert Lose(s3, s4) && Take(s4, s5, 0) && Retain(s5, s6, 0);
    trace := [s0];
    Extend(Step, s0, trace, s1); trace := trace + [s1];
    Extend(Step, s0, trace, s2); trace := trace + [s2];
    Extend(Step, s0, trace, s3); trace := trace + [s3];
    Extend(Step, s0, trace, s4); trace := trace + [s4];
    Extend(Step, s0, trace, s5); trace := trace + [s5];
    Extend(Step, s0, trace, s6); trace := trace + [s6];
  }
}
