/**
 * The database clients one sweeper checks out, however its firings overlap and
 * whatever call fails (apps/worker/src/sweeper.ts, apps/worker/src/held-client.ts).
 * One step is one await. `out` is what a firing has checked out, kept apart from
 * where it stands.
 */
module SweeperClients {
  import opened Bytes
  import opened Traces

  /** The sweeper's share of the pool (apps/worker/src/main.ts). */
  const SWEEPER_CLIENTS := 2

  /** What became of a client handed back. */
  datatype Fate = Reused | Destroyed

  /**
   * Where a firing stands: before its guard; between clients; in a pool query
   * with none held, such as a page of the retention walk; holding a client, for
   * the recovery's transaction or one run's lock; in a pool query meanwhile; over.
   */
  datatype Phase = Waiting | Between | Paging | Holding | Querying | Over

  /** `held` is the client kept across calls, `query` the one a pool query has. */
  datatype Firing = Firing(phase: Phase, held: nat, query: nat, out: set<nat>)

  /**
   * `next` is the next client the pool will hand out, `released` what each came
   * back as. `spoilt` is every client whose connection raised an error while
   * held, or whose clean-up failed; `twice` is whether any was handed back again.
   */
  datatype State = State(
    sweeping: bool, firings: map<nat, Firing>, next: nat, released: map<nat, Fate>, lost: set<nat>, spoilt: set<nat>,
    twice: bool)

  const START := State(false, map[], 0, map[], {}, {}, false)

  function At(s: State, f: nat, firing: Firing): State { s.(firings := s.firings[f := firing]) }

  function Return(s: State, client: nat, fate: Fate): State
  {
    s.(released := s.released[client := fate], twice := s.twice || client in s.released)
  }

  // ----- Steps -----

  predicate Fire(s: State, t: State, f: nat) { f !in s.firings && t == At(s, f, Firing(Waiting, 0, 0, {})) }

  predicate In(s: State, f: nat, phase: Phase) { f in s.firings && s.firings[f].phase == phase }

  /** The guard: a firing that finds a sweep under way is over at once. */
  predicate Enter(s: State, t: State, f: nat)
  {
    In(s, f, Waiting) &&
    t == if s.sweeping then At(s, f, s.firings[f].(phase := Over))
         else At(s, f, s.firings[f].(phase := Between)).(sweeping := true)
  }

  /** `pool.connect`, for a client to be held. */
  predicate CheckOut(s: State, t: State, f: nat)
  {
    In(s, f, Between) &&
    var holding := s.firings[f].(phase := Holding, held := s.next, out := s.firings[f].out + {s.next});
    t == At(s, f, holding).(next := s.next + 1)
  }

  /** The held connection dies: `holdClient` remembers it. */
  predicate Lose(s: State, t: State, f: nat)
  {
    (In(s, f, Holding) || In(s, f, Querying)) &&
    t == s.(lost := s.lost + {s.firings[f].held}, spoilt := s.spoilt + {s.firings[f].held})
  }

  /** A `pool.query` begins, beside a held client or not. */
  predicate Query(s: State, t: State, f: nat)
  {
    (In(s, f, Holding) || In(s, f, Between)) &&
    var firing := s.firings[f];
    var phase := if firing.phase.Holding? then Querying else Paging;
    t == At(s, f, firing.(phase := phase, query := s.next, out := firing.out + {s.next})).(next := s.next + 1)
  }

  /** It ends, and the pool takes its client back as it sees fit. */
  predicate Answer(s: State, t: State, f: nat, fate: Fate)
  {
    (In(s, f, Querying) || In(s, f, Paging)) &&
    var firing := s.firings[f];
    var phase := if firing.phase.Querying? then Holding else Between;
    t == Return(At(s, f, firing.(phase := phase, out := firing.out - {firing.query})), firing.query, fate)
  }

  /** The `finally`: `broken` is a ROLLBACK or an unlock that failed; `release` destroys a lost client too. */
  predicate Release(s: State, t: State, f: nat, broken: bool)
  {
    In(s, f, Holding) &&
    var firing := s.firings[f];
    var fate := if broken || firing.held in s.lost then Destroyed else Reused;
    var back := Return(At(s, f, firing.(phase := Between, out := firing.out - {firing.held})), firing.held, fate);
    t == back.(spoilt := if broken then s.spoilt + {firing.held} else s.spoilt)
  }

  /** The sweep is done, or something threw: the flag is cleared either way. */
  predicate Leave(s: State, t: State, f: nat)
  {
    In(s, f, Between) && t == At(s, f, s.firings[f].(phase := Over)).(sweeping := false)
  }

  ghost predicate StepOf(s: State, t: State, f: nat)
  {
    || Fire(s, t, f) || Enter(s, t, f) || CheckOut(s, t, f) || Lose(s, t, f) || Query(s, t, f)
    || Answer(s, t, f, Reused) || Answer(s, t, f, Destroyed)
    || Release(s, t, f, true) || Release(s, t, f, false) || Leave(s, t, f)
  }

  ghost predicate Step(s: State, t: State) { exists f :: StepOf(s, t, f) }

  // ----- What every reachable state keeps -----

  predicate Inside(firing: Firing) { !firing.phase.Waiting? && !firing.phase.Over? }

  /** What a firing has out is what its place in the code says: at most the held client and one query's. */
  predicate OutFits(firing: Firing)
  {
    firing.out ==
      match firing.phase
      case Paging => {firing.query}
      case Holding => {firing.held}
      case Querying => {firing.held, firing.query}
      case _ => {}
  }

  ghost predicate IsOut(s: State, c: nat) { exists f :: f in s.firings && c in s.firings[f].out }

  /** One sweep at a time. */
  ghost predicate OneSweep(s: State)
  {
    && (forall f :: f in s.firings && Inside(s.firings[f]) ==> s.sweeping)
    && (forall f, g :: f in s.firings && g in s.firings && Inside(s.firings[f]) && Inside(s.firings[g]) ==> f == g)
  }

  /** A query's client is its own, and nothing has spoilt it. */
  predicate QueryFits(s: State, firing: Firing)
  {
    && (firing.phase.Querying? || firing.phase.Paging? ==> firing.query !in s.spoilt)
    && (firing.phase.Querying? ==> firing.query != firing.held)
  }

  ghost predicate Exclusive(s: State)
  {
    OneSweep(s) && forall f :: f in s.firings ==> OutFits(s.firings[f]) && QueryFits(s, s.firings[f])
  }

  /** Every client ever checked out is out or was handed back, once; the spoilt are not reused. */
  ghost predicate Accounted(s: State)
  {
    && !s.twice && s.lost <= s.spoilt
    && (forall c: nat :: IsOut(s, c) ==> c < s.next && c !in s.released)
    && (forall c: nat :: c in s.released ==> c < s.next)
    && (forall c: nat :: c < s.next ==> c in s.released || IsOut(s, c))
    && (forall c: nat :: c in s.spoilt ==> c < s.next && (c in s.released ==> s.released[c] == Destroyed))
    && (forall c: nat :: c in s.spoilt && c !in s.lost ==> c in s.released)
  }

  ghost predicate Inv(s: State) { Exclusive(s) && Accounted(s) }

  /** The one firing that moves. */
  lemma OnlyOneMoves(s: State, t: State, f: nat)
    requires StepOf(s, t, f)
    ensures forall g :: g in t.firings && g != f ==> g in s.firings && t.firings[g] == s.firings[g]
    ensures forall g :: g in s.firings ==> g in t.firings
    ensures f in t.firings && s.next <= t.next <= s.next + 1
  {
  }

  lemma OwnClients(s: State, f: nat)
    requires Inv(s) && f in s.firings
    ensures forall c :: c in s.firings[f].out ==> c < s.next && c !in s.released
  {
    forall c | c in s.firings[f].out ensures c < s.next && c !in s.released { assert IsOut(s, c); }
  }

  lemma StepKeepsOneSweep(s: State, t: State, f: nat)
    requires OneSweep(s) && StepOf(s, t, f)
    ensures OneSweep(t)
  {
    OnlyOneMoves(s, t, f);
  }

  lemma MoverFits(s: State, t: State, f: nat)
    requires Inv(s) && StepOf(s, t, f)
    ensures f in t.firings && OutFits(t.firings[f])
  {
    if f in s.firings {
      OwnClients(s, f);
      assert OutFits(s.firings[f]) && QueryFits(s, s.firings[f]);
    }
  }

  lemma MoverQueryFits(s: State, t: State, f: nat)
    requires Inv(s) && StepOf(s, t, f)
    ensures f in t.firings && QueryFits(t, t.firings[f])
  {
    if f in s.firings {
      OwnClients(s, f);
      assert OutFits(s.firings[f]) && QueryFits(s, s.firings[f]);
    }
  }

  /** The moving firing spoils a client of its own alone, and then no other has a query. */
  lemma OthersFit(s: State, t: State, f: nat, g: nat)
    requires Inv(s) && StepOf(s, t, f) && g in t.firings && g != f
    ensures OutFits(t.firings[g]) && QueryFits(t, t.firings[g])
  {
    OnlyOneMoves(s, t, f);
    assert OutFits(s.firings[g]) && QueryFits(s, s.firings[g]);
    if t.spoilt != s.spoilt { assert Inside(s.firings[f]); }
  }

  lemma StepKeepsExclusive(s: State, t: State, f: nat)
    requires Inv(s) && StepOf(s, t, f)
    ensures Exclusive(t)
  {
    StepKeepsOneSweep(s, t, f);
    MoverFits(s, t, f);
    MoverQueryFits(s, t, f);
    forall g | g in t.firings && g != f ensures OutFits(t.firings[g]) && QueryFits(t, t.firings[g]) {
      OthersFit(s, t, f, g);
    }
  }

  /** A firing that moves keeps the others' clients theirs. */
  lemma OutStays(s: State, t: State, f: nat, c: nat)
    requires StepOf(s, t, f)
    ensures IsOut(t, c) ==> IsOut(s, c) || (f in t.firings && c in t.firings[f].out)
    ensures IsOut(s, c) ==> IsOut(t, c) || (f in s.firings && c in s.firings[f].out)
  {
    OnlyOneMoves(s, t, f);
  }

  /** The clients the moving firing has after its step: it gains the pool's next and gives back what it releases. */
  lemma OwnChanges(s: State, t: State, f: nat, c: nat)
    requires Inv(s) && StepOf(s, t, f)
    ensures var was := if f in s.firings then s.firings[f].out else {};
      && f in t.firings
      && (c in t.firings[f].out && c !in was ==> c == s.next && t.next == s.next + 1)
      && (c < t.next && c >= s.next ==> c in t.firings[f].out)
  {
  }

  lemma GivesBack(s: State, t: State, f: nat, c: nat)
    requires Inv(s) && StepOf(s, t, f)
    ensures var was := if f in s.firings then s.firings[f].out else {};
      && f in t.firings
      && (c in was && c !in t.firings[f].out ==> c in t.released)
      && (c in t.released && c !in s.released ==> c in was && c !in t.firings[f].out)
  {
    if f in s.firings {
      OwnClients(s, f);
      assert OutFits(s.firings[f]);
    }
  }

  lemma GivesBackOnce(s: State, t: State, f: nat, c: nat)
    requires Inv(s) && StepOf(s, t, f)
    ensures c in s.released ==> c in t.released && t.released[c] == s.released[c]
    ensures !t.twice
  {
    if f in s.firings {
      OwnClients(s, f);
      assert OutFits(s.firings[f]);
    }
  }

  lemma SpoiltChanges(s: State, t: State, f: nat, c: nat)
    requires Inv(s) && StepOf(s, t, f)
    ensures s.lost <= t.lost <= t.spoilt && s.spoilt <= t.spoilt
    ensures c in t.spoilt && c !in s.spoilt ==>
              c < s.next && c !in s.released && (c in t.released ==> t.released[c] == Destroyed)
    ensures c in t.spoilt && c !in t.lost ==> c in s.spoilt || c in t.released
    ensures c in s.spoilt && c in t.released && c !in s.released ==> t.released[c] == Destroyed
  {
    if f in s.firings {
      OwnClients(s, f);
      assert OutFits(s.firings[f]) && QueryFits(s, s.firings[f]);
    }
  }

  /** What is out after a step was out before, or is new, and was not handed back. */
  lemma OutIsKept(s: State, t: State, f: nat, c: nat)
    requires Inv(s) && StepOf(s, t, f)
    ensures IsOut(t, c) ==> c < t.next && c !in t.released
    ensures c in t.released ==> c < t.next
  {
    OnlyOneMoves(s, t, f);
    OutStays(s, t, f, c);
    OwnChanges(s, t, f, c);
    GivesBack(s, t, f, c);
    GivesBackOnce(s, t, f, c);
    if f in s.firings { OwnClients(s, f); }
    OthersKeepTheirs(s, t, f, c);
  }

  /** No other firing has a client of the one that moves. */
  lemma OthersKeepTheirs(s: State, t: State, f: nat, c: nat)
    requires Inv(s) && StepOf(s, t, f)
    ensures f in s.firings && c in s.firings[f].out && IsOut(t, c) ==> f in t.firings && c in t.firings[f].out
  {
    OnlyOneMoves(s, t, f);
    if f in s.firings && c in s.firings[f].out && IsOut(t, c) {
      var g :| g in t.firings && c in t.firings[g].out;
      if g != f { assert OutFits(s.firings[g]) && OutFits(s.firings[f]); }
    }
  }

  lemma NothingIsForgotten(s: State, t: State, f: nat, c: nat)
    requires Inv(s) && StepOf(s, t, f) && c < t.next
    ensures c in t.released || IsOut(t, c)
  {
    OnlyOneMoves(s, t, f);
    OutStays(s, t, f, c);
    OwnChanges(s, t, f, c);
    GivesBack(s, t, f, c);
    GivesBackOnce(s, t, f, c);
  }

  lemma StepKeepsAccounted(s: State, t: State, f: nat)
    requires Inv(s) && StepOf(s, t, f)
    ensures Accounted(t)
  {
    OnlyOneMoves(s, t, f);
    SpoiltChanges(s, t, f, 0);
    GivesBackOnce(s, t, f, 0);
    forall c: nat
      ensures IsOut(t, c) ==> c < t.next && c !in t.released
      ensures c in t.released ==> c < t.next
      ensures c < t.next ==> c in t.released || IsOut(t, c)
    {
      OutIsKept(s, t, f, c);
      if c < t.next { NothingIsForgotten(s, t, f, c); }
    }
    forall c: nat
      ensures c in t.spoilt ==> c < t.next && (c in t.released ==> t.released[c] == Destroyed)
      ensures c in t.spoilt && c !in t.lost ==> c in t.released
    {
      GivesBackOnce(s, t, f, c);
      SpoiltChanges(s, t, f, c);
    }
  }

  lemma StepKeepsInv(s: State, t: State)
    requires Inv(s) && Step(s, t)
    ensures Inv(t)
    ensures s.spoilt <= t.spoilt && forall c :: c in s.released ==> c in t.released && t.released[c] == s.released[c]
  {
    var f :| StepOf(s, t, f);
    StepKeepsExclusive(s, t, f);
    StepKeepsAccounted(s, t, f);
    SpoiltChanges(s, t, f, 0);
    forall c | c in s.released ensures c in t.released && t.released[c] == s.released[c] { GivesBackOnce(s, t, f, c); }
  }

  // ----- Runs -----

  ghost predicate IsRun(trace: seq<State>) { RunsFrom(Step, START, trace) }

  lemma RunKeepsInv(trace: seq<State>, i: nat)
    requires IsRun(trace) && i < |trace|
    ensures Inv(trace[i])
  {
    forall a, b ensures Preserves(Step, Inv, a, b) { if Inv(a) && Step(a, b) { StepKeepsInv(a, b); } }
    InvariantHolds(Step, START, trace, Inv, i);
  }

  /**
   * However firings overlap, one sweep at a time runs, the page queries of its
   * walk included it has at most two clients out, and no client is handed back
   * twice.
   */
  lemma WithinBudget(trace: seq<State>, i: nat, f: nat, g: nat)
    requires IsRun(trace) && i < |trace| && f in trace[i].firings && g in trace[i].firings
    ensures !trace[i].twice
    ensures |trace[i].firings[f].out| <= SWEEPER_CLIENTS
    ensures f != g ==> trace[i].firings[f].out == {} || trace[i].firings[g].out == {}
  {
    RunKeepsInv(trace, i);
    assert Exclusive(trace[i]);
    assert OutFits(trace[i].firings[f]);
  }

  lemma NoneOut(s: State, c: nat)
    requires Exclusive(s) && !s.sweeping
    ensures !IsOut(s, c)
  {
    forall f | f in s.firings ensures c !in s.firings[f].out { assert OutFits(s.firings[f]); }
  }

  /** When no sweep is under way, every client checked out has been handed back. */
  lemma AllHandedBack(trace: seq<State>, i: nat, c: nat)
    requires IsRun(trace) && i < |trace| && !trace[i].sweeping && c < trace[i].next
    ensures c in trace[i].released
  {
    RunKeepsInv(trace, i);
    NoneOut(trace[i], c);
  }

  lemma {:induction false} SpoiltStays(trace: seq<State>, i: nat, j: nat)
    requires IsRun(trace) && i <= j < |trace|
    ensures trace[i].spoilt <= trace[j].spoilt
    decreases j
  {
    if i < j {
      SpoiltStays(trace, i, j - 1);
      RunKeepsInv(trace, j - 1);
      assert StepAt(Step, trace, j - 1);
      StepKeepsInv(trace[j - 1], trace[j]);
    }
  }

  /**
   * A client whose connection raised an error at any moment it was held, or
   * whose rollback or unlock failed, is in no later state one the pool may lend
   * again; and one handed back by a sweep that is over is never such a client
   * unless it was destroyed.
   */
  lemma LostIsDestroyed(trace: seq<State>, i: nat, j: nat, c: nat)
    requires IsRun(trace) && i <= j < |trace| && c in trace[i].spoilt
    ensures c in trace[j].released ==> trace[j].released[c] == Destroyed
    ensures !trace[j].sweeping ==> c in trace[j].released
  {
    SpoiltStays(trace, i, j);
    RunKeepsInv(trace, j);
    if !trace[j].sweeping { AllHandedBack(trace, j, c); }
  }

  /** And only such a one: a held client with neither goes back to the pool. */
  lemma HealthyIsReused(trace: seq<State>, i: nat, f: nat)
    requires IsRun(trace) && i + 1 < |trace| && Release(trace[i], trace[i + 1], f, false)
    ensures var c := trace[i].firings[f].held;
      c in trace[i + 1].released && (trace[i + 1].released[c] == Reused <==> c !in trace[i].spoilt)
  {
    RunKeepsInv(trace, i);
    OwnClients(trace[i], f);
    assert OutFits(trace[i].firings[f]);
  }
}
