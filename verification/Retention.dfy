/**
 * Raw logs past retention: the sweeper's walk over the due runs, a few pages a
 * sweep (apps/worker/src/sweeper.ts), and what it deletes of one run.
 *
 * A run's key stands for its (ingested_at, id), which orders the walk.
 */
module Retention {
  import opened Bytes

  // ----- Pages -----

  ghost predicate Ascending(keys: seq<nat>)
  {
    forall i, j :: 0 <= i < j < |keys| ==> keys[i] < keys[j]
  }

  lemma AscendingJoin(a: seq<nat>, b: seq<nat>)
    requires Ascending(a) && Ascending(b) && forall k, l :: k in a && l in b ==> k < l
    ensures Ascending(a + b)
  {
    forall i, j | 0 <= i < j < |a + b| ensures (a + b)[i] < (a + b)[j] {
      if i < |a| <= j { assert a[i] in a && b[j - |a|] in b; }
    }
  }

  predicate After(k: nat, cursor: Option<nat>) { cursor.None? || cursor.value < k }

  /** The due runs after the cursor, in order. */
  function Ahead(due: seq<nat>, cursor: Option<nat>): (keys: seq<nat>)
  {
    if due == [] then []
    else if After(due[0], cursor) then [due[0]] + Ahead(due[1..], cursor)
    else Ahead(due[1..], cursor)
  }

  /** `VerificationRepository.retentionDue`. */
  function Page(due: seq<nat>, cursor: Option<nat>, limit: nat): (page: seq<nat>)
  {
    var ahead := Ahead(due, cursor);
    if |ahead| <= limit then ahead else ahead[..limit]
  }

  /** Where the next page starts; None after a short one. */
  function Next(page: seq<nat>, limit: nat): Option<nat>
  {
    if |page| == limit && page != [] then Some(page[|page| - 1]) else None
  }

  lemma {:induction false} AheadIs(due: seq<nat>, cursor: Option<nat>)
    requires Ascending(due)
    ensures Ascending(Ahead(due, cursor)) && |Ahead(due, cursor)| <= |due|
    ensures forall k :: k in Ahead(due, cursor) <==> k in due && After(k, cursor)
  {
    if due != [] {
      AheadIs(due[1..], cursor);
      forall k ensures k in due <==> k == due[0] || k in due[1..] {}
      AscendingJoin([due[0]], Ahead(due[1..], cursor));
    }
  }

  // ----- The walk -----

  /** Where a walk gets to, and which runs it attempts, when its pages see these due runs. */
  function Walked(from: Option<nat>, seen: seq<seq<nat>>, limit: nat): (r: (Option<nat>, seq<nat>))
    decreases |seen|
  {
    if seen == [] then (from, [])
    else
      var page := Page(seen[0], from, limit);
      var rest := Walked(Next(page, limit), seen[1..], limit);
      (rest.0, page + rest.1)
  }

  /** Every page but the last leaves a cursor to go on from: it is one walk, not several. */
  ghost predicate OneWalk(from: Option<nat>, seen: seq<seq<nat>>, limit: nat)
    decreases |seen|
  {
    |seen| <= 1 ||
    var next := Next(Page(seen[0], from, limit), limit);
    next.Some? && OneWalk(next, seen[1..], limit)
  }

  /** No run becomes due ahead of the walk. Runs may stop being due at any time. */
  ghost predicate NothingNew(from: Option<nat>, seen: seq<seq<nat>>, limit: nat)
    decreases |seen|
  {
    seen == [] ||
    (Ascending(seen[0]) && (|seen| == 1 ||
       var next := Next(Page(seen[0], from, limit), limit);
       && (forall k :: k in seen[1] && After(k, next) ==> k in seen[0])
       && NothingNew(next, seen[1..], limit)))
  }

  ghost predicate AllAscending(seen: seq<seq<nat>>) { seen == [] || (Ascending(seen[0]) && AllAscending(seen[1..])) }

  /** Run `k` is due at the first page and still is at every page up to the one that attempts it. */
  ghost predicate StaysDue(k: nat, from: Option<nat>, seen: seq<seq<nat>>, limit: nat)
    decreases |seen|
  {
    seen != [] && k in seen[0] && After(k, from) &&
    var page := Page(seen[0], from, limit);
    k in page || |seen| == 1 || StaysDue(k, Next(page, limit), seen[1..], limit)
  }

  /** Run `k` is due ahead of the walk at some page and still is at every page up to the one that attempts it. */
  ghost predicate TurnsUp(k: nat, from: Option<nat>, seen: seq<seq<nat>>, limit: nat)
    decreases |seen|
  {
    seen != [] &&
    (StaysDue(k, from, seen, limit) || TurnsUp(k, Next(Page(seen[0], from, limit), limit), seen[1..], limit))
  }

  /** Sweeps follow one another: the second starts where the first stopped. */
  lemma {:induction false} WalkedJoin(from: Option<nat>, a: seq<seq<nat>>, b: seq<seq<nat>>, limit: nat)
    ensures Walked(from, a + b, limit) ==
            (Walked(Walked(from, a, limit).0, b, limit).0,
             Walked(from, a, limit).1 + Walked(Walked(from, a, limit).0, b, limit).1)
    decreases |a|
  {
    if a == [] {
      assert [] + b == b;
      assert [] + Walked(from, b, limit).1 == Walked(from, b, limit).1;
    } else {
      var page := Page(a[0], from, limit);
      var next := Next(page, limit);
      assert (a + b)[1..] == a[1..] + b && (a + b)[0] == a[0];
      WalkedJoin(next, a[1..], b, limit);
      var rest := Walked(next, a[1..], limit);
      var last := Walked(rest.0, b, limit).1;
      assert page + (rest.1 + last) == (page + rest.1) + last;
    }
  }

  lemma {:induction false} WalkedSnoc(from: Option<nat>, seen: seq<seq<nat>>, due: seq<nat>, limit: nat)
    requires OneWalk(from, seen, limit) && (seen == [] || Walked(from, seen, limit).0.Some?)
    ensures var w := Walked(from, seen, limit);
      var page := Page(due, w.0, limit);
      Walked(from, seen + [due], limit) == (Next(page, limit), w.1 + page) && OneWalk(from, seen + [due], limit)
    decreases |seen|
  {
    var last := Page(due, Walked(from, seen, limit).0, limit);
    if seen == [] {
      assert Walked(Next(last, limit), [], limit) == (Next(last, limit), []);
      assert last + [] == last == [] + last;
    } else {
      var page := Page(seen[0], from, limit);
      var next := Next(page, limit);
      assert (seen + [due])[1..] == seen[1..] + [due] && (seen + [due])[0] == seen[0];
      WalkedSnoc(next, seen[1..], due, limit);
      var rest := Walked(next, seen[1..], limit);
      assert page + (rest.1 + last) == (page + rest.1) + last;
    }
  }

  /** A walk that stopped short of its end and the pages that go on from there are one walk. */
  lemma {:induction false} OneWalkJoin(from: Option<nat>, a: seq<seq<nat>>, b: seq<seq<nat>>, limit: nat)
    requires OneWalk(from, a, limit) && (a == [] || Walked(from, a, limit).0.Some?)
    requires OneWalk(Walked(from, a, limit).0, b, limit)
    ensures OneWalk(from, a + b, limit)
    decreases |a|
  {
    if a == [] {
      assert a + b == b;
    } else {
      var next := Next(Page(a[0], from, limit), limit);
      assert (a + b)[1..] == a[1..] + b && (a + b)[0] == a[0];
      if |a| == 1 { assert a[1..] == [] && Walked(next, a[1..], limit).0 == next; }
      OneWalkJoin(next, a[1..], b, limit);
    }
  }

  lemma AheadTail(ahead: seq<nat>, limit: nat, k: nat)
    requires Ascending(ahead) && 0 < limit <= |ahead| && k in ahead
    ensures k > ahead[limit - 1] <==> k in ahead[limit..]
  {
    var i :| 0 <= i < |ahead| && ahead[i] == k;
    if i >= limit { assert ahead[limit..][i - limit] == k; }
  }

  lemma {:induction false} AscendingSnoc(seen: seq<seq<nat>>, due: seq<nat>)
    requires AllAscending(seen) && Ascending(due)
    ensures AllAscending(seen + [due])
  {
    if seen == [] {
      assert [due][1..] == [];
    } else {
      assert (seen + [due])[1..] == seen[1..] + [due];
      AscendingSnoc(seen[1..], due);
    }
  }

  lemma PageIs(due: seq<nat>, from: Option<nat>, limit: nat)
    requires Ascending(due) && limit > 0
    ensures var page, ahead := Page(due, from, limit), Ahead(due, from);
      var next := Next(page, limit);
      && Ascending(page) && page <= ahead && |page| == (if |ahead| < limit then |ahead| else limit)
      && (next == None ==> page == ahead)
      && (next.Some? ==> |page| == limit <= |ahead| && next.value == ahead[limit - 1] && next.value in page
                         && forall k :: k in page ==> k <= next.value)
  {
    AheadIs(due, from);
    FirstOf(Ahead(due, from), limit);
  }

  lemma FirstOf(ahead: seq<nat>, limit: nat)
    requires Ascending(ahead) && limit > 0
    ensures var page := if |ahead| <= limit then ahead else ahead[..limit];
      var next := Next(page, limit);
      && Ascending(page) && page <= ahead
      && (next == None ==> page == ahead)
      && (next.Some? ==> |page| == limit <= |ahead| && next.value == ahead[limit - 1] && next.value in page
                         && forall k :: k in page ==> k <= next.value)
  {
    PrefixAscends(ahead, if |ahead| <= limit then |ahead| else limit);
    TakeAll(ahead);
  }

  lemma PrefixAscends(keys: seq<nat>, n: nat)
    requires Ascending(keys) && n <= |keys|
    ensures Ascending(keys[..n]) && keys[..n] <= keys
    ensures n > 0 ==> keys[n - 1] in keys[..n] && forall k :: k in keys[..n] ==> k <= keys[n - 1]
  {
    if n > 0 { assert keys[..n][n - 1] == keys[n - 1]; }
  }

  /** Ahead of a full page there are that many fewer, if nothing became due there. */
  lemma FewerAhead(due: seq<nat>, later: seq<nat>, from: Option<nat>, limit: nat)
    requires Ascending(due) && Ascending(later) && limit > 0
    requires var next := Next(Page(due, from, limit), limit);
      next.Some? && forall k :: k in later && After(k, next) ==> k in due
    ensures var next := Next(Page(due, from, limit), limit);
            |Ahead(later, next)| + limit <= |Ahead(due, from)|
  {
    PageIs(due, from, limit);
    AheadIs(due, from);
    var next := Next(Page(due, from, limit), limit);
    AheadIs(later, next);
    var ahead, rest := Ahead(due, from), Ahead(later, next);
    forall k | k in rest ensures k in ahead[limit..] {
      assert After(next.value, from) && k in ahead;
      AheadTail(ahead, limit, k);
    }
    NoMore(rest, ahead[limit..]);
  }

  /** An ascending list whose members are all in another is no longer than it. */
  lemma {:induction false} NoMore(a: seq<nat>, b: seq<nat>)
    requires Ascending(a) && Ascending(b) && forall k :: k in a ==> k in b
    ensures |a| <= |b|
  {
    if a != [] {
      assert a[0] in a;
      var i :| 0 <= i < |b| && b[i] == a[0];
      forall k | k in a[1..] ensures k in b[i + 1..] {
        assert k in a;
        var j :| 0 <= j < |b| && b[j] == k;
        assert j > i && b[j] == b[i + 1..][j - i - 1];
      }
      NoMore(a[1..], b[i + 1..]);
    }
  }

  /** One page of a walk, and the rest of it. */
  lemma WalkOn(from: Option<nat>, seen: seq<seq<nat>>, limit: nat)
    requires limit > 0 && seen != [] && OneWalk(from, seen, limit) && AllAscending(seen)
    ensures var page := Page(seen[0], from, limit);
      var next := Next(page, limit);
      && Ascending(page) && (forall k :: k in page <==> k in page && k in seen[0] && After(k, from))
      && (|seen| > 1 ==> next.Some? && OneWalk(next, seen[1..], limit) && forall k :: k in page ==> k <= next.value)
      && (next == None ==> forall k :: k in seen[0] && After(k, from) ==> k in page)
      && (next.Some? ==> After(next.value, from))
      && Walked(from, seen, limit) == (Walked(next, seen[1..], limit).0, page + Walked(next, seen[1..], limit).1)
  {
    PageIs(seen[0], from, limit);
    AheadIs(seen[0], from);
  }

  /** However the due runs change meanwhile, a walk goes in key order: it attempts each run at most once. */
  lemma {:induction false} WalkAscends(from: Option<nat>, seen: seq<seq<nat>>, limit: nat)
    requires limit > 0 && OneWalk(from, seen, limit) && AllAscending(seen)
    ensures Ascending(Walked(from, seen, limit).1) && forall k :: k in Walked(from, seen, limit).1 ==> After(k, from)
    decreases |seen|
  {
    if seen != [] {
      var page := Page(seen[0], from, limit);
      var next := Next(page, limit);
      WalkOn(from, seen, limit);
      if |seen| > 1 { WalkAscends(next, seen[1..], limit); }
      var rest := Walked(next, seen[1..], limit).1;
      if |seen| == 1 { assert rest == []; }
      AscendingJoin(page, rest);
    }
  }

  /** And one that reaches its end attempts exactly the runs that turn up ahead of it and stay due until their turn. */
  lemma {:induction false} WalkAttempts(from: Option<nat>, seen: seq<seq<nat>>, limit: nat, k: nat)
    requires limit > 0 && seen != [] && OneWalk(from, seen, limit) && AllAscending(seen)
    requires Walked(from, seen, limit).0 == None
    ensures k in Walked(from, seen, limit).1 <==> TurnsUp(k, from, seen, limit)
    decreases |seen|
  {
    var page := Page(seen[0], from, limit);
    var next := Next(page, limit);
    WalkOn(from, seen, limit);
    if |seen| == 1 {
      assert seen[1..] == [] && Walked(next, seen[1..], limit) == (next, []);
    } else {
      WalkAttempts(next, seen[1..], limit, k);
    }
  }

  /** If nothing becomes due ahead of the walk, what turns up was due from the first page on. */
  lemma {:induction false} DueFromTheStart(from: Option<nat>, seen: seq<seq<nat>>, limit: nat, k: nat)
    requires limit > 0 && OneWalk(from, seen, limit) && NothingNew(from, seen, limit)
    ensures TurnsUp(k, from, seen, limit) ==> StaysDue(k, from, seen, limit)
    decreases |seen|
  {
    if |seen| == 1 {
      assert seen[1..] == [];
      assert !TurnsUp(k, Next(Page(seen[0], from, limit), limit), [], limit);
    } else if |seen| > 1 {
      DueFromTheStart(Next(Page(seen[0], from, limit), limit), seen[1..], limit, k);
      DueOnePageEarlier(from, seen, limit, k);
    }
  }

  lemma DueOnePageEarlier(from: Option<nat>, seen: seq<seq<nat>>, limit: nat, k: nat)
    requires limit > 0 && |seen| > 1 && OneWalk(from, seen, limit) && NothingNew(from, seen, limit)
    requires Ascending(seen[0])
    ensures StaysDue(k, Next(Page(seen[0], from, limit), limit), seen[1..], limit) ==> StaysDue(k, from, seen, limit)
  {
    PageIs(seen[0], from, limit);
    AheadIs(seen[0], from);
    assert Next(Page(seen[0], from, limit), limit).value in Ahead(seen[0], from);
    assert seen[1..][0] == seen[1];
  }

  /** And N due runs take at most N / P + 1 pages. */
  lemma {:induction false} WalkCounts(from: Option<nat>, seen: seq<seq<nat>>, limit: nat)
    requires limit > 0 && seen != [] && OneWalk(from, seen, limit) && NothingNew(from, seen, limit)
    ensures Times(|seen| - 1, limit) <= |Ahead(seen[0], from)|
    decreases |seen|
  {
    if |seen| > 1 {
      var next := Next(Page(seen[0], from, limit), limit);
      assert seen[1..][0] == seen[1];
      FewerAhead(seen[0], seen[1], from, limit);
      WalkCounts(next, seen[1..], limit);
      TimesOne(|seen| - 1, limit);
    }
  }

  function Times(n: nat, d: nat): nat { n * d }

  lemma TimesOne(n: nat, d: nat)
    requires n > 0
    ensures Times(n, d) == Times(n - 1, d) + d
  {
  }

  lemma {:induction false} NothingNewAscends(from: Option<nat>, seen: seq<seq<nat>>, limit: nat)
    requires NothingNew(from, seen, limit)
    ensures AllAscending(seen)
    decreases |seen|
  {
    if |seen| == 1 {
      assert seen[1..] == [];
    } else if |seen| > 1 {
      NothingNewAscends(Next(Page(seen[0], from, limit), limit), seen[1..], limit);
    }
  }

  /** A walk from the beginning to its end, over as many sweeps as it took. */
  ghost predicate WholeWalk(seen: seq<seq<nat>>, limit: nat)
  {
    seen != [] && OneWalk(None, seen, limit) && AllAscending(seen) && Walked(None, seen, limit).0 == None
  }

  /**
   * A whole walk, whatever becomes due or stops being due meanwhile: in key
   * order, so each run at most once, exactly the runs that turn up ahead of it
   * and stay due until their turn. If nothing becomes due ahead of it, those are
   * the runs due from the start that stay so, and N of them take at most
   * N / P + 1 pages.
   */
  lemma WalkIsFair(seen: seq<seq<nat>>, limit: nat)
    requires limit > 0 && WholeWalk(seen, limit)
    ensures var attempted := Walked(None, seen, limit).1;
      && Ascending(attempted)
      && (forall k :: k in attempted <==> TurnsUp(k, None, seen, limit))
      && (NothingNew(None, seen, limit) ==>
            && (forall k :: k in attempted <==> StaysDue(k, None, seen, limit))
            && |seen| <= |seen[0]| / limit + 1)
  {
    WalkAscends(None, seen, limit);
    forall k ensures k in Walked(None, seen, limit).1 <==> TurnsUp(k, None, seen, limit) {
      WalkAttempts(None, seen, limit, k);
    }
    if NothingNew(None, seen, limit) {
      forall k ensures TurnsUp(k, None, seen, limit) <==> StaysDue(k, None, seen, limit) {
        DueFromTheStart(None, seen, limit, k);
      }
      WalkCounts(None, seen, limit);
      AheadIs(seen[0], None);
      AtMost(|seen| - 1, limit, |seen[0]|);
    }
  }

  /** Capped sweeps, each taking the walk up where the last left it. */
  ghost predicate Resumed(from: Option<nat>, sweeps: seq<seq<seq<nat>>>, limit: nat)
    decreases |sweeps|
  {
    sweeps == [] ||
    (OneWalk(from, sweeps[0], limit) && AllAscending(sweeps[0]) &&
     var cursor := Walked(from, sweeps[0], limit).0;
     (|sweeps| > 1 ==> cursor.Some?) && Resumed(cursor, sweeps[1..], limit))
  }

  lemma {:induction false} AscendingJoined(a: seq<seq<nat>>, b: seq<seq<nat>>)
    requires AllAscending(a) && AllAscending(b)
    ensures AllAscending(a + b)
  {
    if a == [] {
      assert a + b == b;
    } else {
      assert (a + b)[1..] == a[1..] + b;
      AscendingJoined(a[1..], b);
    }
  }

  /** Sweeps that resume at the cursor make one walk. */
  lemma {:induction false} SweepsMakeOneWalk(from: Option<nat>, sweeps: seq<seq<seq<nat>>>, limit: nat)
    requires Resumed(from, sweeps, limit)
    ensures OneWalk(from, Concat(sweeps), limit) && AllAscending(Concat(sweeps))
    decreases |sweeps|
  {
    if sweeps != [] {
      var cursor := Walked(from, sweeps[0], limit).0;
      SweepsMakeOneWalk(cursor, sweeps[1..], limit);
      AscendingJoined(sweeps[0], Concat(sweeps[1..]));
      if |sweeps| > 1 {
        OneWalkJoin(from, sweeps[0], Concat(sweeps[1..]), limit);
      } else {
        assert sweeps[1..] == [] && sweeps[0] + [] == sweeps[0];
      }
    }
  }

  /**
   * A backlog walked over any number of capped sweeps until the cursor is back
   * at the beginning: every run that stays due from the start is attempted,
   * once, in key order, within N / P + 1 pages in all.
   */
  lemma SweepsAreFair(sweeps: seq<seq<seq<nat>>>, limit: nat)
    requires limit > 0 && Resumed(None, sweeps, limit) && Concat(sweeps) != []
    requires Walked(None, Concat(sweeps), limit).0 == None && NothingNew(None, Concat(sweeps), limit)
    ensures var seen := Concat(sweeps);
      var attempted := Walked(None, seen, limit).1;
      && Ascending(attempted) && (forall k :: k in attempted <==> StaysDue(k, None, seen, limit))
      && |seen| <= |seen[0]| / limit + 1
  {
    SweepsMakeOneWalk(None, sweeps, limit);
    WalkIsFair(Concat(sweeps), limit);
  }

  lemma TimesMonotone(a: nat, b: nat, d: nat)
    requires a <= b
    ensures Times(a, d) <= Times(b, d)
  {
  }

  lemma AtMost(q: nat, d: nat, n: nat)
    requires d > 0 && Times(q, d) <= n
    ensures q <= n / d
  {
    assert n == Times(n / d, d) + n % d;
    if n / d < q {
      TimesMonotone(n / d + 1, q, d);
      TimesOne(n / d + 1, d);
    }
  }

  // ----- One run -----

  /**
   * What is stored of a run and what its row says. `needed` covers the three
   * reasons retention leaves a log alone: the verifier or the recompute has yet
   * to read it, or its verification found a mismatch.
   */
  datatype Stored = Stored(ripe: bool, assembled: bool, agentKey: bool, log: bool, agent: bool, stamped: bool,
      needed: bool)

  predicate Due(s: Stored) { s.ripe && !s.stamped && (s.assembled || s.agentKey) && !s.needed }

  /** A stamped run has nothing left; a log goes only after its agent file; no agent file without its key. */
  ghost predicate Consistent(s: Stored)
  {
    && (s.stamped ==> !s.log && !s.agent)
    && (s.agent ==> s.agentKey)
    && (s.assembled && !s.log ==> !s.agent)
  }

  /** The due runs in key order: what the page query filters, before its cursor and limit. */
  function DueOf(keys: seq<nat>, runs: map<nat, Stored>): (due: seq<nat>)
  {
    if keys == [] then []
    else if keys[0] in runs && Due(runs[keys[0]]) then [keys[0]] + DueOf(keys[1..], runs)
    else DueOf(keys[1..], runs)
  }

  lemma {:induction false} DueOfIs(keys: seq<nat>, runs: map<nat, Stored>)
    requires Ascending(keys)
    ensures Ascending(DueOf(keys, runs))
    ensures forall k :: k in DueOf(keys, runs) <==>
              k in keys && k in runs && runs[k].ripe && !runs[k].stamped && (runs[k].assembled || runs[k].agentKey)
              && !runs[k].needed
  {
    if keys != [] {
      DueOfIs(keys[1..], runs);
      forall k ensures k in keys <==> k == keys[0] || k in keys[1..] {}
      AscendingJoin([keys[0]], DueOf(keys[1..], runs));
    }
  }

  /** The calls one run's retention makes. A failed write may have landed. */
  datatype OneFate = OneFate(
    connected: bool, asked: bool, locked: bool, rechecked: bool, agentDeleted: bool, agentLanded: bool,
    logDeleted: bool, logLanded: bool, stamped: bool, stampLanded: bool)

  /** A run as its retention found it and as it left it. */
  datatype Deed = Deed(run: nat, before: Stored, after: Stored)

  /** What one run's retention may do, and what it does when every call is answered. */
  ghost predicate Retained(a: Stored, b: Stored, fate: OneFate)
  {
    && b == a.(log := b.log, agent := b.agent, stamped := b.stamped)
    && (b != a ==> fate.connected && fate.asked && fate.locked && fate.rechecked)
    && (b != a ==> a.ripe && !a.stamped && (a.assembled || a.agentKey) && !a.needed)
    && (b.log != a.log ==> a.log && !b.agent)
    && (b.stamped != a.stamped ==> !b.log && !b.agent)
    && (fate.connected && fate.asked && fate.locked && fate.rechecked
          && a.ripe && !a.stamped && (a.assembled || a.agentKey) && !a.needed
          && fate.agentDeleted && fate.logDeleted && fate.stamped ==>
        b == a.(log := false, agent := false, stamped := true))
  }

  /** These runs, one after the other, each retained. */
  ghost predicate AllRetained(taken: seq<nat>, deeds: seq<Deed>, fates: map<nat, OneFate>)
  {
    |deeds| == |taken| && forall i :: 0 <= i < |taken| ==>
      deeds[i].run == taken[i] && taken[i] in fates && Retained(deeds[i].before, deeds[i].after, fates[taken[i]])
  }

  lemma RetainedJoin(a: seq<nat>, b: seq<nat>, x: seq<Deed>, y: seq<Deed>, fates: map<nat, OneFate>)
    requires AllRetained(a, x, fates) && AllRetained(b, y, fates)
    ensures AllRetained(a + b, x + y, fates)
  {
  }

  /**
   * One pass of so many pages, from a cursor to a cursor: every run the walk
   * gives is attempted and retained, and a pass that returns has taken all its
   * pages or come to the end.
   */
  ghost predicate Passed(from: Option<nat>, to: Option<nat>, seen: seq<seq<nat>>, attempted: seq<nat>,
                         deeds: seq<Deed>, fates: map<nat, OneFate>, threw: bool, size: nat, pages: nat)
  {
    && to == Walked(from, seen, size).0 && Walked(from, seen, size).1 <= attempted
    && AllRetained(attempted, deeds, fates)
    && (!threw ==> attempted == Walked(from, seen, size).1 && (|seen| == pages || (seen != [] && to == None)))
  }

  lemma RetainedSnoc(taken: seq<nat>, deeds: seq<Deed>, deed: Deed, fates: map<nat, OneFate>)
    requires AllRetained(taken, deeds, fates)
    requires deed.run in fates && Retained(deed.before, deed.after, fates[deed.run])
    ensures AllRetained(taken + [deed.run], deeds + [deed], fates)
  {
  }

  /** What each page's query answered: the due runs, in key order, of the runs as they were. */
  ghost predicate Sees(keys: seq<nat>, states: seq<map<nat, Stored>>, seen: seq<seq<nat>>)
  {
    |states| == |seen| && forall i :: 0 <= i < |seen| ==> seen[i] == DueOf(keys, states[i]) && Ascending(seen[i])
  }

  lemma SeesSnoc(keys: seq<nat>, states: seq<map<nat, Stored>>, seen: seq<seq<nat>>, state: map<nat, Stored>,
                 due: seq<nat>)
    requires Sees(keys, states, seen) && due == DueOf(keys, state) && Ascending(due)
    ensures Sees(keys, states + [state], seen + [due])
  {
  }

  /** Every try-lock of these runs is answered. */
  ghost predicate AllReached(keys: seq<nat>, fates: map<nat, OneFate>)
  {
    forall k :: k in keys ==> k in fates && fates[k].connected && fates[k].asked
  }

  class RetentionWalk {
    /** Every run there is, in key order. */
    const keys: seq<nat>
    const days: int
    const pageSize: nat
    const pagesPerSweep: nat
    var runs: map<nat, Stored>
    var cursor: Option<nat>
    /** What the pages of the walk under way saw, and those of every walk that reached its end. */
    ghost var pages: seq<seq<nat>>
    ghost var walks: seq<seq<seq<nat>>>

    ghost predicate Valid()
      reads this
    {
      && Ascending(keys) && (forall k :: k in keys ==> k in runs) && (forall k :: k in runs ==> Consistent(runs[k]))
      && OneWalk(None, pages, pageSize) && AllAscending(pages) && Walked(None, pages, pageSize).0 == cursor
      && (cursor.None? ==> pages == [])
      && forall w :: w in walks ==> WholeWalk(w, pageSize)
    }

    constructor (keys: seq<nat>, runs: map<nat, Stored>, days: int, pageSize: nat, pagesPerSweep: nat)
      requires Ascending(keys) && (forall k :: k in keys ==> k in runs) && forall k :: k in runs ==> Consistent(runs[k])
      ensures Valid() && cursor == None && this.keys == keys && this.runs == runs && pages == [] && walks == []
    {
      this.keys, this.days, this.pageSize, this.pagesPerSweep := keys, days, pageSize, pagesPerSweep;
      this.runs, cursor, pages, walks := runs, None, [], [];
    }

    /** Time passes, runs are verified or asked to be, other sweepers retain. An ingested run's keys are settled. */
    method Others()
      requires Valid()
      modifies `runs
      ensures Valid() && runs.Keys == old(runs.Keys)
      ensures forall k :: k in runs ==> runs[k].agentKey == old(runs)[k].agentKey
    {
    }

    /**
     * One run. It is touched only under its lock and only if still due then;
     * a failure leaves the objects after the failing one alone. It throws only
     * if no connection or no answer to the try-lock was had.
     */
    method RetainOne(k: nat, agentKey: bool, fate: OneFate) returns (threw: bool)
      requires Valid() && k in runs && agentKey == runs[k].agentKey
      modifies `runs
      ensures Valid() && runs.Keys == old(runs.Keys)
      ensures threw <==> !fate.connected || !fate.asked
      ensures forall j :: j in runs && j != k ==> runs[j] == old(runs)[j]
      ensures Retained(old(runs)[k], runs[k], fate)
    {
      if !fate.connected || !fate.asked { return true; }
      threw := false;
      if !fate.locked || !fate.rechecked || !Due(runs[k]) { return; }
      var left := DeleteAndStamp(runs[k], agentKey, fate);
      runs := runs[k := left];
    }

    /** What is left of a run still due under its lock: agent file, then log, then stamp, up to the first that fails. */
    method DeleteAndStamp(stored: Stored, agentKey: bool, fate: OneFate) returns (left: Stored)
      requires Consistent(stored) && agentKey == stored.agentKey
      ensures Consistent(left) && left == stored.(log := left.log, agent := left.agent, stamped := left.stamped)
      ensures left.log != stored.log ==> stored.log && !left.agent
      ensures left.stamped != stored.stamped ==> !left.log && !left.agent
      ensures fate.agentDeleted && fate.logDeleted && fate.stamped ==> !left.log && !left.agent && left.stamped
    {
      left := stored;
      if agentKey {
        if fate.agentDeleted || fate.agentLanded { left := left.(agent := false); }
        if !fate.agentDeleted { return; }
      }
      if fate.logDeleted || fate.logLanded { left := left.(log := false); }
      if !fate.logDeleted { return; }
      if fate.stamped || fate.stampLanded { left := left.(stamped := true); }
    }

    /** Rows read with a page say the same of a run's agent file until it is retained. */
    ghost predicate Settled(read: map<nat, Stored>)
      reads this
    {
      runs.Keys == read.Keys && forall k :: k in runs ==> runs[k].agentKey == read[k].agentKey
    }

    method RetainPage(page: seq<nat>, fates: map<nat, OneFate>)
      returns (threw: bool, ghost taken: seq<nat>, ghost deeds: seq<Deed>)
      requires Valid() && forall k :: k in page ==> k in runs && k in fates
      modifies `runs
      ensures Valid() && taken <= page && (!threw ==> taken == page)
      ensures AllRetained(taken, deeds, fates) && (threw ==> !AllReached(page, fates))
    {
      var read := runs;
      threw, taken, deeds := false, [], [];
      for i := 0 to |page|
        invariant Valid() && taken == page[..i] && Settled(read) && AllRetained(taken, deeds, fates)
      {
        ghost var deed;
        threw, deed := RetainNext(page[i], read, fates[page[i]]);
        RetainedSnoc(taken, deeds, deed, fates);
        taken, deeds := taken + [page[i]], deeds + [deed];
        if threw { return; }
      }
    }

    /** The page's next run, after whatever happened since the last. */
    method RetainNext(k: nat, read: map<nat, Stored>, fate: OneFate) returns (threw: bool, ghost deed: Deed)
      requires Valid() && k in runs && Settled(read)
      modifies `runs
      ensures Valid() && Settled(read)
      ensures deed.run == k && deed.after == runs[k] && Retained(deed.before, deed.after, fate)
      ensures threw <==> !fate.connected || !fate.asked
    {
      Others();
      ghost var before := runs[k];
      threw := RetainOne(k, read[k].agentKey, fate);
      deed := Deed(k, before, runs[k]);
    }

    /** A page that finished: the cursor moves past it, and the walk goes on or has reached its end. */
    method FinishPage(ghost due: seq<nat>, page: seq<nat>)
      requires Valid() && Ascending(due) && page == Page(due, cursor, pageSize)
      modifies `cursor, `pages, `walks
      ensures Valid() && cursor == Next(page, pageSize)
      ensures cursor.Some? ==> pages == old(pages) + [due] && walks == old(walks)
      ensures cursor.None? ==> walks == old(walks) + [old(pages) + [due]]
    {
      WalkedSnoc(None, pages, due, pageSize);
      AscendingSnoc(pages, due);
      cursor := Next(page, pageSize);
      if cursor.None? {
        walks, pages := walks + [pages + [due]], [];
      } else {
        pages := pages + [due];
      }
    }

    /**
     * One sweep's part of the walk. `states` is what each page query saw of the
     * runs, `seen` the due ones among them, `attempted` the runs taken up, each
     * retained as `deeds` says. A sweep that throws leaves the cursor after the
     * last page it finished. Over any number of sweeps, the pages since the last
     * walk ended make one walk, and every walk that ended is whole.
     */
    method RetainRawLogs(answers: seq<bool>, fates: map<nat, OneFate>)
      returns (threw: bool, ghost states: seq<map<nat, Stored>>, ghost seen: seq<seq<nat>>, ghost attempted: seq<nat>,
               ghost deeds: seq<Deed>)
      requires Valid() && pagesPerSweep <= |answers| && forall k :: k in keys ==> k in fates
      modifies this
      ensures Valid() && old(walks) <= walks
      ensures days <= 0 ==> !threw && seen == [] && cursor == old(cursor) && runs == old(runs)
      ensures |seen| <= pagesPerSweep && Sees(keys, states, seen)
      ensures OneWalk(old(cursor), seen, pageSize)
      ensures Passed(old(cursor), cursor, seen, attempted, deeds, fates, threw, pageSize,
                     if days > 0 then pagesPerSweep else 0)
      ensures threw ==> false in answers || !AllReached(keys, fates)
      ensures cursor.Some? ==> walks == old(walks) && pages == old(pages) + seen
      ensures cursor.None? && seen != [] ==> walks == old(walks) + [old(pages) + seen]
    {
      states, seen, attempted, deeds, threw := [], [], [], [], false;
      assert pages + [] == pages;
      if !(days > 0) { return; }
      var count := 0;
      while count < pagesPerSweep
        invariant Valid() && !threw && walks == old(walks) && pages == old(pages) + seen
        invariant count == |seen| <= pagesPerSweep && Sees(keys, states, seen)
        invariant Walked(old(cursor), seen, pageSize) == (cursor, attempted) && AllRetained(attempted, deeds, fates)
        invariant OneWalk(old(cursor), seen, pageSize) && (seen != [] ==> cursor.Some?)
      {
        ghost var state, due, taken, done;
        threw, state, due, taken, done := TakePage(answers[count], fates);
        RetainedJoin(attempted, taken, deeds, done, fates);
        attempted, deeds := attempted + taken, deeds + done;
        if threw { return; }
        WalkedSnoc(old(cursor), seen, due, pageSize);
        Associates(old(pages), seen, [due]);
        SeesSnoc(keys, states, seen, state, due);
        states, seen := states + [state], seen + [due];
        count := count + 1;
        if cursor.None? { return; }
      }
    }

    /** One page: the query, the runs it answers, and the cursor after them. */
    method TakePage(answered: bool, fates: map<nat, OneFate>)
      returns (threw: bool, ghost state: map<nat, Stored>, ghost due: seq<nat>, ghost taken: seq<nat>,
               ghost deeds: seq<Deed>)
      requires Valid() && forall k :: k in keys ==> k in fates
      modifies this
      ensures Valid() && due == (if answered then DueOf(keys, state) else [])
      ensures !threw ==> answered && Ascending(due) && taken == Page(due, old(cursor), pageSize)
      ensures AllRetained(taken, deeds, fates) && (threw ==> !answered || !AllReached(keys, fates))
      ensures threw ==> cursor == old(cursor) && pages == old(pages) && walks == old(walks)
      ensures !threw ==> cursor == Next(taken, pageSize)
      ensures !threw && cursor.Some? ==> pages == old(pages) + [due] && walks == old(walks)
      ensures !threw && cursor.None? ==> walks == old(walks) + [old(pages) + [due]]
    {
      due, taken, deeds := [], [], [];
      Others();
      state := runs;
      threw := !answered;
      if threw { return; }
      var answer := DueOf(keys, runs);
      due := answer;
      DueOfIs(keys, runs);
      AheadIs(answer, cursor);
      var page := Page(answer, cursor, pageSize);
      threw, taken, deeds := RetainPage(page, fates);
      if threw { return; }
      FinishPage(due, page);
    }
  }
}
