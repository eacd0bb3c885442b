/**
 * Taking whole items off the front of a growing input, whatever an item is.
 *
 * A step looks at the input left and a state. It takes one item, or waits for
 * more input (and may leave a changed state behind), or stops on input no more
 * will mend. `Run` takes items until it cannot.
 */
module Feed {
  import opened Bytes

  datatype Step<+E, +S, +F> = Took(item: E, used: nat, next: S) | Wait(left: S) | Stop(fault: F)

  datatype End<+F> = AtEnd | CutShort | Failed(fault: F)

  /** Items in order, how much input they used, the state left, and why it ended. */
  datatype Log<+E, +S, +F> = Log(items: seq<E>, used: nat, state: S, end: End<F>)

  /** A step that takes an item uses some of the input. */
  ghost predicate Progress<T(!new), E, S(!new), F>(step: (seq<T>, S) -> Step<E, S, F>)
  {
    forall r, s :: step(r, s).Took? ==> 0 < step(r, s).used <= |r|
  }

  /** More input changes no answer but Wait, and an item that needed it reaches into it. */
  ghost predicate Extends<T(!new), E, S(!new), F>(step: (seq<T>, S) -> Step<E, S, F>)
  {
    forall r, e, s :: ExtendsAt(step, r, e, s)
  }

  ghost predicate ExtendsAt<T, E, S, F>(step: (seq<T>, S) -> Step<E, S, F>, r: seq<T>, e: seq<T>, s: S)
  {
    && (!step(r, s).Wait? ==> step(r + e, s) == step(r, s))
    && (step(r, s).Wait? && step(r + e, s).Took? ==> |r| < step(r + e, s).used)
  }

  function Prepend<E, S, F>(item: E, n: nat, log: Log<E, S, F>): Log<E, S, F>
  {
    log.(items := [item] + log.items, used := n + log.used)
  }

  function Run<T(!new), E, S(!new), F>(step: (seq<T>, S) -> Step<E, S, F>, r: seq<T>, s: S): (log: Log<E, S, F>)
    requires Progress(step)
    ensures log.used <= |r|
    ensures log.end.AtEnd? <==> log.used == |r| && !log.end.Failed?
    decreases |r|
  {
    if r == [] then Log([], 0, s, AtEnd)
    else
      match step(r, s)
      case Wait(left) => Log([], 0, left, CutShort)
      case Stop(f) => Log([], 0, s, Failed(f))
      case Took(item, n, next) =>
        Prepend(item, n, Run(step, r[n..], next))
  }

  /** Cutting the input anywhere past its whole items leaves those items and nothing after them. */
  lemma {:induction false} RunCut<T(!new), E, S(!new), F>(
      step: (seq<T>, S) -> Step<E, S, F>, a: seq<T>, b: seq<T>, s: S)
    requires Progress(step) && Extends(step)
    requires !Run(step, a + b, s).end.Failed? && Run(step, a + b, s).used <= |a|
    ensures var whole, part := Run(step, a + b, s), Run(step, a, s);
            && part.items == whole.items && part.used == whole.used
            && part.end == (if |a| == whole.used then AtEnd else CutShort)
    decreases |a|
  {
    assert ExtendsAt(step, a, b, s);
    if a + b != [] {
      match step(a + b, s)
      case Took(item, n, next) =>
        assert (a + b)[n..] == a[n..] + b;
        RunCut(step, a[n..], b, next);
      case _ =>
    }
  }

  /** Reading on from the state a wait left is reading on from the state it began in. */
  ghost predicate Resumes<T, E, S, F>(step: (seq<T>, S) -> Step<E, S, F>, r: seq<T>, e: seq<T>, s: S, left: S)
  {
    step(r + e, left) == step(r + e, s)
  }

  /** Wherever `Run` on `r` waits for more, more input resumes. */
  ghost predicate StableCut<T(!new), E, S(!new), F>(step: (seq<T>, S) -> Step<E, S, F>, r: seq<T>, s: S)
    requires Progress(step)
    decreases |r|
  {
    r == [] ||
    match step(r, s)
    case Took(_, n, next) => StableCut(step, r[n..], next)
    case Wait(left) => forall e :: Resumes(step, r, e, s, left)
    case Stop(_) => true
  }

  /** Two runs in a row as one: the second starts at the first's last whole item. */
  function Join<E, S, F>(first: Log<E, S, F>, second: Log<E, S, F>): Log<E, S, F>
  {
    second.(items := first.items + second.items, used := first.used + second.used)
  }

  /** The same run; the state a failed run stopped in is not looked at again. */
  predicate Same<E(==), S(==), F(==)>(x: Log<E, S, F>, y: Log<E, S, F>)
  {
    x.items == y.items && x.used == y.used && x.end == y.end && (x.end.Failed? || x.state == y.state)
  }

  lemma PrependJoins<E, S, F>(item: E, n: nat, all: Log<E, S, F>, first: Log<E, S, F>, second: Log<E, S, F>)
    requires Same(all, Join(first, second))
    ensures Same(Prepend(item, n, all), Join(Prepend(item, n, first), second))
  {
    assert [item] + (first.items + second.items) == ([item] + first.items) + second.items;
  }

  lemma WaitJoins<T(!new), E, S(!new), F>(step: (seq<T>, S) -> Step<E, S, F>, r: seq<T>, s: S, left: S)
    requires Progress(step) && r != [] && step(r, left) == step(r, s)
    ensures Same(Run(step, r, s), Run(step, r, left))
  {
  }

  /** Where a cut is stable, running on to it and then past it is running once. */
  lemma {:induction false} RunJoins<T(!new), E, S(!new), F>(
      step: (seq<T>, S) -> Step<E, S, F>, a: seq<T>, b: seq<T>, s: S)
    requires Progress(step) && Extends(step)
    requires StableCut(step, a, s) && !Run(step, a, s).end.Failed?
    ensures var first := Run(step, a, s);
            Same(Run(step, a + b, s), Join(first, Run(step, (a + b)[first.used..], first.state)))
    decreases |a|
  {
    assert ExtendsAt(step, a, b, s);
    if a == [] {
      assert (a + b)[0..] == a + b;
    } else {
      match step(a, s)
      case Took(item, n, next) =>
        assert (a + b)[n..] == a[n..] + b;
        RunJoins(step, a[n..], b, next);
        var first := Run(step, a[n..], next);
        assert (a + b)[n + first.used..] == (a[n..] + b)[first.used..];
        PrependJoins(item, n, Run(step, a[n..] + b, next), first, Run(step, (a[n..] + b)[first.used..], first.state));
      case Wait(left) =>
        assert (a + b)[0..] == a + b;
        assert Resumes(step, a, b, s, left);
        WaitJoins(step, a + b, s, left);
      case Stop(_) =>
    }
  }

  lemma {:induction false} StableLater<T(!new), E, S(!new), F>(
      step: (seq<T>, S) -> Step<E, S, F>, a: seq<T>, b: seq<T>, s: S)
    requires Progress(step) && Extends(step)
    requires StableCut(step, a, s) && StableCut(step, a + b, s) && !Run(step, a, s).end.Failed?
    ensures StableCut(step, (a + b)[Run(step, a, s).used..], Run(step, a, s).state)
    decreases |a|
  {
    assert ExtendsAt(step, a, b, s);
    assert (a + b)[0..] == a + b;
    if a != [] {
      match step(a, s)
      case Took(item, n, next) =>
        DropOfSum(a, b, n);
        StableLater(step, a[n..], b, next);
        var used := Run(step, a[n..], next).used;
        DropTwice(a + b, n, used);
      case Wait(left) =>
        assert Resumes(step, a, b, s, left);
        if step(a + b, s).Wait? {
          var later := step(a + b, s).left;
          forall e ensures Resumes(step, a + b, e, left, later) {
            assert Resumes(step, a + b, e, s, later);
            assert Resumes(step, a, b + e, s, left);
            Associates(a, b, e);
          }
        }
      case Stop(_) =>
    }
  }

  /** A failed run fails whatever comes after, at the same place. */
  lemma {:induction false} RunFails<T(!new), E, S(!new), F>(
      step: (seq<T>, S) -> Step<E, S, F>, a: seq<T>, b: seq<T>, s: S)
    requires Progress(step) && Extends(step) && Run(step, a, s).end.Failed?
    ensures Run(step, a + b, s) == Run(step, a, s)
    decreases |a|
  {
    assert ExtendsAt(step, a, b, s);
    match step(a, s)
    case Took(item, n, next) =>
      assert (a + b)[n..] == a[n..] + b;
      RunFails(step, a[n..], b, next);
    case _ =>
  }

  // ----- Input in chunks -----

  /**
   * One run per chunk, each over what the last left and the chunk. A run that
   * fails hands out none of its items and ends the feed.
   */
  function RunChunks<T(!new), E, S(!new), F>(
      step: (seq<T>, S) -> Step<E, S, F>, rest: seq<T>, s: S, chunks: seq<seq<T>>): (log: Log<E, S, F>)
    requires Progress(step)
    decreases chunks
  {
    if chunks == [] then Log([], 0, s, if rest == [] then AtEnd else CutShort)
    else
      var r := rest + chunks[0];
      var first := Run(step, r, s);
      if first.end.Failed? then first.(items := [])
      else Join(first, RunChunks(step, r[first.used..], first.state, chunks[1..]))
  }

  /** What a run hands out: all it took, or nothing when it failed. */
  function Handed<E, S, F>(log: Log<E, S, F>): Log<E, S, F>
  {
    if log.end.Failed? then log.(items := []) else log
  }

  /** The first chunk's run, then the rest of the feed. */
  lemma FirstChunk<T(!new), E, S(!new), F>(step: (seq<T>, S) -> Step<E, S, F>, rest: seq<T>, s: S, chunks: seq<seq<T>>)
    requires Progress(step) && chunks != []
    ensures var first := Run(step, rest + chunks[0], s);
      RunChunks(step, rest, s, chunks) ==
        if first.end.Failed? then first.(items := [])
        else Join(first, RunChunks(step, (rest + chunks[0])[first.used..], first.state, chunks[1..]))
  {
  }

  /** One more chunk is one more run. */
  lemma {:induction false} ChunksSnoc<T(!new), E, S(!new), F>(
      step: (seq<T>, S) -> Step<E, S, F>, rest: seq<T>, s: S, chunks: seq<seq<T>>, last: seq<T>)
    requires Progress(step) && !RunChunks(step, rest, s, chunks).end.Failed?
    ensures var log, all := RunChunks(step, rest, s, chunks), rest + Concat(chunks);
            log.used <= |all| &&
            RunChunks(step, rest, s, chunks + [last])
              == Join(log, Handed(Run(step, all[log.used..] + last, log.state)))
    decreases chunks, 1
  {
    if chunks == [] {
      assert chunks + [last] == [last];
      OneChunk(step, rest, s, last);
    } else {
      SnocLater(step, rest, s, chunks, last);
    }
  }

  lemma SnocLater<T(!new), E, S(!new), F>(
      step: (seq<T>, S) -> Step<E, S, F>, rest: seq<T>, s: S, chunks: seq<seq<T>>, last: seq<T>)
    requires Progress(step) && chunks != [] && !RunChunks(step, rest, s, chunks).end.Failed?
    ensures var log, all := RunChunks(step, rest, s, chunks), rest + Concat(chunks);
            log.used <= |all| &&
            RunChunks(step, rest, s, chunks + [last])
              == Join(log, Handed(Run(step, all[log.used..] + last, log.state)))
    decreases chunks, 0
  {
    var more := chunks + [last];
    var first := Run(step, rest + chunks[0], s);
    var r1 := (rest + chunks[0])[first.used..];
    assert more[1..] == chunks[1..] + [last] && more[0] == chunks[0];
    FirstChunk(step, rest, s, chunks);
    FirstChunk(step, rest, s, more);
    ChunksSnoc(step, r1, first.state, chunks[1..], last);
    var log := RunChunks(step, r1, first.state, chunks[1..]);
    var left := (r1 + Concat(chunks[1..]))[log.used..];
    var next := Handed(Run(step, left + last, log.state));
    var whole := RunChunks(step, rest, s, chunks);
    assert whole == Join(first, log) && whole.state == log.state && whole.used == first.used + log.used;
    LaterPart(rest, chunks, first.used, log.used);
    assert (rest + Concat(chunks))[whole.used..] == left;
    JoinsAssociate(first, log, next);
    assert RunChunks(step, rest, s, more) == Join(first, Join(log, next)) == Join(whole, next);
  }

  lemma OneChunk<T(!new), E, S(!new), F>(step: (seq<T>, S) -> Step<E, S, F>, rest: seq<T>, s: S, last: seq<T>)
    requires Progress(step)
    ensures RunChunks(step, rest, s, [last]) == Handed(Run(step, rest + last, s))
    ensures Join(RunChunks(step, rest, s, []), Handed(Run(step, (rest + Concat<T>([]))[0..] + last, s)))
         == Handed(Run(step, rest + last, s))
  {
    assert [last][1..] == [];
    assert (rest + Concat<T>([]))[0..] == rest;
    var only := Run(step, rest + last, s);
    EmptyThen([], only.items);
  }

  lemma LaterPart<T>(rest: seq<T>, chunks: seq<seq<T>>, n: nat, m: nat)
    requires chunks != [] && n <= |rest + chunks[0]|
    requires m <= |(rest + chunks[0])[n..] + Concat(chunks[1..])|
    ensures n + m <= |rest + Concat(chunks)|
    ensures (rest + Concat(chunks))[n + m..] == ((rest + chunks[0])[n..] + Concat(chunks[1..]))[m..]
  {
  }

  lemma JoinsAssociate<E, S, F>(a: Log<E, S, F>, b: Log<E, S, F>, c: Log<E, S, F>)
    ensures Join(a, Join(b, c)) == Join(Join(a, b), c)
  {
    assert a.items + (b.items + c.items) == (a.items + b.items) + c.items;
  }

  /** Every cut of the input from `rest` on is stable. */
  ghost predicate StableCuts<T(!new), E, S(!new), F>(
      step: (seq<T>, S) -> Step<E, S, F>, rest: seq<T>, more: seq<T>, s: S)
    requires Progress(step)
  {
    forall p :: p <= more ==> StableCut(step, rest + p, s)
  }

  /**
   * Where every cut is stable, feeding chunk by chunk is running once over
   * everything: the same items, input used and state; and it fails exactly when
   * the one run does, with the same fault.
   */
  lemma {:induction false} ChunksDoNotMatter<T(!new), E, S(!new), F>(
      step: (seq<T>, S) -> Step<E, S, F>, rest: seq<T>, s: S, chunks: seq<seq<T>>)
    requires Progress(step) && Extends(step) && chunks != []
    requires StableCuts(step, rest, Concat(chunks), s)
    ensures var fed, whole := RunChunks(step, rest, s, chunks), Run(step, rest + Concat(chunks), s);
            && fed.end == whole.end
            && (!whole.end.Failed? ==> Same(fed, whole))
    decreases chunks
  {
    var r := rest + chunks[0];
    var later := Concat(chunks[1..]);
    assert rest + Concat(chunks) == r + later;
    assert chunks[0] <= Concat(chunks);
    var first := Run(step, r, s);
    if first.end.Failed? {
      RunFails(step, r, later, s);
    } else {
      RunJoins(step, r, later, s);
      assert (r + later)[first.used..] == r[first.used..] + later;
      if chunks[1..] == [] {
        assert later == [] && r + later == r;
        assert first.items + [] == first.items;
      } else {
        forall p | p <= later ensures StableCut(step, r[first.used..] + p, first.state) {
          assert chunks[0] + p <= Concat(chunks);
          assert rest + (chunks[0] + p) == r + p;
          StableLater(step, r, p, s);
          assert (r + p)[first.used..] == r[first.used..] + p;
        }
        ChunksDoNotMatter(step, r[first.used..], first.state, chunks[1..]);
      }
    }
  }

  // ----- A condition on every step, and what it says about cuts -----

  /** `good` holds wherever `Run` takes an item. */
  ghost predicate Everywhere<T(!new), E, S(!new), F>(
      step: (seq<T>, S) -> Step<E, S, F>, good: (seq<T>, S) -> bool, r: seq<T>, s: S)
    requires Progress(step)
    decreases |r|
  {
    r != [] && step(r, s).Took? ==>
      good(r, s) && Everywhere(step, good, r[step(r, s).used..], step(r, s).next)
  }

  /** Where `good` holds of the whole input, a wait on any part of it resumes. */
  ghost predicate CutResumes<T, E, S, F>(
      step: (seq<T>, S) -> Step<E, S, F>, good: (seq<T>, S) -> bool, r: seq<T>, p: seq<T>, e: seq<T>, s: S)
  {
    p <= r && p != [] && step(p, s).Wait? && good(r, s) ==> Resumes(step, p, e, s, step(p, s).left)
  }

  lemma {:induction false} EverywhereIsStable<T(!new), E, S(!new), F>(
      step: (seq<T>, S) -> Step<E, S, F>, good: (seq<T>, S) -> bool, r: seq<T>, p: seq<T>, s: S)
    requires Progress(step) && Extends(step) && forall r, p, e, s :: CutResumes(step, good, r, p, e, s)
    requires p <= r && Everywhere(step, good, r, s) && Run(step, r, s).end.AtEnd?
    ensures StableCut(step, p, s)
    decreases |r|
  {
    if p != [] {
      assert r == p + r[|p|..];
      assert ExtendsAt(step, p, r[|p|..], s);
      var out := step(p, s);
      if out.Took? {
        EverywhereIsStable(step, good, r[out.used..], p[out.used..], out.next);
      } else {
        forall e ensures Resumes(step, p, e, s, out.left) { assert CutResumes(step, good, r, p, e, s); }
      }
    }
  }

  lemma EverywhereAnyChunks<T(!new), E, S(!new), F>(
      step: (seq<T>, S) -> Step<E, S, F>, good: (seq<T>, S) -> bool, s: S, chunks: seq<seq<T>>)
    requires Progress(step) && Extends(step) && forall r, p, e, s :: CutResumes(step, good, r, p, e, s)
    requires chunks != [] && Everywhere(step, good, Concat(chunks), s) && Run(step, Concat(chunks), s).end.AtEnd?
    ensures Same(RunChunks(step, [], s, chunks), Run(step, Concat(chunks), s))
  {
    var all := Concat(chunks);
    forall p | p <= all ensures StableCut(step, [] + p, s) {
      assert [] + p == p;
      EverywhereIsStable(step, good, all, p, s);
    }
    assert [] + all == all;
    ChunksDoNotMatter(step, [], s, chunks);
  }

  function TwoChunks<T(!new), E, S(!new), F>(
      step: (seq<T>, S) -> Step<E, S, F>, r: seq<T>, k: nat, s: S): Log<E, S, F>
    requires k <= |r| && Progress(step)
  {
    RunChunks(step, [], s, [r[..k], r[k..]])
  }

  /** Two chunks: the first's items, then what the second run finds from where that left off. */
  lemma TwoRuns<T(!new), E, S(!new), F>(step: (seq<T>, S) -> Step<E, S, F>, r: seq<T>, k: nat, s: S)
    requires k <= |r| && Progress(step) && !Run(step, r[..k], s).end.Failed?
    ensures var first := Run(step, r[..k], s);
            var second := Run(step, r[first.used..], first.state);
            TwoChunks(step, r, k, s).items == first.items + (if second.end.Failed? then [] else second.items)
  {
    var first := Run(step, r[..k], s);
    assert [] + r[..k] == r[..k];
    assert r[..k][first.used..] + r[k..] == r[first.used..];
    var second := Run(step, r[first.used..], first.state);
    assert [r[..k], r[k..]][1..] == [r[k..]];
    assert second.items + [] == second.items;
    assert RunChunks(step, r[..k][first.used..], first.state, [r[k..]]).items
        == if second.end.Failed? then [] else second.items;
  }

  ghost predicate SpoiltAt<T(!new), E, S(!new), F>(step: (seq<T>, S) -> Step<E, S, F>, r: seq<T>, k: nat, s: S)
    requires Progress(step) && k <= |r|
  {
    !Run(step, r[..k], s).end.Failed? && TwoChunks(step, r, k, s).items != Run(step, r, s).items
  }

  /** Some cut into two chunks changes what the input runs to. */
  ghost predicate CutSpoils<T(!new), E, S(!new), F>(step: (seq<T>, S) -> Step<E, S, F>, r: seq<T>, s: S)
    requires Progress(step)
  {
    exists k: nat :: k <= |r| && SpoiltAt(step, r, k, s)
  }

  /** A cut past the first item cuts the items after it in the same way. */
  lemma SpoiltLater<T(!new), E, S(!new), F>(step: (seq<T>, S) -> Step<E, S, F>, r: seq<T>, j: nat, s: S)
    requires Progress(step) && Extends(step) && step(r, s).Took?
    requires j <= |r| - step(r, s).used && SpoiltAt(step, r[step(r, s).used..], j, step(r, s).next)
    ensures SpoiltAt(step, r, step(r, s).used + j, s)
  {
    var out := step(r, s);
    var n := out.used;
    var k := n + j;
    TakeDrop(r, k);
    assert ExtendsAt(step, r[..k], r[k..], s);
    TakeThenDrop(r, k, n);
    TwoRuns(step, r, k, s);
    TwoRuns(step, r[n..], j, out.next);
    var first := Run(step, r[n..][..j], out.next);
    var second := Run(step, r[n..][first.used..], first.state);
    DropTwice(r, n, first.used);
    var handed := if second.end.Failed? then [] else second.items;
    Associates([out.item], first.items, handed);
    FirstThen(out.item, TwoChunks(step, r[n..], j, out.next).items, Run(step, r[n..], out.next).items);
  }

  lemma FirstThen<E>(first: E, a: seq<E>, b: seq<E>)
    requires a != b
    ensures [first] + a != [first] + b
  {
    assert ([first] + a)[1..] == a && ([first] + b)[1..] == b;
  }

  lemma {:induction false} SomewhereSpoils<T(!new), E, S(!new), F>(
      step: (seq<T>, S) -> Step<E, S, F>, good: (seq<T>, S) -> bool, r: seq<T>, s: S)
    requires Progress(step) && Extends(step)
    requires forall r, s :: step(r, s).Took? && !good(r, s) ==> CutSpoils(step, r, s)
    requires !Everywhere(step, good, r, s)
    ensures CutSpoils(step, r, s)
    decreases |r|
  {
    if good(r, s) {
      var out := step(r, s);
      SomewhereSpoils(step, good, r[out.used..], out.next);
      var j: nat :| j <= |r| - out.used && SpoiltAt(step, r[out.used..], j, out.next);
      SpoiltLater(step, r, j, s);
    }
  }
}
