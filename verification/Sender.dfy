/**
 * The agent's sending side (agent/cmd/perfportal-agent/main.go): batches
 * drained from the ring and posted, and the last flush on SIGTERM.
 */
module Sender {
  import opened Bytes
  import opened Ring

  const BATCH_SAMPLES := 30
  const BUFFER_SAMPLES := 64 * BATCH_SAMPLES

  /** One POST: the samples in it, and whether the server acknowledged it. */
  datatype Post<T> = Post(samples: seq<T>, acked: bool)

  function Posted<T>(posts: seq<Post<T>>): (samples: seq<T>)
  {
    if posts == [] then [] else Posted(posts[..|posts| - 1]) + posts[|posts| - 1].samples
  }

  /** The samples of the POSTs that went one way, in order. */
  function Went<T>(posts: seq<Post<T>>, acked: bool): (samples: seq<T>)
  {
    if posts == [] then []
    else
      var rest := Went(posts[..|posts| - 1], acked);
      var last := posts[|posts| - 1];
      if last.acked == acked then rest + last.samples else rest
  }

  lemma {:induction false} WentAddUp<T>(posts: seq<Post<T>>)
    ensures multiset(Posted(posts)) == multiset(Went(posts, true)) + multiset(Went(posts, false))
    ensures |Posted(posts)| == |Went(posts, true)| + |Went(posts, false)|
  {
    if posts != [] { WentAddUp(posts[..|posts| - 1]); }
  }

  lemma PostOne<T>(posts: seq<Post<T>>, post: Post<T>)
    ensures Posted(posts + [post]) == Posted(posts) + post.samples
    ensures Went(posts + [post], post.acked) == Went(posts, post.acked) + post.samples
    ensures Went(posts + [post], !post.acked) == Went(posts, !post.acked)
  {
    assert (posts + [post])[..|posts|] == posts;
  }

  /** What happens to the agent between two wake-ups of the sender, or at one. */
  datatype Event<T> = Sampled(sample: T) | Ticked(windowElapsed: bool, answered: bool)

  // ----- What a run of events comes to -----

  /** What is buffered, every POST made, and what was evicted. */
  datatype Desk<T> = Desk(held: seq<T>, posts: seq<Post<T>>, evicted: seq<T>)

  /** One event: a sample is buffered, over the oldest if there is no room; a due tick posts the oldest batch. */
  function Turned<T>(s: Desk<T>, event: Event<T>, room: nat): Desk<T>
    requires 0 < room
  {
    match event
    case Sampled(sample) =>
      if |s.held| < room then s.(held := s.held + [sample])
      else s.(held := s.held[1..] + [sample], evicted := s.evicted + [s.held[0]])
    case Ticked(windowElapsed, answered) =>
      var n := if |s.held| < BATCH_SAMPLES then |s.held| else BATCH_SAMPLES;
      if n == BATCH_SAMPLES || (windowElapsed && n > 0) then
        s.(held := s.held[n..], posts := s.posts + [Post(s.held[..n], answered)])
      else s
  }

  function Course<T>(s: Desk<T>, events: seq<Event<T>>, room: nat): Desk<T>
    requires 0 < room
  {
    if events == [] then s else Turned(Course(s, events[..|events| - 1], room), events[|events| - 1], room)
  }

  /** Samples since the last tick. */
  function SinceTick<T>(events: seq<Event<T>>): nat
  {
    if events == [] || events[|events| - 1].Ticked? then 0 else 1 + SinceTick(events[..|events| - 1])
  }

  /** At most a batch is sampled between two ticks. */
  ghost predicate Paced<T>(events: seq<Event<T>>)
  {
    forall i :: 0 <= i <= |events| ==> SinceTick(events[..i]) <= BATCH_SAMPLES
  }

  ghost predicate AllAnswered<T>(events: seq<Event<T>>)
  {
    forall i :: 0 <= i < |events| ==> events[i].Ticked? ==> events[i].answered
  }

  lemma PacedBefore<T>(events: seq<Event<T>>)
    requires Paced(events) && events != []
    ensures Paced(events[..|events| - 1]) && SinceTick(events) <= BATCH_SAMPLES
  {
    var before := events[..|events| - 1];
    forall i | 0 <= i <= |before| ensures SinceTick(before[..i]) <= BATCH_SAMPLES { assert before[..i] == events[..i]; }
    TakeAll(events);
  }

  /**
   * Whether the server answers or not: if at most a batch is sampled between
   * two ticks and there is room for one batch more than is held, and for two,
   * nothing is ever evicted.
   */
  lemma {:induction false} PacedEvictsNothing<T>(s: Desk<T>, events: seq<Event<T>>, room: nat)
    requires Paced(events) && |s.held| + BATCH_SAMPLES <= room && 2 * BATCH_SAMPLES <= room
    ensures var t := Course(s, events, room);
      && t.evicted == s.evicted
      && |t.held| <= (if |s.held| < BATCH_SAMPLES then BATCH_SAMPLES - 1 else |s.held|) + SinceTick(events)
  {
    if events != [] {
      PacedBefore(events);
      PacedEvictsNothing(s, events[..|events| - 1], room);
    }
  }

  /** Where every tick is answered, no POST fails. */
  lemma {:induction false} AnsweredLosesNothing<T>(s: Desk<T>, events: seq<Event<T>>, room: nat)
    requires 0 < room && AllAnswered(events)
    ensures Went(Course(s, events, room).posts, false) == Went(s.posts, false)
  {
    if events != [] {
      var before, last := events[..|events| - 1], events[|events| - 1];
      forall i | 0 <= i < |before| ensures before[i].Ticked? ==> before[i].answered { assert before[i] == events[i]; }
      AnsweredLosesNothing(s, before, room);
      var t := Course(s, before, room);
      var n := if |t.held| < BATCH_SAMPLES then |t.held| else BATCH_SAMPLES;
      PostOne(t.posts, Post(t.held[..n], true));
    }
  }

  /** A tick that posts the oldest batch when it is due, and otherwise nothing. */
  lemma TickTurns<T>(s: Desk<T>, t: Desk<T>, windowElapsed: bool, answered: bool, batch: seq<T>, room: nat)
    requires 0 < room && t.evicted == s.evicted
    requires |s.held| < BATCH_SAMPLES && (!windowElapsed || |s.held| == 0) ==> t.posts == s.posts && t.held == s.held
    requires |s.held| >= BATCH_SAMPLES || (windowElapsed && |s.held| > 0) ==>
               && s.held == batch + t.held && t.posts == s.posts + [Post(batch, answered)]
               && |batch| == if |s.held| < BATCH_SAMPLES then |s.held| else BATCH_SAMPLES
    ensures t == Turned(s, Ticked(windowElapsed, answered), room)
  {
    if |s.held| >= BATCH_SAMPLES || (windowElapsed && |s.held| > 0) {
      assert s.held[..|batch|] == batch && s.held[|batch|..] == t.held;
    }
  }

  class Agent<T> {
    const ring: Ring<T>
    ghost var posts: seq<Post<T>>

    /** Every sample drained is in exactly one POST, in order, and no POST is empty or over a batch. */
    ghost predicate Valid()
      reads this, ring, ring.items
    {
      && ring.Valid()
      && Posted(posts) == Those(ring.left, true)
      && forall p :: p in posts ==> 0 < |p.samples| <= BATCH_SAMPLES
    }

    ghost function Seen(): Desk<T>
      reads this, ring, ring.items
      requires Valid()
    {
      Desk(ring.Contents(), posts, Those(ring.left, false))
    }

    constructor (zero: T)
      ensures Valid() && fresh(ring) && fresh(ring.items) && ring.Contents() == [] && ring.pushed == [] && posts == []
      ensures ring.items.Length == BUFFER_SAMPLES
    {
      ring := new Ring<T>(BUFFER_SAMPLES, zero);
      posts := [];
      new;
      assert Posted<T>([]) == [] == Those<T>([], true);
    }

    /** A drain and the POST of what it gave; nothing is sent of nothing. */
    method Flush(answered: bool) returns (batch: seq<T>, ok: bool)
      requires Valid()
      modifies this, ring, ring.items
      ensures Valid() && ring.pushed == old(ring.pushed)
      ensures old(ring.Contents()) == batch + ring.Contents()
      ensures |batch| == if BATCH_SAMPLES > old(ring.len) then old(ring.len) else BATCH_SAMPLES
      ensures ok == (batch == [] || answered)
      ensures posts == if batch == [] then old(posts) else old(posts) + [Post(batch, answered)]
      ensures Went(posts, answered) == Went(old(posts), answered) + batch
      ensures Went(posts, !answered) == Went(old(posts), !answered)
      ensures Those(ring.left, false) == Those(old(ring.left), false)
    {
      batch := ring.DrainUpTo(BATCH_SAMPLES);
      ok := |batch| == 0 || answered;
      if |batch| > 0 {
        PostOne(posts, Post(batch, answered));
        posts := posts + [Post(batch, answered)];
      } else {
        assert Those(ring.left, true) + [] == Those(ring.left, true);
        assert Went(posts, answered) + [] == Went(posts, answered);
      }
    }

    /** One wake-up: a full batch, or a window gone by, is flushed, and a POST that fails is not tried again. */
    method Wake(windowElapsed: bool, answered: bool) returns (ghost batch: seq<T>)
      requires Valid()
      modifies this, ring, ring.items
      ensures Valid() && ring.pushed == old(ring.pushed)
      ensures old(ring.len) < BATCH_SAMPLES && (!windowElapsed || old(ring.len) == 0) ==>
                posts == old(posts) && ring.Contents() == old(ring.Contents())
      ensures old(ring.len) >= BATCH_SAMPLES || (windowElapsed && old(ring.len) > 0) ==>
                && old(ring.Contents()) == batch + ring.Contents()
                && |batch| == (if old(ring.len) < BATCH_SAMPLES then old(ring.len) else BATCH_SAMPLES)
                && posts == old(posts) + [Post(batch, answered)]
      ensures Those(ring.left, false) == Those(old(ring.left), false)
    {
      batch := [];
      if ring.len >= BATCH_SAMPLES || windowElapsed {
        var sent, ok := Flush(answered);
        batch := sent;
      }
    }

    /** One sample into the ring. */
    method Sample(sample: T)
      requires Valid()
      modifies this, ring, ring.items
      ensures Valid() && ring.pushed == old(ring.pushed) + [sample]
      ensures Seen() == Turned(old(Seen()), Sampled(sample), ring.items.Length)
    {
      if ring.len == ring.items.Length { LeaveOne(ring.left, Left(ring.Contents()[0], false)); }
      ring.Push(sample);
    }

    method Tick(windowElapsed: bool, answered: bool)
      requires Valid()
      modifies this, ring, ring.items
      ensures Valid() && ring.pushed == old(ring.pushed)
      ensures Seen() == Turned(old(Seen()), Ticked(windowElapsed, answered), ring.items.Length)
    {
      ghost var s := Seen();
      ghost var batch := Wake(windowElapsed, answered);
      TickTurns(s, Seen(), windowElapsed, answered, batch, ring.items.Length);
    }

    /**
     * The last flush. `failing` is the first POST of it the server does not
     * acknowledge. It ends with an empty buffer and everything acknowledged, or
     * at that POST, with the rest still buffered and never sent.
     */
    method FinalFlush(failing: Option<nat>) returns (sent: nat, ok: bool, ghost acked: seq<T>, ghost lost: seq<T>)
      requires Valid()
      modifies this, ring, ring.items
      ensures Valid() && ring.pushed == old(ring.pushed)
      ensures old(ring.Contents()) == acked + lost + ring.Contents()
      ensures Went(posts, true) == Went(old(posts), true) + acked && sent == |acked|
      ensures Went(posts, false) == Went(old(posts), false) + lost
      ensures ok ==> ring.Contents() == [] && lost == []
      ensures !ok ==> 0 < |lost| <= BATCH_SAMPLES && failing.Some?
      ensures Those(ring.left, false) == Those(old(ring.left), false)
    {
      sent, ok, acked, lost := 0, true, [], [];
      var tried := 0;
      while ring.len > 0
        invariant Valid() && ring.pushed == old(ring.pushed)
        invariant old(ring.Contents()) == acked + ring.Contents() && |acked| == sent
        invariant Went(posts, true) == Went(old(posts), true) + acked && Went(posts, false) == Went(old(posts), false)
        invariant Those(ring.left, false) == Those(old(ring.left), false)
        decreases ring.len
      {
        var batch;
        batch, ok := Flush(failing != Some(tried));
        Associates(acked, batch, ring.Contents());
        if !ok {
          lost := batch;
          return;
        }
        Associates(Went(old(posts), true), acked, batch);
        acked := acked + batch;
        sent, tried := sent + |batch|, tried + 1;
      }
    }

    /**
     * Sampling and sending until SIGTERM, then the last flush. `course` is the
     * agent as the signal finds it. If at most a batch is sampled between two
     * ticks, and there was room, nothing is evicted; if every POST is answered
     * too, the server gets every sample, in order.
     */
    method Run(events: seq<Event<T>>, failing: Option<nat>)
      returns (ok: bool, ghost course: Desk<T>, ghost acked: seq<T>, ghost lost: seq<T>)
      requires Valid()
      modifies this, ring, ring.items
      ensures Valid() && ring.pushed == old(ring.pushed) + Samples(events)
      ensures ok ==> ring.Contents() == [] && lost == []
      ensures failing.None? ==> ok
      ensures course == Course(old(Seen()), events, ring.items.Length)
      ensures course.held == acked + lost + ring.Contents() && course.evicted == Those(ring.left, false)
      ensures Went(posts, true) == Went(course.posts, true) + acked
      ensures Went(posts, false) == Went(course.posts, false) + lost
      ensures var paced := Paced(events)
          && old(ring.len) + BATCH_SAMPLES <= ring.items.Length && 2 * BATCH_SAMPLES <= ring.items.Length;
        && (paced ==> Those(ring.left, false) == old(Those(ring.left, false)))
        && (AllAnswered(events) && failing.None? ==> Went(posts, false) == old(Went(posts, false)))
        && (paced && AllAnswered(events) && failing.None?
            && old(Went(posts, false)) == [] && old(Those(ring.left, false)) == [] ==>
              Went(posts, true) == old(ring.pushed) + Samples(events))
    {
      course := Live(events);
      ghost var start, room := old(Seen()), ring.items.Length;
      if Paced(events) && |start.held| + BATCH_SAMPLES <= room && 2 * BATCH_SAMPLES <= room {
        PacedEvictsNothing(start, events, room);
      }
      if AllAnswered(events) { AnsweredLosesNothing(start, events, room); }
      var sent;
      sent, ok, acked, lost := FinalFlush(failing);
      DeliveredIff(ring.pushed, ring.left, ring.Contents(), posts);
    }

    /** The loop up to the signal. */
    method Live(events: seq<Event<T>>) returns (ghost course: Desk<T>)
      requires Valid()
      modifies this, ring, ring.items
      ensures Valid() && ring.pushed == old(ring.pushed) + Samples(events)
      ensures course == Seen() == Course(old(Seen()), events, ring.items.Length)
    {
      ghost var start, room := Seen(), ring.items.Length;
      for i := 0 to |events|
        invariant Valid() && ring.pushed == old(ring.pushed) + Samples(events[..i])
        invariant Seen() == Course(start, events[..i], room)
      {
        assert events[..i + 1][..i] == events[..i];
        match events[i]
        case Sampled(sample) =>
          Sample(sample);
          assert Samples(events[..i + 1]) == Samples(events[..i]) + [sample];
        case Ticked(windowElapsed, answered) => Tick(windowElapsed, answered);
      }
      assert events[..|events|] == events;
      course := Seen();
    }
  }

  function Samples<T>(events: seq<Event<T>>): (samples: seq<T>)
  {
    if events == [] then []
    else
      var rest := Samples(events[..|events| - 1]);
      var last := events[|events| - 1];
      if last.Sampled? then rest + [last.sample] else rest
  }

  /**
   * Where every sample is: acknowledged, in a POST that failed, evicted, or
   * still buffered, and in only one of them. What is gone and what is held, in
   * order, is what was sampled.
   */
  lemma EverySampleIsOneThing<T>(pushed: seq<T>, left: seq<Left<T>>, held: seq<T>, posts: seq<Post<T>>)
    requires Values(left) + held == pushed && Posted(posts) == Those(left, true)
    ensures multiset(pushed) ==
            multiset(Went(posts, true)) + multiset(Went(posts, false)) + multiset(Those(left, false)) + multiset(held)
    ensures |pushed| == |Posted(posts)| + |Those(left, false)| + |held|
  {
    ThoseAddUp(left);
    WentAddUp(posts);
  }

  lemma {:induction false} NoneEvicted<T>(left: seq<Left<T>>)
    requires Those(left, false) == []
    ensures Those(left, true) == Values(left)
  {
    if left != [] { NoneEvicted(left[..|left| - 1]); }
  }

  lemma {:induction false} NoneFailed<T>(posts: seq<Post<T>>)
    requires Went(posts, false) == [] && forall p :: p in posts ==> p.samples != []
    ensures Went(posts, true) == Posted(posts)
  {
    if posts != [] {
      assert posts[|posts| - 1] in posts;
      forall p | p in posts[..|posts| - 1] ensures p.samples != [] { assert p in posts; }
      NoneFailed(posts[..|posts| - 1]);
    }
  }

  /** The server has every sample, in sampling order, exactly when none failed, none was evicted and none is left. */
  lemma DeliveredIff<T>(pushed: seq<T>, left: seq<Left<T>>, held: seq<T>, posts: seq<Post<T>>)
    requires Values(left) + held == pushed && Posted(posts) == Those(left, true)
    requires forall p :: p in posts ==> p.samples != []
    ensures Went(posts, true) == pushed <==> Went(posts, false) == [] && Those(left, false) == [] && held == []
  {
    EverySampleIsOneThing(pushed, left, held, posts);
    if Went(posts, false) == [] && Those(left, false) == [] && held == [] {
      NoneFailed(posts);
      NoneEvicted(left);
      assert Values(left) + [] == Values(left);
    }
  }
}
