/** Runs of a state machine: finite traces, each state a step from the one before. */
module Traces {

  ghost predicate StepAt<S>(step: (S, S) -> bool, trace: seq<S>, i: nat)
    requires i + 1 < |trace|
  {
    step(trace[i], trace[i + 1])
  }

  ghost predicate RunsFrom<S>(step: (S, S) -> bool, s: S, trace: seq<S>)
  {
    trace != [] && trace[0] == s && forall i: nat :: i + 1 < |trace| ==> StepAt(step, trace, i)
  }

  /** One step more at the end. */
  lemma Extend<S>(step: (S, S) -> bool, s: S, trace: seq<S>, t: S)
    requires RunsFrom(step, s, trace) && step(trace[|trace| - 1], t)
    ensures RunsFrom(step, s, trace + [t])
  {
    var longer := trace + [t];
    forall i: nat | i + 1 < |longer| ensures StepAt(step, longer, i) {
      if i + 1 < |trace| { assert StepAt(step, trace, i); }
    }
  }

  /** And one at the beginning. */
  lemma StepFirst<S>(step: (S, S) -> bool, s: S, t: S, rest: seq<S>)
    requires step(s, t) && RunsFrom(step, t, rest)
    ensures RunsFrom(step, s, [s] + rest) && ([s] + rest)[|rest|] == rest[|rest| - 1]
  {
    var trace := [s] + rest;
    forall i: nat | i + 1 < |trace| ensures StepAt(step, trace, i) {
      if i > 0 { assert StepAt(step, rest, i - 1); }
    }
  }

  /** What every step keeps, every state of a run has. */
  lemma {:induction false} InvariantHolds<S>(step: (S, S) -> bool, s: S, trace: seq<S>, inv: S -> bool, i: nat)
    requires RunsFrom(step, s, trace) && inv(s) && i < |trace|
    requires forall a, b :: Preserves(step, inv, a, b)
    ensures inv(trace[i])
  {
    if i > 0 {
      InvariantHolds(step, s, trace, inv, i - 1);
      assert StepAt(step, trace, i - 1) && Preserves(step, inv, trace[i - 1], trace[i]);
    }
  }

  ghost predicate Preserves<S>(step: (S, S) -> bool, inv: S -> bool, a: S, b: S)
  {
    inv(a) && step(a, b) ==> inv(b)
  }

  /** A number no party has yet. */
  lemma FreshKey<V>(m: map<nat, V>) returns (key: nat)
    ensures key !in m
  {
    var keys := m.Keys;
    key := 0;
    while keys != {}
      invariant keys <= m.Keys
      invariant forall k :: k in m && k !in keys ==> k < key
      decreases |keys|
    {
      var k :| k in keys;
      if key <= k { key := k + 1; }
      keys := keys - {k};
    }
  }
}
