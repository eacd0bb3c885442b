/** Which requests a group holds, read off their joined names (packages/contracts/src/groups.ts). */
module Groups {

  predicate SitsIn(request: string, group: string) { group + "/" <= request }

  /** `innermost` is the longest non-empty group the request sits in, or empty when it sits in none. */
  ghost predicate IsInnermost(request: string, groups: seq<string>, innermost: string)
  {
    && (innermost != "" ==> innermost in groups && SitsIn(request, innermost))
    && forall g :: g in groups && SitsIn(request, g) ==> |g| <= |innermost|
  }

  method InnermostGroup(request: string, groups: seq<string>) returns (innermost: string)
    ensures IsInnermost(request, groups, innermost)
    ensures innermost == Innermost(request, groups)
  {
    innermost := "";
    for i := 0 to |groups|
      invariant innermost == Innermost(request, groups[..i])
    {
      assert groups[..i + 1][..i] == groups[..i];
      if |groups[i]| > |innermost| && SitsIn(request, groups[i]) { innermost := groups[i]; }
    }
    assert groups[..|groups|] == groups;
    InnermostIs(request, groups);
  }

  function Innermost(request: string, groups: seq<string>): string
  {
    if groups == [] then ""
    else
      var rest := Innermost(request, groups[..|groups| - 1]);
      var last := groups[|groups| - 1];
      if |last| > |rest| && SitsIn(request, last) then last else rest
  }

  lemma {:induction false} InnermostIs(request: string, groups: seq<string>)
    ensures IsInnermost(request, groups, Innermost(request, groups))
  {
    if groups != [] {
      InnermostIs(request, groups[..|groups| - 1]);
      forall g | g in groups ensures g == groups[|groups| - 1] || g in groups[..|groups| - 1] {}
    }
  }

  /** Two groups a request sits in: the shorter is the other, or one of its ancestors. */
  lemma Nested(request: string, inner: string, outer: string)
    requires SitsIn(request, inner) && SitsIn(request, outer) && |outer| <= |inner|
    ensures inner == outer || outer + "/" <= inner
  {
    assert inner == request[..|inner|] && outer + "/" == request[..|outer| + 1];
    if |outer| == |inner| {
      assert (outer + "/")[..|outer|] == request[..|outer|] == outer;
    } else {
      assert inner[..|outer| + 1] == request[..|outer| + 1];
    }
  }

  /** The names a predicate keeps, in order. */
  function Filter(names: seq<string>, keep: string -> bool): (kept: seq<string>)
    ensures forall n :: n in kept <==> n in names && keep(n)
  {
    if names == [] then []
    else if keep(names[0]) then [names[0]] + Filter(names[1..], keep)
    else Filter(names[1..], keep)
  }

  function RequestsInGroup(requests: seq<string>, groups: seq<string>, group: string): (held: seq<string>)
  {
    if group == "" then Filter(requests, name => Innermost(name, groups) == "")
    else if group !in groups then []
    else Filter(requests, name => SitsIn(name, group))
  }

  predicate InOrUnder(innermost: string, group: string) { innermost == group || group + "/" <= innermost }

  lemma MembershipIs(request: string, groups: seq<string>, group: string)
    requires group in groups && group != ""
    ensures SitsIn(request, group) <==> InOrUnder(Innermost(request, groups), group)
  {
    var innermost := Innermost(request, groups);
    InnermostIs(request, groups);
    if SitsIn(request, group) { Nested(request, innermost, group); }
    if group + "/" <= innermost {
      assert innermost != "";
      assert (group + "/") == innermost[..|group| + 1] == request[..|group| + 1];
    }
  }

  lemma {:induction false} FilterSame(names: seq<string>, p: string -> bool, q: string -> bool)
    requires forall n :: n in names ==> p(n) == q(n)
    ensures Filter(names, p) == Filter(names, q)
  {
    if names != [] {
      assert names[0] in names;
      forall n | n in names[1..] ensures p(n) == q(n) { assert n in names; }
      FilterSame(names[1..], p, q);
    }
  }

  /**
   * A known group holds, in order, exactly the requests whose innermost group
   * is it or lies under it: the browser's list and the server's merge agree.
   */
  lemma GroupHolds(requests: seq<string>, groups: seq<string>, group: string)
    requires group in groups && group != ""
    ensures RequestsInGroup(requests, groups, group) ==
            Filter(requests, name => InOrUnder(Innermost(name, groups), group))
  {
    forall n | n in requests ensures SitsIn(n, group) == InOrUnder(Innermost(n, groups), group) {
      MembershipIs(n, groups, group);
    }
    FilterSame(requests, name => SitsIn(name, group), name => InOrUnder(Innermost(name, groups), group));
  }

  /** A group the run does not have holds nothing. */
  lemma HeldByKnownGroups(requests: seq<string>, groups: seq<string>, group: string, request: string)
    requires group != ""
    ensures request in RequestsInGroup(requests, groups, group) <==>
              request in requests && group in groups && InOrUnder(Innermost(request, groups), group)
  {
    if group in groups { MembershipIs(request, groups, group); }
  }

  /** "(no group)" is the remainder: the requests no group holds. */
  lemma NoGroupIsTheRest(requests: seq<string>, groups: seq<string>, request: string)
    requires request in requests
    ensures request in RequestsInGroup(requests, groups, "") <==>
            forall group :: group in groups && group != "" ==> request !in RequestsInGroup(requests, groups, group)
  {
    InnermostIs(request, groups);
    var innermost := Innermost(request, groups);
    if innermost != "" {
      assert request in RequestsInGroup(requests, groups, innermost);
    }
  }

  /** How many requests have this innermost group. */
  function Held(requests: seq<string>, groups: seq<string>, innermost: string): nat
  {
    |Filter(requests, name => Innermost(name, groups) == innermost)|
  }

  function Total(requests: seq<string>, groups: seq<string>, classes: seq<string>): nat
  {
    if classes == [] then 0 else Held(requests, groups, classes[0]) + Total(requests, groups, classes[1..])
  }

  function Occurs(classes: seq<string>, c: string): nat
  {
    if classes == [] then 0 else (if classes[0] == c then 1 else 0) + Occurs(classes[1..], c)
  }

  lemma {:induction false} OneRequestMore(requests: seq<string>, groups: seq<string>, classes: seq<string>)
    requires requests != []
    ensures Total(requests, groups, classes) ==
            Total(requests[1..], groups, classes) + Occurs(classes, Innermost(requests[0], groups))
    decreases |classes|
  {
    if classes != [] { OneRequestMore(requests, groups, classes[1..]); }
  }

  lemma {:induction false} NothingToCount(groups: seq<string>, classes: seq<string>)
    ensures Total([], groups, classes) == 0
  {
    if classes != [] { NothingToCount(groups, classes[1..]); }
  }

  lemma {:induction false} OccursOnce(classes: seq<string>, c: string)
    requires c in classes && forall i, j :: 0 <= i < j < |classes| ==> classes[i] != classes[j]
    ensures Occurs(classes, c) == 1
  {
    if classes[0] == c { OccursNot(classes[1..], c); } else { OccursOnce(classes[1..], c); }
  }

  lemma {:induction false} OccursNot(classes: seq<string>, c: string)
    requires c !in classes
    ensures Occurs(classes, c) == 0
  {
    if classes != [] { OccursNot(classes[1..], c); }
  }

  /** The innermost groups, with "(no group)", partition the requests: every one is counted once. */
  lemma {:induction false} ClassesPartition(requests: seq<string>, groups: seq<string>, classes: seq<string>)
    requires forall i, j :: 0 <= i < j < |classes| ==> classes[i] != classes[j]
    requires "" in classes && forall g :: g in groups ==> g in classes
    ensures Total(requests, groups, classes) == |requests|
    decreases |requests|
  {
    if requests == [] {
      NothingToCount(groups, classes);
    } else {
      OneRequestMore(requests, groups, classes);
      InnermostIs(requests[0], groups);
      OccursOnce(classes, Innermost(requests[0], groups));
      ClassesPartition(requests[1..], groups, classes);
    }
  }
}
