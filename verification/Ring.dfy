/**
 * The agent's bounded, drop-oldest buffer (agent/internal/buffer/buffer.go).
 * Each method runs under the buffer's mutex, so calls do not overlap.
 */
module Ring {
  import opened Bytes

  /** How an element left the buffer. */
  datatype Left<T> = Left(value: T, drained: bool)

  function Values<T>(left: seq<Left<T>>): (values: seq<T>)
    ensures |values| == |left|
  {
    if left == [] then [] else Values(left[..|left| - 1]) + [left[|left| - 1].value]
  }

  /** The elements that left one way, in order. */
  function Those<T>(left: seq<Left<T>>, drained: bool): (values: seq<T>)
  {
    if left == [] then []
    else
      var rest := Those(left[..|left| - 1], drained);
      var last := left[|left| - 1];
      if last.drained == drained then rest + [last.value] else rest
  }

  lemma {:induction false} ThoseAddUp<T>(left: seq<Left<T>>)
    ensures |Those(left, true)| + |Those(left, false)| == |left|
    ensures multiset(Values(left)) == multiset(Those(left, true)) + multiset(Those(left, false))
  {
    if left != [] {
      ThoseAddUp(left[..|left| - 1]);
    }
  }

  /** `(head + k) % n`: slot `k` from the head, going round. */
  function Slot(head: nat, k: nat, n: nat): (r: nat)
    requires head < n && k <= n
    ensures r < n
  {
    if head + k < n then head + k else head + k - n
  }

  lemma SlotIsMod(head: nat, k: nat, n: nat)
    requires head < n && k <= n
    ensures Slot(head, k, n) == (head + k) % n
  {
    var q := (head + k) / n;
    assert head + k == q * n + (head + k) % n;
    if q >= 2 { AtLeastTwice(q, n); }
  }

  lemma AtLeastTwice(q: nat, n: nat)
    requires q >= 2
    ensures q * n >= n + n
  {
    assert q * n == (q - 2) * n + n + n;
  }

  /** Counting on from a slot counts on from the head. */
  lemma SlotOn(head: nat, k: nat, n: nat)
    requires head < n && k < n
    ensures Slot(Slot(head, 1, n), k, n) == Slot(head, k + 1, n)
  {
  }

  /** The `len` elements from the head, oldest first. */
  ghost function Window<T>(a: seq<T>, head: nat, len: nat): (s: seq<T>)
    requires head < |a| && len <= |a|
    ensures |s| == len && forall k :: 0 <= k < len ==> s[k] == a[Slot(head, k, |a|)]
  {
    seq(len, k requires 0 <= k < len => a[Slot(head, k, |a|)])
  }

  /** Every other slot holds the zero value. */
  ghost predicate Cleared<T>(a: seq<T>, head: nat, len: nat, zero: T)
    requires head < |a|
  {
    forall k :: len <= k < |a| ==> a[Slot(head, k, |a|)] == zero
  }

  lemma AddOne<T>(a: seq<T>, head: nat, len: nat, v: T, zero: T)
    requires head < |a| && len < |a| && Cleared(a, head, len, zero)
    ensures var b := a[Slot(head, len, |a|) := v];
      Window(b, head, len + 1) == Window(a, head, len) + [v] && Cleared(b, head, len + 1, zero)
  {
  }

  lemma DropOne<T>(a: seq<T>, head: nat, len: nat, zero: T)
    requires head < |a| && 0 < len <= |a| && Cleared(a, head, len, zero)
    ensures var b := a[head := zero];
      && a[head] == Window(a, head, len)[0]
      && Window(b, Slot(head, 1, |a|), len - 1) == Window(a, head, len)[1..]
      && Cleared(b, Slot(head, 1, |a|), len - 1, zero)
  {
    var n := |a|;
    forall k | 0 <= k < n ensures Slot(Slot(head, 1, n), k, n) == Slot(head, k + 1, n) { SlotOn(head, k, n); }
  }

  lemma Overwrite<T>(a: seq<T>, head: nat, v: T)
    requires head < |a|
    ensures Window(a[head := v], Slot(head, 1, |a|), |a|) == Window(a, head, |a|)[1..] + [v]
  {
    var n := |a|;
    forall k | 0 <= k < n ensures Slot(Slot(head, 1, n), k, n) == Slot(head, k + 1, n) { SlotOn(head, k, n); }
  }

  lemma LeaveOne<T>(left: seq<Left<T>>, gone: Left<T>)
    ensures Values(left + [gone]) == Values(left) + [gone.value]
    ensures Those(left + [gone], gone.drained) == Those(left, gone.drained) + [gone.value]
    ensures Those(left + [gone], !gone.drained) == Those(left, !gone.drained)
  {
    assert (left + [gone])[..|left|] == left;
  }

  lemma LeaveAll<T>(left: seq<Left<T>>, out: seq<T>) returns (all: seq<Left<T>>)
    ensures Values(all) == Values(left) + out
    ensures Those(all, true) == Those(left, true) + out
    ensures Those(all, false) == Those(left, false)
  {
    all := left;
    for i := 0 to |out|
      invariant Values(all) == Values(left) + out[..i]
      invariant Those(all, true) == Those(left, true) + out[..i] && Those(all, false) == Those(left, false)
    {
      LeaveOne(all, Left(out[i], true));
      all := all + [Left(out[i], true)];
    }
  }

  /** The front of what was held leaves: what is gone, then what is held, is still the same. */
  lemma Leaves<T>(left: seq<Left<T>>, before: seq<T>, out: seq<T>, after: seq<T>) returns (all: seq<Left<T>>)
    requires before == out + after
    ensures Values(all) + after == Values(left) + before
    ensures Those(all, true) == Those(left, true) + out
    ensures Those(all, false) == Those(left, false)
  {
    all := LeaveAll(left, out);
    Associates(Values(left), out, after);
  }

  const UINT64: nat := 0x1_0000_0000_0000_0000

  /** Counting one more in 64 bits. */
  lemma CountOn(n: nat)
    ensures (n % UINT64 + 1) % UINT64 == (n + 1) % UINT64
  {
  }

  /**
   * `pushed` is every element ever pushed and `left` every one that is gone,
   * both in push order: what is gone, then what is held, is what was pushed.
   */
  class Ring<T> {
    const items: array<T>
    const zero: T
    var head: nat
    var len: nat
    var dropped: nat
    ghost var pushed: seq<T>
    ghost var left: seq<Left<T>>

    ghost predicate Valid()
      reads this, items
    {
      && head < items.Length && len <= items.Length
      && Cleared(items[..], head, len, zero)
      && Values(left) + Contents() == pushed
      && dropped == |Those(left, false)| % UINT64
    }

    /** What is buffered, oldest first. */
    ghost function Contents(): (s: seq<T>)
      requires head < items.Length && len <= items.Length
      reads this, items
      ensures |s| == len
    {
      Window(items[..], head, len)
    }

    constructor (capacity: int, zero: T)
      ensures Valid() && fresh(items) && Contents() == [] && pushed == [] && left == [] && dropped == 0
      ensures items.Length == if capacity < 1 then 1 else capacity
    {
      var size := if capacity < 1 then 1 else capacity;
      this.zero := zero;
      items := new T[size](_ => zero);
      head, len, dropped, pushed, left := 0, 0, 0, [], [];
      new;
      assert Contents() == [] && Values<T>([]) == [] && Those<T>([], false) == [];
    }

    /** Appends, evicting the oldest element if the buffer is full. */
    method Push(v: T)
      requires Valid()
      modifies this, items
      ensures Valid() && pushed == old(pushed) + [v]
      ensures old(len) < items.Length ==> Contents() == old(Contents()) + [v] && left == old(left)
      ensures old(len) == items.Length ==>
                && Contents() == old(Contents())[1..] + [v]
                && left == old(left) + [Left(old(Contents())[0], false)]
      ensures dropped == if old(len) == items.Length then (old(dropped) + 1) % UINT64 else old(dropped)
    {
      if len == items.Length { Replace(v); } else { Add(v); }
    }

    /** The slot so many after the head. */
    method SlotFrom(k: nat) returns (slot: nat)
      requires head < items.Length && k <= items.Length
      ensures slot == Slot(head, k, items.Length)
    {
      SlotIsMod(head, k, items.Length);
      slot := (head + k) % items.Length;
    }

    /** Full: the oldest is overwritten and the head advances past it. */
    method Replace(v: T)
      requires Valid() && len == items.Length
      modifies this, items
      ensures Valid() && pushed == old(pushed) + [v] && len == old(len)
      ensures Contents() == old(Contents())[1..] + [v]
      ensures left == old(left) + [Left(old(Contents())[0], false)]
      ensures dropped == (old(dropped) + 1) % UINT64
    {
      ghost var before, slots := Contents(), items[..];
      Overwrite(slots, head, v);
      Evicts(left, before, v);
      left, pushed := left + [Left(before[0], false)], pushed + [v];
      items[head] := v;
      assert items[..] == slots[head := v];
      head := SlotFrom(1);
      dropped := (dropped + 1) % UINT64;
    }

    method Add(v: T)
      requires Valid() && len < items.Length
      modifies this, items
      ensures Valid() && pushed == old(pushed) + [v] && left == old(left) && dropped == old(dropped)
      ensures Contents() == old(Contents()) + [v]
    {
      ghost var slots := items[..];
      AddOne(slots, head, len, v, zero);
      Associates(Values(left), Contents(), [v]);
      var slot := SlotFrom(len);
      items[slot] := v;
      assert items[..] == slots[slot := v];
      len, pushed := len + 1, pushed + [v];
    }

    /** Removes and returns at most `n` elements, oldest first. */
    method DrainUpTo(n: int) returns (out: seq<T>)
      requires Valid()
      modifies this, items
      ensures Valid() && pushed == old(pushed) && dropped == old(dropped)
      ensures |out| == if n < 0 then 0 else if n > old(len) then old(len) else n
      ensures old(Contents()) == out + Contents()
      ensures Those(left, true) == Those(old(left), true) + out && Those(left, false) == Those(old(left), false)
    {
      var m := if n < 0 then 0 else if n > len then len else n;
      ghost var before := Contents();
      out := TakeFront(m);
      len := len - m;
      ghost var after := Contents();
      TakeDrop(before, m);
      left := Leaves(left, before, out, after);
    }

    /** The drain's loop: `m` elements read and cleared, the head moved past them. */
    method TakeFront(m: nat) returns (out: seq<T>)
      requires head < items.Length && m <= len <= items.Length && Cleared(items[..], head, len, zero)
      modifies `head, items
      ensures head < items.Length && Cleared(items[..], head, len - m, zero)
      ensures out == old(Window(items[..], head, len))[..m]
      ensures Window(items[..], head, len - m) == old(Window(items[..], head, len))[m..]
    {
      out := [];
      ghost var before := Window(items[..], head, len);
      for i := 0 to m
        invariant head < items.Length && out == before[..i]
        invariant Window(items[..], head, len - i) == before[i..] && Cleared(items[..], head, len - i, zero)
      {
        var x := TakeOne(len - i);
        assert before[i..][0] == before[i] && before[i..][1..] == before[i + 1..];
        out := out + [x];
      }
    }

    method TakeOne(ghost size: nat) returns (x: T)
      requires head < items.Length && 0 < size <= items.Length && Cleared(items[..], head, size, zero)
      modifies `head, items
      ensures head < items.Length && Cleared(items[..], head, size - 1, zero)
      ensures x == old(Window(items[..], head, size))[0]
      ensures Window(items[..], head, size - 1) == old(Window(items[..], head, size))[1..]
    {
      ghost var slots := items[..];
      DropOne(slots, head, size, zero);
      x := items[head];
      items[head] := zero;
      assert items[..] == slots[head := zero];
      head := SlotFrom(1);
    }
  }

  /** What left, then what is held, when the oldest is evicted and one is added; and the count of evictions. */
  lemma Evicts<T>(left: seq<Left<T>>, before: seq<T>, v: T)
    requires before != []
    ensures var all := left + [Left(before[0], false)];
      && Values(all) + (before[1..] + [v]) == Values(left) + before + [v]
      && |Those(all, false)| % UINT64 == (|Those(left, false)| % UINT64 + 1) % UINT64
  {
    LeaveOne(left, Left(before[0], false));
    CountOn(|Those(left, false)|);
    assert [before[0]] + before[1..] == before;
    Associates(Values(left), [before[0]], before[1..] + [v]);
    Associates([before[0]], before[1..], [v]);
    Associates(Values(left), before, [v]);
  }
}
