/** Bytes, fixed-width integers and the two result types the other modules share. */
module Bytes {

  datatype Option<+T> = None | Some(value: T)

  type byte = b: int | 0 <= b < 256

  /** An unsigned integer, least significant byte first. */
  function LittleEndian(s: seq<byte>): (n: nat)
  {
    if s == [] then 0 else s[0] + 256 * LittleEndian(s[1..])
  }

  /** `width` bytes of `n`, least significant first; higher bytes are cut off. */
  function ToLittleEndian(n: nat, width: nat): (s: seq<byte>)
    ensures |s| == width
  {
    if width == 0 then [] else [n % 256] + ToLittleEndian(n / 256, width - 1)
  }

  function Power(base: nat, exponent: nat): (p: nat)
    ensures base > 0 ==> p > 0
  {
    if exponent == 0 then 1 else base * Power(base, exponent - 1)
  }

  lemma {:induction false} LittleEndianRoundTrip(n: nat, width: nat)
    requires n < Power(256, width)
    ensures LittleEndian(ToLittleEndian(n, width)) == n
  {
    if width > 0 {
      assert n / 256 < Power(256, width - 1);
      LittleEndianRoundTrip(n / 256, width - 1);
      var s := ToLittleEndian(n, width);
      assert s[1..] == ToLittleEndian(n / 256, width - 1);
    }
  }

  /** A two's-complement integer, most significant byte first. */
  function BigEndianSigned(s: seq<byte>): (n: int)
  {
    if s == [] then 0
    else
      var unsigned := BigEndian(s);
      if s[0] < 128 then unsigned else unsigned - Power(256, |s|)
  }

  function BigEndian(s: seq<byte>): (n: nat)
  {
    if s == [] then 0 else 256 * BigEndian(s[..|s| - 1]) + s[|s| - 1]
  }

  /** The first `k`, less the first `n`. */
  lemma TakeThenDrop<T>(s: seq<T>, k: nat, n: nat)
    requires n <= k <= |s|
    ensures s[..k][n..] == s[n..][..k - n]
  {
    var x, y := s[..k][n..], s[n..][..k - n];
    assert |x| == |y|;
    forall i | 0 <= i < |x| ensures x[i] == y[i] { assert x[i] == s[n + i] && y[i] == s[n + i]; }
  }

  lemma DropOfSum<T>(a: seq<T>, b: seq<T>, n: nat)
    requires n <= |a|
    ensures (a + b)[n..] == a[n..] + b
  {
  }

  lemma DropTwice<T>(s: seq<T>, n: nat, m: nat)
    requires n + m <= |s|
    ensures s[n..][m..] == s[n + m..]
  {
  }

  lemma DropThenTake<T>(s: seq<T>, n: nat, m: nat)
    requires n + m <= |s|
    ensures s[n..][..m] == s[n..n + m]
  {
  }

  lemma SliceOfDrop<T>(s: seq<T>, n: nat, c: nat, d: nat)
    requires c <= d && n + d <= |s|
    ensures s[n..][c..d] == s[n + c..n + d]
  {
  }

  lemma TakeDrop<T>(s: seq<T>, n: nat)
    requires n <= |s|
    ensures s == s[..n] + s[n..]
  {
  }

  lemma TakeAll<T>(s: seq<T>)
    ensures s[..|s|] == s
  {
  }

  lemma EmptyThen<T>(empty: seq<T>, s: seq<T>)
    requires empty == []
    ensures empty + s == s && s + empty == s
  {
  }

  lemma Associates<T>(a: seq<T>, b: seq<T>, c: seq<T>)
    ensures a + b + c == a + (b + c)
  {
  }

  lemma SliceOfSlice<T>(s: seq<T>, a: nat, b: nat, c: nat, d: nat)
    requires a <= b <= |s| && c <= d <= b - a
    ensures s[a..b][c..d] == s[a + c..a + d]
  {
    var x, y := s[a..b][c..d], s[a + c..a + d];
    assert |x| == |y|;
    forall i | 0 <= i < |x| ensures x[i] == y[i] { assert x[i] == s[a..b][c + i]; }
  }

  /** Parts put end to end. */
  function Concat<T>(chunks: seq<seq<T>>): (all: seq<T>)
  {
    if chunks == [] then [] else chunks[0] + Concat(chunks[1..])
  }

  lemma ConcatTwo<T>(all: seq<T>, k: nat)
    requires k <= |all|
    ensures Concat([all[..k], all[k..]]) == all
  {
    var chunks := [all[..k], all[k..]];
    assert chunks[1..] == [all[k..]] && chunks[1..][1..] == [];
    assert Concat(chunks[1..]) == all[k..] + [] == all[k..];
  }

  lemma ConcatSnoc<T>(chunks: seq<seq<T>>, last: seq<T>)
    ensures Concat(chunks + [last]) == Concat(chunks) + last
  {
    if chunks == [] {
      assert Concat([last]) == last + Concat<T>([]);
    } else {
      ConcatSnoc(chunks[1..], last);
      assert (chunks + [last])[1..] == chunks[1..] + [last];
    }
  }
}
