/**
  Hardware words. A `Bit#(n)` of the design is a sequence of n booleans whose
  index i is bit i, so index 0 is the least significant bit and the first bit
  on the wire. The concatenation {hi, lo} of the source is `lo + hi` here and
  the slice w[h:l] is `w[l..h+1]`.
 */
module Bits {
  type Word = seq<bool>

  function Xor(a: bool, b: bool): bool {
    a != b
  }

  function Ones(n: nat): (w: Word)
    ensures |w| == n
  {
    seq(n, _ => true)
  }

  function Zeros(n: nat): (w: Word)
    ensures |w| == n
  {
    seq(n, _ => false)
  }

  /** w << k, truncated to the width of w. */
  function Shl(w: Word, k: nat): (r: Word)
    ensures |r| == |w|
  {
    seq(|w|, i requires 0 <= i < |w| => i >= k && w[i - k])
  }

  /** w >> k, zero filled. */
  function Shr(w: Word, k: nat): (r: Word)
    ensures |r| == |w|
  {
    seq(|w|, i requires 0 <= i < |w| => i + k < |w| && w[i + k])
  }

  function XorW(a: Word, b: Word): (r: Word)
    requires |a| == |b|
    ensures |r| == |a|
  {
    seq(|a|, i requires 0 <= i < |a| => Xor(a[i], b[i]))
  }

  function OrW(a: Word, b: Word): (r: Word)
    requires |a| == |b|
    ensures |r| == |a|
  {
    seq(|a|, i requires 0 <= i < |a| => a[i] || b[i])
  }

  ghost predicate AllWide(ws: seq<Word>, n: nat) {
    forall i :: 0 <= i < |ws| ==> |ws[i]| == n
  }

  /** The words of ws one after the other, as bits on a wire. */
  function Concat(ws: seq<Word>): Word {
    if ws == [] then [] else Concat(ws[..|ws| - 1]) + ws[|ws| - 1]
  }

  lemma ConcatSnoc(ws: seq<Word>, w: Word)
    ensures Concat(ws + [w]) == Concat(ws) + w
  {
    assert (ws + [w])[..|ws|] == ws;
  }

  lemma {:induction false} ConcatLength(ws: seq<Word>, n: nat)
    requires AllWide(ws, n)
    ensures |Concat(ws)| == n * |ws|
  {
    if ws != [] {
      var k := |ws| - 1;
      ConcatLength(ws[..k], n);
      assert n * (k + 1) == n * k + n;
    }
  }

  lemma {:induction false} ConcatIndex(ws: seq<Word>, n: nat, i: nat, j: nat)
    requires AllWide(ws, n) && i < |ws| && j < n
    ensures |Concat(ws)| == n * |ws| && 0 <= n * i + j < n * |ws|
    ensures Concat(ws)[n * i + j] == ws[i][j]
  {
    var k := |ws| - 1;
    ConcatLength(ws, n);
    ConcatLength(ws[..k], n);
    assert n * (k + 1) == n * k + n;
    if i < k {
      ConcatIndex(ws[..k], n, i, j);
    }
  }

  lemma {:induction false} ConcatAppend(a: seq<Word>, b: seq<Word>)
    ensures Concat(a + b) == Concat(a) + Concat(b)
  {
    if b == [] {
      assert a + b == a;
    } else {
      var front, w := b[..|b| - 1], b[|b| - 1];
      ConcatAppend(a, front);
      assert a + b == (a + front) + [w];
      ConcatSnoc(a + front, w);
      assert Concat(b) == Concat(front) + w;
    }
  }

  function SumOf(ns: seq<nat>): nat {
    if ns == [] then 0 else ns[0] + SumOf(ns[1..])
  }

  lemma {:induction false} SumOfAppend(a: seq<nat>, b: seq<nat>)
    ensures SumOf(a + b) == SumOf(a) + SumOf(b)
  {
    if a == [] {
      assert a + b == b;
    } else {
      SumOfAppend(a[1..], b);
      assert (a + b)[1..] == a[1..] + b;
    }
  }

  /** All items in a vector of queues. */
  function Items<T>(qs: seq<seq<T>>): nat {
    if qs == [] then 0 else Items(qs[..|qs| - 1]) + |qs[|qs| - 1]|
  }

  lemma {:induction false} ItemsUpdate<T>(qs: seq<seq<T>>, i: nat, q: seq<T>)
    requires i < |qs|
    ensures Items(qs[i := q]) == Items(qs) - |qs[i]| + |q|
  {
    var k := |qs| - 1;
    if i < k {
      ItemsUpdate(qs[..k], i, q);
      assert qs[i := q][..k] == qs[..k][i := q];
    } else {
      assert qs[i := q][..k] == qs[..k];
    }
  }

  lemma {:induction false} ItemsAll<T>(qs: seq<seq<T>>, rs: seq<seq<T>>, d: int)
    requires |qs| == |rs| && forall i :: 0 <= i < |qs| ==> |rs[i]| == |qs[i]| + d
    ensures Items(rs) == Items(qs) + d * |qs|
  {
    if qs != [] {
      var k := |qs| - 1;
      ItemsAll(qs[..k], rs[..k], d);
      assert d * (k + 1) == d * k + d;
    }
  }

  /** Moving the head of a queue to the end of what was taken changes nothing end to end. */
  lemma HandOver<T>(taken: seq<T>, q: seq<T>)
    requires q != []
    ensures (taken + [q[0]]) + q[1..] == taken + q
  {}

  lemma Assoc<T>(a: seq<T>, b: seq<T>, c: seq<T>)
    ensures a + (b + c) == (a + b) + c
  {}

  /** The k low bits of a number. */
  function ToBits(n: nat, k: nat): (w: Word)
    ensures |w| == k
    decreases k
  {
    if k == 0 then [] else [n % 2 == 1] + ToBits(n / 2, k - 1)
  }
}
