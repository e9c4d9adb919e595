/**
  Every pattern of valid and invalid headers can be received: the header of a
  block at an offset is one pair of adjacent bits of the stream, and no other
  block at any offset has the same pair. So what is shown for abstract headers
  in LockControl happens on a line.
 */
module HeaderPatterns {
  import opened Bits
  import opened LockControl
  import BlockSync

  // ---- which pair of bits is which header ----

  /** Block and offset whose header is at bits p and p + 1. */
  function BlockAt(p: nat): nat { (p + 65) / 66 + 1 }

  function OffsetAt(p: nat): (o: nat)
    ensures o <= 65
  {
    66 * ((p + 65) / 66) - p
  }

  lemma PairOf(o: nat, k: nat)
    requires o <= 65 && k >= 2
    ensures 66 * (k - 1) - o >= 1
    ensures BlockAt(66 * (k - 1) - o) == k && OffsetAt(66 * (k - 1) - o) == o
  {}

  // ---- the stream ----

  /** A bit string whose adjacent bits differ exactly where h calls for a valid header. */
  function Stream(h: Headers, m: nat): (s: Word)
    ensures |s| == m
  {
    if m == 0 then []
    else if m == 1 then [false]
    else
      var s := Stream(h, m - 1);
      s + [Xor(s[m - 2], h(OffsetAt(m - 2), BlockAt(m - 2)))]
  }

  lemma {:induction false} StreamPair(h: Headers, m: nat, p: nat)
    requires p + 1 < m
    ensures Xor(Stream(h, m)[p], Stream(h, m)[p + 1]) == h(OffsetAt(p), BlockAt(p))
  {
    if p + 2 < m {
      StreamPair(h, m - 1, p);
    }
  }

  /** The stream cut into blocks. */
  function Blocks(s: Word): (r: seq<Word>)
    requires |s| % 66 == 0
    ensures AllWide(r, 66) && |r| == |s| / 66
  {
    if s == [] then [] else Blocks(s[..|s| - 66]) + [s[|s| - 66..]]
  }

  lemma {:induction false} BlocksConcat(s: Word)
    requires |s| % 66 == 0
    ensures Concat(Blocks(s)) == s
  {
    if s != [] {
      var front, last := s[..|s| - 66], s[|s| - 66..];
      BlocksConcat(front);
      ConcatSnoc(Blocks(front), last);
      assert front + last == s;
    }
  }

  /** n received blocks with the headers h. */
  function Received(h: Headers, n: nat): (put: seq<Word>)
    ensures AllWide(put, 66) && |put| == n
  {
    Blocks(Stream(h, 66 * n))
  }

  /** Every header pattern is that of some received stream, from the first whole window on. */
  lemma HeadersAreAsAsked(h: Headers, n: nat, o: nat, k: nat)
    requires o <= 65 && 2 <= k <= n
    ensures BlockSync.HeadersOf(Received(h, n))(o, k) == h(o, k)
  {
    var put, s, p := Received(h, n), Stream(h, 66 * n), 66 * (k - 1) - o;
    PairOf(o, k);
    BlocksConcat(s);
    BlockSync.WindowIsStream(put, o, k);
    HeaderPair(put, o, k, s, p);
    StreamPair(h, 66 * n, p);
  }

  lemma HeaderPair(put: seq<Word>, o: nat, k: nat, s: Word, p: nat)
    requires AllWide(put, 66) && o <= 65 && 2 <= k <= |put| && 0 <= p && p + 66 <= |s|
    requires BlockSync.Window(put, o, k) == s[p..p + 66]
    ensures BlockSync.HeadersOf(put)(o, k) == Xor(s[p], s[p + 1])
  {}

  // ---- the lock machine on that stream ----

  /** The first two blocks are consumed without a look at their headers. */
  lemma {:induction false} AtFromTwo(h: Headers, g: Headers, n: nat)
    requires forall o: nat, k: nat :: o <= 65 && 2 <= k < n ==> h(o, k) == g(o, k)
    ensures At(h, n) == At(g, n)
    ensures n == 1 ==> At(h, n).mode == RESET_CNT
  {
    if n > 0 {
      AtFromTwo(h, g, n - 1);
    }
  }

  lemma {:induction false} BadAgrees(h: Headers, g: Headers, o: nat, a: nat, b: nat)
    requires a <= b && forall k: nat :: a <= k < b ==> h(o, k) == g(o, k)
    ensures Bad(h, o, a, b) == Bad(g, o, a, b)
    decreases b
  {
    if a < b {
      BadAgrees(h, g, o, a, b - 1);
    }
  }

  /** The slowest stream: 59 is the right offset and every other one fails late. */
  function SlowestLine(n: nat): (put: seq<Word>)
    ensures AllWide(put, 66) && |put| == n
  {
    Received(Slowest(), n)
  }

  lemma SlowestLineHeaders(n: nat)
    ensures forall o: nat, k: nat :: o <= 65 && 2 <= k <= n ==> BlockSync.HeadersOf(SlowestLine(n))(o, k) == Slowest()(o, k)
  {
    forall o: nat, k: nat | o <= 65 && 2 <= k <= n
      ensures BlockSync.HeadersOf(SlowestLine(n))(o, k) == Slowest()(o, k)
    {
      HeadersAreAsAsked(Slowest(), n, o, k);
    }
  }

  lemma RightOffsetAgrees(h: Headers, f: Headers, g: nat, n: nat)
    requires RightOffset(h, g, n) && forall o: nat, k: nat :: o <= 65 && 2 <= k < n ==> f(o, k) == h(o, k)
    ensures RightOffset(f, g, n)
  {
    forall o: nat, a: nat | o <= 65 && o != g && 2 <= a && a + 65 <= n
      ensures Rejected(f, o, a)
    {
      assert Rejected(h, o, a);
      BadAgrees(h, f, o, a, a + 65);
    }
  }

  /**
    The lock bound is reached on a line: there is a received stream on which
    offset 59 is right and every other one is rejected, and on which block lock
    is still missing when LOCK_BOUND - 1 blocks have been consumed.
   */
  lemma BoundIsTightOnLine(n: nat)
    requires n >= LOCK_BOUND
    ensures RightOffset(BlockSync.HeadersOf(SlowestLine(n)), 59, n + 1)
    ensures !BlockSync.ControlAt(SlowestLine(n), LOCK_BOUND - 1).lock
    ensures BlockSync.ControlAt(SlowestLine(n), LOCK_BOUND).lock
  {
    var f := BlockSync.HeadersOf(SlowestLine(n));
    BoundIsTight(n + 1);
    SlowestLineHeaders(n);
    RightOffsetAgrees(Slowest(), f, 59, n + 1);
    AtFromTwo(f, Slowest(), LOCK_BOUND - 1);
    BoundMet(f, n);
  }

  lemma BoundMet(f: Headers, n: nat)
    requires n >= LOCK_BOUND && RightOffset(f, 59, n + 1)
    ensures At(f, LOCK_BOUND).lock
  {
    StaysOnTheWay(f, 59, n + 1, LOCK_BOUND);
    CountersMean(f, LOCK_BOUND);
  }
}
