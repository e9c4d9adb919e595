/**
  Block synchronisation, hw/bsv/BlockSync.bsv: a bit-slip stage feeding a
  lock state machine through the two-deep FIFO cfFifo. The rules fire in any
  order their guards allow.
 */
module BlockSync {
  import opened Bits
  import opened LockControl

  // ---- what the bit-slip stage makes of the received bits ----

  /** Received block k; the two pipeline registers start out as zero blocks. */
  function Raw(put: seq<Word>, k: int): (w: Word)
    requires AllWide(put, 66) && k < |put|
    ensures |w| == 66
  {
    if k < 0 then Zeros(66) else put[k]
  }

  /** The k-th block of the bit-slip stage when it holds offset o. */
  function Window(put: seq<Word>, o: nat, k: nat): (w: Word)
    requires AllWide(put, 66) && o <= 65 && k <= |put|
    ensures |w| == 66
  {
    Raw(put, k - 2)[66 - o..] + Raw(put, k - 1)[..66 - o]
  }

  /** From the third block on, a window is 66 consecutive received bits. */
  lemma WindowIsStream(put: seq<Word>, o: nat, k: nat)
    requires AllWide(put, 66) && o <= 65 && 2 <= k <= |put|
    ensures 0 <= 66 * (k - 1) - o && 66 * k - o <= |Concat(put)|
    ensures Window(put, o, k) == Concat(put)[66 * (k - 1) - o..66 * k - o]
  {
    ConcatLength(put, 66);
    var w, s := Window(put, o, k), Concat(put)[66 * (k - 1) - o..66 * k - o];
    forall j | 0 <= j < 66
      ensures w[j] == s[j]
    {
      if j < o {
        ConcatIndex(put, 66, k - 2, 66 - o + j);
      } else {
        ConcatIndex(put, 66, k - 1, j - o);
      }
    }
  }

  predicate IsPiece(s: Word, p: nat, w: Word) {
    p + 66 <= |s| && w == s[p..p + 66]
  }

  /** Consecutive 66-bit pieces of a bit string add up to a piece of it. */
  lemma {:induction false} PiecesTile(s: Word, p: nat, q: nat, ws: seq<Word>)
    requires q == p + 66 * |ws| <= |s|
    requires forall i :: 0 <= i < |ws| ==> IsPiece(s, p + 66 * i, ws[i])
    ensures Concat(ws) == s[p..q]
  {
    if ws != [] {
      var k := |ws| - 1;
      PiecesTile(s, p, q - 66, ws[..k]);
      assert IsPiece(s, p + 66 * k, ws[k]);
      JoinPieces(s, p, q - 66, q);
    }
  }

  lemma JoinPieces(s: Word, p: nat, q: nat, r: nat)
    requires p <= q <= r <= |s|
    ensures s[p..q] + s[q..r] == s[p..r]
  {}

  /** The n blocks of the bit-slip stage from block a on, at offset o. */
  function Windows(put: seq<Word>, o: nat, a: nat, n: nat): (r: seq<Word>)
    requires AllWide(put, 66) && o <= 65 && a + n <= |put| + 1
    ensures |r| == n
  {
    seq(n, i requires 0 <= i < n => Window(put, o, a + i))
  }

  lemma WindowPiece(put: seq<Word>, o: nat, k: nat, p: nat)
    requires AllWide(put, 66) && o <= 65 && 2 <= k <= |put| && p == 66 * (k - 1) - o
    ensures IsPiece(Concat(put), p, Window(put, o, k))
  {
    WindowIsStream(put, o, k);
    MakePiece(Concat(put), 66 * (k - 1) - o, 66 * k - o, Window(put, o, k));
  }

  lemma MakePiece(s: Word, p: nat, q: nat, w: Word)
    requires q == p + 66 <= |s| && w == s[p..q]
    ensures IsPiece(s, p, w)
  {}

  /** At a constant offset the windows tile the received bits: no gap, no overlap. */
  lemma WindowsTile(put: seq<Word>, o: nat, a: nat, n: nat)
    requires AllWide(put, 66) && o <= 65 && 2 <= a && a + n <= |put| + 1
    ensures 0 <= 66 * (a - 1) - o && 66 * (a + n - 1) - o <= |Concat(put)|
    ensures Concat(Windows(put, o, a, n)) == Concat(put)[66 * (a - 1) - o..66 * (a + n - 1) - o]
  {
    ConcatLength(put, 66);
    var ws, p := Windows(put, o, a, n), 66 * (a - 1) - o;
    forall i | 0 <= i < n
      ensures IsPiece(Concat(put), p + 66 * i, ws[i])
    {
      WindowPiece(put, o, a + i, p + 66 * i);
    }
    PiecesTile(Concat(put), p, 66 * (a + n - 1) - o, ws);
  }

  /** A header is valid when its two bits differ. */
  predicate HeaderValid(put: seq<Word>, o: nat, k: nat)
    requires AllWide(put, 66) && o <= 65 && k <= |put|
  {
    Xor(Window(put, o, k)[0], Window(put, o, k)[1])
  }

  /** The received blocks as the lock state machine sees them. */
  function HeadersOf(put: seq<Word>): Headers
    requires AllWide(put, 66)
  {
    (o: nat, k: nat) => o <= 65 && k <= |put| && HeaderValid(put, o, k)
  }

  /**
    The control registers once n blocks have been consumed, as a function of
    the received blocks alone.
   */
  function ControlAt(put: seq<Word>, n: nat): (c: Control)
    requires AllWide(put, 66)
    ensures c.offset <= 65
  {
    At(HeadersOf(put), n)
  }

  lemma WindowPrefix(put: seq<Word>, v: Word, o: nat, k: nat)
    requires AllWide(put, 66) && |v| == 66 && o <= 65 && k <= |put|
    ensures Window(put + [v], o, k) == Window(put, o, k)
  {}

  lemma ControlPrefix(put: seq<Word>, v: Word, n: nat)
    requires AllWide(put, 66) && |v| == 66 && n <= |put| + 1
    ensures ControlAt(put + [v], n) == ControlAt(put, n)
  {
    forall o: nat, k: nat | o <= 65 && k < n
      ensures HeadersOf(put)(o, k) == HeadersOf(put + [v])(o, k)
    {
      WindowPrefix(put, v, o, k);
    }
    AtDependsOn(HeadersOf(put), HeadersOf(put + [v]), n);
  }

  // ---- the module ----

  /** Registers and FIFOs, with all blocks put in and all blocks enqueued for output so far. */
  datatype State = State(c: Control, rxB1: Word, rxB2: Word,
                         fifoIn: seq<Word>, cfFifo: seq<Word>, fifoOut: seq<Word>,
                         put: seq<Word>, emitted: seq<Word>)

  const RESET_STATE := State(CONTROL_RESET, Zeros(66), Zeros(66), [], [], [], [], [])

  predicate CanPut(s: State) { |s.fifoIn| < 2 }

  function Put(s: State, v: Word): State {
    s.(fifoIn := s.fifoIn + [v], put := s.put + [v])
  }

  predicate CanSlipData(s: State) { s.fifoIn != [] && |s.cfFifo| < 2 }

  /** The widths of the registers and FIFOs. */
  predicate Sized(s: State) {
    && |s.rxB1| == |s.rxB2| == 66 && s.c.offset <= 65
    && (s.cfFifo != [] ==> |s.cfFifo[0]| == 66)
  }

  /** The shifters of rule slip_data. */
  function Shifted(b1: Word, b2: Word, offset: nat): (w: Word)
    requires |b1| == |b2| == 66 && offset <= 66
    ensures |w| == 66
  {
    OrW(Shl(b1, offset), Shr(b2, 66 - offset))
  }

  function SlipData(s: State): State
    requires CanSlipData(s) && Sized(s)
  {
    s.(fifoIn := s.fifoIn[1..], rxB1 := s.fifoIn[0], rxB2 := s.rxB1,
       cfFifo := s.cfFifo + [Shifted(s.rxB1, s.rxB2, s.c.offset)])
  }

  predicate CanConsume(s: State) { s.cfFifo != [] && |s.fifoOut| < 2 }

  /** The state rule of the current mode. */
  function Consume(s: State): State
    requires CanConsume(s) && Sized(s)
  {
    var v := s.cfFifo[0];
    s.(c := ControlStep(s.c, Xor(v[0], v[1])), cfFifo := s.cfFifo[1..],
       fifoOut := s.fifoOut + [v], emitted := s.emitted + [v])
  }

  predicate CanGet(s: State) { s.fifoOut != [] }

  function Get(s: State): State
    requires CanGet(s)
  {
    s.(fifoOut := s.fifoOut[1..])
  }

  /**
    Block k as it leaves the module: cut at the offset held when block k is
    consumed, except that the one block consumed in RESET_CNT may still be cut
    at the offset held just before.
   */
  ghost predicate CutAt(put: seq<Word>, k: nat, w: Word)
    requires AllWide(put, 66) && k <= |put|
  {
    || w == Window(put, ControlAt(put, k).offset, k)
    || (k > 0 && ControlAt(put, k).mode == RESET_CNT && w == Window(put, ControlAt(put, k - 1).offset, k))
  }

  /** Where every received block is: in a FIFO, in the pipeline registers, or consumed. */
  ghost predicate Flow(s: State) {
    && AllWide(s.put, 66)
    && |s.fifoIn| <= 2 && |s.cfFifo| <= 2 && |s.fifoOut| <= 2
    && |s.emitted| + |s.cfFifo| + |s.fifoIn| == |s.put|
    && var n := |s.emitted| + |s.cfFifo|;
    && s.fifoIn == s.put[n..]
    && s.rxB1 == Raw(s.put, n - 1) && s.rxB2 == Raw(s.put, n - 2)
    && |s.fifoOut| <= |s.emitted| && s.fifoOut == s.emitted[|s.emitted| - |s.fifoOut|..]
  }

  /** p holds of every item and its position. */
  ghost predicate Each(p: (nat, Word) -> bool, ws: seq<Word>) {
    forall k {:trigger p(k, ws[k])} :: 0 <= k < |ws| ==> p(k, ws[k])
  }

  lemma EachSnoc(p: (nat, Word) -> bool, ws: seq<Word>, w: Word)
    requires Each(p, ws) && p(|ws|, w)
    ensures Each(p, ws + [w])
  {}

  ghost function Cut(put: seq<Word>): (nat, Word) -> bool
    requires AllWide(put, 66)
  {
    (k: nat, w: Word) => k <= |put| && CutAt(put, k, w)
  }

  ghost predicate AllCut(put: seq<Word>, ws: seq<Word>)
    requires AllWide(put, 66) && |ws| <= |put|
  {
    Each(Cut(put), ws)
  }

  /** The blocks in cfFifo when m were consumed: only the first may be cut at an old offset. */
  ghost predicate Pending(put: seq<Word>, m: nat, cf: seq<Word>)
    requires AllWide(put, 66) && m + |cf| <= |put|
  {
    && (cf != [] ==> CutAt(put, m, cf[0]))
    && (|cf| > 1 ==> cf[1] == Window(put, ControlAt(put, m).offset, m + 1))
  }

  /** How the blocks past the bit-slip stage were cut. */
  ghost predicate Cuts(s: State)
    requires Flow(s)
  {
    && s.c == ControlAt(s.put, |s.emitted|)
    && Pending(s.put, |s.emitted|, s.cfFifo)
    && AllCut(s.put, s.emitted)
  }

  ghost predicate Inv(s: State) {
    Flow(s) && Cuts(s)
  }

  lemma CutAtPrefix(put: seq<Word>, v: Word, k: nat, w: Word)
    requires AllWide(put, 66) && |v| == 66 && k <= |put| && CutAt(put, k, w)
    ensures CutAt(put + [v], k, w)
  {
    ControlPrefix(put, v, k);
    WindowPrefix(put, v, ControlAt(put, k).offset, k);
    if k > 0 {
      ControlPrefix(put, v, k - 1);
      WindowPrefix(put, v, ControlAt(put, k - 1).offset, k);
    }
  }

  lemma PutFlow(s: State, v: Word)
    requires Flow(s) && CanPut(s) && |v| == 66
    ensures Flow(Put(s, v))
  {
    var n := |s.emitted| + |s.cfFifo|;
    assert (s.put + [v])[n..] == s.put[n..] + [v];
  }

  lemma AllCutPrefix(put: seq<Word>, v: Word, ws: seq<Word>)
    requires AllWide(put, 66) && |v| == 66 && |ws| <= |put| && AllCut(put, ws)
    ensures AllCut(put + [v], ws)
  {
    forall k | 0 <= k < |ws|
      ensures Cut(put + [v])(k, ws[k])
    {
      assert Cut(put)(k, ws[k]);
      CutAtPrefix(put, v, k, ws[k]);
    }
  }

  lemma PendingPrefix(put: seq<Word>, v: Word, m: nat, cf: seq<Word>)
    requires AllWide(put, 66) && |v| == 66 && m + |cf| <= |put| && Pending(put, m, cf)
    ensures Pending(put + [v], m, cf)
  {
    if cf != [] {
      CutAtPrefix(put, v, m, cf[0]);
    }
    if |cf| > 1 {
      ControlPrefix(put, v, m);
      WindowPrefix(put, v, ControlAt(put, m).offset, m + 1);
    }
  }

  lemma PutKeeps(s: State, v: Word, t: State)
    requires Inv(s) && CanPut(s) && |v| == 66 && t == Put(s, v)
    ensures Inv(t)
  {
    PutFlow(s, v);
    ControlPrefix(s.put, v, |s.emitted|);
    AllCutPrefix(s.put, v, s.emitted);
    PendingPrefix(s.put, v, |s.emitted|, s.cfFifo);
  }

  lemma ShiftedIsCut(b1: Word, b2: Word, o: nat)
    requires |b1| == |b2| == 66 && o <= 66
    ensures Shifted(b1, b2, o) == b2[66 - o..] + b1[..66 - o]
  {}

  /** rule slip_data adds the window at the offset now held. */
  lemma SlipDataFlow(s: State, t: State)
    requires Flow(s) && CanSlipData(s) && Sized(s) && t == SlipData(s)
    ensures Flow(t) && t.cfFifo == s.cfFifo + [Window(s.put, s.c.offset, |s.emitted| + |s.cfFifo|)]
  {
    ShiftedIsCut(s.rxB1, s.rxB2, s.c.offset);
    assert s.fifoIn[0] == s.put[|s.emitted| + |s.cfFifo|];
  }

  lemma SlipDataKeeps(s: State, t: State)
    requires Inv(s) && CanSlipData(s) && Sized(s) && t == SlipData(s)
    ensures Inv(t)
  {
    SlipDataFlow(s, t);
    assert Pending(t.put, |t.emitted|, t.cfFifo);
  }

  lemma ConsumeFlow(s: State)
    requires Flow(s) && CanConsume(s) && Sized(s)
    ensures Flow(Consume(s))
  {}

  /** A cut block has the header that ControlAt tests. */
  lemma CutHeader(put: seq<Word>, k: nat, w: Word)
    requires AllWide(put, 66) && k <= |put| && CutAt(put, k, w)
    ensures |w| == 66
    ensures ControlStep(ControlAt(put, k), Xor(w[0], w[1])) == ControlAt(put, k + 1)
  {
    StepFacts(HeadersOf(put), k, Xor(w[0], w[1]));
  }

  /** The block behind the one consumed at k is fresh, or RESET_CNT comes next. */
  lemma CutBehind(put: seq<Word>, k: nat, w: Word)
    requires AllWide(put, 66) && k + 1 <= |put| && w == Window(put, ControlAt(put, k).offset, k + 1)
    ensures CutAt(put, k + 1, w)
  {
    StepFacts(HeadersOf(put), k, HeadersOf(put)(ControlAt(put, k).offset, k));
  }

  /**
    The block a state rule consumes in TEST_SH is never stale, so the control
    registers follow ControlAt. After a slip at most one block cut at the old
    offset is left in cfFifo, and RESET_CNT consumes it.
   */
  lemma ConsumeKeeps(s: State, t: State)
    requires Inv(s) && CanConsume(s) && Sized(s) && t == Consume(s)
    ensures Inv(t)
  {
    ConsumeFlow(s);
    CutHeader(s.put, |s.emitted|, s.cfFifo[0]);
    ConsumeCuts(s.put, s.emitted, s.cfFifo);
    MakeCuts(t, s.put, s.emitted + [s.cfFifo[0]], s.cfFifo[1..]);
  }

  lemma MakeCuts(t: State, put: seq<Word>, emitted: seq<Word>, cf: seq<Word>)
    requires Flow(t) && t.put == put && t.emitted == emitted && t.cfFifo == cf
    requires t.c == ControlAt(put, |emitted|) && AllCut(put, emitted) && Pending(put, |emitted|, cf)
    ensures Inv(t)
  {}

  lemma ConsumeCuts(put: seq<Word>, emitted: seq<Word>, cf: seq<Word>)
    requires AllWide(put, 66) && |emitted| + |cf| <= |put| && 1 <= |cf| <= 2
    requires AllCut(put, emitted) && Pending(put, |emitted|, cf)
    ensures AllCut(put, emitted + [cf[0]]) && Pending(put, |emitted| + 1, cf[1..])
  {
    assert Cut(put)(|emitted|, cf[0]);
    EachSnoc(Cut(put), emitted, cf[0]);
    PendingDeq(put, |emitted|, cf);
  }

  lemma PendingDeq(put: seq<Word>, m: nat, cf: seq<Word>)
    requires AllWide(put, 66) && m + |cf| <= |put| && 1 <= |cf| <= 2 && Pending(put, m, cf)
    ensures Pending(put, m + 1, cf[1..])
  {
    if |cf| == 2 {
      CutBehind(put, m, cf[1]);
    }
  }

  lemma GetKeeps(s: State, t: State)
    requires Inv(s) && CanGet(s) && t == Get(s)
    ensures Inv(t)
  {}

  /** The invariant includes the widths, so Sized never restricts a run. */
  lemma InvIsSized(s: State)
    requires Inv(s)
    ensures Sized(s)
  {}

  /** One step of the module or of its surroundings. */
  ghost predicate Next(s: State, t: State) {
    || (exists v: Word :: |v| == 66 && CanPut(s) && t == Put(s, v))
    || (CanSlipData(s) && Sized(s) && t == SlipData(s))
    || (CanConsume(s) && Sized(s) && t == Consume(s))
    || (CanGet(s) && t == Get(s))
  }

  /** A run: any interleaving of the rules from reset. */
  ghost predicate IsRun(run: seq<State>) {
    && |run| > 0 && run[0] == RESET_STATE
    && forall i :: 0 < i < |run| ==> Next(run[i - 1], run[i])
  }

  lemma NextKeeps(s: State, t: State)
    requires Inv(s) && Next(s, t)
    ensures Inv(t)
  {
    if CanSlipData(s) && Sized(s) && t == SlipData(s) {
      SlipDataKeeps(s, t);
    } else if CanConsume(s) && Sized(s) && t == Consume(s) {
      ConsumeKeeps(s, t);
    } else if CanGet(s) && t == Get(s) {
      GetKeeps(s, t);
    } else {
      var v: Word :| |v| == 66 && CanPut(s) && t == Put(s, v);
      PutKeeps(s, v, t);
    }
  }

  lemma {:induction false} RunsKeepInv(run: seq<State>, i: nat)
    requires IsRun(run) && i < |run|
    ensures Inv(run[i])
  {
    if i == 0 {
      ResetInv();
    } else {
      RunsKeepInv(run, i - 1);
      NextKeeps(run[i - 1], run[i]);
    }
  }

  lemma ResetInv()
    ensures Inv(RESET_STATE)
  {}

  /** w is the 66 received bits that end o bits before the end of block k - 1. */
  ghost predicate StreamCut(put: seq<Word>, o: nat, k: nat, w: Word) {
    && 2 <= k && o <= 65 && |Concat(put)| >= 66 * k
    && w == Concat(put)[66 * (k - 1) - o..66 * k - o]
  }

  /**
    No stale header is ever tested: whatever the interleaving, the block a
    state rule is about to examine in TEST_SH is the 66-bit window of the
    received bits at the offset now held.
   */
  lemma NoStaleHeader(run: seq<State>, i: nat)
    requires IsRun(run) && i < |run|
    requires run[i].c.mode == TEST_SH && run[i].cfFifo != []
    ensures StreamCut(run[i].put, run[i].c.offset, |run[i].emitted|, run[i].cfFifo[0])
  {
    RunsKeepInv(run, i);
    TestedIsFresh(run[i]);
    WindowIsCut(run[i].put, run[i].c.offset, |run[i].emitted|);
  }

  lemma WindowIsCut(put: seq<Word>, o: nat, k: nat)
    requires AllWide(put, 66) && o <= 65 && 2 <= k <= |put|
    ensures StreamCut(put, o, k, Window(put, o, k))
  {
    ConcatLength(put, 66);
    WindowIsStream(put, o, k);
  }

  lemma TestedIsFresh(s: State)
    requires Inv(s) && s.c.mode == TEST_SH && s.cfFifo != []
    ensures AllWide(s.put, 66) && s.c.offset <= 65
    ensures 2 <= |s.emitted| <= |s.put| && s.cfFifo[0] == Window(s.put, s.c.offset, |s.emitted|)
  {
    CountersMean(HeadersOf(s.put), |s.emitted|);
  }

  /**
    Every run is a refinement of ControlAt: the lock registers depend on the
    received blocks and on how many were consumed, not on the interleaving.
   */
  lemma ControlIsDeterministic(run: seq<State>, i: nat)
    requires IsRun(run) && i < |run|
    ensures AllWide(run[i].put, 66) && |run[i].emitted| <= |run[i].put|
    ensures run[i].c == ControlAt(run[i].put, |run[i].emitted|)
    ensures AllCut(run[i].put, run[i].emitted)
  {
    RunsKeepInv(run, i);
  }

  /** The offset held is o from just before block a is consumed until block b is. */
  ghost predicate OffsetHeld(put: seq<Word>, o: nat, a: nat, b: nat)
    requires AllWide(put, 66)
  {
    forall k: nat :: a - 1 <= k < b ==> ControlAt(put, k).offset == o
  }

  lemma HeldCut(put: seq<Word>, o: nat, a: nat, b: nat, k: nat, w: Word)
    requires AllWide(put, 66) && o <= 65 && 2 <= a <= k < b && k <= |put| && OffsetHeld(put, o, a, b)
    requires CutAt(put, k, w)
    ensures w == Window(put, o, k)
  {
    var before := k - 1;
    assert ControlAt(put, k).offset == o && ControlAt(put, before).offset == o;
  }

  /**
    Successive outputs tile the stream: in every run, the blocks consumed while
    the offset is constant are, end to end, a piece of the received bits.
   */
  lemma OutputsTile(run: seq<State>, i: nat, o: nat, a: nat, n: nat)
    requires IsRun(run) && i < |run| && o <= 65 && 2 <= a && a + n <= |run[i].emitted|
    requires AllWide(run[i].put, 66) && OffsetHeld(run[i].put, o, a, a + n)
    ensures 0 <= 66 * (a - 1) - o && 66 * (a + n - 1) - o <= |Concat(run[i].put)|
    ensures Concat(run[i].emitted[a..a + n]) == Concat(run[i].put)[66 * (a - 1) - o..66 * (a + n - 1) - o]
  {
    ControlIsDeterministic(run, i);
    EmittedTile(run[i].put, run[i].emitted, o, a, n);
  }

  lemma EmittedTile(put: seq<Word>, emitted: seq<Word>, o: nat, a: nat, n: nat)
    requires AllWide(put, 66) && |emitted| <= |put| && AllCut(put, emitted)
    requires o <= 65 && 2 <= a && a + n <= |emitted| && OffsetHeld(put, o, a, a + n)
    ensures 0 <= 66 * (a - 1) - o && 66 * (a + n - 1) - o <= |Concat(put)|
    ensures Concat(emitted[a..a + n]) == Concat(put)[66 * (a - 1) - o..66 * (a + n - 1) - o]
  {
    EmittedIsWindows(put, emitted, o, a, n);
    WindowsTile(put, o, a, n);
  }

  lemma EmittedIsWindows(put: seq<Word>, emitted: seq<Word>, o: nat, a: nat, n: nat)
    requires AllWide(put, 66) && |emitted| <= |put| && AllCut(put, emitted)
    requires o <= 65 && 2 <= a && a + n <= |emitted| && OffsetHeld(put, o, a, a + n)
    ensures emitted[a..a + n] == Windows(put, o, a, n)
  {
    var es, ws := emitted[a..a + n], Windows(put, o, a, n);
    forall k | 0 <= k < n
      ensures es[k] == ws[k]
    {
      assert Cut(put)(a + k, emitted[a + k]);
      HeldCut(put, o, a, a + n, a + k, emitted[a + k]);
    }
  }

  /**
    mkBlockSync: one method per rule. Each is a step of State and keeps Inv.
   */
  class BlockSyncModule {
    var currState: Mode
    var blockLock: bool
    var shCnt: nat
    var shInvalidCnt: nat
    var rxB1: Word
    var rxB2: Word
    var offset: nat
    var slipDone: bool
    var fifoIn: seq<Word>
    var fifoOut: seq<Word>
    var cfFifo: seq<Word>
    ghost var put: seq<Word>
    ghost var emitted: seq<Word>

    ghost function Abs(): State
      reads this
    {
      State(Control(currState, blockLock, shCnt, shInvalidCnt, offset), rxB1, rxB2, fifoIn, cfFifo, fifoOut, put, emitted)
    }

    constructor ()
      ensures Abs() == RESET_STATE && Inv(Abs())
    {
      currState, blockLock, shCnt, shInvalidCnt, offset := LOCK_INIT, false, 0, 0, 0;
      rxB1, rxB2 := Zeros(66), Zeros(66);
      fifoIn, fifoOut, cfFifo, put, emitted := [], [], [], [], [];
      slipDone := false;
      new;
      ResetInv();
    }

    method Enq(v: Word)
      requires Inv(Abs()) && CanPut(Abs()) && |v| == 66
      modifies this
      ensures Abs() == Put(old(Abs()), v) && Inv(Abs())
    {
      PutKeeps(Abs(), v, Put(Abs(), v));
      fifoIn := fifoIn + [v];
      put := put + [v];
    }

    method Deq() returns (v: Word)
      requires Inv(Abs()) && CanGet(Abs())
      modifies this
      ensures Abs() == Get(old(Abs())) && v == old(fifoOut)[0] && Inv(Abs())
    {
      GetKeeps(Abs(), Get(Abs()));
      v := fifoOut[0];
      fifoOut := fifoOut[1..];
    }

    /** rule slip_data, while rx_ready is high */
    method SlipDataRule()
      requires Inv(Abs()) && CanSlipData(Abs())
      modifies this
      ensures Sized(old(Abs())) && Abs() == SlipData(old(Abs())) && Inv(Abs())
    {
      InvIsSized(Abs());
      SlipDataKeeps(Abs(), SlipData(Abs()));
      ShiftIn();
    }

    method ShiftIn()
      requires Sized(Abs()) && CanSlipData(Abs())
      modifies this`fifoIn, this`rxB1, this`rxB2, this`cfFifo
      ensures Abs() == SlipData(old(Abs()))
    {
      var v := fifoIn[0];
      fifoIn := fifoIn[1..];
      var rxB1Shifted := Shl(rxB1, offset);
      var rxB2Shifted := Shr(rxB2, 66 - offset);
      var shifted := OrW(rxB1Shifted, rxB2Shifted);
      assert shifted == Shifted(rxB1, rxB2, offset);
      rxB1, rxB2 := v, rxB1;
      cfFifo := cfFifo + [shifted];
    }

    /** rule state_lock_init */
    method StateLockInit()
      requires Inv(Abs()) && CanConsume(Abs()) && currState == LOCK_INIT
      modifies this
      ensures Sized(old(Abs())) && Abs() == Consume(old(Abs())) && Inv(Abs())
    {
      InvIsSized(Abs());
      ConsumeKeeps(Abs(), Consume(Abs()));
      blockLock := false;
      offset := 60;
      currState := RESET_CNT;
      Forward();
    }

    /** rule state_reset_cnt */
    method StateResetCnt()
      requires Inv(Abs()) && CanConsume(Abs()) && currState == RESET_CNT
      modifies this
      ensures !slipDone
      ensures Sized(old(Abs())) && Abs() == Consume(old(Abs())) && Inv(Abs())
    {
      InvIsSized(Abs());
      ConsumeKeeps(Abs(), Consume(Abs()));
      ResetCounters();
      Forward();
    }

    method ResetCounters()
      requires currState == RESET_CNT
      modifies this`currState, this`shCnt, this`shInvalidCnt, this`slipDone
      ensures Abs().c == ControlStep(old(Abs().c), true) == ControlStep(old(Abs().c), false) && !slipDone
    {
      shCnt := 0;
      shInvalidCnt := 0;
      slipDone := false;
      currState := TEST_SH;
    }

    /** rule state_test_sh: the counters are tested before they are incremented */
    method StateTestSh()
      requires Inv(Abs()) && CanConsume(Abs()) && currState == TEST_SH
      modifies this
      ensures Sized(old(Abs())) && Abs() == Consume(old(Abs())) && Inv(Abs())
    {
      InvIsSized(Abs());
      ConsumeKeeps(Abs(), Consume(Abs()));
      var shValid := Xor(cfFifo[0][0], cfFifo[0][1]);
      CountHeader(shValid);
      Forward();
    }

    method CountHeader(shValid: bool)
      requires currState == TEST_SH
      modifies this`currState, this`shCnt, this`shInvalidCnt
      ensures Abs().c == ControlStep(old(Abs().c), shValid)
    {
      if shValid {
        if shCnt < 64 {
          currState := TEST_SH;
        } else if shCnt == 64 && shInvalidCnt == 0 {
          currState := GOOD_64;
        } else {
          currState := RESET_CNT;
        }
        shCnt := Inc8(shCnt);
      } else {
        if shCnt == 64 && shInvalidCnt < 16 && blockLock {
          currState := RESET_CNT;
        } else if shInvalidCnt == 16 || !blockLock {
          currState := SLIP;
        } else if shCnt < 64 && shInvalidCnt < 16 && blockLock {
          currState := TEST_SH;
        } else {
          currState := RESET_CNT;
        }
        shCnt := Inc8(shCnt);
        shInvalidCnt := Inc8(shInvalidCnt);
      }
    }

    /** rule slip */
    method Slip()
      requires Inv(Abs()) && CanConsume(Abs()) && currState == SLIP
      modifies this
      ensures Sized(old(Abs())) && Abs() == Consume(old(Abs())) && Inv(Abs())
    {
      InvIsSized(Abs());
      ConsumeKeeps(Abs(), Consume(Abs()));
      NextOffset();
      Forward();
    }

    method NextOffset()
      requires currState == SLIP && offset <= 65
      modifies this`currState, this`blockLock, this`offset
      ensures Abs().c == ControlStep(old(Abs().c), true) == ControlStep(old(Abs().c), false)
    {
      blockLock := false;
      if offset >= 65 {
        offset := 0;
      } else {
        offset := offset + 1;
      }
      currState := RESET_CNT;
    }

    /** rule state_good_64 */
    method StateGood64()
      requires Inv(Abs()) && CanConsume(Abs()) && currState == GOOD_64
      modifies this
      ensures Sized(old(Abs())) && Abs() == Consume(old(Abs())) && Inv(Abs())
    {
      InvIsSized(Abs());
      ConsumeKeeps(Abs(), Consume(Abs()));
      blockLock := true;
      currState := RESET_CNT;
      Forward();
    }

    /** Every state rule moves the block it consumes to fifo_out. */
    method Forward()
      requires cfFifo != []
      modifies this`cfFifo, this`fifoOut, this`emitted
      ensures cfFifo == old(cfFifo)[1..] && fifoOut == old(fifoOut) + [old(cfFifo)[0]]
      ensures emitted == old(emitted) + [old(cfFifo)[0]]
    {
      var v := cfFifo[0];
      cfFifo := cfFifo[1..];
      fifoOut := fifoOut + [v];
      emitted := emitted + [v];
    }
  }
}
