/**
  The lock state machine of hw/bsv/BlockSync.bsv, driven by which headers are
  valid: its counters, and when block lock is gained, kept and lost.
 */
module LockControl {
  datatype Mode = LOCK_INIT | RESET_CNT | TEST_SH | GOOD_64 | SLIP

  /** The registers of the lock state machine. */
  datatype Control = Control(mode: Mode, lock: bool, shCnt: nat, shInv: nat, offset: nat)

  const CONTROL_RESET := Control(LOCK_INIT, false, 0, 0, 0)

  /** An 8-bit register increment. */
  function Inc8(n: nat): nat {
    if n == 255 then 0 else n + 1
  }

  /** What one of the five state rules does when it consumes a block. */
  function ControlStep(c: Control, valid: bool): (r: Control)
    ensures c.offset <= 65 ==> r.offset <= 65
  {
    match c.mode
    case LOCK_INIT => c.(lock := false, offset := 60, mode := RESET_CNT)
    case RESET_CNT => c.(shCnt := 0, shInv := 0, mode := TEST_SH)
    case TEST_SH =>
      if valid then
        c.(shCnt := Inc8(c.shCnt),
           mode := if c.shCnt < 64 then TEST_SH
                   else if c.shCnt == 64 && c.shInv == 0 then GOOD_64
                   else RESET_CNT)
      else
        c.(shCnt := Inc8(c.shCnt), shInv := Inc8(c.shInv),
           mode := if c.shCnt == 64 && c.shInv < 16 && c.lock then RESET_CNT
                   else if c.shInv == 16 || !c.lock then SLIP
                   else if c.shCnt < 64 && c.shInv < 16 && c.lock then TEST_SH
                   else RESET_CNT)
    case SLIP => c.(lock := false, offset := if c.offset >= 65 then 0 else c.offset + 1, mode := RESET_CNT)
    case GOOD_64 => c.(lock := true, mode := RESET_CNT)
  }

  /** Headers(o, k): block k has a valid header when it is cut at offset o. */
  type Headers = (nat, nat) -> bool

  /** The registers once n blocks have been consumed. */
  function At(h: Headers, n: nat): (c: Control)
    ensures c.offset <= 65
  {
    if n == 0 then CONTROL_RESET
    else
      var c := At(h, n - 1);
      ControlStep(c, h(c.offset, n - 1))
  }

  /** The header matters in TEST_SH only, and the offset changes on the way to RESET_CNT only. */
  lemma StepFacts(h: Headers, n: nat, valid: bool)
    requires At(h, n).mode == TEST_SH ==> valid == h(At(h, n).offset, n)
    ensures At(h, n + 1) == ControlStep(At(h, n), valid)
    ensures At(h, n + 1).offset == At(h, n).offset || At(h, n + 1).mode == RESET_CNT
  {}

  lemma {:induction false} AtDependsOn(h: Headers, g: Headers, n: nat)
    requires forall o: nat, k: nat :: o <= 65 && k < n ==> h(o, k) == g(o, k)
    ensures At(h, n) == At(g, n)
  {
    if n > 0 {
      AtDependsOn(h, g, n - 1);
    }
  }

  // ---- what the counters mean ----

  /** Invalid headers among blocks a to b - 1 cut at offset o. */
  function Bad(h: Headers, o: nat, a: nat, b: nat): (n: nat)
    requires a <= b
    ensures n <= b - a
    decreases b
  {
    if a == b then 0 else Bad(h, o, a, b - 1) + (if h(o, b - 1) then 0 else 1)
  }

  lemma {:induction false} BadSplit(h: Headers, o: nat, a: nat, b: nat, c: nat)
    requires a <= b <= c
    ensures Bad(h, o, a, c) == Bad(h, o, a, b) + Bad(h, o, b, c)
    decreases c
  {
    if b < c {
      BadSplit(h, o, a, b, c - 1);
    }
  }

  lemma {:induction false} NoneBad(h: Headers, o: nat, a: nat, b: nat)
    requires a <= b
    ensures Bad(h, o, a, b) == 0 <==> forall k :: a <= k < b ==> h(o, k)
    decreases b
  {
    if a < b {
      NoneBad(h, o, a, b - 1);
    }
  }

  /** Blocks a to b - 1 were all tested in TEST_SH at offset o, counting from zero. */
  ghost predicate Tested(h: Headers, o: nat, a: nat, b: nat) {
    forall k :: a <= k < b ==>
      var c := At(h, k);
      c.mode == TEST_SH && c.offset == o && c.shCnt == k - a
  }

  /** What the counters mean in every mode. */
  ghost predicate Meaning(h: Headers, n: nat, c: Control) {
    match c.mode
    case LOCK_INIT => n == 0
    case RESET_CNT => n >= 1
    case TEST_SH =>
      && c.shCnt <= 64 && c.shInv <= 16 && c.shCnt + 2 <= n
      && (!c.lock ==> c.shInv == 0)
      && Tested(h, c.offset, n - c.shCnt, n)
      && c.shInv == Bad(h, c.offset, n - c.shCnt, n)
    case GOOD_64 =>
      n >= 67 && Tested(h, c.offset, n - 65, n) && Bad(h, c.offset, n - 65, n) == 0
    case SLIP =>
      && 1 <= c.shCnt <= 65 && c.shCnt + 2 <= n
      && Tested(h, c.offset, n - c.shCnt, n)
      && !h(c.offset, n - 1)
      && Bad(h, c.offset, n - c.shCnt, n) == if c.lock then 17 else 1
  }

  /**
    In every reachable state the counters are exact: sh_cnt headers tested at
    the offset held, sh_invalid_cnt of them invalid. In particular sh_cnt never
    passes 64 when a header is tested, so the two fall-through else branches of
    rule state_test_sh are unreachable, and no 8-bit counter wraps.
   */
  lemma {:induction false} CountersMean(h: Headers, n: nat)
    ensures Meaning(h, n, At(h, n))
  {
    if n > 0 {
      CountersMean(h, n - 1);
      NextMeaning(h, n - 1, n);
    } else {
      assert At(h, 0).mode == LOCK_INIT;
    }
  }

  lemma NextMeaning(h: Headers, n: nat, next: nat)
    requires next == n + 1 && Meaning(h, n, At(h, n))
    ensures Meaning(h, next, At(h, next))
  {
    var c := At(h, n);
    assert At(h, next) == ControlStep(c, h(c.offset, n));
    if c.mode == TEST_SH {
      TestKeepsMeaning(h, n, c);
    } else {
      StepKeepsMeaning(h, n, c, h(c.offset, n));
    }
  }

  lemma StepKeepsMeaning(h: Headers, n: nat, c: Control, valid: bool)
    requires c.mode != TEST_SH && Meaning(h, n, c)
    ensures Meaning(h, n + 1, ControlStep(c, valid))
  {}

  lemma TestKeepsMeaning(h: Headers, n: nat, c: Control)
    requires c == At(h, n) && c.mode == TEST_SH && Meaning(h, n, c)
    ensures Meaning(h, n + 1, ControlStep(c, h(c.offset, n)))
  {
    TestedOneMore(h, n, c);
    CountOneMore(h, n, c);
  }

  lemma TestedOneMore(h: Headers, n: nat, c: Control)
    requires c == At(h, n) && c.mode == TEST_SH && c.shCnt <= n && Tested(h, c.offset, n - c.shCnt, n)
    ensures Tested(h, c.offset, n - c.shCnt, n + 1)
  {}

  lemma CountOneMore(h: Headers, n: nat, c: Control)
    requires c.mode == TEST_SH && c.shCnt <= 64 && c.shInv <= 16 && c.shCnt + 2 <= n && (!c.lock ==> c.shInv == 0)
    requires Tested(h, c.offset, n - c.shCnt, n + 1)
    requires c.shInv == Bad(h, c.offset, n - c.shCnt, n)
    ensures Meaning(h, n + 1, ControlStep(c, h(c.offset, n)))
  {
    var a, d := n - c.shCnt, ControlStep(c, h(c.offset, n));
    assert n + 1 - d.shCnt == a;
    assert d.mode == GOOD_64 ==> n + 1 - 65 == a;
  }

  /** Lock rises only after 65 consecutive valid headers, all tested at the offset held. */
  lemma LockRises(h: Headers, n: nat)
    requires !At(h, n).lock && At(h, n + 1).lock
    ensures n >= 67
    ensures var o := At(h, n + 1).offset;
            && Tested(h, o, n - 65, n)
            && forall k :: n - 65 <= k < n ==> h(o, k)
  {
    CountersMean(h, n);
    NoneBad(h, At(h, n).offset, n - 65, n);
  }

  /**
    Lock falls only on the 17th invalid header of a window of at most 65
    headers tested at the offset held.
   */
  lemma LockFalls(h: Headers, n: nat)
    requires At(h, n).lock && !At(h, n + 1).lock
    ensures var c := At(h, n);
            && 17 <= c.shCnt <= 65 && c.shCnt <= n
            && Tested(h, c.offset, n - c.shCnt, n)
            && !h(c.offset, n - 1)
            && Bad(h, c.offset, n - c.shCnt, n) == 17
  {
    CountersMean(h, n);
  }

  // ---- keeping lock ----

  /** j headers into a window that opened with lock held, if the window is still good. */
  lemma {:induction false} InsideWindow(h: Headers, m: nat, j: nat)
    requires At(h, m).mode == RESET_CNT && At(h, m).lock
    requires j <= 64 && Bad(h, At(h, m).offset, m + 1, m + 1 + j) <= 16
    ensures var c, o := At(h, m + 1 + j), At(h, m).offset;
            c == Control(TEST_SH, true, j, Bad(h, o, m + 1, m + 1 + j), o)
  {
    if j > 0 {
      var o := At(h, m).offset;
      InsideWindow(h, m, j - 1);
      var c := At(h, m + j);
      assert At(h, m + j + 1) == ControlStep(c, h(c.offset, m + j));
    }
  }

  /** The place of the 17th invalid header. */
  lemma {:induction false} Seventeenth(h: Headers, o: nat, a: nat, b: nat) returns (j: nat)
    requires a <= b && Bad(h, o, a, b) >= 17
    ensures j < b - a && Bad(h, o, a, a + j) == 16 && !h(o, a + j)
    decreases b
  {
    if Bad(h, o, a, b - 1) >= 17 {
      j := Seventeenth(h, o, a, b - 1);
    } else {
      j := b - 1 - a;
    }
  }

  /** A good window ends with lock held: the two ways it can end. */
  lemma GoodWindowEnds(h: Headers, m: nat)
    requires At(h, m).mode == RESET_CNT && At(h, m).lock
    requires Bad(h, At(h, m).offset, m + 1, m + 66) <= 16
    ensures At(h, m + 66).lock && At(h, m + 66).mode in {RESET_CNT, GOOD_64}
    ensures At(h, m + 67).lock
  {
    InsideWindow(h, m, 64);
    var c := At(h, m + 65);
    assert At(h, m + 66) == ControlStep(c, h(c.offset, m + 65));
    assert At(h, m + 67) == ControlStep(At(h, m + 66), h(At(h, m + 66).offset, m + 66));
  }

  /** A bad window loses lock before it is over. */
  lemma BadWindowLoses(h: Headers, m: nat) returns (n: nat)
    requires At(h, m).mode == RESET_CNT && At(h, m).lock
    requires Bad(h, At(h, m).offset, m + 1, m + 66) >= 17
    ensures m <= n <= m + 67 && !At(h, n).lock && At(h, n).mode == RESET_CNT
  {
    var o := At(h, m).offset;
    var j := Seventeenth(h, o, m + 1, m + 66);
    InsideWindow(h, m, j);
    var c := At(h, m + 1 + j);
    assert At(h, m + 2 + j) == ControlStep(c, h(o, m + 1 + j));
    assert At(h, m + 3 + j) == ControlStep(At(h, m + 2 + j), h(o, m + 2 + j));
    n := m + 3 + j;
  }

  lemma GoodWindowKeeps(h: Headers, m: nat, n: nat)
    requires At(h, m).mode == RESET_CNT && At(h, m).lock
    requires Bad(h, At(h, m).offset, m + 1, m + 66) <= 16
    requires m <= n <= m + 67
    ensures At(h, n).lock
  {
    if m < n <= m + 65 {
      BadSplit(h, At(h, m).offset, m + 1, n, m + 66);
      InsideWindow(h, m, n - m - 1);
    } else {
      GoodWindowEnds(h, m);
    }
  }

  /**
    The exact verdict on a 65-header window that opens with lock held: lock
    survives it if and only if at most 16 of its headers are invalid.
   */
  lemma WindowVerdict(h: Headers, m: nat)
    requires At(h, m).mode == RESET_CNT && At(h, m).lock
    ensures Bad(h, At(h, m).offset, m + 1, m + 66) <= 16 <==> forall n :: m <= n <= m + 67 ==> At(h, n).lock
  {
    if Bad(h, At(h, m).offset, m + 1, m + 66) <= 16 {
      forall n | m <= n <= m + 67
        ensures At(h, n).lock
      {
        GoodWindowKeeps(h, m, n);
      }
    } else {
      var n := BadWindowLoses(h, m);
    }
  }

  /** From any moment with lock, lock and offset are kept for as long as no window collects a 17th invalid header. */
  lemma {:induction false} LockKept(h: Headers, m: nat, n: nat)
    requires m <= n && At(h, m).lock
    requires forall a: nat, b: nat :: m <= b <= n && a <= b <= a + 65 ==> Bad(h, At(h, m).offset, a, b) <= 16
    ensures At(h, n).lock && At(h, n).offset == At(h, m).offset
    decreases n
  {
    if m < n {
      LockKept(h, m, n - 1);
      var c := At(h, n - 1);
      CountersMean(h, n - 1);
      StepKeepsLock(c, h(c.offset, n - 1));
    }
  }

  lemma StepKeepsLock(c: Control, valid: bool)
    requires c.lock && c.mode != SLIP && c.mode != LOCK_INIT
    ensures ControlStep(c, valid).lock && ControlStep(c, valid).offset == c.offset
  {}

  // ---- window by window ----

  function NextOffset(o: nat): nat { if o >= 65 then 0 else o + 1 }

  /** A locked window that is not lost: where it ends and where the next one opens. */
  lemma LockedWindow(h: Headers, m: nat)
    requires At(h, m).mode == RESET_CNT && At(h, m).lock
    ensures var o := At(h, m).offset;
            && (Bad(h, o, m + 1, m + 66) == 0 ==>
                  && At(h, m + 66).mode == GOOD_64
                  && At(h, m + 67).mode == RESET_CNT && At(h, m + 67).lock && At(h, m + 67).offset == o)
            && (1 <= Bad(h, o, m + 1, m + 66) <= 16 ==>
                  At(h, m + 66).mode == RESET_CNT && At(h, m + 66).lock && At(h, m + 66).offset == o)
  {
    var o := At(h, m).offset;
    if Bad(h, o, m + 1, m + 66) <= 16 {
      InsideWindow(h, m, 64);
      WindowEnd(h, o, m, m + 65, true, Bad(h, o, m + 1, m + 65));
    }
  }

  /** The last header of a window decides how it ends. */
  lemma WindowEnd(h: Headers, o: nat, m: nat, n: nat, lock: bool, bad: nat)
    requires n == m + 65 && At(h, n) == Control(TEST_SH, lock, 64, bad, o)
    requires bad == Bad(h, o, m + 1, n) && Bad(h, o, m + 1, n + 1) <= (if lock then 16 else 0)
    ensures Bad(h, o, m + 1, n + 1) == 0 ==>
              && At(h, n + 1).mode == GOOD_64
              && At(h, n + 2).mode == RESET_CNT && At(h, n + 2).lock && At(h, n + 2).offset == o
    ensures Bad(h, o, m + 1, n + 1) > 0 ==> At(h, n + 1).mode == RESET_CNT && At(h, n + 1).lock && At(h, n + 1).offset == o
  {
    var valid := h(o, n);
    assert At(h, n + 1) == ControlStep(At(h, n), valid);
    assert At(h, n + 2) == ControlStep(At(h, n + 1), h(At(h, n + 1).offset, n + 1));
  }

  /** The 17th invalid header of a locked window slips to the next offset. */
  lemma LockedFall(h: Headers, m: nat, j: nat)
    requires At(h, m).mode == RESET_CNT && At(h, m).lock && j <= 64
    requires Bad(h, At(h, m).offset, m + 1, m + 1 + j) == 16 && !h(At(h, m).offset, m + 1 + j)
    ensures At(h, m + 2 + j).mode == SLIP && At(h, m + 2 + j).lock
    ensures At(h, m + 3 + j).mode == RESET_CNT && !At(h, m + 3 + j).lock && At(h, m + 3 + j).offset == NextOffset(At(h, m).offset)
  {
    InsideWindow(h, m, j);
    Falls(h, m + 1 + j, At(h, m).offset);
  }

  lemma Falls(h: Headers, n: nat, o: nat)
    requires At(h, n).mode == TEST_SH && At(h, n).offset == o && !h(o, n)
    requires if At(h, n).lock then At(h, n).shInv == 16 else At(h, n).shInv == 0
    ensures At(h, n + 1).mode == SLIP && At(h, n + 1).lock == At(h, n).lock
    ensures At(h, n + 2).mode == RESET_CNT && !At(h, n + 2).lock && At(h, n + 2).offset == NextOffset(o)
  {
    assert At(h, n + 1) == ControlStep(At(h, n), false);
    assert At(h, n + 2) == ControlStep(At(h, n + 1), h(At(h, n + 1).offset, n + 1));
  }

  /** j valid headers into a window without lock. */
  lemma {:induction false} InsideTrial(h: Headers, m: nat, j: nat)
    requires At(h, m).mode == RESET_CNT && !At(h, m).lock
    requires j <= 64 && Bad(h, At(h, m).offset, m + 1, m + 1 + j) == 0
    ensures At(h, m + 1 + j) == Control(TEST_SH, false, j, 0, At(h, m).offset)
  {
    if j > 0 {
      InsideTrial(h, m, j - 1);
      var c := At(h, m + j);
      assert At(h, m + j + 1) == ControlStep(c, h(c.offset, m + j));
    }
  }

  /** Without lock, 65 valid headers give lock where the window was. */
  lemma UnlockedWindow(h: Headers, m: nat)
    requires At(h, m).mode == RESET_CNT && !At(h, m).lock
    requires Bad(h, At(h, m).offset, m + 1, m + 66) == 0
    ensures At(h, m + 66).mode == GOOD_64
    ensures At(h, m + 67).mode == RESET_CNT && At(h, m + 67).lock && At(h, m + 67).offset == At(h, m).offset
  {
    InsideTrial(h, m, 64);
    WindowEnd(h, At(h, m).offset, m, m + 65, false, 0);
  }

  /** Without lock, the first invalid header slips to the next offset. */
  lemma UnlockedFall(h: Headers, m: nat, j: nat)
    requires At(h, m).mode == RESET_CNT && !At(h, m).lock && j <= 64
    requires Bad(h, At(h, m).offset, m + 1, m + 1 + j) == 0 && !h(At(h, m).offset, m + 1 + j)
    ensures At(h, m + 2 + j).mode == SLIP && !At(h, m + 2 + j).lock
    ensures At(h, m + 3 + j).mode == RESET_CNT && !At(h, m + 3 + j).lock && At(h, m + 3 + j).offset == NextOffset(At(h, m).offset)
  {
    InsideTrial(h, m, j);
    Falls(h, m + 1 + j, At(h, m).offset);
  }

  /** After a reset without lock, lock is at least 67 blocks away. */
  lemma {:induction false} NotSoon(h: Headers, t: nat, n: nat)
    requires At(h, t).mode == RESET_CNT && !At(h, t).lock && t <= n <= t + 66
    ensures !At(h, n).lock
    decreases n
  {
    if t < n {
      NotSoon(h, t, n - 1);
      if At(h, n).lock {
        LockRises(h, n - 1);
      }
    }
  }

  lemma LockSoFar(h: Headers, m: nat, n: nat)
    requires At(h, m).mode == RESET_CNT && At(h, m).lock && m + 2 <= n <= m + 67
    requires Bad(h, At(h, m).offset, m + 1, n - 1) <= 16
    ensures At(h, n).lock
  {
    if n == m + 67 {
      GoodWindowEnds(h, m);
    } else {
      InsideWindow(h, m, n - m - 2);
      TestKeepsLock(h, n - 1, n);
    }
  }

  lemma TestKeepsLock(h: Headers, n: nat, next: nat)
    requires next == n + 1 && At(h, n).mode == TEST_SH
    ensures At(h, next).lock == At(h, n).lock
  {}

  lemma LockGone(h: Headers, m: nat, n: nat)
    requires At(h, m).mode == RESET_CNT && At(h, m).lock && m + 2 <= n <= m + 67
    requires Bad(h, At(h, m).offset, m + 1, n - 1) >= 17
    ensures !At(h, n).lock
  {
    var j := Seventeenth(h, At(h, m).offset, m + 1, n - 1);
    LockedFall(h, m, j);
    NotSoon(h, m + 3 + j, n);
  }

  /** Inside a window that opened with lock, lock is held exactly until the 17th invalid header has been acted on. */
  lemma LockInWindow(h: Headers, m: nat, n: nat)
    requires At(h, m).mode == RESET_CNT && At(h, m).lock && m + 2 <= n <= m + 67
    ensures At(h, n).lock <==> Bad(h, At(h, m).offset, m + 1, n - 1) <= 16
  {
    if Bad(h, At(h, m).offset, m + 1, n - 1) <= 16 {
      LockSoFar(h, m, n);
    } else {
      LockGone(h, m, n);
    }
  }

  /** Where the window after the one that opened at m opens: one block later when GOOD_64 comes in between. */
  function NextWindow(h: Headers, o: nat, m: nat): nat {
    if Bad(h, o, m + 1, m + 66) == 0 then m + 67 else m + 66
  }

  /** No window up to block n has collected its 17th invalid header, read from the headers alone. */
  predicate Holding(h: Headers, o: nat, m: nat, n: nat)
    decreases if n > m then n - m else 0
  {
    if n < m + 2 then true
    else if n <= m + 67 then Bad(h, o, m + 1, n - 1) <= 16
    else Bad(h, o, m + 1, m + 66) <= 16 && Holding(h, o, NextWindow(h, o, m), n)
  }

  ghost predicate LockedThrough(h: Headers, m: nat, n: nat) {
    forall k: nat :: m <= k <= n ==> At(h, k).lock
  }

  /**
    Exactly when lock is kept: from a window that opens with lock at block m,
    lock is held without a break up to block n if and only if no window since
    then has collected its 17th invalid header.
   */
  lemma {:induction false} LockedExactly(h: Headers, m: nat, n: nat)
    requires At(h, m).mode == RESET_CNT && At(h, m).lock && m <= n
    ensures LockedThrough(h, m, n) <==> Holding(h, At(h, m).offset, m, n)
    decreases n - m
  {
    var o := At(h, m).offset;
    if n <= m + 67 {
      LockedInFirst(h, m, n);
    } else if Bad(h, o, m + 1, m + 66) <= 16 {
      LockedWindow(h, m);
      var next := NextWindow(h, o, m);
      LockedExactly(h, next, n);
      forall k: nat | m <= k <= next
        ensures At(h, k).lock
      {
        GoodWindowKeeps(h, m, k);
      }
    } else {
      LockInWindow(h, m, m + 67);
    }
  }

  lemma LockedInFirst(h: Headers, m: nat, n: nat)
    requires At(h, m).mode == RESET_CNT && At(h, m).lock && m <= n <= m + 67
    ensures LockedThrough(h, m, n) <==> Holding(h, At(h, m).offset, m, n)
  {
    var o := At(h, m).offset;
    if n >= m + 2 {
      LockInWindow(h, m, n);
    }
    if Holding(h, o, m, n) {
      forall k: nat | m <= k <= n
        ensures At(h, k).lock
      {
        if k >= m + 2 {
          BadSplit(h, o, m + 1, k - 1, n - 1);
          LockInWindow(h, m, k);
        } else {
          assert At(h, m + 1) == ControlStep(At(h, m), h(o, m));
        }
      }
    }
  }

  // ---- gaining lock ----

  /** Offset o meets an invalid header in the 65 blocks from a on. */
  predicate Rejected(h: Headers, o: nat, a: nat) {
    Bad(h, o, a, a + 65) > 0
  }

  /**
    Offset g is the right one for the first n blocks: its headers are all
    valid, and every other offset meets an invalid header in any 65
    consecutive blocks.
   */
  ghost predicate RightOffset(h: Headers, g: nat, n: nat) {
    && g <= 65
    && (forall k :: 2 <= k < n ==> h(g, k))
    && forall o: nat, a: nat :: o <= 65 && o != g && 2 <= a && a + 65 <= n ==> Rejected(h, o, a)
  }

  /** Slips from offset o to offset g: 66 slips visit every offset once. */
  function Slips(o: nat, g: nat): (d: nat)
    requires o <= 65 && g <= 65
  {
    if o <= g then g - o else g - o + 66
  }

  const LOCK_BOUND := 2 + 65 * 67 + 66

  /** Blocks still to consume before lock, at worst. */
  function Remaining(c: Control, g: nat): int
    requires c.offset <= 65 && g <= 65
  {
    var d := Slips(c.offset, g);
    match c.mode
    case LOCK_INIT => LOCK_BOUND
    case RESET_CNT => 1 + 67 * d + 66
    case TEST_SH => 67 * d + 66 - c.shCnt
    case SLIP => 2 + 67 * (d - 1) + 66
    case GOOD_64 => 1
  }

  /** Lock is held at g with nothing counted against it, or it is on its way. */
  ghost predicate OnTheWay(c: Control, g: nat, n: nat)
    requires c.offset <= 65 && g <= 65
  {
    || (c.lock && c.offset == g && c.mode in {RESET_CNT, TEST_SH, GOOD_64} && (c.mode == TEST_SH ==> c.shInv == 0))
    || (&& !c.lock && n + Remaining(c, g) <= LOCK_BOUND
        && (c.mode == SLIP ==> c.offset != g) && (c.mode == GOOD_64 ==> c.offset == g))
  }

  lemma {:induction false} StaysOnTheWay(h: Headers, g: nat, total: nat, n: nat)
    requires RightOffset(h, g, total) && n <= total
    ensures OnTheWay(At(h, n), g, n)
  {
    if n == 1 {
      assert At(h, 0) == CONTROL_RESET;
    } else if n > 1 {
      StaysOnTheWay(h, g, total, n - 1);
      CountersMean(h, n - 1);
      var c := At(h, n - 1);
      if c.mode == TEST_SH {
        TestOnTheWay(h, g, total, n - 1, c);
      }
    }
  }

  lemma TestOnTheWay(h: Headers, g: nat, total: nat, n: nat, c: Control)
    requires RightOffset(h, g, total) && n < total
    requires c.mode == TEST_SH && c.offset <= 65 && OnTheWay(c, g, n) && Meaning(h, n, c)
    ensures OnTheWay(ControlStep(c, h(c.offset, n)), g, n + 1)
  {
    if c.offset != g && c.shCnt == 64 {
      BadSplit(h, c.offset, n - 64, n, n + 1);
      assert Rejected(h, c.offset, n - 64);
    }
  }

  /**
    Bounded lock acquisition: once 2 + 65 * 67 + 66 blocks have been consumed,
    block lock is held at the right offset, and it never drops again.
   */
  lemma LockWithinBound(h: Headers, g: nat, n: nat)
    requires RightOffset(h, g, n) && n >= LOCK_BOUND
    ensures At(h, n).lock && At(h, n).offset == g
    ensures At(h, n).mode != SLIP
  {
    StaysOnTheWay(h, g, n, n);
    CountersMean(h, n);
  }

  /** The slowest headers: every wrong offset fails only on its last test, and 59 is tried last. */
  function Slowest(): Headers {
    (o: nat, k: nat) => o == 59 || (o <= 65 && 2 + 67 * Slips(60, o) <= k < 2 + 67 * Slips(60, o) + 64)
  }

  /** The bound is reached: with the slowest headers lock is still missing one block earlier. */
  lemma BoundIsTight(n: nat)
    requires n >= LOCK_BOUND
    ensures RightOffset(Slowest(), 59, n) && !At(Slowest(), LOCK_BOUND - 1).lock
  {
    var h := Slowest();
    forall o: nat, a: nat | o <= 65 && o != 59 && 2 <= a && a + 65 <= n
      ensures Rejected(h, o, a)
    {
      NoneBad(h, o, a, a + 65);
      assert !h(o, a) || !h(o, a + 64);
    }
    SlowestIsSlow(LOCK_BOUND - 1);
  }

  /** On the slowest way to lock: exactly the worst number of blocks still to go. */
  ghost predicate Slow(c: Control, n: nat) {
    && c.offset <= 65 && !c.lock && n + Remaining(c, 59) == LOCK_BOUND && c.mode != LOCK_INIT
    && (c.mode == TEST_SH ==> c.shCnt <= 64 && c.shInv == 0)
    && (c.mode == SLIP ==> c.offset != 59) && (c.mode == GOOD_64 ==> c.offset == 59)
  }

  lemma SlowStep(c: Control, n: nat)
    requires Slow(c, n) && n + 1 < LOCK_BOUND
    ensures Slow(ControlStep(c, Slowest()(c.offset, n)), n + 1)
  {
    assert Slips(60, c.offset) + Slips(c.offset, 59) == 65;
  }

  lemma {:induction false} SlowestIsSlow(n: nat)
    requires 1 <= n < LOCK_BOUND
    ensures Slow(At(Slowest(), n), n)
  {
    if n == 1 {
      assert At(Slowest(), 0) == CONTROL_RESET;
    } else {
      SlowestIsSlow(n - 1);
      SlowStep(At(Slowest(), n - 1), n - 1);
    }
  }

  // ---- recovering lock ----

  /** Offset o meets a 17th invalid header in the 65 blocks from a on. */
  predicate Refused(h: Headers, o: nat, a: nat) {
    Bad(h, o, a, a + 65) >= 17
  }

  /**
    From block n0 on, offset g has valid headers only, and every other offset
    meets at least 17 invalid headers in any 65 consecutive blocks. Fewer would
    not do: by LockKept a lock at a wrong offset survives 16.
   */
  ghost predicate RightFrom(h: Headers, g: nat, n0: nat, n: nat) {
    && g <= 65
    && (forall k :: n0 <= k < n ==> h(g, k))
    && forall o: nat, a: nat :: o <= 65 && o != g && n0 <= a && a + 65 <= n ==> Refused(h, o, a)
  }

  /** Blocks until the counters are next reset, at worst. */
  function UntilReset(c: Control): int {
    match c.mode
    case RESET_CNT => 0
    case TEST_SH => 66 - c.shCnt
    case _ => 1
  }

  /** Whatever the headers, RESET_CNT comes within 66 blocks. */
  lemma {:induction false} ResetComes(h: Headers, n: nat) returns (m: nat)
    ensures n <= m <= n + UntilReset(At(h, n)) <= n + 66 && At(h, m).mode == RESET_CNT
    decreases UntilReset(At(h, n))
  {
    CountersMean(h, n);
    if At(h, n).mode == RESET_CNT {
      m := n;
    } else {
      m := ResetComes(h, n + 1);
    }
  }

  /** Within another window the machine has either left a wrong offset or holds lock at g. */
  lemma FreshStart(h: Headers, g: nat, n0: nat, total: nat) returns (m: nat)
    requires RightFrom(h, g, n0, total) && n0 + 66 + 66 <= total
    ensures n0 <= m <= n0 + 66 + 67 && At(h, m).mode == RESET_CNT
    ensures At(h, m).lock ==> At(h, m).offset == g
  {
    m := ResetComes(h, n0);
    var c := At(h, m);
    if c.lock && c.offset != g {
      assert Refused(h, c.offset, m + 1);
      m := BadWindowLoses(h, m);
    }
  }

  const FROM_RESET := 1 + 67 * 65 + 66
  const RECOVERY_BOUND := 66 + 67 + FROM_RESET

  /** Since the reset at m: lock is held at g, or it will be within FROM_RESET blocks of m. */
  ghost predicate Recovering(c: Control, g: nat, n: nat, m: nat)
    requires c.offset <= 65 && g <= 65
  {
    || (c.lock && c.offset == g && c.mode in {RESET_CNT, TEST_SH, GOOD_64} && (c.mode == TEST_SH ==> c.shInv == 0))
    || (&& !c.lock && c.mode != LOCK_INIT && n + Remaining(c, g) <= m + FROM_RESET
        && (c.mode == SLIP ==> c.offset != g) && (c.mode == GOOD_64 ==> c.offset == g)
        && (c.mode == TEST_SH ==> n - c.shCnt > m))
  }

  lemma {:induction false} StaysRecovering(h: Headers, g: nat, n0: nat, total: nat, m: nat, n: nat)
    requires RightFrom(h, g, n0, total) && n0 <= m <= n <= total
    requires At(h, m).mode == RESET_CNT && (At(h, m).lock ==> At(h, m).offset == g)
    ensures Recovering(At(h, n), g, n, m)
    decreases n
  {
    if m < n {
      StaysRecovering(h, g, n0, total, m, n - 1);
      NextRecovering(h, g, n0, total, m, n - 1);
    } else {
      ResetRecovering(At(h, m), g, m);
    }
  }

  lemma ResetRecovering(c: Control, g: nat, m: nat)
    requires c.offset <= 65 && g <= 65 && c.mode == RESET_CNT && (c.lock ==> c.offset == g)
    ensures Recovering(c, g, m, m)
  {}

  lemma NextRecovering(h: Headers, g: nat, n0: nat, total: nat, m: nat, n: nat)
    requires RightFrom(h, g, n0, total) && n0 <= m <= n < total && Recovering(At(h, n), g, n, m)
    ensures Recovering(At(h, n + 1), g, n + 1, m)
  {
    CountersMean(h, n);
    var c := At(h, n);
    if c.mode == TEST_SH {
      TestRecovering(h, g, n0, total, m, n, c);
    } else {
      StepRecovering(c, h(c.offset, n), g, m, n);
    }
  }

  lemma StepRecovering(c: Control, valid: bool, g: nat, m: nat, n: nat)
    requires c.mode != TEST_SH && c.offset <= 65 && g <= 65 && m <= n && Recovering(c, g, n, m)
    ensures Recovering(ControlStep(c, valid), g, n + 1, m)
  {}

  lemma TestRecovering(h: Headers, g: nat, n0: nat, total: nat, m: nat, n: nat, c: Control)
    requires RightFrom(h, g, n0, total) && n0 <= m <= n < total
    requires c.mode == TEST_SH && c.offset <= 65 && Recovering(c, g, n, m) && Meaning(h, n, c)
    ensures Recovering(ControlStep(c, h(c.offset, n)), g, n + 1, m)
  {
    if c.offset != g && c.shCnt == 64 {
      ValidNotRefused(h, c.offset, n - 64);
    }
  }

  lemma ValidNotRefused(h: Headers, o: nat, a: nat)
    requires Bad(h, o, a, a + 64) == 0
    ensures !Refused(h, o, a)
  {
    BadSplit(h, o, a, a + 64, a + 65);
  }

  /**
    Recovery: whatever state the machine is in at block n0 and whatever headers
    it has seen, block lock is held at the right offset from RECOVERY_BOUND
    blocks later on.
   */
  lemma LockRecovers(h: Headers, g: nat, n0: nat, n: nat)
    requires RightFrom(h, g, n0, n) && n >= n0 + RECOVERY_BOUND
    ensures At(h, n).lock && At(h, n).offset == g
  {
    var m := FreshStart(h, g, n0, n);
    StaysRecovering(h, g, n0, n, m, n);
    CountersMean(h, n);
  }
}
