/**
  A line on which the receive path must lock: data blocks whose scrambled
  payloads are all ones, or all ones but the last bit, in turn. It shows that
  the assumptions of ReceivePath.PathDelivers and PathRecovers can be met at any
  length.
 */
module ReceptionExample {
  import opened Bits
  import opened Xgmii
  import Pcs
  import opened LineCode
  import opened LineStream
  import Scrambling
  import LockControl
  import Descrambler
  import BlockSync
  import ReceivePath

  // ---- any 64 bits are the payload of a data block ----

  lemma {:induction false} ToBitsVal(w: Word)
    ensures ToBits(Val(w), |w|) == w && Val(w) < Pow2(|w|)
  {
    if w != [] {
      ToBitsVal(w[1..]);
    }
  }

  function BytesOf(w: Word): (r: seq<Byte>)
    requires |w| % 8 == 0
    ensures |r| == |w| / 8
  {
    if w == [] then [] else [ByteVal(w[..8])] + BytesOf(w[8..])
  }

  function ByteVal(w: Word): Byte
    requires |w| == 8
  {
    ToBitsVal(w);
    assert Pow2(8) == 256;
    Val(w)
  }

  lemma FromBytesCons(b: Byte, bs: seq<Byte>)
    ensures Pcs.FromBytes([b] + bs) == b + 256 * Pcs.FromBytes(bs)
  {
    assert ([b] + bs)[1..] == bs;
  }

  lemma {:induction false} BytesKeepBits(w: Word)
    requires |w| % 8 == 0
    ensures ToBits(Pcs.FromBytes(BytesOf(w)), |w|) == w
  {
    if w != [] {
      var low, rest := w[..8], w[8..];
      BytesKeepBits(rest);
      FromBytesCons(ByteVal(low), BytesOf(rest));
      ToBitsOverByte(ByteVal(low), Pcs.FromBytes(BytesOf(rest)), |rest|);
      ToBitsVal(low);
      assert w == low + rest;
    }
  }

  function DataBlock(d: Word): (x: GoodBlock)
    requires |d| == 64
  {
    Data(BytesOf(d))
  }

  lemma DataBlockCarries(d: Word)
    requires |d| == 64
    ensures Carries(DataBlock(d), d) && Pcs.Sync(DataBlock(d)) == 2
  {
    BytesKeepBits(d);
  }

  // ---- the line ----

  function Payload(i: nat): (w: Word)
    ensures |w| == 64
  {
    if i % 2 == 0 then Ones(64) else Ones(63) + [false]
  }

  function Blocks(n: nat): (r: seq<Word>)
    ensures |r| == n && AllWide(r, 66)
    ensures forall i :: 0 <= i < n ==> r[i] == [false, true] + Payload(i)
  {
    seq(n, i requires 0 <= i < n => [false, true] + Payload(i))
  }

  /** Seen at a wrong offset, one of any two consecutive blocks has an invalid header, whatever blocks came before. */
  lemma WrongOffset(pre: seq<Word>, n: nat, put: seq<Word>, o: nat, j: nat, k: nat)
    requires AllWide(pre, 66) && put == pre + Blocks(n) && 0 < o <= 65 && k == |pre| + j
    requires 2 <= j <= n && Turn(o, j)
    ensures AllWide(put, 66) && !BlockSync.HeadersOf(put)(o, k)
  {
    var before, last := put[k - 2], put[k - 1];
    assert before == [false, true] + Payload(j - 2) && last == [false, true] + Payload(j - 1);
    var w := BlockSync.Window(put, o, k);
    if o == 1 {
      assert w[0] == before[65] && w[1] == last[0];
    } else {
      assert w[0] == before[66 - o] && w[1] == before[67 - o];
    }
  }

  /** Block j of the line gives the wrong offset o away. */
  predicate Turn(o: nat, j: nat) { if o == 1 then j % 2 == 1 else j % 2 == 0 }

  function Turns(o: nat, n: nat): nat { if o == 1 then n / 2 else (n + 1) / 2 }

  /** A wrong offset fails at every other block. */
  lemma {:induction false} EveryOther(h: LockControl.Headers, o: nat, base: nat, a: nat, b: nat)
    requires a <= b && forall j: nat :: a <= j < b && Turn(o, j) ==> FailsAt(h, o, base, j)
    ensures LockControl.Bad(h, o, base + a, base + b) + Turns(o, a) >= Turns(o, b)
    decreases b
  {
    if a < b {
      EveryOther(h, o, base, a, b - 1);
      assert base + b - 1 == base + (b - 1);
      if Turn(o, b - 1) {
        assert FailsAt(h, o, base, b - 1);
      }
    }
  }

  /** From block b of the line on, h fails o at every turn. */
  ghost predicate Fails(h: LockControl.Headers, o: nat, base: nat, b: nat) {
    forall j: nat :: b <= j < b + 65 && Turn(o, j) ==> FailsAt(h, o, base, j)
  }

  ghost predicate FailsAt(h: LockControl.Headers, o: nat, base: nat, j: nat) {
    !h(o, base + j)
  }

  lemma FailsIsRefused(h: LockControl.Headers, o: nat, base: nat, b: nat, a: nat)
    requires Fails(h, o, base, b) && a == base + b
    ensures LockControl.Refused(h, o, a)
  {
    EveryOther(h, o, base, b, b + 65);
    assert base + (b + 65) == a + 65;
  }

  lemma TurnFails(pre: seq<Word>, n: nat, put: seq<Word>, o: nat, j: nat)
    requires AllWide(pre, 66) && put == pre + Blocks(n) && AllWide(put, 66) && 0 < o <= 65 && 2 <= j <= n && Turn(o, j)
    ensures FailsAt(BlockSync.HeadersOf(put), o, |pre|, j)
  {
    WrongOffset(pre, n, put, o, j, |pre| + j);
  }

  lemma OffsetFails(pre: seq<Word>, n: nat, put: seq<Word>, o: nat, b: nat)
    requires AllWide(pre, 66) && put == pre + Blocks(n) && AllWide(put, 66) && 0 < o <= 65
    requires 2 <= b && b + 65 <= n + 1
    ensures Fails(BlockSync.HeadersOf(put), o, |pre|, b)
  {
    forall j: nat | b <= j < b + 65 && Turn(o, j)
      ensures FailsAt(BlockSync.HeadersOf(put), o, |pre|, j)
    {
      TurnFails(pre, n, put, o, j);
    }
  }

  lemma LineIsDistinct(pre: seq<Word>, n: nat, put: seq<Word>, n0: nat)
    requires AllWide(pre, 66) && put == pre + Blocks(n) && AllWide(put, 66) && n0 == |pre| + 2
    ensures ReceivePath.Distinct(put, 0, n0)
  {
    forall o: nat, a: nat | o <= 65 && o != 0 && n0 <= a && a + 65 <= |put| + 1
      ensures LockControl.Refused(BlockSync.HeadersOf(put), o, a)
    {
      OffsetFails(pre, n, put, o, a - |pre|);
      FailsIsRefused(BlockSync.HeadersOf(put), o, |pre|, a - |pre|, a);
    }
  }

  lemma LineIsUnambiguous(n: nat)
    ensures ReceivePath.Unambiguous(Blocks(n), 0)
  {
    assert [] + Blocks(n) == Blocks(n);
    LineIsDistinct([], n, Blocks(n), 2);
    forall o: nat, a: nat | o <= 65 && o != 0 && 2 <= a && a + 65 <= n + 1
      ensures LockControl.Rejected(BlockSync.HeadersOf(Blocks(n)), o, a)
    {
      assert LockControl.Refused(BlockSync.HeadersOf(Blocks(n)), o, a);
    }
  }

  /** The blocks a transmitter with the all-ones scrambler state must have sent. */
  function Sent(line: seq<Word>): Transmission
    requires AllWide(line, 66)
  {
    var d := Descrambler.Payloads(Descrambler.DescrambleAll(Ones(Scrambling.HISTORY), line));
    Transmission(seq(|line|, i requires 0 <= i < |line| => DataBlock(d[i])), d, Descrambler.Payloads(line), line)
  }

  lemma BlocksAreSent(n: nat)
    ensures Sends(Sent(Blocks(n)), Ones(Scrambling.HISTORY))
  {
    var line, tx := Blocks(n), Sent(Blocks(n));
    Descrambler.DescrambleAllIsSerial(Ones(Scrambling.HISTORY), line);
    SyncBits();
    forall i | 0 <= i < n
      ensures Carries(tx.xs[i], tx.payloads[i]) && tx.line[i] == Framed(Pcs.Sync(tx.xs[i]), tx.scrambled[i])
    {
      DataBlockCarries(tx.payloads[i]);
      assert line[i] == [false, true] + line[i][2..];
    }
  }

  /** Receptions of every length exist. */
  lemma ReceptionIsPossible(n: nat)
    ensures ReceivePath.Reception(Blocks(n), [], Sent(Blocks(n)), Ones(Scrambling.HISTORY))
  {
    BlocksAreSent(n);
    LineIsUnambiguous(n);
    assert [] + Concat(Blocks(n)) == Concat(Blocks(n));
  }

  lemma WholeBlocks(lead: nat, n: nat)
    requires lead == 66 * n
    ensures RightCut(lead) == 0 && Skew(lead) == n + 1
  {}

  /** Late receptions of every length exist, behind any blocks whatever. */
  lemma LateReceptionIsPossible(pre: seq<Word>, n: nat)
    requires AllWide(pre, 66)
    ensures ReceivePath.LateReception(pre + Blocks(n), Concat(pre), Sent(Blocks(n)), Ones(Scrambling.HISTORY))
  {
    BlocksAreSent(n);
    ConcatLength(pre, 66);
    WholeBlocks(|Concat(pre)|, |pre|);
    ConcatAppend(pre, Blocks(n));
    LineIsDistinct(pre, n, pre + Blocks(n), |pre| + 2);
  }
}
