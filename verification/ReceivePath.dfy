/**
  The whole receive path: hw/bsv/EthPcsRx.bsv with the DTP stripper connected
  as in hw/bsv/EthPhy.bsv. Bits of a far-end transmitter enter at the block
  synchroniser and XGMII words leave at the decoder; every rule of every
  module and every connection fires in any order its guard allows.
 */
module ReceivePath {
  import opened Bits
  import opened Xgmii
  import Pcs
  import opened LineCode
  import opened LineStream
  import Scrambling
  import opened LockControl
  import BlockSync
  import Descrambler
  import DtpRx
  import Decoder
  import Settling
  import BypassedIdle
  import DtpMessages

  /** Four modules and the two FIFOs of mkEthPcsRx around the DTP stripper. */
  datatype System = System(bs: BlockSync.State, ds: Descrambler.State, dtpIn: seq<Word>,
                           dtp: DtpRx.State, dtpOut: seq<Word>, dec: Decoder.State)

  const RESET := System(BlockSync.RESET_STATE, Descrambler.RESET_STATE, [], DtpRx.RESET_STATE, [], Decoder.RESET_STATE)

  /** A rule, a connection, or a transfer at either end of the path. */
  datatype Action =
    | Receive(v: Word) | SlipData | Consume            // block synchroniser
    | ToDescrambler | Descramble | FromDescrambler
    | ToDtp | Parse | Bypass | TakeEvent | FromDtp | ToDecoder
    | Stage1 | FireLane(i: nat) | Output | Take           // decoder

  ghost predicate Enabled(s: System, a: Action) {
    match a
    case Receive(v) => BlockSync.CanPut(s.bs) && |v| == 66
    case SlipData => BlockSync.CanSlipData(s.bs) && BlockSync.Sized(s.bs)
    case Consume => BlockSync.CanConsume(s.bs) && BlockSync.Sized(s.bs)
    case ToDescrambler => BlockSync.CanGet(s.bs) && Descrambler.CanPut(s.ds)
    case Descramble => Descrambler.CanFire(s.ds) && |s.ds.scram| == Scrambling.HISTORY && |s.ds.fifoIn[0]| == 66
    case FromDescrambler => Descrambler.CanGet(s.ds) && |s.dtpIn| < 2
    case ToDtp => s.dtpIn != [] && DtpRx.CanPut(s.dtp)
    case Parse | Bypass => DtpRx.CanFire(s.dtp) && |s.dtp.fifoIn[0]| == 66
    case TakeEvent => DtpRx.CanTake(s.dtp)
    case FromDtp => DtpRx.CanGet(s.dtp) && |s.dtpOut| < 2
    case ToDecoder => s.dtpOut != [] && Decoder.CanPut(s.dec)
    case Stage1 => Decoder.CanStage1(s.dec) && |s.dec.laneIn| == 8 && |s.dec.fifoIn[0]| == 66
    case FireLane(i) => i < 8 && Decoder.CanLane(s.dec, i) && Decoder.StageWide(s.dec.laneIn[i][0])
    case Output => Decoder.CanOutput(s.dec)
    case Take => Decoder.CanGet(s.dec)
  }

  /** One action. While rx_ready is high DTP parses with the lock signal of the moment, else it bypasses. */
  ghost function Step(s: System, a: Action): System
    requires Enabled(s, a)
  {
    match a
    case Receive(v) => s.(bs := BlockSync.Put(s.bs, v))
    case SlipData => s.(bs := BlockSync.SlipData(s.bs))
    case Consume => s.(bs := BlockSync.Consume(s.bs))
    case ToDescrambler => s.(bs := BlockSync.Get(s.bs), ds := Descrambler.Put(s.ds, s.bs.fifoOut[0]))
    case Descramble => s.(ds := Descrambler.Fire(s.ds))
    case FromDescrambler => s.(ds := Descrambler.Get(s.ds), dtpIn := s.dtpIn + [s.ds.fifoOut[0]])
    case ToDtp => s.(dtpIn := s.dtpIn[1..], dtp := DtpRx.Put(s.dtp, s.dtpIn[0]))
    case Parse => s.(dtp := DtpRx.Fire(s.dtp, true, s.bs.c.lock))
    case Bypass => s.(dtp := DtpRx.Fire(s.dtp, false, s.bs.c.lock))
    case TakeEvent => s.(dtp := DtpRx.Take(s.dtp))
    case FromDtp => s.(dtp := DtpRx.Get(s.dtp), dtpOut := s.dtpOut + [s.dtp.fifoOut[0]])
    case ToDecoder => s.(dtpOut := s.dtpOut[1..], dec := Decoder.Put(s.dec, s.dtpOut[0]))
    case Stage1 => s.(dec := Decoder.Stage1Decode(s.dec))
    case FireLane(i) => s.(dec := Decoder.FireLane(s.dec, i))
    case Output => s.(dec := Decoder.Output(s.dec))
    case Take => s.(dec := Decoder.Get(s.dec))
  }

  ghost predicate Next(s: System, t: System) {
    exists a :: Enabled(s, a) && t == Step(s, a)
  }

  ghost predicate IsRun(run: seq<System>) {
    && |run| > 0 && run[0] == RESET
    && forall i :: 0 < i < |run| ==> Next(run[i - 1], run[i])
  }

  // ---- the invariant ----

  /** Nothing is lost, added or reordered between the modules. */
  ghost predicate Links(s: System) {
    && s.bs.emitted == s.ds.put + s.bs.fifoOut
    && s.ds.got == s.dtp.put + s.dtpIn
    && s.dtp.got == s.dec.put + s.dtpOut
  }

  /** Block k was parsed if DTP was ready and lock was held, at some time between block k being consumed and block m. */
  ghost predicate ParsedWhen(put: seq<Word>, m: nat, k: nat, ready: bool, parsed: bool)
    requires AllWide(put, 66)
  {
    exists n: nat :: k < n <= m && ParsedAt(put, n, ready, parsed)
  }

  ghost predicate ParsedAt(put: seq<Word>, n: nat, ready: bool, parsed: bool)
    requires AllWide(put, 66)
  {
    parsed == (ready && BlockSync.ControlAt(put, n).lock)
  }

  ghost predicate LocksSeen(put: seq<Word>, m: nat, ready: seq<bool>, parsed: seq<bool>) {
    && AllWide(put, 66) && |ready| == |parsed|
    && forall k :: 0 <= k < |parsed| ==> ParsedWhen(put, m, k, ready[k], parsed[k])
  }

  ghost predicate Inv(s: System) {
    && BlockSync.Inv(s.bs) && Descrambler.Inv(s.ds) && DtpRx.Inv(s.dtp) && Decoder.Inv(s.dec)
    && Links(s)
    && LocksSeen(s.bs.put, |s.bs.emitted|, s.dtp.ready, s.dtp.parsed)
  }

  lemma LocksSeenPrefix(put: seq<Word>, v: Word, m: nat, ready: seq<bool>, parsed: seq<bool>)
    requires LocksSeen(put, m, ready, parsed) && |v| == 66 && m <= |put|
    ensures LocksSeen(put + [v], m, ready, parsed)
  {
    forall k | 0 <= k < |parsed|
      ensures ParsedWhen(put + [v], m, k, ready[k], parsed[k])
    {
      assert ParsedWhen(put, m, k, ready[k], parsed[k]);
      var n: nat :| k < n <= m && ParsedAt(put, n, ready[k], parsed[k]);
      BlockSync.ControlPrefix(put, v, n);
      assert ParsedAt(put + [v], n, ready[k], parsed[k]);
    }
  }

  lemma LocksSeenLater(put: seq<Word>, m: nat, ready: seq<bool>, parsed: seq<bool>)
    requires LocksSeen(put, m, ready, parsed)
    ensures LocksSeen(put, m + 1, ready, parsed)
  {
    forall k | 0 <= k < |parsed|
      ensures ParsedWhen(put, m + 1, k, ready[k], parsed[k])
    {
      assert ParsedWhen(put, m, k, ready[k], parsed[k]);
      var n: nat :| k < n <= m && ParsedAt(put, n, ready[k], parsed[k]);
    }
  }

  lemma LocksSeenSnoc(put: seq<Word>, m: nat, ready: seq<bool>, parsed: seq<bool>, r: bool)
    requires LocksSeen(put, m, ready, parsed) && |parsed| < m
    ensures LocksSeen(put, m, ready + [r], parsed + [r && BlockSync.ControlAt(put, m).lock])
  {
    var p := r && BlockSync.ControlAt(put, m).lock;
    forall k | 0 <= k < |parsed| + 1
      ensures ParsedWhen(put, m, k, (ready + [r])[k], (parsed + [p])[k])
    {
      if k < |parsed| {
        assert ParsedWhen(put, m, k, ready[k], parsed[k]);
      } else {
        assert ParsedAt(put, m, r, p);
      }
    }
  }

  /** What the invariant says about sizes: every block is somewhere in the path. */
  lemma Places(s: System)
    requires Inv(s)
    ensures AllWide(s.bs.put, 66) && AllWide(s.ds.put, 66) && AllWide(s.dtp.put, 66)
    ensures |s.dtp.parsed| + |s.dtp.fifoIn| == |s.dtp.put| <= |s.ds.got| <= |s.ds.put| <= |s.bs.emitted| <= |s.bs.put|
    ensures s.bs.c == BlockSync.ControlAt(s.bs.put, |s.bs.emitted|)
    ensures BlockSync.Sized(s.bs)
  {
    BlockSync.InvIsSized(s.bs);
  }

  /** The head of a FIFO moves on to where its earlier items went. */
  lemma HandOn(sent: seq<Word>, q: seq<Word>, received: seq<Word>)
    requires sent == received + q && q != []
    ensures sent == (received + [q[0]]) + q[1..]
    ensures |received| < |sent| && sent[|received|] == q[0]
  {}

  lemma HandIn(sent: seq<Word>, q: seq<Word>, received: seq<Word>, v: Word)
    requires sent == received + q
    ensures sent + [v] == received + (q + [v])
  {}

  /** The links are the only thing that ties the modules' data together. */
  lemma LinksStep(s: System, a: Action, t: System)
    requires Links(s) && Enabled(s, a) && t == Step(s, a)
    ensures Links(t)
  {
    match a
    case Consume => HandIn(s.bs.emitted, s.bs.fifoOut, s.ds.put, s.bs.cfFifo[0]);
    case ToDescrambler => HandOn(s.bs.emitted, s.bs.fifoOut, s.ds.put);
    case FromDescrambler => HandIn(s.ds.got, s.dtpIn, s.dtp.put, s.ds.fifoOut[0]);
    case ToDtp => HandOn(s.ds.got, s.dtpIn, s.dtp.put);
    case FromDtp => HandIn(s.dtp.got, s.dtpOut, s.dec.put, s.dtp.fifoOut[0]);
    case ToDecoder => HandOn(s.dtp.got, s.dtpOut, s.dec.put);
    case _ =>
  }

  lemma BlockSyncKeeps(s: System, a: Action, t: System)
    requires Inv(s) && Enabled(s, a) && t == Step(s, a)
    ensures BlockSync.Inv(t.bs)
  {
    match a
    case Receive(v) => BlockSync.PutKeeps(s.bs, v, t.bs);
    case SlipData => BlockSync.SlipDataKeeps(s.bs, t.bs);
    case Consume => BlockSync.ConsumeKeeps(s.bs, t.bs);
    case ToDescrambler => BlockSync.GetKeeps(s.bs, t.bs);
    case _ =>
  }

  lemma EmittedIsWide(s: BlockSync.State)
    requires BlockSync.Inv(s) && s.fifoOut != []
    ensures |s.fifoOut[0]| == 66
  {
    var k := |s.emitted| - |s.fifoOut|;
    assert BlockSync.Cut(s.put)(k, s.emitted[k]);
  }

  lemma DescramblerKeeps(s: System, a: Action, t: System)
    requires Inv(s) && Enabled(s, a) && t == Step(s, a)
    ensures Descrambler.Inv(t.ds)
  {
    match a
    case ToDescrambler =>
      EmittedIsWide(s.bs);
      Descrambler.PutKeeps(s.ds, s.bs.fifoOut[0]);
    case Descramble => Descrambler.FireKeeps(s.ds);
    case FromDescrambler => Descrambler.GetKeeps(s.ds);
    case _ =>
  }

  lemma GotIsWide(s: Descrambler.State, k: nat)
    requires Descrambler.Inv(s) && k < |s.got|
    ensures |s.got[k]| == 66
  {
    assert s.got[k] == (s.got + s.fifoOut)[k];
  }

  lemma DtpKeeps(s: System, a: Action, t: System)
    requires Inv(s) && Enabled(s, a) && t == Step(s, a)
    ensures DtpRx.Inv(t.dtp)
  {
    match a
    case ToDtp =>
      HandOn(s.ds.got, s.dtpIn, s.dtp.put);
      GotIsWide(s.ds, |s.dtp.put|);
      DtpRx.PutKeeps(s.dtp, s.dtpIn[0]);
    case Parse => DtpRx.FireKeeps(s.dtp, true, s.bs.c.lock);
    case Bypass => DtpRx.FireKeeps(s.dtp, false, s.bs.c.lock);
    case TakeEvent => DtpRx.TakeKeeps(s.dtp);
    case FromDtp => DtpRx.GetKeeps(s.dtp);
    case _ =>
  }

  lemma PassedIsWide(s: DtpRx.State, k: nat)
    requires DtpRx.Inv(s) && k < |s.got|
    ensures |s.got[k]| == 66
  {
    assert s.got[k] == (s.got + s.fifoOut)[k];
  }

  lemma DecoderKeeps(s: System, a: Action, t: System)
    requires Inv(s) && Enabled(s, a) && t == Step(s, a)
    ensures Decoder.Inv(t.dec)
  {
    match a
    case ToDecoder =>
      HandOn(s.dtp.got, s.dtpOut, s.dec.put);
      PassedIsWide(s.dtp, |s.dec.put|);
      Decoder.PutKeeps(s.dec, s.dtpOut[0]);
    case Stage1 => Decoder.Stage1Keeps(s.dec);
    case FireLane(i) => Decoder.LaneKeeps(s.dec, i);
    case Output => Decoder.OutputKeeps(s.dec);
    case Take => Decoder.GetKeeps(s.dec);
    case _ =>
  }

  lemma LocksKeep(s: System, a: Action, t: System)
    requires Inv(s) && Enabled(s, a) && t == Step(s, a)
    ensures LocksSeen(t.bs.put, |t.bs.emitted|, t.dtp.ready, t.dtp.parsed)
  {
    Places(s);
    match a
    case Receive(v) => LocksSeenPrefix(s.bs.put, v, |s.bs.emitted|, s.dtp.ready, s.dtp.parsed);
    case Consume => LocksSeenLater(s.bs.put, |s.bs.emitted|, s.dtp.ready, s.dtp.parsed);
    case Parse => LocksSeenSnoc(s.bs.put, |s.bs.emitted|, s.dtp.ready, s.dtp.parsed, true);
    case Bypass => LocksSeenSnoc(s.bs.put, |s.bs.emitted|, s.dtp.ready, s.dtp.parsed, false);
    case _ =>
  }

  lemma MakeInv(t: System)
    requires BlockSync.Inv(t.bs) && Descrambler.Inv(t.ds) && DtpRx.Inv(t.dtp) && Decoder.Inv(t.dec)
    requires Links(t) && LocksSeen(t.bs.put, |t.bs.emitted|, t.dtp.ready, t.dtp.parsed)
    ensures Inv(t)
  {}

  lemma NextKeeps(s: System, t: System)
    requires Inv(s) && Next(s, t)
    ensures Inv(t)
  {
    var a :| Enabled(s, a) && t == Step(s, a);
    BlockSyncKeeps(s, a, t);
    DescramblerKeeps(s, a, t);
    DtpKeeps(s, a, t);
    DecoderKeeps(s, a, t);
    LinksStep(s, a, t);
    LocksKeep(s, a, t);
    MakeInv(t);
  }

  /** Every reachable state of the path satisfies the invariant. */
  lemma {:induction false} RunsKeepInv(run: seq<System>, i: nat)
    requires IsRun(run) && i < |run|
    ensures Inv(run[i])
  {
    if i == 0 {
      ResetInv();
    } else {
      RunsKeepInv(run, i - 1);
      NextKeeps(run[i - 1], run[i]);
    }
  }

  lemma ResetInv()
    ensures Inv(RESET)
  {
    BlockSync.ResetInv();
    Descrambler.ResetInv();
    DtpRx.ResetInv();
    Decoder.ResetInv();
    MakeInv(RESET);
  }

  // ---- one block through the combinational chain ----

  /** Stripping and decoding give back the block, whatever message DTP put into an idle block. */
  lemma BlockRestored(x: GoodBlock, d: Word)
    requires Carries(x, d)
    ensures Decoder.DecodeWord(DtpRx.Strip(Framed(Pcs.Sync(x), d))) == XgmiiWord(Lanes(x))
  {
    StripRestores(x, d);
    DecoderUndoesEncoder(x);
  }

  lemma FirstDescrambled(tx: Transmission, h: Word)
    requires Sends(tx, h) && |tx.xs| > 0 && AllWide(tx.line, 66)
    ensures Descrambler.DescrambleAll(h, tx.line)[0] == Framed(Pcs.Sync(tx.xs[0]), tx.payloads[0])
  {
    forall i | 0 <= i < |tx.line|
      ensures Descrambler.Payloads(tx.line)[i] == tx.scrambled[i]
    {
      LinePayload(tx, h, i);
    }
    assert Descrambler.Payloads(tx.line) == tx.scrambled;
    Descrambler.DescramblingUndoesScrambling(h, h, tx.payloads, tx.line);
  }

  /**
    The aligned chain: when scrambler and descrambler share their start state,
    descrambling, stripping and decoding return every block of the original
    stream.
   */
  lemma AlignedChain(tx: Transmission, h: Word, i: nat)
    requires Sends(tx, h) && i < |tx.xs| && AllWide(tx.line, 66)
    ensures Decoder.DecodeWord(DtpRx.Strip(Descrambler.DescrambleAll(h, tx.line)[i])) == XgmiiWord(Lanes(tx.xs[i]))
  {
    if i == 0 {
      FirstDescrambled(tx, h);
    } else {
      JoinsLate(tx, h, h, tx.line, i, i);
    }
    BlockRestored(tx.xs[i], tx.payloads[i]);
  }

  /**
    The round trip of the reference chain: any stream of well-formed blocks,
    encoded by pcs_encode, its idle blocks overwritten with any DTP messages,
    scrambled, descrambled, stripped and decoded, comes back block for block.
   */
  lemma RoundTrip(xs: seq<GoodBlock>, ndata: seq<nat>, nsync: seq<nat>, messages: seq<Word>, scrambled: seq<Word>, tx: Transmission, i: nat)
    requires |ndata| == |nsync| == |messages| == |scrambled| == |xs| && AllWide(messages, 56) && AllWide(scrambled, 64)
    requires forall i :: 0 <= i < |xs| ==> (ndata[i], nsync[i]) == Pcs.EncodeLanes(Stream(xs)[8 * i..8 * i + 8])
    requires tx.xs == xs && tx.scrambled == scrambled && |tx.payloads| == |tx.line| == |xs|
    requires forall i :: 0 <= i < |xs| ==> tx.payloads[i] == WithMessage(xs[i], ndata[i], messages[i])
    requires forall i :: 0 <= i < |xs| ==> tx.line[i] == Framed(nsync[i], scrambled[i])
    requires Scrambling.Recurrence(Ones(Scrambling.HISTORY), Concat(tx.payloads), Concat(scrambled))
    requires i < |xs|
    ensures AllWide(tx.line, 66)
    ensures Decoder.DecodeWord(DtpRx.Strip(Descrambler.DescrambleAll(Ones(Scrambling.HISTORY), tx.line)[i])) == XgmiiWord(Lanes(xs[i]))
  {
    ReferenceSends(xs, ndata, nsync, messages, scrambled, tx);
    AlignedChain(tx, Ones(Scrambling.HISTORY), i);
  }

  // ---- alignment ----

  /** Cut anywhere but at the block boundary, any 65 consecutive blocks hold an invalid header. */
  ghost predicate Unambiguous(put: seq<Word>, g: nat)
    requires AllWide(put, 66)
  {
    forall o: nat, a: nat :: o <= 65 && o != g && 2 <= a && a + 65 <= |put| + 1 ==> Rejected(BlockSync.HeadersOf(put), o, a)
  }

  /** From reset: the transmission comes behind less than a block of junk, and the receiver can tell the offset. */
  ghost predicate Reception(put: seq<Word>, junk: Word, tx: Transmission, h: Word) {
    && Sends(tx, h) && Receives(put, junk, tx.line) && |junk| < 66
    && Unambiguous(put, RightCut(|junk|))
  }

  /** Cut anywhere but at the block boundary, any 65 consecutive blocks from n0 on hold 17 invalid headers. */
  ghost predicate Distinct(put: seq<Word>, g: nat, n0: nat)
    requires AllWide(put, 66)
  {
    forall o: nat, a: nat :: o <= 65 && o != g && n0 <= a && a + 65 <= |put| + 1 ==> Refused(BlockSync.HeadersOf(put), o, a)
  }

  /** In the middle of things: the transmission comes behind any junk of any length. */
  ghost predicate LateReception(put: seq<Word>, junk: Word, tx: Transmission, h: Word) {
    && Sends(tx, h) && Receives(put, junk, tx.line)
    && Distinct(put, RightCut(|junk|), 1 + Skew(|junk|))
  }

  /** From block `first` on the receiver holds lock at offset g, and held g one block before. */
  ghost predicate SettledAt(put: seq<Word>, g: nat, first: nat, n: nat)
    requires AllWide(put, 66)
  {
    BlockSync.ControlAt(put, n).offset == g && (n >= first ==> BlockSync.ControlAt(put, n).lock)
  }

  ghost predicate Settled(put: seq<Word>, g: nat, first: nat)
    requires AllWide(put, 66)
  {
    forall n: nat :: first - 1 <= n <= |put| ==> SettledAt(put, g, first, n)
  }

  /** The receiver is aligned with the transmission from block `first` on. */
  ghost predicate Aligned(put: seq<Word>, junk: Word, tx: Transmission, h: Word, first: nat) {
    && Sends(tx, h) && Receives(put, junk, tx.line) && first >= 2 && first >= Skew(|junk|)
    && Settled(put, RightCut(|junk|), first)
  }

  lemma RightHeader(put: seq<Word>, junk: Word, tx: Transmission, h: Word, k: nat, i: nat)
    requires Sends(tx, h) && Receives(put, junk, tx.line) && 2 <= k <= |put| && k == i + Skew(|junk|)
    ensures BlockSync.HeadersOf(put)(RightCut(|junk|), k)
  {
    RightWindow(put, junk, tx.line, k, i);
    LineHeaders(tx, h, i);
  }

  lemma RightAlignment(put: seq<Word>, junk: Word, tx: Transmission, h: Word)
    requires Reception(put, junk, tx, h)
    ensures RightOffset(BlockSync.HeadersOf(put), RightCut(|junk|), |put| + 1)
  {
    forall k | 2 <= k < |put| + 1
      ensures BlockSync.HeadersOf(put)(RightCut(|junk|), k)
    {
      RightHeader(put, junk, tx, h, k, k - Skew(|junk|));
    }
  }

  /** From reset, one block before the bound the offset is already right, and it stays. */
  lemma OffsetSettled(put: seq<Word>, junk: Word, tx: Transmission, h: Word, n: nat)
    requires Reception(put, junk, tx, h) && LOCK_BOUND - 1 <= n <= |put| + 1
    ensures SettledAt(put, RightCut(|junk|), LOCK_BOUND, n)
  {
    RightAlignment(put, junk, tx, h);
    var f, g := BlockSync.HeadersOf(put), RightCut(|junk|);
    StaysOnTheWay(f, g, |put| + 1, n);
    CountersMean(f, n);
  }

  lemma ReceptionAligns(put: seq<Word>, junk: Word, tx: Transmission, h: Word)
    requires Reception(put, junk, tx, h)
    ensures Aligned(put, junk, tx, h, LOCK_BOUND)
  {
    forall n: nat | LOCK_BOUND - 1 <= n <= |put|
      ensures SettledAt(put, RightCut(|junk|), LOCK_BOUND, n)
    {
      OffsetSettled(put, junk, tx, h, n);
    }
  }

  /** The block from which a late reception is aligned. */
  function LateFirst(lead: nat): nat { 1 + Skew(lead) + RECOVERY_BOUND + 1 }

  lemma LateAlignment(put: seq<Word>, junk: Word, tx: Transmission, h: Word, n: nat)
    requires LateReception(put, junk, tx, h) && n <= |put| + 1
    ensures RightFrom(BlockSync.HeadersOf(put), RightCut(|junk|), 1 + Skew(|junk|), n)
  {
    forall k | 1 + Skew(|junk|) <= k < n
      ensures BlockSync.HeadersOf(put)(RightCut(|junk|), k)
    {
      RightHeader(put, junk, tx, h, k, k - Skew(|junk|));
    }
  }

  lemma LateReceptionAligns(put: seq<Word>, junk: Word, tx: Transmission, h: Word)
    requires LateReception(put, junk, tx, h)
    ensures Aligned(put, junk, tx, h, LateFirst(|junk|))
  {
    forall n: nat | LateFirst(|junk|) - 1 <= n <= |put|
      ensures SettledAt(put, RightCut(|junk|), LateFirst(|junk|), n)
    {
      LateAlignment(put, junk, tx, h, n);
      LockRecovers(BlockSync.HeadersOf(put), RightCut(|junk|), 1 + Skew(|junk|), n);
    }
  }

  /** When block k was cut, k or k - 1 blocks had been consumed. */
  lemma CutWhen(put: seq<Word>, k: nat, w: Word) returns (n: nat, o: nat)
    requires AllWide(put, 66) && 0 < k <= |put| && BlockSync.CutAt(put, k, w)
    ensures k - 1 <= n <= k && o == BlockSync.ControlAt(put, n).offset && w == BlockSync.Window(put, o, k)
  {
    n := if w == BlockSync.Window(put, BlockSync.ControlAt(put, k).offset, k) then k else k - 1;
    o := BlockSync.ControlAt(put, n).offset;
  }

  lemma WindowIsLine(put: seq<Word>, junk: Word, tx: Transmission, h: Word, first: nat, k: nat, i: nat, n: nat, o: nat)
    requires Aligned(put, junk, tx, h, first) && first <= k <= |put| && k == i + Skew(|junk|)
    requires k - 1 <= n <= k && o == BlockSync.ControlAt(put, n).offset
    ensures i < |tx.line| && BlockSync.Window(put, o, k) == tx.line[i]
  {
    assert SettledAt(put, RightCut(|junk|), first, n);
    RightWindow(put, junk, tx.line, k, i);
  }

  /** Every block that leaves the synchroniser once it is aligned is a transmitted block. */
  lemma EmittedIsLine(put: seq<Word>, junk: Word, tx: Transmission, h: Word, first: nat, k: nat, w: Word, i: nat)
    requires Aligned(put, junk, tx, h, first) && first <= k <= |put| && BlockSync.CutAt(put, k, w) && k == i + Skew(|junk|)
    ensures i < |tx.line| && w == tx.line[i]
  {
    var n, o := CutWhen(put, k, w);
    WindowIsLine(put, junk, tx, h, first, k, i, n, o);
  }

  // ---- the path as a whole ----

  /** Block k out of the synchroniser is transmitted block i. */
  lemma EmittedAt(s: BlockSync.State, junk: Word, tx: Transmission, h: Word, first: nat, k: nat, i: nat)
    requires BlockSync.Inv(s) && Aligned(s.put, junk, tx, h, first) && first <= k < |s.emitted| && k == i + Skew(|junk|)
    ensures i < |tx.line| && s.emitted[k] == tx.line[i]
  {
    assert BlockSync.Cut(s.put)(k, s.emitted[k]);
    EmittedIsLine(s.put, junk, tx, h, first, k, s.emitted[k], i);
  }

  /** v is block x with payload d, which may be a DTP message. */
  ghost predicate FramedAs(v: Word, x: GoodBlock, d: Word) {
    Carries(x, d) && v == Framed(Pcs.Sync(x), d)
  }

  /** Block i of the transmission. */
  ghost predicate IsFramed(v: Word, tx: Transmission, i: nat) {
    i < |tx.xs| && i < |tx.payloads| && FramedAs(v, tx.xs[i], tx.payloads[i])
  }

  lemma DescramblerOutput(s: Descrambler.State, tx: Transmission, h: Word, k: nat, i: nat)
    requires Descrambler.Inv(s) && Sends(tx, h) && 0 < k < |s.got| && k < |s.put| && 0 < i < |tx.xs|
    requires s.put[k - 1] == tx.line[i - 1] && s.put[k] == tx.line[i]
    ensures IsFramed(s.got[k], tx, i)
  {
    var vs := s.put[..|s.put| - |s.fifoIn|];
    assert s.got[k] == (s.got + s.fifoOut)[k];
    JoinsLate(tx, h, Ones(Scrambling.HISTORY), vs, k, i);
  }

  lemma EmittedTwice(s: BlockSync.State, junk: Word, tx: Transmission, h: Word, first: nat, k: nat, i: nat)
    requires BlockSync.Inv(s) && Aligned(s.put, junk, tx, h, first) && first < k < |s.emitted| && k == i + Skew(|junk|)
    ensures 0 < i < |tx.line| && s.emitted[k - 1] == tx.line[i - 1] && s.emitted[k] == tx.line[i]
  {
    EmittedAt(s, junk, tx, h, first, k - 1, i - 1);
    EmittedAt(s, junk, tx, h, first, k, i);
  }

  lemma LineSide(bs: BlockSync.State, ds: Descrambler.State, junk: Word, tx: Transmission, h: Word, first: nat, k: nat, i: nat)
    requires BlockSync.Inv(bs) && Descrambler.Inv(ds) && Aligned(bs.put, junk, tx, h, first) && k == i + Skew(|junk|)
    requires first < k < |ds.got| && k < |ds.put| <= |bs.emitted|
    requires ds.put[k - 1] == bs.emitted[k - 1] && ds.put[k] == bs.emitted[k]
    ensures IsFramed(ds.got[k], tx, i)
  {
    EmittedTwice(bs, junk, tx, h, first, k, i);
    DescramblerOutput(ds, tx, h, k, i);
  }

  /** Once aligned, a block is parsed exactly if DTP is ready. */
  lemma ParsedIfReady(put: seq<Word>, m: nat, ready: seq<bool>, parsed: seq<bool>, junk: Word, tx: Transmission, h: Word, first: nat, k: nat)
    requires Aligned(put, junk, tx, h, first) && m <= |put| && LocksSeen(put, m, ready, parsed) && first < k < |parsed|
    ensures parsed[k] == ready[k]
  {
    assert ParsedWhen(put, m, k, ready[k], parsed[k]);
    var n: nat :| k < n <= m && ParsedAt(put, n, ready[k], parsed[k]);
    assert SettledAt(put, RightCut(|junk|), first, n);
  }

  /** The word survives the path: DTP stripped its message, or there was none. */
  ghost predicate Survives(x: GoodBlock, d: Word, ready: bool)
    requires |d| == 64
  {
    ready || !x.Idle? || d[8..] == Zeros(56)
  }

  lemma StrippedAt(s: DtpRx.State, x: GoodBlock, d: Word, k: nat)
    requires DtpRx.Inv(s) && k < |s.got| && k < |s.put| && k < |s.parsed| && FramedAs(s.put[k], x, d)
    ensures s.got[k] == if s.parsed[k] then LineBlock(x) else Framed(Pcs.Sync(x), d)
  {
    assert s.got[k] == (s.got + s.fifoOut)[k];
    StripRestores(x, d);
  }

  /** What the decoder makes of a block, stripped or not. */
  lemma DecodedAs(x: GoodBlock, d: Word, v: Word, parsed: bool)
    requires Carries(x, d) && v == if parsed then LineBlock(x) else Framed(Pcs.Sync(x), d)
    ensures Decoder.DecodeWord(v) == XgmiiWord(Lanes(x)) <==> Survives(x, d, parsed)
  {
    if parsed || !x.Idle? {
      DecoderUndoesEncoder(x);
    } else {
      IdleParts(d, v);
      BypassedIdle.IdleSurvives(v);
    }
  }

  lemma IdleParts(d: Word, v: Word)
    requires |d| == 64 && d[..8] == ToBits(0x1e, 8) && v == Framed(1, d)
    ensures BypassedIdle.IdleBlock(v) && v[10..] == d[8..]
  {
    assert v[2..10] == d[..8];
  }

  lemma DecodedAt(s: Decoder.State, k: nat)
    requires Decoder.Inv(s) && k < |s.got| && k < |s.put|
    ensures |s.put[k]| == 66 && s.got[k] == Decoder.DecodeWord(s.put[k])
  {
    Decoder.OutputsAreDecoded(s);
  }

  /** What holds of the blocks the stripper has processed. */
  ghost predicate Processed(s: System, k: nat) {
    && k < |s.dtp.parsed| && k < |s.dtp.put| && k < |s.ds.got| && s.dtp.put[k] == s.ds.got[k]
    && k < |s.ds.put| <= |s.bs.emitted| <= |s.bs.put| && s.ds.put[k] == s.bs.emitted[k]
    && (k > 0 ==> s.ds.put[k - 1] == s.bs.emitted[k - 1])
  }

  lemma AllProcessed(s: System, k: nat)
    requires Inv(s) && k < |s.dtp.parsed|
    ensures Processed(s, k)
  {
    Places(s);
  }

  /** What holds of the words that have passed the last module. */
  ghost predicate Passed(s: System, k: nat) {
    k < |s.dec.put| && k < |s.dtp.got| && s.dec.put[k] == s.dtp.got[k] && k < |s.dtp.parsed|
  }

  lemma PassedCount(s: DtpRx.State)
    requires DtpRx.Inv(s)
    ensures |s.got| <= |s.parsed| <= |s.put|
  {}

  lemma AllPassed(s: System, k: nat)
    requires Inv(s) && k < |s.dec.got|
    ensures Passed(s, k)
  {
    Decoder.OutputsAreDecoded(s.dec);
    PassedCount(s.dtp);
  }

  lemma DecoderSide(dtp: DtpRx.State, dec: Decoder.State, tx: Transmission, k: nat, i: nat)
    requires DtpRx.Inv(dtp) && Decoder.Inv(dec) && k < |dec.got|
    requires k < |dtp.put| && IsFramed(dtp.put[k], tx, i) && k < |dtp.parsed|
    requires k < |dec.put| && k < |dtp.got| && dec.put[k] == dtp.got[k]
    ensures |tx.payloads[i]| == 64
    ensures dec.got[k] == XgmiiWord(Lanes(tx.xs[i])) <==> Survives(tx.xs[i], tx.payloads[i], dtp.parsed[k])
  {
    StrippedAt(dtp, tx.xs[i], tx.payloads[i], k);
    DecodedAt(dec, k);
    DecodedAs(tx.xs[i], tx.payloads[i], dec.put[k], dtp.parsed[k]);
  }

  /** Blocks reach the stripper as they were sent, and are parsed exactly if it is ready. */
  lemma AlignedBlock(s: System, junk: Word, tx: Transmission, h: Word, first: nat, k: nat, i: nat)
    requires Inv(s) && Processed(s, k) && Aligned(s.bs.put, junk, tx, h, first) && first < k && k == i + Skew(|junk|)
    ensures IsFramed(s.dtp.put[k], tx, i) && |s.dtp.ready| == |s.dtp.parsed| && s.dtp.parsed[k] == s.dtp.ready[k]
  {
    LineSide(s.bs, s.ds, junk, tx, h, first, k, i);
    ParsedIfReady(s.bs.put, |s.bs.emitted|, s.dtp.ready, s.dtp.parsed, junk, tx, h, first, k);
  }

  /** Word k is transmitted block i if and only if DTP was ready or block i carried no message. */
  ghost predicate Delivered(s: System, tx: Transmission, k: nat, i: nat) {
    && k < |s.dec.got| && k < |s.dtp.ready| && i < |tx.xs| && i < |tx.payloads| && |tx.payloads[i]| == 64
    && (s.dec.got[k] == XgmiiWord(Lanes(tx.xs[i])) <==> Survives(tx.xs[i], tx.payloads[i], s.dtp.ready[k]))
  }

  lemma WordDelivered(s: System, junk: Word, tx: Transmission, h: Word, first: nat, k: nat, i: nat)
    requires Inv(s) && Processed(s, k) && Passed(s, k) && Aligned(s.bs.put, junk, tx, h, first)
    requires first < k < |s.dec.got| && k == i + Skew(|junk|)
    ensures Delivered(s, tx, k, i)
  {
    AlignedBlock(s, junk, tx, h, first, k, i);
    DecoderSide(s.dtp, s.dec, tx, k, i);
  }

  lemma StateDelivers(s: System, junk: Word, tx: Transmission, h: Word, first: nat, k: nat, i: nat)
    requires Inv(s) && Aligned(s.bs.put, junk, tx, h, first) && first < k < |s.dec.got| && k == i + Skew(|junk|)
    ensures Delivered(s, tx, k, i)
  {
    AllPassed(s, k);
    AllProcessed(s, k);
    WordDelivered(s, junk, tx, h, first, k, i);
  }

  /**
    The receive path delivers the transmitted stream: in every run, however the
    rules interleave, whatever the transmitter's scrambler state, at whatever
    bit of a block the receiver joins and whatever DTP messages idle blocks
    carry, once LOCK_BOUND + 1 words have come out every further word is the
    next XGMII block of the stream, except exactly for idle blocks whose message
    was let through while DTP was not ready.
   */
  lemma PathDelivers(run: seq<System>, n: nat, junk: Word, tx: Transmission, h: Word, k: nat, i: nat)
    requires IsRun(run) && n < |run| && Reception(run[n].bs.put, junk, tx, h)
    requires LOCK_BOUND < k < |run[n].dec.got| && i == k - Skew(|junk|)
    ensures Delivered(run[n], tx, k, i)
  {
    RunsKeepInv(run, n);
    ReceptionAligns(run[n].bs.put, junk, tx, h);
    StateDelivers(run[n], junk, tx, h, LOCK_BOUND, k, i);
  }

  /**
    The receive path recovers: whatever came before, of any length and with
    whatever effect on the lock, from LateFirst on every word is the next block
    of the transmission that follows, with the same exception.
   */
  lemma PathRecovers(run: seq<System>, n: nat, junk: Word, tx: Transmission, h: Word, k: nat, i: nat)
    requires IsRun(run) && n < |run| && LateReception(run[n].bs.put, junk, tx, h)
    requires LateFirst(|junk|) < k < |run[n].dec.got| && i == k - Skew(|junk|)
    ensures Delivered(run[n], tx, k, i)
  {
    RunsKeepInv(run, n);
    LateReceptionAligns(run[n].bs.put, junk, tx, h);
    StateDelivers(run[n], junk, tx, h, LateFirst(|junk|), k, i);
  }

  // ---- DTP messages ----

  /** The messages for which the clock logic is to get an event from block x with payload d. */
  ghost predicate SendsMessage(x: GoodBlock, d: Word, m: DtpMessages.Message) {
    x.Idle? && |d| == 64 && DtpMessages.Sized(m) && d[8..] == DtpMessages.Payload(m)
  }

  /** Block x with payload d has no message: it is not idle, or its three type bits are clear. */
  ghost predicate SendsNone(x: GoodBlock, d: Word) {
    |d| == 64 && (!x.Idle? || (!d[8] && !d[9] && !d[10]))
  }

  lemma IdleHeard(d: Word, m: DtpMessages.Message)
    requires Carries(Idle, d) && SendsMessage(Idle, d, m)
    ensures DtpRx.Heard(Framed(1, d), true) == DtpRx.Message(DtpMessages.EventOf(m))
  {
    SyncBits();
    var v := Framed(1, d);
    IdleParts(d, v);
    assert v[2..10] == d[..8];
    DtpMessages.ReadsMessage(v, m);
  }

  lemma NothingHeard(x: GoodBlock, d: Word)
    requires Carries(x, d) && SendsNone(x, d)
    ensures DtpRx.Heard(Framed(Pcs.Sync(x), d), true) == DtpRx.Plain
  {
    SyncBits();
    var v := Framed(Pcs.Sync(x), d);
    if x.Idle? {
      DtpMessages.ReadsNothing(v);
    } else if !x.Data? {
      NotIdleType(x);
    }
  }

  /** What has been enqueued for the clock logic when block k was processed. */
  ghost predicate Enqueued(s: DtpRx.State, k: nat, es: seq<DtpRx.Event>) {
    k < |s.heard| && k < |s.waiting| && s.heard[k] == if s.waiting[k] < 2 then es else []
  }

  lemma EnqueuedAt(s: DtpRx.State, k: nat, es: seq<DtpRx.Event>)
    requires DtpRx.Inv(s) && k < |s.parsed| && k < |s.put| && s.parsed[k] && |s.put[k]| == 66
    requires DtpRx.EventsIn(DtpRx.Heard(s.put[k], true), true) == es
    ensures Enqueued(s, k, es)
  {
    assert DtpRx.HeardAt(s.put[k], s.parsed[k], s.waiting[k], s.heard[k]);
  }

  lemma AlignedMessage(s: System, junk: Word, tx: Transmission, h: Word, first: nat, k: nat, i: nat)
    requires Inv(s) && Aligned(s.bs.put, junk, tx, h, first) && first < k < |s.dtp.parsed| && k == i + Skew(|junk|)
    requires k < |s.dtp.ready| && s.dtp.ready[k]
    ensures i < |tx.xs| && i < |tx.payloads|
    ensures forall m :: SendsMessage(tx.xs[i], tx.payloads[i], m) ==> Enqueued(s.dtp, k, [DtpMessages.EventOf(m)])
    ensures SendsNone(tx.xs[i], tx.payloads[i]) ==> Enqueued(s.dtp, k, [])
  {
    AllProcessed(s, k);
    AlignedBlock(s, junk, tx, h, first, k, i);
    MessageAt(s.dtp, tx, k, i);
  }

  lemma MessageAt(s: DtpRx.State, tx: Transmission, k: nat, i: nat)
    requires DtpRx.Inv(s) && k < |s.put| && k < |s.parsed| && s.parsed[k] && IsFramed(s.put[k], tx, i)
    ensures forall m :: SendsMessage(tx.xs[i], tx.payloads[i], m) ==> Enqueued(s, k, [DtpMessages.EventOf(m)])
    ensures SendsNone(tx.xs[i], tx.payloads[i]) ==> Enqueued(s, k, [])
  {
    var x, d := tx.xs[i], tx.payloads[i];
    forall m | SendsMessage(x, d, m)
      ensures Enqueued(s, k, [DtpMessages.EventOf(m)])
    {
      IdleHeard(d, m);
      EnqueuedAt(s, k, [DtpMessages.EventOf(m)]);
    }
    if SendsNone(x, d) {
      NothingHeard(x, d);
      EnqueuedAt(s, k, []);
    }
  }

  /** The events of the clock logic, taken or waiting, are those enqueued for the blocks, in order. */
  ghost predicate EventsInOrder(s: DtpRx.State) {
    s.taken + s.events == DtpRx.Flatten(s.heard)
  }

  /**
    DTP messages arrive: in every run the events handed to the clock logic are
    those enqueued block by block; and from the lock bound on, while DTP is
    ready, a block whose payload is message m gets the event of m, a block
    without a message gets none, and a FIFO with two events waiting loses that event
    and no other.
   */
  lemma MessagesArrive(run: seq<System>, n: nat, junk: Word, tx: Transmission, h: Word, k: nat, i: nat)
    requires IsRun(run) && n < |run| && Reception(run[n].bs.put, junk, tx, h)
    requires LOCK_BOUND < k < |run[n].dtp.parsed| && i == k - Skew(|junk|)
    requires k < |run[n].dtp.ready| && run[n].dtp.ready[k]
    ensures EventsInOrder(run[n].dtp) && i < |tx.xs| && i < |tx.payloads|
    ensures forall m :: SendsMessage(tx.xs[i], tx.payloads[i], m) ==> Enqueued(run[n].dtp, k, [DtpMessages.EventOf(m)])
    ensures SendsNone(tx.xs[i], tx.payloads[i]) ==> Enqueued(run[n].dtp, k, [])
  {
    RunsKeepInv(run, n);
    ReceptionAligns(run[n].bs.put, junk, tx, h);
    AlignedMessage(run[n], junk, tx, h, LOCK_BOUND, k, i);
  }

  // ---- no deadlock ----

  /** Nothing but a new block from outside can happen. */
  ghost predicate Quiet(s: System) {
    forall a :: Enabled(s, a) ==> a.Receive?
  }

  lemma DecoderDrains(s: System)
    requires Decoder.Inv(s.dec) && Quiet(s)
    ensures s.dec.fifoIn == [] && |s.dec.got| == |s.dec.put|
  {
    assert !Enabled(s, Take) && !Enabled(s, Output) && !Enabled(s, Stage1);
    LanesDrain(s);
    StageDrains(s);
  }

  lemma LanesDrain(s: System)
    requires Decoder.Inv(s.dec) && Quiet(s) && s.dec.fifoOut == []
    ensures |s.dec.got| == |Decoder.Accepted(s.dec)| && forall i :: 0 <= i < 8 ==> s.dec.laneIn[i] == []
  {
    var i := EmptyLane(s);
    LaneEmpties(s, i);
    forall j | 0 <= j < 8
      ensures s.dec.laneIn[j] == []
    {
      LaneWidth(s.dec, j);
    }
  }

  lemma LaneEmpties(s: System, i: nat)
    requires Decoder.Inv(s.dec) && Quiet(s) && i < 8 && s.dec.laneOut[i] == []
    ensures |Decoder.Outs(s.dec)| == |Decoder.Accepted(s.dec)|
  {
    LaneWidth(s.dec, i);
    LaneBlocked(s, i);
  }

  lemma LaneBlocked(s: System, i: nat)
    requires Quiet(s) && |s.dec.laneIn| == |s.dec.laneOut| == 8 && i < 8 && s.dec.laneOut[i] == []
    requires s.dec.laneIn[i] != [] ==> Decoder.StageWide(s.dec.laneIn[i][0])
    ensures s.dec.laneIn[i] == []
  {
    assert !Enabled(s, FireLane(i));
  }

  lemma EmptyLane(s: System) returns (i: nat)
    requires |s.dec.laneOut| == 8 && Quiet(s) && s.dec.fifoOut == []
    ensures i < 8 && s.dec.laneOut[i] == []
  {
    assert !Enabled(s, Output);
    i :| i < 8 && s.dec.laneOut[i] == [];
  }

  lemma LaneWidth(d: Decoder.State, i: nat)
    requires Decoder.Inv(d) && i < 8
    ensures d.laneIn[i] != [] ==> Decoder.StageWide(d.laneIn[i][0])
    ensures |d.laneIn[i]| + |d.laneOut[i]| + |Decoder.Outs(d)| == |Decoder.Accepted(d)|
  {
    assert Decoder.LaneInv(Decoder.Staged(i, Decoder.Accepted(d)), Decoder.Decoded(i, Decoder.Accepted(d)),
                           |Decoder.Outs(d)|, d.laneIn[i], d.laneOut[i]);
  }

  lemma StageDrains(s: System)
    requires Decoder.Inv(s.dec) && Quiet(s) && forall i :: 0 <= i < 8 ==> s.dec.laneIn[i] == []
    ensures s.dec.fifoIn == []
  {
    assert !Enabled(s, Stage1);
  }

  lemma DtpDrains(s: System)
    requires DtpRx.Inv(s.dtp) && Quiet(s) && s.dec.fifoIn == []
    ensures s.dtpOut == [] && s.dtp.fifoIn == [] && |s.dtp.got| == |s.dtp.put|
  {
    HeadIsWide(s.dtp);
    DtpQuiet(s);
    AllThrough(s.dtp);
  }

  lemma DtpQuiet(s: System)
    requires Quiet(s) && s.dec.fifoIn == [] && s.dtp.errFifo == [] && (s.dtp.fifoIn != [] ==> |s.dtp.fifoIn[0]| == 66)
    ensures s.dtpOut == [] && s.dtp.fifoIn == [] && s.dtp.fifoOut == []
  {
    assert !Enabled(s, ToDecoder);
    assert !Enabled(s, FromDtp);
    assert !Enabled(s, Parse);
  }

  lemma HeadIsWide(s: DtpRx.State)
    requires DtpRx.Inv(s)
    ensures s.errFifo == [] && (s.fifoIn != [] ==> |s.fifoIn[0]| == 66)
  {}

  lemma AllThrough(s: DtpRx.State)
    requires DtpRx.Inv(s) && s.fifoIn == [] && s.fifoOut == []
    ensures |s.got| == |s.put|
  {
    assert s.got + s.fifoOut == s.got;
  }

  lemma DescramblerDrains(s: System)
    requires Descrambler.Inv(s.ds) && Quiet(s) && s.dtp.fifoIn == []
    ensures s.dtpIn == [] && s.ds.fifoIn == [] && |s.ds.got| == |s.ds.put|
  {
    assert !Enabled(s, ToDtp) && !Enabled(s, FromDescrambler) && !Enabled(s, Descramble);
  }

  lemma SynchroniserDrains(s: System)
    requires BlockSync.Inv(s.bs) && Quiet(s) && s.ds.fifoIn == []
    ensures s.bs.fifoOut == [] && |s.bs.emitted| == |s.bs.put|
  {
    BlockSync.InvIsSized(s.bs);
    assert !Enabled(s, ToDescrambler) && !Enabled(s, Consume) && !Enabled(s, SlipData);
  }

  /**
    No deadlock, no loss and no duplication: in every reachable state either a
    rule can fire or exactly one word has come out for every block received.
   */
  lemma PathDrains(run: seq<System>, n: nat)
    requires IsRun(run) && n < |run| && Quiet(run[n])
    ensures |run[n].dec.got| == |run[n].bs.put|
  {
    RunsKeepInv(run, n);
    AllDrain(run[n]);
  }

  lemma AllDrain(s: System)
    requires Inv(s) && Quiet(s)
    ensures |s.dec.got| == |s.bs.put|
  {
    DecoderDrains(s);
    DtpDrains(s);
    DescramblerDrains(s);
    SynchroniserDrains(s);
  }

  // ---- everything comes out ----

  /**
    Work left: every block counts for the rules it still has to pass, eight
    lane rules and the join among them.
   */
  ghost function Work(s: System): nat {
    28 * |s.bs.fifoIn| + 27 * |s.bs.cfFifo| + 26 * |s.bs.fifoOut| + DescramblerWork(s) + DtpWork(s) + DecoderWork(s.dec)
  }

  ghost function DescramblerWork(s: System): nat {
    25 * |s.ds.fifoIn| + 24 * |s.ds.fifoOut| + 23 * |s.dtpIn|
  }

  ghost function DtpWork(s: System): nat {
    22 * |s.dtp.fifoIn| + 20 * |s.dtp.fifoOut| + |s.dtp.events| + 19 * |s.dtpOut|
  }

  ghost function DecoderWork(d: Decoder.State): nat {
    18 * |d.fifoIn| + 2 * Items(d.laneIn) + Items(d.laneOut) + |d.fifoOut|
  }

  lemma DecoderLowers(s: System, a: Action, t: System)
    requires Enabled(s, a) && t == Step(s, a) && (a.Stage1? || a.FireLane? || a.Output? || a.Take?)
    requires |s.dec.laneIn| == |s.dec.laneOut| == 8
    ensures DecoderWork(t.dec) < DecoderWork(s.dec)
  {
    match a
    case Stage1 => ItemsAll(s.dec.laneIn, t.dec.laneIn, 1);
    case FireLane(i) =>
      ItemsUpdate(s.dec.laneIn, i, t.dec.laneIn[i]);
      ItemsUpdate(s.dec.laneOut, i, t.dec.laneOut[i]);
    case Output => ItemsAll(s.dec.laneOut, t.dec.laneOut, -1);
    case Take =>
  }

  lemma ParseLowers(s: System, a: Action, t: System)
    requires (a.Parse? || a.Bypass?) && Enabled(s, a) && t == Step(s, a)
    ensures DtpWork(t) < DtpWork(s)
  {
    EventsInShort(DtpRx.Heard(s.dtp.fifoIn[0], a.Parse? && s.bs.c.lock), |s.dtp.events| < 2);
  }

  lemma EventsInShort(c: DtpRx.Content, room: bool)
    ensures |DtpRx.EventsIn(c, room)| <= 1
  {}

  /** Every action inside the path takes some of the work away. */
  lemma StepLowers(s: System, a: Action, t: System)
    requires Enabled(s, a) && !a.Receive? && t == Step(s, a) && |s.dec.laneIn| == |s.dec.laneOut| == 8
    ensures Work(t) < Work(s)
  {
    match a
    case Parse | Bypass => ParseLowers(s, a, t);
    case Stage1 | FireLane(_) | Output | Take => DecoderLowers(s, a, t);
    case _ =>
  }

  lemma LanesAreEight(s: System)
    requires Inv(s)
    ensures |s.dec.laneIn| == |s.dec.laneOut| == 8
  {}

  /** A step of the path that receives nothing. */
  ghost predicate Internal(s: System, t: System) {
    exists a :: Enabled(s, a) && !a.Receive? && t == Step(s, a)
  }

  lemma InternalLowers(s: System, t: System)
    requires Inv(s) && Internal(s, t)
    ensures Work(t) < Work(s)
  {
    var a :| Enabled(s, a) && !a.Receive? && t == Step(s, a);
    LanesAreEight(s);
    StepLowers(s, a, t);
  }

  lemma InternalKeeps(s: System, t: System)
    requires Inv(s) && Internal(s, t)
    ensures Inv(t) && t.bs.put == s.bs.put
  {
    var a :| Enabled(s, a) && !a.Receive? && t == Step(s, a);
    StepKeepsPut(s, a);
    NextKeeps(s, t);
  }

  lemma StepKeepsPut(s: System, a: Action)
    requires Enabled(s, a) && !a.Receive?
    ensures Step(s, a).bs.put == s.bs.put
  {}

  /** The states reachable once the blocks put have been received and no more follow. */
  ghost function Holds(put: seq<Word>): System -> bool {
    (s: System) => Inv(s) && s.bs.put == put
  }

  ghost function Inside(): (System, System) -> bool {
    (s: System, t: System) => Internal(s, t)
  }

  ghost function WorkLeft(): System -> nat {
    (s: System) => Work(s)
  }

  lemma InsideLowers(put: seq<Word>)
    ensures Settling.Lowers(Holds(put), Inside(), WorkLeft())
  {
    forall s, t | Holds(put)(s) && Inside()(s, t)
      ensures Holds(put)(t) && WorkLeft()(t) < WorkLeft()(s)
    {
      InternalKeeps(s, t);
      InternalLowers(s, t);
    }
  }

  lemma StepIsInside(s: System, a: Action)
    requires Enabled(s, a) && !a.Receive?
    ensures Inside()(s, Step(s, a))
  {}

  lemma RestIsQuiet(t: System)
    requires Settling.AtRest(Inside(), t)
    ensures Quiet(t)
  {
    forall a | Enabled(t, a)
      ensures a.Receive?
    {
      if !a.Receive? {
        StepIsInside(t, a);
      }
    }
  }

  lemma RestHasDrained(put: seq<Word>, t: System)
    requires Holds(put)(t) && Settling.AtRest(Inside(), t)
    ensures t.bs.put == put && |t.dec.got| == |put|
  {
    RestIsQuiet(t);
    AllDrain(t);
  }

  lemma RunHolds(run: seq<System>, i: nat)
    requires IsRun(run) && i < |run|
    ensures Holds(run[i].bs.put)(run[i])
  {
    RunsKeepInv(run, i);
  }

  /**
    Everything comes out: from every reachable state the path goes on, without
    further input and within Work steps, to a state in which one word has left
    it for every block received.
   */
  lemma EverythingComesOut(run: seq<System>, i: nat) returns (t: System, n: nat)
    requires IsRun(run) && i < |run|
    ensures Settling.Leads(Inside(), run[i], t, n) && n <= WorkLeft()(run[i])
    ensures t.bs.put == run[i].bs.put && |t.dec.got| == |run[i].bs.put|
  {
    var put := run[i].bs.put;
    RunHolds(run, i);
    InsideLowers(put);
    t, n := Settling.ComesToRest(Holds(put), Inside(), WorkLeft(), run[i]);
    RestHasDrained(put, t);
  }

  /** No choice of rules can put that off: without input at most Work steps are possible. */
  lemma NothingGoesOnForEver(run: seq<System>, i: nat, t: System, n: nat)
    requires IsRun(run) && i < |run| && Settling.Leads(Inside(), run[i], t, n)
    ensures n <= WorkLeft()(run[i])
  {
    var put := run[i].bs.put;
    RunHolds(run, i);
    InsideLowers(put);
    Settling.StepsAreBounded(Holds(put), Inside(), WorkLeft(), run[i], t, n);
  }
}
