/**
  What a far-end transmitter puts on the wire, and what the stream functions of
  the receive chain make of it.
 */
module LineStream {
  import opened Bits
  import opened Xgmii
  import opened Pcs
  import opened LineCode
  import opened Scrambling
  import Descrambler
  import DtpRx
  import BlockSync

  /**
    d is a payload for block x: the encoder's, except that DTP may have put any
    56 bits into an idle block.
   */
  ghost predicate Carries(x: GoodBlock, d: Word) {
    && |d| == 64
    && (if x.Idle? then d[..8] == ToBits(0x1e, 8) else d == ToBits(FromBytes(Coded(x)), 64))
  }

  /** A transmission of the XGMII blocks xs: payloads, scrambled payloads and blocks on the line. */
  datatype Transmission = Transmission(xs: seq<GoodBlock>, payloads: seq<Word>, scrambled: seq<Word>, line: seq<Word>)

  ghost predicate Sends(tx: Transmission, h: Word) {
    && |tx.payloads| == |tx.scrambled| == |tx.line| == |tx.xs|
    && AllWide(tx.payloads, 64) && AllWide(tx.scrambled, 64)
    && (forall i {:trigger Carries(tx.xs[i], tx.payloads[i])} :: 0 <= i < |tx.xs| ==> Carries(tx.xs[i], tx.payloads[i]))
    && (forall i :: 0 <= i < |tx.xs| ==> tx.line[i] == Framed(Sync(tx.xs[i]), tx.scrambled[i]))
    && Recurrence(h, Concat(tx.payloads), Concat(tx.scrambled))
  }

  /** What DTP makes of an encoded payload: an idle block may carry any 56 bits. */
  function WithMessage(x: GoodBlock, e: nat, message: Word): Word {
    if x.Idle? then ToBits(0x1e, 8) + message else ToBits(e, 64)
  }

  /**
    The reference transmitter sends: the output of pcs_encode, idle blocks
    overwritten with messages, scrambled from the all-ones state, is a
    transmission.
   */
  lemma ReferenceSends(xs: seq<GoodBlock>, ndata: seq<nat>, nsync: seq<nat>, messages: seq<Word>, scrambled: seq<Word>, tx: Transmission)
    requires |ndata| == |nsync| == |messages| == |scrambled| == |xs| && AllWide(messages, 56) && AllWide(scrambled, 64)
    requires forall i :: 0 <= i < |xs| ==> (ndata[i], nsync[i]) == EncodeLanes(Stream(xs)[8 * i..8 * i + 8])
    requires tx.xs == xs && tx.scrambled == scrambled && |tx.payloads| == |tx.line| == |xs|
    requires forall i :: 0 <= i < |xs| ==> tx.payloads[i] == WithMessage(xs[i], ndata[i], messages[i])
    requires forall i :: 0 <= i < |xs| ==> tx.line[i] == Framed(nsync[i], scrambled[i])
    requires Recurrence(Ones(HISTORY), Concat(tx.payloads), Concat(scrambled))
    ensures Sends(tx, Ones(HISTORY))
  {
    forall i | 0 <= i < |xs|
      ensures Carries(xs[i], tx.payloads[i]) && nsync[i] == Sync(xs[i])
    {
      StreamIndex(xs, i);
      EncodeWellFormed(xs[i]);
      MessageIsCarried(xs[i], messages[i]);
    }
  }

  lemma MessageIsCarried(x: GoodBlock, message: Word)
    requires |message| == 56
    ensures Carries(x, WithMessage(x, FromBytes(Coded(x)), message))
  {}

  // ---- stripping ----

  lemma SyncBits()
    ensures ToBits(1, 2) == [true, false] && ToBits(2, 2) == [false, true]
  {}

  /** An idle block loses its message. */
  lemma StripIdle(d: Word)
    requires |d| == 64 && d[..8] == ToBits(0x1e, 8)
    ensures DtpRx.Strip(Framed(1, d)) == ToBits(1, 2) + (ToBits(0x1e, 8) + Zeros(56))
  {
    SyncBits();
    var v := Framed(1, d);
    assert v[2..10] == d[..8];
  }

  /** Any other block passes. */
  lemma StripOther(v: Word)
    requires |v| == 66 && (!v[0] || v[2..10] != ToBits(0x1e, 8))
    ensures DtpRx.Strip(v) == v
  {}

  /** Stripping the DTP message of a block restores the encoder's block. */
  lemma StripRestores(x: GoodBlock, d: Word)
    requires Carries(x, d)
    ensures DtpRx.Strip(Framed(Sync(x), d)) == LineBlock(x)
  {
    SyncBits();
    if x.Idle? {
      StripIdle(d);
      IdlePayload();
    } else {
      if !x.Data? {
        NotIdleType(x);
      }
      StripOther(Framed(Sync(x), d));
    }
  }

  lemma IdlePayload()
    ensures ToBits(FromBytes(Coded(Idle)), 64) == ToBits(0x1e, 8) + Zeros(56)
  {
    IdleValue();
    ToBitsOverByte(0x1e, 0, 56);
    ToBitsOfZero(56);
  }

  lemma IdleValue()
    ensures FromBytes(Coded(Idle)) == 0x1e
  {
    ZeroBytesAre(Coded(Idle)[1..]);
  }

  lemma ToBitsOfZero(n: nat)
    ensures ToBits(0, n) == Zeros(n)
  {
    forall i | 0 <= i < n
      ensures !ToBits(0, n)[i]
    {
      ToBitsZero(n, i);
    }
  }

  lemma {:induction false} ZeroBytesAre(ds: seq<nat>)
    requires forall i :: 0 <= i < |ds| ==> ds[i] == 0
    ensures FromBytes(ds) == 0
  {
    if ds != [] {
      ZeroBytesAre(ds[1..]);
    }
  }

  /** Only idle blocks have the idle type field. */
  lemma NotIdleType(x: GoodBlock)
    requires !x.Idle? && !x.Data?
    ensures LineBlock(x)[2..10] != ToBits(0x1e, 8)
  {
    LineBytes(x, 0);
    assert Pow2(8) == 256;
    ValToBits(Coded(x)[0], 8);
    ValToBits(0x1e, 8);
  }

  // ---- descrambling ----

  /** A block is descrambled from the 58 line bits before it, which the block before it holds. */
  lemma {:induction false} DescrambleAt(scram: Word, vs: seq<Word>, k: nat)
    requires |scram| == HISTORY && AllWide(vs, 66) && 0 < k < |vs|
    ensures Descrambler.DescrambleAll(scram, vs)[k] == Descrambler.DescrambleBlock(vs[k - 1][8..], vs[k])
  {
    var front := vs[..|vs| - 1];
    if k < |front| {
      DescrambleAt(scram, front, k);
    } else {
      assert vs[k - 1] == front[|front| - 1];
      RegisterIsLast(Descrambler.ScramAfter(scram, front[..k - 1]), vs[k - 1]);
    }
  }

  lemma RegisterIsLast(h: Word, v: Word)
    requires |h| == HISTORY && |v| == 66
    ensures Last58(h, v[2..]) == v[8..]
  {}

  lemma RecurrenceAt(h: Word, d: Word, s: Word, n: nat)
    requires Recurrence(h, d, s) && n < |s|
    ensures d[n] == Xor(Line(h, s, n - 58), Xor(Line(h, s, n - 39), s[n]))
  {}

  lemma ConcatSizes(d: seq<Word>, s: seq<Word>, i: nat, j: nat)
    requires AllWide(d, 64) && AllWide(s, 64) && |d| == |s| && i < |s| && j < 64
    ensures |Concat(d)| == |Concat(s)| == 64 * |s| && 64 * i + j < 64 * |s|
    ensures Concat(d)[64 * i + j] == d[i][j] && Concat(s)[64 * i + j] == s[i][j]
  {
    ConcatIndex(d, 64, i, j);
    ConcatIndex(s, 64, i, j);
  }

  lemma DataBit(h: Word, d: seq<Word>, s: seq<Word>, i: nat, j: nat) returns (far: bool, near: bool)
    requires AllWide(d, 64) && AllWide(s, 64) && |d| == |s| && i < |s| && j < 64
    requires Recurrence(h, Concat(d), Concat(s))
    ensures |h| == HISTORY && |Concat(s)| == 64 * |s| && 64 * i + j < 64 * |s|
    ensures far == Line(h, Concat(s), 64 * i + j - 58) && near == Line(h, Concat(s), 64 * i + j - 39)
    ensures d[i][j] == Xor(far, Xor(near, s[i][j]))
  {
    ConcatSizes(d, s, i, j);
    RecurrenceAt(h, Concat(d), Concat(s), 64 * i + j);
    far, near := Line(h, Concat(s), 64 * i + j - 58), Line(h, Concat(s), 64 * i + j - 39);
  }

  /** The bit-serial law, bit by bit across a word boundary. */
  lemma SerialBit(h: Word, d: seq<Word>, s: seq<Word>, i: nat, j: nat)
    requires AllWide(d, 64) && AllWide(s, 64) && |d| == |s| && 0 < i < |s| && j < 64
    requires Recurrence(h, Concat(d), Concat(s))
    ensures d[i][j] == Xor((s[i - 1][6..] + s[i])[j], Xor((s[i - 1][6..] + s[i])[19 + j], s[i][j]))
  {
    var far, near := DataBit(h, d, s, i, j);
    Earlier(h, s, i, j, 39, 19 + j, near);
    Earlier(h, s, i, j, 58, j, far);
  }

  lemma Earlier(h: Word, s: seq<Word>, i: nat, j: nat, back: nat, k: nat, b: bool)
    requires AllWide(s, 64) && 0 < i < |s| && j < 64 && |h| == HISTORY && back <= 58 && k == 58 + j - back
    requires |Concat(s)| == 64 * |s| && 64 * i + j < 64 * |s|
    requires b == Line(h, Concat(s), 64 * i + j - back)
    ensures b == (s[i - 1][6..] + s[i])[k]
  {
    if j < back {
      ConcatIndex(s, 64, i - 1, 64 + j - back);
    } else {
      ConcatIndex(s, 64, i, j - back);
    }
  }

  lemma LinePayload(tx: Transmission, h: Word, i: nat)
    requires Sends(tx, h) && i < |tx.xs|
    ensures |tx.line[i]| == 66 && tx.line[i][2..] == tx.scrambled[i] && tx.line[i][..2] == ToBits(Sync(tx.xs[i]), 2)
    ensures tx.line[i][8..] == tx.scrambled[i][6..]
  {}

  lemma WordDescrambles(h: Word, d: seq<Word>, s: seq<Word>, i: nat)
    requires AllWide(d, 64) && AllWide(s, 64) && |d| == |s| && 0 < i < |s|
    requires Recurrence(h, Concat(d), Concat(s))
    ensures Descrambler.DescrambleWord(s[i - 1][6..], s[i]) == d[i]
  {
    forall j | 0 <= j < 64
      ensures Descrambler.DescrambleWord(s[i - 1][6..], s[i])[j] == d[i][j]
    {
      SerialBit(h, d, s, i, j);
    }
  }

  lemma BlockDescrambles(tx: Transmission, h: Word, i: nat)
    requires Sends(tx, h) && 0 < i < |tx.xs|
    ensures |tx.line[i - 1]| == |tx.line[i]| == 66
    ensures Descrambler.DescrambleBlock(tx.line[i - 1][8..], tx.line[i]) == Framed(Sync(tx.xs[i]), tx.payloads[i])
  {
    LinePayload(tx, h, i - 1);
    LinePayload(tx, h, i);
    WordDescrambles(h, tx.payloads, tx.scrambled, i);
  }

  /**
    Joining late: whatever came before, the descrambler returns the payload of
    every line block that follows the line block before it.
   */
  lemma JoinsLate(tx: Transmission, h: Word, scram: Word, vs: seq<Word>, k: nat, i: nat)
    requires Sends(tx, h) && |scram| == HISTORY && AllWide(vs, 66)
    requires 0 < k < |vs| && 0 < i < |tx.xs| && vs[k - 1] == tx.line[i - 1] && vs[k] == tx.line[i]
    ensures Descrambler.DescrambleAll(scram, vs)[k] == Framed(Sync(tx.xs[i]), tx.payloads[i])
  {
    DescrambleAt(scram, vs, k);
    BlockDescrambles(tx, h, i);
  }

  // ---- alignment ----

  /** The offset at which the receiver must cut when the first block starts after `lead` bits. */
  function RightCut(lead: nat): (o: nat)
    ensures o <= 65
  {
    if lead % 66 == 0 then 0 else 66 - lead % 66
  }

  /** Window k at the right offset is transmitted block k - Skew(lead). */
  function Skew(lead: nat): (k: nat)
    ensures k >= 1
  {
    lead / 66 + (if lead % 66 == 0 then 1 else 2)
  }

  lemma CutAndSkew(lead: nat, k: nat, i: nat)
    requires k == i + Skew(lead)
    ensures 66 * (k - 1) - RightCut(lead) == lead + 66 * i
  {
    assert lead == 66 * (lead / 66) + lead % 66;
  }

  /** The received bits are some junk, then the transmitted blocks. */
  ghost predicate Receives(put: seq<Word>, junk: Word, line: seq<Word>) {
    && AllWide(put, 66) && AllWide(line, 66)
    && Concat(put) <= junk + Concat(line)
  }

  lemma LineBit(put: seq<Word>, junk: Word, line: seq<Word>, i: nat, j: nat)
    requires Receives(put, junk, line) && i < |line| && j < 66 && |junk| + 66 * i + j < |Concat(put)|
    ensures Concat(put)[|junk| + 66 * i + j] == line[i][j]
  {
    ConcatIndex(line, 66, i, j);
    var all := junk + Concat(line);
    assert all[|junk| + (66 * i + j)] == Concat(line)[66 * i + j];
    assert Concat(put)[|junk| + 66 * i + j] == all[|junk| + 66 * i + j];
  }

  lemma LineReaches(put: seq<Word>, junk: Word, line: seq<Word>, i: nat)
    requires Receives(put, junk, line) && |junk| + 66 * i + 66 <= |Concat(put)|
    ensures i < |line|
  {
    ConcatLength(line, 66);
  }

  /** At the right offset the windows are the transmitted blocks, whatever precedes them. */
  lemma RightWindow(put: seq<Word>, junk: Word, line: seq<Word>, k: nat, i: nat)
    requires Receives(put, junk, line) && 2 <= k <= |put| && k == i + Skew(|junk|)
    ensures i < |line| && BlockSync.Window(put, RightCut(|junk|), k) == line[i]
  {
    var o, p := RightCut(|junk|), |junk| + 66 * i;
    BlockSync.WindowIsStream(put, o, k);
    CutAndSkew(|junk|, k, i);
    LineReaches(put, junk, line, i);
    BlockSync.WindowPiece(put, o, k, p);
    forall j | 0 <= j < 66
      ensures Concat(put)[p..p + 66][j] == line[i][j]
    {
      LineBit(put, junk, line, i, j);
    }
  }

  /** Every block on the line has a valid header. */
  lemma LineHeaders(tx: Transmission, h: Word, i: nat)
    requires Sends(tx, h) && i < |tx.xs|
    ensures |tx.line[i]| == 66 && Xor(tx.line[i][0], tx.line[i][1])
  {
    SyncBits();
  }
}
