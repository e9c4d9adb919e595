/** What the networks of hw/bsv/CRC32.bsv compute for messages of any length. */
module CrcMessages {
  import opened Bits
  import Crc32Rows
  import opened Crc32

  // ---- words, bytes and bits agree ----

  /** nextCRC32_D64 over a message of 64-bit words. */
  function FoldD64(crc: Word, words: seq<Word>): (r: Word)
    requires |crc| == 32 && AllWide(words, 64)
    ensures |r| == 32
  {
    if words == [] then crc else NextCrc32D64(words[|words| - 1], FoldD64(crc, words[..|words| - 1]))
  }

  /** nextCRC32_D8 over a message of bytes. */
  function FoldD8(crc: Word, bytes: seq<Word>): (r: Word)
    requires |crc| == 32 && AllWide(bytes, 8)
    ensures |r| == 32
  {
    if bytes == [] then crc else NextCrc32D8(bytes[|bytes| - 1], FoldD8(crc, bytes[..|bytes| - 1]))
  }

  /** The bit string of a message: every item most significant bit first. */
  function BitsOf(items: seq<Word>): Word {
    if items == [] then [] else BitsOf(items[..|items| - 1]) + MsbFirst(items[|items| - 1])
  }

  lemma BitsOfSnoc(a: seq<Word>, w: Word)
    ensures BitsOf(a + [w]) == BitsOf(a) + MsbFirst(w)
  {
    assert (a + [w])[..|a|] == a;
  }

  lemma {:induction false} BitsOfAppend(a: seq<Word>, b: seq<Word>)
    ensures BitsOf(a + b) == BitsOf(a) + BitsOf(b)
  {
    if b == [] {
      assert a + b == a;
    } else {
      var front, w := b[..|b| - 1], b[|b| - 1];
      BitsOfAppend(a, front);
      assert b == front + [w] && a + b == (a + front) + [w];
      BitsOfSnoc(a + front, w);
      BitsOfSnoc(front, w);
    }
  }

  lemma BitsOfOne(w: Word)
    ensures BitsOf([w]) == MsbFirst(w)
  {
    assert [w][..0] == [];
  }

  lemma {:induction false} FoldD64IsSerial(crc: Word, words: seq<Word>)
    requires |crc| == 32 && AllWide(words, 64)
    ensures FoldD64(crc, words) == Serial(crc, BitsOf(words))
  {
    if words != [] {
      var front, w := words[..|words| - 1], words[|words| - 1];
      FoldD64IsSerial(crc, front);
      D64IsSerial(w, FoldD64(crc, front));
      SerialAppend(crc, BitsOf(front), MsbFirst(w));
    }
  }

  lemma {:induction false} FoldD8IsSerial(crc: Word, bytes: seq<Word>)
    requires |crc| == 32 && AllWide(bytes, 8)
    ensures FoldD8(crc, bytes) == Serial(crc, BitsOf(bytes))
  {
    if bytes != [] {
      var front, w := bytes[..|bytes| - 1], bytes[|bytes| - 1];
      FoldD8IsSerial(crc, front);
      D8IsSerial(w, FoldD8(crc, front));
      SerialAppend(crc, BitsOf(front), MsbFirst(w));
    }
  }

  /** The bytes of a word, most significant byte first. */
  function BytesMsbFirst(w: Word): (r: seq<Word>)
    requires |w| % 8 == 0
    ensures AllWide(r, 8) && |r| == |w| / 8
  {
    if w == [] then [] else [w[|w| - 8..]] + BytesMsbFirst(w[..|w| - 8])
  }

  lemma {:induction false} BytesKeepBits(w: Word)
    requires |w| % 8 == 0
    ensures BitsOf(BytesMsbFirst(w)) == MsbFirst(w)
  {
    if w != [] {
      var lo, hi := w[..|w| - 8], w[|w| - 8..];
      BytesKeepBits(lo);
      BitsOfAppend([hi], BytesMsbFirst(lo));
      BitsOfOne(hi);
      assert w == lo + hi;
      MsbFirstAppend(lo, hi);
    }
  }

  /** The bytes of a message of words. */
  function BytesOf(words: seq<Word>): (r: seq<Word>)
    requires AllWide(words, 64)
    ensures AllWide(r, 8)
  {
    if words == [] then [] else BytesOf(words[..|words| - 1]) + BytesMsbFirst(words[|words| - 1])
  }

  lemma {:induction false} BytesOfKeepsBits(words: seq<Word>)
    requires AllWide(words, 64)
    ensures BitsOf(BytesOf(words)) == BitsOf(words)
  {
    if words != [] {
      var front, w := words[..|words| - 1], words[|words| - 1];
      BytesOfKeepsBits(front);
      BytesKeepBits(w);
      BitsOfAppend(BytesOf(front), BytesMsbFirst(w));
    }
  }

  /**
    CRC refinement: for every message of words and every start value, word by
    word equals byte by byte equals bit by bit.
   */
  lemma WordsBytesBits(crc: Word, words: seq<Word>)
    requires |crc| == 32 && AllWide(words, 64)
    ensures FoldD64(crc, words) == FoldD8(crc, BytesOf(words)) == Serial(crc, BitsOf(words))
  {
    FoldD64IsSerial(crc, words);
    FoldD8IsSerial(crc, BytesOf(words));
    BytesOfKeepsBits(words);
  }

  // ---- error detection ----

  /** The step undone. */
  function CrcUnbit(c: Word, b: bool): (r: Word)
    requires |c| == 32
    ensures |r| == 32
  {
    seq(32, i requires 0 <= i < 32 => if i == 31 then Xor(c[0], b) else Xor(c[i + 1], Crc32Rows.Tap(i + 1) && c[0]))
  }

  /** A step moves every bit up and adds the new bit 0 at the taps. */
  lemma StepBits(c: Word, b: bool, i: nat)
    requires |c| == 32 && i < 31
    ensures CrcBit(c, b)[0] == Xor(c[31], b)
    ensures CrcBit(c, b)[i + 1] == Xor(c[i], Crc32Rows.Tap(i + 1) && CrcBit(c, b)[0])
  {
    assert Crc32Rows.Tap(0);
  }

  lemma UnstepBits(c: Word, b: bool, i: nat)
    requires |c| == 32 && i < 31
    ensures CrcUnbit(c, b)[31] == Xor(c[0], b) && CrcUnbit(c, b)[i] == Xor(c[i + 1], Crc32Rows.Tap(i + 1) && c[0])
  {}

  lemma UndoneAt(c: Word, b: bool, i: nat)
    requires |c| == 32 && i < 32
    ensures CrcUnbit(CrcBit(c, b), b)[i] == c[i]
  {
    var k := if i < 31 then i else 0;
    StepBits(c, b, k);
    UnstepBits(CrcBit(c, b), b, k);
  }

  lemma RedoneAt(c: Word, b: bool, i: nat)
    requires |c| == 32 && i < 32
    ensures CrcBit(CrcUnbit(c, b), b)[i] == c[i]
  {
    var k := if i > 0 then i - 1 else 0;
    UnstepBits(c, b, k);
    StepBits(CrcUnbit(c, b), b, k);
  }

  /** Each bit step is a bijection on the register. */
  lemma StepIsBijective(c: Word, b: bool)
    requires |c| == 32
    ensures CrcUnbit(CrcBit(c, b), b) == c && CrcBit(CrcUnbit(c, b), b) == c
  {
    var back, forth := CrcUnbit(CrcBit(c, b), b), CrcBit(CrcUnbit(c, b), b);
    forall i | 0 <= i < 32
      ensures back[i] == c[i] && forth[i] == c[i]
    {
      UndoneAt(c, b, i);
      RedoneAt(c, b, i);
    }
  }

  /** So the register after any bit string determines the register before it. */
  lemma {:induction false} SerialIsInjective(c: Word, d: Word, bits: Word)
    requires |c| == |d| == 32 && Serial(c, bits) == Serial(d, bits)
    ensures c == d
  {
    if bits != [] {
      var front, b := bits[..|bits| - 1], bits[|bits| - 1];
      StepIsBijective(Serial(c, front), b);
      StepIsBijective(Serial(d, front), b);
      SerialIsInjective(c, d, front);
    }
  }

  /** Registers c and d agree on their n low bits. */
  ghost predicate AgreeLow(c: Word, d: Word, n: int) {
    |c| == |d| == 32 && forall i :: 0 <= i < n && i < 32 ==> c[i] == d[i]
  }

  lemma AgreeBack(c: Word, d: Word, x: bool, y: bool, n: nat)
    requires |c| == |d| == 32 && 0 < n <= 32 && AgreeLow(CrcBit(c, x), CrcBit(d, y), n)
    ensures AgreeLow(c, d, n - 1)
  {
    forall i | 0 <= i < n - 1
      ensures c[i] == d[i]
    {
      StepBits(c, x, i);
      StepBits(d, y, i);
    }
  }

  /** Registers that agree on n low bits after k bits agreed on n - k low bits before them. */
  lemma {:induction false} AgreeBefore(c: Word, d: Word, x: Word, y: Word, n: nat)
    requires |c| == |d| == 32 && |x| == |y| <= n <= 32 && AgreeLow(Serial(c, x), Serial(d, y), n)
    ensures AgreeLow(c, d, n - |x|)
  {
    if x != [] {
      var k := |x| - 1;
      AgreeBack(Serial(c, x[..k]), Serial(d, y[..k]), x[k], y[k], n);
      AgreeBefore(c, d, x[..k], y[..k], n - 1);
    }
  }

  /** Up to 32 bits can be read back from the register. */
  lemma {:induction false} ShortIsInjective(c: Word, x: Word, y: Word)
    requires |c| == 32 && |x| == |y| <= 32 && Serial(c, x) == Serial(c, y)
    ensures x == y
    decreases |x|
  {
    if x != [] {
      var a, b := x[0], y[0];
      assert x == [a] + x[1..] && y == [b] + y[1..];
      SerialAppend(c, [a], x[1..]);
      SerialAppend(c, [b], y[1..]);
      FirstStep(c, a);
      FirstStep(c, b);
      AgreeBefore(CrcBit(c, a), CrcBit(c, b), x[1..], y[1..], 32);
      StepBits(c, a, 0);
      StepBits(c, b, 0);
      ShortIsInjective(CrcBit(c, a), x[1..], y[1..]);
    }
  }

  lemma FirstStep(c: Word, b: bool)
    requires |c| == 32
    ensures Serial(c, [b]) == CrcBit(c, b)
  {
    assert [b] == [] + [b];
    SerialSnoc(c, [], b);
  }

  /**
    Burst errors never go unnoticed: two messages that differ only inside a
    window of at most 32 bits have different CRCs, however long they are.
   */
  lemma BurstIsDetected(c: Word, before: Word, x: Word, y: Word, after: Word)
    requires |c| == 32 && |x| == |y| <= 32 && x != y
    ensures Serial(c, before + x + after) != Serial(c, before + y + after)
  {
    SerialAppend(c, before + x, after);
    SerialAppend(c, before + y, after);
    SerialAppend(c, before, x);
    SerialAppend(c, before, y);
    if Serial(c, before + x + after) == Serial(c, before + y + after) {
      SerialIsInjective(Serial(c, before + x), Serial(c, before + y), after);
      ShortIsInjective(Serial(c, before), x, y);
    }
  }

  /** Messages of bytes that differ inside a window of at most 32 bits have different CRCs. */
  lemma ByteBurstIsDetected(crc: Word, m: seq<Word>, n: seq<Word>, p: nat, q: nat)
    requires |crc| == 32 && AllWide(m, 8) && AllWide(n, 8) && |BitsOf(m)| == |BitsOf(n)|
    requires p <= q <= |BitsOf(m)| && q - p <= 32
    requires BitsOf(m)[..p] == BitsOf(n)[..p] && BitsOf(m)[p..q] != BitsOf(n)[p..q] && BitsOf(m)[q..] == BitsOf(n)[q..]
    ensures FoldD8(crc, m) != FoldD8(crc, n)
  {
    var x, y := BitsOf(m), BitsOf(n);
    FoldD8IsSerial(crc, m);
    FoldD8IsSerial(crc, n);
    assert x == x[..p] + x[p..q] + x[q..] && y == y[..p] + y[p..q] + y[q..];
    BurstIsDetected(crc, x[..p], x[p..q], y[p..q], x[q..]);
  }

  // ---- the residue ----

  lemma MixedWithItself(c: Word)
    requires |c| == 32
    ensures Mixed(c, c) == Zeros(32)
  {}

  /** A register fed to itself, most significant bit first, is cleared. */
  lemma SelfClears(c: Word)
    requires |c| == 32
    ensures Serial(c, MsbFirst(c)) == Zeros(32)
  {
    TableShifts();
    forall i | 0 <= i < 32
      ensures !Serial(c, MsbFirst(c))[i]
    {
      SerialIsClosed(TableD64(), c, c, i);
      MixedWithItself(c);
      XorOverNone(Zeros(32), RowOf(TableD64(), i));
    }
  }

  /**
    The residue: four bytes after a message drive the register to zero exactly
    when they are the message's own register, most significant byte first.
   */
  lemma Residue(crc: Word, m: seq<Word>, trailer: Word)
    requires |crc| == 32 && AllWide(m, 8) && |trailer| == 32
    ensures AllWide(m + BytesMsbFirst(trailer), 8)
    ensures FoldD8(crc, m + BytesMsbFirst(trailer)) == Zeros(32) <==> trailer == FoldD8(crc, m)
  {
    var c := FoldD8(crc, m);
    FoldD8IsSerial(crc, m);
    FoldD8IsSerial(crc, m + BytesMsbFirst(trailer));
    BitsOfAppend(m, BytesMsbFirst(trailer));
    BytesKeepBits(trailer);
    SerialAppend(crc, BitsOf(m), MsbFirst(trailer));
    SelfClears(c);
    if Serial(c, MsbFirst(trailer)) == Zeros(32) {
      ShortIsInjective(c, MsbFirst(trailer), MsbFirst(c));
      MsbFirstInjective(trailer, c);
    }
  }

  lemma MsbFirstInjective(a: Word, b: Word)
    requires MsbFirst(a) == MsbFirst(b)
    ensures a == b
  {
    assert |a| == |b|;
    forall i | 0 <= i < |a|
      ensures a[i] == b[i]
    {
      assert MsbFirst(a)[|a| - 1 - i] == MsbFirst(b)[|a| - 1 - i];
    }
  }
}
