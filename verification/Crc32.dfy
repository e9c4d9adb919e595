/**
  The frame check sequence networks of hw/bsv/CRC32.bsv, measured against the
  one-bit shift register, and what they say about whole messages.
 */
module Crc32 {
  import opened Bits
  import opened Crc32Rows

  /** The exclusive or of the bits of w at the positions p selects. */
  function XorOver(w: Word, p: nat -> bool): bool {
    if w == [] then false
    else
      var k := |w| - 1;
      Xor(XorOver(w[..k], p), p(k) && w[k])
  }

  /** Row i of a table of taps. */
  type Table = (nat, nat) -> bool

  function RowOf(t: Table, i: nat): nat -> bool {
    (j: nat) => t(i, j)
  }

  function TableD64(): Table { (i: nat, j: nat) => i < 32 && D64(i, j) }
  function TableC64(): Table { (i: nat, j: nat) => i < 32 && C64(i, j) }
  function TableD8(): Table { (i: nat, j: nat) => i < 32 && D8(i, j) }
  function TableC8(): Table { (i: nat, j: nat) => i < 32 && C8(i, j) }

  /** A network that adds up the data bits and register bits its rows select. */
  function Network(d: Table, c: Table, data: Word, crc: Word): (r: Word)
    ensures |r| == 32
  {
    seq(32, i requires 0 <= i < 32 => Xor(XorOver(data, RowOf(d, i)), XorOver(crc, RowOf(c, i))))
  }

  function NextCrc32D64(data: Word, crc: Word): (r: Word)
    requires |data| == 64 && |crc| == 32
    ensures |r| == 32
  {
    Network(TableD64(), TableC64(), data, crc)
  }

  function NextCrc32D8(data: Word, crc: Word): (r: Word)
    requires |data| == 8 && |crc| == 32
    ensures |r| == 32
  {
    Network(TableD8(), TableC8(), data, crc)
  }

  // ---- the one-bit shift register ----

  function CrcBit(c: Word, b: bool): (r: Word)
    requires |c| == 32
    ensures |r| == 32
  {
    seq(32, i requires 0 <= i < 32 => Xor(i > 0 && c[i - 1], Tap(i) && Xor(c[31], b)))
  }

  /** The register after a bit string, first bit first. */
  function Serial(c: Word, bits: Word): (r: Word)
    requires |c| == 32
    ensures |r| == 32
  {
    if bits == [] then c else CrcBit(Serial(c, bits[..|bits| - 1]), bits[|bits| - 1])
  }

  lemma SerialSnoc(c: Word, bits: Word, b: bool)
    requires |c| == 32
    ensures Serial(c, bits + [b]) == CrcBit(Serial(c, bits), b)
  {
    assert (bits + [b])[..|bits|] == bits;
  }

  lemma {:induction false} SerialAppend(c: Word, a: Word, b: Word)
    requires |c| == 32
    ensures Serial(c, a + b) == Serial(Serial(c, a), b)
  {
    if b == [] {
      assert a + b == a;
    } else {
      SerialAppend(c, a, b[..|b| - 1]);
      assert (a + b)[..|a + b| - 1] == a + b[..|b| - 1];
    }
  }

  /** The bits of w in the order they are fed: most significant first. */
  function MsbFirst(w: Word): (r: Word)
    ensures |r| == |w|
  {
    seq(|w|, i requires 0 <= i < |w| => w[|w| - 1 - i])
  }

  lemma MsbFirstPrepend(b: bool, w: Word)
    ensures MsbFirst([b] + w) == MsbFirst(w) + [b]
  {}

  lemma MsbFirstAppend(lo: Word, hi: Word)
    ensures MsbFirst(lo + hi) == MsbFirst(hi) + MsbFirst(lo)
  {}

  // ---- sums over positions ----

  lemma {:induction false} XorOverCong(w: Word, p: nat -> bool, q: nat -> bool)
    requires forall j: nat :: j < |w| ==> p(j) == q(j)
    ensures XorOver(w, p) == XorOver(w, q)
  {
    if w != [] {
      XorOverCong(w[..|w| - 1], p, q);
    }
  }

  /** A sum of words. */
  lemma {:induction false} XorOverSum(a: Word, b: Word, p: nat -> bool)
    requires |a| == |b|
    ensures XorOver(XorW(a, b), p) == Xor(XorOver(a, p), XorOver(b, p))
  {
    if a != [] {
      var k := |a| - 1;
      XorOverSum(a[..k], b[..k], p);
      assert XorW(a, b)[..k] == XorW(a[..k], b[..k]);
    }
  }

  function Shifted(p: nat -> bool, n: nat): nat -> bool {
    (j: nat) => p(n + j)
  }

  lemma {:induction false} XorOverSplit(a: Word, b: Word, p: nat -> bool)
    ensures XorOver(a + b, p) == Xor(XorOver(a, p), XorOver(b, Shifted(p, |a|)))
  {
    if b == [] {
      assert a + b == a;
    } else {
      var k := |b| - 1;
      XorOverSplit(a, b[..k], p);
      assert (a + b)[..|a + b| - 1] == a + b[..k];
    }
  }

  lemma {:induction false} XorOverNone(w: Word, p: nat -> bool)
    requires forall j: nat :: j < |w| ==> !(p(j) && w[j])
    ensures !XorOver(w, p)
  {
    if w != [] {
      XorOverNone(w[..|w| - 1], p);
    }
  }

  lemma {:induction false} XorOverOne(w: Word, p: nat -> bool, k: nat)
    requires k < |w| && forall j: nat :: j < |w| ==> p(j) == (j == k)
    ensures XorOver(w, p) == w[k]
  {
    var n := |w| - 1;
    if k < n {
      XorOverOne(w[..n], p, k);
    } else {
      XorOverNone(w[..n], p);
    }
  }

  // ---- rows of the shift register ----

  /** Row i sees a bit fed one step earlier as row i - 1 and the feedback see it. */
  ghost predicate ShiftRow(t: Table, i: nat, j: nat) {
    && t(i, 0) == Tap(i)
    && t(i, j + 1) == ((i > 0 && t(i - 1, j)) != (Tap(i) && t(31, j)))
  }

  /** The rows of a one-bit shift register that is fed up to n bits. */
  ghost predicate ShiftRows(t: Table, n: nat) {
    forall i: nat, j: nat :: i < 32 && j < n ==> ShiftRow(t, i, j)
  }

  /** The sum of row i, where row -1 is empty. */
  function Row(t: Table, i: int, w: Word): bool
    requires -1 <= i
  {
    i >= 0 && XorOver(w, RowOf(t, i))
  }

  /** The row recurrence over a whole word: one more bit is fed after those of w. */
  lemma {:induction false} RowPrepend(t: Table, i: nat, x: bool, w: Word)
    requires ShiftRows(t, 63) && i < 32 && |w| <= 63
    ensures Row(t, i, [x] + w) == Xor(Row(t, i - 1, w), Tap(i) && Xor(Row(t, 31, w), x))
  {
    if w == [] {
      assert ShiftRow(t, i, 0);
      assert [x] + w == [x] && [x][..0] == [];
      assert XorOver([x], RowOf(t, i)) == Xor(XorOver([], RowOf(t, i)), RowOf(t, i)(0) && x);
    } else {
      var k := |w| - 1;
      RowPrepend(t, i, x, w[..k]);
      assert ([x] + w)[..k + 1] == [x] + w[..k];
      assert ShiftRow(t, i, k);
    }
  }

  /** Data bits and the register bits that meet them at the feedback. */
  function Mixed(c: Word, w: Word): (r: Word)
    requires |c| == 32
    ensures |r| == |w|
  {
    seq(|w|, j requires 0 <= j < |w| => Xor(w[j], |w| - j <= 32 && c[32 - |w| + j]))
  }

  lemma MixedPrepend(c: Word, b: bool, w: Word)
    requires |c| == 32
    ensures Mixed(c, [b] + w) == [Xor(b, |w| < 32 && c[31 - |w|])] + Mixed(c, w)
  {}

  /** Bit i of the register after the bits of w, in closed form. */
  function Closed(t: Table, c: Word, w: Word, i: int): bool
    requires |c| == 32 && -1 <= i < 32
  {
    i >= 0 && Xor(Row(t, i, Mixed(c, w)), i >= |w| && c[i - |w|])
  }

  lemma ClosedPrepend(t: Table, c: Word, b: bool, w: Word, i: nat)
    requires ShiftRows(t, 63) && |c| == 32 && |w| <= 63 && i < 32
    ensures Closed(t, c, [b] + w, i) == Xor(Closed(t, c, w, i - 1), Tap(i) && Xor(Closed(t, c, w, 31), b))
  {
    MixedPrepend(c, b, w);
    RowPrepend(t, i, Xor(b, |w| < 32 && c[31 - |w|]), Mixed(c, w));
  }

  /** Feeding up to 64 bits one by one gives the closed form. */
  lemma {:induction false} SerialIsClosed(t: Table, c: Word, w: Word, i: nat)
    requires ShiftRows(t, 63) && |c| == 32 && |w| <= 64 && i < 32
    ensures Serial(c, MsbFirst(w))[i] == Closed(t, c, w, i)
    decreases |w|
  {
    if w == [] {
      assert Mixed(c, w) == [];
    } else {
      var b, rest := w[0], w[1..];
      assert w == [b] + rest;
      MsbFirstPrepend(b, rest);
      SerialSnoc(c, MsbFirst(rest), b);
      SerialIsClosed(t, c, rest, 31);
      if i > 0 {
        SerialIsClosed(t, c, rest, i - 1);
      }
      ClosedPrepend(t, c, b, rest, i);
    }
  }

  lemma TableShifts()
    ensures ShiftRows(TableD64(), 63)
  {
    forall i: nat, j: nat | i < 32 && j < 63
      ensures ShiftRow(TableD64(), i, j)
    {
      Recurrence(i, j);
    }
  }

  // ---- the networks are the shift register ----

  lemma NetworkBit(d: Table, c: Table, data: Word, crc: Word, i: nat)
    requires i < 32
    ensures Network(d, c, data, crc)[i] == Xor(XorOver(data, RowOf(d, i)), XorOver(crc, RowOf(c, i)))
  {}

  /** Data and register enter a row of the closed form separately. */
  lemma MixedApart(c: Word, w: Word, low: Word, p: nat -> bool)
    requires |c| == 32 && |low| == |w| && forall j :: 0 <= j < |w| ==> low[j] == (|w| - j <= 32 && c[32 - |w| + j])
    ensures XorOver(Mixed(c, w), p) == Xor(XorOver(w, p), XorOver(low, p))
  {
    assert Mixed(c, w) == XorW(w, low);
    XorOverSum(w, low, p);
  }

  /** With 64 bits of data the register meets the upper half of the data. */
  lemma RegisterAbove(c: Word, i: nat)
    requires |c| == 32 && i < 32
    ensures XorOver(Zeros(32) + c, RowOf(TableD64(), i)) == XorOver(c, RowOf(TableC64(), i))
  {
    var p, q := RowOf(TableD64(), i), RowOf(TableC64(), i);
    XorOverSplit(Zeros(32), c, p);
    XorOverNone(Zeros(32), p);
    forall k: nat | k < 32
      ensures Shifted(p, 32)(k) == q(k)
    {
      WideRegister(i, k);
    }
    XorOverCong(c, Shifted(p, 32), q);
  }

  lemma D64Bit(data: Word, crc: Word, i: nat)
    requires |data| == 64 && |crc| == 32 && i < 32
    ensures NextCrc32D64(data, crc)[i] == Closed(TableD64(), crc, data, i)
  {
    NetworkBit(TableD64(), TableC64(), data, crc, i);
    MixedApart(crc, data, Zeros(32) + crc, RowOf(TableD64(), i));
    RegisterAbove(crc, i);
  }

  /** nextCRC32_D64 is 64 steps of the shift register, bit 63 first. */
  lemma D64IsSerial(data: Word, crc: Word)
    requires |data| == 64 && |crc| == 32
    ensures NextCrc32D64(data, crc) == Serial(crc, MsbFirst(data))
  {
    TableShifts();
    forall i | 0 <= i < 32
      ensures NextCrc32D64(data, crc)[i] == Serial(crc, MsbFirst(data))[i]
    {
      D64Bit(data, crc, i);
      SerialIsClosed(TableD64(), crc, data, i);
    }
  }

  /** With 8 bits of data the top byte of the register meets the data, the rest moves up. */
  lemma RegisterTop(c: Word, i: nat)
    requires |c| == 32 && i < 32
    ensures XorOver(c, RowOf(TableC8(), i)) == Xor(XorOver(c[24..], RowOf(TableD8(), i)), i >= 8 && c[i - 8])
  {
    var p, q := RowOf(TableC8(), i), RowOf(TableD8(), i);
    assert c == c[..24] + c[24..];
    XorOverSplit(c[..24], c[24..], p);
    forall k: nat | k < 32
      ensures p(k) == if k >= 24 then q(k - 24) else i >= 8 && k == i - 8
    {
      NarrowRegister(i, k);
    }
    XorOverCong(c[24..], Shifted(p, 24), q);
    if i >= 8 {
      XorOverOne(c[..24], p, i - 8);
    } else {
      XorOverNone(c[..24], p);
    }
  }

  lemma NarrowRow(w: Word, i: nat)
    requires |w| == 8 && i < 32
    ensures XorOver(w, RowOf(TableD8(), i)) == XorOver(w, RowOf(TableD64(), i))
  {
    var p, q := RowOf(TableD8(), i), RowOf(TableD64(), i);
    forall j: nat | j < 8
      ensures p(j) == q(j)
    {
      NarrowData(i, j);
    }
    XorOverCong(w, p, q);
  }

  lemma D8Bit(data: Word, crc: Word, i: nat)
    requires |data| == 8 && |crc| == 32 && i < 32
    ensures NextCrc32D8(data, crc)[i] == Closed(TableD64(), crc, data, i)
  {
    NetworkBit(TableD8(), TableC8(), data, crc, i);
    MixedApart(crc, data, crc[24..], RowOf(TableD64(), i));
    RegisterTop(crc, i);
    NarrowRow(data, i);
    NarrowRow(crc[24..], i);
  }

  /** nextCRC32_D8 is 8 steps of the shift register, bit 7 first. */
  lemma D8IsSerial(data: Word, crc: Word)
    requires |data| == 8 && |crc| == 32
    ensures NextCrc32D8(data, crc) == Serial(crc, MsbFirst(data))
  {
    TableShifts();
    forall i | 0 <= i < 32
      ensures NextCrc32D8(data, crc)[i] == Serial(crc, MsbFirst(data))[i]
    {
      D8Bit(data, crc, i);
      SerialIsClosed(TableD64(), crc, data, i);
    }
  }
}
