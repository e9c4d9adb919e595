/**
  The 64B/66B reference encoder (pcs_encode, hw/tests/data/xgmii.py) and the
  reference decoder (pcs_decode, hw/tests/data/xgmii_rx.py), on Python's
  unbounded integers.
 */
module Pcs {
  import opened Bits
  import opened Xgmii

  /** data[0] + (data[1] << 8) + ... */
  function FromBytes(ds: seq<nat>): nat {
    if ds == [] then 0 else ds[0] + 256 * FromBytes(ds[1..])
  }

  /** (e >> (8 * j)) & 0xff */
  function ByteAt(e: nat, j: nat): Byte {
    if j == 0 then e % 256 else ByteAt(e / 256, j - 1)
  }

  lemma {:induction false} ByteAtFromBytes(ds: seq<nat>, j: nat)
    requires j < |ds| && forall i :: 0 <= i < |ds| ==> ds[i] < 256
    ensures ByteAt(FromBytes(ds), j) == ds[j]
  {
    if j > 0 {
      ByteAtFromBytes(ds[1..], j - 1);
    }
  }

  // ---- pcs_encode ----

  /** The counters of one pass over eight lanes. */
  datatype Scan = Scan(db: nat, idle: nat, start: bool, end: bool, index: nat)

  function ScanLane(s: Scan, j: nat, ctrl: bool, data: nat): Scan {
    if !ctrl then s.(db := s.db + 1)
    else if data == 0x07 then s.(idle := s.idle + 1)
    else if data == 0xfb then s.(start := true, index := j)
    else if data == 0xfd then s.(end := true, index := j)
    else s
  }

  /** Recognised control characters are overwritten with zero. */
  function Blank(ctrl: bool, data: nat): nat {
    if ctrl && (data == 0x07 || data == 0xfb || data == 0xfd) then 0 else data
  }

  function ScanLanes(lanes: seq<Lane>): Scan {
    if lanes == [] then Scan(0, 0, false, false, 0)
    else
      var j := |lanes| - 1;
      ScanLane(ScanLanes(lanes[..j]), j, lanes[j].ctrl, lanes[j].data)
  }

  function Blanks(lanes: seq<Lane>): (r: seq<nat>)
    ensures |r| == |lanes|
  {
    seq(|lanes|, i requires 0 <= i < |lanes| => Blank(lanes[i].ctrl, lanes[i].data))
  }

  function TermCode(index: nat): nat {
    match index
    case 0 => 0x87
    case 1 => 0x99
    case 2 => 0xaa
    case 3 => 0xb4
    case 4 => 0xcc
    case 5 => 0xd2
    case 6 => 0xe1
    case _ => 0xff
  }

  /** The 64-bit payload and the sync header of one block. */
  function Finish(s: Scan, d: nat): (nat, nat) {
    if s.db == 8 then (d, 2)
    else if s.idle == 8 then (0x1e, 1)
    else if s.start then
      (d + (if s.index == 0 then 0x78 else if s.index == 4 then 0x33 else 0), 1)
    else if s.end then (d * 256 + TermCode(s.index), 1)
    else (d, 1)
  }

  function EncodeLanes(lanes: seq<Lane>): (nat, nat)
    requires |lanes| == 8
  {
    Finish(ScanLanes(lanes), FromBytes(Blanks(lanes)))
  }

  /** The lanes held by the two lists of the Python program. */
  function LanesOf(data: seq<Byte>, control: seq<bool>): (r: seq<Lane>)
    requires |data| == |control|
    ensures |r| == |data|
  {
    seq(|data|, i requires 0 <= i < |data| => Lane(control[i], data[i]))
  }

  lemma FromEightBytes(ds: seq<nat>)
    requires |ds| == 8
    ensures FromBytes(ds) == ds[0] + ds[1] * 0x100 + ds[2] * 0x1_0000 + ds[3] * 0x100_0000 + ds[4] * 0x1_0000_0000
                             + ds[5] * 0x100_0000_0000 + ds[6] * 0x1_0000_0000_0000 + ds[7] * 0x100_0000_0000_0000
  {
    var d1, d2, d3, d4 := ds[1..], ds[2..], ds[3..], ds[4..];
    var d5, d6, d7 := ds[5..], ds[6..], ds[7..];
    assert d1[1..] == d2 && d2[1..] == d3 && d3[1..] == d4 && d4[1..] == d5 && d5[1..] == d6 && d6[1..] == d7;
    assert FromBytes(d7) == ds[7];
    assert FromBytes(d6) == ds[6] + 256 * FromBytes(d7);
    assert FromBytes(d5) == ds[5] + 256 * FromBytes(d6);
    assert FromBytes(d4) == ds[4] + 256 * (ds[5] + 256 * (ds[6] + 256 * ds[7]));
  }

  /**
    pcs_encode: overwrites the recognised control characters of data in place
    and returns one payload and one sync header per eight lanes. The encoding
    is that of the lanes as they were on entry, although each lane is read
    after it may have been overwritten.
   */
  method PcsEncode(data: array<Byte>, control: seq<bool>) returns (ndata: seq<nat>, nsync: seq<nat>)
    requires |control| == data.Length
    modifies data
    ensures |ndata| == |nsync| == data.Length / 8
    ensures forall i :: 0 <= i < |ndata| ==>
              (ndata[i], nsync[i]) == EncodeLanes(LanesOf(old(data[..]), control)[8 * i..8 * i + 8])
    ensures forall k :: 0 <= k < data.Length ==>
              data[k] == if k < data.Length / 8 * 8 then Blank(control[k], old(data[k])) else old(data[k])
  {
    ndata, nsync := [], [];
    ghost var lanes := LanesOf(data[..], control);
    for i := 0 to data.Length / 8
      invariant |ndata| == |nsync| == i
      invariant forall k :: 0 <= k < i ==> (ndata[k], nsync[k]) == EncodeLanes(lanes[8 * k..8 * k + 8])
      invariant forall k :: 0 <= k < data.Length ==>
                  data[k] == if k < 8 * i then Blank(control[k], old(data[k])) else old(data[k])
    {
      ghost var block := lanes[8 * i..8 * i + 8];
      var s := ConvertBlock(data, control, i, block);
      var d := Assemble(data, i);
      assert data[8 * i..8 * i + 8] == Blanks(block);
      var sync;
      d, sync := AddType(s, d);
      ndata := ndata + [d];
      nsync := nsync + [sync];
    }
  }

  /** The eight bytes of block i as one integer. */
  method Assemble(data: array<Byte>, i: nat) returns (d: nat)
    requires 8 * i + 8 <= data.Length
    ensures d == FromBytes(data[8 * i..8 * i + 8])
  {
    d := data[8 * i] as int + data[8 * i + 1] as int * 0x100 + data[8 * i + 2] as int * 0x1_0000 + data[8 * i + 3] as int * 0x100_0000
         + data[8 * i + 4] as int * 0x1_0000_0000 + data[8 * i + 5] as int * 0x100_0000_0000
         + data[8 * i + 6] as int * 0x1_0000_0000_0000 + data[8 * i + 7] as int * 0x100_0000_0000_0000;
    FromEightBytes(data[8 * i..8 * i + 8]);
  }

  /** The inner loop of pcs_encode: converts /S/, /T/ and /I/ of block i. */
  method ConvertBlock(data: array<Byte>, control: seq<bool>, i: nat, ghost block: seq<Lane>) returns (s: Scan)
    requires |control| == data.Length && 8 * i + 8 <= data.Length
    requires |block| == 8 && forall j :: 0 <= j < 8 ==> block[j] == Lane(control[8 * i + j], data[8 * i + j])
    modifies data
    ensures s == ScanLanes(block)
    ensures forall k :: 0 <= k < data.Length ==>
              data[k] == if 8 * i <= k < 8 * i + 8 then Blank(control[k], old(data[k])) else old(data[k])
  {
    var start, end, db, idle, index := false, false, 0, 0, 0;
    for j := 0 to 8
      invariant Scan(db, idle, start, end, index) == ScanLanes(block[..j])
      invariant forall k :: 0 <= k < data.Length ==>
                  data[k] == if 8 * i <= k < 8 * i + j then Blank(control[k], old(data[k])) else old(data[k])
    {
      assert block[..j + 1][..j] == block[..j];
      assert block[j] == Lane(control[8 * i + j], data[8 * i + j]);
      if !control[8 * i + j] {
        db := db + 1;
      } else if data[8 * i + j] == 0x07 {
        idle := idle + 1;
        data[8 * i + j] := 0;
      } else if data[8 * i + j] == 0xfb {
        start, index := true, j;
        data[8 * i + j] := 0;
      } else if data[8 * i + j] == 0xfd {
        end, index := true, j;
        data[8 * i + j] := 0;
      }
    }
    assert block[..8] == block;
    s := Scan(db, idle, start, end, index);
  }

  /** The last part of the loop body of pcs_encode: the block type field. */
  method AddType(s: Scan, d0: nat) returns (d: nat, sync: nat)
    ensures (d, sync) == Finish(s, d0)
  {
    d, sync := d0, 1;
    if s.db == 8 {
      sync := 2;
    } else if s.idle == 8 {
      d := 0x1e;
    } else if s.start {
      if s.index == 0 {
        d := d + 0x78;
      } else if s.index == 4 {
        d := d + 0x33;
      }
    } else if s.end {
      d := d * 256;
      d := d + TermCode(s.index);
    }
  }

  // ---- what the encoder makes of well-formed blocks ----

  function ZeroBytes(n: nat): (r: seq<Byte>)
    ensures |r| == n
  {
    seq(n, _ => 0)
  }

  /** The eight payload bytes of a block, as Figure 49-7 of IEEE 802.3 lays them out. */
  function Coded(b: GoodBlock): (r: seq<Byte>)
    ensures |r| == 8
  {
    match b
    case Data(bs) => bs
    case Idle => [0x1e] + ZeroBytes(7)
    case Start0(bs) => [0x78] + bs
    case Start4(bs) => [0x33] + ZeroBytes(4) + bs
    case Term(bs) => [TermCode(|bs|)] + bs + ZeroBytes(7 - |bs|)
  }

  function Sync(b: GoodBlock): nat {
    if b.Data? then 2 else 1
  }

  /** The encoder's counters after j lanes of a well-formed block. */
  function ScanAfter(b: GoodBlock, j: nat): Scan {
    match b
    case Data(_) => Scan(j, 0, false, false, 0)
    case Idle => Scan(0, j, false, false, 0)
    case Start0(_) => if j == 0 then Scan(0, 0, false, false, 0) else Scan(j - 1, 0, true, false, 0)
    case Start4(_) => if j <= 4 then Scan(0, j, false, false, 0) else Scan(j - 5, 4, true, false, 4)
    case Term(bs) =>
      if j <= |bs| then Scan(j, 0, false, false, 0) else Scan(|bs|, j - |bs| - 1, false, true, |bs|)
  }

  lemma {:induction false} ScanWellFormed(b: GoodBlock, j: nat)
    requires j <= 8
    ensures ScanLanes(Lanes(b)[..j]) == ScanAfter(b, j)
  {
    if j > 0 {
      ScanWellFormed(b, j - 1);
      var part := Lanes(b)[..j];
      assert part[..j - 1] == Lanes(b)[..j - 1];
    }
  }

  /** Adding to the lowest byte, when it is zero. */
  lemma FromBytesLow(ds: seq<nat>, code: nat)
    requires ds != [] && ds[0] == 0
    ensures FromBytes(ds) + code == FromBytes([code] + ds[1..])
  {}

  /** Shifting up by one byte, when the highest byte is zero. */
  lemma {:induction false} FromBytesUp(ds: seq<nat>, code: nat)
    requires ds != [] && ds[|ds| - 1] == 0
    ensures FromBytes(ds) * 256 + code == FromBytes([code] + ds[..|ds| - 1])
  {
    FromBytesDropZero(ds);
    assert ([code] + ds[..|ds| - 1])[1..] == ds[..|ds| - 1];
  }

  lemma {:induction false} FromBytesDropZero(ds: seq<nat>)
    requires ds != [] && ds[|ds| - 1] == 0
    ensures FromBytes(ds) == FromBytes(ds[..|ds| - 1])
  {
    if |ds| > 1 {
      FromBytesDropZero(ds[1..]);
      assert ds[1..][..|ds| - 2] == ds[..|ds| - 1][1..];
    }
  }

  /** What the last part of the encoder adds to the assembled bytes d of a block. */
  function Typed(b: GoodBlock, d: nat): nat {
    match b
    case Data(_) => d
    case Idle => 0x1e
    case Start0(_) => d + 0x78
    case Start4(_) => d + 0x33
    case Term(bs) => d * 256 + TermCode(|bs|)
  }

  lemma FinishWellFormed(b: GoodBlock, d: nat)
    ensures Finish(ScanAfter(b, 8), d) == (Typed(b, d), Sync(b))
  {}

  /** What is left of lane i once control characters are blanked. */
  function BlankedByte(b: GoodBlock, i: nat): nat
    requires i < 8
  {
    match b
    case Data(bs) => bs[i]
    case Idle => 0
    case Start0(bs) => if i == 0 then 0 else bs[i - 1]
    case Start4(bs) => if i < 5 then 0 else bs[i - 5]
    case Term(bs) => if i < |bs| then bs[i] else 0
  }

  lemma BlankedLane(b: GoodBlock, i: nat)
    requires i < 8
    ensures Blanks(Lanes(b))[i] == BlankedByte(b, i)
  {
    var l := Lanes(b)[i];
    match b
    case Data(bs) => assert l == Lane(false, bs[i]);
    case Idle => assert l == Lane(true, IDLE);
    case Start0(bs) => assert l == if i == 0 then Lane(true, START) else Lane(false, bs[i - 1]);
    case Start4(bs) => assert l == if i < 4 then Lane(true, IDLE) else if i == 4 then Lane(true, START) else Lane(false, bs[i - 5]);
    case Term(bs) => assert l == if i < |bs| then Lane(false, bs[i]) else if i == |bs| then Lane(true, TERMINATE) else Lane(true, IDLE);
  }

  /** The payload of each kind of block. */
  lemma PayloadWellFormed(b: GoodBlock)
    ensures Typed(b, FromBytes(Blanks(Lanes(b)))) == FromBytes(Coded(b))
  {
    var ds := Blanks(Lanes(b));
    forall i | 0 <= i < 8
      ensures ds[i] == BlankedByte(b, i)
    {
      BlankedLane(b, i);
    }
    match b
    case Data(bs) =>
      assert ds == bs;
    case Idle =>
      FromEightBytes(Coded(b));
      assert forall i :: 1 <= i < 8 ==> Coded(b)[i] == 0;
    case Start0(bs) =>
      FromBytesLow(ds, 0x78);
      assert [0x78] + ds[1..] == Coded(b);
    case Start4(bs) =>
      FromBytesLow(ds, 0x33);
      assert [0x33] + ds[1..] == Coded(b);
    case Term(bs) =>
      FromBytesUp(ds, TermCode(|bs|));
      TermBytes(b, ds);
  }

  lemma TermBytes(b: GoodBlock, ds: seq<nat>)
    requires b.Term? && |ds| == 8 && forall i :: 0 <= i < 8 ==> ds[i] == BlankedByte(b, i)
    ensures [TermCode(|b.bytes|)] + ds[..7] == Coded(b)
  {
    var n := |b.bytes|;
    forall i | 0 <= i < 8
      ensures ([TermCode(n)] + ds[..7])[i] == Coded(b)[i]
    {
      if i > 0 {
        assert ([TermCode(n)] + ds[..7])[i] == ds[i - 1];
      }
    }
  }

  /** Every well-formed block is encoded as the standard lays it out. */
  lemma EncodeWellFormed(b: GoodBlock)
    ensures EncodeLanes(Lanes(b)) == (FromBytes(Coded(b)), Sync(b))
  {
    ScanWellFormed(b, 8);
    assert Lanes(b)[..8] == Lanes(b);
    FinishWellFormed(b, FromBytes(Blanks(Lanes(b))));
    PayloadWellFormed(b);
  }

  // ---- any eight lanes ----

  predicate IsData(l: Lane) { !l.ctrl }

  predicate IsControl(l: Lane, c: nat) { l.ctrl && l.data == c }

  /** Lane k holds /S/ or /T/ and no later lane does. */
  ghost predicate LastMark(lanes: seq<Lane>, k: nat) {
    && k < |lanes| && (IsControl(lanes[k], START) || IsControl(lanes[k], TERMINATE))
    && forall i :: k < i < |lanes| ==> !IsControl(lanes[i], START) && !IsControl(lanes[i], TERMINATE)
  }

  ghost predicate Has(lanes: seq<Lane>, c: nat) {
    exists i :: 0 <= i < |lanes| && IsControl(lanes[i], c)
  }

  lemma HasSnoc(lanes: seq<Lane>, l: Lane, c: nat)
    ensures Has(lanes + [l], c) <==> Has(lanes, c) || IsControl(l, c)
  {
    var all := lanes + [l];
    if Has(lanes, c) {
      var i :| 0 <= i < |lanes| && IsControl(lanes[i], c);
      assert IsControl(all[i], c);
    }
    if IsControl(l, c) {
      assert IsControl(all[|lanes|], c);
    }
  }

  lemma {:induction false} ScanCounts(lanes: seq<Lane>)
    ensures var s := ScanLanes(lanes);
            && s.db <= |lanes| && (s.db == |lanes| <==> forall i :: 0 <= i < |lanes| ==> IsData(lanes[i]))
            && s.idle <= |lanes| && (s.idle == |lanes| <==> forall i :: 0 <= i < |lanes| ==> IsControl(lanes[i], IDLE))
  {
    if lanes != [] {
      ScanCounts(lanes[..|lanes| - 1]);
    }
  }

  lemma {:induction false} ScanMarks(lanes: seq<Lane>)
    ensures var s := ScanLanes(lanes);
            && (s.start <==> Has(lanes, START)) && (s.end <==> Has(lanes, TERMINATE))
            && (s.start || s.end ==> LastMark(lanes, s.index))
  {
    if lanes != [] {
      var rest, l := lanes[..|lanes| - 1], lanes[|lanes| - 1];
      ScanMarks(rest);
      assert lanes == rest + [l];
      HasSnoc(rest, l, START);
      HasSnoc(rest, l, TERMINATE);
    }
  }

  /** pcs_encode on any eight lanes, well-formed or not; k is the last lane with /S/ or /T/, if there is one. */
  lemma EncodeAnyLanes(lanes: seq<Lane>, k: nat)
    requires |lanes| == 8
    requires Has(lanes, START) || Has(lanes, TERMINATE) ==> LastMark(lanes, k)
    ensures EncodeLanes(lanes).1 == 2 <==> forall i :: 0 <= i < 8 ==> IsData(lanes[i])
    ensures EncodeLanes(lanes).1 in {1, 2}
    ensures forall i :: 0 <= i < 8 ==>
              Blanks(lanes)[i] == if lanes[i].ctrl && lanes[i].data in {IDLE, START, TERMINATE} then 0 else lanes[i].data
    ensures EncodeLanes(lanes).0 ==
            if forall i :: 0 <= i < 8 ==> IsControl(lanes[i], IDLE) then 0x1e
            else if Has(lanes, START) then FromBytes(Blanks(lanes)) + (if k == 0 then 0x78 else if k == 4 then 0x33 else 0)
            else if Has(lanes, TERMINATE) then 256 * FromBytes(Blanks(lanes)) + TermCode(k)
            else FromBytes(Blanks(lanes))
  {
    ScanCounts(lanes);
    ScanMarks(lanes);
    if Has(lanes, START) || Has(lanes, TERMINATE) {
      OneLastMark(lanes, k, ScanLanes(lanes).index);
    }
  }

  lemma OneLastMark(lanes: seq<Lane>, j: nat, k: nat)
    requires LastMark(lanes, j) && LastMark(lanes, k)
    ensures j == k
  {
    if j < k {
      assert false;
    }
  }

  // ---- pcs_decode ----

  /** Bytes k to k + n - 1 of e as data lanes. */
  function ByteLanes(e: nat, k: nat, n: nat): (r: seq<Lane>)
    ensures |r| == n
  {
    seq(n, j requires 0 <= j < n => Lane(false, ByteAt(e, k + j)))
  }

  /** append_idle: n data bytes above the type field, /T/, idles. */
  function TermLanes(e: nat, n: nat): (r: seq<Lane>)
    requires n <= 7
    ensures |r| == 8
  {
    ByteLanes(e / 256, 0, n) + [Lane(true, TERMINATE)] + IdleLanes(7 - n)
  }

  /** The lanes pcs_decode appends for one block: none when the type is unknown. */
  function DecodeBlock(e: nat, sync: nat): seq<Lane> {
    if sync == 2 then ByteLanes(e, 0, 8)
    else if e == 0x1e then IdleLanes(8)
    else match ByteAt(e, 0)
      case 0x78 => [Lane(true, START)] + ByteLanes(e, 1, 7)
      case 0x33 => IdleLanes(4) + [Lane(true, START)] + ByteLanes(e, 5, 3)
      case 0x87 => TermLanes(e, 0)
      case 0x99 => TermLanes(e, 1)
      case 0xaa => TermLanes(e, 2)
      case 0xb4 => TermLanes(e, 3)
      case 0xcc => TermLanes(e, 4)
      case 0xd2 => TermLanes(e, 5)
      case 0xe1 => TermLanes(e, 6)
      case 0xff => TermLanes(e, 7)
      case _ => []
  }

  /** The type fields pcs_decode knows besides idle. */
  const KNOWN_TYPES: set<nat> := {0x78, 0x33, 0x87, 0x99, 0xaa, 0xb4, 0xcc, 0xd2, 0xe1, 0xff}

  /** Whatever pcs_decode reads, it appends eight lanes or none: none if and only if the control type is unknown. */
  lemma DecodesAllOrNothing(e: nat, sync: nat)
    ensures |DecodeBlock(e, sync)| in {0, 8}
    ensures DecodeBlock(e, sync) == [] <==> sync != 2 && e != 0x1e && e % 256 !in KNOWN_TYPES
  {
    assert ByteAt(e, 0) == e % 256;
  }

  function DecodeBlocks(encoded: seq<nat>, sync: seq<nat>): seq<Lane>
    requires |encoded| == |sync|
  {
    if encoded == [] then []
    else
      var k := |encoded| - 1;
      DecodeBlocks(encoded[..k], sync[..k]) + DecodeBlock(encoded[k], sync[k])
  }

  lemma ByteLanesOf(ds: seq<Byte>, k: nat, n: nat)
    requires k + n <= |ds|
    ensures ByteLanes(FromBytes(ds), k, n) == DataLanes(ds[k..k + n])
  {
    forall j | 0 <= j < n
      ensures ByteLanes(FromBytes(ds), k, n)[j] == DataLanes(ds[k..k + n])[j]
    {
      ByteAtFromBytes(ds, k + j);
    }
  }

  /** The lanes pcs_decode reads from a terminate block. */
  lemma DecodeTerm(b: GoodBlock)
    requires b.Term?
    ensures TermLanes(FromBytes(Coded(b)), |b.bytes|) == Lanes(b)
  {
    var e, n := FromBytes(Coded(b)), |b.bytes|;
    ByteLanesOf(Coded(b)[1..], 0, n);
    assert e / 256 == FromBytes(Coded(b)[1..]);
    assert Coded(b)[1..][0..n] == b.bytes;
  }

  /** The reference decoder undoes the reference encoder on every well-formed block. */
  lemma DecodeEncodeBlock(b: GoodBlock)
    ensures DecodeBlock(FromBytes(Coded(b)), Sync(b)) == Lanes(b)
  {
    var e, bs := FromBytes(Coded(b)), Coded(b);
    ByteAtFromBytes(bs, 0);
    match b
    case Data(ds) =>
      ByteLanesOf(bs, 0, 8);
      assert bs[0..8] == ds;
    case Idle =>
      PayloadWellFormed(b);
    case Start0(ds) =>
      ByteLanesOf(bs, 1, 7);
      assert bs[1..8] == ds;
    case Start4(ds) =>
      ByteLanesOf(bs, 5, 3);
      assert bs[5..8] == ds;
    case Term(ds) =>
      DecodeTerm(b);
  }

  lemma LanesOfSnoc(data: seq<Byte>, control: seq<bool>, d: Byte, c: bool)
    requires |data| == |control|
    ensures LanesOf(data + [d], control + [c]) == LanesOf(data, control) + [Lane(c, d)]
  {}

  /** for j in range(n): append byte k + j of e as data */
  method AppendBytes(e: nat, k: nat, n: nat, data0: seq<Byte>, control0: seq<bool>)
    returns (data: seq<Byte>, control: seq<bool>)
    requires |data0| == |control0|
    ensures |data| == |control| && LanesOf(data, control) == LanesOf(data0, control0) + ByteLanes(e, k, n)
  {
    data, control := data0, control0;
    for j := 0 to n
      invariant |data| == |control| && LanesOf(data, control) == LanesOf(data0, control0) + ByteLanes(e, k, j)
    {
      LanesOfSnoc(data, control, ByteAt(e, k + j), false);
      data := data + [ByteAt(e, k + j)];
      control := control + [false];
      assert ByteLanes(e, k, j + 1) == ByteLanes(e, k, j) + [Lane(false, ByteAt(e, k + j))];
    }
  }

  /** for j in range(n): append an idle character */
  method AppendIdles(n: nat, data0: seq<Byte>, control0: seq<bool>) returns (data: seq<Byte>, control: seq<bool>)
    requires |data0| == |control0|
    ensures |data| == |control| && LanesOf(data, control) == LanesOf(data0, control0) + IdleLanes(n)
  {
    data, control := data0, control0;
    for j := 0 to n
      invariant |data| == |control| && LanesOf(data, control) == LanesOf(data0, control0) + IdleLanes(j)
    {
      LanesOfSnoc(data, control, IDLE, true);
      data := data + [IDLE];
      control := control + [true];
      assert IdleLanes(j + 1) == IdleLanes(j) + [Lane(true, IDLE)];
    }
  }

  method AppendControl(c: Byte, data0: seq<Byte>, control0: seq<bool>) returns (data: seq<Byte>, control: seq<bool>)
    requires |data0| == |control0|
    ensures |data| == |control| && LanesOf(data, control) == LanesOf(data0, control0) + [Lane(true, c)]
  {
    data, control := data0 + [c], control0 + [true];
  }

  /** append_idle */
  method AppendTerm(e: nat, n: nat, data0: seq<Byte>, control0: seq<bool>)
    returns (data: seq<Byte>, control: seq<bool>)
    requires |data0| == |control0| && n <= 7
    ensures |data| == |control| && LanesOf(data, control) == LanesOf(data0, control0) + TermLanes(e, n)
  {
    data, control := AppendBytes(e / 256, 0, n, data0, control0);
    data, control := AppendControl(TERMINATE, data, control);
    data, control := AppendIdles(7 - n, data, control);
    assert LanesOf(data, control) == LanesOf(data0, control0) + TermLanes(e, n);
  }

  /** One iteration of pcs_decode. */
  method PcsDecodeBlock(e: nat, sync: nat, data0: seq<Byte>, control0: seq<bool>)
    returns (data: seq<Byte>, control: seq<bool>)
    requires |data0| == |control0|
    ensures |data| == |control| && LanesOf(data, control) == LanesOf(data0, control0) + DecodeBlock(e, sync)
  {
    ghost var lanes0 := LanesOf(data0, control0);
    if sync == 2 {
      data, control := AppendBytes(e, 0, 8, data0, control0);
    } else if e == 0x1e {
      data, control := AppendIdles(8, data0, control0);
    } else {
      var blocktype := ByteAt(e, 0);
      if blocktype == 0x78 {
        data, control := AppendControl(START, data0, control0);
        data, control := AppendBytes(e, 1, 7, data, control);
      } else if blocktype == 0x33 {
        data, control := AppendIdles(4, data0, control0);
        data, control := AppendControl(START, data, control);
        data, control := AppendBytes(e, 5, 3, data, control);
        assert LanesOf(data, control) == lanes0 + DecodeBlock(e, sync);
      } else if blocktype == 0x87 {
        data, control := AppendTerm(e, 0, data0, control0);
      } else if blocktype == 0x99 {
        data, control := AppendTerm(e, 1, data0, control0);
      } else if blocktype == 0xaa {
        data, control := AppendTerm(e, 2, data0, control0);
      } else if blocktype == 0xb4 {
        data, control := AppendTerm(e, 3, data0, control0);
      } else if blocktype == 0xcc {
        data, control := AppendTerm(e, 4, data0, control0);
      } else if blocktype == 0xd2 {
        data, control := AppendTerm(e, 5, data0, control0);
      } else if blocktype == 0xe1 {
        data, control := AppendTerm(e, 6, data0, control0);
      } else if blocktype == 0xff {
        data, control := AppendTerm(e, 7, data0, control0);
      } else {
        data, control := data0, control0;
      }
    }
  }

  /** pcs_decode */
  method PcsDecode(encoded: seq<nat>, sync: seq<nat>) returns (data: seq<Byte>, control: seq<bool>)
    requires |encoded| == |sync|
    ensures |data| == |control| && LanesOf(data, control) == DecodeBlocks(encoded, sync)
  {
    data, control := [], [];
    for i := 0 to |encoded|
      invariant |data| == |control| && LanesOf(data, control) == DecodeBlocks(encoded[..i], sync[..i])
    {
      data, control := PcsDecodeBlock(encoded[i], sync[i], data, control);
      assert encoded[..i + 1][..i] == encoded[..i] && sync[..i + 1][..i] == sync[..i];
    }
    assert encoded[..|encoded|] == encoded && sync[..|encoded|] == sync;
  }

  /**
    pcs_decode undoes pcs_encode: decoding what PcsEncode returns for a stream
    of well-formed blocks gives the stream back, lane for lane.
   */
  lemma {:induction false} DecodeUndoesEncode(bs: seq<GoodBlock>, ndata: seq<nat>, nsync: seq<nat>)
    requires |ndata| == |nsync| == |bs|
    requires forall i :: 0 <= i < |bs| ==> (ndata[i], nsync[i]) == EncodeLanes(Stream(bs)[8 * i..8 * i + 8])
    ensures DecodeBlocks(ndata, nsync) == Stream(bs)
    ensures forall i :: 0 <= i < |bs| ==> ndata[i] == FromBytes(Coded(bs[i])) && nsync[i] == Sync(bs[i])
  {
    forall i | 0 <= i < |bs|
      ensures ndata[i] == FromBytes(Coded(bs[i])) && nsync[i] == Sync(bs[i])
    {
      StreamIndex(bs, i);
      EncodeWellFormed(bs[i]);
    }
    DecodeCoded(bs, ndata, nsync);
  }

  lemma {:induction false} DecodeCoded(bs: seq<GoodBlock>, ndata: seq<nat>, nsync: seq<nat>)
    requires |ndata| == |nsync| == |bs|
    requires forall i :: 0 <= i < |bs| ==> ndata[i] == FromBytes(Coded(bs[i])) && nsync[i] == Sync(bs[i])
    ensures DecodeBlocks(ndata, nsync) == Stream(bs)
  {
    if bs != [] {
      var k := |bs| - 1;
      DecodeCoded(bs[..k], ndata[..k], nsync[..k]);
      DecodeEncodeBlock(bs[k]);
    }
  }

  /**
    The reference decoder is not transparent to DTP: an idle block that carries
    a message is decoded to eight idles exactly when the message is all zero;
    otherwise the block vanishes from the stream.
   */
  lemma IdleWithMessage(m: nat)
    ensures DecodeBlock(0x1e + 256 * m, 1) == if m == 0 then IdleLanes(8) else []
  {
    assert ByteAt(0x1e + 256 * m, 0) == 0x1e;
  }
}
