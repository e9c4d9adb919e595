/**
  The hardware decoder against the reference encoder: every well-formed XGMII
  block survives encoding and hardware decoding.
 */
module LineCode {
  import opened Bits
  import opened Xgmii
  import opened Pcs
  import opened Decoder

  /** The 66-bit block of an encoder result, sync header first (print_scrambled). */
  function Framed(sync: nat, payload: Word): (v: Word)
    requires |payload| == 64
    ensures |v| == 66
  {
    ToBits(sync, 2) + payload
  }

  /** A block as pcs_encode hands it to the scrambler. */
  function LineBlock(b: GoodBlock): (v: Word)
    ensures |v| == 66
  {
    Framed(Sync(b), ToBits(FromBytes(Coded(b)), 64))
  }

  // ---- bytes of a payload ----

  /** Byte b below r: the low eight bits are b, the rest is r. */
  lemma ToBitsOverByte(b: Byte, r: nat, k: nat)
    ensures ToBits(b + 256 * r, 8 + k) == ToBits(b, 8) + ToBits(r, k)
  {
    ToBitsOver(b, 256, r, 8, k);
  }

  lemma {:induction false} ToBitsOver(b: nat, unit: nat, r: nat, m: nat, k: nat)
    requires b < unit && unit == Pow2(m)
    ensures ToBits(b + unit * r, m + k) == ToBits(b, m) + ToBits(r, k)
    decreases m
  {
    if m > 0 {
      var half := Pow2(m - 1);
      HalfOver(b, half, r);
      ToBitsOver(b / 2, half, r, m - 1, k);
      assert ToBits(b, m) == [b % 2 == 1] + ToBits(b / 2, m - 1);
    }
  }

  lemma HalfOver(b: nat, half: nat, r: nat)
    ensures (b + 2 * half * r) % 2 == b % 2 && (b + 2 * half * r) / 2 == b / 2 + half * r
  {
    assert 2 * half * r == 2 * (half * r);
  }

  function Pow2(m: nat): nat {
    if m == 0 then 1 else 2 * Pow2(m - 1)
  }

  lemma {:induction false} PayloadBytes(ds: seq<Byte>, j: nat)
    requires j < |ds|
    ensures ToBits(FromBytes(ds), 8 * |ds|)[8 * j..8 * j + 8] == ToBits(ds[j], 8)
  {
    var rest := ds[1..];
    var k := 8 * |rest|;
    assert 8 * |ds| == 8 + k;
    var low, high := ToBits(ds[0], 8), ToBits(FromBytes(rest), k);
    ToBitsOverByte(ds[0], FromBytes(rest), k);
    assert ToBits(FromBytes(ds), 8 + k) == low + high;
    if j == 0 {
      assert (low + high)[0..8] == low;
    } else {
      PayloadBytes(rest, j - 1);
      SliceHigh(low, high, 8 * (j - 1));
    }
  }

  lemma SliceHigh(low: Word, high: Word, i: nat)
    requires |low| == 8 && i + 8 <= |high|
    ensures (low + high)[i + 8..i + 16] == high[i..i + 8]
  {
  }

  lemma LineBytes(b: GoodBlock, j: nat)
    requires j < 8
    ensures ByteOf(LineBlock(b), j) == ToBits(Coded(b)[j], 8)
  {
    PayloadBytes(Coded(b), j);
    assert LineBlock(b)[2..] == ToBits(FromBytes(Coded(b)), 64);
  }

  // ---- type fields and control codes ----

  /** The bit of type_reg a block sets; 15, no bit, for a data block. */
  function TypeBit(b: GoodBlock): nat {
    match b
    case Data(_) => 15
    case Idle => 0
    case Start4(_) => 2
    case Start0(_) => 5
    case Term(bs) => 7 + |bs|
  }

  function Bit(b: bool): nat { if b then 1 else 0 }

  /** The number a word spells. */
  function Val(w: Word): nat {
    if w == [] then 0 else Bit(w[0]) + 2 * Val(w[1..])
  }

  lemma {:induction false} ValToBits(n: nat, k: nat)
    requires n < Pow2(k)
    ensures Val(ToBits(n, k)) == n
    decreases k
  {
    if k > 0 {
      ValToBits(n / 2, k - 1);
      assert ToBits(n, k)[1..] == ToBits(n / 2, k - 1);
    }
  }

  function Val8(t: Word): nat
    requires |t| == 8
  {
    Bit(t[0]) + 2 * Bit(t[1]) + 4 * Bit(t[2]) + 8 * Bit(t[3]) + 16 * Bit(t[4]) + 32 * Bit(t[5]) + 64 * Bit(t[6]) + 128 * Bit(t[7])
  }

  lemma ValOfEight(t: Word)
    requires |t| == 8
    ensures Val(t) == Val8(t)
  {
    assert t[1..][1..] == t[2..] && t[2..][1..] == t[3..] && t[3..][1..] == t[4..] && t[4..][1..] == t[5..];
    assert t[5..][1..] == t[6..] && t[6..][1..] == t[7..] && t[7..][1..] == [];
    assert Val(t[7..]) == Bit(t[7]);
    assert Val(t[6..]) == Bit(t[6]) + 2 * Val(t[7..]);
    assert Val(t[5..]) == Bit(t[5]) + 2 * Val(t[6..]);
    assert Val(t[4..]) == Bit(t[4]) + 2 * Val(t[5..]);
    assert Val(t[3..]) == Bit(t[3]) + 2 * Val(t[4..]);
    assert Val(t[2..]) == Bit(t[2]) + 2 * Val(t[3..]);
    assert Val(t[1..]) == Bit(t[1]) + 2 * Val(t[2..]);
  }

  /** Every comparator recognises exactly its own type field. */
  lemma ComparatorsLow(t: Word)
    requires |t| == 8
    ensures Types(t)[0] <==> Val8(t) == 0x1e
    ensures Types(t)[1] <==> Val8(t) == 0x2d
    ensures Types(t)[2] <==> Val8(t) == 0x33
    ensures Types(t)[3] <==> Val8(t) == 0x66
  {}

  lemma ComparatorsMiddle(t: Word)
    requires |t| == 8
    ensures Types(t)[4] <==> Val8(t) == 0x55
    ensures Types(t)[5] <==> Val8(t) == 0x78
    ensures Types(t)[6] <==> Val8(t) == 0x4b
  {}

  lemma ComparatorsHigh(t: Word)
    requires |t| == 8
    ensures Types(t)[7] <==> Val8(t) == 0x87
    ensures Types(t)[8] <==> Val8(t) == 0x99
    ensures Types(t)[9] <==> Val8(t) == 0xaa
    ensures Types(t)[10] <==> Val8(t) == 0xb4
    ensures Types(t)[11] <==> Val8(t) == 0xcc
    ensures Types(t)[12] <==> Val8(t) == 0xd2
    ensures Types(t)[13] <==> Val8(t) == 0xe1
    ensures Types(t)[14] <==> Val8(t) == 0xff
  {}

  /** Bit i of t is set, and no other. */
  predicate OneHot(t: Word, i: nat)
    requires |t| == 15
  {
    && t[0] == (i == 0)
    && t[1] == (i == 1)
    && t[2] == (i == 2)
    && t[3] == (i == 3)
    && t[4] == (i == 4)
    && t[5] == (i == 5)
    && t[6] == (i == 6)
    && t[7] == (i == 7)
    && t[8] == (i == 8)
    && t[9] == (i == 9)
    && t[10] == (i == 10)
    && t[11] == (i == 11)
    && t[12] == (i == 12)
    && t[13] == (i == 13)
    && t[14] == (i == 14)
  }

  /** Exactly one comparator recognises the type field of a control block. */
  lemma TypesOneHot(b: GoodBlock)
    requires !b.Data?
    ensures OneHot(Types(ToBits(Coded(b)[0], 8)), TypeBit(b))
  {
    var code := Coded(b)[0];
    assert Pow2(8) == 256;
    ValToBits(code, 8);
    ValOfEight(ToBits(code, 8));
    ComparatorsLow(ToBits(code, 8));
    ComparatorsMiddle(ToBits(code, 8));
    ComparatorsHigh(ToBits(code, 8));
  }

  lemma {:induction false} ToBitsZero(k: nat, i: nat)
    requires i < k
    ensures !ToBits(0, k)[i]
  {
    if i > 0 {
      ToBitsZero(k - 1, i - 1);
    }
  }

  /** Bits that belong to zero bytes are zero. */
  lemma ZeroBit(b: GoodBlock, k: nat)
    requires 2 <= k < 66 && Coded(b)[(k - 2) / 8] == 0
    ensures !LineBlock(b)[k]
  {
    LineBytes(b, (k - 2) / 8);
    ZeroByteBit(LineBlock(b), k);
  }

  lemma ZeroByteBit(v: Word, k: nat)
    requires |v| == 66 && 2 <= k < 66 && ByteOf(v, (k - 2) / 8) == ToBits(0, 8)
    ensures !v[k]
  {
    var j, i := (k - 2) / 8, (k - 2) % 8;
    ToBitsZero(8, i);
    assert v[k] == ByteOf(v, j)[i];
  }

  /** The payload bytes an idle lane's control code reaches into are zero. */
  lemma IdleBytes(b: GoodBlock, i: nat, j: nat)
    requires i < 8 && Lanes(b)[i] == Lane(true, IDLE) && (8 + 7 * i) / 8 <= j <= (14 + 7 * i) / 8
    ensures j < 8 && Coded(b)[j] == 0
  {
    match b
    case Term(bs) =>
      assert |bs| < i;
    case _ =>
  }

  lemma IdleBit(b: GoodBlock, i: nat, k: nat)
    requires i < 8 && Lanes(b)[i] == Lane(true, IDLE) && k < 7
    ensures !LineBlock(b)[10 + 7 * i + k]
  {
    IdleBytes(b, i, (8 + 7 * i + k) / 8);
    ZeroBit(b, 10 + 7 * i + k);
  }

  lemma ZeroCode(code: Word)
    requires |code| == 7 && forall k :: 0 <= k < 7 ==> !code[k]
    ensures ControlChar(code) == ToBits(IDLE, 8)
  {}

  lemma IdleBits(b: GoodBlock, i: nat, code: Word)
    requires i < 8 && Lanes(b)[i] == Lane(true, IDLE) && code == LineBlock(b)[10 + 7 * i..17 + 7 * i]
    ensures |code| == 7 && forall k :: 0 <= k < 7 ==> !code[k]
  {
    forall k | 0 <= k < 7
      ensures !code[k]
    {
      IdleBit(b, i, k);
    }
  }

  /** The control code of an idle lane is all zero. */
  lemma IdleCode(b: GoodBlock, i: nat)
    requires i < 8 && Lanes(b)[i] == Lane(true, IDLE)
    ensures ControlChar(LineBlock(b)[10 + 7 * i..17 + 7 * i]) == ToBits(IDLE, 8)
  {
    var code := LineBlock(b)[10 + 7 * i..17 + 7 * i];
    IdleBits(b, i, code);
    ZeroCode(code);
  }

  // ---- the lanes ----

  function OutOf(l: Lane): Out { Out(ToBits(l.data, 8), l.ctrl) }

  /** x is what stage 1 hands to lane i for block b. */
  ghost predicate Staging(b: GoodBlock, i: nat, x: Stage1)
    requires i < 8
  {
    && StageWide(x)
    && OneHot(x.typeReg, TypeBit(b))
    && (forall j :: 0 <= j < 8 ==> ByteOf(x.dataField, j) == ToBits(Coded(b)[j], 8))
    && (Lanes(b)[i] == Lane(true, IDLE) ==> x.control == ToBits(IDLE, 8))
  }

  lemma TypeRegOf(b: GoodBlock)
    ensures OneHot(TypeReg(LineBlock(b)), TypeBit(b))
  {
    var v := LineBlock(b);
    LineBytes(b, 0);
    assert v[2..10] == ByteOf(v, 0);
    HeaderBits(b);
    if !b.Data? {
      TypesOneHot(b);
    }
  }

  /** The header tells data from control. */
  lemma HeaderBits(b: GoodBlock)
    ensures ControlWord(LineBlock(b)) == !b.Data? && DataWord(LineBlock(b)) == b.Data?
  {
    assert ToBits(1, 2) == [true, false] && ToBits(2, 2) == [false, true];
  }

  lemma StageIsStaging(b: GoodBlock, i: nat)
    requires i < 8
    ensures Staging(b, i, StageOf(i, LineBlock(b)))
  {
    TypeRegOf(b);
    forall j | 0 <= j < 8
      ensures ByteOf(LineBlock(b), j) == ToBits(Coded(b)[j], 8)
    {
      LineBytes(b, j);
    }
    if Lanes(b)[i] == Lane(true, IDLE) {
      IdleCode(b, i);
    }
  }

  /** What lane k shows when bit i of type_reg is set; 15 stands for a data block. */
  function Shown(k: nat, i: nat, x: Stage1): Out
    requires k < 8 && StageWide(x)
  {
    if i == 0 || (i == 2 && k < 4) || 7 <= i < 7 + k then Out(x.control, true)
    else if (i == 2 && k == 4) || (i == 5 && k == 0) then Char(START)
    else if i == 7 + k then Char(TERMINATE)
    else if 7 + k < i <= 14 then Out(ByteOf(x.dataField, k + 1), false)
    else Out(ByteOf(x.dataField, k), false)
  }

  /** The types the reference encoder emits, and data. */
  predicate Emitted(i: nat) {
    i == 0 || i == 2 || i == 5 || 7 <= i <= 15
  }

  lemma Lane0(x: Stage1, i: nat)
    requires StageWide(x) && Emitted(i) && OneHot(x.typeReg, i)
    ensures ForLane0(x) == Shown(0, i, x)
  {}

  lemma Lane1(x: Stage1, i: nat)
    requires StageWide(x) && Emitted(i) && OneHot(x.typeReg, i)
    ensures ForLane1(x) == Shown(1, i, x)
  {}

  lemma Lane2(x: Stage1, i: nat)
    requires StageWide(x) && Emitted(i) && OneHot(x.typeReg, i)
    ensures ForLane2(x) == Shown(2, i, x)
  {}

  lemma Lane3(x: Stage1, i: nat)
    requires StageWide(x) && Emitted(i) && OneHot(x.typeReg, i)
    ensures ForLane3(x) == Shown(3, i, x)
  {}

  lemma Lane4(x: Stage1, i: nat)
    requires StageWide(x) && Emitted(i) && OneHot(x.typeReg, i)
    ensures ForLane4(x) == Shown(4, i, x)
  {}

  lemma Lane5(x: Stage1, i: nat)
    requires StageWide(x) && Emitted(i) && OneHot(x.typeReg, i)
    ensures ForLane5(x) == Shown(5, i, x)
  {}

  lemma Lane6(x: Stage1, i: nat)
    requires StageWide(x) && Emitted(i) && OneHot(x.typeReg, i)
    ensures ForLane6(x) == Shown(6, i, x)
  {}

  lemma Lane7(x: Stage1, i: nat)
    requires StageWide(x) && Emitted(i) && OneHot(x.typeReg, i)
    ensures ForLane7(x) == Shown(7, i, x)
  {}

  lemma LanesShow(k: nat, x: Stage1, i: nat)
    requires k < 8 && StageWide(x) && Emitted(i) && OneHot(x.typeReg, i)
    ensures ForLane(k, x) == Shown(k, i, x)
  {
    match k
    case 0 => Lane0(x, i);
    case 1 => Lane1(x, i);
    case 2 => Lane2(x, i);
    case 3 => Lane3(x, i);
    case 4 => Lane4(x, i);
    case 5 => Lane5(x, i);
    case 6 => Lane6(x, i);
    case 7 => Lane7(x, i);
  }

  lemma ShownIsTermLane(b: GoodBlock, k: nat, x: Stage1)
    requires k < 8 && Staging(b, k, x) && b.Term?
    ensures Shown(k, TypeBit(b), x) == OutOf(Lanes(b)[k])
  {
    var n := |b.bytes|;
    if k < n {
      assert Coded(b)[k + 1] == b.bytes[k] && Lanes(b)[k] == Lane(false, b.bytes[k]);
      assert ByteOf(x.dataField, k + 1) == ToBits(Coded(b)[k + 1], 8);
    } else if k == n {
      assert Lanes(b)[k] == Lane(true, TERMINATE);
    } else {
      assert Lanes(b)[k] == Lane(true, IDLE);
    }
  }

  /** Outside terminate blocks a data byte keeps its place. */
  lemma DataInPlace(b: GoodBlock, k: nat)
    requires k < 8 && !b.Term? && !Lanes(b)[k].ctrl
    ensures Coded(b)[k] == Lanes(b)[k].data
    ensures b.Data? || (b.Start0? && k > 0) || (b.Start4? && k > 4)
  {}

  lemma ShownIsDataLane(b: GoodBlock, k: nat, x: Stage1)
    requires k < 8 && Staging(b, k, x) && !b.Term? && !Lanes(b)[k].ctrl
    ensures Shown(k, TypeBit(b), x) == OutOf(Lanes(b)[k])
  {
    DataInPlace(b, k);
    assert Shown(k, TypeBit(b), x) == Out(ByteOf(x.dataField, k), false);
  }

  lemma ShownIsControlLane(b: GoodBlock, k: nat, x: Stage1)
    requires k < 8 && Staging(b, k, x) && !b.Term? && Lanes(b)[k].ctrl
    ensures Shown(k, TypeBit(b), x) == OutOf(Lanes(b)[k])
  {
    assert Lanes(b)[k].data == IDLE || (Lanes(b)[k].data == START && k == if b.Start0? then 0 else 4);
  }

  /** What is shown is the lane of the block. */
  lemma ShownIsLane(b: GoodBlock, k: nat, x: Stage1)
    requires k < 8 && Staging(b, k, x)
    ensures Shown(k, TypeBit(b), x) == OutOf(Lanes(b)[k])
  {
    if b.Term? {
      ShownIsTermLane(b, k, x);
    } else if Lanes(b)[k].ctrl {
      ShownIsControlLane(b, k, x);
    } else {
      ShownIsDataLane(b, k, x);
    }
  }

  /** Lane i of the hardware decoder returns lane i of the encoded block. */
  lemma LaneCorrect(b: GoodBlock, i: nat)
    requires i < 8
    ensures DecodeLane(i, LineBlock(b)) == OutOf(Lanes(b)[i])
  {
    StageIsStaging(b, i);
    var x := StageOf(i, LineBlock(b));
    LanesShow(i, x, TypeBit(b));
    ShownIsLane(b, i, x);
  }

  /** Eight lanes as the 72-bit word {ctrl7, data7, ..., ctrl0, data0}. */
  function XgmiiWord(lanes: seq<Lane>): Word {
    if lanes == [] then []
    else XgmiiWord(lanes[..|lanes| - 1]) + ToBits(lanes[|lanes| - 1].data, 8) + [lanes[|lanes| - 1].ctrl]
  }

  lemma {:induction false} JoinOfLanes(outs: seq<Out>, lanes: seq<Lane>)
    requires |outs| == |lanes| && forall i :: 0 <= i < |outs| ==> outs[i] == OutOf(lanes[i])
    ensures Join(outs) == XgmiiWord(lanes)
  {
    if outs != [] {
      JoinOfLanes(outs[..|outs| - 1], lanes[..|outs| - 1]);
    }
  }

  /** The hardware decoder undoes the reference encoder on every well-formed block. */
  lemma DecoderUndoesEncoder(b: GoodBlock)
    ensures DecodeWord(LineBlock(b)) == XgmiiWord(Lanes(b))
  {
    var v := LineBlock(b);
    var outs := seq(8, i requires 0 <= i < 8 => DecodeLane(i, v));
    forall i | 0 <= i < 8
      ensures outs[i] == OutOf(Lanes(b)[i])
    {
      LaneCorrect(b, i);
    }
    JoinOfLanes(outs, Lanes(b));
  }

  /** The hardware decoder and pcs_decode agree on every block the encoder emits. */
  lemma DecodersAgree(b: GoodBlock)
    ensures var (e, sync) := EncodeLanes(Lanes(b));
            DecodeWord(Framed(sync, ToBits(e, 64))) == XgmiiWord(DecodeBlock(e, sync))
  {
    EncodeWellFormed(b);
    DecodeEncodeBlock(b);
    DecoderUndoesEncoder(b);
  }

  // ---- the debug counters ----

  function Count(lanes: seq<Lane>, p: Lane -> bool): nat {
    if lanes == [] then 0 else Count(lanes[..|lanes| - 1], p) + (if p(lanes[|lanes| - 1]) then 1 else 0)
  }

  lemma {:induction false} CountAppend(a: seq<Lane>, b: seq<Lane>, p: Lane -> bool)
    ensures Count(a + b, p) == Count(a, p) + Count(b, p)
  {
    if b == [] {
      assert a + b == a;
    } else {
      CountAppend(a, b[..|b| - 1], p);
      assert (a + b)[..|a + b| - 1] == a + b[..|b| - 1];
    }
  }

  lemma {:induction false} CountUniform(lanes: seq<Lane>, p: Lane -> bool, yes: bool)
    requires forall i :: 0 <= i < |lanes| ==> p(lanes[i]) == yes
    ensures Count(lanes, p) == if yes then |lanes| else 0
  {
    if lanes != [] {
      CountUniform(lanes[..|lanes| - 1], p, yes);
    }
  }

  function IsData(): Lane -> bool { (l: Lane) => !l.ctrl }
  function IsStart(): Lane -> bool { (l: Lane) => l == Lane(true, START) }
  function IsTerm(): Lane -> bool { (l: Lane) => l == Lane(true, TERMINATE) }

  /** The counts of a lane sequence: data lanes, /S/ and /T/ characters. */
  function Counts(lanes: seq<Lane>): (nat, nat, nat) {
    (Count(lanes, IsData()), Count(lanes, IsStart()), Count(lanes, IsTerm()))
  }

  function Plus(a: (nat, nat, nat), b: (nat, nat, nat)): (nat, nat, nat) {
    (a.0 + b.0, a.1 + b.1, a.2 + b.2)
  }

  lemma CountsAppend(a: seq<Lane>, b: seq<Lane>)
    ensures Counts(a + b) == Plus(Counts(a), Counts(b))
  {
    CountAppend(a, b, IsData());
    CountAppend(a, b, IsStart());
    CountAppend(a, b, IsTerm());
  }

  lemma CountsOfData(bs: seq<Byte>)
    ensures Counts(DataLanes(bs)) == (|bs|, 0, 0)
  {
    CountUniform(DataLanes(bs), IsData(), true);
    CountUniform(DataLanes(bs), IsStart(), false);
    CountUniform(DataLanes(bs), IsTerm(), false);
  }

  lemma CountsOfIdle(n: nat)
    ensures Counts(IdleLanes(n)) == (0, 0, 0)
  {
    CountUniform(IdleLanes(n), IsData(), false);
    CountUniform(IdleLanes(n), IsStart(), false);
    CountUniform(IdleLanes(n), IsTerm(), false);
  }

  lemma CountsOfOne(l: Lane)
    ensures Counts([l]) == (if IsData()(l) then 1 else 0, if IsStart()(l) then 1 else 0, if IsTerm()(l) then 1 else 0)
  {
    CountUniform([l], IsData(), IsData()(l));
    CountUniform([l], IsStart(), IsStart()(l));
    CountUniform([l], IsTerm(), IsTerm()(l));
  }

  /** What a block adds to the three counters. */
  function CountsOf(b: GoodBlock): (nat, nat, nat) {
    match b
    case Data(_) => (8, 0, 0)
    case Idle => (0, 0, 0)
    case Start0(_) => (7, 1, 0)
    case Start4(_) => (3, 1, 0)
    case Term(bs) => (|bs|, 0, 1)
  }

  lemma CountsOfThree(a: seq<Lane>, b: seq<Lane>, c: seq<Lane>)
    ensures Counts(a + b + c) == Plus(Plus(Counts(a), Counts(b)), Counts(c))
  {
    CountsAppend(a, b);
    CountsAppend(a + b, c);
  }

  lemma CountsOfBlock(b: GoodBlock)
    ensures Counts(Lanes(b)) == CountsOf(b)
  {
    match b
    case Data(bs) =>
      CountsOfData(bs);
    case Idle =>
      CountsOfIdle(8);
    case Start0(bs) =>
      CountsOfOne(Lane(true, START));
      CountsOfData(bs);
      CountsAppend([Lane(true, START)], DataLanes(bs));
    case Start4(bs) =>
      CountsOfIdle(4);
      CountsOfOne(Lane(true, START));
      CountsOfData(bs);
      CountsOfThree(IdleLanes(4), [Lane(true, START)], DataLanes(bs));
    case Term(bs) =>
      CountsOfData(bs);
      CountsOfOne(Lane(true, TERMINATE));
      CountsOfIdle(7 - |bs|);
      CountsOfThree(DataLanes(bs), [Lane(true, TERMINATE)], IdleLanes(7 - |bs|));
  }

  function AsDebug(c: (nat, nat, nat), idles: nat, frames: nat): Debug {
    Debug(c.0, c.1, c.2, idles, frames)
  }

  lemma DeltaOfBlock(b: GoodBlock)
    ensures Delta(LineBlock(b)) == AsDebug(CountsOf(b), if b.Idle? then 1 else 0, 1)
  {
    var v := LineBlock(b);
    LineBytes(b, 0);
    assert v[2..10] == ByteOf(v, 0);
    HeaderBits(b);
    if !b.Data? {
      TypesOneHot(b);
    }
  }

  function LineBlocks(bs: seq<GoodBlock>): (r: seq<Word>)
    ensures |r| == |bs| && AllWide(r, 66)
  {
    seq(|bs|, i requires 0 <= i < |bs| => LineBlock(bs[i]))
  }

  function IdleBlocks(bs: seq<GoodBlock>): nat {
    if bs == [] then 0 else IdleBlocks(bs[..|bs| - 1]) + (if bs[|bs| - 1].Idle? then 1 else 0)
  }

  function DebugOf(b: GoodBlock): Debug {
    AsDebug(CountsOf(b), if b.Idle? then 1 else 0, 1)
  }

  /** The counts of a stream, block by block. */
  lemma {:induction false} SumOfBlocks(bs: seq<GoodBlock>, ds: seq<Debug>)
    requires |ds| == |bs| && forall i :: 0 <= i < |bs| ==> ds[i] == DebugOf(bs[i])
    ensures Sum(ds) == AsDebug(Counts(Stream(bs)), IdleBlocks(bs), |bs|)
  {
    if bs != [] {
      var k := |bs| - 1;
      SumOfBlocks(bs[..k], ds[..k]);
      CountsOfBlock(bs[k]);
      CountsAppend(Stream(bs[..k]), Lanes(bs[k]));
    }
  }

  /**
    On a well-formed stream the debug counters count its data lanes, its /S/
    and its /T/ characters; the counter named errorframes counts idle blocks.
   */
  lemma CountersCount(bs: seq<GoodBlock>)
    ensures Total(LineBlocks(bs)) == AsDebug(Counts(Stream(bs)), IdleBlocks(bs), |bs|)
  {
    var ds := Deltas(LineBlocks(bs));
    forall i | 0 <= i < |bs|
      ensures ds[i] == DebugOf(bs[i])
    {
      DeltaOfBlock(bs[i]);
    }
    SumOfBlocks(bs, ds);
  }

  /** The same for any run of the decoder, whatever the interleaving, modulo 2^64. */
  lemma CountersOfRun(run: seq<State>, n: nat, bs: seq<GoodBlock>)
    requires IsRun(run) && n < |run| && |run[n].fifoIn| <= |run[n].put| && Accepted(run[n]) == LineBlocks(bs)
    ensures run[n].dbg == Wrap(AsDebug(Counts(Stream(bs)), IdleBlocks(bs), |bs|))
  {
    DecoderIsDeterministic(run, n);
    CountersCount(bs);
  }
}
