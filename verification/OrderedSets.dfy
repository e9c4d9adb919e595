/**
  The parts of hw/bsv/Decoder.bsv that the reference encoder never exercises:
  control codes other than idle, and the four block types with ordered sets.
 */
module OrderedSets {
  import opened Bits
  import opened Decoder
  import LineCode

  // ---- control codes ----

  /** The XGMII character of a 7-bit control code, by number (IEEE 802.3, table 49-1). */
  function CharacterOf(code: nat): nat {
    match code
    case 0x00 => 0x07
    case 0x2d => 0x1c
    case 0x33 => 0x3c
    case 0x4b => 0x7c
    case 0x55 => 0xbc
    case 0x66 => 0xdc
    case 0x78 => 0xf7
    case _ => 0xfe
  }

  /** The number of a 7-bit code. */
  function Val7(c: Word): nat
    requires |c| == 7
  {
    LineCode.Bit(c[0]) + 2 * LineCode.Bit(c[1]) + 4 * LineCode.Bit(c[2]) + 8 * LineCode.Bit(c[3])
    + 16 * LineCode.Bit(c[4]) + 32 * LineCode.Bit(c[5]) + 64 * LineCode.Bit(c[6])
  }

  lemma LowCodes(c: Word)
    requires |c| == 7
    ensures Is7(c, false, false, false, false, false, false, false) <==> Val7(c) == 0x00
    ensures Is7(c, false, true, false, true, true, false, true) <==> Val7(c) == 0x2d
    ensures Is7(c, false, true, true, false, false, true, true) <==> Val7(c) == 0x33
  {}

  lemma HighCodes(c: Word)
    requires |c| == 7
    ensures Is7(c, true, false, false, true, false, true, true) <==> Val7(c) == 0x4b
    ensures Is7(c, true, false, true, false, true, false, true) <==> Val7(c) == 0x55
    ensures Is7(c, true, true, false, false, true, true, false) <==> Val7(c) == 0x66
    ensures Is7(c, true, true, true, true, false, false, false) <==> Val7(c) == 0x78
  {}

  /** Every control code becomes its character; all others become the error character. */
  lemma CodesBecomeCharacters(c: Word)
    requires |c| == 7
    ensures ControlChar(c) == ToBits(CharacterOf(Val7(c)), 8)
  {
    LowCodes(c);
    HighCodes(c);
  }

  // ---- ordered sets ----

  /** The ordered-set types. */
  datatype Kind = Type2d | Type66 | Type55 | Type4b

  function TypeField(k: Kind): nat {
    match k
    case Type2d => 0x2d
    case Type66 => 0x66
    case Type55 => 0x55
    case Type4b => 0x4b
  }

  /** The bit of type_reg for a kind. */
  function KindBit(k: Kind): nat {
    match k
    case Type2d => 1
    case Type66 => 3
    case Type55 => 4
    case Type4b => 6
  }

  /** A control block with the type field of k. */
  predicate KindBlock(v: Word, k: Kind) {
    |v| == 66 && v[0] && !v[1] && LineCode.Val8(v[2..10]) == TypeField(k)
  }

  /** One comparator fires for the field of each kind. */
  lemma KindComparator(t: Word, k: Kind)
    requires |t| == 8 && LineCode.Val8(t) == TypeField(k)
    ensures LineCode.OneHot(Types(t), KindBit(k))
  {
    LineCode.ComparatorsLow(t);
    LineCode.ComparatorsMiddle(t);
    LineCode.ComparatorsHigh(t);
  }

  lemma ControlTypes(v: Word)
    requires |v| == 66 && v[0] && !v[1]
    ensures TypeReg(v) == Types(v[2..10])
  {
    var ty := Types(v[2..10]);
    assert ControlWord(v);
    assert TypeReg(v) == ty;
  }

  lemma KindOneHot(v: Word, k: Kind)
    requires KindBlock(v, k)
    ensures LineCode.OneHot(TypeReg(v), KindBit(k))
  {
    KindComparator(v[2..10], k);
    ControlTypes(v);
  }

  /** The ordered-set code that goes with lane 0, and with lane 4, where the standard puts it. */
  function Code0(v: Word): Word
    requires |v| == 66
  {
    v[34..38]
  }

  function Code4(v: Word): Word
    requires |v| == 66
  {
    v[38..42]
  }

  /** The nibbles the decoder looks at lie two bits lower. */
  function Seen0(v: Word): Word
    requires |v| == 66
  {
    v[32..36]
  }

  function Seen4(v: Word): Word
    requires |v| == 66
  {
    v[36..40]
  }

  /** What a nibble makes of an ordered-set lane: sequence, signal, or the bare data byte. */
  function SetChar(nibble: Word, plain: Out): Out
    requires |nibble| == 4
  {
    if nibble == Zeros(4) then Char(0x9c) else if nibble == Ones(4) then Char(0x5c) else plain
  }

  lemma Nibble(w: Word)
    requires |w| == 4
    ensures w == Zeros(4) <==> !w[3] && !w[2] && !w[1] && !w[0]
    ensures w == Ones(4) <==> w[3] && w[2] && w[1] && w[0]
  {}

  lemma Stage0(v: Word, k: Kind)
    requires KindBlock(v, k) && !k.Type2d?
    ensures StageOf(0, v).seq9c <==> Seen0(v) == Zeros(4)
    ensures StageOf(0, v).seq5c <==> Seen0(v) == Ones(4)
  {
    Nibble(Seen0(v));
    TypeBits(v, k);
  }

  lemma Stage4(v: Word, k: Kind)
    requires KindBlock(v, k) && (k.Type2d? || k.Type55?)
    ensures StageOf(4, v).seq9c <==> Seen4(v) == Zeros(4)
    ensures StageOf(4, v).seq5c <==> Seen4(v) == Ones(4)
  {
    Nibble(Seen4(v));
    TypeBits(v, k);
  }

  lemma TypeBits(v: Word, k: Kind)
    requires KindBlock(v, k)
    ensures ControlWord(v)
    ensures Types(v[2..10])[1] == k.Type2d? && Types(v[2..10])[3] == k.Type66?
    ensures Types(v[2..10])[4] == k.Type55? && Types(v[2..10])[6] == k.Type4b?
  {
    KindComparator(v[2..10], k);
  }

  /** What lane 0 shows of a block of kind k whose ordered-set code is read as nibble. */
  function Shown0(k: Kind, nibble: Word, control: Word, plain: Out): Out
    requires |nibble| == 4
  {
    if k.Type2d? then Out(control, true) else SetChar(nibble, plain)
  }

  /** The same for lane 4. */
  function Shown4(k: Kind, nibble: Word, control: Word, plain: Out): Out
    requires |nibble| == 4
  {
    match k
    case Type66 => Char(0xfb)
    case Type4b => Out(control, true)
    case _ => SetChar(nibble, plain)
  }

  lemma Lane0(x: Stage1, k: Kind, nibble: Word)
    requires StageWide(x) && |nibble| == 4 && LineCode.OneHot(x.typeReg, KindBit(k))
    requires !k.Type2d? ==> (x.seq9c <==> nibble == Zeros(4)) && (x.seq5c <==> nibble == Ones(4))
    ensures ForLane0(x) == Shown0(k, nibble, x.control, Out(ByteOf(x.dataField, 0), false))
  {}

  lemma Lane4(x: Stage1, k: Kind, nibble: Word)
    requires StageWide(x) && |nibble| == 4 && LineCode.OneHot(x.typeReg, KindBit(k))
    requires k.Type2d? || k.Type55? ==> (x.seq9c <==> nibble == Zeros(4)) && (x.seq5c <==> nibble == Ones(4))
    ensures ForLane4(x) == Shown4(k, nibble, x.control, Out(ByteOf(x.dataField, 4), false))
  {}

  /** Lane 0: a control character before an ordered set in lane 4, else the ordered set. */
  lemma FirstLane(v: Word, k: Kind)
    requires KindBlock(v, k)
    ensures DecodeLane(0, v) == Shown0(k, Seen0(v), ControlChar(v[10..17]), Out(ByteOf(v, 0), false))
  {
    KindOneHot(v, k);
    if !k.Type2d? {
      Stage0(v, k);
    }
    Lane0(StageOf(0, v), k, Seen0(v));
  }

  /** Lane 4: the start character, the second ordered set, or a control character. */
  lemma MiddleLane(v: Word, k: Kind)
    requires KindBlock(v, k)
    ensures DecodeLane(4, v) == Shown4(k, Seen4(v), ControlChar(v[38..45]), Out(ByteOf(v, 4), false))
  {
    KindOneHot(v, k);
    if k.Type2d? || k.Type55? {
      Stage4(v, k);
    }
    Lane4(StageOf(4, v), k, Seen4(v));
  }

  /** The other lanes: control characters where the standard has codes, else the data bytes in place. */
  lemma OtherLanes(v: Word, k: Kind, i: nat)
    requires KindBlock(v, k) && i < 8 && i != 0 && i != 4
    ensures DecodeLane(i, v) == if (k.Type2d? && i < 4) || (k.Type4b? && i > 4)
                                then Out(ControlChar(v[10 + 7 * i..17 + 7 * i]), true)
                                else Out(ByteOf(v, i), false)
  {
    KindOneHot(v, k);
    if i == 1 {
    } else if i == 2 {
    } else if i == 3 {
    } else if i == 5 {
    } else if i == 6 {
    }
  }

  /**
    The two bits make a difference: a sequence ordered set, whose code is zero,
    is shown as such in lane 0 if and only if the two top bits of the data byte
    before it are zero.
   */
  lemma SequenceShown(v: Word, k: Kind)
    requires KindBlock(v, k) && !k.Type2d? && Code0(v) == Zeros(4)
    ensures DecodeLane(0, v) == Char(0x9c) <==> !ByteOf(v, 3)[6] && !ByteOf(v, 3)[7]
  {
    FirstLane(v, k);
    Nibble(Code0(v));
    Nibble(Seen0(v));
    assert Seen0(v)[0] == ByteOf(v, 3)[6] && Seen0(v)[1] == ByteOf(v, 3)[7];
    assert Seen0(v)[2] == Code0(v)[0] && Seen0(v)[3] == Code0(v)[1];
    Different();
  }

  /** In lane 4 the bits before are the last two of the first code, or of control code 3. */
  lemma SecondSequenceShown(v: Word, k: Kind)
    requires KindBlock(v, k) && (k.Type2d? || k.Type55?) && Code4(v) == Zeros(4)
    ensures DecodeLane(4, v) == Char(0x9c) <==> !v[36] && !v[37]
  {
    MiddleLane(v, k);
    Nibble(Code4(v));
    Nibble(Seen4(v));
    assert Seen4(v)[0] == v[36] && Seen4(v)[1] == v[37];
    assert Seen4(v)[2] == Code4(v)[0] && Seen4(v)[3] == Code4(v)[1];
    Different();
  }

  lemma Different()
    ensures Char(0x9c) != Char(0x5c)
  {
    assert LineCode.Pow2(8) == 256;
    LineCode.ValToBits(0x9c, 8);
    LineCode.ValToBits(0x5c, 8);
  }
}
