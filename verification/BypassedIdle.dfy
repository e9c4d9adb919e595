/**
  What the decoder makes of an idle block that still carries a DTP message, as
  it does when the stripper is bypassed.
 */
module BypassedIdle {
  import opened Bits
  import opened Xgmii
  import opened Decoder
  import opened LineCode

  /** An idle block with any payload. */
  ghost predicate IdleBlock(v: Word) {
    |v| == 66 && v[..2] == ToBits(1, 2) && v[2..10] == ToBits(0x1e, 8)
  }

  /** The 7-bit control code of lane k. */
  function Code(v: Word, k: nat): Word
    requires |v| == 66 && k < 8
  {
    v[10 + 7 * k..17 + 7 * k]
  }

  /** Header and type field decide what a block is. */
  lemma SameType(v: Word, w: Word)
    requires |v| == |w| == 66 && v[..2] == w[..2] && v[2..10] == w[2..10]
    ensures TypeReg(v) == TypeReg(w)
  {
    assert v[0] == v[..2][0] && v[1] == v[..2][1] && w[0] == w[..2][0] && w[1] == w[..2][1];
    assert ControlWord(v) == ControlWord(w);
    forall i | 0 <= i < 15
      ensures TypeReg(v)[i] == TypeReg(w)[i]
    {}
  }

  lemma PlainIdle()
    ensures LineBlock(Idle)[..2] == ToBits(1, 2) && LineBlock(Idle)[2..10] == ToBits(0x1e, 8)
  {
    LineBytes(Idle, 0);
    assert LineBlock(Idle)[2..10] == ByteOf(LineBlock(Idle), 0);
  }

  lemma IdleType(v: Word)
    requires IdleBlock(v)
    ensures OneHot(TypeReg(v), 0)
  {
    PlainIdle();
    TypeRegOf(Idle);
    SameType(v, LineBlock(Idle));
  }

  /** Every lane shows its own control code as a character. */
  lemma LaneShowsCode(v: Word, k: nat)
    requires IdleBlock(v) && k < 8
    ensures DecodeLane(k, v) == Out(ControlChar(Code(v, k)), true)
  {
    IdleType(v);
    LanesShow(k, StageOf(k, v), 0);
  }

  lemma AllFalse(code: Word)
    requires |code| == 7
    ensures Is7(code, false, false, false, false, false, false, false) <==> code == Zeros(7)
  {
    if Is7(code, false, false, false, false, false, false, false) {
      assert forall k :: 0 <= k < 7 ==> !code[k];
    }
  }

  /** Only the zero code is an idle character. */
  lemma OnlyZeroIsIdle(code: Word)
    requires |code| == 7
    ensures ControlChar(code) == ToBits(IDLE, 8) <==> code == Zeros(7)
  {
    AllFalse(code);
    NotIdle(0x1c);
    NotIdle(0x3c);
    NotIdle(0x7c);
    NotIdle(0xbc);
    NotIdle(0xdc);
    NotIdle(0xf7);
    NotIdle(0xfe);
  }

  lemma NotIdle(n: nat)
    requires n / 16 % 2 == 1
    ensures ToBits(n, 8) != ToBits(IDLE, 8)
  {
    BitFour(n);
    BitFour(IDLE);
  }

  /** Bit 4 of a character: clear in idle, set in every other one. */
  lemma BitFour(n: nat)
    ensures ToBits(n, 8)[4] == (n / 16 % 2 == 1)
  {
    assert ToBits(n, 8)[4] == ToBits(n / 2, 7)[3] == ToBits(n / 2 / 2, 6)[2];
    assert ToBits(n / 2 / 2, 6)[2] == ToBits(n / 2 / 2 / 2, 5)[1] == ToBits(n / 2 / 2 / 2 / 2, 4)[0];
    assert n / 2 / 2 / 2 / 2 == n / 16;
  }

  // ---- the word determines the lanes ----

  ghost predicate Octets(outs: seq<Out>) {
    forall i :: 0 <= i < |outs| ==> |outs[i].data| == 8
  }

  lemma {:induction false} JoinLength(outs: seq<Out>)
    requires Octets(outs)
    ensures |Join(outs)| == 9 * |outs|
  {
    if outs != [] {
      JoinLength(outs[..|outs| - 1]);
    }
  }

  lemma {:induction false} JoinInjective(a: seq<Out>, b: seq<Out>)
    requires Octets(a) && Octets(b) && |a| == |b| && Join(a) == Join(b)
    ensures a == b
  {
    if a != [] {
      var k := |a| - 1;
      JoinLength(a[..k]);
      JoinLength(b[..k]);
      SplitEnd(Join(a[..k]), a[k], Join(b[..k]), b[k]);
      JoinInjective(a[..k], b[..k]);
    }
  }

  lemma JoinDecides(a: seq<Out>, b: seq<Out>)
    requires Octets(a) && Octets(b) && |a| == |b|
    ensures Join(a) == Join(b) <==> a == b
  {
    if Join(a) == Join(b) {
      JoinInjective(a, b);
    }
  }

  lemma SplitEnd(u: Word, x: Out, w: Word, y: Out)
    requires |u| == |w| && |x.data| == |y.data| && u + x.data + [x.ctrl] == w + y.data + [y.ctrl]
    ensures u == w && x == y
  {
    var s, t := u + x.data + [x.ctrl], w + y.data + [y.ctrl];
    assert s[..|u|] == u && t[..|u|] == w;
    assert s[|u|..|u| + |x.data|] == x.data && t[|u|..|u| + |x.data|] == y.data;
    assert s[|s| - 1] == x.ctrl && t[|t| - 1] == y.ctrl;
  }

  // ---- the condition ----

  function Outs(v: Word): (r: seq<Out>)
    requires |v| == 66
    ensures |r| == 8
  {
    seq(8, i requires 0 <= i < 8 => DecodeLane(i, v))
  }

  function IdleOuts(): (r: seq<Out>)
    ensures |r| == 8
  {
    seq(8, _ => Out(ToBits(IDLE, 8), true))
  }

  lemma IdleWord()
    ensures Join(IdleOuts()) == XgmiiWord(Lanes(Idle))
  {
    JoinOfLanes(IdleOuts(), Lanes(Idle));
  }

  lemma OutsOfIdle(v: Word)
    requires IdleBlock(v)
    ensures Octets(Outs(v)) && (Outs(v) == IdleOuts() <==> forall k :: 0 <= k < 8 ==> Code(v, k) == Zeros(7))
  {
    forall k | 0 <= k < 8
      ensures Outs(v)[k] == Out(ControlChar(Code(v, k)), true)
      ensures Outs(v)[k] == IdleOuts()[k] <==> Code(v, k) == Zeros(7)
    {
      LaneShowsCode(v, k);
      OnlyZeroIsIdle(Code(v, k));
    }
  }

  lemma WordIsJoin(v: Word)
    requires |v| == 66
    ensures DecodeWord(v) == Join(Outs(v))
  {
    HeadsDecode(v, Outs(v));
  }

  lemma CodesAreZero(v: Word)
    requires |v| == 66
    ensures (forall k :: 0 <= k < 8 ==> Code(v, k) == Zeros(7)) <==> v[10..] == Zeros(56)
  {
    if forall k :: 0 <= k < 8 ==> Code(v, k) == Zeros(7) {
      forall j | 0 <= j < 56
        ensures !v[10..][j]
      {
        assert Code(v, j / 7)[j % 7] == v[10 + j];
      }
    }
    if v[10..] == Zeros(56) {
      forall k | 0 <= k < 8
        ensures Code(v, k) == Zeros(7)
      {
        assert Code(v, k) == v[10..][7 * k..7 * k + 7];
      }
    }
  }

  lemma OutsDecide(v: Word)
    requires IdleBlock(v)
    ensures Octets(Outs(v)) && (Outs(v) == IdleOuts() <==> v[10..] == Zeros(56))
  {
    OutsOfIdle(v);
    CodesAreZero(v);
  }

  lemma WordDecides(v: Word, w: Word)
    requires |v| == 66 && Octets(Outs(v)) && w == Join(IdleOuts())
    ensures DecodeWord(v) == w <==> Outs(v) == IdleOuts()
  {
    WordIsJoin(v);
    JoinDecides(Outs(v), IdleOuts());
  }

  /** An idle block that was not stripped decodes to eight idles if and only if its message is zero. */
  lemma IdleSurvives(v: Word)
    requires IdleBlock(v)
    ensures DecodeWord(v) == XgmiiWord(Lanes(Idle)) <==> v[10..] == Zeros(56)
  {
    OutsDecide(v);
    IdleWord();
    WordDecides(v, XgmiiWord(Lanes(Idle)));
  }
}
