/**
  The receive decoder of hw/bsv/Decoder.bsv: stage1_decode splits a 66-bit
  block over eight lanes, each lane has its own rule and FIFOs, and for_output
  joins the lanes into a 72-bit XGMII word.
 */
module Decoder {
  import opened Bits

  // ---- combinational logic ----

  /** The fifteen type comparators, in the bit order of type_reg. */
  function Types(t: Word): (r: Word)
    requires |t| == 8
    ensures |r| == 15
  {
    [ !t[7] && !t[6] && !t[5] && t[4] && t[3] && t[2] && t[1] && !t[0],      // 1e
      !t[7] && !t[6] && t[5] && !t[4] && t[3] && t[2] && !t[1] && t[0],      // 2d
      !t[7] && !t[6] && t[5] && t[4] && !t[3] && !t[2] && t[1] && t[0],      // 33
      !t[7] && t[6] && t[5] && !t[4] && !t[3] && t[2] && t[1] && !t[0],      // 66
      !t[7] && t[6] && !t[5] && t[4] && !t[3] && t[2] && !t[1] && t[0],      // 55
      !t[7] && t[6] && t[5] && t[4] && t[3] && !t[2] && !t[1] && !t[0],      // 78
      !t[7] && t[6] && !t[5] && !t[4] && t[3] && !t[2] && t[1] && t[0],      // 4b
      t[7] && !t[6] && !t[5] && !t[4] && !t[3] && t[2] && t[1] && t[0],      // 87
      t[7] && !t[6] && !t[5] && t[4] && t[3] && !t[2] && !t[1] && t[0],      // 99
      t[7] && !t[6] && t[5] && !t[4] && t[3] && !t[2] && t[1] && !t[0],      // aa
      t[7] && !t[6] && t[5] && t[4] && !t[3] && t[2] && !t[1] && !t[0],      // b4
      t[7] && t[6] && !t[5] && !t[4] && t[3] && t[2] && !t[1] && !t[0],      // cc
      t[7] && t[6] && !t[5] && t[4] && !t[3] && !t[2] && t[1] && !t[0],      // d2
      t[7] && t[6] && t[5] && !t[4] && !t[3] && !t[2] && !t[1] && t[0],      // e1
      t[7] && t[6] && t[5] && t[4] && t[3] && t[2] && t[1] && t[0] ]         // ff
  }

  predicate ControlWord(v: Word)
    requires |v| == 66
  {
    v[0] && !v[1]
  }

  predicate DataWord(v: Word)
    requires |v| == 66
  {
    !v[0] && v[1]
  }

  function TypeReg(v: Word): (r: Word)
    requires |v| == 66
    ensures |r| == 15
  {
    var ty := Types(v[2..10]);
    seq(15, i requires 0 <= i < 15 => ControlWord(v) && ty[i])
  }

  /** A 7-bit comparator, most significant bit first. */
  predicate Is7(c: Word, b6: bool, b5: bool, b4: bool, b3: bool, b2: bool, b1: bool, b0: bool)
    requires |c| == 7
  {
    c[6] == b6 && c[5] == b5 && c[4] == b4 && c[3] == b3 && c[2] == b2 && c[1] == b1 && c[0] == b0
  }

  /** A 7-bit control code as an XGMII character: idle, the reserved characters, else error. */
  function ControlChar(code: Word): (r: Word)
    requires |code| == 7
    ensures |r| == 8
  {
    if Is7(code, false, false, false, false, false, false, false) then ToBits(0x07, 8)
    else if Is7(code, false, true, false, true, true, false, true) then ToBits(0x1c, 8)
    else if Is7(code, false, true, true, false, false, true, true) then ToBits(0x3c, 8)
    else if Is7(code, true, false, false, true, false, true, true) then ToBits(0x7c, 8)
    else if Is7(code, true, false, true, false, true, false, true) then ToBits(0xbc, 8)
    else if Is7(code, true, true, false, false, true, true, false) then ToBits(0xdc, 8)
    else if Is7(code, true, true, true, true, false, false, false) then ToBits(0xf7, 8)
    else ToBits(0xfe, 8)
  }

  /** What stage1_decode enqueues for one lane. */
  datatype Stage1 = Stage1(typeReg: Word, control: Word, dataField: Word, seq9c: bool, seq5c: bool)

  ghost predicate StageWide(x: Stage1) {
    |x.typeReg| == 15 && |x.control| == 8 && |x.dataField| == 66
  }

  function StageOf(i: nat, v: Word): (x: Stage1)
    requires |v| == 66 && i < 8
    ensures StageWide(x)
  {
    var ty, c := Types(v[2..10]), ControlWord(v);
    var lane0 := c && (ty[3] || ty[4] || ty[6]);
    var lane4 := c && (ty[1] || ty[4]);
    Stage1(TypeReg(v), ControlChar(v[10 + 7 * i..17 + 7 * i]), v,
           if i == 0 then lane0 && !v[35] && !v[34] && !v[33] && !v[32]
           else i == 4 && lane4 && !v[39] && !v[38] && !v[37] && !v[36],
           if i == 0 then lane0 && v[35] && v[34] && v[33] && v[32]
           else i == 4 && lane4 && v[39] && v[38] && v[37] && v[36])
  }

  /** One lane of the output. */
  datatype Out = Out(data: Word, ctrl: bool)

  /** Byte j of the data field. */
  function ByteOf(v: Word, j: nat): (r: Word)
    requires |v| == 66 && j < 8
    ensures |r| == 8
  {
    v[2 + 8 * j..10 + 8 * j]
  }

  function Char(n: nat): Out { Out(ToBits(n, 8), true) }

  function ForLane0(x: Stage1): Out
    requires StageWide(x)
  {
    var t := x.typeReg;
    if t[0] || t[1] || t[2] then Out(x.control, true)
    else if t[3] && x.seq9c then Char(0x9c)
    else if t[3] && x.seq5c then Char(0x5c)
    else if t[4] && x.seq9c then Char(0x9c)
    else if t[4] && x.seq5c then Char(0x5c)
    else if t[5] then Char(0xfb)
    else if t[6] && x.seq9c then Char(0x9c)
    else if t[6] && x.seq5c then Char(0x5c)
    else if t[7] then Char(0xfd)
    else if t[8] || t[9] || t[10] || t[11] || t[12] || t[13] || t[14] then Out(ByteOf(x.dataField, 1), false)
    else Out(ByteOf(x.dataField, 0), false)
  }

  function ForLane1(x: Stage1): Out
    requires StageWide(x)
  {
    var t := x.typeReg;
    if t[0] || t[1] || t[2] then Out(x.control, true)
    else if t[3] || t[4] || t[5] || t[6] then Out(ByteOf(x.dataField, 1), false)
    else if t[7] then Out(x.control, true)
    else if t[8] then Char(0xfd)
    else if t[9] || t[10] || t[11] || t[12] || t[13] || t[14] then Out(ByteOf(x.dataField, 2), false)
    else Out(ByteOf(x.dataField, 1), false)
  }

  function ForLane2(x: Stage1): Out
    requires StageWide(x)
  {
    var t := x.typeReg;
    if t[0] || t[1] || t[2] || t[7] || t[8] then Out(x.control, true)
    else if t[3] || t[4] || t[5] || t[6] then Out(ByteOf(x.dataField, 2), false)
    else if t[9] then Char(0xfd)
    else if t[10] || t[11] || t[12] || t[13] || t[14] then Out(ByteOf(x.dataField, 3), false)
    else Out(ByteOf(x.dataField, 2), false)
  }

  function ForLane3(x: Stage1): Out
    requires StageWide(x)
  {
    var t := x.typeReg;
    if t[0] || t[1] || t[2] || t[7] || t[8] || t[9] then Out(x.control, true)
    else if t[3] || t[4] || t[5] || t[6] then Out(ByteOf(x.dataField, 3), false)
    else if t[10] then Char(0xfd)
    else if t[11] || t[12] || t[13] || t[14] then Out(ByteOf(x.dataField, 4), false)
    else Out(ByteOf(x.dataField, 3), false)
  }

  function ForLane4(x: Stage1): Out
    requires StageWide(x)
  {
    var t := x.typeReg;
    if t[0] || t[6] || t[7] || t[8] || t[9] || t[10] then Out(x.control, true)
    else if t[1] && x.seq9c then Char(0x9c)
    else if t[1] && x.seq5c then Char(0x5c)
    else if t[2] then Char(0xfb)
    else if t[3] then Char(0xfb)
    else if t[4] && x.seq9c then Char(0x9c)
    else if t[4] && x.seq5c then Char(0x5c)
    else if t[5] then Out(ByteOf(x.dataField, 4), false)
    else if t[11] then Char(0xfd)
    else if t[12] || t[13] || t[14] then Out(ByteOf(x.dataField, 5), false)
    else Out(ByteOf(x.dataField, 4), false)
  }

  function ForLane5(x: Stage1): Out
    requires StageWide(x)
  {
    var t := x.typeReg;
    if t[0] || t[6] || t[7] || t[8] || t[9] || t[10] || t[11] then Out(x.control, true)
    else if t[1] || t[2] || t[3] || t[4] || t[5] then Out(ByteOf(x.dataField, 5), false)
    else if t[12] then Char(0xfd)
    else if t[13] || t[14] then Out(ByteOf(x.dataField, 6), false)
    else Out(ByteOf(x.dataField, 5), false)
  }

  function ForLane6(x: Stage1): Out
    requires StageWide(x)
  {
    var t := x.typeReg;
    if t[0] || t[6] || t[7] || t[8] || t[9] || t[10] || t[11] || t[12] then Out(x.control, true)
    else if t[1] || t[2] || t[3] || t[4] || t[5] then Out(ByteOf(x.dataField, 6), false)
    else if t[13] then Char(0xfd)
    else if t[14] then Out(ByteOf(x.dataField, 7), false)
    else Out(ByteOf(x.dataField, 6), false)
  }

  function ForLane7(x: Stage1): Out
    requires StageWide(x)
  {
    var t := x.typeReg;
    if t[0] || t[6] || t[7] || t[8] || t[9] || t[10] || t[11] || t[12] || t[13] then Out(x.control, true)
    else if t[1] || t[2] || t[3] || t[4] || t[5] then Out(ByteOf(x.dataField, 7), false)
    else if t[14] then Char(0xfd)
    else Out(ByteOf(x.dataField, 7), false)
  }

  function ForLane(i: nat, x: Stage1): Out
    requires i < 8 && StageWide(x)
  {
    match i
    case 0 => ForLane0(x)
    case 1 => ForLane1(x)
    case 2 => ForLane2(x)
    case 3 => ForLane3(x)
    case 4 => ForLane4(x)
    case 5 => ForLane5(x)
    case 6 => ForLane6(x)
    case 7 => ForLane7(x)
  }

  /** Lane i of the decoded block v. */
  function DecodeLane(i: nat, v: Word): Out
    requires i < 8 && |v| == 66
  {
    ForLane(i, StageOf(i, v))
  }

  /** {ctrl7, data7, ..., ctrl0, data0} */
  function Join(outs: seq<Out>): Word {
    if outs == [] then [] else Join(outs[..|outs| - 1]) + outs[|outs| - 1].data + [outs[|outs| - 1].ctrl]
  }

  function DecodeWord(v: Word): Word
    requires |v| == 66
  {
    Join(seq(8, i requires 0 <= i < 8 => DecodeLane(i, v)))
  }

  // ---- the debug counters ----

  datatype Debug = Debug(bytes: nat, starts: nat, ends: nat, errorframes: nat, frames: nat)

  const WRAP64: nat := 0x1_0000_0000_0000_0000

  function Add(d: Debug, e: Debug): Debug {
    Debug(d.bytes + e.bytes, d.starts + e.starts, d.ends + e.ends, d.errorframes + e.errorframes, d.frames + e.frames)
  }

  function Wrap(d: Debug): Debug {
    Debug(d.bytes % WRAP64, d.starts % WRAP64, d.ends % WRAP64, d.errorframes % WRAP64, d.frames % WRAP64)
  }

  /** What one block adds to the counters. */
  function Delta(v: Word): Debug
    requires |v| == 66
  {
    var ty := Types(v[2..10]);
    if DataWord(v) then Debug(8, 0, 0, 0, 1)
    else if ty[0] then Debug(0, 0, 0, 1, 1)
    else if ty[2] then Debug(3, 1, 0, 0, 1)
    else if ty[5] then Debug(7, 1, 0, 0, 1)
    else if ty[7] then Debug(0, 0, 1, 0, 1)
    else if ty[8] then Debug(1, 0, 1, 0, 1)
    else if ty[9] then Debug(2, 0, 1, 0, 1)
    else if ty[10] then Debug(3, 0, 1, 0, 1)
    else if ty[11] then Debug(4, 0, 1, 0, 1)
    else if ty[12] then Debug(5, 0, 1, 0, 1)
    else if ty[13] then Debug(6, 0, 1, 0, 1)
    else if ty[14] then Debug(7, 0, 1, 0, 1)
    else Debug(0, 0, 0, 0, 1)
  }

  function Sum(ds: seq<Debug>): Debug {
    if ds == [] then Debug(0, 0, 0, 0, 0) else Add(Sum(ds[..|ds| - 1]), ds[|ds| - 1])
  }

  function Deltas(vs: seq<Word>): (r: seq<Debug>)
    requires AllWide(vs, 66)
    ensures |r| == |vs|
  {
    seq(|vs|, k requires 0 <= k < |vs| => Delta(vs[k]))
  }

  /** The counts over a sequence of blocks. */
  function Total(vs: seq<Word>): Debug
    requires AllWide(vs, 66)
  {
    Sum(Deltas(vs))
  }

  lemma WrapAdd(d: Debug, e: Debug)
    ensures Wrap(Add(Wrap(d), e)) == Wrap(Add(d, e))
  {
    ModAdd(d.bytes, e.bytes);
    ModAdd(d.starts, e.starts);
    ModAdd(d.ends, e.ends);
    ModAdd(d.errorframes, e.errorframes);
    ModAdd(d.frames, e.frames);
  }

  lemma ModAdd(a: nat, b: nat)
    ensures (a % WRAP64 + b) % WRAP64 == (a + b) % WRAP64
  {}

  // ---- the module ----

  /** FIFOs and counters, with all blocks put in and all words taken out so far. */
  datatype State = State(fifoIn: seq<Word>, laneIn: seq<seq<Stage1>>, laneOut: seq<seq<Out>>, fifoOut: seq<Word>,
                         dbg: Debug, put: seq<Word>, got: seq<Word>)

  const RESET_STATE := State([], [[], [], [], [], [], [], [], []], [[], [], [], [], [], [], [], []], [],
                             Debug(0, 0, 0, 0, 0), [], [])

  predicate CanPut(s: State) { s.fifoIn == [] }

  function Put(s: State, v: Word): State {
    s.(fifoIn := s.fifoIn + [v], put := s.put + [v])
  }

  predicate CanStage1(s: State) {
    s.fifoIn != [] && forall i :: 0 <= i < |s.laneIn| ==> |s.laneIn[i]| < 2
  }

  /** What stage1_decode computes for the eight lanes. */
  function StageAll(v: Word): (r: seq<Stage1>)
    requires |v| == 66
    ensures |r| == 8
  {
    seq(8, i requires 0 <= i < 8 => StageOf(i, v))
  }

  /** One item added to every lane. */
  function Push<T>(lanes: seq<seq<T>>, items: seq<T>): (r: seq<seq<T>>)
    requires |lanes| == |items|
    ensures |r| == |lanes|
  {
    seq(|lanes|, i requires 0 <= i < |lanes| => lanes[i] + [items[i]])
  }

  function Stage1Decode(s: State): State
    requires CanStage1(s) && |s.laneIn| == 8 && |s.fifoIn[0]| == 66
  {
    var v := s.fifoIn[0];
    s.(fifoIn := s.fifoIn[1..],
       laneIn := Push(s.laneIn, StageAll(v)),
       dbg := Wrap(Add(s.dbg, Delta(v))))
  }

  predicate CanLane(s: State, i: nat) {
    i < |s.laneIn| && i < |s.laneOut| && s.laneIn[i] != [] && |s.laneOut[i]| < 2
  }

  function FireLane(s: State, i: nat): State
    requires i < 8 && CanLane(s, i) && StageWide(s.laneIn[i][0])
  {
    s.(laneIn := s.laneIn[i := s.laneIn[i][1..]],
       laneOut := s.laneOut[i := s.laneOut[i] + [ForLane(i, s.laneIn[i][0])]])
  }

  predicate CanOutput(s: State) {
    |s.laneOut| == 8 && s.fifoOut == [] && forall i :: 0 <= i < 8 ==> s.laneOut[i] != []
  }

  function Output(s: State): State
    requires CanOutput(s)
  {
    s.(laneOut := seq(8, i requires 0 <= i < 8 => s.laneOut[i][1..]),
       fifoOut := s.fifoOut + [Join(seq(8, i requires 0 <= i < 8 => s.laneOut[i][0]))])
  }

  predicate CanGet(s: State) { s.fifoOut != [] }

  function Get(s: State): State
    requires CanGet(s)
  {
    s.(fifoOut := s.fifoOut[1..], got := s.got + [s.fifoOut[0]])
  }

  /** The blocks stage1_decode has accepted. */
  function Accepted(s: State): seq<Word>
    requires |s.fifoIn| <= |s.put|
  {
    s.put[..|s.put| - |s.fifoIn|]
  }

  /** What stage1_decode, lane i and for_output make of the blocks vs, block by block. */
  function Staged(i: nat, vs: seq<Word>): (r: seq<Stage1>)
    requires i < 8 && AllWide(vs, 66)
    ensures |r| == |vs|
  {
    seq(|vs|, k requires 0 <= k < |vs| => StageOf(i, vs[k]))
  }

  function Decoded(i: nat, vs: seq<Word>): (r: seq<Out>)
    requires i < 8 && AllWide(vs, 66)
    ensures |r| == |vs|
  {
    seq(|vs|, k requires 0 <= k < |vs| => DecodeLane(i, vs[k]))
  }

  function Words(vs: seq<Word>): (r: seq<Word>)
    requires AllWide(vs, 66)
    ensures |r| == |vs|
  {
    seq(|vs|, k requires 0 <= k < |vs| => DecodeWord(vs[k]))
  }

  /**
    A lane of a pipeline: a is what one stage makes of all items, b what the
    next stage makes of them; q items have left, |done| are past both stages
    and the rest are between the two.
   */
  ghost predicate LaneInv<A, B>(a: seq<A>, b: seq<B>, q: nat, staged: seq<A>, done: seq<B>) {
    && |a| == |b| == q + |done| + |staged|
    && done == b[q..q + |done|]
    && staged == a[q + |done|..]
  }

  /** Words produced so far, taken or not. */
  function Outs(s: State): seq<Word> { s.got + s.fifoOut }

  ghost predicate Shape(s: State) {
    && AllWide(s.put, 66) && |s.fifoIn| <= |s.put|
    && s.fifoIn == s.put[|s.put| - |s.fifoIn|..]
    && |s.laneIn| == |s.laneOut| == 8
  }

  /** Every lane is a pipeline over the accepted blocks, and outs is what left the last stage. */
  ghost predicate LanesInv(acc: seq<Word>, q: nat, laneIn: seq<seq<Stage1>>, laneOut: seq<seq<Out>>)
    requires AllWide(acc, 66) && |laneIn| == |laneOut| == 8
  {
    forall i :: 0 <= i < 8 ==> LaneInv(Staged(i, acc), Decoded(i, acc), q, laneIn[i], laneOut[i])
  }

  ghost predicate Results(acc: seq<Word>, outs: seq<Word>, dbg: Debug)
    requires AllWide(acc, 66)
  {
    outs <= Words(acc) && dbg == Wrap(Total(acc))
  }

  ghost predicate Inv(s: State) {
    && Shape(s)
    && LanesInv(Accepted(s), |Outs(s)|, s.laneIn, s.laneOut)
    && Results(Accepted(s), Outs(s), s.dbg)
  }

  /** Shape, lanes and results make the invariant. */
  lemma MakeInv(t: State, acc: seq<Word>, outs: seq<Word>)
    requires Shape(t) && Accepted(t) == acc && Outs(t) == outs
    requires LanesInv(acc, |outs|, t.laneIn, t.laneOut) && Results(acc, outs, t.dbg)
    ensures Inv(t)
  {}

  lemma PutShape(s: State, v: Word)
    requires Shape(s) && |v| == 66
    ensures Shape(Put(s, v)) && Accepted(Put(s, v)) == Accepted(s)
  {}

  lemma PutKeeps(s: State, v: Word)
    requires Inv(s) && |v| == 66
    ensures Inv(Put(s, v))
  {
    PutShape(s, v);
    MakeInv(Put(s, v), Accepted(s), Outs(s));
  }

  lemma StagedSnoc(i: nat, vs: seq<Word>, v: Word)
    requires i < 8 && AllWide(vs, 66) && |v| == 66
    ensures Staged(i, vs + [v]) == Staged(i, vs) + [StageOf(i, v)]
  {}

  lemma DecodedSnoc(i: nat, vs: seq<Word>, v: Word)
    requires i < 8 && AllWide(vs, 66) && |v| == 66
    ensures Decoded(i, vs + [v]) == Decoded(i, vs) + [DecodeLane(i, v)]
  {}

  lemma LaneAccepts<A, B>(a: seq<A>, b: seq<B>, q: nat, staged: seq<A>, done: seq<B>, x: A, y: B)
    requires LaneInv(a, b, q, staged, done)
    ensures LaneInv(a + [x], b + [y], q, staged + [x], done)
  {}

  lemma LanesAccept(acc: seq<Word>, q: nat, laneIn: seq<seq<Stage1>>, laneOut: seq<seq<Out>>, v: Word, laneIn': seq<seq<Stage1>>)
    requires AllWide(acc, 66) && |laneIn| == |laneOut| == 8 && LanesInv(acc, q, laneIn, laneOut)
    requires |v| == 66 && |laneIn'| == 8 && forall i :: 0 <= i < 8 ==> laneIn'[i] == laneIn[i] + [StageOf(i, v)]
    ensures LanesInv(acc + [v], q, laneIn', laneOut)
  {
    forall i | 0 <= i < 8
      ensures LaneInv(Staged(i, acc + [v]), Decoded(i, acc + [v]), q, laneIn'[i], laneOut[i])
    {
      var a, b := Staged(i, acc), Decoded(i, acc);
      LaneAccepts(a, b, q, laneIn[i], laneOut[i], StageOf(i, v), DecodeLane(i, v));
      StagedSnoc(i, acc, v);
      DecodedSnoc(i, acc, v);
    }
  }

  lemma ResultsAccept(acc: seq<Word>, outs: seq<Word>, dbg: Debug, v: Word)
    requires AllWide(acc, 66) && Results(acc, outs, dbg) && |v| == 66
    ensures Results(acc + [v], outs, Wrap(Add(dbg, Delta(v))))
  {
    assert Words(acc) <= Words(acc + [v]);
    TotalSnoc(acc, v);
    WrapAdd(Total(acc), Delta(v));
  }

  lemma Stage1Shape(s: State)
    requires Shape(s) && CanStage1(s)
    ensures |s.fifoIn[0]| == 66 && Shape(Stage1Decode(s)) && Accepted(Stage1Decode(s)) == Accepted(s) + [s.fifoIn[0]]
  {
    assert s.fifoIn[0] == s.put[|Accepted(s)|];
  }

  lemma Stage1Keeps(s: State)
    requires Inv(s) && CanStage1(s)
    ensures |s.fifoIn[0]| == 66 && Inv(Stage1Decode(s))
  {
    Stage1Shape(s);
    var t, acc, v := Stage1Decode(s), Accepted(s), s.fifoIn[0];
    LanesAccept(acc, |Outs(s)|, s.laneIn, s.laneOut, v, t.laneIn);
    ResultsAccept(acc, Outs(s), s.dbg, v);
    MakeInv(t, acc + [v], Outs(s));
  }

  lemma TotalSnoc(vs: seq<Word>, v: Word)
    requires AllWide(vs, 66) && |v| == 66
    ensures Total(vs + [v]) == Add(Total(vs), Delta(v))
  {
    assert Deltas(vs + [v]) == Deltas(vs) + [Delta(v)];
    SumSnoc(Deltas(vs), Delta(v));
  }

  lemma SumSnoc(ds: seq<Debug>, d: Debug)
    ensures Sum(ds + [d]) == Add(Sum(ds), d)
  {
    assert (ds + [d])[..|ds|] == ds;
  }

  lemma LaneFires<A, B>(a: seq<A>, b: seq<B>, q: nat, staged: seq<A>, done: seq<B>)
    requires LaneInv(a, b, q, staged, done) && staged != []
    ensures var k := q + |done|;
            k < |a| && staged[0] == a[k] && LaneInv(a, b, q, staged[1..], done + [b[k]])
  {}

  lemma LaneKeeps(s: State, i: nat)
    requires Inv(s) && i < 8 && CanLane(s, i)
    ensures StageWide(s.laneIn[i][0]) && Inv(FireLane(s, i))
  {
    var acc, q := Accepted(s), |Outs(s)|;
    LanesFire(acc, q, s.laneIn, s.laneOut, i);
    MakeInv(FireLane(s, i), acc, Outs(s));
  }

  lemma LanesFire(acc: seq<Word>, q: nat, laneIn: seq<seq<Stage1>>, laneOut: seq<seq<Out>>, i: nat)
    requires AllWide(acc, 66) && |laneIn| == |laneOut| == 8 && LanesInv(acc, q, laneIn, laneOut)
    requires i < 8 && laneIn[i] != []
    ensures StageWide(laneIn[i][0])
    ensures LanesInv(acc, q, laneIn[i := laneIn[i][1..]], laneOut[i := laneOut[i] + [ForLane(i, laneIn[i][0])]])
  {
    var k := q + |laneOut[i]|;
    LaneFires(Staged(i, acc), Decoded(i, acc), q, laneIn[i], laneOut[i]);
    assert laneIn[i][0] == StageOf(i, acc[k]);
    assert ForLane(i, laneIn[i][0]) == Decoded(i, acc)[k];
  }

  lemma LaneOutputs<A, B>(a: seq<A>, b: seq<B>, q: nat, staged: seq<A>, done: seq<B>)
    requires LaneInv(a, b, q, staged, done) && done != []
    ensures q < |b| && done[0] == b[q] && LaneInv(a, b, q + 1, staged, done[1..])
  {}

  lemma HeadsDecode(v: Word, heads: seq<Out>)
    requires |v| == 66 && |heads| == 8 && forall i :: 0 <= i < 8 ==> heads[i] == DecodeLane(i, v)
    ensures Join(heads) == DecodeWord(v)
  {
    assert heads == seq(8, i requires 0 <= i < 8 => DecodeLane(i, v));
  }

  lemma LanesOutput(acc: seq<Word>, q: nat, laneIn: seq<seq<Stage1>>, laneOut: seq<seq<Out>>, heads: seq<Out>, tails: seq<seq<Out>>)
    requires AllWide(acc, 66) && |laneIn| == |laneOut| == 8 && LanesInv(acc, q, laneIn, laneOut)
    requires |heads| == |tails| == 8
    requires forall i :: 0 <= i < 8 ==> laneOut[i] != [] && heads[i] == laneOut[i][0] && tails[i] == laneOut[i][1..]
    ensures q < |acc| && LanesInv(acc, q + 1, laneIn, tails) && Join(heads) == Words(acc)[q]
  {
    forall i | 0 <= i < 8
      ensures LaneInv(Staged(i, acc), Decoded(i, acc), q + 1, laneIn[i], tails[i])
      ensures q < |acc| && heads[i] == Decoded(i, acc)[q]
    {
      LaneOutputs(Staged(i, acc), Decoded(i, acc), q, laneIn[i], laneOut[i]);
    }
    assert q < |acc| && heads[0] == Decoded(0, acc)[q];
    HeadsDecode(acc[q], heads);
  }

  lemma OutputKeeps(s: State)
    requires Inv(s) && CanOutput(s)
    ensures Inv(Output(s))
  {
    var t, acc, q := Output(s), Accepted(s), |Outs(s)|;
    var heads := seq(8, i requires 0 <= i < 8 => s.laneOut[i][0]);
    LanesOutput(acc, q, s.laneIn, s.laneOut, heads, t.laneOut);
    ResultsOutput(acc, Outs(s), s.dbg);
    assert Outs(t) == Outs(s) + [Words(acc)[q]];
    MakeInv(t, acc, Outs(s) + [Words(acc)[q]]);
  }

  lemma ResultsOutput(acc: seq<Word>, outs: seq<Word>, dbg: Debug)
    requires AllWide(acc, 66) && Results(acc, outs, dbg) && |outs| < |acc|
    ensures Results(acc, outs + [Words(acc)[|outs|]], dbg)
  {
    PrefixSnoc(outs, Words(acc));
  }

  lemma PrefixSnoc<T>(a: seq<T>, b: seq<T>)
    requires a <= b && |a| < |b|
    ensures a + [b[|a|]] <= b
  {}

  lemma GetShape(s: State)
    requires Shape(s) && CanGet(s)
    ensures Shape(Get(s)) && Accepted(Get(s)) == Accepted(s) && Outs(Get(s)) == Outs(s)
  {}

  lemma GetKeeps(s: State)
    requires Inv(s) && CanGet(s)
    ensures Inv(Get(s))
  {
    GetShape(s);
    MakeInv(Get(s), Accepted(s), Outs(s));
  }

  ghost predicate LaneStep(s: State, i: nat, t: State) {
    i < 8 && CanLane(s, i) && StageWide(s.laneIn[i][0]) && t == FireLane(s, i)
  }

  /** One step of the module or of its surroundings. */
  ghost predicate Next(s: State, t: State) {
    || (exists v: Word :: |v| == 66 && CanPut(s) && t == Put(s, v))
    || (CanStage1(s) && |s.laneIn| == 8 && |s.fifoIn[0]| == 66 && t == Stage1Decode(s))
    || (exists i: nat :: LaneStep(s, i, t))
    || (CanOutput(s) && t == Output(s))
    || (CanGet(s) && t == Get(s))
  }

  lemma NextKeeps(s: State, t: State)
    requires Inv(s) && Next(s, t)
    ensures Inv(t)
  {
    if CanStage1(s) && |s.laneIn| == 8 && |s.fifoIn[0]| == 66 && t == Stage1Decode(s) {
      Stage1Keeps(s);
    } else if CanOutput(s) && t == Output(s) {
      OutputKeeps(s);
    } else if CanGet(s) && t == Get(s) {
      GetKeeps(s);
    } else if i: nat :| LaneStep(s, i, t) {
      LaneKeeps(s, i);
    } else {
      var v: Word :| |v| == 66 && CanPut(s) && t == Put(s, v);
      PutKeeps(s, v);
    }
  }

  /** A run: any interleaving of the ten rules from reset. */
  ghost predicate IsRun(run: seq<State>) {
    && |run| > 0 && run[0] == RESET_STATE
    && forall i :: 0 < i < |run| ==> Next(run[i - 1], run[i])
  }

  lemma ResetInv()
    ensures Inv(RESET_STATE)
  {}

  lemma {:induction false} RunsKeepInv(run: seq<State>, i: nat)
    requires IsRun(run) && i < |run|
    ensures Inv(run[i])
  {
    if i == 0 {
      ResetInv();
    } else {
      RunsKeepInv(run, i - 1);
      NextKeeps(run[i - 1], run[i]);
    }
  }

  /**
    Decoder determinism: however the lane rules interleave, the k-th word out
    is the decode of the k-th block in, and the counters are the counts over
    the accepted blocks modulo 2^64.
   */
  lemma DecoderIsDeterministic(run: seq<State>, n: nat)
    requires IsRun(run) && n < |run|
    ensures var s := run[n];
            && AllWide(s.put, 66) && |s.fifoIn| <= |s.put|
            && |s.got| <= |Accepted(s)|
            && (forall k :: 0 <= k < |s.got| ==> s.got[k] == DecodeWord(s.put[k]))
            && s.dbg == Wrap(Total(Accepted(s)))
  {
    RunsKeepInv(run, n);
    OutputsAreDecoded(run[n]);
  }

  lemma OutputsAreDecoded(s: State)
    requires Inv(s)
    ensures |s.got| + |s.fifoOut| <= |Accepted(s)|
    ensures forall k :: 0 <= k < |s.got| ==> s.got[k] == DecodeWord(s.put[k])
  {
    forall k | 0 <= k < |s.got|
      ensures s.got[k] == DecodeWord(s.put[k])
    {
      assert s.got[k] == Outs(s)[k] == Words(Accepted(s))[k];
    }
  }

  /** The loop of stage1_decode that enqueues into the lanes. */
  method EnqLanes<T>(lanes: seq<seq<T>>, items: seq<T>) returns (r: seq<seq<T>>)
    requires |lanes| == |items|
    ensures r == Push(lanes, items)
  {
    r := [];
    for i := 0 to |lanes|
      invariant |r| == i && forall j :: 0 <= j < i ==> r[j] == lanes[j] + [items[j]]
    {
      r := r + [lanes[i] + [items[i]]];
    }
  }

  /**
    mkDecoder: one method per rule. Each is a step of State and keeps Inv.
   */
  class DecoderModule {
    var fifoIn: seq<Word>
    var laneIn: seq<seq<Stage1>>
    var laneOut: seq<seq<Out>>
    var fifoOut: seq<Word>
    var dbg: Debug
    ghost var put: seq<Word>
    ghost var got: seq<Word>

    ghost function Abs(): State
      reads this
    {
      State(fifoIn, laneIn, laneOut, fifoOut, dbg, put, got)
    }

    constructor ()
      ensures Abs() == RESET_STATE && Inv(Abs())
    {
      fifoIn, fifoOut, put, got := [], [], [], [];
      laneIn := [[], [], [], [], [], [], [], []];
      laneOut := [[], [], [], [], [], [], [], []];
      dbg := Debug(0, 0, 0, 0, 0);
      new;
      ResetInv();
    }

    method Enq(v: Word)
      requires Inv(Abs()) && CanPut(Abs()) && |v| == 66
      modifies this
      ensures Abs() == Put(old(Abs()), v) && Inv(Abs())
    {
      PutKeeps(Abs(), v);
      fifoIn := fifoIn + [v];
      put := put + [v];
    }

    method Deq() returns (v: Word)
      requires Inv(Abs()) && CanGet(Abs())
      modifies this
      ensures Abs() == Get(old(Abs())) && v == old(fifoOut)[0] && Inv(Abs())
    {
      GetKeeps(Abs());
      v := fifoOut[0];
      got := got + [v];
      fifoOut := fifoOut[1..];
    }

    /** rule stage1_decode, while rx_ready is high */
    method Stage1DecodeRule()
      requires Inv(Abs()) && CanStage1(Abs())
      modifies this
      ensures |old(laneIn)| == 8 && |old(fifoIn)[0]| == 66 && Abs() == Stage1Decode(old(Abs())) && Inv(Abs())
    {
      Stage1Keeps(Abs());
      SplitBlock();
    }

    method SplitBlock()
      requires CanStage1(Abs()) && |laneIn| == 8 && |fifoIn[0]| == 66
      modifies this
      ensures Abs() == Stage1Decode(old(Abs()))
    {
      var v := fifoIn[0];
      fifoIn := fifoIn[1..];
      dbg := Wrap(Add(dbg, Delta(v)));
      laneIn := EnqLanes(laneIn, StageAll(v));
    }

    /** rules for_lane0 to for_lane7 */
    method ForLaneRule(i: nat)
      requires Inv(Abs()) && i < 8 && CanLane(Abs(), i)
      modifies this
      ensures StageWide(old(laneIn)[i][0]) && Abs() == FireLane(old(Abs()), i) && Inv(Abs())
    {
      LaneKeeps(Abs(), i);
      MoveLane(i);
    }

    method MoveLane(i: nat)
      requires i < 8 && CanLane(Abs(), i) && StageWide(laneIn[i][0])
      modifies this
      ensures Abs() == FireLane(old(Abs()), i)
    {
      var x := laneIn[i][0];
      laneIn := laneIn[i := laneIn[i][1..]];
      laneOut := laneOut[i := laneOut[i] + [ForLane(i, x)]];
    }

    /** rule for_output */
    method ForOutput()
      requires Inv(Abs()) && CanOutput(Abs())
      modifies this
      ensures Abs() == Output(old(Abs())) && Inv(Abs())
    {
      OutputKeeps(Abs());
      JoinLanes();
    }

    method JoinLanes()
      requires CanOutput(Abs())
      modifies this
      ensures Abs() == Output(old(Abs()))
    {
      var heads, tails := [], [];
      for i := 0 to 8
        invariant |heads| == |tails| == i
        invariant forall j :: 0 <= j < i ==> heads[j] == laneOut[j][0] && tails[j] == laneOut[j][1..]
      {
        heads := heads + [laneOut[i][0]];
        tails := tails + [laneOut[i][1..]];
      }
      ghost var s := Abs();
      assert heads == seq(8, i requires 0 <= i < 8 => s.laneOut[i][0]);
      fifoOut := fifoOut + [Join(heads)];
      laneOut := tails;
    }
  }
}
