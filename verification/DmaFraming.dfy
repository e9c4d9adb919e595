/**
  Packet framing on the way from host memory to the network, hw/bsv/DmaEth.bsv:
  read commands of any byte length become beats of 16 bytes with start and end
  marks and byte masks.
 */
module DmaFraming {
  import opened Bits
  import Settling

  const WRAP32 := 0x1_0000_0000

  /** num & (a - 1) and the rest of findNearestMultiple for a = 16, on 32 bits. */
  function FindNearestMultiple16(num: nat): nat {
    var x := num % 16;
    (num - x + (if (x + 15) / 16 % 2 == 1 then 16 else 0)) % WRAP32
  }

  /** Beats for len bytes. */
  function Beats(len: nat): nat { (len + 15) / 16 }

  /** The rounded length is the exact length of the beats unless it passes 2^32. */
  lemma RoundsUp(len: nat)
    requires len < WRAP32
    ensures FindNearestMultiple16(len) == 16 * Beats(len) <==> len <= WRAP32 - 16
  {
    var x := len % 16;
    assert len == 16 * (len / 16) + x;
    if x == 0 {
      assert Beats(len) == len / 16;
    } else {
      assert Beats(len) == len / 16 + 1;
    }
  }

  function GenerateBitMask(bytes: nat): (r: Word)
    ensures |r| == 16
  {
    if bytes == 0 || bytes > 16 then Zeros(16) else Shr(Ones(16), 16 - bytes)
  }

  /** The mask of the bytes at the low end. */
  predicate LowOnes(mask: Word, n: nat) {
    |mask| == 16 && forall i :: 0 <= i < 16 ==> mask[i] == (i < n)
  }

  /** Up to 16 bytes select themselves; more select nothing. */
  lemma MaskIsLowOnes(bytes: nat)
    ensures LowOnes(GenerateBitMask(bytes), if bytes <= 16 then bytes else 0)
  {}

  // ---- the beats of one command ----

  datatype Shape = Shape(sop: bool, eop: bool, mask: Word)

  /** Bytes in beat k of a command of len bytes. */
  function BytesIn(len: nat, k: nat): nat {
    if k + 1 < Beats(len) || len % 16 == 0 then 16 else len % 16
  }

  function ShapeOf(len: nat, k: nat): Shape {
    Shape(k == 0, k + 1 == Beats(len), GenerateBitMask(BytesIn(len, k)))
  }

  /** Beats k and on. */
  function FrameFrom(len: nat, k: nat): (r: seq<Shape>)
    ensures |r| == if k <= Beats(len) then Beats(len) - k else 0
  {
    if k >= Beats(len) then [] else seq(Beats(len) - k, i requires 0 <= i < Beats(len) - k => ShapeOf(len, k + i))
  }

  /** The beats of a whole command, and of a sequence of commands. */
  function Frame(len: nat): seq<Shape> { FrameFrom(len, 0) }

  function Frames(lens: seq<nat>): seq<Shape> {
    if lens == [] then [] else Frame(lens[0]) + Frames(lens[1..])
  }

  lemma {:induction false} FramesSnoc(lens: seq<nat>, len: nat)
    ensures Frames(lens + [len]) == Frames(lens) + Frame(len)
  {
    if lens == [] {
      assert lens + [len] == [len] && [len][1..] == [];
    } else {
      FramesSnoc(lens[1..], len);
      assert (lens + [len])[1..] == lens[1..] + [len];
      assert Frame(lens[0]) + (Frames(lens[1..]) + Frame(len)) == Frame(lens[0]) + Frames(lens[1..]) + Frame(len);
    }
  }

  /** Bytes that a mask lets through. */
  function MaskBytes(mask: Word): nat {
    if mask == [] then 0 else MaskBytes(mask[..|mask| - 1]) + (if mask[|mask| - 1] then 1 else 0)
  }

  function TotalBytes(shapes: seq<Shape>): nat {
    if shapes == [] then 0 else TotalBytes(shapes[..|shapes| - 1]) + MaskBytes(shapes[|shapes| - 1].mask)
  }

  lemma {:induction false} MaskBytesOf(mask: Word, n: nat)
    requires forall i :: 0 <= i < |mask| ==> mask[i] == (i < n)
    ensures MaskBytes(mask) == if n <= |mask| then n else |mask|
  {
    if mask != [] {
      MaskBytesOf(mask[..|mask| - 1], n);
    }
  }

  lemma BytesOfShape(len: nat, k: nat)
    ensures 1 <= BytesIn(len, k) <= 16 && LowOnes(ShapeOf(len, k).mask, BytesIn(len, k))
    ensures MaskBytes(ShapeOf(len, k).mask) == BytesIn(len, k)
  {
    MaskIsLowOnes(BytesIn(len, k));
    MaskBytesOf(ShapeOf(len, k).mask, BytesIn(len, k));
  }

  lemma {:induction false} BytesOfBeats(len: nat, n: nat)
    requires 0 < len && n <= Beats(len)
    ensures TotalBytes(Frame(len)[..n]) == if n < Beats(len) then 16 * n else len
  {
    if n > 0 {
      BytesOfBeats(len, n - 1);
      assert Frame(len)[..n][..n - 1] == Frame(len)[..n - 1];
      assert Frame(len)[..n][n - 1] == ShapeOf(len, n - 1);
      BytesOfShape(len, n - 1);
      LastBytes(len, n);
    }
  }

  lemma LastBytes(len: nat, n: nat)
    requires 0 < len && 0 < n <= Beats(len)
    ensures 16 * (n - 1) + BytesIn(len, n - 1) == if n < Beats(len) then 16 * n else len
  {
    assert len == 16 * (len / 16) + len % 16;
  }

  /**
    The frame of a command of len > 0 bytes: one start mark, on the first beat;
    one end mark, on the last; every mask a non-empty run of low ones; and the
    masks together let exactly len bytes through.
   */
  lemma FrameIsRight(len: nat)
    requires 0 < len
    ensures |Frame(len)| == Beats(len) > 0
    ensures forall k :: 0 <= k < |Frame(len)| ==> Frame(len)[k].sop == (k == 0) && Frame(len)[k].eop == (k == |Frame(len)| - 1)
    ensures forall k :: 0 <= k < |Frame(len)| ==> MaskBytes(Frame(len)[k].mask) > 0 && LowOnes(Frame(len)[k].mask, MaskBytes(Frame(len)[k].mask))
    ensures TotalBytes(Frame(len)) == len
  {
    forall k | 0 <= k < |Frame(len)|
      ensures MaskBytes(Frame(len)[k].mask) > 0 && LowOnes(Frame(len)[k].mask, MaskBytes(Frame(len)[k].mask))
    {
      BytesOfShape(len, k);
    }
    BytesOfBeats(len, Beats(len));
    assert Frame(len)[..Beats(len)] == Frame(len);
  }

  // ---- the channel ----

  /** What the read engine returns: 16 bytes, and whether they end the command. */
  datatype MemData = MemData(last: bool, data: int)

  datatype Beat = Beat(shape: Shape, data: int)

  /**
    Queues and registers of one channel. The read engine serves commands in
    order: `pending` holds the beats it still owes for each. `taken` are the
    beats the packet buffer has taken from dmaToRing, `commanded` all lengths
    given and `issued` those requested, `read` all data the engine returned.
   */
  datatype State = State(readCmds: seq<nat>, readLens: seq<nat>, pending: seq<nat>, engine: seq<MemData>, readCount: nat,
                         toFpga: seq<Beat>, ring: seq<Beat>, taken: seq<Beat>,
                         commanded: seq<nat>, issued: seq<nat>, read: seq<int>)

  const RESET_STATE := State([], [], [], [], 0, [], [], [], [], [], [])

  datatype Action = Command(len: nat) | Request | EngineBeat(data: int) | DataRule | NetworkRule | TakeBeat

  predicate Enabled(s: State, a: Action) {
    match a
    case Command(len) => |s.readCmds| < 15 && len < WRAP32
    case Request => s.readCmds != [] && |s.readLens| < 15
    case EngineBeat(_) => s.pending != []
    case DataRule => s.engine != [] && s.readLens != [] && |s.toFpga| < 2
    case NetworkRule => s.toFpga != [] && |s.ring| < 8
    case TakeBeat => s.ring != []
  }

  /** What the engine owes for a command: nothing for a length that rounds to zero. */
  function Owed(len: nat): seq<nat> {
    var beats := FindNearestMultiple16(len) / 16;
    if beats == 0 then [] else [beats]
  }

  /** rule transferToFpgaDataRule: the shape of the beat, and the next readCount. */
  function DataBeat(readCount: nat, len: nat, last: bool): (Shape, nat) {
    var count := (readCount + 1) % WRAP32;
    var bytes := if last then (if len % 16 == 0 then 16 else len % 16) else 16;
    (Shape(count == 1, last, GenerateBitMask(bytes)), if last then 0 else count)
  }

  function Step(s: State, a: Action): State
    requires Enabled(s, a)
  {
    match a
    case Command(len) => s.(readCmds := s.readCmds + [len], commanded := s.commanded + [len])
    case Request =>
      var len := s.readCmds[0];
      s.(readCmds := s.readCmds[1..], readLens := s.readLens + [len], issued := s.issued + [len],
         pending := s.pending + Owed(len))
    case EngineBeat(data) =>
      s.(engine := s.engine + [MemData(s.pending[0] <= 1, data)], read := s.read + [data],
         pending := if s.pending[0] <= 1 then s.pending[1..] else s.pending[0 := s.pending[0] - 1])
    case DataRule =>
      var mdf := s.engine[0];
      var (shape, count) := DataBeat(s.readCount, s.readLens[0], mdf.last);
      s.(engine := s.engine[1..], readCount := count, readLens := if mdf.last then s.readLens[1..] else s.readLens,
         toFpga := s.toFpga + [Beat(shape, mdf.data)])
    case NetworkRule =>
      var v := s.toFpga[0];
      if v.shape.mask != Zeros(16)
      then s.(toFpga := s.toFpga[1..], ring := s.ring + [v])
      else s.(toFpga := s.toFpga[1..])
    case TakeBeat => s.(ring := s.ring[1..], taken := s.taken + [s.ring[0]])
  }

  /** The state after any sequence of attempted actions. */
  function After(acts: seq<Action>): State {
    if acts == [] then RESET_STATE
    else
      var s, a := After(acts[..|acts| - 1]), acts[|acts| - 1];
      if Enabled(s, a) then Step(s, a) else s
  }

  // ---- invariants ----

  function Shapes(bs: seq<Beat>): (r: seq<Shape>)
    ensures |r| == |bs| && forall i :: 0 <= i < |bs| ==> r[i] == bs[i].shape
  {
    seq(|bs|, i requires 0 <= i < |bs| => bs[i].shape)
  }

  function Eops(shapes: seq<Shape>): (r: seq<bool>)
    ensures |r| == |shapes| && forall i :: 0 <= i < |shapes| ==> r[i] == shapes[i].eop
  {
    seq(|shapes|, i requires 0 <= i < |shapes| => shapes[i].eop)
  }

  function Lasts(ms: seq<MemData>): (r: seq<bool>)
    ensures |r| == |ms| && forall i :: 0 <= i < |ms| ==> r[i] == ms[i].last
  {
    seq(|ms|, i requires 0 <= i < |ms| => ms[i].last)
  }

  /** The end marks of n beats. */
  function Ends(n: nat): (r: seq<bool>)
    ensures |r| == n && forall i :: 0 <= i < n ==> r[i] == (i == n - 1)
  {
    seq(n, i => i == n - 1)
  }

  function Expand(pending: seq<nat>): seq<bool> {
    if pending == [] then [] else Ends(pending[0]) + Expand(pending[1..])
  }

  /** The beats still to be made: the rest of the first command, and the others. */
  function Rest(count: nat, lens: seq<nat>): seq<Shape> {
    if lens == [] then [] else FrameFrom(lens[0], count) + Frames(lens[1..])
  }

  ghost predicate InRange(lens: seq<nat>) {
    forall i :: 0 <= i < |lens| ==> 0 < lens[i] <= WRAP32 - 16
  }

  ghost predicate Positive(pending: seq<nat>) {
    forall i :: 0 <= i < |pending| ==> pending[i] > 0
  }

  /** The first command is under way. */
  ghost predicate CountOk(count: nat, lens: seq<nat>) {
    if lens == [] then count == 0 else count < Beats(lens[0])
  }

  /** The beats made so far: taken, in dmaToRing, or on the way there. */
  function Made(s: State): seq<Beat> { s.taken + s.ring + s.toFpga }

  function DataOf(bs: seq<Beat>, ms: seq<MemData>): (r: seq<int>)
    ensures |r| == |bs| + |ms|
  {
    seq(|bs| + |ms|, i requires 0 <= i < |bs| + |ms| => if i < |bs| then bs[i].data else ms[i - |bs|].data)
  }

  ghost predicate Inv(s: State) {
    && s.commanded == s.issued + s.readCmds && InRange(s.commanded)
    && InRange(s.readLens) && Positive(s.pending) && CountOk(s.readCount, s.readLens)
    && Frames(s.issued) == Shapes(Made(s)) + Rest(s.readCount, s.readLens)
    && Eops(Rest(s.readCount, s.readLens)) == Lasts(s.engine) + Expand(s.pending)
    && s.read == DataOf(Made(s), s.engine)
    && (forall i :: 0 <= i < |s.toFpga| ==> s.toFpga[i].shape.mask != Zeros(16))
  }

  lemma {:induction false} ExpandSnoc(pending: seq<nat>, n: nat)
    ensures Expand(pending + [n]) == Expand(pending) + Ends(n)
  {
    if pending == [] {
      assert pending + [n] == [n] && [n][1..] == [];
    } else {
      ExpandSnoc(pending[1..], n);
      assert (pending + [n])[1..] == pending[1..] + [n];
    }
  }

  lemma EndsStep(n: nat)
    requires n > 0
    ensures Ends(n) == [n == 1] + Ends(n - 1)
  {}

  /** The engine's next end mark. */
  lemma ExpandStep(pending: seq<nat>, next: seq<nat>)
    requires Positive(pending) && pending != []
    requires next == if pending[0] <= 1 then pending[1..] else pending[0 := pending[0] - 1]
    ensures Expand(pending) == [pending[0] <= 1] + Expand(next) && Positive(next)
  {
    var n, others := pending[0], pending[1..];
    EndsStep(n);
    Assoc([n == 1], Ends(n - 1), Expand(others));
    if n > 1 {
      assert next[1..] == others;
    } else {
      assert Ends(n - 1) + Expand(others) == Expand(others);
    }
  }

  lemma RestSnoc(count: nat, lens: seq<nat>, len: nat)
    requires CountOk(count, lens)
    ensures Rest(count, lens + [len]) == Rest(count, lens) + Frame(len)
  {
    if lens == [] {
      assert [len][1..] == [];
    } else {
      assert (lens + [len])[1..] == lens[1..] + [len];
      FramesSnoc(lens[1..], len);
    }
  }

  lemma EopsOfFrame(len: nat)
    ensures Eops(Frame(len)) == Ends(Beats(len))
  {}

  lemma EopsAppend(a: seq<Shape>, b: seq<Shape>)
    ensures Eops(a + b) == Eops(a) + Eops(b)
  {}

  /** The next beat of the rest, and what is left. */
  lemma RestStep(count: nat, lens: seq<nat>)
    requires lens != [] && count < Beats(lens[0]) && InRange(lens)
    ensures var last := count + 1 == Beats(lens[0]);
            && Rest(count, lens) == [ShapeOf(lens[0], count)] + Rest(if last then 0 else count + 1, if last then lens[1..] else lens)
            && CountOk(if last then 0 else count + 1, if last then lens[1..] else lens)
  {
    var len, others := lens[0], lens[1..];
    FrameFromStep(len, count);
    Assoc([ShapeOf(len, count)], FrameFrom(len, count + 1), Frames(others));
    if count + 1 == Beats(len) {
      RestIsFrames(others);
      assert FrameFrom(len, count + 1) + Frames(others) == Frames(others);
    }
  }

  lemma FrameFromStep(len: nat, k: nat)
    requires k < Beats(len)
    ensures FrameFrom(len, k) == [ShapeOf(len, k)] + FrameFrom(len, k + 1)
  {}

  lemma RestIsFrames(lens: seq<nat>)
    requires InRange(lens)
    ensures Rest(0, lens) == Frames(lens) && CountOk(0, lens)
  {}

  /** The data rule makes the next beat. */
  lemma DataBeatIsNext(count: nat, len: nat, last: bool)
    requires 0 < len <= WRAP32 - 16 && count < Beats(len) && last == (count + 1 == Beats(len))
    ensures DataBeat(count, len, last) == (ShapeOf(len, count), if last then 0 else count + 1)
  {}

  /** A command adds its frame to what is left and its beats to what the engine owes. */
  lemma RequestAdds(issued: seq<nat>, made: seq<Shape>, count: nat, lens: seq<nat>, lasts: seq<bool>, pending: seq<nat>, len: nat)
    requires CountOk(count, lens) && Frames(issued) == made + Rest(count, lens)
    requires Eops(Rest(count, lens)) == lasts + Expand(pending)
    ensures Frames(issued + [len]) == made + Rest(count, lens + [len])
    ensures Eops(Rest(count, lens + [len])) == lasts + Expand(pending + [Beats(len)])
  {
    FramesSnoc(issued, len);
    RestSnoc(count, lens, len);
    EopsAppend(Rest(count, lens), Frame(len));
    EopsOfFrame(len);
    ExpandSnoc(pending, Beats(len));
    Assoc(made, Rest(count, lens), Frame(len));
    Assoc(lasts, Expand(pending), Ends(Beats(len)));
  }

  lemma OwedIsBeats(len: nat)
    requires 0 < len <= WRAP32 - 16
    ensures Owed(len) == [Beats(len)]
  {
    RoundsUp(len);
  }

  lemma RequestKeeps(s: State, t: State)
    requires Inv(s) && Enabled(s, Request) && t == Step(s, Request)
    ensures Inv(t)
  {
    var len := s.readCmds[0];
    assert len == s.commanded[|s.issued|];
    OwedIsBeats(len);
    RequestAdds(s.issued, Shapes(Made(s)), s.readCount, s.readLens, Lasts(s.engine), s.pending, len);
    assert t.pending == s.pending + [Beats(len)];
    RequestSizes(s, t, len);
  }

  lemma RequestSizes(s: State, t: State, len: nat)
    requires Inv(s) && Enabled(s, Request) && t == Step(s, Request) && len == s.readCmds[0] && t.pending == s.pending + [Beats(len)]
    ensures t.commanded == t.issued + t.readCmds && InRange(t.commanded)
    ensures InRange(t.readLens) && Positive(t.pending) && CountOk(t.readCount, t.readLens)
  {
    assert len == s.commanded[|s.issued|];
  }

  lemma EngineKeeps(s: State, data: int, t: State)
    requires Inv(s) && Enabled(s, EngineBeat(data)) && t == Step(s, EngineBeat(data))
    ensures Inv(t)
  {
    var last := s.pending[0] <= 1;
    ExpandStep(s.pending, t.pending);
    Assoc(Lasts(s.engine), [last], Expand(t.pending));
    assert Lasts(t.engine) == Lasts(s.engine) + [last];
    assert t.read == DataOf(Made(t), t.engine);
  }

  lemma LastIsEop(count: nat, lens: seq<nat>, engine: seq<MemData>, expand: seq<bool>)
    requires engine != [] && lens != [] && count < Beats(lens[0]) && InRange(lens)
    requires Eops(Rest(count, lens)) == Lasts(engine) + expand
    ensures engine[0].last == (count + 1 == Beats(lens[0]))
  {
    RestStep(count, lens);
    assert Eops(Rest(count, lens))[0] == engine[0].last;
  }

  /** The new beat moves from the rest to what was made. */
  lemma DataFrames(made: seq<Beat>, beat: Beat, rest: seq<Shape>, next: seq<Shape>, engine: seq<MemData>, expand: seq<bool>)
    requires rest == [beat.shape] + next && engine != [] && Eops(rest) == Lasts(engine) + expand
    ensures Shapes(made) + rest == Shapes(made + [beat]) + next
    ensures Eops(next) == Lasts(engine[1..]) + expand
  {
    assert Shapes(made + [beat]) == Shapes(made) + [beat.shape];
    Assoc(Shapes(made), [beat.shape], next);
    EopsAppend([beat.shape], next);
    TailOf(Eops([beat.shape]), Eops(next), Lasts(engine), expand);
    assert Lasts(engine[1..]) == Lasts(engine)[1..];
  }

  lemma DataMoves(made: seq<Beat>, shape: Shape, engine: seq<MemData>)
    requires engine != []
    ensures DataOf(made, engine) == DataOf(made + [Beat(shape, engine[0].data)], engine[1..])
  {}

  /** The data rule puts out the next beat of the rest. */
  lemma DataStep(s: State, t: State)
    requires Inv(s) && Enabled(s, DataRule) && t == Step(s, DataRule)
    ensures Made(t) == Made(s) + [Beat(ShapeOf(s.readLens[0], s.readCount), s.engine[0].data)]
    ensures Rest(s.readCount, s.readLens) == [ShapeOf(s.readLens[0], s.readCount)] + Rest(t.readCount, t.readLens)
    ensures CountOk(t.readCount, t.readLens)
  {
    LastIsEop(s.readCount, s.readLens, s.engine, Expand(s.pending));
    DataBeatIsNext(s.readCount, s.readLens[0], s.engine[0].last);
    RestStep(s.readCount, s.readLens);
  }

  lemma NotZeros(len: nat, k: nat)
    ensures ShapeOf(len, k).mask != Zeros(16)
  {
    BytesOfShape(len, k);
    assert ShapeOf(len, k).mask[0];
  }

  lemma DataMasks(s: State, t: State)
    requires Inv(s) && Enabled(s, DataRule) && t == Step(s, DataRule)
    ensures InRange(t.readLens) && forall i :: 0 <= i < |t.toFpga| ==> t.toFpga[i].shape.mask != Zeros(16)
  {
    LastIsEop(s.readCount, s.readLens, s.engine, Expand(s.pending));
    DataBeatIsNext(s.readCount, s.readLens[0], s.engine[0].last);
    NotZeros(s.readLens[0], s.readCount);
  }

  lemma DataKeeps(s: State, t: State)
    requires Inv(s) && Enabled(s, DataRule) && t == Step(s, DataRule)
    ensures Inv(t)
  {
    DataStep(s, t);
    DataMasks(s, t);
    var shape := ShapeOf(s.readLens[0], s.readCount);
    DataFrames(Made(s), Beat(shape, s.engine[0].data), Rest(s.readCount, s.readLens), Rest(t.readCount, t.readLens),
               s.engine, Expand(s.pending));
    DataMoves(Made(s), shape, s.engine);
  }

  lemma TailOf(a: seq<bool>, b: seq<bool>, c: seq<bool>, d: seq<bool>)
    requires |a| == 1 && c != [] && a + b == c + d
    ensures b == c[1..] + d
  {
    assert b == (a + b)[1..] && c[1..] + d == (c + d)[1..];
  }

  lemma NetworkMoves(s: State, t: State)
    requires Enabled(s, NetworkRule) && t == Step(s, NetworkRule)
    requires forall i :: 0 <= i < |s.toFpga| ==> s.toFpga[i].shape.mask != Zeros(16)
    ensures Made(t) == Made(s) && forall i :: 0 <= i < |t.toFpga| ==> t.toFpga[i].shape.mask != Zeros(16)
    ensures t == s.(toFpga := t.toFpga, ring := t.ring)
  {
    assert s.toFpga == [s.toFpga[0]] + s.toFpga[1..];
    Assoc(s.taken, s.ring, [s.toFpga[0]]);
    Assoc(s.taken + s.ring, [s.toFpga[0]], s.toFpga[1..]);
  }

  lemma NetworkKeeps(s: State, t: State)
    requires Inv(s) && Enabled(s, NetworkRule) && t == Step(s, NetworkRule)
    ensures Inv(t)
  {
    NetworkMoves(s, t);
  }

  lemma TakeKeeps(s: State, t: State)
    requires Inv(s) && Enabled(s, TakeBeat) && t == Step(s, TakeBeat)
    ensures Inv(t)
  {
    HandOver(s.taken, s.ring);
    assert Made(t) == Made(s);
  }

  lemma CommandKeeps(s: State, len: nat, t: State)
    requires Inv(s) && Enabled(s, Command(len)) && t == Step(s, Command(len)) && 0 < len <= WRAP32 - 16
    ensures Inv(t)
  {
    assert Made(t) == Made(s);
  }

  lemma StepKeeps(s: State, a: Action, t: State)
    requires Inv(s) && Enabled(s, a) && t == Step(s, a) && (a.Command? ==> 0 < a.len <= WRAP32 - 16)
    ensures Inv(t)
  {
    match a
    case Command(len) => CommandKeeps(s, len, t);
    case TakeBeat => TakeKeeps(s, t);
    case Request => RequestKeeps(s, t);
    case EngineBeat(data) => EngineKeeps(s, data, t);
    case DataRule => DataKeeps(s, t);
    case NetworkRule => NetworkKeeps(s, t);
  }

  /** Lengths given are never forgotten. */
  lemma CommandedGrows(s: State, a: Action)
    requires Enabled(s, a)
    ensures s.commanded <= Step(s, a).commanded
    ensures a.Command? ==> Step(s, a).commanded == s.commanded + [a.len]
  {}

  /** In every run whose lengths are 1 to 2^32 - 16. */
  lemma {:induction false} RunsKeepInv(acts: seq<Action>)
    requires InRange(After(acts).commanded)
    ensures Inv(After(acts))
  {
    if acts != [] {
      var s, a := After(acts[..|acts| - 1]), acts[|acts| - 1];
      if Enabled(s, a) {
        CommandedGrows(s, a);
        StepInRange(s, a);
        RunsKeepInv(acts[..|acts| - 1]);
        StepKeeps(s, a, After(acts));
      } else {
        RunsKeepInv(acts[..|acts| - 1]);
      }
    } else {
      ResetInv();
    }
  }

  lemma StepInRange(s: State, a: Action)
    requires Enabled(s, a) && InRange(Step(s, a).commanded)
    ensures InRange(s.commanded) && (a.Command? ==> 0 < a.len <= WRAP32 - 16)
  {
    CommandedGrows(s, a);
    if a.Command? {
      assert Step(s, a).commanded[|s.commanded|] == a.len;
    }
    forall i | 0 <= i < |s.commanded|
      ensures 0 < s.commanded[i] <= WRAP32 - 16
    {
      assert s.commanded[i] == Step(s, a).commanded[i];
    }
  }

  lemma ResetInv()
    ensures Inv(RESET_STATE)
  {}

  // ---- what reaches the network ----

  lemma {:induction false} FramesAppend(a: seq<nat>, b: seq<nat>)
    ensures Frames(a + b) == Frames(a) + Frames(b)
  {
    if b == [] {
      assert a + b == a;
    } else {
      var front, len := b[..|b| - 1], b[|b| - 1];
      FramesAppend(a, front);
      assert b == front + [len];
      Assoc(a, front, [len]);
      FramesSnoc(a + front, len);
      FramesSnoc(front, len);
      Assoc(Frames(a), Frames(front), Frame(len));
    }
  }

  /**
    In every run, what reaches the network is the frames of the commands given,
    in order: no beat is dropped, and each carries the engine's data.
   */
  lemma NetworkGetsFrames(acts: seq<Action>)
    requires InRange(CommandsOf(acts))
    ensures var s := After(acts);
            && Shapes(s.taken) <= Frames(CommandsOf(acts))
            && |s.taken| <= |DataRead(acts)| && forall i :: 0 <= i < |s.taken| ==> s.taken[i].data == DataRead(acts)[i]
  {
    HistoriesAreThoseOfTheRun(acts);
    RunsKeepInv(acts);
    NetworkIsFrames(After(acts));
  }

  lemma NetworkIsFrames(s: State)
    requires Inv(s)
    ensures Shapes(s.taken) <= Frames(s.commanded)
    ensures |s.taken| <= |s.read| && forall i :: 0 <= i < |s.taken| ==> s.taken[i].data == s.read[i]
  {
    FramesAppend(s.issued, s.readCmds);
    ShapesOfMade(s);
    PrefixOfMany(Shapes(s.taken), Shapes(s.ring + s.toFpga), Rest(s.readCount, s.readLens), Frames(s.readCmds));
    DataOfFront(s.taken, s.ring + s.toFpga, Made(s), s.engine);
  }

  lemma ShapesOfMade(s: State)
    ensures Shapes(Made(s)) == Shapes(s.taken) + Shapes(s.ring + s.toFpga)
  {}

  lemma PrefixOfMany<T>(a: seq<T>, b: seq<T>, c: seq<T>, d: seq<T>)
    ensures a <= a + b + c + d
  {}

  lemma DataOfFront(front: seq<Beat>, rest: seq<Beat>, all: seq<Beat>, ms: seq<MemData>)
    requires all == front + rest
    ensures |front| <= |DataOf(all, ms)| && forall i :: 0 <= i < |front| ==> front[i].data == DataOf(all, ms)[i]
  {}

  /** The lengths of the commands a run accepts, and the data its engine delivers, in order. */
  function CommandsOf(acts: seq<Action>): seq<nat> {
    if acts == [] then []
    else
      var front, a := acts[..|acts| - 1], acts[|acts| - 1];
      CommandsOf(front) + (if a.Command? && Enabled(After(front), a) then [a.len] else [])
  }

  function DataRead(acts: seq<Action>): seq<int> {
    if acts == [] then []
    else
      var front, a := acts[..|acts| - 1], acts[|acts| - 1];
      DataRead(front) + (if a.EngineBeat? && Enabled(After(front), a) then [a.data] else [])
  }

  lemma {:induction false} HistoriesAreThoseOfTheRun(acts: seq<Action>)
    ensures After(acts).commanded == CommandsOf(acts) && After(acts).read == DataRead(acts)
  {
    if acts != [] {
      HistoriesAreThoseOfTheRun(acts[..|acts| - 1]);
    }
  }

  /** Where the beats of command c start. */
  function Start(lens: seq<nat>, c: nat): (r: nat)
    requires c <= |lens|
    ensures r == |Frames(lens[..c])|
  {
    |Frames(lens[..c])|
  }

  /** The beats of one command: marks at the ends only, non-empty masks of low ones, len bytes in all. */
  ghost predicate RightFrame(f: seq<Shape>, len: nat) {
    && |f| == Beats(len) > 0
    && (forall k :: 0 <= k < |f| ==> f[k].sop == (k == 0) && f[k].eop == (k == |f| - 1))
    && (forall k :: 0 <= k < |f| ==> MaskBytes(f[k].mask) > 0 && LowOnes(f[k].mask, MaskBytes(f[k].mask)))
    && TotalBytes(f) == len
  }

  lemma FrameAt(lens: seq<nat>, c: nat)
    requires c < |lens|
    ensures Start(lens, c + 1) == Start(lens, c) + |Frame(lens[c])| <= |Frames(lens)|
    ensures Frames(lens)[Start(lens, c)..Start(lens, c + 1)] == Frame(lens[c])
  {
    assert lens[..c + 1] == lens[..c] + [lens[c]];
    FramesSnoc(lens[..c], lens[c]);
    assert lens == lens[..c + 1] + lens[c + 1..];
    FramesAppend(lens[..c + 1], lens[c + 1..]);
  }

  /**
    Every command is framed: in every run, once the beats of command c have
    reached the network they carry exactly one sop and one eop, in place, and
    masks that total the command's length.
   */
  lemma CommandIsFramed(acts: seq<Action>, c: nat)
    requires var lens := CommandsOf(acts);
             InRange(lens) && c < |lens| && Start(lens, c + 1) <= |After(acts).taken|
    ensures var lens := CommandsOf(acts);
            && Start(lens, c) <= Start(lens, c + 1)
            && RightFrame(Shapes(After(acts).taken)[Start(lens, c)..Start(lens, c + 1)], lens[c])
  {
    var lens := CommandsOf(acts);
    NetworkGetsFrames(acts);
    FrameAt(lens, c);
    FrameIsRight(lens[c]);
    SamePiece(Shapes(After(acts).taken), Frames(lens), Start(lens, c), Start(lens, c + 1));
  }

  lemma SamePiece<T>(a: seq<T>, b: seq<T>, p: nat, q: nat)
    requires a <= b && p <= q <= |a|
    ensures a[p..q] == b[p..q]
  {}

  /** Nothing can happen but a new command. */
  ghost predicate Quiet(s: State) {
    forall a :: Enabled(s, a) ==> a.Command?
  }

  /** No deadlock: when the channel is quiet every command given has been framed completely. */
  lemma AllFramed(acts: seq<Action>)
    requires InRange(CommandsOf(acts)) && Quiet(After(acts))
    ensures Shapes(After(acts).taken) == Frames(CommandsOf(acts))
  {
    HistoriesAreThoseOfTheRun(acts);
    RunsKeepInv(acts);
    QuietIsEmpty(After(acts));
  }

  lemma RestNonEmpty(count: nat, lens: seq<nat>)
    requires lens != [] && count < Beats(lens[0])
    ensures Rest(count, lens) != []
  {}

  /** Nothing is under way. */
  predicate Empty(s: State) {
    s.readCmds == s.readLens == s.pending == [] && s.engine == [] && s.readCount == 0 && s.toFpga == s.ring == []
  }

  lemma QuietIsEmpty(s: State)
    requires Inv(s) && Quiet(s)
    ensures Empty(s) && Shapes(s.taken) == Frames(s.commanded)
  {
    assert !Enabled(s, TakeBeat) && !Enabled(s, NetworkRule) && !Enabled(s, EngineBeat(0));
    assert !Enabled(s, DataRule) && !Enabled(s, Request);
    if s.readLens != [] {
      RestNonEmpty(s.readCount, s.readLens);
    }
    assert s.taken + [] + [] == s.taken;
    assert Made(s) == s.taken && s.commanded == s.issued;
  }

  /** One more action that is enabled. */
  lemma Advance(acts: seq<Action>, a: Action, s: State, t: State)
    requires After(acts) == s && Enabled(s, a) && t == Step(s, a)
    ensures After(acts + [a]) == t
  {
    assert (acts + [a])[..|acts|] == acts;
  }

  // ---- everything gets framed ----

  /** Work left for the rules: a beat not yet read counts for four. */
  function Work(s: State): nat {
    CommandWork(s.readCmds) + 4 * SumOf(s.pending) + 3 * |s.engine| + 2 * |s.toFpga| + |s.ring|
  }

  function CommandWork(lens: seq<nat>): nat {
    if lens == [] then 0 else 1 + 4 * SumOf(Owed(lens[0])) + CommandWork(lens[1..])
  }

  lemma PendingLowers(pending: seq<nat>, next: seq<nat>)
    requires Positive(pending) && pending != []
    requires next == if pending[0] <= 1 then pending[1..] else pending[0 := pending[0] - 1]
    ensures SumOf(next) == SumOf(pending) - 1
  {
    if pending[0] > 1 {
      assert next[1..] == pending[1..];
    }
  }

  /** A step of the channel that takes no new command. */
  ghost predicate Internal(s: State, t: State) {
    exists a :: Enabled(s, a) && !a.Command? && t == Step(s, a)
  }

  lemma InternalLowers(s: State, t: State)
    requires Inv(s) && Internal(s, t)
    ensures Inv(t) && t.commanded == s.commanded && Work(t) < Work(s)
  {
    var a :| Enabled(s, a) && !a.Command? && t == Step(s, a);
    StepKeeps(s, a, t);
    ActionLowers(s, a, t);
  }

  lemma ActionLowers(s: State, a: Action, t: State)
    requires Enabled(s, a) && !a.Command? && t == Step(s, a) && Positive(s.pending)
    ensures t.commanded == s.commanded && Work(t) < Work(s)
  {
    match a
    case Request => SumOfAppend(s.pending, Owed(s.readCmds[0]));
    case EngineBeat(_) => PendingLowers(s.pending, t.pending);
    case _ =>
  }

  ghost function Holds(lens: seq<nat>): State -> bool {
    (s: State) => Inv(s) && s.commanded == lens
  }

  ghost function Inside(): (State, State) -> bool {
    (s: State, t: State) => Internal(s, t)
  }

  ghost function WorkLeft(): State -> nat {
    (s: State) => Work(s)
  }

  lemma InsideLowers(lens: seq<nat>)
    ensures Settling.Lowers(Holds(lens), Inside(), WorkLeft())
  {
    forall s, t | Holds(lens)(s) && Inside()(s, t)
      ensures Holds(lens)(t) && WorkLeft()(t) < WorkLeft()(s)
    {
      InternalLowers(s, t);
    }
  }

  lemma StepIsInside(s: State, a: Action)
    requires Enabled(s, a) && !a.Command?
    ensures Inside()(s, Step(s, a))
  {}

  lemma RestIsQuiet(t: State)
    requires Settling.AtRest(Inside(), t)
    ensures Quiet(t)
  {
    forall a | Enabled(t, a)
      ensures a.Command?
    {
      if !a.Command? {
        StepIsInside(t, a);
      }
    }
  }

  /** In every run the channel goes on, within Work steps, until every command given has been framed. */
  lemma EverythingIsFramed(acts: seq<Action>) returns (t: State, n: nat)
    requires InRange(CommandsOf(acts))
    ensures Settling.Leads(Inside(), After(acts), t, n) && n <= Work(After(acts))
    ensures t.commanded == CommandsOf(acts) && Shapes(t.taken) == Frames(t.commanded) && Empty(t)
  {
    var s := After(acts);
    HistoriesAreThoseOfTheRun(acts);
    RunsKeepInv(acts);
    InsideLowers(s.commanded);
    t, n := Settling.ComesToRest(Holds(s.commanded), Inside(), WorkLeft(), s);
    RestIsQuiet(t);
    QuietIsEmpty(t);
  }

  /** No choice of rules can put that off. */
  lemma NothingGoesOnForEver(acts: seq<Action>, t: State, n: nat)
    requires InRange(CommandsOf(acts)) && Settling.Leads(Inside(), After(acts), t, n)
    ensures n <= Work(After(acts))
  {
    var s := After(acts);
    HistoriesAreThoseOfTheRun(acts);
    RunsKeepInv(acts);
    InsideLowers(s.commanded);
    Settling.StepsAreBounded(Holds(s.commanded), Inside(), WorkLeft(), s, t, n);
  }

  // ---- exactly which lengths are framed ----

  ghost predicate Reached(s: State) {
    exists acts :: After(acts) == s
  }

  lemma InsideReached(s: State, r: State)
    requires Reached(s) && Inside()(s, r)
    ensures Reached(r)
  {
    var acts :| After(acts) == s;
    assert Internal(s, r);
    var a :| Enabled(s, a) && !a.Command? && r == Step(s, a);
    Advance(acts, a, s, r);
  }

  ghost function Reachable(): State -> bool { (s: State) => Reached(s) }

  lemma InsideKeepsReached()
    ensures Settling.Keeps(Reachable(), Inside())
  {
    forall s, t | Reachable()(s) && Inside()(s, t)
      ensures Reachable()(t)
    {
      InsideReached(s, t);
    }
  }

  /** Steps inside the channel are part of a run. */
  lemma LeadsReached(acts: seq<Action>, t: State, n: nat) returns (all: seq<Action>)
    requires Settling.Leads(Inside(), After(acts), t, n)
    ensures After(all) == t
  {
    InsideKeepsReached();
    assert Reachable()(After(acts));
    Settling.KeptAlong(Reachable(), Inside(), After(acts), t, n);
    assert Reached(t);
    all :| After(all) == t;
  }

  /** Any commands of promised lengths can be given and framed. */
  lemma {:induction false} RunOf(lens: seq<nat>) returns (acts: seq<Action>)
    requires InRange(lens)
    ensures After(acts).commanded == lens && Empty(After(acts)) && Shapes(After(acts).taken) == Frames(lens)
  {
    if lens == [] {
      acts := [];
    } else {
      var front, len := lens[..|lens| - 1], lens[|lens| - 1];
      var before := RunOf(front);
      var s := After(before);
      Advance(before, Command(len), s, Step(s, Command(len)));
      var given := before + [Command(len)];
      assert After(given).commanded == lens;
      HistoriesAreThoseOfTheRun(given);
      var t, n := EverythingIsFramed(given);
      acts := LeadsReached(given, t, n);
    }
  }

  /** Bytes of the last beat as the data rule computes them. */
  function LastBytesOf(len: nat): nat { if len % 16 == 0 then 16 else len % 16 }

  /** The length is one the channel does not promise to frame. */
  predicate OutOfRange(len: nat) { len < WRAP32 && !(0 < len <= WRAP32 - 16) }

  lemma OwedNothing(len: nat)
    requires OutOfRange(len)
    ensures Owed(len) == []
  {}

  /** Both commands are given and requested. */
  lemma BadRequested(s: State, len: nat) returns (s1: State, s2: State, s3: State, s4: State)
    requires Empty(s) && OutOfRange(len)
    ensures Enabled(s, Command(len)) && s1 == Step(s, Command(len))
    ensures Enabled(s1, Command(5)) && s2 == Step(s1, Command(5))
    ensures Enabled(s2, Request) && s3 == Step(s2, Request)
    ensures Enabled(s3, Request) && s4 == Step(s3, Request)
    ensures s4.readLens == [len, 5] && s4.pending == [1] && s4.commanded == s.commanded + [len, 5]
    ensures s4.engine == [] && s4.readCount == 0 && s4.toFpga == s4.ring == [] && s4.taken == s.taken
  {
    s1 := Step(s, Command(len));
    s2 := Step(s1, Command(5));
    assert s2.readCmds == [len, 5];
    OwedNothing(len);
    OwedIsBeats(5);
    s3 := Step(s2, Request);
    s4 := Step(s3, Request);
  }

  /** The one beat that follows takes its mask from the wrong length. */
  lemma BadFramed(s4: State, len: nat) returns (s5: State, s6: State, s7: State, s8: State)
    requires s4.readLens == [len, 5] && s4.pending == [1] && s4.engine == [] && s4.readCount == 0 && s4.toFpga == s4.ring == []
    ensures Enabled(s4, EngineBeat(0)) && s5 == Step(s4, EngineBeat(0))
    ensures Enabled(s5, DataRule) && s6 == Step(s5, DataRule)
    ensures Enabled(s6, NetworkRule) && s7 == Step(s6, NetworkRule)
    ensures Enabled(s7, TakeBeat) && s8 == Step(s7, TakeBeat)
    ensures s8.commanded == s4.commanded
    ensures s8.taken == s4.taken + [Beat(Shape(true, true, GenerateBitMask(LastBytesOf(len))), 0)]
  {
    s5 := Step(s4, EngineBeat(0));
    s6 := Step(s5, DataRule);
    assert s6.toFpga == [Beat(Shape(true, true, GenerateBitMask(LastBytesOf(len))), 0)];
    SomeMask(LastBytesOf(len));
    s7 := Step(s6, NetworkRule);
    s8 := Step(s7, TakeBeat);
  }

  lemma SomeMask(bytes: nat)
    requires 0 < bytes <= 16
    ensures GenerateBitMask(bytes) != Zeros(16)
  {
    MaskIsLowOnes(bytes);
    assert GenerateBitMask(bytes)[0];
  }

  /** That beat is not the one the commands call for. */
  lemma NotTheBeat(len: nat)
    requires OutOfRange(len)
    ensures Frames([len, 5]) != [] && Frames([len, 5])[0] != Shape(true, true, GenerateBitMask(LastBytesOf(len)))
  {
    assert [len, 5][1..] == [5] && [5][1..] == [];
    if len == 0 {
      assert Frame(0) == [] && Frame(5)[0] == ShapeOf(5, 0);
      MaskIsLowOnes(16);
      MaskIsLowOnes(5);
      assert GenerateBitMask(16)[15] && !GenerateBitMask(5)[15];
    } else {
      assert Frames([len, 5])[0] == Frame(len)[0] == ShapeOf(len, 0);
    }
  }

  lemma NotPrefix<T>(a: seq<T>, x: T, b: seq<T>)
    requires b != [] && b[0] != x
    ensures !(a + [x] <= a + b)
  {
    assert (a + [x])[|a|] == x && (a + b)[|a|] == b[0];
  }

  /** After any commands of promised lengths, a command outside the range spoils what the network gets. */
  lemma BadLengthMislabels(good: seq<nat>, len: nat) returns (acts: seq<Action>)
    requires InRange(good) && OutOfRange(len)
    ensures CommandsOf(acts) == good + [len, 5] && !(Shapes(After(acts).taken) <= Frames(good + [len, 5]))
  {
    var a0 := RunOf(good);
    var s := After(a0);
    var s1, s2, s3, s4 := BadRequested(s, len);
    var s5, s6, s7, s8 := BadFramed(s4, len);
    Advance(a0, Command(len), s, s1);
    Advance(a0 + [Command(len)], Command(5), s1, s2);
    var a2 := a0 + [Command(len)] + [Command(5)];
    Advance(a2, Request, s2, s3);
    Advance(a2 + [Request], Request, s3, s4);
    var a4 := a2 + [Request] + [Request];
    Advance(a4, EngineBeat(0), s4, s5);
    Advance(a4 + [EngineBeat(0)], DataRule, s5, s6);
    var a6 := a4 + [EngineBeat(0)] + [DataRule];
    Advance(a6, NetworkRule, s6, s7);
    Advance(a6 + [NetworkRule], TakeBeat, s7, s8);
    acts := a6 + [NetworkRule] + [TakeBeat];
    SpoiltShapes(s.taken, good, len, s8.taken);
    HistoriesAreThoseOfTheRun(acts);
  }

  lemma SpoiltShapes(before: seq<Beat>, good: seq<nat>, len: nat, network: seq<Beat>)
    requires OutOfRange(len) && Shapes(before) == Frames(good)
    requires network == before + [Beat(Shape(true, true, GenerateBitMask(LastBytesOf(len))), 0)]
    ensures !(Shapes(network) <= Frames(good + [len, 5]))
  {
    var x := Shape(true, true, GenerateBitMask(LastBytesOf(len)));
    assert Shapes(network) == Frames(good) + [x];
    FramesAppend(good, [len, 5]);
    NotTheBeat(len);
    NotPrefix(Frames(good), x, Frames([len, 5]));
  }

  lemma GoodLengthIsFramed(good: seq<nat>, len: nat, acts: seq<Action>)
    requires InRange(good) && 0 < len <= WRAP32 - 16 && CommandsOf(acts) == good + [len, 5]
    ensures Shapes(After(acts).taken) <= Frames(good + [len, 5])
  {
    NetworkGetsFrames(acts);
  }

  /** In every run that gives these commands the network gets nothing but their frames. */
  ghost predicate AlwaysFramed(lens: seq<nat>) {
    forall acts :: CommandsOf(acts) == lens ==> Shapes(After(acts).taken) <= Frames(lens)
  }

  /**
    The exact range: whatever commands of promised lengths came before, a
    32-bit length is framed right in every run if and only if it is 1 to
    2^32 - 16.
   */
  lemma ExactRange(good: seq<nat>, len: nat)
    requires InRange(good) && len < WRAP32
    ensures 0 < len <= WRAP32 - 16 <==> AlwaysFramed(good + [len, 5])
  {
    if 0 < len <= WRAP32 - 16 {
      forall acts | CommandsOf(acts) == good + [len, 5]
        ensures Shapes(After(acts).taken) <= Frames(good + [len, 5])
      {
        GoodLengthIsFramed(good, len, acts);
      }
    } else {
      var acts := BadLengthMislabels(good, len);
    }
  }

  // ---- the program's own form ----

  /** One channel of mkDmaController, with its read engine: one method per rule. */
  class DmaChannel {
    var readCmds: seq<nat>
    var readLens: seq<nat>
    var pending: seq<nat>
    var engine: seq<MemData>
    var readCount: nat
    var transferToFpgaFifo: seq<Beat>
    var dmaToRing: seq<Beat>
    ghost var taken: seq<Beat>
    ghost var commanded: seq<nat>
    ghost var issued: seq<nat>
    ghost var read: seq<int>

    ghost function Abs(): State
      reads this
    {
      State(readCmds, readLens, pending, engine, readCount, transferToFpgaFifo, dmaToRing, taken, commanded, issued, read)
    }

    constructor ()
      ensures Abs() == RESET_STATE && Inv(Abs())
    {
      readCmds, readLens, pending, engine, readCount := [], [], [], [], 0;
      transferToFpgaFifo, dmaToRing, taken, commanded, issued, read := [], [], [], [], [], [];
      new;
      ResetInv();
    }

    method TransferToFpga(bytes: nat)
      requires Inv(Abs()) && Enabled(Abs(), Command(bytes))
      modifies this
      ensures Abs() == Step(old(Abs()), Command(bytes))
      ensures 0 < bytes <= WRAP32 - 16 ==> Inv(Abs())
    {
      if 0 < bytes <= WRAP32 - 16 {
        CommandKeeps(Abs(), bytes, Step(Abs(), Command(bytes)));
      }
      readCmds := readCmds + [bytes];
      commanded := commanded + [bytes];
    }

    method TransferToFpgaReqRule()
      requires Inv(Abs()) && Enabled(Abs(), Request)
      modifies this
      ensures Abs() == Step(old(Abs()), Request) && Inv(Abs())
    {
      RequestKeeps(Abs(), Step(Abs(), Request));
      var len := readCmds[0];
      readCmds := readCmds[1..];
      readLens := readLens + [len];
      issued := issued + [len];
      pending := pending + Owed(len);
    }

    method TransferToFpgaDataRule()
      requires Inv(Abs()) && Enabled(Abs(), DataRule)
      modifies this
      ensures Abs() == Step(old(Abs()), DataRule) && Inv(Abs())
    {
      DataKeeps(Abs(), Step(Abs(), DataRule));
      MakeBeat();
    }

    method MakeBeat()
      requires Enabled(Abs(), DataRule)
      modifies this
      ensures Abs() == Step(old(Abs()), DataRule)
    {
      var mdf := engine[0];
      engine := engine[1..];
      var count := (readCount + 1) % WRAP32;
      var bytes := 16;
      if mdf.last {
        bytes := readLens[0] % 16;
        if bytes == 0 {
          bytes := 16;
        }
      }
      var beat := Beat(Shape(count == 1, mdf.last, GenerateBitMask(bytes)), mdf.data);
      if mdf.last {
        readLens := readLens[1..];
        count := 0;
      }
      readCount := count;
      transferToFpgaFifo := transferToFpgaFifo + [beat];
    }

    method TransferToNetwork()
      requires Inv(Abs()) && Enabled(Abs(), NetworkRule)
      modifies this
      ensures Abs() == Step(old(Abs()), NetworkRule) && Inv(Abs())
    {
      NetworkKeeps(Abs(), Step(Abs(), NetworkRule));
      var v := transferToFpgaFifo[0];
      transferToFpgaFifo := transferToFpgaFifo[1..];
      if v.shape.mask != Zeros(16) {
        dmaToRing := dmaToRing + [v];
      }
    }

    /** The packet buffer takes a beat. */
    method TakeFromRing() returns (b: Beat)
      requires Inv(Abs()) && Enabled(Abs(), TakeBeat)
      modifies this
      ensures Abs() == Step(old(Abs()), TakeBeat) && taken == old(taken) + [b] && Inv(Abs())
    {
      TakeKeeps(Abs(), Step(Abs(), TakeBeat));
      b := dmaToRing[0];
      dmaToRing := dmaToRing[1..];
      taken := taken + [b];
    }
  }
}
