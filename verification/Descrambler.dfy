/** The descrambler of hw/bsv/Descrambler.bsv: one rule between two FIFOs. */
module Descrambler {
  import opened Bits
  import opened Scrambling

  /** 64 data bits from the 122-bit history {pre_descramble, scram_state}. */
  function DescrambleWord(scram: Word, line: Word): (w: Word)
    requires |scram| == HISTORY && |line| == 64
    ensures |w| == 64
  {
    var history := scram + line;
    seq(64, i requires 0 <= i < 64 => Xor(history[i], Xor(history[19 + i], history[58 + i])))
  }

  /** The synchronisation header bypasses the descrambler. */
  function DescrambleBlock(scram: Word, v: Word): (r: Word)
    requires |scram| == HISTORY && |v| == 66
    ensures |r| == 66
  {
    v[..2] + DescrambleWord(scram, v[2..])
  }

  /** The register after the blocks vs. */
  function ScramAfter(scram: Word, vs: seq<Word>): (r: Word)
    requires |scram| == HISTORY && AllWide(vs, 66)
    ensures |r| == HISTORY
  {
    if vs == [] then scram
    else Last58(ScramAfter(scram, vs[..|vs| - 1]), vs[|vs| - 1][2..])
  }

  /** The blocks produced for the blocks vs. */
  function DescrambleAll(scram: Word, vs: seq<Word>): (r: seq<Word>)
    requires |scram| == HISTORY && AllWide(vs, 66)
    ensures |r| == |vs| && AllWide(r, 66)
  {
    if vs == [] then []
    else
      var front := vs[..|vs| - 1];
      DescrambleAll(scram, front) + [DescrambleBlock(ScramAfter(scram, front), vs[|vs| - 1])]
  }

  lemma DescrambleAllSnoc(scram: Word, vs: seq<Word>, v: Word)
    requires |scram| == HISTORY && AllWide(vs, 66) && |v| == 66
    ensures DescrambleAll(scram, vs + [v]) == DescrambleAll(scram, vs) + [DescrambleBlock(ScramAfter(scram, vs), v)]
    ensures ScramAfter(scram, vs + [v]) == Last58(ScramAfter(scram, vs), v[2..])
  {
    assert (vs + [v])[..|vs|] == vs;
  }

  /** The 64-bit payloads of 66-bit blocks. */
  function Payloads(vs: seq<Word>): (r: seq<Word>)
    requires AllWide(vs, 66)
    ensures |r| == |vs| && AllWide(r, 64)
    ensures forall i :: 0 <= i < |vs| ==> r[i] == vs[i][2..]
  {
    seq(|vs|, i requires 0 <= i < |vs| => vs[i][2..])
  }

  lemma PayloadsSnoc(vs: seq<Word>, v: Word)
    requires AllWide(vs, 66) && |v| == 66
    ensures Payloads(vs + [v]) == Payloads(vs) + [v[2..]]
  {}

  /** One firing of the rule is 64 steps of the bit-serial law. */
  lemma DescrambleWordIsSerial(scram: Word, line: Word)
    requires |scram| == HISTORY && |line| == 64
    ensures Recurrence(scram, DescrambleWord(scram, line), line)
  {
    var d := DescrambleWord(scram, line);
    var history := scram + line;
    forall n | 0 <= n < 64
      ensures line[n] == Xor(d[n], Xor(Line(scram, line, n - 39), Line(scram, line, n - 58)))
    {
      assert Line(scram, line, n - 39) == history[19 + n];
      assert Line(scram, line, n - 58) == history[n];
      assert line[n] == history[58 + n];
    }
  }

  /** One more block extends a stream that obeys the bit-serial law. */
  lemma SerialSnoc(scram: Word, h: Word, out: seq<Word>, vs: seq<Word>, v: Word)
    requires |scram| == HISTORY && AllWide(out, 66) && AllWide(vs, 66) && |out| == |vs| && |v| == 66
    requires Recurrence(scram, Concat(Payloads(out)), Concat(Payloads(vs))) && h == Last58(scram, Concat(Payloads(vs)))
    ensures Recurrence(scram, Concat(Payloads(out + [DescrambleBlock(h, v)])), Concat(Payloads(vs + [v])))
    ensures Last58(h, v[2..]) == Last58(scram, Concat(Payloads(vs + [v])))
  {
    var d := DescrambleBlock(h, v);
    PayloadsSnoc(vs, v);
    PayloadsSnoc(out, d);
    ConcatSnoc(Payloads(vs), v[2..]);
    ConcatSnoc(Payloads(out), d[2..]);
    DescrambleWordIsSerial(h, v[2..]);
    assert d[2..] == DescrambleWord(h, v[2..]);
    RecurrenceAppend(scram, Concat(Payloads(out)), Concat(Payloads(vs)), d[2..], v[2..]);
  }

  /** Any number of firings obey the bit-serial law over the whole stream. */
  lemma {:induction false} DescrambleAllIsSerial(scram: Word, vs: seq<Word>)
    requires |scram| == HISTORY && AllWide(vs, 66)
    ensures Recurrence(scram, Concat(Payloads(DescrambleAll(scram, vs))), Concat(Payloads(vs)))
    ensures ScramAfter(scram, vs) == Last58(scram, Concat(Payloads(vs)))
  {
    if vs == [] {
      assert Payloads(vs) == [];
    } else {
      var front, v := vs[..|vs| - 1], vs[|vs| - 1];
      assert vs == front + [v];
      DescrambleAllIsSerial(scram, front);
      SerialSnoc(scram, ScramAfter(scram, front), DescrambleAll(scram, front), front, v);
    }
  }

  /** The headers pass unchanged. */
  lemma {:induction false} HeadersPass(scram: Word, vs: seq<Word>, i: nat)
    requires |scram| == HISTORY && AllWide(vs, 66) && i < |vs|
    ensures DescrambleAll(scram, vs)[i][..2] == vs[i][..2]
  {
    if i < |vs| - 1 {
      HeadersPass(scram, vs[..|vs| - 1], i);
    }
  }

  /** A payload stream is determined by its bits. */
  lemma ConcatPoint(a: seq<Word>, b: seq<Word>, i: nat)
    requires AllWide(a, 64) && AllWide(b, 64) && |a| == |b| && i < |a|
    requires forall n :: 64 * i <= n < 64 * i + 64 && n < |Concat(a)| && n < |Concat(b)| ==> Concat(a)[n] == Concat(b)[n]
    ensures a[i] == b[i]
  {
    forall j | 0 <= j < 64
      ensures a[i][j] == b[i][j]
    {
      ConcatIndex(a, 64, i, j);
      ConcatIndex(b, 64, i, j);
    }
  }

  /**
    Descrambling undoes scrambling: when the line bits obey the bit-serial law
    for data d from history h, a descrambler started from h returns d, and one
    started from any register returns d in every block but the first.
   */
  lemma DescramblingUndoesScrambling(h: Word, scram: Word, d: seq<Word>, vs: seq<Word>)
    requires |scram| == HISTORY && AllWide(vs, 66) && AllWide(d, 64) && |d| == |vs|
    requires Recurrence(h, Concat(d), Concat(Payloads(vs)))
    ensures forall i :: 0 <= i < |vs| && (i > 0 || scram == h) ==> DescrambleAll(scram, vs)[i] == vs[i][..2] + d[i]
  {
    DescrambleAllIsSerial(scram, vs);
    var out := DescrambleAll(scram, vs);
    var got := Payloads(out);
    SelfSynchronises(h, scram, Concat(d), Concat(got), Concat(Payloads(vs)));
    forall i | 0 <= i < |vs| && (i > 0 || scram == h)
      ensures out[i] == vs[i][..2] + d[i]
    {
      ConcatPoint(d, got, i);
      HeadersPass(scram, vs, i);
      assert out[i] == out[i][..2] + out[i][2..];
    }
  }

  /** The bits of a stream of payloads. */
  function PayloadBits(vs: seq<Word>): Word
    requires AllWide(vs, 66)
  {
    Concat(Payloads(vs))
  }

  lemma BitsAt(vs: seq<Word>, b: nat, j: nat)
    requires AllWide(vs, 66) && b < |vs| && j < 64
    ensures |PayloadBits(vs)| == 64 * |vs| && PayloadBits(vs)[64 * b + j] == vs[b][2 + j]
  {
    ConcatIndex(Payloads(vs), 64, b, j);
  }

  /** vs with payload bit j of block b flipped. */
  function Flipped(vs: seq<Word>, b: nat, j: nat): (r: seq<Word>)
    requires AllWide(vs, 66) && b < |vs| && j < 64
    ensures AllWide(r, 66) && |r| == |vs|
  {
    vs[b := vs[b][2 + j := !vs[b][2 + j]]]
  }

  lemma FlippedBits(vs: seq<Word>, b: nat, j: nat)
    requires AllWide(vs, 66) && b < |vs| && j < 64
    ensures |PayloadBits(vs)| == 64 * |vs| && 64 * b + j < 64 * |vs|
    ensures PayloadBits(Flipped(vs, b, j)) == PayloadBits(vs)[64 * b + j := !PayloadBits(vs)[64 * b + j]]
  {
    var fs, e := Flipped(vs, b, j), 64 * b + j;
    BitsAt(vs, b, j);
    BitsAt(fs, b, j);
    forall n | 0 <= n < 64 * |vs|
      ensures PayloadBits(fs)[n] == if n == e then !PayloadBits(vs)[n] else PayloadBits(vs)[n]
    {
      BitsAt(vs, n / 64, n % 64);
      BitsAt(fs, n / 64, n % 64);
    }
  }

  /**
    Error spread of the descrambler: one received payload bit flipped flips
    exactly three bits of the output, 0, 39 and 58 places on, and no header.
   */
  lemma DescramblerErrorSpread(scram: Word, vs: seq<Word>, b: nat, j: nat)
    requires |scram| == HISTORY && AllWide(vs, 66) && b < |vs| && j < 64
    ensures var out, bad, e := DescrambleAll(scram, vs), DescrambleAll(scram, Flipped(vs, b, j)), 64 * b + j;
            && |PayloadBits(out)| == |PayloadBits(bad)| == 64 * |vs|
            && (forall n :: 0 <= n < 64 * |vs| ==> (PayloadBits(out)[n] != PayloadBits(bad)[n] <==> n == e || n == e + 39 || n == e + 58))
            && (forall i :: 0 <= i < |vs| ==> out[i][..2] == bad[i][..2])
  {
    var fs := Flipped(vs, b, j);
    DescrambleAllIsSerial(scram, vs);
    DescrambleAllIsSerial(scram, fs);
    FlippedBits(vs, b, j);
    ErrorSpread(scram, PayloadBits(DescrambleAll(scram, vs)), PayloadBits(DescrambleAll(scram, fs)), PayloadBits(vs), PayloadBits(fs), 64 * b + j);
    forall i | 0 <= i < |vs|
      ensures DescrambleAll(scram, vs)[i][..2] == DescrambleAll(scram, fs)[i][..2]
    {
      HeadersPass(scram, vs, i);
      HeadersPass(scram, fs, i);
      assert fs[i][..2] == vs[i][..2];
    }
  }

  // ---- the module ----

  /** Registers and FIFOs, with all blocks put in and taken out so far. */
  datatype State = State(scram: Word, fifoIn: seq<Word>, fifoOut: seq<Word>, put: seq<Word>, got: seq<Word>)

  const RESET_STATE := State(Ones(HISTORY), [], [], [], [])

  predicate CanPut(s: State) { |s.fifoIn| < 2 }

  function Put(s: State, v: Word): State {
    s.(fifoIn := s.fifoIn + [v], put := s.put + [v])
  }

  predicate CanFire(s: State) { s.fifoIn != [] && s.fifoOut == [] }

  function Fire(s: State): State
    requires CanFire(s) && |s.scram| == HISTORY && |s.fifoIn[0]| == 66
  {
    s.(scram := Last58(s.scram, s.fifoIn[0][2..]),
       fifoIn := s.fifoIn[1..],
       fifoOut := s.fifoOut + [DescrambleBlock(s.scram, s.fifoIn[0])])
  }

  predicate CanGet(s: State) { s.fifoOut != [] }

  function Get(s: State): State
    requires CanGet(s)
  {
    s.(fifoOut := s.fifoOut[1..], got := s.got + [s.fifoOut[0]])
  }

  /** What has left the module is the descrambled form of what entered it, in order. */
  ghost predicate Inv(s: State) {
    && AllWide(s.put, 66)
    && |s.fifoIn| <= |s.put|
    && var done := s.put[..|s.put| - |s.fifoIn|];
    && s.fifoIn == s.put[|done|..]
    && s.scram == ScramAfter(Ones(HISTORY), done)
    && s.got + s.fifoOut == DescrambleAll(Ones(HISTORY), done)
  }

  lemma PutKeeps(s: State, v: Word)
    requires Inv(s) && |v| == 66
    ensures Inv(Put(s, v))
  {
    assert Put(s, v).put[..|s.put| - |s.fifoIn|] == s.put[..|s.put| - |s.fifoIn|];
  }

  lemma FireKeeps(s: State)
    requires Inv(s) && CanFire(s)
    ensures |s.scram| == HISTORY && |s.fifoIn[0]| == 66
    ensures Inv(Fire(s))
  {
    var n := |s.put| - |s.fifoIn|;
    assert s.fifoIn[0] == s.put[n];
    assert s.put[..n + 1] == s.put[..n] + [s.put[n]];
    DescrambleAllSnoc(Ones(HISTORY), s.put[..n], s.put[n]);
    var t := Fire(s);
    assert t.got + t.fifoOut == (s.got + s.fifoOut) + [DescrambleBlock(s.scram, s.put[n])];
  }

  lemma GetKeeps(s: State)
    requires Inv(s) && CanGet(s)
    ensures Inv(Get(s))
  {
    assert Get(s).got + Get(s).fifoOut == s.got + s.fifoOut;
  }

  lemma ResetInv()
    ensures Inv(RESET_STATE)
  {}

  /** mkDescrambler. */
  class DescramblerModule {
    var scramState: Word
    var fifoIn: seq<Word>
    var fifoOut: seq<Word>
    ghost var put: seq<Word>
    ghost var got: seq<Word>

    ghost function Abs(): State
      reads this
    {
      State(scramState, fifoIn, fifoOut, put, got)
    }

    constructor ()
      ensures Abs() == RESET_STATE && Inv(Abs())
    {
      scramState := Ones(HISTORY);
      fifoIn, fifoOut, put, got := [], [], [], [];
    }

    method Enq(v: Word)
      requires Inv(Abs()) && CanPut(Abs()) && |v| == 66
      modifies this
      ensures Abs() == Put(old(Abs()), v) && Inv(Put(old(Abs()), v))
    {
      PutKeeps(Abs(), v);
      fifoIn := fifoIn + [v];
      put := put + [v];
    }

    method Deq() returns (v: Word)
      requires Inv(Abs()) && CanGet(Abs())
      modifies this
      ensures Abs() == Get(old(Abs())) && Inv(Get(old(Abs()))) && v == old(fifoOut)[0]
    {
      GetKeeps(Abs());
      v := fifoOut[0];
      got := got + [v];
      fifoOut := fifoOut[1..];
    }

    /** rule descramble */
    method Descramble()
      requires Inv(Abs()) && CanFire(Abs())
      modifies this
      ensures Abs() == Fire(old(Abs())) && Inv(Fire(old(Abs())))
    {
      FireKeeps(Abs());
      var v := fifoIn[0];
      fifoIn := fifoIn[1..];
      var syncHdr := v[..2];
      var preDescramble := v[2..];
      var history := scramState + preDescramble;
      var dout := FillDout(history);
      scramState := history[64..];
      fifoOut := fifoOut + [syncHdr + dout];
    }
  }

  /** The loop of rule descramble. */
  method FillDout(history: Word) returns (dout: Word)
    requires |history| == 122
    ensures dout == DescrambleWord(history[..HISTORY], history[HISTORY..])
  {
    var doutW := new bool[64];
    ghost var d := DescrambleWord(history[..HISTORY], history[HISTORY..]);
    assert history[..HISTORY] + history[HISTORY..] == history;
    for i := 0 to 64
      invariant forall j :: 0 <= j < i ==> doutW[j] == d[j]
    {
      doutW[i] := Xor(history[58 + i - 58], Xor(history[58 + i - 39], history[58 + i]));
    }
    dout := doutW[..];
  }
}
