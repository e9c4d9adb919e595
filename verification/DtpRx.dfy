/**
  The DTP message stripper of hw/bsv/DtpRx.bsv: reads clock messages out of
  idle blocks and hands the blocks on as plain idles.
 */
module DtpRx {
  import opened Bits

  /** A message for the clock logic: its type and its 53-bit counter. */
  datatype Event = Event(e: Word, t: Word)

  /** ^w */
  function Parity(w: Word): bool {
    if w == [] then false else Xor(Parity(w[..|w| - 1]), w[|w| - 1])
  }

  /** A control block of type 1e. */
  predicate IsIdle(v: Word)
    requires |v| == 66
  {
    v[0] && !v[1] && v[2..10] == ToBits(0x1e, 8)
  }

  /** The block passed on: an idle block loses its 56-bit payload while locked. */
  function Strip(v: Word): (r: Word)
    requires |v| == 66
    ensures |r| == 66
  {
    if IsIdle(v) then v[..10] + Zeros(56) else v
  }

  /** What an idle block carries. */
  datatype Content = Message(event: Event) | BadParity | Unknown | Plain

  function ContentOf(v: Word): Content
    requires |v| == 66
  {
    var cRemote := v[13..66];
    var parity := Parity(cRemote);
    if (v[10] && !v[11]) || (!v[10] && v[11]) || (v[10] && v[11]) then    // init, ack, beacon
      if parity == v[12] then Message(Event([v[10], v[11], false], cRemote)) else BadParity
    else if !v[10] && !v[11] && v[12] then Message(Event([v[10], v[11], v[12]], cRemote))    // log
    else if v[10] || v[11] || v[12] then Unknown
    else Plain
  }

  /** The branch that counts receive errors is dead: every type is known. */
  lemma NoUnknownContent(v: Word)
    requires |v| == 66
    ensures ContentOf(v) != Unknown
  {}

  // ---- parity ----

  lemma {:induction false} ParityFlip(w: Word, i: nat)
    requires i < |w|
    ensures Parity(w[i := !w[i]]) == !Parity(w)
  {
    var k := |w| - 1;
    var f := w[i := !w[i]];
    if i < k {
      ParityFlip(w[..k], i);
      assert f[..k] == w[..k][i := !w[..k][i]];
    } else {
      assert f[..k] == w[..k];
    }
  }

  /**
    An init, ack or beacon message is never delivered with one bit of its
    counter or its parity bit flipped.
   */
  lemma SingleBitErrorIsCaught(v: Word, i: nat)
    requires |v| == 66 && (v[10] || v[11]) && ContentOf(v).Message? && 12 <= i < 66
    ensures ContentOf(v[i := !v[i]]) == BadParity
  {
    var f := v[i := !v[i]];
    if i == 12 {
      assert f[13..66] == v[13..66];
    } else {
      ParityFlip(v[13..66], i - 13);
      assert f[13..66] == v[13..66][i - 13 := !v[13..66][i - 13]];
    }
  }

  // ---- the module ----

  /**
    FIFOs and the error counter, with all blocks put in, all blocks and events
    taken out, and for every block processed whether rx_ready was high, whether
    it was parsed under lock, how many events were waiting, and the events
    enqueued for it.
   */
  datatype State = State(fifoIn: seq<Word>, fifoOut: seq<Word>, events: seq<Event>, errCnt: nat, errFifo: seq<nat>,
                         put: seq<Word>, got: seq<Word>, taken: seq<Event>,
                         ready: seq<bool>, parsed: seq<bool>, waiting: seq<nat>, heard: seq<seq<Event>>)

  const RESET_STATE := State([], [], [], 0, [], [], [], [], [], [], [], [])

  predicate CanPut(s: State) { |s.fifoIn| < 2 }

  function Put(s: State, v: Word): State {
    s.(fifoIn := s.fifoIn + [v], put := s.put + [v])
  }

  predicate CanFire(s: State) { s.fifoIn != [] && |s.fifoOut| < 2 && |s.errFifo| < 2 }

  /** What a block carries for the clock logic when it is parsed under lock. */
  function Heard(v: Word, parse: bool): Content
    requires |v| == 66
  {
    if parse && IsIdle(v) then ContentOf(v) else Plain
  }

  /** The events of one block, if the event FIFO has room. */
  function EventsIn(c: Content, room: bool): seq<Event> {
    if c.Message? && room then [c.event] else []
  }

  /** One block processed: it leaves as `out`, and `content` is what was read from it. */
  function Process(s: State, ready: bool, parse: bool, out: Word, content: Content): State
    requires CanFire(s)
  {
    s.(fifoIn := s.fifoIn[1..],
       fifoOut := s.fifoOut + [out],
       events := s.events + EventsIn(content, |s.events| < 2),
       errCnt := if content.Unknown? then (s.errCnt + 1) % 0x1_0000_0000 else s.errCnt,
       errFifo := if content.Unknown? then s.errFifo + [s.errCnt] else s.errFifo,
       ready := s.ready + [ready],
       parsed := s.parsed + [parse],
       waiting := s.waiting + [|s.events|],
       heard := s.heard + [EventsIn(content, |s.events| < 2)])
  }

  /** rule rx_bypass when not ready, rule parse_dtp_message when ready */
  function Fire(s: State, ready: bool, lock: bool): State
    requires CanFire(s) && |s.fifoIn[0]| == 66
  {
    var v, parse := s.fifoIn[0], ready && lock;
    Process(s, ready, parse, Passed(v, parse), Heard(v, parse))
  }

  predicate CanGet(s: State) { s.fifoOut != [] }

  function Get(s: State): State
    requires CanGet(s)
  {
    s.(fifoOut := s.fifoOut[1..], got := s.got + [s.fifoOut[0]])
  }

  predicate CanTake(s: State) { s.events != [] }

  /** The clock logic takes an event. */
  function Take(s: State): State
    requires CanTake(s)
  {
    s.(events := s.events[1..], taken := s.taken + [s.events[0]])
  }

  /** What block k looks like on the way out. */
  function Passed(v: Word, parsed: bool): Word
    requires |v| == 66
  {
    if parsed then Strip(v) else v
  }

  /** The blocks leave in order, and exactly those parsed under lock are stripped. */
  ghost predicate Blocks(put: seq<Word>, parsed: seq<bool>, outs: seq<Word>) {
    && AllWide(put, 66) && |outs| == |parsed| <= |put|
    && forall k :: 0 <= k < |parsed| ==> outs[k] == Passed(put[k], parsed[k])
  }

  /** The events of many blocks, in order. */
  function Flatten(heard: seq<seq<Event>>): seq<Event> {
    if heard == [] then [] else Flatten(heard[..|heard| - 1]) + heard[|heard| - 1]
  }

  lemma FlattenSnoc(heard: seq<seq<Event>>, es: seq<Event>)
    ensures Flatten(heard + [es]) == Flatten(heard) + es
  {
    assert (heard + [es])[..|heard|] == heard;
  }

  /** What each block parsed under lock carries has been enqueued for it, unless the event FIFO was full. */
  ghost predicate Listens(put: seq<Word>, parsed: seq<bool>, waiting: seq<nat>, heard: seq<seq<Event>>) {
    && AllWide(put, 66) && |heard| == |waiting| == |parsed| <= |put|
    && forall k :: 0 <= k < |parsed| ==> HeardAt(put[k], parsed[k], waiting[k], heard[k])
  }

  ghost predicate HeardAt(v: Word, parsed: bool, waiting: nat, es: seq<Event>) {
    |v| == 66 && es == EventsIn(Heard(v, parsed), waiting < 2)
  }

  /** The event FIFO and its history. */
  ghost predicate Events(s: State) {
    && |s.events| <= 2 && Listens(s.put, s.parsed, s.waiting, s.heard)
    && s.taken + s.events == Flatten(s.heard)
  }

  ghost predicate Inv(s: State) {
    && Blocks(s.put, s.parsed, s.got + s.fifoOut)
    && s.fifoIn == s.put[|s.parsed|..] && |s.ready| == |s.parsed|
    && Events(s)
    && s.errCnt == 0 && s.errFifo == []
  }

  lemma PutKeeps(s: State, v: Word)
    requires Inv(s) && |v| == 66
    ensures Inv(Put(s, v))
  {
    ListensPut(s.put, v, s.parsed, s.waiting, s.heard);
  }

  lemma ListensPut(put: seq<Word>, v: Word, parsed: seq<bool>, waiting: seq<nat>, heard: seq<seq<Event>>)
    requires Listens(put, parsed, waiting, heard) && |v| == 66
    ensures Listens(put + [v], parsed, waiting, heard)
  {
    forall k | 0 <= k < |parsed|
      ensures HeardAt((put + [v])[k], parsed[k], waiting[k], heard[k])
    {
      assert HeardAt(put[k], parsed[k], waiting[k], heard[k]);
    }
  }

  lemma ListensSnoc(put: seq<Word>, parsed: seq<bool>, waiting: seq<nat>, heard: seq<seq<Event>>, p: bool, n: nat, es: seq<Event>)
    requires Listens(put, parsed, waiting, heard) && |parsed| < |put| && HeardAt(put[|parsed|], p, n, es)
    ensures Listens(put, parsed + [p], waiting + [n], heard + [es])
  {
    forall k | 0 <= k < |parsed| + 1
      ensures HeardAt(put[k], (parsed + [p])[k], (waiting + [n])[k], (heard + [es])[k])
    {
      if k < |parsed| {
        assert HeardAt(put[k], parsed[k], waiting[k], heard[k]);
      }
    }
  }

  lemma BlocksFire(put: seq<Word>, parsed: seq<bool>, outs: seq<Word>, p: bool)
    requires Blocks(put, parsed, outs) && |parsed| < |put|
    ensures Blocks(put, parsed + [p], outs + [Passed(put[|parsed|], p)])
  {}

  lemma FireBlocks(s: State, v: Word, p: bool)
    requires Inv(s) && |s.parsed| < |s.put| && v == s.put[|s.parsed|]
    ensures |v| == 66 && Blocks(s.put, s.parsed + [p], s.got + (s.fifoOut + [Passed(v, p)]))
  {
    Assoc(s.got, s.fifoOut, [Passed(v, p)]);
    BlocksFire(s.put, s.parsed, s.got + s.fifoOut, p);
  }

  lemma FireEvents(s: State, v: Word, p: bool, n: nat)
    requires Inv(s) && |s.parsed| < |s.put| && v == s.put[|s.parsed|]
    ensures |v| == 66
    ensures Listens(s.put, s.parsed + [p], s.waiting + [n], s.heard + [EventsIn(Heard(v, p), n < 2)])
    ensures s.taken + (s.events + EventsIn(Heard(v, p), n < 2)) == Flatten(s.heard + [EventsIn(Heard(v, p), n < 2)])
  {
    var es := EventsIn(Heard(v, p), n < 2);
    ListensSnoc(s.put, s.parsed, s.waiting, s.heard, p, n, es);
    FlattenSnoc(s.heard, es);
    Assoc(s.taken, s.events, es);
  }

  lemma ProcessKeeps(s: State, ready: bool, p: bool, out: Word, c: Content)
    requires Inv(s) && CanFire(s) && !c.Unknown?
    requires Blocks(s.put, s.parsed + [p], s.got + (s.fifoOut + [out]))
    requires Listens(s.put, s.parsed + [p], s.waiting + [|s.events|], s.heard + [EventsIn(c, |s.events| < 2)])
    requires s.taken + (s.events + EventsIn(c, |s.events| < 2)) == Flatten(s.heard + [EventsIn(c, |s.events| < 2)])
    ensures Inv(Process(s, ready, p, out, c))
  {
    var t := Process(s, ready, p, out, c);
    assert t.fifoIn == t.put[|t.parsed|..];
    MakeInv(t);
  }

  lemma MakeInv(t: State)
    requires Blocks(t.put, t.parsed, t.got + t.fifoOut) && t.fifoIn == t.put[|t.parsed|..] && |t.ready| == |t.parsed|
    requires Events(t) && t.errCnt == 0 && t.errFifo == []
    ensures Inv(t)
  {}

  lemma FireKeeps(s: State, ready: bool, lock: bool)
    requires Inv(s) && CanFire(s)
    ensures |s.fifoIn[0]| == 66 && Inv(Fire(s, ready, lock))
  {
    var v, p := s.fifoIn[0], ready && lock;
    assert v == s.put[|s.parsed|];
    FireBlocks(s, v, p);
    FireEvents(s, v, p, |s.events|);
    NoUnknownContent(v);
    ProcessKeeps(s, ready, p, Passed(v, p), Heard(v, p));
  }

  lemma GetKeeps(s: State)
    requires Inv(s) && CanGet(s)
    ensures Inv(Get(s))
  {
    HandOver(s.got, s.fifoOut);
    SameEvents(s, Get(s));
    MakeInv(Get(s));
  }

  lemma SameEvents(s: State, t: State)
    requires Events(s) && t.put == s.put && t.parsed == s.parsed && t.waiting == s.waiting && t.heard == s.heard
    requires |t.events| <= 2 && t.taken + t.events == s.taken + s.events
    ensures Events(t)
  {}

  lemma TakeKeeps(s: State)
    requires Inv(s) && CanTake(s)
    ensures Inv(Take(s))
  {
    HandOver(s.taken, s.events);
    SameEvents(s, Take(s));
    MakeInv(Take(s));
  }

  lemma ResetInv()
    ensures Inv(RESET_STATE)
  {}

  /** mkDtpRx */
  class DtpRxModule {
    var dtpRxInFifo: seq<Word>
    var dtpRxOutFifo: seq<Word>
    var dtpEventOutFifo: seq<Event>
    var dtpErrCntFifo: seq<nat>
    var errCnt: nat
    ghost var put: seq<Word>
    ghost var got: seq<Word>
    ghost var taken: seq<Event>
    ghost var ready: seq<bool>
    ghost var parsed: seq<bool>
    ghost var waiting: seq<nat>
    ghost var heard: seq<seq<Event>>

    ghost function Abs(): State
      reads this
    {
      State(dtpRxInFifo, dtpRxOutFifo, dtpEventOutFifo, errCnt, dtpErrCntFifo, put, got, taken, ready, parsed, waiting, heard)
    }

    constructor ()
      ensures Abs() == RESET_STATE && Inv(Abs())
    {
      dtpRxInFifo, dtpRxOutFifo, dtpEventOutFifo, dtpErrCntFifo, errCnt := [], [], [], [], 0;
      put, got, taken, ready, parsed, waiting, heard := [], [], [], [], [], [], [];
      new;
      ResetInv();
    }

    method Enq(v: Word)
      requires Inv(Abs()) && CanPut(Abs()) && |v| == 66
      modifies this
      ensures Abs() == Put(old(Abs()), v) && Inv(Abs())
    {
      PutKeeps(Abs(), v);
      dtpRxInFifo := dtpRxInFifo + [v];
      put := put + [v];
    }

    method Deq() returns (v: Word)
      requires Inv(Abs()) && CanGet(Abs())
      modifies this
      ensures Abs() == Get(old(Abs())) && got == old(got) + [v] && Inv(Abs())
    {
      GetKeeps(Abs());
      v := dtpRxOutFifo[0];
      dtpRxOutFifo := dtpRxOutFifo[1..];
      got := got + [v];
    }

    method DeqEvent() returns (e: Event)
      requires Inv(Abs()) && CanTake(Abs())
      modifies this
      ensures Abs() == Take(old(Abs())) && taken == old(taken) + [e] && Inv(Abs())
    {
      TakeKeeps(Abs());
      e := dtpEventOutFifo[0];
      dtpEventOutFifo := dtpEventOutFifo[1..];
      taken := taken + [e];
    }

    /** rule rx_bypass */
    method RxBypass(ghost lock: bool)
      requires Inv(Abs()) && CanFire(Abs())
      modifies this
      ensures |old(Abs()).fifoIn[0]| == 66 && Abs() == Fire(old(Abs()), false, lock) && Inv(Abs())
    {
      FireKeeps(Abs(), false, lock);
      Bypass(lock);
    }

    method Bypass(ghost lock: bool)
      requires CanFire(Abs()) && |dtpRxInFifo[0]| == 66
      modifies this
      ensures Abs() == Fire(old(Abs()), false, lock)
    {
      var v := dtpRxInFifo[0];
      dtpRxInFifo := dtpRxInFifo[1..];
      dtpRxOutFifo := dtpRxOutFifo + [v];
      ready, parsed, waiting, heard := ready + [false], parsed + [false], waiting + [|dtpEventOutFifo|], heard + [[]];
      assert dtpEventOutFifo == dtpEventOutFifo + [];
    }

    /** rule parse_dtp_message */
    method ParseDtpMessage(bsyncLock: bool)
      requires Inv(Abs()) && CanFire(Abs())
      modifies this
      ensures |old(Abs()).fifoIn[0]| == 66 && Abs() == Fire(old(Abs()), true, bsyncLock) && Inv(Abs())
    {
      FireKeeps(Abs(), true, bsyncLock);
      Parse(bsyncLock);
    }

    method Parse(bsyncLock: bool)
      requires CanFire(Abs()) && |dtpRxInFifo[0]| == 66
      modifies this
      ensures Abs() == Fire(old(Abs()), true, bsyncLock)
    {
      var v := dtpRxInFifo[0];
      var vo, content := v, Plain;
      if v[0] && !v[1] && v[2..10] == ToBits(0x1e, 8) && bsyncLock {
        vo := v[..10] + Zeros(56);
        content := ContentOf(v);
      }
      Finish(bsyncLock, vo, content);
    }

    method Finish(bsyncLock: bool, vo: Word, content: Content)
      requires CanFire(Abs())
      modifies this
      ensures Abs() == Process(old(Abs()), true, bsyncLock, vo, content)
    {
      waiting, heard := waiting + [|dtpEventOutFifo|], heard + [EventsIn(content, |dtpEventOutFifo| < 2)];
      dtpRxInFifo := dtpRxInFifo[1..];
      Deliver(content);
      dtpRxOutFifo := dtpRxOutFifo + [vo];
      ready, parsed := ready + [true], parsed + [bsyncLock];
    }

    /** The if-else chain over the message types. */
    method Deliver(content: Content)
      modifies this`dtpEventOutFifo, this`errCnt, this`dtpErrCntFifo
      ensures dtpEventOutFifo == old(dtpEventOutFifo) + EventsIn(content, |old(dtpEventOutFifo)| < 2)
      ensures errCnt == if content.Unknown? then (old(errCnt) + 1) % 0x1_0000_0000 else old(errCnt)
      ensures dtpErrCntFifo == if content.Unknown? then old(dtpErrCntFifo) + [old(errCnt)] else old(dtpErrCntFifo)
    {
      match content {
        case Message(event) =>
          if |dtpEventOutFifo| < 2 {
            dtpEventOutFifo := dtpEventOutFifo + [event];
          }
        case Unknown =>
          dtpErrCntFifo := dtpErrCntFifo + [errCnt];
          errCnt := (errCnt + 1) % 0x1_0000_0000;
        case BadParity =>
        case Plain =>
      }
    }
  }
}
