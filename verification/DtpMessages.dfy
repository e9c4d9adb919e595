/**
  The DTP messages of an idle block, as the sending side lays them out
  (hw/bsv/DtpTx.bsv), and what the stripper of hw/bsv/DtpRx.bsv reads from them.
 */
module DtpMessages {
  import opened Bits
  import opened DtpRx

  /** A clock message with its 53-bit counter, or a log message with its 53-bit word. */
  datatype Message = Init(count: Word) | Ack(count: Word) | Beacon(count: Word) | Log(count: Word)

  /** The type number of a message. */
  function Number(m: Message): nat {
    match m
    case Init(_) => 1
    case Ack(_) => 2
    case Beacon(_) => 3
    case Log(_) => 4
  }

  ghost predicate Sized(m: Message) { |m.count| == 53 }

  function SetBits(w: Word): nat {
    if w == [] then 0 else SetBits(w[..|w| - 1]) + (if w[|w| - 1] then 1 else 0)
  }

  /** The number of set bits of w is odd. */
  predicate Odd(w: Word) { SetBits(w) % 2 == 1 }

  /**
    The 56 payload bits: three type bits and the counter. The third type bit of
    a clock message is its parity; that of a log message is set.
   */
  function Payload(m: Message): (w: Word)
    requires Sized(m)
    ensures |w| == 56
  {
    match m
    case Init(c) => [true, false, Odd(c)] + c
    case Ack(c) => [false, true, Odd(c)] + c
    case Beacon(c) => [true, true, Odd(c)] + c
    case Log(w) => [false, false, true] + w
  }

  /** An idle block with payload p. */
  function IdleWith(p: Word): (v: Word)
    requires |p| == 56
    ensures |v| == 66
  {
    ToBits(1, 2) + ToBits(0x1e, 8) + p
  }

  /** What the clock logic is to be told: the type number in three bits, and the counter. */
  function EventOf(m: Message): Event {
    Event(ToBits(Number(m), 3), m.count)
  }

  lemma {:induction false} ParityIsOdd(w: Word)
    ensures Parity(w) == Odd(w)
  {
    if w != [] {
      ParityIsOdd(w[..|w| - 1]);
    }
  }

  lemma IdleWithIsIdle(p: Word)
    requires |p| == 56
    ensures IsIdle(IdleWith(p)) && IdleWith(p)[10..] == p
  {
    var v := IdleWith(p);
    assert ToBits(1, 2) == [true, false];
    assert v[2..10] == ToBits(0x1e, 8);
  }

  /** The fields of a block by payload position. */
  lemma Fields(v: Word, p: Word)
    requires |v| == 66 && v[10..] == p
    ensures |p| == 56 && v[10] == p[0] && v[11] == p[1] && v[12] == p[2] && v[13..66] == p[3..]
  {
    assert p[0] == v[10..][0] && p[1] == v[10..][1] && p[2] == v[10..][2];
  }

  lemma TypeNumbers()
    ensures ToBits(1, 3) == [true, false, false] && ToBits(2, 3) == [false, true, false]
    ensures ToBits(3, 3) == [true, true, false] && ToBits(4, 3) == [false, false, true]
  {}

  /** A block with the payload of a message is read as that message. */
  lemma ReadsMessage(v: Word, m: Message)
    requires |v| == 66 && Sized(m) && v[10..] == Payload(m)
    ensures ContentOf(v) == DtpRx.Message(EventOf(m))
  {
    Fields(v, Payload(m));
    assert Payload(m)[3..] == m.count;
    ParityIsOdd(m.count);
    TypeNumbers();
  }

  /** Three clear type bits are no message, whatever follows. */
  lemma ReadsNothing(v: Word)
    requires |v| == 66 && !v[10] && !v[11] && !v[12]
    ensures ContentOf(v) == Plain
  {}

  /** A clock message with the wrong parity bit is refused. */
  lemma ReadsBadParity(v: Word, m: Message)
    requires |v| == 66 && Sized(m) && !m.Log? && v[10..] == Payload(m)[2 := !Odd(m.count)]
    ensures ContentOf(v) == BadParity
  {
    Fields(v, Payload(m)[2 := !Odd(m.count)]);
    assert Payload(m)[2 := !Odd(m.count)][3..] == m.count;
    ParityIsOdd(m.count);
  }

  /** Nothing else is read as a message: what is reported is the message the block was built from. */
  lemma OnlyMessages(v: Word) returns (m: Message)
    requires |v| == 66 && ContentOf(v).Message?
    ensures Sized(m) && v[10..] == Payload(m) && ContentOf(v).event == EventOf(m)
  {
    var c := v[13..66];
    m := if v[10] && !v[11] then Init(c) else if !v[10] && v[11] then Ack(c) else if v[10] && v[11] then Beacon(c) else Log(c);
    ParityIsOdd(c);
    assert v[10..] == [v[10], v[11], v[12]] + c;
    ReadsMessage(v, m);
  }
}
