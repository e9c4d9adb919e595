/**
  The two-word log messages of hw/bsv/DtpController.bsv: a write becomes a
  tag-0 word and a tag-1 word on its port, and the controller at the other end
  puts the two halves together again. Runs are free of DTP resets.
 */
module DtpLog {
  import Bits
  import Settling

  const PORTS := 4
  const MASK52 := 0x10_0000_0000_0000        // 2^52
  const MASK53 := 0x20_0000_0000_0000        // 2^53

  /** An entry of a log FIFO: a port and 64 bits of data. */
  datatype BufData = BufData(port: nat, data: nat)

  /** A 53-bit word on the wire: its tag bit and its 52 data bits. */
  datatype Item = Item(tag: bool, data: nat)

  /** A write request: the local counter sampled for it and the host's word. */
  datatype Write = Write(port: nat, local: nat, host: nat)

  function First(w: Write): Item { Item(false, w.local % MASK52) }
  function Second(w: Write): Item { Item(true, w.host % MASK52) }

  // ---- the writing side ----

  /** FIFOs and state, with all writes accepted and all words enqueued per port. */
  datatype Writer = Writer(cycle1: seq<BufData>, cycle2: seq<BufData>, chunkB: bool, fromHost: seq<seq<Item>>,
                           writes: seq<Write>, sent: seq<seq<Item>>)

  const WRITER_RESET := Writer([], [], false, [[], [], [], []], [], [[], [], [], []])

  predicate CanWrite(s: Writer) { |s.cycle1| < 3 && |s.cycle2| < 3 }

  /** method dtp_logger_write_cnt; a bad port number is ignored */
  function DoWrite(s: Writer, w: Write): Writer
    requires CanWrite(s)
  {
    if w.port < PORTS then
      s.(cycle1 := s.cycle1 + [BufData(w.port, w.local)], cycle2 := s.cycle2 + [BufData(w.port, w.host)],
         writes := s.writes + [w])
    else s
  }

  ghost predicate PortsOk(s: Writer) {
    && |s.fromHost| == |s.sent| == PORTS
    && (s.cycle1 != [] ==> s.cycle1[0].port < PORTS)
    && (s.cycle2 != [] ==> s.cycle2[0].port < PORTS)
  }

  function Enq(qs: seq<seq<Item>>, p: nat, x: Item): (r: seq<seq<Item>>)
    requires p < |qs|
    ensures |r| == |qs|
  {
    qs[p := qs[p] + [x]]
  }

  /** rule log_from_host_cycle */
  function LogFromHost(s: Writer): Writer
    requires PortsOk(s)
  {
    if !s.chunkB && s.cycle1 != [] then
      var v1 := s.cycle1[0];
      if |s.fromHost[v1.port]| < 8 then
        s.(fromHost := Enq(s.fromHost, v1.port, Item(false, v1.data % MASK52)),
           sent := Enq(s.sent, v1.port, Item(false, v1.data % MASK52)),
           cycle1 := s.cycle1[1..], chunkB := true)
      else s
    else if s.chunkB && s.cycle2 != [] then
      var v2 := s.cycle2[0];
      if |s.fromHost[v2.port]| < 8 then
        s.(fromHost := Enq(s.fromHost, v2.port, Item(true, v2.data % MASK52)),
           sent := Enq(s.sent, v2.port, Item(true, v2.data % MASK52)),
           cycle2 := s.cycle2[1..], chunkB := false)
      else s
    else s
  }

  /** The link takes a word of port p. */
  function Take(s: Writer, p: nat): Writer
    requires p < |s.fromHost| && s.fromHost[p] != []
  {
    s.(fromHost := s.fromHost[p := s.fromHost[p][1..]])
  }

  /** The writes to port p, in order. */
  function OnPort(ws: seq<Write>, p: nat): seq<Write> {
    if ws == [] then []
    else OnPort(ws[..|ws| - 1], p) + (if ws[|ws| - 1].port == p then [ws[|ws| - 1]] else [])
  }

  /** The words of whole writes: pairs of halves. */
  function Pairs(ws: seq<Write>): (r: seq<Item>)
    ensures |r| == 2 * |ws|
  {
    if ws == [] then [] else Pairs(ws[..|ws| - 1]) + [First(ws[|ws| - 1]), Second(ws[|ws| - 1])]
  }

  /** What port p has been sent when `done` writes are out and the next one is half out or not. */
  function SentOn(ws: seq<Write>, done: nat, half: bool, p: nat): seq<Item>
    requires done <= |ws| && (half ==> done < |ws|)
  {
    Pairs(OnPort(ws[..done], p)) + (if half && ws[done].port == p then [First(ws[done])] else [])
  }

  /** The queue holds what the writes from n on put into it. */
  ghost predicate Holds(q: seq<BufData>, ws: seq<Write>, n: nat, local: bool) {
    && n + |q| == |ws|
    && forall k :: 0 <= k < |q| ==> q[k] == BufData(ws[n + k].port, if local then ws[n + k].local else ws[n + k].host)
  }

  ghost predicate WriterInv(s: Writer) {
    && |s.fromHost| == |s.sent| == PORTS
    && (forall k :: 0 <= k < |s.writes| ==> s.writes[k].port < PORTS)
    && |s.cycle2| <= |s.writes|
    && var done := |s.writes| - |s.cycle2|;
    && (s.chunkB ==> done < |s.writes|)
    && Holds(s.cycle2, s.writes, done, false)
    && Holds(s.cycle1, s.writes, if s.chunkB then done + 1 else done, true)
    && forall p :: 0 <= p < PORTS ==> s.sent[p] == SentOn(s.writes, done, s.chunkB, p)
  }

  lemma SentPrefix(ws: seq<Write>, w: Write, done: nat, half: bool, p: nat)
    requires done <= |ws| && (half ==> done < |ws|)
    ensures SentOn(ws + [w], done, half, p) == SentOn(ws, done, half, p)
  {
    assert (ws + [w])[..done] == ws[..done];
  }

  lemma WriteKeeps(s: Writer, w: Write, t: Writer)
    requires WriterInv(s) && CanWrite(s) && t == DoWrite(s, w)
    ensures WriterInv(t)
  {
    if w.port < PORTS {
      var done := |s.writes| - |s.cycle2|;
      HoldsSnoc(s.cycle2, s.writes, done, false, w);
      HoldsSnoc(s.cycle1, s.writes, if s.chunkB then done + 1 else done, true, w);
      forall p | 0 <= p < PORTS
        ensures t.sent[p] == SentOn(t.writes, done, t.chunkB, p)
      {
        SentPrefix(s.writes, w, done, s.chunkB, p);
      }
    }
  }

  lemma HoldsSnoc(q: seq<BufData>, ws: seq<Write>, n: nat, local: bool, w: Write)
    requires Holds(q, ws, n, local)
    ensures Holds(q + [BufData(w.port, if local then w.local else w.host)], ws + [w], n, local)
  {}

  lemma HalfOut(ws: seq<Write>, done: nat, p: nat)
    requires done < |ws|
    ensures SentOn(ws, done, true, p) == SentOn(ws, done, false, p) + (if ws[done].port == p then [First(ws[done])] else [])
  {}

  lemma PairsSnoc(ws: seq<Write>, w: Write)
    ensures Pairs(ws + [w]) == Pairs(ws) + [First(w), Second(w)]
  {
    assert (ws + [w])[..|ws|] == ws;
  }

  lemma OnPortNext(ws: seq<Write>, done: nat, p: nat)
    requires done < |ws|
    ensures OnPort(ws[..done + 1], p) == OnPort(ws[..done], p) + (if ws[done].port == p then [ws[done]] else [])
  {
    assert ws[..done + 1][..done] == ws[..done];
  }

  lemma WholeOut(ws: seq<Write>, done: nat, p: nat)
    requires done < |ws|
    ensures SentOn(ws, done + 1, false, p) == SentOn(ws, done, true, p) + (if ws[done].port == p then [Second(ws[done])] else [])
  {
    var on, w := OnPort(ws[..done], p), ws[done];
    OnPortNext(ws, done, p);
    if w.port == p {
      PairsSnoc(on, w);
      TwoHalves(Pairs(on), First(w), Second(w));
    } else {
      assert OnPort(ws[..done + 1], p) == on;
    }
  }

  lemma TwoHalves(a: seq<Item>, x: Item, y: Item)
    ensures a + [x, y] + [] == a + [x] + [y]
  {}

  lemma FirstKeeps(s: Writer, t: Writer)
    requires WriterInv(s) && PortsOk(s) && t == LogFromHost(s) && !s.chunkB && t.chunkB
    ensures WriterInv(t)
  {
    var done := |s.writes| - |s.cycle2|;
    assert s.cycle1[0] == BufData(s.writes[done].port, s.writes[done].local);
    forall p | 0 <= p < PORTS
      ensures t.sent[p] == SentOn(t.writes, done, true, p)
    {
      HalfOut(s.writes, done, p);
    }
  }

  lemma SecondKeeps(s: Writer, t: Writer)
    requires WriterInv(s) && PortsOk(s) && t == LogFromHost(s) && s.chunkB && !t.chunkB
    ensures WriterInv(t)
  {
    var done := |s.writes| - |s.cycle2|;
    assert s.cycle2[0] == BufData(s.writes[done].port, s.writes[done].host);
    forall p | 0 <= p < PORTS
      ensures t.sent[p] == SentOn(t.writes, done + 1, false, p)
    {
      WholeOut(s.writes, done, p);
    }
  }

  lemma PortsAreOk(s: Writer)
    requires WriterInv(s)
    ensures PortsOk(s)
  {}

  lemma LogKeeps(s: Writer, t: Writer)
    requires WriterInv(s) && PortsOk(s) && t == LogFromHost(s)
    ensures WriterInv(t)
  {
    if t.chunkB && !s.chunkB {
      FirstKeeps(s, t);
    } else if !t.chunkB && s.chunkB {
      SecondKeeps(s, t);
    } else {
      assert t == s;
    }
  }

  lemma TakeKeeps(s: Writer, p: nat, t: Writer)
    requires WriterInv(s) && p < PORTS && s.fromHost[p] != [] && t == Take(s, p)
    ensures WriterInv(t)
  {}

  // ---- the reading side of one port ----

  /** What dtp_logger_read_cnt answers: a timestamp and the two halves. */
  datatype Response = Response(timestamp: nat, message1: nat, message2: nat)

  /** What the reading controller held when it saved a tag-0 word: its mode and its two counter registers. */
  datatype Sample = Sample(isSwitch: bool, local: nat, global: nat)

  /** FIFOs, with all words saved, all samples and timestamps taken and all responses given. */
  datatype Reader = Reader(toHost: seq<Item>, cycle1: seq<nat>, timestamp: seq<nat>, cycle2: seq<nat>,
                           got: seq<Item>, samples: seq<Sample>, stamps: seq<nat>, responses: seq<Response>)

  const READER_RESET := Reader([], [], [], [], [], [], [], [])

  /** The timestamp of a tag-0 word: the local counter of a NIC, the global counter of a switch. */
  function Stamp(c: Sample): nat {
    if c.isSwitch then (c.global + 4) % MASK53 else (c.local + 3) % MASK53
  }

  predicate CanSave(s: Reader) {
    && s.toHost != []
    && if s.toHost[0].tag then |s.cycle2| < 4 else |s.cycle1| < 4 && |s.timestamp| < 4
  }

  /** rule save_host_data */
  function Save(s: Reader, c: Sample): Reader
    requires CanSave(s)
  {
    var v := s.toHost[0];
    var t := s.(toHost := s.toHost[1..], got := s.got + [v]);
    if v.tag then t.(cycle2 := s.cycle2 + [v.data])
    else t.(cycle1 := s.cycle1 + [v.data], timestamp := s.timestamp + [Stamp(c)],
            samples := s.samples + [c], stamps := s.stamps + [Stamp(c)])
  }

  predicate CanRead(s: Reader) { s.cycle1 != [] && s.cycle2 != [] && s.timestamp != [] }

  /** method dtp_logger_read_cnt when it has something to answer */
  function Read(s: Reader): Reader
    requires CanRead(s)
  {
    s.(cycle1 := s.cycle1[1..], cycle2 := s.cycle2[1..], timestamp := s.timestamp[1..],
       responses := s.responses + [Response(s.timestamp[0], s.cycle1[0], s.cycle2[0])])
  }

  /** The data of the words with one tag, in order. */
  function Halves(items: seq<Item>, tag: bool): seq<nat> {
    if items == [] then []
    else Halves(items[..|items| - 1], tag) + Half(items[|items| - 1], tag)
  }

  function Half(v: Item, tag: bool): seq<nat> {
    if v.tag == tag then [v.data] else []
  }

  lemma HalvesSnoc(items: seq<Item>, v: Item, tag: bool)
    ensures Halves(items + [v], tag) == Halves(items, tag) + Half(v, tag)
  {
    assert (items + [v])[..|items|] == items;
  }

  lemma {:induction false} HalvesAppend(a: seq<Item>, b: seq<Item>, tag: bool)
    ensures Halves(a + b, tag) == Halves(a, tag) + Halves(b, tag)
  {
    if b == [] {
      assert a + b == a && Halves(b, tag) == [];
    } else {
      var front, v := b[..|b| - 1], b[|b| - 1];
      HalvesAppend(a, front, tag);
      assert b == front + [v];
      Bits.Assoc(a, front, [v]);
      HalvesSnoc(a + front, v, tag);
      HalvesSnoc(front, v, tag);
      Bits.Assoc(Halves(a, tag), Halves(front, tag), Half(v, tag));
    }
  }

  /** done items were answered, the others are in the queue. */
  ghost predicate Queued(all: seq<nat>, done: nat, q: seq<nat>) {
    done <= |all| && q == all[done..]
  }

  ghost predicate StampsFor(samples: seq<Sample>, stamps: seq<nat>) {
    |samples| == |stamps| && forall k :: 0 <= k < |stamps| ==> stamps[k] == Stamp(samples[k])
  }

  ghost predicate Answers(rs: seq<Response>, ones: seq<nat>, twos: seq<nat>, stamps: seq<nat>) {
    && |rs| <= |ones| && |rs| <= |twos| && |rs| <= |stamps|
    && forall k :: 0 <= k < |rs| ==> rs[k] == Response(stamps[k], ones[k], twos[k])
  }

  /**
    The k-th response combines the k-th tag-0 word, the k-th tag-1 word and the
    timestamp taken for that tag-0 word.
   */
  ghost predicate ReaderInv(s: Reader) {
    && Queued(Halves(s.got, false), |s.responses|, s.cycle1)
    && Queued(Halves(s.got, true), |s.responses|, s.cycle2)
    && Queued(s.stamps, |s.responses|, s.timestamp)
    && |s.stamps| == |Halves(s.got, false)|
    && StampsFor(s.samples, s.stamps)
    && Answers(s.responses, Halves(s.got, false), Halves(s.got, true), s.stamps)
  }

  lemma QueuedSnoc(all: seq<nat>, done: nat, q: seq<nat>, x: nat)
    requires Queued(all, done, q)
    ensures Queued(all + [x], done, q + [x])
  {}

  lemma AnswersGrow(rs: seq<Response>, ones: seq<nat>, twos: seq<nat>, stamps: seq<nat>,
                    ones': seq<nat>, twos': seq<nat>, stamps': seq<nat>)
    requires Answers(rs, ones, twos, stamps) && ones <= ones' && twos <= twos' && stamps <= stamps'
    ensures Answers(rs, ones', twos', stamps')
  {}

  lemma SaveKeeps(s: Reader, c: Sample, t: Reader)
    requires ReaderInv(s) && CanSave(s) && t == Save(s, c)
    ensures ReaderInv(t)
  {
    var v, n, stamp := s.toHost[0], |s.responses|, Stamp(c);
    var ones, twos := Halves(s.got, false), Halves(s.got, true);
    HalvesSnoc(s.got, v, false);
    HalvesSnoc(s.got, v, true);
    if v.tag {
      assert Halves(t.got, false) == ones;
      QueuedSnoc(twos, n, s.cycle2, v.data);
      AnswersGrow(s.responses, ones, twos, s.stamps, ones, twos + [v.data], s.stamps);
    } else {
      assert Halves(t.got, true) == twos;
      QueuedSnoc(ones, n, s.cycle1, v.data);
      QueuedSnoc(s.stamps, n, s.timestamp, stamp);
      AnswersGrow(s.responses, ones, twos, s.stamps, ones + [v.data], twos, s.stamps + [stamp]);
    }
  }

  lemma ReadKeeps(s: Reader, t: Reader)
    requires ReaderInv(s) && CanRead(s) && t == Read(s)
    ensures ReaderInv(t)
  {}

  // ---- two controllers and the link between port p and port p ----

  /** A writing controller, an in-order lossless link, and the reading port at its end. */
  datatype System = System(w: Writer, wire: seq<Item>, r: Reader)

  const RESET := System(WRITER_RESET, [], READER_RESET)

  datatype Action =
    | LoggerWrite(w: Write) | LogFromHostCycle
    | Leave(q: nat)             // a word of port q leaves the writing controller
    | Arrive                    // a word of port p arrives at the reading controller
    | SaveHostData(c: Sample) | LoggerRead

  ghost predicate Enabled(s: System, a: Action, p: nat) {
    match a
    case LoggerWrite(_) => CanWrite(s.w)
    case LogFromHostCycle => PortsOk(s.w)
    case Leave(q) => q < |s.w.fromHost| && s.w.fromHost[q] != []
    case Arrive => s.wire != [] && |s.r.toHost| < 8
    case SaveHostData(c) => CanSave(s.r) && c.local < MASK53 && c.global < MASK53
    case LoggerRead => CanRead(s.r)
  }

  ghost function Step(s: System, a: Action, p: nat): System
    requires Enabled(s, a, p)
  {
    match a
    case LoggerWrite(w) => s.(w := DoWrite(s.w, w))
    case LogFromHostCycle => s.(w := LogFromHost(s.w))
    case Leave(q) => s.(w := Take(s.w, q), wire := if q == p then s.wire + [s.w.fromHost[q][0]] else s.wire)
    case Arrive => s.(wire := s.wire[1..], r := s.r.(toHost := s.r.toHost + [s.wire[0]]))
    case SaveHostData(c) => s.(r := Save(s.r, c))
    case LoggerRead => s.(r := Read(s.r))
  }

  /** The state after any sequence of attempted actions. */
  ghost function After(acts: seq<Action>, p: nat): System {
    if acts == [] then RESET
    else
      var s, a := After(acts[..|acts| - 1], p), acts[|acts| - 1];
      if Enabled(s, a, p) then Step(s, a, p) else s
  }

  /** Every word of port p is in one place, in order. */
  ghost predicate Link(s: System, p: nat) {
    && p < |s.w.sent| && p < |s.w.fromHost|
    && s.w.sent[p] == s.r.got + s.r.toHost + s.wire + s.w.fromHost[p]
  }

  /** The counter registers are 53 bits wide. */
  ghost predicate Registers(samples: seq<Sample>) {
    forall k :: 0 <= k < |samples| ==> samples[k].local < MASK53 && samples[k].global < MASK53
  }

  ghost predicate Inv(s: System, p: nat) {
    WriterInv(s.w) && ReaderInv(s.r) && Link(s, p) && Registers(s.r.samples)
  }

  lemma WriterSide(s: Writer, a: Action, t: Writer)
    requires WriterInv(s)
    requires match a
             case LoggerWrite(w) => CanWrite(s) && t == DoWrite(s, w)
             case LogFromHostCycle => PortsOk(s) && t == LogFromHost(s)
             case Leave(q) => q < PORTS && s.fromHost[q] != [] && t == Take(s, q)
             case _ => t == s
    ensures WriterInv(t)
  {
    match a
    case LoggerWrite(w) => WriteKeeps(s, w, t);
    case LogFromHostCycle => LogKeeps(s, t);
    case Leave(q) => TakeKeeps(s, q, t);
    case _ =>
  }

  lemma ReaderSide(s: System, a: Action, p: nat, t: System)
    requires ReaderInv(s.r) && Registers(s.r.samples) && Enabled(s, a, p) && t == Step(s, a, p)
    ensures ReaderInv(t.r) && Registers(t.r.samples)
  {
    match a
    case SaveHostData(c) => SaveKeeps(s.r, c, t.r);
    case LoggerRead => ReadKeeps(s.r, t.r);
    case _ =>
  }

  lemma LinkStep(s: System, a: Action, p: nat, t: System)
    requires Link(s, p) && Enabled(s, a, p) && t == Step(s, a, p)
    ensures Link(t, p)
  {}

  lemma StepKeeps(s: System, a: Action, p: nat, t: System)
    requires p < PORTS && Inv(s, p) && Enabled(s, a, p) && t == Step(s, a, p)
    ensures Inv(t, p)
  {
    WriterSide(s.w, a, t.w);
    ReaderSide(s, a, p, t);
    LinkStep(s, a, p, t);
  }

  lemma {:induction false} RunsKeepInv(acts: seq<Action>, p: nat)
    requires p < PORTS
    ensures Inv(After(acts, p), p)
  {
    if acts != [] {
      var s, a := After(acts[..|acts| - 1], p), acts[|acts| - 1];
      RunsKeepInv(acts[..|acts| - 1], p);
      if Enabled(s, a, p) {
        StepKeeps(s, a, p, Step(s, a, p));
      }
    } else {
      ResetInv(p);
    }
  }

  lemma ResetInv(p: nat)
    requires p < PORTS
    ensures Inv(RESET, p)
  {
    ReaderReset();
    WriterReset();
  }

  lemma ReaderReset()
    ensures ReaderInv(READER_RESET)
  {}

  lemma WriterReset()
    ensures WriterInv(WRITER_RESET)
  {
    forall p | 0 <= p < PORTS
      ensures SentOn([], 0, false, p) == []
    {}
  }

  // ---- pairing ----

  lemma {:induction false} HalvesOfPairs(ws: seq<Write>, tag: bool)
    ensures |Halves(Pairs(ws), tag)| == |ws|
    ensures forall k :: 0 <= k < |ws| ==> Halves(Pairs(ws), tag)[k] == (if tag then Second(ws[k]) else First(ws[k])).data
  {
    if ws != [] {
      var front, w := ws[..|ws| - 1], ws[|ws| - 1];
      assert ws == front + [w];
      HalvesOfPairs(front, tag);
      HalvesOfSnoc(front, w, tag);
      forall k | 0 <= k < |ws|
        ensures Halves(Pairs(ws), tag)[k] == (if tag then Second(ws[k]) else First(ws[k])).data
      {
        if k < |front| {
          assert front[k] == ws[k];
        }
      }
    }
  }

  lemma HalvesOfSnoc(ws: seq<Write>, w: Write, tag: bool)
    ensures Halves(Pairs(ws + [w]), tag) == Halves(Pairs(ws), tag) + [(if tag then Second(w) else First(w)).data]
  {
    PairsSnoc(ws, w);
    HalvesAppend(Pairs(ws), [First(w), Second(w)], tag);
    HalvesOfTwo(First(w), Second(w), tag);
  }

  lemma HalvesOfTwo(x: Item, y: Item, tag: bool)
    requires !x.tag && y.tag
    ensures Halves([x, y], tag) == [if tag then y.data else x.data]
  {
    assert [] + [x] == [x] && [x] + [y] == [x, y];
    HalvesSnoc([], x, tag);
    HalvesSnoc([x], y, tag);
  }

  lemma {:induction false} OnPortPrefix(ws: seq<Write>, n: nat, p: nat)
    requires n <= |ws|
    ensures OnPort(ws[..n], p) <= OnPort(ws, p)
    ensures n < |ws| && ws[n].port == p ==> OnPort(ws[..n], p) + [ws[n]] <= OnPort(ws, p)
  {
    if n < |ws| {
      var front := ws[..|ws| - 1];
      if n < |front| {
        OnPortPrefix(front, n, p);
        assert front[..n] == ws[..n];
      } else {
        assert front == ws[..n];
      }
    } else {
      assert ws[..n] == ws;
    }
  }

  /** The words sent on a port are pairs of halves of its writes, in order, the last one perhaps half out. */
  lemma SentIsPairs(ws: seq<Write>, done: nat, half: bool, p: nat)
    requires done <= |ws| && (half ==> done < |ws|)
    ensures SentOn(ws, done, half, p) <= Pairs(OnPort(ws, p))
  {
    OnPortPrefix(ws, done, p);
    var on := OnPort(ws[..done], p);
    PairsPrefix(on, OnPort(ws, p));
    if half && ws[done].port == p {
      PairsPrefix(on + [ws[done]], OnPort(ws, p));
      PairsSnoc(on, ws[done]);
    }
  }

  /** In every run the words sent on a port are a prefix of the tag-0/tag-1 pairs of its writes. */
  lemma RunsSendPairs(acts: seq<Action>, p: nat, q: nat)
    requires p < PORTS && q < PORTS
    ensures |After(acts, p).w.sent| == PORTS
    ensures After(acts, p).w.sent[q] <= Pairs(OnPort(After(acts, p).w.writes, q))
  {
    RunsKeepInv(acts, p);
    SendsPairs(After(acts, p).w, q);
  }

  lemma SendsPairs(w: Writer, q: nat)
    requires q < PORTS && WriterInv(w)
    ensures |w.sent| == PORTS && w.sent[q] <= Pairs(OnPort(w.writes, q))
  {
    SentIsPairs(w.writes, |w.writes| - |w.cycle2|, w.chunkB, q);
  }

  lemma {:induction false} PairsPrefix(a: seq<Write>, b: seq<Write>)
    requires a <= b
    ensures Pairs(a) <= Pairs(b)
    decreases |b|
  {
    if |a| < |b| {
      PairsPrefix(a, b[..|b| - 1]);
    } else {
      assert a == b;
    }
  }

  lemma HalvesPrefix(a: seq<Item>, b: seq<Item>, tag: bool)
    requires a <= b
    ensures Halves(a, tag) <= Halves(b, tag)
  {
    HalvesAppend(a, b[|a|..], tag);
    assert b == a + b[|a|..];
  }

  /** t is c plus d on a 53-bit register. */
  ghost predicate Later(t: nat, c: nat, d: nat) {
    t < MASK53 && (t == c + d || t + MASK53 == c + d)
  }

  /**
    The response pairs the halves of one write, modulo 2^52, with a timestamp:
    on a NIC its local counter plus 3, whatever the global one is, on a switch
    its global counter plus 4, whatever the local one is.
   */
  ghost predicate ResponseFor(resp: Response, w: Write, c: Sample) {
    && resp.message1 == w.local % MASK52 && resp.message2 == w.host % MASK52
    && (!c.isSwitch ==> Later(resp.timestamp, c.local, 3))
    && (c.isSwitch ==> Later(resp.timestamp, c.global, 4))
  }

  /**
    Halves never mix: in every reset-free run, for every port, the j-th read
    returns the words of the j-th write to that port modulo 2^52, with the
    timestamp of the moment its first half was saved.
   */
  lemma ReadsReturnWrites(acts: seq<Action>, p: nat, j: nat)
    requires p < PORTS && j < |After(acts, p).r.responses|
    ensures var s := After(acts, p);
            var ws := WritesTo(acts, p);
            && j < |ws| && j < |SamplesOf(acts, p)| == |Halves(s.r.got, false)|
            && ResponseFor(s.r.responses[j], ws[j], SamplesOf(acts, p)[j])
  {
    RunsKeepInv(acts, p);
    SamplesAreThoseOfTheRun(acts, p);
    WritesAreThoseOfTheRun(acts, p);
    Answered(After(acts, p), p, j);
    StampIsLater(After(acts, p).r.samples[j]);
  }

  /** The registers at the actions of a run that save a tag-0 word, in order. */
  ghost function SamplesOf(acts: seq<Action>, p: nat): seq<Sample> {
    if acts == [] then []
    else
      var front, a := acts[..|acts| - 1], acts[|acts| - 1];
      var s := After(front, p);
      SamplesOf(front, p) + (if a.SaveHostData? && Enabled(s, a, p) && !s.r.toHost[0].tag then [a.c] else [])
  }

  lemma {:induction false} SamplesAreThoseOfTheRun(acts: seq<Action>, p: nat)
    ensures After(acts, p).r.samples == SamplesOf(acts, p)
  {
    if acts != [] {
      SamplesAreThoseOfTheRun(acts[..|acts| - 1], p);
    }
  }

  /** The writes to port p that the controller accepts in a run, in order. */
  ghost function WritesTo(acts: seq<Action>, p: nat): seq<Write> {
    if acts == [] then []
    else
      var front, a := acts[..|acts| - 1], acts[|acts| - 1];
      WritesTo(front, p) + (if a.LoggerWrite? && a.w.port == p && Enabled(After(front, p), a, p) then [a.w] else [])
  }

  lemma StepWrites(s: System, a: Action, p: nat, t: System)
    requires p < PORTS && Enabled(s, a, p) && t == Step(s, a, p)
    ensures OnPort(t.w.writes, p) == OnPort(s.w.writes, p) + (if a.LoggerWrite? && a.w.port == p then [a.w] else [])
  {
    if a.LoggerWrite? && a.w.port < PORTS {
      OnPortSnoc(s.w.writes, a.w, p);
    }
  }

  lemma {:induction false} WritesAreThoseOfTheRun(acts: seq<Action>, p: nat)
    requires p < PORTS
    ensures OnPort(After(acts, p).w.writes, p) == WritesTo(acts, p)
  {
    if acts != [] {
      var front, a := acts[..|acts| - 1], acts[|acts| - 1];
      WritesAreThoseOfTheRun(front, p);
      if Enabled(After(front, p), a, p) {
        StepWrites(After(front, p), a, p, After(acts, p));
      }
    }
  }

  lemma StampIsLater(c: Sample)
    requires c.local < MASK53 && c.global < MASK53
    ensures !c.isSwitch ==> Later(Stamp(c), c.local, 3)
    ensures c.isSwitch ==> Later(Stamp(c), c.global, 4)
  {}

  lemma GotIsPairs(s: System, p: nat)
    requires p < PORTS && WriterInv(s.w) && Link(s, p)
    ensures s.r.got <= Pairs(OnPort(s.w.writes, p))
  {
    SentIsPairs(s.w.writes, |s.w.writes| - |s.w.cycle2|, s.w.chunkB, p);
    assert s.r.got <= s.w.sent[p];
  }

  lemma Answered(s: System, p: nat, j: nat)
    requires p < PORTS && Inv(s, p) && j < |s.r.responses|
    ensures var ws := OnPort(s.w.writes, p);
            && j < |ws| && j < |s.r.samples|
            && s.r.responses[j] == Response(Stamp(s.r.samples[j]), ws[j].local % MASK52, ws[j].host % MASK52)
  {
    var ws := OnPort(s.w.writes, p);
    GotIsPairs(s, p);
    HalvesPrefix(s.r.got, Pairs(ws), false);
    HalvesPrefix(s.r.got, Pairs(ws), true);
    HalvesOfPairs(ws, false);
    HalvesOfPairs(ws, true);
  }

  // ---- nothing gets stuck ----

  lemma {:induction false} TagsAlternate(ws: seq<Write>, i: nat)
    requires i < 2 * |ws|
    ensures Pairs(ws)[i].tag == (i % 2 == 1)
  {
    if i < 2 * |ws| - 2 {
      TagsAlternate(ws[..|ws| - 1], i);
    }
  }

  lemma {:induction false} CountHalves(got: seq<Item>)
    requires forall i :: 0 <= i < |got| ==> got[i].tag == (i % 2 == 1)
    ensures |Halves(got, false)| == (|got| + 1) / 2 && |Halves(got, true)| == |got| / 2
  {
    if got != [] {
      CountHalves(got[..|got| - 1]);
    }
  }

  /** Only a new write can change anything: the link moves what it can, and the host keeps reading. */
  ghost predicate Quiet(s: System, p: nat) {
    forall a :: Enabled(s, a, p) && !a.LoggerWrite? ==> Step(s, a, p) == s
  }

  lemma TakeShrinks(w: Writer, q: nat)
    requires q < |w.fromHost| && w.fromHost[q] != []
    ensures Take(w, q) != w
  {
    assert |Take(w, q).fromHost[q]| < |w.fromHost[q]|;
  }

  lemma WriterDrains(s: System, p: nat)
    requires p < PORTS && WriterInv(s.w) && Quiet(s, p)
    ensures s.w.fromHost[p] == [] && s.w.sent[p] == Pairs(OnPort(s.w.writes, p))
  {
    forall q: nat | q < PORTS
      ensures s.w.fromHost[q] == []
    {
      if s.w.fromHost[q] != [] {
        TakeShrinks(s.w, q);
        assert Enabled(s, Leave(q), p);
      }
    }
    PortsAreOk(s.w);
    assert Step(s, LogFromHostCycle, p) == s;
    assert LogFromHost(s.w) == s.w;
    assert !s.w.chunkB && s.w.cycle2 == [];
    assert s.w.writes[..|s.w.writes|] == s.w.writes;
  }

  lemma ReaderDrains(s: System, p: nat)
    requires ReaderInv(s.r) && Quiet(s, p)
    requires |Halves(s.r.got, false)| == (|s.r.got| + 1) / 2 && |Halves(s.r.got, true)| == |s.r.got| / 2
    ensures s.r.toHost == [] && |s.r.responses| == |s.r.got| / 2
  {
    assert !CanRead(s.r) by {
      assert Enabled(s, LoggerRead, p) ==> Step(s, LoggerRead, p) == s;
    }
    assert !CanSave(s.r) by {
      var a := SaveHostData(Sample(false, 0, 0));
      assert Enabled(s, a, p) ==> Step(s, a, p) == s;
    }
  }

  /** When the link is quiet every write to the port has been answered. */
  lemma EveryWriteIsRead(acts: seq<Action>, p: nat)
    requires p < PORTS && Quiet(After(acts, p), p)
    ensures |After(acts, p).r.responses| == |WritesTo(acts, p)|
  {
    RunsKeepInv(acts, p);
    WritesAreThoseOfTheRun(acts, p);
    AllAnswered(After(acts, p), p);
  }

  lemma AllAnswered(s: System, p: nat)
    requires p < PORTS && Inv(s, p) && Quiet(s, p)
    ensures |s.r.responses| == |OnPort(s.w.writes, p)|
  {
    var ws := OnPort(s.w.writes, p);
    GotIsPairs(s, p);
    forall i | 0 <= i < |s.r.got|
      ensures s.r.got[i].tag == (i % 2 == 1)
    {
      TagsAlternate(ws, i);
    }
    CountHalves(s.r.got);
    ReaderDrains(s, p);
    WriterDrains(s, p);
    assert s.wire == [] by {
      assert Enabled(s, Arrive, p) ==> Step(s, Arrive, p) == s;
    }
    assert s.r.got == Pairs(ws);
  }

  // ---- every write is read ----

  /** Work left for the rules and the link. */
  ghost function Work(s: System): nat {
    5 * |s.w.cycle1| + 5 * |s.w.cycle2| + 4 * Bits.Items(s.w.fromHost) + 3 * |s.wire|
    + 2 * |s.r.toHost| + |s.r.cycle1| + |s.r.cycle2|
  }

  /** A step that changes something and is not a new write. */
  ghost predicate Moving(s: System, t: System, p: nat) {
    exists a :: Enabled(s, a, p) && !a.LoggerWrite? && t == Step(s, a, p) && t != s
  }

  lemma LogLowers(w: Writer, v: Writer)
    requires PortsOk(w) && v == LogFromHost(w) && v != w
    ensures 5 * |v.cycle1| + 5 * |v.cycle2| + 4 * Bits.Items(v.fromHost) < 5 * |w.cycle1| + 5 * |w.cycle2| + 4 * Bits.Items(w.fromHost)
    ensures v.writes == w.writes
  {
    var q := if !w.chunkB then w.cycle1[0].port else w.cycle2[0].port;
    Bits.ItemsUpdate(w.fromHost, q, v.fromHost[q]);
  }

  lemma MovingLowers(s: System, t: System, p: nat)
    requires p < PORTS && Inv(s, p) && Moving(s, t, p)
    ensures Inv(t, p) && t.w.writes == s.w.writes && Work(t) < Work(s)
  {
    var a :| Enabled(s, a, p) && !a.LoggerWrite? && t == Step(s, a, p) && t != s;
    StepKeeps(s, a, p, t);
    ActionLowers(s, a, p, t);
  }

  lemma ActionLowers(s: System, a: Action, p: nat, t: System)
    requires Enabled(s, a, p) && !a.LoggerWrite? && t == Step(s, a, p) && t != s
    ensures t.w.writes == s.w.writes && Work(t) < Work(s)
  {
    match a
    case LogFromHostCycle => LogLowers(s.w, t.w);
    case Leave(q) => Bits.ItemsUpdate(s.w.fromHost, q, s.w.fromHost[q][1..]);
    case _ =>
  }

  ghost function InvFor(p: nat, ws: seq<Write>): System -> bool {
    (s: System) => Inv(s, p) && s.w.writes == ws
  }

  ghost function Inside(p: nat): (System, System) -> bool {
    (s: System, t: System) => Moving(s, t, p)
  }

  ghost function WorkLeft(): System -> nat { (s: System) => Work(s) }

  lemma InsideLowers(p: nat, ws: seq<Write>)
    requires p < PORTS
    ensures Settling.Lowers(InvFor(p, ws), Inside(p), WorkLeft())
  {
    forall s, t | InvFor(p, ws)(s) && Inside(p)(s, t)
      ensures InvFor(p, ws)(t) && WorkLeft()(t) < WorkLeft()(s)
    {
      MovingLowers(s, t, p);
    }
  }

  lemma RestIsQuiet(t: System, p: nat)
    requires Settling.AtRest(Inside(p), t)
    ensures Quiet(t, p)
  {
    forall a | Enabled(t, a, p) && !a.LoggerWrite?
      ensures Step(t, a, p) == t
    {
      assert !Inside(p)(t, Step(t, a, p));
    }
  }

  /**
    Every write gets read: in every run the link goes on, within Work steps and
    without a new write, until every write to the port has been answered.
   */
  lemma WritesGetRead(acts: seq<Action>, p: nat) returns (t: System, n: nat)
    requires p < PORTS
    ensures Settling.Leads(Inside(p), After(acts, p), t, n) && n <= Work(After(acts, p))
    ensures t.w.writes == After(acts, p).w.writes && |t.r.responses| == |OnPort(t.w.writes, p)| == |WritesTo(acts, p)|
  {
    var s := After(acts, p);
    RunsKeepInv(acts, p);
    WritesAreThoseOfTheRun(acts, p);
    InsideLowers(p, s.w.writes);
    t, n := Settling.ComesToRest(InvFor(p, s.w.writes), Inside(p), WorkLeft(), s);
    RestIsQuiet(t, p);
    AllAnswered(t, p);
  }

  /** No choice of rules can put that off. */
  lemma NothingGoesOnForEver(acts: seq<Action>, p: nat, t: System, n: nat)
    requires p < PORTS && Settling.Leads(Inside(p), After(acts, p), t, n)
    ensures n <= Work(After(acts, p))
  {
    var s := After(acts, p);
    RunsKeepInv(acts, p);
    InsideLowers(p, s.w.writes);
    Settling.StepsAreBounded(InvFor(p, s.w.writes), Inside(p), WorkLeft(), s, t, n);
  }

  // ---- the program's own form ----

  const WRAP32 := 0x1_0000_0000

  function Inc32(n: nat): nat { (n + 1) % WRAP32 }

  lemma CountUp(n: nat)
    ensures Inc32(n % WRAP32) == (n + 1) % WRAP32
  {}

  lemma OnPortSnoc(ws: seq<Write>, w: Write, p: nat)
    ensures OnPort(ws + [w], p) == OnPort(ws, p) + (if w.port == p then [w] else [])
  {
    assert (ws + [w])[..|ws|] == ws;
  }

  /** One counter per port, for the items of one kind on that port. */
  ghost predicate Counts(cnt: seq<nat>, items: seq<nat>) {
    |cnt| == |items| == PORTS && forall p :: 0 <= p < PORTS ==> cnt[p] == items[p] % WRAP32
  }

  lemma CountsUp(cnt: seq<nat>, items: seq<nat>, q: nat, items': seq<nat>)
    requires Counts(cnt, items) && q < PORTS && |items'| == PORTS
    requires forall p :: 0 <= p < PORTS ==> items'[p] == items[p] + (if p == q then 1 else 0)
    ensures Counts(cnt[q := Inc32(cnt[q])], items')
  {
    CountUp(items[q]);
  }

  /** Writes accepted on each port, and halves sent on each port. */
  ghost function WritesOn(ws: seq<Write>): seq<nat> {
    seq(PORTS, p requires 0 <= p < PORTS => |OnPort(ws, p)|)
  }

  ghost function HalvesOn(sent: seq<seq<Item>>, tag: bool): seq<nat>
    requires |sent| == PORTS
  {
    seq(PORTS, p requires 0 <= p < PORTS => |Halves(sent[p], tag)|)
  }

  /** The log part of mkDtpController. */
  class LogController {
    var lwriteDataCycle1: seq<BufData>
    var lwriteDataCycle2: seq<BufData>
    var chunkB: bool
    var fromHostFifo: seq<seq<Item>>
    var lwriteCntEnq: seq<nat>
    var lwriteCntDeq1: seq<nat>
    var lwriteCntDeq2: seq<nat>
    ghost var writes: seq<Write>
    ghost var sent: seq<seq<Item>>

    ghost function Abs(): Writer
      reads this
    {
      Writer(lwriteDataCycle1, lwriteDataCycle2, chunkB, fromHostFifo, writes, sent)
    }

    /** The debug counters are exact, modulo 2^32. */
    ghost predicate Counted()
      reads this
    {
      && |sent| == PORTS && Counts(lwriteCntEnq, WritesOn(writes))
      && Counts(lwriteCntDeq1, HalvesOn(sent, false)) && Counts(lwriteCntDeq2, HalvesOn(sent, true))
    }

    constructor ()
      ensures Abs() == WRITER_RESET && WriterInv(Abs()) && Counted()
    {
      lwriteDataCycle1, lwriteDataCycle2, chunkB, writes := [], [], false, [];
      fromHostFifo, sent := [[], [], [], []], [[], [], [], []];
      lwriteCntEnq, lwriteCntDeq1, lwriteCntDeq2 := [0, 0, 0, 0], [0, 0, 0, 0], [0, 0, 0, 0];
      new;
      WriterReset();
    }

    /** dtp_logger_write_cnt; cLocal is the port's snapshot register */
    method LoggerWriteCnt(portNo: nat, hostTimestamp: nat, cLocal: nat)
      requires WriterInv(Abs()) && Counted() && CanWrite(Abs())
      modifies this
      ensures Abs() == DoWrite(old(Abs()), Write(portNo, cLocal, hostTimestamp))
      ensures WriterInv(Abs()) && Counted()
    {
      WriteKeeps(Abs(), Write(portNo, cLocal, hostTimestamp), DoWrite(Abs(), Write(portNo, cLocal, hostTimestamp)));
      Accept(portNo, hostTimestamp, cLocal);
    }

    method Accept(portNo: nat, hostTimestamp: nat, cLocal: nat)
      requires CanWrite(Abs()) && Counted()
      modifies this
      ensures Abs() == DoWrite(old(Abs()), Write(portNo, cLocal, hostTimestamp)) && Counted()
    {
      if portNo < PORTS {
        ghost var w := Write(portNo, cLocal, hostTimestamp);
        forall p | 0 <= p < PORTS
          ensures WritesOn(writes + [w])[p] == WritesOn(writes)[p] + (if p == portNo then 1 else 0)
        {
          OnPortSnoc(writes, w, p);
        }
        CountsUp(lwriteCntEnq, WritesOn(writes), portNo, WritesOn(writes + [w]));
        lwriteDataCycle1 := lwriteDataCycle1 + [BufData(portNo, cLocal)];
        lwriteDataCycle2 := lwriteDataCycle2 + [BufData(portNo, hostTimestamp)];
        lwriteCntEnq := lwriteCntEnq[portNo := Inc32(lwriteCntEnq[portNo])];
        writes := writes + [w];
      }
    }

    /** rule log_from_host_cycle */
    method LogFromHostCycleRule()
      requires WriterInv(Abs()) && Counted()
      modifies this
      ensures PortsOk(old(Abs())) && Abs() == LogFromHost(old(Abs()))
      ensures WriterInv(Abs()) && Counted()
    {
      PortsAreOk(Abs());
      LogKeeps(Abs(), LogFromHost(Abs()));
      SendHalf();
    }

    method SendHalf()
      requires PortsOk(Abs()) && Counted()
      modifies this
      ensures Abs() == LogFromHost(old(Abs())) && Counted()
    {
      if !chunkB && lwriteDataCycle1 != [] {
        var v1 := lwriteDataCycle1[0];
        if |fromHostFifo[v1.port]| < 8 {
          SendOn(v1.port, Item(false, v1.data % MASK52));
          lwriteDataCycle1 := lwriteDataCycle1[1..];
          chunkB := true;
        }
      } else if chunkB && lwriteDataCycle2 != [] {
        var v2 := lwriteDataCycle2[0];
        if |fromHostFifo[v2.port]| < 8 {
          SendOn(v2.port, Item(true, v2.data % MASK52));
          lwriteDataCycle2 := lwriteDataCycle2[1..];
          chunkB := false;
        }
      }
    }

    method SendOn(p: nat, x: Item)
      requires p < PORTS == |fromHostFifo| && Counted()
      modifies this`fromHostFifo, this`sent, this`lwriteCntDeq1, this`lwriteCntDeq2
      ensures fromHostFifo == Enq(old(fromHostFifo), p, x) && sent == Enq(old(sent), p, x) && Counted()
    {
      ghost var next := Enq(sent, p, x);
      HalfCounted(sent, p, x, false);
      HalfCounted(sent, p, x, true);
      if x.tag {
        CountsUp(lwriteCntDeq2, HalvesOn(sent, true), p, HalvesOn(next, true));
        lwriteCntDeq2 := lwriteCntDeq2[p := Inc32(lwriteCntDeq2[p])];
      } else {
        CountsUp(lwriteCntDeq1, HalvesOn(sent, false), p, HalvesOn(next, false));
        lwriteCntDeq1 := lwriteCntDeq1[p := Inc32(lwriteCntDeq1[p])];
      }
      fromHostFifo := fromHostFifo[p := fromHostFifo[p] + [x]];
      sent := next;
    }
  }

  lemma HalfCounted(sent: seq<seq<Item>>, q: nat, x: Item, tag: bool)
    requires |sent| == PORTS && q < PORTS
    ensures forall p :: 0 <= p < PORTS ==>
              HalvesOn(Enq(sent, q, x), tag)[p] == HalvesOn(sent, tag)[p] + (if p == q && x.tag == tag then 1 else 0)
  {
    HalvesSnoc(sent[q], x, tag);
  }

  /** The FIFOs of one port that save_host_data fills and dtp_logger_read_cnt empties. */
  class LogReadPort {
    var toHostFifo: seq<Item>
    var lreadDataCycle1: seq<nat>
    var lreadDataTimestamp: seq<nat>
    var lreadDataCycle2: seq<nat>
    var lreadCntEnq1: nat
    var lreadCntEnq2: nat
    var lreadCntDeq: nat
    ghost var got: seq<Item>
    ghost var samples: seq<Sample>
    ghost var stamps: seq<nat>
    ghost var responses: seq<Response>

    ghost function Abs(): Reader
      reads this
    {
      Reader(toHostFifo, lreadDataCycle1, lreadDataTimestamp, lreadDataCycle2, got, samples, stamps, responses)
    }

    /** The debug counters are exact, modulo 2^32. */
    ghost predicate Counted()
      reads this
    {
      && lreadCntEnq1 == |Halves(got, false)| % WRAP32 && lreadCntEnq2 == |Halves(got, true)| % WRAP32
      && lreadCntDeq == |responses| % WRAP32
    }

    constructor ()
      ensures Abs() == READER_RESET && ReaderInv(Abs()) && Counted()
    {
      toHostFifo, lreadDataCycle1, lreadDataTimestamp, lreadDataCycle2 := [], [], [], [];
      lreadCntEnq1, lreadCntEnq2, lreadCntDeq := 0, 0, 0;
      got, samples, stamps, responses := [], [], [], [];
      new;
      ReaderReset();
    }

    /** rule save_host_data */
    method SaveHostDataRule(isSwitch: bool, cLocal: nat, cGlobal: nat)
      requires ReaderInv(Abs()) && Counted() && CanSave(Abs())
      modifies this
      ensures Abs() == Save(old(Abs()), Sample(isSwitch, cLocal, cGlobal))
      ensures ReaderInv(Abs()) && Counted()
    {
      SaveKeeps(Abs(), Sample(isSwitch, cLocal, cGlobal), Save(Abs(), Sample(isSwitch, cLocal, cGlobal)));
      SaveItem(isSwitch, cLocal, cGlobal);
    }

    method SaveItem(isSwitch: bool, cLocal: nat, cGlobal: nat)
      requires CanSave(Abs()) && Counted()
      modifies this
      ensures Abs() == Save(old(Abs()), Sample(isSwitch, cLocal, cGlobal)) && Counted()
    {
      var v := toHostFifo[0];
      CountItem(v);
      SaveWord(v, isSwitch, cLocal, cGlobal);
    }

    /** The word goes to the FIFO of its tag. */
    method SaveWord(v: Item, isSwitch: bool, cLocal: nat, cGlobal: nat)
      requires toHostFifo != []
      modifies this`toHostFifo, this`lreadDataCycle1, this`lreadDataTimestamp, this`lreadDataCycle2, this`samples, this`stamps
      ensures toHostFifo == old(toHostFifo[1..])
      ensures lreadDataCycle2 == old(lreadDataCycle2) + (if v.tag then [v.data] else [])
      ensures lreadDataCycle1 == old(lreadDataCycle1) + (if v.tag then [] else [v.data])
      ensures lreadDataTimestamp == old(lreadDataTimestamp) + (if v.tag then [] else [Stamp(Sample(isSwitch, cLocal, cGlobal))])
      ensures samples == old(samples) + (if v.tag then [] else [Sample(isSwitch, cLocal, cGlobal)])
      ensures stamps == old(stamps) + (if v.tag then [] else [Stamp(Sample(isSwitch, cLocal, cGlobal))])
    {
      toHostFifo := toHostFifo[1..];
      if v.tag {
        lreadDataCycle2 := lreadDataCycle2 + [v.data];
      } else {
        SaveFirst(v.data, isSwitch, cLocal, cGlobal);
      }
    }

    /** A tag-0 word is saved with a timestamp. */
    method SaveFirst(data: nat, isSwitch: bool, cLocal: nat, cGlobal: nat)
      modifies this`lreadDataCycle1, this`lreadDataTimestamp, this`samples, this`stamps
      ensures lreadDataCycle1 == old(lreadDataCycle1) + [data] && samples == old(samples) + [Sample(isSwitch, cLocal, cGlobal)]
      ensures lreadDataTimestamp == old(lreadDataTimestamp) + [Stamp(Sample(isSwitch, cLocal, cGlobal))]
      ensures stamps == old(stamps) + [Stamp(Sample(isSwitch, cLocal, cGlobal))]
    {
      var timestamp := if isSwitch then (cGlobal + 4) % MASK53 else (cLocal + 3) % MASK53;
      lreadDataCycle1 := lreadDataCycle1 + [data];
      lreadDataTimestamp := lreadDataTimestamp + [timestamp];
      samples, stamps := samples + [Sample(isSwitch, cLocal, cGlobal)], stamps + [timestamp];
    }

    method CountItem(v: Item)
      requires Counted()
      modifies this`lreadCntEnq1, this`lreadCntEnq2, this`got
      ensures got == old(got) + [v] && Counted()
    {
      HalvesSnoc(got, v, false);
      HalvesSnoc(got, v, true);
      CountUp(|Halves(got, v.tag)|);
      if v.tag {
        lreadCntEnq2 := Inc32(lreadCntEnq2);
      } else {
        lreadCntEnq1 := Inc32(lreadCntEnq1);
      }
      got := got + [v];
    }

    /** dtp_logger_read_cnt: no answer while a half is missing */
    method LoggerReadCnt() returns (answered: bool, resp: Response)
      requires ReaderInv(Abs()) && Counted()
      modifies this
      ensures answered == CanRead(old(Abs()))
      ensures Abs() == if answered then Read(old(Abs())) else old(Abs())
      ensures answered ==> responses == old(responses) + [resp]
      ensures ReaderInv(Abs()) && Counted()
    {
      if CanRead(Abs()) {
        ReadKeeps(Abs(), Read(Abs()));
      }
      answered, resp := Answer();
    }

    method Answer() returns (answered: bool, resp: Response)
      requires Counted()
      modifies this
      ensures answered == CanRead(old(Abs())) && Counted()
      ensures Abs() == if answered then Read(old(Abs())) else old(Abs())
      ensures answered ==> responses == old(responses) + [resp]
    {
      resp := Response(0, 0, 0);
      answered := lreadDataCycle1 != [] && lreadDataCycle2 != [] && lreadDataTimestamp != [];
      if answered {
        CountUp(|responses|);
        resp := Response(lreadDataTimestamp[0], lreadDataCycle1[0], lreadDataCycle2[0]);
        lreadDataCycle1 := lreadDataCycle1[1..];
        lreadDataCycle2 := lreadDataCycle2[1..];
        lreadDataTimestamp := lreadDataTimestamp[1..];
        lreadCntDeq := Inc32(lreadCntDeq);
        responses := responses + [resp];
      }
    }
  }
}
