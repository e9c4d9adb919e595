/**
  The transmit credit loop between the host library (sonic/cpp/dpdk.cpp) and
  the descriptor path of sonic/SonicTop.bsv: where every credit is, in every
  interleaving of host calls, hardware rules and message deliveries.
 */
module TxCredit {
  import Bits
  import Settling

  const TX_CREDIT := 128          // SONIC_TX_CREDIT
  const TX_CRED_TOTAL := 512      // depth of txDescQueue
  const TX_CRED_THRES := 32

  datatype Desc = Desc(offset: nat, len: nat)

  /**
    Host credit, startRead calls and writeTxCred indications under way, and the
    registers and queues of the transmit path. `flight` counts packets between
    dmaRead and their last beat; `lost` counts descriptors startRead overwrote.
    `started` are the calls that have reached the hardware, `over` says which of
    them were overwritten, and `engine` are the descriptors handed to the engine.
   */
  datatype State = State(host: int, calls: seq<Desc>, newTxDesc: Desc, nDesc: nat, queue: seq<Desc>,
                         flight: seq<Desc>, freed: nat, cf: seq<nat>, indications: seq<nat>, lost: nat,
                         started: seq<Desc>, over: seq<bool>, engine: seq<Desc>)

  const RESET_STATE := State(TX_CREDIT, [], Desc(0, 0), 0, [], [], 0, [], [], 0, [], [], [])

  datatype Action =
    | Send(d: Desc)         // the host takes one credit and calls startRead
    | StartRead | EnqTxDesc | DmaRead | LastBeat
    | WritebackTimeout | WritebackThreshold
    | WriteTxCred           // an indication reaches the host

  predicate Enabled(s: State, a: Action) {
    match a
    case Send(_) => true
    case StartRead => s.calls != []
    case EnqTxDesc => |s.queue| < TX_CRED_TOTAL && s.nDesc > 0
    case DmaRead => s.queue != []
    case LastBeat => s.flight != []
    case WritebackTimeout => s.cf == []
    case WritebackThreshold => s.cf != []
    case WriteTxCred => s.indications != []
  }

  /** The last call was overwritten, if it was. */
  function MarkLast(over: seq<bool>, yes: bool): (r: seq<bool>)
    ensures |r| == |over|
  {
    if over == [] || !yes then over else over[|over| - 1 := true]
  }

  function Step(s: State, a: Action): State
    requires Enabled(s, a)
  {
    match a
    case Send(d) => s.(host := s.host - 1, calls := s.calls + [d])
    case StartRead =>
      s.(calls := s.calls[1..], newTxDesc := s.calls[0], nDesc := 1, lost := s.lost + s.nDesc,
         started := s.started + [s.calls[0]], over := MarkLast(s.over, s.nDesc > 0) + [false])
    case EnqTxDesc => s.(queue := s.queue + [s.newTxDesc], nDesc := s.nDesc - 1)
    case DmaRead => s.(queue := s.queue[1..], flight := s.flight + [s.queue[0]], engine := s.engine + [s.queue[0]])
    case LastBeat =>
      // increment and decrement of the counter take effect together
      if s.freed >= TX_CRED_THRES && |s.cf| < 8
      then s.(flight := s.flight[1..], cf := s.cf + [s.freed], freed := s.freed + 1 - s.freed)
      else s.(flight := s.flight[1..], freed := s.freed + 1)
    case WritebackTimeout =>
      if s.freed != 0 then s.(indications := s.indications + [s.freed], freed := 0) else s
    case WritebackThreshold => s.(cf := s.cf[1..], indications := s.indications + [s.cf[0]])
    case WriteTxCred => s.(indications := s.indications[1..], host := s.host + s.indications[0])
  }

  lemma SumSnoc(ns: seq<nat>, n: nat)
    ensures Bits.SumOf(ns + [n]) == Bits.SumOf(ns) + n
  {
    Bits.SumOfAppend(ns, [n]);
    assert [n][1..] == [];
  }

  /** Credits held by the host, by descriptors, by packets, or on the way back. */
  function Total(s: State): int {
    s.host + |s.calls| + s.nDesc + |s.queue| + |s.flight| + s.freed + Bits.SumOf(s.cf) + Bits.SumOf(s.indications)
  }

  // ---- runs ----

  /** A rule that is not enabled does not fire. */
  function Try(s: State, a: Action): State {
    if Enabled(s, a) then Step(s, a) else s
  }

  /** The state after any sequence of attempted actions. */
  function After(acts: seq<Action>): State {
    if acts == [] then RESET_STATE else Try(After(acts[..|acts| - 1]), acts[|acts| - 1])
  }

  lemma TotalStep(s: State, a: Action)
    requires Enabled(s, a)
    ensures Total(Step(s, a)) + Step(s, a).lost == Total(s) + s.lost
  {
    match a
    case LastBeat => SumSnoc(s.cf, s.freed);
    case WritebackTimeout => SumSnoc(s.indications, s.freed);
    case WritebackThreshold => SumSnoc(s.indications, s.cf[0]);
    case _ =>
  }

  /** Only startRead loses anything, and only when a descriptor is still pending. */
  lemma LostStep(s: State, a: Action)
    requires Enabled(s, a) && s.nDesc <= 1
    ensures Step(s, a).nDesc <= 1
    ensures Step(s, a).lost == s.lost + (if a.StartRead? && s.nDesc != 0 then 1 else 0)
  {}

  /** Every credit is accounted for, at most one descriptor is pending, and no batch is below the threshold. */
  ghost predicate Inv(s: State) {
    Total(s) + s.lost == TX_CREDIT && s.nDesc <= 1 && Batches(s.cf)
  }

  lemma StepKeeps(s: State, a: Action)
    requires Inv(s) && Enabled(s, a)
    ensures Inv(Step(s, a))
  {
    TotalStep(s, a);
    LostStep(s, a);
    BatchesStep(s, a);
  }

  /** Every credit is accounted for in every run. */
  lemma {:induction false} Accounted(acts: seq<Action>)
    ensures Inv(After(acts))
  {
    if acts != [] {
      var r, a := After(acts[..|acts| - 1]), acts[|acts| - 1];
      Accounted(acts[..|acts| - 1]);
      if Enabled(r, a) {
        StepKeeps(r, a);
      }
    }
  }

  /** startRead overwrites a descriptor that is still pending. */
  predicate Overwrites(s: State, a: Action) {
    a.StartRead? && Enabled(s, a) && s.nDesc != 0
  }

  /** No startRead of the run finds a descriptor still pending. */
  predicate NoOverwrite(acts: seq<Action>) {
    acts == [] || (NoOverwrite(acts[..|acts| - 1]) && !Overwrites(After(acts[..|acts| - 1]), acts[|acts| - 1]))
  }

  lemma {:induction false} NothingLost(acts: seq<Action>)
    ensures After(acts).lost == 0 <==> NoOverwrite(acts)
  {
    if acts != [] {
      var r, a := After(acts[..|acts| - 1]), acts[|acts| - 1];
      Accounted(acts[..|acts| - 1]);
      NothingLost(acts[..|acts| - 1]);
      if Enabled(r, a) {
        LostStep(r, a);
      }
    }
  }

  /**
    Credit conservation: the credits add up to 128 at the end of a run if and
    only if no startRead of the run found a descriptor still pending.
   */
  lemma CreditConserved(acts: seq<Action>)
    ensures Total(After(acts)) == TX_CREDIT <==> NoOverwrite(acts)
  {
    Accounted(acts);
    NothingLost(acts);
  }

  /** The loss is real: two sends delivered back to back cost one credit for good. */
  lemma BackToBackLoses(d: Desc)
    ensures Total(After([Send(d), Send(d), StartRead, StartRead])) == TX_CREDIT - 1
  {
    var a1 := [] + [Send(d)];
    var a2 := a1 + [Send(d)];
    var a3 := a2 + [StartRead];
    var s1 := AfterSnoc([], Send(d));
    var s2 := AfterSnoc(a1, Send(d));
    var s3 := AfterSnoc(a2, StartRead);
    var s4 := AfterSnoc(a3, StartRead);
    assert s2.calls == [d, d] && s3.calls == [d] && s4.lost == 1;
    assert a3 + [StartRead] == [Send(d), Send(d), StartRead, StartRead];
    Accounted(a3 + [StartRead]);
  }

  lemma AfterSnoc(acts: seq<Action>, a: Action) returns (s: State)
    ensures s == After(acts + [a]) == Try(After(acts), a)
  {
    s := After(acts + [a]);
    assert (acts + [a])[..|acts|] == acts;
  }

  // ---- which descriptors the engine gets ----

  /** The sends of a run, in order. */
  function SendsOf(acts: seq<Action>): seq<Desc> {
    if acts == [] then []
    else SendsOf(acts[..|acts| - 1]) + (if acts[|acts| - 1].Send? then [acts[|acts| - 1].d] else [])
  }

  /** The calls that were not overwritten. */
  function Survivors(ds: seq<Desc>, over: seq<bool>): seq<Desc>
    requires |ds| == |over|
  {
    if ds == [] then []
    else Survivors(ds[..|ds| - 1], over[..|ds| - 1]) + (if over[|ds| - 1] then [] else [ds[|ds| - 1]])
  }

  function Overwritten(over: seq<bool>): nat {
    if over == [] then 0 else Overwritten(over[..|over| - 1]) + (if over[|over| - 1] then 1 else 0)
  }

  lemma SurvivorsSnoc(ds: seq<Desc>, over: seq<bool>, d: Desc, o: bool)
    requires |ds| == |over|
    ensures Survivors(ds + [d], over + [o]) == Survivors(ds, over) + (if o then [] else [d])
    ensures Overwritten(over + [o]) == Overwritten(over) + (if o then 1 else 0)
  {
    assert (ds + [d])[..|ds|] == ds && (over + [o])[..|over|] == over;
  }

  /** The descriptor that waits in newTxDesc. */
  function Waiting(s: State): seq<Desc> { if s.nDesc > 0 then [s.newTxDesc] else [] }

  /** Engine, queue and register hold the surviving calls in order; the register holds the last call, if any. */
  ghost predicate Ordered(s: State) {
    && |s.over| == |s.started| && s.nDesc <= 1
    && s.engine + s.queue + Waiting(s) == Survivors(s.started, s.over)
    && Overwritten(s.over) == s.lost
    && (s.nDesc > 0 ==> s.started != [] && s.started[|s.started| - 1] == s.newTxDesc && !s.over[|s.over| - 1])
  }

  /** Overwriting the last call takes it out of the survivors. */
  lemma MarkTakesOut(ds: seq<Desc>, over: seq<bool>, before: seq<Desc>)
    requires |ds| == |over| > 0 && !over[|over| - 1]
    requires Survivors(ds, over) == before + [ds[|ds| - 1]]
    ensures Survivors(ds, MarkLast(over, true)) == before && Overwritten(MarkLast(over, true)) == Overwritten(over) + 1
  {
    var k := |over| - 1;
    var marked := MarkLast(over, true);
    assert marked[..k] == over[..k];
    assert Survivors(ds, over) == Survivors(ds[..k], over[..k]) + [ds[k]];
    SameFront(Survivors(ds[..k], over[..k]), before, ds[k]);
    assert before + [] == before;
  }

  lemma SameFront(a: seq<Desc>, b: seq<Desc>, d: Desc)
    requires a + [d] == b + [d]
    ensures a == b
  {
    assert (a + [d])[..|a|] == a && (b + [d])[..|b|] == b;
  }

  lemma StartReadOrdered(s: State, t: State)
    requires Ordered(s) && Enabled(s, StartRead) && t == Step(s, StartRead)
    ensures Ordered(t)
  {
    if s.nDesc > 0 {
      MarkTakesOut(s.started, s.over, s.engine + s.queue);
    } else {
      assert s.engine + s.queue + [] == s.engine + s.queue;
    }
    SurvivorsSnoc(s.started, MarkLast(s.over, s.nDesc > 0), s.calls[0], false);
  }

  lemma StepOrdered(s: State, a: Action, t: State)
    requires Ordered(s) && Enabled(s, a) && t == Step(s, a)
    ensures Ordered(t)
  {
    match a
    case StartRead => StartReadOrdered(s, t);
    case EnqTxDesc =>
      Bits.Assoc(s.engine, s.queue, [s.newTxDesc]);
      assert t.engine + t.queue + [] == t.engine + t.queue;
    case DmaRead => Bits.HandOver(s.engine, s.queue);
    case _ =>
  }

  lemma {:induction false} RunsAreOrdered(acts: seq<Action>)
    ensures Ordered(After(acts)) && After(acts).started + After(acts).calls == SendsOf(acts)
  {
    if acts != [] {
      var r, a := After(acts[..|acts| - 1]), acts[|acts| - 1];
      RunsAreOrdered(acts[..|acts| - 1]);
      if Enabled(r, a) {
        StepOrdered(r, a, After(acts));
        SendsStep(r, a);
      }
    }
  }

  lemma SendsStep(s: State, a: Action)
    requires Enabled(s, a)
    ensures Step(s, a).started + Step(s, a).calls == s.started + s.calls + (if a.Send? then [a.d] else [])
  {
    match a
    case Send(d) => Bits.Assoc(s.started, s.calls, [d]);
    case StartRead => Bits.HandOver(s.started, s.calls);
    case _ => assert s.started + s.calls + [] == s.started + s.calls;
  }

  /**
    The engine is handed the descriptors of the sends, in order, less exactly
    the overwritten ones, of which there are `lost`; the rest is on its way in
    order too.
   */
  lemma EngineGetsSends(acts: seq<Action>)
    ensures var s := After(acts);
            && |s.over| == |s.started| && s.started + s.calls == SendsOf(acts)
            && s.engine + s.queue + Waiting(s) == Survivors(s.started, s.over)
            && Overwritten(s.over) == s.lost
  {
    RunsAreOrdered(acts);
  }

  /** The last elements of a sequence. */
  ghost predicate Latest(some: seq<Desc>, all: seq<Desc>) {
    |some| <= |all| && some == all[|all| - |some|..]
  }

  lemma LatestAdd(some: seq<Desc>, all: seq<Desc>, d: Desc)
    requires Latest(some, all)
    ensures Latest(some + [d], all + [d])
  {}

  lemma LatestDrop(some: seq<Desc>, all: seq<Desc>)
    requires Latest(some, all) && some != []
    ensures Latest(some[1..], all)
  {}

  lemma FlightStep(s: State, a: Action)
    requires Enabled(s, a) && Latest(s.flight, s.engine)
    ensures Latest(Step(s, a).flight, Step(s, a).engine)
  {
    match a
    case DmaRead => LatestAdd(s.flight, s.engine, s.queue[0]);
    case LastBeat => LatestDrop(s.flight, s.engine);
    case _ =>
  }

  /** The packets in flight are the latest descriptors the engine was handed. */
  lemma {:induction false} FlightIsRecent(acts: seq<Action>)
    ensures Latest(After(acts).flight, After(acts).engine)
  {
    if acts != [] {
      var r, a := After(acts[..|acts| - 1]), acts[|acts| - 1];
      FlightIsRecent(acts[..|acts| - 1]);
      if Enabled(r, a) {
        FlightStep(r, a);
      }
    }
  }

  lemma {:induction false} AllSurvive(ds: seq<Desc>, over: seq<bool>)
    requires |ds| == |over| && Overwritten(over) == 0
    ensures Survivors(ds, over) == ds
  {
    if ds != [] {
      AllSurvive(ds[..|ds| - 1], over[..|ds| - 1]);
    }
  }

  /** Without an overwrite every send is in one place, in order. */
  lemma EverySendKept(acts: seq<Action>)
    requires NoOverwrite(acts)
    ensures var s := After(acts);
            s.engine + s.queue + Waiting(s) + s.calls == SendsOf(acts)
  {
    RunsAreOrdered(acts);
    NothingLost(acts);
    AllSurvive(After(acts).started, After(acts).over);
  }

  // ---- a host that sends only with credit ----

  /** Every send of the run finds credit. */
  predicate Polite(acts: seq<Action>) {
    acts == [] || (Polite(acts[..|acts| - 1]) && (acts[|acts| - 1].Send? ==> After(acts[..|acts| - 1]).host > 0))
  }

  /** Threshold batches are at least the threshold. */
  ghost predicate Batches(cf: seq<nat>) {
    forall i :: 0 <= i < |cf| ==> cf[i] >= TX_CRED_THRES
  }

  lemma {:induction false} SumOfBatches(cf: seq<nat>)
    requires Batches(cf)
    ensures Bits.SumOf(cf) >= TX_CRED_THRES * |cf|
  {
    if cf != [] {
      SumOfBatches(cf[1..]);
    }
  }

  lemma BatchesStep(s: State, a: Action)
    requires Enabled(s, a) && Batches(s.cf)
    ensures Batches(Step(s, a).cf)
  {}

  lemma {:induction false} PoliteHost(acts: seq<Action>)
    requires Polite(acts)
    ensures After(acts).host >= 0
  {
    if acts != [] {
      var r, a := After(acts[..|acts| - 1]), acts[|acts| - 1];
      PoliteHost(acts[..|acts| - 1]);
    }
  }

  /**
    With a polite host nothing overflows: the descriptor queue never holds more
    than 128 of its 512 places, the writeback queue at most 4 of its 8, the
    host's credit stays in 0..128, and no 32-bit counter can wrap.
   */
  lemma NeverFull(acts: seq<Action>)
    requires Polite(acts)
    ensures var s := After(acts);
            && |s.queue| <= TX_CREDIT < TX_CRED_TOTAL && |s.cf| <= 4
            && 0 <= s.host <= TX_CREDIT && s.freed <= TX_CREDIT
  {
    Accounted(acts);
    PoliteHost(acts);
    SumOfBatches(After(acts).cf);
  }

  /** Every batch is exactly the threshold, no indication is empty or more than that, and the counter never passes it. */
  ghost predicate Exact(s: State) {
    && s.freed <= TX_CRED_THRES
    && (forall i :: 0 <= i < |s.cf| ==> s.cf[i] == TX_CRED_THRES)
    && (forall i :: 0 <= i < |s.indications| ==> 0 < s.indications[i] <= TX_CRED_THRES)
  }

  lemma ExactStep(s: State, a: Action)
    requires Enabled(s, a) && Exact(s) && |s.cf| <= 4
    ensures Exact(Step(s, a))
  {}

  /** With a polite host credits come back in batches of 32, or fewer after a timeout, and never none. */
  lemma {:induction false} WritebacksAreExact(acts: seq<Action>)
    requires Polite(acts)
    ensures Exact(After(acts))
  {
    if acts != [] {
      var r, a := After(acts[..|acts| - 1]), acts[|acts| - 1];
      WritebacksAreExact(acts[..|acts| - 1]);
      NeverFull(acts[..|acts| - 1]);
      if Enabled(r, a) {
        ExactStep(r, a);
      }
    }
  }

  /** Nothing can happen but a new send, or a timeout with nothing to write back. */
  ghost predicate Quiet(s: State) {
    forall a :: Enabled(s, a) && !a.Send? ==> Step(s, a) == s
  }

  /** No credit gets stuck: when the path is quiet the host has back every credit that was not lost. */
  lemma CreditsReturn(acts: seq<Action>)
    requires Quiet(After(acts))
    ensures After(acts).host == TX_CREDIT - After(acts).lost
  {
    Accounted(acts);
    QuietIsEmpty(After(acts));
  }

  lemma QuietIsEmpty(s: State)
    requires Quiet(s)
    ensures s.calls == [] && s.nDesc == 0 && s.queue == [] && s.flight == [] && s.freed == 0 && s.cf == [] && s.indications == []
  {
    assert Enabled(s, WriteTxCred) ==> Step(s, WriteTxCred) == s;
    assert Enabled(s, WritebackThreshold) ==> Step(s, WritebackThreshold) == s;
    assert Enabled(s, WritebackTimeout) ==> Step(s, WritebackTimeout) == s;
    assert Enabled(s, LastBeat) ==> Step(s, LastBeat) == s;
    assert Enabled(s, DmaRead) ==> Step(s, DmaRead) == s;
    assert Enabled(s, EnqTxDesc) ==> Step(s, EnqTxDesc) == s;
    assert Enabled(s, StartRead) ==> Step(s, StartRead) == s;
  }

  // ---- credits come back ----

  /** Work left for the rules: a credit counts for the places it still has to pass. */
  function Work(s: State): nat {
    7 * |s.calls| + 6 * s.nDesc + 5 * |s.queue| + 4 * |s.flight| + 3 * s.freed
    + 2 * Bits.SumOf(s.cf) + 2 * |s.cf| + Bits.SumOf(s.indications) + |s.indications|
  }

  /** A step that changes something and is not a new send. */
  ghost predicate Returning(s: State, t: State) {
    exists a :: Enabled(s, a) && !a.Send? && t == Step(s, a) && t != s
  }

  lemma ReturningLowers(s: State, t: State)
    requires Inv(s) && Returning(s, t)
    ensures Inv(t) && Work(t) < Work(s)
  {
    var a :| Enabled(s, a) && !a.Send? && t == Step(s, a) && t != s;
    StepKeeps(s, a);
    ActionLowers(s, a, t);
  }

  lemma ActionLowers(s: State, a: Action, t: State)
    requires Enabled(s, a) && !a.Send? && t == Step(s, a) && t != s && s.nDesc <= 1
    ensures Work(t) < Work(s)
  {
    match a
    case LastBeat => BeatLowers(s, t);
    case WritebackTimeout => SumSnoc(s.indications, s.freed);
    case WritebackThreshold => ThresholdLowers(s, t);
    case WriteTxCred => assert Bits.SumOf(s.indications) == s.indications[0] + Bits.SumOf(t.indications);
    case _ =>
  }

  lemma BeatLowers(s: State, t: State)
    requires Enabled(s, LastBeat) && t == Step(s, LastBeat)
    ensures Work(t) < Work(s)
  {
    SumSnoc(s.cf, s.freed);
  }

  lemma ThresholdLowers(s: State, t: State)
    requires Enabled(s, WritebackThreshold) && t == Step(s, WritebackThreshold)
    ensures Work(t) < Work(s)
  {
    SumSnoc(s.indications, s.cf[0]);
  }

  ghost function Holds(): State -> bool { (s: State) => Inv(s) }

  ghost function Inside(): (State, State) -> bool { (s: State, t: State) => Returning(s, t) }

  ghost function WorkLeft(): State -> nat { (s: State) => Work(s) }

  lemma InsideLowers()
    ensures Settling.Lowers(Holds(), Inside(), WorkLeft())
  {
    forall s, t | Holds()(s) && Inside()(s, t)
      ensures Holds()(t) && WorkLeft()(t) < WorkLeft()(s)
    {
      ReturningLowers(s, t);
    }
  }

  lemma RestIsQuiet(t: State)
    requires Settling.AtRest(Inside(), t)
    ensures Quiet(t)
  {
    forall a | Enabled(t, a) && !a.Send?
      ensures Step(t, a) == t
    {
      assert !Inside()(t, Step(t, a));
    }
  }

  /**
    Credits come back: in every run, without a new send, the path goes on within
    Work steps to a state in which the host holds every credit not lost.
   */
  lemma CreditsComeBack(acts: seq<Action>) returns (t: State, n: nat)
    ensures Settling.Leads(Inside(), After(acts), t, n) && n <= Work(After(acts))
    ensures t.host == TX_CREDIT - t.lost
  {
    Accounted(acts);
    InsideLowers();
    t, n := Settling.ComesToRest(Holds(), Inside(), WorkLeft(), After(acts));
    RestIsQuiet(t);
    QuietIsEmpty(t);
  }

  /** No choice of rules can put that off. */
  lemma NothingGoesOnForEver(acts: seq<Action>, t: State, n: nat)
    requires Settling.Leads(Inside(), After(acts), t, n)
    ensures n <= Work(After(acts))
  {
    Accounted(acts);
    InsideLowers();
    Settling.StepsAreBounded(Holds(), Inside(), WorkLeft(), After(acts), t, n);
  }

  // ---- the program's own form ----

  /** The credit variable of the host library, changed under its mutex. */
  class HostCredit {
    var txCredit: int

    constructor ()
      ensures txCredit == TX_CREDIT
    {
      txCredit := TX_CREDIT;
    }

    /** writeTxCred */
    method WriteTxCred(cred: nat)
      modifies this
      ensures txCredit == old(txCredit) + cred
    {
      txCredit := txCredit + cred;
    }

    /** tx_credit_available */
    method Available() returns (v: int)
      ensures v == txCredit
    {
      v := txCredit;
    }

    /** tx_credit_decrement */
    method Decrement(v: nat)
      modifies this
      ensures txCredit == old(txCredit) - v
    {
      txCredit := txCredit - v;
    }
  }

  /** The transmit path of mkSonicTop with its host: one method per rule or call. */
  class TransmitPath {
    const host: HostCredit
    var calls: seq<Desc>
    var newTxDesc: Desc
    var nDesc: nat
    var txDescQueue: seq<Desc>
    var inFlight: seq<Desc>
    var txCredFreed: nat
    var txCredCf: seq<nat>
    var indications: seq<nat>
    ghost var lost: nat
    ghost var started: seq<Desc>
    ghost var over: seq<bool>
    ghost var engine: seq<Desc>

    ghost function Abs(): State
      reads this, host
    {
      State(host.txCredit, calls, newTxDesc, nDesc, txDescQueue, inFlight, txCredFreed, txCredCf, indications, lost,
            started, over, engine)
    }

    constructor ()
      ensures Abs() == RESET_STATE && Inv(Abs()) && fresh(host)
    {
      host := new HostCredit();
      calls, newTxDesc, nDesc, txDescQueue, inFlight := [], Desc(0, 0), 0, [], [];
      txCredFreed, txCredCf, indications, lost := 0, [], [], 0;
      started, over, engine := [], [], [];
    }

    /** The host sends a packet: one credit, one startRead call. */
    method TxSend(d: Desc)
      requires Inv(Abs())
      modifies this, host
      ensures Abs() == Step(old(Abs()), Send(d)) && Inv(Abs())
    {
      StepKeeps(Abs(), Send(d));
      host.Decrement(1);
      calls := calls + [d];
    }

    method StartReadCall()
      requires Inv(Abs()) && Enabled(Abs(), StartRead)
      modifies this
      ensures Abs() == Step(old(Abs()), StartRead) && Inv(Abs())
    {
      StepKeeps(Abs(), StartRead);
      started, over := started + [calls[0]], MarkLast(over, nDesc > 0) + [false];
      lost := lost + nDesc;
      newTxDesc, nDesc := calls[0], 1;
      calls := calls[1..];
    }

    method EnqTxDescRule()
      requires Inv(Abs()) && Enabled(Abs(), EnqTxDesc)
      modifies this
      ensures Abs() == Step(old(Abs()), EnqTxDesc) && Inv(Abs())
    {
      StepKeeps(Abs(), EnqTxDesc);
      txDescQueue := txDescQueue + [newTxDesc];
      nDesc := nDesc - 1;
    }

    method DmaReadRule() returns (d: Desc)
      requires Inv(Abs()) && Enabled(Abs(), DmaRead)
      modifies this
      ensures Abs() == Step(old(Abs()), DmaRead) && engine == old(engine) + [d] && Inv(Abs())
    {
      StepKeeps(Abs(), DmaRead);
      d := txDescQueue[0];
      inFlight, engine := inFlight + [d], engine + [d];
      txDescQueue := txDescQueue[1..];
    }

    /** rule txMacInProgress on the last beat of a packet */
    method TxMacInProgressEop()
      requires Inv(Abs()) && Enabled(Abs(), LastBeat)
      modifies this
      ensures Abs() == Step(old(Abs()), LastBeat) && Inv(Abs())
    {
      StepKeeps(Abs(), LastBeat);
      var read := txCredFreed;
      txCredFreed := txCredFreed + 1;
      if read >= TX_CRED_THRES && |txCredCf| < 8 {
        txCredCf := txCredCf + [read];
        txCredFreed := txCredFreed - read;
      }
      inFlight := inFlight[1..];
    }

    method TxCreditWritebackTimeout()
      requires Inv(Abs()) && Enabled(Abs(), WritebackTimeout)
      modifies this
      ensures Abs() == Step(old(Abs()), WritebackTimeout) && Inv(Abs())
    {
      StepKeeps(Abs(), WritebackTimeout);
      if txCredFreed != 0 {
        indications := indications + [txCredFreed];
        txCredFreed := 0;
      }
    }

    method TxCreditWritebackThreshold()
      requires Inv(Abs()) && Enabled(Abs(), WritebackThreshold)
      modifies this
      ensures Abs() == Step(old(Abs()), WritebackThreshold) && Inv(Abs())
    {
      StepKeeps(Abs(), WritebackThreshold);
      indications := indications + [txCredCf[0]];
      txCredCf := txCredCf[1..];
    }

    method DeliverIndication()
      requires Inv(Abs()) && Enabled(Abs(), WriteTxCred)
      modifies this, host
      ensures Abs() == Step(old(Abs()), WriteTxCred) && Inv(Abs())
    {
      StepKeeps(Abs(), WriteTxCred);
      host.WriteTxCred(indications[0]);
      indications := indications[1..];
    }
  }
}
