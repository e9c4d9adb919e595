/**
  The counter switch of hw/bsv/DtpSwitch.bsv: two stage1 rules take the larger
  of two counters, stage2 takes the larger of their results and hands it to all
  four ports. Counters are 53 bits wide.
 */
module DtpSwitch {
  import Bits

  const WRAP53 := 0x20_0000_0000_0000        // 2^53
  const PORTS := 4

  function Max(a: nat, b: nat): nat { if a > b then a else b }

  function Inc53(n: nat): nat { (n + 1) % WRAP53 }

  /** What rule stage1 makes of two counters. */
  function Larger(v0: nat, v1: nat): nat {
    if v0 > v1 then Inc53(v0) else Inc53(v1)
  }

  /** What rule stage2 sends to every port: zero in NIC mode. */
  function Global(mode: bool, v0: nat, v1: nat): nat {
    if mode then Inc53(Max(v0, v1)) else 0
  }

  /** Two inputs and the FIFO between stage1 and stage2, with all counters put in and the number already used by stage2. */
  datatype Group = Group(in0: seq<nat>, in1: seq<nat>, mid: seq<nat>, put0: seq<nat>, put1: seq<nat>, used: nat)

  /** Both groups, the mode register, the output FIFOs, all values taken and made per port and the mode each was made in. */
  datatype State = State(g0: Group, g1: Group, mode: bool, outs: seq<seq<nat>>, taken: seq<seq<nat>>, produced: seq<seq<nat>>,
                         modes: seq<bool>)

  const NO_COUNTERS := Group([], [], [], [], [], 0)
  const RESET_STATE := State(NO_COUNTERS, NO_COUNTERS, false, [[], [], [], []], [[], [], [], []], [[], [], [], []], [])

  datatype Action = PutCounter(port: nat, c: nat) | Stage1(group: nat) | Stage2 | SetMode(m: bool) | TakeOut(port: nat)

  function PutIn(g: Group, second: bool, c: nat): Group {
    if second then g.(in1 := g.in1 + [c], put1 := g.put1 + [c]) else g.(in0 := g.in0 + [c], put0 := g.put0 + [c])
  }

  predicate CanStage1(g: Group) { g.in0 != [] && g.in1 != [] && |g.mid| < 2 }

  function FireStage1(g: Group): Group
    requires CanStage1(g)
  {
    g.(in0 := g.in0[1..], in1 := g.in1[1..], mid := g.mid + [Larger(g.in0[0], g.in1[0])])
  }

  function UseMid(g: Group): Group
    requires g.mid != []
  {
    g.(mid := g.mid[1..], used := g.used + 1)
  }

  function EnqAll(qs: seq<seq<nat>>, v: nat): (r: seq<seq<nat>>)
    ensures |r| == |qs| && forall j :: 0 <= j < |qs| ==> r[j] == qs[j] + [v]
  {
    seq(|qs|, j requires 0 <= j < |qs| => qs[j] + [v])
  }

  /** The input FIFOs, port by port. */
  function Inputs(s: State): (r: seq<seq<nat>>)
    ensures |r| == PORTS
  {
    [s.g0.in0, s.g0.in1, s.g1.in0, s.g1.in1]
  }

  predicate Enabled(s: State, a: Action) {
    match a
    case PutCounter(p, c) => p < PORTS && c < WRAP53 && |Inputs(s)[p]| < 2
    case Stage1(i) => i < 2 && CanStage1(if i == 0 then s.g0 else s.g1)
    case Stage2 => s.g0.mid != [] && s.g1.mid != [] && forall j :: 0 <= j < |s.outs| ==> |s.outs[j]| < 2
    case SetMode(_) => true
    case TakeOut(p) => p < |s.outs| == |s.taken| && s.outs[p] != []
  }

  function Step(s: State, a: Action): State
    requires Enabled(s, a)
  {
    match a
    case PutCounter(p, c) => if p < 2 then s.(g0 := PutIn(s.g0, p == 1, c)) else s.(g1 := PutIn(s.g1, p == 3, c))
    case Stage1(i) => if i == 0 then s.(g0 := FireStage1(s.g0)) else s.(g1 := FireStage1(s.g1))
    case Stage2 =>
      var vo := Global(s.mode, s.g0.mid[0], s.g1.mid[0]);
      s.(g0 := UseMid(s.g0), g1 := UseMid(s.g1), outs := EnqAll(s.outs, vo), produced := EnqAll(s.produced, vo),
         modes := s.modes + [s.mode])
    case SetMode(m) => s.(mode := m)
    case TakeOut(p) => s.(outs := s.outs[p := s.outs[p][1..]], taken := s.taken[p := s.taken[p] + [s.outs[p][0]]])
  }

  /** The state after any sequence of attempted actions. */
  function After(acts: seq<Action>): State {
    if acts == [] then RESET_STATE
    else
      var s, a := After(acts[..|acts| - 1]), acts[|acts| - 1];
      if Enabled(s, a) then Step(s, a) else s
  }

  // ---- invariants ----

  /** stage1 has handled the same number of counters of both inputs, in order. */
  ghost predicate GroupInv(g: Group) {
    && |g.put0| == g.used + |g.mid| + |g.in0| && |g.put1| == g.used + |g.mid| + |g.in1|
    && g.in0 == g.put0[g.used + |g.mid|..] && g.in1 == g.put1[g.used + |g.mid|..]
    && (forall k :: 0 <= k < |g.mid| ==> g.mid[k] == Larger(g.put0[g.used + k], g.put1[g.used + k]))
    && (forall k :: 0 <= k < |g.put0| ==> g.put0[k] < WRAP53)
    && (forall k :: 0 <= k < |g.put1| ==> g.put1[k] < WRAP53)
  }

  /** The k-th value sent to every port. */
  function Expected(g0: Group, g1: Group, mode: bool, k: nat): nat
    requires k < |g0.put0| && k < |g0.put1| && k < |g1.put0| && k < |g1.put1|
  {
    Global(mode, Larger(g0.put0[k], g0.put1[k]), Larger(g1.put0[k], g1.put1[k]))
  }

  /** vs are the values sent so far. */
  ghost predicate Made(g0: Group, g1: Group, modes: seq<bool>, vs: seq<nat>)
    requires |modes| <= |g0.put0| && |modes| <= |g0.put1| && |modes| <= |g1.put0| && |modes| <= |g1.put1|
  {
    |vs| == |modes| && forall k :: 0 <= k < |vs| ==> vs[k] == Expected(g0, g1, modes[k], k)
  }

  ghost predicate Inv(s: State) {
    && GroupInv(s.g0) && GroupInv(s.g1) && s.g0.used == s.g1.used == |s.modes|
    && |s.outs| == |s.taken| == |s.produced| == PORTS
    && (forall j :: 0 <= j < PORTS ==> Made(s.g0, s.g1, s.modes, s.produced[j]))
    && forall j :: 0 <= j < PORTS ==> s.taken[j] + s.outs[j] == s.produced[j]
  }

  lemma PutKeeps(g: Group, second: bool, c: nat)
    requires GroupInv(g) && c < WRAP53
    ensures GroupInv(PutIn(g, second, c))
  {}

  lemma Stage1Keeps(g: Group)
    requires GroupInv(g) && CanStage1(g)
    ensures GroupInv(FireStage1(g))
  {}

  lemma UseKeeps(g: Group)
    requires GroupInv(g) && g.mid != []
    ensures GroupInv(UseMid(g)) && g.mid[0] == Larger(g.put0[g.used], g.put1[g.used])
  {}

  lemma Stage2Keeps(s: State, t: State)
    requires Inv(s) && Enabled(s, Stage2) && t == Step(s, Stage2)
    ensures Inv(t)
  {
    UseKeeps(s.g0);
    UseKeeps(s.g1);
    var n := |s.modes|;
    forall j | 0 <= j < PORTS
      ensures Made(t.g0, t.g1, t.modes, t.produced[j])
    {
      assert Made(s.g0, s.g1, s.modes, s.produced[j]);
      assert t.produced[j] == s.produced[j] + [Expected(s.g0, s.g1, s.mode, n)];
    }
    forall j | 0 <= j < PORTS
      ensures t.taken[j] + t.outs[j] == t.produced[j]
    {
      Bits.Assoc(s.taken[j], s.outs[j], [Global(s.mode, s.g0.mid[0], s.g1.mid[0])]);
    }
  }

  lemma TakeKeeps(s: State, p: nat, t: State)
    requires Inv(s) && Enabled(s, TakeOut(p)) && t == Step(s, TakeOut(p))
    ensures Inv(t)
  {
    Bits.HandOver(s.taken[p], s.outs[p]);
  }

  lemma StepKeeps(s: State, a: Action, t: State)
    requires Inv(s) && Enabled(s, a) && t == Step(s, a)
    ensures Inv(t)
  {
    match a
    case PutCounter(p, c) => PutStepKeeps(s, p, c, t);
    case Stage1(i) => Stage1Keeps(if i == 0 then s.g0 else s.g1);
    case Stage2 => Stage2Keeps(s, t);
    case TakeOut(p) => TakeKeeps(s, p, t);
    case _ =>
  }

  /** Later counters do not change the values already sent. */
  lemma MadePut(g0: Group, g1: Group, h0: Group, h1: Group, modes: seq<bool>, vs: seq<nat>)
    requires |modes| <= |g0.put0| && |modes| <= |g0.put1| && |modes| <= |g1.put0| && |modes| <= |g1.put1|
    requires g0.put0 <= h0.put0 && g0.put1 <= h0.put1 && g1.put0 <= h1.put0 && g1.put1 <= h1.put1
    requires Made(g0, g1, modes, vs)
    ensures Made(h0, h1, modes, vs)
  {}

  lemma PutStepKeeps(s: State, p: nat, c: nat, t: State)
    requires Inv(s) && Enabled(s, PutCounter(p, c)) && t == Step(s, PutCounter(p, c))
    ensures Inv(t)
  {
    PutKeeps(s.g0, p == 1, c);
    PutKeeps(s.g1, p == 3, c);
    forall j | 0 <= j < PORTS
      ensures Made(t.g0, t.g1, t.modes, t.produced[j])
    {
      MadePut(s.g0, s.g1, t.g0, t.g1, s.modes, s.produced[j]);
    }
  }

  lemma {:induction false} RunsKeepInv(acts: seq<Action>)
    ensures Inv(After(acts))
  {
    if acts != [] {
      var s, a := After(acts[..|acts| - 1]), acts[|acts| - 1];
      RunsKeepInv(acts[..|acts| - 1]);
      if Enabled(s, a) {
        StepKeeps(s, a, After(acts));
      }
    } else {
      ResetInv();
    }
  }

  lemma EmptyInv(g: Group)
    requires g == NO_COUNTERS
    ensures GroupInv(g)
  {}

  lemma NothingMade(g0: Group, g1: Group)
    ensures Made(g0, g1, [], [])
  {}

  lemma ResetInv()
    ensures Inv(RESET_STATE)
  {
    var s := RESET_STATE;
    EmptyInv(s.g0);
    EmptyInv(s.g1);
    NothingMade(s.g0, s.g1);
    forall j | 0 <= j < PORTS
      ensures s.produced[j] == []
    {}
  }

  // ---- what the switch computes ----

  function Max4(a: nat, b: nat, c: nat, d: nat): nat { Max(Max(a, b), Max(c, d)) }

  /** In switch mode the result is the maximum plus two exactly when that fits into 53 bits. */
  lemma GlobalIsMax(a: nat, b: nat, c: nat, d: nat)
    requires a < WRAP53 && b < WRAP53 && c < WRAP53 && d < WRAP53
    ensures Global(true, Larger(a, b), Larger(c, d)) == Max4(a, b, c, d) + 2 <==> Max4(a, b, c, d) + 2 < WRAP53
  {
    IncIs(Max(a, b));
    IncIs(Max(c, d));
    IncIs(Max(Larger(a, b), Larger(c, d)));
  }

  lemma IncIs(n: nat)
    requires n < WRAP53
    ensures Inc53(n) == if n == WRAP53 - 1 then 0 else n + 1
  {}

  /** The counters a run puts in on port p, in order. */
  function PutsOf(acts: seq<Action>, p: nat): seq<nat> {
    if acts == [] then []
    else
      var front, a := acts[..|acts| - 1], acts[|acts| - 1];
      PutsOf(front, p) + (if a.PutCounter? && a.port == p && Enabled(After(front), a) then [a.c] else [])
  }

  /** The mode set last; a switch starts in NIC mode. */
  function ModeSet(acts: seq<Action>): bool {
    if acts == [] then false
    else if acts[|acts| - 1].SetMode? then acts[|acts| - 1].m
    else ModeSet(acts[..|acts| - 1])
  }

  /** The mode at each stage2 of a run. */
  function ModesOf(acts: seq<Action>): seq<bool> {
    if acts == [] then []
    else
      var front, a := acts[..|acts| - 1], acts[|acts| - 1];
      ModesOf(front) + (if a.Stage2? && Enabled(After(front), a) then [ModeSet(front)] else [])
  }

  lemma {:induction false} ModesAreThoseOfTheRun(acts: seq<Action>)
    ensures After(acts).mode == ModeSet(acts) && After(acts).modes == ModesOf(acts)
  {
    if acts != [] {
      ModesAreThoseOfTheRun(acts[..|acts| - 1]);
    }
  }

  /** The counters put in so far, port by port. */
  function Puts(s: State, p: nat): seq<nat>
    requires p < PORTS
  {
    match p
    case 0 => s.g0.put0
    case 1 => s.g0.put1
    case 2 => s.g1.put0
    case 3 => s.g1.put1
  }

  lemma StepPuts(s: State, a: Action, p: nat)
    requires p < PORTS && Enabled(s, a)
    ensures Puts(Step(s, a), p) == Puts(s, p) + (if a.PutCounter? && a.port == p then [a.c] else [])
  {}

  lemma {:induction false} PutsAreThoseOfTheRun(acts: seq<Action>, p: nat)
    requires p < PORTS
    ensures Puts(After(acts), p) == PutsOf(acts, p)
  {
    if acts != [] {
      var front, a := acts[..|acts| - 1], acts[|acts| - 1];
      PutsAreThoseOfTheRun(front, p);
      if Enabled(After(front), a) {
        StepPuts(After(front), a, p);
      }
    }
  }

  /** The k-th counters of all four ports have been put in and used. */
  ghost predicate HasPut(acts: seq<Action>, k: nat) {
    k < |ModesOf(acts)| && forall p :: 0 <= p < PORTS ==> k < |PutsOf(acts, p)|
  }

  /** The maximum of the four k-th counters put in. */
  ghost function MaxPut(acts: seq<Action>, k: nat): nat
    requires HasPut(acts, k)
  {
    Max4(PutsOf(acts, 0)[k], PutsOf(acts, 1)[k], PutsOf(acts, 2)[k], PutsOf(acts, 3)[k])
  }

  /** Result k of the state is made of the k-th counters of the run. */
  ghost predicate MadeFrom(acts: seq<Action>, k: nat, v: nat) {
    && HasPut(acts, k)
    && v == Global(ModesOf(acts)[k], Larger(PutsOf(acts, 0)[k], PutsOf(acts, 1)[k]),
                   Larger(PutsOf(acts, 2)[k], PutsOf(acts, 3)[k]))
    && forall p :: 0 <= p < PORTS ==> PutsOf(acts, p)[k] < WRAP53
  }

  lemma ExpectedIsMade(acts: seq<Action>, s: State, k: nat)
    requires s == After(acts) && Inv(s) && Used(s, k)
    ensures MadeFrom(acts, k, Expected(s.g0, s.g1, s.modes[k], k))
  {
    ModesAreThoseOfTheRun(acts);
    forall p | 0 <= p < PORTS
      ensures Puts(s, p) == PutsOf(acts, p) && k < |Puts(s, p)| && Puts(s, p)[k] < WRAP53
    {
      PutsAreThoseOfTheRun(acts, p);
    }
    assert Puts(s, 0) == s.g0.put0 && Puts(s, 1) == s.g0.put1 && Puts(s, 2) == s.g1.put0 && Puts(s, 3) == s.g1.put1;
  }

  /**
    However the rules interleave, all four ports are handed the same values:
    zero in NIC mode, and in switch mode the k-th is the maximum of the four
    k-th counters plus two if and only if that sum fits into 53 bits.
   */
  lemma SwitchComputesMax(acts: seq<Action>, j: nat, k: nat)
    requires j < PORTS && |After(acts).taken| == PORTS && k < |After(acts).taken[j]|
    ensures var taken := After(acts).taken;
            && HasPut(acts, k)
            && (forall i :: 0 <= i < PORTS && k < |taken[i]| ==> taken[j][k] == taken[i][k])
            && (!ModesOf(acts)[k] ==> taken[j][k] == 0)
            && (ModesOf(acts)[k] ==> (taken[j][k] == MaxPut(acts, k) + 2 <==> MaxPut(acts, k) + 2 < WRAP53))
  {
    RunsKeepInv(acts);
    var s := After(acts);
    TakenIsExpected(s, j, k);
    ExpectedIsMade(acts, s, k);
    GlobalIsMax(PutsOf(acts, 0)[k], PutsOf(acts, 1)[k], PutsOf(acts, 2)[k], PutsOf(acts, 3)[k]);
    forall i | 0 <= i < PORTS && k < |s.taken[i]|
      ensures s.taken[j][k] == s.taken[i][k]
    {
      TakenIsExpected(s, i, k);
    }
  }

  /** The k-th counters of all four ports are among those of the state. */
  ghost predicate Used(s: State, k: nat) {
    k < |s.modes| && k < |s.g0.put0| && k < |s.g0.put1| && k < |s.g1.put0| && k < |s.g1.put1|
  }

  lemma TakenIsExpected(s: State, j: nat, k: nat)
    requires Inv(s) && j < PORTS && k < |s.taken[j]|
    ensures Used(s, k) && s.taken[j][k] == Expected(s.g0, s.g1, s.modes[k], k)
  {
    assert Made(s.g0, s.g1, s.modes, s.produced[j]);
    assert s.taken[j][k] == (s.taken[j] + s.outs[j])[k];
  }

  /** One more action that is enabled. */
  lemma Advance(acts: seq<Action>, a: Action, s: State, t: State)
    requires After(acts) == s && Enabled(s, a) && t == Step(s, a)
    ensures After(acts + [a]) == t
  {
    assert (acts + [a])[..|acts|] == acts;
  }

  /** The largest counter on port 0, small ones on the others. */
  const WRAPPING := State(Group([WRAP53 - 1], [0], [], [WRAP53 - 1], [0], 0), Group([5], [0], [], [5], [0], 0), true,
                          [[], [], [], []], [[], [], [], []], [[], [], [], []], [])

  lemma ReachWrapping(acts: seq<Action>)
    requires acts == [SetMode(true), PutCounter(0, WRAP53 - 1), PutCounter(1, 0), PutCounter(2, 5), PutCounter(3, 0)]
    ensures After(acts) == WRAPPING
  {
    var s0 := RESET_STATE;
    var s1 := Step(s0, SetMode(true));
    var s2 := Step(s1, PutCounter(0, WRAP53 - 1));
    var s3 := Step(s2, PutCounter(1, 0));
    var s4 := Step(s3, PutCounter(2, 5));
    assert acts[..0] == [] && acts[..1] == [] + [acts[0]] && acts[..2] == acts[..1] + [acts[1]];
    assert acts[..3] == acts[..2] + [acts[2]] && acts[..4] == acts[..3] + [acts[3]] && acts == acts[..4] + [acts[4]];
    Advance([], acts[0], s0, s1);
    Advance(acts[..1], acts[1], s1, s2);
    Advance(acts[..2], acts[2], s2, s3);
    Advance(acts[..3], acts[3], s3, s4);
    Advance(acts[..4], acts[4], s4, WRAPPING);
  }

  lemma FromWrapping() returns (s6: State, s7: State, s8: State)
    ensures Enabled(WRAPPING, Stage1(0)) && s6 == Step(WRAPPING, Stage1(0))
    ensures Enabled(s6, Stage1(1)) && s7 == Step(s6, Stage1(1))
    ensures Enabled(s7, Stage2) && s8 == Step(s7, Stage2)
    ensures s8.outs == [[7], [7], [7], [7]] && s8.taken == [[], [], [], []]
  {
    s6 := Step(WRAPPING, Stage1(0));
    s7 := Step(s6, Stage1(1));
    assert s7.g0.mid == [0] && s7.g1.mid == [6];
    assert s7.outs == [[], [], [], []] && Global(true, 0, 6) == 7;
    s8 := Step(s7, Stage2);
    SevenEverywhere();
  }

  lemma SevenEverywhere()
    ensures EnqAll([[], [], [], []], 7) == [[7], [7], [7], [7]]
  {
    var qs: seq<seq<nat>> := [[], [], [], []];
    forall j | 0 <= j < PORTS
      ensures EnqAll(qs, 7)[j] == [7]
    {
      assert qs[j] == [];
    }
  }

  /** The wrap is not a small error: a run in which the largest counter, 2^53 - 1, is forgotten and port p is handed 7. */
  lemma WrapForgets(acts: seq<Action>, p: nat)
    requires p < PORTS
    requires acts == [SetMode(true), PutCounter(0, WRAP53 - 1), PutCounter(1, 0), PutCounter(2, 5), PutCounter(3, 0),
                      Stage1(0), Stage1(1), Stage2, TakeOut(p)]
    ensures |After(acts).taken| == PORTS && After(acts).taken[p] == [7]
  {
    ReachWrapping(acts[..5]);
    var s6, s7, s8 := FromWrapping();
    assert acts[..6] == acts[..5] + [Stage1(0)] && acts[..7] == acts[..6] + [Stage1(1)];
    assert acts[..8] == acts[..7] + [Stage2] && acts == acts[..8] + [TakeOut(p)];
    Advance(acts[..5], Stage1(0), WRAPPING, s6);
    Advance(acts[..6], Stage1(1), s6, s7);
    Advance(acts[..7], Stage2, s7, s8);
    Advance(acts[..8], TakeOut(p), s8, Step(s8, TakeOut(p)));
  }

  /** Counters that never go back give ports a global counter that never goes back, in switch mode and below the wrap. */
  lemma GlobalNeverGoesBack(acts: seq<Action>, j: nat, k: nat)
    requires j < PORTS && |After(acts).taken| == PORTS && k + 1 < |After(acts).taken[j]|
    requires HasPut(acts, k) && HasPut(acts, k + 1)
    requires ModesOf(acts)[k] && ModesOf(acts)[k + 1] && MaxPut(acts, k + 1) + 2 < WRAP53
    requires forall p :: 0 <= p < PORTS ==> PutsOf(acts, p)[k] <= PutsOf(acts, p)[k + 1]
    ensures After(acts).taken[j][k] <= After(acts).taken[j][k + 1]
  {
    SwitchComputesMax(acts, j, k);
    SwitchComputesMax(acts, j, k + 1);
  }

  // ---- the program's own form ----

  /** mkDtpSwitch: one method per rule. Each is a step of State and keeps Inv. */
  class SwitchModule {
    var dtpLocalInFifo: seq<seq<nat>>
    var intermediateFifo: seq<seq<nat>>
    var dtpGlobalOutFifo: seq<seq<nat>>
    var mode: bool
    ghost var state: State

    /** The FIFOs and the mode are those of the state. */
    ghost predicate Shows()
      reads this
    {
      && dtpLocalInFifo == Inputs(state) && intermediateFifo == [state.g0.mid, state.g1.mid]
      && dtpGlobalOutFifo == state.outs && |state.outs| == PORTS && mode == state.mode
    }

    ghost predicate Valid()
      reads this
    {
      Shows() && Inv(state)
    }

    constructor ()
      ensures Valid() && state == RESET_STATE
    {
      dtpLocalInFifo, intermediateFifo, dtpGlobalOutFifo := [[], [], [], []], [[], []], [[], [], [], []];
      mode := false;
      state := RESET_STATE;
      new;
      ResetInv();
    }

    /** A counter arrives at port p. */
    method PutLocal(p: nat, c: nat)
      requires Valid() && Enabled(state, PutCounter(p, c))
      modifies this
      ensures Valid() && state == Step(old(state), PutCounter(p, c))
    {
      StepKeeps(state, PutCounter(p, c), Step(state, PutCounter(p, c)));
      dtpLocalInFifo := dtpLocalInFifo[p := dtpLocalInFifo[p] + [c]];
      state := Step(state, PutCounter(p, c));
    }

    /** Port p takes the next value of the global counter. */
    method TakeGlobal(p: nat) returns (v: nat)
      requires Valid() && Enabled(state, TakeOut(p))
      modifies this
      ensures Valid() && state == Step(old(state), TakeOut(p)) && state.taken[p] == old(state).taken[p] + [v]
    {
      StepKeeps(state, TakeOut(p), Step(state, TakeOut(p)));
      v := dtpGlobalOutFifo[p][0];
      dtpGlobalOutFifo := dtpGlobalOutFifo[p := dtpGlobalOutFifo[p][1..]];
      state := Step(state, TakeOut(p));
    }

    /** rule set_switch_mode */
    method SetSwitchMode(m: bool)
      requires Valid()
      modifies this
      ensures Valid() && state == Step(old(state), SetMode(m))
    {
      StepKeeps(state, SetMode(m), Step(state, SetMode(m)));
      mode := m;
      state := Step(state, SetMode(m));
    }

    /** rule stage1 of group i */
    method Stage1Rule(i: nat)
      requires Valid() && Enabled(state, Stage1(i))
      modifies this
      ensures Valid() && state == Step(old(state), Stage1(i))
    {
      StepKeeps(state, Stage1(i), Step(state, Stage1(i)));
      Compare(i);
    }

    method Compare(i: nat)
      requires Shows() && Enabled(state, Stage1(i))
      modifies this
      ensures Shows() && state == Step(old(state), Stage1(i))
    {
      var v0, v1 := dtpLocalInFifo[2 * i][0], dtpLocalInFifo[2 * i + 1][0];
      dtpLocalInFifo := dtpLocalInFifo[2 * i := dtpLocalInFifo[2 * i][1..]][2 * i + 1 := dtpLocalInFifo[2 * i + 1][1..]];
      if v0 > v1 {
        intermediateFifo := intermediateFifo[i := intermediateFifo[i] + [Inc53(v0)]];
      } else {
        intermediateFifo := intermediateFifo[i := intermediateFifo[i] + [Inc53(v1)]];
      }
      state := Step(state, Stage1(i));
    }

    /** rule stage2 */
    method Stage2Rule()
      requires Valid() && Enabled(state, Stage2)
      modifies this
      ensures Valid() && state == Step(old(state), Stage2)
    {
      StepKeeps(state, Stage2, Step(state, Stage2));
      Spread();
    }

    method Spread()
      requires Shows() && Enabled(state, Stage2)
      modifies this
      ensures Shows() && state == Step(old(state), Stage2)
    {
      var v0, v1 := intermediateFifo[0][0], intermediateFifo[1][0];
      intermediateFifo := [intermediateFifo[0][1..], intermediateFifo[1][1..]];
      var vo := if v0 > v1 then v0 else v1;
      var outs := [];
      for i := 0 to PORTS
        invariant |outs| == i && dtpGlobalOutFifo == state.outs && mode == state.mode && |state.outs| == PORTS
        invariant forall j :: 0 <= j < i ==> outs[j] == dtpGlobalOutFifo[j] + [if mode then Inc53(vo) else 0]
      {
        var vout := 0;
        if mode {
          vout := Inc53(vo);
        }
        outs := outs + [dtpGlobalOutFifo[i] + [vout]];
      }
      dtpGlobalOutFifo := outs;
      state := Step(state, Stage2);
    }
  }
}
