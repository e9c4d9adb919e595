/**
  Systems that come to rest: when every step keeps an invariant and takes some
  work away, no choice of steps can go on for ever.
 */
module Settling {
  /** Every step from a state that satisfies inv keeps it and lowers the work left. */
  ghost predicate Lowers<S(!new)>(inv: S -> bool, step: (S, S) -> bool, work: S -> nat) {
    forall s, t :: inv(s) && step(s, t) ==> inv(t) && work(t) < work(s)
  }

  /** t is reached from s by n steps. */
  ghost predicate Leads<S(!new)>(step: (S, S) -> bool, s: S, t: S, n: nat)
    decreases n
  {
    if n == 0 then t == s else exists r :: step(s, r) && Leads(step, r, t, n - 1)
  }

  ghost predicate AtRest<S(!new)>(step: (S, S) -> bool, s: S) {
    forall t :: !step(s, t)
  }

  /** What every step keeps. */
  ghost predicate Keeps<S(!new)>(p: S -> bool, step: (S, S) -> bool) {
    forall s, t :: p(s) && step(s, t) ==> p(t)
  }

  lemma {:induction false} KeptAlong<S(!new)>(p: S -> bool, step: (S, S) -> bool, s: S, t: S, n: nat)
    requires Keeps(p, step) && p(s) && Leads(step, s, t, n)
    ensures p(t)
    decreases n
  {
    if n > 0 {
      var r :| step(s, r) && Leads(step, r, t, n - 1);
      KeptAlong(p, step, r, t, n - 1);
    }
  }

  /** However the steps are chosen, there are at most as many as there is work. */
  lemma {:induction false} StepsAreBounded<S(!new)>(inv: S -> bool, step: (S, S) -> bool, work: S -> nat, s: S, t: S, n: nat)
    requires Lowers(inv, step, work) && inv(s) && Leads(step, s, t, n)
    ensures inv(t) && n + work(t) <= work(s)
    decreases n
  {
    if n > 0 {
      var r :| step(s, r) && Leads(step, r, t, n - 1);
      StepsAreBounded(inv, step, work, r, t, n - 1);
    }
  }

  /** From every state the system comes to rest. */
  lemma {:induction false} ComesToRest<S(!new)>(inv: S -> bool, step: (S, S) -> bool, work: S -> nat, s: S) returns (t: S, n: nat)
    requires Lowers(inv, step, work) && inv(s)
    ensures Leads(step, s, t, n) && inv(t) && AtRest(step, t) && n <= work(s)
    decreases work(s)
  {
    if AtRest(step, s) {
      t, n := s, 0;
    } else {
      var r :| step(s, r);
      t, n := ComesToRest(inv, step, work, r);
      n := n + 1;
    }
  }
}
