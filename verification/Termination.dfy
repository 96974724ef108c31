/** Termination without the invocation cap: the failure breaker alone bounds the ledger. */
module Termination {
  import opened Basics
  import opened Domain
  import opened Rules
  import opened Findings
  import opened Reducer
  import opened Ledger
  import opened Invariants
  import opened Runs
  import opened Accounting

  /** Attempts that fit in the given number of credits: one failure of each recoverable
      reason, and the credited completion itself. */
  function Slots(limit: FailureLimit, credits: nat): nat {
    if limit == 1 then credits else 9 * credits
  }

  predicate EarnsCredit(h: Digests, seed: Seed, st: State, a: Attempt) {
    a.completion.Some? && Judge(h, seed, Held(st, a.invocation), a.invocation, a.completion.value).Credited()
  }

  /** Credited reviews and repairs of the ledger. */
  function Credits(h: Digests, seed: Seed, attempts: seq<Attempt>): nat
    requires ValidLedger(h, seed, attempts)
  {
    if attempts == [] then 0
    else
      PrefixValid(h, seed, attempts, |attempts| - 1);
      var before := attempts[..|attempts| - 1];
      Credits(h, seed, before)
      + if EarnsCredit(h, seed, StateOf(h, seed, before), attempts[|attempts| - 1]) then 1 else 0
  }

  lemma SubsetSize<T>(a: set<T>, b: set<T>)
    requires a <= b
    ensures |a| <= |b|
  {
    if a != {} {
      var x :| x in a;
      SubsetSize(a - {x}, b - {x});
    }
  }

  lemma FewFailures(seed: Seed, st: State)
    requires st.terminal == [] && FailuresBounded(seed, st)
    ensures |st.failures| < Slots(seed.policy.sameFailureLimit, 1)
  {
    if seed.policy.sameFailureLimit == 1 {
      assert forall x :: x !in st.failures;
    } else {
      SubsetSize(st.failures.Keys, RECOVERABLE);
      assert |RECOVERABLE| == 8;
    }
  }

  /** A rejection that leaves the unit running fails for a new reason. */
  lemma RejectionGrows(h: Digests, seed: Seed, st: State, inv: Invocation, j: Judgement)
    requires !j.Credited()
    requires st.terminal == [] && FailuresBounded(seed, st)
    requires Apply(h, seed, st, inv, j).terminal == []
    ensures |Apply(h, seed, st, inv, j).failures| == |st.failures| + 1
  {
    var base := if j.Rejected? then st else RetainStops(h, seed, st, j.report);
    if j.RejectedBound? {
      RetainFacts(h, seed, st, j.report);
    }
    FailedFacts(seed, base, j.reason);
    assert j.reason !in st.failures;
    var t := Apply(h, seed, st, inv, j);
    assert t.failures.Keys == st.failures.Keys + {j.reason};
  }

  /** Progress measure: a running unit has used at most one slot per open failure since its last credit. */
  predicate Paced(seed: Seed, attempts: nat, credits: nat, st: State) {
    var limit := seed.policy.sameFailureLimit;
    && attempts <= Slots(limit, credits + 1)
    && (st.terminal == [] ==> attempts <= Slots(limit, credits) + |st.failures| + (if st.pending.Some? then 1 else 0))
  }

  lemma SettlePaced(h: Digests, seed: Seed, attempts: nat, credits: nat, st: State, inv: Invocation, c: Completion)
    requires st.pending == Some(inv) && PendingSound(h, seed, st) && FailuresBounded(seed, st)
    requires Paced(seed, attempts, credits, st)
    ensures Paced(seed, attempts, credits + (if Judge(h, seed, st, inv, c).Credited() then 1 else 0),
                  Settled(h, seed, st, inv, c))
  {
    var acc, j := Accounted(h, st, inv, c), Judge(h, seed, st, inv, c);
    FewFailures(seed, st);
    ApplyFacts(h, seed, acc, inv, j);
    CappedFacts(h, seed, Apply(h, seed, acc, inv, j));
    if !j.Credited() && Settled(h, seed, st, inv, c).terminal == [] {
      RejectionGrows(h, seed, acc, inv, j);
    }
  }

  lemma ReservePaced(h: Digests, seed: Seed, attempts: nat, credits: nat, st: State, inv: Invocation)
    requires st.terminal == [] && st.pending.None? && FailuresBounded(seed, st)
    requires Paced(seed, attempts, credits, st)
    ensures Paced(seed, attempts + 1, credits, Held(st, inv))
  {
    FewFailures(seed, st);
  }

  lemma StepPaced(h: Digests, seed: Seed, n: nat, credits: nat, st: State, a: Attempt, t: State)
    requires Step(h, seed, st, a) == Ok(t)
    requires Paced(seed, n, credits, st) && FailuresBounded(seed, st)
    requires PendingSound(h, seed, Held(st, a.invocation))
    ensures Paced(seed, n + 1, credits + (if EarnsCredit(h, seed, st, a) then 1 else 0), t)
  {
    StepFacts(h, seed, st, a, t);
    ReservePaced(h, seed, n, credits, st, a.invocation);
    if a.completion.Some? {
      SettlePaced(h, seed, n + 1, credits, Held(st, a.invocation), a.invocation, a.completion.value);
    }
  }

  lemma {:induction false} LedgerPaced(h: Digests, seed: Seed, attempts: seq<Attempt>)
    requires ValidLedger(h, seed, attempts)
    ensures Paced(seed, |attempts|, Credits(h, seed, attempts), StateOf(h, seed, attempts))
  {
    if attempts != [] {
      var n := |attempts| - 1;
      StepAt(h, seed, attempts, n);
      assert attempts[..n + 1] == attempts;
      var st := StateOf(h, seed, attempts[..n]);
      LedgerPaced(h, seed, attempts[..n]);
      LedgerLimits(h, seed, attempts[..n]);
      StepFacts(h, seed, st, attempts[n], StateOf(h, seed, attempts));
      HeldLimits(h, seed, attempts[..n], attempts[n]);
      StepPaced(h, seed, n, Credits(h, seed, attempts[..n]), st, attempts[n], StateOf(h, seed, attempts));
    }
  }

  /** A review call earns no repair credit. */
  lemma ReviewCredit(h: Digests, seed: Seed, st: State, inv: Invocation, c: Completion)
    requires inv.kind == Review
    ensures !Judge(h, seed, st, inv, c).Repaired?
  {
  }

  lemma StepCredit(h: Digests, seed: Seed, st: State, a: Attempt, t: State)
    requires Step(h, seed, st, a) == Ok(t)
    ensures |st.reports| + (if EarnsCredit(h, seed, st, a) then 1 else 0)
            <= |t.reports| + (if a.invocation.kind == Repair then 1 else 0)
  {
    if a.completion.Some? {
      var held, c := Held(st, a.invocation), a.completion.value;
      StepSettles(h, seed, st, a, t);
      SettledFacts(h, seed, held, a.invocation, c, Judge(h, seed, held, a.invocation, c));
      if a.invocation.kind == Review {
        ReviewCredit(h, seed, held, a.invocation, c);
      }
    }
  }

  /** Credits are paid for by report slots and repair attempts. */
  lemma {:induction false} CreditsCapped(h: Digests, seed: Seed, attempts: seq<Attempt>)
    requires ValidLedger(h, seed, attempts)
    ensures Credits(h, seed, attempts) <= |StateOf(h, seed, attempts).reports| + RepairAttempts(attempts)
  {
    if attempts != [] {
      var n := |attempts| - 1;
      StepAt(h, seed, attempts, n);
      assert attempts[..n + 1] == attempts;
      CreditsCapped(h, seed, attempts[..n]);
      StepCredit(h, seed, StateOf(h, seed, attempts[..n]), attempts[n], StateOf(h, seed, attempts));
    }
  }

  lemma CapsKept(h: Digests, seed: Seed, attempts: seq<Attempt>)
    requires ValidLedger(h, seed, attempts)
    ensures |StateOf(h, seed, attempts).reports| <= seed.policy.maxReviews
    ensures RepairAttempts(attempts) <= seed.policy.maxRepairs
  {
    LedgerLimits(h, seed, attempts);
    LedgerAccounted(h, seed, attempts);
  }

  /** Every valid ledger is bounded by the review, repair and failure limits alone. */
  lemma LedgerBounded(h: Digests, seed: Seed, attempts: seq<Attempt>)
    requires ValidLedger(h, seed, attempts)
    ensures |attempts| <= Slots(seed.policy.sameFailureLimit, seed.policy.maxReviews + seed.policy.maxRepairs + 1)
  {
    CapsKept(h, seed, attempts);
    LedgerPaced(h, seed, attempts);
    CreditsCapped(h, seed, attempts);
  }
}
