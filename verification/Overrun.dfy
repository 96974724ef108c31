/** How far a unit can go over its limits: only by the charge of its last call, and that it can. */
module Overrun {
  import opened Basics
  import opened Domain
  import opened Rules
  import opened Reducer
  import opened Ledger
  import opened Runs
  import opened Accounting
  import opened Attainability

  predicate OverTokens(seed: Seed, b: Budget) {
    b.tokensSpent + b.tokensReserved > seed.policy.maxTokens
  }

  predicate OverCost(seed: Seed, b: Budget) {
    b.costSpent + b.costReserved > seed.policy.maxCost
  }

  lemma NoneOverruns(h: Digests, seed: Seed, attempts: seq<Attempt>)
    requires ValidLedger(h, seed, attempts)
    requires attempts != [] ==> !OverrunsAt(h, attempts, |attempts| - 1)
    ensures Excess(h, attempts) == Usage(0, 0)
  {
    forall k | 0 <= k < |attempts| ensures !OverrunsAt(h, attempts, k) {
      if OverrunsAt(h, attempts, k) {
        OverrunIsLast(h, seed, attempts, k);
      }
    }
    NoExcess(h, attempts);
  }

  /** A unit over a limit got there by its last call, which overran its own hold, and is terminal. */
  lemma OverOnlyAtTheEnd(h: Digests, seed: Seed, attempts: seq<Attempt>)
    requires ValidLedger(h, seed, attempts)
    requires OverTokens(seed, StateOf(h, seed, attempts).budget) || OverCost(seed, StateOf(h, seed, attempts).budget)
    ensures attempts != [] && OverrunsAt(h, attempts, |attempts| - 1)
    ensures StateOf(h, seed, attempts).terminal != []
  {
    WithinLimits(h, seed, attempts);
    if attempts == [] || !OverrunsAt(h, attempts, |attempts| - 1) {
      NoneOverruns(h, seed, attempts);
    } else {
      OverrunIsLast(h, seed, attempts, |attempts| - 1);
    }
  }

  /** Exactly when a ledger is over its limits: its last call is settled for more than the room that
      the policy had left when the call was reserved. */
  lemma OverLimitIff(h: Digests, seed: Seed, attempts: seq<Attempt>)
    requires ValidLedger(h, seed, attempts) && attempts != []
    ensures ValidLedger(h, seed, attempts[..|attempts| - 1])
    ensures var n := |attempts| - 1;
            var room, t := StateOf(h, seed, attempts[..n]).budget, StateOf(h, seed, attempts).budget;
            var charge := Charge(h, attempts[..n], attempts[n]);
            && (OverTokens(seed, t) <==> room.tokensSpent + charge.tokens > seed.policy.maxTokens)
            && (OverCost(seed, t) <==> room.costSpent + charge.cost > seed.policy.maxCost)
  {
    var n := |attempts| - 1;
    StepAt(h, seed, attempts, n);
    assert attempts[..n + 1] == attempts;
    LedgerCounted(h, seed, attempts);
    LedgerCounted(h, seed, attempts[..n]);
    StepAdmitted(h, seed, StateOf(h, seed, attempts[..n]), attempts[n], StateOf(h, seed, attempts));
    ReserveRoom(h, seed, StateOf(h, seed, attempts[..n]), attempts[n].invocation);
  }

  lemma LedgerCounted(h: Digests, seed: Seed, attempts: seq<Attempt>)
    requires ValidLedger(h, seed, attempts)
    ensures CountersKept(h, attempts, StateOf(h, seed, attempts))
  {
    LedgerAccounted(h, seed, attempts);
  }

  // A run over the limit.

  /** A receipt for more tokens than the whole policy allows. */
  function Extravagance(h: Digests, seed: Seed): Attempt
    requires seed.reviewers != []
  {
    var inv := Call(h, seed, Identifier("call"));
    Attempt(inv, Some(Completion(
      inv.id, seed.startedAt,
      Some(Receipt(inv.binding, inv.id, Identifier("run"), inv.actor, Usage(seed.policy.maxTokens + 1, 0), false)),
      None, None)))
  }

  lemma FirstCallAdmitted(h: Digests, seed: Seed, st: State)
    requires SeedFault(h, seed).None? && InitialState(h, seed) == Ok(st)
    ensures seed.reviewers != [] && ReserveFault(h, seed, st, Call(h, seed, Identifier("call"))).None?
  {
    EligibleIff(h, seed, st);
    assert seed.reviewers[0] in seed.reviewers;
  }

  /** Every admissible seed has a valid ledger that spends more than its token limit. */
  lemma OverLimitReachable(h: Digests, seed: Seed)
    requires SeedFault(h, seed).None? && seed.reviewers != []
    ensures ValidLedger(h, seed, [Extravagance(h, seed)])
    ensures OverTokens(seed, StateOf(h, seed, [Extravagance(h, seed)]).budget)
  {
    var a, st := Extravagance(h, seed), InitialState(h, seed).value;
    var attempts := [a];
    assert attempts[..0] == [];
    FirstCallAdmitted(h, seed, st);
    StepOk(h, seed, st, a.invocation, a.completion.value,
           Settled(h, seed, Held(st, a.invocation), a.invocation, a.completion.value));
    OneStep(h, seed, a, st);
    OverLimitIff(h, seed, attempts);
  }

  lemma OneStep(h: Digests, seed: Seed, a: Attempt, st: State)
    requires InitialState(h, seed) == Ok(st) && Step(h, seed, st, a).Ok?
    ensures ValidLedger(h, seed, [a])
  {
    assert [a][..0] == [];
  }
}
