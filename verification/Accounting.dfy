/** Session accounting: the state's counters are exactly what the ledger says was
    attempted, held and charged. */
module Accounting {
  import opened Basics
  import opened Domain
  import opened Rules
  import opened Reducer
  import opened Ledger
  import opened Invariants
  import opened Runs

  // Charges, read off the ledger alone.

  predicate HasReceipt(a: Attempt) {
    a.completion.Some? && a.completion.value.receipt.Some?
  }

  function ReceiptOf(a: Attempt): Receipt
    requires HasReceipt(a)
  {
    a.completion.value.receipt.value
  }

  /** Some attempt of the ledger already recorded this provider execution. */
  predicate SeenIn(h: Digests, attempts: seq<Attempt>, key: Digest) {
    exists i :: 0 <= i < |attempts| && HasReceipt(attempts[i]) && ExecutionKey(h, ReceiptOf(attempts[i])) == key
  }

  /** The receipt proves a fresh, uncached execution of exactly this call by its own actor. */
  predicate TrustedReceipt(h: Digests, before: seq<Attempt>, a: Attempt) {
    && HasReceipt(a)
    && var proof := ReceiptOf(a);
       && proof.invocationId == a.invocation.id
       && proof.binding == a.invocation.binding
       && proof.actualModel == a.invocation.actor
       && !proof.cached
       && !SeenIn(h, before, ExecutionKey(h, proof))
  }

  /** Nothing while pending; the actual usage on a trusted receipt; otherwise the
      full hold, or the observed usage if that is more. */
  function Charge(h: Digests, before: seq<Attempt>, a: Attempt): Usage {
    var held := a.invocation.reservation;
    if a.completion.None? then Usage(0, 0)
    else if !HasReceipt(a) then Usage(held.tokens, held.cost)
    else
      var used := ReceiptOf(a).usage;
      if TrustedReceipt(h, before, a) then used
      else Usage(Max(used.tokens, held.tokens), Max(used.cost, held.cost))
  }

  function Plus(u: Usage, v: Usage): Usage {
    Usage(u.tokens + v.tokens, u.cost + v.cost)
  }

  function Spent(h: Digests, attempts: seq<Attempt>): Usage {
    if attempts == [] then Usage(0, 0)
    else
      var before, a := attempts[..|attempts| - 1], attempts[|attempts| - 1];
      Plus(Spent(h, before), Charge(h, before, a))
  }

  /** By how much the charges exceeded their own holds. */
  function Excess(h: Digests, attempts: seq<Attempt>): Usage {
    if attempts == [] then Usage(0, 0)
    else
      var before, a := attempts[..|attempts| - 1], attempts[|attempts| - 1];
      Plus(Excess(h, before), ExcessOf(Charge(h, before, a), a))
  }

  function ExcessOf(charge: Usage, a: Attempt): Usage {
    Usage(Max(0, charge.tokens - a.invocation.reservation.tokens),
          Max(0, charge.cost - a.invocation.reservation.cost))
  }

  predicate OverrunsAt(h: Digests, attempts: seq<Attempt>, k: nat)
    requires k < |attempts|
  {
    ExcessOf(Charge(h, attempts[..k], attempts[k]), attempts[k]) != Usage(0, 0)
  }

  function RepairAttempts(attempts: seq<Attempt>): nat {
    if attempts == [] then 0
    else RepairAttempts(attempts[..|attempts| - 1])
         + if attempts[|attempts| - 1].invocation.kind == Repair then 1 else 0
  }

  predicate LastPending(attempts: seq<Attempt>) {
    attempts != [] && attempts[|attempts| - 1].completion.None?
  }

  /** The pending call is exactly the last attempt, and only while it is uncompleted. */
  predicate ShapeKept(attempts: seq<Attempt>, st: State) {
    && (forall i :: 0 <= i < |attempts| - 1 ==> attempts[i].completion.Some?)
    && st.pending == (if LastPending(attempts) then Some(attempts[|attempts| - 1].invocation) else None)
    && |st.invocationIds| == |attempts|
    && (forall i :: 0 <= i < |attempts| ==> st.invocationIds[i] == attempts[i].invocation.id)
    && Distinct(st.invocationIds)
  }

  predicate CountersKept(h: Digests, attempts: seq<Attempt>, st: State) {
    && st.budget.invocations == |attempts|
    && st.budget.repairs == RepairAttempts(attempts)
    && st.budget.tokensReserved
       == (if LastPending(attempts) then attempts[|attempts| - 1].invocation.reservation.tokens else 0)
    && st.budget.costReserved
       == (if LastPending(attempts) then attempts[|attempts| - 1].invocation.reservation.cost else 0)
    && Usage(st.budget.tokensSpent, st.budget.costSpent) == Spent(h, attempts)
  }

  ghost predicate ExecutionsKept(h: Digests, attempts: seq<Attempt>, st: State) {
    forall key :: key in st.executionIds <==> SeenIn(h, attempts, key)
  }

  lemma SeenSnoc(h: Digests, before: seq<Attempt>, a: Attempt, key: Digest)
    ensures SeenIn(h, before + [a], key)
            <==> SeenIn(h, before, key) || (HasReceipt(a) && ExecutionKey(h, ReceiptOf(a)) == key)
  {
    var all := before + [a];
    if SeenIn(h, before, key) {
      var i :| 0 <= i < |before| && HasReceipt(before[i]) && ExecutionKey(h, ReceiptOf(before[i])) == key;
      assert all[i] == before[i];
    }
    if HasReceipt(a) && ExecutionKey(h, ReceiptOf(a)) == key {
      assert all[|before|] == a;
    }
  }

  /** The reducer's receipt test and charge agree with the ledger reading. */
  lemma ChargeAgrees(h: Digests, before: seq<Attempt>, seen: seq<Digest>, inv: Invocation, c: Completion)
    requires forall key :: key in seen <==> SeenIn(h, before, key)
    ensures var a := Attempt(inv, Some(c));
            && (ReceiptFault(h, seen, inv, c).None? <==> TrustedReceipt(h, before, a))
            && Charge(h, before, a) == Usage(ChargedTokens(h, seen, inv, c), ChargedCost(h, seen, inv, c))
            && (Overruns(h, seen, inv, c) <==> ExcessOf(Charge(h, before, a), a) != Usage(0, 0))
  {
  }

  lemma ShapeSnoc(attempts: seq<Attempt>, st: State, t: State)
    requires attempts != []
    requires var a := attempts[|attempts| - 1];
             && ShapeKept(attempts[..|attempts| - 1], st) && st.pending.None?
             && a.invocation.id !in st.invocationIds
             && t.pending == (if a.completion.None? then Some(a.invocation) else None)
             && t.invocationIds == st.invocationIds + [a.invocation.id]
    ensures ShapeKept(attempts, t)
  {
    var before := attempts[..|attempts| - 1];
    assert !LastPending(before);
    forall i | 0 <= i < |attempts| - 1 ensures attempts[i].completion.Some? {
      assert before[i] == attempts[i];
    }
    forall i | 0 <= i < |attempts| ensures t.invocationIds[i] == attempts[i].invocation.id {
      if i < |before| {
        assert before[i] == attempts[i];
      }
    }
  }

  lemma ExecutionsSnoc(h: Digests, attempts: seq<Attempt>, st: State, t: State)
    requires attempts != []
    requires var a := attempts[|attempts| - 1];
             && ExecutionsKept(h, attempts[..|attempts| - 1], st)
             && t.executionIds == (if a.completion.None? then st.executionIds
                                   else Recorded(h, st.executionIds, a.completion.value))
    ensures ExecutionsKept(h, attempts, t)
  {
    var before, a := attempts[..|attempts| - 1], attempts[|attempts| - 1];
    assert attempts == before + [a];
    forall key ensures key in t.executionIds <==> SeenIn(h, attempts, key) {
      SeenSnoc(h, before, a, key);
    }
  }

  lemma CountersSnoc(h: Digests, attempts: seq<Attempt>, st: State, t: State)
    requires attempts != []
    requires var a := attempts[|attempts| - 1];
             && CountersKept(h, attempts[..|attempts| - 1], st)
             && ExecutionsKept(h, attempts[..|attempts| - 1], st)
             && t.budget == (if a.completion.None? then Held(st, a.invocation).budget
                             else Accounted(h, Held(st, a.invocation), a.invocation, a.completion.value).budget)
    ensures CountersKept(h, attempts, t)
  {
    var before, a := attempts[..|attempts| - 1], attempts[|attempts| - 1];
    if a.completion.Some? {
      ChargeAgrees(h, before, st.executionIds, a.invocation, a.completion.value);
    }
  }

  ghost predicate Ledgered(h: Digests, attempts: seq<Attempt>, st: State) {
    ShapeKept(attempts, st) && CountersKept(h, attempts, st) && ExecutionsKept(h, attempts, st)
  }

  lemma StepLedgered(h: Digests, seed: Seed, attempts: seq<Attempt>, st: State, t: State)
    requires attempts != []
    requires Ledgered(h, attempts[..|attempts| - 1], st)
    requires Step(h, seed, st, attempts[|attempts| - 1]) == Ok(t)
    ensures Ledgered(h, attempts, t)
  {
    StepFacts(h, seed, st, attempts[|attempts| - 1], t);
    ShapeSnoc(attempts, st, t);
    CountersSnoc(h, attempts, st, t);
    ExecutionsSnoc(h, attempts, st, t);
  }

  lemma {:induction false} LedgerAccounted(h: Digests, seed: Seed, attempts: seq<Attempt>)
    requires ValidLedger(h, seed, attempts)
    ensures Ledgered(h, attempts, StateOf(h, seed, attempts))
  {
    if attempts != [] {
      var before := attempts[..|attempts| - 1];
      LedgerAccounted(h, seed, before);
      StepLedgered(h, seed, attempts, StateOf(h, seed, before), StateOf(h, seed, attempts));
    }
  }

  lemma LedgerExecutions(h: Digests, seed: Seed, attempts: seq<Attempt>)
    requires ValidLedger(h, seed, attempts)
    ensures ExecutionsKept(h, attempts, StateOf(h, seed, attempts))
  {
    LedgerAccounted(h, seed, attempts);
  }

  /** Overrunning a hold ends the unit whichever reason is finally recorded. */
  lemma OverrunTerminal(h: Digests, seed: Seed, st: State, inv: Invocation, c: Completion)
    requires Overruns(h, st.executionIds, inv, c)
    ensures Settled(h, seed, st, inv, c).terminal != []
  {
    var acc := Accounted(h, st, inv, c);
    var j := Judge(h, seed, st, inv, c);
    assert j.Rejected? && j.reason in FATAL;
    FailedFacts(seed, acc, j.reason);
    CappedFacts(h, seed, Failed(seed, acc, j.reason));
  }

  /** At most one attempt ever overruns: the last one, and it leaves the unit terminal. */
  lemma OverrunIsLast(h: Digests, seed: Seed, attempts: seq<Attempt>, k: nat)
    requires ValidLedger(h, seed, attempts) && k < |attempts|
    requires OverrunsAt(h, attempts, k)
    ensures k == |attempts| - 1
    ensures StateOf(h, seed, attempts).terminal != []
  {
    StepAt(h, seed, attempts, k);
    LedgerExecutions(h, seed, attempts[..k]);
    OverrunStep(h, seed, attempts[..k], attempts[k], StateOf(h, seed, attempts[..k]),
                StateOf(h, seed, attempts[..k + 1]));
    if k < |attempts| - 1 {
      StepAt(h, seed, attempts, k + 1);
      StepFacts(h, seed, StateOf(h, seed, attempts[..k + 1]), attempts[k + 1], StateOf(h, seed, attempts[..k + 2]));
    }
    assert attempts[..|attempts|] == attempts;
  }

  lemma OverrunStep(h: Digests, seed: Seed, before: seq<Attempt>, a: Attempt, st: State, t: State)
    requires Step(h, seed, st, a) == Ok(t) && ExecutionsKept(h, before, st)
    requires ExcessOf(Charge(h, before, a), a) != Usage(0, 0)
    ensures t.terminal != []
  {
    StepSettles(h, seed, st, a, t);
    ChargeAgrees(h, before, st.executionIds, a.invocation, a.completion.value);
    OverrunTerminal(h, seed, Held(st, a.invocation), a.invocation, a.completion.value);
  }

  lemma {:induction false} NoExcess(h: Digests, attempts: seq<Attempt>)
    requires forall k :: 0 <= k < |attempts| ==> !OverrunsAt(h, attempts, k)
    ensures Excess(h, attempts) == Usage(0, 0)
  {
    if attempts != [] {
      var before := attempts[..|attempts| - 1];
      forall k | 0 <= k < |before| ensures !OverrunsAt(h, before, k) {
        assert before[..k] == attempts[..k];
        assert !OverrunsAt(h, attempts, k);
      }
      NoExcess(h, before);
      assert !OverrunsAt(h, attempts, |attempts| - 1);
    }
  }

  /** Spent plus held stays within the policy, up to the one possible overrun. */
  lemma WithinLimits(h: Digests, seed: Seed, attempts: seq<Attempt>)
    requires ValidLedger(h, seed, attempts)
    ensures var b := StateOf(h, seed, attempts).budget;
            && b.tokensSpent + b.tokensReserved <= seed.policy.maxTokens + Excess(h, attempts).tokens
            && b.costSpent + b.costReserved <= seed.policy.maxCost + Excess(h, attempts).cost
  {
    if attempts != [] {
      var before, a := attempts[..|attempts| - 1], attempts[|attempts| - 1];
      var st, t := StateOf(h, seed, before), StateOf(h, seed, attempts);
      LedgerAccounted(h, seed, before);
      StepFacts(h, seed, st, a, t);
      ReserveRoom(h, seed, st, a.invocation);
      if a.completion.Some? {
        ChargeAgrees(h, before, st.executionIds, a.invocation, a.completion.value);
      }
    }
  }

  lemma ReserveRoom(h: Digests, seed: Seed, st: State, inv: Invocation)
    requires ReserveFault(h, seed, st, inv).None?
    ensures st.budget.tokensSpent + inv.reservation.tokens <= seed.policy.maxTokens
    ensures st.budget.costSpent + inv.reservation.cost <= seed.policy.maxCost
  {
  }

  /** Session accounting in one statement. */
  lemma SessionAccounting(h: Digests, s: Session)
    requires ValidSession(h, s)
    ensures ShapeKept(s.attempts, s.state) && CountersKept(h, s.attempts, s.state)
    ensures s.state.budget.tokensSpent + s.state.budget.tokensReserved
            <= s.seed.policy.maxTokens + Excess(h, s.attempts).tokens
    ensures s.state.budget.costSpent + s.state.budget.costReserved
            <= s.seed.policy.maxCost + Excess(h, s.attempts).cost
    ensures s.state.terminal == [] ==> Excess(h, s.attempts) == Usage(0, 0)
  {
    LedgerAccounted(h, s.seed, s.attempts);
    WithinLimits(h, s.seed, s.attempts);
    if s.state.terminal == [] {
      forall k | 0 <= k < |s.attempts| ensures !OverrunsAt(h, s.attempts, k) {
        if OverrunsAt(h, s.attempts, k) {
          OverrunIsLast(h, s.seed, s.attempts, k);
        }
      }
      NoExcess(h, s.attempts);
    }
  }

  /** A completion settles exactly when it names the pending call; nothing in it can be denied. */
  lemma SettlesIff(h: Digests, seed: Seed, st: State, c: Completion)
    ensures Complete(h, seed, st, c).Ok? <==> st.pending.Some? && c.invocationId == st.pending.value.id
    ensures Complete(h, seed, st, c).Ok? ==>
              var t := Complete(h, seed, st, c).value;
              && t.pending.None? && t.budget.tokensReserved == 0 && t.budget.costReserved == 0
              && t.budget.tokensSpent >= st.budget.tokensSpent && t.budget.costSpent >= st.budget.costSpent
  {
    if Complete(h, seed, st, c).Ok? {
      var inv := st.pending.value;
      SettledFacts(h, seed, st, inv, c, Judge(h, seed, st, inv, c));
    }
  }
}
