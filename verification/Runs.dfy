/** The step invariants lifted to every valid ledger, of any length. */
module Runs {
  import opened Basics
  import opened Domain
  import opened Rules
  import opened Findings
  import opened Reducer
  import opened Ledger
  import opened Invariants

  /** What a report must have satisfied to be credited, read off the report itself. */
  predicate CreditWorthy(h: Digests, seed: Seed, r: ReviewReport) {
    && Independent(seed, seed.initialArtifact.producers, r.reviewer)
    && Covers(seed, r)
    && DistinctFindings(h, r.findings)
    && (forall item :: item in r.criteria ==>
          && EvidenceBound(item.evidence, r.binding.artifactDigest)
          && ItemFault(seed, r, item).None?)
    && (forall f :: f in r.findings ==>
          f.artifactDigest == r.binding.artifactDigest && EvidenceBound(f.evidence, r.binding.artifactDigest))
  }

  predicate ReportsWorthy(h: Digests, seed: Seed, st: State) {
    forall r :: r in st.reports ==> CreditWorthy(h, seed, r)
  }

  lemma ReviewedWorthy(h: Digests, seed: Seed, st: State, inv: Invocation, c: Completion)
    requires LineageKept(h, seed, st)
    ensures var j := Judge(h, seed, st, inv, c); j.Reviewed? ==> CreditWorthy(h, seed, j.report)
  {
    var j := Judge(h, seed, st, inv, c);
    if j.Reviewed? {
      assert ReportBindingFault(h, seed, Accounted(h, st, inv, c), inv, j.report).None?;
    }
  }

  lemma SettleWorthy(h: Digests, seed: Seed, st: State, inv: Invocation, c: Completion)
    requires LineageKept(h, seed, st) && ReportsWorthy(h, seed, st)
    ensures ReportsWorthy(h, seed, Settled(h, seed, st, inv, c))
    ensures Settled(h, seed, st, inv, c).pending.None?
  {
    var j := Judge(h, seed, st, inv, c);
    ReviewedWorthy(h, seed, st, inv, c);
    SettledFacts(h, seed, st, inv, c, j);
    WorthySnoc(h, seed, st, Settled(h, seed, st, inv, c), j);
  }

  lemma WorthySnoc(h: Digests, seed: Seed, st: State, t: State, j: Judgement)
    requires ReportsWorthy(h, seed, st)
    requires j.Reviewed? ==> CreditWorthy(h, seed, j.report)
    requires t.reports == if j.Reviewed? then st.reports + [j.report] else st.reports
    ensures ReportsWorthy(h, seed, t)
  {
  }

  ghost predicate Sound(h: Digests, seed: Seed, st: State) {
    && PendingSound(h, seed, st)
    && LineageKept(h, seed, st)
    && ClosuresAccountable(h, st)
    && RecordsCredited(h, st)
    && BlockersCounted(seed, st)
    && FailuresBounded(seed, st)
    && CapacityKnown(h, seed, st)
    && WithinCaps(seed, st)
    && ReportsWorthy(h, seed, st)
  }

  lemma InitialSound(h: Digests, seed: Seed)
    requires InitialState(h, seed).Ok?
    ensures Sound(h, seed, InitialState(h, seed).value)
  {
  }

  lemma ReserveSound(h: Digests, seed: Seed, st: State, inv: Invocation)
    requires Sound(h, seed, st)
    requires ReserveFault(h, seed, st, inv).None?
    ensures Sound(h, seed, Held(st, inv))
  {
    ReservePending(h, seed, st, inv);
    ReserveFindings(h, st, Held(st, inv));
  }

  lemma ReserveFindings(h: Digests, st: State, t: State)
    requires ClosuresAccountable(h, st) && RecordsCredited(h, st)
    requires t.findings == st.findings && t.reports == st.reports && t.resolutions == st.resolutions
    requires t.terminal == st.terminal
    ensures ClosuresAccountable(h, t) && RecordsCredited(h, t)
  {
    forall fp | fp in t.findings ensures Accountable(h, t, fp, t.findings[fp]) {
      AccountableGrows(h, st, t, fp, st.findings[fp]);
    }
    if t.terminal == [] {
      forall fp | fp in t.findings ensures FromReport(h, t, fp, t.findings[fp]) {
        FromReportGrows(h, st, t, fp, st.findings[fp], t.findings[fp]);
      }
    }
  }

  lemma SettleSound(h: Digests, seed: Seed, st: State, inv: Invocation, c: Completion)
    requires Sound(h, seed, st) && st.pending == Some(inv)
    ensures Sound(h, seed, Settled(h, seed, st, inv, c))
  {
    SettleLineage(h, seed, st, inv, c);
    SettleAccountable(h, seed, st, inv, c);
    SettleRecords(h, seed, st, inv, c);
    SettleBlockers(h, seed, st, inv, c);
    SettleFailures(h, seed, st, inv, c);
    SettleCaps(h, seed, st, inv, c);
    SettleCapacity(h, seed, st, inv, c);
    SettleWorthy(h, seed, st, inv, c);
  }

  /** What a completed ledger entry leaves behind. */
  lemma StepSettles(h: Digests, seed: Seed, st: State, a: Attempt, t: State)
    requires Step(h, seed, st, a) == Ok(t) && a.completion.Some?
    ensures t == Settled(h, seed, Held(st, a.invocation), a.invocation, a.completion.value)
  {
  }

  lemma StepAdmitted(h: Digests, seed: Seed, st: State, a: Attempt, t: State)
    requires Step(h, seed, st, a) == Ok(t)
    ensures ReserveFault(h, seed, st, a.invocation).None?
    ensures a.completion.None? ==> t == Held(st, a.invocation)
  {
  }

  lemma AdmittedFacts(h: Digests, seed: Seed, st: State, inv: Invocation)
    requires ReserveFault(h, seed, st, inv).None?
    ensures st.pending.None? && st.terminal == [] && inv.id !in st.invocationIds
  {
  }

  /** One ledger entry: what it demands of the state before it and how the bookkeeping moves. */
  lemma StepFacts(h: Digests, seed: Seed, st: State, a: Attempt, t: State)
    requires Step(h, seed, st, a) == Ok(t)
    ensures st.pending.None? && st.terminal == [] && a.invocation.id !in st.invocationIds
    ensures ReserveFault(h, seed, st, a.invocation).None?
    ensures t.pending == if a.completion.None? then Some(a.invocation) else None
    ensures t.invocationIds == st.invocationIds + [a.invocation.id]
    ensures t.executionIds == if a.completion.None? then st.executionIds
                              else Recorded(h, st.executionIds, a.completion.value)
    ensures t.budget == if a.completion.None? then Held(st, a.invocation).budget
                        else Accounted(h, Held(st, a.invocation), a.invocation, a.completion.value).budget
  {
    StepAdmitted(h, seed, st, a, t);
    AdmittedFacts(h, seed, st, a.invocation);
    if a.completion.Some? {
      var held := Held(st, a.invocation);
      StepSettles(h, seed, st, a, t);
      SettledFacts(h, seed, held, a.invocation, a.completion.value,
                   Judge(h, seed, held, a.invocation, a.completion.value));
    }
  }

  /** Every state that a ledger replays to is sound. */
  lemma {:induction false} LedgerSound(h: Digests, seed: Seed, attempts: seq<Attempt>)
    requires ValidLedger(h, seed, attempts)
    ensures Sound(h, seed, StateOf(h, seed, attempts))
  {
    if attempts == [] {
      InitialSound(h, seed);
    } else {
      var prefix, a := attempts[..|attempts| - 1], attempts[|attempts| - 1];
      LedgerSound(h, seed, prefix);
      ReserveSound(h, seed, StateOf(h, seed, prefix), a.invocation);
      if a.completion.Some? {
        SettleSound(h, seed, Held(StateOf(h, seed, prefix), a.invocation), a.invocation, a.completion.value);
      }
    }
  }

  // Views of soundness, so that a proof sees only what it uses.

  lemma {:induction false} LedgerSeed(h: Digests, seed: Seed, attempts: seq<Attempt>)
    requires ValidLedger(h, seed, attempts)
    ensures SeedFault(h, seed).None? && WellFormedSeed(seed)
  {
    PrefixValid(h, seed, attempts, 0);
    assert attempts[..0] == [];
  }

  lemma LedgerReports(h: Digests, seed: Seed, attempts: seq<Attempt>)
    requires ValidLedger(h, seed, attempts)
    ensures ReportsWorthy(h, seed, StateOf(h, seed, attempts))
    ensures SameLineage(StateOf(h, seed, attempts).artifact, seed.initialArtifact)
  {
    LedgerSound(h, seed, attempts);
  }

  lemma LedgerLimits(h: Digests, seed: Seed, attempts: seq<Attempt>)
    requires ValidLedger(h, seed, attempts)
    ensures FailuresBounded(seed, StateOf(h, seed, attempts)) && WithinCaps(seed, StateOf(h, seed, attempts))
    ensures PendingSound(h, seed, StateOf(h, seed, attempts))
  {
    LedgerSound(h, seed, attempts);
  }

  /** The call under way in a step is admissible and the failures before it are bounded. */
  lemma HeldLimits(h: Digests, seed: Seed, attempts: seq<Attempt>, a: Attempt)
    requires ValidLedger(h, seed, attempts)
    requires ReserveFault(h, seed, StateOf(h, seed, attempts), a.invocation).None?
    ensures var held := Held(StateOf(h, seed, attempts), a.invocation);
            PendingSound(h, seed, held) && FailuresBounded(seed, held)
  {
    LedgerLimits(h, seed, attempts);
    ReservePending(h, seed, StateOf(h, seed, attempts), a.invocation);
  }
}
