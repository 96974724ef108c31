/** Progress: a unit that is neither eligible, terminal nor pending can always be advanced. */
module Progress {
  import opened Basics
  import opened Domain
  import opened Rules
  import opened Findings
  import opened Reducer
  import opened Ledger
  import opened Invariants
  import opened Runs

  /** With nothing pending, a valid session is eligible, terminal, or has capacity for its next call. */
  lemma NeverStuck(h: Digests, s: Session)
    requires ValidSession(h, s) && s.state.pending.None?
    ensures Eligible(h, s.seed, s.state) || s.state.terminal != [] || SpareCapacity(h, s.seed, s.state)
  {
    LedgerSound(h, s.seed, s.attempts);
  }

  /** A pending session is never terminal; a terminal or eligible one admits no call and no completion. */
  lemma SettledIsFrozen(h: Digests, s: Session, inv: Invocation, c: Completion)
    requires ValidSession(h, s)
    ensures s.state.pending.Some? ==> s.state.terminal == []
    ensures s.state.terminal != [] || Eligible(h, s.seed, s.state) ==>
              && Reserve(h, s.seed, s.state, inv) == Err(Violation(ReviewLimit))
              && Complete(h, s.seed, s.state, c) == Err(Violation(PendingCall))
  {
    LedgerSound(h, s.seed, s.attempts);
    EligibleIff(h, s.seed, s.state);
  }

  predicate Fits(seed: Seed, st: State, id: Identifier, held: Reservation, now: Moment) {
    && id !in st.invocationIds
    && WithinWindow(seed, st, now)
    && held.seconds * TICKS_PER_SECOND <= seed.policy.maxSeconds * TICKS_PER_SECOND - (now - seed.startedAt)
    && st.budget.tokensSpent + held.tokens <= seed.policy.maxTokens
    && st.budget.costSpent + held.cost <= seed.policy.maxCost
  }

  /** What the statuses that ask for another call say about the state. */
  lemma AskingStatus(h: Digests, s: Session, current: Artifact, now: Moment)
    requires Evaluate(h, s, current, now).Ok? && s.state.pending.None?
    requires Evaluate(h, s, current, now).value.status in {NeedsReviewStatus, NeedsRepairStatus}
    ensures EligibilityReasons(h, s.seed, s.state) != [] && s.state.terminal == []
    ensures SpareCapacity(h, s.seed, s.state)
    ensures Evaluate(h, s, current, now).value.status == NeedsRepairStatus <==> NeedsRepair(h, s.state)
  {
    NeverStuck(h, s);
    EligibleIff(h, s.seed, s.state);
    AskingState(h, s, current, now, Evaluate(h, s, current, now).value.status);
  }

  lemma AskingState(h: Digests, s: Session, current: Artifact, now: Moment, status: Status)
    requires status == StatusOf(h, s, DecisionReasons(h, s, current, now))
    requires status in {NeedsReviewStatus, NeedsRepairStatus}
    requires EligibilityReasons(h, s.seed, s.state) == [] <==> Eligible(h, s.seed, s.state)
    ensures EligibilityReasons(h, s.seed, s.state) != [] && s.state.terminal == []
    ensures status == NeedsRepairStatus <==>
              NeedsRepair(h, s.state) && s.state.budget.repairs < s.seed.policy.maxRepairs
  {
    var reasons := DecisionReasons(h, s, current, now);
    assert current != s.state.artifact ==> ArtifactDrift in reasons;
    assert !WithinWindow(s.seed, s.state, now) ==> TimeWindow in reasons;
  }

  lemma ReviewerAvailable(h: Digests, seed: Seed, attempts: seq<Attempt>)
    requires ValidLedger(h, seed, attempts)
    ensures seed.reviewers != []
            && Independent(seed, StateOf(h, seed, attempts).artifact.producers, seed.reviewers[0])
  {
    LedgerSound(h, seed, attempts);
    assert seed.reviewers[0] in seed.reviewers;
  }

  lemma AdmittedIff(h: Digests, seed: Seed, st: State, repair: bool, id: Identifier, held: Reservation, now: Moment)
    requires EligibilityReasons(h, seed, st) != [] && st.terminal == [] && st.pending.None?
    requires SpareCapacity(h, seed, st) && repair == NeedsRepair(h, st)
    requires seed.reviewers != [] && Independent(seed, st.artifact.producers, seed.reviewers[0])
    ensures var inv := Invocation(id, if repair then Repair else Review, BindingOf(h, st.artifact),
                                  if repair then seed.originalDoer else seed.reviewers[0], held, now);
            var fault := ReserveFault(h, seed, st, inv);
            && (fault.None? <==> Fits(seed, st, id, held, now))
            && (fault.Some? ==> fault.value in {Violation(Replay), Violation(TimeWindow),
                                                Violation(TokenLimit), Violation(CostLimit)})
  {
  }

  /** When a decision asks for a review or a repair, the coordinator's reservation for it can be
      refused only for a reused identifier, time, tokens or cost, and is admitted exactly otherwise. */
  lemma NextCallAdmitted(h: Digests, s: Session, current: Artifact, now: Moment,
                         id: Identifier, held: Reservation, later: Moment)
    requires Evaluate(h, s, current, now).Ok? && s.state.pending.None?
    requires Evaluate(h, s, current, now).value.status in {NeedsReviewStatus, NeedsRepairStatus}
    ensures s.seed.reviewers != []
    ensures var repair := Evaluate(h, s, current, now).value.status == NeedsRepairStatus;
            var reserved := ReserveInvocation(
                              h, s, id, if repair then Repair else Review,
                              if repair then s.seed.originalDoer else s.seed.reviewers[0], held, later);
            && (reserved.Ok? <==> Fits(s.seed, s.state, id, held, later))
            && (reserved.Err? ==> reserved.error in {Violation(Replay), Violation(TimeWindow),
                                                     Violation(TokenLimit), Violation(CostLimit)})
  {
    AskingStatus(h, s, current, now);
    ReviewerAvailable(h, s.seed, s.attempts);
    AdmittedIff(h, s.seed, s.state, NeedsRepair(h, s.state), id, held, later);
  }
}
