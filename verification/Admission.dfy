/** When a call is reserved and what a decision says, spelled on the ledger and the state. */
module Admission {
  import opened Basics
  import opened Domain
  import opened Rules
  import opened Reducer
  import opened Ledger
  import opened Invariants
  import opened Runs
  import opened Accounting
  import opened Eligibility
  import opened Outcomes

  // Time.

  /** The latest moment the ledger mentions. */
  function LatestMoment(seed: Seed, attempts: seq<Attempt>): Moment {
    if attempts == [] then seed.startedAt
    else
      var a := attempts[|attempts| - 1];
      if a.completion.Some? then Max(a.invocation.startedAt, a.completion.value.finishedAt) else a.invocation.startedAt
  }

  lemma SettledAt(h: Digests, seed: Seed, st: State, inv: Invocation, c: Completion)
    ensures Settled(h, seed, st, inv, c).lastAt == Max(st.lastAt, c.finishedAt)
  {
    var acc := Accounted(h, st, inv, c);
    var j := Judge(h, seed, st, inv, c);
    ApplyFacts(h, seed, acc, inv, j);
    CappedFacts(h, seed, Apply(h, seed, acc, inv, j));
  }

  lemma StepAtMoment(h: Digests, seed: Seed, st: State, a: Attempt, t: State)
    requires Step(h, seed, st, a) == Ok(t)
    ensures t.lastAt == if a.completion.Some? then Max(a.invocation.startedAt, a.completion.value.finishedAt)
                        else a.invocation.startedAt
  {
    StepAdmitted(h, seed, st, a, t);
    if a.completion.Some? {
      StepSettles(h, seed, st, a, t);
      SettledAt(h, seed, Held(st, a.invocation), a.invocation, a.completion.value);
    }
  }

  /** The state's clock is the latest moment of its ledger. */
  lemma ClockKept(h: Digests, seed: Seed, attempts: seq<Attempt>)
    requires ValidLedger(h, seed, attempts)
    ensures StateOf(h, seed, attempts).lastAt == LatestMoment(seed, attempts)
  {
    if attempts != [] {
      var n := |attempts| - 1;
      StepAt(h, seed, attempts, n);
      assert attempts[..n + 1] == attempts;
      StepAtMoment(h, seed, StateOf(h, seed, attempts[..n]), attempts[n], StateOf(h, seed, attempts));
    }
  }

  // Reservation.

  /** The order in which the objections are raised. */
  function Order(over: bool, pending: bool, used: bool, unbound: bool, late: bool, calls: bool, tokens: bool,
                 cost: bool, notDoer: bool, noNeed: bool, repairs: bool, reviews: bool, notReviewer: bool)
    : Option<Reason>
  {
    if over then Some(ReviewLimit)
    else if pending then Some(PendingCall)
    else if used then Some(Replay)
    else if unbound then Some(BindingMismatch)
    else if late then Some(TimeWindow)
    else if calls then Some(InvocationLimit)
    else if tokens then Some(TokenLimit)
    else if cost then Some(CostLimit)
    else if notDoer then Some(IdentityUnavailable)
    else if noNeed then Some(InvalidRepair)
    else if repairs then Some(RepairLimit)
    else if reviews then Some(ReviewLimit)
    else if notReviewer then Some(IdentityUnavailable)
    else None
  }

  /** The first thing that stands against the call, if anything does. */
  function Objection(h: Digests, s: Session, id: Identifier, kind: Kind, actor: Model, held: Reservation, now: Moment)
    : Option<Reason>
  {
    Order(s.state.terminal != [] || (s.state.pending.None? && Accepting(h, s.seed, s.state)),
          s.state.pending.Some?,
          exists a :: a in s.attempts && a.invocation.id == id,
          false,
          now < LatestMoment(s.seed, s.attempts)
          || now + held.seconds * TICKS_PER_SECOND
             > s.seed.startedAt + s.seed.policy.maxSeconds * TICKS_PER_SECOND,
          |s.attempts| >= s.seed.policy.maxInvocations,
          Spent(h, s.attempts).tokens + held.tokens > s.seed.policy.maxTokens,
          Spent(h, s.attempts).cost + held.cost > s.seed.policy.maxCost,
          kind == Repair && actor != s.seed.originalDoer,
          kind == Repair && !Unanswered(h, s.state),
          kind == Repair && RepairAttempts(s.attempts) >= s.seed.policy.maxRepairs,
          kind == Review && |s.state.reports| >= s.seed.policy.maxReviews,
          kind == Review && actor !in s.seed.reviewers)
  }

  /** What the ledger says about the state a reservation looks at. */
  predicate Kept(h: Digests, s: Session) {
    && s.state.lastAt == LatestMoment(s.seed, s.attempts)
    && s.seed.startedAt <= s.state.lastAt
    && ShapeKept(s.attempts, s.state) && CountersKept(h, s.attempts, s.state)
    && (forall r :: r in s.seed.reviewers ==> Independent(s.seed, s.state.artifact.producers, r))
  }

  lemma LedgerKept(h: Digests, s: Session)
    requires ValidSession(h, s)
    ensures Kept(h, s)
  {
    ClockKept(h, s.seed, s.attempts);
    SessionAccounting(h, s);
    LedgerSound(h, s.seed, s.attempts);
    ClockStarts(h, s.seed, s.attempts);
  }

  lemma ClockStarts(h: Digests, seed: Seed, attempts: seq<Attempt>)
    requires ValidLedger(h, seed, attempts)
    ensures seed.startedAt <= LatestMoment(seed, attempts)
  {
    if attempts != [] {
      var n := |attempts| - 1;
      StepAt(h, seed, attempts, n);
      StepAdmitted(h, seed, StateOf(h, seed, attempts[..n]), attempts[n], StateOf(h, seed, attempts[..n + 1]));
      AdmittedInTime(h, seed, StateOf(h, seed, attempts[..n]), attempts[n].invocation);
    }
  }

  lemma AdmittedInTime(h: Digests, seed: Seed, st: State, inv: Invocation)
    requires ReserveFault(h, seed, st, inv).None?
    ensures seed.startedAt <= inv.startedAt
  {
  }

  lemma IdUsed(attempts: seq<Attempt>, st: State, id: Identifier)
    requires ShapeKept(attempts, st)
    ensures id in st.invocationIds <==> exists a :: a in attempts && a.invocation.id == id
  {
    if id in st.invocationIds {
      var i :| 0 <= i < |st.invocationIds| && st.invocationIds[i] == id;
      assert attempts[i] in attempts;
    }
    if a :| a in attempts && a.invocation.id == id {
      var i :| 0 <= i < |attempts| && attempts[i] == a;
      assert st.invocationIds[i] == id;
    }
  }

  lemma TimeObjection(h: Digests, s: Session, inv: Invocation)
    requires Kept(h, s)
    ensures !WithinWindow(s.seed, s.state, inv.startedAt)
            || inv.reservation.seconds * TICKS_PER_SECOND
               > s.seed.policy.maxSeconds * TICKS_PER_SECOND - (inv.startedAt - s.seed.startedAt)
            <==> inv.startedAt < LatestMoment(s.seed, s.attempts)
                 || inv.startedAt + inv.reservation.seconds * TICKS_PER_SECOND
                    > s.seed.startedAt + s.seed.policy.maxSeconds * TICKS_PER_SECOND
  {
  }

  lemma BookedIs(h: Digests, s: Session)
    requires Kept(h, s)
    ensures s.state.budget.invocations == |s.attempts| && s.state.budget.repairs == RepairAttempts(s.attempts)
    ensures Spent(h, s.attempts) == Usage(s.state.budget.tokensSpent, s.state.budget.costSpent)
    ensures s.state.pending.Some? <==> LastPending(s.attempts)
  {
  }

  lemma FaultOrder(h: Digests, seed: Seed, st: State, inv: Invocation)
    ensures var order := Order(
                st.terminal != [] || EligibilityReasons(h, seed, st) == [], st.pending.Some?,
                inv.id in st.invocationIds, inv.binding != BindingOf(h, st.artifact),
                !WithinWindow(seed, st, inv.startedAt)
                || inv.reservation.seconds * TICKS_PER_SECOND
                   > seed.policy.maxSeconds * TICKS_PER_SECOND - (inv.startedAt - seed.startedAt),
                st.budget.invocations >= seed.policy.maxInvocations,
                st.budget.tokensSpent + inv.reservation.tokens > seed.policy.maxTokens,
                st.budget.costSpent + inv.reservation.cost > seed.policy.maxCost,
                inv.kind == Repair && inv.actor != seed.originalDoer,
                inv.kind == Repair && !NeedsRepair(h, st),
                inv.kind == Repair && st.budget.repairs >= seed.policy.maxRepairs,
                inv.kind == Review && |st.reports| >= seed.policy.maxReviews,
                inv.kind == Review
                && (inv.actor !in seed.reviewers || !Independent(seed, st.artifact.producers, inv.actor)));
            ReserveFault(h, seed, st, inv) == if order.None? then None else Some(Violation(order.value))
  {
  }

  lemma FaultIs(h: Digests, s: Session, inv: Invocation)
    requires Kept(h, s) && inv.binding == BindingOf(h, s.state.artifact)
    requires NeedsRepair(h, s.state) <==> Unanswered(h, s.state)
    requires EligibilityReasons(h, s.seed, s.state) == []
             <==> s.state.terminal == [] && s.state.pending.None? && Accepting(h, s.seed, s.state)
    requires inv.id in s.state.invocationIds <==> exists a :: a in s.attempts && a.invocation.id == inv.id
    ensures var objection := Objection(h, s, inv.id, inv.kind, inv.actor, inv.reservation, inv.startedAt);
            ReserveFault(h, s.seed, s.state, inv)
            == if objection.None? then None else Some(Violation(objection.value))
  {
    TimeObjection(h, s, inv);
    BookedIs(h, s);
    FaultOrder(h, s.seed, s.state, inv);
  }

  lemma StandingIff(h: Digests, seed: Seed, st: State)
    ensures EligibilityReasons(h, seed, st) == []
            <==> st.terminal == [] && st.pending.None? && Accepting(h, seed, st)
  {
    EligibleIff(h, seed, st);
    if st.pending.None? {
      AcceptingIff(h, seed, st);
    }
  }

  /** What a reservation appends and books. */
  predicate BooksCall(h: Digests, s: Session, t: Session, inv: Invocation) {
    && t.seed == s.seed && t.attempts == s.attempts + [Attempt(inv, None)]
    && t.state.pending == Some(inv) && t.state.lastAt == inv.startedAt
    && t.state.invocationIds == s.state.invocationIds + [inv.id]
    && t.state.budget == Budget(s.state.budget.invocations + 1,
                                s.state.budget.repairs + (if inv.kind == Repair then 1 else 0),
                                s.state.budget.tokensSpent, s.state.budget.costSpent,
                                inv.reservation.tokens, inv.reservation.cost)
    && t.state.artifact == s.state.artifact && t.state.findings == s.state.findings
    && t.state.reports == s.state.reports && t.state.resolutions == s.state.resolutions
    && t.state.failures == s.state.failures && t.state.terminal == s.state.terminal
    && t.state.executionIds == s.state.executionIds
  }

  /** A reservation on a valid session succeeds exactly when nothing stands against it, is refused for
      the first thing that does, and books exactly one call bound to the present artifact. */
  lemma ReserveIff(h: Digests, s: Session, id: Identifier, kind: Kind, actor: Model, held: Reservation, now: Moment)
    requires ValidSession(h, s)
    ensures var reserved := ReserveInvocation(h, s, id, kind, actor, held, now);
            var objection := Objection(h, s, id, kind, actor, held, now);
            var a := s.state.artifact;
            if objection.Some? then reserved == Err(Violation(objection.value))
            else && reserved.Ok?
                 && BooksCall(h, s, reserved.value,
                              Invocation(id, kind,
                                         Binding(a.scope, h.artifact(a), a.contractDigest, a.contextDigest),
                                         actor, held, now))
  {
    var inv := Invocation(id, kind, BindingOf(h, s.state.artifact), actor, held, now);
    LedgerKept(h, s);
    UnansweredIff(h, s.state);
    StandingIff(h, s.seed, s.state);
    IdUsed(s.attempts, s.state, id);
    FaultIs(h, s, inv);
    ReserveIs(h, s, inv);
  }

  lemma ReserveIs(h: Digests, s: Session, inv: Invocation)
    requires ValidSession(h, s) && inv.binding == BindingOf(h, s.state.artifact)
    ensures var reserved := ReserveInvocation(h, s, inv.id, inv.kind, inv.actor, inv.reservation, inv.startedAt);
            var fault := ReserveFault(h, s.seed, s.state, inv);
            if fault.Some? then reserved == Err(fault.value)
            else reserved == Ok(Session(s.seed, s.attempts + [Attempt(inv, None)], Held(s.state, inv)))
  {
  }

  // Decisions.

  predicate InWindow(seed: Seed, clock: Moment, now: Moment) {
    clock <= now && now < seed.startedAt + seed.policy.maxSeconds * TICKS_PER_SECOND
  }

  /** A terminal reason that a person must look at. */
  predicate Escalates(terminal: seq<Reason>) {
    || CriticalStop in terminal || Reason.ContractGap in terminal || ReviewEscalated in terminal
    || RepeatedFailure in terminal
  }

  function StatusFor(h: Digests, s: Session, current: Artifact, now: Moment): Status {
    var seed, st := s.seed, s.state;
    var standing := current == st.artifact && InWindow(seed, LatestMoment(seed, s.attempts), now);
    if Escalates(st.terminal) then EscalateStatus
    else if st.terminal != [] || !standing then BlockedStatus
    else if st.pending.None? && Accepting(h, seed, st) then EligibleStatus
    else if Unanswered(h, st) && RepairAttempts(s.attempts) < seed.policy.maxRepairs then NeedsRepairStatus
    else NeedsReviewStatus
  }

  /** What the exit still misses. */
  predicate Missing(h: Digests, seed: Seed, st: State, x: Reason) {
    || (x == PendingCall && st.pending.Some?)
    || (x == MinReviews && |st.reports| < seed.policy.minReviews)
    || (x == OpenBlockers
        && exists fp :: fp in st.findings && st.findings[fp].closedBy.None? && st.findings[fp].blocking)
    || MissingAcceptance(h, seed, st, x)
  }

  /** What the latest report does not give. */
  predicate MissingAcceptance(h: Digests, seed: Seed, st: State, x: Reason) {
    || (x == UnreviewedArtifact
        && (st.reports == []
            || st.reports[|st.reports| - 1].binding
               != Binding(st.artifact.scope, h.artifact(st.artifact), st.artifact.contractDigest,
                          st.artifact.contextDigest)))
    || (x == MandatoryCriteria && st.reports != []
        && var latest := st.reports[|st.reports| - 1];
           latest.verdict != Accept || !AllMandatoryPass(seed.contract, latest))
  }

  /** Why the decision is what it is. */
  predicate ReasonFor(h: Digests, s: Session, current: Artifact, now: Moment, x: Reason) {
    || x in s.state.terminal
    || Missing(h, s.seed, s.state, x)
    || (x == ArtifactDrift && current != s.state.artifact)
    || (x == TimeWindow && !InWindow(s.seed, LatestMoment(s.seed, s.attempts), now))
  }

  lemma LatestIff(h: Digests, seed: Seed, st: State, x: Reason)
    ensures x in LatestReasons(h, seed, st) <==> MissingAcceptance(h, seed, st, x)
  {
    if st.reports != [] {
      MandatoryIff(seed, st.reports[|st.reports| - 1]);
    }
  }

  lemma MissingIff(h: Digests, seed: Seed, st: State, x: Reason)
    ensures x in ExitReasons(h, seed, st) <==> Missing(h, seed, st, x)
  {
    LatestIff(h, seed, st, x);
    ThreeBefore(st.pending.Some?, |st.reports| < seed.policy.minReviews, HasOpenBlocker(st),
                LatestReasons(h, seed, st), x);
  }

  lemma ThreeBefore(a: bool, b: bool, c: bool, s: seq<Reason>, x: Reason)
    ensures x in When(a, PendingCall) + When(b, MinReviews) + When(c, OpenBlockers) + s
            <==> (a && x == PendingCall) || (b && x == MinReviews) || (c && x == OpenBlockers) || x in s
  {
  }

  lemma TwoAfter(s: seq<Reason>, a: bool, b: bool, x: Reason)
    ensures x in s + When(a, ArtifactDrift) + When(b, TimeWindow)
            <==> x in s || (a && x == ArtifactDrift) || (b && x == TimeWindow)
  {
  }

  lemma WindowIff(h: Digests, s: Session, now: Moment)
    requires Kept(h, s)
    ensures WithinWindow(s.seed, s.state, now) <==> InWindow(s.seed, LatestMoment(s.seed, s.attempts), now)
  {
  }

  lemma ReasonsIff(h: Digests, s: Session, current: Artifact, now: Moment, x: Reason)
    requires Kept(h, s)
    ensures x in DecisionReasons(h, s, current, now) <==> ReasonFor(h, s, current, now, x)
  {
    MissingIff(h, s.seed, s.state, x);
    StandingReasons(h, s.seed, s.state, x);
    WindowIff(h, s, now);
    TwoAfter(EligibilityReasons(h, s.seed, s.state), current != s.state.artifact,
             !WithinWindow(s.seed, s.state, now), x);
  }

  lemma StandingReasons(h: Digests, seed: Seed, st: State, x: Reason)
    ensures x in EligibilityReasons(h, seed, st) <==> x in st.terminal || x in ExitReasons(h, seed, st)
  {
  }

  lemma NoReason(h: Digests, s: Session, current: Artifact, now: Moment)
    requires Kept(h, s)
    ensures DecisionReasons(h, s, current, now) == [] <==>
              && s.state.terminal == [] && s.state.pending.None? && Accepting(h, s.seed, s.state)
              && current == s.state.artifact && InWindow(s.seed, LatestMoment(s.seed, s.attempts), now)
  {
    StandingIff(h, s.seed, s.state);
    WindowIff(h, s, now);
    Three(EligibilityReasons(h, s.seed, s.state), current != s.state.artifact,
          !WithinWindow(s.seed, s.state, now));
  }

  lemma Three(s: seq<Reason>, a: bool, b: bool)
    ensures s + When(a, ArtifactDrift) + When(b, TimeWindow) == [] <==> s == [] && !a && !b
  {
    assert |s + When(a, ArtifactDrift) + When(b, TimeWindow)|
           == |s| + |When(a, ArtifactDrift)| + |When(b, TimeWindow)|;
  }

  lemma StatusByFacts(h: Digests, s: Session, current: Artifact, now: Moment, reasons: seq<Reason>)
    requires Kept(h, s)
    requires (exists x :: x in reasons && x in ESCALATING) <==> Escalates(s.state.terminal)
    requires s.state.terminal == [] ==>
               (ArtifactDrift in reasons || TimeWindow in reasons
                <==> !(current == s.state.artifact && InWindow(s.seed, LatestMoment(s.seed, s.attempts), now)))
    requires reasons == [] <==>
               && s.state.terminal == [] && s.state.pending.None? && Accepting(h, s.seed, s.state)
               && current == s.state.artifact && InWindow(s.seed, LatestMoment(s.seed, s.attempts), now)
    requires NeedsRepair(h, s.state) <==> Unanswered(h, s.state)
    ensures StatusOf(h, s, reasons) == StatusFor(h, s, current, now)
  {
  }

  lemma EscalatingReason(h: Digests, s: Session, current: Artifact, now: Moment, x: Reason)
    requires x in ESCALATING
    ensures ReasonFor(h, s, current, now, x) <==> x in s.state.terminal
  {
  }

  lemma StandingReason(h: Digests, s: Session, current: Artifact, now: Moment)
    ensures s.state.terminal == [] ==>
              (ReasonFor(h, s, current, now, ArtifactDrift) || ReasonFor(h, s, current, now, TimeWindow)
               <==> !(current == s.state.artifact && InWindow(s.seed, LatestMoment(s.seed, s.attempts), now)))
  {
  }

  lemma StatusIs(h: Digests, s: Session, current: Artifact, now: Moment, reasons: seq<Reason>)
    requires Kept(h, s)
    requires forall x :: x in reasons <==> ReasonFor(h, s, current, now, x)
    requires reasons == [] <==>
               && s.state.terminal == [] && s.state.pending.None? && Accepting(h, s.seed, s.state)
               && current == s.state.artifact && InWindow(s.seed, LatestMoment(s.seed, s.attempts), now)
    requires NeedsRepair(h, s.state) <==> Unanswered(h, s.state)
    ensures StatusOf(h, s, reasons) == StatusFor(h, s, current, now)
  {
    forall x | x in ESCALATING ensures x in reasons <==> x in s.state.terminal {
      EscalatingReason(h, s, current, now, x);
    }
    EscalatingIff(reasons, s.state.terminal);
    StandingReason(h, s, current, now);
    StatusByFacts(h, s, current, now, reasons);
  }

  lemma EscalatingIff(reasons: seq<Reason>, terminal: seq<Reason>)
    requires forall x :: x in ESCALATING ==> (x in reasons <==> x in terminal)
    ensures (exists x :: x in reasons && x in ESCALATING) <==> Escalates(terminal)
  {
    assert CriticalStop in ESCALATING && Reason.ContractGap in ESCALATING && ReviewEscalated in ESCALATING
           && RepeatedFailure in ESCALATING;
  }

  /** The decision on a valid session: its status, its reasons without repeats, and the digests and count
      it reports. */
  lemma DecisionIs(h: Digests, s: Session, current: Artifact, now: Moment)
    requires ValidSession(h, s)
    ensures Evaluate(h, s, current, now).Ok?
    ensures var d := Evaluate(h, s, current, now).value;
            && d.status == StatusFor(h, s, current, now)
            && (forall x :: x in d.reasons <==> ReasonFor(h, s, current, now, x))
            && (forall i, j :: 0 <= i < j < |d.reasons| ==> d.reasons[i] != d.reasons[j])
            && d.sessionDigest == h.session(s) && d.artifactDigest == h.artifact(s.state.artifact)
            && d.completedReviews == |s.state.reports|
  {
    LedgerKept(h, s);
    UnansweredIff(h, s.state);
    NoReason(h, s, current, now);
    forall x ensures x in DecisionReasons(h, s, current, now) <==> ReasonFor(h, s, current, now, x) {
      ReasonsIff(h, s, current, now, x);
    }
    StatusIs(h, s, current, now, DecisionReasons(h, s, current, now));
    EvaluateIs(h, s, current, now);
  }

  lemma EvaluateIs(h: Digests, s: Session, current: Artifact, now: Moment)
    requires ValidSession(h, s)
    ensures var reasons := DecisionReasons(h, s, current, now);
            Evaluate(h, s, current, now)
            == Ok(Decision(StatusOf(h, s, reasons), Dedupe(reasons), h.session(s), h.artifact(s.state.artifact),
                           |s.state.reports|))
  {
  }
}
