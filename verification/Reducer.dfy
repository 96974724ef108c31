/** The attempt reducer: reserve before execution, settle once, never undo an attempt. */
module Reducer {
  import opened Basics
  import opened Domain
  import opened Rules
  import opened Findings

  const NO_SPEND: Budget := Budget(0, 0, 0, 0, 0, 0)

  function InitialState(h: Digests, seed: Seed): Outcome<State> {
    var fault := SeedFault(h, seed);
    if fault.Some? then Err(fault.value)
    else Ok(State(seed.initialArtifact, seed.startedAt, NO_SPEND, None, [], [], [], map[], [], map[], []))
  }

  function ReserveFault(h: Digests, seed: Seed, st: State, inv: Invocation): Option<Denial> {
    var limits := seed.policy;
    var held := inv.reservation;
    if st.terminal != [] || EligibilityReasons(h, seed, st) == [] then Some(Violation(ReviewLimit))
    else if st.pending.Some? then Some(Violation(PendingCall))
    else if inv.id in st.invocationIds then Some(Violation(Replay))
    else if inv.binding != BindingOf(h, st.artifact) then Some(Violation(BindingMismatch))
    else if !WithinWindow(seed, st, inv.startedAt) then Some(Violation(TimeWindow))
    else if held.seconds * TICKS_PER_SECOND
            > limits.maxSeconds * TICKS_PER_SECOND - (inv.startedAt - seed.startedAt)
    then Some(Violation(TimeWindow))
    else if st.budget.invocations >= limits.maxInvocations then Some(Violation(InvocationLimit))
    else if st.budget.tokensSpent + held.tokens > limits.maxTokens then Some(Violation(TokenLimit))
    else if st.budget.costSpent + held.cost > limits.maxCost then Some(Violation(CostLimit))
    else if inv.kind == Repair then
      if inv.actor != seed.originalDoer then Some(Violation(IdentityUnavailable))
      else if !NeedsRepair(h, st) then Some(Violation(InvalidRepair))
      else if st.budget.repairs >= limits.maxRepairs then Some(Violation(RepairLimit))
      else None
    else if |st.reports| >= limits.maxReviews then Some(Violation(ReviewLimit))
    else if inv.actor !in seed.reviewers then Some(Violation(IdentityUnavailable))
    else if !Independent(seed, st.artifact.producers, inv.actor) then Some(Violation(IdentityUnavailable))
    else None
  }

  function Held(st: State, inv: Invocation): State {
    st.(budget := st.budget.(
          invocations := st.budget.invocations + 1,
          repairs := st.budget.repairs + (if inv.kind == Repair then 1 else 0),
          tokensReserved := inv.reservation.tokens,
          costReserved := inv.reservation.cost),
        pending := Some(inv),
        lastAt := inv.startedAt,
        invocationIds := st.invocationIds + [inv.id])
  }

  function Reserve(h: Digests, seed: Seed, st: State, inv: Invocation): Outcome<State> {
    var fault := ReserveFault(h, seed, st, inv);
    if fault.Some? then Err(fault.value) else Ok(Held(st, inv))
  }

  // Accounting. `seen` holds the provider executions already recorded.

  function ReceiptFault(h: Digests, seen: seq<Digest>, inv: Invocation, c: Completion): Option<Reason> {
    match c.receipt
    case None => Some(ReceiptUnavailable)
    case Some(proof) =>
      if proof.invocationId != inv.id || proof.binding != inv.binding || proof.actualModel != inv.actor
      then Some(ReceiptMismatch)
      else if proof.cached || ExecutionKey(h, proof) in seen then Some(Replay)
      else None
  }

  function ChargedTokens(h: Digests, seen: seq<Digest>, inv: Invocation, c: Completion): nat {
    var used := if c.receipt.Some? then c.receipt.value.usage.tokens else inv.reservation.tokens;
    if ReceiptFault(h, seen, inv, c).Some? then Max(used, inv.reservation.tokens) else used
  }

  function ChargedCost(h: Digests, seen: seq<Digest>, inv: Invocation, c: Completion): nat {
    var used := if c.receipt.Some? then c.receipt.value.usage.cost else inv.reservation.cost;
    if ReceiptFault(h, seen, inv, c).Some? then Max(used, inv.reservation.cost) else used
  }

  predicate Overruns(h: Digests, seen: seq<Digest>, inv: Invocation, c: Completion) {
    || ChargedTokens(h, seen, inv, c) > inv.reservation.tokens
    || ChargedCost(h, seen, inv, c) > inv.reservation.cost
  }

  function AccountFault(h: Digests, seen: seq<Digest>, inv: Invocation, c: Completion): Option<Reason> {
    if Overruns(h, seen, inv, c) then Some(BudgetOverrun) else ReceiptFault(h, seen, inv, c)
  }

  function Recorded(h: Digests, seen: seq<Digest>, c: Completion): seq<Digest> {
    if c.receipt.Some? && ExecutionKey(h, c.receipt.value) !in seen
    then seen + [ExecutionKey(h, c.receipt.value)]
    else seen
  }

  function Accounted(h: Digests, st: State, inv: Invocation, c: Completion): State {
    st.(budget := st.budget.(
          tokensSpent := st.budget.tokensSpent + ChargedTokens(h, st.executionIds, inv, c),
          costSpent := st.budget.costSpent + ChargedCost(h, st.executionIds, inv, c),
          tokensReserved := 0,
          costReserved := 0),
        pending := None,
        executionIds := Recorded(h, st.executionIds, c),
        lastAt := Max(st.lastAt, c.finishedAt))
  }

  // Failures and capacity.

  /** Reasons that end the unit at their first occurrence. */
  const FATAL: set<Reason> := {
    TimeWindow, ReceiptMismatch, Replay, BudgetOverrun, NoProgress, Reason.ContractGap,
    ArtifactDrift, AuthorizationRevoked, ExecutionInvalid, OutputLimit
  }

  function FailureCount(st: State, reason: Reason): nat {
    1 + if reason in st.failures then st.failures[reason] else 0
  }

  function FailureTerminal(seed: Seed, st: State, reason: Reason): seq<Reason> {
    Dedupe(st.terminal + When(reason in FATAL, reason)
           + When(FailureCount(st, reason) >= seed.policy.sameFailureLimit, RepeatedFailure))
  }

  function Failed(seed: Seed, st: State, reason: Reason): State {
    st.(failures := st.failures[reason := FailureCount(st, reason)],
        terminal := FailureTerminal(seed, st, reason))
  }

  function CapacityReasons(h: Digests, seed: Seed, st: State): seq<Reason> {
    When(NeedsRepair(h, st) && st.budget.repairs >= seed.policy.maxRepairs, RepairLimit)
    + When(|st.reports| >= seed.policy.maxReviews, ReviewLimit)
    + When(st.budget.invocations >= seed.policy.maxInvocations, InvocationLimit)
    + When(st.budget.tokensSpent >= seed.policy.maxTokens, TokenLimit)
    + When(st.budget.costSpent >= seed.policy.maxCost, CostLimit)
  }

  function Capped(h: Digests, seed: Seed, st: State): State {
    if EligibilityReasons(h, seed, st) == [] then st
    else st.(terminal := Dedupe(st.terminal + CapacityReasons(h, seed, st)))
  }

  // Settlement.

  /** What a completion amounts to: rejected before its report is trusted, rejected
      although every binding holds, or credited as a review or a repair. */
  datatype Judgement =
    | Rejected(reason: Reason)
    | RejectedBound(reason: Reason, report: ReviewReport)
    | Reviewed(report: ReviewReport)
    | Repaired(repair: RepairReport)
  {
    predicate Credited() {
      Reviewed? || Repaired?
    }
  }

  function RaisedReason(d: Denial): Reason {
    match d
    case Violation(reason) => reason
    case ValueError => MalformedReport
  }

  function JudgeReview(h: Digests, seed: Seed, st: State, inv: Invocation, output: Option<Output>): Judgement {
    if output.None? || ParseReview(output.value).None? then Rejected(MalformedReport)
    else
      var r := ParseReview(output.value).value;
      var unbound := ReportBindingFault(h, seed, st, inv, r);
      if unbound.Some? then Rejected(RaisedReason(unbound.value))
      else
        var incomplete := ReportFault(seed, st, r);
        if incomplete.Some? then RejectedBound(RaisedReason(incomplete.value), r)
        else
          var reconciled := ReconcileFindings(h, seed, st, r);
          if reconciled.Err? then RejectedBound(RaisedReason(reconciled.error), r) else Reviewed(r)
  }

  function JudgeRepair(h: Digests, seed: Seed, st: State, inv: Invocation, output: Option<Output>): Judgement {
    if output.None? || ParseRepair(output.value).None? then Rejected(MalformedReport)
    else
      var r := ParseRepair(output.value).value;
      var resolved := ReconcileRepair(h, seed, st, inv, r);
      if resolved.Err? then Rejected(RaisedReason(resolved.error)) else Repaired(r)
  }

  predicate InTime(seed: Seed, st: State, inv: Invocation, c: Completion) {
    && WithinWindow(seed, st, c.finishedAt)
    && 0 <= c.finishedAt - inv.startedAt < inv.reservation.seconds * TICKS_PER_SECOND
  }

  function Judge(h: Digests, seed: Seed, st: State, inv: Invocation, c: Completion): Judgement {
    if c.stop.Some? then Rejected(StopReason(c.stop.value))
    else if !InTime(seed, st, inv, c) then Rejected(TimeWindow)
    else
      var fault := AccountFault(h, st.executionIds, inv, c);
      var accounted := Accounted(h, st, inv, c);
      if fault.Some? then Rejected(fault.value)
      else if inv.kind == Review then JudgeReview(h, seed, accounted, inv, c.output)
      else JudgeRepair(h, seed, accounted, inv, c.output)
  }

  function Apply(h: Digests, seed: Seed, st: State, inv: Invocation, j: Judgement): State {
    match j
    case Rejected(reason) => Failed(seed, st, reason)
    case RejectedBound(reason, r) => Failed(seed, RetainStops(h, seed, st, r), reason)
    case Reviewed(r) =>
      st.(findings := Reconciliation(h, seed, st, r), terminal := ReviewTerminal(h, seed, st, r),
          failures := map[], reports := st.reports + [r])
    case Repaired(r) =>
      st.(artifact := r.artifact, failures := map[],
          resolutions := st.resolutions + ResolutionRecords(h, inv, r, r.resolutions))
  }

  function Settled(h: Digests, seed: Seed, st: State, inv: Invocation, c: Completion): State {
    Capped(h, seed, Apply(h, seed, Accounted(h, st, inv, c), inv, Judge(h, seed, st, inv, c)))
  }

  function Complete(h: Digests, seed: Seed, st: State, c: Completion): Outcome<State> {
    if st.pending.None? then Err(Violation(PendingCall))
    else if c.invocationId != st.pending.value.id then Err(Violation(BindingMismatch))
    else Ok(Settled(h, seed, st, st.pending.value, c))
  }
}
