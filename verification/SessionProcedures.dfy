/** The reducer and session entry points as they run: lists and dictionaries updated step by
    step, one pass over the ledger. Each is proved equal to the function the theorems use. */
module SessionProcedures {
  import opened Basics
  import opened Domain
  import opened Rules
  import opened Findings
  import opened FindingProcedures
  import opened Reducer
  import opened Ledger

  method CollectLatestReasons(h: Digests, seed: Seed, st: State) returns (reasons: seq<Reason>)
    ensures reasons == LatestReasons(h, seed, st)
  {
    if st.reports == [] {
      return [UnreviewedArtifact];
    }
    var latest := st.reports[|st.reports| - 1];
    reasons := [];
    if latest.binding != BindingOf(h, st.artifact) {
      reasons := reasons + [UnreviewedArtifact];
    }
    if latest.verdict != Accept || !MandatoryPassed(seed, latest) {
      reasons := reasons + [MandatoryCriteria];
    }
  }

  method CollectEligibilityReasons(h: Digests, seed: Seed, st: State) returns (reasons: seq<Reason>)
    ensures reasons == EligibilityReasons(h, seed, st)
  {
    var exits := [];
    if st.pending.Some? {
      exits := exits + [PendingCall];
    }
    if |st.reports| < seed.policy.minReviews {
      exits := exits + [MinReviews];
    }
    if HasOpenBlocker(st) {
      exits := exits + [OpenBlockers];
    }
    var latest := CollectLatestReasons(h, seed, st);
    assert exits + latest == ExitReasons(h, seed, st);
    return Dedupe(st.terminal + (exits + latest));
  }

  method RecordFailure(seed: Seed, st: State, reason: Reason) returns (failed: State)
    ensures failed == Failed(seed, st, reason)
  {
    var counts := st.failures;
    counts := counts[reason := (if reason in counts then counts[reason] else 0) + 1];
    var terminal := st.terminal;
    if reason in FATAL {
      terminal := terminal + [reason];
    }
    if counts[reason] >= seed.policy.sameFailureLimit {
      terminal := terminal + [RepeatedFailure];
    }
    assert terminal == st.terminal + When(reason in FATAL, reason)
                       + When(FailureCount(st, reason) >= seed.policy.sameFailureLimit, RepeatedFailure);
    return st.(failures := counts, terminal := Dedupe(terminal));
  }

  /** The reasons of the exhausted entries, in order. */
  function Exhausted(limits: seq<(bool, Reason)>): seq<Reason> {
    if limits == [] then []
    else Exhausted(limits[..|limits| - 1]) + When(limits[|limits| - 1].0, limits[|limits| - 1].1)
  }

  function CapacityLimits(h: Digests, seed: Seed, st: State): seq<(bool, Reason)> {
    [(NeedsRepair(h, st) && st.budget.repairs >= seed.policy.maxRepairs, RepairLimit),
     (|st.reports| >= seed.policy.maxReviews, ReviewLimit),
     (st.budget.invocations >= seed.policy.maxInvocations, InvocationLimit),
     (st.budget.tokensSpent >= seed.policy.maxTokens, TokenLimit),
     (st.budget.costSpent >= seed.policy.maxCost, CostLimit)]
  }

  lemma ExhaustedFive(a: (bool, Reason), b: (bool, Reason), c: (bool, Reason), d: (bool, Reason), e: (bool, Reason))
    ensures Exhausted([a, b, c, d, e])
         == When(a.0, a.1) + When(b.0, b.1) + When(c.0, c.1) + When(d.0, d.1) + When(e.0, e.1)
  {
    assert [a, b, c, d, e][..4] == [a, b, c, d];
    assert [a, b, c, d][..3] == [a, b, c];
    assert [a, b, c][..2] == [a, b];
    assert [a, b][..1] == [a];
    assert [a][..0] == [];
    assert Exhausted([a]) == When(a.0, a.1);
    assert Exhausted([a, b]) == When(a.0, a.1) + When(b.0, b.1);
    assert Exhausted([a, b, c]) == When(a.0, a.1) + When(b.0, b.1) + When(c.0, c.1);
  }

  method ApplyCapacity(h: Digests, seed: Seed, st: State) returns (capped: State)
    ensures capped == Capped(h, seed, st)
  {
    var missing := CollectEligibilityReasons(h, seed, st);
    if missing == [] {
      return st;
    }
    var limits := CapacityLimits(h, seed, st);
    var reasons := CollectExhausted(limits);
    ExhaustedFive(limits[0], limits[1], limits[2], limits[3], limits[4]);
    return st.(terminal := Dedupe(st.terminal + reasons));
  }

  method CollectExhausted(limits: seq<(bool, Reason)>) returns (reasons: seq<Reason>)
    ensures reasons == Exhausted(limits)
  {
    reasons := [];
    for i := 0 to |limits|
      invariant reasons == Exhausted(limits[..i])
    {
      if limits[i].0 {
        reasons := reasons + [limits[i].1];
      }
      assert limits[..i + 1][..i] == limits[..i];
    }
    assert limits[..|limits|] == limits;
  }

  /** The review branch of a settlement: its bound stops are kept before its content is judged. */
  method SettleReview(h: Digests, seed: Seed, st: State, inv: Invocation, output: Option<Output>)
    returns (updated: State)
    ensures updated == Apply(h, seed, st, inv, JudgeReview(h, seed, st, inv, output))
  {
    if output.None? || ParseReview(output.value).None? {
      updated := RecordFailure(seed, st, MalformedReport);
      return;
    }
    var report := ParseReview(output.value).value;
    var unbound := CheckReportBinding(h, seed, st, inv, report);
    if unbound.Some? {
      updated := RecordFailure(seed, st, RaisedReason(unbound.value));
      return;
    }
    var rejected := RetainBoundStops(h, seed, st, report);
    var fault := CheckReport(seed, st, report);
    if fault.Some? {
      updated := RecordFailure(seed, rejected, RaisedReason(fault.value));
      return;
    }
    var reconciled := ReconcileReport(h, seed, st, report);
    if reconciled.Err? {
      updated := RecordFailure(seed, rejected, RaisedReason(reconciled.error));
      return;
    }
    updated := st.(findings := reconciled.value.0, terminal := reconciled.value.1, failures := map[],
                   reports := st.reports + [report]);
  }

  method SettleRepair(h: Digests, seed: Seed, st: State, inv: Invocation, output: Option<Output>)
    returns (updated: State)
    ensures updated == Apply(h, seed, st, inv, JudgeRepair(h, seed, st, inv, output))
  {
    if output.None? || ParseRepair(output.value).None? {
      updated := RecordFailure(seed, st, MalformedReport);
      return;
    }
    var repair := ParseRepair(output.value).value;
    var resolutions := ReconcileRepairReport(h, seed, st, inv, repair);
    if resolutions.Err? {
      updated := RecordFailure(seed, st, RaisedReason(resolutions.error));
      return;
    }
    updated := st.(artifact := repair.artifact, failures := map[],
                   resolutions := st.resolutions + resolutions.value);
  }

  /** A whole settlement: account, then time, then a runtime stop, then the report, then capacity. */
  method CompleteAttempt(h: Digests, seed: Seed, st: State, c: Completion) returns (r: Outcome<State>)
    ensures r == Complete(h, seed, st, c)
  {
    if st.pending.None? {
      return Err(Violation(PendingCall));
    }
    var inv := st.pending.value;
    if c.invocationId != inv.id {
      return Err(Violation(BindingMismatch));
    }
    var accounted := Accounted(h, st, inv, c);
    var reason := AccountFault(h, st.executionIds, inv, c);
    if !InTime(seed, st, inv, c) {
      reason := Some(TimeWindow);
    }
    var updated: State;
    if c.stop.Some? {
      updated := RecordFailure(seed, accounted, StopReason(c.stop.value));
    } else if reason.Some? {
      updated := RecordFailure(seed, accounted, reason.value);
    } else if inv.kind == Review {
      updated := SettleReview(h, seed, accounted, inv, c.output);
    } else {
      updated := SettleRepair(h, seed, accounted, inv, c.output);
    }
    updated := ApplyCapacity(h, seed, updated);
    return Ok(updated);
  }

  lemma {:induction false} ReplayStops(h: Digests, seed: Seed, attempts: seq<Attempt>, k: nat)
    requires k <= |attempts| && Replayed(h, seed, attempts[..k]).Err?
    ensures Replayed(h, seed, attempts) == Replayed(h, seed, attempts[..k])
  {
    if k == |attempts| {
      assert attempts[..k] == attempts;
    } else {
      var before := attempts[..|attempts| - 1];
      assert before[..k] == attempts[..k];
      ReplayStops(h, seed, before, k);
    }
  }

  lemma ReplayedNext(h: Digests, seed: Seed, attempts: seq<Attempt>, i: nat, st: State)
    requires i < |attempts| && Replayed(h, seed, attempts[..i]) == Ok(st)
    ensures Replayed(h, seed, attempts[..i + 1]) == Step(h, seed, st, attempts[i])
  {
    assert attempts[..i + 1][..i] == attempts[..i];
  }

  method RunAttempt(h: Digests, seed: Seed, st: State, a: Attempt) returns (r: Outcome<State>)
    ensures r == Step(h, seed, st, a)
  {
    r := Reserve(h, seed, st, a.invocation);
    if r.Ok? && a.completion.Some? {
      r := CompleteAttempt(h, seed, r.value, a.completion.value);
    }
  }

  /** The replay: a ledger step that is denied denies the session with the same error. */
  method ReplaySession(h: Digests, s: Session) returns (r: Outcome<State>)
    ensures r == Replayed(h, s.seed, s.attempts)
  {
    var fault := CheckSeed(h, s.seed);
    r := InitialState(h, s.seed);
    if fault.Some? {
      ReplayStops(h, s.seed, s.attempts, 0);
      return;
    }
    for i := 0 to |s.attempts|
      invariant r.Ok? && r == Replayed(h, s.seed, s.attempts[..i])
    {
      ReplayedNext(h, s.seed, s.attempts, i, r.value);
      r := RunAttempt(h, s.seed, r.value, s.attempts[i]);
      if r.Err? {
        ReplayStops(h, s.seed, s.attempts, i + 1);
        return;
      }
    }
    assert s.attempts[..|s.attempts|] == s.attempts;
  }

  method ValidateSession(h: Digests, s: Session) returns (ok: bool)
    ensures ok <==> ValidSession(h, s)
  {
    var expected := ReplaySession(h, s);
    ok := expected == Ok(s.state);
  }

  method EvaluateSession(h: Digests, s: Session, current: Artifact, now: Moment) returns (r: Outcome<Decision>)
    ensures r == Evaluate(h, s, current, now)
  {
    var valid := ValidateSession(h, s);
    if !valid {
      return Err(ValueError);
    }
    var reasons := CollectEligibilityReasons(h, s.seed, s.state);
    if current != s.state.artifact {
      reasons := reasons + [ArtifactDrift];
    }
    if !WithinWindow(s.seed, s.state, now) {
      reasons := reasons + [TimeWindow];
    }
    assert reasons == DecisionReasons(h, s, current, now);
    return Ok(Decision(StatusOf(h, s, reasons), Dedupe(reasons), h.session(s), h.artifact(s.state.artifact),
                       |s.state.reports|));
  }
}
