/** Eligibility soundness: what an ELIGIBLE decision proves about the ledger behind it. */
module Eligibility {
  import opened Basics
  import opened Domain
  import opened Rules
  import opened Findings
  import opened Reducer
  import opened Ledger
  import opened Invariants
  import opened Runs
  import opened Accounting

  /** The attempts that were credited as reviews, in order. */
  function CreditedReviews(js: seq<Option<Judgement>>): seq<nat> {
    if js == [] then []
    else CreditedReviews(js[..|js| - 1]) + (if IsReviewed(js[|js| - 1]) then [|js| - 1] else [])
  }

  /** One fresh, uncached execution of its own call by the reviewer who signed the report. */
  predicate GenuineExecution(h: Digests, attempts: seq<Attempt>, k: nat, r: ReviewReport) {
    && k < |attempts|
    && TrustedReceipt(h, attempts[..k], attempts[k])
    && attempts[k].invocation.kind == Review
    && ReceiptOf(attempts[k]).actualModel == r.reviewer
    && ReceiptOf(attempts[k]).binding == r.binding
    && ReceiptOf(attempts[k]).invocationId == r.invocationId
    && attempts[k].completion.value.output.Some?
    && ParseReview(attempts[k].completion.value.output.value) == Some(r)
  }

  lemma ReviewedFacts(h: Digests, seed: Seed, st: State, inv: Invocation, c: Completion)
    requires Judge(h, seed, st, inv, c).Reviewed?
    ensures var r := Judge(h, seed, st, inv, c).report;
            && inv.kind == Review && ReceiptFault(h, st.executionIds, inv, c).None?
            && c.output.Some? && ParseReview(c.output.value) == Some(r)
            && r.invocationId == inv.id && r.binding == inv.binding && r.reviewer == inv.actor
  {
    var r := Judge(h, seed, st, inv, c).report;
    JudgedFacts(h, seed, st, inv, c, Reviewed(r));
    BoundReport(h, seed, Accounted(h, st, inv, c), inv, r);
    ReviewedDelivery(h, seed, st, inv, c, r);
  }

  lemma ReviewedDelivery(h: Digests, seed: Seed, st: State, inv: Invocation, c: Completion, r: ReviewReport)
    requires Judge(h, seed, st, inv, c) == Reviewed(r)
    ensures inv.kind == Review && ReceiptFault(h, st.executionIds, inv, c).None?
    ensures c.output.Some? && ParseReview(c.output.value) == Some(r)
  {
  }

  lemma BoundReport(h: Digests, seed: Seed, st: State, inv: Invocation, r: ReviewReport)
    requires ReportBindingFault(h, seed, st, inv, r).None?
    ensures r.invocationId == inv.id && r.binding == inv.binding && r.reviewer == inv.actor
  {
  }

  lemma StepReports(h: Digests, seed: Seed, st: State, a: Attempt, t: State)
    requires Step(h, seed, st, a) == Ok(t)
    ensures var j := StepJudgement(h, seed, st, a);
            t.reports == (if IsReviewed(j) then st.reports + [j.value.report] else st.reports)
  {
    if a.completion.Some? {
      var held, c := Held(st, a.invocation), a.completion.value;
      StepSettles(h, seed, st, a, t);
      SettledFacts(h, seed, held, a.invocation, c, Judge(h, seed, held, a.invocation, c));
    }
  }

  /** How the report list moves with the entry at `n`. */
  lemma StepReport(h: Digests, seed: Seed, attempts: seq<Attempt>, n: nat, st: State, t: State)
    requires n < |attempts|
    requires Step(h, seed, st, attempts[n]) == Ok(t) && ExecutionsKept(h, attempts[..n], st)
    ensures var j := StepJudgement(h, seed, st, attempts[n]);
            && t.reports == (if IsReviewed(j) then st.reports + [j.value.report] else st.reports)
            && (IsReviewed(j) ==> GenuineExecution(h, attempts, n, j.value.report))
  {
    var a := attempts[n];
    StepReports(h, seed, st, a, t);
    if IsReviewed(StepJudgement(h, seed, st, a)) {
      ReviewedFacts(h, seed, Held(st, a.invocation), a.invocation, a.completion.value);
      ChargeAgrees(h, attempts[..n], st.executionIds, a.invocation, a.completion.value);
    }
  }

  lemma GenuinePrefix(h: Digests, attempts: seq<Attempt>, n: nat, k: nat, r: ReviewReport)
    requires n <= |attempts| && GenuineExecution(h, attempts[..n], k, r)
    ensures GenuineExecution(h, attempts, k, r)
  {
    assert attempts[..n][..k] == attempts[..k];
  }

  predicate AllGenuine(h: Digests, attempts: seq<Attempt>, idx: seq<nat>, reports: seq<ReviewReport>) {
    && |idx| == |reports|
    && (forall i :: 0 <= i < |idx| ==> GenuineExecution(h, attempts, idx[i], reports[i]))
    && (forall i, j :: 0 <= i < j < |idx| ==> idx[i] < idx[j])
  }

  lemma GenuineSnoc(h: Digests, attempts: seq<Attempt>, idx: seq<nat>, reports: seq<ReviewReport>)
    requires attempts != []
    requires AllGenuine(h, attempts[..|attempts| - 1], idx, reports)
    ensures AllGenuine(h, attempts, idx, reports)
    ensures forall i :: 0 <= i < |idx| ==> idx[i] < |attempts| - 1
  {
    forall i | 0 <= i < |idx| ensures GenuineExecution(h, attempts, idx[i], reports[i]) {
      GenuinePrefix(h, attempts, |attempts| - 1, idx[i], reports[i]);
    }
  }

  /** The reports in the state are exactly the genuine reports of the credited attempts. */
  lemma {:induction false} CreditsAgree(h: Digests, seed: Seed, attempts: seq<Attempt>)
    requires ValidLedger(h, seed, attempts)
    ensures AllGenuine(h, attempts, CreditedReviews(Judgements(h, seed, attempts)), StateOf(h, seed, attempts).reports)
  {
    if attempts != [] {
      var n := |attempts| - 1;
      var before := attempts[..n];
      StepAt(h, seed, attempts, n);
      assert attempts[..n + 1] == attempts;
      CreditsAgree(h, seed, before);
      LedgerExecutions(h, seed, before);
      StepGenuine(h, seed, attempts, StateOf(h, seed, before), StateOf(h, seed, attempts), Judgements(h, seed, before));
    }
  }

  lemma StepGenuine(h: Digests, seed: Seed, attempts: seq<Attempt>, st: State, t: State, js: seq<Option<Judgement>>)
    requires attempts != [] && |js| == |attempts| - 1
    requires Step(h, seed, st, attempts[|js|]) == Ok(t) && ExecutionsKept(h, attempts[..|js|], st)
    requires AllGenuine(h, attempts[..|js|], CreditedReviews(js), st.reports)
    ensures AllGenuine(h, attempts, CreditedReviews(js + [StepJudgement(h, seed, st, attempts[|js|])]), t.reports)
  {
    StepReport(h, seed, attempts, |js|, st, t);
    CreditSnoc(h, attempts, js, StepJudgement(h, seed, st, attempts[|js|]), st.reports, t.reports);
  }

  lemma CreditSnoc(h: Digests, attempts: seq<Attempt>, js: seq<Option<Judgement>>, j: Option<Judgement>,
                   reports: seq<ReviewReport>, after: seq<ReviewReport>)
    requires attempts != [] && |js| == |attempts| - 1
    requires AllGenuine(h, attempts[..|attempts| - 1], CreditedReviews(js), reports)
    requires after == if IsReviewed(j) then reports + [j.value.report] else reports
    requires IsReviewed(j) ==> GenuineExecution(h, attempts, |attempts| - 1, j.value.report)
    ensures AllGenuine(h, attempts, CreditedReviews(js + [j]), after)
  {
    CreditedSnoc(js, j);
    GenuineSnoc(h, attempts, CreditedReviews(js), reports);
    if IsReviewed(j) {
      GenuineMore(h, attempts, CreditedReviews(js), reports, |attempts| - 1, j.value.report);
    }
  }

  lemma CreditedSnoc(js: seq<Option<Judgement>>, j: Option<Judgement>)
    ensures CreditedReviews(js + [j]) == CreditedReviews(js) + if IsReviewed(j) then [|js|] else []
  {
    assert (js + [j])[..|js|] == js;
  }

  lemma GenuineMore(h: Digests, attempts: seq<Attempt>, idx: seq<nat>, reports: seq<ReviewReport>, k: nat,
                    r: ReviewReport)
    requires AllGenuine(h, attempts, idx, reports) && GenuineExecution(h, attempts, k, r)
    requires forall i :: 0 <= i < |idx| ==> idx[i] < k
    ensures AllGenuine(h, attempts, idx + [k], reports + [r])
  {
    var more, after := idx + [k], reports + [r];
    forall i | 0 <= i < |more| ensures GenuineExecution(h, attempts, more[i], after[i]) {
    }
  }

  function Execution(a: Attempt): (Identifier, Identifier)
    requires HasReceipt(a)
  {
    (ReceiptOf(a).actualModel.provider, ReceiptOf(a).executionId)
  }

  /** Different genuine executions come from different provider executions. */
  lemma ExecutionsDiffer(h: Digests, attempts: seq<Attempt>, i: nat, j: nat)
    requires i < j < |attempts|
    requires HasReceipt(attempts[i]) && TrustedReceipt(h, attempts[..j], attempts[j])
    ensures Execution(attempts[i]) != Execution(attempts[j])
  {
    assert attempts[..j][i] == attempts[i];
  }

  predicate DistinctExecutions(attempts: seq<Attempt>, idx: seq<nat>) {
    && (forall i :: 0 <= i < |idx| ==> idx[i] < |attempts| && HasReceipt(attempts[idx[i]]))
    && (forall i, j :: 0 <= i < j < |idx| ==> Execution(attempts[idx[i]]) != Execution(attempts[idx[j]]))
  }

  lemma GenuineDistinct(h: Digests, attempts: seq<Attempt>, idx: seq<nat>, reports: seq<ReviewReport>)
    requires AllGenuine(h, attempts, idx, reports)
    ensures DistinctExecutions(attempts, idx)
  {
    forall i, j | 0 <= i < j < |idx| ensures Execution(attempts[idx[i]]) != Execution(attempts[idx[j]]) {
      ExecutionsDiffer(h, attempts, idx[i], idx[j]);
    }
  }

  lemma FindDistinct(criteria: seq<Criterion>, c: Criterion)
    requires forall i, j :: 0 <= i < j < |criteria| ==> criteria[i].id != criteria[j].id
    requires c in criteria
    ensures FindCriterion(criteria, c.id) == Some(c)
  {
    var found := FindCriterion(criteria, c.id).value;
    var i :| 0 <= i < |criteria| && criteria[i] == c;
    var j :| 0 <= j < |criteria| && criteria[j] == found;
    assert criteria[i].id == criteria[j].id;
  }

  /** A PASS that lists every required evidence, all of it observed on the artifact. */
  predicate PassedWithEvidence(artifactDigest: Digest, r: ReviewReport, c: Criterion) {
    exists item :: item in r.criteria && item.criterion == c.id && item.status == Pass
                && (forall id :: id in c.requiredEvidence ==> exists e :: e in item.evidence && e.id == id)
                && (forall e :: e in item.evidence ==> e.artifactDigest == artifactDigest)
  }

  lemma WorthyPasses(h: Digests, seed: Seed, r: ReviewReport, c: Criterion)
    requires WellFormedContract(seed.contract)
    requires CreditWorthy(h, seed, r) && MandatoryPassed(seed, r)
    requires c in seed.contract.criteria && c.mandatory
    ensures PassedWithEvidence(r.binding.artifactDigest, r, c)
  {
    FindDistinct(seed.contract.criteria, c);
    var item :| item in r.criteria && item.criterion == c.id;
    assert Mandatory(seed, item.criterion);
    assert ItemFault(seed, r, item).None?;
  }

  predicate AcceptedAsRequired(h: Digests, seed: Seed, artifact: Artifact, latest: ReviewReport) {
    && latest.binding == Binding(artifact.scope, h.artifact(artifact), artifact.contractDigest, artifact.contextDigest)
    && latest.verdict == Accept
    && (forall c :: c in seed.contract.criteria && c.mandatory ==>
          PassedWithEvidence(h.artifact(artifact), latest, c))
  }

  lemma LatestAsRequired(h: Digests, seed: Seed, st: State, artifact: Artifact, latest: ReviewReport)
    requires WellFormedContract(seed.contract) && ReportsWorthy(h, seed, st) && LatestAccepts(h, seed, st)
    requires st.artifact == artifact && st.reports[|st.reports| - 1] == latest
    ensures AcceptedAsRequired(h, seed, artifact, latest)
  {
    assert latest in st.reports;
    forall c | c in seed.contract.criteria && c.mandatory
      ensures PassedWithEvidence(latest.binding.artifactDigest, latest, c)
    {
      WorthyPasses(h, seed, latest, c);
    }
  }

  lemma ReviewersIndependent(h: Digests, seed: Seed, attempts: seq<Attempt>)
    requires ValidLedger(h, seed, attempts)
    ensures var st := StateOf(h, seed, attempts);
            forall r :: r in st.reports ==> Independent(seed, st.artifact.producers, r.reviewer)
  {
    LedgerReports(h, seed, attempts);
  }

  lemma ReviewsBehind(h: Digests, seed: Seed, attempts: seq<Attempt>)
    requires ValidLedger(h, seed, attempts)
    ensures var st, idx := StateOf(h, seed, attempts), CreditedReviews(Judgements(h, seed, attempts));
            && AllGenuine(h, attempts, idx, st.reports)
            && DistinctExecutions(attempts, idx)
            && (forall r :: r in st.reports ==> Independent(seed, st.artifact.producers, r.reviewer))
  {
    CreditsAgree(h, seed, attempts);
    GenuineDistinct(h, attempts, CreditedReviews(Judgements(h, seed, attempts)), StateOf(h, seed, attempts).reports);
    ReviewersIndependent(h, seed, attempts);
  }

  /** At least `minimum` completed reviews, each a distinct uncached provider execution by a
      reviewer independent of every producer of the artifact. */
  predicate ReviewedEnough(h: Digests, seed: Seed, attempts: seq<Attempt>, st: State, minimum: nat) {
    && ValidLedger(h, seed, attempts)
    && var idx := CreditedReviews(Judgements(h, seed, attempts));
       && |idx| >= minimum
       && AllGenuine(h, attempts, idx, st.reports)
       && DistinctExecutions(attempts, idx)
       && (forall r, p :: r in st.reports && p in st.artifact.producers ==> Apart(seed, p, r.reviewer))
  }

  /** Two identities of which neither is the other's model, nor of its family where that matters. */
  predicate Apart(seed: Seed, producer: Model, reviewer: Model) {
    && producer.role == Producer && reviewer.role == Reviewer
    && reviewer.canonical != producer.canonical
    && reviewer.model != producer.model
    && (seed.contract.riskTier == T2 || seed.policy.requireDifferentFamily ==> reviewer.family != producer.family)
    && producer.family.Some? && producer.qualification.Some? && producer.capabilities != []
    && reviewer.family.Some? && reviewer.qualification.Some? && reviewer.capabilities != []
  }

  lemma IndependentApart(seed: Seed, producers: seq<Model>, reviewer: Model)
    requires Independent(seed, producers, reviewer)
    ensures forall p :: p in producers ==> Apart(seed, p, reviewer)
  {
  }

  lemma EligibleReviews(h: Digests, seed: Seed, attempts: seq<Attempt>)
    requires ValidLedger(h, seed, attempts)
    requires |StateOf(h, seed, attempts).reports| >= seed.policy.minReviews
    ensures ReviewedEnough(h, seed, attempts, StateOf(h, seed, attempts), seed.policy.minReviews)
  {
    ReviewsBehind(h, seed, attempts);
    var st := StateOf(h, seed, attempts);
    forall r, p | r in st.reports && p in st.artifact.producers ensures Apart(seed, p, r.reviewer) {
      IndependentApart(seed, st.artifact.producers, r.reviewer);
    }
  }

  /** ELIGIBLE means: enough genuine independent reviews; the latest one accepts exactly this
      artifact and passes every mandatory criterion with its required evidence bound to the
      artifact; nothing blocking is open, nothing is pending, and the unit is in time. */
  lemma EligibilitySound(h: Digests, s: Session, current: Artifact, now: Moment)
    requires Evaluate(h, s, current, now).Ok?
    requires Evaluate(h, s, current, now).value.status == EligibleStatus
    ensures s.state.artifact == current
    ensures s.state.lastAt <= now && s.seed.startedAt <= now
            && now < s.seed.startedAt + s.seed.policy.maxSeconds * TICKS_PER_SECOND
    ensures s.state.terminal == [] && s.state.pending.None?
    ensures forall fp :: fp in s.state.findings ==>
              s.state.findings[fp].closedBy.Some? || !s.state.findings[fp].blocking
    ensures ReviewedEnough(h, s.seed, s.attempts, s.state, s.seed.policy.minReviews)
    ensures s.state.reports != []
            && AcceptedAsRequired(h, s.seed, s.state.artifact, s.state.reports[|s.state.reports| - 1])
  {
    DecisionEligible(h, s, current, now);
    EligibleReviews(h, s.seed, s.attempts);
    EligibleLatest(h, s);
  }

  lemma EligibleLatest(h: Digests, s: Session)
    requires ValidSession(h, s) && LatestAccepts(h, s.seed, s.state)
    ensures AcceptedAsRequired(h, s.seed, s.state.artifact, s.state.reports[|s.state.reports| - 1])
  {
    LedgerSeed(h, s.seed, s.attempts);
    LedgerReports(h, s.seed, s.attempts);
    LatestAsRequired(h, s.seed, s.state, s.state.artifact, s.state.reports[|s.state.reports| - 1]);
  }

  /** The decision is ELIGIBLE exactly when the replayed state is, on the observed artifact, in time. */
  lemma DecisionEligible(h: Digests, s: Session, current: Artifact, now: Moment)
    requires Evaluate(h, s, current, now).Ok?
    ensures Evaluate(h, s, current, now).value.status == EligibleStatus
            <==> Eligible(h, s.seed, s.state) && current == s.state.artifact && WithinWindow(s.seed, s.state, now)
  {
    EligibleIff(h, s.seed, s.state);
    var reasons := DecisionReasons(h, s, current, now);
    assert |reasons| == |EligibilityReasons(h, s.seed, s.state)|
                        + |When(current != s.state.artifact, ArtifactDrift)|
                        + |When(!WithinWindow(s.seed, s.state, now), TimeWindow)|;
  }
}
