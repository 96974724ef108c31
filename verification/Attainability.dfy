/** Eligibility can be reached: every admissible seed whose invocation cap leaves room for the
    minimum number of reviews has a run that ends ELIGIBLE, and no other seed has one. */
module Attainability {
  import opened Basics
  import opened Domain
  import opened Rules
  import opened Findings
  import opened Reducer
  import opened Ledger
  import opened Invariants
  import opened Runs
  import opened Accounting
  import opened Eligibility

  /** What the deliveries of the run are made of: one identifier and one execution per review. */
  datatype Script = Script(ids: seq<Identifier>, executions: seq<Identifier>, digest: Digest, prose: Text)

  function EvidenceFor(s: Script, ids: seq<Identifier>, artifactDigest: Digest): seq<Evidence> {
    seq(|ids|, i requires 0 <= i < |ids| => Evidence(ids[i], s.digest, artifactDigest, s.prose))
  }

  function Passing(s: Script, c: Criterion, artifactDigest: Digest): CriterionResult {
    CriterionResult(c.id, Pass, EvidenceFor(s, Dedupe(c.requiredEvidence), artifactDigest))
  }

  function Dispositions(s: Script, criteria: seq<Criterion>, artifactDigest: Digest): seq<CriterionResult> {
    seq(|criteria|, i requires 0 <= i < |criteria| => Passing(s, criteria[i], artifactDigest))
  }

  function Acceptance(h: Digests, seed: Seed, s: Script, id: Identifier): ReviewReport
    requires seed.reviewers != []
  {
    ReviewReport(id, BindingOf(h, seed.initialArtifact), seed.reviewers[0], true,
                 Dispositions(s, seed.contract.criteria, h.artifact(seed.initialArtifact)), [], [], Accept, s.prose)
  }

  function Call(h: Digests, seed: Seed, id: Identifier): Invocation
    requires seed.reviewers != []
  {
    Invocation(id, Review, BindingOf(h, seed.initialArtifact), seed.reviewers[0], Reservation(1, 0, 1), seed.startedAt)
  }

  function Delivery(h: Digests, seed: Seed, s: Script, id: Identifier, execution: Identifier): Completion
    requires seed.reviewers != []
  {
    Completion(id, seed.startedAt,
               Some(Receipt(BindingOf(h, seed.initialArtifact), id, execution, seed.reviewers[0], Usage(0, 0), false)),
               Some(ReviewText(s.prose, Acceptance(h, seed, s, id))), None)
  }

  predicate Usable(h: Digests, seed: Seed, s: Script) {
    && SeedFault(h, seed).None?
    && |s.ids| == |s.executions| && Distinct(s.ids)
    && seed.reviewers != []
    && forall i, j :: 0 <= i < j < |s.executions| ==> KeyOf(h, seed, s, i) != KeyOf(h, seed, s, j)
  }

  function KeyOf(h: Digests, seed: Seed, s: Script, i: nat): Digest
    requires seed.reviewers != [] && i < |s.executions|
  {
    h.execution(seed.reviewers[0].provider, s.executions[i])
  }

  function Entry(h: Digests, seed: Seed, s: Script, i: nat): Attempt
    requires seed.reviewers != [] && i < |s.ids| && i < |s.executions|
  {
    Attempt(Call(h, seed, s.ids[i]), Some(Delivery(h, seed, s, s.ids[i], s.executions[i])))
  }

  /** The first `k` reviews of the script. */
  function Reviews(h: Digests, seed: Seed, s: Script, k: nat): seq<Attempt>
    requires seed.reviewers != [] && k <= |s.ids| && k <= |s.executions|
  {
    seq(k, i requires 0 <= i < k => Entry(h, seed, s, i))
  }

  // The acceptance report is credited.

  lemma DispositionsWellFormed(s: Script, criteria: seq<Criterion>, artifactDigest: Digest)
    ensures forall c :: c in Dispositions(s, criteria, artifactDigest) ==>
              forall i, j :: 0 <= i < j < |c.evidence| ==> c.evidence[i].id != c.evidence[j].id
  {
    var items := Dispositions(s, criteria, artifactDigest);
    forall c | c in items ensures forall i, j :: 0 <= i < j < |c.evidence| ==> c.evidence[i].id != c.evidence[j].id {
      var k :| 0 <= k < |items| && items[k] == c;
      assert Distinct(Dedupe(criteria[k].requiredEvidence));
    }
  }

  lemma DispositionsPass(s: Script, criteria: seq<Criterion>, artifactDigest: Digest)
    ensures forall c :: c in Dispositions(s, criteria, artifactDigest) ==> c.status == Pass
  {
    var items := Dispositions(s, criteria, artifactDigest);
    forall c | c in items ensures c.status == Pass {
      var k :| 0 <= k < |items| && items[k] == c;
    }
  }

  lemma AcceptanceWellFormed(h: Digests, seed: Seed, s: Script, id: Identifier)
    requires seed.reviewers != []
    ensures WellFormedReport(Acceptance(h, seed, s, id))
  {
    DispositionsWellFormed(s, seed.contract.criteria, h.artifact(seed.initialArtifact));
  }

  lemma PassingComplete(s: Script, c: Criterion, artifactDigest: Digest)
    ensures HasRequiredEvidence(c, Passing(s, c, artifactDigest))
    ensures EvidenceBound(Passing(s, c, artifactDigest).evidence, artifactDigest)
  {
    var ids, item := Dedupe(c.requiredEvidence), Passing(s, c, artifactDigest);
    forall id | id in c.requiredEvidence ensures exists e :: e in item.evidence && e.id == id {
      var i :| 0 <= i < |ids| && ids[i] == id;
      assert item.evidence[i] in item.evidence;
    }
  }

  lemma AcceptanceBinds(h: Digests, seed: Seed, s: Script, id: Identifier, st: State)
    requires Usable(h, seed, s) && st.artifact == seed.initialArtifact
    ensures ReportBindingFault(h, seed, st, Call(h, seed, id), Acceptance(h, seed, s, id)).None?
  {
    var r := Acceptance(h, seed, s, id);
    assert seed.reviewers[0] in seed.reviewers;
    forall c | c in r.criteria ensures EvidenceBound(c.evidence, r.binding.artifactDigest) {
      var k :| 0 <= k < |r.criteria| && r.criteria[k] == c;
      PassingComplete(s, seed.contract.criteria[k], r.binding.artifactDigest);
    }
  }

  /** One disposition per contract criterion covers the contract. */
  lemma DispositionsCover(seed: Seed, s: Script, r: ReviewReport, artifactDigest: Digest)
    requires WellFormedContract(seed.contract) && r.complete
    requires r.criteria == Dispositions(s, seed.contract.criteria, artifactDigest)
    ensures Covers(seed, r)
  {
    var criteria := seed.contract.criteria;
    forall item | item in r.criteria ensures InContract(seed, item.criterion) {
      var k :| 0 <= k < |r.criteria| && r.criteria[k] == item;
      assert criteria[k] in criteria;
    }
    forall c | c in criteria ensures exists item :: item in r.criteria && item.criterion == c.id {
      var k :| 0 <= k < |criteria| && criteria[k] == c;
      assert r.criteria[k] in r.criteria;
    }
  }

  lemma AcceptanceComplete(h: Digests, seed: Seed, s: Script, id: Identifier, st: State)
    requires Usable(h, seed, s)
    ensures ReportFault(seed, st, Acceptance(h, seed, s, id)).None?
  {
    var r, criteria := Acceptance(h, seed, s, id), seed.contract.criteria;
    DispositionsCover(seed, s, r, h.artifact(seed.initialArtifact));
    forall item | item in r.criteria ensures ItemFault(seed, r, item).None? {
      var k :| 0 <= k < |r.criteria| && r.criteria[k] == item;
      ItemPasses(seed, s, r, criteria[k], r.binding.artifactDigest);
    }
    NoFault(seed, st, r);
  }

  lemma ItemPasses(seed: Seed, s: Script, r: ReviewReport, c: Criterion, artifactDigest: Digest)
    requires WellFormedContract(seed.contract) && c in seed.contract.criteria
    ensures ItemFault(seed, r, Passing(s, c, artifactDigest)).None?
  {
    FindDistinct(seed.contract.criteria, c);
    PassingComplete(s, c, artifactDigest);
  }

  lemma NoFault(seed: Seed, st: State, r: ReviewReport)
    requires Covers(seed, r) && r.findings == [] && r.verdict == Accept
    requires forall item :: item in r.criteria ==> ItemFault(seed, r, item).None?
    ensures ReportFault(seed, st, r).None?
  {
  }

  // The state after `k` accepting reviews.

  predicate Accepted(h: Digests, seed: Seed, s: Script, k: nat, st: State) {
    && seed.reviewers != [] && k <= |s.ids| && k <= |s.executions|
    && st.artifact == seed.initialArtifact && st.lastAt == seed.startedAt
    && st.budget == Budget(k, 0, 0, 0, 0, 0) && st.pending.None?
    && st.invocationIds == s.ids[..k]
    && |st.executionIds| == k && (forall i :: 0 <= i < k ==> st.executionIds[i] == KeyOf(h, seed, s, i))
    && |st.reports| == k && (k > 0 ==> st.reports[k - 1] == Acceptance(h, seed, s, s.ids[k - 1]))
    && st.findings == map[] && st.resolutions == [] && st.failures == map[] && st.terminal == []
  }

  lemma AcceptedNext(h: Digests, seed: Seed, s: Script, k: nat, st: State)
    requires Usable(h, seed, s) && Accepted(h, seed, s, k, st)
    requires k < |s.ids| && k < seed.policy.minReviews <= seed.policy.maxInvocations
    ensures ReserveFault(h, seed, st, Call(h, seed, s.ids[k])).None?
  {
    EligibleIff(h, seed, st);
    assert seed.reviewers[0] in seed.reviewers;
    assert s.ids[k] !in s.ids[..k];
  }

  lemma AcceptedReceipt(h: Digests, seed: Seed, s: Script, k: nat, st: State, held: State)
    requires Usable(h, seed, s) && Accepted(h, seed, s, k, st) && k < |s.ids|
    requires held == Held(st, Call(h, seed, s.ids[k]))
    ensures AccountFault(h, held.executionIds, Call(h, seed, s.ids[k]),
                         Delivery(h, seed, s, s.ids[k], s.executions[k])).None?
    ensures Recorded(h, held.executionIds, Delivery(h, seed, s, s.ids[k], s.executions[k]))
         == held.executionIds + [KeyOf(h, seed, s, k)]
  {
    forall i | 0 <= i < k ensures held.executionIds[i] != KeyOf(h, seed, s, k) {
      assert held.executionIds[i] == KeyOf(h, seed, s, i);
    }
  }

  lemma AcceptedJudged(h: Digests, seed: Seed, s: Script, k: nat, st: State, held: State)
    requires Usable(h, seed, s) && Accepted(h, seed, s, k, st) && k < |s.ids|
    requires held == Held(st, Call(h, seed, s.ids[k]))
    ensures Judge(h, seed, held, Call(h, seed, s.ids[k]), Delivery(h, seed, s, s.ids[k], s.executions[k]))
         == Reviewed(Acceptance(h, seed, s, s.ids[k]))
  {
    var inv, c := Call(h, seed, s.ids[k]), Delivery(h, seed, s, s.ids[k], s.executions[k]);
    var acc := Accounted(h, held, inv, c);
    AcceptedReceipt(h, seed, s, k, st, held);
    AcceptanceWellFormed(h, seed, s, s.ids[k]);
    AcceptanceBinds(h, seed, s, s.ids[k], acc);
    AcceptanceComplete(h, seed, s, s.ids[k], acc);
    NothingRechecked(h, seed, acc, inv, s.prose, Acceptance(h, seed, s, s.ids[k]));
    JudgesReview(h, seed, held, inv, c, Acceptance(h, seed, s, s.ids[k]));
  }

  /** A bound and complete report without rechecks is credited. */
  lemma NothingRechecked(h: Digests, seed: Seed, st: State, inv: Invocation, text: Text, r: ReviewReport)
    requires r.rechecks == [] && WellFormedReport(r)
    requires ReportBindingFault(h, seed, st, inv, r).None? && ReportFault(seed, st, r).None?
    ensures JudgeReview(h, seed, st, inv, Some(ReviewText(text, r))) == Reviewed(r)
  {
  }

  lemma JudgesReview(h: Digests, seed: Seed, st: State, inv: Invocation, c: Completion, r: ReviewReport)
    requires c.stop.None? && InTime(seed, st, inv, c) && AccountFault(h, st.executionIds, inv, c).None?
    requires inv.kind == Review
    requires JudgeReview(h, seed, Accounted(h, st, inv, c), inv, c.output) == Reviewed(r)
    ensures Judge(h, seed, st, inv, c) == Reviewed(r)
  {
  }

  lemma AcceptanceStopsNothing(h: Digests, seed: Seed, s: Script, id: Identifier, st: State)
    requires seed.reviewers != [] && st.findings == map[]
    ensures Reconciliation(h, seed, st, Acceptance(h, seed, s, id)) == map[]
    ensures ReviewTerminal(h, seed, st, Acceptance(h, seed, s, id)) == []
  {
    var r := Acceptance(h, seed, s, id);
    DispositionsPass(s, seed.contract.criteria, h.artifact(seed.initialArtifact));
    assert ReportedPrints(h, r.findings) == {};
    assert Reconciliation(h, seed, st, r) == map[];
    assert StopReasons(seed, r) == [];
  }

  lemma AcceptedApplied(h: Digests, seed: Seed, s: Script, k: nat, st: State)
    requires Usable(h, seed, s) && Accepted(h, seed, s, k, st) && k < |s.ids|
    ensures var inv, c := Call(h, seed, s.ids[k]), Delivery(h, seed, s, s.ids[k], s.executions[k]);
            var acc := Accounted(h, Held(st, inv), inv, c);
            Accepted(h, seed, s, k + 1, Apply(h, seed, acc, inv, Reviewed(Acceptance(h, seed, s, s.ids[k]))))
  {
    var inv, c := Call(h, seed, s.ids[k]), Delivery(h, seed, s, s.ids[k], s.executions[k]);
    var acc := Accounted(h, Held(st, inv), inv, c);
    AcceptedReceipt(h, seed, s, k, st, Held(st, inv));
    AcceptanceStopsNothing(h, seed, s, s.ids[k], acc);
    CreditAcceptance(h, seed, s, k, st, Apply(h, seed, acc, inv, Reviewed(Acceptance(h, seed, s, s.ids[k]))));
  }

  lemma CreditAcceptance(h: Digests, seed: Seed, s: Script, k: nat, st: State, t: State)
    requires Accepted(h, seed, s, k, st) && k < |s.ids| == |s.executions|
    requires t == st.(budget := Budget(k + 1, 0, 0, 0, 0, 0), invocationIds := st.invocationIds + [s.ids[k]],
                      executionIds := st.executionIds + [KeyOf(h, seed, s, k)],
                      reports := st.reports + [Acceptance(h, seed, s, s.ids[k])])
    ensures Accepted(h, seed, s, k + 1, t)
  {
  }

  lemma AcceptedLatest(h: Digests, seed: Seed, s: Script, k: nat, st: State)
    requires Usable(h, seed, s) && Accepted(h, seed, s, k, st) && k > 0
    ensures LatestAccepts(h, seed, st)
  {
    DispositionsPass(s, seed.contract.criteria, h.artifact(seed.initialArtifact));
  }

  lemma AcceptedUncapped(h: Digests, seed: Seed, s: Script, k: nat, st: State)
    requires Usable(h, seed, s) && Accepted(h, seed, s, k, st)
    requires 0 < k <= seed.policy.minReviews <= seed.policy.maxInvocations
    ensures Capped(h, seed, st) == st
    ensures k == seed.policy.minReviews ==> Eligible(h, seed, st)
  {
    EligibleIff(h, seed, st);
    AcceptedLatest(h, seed, s, k, st);
    if k < seed.policy.minReviews {
      assert CapacityReasons(h, seed, st) == [];
      assert Dedupe<Reason>([]) == [];
    }
  }

  lemma AcceptedStep(h: Digests, seed: Seed, s: Script, k: nat, st: State)
    requires Usable(h, seed, s) && Accepted(h, seed, s, k, st)
    requires k < |s.ids| && k < seed.policy.minReviews <= seed.policy.maxInvocations
    ensures var t := Step(h, seed, st, Entry(h, seed, s, k)); t.Ok? && Accepted(h, seed, s, k + 1, t.value)
  {
    var inv, c := Call(h, seed, s.ids[k]), Delivery(h, seed, s, s.ids[k], s.executions[k]);
    var held := Held(st, inv);
    AcceptedNext(h, seed, s, k, st);
    AcceptedJudged(h, seed, s, k, st, held);
    AcceptedApplied(h, seed, s, k, st);
    var t := Apply(h, seed, Accounted(h, held, inv, c), inv, Reviewed(Acceptance(h, seed, s, s.ids[k])));
    AcceptedUncapped(h, seed, s, k + 1, t);
    StepOk(h, seed, st, inv, c, t);
  }

  lemma StepOk(h: Digests, seed: Seed, st: State, inv: Invocation, c: Completion, t: State)
    requires ReserveFault(h, seed, st, inv).None? && c.invocationId == inv.id
    requires Settled(h, seed, Held(st, inv), inv, c) == t
    ensures Step(h, seed, st, Attempt(inv, Some(c))) == Ok(t)
  {
  }

  lemma {:induction false} AcceptedRun(h: Digests, seed: Seed, s: Script, k: nat)
    requires Usable(h, seed, s) && seed.policy.minReviews <= seed.policy.maxInvocations
    requires k <= seed.policy.minReviews && k <= |s.ids|
    ensures ValidLedger(h, seed, Reviews(h, seed, s, k))
    ensures Accepted(h, seed, s, k, StateOf(h, seed, Reviews(h, seed, s, k)))
  {
    if k == 0 {
      NothingAccepted(h, seed, s);
    } else {
      AcceptedRun(h, seed, s, k - 1);
      AcceptedOneMore(h, seed, s, k - 1, Reviews(h, seed, s, k - 1), Entry(h, seed, s, k - 1));
      ReviewsSnoc(h, seed, s, k - 1);
    }
  }

  lemma AcceptedOneMore(h: Digests, seed: Seed, s: Script, k: nat, before: seq<Attempt>, a: Attempt)
    requires Usable(h, seed, s) && ValidLedger(h, seed, before) && Accepted(h, seed, s, k, StateOf(h, seed, before))
    requires k < |s.ids| && k < seed.policy.minReviews <= seed.policy.maxInvocations
    requires a == Entry(h, seed, s, k)
    ensures ValidLedger(h, seed, before + [a]) && Accepted(h, seed, s, k + 1, StateOf(h, seed, before + [a]))
  {
    AcceptedStep(h, seed, s, k, StateOf(h, seed, before));
    ReplayedSnoc(h, seed, before, a);
  }

  lemma NothingAccepted(h: Digests, seed: Seed, s: Script)
    requires Usable(h, seed, s)
    ensures Reviews(h, seed, s, 0) == []
    ensures Replayed(h, seed, []).Ok? && Accepted(h, seed, s, 0, Replayed(h, seed, []).value)
  {
  }

  lemma ReviewsSnoc(h: Digests, seed: Seed, s: Script, k: nat)
    requires seed.reviewers != [] && k < |s.ids| && k < |s.executions|
    ensures Reviews(h, seed, s, k + 1) == Reviews(h, seed, s, k) + [Entry(h, seed, s, k)]
  {
  }

  /** The session of a script of exactly the minimum number of accepting reviews. */
  function Finished(h: Digests, seed: Seed, s: Script): Session
    requires Usable(h, seed, s) && ValidLedger(h, seed, Reviews(h, seed, s, |s.ids|))
  {
    Session(seed, Reviews(h, seed, s, |s.ids|), StateOf(h, seed, Reviews(h, seed, s, |s.ids|)))
  }

  /** With room for the minimum number of calls, that many accepting reviews end ELIGIBLE. */
  lemma EligibleAttained(h: Digests, seed: Seed, s: Script)
    requires Usable(h, seed, s) && |s.ids| == seed.policy.minReviews
    requires seed.policy.minReviews <= seed.policy.maxInvocations
    ensures ValidLedger(h, seed, Reviews(h, seed, s, |s.ids|))
    ensures var decision := Evaluate(h, Finished(h, seed, s), seed.initialArtifact, seed.startedAt);
            decision.Ok? && decision.value.status == EligibleStatus
  {
    AcceptedRun(h, seed, s, |s.ids|);
    var done := Finished(h, seed, s);
    AcceptedUncapped(h, seed, s, |s.ids|, done.state);
    DecisionEligible(h, done, seed.initialArtifact, seed.startedAt);
  }

  lemma LedgerWithinCap(h: Digests, seed: Seed, attempts: seq<Attempt>)
    requires ValidLedger(h, seed, attempts)
    ensures |attempts| <= seed.policy.maxInvocations
  {
    if attempts != [] {
      var n := |attempts| - 1;
      StepAt(h, seed, attempts, n);
      LedgerAccounted(h, seed, attempts[..n]);
      StepAdmitted(h, seed, StateOf(h, seed, attempts[..n]), attempts[n], StateOf(h, seed, attempts[..n + 1]));
      CapAdmits(h, seed, StateOf(h, seed, attempts[..n]), attempts[n].invocation);
    }
  }

  lemma CapAdmits(h: Digests, seed: Seed, st: State, inv: Invocation)
    requires ReserveFault(h, seed, st, inv).None?
    ensures st.budget.invocations < seed.policy.maxInvocations
  {
  }

  lemma {:induction false} IncreasingFits(idx: seq<nat>, n: nat)
    requires forall i, j :: 0 <= i < j < |idx| ==> idx[i] < idx[j]
    requires forall i :: 0 <= i < |idx| ==> idx[i] < n
    ensures |idx| <= n
  {
    if idx != [] {
      var last := idx[|idx| - 1];
      IncreasingFits(idx[..|idx| - 1], last);
    }
  }

  /** Without that room no session of the seed is ever ELIGIBLE. */
  lemma EligibleNeedsRoom(h: Digests, s: Session, current: Artifact, now: Moment)
    requires Evaluate(h, s, current, now).Ok?
    requires Evaluate(h, s, current, now).value.status == EligibleStatus
    ensures s.seed.policy.minReviews <= s.seed.policy.maxInvocations
  {
    EligibilitySound(h, s, current, now);
    LedgerWithinCap(h, s.seed, s.attempts);
    ReviewsFit(h, s.seed, s.attempts, s.state, CreditedReviews(Judgements(h, s.seed, s.attempts)));
  }

  lemma ReviewsFit(h: Digests, seed: Seed, attempts: seq<Attempt>, st: State, idx: seq<nat>)
    requires AllGenuine(h, attempts, idx, st.reports)
    ensures |idx| <= |attempts|
  {
    IncreasingFits(idx, |attempts|);
  }

  // Existence, without a given script.

  predicate DecidedEligible(h: Digests, s: Session, current: Artifact, now: Moment) {
    var decision := Evaluate(h, s, current, now);
    decision.Ok? && decision.value.status == EligibleStatus
  }

  function Tally(n: nat): Identifier {
    Identifier(seq(n, _ => 'i'))
  }

  function Tallies(n: nat): Script {
    var names := seq(n, i requires 0 <= i < n => Tally(i));
    Script(names, names, Digest(""), Text(""))
  }

  /** The execution digest tells the executions of one provider apart. */
  ghost predicate ExecutionsTold(h: Digests) {
    forall provider, x, y :: h.execution(provider, x) == h.execution(provider, y) ==> x == y
  }

  lemma TalliesUsable(h: Digests, seed: Seed, n: nat)
    requires SeedFault(h, seed).None? && ExecutionsTold(h)
    ensures Usable(h, seed, Tallies(n))
  {
    var s := Tallies(n);
    forall i, j | 0 <= i < j < n ensures s.ids[i] != s.ids[j] && KeyOf(h, seed, s, i) != KeyOf(h, seed, s, j) {
      assert |s.ids[i].name| == i && |s.ids[j].name| == j;
    }
  }

  /** A seed can become ELIGIBLE exactly when its invocation cap covers its minimum number of reviews. */
  lemma EligibleReachableIff(h: Digests, seed: Seed)
    requires SeedFault(h, seed).None? && ExecutionsTold(h)
    ensures (exists s: Session, current, now :: s.seed == seed && DecidedEligible(h, s, current, now))
            <==> seed.policy.minReviews <= seed.policy.maxInvocations
  {
    if seed.policy.minReviews <= seed.policy.maxInvocations {
      var s := Tallies(seed.policy.minReviews);
      TalliesUsable(h, seed, seed.policy.minReviews);
      EligibleAttained(h, seed, s);
      assert DecidedEligible(h, Finished(h, seed, s), seed.initialArtifact, seed.startedAt);
    }
    if s: Session, current, now :| s.seed == seed && DecidedEligible(h, s, current, now) {
      EligibleNeedsRoom(h, s, current, now);
    }
  }
}
