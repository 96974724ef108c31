/** A reachable run on which something needs repair after a credited repair although no review has
    been credited since: a credited review with a HIGH defect, a credited FIXED repair, and an
    incomplete but bound review with a CRITICAL finding. */
module Relapse {
  import opened Basics
  import opened Domain
  import opened Rules
  import opened Findings
  import opened Reducer
  import opened Ledger
  import opened Runs
  import opened Repairs
  import opened Attainability

  const FIRST: Identifier := Identifier("review-1")
  const SECOND: Identifier := Identifier("repair")
  const THIRD: Identifier := Identifier("review-2")

  const BLANK: Text := Text("")
  const FILLER: Script := Script([], [], Digest("observation"), BLANK)

  /** The seeds on which the run is played: room for one repair and three calls, breaker at two. */
  predicate Suitable(h: Digests, seed: Seed) {
    && SeedFault(h, seed).None? && seed.reviewers != [] && seed.contract.criteria != []
    && seed.policy.sameFailureLimit == 2 && seed.policy.maxRepairs >= 1 && seed.policy.maxInvocations >= 3
  }

  function Changed(a: Artifact): Artifact {
    a.(payload := Digest(a.payload.hex + "'"))
  }

  function Observed(artifactDigest: Digest): seq<Evidence> {
    [Evidence(Identifier("log"), Digest("observation"), artifactDigest, BLANK)]
  }

  function Case(seed: Seed, severity: Severity, artifactDigest: Digest): Finding
    requires seed.contract.criteria != []
  {
    Finding(seed.contract.criteria[0].id, Identifier("behavior"), Identifier("cause"), severity, Defect,
            artifactDigest, Observed(artifactDigest), Text("rerun"), BLANK)
  }

  function Print(h: Digests, seed: Seed): Digest
    requires seed.contract.criteria != []
  {
    h.fingerprint(seed.contract.criteria[0].id, Identifier("behavior"), Identifier("cause"))
  }

  function DefectReport(h: Digests, seed: Seed): ReviewReport
    requires Suitable(h, seed)
  {
    var a := seed.initialArtifact;
    ReviewReport(FIRST, BindingOf(h, a), seed.reviewers[0], true,
                 Dispositions(FILLER, seed.contract.criteria, h.artifact(a)),
                 [Case(seed, High, h.artifact(a))], [], ChangesRequired, BLANK)
  }

  function Answer(h: Digests, seed: Seed): Resolution
    requires Suitable(h, seed)
  {
    Resolution(Print(h, seed), h.report(DefectReport(h, seed)), Fixed,
               Observed(h.artifact(Changed(seed.initialArtifact))), BLANK)
  }

  function FixReport(h: Digests, seed: Seed): RepairReport
    requires Suitable(h, seed)
  {
    RepairReport(SECOND, BindingOf(h, seed.initialArtifact), seed.originalDoer, Changed(seed.initialArtifact),
                 [Answer(h, seed)])
  }

  function PartialReport(h: Digests, seed: Seed): ReviewReport
    requires Suitable(h, seed)
  {
    var a := Changed(seed.initialArtifact);
    ReviewReport(THIRD, BindingOf(h, a), seed.reviewers[0], false, [],
                 [Case(seed, Critical, h.artifact(a))], [], ChangesRequired, BLANK)
  }

  function Reserving(h: Digests, seed: Seed, id: Identifier, kind: Kind, a: Artifact, actor: Model): Invocation {
    Invocation(id, kind, BindingOf(h, a), actor, Reservation(1, 0, 1), seed.startedAt)
  }

  /** Delivered at once, uncached, under the execution named like the call, and free of charge. */
  function Delivering(seed: Seed, inv: Invocation, output: Output): Completion {
    Completion(inv.id, seed.startedAt, Some(Receipt(inv.binding, inv.id, inv.id, inv.actor, Usage(0, 0), false)),
               Some(output), None)
  }

  function FirstCall(h: Digests, seed: Seed): Invocation
    requires Suitable(h, seed)
  {
    Reserving(h, seed, FIRST, Review, seed.initialArtifact, seed.reviewers[0])
  }

  function SecondCall(h: Digests, seed: Seed): Invocation
    requires Suitable(h, seed)
  {
    Reserving(h, seed, SECOND, Repair, seed.initialArtifact, seed.originalDoer)
  }

  function ThirdCall(h: Digests, seed: Seed): Invocation
    requires Suitable(h, seed)
  {
    Reserving(h, seed, THIRD, Review, Changed(seed.initialArtifact), seed.reviewers[0])
  }

  function FirstDelivery(h: Digests, seed: Seed): Completion
    requires Suitable(h, seed)
  {
    Delivering(seed, FirstCall(h, seed), ReviewText(BLANK, DefectReport(h, seed)))
  }

  function SecondDelivery(h: Digests, seed: Seed): Completion
    requires Suitable(h, seed)
  {
    Delivering(seed, SecondCall(h, seed), RepairText(BLANK, FixReport(h, seed)))
  }

  function ThirdDelivery(h: Digests, seed: Seed): Completion
    requires Suitable(h, seed)
  {
    Delivering(seed, ThirdCall(h, seed), ReviewText(BLANK, PartialReport(h, seed)))
  }

  function Relapsed(h: Digests, seed: Seed): seq<Attempt>
    requires Suitable(h, seed)
  {
    [Attempt(FirstCall(h, seed), Some(FirstDelivery(h, seed))),
     Attempt(SecondCall(h, seed), Some(SecondDelivery(h, seed))),
     Attempt(ThirdCall(h, seed), Some(ThirdDelivery(h, seed)))]
  }

  function Key(h: Digests, actor: Model, id: Identifier): Digest {
    h.execution(actor.provider, id)
  }

  /** No digest collision among the three executions and between the two reports of the run. */
  predicate Apart(h: Digests, seed: Seed)
    requires Suitable(h, seed)
  {
    && Key(h, seed.originalDoer, SECOND) != Key(h, seed.reviewers[0], FIRST)
    && Key(h, seed.reviewers[0], THIRD) != Key(h, seed.reviewers[0], FIRST)
    && Key(h, seed.reviewers[0], THIRD) != Key(h, seed.originalDoer, SECOND)
    && h.report(DefectReport(h, seed)) != h.report(PartialReport(h, seed))
  }

  // The three states.

  function Opened(h: Digests, seed: Seed): map<Digest, FindingRecord>
    requires Suitable(h, seed)
  {
    map[Print(h, seed) := FindingRecord(Case(seed, High, h.artifact(seed.initialArtifact)),
                                        h.report(DefectReport(h, seed)), true, 1, None, None)]
  }

  function Start(seed: Seed): State {
    State(seed.initialArtifact, seed.startedAt, NO_SPEND, None, [], [], [], map[], [], map[], [])
  }

  function AfterReview(h: Digests, seed: Seed): State
    requires Suitable(h, seed)
  {
    State(seed.initialArtifact, seed.startedAt, Budget(1, 0, 0, 0, 0, 0), None, [FIRST],
          [Key(h, seed.reviewers[0], FIRST)], [DefectReport(h, seed)], Opened(h, seed), [], map[], [])
  }

  function AfterRepair(h: Digests, seed: Seed): State
    requires Suitable(h, seed)
  {
    State(Changed(seed.initialArtifact), seed.startedAt, Budget(2, 1, 0, 0, 0, 0), None, [FIRST, SECOND],
          [Key(h, seed.reviewers[0], FIRST), Key(h, seed.originalDoer, SECOND)], [DefectReport(h, seed)],
          Opened(h, seed), ResolutionRecords(h, SecondCall(h, seed), FixReport(h, seed), [Answer(h, seed)]), map[], [])
  }

  lemma FreeCall(h: Digests, st: State, seed: Seed, inv: Invocation, output: Output)
    requires inv.reservation == Reservation(1, 0, 1)
    requires Key(h, inv.actor, inv.id) !in st.executionIds
    ensures AccountFault(h, st.executionIds, inv, Delivering(seed, inv, output)).None?
    ensures Recorded(h, st.executionIds, Delivering(seed, inv, output))
         == st.executionIds + [Key(h, inv.actor, inv.id)]
  {
  }

  /** Settling a free call clears its hold and charges nothing. */
  lemma FreeAccount(h: Digests, st: State, seed: Seed, inv: Invocation, output: Output)
    requires inv.reservation == Reservation(1, 0, 1) && st.lastAt == seed.startedAt
    requires Key(h, inv.actor, inv.id) !in st.executionIds
    ensures Accounted(h, st, inv, Delivering(seed, inv, output))
         == st.(budget := st.budget.(tokensReserved := 0, costReserved := 0), pending := None,
                executionIds := st.executionIds + [Key(h, inv.actor, inv.id)])
  {
    FreeCall(h, st, seed, inv, output);
  }

  lemma OnTime(seed: Seed, st: State, inv: Invocation, output: Output)
    requires st.lastAt == inv.startedAt == seed.startedAt && inv.reservation == Reservation(1, 0, 1)
    ensures InTime(seed, st, inv, Delivering(seed, inv, output))
  {
  }

  // The first review.

  lemma FirstAdmitted(h: Digests, seed: Seed)
    requires Suitable(h, seed)
    ensures ReserveFault(h, seed, Start(seed), FirstCall(h, seed)).None?
  {
    EligibleIff(h, seed, Start(seed));
    assert seed.reviewers[0] in seed.reviewers;
  }

  lemma CaseBlocks(seed: Seed, severity: Severity, d: Digest)
    requires seed.contract.criteria != []
    ensures Blocking(seed, Case(seed, severity, d)) && InContract(seed, Case(seed, severity, d).criterion)
  {
    assert seed.contract.criteria[0] in seed.contract.criteria;
  }

  lemma DefectBinds(h: Digests, seed: Seed, st: State)
    requires Suitable(h, seed) && st.artifact == seed.initialArtifact
    ensures ReportBindingFault(h, seed, st, FirstCall(h, seed), DefectReport(h, seed)).None?
  {
    var r := DefectReport(h, seed);
    assert seed.reviewers[0] in seed.reviewers;
    forall c | c in r.criteria ensures EvidenceBound(c.evidence, r.binding.artifactDigest) {
      var k :| 0 <= k < |r.criteria| && r.criteria[k] == c;
      PassingComplete(FILLER, seed.contract.criteria[k], r.binding.artifactDigest);
    }
  }

  lemma DefectComplete(h: Digests, seed: Seed, st: State)
    requires Suitable(h, seed)
    ensures ReportFault(seed, st, DefectReport(h, seed)).None?
  {
    var r, criteria := DefectReport(h, seed), seed.contract.criteria;
    DispositionsCover(seed, FILLER, r, h.artifact(seed.initialArtifact));
    CaseBlocks(seed, High, h.artifact(seed.initialArtifact));
    assert Case(seed, High, h.artifact(seed.initialArtifact)) in r.findings;
    forall item | item in r.criteria ensures ItemFault(seed, r, item).None? {
      var k :| 0 <= k < |r.criteria| && r.criteria[k] == item;
      ItemPasses(seed, FILLER, r, criteria[k], r.binding.artifactDigest);
    }
  }

  lemma DefectWellFormed(h: Digests, seed: Seed)
    requires Suitable(h, seed)
    ensures WellFormedReport(DefectReport(h, seed))
  {
    DispositionsWellFormed(FILLER, seed.contract.criteria, h.artifact(seed.initialArtifact));
  }

  lemma DefectReconciled(h: Digests, seed: Seed, st: State)
    requires Suitable(h, seed) && st.findings == map[]
    ensures Reconciliation(h, seed, st, DefectReport(h, seed)) == Opened(h, seed)
    ensures ReviewTerminal(h, seed, st, DefectReport(h, seed)) == []
  {
    var r, f := DefectReport(h, seed), Case(seed, High, h.artifact(seed.initialArtifact));
    CaseBlocks(seed, High, h.artifact(seed.initialArtifact));
    assert r.findings == [f] && Fingerprint(h, f) == Print(h, seed);
    assert f in r.findings;
    assert ReportedPrints(h, r.findings) == {Print(h, seed)};
    assert Reported(h, r.findings, Print(h, seed)) == Some(f);
    assert Reconciliation(h, seed, st, r) == Opened(h, seed);
    DispositionsPass(FILLER, seed.contract.criteria, h.artifact(seed.initialArtifact));
    assert StopReasons(seed, r) == [];
  }

  lemma FirstJudged(h: Digests, seed: Seed)
    requires Suitable(h, seed)
    ensures Judge(h, seed, Held(Start(seed), FirstCall(h, seed)), FirstCall(h, seed), FirstDelivery(h, seed))
         == Reviewed(DefectReport(h, seed))
  {
    var inv, c, r := FirstCall(h, seed), FirstDelivery(h, seed), DefectReport(h, seed);
    var held := Held(Start(seed), inv);
    var acc := Accounted(h, held, inv, c);
    FreeCall(h, held, seed, inv, ReviewText(BLANK, r));
    OnTime(seed, held, inv, ReviewText(BLANK, r));
    DefectWellFormed(h, seed);
    DefectBinds(h, seed, acc);
    DefectComplete(h, seed, acc);
    NothingRechecked(h, seed, acc, inv, BLANK, r);
    JudgesReview(h, seed, held, inv, c, r);
  }

  lemma OpenedNeeds(h: Digests, seed: Seed, st: State)
    requires Suitable(h, seed) && st.findings == Opened(h, seed) && st.resolutions == []
    ensures NeedsRepair(h, st) && HasOpenBlocker(st)
  {
    assert Print(h, seed) in st.findings;
  }

  lemma Uncapped(h: Digests, seed: Seed, st: State)
    requires Suitable(h, seed) && st.terminal == [] && |st.reports| == 1
    requires st.budget.invocations <= 2 && st.budget.tokensSpent == st.budget.costSpent == 0
    requires NeedsRepair(h, st) ==> st.budget.repairs == 0
    ensures Capped(h, seed, st) == st
    ensures EligibilityReasons(h, seed, st) != []
  {
    EligibleIff(h, seed, st);
    assert CapacityReasons(h, seed, st) == [];
    assert Dedupe<Reason>([]) == [];
  }

  lemma FirstStep(h: Digests, seed: Seed)
    requires Suitable(h, seed)
    ensures Step(h, seed, Start(seed), Relapsed(h, seed)[0]) == Ok(AfterReview(h, seed))
  {
    var inv, c, r := FirstCall(h, seed), FirstDelivery(h, seed), DefectReport(h, seed);
    FirstAdmitted(h, seed);
    FirstJudged(h, seed);
    FirstCharged(h, seed);
    FirstApplied(h, seed);
    OpenedNeeds(h, seed, AfterReview(h, seed));
    Uncapped(h, seed, AfterReview(h, seed));
    StepJudged(h, seed, Start(seed), inv, c, Reviewed(r), AfterReview(h, seed));
  }

  function Charged(h: Digests, seed: Seed): State
    requires Suitable(h, seed)
  {
    Start(seed).(budget := Budget(1, 0, 0, 0, 0, 0), invocationIds := [FIRST],
                 executionIds := [Key(h, seed.reviewers[0], FIRST)])
  }

  lemma FirstCharged(h: Digests, seed: Seed)
    requires Suitable(h, seed)
    ensures var inv := FirstCall(h, seed);
            Accounted(h, Held(Start(seed), inv), inv, FirstDelivery(h, seed)) == Charged(h, seed)
  {
    var inv := FirstCall(h, seed);
    FreeAccount(h, Held(Start(seed), inv), seed, inv, ReviewText(BLANK, DefectReport(h, seed)));
  }

  lemma FirstApplied(h: Digests, seed: Seed)
    requires Suitable(h, seed)
    ensures Apply(h, seed, Charged(h, seed), FirstCall(h, seed), Reviewed(DefectReport(h, seed)))
         == AfterReview(h, seed)
  {
    DefectReconciled(h, seed, Charged(h, seed));
    CreditsReview(h, seed, Charged(h, seed), FirstCall(h, seed), DefectReport(h, seed), Opened(h, seed));
  }

  lemma CreditsReview(h: Digests, seed: Seed, st: State, inv: Invocation, r: ReviewReport,
                      records: map<Digest, FindingRecord>)
    requires Reconciliation(h, seed, st, r) == records && ReviewTerminal(h, seed, st, r) == []
    ensures Apply(h, seed, st, inv, Reviewed(r))
         == st.(findings := records, terminal := [], failures := map[], reports := st.reports + [r])
  {
  }

  lemma StepJudged(h: Digests, seed: Seed, st: State, inv: Invocation, c: Completion, j: Judgement, t: State)
    requires ReserveFault(h, seed, st, inv).None? && c.invocationId == inv.id
    requires Judge(h, seed, Held(st, inv), inv, c) == j
    requires Apply(h, seed, Accounted(h, Held(st, inv), inv, c), inv, j) == t && Capped(h, seed, t) == t
    ensures Step(h, seed, st, Attempt(inv, Some(c))) == Ok(t)
  {
    StepOk(h, seed, st, inv, c, t);
  }

  // The repair.

  lemma SecondAdmitted(h: Digests, seed: Seed)
    requires Suitable(h, seed)
    ensures ReserveFault(h, seed, AfterReview(h, seed), SecondCall(h, seed)).None?
  {
    OpenedNeeds(h, seed, AfterReview(h, seed));
    Uncapped(h, seed, AfterReview(h, seed));
    RepairAdmitted(h, seed, AfterReview(h, seed), SecondCall(h, seed));
  }

  lemma RepairAdmitted(h: Digests, seed: Seed, st: State, inv: Invocation)
    requires st.terminal == [] && st.pending.None? && EligibilityReasons(h, seed, st) != []
    requires inv.id !in st.invocationIds && inv.binding == BindingOf(h, st.artifact)
    requires st.lastAt == inv.startedAt == seed.startedAt && inv.reservation == Reservation(1, 0, 1)
    requires st.budget == Budget(1, 0, 0, 0, 0, 0) && seed.policy.maxInvocations >= 3 && seed.policy.maxRepairs >= 1
    requires inv.kind == Repair && inv.actor == seed.originalDoer && NeedsRepair(h, st)
    ensures ReserveFault(h, seed, st, inv).None?
  {
  }

  lemma FixAccepted(h: Digests, seed: Seed, st: State)
    requires Suitable(h, seed) && st.findings == Opened(h, seed) && st.artifact == seed.initialArtifact
    ensures RepairFault(h, seed, st, SecondCall(h, seed), FixReport(h, seed)).None?
  {
    var r, n := FixReport(h, seed), Answer(h, seed);
    assert r.resolutions == [n] && n in r.resolutions;
    assert Proposes(r.resolutions, Print(h, seed));
    assert |r.artifact.payload.hex| == |st.artifact.payload.hex| + 1;
    assert ResolutionFault(h, st, r, n).None?;
  }

  lemma SecondJudged(h: Digests, seed: Seed)
    requires Suitable(h, seed) && Apart(h, seed)
    ensures var inv := SecondCall(h, seed);
            Judge(h, seed, Held(AfterReview(h, seed), inv), inv, SecondDelivery(h, seed))
            == Repaired(FixReport(h, seed))
  {
    var inv, c, r := SecondCall(h, seed), SecondDelivery(h, seed), FixReport(h, seed);
    var held := Held(AfterReview(h, seed), inv);
    FreeCall(h, held, seed, inv, RepairText(BLANK, r));
    OnTime(seed, held, inv, RepairText(BLANK, r));
    FixAccepted(h, seed, Accounted(h, held, inv, c));
    JudgesRepair(h, seed, held, inv, c, r);
  }

  lemma JudgesRepair(h: Digests, seed: Seed, st: State, inv: Invocation, c: Completion, r: RepairReport)
    requires c.stop.None? && InTime(seed, st, inv, c) && AccountFault(h, st.executionIds, inv, c).None?
    requires inv.kind == Repair && c.output.Some? && ParseRepair(c.output.value) == Some(r)
    requires RepairFault(h, seed, Accounted(h, st, inv, c), inv, r).None?
    ensures Judge(h, seed, st, inv, c) == Repaired(r)
  {
  }

  lemma SecondStep(h: Digests, seed: Seed)
    requires Suitable(h, seed) && Apart(h, seed)
    ensures Step(h, seed, AfterReview(h, seed), Relapsed(h, seed)[1]) == Ok(AfterRepair(h, seed))
  {
    var inv, c, r := SecondCall(h, seed), SecondDelivery(h, seed), FixReport(h, seed);
    var held := Held(AfterReview(h, seed), inv);
    var acc := Accounted(h, held, inv, c);
    SecondAdmitted(h, seed);
    SecondJudged(h, seed);
    FreeAccount(h, held, seed, inv, RepairText(BLANK, r));
    assert Apply(h, seed, acc, inv, Repaired(r)) == AfterRepair(h, seed);
    FixAccepted(h, seed, acc);
    RepairAnswersAll(h, seed, acc, inv, r);
    Uncapped(h, seed, AfterRepair(h, seed));
    StepJudged(h, seed, AfterReview(h, seed), inv, c, Repaired(r), AfterRepair(h, seed));
  }

  // The rejected review.

  lemma ThirdAdmitted(h: Digests, seed: Seed)
    requires Suitable(h, seed) && Apart(h, seed)
    ensures ReserveFault(h, seed, AfterRepair(h, seed), ThirdCall(h, seed)).None?
  {
    var st := AfterRepair(h, seed);
    EligibleIff(h, seed, st);
    assert !Eligible(h, seed, st);
    assert seed.reviewers[0] in seed.reviewers;
    assert THIRD != FIRST && THIRD != SECOND;
  }

  lemma PartialBinds(h: Digests, seed: Seed, st: State)
    requires Suitable(h, seed) && st.artifact == Changed(seed.initialArtifact)
    ensures ReportBindingFault(h, seed, st, ThirdCall(h, seed), PartialReport(h, seed)).None?
  {
    assert seed.reviewers[0] in seed.reviewers;
  }

  lemma ThirdJudged(h: Digests, seed: Seed)
    requires Suitable(h, seed) && Apart(h, seed)
    ensures Judge(h, seed, Held(AfterRepair(h, seed), ThirdCall(h, seed)), ThirdCall(h, seed), ThirdDelivery(h, seed))
         == RejectedBound(IncompleteCriteria, PartialReport(h, seed))
  {
    var inv, c, r := ThirdCall(h, seed), ThirdDelivery(h, seed), PartialReport(h, seed);
    var held := Held(AfterRepair(h, seed), inv);
    FreeCall(h, held, seed, inv, ReviewText(BLANK, r));
    OnTime(seed, held, inv, ReviewText(BLANK, r));
    PartialBinds(h, seed, Accounted(h, held, inv, c));
    JudgesPartial(h, seed, held, inv, c, r);
  }

  lemma JudgesPartial(h: Digests, seed: Seed, st: State, inv: Invocation, c: Completion, r: ReviewReport)
    requires c.stop.None? && InTime(seed, st, inv, c) && AccountFault(h, st.executionIds, inv, c).None?
    requires inv.kind == Review && c.output.Some? && ParseReview(c.output.value) == Some(r) && !r.complete
    requires ReportBindingFault(h, seed, Accounted(h, st, inv, c), inv, r).None?
    ensures Judge(h, seed, st, inv, c) == RejectedBound(IncompleteCriteria, r)
  {
  }

  // The whole run.

  lemma Replays(h: Digests, seed: Seed)
    requires Suitable(h, seed) && Apart(h, seed)
    ensures Replayed(h, seed, Relapsed(h, seed)[..0]) == Ok(Start(seed))
    ensures Replayed(h, seed, Relapsed(h, seed)[..1]) == Ok(AfterReview(h, seed))
    ensures Replayed(h, seed, Relapsed(h, seed)[..2]) == Ok(AfterRepair(h, seed))
  {
    var attempts := Relapsed(h, seed);
    assert attempts[..0] == [];
    FirstStep(h, seed);
    NextReplays(h, seed, attempts, 0, Start(seed), AfterReview(h, seed));
    SecondStep(h, seed);
    NextReplays(h, seed, attempts, 1, AfterReview(h, seed), AfterRepair(h, seed));
  }

  lemma NextReplays(h: Digests, seed: Seed, attempts: seq<Attempt>, i: nat, st: State, t: State)
    requires i < |attempts| && Replayed(h, seed, attempts[..i]) == Ok(st) && Step(h, seed, st, attempts[i]) == Ok(t)
    ensures Replayed(h, seed, attempts[..i + 1]) == Ok(t)
  {
    assert attempts[..i + 1][..i] == attempts[..i];
  }

  lemma ThirdStep(h: Digests, seed: Seed)
    requires Suitable(h, seed) && Apart(h, seed)
    ensures Step(h, seed, AfterRepair(h, seed), Relapsed(h, seed)[2]).Ok?
  {
    var inv, c := ThirdCall(h, seed), ThirdDelivery(h, seed);
    ThirdAdmitted(h, seed);
    StepOk(h, seed, AfterRepair(h, seed), inv, c, Settled(h, seed, Held(AfterRepair(h, seed), inv), inv, c));
  }

  lemma RunValid(h: Digests, seed: Seed)
    requires Suitable(h, seed) && Apart(h, seed)
    ensures ValidLedger(h, seed, Relapsed(h, seed))
  {
    var attempts := Relapsed(h, seed);
    Replays(h, seed);
    ThirdStep(h, seed);
    LastReplays(h, seed, attempts, AfterRepair(h, seed));
  }

  lemma LastReplays(h: Digests, seed: Seed, attempts: seq<Attempt>, st: State)
    requires attempts != [] && Replayed(h, seed, attempts[..|attempts| - 1]) == Ok(st)
    requires Step(h, seed, st, attempts[|attempts| - 1]).Ok?
    ensures ValidLedger(h, seed, attempts)
  {
  }

  lemma PartialStops(h: Digests, seed: Seed)
    requires Suitable(h, seed)
    ensures HasStop(seed, PartialReport(h, seed))
  {
    var f := Case(seed, Critical, h.artifact(Changed(seed.initialArtifact)));
    assert f in PartialReport(h, seed).findings && Stopping(seed, f);
  }

  lemma RunJudged(h: Digests, seed: Seed)
    requires Suitable(h, seed) && Apart(h, seed)
    ensures ValidLedger(h, seed, Relapsed(h, seed))
    ensures Judgements(h, seed, Relapsed(h, seed))[1] == Some(Repaired(FixReport(h, seed)))
    ensures Judgements(h, seed, Relapsed(h, seed))[2] == Some(RejectedBound(IncompleteCriteria, PartialReport(h, seed)))
  {
    var attempts := Relapsed(h, seed);
    RunValid(h, seed);
    Replays(h, seed);
    SecondJudged(h, seed);
    ThirdJudged(h, seed);
    JudgementAt(h, seed, attempts, 1);
    JudgementAt(h, seed, attempts, 2);
  }

  /** On every suitable seed: the repair at position 1 is credited, the review after it is not, and
      something needs repair again. */
  lemma NeedReturns(h: Digests, seed: Seed)
    requires Suitable(h, seed) && Apart(h, seed)
    ensures ValidLedger(h, seed, Relapsed(h, seed))
    ensures IsRepaired(Judgements(h, seed, Relapsed(h, seed))[1])
    ensures !IsReviewed(Judgements(h, seed, Relapsed(h, seed))[2])
    ensures NeedsRepair(h, StateOf(h, seed, Relapsed(h, seed)))
  {
    RunJudged(h, seed);
    Replays(h, seed);
    PartialStops(h, seed);
    StoppedNeeds(h, seed, Relapsed(h, seed), DefectReport(h, seed));
  }

  lemma StoppedNeeds(h: Digests, seed: Seed, attempts: seq<Attempt>, r: ReviewReport)
    requires ValidLedger(h, seed, attempts) && |attempts| == 3
    requires IsRepaired(Judgements(h, seed, attempts)[1]) && IsStopped(seed, Judgements(h, seed, attempts)[2])
    requires ValidLedger(h, seed, attempts[..2]) && StateOf(h, seed, attempts[..2]).reports == [r]
    requires h.report(r) != h.report(Judgements(h, seed, attempts)[2].value.report)
    ensures NeedsRepair(h, StateOf(h, seed, attempts))
  {
    assert attempts[..3] == attempts;
    NeedReturnsIff(h, seed, attempts, 1, 3);
  }

  // One concrete input.

  const DIGESTS: Digests := Digests(
    (a: Artifact) => a.payload,
    (c: Contract) => Digest("contract"),
    (m: Model) => Digest(m.canonical.name),
    (r: ReviewReport) => Digest(if r.complete then "complete" else "partial"),
    (n: Resolution) => Digest("resolution"),
    (s: Seed) => Digest("seed"),
    (s: Session) => Digest("session"),
    (criterion: Identifier, behavior: Identifier, cause: Identifier) => Digest(criterion.name),
    (provider: Identifier, execution: Identifier) => Digest(execution.name),
    (s: Session) => 0)

  const SCOPE: Scope := Scope(Identifier("tenant"), Identifier("item"), Identifier("session"))

  const DOER: Model := Model(
    Identifier("house"), Identifier("doer"), Identifier("doer"), Some(Identifier("doers")),
    Some(Digest("qualified")), [Digest("writes")], Producer)

  const JUDGE: Model := Model(
    Identifier("house"), Identifier("judge"), Identifier("judge"), Some(Identifier("judges")),
    Some(Digest("qualified")), [Digest("reads")], Reviewer)

  const CONTRACT: Contract := Contract(
    Identifier("tenant"), Identifier("item"), [Criterion(Identifier("works"), true, [], BLANK)],
    [Identifier("module")], T1, BLANK)

  const POLICY: Policy := Policy(2, 3, 3, 2, 8, 100, 100, 600, false, Identifier("arp-1"))

  const SEED: Seed := Seed(
    SCOPE, CONTRACT, POLICY, DOER, [JUDGE],
    Artifact(SCOPE, Identifier("module"), Digest("v1"), [DOER], Digest("contract"), Digest("context"), [], []), 0)

  lemma SeedSuitable()
    ensures Suitable(DIGESTS, SEED) && Apart(DIGESTS, SEED)
  {
    assert CONTRACT.criteria[0] in CONTRACT.criteria;
    assert DOER.canonical.name != JUDGE.canonical.name by {
      assert "doer"[0] != "judge"[0];
    }
    assert SeedFault(DIGESTS, SEED).None?;
    assert |FIRST.name| == 8 && |SECOND.name| == 6;
    assert FIRST.name[7] == '1' && THIRD.name[7] == '2';
    assert |"complete"| == 8 && |"partial"| == 7;
  }

  /** A concrete valid ledger with a credited repair, no credited review after it, and a need. */
  lemma ConcreteRelapse()
    ensures Suitable(DIGESTS, SEED)
    ensures ValidLedger(DIGESTS, SEED, Relapsed(DIGESTS, SEED))
    ensures IsRepaired(Judgements(DIGESTS, SEED, Relapsed(DIGESTS, SEED))[1])
    ensures !IsReviewed(Judgements(DIGESTS, SEED, Relapsed(DIGESTS, SEED))[2])
    ensures NeedsRepair(DIGESTS, StateOf(DIGESTS, SEED, Relapsed(DIGESTS, SEED)))
  {
    SeedSuitable();
    NeedReturns(DIGESTS, SEED);
  }
}
