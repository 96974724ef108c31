/** Qualification, binding and report checks. A check that raises in the original
    is a `...Fault` function: `None` when it passes, otherwise what it raises. The
    checking loops are the `Check...` methods, proved against those functions. */
module Rules {
  import opened Basics
  import opened Domain

  predicate Qualified(m: Model) {
    m.family.Some? && m.qualification.Some? && m.capabilities != []
  }

  predicate IndependentOf(seed: Seed, producer: Model, reviewer: Model) {
    && Qualified(producer) && producer.role == Producer
    && reviewer.canonical != producer.canonical && reviewer.model != producer.model
    && (seed.contract.riskTier == T2 || seed.policy.requireDifferentFamily ==>
          reviewer.family != producer.family)
  }

  predicate Independent(seed: Seed, producers: seq<Model>, reviewer: Model) {
    && Qualified(reviewer) && reviewer.role == Reviewer
    && forall p :: p in producers ==> IndependentOf(seed, p, reviewer)
  }

  predicate ArtifactBound(h: Digests, seed: Seed, a: Artifact) {
    && a.scope == seed.scope
    && a.contractDigest == h.contract(seed.contract)
    && a.contextDigest == seed.initialArtifact.contextDigest
    && a.key in seed.contract.artifactScope
  }

  predicate DistinctReviewers(h: Digests, reviewers: seq<Model>) {
    forall i, j :: 0 <= i < j < |reviewers| ==> h.model(reviewers[i]) != h.model(reviewers[j])
  }

  function SeedFault(h: Digests, seed: Seed): Option<Denial> {
    if !WellFormedSeed(seed) then Some(ValueError)
    else if seed.scope.tenant != seed.contract.tenant || seed.scope.workItem != seed.contract.workItem
    then Some(Violation(BindingMismatch))
    else if !ArtifactBound(h, seed, seed.initialArtifact) then Some(Violation(BindingMismatch))
    else if seed.originalDoer !in seed.initialArtifact.producers
            || seed.originalDoer.role != Producer || !Qualified(seed.originalDoer)
    then Some(Violation(IdentityUnavailable))
    else if seed.reviewers == [] then Some(Violation(IdentityUnavailable))
    else if !DistinctReviewers(h, seed.reviewers) then Some(ValueError)
    else if exists r :: r in seed.reviewers && !Independent(seed, seed.initialArtifact.producers, r)
    then Some(Violation(IdentityUnavailable))
    else None
  }

  predicate WithinWindow(seed: Seed, st: State, now: Moment) {
    && now >= st.lastAt && now >= seed.startedAt
    && now - seed.startedAt < seed.policy.maxSeconds * TICKS_PER_SECOND
  }

  /** The first criterion with the identifier; contract identifiers are distinct. */
  function FindCriterion(criteria: seq<Criterion>, id: Identifier): (r: Option<Criterion>)
    ensures r.Some? ==> r.value in criteria && r.value.id == id
    ensures r.None? <==> forall c :: c in criteria ==> c.id != id
  {
    if criteria == [] then None
    else if criteria[0].id == id then Some(criteria[0])
    else
      assert criteria == [criteria[0]] + criteria[1..];
      FindCriterion(criteria[1..], id)
  }

  predicate InContract(seed: Seed, id: Identifier) {
    exists c :: c in seed.contract.criteria && c.id == id
  }

  predicate Mandatory(seed: Seed, id: Identifier) {
    exists c :: c in seed.contract.criteria && c.id == id && c.mandatory
  }

  predicate Blocking(seed: Seed, f: Finding) {
    var c := FindCriterion(seed.contract.criteria, f.criterion);
    c.None? || c.value.mandatory || f.kind != Advisory || f.severity != Low
  }

  predicate EvidenceBound(evidence: seq<Evidence>, artifactDigest: Digest) {
    forall e :: e in evidence ==> e.artifactDigest == artifactDigest
  }

  /** A recorded repair answers exactly this report of the case on the current artifact. */
  predicate Reconciled(h: Digests, st: State, fp: Digest, rec: FindingRecord) {
    exists m :: m in st.resolutions
             && m.resolution.fingerprint == fp
             && m.resolution.reportDigest == rec.reportDigest
             && m.artifactDigest == h.artifact(st.artifact)
  }

  predicate NeedsRepair(h: Digests, st: State) {
    exists fp :: fp in st.findings && st.findings[fp].OpenBlocker()
              && !Reconciled(h, st, fp, st.findings[fp])
  }

  predicate HasOpenBlocker(st: State) {
    exists fp :: fp in st.findings && st.findings[fp].OpenBlocker()
  }

  predicate DistinctFindings(h: Digests, fs: seq<Finding>) {
    forall i, j :: 0 <= i < j < |fs| ==> Fingerprint(h, fs[i]) != Fingerprint(h, fs[j])
  }

  predicate DistinctRechecks(ks: seq<Recheck>) {
    forall i, j :: 0 <= i < j < |ks| ==> ks[i].fingerprint != ks[j].fingerprint
  }

  /** The first unbound finding decides which reason is raised. */
  function FindingsBindingFault(fs: seq<Finding>, artifactDigest: Digest): (r: Option<Denial>)
    ensures r.None? <==> forall f :: f in fs ==>
              f.artifactDigest == artifactDigest && EvidenceBound(f.evidence, artifactDigest)
    ensures r.Some? ==> r.value in {Violation(BindingMismatch), Violation(MissingEvidence)}
  {
    if fs == [] then None
    else
      assert fs == [fs[0]] + fs[1..];
      if fs[0].artifactDigest != artifactDigest then Some(Violation(BindingMismatch))
      else if !EvidenceBound(fs[0].evidence, artifactDigest) then Some(Violation(MissingEvidence))
      else FindingsBindingFault(fs[1..], artifactDigest)
  }

  function ReportBindingFault(h: Digests, seed: Seed, st: State, inv: Invocation, r: ReviewReport)
    : Option<Denial>
  {
    if r.invocationId != inv.id || r.binding != inv.binding || r.reviewer != inv.actor
    then Some(Violation(BindingMismatch))
    else if !Independent(seed, st.artifact.producers, r.reviewer)
    then Some(Violation(IdentityUnavailable))
    else if !DistinctFindings(h, r.findings) || !DistinctRechecks(r.rechecks) then Some(ValueError)
    else if exists c :: c in r.criteria && !EvidenceBound(c.evidence, r.binding.artifactDigest)
    then Some(Violation(MissingEvidence))
    else
      var fault := FindingsBindingFault(r.findings, r.binding.artifactDigest);
      if fault.Some? then fault
      else if exists k :: k in r.rechecks && !EvidenceBound(k.evidence, r.binding.artifactDigest)
      then Some(Violation(MissingEvidence))
      else None
  }

  predicate DistinctCriteria(items: seq<CriterionResult>) {
    forall i, j :: 0 <= i < j < |items| ==> items[i].criterion != items[j].criterion
  }

  /** Exactly one disposition for every contract criterion and no other. */
  predicate Covers(seed: Seed, r: ReviewReport) {
    && r.complete
    && DistinctCriteria(r.criteria)
    && (forall item :: item in r.criteria ==> InContract(seed, item.criterion))
    && (forall c :: c in seed.contract.criteria ==>
          exists item :: item in r.criteria && item.criterion == c.id)
  }

  predicate HasRequiredEvidence(c: Criterion, item: CriterionResult) {
    forall id :: id in c.requiredEvidence ==> exists e :: e in item.evidence && e.id == id
  }

  function ItemFault(seed: Seed, r: ReviewReport, item: CriterionResult): Option<Denial> {
    match FindCriterion(seed.contract.criteria, item.criterion)
    case None => None
    case Some(c) =>
      if item.status == Pass && !HasRequiredEvidence(c, item) then Some(Violation(MissingEvidence))
      else if c.mandatory && item.status == NotApplicable then Some(Violation(IncompleteCriteria))
      else if c.mandatory && item.status == Fail
              && !(exists f :: f in r.findings && f.criterion == item.criterion)
      then Some(Violation(IncompleteCriteria))
      else None
  }

  function ItemsFault(seed: Seed, r: ReviewReport, items: seq<CriterionResult>): (x: Option<Denial>)
    ensures x.None? <==> forall item :: item in items ==> ItemFault(seed, r, item).None?
    ensures x.Some? ==> x.value in {Violation(MissingEvidence), Violation(IncompleteCriteria)}
  {
    if items == [] then None
    else
      assert items == [items[0]] + items[1..];
      var fault := ItemFault(seed, r, items[0]);
      if fault.Some? then fault else ItemsFault(seed, r, items[1..])
  }

  function ReportFault(seed: Seed, st: State, r: ReviewReport): Option<Denial> {
    if !Covers(seed, r) then Some(Violation(IncompleteCriteria))
    else
      var fault := ItemsFault(seed, r, r.criteria);
      if fault.Some? then fault
      else if exists f :: f in r.findings && !InContract(seed, f.criterion) && f.kind != GapInContract
      then Some(Violation(Reason.ContractGap))
      else if r.verdict == ChangesRequired
              && !(exists f :: f in r.findings && Blocking(seed, f)) && !HasOpenBlocker(st)
      then Some(Violation(UnsupportedVerdict))
      else None
  }

  predicate MandatoryPassed(seed: Seed, r: ReviewReport) {
    forall item :: item in r.criteria && Mandatory(seed, item.criterion) ==> item.status == Pass
  }

  function When(condition: bool, reason: Reason): (r: seq<Reason>)
    ensures |r| == if condition then 1 else 0
  {
    if condition then [reason] else []
  }

  /** The latest completed report accepts the current artifact. */
  predicate LatestAccepts(h: Digests, seed: Seed, st: State) {
    && st.reports != []
    && var latest := st.reports[|st.reports| - 1];
       && latest.binding == BindingOf(h, st.artifact)
       && latest.verdict == Accept
       && MandatoryPassed(seed, latest)
  }

  function LatestReasons(h: Digests, seed: Seed, st: State): (r: seq<Reason>)
    ensures r == [] <==> LatestAccepts(h, seed, st)
  {
    if st.reports == [] then [UnreviewedArtifact]
    else
      var latest := st.reports[|st.reports| - 1];
      When(latest.binding != BindingOf(h, st.artifact), UnreviewedArtifact)
      + When(latest.verdict != Accept || !MandatoryPassed(seed, latest), MandatoryCriteria)
  }

  function ExitReasons(h: Digests, seed: Seed, st: State): seq<Reason> {
    When(st.pending.Some?, PendingCall)
    + When(|st.reports| < seed.policy.minReviews, MinReviews)
    + When(HasOpenBlocker(st), OpenBlockers)
    + LatestReasons(h, seed, st)
  }

  /** Why the session is not eligible; empty exactly when it is. */
  function EligibilityReasons(h: Digests, seed: Seed, st: State): seq<Reason> {
    Dedupe(st.terminal + ExitReasons(h, seed, st))
  }

  /** The conjunction that the reason list stands for. */
  predicate Eligible(h: Digests, seed: Seed, st: State) {
    && st.terminal == [] && st.pending.None?
    && |st.reports| >= seed.policy.minReviews
    && !HasOpenBlocker(st)
    && LatestAccepts(h, seed, st)
  }

  lemma EligibleIff(h: Digests, seed: Seed, st: State)
    ensures EligibilityReasons(h, seed, st) == [] <==> Eligible(h, seed, st)
    ensures st.terminal != [] ==> EligibilityReasons(h, seed, st) != []
  {
    DedupeEmpty(st.terminal + ExitReasons(h, seed, st));
  }

  // The checking loops.

  method CheckIndependent(seed: Seed, producers: seq<Model>, reviewer: Model) returns (fault: Option<Denial>)
    ensures fault == if Independent(seed, producers, reviewer) then None
                     else Some(Violation(IdentityUnavailable))
    ensures fault.None? <==>
              && reviewer.role == Reviewer
              && reviewer.family.Some? && reviewer.qualification.Some? && reviewer.capabilities != []
              && forall p :: p in producers ==>
                   && p.role == Producer
                   && p.family.Some? && p.qualification.Some? && p.capabilities != []
                   && reviewer.canonical != p.canonical && reviewer.model != p.model
                   && (seed.contract.riskTier == T2 || seed.policy.requireDifferentFamily ==>
                         reviewer.family != p.family)
  {
    if !Qualified(reviewer) || reviewer.role != Reviewer {
      return Some(Violation(IdentityUnavailable));
    }
    var familyRequired := seed.contract.riskTier == T2 || seed.policy.requireDifferentFamily;
    for i := 0 to |producers|
      invariant forall p :: p in producers[..i] ==> IndependentOf(seed, p, reviewer)
    {
      var p := producers[i];
      if !Qualified(p) || p.role != Producer
         || reviewer.canonical == p.canonical || reviewer.model == p.model
         || (familyRequired && reviewer.family == p.family)
      {
        assert p in producers && !IndependentOf(seed, p, reviewer);
        return Some(Violation(IdentityUnavailable));
      }
      assert producers[..i + 1] == producers[..i] + [p];
    }
    assert producers[..|producers|] == producers;
    return None;
  }

  method CheckSeed(h: Digests, seed: Seed) returns (fault: Option<Denial>)
    ensures fault == SeedFault(h, seed)
  {
    if !WellFormedSeed(seed) {
      return Some(ValueError);
    }
    if (seed.scope.tenant, seed.scope.workItem) != (seed.contract.tenant, seed.contract.workItem) {
      return Some(Violation(BindingMismatch));
    }
    if !ArtifactBound(h, seed, seed.initialArtifact) {
      return Some(Violation(BindingMismatch));
    }
    if seed.originalDoer !in seed.initialArtifact.producers
       || seed.originalDoer.role != Producer || !Qualified(seed.originalDoer) || seed.reviewers == []
    {
      return Some(Violation(IdentityUnavailable));
    }
    if !DistinctReviewers(h, seed.reviewers) {
      return Some(ValueError);
    }
    var reviewers := seed.reviewers;
    for i := 0 to |reviewers|
      invariant forall r :: r in reviewers[..i] ==> Independent(seed, seed.initialArtifact.producers, r)
    {
      fault := CheckIndependent(seed, seed.initialArtifact.producers, reviewers[i]);
      if fault.Some? {
        return;
      }
      assert reviewers[..i + 1] == reviewers[..i] + [reviewers[i]];
    }
    assert reviewers[..|reviewers|] == reviewers;
    return None;
  }

  method CheckReportBinding(h: Digests, seed: Seed, st: State, inv: Invocation, r: ReviewReport)
    returns (fault: Option<Denial>)
    ensures fault == ReportBindingFault(h, seed, st, inv, r)
  {
    if !(r.invocationId == inv.id && r.binding == inv.binding && r.reviewer == inv.actor) {
      return Some(Violation(BindingMismatch));
    }
    fault := CheckIndependent(seed, st.artifact.producers, r.reviewer);
    if fault.Some? {
      return;
    }
    if !DistinctFindings(h, r.findings) || !DistinctRechecks(r.rechecks) {
      return Some(ValueError);
    }
    var digest := r.binding.artifactDigest;
    for i := 0 to |r.criteria|
      invariant forall c :: c in r.criteria[..i] ==> EvidenceBound(c.evidence, digest)
    {
      if !EvidenceBound(r.criteria[i].evidence, digest) {
        return Some(Violation(MissingEvidence));
      }
      assert r.criteria[..i + 1] == r.criteria[..i] + [r.criteria[i]];
    }
    assert r.criteria[..|r.criteria|] == r.criteria;
    for i := 0 to |r.findings|
      invariant FindingsBindingFault(r.findings, digest) == FindingsBindingFault(r.findings[i..], digest)
    {
      if r.findings[i].artifactDigest != digest {
        return Some(Violation(BindingMismatch));
      }
      if !EvidenceBound(r.findings[i].evidence, digest) {
        return Some(Violation(MissingEvidence));
      }
      assert r.findings[i..][1..] == r.findings[i + 1..];
    }
    for i := 0 to |r.rechecks|
      invariant forall k :: k in r.rechecks[..i] ==> EvidenceBound(k.evidence, digest)
    {
      if !EvidenceBound(r.rechecks[i].evidence, digest) {
        return Some(Violation(MissingEvidence));
      }
      assert r.rechecks[..i + 1] == r.rechecks[..i] + [r.rechecks[i]];
    }
    assert r.rechecks[..|r.rechecks|] == r.rechecks;
    return None;
  }

  method CheckItems(seed: Seed, r: ReviewReport) returns (fault: Option<Denial>)
    ensures fault == ItemsFault(seed, r, r.criteria)
  {
    for i := 0 to |r.criteria|
      invariant ItemsFault(seed, r, r.criteria) == ItemsFault(seed, r, r.criteria[i..])
    {
      fault := ItemFault(seed, r, r.criteria[i]);
      if fault.Some? {
        return;
      }
      assert r.criteria[i..][1..] == r.criteria[i + 1..];
    }
    return None;
  }

  method CheckReport(seed: Seed, st: State, r: ReviewReport) returns (fault: Option<Denial>)
    ensures fault == ReportFault(seed, st, r)
  {
    if !Covers(seed, r) {
      return Some(Violation(IncompleteCriteria));
    }
    fault := CheckItems(seed, r);
    if fault.Some? {
      return;
    }
    for i := 0 to |r.findings|
      invariant forall f :: f in r.findings[..i] ==> InContract(seed, f.criterion) || f.kind == GapInContract
    {
      if !InContract(seed, r.findings[i].criterion) && r.findings[i].kind != GapInContract {
        return Some(Violation(Reason.ContractGap));
      }
      assert r.findings[..i + 1] == r.findings[..i] + [r.findings[i]];
    }
    assert r.findings[..|r.findings|] == r.findings;
    if r.verdict == ChangesRequired
       && !(exists f :: f in r.findings && Blocking(seed, f)) && !HasOpenBlocker(st)
    {
      return Some(Violation(UnsupportedVerdict));
    }
    return None;
  }
}
