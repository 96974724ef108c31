/** The pinned inputs, reports and ledger values of the bounded doer/reviewer
    protocol. Fields the policy never reads are collapsed into one `prose` field,
    so that equality and digests still depend on them. */
module Domain {
  import opened Basics

  datatype Identifier = Identifier(name: string)
  datatype Digest = Digest(hex: string)
  datatype Text = Text(content: string)

  /** A point in time, in clock ticks. */
  type Moment = int

  const TICKS_PER_SECOND: int := 1_000_000

  type Limit = n: nat | 0 < n witness 1
  type ReviewCount = n: nat | 2 <= n witness 2
  type RepairCap = n: nat | n <= 3 witness 0
  type FailureLimit = n: nat | 1 <= n <= 2 witness 1

  datatype Reason =
    | TimeWindow | ArtifactDrift | IdentityUnavailable | BindingMismatch | Replay
    | ReceiptUnavailable | ReceiptMismatch | AuthorizationRevoked | ExecutionInvalid | OutputLimit
    | BudgetOverrun | InvocationLimit | TokenLimit | CostLimit | RepairLimit | ReviewLimit
    | RepeatedFailure | NoProgress | CriticalStop | ContractGap | ContextGap | ReviewEscalated
    | MalformedReport | IncompleteCriteria | MissingEvidence | InvalidClosure | InvalidRepair
    | UnsupportedVerdict | MandatoryCriteria | MinReviews | UnreviewedArtifact | OpenBlockers
    | PendingCall

  /** A raised `ReviewViolation`, or any other `ValueError`. */
  datatype Denial = Violation(reason: Reason) | ValueError

  type Outcome<T> = Result<T, Denial>

  datatype Scope = Scope(tenant: Identifier, workItem: Identifier, session: Identifier)

  datatype PinnedReference = PinnedReference(name: Identifier, digest: Digest)

  datatype Criterion = Criterion(
    id: Identifier, mandatory: bool, requiredEvidence: seq<Identifier>, prose: Text)

  datatype RiskTier = T0 | T1 | T2

  datatype Contract = Contract(
    tenant: Identifier, workItem: Identifier, criteria: seq<Criterion>,
    artifactScope: seq<Identifier>, riskTier: RiskTier, prose: Text)

  datatype Policy = Policy(
    minReviews: ReviewCount, maxReviews: ReviewCount, maxRepairs: RepairCap,
    sameFailureLimit: FailureLimit, maxInvocations: Limit, maxTokens: Limit, maxCost: Limit,
    maxSeconds: Limit, requireDifferentFamily: bool, version: Identifier)

  datatype Role = Producer | Reviewer

  datatype Model = Model(
    provider: Identifier, model: Identifier, canonical: Identifier, family: Option<Identifier>,
    qualification: Option<Digest>, capabilities: seq<Digest>, role: Role)

  datatype Artifact = Artifact(
    scope: Scope, key: Identifier, payload: Digest, producers: seq<Model>,
    contractDigest: Digest, contextDigest: Digest,
    inputs: seq<PinnedReference>, buildRefs: seq<PinnedReference>)

  datatype Binding = Binding(
    scope: Scope, artifactDigest: Digest, contractDigest: Digest, contextDigest: Digest)

  datatype Usage = Usage(tokens: nat, cost: nat)

  datatype Reservation = Reservation(tokens: Limit, cost: nat, seconds: Limit)

  datatype Evidence = Evidence(id: Identifier, digest: Digest, artifactDigest: Digest, prose: Text)

  datatype Disposition = Pass | Fail | Unknown | NotApplicable

  datatype Verdict = Accept | ChangesRequired | Escalate | ContextGapVerdict | ContractGapVerdict

  datatype CriterionResult = CriterionResult(
    criterion: Identifier, status: Disposition, evidence: seq<Evidence>)

  datatype Severity = Low | Medium | High | Critical

  datatype FindingKind = Defect | EvidenceGap | Advisory | GapInContract

  datatype Finding = Finding(
    criterion: Identifier, behavior: Identifier, cause: Identifier, severity: Severity,
    kind: FindingKind, artifactDigest: Digest, evidence: seq<Evidence>, requiredRecheck: Text,
    prose: Text)

  datatype ResolutionKind = Fixed | RejectedWithEvidence | DeferredAdvisory

  datatype Resolution = Resolution(
    fingerprint: Digest, reportDigest: Digest, disposition: ResolutionKind,
    evidence: seq<Evidence>, prose: Text)

  datatype RecheckStatus = RecheckPass | RecheckFail | RecheckUnknown

  datatype Recheck = Recheck(
    fingerprint: Digest, resolutionDigest: Digest, status: RecheckStatus,
    evidence: seq<Evidence>, check: Text)

  datatype ReviewReport = ReviewReport(
    invocationId: Identifier, binding: Binding, reviewer: Model, complete: bool,
    criteria: seq<CriterionResult>, findings: seq<Finding>, rechecks: seq<Recheck>,
    verdict: Verdict, prose: Text)

  datatype RepairReport = RepairReport(
    invocationId: Identifier, binding: Binding, producer: Model, artifact: Artifact,
    resolutions: seq<Resolution>)

  /** Delivered text, and what it parses to under the two report schemas. */
  datatype Output =
    | ReviewText(text: Text, review: ReviewReport)
    | RepairText(text: Text, repair: RepairReport)
    | OtherText(text: Text)

  datatype Kind = Review | Repair

  datatype Invocation = Invocation(
    id: Identifier, kind: Kind, binding: Binding, actor: Model,
    reservation: Reservation, startedAt: Moment)

  datatype Receipt = Receipt(
    binding: Binding, invocationId: Identifier, executionId: Identifier, actualModel: Model,
    usage: Usage, cached: bool)

  datatype ExecutionStop = Drifted | TimedOut | Revoked | InvalidExecution | Oversized

  datatype Completion = Completion(
    invocationId: Identifier, finishedAt: Moment, receipt: Option<Receipt>,
    output: Option<Output>, stop: Option<ExecutionStop>)

  datatype Attempt = Attempt(invocation: Invocation, completion: Option<Completion>)

  datatype FindingRecord = FindingRecord(
    finding: Finding, reportDigest: Digest, blocking: bool, occurrences: nat,
    closedBy: Option<Digest>, closedArtifact: Option<Digest>)
  {
    predicate Open() {
      closedBy.None?
    }

    predicate OpenBlocker() {
      Open() && blocking
    }
  }

  datatype ResolutionRecord = ResolutionRecord(
    resolution: Resolution, repairInvocation: Identifier, artifactDigest: Digest, producer: Model)

  datatype Budget = Budget(
    invocations: nat, repairs: nat, tokensSpent: nat, costSpent: nat,
    tokensReserved: nat, costReserved: nat)

  datatype Seed = Seed(
    scope: Scope, contract: Contract, policy: Policy, originalDoer: Model, reviewers: seq<Model>,
    initialArtifact: Artifact, startedAt: Moment)

  /** The materialized state. `findings` is the original's tuple of records sorted by
      unique fingerprint, held as a map; `failures` likewise. */
  datatype State = State(
    artifact: Artifact, lastAt: Moment, budget: Budget, pending: Option<Invocation>,
    invocationIds: seq<Identifier>, executionIds: seq<Digest>, reports: seq<ReviewReport>,
    findings: map<Digest, FindingRecord>, resolutions: seq<ResolutionRecord>,
    failures: map<Reason, nat>, terminal: seq<Reason>)

  datatype Session = Session(seed: Seed, attempts: seq<Attempt>, state: State)

  /** Content addressing and encoding, as arbitrary total functions. Nothing proved
      here assumes that two different values have different digests. */
  datatype Digests = Digests(
    artifact: Artifact -> Digest,
    contract: Contract -> Digest,
    model: Model -> Digest,
    report: ReviewReport -> Digest,
    resolution: Resolution -> Digest,
    seed: Seed -> Digest,
    session: Session -> Digest,
    fingerprint: (Identifier, Identifier, Identifier) -> Digest,
    execution: (Identifier, Identifier) -> Digest,
    bytes: Session -> nat)

  function BindingOf(h: Digests, a: Artifact): Binding {
    Binding(a.scope, h.artifact(a), a.contractDigest, a.contextDigest)
  }

  /** The derived identity of a case: severity, wording and location do not enter. */
  function Fingerprint(h: Digests, f: Finding): Digest {
    h.fingerprint(f.criterion, f.behavior, f.cause)
  }

  function ExecutionKey(h: Digests, r: Receipt): Digest {
    h.execution(r.actualModel.provider, r.executionId)
  }

  function StopReason(stop: ExecutionStop): Reason {
    match stop
    case Drifted => ArtifactDrift
    case TimedOut => TimeWindow
    case Revoked => AuthorizationRevoked
    case InvalidExecution => ExecutionInvalid
    case Oversized => OutputLimit
  }

  /** Schema constraints on a contract that later rules rely on. */
  predicate WellFormedContract(c: Contract) {
    && (forall i, j :: 0 <= i < j < |c.criteria| ==> c.criteria[i].id != c.criteria[j].id)
    && (exists q :: q in c.criteria && q.mandatory)
    && Distinct(c.artifactScope)
  }

  predicate WellFormedArtifact(a: Artifact) {
    && a.producers != []
    && (forall i, j :: 0 <= i < j < |a.producers| ==> a.producers[i].canonical != a.producers[j].canonical)
    && (forall p :: p in a.producers ==> p.role == Producer)
  }

  predicate WellFormedSeed(seed: Seed) {
    && WellFormedContract(seed.contract)
    && seed.policy.minReviews <= seed.policy.maxReviews
    && WellFormedArtifact(seed.initialArtifact)
  }

  predicate WellFormedReport(r: ReviewReport) {
    && (forall c :: c in r.criteria ==>
          forall i, j :: 0 <= i < j < |c.evidence| ==> c.evidence[i].id != c.evidence[j].id)
    && (forall f :: f in r.findings ==> f.evidence != [])
    && (forall k :: k in r.rechecks ==> k.evidence != [])
  }

  predicate WellFormedRepair(r: RepairReport) {
    && WellFormedArtifact(r.artifact)
    && r.resolutions != []
    && (forall n :: n in r.resolutions ==> n.evidence != [])
  }

  /** `ReviewReport.model_validate_json`: text outside the schema does not parse. */
  function ParseReview(output: Output): Option<ReviewReport> {
    if output.ReviewText? && WellFormedReport(output.review) then Some(output.review) else None
  }

  /** `RepairReport.model_validate_json`. */
  function ParseRepair(output: Output): Option<RepairReport> {
    if output.RepairText? && WellFormedRepair(output.repair) then Some(output.repair) else None
  }
}
