/** When an attempt earns credit, spelled on the fields of its call, its delivery and the state before
    it. The definitions here are independent of the reducer's checks; the theorems say they agree. */
module Credit {
  import opened Basics
  import opened Domain
  import opened Rules
  import opened Findings
  import opened Reducer
  import opened Ledger
  import opened Invariants
  import opened Runs
  import opened Accounting

  // The delivery.

  /** Delivered inside its own hold, without a runtime stop, on a fresh receipt that does not overrun. */
  predicate Delivered(h: Digests, ledger: seq<Attempt>, a: Attempt) {
    && a.completion.Some?
    && var inv, c := a.invocation, a.completion.value;
       && c.stop.None?
       && inv.startedAt <= c.finishedAt < inv.startedAt + inv.reservation.seconds * TICKS_PER_SECOND
       && TrustedReceipt(h, ledger, a)
       && ReceiptOf(a).usage.tokens <= inv.reservation.tokens
       && ReceiptOf(a).usage.cost <= inv.reservation.cost
  }

  lemma AccountIff(h: Digests, ledger: seq<Attempt>, seen: seq<Digest>, inv: Invocation, c: Completion)
    requires forall key :: key in seen <==> SeenIn(h, ledger, key)
    ensures var a := Attempt(inv, Some(c));
            AccountFault(h, seen, inv, c).None?
            <==> TrustedReceipt(h, ledger, a) && ReceiptOf(a).usage.tokens <= inv.reservation.tokens
                 && ReceiptOf(a).usage.cost <= inv.reservation.cost
  {
    ChargeAgrees(h, ledger, seen, inv, c);
  }

  /** The reservation already fits the policy window, so only the hold can be missed. */
  lemma TimeIff(h: Digests, seed: Seed, st: State, inv: Invocation, c: Completion)
    requires ReserveFault(h, seed, st, inv).None?
    ensures InTime(seed, Held(st, inv), inv, c)
            <==> inv.startedAt <= c.finishedAt < inv.startedAt + inv.reservation.seconds * TICKS_PER_SECOND
  {
  }

  // The report.

  predicate ObservedOn(evidence: seq<Evidence>, artifactDigest: Digest) {
    forall e :: e in evidence ==> e.artifactDigest == artifactDigest
  }

  /** Signed for exactly this call, each case once, and everything observed on the bound artifact. */
  predicate Bound(h: Digests, inv: Invocation, r: ReviewReport) {
    && r.invocationId == inv.id && r.binding == inv.binding && r.reviewer == inv.actor
    && (forall i, j :: 0 <= i < j < |r.findings| ==>
          h.fingerprint(r.findings[i].criterion, r.findings[i].behavior, r.findings[i].cause)
          != h.fingerprint(r.findings[j].criterion, r.findings[j].behavior, r.findings[j].cause))
    && (forall i, j :: 0 <= i < j < |r.rechecks| ==> r.rechecks[i].fingerprint != r.rechecks[j].fingerprint)
    && (forall item :: item in r.criteria ==> ObservedOn(item.evidence, r.binding.artifactDigest))
    && (forall f :: f in r.findings ==>
          f.artifactDigest == r.binding.artifactDigest && ObservedOn(f.evidence, r.binding.artifactDigest))
    && (forall k :: k in r.rechecks ==> ObservedOn(k.evidence, r.binding.artifactDigest))
  }

  lemma BoundIff(h: Digests, seed: Seed, st: State, inv: Invocation, r: ReviewReport)
    requires Independent(seed, st.artifact.producers, inv.actor)
    ensures ReportBindingFault(h, seed, st, inv, r).None? <==> Bound(h, inv, r)
  {
  }

  /** A finding blocks unless it is a low advisory on a declared optional criterion. */
  predicate MustBlock(contract: Contract, f: Finding) {
    !(f.kind == Advisory && f.severity == Low
      && exists c :: c in contract.criteria && c.id == f.criterion && !c.mandatory)
  }

  lemma BlockingIff(seed: Seed, f: Finding)
    requires WellFormedContract(seed.contract)
    ensures Blocking(seed, f) <==> MustBlock(seed.contract, f)
  {
    var criteria := seed.contract.criteria;
    var found := FindCriterion(criteria, f.criterion);
    if c :| c in criteria && c.id == f.criterion {
      var i :| 0 <= i < |criteria| && criteria[i] == c;
      var j :| 0 <= j < |criteria| && criteria[j] == found.value;
      assert criteria[i].id == criteria[j].id;
    }
  }

  predicate Judged(c: Criterion, r: ReviewReport, item: CriterionResult) {
    && item.criterion == c.id
    && (item.status == Pass ==>
          forall id :: id in c.requiredEvidence ==> exists e :: e in item.evidence && e.id == id)
    && (c.mandatory ==> item.status != NotApplicable)
    && (c.mandatory && item.status == Fail ==> exists f :: f in r.findings && f.criterion == c.id)
  }

  predicate Declared(contract: Contract, id: Identifier) {
    exists c :: c in contract.criteria && c.id == id
  }

  predicate HasJudgement(contract: Contract, r: ReviewReport, item: CriterionResult) {
    exists c :: c in contract.criteria && Judged(c, r, item)
  }

  predicate Answered(r: ReviewReport, c: Criterion) {
    exists item :: item in r.criteria && item.criterion == c.id
  }

  /** Complete, with one sound disposition for every contract criterion and no other. */
  predicate Disposed(contract: Contract, r: ReviewReport) {
    && r.complete
    && (forall i, j :: 0 <= i < j < |r.criteria| ==> r.criteria[i].criterion != r.criteria[j].criterion)
    && (forall item :: item in r.criteria ==> HasJudgement(contract, r, item))
    && (forall c :: c in contract.criteria ==> Answered(r, c))
  }

  /** Findings outside the contract are reported as gaps. */
  predicate Grounded(contract: Contract, r: ReviewReport) {
    forall f :: f in r.findings ==> f.kind == GapInContract || Declared(contract, f.criterion)
  }

  /** Changes are only asked for where something blocks. */
  predicate Supported(contract: Contract, findings: map<Digest, FindingRecord>, r: ReviewReport) {
    r.verdict == ChangesRequired ==>
      || (exists f :: f in r.findings && MustBlock(contract, f))
      || (exists fp :: fp in findings && findings[fp].closedBy.None? && findings[fp].blocking)
  }

  predicate Inspected(contract: Contract, findings: map<Digest, FindingRecord>, r: ReviewReport) {
    Disposed(contract, r) && Grounded(contract, r) && Supported(contract, findings, r)
  }

  lemma ItemIff(seed: Seed, r: ReviewReport, item: CriterionResult)
    requires WellFormedContract(seed.contract)
    ensures InContract(seed, item.criterion) && ItemFault(seed, r, item).None?
            <==> HasJudgement(seed.contract, r, item)
  {
    var criteria := seed.contract.criteria;
    var found := FindCriterion(criteria, item.criterion);
    if found.Some? {
      assert found.value in criteria;
      assert ItemFault(seed, r, item).None? <==> Judged(found.value, r, item);
      forall c | c in criteria && c.id == item.criterion ensures c == found.value {
        var i :| 0 <= i < |criteria| && criteria[i] == c;
        var j :| 0 <= j < |criteria| && criteria[j] == found.value;
        assert criteria[i].id == criteria[j].id;
      }
    }
  }

  lemma DisposedIff(seed: Seed, r: ReviewReport)
    requires WellFormedContract(seed.contract)
    ensures Covers(seed, r) && ItemsFault(seed, r, r.criteria).None? <==> Disposed(seed.contract, r)
  {
    forall item | item in r.criteria
      ensures InContract(seed, item.criterion) && ItemFault(seed, r, item).None?
              <==> HasJudgement(seed.contract, r, item)
    {
      ItemIff(seed, r, item);
    }
    forall c | c in seed.contract.criteria
      ensures Answered(r, c) <==> exists item :: item in r.criteria && item.criterion == c.id
    {
    }
  }

  lemma GroundedIff(seed: Seed, r: ReviewReport)
    ensures Grounded(seed.contract, r)
            <==> forall f :: f in r.findings ==> InContract(seed, f.criterion) || f.kind == GapInContract
  {
    forall f | f in r.findings ensures Declared(seed.contract, f.criterion) <==> InContract(seed, f.criterion) {
    }
  }

  lemma SupportedIff(seed: Seed, st: State, r: ReviewReport)
    requires WellFormedContract(seed.contract)
    ensures Supported(seed.contract, st.findings, r)
            <==> (r.verdict == ChangesRequired ==>
                    (exists f :: f in r.findings && Blocking(seed, f)) || HasOpenBlocker(st))
  {
    forall f | f in r.findings ensures Blocking(seed, f) <==> MustBlock(seed.contract, f) {
      BlockingIff(seed, f);
    }
  }

  lemma InspectedIff(seed: Seed, st: State, r: ReviewReport)
    requires WellFormedContract(seed.contract)
    ensures ReportFault(seed, st, r).None? <==> Inspected(seed.contract, st.findings, r)
  {
    DisposedIff(seed, r);
    GroundedIff(seed, r);
    SupportedIff(seed, st, r);
  }

  // The closures.

  /** Position `i` holds the latest repair of the case. */
  predicate LatestAt(ms: seq<ResolutionRecord>, fp: Digest, i: nat) {
    && i < |ms| && ms[i].resolution.fingerprint == fp
    && forall j :: i < j < |ms| ==> ms[j].resolution.fingerprint != fp
  }

  /** The recheck answers the latest repair of an open case, made for that report of it and for this
      very artifact; a PASS needs the case unreported and, if it blocks, its criterion passed. */
  predicate RechecksLatest(h: Digests, st: State, r: ReviewReport, k: Recheck) {
    && k.fingerprint in st.findings
    && var rec := st.findings[k.fingerprint];
       && rec.closedBy.None?
       && k.check == rec.finding.requiredRecheck
       && (exists i :: 0 <= i < |st.resolutions| && LatestAt(st.resolutions, k.fingerprint, i)
                    && h.resolution(st.resolutions[i].resolution) == k.resolutionDigest
                    && st.resolutions[i].resolution.reportDigest == rec.reportDigest
                    && st.resolutions[i].artifactDigest == r.binding.artifactDigest)
       && (k.status == RecheckPass ==>
             && (forall f :: f in r.findings ==> h.fingerprint(f.criterion, f.behavior, f.cause) != k.fingerprint)
             && (rec.blocking ==>
                   exists c :: c in r.criteria && c.criterion == rec.finding.criterion && c.status == Pass))
  }

  lemma {:induction false} LastIsLatest(ms: seq<ResolutionRecord>, fp: Digest, i: nat)
    requires LatestAt(ms, fp, i)
    ensures LastResolution(ms, fp) == Some(ms[i])
    decreases |ms|
  {
    if i < |ms| - 1 {
      assert ms[|ms| - 1].resolution.fingerprint != fp;
      LastIsLatest(ms[..|ms| - 1], fp, i);
    }
  }

  lemma {:induction false} LatestExists(ms: seq<ResolutionRecord>, fp: Digest) returns (i: nat)
    requires LastResolution(ms, fp).Some?
    ensures LatestAt(ms, fp, i)
    decreases |ms|
  {
    if ms[|ms| - 1].resolution.fingerprint == fp {
      i := |ms| - 1;
    } else {
      i := LatestExists(ms[..|ms| - 1], fp);
      assert ms[..|ms| - 1][i] == ms[i];
    }
  }

  lemma RecheckIff(h: Digests, st: State, r: ReviewReport, k: Recheck)
    ensures RecheckValid(h, st, r, k) <==> RechecksLatest(h, st, r, k)
  {
    if LastResolution(st.resolutions, k.fingerprint).Some? {
      var i := LatestExists(st.resolutions, k.fingerprint);
      LastIsLatest(st.resolutions, k.fingerprint, i);
      forall j: nat | LatestAt(st.resolutions, k.fingerprint, j) ensures j == i {
        LastIsLatest(st.resolutions, k.fingerprint, j);
      }
    } else {
      forall j: nat | LatestAt(st.resolutions, k.fingerprint, j) ensures false {
        LastIsLatest(st.resolutions, k.fingerprint, j);
      }
    }
  }

  predicate Closable(h: Digests, st: State, r: ReviewReport) {
    forall k :: k in r.rechecks ==> RechecksLatest(h, st, r, k)
  }

  lemma ClosableIff(h: Digests, seed: Seed, st: State, r: ReviewReport)
    ensures ReconcileFindings(h, seed, st, r).Ok? <==> Closable(h, st, r)
  {
    forall k | k in r.rechecks ensures RecheckValid(h, st, r, k) <==> RechecksLatest(h, st, r, k) {
      RecheckIff(h, st, r, k);
    }
  }

  // A review.

  predicate EarnsReview(h: Digests, seed: Seed, st: State, inv: Invocation, r: ReviewReport) {
    Bound(h, inv, r) && Inspected(seed.contract, st.findings, r) && Closable(h, st, r)
  }

  lemma JudgesReport(h: Digests, seed: Seed, st: State, inv: Invocation, text: Text, r: ReviewReport)
    requires WellFormedReport(r)
    ensures var j := JudgeReview(h, seed, st, inv, Some(ReviewText(text, r)));
            if ReportBindingFault(h, seed, st, inv, r).Some? then j.Rejected?
            else if ReportFault(seed, st, r).Some? || ReconcileFindings(h, seed, st, r).Err?
            then j.RejectedBound? && j.report == r
            else j == Reviewed(r)
  {
  }

  lemma ReviewIff(h: Digests, seed: Seed, st: State, inv: Invocation, output: Option<Output>)
    requires WellFormedContract(seed.contract) && Independent(seed, st.artifact.producers, inv.actor)
    ensures var j := JudgeReview(h, seed, st, inv, output);
            var text := if output.None? then None else ParseReview(output.value);
            && !j.Repaired?
            && (j.Reviewed? <==> text.Some? && EarnsReview(h, seed, st, inv, text.value))
            && (j.Reviewed? ==> j.report == text.value)
            && (j.RejectedBound? <==>
                  text.Some? && Bound(h, inv, text.value) && !EarnsReview(h, seed, st, inv, text.value))
            && (j.RejectedBound? ==> j.report == text.value)
  {
    if output.Some? && ParseReview(output.value).Some? {
      var r := ParseReview(output.value).value;
      BoundIff(h, seed, st, inv, r);
      InspectedIff(seed, st, r);
      ClosableIff(h, seed, st, r);
      JudgesReport(h, seed, st, inv, output.value.text, r);
    }
  }

  lemma SameChecks(h: Digests, seed: Seed, st: State, acc: State, inv: Invocation, r: ReviewReport)
    requires acc.findings == st.findings && acc.resolutions == st.resolutions
    ensures EarnsReview(h, seed, acc, inv, r) <==> EarnsReview(h, seed, st, inv, r)
  {
    forall k | k in r.rechecks ensures RechecksLatest(h, acc, r, k) <==> RechecksLatest(h, st, r, k) {
    }
  }

  /** The delivered text as a report; `None` when there is none or it does not parse. */
  function ReviewIn(a: Attempt): Option<ReviewReport> {
    if a.completion.None? || a.completion.value.output.None? then None
    else ParseReview(a.completion.value.output.value)
  }

  function RepairIn(a: Attempt): Option<RepairReport> {
    if a.completion.None? || a.completion.value.output.None? then None
    else ParseRepair(a.completion.value.output.value)
  }

  lemma JudgeDelivered(h: Digests, seed: Seed, ledger: seq<Attempt>, st: State, inv: Invocation, c: Completion)
    requires ReserveFault(h, seed, st, inv).None? && ExecutionsKept(h, ledger, st)
    ensures var held := Held(st, inv);
            var j := Judge(h, seed, held, inv, c);
            var acc := Accounted(h, held, inv, c);
            if Delivered(h, ledger, Attempt(inv, Some(c)))
            then j == if inv.kind == Review then JudgeReview(h, seed, acc, inv, c.output)
                      else JudgeRepair(h, seed, acc, inv, c.output)
            else j.Rejected?
  {
    TimeIff(h, seed, st, inv, c);
    AccountIff(h, ledger, Held(st, inv).executionIds, inv, c);
  }

  /** The judgement of a review call, on fields: credited, or bound but uncredited, or neither. */
  lemma StepReviewIff(h: Digests, seed: Seed, ledger: seq<Attempt>, st: State, a: Attempt)
    requires ReserveFault(h, seed, st, a.invocation).None? && ExecutionsKept(h, ledger, st)
    requires WellFormedContract(seed.contract) && a.completion.Some? && a.invocation.kind == Review
    ensures var j := StepJudgement(h, seed, st, a);
            && j.Some? && !j.value.Repaired?
            && (j.value.Reviewed? <==>
                  && Delivered(h, ledger, a) && ReviewIn(a).Some?
                  && EarnsReview(h, seed, st, a.invocation, ReviewIn(a).value))
            && (j.value.RejectedBound? <==>
                  Delivered(h, ledger, a) && ReviewIn(a).Some? && Bound(h, a.invocation, ReviewIn(a).value)
                  && !EarnsReview(h, seed, st, a.invocation, ReviewIn(a).value))
            && (j.value.Reviewed? || j.value.RejectedBound? ==> Some(j.value.report) == ReviewIn(a))
  {
    var inv, c := a.invocation, a.completion.value;
    var acc := Accounted(h, Held(st, inv), inv, c);
    assert a == Attempt(inv, Some(c));
    ReservePending(h, seed, st, inv);
    JudgeDelivered(h, seed, ledger, st, inv, c);
    ReviewIff(h, seed, acc, inv, c.output);
    if ReviewIn(a).Some? {
      SameChecks(h, seed, st, acc, inv, ReviewIn(a).value);
    }
  }

  /** What the step at `k` of a valid ledger starts from. */
  lemma LedgerStep(h: Digests, seed: Seed, attempts: seq<Attempt>, k: nat)
    requires ValidLedger(h, seed, attempts) && k < |attempts|
    ensures ValidLedger(h, seed, attempts[..k]) && ValidLedger(h, seed, attempts[..k + 1])
    ensures var st, t := StateOf(h, seed, attempts[..k]), StateOf(h, seed, attempts[..k + 1]);
            && Step(h, seed, st, attempts[k]) == Ok(t)
            && ReserveFault(h, seed, st, attempts[k].invocation).None?
            && ExecutionsKept(h, attempts[..k], st)
            && Judgements(h, seed, attempts)[k] == StepJudgement(h, seed, st, attempts[k])
    ensures WellFormedSeed(seed)
  {
    StepAt(h, seed, attempts, k);
    JudgementAt(h, seed, attempts, k);
    StepAdmitted(h, seed, StateOf(h, seed, attempts[..k]), attempts[k], StateOf(h, seed, attempts[..k + 1]));
    LedgerExecutions(h, seed, attempts[..k]);
    LedgerSeed(h, seed, attempts);
  }

  lemma StepReports(h: Digests, seed: Seed, st: State, a: Attempt, t: State)
    requires Step(h, seed, st, a) == Ok(t)
    ensures var j := StepJudgement(h, seed, st, a);
            && t.reports == (if IsReviewed(j) then st.reports + [j.value.report] else st.reports)
            && t.artifact == (if IsRepaired(j) then j.value.repair.artifact else st.artifact)
            && t.resolutions == (if IsRepaired(j)
                                 then st.resolutions
                                      + ResolutionRecords(h, a.invocation, j.value.repair, j.value.repair.resolutions)
                                 else st.resolutions)
  {
    StepAdmitted(h, seed, st, a, t);
    if a.completion.Some? {
      var held, c := Held(st, a.invocation), a.completion.value;
      StepSettles(h, seed, st, a, t);
      SettledFacts(h, seed, held, a.invocation, c, Judge(h, seed, held, a.invocation, c));
    }
  }

  /** A review call is credited exactly when it is delivered as held, its report binds, inspects the
      whole contract and closes nothing improperly; it then adds exactly that report. */
  lemma CreditedReviewIff(h: Digests, seed: Seed, attempts: seq<Attempt>, k: nat)
    requires ValidLedger(h, seed, attempts) && k < |attempts|
    requires attempts[k].invocation.kind == Review && attempts[k].completion.Some?
    ensures ValidLedger(h, seed, attempts[..k]) && ValidLedger(h, seed, attempts[..k + 1])
    ensures var st, t, r := StateOf(h, seed, attempts[..k]), StateOf(h, seed, attempts[..k + 1]), ReviewIn(attempts[k]);
            if Delivered(h, attempts[..k], attempts[k]) && r.Some?
               && EarnsReview(h, seed, st, attempts[k].invocation, r.value)
            then t.reports == st.reports + [r.value] else t.reports == st.reports
    ensures IsReviewed(Judgements(h, seed, attempts)[k])
            <==> StateOf(h, seed, attempts[..k + 1]).reports != StateOf(h, seed, attempts[..k]).reports
  {
    LedgerStep(h, seed, attempts, k);
    var st, t := StateOf(h, seed, attempts[..k]), StateOf(h, seed, attempts[..k + 1]);
    StepReviewIff(h, seed, attempts[..k], st, attempts[k]);
    StepReports(h, seed, st, attempts[k], t);
  }

  // A repair.

  predicate SameUnit(a: Artifact, b: Artifact) {
    && a.scope == b.scope && a.key == b.key && a.producers == b.producers
    && a.contractDigest == b.contractDigest && a.contextDigest == b.contextDigest
  }

  /** Signed by the original doer for exactly this call, for another state of the same unit. */
  predicate RepairBound(seed: Seed, st: State, inv: Invocation, r: RepairReport) {
    && r.invocationId == inv.id && r.binding == inv.binding && r.producer == seed.originalDoer
    && SameUnit(r.artifact, st.artifact)
  }

  /** Each open blocker is answered, each answer names a different open case. */
  predicate RepairCovers(st: State, r: RepairReport) {
    && (forall i, j :: 0 <= i < j < |r.resolutions| ==> r.resolutions[i].fingerprint != r.resolutions[j].fingerprint)
    && (forall fp :: fp in st.findings && st.findings[fp].closedBy.None? && st.findings[fp].blocking ==>
          exists n :: n in r.resolutions && n.fingerprint == fp)
    && (forall n :: n in r.resolutions ==> n.fingerprint in st.findings && st.findings[n.fingerprint].closedBy.None?)
  }

  predicate Moved(a: Artifact, b: Artifact) {
    a.payload != b.payload || a.inputs != b.inputs || a.buildRefs != b.buildRefs
  }

  predicate CitesNew(n: Resolution, rec: FindingRecord) {
    exists e :: e in n.evidence && forall g :: g in rec.finding.evidence ==> g.digest != e.digest
  }

  /** The answer cites the standing report and observes the repaired artifact; a blocker is not
      deferred, a fix changes the artifact, a rejection cites evidence the finding does not have. */
  predicate Answers(h: Digests, st: State, r: RepairReport, n: Resolution)
    requires n.fingerprint in st.findings
  {
    var rec := st.findings[n.fingerprint];
    && n.reportDigest == rec.reportDigest
    && ObservedOn(n.evidence, h.artifact(r.artifact))
    && (rec.blocking ==> n.disposition != DeferredAdvisory)
    && (n.disposition == Fixed ==> Moved(r.artifact, st.artifact))
    && (n.disposition == RejectedWithEvidence ==> CitesNew(n, rec))
  }

  predicate EarnsRepair(h: Digests, seed: Seed, st: State, inv: Invocation, r: RepairReport) {
    && RepairBound(seed, st, inv, r) && RepairCovers(st, r)
    && forall n :: n in r.resolutions ==> Answers(h, st, r, n)
  }

  /** Which reason a single unsound answer is refused with; the first deficiency decides. */
  function AnswerRefusal(h: Digests, st: State, r: RepairReport, n: Resolution): Reason
    requires n.fingerprint in st.findings
  {
    var rec := st.findings[n.fingerprint];
    if n.reportDigest != rec.reportDigest then InvalidRepair
    else if exists e :: e in n.evidence && e.artifactDigest != h.artifact(r.artifact) then MissingEvidence
    else if rec.blocking && n.disposition == DeferredAdvisory then InvalidRepair
    else NoProgress
  }

  lemma AnswerIff(h: Digests, st: State, r: RepairReport, n: Resolution)
    requires n.fingerprint in st.findings
    ensures ResolutionFault(h, st, r, n)
         == if Answers(h, st, r, n) then None else Some(Violation(AnswerRefusal(h, st, r, n)))
  {
    var rec := st.findings[n.fingerprint];
    assert DigestsOf(n.evidence) <= DigestsOf(rec.finding.evidence) <==> !CitesNew(n, rec) by {
      if CitesNew(n, rec) {
        var e :| e in n.evidence && forall g :: g in rec.finding.evidence ==> g.digest != e.digest;
        assert e.digest in DigestsOf(n.evidence) && e.digest !in DigestsOf(rec.finding.evidence);
      } else {
        forall d | d in DigestsOf(n.evidence) ensures d in DigestsOf(rec.finding.evidence) {
          var e :| e in n.evidence && e.digest == d;
        }
      }
    }
  }

  lemma CoversIff(st: State, r: RepairReport)
    ensures RepairCovers(st, r) <==>
              && DistinctResolutions(r.resolutions)
              && !(exists fp :: fp in st.findings && st.findings[fp].OpenBlocker() && !Proposes(r.resolutions, fp))
              && !(exists n :: n in r.resolutions
                            && !(n.fingerprint in st.findings && st.findings[n.fingerprint].Open()))
  {
    forall fp ensures Proposes(r.resolutions, fp) <==> exists n :: n in r.resolutions && n.fingerprint == fp {
    }
  }

  lemma RepairBoundIff(h: Digests, seed: Seed, st: State, inv: Invocation, r: RepairReport)
    requires LineageKept(h, seed, st) && inv.actor == seed.originalDoer
    ensures RepairBound(seed, st, inv, r) <==>
              && r.invocationId == inv.id && r.binding == inv.binding
              && r.producer == seed.originalDoer && seed.originalDoer == inv.actor
              && ArtifactBound(h, seed, r.artifact)
              && r.artifact.key == st.artifact.key && r.artifact.producers == st.artifact.producers
  {
  }

  lemma RepairIff(h: Digests, seed: Seed, st: State, inv: Invocation, r: RepairReport)
    requires LineageKept(h, seed, st) && inv.actor == seed.originalDoer
    ensures RepairFault(h, seed, st, inv, r).None? <==> EarnsRepair(h, seed, st, inv, r)
  {
    RepairBoundIff(h, seed, st, inv, r);
    CoversIff(st, r);
    if RepairCovers(st, r) {
      forall n | n in r.resolutions ensures ResolutionFault(h, st, r, n).None? <==> Answers(h, st, r, n) {
        AnswerIff(h, st, r, n);
      }
    }
  }

  lemma SameAnswers(h: Digests, seed: Seed, st: State, acc: State, inv: Invocation, r: RepairReport)
    requires acc.findings == st.findings && acc.artifact == st.artifact
    ensures EarnsRepair(h, seed, acc, inv, r) <==> EarnsRepair(h, seed, st, inv, r)
  {
    if RepairCovers(st, r) {
      forall n | n in r.resolutions ensures Answers(h, acc, r, n) <==> Answers(h, st, r, n) {
      }
    }
  }

  lemma JudgesFix(h: Digests, seed: Seed, st: State, inv: Invocation, output: Option<Output>)
    ensures var j := JudgeRepair(h, seed, st, inv, output);
            var text := if output.None? then None else ParseRepair(output.value);
            && (j.Repaired? || j.Rejected?)
            && (j.Repaired? <==> text.Some? && RepairFault(h, seed, st, inv, text.value).None?)
            && (j.Repaired? ==> j.repair == text.value)
  {
  }

  lemma StepRepairIff(h: Digests, seed: Seed, ledger: seq<Attempt>, st: State, a: Attempt)
    requires ReserveFault(h, seed, st, a.invocation).None? && ExecutionsKept(h, ledger, st)
    requires LineageKept(h, seed, st) && a.completion.Some? && a.invocation.kind == Repair
    ensures var j := StepJudgement(h, seed, st, a);
            && j.Some? && (j.value.Repaired? || j.value.Rejected?)
            && (j.value.Repaired? <==>
                  && Delivered(h, ledger, a) && RepairIn(a).Some?
                  && EarnsRepair(h, seed, st, a.invocation, RepairIn(a).value))
            && (j.value.Repaired? ==> Some(j.value.repair) == RepairIn(a))
  {
    var inv, c := a.invocation, a.completion.value;
    var acc := Accounted(h, Held(st, inv), inv, c);
    assert a == Attempt(inv, Some(c));
    ReservePending(h, seed, st, inv);
    JudgeDelivered(h, seed, ledger, st, inv, c);
    JudgesFix(h, seed, acc, inv, c.output);
    if RepairIn(a).Some? {
      RepairIff(h, seed, acc, inv, RepairIn(a).value);
      SameAnswers(h, seed, st, acc, inv, RepairIn(a).value);
    }
  }

  lemma LedgerLineage(h: Digests, seed: Seed, attempts: seq<Attempt>)
    requires ValidLedger(h, seed, attempts)
    ensures LineageKept(h, seed, StateOf(h, seed, attempts))
  {
    LedgerSound(h, seed, attempts);
  }

  /** What a credited repair records for each of its answers. */
  predicate RecordsAnswer(h: Digests, inv: Invocation, r: RepairReport, n: Resolution, m: ResolutionRecord) {
    && m.resolution == n && m.repairInvocation == inv.id
    && m.artifactDigest == h.artifact(r.artifact) && m.producer == r.producer
  }

  predicate Repairs(h: Digests, st: State, t: State, inv: Invocation, r: RepairReport) {
    && t.artifact == r.artifact
    && |t.resolutions| == |st.resolutions| + |r.resolutions|
    && t.resolutions[..|st.resolutions|] == st.resolutions
    && forall i :: 0 <= i < |r.resolutions| ==>
         RecordsAnswer(h, inv, r, r.resolutions[i], t.resolutions[|st.resolutions| + i])
  }

  /** A repair call is credited exactly when it is delivered as held, signed by the original doer for
      the same unit, and soundly answers every open blocker; it then installs exactly its artifact and
      its answers, and otherwise changes neither. */
  lemma CreditedRepairIff(h: Digests, seed: Seed, attempts: seq<Attempt>, k: nat)
    requires ValidLedger(h, seed, attempts) && k < |attempts|
    requires attempts[k].invocation.kind == Repair && attempts[k].completion.Some?
    ensures ValidLedger(h, seed, attempts[..k]) && ValidLedger(h, seed, attempts[..k + 1])
    ensures var st, t, r := StateOf(h, seed, attempts[..k]), StateOf(h, seed, attempts[..k + 1]), RepairIn(attempts[k]);
            if Delivered(h, attempts[..k], attempts[k]) && r.Some?
               && EarnsRepair(h, seed, st, attempts[k].invocation, r.value)
            then Repairs(h, st, t, attempts[k].invocation, r.value)
            else t.artifact == st.artifact && t.resolutions == st.resolutions
  {
    LedgerStep(h, seed, attempts, k);
    LedgerLineage(h, seed, attempts[..k]);
    var st, t := StateOf(h, seed, attempts[..k]), StateOf(h, seed, attempts[..k + 1]);
    StepRepairIff(h, seed, attempts[..k], st, attempts[k]);
    StepReports(h, seed, st, attempts[k], t);
  }

  /** Every attempt judged a credited repair answers soundly, on the record each answer found. */
  lemma RepairedAnswers(h: Digests, seed: Seed, attempts: seq<Attempt>, k: nat, n: Resolution)
    requires ValidLedger(h, seed, attempts) && k < |attempts| && IsRepaired(Judgements(h, seed, attempts)[k])
    requires n in Judgements(h, seed, attempts)[k].value.repair.resolutions
    ensures ValidLedger(h, seed, attempts[..k])
    ensures n.fingerprint in StateOf(h, seed, attempts[..k]).findings
    ensures var st, r := StateOf(h, seed, attempts[..k]), Judgements(h, seed, attempts)[k].value.repair;
            var rec := st.findings[n.fingerprint];
            && rec.closedBy.None? && n.reportDigest == rec.reportDigest
            && (forall e :: e in n.evidence ==> e.artifactDigest == h.artifact(r.artifact))
            && (rec.blocking ==> n.disposition != DeferredAdvisory)
            && (n.disposition == Fixed ==>
                  || r.artifact.payload != st.artifact.payload || r.artifact.inputs != st.artifact.inputs
                  || r.artifact.buildRefs != st.artifact.buildRefs)
            && (n.disposition == RejectedWithEvidence ==>
                  exists e :: e in n.evidence && forall g :: g in rec.finding.evidence ==> g.digest != e.digest)
  {
    LedgerStep(h, seed, attempts, k);
    LedgerLineage(h, seed, attempts[..k]);
    var st := StateOf(h, seed, attempts[..k]);
    RepairKind(h, seed, st, attempts[k]);
    StepRepairIff(h, seed, attempts[..k], st, attempts[k]);
    var r := Judgements(h, seed, attempts)[k].value.repair;
    assert Answers(h, st, r, n);
  }

  lemma RepairKind(h: Digests, seed: Seed, st: State, a: Attempt)
    requires IsRepaired(StepJudgement(h, seed, st, a))
    ensures a.completion.Some? && a.invocation.kind == Repair
  {
  }
}
