/** What every completed attempt leads to, spelled on fields: the one reason an uncredited attempt
    fails for, in the order the checks are made, and exactly which reasons are terminal afterwards. */
module Outcomes {
  import opened Basics
  import opened Domain
  import opened Rules
  import opened Findings
  import opened Reducer
  import opened Ledger
  import opened Invariants
  import opened Runs
  import opened Accounting
  import opened Credit

  // Stops.

  /** The report itself gives this reason to stop the unit. */
  predicate StopFound(contract: Contract, r: ReviewReport, x: Reason) {
    match x
    case CriticalStop => exists f :: f in r.findings && f.severity == Critical
    case ContractGap =>
      r.verdict == ContractGapVerdict
      || exists f :: f in r.findings && (f.kind == GapInContract || !Declared(contract, f.criterion))
    case ContextGap =>
      r.verdict == ContextGapVerdict
      || exists item, c :: item in r.criteria && item.status == Unknown
                        && c in contract.criteria && c.mandatory && c.id == item.criterion
    case ReviewEscalated => r.verdict == Escalate
    case _ => false
  }

  lemma GapIff(seed: Seed, r: ReviewReport)
    ensures HasGap(seed, r)
            <==> exists f :: f in r.findings && (f.kind == GapInContract || !Declared(seed.contract, f.criterion))
  {
    forall f | f in r.findings ensures Declared(seed.contract, f.criterion) <==> InContract(seed, f.criterion) {
    }
  }

  lemma UnknownIff(seed: Seed, r: ReviewReport)
    ensures HasUnknown(seed, r)
            <==> exists item, c :: item in r.criteria && item.status == Unknown
                                && c in seed.contract.criteria && c.mandatory && c.id == item.criterion
  {
  }

  lemma StopsIff(seed: Seed, r: ReviewReport, x: Reason)
    ensures x in StopReasons(seed, r) <==> StopFound(seed.contract, r, x)
  {
    GapIff(seed, r);
    UnknownIff(seed, r);
    FourReasons(HasCritical(r), r.verdict == ContractGapVerdict || HasGap(seed, r),
                r.verdict == ContextGapVerdict || HasUnknown(seed, r), r.verdict == Escalate, x);
    FoundIs(seed, r, x);
  }

  lemma FoundIs(seed: Seed, r: ReviewReport, x: Reason)
    requires HasGap(seed, r)
             <==> exists f :: f in r.findings && (f.kind == GapInContract || !Declared(seed.contract, f.criterion))
    requires HasUnknown(seed, r)
             <==> exists item, c :: item in r.criteria && item.status == Unknown
                                 && c in seed.contract.criteria && c.mandatory && c.id == item.criterion
    ensures StopFound(seed.contract, r, x) <==>
              || (x == CriticalStop && HasCritical(r))
              || (x == Reason.ContractGap && (r.verdict == ContractGapVerdict || HasGap(seed, r)))
              || (x == ContextGap && (r.verdict == ContextGapVerdict || HasUnknown(seed, r)))
              || (x == ReviewEscalated && r.verdict == Escalate)
  {
  }

  // The reason of a failure.

  function StopCause(stop: ExecutionStop): Reason {
    if stop == Drifted then ArtifactDrift
    else if stop == TimedOut then TimeWindow
    else if stop == Revoked then AuthorizationRevoked
    else if stop == InvalidExecution then ExecutionInvalid
    else OutputLimit
  }

  /** A runtime stop decides, then time, then an overrun, then the receipt. */
  function DeliveryCause(h: Digests, ledger: seq<Attempt>, a: Attempt): Option<Reason>
    requires a.completion.Some?
  {
    var inv, c := a.invocation, a.completion.value;
    if c.stop.Some? then Some(StopCause(c.stop.value))
    else if !(inv.startedAt <= c.finishedAt < inv.startedAt + inv.reservation.seconds * TICKS_PER_SECOND)
    then Some(TimeWindow)
    else if c.receipt.None? then Some(ReceiptUnavailable)
    else
      var proof := c.receipt.value;
      if proof.usage.tokens > inv.reservation.tokens || proof.usage.cost > inv.reservation.cost
      then Some(BudgetOverrun)
      else if proof.invocationId != inv.id || proof.binding != inv.binding || proof.actualModel != inv.actor
      then Some(ReceiptMismatch)
      else if proof.cached || SeenIn(h, ledger, h.execution(proof.actualModel.provider, proof.executionId))
      then Some(Replay)
      else None
  }

  predicate FindingBound(f: Finding, d: Digest) {
    f.artifactDigest == d && ObservedOn(f.evidence, d)
  }

  predicate FirstUnbound(fs: seq<Finding>, d: Digest, i: nat) {
    i < |fs| && !FindingBound(fs[i], d) && forall j :: 0 <= j < i ==> FindingBound(fs[j], d)
  }

  lemma {:induction false} UnboundDecides(fs: seq<Finding>, d: Digest, i: nat)
    requires FirstUnbound(fs, d, i)
    ensures FindingsBindingFault(fs, d)
         == Some(Violation(if fs[i].artifactDigest != d then BindingMismatch else MissingEvidence))
  {
    if i > 0 {
      assert FindingBound(fs[0], d);
      forall j | 0 <= j < i - 1 ensures FindingBound(fs[1..][j], d) {
        assert FindingBound(fs[j + 1], d);
      }
      UnboundDecides(fs[1..], d, i - 1);
    }
  }

  lemma {:induction false} UnboundFirst(fs: seq<Finding>, d: Digest) returns (i: nat)
    requires exists f :: f in fs && !FindingBound(f, d)
    ensures FirstUnbound(fs, d, i)
  {
    if !FindingBound(fs[0], d) {
      i := 0;
    } else {
      assert fs == [fs[0]] + fs[1..];
      var k := UnboundFirst(fs[1..], d);
      i := k + 1;
      forall j | 0 <= j < i ensures FindingBound(fs[j], d) {
        assert j > 0 ==> FindingBound(fs[1..][j - 1], d);
      }
    }
  }

  predicate RepeatsCase(h: Digests, r: ReviewReport) {
    || (exists i, j :: 0 <= i < j < |r.findings|
          && h.fingerprint(r.findings[i].criterion, r.findings[i].behavior, r.findings[i].cause)
             == h.fingerprint(r.findings[j].criterion, r.findings[j].behavior, r.findings[j].cause))
    || (exists i, j :: 0 <= i < j < |r.rechecks| && r.rechecks[i].fingerprint == r.rechecks[j].fingerprint)
  }

  /** Why a report does not bind. */
  ghost function BindingCause(h: Digests, inv: Invocation, r: ReviewReport): Reason {
    var d := r.binding.artifactDigest;
    if r.invocationId != inv.id || r.binding != inv.binding || r.reviewer != inv.actor then BindingMismatch
    else if RepeatsCase(h, r) then MalformedReport
    else if exists item :: item in r.criteria && !ObservedOn(item.evidence, d) then MissingEvidence
    else if exists i: nat :: FirstUnbound(r.findings, d, i) then
      var i: nat :| FirstUnbound(r.findings, d, i);
      if r.findings[i].artifactDigest != d then BindingMismatch else MissingEvidence
    else MissingEvidence
  }

  lemma RepeatsIff(h: Digests, r: ReviewReport)
    ensures RepeatsCase(h, r) <==> !DistinctFindings(h, r.findings) || !DistinctRechecks(r.rechecks)
  {
  }

  lemma BindingRefusal(h: Digests, seed: Seed, st: State, inv: Invocation, r: ReviewReport)
    requires Independent(seed, st.artifact.producers, inv.actor) && !Bound(h, inv, r)
    ensures ReportBindingFault(h, seed, st, inv, r).Some?
    ensures RaisedReason(ReportBindingFault(h, seed, st, inv, r).value) == BindingCause(h, inv, r)
  {
    var d := r.binding.artifactDigest;
    RepeatsIff(h, r);
    BoundIff(h, seed, st, inv, r);
    if exists f :: f in r.findings && !FindingBound(f, d) {
      var first := UnboundFirst(r.findings, d);
      forall i: nat | FirstUnbound(r.findings, d, i)
        ensures FindingsBindingFault(r.findings, d)
             == Some(Violation(if r.findings[i].artifactDigest != d then BindingMismatch else MissingEvidence))
      {
        UnboundDecides(r.findings, d, i);
      }
    } else {
      assert FindingsBindingFault(r.findings, d).None?;
    }
  }

  // Why a bound report earns no credit.

  predicate FirstUnjudged(contract: Contract, r: ReviewReport, i: nat) {
    i < |r.criteria| && !HasJudgement(contract, r, r.criteria[i])
    && forall j :: 0 <= j < i ==> HasJudgement(contract, r, r.criteria[j])
  }

  predicate SameCriteria(contract: Contract, r: ReviewReport) {
    && r.complete
    && (forall i, j :: 0 <= i < j < |r.criteria| ==> r.criteria[i].criterion != r.criteria[j].criterion)
    && (forall item :: item in r.criteria ==> Declared(contract, item.criterion))
    && (forall c :: c in contract.criteria ==> Answered(r, c))
  }

  /** Coverage first, then the first unsound disposition, then gaps, then the verdict, then closures. */
  ghost function ContentCause(contract: Contract, findings: map<Digest, FindingRecord>, r: ReviewReport): Reason {
    if !SameCriteria(contract, r) then IncompleteCriteria
    else if exists i: nat :: FirstUnjudged(contract, r, i) then
      var i: nat :| FirstUnjudged(contract, r, i);
      if r.criteria[i].status == Pass then MissingEvidence else IncompleteCriteria
    else if !Grounded(contract, r) then Reason.ContractGap
    else if !Supported(contract, findings, r) then UnsupportedVerdict
    else InvalidClosure
  }

  lemma ItemDecides(seed: Seed, r: ReviewReport, item: CriterionResult)
    requires WellFormedContract(seed.contract) && InContract(seed, item.criterion)
    requires !HasJudgement(seed.contract, r, item)
    ensures ItemFault(seed, r, item)
         == Some(Violation(if item.status == Pass then MissingEvidence else IncompleteCriteria))
  {
    ItemIff(seed, r, item);
  }

  lemma {:induction false} UnjudgedDecides(seed: Seed, r: ReviewReport, items: seq<CriterionResult>, i: nat)
    requires WellFormedContract(seed.contract) && i < |items|
    requires forall item :: item in items ==> InContract(seed, item.criterion)
    requires !HasJudgement(seed.contract, r, items[i])
    requires forall j :: 0 <= j < i ==> HasJudgement(seed.contract, r, items[j])
    ensures ItemsFault(seed, r, items)
         == Some(Violation(if items[i].status == Pass then MissingEvidence else IncompleteCriteria))
  {
    if i == 0 {
      ItemDecides(seed, r, items[0]);
    } else {
      assert HasJudgement(seed.contract, r, items[0]);
      ItemIff(seed, r, items[0]);
      forall j | 0 <= j < i - 1 ensures HasJudgement(seed.contract, r, items[1..][j]) {
        assert HasJudgement(seed.contract, r, items[j + 1]);
      }
      UnjudgedDecides(seed, r, items[1..], i - 1);
    }
  }

  lemma UnjudgedFirst(contract: Contract, r: ReviewReport) returns (i: nat)
    requires exists item :: item in r.criteria && !HasJudgement(contract, r, item)
    ensures FirstUnjudged(contract, r, i)
  {
    i := 0;
    while i < |r.criteria| && HasJudgement(contract, r, r.criteria[i])
      invariant i <= |r.criteria|
      invariant forall j :: 0 <= j < i ==> HasJudgement(contract, r, r.criteria[j])
    {
      i := i + 1;
    }
  }

  lemma SameCriteriaIff(seed: Seed, r: ReviewReport)
    ensures SameCriteria(seed.contract, r) <==> Covers(seed, r)
  {
    forall item | item in r.criteria
      ensures Declared(seed.contract, item.criterion) <==> InContract(seed, item.criterion)
    {
    }
    forall c | c in seed.contract.criteria
      ensures Answered(r, c) <==> exists item :: item in r.criteria && item.criterion == c.id
    {
    }
  }

  lemma ItemsRefusal(seed: Seed, r: ReviewReport)
    requires WellFormedContract(seed.contract) && SameCriteria(seed.contract, r)
    ensures (exists i: nat :: FirstUnjudged(seed.contract, r, i)) <==> ItemsFault(seed, r, r.criteria).Some?
    ensures forall i: nat :: FirstUnjudged(seed.contract, r, i) ==>
              ItemsFault(seed, r, r.criteria)
              == Some(Violation(if r.criteria[i].status == Pass then MissingEvidence else IncompleteCriteria))
  {
    SameCriteriaIff(seed, r);
    forall i: nat | FirstUnjudged(seed.contract, r, i)
      ensures ItemsFault(seed, r, r.criteria)
           == Some(Violation(if r.criteria[i].status == Pass then MissingEvidence else IncompleteCriteria))
    {
      UnjudgedDecides(seed, r, r.criteria, i);
    }
    if exists item :: item in r.criteria && !HasJudgement(seed.contract, r, item) {
      var i := UnjudgedFirst(seed.contract, r);
    } else {
      AllJudged(seed, r);
    }
  }

  lemma AllJudged(seed: Seed, r: ReviewReport)
    requires WellFormedContract(seed.contract)
    requires forall item :: item in r.criteria ==> HasJudgement(seed.contract, r, item)
    ensures ItemsFault(seed, r, r.criteria).None?
  {
    forall item | item in r.criteria ensures ItemFault(seed, r, item).None? {
      ItemIff(seed, r, item);
    }
  }

  lemma ContentRefusal(h: Digests, seed: Seed, st: State, r: ReviewReport)
    requires WellFormedContract(seed.contract)
    requires !(Inspected(seed.contract, st.findings, r) && Closable(h, st, r))
    ensures var fault := ReportFault(seed, st, r);
            var cause := ContentCause(seed.contract, st.findings, r);
            if fault.Some? then RaisedReason(fault.value) == cause
            else ReconcileFindings(h, seed, st, r) == Err(Violation(InvalidClosure)) && cause == InvalidClosure
  {
    InspectedIff(seed, st, r);
    ClosableIff(h, seed, st, r);
    SameCriteriaIff(seed, r);
    if SameCriteria(seed.contract, r) {
      ItemsRefusal(seed, r);
      ContentOrder(seed, st, r);
      var items := ItemsFault(seed, r, r.criteria);
      if items.Some? {
        UnjudgedCause(seed.contract, st.findings, r, RaisedReason(items.value));
      } else {
        JudgedCause(seed.contract, st.findings, r);
      }
    }
  }

  lemma UnjudgedCause(contract: Contract, findings: map<Digest, FindingRecord>, r: ReviewReport, x: Reason)
    requires SameCriteria(contract, r) && exists i: nat :: FirstUnjudged(contract, r, i)
    requires forall i: nat :: FirstUnjudged(contract, r, i) ==>
               x == if r.criteria[i].status == Pass then MissingEvidence else IncompleteCriteria
    ensures ContentCause(contract, findings, r) == x
  {
  }

  lemma JudgedCause(contract: Contract, findings: map<Digest, FindingRecord>, r: ReviewReport)
    requires SameCriteria(contract, r) && !(exists i: nat :: FirstUnjudged(contract, r, i))
    ensures ContentCause(contract, findings, r)
         == if !Grounded(contract, r) then Reason.ContractGap
            else if !Supported(contract, findings, r) then UnsupportedVerdict
            else InvalidClosure
  {
  }

  lemma ContentOrder(seed: Seed, st: State, r: ReviewReport)
    requires WellFormedContract(seed.contract) && Covers(seed, r)
    ensures var items := ItemsFault(seed, r, r.criteria);
            ReportFault(seed, st, r)
            == if items.Some? then items
               else if !Grounded(seed.contract, r) then Some(Violation(Reason.ContractGap))
               else if !Supported(seed.contract, st.findings, r) then Some(Violation(UnsupportedVerdict))
               else None
  {
    GroundedIff(seed, r);
    SupportedIff(seed, st, r);
  }

  ghost function ReviewCause(h: Digests, contract: Contract, st: State, inv: Invocation, r: Option<ReviewReport>)
    : Reason
  {
    if r.None? then MalformedReport
    else if !Bound(h, inv, r.value) then BindingCause(h, inv, r.value)
    else ContentCause(contract, st.findings, r.value)
  }

  lemma ReviewRefusal(h: Digests, seed: Seed, st: State, inv: Invocation, output: Option<Output>)
    requires WellFormedContract(seed.contract) && Independent(seed, st.artifact.producers, inv.actor)
    ensures var j := JudgeReview(h, seed, st, inv, output);
            var text := if output.None? then None else ParseReview(output.value);
            j.Rejected? || j.RejectedBound? ==> j.reason == ReviewCause(h, seed.contract, st, inv, text)
  {
    if output.Some? && ParseReview(output.value).Some? {
      var r := ParseReview(output.value).value;
      BoundIff(h, seed, st, inv, r);
      ReviewIff(h, seed, st, inv, output);
      if !Bound(h, inv, r) {
        BindingRefusal(h, seed, st, inv, r);
      } else if !EarnsReview(h, seed, st, inv, r) {
        ContentRefusal(h, seed, st, r);
      }
    }
  }

  // Why a repair earns no credit.

  predicate FirstUnsound(h: Digests, st: State, r: RepairReport, i: nat)
    requires RepairCovers(st, r)
  {
    i < |r.resolutions| && !Answers(h, st, r, r.resolutions[i])
    && forall j :: 0 <= j < i ==> Answers(h, st, r, r.resolutions[j])
  }

  ghost function RepairCause(h: Digests, seed: Seed, st: State, inv: Invocation, text: Option<RepairReport>): Reason {
    if text.None? then MalformedReport
    else
      var r := text.value;
      if r.invocationId != inv.id || r.binding != inv.binding || r.producer != seed.originalDoer then InvalidRepair
      else if r.artifact.scope != st.artifact.scope || r.artifact.contractDigest != st.artifact.contractDigest
              || r.artifact.contextDigest != st.artifact.contextDigest
              || r.artifact.key !in seed.contract.artifactScope
      then BindingMismatch
      else if r.artifact.key != st.artifact.key || r.artifact.producers != st.artifact.producers then InvalidRepair
      else if exists i, j :: 0 <= i < j < |r.resolutions|
                          && r.resolutions[i].fingerprint == r.resolutions[j].fingerprint
      then MalformedReport
      else if !RepairCovers(st, r) then InvalidRepair
      else if exists i: nat :: FirstUnsound(h, st, r, i) then
        var i: nat :| FirstUnsound(h, st, r, i);
        AnswerRefusal(h, st, r, r.resolutions[i])
      else InvalidRepair
  }

  lemma {:induction false} UnsoundDecides(h: Digests, st: State, r: RepairReport, ns: seq<Resolution>, i: nat)
    requires i < |ns| && forall n :: n in ns ==> n.fingerprint in st.findings
    requires !Answers(h, st, r, ns[i]) && forall j :: 0 <= j < i ==> Answers(h, st, r, ns[j])
    ensures ResolutionsFault(h, st, r, ns) == Some(Violation(AnswerRefusal(h, st, r, ns[i])))
  {
    AnswerIff(h, st, r, ns[0]);
    if i > 0 {
      assert Answers(h, st, r, ns[0]);
      forall j | 0 <= j < i - 1 ensures Answers(h, st, r, ns[1..][j]) {
        assert Answers(h, st, r, ns[j + 1]);
      }
      UnsoundDecides(h, st, r, ns[1..], i - 1);
    }
  }

  lemma UnsoundFirst(h: Digests, st: State, r: RepairReport) returns (i: nat)
    requires RepairCovers(st, r) && exists n :: n in r.resolutions && !Answers(h, st, r, n)
    ensures FirstUnsound(h, st, r, i)
  {
    i := 0;
    while i < |r.resolutions| && Answers(h, st, r, r.resolutions[i])
      invariant i <= |r.resolutions|
      invariant forall j :: 0 <= j < i ==> Answers(h, st, r, r.resolutions[j])
    {
      i := i + 1;
    }
  }

  lemma AnswersRefusal(h: Digests, st: State, r: RepairReport)
    requires RepairCovers(st, r) && exists n :: n in r.resolutions && !Answers(h, st, r, n)
    ensures exists i: nat :: FirstUnsound(h, st, r, i)
    ensures forall i: nat :: FirstUnsound(h, st, r, i) ==>
              ResolutionsFault(h, st, r, r.resolutions)
              == Some(Violation(AnswerRefusal(h, st, r, r.resolutions[i])))
  {
    var first := UnsoundFirst(h, st, r);
    forall i: nat | FirstUnsound(h, st, r, i)
      ensures ResolutionsFault(h, st, r, r.resolutions)
           == Some(Violation(AnswerRefusal(h, st, r, r.resolutions[i])))
    {
      UnsoundDecides(h, st, r, r.resolutions, i);
    }
  }

  lemma RepairRefusal(h: Digests, seed: Seed, st: State, inv: Invocation, r: RepairReport)
    requires LineageKept(h, seed, st) && inv.actor == seed.originalDoer
    requires !EarnsRepair(h, seed, st, inv, r)
    ensures var fault := RepairFault(h, seed, st, inv, r);
            fault.Some? && RaisedReason(fault.value) == RepairCause(h, seed, st, inv, Some(r))
  {
    RepairIff(h, seed, st, inv, r);
    if !(RepairBound(seed, st, inv, r) && RepairCovers(st, r)) {
      EarlyRefusal(h, seed, st, inv, r);
    } else {
      AnswersRefusal(h, st, r);
      LateRefusal(h, seed, st, inv, r);
    }
  }

  lemma EarlyRefusal(h: Digests, seed: Seed, st: State, inv: Invocation, r: RepairReport)
    requires LineageKept(h, seed, st) && inv.actor == seed.originalDoer
    requires !(RepairBound(seed, st, inv, r) && RepairCovers(st, r))
    ensures var fault := RepairFault(h, seed, st, inv, r);
            fault.Some? && RaisedReason(fault.value) == RepairCause(h, seed, st, inv, Some(r))
  {
    RepairBoundIff(h, seed, st, inv, r);
    CoversIff(st, r);
  }

  lemma LateRefusal(h: Digests, seed: Seed, st: State, inv: Invocation, r: RepairReport)
    requires LineageKept(h, seed, st) && inv.actor == seed.originalDoer
    requires RepairBound(seed, st, inv, r) && RepairCovers(st, r)
    requires exists i: nat :: FirstUnsound(h, st, r, i)
    requires forall i: nat :: FirstUnsound(h, st, r, i) ==>
               ResolutionsFault(h, st, r, r.resolutions)
               == Some(Violation(AnswerRefusal(h, st, r, r.resolutions[i])))
    ensures var fault := RepairFault(h, seed, st, inv, r);
            fault.Some? && RaisedReason(fault.value) == RepairCause(h, seed, st, inv, Some(r))
  {
    AnswersDecide(h, seed, st, inv, r);
    LateCause(h, seed, st, inv, r, RaisedReason(ResolutionsFault(h, st, r, r.resolutions).value));
  }

  lemma AnswersDecide(h: Digests, seed: Seed, st: State, inv: Invocation, r: RepairReport)
    requires LineageKept(h, seed, st) && inv.actor == seed.originalDoer
    requires RepairBound(seed, st, inv, r) && RepairCovers(st, r)
    ensures RepairFault(h, seed, st, inv, r) == ResolutionsFault(h, st, r, r.resolutions)
  {
    RepairBoundIff(h, seed, st, inv, r);
    CoversIff(st, r);
  }

  lemma LateCause(h: Digests, seed: Seed, st: State, inv: Invocation, r: RepairReport, x: Reason)
    requires LineageKept(h, seed, st) && RepairBound(seed, st, inv, r) && RepairCovers(st, r)
    requires exists i: nat :: FirstUnsound(h, st, r, i)
    requires forall i: nat :: FirstUnsound(h, st, r, i) ==> AnswerRefusal(h, st, r, r.resolutions[i]) == x
    ensures RepairCause(h, seed, st, inv, Some(r)) == x
  {
  }

  lemma FixRefusal(h: Digests, seed: Seed, st: State, inv: Invocation, output: Option<Output>)
    requires LineageKept(h, seed, st) && inv.actor == seed.originalDoer
    ensures var j := JudgeRepair(h, seed, st, inv, output);
            var text := if output.None? then None else ParseRepair(output.value);
            j.Rejected? ==> j.reason == RepairCause(h, seed, st, inv, text)
  {
    if output.Some? && ParseRepair(output.value).Some? {
      var r := ParseRepair(output.value).value;
      RepairIff(h, seed, st, inv, r);
      if !EarnsRepair(h, seed, st, inv, r) {
        RepairRefusal(h, seed, st, inv, r);
      }
    }
  }

  // The cause of any uncredited attempt.

  predicate EarnsCredit(h: Digests, seed: Seed, ledger: seq<Attempt>, st: State, a: Attempt) {
    && Delivered(h, ledger, a)
    && if a.invocation.kind == Review
       then ReviewIn(a).Some? && EarnsReview(h, seed, st, a.invocation, ReviewIn(a).value)
       else RepairIn(a).Some? && EarnsRepair(h, seed, st, a.invocation, RepairIn(a).value)
  }

  ghost function Cause(h: Digests, seed: Seed, ledger: seq<Attempt>, st: State, a: Attempt): Reason
    requires a.completion.Some?
  {
    var delivery := DeliveryCause(h, ledger, a);
    if delivery.Some? then delivery.value
    else if a.invocation.kind == Review then ReviewCause(h, seed.contract, st, a.invocation, ReviewIn(a))
    else RepairCause(h, seed, st, a.invocation, RepairIn(a))
  }

  lemma DeliveryRefusal(h: Digests, seed: Seed, ledger: seq<Attempt>, st: State, inv: Invocation, c: Completion)
    requires ReserveFault(h, seed, st, inv).None? && ExecutionsKept(h, ledger, st)
    ensures var cause := DeliveryCause(h, ledger, Attempt(inv, Some(c)));
            && (cause.None? <==> Delivered(h, ledger, Attempt(inv, Some(c))))
            && (cause.Some? ==> Judge(h, seed, Held(st, inv), inv, c) == Rejected(cause.value))
  {
    TimeIff(h, seed, st, inv, c);
    AccountIff(h, ledger, Held(st, inv).executionIds, inv, c);
  }

  lemma SameReviewCause(h: Digests, contract: Contract, st: State, acc: State, inv: Invocation,
                        r: Option<ReviewReport>)
    requires acc.findings == st.findings
    ensures ReviewCause(h, contract, acc, inv, r) == ReviewCause(h, contract, st, inv, r)
  {
  }

  lemma SameUnsound(h: Digests, st: State, acc: State, r: RepairReport, i: nat)
    requires acc.findings == st.findings && acc.artifact == st.artifact && RepairCovers(st, r)
    ensures FirstUnsound(h, acc, r, i) <==> FirstUnsound(h, st, r, i)
  {
  }

  lemma OneUnsound(h: Digests, st: State, r: RepairReport, i: nat, j: nat)
    requires RepairCovers(st, r) && FirstUnsound(h, st, r, i) && FirstUnsound(h, st, r, j)
    ensures i == j
  {
  }

  /** A repair that gets as far as its answers. */
  predicate Reaches(seed: Seed, st: State, inv: Invocation, r: RepairReport) {
    && r.invocationId == inv.id && r.binding == inv.binding && r.producer == seed.originalDoer
    && r.artifact.scope == st.artifact.scope && r.artifact.contractDigest == st.artifact.contractDigest
    && r.artifact.contextDigest == st.artifact.contextDigest && r.artifact.key in seed.contract.artifactScope
    && r.artifact.key == st.artifact.key && r.artifact.producers == st.artifact.producers
    && RepairCovers(st, r)
  }

  lemma UnsoundAnswerCause(h: Digests, seed: Seed, st: State, inv: Invocation, r: RepairReport, i: nat)
    requires RepairCovers(st, r) && Reaches(seed, st, inv, r) && FirstUnsound(h, st, r, i)
    ensures RepairCause(h, seed, st, inv, Some(r)) == AnswerRefusal(h, st, r, r.resolutions[i])
  {
    forall j: nat | FirstUnsound(h, st, r, j) ensures j == i {
      OneUnsound(h, st, r, i, j);
    }
  }

  lemma EarlyCauseSame(h: Digests, seed: Seed, st: State, acc: State, inv: Invocation, r: RepairReport)
    requires acc.findings == st.findings && acc.artifact == st.artifact && !Reaches(seed, st, inv, r)
    ensures RepairCause(h, seed, acc, inv, Some(r)) == RepairCause(h, seed, st, inv, Some(r))
  {
  }

  lemma SoundCause(h: Digests, seed: Seed, st: State, inv: Invocation, r: RepairReport)
    requires RepairCovers(st, r) && Reaches(seed, st, inv, r) && forall i: nat :: !FirstUnsound(h, st, r, i)
    ensures RepairCause(h, seed, st, inv, Some(r)) == InvalidRepair
  {
  }

  lemma SameRepairCause(h: Digests, seed: Seed, st: State, acc: State, inv: Invocation, text: Option<RepairReport>)
    requires acc.findings == st.findings && acc.artifact == st.artifact
    ensures RepairCause(h, seed, acc, inv, text) == RepairCause(h, seed, st, inv, text)
  {
    if text.Some? {
      var r := text.value;
      if !Reaches(seed, st, inv, r) {
        EarlyCauseSame(h, seed, st, acc, inv, r);
      } else {
        forall i: nat ensures FirstUnsound(h, acc, r, i) <==> FirstUnsound(h, st, r, i) {
          SameUnsound(h, st, acc, r, i);
        }
        if i: nat :| FirstUnsound(h, st, r, i) {
          UnsoundAnswerCause(h, seed, st, inv, r, i);
          UnsoundAnswerCause(h, seed, acc, inv, r, i);
        } else {
          SoundCause(h, seed, st, inv, r);
          SoundCause(h, seed, acc, inv, r);
        }
      }
    }
  }

  /** The judgement of any completed call, on fields. */
  lemma StepCause(h: Digests, seed: Seed, ledger: seq<Attempt>, st: State, a: Attempt)
    requires ReserveFault(h, seed, st, a.invocation).None? && ExecutionsKept(h, ledger, st)
    requires WellFormedContract(seed.contract) && LineageKept(h, seed, st) && a.completion.Some?
    ensures var j := StepJudgement(h, seed, st, a);
            && j.Some? && (j.value.Credited() <==> EarnsCredit(h, seed, ledger, st, a))
            && (!j.value.Credited() ==> j.value.reason == Cause(h, seed, ledger, st, a))
  {
    var inv, c := a.invocation, a.completion.value;
    var acc := Accounted(h, Held(st, inv), inv, c);
    assert a == Attempt(inv, Some(c));
    ReservePending(h, seed, st, inv);
    DeliveryRefusal(h, seed, ledger, st, inv, c);
    SameReviewCause(h, seed.contract, st, acc, inv, ReviewIn(a));
    SameRepairCause(h, seed, st, acc, inv, RepairIn(a));
    JudgeDelivered(h, seed, ledger, st, inv, c);
    if inv.kind == Review {
      StepReviewIff(h, seed, ledger, st, a);
      ReviewRefusal(h, seed, acc, inv, c.output);
    } else {
      StepRepairIff(h, seed, ledger, st, a);
      FixRefusal(h, seed, acc, inv, c.output);
    }
  }

  // What is terminal afterwards.

  /** The reasons that end a unit at their first occurrence. */
  const ENDING: set<Reason> := {
    TimeWindow, ReceiptMismatch, Replay, BudgetOverrun, NoProgress, Reason.ContractGap, ArtifactDrift,
    AuthorizationRevoked, ExecutionInvalid, OutputLimit
  }

  function Before(failures: map<Reason, nat>, x: Reason): nat {
    if x in failures then failures[x] else 0
  }

  /** Some open blocker has been counted up to the limit. */
  predicate BlockerRepeats(seed: Seed, findings: map<Digest, FindingRecord>) {
    exists fp :: fp in findings && findings[fp].closedBy.None? && findings[fp].blocking
              && findings[fp].occurrences >= seed.policy.sameFailureLimit
  }

  /** The report reached content checking. */
  predicate Heard(h: Digests, ledger: seq<Attempt>, a: Attempt) {
    && a.invocation.kind == Review && Delivered(h, ledger, a)
    && ReviewIn(a).Some? && Bound(h, a.invocation, ReviewIn(a).value)
  }

  /** The attempt from `st` to `t` gives this reason to end the unit. */
  ghost predicate Ends(h: Digests, seed: Seed, ledger: seq<Attempt>, st: State, a: Attempt, t: State, x: Reason)
    requires a.completion.Some?
  {
    || (Heard(h, ledger, a) && StopFound(seed.contract, ReviewIn(a).value, x))
    || (EarnsCredit(h, seed, ledger, st, a) && a.invocation.kind == Review
        && x == RepeatedFailure && BlockerRepeats(seed, t.findings))
    || (!EarnsCredit(h, seed, ledger, st, a)
        && var cause := Cause(h, seed, ledger, st, a);
           || (x == cause && x in ENDING)
           || (x == RepeatedFailure && Before(st.failures, cause) + 1 >= seed.policy.sameFailureLimit))
  }

  predicate AllMandatoryPass(contract: Contract, r: ReviewReport) {
    forall item, c ::
      (item in r.criteria && c in contract.criteria && c.mandatory && c.id == item.criterion)
      ==> item.status == Pass
  }

  /** Nothing but a terminal reason would keep the unit from being eligible. */
  predicate Accepting(h: Digests, seed: Seed, t: State) {
    && |t.reports| >= seed.policy.minReviews
    && (forall fp :: fp in t.findings ==> t.findings[fp].closedBy.Some? || !t.findings[fp].blocking)
    && t.reports != []
    && var latest := t.reports[|t.reports| - 1];
       && latest.binding == Binding(t.artifact.scope, h.artifact(t.artifact), t.artifact.contractDigest,
                                    t.artifact.contextDigest)
       && latest.verdict == Accept
       && AllMandatoryPass(seed.contract, latest)
  }

  /** An open blocker that no recorded repair of its standing report answers on the present artifact. */
  predicate Unanswered(h: Digests, t: State) {
    exists fp :: fp in t.findings && t.findings[fp].closedBy.None? && t.findings[fp].blocking
              && forall m :: m in t.resolutions ==>
                   || m.resolution.fingerprint != fp
                   || m.resolution.reportDigest != t.findings[fp].reportDigest
                   || m.artifactDigest != h.artifact(t.artifact)
  }

  predicate Exhausted(h: Digests, seed: Seed, t: State, x: Reason) {
    || (x == RepairLimit && Unanswered(h, t) && t.budget.repairs >= seed.policy.maxRepairs)
    || (x == ReviewLimit && |t.reports| >= seed.policy.maxReviews)
    || (x == InvocationLimit && t.budget.invocations >= seed.policy.maxInvocations)
    || (x == TokenLimit && t.budget.tokensSpent >= seed.policy.maxTokens)
    || (x == CostLimit && t.budget.costSpent >= seed.policy.maxCost)
  }

  lemma UnansweredIff(h: Digests, t: State)
    ensures Unanswered(h, t) <==> NeedsRepair(h, t)
  {
    forall fp | fp in t.findings
      ensures Reconciled(h, t, fp, t.findings[fp]) <==>
                !(forall m :: m in t.resolutions ==>
                    || m.resolution.fingerprint != fp
                    || m.resolution.reportDigest != t.findings[fp].reportDigest
                    || m.artifactDigest != h.artifact(t.artifact))
    {
    }
  }

  lemma FiveReasons(a: bool, b: bool, c: bool, d: bool, e: bool, x: Reason)
    ensures x in When(a, RepairLimit) + When(b, ReviewLimit) + When(c, InvocationLimit) + When(d, TokenLimit)
                 + When(e, CostLimit)
            <==> || (x == RepairLimit && a) || (x == ReviewLimit && b) || (x == InvocationLimit && c)
                 || (x == TokenLimit && d) || (x == CostLimit && e)
  {
  }

  lemma ExhaustedIff(h: Digests, seed: Seed, u: State, x: Reason)
    ensures x in CapacityReasons(h, seed, u) <==> Exhausted(h, seed, u, x)
  {
    UnansweredIff(h, u);
    FiveReasons(NeedsRepair(h, u) && u.budget.repairs >= seed.policy.maxRepairs,
                |u.reports| >= seed.policy.maxReviews,
                u.budget.invocations >= seed.policy.maxInvocations,
                u.budget.tokensSpent >= seed.policy.maxTokens,
                u.budget.costSpent >= seed.policy.maxCost, x);
  }

  lemma AcceptingIff(h: Digests, seed: Seed, u: State)
    requires u.pending.None?
    ensures EligibilityReasons(h, seed, u) == [] <==> u.terminal == [] && Accepting(h, seed, u)
  {
    EligibleIff(h, seed, u);
    if u.reports != [] {
      MandatoryIff(seed, u.reports[|u.reports| - 1]);
    }
  }

  lemma MandatoryIff(seed: Seed, r: ReviewReport)
    ensures MandatoryPassed(seed, r) <==> AllMandatoryPass(seed.contract, r)
  {
  }

  lemma SameStanding(h: Digests, seed: Seed, u: State, t: State, x: Reason)
    requires t == u.(terminal := t.terminal)
    ensures Accepting(h, seed, u) <==> Accepting(h, seed, t)
    ensures Exhausted(h, seed, u, x) <==> Exhausted(h, seed, t, x)
  {
  }

  lemma CappedIff(h: Digests, seed: Seed, u: State, x: Reason)
    requires u.pending.None?
    ensures var t := Capped(h, seed, u);
            x in t.terminal
            <==> x in u.terminal || (Exhausted(h, seed, t, x) && !(u.terminal == [] && Accepting(h, seed, t)))
  {
    CappedFacts(h, seed, u);
    SameStanding(h, seed, u, Capped(h, seed, u), x);
    AcceptingIff(h, seed, u);
    ExhaustedIff(h, seed, u, x);
  }

  lemma FailedIff(seed: Seed, st: State, reason: Reason, x: Reason)
    ensures x in Failed(seed, st, reason).terminal
            <==> || x in st.terminal || (x == reason && x in ENDING)
                 || (x == RepeatedFailure && Before(st.failures, reason) + 1 >= seed.policy.sameFailureLimit)
  {
    TwoMore(st.terminal, reason in FATAL, reason, FailureCount(st, reason) >= seed.policy.sameFailureLimit, x);
  }

  lemma TwoMore(s: seq<Reason>, a: bool, y: Reason, b: bool, x: Reason)
    ensures x in s + When(a, y) + When(b, RepeatedFailure)
            <==> x in s || (a && x == y) || (b && x == RepeatedFailure)
  {
  }

  lemma RetainedIff(h: Digests, seed: Seed, st: State, r: ReviewReport, x: Reason)
    ensures x in RetainStops(h, seed, st, r).terminal <==> x in st.terminal || StopFound(seed.contract, r, x)
    ensures RetainStops(h, seed, st, r).failures == st.failures
  {
    StopsIff(seed, r, x);
  }

  lemma ReviewTerminalIff(h: Digests, seed: Seed, st: State, r: ReviewReport, x: Reason)
    ensures x in ReviewTerminal(h, seed, st, r)
            <==> || StopFound(seed.contract, r, x)
                 || (x == RepeatedFailure && BlockerRepeats(seed, Reconciliation(h, seed, st, r)))
  {
    StopsIff(seed, r, x);
    assert Repeats(seed, Reconciliation(h, seed, st, r)) <==> BlockerRepeats(seed, Reconciliation(h, seed, st, r));
    OneBefore(Repeats(seed, Reconciliation(h, seed, st, r)), StopReasons(seed, r), x);
  }

  lemma OneBefore(a: bool, s: seq<Reason>, x: Reason)
    ensures x in When(a, RepeatedFailure) + s <==> (a && x == RepeatedFailure) || x in s
  {
  }

  /** What an applied judgement leaves terminal, before the limits are looked at. */
  lemma AppliedIff(h: Digests, seed: Seed, st: State, inv: Invocation, j: Judgement, x: Reason)
    requires st.terminal == []
    ensures var u := Apply(h, seed, st, inv, j);
            x in u.terminal <==>
              match j
              case Rejected(y) =>
                (x == y && x in ENDING)
                || (x == RepeatedFailure && Before(st.failures, y) + 1 >= seed.policy.sameFailureLimit)
              case RejectedBound(y, r) =>
                || StopFound(seed.contract, r, x) || (x == y && x in ENDING)
                || (x == RepeatedFailure && Before(st.failures, y) + 1 >= seed.policy.sameFailureLimit)
              case Reviewed(r) =>
                StopFound(seed.contract, r, x) || (x == RepeatedFailure && BlockerRepeats(seed, u.findings))
              case Repaired(r) => false
  {
    match j {
      case Rejected(y) => FailedIff(seed, st, y, x);
      case RejectedBound(y, r) =>
        RetainedIff(h, seed, st, r, x);
        FailedIff(seed, RetainStops(h, seed, st, r), y, x);
      case Reviewed(r) => ReviewTerminalIff(h, seed, st, r, x);
      case Repaired(r) =>
    }
  }

  // The whole attempt.

  lemma AppliedFailures(h: Digests, seed: Seed, st: State, inv: Invocation, j: Judgement)
    ensures Apply(h, seed, st, inv, j).failures
         == if j.Credited() then map[] else st.failures[j.reason := Before(st.failures, j.reason) + 1]
  {
    if j.RejectedBound? {
      RetainedIff(h, seed, st, j.report, j.reason);
    }
  }

  /** From a state to the state after a completed step, through the judgement. */
  lemma StepEnds(h: Digests, seed: Seed, st: State, a: Attempt, t: State, j: Judgement, u: State, x: Reason)
    requires Step(h, seed, st, a) == Ok(t) && StepJudgement(h, seed, st, a) == Some(j)
    requires u == Apply(h, seed, Accounted(h, Held(st, a.invocation), a.invocation, a.completion.value),
                        a.invocation, j)
    ensures t == Capped(h, seed, u) && u.pending.None? && t.findings == u.findings && t.failures == u.failures
    ensures x in t.terminal
            <==> x in u.terminal || (Exhausted(h, seed, t, x) && !(u.terminal == [] && Accepting(h, seed, t)))
  {
    var held, c := Held(st, a.invocation), a.completion.value;
    StepSettles(h, seed, st, a, t);
    ApplyFacts(h, seed, Accounted(h, held, a.invocation, c), a.invocation, j);
    CappedFacts(h, seed, u);
    CappedIff(h, seed, u, x);
  }

  lemma HeardIff(h: Digests, seed: Seed, ledger: seq<Attempt>, st: State, a: Attempt)
    requires ReserveFault(h, seed, st, a.invocation).None? && ExecutionsKept(h, ledger, st)
    requires WellFormedContract(seed.contract) && LineageKept(h, seed, st) && a.completion.Some?
    ensures var j := StepJudgement(h, seed, st, a);
            && j.Some?
            && (j.value.Reviewed? || j.value.RejectedBound? <==> Heard(h, ledger, a))
            && (j.value.Reviewed? || j.value.RejectedBound? ==> Some(j.value.report) == ReviewIn(a))
            && (j.value.Reviewed? <==> EarnsCredit(h, seed, ledger, st, a) && a.invocation.kind == Review)
  {
    if a.invocation.kind == Review {
      StepReviewIff(h, seed, ledger, st, a);
    } else {
      StepRepairIff(h, seed, ledger, st, a);
    }
  }

  lemma AppliedEnds(h: Digests, seed: Seed, ledger: seq<Attempt>, st: State, a: Attempt, t: State, j: Judgement,
                    acc: State, x: Reason)
    requires a.completion.Some? && acc.terminal == [] && acc.failures == st.failures
    requires t.findings == Apply(h, seed, acc, a.invocation, j).findings
    requires j.Credited() <==> EarnsCredit(h, seed, ledger, st, a)
    requires !j.Credited() ==> j.reason == Cause(h, seed, ledger, st, a)
    requires j.Reviewed? || j.RejectedBound? <==> Heard(h, ledger, a)
    requires j.Reviewed? || j.RejectedBound? ==> Some(j.report) == ReviewIn(a)
    requires j.Reviewed? <==> EarnsCredit(h, seed, ledger, st, a) && a.invocation.kind == Review
    ensures x in Apply(h, seed, acc, a.invocation, j).terminal <==> Ends(h, seed, ledger, st, a, t, x)
  {
    AppliedIff(h, seed, acc, a.invocation, j, x);
  }

  /** After a completed attempt a reason is terminal exactly when the attempt gives it, or when its
      limit is reached and the unit did not just become eligible. */
  lemma AttemptEnds(h: Digests, seed: Seed, attempts: seq<Attempt>, k: nat, x: Reason)
    requires ValidLedger(h, seed, attempts) && k < |attempts| && attempts[k].completion.Some?
    ensures ValidLedger(h, seed, attempts[..k]) && ValidLedger(h, seed, attempts[..k + 1])
    ensures var st, t := StateOf(h, seed, attempts[..k]), StateOf(h, seed, attempts[..k + 1]);
            x in t.terminal <==>
              || Ends(h, seed, attempts[..k], st, attempts[k], t, x)
              || (Exhausted(h, seed, t, x)
                  && !(Accepting(h, seed, t)
                       && forall y :: !Ends(h, seed, attempts[..k], st, attempts[k], t, y)))
  {
    LedgerStep(h, seed, attempts, k);
    LedgerLineage(h, seed, attempts[..k]);
    StepEndsIff(h, seed, attempts[..k], StateOf(h, seed, attempts[..k]), attempts[k],
                StateOf(h, seed, attempts[..k + 1]), x);
  }

  lemma StepEndsIff(h: Digests, seed: Seed, ledger: seq<Attempt>, st: State, a: Attempt, t: State, x: Reason)
    requires Step(h, seed, st, a) == Ok(t) && a.completion.Some?
    requires ReserveFault(h, seed, st, a.invocation).None? && ExecutionsKept(h, ledger, st)
    requires WellFormedContract(seed.contract) && LineageKept(h, seed, st)
    ensures x in t.terminal <==>
              || Ends(h, seed, ledger, st, a, t, x)
              || (Exhausted(h, seed, t, x)
                  && !(Accepting(h, seed, t) && forall y :: !Ends(h, seed, ledger, st, a, t, y)))
  {
    var j := StepJudgement(h, seed, st, a).value;
    var acc := Accounted(h, Held(st, a.invocation), a.invocation, a.completion.value);
    var u := Apply(h, seed, acc, a.invocation, j);
    AdmittedFacts(h, seed, st, a.invocation);
    StepCause(h, seed, ledger, st, a);
    HeardIff(h, seed, ledger, st, a);
    StepEnds(h, seed, st, a, t, j, u, x);
    forall y ensures y in u.terminal <==> Ends(h, seed, ledger, st, a, t, y) {
      AppliedEnds(h, seed, ledger, st, a, t, j, acc, y);
    }
    NoneEnds(h, seed, ledger, st, a, t, u.terminal);
  }

  lemma NoneEnds(h: Digests, seed: Seed, ledger: seq<Attempt>, st: State, a: Attempt, t: State, terminal: seq<Reason>)
    requires a.completion.Some?
    requires forall y :: y in terminal <==> Ends(h, seed, ledger, st, a, t, y)
    ensures terminal == [] <==> forall y :: !Ends(h, seed, ledger, st, a, t, y)
  {
    if terminal != [] {
      assert terminal[0] in terminal;
    }
  }

  lemma StepSame(h: Digests, seed: Seed, st: State, a: Attempt, t: State, j: Judgement, u: State)
    requires Step(h, seed, st, a) == Ok(t) && StepJudgement(h, seed, st, a) == Some(j)
    requires u == Apply(h, seed, Accounted(h, Held(st, a.invocation), a.invocation, a.completion.value),
                        a.invocation, j)
    ensures t.findings == u.findings && t.failures == u.failures
  {
    StepEnds(h, seed, st, a, t, j, u, TimeWindow);
  }

  /** Credit clears the counts; a failure adds one to its own. */
  function Recount(failures: map<Reason, nat>, credited: bool, cause: Reason): map<Reason, nat> {
    if credited then map[] else failures[cause := Before(failures, cause) + 1]
  }

  lemma StepRecounts(h: Digests, seed: Seed, st: State, a: Attempt, t: State, j: Judgement, cause: Reason)
    requires Step(h, seed, st, a) == Ok(t) && StepJudgement(h, seed, st, a) == Some(j)
    requires !j.Credited() ==> j.reason == cause
    ensures t.failures == Recount(st.failures, j.Credited(), cause)
  {
    var acc := Accounted(h, Held(st, a.invocation), a.invocation, a.completion.value);
    StepSame(h, seed, st, a, t, j, Apply(h, seed, acc, a.invocation, j));
    AppliedRecount(h, seed, acc, a.invocation, j, cause);
  }

  lemma AppliedRecount(h: Digests, seed: Seed, st: State, inv: Invocation, j: Judgement, cause: Reason)
    requires !j.Credited() ==> j.reason == cause
    ensures Apply(h, seed, st, inv, j).failures == Recount(st.failures, j.Credited(), cause)
  {
    AppliedFailures(h, seed, st, inv, j);
  }

  lemma StepFails(h: Digests, seed: Seed, ledger: seq<Attempt>, st: State, a: Attempt, t: State)
    requires Step(h, seed, st, a) == Ok(t) && a.completion.Some?
    requires ReserveFault(h, seed, st, a.invocation).None? && ExecutionsKept(h, ledger, st)
    requires WellFormedContract(seed.contract) && LineageKept(h, seed, st)
    ensures t.failures == Recount(st.failures, EarnsCredit(h, seed, ledger, st, a), Cause(h, seed, ledger, st, a))
  {
    StepCause(h, seed, ledger, st, a);
    StepRecounts(h, seed, st, a, t, StepJudgement(h, seed, st, a).value, Cause(h, seed, ledger, st, a));
  }

  /** A credited attempt clears the failure counts; any other counts exactly its cause once more. */
  lemma AttemptFails(h: Digests, seed: Seed, attempts: seq<Attempt>, k: nat)
    requires ValidLedger(h, seed, attempts) && k < |attempts| && attempts[k].completion.Some?
    ensures ValidLedger(h, seed, attempts[..k]) && ValidLedger(h, seed, attempts[..k + 1])
    ensures var st := StateOf(h, seed, attempts[..k]);
            StateOf(h, seed, attempts[..k + 1]).failures
            == Recount(st.failures, EarnsCredit(h, seed, attempts[..k], st, attempts[k]),
                       Cause(h, seed, attempts[..k], st, attempts[k]))
  {
    LedgerStep(h, seed, attempts, k);
    LedgerLineage(h, seed, attempts[..k]);
    StepFails(h, seed, attempts[..k], StateOf(h, seed, attempts[..k]), attempts[k],
              StateOf(h, seed, attempts[..k + 1]));
  }

  const STOPS: set<Reason> := {CriticalStop, ReviewEscalated, Reason.ContractGap, ContextGap}

  lemma StepStop(h: Digests, seed: Seed, ledger: seq<Attempt>, st: State, a: Attempt, t: State, x: Reason)
    requires Step(h, seed, st, a) == Ok(t) && a.completion.Some? && Heard(h, ledger, a) && x in STOPS
    requires ReserveFault(h, seed, st, a.invocation).None? && ExecutionsKept(h, ledger, st)
    requires WellFormedContract(seed.contract) && LineageKept(h, seed, st)
    ensures StopFound(seed.contract, ReviewIn(a).value, x) ==> x in t.terminal
    ensures EarnsCredit(h, seed, ledger, st, a) ==>
              (x in t.terminal <==> StopFound(seed.contract, ReviewIn(a).value, x))
  {
    StepEndsIff(h, seed, ledger, st, a, t, x);
    StopEnds(h, seed, ledger, st, a, t, x);
  }

  /** The four stops of a report, field by field, are all among the reasons. */
  predicate StopsKeptIn(contract: Contract, r: ReviewReport, ends: seq<Reason>) {
    && ((exists f :: f in r.findings && f.severity == Critical) ==> CriticalStop in ends)
    && (r.verdict == Escalate ==> ReviewEscalated in ends)
    && (r.verdict == ContractGapVerdict
        || (exists f :: f in r.findings && (f.kind == GapInContract || !Declared(contract, f.criterion)))
        ==> Reason.ContractGap in ends)
    && (r.verdict == ContextGapVerdict
        || (exists item, c :: item in r.criteria && item.status == Unknown
                           && c in contract.criteria && c.mandatory && c.id == item.criterion)
        ==> ContextGap in ends)
  }

  lemma FoundKept(contract: Contract, r: ReviewReport, ends: seq<Reason>)
    requires forall x :: x in STOPS && StopFound(contract, r, x) ==> x in ends
    ensures StopsKeptIn(contract, r, ends)
  {
    assert CriticalStop in STOPS && ReviewEscalated in STOPS && Reason.ContractGap in STOPS && ContextGap in STOPS;
    assert StopFound(contract, r, CriticalStop) ==> CriticalStop in ends;
    assert StopFound(contract, r, ReviewEscalated) ==> ReviewEscalated in ends;
    assert StopFound(contract, r, Reason.ContractGap) ==> Reason.ContractGap in ends;
    assert StopFound(contract, r, ContextGap) ==> ContextGap in ends;
  }

  /** No stop of a report that reaches content checking is lost; on a credited review the four stop
      reasons are terminal exactly when the report gives them. */
  lemma StopsHeard(h: Digests, seed: Seed, attempts: seq<Attempt>, k: nat)
    requires ValidLedger(h, seed, attempts) && k < |attempts| && Heard(h, attempts[..k], attempts[k])
    ensures ValidLedger(h, seed, attempts[..k]) && ValidLedger(h, seed, attempts[..k + 1])
    ensures StopsKeptIn(seed.contract, ReviewIn(attempts[k]).value, StateOf(h, seed, attempts[..k + 1]).terminal)
    ensures EarnsCredit(h, seed, attempts[..k], StateOf(h, seed, attempts[..k]), attempts[k]) ==>
              forall x :: x in STOPS ==>
                (x in StateOf(h, seed, attempts[..k + 1]).terminal
                 <==> StopFound(seed.contract, ReviewIn(attempts[k]).value, x))
  {
    LedgerStep(h, seed, attempts, k);
    LedgerLineage(h, seed, attempts[..k]);
    var st, t := StateOf(h, seed, attempts[..k]), StateOf(h, seed, attempts[..k + 1]);
    forall x | x in STOPS
      ensures StopFound(seed.contract, ReviewIn(attempts[k]).value, x) ==> x in t.terminal
      ensures EarnsCredit(h, seed, attempts[..k], st, attempts[k]) ==>
                (x in t.terminal <==> StopFound(seed.contract, ReviewIn(attempts[k]).value, x))
    {
      StepStop(h, seed, attempts[..k], st, attempts[k], t, x);
    }
    FoundKept(seed.contract, ReviewIn(attempts[k]).value, t.terminal);
  }

  lemma StopEnds(h: Digests, seed: Seed, ledger: seq<Attempt>, st: State, a: Attempt, t: State, x: Reason)
    requires a.completion.Some? && Heard(h, ledger, a)
    requires x in STOPS
    ensures !Exhausted(h, seed, t, x)
    ensures StopFound(seed.contract, ReviewIn(a).value, x) ==> Ends(h, seed, ledger, st, a, t, x)
    ensures EarnsCredit(h, seed, ledger, st, a) ==>
              (Ends(h, seed, ledger, st, a, t, x) <==> StopFound(seed.contract, ReviewIn(a).value, x))
  {
  }

  /** A repair whose first unsound answer is the given one, refused for the given reason. */
  predicate RefusedFor(h: Digests, st: State, t: State, r: RepairReport, n: Resolution, reason: Reason)
    requires n.fingerprint in st.findings
  {
    var rec := st.findings[n.fingerprint];
    && reason == (if n.reportDigest != rec.reportDigest then InvalidRepair
                  else if exists e :: e in n.evidence && e.artifactDigest != h.artifact(r.artifact)
                  then MissingEvidence
                  else if rec.blocking && n.disposition == DeferredAdvisory then InvalidRepair
                  else NoProgress)
    && t.artifact == st.artifact && t.resolutions == st.resolutions
    && t.failures == Recount(st.failures, false, reason)
    && (reason == NoProgress ==> NoProgress in t.terminal)
  }

  /** A delivered repair of the right unit whose first unsound answer is `i` changes neither artifact
      nor resolutions and fails for that answer's reason; without progress the unit is over. */
  lemma UnsoundRepairRefused(h: Digests, seed: Seed, attempts: seq<Attempt>, k: nat, i: nat)
    requires ValidLedger(h, seed, attempts) && k < |attempts| && attempts[k].invocation.kind == Repair
    requires Delivered(h, attempts[..k], attempts[k]) && RepairIn(attempts[k]).Some?
    requires ValidLedger(h, seed, attempts[..k]) && ValidLedger(h, seed, attempts[..k + 1])
    requires var st, r := StateOf(h, seed, attempts[..k]), RepairIn(attempts[k]).value;
             && RepairBound(seed, st, attempts[k].invocation, r) && RepairCovers(st, r)
             && FirstUnsound(h, st, r, i)
    ensures var st, r := StateOf(h, seed, attempts[..k]), RepairIn(attempts[k]).value;
            RefusedFor(h, st, StateOf(h, seed, attempts[..k + 1]), r, r.resolutions[i],
                       AnswerRefusal(h, st, r, r.resolutions[i]))
  {
    LedgerStep(h, seed, attempts, k);
    LedgerLineage(h, seed, attempts[..k]);
    StepUnsound(h, seed, attempts[..k], StateOf(h, seed, attempts[..k]), attempts[k],
                StateOf(h, seed, attempts[..k + 1]), RepairIn(attempts[k]).value, i);
  }

  lemma StepUnsound(h: Digests, seed: Seed, ledger: seq<Attempt>, st: State, a: Attempt, t: State, r: RepairReport,
                    i: nat)
    requires Step(h, seed, st, a) == Ok(t) && a.completion.Some?
    requires ReserveFault(h, seed, st, a.invocation).None? && ExecutionsKept(h, ledger, st)
    requires WellFormedContract(seed.contract) && LineageKept(h, seed, st)
    requires a.invocation.kind == Repair && Delivered(h, ledger, a) && RepairIn(a) == Some(r)
    requires RepairBound(seed, st, a.invocation, r) && RepairCovers(st, r) && FirstUnsound(h, st, r, i)
    ensures RefusedFor(h, st, t, r, r.resolutions[i], AnswerRefusal(h, st, r, r.resolutions[i]))
  {
    var cause := Cause(h, seed, ledger, st, a);
    UnsoundCause(h, seed, ledger, st, a, t, i);
    StepFails(h, seed, ledger, st, a, t);
    StepEndsIff(h, seed, ledger, st, a, t, NoProgress);
    UnsoundChanges(h, seed, ledger, st, a, t);
    RefusalNamed(h, st, t, r, r.resolutions[i], cause);
  }

  lemma UnsoundChanges(h: Digests, seed: Seed, ledger: seq<Attempt>, st: State, a: Attempt, t: State)
    requires Step(h, seed, st, a) == Ok(t) && a.completion.Some? && a.invocation.kind == Repair
    requires ReserveFault(h, seed, st, a.invocation).None? && ExecutionsKept(h, ledger, st)
    requires LineageKept(h, seed, st)
    requires !(Delivered(h, ledger, a) && RepairIn(a).Some?
               && EarnsRepair(h, seed, st, a.invocation, RepairIn(a).value))
    ensures t.artifact == st.artifact && t.resolutions == st.resolutions
  {
    StepRepairIff(h, seed, ledger, st, a);
    StepReports(h, seed, st, a, t);
  }

  lemma RefusalNamed(h: Digests, st: State, t: State, r: RepairReport, n: Resolution, reason: Reason)
    requires n.fingerprint in st.findings && reason == AnswerRefusal(h, st, r, n)
    requires t.artifact == st.artifact && t.resolutions == st.resolutions
    requires t.failures == Recount(st.failures, false, reason) && (reason == NoProgress ==> NoProgress in t.terminal)
    ensures RefusedFor(h, st, t, r, n, reason)
  {
  }

  lemma UnsoundCause(h: Digests, seed: Seed, ledger: seq<Attempt>, st: State, a: Attempt, t: State, i: nat)
    requires a.completion.Some? && a.invocation.kind == Repair && Delivered(h, ledger, a) && RepairIn(a).Some?
    requires RepairBound(seed, st, a.invocation, RepairIn(a).value) && RepairCovers(st, RepairIn(a).value)
    requires st.artifact.key in seed.contract.artifactScope
    requires FirstUnsound(h, st, RepairIn(a).value, i)
    ensures !EarnsCredit(h, seed, ledger, st, a)
    ensures Cause(h, seed, ledger, st, a)
         == AnswerRefusal(h, st, RepairIn(a).value, RepairIn(a).value.resolutions[i])
    ensures Cause(h, seed, ledger, st, a) == NoProgress ==> Ends(h, seed, ledger, st, a, t, NoProgress)
  {
    var r := RepairIn(a).value;
    assert r.resolutions[i] in r.resolutions;
    forall j: nat | FirstUnsound(h, st, r, j) ensures j == i {
      OneUnsound(h, st, r, i, j);
    }
  }
}
