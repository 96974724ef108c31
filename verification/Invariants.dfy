/** What every reserve and every completion keeps, one property at a time. */
module Invariants {
  import opened Basics
  import opened Domain
  import opened Rules
  import opened Findings
  import opened Reducer

  // How the closing steps of a settlement change a state.

  lemma CappedFacts(h: Digests, seed: Seed, st: State)
    ensures var u := Capped(h, seed, st);
            && u == st.(terminal := u.terminal)
            && (forall r :: r in st.terminal ==> r in u.terminal)
            && (u.terminal == [] ==> u == st)
  {
    var u := Capped(h, seed, st);
    if u.terminal == [] {
      DedupeEmpty(st.terminal + CapacityReasons(h, seed, st));
      assert st.terminal == [];
    }
  }

  lemma FailedFacts(seed: Seed, st: State, reason: Reason)
    ensures var t := Failed(seed, st, reason);
            && (forall r :: r in st.terminal ==> r in t.terminal)
            && (reason in FATAL ==> t.terminal != [])
            && (FailureCount(st, reason) >= seed.policy.sameFailureLimit ==> RepeatedFailure in t.terminal)
            && (t.terminal == [] ==>
                  st.terminal == [] && reason !in FATAL
                  && FailureCount(st, reason) < seed.policy.sameFailureLimit)
  {
    var raw := st.terminal + When(reason in FATAL, reason)
               + When(FailureCount(st, reason) >= seed.policy.sameFailureLimit, RepeatedFailure);
    DedupeEmpty(raw);
    if reason in FATAL {
      assert reason in raw;
    }
    if FailureCount(st, reason) >= seed.policy.sameFailureLimit {
      assert raw[|raw| - 1] == RepeatedFailure;
    }
  }

  lemma RetainFacts(h: Digests, seed: Seed, st: State, r: ReviewReport)
    ensures var t := RetainStops(h, seed, st, r);
            && t == st.(findings := t.findings, terminal := t.terminal)
            && (forall x :: x in st.terminal ==> x in t.terminal)
            && (forall x :: x in StopReasons(seed, r) ==> x in t.terminal)
            && (t.terminal == [] ==> t == st)
  {
    DedupeEmpty(st.terminal + StopReasons(seed, r));
  }

  lemma ApplyFacts(h: Digests, seed: Seed, st: State, inv: Invocation, j: Judgement)
    ensures var t := Apply(h, seed, st, inv, j);
            && t.budget == st.budget && t.pending == st.pending && t.lastAt == st.lastAt
            && t.invocationIds == st.invocationIds && t.executionIds == st.executionIds
            && t.reports == (if j.Reviewed? then st.reports + [j.report] else st.reports)
            && t.artifact == (if j.Repaired? then j.repair.artifact else st.artifact)
            && t.resolutions == (if j.Repaired?
                                 then st.resolutions + ResolutionRecords(h, inv, j.repair, j.repair.resolutions)
                                 else st.resolutions)
  {
    if j.RejectedBound? {
      RetainFacts(h, seed, st, j.report);
    }
  }

  /** Settlement changes budget and identifiers by accounting alone. */
  lemma SettledFacts(h: Digests, seed: Seed, st: State, inv: Invocation, c: Completion, j: Judgement)
    requires j == Judge(h, seed, st, inv, c)
    ensures var t := Settled(h, seed, st, inv, c);
            var acc := Accounted(h, st, inv, c);
            && t.budget == acc.budget && t.pending.None?
            && t.invocationIds == st.invocationIds && t.executionIds == acc.executionIds
            && t.reports == (if j.Reviewed? then st.reports + [j.report] else st.reports)
            && t.artifact == (if j.Repaired? then j.repair.artifact else st.artifact)
            && t.resolutions == (if j.Repaired?
                                 then st.resolutions + ResolutionRecords(h, inv, j.repair, j.repair.resolutions)
                                 else st.resolutions)
  {
    var acc := Accounted(h, st, inv, c);
    ApplyFacts(h, seed, acc, inv, j);
    CappedFacts(h, seed, Apply(h, seed, acc, inv, j));
  }

  /** What a credited judgement has passed. */
  lemma JudgedFacts(h: Digests, seed: Seed, st: State, inv: Invocation, c: Completion, j: Judgement)
    requires j == Judge(h, seed, st, inv, c)
    ensures j.Reviewed? ==> ReportBindingFault(h, seed, Accounted(h, st, inv, c), inv, j.report).None?
    ensures j.Reviewed? ==> ReconcileFindings(h, seed, Accounted(h, st, inv, c), j.report).Ok?
    ensures j.Repaired? ==> RepairFault(h, seed, Accounted(h, st, inv, c), inv, j.repair).None?
  {
  }

  // A pending session is never terminal, and its call was admissible.

  predicate PendingSound(h: Digests, seed: Seed, st: State) {
    st.pending.Some? ==>
      var inv := st.pending.value;
      && st.terminal == []
      && inv.binding == BindingOf(h, st.artifact)
      && (inv.kind == Review ==>
            && |st.reports| < seed.policy.maxReviews
            && Independent(seed, st.artifact.producers, inv.actor))
      && (inv.kind == Repair ==> inv.actor == seed.originalDoer && NeedsRepair(h, st))
  }

  lemma ReservePending(h: Digests, seed: Seed, st: State, inv: Invocation)
    requires ReserveFault(h, seed, st, inv).None?
    ensures PendingSound(h, seed, Held(st, inv))
  {
    var t := Held(st, inv);
    assert forall fp :: fp in st.findings ==>
      (Reconciled(h, st, fp, st.findings[fp]) <==> Reconciled(h, t, fp, st.findings[fp]));
  }

  // The artifact's lineage is fixed, so independence at the seed holds for every later artifact.

  predicate SameLineage(a: Artifact, b: Artifact) {
    && a.scope == b.scope && a.key == b.key && a.producers == b.producers
    && a.contractDigest == b.contractDigest && a.contextDigest == b.contextDigest
  }

  predicate LineageKept(h: Digests, seed: Seed, st: State) {
    && SameLineage(st.artifact, seed.initialArtifact)
    && ArtifactBound(h, seed, seed.initialArtifact)
    && seed.reviewers != []
    && (forall r :: r in seed.reviewers ==> Independent(seed, st.artifact.producers, r))
  }

  lemma RepairKeepsLineage(h: Digests, seed: Seed, st: State, inv: Invocation, r: RepairReport)
    requires LineageKept(h, seed, st) && RepairFault(h, seed, st, inv, r).None?
    ensures SameLineage(r.artifact, seed.initialArtifact)
  {
  }

  lemma SettleLineage(h: Digests, seed: Seed, st: State, inv: Invocation, c: Completion)
    requires LineageKept(h, seed, st)
    ensures LineageKept(h, seed, Settled(h, seed, st, inv, c))
  {
    var acc := Accounted(h, st, inv, c);
    var j := Judge(h, seed, st, inv, c);
    JudgedFacts(h, seed, st, inv, c, j);
    SettledFacts(h, seed, st, inv, c, j);
    if j.Repaired? {
      RepairKeepsLineage(h, seed, acc, inv, j.repair);
    }
  }

  // Every closed record points to the report that closed it and the repair it rechecked.

  predicate Closes(h: Digests, fp: Digest, rec: FindingRecord, r: ReviewReport, k: Recheck, m: ResolutionRecord) {
    && rec.closedBy == Some(h.report(r))
    && rec.closedArtifact == Some(r.binding.artifactDigest)
    && k in r.rechecks && k.fingerprint == fp && k.status == RecheckPass
    && k.check == rec.finding.requiredRecheck
    && m.resolution.fingerprint == fp
    && h.resolution(m.resolution) == k.resolutionDigest
    && m.resolution.reportDigest == rec.reportDigest
    && m.artifactDigest == r.binding.artifactDigest
  }

  ghost predicate Accountable(h: Digests, st: State, fp: Digest, rec: FindingRecord) {
    rec.closedBy.Some? ==>
      exists r, k, m :: r in st.reports && m in st.resolutions && Closes(h, fp, rec, r, k, m)
  }

  ghost predicate ClosuresAccountable(h: Digests, st: State) {
    forall fp :: fp in st.findings ==> Accountable(h, st, fp, st.findings[fp])
  }

  lemma AccountableGrows(h: Digests, st: State, t: State, fp: Digest, rec: FindingRecord)
    requires Accountable(h, st, fp, rec)
    requires forall r :: r in st.reports ==> r in t.reports
    requires forall m :: m in st.resolutions ==> m in t.resolutions
    ensures Accountable(h, t, fp, rec)
  {
    if rec.closedBy.Some? {
      var r, k, m :| r in st.reports && m in st.resolutions && Closes(h, fp, rec, r, k, m);
      assert r in t.reports && m in t.resolutions;
    }
  }

  lemma PassAccountable(h: Digests, st: State, t: State, r: ReviewReport, fp: Digest)
    requires forall k :: k in r.rechecks ==> RecheckValid(h, st, r, k)
    requires PassedBy(r.rechecks, fp)
    requires r in t.reports && t.resolutions == st.resolutions
    ensures fp in st.findings
    ensures Accountable(h, t, fp, CloseRecord(h, st.findings[fp], r))
  {
    var k :| k in r.rechecks && k.fingerprint == fp && k.status == RecheckPass;
    assert RecheckValid(h, st, r, k);
    var m := LastResolution(st.resolutions, fp).value;
    assert Closes(h, fp, CloseRecord(h, st.findings[fp], r), r, k, m);
  }

  lemma ReviewAccountable(h: Digests, seed: Seed, st: State, inv: Invocation, r: ReviewReport)
    requires ClosuresAccountable(h, st)
    requires ReconcileFindings(h, seed, st, r).Ok?
    ensures ClosuresAccountable(h, Apply(h, seed, st, inv, Reviewed(r)))
  {
    var t := Apply(h, seed, st, inv, Reviewed(r));
    forall fp | fp in t.findings
      ensures Accountable(h, t, fp, t.findings[fp])
    {
      MergedAccountable(h, seed, st, t, r, fp);
    }
  }

  lemma MergedAccountable(h: Digests, seed: Seed, st: State, t: State, r: ReviewReport, fp: Digest)
    requires ClosuresAccountable(h, st) && (forall k :: k in r.rechecks ==> RecheckValid(h, st, r, k))
    requires t.reports == st.reports + [r] && t.resolutions == st.resolutions
    requires fp in st.findings || Reported(h, r.findings, fp).Some?
    ensures Accountable(h, t, fp, Counted(Merged(h, seed, st, r, r.rechecks, r.findings, fp)))
  {
    var rec := Merged(h, seed, st, r, r.rechecks, r.findings, fp);
    if Reported(h, r.findings, fp).None? && PassedBy(r.rechecks, fp) {
      assert r in t.reports;
      PassAccountable(h, st, t, r, fp);
    } else if fp in st.findings && rec == st.findings[fp] {
      AccountableGrows(h, st, t, fp, rec);
    }
  }

  lemma CappedAccountable(h: Digests, seed: Seed, t: State)
    requires ClosuresAccountable(h, t)
    ensures ClosuresAccountable(h, Capped(h, seed, t))
  {
    CappedFacts(h, seed, t);
    var u := Capped(h, seed, t);
    forall fp | fp in u.findings ensures Accountable(h, u, fp, u.findings[fp]) {
      AccountableGrows(h, t, u, fp, t.findings[fp]);
    }
  }

  lemma ApplyAccountable(h: Digests, seed: Seed, st: State, inv: Invocation, j: Judgement)
    requires ClosuresAccountable(h, st)
    requires j.Reviewed? ==> ReconcileFindings(h, seed, st, j.report).Ok?
    ensures ClosuresAccountable(h, Apply(h, seed, st, inv, j))
  {
    var t := Apply(h, seed, st, inv, j);
    if j.Reviewed? {
      ReviewAccountable(h, seed, st, inv, j.report);
    } else {
      forall fp | fp in t.findings ensures Accountable(h, t, fp, t.findings[fp]) {
        if fp in st.findings && t.findings[fp] == st.findings[fp] {
          AccountableGrows(h, st, t, fp, st.findings[fp]);
        }
      }
    }
  }

  lemma SettleAccountable(h: Digests, seed: Seed, st: State, inv: Invocation, c: Completion)
    requires ClosuresAccountable(h, st)
    ensures ClosuresAccountable(h, Settled(h, seed, st, inv, c))
  {
    var acc := Accounted(h, st, inv, c);
    var j := Judge(h, seed, st, inv, c);
    forall fp | fp in acc.findings ensures Accountable(h, acc, fp, acc.findings[fp]) {
      AccountableGrows(h, st, acc, fp, st.findings[fp]);
    }
    JudgedFacts(h, seed, st, inv, c, j);
    ApplyAccountable(h, seed, acc, inv, j);
    CappedAccountable(h, seed, Apply(h, seed, acc, inv, j));
  }

  // While the unit runs, every record comes from a credited report and carries its own key.

  predicate FromReport(h: Digests, st: State, fp: Digest, rec: FindingRecord) {
    && Fingerprint(h, rec.finding) == fp
    && exists r :: r in st.reports && rec.finding in r.findings && h.report(r) == rec.reportDigest
  }

  predicate RecordsCredited(h: Digests, st: State) {
    st.terminal == [] ==> forall fp :: fp in st.findings ==> FromReport(h, st, fp, st.findings[fp])
  }

  /** A reconciled record is either newly reported or keeps its finding and report. */
  lemma MergedSource(h: Digests, seed: Seed, st: State, r: ReviewReport, ks: seq<Recheck>, fs: seq<Finding>, fp: Digest)
    requires fp in st.findings || Reported(h, fs, fp).Some?
    ensures var rec := Merged(h, seed, st, r, ks, fs, fp);
            || (rec.finding in fs && Fingerprint(h, rec.finding) == fp && rec.reportDigest == h.report(r))
            || (fp in st.findings && rec.finding == st.findings[fp].finding
                && rec.reportDigest == st.findings[fp].reportDigest)
  {
  }

  lemma FromReportGrows(h: Digests, st: State, t: State, fp: Digest, previous: FindingRecord, rec: FindingRecord)
    requires FromReport(h, st, fp, previous)
    requires rec.finding == previous.finding && rec.reportDigest == previous.reportDigest
    requires forall r :: r in st.reports ==> r in t.reports
    ensures FromReport(h, t, fp, rec)
  {
    var q :| q in st.reports && previous.finding in q.findings && h.report(q) == previous.reportDigest;
    assert q in t.reports;
  }

  lemma ReviewRecords(h: Digests, seed: Seed, st: State, r: ReviewReport, t: State, fp: Digest)
    requires forall x :: x in st.findings ==> FromReport(h, st, x, st.findings[x])
    requires t.reports == st.reports + [r]
    requires fp in st.findings || Reported(h, r.findings, fp).Some?
    ensures FromReport(h, t, fp, Counted(Merged(h, seed, st, r, r.rechecks, r.findings, fp)))
  {
    var rec := Merged(h, seed, st, r, r.rechecks, r.findings, fp);
    MergedSource(h, seed, st, r, r.rechecks, r.findings, fp);
    if rec.finding in r.findings && Fingerprint(h, rec.finding) == fp && rec.reportDigest == h.report(r) {
      assert r in t.reports;
    } else {
      FromReportGrows(h, st, t, fp, st.findings[fp], Counted(rec));
    }
  }

  lemma ApplyRecords(h: Digests, seed: Seed, acc: State, inv: Invocation, j: Judgement)
    requires acc.terminal == []
    requires RecordsCredited(h, acc)
    ensures RecordsCredited(h, Capped(h, seed, Apply(h, seed, acc, inv, j)))
  {
    var t := Apply(h, seed, acc, inv, j);
    CappedFacts(h, seed, t);
    match j {
      case Rejected(reason) =>
        FailedFacts(seed, acc, reason);
      case RejectedBound(reason, r) =>
        FailedFacts(seed, RetainStops(h, seed, acc, r), reason);
        RetainFacts(h, seed, acc, r);
      case Reviewed(r) =>
        forall fp | fp in t.findings ensures FromReport(h, t, fp, t.findings[fp]) {
          ReviewRecords(h, seed, acc, r, t, fp);
        }
      case Repaired(r) =>
    }
  }

  lemma SettleRecords(h: Digests, seed: Seed, st: State, inv: Invocation, c: Completion)
    requires st.terminal == []
    requires RecordsCredited(h, st)
    ensures RecordsCredited(h, Settled(h, seed, st, inv, c))
  {
    var j := Judge(h, seed, st, inv, c);
    ApplyRecords(h, seed, Accounted(h, st, inv, c), inv, j);
  }

  // The repeated-blocker breaker.

  predicate BlockersCounted(seed: Seed, st: State) {
    st.terminal == [] ==>
      forall fp :: fp in st.findings && st.findings[fp].OpenBlocker() ==>
        1 <= st.findings[fp].occurrences < seed.policy.sameFailureLimit
  }

  lemma ReviewTerminalFacts(h: Digests, seed: Seed, st: State, r: ReviewReport)
    ensures Repeats(seed, Reconciliation(h, seed, st, r)) ==> RepeatedFailure in ReviewTerminal(h, seed, st, r)
    ensures forall x :: x in StopReasons(seed, r) ==> x in ReviewTerminal(h, seed, st, r)
  {
    var raw := When(Repeats(seed, Reconciliation(h, seed, st, r)), RepeatedFailure) + StopReasons(seed, r);
    if Repeats(seed, Reconciliation(h, seed, st, r)) {
      assert raw[0] == RepeatedFailure;
    }
  }

  /** A reconciliation without a repeat leaves every open blocker counted below the limit. */
  lemma CountedBelow(h: Digests, seed: Seed, st: State, r: ReviewReport, fp: Digest)
    requires !Repeats(seed, Reconciliation(h, seed, st, r))
    requires fp in Reconciliation(h, seed, st, r) && Reconciliation(h, seed, st, r)[fp].OpenBlocker()
    ensures 1 <= Reconciliation(h, seed, st, r)[fp].occurrences < seed.policy.sameFailureLimit
  {
  }

  lemma ReviewBlockers(h: Digests, seed: Seed, st: State, r: ReviewReport, t: State)
    requires t.findings == Reconciliation(h, seed, st, r)
    requires t.terminal == [] ==> ReviewTerminal(h, seed, st, r) == []
    ensures BlockersCounted(seed, t)
  {
    ReviewTerminalFacts(h, seed, st, r);
    if t.terminal == [] {
      forall fp | fp in t.findings && t.findings[fp].OpenBlocker()
        ensures 1 <= t.findings[fp].occurrences < seed.policy.sameFailureLimit
      {
        CountedBelow(h, seed, st, r, fp);
      }
    }
  }

  lemma ApplyBlockers(h: Digests, seed: Seed, acc: State, inv: Invocation, j: Judgement)
    requires acc.terminal == []
    requires BlockersCounted(seed, acc)
    ensures BlockersCounted(seed, Capped(h, seed, Apply(h, seed, acc, inv, j)))
  {
    var t := Apply(h, seed, acc, inv, j);
    CappedFacts(h, seed, t);
    match j {
      case Rejected(reason) =>
        FailedFacts(seed, acc, reason);
      case RejectedBound(reason, r) =>
        FailedFacts(seed, RetainStops(h, seed, acc, r), reason);
        RetainFacts(h, seed, acc, r);
      case Reviewed(r) =>
        ReviewBlockers(h, seed, acc, r, Capped(h, seed, t));
      case Repaired(r) =>
    }
  }

  lemma SettleBlockers(h: Digests, seed: Seed, st: State, inv: Invocation, c: Completion)
    requires st.terminal == []
    requires BlockersCounted(seed, st)
    ensures BlockersCounted(seed, Settled(h, seed, st, inv, c))
  {
    var j := Judge(h, seed, st, inv, c);
    ApplyBlockers(h, seed, Accounted(h, st, inv, c), inv, j);
  }

  // Failures since the last credited completion.

  /** The reasons that a running unit may have failed for since its last credit. */
  const RECOVERABLE: set<Reason> := {
    ReceiptUnavailable, MalformedReport, BindingMismatch, MissingEvidence,
    IncompleteCriteria, UnsupportedVerdict, InvalidClosure, InvalidRepair
  }

  predicate FailuresBounded(seed: Seed, st: State) {
    st.terminal == [] ==>
      forall x :: x in st.failures ==> x in RECOVERABLE && 1 <= st.failures[x] < seed.policy.sameFailureLimit
  }

  /** Identity faults cannot arise here: the reservation already checked independence. */
  lemma JudgedReasons(h: Digests, seed: Seed, st: State, inv: Invocation, c: Completion)
    requires st.pending == Some(inv) && PendingSound(h, seed, st)
    ensures var j := Judge(h, seed, st, inv, c);
            j.Rejected? || j.RejectedBound? ==> j.reason in RECOVERABLE || j.reason in FATAL
  {
    var acc := Accounted(h, st, inv, c);
    if c.output.Some? && ParseReview(c.output.value).Some? {
      var r := ParseReview(c.output.value).value;
      var fault := ReportBindingFault(h, seed, acc, inv, r);
      if inv.kind == Review && fault.Some? {
        assert RaisedReason(fault.value) in RECOVERABLE;
      }
      var incomplete := ReportFault(seed, acc, r);
      if incomplete.Some? {
        assert RaisedReason(incomplete.value) in RECOVERABLE + FATAL;
      }
    }
    if c.output.Some? && ParseRepair(c.output.value).Some? {
      var fault := RepairFault(h, seed, acc, inv, ParseRepair(c.output.value).value);
      if fault.Some? {
        assert RaisedReason(fault.value) in RECOVERABLE + FATAL;
      }
    }
  }

  lemma ApplyFailures(h: Digests, seed: Seed, acc: State, inv: Invocation, j: Judgement)
    requires acc.terminal == []
    requires FailuresBounded(seed, acc)
    requires j.Rejected? || j.RejectedBound? ==> j.reason in RECOVERABLE || j.reason in FATAL
    ensures FailuresBounded(seed, Capped(h, seed, Apply(h, seed, acc, inv, j)))
  {
    var t := Apply(h, seed, acc, inv, j);
    CappedFacts(h, seed, t);
    match j {
      case Rejected(reason) =>
        FailedFacts(seed, acc, reason);
      case RejectedBound(reason, r) =>
        FailedFacts(seed, RetainStops(h, seed, acc, r), reason);
        RetainFacts(h, seed, acc, r);
      case Reviewed(r) =>
      case Repaired(r) =>
    }
  }

  lemma SettleFailures(h: Digests, seed: Seed, st: State, inv: Invocation, c: Completion)
    requires st.pending == Some(inv) && PendingSound(h, seed, st)
    requires FailuresBounded(seed, st)
    ensures FailuresBounded(seed, Settled(h, seed, st, inv, c))
  {
    var j := Judge(h, seed, st, inv, c);
    JudgedReasons(h, seed, st, inv, c);
    ApplyFailures(h, seed, Accounted(h, st, inv, c), inv, j);
  }

  // Capacity.

  predicate SpareCapacity(h: Digests, seed: Seed, st: State) {
    && st.budget.invocations < seed.policy.maxInvocations
    && st.budget.tokensSpent < seed.policy.maxTokens
    && st.budget.costSpent < seed.policy.maxCost
    && |st.reports| < seed.policy.maxReviews
    && (NeedsRepair(h, st) ==> st.budget.repairs < seed.policy.maxRepairs)
  }

  predicate CapacityKnown(h: Digests, seed: Seed, st: State) {
    st.pending.None? ==> Eligible(h, seed, st) || st.terminal != [] || SpareCapacity(h, seed, st)
  }

  lemma SettleCapacity(h: Digests, seed: Seed, st: State, inv: Invocation, c: Completion)
    ensures CapacityKnown(h, seed, Settled(h, seed, st, inv, c))
  {
    CappedCapacity(h, seed, Apply(h, seed, Accounted(h, st, inv, c), inv, Judge(h, seed, st, inv, c)));
  }

  lemma CappedCapacity(h: Digests, seed: Seed, st: State)
    ensures CapacityKnown(h, seed, Capped(h, seed, st))
  {
    EligibleIff(h, seed, st);
    CappedFacts(h, seed, st);
    DedupeEmpty(st.terminal + CapacityReasons(h, seed, st));
  }

  predicate WithinCaps(seed: Seed, st: State) {
    |st.reports| <= seed.policy.maxReviews && st.budget.repairs <= seed.policy.maxRepairs
  }

  lemma SettleCaps(h: Digests, seed: Seed, st: State, inv: Invocation, c: Completion)
    requires st.pending == Some(inv) && PendingSound(h, seed, st) && WithinCaps(seed, st)
    ensures WithinCaps(seed, Settled(h, seed, st, inv, c))
  {
    var j := Judge(h, seed, st, inv, c);
    SettledFacts(h, seed, st, inv, c, j);
    if j.Reviewed? {
      ReviewCalled(h, seed, st, inv, c);
    }
  }

  lemma ReviewCalled(h: Digests, seed: Seed, st: State, inv: Invocation, c: Completion)
    requires Judge(h, seed, st, inv, c).Reviewed?
    ensures inv.kind == Review
  {
  }
}
