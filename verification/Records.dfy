/** What every completed attempt makes of each finding record, spelled on the report, the record before
    and the reports and repairs so far. */
module Records {
  import opened Basics
  import opened Domain
  import opened Rules
  import opened Findings
  import opened Reducer
  import opened Ledger
  import opened Invariants
  import opened Runs
  import opened Continuity
  import opened Credit
  import opened Outcomes

  function Print(h: Digests, f: Finding): Digest {
    h.fingerprint(f.criterion, f.behavior, f.cause)
  }

  /** A completed report or a recorded repair of the run cited this digest for the case. */
  predicate Seen(h: Digests, st: State, fp: Digest, d: Digest) {
    || (exists r, f, e :: r in st.reports && f in r.findings && Print(h, f) == fp && e in f.evidence && e.digest == d)
    || (exists r, k, e :: r in st.reports && k in r.rechecks && k.fingerprint == fp && e in k.evidence && e.digest == d)
    || (exists m, e :: m in st.resolutions && m.resolution.fingerprint == fp
                    && e in m.resolution.evidence && e.digest == d)
  }

  lemma ReportSeen(h: Digests, st: State, fp: Digest, d: Digest)
    ensures d in ReportsEvidence(h, st.reports, fp) <==>
              || (exists r, f, e :: r in st.reports && f in r.findings && Print(h, f) == fp
                                 && e in f.evidence && e.digest == d)
              || (exists r, k, e :: r in st.reports && k in r.rechecks && k.fingerprint == fp
                                 && e in k.evidence && e.digest == d)
  {
    if r, f, e :| r in st.reports && f in r.findings && Print(h, f) == fp && e in f.evidence && e.digest == d {
      assert d in ReportEvidence(h, r, fp);
    }
    if r, k, e :| r in st.reports && k in r.rechecks && k.fingerprint == fp && e in k.evidence && e.digest == d {
      assert d in ReportEvidence(h, r, fp);
    }
  }

  /** While the unit runs, what is known of a case is exactly what its reports and repairs cited. */
  lemma KnownIff(h: Digests, st: State, fp: Digest, d: Digest)
    requires fp in st.findings ==> FromReport(h, st, fp, st.findings[fp])
    ensures d in KnownEvidence(h, st, fp) <==> Seen(h, st, fp, d)
  {
    ReportSeen(h, st, fp, d);
    RepairSeen(st, fp, d);
    if fp in st.findings && d in DigestsOf(st.findings[fp].finding.evidence) {
      RecordSeen(h, st, fp, d);
    }
  }

  lemma RepairSeen(st: State, fp: Digest, d: Digest)
    ensures d in ResolutionsEvidence(st.resolutions, fp) <==>
              exists m, e :: m in st.resolutions && m.resolution.fingerprint == fp
                          && e in m.resolution.evidence && e.digest == d
  {
  }

  lemma RecordSeen(h: Digests, st: State, fp: Digest, d: Digest)
    requires fp in st.findings && FromReport(h, st, fp, st.findings[fp])
    requires d in DigestsOf(st.findings[fp].finding.evidence)
    ensures Seen(h, st, fp, d)
  {
    var f := st.findings[fp].finding;
    var r :| r in st.reports && f in r.findings && h.report(r) == st.findings[fp].reportDigest;
    var e :| e in f.evidence && e.digest == d;
    assert Print(h, f) == fp;
  }

  /** A closed case is news on another artifact, or with a digest nobody cited for it before. */
  predicate News(h: Digests, st: State, previous: FindingRecord, r: ReviewReport, f: Finding) {
    || previous.closedArtifact != Some(r.binding.artifactDigest)
    || exists e :: e in f.evidence && !Seen(h, st, Print(h, f), e.digest)
  }

  /** The record of a case that the credited report lists. */
  function ListedRecord(h: Digests, contract: Contract, st: State, r: ReviewReport, f: Finding): FindingRecord {
    var fp, digest := Print(h, f), h.report(r);
    if fp !in st.findings then
      FindingRecord(f, digest, MustBlock(contract, f), if MustBlock(contract, f) then 1 else 0, None, None)
    else
      var previous := st.findings[fp];
      var blocks := MustBlock(contract, f) || previous.blocking;
      if previous.closedBy.None? then
        FindingRecord(f, digest, blocks, previous.occurrences + if blocks then 1 else 0, None, None)
      else if News(h, st, previous, r, f) then FindingRecord(f, digest, blocks, if blocks then 1 else 0, None, None)
      else previous
  }

  /** The record of a case that the credited report does not list. */
  function UnlistedRecord(h: Digests, previous: FindingRecord, r: ReviewReport, fp: Digest): FindingRecord {
    if exists k :: k in r.rechecks && k.fingerprint == fp && k.status == RecheckPass
    then FindingRecord(previous.finding, previous.reportDigest, previous.blocking, previous.occurrences,
                       Some(h.report(r)), Some(r.binding.artifactDigest))
    else if previous.closedBy.None? && previous.blocking
    then FindingRecord(previous.finding, previous.reportDigest, true, previous.occurrences + 1, None,
                       previous.closedArtifact)
    else previous
  }

  /** The whole record table after a credited report. */
  ghost predicate TableReviewed(h: Digests, contract: Contract, st: State, r: ReviewReport,
                                after: map<Digest, FindingRecord>)
  {
    && (forall fp :: fp in after <==> fp in st.findings || exists f :: f in r.findings && Print(h, f) == fp)
    && (forall f :: f in r.findings ==>
          Print(h, f) in after && after[Print(h, f)] == ListedRecord(h, contract, st, r, f))
    && (forall fp :: fp in st.findings && (forall f :: f in r.findings ==> Print(h, f) != fp) ==>
          fp in after && after[fp] == UnlistedRecord(h, st.findings[fp], r, fp))
  }

  lemma NewsIff(h: Digests, st: State, r: ReviewReport, f: Finding)
    requires Print(h, f) in st.findings && FromReport(h, st, Print(h, f), st.findings[Print(h, f)])
    ensures Reopens(h, st, st.findings[Print(h, f)], r, f) <==> News(h, st, st.findings[Print(h, f)], r, f)
  {
    var fp := Print(h, f);
    forall d ensures d in KnownEvidence(h, st, fp) <==> Seen(h, st, fp, d) {
      KnownIff(h, st, fp, d);
    }
    if !(DigestsOf(f.evidence) <= KnownEvidence(h, st, fp)) {
      var d :| d in DigestsOf(f.evidence) && d !in KnownEvidence(h, st, fp);
      var e :| e in f.evidence && e.digest == d;
    }
    if e :| e in f.evidence && !Seen(h, st, fp, e.digest) {
      assert e.digest in DigestsOf(f.evidence);
    }
  }

  lemma ListedIs(h: Digests, seed: Seed, st: State, r: ReviewReport, f: Finding)
    requires WellFormedContract(seed.contract)
    requires Print(h, f) in st.findings ==> FromReport(h, st, Print(h, f), st.findings[Print(h, f)])
    ensures Counted(ReportedRecord(h, seed, st, r, f)) == ListedRecord(h, seed.contract, st, r, f)
  {
    BlockingIff(seed, f);
    if Print(h, f) in st.findings {
      NewsIff(h, st, r, f);
    }
  }

  lemma ReportedIs(h: Digests, fs: seq<Finding>, f: Finding)
    requires DistinctFindings(h, fs) && f in fs
    ensures Reported(h, fs, Fingerprint(h, f)) == Some(f)
  {
    var g := Reported(h, fs, Fingerprint(h, f)).value;
    var i :| 0 <= i < |fs| && fs[i] == f;
    var j :| 0 <= j < |fs| && fs[j] == g;
  }

  lemma ReconciledTable(h: Digests, seed: Seed, st: State, r: ReviewReport)
    requires WellFormedContract(seed.contract) && DistinctFindings(h, r.findings)
    requires forall fp :: fp in st.findings ==> FromReport(h, st, fp, st.findings[fp])
    ensures TableReviewed(h, seed.contract, st, r, Reconciliation(h, seed, st, r))
  {
    var after := Reconciliation(h, seed, st, r);
    forall fp ensures fp in after <==> fp in st.findings || exists f :: f in r.findings && Print(h, f) == fp {
      KeysReviewed(h, seed, st, r, fp);
    }
    forall f | f in r.findings
      ensures Print(h, f) in after && after[Print(h, f)] == ListedRecord(h, seed.contract, st, r, f)
    {
      ListedAt(h, seed, st, r, f);
    }
    forall fp | fp in st.findings && forall f :: f in r.findings ==> Print(h, f) != fp
      ensures fp in after && after[fp] == UnlistedRecord(h, st.findings[fp], r, fp)
    {
      UnlistedAt(h, seed, st, r, fp);
    }
  }

  lemma KeysReviewed(h: Digests, seed: Seed, st: State, r: ReviewReport, fp: Digest)
    ensures fp in Reconciliation(h, seed, st, r)
            <==> fp in st.findings || exists f :: f in r.findings && Print(h, f) == fp
  {
    assert fp in ReportedPrints(h, r.findings) <==> exists f :: f in r.findings && Print(h, f) == fp;
  }

  lemma ListedAt(h: Digests, seed: Seed, st: State, r: ReviewReport, f: Finding)
    requires WellFormedContract(seed.contract) && DistinctFindings(h, r.findings) && f in r.findings
    requires Print(h, f) in st.findings ==> FromReport(h, st, Print(h, f), st.findings[Print(h, f)])
    ensures Print(h, f) in Reconciliation(h, seed, st, r)
    ensures Reconciliation(h, seed, st, r)[Print(h, f)] == ListedRecord(h, seed.contract, st, r, f)
  {
    ReportedIs(h, r.findings, f);
    ListedIs(h, seed, st, r, f);
    MergedListed(h, seed, st, r, f);
  }

  lemma MergedListed(h: Digests, seed: Seed, st: State, r: ReviewReport, f: Finding)
    requires f in r.findings && Reported(h, r.findings, Fingerprint(h, f)) == Some(f)
    ensures Fingerprint(h, f) in Reconciliation(h, seed, st, r)
    ensures Reconciliation(h, seed, st, r)[Fingerprint(h, f)] == Counted(ReportedRecord(h, seed, st, r, f))
  {
    assert Fingerprint(h, f) in ReportedPrints(h, r.findings);
  }

  lemma UnlistedAt(h: Digests, seed: Seed, st: State, r: ReviewReport, fp: Digest)
    requires fp in st.findings && forall f :: f in r.findings ==> Print(h, f) != fp
    ensures fp in Reconciliation(h, seed, st, r)
    ensures Reconciliation(h, seed, st, r)[fp] == UnlistedRecord(h, st.findings[fp], r, fp)
  {
    assert Reported(h, r.findings, fp).None?;
    assert PassedBy(r.rechecks, fp)
           <==> exists k :: k in r.rechecks && k.fingerprint == fp && k.status == RecheckPass;
  }

  lemma SameTable(h: Digests, contract: Contract, st: State, acc: State, r: ReviewReport,
                  after: map<Digest, FindingRecord>)
    requires acc.findings == st.findings && acc.reports == st.reports && acc.resolutions == st.resolutions
    requires TableReviewed(h, contract, acc, r, after)
    ensures TableReviewed(h, contract, st, r, after)
  {
    forall f | f in r.findings ensures ListedRecord(h, contract, st, r, f) == ListedRecord(h, contract, acc, r, f) {
      SameListed(h, contract, st, acc, r, f);
    }
  }

  lemma SameListed(h: Digests, contract: Contract, st: State, acc: State, r: ReviewReport, f: Finding)
    requires acc.findings == st.findings && acc.reports == st.reports && acc.resolutions == st.resolutions
    ensures ListedRecord(h, contract, st, r, f) == ListedRecord(h, contract, acc, r, f)
  {
    forall d ensures Seen(h, st, Print(h, f), d) <==> Seen(h, acc, Print(h, f), d) {
    }
  }

  lemma StepTable(h: Digests, seed: Seed, st: State, a: Attempt, t: State)
    requires Step(h, seed, st, a) == Ok(t) && IsReviewed(StepJudgement(h, seed, st, a))
    requires WellFormedContract(seed.contract) && st.terminal == [] && RecordsCredited(h, st)
    ensures TableReviewed(h, seed.contract, st, StepJudgement(h, seed, st, a).value.report, t.findings)
  {
    var acc := Accounted(h, Held(st, a.invocation), a.invocation, a.completion.value);
    var r := StepJudgement(h, seed, st, a).value.report;
    ReviewFindings(h, seed, st, a, t);
    forall fp | fp in acc.findings ensures FromReport(h, acc, fp, acc.findings[fp]) {
      FromReportGrows(h, st, acc, fp, st.findings[fp], acc.findings[fp]);
    }
    ReconciledTable(h, seed, acc, r);
    SameTable(h, seed.contract, st, acc, r, t.findings);
  }

  // Uncredited reports.

  predicate IsStop(contract: Contract, f: Finding) {
    f.severity == Critical || f.kind == GapInContract || !Declared(contract, f.criterion)
  }

  /** Only the stopping findings of a bound report enter, open and blocking, with the count of before. */
  ghost predicate TableStopped(h: Digests, contract: Contract, st: State, r: ReviewReport,
                               after: map<Digest, FindingRecord>)
  {
    && (forall fp :: fp in after <==>
          fp in st.findings || exists f :: f in r.findings && IsStop(contract, f) && Print(h, f) == fp)
    && (forall f :: f in r.findings && IsStop(contract, f) ==>
          && Print(h, f) in after
          && after[Print(h, f)]
             == FindingRecord(f, h.report(r), true,
                              if Print(h, f) in st.findings then st.findings[Print(h, f)].occurrences else 0,
                              None, None))
    && (forall fp ::
          (fp in st.findings && forall f :: f in r.findings && IsStop(contract, f) ==> Print(h, f) != fp)
          ==> fp in after && after[fp] == st.findings[fp])
  }

  lemma StopIff(seed: Seed, f: Finding)
    ensures Stopping(seed, f) <==> IsStop(seed.contract, f)
  {
  }

  lemma {:induction false} StoppingDistinct(h: Digests, seed: Seed, fs: seq<Finding>, f: Finding)
    requires DistinctFindings(h, fs) && f in fs && Stopping(seed, f)
    ensures Reported(h, StoppingFindings(seed, fs), Fingerprint(h, f)) == Some(f)
  {
    var stops := StoppingFindings(seed, fs);
    assert f in stops;
    var g := Reported(h, stops, Fingerprint(h, f)).value;
    assert g in stops && g in fs;
    var i :| 0 <= i < |fs| && fs[i] == f;
    var j :| 0 <= j < |fs| && fs[j] == g;
  }

  lemma RetainedTable(h: Digests, seed: Seed, st: State, r: ReviewReport)
    requires DistinctFindings(h, r.findings)
    ensures TableStopped(h, seed.contract, st, r, RetainStops(h, seed, st, r).findings)
  {
    var after := RetainStops(h, seed, st, r).findings;
    forall f | f in r.findings ensures Stopping(seed, f) <==> IsStop(seed.contract, f) {
      StopIff(seed, f);
    }
    forall f | f in r.findings && Stopping(seed, f)
      ensures StopReasons(seed, r) != []
      ensures Reported(h, StoppingFindings(seed, r.findings), Fingerprint(h, f)) == Some(f)
    {
      StopGives(seed, r, f);
      StoppingDistinct(h, seed, r.findings, f);
    }
    forall fp ensures fp in after <==>
                        fp in st.findings
                        || exists f :: f in r.findings && IsStop(seed.contract, f) && Print(h, f) == fp
    {
      RetainedKeys(h, seed, st, r, fp);
    }
    forall f | f in r.findings && IsStop(seed.contract, f)
      ensures Print(h, f) in after
      ensures after[Print(h, f)]
           == FindingRecord(f, h.report(r), true,
                            if Print(h, f) in st.findings then st.findings[Print(h, f)].occurrences else 0, None, None)
    {
      RetainedAt(h, seed, st, r, f);
    }
    forall fp | fp in st.findings && forall f :: f in r.findings && IsStop(seed.contract, f) ==> Print(h, f) != fp
      ensures fp in after && after[fp] == st.findings[fp]
    {
      UnretainedAt(h, seed, st, r, fp);
    }
  }

  lemma StopGives(seed: Seed, r: ReviewReport, f: Finding)
    requires f in r.findings && Stopping(seed, f)
    ensures StopReasons(seed, r) != []
  {
    NamedStops(seed, r);
    assert CriticalStop in StopReasons(seed, r) || Reason.ContractGap in StopReasons(seed, r);
  }

  lemma RetainedKeys(h: Digests, seed: Seed, st: State, r: ReviewReport, fp: Digest)
    requires forall f :: f in r.findings ==> (Stopping(seed, f) <==> IsStop(seed.contract, f))
    requires forall f :: f in r.findings && Stopping(seed, f) ==> StopReasons(seed, r) != []
    ensures fp in RetainStops(h, seed, st, r).findings <==>
              fp in st.findings || exists f :: f in r.findings && IsStop(seed.contract, f) && Print(h, f) == fp
  {
    var stops := StoppingFindings(seed, r.findings);
    assert fp in ReportedPrints(h, stops) <==> exists f :: f in stops && Print(h, f) == fp;
  }

  lemma RetainedAt(h: Digests, seed: Seed, st: State, r: ReviewReport, f: Finding)
    requires f in r.findings && Stopping(seed, f) && StopReasons(seed, r) != []
    requires Reported(h, StoppingFindings(seed, r.findings), Fingerprint(h, f)) == Some(f)
    ensures Print(h, f) in RetainStops(h, seed, st, r).findings
    ensures RetainStops(h, seed, st, r).findings[Print(h, f)]
         == FindingRecord(f, h.report(r), true,
                          if Print(h, f) in st.findings then st.findings[Print(h, f)].occurrences else 0, None, None)
  {
    assert f in StoppingFindings(seed, r.findings);
  }

  lemma UnretainedAt(h: Digests, seed: Seed, st: State, r: ReviewReport, fp: Digest)
    requires forall f :: f in r.findings ==> (Stopping(seed, f) <==> IsStop(seed.contract, f))
    requires fp in st.findings && forall f :: f in r.findings && IsStop(seed.contract, f) ==> Print(h, f) != fp
    ensures fp in RetainStops(h, seed, st, r).findings
    ensures RetainStops(h, seed, st, r).findings[fp] == st.findings[fp]
  {
    assert Reported(h, StoppingFindings(seed, r.findings), fp).None?;
  }

  // The whole attempt.

  lemma StepStopped(h: Digests, seed: Seed, st: State, a: Attempt, t: State)
    requires Step(h, seed, st, a) == Ok(t) && StepJudgement(h, seed, st, a).Some?
    requires var j := StepJudgement(h, seed, st, a).value;
             j.RejectedBound? && DistinctFindings(h, j.report.findings)
    ensures TableStopped(h, seed.contract, st, StepJudgement(h, seed, st, a).value.report, t.findings)
  {
    var j := StepJudgement(h, seed, st, a).value;
    var acc := Accounted(h, Held(st, a.invocation), a.invocation, a.completion.value);
    StepSame(h, seed, st, a, t, j, Apply(h, seed, acc, a.invocation, j));
    RetainedTable(h, seed, acc, j.report);
    StoppedSame(h, seed, st, acc, j.report);
  }

  lemma StoppedSame(h: Digests, seed: Seed, st: State, acc: State, r: ReviewReport)
    requires acc.findings == st.findings
    requires TableStopped(h, seed.contract, acc, r, RetainStops(h, seed, acc, r).findings)
    ensures TableStopped(h, seed.contract, st, r, RetainStops(h, seed, acc, r).findings)
  {
  }

  lemma StepUntouched(h: Digests, seed: Seed, st: State, a: Attempt, t: State)
    requires Step(h, seed, st, a) == Ok(t) && StepJudgement(h, seed, st, a).Some?
    requires var j := StepJudgement(h, seed, st, a).value; j.Rejected? || j.Repaired?
    ensures t.findings == st.findings
  {
    var j := StepJudgement(h, seed, st, a).value;
    var acc := Accounted(h, Held(st, a.invocation), a.invocation, a.completion.value);
    StepSame(h, seed, st, a, t, j, Apply(h, seed, acc, a.invocation, j));
  }

  /** How the record table moves with any completed attempt: reviewed on credit, only stops from a bound
      report without credit, and not at all otherwise. */
  lemma AttemptRecords(h: Digests, seed: Seed, attempts: seq<Attempt>, k: nat)
    requires ValidLedger(h, seed, attempts) && k < |attempts| && attempts[k].completion.Some?
    ensures ValidLedger(h, seed, attempts[..k]) && ValidLedger(h, seed, attempts[..k + 1])
    ensures var st, t, a := StateOf(h, seed, attempts[..k]), StateOf(h, seed, attempts[..k + 1]), attempts[k];
            if !Heard(h, attempts[..k], a) then t.findings == st.findings
            else if EarnsCredit(h, seed, attempts[..k], st, a)
            then TableReviewed(h, seed.contract, st, ReviewIn(a).value, t.findings)
            else TableStopped(h, seed.contract, st, ReviewIn(a).value, t.findings)
  {
    LedgerStep(h, seed, attempts, k);
    LedgerLineage(h, seed, attempts[..k]);
    LedgerRecords(h, seed, attempts[..k]);
    var st, t, a := StateOf(h, seed, attempts[..k]), StateOf(h, seed, attempts[..k + 1]), attempts[k];
    AdmittedFacts(h, seed, st, a.invocation);
    HeardIff(h, seed, attempts[..k], st, a);
    StepMoves(h, seed, attempts[..k], st, a, t);
  }

  lemma StepMoves(h: Digests, seed: Seed, ledger: seq<Attempt>, st: State, a: Attempt, t: State)
    requires Step(h, seed, st, a) == Ok(t) && StepJudgement(h, seed, st, a).Some? && a.completion.Some?
    requires WellFormedContract(seed.contract) && st.terminal == [] && RecordsCredited(h, st)
    requires var j := StepJudgement(h, seed, st, a).value;
             && (j.Reviewed? || j.RejectedBound? <==> Heard(h, ledger, a))
             && (j.Reviewed? || j.RejectedBound? ==> Some(j.report) == ReviewIn(a))
             && (j.Reviewed? <==> EarnsCredit(h, seed, ledger, st, a) && a.invocation.kind == Review)
    ensures if !Heard(h, ledger, a) then t.findings == st.findings
            else if EarnsCredit(h, seed, ledger, st, a)
            then TableReviewed(h, seed.contract, st, ReviewIn(a).value, t.findings)
            else TableStopped(h, seed.contract, st, ReviewIn(a).value, t.findings)
  {
    var j := StepJudgement(h, seed, st, a).value;
    if j.Reviewed? {
      StepTable(h, seed, st, a, t);
    } else if j.RejectedBound? {
      StepStopped(h, seed, st, a, t);
    } else {
      StepUntouched(h, seed, st, a, t);
    }
  }

  /** A closed case that a credited review reports again is open afterwards, counted once if it blocks,
      exactly when the artifact changed since it was closed or a digest is new to the case; otherwise its
      record is untouched. */
  lemma ReopenedIff(h: Digests, seed: Seed, attempts: seq<Attempt>, k: nat, f: Finding)
    requires ValidLedger(h, seed, attempts) && k < |attempts| && Heard(h, attempts[..k], attempts[k])
    requires ValidLedger(h, seed, attempts[..k]) && ValidLedger(h, seed, attempts[..k + 1])
    requires EarnsCredit(h, seed, attempts[..k], StateOf(h, seed, attempts[..k]), attempts[k])
    requires f in ReviewIn(attempts[k]).value.findings
    requires Print(h, f) in StateOf(h, seed, attempts[..k]).findings
    requires StateOf(h, seed, attempts[..k]).findings[Print(h, f)].closedBy.Some?
    ensures Print(h, f) in StateOf(h, seed, attempts[..k + 1]).findings
    ensures var st, r := StateOf(h, seed, attempts[..k]), ReviewIn(attempts[k]).value;
            var previous, rec := st.findings[Print(h, f)], StateOf(h, seed, attempts[..k + 1]).findings[Print(h, f)];
            if previous.closedArtifact != Some(r.binding.artifactDigest)
               || exists e :: e in f.evidence && !Seen(h, st, Print(h, f), e.digest)
            then && rec.closedBy.None? && rec.finding == f && rec.reportDigest == h.report(r)
                 && rec.blocking == (previous.blocking || MustBlock(seed.contract, f))
                 && rec.occurrences == (if rec.blocking then 1 else 0)
            else rec == previous
  {
    AttemptRecords(h, seed, attempts, k);
  }
}
