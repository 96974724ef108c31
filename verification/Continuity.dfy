/** Finding continuity over whole runs: nothing recorded is dropped, no evidence is
    forgotten, no stop is lost, and a blocker cannot stay open through two reviews. */
module Continuity {
  import opened Basics
  import opened Domain
  import opened Rules
  import opened Findings
  import opened Reducer
  import opened Ledger
  import opened Invariants
  import opened Runs

  // Growth.

  predicate KeepsRecord(st: State, t: State, fp: Digest) {
    fp in st.findings ==> fp in t.findings && (st.findings[fp].blocking ==> t.findings[fp].blocking)
  }

  /** Later states know everything earlier ones did. */
  ghost predicate Grows(h: Digests, st: State, t: State) {
    && (forall fp :: KeepsRecord(st, t, fp))
    && (forall fp :: KnownEvidence(h, st, fp) <= KnownEvidence(h, t, fp))
    && st.reports <= t.reports
    && st.resolutions <= t.resolutions
  }

  /** A record's evidence stays known once its credited report is. */
  lemma CreditedEvidence(h: Digests, st: State, t: State, fp: Digest, rec: FindingRecord)
    requires FromReport(h, st, fp, rec)
    requires forall r :: r in st.reports ==> r in t.reports
    ensures DigestsOf(rec.finding.evidence) <= KnownEvidence(h, t, fp)
  {
    var r :| r in st.reports && rec.finding in r.findings && h.report(r) == rec.reportDigest;
    assert DigestsOf(rec.finding.evidence) <= ReportEvidence(h, r, fp);
  }

  lemma KnownGrows(h: Digests, st: State, t: State, fp: Digest)
    requires fp in st.findings ==> FromReport(h, st, fp, st.findings[fp])
    requires st.reports <= t.reports && st.resolutions <= t.resolutions
    ensures KnownEvidence(h, st, fp) <= KnownEvidence(h, t, fp)
  {
    if fp in st.findings {
      CreditedEvidence(h, st, t, fp, st.findings[fp]);
    }
    forall r | r in st.reports ensures r in t.reports {
      var i :| 0 <= i < |st.reports| && st.reports[i] == r;
      assert t.reports[i] == r;
    }
    forall m | m in st.resolutions ensures m in t.resolutions {
      var i :| 0 <= i < |st.resolutions| && st.resolutions[i] == m;
      assert t.resolutions[i] == m;
    }
  }

  lemma ApplyKeeps(h: Digests, seed: Seed, st: State, inv: Invocation, j: Judgement, fp: Digest)
    ensures KeepsRecord(st, Apply(h, seed, st, inv, j), fp)
  {
    match j {
      case Rejected(_) =>
      case Repaired(_) =>
      case RejectedBound(_, r) =>
      case Reviewed(r) =>
        if fp in st.findings {
          MergedBlocks(h, seed, st, r, fp);
        }
    }
  }

  lemma MergedBlocks(h: Digests, seed: Seed, st: State, r: ReviewReport, fp: Digest)
    requires fp in st.findings
    ensures st.findings[fp].blocking ==> Counted(Merged(h, seed, st, r, r.rechecks, r.findings, fp)).blocking
  {
  }

  lemma CappedKeeps(h: Digests, seed: Seed, st: State, inv: Invocation, j: Judgement, fp: Digest)
    ensures KeepsRecord(st, Capped(h, seed, Apply(h, seed, st, inv, j)), fp)
  {
    ApplyKeeps(h, seed, st, inv, j, fp);
    CappedFacts(h, seed, Apply(h, seed, st, inv, j));
  }

  lemma StepKeeps(h: Digests, seed: Seed, st: State, a: Attempt, t: State, fp: Digest)
    requires Step(h, seed, st, a) == Ok(t)
    ensures KeepsRecord(st, t, fp)
  {
    if a.completion.Some? {
      var held, c := Held(st, a.invocation), a.completion.value;
      StepSettles(h, seed, st, a, t);
      CappedKeeps(h, seed, Accounted(h, held, a.invocation, c), a.invocation,
                  Judge(h, seed, held, a.invocation, c), fp);
    }
  }

  lemma StepAppends(h: Digests, seed: Seed, st: State, a: Attempt, t: State)
    requires Step(h, seed, st, a) == Ok(t)
    ensures st.reports <= t.reports && st.resolutions <= t.resolutions
  {
    if a.completion.Some? {
      var held, c := Held(st, a.invocation), a.completion.value;
      StepSettles(h, seed, st, a, t);
      SettledFacts(h, seed, held, a.invocation, c, Judge(h, seed, held, a.invocation, c));
    }
  }

  lemma StepRuns(h: Digests, seed: Seed, st: State, a: Attempt)
    requires Step(h, seed, st, a).Ok?
    ensures st.terminal == []
  {
  }

  lemma StepGrows(h: Digests, seed: Seed, st: State, a: Attempt, t: State)
    requires Step(h, seed, st, a) == Ok(t)
    requires RecordsCredited(h, st)
    ensures Grows(h, st, t)
  {
    StepRuns(h, seed, st, a);
    StepAppends(h, seed, st, a, t);
    forall fp ensures KeepsRecord(st, t, fp) {
      StepKeeps(h, seed, st, a, t, fp);
    }
    forall fp ensures KnownEvidence(h, st, fp) <= KnownEvidence(h, t, fp) {
      KnownGrows(h, st, t, fp);
    }
  }

  lemma GrowsTrans(h: Digests, a: State, b: State, c: State)
    requires Grows(h, a, b) && Grows(h, b, c)
    ensures Grows(h, a, c)
  {
    forall fp ensures KeepsRecord(a, c, fp) {
      assert KeepsRecord(a, b, fp) && KeepsRecord(b, c, fp);
    }
    forall fp ensures KnownEvidence(h, a, fp) <= KnownEvidence(h, c, fp) {
      assert KnownEvidence(h, a, fp) <= KnownEvidence(h, b, fp);
    }
  }

  lemma LedgerRecords(h: Digests, seed: Seed, attempts: seq<Attempt>)
    requires ValidLedger(h, seed, attempts)
    ensures RecordsCredited(h, StateOf(h, seed, attempts))
    ensures BlockersCounted(seed, StateOf(h, seed, attempts))
    ensures ClosuresAccountable(h, StateOf(h, seed, attempts))
  {
    LedgerSound(h, seed, attempts);
  }

  /** Along a run no fingerprint is dropped, no blocker is downgraded, and known evidence,
      reports and resolutions only grow. */
  lemma {:induction false} RunGrows(h: Digests, seed: Seed, attempts: seq<Attempt>, k: nat)
    requires ValidLedger(h, seed, attempts) && k <= |attempts|
    ensures ValidLedger(h, seed, attempts[..k])
    ensures Grows(h, StateOf(h, seed, attempts[..k]), StateOf(h, seed, attempts))
  {
    if k == |attempts| {
      assert attempts[..k] == attempts;
    } else {
      var n := |attempts| - 1;
      StepAt(h, seed, attempts, n);
      assert attempts[..n + 1] == attempts;
      RunGrows(h, seed, attempts[..n], k);
      assert attempts[..n][..k] == attempts[..k];
      LedgerRecords(h, seed, attempts[..n]);
      StepGrows(h, seed, StateOf(h, seed, attempts[..n]), attempts[n], StateOf(h, seed, attempts));
      GrowsTrans(h, StateOf(h, seed, attempts[..k]), StateOf(h, seed, attempts[..n]), StateOf(h, seed, attempts));
    }
  }

  /** Every closed record of a valid session points to a credited report whose PASS recheck closed
      it and to a recorded repair of exactly that report made for the artifact it was closed on. */
  lemma ClosureProvenance(h: Digests, s: Session, fp: Digest)
    requires ValidSession(h, s)
    requires fp in s.state.findings && s.state.findings[fp].closedBy.Some?
    ensures exists r, k, m :: r in s.state.reports && m in s.state.resolutions
                           && Closes(h, fp, s.state.findings[fp], r, k, m)
  {
    LedgerRecords(h, s.seed, s.attempts);
    assert Accountable(h, s.state, fp, s.state.findings[fp]);
  }

  // Reopening.

  /** A closed case reported again on its unchanged artifact with evidence already known is untouched. */
  lemma ReportedAgain(h: Digests, seed: Seed, st: State, r: ReviewReport, f: Finding)
    requires DistinctFindings(h, r.findings) && f in r.findings
    requires var fp := Fingerprint(h, f);
             && fp in st.findings && !st.findings[fp].Open()
             && st.findings[fp].closedArtifact == Some(r.binding.artifactDigest)
             && DigestsOf(f.evidence) <= KnownEvidence(h, st, fp)
    ensures Fingerprint(h, f) in Reconciliation(h, seed, st, r)
    ensures Reconciliation(h, seed, st, r)[Fingerprint(h, f)] == st.findings[Fingerprint(h, f)]
  {
    var fp := Fingerprint(h, f);
    var g := Reported(h, r.findings, fp).value;
    assert g == f;
  }

  lemma KnownSame(h: Digests, st: State, t: State, fp: Digest)
    requires t.findings == st.findings && t.reports == st.reports && t.resolutions == st.resolutions
    ensures KnownEvidence(h, t, fp) == KnownEvidence(h, st, fp)
  {
  }

  lemma KnownLater(h: Digests, early: State, late: State, fp: Digest, evidence: set<Digest>)
    requires Grows(h, early, late) && evidence <= KnownEvidence(h, early, fp)
    ensures evidence <= KnownEvidence(h, late, fp)
  {
  }

  /** Over a whole run: if a credited review repeats a closed case on its unchanged artifact and
      every digest it cites was known at any earlier point, the case stays closed and uncounted. */
  lemma StaysClosed(h: Digests, seed: Seed, attempts: seq<Attempt>, k: nat, early: nat, f: Finding)
    requires ValidLedger(h, seed, attempts) && early <= k < |attempts|
    requires ValidLedger(h, seed, attempts[..k]) && ValidLedger(h, seed, attempts[..early])
    requires var j, st, fp := Judgements(h, seed, attempts)[k], StateOf(h, seed, attempts[..k]), Fingerprint(h, f);
             && IsReviewed(j) && f in j.value.report.findings
             && fp in st.findings && !st.findings[fp].Open()
             && st.findings[fp].closedArtifact == Some(j.value.report.binding.artifactDigest)
             && DigestsOf(f.evidence) <= KnownEvidence(h, StateOf(h, seed, attempts[..early]), fp)
    ensures ValidLedger(h, seed, attempts[..k + 1])
    ensures var before, after := StateOf(h, seed, attempts[..k]), StateOf(h, seed, attempts[..k + 1]);
            var fp := Fingerprint(h, f);
            fp in after.findings && after.findings[fp] == before.findings[fp]
  {
    StepAt(h, seed, attempts, k);
    JudgementAt(h, seed, attempts, k);
    RunGrows(h, seed, attempts[..k], early);
    assert attempts[..k][..early] == attempts[..early];
    KnownLater(h, StateOf(h, seed, attempts[..early]), StateOf(h, seed, attempts[..k]), Fingerprint(h, f),
               DigestsOf(f.evidence));
    ReviewRepeats(h, seed, StateOf(h, seed, attempts[..k]), attempts[k], StateOf(h, seed, attempts[..k + 1]), f);
  }

  /** A credited review replaces the record table by its reconciliation. */
  lemma ReviewFindings(h: Digests, seed: Seed, st: State, a: Attempt, t: State)
    requires Step(h, seed, st, a) == Ok(t) && IsReviewed(StepJudgement(h, seed, st, a))
    ensures var r := StepJudgement(h, seed, st, a).value.report;
            var acc := Accounted(h, Held(st, a.invocation), a.invocation, a.completion.value);
            && DistinctFindings(h, r.findings)
            && t.findings == Reconciliation(h, seed, acc, r)
            && (forall x :: x in ReviewTerminal(h, seed, acc, r) ==> x in t.terminal)
  {
    StepSettles(h, seed, st, a, t);
    ReviewApplied(h, seed, Held(st, a.invocation), a.invocation, a.completion.value,
                  StepJudgement(h, seed, st, a).value.report);
  }

  lemma ReviewApplied(h: Digests, seed: Seed, st: State, inv: Invocation, c: Completion, r: ReviewReport)
    requires Judge(h, seed, st, inv, c) == Reviewed(r)
    ensures var acc, t := Accounted(h, st, inv, c), Settled(h, seed, st, inv, c);
            && DistinctFindings(h, r.findings)
            && t.findings == Reconciliation(h, seed, acc, r)
            && (forall x :: x in ReviewTerminal(h, seed, acc, r) ==> x in t.terminal)
  {
    var acc := Accounted(h, st, inv, c);
    JudgedFacts(h, seed, st, inv, c, Reviewed(r));
    BoundDistinct(h, seed, acc, inv, r);
    CreditApplied(h, seed, acc, inv, r);
  }

  lemma BoundDistinct(h: Digests, seed: Seed, st: State, inv: Invocation, r: ReviewReport)
    requires ReportBindingFault(h, seed, st, inv, r).None?
    ensures DistinctFindings(h, r.findings)
  {
  }

  lemma CreditApplied(h: Digests, seed: Seed, st: State, inv: Invocation, r: ReviewReport)
    ensures var t := Capped(h, seed, Apply(h, seed, st, inv, Reviewed(r)));
            && t.findings == Reconciliation(h, seed, st, r)
            && (forall x :: x in ReviewTerminal(h, seed, st, r) ==> x in t.terminal)
  {
    CappedFacts(h, seed, Apply(h, seed, st, inv, Reviewed(r)));
  }

  lemma ReviewRepeats(h: Digests, seed: Seed, st: State, a: Attempt, t: State, f: Finding)
    requires Step(h, seed, st, a) == Ok(t) && IsReviewed(StepJudgement(h, seed, st, a))
    requires var r, fp := StepJudgement(h, seed, st, a).value.report, Fingerprint(h, f);
             && f in r.findings
             && fp in st.findings && !st.findings[fp].Open()
             && st.findings[fp].closedArtifact == Some(r.binding.artifactDigest)
             && DigestsOf(f.evidence) <= KnownEvidence(h, st, fp)
    ensures Fingerprint(h, f) in t.findings && t.findings[Fingerprint(h, f)] == st.findings[Fingerprint(h, f)]
  {
    var acc := Accounted(h, Held(st, a.invocation), a.invocation, a.completion.value);
    ReviewFindings(h, seed, st, a, t);
    KnownSame(h, st, acc, Fingerprint(h, f));
    ReportedAgain(h, seed, acc, StepJudgement(h, seed, st, a).value.report, f);
  }

  // The breaker.

  lemma SurvivorRepeats(h: Digests, seed: Seed, st: State, r: ReviewReport, fp: Digest)
    requires fp in st.findings && st.findings[fp].OpenBlocker() && 1 <= st.findings[fp].occurrences
    requires fp in Reconciliation(h, seed, st, r) && Reconciliation(h, seed, st, r)[fp].Open()
    ensures Repeats(seed, Reconciliation(h, seed, st, r))
  {
    assert Reconciliation(h, seed, st, r)[fp].occurrences >= 2;
  }

  /** A blocker open before and after a credited review, mentioned in it or not, ends the unit there. */
  lemma NoBlockerSurvives(h: Digests, seed: Seed, attempts: seq<Attempt>, k: nat, fp: Digest)
    requires ValidLedger(h, seed, attempts) && k < |attempts|
    requires ValidLedger(h, seed, attempts[..k]) && ValidLedger(h, seed, attempts[..k + 1])
    requires IsReviewed(Judgements(h, seed, attempts)[k])
    requires var before, after := StateOf(h, seed, attempts[..k]), StateOf(h, seed, attempts[..k + 1]);
             && fp in before.findings && before.findings[fp].OpenBlocker()
             && fp in after.findings && after.findings[fp].OpenBlocker()
    ensures RepeatedFailure in StateOf(h, seed, attempts[..k + 1]).terminal
    ensures k == |attempts| - 1
  {
    StepAt(h, seed, attempts, k);
    JudgementAt(h, seed, attempts, k);
    LedgerRecords(h, seed, attempts[..k]);
    var before, after := StateOf(h, seed, attempts[..k]), StateOf(h, seed, attempts[..k + 1]);
    StepFacts(h, seed, before, attempts[k], after);
    SurvivorEnds(h, seed, before, attempts[k], after, fp);
    if k < |attempts| - 1 {
      StepAt(h, seed, attempts, k + 1);
      StepFacts(h, seed, after, attempts[k + 1], StateOf(h, seed, attempts[..k + 2]));
    }
  }

  lemma SurvivorEnds(h: Digests, seed: Seed, st: State, a: Attempt, t: State, fp: Digest)
    requires Step(h, seed, st, a) == Ok(t) && IsReviewed(StepJudgement(h, seed, st, a))
    requires st.terminal == [] && BlockersCounted(seed, st)
    requires fp in st.findings && st.findings[fp].OpenBlocker()
    requires fp in t.findings && t.findings[fp].OpenBlocker()
    ensures RepeatedFailure in t.terminal
  {
    var acc := Accounted(h, Held(st, a.invocation), a.invocation, a.completion.value);
    var r := StepJudgement(h, seed, st, a).value.report;
    ReviewFindings(h, seed, st, a, t);
    SurvivorRepeats(h, seed, acc, r, fp);
    ReviewTerminalFacts(h, seed, acc, r);
  }

  /** In a running unit every open blocker has been counted, below the limit: with limit 1 there is none. */
  lemma BlockersBelowLimit(h: Digests, s: Session, fp: Digest)
    requires ValidSession(h, s) && s.state.terminal == []
    requires fp in s.state.findings && s.state.findings[fp].OpenBlocker()
    ensures 1 <= s.state.findings[fp].occurrences < s.seed.policy.sameFailureLimit
    ensures s.seed.policy.sameFailureLimit == 2
  {
    LedgerRecords(h, s.seed, s.attempts);
  }

  // Stops.

  lemma JudgedBound(h: Digests, seed: Seed, st: State, inv: Invocation, c: Completion, r: ReviewReport)
    requires c.stop.None? && InTime(seed, st, inv, c) && AccountFault(h, st.executionIds, inv, c).None?
    requires inv.kind == Review && c.output.Some? && ParseReview(c.output.value) == Some(r)
    requires ReportBindingFault(h, seed, Accounted(h, st, inv, c), inv, r).None?
    ensures var j := Judge(h, seed, st, inv, c);
            j == Reviewed(r) || (j.RejectedBound? && j.report == r)
  {
  }

  lemma ApplyStops(h: Digests, seed: Seed, st: State, inv: Invocation, j: Judgement)
    requires j.Reviewed? || j.RejectedBound?
    ensures forall x :: x in StopReasons(seed, j.report) ==> x in Capped(h, seed, Apply(h, seed, st, inv, j)).terminal
  {
    CappedFacts(h, seed, Apply(h, seed, st, inv, j));
    if j.RejectedBound? {
      RetainFacts(h, seed, st, j.report);
      FailedFacts(seed, RetainStops(h, seed, st, j.report), j.reason);
    } else {
      ReviewTerminalFacts(h, seed, st, j.report);
    }
  }

  /** Every stop of a report that reaches content checking and binds is terminal afterwards,
      whether the report is then credited or not. */
  lemma StopsKept(h: Digests, seed: Seed, st: State, inv: Invocation, c: Completion, r: ReviewReport)
    requires c.stop.None? && InTime(seed, st, inv, c) && AccountFault(h, st.executionIds, inv, c).None?
    requires inv.kind == Review && c.output.Some? && ParseReview(c.output.value) == Some(r)
    requires ReportBindingFault(h, seed, Accounted(h, st, inv, c), inv, r).None?
    ensures forall x :: x in StopReasons(seed, r) ==> x in Settled(h, seed, st, inv, c).terminal
    ensures var ends := Settled(h, seed, st, inv, c).terminal;
            && (r.verdict == Escalate ==> ReviewEscalated in ends)
            && ((exists f :: f in r.findings && f.severity == Critical) ==> CriticalStop in ends)
            && (r.verdict == ContractGapVerdict
                || (exists f :: f in r.findings
                             && (f.kind == GapInContract
                                 || forall c :: c in seed.contract.criteria ==> c.id != f.criterion))
                ==> Reason.ContractGap in ends)
            && (r.verdict == ContextGapVerdict
                || (exists item, c :: item in r.criteria && item.status == Unknown
                                   && c in seed.contract.criteria && c.mandatory && c.id == item.criterion)
                ==> ContextGap in ends)
  {
    NamedStops(seed, r);
    JudgedBound(h, seed, st, inv, c, r);
    ApplyStops(h, seed, Accounted(h, st, inv, c), inv, Judge(h, seed, st, inv, c));
  }

  predicate Inert(st: State, t: State, fp: Digest) {
    && t.reports == st.reports && t.resolutions == st.resolutions && t.artifact == st.artifact
    && (fp in t.findings && !t.findings[fp].Open() ==> fp in st.findings && t.findings[fp] == st.findings[fp])
    && (fp in st.findings ==> fp in t.findings && t.findings[fp].occurrences == st.findings[fp].occurrences)
    && (fp in t.findings && fp !in st.findings ==> t.findings[fp].occurrences == 0)
  }

  lemma RetainInert(h: Digests, seed: Seed, st: State, r: ReviewReport, fp: Digest)
    ensures Inert(st, RetainStops(h, seed, st, r), fp)
  {
  }

  lemma ApplyInert(h: Digests, seed: Seed, st: State, inv: Invocation, j: Judgement, fp: Digest)
    requires !j.Credited()
    ensures Inert(st, Capped(h, seed, Apply(h, seed, st, inv, j)), fp)
  {
    if j.RejectedBound? {
      RetainInert(h, seed, st, j.report, fp);
    }
    CappedFacts(h, seed, Apply(h, seed, st, inv, j));
  }

  /** An uncredited completion closes nothing, advances no occurrence counter, and credits nothing. */
  lemma UncreditedIsInert(h: Digests, seed: Seed, st: State, inv: Invocation, c: Completion, fp: Digest)
    requires !Judge(h, seed, st, inv, c).Credited()
    ensures Inert(st, Settled(h, seed, st, inv, c), fp)
  {
    ApplyInert(h, seed, Accounted(h, st, inv, c), inv, Judge(h, seed, st, inv, c), fp);
  }

  /** Whatever an attempt is settled to, the unit had no terminal reason before it: a credited
      review that replaces the reasons erases none. */
  lemma NothingOverwritten(h: Digests, seed: Seed, attempts: seq<Attempt>, k: nat)
    requires ValidLedger(h, seed, attempts) && k < |attempts|
    ensures ValidLedger(h, seed, attempts[..k])
    ensures StateOf(h, seed, attempts[..k]).terminal == []
  {
    StepAt(h, seed, attempts, k);
    StepFacts(h, seed, StateOf(h, seed, attempts[..k]), attempts[k], StateOf(h, seed, attempts[..k + 1]));
  }
}
