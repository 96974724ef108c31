/** Repair discipline: a credited repair answers every open blocker, and only a
    credited review can ask for another one. */
module Repairs {
  import opened Basics
  import opened Domain
  import opened Rules
  import opened Findings
  import opened Reducer
  import opened Ledger
  import opened Invariants
  import opened Runs

  lemma RepairAnswersAll(h: Digests, seed: Seed, st: State, inv: Invocation, r: RepairReport)
    requires RepairFault(h, seed, st, inv, r).None?
    ensures !NeedsRepair(h, Apply(h, seed, st, inv, Repaired(r)))
  {
    var t := Apply(h, seed, st, inv, Repaired(r));
    forall fp | fp in t.findings && t.findings[fp].OpenBlocker()
      ensures Reconciled(h, t, fp, t.findings[fp])
    {
      assert Proposes(r.resolutions, fp);
      var i :| 0 <= i < |r.resolutions| && r.resolutions[i].fingerprint == fp;
      assert ResolutionFault(h, st, r, r.resolutions[i]).None?;
      var m := ResolutionRecords(h, inv, r, r.resolutions)[i];
      assert m in t.resolutions;
    }
  }

  lemma SameNeed(h: Digests, st: State, t: State)
    requires t.findings == st.findings && t.resolutions == st.resolutions && t.artifact == st.artifact
    ensures NeedsRepair(h, t) <==> NeedsRepair(h, st)
  {
    forall fp | fp in st.findings
      ensures Reconciled(h, t, fp, t.findings[fp]) <==> Reconciled(h, st, fp, st.findings[fp]) {
    }
  }

  /** After a credited repair nothing needs repair. */
  lemma RepairSettles(h: Digests, seed: Seed, st: State, inv: Invocation, c: Completion)
    requires Judge(h, seed, st, inv, c).Repaired?
    ensures !NeedsRepair(h, Settled(h, seed, st, inv, c))
  {
    var acc := Accounted(h, st, inv, c);
    var r := Judge(h, seed, st, inv, c).repair;
    RepairAnswersAll(h, seed, acc, inv, r);
    var t := Apply(h, seed, acc, inv, Repaired(r));
    CappedFacts(h, seed, t);
    SameNeed(h, t, Capped(h, seed, t));
  }

  /** A rejected completion that leaves the unit running does not change what needs repair. A
      retained stop may, but then the unit is terminal. */
  lemma RejectionKeepsNeed(h: Digests, seed: Seed, st: State, inv: Invocation, c: Completion)
    requires !Judge(h, seed, st, inv, c).Credited()
    requires Settled(h, seed, st, inv, c).terminal == []
    ensures NeedsRepair(h, Settled(h, seed, st, inv, c)) <==> NeedsRepair(h, st)
  {
    var acc := Accounted(h, st, inv, c);
    var j := Judge(h, seed, st, inv, c);
    var t := Apply(h, seed, acc, inv, j);
    CappedFacts(h, seed, t);
    if j.RejectedBound? {
      RetainFacts(h, seed, acc, j.report);
      FailedFacts(seed, RetainStops(h, seed, acc, j.report), j.reason);
    }
    SameNeed(h, st, t);
  }

  predicate HasStop(seed: Seed, r: ReviewReport) {
    exists f :: f in r.findings && Stopping(seed, f)
  }

  predicate Cited(st: State, reportDigest: Digest) {
    exists m :: m in st.resolutions && m.resolution.reportDigest == reportDigest
  }

  lemma StopNamed(seed: Seed, r: ReviewReport)
    requires HasStop(seed, r)
    ensures StopReasons(seed, r) != []
  {
  }

  lemma StopOpensNeed(h: Digests, seed: Seed, st: State, r: ReviewReport)
    requires HasStop(seed, r) && !Cited(st, h.report(r))
    ensures NeedsRepair(h, RetainStops(h, seed, st, r))
  {
    StopNamed(seed, r);
    var t := RetainStops(h, seed, st, r);
    var f :| f in r.findings && Stopping(seed, f);
    var fp := Fingerprint(h, f);
    assert f in StoppingFindings(seed, r.findings);
    assert fp in t.findings && t.findings[fp].OpenBlocker();
    assert t.findings[fp].reportDigest == h.report(r);
  }

  lemma StopWitness(seed: Seed, r: ReviewReport)
    ensures StoppingFindings(seed, r.findings) != [] ==> HasStop(seed, r)
  {
    var stops := StoppingFindings(seed, r.findings);
    if stops != [] {
      assert stops[0] in stops;
    }
  }

  lemma NoStopNoNeed(h: Digests, seed: Seed, st: State, r: ReviewReport)
    requires !HasStop(seed, r) && !NeedsRepair(h, st)
    ensures !NeedsRepair(h, RetainStops(h, seed, st, r))
  {
    StopWitness(seed, r);
    SameNeed(h, st, RetainStops(h, seed, st, r));
  }

  /** Exactly when an uncredited completion creates a need: its report binds and carries a critical,
      contract-gap or out-of-contract finding. The unit is then terminal, so no repair follows. */
  lemma NeedAfterRejection(h: Digests, seed: Seed, st: State, inv: Invocation, c: Completion)
    requires !Judge(h, seed, st, inv, c).Credited() && !NeedsRepair(h, st)
    requires var j := Judge(h, seed, st, inv, c); j.RejectedBound? ==> !Cited(st, h.report(j.report))
    ensures var j, t := Judge(h, seed, st, inv, c), Settled(h, seed, st, inv, c);
            && (NeedsRepair(h, t) <==> j.RejectedBound? && HasStop(seed, j.report))
            && (NeedsRepair(h, t) ==> t.terminal != [])
  {
    var j := Judge(h, seed, st, inv, c);
    NeedAfterApply(h, seed, st, Accounted(h, st, inv, c), inv, j);
    if Settled(h, seed, st, inv, c).terminal == [] {
      RejectionKeepsNeed(h, seed, st, inv, c);
    }
  }

  lemma NeedAfterApply(h: Digests, seed: Seed, st: State, acc: State, inv: Invocation, j: Judgement)
    requires !j.Credited() && !NeedsRepair(h, st)
    requires acc.findings == st.findings && acc.resolutions == st.resolutions && acc.artifact == st.artifact
    requires j.RejectedBound? ==> !Cited(st, h.report(j.report))
    ensures NeedsRepair(h, Capped(h, seed, Apply(h, seed, acc, inv, j)))
            <==> j.RejectedBound? && HasStop(seed, j.report)
  {
    var t := Apply(h, seed, acc, inv, j);
    CappedFacts(h, seed, t);
    SameNeed(h, st, acc);
    SameNeed(h, t, Capped(h, seed, t));
    if j.Rejected? {
      SameNeed(h, acc, t);
    } else {
      SameNeed(h, RetainStops(h, seed, acc, j.report), t);
      if HasStop(seed, j.report) {
        StopOpensNeed(h, seed, acc, j.report);
      } else {
        NoStopNoNeed(h, seed, acc, j.report);
      }
    }
  }

  /** A repair is admitted, and hence credited, only when something needs repair. */
  lemma RepairNeeded(h: Digests, seed: Seed, st: State, a: Attempt)
    requires ReserveFault(h, seed, st, a.invocation).None? && IsRepaired(StepJudgement(h, seed, st, a))
    ensures NeedsRepair(h, st)
  {
    assert a.invocation.kind == Repair;
  }

  lemma StepQuiet(h: Digests, seed: Seed, st: State, a: Attempt, t: State)
    requires Step(h, seed, st, a) == Ok(t) && t.terminal == []
    requires var j := StepJudgement(h, seed, st, a); j.Some? ==> !j.value.Credited()
    requires !NeedsRepair(h, st)
    ensures !NeedsRepair(h, t)
  {
    var held := Held(st, a.invocation);
    SameNeed(h, st, held);
    StepAdmitted(h, seed, st, a, t);
    if a.completion.Some? {
      StepSettles(h, seed, st, a, t);
      RejectionKeepsNeed(h, seed, held, a.invocation, a.completion.value);
    }
  }

  /** One entry that is not a credited review leaves nothing needing repair, if nothing did
      before it or if it is a credited repair. */
  lemma QuietStep(h: Digests, seed: Seed, st: State, a: Attempt, t: State)
    requires Step(h, seed, st, a) == Ok(t) && t.terminal == []
    requires !IsReviewed(StepJudgement(h, seed, st, a))
    requires IsRepaired(StepJudgement(h, seed, st, a)) || !NeedsRepair(h, st)
    ensures !NeedsRepair(h, t)
  {
    if IsRepaired(StepJudgement(h, seed, st, a)) {
      RepairQuiets(h, seed, st, a, t);
    } else {
      StepQuiet(h, seed, st, a, t);
    }
  }

  lemma RunningBefore(h: Digests, seed: Seed, st: State, a: Attempt, t: State)
    requires Step(h, seed, st, a) == Ok(t)
    ensures st.terminal == [] && ReserveFault(h, seed, st, a.invocation).None?
  {
  }

  /** From a credited repair until the next credited review nothing needs repair. */
  lemma QuietAfterRepair(h: Digests, seed: Seed, attempts: seq<Attempt>, i: nat, j: nat)
    requires ValidLedger(h, seed, attempts) && i < j <= |attempts|
    requires IsRepaired(Judgements(h, seed, attempts)[i])
    requires forall k :: i < k < j ==> !IsReviewed(Judgements(h, seed, attempts)[k])
    requires ValidLedger(h, seed, attempts[..j]) && StateOf(h, seed, attempts[..j]).terminal == []
    ensures !NeedsRepair(h, StateOf(h, seed, attempts[..j]))
  {
    var js, needs := Judgements(h, seed, attempts), NeedsUpTo(h, seed, attempts, j);
    NoneReviewed(js, i, j);
    QuietTable(h, seed, attempts, js, needs, i, j);
    StaysQuiet(js, needs, i, j);
    LastNeed(h, seed, attempts, needs, j);
  }

  function NeedsUpTo(h: Digests, seed: Seed, attempts: seq<Attempt>, j: nat): seq<bool>
    requires j <= |attempts|
  {
    seq(j + 1, k requires 0 <= k <= j => NeedAt(h, seed, attempts, k))
  }

  lemma LastNeed(h: Digests, seed: Seed, attempts: seq<Attempt>, needs: seq<bool>, j: nat)
    requires j <= |attempts| && needs == NeedsUpTo(h, seed, attempts, j)
    requires ValidLedger(h, seed, attempts[..j]) && !needs[j]
    ensures !NeedsRepair(h, StateOf(h, seed, attempts[..j]))
  {
  }

  lemma NoneReviewed(js: seq<Option<Judgement>>, i: nat, j: nat)
    requires i < j <= |js| && IsRepaired(js[i]) && forall k :: i < k < j ==> !IsReviewed(js[k])
    ensures forall k :: i <= k < j ==> !IsReviewed(js[k])
  {
  }

  lemma QuietTable(h: Digests, seed: Seed, attempts: seq<Attempt>, js: seq<Option<Judgement>>, needs: seq<bool>,
                   i: nat, j: nat)
    requires ValidLedger(h, seed, attempts) && i < j <= |attempts| && js == Judgements(h, seed, attempts)
    requires ValidLedger(h, seed, attempts[..j]) && StateOf(h, seed, attempts[..j]).terminal == []
    requires needs == NeedsUpTo(h, seed, attempts, j) && forall k :: i <= k < j ==> !IsReviewed(js[k])
    ensures forall k :: i <= k < j ==> Carries(js, needs, k)
  {
    forall k | i <= k < j ensures Carries(js, needs, k) {
      NeedsAt(h, seed, attempts, needs, j, k);
      NeedsAt(h, seed, attempts, needs, j, k + 1);
      CarriesAt(h, seed, attempts, js, needs, k, j);
    }
  }

  lemma NeedsAt(h: Digests, seed: Seed, attempts: seq<Attempt>, needs: seq<bool>, j: nat, k: nat)
    requires k <= j <= |attempts| && needs == NeedsUpTo(h, seed, attempts, j)
    ensures k < |needs| && needs[k] == NeedAt(h, seed, attempts, k)
  {
  }

  lemma CarriesAt(h: Digests, seed: Seed, attempts: seq<Attempt>, js: seq<Option<Judgement>>, needs: seq<bool>,
                  k: nat, j: nat)
    requires ValidLedger(h, seed, attempts) && k < j <= |attempts| && js == Judgements(h, seed, attempts)
    requires ValidLedger(h, seed, attempts[..j]) && StateOf(h, seed, attempts[..j]).terminal == []
    requires !IsReviewed(js[k]) && |needs| > k + 1
    requires needs[k] == NeedAt(h, seed, attempts, k) && needs[k + 1] == NeedAt(h, seed, attempts, k + 1)
    ensures Carries(js, needs, k)
  {
    if IsRepaired(js[k]) || !needs[k] {
      QuietBy(h, seed, attempts, k, j);
    }
  }

  /** A credited repair, or quiet before, gives quiet after. */
  predicate Carries(js: seq<Option<Judgement>>, needs: seq<bool>, k: nat)
    requires k < |js| && k + 1 < |needs|
  {
    IsRepaired(js[k]) || !needs[k] ==> !needs[k + 1]
  }

  /** Something needs repair after the first `k` attempts. */
  predicate NeedAt(h: Digests, seed: Seed, attempts: seq<Attempt>, k: nat)
    requires k <= |attempts|
  {
    ValidLedger(h, seed, attempts[..k]) && NeedsRepair(h, StateOf(h, seed, attempts[..k]))
  }

  lemma {:induction false} StaysQuiet(js: seq<Option<Judgement>>, needs: seq<bool>, i: nat, j: nat)
    requires i < j <= |js| && |needs| > j && IsRepaired(js[i])
    requires forall k :: i <= k < j ==> Carries(js, needs, k)
    ensures !needs[j]
  {
    if i < j - 1 {
      StaysQuiet(js, needs, i, j - 1);
    }
    assert Carries(js, needs, j - 1);
  }

  /** One more attempt, with the unit still running after the first `j`. */
  lemma QuietBy(h: Digests, seed: Seed, attempts: seq<Attempt>, k: nat, j: nat)
    requires ValidLedger(h, seed, attempts) && k < j <= |attempts|
    requires ValidLedger(h, seed, attempts[..j]) && StateOf(h, seed, attempts[..j]).terminal == []
    requires !IsReviewed(Judgements(h, seed, attempts)[k])
    requires IsRepaired(Judgements(h, seed, attempts)[k]) || !NeedAt(h, seed, attempts, k)
    ensures !NeedAt(h, seed, attempts, k + 1)
  {
    PlainStep(h, seed, attempts, k);
    if k + 1 < j {
      RunsUpTo(h, seed, attempts, k + 1);
    }
    QuietOnce(h, seed, attempts, k);
  }

  /** A ledger that goes on was running before. */
  lemma RunsUpTo(h: Digests, seed: Seed, attempts: seq<Attempt>, k: nat)
    requires ValidLedger(h, seed, attempts) && k < |attempts|
    ensures ValidLedger(h, seed, attempts[..k]) && StateOf(h, seed, attempts[..k]).terminal == []
  {
    PlainStep(h, seed, attempts, k);
  }

  lemma QuietOnce(h: Digests, seed: Seed, attempts: seq<Attempt>, k: nat)
    requires ValidLedger(h, seed, attempts) && k < |attempts|
    requires ValidLedger(h, seed, attempts[..k]) && ValidLedger(h, seed, attempts[..k + 1])
    requires !IsReviewed(Judgements(h, seed, attempts)[k]) && StateOf(h, seed, attempts[..k + 1]).terminal == []
    requires IsRepaired(Judgements(h, seed, attempts)[k]) || !NeedsRepair(h, StateOf(h, seed, attempts[..k]))
    ensures !NeedsRepair(h, StateOf(h, seed, attempts[..k + 1]))
  {
    PlainStep(h, seed, attempts, k);
    QuietStep(h, seed, StateOf(h, seed, attempts[..k]), attempts[k], StateOf(h, seed, attempts[..k + 1]));
  }

  /** The step at `k`: from a running state, by the judgement the ledger lists. */
  lemma PlainStep(h: Digests, seed: Seed, attempts: seq<Attempt>, k: nat)
    requires ValidLedger(h, seed, attempts) && k < |attempts|
    ensures ValidLedger(h, seed, attempts[..k]) && ValidLedger(h, seed, attempts[..k + 1])
    ensures var st, t := StateOf(h, seed, attempts[..k]), StateOf(h, seed, attempts[..k + 1]);
            && Step(h, seed, st, attempts[k]) == Ok(t) && st.terminal == []
            && Judgements(h, seed, attempts)[k] == StepJudgement(h, seed, st, attempts[k])
  {
    StepAt(h, seed, attempts, k);
    JudgementAt(h, seed, attempts, k);
    RunningBefore(h, seed, StateOf(h, seed, attempts[..k]), attempts[k], StateOf(h, seed, attempts[..k + 1]));
  }

  lemma RepairQuiets(h: Digests, seed: Seed, st: State, a: Attempt, t: State)
    requires Step(h, seed, st, a) == Ok(t) && IsRepaired(StepJudgement(h, seed, st, a))
    ensures !NeedsRepair(h, t)
  {
    StepSettles(h, seed, st, a, t);
    RepairSettles(h, seed, Held(st, a.invocation), a.invocation, a.completion.value);
  }

  /** Between two credited repairs there is a credited review. */
  lemma ReviewBetweenRepairs(h: Digests, seed: Seed, attempts: seq<Attempt>, i: nat, j: nat)
    requires ValidLedger(h, seed, attempts) && i < j < |attempts|
    requires IsRepaired(Judgements(h, seed, attempts)[i]) && IsRepaired(Judgements(h, seed, attempts)[j])
    ensures exists k :: i < k < j && IsReviewed(Judgements(h, seed, attempts)[k])
  {
    if forall k :: i < k < j ==> !IsReviewed(Judgements(h, seed, attempts)[k]) {
      StepAt(h, seed, attempts, j);
      JudgementAt(h, seed, attempts, j);
      var st := StateOf(h, seed, attempts[..j]);
      RunningBefore(h, seed, st, attempts[j], StateOf(h, seed, attempts[..j + 1]));
      QuietAfterRepair(h, seed, attempts, i, j);
      RepairNeeded(h, seed, st, attempts[j]);
    }
  }

  /** Scope, key, producers, contract and context never change along a run. */
  lemma LineageFixed(h: Digests, s: Session, reviewer: Model)
    requires ValidSession(h, s) && reviewer in s.seed.reviewers
    ensures SameLineage(s.state.artifact, s.seed.initialArtifact)
    ensures ArtifactBound(h, s.seed, s.state.artifact)
    ensures Independent(s.seed, s.state.artifact.producers, reviewer)
    ensures forall p :: p in s.state.artifact.producers ==>
              && reviewer.canonical != p.canonical && reviewer.model != p.model
              && (s.seed.contract.riskTier == T2 || s.seed.policy.requireDifferentFamily ==>
                    reviewer.family != p.family)
              && p.family.Some? && p.qualification.Some? && p.capabilities != []
              && reviewer.family.Some? && reviewer.qualification.Some? && reviewer.capabilities != []
  {
    LedgerSound(h, s.seed, s.attempts);
  }

  // When a need returns.

  /** Every recorded repair answers a completed report. */
  predicate ResolutionsCite(h: Digests, st: State) {
    forall m :: m in st.resolutions ==> exists q :: q in st.reports && h.report(q) == m.resolution.reportDigest
  }

  lemma RepairCites(h: Digests, seed: Seed, st: State, inv: Invocation, r: RepairReport, n: Resolution)
    requires RepairFault(h, seed, st, inv, r).None? && n in r.resolutions
    requires forall fp :: fp in st.findings ==> FromReport(h, st, fp, st.findings[fp])
    ensures exists q :: q in st.reports && h.report(q) == n.reportDigest
  {
    assert ResolutionFault(h, st, r, n).None?;
    assert FromReport(h, st, n.fingerprint, st.findings[n.fingerprint]);
  }

  lemma CitesGrow(h: Digests, st: State, t: State, more: seq<ResolutionRecord>)
    requires ResolutionsCite(h, st) && t.resolutions == st.resolutions + more
    requires forall q :: q in st.reports ==> q in t.reports
    requires forall m :: m in more ==> exists q :: q in t.reports && h.report(q) == m.resolution.reportDigest
    ensures ResolutionsCite(h, t)
  {
    forall m | m in t.resolutions ensures exists q :: q in t.reports && h.report(q) == m.resolution.reportDigest {
      if m in st.resolutions {
        var q :| q in st.reports && h.report(q) == m.resolution.reportDigest;
        assert q in t.reports;
      }
    }
  }

  lemma SettleCites(h: Digests, seed: Seed, st: State, inv: Invocation, c: Completion)
    requires st.terminal == [] && RecordsCredited(h, st) && ResolutionsCite(h, st)
    ensures ResolutionsCite(h, Settled(h, seed, st, inv, c))
  {
    var acc, j := Accounted(h, st, inv, c), Judge(h, seed, st, inv, c);
    JudgedFacts(h, seed, st, inv, c, j);
    SettledFacts(h, seed, st, inv, c, j);
    if j.Repaired? {
      var more := ResolutionRecords(h, inv, j.repair, j.repair.resolutions);
      RecordsCarried(h, st, acc);
      forall m | m in more ensures exists q :: q in st.reports && h.report(q) == m.resolution.reportDigest {
        RepairCites(h, seed, acc, inv, j.repair, m.resolution);
      }
      CitesGrow(h, st, Settled(h, seed, st, inv, c), more);
    } else {
      CitesGrow(h, st, Settled(h, seed, st, inv, c), []);
    }
  }

  lemma RecordsCarried(h: Digests, st: State, acc: State)
    requires st.terminal == [] && RecordsCredited(h, st)
    requires acc.findings == st.findings && acc.reports == st.reports
    ensures forall fp :: fp in acc.findings ==> FromReport(h, acc, fp, acc.findings[fp])
  {
    forall fp | fp in acc.findings ensures FromReport(h, acc, fp, acc.findings[fp]) {
      FromReportGrows(h, st, acc, fp, st.findings[fp], acc.findings[fp]);
    }
  }

  lemma StepCites(h: Digests, seed: Seed, st: State, a: Attempt, t: State)
    requires Step(h, seed, st, a) == Ok(t) && RecordsCredited(h, st) && ResolutionsCite(h, st)
    ensures ResolutionsCite(h, t)
  {
    StepAdmitted(h, seed, st, a, t);
    AdmittedFacts(h, seed, st, a.invocation);
    if a.completion.Some? {
      var held := Held(st, a.invocation);
      RecordsCarried(h, st, held);
      StepSettles(h, seed, st, a, t);
      SettleCites(h, seed, held, a.invocation, a.completion.value);
    }
  }

  lemma {:induction false} LedgerCites(h: Digests, seed: Seed, attempts: seq<Attempt>)
    requires ValidLedger(h, seed, attempts)
    ensures ResolutionsCite(h, StateOf(h, seed, attempts))
  {
    if attempts != [] {
      var n := |attempts| - 1;
      StepAt(h, seed, attempts, n);
      assert attempts[..n + 1] == attempts;
      LedgerCites(h, seed, attempts[..n]);
      LedgerRecorded(h, seed, attempts[..n]);
      StepCites(h, seed, StateOf(h, seed, attempts[..n]), attempts[n], StateOf(h, seed, attempts));
    }
  }

  lemma LedgerRecorded(h: Digests, seed: Seed, attempts: seq<Attempt>)
    requires ValidLedger(h, seed, attempts)
    ensures RecordsCredited(h, StateOf(h, seed, attempts))
  {
    LedgerSound(h, seed, attempts);
  }

  /** The attempt was rejected although its report binds, and the report carries a stopping finding. */
  predicate IsStopped(seed: Seed, j: Option<Judgement>) {
    j.Some? && j.value.RejectedBound? && HasStop(seed, j.value.report)
  }

  /** The digest of a rejected bound report is not that of a completed report. */
  predicate NewDigest(h: Digests, st: State, j: Option<Judgement>) {
    j.Some? && j.value.RejectedBound? ==> forall q :: q in st.reports ==> h.report(q) != h.report(j.value.report)
  }

  lemma NewIsUncited(h: Digests, st: State, j: Option<Judgement>)
    requires ResolutionsCite(h, st) && NewDigest(h, st, j)
    ensures j.Some? && j.value.RejectedBound? ==> !Cited(st, h.report(j.value.report))
  {
  }

  lemma StepNeed(h: Digests, seed: Seed, st: State, a: Attempt, t: State)
    requires Step(h, seed, st, a) == Ok(t) && !NeedsRepair(h, st)
    requires ResolutionsCite(h, st) && NewDigest(h, st, StepJudgement(h, seed, st, a))
    requires var j := StepJudgement(h, seed, st, a); j.Some? ==> !j.value.Credited()
    ensures NeedsRepair(h, t) <==> IsStopped(seed, StepJudgement(h, seed, st, a))
    ensures NeedsRepair(h, t) ==> t.terminal != []
  {
    var held := Held(st, a.invocation);
    SameNeed(h, st, held);
    StepAdmitted(h, seed, st, a, t);
    if a.completion.Some? {
      StepSettles(h, seed, st, a, t);
      NewIsUncited(h, st, StepJudgement(h, seed, st, a));
      NeedAfterRejection(h, seed, held, a.invocation, a.completion.value);
    }
  }

  /** Over whole runs: after a credited repair and before the next credited review something needs
      repair exactly when the latest attempt was rejected with a bound report that carries a stopping
      finding; that attempt is then the last one. */
  lemma NeedReturnsIff(h: Digests, seed: Seed, attempts: seq<Attempt>, i: nat, j: nat)
    requires ValidLedger(h, seed, attempts) && i < j <= |attempts|
    requires IsRepaired(Judgements(h, seed, attempts)[i])
    requires forall k :: i < k < j ==> !IsReviewed(Judgements(h, seed, attempts)[k])
    requires ValidLedger(h, seed, attempts[..j - 1]) && ValidLedger(h, seed, attempts[..j])
    requires NewDigest(h, StateOf(h, seed, attempts[..j - 1]), Judgements(h, seed, attempts)[j - 1])
    ensures NeedsRepair(h, StateOf(h, seed, attempts[..j])) <==> IsStopped(seed, Judgements(h, seed, attempts)[j - 1])
    ensures NeedsRepair(h, StateOf(h, seed, attempts[..j])) ==> j == |attempts|
  {
    StepAt(h, seed, attempts, j - 1);
    JudgementAt(h, seed, attempts, j - 1);
    var st, t, a := StateOf(h, seed, attempts[..j - 1]), StateOf(h, seed, attempts[..j]), attempts[j - 1];
    RunningBefore(h, seed, st, a, t);
    if IsRepaired(StepJudgement(h, seed, st, a)) {
      RepairQuiets(h, seed, st, a, t);
    } else {
      QuietAfterRepair(h, seed, attempts, i, j - 1);
      LedgerCites(h, seed, attempts[..j - 1]);
      StepNeed(h, seed, st, a, t);
    }
    if j < |attempts| {
      StepAt(h, seed, attempts, j);
      RunningBefore(h, seed, t, attempts[j], StateOf(h, seed, attempts[..j + 1]));
    }
  }
}
