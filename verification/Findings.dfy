/** Finding continuity across reports and repairs. Each update of the record table is
    specified fingerprint by fingerprint; `FindingProcedures` holds the loops that rewrite
    the table in place, proved against these specifications. */
module Findings {
  import opened Basics
  import opened Domain
  import opened Rules

  /** A finding that stops the unit whatever else its report says. */
  predicate Stopping(seed: Seed, f: Finding) {
    f.severity == Critical || f.kind == GapInContract || !InContract(seed, f.criterion)
  }

  predicate HasCritical(r: ReviewReport) {
    exists f :: f in r.findings && f.severity == Critical
  }

  predicate HasGap(seed: Seed, r: ReviewReport) {
    exists f :: f in r.findings && (f.kind == GapInContract || !InContract(seed, f.criterion))
  }

  predicate HasUnknown(seed: Seed, r: ReviewReport) {
    exists c :: c in r.criteria && c.status == Unknown && Mandatory(seed, c.criterion)
  }

  function StopReasons(seed: Seed, r: ReviewReport): seq<Reason> {
    When(HasCritical(r), CriticalStop)
    + When(r.verdict == ContractGapVerdict || HasGap(seed, r), Reason.ContractGap)
    + When(r.verdict == ContextGapVerdict || HasUnknown(seed, r), ContextGap)
    + When(r.verdict == Escalate, ReviewEscalated)
  }

  lemma FourReasons(critical: bool, gap: bool, context: bool, escalated: bool, x: Reason)
    ensures x in When(critical, CriticalStop) + When(gap, Reason.ContractGap) + When(context, ContextGap)
                 + When(escalated, ReviewEscalated)
            <==> || (x == CriticalStop && critical) || (x == Reason.ContractGap && gap)
                 || (x == ContextGap && context) || (x == ReviewEscalated && escalated)
  {
  }

  lemma NamedStops(seed: Seed, r: ReviewReport)
    ensures CriticalStop in StopReasons(seed, r) <==> exists f :: f in r.findings && f.severity == Critical
    ensures Reason.ContractGap in StopReasons(seed, r) <==>
              || r.verdict == ContractGapVerdict
              || exists f :: f in r.findings
                          && (f.kind == GapInContract
                              || forall c :: c in seed.contract.criteria ==> c.id != f.criterion)
    ensures ContextGap in StopReasons(seed, r) <==>
              || r.verdict == ContextGapVerdict
              || exists item, c :: item in r.criteria && item.status == Unknown
                                && c in seed.contract.criteria && c.mandatory && c.id == item.criterion
    ensures ReviewEscalated in StopReasons(seed, r) <==> r.verdict == Escalate
  {
    forall x ensures x in StopReasons(seed, r) <==>
                       || (x == CriticalStop && HasCritical(r))
                       || (x == Reason.ContractGap && (r.verdict == ContractGapVerdict || HasGap(seed, r)))
                       || (x == ContextGap && (r.verdict == ContextGapVerdict || HasUnknown(seed, r)))
                       || (x == ReviewEscalated && r.verdict == Escalate)
    {
      FourReasons(HasCritical(r), r.verdict == ContractGapVerdict || HasGap(seed, r),
                  r.verdict == ContextGapVerdict || HasUnknown(seed, r), r.verdict == Escalate, x);
    }
    GapNamed(seed, r);
    UnknownNamed(seed, r);
  }

  lemma GapNamed(seed: Seed, r: ReviewReport)
    ensures HasGap(seed, r) <==>
              exists f :: f in r.findings
                       && (f.kind == GapInContract || forall c :: c in seed.contract.criteria ==> c.id != f.criterion)
  {
    forall f | f in r.findings
      ensures !InContract(seed, f.criterion) <==> forall c :: c in seed.contract.criteria ==> c.id != f.criterion
    {
    }
  }

  lemma UnknownNamed(seed: Seed, r: ReviewReport)
    ensures HasUnknown(seed, r) <==>
              exists item, c :: item in r.criteria && item.status == Unknown
                             && c in seed.contract.criteria && c.mandatory && c.id == item.criterion
  {
  }

  /** The last finding with the fingerprint; report fingerprints are distinct. */
  function Reported(h: Digests, fs: seq<Finding>, fp: Digest): (r: Option<Finding>)
    ensures r.Some? ==> r.value in fs && Fingerprint(h, r.value) == fp
    ensures r.None? <==> forall f :: f in fs ==> Fingerprint(h, f) != fp
  {
    if fs == [] then None
    else
      var last := fs[|fs| - 1];
      assert fs == fs[..|fs| - 1] + [last];
      if Fingerprint(h, last) == fp then Some(last) else Reported(h, fs[..|fs| - 1], fp)
  }

  function ReportedPrints(h: Digests, fs: seq<Finding>): set<Digest> {
    set f | f in fs :: Fingerprint(h, f)
  }

  function DigestsOf(evidence: seq<Evidence>): set<Digest> {
    set e | e in evidence :: e.digest
  }

  /** What one report says about a case, in its findings and its rechecks. */
  function ReportEvidence(h: Digests, r: ReviewReport, fp: Digest): set<Digest> {
    (set f, e | f in r.findings && Fingerprint(h, f) == fp && e in f.evidence :: e.digest)
    + (set k, e | k in r.rechecks && k.fingerprint == fp && e in k.evidence :: e.digest)
  }

  function ReportsEvidence(h: Digests, rs: seq<ReviewReport>, fp: Digest): set<Digest> {
    set r, d | r in rs && d in ReportEvidence(h, r, fp) :: d
  }

  function ResolutionsEvidence(ms: seq<ResolutionRecord>, fp: Digest): set<Digest> {
    set m, e | m in ms && m.resolution.fingerprint == fp && e in m.resolution.evidence :: e.digest
  }

  /** Every digest ever tied to a case: its record, completed reports and repairs. */
  function KnownEvidence(h: Digests, st: State, fp: Digest): set<Digest> {
    (if fp in st.findings then DigestsOf(st.findings[fp].finding.evidence) else {})
    + ReportsEvidence(h, st.reports, fp)
    + ResolutionsEvidence(st.resolutions, fp)
  }

  // Stops of an uncredited report.

  function StoppingFindings(seed: Seed, fs: seq<Finding>): (r: seq<Finding>)
    ensures forall f :: f in r <==> f in fs && Stopping(seed, f)
  {
    if fs == [] then []
    else
      var last := fs[|fs| - 1];
      assert fs == fs[..|fs| - 1] + [last];
      StoppingFindings(seed, fs[..|fs| - 1]) + (if Stopping(seed, last) then [last] else [])
  }

  function RetainedRecord(h: Digests, seed: Seed, st: State, r: ReviewReport, fs: seq<Finding>, fp: Digest)
    : FindingRecord
    requires fp in st.findings || Reported(h, StoppingFindings(seed, fs), fp).Some?
  {
    match Reported(h, StoppingFindings(seed, fs), fp)
    case None => st.findings[fp]
    case Some(f) =>
      FindingRecord(f, h.report(r), true,
                    if fp in st.findings then st.findings[fp].occurrences else 0, None, None)
  }

  function Retained(h: Digests, seed: Seed, st: State, r: ReviewReport, fs: seq<Finding>)
    : map<Digest, FindingRecord>
  {
    map fp | fp in st.findings.Keys + ReportedPrints(h, StoppingFindings(seed, fs)) ::
      RetainedRecord(h, seed, st, r, fs, fp)
  }

  /** Keep the stops of a bound report that earns no completion credit. */
  function RetainStops(h: Digests, seed: Seed, st: State, r: ReviewReport): State {
    var reasons := StopReasons(seed, r);
    if reasons == [] then st
    else st.(findings := Retained(h, seed, st, r, r.findings), terminal := Dedupe(st.terminal + reasons))
  }

  // Reconciliation of a completed report.

  function LastResolution(ms: seq<ResolutionRecord>, fp: Digest): (r: Option<ResolutionRecord>)
    ensures r.Some? ==> r.value in ms && r.value.resolution.fingerprint == fp
  {
    if ms == [] then None
    else
      var last := ms[|ms| - 1];
      if last.resolution.fingerprint == fp then Some(last) else LastResolution(ms[..|ms| - 1], fp)
  }

  predicate DisposedPass(r: ReviewReport, id: Identifier) {
    exists c :: c in r.criteria && c.criterion == id && c.status == Pass
  }

  /** A recheck names an open record, its latest resolution on this very artifact, and the
      check the finding asked for; a PASS closes only an unreported case whose criterion passes. */
  predicate RecheckValid(h: Digests, st: State, r: ReviewReport, k: Recheck) {
    && k.fingerprint in st.findings
    && st.findings[k.fingerprint].Open()
    && var m := LastResolution(st.resolutions, k.fingerprint);
       var rec := st.findings[k.fingerprint];
       && m.Some?
       && h.resolution(m.value.resolution) == k.resolutionDigest
       && m.value.resolution.reportDigest == rec.reportDigest
       && m.value.artifactDigest == r.binding.artifactDigest
       && k.check == rec.finding.requiredRecheck
       && (k.status == RecheckPass ==>
             && Reported(h, r.findings, k.fingerprint).None?
             && (rec.blocking ==> DisposedPass(r, rec.finding.criterion)))
  }

  predicate PassedBy(ks: seq<Recheck>, fp: Digest) {
    exists k :: k in ks && k.fingerprint == fp && k.status == RecheckPass
  }

  function CloseRecord(h: Digests, rec: FindingRecord, r: ReviewReport): FindingRecord {
    rec.(closedBy := Some(h.report(r)), closedArtifact := Some(r.binding.artifactDigest))
  }

  /** A closed case reopens only for a changed artifact or evidence never observed before. */
  predicate Reopens(h: Digests, st: State, rec: FindingRecord, r: ReviewReport, f: Finding) {
    || rec.closedArtifact != Some(r.binding.artifactDigest)
    || !(DigestsOf(f.evidence) <= KnownEvidence(h, st, Fingerprint(h, f)))
  }

  /** The record of a reported finding, before the occurrence count. */
  function ReportedRecord(h: Digests, seed: Seed, st: State, r: ReviewReport, f: Finding): FindingRecord {
    var fp := Fingerprint(h, f);
    if fp !in st.findings then FindingRecord(f, h.report(r), Blocking(seed, f), 0, None, None)
    else
      var previous := st.findings[fp];
      if previous.Open() then
        FindingRecord(f, h.report(r), Blocking(seed, f) || previous.blocking, previous.occurrences, None, None)
      else if !Reopens(h, st, previous, r, f) then previous
      else FindingRecord(f, h.report(r), Blocking(seed, f) || previous.blocking, 0, None, None)
  }

  /** The table after the rechecks `ks` and the findings `fs` of the report. */
  function Merged(h: Digests, seed: Seed, st: State, r: ReviewReport, ks: seq<Recheck>, fs: seq<Finding>, fp: Digest)
    : FindingRecord
    requires fp in st.findings || Reported(h, fs, fp).Some?
  {
    match Reported(h, fs, fp)
    case Some(f) => ReportedRecord(h, seed, st, r, f)
    case None => if PassedBy(ks, fp) then CloseRecord(h, st.findings[fp], r) else st.findings[fp]
  }

  function Counted(rec: FindingRecord): FindingRecord {
    if rec.OpenBlocker() then rec.(occurrences := rec.occurrences + 1) else rec
  }

  function MergedTable(h: Digests, seed: Seed, st: State, r: ReviewReport, ks: seq<Recheck>, fs: seq<Finding>)
    : map<Digest, FindingRecord>
  {
    map fp | fp in st.findings.Keys + ReportedPrints(h, fs) :: Merged(h, seed, st, r, ks, fs, fp)
  }

  function Reconciliation(h: Digests, seed: Seed, st: State, r: ReviewReport): map<Digest, FindingRecord> {
    map fp | fp in st.findings.Keys + ReportedPrints(h, r.findings) ::
      Counted(Merged(h, seed, st, r, r.rechecks, r.findings, fp))
  }

  predicate Repeats(seed: Seed, table: map<Digest, FindingRecord>) {
    exists fp :: fp in table && table[fp].OpenBlocker()
              && table[fp].occurrences >= seed.policy.sameFailureLimit
  }

  function ReviewTerminal(h: Digests, seed: Seed, st: State, r: ReviewReport): seq<Reason> {
    Dedupe(When(Repeats(seed, Reconciliation(h, seed, st, r)), RepeatedFailure) + StopReasons(seed, r))
  }

  /** The new record table and the terminal reasons, or an invalid closure. */
  function ReconcileFindings(h: Digests, seed: Seed, st: State, r: ReviewReport)
    : Outcome<(map<Digest, FindingRecord>, seq<Reason>)>
  {
    if exists k :: k in r.rechecks && !RecheckValid(h, st, r, k) then Err(Violation(InvalidClosure))
    else Ok((Reconciliation(h, seed, st, r), ReviewTerminal(h, seed, st, r)))
  }

  // Repairs.

  predicate DistinctResolutions(rs: seq<Resolution>) {
    forall i, j :: 0 <= i < j < |rs| ==> rs[i].fingerprint != rs[j].fingerprint
  }

  predicate Proposes(rs: seq<Resolution>, fp: Digest) {
    exists n :: n in rs && n.fingerprint == fp
  }

  predicate ArtifactChanged(a: Artifact, b: Artifact) {
    a.payload != b.payload || a.inputs != b.inputs || a.buildRefs != b.buildRefs
  }

  function ResolutionFault(h: Digests, st: State, r: RepairReport, n: Resolution): Option<Denial>
    requires n.fingerprint in st.findings
  {
    var rec := st.findings[n.fingerprint];
    if n.reportDigest != rec.reportDigest then Some(Violation(InvalidRepair))
    else if !EvidenceBound(n.evidence, h.artifact(r.artifact)) then Some(Violation(MissingEvidence))
    else if rec.blocking && n.disposition == DeferredAdvisory then Some(Violation(InvalidRepair))
    else if n.disposition == Fixed && !ArtifactChanged(r.artifact, st.artifact) then Some(Violation(NoProgress))
    else if n.disposition == RejectedWithEvidence && DigestsOf(n.evidence) <= DigestsOf(rec.finding.evidence)
    then Some(Violation(NoProgress))
    else None
  }

  function ResolutionsFault(h: Digests, st: State, r: RepairReport, ns: seq<Resolution>): (x: Option<Denial>)
    requires forall n :: n in ns ==> n.fingerprint in st.findings
    ensures x.None? <==> forall n :: n in ns ==> ResolutionFault(h, st, r, n).None?
    ensures x.Some? ==> x.value in {Violation(InvalidRepair), Violation(MissingEvidence), Violation(NoProgress)}
  {
    if ns == [] then None
    else
      assert ns == [ns[0]] + ns[1..];
      var fault := ResolutionFault(h, st, r, ns[0]);
      if fault.Some? then fault else ResolutionsFault(h, st, r, ns[1..])
  }

  function RepairFault(h: Digests, seed: Seed, st: State, inv: Invocation, r: RepairReport): Option<Denial> {
    if !(r.invocationId == inv.id && r.binding == inv.binding
         && r.producer == seed.originalDoer && seed.originalDoer == inv.actor)
    then Some(Violation(InvalidRepair))
    else if !ArtifactBound(h, seed, r.artifact) then Some(Violation(BindingMismatch))
    else if r.artifact.key != st.artifact.key || r.artifact.producers != st.artifact.producers
    then Some(Violation(InvalidRepair))
    else if !DistinctResolutions(r.resolutions) then Some(ValueError)
    else if exists fp :: fp in st.findings && st.findings[fp].OpenBlocker() && !Proposes(r.resolutions, fp)
    then Some(Violation(InvalidRepair))
    else if exists n :: n in r.resolutions
                     && !(n.fingerprint in st.findings && st.findings[n.fingerprint].Open())
    then Some(Violation(InvalidRepair))
    else ResolutionsFault(h, st, r, r.resolutions)
  }

  function ResolutionRecords(h: Digests, inv: Invocation, r: RepairReport, ns: seq<Resolution>)
    : seq<ResolutionRecord>
  {
    seq(|ns|, i requires 0 <= i < |ns| =>
      ResolutionRecord(ns[i], inv.id, h.artifact(r.artifact), r.producer))
  }

  function ReconcileRepair(h: Digests, seed: Seed, st: State, inv: Invocation, r: RepairReport)
    : Outcome<seq<ResolutionRecord>>
  {
    var fault := RepairFault(h, seed, st, inv, r);
    if fault.Some? then Err(fault.value) else Ok(ResolutionRecords(h, inv, r, r.resolutions))
  }
}
