/** The loops of finding continuity, which rewrite one record table in place, proved against
    the fingerprint-by-fingerprint specifications. */
module FindingProcedures {
  import opened Basics
  import opened Domain
  import opened Rules
  import opened Findings

  type Table = map<Digest, FindingRecord>

  method CollectStopReasons(seed: Seed, r: ReviewReport) returns (reasons: seq<Reason>)
    ensures reasons == StopReasons(seed, r)
    ensures CriticalStop in reasons <==> exists f :: f in r.findings && f.severity == Critical
    ensures Reason.ContractGap in reasons <==>
              || r.verdict == ContractGapVerdict
              || exists f :: f in r.findings
                          && (f.kind == GapInContract
                              || forall c :: c in seed.contract.criteria ==> c.id != f.criterion)
    ensures ContextGap in reasons <==>
              || r.verdict == ContextGapVerdict
              || exists item, c :: item in r.criteria && item.status == Unknown
                                && c in seed.contract.criteria && c.mandatory && c.id == item.criterion
    ensures ReviewEscalated in reasons <==> r.verdict == Escalate
  {
    NamedStops(seed, r);
    reasons := [];
    if HasCritical(r) {
      reasons := reasons + [CriticalStop];
    }
    if r.verdict == ContractGapVerdict || HasGap(seed, r) {
      reasons := reasons + [Reason.ContractGap];
    }
    if r.verdict == ContextGapVerdict || HasUnknown(seed, r) {
      reasons := reasons + [ContextGap];
    }
    if r.verdict == Escalate {
      reasons := reasons + [ReviewEscalated];
    }
  }

  // Retained stops.

  lemma RetainedNothing(h: Digests, seed: Seed, st: State, r: ReviewReport)
    ensures Retained(h, seed, st, r, []) == st.findings
  {
  }

  lemma ReportedSnoc(h: Digests, fs: seq<Finding>, f: Finding, fp: Digest)
    ensures Reported(h, fs + [f], fp) == if Fingerprint(h, f) == fp then Some(f) else Reported(h, fs, fp)
  {
    assert (fs + [f])[..|fs|] == fs;
  }

  lemma PrintsSnoc(h: Digests, fs: seq<Finding>, f: Finding)
    ensures ReportedPrints(h, fs + [f]) == ReportedPrints(h, fs) + {Fingerprint(h, f)}
  {
    assert forall x :: x in fs + [f] <==> x in fs || x == f;
  }

  lemma StoppingSnoc(seed: Seed, fs: seq<Finding>, f: Finding)
    ensures StoppingFindings(seed, fs + [f])
         == StoppingFindings(seed, fs) + if Stopping(seed, f) then [f] else []
  {
    assert (fs + [f])[..|fs|] == fs;
  }

  function StopRecord(h: Digests, table: Table, r: ReviewReport, f: Finding): FindingRecord {
    var fp := Fingerprint(h, f);
    FindingRecord(f, h.report(r), true, if fp in table then table[fp].occurrences else 0, None, None)
  }

  lemma RetainedSkip(h: Digests, seed: Seed, st: State, r: ReviewReport, fs: seq<Finding>, f: Finding)
    requires !Stopping(seed, f)
    ensures Retained(h, seed, st, r, fs + [f]) == Retained(h, seed, st, r, fs)
  {
    StoppingSnoc(seed, fs, f);
    assert StoppingFindings(seed, fs + [f]) == StoppingFindings(seed, fs);
  }

  lemma RetainedSnocAt(h: Digests, seed: Seed, st: State, r: ReviewReport, fs: seq<Finding>, f: Finding, fp: Digest)
    requires Stopping(seed, f)
    requires fp in Retained(h, seed, st, r, fs + [f])
    ensures var table := Retained(h, seed, st, r, fs);
            if fp == Fingerprint(h, f)
            then Retained(h, seed, st, r, fs + [f])[fp] == StopRecord(h, table, r, f)
            else fp in table && Retained(h, seed, st, r, fs + [f])[fp] == table[fp]
  {
    var stops := StoppingFindings(seed, fs);
    StoppingSnoc(seed, fs, f);
    ReportedSnoc(h, stops, f, fp);
    PrintsSnoc(h, stops, f);
  }

  lemma RetainedKeysSnoc(h: Digests, seed: Seed, st: State, r: ReviewReport, fs: seq<Finding>, f: Finding)
    requires Stopping(seed, f)
    ensures Retained(h, seed, st, r, fs + [f]).Keys == Retained(h, seed, st, r, fs).Keys + {Fingerprint(h, f)}
  {
    StoppingSnoc(seed, fs, f);
    PrintsSnoc(h, StoppingFindings(seed, fs), f);
  }

  lemma IsUpdate(table: Table, after: Table, fp: Digest, rec: FindingRecord)
    requires after.Keys == table.Keys + {fp} && after[fp] == rec
    requires forall x :: x in after && x != fp ==> x in table && after[x] == table[x]
    ensures after == table[fp := rec]
  {
  }

  lemma RetainedSnoc(h: Digests, seed: Seed, st: State, r: ReviewReport, fs: seq<Finding>, f: Finding)
    requires Stopping(seed, f)
    ensures var table := Retained(h, seed, st, r, fs);
            Retained(h, seed, st, r, fs + [f]) == table[Fingerprint(h, f) := StopRecord(h, table, r, f)]
  {
    var table, after := Retained(h, seed, st, r, fs), Retained(h, seed, st, r, fs + [f]);
    RetainedKeysSnoc(h, seed, st, r, fs, f);
    forall fp | fp in after ensures if fp == Fingerprint(h, f) then after[fp] == StopRecord(h, table, r, f)
                                    else fp in table && after[fp] == table[fp] {
      RetainedSnocAt(h, seed, st, r, fs, f, fp);
    }
    IsUpdate(table, after, Fingerprint(h, f), StopRecord(h, table, r, f));
  }

  /** Repeated fingerprints are harmless: the last stop wins and the count is copied. */
  method RetainBoundStops(h: Digests, seed: Seed, st: State, r: ReviewReport) returns (kept: State)
    ensures kept == RetainStops(h, seed, st, r)
  {
    var reasons := CollectStopReasons(seed, r);
    if reasons == [] {
      return st;
    }
    var records := st.findings;
    RetainedNothing(h, seed, st, r);
    for i := 0 to |r.findings|
      invariant records == Retained(h, seed, st, r, r.findings[..i])
    {
      var f := r.findings[i];
      assert r.findings[..i + 1] == r.findings[..i] + [f];
      if f.severity != Critical && f.kind != GapInContract && InContract(seed, f.criterion) {
        RetainedSkip(h, seed, st, r, r.findings[..i], f);
        continue;
      }
      RetainedSnoc(h, seed, st, r, r.findings[..i], f);
      records := records[Fingerprint(h, f) := StopRecord(h, records, r, f)];
    }
    assert r.findings[..|r.findings|] == r.findings;
    return st.(findings := records, terminal := Dedupe(st.terminal + reasons));
  }

  // Known evidence.

  predicate InSome(sets: seq<set<Digest>>, d: Digest) {
    exists i :: 0 <= i < |sets| && d in sets[i]
  }

  /** Grow one set by each of the given sets in turn. */
  method UpdateAll(start: set<Digest>, sets: seq<set<Digest>>) returns (known: set<Digest>)
    ensures forall d :: d in known <==> d in start || InSome(sets, d)
  {
    known := start;
    for i := 0 to |sets|
      invariant forall d :: d in known <==> d in start || InSome(sets[..i], d)
    {
      known := known + sets[i];
      assert sets[..i + 1] == sets[..i] + [sets[i]];
    }
    assert sets[..|sets|] == sets;
  }

  function Observations(h: Digests, rs: seq<ReviewReport>, fp: Digest): seq<set<Digest>> {
    seq(|rs|, i requires 0 <= i < |rs| => ReportEvidence(h, rs[i], fp))
  }

  lemma ObservedSomewhere(h: Digests, rs: seq<ReviewReport>, fp: Digest, d: Digest)
    ensures InSome(Observations(h, rs, fp), d) <==> d in ReportsEvidence(h, rs, fp)
  {
    var sets := Observations(h, rs, fp);
    if d in ReportsEvidence(h, rs, fp) {
      var r :| r in rs && d in ReportEvidence(h, r, fp);
      var i :| 0 <= i < |rs| && rs[i] == r;
      assert d in sets[i];
    }
  }

  method CollectEvidence(h: Digests, st: State, f: Finding) returns (known: set<Digest>)
    ensures known == KnownEvidence(h, st, Fingerprint(h, f))
  {
    var fp := Fingerprint(h, f);
    known := if fp in st.findings then DigestsOf(st.findings[fp].finding.evidence) else {};
    ghost var recorded := known;
    known := UpdateAll(known, Observations(h, st.reports, fp));
    forall d ensures d in known <==> d in recorded || d in ReportsEvidence(h, st.reports, fp) {
      ObservedSomewhere(h, st.reports, fp, d);
    }
    known := known + ResolutionsEvidence(st.resolutions, fp);
  }

  // Reconciliation: rechecks first, then findings, then the count.

  lemma MergedNothing(h: Digests, seed: Seed, st: State, r: ReviewReport)
    ensures MergedTable(h, seed, st, r, [], []) == st.findings
  {
  }

  lemma PassedSnoc(ks: seq<Recheck>, k: Recheck, fp: Digest)
    ensures PassedBy(ks + [k], fp) <==> PassedBy(ks, fp) || (k.fingerprint == fp && k.status == RecheckPass)
  {
    assert forall x :: x in ks + [k] <==> x in ks || x == k;
  }

  /** A case not yet rechecked is still recorded as the state had it. */
  lemma Untouched(h: Digests, seed: Seed, st: State, r: ReviewReport, ks: seq<Recheck>, fs: seq<Finding>, fp: Digest)
    requires Reported(h, fs, fp).None? && !PassedBy(ks, fp)
    ensures var table := MergedTable(h, seed, st, r, ks, fs);
            && (fp in table <==> fp in st.findings)
            && (fp in table ==> table[fp] == st.findings[fp])
  {
    assert fp !in ReportedPrints(h, fs);
  }

  lemma MergedRecheck(h: Digests, seed: Seed, st: State, r: ReviewReport, ks: seq<Recheck>, k: Recheck)
    requires k.fingerprint in st.findings
    ensures MergedTable(h, seed, st, r, ks + [k], [])
         == if k.status == RecheckPass
            then MergedTable(h, seed, st, r, ks, [])[k.fingerprint := CloseRecord(h, st.findings[k.fingerprint], r)]
            else MergedTable(h, seed, st, r, ks, [])
  {
    forall fp ensures PassedBy(ks + [k], fp) <==>
                        PassedBy(ks, fp) || (k.fingerprint == fp && k.status == RecheckPass)
    {
      PassedSnoc(ks, k, fp);
    }
  }

  lemma MergedFinding(h: Digests, seed: Seed, st: State, r: ReviewReport, ks: seq<Recheck>, fs: seq<Finding>,
                      f: Finding)
    ensures MergedTable(h, seed, st, r, ks, fs + [f])
         == MergedTable(h, seed, st, r, ks, fs)[Fingerprint(h, f) := ReportedRecord(h, seed, st, r, f)]
  {
    PrintsSnoc(h, fs, f);
    var table, after := MergedTable(h, seed, st, r, ks, fs), MergedTable(h, seed, st, r, ks, fs + [f]);
    assert after.Keys == table.Keys + {Fingerprint(h, f)};
    forall fp | fp in after
      ensures after[fp] == table[Fingerprint(h, f) := ReportedRecord(h, seed, st, r, f)][fp]
    {
      ReportedSnoc(h, fs, f, fp);
    }
  }

  /** The status under which a criterion is listed; the last entry wins. */
  function StatusListed(items: seq<CriterionResult>, id: Identifier): Option<Disposition> {
    if items == [] then None
    else if items[|items| - 1].criterion == id then Some(items[|items| - 1].status)
    else StatusListed(items[..|items| - 1], id)
  }

  lemma {:induction false} ListedPass(items: seq<CriterionResult>, id: Identifier)
    requires DistinctCriteria(items)
    ensures StatusListed(items, id) == Some(Pass) <==>
              exists c :: c in items && c.criterion == id && c.status == Pass
  {
    if items != [] {
      var rest, last := items[..|items| - 1], items[|items| - 1];
      assert items == rest + [last];
      ListedPass(rest, id);
      assert forall c :: c in items <==> c in rest || c == last;
      assert last.criterion == id ==> forall c :: c in rest ==> c.criterion != id;
    }
  }

  lemma Unpassed(ks: seq<Recheck>, i: nat)
    requires DistinctRechecks(ks) && i < |ks|
    ensures !PassedBy(ks[..i], ks[i].fingerprint)
  {
  }

  // What the loops do on any report, one item at a time against the table as it stands.

  function RecheckStep(h: Digests, st: State, r: ReviewReport, records: Table, k: Recheck): Outcome<Table> {
    var resolution := LastResolution(st.resolutions, k.fingerprint);
    if k.fingerprint !in records || !records[k.fingerprint].Open() || resolution.None?
    then Err(Violation(InvalidClosure))
    else
      var existing := records[k.fingerprint];
      if h.resolution(resolution.value.resolution) != k.resolutionDigest
         || resolution.value.resolution.reportDigest != existing.reportDigest
         || resolution.value.artifactDigest != r.binding.artifactDigest
         || k.check != existing.finding.requiredRecheck
      then Err(Violation(InvalidClosure))
      else if k.status != RecheckPass then Ok(records)
      else if Reported(h, r.findings, k.fingerprint).Some?
              || (existing.blocking && StatusListed(r.criteria, existing.finding.criterion) != Some(Pass))
      then Err(Violation(InvalidClosure))
      else Ok(records[k.fingerprint := CloseRecord(h, existing, r)])
  }

  function RecheckFold(h: Digests, st: State, r: ReviewReport, ks: seq<Recheck>): Outcome<Table> {
    if ks == [] then Ok(st.findings)
    else
      var before := RecheckFold(h, st, r, ks[..|ks| - 1]);
      if before.Err? then before else RecheckStep(h, st, r, before.value, ks[|ks| - 1])
  }

  function FindingStep(h: Digests, seed: Seed, st: State, r: ReviewReport, records: Table, f: Finding): Table {
    var fp := Fingerprint(h, f);
    if fp !in records then records[fp := FindingRecord(f, h.report(r), Blocking(seed, f), 0, None, None)]
    else
      var previous := records[fp];
      if !previous.Open() && !Reopens(h, st, previous, r, f) then records
      else records[fp := FindingRecord(f, h.report(r), Blocking(seed, f) || previous.blocking,
                                       if previous.Open() then previous.occurrences else 0, None, None)]
  }

  function FindingFold(h: Digests, seed: Seed, st: State, r: ReviewReport, start: Table, fs: seq<Finding>): Table {
    if fs == [] then start
    else FindingStep(h, seed, st, r, FindingFold(h, seed, st, r, start, fs[..|fs| - 1]), fs[|fs| - 1])
  }

  function CountedTable(merged: Table): Table {
    map fp | fp in merged :: Counted(merged[fp])
  }

  /** Reconciliation item by item, defined on every report, repeated keys included. */
  function InTurn(h: Digests, seed: Seed, st: State, r: ReviewReport): Outcome<(Table, seq<Reason>)> {
    var rechecked := RecheckFold(h, st, r, r.rechecks);
    if rechecked.Err? then Err(rechecked.error)
    else
      var records := CountedTable(FindingFold(h, seed, st, r, rechecked.value, r.findings));
      Ok((records, Dedupe(When(Repeats(seed, records), RepeatedFailure) + StopReasons(seed, r))))
  }

  /** Keys the binding and content checks have found distinct before a report is reconciled. */
  predicate DistinctKeys(h: Digests, r: ReviewReport) {
    DistinctFindings(h, r.findings) && DistinctRechecks(r.rechecks) && DistinctCriteria(r.criteria)
  }

  // On distinct keys, item by item is fingerprint by fingerprint.

  lemma StepIsValid(h: Digests, st: State, r: ReviewReport, records: Table, k: Recheck)
    requires DistinctCriteria(r.criteria)
    requires k.fingerprint in records <==> k.fingerprint in st.findings
    requires k.fingerprint in records ==> records[k.fingerprint] == st.findings[k.fingerprint]
    ensures RecheckStep(h, st, r, records, k)
         == if !RecheckValid(h, st, r, k) then Err(Violation(InvalidClosure))
            else if k.status == RecheckPass
            then Ok(records[k.fingerprint := CloseRecord(h, st.findings[k.fingerprint], r)])
            else Ok(records)
  {
    if k.fingerprint in st.findings {
      ListedPass(r.criteria, st.findings[k.fingerprint].finding.criterion);
    }
  }

  lemma StepOnMerged(h: Digests, seed: Seed, st: State, r: ReviewReport, ks: seq<Recheck>, k: Recheck)
    requires DistinctCriteria(r.criteria) && !PassedBy(ks, k.fingerprint)
    ensures RecheckStep(h, st, r, MergedTable(h, seed, st, r, ks, []), k)
         == if RecheckValid(h, st, r, k) then Ok(MergedTable(h, seed, st, r, ks + [k], []))
            else Err(Violation(InvalidClosure))
  {
    Untouched(h, seed, st, r, ks, [], k.fingerprint);
    StepIsValid(h, st, r, MergedTable(h, seed, st, r, ks, []), k);
    if RecheckValid(h, st, r, k) {
      MergedRecheck(h, seed, st, r, ks, k);
    }
  }

  lemma {:induction false} RecheckFoldAgrees(h: Digests, seed: Seed, st: State, r: ReviewReport, i: nat)
    requires DistinctRechecks(r.rechecks) && DistinctCriteria(r.criteria) && i <= |r.rechecks|
    ensures RecheckFold(h, st, r, r.rechecks[..i])
         == if !AllValid(h, st, r, r.rechecks[..i]) then Err(Violation(InvalidClosure))
            else Ok(MergedTable(h, seed, st, r, r.rechecks[..i], []))
  {
    if i == 0 {
      MergedNothing(h, seed, st, r);
    } else {
      var ks, k := r.rechecks[..i - 1], r.rechecks[i - 1];
      assert r.rechecks[..i] == ks + [k];
      RecheckFoldAgrees(h, seed, st, r, i - 1);
      Unpassed(r.rechecks, i - 1);
      FoldOnMerged(h, seed, st, r, ks, k);
    }
  }

  predicate AllValid(h: Digests, st: State, r: ReviewReport, ks: seq<Recheck>) {
    forall k :: k in ks ==> RecheckValid(h, st, r, k)
  }

  lemma AllValidSnoc(h: Digests, st: State, r: ReviewReport, ks: seq<Recheck>, k: Recheck)
    ensures AllValid(h, st, r, ks + [k]) <==> AllValid(h, st, r, ks) && RecheckValid(h, st, r, k)
  {
    assert forall x :: x in ks + [k] <==> x in ks || x == k;
  }

  lemma FoldOnMerged(h: Digests, seed: Seed, st: State, r: ReviewReport, ks: seq<Recheck>, k: Recheck)
    requires DistinctCriteria(r.criteria) && !PassedBy(ks, k.fingerprint)
    requires RecheckFold(h, st, r, ks)
          == if !AllValid(h, st, r, ks) then Err(Violation(InvalidClosure)) else Ok(MergedTable(h, seed, st, r, ks, []))
    ensures RecheckFold(h, st, r, ks + [k])
         == if !AllValid(h, st, r, ks + [k]) then Err(Violation(InvalidClosure))
            else Ok(MergedTable(h, seed, st, r, ks + [k], []))
  {
    assert (ks + [k])[..|ks|] == ks;
    AllValidSnoc(h, st, r, ks, k);
    StepOnMerged(h, seed, st, r, ks, k);
  }

  lemma StepIsReported(h: Digests, seed: Seed, st: State, r: ReviewReport, records: Table, f: Finding)
    requires Fingerprint(h, f) in records <==> Fingerprint(h, f) in st.findings
    requires Fingerprint(h, f) in records ==> records[Fingerprint(h, f)] == st.findings[Fingerprint(h, f)]
    ensures FindingStep(h, seed, st, r, records, f)
         == records[Fingerprint(h, f) := ReportedRecord(h, seed, st, r, f)]
  {
    var fp := Fingerprint(h, f);
    assert fp in records ==> records == records[fp := records[fp]];
  }

  lemma UnreportedBefore(h: Digests, fs: seq<Finding>, i: nat)
    requires DistinctFindings(h, fs) && i < |fs|
    ensures Reported(h, fs[..i], Fingerprint(h, fs[i])).None?
  {
  }

  lemma UnpassedWhenReported(h: Digests, st: State, r: ReviewReport, f: Finding)
    requires forall k :: k in r.rechecks ==> RecheckValid(h, st, r, k)
    requires f in r.findings
    ensures !PassedBy(r.rechecks, Fingerprint(h, f))
  {
  }

  lemma {:induction false} FindingFoldAgrees(h: Digests, seed: Seed, st: State, r: ReviewReport, i: nat)
    requires DistinctFindings(h, r.findings) && i <= |r.findings|
    requires forall k :: k in r.rechecks ==> RecheckValid(h, st, r, k)
    ensures FindingFold(h, seed, st, r, MergedTable(h, seed, st, r, r.rechecks, []), r.findings[..i])
         == MergedTable(h, seed, st, r, r.rechecks, r.findings[..i])
  {
    if i > 0 {
      var fs, f := r.findings[..i - 1], r.findings[i - 1];
      assert r.findings[..i][..i - 1] == fs && r.findings[..i] == fs + [f];
      FindingFoldAgrees(h, seed, st, r, i - 1);
      UnreportedBefore(h, r.findings, i - 1);
      UnpassedWhenReported(h, st, r, f);
      Untouched(h, seed, st, r, r.rechecks, fs, Fingerprint(h, f));
      StepIsReported(h, seed, st, r, MergedTable(h, seed, st, r, r.rechecks, fs), f);
      MergedFinding(h, seed, st, r, r.rechecks, fs, f);
    }
  }

  lemma CountedMerged(h: Digests, seed: Seed, st: State, r: ReviewReport)
    ensures CountedTable(MergedTable(h, seed, st, r, r.rechecks, r.findings)) == Reconciliation(h, seed, st, r)
  {
  }

  /** On distinct keys the loops compute the fingerprint-wise reconciliation. */
  lemma InTurnAgrees(h: Digests, seed: Seed, st: State, r: ReviewReport)
    requires DistinctKeys(h, r)
    ensures InTurn(h, seed, st, r) == ReconcileFindings(h, seed, st, r)
  {
    assert r.rechecks[..|r.rechecks|] == r.rechecks && r.findings[..|r.findings|] == r.findings;
    RecheckFoldAgrees(h, seed, st, r, |r.rechecks|);
    if AllValid(h, st, r, r.rechecks) {
      FindingFoldAgrees(h, seed, st, r, |r.findings|);
      CountedMerged(h, seed, st, r);
    }
  }

  // The loops.

  lemma {:induction false} FoldStops(h: Digests, st: State, r: ReviewReport, ks: seq<Recheck>, i: nat)
    requires i <= |ks| && RecheckFold(h, st, r, ks[..i]).Err?
    ensures RecheckFold(h, st, r, ks) == RecheckFold(h, st, r, ks[..i])
  {
    if i == |ks| {
      assert ks[..i] == ks;
    } else {
      var before := ks[..|ks| - 1];
      assert before[..i] == ks[..i];
      FoldStops(h, st, r, before, i);
    }
  }

  /** The first loop: apply the rechecks, or refuse an invalid closure. */
  method ApplyRechecks(h: Digests, st: State, r: ReviewReport) returns (res: Outcome<Table>)
    ensures res == RecheckFold(h, st, r, r.rechecks)
  {
    var records := st.findings;
    for i := 0 to |r.rechecks|
      invariant RecheckFold(h, st, r, r.rechecks[..i]) == Ok(records)
    {
      assert r.rechecks[..i + 1][..i] == r.rechecks[..i];
      var applied := RecheckStep(h, st, r, records, r.rechecks[i]);
      if applied.Err? {
        FoldStops(h, st, r, r.rechecks, i + 1);
        return applied;
      }
      records := applied.value;
    }
    assert r.rechecks[..|r.rechecks|] == r.rechecks;
    return Ok(records);
  }

  method ApplyFinding(h: Digests, seed: Seed, st: State, r: ReviewReport, records: Table, f: Finding)
    returns (after: Table)
    ensures after == FindingStep(h, seed, st, r, records, f)
  {
    var fp := Fingerprint(h, f);
    if fp !in records {
      return records[fp := FindingRecord(f, h.report(r), Blocking(seed, f), 0, None, None)];
    }
    var previous := records[fp];
    var occurrences := previous.occurrences;
    if previous.closedBy.Some? {
      var known := CollectEvidence(h, st, f);
      if previous.closedArtifact == Some(r.binding.artifactDigest) && DigestsOf(f.evidence) <= known {
        return records;
      }
      occurrences := 0;
    }
    return records[fp := FindingRecord(f, h.report(r), Blocking(seed, f) || previous.blocking, occurrences,
                                       None, None)];
  }

  /** The second loop: merge the reported findings. */
  method ApplyFindings(h: Digests, seed: Seed, st: State, r: ReviewReport, rechecked: Table)
    returns (records: Table)
    ensures records == FindingFold(h, seed, st, r, rechecked, r.findings)
  {
    records := rechecked;
    for i := 0 to |r.findings|
      invariant records == FindingFold(h, seed, st, r, rechecked, r.findings[..i])
    {
      assert r.findings[..i + 1][..i] == r.findings[..i];
      records := ApplyFinding(h, seed, st, r, records, r.findings[i]);
    }
    assert r.findings[..|r.findings|] == r.findings;
  }

  predicate Repeated(seed: Seed, rec: FindingRecord) {
    rec.OpenBlocker() && rec.occurrences + 1 >= seed.policy.sameFailureLimit
  }

  /** The third loop, over the table's entries in any order: count every open blocker. */
  method CountBlockers(seed: Seed, merged: Table) returns (records: Table, reasons: seq<Reason>)
    ensures records == CountedTable(merged)
    ensures forall i :: 0 <= i < |reasons| ==> reasons[i] == RepeatedFailure
    ensures reasons != [] <==> Repeats(seed, records)
  {
    records, reasons := merged, [];
    var todo := merged.Keys;
    while todo != {}
      invariant todo <= merged.Keys && records.Keys == merged.Keys
      invariant forall fp :: fp in merged ==>
                  records[fp] == if fp in todo then merged[fp] else Counted(merged[fp])
      invariant forall i :: 0 <= i < |reasons| ==> reasons[i] == RepeatedFailure
      invariant reasons != [] <==> exists fp :: fp in merged && fp !in todo && Repeated(seed, merged[fp])
    {
      var fp :| fp in todo;
      todo := todo - {fp};
      var item := records[fp];
      if item.closedBy.None? && item.blocking {
        var updated := item.(occurrences := item.occurrences + 1);
        records := records[fp := updated];
        if updated.occurrences >= seed.policy.sameFailureLimit {
          reasons := reasons + [RepeatedFailure];
          assert Repeated(seed, merged[fp]);
        }
      }
    }
    forall fp | fp in records ensures
      Repeated(seed, merged[fp])
      <==> records[fp].OpenBlocker() && records[fp].occurrences >= seed.policy.sameFailureLimit
    {
    }
  }

  lemma {:induction false} DedupePrefix(a: seq<Reason>, b: seq<Reason>, s: seq<Reason>)
    requires Dedupe(a) == Dedupe(b)
    ensures Dedupe(a + s) == Dedupe(b + s)
    decreases |s|
  {
    if s == [] {
      assert a + s == a && b + s == b;
    } else {
      assert (a + s)[..|a + s| - 1] == a + s[..|s| - 1];
      assert (b + s)[..|b + s| - 1] == b + s[..|s| - 1];
      DedupePrefix(a, b, s[..|s| - 1]);
    }
  }

  lemma {:induction false} DedupeCopies(s: seq<Reason>, x: Reason)
    requires s != [] && forall i :: 0 <= i < |s| ==> s[i] == x
    ensures Dedupe(s) == [x] && Dedupe([x]) == [x]
  {
    assert Dedupe([x][..0]) == [];
    if |s| == 1 {
      assert s == [x];
    } else {
      DedupeCopies(s[..|s| - 1], x);
    }
  }

  method ReconcileReport(h: Digests, seed: Seed, st: State, r: ReviewReport)
    returns (res: Outcome<(Table, seq<Reason>)>)
    ensures res == InTurn(h, seed, st, r)
    ensures DistinctKeys(h, r) ==> res == ReconcileFindings(h, seed, st, r)
  {
    if DistinctKeys(h, r) {
      InTurnAgrees(h, seed, st, r);
    }
    var rechecked := ApplyRechecks(h, st, r);
    if rechecked.Err? {
      return Err(rechecked.error);
    }
    var merged := ApplyFindings(h, seed, st, r, rechecked.value);
    var records, repeats := CountBlockers(seed, merged);
    var stops := CollectStopReasons(seed, r);
    if repeats != [] {
      DedupeCopies(repeats, RepeatedFailure);
      DedupePrefix(repeats, [RepeatedFailure], stops);
    }
    return Ok((records, Dedupe(repeats + stops)));
  }

  // Repairs.

  method RecordResolutions(h: Digests, st: State, inv: Invocation, r: RepairReport)
    returns (res: Outcome<seq<ResolutionRecord>>)
    requires forall n :: n in r.resolutions ==> n.fingerprint in st.findings
    ensures var fault := ResolutionsFault(h, st, r, r.resolutions);
            res == if fault.Some? then Err(fault.value) else Ok(ResolutionRecords(h, inv, r, r.resolutions))
  {
    var records: seq<ResolutionRecord> := [];
    for i := 0 to |r.resolutions|
      invariant records == ResolutionRecords(h, inv, r, r.resolutions[..i])
      invariant ResolutionsFault(h, st, r, r.resolutions) == ResolutionsFault(h, st, r, r.resolutions[i..])
    {
      var n := r.resolutions[i];
      assert r.resolutions[i..][1..] == r.resolutions[i + 1..];
      var fault := ResolutionFault(h, st, r, n);
      if fault.Some? {
        return Err(fault.value);
      }
      records := records + [ResolutionRecord(n, inv.id, h.artifact(r.artifact), r.producer)];
    }
    assert r.resolutions[..|r.resolutions|] == r.resolutions;
    return Ok(records);
  }

  /** What a faultless answer promises, on its own fields and those of the record it answers. */
  predicate SoundlyAnswered(h: Digests, st: State, r: RepairReport, n: Resolution)
    requires n.fingerprint in st.findings
  {
    var rec := st.findings[n.fingerprint];
    && rec.closedBy.None? && n.reportDigest == rec.reportDigest
    && (forall e :: e in n.evidence ==> e.artifactDigest == h.artifact(r.artifact))
    && (rec.blocking ==> n.disposition != DeferredAdvisory)
    && (n.disposition == Fixed ==>
          || r.artifact.payload != st.artifact.payload || r.artifact.inputs != st.artifact.inputs
          || r.artifact.buildRefs != st.artifact.buildRefs)
    && (n.disposition == RejectedWithEvidence ==>
          exists e :: e in n.evidence && forall g :: g in rec.finding.evidence ==> g.digest != e.digest)
  }

  lemma SoundAnswer(h: Digests, seed: Seed, st: State, inv: Invocation, r: RepairReport, n: Resolution)
    requires RepairFault(h, seed, st, inv, r).None? && n in r.resolutions
    ensures n.fingerprint in st.findings && SoundlyAnswered(h, st, r, n)
  {
    assert ResolutionFault(h, st, r, n).None?;
    if n.disposition == RejectedWithEvidence {
      var rec := st.findings[n.fingerprint];
      var d :| d in DigestsOf(n.evidence) && d !in DigestsOf(rec.finding.evidence);
      var e :| e in n.evidence && e.digest == d;
    }
  }

  method ReconcileRepairReport(h: Digests, seed: Seed, st: State, inv: Invocation, r: RepairReport)
    returns (res: Outcome<seq<ResolutionRecord>>)
    ensures res == ReconcileRepair(h, seed, st, inv, r)
    ensures res.Ok? ==> forall n :: n in r.resolutions ==>
              && n.fingerprint in st.findings && st.findings[n.fingerprint].closedBy.None?
              && n.reportDigest == st.findings[n.fingerprint].reportDigest
              && (forall e :: e in n.evidence ==> e.artifactDigest == h.artifact(r.artifact))
              && (st.findings[n.fingerprint].blocking ==> n.disposition != DeferredAdvisory)
              && (n.disposition == Fixed ==>
                    || r.artifact.payload != st.artifact.payload || r.artifact.inputs != st.artifact.inputs
                    || r.artifact.buildRefs != st.artifact.buildRefs)
              && (n.disposition == RejectedWithEvidence ==>
                    exists e :: e in n.evidence
                             && forall g :: g in st.findings[n.fingerprint].finding.evidence ==> g.digest != e.digest)
  {
    if RepairFault(h, seed, st, inv, r).None? {
      forall n | n in r.resolutions ensures n.fingerprint in st.findings && SoundlyAnswered(h, st, r, n) {
        SoundAnswer(h, seed, st, inv, r, n);
      }
    }
    if !(r.invocationId == inv.id && r.binding == inv.binding
         && r.producer == seed.originalDoer && seed.originalDoer == inv.actor)
    {
      return Err(Violation(InvalidRepair));
    }
    if !ArtifactBound(h, seed, r.artifact) {
      return Err(Violation(BindingMismatch));
    }
    if !(r.artifact.key == st.artifact.key && r.artifact.producers == st.artifact.producers) {
      return Err(Violation(InvalidRepair));
    }
    if !DistinctResolutions(r.resolutions) {
      return Err(ValueError);
    }
    var open := set fp | fp in st.findings && st.findings[fp].Open();
    var blockers := set fp | fp in st.findings && st.findings[fp].OpenBlocker();
    var proposed := set n | n in r.resolutions :: n.fingerprint;
    assert forall fp :: fp in proposed <==> Proposes(r.resolutions, fp);
    assert blockers <= proposed <==>
             forall fp :: fp in st.findings && st.findings[fp].OpenBlocker() ==> Proposes(r.resolutions, fp);
    if !(blockers <= proposed && proposed <= open) {
      return Err(Violation(InvalidRepair));
    }
    assert forall n :: n in r.resolutions ==> n.fingerprint in proposed;
    res := RecordResolutions(h, st, inv, r);
  }
}
