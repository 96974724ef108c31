/** Who may review what, spelled on the fields of the models: the seeds a session can start from, and
    the reviewer of every credited report against every producer of the artifact it judged. */
module Independence {
  import opened Basics
  import opened Domain
  import opened Rules
  import opened Reducer
  import opened Ledger
  import opened Runs
  import opened Accounting
  import opened Eligibility

  lemma ReviewerRegistered(h: Digests, seed: Seed, attempts: seq<Attempt>, k: nat)
    requires ValidLedger(h, seed, attempts) && k < |attempts| && attempts[k].invocation.kind == Review
    ensures attempts[k].invocation.actor in seed.reviewers
  {
    StepAt(h, seed, attempts, k);
    var st := StateOf(h, seed, attempts[..k]);
    StepAdmitted(h, seed, st, attempts[k], StateOf(h, seed, attempts[..k + 1]));
    ReviewAdmitted(h, seed, st, attempts[k].invocation);
  }

  lemma ReviewAdmitted(h: Digests, seed: Seed, st: State, inv: Invocation)
    requires ReserveFault(h, seed, st, inv).None? && inv.kind == Review
    ensures inv.actor in seed.reviewers
  {
  }

  lemma LedgerApart(h: Digests, seed: Seed, attempts: seq<Attempt>, reviewer: Model, p: Model)
    requires ValidLedger(h, seed, attempts)
    requires reviewer in seed.reviewers && p in StateOf(h, seed, attempts).artifact.producers
    ensures Apart(seed, p, reviewer)
  {
    LineageHolds(h, seed, attempts, reviewer);
  }

  lemma LineageHolds(h: Digests, seed: Seed, attempts: seq<Attempt>, reviewer: Model)
    requires ValidLedger(h, seed, attempts) && reviewer in seed.reviewers
    ensures Independent(seed, StateOf(h, seed, attempts).artifact.producers, reviewer)
  {
    LedgerSound(h, seed, attempts);
  }

  /** Every credited report of a valid session is signed by a registered reviewer whose canonical and
      underlying model differ from those of every producer of the artifact, and whose family does too
      at tier T2 or where the policy asks for it; both sides are qualified. */
  lemma ReviewersApart(h: Digests, s: Session, r: ReviewReport, p: Model)
    requires ValidSession(h, s) && r in s.state.reports && p in s.state.artifact.producers
    ensures r.reviewer in s.seed.reviewers
    ensures r.reviewer.canonical != p.canonical && r.reviewer.model != p.model
    ensures s.seed.contract.riskTier == T2 || s.seed.policy.requireDifferentFamily ==> r.reviewer.family != p.family
    ensures r.reviewer.role == Reviewer && p.role == Producer
    ensures r.reviewer.family.Some? && r.reviewer.qualification.Some? && r.reviewer.capabilities != []
    ensures p.family.Some? && p.qualification.Some? && p.capabilities != []
  {
    var idx := CreditedReviews(Judgements(h, s.seed, s.attempts));
    CreditsAgree(h, s.seed, s.attempts);
    var i :| 0 <= i < |s.state.reports| && s.state.reports[i] == r;
    assert GenuineExecution(h, s.attempts, idx[i], s.state.reports[i]);
    ReviewerRegistered(h, s.seed, s.attempts, idx[i]);
    LedgerApart(h, s.seed, s.attempts, r.reviewer, p);
  }

  // Which seeds start a session.

  /** What a seed must be, field by field. */
  predicate Admissible(h: Digests, seed: Seed) {
    && (forall i, j :: 0 <= i < j < |seed.contract.criteria| ==>
          seed.contract.criteria[i].id != seed.contract.criteria[j].id)
    && (exists c :: c in seed.contract.criteria && c.mandatory)
    && (forall i, j :: 0 <= i < j < |seed.contract.artifactScope| ==>
          seed.contract.artifactScope[i] != seed.contract.artifactScope[j])
    && seed.policy.minReviews <= seed.policy.maxReviews
    && (forall i, j :: 0 <= i < j < |seed.initialArtifact.producers| ==>
          seed.initialArtifact.producers[i].canonical != seed.initialArtifact.producers[j].canonical)
    && seed.scope.tenant == seed.contract.tenant && seed.scope.workItem == seed.contract.workItem
    && seed.initialArtifact.scope == seed.scope
    && seed.initialArtifact.contractDigest == h.contract(seed.contract)
    && seed.initialArtifact.key in seed.contract.artifactScope
    && seed.originalDoer in seed.initialArtifact.producers
    && seed.reviewers != []
    && (forall i, j :: 0 <= i < j < |seed.reviewers| ==> h.model(seed.reviewers[i]) != h.model(seed.reviewers[j]))
    && (forall r, p :: r in seed.reviewers && p in seed.initialArtifact.producers ==> Apart(seed, p, r))
  }

  lemma AdmissibleFault(h: Digests, seed: Seed)
    requires Admissible(h, seed)
    ensures SeedFault(h, seed).None?
  {
    var producers := seed.initialArtifact.producers;
    forall p | p in producers ensures p.role == Producer && Qualified(p) {
      assert Apart(seed, p, seed.reviewers[0]);
    }
    forall r | r in seed.reviewers ensures Independent(seed, producers, r) {
      assert Apart(seed, seed.originalDoer, r);
      forall p | p in producers ensures IndependentOf(seed, p, r) {
        assert Apart(seed, p, r);
      }
    }
  }

  /** A session starts exactly from an admissible seed, with an empty ledger and nothing spent. */
  lemma StartIff(h: Digests, seed: Seed)
    ensures StartSession(h, seed).Ok? <==> Admissible(h, seed)
    ensures StartSession(h, seed).Ok? ==>
              var s := StartSession(h, seed).value;
              && s.seed == seed && s.attempts == [] && s.state.artifact == seed.initialArtifact
              && s.state.lastAt == seed.startedAt && s.state.budget == Budget(0, 0, 0, 0, 0, 0)
              && s.state.pending.None? && s.state.reports == [] && s.state.terminal == []
  {
    if Admissible(h, seed) {
      AdmissibleFault(h, seed);
    }
    if SeedFault(h, seed).None? {
      forall r, p | r in seed.reviewers && p in seed.initialArtifact.producers ensures Apart(seed, p, r) {
        assert IndependentOf(seed, p, r);
      }
    }
  }
}
