/** Sessions: a seed, the attempt ledger, and a state trusted only when it equals the
    replay of that ledger. */
module Ledger {
  import opened Basics
  import opened Domain
  import opened Rules
  import opened Reducer

  /** One ledger entry applied to the state before it. */
  function Step(h: Digests, seed: Seed, st: State, a: Attempt): Outcome<State> {
    var held := Reserve(h, seed, st, a.invocation);
    if held.Err? || a.completion.None? then held
    else Complete(h, seed, held.value, a.completion.value)
  }

  function Replayed(h: Digests, seed: Seed, attempts: seq<Attempt>): Outcome<State> {
    if attempts == [] then InitialState(h, seed)
    else
      var before := Replayed(h, seed, attempts[..|attempts| - 1]);
      if before.Err? then before else Step(h, seed, before.value, attempts[|attempts| - 1])
  }

  predicate ValidLedger(h: Digests, seed: Seed, attempts: seq<Attempt>) {
    Replayed(h, seed, attempts).Ok?
  }

  function StateOf(h: Digests, seed: Seed, attempts: seq<Attempt>): State
    requires ValidLedger(h, seed, attempts)
  {
    Replayed(h, seed, attempts).value
  }

  predicate ValidSession(h: Digests, s: Session) {
    Replayed(h, s.seed, s.attempts) == Ok(s.state)
  }

  lemma {:induction false} PrefixValid(h: Digests, seed: Seed, attempts: seq<Attempt>, k: nat)
    requires ValidLedger(h, seed, attempts)
    requires k <= |attempts|
    ensures ValidLedger(h, seed, attempts[..k])
  {
    if k == |attempts| {
      assert attempts[..k] == attempts;
    } else {
      var prefix := attempts[..|attempts| - 1];
      assert attempts[..k] == prefix[..k];
      PrefixValid(h, seed, prefix, k);
    }
  }

  lemma ReplayedSnoc(h: Digests, seed: Seed, attempts: seq<Attempt>, a: Attempt)
    requires ValidLedger(h, seed, attempts)
    ensures Replayed(h, seed, attempts + [a]) == Step(h, seed, StateOf(h, seed, attempts), a)
  {
    assert (attempts + [a])[..|attempts|] == attempts;
  }

  /** Consecutive prefixes of a valid ledger are one step apart. */
  lemma StepAt(h: Digests, seed: Seed, attempts: seq<Attempt>, k: nat)
    requires ValidLedger(h, seed, attempts) && k < |attempts|
    ensures ValidLedger(h, seed, attempts[..k]) && ValidLedger(h, seed, attempts[..k + 1])
    ensures Step(h, seed, StateOf(h, seed, attempts[..k]), attempts[k]) == Ok(StateOf(h, seed, attempts[..k + 1]))
  {
    PrefixValid(h, seed, attempts, k);
    PrefixValid(h, seed, attempts, k + 1);
    assert attempts[..k + 1][..k] == attempts[..k];
  }

  /** How an entry applied to the state before it is judged; `None` while it is pending. */
  function StepJudgement(h: Digests, seed: Seed, st: State, a: Attempt): Option<Judgement> {
    if a.completion.None? then None
    else Some(Judge(h, seed, Held(st, a.invocation), a.invocation, a.completion.value))
  }

  /** The judgement of every attempt of a valid ledger. */
  function Judgements(h: Digests, seed: Seed, attempts: seq<Attempt>): (js: seq<Option<Judgement>>)
    requires ValidLedger(h, seed, attempts)
    ensures |js| == |attempts|
  {
    if attempts == [] then []
    else
      PrefixValid(h, seed, attempts, |attempts| - 1);
      var before := attempts[..|attempts| - 1];
      Judgements(h, seed, before) + [StepJudgement(h, seed, StateOf(h, seed, before), attempts[|attempts| - 1])]
  }

  lemma {:induction false} JudgementsPrefix(h: Digests, seed: Seed, attempts: seq<Attempt>, k: nat)
    requires ValidLedger(h, seed, attempts) && k <= |attempts|
    ensures ValidLedger(h, seed, attempts[..k])
    ensures Judgements(h, seed, attempts)[..k] == Judgements(h, seed, attempts[..k])
  {
    PrefixValid(h, seed, attempts, k);
    if k == |attempts| {
      assert attempts[..k] == attempts;
    } else {
      var before := attempts[..|attempts| - 1];
      JudgementsPrefix(h, seed, before, k);
      assert before[..k] == attempts[..k];
      assert Judgements(h, seed, attempts)[..k] == Judgements(h, seed, before)[..k];
    }
  }

  lemma JudgementAt(h: Digests, seed: Seed, attempts: seq<Attempt>, k: nat)
    requires ValidLedger(h, seed, attempts) && k < |attempts|
    ensures ValidLedger(h, seed, attempts[..k])
    ensures Judgements(h, seed, attempts)[k] == StepJudgement(h, seed, StateOf(h, seed, attempts[..k]), attempts[k])
  {
    JudgementsPrefix(h, seed, attempts, k + 1);
    PrefixValid(h, seed, attempts, k);
    assert attempts[..k + 1][..k] == attempts[..k];
    assert Judgements(h, seed, attempts)[k] == Judgements(h, seed, attempts[..k + 1])[k];
  }

  predicate IsReviewed(j: Option<Judgement>) {
    j.Some? && j.value.Reviewed?
  }

  predicate IsRepaired(j: Option<Judgement>) {
    j.Some? && j.value.Repaired?
  }

  // The public operations.

  function StartSession(h: Digests, seed: Seed): Outcome<Session> {
    var st := InitialState(h, seed);
    if st.Err? then Err(st.error) else Ok(Session(seed, [], st.value))
  }

  function ReserveInvocation(h: Digests, s: Session, id: Identifier, kind: Kind, actor: Model,
                             reservation: Reservation, now: Moment): Outcome<Session>
  {
    if !ValidSession(h, s) then Err(ValueError)
    else
      var inv := Invocation(id, kind, BindingOf(h, s.state.artifact), actor, reservation, now);
      var st := Reserve(h, s.seed, s.state, inv);
      if st.Err? then Err(st.error)
      else Ok(Session(s.seed, s.attempts + [Attempt(inv, None)], st.value))
  }

  /** The first attempt with the identifier. */
  function FindAttempt(attempts: seq<Attempt>, id: Identifier): (r: Option<Attempt>)
    ensures r.Some? ==> r.value in attempts && r.value.invocation.id == id
    ensures r.None? <==> forall a :: a in attempts ==> a.invocation.id != id
  {
    if attempts == [] then None
    else if attempts[0].invocation.id == id then Some(attempts[0])
    else
      assert attempts == [attempts[0]] + attempts[1..];
      FindAttempt(attempts[1..], id)
  }

  function CompleteInvocation(h: Digests, s: Session, id: Identifier, receipt: Option<Receipt>,
                              output: Option<Output>, now: Moment, stop: Option<ExecutionStop>)
    : Outcome<Session>
  {
    if !ValidSession(h, s) then Err(ValueError)
    else
      var previous := FindAttempt(s.attempts, id);
      if previous.None? then Err(ValueError)
      else if previous.value.completion.Some? then
        var recorded := previous.value.completion.value;
        if recorded.receipt == receipt && recorded.output == output && recorded.stop == stop
        then Ok(s)
        else Err(ValueError)
      else
        var c := Completion(id, now, receipt, output, stop);
        var st := Complete(h, s.seed, s.state, c);
        if st.Err? then Err(st.error)
        else Ok(Session(s.seed, s.attempts[..|s.attempts| - 1] + [Attempt(previous.value.invocation, Some(c))],
                        st.value))
  }

  datatype Status = EligibleStatus | NeedsReviewStatus | NeedsRepairStatus | BlockedStatus | EscalateStatus

  datatype Decision = Decision(
    status: Status, reasons: seq<Reason>, sessionDigest: Digest, artifactDigest: Digest,
    completedReviews: nat)

  const ESCALATING: set<Reason> := {CriticalStop, Reason.ContractGap, ReviewEscalated, RepeatedFailure}

  function DecisionReasons(h: Digests, s: Session, current: Artifact, now: Moment): seq<Reason> {
    EligibilityReasons(h, s.seed, s.state)
    + When(current != s.state.artifact, ArtifactDrift)
    + When(!WithinWindow(s.seed, s.state, now), TimeWindow)
  }

  function StatusOf(h: Digests, s: Session, reasons: seq<Reason>): Status {
    if reasons == [] then EligibleStatus
    else if exists r :: r in reasons && r in ESCALATING then EscalateStatus
    else if s.state.terminal != [] || ArtifactDrift in reasons || TimeWindow in reasons then BlockedStatus
    else if NeedsRepair(h, s.state) && s.state.budget.repairs < s.seed.policy.maxRepairs
    then NeedsRepairStatus
    else NeedsReviewStatus
  }

  function Evaluate(h: Digests, s: Session, current: Artifact, now: Moment): Outcome<Decision> {
    if !ValidSession(h, s) then Err(ValueError)
    else
      var reasons := DecisionReasons(h, s, current, now);
      Ok(Decision(StatusOf(h, s, reasons), Dedupe(reasons), h.session(s), h.artifact(s.state.artifact),
                  |s.state.reports|))
  }
}
