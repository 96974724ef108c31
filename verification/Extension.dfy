/** Replay agreement of the public operations, and the durable extension check that
    accepts exactly their one-step successors. */
module Extension {
  import opened Basics
  import opened Domain
  import opened Rules
  import opened Reducer
  import opened Ledger
  import opened Accounting

  lemma StartValid(h: Digests, seed: Seed)
    requires StartSession(h, seed).Ok?
    ensures ValidSession(h, StartSession(h, seed).value)
  {
  }

  lemma ReserveValid(h: Digests, s: Session, id: Identifier, kind: Kind, actor: Model,
                     reservation: Reservation, now: Moment)
    requires ReserveInvocation(h, s, id, kind, actor, reservation, now).Ok?
    ensures ValidSession(h, ReserveInvocation(h, s, id, kind, actor, reservation, now).value)
  {
    var inv := Invocation(id, kind, BindingOf(h, s.state.artifact), actor, reservation, now);
    ReplayedSnoc(h, s.seed, s.attempts, Attempt(inv, None));
  }

  /** The only uncompleted attempt is the last one, and it is the pending call. */
  lemma OpenIsLast(h: Digests, s: Session, a: Attempt)
    requires ValidSession(h, s)
    requires a in s.attempts && a.completion.None?
    ensures s.attempts != [] && s.attempts[|s.attempts| - 1] == a
    ensures s.state.pending == Some(a.invocation)
  {
    LedgerAccounted(h, s.seed, s.attempts);
    var i :| 0 <= i < |s.attempts| && s.attempts[i] == a;
    assert i == |s.attempts| - 1;
  }

  lemma SettleReplays(h: Digests, s: Session, c: Completion)
    requires ValidSession(h, s) && s.attempts != []
    requires var a := s.attempts[|s.attempts| - 1];
             a.completion.None? && s.state.pending == Some(a.invocation) && c.invocationId == a.invocation.id
    ensures var a := s.attempts[|s.attempts| - 1];
            Replayed(h, s.seed, s.attempts[..|s.attempts| - 1] + [Attempt(a.invocation, Some(c))])
            == Complete(h, s.seed, s.state, c)
  {
    var n := |s.attempts| - 1;
    PrefixValid(h, s.seed, s.attempts, n);
    ReplayedSnoc(h, s.seed, s.attempts[..n], Attempt(s.attempts[n].invocation, Some(c)));
  }

  lemma PendingCompletes(h: Digests, seed: Seed, st: State, c: Completion)
    requires st.pending.Some? && c.invocationId == st.pending.value.id
    ensures Complete(h, seed, st, c).Ok?
  {
  }

  lemma CompleteFound(h: Digests, s: Session, a: Attempt, c: Completion, st: State)
    requires ValidSession(h, s) && FindAttempt(s.attempts, c.invocationId) == Some(a) && a.completion.None?
    requires s.attempts != [] && Complete(h, s.seed, s.state, c) == Ok(st)
    ensures CompleteInvocation(h, s, c.invocationId, c.receipt, c.output, c.finishedAt, c.stop)
         == Ok(Session(s.seed, s.attempts[..|s.attempts| - 1] + [Attempt(a.invocation, Some(c))], st))
  {
  }

  /** A completion of a call that is still open always settles it, as the last attempt. */
  lemma CompleteOpen(h: Digests, s: Session, id: Identifier, receipt: Option<Receipt>,
                     output: Option<Output>, now: Moment, stop: Option<ExecutionStop>)
    requires ValidSession(h, s)
    requires FindAttempt(s.attempts, id).Some? && FindAttempt(s.attempts, id).value.completion.None?
    ensures s.attempts != [] && s.attempts[|s.attempts| - 1] == FindAttempt(s.attempts, id).value
    ensures s.state.pending == Some(s.attempts[|s.attempts| - 1].invocation)
    ensures var done := CompleteInvocation(h, s, id, receipt, output, now, stop);
            var c := Completion(id, now, receipt, output, stop);
            && done.Ok? && done.value.seed == s.seed
            && done.value.attempts == s.attempts[..|s.attempts| - 1]
                                      + [Attempt(s.attempts[|s.attempts| - 1].invocation, Some(c))]
  {
    var a, c := FindAttempt(s.attempts, id).value, Completion(id, now, receipt, output, stop);
    OpenIsLast(h, s, a);
    PendingCompletes(h, s.seed, s.state, c);
    CompleteFound(h, s, a, c, Complete(h, s.seed, s.state, c).value);
  }

  lemma CompleteState(h: Digests, s: Session, id: Identifier, receipt: Option<Receipt>,
                      output: Option<Output>, now: Moment, stop: Option<ExecutionStop>)
    requires CompleteInvocation(h, s, id, receipt, output, now, stop).Ok?
    requires FindAttempt(s.attempts, id).Some? && FindAttempt(s.attempts, id).value.completion.None?
    ensures Complete(h, s.seed, s.state, Completion(id, now, receipt, output, stop))
            == Ok(CompleteInvocation(h, s, id, receipt, output, now, stop).value.state)
  {
  }

  lemma CompleteValid(h: Digests, s: Session, id: Identifier, receipt: Option<Receipt>,
                      output: Option<Output>, now: Moment, stop: Option<ExecutionStop>)
    requires CompleteInvocation(h, s, id, receipt, output, now, stop).Ok?
    ensures ValidSession(h, CompleteInvocation(h, s, id, receipt, output, now, stop).value)
  {
    if FindAttempt(s.attempts, id).value.completion.None? {
      CompleteOpen(h, s, id, receipt, output, now, stop);
      CompleteState(h, s, id, receipt, output, now, stop);
      SettleReplays(h, s, Completion(id, now, receipt, output, stop));
    }
  }

  lemma {:induction false} FoundUnique(attempts: seq<Attempt>, k: nat)
    requires k < |attempts|
    requires forall i, j :: 0 <= i < j < |attempts| ==> attempts[i].invocation.id != attempts[j].invocation.id
    ensures FindAttempt(attempts, attempts[k].invocation.id) == Some(attempts[k])
  {
    if k > 0 {
      FoundUnique(attempts[1..], k - 1);
    }
  }

  lemma FoundCompleted(h: Digests, s: Session, k: nat)
    requires ValidSession(h, s) && k < |s.attempts|
    ensures FindAttempt(s.attempts, s.attempts[k].invocation.id) == Some(s.attempts[k])
  {
    LedgerAccounted(h, s.seed, s.attempts);
    forall i, j | 0 <= i < j < |s.attempts|
      ensures s.attempts[i].invocation.id != s.attempts[j].invocation.id
    {
      assert s.state.invocationIds[i] != s.state.invocationIds[j];
    }
    FoundUnique(s.attempts, k);
  }

  /** Redelivering what was recorded changes nothing, at any later time; anything else conflicts. */
  lemma Redelivery(h: Digests, s: Session, k: nat, receipt: Option<Receipt>,
                   output: Option<Output>, stop: Option<ExecutionStop>, later: Moment)
    requires ValidSession(h, s) && k < |s.attempts| && s.attempts[k].completion.Some?
    ensures var c := s.attempts[k].completion.value;
            CompleteInvocation(h, s, s.attempts[k].invocation.id, receipt, output, later, stop)
            == if c.receipt == receipt && c.output == output && c.stop == stop then Ok(s) else Err(ValueError)
  {
    FoundCompleted(h, s, k);
  }

  // The extension check.

  datatype Transition = Created | ReservedCall | CompletedCall | Unchanged

  /** How the ledgers of a session and its accepted successor compare. */
  predicate Shape(current: Option<Session>, t: Session, kind: Transition) {
    match kind
    case Created => current.None? && t.attempts == []
    case Unchanged => current == Some(t)
    case ReservedCall =>
      && current.Some? && current.value.state.pending.None?
      && |t.attempts| == |current.value.attempts| + 1
      && t.attempts[..|current.value.attempts|] == current.value.attempts
      && t.attempts[|current.value.attempts|].completion.None?
    case CompletedCall =>
      && current.Some? && current.value.state.pending.Some?
      && |t.attempts| == |current.value.attempts| > 0
      && t.attempts[..|t.attempts| - 1] == current.value.attempts[..|t.attempts| - 1]
      && t.attempts[|t.attempts| - 1].invocation == current.value.attempts[|t.attempts| - 1].invocation
      && t.attempts[|t.attempts| - 1].completion.Some?
  }

  /** Which single step the two ledgers could be apart, judged by their attempts alone. */
  function NextKind(current: Session, proposed: Session): (r: Option<Transition>)
    ensures r.Some? ==> r.value in {ReservedCall, CompletedCall} && Shape(Some(current), proposed, r.value)
  {
    var n := |current.attempts|;
    if current.state.pending.None? && |proposed.attempts| == n + 1 && proposed.attempts[..n] == current.attempts then
      if proposed.attempts[n].completion.Some? then None else Some(ReservedCall)
    else if current.state.pending.Some? && |proposed.attempts| == n && n > 0
            && proposed.attempts[..n - 1] == current.attempts[..n - 1]
            && proposed.attempts[n - 1].invocation == current.attempts[n - 1].invocation then
      if proposed.attempts[n - 1].completion.None? then None else Some(CompletedCall)
    else None
  }

  /** The session that the public operation makes of the committed one. */
  function Recomputed(h: Digests, current: Session, proposed: Session, kind: Transition): Outcome<Session>
    requires kind in {ReservedCall, CompletedCall} && Shape(Some(current), proposed, kind)
  {
    var a := proposed.attempts[|proposed.attempts| - 1];
    if kind == ReservedCall then
      var i := a.invocation;
      ReserveInvocation(h, current, i.id, i.kind, i.actor, i.reservation, i.startedAt)
    else
      var c := a.completion.value;
      CompleteInvocation(h, current, c.invocationId, c.receipt, c.output, c.finishedAt, c.stop)
  }

  /** The recomputed session must be the proposed one. */
  function Confirm(expected: Outcome<Session>, proposed: Session, kind: Transition): (r: Outcome<Transition>)
    ensures r.Ok? ==> r.value == kind && expected == Ok(proposed)
  {
    if expected.Err? then Err(expected.error)
    else if expected.value != proposed then Err(ValueError)
    else Ok(kind)
  }

  function ValidateExtension(h: Digests, current: Option<Session>, proposed: Session): Outcome<Transition> {
    if !ValidSession(h, proposed) then Err(ValueError)
    else if current.None? then
      if proposed.attempts != [] then Err(ValueError) else Ok(Created)
    else if !ValidSession(h, current.value) || current.value.seed != proposed.seed then Err(ValueError)
    else if current.value == proposed then Ok(Unchanged)
    else
      match NextKind(current.value, proposed)
      case None => Err(ValueError)
      case Some(kind) => Confirm(Recomputed(h, current.value, proposed, kind), proposed, kind)
  }

  lemma ExtensionShape(h: Digests, current: Option<Session>, t: Session)
    requires ValidateExtension(h, current, t).Ok?
    ensures Shape(current, t, ValidateExtension(h, current, t).value)
  {
  }

  ghost predicate IsReserveOf(h: Digests, s: Session, t: Session) {
    exists id, kind, actor, reservation, now :: ReserveInvocation(h, s, id, kind, actor, reservation, now) == Ok(t)
  }

  ghost predicate IsCompleteOf(h: Digests, s: Session, t: Session) {
    exists id, receipt, output, now, stop :: CompleteInvocation(h, s, id, receipt, output, now, stop) == Ok(t)
  }

  lemma ReserveAccepted(h: Digests, s: Session, id: Identifier, kind: Kind, actor: Model,
                        reservation: Reservation, now: Moment, t: Session)
    requires ReserveInvocation(h, s, id, kind, actor, reservation, now) == Ok(t)
    ensures ValidateExtension(h, Some(s), t) == Ok(ReservedCall)
  {
    ReserveValid(h, s, id, kind, actor, reservation, now);
    assert t.attempts[..|s.attempts|] == s.attempts;
    assert |t.attempts| == |s.attempts| + 1;
  }

  lemma AcceptsCompletion(h: Digests, s: Session, t: Session, n: nat, c: Completion)
    requires ValidSession(h, s) && ValidSession(h, t) && s.seed == t.seed && s != t
    requires s.state.pending.Some? && |s.attempts| == |t.attempts| == n + 1
    requires t.attempts[..n] == s.attempts[..n]
    requires t.attempts[n] == Attempt(s.attempts[n].invocation, Some(c))
    requires CompleteInvocation(h, s, c.invocationId, c.receipt, c.output, c.finishedAt, c.stop) == Ok(t)
    ensures ValidateExtension(h, Some(s), t) == Ok(CompletedCall)
  {
    NextIsCompletion(s, t, n);
    RecomputesCompletion(h, s, t, c);
  }

  lemma NextIsCompletion(s: Session, t: Session, n: nat)
    requires s.state.pending.Some? && |s.attempts| == |t.attempts| == n + 1 && t.attempts[..n] == s.attempts[..n]
    requires t.attempts[n].invocation == s.attempts[n].invocation && t.attempts[n].completion.Some?
    ensures NextKind(s, t) == Some(CompletedCall)
  {
  }

  lemma RecomputesCompletion(h: Digests, s: Session, t: Session, c: Completion)
    requires Shape(Some(s), t, CompletedCall) && t.attempts[|t.attempts| - 1].completion == Some(c)
    ensures Recomputed(h, s, t, CompletedCall)
         == CompleteInvocation(h, s, c.invocationId, c.receipt, c.output, c.finishedAt, c.stop)
  {
  }

  lemma ChangeMeansOpen(h: Digests, s: Session, id: Identifier, receipt: Option<Receipt>,
                        output: Option<Output>, now: Moment, stop: Option<ExecutionStop>, t: Session)
    requires CompleteInvocation(h, s, id, receipt, output, now, stop) == Ok(t) && t != s
    ensures ValidSession(h, s)
    ensures FindAttempt(s.attempts, id).Some? && FindAttempt(s.attempts, id).value.completion.None?
  {
  }

  lemma CompleteAccepted(h: Digests, s: Session, id: Identifier, receipt: Option<Receipt>,
                         output: Option<Output>, now: Moment, stop: Option<ExecutionStop>, t: Session)
    requires CompleteInvocation(h, s, id, receipt, output, now, stop) == Ok(t) && t != s
    ensures ValidateExtension(h, Some(s), t) == Ok(CompletedCall)
  {
    CompleteValid(h, s, id, receipt, output, now, stop);
    ChangeMeansOpen(h, s, id, receipt, output, now, stop, t);
    CompleteOpen(h, s, id, receipt, output, now, stop);
    AcceptsCompletion(h, s, t, |s.attempts| - 1, Completion(id, now, receipt, output, stop));
  }

  lemma ReservedOnly(h: Digests, s: Session, t: Session)
    requires ValidateExtension(h, Some(s), t) == Ok(ReservedCall)
    ensures IsReserveOf(h, s, t)
  {
    ExtensionShape(h, Some(s), t);
    var i := t.attempts[|s.attempts|].invocation;
    assert ReserveInvocation(h, s, i.id, i.kind, i.actor, i.reservation, i.startedAt) == Ok(t);
  }

  lemma CompletedOnly(h: Digests, s: Session, t: Session)
    requires ValidateExtension(h, Some(s), t) == Ok(CompletedCall)
    ensures t != s && IsCompleteOf(h, s, t)
  {
    ExtensionShape(h, Some(s), t);
    var c := t.attempts[|t.attempts| - 1].completion.value;
    assert CompleteInvocation(h, s, c.invocationId, c.receipt, c.output, c.finishedAt, c.stop) == Ok(t);
  }

  lemma UnchangedIff(h: Digests, s: Session, t: Session)
    requires ValidSession(h, s)
    ensures ValidateExtension(h, Some(s), t) == Ok(Unchanged) <==> t == s
    ensures ValidateExtension(h, Some(s), t) != Ok(Created)
  {
    if ValidateExtension(h, Some(s), t).Ok? {
      ExtensionShape(h, Some(s), t);
    }
  }

  /** The check accepts a successor exactly when one reducer step of the committed session produces it. */
  lemma ExtensionIff(h: Digests, s: Session, t: Session)
    requires ValidSession(h, s)
    ensures ValidateExtension(h, Some(s), t) == Ok(ReservedCall) <==> IsReserveOf(h, s, t)
    ensures ValidateExtension(h, Some(s), t) == Ok(CompletedCall) <==> t != s && IsCompleteOf(h, s, t)
    ensures ValidateExtension(h, Some(s), t) == Ok(Unchanged) <==> t == s
    ensures ValidateExtension(h, Some(s), t) != Ok(Created)
  {
    UnchangedIff(h, s, t);
    if ValidateExtension(h, Some(s), t) == Ok(ReservedCall) {
      ReservedOnly(h, s, t);
    } else if IsReserveOf(h, s, t) {
      var id, kind, actor, reservation, now :| ReserveInvocation(h, s, id, kind, actor, reservation, now) == Ok(t);
      ReserveAccepted(h, s, id, kind, actor, reservation, now, t);
    }
    if ValidateExtension(h, Some(s), t) == Ok(CompletedCall) {
      CompletedOnly(h, s, t);
    } else if t != s && IsCompleteOf(h, s, t) {
      var id, receipt, output, now, stop :| CompleteInvocation(h, s, id, receipt, output, now, stop) == Ok(t);
      CompleteAccepted(h, s, id, receipt, output, now, stop, t);
    }
  }

  lemma CreationIff(h: Digests, t: Session)
    ensures ValidateExtension(h, None, t) == Ok(Created) <==> StartSession(h, t.seed) == Ok(t)
  {
  }
}
