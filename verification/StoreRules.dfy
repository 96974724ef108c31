/** When each store transaction succeeds and what it writes, spelled on the rows and the session. */
module StoreRules {
  import opened Basics
  import opened Domain
  import opened Rules
  import opened Reducer
  import opened Ledger
  import opened Accounting
  import opened Extension
  import opened Independence
  import opened Store
  import opened StoreRuns

  /** The committed session of a scope, if it has one. */
  function Committing(db: Tables, scope: Scope): Option<Session> {
    if scope in db.sessions then Some(db.sessions[scope].document) else None
  }

  /** The session may be presented for the scope by this worker under this parent. */
  predicate Presented(h: Digests, db: Tables, grant: Grant, scope: Scope, updated: Session, parentId: Identifier) {
    && ValidSession(h, updated) && updated.seed.scope == scope && h.bytes(updated) <= 4_194_304
    && scope.tenant == grant.tenant && scope in db.registrations
    && db.registrations[scope].budgetId == parentId
    && db.registrations[scope].seedDigest == h.seed(updated.seed)
  }

  /** The worker expects exactly the committed session, and proposes another one. */
  predicate Expected(h: Digests, db: Tables, scope: Scope, expected: Option<Digest>, updated: Session) {
    if scope in db.sessions
    then expected == Some(h.session(db.sessions[scope].document)) && updated != db.sessions[scope].document
    else expected == None
  }

  /** The call runs now, ends before the parent expires, and fits every ceiling with what is booked. */
  predicate FitsParent(limits: ParentBudget, used: Budget, inv: Invocation, now: Moment) {
    var deadline := inv.startedAt + inv.reservation.seconds * TICKS_PER_SECOND;
    && inv.startedAt <= now < deadline <= limits.expiresAt
    && used.invocations + 1 <= limits.maxInvocations
    && used.repairs + (if inv.kind == Repair then 1 else 0) <= limits.maxRepairs
    && used.tokensSpent + used.tokensReserved + inv.reservation.tokens <= limits.maxTokens
    && used.costSpent + used.costReserved + inv.reservation.cost <= limits.maxCost
  }

  predicate NamesInvocation(db: Tables, id: Identifier) {
    exists scope :: scope in db.events && exists row :: row in db.events[scope] && row.invocationId == Some(id)
  }

  predicate NamesExecution(db: Tables, provider: Identifier, execution: Identifier) {
    exists scope :: scope in db.events
                 && exists row :: row in db.events[scope] && row.execution == Some((provider, execution))
  }

  predicate Opens(db: Tables, scope: Scope, updated: Session) {
    scope !in db.sessions && updated.attempts == []
  }

  /** One public reservation of the committed session, small enough, within the parent, newly named. */
  ghost predicate Books(h: Digests, db: Tables, scope: Scope, updated: Session, parentId: Identifier, now: Moment) {
    && scope in db.sessions && IsReserveOf(h, db.sessions[scope].document, updated)
    && updated.attempts != []
    && BudgetKey(scope.tenant, parentId) in db.budgets
    && var parent, inv := db.budgets[BudgetKey(scope.tenant, parentId)],
                          updated.attempts[|updated.attempts| - 1].invocation;
       FitsParent(parent.limits, parent.used, inv, now) && !NamesInvocation(db, inv.id)
  }

  /** One public completion of the committed session, on an execution nobody reported before. */
  ghost predicate Settles(h: Digests, db: Tables, scope: Scope, updated: Session) {
    && scope in db.sessions && IsCompleteOf(h, db.sessions[scope].document, updated)
    && (updated.attempts != [] && HasReceipt(updated.attempts[|updated.attempts| - 1]) ==>
          var proof := ReceiptOf(updated.attempts[|updated.attempts| - 1]);
          !NamesExecution(db, proof.actualModel.provider, proof.executionId))
  }

  ghost predicate Swaps(h: Digests, db: Tables, scope: Scope, updated: Session, parentId: Identifier, now: Moment) {
    || (h.bytes(updated) <= 2_097_152
        && (Opens(db, scope, updated) || Books(h, db, scope, updated, parentId, now)))
    || Settles(h, db, scope, updated)
  }

  // On a consistent store these are the conditions of the code.

  lemma AuthorizedIff(h: Digests, db: Tables, grant: Grant, scope: Scope, updated: Session, parentId: Identifier)
    requires Consistent(h, db)
    ensures Authorized(h, db, grant, scope, updated, parentId) <==> Presented(h, db, grant, scope, updated, parentId)
    ensures Presented(h, db, grant, scope, updated, parentId) ==> BudgetKey(scope.tenant, parentId) in db.budgets
  {
    TipFacts(h, db, scope);
    RegisteredParent(h, db, scope);
    PresentedIff(h, db, grant, scope, updated, parentId);
  }

  lemma TipFacts(h: Digests, db: Tables, scope: Scope)
    requires Consistent(h, db)
    ensures TipAgrees(db, scope) && (scope in db.sessions ==> Decodes(h, db.sessions[scope]))
  {
    ConsistentRow(h, db, scope);
    if scope in db.sessions {
      AuditedTip(h, db, scope);
    }
  }

  lemma AuditedTip(h: Digests, db: Tables, scope: Scope)
    requires scope in db.sessions && scope in db.events && scope in db.registrations
    requires Audited(h, db.sessions[scope], db.events[scope])
    requires Enrolled(h, db.sessions[scope].document, scope, db.registrations[scope])
    ensures TipAgrees(db, scope) && Decodes(h, db.sessions[scope])
  {
  }

  lemma RegisteredParent(h: Digests, db: Tables, scope: Scope)
    requires Consistent(h, db)
    ensures scope in db.registrations ==>
              HasWorkItem(db, scope.tenant, scope.workItem, BudgetKey(scope.tenant, db.registrations[scope].budgetId))
  {
  }

  lemma PresentedIff(h: Digests, db: Tables, grant: Grant, scope: Scope, updated: Session, parentId: Identifier)
    requires TipAgrees(db, scope) && (scope in db.sessions ==> Decodes(h, db.sessions[scope]))
    requires scope in db.registrations ==>
               HasWorkItem(db, scope.tenant, scope.workItem, BudgetKey(scope.tenant, db.registrations[scope].budgetId))
    ensures Authorized(h, db, grant, scope, updated, parentId) <==> Presented(h, db, grant, scope, updated, parentId)
    ensures Presented(h, db, grant, scope, updated, parentId) ==> BudgetKey(scope.tenant, parentId) in db.budgets
  {
  }

  lemma ExpectedIff(h: Digests, db: Tables, scope: Scope, expected: Option<Digest>, updated: Session)
    ensures Expected(h, db, scope, expected, updated)
            <==> CurrentOf(db, scope) != Some(updated) && expected == DigestOf(h, CurrentOf(db, scope))
  {
  }

  lemma ReservedBudget(h: Digests, s: Session, t: Session)
    requires IsReserveOf(h, s, t)
    ensures t.attempts != []
    ensures var inv, b, c := t.attempts[|t.attempts| - 1].invocation, s.state.budget, t.state.budget;
            && t.state.pending == Some(inv) && b.tokensReserved == b.costReserved == 0
            && c == Budget(b.invocations + 1, b.repairs + (if inv.kind == Repair then 1 else 0), b.tokensSpent,
                           b.costSpent, inv.reservation.tokens, inv.reservation.cost)
  {
    var id, kind, actor, reservation, now :| ReserveInvocation(h, s, id, kind, actor, reservation, now) == Ok(t);
    ReservedIs(h, s, id, kind, actor, reservation, now, t);
    ReserveClear(h, s);
  }

  lemma ReservedIs(h: Digests, s: Session, id: Identifier, kind: Kind, actor: Model, reservation: Reservation,
                   now: Moment, t: Session)
    requires ReserveInvocation(h, s, id, kind, actor, reservation, now) == Ok(t)
    ensures var inv := Invocation(id, kind, BindingOf(h, s.state.artifact), actor, reservation, now);
            && ValidSession(h, s) && s.state.pending.None?
            && t.attempts == s.attempts + [Attempt(inv, None)] && t.state == Held(s.state, inv)
  {
  }

  lemma ReserveClear(h: Digests, s: Session)
    requires ValidSession(h, s) && s.state.pending.None?
    ensures s.state.budget.tokensReserved == s.state.budget.costReserved == 0
  {
    SessionAccounting(h, s);
  }

  lemma FitsIff(limits: ParentBudget, used: Budget, from: Budget, updated: Session, counters: Budget, now: Moment)
    requires Moved(used, from, updated.state.budget) == Some(counters)
    requires updated.attempts != []
    requires var inv := updated.attempts[|updated.attempts| - 1].invocation;
             && updated.state.pending == Some(inv) && from.tokensReserved == from.costReserved == 0
             && updated.state.budget
                == Budget(from.invocations + 1, from.repairs + (if inv.kind == Repair then 1 else 0), from.tokensSpent,
                          from.costSpent, inv.reservation.tokens, inv.reservation.cost)
    ensures ParentAdmits(limits, counters, updated, now)
            <==> FitsParent(limits, used, updated.attempts[|updated.attempts| - 1].invocation, now)
  {
  }

  lemma CollidesIff(db: Tables, kind: Transition, updated: Session)
    requires kind in {ReservedCall, CompletedCall} ==> updated.attempts != []
    ensures Collides(db, kind, updated) <==>
              || (kind == ReservedCall && NamesInvocation(db, updated.attempts[|updated.attempts| - 1].invocation.id))
              || (kind == CompletedCall && HasReceipt(updated.attempts[|updated.attempts| - 1])
                  && var proof := ReceiptOf(updated.attempts[|updated.attempts| - 1]);
                     NamesExecution(db, proof.actualModel.provider, proof.executionId))
  {
  }

  /** What the decision says once the extension and the counters are known. */
  predicate Passes(h: Digests, db: Tables, limits: ParentBudget, updated: Session, kind: Transition, counters: Budget,
                   now: Moment)
  {
    && (kind in {Created, ReservedCall} ==> h.bytes(updated) <= 2_097_152)
    && (kind == ReservedCall ==> ParentAdmits(limits, counters, updated, now))
    && !Collides(db, kind, updated)
  }

  lemma AdmitIff(h: Digests, db: Tables, grant: Grant, scope: Scope, expected: Option<Digest>,
                 updated: Session, parentId: Identifier, now: Moment)
    requires Consistent(h, db) && Presented(h, db, grant, scope, updated, parentId)
    requires Expected(h, db, scope, expected, updated)
    ensures BudgetKey(scope.tenant, parentId) in db.budgets
    ensures var parent, current := db.budgets[BudgetKey(scope.tenant, parentId)], CurrentOf(db, scope);
            var counters := Moved(parent.used, BudgetOf(current), updated.state.budget);
            var kind := ValidateExtension(h, current, updated);
            && counters.Some?
            && (Decide(h, db, grant, scope, expected, updated, parentId, now).Admit?
                <==> kind.Ok? && Passes(h, db, parent.limits, updated, kind.value, counters.value, now))
  {
    AuthorizedIff(h, db, grant, scope, updated, parentId);
    ExpectedIff(h, db, scope, expected, updated);
    NoUnderflow(h, db, scope, parentId, updated);
    DecideIs(h, db, grant, scope, expected, updated, parentId, now,
             Moved(db.budgets[BudgetKey(scope.tenant, parentId)].used, BudgetOf(CurrentOf(db, scope)),
                   updated.state.budget).value);
  }

  lemma DecideIs(h: Digests, db: Tables, grant: Grant, scope: Scope, expected: Option<Digest>,
                 updated: Session, parentId: Identifier, now: Moment, counters: Budget)
    requires Authorized(h, db, grant, scope, updated, parentId)
    requires CurrentOf(db, scope) != Some(updated) && expected == DigestOf(h, CurrentOf(db, scope))
    requires Moved(db.budgets[BudgetKey(scope.tenant, parentId)].used, BudgetOf(CurrentOf(db, scope)),
                   updated.state.budget) == Some(counters)
    ensures var kind := ValidateExtension(h, CurrentOf(db, scope), updated);
            Decide(h, db, grant, scope, expected, updated, parentId, now)
            == if kind.Ok? && Passes(h, db, db.budgets[BudgetKey(scope.tenant, parentId)].limits, updated, kind.value,
                                     counters, now)
               then Admit(kind.value, counters) else Deny
  {
  }

  lemma PassesIff(h: Digests, db: Tables, scope: Scope, updated: Session, parentId: Identifier, counters: Budget,
                  now: Moment)
    requires BudgetKey(scope.tenant, parentId) in db.budgets
    requires CurrentOf(db, scope).Some? ==> ValidSession(h, CurrentOf(db, scope).value)
    requires ValidSession(h, updated) && CurrentOf(db, scope) != Some(updated)
    requires Moved(db.budgets[BudgetKey(scope.tenant, parentId)].used, BudgetOf(CurrentOf(db, scope)),
                   updated.state.budget) == Some(counters)
    ensures var kind := ValidateExtension(h, CurrentOf(db, scope), updated);
            kind.Ok? && Passes(h, db, db.budgets[BudgetKey(scope.tenant, parentId)].limits, updated, kind.value,
                               counters, now)
            <==> Swaps(h, db, scope, updated, parentId, now)
  {
    var current := CurrentOf(db, scope);
    if current.None? {
      OpeningIff(h, db, scope, updated, parentId, counters, now);
    } else {
      ExtensionIff(h, current.value, updated);
      ReserveOrComplete(h, current.value, updated);
      if IsReserveOf(h, current.value, updated) {
        ReservedBudget(h, current.value, updated);
        BookingIff(h, db, scope, updated, parentId, counters, now);
      } else if IsCompleteOf(h, current.value, updated) {
        SettlingIff(h, db, scope, updated, parentId, counters, now);
      }
    }
  }

  /** The two public operations lead to different sessions. */
  lemma ReserveOrComplete(h: Digests, s: Session, t: Session)
    requires ValidSession(h, s) && t != s
    ensures !(IsReserveOf(h, s, t) && IsCompleteOf(h, s, t))
    ensures ValidateExtension(h, Some(s), t).Ok? <==> IsReserveOf(h, s, t) || IsCompleteOf(h, s, t)
    ensures IsReserveOf(h, s, t) ==> ValidateExtension(h, Some(s), t) == Ok(ReservedCall)
    ensures IsCompleteOf(h, s, t) ==> ValidateExtension(h, Some(s), t) == Ok(CompletedCall)
  {
    ExtensionIff(h, s, t);
  }

  lemma OpeningIff(h: Digests, db: Tables, scope: Scope, updated: Session, parentId: Identifier, counters: Budget,
                   now: Moment)
    requires BudgetKey(scope.tenant, parentId) in db.budgets
    requires scope !in db.sessions && ValidSession(h, updated)
    ensures var kind := ValidateExtension(h, None, updated);
            kind.Ok? && Passes(h, db, db.budgets[BudgetKey(scope.tenant, parentId)].limits, updated, kind.value,
                               counters, now)
            <==> Swaps(h, db, scope, updated, parentId, now)
  {
  }

  lemma BookingIff(h: Digests, db: Tables, scope: Scope, updated: Session, parentId: Identifier, counters: Budget,
                   now: Moment)
    requires BudgetKey(scope.tenant, parentId) in db.budgets && scope in db.sessions
    requires var s := db.sessions[scope].document;
             && IsReserveOf(h, s, updated) && !IsCompleteOf(h, s, updated) && updated.attempts != []
             && Moved(db.budgets[BudgetKey(scope.tenant, parentId)].used, s.state.budget, updated.state.budget)
                == Some(counters)
             && s.state.budget.tokensReserved == s.state.budget.costReserved == 0
             && var inv, from := updated.attempts[|updated.attempts| - 1].invocation, s.state.budget;
                && updated.state.pending == Some(inv)
                && updated.state.budget
                   == Budget(from.invocations + 1, from.repairs + (if inv.kind == Repair then 1 else 0),
                             from.tokensSpent, from.costSpent, inv.reservation.tokens, inv.reservation.cost)
    ensures Passes(h, db, db.budgets[BudgetKey(scope.tenant, parentId)].limits, updated, ReservedCall, counters, now)
            <==> Swaps(h, db, scope, updated, parentId, now)
  {
    var parent := db.budgets[BudgetKey(scope.tenant, parentId)];
    FitsIff(parent.limits, parent.used, db.sessions[scope].document.state.budget, updated, counters, now);
    CollidesIff(db, ReservedCall, updated);
  }

  lemma SettlingIff(h: Digests, db: Tables, scope: Scope, updated: Session, parentId: Identifier, counters: Budget,
                    now: Moment)
    requires BudgetKey(scope.tenant, parentId) in db.budgets && scope in db.sessions
    requires var s := db.sessions[scope].document;
             IsCompleteOf(h, s, updated) && !IsReserveOf(h, s, updated)
             && ValidateExtension(h, Some(s), updated) == Ok(CompletedCall)
    ensures Passes(h, db, db.budgets[BudgetKey(scope.tenant, parentId)].limits, updated, CompletedCall, counters, now)
            <==> Swaps(h, db, scope, updated, parentId, now)
  {
    ExtensionShape(h, Some(db.sessions[scope].document), updated);
    CollidesIff(db, CompletedCall, updated);
  }

  /** On every consistent store a swap is committed exactly when the session may be presented, the
      worker expects the committed one, and the step opens, books or settles within its bounds; it is
      refused exactly when it is presented but not expected, and denied otherwise. */
  lemma SwapIff(h: Digests, db: Tables, grant: Grant, scope: Scope, expected: Option<Digest>,
                updated: Session, parentId: Identifier, now: Moment)
    requires Consistent(h, db)
    ensures var reply := Commit(h, db, grant, scope, expected, updated, parentId, now).1;
            var presented := Presented(h, db, grant, scope, updated, parentId);
            var awaited := Expected(h, db, scope, expected, updated);
            && (reply == Committed <==> presented && awaited && Swaps(h, db, scope, updated, parentId, now))
            && (reply == Refused <==> presented && !awaited)
  {
    AuthorizedIff(h, db, grant, scope, updated, parentId);
    ExpectedIff(h, db, scope, expected, updated);
    ConsistentRow(h, db, scope);
    if Presented(h, db, grant, scope, updated, parentId) && Expected(h, db, scope, expected, updated) {
      AdmitIff(h, db, grant, scope, expected, updated, parentId, now);
      var parent, current := db.budgets[BudgetKey(scope.tenant, parentId)], CurrentOf(db, scope);
      PassesIff(h, db, scope, updated, parentId,
                Moved(parent.used, BudgetOf(current), updated.state.budget).value, now);
    }
    ReplyIs(h, db, grant, scope, expected, updated, parentId, now);
  }

  lemma ReplyIs(h: Digests, db: Tables, grant: Grant, scope: Scope, expected: Option<Digest>,
                updated: Session, parentId: Identifier, now: Moment)
    ensures var reply := Commit(h, db, grant, scope, expected, updated, parentId, now).1;
            && (reply == Committed <==> Decide(h, db, grant, scope, expected, updated, parentId, now).Admit?)
            && (reply == Refused <==>
                  Authorized(h, db, grant, scope, updated, parentId)
                  && (CurrentOf(db, scope) == Some(updated) || expected != DigestOf(h, CurrentOf(db, scope))))
  {
  }

  /** A committed session with a pending call was committed inside that call's time window, which ends
      before the parent expires. */
  lemma CommittedInTime(h: Digests, db: Tables, grant: Grant, scope: Scope, expected: Option<Digest>,
                        updated: Session, parentId: Identifier, now: Moment)
    ensures Commit(h, db, grant, scope, expected, updated, parentId, now).1 == Committed
            && updated.state.pending.Some? ==>
              && BudgetKey(scope.tenant, parentId) in db.budgets
              && var inv := updated.state.pending.value;
                 inv.startedAt <= now < inv.startedAt + inv.reservation.seconds * TICKS_PER_SECOND
                 <= db.budgets[BudgetKey(scope.tenant, parentId)].limits.expiresAt
  {
    if Commit(h, db, grant, scope, expected, updated, parentId, now).1 == Committed && updated.state.pending.Some? {
      PendingInTime(h, db, grant, scope, expected, updated, parentId, now);
    }
  }

  lemma PendingInTime(h: Digests, db: Tables, grant: Grant, scope: Scope, expected: Option<Digest>,
                      updated: Session, parentId: Identifier, now: Moment)
    requires Commit(h, db, grant, scope, expected, updated, parentId, now).1 == Committed
    requires updated.state.pending.Some?
    ensures BudgetKey(scope.tenant, parentId) in db.budgets
    ensures var inv := updated.state.pending.value;
            inv.startedAt <= now < inv.startedAt + inv.reservation.seconds * TICKS_PER_SECOND
            <= db.budgets[BudgetKey(scope.tenant, parentId)].limits.expiresAt
  {
    ReplyIs(h, db, grant, scope, expected, updated, parentId, now);
    AdmittedCommit(h, db, grant, scope, expected, updated, parentId, now);
    var kind := Decide(h, db, grant, scope, expected, updated, parentId, now).kind;
    ExtensionShape(h, CurrentOf(db, scope), updated);
    SessionAccounting(h, updated);
    assert kind == ReservedCall;
  }

  // What a committed swap writes.

  /** The appended row: numbered next, between the two digests, naming its call or execution and its author. */
  predicate AppendsRow(h: Digests, grant: Grant, before: Option<Session>, position: nat, updated: Session,
                       row: EventRow)
  {
    && row.sequence == position && row.subject == grant.subject && row.document == updated
    && row.after == h.session(updated)
    && row.before == (if before.None? then None else Some(h.session(before.value)))
    && row.kind == (if updated.attempts == [] then Created
                    else if updated.attempts[|updated.attempts| - 1].completion.None? then ReservedCall
                    else CompletedCall)
    && row.invocationId == (if row.kind == ReservedCall
                            then Some(updated.attempts[|updated.attempts| - 1].invocation.id) else None)
    && row.execution == (if row.kind == CompletedCall && HasReceipt(updated.attempts[|updated.attempts| - 1])
                         then Some((ReceiptOf(updated.attempts[|updated.attempts| - 1]).actualModel.provider,
                                    ReceiptOf(updated.attempts[|updated.attempts| - 1]).executionId))
                         else None)
  }

  /** The parent's counters move by exactly what the session's counters moved. */
  predicate MovesBy(used: Budget, after: Budget, from: Budget, to: Budget) {
    && after.invocations - used.invocations == to.invocations - from.invocations
    && after.repairs - used.repairs == to.repairs - from.repairs
    && after.tokensSpent - used.tokensSpent == to.tokensSpent - from.tokensSpent
    && after.costSpent - used.costSpent == to.costSpent - from.costSpent
    && after.tokensReserved - used.tokensReserved == to.tokensReserved - from.tokensReserved
    && after.costReserved - used.costReserved == to.costReserved - from.costReserved
  }

  /** One session, one row and one parent's counters change, together and alone. */
  predicate WritesSwap(h: Digests, db: Tables, after: Tables, grant: Grant, scope: Scope, updated: Session,
                       parentId: Identifier)
  {
    var key := BudgetKey(scope.tenant, parentId);
    var rows := if scope in db.events then db.events[scope] else [];
    && after.registrations == db.registrations
    && after.sessions.Keys == db.sessions.Keys + {scope}
    && (forall x :: x in db.sessions && x != scope ==> after.sessions[x] == db.sessions[x])
    && after.sessions[scope] == SessionRow(updated, h.session(updated), |rows| + 1)
    && scope in after.events && |after.events[scope]| == |rows| + 1 && after.events[scope][..|rows|] == rows
    && AppendsRow(h, grant, Committing(db, scope), |rows| + 1, updated, after.events[scope][|rows|])
    && (forall x :: x in db.events && x != scope ==> x in after.events && after.events[x] == db.events[x])
    && after.budgets.Keys == db.budgets.Keys && key in db.budgets
    && (forall k :: k in db.budgets && k != key ==> after.budgets[k] == db.budgets[k])
    && after.budgets[key].limits == db.budgets[key].limits
    && MovesBy(db.budgets[key].used, after.budgets[key].used,
               if scope in db.sessions then db.sessions[scope].document.state.budget else NO_SPEND,
               updated.state.budget)
  }

  lemma KindNamed(h: Digests, current: Option<Session>, t: Session, kind: Transition)
    requires ValidateExtension(h, current, t) == Ok(kind) && current != Some(t)
    ensures kind == if t.attempts == [] then Created
                    else if t.attempts[|t.attempts| - 1].completion.None? then ReservedCall
                    else CompletedCall
  {
    ExtensionShape(h, current, t);
  }

  lemma SequenceIs(h: Digests, db: Tables, scope: Scope)
    requires Consistent(h, db)
    ensures (if scope in db.sessions then db.sessions[scope].sequence + 1 else 1)
         == (if scope in db.events then |db.events[scope]| else 0) + 1
  {
    ConsistentRow(h, db, scope);
  }

  /** On a consistent store a committed swap writes exactly that, and any other reply writes nothing. */
  lemma SwapWrites(h: Digests, db: Tables, grant: Grant, scope: Scope, expected: Option<Digest>,
                   updated: Session, parentId: Identifier, now: Moment)
    requires Consistent(h, db)
    ensures var (after, reply) := Commit(h, db, grant, scope, expected, updated, parentId, now);
            if reply == Committed then WritesSwap(h, db, after, grant, scope, updated, parentId) else after == db
  {
    var ruling := Decide(h, db, grant, scope, expected, updated, parentId, now);
    if ruling.Admit? {
      AdmittedCommit(h, db, grant, scope, expected, updated, parentId, now);
      KindNamed(h, CurrentOf(db, scope), updated, ruling.kind);
      SequenceIs(h, db, scope);
      WrittenIs(h, db, grant, scope, updated, parentId, ruling.kind, ruling.counters);
    }
    EnactIs(h, db, grant, scope, updated, parentId, ruling);
  }

  lemma EnactIs(h: Digests, db: Tables, grant: Grant, scope: Scope, updated: Session, parentId: Identifier,
                ruling: Ruling)
    requires ruling.Admit? ==> BudgetKey(scope.tenant, parentId) in db.budgets
    ensures var (after, reply) := Enact(h, db, grant, scope, updated, parentId, ruling);
            && (reply == Committed <==> ruling.Admit?)
            && after == if ruling.Admit?
                        then Written(h, db, grant, scope, updated, parentId, ruling.kind, ruling.counters) else db
  {
  }

  lemma WrittenIs(h: Digests, db: Tables, grant: Grant, scope: Scope, updated: Session, parentId: Identifier,
                  kind: Transition, counters: Budget)
    requires BudgetKey(scope.tenant, parentId) in db.budgets
    requires Moved(db.budgets[BudgetKey(scope.tenant, parentId)].used, BudgetOf(CurrentOf(db, scope)),
                   updated.state.budget) == Some(counters)
    requires kind == if updated.attempts == [] then Created
                     else if updated.attempts[|updated.attempts| - 1].completion.None? then ReservedCall
                     else CompletedCall
    requires (if scope in db.sessions then db.sessions[scope].sequence + 1 else 1)
          == (if scope in db.events then |db.events[scope]| else 0) + 1
    ensures WritesSwap(h, db, Written(h, db, grant, scope, updated, parentId, kind, counters), grant, scope, updated,
                       parentId)
  {
  }

  /** What a swap answers, and what it writes. */
  ghost predicate SwapPromise(h: Digests, db: Tables, grant: Grant, scope: Scope, expected: Option<Digest>,
                              updated: Session, parentId: Identifier, now: Moment, after: Tables, reply: Reply)
  {
    && (reply == Committed <==>
          && Presented(h, db, grant, scope, updated, parentId) && Expected(h, db, scope, expected, updated)
          && Swaps(h, db, scope, updated, parentId, now))
    && (reply == Refused <==>
          Presented(h, db, grant, scope, updated, parentId) && !Expected(h, db, scope, expected, updated))
    && (if reply == Committed then WritesSwap(h, db, after, grant, scope, updated, parentId) else after == db)
  }

  lemma SwapPromised(h: Digests, db: Tables, grant: Grant, scope: Scope, expected: Option<Digest>,
                     updated: Session, parentId: Identifier, now: Moment)
    requires Consistent(h, db)
    ensures var (after, reply) := Commit(h, db, grant, scope, expected, updated, parentId, now);
            SwapPromise(h, db, grant, scope, expected, updated, parentId, now, after, reply)
  {
    SwapIff(h, db, grant, scope, expected, updated, parentId, now);
    SwapWrites(h, db, grant, scope, expected, updated, parentId, now);
  }

  // Provisioning, registration and loading.

  /** A work item gets one parent, under an identifier not in use; the same parent again changes nothing. */
  lemma ProvisionIff(db: Tables, parent: ParentBudget)
    ensures var (after, reply) := Provision(db, parent);
            var key := BudgetKey(parent.tenant, parent.id);
            && (reply == Committed <==>
                  key !in db.budgets
                  && forall k :: k in db.budgets ==>
                       k.tenant != parent.tenant || db.budgets[k].limits.workItem != parent.workItem)
            && (reply == Refused <==>
                  && (exists k :: k in db.budgets && k.tenant == parent.tenant
                               && db.budgets[k].limits.workItem == parent.workItem)
                  && forall k :: (k in db.budgets && k.tenant == parent.tenant
                                  && db.budgets[k].limits.workItem == parent.workItem)
                                 ==> db.budgets[k].limits == parent)
            && after == (if reply != Committed then db
                         else db.(budgets := db.budgets[key := BudgetRow(parent, Budget(0, 0, 0, 0, 0, 0))]))
  {
    forall k ensures HasWorkItem(db, parent.tenant, parent.workItem, k)
                     <==> k in db.budgets && k.tenant == parent.tenant
                          && db.budgets[k].limits.workItem == parent.workItem
    {
    }
  }

  /** An admissible seed is registered once, under the parent of its work item; the same registration
      again changes nothing, any other is denied. */
  lemma RegisterIff(h: Digests, db: Tables, seed: Seed, parentId: Identifier)
    ensures var (after, reply) := Register(h, db, seed, parentId);
            var key := BudgetKey(seed.scope.tenant, parentId);
            var allowed := Admissible(h, seed) && key in db.budgets
                           && db.budgets[key].limits.workItem == seed.scope.workItem;
            && (reply == Committed <==> allowed && seed.scope !in db.registrations)
            && (reply == Refused <==>
                  allowed && seed.scope in db.registrations
                  && db.registrations[seed.scope] == Registration(parentId, h.seed(seed)))
            && after == (if reply != Committed then db
                         else
                           var row := Registration(parentId, h.seed(seed));
                           db.(registrations := db.registrations[seed.scope := row]))
  {
    StartIff(h, seed);
  }
}
