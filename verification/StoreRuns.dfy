/** What every transaction keeps, over every interleaving of any number of sessions. */
module StoreRuns {
  import opened Basics
  import opened Domain
  import opened Rules
  import opened Reducer
  import opened Ledger
  import opened Invariants
  import opened Runs
  import opened Accounting
  import opened Extension
  import opened Store

  // Sums over the sessions of one parent.

  function Add(a: Budget, b: Budget): Budget {
    Budget(a.invocations + b.invocations, a.repairs + b.repairs, a.tokensSpent + b.tokensSpent,
           a.costSpent + b.costSpent, a.tokensReserved + b.tokensReserved, a.costReserved + b.costReserved)
  }

  /** A session's share of its parent: its counters and its overrun of its own holds. */
  datatype Share = Share(budget: Budget, excess: Usage)

  const NOTHING: Share := Share(NO_SPEND, Usage(0, 0))

  function Join(a: Share, b: Share): Share {
    Share(Add(a.budget, b.budget), Plus(a.excess, b.excess))
  }

  ghost function Sum(m: map<Scope, Share>): Share {
    if m == map[] then NOTHING
    else
      var k :| k in m;
      Join(m[k], Sum(m - {k}))
  }

  lemma JoinSwap(a: Share, b: Share, c: Share)
    ensures Join(a, Join(b, c)) == Join(b, Join(a, c))
  {
  }

  lemma {:induction false} SumRemove(m: map<Scope, Share>, k: Scope)
    requires k in m
    ensures Sum(m) == Join(m[k], Sum(m - {k}))
    decreases m
  {
    var x :| x in m && Sum(m) == Join(m[x], Sum(m - {x}));
    if x != k {
      var rest := m - {x} - {k};
      SumRemove(m - {x}, k);
      SumRemove(m - {k}, x);
      assert m - {k} - {x} == rest;
      JoinSwap(m[x], m[k], Sum(rest));
    }
  }

  function At(m: map<Scope, Share>, k: Scope): Share {
    if k in m then m[k] else NOTHING
  }

  lemma JoinNothing(a: Share)
    ensures Join(NOTHING, a) == a
  {
  }

  lemma SumSplit(m: map<Scope, Share>, k: Scope)
    ensures Sum(m) == Join(At(m, k), Sum(m - {k}))
  {
    if k in m {
      SumRemove(m, k);
    } else {
      assert m - {k} == m;
      JoinNothing(Sum(m));
    }
  }

  lemma SumUpdate(m: map<Scope, Share>, k: Scope, v: Share)
    ensures Sum(m[k := v]) == Join(v, Sum(m - {k}))
  {
    SumRemove(m[k := v], k);
    assert m[k := v] - {k} == m - {k};
  }

  function ShareOf(h: Digests, s: Session): Share {
    Share(s.state.budget, Excess(h, s.attempts))
  }

  /** The sessions registered under a parent, with their shares. */
  function Children(h: Digests, db: Tables, key: BudgetKey): map<Scope, Share> {
    map scope | scope in db.sessions && scope in db.registrations
                && key == BudgetKey(scope.tenant, db.registrations[scope].budgetId)
      :: ShareOf(h, db.sessions[scope].document)
  }

  // The invariant.

  predicate Rooted(db: Tables) {
    && db.sessions.Keys == db.events.Keys
    && db.sessions.Keys <= db.registrations.Keys
    && (forall scope :: scope in db.registrations ==>
          HasWorkItem(db, scope.tenant, scope.workItem, BudgetKey(scope.tenant, db.registrations[scope].budgetId)))
  }

  /** The audit chain of a scope reads back without denial and ends in the snapshot. */
  predicate Audited(h: Digests, row: SessionRow, rows: seq<EventRow>) {
    && rows != []
    && HistoryOf(h, rows) == Some(Documents(rows))
    && row.document == rows[|rows| - 1].document
    && row.digest == h.session(row.document) == rows[|rows| - 1].after
    && row.sequence == |rows| == rows[|rows| - 1].sequence
    && ValidSession(h, row.document)
  }

  predicate Enrolled(h: Digests, s: Session, scope: Scope, r: Registration) {
    s.seed.scope == scope && h.seed(s.seed) == r.seedDigest && h.bytes(s) <= MAX_SESSION_BYTES
  }

  predicate AllAudited(h: Digests, db: Tables) {
    forall scope :: scope in db.sessions ==>
      scope in db.events && Audited(h, db.sessions[scope], db.events[scope])
  }

  predicate AllEnrolled(h: Digests, db: Tables) {
    forall scope :: scope in db.sessions ==>
      scope in db.registrations && Enrolled(h, db.sessions[scope].document, scope, db.registrations[scope])
  }

  /** Each counter is the sum over the children; caps hold up to the children's own overruns. */
  ghost predicate Balanced(limits: ParentBudget, used: Budget, total: Share) {
    && used == total.budget
    && used.invocations <= limits.maxInvocations
    && used.repairs <= limits.maxRepairs
    && used.tokensSpent + used.tokensReserved <= limits.maxTokens + total.excess.tokens
    && used.costSpent + used.costReserved <= limits.maxCost + total.excess.cost
  }

  ghost predicate AllBalanced(h: Digests, db: Tables) {
    forall key :: key in db.budgets ==>
      Balanced(db.budgets[key].limits, db.budgets[key].used, Sum(Children(h, db, key)))
  }

  ghost predicate Consistent(h: Digests, db: Tables) {
    Rooted(db) && AllAudited(h, db) && AllEnrolled(h, db) && AllBalanced(h, db)
  }

  lemma ConsistentRow(h: Digests, db: Tables, scope: Scope)
    requires Consistent(h, db)
    ensures scope in db.sessions ==>
              && scope in db.events && Audited(h, db.sessions[scope], db.events[scope])
              && scope in db.registrations && Enrolled(h, db.sessions[scope].document, scope, db.registrations[scope])
    ensures scope !in db.sessions ==> EventsOf(db, scope) == []
  {
  }

  // How one accepted transition moves a session's share.

  lemma CreateShare(h: Digests, t: Session)
    requires ValidateExtension(h, None, t) == Ok(Created)
    ensures ShareOf(h, t) == NOTHING
  {
  }

  lemma ExtensionBudgets(h: Digests, s: Session, t: Session)
    requires ValidSession(h, s) && ValidSession(h, t)
    ensures CountersKept(h, s.attempts, s.state) && CountersKept(h, t.attempts, t.state)
    ensures ShapeKept(s.attempts, s.state) && ShapeKept(t.attempts, t.state)
  {
    LedgerAccounted(h, s.seed, s.attempts);
    LedgerAccounted(h, t.seed, t.attempts);
  }

  lemma ReserveShare(h: Digests, s: Session, t: Session)
    requires ValidateExtension(h, Some(s), t) == Ok(ReservedCall)
    ensures Excess(h, t.attempts) == Excess(h, s.attempts)
    ensures t.attempts != [] && t.state.pending == Some(t.attempts[|t.attempts| - 1].invocation)
  {
    ExtensionShape(h, Some(s), t);
    ExtensionBudgets(h, s, t);
    ReserveExcess(h, s.attempts, t.attempts);
  }

  lemma ReserveExcess(h: Digests, before: seq<Attempt>, after: seq<Attempt>)
    requires |after| == |before| + 1 && after[..|before|] == before && after[|before|].completion.None?
    ensures Excess(h, after) == Excess(h, before)
  {
  }

  lemma CompleteCounts(h: Digests, s: Session, t: Session)
    requires |t.attempts| == |s.attempts| > 0
    requires var n := |s.attempts| - 1;
             && t.attempts[..n] == s.attempts[..n] && t.attempts[n].invocation == s.attempts[n].invocation
             && s.attempts[n].completion.None? && t.attempts[n].completion.Some?
    requires CountersKept(h, s.attempts, s.state) && CountersKept(h, t.attempts, t.state)
    ensures var b, c := s.state.budget, t.state.budget;
            var x, y := Excess(h, s.attempts), Excess(h, t.attempts);
            && c.invocations == b.invocations && c.repairs == b.repairs
            && x.tokens <= y.tokens && x.cost <= y.cost
            && c.tokensSpent + c.tokensReserved + x.tokens <= b.tokensSpent + b.tokensReserved + y.tokens
            && c.costSpent + c.costReserved + x.cost <= b.costSpent + b.costReserved + y.cost
  {
  }

  lemma CompleteShare(h: Digests, s: Session, t: Session)
    requires ValidateExtension(h, Some(s), t) == Ok(CompletedCall)
    ensures var b, c := s.state.budget, t.state.budget;
            var x, y := Excess(h, s.attempts), Excess(h, t.attempts);
            && c.invocations == b.invocations && c.repairs == b.repairs
            && x.tokens <= y.tokens && x.cost <= y.cost
            && c.tokensSpent + c.tokensReserved + x.tokens <= b.tokensSpent + b.tokensReserved + y.tokens
            && c.costSpent + c.costReserved + x.cost <= b.costSpent + b.costReserved + y.cost
  {
    ExtensionShape(h, Some(s), t);
    ExtensionBudgets(h, s, t);
    CompleteCounts(h, s, t);
  }

  // Provisioning and registration.

  lemma ChildrenRooted(h: Digests, db: Tables, key: BudgetKey)
    requires Rooted(db) && key !in db.budgets
    ensures Children(h, db, key) == map[]
  {
    assert forall scope :: scope in db.registrations ==>
             BudgetKey(scope.tenant, db.registrations[scope].budgetId) in db.budgets;
  }

  lemma ProvisionConsistent(h: Digests, db: Tables, parent: ParentBudget)
    requires Consistent(h, db)
    ensures Consistent(h, Provision(db, parent).0)
  {
    var key := BudgetKey(parent.tenant, parent.id);
    if Provision(db, parent).0 != db {
      ProvisionedConsistent(h, db, key, parent);
    }
  }

  lemma ProvisionedConsistent(h: Digests, db: Tables, key: BudgetKey, parent: ParentBudget)
    requires Consistent(h, db) && key !in db.budgets
    ensures Consistent(h, db.(budgets := db.budgets[key := BudgetRow(parent, NO_SPEND)]))
  {
    ProvisionedRooted(db, key, BudgetRow(parent, NO_SPEND));
    ProvisionedKept(h, db, key, BudgetRow(parent, NO_SPEND));
    ProvisionedBalanced(h, db, key, parent);
  }

  lemma ProvisionedKept(h: Digests, db: Tables, key: BudgetKey, row: BudgetRow)
    requires AllAudited(h, db) && AllEnrolled(h, db)
    ensures AllAudited(h, db.(budgets := db.budgets[key := row]))
    ensures AllEnrolled(h, db.(budgets := db.budgets[key := row]))
  {
  }

  lemma ProvisionedRooted(db: Tables, key: BudgetKey, row: BudgetRow)
    requires Rooted(db) && key !in db.budgets
    ensures Rooted(db.(budgets := db.budgets[key := row]))
  {
    var after := db.(budgets := db.budgets[key := row]);
    forall x | x in after.registrations
      ensures HasWorkItem(after, x.tenant, x.workItem, BudgetKey(x.tenant, after.registrations[x].budgetId))
    {
      assert HasWorkItem(db, x.tenant, x.workItem, BudgetKey(x.tenant, db.registrations[x].budgetId));
    }
  }

  lemma ProvisionedBalanced(h: Digests, db: Tables, key: BudgetKey, parent: ParentBudget)
    requires Rooted(db) && AllBalanced(h, db) && key !in db.budgets
    ensures AllBalanced(h, db.(budgets := db.budgets[key := BudgetRow(parent, NO_SPEND)]))
  {
    var after := db.(budgets := db.budgets[key := BudgetRow(parent, NO_SPEND)]);
    ChildrenRooted(h, db, key);
    forall k | k in after.budgets
      ensures Balanced(after.budgets[k].limits, after.budgets[k].used, Sum(Children(h, after, k)))
    {
      assert Children(h, after, k) == Children(h, db, k);
      if k == key {
        assert Sum(Children(h, after, k)) == NOTHING;
      }
    }
  }

  lemma RegisterConsistent(h: Digests, db: Tables, seed: Seed, parentId: Identifier)
    requires Consistent(h, db)
    ensures Consistent(h, Register(h, db, seed, parentId).0)
  {
    if Register(h, db, seed, parentId).1 == Committed {
      RegisteredConsistent(h, db, seed.scope, Registration(parentId, h.seed(seed)));
    }
  }

  lemma RegisteredConsistent(h: Digests, db: Tables, scope: Scope, r: Registration)
    requires Consistent(h, db) && scope !in db.registrations
    requires HasWorkItem(db, scope.tenant, scope.workItem, BudgetKey(scope.tenant, r.budgetId))
    ensures Consistent(h, db.(registrations := db.registrations[scope := r]))
  {
    RegisteredRooted(db, scope, r);
    RegisteredKept(h, db, scope, r);
    RegisteredBalanced(h, db, scope, r);
  }

  lemma RegisteredKept(h: Digests, db: Tables, scope: Scope, r: Registration)
    requires AllAudited(h, db) && AllEnrolled(h, db) && scope !in db.registrations
    ensures AllAudited(h, db.(registrations := db.registrations[scope := r]))
    ensures AllEnrolled(h, db.(registrations := db.registrations[scope := r]))
  {
  }

  lemma RegisteredRooted(db: Tables, scope: Scope, r: Registration)
    requires Rooted(db) && scope !in db.registrations
    requires HasWorkItem(db, scope.tenant, scope.workItem, BudgetKey(scope.tenant, r.budgetId))
    ensures Rooted(db.(registrations := db.registrations[scope := r]))
  {
    var after := db.(registrations := db.registrations[scope := r]);
    forall x | x in after.registrations
      ensures HasWorkItem(after, x.tenant, x.workItem, BudgetKey(x.tenant, after.registrations[x].budgetId))
    {
      if x != scope {
        assert HasWorkItem(db, x.tenant, x.workItem, BudgetKey(x.tenant, db.registrations[x].budgetId));
      }
    }
  }

  lemma RegisteredBalanced(h: Digests, db: Tables, scope: Scope, r: Registration)
    requires AllBalanced(h, db) && scope !in db.sessions
    ensures AllBalanced(h, db.(registrations := db.registrations[scope := r]))
  {
    var after := db.(registrations := db.registrations[scope := r]);
    forall k | k in after.budgets
      ensures Balanced(after.budgets[k].limits, after.budgets[k].used, Sum(Children(h, after, k)))
    {
      assert Children(h, after, k) == Children(h, db, k);
    }
  }

  // Accepted transitions.

  lemma DocumentsSnoc(rows: seq<EventRow>, row: EventRow)
    ensures Documents(rows + [row]) == Documents(rows) + [row.document]
  {
  }

  lemma HistorySnoc(h: Digests, rows: seq<EventRow>, row: EventRow)
    requires HistoryOf(h, rows) == Some(Documents(rows))
    requires RowFollows(h, Last(Documents(rows)), |rows| + 1, row)
    ensures HistoryOf(h, rows + [row]) == Some(Documents(rows + [row]))
  {
    assert (rows + [row])[..|rows|] == rows;
    DocumentsSnoc(rows, row);
  }

  /** The new event continues the chain of the scope. */
  lemma EventFollows(h: Digests, db: Tables, grant: Grant, scope: Scope, updated: Session, kind: Transition)
    requires AllAudited(h, db) && db.sessions.Keys == db.events.Keys
    requires ValidSession(h, updated) && ValidateExtension(h, CurrentOf(db, scope), updated) == Ok(kind)
    ensures var rows, event := EventsOf(db, scope), NextEvent(h, db, grant, scope, updated, kind);
            Audited(h, SessionRow(updated, h.session(updated), event.sequence), rows + [event])
  {
    var rows, event := EventsOf(db, scope), NextEvent(h, db, grant, scope, updated, kind);
    if scope in db.sessions {
      assert Audited(h, db.sessions[scope], rows);
    }
    assert Last(Documents(rows)) == CurrentOf(db, scope);
    HistorySnoc(h, rows, event);
  }

  /** Replacing one child's share moves the total exactly as the parent's counters move. */
  lemma TotalMoves(children: map<Scope, Share>, scope: Scope, used: Budget, from: Share, to: Share)
    requires used == Sum(children).budget && from == At(children, scope)
    ensures Moved(used, from.budget, to.budget) == Some(Sum(children[scope := to]).budget)
    ensures Plus(Sum(children[scope := to]).excess, from.excess) == Plus(Sum(children).excess, to.excess)
  {
    SumSplit(children, scope);
    SumUpdate(children, scope, to);
    MovedJoin(Sum(children - {scope}), from, to);
  }

  lemma MovedJoin(rest: Share, from: Share, to: Share)
    ensures Moved(Join(from, rest).budget, from.budget, to.budget) == Some(Join(to, rest).budget)
    ensures Plus(Join(to, rest).excess, from.excess) == Plus(Join(from, rest).excess, to.excess)
  {
  }

  /** The share of the scope's current session, as its parent's children record it. */
  lemma ChildShare(h: Digests, db: Tables, scope: Scope, parentId: Identifier)
    requires scope in db.registrations && db.registrations[scope].budgetId == parentId
    ensures var children, current := Children(h, db, BudgetKey(scope.tenant, parentId)), CurrentOf(db, scope);
            At(children, scope) == if current.None? then NOTHING else ShareOf(h, current.value)
  {
  }

  /** An underflow is never reported: the parent's counters include the child's. */
  lemma NoUnderflow(h: Digests, db: Tables, scope: Scope, parentId: Identifier, updated: Session)
    requires Rooted(db) && AllBalanced(h, db)
    requires scope in db.registrations && db.registrations[scope].budgetId == parentId
    ensures var key := BudgetKey(scope.tenant, parentId);
            && key in db.budgets
            && Moved(db.budgets[key].used, BudgetOf(CurrentOf(db, scope)), updated.state.budget).Some?
  {
    var key, current := BudgetKey(scope.tenant, parentId), CurrentOf(db, scope);
    assert HasWorkItem(db, scope.tenant, scope.workItem, key);
    ChildShare(h, db, scope, parentId);
    TotalMoves(Children(h, db, key), scope, db.budgets[key].used,
               if current.None? then NOTHING else ShareOf(h, current.value), ShareOf(h, updated));
  }

  lemma BalanceMoves(h: Digests, limits: ParentBudget, used: Budget, total: Share, current: Option<Session>,
                     updated: Session, kind: Transition, counters: Budget, after: Share, now: Moment)
    requires Balanced(limits, used, total)
    requires ValidateExtension(h, current, updated) == Ok(kind)
    requires current != Some(updated)
    requires Moved(used, BudgetOf(current), updated.state.budget) == Some(counters)
    requires kind == ReservedCall ==> ParentAdmits(limits, counters, updated, now)
    requires counters == after.budget
    requires var x := if current.None? then Usage(0, 0) else Excess(h, current.value.attempts);
             Plus(after.excess, x) == Plus(total.excess, Excess(h, updated.attempts))
    ensures Balanced(limits, counters, after)
  {
    match kind {
      case Created => CreateShare(h, updated);
      case ReservedCall => ReserveShare(h, current.value, updated);
      case CompletedCall => CompleteShare(h, current.value, updated);
      case Unchanged =>
    }
  }

  lemma ChildrenWritten(h: Digests, db: Tables, grant: Grant, scope: Scope, updated: Session, parentId: Identifier,
                        kind: Transition, counters: Budget, k: BudgetKey)
    requires BudgetKey(scope.tenant, parentId) in db.budgets
    requires scope in db.registrations && db.registrations[scope].budgetId == parentId
    ensures var after := Written(h, db, grant, scope, updated, parentId, kind, counters);
            Children(h, after, k) == if k == BudgetKey(scope.tenant, parentId)
                                     then Children(h, db, k)[scope := ShareOf(h, updated)] else Children(h, db, k)
  {
  }

  lemma ParentBalanced(h: Digests, children: map<Scope, Share>, scope: Scope, limits: ParentBudget, used: Budget,
                       current: Option<Session>, updated: Session, kind: Transition, counters: Budget, now: Moment)
    requires Balanced(limits, used, Sum(children))
    requires At(children, scope) == if current.None? then NOTHING else ShareOf(h, current.value)
    requires ValidateExtension(h, current, updated) == Ok(kind) && current != Some(updated)
    requires Moved(used, BudgetOf(current), updated.state.budget) == Some(counters)
    requires kind == ReservedCall ==> ParentAdmits(limits, counters, updated, now)
    ensures Balanced(limits, counters, Sum(children[scope := ShareOf(h, updated)]))
  {
    var from := if current.None? then NOTHING else ShareOf(h, current.value);
    TotalMoves(children, scope, used, from, ShareOf(h, updated));
    BalanceMoves(h, limits, used, Sum(children), current, updated, kind, counters,
                 Sum(children[scope := ShareOf(h, updated)]), now);
  }

  lemma WrittenBalanced(h: Digests, db: Tables, grant: Grant, scope: Scope, updated: Session, parentId: Identifier,
                        kind: Transition, counters: Budget, now: Moment)
    requires AllBalanced(h, db) && BudgetKey(scope.tenant, parentId) in db.budgets
    requires scope in db.registrations && db.registrations[scope].budgetId == parentId
    requires ValidateExtension(h, CurrentOf(db, scope), updated) == Ok(kind) && CurrentOf(db, scope) != Some(updated)
    requires var parent := db.budgets[BudgetKey(scope.tenant, parentId)];
             && Moved(parent.used, BudgetOf(CurrentOf(db, scope)), updated.state.budget) == Some(counters)
             && (kind == ReservedCall ==> ParentAdmits(parent.limits, counters, updated, now))
    ensures AllBalanced(h, Written(h, db, grant, scope, updated, parentId, kind, counters))
  {
    var after := Written(h, db, grant, scope, updated, parentId, kind, counters);
    var key := BudgetKey(scope.tenant, parentId);
    ChildShare(h, db, scope, parentId);
    ParentBalanced(h, Children(h, db, key), scope, db.budgets[key].limits, db.budgets[key].used,
                   CurrentOf(db, scope), updated, kind, counters, now);
    forall k | k in after.budgets
      ensures Balanced(after.budgets[k].limits, after.budgets[k].used, Sum(Children(h, after, k)))
    {
      ChildrenWritten(h, db, grant, scope, updated, parentId, kind, counters, k);
    }
  }

  lemma WrittenRooted(h: Digests, db: Tables, grant: Grant, scope: Scope, updated: Session, parentId: Identifier,
                      kind: Transition, counters: Budget)
    requires Rooted(db) && BudgetKey(scope.tenant, parentId) in db.budgets && scope in db.registrations
    ensures Rooted(Written(h, db, grant, scope, updated, parentId, kind, counters))
  {
    var after := Written(h, db, grant, scope, updated, parentId, kind, counters);
    forall x | x in after.registrations
      ensures HasWorkItem(after, x.tenant, x.workItem, BudgetKey(x.tenant, after.registrations[x].budgetId))
    {
      assert HasWorkItem(db, x.tenant, x.workItem, BudgetKey(x.tenant, db.registrations[x].budgetId));
    }
  }

  lemma WrittenAudited(h: Digests, db: Tables, grant: Grant, scope: Scope, updated: Session, parentId: Identifier,
                       kind: Transition, counters: Budget)
    requires AllAudited(h, db) && db.sessions.Keys == db.events.Keys
    requires BudgetKey(scope.tenant, parentId) in db.budgets
    requires ValidSession(h, updated) && ValidateExtension(h, CurrentOf(db, scope), updated) == Ok(kind)
    ensures AllAudited(h, Written(h, db, grant, scope, updated, parentId, kind, counters))
  {
    EventFollows(h, db, grant, scope, updated, kind);
  }

  lemma WrittenEnrolled(h: Digests, db: Tables, grant: Grant, scope: Scope, updated: Session, parentId: Identifier,
                        kind: Transition, counters: Budget)
    requires AllEnrolled(h, db) && BudgetKey(scope.tenant, parentId) in db.budgets
    requires scope in db.registrations && Enrolled(h, updated, scope, db.registrations[scope])
    ensures AllEnrolled(h, Written(h, db, grant, scope, updated, parentId, kind, counters))
  {
  }

  lemma CommitConsistent(h: Digests, db: Tables, grant: Grant, scope: Scope, expected: Option<Digest>,
                         updated: Session, parentId: Identifier, now: Moment)
    requires Consistent(h, db)
    ensures Consistent(h, Commit(h, db, grant, scope, expected, updated, parentId, now).0)
  {
    var ruling := Decide(h, db, grant, scope, expected, updated, parentId, now);
    if ruling.Admit? {
      AdmittedCommit(h, db, grant, scope, expected, updated, parentId, now);
    }
    EnactConsistent(h, db, grant, scope, updated, parentId, ruling, now);
  }

  lemma EnactConsistent(h: Digests, db: Tables, grant: Grant, scope: Scope, updated: Session,
                        parentId: Identifier, ruling: Ruling, now: Moment)
    requires Consistent(h, db)
    requires ruling.Admit? ==> Passed(h, db, scope, updated, parentId, ruling.kind, ruling.counters, now)
    ensures Consistent(h, Enact(h, db, grant, scope, updated, parentId, ruling).0)
  {
    if ruling.Admit? {
      WrittenConsistent(h, db, grant, scope, updated, parentId, ruling.kind, ruling.counters, now);
    }
  }

  /** What an admitted swap has passed. */
  predicate Passed(h: Digests, db: Tables, scope: Scope, updated: Session, parentId: Identifier, kind: Transition,
                   counters: Budget, now: Moment)
  {
    && BudgetKey(scope.tenant, parentId) in db.budgets
    && scope in db.registrations && db.registrations[scope].budgetId == parentId
    && Enrolled(h, updated, scope, db.registrations[scope])
    && ValidSession(h, updated)
    && ValidateExtension(h, CurrentOf(db, scope), updated) == Ok(kind) && CurrentOf(db, scope) != Some(updated)
    && var parent := db.budgets[BudgetKey(scope.tenant, parentId)];
       && Moved(parent.used, BudgetOf(CurrentOf(db, scope)), updated.state.budget) == Some(counters)
       && (kind == ReservedCall ==> ParentAdmits(parent.limits, counters, updated, now))
  }

  lemma AdmittedCommit(h: Digests, db: Tables, grant: Grant, scope: Scope, expected: Option<Digest>,
                       updated: Session, parentId: Identifier, now: Moment)
    requires Decide(h, db, grant, scope, expected, updated, parentId, now).Admit?
    ensures var ruling := Decide(h, db, grant, scope, expected, updated, parentId, now);
            Passed(h, db, scope, updated, parentId, ruling.kind, ruling.counters, now)
  {
  }

  lemma WrittenConsistent(h: Digests, db: Tables, grant: Grant, scope: Scope, updated: Session,
                          parentId: Identifier, kind: Transition, counters: Budget, now: Moment)
    requires Consistent(h, db) && Passed(h, db, scope, updated, parentId, kind, counters, now)
    ensures Consistent(h, Written(h, db, grant, scope, updated, parentId, kind, counters))
  {
    WrittenBalanced(h, db, grant, scope, updated, parentId, kind, counters, now);
    WrittenRooted(h, db, grant, scope, updated, parentId, kind, counters);
    WrittenEnrolled(h, db, grant, scope, updated, parentId, kind, counters);
    WrittenAudited(h, db, grant, scope, updated, parentId, kind, counters);
  }

  // Whole runs.

  datatype Request =
    | ProvisionRequest(parent: ParentBudget)
    | RegisterRequest(seed: Seed, parentId: Identifier)
    | CommitRequest(grant: Grant, scope: Scope, expected: Option<Digest>, updated: Session,
                    parentId: Identifier, now: Moment)

  function Execute(h: Digests, db: Tables, r: Request): (Tables, Reply) {
    match r
    case ProvisionRequest(parent) => Provision(db, parent)
    case RegisterRequest(seed, parentId) => Register(h, db, seed, parentId)
    case CommitRequest(grant, scope, expected, updated, parentId, now) =>
      Commit(h, db, grant, scope, expected, updated, parentId, now)
  }

  function Run(h: Digests, requests: seq<Request>): Tables {
    if requests == [] then EMPTY
    else Execute(h, Run(h, requests[..|requests| - 1]), requests[|requests| - 1]).0
  }

  /** In every run of any number of clients over any number of sessions: the parent counters are
      the sums over their sessions, invocations and repairs stay within the caps, tokens and cost
      exceed theirs by no more than the sessions overran their own holds, and every audit chain
      reads back to the committed states. */
  lemma {:induction false} EveryRunConsistent(h: Digests, requests: seq<Request>)
    ensures Consistent(h, Run(h, requests))
  {
    if requests != [] {
      var db := Run(h, requests[..|requests| - 1]);
      EveryRunConsistent(h, requests[..|requests| - 1]);
      match requests[|requests| - 1] {
        case ProvisionRequest(parent) => ProvisionConsistent(h, db, parent);
        case RegisterRequest(seed, parentId) => RegisterConsistent(h, db, seed, parentId);
        case CommitRequest(grant, scope, expected, updated, parentId, now) =>
          CommitConsistent(h, db, grant, scope, expected, updated, parentId, now);
      }
    }
  }

  predicate Appends(before: Tables, after: Tables) {
    forall scope :: scope in before.events ==>
      scope in after.events && before.events[scope] <= after.events[scope]
  }

  lemma ExecuteAppends(h: Digests, db: Tables, r: Request)
    ensures Appends(db, Execute(h, db, r).0)
  {
  }

  /** Audit chains only ever grow at the end, so no unit is reset. */
  lemma {:induction false} RunAppends(h: Digests, requests: seq<Request>, k: nat)
    requires k <= |requests|
    ensures Appends(Run(h, requests[..k]), Run(h, requests))
  {
    if k == |requests| {
      assert requests[..k] == requests;
    } else {
      var before := requests[..|requests| - 1];
      RunAppends(h, before, k);
      assert before[..k] == requests[..k];
      ExecuteAppends(h, Run(h, before), requests[|requests| - 1]);
    }
  }

  /** The session recorded just before position `i`. */
  function PreviousOf(rows: seq<EventRow>, i: nat): Option<Session>
    requires i < |rows|
  {
    if i == 0 then None else Some(rows[i - 1].document)
  }

  lemma ReadInit(h: Digests, rows: seq<EventRow>)
    requires rows != [] && HistoryOf(h, rows).Some?
    ensures var before, row := HistoryOf(h, rows[..|rows| - 1]), rows[|rows| - 1];
            && before.Some? && HistoryOf(h, rows).value == before.value + [row.document]
            && RowFollows(h, Last(before.value), |rows|, row)
  {
  }

  lemma DocumentsInit(rows: seq<EventRow>, read: seq<Session>)
    requires rows != [] && Documents(rows) == read + [rows[|rows| - 1].document]
    ensures read == Documents(rows[..|rows| - 1]) && Last(read) == PreviousOf(rows, |rows| - 1)
  {
    assert read == Documents(rows)[..|rows| - 1];
  }

  lemma HistoryInit(h: Digests, rows: seq<EventRow>)
    requires rows != [] && HistoryOf(h, rows) == Some(Documents(rows))
    ensures HistoryOf(h, rows[..|rows| - 1]) == Some(Documents(rows[..|rows| - 1]))
    ensures RowFollows(h, PreviousOf(rows, |rows| - 1), |rows|, rows[|rows| - 1])
  {
    var before := rows[..|rows| - 1];
    ReadInit(h, rows);
    DocumentsInit(rows, HistoryOf(h, before).value);
  }

  /** What a readable chain is: numbered from 1, each row naming the digests of the state before and
      after it and the one kind of step that leads there. */
  lemma {:induction false} ChainFacts(h: Digests, rows: seq<EventRow>, i: nat)
    requires HistoryOf(h, rows) == Some(Documents(rows)) && i < |rows|
    ensures RowFollows(h, PreviousOf(rows, i), i + 1, rows[i])
  {
    var before := rows[..|rows| - 1];
    HistoryInit(h, rows);
    if i < |before| {
      ChainFacts(h, before, i);
      assert PreviousOf(before, i) == PreviousOf(rows, i) && before[i] == rows[i];
    } else {
      assert i == |rows| - 1;
    }
  }

  /** Creation with no expected digest succeeds only where nothing exists; elsewhere it changes nothing. */
  lemma NeverReset(h: Digests, db: Tables, grant: Grant, scope: Scope, updated: Session, parentId: Identifier,
                   now: Moment)
    requires scope in db.sessions
    ensures Commit(h, db, grant, scope, None, updated, parentId, now).0 == db
    ensures Commit(h, db, grant, scope, None, updated, parentId, now).1 != Committed
  {
  }

  // The history of a scope, read off the run itself.

  predicate Commits(h: Digests, db: Tables, r: Request, scope: Scope) {
    r.CommitRequest? && r.scope == scope && Execute(h, db, r).1 == Committed
  }

  /** The sessions that the run's successful swaps on a scope installed, in order. */
  function CommittedStates(h: Digests, requests: seq<Request>, scope: Scope): seq<Session> {
    if requests == [] then []
    else
      var before, last := requests[..|requests| - 1], requests[|requests| - 1];
      CommittedStates(h, before, scope)
      + if Commits(h, Run(h, before), last, scope) then [last.updated] else []
  }

  lemma ExecuteDocuments(h: Digests, db: Tables, r: Request, scope: Scope)
    ensures Documents(EventsOf(Execute(h, db, r).0, scope))
         == Documents(EventsOf(db, scope)) + if Commits(h, db, r, scope) then [r.updated] else []
  {
    if Commits(h, db, r, scope) {
      var kind := Decide(h, db, r.grant, r.scope, r.expected, r.updated, r.parentId, r.now).kind;
      DocumentsSnoc(EventsOf(db, scope), NextEvent(h, db, r.grant, r.scope, r.updated, kind));
    } else {
      assert EventsOf(Execute(h, db, r).0, scope) == EventsOf(db, scope);
    }
  }

  lemma {:induction false} RowsAreCommits(h: Digests, requests: seq<Request>, scope: Scope)
    ensures Documents(EventsOf(Run(h, requests), scope)) == CommittedStates(h, requests, scope)
  {
    if requests != [] {
      var before := requests[..|requests| - 1];
      RowsAreCommits(h, before, scope);
      ExecuteDocuments(h, Run(h, before), requests[|requests| - 1], scope);
    }
  }
}
