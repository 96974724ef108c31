/** The durable review tables as values: each transaction is one atomic function of the
    rows. Events of a scope are listed in insertion order; that this is the order of their
    `sequence` column is proved. A stored document is the session it encodes. */
module Store {
  import opened Basics
  import opened Domain
  import opened Rules
  import opened Reducer
  import opened Ledger
  import opened Extension

  const MAX_SESSION_BYTES: nat := 4 * 1024 * 1024

  datatype ParentBudget = ParentBudget(
    tenant: Identifier, workItem: Identifier, id: Identifier, maxInvocations: Limit,
    maxRepairs: nat, maxTokens: Limit, maxCost: Limit, expiresAt: Moment)

  datatype BudgetRow = BudgetRow(limits: ParentBudget, used: Budget)

  datatype Registration = Registration(budgetId: Identifier, seedDigest: Digest)

  datatype SessionRow = SessionRow(document: Session, digest: Digest, sequence: nat)

  datatype EventRow = EventRow(
    sequence: nat, kind: Transition, subject: Identifier, before: Option<Digest>, after: Digest,
    document: Session, invocationId: Option<Identifier>, execution: Option<(Identifier, Identifier)>)

  datatype BudgetKey = BudgetKey(tenant: Identifier, id: Identifier)

  datatype Tables = Tables(
    budgets: map<BudgetKey, BudgetRow>, registrations: map<Scope, Registration>,
    sessions: map<Scope, SessionRow>, events: map<Scope, seq<EventRow>>)

  datatype Grant = Grant(tenant: Identifier, subject: Identifier)

  datatype Reply = Committed | Refused | Denied

  const EMPTY: Tables := Tables(map[], map[], map[], map[])

  function EventsOf(db: Tables, scope: Scope): seq<EventRow> {
    if scope in db.events then db.events[scope] else []
  }

  function CurrentOf(db: Tables, scope: Scope): Option<Session> {
    if scope in db.sessions then Some(db.sessions[scope].document) else None
  }

  function DigestOf(h: Digests, s: Option<Session>): Option<Digest> {
    if s.None? then None else Some(h.session(s.value))
  }

  // Provisioning.

  predicate HasWorkItem(db: Tables, tenant: Identifier, workItem: Identifier, key: BudgetKey) {
    key in db.budgets && key.tenant == tenant && db.budgets[key].limits.workItem == workItem
  }

  function Provision(db: Tables, parent: ParentBudget): (Tables, Reply) {
    var key := BudgetKey(parent.tenant, parent.id);
    if exists k :: k in db.budgets && HasWorkItem(db, parent.tenant, parent.workItem, k) then
      if exists k :: k in db.budgets && HasWorkItem(db, parent.tenant, parent.workItem, k)
                  && db.budgets[k].limits != parent
      then (db, Denied) else (db, Refused)
    else if key in db.budgets then (db, Denied)
    else (db.(budgets := db.budgets[key := BudgetRow(parent, NO_SPEND)]), Committed)
  }

  function Register(h: Digests, db: Tables, seed: Seed, parentId: Identifier): (Tables, Reply) {
    var key := BudgetKey(seed.scope.tenant, parentId);
    if SeedFault(h, seed).Some? then (db, Denied)
    else if !HasWorkItem(db, seed.scope.tenant, seed.scope.workItem, key) then (db, Denied)
    else if seed.scope in db.registrations then
      (db, if db.registrations[seed.scope] == Registration(parentId, h.seed(seed)) then Refused else Denied)
    else (db.(registrations := db.registrations[seed.scope := Registration(parentId, h.seed(seed))]), Committed)
  }

  // Compare-and-reserve.

  /** The snapshot must agree with the last appended event. */
  predicate TipAgrees(db: Tables, scope: Scope) {
    var rows := EventsOf(db, scope);
    if scope !in db.sessions then rows == []
    else
      && rows != []
      && var row, tip := db.sessions[scope], rows[|rows| - 1];
         row.sequence == tip.sequence && row.digest == tip.after && row.document == tip.document
  }

  predicate Decodes(h: Digests, row: SessionRow) {
    h.bytes(row.document) <= MAX_SESSION_BYTES && ValidSession(h, row.document) && h.session(row.document) == row.digest
  }

  function BudgetOf(s: Option<Session>): Budget {
    if s.None? then NO_SPEND else s.value.state.budget
  }

  /** The parent's counters after the session moves `from` one budget `to` another; `None` on underflow. */
  function Moved(parent: Budget, from: Budget, to: Budget): Option<Budget> {
    var invocations := parent.invocations + to.invocations - from.invocations;
    var repairs := parent.repairs + to.repairs - from.repairs;
    var tokensSpent := parent.tokensSpent + to.tokensSpent - from.tokensSpent;
    var costSpent := parent.costSpent + to.costSpent - from.costSpent;
    var tokensReserved := parent.tokensReserved + to.tokensReserved - from.tokensReserved;
    var costReserved := parent.costReserved + to.costReserved - from.costReserved;
    if invocations < 0 || repairs < 0 || tokensSpent < 0 || costSpent < 0 || tokensReserved < 0 || costReserved < 0
    then None
    else Some(Budget(invocations, repairs, tokensSpent, costSpent, tokensReserved, costReserved))
  }

  predicate WithinParent(limits: ParentBudget, b: Budget) {
    && b.invocations <= limits.maxInvocations && b.repairs <= limits.maxRepairs
    && b.tokensSpent + b.tokensReserved <= limits.maxTokens
    && b.costSpent + b.costReserved <= limits.maxCost
  }

  /** A reservation must be current, end before the parent expires, and fit its ceilings. */
  predicate ParentAdmits(limits: ParentBudget, counters: Budget, updated: Session, now: Moment) {
    && updated.state.pending.Some?
    && var inv := updated.state.pending.value;
       var deadline := inv.startedAt + inv.reservation.seconds * TICKS_PER_SECOND;
       && inv.startedAt <= now < deadline <= limits.expiresAt
       && now < limits.expiresAt
       && WithinParent(limits, counters)
  }

  function InvocationOf(kind: Transition, updated: Session): Option<Identifier> {
    if kind == ReservedCall && updated.attempts != []
    then Some(updated.attempts[|updated.attempts| - 1].invocation.id) else None
  }

  function ExecutionOf(kind: Transition, updated: Session): Option<(Identifier, Identifier)> {
    if kind == CompletedCall && updated.attempts != [] then
      var c := updated.attempts[|updated.attempts| - 1].completion;
      if c.Some? && c.value.receipt.Some?
      then Some((c.value.receipt.value.actualModel.provider, c.value.receipt.value.executionId)) else None
    else None
  }

  predicate InvocationUsed(db: Tables, id: Identifier) {
    exists scope :: scope in db.events && exists row :: row in db.events[scope] && row.invocationId == Some(id)
  }

  predicate ExecutionUsed(db: Tables, x: (Identifier, Identifier)) {
    exists scope :: scope in db.events && exists row :: row in db.events[scope] && row.execution == Some(x)
  }

  /** The unique constraints on invocation identifiers and provider executions, across all scopes. */
  predicate Collides(db: Tables, kind: Transition, updated: Session) {
    var id, x := InvocationOf(kind, updated), ExecutionOf(kind, updated);
    (id.Some? && InvocationUsed(db, id.value)) || (x.Some? && ExecutionUsed(db, x.value))
  }

  datatype Ruling = Deny | Refuse | Admit(kind: Transition, counters: Budget)

  predicate Authorized(h: Digests, db: Tables, grant: Grant, scope: Scope, updated: Session, parentId: Identifier) {
    && ValidSession(h, updated) && updated.seed.scope == scope && h.bytes(updated) <= MAX_SESSION_BYTES
    && scope.tenant == grant.tenant && scope in db.registrations
    && db.registrations[scope] == Registration(parentId, h.seed(updated.seed))
    && HasWorkItem(db, scope.tenant, scope.workItem, BudgetKey(scope.tenant, parentId))
    && TipAgrees(db, scope) && (scope in db.sessions ==> Decodes(h, db.sessions[scope]))
  }

  function Decide(h: Digests, db: Tables, grant: Grant, scope: Scope, expected: Option<Digest>,
                  updated: Session, parentId: Identifier, now: Moment): Ruling
  {
    if !Authorized(h, db, grant, scope, updated, parentId) then Deny
    else
      var current := CurrentOf(db, scope);
      var parent := db.budgets[BudgetKey(scope.tenant, parentId)];
      if current == Some(updated) || expected != DigestOf(h, current) then Refuse
      else
        var kind := ValidateExtension(h, current, updated);
        var counters := Moved(parent.used, BudgetOf(current), updated.state.budget);
        if kind.Err? then Deny
        else if kind.value in {Created, ReservedCall} && h.bytes(updated) > MAX_SESSION_BYTES / 2 then Deny
        else if counters.None? then Deny
        else if kind.value == ReservedCall && !ParentAdmits(parent.limits, counters.value, updated, now) then Deny
        else if Collides(db, kind.value, updated) then Deny
        else Admit(kind.value, counters.value)
  }

  function NextEvent(h: Digests, db: Tables, grant: Grant, scope: Scope, updated: Session, kind: Transition): EventRow {
    var sequence := if scope in db.sessions then db.sessions[scope].sequence + 1 else 1;
    EventRow(sequence, kind, grant.subject, DigestOf(h, CurrentOf(db, scope)), h.session(updated), updated,
             InvocationOf(kind, updated), ExecutionOf(kind, updated))
  }

  /** Counters, snapshot and event change together. */
  function Written(h: Digests, db: Tables, grant: Grant, scope: Scope, updated: Session, parentId: Identifier,
                   kind: Transition, counters: Budget): Tables
    requires BudgetKey(scope.tenant, parentId) in db.budgets
  {
    var key, event := BudgetKey(scope.tenant, parentId), NextEvent(h, db, grant, scope, updated, kind);
    db.(budgets := db.budgets[key := db.budgets[key].(used := counters)],
        sessions := db.sessions[scope := SessionRow(updated, h.session(updated), event.sequence)],
        events := db.events[scope := EventsOf(db, scope) + [event]])
  }

  function Enact(h: Digests, db: Tables, grant: Grant, scope: Scope, updated: Session, parentId: Identifier,
                 ruling: Ruling): (Tables, Reply)
    requires ruling.Admit? ==> BudgetKey(scope.tenant, parentId) in db.budgets
  {
    match ruling
    case Deny => (db, Denied)
    case Refuse => (db, Refused)
    case Admit(kind, counters) => (Written(h, db, grant, scope, updated, parentId, kind, counters), Committed)
  }

  function Commit(h: Digests, db: Tables, grant: Grant, scope: Scope, expected: Option<Digest>,
                  updated: Session, parentId: Identifier, now: Moment): (Tables, Reply)
  {
    Enact(h, db, grant, scope, updated, parentId, Decide(h, db, grant, scope, expected, updated, parentId, now))
  }

  // Reading the audit chain.

  predicate RowFollows(h: Digests, previous: Option<Session>, position: nat, row: EventRow) {
    && row.sequence == position
    && row.after == h.session(row.document)
    && row.before == DigestOf(h, previous)
    && ValidateExtension(h, previous, row.document) == Ok(row.kind)
  }

  function Last(s: seq<Session>): Option<Session> {
    if s == [] then None else Some(s[|s| - 1])
  }

  /** The sessions recorded by the rows; `None` when the chain is inconsistent. */
  function HistoryOf(h: Digests, rows: seq<EventRow>): (r: Option<seq<Session>>)
    ensures r.Some? ==> |r.value| == |rows|
  {
    if rows == [] then Some([])
    else
      var before, row := HistoryOf(h, rows[..|rows| - 1]), rows[|rows| - 1];
      if before.None? || !RowFollows(h, Last(before.value), |rows|, row) then None
      else Some(before.value + [row.document])
  }

  function Documents(rows: seq<EventRow>): seq<Session> {
    seq(|rows|, i requires 0 <= i < |rows| => rows[i].document)
  }
}
