/** Global uniqueness: over every run of the store no two event rows of any scopes share an
    invocation identifier or a provider execution, so no execution is credited in two sessions. */
module Uniqueness {
  import opened Basics
  import opened Domain
  import opened Reducer
  import opened Ledger
  import opened Accounting
  import opened Eligibility
  import opened Extension
  import opened Store
  import opened StoreRuns

  predicate RowsApart(a: EventRow, b: EventRow) {
    && (a.invocationId.Some? ==> a.invocationId != b.invocationId)
    && (a.execution.Some? ==> a.execution != b.execution)
  }

  predicate RowAt(db: Tables, scope: Scope, i: nat) {
    scope in db.events && i < |db.events[scope]|
  }

  /** The unique constraints hold of the whole event table. */
  ghost predicate Unrepeated(db: Tables) {
    forall x, i: nat, y, j: nat :: RowAt(db, x, i) && RowAt(db, y, j) && (x, i) != (y, j) ==>
      RowsApart(db.events[x][i], db.events[y][j])
  }

  /** The appended row names nothing that any row of the table names. */
  lemma AppendedApart(db: Tables, kind: Transition, updated: Session, e: EventRow, x: Scope, i: nat)
    requires !Collides(db, kind, updated) && RowAt(db, x, i)
    requires e.invocationId == InvocationOf(kind, updated) && e.execution == ExecutionOf(kind, updated)
    ensures RowsApart(e, db.events[x][i]) && RowsApart(db.events[x][i], e)
  {
    var row := db.events[x][i];
    assert row in db.events[x];
    assert row.invocationId.Some? ==> InvocationUsed(db, row.invocationId.value);
    assert row.execution.Some? ==> ExecutionUsed(db, row.execution.value);
  }

  lemma AppendUnrepeated(db: Tables, after: Tables, scope: Scope, kind: Transition, updated: Session, e: EventRow)
    requires Unrepeated(db) && !Collides(db, kind, updated)
    requires e.invocationId == InvocationOf(kind, updated) && e.execution == ExecutionOf(kind, updated)
    requires after.events == db.events[scope := EventsOf(db, scope) + [e]]
    ensures Unrepeated(after)
  {
    forall x, i: nat, y, j: nat | RowAt(after, x, i) && RowAt(after, y, j) && (x, i) != (y, j)
      ensures RowsApart(after.events[x][i], after.events[y][j])
    {
      if RowAt(db, x, i) && RowAt(db, y, j) {
        assert RowsApart(db.events[x][i], db.events[y][j]);
      } else if RowAt(db, x, i) {
        AppendedApart(db, kind, updated, e, x, i);
      } else if RowAt(db, y, j) {
        AppendedApart(db, kind, updated, e, y, j);
      }
    }
  }

  lemma CommitAppends(h: Digests, db: Tables, r: Request)
    requires r.CommitRequest? && Execute(h, db, r).1 == Committed
    ensures ValidateExtension(h, CurrentOf(db, r.scope), r.updated).Ok?
    ensures var kind := ValidateExtension(h, CurrentOf(db, r.scope), r.updated).value;
            && !Collides(db, kind, r.updated)
            && Execute(h, db, r).0.events
               == db.events[r.scope := EventsOf(db, r.scope) + [NextEvent(h, db, r.grant, r.scope, r.updated, kind)]]
            && Execute(h, db, r).0.sessions.Keys == db.sessions.Keys + {r.scope}
            && Execute(h, db, r).0.sessions[r.scope].document == r.updated
            && (forall x :: x in db.sessions && x != r.scope ==>
                  Execute(h, db, r).0.sessions[x] == db.sessions[x])
  {
  }

  lemma OtherwiseSame(h: Digests, db: Tables, r: Request)
    requires !(r.CommitRequest? && Execute(h, db, r).1 == Committed)
    ensures Execute(h, db, r).0.events == db.events && Execute(h, db, r).0.sessions == db.sessions
  {
  }

  /** In every run no two event rows share an invocation identifier or a provider execution. */
  lemma {:induction false} RowsUnique(h: Digests, requests: seq<Request>)
    ensures Unrepeated(Run(h, requests))
  {
    if requests != [] {
      var db, r := Run(h, requests[..|requests| - 1]), requests[|requests| - 1];
      RowsUnique(h, requests[..|requests| - 1]);
      ExecuteUnrepeated(h, db, r);
    }
  }

  lemma ExecuteUnrepeated(h: Digests, db: Tables, r: Request)
    requires Unrepeated(db)
    ensures Unrepeated(Execute(h, db, r).0)
  {
    if r.CommitRequest? && Execute(h, db, r).1 == Committed {
      CommitAppends(h, db, r);
      var kind := ValidateExtension(h, CurrentOf(db, r.scope), r.updated).value;
      AppendUnrepeated(db, Execute(h, db, r).0, r.scope, kind, r.updated,
                       NextEvent(h, db, r.grant, r.scope, r.updated, kind));
    } else {
      OtherwiseSame(h, db, r);
    }
  }

  // Every attempt of a committed ledger has its rows.

  predicate NamesCall(row: EventRow, a: Attempt) {
    row.invocationId == Some(a.invocation.id)
  }

  predicate NamesExecution(row: EventRow, a: Attempt) {
    HasReceipt(a) && row.execution == Some(Execution(a))
  }

  predicate Logged(rows: seq<EventRow>, a: Attempt) {
    && (exists i :: 0 <= i < |rows| && NamesCall(rows[i], a))
    && (HasReceipt(a) ==> exists i :: 0 <= i < |rows| && NamesExecution(rows[i], a))
  }

  predicate LedgerLogged(rows: seq<EventRow>, attempts: seq<Attempt>) {
    forall k :: 0 <= k < |attempts| ==> Logged(rows, attempts[k])
  }

  predicate AllLogged(db: Tables) {
    forall scope :: scope in db.sessions ==>
      LedgerLogged(EventsOf(db, scope), db.sessions[scope].document.attempts)
  }

  lemma LoggedGrows(rows: seq<EventRow>, e: EventRow, a: Attempt)
    requires Logged(rows, a)
    ensures Logged(rows + [e], a)
  {
    var all := rows + [e];
    var i :| 0 <= i < |rows| && NamesCall(rows[i], a);
    assert NamesCall(all[i], a);
    if HasReceipt(a) {
      var j :| 0 <= j < |rows| && NamesExecution(rows[j], a);
      assert NamesExecution(all[j], a);
    }
  }

  lemma ShapeLogged(rows: seq<EventRow>, current: Option<Session>, t: Session, kind: Transition, e: EventRow)
    requires Shape(current, t, kind) && (current.Some? ==> LedgerLogged(rows, current.value.attempts))
    requires e.invocationId == InvocationOf(kind, t) && e.execution == ExecutionOf(kind, t)
    ensures LedgerLogged(rows + [e], t.attempts)
  {
    var all, n := rows + [e], |t.attempts| - 1;
    forall k | 0 <= k < |t.attempts| ensures Logged(all, t.attempts[k]) {
      assert all[|rows|] == e;
      if kind == ReservedCall && k == n {
        assert NamesCall(all[|rows|], t.attempts[k]);
      } else if kind == CompletedCall && k == n {
        LoggedGrows(rows, e, current.value.attempts[k]);
        var i :| 0 <= i < |all| && NamesCall(all[i], current.value.attempts[k]);
        assert NamesCall(all[i], t.attempts[k]);
        assert HasReceipt(t.attempts[k]) ==> NamesExecution(all[|rows|], t.attempts[k]);
      } else {
        assert t.attempts[k] == current.value.attempts[k] by {
          assert kind == ReservedCall ==> t.attempts[..n][k] == t.attempts[k];
          assert kind == CompletedCall ==> t.attempts[..n][k] == current.value.attempts[..n][k];
        }
        LoggedGrows(rows, e, current.value.attempts[k]);
      }
    }
  }

  lemma ExecuteLogged(h: Digests, db: Tables, r: Request)
    requires AllLogged(db)
    ensures AllLogged(Execute(h, db, r).0)
  {
    if r.CommitRequest? && Execute(h, db, r).1 == Committed {
      CommitAppends(h, db, r);
      ExtensionShape(h, CurrentOf(db, r.scope), r.updated);
      var kind := ValidateExtension(h, CurrentOf(db, r.scope), r.updated).value;
      AppendLogged(db, Execute(h, db, r).0, r.scope, r.updated, kind,
                   NextEvent(h, db, r.grant, r.scope, r.updated, kind));
    } else {
      OtherwiseSame(h, db, r);
    }
  }

  lemma AppendLogged(db: Tables, after: Tables, scope: Scope, t: Session, kind: Transition, e: EventRow)
    requires AllLogged(db) && Shape(CurrentOf(db, scope), t, kind)
    requires e.invocationId == InvocationOf(kind, t) && e.execution == ExecutionOf(kind, t)
    requires after.events == db.events[scope := EventsOf(db, scope) + [e]]
    requires after.sessions.Keys == db.sessions.Keys + {scope} && after.sessions[scope].document == t
    requires forall x :: x in db.sessions && x != scope ==> after.sessions[x] == db.sessions[x]
    ensures AllLogged(after)
  {
    ShapeLogged(EventsOf(db, scope), CurrentOf(db, scope), t, kind, e);
    CommitLogged(db, after, scope);
  }

  lemma CommitLogged(db: Tables, after: Tables, scope: Scope)
    requires AllLogged(db) && after.sessions.Keys == db.sessions.Keys + {scope}
    requires forall x :: x in db.sessions && x != scope ==>
               after.sessions[x] == db.sessions[x] && EventsOf(after, x) == EventsOf(db, x)
    requires LedgerLogged(EventsOf(after, scope), after.sessions[scope].document.attempts)
    ensures AllLogged(after)
  {
    forall x | x in after.sessions ensures LedgerLogged(EventsOf(after, x), after.sessions[x].document.attempts) {
      if x != scope {
        assert LedgerLogged(EventsOf(db, x), db.sessions[x].document.attempts);
      }
    }
  }

  lemma {:induction false} LedgersLogged(h: Digests, requests: seq<Request>)
    ensures AllLogged(Run(h, requests))
  {
    if requests != [] {
      LedgersLogged(h, requests[..|requests| - 1]);
      ExecuteLogged(h, Run(h, requests[..|requests| - 1]), requests[|requests| - 1]);
    }
  }

  /** In every run, attempts of different sessions never share an invocation identifier, nor a provider
      execution, whatever their receipts are worth. */
  lemma SessionsApart(h: Digests, requests: seq<Request>, x: Scope, y: Scope, k: nat, l: nat)
    requires var db := Run(h, requests);
             && x in db.sessions && y in db.sessions && x != y
             && k < |db.sessions[x].document.attempts| && l < |db.sessions[y].document.attempts|
    ensures var a, b := Run(h, requests).sessions[x].document.attempts[k],
                        Run(h, requests).sessions[y].document.attempts[l];
            && a.invocation.id != b.invocation.id
            && (HasReceipt(a) && HasReceipt(b) ==> Execution(a) != Execution(b))
  {
    RowsUnique(h, requests);
    LedgersLogged(h, requests);
    LoggedApart(Run(h, requests), x, y, Run(h, requests).sessions[x].document.attempts[k],
                Run(h, requests).sessions[y].document.attempts[l]);
  }

  lemma LoggedApart(db: Tables, x: Scope, y: Scope, a: Attempt, b: Attempt)
    requires Unrepeated(db) && x != y
    requires Logged(EventsOf(db, x), a) && Logged(EventsOf(db, y), b)
    ensures a.invocation.id != b.invocation.id
    ensures HasReceipt(a) && HasReceipt(b) ==> Execution(a) != Execution(b)
  {
    var i :| 0 <= i < |EventsOf(db, x)| && NamesCall(EventsOf(db, x)[i], a);
    var j :| 0 <= j < |EventsOf(db, y)| && NamesCall(EventsOf(db, y)[j], b);
    assert RowAt(db, x, i) && RowAt(db, y, j);
    if HasReceipt(a) && HasReceipt(b) {
      var m :| 0 <= m < |EventsOf(db, x)| && NamesExecution(EventsOf(db, x)[m], a);
      var n :| 0 <= n < |EventsOf(db, y)| && NamesExecution(EventsOf(db, y)[n], b);
      assert RowAt(db, x, m) && RowAt(db, y, n);
    }
  }

  /** The credited reviews of a committed session, as positions in its ledger. */
  function CreditsIn(h: Digests, db: Tables, scope: Scope): seq<nat>
    requires scope in db.sessions
  {
    var s := db.sessions[scope].document;
    if ValidSession(h, s) then CreditedReviews(Judgements(h, s.seed, s.attempts)) else []
  }

  lemma CommittedValid(h: Digests, requests: seq<Request>, scope: Scope)
    requires scope in Run(h, requests).sessions
    ensures ValidSession(h, Run(h, requests).sessions[scope].document)
  {
    EveryRunConsistent(h, requests);
    ConsistentRow(h, Run(h, requests), scope);
  }

  /** Over all sessions of a run, different credited reviews come from different provider executions. */
  lemma CreditsApart(h: Digests, requests: seq<Request>, x: Scope, y: Scope, k: nat, l: nat)
    requires x in Run(h, requests).sessions && y in Run(h, requests).sessions
    requires k in CreditsIn(h, Run(h, requests), x) && l in CreditsIn(h, Run(h, requests), y) && (x, k) != (y, l)
    ensures var a, b := Run(h, requests).sessions[x].document.attempts, Run(h, requests).sessions[y].document.attempts;
            && k < |a| && l < |b| && HasReceipt(a[k]) && HasReceipt(b[l])
            && Execution(a[k]) != Execution(b[l])
  {
    var s, t := Run(h, requests).sessions[x].document, Run(h, requests).sessions[y].document;
    CommittedValid(h, requests, x);
    CommittedValid(h, requests, y);
    CreditReceipts(h, s, k);
    CreditReceipts(h, t, l);
    if x == y {
      CreditsDiffer(h, s, k, l);
    } else {
      SessionsApart(h, requests, x, y, k, l);
    }
  }

  lemma CreditReceipts(h: Digests, s: Session, k: nat)
    requires ValidSession(h, s) && k in CreditedReviews(Judgements(h, s.seed, s.attempts))
    ensures k < |s.attempts| && HasReceipt(s.attempts[k])
  {
    ReviewsBehind(h, s.seed, s.attempts);
  }

  lemma CreditsDiffer(h: Digests, s: Session, k: nat, l: nat)
    requires ValidSession(h, s) && k != l
    requires k in CreditedReviews(Judgements(h, s.seed, s.attempts))
    requires l in CreditedReviews(Judgements(h, s.seed, s.attempts))
    ensures k < |s.attempts| && l < |s.attempts| && HasReceipt(s.attempts[k]) && HasReceipt(s.attempts[l])
    ensures Execution(s.attempts[k]) != Execution(s.attempts[l])
  {
    ReviewsBehind(h, s.seed, s.attempts);
    PositionsDiffer(s.attempts, CreditedReviews(Judgements(h, s.seed, s.attempts)), k, l);
  }

  lemma PositionsDiffer(attempts: seq<Attempt>, idx: seq<nat>, k: nat, l: nat)
    requires DistinctExecutions(attempts, idx) && k in idx && l in idx && k != l
    ensures k < |attempts| && l < |attempts| && HasReceipt(attempts[k]) && HasReceipt(attempts[l])
    ensures Execution(attempts[k]) != Execution(attempts[l])
  {
    var i :| 0 <= i < |idx| && idx[i] == k;
    var j :| 0 <= j < |idx| && idx[j] == l;
  }
}
