/** The durable review store as an object: tables updated in place, one transaction per call. */
module ReviewStoreObject {
  import opened Basics
  import opened Domain
  import opened Rules
  import opened Reducer
  import opened Ledger
  import opened Extension
  import opened Store
  import opened StoreRuns
  import opened StoreRules

  /** What a worker of the tenant may load, and when loading is denied. */
  function Load(h: Digests, db: Tables, grant: Grant, scope: Scope): Outcome<Option<Session>> {
    if scope.tenant != grant.tenant || scope !in db.registrations || !TipAgrees(db, scope) then Err(ValueError)
    else if scope !in db.sessions then Ok(None)
    else
      var row := db.sessions[scope];
      if !Decodes(h, row) || row.document.seed.scope != scope
         || h.seed(row.document.seed) != db.registrations[scope].seedDigest
      then Err(ValueError)
      else Ok(Some(row.document))
  }

  /** On every consistent store a registered unit of the tenant loads without denial. */
  lemma LoadExact(h: Digests, db: Tables, grant: Grant, scope: Scope)
    requires Consistent(h, db) && scope.tenant == grant.tenant && scope in db.registrations
    ensures Load(h, db, grant, scope) == Ok(CurrentOf(db, scope))
  {
    ConsistentRow(h, db, scope);
    LoadsRow(h, db, grant, scope);
  }

  lemma LoadsRow(h: Digests, db: Tables, grant: Grant, scope: Scope)
    requires scope.tenant == grant.tenant && scope in db.registrations
    requires scope !in db.sessions ==> EventsOf(db, scope) == []
    requires scope in db.sessions ==>
               && scope in db.events && Audited(h, db.sessions[scope], db.events[scope])
               && Enrolled(h, db.sessions[scope].document, scope, db.registrations[scope])
    ensures Load(h, db, grant, scope) == Ok(CurrentOf(db, scope))
  {
  }

  function Recount(h: Digests, db: Tables, grant: Grant, scope: Scope): Outcome<seq<Session>> {
    if scope.tenant != grant.tenant || scope !in db.registrations then Err(ValueError)
    else
      var read := HistoryOf(h, EventsOf(db, scope));
      if read.None? then Err(ValueError) else Ok(read.value)
  }

  /** On every consistent store, loading is denied exactly across tenants and for unregistered units. */
  lemma LoadIff(h: Digests, db: Tables, grant: Grant, scope: Scope)
    requires Consistent(h, db)
    ensures Load(h, db, grant, scope)
         == if scope.tenant != grant.tenant || scope !in db.registrations then Err(ValueError)
            else if scope in db.sessions then Ok(Some(db.sessions[scope].document)) else Ok(None)
  {
    if scope.tenant == grant.tenant && scope in db.registrations {
      LoadExact(h, db, grant, scope);
    }
  }

  /** On every consistent store the history is exactly the committed documents, in order. */
  lemma HistoryExact(h: Digests, db: Tables, grant: Grant, scope: Scope)
    requires Consistent(h, db) && scope.tenant == grant.tenant && scope in db.registrations
    ensures Recount(h, db, grant, scope) == Ok(Documents(EventsOf(db, scope)))
  {
    ConsistentRow(h, db, scope);
    assert scope !in db.sessions ==> Documents(EventsOf(db, scope)) == [];
  }

  /** In every run the history is exactly what the successful swaps installed, and loading gives the last. */
  lemma HistoryOfRun(h: Digests, requests: seq<Request>, grant: Grant, scope: Scope)
    requires scope.tenant == grant.tenant && scope in Run(h, requests).registrations
    ensures Recount(h, Run(h, requests), grant, scope) == Ok(CommittedStates(h, requests, scope))
    ensures Load(h, Run(h, requests), grant, scope) == Ok(Last(CommittedStates(h, requests, scope)))
  {
    EveryRunConsistent(h, requests);
    HistoryExact(h, Run(h, requests), grant, scope);
    RowsAreCommits(h, requests, scope);
    LoadExact(h, Run(h, requests), grant, scope);
    TipIsCurrent(h, Run(h, requests), scope);
  }

  lemma TipIsCurrent(h: Digests, db: Tables, scope: Scope)
    requires Consistent(h, db)
    ensures CurrentOf(db, scope) == Last(Documents(EventsOf(db, scope)))
  {
    ConsistentRow(h, db, scope);
  }

  class ReviewStore {
    const h: Digests
    const grant: Grant
    var budgets: map<BudgetKey, BudgetRow>
    var registrations: map<Scope, Registration>
    var sessions: map<Scope, SessionRow>
    var events: map<Scope, seq<EventRow>>

    function Rows(): Tables
      reads this
    {
      Tables(budgets, registrations, sessions, events)
    }

    /** Every parent balances and every audit chain reads back; kept by every method. */
    ghost predicate Valid()
      reads this
    {
      Consistent(h, Rows())
    }

    constructor (h: Digests, grant: Grant)
      ensures this.h == h && this.grant == grant && Rows() == EMPTY && Valid()
    {
      this.h, this.grant := h, grant;
      budgets, registrations, sessions, events := map[], map[], map[], map[];
      new;
      EveryRunConsistent(h, []);
    }

    /** Compare-and-swap of one session together with its parent's counters and its event. */
    method CompareAndReserve(scope: Scope, expected: Option<Digest>, updated: Session,
                             parentId: Identifier, now: Moment) returns (reply: Reply)
      requires Valid()
      modifies this`budgets, this`sessions, this`events
      ensures (Rows(), reply) == Commit(h, old(Rows()), grant, scope, expected, updated, parentId, now)
      ensures Valid()
      ensures SwapPromise(h, old(Rows()), grant, scope, expected, updated, parentId, now, Rows(), reply)
      ensures reply == Committed && updated.state.pending.Some? ==>
                && BudgetKey(scope.tenant, parentId) in old(budgets)
                && var inv := updated.state.pending.value;
                   inv.startedAt <= now < inv.startedAt + inv.reservation.seconds * TICKS_PER_SECOND
                   <= old(budgets)[BudgetKey(scope.tenant, parentId)].limits.expiresAt
    {
      CommitConsistent(h, Rows(), grant, scope, expected, updated, parentId, now);
      SwapPromised(h, Rows(), grant, scope, expected, updated, parentId, now);
      reply := Transact(scope, expected, updated, parentId, now);
    }

    method Transact(scope: Scope, expected: Option<Digest>, updated: Session,
                    parentId: Identifier, now: Moment) returns (reply: Reply)
      modifies this`budgets, this`sessions, this`events
      ensures (Rows(), reply) == Commit(h, old(Rows()), grant, scope, expected, updated, parentId, now)
      ensures reply == Committed && updated.state.pending.Some? ==>
                && BudgetKey(scope.tenant, parentId) in old(budgets)
                && var inv := updated.state.pending.value;
                   inv.startedAt <= now < inv.startedAt + inv.reservation.seconds * TICKS_PER_SECOND
                   <= old(budgets)[BudgetKey(scope.tenant, parentId)].limits.expiresAt
    {
      CommittedInTime(h, Rows(), grant, scope, expected, updated, parentId, now);
      if !Authorized(h, Rows(), grant, scope, updated, parentId) {
        return Denied;
      }
      var key := BudgetKey(scope.tenant, parentId);
      var parent := budgets[key];
      var current := CurrentOf(Rows(), scope);
      if current == Some(updated) || expected != DigestOf(h, current) {
        return Refused;
      }
      var kind := ValidateExtension(h, current, updated);
      if kind.Err? || (kind.value in {Created, ReservedCall} && h.bytes(updated) > MAX_SESSION_BYTES / 2) {
        return Denied;
      }
      var counters := Moved(parent.used, BudgetOf(current), updated.state.budget);
      if counters.None? || (kind.value == ReservedCall && !ParentAdmits(parent.limits, counters.value, updated, now))
         || Collides(Rows(), kind.value, updated)
      {
        return Denied;
      }
      var event := NextEvent(h, Rows(), grant, scope, updated, kind.value);
      budgets := budgets[key := parent.(used := counters.value)];
      events := events[scope := EventsOf(Rows(), scope) + [event]];
      sessions := sessions[scope := SessionRow(updated, h.session(updated), event.sequence)];
      return Committed;
    }

    method ProvisionBudget(parent: ParentBudget) returns (reply: Reply)
      requires Valid()
      modifies this`budgets
      ensures (Rows(), reply) == Provision(old(Rows()), parent) && Valid()
    {
      ProvisionConsistent(h, Rows(), parent);
      reply := InsertBudget(parent);
    }

    method InsertBudget(parent: ParentBudget) returns (reply: Reply)
      modifies this`budgets
      ensures (Rows(), reply) == Provision(old(Rows()), parent)
    {
      var key := BudgetKey(parent.tenant, parent.id);
      if exists k :: k in budgets && HasWorkItem(Rows(), parent.tenant, parent.workItem, k) {
        reply := if exists k :: k in budgets && HasWorkItem(Rows(), parent.tenant, parent.workItem, k)
                             && budgets[k].limits != parent
                 then Denied else Refused;
      } else if key in budgets {
        reply := Denied;
      } else {
        budgets := budgets[key := BudgetRow(parent, NO_SPEND)];
        reply := Committed;
      }
    }

    method RegisterUnit(seed: Seed, parentId: Identifier) returns (reply: Reply)
      requires Valid()
      modifies this`registrations
      ensures (Rows(), reply) == Register(h, old(Rows()), seed, parentId) && Valid()
    {
      RegisterConsistent(h, Rows(), seed, parentId);
      reply := InsertRegistration(seed, parentId);
    }

    method InsertRegistration(seed: Seed, parentId: Identifier) returns (reply: Reply)
      modifies this`registrations
      ensures (Rows(), reply) == Register(h, old(Rows()), seed, parentId)
    {
      if SeedFault(h, seed).Some?
         || !HasWorkItem(Rows(), seed.scope.tenant, seed.scope.workItem, BudgetKey(seed.scope.tenant, parentId))
      {
        return Denied;
      }
      var row := Registration(parentId, h.seed(seed));
      if seed.scope in registrations {
        return if registrations[seed.scope] == row then Refused else Denied;
      }
      registrations := registrations[seed.scope := row];
      return Committed;
    }

    /** The recorded states of a unit, re-checked row by row. */
    method History(scope: Scope) returns (r: Outcome<seq<Session>>)
      ensures r == Recount(h, Rows(), grant, scope)
    {
      if scope.tenant != grant.tenant || scope !in registrations {
        return Err(ValueError);
      }
      var read := ReadBack(h, EventsOf(Rows(), scope));
      if read.None? {
        return Err(ValueError);
      }
      return Ok(read.value);
    }
  }

  lemma HistoryNext(h: Digests, rows: seq<EventRow>, i: nat, result: seq<Session>, follows: bool)
    requires i < |rows| && HistoryOf(h, rows[..i]) == Some(result)
    requires follows == RowFollows(h, Last(result), i + 1, rows[i])
    ensures HistoryOf(h, rows[..i + 1]) == if follows then Some(result + [rows[i].document]) else None
  {
    assert rows[..i + 1][..i] == rows[..i];
  }

  method ReadBack(h: Digests, rows: seq<EventRow>) returns (r: Option<seq<Session>>)
    ensures r == HistoryOf(h, rows)
  {
    var result: seq<Session> := [];
    var previous: Option<Session> := None;
    for i := 0 to |rows|
      invariant HistoryOf(h, rows[..i]) == Some(result)
      invariant |result| == i && previous == Last(result)
    {
      var follows := RowFollows(h, previous, |result| + 1, rows[i]);
      HistoryNext(h, rows, i, result, follows);
      if !follows {
        ChainBroken(h, rows, i + 1);
        return None;
      }
      result := result + [rows[i].document];
      previous := Some(rows[i].document);
    }
    assert rows[..|rows|] == rows;
    return Some(result);
  }

  lemma {:induction false} ChainBroken(h: Digests, rows: seq<EventRow>, k: nat)
    requires k <= |rows| && HistoryOf(h, rows[..k]).None?
    ensures HistoryOf(h, rows).None?
    decreases |rows|
  {
    if k == |rows| {
      assert rows[..k] == rows;
    } else {
      var before := rows[..|rows| - 1];
      assert before[..k] == rows[..k];
      ChainBroken(h, before, k);
    }
  }
}
