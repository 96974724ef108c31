/** The coordinator as a transition system: any number of workers, atomic store calls, crashes at
    any point, and any other clients of the store. An action that is not enabled changes nothing. */
module Orchestration {
  import opened Basics
  import opened Domain
  import opened Rules
  import opened Reducer
  import opened Ledger
  import opened Accounting
  import opened Admission
  import opened Extension
  import opened Store
  import opened StoreRuns
  import opened ReviewStoreObject

  /** Where a worker stands in one step of the coordinator. */
  datatype Phase =
    | Idle
    | Proposing(current: Session, proposal: Session)
    | Won(held: Session)
    | Executing(held: Session)
    | Returned(held: Session, receipt: Option<Receipt>, output: Option<Output>, stop: Option<ExecutionStop>)

  datatype Dispatch = Dispatch(scope: Scope, invocation: Invocation)

  /** What a worker has in hand to settle its call with. */
  datatype Handover = Handover(
    scope: Scope, invocation: Invocation, receipt: Option<Receipt>, output: Option<Output>,
    stop: Option<ExecutionStop>)

  /** `dispatched` is the log of executor calls and `delivered` of what came back or stopped them;
      `foreign` holds the attempts whose completion other clients committed. */
  datatype World = World(
    db: Tables, workers: map<nat, Phase>, dispatched: seq<Dispatch>, delivered: seq<Handover>,
    foreign: seq<Attempt>)

  datatype Action =
    | Propose(worker: nat, grant: Grant, scope: Scope, observed: Artifact, now: Moment,
              id: Identifier, reservation: Reservation, later: Moment)
    | Swap(worker: nat, grant: Grant, parentId: Identifier, now: Moment)
    | StopBefore(worker: nat, because: ExecutionStop)
    | Call(worker: nat)
    | Return(worker: nat, receipt: Option<Receipt>, output: Option<Output>, stop: Option<ExecutionStop>)
    | Settle(worker: nat, grant: Grant, parentId: Identifier, finished: Moment, now: Moment)
    | Crash(worker: nat)
    | OtherClient(request: Request)

  function PhaseOf(w: World, worker: nat): Phase {
    if worker in w.workers then w.workers[worker] else Idle
  }

  function Enter(w: World, worker: nat, phase: Phase): World {
    w.(workers := w.workers[worker := phase])
  }

  /** The call a session has pending, if any. */
  function PendingOf(s: Session): Option<Invocation> {
    s.state.pending
  }

  /** The reservation the coordinator makes for a decision that asks for another call. */
  function Proposal(h: Digests, current: Session, observed: Artifact, now: Moment, id: Identifier,
                    reservation: Reservation, later: Moment): Outcome<Session>
  {
    var decision := Evaluate(h, current, observed, now);
    if decision.Err? || current.state.pending.Some?
       || decision.value.status !in {NeedsReviewStatus, NeedsRepairStatus} || current.seed.reviewers == []
    then Err(ValueError)
    else
      var repair := decision.value.status == NeedsRepairStatus;
      ReserveInvocation(h, current, id, if repair then Repair else Review,
                        if repair then current.seed.originalDoer else current.seed.reviewers[0], reservation, later)
  }

  function Settlement(h: Digests, held: Session, p: Phase, finished: Moment): Outcome<Session>
    requires p.Returned?
  {
    if PendingOf(held).None? then Err(ValueError)
    else CompleteInvocation(h, held, PendingOf(held).value.id, p.receipt, p.output, finished, p.stop)
  }

  /** The compare-and-swap from a session this worker has seen to its successor. */
  function Committing(h: Digests, seen: Session, updated: Session, grant: Grant, parentId: Identifier, now: Moment)
    : Request
  {
    CommitRequest(grant, updated.seed.scope, Some(h.session(seen)), updated, parentId, now)
  }

  /** Deliver a settlement, and become idle whether or not the swap wins. */
  function Land(h: Digests, w: World, worker: nat, held: Session, done: Outcome<Session>, grant: Grant,
                parentId: Identifier, now: Moment): World
  {
    if done.Err? then w
    else
      var (db, reply) := Execute(h, w.db, Committing(h, held, done.value, grant, parentId, now));
      Enter(w.(db := db), worker, Idle)
  }

  function HandoverOf(held: Session, receipt: Option<Receipt>, output: Option<Output>, stop: Option<ExecutionStop>)
    : Handover
    requires PendingOf(held).Some?
  {
    Handover(held.seed.scope, PendingOf(held).value, receipt, output, stop)
  }

  /** The worker has a result, or a reason not to call, in hand. */
  function Hand(w: World, worker: nat, held: Session, receipt: Option<Receipt>, output: Option<Output>,
                stop: Option<ExecutionStop>): World
  {
    if PendingOf(held).None? then w
    else Enter(w.(delivered := w.delivered + [HandoverOf(held, receipt, output, stop)]), worker,
               Returned(held, receipt, output, stop))
  }

  /** The completed attempt that a client's successful swap brings, if it brings one. */
  function Brought(h: Digests, db: Tables, r: Request): seq<Attempt> {
    if r.CommitRequest? && Execute(h, db, r).1 == Committed && r.updated.attempts != []
       && r.updated.attempts[|r.updated.attempts| - 1].completion.Some?
    then [r.updated.attempts[|r.updated.attempts| - 1]] else []
  }

  function Act(h: Digests, w: World, a: Action): World {
    match a
    case Propose(worker, grant, scope, observed, now, id, reservation, later) =>
      var loaded := Load(h, w.db, grant, scope);
      if !PhaseOf(w, worker).Idle? || loaded.Err? || loaded.value.None? then w
      else
        var proposal := Proposal(h, loaded.value.value, observed, now, id, reservation, later);
        if proposal.Err? then w else Enter(w, worker, Proposing(loaded.value.value, proposal.value))
    case Swap(worker, grant, parentId, now) =>
      var p := PhaseOf(w, worker);
      if !p.Proposing? then w
      else
        var (db, reply) := Execute(h, w.db, Committing(h, p.current, p.proposal, grant, parentId, now));
        Enter(w.(db := db), worker, if reply == Committed then Won(p.proposal) else Idle)
    case StopBefore(worker, because) =>
      var p := PhaseOf(w, worker);
      if !p.Won? then w else Hand(w, worker, p.held, None, None, Some(because))
    case Call(worker) =>
      var p := PhaseOf(w, worker);
      if !p.Won? || PendingOf(p.held).None? then w
      else Enter(w.(dispatched := w.dispatched + [Dispatch(p.held.seed.scope, PendingOf(p.held).value)]),
                 worker, Executing(p.held))
    case Return(worker, receipt, output, stop) =>
      var p := PhaseOf(w, worker);
      if !p.Executing? then w else Hand(w, worker, p.held, receipt, output, stop)
    case Settle(worker, grant, parentId, finished, now) =>
      var p := PhaseOf(w, worker);
      if !p.Returned? then w
      else Land(h, w, worker, p.held, Settlement(h, p.held, p, finished), grant, parentId, now)
    case Crash(worker) => Enter(w, worker, Idle)
    case OtherClient(request) =>
      w.(db := Execute(h, w.db, request).0, foreign := w.foreign + Brought(h, w.db, request))
  }

  function Play(h: Digests, actions: seq<Action>): World {
    if actions == [] then World(EMPTY, map[], [], [], [])
    else Act(h, Play(h, actions[..|actions| - 1]), actions[|actions| - 1])
  }

  // The invariant.

  predicate Holds(p: Phase) {
    p.Won? || p.Executing? || p.Returned?
  }

  /** A proposal is a fresh reservation: valid, with its last attempt pending. */
  predicate FreshReservation(h: Digests, s: Session) {
    && ValidSession(h, s) && s.attempts != []
    && s.attempts[|s.attempts| - 1].completion.None?
    && PendingOf(s) == Some(s.attempts[|s.attempts| - 1].invocation)
  }

  function HeldId(s: Session): Identifier
    requires PendingOf(s).Some?
  {
    PendingOf(s).value.id
  }

  /** The ledger records the completion of the call. */
  predicate Completed(s: Session, inv: Invocation) {
    exists a :: a in s.attempts && a.invocation == inv && a.completion.Some?
  }

  /** The committed ledger of the scope records the completion of the call. */
  predicate SettledIn(db: Tables, scope: Scope, inv: Invocation) {
    var current := CurrentOf(db, scope);
    current.Some? && Completed(current.value, inv)
  }

  /** The call is the committed pending call of the scope. */
  predicate OpenIn(db: Tables, scope: Scope, inv: Invocation) {
    var current := CurrentOf(db, scope);
    current.Some? && PendingOf(current.value) == Some(inv)
  }

  /** A pending session is still committed with nothing appended to its events, or its call is settled. */
  predicate Stands(db: Tables, scope: Scope, s: Session, rows: seq<EventRow>)
    requires PendingOf(s).Some?
  {
    || (CurrentOf(db, scope) == Some(s) && EventsOf(db, scope) == rows)
    || SettledIn(db, scope, PendingOf(s).value)
  }

  /** A held call was committed, and is the committed pending state or settled in the committed ledger. */
  predicate HeldSound(h: Digests, w: World, s: Session) {
    && FreshReservation(h, s)
    && InvocationUsed(w.db, HeldId(s))
    && (CurrentOf(w.db, s.seed.scope) == Some(s) || SettledIn(w.db, s.seed.scope, PendingOf(s).value))
  }

  predicate Logged(w: World, id: Identifier) {
    exists d :: d in w.dispatched && d.invocation.id == id
  }

  /** One more attempt than the valid session it follows. */
  predicate Follows(h: Digests, s: Session, t: Session) {
    && ValidSession(h, s) && t.seed == s.seed
    && |t.attempts| == |s.attempts| + 1 && t.attempts[..|s.attempts|] == s.attempts
  }

  predicate WorkerSound(h: Digests, w: World, worker: nat) {
    var p := PhaseOf(w, worker);
    && (p.Proposing? ==> FreshReservation(h, p.proposal) && Follows(h, p.current, p.proposal))
    && (Holds(p) ==> HeldSound(h, w, p.held))
    && (p.Won? ==> !Logged(w, HeldId(p.held)))
    && (p.Returned? ==> HandoverOf(p.held, p.receipt, p.output, p.stop) in w.delivered)
  }

  predicate HoldersDistinct(h: Digests, w: World) {
    forall i, j :: i in w.workers && j in w.workers && i != j && Holds(w.workers[i]) && Holds(w.workers[j])
                   && PendingOf(w.workers[i].held).Some? && PendingOf(w.workers[j].held).Some? ==>
      HeldId(w.workers[i].held) != HeldId(w.workers[j].held)
  }

  predicate CallStands(db: Tables, d: Dispatch) {
    OpenIn(db, d.scope, d.invocation) || SettledIn(db, d.scope, d.invocation)
  }

  predicate LogSound(w: World) {
    && (forall i :: 0 <= i < |w.dispatched| ==> CallStands(w.db, w.dispatched[i]))
    && (forall i :: 0 <= i < |w.dispatched| ==> InvocationUsed(w.db, w.dispatched[i].invocation.id))
    && (forall i, j :: 0 <= i < j < |w.dispatched| ==>
          w.dispatched[i].invocation.id != w.dispatched[j].invocation.id)
  }

  /** The completion of the attempt is exactly what a worker had in hand for that call. */
  predicate HandedFor(d: Handover, scope: Scope, a: Attempt) {
    && d.scope == scope && d.invocation == a.invocation && a.completion.Some?
    && a.completion.value.invocationId == a.invocation.id
    && a.completion.value.receipt == d.receipt && a.completion.value.output == d.output
    && a.completion.value.stop == d.stop
  }

  predicate HasSource(w: World, scope: Scope, a: Attempt) {
    a in w.foreign || exists d :: d in w.delivered && HandedFor(d, scope, a)
  }

  /** Every completion of a ledger has a source. */
  predicate LedgerSourced(w: World, scope: Scope, attempts: seq<Attempt>) {
    forall i :: 0 <= i < |attempts| && attempts[i].completion.Some? ==> HasSource(w, scope, attempts[i])
  }

  predicate Sourced(w: World) {
    forall scope :: scope in w.db.sessions ==> LedgerSourced(w, scope, w.db.sessions[scope].document.attempts)
  }

  predicate WorkersSound(h: Digests, w: World) {
    forall worker :: worker in w.workers ==> WorkerSound(h, w, worker)
  }

  predicate WorldSound(h: Digests, w: World) {
    WorkersSound(h, w) && HoldersDistinct(h, w) && LogSound(w) && Sourced(w)
  }

  // Store facts.

  lemma ProposalFresh(h: Digests, current: Session, observed: Artifact, now: Moment, id: Identifier,
                      reservation: Reservation, later: Moment)
    requires Proposal(h, current, observed, now, id, reservation, later).Ok?
    ensures FreshReservation(h, Proposal(h, current, observed, now, id, reservation, later).value)
    ensures Follows(h, current, Proposal(h, current, observed, now, id, reservation, later).value)
  {
    var repair := Evaluate(h, current, observed, now).value.status == NeedsRepairStatus;
    ReserveValid(h, current, id, if repair then Repair else Review,
                 if repair then current.seed.originalDoer else current.seed.reviewers[0], reservation, later);
  }

  /** A pending session can only be followed by the settlement of its own call. */
  lemma PendingOnlySettles(h: Digests, s: Session, t: Session, kind: Transition)
    requires FreshReservation(h, s) && t != s
    requires ValidateExtension(h, Some(s), t) == Ok(kind)
    ensures kind == CompletedCall && Completed(t, PendingOf(s).value)
  {
    ExtensionShape(h, Some(s), t);
    assert t.attempts[|t.attempts| - 1] in t.attempts;
  }

  /** A pending valid session is a fresh reservation. */
  lemma PendingFresh(h: Digests, s: Session)
    requires ValidSession(h, s) && PendingOf(s).Some?
    ensures FreshReservation(h, s)
  {
    SessionAccounting(h, s);
  }

  lemma ShapeKeepsCompleted(s: Session, t: Session, kind: Transition, inv: Invocation)
    requires Shape(Some(s), t, kind) && Completed(s, inv)
    requires kind == CompletedCall ==> s.attempts[|s.attempts| - 1].completion.None?
    ensures Completed(t, inv)
  {
    var a :| a in s.attempts && a.invocation == inv && a.completion.Some?;
    var i :| 0 <= i < |s.attempts| && s.attempts[i] == a;
    if kind == ReservedCall {
      assert t.attempts[i] == t.attempts[..|s.attempts|][i] == a;
    } else if kind == CompletedCall {
      assert t.attempts[i] == t.attempts[..|t.attempts| - 1][i] == a;
    }
  }

  /** A recorded completion stays recorded. */
  lemma ExtensionKeepsCompleted(h: Digests, s: Session, t: Session, inv: Invocation)
    requires ValidateExtension(h, Some(s), t).Ok? && Completed(s, inv)
    ensures Completed(t, inv)
  {
    ExtensionShape(h, Some(s), t);
    ExtensionValid(h, s, t);
    if PendingOf(s).Some? {
      PendingFresh(h, s);
    }
    ShapeKeepsCompleted(s, t, ValidateExtension(h, Some(s), t).value, inv);
  }

  lemma ExtensionValid(h: Digests, s: Session, t: Session)
    requires ValidateExtension(h, Some(s), t).Ok?
    ensures ValidSession(h, s) && ValidSession(h, t)
  {
  }

  lemma CurrentAfter(h: Digests, db: Tables, r: Request, scope: Scope)
    ensures var after := Execute(h, db, r);
            CurrentOf(after.0, scope) == if r.CommitRequest? && r.scope == scope && after.1 == Committed
                                         then Some(r.updated) else CurrentOf(db, scope)
  {
  }

  lemma CommittedExtends(h: Digests, db: Tables, r: Request)
    requires r.CommitRequest? && Execute(h, db, r).1 == Committed
    ensures CurrentOf(db, r.scope) != Some(r.updated) && r.updated.seed.scope == r.scope
    ensures ValidateExtension(h, CurrentOf(db, r.scope), r.updated).Ok?
    ensures !Collides(db, ValidateExtension(h, CurrentOf(db, r.scope), r.updated).value, r.updated)
    ensures Execute(h, db, r).0.events
            == db.events[r.scope := EventsOf(db, r.scope)
                 + [NextEvent(h, db, r.grant, r.scope, r.updated,
                              ValidateExtension(h, CurrentOf(db, r.scope), r.updated).value)]]
  {
  }

  lemma SettledStays(h: Digests, db: Tables, r: Request, scope: Scope, inv: Invocation)
    requires SettledIn(db, scope, inv)
    ensures SettledIn(Execute(h, db, r).0, scope, inv)
  {
    CurrentAfter(h, db, r, scope);
    if Commits(h, db, r, scope) {
      CommittedExtends(h, db, r);
      ExtensionKeepsCompleted(h, CurrentOf(db, scope).value, r.updated, inv);
    }
  }

  lemma EventsAfter(h: Digests, db: Tables, r: Request, scope: Scope)
    requires !Commits(h, db, r, scope)
    ensures EventsOf(Execute(h, db, r).0, scope) == EventsOf(db, scope)
  {
  }

  /** A request leaves a pending session and its events alone, or settles exactly its call. */
  lemma RequestOnHeld(h: Digests, db: Tables, r: Request, scope: Scope, s: Session, rows: seq<EventRow>)
    requires FreshReservation(h, s) && Stands(db, scope, s, rows)
    ensures Stands(Execute(h, db, r).0, scope, s, rows)
  {
    CurrentAfter(h, db, r, scope);
    if SettledIn(db, scope, PendingOf(s).value) {
      SettledStays(h, db, r, scope, PendingOf(s).value);
    } else if Commits(h, db, r, scope) {
      CommittedExtends(h, db, r);
      PendingOnlySettles(h, s, r.updated, ValidateExtension(h, Some(s), r.updated).value);
    } else {
      EventsAfter(h, db, r, scope);
    }
  }

  lemma CallStays(h: Digests, db: Tables, r: Request, d: Dispatch)
    requires CallStands(db, d)
    ensures CallStands(Execute(h, db, r).0, d)
  {
    if SettledIn(db, d.scope, d.invocation) {
      SettledStays(h, db, r, d.scope, d.invocation);
    } else {
      CurrentAfter(h, db, r, d.scope);
      if Commits(h, db, r, d.scope) {
        var s := CurrentOf(db, d.scope).value;
        CommittedExtends(h, db, r);
        ExtensionValid(h, s, r.updated);
        PendingFresh(h, s);
        PendingOnlySettles(h, s, r.updated, ValidateExtension(h, Some(s), r.updated).value);
      }
    }
  }

  lemma UsedAppends(before: Tables, after: Tables, id: Identifier)
    requires Appends(before, after) && InvocationUsed(before, id)
    ensures InvocationUsed(after, id)
  {
    var scope :| scope in before.events && exists row :: row in before.events[scope] && row.invocationId == Some(id);
    var row :| row in before.events[scope] && row.invocationId == Some(id);
    var i :| 0 <= i < |before.events[scope]| && before.events[scope][i] == row;
    assert after.events[scope][i] == row;
  }

  /** Winning the swap for a fresh reservation books an identifier nobody used before. */
  lemma WinBooks(h: Digests, db: Tables, r: Request)
    requires r.CommitRequest? && Execute(h, db, r).1 == Committed && FreshReservation(h, r.updated)
    ensures !InvocationUsed(db, HeldId(r.updated))
    ensures InvocationUsed(Execute(h, db, r).0, HeldId(r.updated))
    ensures CurrentOf(Execute(h, db, r).0, r.updated.seed.scope) == Some(r.updated)
  {
    CommittedExtends(h, db, r);
    CurrentAfter(h, db, r, r.scope);
    var kind := ValidateExtension(h, CurrentOf(db, r.scope), r.updated).value;
    FreshIsReserved(h, CurrentOf(db, r.scope), r.updated, kind);
    var event := NextEvent(h, db, r.grant, r.scope, r.updated, kind);
    var rows := Execute(h, db, r).0.events[r.scope];
    assert rows[|rows| - 1] == event && event.invocationId == Some(HeldId(r.updated));
  }

  lemma FreshIsReserved(h: Digests, current: Option<Session>, t: Session, kind: Transition)
    requires FreshReservation(h, t) && current != Some(t) && ValidateExtension(h, current, t) == Ok(kind)
    ensures kind == ReservedCall
  {
    ExtensionShape(h, current, t);
  }

  // Sources.

  lemma SourceStays(w: World, v: World, scope: Scope, a: Attempt)
    requires HasSource(w, scope, a)
    requires w.delivered <= v.delivered && w.foreign <= v.foreign
    ensures HasSource(v, scope, a)
  {
    if a in w.foreign {
      var i :| 0 <= i < |w.foreign| && w.foreign[i] == a;
      assert v.foreign[i] == a;
    } else {
      var d :| d in w.delivered && HandedFor(d, scope, a);
      var i :| 0 <= i < |w.delivered| && w.delivered[i] == d;
      assert v.delivered[i] == d;
    }
  }

  lemma LedgerStays(w: World, v: World, scope: Scope, attempts: seq<Attempt>)
    requires LedgerSourced(w, scope, attempts)
    requires w.delivered <= v.delivered && w.foreign <= v.foreign
    ensures LedgerSourced(v, scope, attempts)
  {
    forall i | 0 <= i < |attempts| && attempts[i].completion.Some? ensures HasSource(v, scope, attempts[i]) {
      SourceStays(w, v, scope, attempts[i]);
    }
  }

  /** A successor brings at most one new completion, its last. */
  lemma SuccessorSourced(w: World, scope: Scope, current: Option<Session>, t: Session, kind: Transition)
    requires Shape(current, t, kind)
    requires current.Some? ==> LedgerSourced(w, scope, current.value.attempts)
    requires t.attempts != [] && t.attempts[|t.attempts| - 1].completion.Some? ==>
               HasSource(w, scope, t.attempts[|t.attempts| - 1])
    ensures LedgerSourced(w, scope, t.attempts)
  {
    forall i | 0 <= i < |t.attempts| && t.attempts[i].completion.Some? ensures HasSource(w, scope, t.attempts[i]) {
      if i < |t.attempts| - 1 {
        assert t.attempts[i] == t.attempts[..|t.attempts| - 1][i];
        if kind != Unchanged {
          assert t.attempts[i] == current.value.attempts[i];
        }
      }
    }
  }

  lemma RequestSourced(h: Digests, w: World, v: World, r: Request)
    requires Sourced(w) && v.db == Execute(h, w.db, r).0
    requires w.delivered <= v.delivered && w.foreign <= v.foreign
    requires forall a :: a in Brought(h, w.db, r) ==> HasSource(v, r.scope, a)
    ensures Sourced(v)
  {
    forall scope | scope in v.db.sessions ensures LedgerSourced(v, scope, v.db.sessions[scope].document.attempts) {
      var current := CurrentOf(w.db, scope);
      if current.Some? {
        LedgerStays(w, v, scope, current.value.attempts);
      }
      CurrentAfter(h, w.db, r, scope);
      if Commits(h, w.db, r, scope) {
        CommittedExtends(h, w.db, r);
        ExtensionShape(h, current, r.updated);
        SuccessorSourced(v, scope, current, r.updated, ValidateExtension(h, current, r.updated).value);
      }
    }
  }

  lemma UnmovedSourced(w: World, v: World)
    requires Sourced(w) && v.db == w.db && w.delivered <= v.delivered && w.foreign <= v.foreign
    ensures Sourced(v)
  {
    forall scope | scope in v.db.sessions ensures LedgerSourced(v, scope, v.db.sessions[scope].document.attempts) {
      LedgerStays(w, v, scope, v.db.sessions[scope].document.attempts);
    }
  }

  // Frames.

  lemma HeldFrame(h: Digests, w: World, v: World, r: Request, s: Session)
    requires HeldSound(h, w, s) && v.db == Execute(h, w.db, r).0
    ensures HeldSound(h, v, s)
  {
    ExecuteAppends(h, w.db, r);
    UsedAppends(w.db, v.db, HeldId(s));
    RequestOnHeld(h, w.db, r, s.seed.scope, s, EventsOf(w.db, s.seed.scope));
  }

  lemma LogFrame(h: Digests, w: World, v: World, r: Request)
    requires LogSound(w) && v.dispatched == w.dispatched && v.db == Execute(h, w.db, r).0
    ensures LogSound(v)
  {
    ExecuteAppends(h, w.db, r);
    forall i | 0 <= i < |v.dispatched|
      ensures InvocationUsed(v.db, v.dispatched[i].invocation.id) && CallStands(v.db, v.dispatched[i])
    {
      UsedAppends(w.db, v.db, w.dispatched[i].invocation.id);
      CallStays(h, w.db, r, w.dispatched[i]);
    }
  }

  /** A worker whose phase does not change stays sound whatever anyone commits. */
  lemma WorkerFrame(h: Digests, w: World, v: World, r: Request, worker: nat)
    requires WorkerSound(h, w, worker) && PhaseOf(v, worker) == PhaseOf(w, worker)
    requires v.dispatched == w.dispatched && v.delivered == w.delivered && v.db == Execute(h, w.db, r).0
    ensures WorkerSound(h, v, worker)
  {
    var p := PhaseOf(w, worker);
    if Holds(p) {
      HeldFrame(h, w, v, r, p.held);
    }
  }

  lemma RequestConsistent(h: Digests, db: Tables, r: Request)
    requires Consistent(h, db)
    ensures Consistent(h, Execute(h, db, r).0) && Appends(db, Execute(h, db, r).0)
  {
    ExecuteAppends(h, db, r);
    match r {
      case ProvisionRequest(parent) => ProvisionConsistent(h, db, parent);
      case RegisterRequest(seed, parentId) => RegisterConsistent(h, db, seed, parentId);
      case CommitRequest(grant, scope, expected, updated, parentId, now) =>
        CommitConsistent(h, db, grant, scope, expected, updated, parentId, now);
    }
  }

  // Steps.

  lemma OtherSound(h: Digests, w: World, r: Request)
    requires WorldSound(h, w)
    ensures WorldSound(h, Act(h, w, OtherClient(r)))
  {
    var v := Act(h, w, OtherClient(r));
    LogFrame(h, w, v, r);
    forall a | a in Brought(h, w.db, r) ensures HasSource(v, r.scope, a) {
      assert v.foreign[|v.foreign| - 1] == a;
    }
    RequestSourced(h, w, v, r);
    forall worker | worker in v.workers ensures WorkerSound(h, v, worker) {
      assert WorkerSound(h, w, worker);
      WorkerFrame(h, w, v, r, worker);
    }
  }

  lemma NotLogged(w: World, id: Identifier)
    requires LogSound(w) && !InvocationUsed(w.db, id)
    ensures !Logged(w, id)
  {
    forall d | d in w.dispatched ensures d.invocation.id != id {
      var i :| 0 <= i < |w.dispatched| && w.dispatched[i] == d;
      assert InvocationUsed(w.db, w.dispatched[i].invocation.id);
    }
  }

  lemma SwapSound(h: Digests, w: World, worker: nat, grant: Grant, parentId: Identifier, now: Moment)
    requires WorldSound(h, w)
    ensures WorldSound(h, Act(h, w, Swap(worker, grant, parentId, now)))
  {
    var v, p := Act(h, w, Swap(worker, grant, parentId, now)), PhaseOf(w, worker);
    if p.Proposing? {
      assert WorkerSound(h, w, worker);
      SwappedSound(h, w, v, worker, Committing(h, p.current, p.proposal, grant, parentId, now));
    }
  }

  lemma SwappedSound(h: Digests, w: World, v: World, worker: nat, r: Request)
    requires WorldSound(h, w)
    requires r.CommitRequest? && FreshReservation(h, r.updated)
    requires v == w.(db := Execute(h, w.db, r).0,
                     workers := w.workers[worker := if Execute(h, w.db, r).1 == Committed
                                                    then Won(r.updated) else Idle])
    ensures WorldSound(h, v)
  {
    LogFrame(h, w, v, r);
    RequestSourced(h, w, v, r);
    SwapDistinct(h, w, v, r, worker);
    forall x | x in v.workers ensures WorkerSound(h, v, x) {
      if x != worker {
        assert WorkerSound(h, w, x);
        WorkerFrame(h, w, v, r, x);
      } else if v.workers[x].Won? {
        WinBooks(h, w.db, r);
        NotLogged(w, HeldId(r.updated));
      }
    }
  }

  lemma SwapDistinct(h: Digests, w: World, v: World, r: Request, worker: nat)
    requires WorkersSound(h, w) && HoldersDistinct(h, w)
    requires r.CommitRequest? && FreshReservation(h, r.updated) && v.db == Execute(h, w.db, r).0
    requires v.workers == w.workers[worker := if Execute(h, w.db, r).1 == Committed then Won(r.updated) else Idle]
    ensures HoldersDistinct(h, v)
  {
    if Execute(h, w.db, r).1 == Committed {
      WinBooks(h, w.db, r);
      forall x | x in w.workers && x != worker && Holds(w.workers[x])
        ensures PendingOf(w.workers[x].held).Some? && HeldId(w.workers[x].held) != HeldId(r.updated)
      {
        assert WorkerSound(h, w, x);
      }
    }
  }

  /** What the settlement of a held call records: the call, and exactly what the worker had in hand. */
  lemma SettlementIs(h: Digests, held: Session, p: Phase, finished: Moment)
    requires FreshReservation(h, held) && p.Returned? && Settlement(h, held, p, finished).Ok?
    ensures var t := Settlement(h, held, p, finished).value;
            && t.seed == held.seed && t.attempts != []
            && t.attempts[|t.attempts| - 1]
               == Attempt(PendingOf(held).value,
                          Some(Completion(HeldId(held), finished, p.receipt, p.output, p.stop)))
  {
    FoundCompleted(h, held, |held.attempts| - 1);
    CompleteOpen(h, held, HeldId(held), p.receipt, p.output, finished, p.stop);
  }

  /** Whatever a worker delivers, it drops its call, and every other call stands or is settled. */
  lemma LandSound(h: Digests, w: World, worker: nat, held: Session, done: Outcome<Session>, grant: Grant,
                  parentId: Identifier, now: Moment)
    requires WorldSound(h, w)
    requires LastSourced(w, done)
    ensures WorldSound(h, Land(h, w, worker, held, done, grant, parentId, now))
  {
    if done.Ok? {
      IdledSound(h, w, Land(h, w, worker, held, done, grant, parentId, now), worker,
                 Committing(h, held, done.value, grant, parentId, now));
    }
  }

  lemma HandedSource(w: World, held: Session, p: Phase, finished: Moment)
    requires p.Returned? && PendingOf(held).Some? && HandoverOf(held, p.receipt, p.output, p.stop) in w.delivered
    ensures HasSource(w, held.seed.scope,
                      Attempt(PendingOf(held).value,
                              Some(Completion(HeldId(held), finished, p.receipt, p.output, p.stop))))
  {
    var d := HandoverOf(held, p.receipt, p.output, p.stop);
    assert HandedFor(d, held.seed.scope,
                     Attempt(PendingOf(held).value,
                             Some(Completion(HeldId(held), finished, p.receipt, p.output, p.stop))));
  }

  lemma HolderFacts(h: Digests, w: World, worker: nat)
    requires WorkersSound(h, w) && PhaseOf(w, worker).Returned?
    ensures var p := PhaseOf(w, worker);
            FreshReservation(h, p.held) && HandoverOf(p.held, p.receipt, p.output, p.stop) in w.delivered
  {
    assert WorkerSound(h, w, worker);
  }

  /** The last completion of a delivered session has a source. */
  predicate LastSourced(w: World, done: Outcome<Session>) {
    done.Ok? && done.value.attempts != [] && done.value.attempts[|done.value.attempts| - 1].completion.Some? ==>
      HasSource(w, done.value.seed.scope, done.value.attempts[|done.value.attempts| - 1])
  }

  lemma SettlementSourced(h: Digests, w: World, worker: nat, p: Phase, finished: Moment)
    requires WorkersSound(h, w) && p == PhaseOf(w, worker) && p.Returned?
    ensures LastSourced(w, Settlement(h, p.held, p, finished))
  {
    HolderFacts(h, w, worker);
    HandedSource(w, p.held, p, finished);
    if Settlement(h, p.held, p, finished).Ok? {
      SettlementIs(h, p.held, p, finished);
    }
  }

  lemma SettleSound(h: Digests, w: World, worker: nat, grant: Grant, parentId: Identifier, finished: Moment,
                    now: Moment)
    requires WorldSound(h, w)
    ensures WorldSound(h, Act(h, w, Settle(worker, grant, parentId, finished, now)))
  {
    var p := PhaseOf(w, worker);
    if p.Returned? {
      SettlementSourced(h, w, worker, p, finished);
      LandSound(h, w, worker, p.held, Settlement(h, p.held, p, finished), grant, parentId, now);
    }
  }

  lemma IdledSound(h: Digests, w: World, v: World, worker: nat, r: Request)
    requires WorldSound(h, w)
    requires v == w.(db := Execute(h, w.db, r).0, workers := w.workers[worker := Idle])
    requires forall a :: a in Brought(h, w.db, r) ==> HasSource(w, r.scope, a)
    ensures WorldSound(h, v)
  {
    LogFrame(h, w, v, r);
    forall a | a in Brought(h, w.db, r) ensures HasSource(v, r.scope, a) {
      SourceStays(w, v, r.scope, a);
    }
    RequestSourced(h, w, v, r);
    forall x | x in v.workers ensures WorkerSound(h, v, x) {
      if x != worker {
        assert WorkerSound(h, w, x);
        WorkerFrame(h, w, v, r, x);
      }
    }
  }

  lemma CallSound(h: Digests, w: World, worker: nat)
    requires WorldSound(h, w)
    ensures WorldSound(h, Act(h, w, Call(worker)))
  {
    var p := PhaseOf(w, worker);
    if p.Won? && PendingOf(p.held).Some? {
      assert WorkerSound(h, w, worker);
      CalledSound(h, w, Act(h, w, Call(worker)), worker, p.held);
    }
  }

  lemma CalledSound(h: Digests, w: World, v: World, worker: nat, held: Session)
    requires WorldSound(h, w) && worker in w.workers && w.workers[worker] == Won(held) && PendingOf(held).Some?
    requires v == w.(dispatched := w.dispatched + [Dispatch(held.seed.scope, PendingOf(held).value)],
                     workers := w.workers[worker := Executing(held)])
    ensures WorldSound(h, v)
  {
    assert WorkerSound(h, w, worker);
    forall x | x in v.workers ensures WorkerSound(h, v, x) {
      CalledWorker(h, w, v, worker, held, x);
    }
    CalledLog(w, v, Dispatch(held.seed.scope, PendingOf(held).value));
    UnmovedSourced(w, v);
  }

  lemma CalledWorker(h: Digests, w: World, v: World, worker: nat, held: Session, x: nat)
    requires WorkersSound(h, w) && HoldersDistinct(h, w) && x in w.workers
    requires worker in w.workers && w.workers[worker] == Won(held) && PendingOf(held).Some?
    requires v == w.(dispatched := w.dispatched + [Dispatch(held.seed.scope, PendingOf(held).value)],
                     workers := w.workers[worker := Executing(held)])
    ensures WorkerSound(h, v, x)
  {
    assert WorkerSound(h, w, x);
  }

  lemma CalledLog(w: World, v: World, d: Dispatch)
    requires LogSound(w) && InvocationUsed(w.db, d.invocation.id) && !Logged(w, d.invocation.id)
    requires CallStands(w.db, d)
    requires v.db == w.db && v.dispatched == w.dispatched + [d]
    ensures LogSound(v)
  {
    forall i | 0 <= i < |w.dispatched| ensures w.dispatched[i].invocation.id != d.invocation.id {
      assert w.dispatched[i] in w.dispatched;
    }
  }

  /** A worker that changes phase on its own keeps its call or drops it. */
  lemma EnterSound(h: Digests, w: World, worker: nat, phase: Phase)
    requires WorldSound(h, w)
    requires phase.Proposing? ==> FreshReservation(h, phase.proposal) && Follows(h, phase.current, phase.proposal)
    requires !Holds(phase)
    ensures WorldSound(h, Enter(w, worker, phase))
  {
    var v := Enter(w, worker, phase);
    UnmovedSourced(w, v);
    forall x | x in v.workers ensures WorkerSound(h, v, x) {
      assert x in w.workers ==> WorkerSound(h, w, x);
    }
  }

  lemma HandSound(h: Digests, w: World, worker: nat, held: Session, receipt: Option<Receipt>,
                  output: Option<Output>, stop: Option<ExecutionStop>)
    requires WorldSound(h, w)
    requires Holds(PhaseOf(w, worker)) && PhaseOf(w, worker).held == held
    ensures WorldSound(h, Hand(w, worker, held, receipt, output, stop))
  {
    var v := Hand(w, worker, held, receipt, output, stop);
    assert WorkerSound(h, w, worker);
    UnmovedSourced(w, v);
    HandDistinct(h, w, v, worker);
    forall x | x in v.workers ensures WorkerSound(h, v, x) {
      HandWorker(h, w, worker, held, receipt, output, stop, x);
    }
  }

  lemma HandDistinct(h: Digests, w: World, v: World, worker: nat)
    requires HoldersDistinct(h, w) && worker in w.workers && Holds(w.workers[worker])
    requires v.workers.Keys == w.workers.Keys
    requires forall x :: x in w.workers && x != worker ==> v.workers[x] == w.workers[x]
    requires Holds(v.workers[worker]) ==> v.workers[worker].held == w.workers[worker].held
    ensures HoldersDistinct(h, v)
  {
  }

  lemma HandWorker(h: Digests, w: World, worker: nat, held: Session, receipt: Option<Receipt>,
                   output: Option<Output>, stop: Option<ExecutionStop>, x: nat)
    requires WorkersSound(h, w) && x in w.workers && worker in w.workers
    requires Holds(w.workers[worker]) && w.workers[worker].held == held && PendingOf(held).Some?
    ensures WorkerSound(h, Hand(w, worker, held, receipt, output, stop), x)
  {
    var v := Hand(w, worker, held, receipt, output, stop);
    assert WorkerSound(h, w, x);
    assert v.delivered[|w.delivered|] == HandoverOf(held, receipt, output, stop);
    if x != worker && w.workers[x].Returned? {
      var d := HandoverOf(w.workers[x].held, w.workers[x].receipt, w.workers[x].output, w.workers[x].stop);
      var i :| 0 <= i < |w.delivered| && w.delivered[i] == d;
      assert v.delivered[i] == d;
    }
  }

  lemma LocalSound(h: Digests, w: World, a: Action)
    requires WorldSound(h, w)
    requires a.Propose? || a.StopBefore? || a.Return? || a.Crash?
    ensures WorldSound(h, Act(h, w, a))
  {
    match a {
      case StopBefore(worker, because) =>
        if PhaseOf(w, worker).Won? {
          HandSound(h, w, worker, PhaseOf(w, worker).held, None, None, Some(because));
        }
      case Return(worker, receipt, output, stop) =>
        if PhaseOf(w, worker).Executing? {
          HandSound(h, w, worker, PhaseOf(w, worker).held, receipt, output, stop);
        }
      case Crash(worker) => EnterSound(h, w, worker, Idle);
      case Propose(worker, grant, scope, observed, now, id, reservation, later) =>
        if Act(h, w, a) != w {
          var current := Load(h, w.db, grant, scope).value.value;
          ProposalFresh(h, current, observed, now, id, reservation, later);
          EnterSound(h, w, worker, Act(h, w, a).workers[worker]);
        }
    }
  }

  /** In every execution of any number of workers, with crashes anywhere and any other clients. */
  lemma {:induction false} EveryPlaySound(h: Digests, actions: seq<Action>)
    ensures WorldSound(h, Play(h, actions))
  {
    if actions != [] {
      var w, a := Play(h, actions[..|actions| - 1]), actions[|actions| - 1];
      EveryPlaySound(h, actions[..|actions| - 1]);
      match a {
        case Swap(worker, grant, parentId, now) => SwapSound(h, w, worker, grant, parentId, now);
        case Settle(worker, grant, parentId, finished, now) =>
          SettleSound(h, w, worker, grant, parentId, finished, now);
        case Call(worker) => CallSound(h, w, worker);
        case OtherClient(request) => OtherSound(h, w, request);
        case _ => LocalSound(h, w, a);
      }
    }
  }

  /** What an action asks of the store, if anything. */
  function RequestOf(h: Digests, w: World, a: Action): Option<Request> {
    match a
    case OtherClient(request) => Some(request)
    case Swap(worker, grant, parentId, now) =>
      var p := PhaseOf(w, worker);
      if !p.Proposing? then None else Some(Committing(h, p.current, p.proposal, grant, parentId, now))
    case Settle(worker, grant, parentId, finished, now) =>
      var p := PhaseOf(w, worker);
      if !p.Returned? then None
      else Delivering(h, p.held, Settlement(h, p.held, p, finished), grant, parentId, now)
    case _ => None
  }

  function Delivering(h: Digests, held: Session, done: Outcome<Session>, grant: Grant, parentId: Identifier,
                      now: Moment): Option<Request>
  {
    if done.Err? then None else Some(Committing(h, held, done.value, grant, parentId, now))
  }

  lemma ActAsks(h: Digests, w: World, a: Action)
    ensures var r := RequestOf(h, w, a);
            Act(h, w, a).db == if r.None? then w.db else Execute(h, w.db, r.value).0
  {
  }

  lemma ActConsistent(h: Digests, w: World, a: Action)
    requires Consistent(h, w.db)
    ensures Consistent(h, Act(h, w, a).db)
  {
    ActAsks(h, w, a);
    if RequestOf(h, w, a).Some? {
      RequestConsistent(h, w.db, RequestOf(h, w, a).value);
    }
  }

  /** The store invariants hold throughout as well. */
  lemma {:induction false} EveryPlayConsistent(h: Digests, actions: seq<Action>)
    ensures Consistent(h, Play(h, actions).db)
  {
    if actions == [] {
      EveryRunConsistent(h, []);
    } else {
      EveryPlayConsistent(h, actions[..|actions| - 1]);
      ActConsistent(h, Play(h, actions[..|actions| - 1]), actions[|actions| - 1]);
    }
  }

  /** Each invocation is executed at most once. */
  lemma AtMostOnce(h: Digests, actions: seq<Action>, i: nat, j: nat)
    requires i < j < |Play(h, actions).dispatched|
    ensures Play(h, actions).dispatched[i].invocation.id != Play(h, actions).dispatched[j].invocation.id
  {
    EveryPlaySound(h, actions);
  }

  /** A worker about to execute holds a durably reserved call that was never executed; it is the
      committed pending state, or the committed ledger already records its completion. */
  lemma DispatchAfterCommit(h: Digests, actions: seq<Action>, worker: nat)
    requires PhaseOf(Play(h, actions), worker).Won?
    ensures var w := Play(h, actions);
            var held := PhaseOf(w, worker).held;
            && PendingOf(held).Some? && InvocationUsed(w.db, HeldId(held)) && !Logged(w, HeldId(held))
            && (CurrentOf(w.db, held.seed.scope) == Some(held)
                || SettledIn(w.db, held.seed.scope, PendingOf(held).value))
  {
    EveryPlaySound(h, actions);
    assert WorkerSound(h, Play(h, actions), worker);
  }

  /** No executed call is ever lost: it is the committed pending call of its scope, or the committed
      ledger of the scope records its completion. */
  lemma EveryCallStands(h: Digests, actions: seq<Action>, i: nat)
    requires i < |Play(h, actions).dispatched|
    ensures CallStands(Play(h, actions).db, Play(h, actions).dispatched[i])
  {
    EveryPlaySound(h, actions);
  }

  /** Of two executed calls of one scope at least one has its completion in the committed ledger. */
  lemma OneUnsettled(h: Digests, actions: seq<Action>, i: nat, j: nat)
    requires i < j < |Play(h, actions).dispatched|
    requires Play(h, actions).dispatched[i].scope == Play(h, actions).dispatched[j].scope
    ensures var w := Play(h, actions);
            || SettledIn(w.db, w.dispatched[i].scope, w.dispatched[i].invocation)
            || SettledIn(w.db, w.dispatched[j].scope, w.dispatched[j].invocation)
  {
    AtMostOnce(h, actions, i, j);
    EveryCallStands(h, actions, i);
    EveryCallStands(h, actions, j);
  }

  lemma CommittedFresh(h: Digests, actions: seq<Action>, scope: Scope, s: Session)
    requires CurrentOf(Play(h, actions).db, scope) == Some(s) && PendingOf(s).Some?
    ensures FreshReservation(h, s)
  {
    EveryPlayConsistent(h, actions);
    ConsistentRow(h, Play(h, actions).db, scope);
    PendingFresh(h, s);
  }

  lemma ActStands(h: Digests, w: World, a: Action, scope: Scope, s: Session, rows: seq<EventRow>)
    requires FreshReservation(h, s) && Stands(w.db, scope, s, rows)
    ensures Stands(Act(h, w, a).db, scope, s, rows)
  {
    ActAsks(h, w, a);
    if RequestOf(h, w, a).Some? {
      RequestOnHeld(h, w.db, RequestOf(h, w, a).value, scope, s, rows);
    }
  }

  /** Once a call is the committed pending call of a scope, then after any longer play of any workers
      and clients either that session is still the committed one and not a single event has been
      appended to the scope, or the committed ledger records the completion of that very call. */
  lemma {:induction false} NeverResubmitted(h: Digests, actions: seq<Action>, k: nat, scope: Scope, s: Session)
    requires k <= |actions|
    requires CurrentOf(Play(h, actions[..k]).db, scope) == Some(s) && PendingOf(s).Some?
    ensures Stands(Play(h, actions).db, scope, s, EventsOf(Play(h, actions[..k]).db, scope))
  {
    CommittedFresh(h, actions[..k], scope, s);
    if k == |actions| {
      assert actions[..k] == actions;
    } else {
      var before := actions[..|actions| - 1];
      assert before[..k] == actions[..k];
      NeverResubmitted(h, before, k, scope, s);
      ActStands(h, Play(h, before), actions[|actions| - 1], scope, s, EventsOf(Play(h, actions[..k]).db, scope));
    }
  }

  // What the ledgers record.

  /** In every play, each completion that a committed ledger records for a call is exactly the receipt,
      output and stop that a worker had in hand for that call, or was committed by another client. */
  lemma EveryCompletionDelivered(h: Digests, actions: seq<Action>, scope: Scope, a: Attempt)
    requires CurrentOf(Play(h, actions).db, scope).Some?
    requires a in CurrentOf(Play(h, actions).db, scope).value.attempts && a.completion.Some?
    ensures var w := Play(h, actions);
            || a in w.foreign
            || exists d :: d in w.delivered && d.scope == scope && d.invocation == a.invocation
                        && a.completion.value.invocationId == a.invocation.id
                        && a.completion.value.receipt == d.receipt
                        && a.completion.value.output == d.output
                        && a.completion.value.stop == d.stop
  {
    EveryPlaySound(h, actions);
    var w := Play(h, actions);
    var attempts := w.db.sessions[scope].document.attempts;
    assert LedgerSourced(w, scope, attempts);
    var i :| 0 <= i < |attempts| && attempts[i] == a;
    if a !in w.foreign {
      var d :| d in w.delivered && HandedFor(d, scope, a);
    }
  }

  /** The action puts the handover into the hands of a worker: the executor returned it for the call
      the worker was executing, or the worker stopped before calling, without receipt or output. */
  predicate Hands(w: World, a: Action, d: Handover) {
    match a
    case Return(worker, receipt, output, stop) =>
      && PhaseOf(w, worker).Executing?
      && var held := PhaseOf(w, worker).held;
         && PendingOf(held) == Some(d.invocation) && held.seed.scope == d.scope
         && d.receipt == receipt && d.output == output && d.stop == stop
    case StopBefore(worker, because) =>
      && PhaseOf(w, worker).Won?
      && var held := PhaseOf(w, worker).held;
         && PendingOf(held) == Some(d.invocation) && held.seed.scope == d.scope
         && d.receipt == None && d.output == None && d.stop == Some(because)
    case _ => false
  }

  /** Every handover of a play comes from one of its actions, with that action's own contents. */
  lemma {:induction false} EveryHandoverActed(h: Digests, actions: seq<Action>, d: Handover)
    requires d in Play(h, actions).delivered
    ensures exists k :: 0 <= k < |actions| && Hands(Play(h, actions[..k]), actions[k], d)
  {
    var n := |actions| - 1;
    var w := Play(h, actions[..n]);
    if d in w.delivered {
      EveryHandoverActed(h, actions[..n], d);
      var k :| 0 <= k < n && Hands(Play(h, actions[..n][..k]), actions[..n][k], d);
      assert actions[..n][..k] == actions[..k] && actions[..n][k] == actions[k];
    } else {
      NewHandover(h, w, actions[n], d);
    }
  }

  lemma NewHandover(h: Digests, w: World, a: Action, d: Handover)
    requires d in Act(h, w, a).delivered && d !in w.delivered
    ensures Hands(w, a, d)
  {
  }

  /** A worker's winning settlement makes its call's completion, with the time of delivery and exactly
      what the worker had in hand, the last entry of the committed ledger. */
  lemma SettlementRecorded(h: Digests, actions: seq<Action>, worker: nat, grant: Grant, parentId: Identifier,
                           finished: Moment, now: Moment)
    requires PhaseOf(Play(h, actions), worker).Returned?
    requires var w := Play(h, actions);
             var r := RequestOf(h, w, Settle(worker, grant, parentId, finished, now));
             r.Some? && Execute(h, w.db, r.value).1 == Committed
    ensures var w := Play(h, actions);
            var p := PhaseOf(w, worker);
            var after := CurrentOf(Act(h, w, Settle(worker, grant, parentId, finished, now)).db, p.held.seed.scope);
            && PendingOf(p.held).Some? && after.Some? && after.value.attempts != []
            && after.value.attempts[|after.value.attempts| - 1]
               == Attempt(PendingOf(p.held).value,
                          Some(Completion(PendingOf(p.held).value.id, finished, p.receipt, p.output, p.stop)))
  {
    var w, a := Play(h, actions), Settle(worker, grant, parentId, finished, now);
    var p := PhaseOf(w, worker);
    EveryPlaySound(h, actions);
    HolderFacts(h, w, worker);
    SettlementIs(h, p.held, p, finished);
    ActAsks(h, w, a);
    CurrentAfter(h, w.db, RequestOf(h, w, a).value, p.held.seed.scope);
  }

  // What a worker proposes, and from what.

  function CallKind(status: Status): Kind {
    if status == NeedsRepairStatus then Repair else Review
  }

  function NextActor(seed: Seed, status: Status): Model
    requires seed.reviewers != []
  {
    if status == NeedsRepairStatus then seed.originalDoer else seed.reviewers[0]
  }

  lemma ProposalIs(h: Digests, current: Session, observed: Artifact, now: Moment, id: Identifier,
                   reservation: Reservation, later: Moment, status: Status)
    requires current.seed.reviewers != []
    requires Evaluate(h, current, observed, now).Ok? && Evaluate(h, current, observed, now).value.status == status
    ensures Proposal(h, current, observed, now, id, reservation, later)
         == if current.state.pending.Some? || status !in {NeedsReviewStatus, NeedsRepairStatus} then Err(ValueError)
            else ReserveInvocation(h, current, id, CallKind(status), NextActor(current.seed, status), reservation,
                                   later)
  {
  }

  /** A worker proposes a call exactly when the decision on the loaded session asks for one and nothing
      stands against it: a repair by the original doer when the decision asks for a repair, else a review
      by the first registered reviewer. */
  lemma ProposalIff(h: Digests, current: Session, observed: Artifact, now: Moment, id: Identifier,
                    reservation: Reservation, later: Moment)
    requires ValidSession(h, current) && current.seed.reviewers != []
    ensures var status := StatusFor(h, current, observed, now);
            Proposal(h, current, observed, now, id, reservation, later).Ok? <==>
              && current.state.pending.None? && status in {NeedsReviewStatus, NeedsRepairStatus}
              && Objection(h, current, id, CallKind(status), NextActor(current.seed, status), reservation,
                           later).None?
    ensures var status, a := StatusFor(h, current, observed, now), current.state.artifact;
            var proposal := Proposal(h, current, observed, now, id, reservation, later);
            proposal.Ok? ==>
              BooksCall(h, current, proposal.value,
                        Invocation(id, CallKind(status),
                                   Binding(a.scope, h.artifact(a), a.contractDigest, a.contextDigest),
                                   NextActor(current.seed, status), reservation, later))
  {
    var status := StatusFor(h, current, observed, now);
    DecisionIs(h, current, observed, now);
    ProposalIs(h, current, observed, now, id, reservation, later, status);
    ReserveIff(h, current, id, CallKind(status), NextActor(current.seed, status), reservation, later);
  }

  lemma SameLedger(h: Digests, s: Session, t: Session)
    requires ValidSession(h, s) && ValidSession(h, t) && s.seed == t.seed && s.attempts == t.attempts
    ensures s == t
  {
  }

  /** A worker wins only while the session it decided on is still the committed one. */
  lemma WinnerSawCurrent(h: Digests, actions: seq<Action>, worker: nat, grant: Grant, parentId: Identifier,
                         now: Moment)
    requires PhaseOf(Play(h, actions), worker).Proposing?
    requires var w := Play(h, actions);
             PhaseOf(Act(h, w, Swap(worker, grant, parentId, now)), worker).Won?
    ensures var w := Play(h, actions);
            var p := PhaseOf(w, worker);
            CurrentOf(w.db, p.proposal.seed.scope) == Some(p.current)
  {
    var w := Play(h, actions);
    var p := PhaseOf(w, worker);
    EveryPlaySound(h, actions);
    assert WorkerSound(h, w, worker);
    var r := Committing(h, p.current, p.proposal, grant, parentId, now);
    CommittedExtends(h, w.db, r);
    FollowsCommitted(h, CurrentOf(w.db, p.proposal.seed.scope), p.current, p.proposal);
  }

  lemma FollowsCommitted(h: Digests, committed: Option<Session>, s: Session, t: Session)
    requires Follows(h, s, t) && FreshReservation(h, t) && committed != Some(t)
    requires ValidateExtension(h, committed, t).Ok?
    ensures committed == Some(s)
  {
    ExtensionShape(h, committed, t);
    FreshIsReserved(h, committed, t, ValidateExtension(h, committed, t).value);
    ExtensionValid(h, committed.value, t);
    SeedKept(h, committed.value, t);
    SameLedger(h, s, committed.value);
  }

  lemma SeedKept(h: Digests, s: Session, t: Session)
    requires ValidateExtension(h, Some(s), t).Ok?
    ensures s.seed == t.seed
  {
  }
}
