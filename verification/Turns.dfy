/** Workflow events under advisory locks: transactions of any callers interleave statement by
    statement; item event numbers stay contiguous and a tenant's chat turns stay within the cap. */
module Turns {
  import opened Basics
  import opened Domain

  datatype ItemKey = ItemKey(tenant: Identifier, workItem: Identifier)

  datatype EventKind = Intake | Analysis | TurnReserved | TurnRecorded | GateRequested

  datatype Event = Event(kind: EventKind, actor: Identifier, payload: Digest, occurredAt: Moment)

  datatype Row = Row(key: ItemKey, sequence: int, event: Event)

  /** Advisory lock keys are hashes: arbitrary functions, so two names may collide. */
  datatype Locks = Locks(budget: Identifier -> int, item: ItemKey -> int)

  // The event table, in commit order.

  function Of(rows: seq<Row>, key: ItemKey): seq<Row> {
    if rows == [] then []
    else Of(rows[..|rows| - 1], key) + if rows[|rows| - 1].key == key then [rows[|rows| - 1]] else []
  }

  /** `max(sequence)` over the item's rows, 0 when there are none. */
  function LastSequence(rows: seq<Row>, key: ItemKey): int {
    if rows == [] then 0
    else
      var before := LastSequence(rows[..|rows| - 1], key);
      if rows[|rows| - 1].key == key then Max(before, rows[|rows| - 1].sequence) else before
  }

  function Reserved(rows: seq<Row>, tenant: Identifier): nat {
    if rows == [] then 0
    else
      var last := rows[|rows| - 1];
      Reserved(rows[..|rows| - 1], tenant)
      + if last.key.tenant == tenant && last.event.kind == TurnReserved then 1 else 0
  }

  /** Reading a trace re-checks that the rows are numbered from 1. */
  function Trace(rows: seq<Row>): Option<seq<Event>> {
    if rows == [] then Some([])
    else
      var before, row := Trace(rows[..|rows| - 1]), rows[|rows| - 1];
      if before.None? || row.sequence != |rows| then None else Some(before.value + [row.event])
  }

  // Transactions.

  /** A transaction in flight: what it waits for next. `limit` is only set on turn reservations. */
  datatype Transaction =
    | Started(key: ItemKey, event: Event, limit: Option<int>)
    | BudgetLocked(key: ItemKey, event: Event, limit: Option<int>)
    | Admitted(key: ItemKey, event: Event, limit: Option<int>)
    | ItemLocked(key: ItemKey, event: Event, limit: Option<int>)
    | Numbered(key: ItemKey, event: Event, limit: Option<int>, next: int)

  /** `memory` is the in-memory list store fed with the same committed events. */
  datatype World = World(
    owners: map<ItemKey, Identifier>, rows: seq<Row>, locks: map<int, nat>, open: map<nat, Transaction>,
    memory: map<ItemKey, seq<Event>>)

  datatype Action =
    | Create(key: ItemKey, event: Event)
    | Begin(txn: nat, key: ItemKey, event: Event, limit: Option<int>)
    | LockBudget(txn: nat)
    | Admit(txn: nat)
    | LockItem(txn: nat)
    | Number(txn: nat)
    | CommitRow(txn: nat)
    | Abort(txn: nat)

  predicate Free(w: World, lock: int, txn: nat) {
    lock !in w.locks || w.locks[lock] == txn
  }

  function Unlocked(locks: map<int, nat>, txn: nat): map<int, nat> {
    map k | k in locks && locks[k] != txn :: locks[k]
  }

  function Closed(w: World, txn: nat): World {
    w.(locks := Unlocked(w.locks, txn), open := w.open - {txn})
  }

  /** Gate requests and analyses are open to any actor of the tenant; turns only to the owner. */
  predicate Visible(owners: map<ItemKey, Identifier>, key: ItemKey, event: Event) {
    key in owners && (event.kind in {TurnReserved, TurnRecorded} ==> owners[key] == event.actor)
  }

  function Append(memory: map<ItemKey, seq<Event>>, key: ItemKey, event: Event): map<ItemKey, seq<Event>> {
    memory[key := (if key in memory then memory[key] else []) + [event]]
  }

  function Act(l: Locks, w: World, a: Action): World {
    match a
    case Create(key, event) =>
      if key in w.owners || event.kind != Intake then w
      else w.(owners := w.owners[key := event.actor], rows := w.rows + [Row(key, 1, event)],
              memory := w.memory[key := [event]])
    case Begin(txn, key, event, limit) =>
      if txn in w.open || event.kind == Intake
         || (limit.Some? && (limit.value <= 0 || event.kind != TurnReserved))
      then w
      else w.(open := w.open[txn := Started(key, event, limit)])
    case LockBudget(txn) =>
      if txn !in w.open || !w.open[txn].Started? then w
      else
        var t := w.open[txn];
        if t.limit.None? then w.(open := w.open[txn := BudgetLocked(t.key, t.event, t.limit)])
        else if !Free(w, l.budget(t.key.tenant), txn) then w
        else w.(locks := w.locks[l.budget(t.key.tenant) := txn],
                open := w.open[txn := BudgetLocked(t.key, t.event, t.limit)])
    case Admit(txn) =>
      if txn !in w.open || !w.open[txn].BudgetLocked? then w
      else
        var t := w.open[txn];
        if !Visible(w.owners, t.key, t.event) || (t.limit.Some? && Reserved(w.rows, t.key.tenant) >= t.limit.value)
        then Closed(w, txn)
        else w.(open := w.open[txn := Admitted(t.key, t.event, t.limit)])
    case LockItem(txn) =>
      if txn !in w.open || !w.open[txn].Admitted? || !Free(w, l.item(w.open[txn].key), txn) then w
      else
        var t := w.open[txn];
        w.(locks := w.locks[l.item(t.key) := txn], open := w.open[txn := ItemLocked(t.key, t.event, t.limit)])
    case Number(txn) =>
      if txn !in w.open || !w.open[txn].ItemLocked? then w
      else
        var t := w.open[txn];
        w.(open := w.open[txn := Numbered(t.key, t.event, t.limit, LastSequence(w.rows, t.key) + 1)])
    case CommitRow(txn) =>
      if txn !in w.open || !w.open[txn].Numbered? then w
      else
        var t := w.open[txn];
        Closed(w.(rows := w.rows + [Row(t.key, t.next, t.event)], memory := Append(w.memory, t.key, t.event)), txn)
    case Abort(txn) => Closed(w, txn)
  }

  function Play(l: Locks, actions: seq<Action>): World {
    if actions == [] then World(map[], [], map[], map[], map[])
    else Act(l, Play(l, actions[..|actions| - 1]), actions[|actions| - 1])
  }

  // Numbering.

  function Listed(w: World, key: ItemKey): seq<Event> {
    if key in w.memory then w.memory[key] else []
  }

  predicate HoldsLock(w: World, lock: int, txn: nat) {
    lock in w.locks && w.locks[lock] == txn
  }

  /** The rows of the item are numbered 1..n and read back as the in-memory list. */
  predicate Contiguous(w: World, key: ItemKey) {
    && Trace(Of(w.rows, key)) == Some(Listed(w, key))
    && LastSequence(w.rows, key) == |Of(w.rows, key)|
    && (key !in w.owners ==> Of(w.rows, key) == [])
  }

  predicate TxnNumbered(l: Locks, w: World, txn: nat) {
    txn in w.open ==>
      var t := w.open[txn];
      && t.event.kind != Intake
      && (t.Admitted? || t.ItemLocked? || t.Numbered? ==> t.key in w.owners)
      && (t.ItemLocked? || t.Numbered? ==> HoldsLock(w, l.item(t.key), txn))
      && (t.Numbered? ==> t.next == |Of(w.rows, t.key)| + 1)
  }

  ghost predicate NumberingSound(l: Locks, w: World) {
    (forall key :: Contiguous(w, key)) && (forall txn :: TxnNumbered(l, w, txn))
  }

  lemma OfSnoc(rows: seq<Row>, row: Row, key: ItemKey)
    ensures Of(rows + [row], key) == if row.key == key then Of(rows, key) + [row] else Of(rows, key)
    ensures LastSequence(rows + [row], key)
            == if row.key == key then Max(LastSequence(rows, key), row.sequence) else LastSequence(rows, key)
  {
    assert (rows + [row])[..|rows|] == rows;
  }

  lemma {:induction false} TraceLength(rows: seq<Row>)
    ensures Trace(rows).Some? ==> |Trace(rows).value| == |rows|
  {
    if rows != [] {
      TraceLength(rows[..|rows| - 1]);
    }
  }

  lemma TraceSnoc(rows: seq<Row>, row: Row)
    requires Trace(rows).Some? && row.sequence == |rows| + 1
    ensures Trace(rows + [row]) == Some(Trace(rows).value + [row.event])
  {
    assert (rows + [row])[..|rows|] == rows;
  }

  /** Appending the next number to one item keeps every item contiguous. */
  lemma AppendContiguous(w: World, v: World, row: Row, key: ItemKey)
    requires Contiguous(w, row.key) && Contiguous(w, key)
    requires row.sequence == |Of(w.rows, row.key)| + 1
    requires v.rows == w.rows + [row] && row.key in v.owners
    requires v.memory == w.memory[row.key := Listed(w, row.key) + [row.event]]
    requires key !in v.owners ==> key !in w.owners
    ensures Contiguous(v, key)
  {
    OfSnoc(w.rows, row, key);
    if row.key == key {
      TraceSnoc(Of(w.rows, key), row);
    }
  }

  lemma CommitNumbering(l: Locks, w: World, txn: nat)
    requires NumberingSound(l, w) && txn in w.open && w.open[txn].Numbered?
    ensures NumberingSound(l, Act(l, w, CommitRow(txn)))
  {
    var v, t := Act(l, w, CommitRow(txn)), w.open[txn];
    var row := Row(t.key, t.next, t.event);
    assert TxnNumbered(l, w, txn) && Contiguous(w, t.key);
    forall key ensures Contiguous(v, key) {
      assert Contiguous(w, key);
      AppendContiguous(w, v, row, key);
    }
    forall x ensures TxnNumbered(l, v, x) {
      assert TxnNumbered(l, w, x);
      if x in v.open {
        OfSnoc(w.rows, row, w.open[x].key);
      }
    }
  }

  lemma CreateNumbering(l: Locks, w: World, key: ItemKey, event: Event)
    requires NumberingSound(l, w) && key !in w.owners && event.kind == Intake
    ensures NumberingSound(l, Act(l, w, Create(key, event)))
  {
    var v, row := Act(l, w, Create(key, event)), Row(key, 1, event);
    assert Contiguous(w, key);
    TraceLength(Of(w.rows, key));
    assert Listed(w, key) + [event] == [event];
    forall k ensures Contiguous(v, k) {
      assert Contiguous(w, k);
      AppendContiguous(w, v, row, k);
    }
    forall x ensures TxnNumbered(l, v, x) {
      assert TxnNumbered(l, w, x);
      if x in v.open {
        OfSnoc(w.rows, row, w.open[x].key);
      }
    }
  }

  lemma LocalNumbering(l: Locks, w: World, a: Action)
    requires NumberingSound(l, w) && !a.Create? && !a.CommitRow?
    ensures NumberingSound(l, Act(l, w, a))
  {
    var v := Act(l, w, a);
    forall key ensures Contiguous(v, key) {
      LocalKeepsLocks(l, w, a, a.txn);
      assert Contiguous(w, key);
    }
    forall x ensures TxnNumbered(l, v, x) {
      assert TxnNumbered(l, w, x);
      if x in w.open {
        assert Contiguous(w, w.open[x].key);
      }
      LocalNumberedAt(l, w, a, x);
    }
  }

  lemma LocalNumberedAt(l: Locks, w: World, a: Action, x: nat)
    requires TxnNumbered(l, w, x) && !a.Create? && !a.CommitRow?
    requires x in w.open ==> Contiguous(w, w.open[x].key)
    ensures TxnNumbered(l, Act(l, w, a), x)
  {
    LocalKeepsLocks(l, w, a, x);
  }

  lemma {:induction false} EveryRunNumbered(l: Locks, actions: seq<Action>)
    ensures NumberingSound(l, Play(l, actions))
  {
    if actions != [] {
      var w, a := Play(l, actions[..|actions| - 1]), actions[|actions| - 1];
      EveryRunNumbered(l, actions[..|actions| - 1]);
      if a.Create? {
        if a.key !in w.owners && a.event.kind == Intake {
          CreateNumbering(l, w, a.key, a.event);
        }
      } else if a.CommitRow? {
        if a.txn in w.open && w.open[a.txn].Numbered? {
          CommitNumbering(l, w, a.txn);
        }
      } else {
        LocalNumbering(l, w, a);
      }
    }
  }

  /** In every interleaving, whatever locks collide: the trace of an item reads without denial and
      equals the list an in-memory store would hold. */
  lemma TraceIsMemory(l: Locks, actions: seq<Action>, key: ItemKey)
    ensures Trace(Of(Play(l, actions).rows, key)) == Some(Listed(Play(l, actions), key))
  {
    EveryRunNumbered(l, actions);
    assert Contiguous(Play(l, actions), key);
  }

  // The turn cap.

  predicate PastCount(t: Transaction) {
    t.Admitted? || t.ItemLocked? || t.Numbered?
  }

  predicate TxnCapped(l: Locks, cap: nat, w: World, txn: nat) {
    txn in w.open && w.open[txn].event.kind == TurnReserved ==>
      var t := w.open[txn];
      && t.limit == Some(cap)
      && (!t.Started? ==> HoldsLock(w, l.budget(t.key.tenant), txn))
      && (PastCount(t) ==> Reserved(w.rows, t.key.tenant) < cap)
  }

  ghost predicate CapSound(l: Locks, cap: nat, w: World) {
    && (forall tenant :: Reserved(w.rows, tenant) <= cap)
    && (forall txn :: TxnCapped(l, cap, w, txn))
    && (forall txn :: txn in w.open ==> w.open[txn].event.kind != Intake)
  }

  /** Every caller that reserves a turn uses the same cap. */
  predicate UsesCap(cap: nat, a: Action) {
    a.Begin? && a.event.kind == TurnReserved ==> a.limit == Some(cap)
  }

  lemma ReservedSnoc(rows: seq<Row>, row: Row, tenant: Identifier)
    ensures Reserved(rows + [row], tenant)
            == Reserved(rows, tenant) + if row.key.tenant == tenant && row.event.kind == TurnReserved then 1 else 0
  {
    assert (rows + [row])[..|rows|] == rows;
  }

  lemma CommitCapped(l: Locks, cap: nat, w: World, txn: nat)
    requires CapSound(l, cap, w) && txn in w.open && w.open[txn].Numbered?
    ensures CapSound(l, cap, Act(l, w, CommitRow(txn)))
  {
    var v, t := Act(l, w, CommitRow(txn)), w.open[txn];
    var row := Row(t.key, t.next, t.event);
    assert TxnCapped(l, cap, w, txn);
    forall tenant ensures Reserved(v.rows, tenant) <= cap {
      ReservedSnoc(w.rows, row, tenant);
    }
    forall x ensures TxnCapped(l, cap, v, x) {
      assert TxnCapped(l, cap, w, x);
      if x in v.open {
        ReservedSnoc(w.rows, row, w.open[x].key.tenant);
      }
    }
  }

  lemma CreateCapped(l: Locks, cap: nat, w: World, key: ItemKey, event: Event)
    requires CapSound(l, cap, w) && key !in w.owners && event.kind == Intake
    ensures CapSound(l, cap, Act(l, w, Create(key, event)))
  {
    var v, row := Act(l, w, Create(key, event)), Row(key, 1, event);
    forall tenant ensures Reserved(v.rows, tenant) <= cap {
      ReservedSnoc(w.rows, row, tenant);
    }
    forall x ensures TxnCapped(l, cap, v, x) {
      assert TxnCapped(l, cap, w, x);
      if x in v.open {
        ReservedSnoc(w.rows, row, w.open[x].key.tenant);
      }
    }
  }

  lemma LocalCapped(l: Locks, cap: nat, w: World, a: Action)
    requires CapSound(l, cap, w) && UsesCap(cap, a) && !a.Create? && !a.CommitRow?
    ensures CapSound(l, cap, Act(l, w, a))
  {
    forall x ensures TxnCapped(l, cap, Act(l, w, a), x) {
      assert TxnCapped(l, cap, w, x);
      LocalCappedAt(l, cap, w, a, x);
    }
  }

  lemma LocalCappedAt(l: Locks, cap: nat, w: World, a: Action, x: nat)
    requires TxnCapped(l, cap, w, x) && UsesCap(cap, a) && !a.Create? && !a.CommitRow?
    ensures TxnCapped(l, cap, Act(l, w, a), x)
  {
    LocalKeepsLocks(l, w, a, x);
  }

  /** Only the acting transaction can lose or change its own locks and phase. */
  lemma LocalKeepsLocks(l: Locks, w: World, a: Action, x: nat)
    requires !a.Create? && !a.CommitRow?
    ensures var v := Act(l, w, a);
            && v.rows == w.rows && v.owners == w.owners && v.memory == w.memory
            && (a.txn != x ==> (x in v.open <==> x in w.open) && (x in w.open ==> v.open[x] == w.open[x]))
            && (forall lock :: HoldsLock(w, lock, x) && (a.txn != x || x in v.open) ==> HoldsLock(v, lock, x))
  {
    forall lock | HoldsLock(w, lock, x) && (a.txn != x || x in Act(l, w, a).open)
      ensures HoldsLock(Act(l, w, a), lock, x)
    {
      LockKept(l, w, a, x, lock);
    }
  }

  lemma LockKept(l: Locks, w: World, a: Action, x: nat, lock: int)
    requires !a.Create? && !a.CommitRow? && HoldsLock(w, lock, x) && (a.txn != x || x in Act(l, w, a).open)
    ensures HoldsLock(Act(l, w, a), lock, x)
  {
  }

  /** With one cap used by all callers, no interleaving reserves more turns for a tenant. */
  lemma {:induction false} TurnsWithinCap(l: Locks, cap: nat, actions: seq<Action>)
    requires forall i :: 0 <= i < |actions| ==> UsesCap(cap, actions[i])
    ensures CapSound(l, cap, Play(l, actions))
  {
    if actions != [] {
      var w, a := Play(l, actions[..|actions| - 1]), actions[|actions| - 1];
      TurnsWithinCap(l, cap, actions[..|actions| - 1]);
      if a.Create? {
        if a.key !in w.owners && a.event.kind == Intake {
          CreateCapped(l, cap, w, a.key, a.event);
        }
      } else if a.CommitRow? {
        if a.txn in w.open && w.open[a.txn].Numbered? {
          CommitCapped(l, cap, w, a.txn);
        }
      } else {
        LocalCapped(l, cap, w, a);
      }
    }
  }

  // Ownership.

  /** Chat turns of an item stand only in the name of its owner, and every row has an item. */
  predicate RowOwned(owners: map<ItemKey, Identifier>, row: Row) {
    row.key in owners && (row.event.kind in {TurnReserved, TurnRecorded} ==> row.event.actor == owners[row.key])
  }

  predicate TxnOwned(w: World, txn: nat) {
    txn in w.open && PastCount(w.open[txn]) ==>
      var t := w.open[txn];
      && t.key in w.owners
      && (t.event.kind in {TurnReserved, TurnRecorded} ==> t.event.actor == w.owners[t.key])
  }

  ghost predicate Owned(w: World) {
    (forall i :: 0 <= i < |w.rows| ==> RowOwned(w.owners, w.rows[i])) && (forall txn :: TxnOwned(w, txn))
  }

  lemma ActOwned(l: Locks, w: World, a: Action)
    requires Owned(w)
    ensures Owned(Act(l, w, a))
  {
    var v := Act(l, w, a);
    if a.Create? {
      CreateOwned(l, w, a);
    } else if a.CommitRow? {
      CommitOwned(l, w, a);
    } else {
      LocalKeepsLocks(l, w, a, a.txn);
      forall txn ensures TxnOwned(v, txn) {
        TxnStaysOwned(l, w, a, txn);
      }
    }
  }

  lemma CreateOwned(l: Locks, w: World, a: Action)
    requires Owned(w) && a.Create?
    ensures Owned(Act(l, w, a))
  {
    var v := Act(l, w, a);
    forall i | 0 <= i < |v.rows| ensures RowOwned(v.owners, v.rows[i]) {
      assert i < |w.rows| ==> RowOwned(w.owners, w.rows[i]);
    }
    forall txn ensures TxnOwned(v, txn) {
      assert TxnOwned(w, txn);
    }
  }

  lemma CommitOwned(l: Locks, w: World, a: Action)
    requires Owned(w) && a.CommitRow?
    ensures Owned(Act(l, w, a))
  {
    var v := Act(l, w, a);
    assert TxnOwned(w, a.txn);
    forall i | 0 <= i < |v.rows| ensures RowOwned(v.owners, v.rows[i]) {
      assert i < |w.rows| ==> RowOwned(w.owners, w.rows[i]);
    }
    forall txn ensures TxnOwned(v, txn) {
      assert TxnOwned(w, txn);
    }
  }

  lemma TxnStaysOwned(l: Locks, w: World, a: Action, txn: nat)
    requires TxnOwned(w, txn) && !a.Create? && !a.CommitRow?
    ensures TxnOwned(Act(l, w, a), txn)
  {
  }

  /** In every interleaving an item's chat turns are its owner's. */
  lemma {:induction false} OwnersOnly(l: Locks, actions: seq<Action>)
    ensures Owned(Play(l, actions))
  {
    if actions != [] {
      OwnersOnly(l, actions[..|actions| - 1]);
      ActOwned(l, Play(l, actions[..|actions| - 1]), actions[|actions| - 1]);
    }
  }
}
