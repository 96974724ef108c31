/** The in-memory workflow store: one event list per item, updated in place. On every run of the
    lock protocol it counts the same turns as the event rows, so both admit the same reservations. */
module WorkflowMemory {
  import opened Basics
  import opened Domain
  import opened Turns

  type Lists = map<ItemKey, seq<Event>>

  function TurnsIn(events: seq<Event>): nat {
    if events == [] then 0
    else TurnsIn(events[..|events| - 1]) + if events[|events| - 1].kind == TurnReserved then 1 else 0
  }

  function TenantItems(lists: Lists, tenant: Identifier): set<ItemKey> {
    set key | key in lists && key.tenant == tenant
  }

  /** The reserved turns of the given items. */
  ghost function TurnsOf(lists: Lists, keys: set<ItemKey>): nat
    requires keys <= lists.Keys
  {
    if keys == {} then 0
    else
      var key :| key in keys;
      TurnsIn(lists[key]) + TurnsOf(lists, keys - {key})
  }

  ghost function TenantTurns(lists: Lists, tenant: Identifier): nat {
    TurnsOf(lists, TenantItems(lists, tenant))
  }

  lemma {:induction false} TurnsWithout(lists: Lists, keys: set<ItemKey>, key: ItemKey)
    requires keys <= lists.Keys && key in keys
    ensures TurnsOf(lists, keys) == TurnsIn(lists[key]) + TurnsOf(lists, keys - {key})
    decreases keys
  {
    var first :| first in keys && TurnsOf(lists, keys) == TurnsIn(lists[first]) + TurnsOf(lists, keys - {first});
    if first != key {
      TurnsWithout(lists, keys - {first}, key);
      TurnsWithout(lists, keys - {key}, first);
      assert keys - {first} - {key} == keys - {key} - {first};
    }
  }

  lemma {:induction false} TurnsSame(a: Lists, b: Lists, keys: set<ItemKey>)
    requires keys <= a.Keys && keys <= b.Keys && forall key :: key in keys ==> a[key] == b[key]
    ensures TurnsOf(a, keys) == TurnsOf(b, keys)
    decreases keys
  {
    if keys != {} {
      var key :| key in keys && TurnsOf(a, keys) == TurnsIn(a[key]) + TurnsOf(a, keys - {key});
      TurnsSame(a, b, keys - {key});
      TurnsWithout(b, keys, key);
    }
  }

  lemma TurnsInSnoc(events: seq<Event>, event: Event)
    ensures TurnsIn(events + [event]) == TurnsIn(events) + if event.kind == TurnReserved then 1 else 0
  {
    assert (events + [event])[..|events|] == events;
  }

  /** Replacing one list changes its tenant's total by the difference, and no other tenant's. */
  lemma TurnsReplaced(lists: Lists, key: ItemKey, events: seq<Event>, tenant: Identifier)
    ensures TenantTurns(lists[key := events], tenant)
         == TenantTurns(lists, tenant)
            + if key.tenant == tenant then TurnsIn(events) - (if key in lists then TurnsIn(lists[key]) else 0) else 0
  {
    var after := lists[key := events];
    var was, now := TenantItems(lists, tenant), TenantItems(after, tenant);
    if key.tenant != tenant {
      assert was == now;
      TurnsSame(lists, after, was);
    } else {
      var rest := now - {key};
      TurnsWithout(after, now, key);
      TurnsSame(lists, after, rest);
      if key in lists {
        assert was == now;
        TurnsWithout(lists, was, key);
      } else {
        assert was == rest;
      }
    }
  }

  // Agreement with the event rows.

  ghost predicate CountsAgree(w: World) {
    && w.memory.Keys == w.owners.Keys
    && forall tenant :: TenantTurns(w.memory, tenant) == Reserved(w.rows, tenant)
  }

  /** One more event of an item, in both stores. */
  lemma AppendAgrees(w: World, v: World, row: Row, tenant: Identifier)
    requires CountsAgree(w) && v.rows == w.rows + [row]
    requires v.memory == w.memory[row.key := Listed(w, row.key) + [row.event]]
    ensures TenantTurns(v.memory, tenant) == Reserved(v.rows, tenant)
  {
    ReservedSnoc(w.rows, row, tenant);
    TurnsInSnoc(Listed(w, row.key), row.event);
    TurnsReplaced(w.memory, row.key, Listed(w, row.key) + [row.event], tenant);
    assert TenantTurns(w.memory, tenant) == Reserved(w.rows, tenant);
  }

  lemma ActAgrees(l: Locks, w: World, a: Action)
    requires CountsAgree(w) && NumberingSound(l, w)
    ensures CountsAgree(Act(l, w, a))
  {
    var v := Act(l, w, a);
    if a.Create? && v != w {
      assert Listed(w, a.key) + [a.event] == [a.event];
      forall tenant ensures TenantTurns(v.memory, tenant) == Reserved(v.rows, tenant) {
        AppendAgrees(w, v, Row(a.key, 1, a.event), tenant);
      }
    } else if a.CommitRow? && v != w {
      var t := w.open[a.txn];
      assert TxnNumbered(l, w, a.txn);
      forall tenant ensures TenantTurns(v.memory, tenant) == Reserved(v.rows, tenant) {
        AppendAgrees(w, v, Row(t.key, t.next, t.event), tenant);
      }
    } else if v != w {
      LocalKeepsLocks(l, w, a, a.txn);
    }
  }

  /** In every interleaving both stores have counted the same turns for every tenant. */
  lemma {:induction false} CountsAlwaysAgree(l: Locks, actions: seq<Action>)
    ensures CountsAgree(Play(l, actions))
  {
    if actions != [] {
      CountsAlwaysAgree(l, actions[..|actions| - 1]);
      EveryRunNumbered(l, actions[..|actions| - 1]);
      ActAgrees(l, Play(l, actions[..|actions| - 1]), actions[|actions| - 1]);
    }
  }

  /** What the in-memory store admits. */
  ghost predicate Admits(owners: map<ItemKey, Identifier>, lists: Lists, key: ItemKey, event: Event,
                         limit: Option<int>)
  {
    && (limit.Some? ==> limit.value > 0)
    && key in owners && (event.kind in {TurnReserved, TurnRecorded} ==> owners[key] == event.actor)
    && (limit.Some? ==> TenantTurns(lists, key.tenant) < limit.value)
  }

  /** A counting transaction goes on exactly when the in-memory store would admit the same event. */
  lemma SameAdmission(l: Locks, actions: seq<Action>, txn: nat)
    requires txn in Play(l, actions).open && Play(l, actions).open[txn].BudgetLocked?
    ensures var w := Play(l, actions);
            var t := w.open[txn];
            txn in Act(l, w, Admit(txn)).open <==> Admits(w.owners, w.memory, t.key, t.event, t.limit)
  {
    CountsAlwaysAgree(l, actions);
    LimitsPositive(l, actions, txn);
  }

  /** A cap of zero or less is refused before a transaction begins. */
  lemma {:induction false} LimitsPositive(l: Locks, actions: seq<Action>, txn: nat)
    requires txn in Play(l, actions).open
    ensures Play(l, actions).open[txn].limit.Some? ==> Play(l, actions).open[txn].limit.value > 0
  {
    if actions != [] {
      var before := actions[..|actions| - 1];
      if txn in Play(l, before).open {
        LimitsPositive(l, before, txn);
      }
      LimitKept(l, Play(l, before), actions[|actions| - 1], txn);
    }
  }

  lemma LimitKept(l: Locks, w: World, a: Action, txn: nat)
    requires txn in w.open && w.open[txn].limit.Some? ==> w.open[txn].limit.value > 0
    requires txn in Act(l, w, a).open
    ensures Act(l, w, a).open[txn].limit.Some? ==> Act(l, w, a).open[txn].limit.value > 0
  {
  }

  class MemoryStore {
    var owners: map<ItemKey, Identifier>
    var lists: Lists

    ghost predicate Valid()
      reads this
    {
      lists.Keys == owners.Keys
    }

    constructor ()
      ensures Valid() && owners == map[] && lists == map[]
    {
      owners, lists := map[], map[];
    }

    /** Item identifiers are drawn at random; one drawn twice would replace the item. */
    method CreateIntake(key: ItemKey, actor: Identifier, payload: Digest, now: Moment)
      requires Valid()
      modifies this
      ensures Valid()
      ensures owners == old(owners)[key := actor]
      ensures lists == old(lists)[key := [Event(Intake, actor, payload, now)]]
    {
      owners := owners[key := actor];
      lists := lists[key := [Event(Intake, actor, payload, now)]];
    }

    /** Append one event of an item, or refuse and change nothing. */
    method Record(key: ItemKey, event: Event) returns (ok: bool)
      requires Valid()
      modifies this`lists
      ensures Valid()
      ensures ok <==> key in owners && (event.kind in {TurnReserved, TurnRecorded} ==> owners[key] == event.actor)
      ensures lists == if ok then Append(old(lists), key, event) else old(lists)
    {
      ok := Visible(owners, key, event);
      if ok {
        lists := lists[key := lists[key] + [event]];
      }
    }

    method CountTurns(tenant: Identifier) returns (used: nat)
      requires Valid()
      ensures used == TenantTurns(lists, tenant)
    {
      used := 0;
      var todo := TenantItems(lists, tenant);
      while todo != {}
        invariant todo <= lists.Keys
        invariant used + TurnsOf(lists, todo) == TenantTurns(lists, tenant)
      {
        var key :| key in todo;
        TurnsWithout(lists, todo, key);
        used := used + TurnsIn(lists[key]);
        todo := todo - {key};
      }
    }

    method ReserveChatTurn(key: ItemKey, actor: Identifier, payload: Digest, now: Moment, limit: Option<int>)
      returns (ok: bool)
      requires Valid()
      modifies this`lists
      ensures Valid() && ok == Admits(owners, old(lists), key, Event(TurnReserved, actor, payload, now), limit)
      ensures lists == if ok then Append(old(lists), key, Event(TurnReserved, actor, payload, now)) else old(lists)
    {
      var event := Event(TurnReserved, actor, payload, now);
      if limit.Some? && limit.value <= 0 {
        return false;
      }
      if !Visible(owners, key, event) {
        return false;
      }
      if limit.Some? {
        var used := CountTurns(key.tenant);
        if used >= limit.value {
          return false;
        }
      }
      ok := Record(key, event);
    }

    method TraceOf(key: ItemKey) returns (events: seq<Event>)
      ensures events == if key in lists then lists[key] else []
    {
      events := if key in lists then lists[key] else [];
    }
  }
}
