/** The workflow outbox: leased claims, acknowledgement, and what the log of any run shows. */
module Outbox {
  import opened Basics
  import opened Domain

  datatype Key = Key(tenant: Identifier, event: Identifier)

  datatype EntryStatus = Waiting | Claimed | Acked

  datatype Entry = Entry(
    workItem: Identifier, topic: Identifier, payload: Digest, status: EntryStatus, attempts: nat,
    worker: Option<Identifier>, leaseExpires: Option<Moment>, createdAt: Moment, updatedAt: Moment)

  type Entries = map<Key, Entry>

  /** Insert once; a second delivery must name the same work item, topic and payload. */
  function Enqueue(rows: Entries, itemExists: bool, key: Key, workItem: Identifier, topic: Identifier,
                   payload: Digest, now: Moment): (Entries, Option<Entry>)
  {
    var entry := Entry(workItem, topic, payload, Waiting, 0, None, None, now, now);
    if !itemExists then (rows, None)
    else if key !in rows then (rows[key := entry], Some(entry))
    else if rows[key].workItem != workItem || rows[key].topic != topic || rows[key].payload != payload
    then (rows, None)
    else (rows, Some(rows[key]))
  }

  /** Pending, or claimed with a lease that has run out. */
  predicate Claimable(e: Entry, now: Moment) {
    || e.status == Waiting
    || (e.status == Claimed && e.leaseExpires.Some? && e.leaseExpires.value <= now)
  }

  predicate Candidate(rows: Entries, locked: set<Key>, tenant: Identifier, now: Moment, key: Key) {
    key in rows && key.tenant == tenant && key !in locked && Claimable(rows[key], now)
  }

  /** The oldest claimable row of the tenant that no concurrent transaction has locked. */
  predicate Chosen(rows: Entries, locked: set<Key>, tenant: Identifier, now: Moment, key: Key) {
    && Candidate(rows, locked, tenant, now, key)
    && forall k :: k in rows && Candidate(rows, locked, tenant, now, k) ==> rows[key].createdAt <= rows[k].createdAt
  }

  function Grant(e: Entry, worker: Identifier, now: Moment, leaseSeconds: int): Entry {
    e.(status := Claimed, attempts := e.attempts + 1, worker := Some(worker),
       leaseExpires := Some(now + leaseSeconds * TICKS_PER_SECOND), updatedAt := now)
  }

  predicate CanAck(rows: Entries, key: Key, worker: Identifier) {
    key in rows && rows[key].status == Claimed && rows[key].worker == Some(worker)
  }

  function Acknowledge(e: Entry): Entry {
    e.(status := Acked, leaseExpires := None)
  }

  // Runs.

  datatype Fact =
    | Granted(key: Key, worker: Identifier, at: Moment, expires: Moment)
    | Acknowledged(key: Key, worker: Identifier)

  datatype Action =
    | EnqueueAction(itemExists: bool, key: Key, workItem: Identifier, topic: Identifier, payload: Digest, now: Moment)
    | ClaimAction(key: Key, worker: Identifier, now: Moment, leaseSeconds: int, locked: set<Key>)
    | AckAction(key: Key, worker: Identifier)

  datatype World = World(rows: Entries, log: seq<Fact>)

  function Act(w: World, a: Action): World {
    match a
    case EnqueueAction(itemExists, key, workItem, topic, payload, now) =>
      w.(rows := Enqueue(w.rows, itemExists, key, workItem, topic, payload, now).0)
    case ClaimAction(key, worker, now, leaseSeconds, locked) =>
      if leaseSeconds <= 0 || !Chosen(w.rows, locked, key.tenant, now, key) then w
      else
        var e := Grant(w.rows[key], worker, now, leaseSeconds);
        World(w.rows[key := e], w.log + [Granted(key, worker, now, e.leaseExpires.value)])
    case AckAction(key, worker) =>
      if !CanAck(w.rows, key, worker) then w
      else World(w.rows[key := Acknowledge(w.rows[key])], w.log + [Acknowledged(key, worker)])
  }

  function Play(actions: seq<Action>): World {
    if actions == [] then World(map[], [])
    else Act(Play(actions[..|actions| - 1]), actions[|actions| - 1])
  }

  function Grants(log: seq<Fact>, key: Key): nat {
    if log == [] then 0
    else Grants(log[..|log| - 1], key)
         + if log[|log| - 1].Granted? && log[|log| - 1].key == key then 1 else 0
  }

  predicate GrantAt(log: seq<Fact>, key: Key, i: nat) {
    i < |log| && log[i].Granted? && log[i].key == key
  }

  /** Position `i` is the latest grant of the key before `n`. */
  predicate LatestGrant(log: seq<Fact>, key: Key, i: nat, n: nat) {
    && i < n <= |log| && GrantAt(log, key, i)
    && forall j :: i < j < n ==> !GrantAt(log, key, j)
  }

  predicate AckedIn(log: seq<Fact>, key: Key) {
    exists i :: 0 <= i < |log| && log[i].Acknowledged? && log[i].key == key
  }

  /** How a row and the log agree about one entry. */
  predicate RowAgrees(rows: Entries, log: seq<Fact>, key: Key) {
    if key !in rows then forall i :: 0 <= i < |log| ==> log[i].key != key
    else
      var e := rows[key];
      && e.attempts == Grants(log, key)
      && (e.status == Waiting ==> forall i :: 0 <= i < |log| ==> log[i].key != key)
      && (e.status == Claimed ==>
            && !AckedIn(log, key)
            && exists i :: 0 <= i < |log| && LatestGrant(log, key, i, |log|)
                        && e.worker == Some(log[i].worker) && e.leaseExpires == Some(log[i].expires))
      && (e.status == Acked ==> AckedIn(log, key))
  }

  /** A later grant starts after every earlier lease of the entry has ended. */
  predicate LeasesApart(log: seq<Fact>) {
    && (forall i :: 0 <= i < |log| && log[i].Granted? ==> log[i].at < log[i].expires)
    && (forall i, j :: 0 <= i < j < |log| && log[i].Granted? && log[j].Granted? && log[i].key == log[j].key ==>
          log[i].expires <= log[j].at)
  }

  /** Nothing follows an acknowledgement, and it comes from the latest claimer. */
  predicate AcksFinal(log: seq<Fact>) {
    && (forall i, j :: 0 <= i < j < |log| && log[i].Acknowledged? ==> log[j].key != log[i].key)
    && (forall j :: 0 <= j < |log| && log[j].Acknowledged? ==>
          exists i :: 0 <= i < j && LatestGrant(log, log[j].key, i, j) && log[i].worker == log[j].worker)
  }

  ghost predicate Sound(w: World) {
    (forall key :: RowAgrees(w.rows, w.log, key)) && LeasesApart(w.log) && AcksFinal(w.log)
  }

  lemma LatestSnoc(log: seq<Fact>, f: Fact, key: Key, i: nat, n: nat)
    requires LatestGrant(log, key, i, n)
    ensures LatestGrant(log + [f], key, i, n)
    ensures n == |log| && !(f.Granted? && f.key == key) ==> LatestGrant(log + [f], key, i, n + 1)
  {
    var all := log + [f];
    assert all[i] == log[i];
    forall j | i < j < n ensures !GrantAt(all, key, j) {
      assert !GrantAt(log, key, j) && all[j] == log[j];
    }
  }

  lemma AckedSnoc(log: seq<Fact>, f: Fact, key: Key)
    ensures AckedIn(log + [f], key) <==> AckedIn(log, key) || (f.Acknowledged? && f.key == key)
  {
    var all := log + [f];
    assert all[|log|] == f;
    if AckedIn(log, key) {
      var i :| 0 <= i < |log| && log[i].Acknowledged? && log[i].key == key;
      assert all[i] == log[i];
    }
    if AckedIn(all, key) {
      var i :| 0 <= i < |all| && all[i].Acknowledged? && all[i].key == key;
      assert i < |log| ==> all[i] == log[i];
    }
  }

  lemma OtherRows(rows: Entries, log: seq<Fact>, f: Fact, e: Entry, key: Key)
    requires RowAgrees(rows, log, key) && key != f.key
    ensures RowAgrees(rows[f.key := e], log + [f], key)
  {
    var all := log + [f];
    assert all[..|log|] == log;
    AckedSnoc(log, f, key);
    if key in rows && rows[key].status == Claimed {
      var i :| 0 <= i < |log| && LatestGrant(log, key, i, |log|)
               && rows[key].worker == Some(log[i].worker) && rows[key].leaseExpires == Some(log[i].expires);
      LatestSnoc(log, f, key, i, |log|);
      assert all[i] == log[i];
    }
  }

  lemma AcksSnoc(log: seq<Fact>, f: Fact)
    requires AcksFinal(log) && !AckedIn(log, f.key)
    requires f.Acknowledged? ==>
               exists i :: 0 <= i < |log| && LatestGrant(log, f.key, i, |log|) && log[i].worker == f.worker
    ensures AcksFinal(log + [f])
  {
    var all := log + [f];
    forall j | 0 <= j < |all| && all[j].Acknowledged?
      ensures exists i :: 0 <= i < j && LatestGrant(all, all[j].key, i, j) && all[i].worker == all[j].worker
    {
      var i :| 0 <= i < j && LatestGrant(log, all[j].key, i, j) && log[i].worker == all[j].worker;
      LatestSnoc(log, f, all[j].key, i, j);
      assert all[i] == log[i];
    }
  }

  lemma ClaimSound(w: World, key: Key, worker: Identifier, now: Moment, leaseSeconds: int, locked: set<Key>)
    requires Sound(w) && leaseSeconds > 0 && Chosen(w.rows, locked, key.tenant, now, key)
    ensures Sound(Act(w, ClaimAction(key, worker, now, leaseSeconds, locked)))
  {
    var v := Act(w, ClaimAction(key, worker, now, leaseSeconds, locked));
    var f, e := v.log[|w.log|], v.rows[key];
    assert RowAgrees(w.rows, w.log, key);
    assert v.log[..|w.log|] == w.log;
    AckedSnoc(w.log, f, key);
    assert LatestGrant(v.log, key, |w.log|, |v.log|);
    forall k ensures RowAgrees(v.rows, v.log, k) {
      if k != key {
        assert RowAgrees(w.rows, w.log, k);
        OtherRows(w.rows, w.log, f, e, k);
      }
    }
    AcksSnoc(w.log, f);
    forall i | 0 <= i < |w.log| && w.log[i].Granted? && w.log[i].key == key ensures w.log[i].expires <= now {
      var last :| 0 <= last < |w.log| && LatestGrant(w.log, key, last, |w.log|)
                  && w.rows[key].leaseExpires == Some(w.log[last].expires);
      assert GrantAt(w.log, key, i);
      assert i <= last;
    }
  }

  lemma LeasesSnoc(log: seq<Fact>, f: Fact)
    requires LeasesApart(log) && f.Acknowledged?
    ensures LeasesApart(log + [f])
  {
  }

  lemma AckRow(rows: Entries, log: seq<Fact>, key: Key, worker: Identifier)
    requires RowAgrees(rows, log, key) && CanAck(rows, key, worker)
    ensures RowAgrees(rows[key := Acknowledge(rows[key])], log + [Acknowledged(key, worker)], key)
    ensures !AckedIn(log, key)
    ensures exists i :: 0 <= i < |log| && LatestGrant(log, key, i, |log|) && log[i].worker == worker
  {
    assert (log + [Acknowledged(key, worker)])[..|log|] == log;
    AckedSnoc(log, Acknowledged(key, worker), key);
  }

  lemma AckSound(w: World, key: Key, worker: Identifier)
    requires Sound(w) && CanAck(w.rows, key, worker)
    ensures Sound(Act(w, AckAction(key, worker)))
  {
    var v, f := Act(w, AckAction(key, worker)), Acknowledged(key, worker);
    assert RowAgrees(w.rows, w.log, key);
    AckRow(w.rows, w.log, key, worker);
    forall k ensures RowAgrees(v.rows, v.log, k) {
      if k != key {
        assert RowAgrees(w.rows, w.log, k);
        OtherRows(w.rows, w.log, f, v.rows[key], k);
      }
    }
    AcksSnoc(w.log, f);
    LeasesSnoc(w.log, f);
  }

  lemma {:induction false} NoGrants(log: seq<Fact>, key: Key)
    requires forall i :: 0 <= i < |log| ==> log[i].key != key
    ensures Grants(log, key) == 0
  {
    if log != [] {
      NoGrants(log[..|log| - 1], key);
    }
  }

  lemma EnqueueSound(w: World, itemExists: bool, key: Key, workItem: Identifier, topic: Identifier, payload: Digest,
                     now: Moment)
    requires Sound(w)
    ensures Sound(Act(w, EnqueueAction(itemExists, key, workItem, topic, payload, now)))
  {
    var v := Act(w, EnqueueAction(itemExists, key, workItem, topic, payload, now));
    forall k ensures RowAgrees(v.rows, v.log, k) {
      assert RowAgrees(w.rows, w.log, k);
      if k == key && key !in w.rows {
        NoGrants(w.log, key);
      }
    }
  }

  /** In every run: attempts counts the granted claims, leases of an entry never overlap, an entry is
      acknowledged at most once, by its latest claimer, and nothing happens to it afterwards. */
  lemma {:induction false} EveryRunSound(actions: seq<Action>)
    ensures Sound(Play(actions))
  {
    if actions != [] {
      var w, a := Play(actions[..|actions| - 1]), actions[|actions| - 1];
      EveryRunSound(actions[..|actions| - 1]);
      match a {
        case EnqueueAction(itemExists, key, workItem, topic, payload, now) =>
          EnqueueSound(w, itemExists, key, workItem, topic, payload, now);
        case ClaimAction(key, worker, now, leaseSeconds, locked) =>
          if leaseSeconds > 0 && Chosen(w.rows, locked, key.tenant, now, key) {
            ClaimSound(w, key, worker, now, leaseSeconds, locked);
          }
        case AckAction(key, worker) =>
          if CanAck(w.rows, key, worker) {
            AckSound(w, key, worker);
          }
      }
    }
  }

  // The store object.

  class OutboxStore {
    var rows: Entries

    constructor ()
      ensures rows == map[]
    {
      rows := map[];
    }

    method EnqueueEntry(itemExists: bool, key: Key, workItem: Identifier, topic: Identifier, payload: Digest,
                        now: Moment)
      returns (r: Option<Entry>)
      modifies this
      ensures (rows, r) == Enqueue(old(rows), itemExists, key, workItem, topic, payload, now)
      ensures r.Some? <==>
                && itemExists
                && (key in old(rows) ==>
                      && old(rows)[key].workItem == workItem && old(rows)[key].topic == topic
                      && old(rows)[key].payload == payload)
      ensures if r.Some? && key !in old(rows)
              then rows == old(rows)[key := Entry(workItem, topic, payload, Waiting, 0, None, None, now, now)]
              else rows == old(rows)
      ensures r.Some? ==> key in rows && r.value == rows[key]
    {
      if !itemExists {
        return None;
      }
      if key !in rows {
        rows := rows[key := Entry(workItem, topic, payload, Waiting, 0, None, None, now, now)];
      }
      var existing := rows[key];
      if existing.workItem != workItem || existing.topic != topic || existing.payload != payload {
        return None;
      }
      return Some(existing);
    }

    /** Claims the chosen row, or nothing exactly when there is no candidate; a lease that is not
        positive is an error. */
    method ClaimEntry(tenant: Identifier, worker: Identifier, now: Moment, leaseSeconds: int, locked: set<Key>)
      returns (r: Outcome<Option<Key>>)
      modifies this
      ensures leaseSeconds <= 0 <==> r == Err(ValueError)
      ensures leaseSeconds > 0 ==>
                && r.Ok?
                && (r.value.None? <==> forall k :: k in old(rows) ==> !Candidate(old(rows), locked, tenant, now, k))
      ensures r.Err? || r.value.None? ==> rows == old(rows)
      ensures r.Ok? ==>
                (r.value.Some? <==>
                   exists k :: k in old(rows) && k.tenant == tenant && k !in locked
                            && (old(rows)[k].status == Waiting
                                || (old(rows)[k].status == Claimed && old(rows)[k].leaseExpires.Some?
                                    && old(rows)[k].leaseExpires.value <= now)))
      ensures r.Ok? && r.value.Some? ==>
                var key := r.value.value;
                && key in old(rows) && key.tenant == tenant && key !in locked
                && rows.Keys == old(rows).Keys && (forall k :: k in rows && k != key ==> rows[k] == old(rows)[k])
                && rows[key].status == Claimed && rows[key].attempts == old(rows)[key].attempts + 1
                && rows[key].worker == Some(worker) && rows[key].updatedAt == now
                && rows[key].leaseExpires == Some(now + leaseSeconds * TICKS_PER_SECOND)
                && rows[key].payload == old(rows)[key].payload && rows[key].topic == old(rows)[key].topic
      ensures r.Ok? && r.value.Some? ==>
                && Chosen(old(rows), locked, tenant, now, r.value.value)
                && rows == old(rows)[r.value.value := Grant(old(rows)[r.value.value], worker, now, leaseSeconds)]
    {
      if leaseSeconds <= 0 {
        return Err(ValueError);
      }
      var best: Option<Key> := None;
      var todo := rows.Keys;
      while todo != {}
        invariant todo <= rows.Keys
        invariant best.None? ==> forall k :: k in rows && k !in todo ==> !Candidate(rows, locked, tenant, now, k)
        invariant best.Some? ==> Candidate(rows, locked, tenant, now, best.value)
        invariant best.Some? ==> forall k :: k in rows && k !in todo && Candidate(rows, locked, tenant, now, k) ==>
                    rows[best.value].createdAt <= rows[k].createdAt
        decreases todo
      {
        var k :| k in todo;
        todo := todo - {k};
        if Candidate(rows, locked, tenant, now, k) && (best.None? || rows[k].createdAt < rows[best.value].createdAt) {
          best := Some(k);
        }
      }
      if best.Some? {
        rows := rows[best.value := Grant(rows[best.value], worker, now, leaseSeconds)];
      }
      return Ok(best);
    }

    method AckEntry(key: Key, worker: Identifier) returns (acked: bool)
      modifies this
      ensures acked == CanAck(old(rows), key, worker)
      ensures rows == if acked then old(rows)[key := Acknowledge(old(rows)[key])] else old(rows)
      ensures acked <==> key in old(rows) && old(rows)[key].status == Claimed && old(rows)[key].worker == Some(worker)
      ensures acked ==> rows[key].status == Acked && rows[key].leaseExpires.None?
    {
      acked := key in rows && rows[key].status == Claimed && rows[key].worker == Some(worker);
      if acked {
        rows := rows[key := Acknowledge(rows[key])];
      }
    }
  }
}
