// From snapshot to stream: run connects first, which creates the replication slot if there is none,
// then takes the snapshot, then streams (engine/core/engine.go:107-124,
// source/postgres/source/connection.go:81-105). Nothing falls between the two.
module NoGap {
  import opened Prelude
  import opened Events
  import opened Histories
  import opened SnapshotSync
  import opened SnapshotResume
  import P = PgProtocol
  import D = PgDelivery

  // The table's history in commit order: a row is written or deleted; id is its event id.
  datatype Change = Change(pos: LSN, key: Key, id: string, deletes: bool)

  ghost predicate Ordered(changes: seq<Change>) {
    forall i, j :: 0 <= i < j < |changes| ==> changes[i].pos < changes[j].pos
  }

  // Whether the table holds the key when all changes up to a position are visible.
  function PresentAt(changes: seq<Change>, p: LSN, k: Key): bool {
    if changes == [] then false
    else
      var last := changes[|changes| - 1];
      if last.pos <= p && last.key == k then !last.deletes else PresentAt(changes[..|changes| - 1], p, k)
  }

  ghost predicate VersionAt(t: seq<Key>, changes: seq<Change>, p: LSN) {
    Ascending(t) && forall k :: k in t <==> PresentAt(changes, p, k)
  }

  // Every query of the snapshot sees the table at some position not before the slot.
  ghost predicate SeesAfter(env: seq<Query>, changes: seq<Change>, slot: LSN) {
    forall i :: 0 <= i < |env| && env[i].Rows? ==> exists p: LSN :: slot <= p && VersionAt(env[i].table, changes, p)
  }

  // What the slot makes the server send: the changes behind it.
  function Behind(changes: seq<Change>, slot: LSN): seq<Change> {
    if changes == [] || changes[0].pos > slot then changes else Behind(changes[1..], slot)
  }

  function Stream(changes: seq<Change>, slot: LSN): (wal: seq<P.WalEvent>)
    ensures |wal| == |Behind(changes, slot)|
    ensures forall i :: 0 <= i < |wal| ==>
              wal[i] == P.WalEvent(Behind(changes, slot)[i].pos, Behind(changes, slot)[i].id)
  {
    var cs := Behind(changes, slot);
    seq(|cs|, i requires 0 <= i < |cs| => P.WalEvent(cs[i].pos, cs[i].id))
  }

  lemma {:induction false} BehindIsSuffix(changes: seq<Change>, slot: LSN) returns (n: nat)
    requires Ordered(changes)
    ensures n <= |changes| && Behind(changes, slot) == changes[n..]
    ensures forall j :: 0 <= j < |changes| ==> (changes[j].pos > slot <==> n <= j)
  {
    if changes == [] || changes[0].pos > slot {
      n := 0;
    } else {
      var rest := changes[1..];
      var m := BehindIsSuffix(rest, slot);
      n := m + 1;
      forall j | 0 <= j < |changes| ensures changes[j].pos > slot <==> n <= j {
        if j > 0 { assert changes[j] == rest[j - 1]; }
      }
    }
  }

  // Each change behind the slot is in the stream, above the slot; the stream is in order.
  lemma StreamCarries(changes: seq<Change>, slot: LSN)
    requires Ordered(changes)
    ensures P.StreamOrdered(Stream(changes, slot), slot)
    ensures forall c :: c in changes && c.pos > slot ==> P.WalEvent(c.pos, c.id) in Stream(changes, slot)
  {
    var n := BehindIsSuffix(changes, slot);
    var wal := Stream(changes, slot);
    forall c | c in changes && c.pos > slot ensures P.WalEvent(c.pos, c.id) in wal {
      var j :| 0 <= j < |changes| && changes[j] == c;
      assert Behind(changes, slot)[j - n] == c;
      assert wal[j - n] == P.WalEvent(c.pos, c.id);
    }
  }

  // A row changes behind the slot.
  ghost predicate ChangesBehind(changes: seq<Change>, slot: LSN, k: Key) {
    exists c :: c in changes && c.key == k && c.pos > slot
  }

  lemma {:induction false} UnchangedStays(changes: seq<Change>, slot: LSN, p: LSN, k: Key)
    requires slot <= p && !ChangesBehind(changes, slot, k)
    ensures PresentAt(changes, p, k) == PresentAt(changes, slot, k)
  {
    if changes != [] {
      var n := |changes| - 1;
      assert changes[n] in changes;
      forall c | c in changes[..n] ensures !(c.key == k && c.pos > slot) {
        assert c in changes;
      }
      UnchangedStays(changes[..n], slot, p, k);
    }
  }

  // Rows of the table at the slot that do not change afterwards.
  ghost predicate Settled(changes: seq<Change>, slot: LSN, rows: set<Key>) {
    forall k :: k in rows ==> PresentAt(changes, slot, k) && !ChangesBehind(changes, slot, k)
  }

  lemma SettledIsStable(changes: seq<Change>, slot: LSN, env: seq<Query>, rows: set<Key>)
    requires SeesAfter(env, changes, slot) && Settled(changes, slot, rows)
    ensures Stable(env, rows)
  {
    forall i | 0 <= i < |env| && env[i].Rows? ensures Ascending(env[i].table) && rows <= Keys(env[i].table) {
      var p: LSN :| slot <= p && VersionAt(env[i].table, changes, p);
      forall k | k in rows ensures k in Keys(env[i].table) {
        UnchangedStays(changes, slot, p, k);
      }
    }
  }

  // The snapshot's side: once a call completed or the done marker is set, over any number of crashed
  // attempts, every row that was in the table at the slot was handed over, or changes behind the slot.
  lemma {:induction false} SnapshotCoversSlot(cfg: Config, changes: seq<Change>, slot: LSN, store: Store,
                                             attempts: seq<Attempt>, k: Key)
    requires Fetches(cfg) && store.cursor.None? && !store.done
    requires forall i :: 0 <= i < |attempts| ==> SeesAfter(attempts[i].env, changes, slot)
    requires var (store', _, completed) := RunAttempts(cfg, Some(store), {}, false, attempts);
             completed || (store'.Some? && store'.value.done)
    requires PresentAt(changes, slot, k)
    ensures k in RunAttempts(cfg, Some(store), {}, false, attempts).1 || ChangesBehind(changes, slot, k)
  {
    if !ChangesBehind(changes, slot, k) {
      forall i | 0 <= i < |attempts| ensures Stable(attempts[i].env, {k}) {
        SettledIsStable(changes, slot, attempts[i].env, {k});
      }
      CrashRecovery(cfg, {k}, Some(store), {}, false, attempts);
    }
  }

  // The stream's side: each change behind the slot that carries an id is in the stream, and was
  // processed or is sent again wherever the server resumes.
  ghost predicate Safe(wal: seq<P.WalEvent>, s: P.State, c: Change) {
    exists i: nat :: i < |wal| && wal[i] == P.WalEvent(c.pos, c.id) && SafeAt(wal, s, i)
  }

  ghost predicate SafeAt(wal: seq<P.WalEvent>, s: P.State, i: nat) {
    P.Processed(s, i) || forall resume: LSN :: resume <= s.sentMax ==> P.Reach(wal, resume) <= i
  }

  lemma {:induction false} StreamCoversChanges(changes: seq<Change>, slot: LSN, acts: seq<P.Action>, c: Change)
    requires Ordered(changes) && c in changes && c.pos > slot && c.id != ""
    requires Valid(P.System(Stream(changes, slot)), P.Initial(slot), acts)
    requires D.Lockstep(Stream(changes, slot), P.Initial(slot), acts)
    ensures Safe(Stream(changes, slot), Exec(P.System(Stream(changes, slot)), P.Initial(slot), acts), c)
  {
    var wal := Stream(changes, slot);
    StreamCarries(changes, slot);
    D.AtLeastOnceUnderLockstep(wal, slot, acts);
    var i: nat :| i < |wal| && wal[i] == P.WalEvent(c.pos, c.id);
    assert P.Deliverable(wal, i);
    assert SafeAt(wal, Exec(P.System(wal), P.Initial(slot), acts), i);
  }

  // Together, under lockstep and over any number of failed attempts, runs and restarts: each row that
  // was in the table at the slot was handed over by the snapshot, or a change of it is safe with the
  // stream; and so is every change behind the slot. Every change is taken to carry an id.
  lemma {:induction false} NothingFallsBetween(cfg: Config, changes: seq<Change>, slot: LSN, store: Store,
                                              attempts: seq<Attempt>, acts: seq<P.Action>)
    requires Fetches(cfg) && store.cursor.None? && !store.done
    requires Ordered(changes) && forall c :: c in changes ==> c.id != ""
    requires forall i :: 0 <= i < |attempts| ==> SeesAfter(attempts[i].env, changes, slot)
    requires var (store', _, completed) := RunAttempts(cfg, Some(store), {}, false, attempts);
             completed || (store'.Some? && store'.value.done)
    requires Valid(P.System(Stream(changes, slot)), P.Initial(slot), acts)
    requires D.Lockstep(Stream(changes, slot), P.Initial(slot), acts)
    ensures var wal, s := Stream(changes, slot), Exec(P.System(Stream(changes, slot)), P.Initial(slot), acts);
            && (forall k :: PresentAt(changes, slot, k) ==>
                  || k in RunAttempts(cfg, Some(store), {}, false, attempts).1
                  || exists c :: c in changes && c.key == k && Safe(wal, s, c))
            && (forall c :: c in changes && c.pos > slot ==> Safe(wal, s, c))
  {
    var wal, s := Stream(changes, slot), Exec(P.System(Stream(changes, slot)), P.Initial(slot), acts);
    forall c | c in changes && c.pos > slot ensures Safe(wal, s, c) {
      StreamCoversChanges(changes, slot, acts, c);
    }
    forall k | PresentAt(changes, slot, k)
      ensures || k in RunAttempts(cfg, Some(store), {}, false, attempts).1
              || exists c :: c in changes && c.key == k && Safe(wal, s, c)
    {
      SnapshotCoversSlot(cfg, changes, slot, store, attempts, k);
    }
  }
}
