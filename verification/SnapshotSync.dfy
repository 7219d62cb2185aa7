// The resumable snapshot: keyset pagination with a saved cursor and a done marker
// (source/postgres/source/snapshot.go and source/mongo/source/snapshot.go).
module SnapshotSync {
  import opened Prelude

  // A primary key by its rank in the order of the database; 0 is the empty text.
  type Key = nat

  // The drivers differ in what a limit of 0 means: no rows for Postgres, no limit for Mongo.
  datatype Driver = Postgres | Mongo
  datatype Mode = InitialOnce | Always
  datatype Config = Config(driver: Driver, mode: Mode, batchSize: nat)

  // The "snapshot:cursor:<table>" and "snapshot:done:<table>" keys.
  datatype Store = Store(cursor: Option<Key>, done: bool)

  // One iteration of the batch loop, as the environment decides it: the version of the table the
  // query sees; after how many rows an error, a cancellation or a crash ends the pass, if it does;
  // and whether the cursor save is applied (its error is ignored).
  datatype Query = QueryFails | Rows(table: seq<Key>, stop: Option<nat>, saved: bool)

  // The store calls outside the loop: whether the loads return what is stored, whether connecting
  // works, and whether the final delete and marker save are applied. A crash before, between or
  // after the two final calls looks like calls that were not applied.
  datatype Calls = Calls(doneLoads: bool, connects: bool, cursorLoads: bool, deleted: bool, marked: bool)

  datatype Outcome = Refused | Skipped | Broken | Completed

  ghost predicate Ascending(t: seq<Key>) {
    forall i, j :: 0 <= i < j < |t| ==> t[i] < t[j]
  }

  // ---------------------------------------------------------------- One query

  // WHERE key > k on a table in key order.
  function Above(t: seq<Key>, k: Key): seq<Key> {
    if t == [] || t[0] > k then t else Above(t[1..], k)
  }

  // An empty last key means no WHERE clause.
  function Selected(t: seq<Key>, lastKey: Key): seq<Key> {
    if lastKey == 0 then t else Above(t, lastKey)
  }

  function Limited(cfg: Config, rows: seq<Key>): seq<Key> {
    if cfg.driver == Mongo && cfg.batchSize == 0 then rows else rows[..Min(cfg.batchSize, |rows|)]
  }

  predicate Fetches(cfg: Config) {
    cfg.driver == Mongo || cfg.batchSize > 0
  }

  function Page(cfg: Config, t: seq<Key>, lastKey: Key): seq<Key> {
    Limited(cfg, Selected(t, lastKey))
  }

  lemma {:induction false} AboveIsSuffix(t: seq<Key>, k: Key) returns (n: nat)
    requires Ascending(t)
    ensures n <= |t| && Above(t, k) == t[n..]
    ensures forall i :: 0 <= i < |t| ==> (t[i] > k <==> n <= i)
  {
    if t == [] || t[0] > k {
      n := 0;
    } else {
      var m := AboveIsSuffix(t[1..], k);
      n := m + 1;
      forall i | 0 <= i < |t| ensures t[i] > k <==> n <= i {
        if i > 0 { assert t[i] == t[1..][i - 1]; }
      }
    }
  }

  function PageSize(cfg: Config, m: nat): nat {
    if cfg.driver == Mongo && cfg.batchSize == 0 then m else Min(cfg.batchSize, m)
  }

  // A page is a contiguous part of the table, right behind the last key.
  lemma PageSlice(cfg: Config, t: seq<Key>, lastKey: Key) returns (n: nat, m: nat)
    requires Ascending(t)
    ensures n <= m <= |t| && Page(cfg, t, lastKey) == t[n..m] && m - n == PageSize(cfg, |t| - n)
    ensures Selected(t, lastKey) == t[n..]
    ensures lastKey == 0 ==> n == 0
    ensures lastKey > 0 ==> forall i :: 0 <= i < |t| ==> (t[i] > lastKey <==> n <= i)
  {
    n := 0;
    if lastKey != 0 {
      n := AboveIsSuffix(t, lastKey);
    }
    m := n + PageSize(cfg, |t| - n);
    assert Selected(t, lastKey) == t[n..];
  }

  lemma SelectedBehind(t: seq<Key>, j: nat)
    requires Ascending(t) && j < |t| && t[j] > 0
    ensures Selected(t, t[j]) == t[j + 1..]
  {
    var k := AboveIsSuffix(t, t[j]);
    SplitPoint(t, j, t[j], k);
  }

  // The rows selected after a page are the rows selected before it, without the page.
  lemma PageAdvances(cfg: Config, t: seq<Key>, lastKey: Key)
    requires Ascending(t) && Page(cfg, t, lastKey) != []
    requires var p := Page(cfg, t, lastKey); p[|p| - 1] > 0
    ensures var p := Page(cfg, t, lastKey);
            Selected(t, lastKey) == p + Selected(t, p[|p| - 1])
  {
    var p := Page(cfg, t, lastKey);
    var n, m := PageSlice(cfg, t, lastKey);
    assert p[|p| - 1] == t[m - 1];
    SelectedBehind(t, m - 1);
    assert t[n..] == t[n..m] + t[m..];
  }

  lemma SplitPoint(t: seq<Key>, j: nat, last: Key, m: nat)
    requires Ascending(t) && j < |t| && t[j] == last && m <= |t|
    requires forall i :: 0 <= i < |t| ==> (t[i] > last <==> m <= i)
    ensures m == j + 1
  {
    assert j + 1 < |t| ==> t[j] < t[j + 1];
  }

  // ---------------------------------------------------------------- The batch loop

  // What the loop hands over, the cursor it leaves in the store, whether it broke off or ran out of
  // rows, and how many queries it made. An exhausted environment is a crash.
  datatype Pass = Pass(emitted: seq<Key>, store: Option<Store>, finished: bool, queries: nat)

  function SaveCursor(store: Option<Store>, q: Query, last: Key): Option<Store> {
    if store.Some? && q.Rows? && q.saved then Some(store.value.(cursor := Some(last))) else store
  }

  // Stopped: an error, cancellation or crash; Exhausted: the query found no rows.
  datatype BatchEnd = Stopped | Exhausted | More

  // One iteration: the store, the rows handed over, how it ended, the key to continue from.
  function RunBatch(cfg: Config, store: Option<Store>, lastKey: Key, q: Query)
    : (Option<Store>, seq<Key>, BatchEnd, Key)
  {
    if q.QueryFails? then (store, [], Stopped, lastKey)
    else
      var page := Page(cfg, q.table, lastKey);
      if q.stop.Some? then (store, page[..Min(q.stop.value, |page|)], Stopped, lastKey)
      else if page == [] then (store, [], Exhausted, lastKey)
      else
        var last := page[|page| - 1];
        (SaveCursor(store, q, last), page, More, last)
  }

  function RunPass(cfg: Config, store: Option<Store>, lastKey: Key, env: seq<Query>): Pass
    decreases |env|
  {
    if env == [] then Pass([], store, false, 0)
    else
      var (store', rows, end, next) := RunBatch(cfg, store, lastKey, env[0]);
      if end == More then
        var rest := RunPass(cfg, store', next, env[1..]);
        Pass(rows + rest.emitted, rest.store, rest.finished, 1 + rest.queries)
      else Pass(rows, store', end == Exhausted, 1)
  }

  // The rest of a pass continues the whole, after some rows were handed over.
  ghost predicate Continues(whole: Pass, handed: seq<Key>, rest: Pass) {
    whole.store == rest.store && whole.finished == rest.finished && whole.emitted == handed + rest.emitted
  }

  // Nothing is left to be handed over.
  ghost predicate Settles(whole: Pass, handed: seq<Key>, store: Option<Store>, finished: bool) {
    whole.store == store && whole.finished == finished && whole.emitted == handed
  }

  lemma NextBatch(cfg: Config, env: seq<Query>, q: nat, whole: Pass, handed: seq<Key>,
                  store: Option<Store>, lastKey: Key,
                  store': Option<Store>, rows: seq<Key>, end: BatchEnd, next: Key)
    requires q < |env| && Continues(whole, handed, RunPass(cfg, store, lastKey, env[q..]))
    requires (store', rows, end, next) == RunBatch(cfg, store, lastKey, env[q])
    ensures if end == More then Continues(whole, handed + rows, RunPass(cfg, store', next, env[q + 1..]))
            else Settles(whole, handed + rows, store', end == Exhausted)
  {
    assert env[q..][0] == env[q] && env[q..][1..] == env[q + 1..];
    if end == More {
      var rest := RunPass(cfg, store', next, env[q + 1..]);
      assert handed + (rows + rest.emitted) == (handed + rows) + rest.emitted;
    }
  }

  lemma NoMoreBatches(cfg: Config, store: Option<Store>, lastKey: Key, env: seq<Query>, whole: Pass, handed: seq<Key>)
    requires Continues(whole, handed, RunPass(cfg, store, lastKey, env[|env|..]))
    ensures Settles(whole, handed, store, false)
  {
    assert handed + [] == handed;
  }

  function AfterPass(cfg: Config, store: Option<Store>, calls: Calls): Option<Store> {
    if store.None? then None
    else Some(Store(if calls.deleted then None else store.value.cursor,
                    store.value.done || (cfg.mode == InitialOnce && calls.marked)))
  }

  function StartKey(store: Option<Store>, calls: Calls): Key {
    if store.Some? && calls.cursorLoads then store.value.cursor.GetOr(0) else 0
  }

  // One call of SyncSnapshot: the store it leaves, the rows it pushed, how it ended.
  function Sync(cfg: Config, store: Option<Store>, env: seq<Query>, calls: Calls): (Option<Store>, seq<Key>, Outcome) {
    if cfg.mode == InitialOnce && store.None? then (store, [], Refused)
    else if cfg.mode == InitialOnce && calls.doneLoads && store.value.done then (store, [], Skipped)
    else if cfg.driver == Postgres && !calls.connects then (store, [], Broken)
    else
      var pass := RunPass(cfg, store, StartKey(store, calls), env);
      if pass.finished then (AfterPass(cfg, pass.store, calls), pass.emitted, Completed)
      else (pass.store, pass.emitted, Broken)
  }

  class SnapshotSource {
    var store: Option<Store>
    // Every row pushed into the channel so far.
    var pushed: seq<Key>

    constructor (store: Option<Store>)
      ensures this.store == store && pushed == []
    {
      this.store, pushed := store, [];
    }

    method PushRows(rows: seq<Key>, stop: Option<nat>) returns (count: nat)
      modifies this`pushed
      ensures count == (if stop.Some? then Min(stop.value, |rows|) else |rows|)
      ensures pushed == old(pushed) + rows[..count]
    {
      count := 0;
      while count < |rows|
        invariant count <= |rows| && (stop.Some? ==> count <= stop.value)
        invariant pushed == old(pushed) + rows[..count]
      {
        if stop == Some(count) {
          return;
        }
        pushed := pushed + [rows[count]];
        assert rows[..count + 1] == rows[..count] + [rows[count]];
        count := count + 1;
      }
      assert rows[..count] == rows;
    }

    // One query and the rows it yields, up to the cursor save.
    method SyncBatch(cfg: Config, lastKey: Key, q: Query) returns (ghost rows: seq<Key>, end: BatchEnd, next: Key)
      modifies this
      ensures (store, rows, end, next) == RunBatch(cfg, old(store), lastKey, q)
      ensures pushed == old(pushed) + rows
    {
      rows, next := [], lastKey;
      if q.QueryFails? {
        assert pushed + [] == pushed;
        end := Stopped;
        return;
      }
      var page := Page(cfg, q.table, lastKey);
      var count := PushRows(page, q.stop);
      rows := page[..count];
      if q.stop.Some? {
        end := Stopped;
        return;
      }
      assert page[..count] == page;
      if count == 0 {
        end := Exhausted;
        return;
      }
      next, end := page[count - 1], More;
      if store.Some? && q.saved {
        store := Some(store.value.(cursor := Some(next)));
      }
    }

    // The batch loop.
    method SyncBatches(cfg: Config, start: Key, env: seq<Query>) returns (finished: bool)
      modifies this
      ensures var pass := RunPass(cfg, old(store), start, env);
              store == pass.store && pushed == old(pushed) + pass.emitted && finished == pass.finished
    {
      ghost var pass := RunPass(cfg, store, start, env);
      ghost var whole := pass.(emitted := pushed + pass.emitted);
      assert env[0..] == env;
      var lastKey := start;
      var q := 0;
      while q < |env|
        invariant q <= |env| && Continues(whole, pushed, RunPass(cfg, store, lastKey, env[q..]))
      {
        ghost var before, handed, rows := store, pushed, [];
        var end, next;
        rows, end, next := SyncBatch(cfg, lastKey, env[q]);
        NextBatch(cfg, env, q, whole, handed, before, lastKey, store, rows, end, next);
        if end != More {
          return end == Exhausted;
        }
        lastKey := next;
        q := q + 1;
      }
      NoMoreBatches(cfg, store, lastKey, env, whole, pushed);
      finished := false;
    }

    method SyncSnapshot(cfg: Config, env: seq<Query>, calls: Calls) returns (outcome: Outcome)
      modifies this
      ensures var (store', emitted, o) := Sync(cfg, old(store), env, calls);
              store == store' && pushed == old(pushed) + emitted && outcome == o
    {
      if cfg.mode == InitialOnce && store.None? {
        return Refused;
      }
      if cfg.mode == InitialOnce && calls.doneLoads && store.value.done {
        return Skipped;
      }
      if cfg.driver == Postgres && !calls.connects {
        return Broken;
      }
      var lastKey: Key := 0;
      if store.Some? && calls.cursorLoads && store.value.cursor.Some? {
        lastKey := store.value.cursor.value;
      }
      var finished := SyncBatches(cfg, lastKey, env);
      if !finished {
        return Broken;
      }
      if store.Some? {
        if calls.deleted {
          store := Some(store.value.(cursor := None));
        }
        if cfg.mode == InitialOnce && calls.marked {
          store := Some(store.value.(done := true));
        }
      }
      outcome := Completed;
    }
  }
}
