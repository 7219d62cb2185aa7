// What snapshot passes hand over: over a table that changes between batches, over a static table,
// and over any number of crashed attempts.
module SnapshotResume {
  import opened Prelude
  import opened SnapshotSync

  ghost predicate SortedTables(env: seq<Query>) {
    forall i :: 0 <= i < |env| && env[i].Rows? ==> Ascending(env[i].table)
  }

  ghost predicate NonEmptyKeys(env: seq<Query>) {
    forall i, k :: 0 <= i < |env| && env[i].Rows? && k in env[i].table ==> k > 0
  }

  lemma PageAscends(cfg: Config, t: seq<Key>, lastKey: Key)
    requires Ascending(t)
    ensures Ascending(Page(cfg, t, lastKey))
    ensures forall i :: 0 <= i < |Page(cfg, t, lastKey)| ==>
              Page(cfg, t, lastKey)[i] in t && (lastKey > 0 ==> Page(cfg, t, lastKey)[i] > lastKey)
  {
    var n, m := PageSlice(cfg, t, lastKey);
    assert forall i :: 0 <= i < |t[n..m]| ==> t[n..m][i] == t[n + i];
  }

  // It skips no row of the table above the last key and up to its own last row.
  lemma PageSkipsNothing(cfg: Config, t: seq<Key>, lastKey: Key, k: Key)
    requires Ascending(t) && k in t && (lastKey == 0 || k > lastKey)
    requires var p := Page(cfg, t, lastKey); p != [] && k <= p[|p| - 1]
    ensures k in Page(cfg, t, lastKey)
  {
    var n, m := PageSlice(cfg, t, lastKey);
    var i :| 0 <= i < |t| && t[i] == k;
    assert t[n..m][m - n - 1] == t[m - 1];
    assert forall x :: m <= x < |t| ==> t[m - 1] < t[x];
    assert t[n..m][i - n] == k;
  }

  // If it is empty although rows can be fetched, nothing is left.
  lemma EmptyPageMeansDone(cfg: Config, t: seq<Key>, lastKey: Key, k: Key)
    requires Ascending(t) && Fetches(cfg) && k in t && Page(cfg, t, lastKey) == []
    ensures lastKey > 0 && k <= lastKey
  {
    var n, m := PageSlice(cfg, t, lastKey);
    var i :| 0 <= i < |t| && t[i] == k;
    assert n == |t|;
  }

  // ---------------------------------------------------------------- A changing table

  ghost predicate AscendingFrom(keys: seq<Key>, start: Key) {
    Ascending(keys) && forall i :: 0 <= i < |keys| ==> keys[i] > start
  }

  lemma JoinAscending(rows: seq<Key>, rest: seq<Key>, start: Key, next: Key)
    requires AscendingFrom(rows, start) && AscendingFrom(rest, next)
    requires rows != [] && next == rows[|rows| - 1]
    ensures AscendingFrom(rows + rest, start)
  {
  }

  lemma BatchAscends(cfg: Config, store: Option<Store>, start: Key, q: Query)
    requires q.Rows? && Ascending(q.table) && forall k :: k in q.table ==> k > 0
    ensures AscendingFrom(RunBatch(cfg, store, start, q).1, start)
  {
    PageAscends(cfg, q.table, start);
    var page := Page(cfg, q.table, start);
    var rows := RunBatch(cfg, store, start, q).1;
    assert forall i :: 0 <= i < |rows| ==> rows[i] == page[i] && page[i] in q.table;
  }

  // Whatever version of the table each query sees, and however the pass ends, the keys handed over
  // strictly ascend from the starting key, so none repeats.
  lemma {:induction false} KeysAscend(cfg: Config, store: Option<Store>, start: Key, env: seq<Query>)
    requires SortedTables(env) && NonEmptyKeys(env)
    ensures AscendingFrom(RunPass(cfg, store, start, env).emitted, start)
    decreases |env|
  {
    if env != [] && env[0].Rows? {
      BatchAscends(cfg, store, start, env[0]);
      var (store', rows, end, next) := RunBatch(cfg, store, start, env[0]);
      if end == More {
        KeysAscend(cfg, store', next, env[1..]);
        JoinAscending(rows, RunPass(cfg, store', next, env[1..]).emitted, start, next);
      }
    }
  }

  // A pass that ran out of rows handed over every row that all the queried versions contain above
  // the starting key.
  lemma {:induction false} StableRowIsEmitted(cfg: Config, store: Option<Store>, start: Key, env: seq<Query>, k: Key)
    requires Fetches(cfg) && SortedTables(env)
    requires var pass := RunPass(cfg, store, start, env);
             && pass.finished && pass.queries <= |env|
             && forall i :: 0 <= i < pass.queries && env[i].Rows? ==> k in env[i].table
    requires k > start
    ensures k in RunPass(cfg, store, start, env).emitted
    decreases |env|
  {
    var (store', rows, end, next) := RunBatch(cfg, store, start, env[0]);
    if end == Exhausted {
      EmptyPageMeansDone(cfg, env[0].table, start, k);
    } else if k <= next {
      PageSkipsNothing(cfg, env[0].table, start, k);
    } else {
      var rest := RunPass(cfg, store', next, env[1..]);
      assert forall i :: 0 <= i < rest.queries && i < |env[1..]| ==> env[1..][i] == env[i + 1];
      PassUsesItsQueries(cfg, store', next, env[1..]);
      StableRowIsEmitted(cfg, store', next, env[1..], k);
    }
  }

  lemma {:induction false} PassUsesItsQueries(cfg: Config, store: Option<Store>, start: Key, env: seq<Query>)
    ensures RunPass(cfg, store, start, env).queries <= |env|
    decreases |env|
  {
    if env != [] {
      var (store', rows, end, next) := RunBatch(cfg, store, start, env[0]);
      if end == More {
        PassUsesItsQueries(cfg, store', next, env[1..]);
      }
    }
  }

  // A finished pass over a changing table: strictly ascending, above the start, and complete for
  // the rows that were there throughout.
  lemma ChangingTablePass(cfg: Config, store: Option<Store>, start: Key, env: seq<Query>)
    requires Fetches(cfg) && SortedTables(env) && NonEmptyKeys(env)
    requires RunPass(cfg, store, start, env).finished
    ensures var pass := RunPass(cfg, store, start, env);
            && pass.queries <= |env|
            && AscendingFrom(pass.emitted, start)
            && forall k :: k > start && (forall i :: 0 <= i < pass.queries && env[i].Rows? ==> k in env[i].table) ==>
                 k in pass.emitted
  {
    var pass := RunPass(cfg, store, start, env);
    KeysAscend(cfg, store, start, env);
    PassUsesItsQueries(cfg, store, start, env);
    forall k | k > start && (forall i :: 0 <= i < pass.queries && env[i].Rows? ==> k in env[i].table)
      ensures k in pass.emitted
    {
      StableRowIsEmitted(cfg, store, start, env, k);
    }
  }

  // ---------------------------------------------------------------- A static table

  ghost predicate Static(env: seq<Query>, t: seq<Key>) {
    forall i :: 0 <= i < |env| && env[i].Rows? ==> env[i].table == t
  }

  predicate Clean(env: seq<Query>) {
    forall i :: 0 <= i < |env| ==> env[i].Rows? && env[i].stop.None?
  }

  // Queries needed for m rows: one per page and one that finds nothing.
  function QueriesFor(cfg: Config, m: nat): (n: nat)
    ensures n >= 1
  {
    if PageSize(cfg, m) == 0 then 1 else 1 + QueriesFor(cfg, m - PageSize(cfg, m))
  }

  // A first page that is just the row with the empty key leaves the last key empty: start over.
  predicate Stuck(cfg: Config, t: seq<Key>, start: Key) {
    start == 0 && t != [] && t[0] == 0 && PageSize(cfg, |t|) == 1
  }

  lemma NotStuckLater(cfg: Config, t: seq<Key>, start: Key)
    requires Ascending(t) && !Stuck(cfg, t, start) && Page(cfg, t, start) != []
    ensures var p := Page(cfg, t, start); p[|p| - 1] > 0
  {
    PageAscends(cfg, t, start);
    var n, m := PageSlice(cfg, t, start);
    var p := Page(cfg, t, start);
    assert |p| > 1 ==> p[0] < p[|p| - 1];
    assert start == 0 ==> p[0] == t[0];
  }

  lemma PrefixBehind(rows: seq<Key>, part: seq<Key>, whole: seq<Key>)
    requires part <= whole
    ensures rows + part <= rows + whole
  {
  }

  // On a table that does not change, a pass hands over the selected rows in key order, up to where
  // it breaks off; if it finishes, all of them.
  lemma {:induction false} StaticPass(cfg: Config, store: Option<Store>, start: Key, env: seq<Query>, t: seq<Key>)
    requires Ascending(t) && Static(env, t) && !Stuck(cfg, t, start)
    ensures var pass := RunPass(cfg, store, start, env);
            && pass.emitted <= Selected(t, start)
            && (pass.finished && Fetches(cfg) ==> pass.emitted == Selected(t, start))
    decreases |env|
  {
    if env != [] && env[0].Rows? {
      var (store', rows, end, next) := RunBatch(cfg, store, start, env[0]);
      if end == More {
        NotStuckLater(cfg, t, start);
        PageAdvances(cfg, t, start);
        StaticPass(cfg, store', next, env[1..], t);
        PrefixBehind(rows, RunPass(cfg, store', next, env[1..]).emitted, Selected(t, next));
      }
    }
  }

  // Without failures it finishes exactly if it gets one query per page and one more.
  lemma {:induction false} StaticPassEnds(cfg: Config, store: Option<Store>, start: Key, env: seq<Query>, t: seq<Key>)
    requires Ascending(t) && Static(env, t) && Clean(env) && !Stuck(cfg, t, start)
    ensures RunPass(cfg, store, start, env).finished <==> |env| >= QueriesFor(cfg, |Selected(t, start)|)
    decreases |env|
  {
    if env != [] {
      var (store', rows, end, next) := RunBatch(cfg, store, start, env[0]);
      if end == More {
        NotStuckLater(cfg, t, start);
        PageAdvances(cfg, t, start);
        StaticPassEnds(cfg, store', next, env[1..], t);
        assert |rows| == PageSize(cfg, |Selected(t, start)|);
      }
    }
  }

  // The stuck case: the same row is handed over again and again, and no number of queries ends it.
  lemma {:induction false} StuckForever(cfg: Config, store: Option<Store>, env: seq<Query>, t: seq<Key>)
    requires Ascending(t) && Static(env, t) && Clean(env) && Stuck(cfg, t, 0)
    ensures var pass := RunPass(cfg, store, 0, env);
            !pass.finished && pass.emitted == seq(|env|, i => 0)
    decreases |env|
  {
    if env != [] {
      var (store', rows, end, next) := RunBatch(cfg, store, 0, env[0]);
      assert rows == [0];
      StuckForever(cfg, store', env[1..], t);
    }
  }

  // n queries that all see t and succeed.
  function Steady(t: seq<Key>, saved: bool, n: nat): (env: seq<Query>)
    ensures |env| == n && Static(env, t) && Clean(env)
  {
    seq(n, i => Rows(t, None, saved))
  }

  ghost predicate HandsOverTable(cfg: Config, t: seq<Key>, saved: bool, n: nat) {
    var pass := RunPass(cfg, None, 0, Steady(t, saved, n));
    pass.finished && pass.emitted == t
  }

  // A first snapshot of a static table, given any number of queries without failures, hands over
  // exactly the table for some number of queries if and only if it can fetch rows at all and the
  // empty key does not fill a page of its own.
  lemma FreshSnapshotExact(cfg: Config, t: seq<Key>, saved: bool)
    requires Ascending(t)
    ensures (exists n: nat :: HandsOverTable(cfg, t, saved, n)) <==> (t == [] || (Fetches(cfg) && !Stuck(cfg, t, 0)))
  {
    if t == [] || (Fetches(cfg) && !Stuck(cfg, t, 0)) {
      var n := QueriesFor(cfg, |t|);
      StaticPassEnds(cfg, None, 0, Steady(t, saved, n), t);
      StaticPass(cfg, None, 0, Steady(t, saved, n), t);
      assert HandsOverTable(cfg, t, saved, n);
    } else {
      forall n: nat ensures !HandsOverTable(cfg, t, saved, n) {
        if Stuck(cfg, t, 0) {
          StuckForever(cfg, None, Steady(t, saved, n), t);
        } else if n > 0 {
          assert RunBatch(cfg, None, 0, Steady(t, saved, n)[0]).2 == Exhausted;
        }
      }
    }
  }

  // ---------------------------------------------------------------- Crashed attempts

  datatype Attempt = Attempt(env: seq<Query>, calls: Calls)

  // The store after some attempts, every key handed over in any of them, and whether one completed.
  function RunAttempts(cfg: Config, store: Option<Store>, seen: set<Key>, completed: bool, attempts: seq<Attempt>)
    : (Option<Store>, set<Key>, bool)
    decreases |attempts|
  {
    if attempts == [] then (store, seen, completed)
    else
      var (store', keys, outcome) := Sync(cfg, store, attempts[0].env, attempts[0].calls);
      RunAttempts(cfg, store', seen + Keys(keys), completed || outcome == Completed, attempts[1..])
  }

  function Keys(keys: seq<Key>): set<Key> {
    set k | k in keys
  }

  ghost predicate AllUpTo(rows: set<Key>, key: Key, seen: set<Key>) {
    forall k :: k in rows && k <= key ==> k in seen
  }

  // A stored cursor and a done marker never promise more of these rows than was handed over.
  ghost predicate Honest(rows: set<Key>, store: Option<Store>, seen: set<Key>) {
    store.Some? ==>
      && (store.value.cursor.Some? ==> AllUpTo(rows, store.value.cursor.value, seen))
      && (store.value.done ==> rows <= seen)
  }

  // Every query sees a table in key order that contains these rows.
  ghost predicate Stable(env: seq<Query>, rows: set<Key>) {
    forall i :: 0 <= i < |env| && env[i].Rows? ==> Ascending(env[i].table) && rows <= Keys(env[i].table)
  }

  lemma BatchStaysHonest(cfg: Config, store: Option<Store>, start: Key, q: Query, rows: set<Key>, seen: set<Key>)
    requires q.Rows? && Ascending(q.table) && rows <= Keys(q.table) && Fetches(cfg)
    requires Honest(rows, store, seen) && (start > 0 ==> AllUpTo(rows, start, seen))
    ensures var (store', page, end, next) := RunBatch(cfg, store, start, q);
            && Honest(rows, store', seen + Keys(page))
            && (end == More ==> AllUpTo(rows, next, seen + Keys(page)))
            && (end == Exhausted ==> rows <= seen)
  {
    var (store', page, end, next) := RunBatch(cfg, store, start, q);
    forall k | k in rows && end == More && k <= next ensures k in seen + Keys(page) {
      assert k in Keys(q.table);
      if start == 0 || k > start {
        PageSkipsNothing(cfg, q.table, start, k);
      }
    }
    forall k | k in rows && end == Exhausted ensures k in seen {
      assert k in Keys(q.table);
      EmptyPageMeansDone(cfg, q.table, start, k);
    }
  }

  lemma KeysJoin(a: seq<Key>, b: seq<Key>, seen: set<Key>)
    ensures seen + Keys(a + b) == seen + Keys(a) + Keys(b)
  {
    assert forall k :: k in a + b <==> k in a || k in b;
  }

  lemma {:induction false} PassStaysHonest(cfg: Config, store: Option<Store>, start: Key, env: seq<Query>,
                                          rows: set<Key>, seen: set<Key>)
    requires Stable(env, rows) && Fetches(cfg)
    requires Honest(rows, store, seen) && (start > 0 ==> AllUpTo(rows, start, seen))
    ensures var pass := RunPass(cfg, store, start, env);
            && Honest(rows, pass.store, seen + Keys(pass.emitted))
            && (pass.finished ==> rows <= seen + Keys(pass.emitted))
    decreases |env|
  {
    if env == [] || env[0].QueryFails? {
      assert Keys([]) == {};
      assert seen + {} == seen;
    } else {
      BatchStaysHonest(cfg, store, start, env[0], rows, seen);
      var (store', page, end, next) := RunBatch(cfg, store, start, env[0]);
      if end == More {
        PassStaysHonest(cfg, store', next, env[1..], rows, seen + Keys(page));
        KeysJoin(page, RunPass(cfg, store', next, env[1..]).emitted, seen);
      }
    }
  }

  // Over any number of attempts, on a table that changes between queries, wherever they crash and
  // whichever store calls fail unnoticed, and for any rows that every queried version contains: a
  // stored cursor means that each of them up to it was handed over in some attempt, and the done
  // marker, or one completed attempt, that all were. A crash between deleting the cursor and saving
  // the marker only repeats rows.
  lemma {:induction false} CrashRecovery(cfg: Config, rows: set<Key>, store: Option<Store>, seen: set<Key>,
                                        completed: bool, attempts: seq<Attempt>)
    requires Fetches(cfg) && Honest(rows, store, seen) && (completed ==> rows <= seen)
    requires forall i :: 0 <= i < |attempts| ==> Stable(attempts[i].env, rows)
    ensures var (store', seen', completed') := RunAttempts(cfg, store, seen, completed, attempts);
            Honest(rows, store', seen') && seen <= seen' && (completed' ==> rows <= seen')
    decreases |attempts|
  {
    if attempts != [] {
      var a := attempts[0];
      var (store', keys, outcome) := Sync(cfg, store, a.env, a.calls);
      PassStaysHonest(cfg, store, StartKey(store, a.calls), a.env, rows, seen);
      assert Honest(rows, store', seen + Keys(keys));
      CrashRecovery(cfg, rows, store', seen + Keys(keys), completed || outcome == Completed, attempts[1..]);
    }
  }

  // In particular on a static table.
  lemma StaticCrashRecovery(cfg: Config, t: seq<Key>, attempts: seq<Attempt>)
    requires Ascending(t) && Fetches(cfg)
    requires forall i :: 0 <= i < |attempts| ==> Static(attempts[i].env, t)
    ensures var (store, seen, completed) := RunAttempts(cfg, Some(Store(None, false)), {}, false, attempts);
            && store.Some?
            && (store.value.cursor.Some? ==> forall k :: k in t && k <= store.value.cursor.value ==> k in seen)
            && (store.value.done || completed ==> Keys(t) <= seen)
  {
    forall i | 0 <= i < |attempts| ensures Stable(attempts[i].env, Keys(t)) {
      assert Static(attempts[i].env, t);
    }
    CrashRecovery(cfg, Keys(t), Some(Store(None, false)), {}, false, attempts);
    AttemptsKeepStore(cfg, Some(Store(None, false)), {}, false, attempts);
  }

  lemma {:induction false} AttemptsKeepStore(cfg: Config, store: Option<Store>, seen: set<Key>, completed: bool,
                                            attempts: seq<Attempt>)
    ensures RunAttempts(cfg, store, seen, completed, attempts).0.Some? == store.Some?
    decreases |attempts|
  {
    if attempts != [] {
      var a := attempts[0];
      var (store', keys, outcome) := Sync(cfg, store, a.env, a.calls);
      PassKeepsMarker(cfg, store, StartKey(store, a.calls), a.env);
      AttemptsKeepStore(cfg, store', seen + Keys(keys), completed || outcome == Completed, attempts[1..]);
    }
  }

  lemma {:induction false} PassKeepsMarker(cfg: Config, store: Option<Store>, start: Key, env: seq<Query>)
    ensures var s := RunPass(cfg, store, start, env).store;
            s.Some? == store.Some? && (s.Some? ==> s.value.done == store.value.done)
    decreases |env|
  {
    if env != [] {
      var (store', rows, end, next) := RunBatch(cfg, store, start, env[0]);
      if end == More {
        PassKeepsMarker(cfg, store', next, env[1..]);
      }
    }
  }

  // The done marker appears exactly when a call in mode Initial completes and its save is applied;
  // from then on such a call that sees the marker hands nothing over and leaves the store alone.
  lemma MarkerExact(cfg: Config, store: Store, env: seq<Query>, calls: Calls)
    ensures var (store', keys, outcome) := Sync(cfg, Some(store), env, calls);
            && store'.Some?
            && (store'.value.done <==> store.done || (outcome == Completed && cfg.mode == InitialOnce && calls.marked))
            && (cfg.mode == InitialOnce && store.done && calls.doneLoads ==> keys == [] && store' == Some(store))
  {
    PassKeepsMarker(cfg, Some(store), StartKey(Some(store), calls), env);
  }

  // With a batch size of 0 Postgres finds no rows at all: the snapshot completes at once, marks
  // itself done and hands nothing over, whatever the table holds.
  lemma ZeroBatchMarksDone(t: seq<Key>, saved: bool)
    ensures var calls := Calls(true, true, true, true, true);
            var cfg := Config(Postgres, InitialOnce, 0);
            Sync(cfg, Some(Store(None, false)), [Rows(t, None, saved)], calls) ==
            (Some(Store(None, true)), [], Completed)
  {
  }

  // ---------------------------------------------------------------- Pages and queries

  // A query asks for at most a batch: it yields all that is left if the batch holds it, else a full
  // batch. A batch size of 0 is no limit for Mongo, and for Postgres yields nothing.
  lemma PageIsABatch(cfg: Config, t: seq<Key>, lastKey: Key)
    ensures cfg.batchSize > 0 ==> |Page(cfg, t, lastKey)| == Min(cfg.batchSize, |Selected(t, lastKey)|)
    ensures cfg.batchSize == 0 ==> |Page(cfg, t, lastKey)| == if cfg.driver == Mongo then |Selected(t, lastKey)| else 0
  {
  }

  // One query for each batch or part of one, and one that finds nothing.
  lemma {:induction false} QueriesExact(cfg: Config, m: nat)
    requires cfg.batchSize > 0
    ensures QueriesFor(cfg, m) == (m + cfg.batchSize - 1) / cfg.batchSize + 1
  {
    var b := cfg.batchSize;
    if m > b {
      QueriesExact(cfg, m - b);
      DivStep(m - 1, b);
      assert m - 1 + b == m + b - 1 && m - b + b - 1 == m - 1;
    } else if m > 0 {
      assert QueriesFor(cfg, 0) == 1;
      OneBatch(m, b);
    } else {
      OneBatch(0, b);
    }
  }

  lemma OneBatch(m: nat, b: nat)
    requires b > 0 && m <= b
    ensures (m + b - 1) / b == if m == 0 then 0 else 1
  {
    if m == 0 {
      DivModUnique(b - 1, b, 0, b - 1);
    } else {
      DivModUnique(m + b - 1, b, 1, m - 1);
    }
  }

  // ---------------------------------------------------------------- What a call leaves for the next

  // How a call ends: refused without a store in mode Initial, skipped if the marker is seen in mode
  // Initial, broken off if it cannot connect, else as its pass does.
  lemma OutcomeExact(cfg: Config, store: Option<Store>, env: seq<Query>, calls: Calls)
    ensures var (store', keys, outcome) := Sync(cfg, store, env, calls);
            var initial := cfg.mode == InitialOnce;
            && (outcome == Refused <==> initial && store.None?)
            && (outcome == Skipped <==> initial && store.Some? && store.value.done && calls.doneLoads)
            && (outcome in {Refused, Skipped} || (cfg.driver == Postgres && !calls.connects) ==>
                  keys == [] && store' == store)
            && (outcome == Completed ==> cfg.driver == Mongo || calls.connects)
  {
  }

  // A completed call whose delete is applied leaves no cursor.
  lemma CompletedClearsCursor(cfg: Config, store: Option<Store>, env: seq<Query>, calls: Calls)
    requires Sync(cfg, store, env, calls).2 == Completed && calls.deleted
    ensures var store' := Sync(cfg, store, env, calls).0;
            store'.Some? == store.Some? && (store'.Some? ==> store'.value.cursor == None)
  {
    PassKeepsMarker(cfg, store, StartKey(store, calls), env);
  }

  // So in mode Always the next call reads the table from its beginning: given enough queries without
  // failures, it hands over all of a static table again.
  lemma AlwaysReadsAgain(cfg: Config, store: Option<Store>, env: seq<Query>, calls: Calls,
                         t: seq<Key>, env': seq<Query>, calls': Calls)
    requires cfg.mode == Always && Fetches(cfg)
    requires Sync(cfg, store, env, calls).2 == Completed && calls.deleted
    requires Ascending(t) && !Stuck(cfg, t, 0) && Static(env', t) && Clean(env')
    requires calls'.connects || cfg.driver == Mongo
    requires |env'| >= if cfg.batchSize == 0 then 2 else (|t| + cfg.batchSize - 1) / cfg.batchSize + 1
    ensures var (_, keys, outcome) := Sync(cfg, Sync(cfg, store, env, calls).0, env', calls');
            keys == t && outcome == Completed
  {
    var store' := Sync(cfg, store, env, calls).0;
    CompletedClearsCursor(cfg, store, env, calls);
    assert StartKey(store', calls') == 0;
    if cfg.batchSize > 0 {
      QueriesExact(cfg, |t|);
    } else {
      assert QueriesFor(cfg, 0) == 1;
    }
    StaticPass(cfg, store', 0, env', t);
    StaticPassEnds(cfg, store', 0, env', t);
  }

  // The first k queries succeed and find rows, the cursor save of the k-th is applied, and none after
  // it is.
  ghost predicate LastSaved(cfg: Config, env: seq<Query>, k: nat, rows: nat) {
    && 0 < k <= |env| && (k - 1) * BatchLimit(cfg, rows) < rows
    && (forall i :: 0 <= i < k ==> env[i].Rows? && env[i].stop.None?)
    && env[k - 1].saved
    && (forall i :: k <= i < |env| && env[i].Rows? ==> !env[i].saved)
  }

  function BatchLimit(cfg: Config, rows: nat): nat {
    if cfg.batchSize == 0 then rows else cfg.batchSize
  }

  // The rows of the first k batches.
  function RowsOf(cfg: Config, k: nat, rows: nat): nat {
    Min(k * BatchLimit(cfg, rows), rows)
  }

  lemma {:induction false} UnsavedKeepsStore(cfg: Config, store: Option<Store>, start: Key, env: seq<Query>)
    requires forall i :: 0 <= i < |env| && env[i].Rows? ==> !env[i].saved
    ensures RunPass(cfg, store, start, env).store == store
    decreases |env|
  {
    if env != [] {
      var (store', rows, end, next) := RunBatch(cfg, store, start, env[0]);
      if end == More {
        UnsavedKeepsStore(cfg, store', next, env[1..]);
      }
    }
  }

  lemma FirstPage(cfg: Config, t: seq<Key>, start: Key)
    requires Ascending(t) && Fetches(cfg) && !Stuck(cfg, t, start) && Selected(t, start) != []
    ensures var rows := Selected(t, start);
            var n := Min(BatchLimit(cfg, |rows|), |rows|);
            && n > 0 && Page(cfg, t, start) == rows[..n] && rows[n - 1] > 0 && Selected(t, rows[n - 1]) == rows[n..]
  {
    var rows := Selected(t, start);
    var n := Min(BatchLimit(cfg, |rows|), |rows|);
    NotStuckLater(cfg, t, start);
    PageAdvances(cfg, t, start);
    assert rows == rows[..n] + rows[n..];
  }

  // Behind the first batch the situation is the same, with one batch less.
  lemma LaterSaved(cfg: Config, env: seq<Query>, k: nat, m: nat)
    requires LastSaved(cfg, env, k, m) && k > 1
    ensures cfg.batchSize > 0 && cfg.batchSize < m && LastSaved(cfg, env[1..], k - 1, m - cfg.batchSize)
    ensures RowsOf(cfg, k, m) == cfg.batchSize + RowsOf(cfg, k - 1, m - cfg.batchSize)
  {
    var b := BatchLimit(cfg, m);
    assert (k - 1) * b == (k - 2) * b + b && k * b == (k - 1) * b + b;
    assert (k - 2) * b >= 0;
    assert env[1..][k - 2] == env[k - 1];
    assert forall i :: 0 <= i < |env| - 1 ==> env[1..][i] == env[i + 1];
  }

  lemma JoinRows(rows: seq<Key>, b: nat, n: nat, emitted: seq<Key>)
    requires b <= n <= |rows| && rows[b..][..n - b] <= emitted
    ensures rows[..n] <= rows[..b] + emitted
    ensures n > b ==> rows[b..][n - b - 1] == rows[n - 1] && rows[b..][n - b..] == rows[n..]
  {
    assert rows[..n] == rows[..b] + rows[b..][..n - b];
  }

  // After a pass, the cursor is the n-th of the selected rows, and these n were handed over.
  ghost predicate SavedAt(t: seq<Key>, start: Key, n: nat, pass: Pass) {
    var rows := Selected(t, start);
    && 0 < n <= |rows| && rows[n - 1] > 0 && Selected(t, rows[n - 1]) == rows[n..]
    && pass.store.Some? && pass.store.value.cursor == Some(rows[n - 1])
    && rows[..n] <= pass.emitted
  }

  lemma FirstBatch(cfg: Config, store: Store, t: seq<Key>, start: Key, q: Query)
    requires Ascending(t) && Fetches(cfg) && !Stuck(cfg, t, start) && Selected(t, start) != []
    requires q.Rows? && q.stop.None? && q.table == t
    ensures var rows := Selected(t, start);
            var n := Min(BatchLimit(cfg, |rows|), |rows|);
            var (store', page, end, next) := RunBatch(cfg, Some(store), start, q);
            && 0 < n <= |rows| && end == More && page == rows[..n] && next == rows[n - 1] > 0
            && Selected(t, next) == rows[n..] && store'.Some? && (q.saved ==> store'.value.cursor == Some(next))
  {
    FirstPage(cfg, t, start);
  }

  lemma FirstSaveExact(cfg: Config, store: Store, t: seq<Key>, start: Key, env: seq<Query>)
    requires Ascending(t) && Fetches(cfg) && !Stuck(cfg, t, start) && Static(env, t)
    requires LastSaved(cfg, env, 1, |Selected(t, start)|)
    ensures SavedAt(t, start, RowsOf(cfg, 1, |Selected(t, start)|), RunPass(cfg, Some(store), start, env))
  {
    FirstBatch(cfg, store, t, start, env[0]);
    var (store', page, end, next) := RunBatch(cfg, Some(store), start, env[0]);
    UnsavedKeepsStore(cfg, store', next, env[1..]);
  }

  lemma LaterSaveExact(cfg: Config, t: seq<Key>, start: Key, next: Key, n: nat, pass: Pass)
    requires cfg.batchSize <= |Selected(t, start)| && cfg.batchSize < n
    requires Selected(t, next) == Selected(t, start)[cfg.batchSize..] && SavedAt(t, next, n - cfg.batchSize, pass)
    ensures SavedAt(t, start, n, pass.(emitted := Selected(t, start)[..cfg.batchSize] + pass.emitted))
  {
    JoinRows(Selected(t, start), cfg.batchSize, n, pass.emitted);
  }

  // The last save of a pass over a static table is the last row of the k-th batch, and the rows up
  // to it were handed over.
  lemma {:induction false} LastSaveExact(cfg: Config, store: Store, t: seq<Key>, start: Key, env: seq<Query>, k: nat)
    requires Ascending(t) && Fetches(cfg) && !Stuck(cfg, t, start) && Static(env, t)
    requires LastSaved(cfg, env, k, |Selected(t, start)|)
    ensures SavedAt(t, start, RowsOf(cfg, k, |Selected(t, start)|), RunPass(cfg, Some(store), start, env))
    decreases k
  {
    if k == 1 {
      FirstSaveExact(cfg, store, t, start, env);
    } else {
      var m := |Selected(t, start)|;
      LaterSaved(cfg, env, k, m);
      FirstBatch(cfg, store, t, start, env[0]);
      var (store', page, end, next) := RunBatch(cfg, Some(store), start, env[0]);
      LastSaveExact(cfg, store'.value, t, next, env[1..], k - 1);
      LaterSaveExact(cfg, t, start, next, RowsOf(cfg, k, m), RunPass(cfg, store', next, env[1..]));
    }
  }

  // The rows of k full batches and j rows more, of at most one batch.
  function RowsUpTo(b: nat, k: nat, j: nat, rows: nat): nat {
    Min(k * b + Min(j, b), rows)
  }

  lemma RowsLater(b: nat, k: nat, j: nat, rows: nat)
    requires k > 0 && k * b < rows
    ensures b < rows || b == 0
    ensures (k - 1) * b < rows - b && RowsUpTo(b, k, j, rows) == b + RowsUpTo(b, k - 1, j, rows - b)
  {
    assert k * b == (k - 1) * b + b;
    assert (k - 1) * b >= 0;
  }

  lemma InterruptedNow(cfg: Config, store: Store, t: seq<Key>, start: Key, env: seq<Query>, j: nat)
    requires Ascending(t) && cfg.batchSize > 0 && !Stuck(cfg, t, start) && Selected(t, start) != []
    requires env != [] && env[0].Rows? && env[0].stop == Some(j) && env[0].table == t
    ensures var rows, pass := Selected(t, start), RunPass(cfg, Some(store), start, env);
            !pass.finished && pass.emitted == rows[..RowsUpTo(cfg.batchSize, 0, j, |rows|)]
  {
    FirstPage(cfg, t, start);
    var rows, page := Selected(t, start), Page(cfg, t, start);
    assert page[..Min(j, |page|)] == rows[..Min(Min(j, cfg.batchSize), |rows|)];
  }

  // A pass that is interrupted after j rows of the query behind k full batches handed over exactly
  // these batches and rows.
  lemma {:induction false} InterruptedExact(cfg: Config, store: Store, t: seq<Key>, start: Key, env: seq<Query>,
                                           k: nat, j: nat)
    requires Ascending(t) && cfg.batchSize > 0 && !Stuck(cfg, t, start) && Static(env, t)
    requires k < |env| && k * cfg.batchSize < |Selected(t, start)|
    requires forall i :: 0 <= i < k ==> env[i].Rows? && env[i].stop.None?
    requires env[k].Rows? && env[k].stop == Some(j)
    ensures var rows, pass := Selected(t, start), RunPass(cfg, Some(store), start, env);
            !pass.finished && pass.emitted == rows[..RowsUpTo(cfg.batchSize, k, j, |rows|)]
    decreases k
  {
    if k == 0 {
      InterruptedNow(cfg, store, t, start, env, j);
    } else {
      var rows, b := Selected(t, start), cfg.batchSize;
      RowsLater(b, k, j, |rows|);
      FirstBatch(cfg, store, t, start, env[0]);
      var (store', page, end, next) := RunBatch(cfg, Some(store), start, env[0]);
      InterruptedExact(cfg, store'.value, t, next, env[1..], k - 1, j);
      PrefixJoin(rows, b, RowsUpTo(b, k - 1, j, |rows| - b));
    }
  }

  lemma PrefixJoin(rows: seq<Key>, b: nat, n: nat)
    requires b <= |rows| && n <= |rows| - b
    ensures rows[..b] + rows[b..][..n] == rows[..b + n]
  {
  }

  // A call that broke off after the save of its k-th batch handed over those batches, and the next
  // call that loads the cursor hands over exactly the rows behind them, or the first of them if it
  // breaks off too: nothing is skipped, and only rows behind the last save can repeat.
  lemma ResumesBehindLastSave(cfg: Config, store: Store, t: seq<Key>, env: seq<Query>, calls: Calls, k: nat,
                              env': seq<Query>, calls': Calls)
    requires Ascending(t) && Fetches(cfg) && Static(env, t) && Static(env', t)
    requires !Stuck(cfg, t, StartKey(Some(store), calls))
    requires LastSaved(cfg, env, k, |Selected(t, StartKey(Some(store), calls))|)
    requires Sync(cfg, Some(store), env, calls).2 == Broken && (calls.connects || cfg.driver == Mongo)
    requires calls'.cursorLoads && (calls'.connects || cfg.driver == Mongo)
    requires cfg.mode == InitialOnce ==> !store.done
    ensures var rows := Selected(t, StartKey(Some(store), calls));
            var n := RowsOf(cfg, k, |rows|);
            var (store1, first, _) := Sync(cfg, Some(store), env, calls);
            var (_, second, outcome) := Sync(cfg, store1, env', calls');
            && n <= |rows| && rows[..n] <= first && second <= rows[n..]
            && (outcome == Completed ==> second == rows[n..])
  {
    var start := StartKey(Some(store), calls);
    var rows := Selected(t, start);
    var n := RowsOf(cfg, k, |rows|);
    LastSaveExact(cfg, store, t, start, env, k);
    PassKeepsMarker(cfg, Some(store), start, env);
    var store1 := Sync(cfg, Some(store), env, calls).0;
    assert StartKey(store1, calls') == rows[n - 1];
    StaticPass(cfg, store1, rows[n - 1], env', t);
  }
}
