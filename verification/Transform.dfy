// The transform pipeline: stages with their captured state, short-circuit composition, sampling
// and deduplication (engine/transform/transform.go, engine/core/engine.go:366-379).
module Transform {
  import opened Prelude
  import opened Events

  // A built transform together with the variables its closure captured. Dedup carries the ids in
  // its store, Sample its counter; entries of the store never expire.
  datatype Stage =
    | FilterByEventType(types: set<string>)
    | FilterByOperation(operations: set<Operation>)
    | AddHeader(key: string, value: string)
    | RouteByEventType(routes: map<string, string>)
    | RateLimit
    | Deduplicate(seen: set<string>)
    | SampleRate(n: int, counter: nat)

  // What the environment does to one stage during one call. A failing save may have been applied.
  datatype Fault = NoFault | ExistsFails | SaveFails(applied: bool) | Cancelled

  datatype Verdict = Keep(ev: Event) | Drop | Fail

  function Apply(st: Stage, ev: Event, fault: Fault): (Stage, Verdict) {
    match st
    case FilterByEventType(types) => (st, if ev.eventType in types then Keep(ev) else Drop)
    case FilterByOperation(ops) => (st, if ev.operation in ops then Keep(ev) else Drop)
    case AddHeader(key, value) => (st, Keep(ev.(headers := ev.headers[key := value])))
    case RouteByEventType(routes) =>
      (st, if ev.eventType in routes then Keep(ev.(headers := ev.headers["routing_key" := routes[ev.eventType]]))
           else if "default" in routes then Keep(ev.(headers := ev.headers["routing_key" := routes["default"]]))
           else Keep(ev))
    case RateLimit => (st, if fault == Cancelled then Fail else Keep(ev))
    case Deduplicate(seen) =>
      if fault == ExistsFails then (st, Fail)
      else if ev.id in seen then (st, Drop)
      else if fault.SaveFails? then (if fault.applied then Deduplicate(seen + {ev.id}) else st, Fail)
      else (Deduplicate(seen + {ev.id}), Keep(ev))
    case SampleRate(n, counter) =>
      // A zero n panics, which ends the process.
      (SampleRate(n, counter + 1), if n == 0 then Fail else if (counter + 1) % n == 0 then Keep(ev) else Drop)
  }

  // Faults by stage index; stages beyond the end of the list meet no fault.
  function Head(faults: seq<Fault>): Fault { if faults == [] then NoFault else faults[0] }
  function Skip(faults: seq<Fault>, k: nat): seq<Fault> { if k <= |faults| then faults[k..] else [] }

  // Stages run in order on the output of the previous one; a drop or an error stops the chain.
  function RunChain(stages: seq<Stage>, ev: Event, faults: seq<Fault>): (r: (seq<Stage>, Verdict))
    ensures |r.0| == |stages|
  {
    if stages == [] then ([], Keep(ev))
    else
      var (st, v) := Apply(stages[0], ev, Head(faults));
      if v.Keep? then
        var (rest, w) := RunChain(stages[1..], v.ev, Skip(faults, 1));
        ([st] + rest, w)
      else ([st] + stages[1..], v)
  }

  // ---------------------------------------------------------------- Composition

  // Running xs + ys is running ys on what xs keeps; if xs drops or fails, the state of ys is untouched.
  lemma {:induction false} ChainComposes(xs: seq<Stage>, ys: seq<Stage>, ev: Event, faults: seq<Fault>)
    ensures var (xs', v) := RunChain(xs, ev, faults);
            RunChain(xs + ys, ev, faults) ==
            if v.Keep? then
              var (ys', w) := RunChain(ys, v.ev, Skip(faults, |xs|));
              (xs' + ys', w)
            else (xs' + ys, v)
  {
    if xs == [] {
      assert xs + ys == ys;
      assert [] + RunChain(ys, ev, faults).0 == RunChain(ys, ev, faults).0;
    } else {
      assert (xs + ys)[0] == xs[0] && (xs + ys)[1..] == xs[1..] + ys;
      var (st, v) := Apply(xs[0], ev, Head(faults));
      if v.Keep? {
        ChainComposes(xs[1..], ys, v.ev, Skip(faults, 1));
        assert Skip(Skip(faults, 1), |xs[1..]|) == Skip(faults, |xs|);
        var (rest, u) := RunChain(xs[1..], v.ev, Skip(faults, 1));
        if u.Keep? {
          var tail := RunChain(ys, u.ev, Skip(faults, |xs|)).0;
          assert [st] + (rest + tail) == ([st] + rest) + tail;
        } else {
          assert [st] + (rest + ys) == ([st] + rest) + ys;
        }
      } else {
        assert [st] + (xs[1..] + ys) == ([st] + xs[1..]) + ys;
      }
    }
  }

  // ---------------------------------------------------------------- Many deliveries

  datatype Delivery = Deliver(ev: Event, faults: seq<Fault>)

  // The events a chain passes on to publishing, over a list of deliveries.
  function Feed(stages: seq<Stage>, ds: seq<Delivery>): seq<Event>
    decreases |ds|
  {
    if ds == [] then []
    else
      var (stages', v) := RunChain(stages, ds[0].ev, ds[0].faults);
      (if v.Keep? then [v.ev] else []) + Feed(stages', ds[1..])
  }

  lemma SampleArithmetic(c: nat, n: nat)
    requires n > 0
    ensures (c + 1) / n - c / n == if (c + 1) % n == 0 then 1 else 0
  {
    var q, r := c / n, c % n;
    assert c == q * n + r;
    if r + 1 == n {
      assert c + 1 == (q + 1) * n;
      DivModUnique(c + 1, n, q + 1, 0);
    } else {
      DivModUnique(c + 1, n, q, r + 1);
    }
  }

  // Sampling behind any chain counts exactly the events that chain keeps, and passes one in n.
  lemma {:induction false} SampleBehindChainFrom(xs: seq<Stage>, n: nat, c: nat, ds: seq<Delivery>)
    requires n > 0
    ensures |Feed(xs + [SampleRate(n, c)], ds)| == (c + |Feed(xs, ds)|) / n - c / n
    decreases |ds|
  {
    if ds != [] {
      ChainComposes(xs, [SampleRate(n, c)], ds[0].ev, ds[0].faults);
      var (xs', v) := RunChain(xs, ds[0].ev, ds[0].faults);
      if v.Keep? {
        var s := SampleRate(n, c);
        var f := Skip(ds[0].faults, |xs|);
        assert [s][1..] == [];
        assert RunChain([s], v.ev, f).0 == [SampleRate(n, c + 1)];
        SampleArithmetic(c, n);
        SampleBehindChainFrom(xs', n, c + 1, ds[1..]);
      } else {
        SampleBehindChainFrom(xs', n, c, ds[1..]);
      }
    }
  }

  lemma SampleBehindChain(xs: seq<Stage>, n: nat, ds: seq<Delivery>)
    requires n > 0
    ensures |Feed(xs + [SampleRate(n, 0)], ds)| == |Feed(xs, ds)| / n
  {
    DivModUnique(0, n, 0, 0);
    SampleBehindChainFrom(xs, n, 0, ds);
  }

  // ---------------------------------------------------------------- Deduplication

  // No stage changes the id; a Deduplicate stage lets an id through only once, and remembers it
  // before anything behind it runs.
  lemma {:induction false} DedupRecords(stages: seq<Stage>, d: nat, ev: Event, faults: seq<Fault>)
    requires d < |stages| && stages[d].Deduplicate?
    ensures var (stages', v) := RunChain(stages, ev, faults);
            && stages'[d].Deduplicate? && stages[d].seen <= stages'[d].seen
            && (v.Keep? ==> v.ev.id == ev.id && ev.id !in stages[d].seen && ev.id in stages'[d].seen)
  {
    var v := Apply(stages[0], ev, Head(faults)).1;
    if v.Keep? {
      if d == 0 {
        IdKept(stages[1..], v.ev, Skip(faults, 1));
      } else {
        DedupRecords(stages[1..], d - 1, v.ev, Skip(faults, 1));
      }
    }
  }

  lemma {:induction false} IdKept(stages: seq<Stage>, ev: Event, faults: seq<Fault>)
    ensures var v := RunChain(stages, ev, faults).1; v.Keep? ==> v.ev.id == ev.id
  {
    if stages != [] {
      var v := Apply(stages[0], ev, Head(faults)).1;
      if v.Keep? {
        IdKept(stages[1..], v.ev, Skip(faults, 1));
      }
    }
  }

  // A process restart rebuilds the chain: counters start over, the deduplication store survives.
  function Rebuild(stages: seq<Stage>): (r: seq<Stage>)
    ensures |r| == |stages|
    ensures forall i :: 0 <= i < |stages| ==>
              r[i] == if stages[i].SampleRate? then SampleRate(stages[i].n, 0) else stages[i]
  {
    seq(|stages|, i requires 0 <= i < |stages| =>
      if stages[i].SampleRate? then SampleRate(stages[i].n, 0) else stages[i])
  }

  datatype Occurrence = Arrives(delivery: Delivery) | ProcessRestarts

  // The ids handed to publishing over a history with redeliveries and restarts.
  function PublishedIds(stages: seq<Stage>, os: seq<Occurrence>): seq<string>
    decreases |os|
  {
    if os == [] then []
    else if os[0].ProcessRestarts? then PublishedIds(Rebuild(stages), os[1..])
    else
      var (stages', v) := RunChain(stages, os[0].delivery.ev, os[0].delivery.faults);
      (if v.Keep? then [v.ev.id] else []) + PublishedIds(stages', os[1..])
  }

  lemma {:induction false} SeenIsNotPublished(stages: seq<Stage>, d: nat, os: seq<Occurrence>, id: string)
    requires d < |stages| && stages[d].Deduplicate? && id in stages[d].seen
    ensures id !in PublishedIds(stages, os)
    decreases |os|
  {
    if os != [] {
      if os[0].ProcessRestarts? {
        SeenIsNotPublished(Rebuild(stages), d, os[1..], id);
      } else {
        var dl := os[0].delivery;
        DedupRecords(stages, d, dl.ev, dl.faults);
        SeenIsNotPublished(RunChain(stages, dl.ev, dl.faults).0, d, os[1..], id);
      }
    }
  }

  ghost predicate NoRepeats(ids: seq<string>) {
    forall i, j :: 0 <= i < j < |ids| ==> ids[i] != ids[j]
  }

  // With Deduplicate anywhere in the chain, each id reaches publishing at most once, over all
  // deliveries, retries, store failures and restarts.
  lemma {:induction false} EachIdPublishedOnce(stages: seq<Stage>, d: nat, os: seq<Occurrence>)
    requires d < |stages| && stages[d].Deduplicate?
    ensures NoRepeats(PublishedIds(stages, os))
    decreases |os|
  {
    if os != [] {
      if os[0].ProcessRestarts? {
        EachIdPublishedOnce(Rebuild(stages), d, os[1..]);
      } else {
        var dl := os[0].delivery;
        DedupRecords(stages, d, dl.ev, dl.faults);
        var (stages', v) := RunChain(stages, dl.ev, dl.faults);
        EachIdPublishedOnce(stages', d, os[1..]);
        if v.Keep? {
          SeenIsNotPublished(stages', d, os[1..], dl.ev.id);
        }
      }
    }
  }

  // When its store works, Deduplicate loses no id: each one that is delivered passes, once.
  lemma {:induction false} DedupPassesFirst(seen: set<string>, os: seq<Occurrence>, id: string)
    requires forall i :: 0 <= i < |os| && os[i].Arrives? ==> os[i].delivery.faults == []
    ensures id in PublishedIds([Deduplicate(seen)], os) <==>
            (id !in seen && exists i :: 0 <= i < |os| && os[i].Arrives? && os[i].delivery.ev.id == id)
    decreases |os|
  {
    if os != [] {
      var now := if os[0].Arrives? then seen + {os[0].delivery.ev.id} else seen;
      var one := [Deduplicate(seen)];
      if os[0].ProcessRestarts? {
        assert Rebuild(one) == one;
      } else {
        assert one[1..] == [];
        assert seen + {os[0].delivery.ev.id} == seen || os[0].delivery.ev.id !in seen;
        assert RunChain(one, os[0].delivery.ev, []).0 == [Deduplicate(now)];
      }
      DedupPassesFirst(now, os[1..], id);
      if exists i :: 0 <= i < |os| && os[i].Arrives? && os[i].delivery.ev.id == id {
        var i :| 0 <= i < |os| && os[i].Arrives? && os[i].delivery.ev.id == id;
        assert i > 0 ==> os[1..][i - 1] == os[i];
      }
      if exists i :: 0 <= i < |os[1..]| && os[1..][i].Arrives? && os[1..][i].delivery.ev.id == id {
        var i :| 0 <= i < |os[1..]| && os[1..][i].Arrives? && os[1..][i].delivery.ev.id == id;
        assert os[i + 1] == os[1..][i];
      }
    }
  }

  // Even when the publish behind it failed: a second delivery of an id that passed is dropped.
  lemma RedeliveryIsDropped(stages: seq<Stage>, d: nat, ev: Event, faults: seq<Fault>,
                            again: Event, faults': seq<Fault>)
    requires d < |stages| && stages[d].Deduplicate? && ev.id == again.id
    requires RunChain(stages, ev, faults).1.Keep?
    ensures !RunChain(RunChain(stages, ev, faults).0, again, faults').1.Keep?
  {
    DedupRecords(stages, d, ev, faults);
    DedupRecords(RunChain(stages, ev, faults).0, d, again, faults');
  }

  // ---------------------------------------------------------------- What a chain decides

  // Whether a stage lets an event through when its store is empty and nothing goes wrong.
  predicate Admits(st: Stage, ev: Event) {
    match st
    case FilterByEventType(types) => ev.eventType in types
    case FilterByOperation(ops) => ev.operation in ops
    case _ => true
  }

  // An event that the chain keeps when it has seen nothing before.
  predicate Wants(stages: seq<Stage>, ev: Event) {
    forall i :: 0 <= i < |stages| ==> Admits(stages[i], ev)
  }

  predicate SampleFree(stages: seq<Stage>) {
    forall i :: 0 <= i < |stages| ==> !stages[i].SampleRate?
  }

  predicate DedupFree(stages: seq<Stage>) {
    forall i :: 0 <= i < |stages| ==> !stages[i].Deduplicate?
  }

  // Some Deduplicate stage has the id in its store.
  predicate Seen(stages: seq<Stage>, id: string) {
    exists d :: 0 <= d < |stages| && stages[d].Deduplicate? && id in stages[d].seen
  }

  // Every Deduplicate stage has it.
  predicate SeenByAll(stages: seq<Stage>, id: string) {
    forall d :: 0 <= d < |stages| && stages[d].Deduplicate? ==> id in stages[d].seen
  }

  // Only the stores of Deduplicate stages differ, and only by ids that were added.
  ghost predicate Grows(before: seq<Stage>, after: seq<Stage>, added: set<string>) {
    && |after| == |before|
    && forall d :: 0 <= d < |before| ==>
         if before[d].Deduplicate? then
           after[d].Deduplicate? && before[d].seen <= after[d].seen <= before[d].seen + added
         else after[d] == before[d]
  }

  lemma {:induction false} ChainGrows(stages: seq<Stage>, ev: Event, faults: seq<Fault>)
    requires SampleFree(stages)
    ensures Grows(stages, RunChain(stages, ev, faults).0, {ev.id})
  {
    if stages != [] {
      var v := Apply(stages[0], ev, Head(faults)).1;
      if v.Keep? {
        ChainGrows(stages[1..], v.ev, Skip(faults, 1));
      }
    }
  }

  lemma {:induction false} KeepsOnlyWanted(stages: seq<Stage>, ev: Event, faults: seq<Fault>)
    requires SampleFree(stages)
    ensures var (stages', v) := RunChain(stages, ev, faults);
            v.Keep? ==> Wants(stages, ev) && !Seen(stages, ev.id) && SeenByAll(stages', ev.id)
  {
    if stages != [] {
      var v := Apply(stages[0], ev, Head(faults)).1;
      if v.Keep? {
        KeepsOnlyWanted(stages[1..], v.ev, Skip(faults, 1));
        assert forall i :: 0 <= i < |stages| - 1 ==> Admits(stages[1..][i], v.ev) == Admits(stages[i + 1], ev);
      }
    }
  }

  lemma {:induction false} DropsForAReason(stages: seq<Stage>, ev: Event, faults: seq<Fault>)
    requires SampleFree(stages)
    ensures var v := RunChain(stages, ev, faults).1;
            (v.Drop? ==> !Wants(stages, ev) || Seen(stages, ev.id)) && (v.Fail? ==> faults != [])
  {
    if stages != [] {
      var v := Apply(stages[0], ev, Head(faults)).1;
      if v.Keep? {
        var rest := stages[1..];
        DropsForAReason(rest, v.ev, Skip(faults, 1));
        assert forall i :: 0 <= i < |rest| ==> Admits(rest[i], v.ev) == Admits(stages[i + 1], ev);
        if Seen(rest, ev.id) {
          var d :| 0 <= d < |rest| && rest[d].Deduplicate? && ev.id in rest[d].seen;
          assert stages[d + 1].Deduplicate? && ev.id in stages[d + 1].seen;
        }
      }
    }
  }

  // A chain without SampleRate: what it leaves behind and why it decides as it does.
  lemma ChainDecides(stages: seq<Stage>, ev: Event, faults: seq<Fault>)
    requires SampleFree(stages)
    ensures var (stages', v) := RunChain(stages, ev, faults);
            && Grows(stages, stages', {ev.id})
            && (v.Keep? ==> Wants(stages, ev) && !Seen(stages, ev.id) && SeenByAll(stages', ev.id))
            && (v.Drop? ==> !Wants(stages, ev) || Seen(stages, ev.id))
            && (v.Fail? ==> faults != [])
  {
    ChainGrows(stages, ev, faults);
    KeepsOnlyWanted(stages, ev, faults);
    DropsForAReason(stages, ev, faults);
  }

  // A chain of filters, header and routing stages, rate limits: it has no memory that matters, and
  // decides an event alike at every delivery, faults aside.
  lemma DecidesAlike(stages: seq<Stage>, ev: Event, faults: seq<Fault>)
    requires SampleFree(stages) && DedupFree(stages)
    ensures var (stages', v) := RunChain(stages, ev, faults);
            && stages' == stages
            && (v.Keep? ==> Wants(stages, ev)) && (v.Drop? ==> !Wants(stages, ev)) && (v.Fail? ==> faults != [])
  {
    ChainDecides(stages, ev, faults);
  }

  // SampleRate does not: one that keeps an event behind such a chain drops the same event when it
  // comes again, for any n above 1.
  lemma SampleDecidesDifferently(xs: seq<Stage>, n: int, c: nat, ev: Event)
    requires SampleFree(xs) && DedupFree(xs) && n > 1
    requires RunChain(xs + [SampleRate(n, c)], ev, []).1.Keep?
    ensures RunChain(RunChain(xs + [SampleRate(n, c)], ev, []).0, ev, []).1.Drop?
  {
    DecidesAlike(xs, ev, []);
    ChainComposes(xs, [SampleRate(n, c)], ev, []);
    ChainComposes(xs, [SampleRate(n, c + 1)], ev, []);
    var kept := RunChain(xs, ev, []).1.ev;
    assert [SampleRate(n, c)][1..] == [] && [SampleRate(n, c + 1)][1..] == [];
    assert RunChain([SampleRate(n, c)], kept, []).0 == [SampleRate(n, c + 1)];
    DivModUnique(c + 2, n, (c + 1) / n, 1);
  }

  // ---------------------------------------------------------------- When an id is recorded

  // One run of a chain puts an id into a store that did not have it.
  predicate Records(before: seq<Stage>, after: seq<Stage>, id: string) {
    exists d :: 0 <= d < |before| && d < |after| && before[d].Deduplicate? && after[d].Deduplicate?
                && id !in before[d].seen && id in after[d].seen
  }

  // Whether a Deduplicate stage with this store gets to record an event, by what its store does.
  predicate Stores(seen: set<string>, id: string, fault: Fault) {
    id !in seen && fault != ExistsFails && (fault.SaveFails? ==> fault.applied)
  }

  // An id that the first Deduplicate stage has seen is recorded nowhere behind it either; otherwise
  // it is recorded exactly if the stages in front keep the event and the save is applied, whether
  // or not it reports an error, and whatever comes of the event behind it.
  lemma RecordsExactly(xs: seq<Stage>, seen: set<string>, ys: seq<Stage>, ev: Event, faults: seq<Fault>)
    requires SampleFree(xs + [Deduplicate(seen)] + ys) && DedupFree(xs)
    ensures var stages := xs + [Deduplicate(seen)] + ys;
            Records(stages, RunChain(stages, ev, faults).0, ev.id) <==>
            RunChain(xs, ev, faults).1.Keep? && Stores(seen, ev.id, Head(Skip(faults, |xs|)))
  {
    var dedup := [Deduplicate(seen)];
    var stages, k := dedup + ys, |xs|;
    var whole := xs + stages;
    assert whole == xs + dedup + ys;
    forall i | 0 <= i < k ensures !xs[i].SampleRate? { assert whole[i] == xs[i]; }
    DecidesAlike(xs, ev, faults);
    ChainComposes(xs, stages, ev, faults);
    var (xs', v) := RunChain(xs, ev, faults);
    var whole' := RunChain(whole, ev, faults).0;
    if v.Keep? {
      IdKept(xs, ev, faults);
      var f := Skip(faults, k);
      assert stages[0] == Deduplicate(seen) && stages[1..] == ys;
      var (st, w) := Apply(stages[0], v.ev, Head(f));
      var stages' := RunChain(stages, v.ev, f).0;
      assert stages'[0] == st && whole'[k] == st && whole[k] == stages[0];
      if Stores(seen, ev.id, Head(f)) {
        assert ev.id in st.seen;
      } else {
        assert stages' == [st] + ys == stages && whole' == whole;
      }
    } else {
      assert whole' == whole;
    }
  }

  // ---------------------------------------------------------------- What comes out of a chain

  // The value a stage gives to a header of the events it lets through, if it writes that header.
  function Writes(st: Stage, ev: Event, key: string): Option<string> {
    match st
    case AddHeader(k, value) => if k == key then Some(value) else None
    case RouteByEventType(routes) =>
      if key != "routing_key" then None
      else if ev.eventType in routes then Some(routes[ev.eventType])
      else if "default" in routes then Some(routes["default"])
      else None
    case _ => None
  }

  // The last stage that writes it decides.
  function LastWritten(stages: seq<Stage>, ev: Event, key: string): Option<string> {
    if stages == [] then None
    else
      var later := LastWritten(stages[1..], ev, key);
      if later.Some? then later else Writes(stages[0], ev, key)
  }

  predicate WritesHeaders(st: Stage) {
    st.AddHeader? || st.RouteByEventType?
  }

  function HeaderOf(ev: Event, key: string): Option<string> {
    if key in ev.headers then Some(ev.headers[key]) else None
  }

  // Header values depend on the event type only.
  lemma {:induction false} WrittenAlike(stages: seq<Stage>, a: Event, b: Event, key: string)
    requires a.eventType == b.eventType
    ensures LastWritten(stages, a, key) == LastWritten(stages, b, key)
  {
    if stages != [] {
      WrittenAlike(stages[1..], a, b, key);
    }
  }

  // Whatever the stages, their state and the faults: a kept event is the event that came in, but for
  // its headers.
  lemma {:induction false} KeepsContent(stages: seq<Stage>, ev: Event, faults: seq<Fault>)
    ensures var v := RunChain(stages, ev, faults).1; v.Keep? ==> v.ev.(headers := ev.headers) == ev
  {
    if stages != [] {
      var v := Apply(stages[0], ev, Head(faults)).1;
      if v.Keep? {
        KeepsContent(stages[1..], v.ev, Skip(faults, 1));
      }
    }
  }

  // And each header has the value of the last stage that writes it, or its own.
  lemma {:induction false} HeadersExact(stages: seq<Stage>, ev: Event, faults: seq<Fault>, key: string)
    ensures var v := RunChain(stages, ev, faults).1;
            v.Keep? ==>
              HeaderOf(v.ev, key) == (var w := LastWritten(stages, ev, key); if w.Some? then w else HeaderOf(ev, key))
  {
    if stages != [] {
      var v := Apply(stages[0], ev, Head(faults)).1;
      if v.Keep? {
        HeadersExact(stages[1..], v.ev, Skip(faults, 1), key);
        WrittenAlike(stages[1..], v.ev, ev, key);
      }
    }
  }

  // A chain that writes no headers hands on exactly what came in.
  lemma KeptUnchanged(stages: seq<Stage>, ev: Event, faults: seq<Fault>)
    requires forall i :: 0 <= i < |stages| ==> !WritesHeaders(stages[i])
    ensures var v := RunChain(stages, ev, faults).1; v.Keep? ==> v.ev == ev
  {
    var v := RunChain(stages, ev, faults).1;
    KeepsContent(stages, ev, faults);
    if v.Keep? {
      forall key: string ensures HeaderOf(v.ev, key) == HeaderOf(ev, key) {
        HeadersExact(stages, ev, faults, key);
        NothingWritten(stages, ev, key);
      }
      assert forall key :: key in v.ev.headers <==> HeaderOf(v.ev, key).Some?;
      assert forall key :: key in ev.headers <==> HeaderOf(ev, key).Some?;
      assert forall key :: key in ev.headers ==> v.ev.headers[key] == HeaderOf(ev, key).value;
      assert v.ev.headers == ev.headers;
    }
  }

  lemma {:induction false} NothingWritten(stages: seq<Stage>, ev: Event, key: string)
    requires forall i :: 0 <= i < |stages| ==> !WritesHeaders(stages[i])
    ensures LastWritten(stages, ev, key) == None
  {
    if stages != [] {
      NothingWritten(stages[1..], ev, key);
    }
  }

  // ---------------------------------------------------------------- Filters and sampling once more

  predicate IsFilter(st: Stage) {
    st.FilterByEventType? || st.FilterByOperation?
  }

  // The event type or the operation is in the filter's list.
  predicate Listed(st: Stage, ev: Event) {
    (st.FilterByEventType? ==> ev.eventType in st.types) && (st.FilterByOperation? ==> ev.operation in st.operations)
  }

  // What any chain keeps is listed by each of its filters, and a chain of filters keeps exactly what
  // all of them list.
  lemma {:induction false} FiltersExact(stages: seq<Stage>, ev: Event, faults: seq<Fault>)
    ensures RunChain(stages, ev, faults).1.Keep? ==> forall i :: 0 <= i < |stages| ==> Listed(stages[i], ev)
    ensures (forall i :: 0 <= i < |stages| ==> IsFilter(stages[i]) && Listed(stages[i], ev)) ==>
              RunChain(stages, ev, faults).1 == Keep(ev)
  {
    if stages != [] {
      var v := Apply(stages[0], ev, Head(faults)).1;
      if v.Keep? {
        FiltersExact(stages[1..], v.ev, Skip(faults, 1));
        assert forall i :: 0 <= i < |stages| - 1 ==> Listed(stages[1..][i], v.ev) == Listed(stages[i + 1], ev);
      }
    }
  }

  // SampleRate(0) lets nothing through.
  lemma ZeroSamplesNothing(xs: seq<Stage>, c: nat, ev: Event, faults: seq<Fault>)
    ensures !RunChain(xs + [SampleRate(0, c)], ev, faults).1.Keep?
  {
    ChainComposes(xs, [SampleRate(0, c)], ev, faults);
    assert [SampleRate(0, c)][1..] == [];
  }

  // A process restart starts the count again: whatever was counted before it, one in n of the events
  // that the chain keeps afterwards passes.
  lemma SampleAfterRestart(xs: seq<Stage>, n: nat, c: nat, ds: seq<Delivery>)
    requires n > 0
    ensures |Feed(Rebuild(xs + [SampleRate(n, c)]), ds)| == |Feed(Rebuild(xs), ds)| / n
  {
    assert Rebuild(xs + [SampleRate(n, c)]) == Rebuild(xs) + [SampleRate(n, 0)];
    SampleBehindChain(Rebuild(xs), n, ds);
  }
}
