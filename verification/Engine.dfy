// The engine's event path: transform, publish to all producers, acknowledge, with its metrics
// (engine/core/engine.go:241-379).
module EngineCore {
  import opened Prelude
  import opened Events
  import opened Transform

  // Metric records, calls to the source's Ack, and the events handed to all producers, in order.
  // published and failed hold one entry per record, labelled with the producer's number.
  datatype Metrics = Metrics(captured: nat, dropped: nat, published: multiset<nat>, failed: multiset<nat>,
                             ackCompleted: nat, ackCalls: nat, offered: seq<Event>)

  // What one event meets: faults of the stages, each producer's publish result (None is success),
  // the order in which the results arrive, and whether Ack succeeds.
  datatype Input = Input(ev: Event, faults: seq<Fault>, results: seq<Option<string>>, arrival: seq<nat>, ackOk: bool) {
    // Every producer reports exactly once.
    ghost predicate ValidArrival() {
      forall p: nat :: multiset(arrival)[p] == if p < |results| then 1 else 0
    }
  }

  datatype Outcome =
    | TransformFailed
    | Dropped
    | DroppedAckFailed
    | Published
    | PublishedAckFailed
    | PublishFailed(error: string)
  {
    predicate IsError() { !Dropped? && !Published? }
    predicate WasDropped() { Dropped? || DroppedAckFailed? }
    predicate ReachedProducers() { Published? || PublishedAckFailed? || PublishFailed? }
  }

  // How the loop ends when no event does: cancellation is no error; a closed channel is one for the
  // stream, and for the snapshot it passes on what SyncSnapshot returned.
  datatype Ending = Cancelled | Closed(syncFailed: bool) {
    predicate IsError(ack: bool) { Closed? && (ack || syncFailed) }
  }

  predicate AllSucceed(results: seq<Option<string>>) {
    forall p :: 0 <= p < |results| ==> results[p].None?
  }

  // The producers whose publish succeeded, or failed.
  function Producers(results: seq<Option<string>>, success: bool): set<nat> {
    set p: nat | p < |results| && results[p].None? == success
  }

  // The first error to arrive.
  function FirstFailure(results: seq<Option<string>>, arrival: seq<nat>): Option<string> {
    if arrival == [] then None
    else
      var before := FirstFailure(results, arrival[..|arrival| - 1]);
      var p := arrival[|arrival| - 1];
      if before.Some? then before else if p < |results| then results[p] else None
  }

  class Engine {
    var stages: seq<Stage>
    var metrics: Metrics

    constructor (stages: seq<Stage>)
      ensures this.stages == stages && metrics == Metrics(0, 0, multiset{}, multiset{}, 0, 0, [])
    {
      this.stages := stages;
      metrics := Metrics(0, 0, multiset{}, multiset{}, 0, 0, []);
    }

    method ApplyTransforms(ev: Event, faults: seq<Fault>) returns (v: Verdict)
      modifies this`stages
      ensures (stages, v) == RunChain(old(stages), ev, faults)
    {
      var current := ev;
      var i := 0;
      ghost var all, done := stages, [];
      ChainBegins(all, ev, faults);
      while i < |stages|
        invariant i <= |stages| && Running(all, ev, faults, done, i, current, stages)
      {
        StageRuns(all, ev, faults, done, i, current, stages);
        var (st, w) := Apply(stages[i], current, if i < |faults| then faults[i] else NoFault);
        stages := stages[i := st];
        if !w.Keep? {
          return w;
        }
        done, current := done + [st], w.ev;
        i := i + 1;
      }
      ChainEnds(all, ev, faults, done, current, stages);
      v := Keep(current);
    }

    method PublishAll(ev: Event, input: Input) returns (firstErr: Option<string>)
      requires input.ValidArrival()
      modifies this`metrics
      ensures firstErr == None <==> AllSucceed(input.results)
      ensures firstErr.Some? ==> exists p :: 0 <= p < |input.results| && input.results[p] == firstErr
      ensures firstErr == FirstFailure(input.results, input.arrival)
      ensures metrics == WithRecords(Offered(old(metrics), ev), input.results)
    {
      metrics := metrics.(offered := metrics.offered + [ev]);
      ghost var before := metrics;
      firstErr := None;
      NoArrival(before, input);
      var k := 0;
      while k < |input.arrival|
        invariant k <= |input.arrival| && ArrivedSoFar(before, metrics, input, k, firstErr)
      {
        OneArrival(before, metrics, input, k, firstErr);
        var producer := input.arrival[k];
        var err := input.results[producer];
        if err.Some? {
          metrics := metrics.(failed := metrics.failed + multiset{producer});
          if firstErr == None {
            firstErr := err;
          }
        } else {
          metrics := metrics.(published := metrics.published + multiset{producer});
        }
        k := k + 1;
      }
      AllArrived(before, metrics, input, firstErr);
    }

    method ProcessEvent(input: Input, ack: bool) returns (o: Outcome)
      requires input.ValidArrival()
      modifies this
      ensures (stages, metrics, o) == Process(old(stages), old(metrics), input, ack)
    {
      metrics := metrics.(captured := metrics.captured + 1);
      var v := ApplyTransforms(input.ev, input.faults);
      if v.Fail? {
        return TransformFailed;
      }
      if v.Drop? {
        metrics := metrics.(dropped := metrics.dropped + 1);
        if ack {
          metrics := metrics.(ackCalls := metrics.ackCalls + 1);
          if !input.ackOk {
            return DroppedAckFailed;
          }
        }
        return Dropped;
      }
      var err := PublishAll(v.ev, input);
      if err.Some? {
        return PublishFailed(err.value);
      }
      if ack {
        metrics := metrics.(ackCalls := metrics.ackCalls + 1);
        if !input.ackOk {
          return PublishedAckFailed;
        }
        metrics := metrics.(ackCompleted := metrics.ackCompleted + 1);
      }
      o := Published;
    }

    // streamEvents with ack set, runSnapshot without: events are taken until one ends in an error,
    // the context is cancelled or the channel is closed.
    method ProcessEvents(inputs: seq<Input>, ending: Ending, ack: bool) returns (outcomes: seq<Outcome>, err: bool)
      requires forall i :: 0 <= i < |inputs| ==> inputs[i].ValidArrival()
      modifies this
      ensures (stages, metrics, outcomes) == ProcessAll(old(stages), old(metrics), inputs, ack)
      ensures err == (BrokeOff(outcomes) || ending.IsError(ack))
      // A stream loop returns without an error only when it is cancelled, so that the run is retried
      // otherwise; a snapshot loop also when the channel closed after SyncSnapshot succeeded.
      ensures ack && !err ==> ending == Ending.Cancelled && !BrokeOff(outcomes)
      ensures ack && ending.Closed? ==> err
      ensures !ack && !BrokeOff(outcomes) ==> (err <==> ending == Closed(true))
      ensures outcomes != [] && outcomes[|outcomes| - 1] !in {Dropped, Published} ==> err
    {
      outcomes := [];
      var i := 0;
      ghost var whole := ProcessAll(stages, metrics, inputs, ack);
      assert inputs[0..] == inputs && [] + whole.2 == whole.2;
      while i < |inputs|
        invariant i <= |inputs| && !BrokeOff(outcomes)
        invariant RunContinues(whole, outcomes, ProcessAll(stages, metrics, inputs[i..], ack))
      {
        ghost var before, m := stages, metrics;
        var o := ProcessEvent(inputs[i], ack);
        RunAdvances(whole, outcomes, before, m, inputs, i, ack, stages, metrics, o);
        outcomes := outcomes + [o];
        if o.IsError() {
          err := true;
          return;
        }
        i := i + 1;
      }
      assert outcomes + [] == outcomes;
      err := ending.IsError(ack);
    }
  }

  predicate BrokeOff(outcomes: seq<Outcome>) {
    outcomes != [] && outcomes[|outcomes| - 1].IsError()
  }

  ghost predicate RunContinues(whole: (seq<Stage>, Metrics, seq<Outcome>), outcomes: seq<Outcome>,
                               rest: (seq<Stage>, Metrics, seq<Outcome>)) {
    whole == (rest.0, rest.1, outcomes + rest.2)
  }

  lemma RunAdvances(whole: (seq<Stage>, Metrics, seq<Outcome>), outcomes: seq<Outcome>, stages: seq<Stage>,
                    m: Metrics, inputs: seq<Input>, i: nat, ack: bool,
                    stages': seq<Stage>, m': Metrics, o: Outcome)
    requires i < |inputs| && RunContinues(whole, outcomes, ProcessAll(stages, m, inputs[i..], ack))
    requires (stages', m', o) == Process(stages, m, inputs[i], ack)
    ensures if o.IsError() then whole == (stages', m', outcomes + [o])
            else RunContinues(whole, outcomes + [o], ProcessAll(stages', m', inputs[i + 1..], ack))
  {
    assert inputs[i..][0] == inputs[i] && inputs[i..][1..] == inputs[i + 1..];
    var rest := ProcessAll(stages', m', inputs[i + 1..], ack).2;
    assert outcomes + ([o] + rest) == (outcomes + [o]) + rest;
  }

  function Offered(m: Metrics, ev: Event): Metrics {
    m.(offered := m.offered + [ev])
  }

  function WithRecords(m: Metrics, results: seq<Option<string>>): Metrics {
    m.(published := m.published + multiset(Producers(results, true)),
       failed := m.failed + multiset(Producers(results, false)))
  }

  function Acked(m: Metrics, input: Input, ack: bool, complete: bool): Metrics {
    if ack then m.(ackCalls := m.ackCalls + 1,
                   ackCompleted := m.ackCompleted + if complete && input.ackOk then 1 else 0)
    else m
  }

  function Process(stages: seq<Stage>, m0: Metrics, input: Input, ack: bool): (seq<Stage>, Metrics, Outcome) {
    var m := m0.(captured := m0.captured + 1);
    var (stages', v) := RunChain(stages, input.ev, input.faults);
    match v
    case Fail => (stages', m, TransformFailed)
    case Drop => (stages', Acked(m.(dropped := m.dropped + 1), input, ack, false),
                  if ack && !input.ackOk then DroppedAckFailed else Dropped)
    case Keep(ev) =>
      var recorded := WithRecords(Offered(m, ev), input.results);
      var err := FirstFailure(input.results, input.arrival);
      if err.Some? then (stages', recorded, PublishFailed(err.value))
      else (stages', Acked(recorded, input, ack, true), if ack && !input.ackOk then PublishedAckFailed else Published)
  }

  function ProcessAll(stages: seq<Stage>, m: Metrics, inputs: seq<Input>, ack: bool)
    : (seq<Stage>, Metrics, seq<Outcome>)
    decreases |inputs|
  {
    if inputs == [] then (stages, m, [])
    else
      var (stages', m', o) := Process(stages, m, inputs[0], ack);
      if o.IsError() then (stages', m', [o])
      else
        var (st, mm, rest) := ProcessAll(stages', m', inputs[1..], ack);
        (st, mm, [o] + rest)
  }

  // What the first k results to arrive left behind.
  ghost predicate ArrivedSoFar(before: Metrics, now: Metrics, input: Input, k: nat, firstErr: Option<string>) {
    && k <= |input.arrival| && now == before.(published := now.published, failed := now.failed)
    && RecordedFor(before.published, now.published, input.results, input.arrival[..k], true)
    && RecordedFor(before.failed, now.failed, input.results, input.arrival[..k], false)
    && firstErr == FirstFailure(input.results, input.arrival[..k])
  }

  lemma NoArrival(before: Metrics, input: Input)
    ensures ArrivedSoFar(before, before, input, 0, None)
  {
  }

  lemma OneArrival(before: Metrics, now: Metrics, input: Input, k: nat, firstErr: Option<string>)
    requires input.ValidArrival() && k < |input.arrival| && ArrivedSoFar(before, now, input, k, firstErr)
    ensures input.arrival[k] < |input.results|
    ensures var p := input.arrival[k];
            var err := input.results[p];
            var next := if err.Some? then now.(failed := now.failed + multiset{p})
                        else now.(published := now.published + multiset{p});
            ArrivedSoFar(before, next, input, k + 1, if firstErr == None then err else firstErr)
  {
    InRange(input);
    assert input.arrival[..k + 1][..k] == input.arrival[..k];
    OneMoreRecord(before.published, now.published, input.results, input.arrival, k, true);
    OneMoreRecord(before.failed, now.failed, input.results, input.arrival, k, false);
  }

  // When every result has arrived: the records are those of the results, and the error is right.
  lemma AllArrived(before: Metrics, after: Metrics, input: Input, firstErr: Option<string>)
    requires input.ValidArrival() && ArrivedSoFar(before, after, input, |input.arrival|, firstErr)
    ensures after == WithRecords(before, input.results) && firstErr == FirstFailure(input.results, input.arrival)
    ensures firstErr == None <==> AllSucceed(input.results)
    ensures firstErr.Some? ==> exists p :: 0 <= p < |input.results| && input.results[p] == firstErr
  {
    assert input.arrival[..|input.arrival|] == input.arrival;
    EveryoneArrives(input);
    FirstFailureExact(input.results, input.arrival);
    AllRecorded(before.published, after.published, input, true);
    AllRecorded(before.failed, after.failed, input, false);
  }

  lemma AllRecorded(before: multiset<nat>, after: multiset<nat>, input: Input, success: bool)
    requires input.ValidArrival()
    requires RecordedFor(before, after, input.results, input.arrival, success)
    ensures after == before + multiset(Producers(input.results, success))
  {
  }

  // ---------------------------------------------------------------- Fan-out and conservation

  // For every order in which results arrive: the publish fails exactly if some producer failed, and
  // the error is one producer's own.
  lemma {:induction false} FirstFailureExact(results: seq<Option<string>>, arrival: seq<nat>)
    requires forall j :: 0 <= j < |arrival| ==> arrival[j] < |results|
    ensures FirstFailure(results, arrival).Some? <==> exists j :: 0 <= j < |arrival| && results[arrival[j]].Some?
    ensures FirstFailure(results, arrival).Some? ==>
              exists j :: 0 <= j < |arrival| && results[arrival[j]] == FirstFailure(results, arrival)
                          && forall i :: 0 <= i < j ==> results[arrival[i]].None?
  {
    if arrival != [] {
      var n := |arrival| - 1;
      FirstFailureExact(results, arrival[..n]);
      assert forall j :: 0 <= j < n ==> arrival[..n][j] == arrival[j];
      if FirstFailure(results, arrival[..n]).Some? {
        var j :| 0 <= j < n && results[arrival[..n][j]] == FirstFailure(results, arrival[..n])
                 && forall i :: 0 <= i < j ==> results[arrival[..n][i]].None?;
        assert results[arrival[j]] == FirstFailure(results, arrival)
               && forall i :: 0 <= i < j ==> results[arrival[i]].None?;
      }
    }
  }

  // Ack is called exactly for stream events that the chain dropped or that every producer took,
  // never for snapshot events; and the run goes on exactly after such an event whose Ack, if due,
  // succeeded.
  lemma AckOnlyAfterAllSucceeded(stages: seq<Stage>, m: Metrics, input: Input, ack: bool)
    requires input.ValidArrival()
    ensures var v := RunChain(stages, input.ev, input.faults).1;
            var taken := v.Keep? && AllSucceed(input.results);
            var (_, m', o) := Process(stages, m, input, ack);
            && m'.ackCalls == m.ackCalls + (if ack && (v.Drop? || taken) then 1 else 0)
            && m'.ackCompleted == m.ackCompleted + (if ack && taken && input.ackOk then 1 else 0)
            && (!o.IsError() <==> (v.Drop? || taken) && (ack ==> input.ackOk))
  {
    EveryoneArrives(input);
    FirstFailureExact(input.results, input.arrival);
  }

  // A publish error is the one that a failed producer reported first.
  lemma PublishErrorIsFirst(stages: seq<Stage>, m: Metrics, input: Input, ack: bool)
    requires input.ValidArrival()
    ensures var o := Process(stages, m, input, ack).2;
            o.PublishFailed? ==>
              exists j :: 0 <= j < |input.arrival| && input.arrival[j] < |input.results|
                          && input.results[input.arrival[j]] == Some(o.error)
                          && forall i :: 0 <= i < j && input.arrival[i] < |input.results| ==>
                               input.results[input.arrival[i]].None?
  {
    EveryoneArrives(input);
    FirstFailureExact(input.results, input.arrival);
  }

  // How a loop ends: the stream returns no error only on cancellation, and the snapshot passes on
  // what SyncSnapshot returned.
  lemma EndingExact(ending: Ending, ack: bool)
    ensures ending.IsError(ack) <==> ending == Closed(true) || (ack && ending == Closed(false))
  {
  }

  // Each producer leaves one record, with its own number, of its own result.
  lemma RecordsExact(m: Metrics, results: seq<Option<string>>, p: nat)
    ensures var m' := WithRecords(m, results);
            && m'.published[p] == m.published[p] + (if p < |results| && results[p] == None then 1 else 0)
            && m'.failed[p] == m.failed[p] + (if p < |results| && results[p] != None then 1 else 0)
  {
  }

  // What the producers are given of an event, if it gets that far: its own id, source, operation,
  // type and payload, with the headers that the chain wrote.
  lemma OffersTheEvent(stages: seq<Stage>, m: Metrics, input: Input, ack: bool)
    ensures var v := RunChain(stages, input.ev, input.faults).1;
            var (_, m', o) := Process(stages, m, input, ack);
            && (o.ReachedProducers() <==> v.Keep?)
            && (!o.ReachedProducers() ==> m'.offered == m.offered)
            && (o.ReachedProducers() ==>
                  exists given :: && m'.offered == m.offered + [given] && v == Keep(given)
                                  && given.(headers := input.ev.headers) == input.ev)
  {
    KeepsContent(stages, input.ev, input.faults);
    var v := RunChain(stages, input.ev, input.faults).1;
    if v.Keep? {
      assert Process(stages, m, input, ack).1.offered == m.offered + [v.ev];
    }
  }

  // Events are processed one after the other, each with what the previous one left, until one ends
  // in an error or all are done.
  lemma {:induction false} ProcessAllExact(stages: seq<Stage>, m: Metrics, inputs: seq<Input>, ack: bool)
    ensures var os := ProcessAll(stages, m, inputs, ack).2;
            && |os| <= |inputs|
            && (|os| < |inputs| ==> BrokeOff(os))
            && (forall k :: 0 <= k < |os| ==>
                  var (st, mm, _) := ProcessAll(stages, m, inputs[..k], ack);
                  os[k] == Process(st, mm, inputs[k], ack).2)
    decreases |inputs|
  {
    if inputs != [] {
      var (st1, m1, o) := Process(stages, m, inputs[0], ack);
      var os := ProcessAll(stages, m, inputs, ack).2;
      if !o.IsError() {
        ProcessAllExact(st1, m1, inputs[1..], ack);
      }
      forall k | 0 <= k < |os|
        ensures var (st, mm, _) := ProcessAll(stages, m, inputs[..k], ack); os[k] == Process(st, mm, inputs[k], ack).2
      {
        if k > 0 {
          assert inputs[..k][0] == inputs[0] && inputs[..k][1..] == inputs[1..][..k - 1];
        }
      }
    }
  }

  function ReachedCount(os: seq<Outcome>): nat {
    if os == [] then 0 else (if os[0].ReachedProducers() then 1 else 0) + ReachedCount(os[1..])
  }

  function DroppedCount(os: seq<Outcome>): nat {
    if os == [] then 0 else (if os[0].WasDropped() then 1 else 0) + DroppedCount(os[1..])
  }

  lemma ProducersPartition(results: seq<Option<string>>)
    ensures |Producers(results, true)| + |Producers(results, false)| == |results|
  {
    assert Producers(results, true) + Producers(results, false) == UpTo(|results|);
    assert Producers(results, true) !! Producers(results, false);
  }

  lemma OneEventBalance(stages: seq<Stage>, m: Metrics, input: Input, ack: bool)
    ensures var (_, m', o) := Process(stages, m, input, ack);
            && m'.captured == m.captured + 1
            && m'.dropped == m.dropped + (if o.WasDropped() then 1 else 0)
            && |m'.published| + |m'.failed| ==
               |m.published| + |m.failed| + if o.ReachedProducers() then |input.results| else 0
  {
    ProducersPartition(input.results);
  }

  // The records of a run with these outcomes and n producers.
  ghost predicate Balanced(m: Metrics, m': Metrics, os: seq<Outcome>, n: nat) {
    && m'.captured == m.captured + DroppedCount(os) + ReachedCount(os) +
                      (if os != [] && os[|os| - 1].TransformFailed? then 1 else 0)
    && m'.dropped == m.dropped + DroppedCount(os)
    && |m'.published| + |m'.failed| == |m.published| + |m.failed| + n * ReachedCount(os)
    && (forall i :: 0 <= i < |os| - 1 ==> !os[i].IsError())
  }

  lemma BalancedNext(m: Metrics, m1: Metrics, m': Metrics, o: Outcome, rest: seq<Outcome>, n: nat)
    requires m1.captured == m.captured + 1 && m1.dropped == m.dropped + (if o.WasDropped() then 1 else 0)
    requires |m1.published| + |m1.failed| == |m.published| + |m.failed| + if o.ReachedProducers() then n else 0
    requires if o.IsError() then rest == [] && m' == m1 else Balanced(m1, m', rest, n)
    ensures Balanced(m, m', [o] + rest, n)
  {
    OneOutcome(o, rest, n);
  }

  // Over any run: every captured event is dropped, reaches the producers, or failed in the chain,
  // which, like any error, ends the run; drops are counted once each, and an event that reaches the
  // producers leaves exactly one record, published or failed, per producer.
  lemma {:induction false} MetricsBalance(stages: seq<Stage>, m: Metrics, inputs: seq<Input>, ack: bool, n: nat)
    requires forall i :: 0 <= i < |inputs| ==> |inputs[i].results| == n
    ensures var (_, m', os) := ProcessAll(stages, m, inputs, ack); Balanced(m, m', os, n)
    decreases |inputs|
  {
    if inputs != [] {
      var (stages', m1, o) := Process(stages, m, inputs[0], ack);
      OneEventBalance(stages, m, inputs[0], ack);
      if o.IsError() {
        BalancedNext(m, m1, m1, o, [], n);
      } else {
        var (_, m', rest) := ProcessAll(stages', m1, inputs[1..], ack);
        MetricsBalance(stages', m1, inputs[1..], ack, n);
        BalancedNext(m, m1, m', o, rest, n);
      }
    }
  }

  lemma OneOutcome(o: Outcome, rest: seq<Outcome>, n: nat)
    ensures DroppedCount([o] + rest) == (if o.WasDropped() then 1 else 0) + DroppedCount(rest)
    ensures n * ReachedCount([o] + rest) == (if o.ReachedProducers() then n else 0) + n * ReachedCount(rest)
  {
    assert ([o] + rest)[1..] == rest;
    assert n * (1 + ReachedCount(rest)) == n + n * ReachedCount(rest);
  }

  // Records of the results that arrived so far.
  ghost predicate RecordedFor(before: multiset<nat>, after: multiset<nat>, results: seq<Option<string>>,
                              arrived: seq<nat>, success: bool) {
    forall p: nat :: after[p] == before[p] +
      if p < |results| && results[p].None? == success then multiset(arrived)[p] else 0
  }

  lemma InRange(input: Input)
    requires input.ValidArrival()
    ensures forall j :: 0 <= j < |input.arrival| ==> input.arrival[j] < |input.results|
  {
    forall j | 0 <= j < |input.arrival| ensures input.arrival[j] < |input.results| {
      assert input.arrival[j] in multiset(input.arrival);
    }
  }

  lemma EveryoneArrives(input: Input)
    requires input.ValidArrival()
    ensures forall j :: 0 <= j < |input.arrival| ==> input.arrival[j] < |input.results|
    ensures (forall j :: 0 <= j < |input.arrival| ==> input.results[input.arrival[j]].None?) <==>
            AllSucceed(input.results)
  {
    InRange(input);
    if forall j :: 0 <= j < |input.arrival| ==> input.results[input.arrival[j]].None? {
      forall p | 0 <= p < |input.results| ensures input.results[p].None? {
        assert multiset(input.arrival)[p] == 1;
        assert p in input.arrival;
        var j :| 0 <= j < |input.arrival| && input.arrival[j] == p;
      }
    }
  }

  lemma OneMoreRecord(before: multiset<nat>, after: multiset<nat>, results: seq<Option<string>>, arrival: seq<nat>,
                      k: nat, success: bool)
    requires k < |arrival| && arrival[k] < |results|
    requires RecordedFor(before, after, results, arrival[..k], success)
    ensures RecordedFor(before, if results[arrival[k]].None? == success then after + multiset{arrival[k]} else after,
                        results, arrival[..k + 1], success)
  {
    assert arrival[..k + 1] == arrival[..k] + [arrival[k]];
  }

  // Stage i is next: the stages before it have run and left done, and current is their output.
  ghost predicate ChainFrom(all: seq<Stage>, ev: Event, faults: seq<Fault>, done: seq<Stage>, i: nat, current: Event)
    requires i <= |all|
  {
    var (rest, v) := RunChain(all[i..], current, Skip(faults, i));
    RunChain(all, ev, faults) == (done + rest, v)
  }

  // The loop stands before stage i: stages holds what ran so far, then what is still to run.
  ghost predicate Running(all: seq<Stage>, ev: Event, faults: seq<Fault>, done: seq<Stage>, i: nat, current: Event,
                          stages: seq<Stage>) {
    i == |done| <= |all| && stages == done + all[i..] && ChainFrom(all, ev, faults, done, i, current)
  }

  lemma ChainBegins(all: seq<Stage>, ev: Event, faults: seq<Fault>)
    ensures Running(all, ev, faults, [], 0, ev, all)
  {
    assert all[0..] == all && Skip(faults, 0) == faults;
    assert [] + RunChain(all, ev, faults).0 == RunChain(all, ev, faults).0;
  }

  lemma ChainEnds(all: seq<Stage>, ev: Event, faults: seq<Fault>, done: seq<Stage>, current: Event, stages: seq<Stage>)
    requires Running(all, ev, faults, done, |stages|, current, stages)
    ensures RunChain(all, ev, faults) == (stages, Keep(current))
  {
    assert all[|all|..] == [];
  }

  lemma StageRuns(all: seq<Stage>, ev: Event, faults: seq<Fault>, done: seq<Stage>, i: nat, current: Event,
                  stages: seq<Stage>)
    requires i < |stages| && Running(all, ev, faults, done, i, current, stages)
    ensures var (st, w) := Apply(stages[i], current, if i < |faults| then faults[i] else NoFault);
            if w.Keep? then Running(all, ev, faults, done + [st], i + 1, w.ev, stages[i := st])
            else RunChain(all, ev, faults) == (stages[i := st], w)
  {
    ChainAdvances(all, ev, faults, done, i, current);
    var st := Apply(stages[i], current, if i < |faults| then faults[i] else NoFault).0;
    StageReplaced(stages, done, all, i, st);
  }

  lemma StageReplaced(stages: seq<Stage>, done: seq<Stage>, all: seq<Stage>, i: nat, st: Stage)
    requires i == |done| < |all| && stages == done + all[i..]
    ensures stages[i] == all[i]
    ensures stages[i := st] == (done + [st]) + all[i + 1..] == done + ([st] + all[i + 1..])
  {
  }

  lemma ChainAdvances(all: seq<Stage>, ev: Event, faults: seq<Fault>, done: seq<Stage>, i: nat, current: Event)
    requires i < |all| && ChainFrom(all, ev, faults, done, i, current)
    ensures var (st, w) := Apply(all[i], current, if i < |faults| then faults[i] else NoFault);
            if w.Keep? then ChainFrom(all, ev, faults, done + [st], i + 1, w.ev)
            else RunChain(all, ev, faults) == (done + ([st] + all[i + 1..]), w)
  {
    assert all[i..][0] == all[i] && all[i..][1..] == all[i + 1..];
    var f := Skip(faults, i);
    assert Head(f) == if i < |faults| then faults[i] else NoFault;
    assert Skip(f, 1) == Skip(faults, i + 1);
    var (st, w) := Apply(all[i], current, Head(f));
    if w.Keep? {
      var rest := RunChain(all[i + 1..], w.ev, Skip(faults, i + 1)).0;
      assert done + ([st] + rest) == (done + [st]) + rest;
    }
  }
}
