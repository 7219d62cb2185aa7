// The engine's processEvent takes the steps that the protocol says the engine takes: the chain and
// the publish decide between Publish, Drop and ProcessFails, and Ack follows where it is due.
module PgEngine {
  import opened Prelude
  import opened Histories
  import opened WalHandler
  import opened PgProtocol
  import opened PgRelay
  import E = EngineCore

  predicate AckDue(o: E.Outcome) {
    o.WasDropped() || o.Published? || o.PublishedAckFailed?
  }

  function MovesOf(input: E.Input, o: E.Outcome, delivered: bool): seq<Move> {
    [Process(input.faults, E.AllSucceed(input.results))]
    + if AckDue(o) then [Internal(AckAssign), Internal(AckSend(delivered, input.ackOk))] else []
  }

  // The protocol's state when chain and publish are done.
  function Decided(s: State, i: nat, o: E.Outcome): State {
    s.(engine := if AckDue(o) then AckReady else Failed(Some(i)),
       published := if AckDue(o) && !o.WasDropped() then s.published + {i} else s.published,
       dropped := if o.WasDropped() then s.dropped + {i} else s.dropped)
  }

  // ClientLSN is PendingLSN, the server may have been told, and the engine goes on or not.
  function Acked(s: State, delivered: bool, ok: bool): State {
    s.(engine := if ok then Idle else Failed(None), lsn := Positions(s.lsn.pending, s.lsn.pending),
       sentMax := if delivered then Max(s.sentMax, s.lsn.pending) else s.sentMax)
  }

  lemma DecisionStep(rows: seq<Row>, x: Relay, m: E.Metrics, input: E.Input)
    requires x.s.running && Busy(rows, x) && input.ev == rows[x.s.engine.i].ev && input.ValidArrival()
    ensures var (stages', _, o) := E.Process(x.stages, m, input, true);
            var mv := Process(input.faults, E.AllSucceed(input.results));
            Possible(rows, x, mv) && Moved(rows, x, mv) == Relay(Decided(x.s, x.s.engine.i, o), x.h, stages')
  {
    E.EveryoneArrives(input);
    E.FirstFailureExact(input.results, input.arrival);
  }

  lemma AckSteps(rows: seq<Row>, x: Relay, delivered: bool, ok: bool)
    requires x.s.running && x.s.engine == AckReady
    ensures Leads(Machinery(rows), x, [Internal(AckAssign), Internal(AckSend(delivered, ok))],
                  Relay(Acked(x.s, delivered, ok), x.h.(client := x.h.pending), x.stages))
  {
    TwoSteps(Machinery(rows), x, Internal(AckAssign), Internal(AckSend(delivered, ok)),
             Relay(Acked(x.s, delivered, ok), x.h.(client := x.h.pending), x.stages));
  }

  // For every outcome of processing the event the engine holds, for all faults, publish results and
  // arrival orders: the protocol reaches the state of that outcome, with the chain as processEvent
  // leaves it, and the engine goes on to the next event exactly if processEvent returned no error.
  lemma ProcessEventTakesTheSteps(rows: seq<Row>, x: Relay, m: E.Metrics, input: E.Input, delivered: bool)
    requires x.s.running && Busy(rows, x) && input.ev == rows[x.s.engine.i].ev && input.ValidArrival()
    ensures var (stages', _, o) := E.Process(x.stages, m, input, true);
            var d := Decided(x.s, x.s.engine.i, o);
            var y := if AckDue(o) then Relay(Acked(d, delivered, input.ackOk), x.h.(client := x.h.pending), stages')
                     else Relay(d, x.h, stages');
            && Leads(Machinery(rows), x, MovesOf(input, o, delivered), y)
            && (y.s.engine == Idle <==> !o.IsError())
  {
    var o := E.Process(x.stages, m, input, true).2;
    var mv := Process(input.faults, E.AllSucceed(input.results));
    DecisionStep(rows, x, m, input);
    var y := Moved(rows, x, mv);
    OneStep(Machinery(rows), x, mv, y);
    if AckDue(o) {
      AckSteps(rows, y, delivered, input.ackOk);
      Then(Machinery(rows), x, [mv], y, [Internal(AckAssign), Internal(AckSend(delivered, input.ackOk))],
           Relay(Acked(y.s, delivered, input.ackOk), y.h.(client := y.h.pending), y.stages));
    } else {
      assert MovesOf(input, o, delivered) == [mv];
    }
  }
}
