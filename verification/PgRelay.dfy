// The whole Postgres relay as one machine: the protocol, the WAL handler that answers each message,
// and the transform chain that decides each event. Every history of it is, step for step, one of the
// protocol's histories, so all that is proved about those holds here.
module PgRelay {
  import opened Prelude
  import opened Events
  import opened WalHandler
  import opened Histories
  import opened PgProtocol
  import Transform
  import RelationCache

  // A row change in the log and the event it decodes to, in every session it is sent in.
  datatype Row = Row(pos: LSN, ev: Event)

  function Wal(rows: seq<Row>): (wal: seq<WalEvent>)
    ensures |wal| == |rows| && forall i :: 0 <= i < |rows| ==> wal[i] == WalEvent(rows[i].pos, rows[i].ev.id)
  {
    seq(|rows|, i requires 0 <= i < |rows| => WalEvent(rows[i].pos, rows[i].ev.id))
  }

  datatype Relay = Relay(s: State, h: HandlerState, stages: seq<Transform.Stage>)

  function Start(slot: LSN, store: Option<map<nat, Relation>>, stages: seq<Transform.Stage>): Relay {
    Relay(Initial(slot), RelationCache.Fresh(store), stages)
  }

  // Handled: the handler gets a message and accepts or rejects it. Process: the chain runs on the
  // event the engine holds and, if it keeps the event, all producers take it (ok) or not. A process
  // killed between the chain and the publish looks like a publish that failed.
  datatype Move =
    | Internal(act: Action)
    | Handled(msg: BackendMessage, io: StoreIO)
    | Process(faults: seq<Transform.Fault>, ok: bool)

  predicate Busy(rows: seq<Row>, x: Relay) {
    x.s.engine.Working? && x.s.engine.i < |rows|
  }

  function Attempt(rows: seq<Row>, x: Relay, faults: seq<Transform.Fault>): (seq<Transform.Stage>, Transform.Verdict)
    requires Busy(rows, x)
  {
    Transform.RunChain(x.stages, rows[x.s.engine.i].ev, faults)
  }

  predicate Accepts(x: Relay, m: BackendMessage, io: StoreIO) {
    Handle(x.h, m, io).1.Ok?
  }

  // The step of the protocol that a move amounts to.
  function ActionOf(rows: seq<Row>, x: Relay, mv: Move): Action {
    match mv
    case Internal(a) => a
    case Handled(m, io) => if Accepts(x, m, io) then Receive(m) else ReceiveFails
    case Process(faults, ok) =>
      if !Busy(rows, x) then ProcessFails
      else
        match Attempt(rows, x, faults).1
        case Keep(_) => if ok then Publish else ProcessFails
        case Drop => Drop
        case Fail => ProcessFails
  }

  predicate IsInternal(a: Action) {
    !a.Receive? && !a.Publish? && !a.Drop? && !a.ProcessFails?
  }

  predicate Possible(rows: seq<Row>, x: Relay, mv: Move) {
    && Enabled(Wal(rows), x.s, ActionOf(rows, x, mv))
    && match mv
       case Internal(a) => IsInternal(a)
       case Handled(m, io) =>
         Accepts(x, m, io) && IsDml(m) ==> Handle(x.h, m, io).1.value.event == rows[x.s.next].ev
       case Process(_, _) => Busy(rows, x)
  }

  // Ack assigns ClientLSN; a process restart discards the handler, but not its store, and rebuilds
  // the chain.
  function Moved(rows: seq<Row>, x: Relay, mv: Move): Relay
    requires Possible(rows, x, mv)
  {
    var s' := Step(Wal(rows), x.s, ActionOf(rows, x, mv));
    match mv
    case Internal(a) =>
      if a.AckAssign? then Relay(s', x.h.(client := x.h.pending), x.stages)
      else if a.Restart? then Relay(s', RelationCache.Fresh(x.h.store), Transform.Rebuild(x.stages))
      else Relay(s', x.h, x.stages)
    case Handled(m, io) => Relay(s', Handle(x.h, m, io).0, x.stages)
    case Process(faults, _) => Relay(s', x.h, Attempt(rows, x, faults).0)
  }

  function Machinery(rows: seq<Row>): Machine<Relay, Move> {
    Machine((x: Relay, mv: Move) => Possible(rows, x, mv),
            (x: Relay, mv: Move) => if Possible(rows, x, mv) then Moved(rows, x, mv) else x)
  }

  // ---------------------------------------------------------------- Its histories are the protocol's

  const STATE: Relay -> State := (x: Relay) => x.s

  function ActOf(rows: seq<Row>): (Relay, Move) -> Action {
    (x, mv) => ActionOf(rows, x, mv)
  }

  ghost function Steps(rows: seq<Row>, x: Relay, moves: seq<Move>): seq<Action> {
    Projected(Machinery(rows), ActOf(rows), x, moves)
  }

  lemma FollowsProtocol(rows: seq<Row>, x: Relay, moves: seq<Move>)
    requires Valid(Machinery(rows), x, moves)
    ensures Leads(System(Wal(rows)), x.s, Steps(rows, x, moves), Exec(Machinery(rows), x, moves).s)
  {
    Projects(Machinery(rows), System(Wal(rows)), STATE, ActOf(rows), x, moves);
  }

  // A condition on protocol steps, read off the moves.
  function Reads(rows: seq<Row>, bad: (State, Action) -> bool): (Relay, Move) -> bool {
    (x: Relay, mv: Move) => bad(x.s, ActionOf(rows, x, mv))
  }

  lemma NeverInProtocol(rows: seq<Row>, bad: (State, Action) -> bool, x: Relay, moves: seq<Move>)
    requires Valid(Machinery(rows), x, moves)
    ensures Never(System(Wal(rows)), bad, x.s, Steps(rows, x, moves)) <==>
            Never(Machinery(rows), Reads(rows, bad), x, moves)
  {
    NeverProjected(Machinery(rows), System(Wal(rows)), STATE, ActOf(rows), bad, Reads(rows, bad), x, moves);
  }

  // The positions the protocol speaks of are the handler's fields, in every state of every history.
  predicate Agrees(x: Relay) {
    x.s.lsn == Positions(x.h.client, x.h.pending)
  }

  lemma AgreesStep(rows: seq<Row>, x: Relay, mv: Move)
    requires Agrees(x) && Possible(rows, x, mv)
    ensures Agrees(Moved(rows, x, mv))
  {
    if mv.Handled? {
      PositionsMoveOnlyOnSuccess(x.h, mv.msg, mv.io);
    }
  }

  lemma HandlerHoldsThePositions(rows: seq<Row>, slot: LSN, store: Option<map<nat, Relation>>,
                                 stages: seq<Transform.Stage>, moves: seq<Move>)
    requires Valid(Machinery(rows), Start(slot, store, stages), moves)
    ensures Agrees(Exec(Machinery(rows), Start(slot, store, stages), moves))
  {
    forall x, mv | Agrees(x) && Possible(rows, x, mv) ensures Agrees(Machinery(rows).step(x, mv)) {
      AgreesStep(rows, x, mv);
    }
    Invariant(Machinery(rows), Agrees, Start(slot, store, stages), moves);
  }

  // A relation message is learnt even if its save is refused and the run ends with it: the handler,
  // which the next run keeps, decodes with it from then on, and the positions stay where they were.
  lemma RefusedRelationIsLearnt(rows: seq<Row>, x: Relay, m: BackendMessage, io: StoreIO)
    requires Possible(rows, x, Handled(m, io)) && IsXLog(m) && m.payload.body.RelationMessage?
    ensures var rel, y := m.payload.body.rel, Moved(rows, x, Handled(m, io));
            && rel.id in y.h.relations && y.h.relations[rel.id] == rel
            && (x.h.store.Some? && !io.saveReportsOk <==> y.s.capture == Stopped)
            && (y.s.capture == Stopped ==> y.h.client == x.h.client && y.h.pending == x.h.pending)
  {
  }
}
