// Replication sessions of one-row transactions, move by move as the code goes through them, and a
// history of them in which every run loses an event: the bound of one event per run is reached.
module PgSessions {
  import opened Prelude
  import opened Events
  import opened WalHandler
  import opened Histories
  import opened PgProtocol
  import opened PgDelivery
  import opened PgRelay
  import RelationCache

  const OUTBOX := Relation(16384, "outbox", ["id", "event_type", "payload"])
  const WORKS := StoreIO(true, false, true)

  // Events as inserts, updates and deletes of the outbox decode to them, with an id, so that they are
  // handed over.
  predicate IsChange(ev: Event) {
    ev.id != "" && ev.source == "outbox" && ev.operation != Unset && ev.payload.Some? && ev.headers == map[]
  }

  predicate AllChanges(evs: seq<Event>) {
    forall i :: 0 <= i < |evs| ==> IsChange(evs[i])
  }

  // Transaction i: begin ends at 4i+1, the relation message at 4i+2, the row at 4i+3, commit at 4i+4.
  function Rows(evs: seq<Event>): (rows: seq<Row>)
    ensures |rows| == |evs| && StreamOrdered(Wal(rows), 0)
    ensures forall i :: 0 <= i < |evs| ==> rows[i] == Row(4 * i + 3, evs[i])
  {
    seq(|evs|, i requires 0 <= i < |evs| => Row(4 * i + 3, evs[i]))
  }

  function Message(position: nat, body: Logical): BackendMessage {
    CopyData(XLogData(position, 1, body))
  }

  function TupleOf(ev: Event): seq<Column> {
    [Column('t', ev.id), Column('t', ev.eventType), Column('t', ev.payload.GetOr(""))]
  }

  function ChangeOf(ev: Event): (body: Logical)
    ensures ev.operation != Unset ==> OperationOf(body) == ev.operation
  {
    match ev.operation
    case Update => UpdateMessage(OUTBOX.id, Some(TupleOf(ev)))
    case Delete => DeleteMessage(OUTBOX.id, Some(TupleOf(ev)))
    case _ => InsertMessage(OUTBOX.id, Some(TupleOf(ev)))
  }

  lemma ChangeDecodes(ev: Event)
    requires IsChange(ev)
    ensures DecodeTuple(OUTBOX, Some(TupleOf(ev)), ev.operation) == Ok(ev)
  {
    assert OUTBOX.columns[0] != OUTBOX.columns[1] && OUTBOX.columns[0] != OUTBOX.columns[2] &&
           OUTBOX.columns[1] != OUTBOX.columns[2] by {
      assert |"id"| == 2 && |"event_type"| == 10 && |"payload"| == 7;
    }
    ValueAtItsName(OUTBOX.columns, TupleOf(ev), 0);
    ValueAtItsName(OUTBOX.columns, TupleOf(ev), 1);
    ValueAtItsName(OUTBOX.columns, TupleOf(ev), 2);
  }

  function WithReply(m: BackendMessage): seq<Move> {
    [Handled(m, WORKS), Internal(Reply(true))]
  }

  function Opening(i: nat): seq<Move> {
    [Internal(StartRun(4 * i, true, true))]
    + (WithReply(Message(4 * i, BeginMessage)) + WithReply(Message(4 * i + 1, RelationMessage(OUTBOX))))
  }

  function HandingOver(evs: seq<Event>, i: nat): seq<Move>
    requires i < |evs|
  {
    [Handled(Message(4 * i + 2, ChangeOf(evs[i])), WORKS)] + [Internal(Take), Internal(Reply(true))]
  }

  // A session begins, announces the relation and delivers row i; the engine is about to process it.
  function Delivery(evs: seq<Event>, i: nat): seq<Move>
    requires i < |evs|
  {
    Opening(i) + HandingOver(evs, i)
  }

  function Learnt(h: HandlerState): HandlerState {
    SaveRelation(h, OUTBOX, WORKS)
  }

  function Opened(x: Relay, i: nat): Relay {
    Relay(x.s.(lsn := Positions(4 * i + 2, x.s.lsn.pending), capture := Receiving, engine := Idle, running := true,
               first := i, next := i, high := 4 * i + 2, sentMax := 4 * i + 2, floor := Confirmed(x.s)),
          Learnt(x.h).(client := 4 * i + 2), x.stages)
  }

  // In a session that announced the relation, with row i next.
  predicate Ready(o: Relay, i: nat) {
    && o.s.running && o.s.capture == Receiving && o.s.engine == Idle && o.s.next == i && o.s.high <= 4 * i + 2
    && o.s.lsn.client <= o.s.sentMax && OUTBOX.id in o.h.relations && o.h.relations[OUTBOX.id] == OUTBOX
  }

  function HandedOver(o: Relay, i: nat): Relay {
    Relay(o.s.(lsn := o.s.lsn.(pending := 4 * i + 3), engine := Working(i), next := i + 1, high := 4 * i + 3),
          o.h.(pending := 4 * i + 3), o.stages)
  }

  function Delivered(x: Relay, i: nat): Relay {
    HandedOver(Opened(x, i), i)
  }

  // Between runs, with no transaction from i on confirmed.
  predicate Waiting(x: Relay, i: nat) {
    !x.s.running && 4 * i <= x.s.sentMax <= 4 * i + 2 && x.s.lsn.client <= 4 * i + 2
  }

  // The handler rejects a message; or, if the schedule is to be lockstep, one is handled too early.
  predicate Disturbs(rows: seq<Row>, lockstep: bool, x: Relay, mv: Move) {
    (mv.Handled? && !Accepts(x, mv.msg, mv.io)) || (lockstep && Overlaps(x.s, ActionOf(rows, x, mv)))
  }

  function DisturbsOf(rows: seq<Row>, lockstep: bool): (Relay, Move) -> bool {
    (x, mv) => Disturbs(rows, lockstep, x, mv)
  }

  // These moves lead from x to y: all are possible, no message is rejected, and none comes too early.
  ghost predicate Reaches(rows: seq<Row>, lockstep: bool, x: Relay, moves: seq<Move>, y: Relay) {
    Leads(Machinery(rows), x, moves, y) && Never(Machinery(rows), DisturbsOf(rows, lockstep), x, moves)
  }

  lemma Further(rows: seq<Row>, lockstep: bool, x: Relay, moves: seq<Move>, y: Relay, mv: Move)
    requires Reaches(rows, lockstep, x, moves, y) && Possible(rows, y, mv) && !Disturbs(rows, lockstep, y, mv)
    ensures Reaches(rows, lockstep, x, moves + [mv], Moved(rows, y, mv))
  {
    OneClean(Machinery(rows), DisturbsOf(rows, lockstep), x, moves, y, mv);
  }

  lemma AndThen(rows: seq<Row>, lockstep: bool, x: Relay, xs: seq<Move>, y: Relay, ys: seq<Move>, z: Relay)
    requires Reaches(rows, lockstep, x, xs, y) && Reaches(rows, lockstep, y, ys, z)
    ensures Reaches(rows, lockstep, x, xs + ys, z)
  {
    Then(Machinery(rows), x, xs, y, ys, z);
    NeverThen(Machinery(rows), DisturbsOf(rows, lockstep), x, xs, y, ys);
  }

  lemma OneMove(rows: seq<Row>, lockstep: bool, x: Relay, mv: Move)
    requires Possible(rows, x, mv) && !Disturbs(rows, lockstep, x, mv)
    ensures Reaches(rows, lockstep, x, [mv], Moved(rows, x, mv))
  {
    Further(rows, lockstep, x, [], x, mv);
    assert [] + [mv] == [mv];
  }

  lemma TwoMoves(rows: seq<Row>, lockstep: bool, x: Relay, a: Move, b: Move)
    requires Possible(rows, x, a) && !Disturbs(rows, lockstep, x, a)
    requires var y := Moved(rows, x, a); Possible(rows, y, b) && !Disturbs(rows, lockstep, y, b)
    ensures Reaches(rows, lockstep, x, [a, b], Moved(rows, Moved(rows, x, a), b))
  {
    OneMove(rows, lockstep, x, a);
    Further(rows, lockstep, x, [a], Moved(rows, x, a), b);
    assert [a] + [b] == [a, b];
  }

  lemma ResumesAt(evs: seq<Event>, i: nat)
    requires i < |evs|
    ensures Reach(Wal(Rows(evs)), 4 * i) == i
  {
    var wal := Wal(Rows(evs));
    ReachIsPrefix(wal, 4 * i, 0);
    assert wal[i].pos == 4 * i + 3;
    if i > 0 { assert wal[i - 1].pos == 4 * i - 1; }
  }

  // After a message that confirms its own position, and the status that follows it.
  function Answered(x: Relay, m: BackendMessage): Relay
    requires IsSelfConfirming(m)
  {
    Relay(x.s.(lsn := x.s.lsn.(client := EndPosition(m)), capture := Receiving, high := EndPosition(m),
               sentMax := Max(x.s.sentMax, EndPosition(m))),
          Handle(x.h, m, WORKS).0, x.stages)
  }

  lemma HandleAndReply(rows: seq<Row>, lockstep: bool, x: Relay, m: BackendMessage)
    requires x.s.running && x.s.capture == Receiving && x.s.next <= |rows| && (lockstep ==> x.s.engine == Idle)
    requires IsSelfConfirming(m) && StreamAllows(Wal(rows), x.s, m)
    ensures Reaches(rows, lockstep, x, WithReply(m), Answered(x, m))
  {
    var y := Moved(rows, x, Handled(m, WORKS));
    assert Possible(rows, y, Internal(Reply(true))) && Moved(rows, y, Internal(Reply(true))) == Answered(x, m);
    TwoMoves(rows, lockstep, x, Handled(m, WORKS), Internal(Reply(true)));
  }

  function Began(x: Relay, i: nat): Relay {
    Relay(x.s.(running := true, capture := Receiving, engine := Idle, first := i, next := i, high := 4 * i,
               floor := Confirmed(x.s), sentMax := Confirmed(x.s)),
          x.h, x.stages)
  }

  lemma Begins(evs: seq<Event>, lockstep: bool, x: Relay, i: nat)
    requires i < |evs| && Waiting(x, i)
    ensures Reaches(Rows(evs), lockstep, x, [Internal(StartRun(4 * i, true, true))], Began(x, i))
  {
    ResumesAt(evs, i);
    OneMove(Rows(evs), lockstep, x, Internal(StartRun(4 * i, true, true)));
  }

  lemma RunOpening(evs: seq<Event>, lockstep: bool, x: Relay, i: nat)
    requires i < |evs| && Waiting(x, i)
    ensures Reaches(Rows(evs), lockstep, x, Opening(i), Opened(x, i))
  {
    var rows, start, b := Rows(evs), Internal(StartRun(4 * i, true, true)), Began(x, i);
    var begin, announce := Message(4 * i, BeginMessage), Message(4 * i + 1, RelationMessage(OUTBOX));
    assert Wal(rows)[i].pos == 4 * i + 3;
    Begins(evs, lockstep, x, i);
    HandleAndReply(rows, lockstep, b, begin);
    var c := Answered(b, begin);
    HandleAndReply(rows, lockstep, c, announce);
    assert Answered(c, announce) == Opened(x, i);
    AndThen(rows, lockstep, b, WithReply(begin), c, WithReply(announce), Opened(x, i));
    AndThen(rows, lockstep, x, [start], b, WithReply(begin) + WithReply(announce), Opened(x, i));
  }

  lemma TakenOver(rows: seq<Row>, lockstep: bool, x: Relay)
    requires x.s.running && x.s.capture.Handing? && x.s.engine == Idle && x.s.lsn.client <= x.s.sentMax
    ensures var s := x.s.(capture := Receiving, engine := Working(x.s.capture.i));
            Reaches(rows, lockstep, x, [Internal(Take), Internal(Reply(true))], Relay(s, x.h, x.stages))
  {
    TwoMoves(rows, lockstep, x, Internal(Take), Internal(Reply(true)));
  }

  // The row is accepted, decodes to its event, and waits on the channel.
  lemma RunRow(evs: seq<Event>, lockstep: bool, o: Relay, i: nat)
    requires i < |evs| && AllChanges(evs) && Ready(o, i)
    ensures var h := HandedOver(o, i);
            Reaches(Rows(evs), lockstep, o, [Handled(Message(4 * i + 2, ChangeOf(evs[i])), WORKS)],
                    Relay(h.s.(capture := Handing(i), engine := Idle), h.h, h.stages))
  {
    var row := Handled(Message(4 * i + 2, ChangeOf(evs[i])), WORKS);
    assert Wal(Rows(evs))[i] == WalEvent(4 * i + 3, evs[i].id);
    ChangeDecodes(evs[i]);
    assert o.h.relations[OUTBOX.id := OUTBOX] == o.h.relations;
    OneMove(Rows(evs), lockstep, o, row);
  }

  lemma RunHandingOver(evs: seq<Event>, lockstep: bool, o: Relay, i: nat)
    requires i < |evs| && AllChanges(evs) && Ready(o, i)
    ensures Reaches(Rows(evs), lockstep, o, HandingOver(evs, i), HandedOver(o, i))
  {
    var row, h := Handled(Message(4 * i + 2, ChangeOf(evs[i])), WORKS), HandedOver(o, i);
    var t := Relay(h.s.(capture := Handing(i), engine := Idle), h.h, h.stages);
    RunRow(evs, lockstep, o, i);
    TakenOver(Rows(evs), lockstep, t);
    AndThen(Rows(evs), lockstep, o, [row], t, [Internal(Take), Internal(Reply(true))], h);
  }

  lemma RunDelivery(evs: seq<Event>, lockstep: bool, x: Relay, i: nat)
    requires i < |evs| && AllChanges(evs) && Waiting(x, i)
    ensures Reaches(Rows(evs), lockstep, x, Delivery(evs, i), Delivered(x, i))
  {
    RunOpening(evs, lockstep, x, i);
    RunHandingOver(evs, lockstep, Opened(x, i), i);
    AndThen(Rows(evs), lockstep, x, Opening(i), Opened(x, i), HandingOver(evs, i), Delivered(x, i));
  }

  // ---------------------------------------------------------------- The bound is reached

  // While the engine publishes row i, capture handles the row's commit and reports it; then the
  // publish fails and the process restarts.
  const CRASH := [Process([], false)] + [Internal(EndRun), Internal(Restart)]

  function LossyRound(evs: seq<Event>, i: nat): seq<Move>
    requires i < |evs|
  {
    Delivery(evs, i) + (WithReply(Message(4 * i + 3, CommitMessage)) + CRASH)
  }

  function LossyHistory(evs: seq<Event>, n: nat): seq<Move>
    requires n <= |evs|
  {
    if n == 0 then [] else LossyHistory(evs, n - 1) + LossyRound(evs, n - 1)
  }

  ghost predicate LostRounds(x: Relay, i: nat) {
    && !x.s.running && x.s.sentMax == 4 * i && x.s.ended == i && x.s.published == x.s.dropped == {}
    && x.s.lsn == Positions(0, 0) && x.stages == []
  }

  function Crashed(x: Relay, i: nat): Relay {
    Relay(x.s.(running := false, engine := Failed(Some(i)), ended := x.s.ended + 1, lsn := Positions(0, 0)),
          RelationCache.Fresh(x.h.store), [])
  }

  lemma RunCrash(evs: seq<Event>, x: Relay, i: nat)
    requires i < |evs| && x.s.running && x.s.engine == Working(i) && x.stages == []
    ensures Reaches(Rows(evs), false, x, CRASH, Crashed(x, i))
  {
    var rows := Rows(evs);
    OneMove(rows, false, x, Process([], false));
    var f := Moved(rows, x, Process([], false));
    TwoMoves(rows, false, f, Internal(EndRun), Internal(Restart));
    AndThen(rows, false, x, [Process([], false)], f, [Internal(EndRun), Internal(Restart)], Crashed(x, i));
  }

  lemma RunRound(evs: seq<Event>, x: Relay, i: nat) returns (y: Relay)
    requires i < |evs| && AllChanges(evs) && LostRounds(x, i)
    ensures Reaches(Rows(evs), false, x, LossyRound(evs, i), y) && LostRounds(y, i + 1)
  {
    var rows, commit := Rows(evs), Message(4 * i + 3, CommitMessage);
    RunDelivery(evs, false, x, i);
    var d := Delivered(x, i);
    if i + 1 < |evs| { assert Wal(rows)[i + 1].pos == 4 * i + 7; }
    HandleAndReply(rows, false, d, commit);
    var c := Answered(d, commit);
    RunCrash(evs, c, i);
    y := Crashed(c, i);
    AndThen(rows, false, d, WithReply(commit), c, CRASH, y);
    AndThen(rows, false, x, Delivery(evs, i), d, WithReply(commit) + CRASH, y);
  }

  // k rounds lead from the start to x.
  ghost predicate Played(evs: seq<Event>, start: Relay, k: nat, x: Relay)
    requires k <= |evs|
  {
    LostRounds(x, k) && Reaches(Rows(evs), false, start, LossyHistory(evs, k), x)
  }

  lemma NothingPlayed(evs: seq<Event>, store: Option<map<nat, Relation>>) returns (x: Relay)
    ensures Played(evs, Start(0, store, []), 0, x)
  {
    x := Start(0, store, []);
  }

  lemma OneRoundMore(evs: seq<Event>, start: Relay, k: nat, u: Relay) returns (x: Relay)
    requires 0 < k <= |evs| && AllChanges(evs) && Played(evs, start, k - 1, u)
    ensures Played(evs, start, k, x)
  {
    x := RunRound(evs, u, k - 1);
    AndThen(Rows(evs), false, start, LossyHistory(evs, k - 1), u, LossyRound(evs, k - 1), x);
  }

  lemma {:induction false} RunRounds(evs: seq<Event>, store: Option<map<nat, Relation>>, k: nat) returns (x: Relay)
    requires k <= |evs| && AllChanges(evs)
    ensures Played(evs, Start(0, store, []), k, x)
    decreases k
  {
    if k == 0 {
      x := NothingPlayed(evs, store);
    } else {
      var u := RunRounds(evs, store, k - 1);
      x := OneRoundMore(evs, Start(0, store, []), k, u);
    }
  }

  // For any events there is a history, with one ended run per event, that loses all of them: the
  // handler accepts every message and decodes every row to its event, all are below what the server
  // was told, none was ever published or dropped. No bound smaller than one event per run holds.
  lemma BoundIsReached(evs: seq<Event>, store: Option<map<nat, Relation>>)
    requires AllChanges(evs)
    ensures var moves := LossyHistory(evs, |evs|);
            && Valid(Machinery(Rows(evs)), Start(0, store, []), moves)
            && Never(Machinery(Rows(evs)), DisturbsOf(Rows(evs), false), Start(0, store, []), moves)
            && var s := Exec(Machinery(Rows(evs)), Start(0, store, []), moves).s;
               && s.ended == |evs| && s.published == s.dropped == {}
               && |Unprocessed(Wal(Rows(evs)), s, s.sentMax)| == |evs|
  {
    var x := RunRounds(evs, store, |evs|);
    assert Unprocessed(Wal(Rows(evs)), x.s, x.s.sentMax) == UpTo(|evs|);
  }

  // ---------------------------------------------------------------- An answer below the request

  const REQUEST := CopyData(Keepalive(10, true))

  // The engine has published row 0 when a keepalive asks for a reply; Ack puts ClientLSN back to the
  // row before capture answers, and the status that reaches the server is below the keepalive.
  lemma AckLowersTheAnswer(ev: Event, store: Option<map<nat, Relation>>) returns (moves: seq<Move>, y: Relay)
    requires IsChange(ev)
    ensures moves == Delivery([ev], 0) + ([Process([], true), Handled(REQUEST, WORKS)] +
                                          [Internal(AckAssign), Internal(Reply(true))])
    ensures Reaches(Rows([ev]), false, Start(0, store, []), moves, y)
    ensures y.s.sentMax == y.s.lsn.client == 3 < REQUEST.payload.serverWALEnd
  {
    var rows, x := Rows([ev]), Start(0, store, []);
    RunDelivery([ev], false, x, 0);
    var d := Delivered(x, 0);
    var k := AfterRequest(rows, d);
    TwoMoves(rows, false, k, Internal(AckAssign), Internal(Reply(true)));
    y := Moved(rows, Moved(rows, k, Internal(AckAssign)), Internal(Reply(true)));
    AndThen(rows, false, d, [Process([], true), Handled(REQUEST, WORKS)], k,
            [Internal(AckAssign), Internal(Reply(true))], y);
    moves := Delivery([ev], 0) + ([Process([], true), Handled(REQUEST, WORKS)] +
                                  [Internal(AckAssign), Internal(Reply(true))]);
    AndThen(rows, false, x, Delivery([ev], 0), d,
            [Process([], true), Handled(REQUEST, WORKS)] + [Internal(AckAssign), Internal(Reply(true))], y);
  }

  lemma AfterRequest(rows: seq<Row>, d: Relay) returns (k: Relay)
    requires |rows| == 1 && d.s.running && d.s.capture == Receiving && d.s.engine == Working(0) && d.s.next == 1
    requires d.stages == [] && d.s.sentMax == 2 && d.s.lsn == Positions(2, 3) && d.h.client == 2
    ensures Reaches(rows, false, d, [Process([], true), Handled(REQUEST, WORKS)], k)
    ensures k.s.running && k.s.capture == Replying && k.s.engine == AckReady
    ensures k.s.lsn == Positions(10, 3) && k.s.sentMax == 2
  {
    TwoMoves(rows, false, d, Process([], true), Handled(REQUEST, WORKS));
    k := Moved(rows, Moved(rows, d, Process([], true)), Handled(REQUEST, WORKS));
  }
}
