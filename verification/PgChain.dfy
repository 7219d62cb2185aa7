// Which events reach the producers when the Postgres protocol runs with a transform chain, deliveries
// repeat, stages fail and publishes fail (engine/core/engine.go:279-311,
// engine/transform/transform.go:48-66).
module PgChain {
  import opened Prelude
  import opened Events
  import opened Histories
  import opened PgProtocol
  import opened PgDelivery
  import opened PgRelay
  import opened PgSessions
  import opened WalHandler
  import L = Ledger
  import T = Transform

  // ---------------------------------------------------------------- The relay keeps a ledger

  function EventsOf(rows: seq<Row>): (evs: seq<Event>)
    ensures |evs| == |rows| && forall i :: 0 <= i < |rows| ==> evs[i] == rows[i].ev
  {
    seq(|rows|, i requires 0 <= i < |rows| => rows[i].ev)
  }

  function BookOf(x: Relay): L.Book {
    L.Book(x.stages, x.s.published, x.s.dropped)
  }

  function EntryOf(rows: seq<Row>, x: Relay, mv: Move): L.Entry {
    match mv
    case Process(faults, ok) => if Busy(rows, x) then L.Attempt(x.s.engine.i, faults, ok) else L.Other
    case Internal(a) => if a.Restart? then L.Rebuilt else L.Other
    case Handled(_, _) => L.Other
  }

  const BOOK: Relay -> L.Book := (x: Relay) => BookOf(x)

  function EntriesOf(rows: seq<Row>): (Relay, Move) -> L.Entry {
    (x, mv) => EntryOf(rows, x, mv)
  }

  lemma MoveIsEntry(rows: seq<Row>, x: Relay, mv: Move)
    requires Possible(rows, x, mv)
    ensures L.Write(EventsOf(rows), BookOf(x), EntryOf(rows, x, mv)) == BookOf(Moved(rows, x, mv))
  {
  }

  lemma KeepsBooks(rows: seq<Row>)
    ensures Simulates(Machinery(rows), L.Books(EventsOf(rows)), BOOK, EntriesOf(rows))
  {
    forall x, mv | Machinery(rows).enabled(x, mv)
      ensures var m := L.Books(EventsOf(rows));
              && m.enabled(BOOK(x), EntriesOf(rows)(x, mv))
              && m.step(BOOK(x), EntriesOf(rows)(x, mv)) == BOOK(Machinery(rows).step(x, mv))
    {
      MoveIsEntry(rows, x, mv);
    }
  }

  // ---------------------------------------------------------------- Missed and burned

  // A delivery records the id of row i in a deduplication store but does not publish row i: it is
  // another change with this id, or a stage behind the store drops the event or fails, or the save
  // reports an error although it was applied, or a producer refuses the event.
  predicate Misses(rows: seq<Row>, i: nat, x: Relay, mv: Move)
    requires i < |rows|
  {
    && mv.Process? && Busy(rows, x) && rows[x.s.engine.i].ev.id == rows[i].ev.id
    && var (stages', v) := Attempt(rows, x, mv.faults);
       T.Records(x.stages, stages', rows[i].ev.id) && !(x.s.engine.i == i && v.Keep? && mv.ok)
  }

  // A delivery records the id and ends without a successful publish.
  predicate Burns(rows: seq<Row>, id: string, x: Relay, mv: Move) {
    && mv.Process? && Busy(rows, x) && rows[x.s.engine.i].ev.id == id
    && var (stages', v) := Attempt(rows, x, mv.faults);
       T.Records(x.stages, stages', id) && !(v.Keep? && mv.ok)
  }

  function MissesOf(rows: seq<Row>, i: nat): (Relay, Move) -> bool
    requires i < |rows|
  {
    (x, mv) => Misses(rows, i, x, mv)
  }

  function BurnsOf(rows: seq<Row>, id: string): (Relay, Move) -> bool {
    (x, mv) => Burns(rows, id, x, mv)
  }

  ghost function WithId(rows: seq<Row>, id: string): set<nat> {
    set j: nat | j < |rows| && rows[j].ev.id == id
  }

  ghost predicate IdPublished(rows: seq<Row>, s: State, id: string) {
    exists j :: j in s.published && j < |rows| && rows[j].ev.id == id
  }

  ghost predicate DistinctIds(rows: seq<Row>) {
    forall i, j :: 0 <= i < j < |rows| ==> rows[i].ev.id != rows[j].ev.id
  }

  lemma MissIsSpent(rows: seq<Row>, i: nat, x: Relay, mv: Move)
    requires i < |rows|
    ensures Misses(rows, i, x, mv) <==>
            L.Spends(EventsOf(rows), rows[i].ev.id, {i}, BookOf(x), EntryOf(rows, x, mv))
  {
  }

  // The ledger's theorem for a history of the relay and the targets one asks about.
  lemma PublishedTargets(rows: seq<Row>, slot: LSN, store: Option<map<nat, Relation>>,
                         chain: seq<T.Stage>, moves: seq<Move>, i: nat, targets: set<nat>,
                         spends: (Relay, Move) -> bool)
    requires T.SampleFree(chain) && Valid(Machinery(rows), Start(slot, store, chain), moves)
    requires i < |rows| && i in targets && L.HaveId(EventsOf(rows), targets, rows[i].ev.id)
    requires T.Wants(chain, rows[i].ev) && Processed(Exec(Machinery(rows), Start(slot, store, chain), moves).s, i)
    requires forall x, mv :: Possible(rows, x, mv) ==>
               (spends(x, mv) <==>
                L.Spends(EventsOf(rows), rows[i].ev.id, targets, BookOf(x), EntryOf(rows, x, mv)))
    ensures targets * Exec(Machinery(rows), Start(slot, store, chain), moves).s.published != {} <==>
            !T.Seen(chain, rows[i].ev.id) && Never(Machinery(rows), spends, Start(slot, store, chain), moves)
  {
    var m, n, x := Machinery(rows), L.Books(EventsOf(rows)), Start(slot, store, chain);
    KeepsBooks(rows);
    Projects(m, n, BOOK, EntriesOf(rows), x, moves);
    var entries := Projected(m, EntriesOf(rows), x, moves);
    NeverProjected(m, n, BOOK, EntriesOf(rows), L.SpendsOf(EventsOf(rows), rows[i].ev.id, targets), spends, x, moves);
    L.PublishedExactly(EventsOf(rows), chain, targets, entries, i);
  }

  // In every history, whatever the schedule, the faults and the restarts: an event that the chain
  // wants and that was processed was published exactly if its id was new to the stores and no
  // delivery recorded the id without publishing this event.
  lemma PublishedExactlyWhenNeverMissed(rows: seq<Row>, slot: LSN, store: Option<map<nat, Relation>>,
                                        chain: seq<T.Stage>, moves: seq<Move>, i: nat)
    requires T.SampleFree(chain)
    requires Valid(Machinery(rows), Start(slot, store, chain), moves)
    requires i < |rows| && T.Wants(chain, rows[i].ev)
    requires Processed(Exec(Machinery(rows), Start(slot, store, chain), moves).s, i)
    ensures i in Exec(Machinery(rows), Start(slot, store, chain), moves).s.published <==>
            !T.Seen(chain, rows[i].ev.id) &&
            Never(Machinery(rows), MissesOf(rows, i), Start(slot, store, chain), moves)
  {
    forall x, mv | Possible(rows, x, mv)
      ensures MissesOf(rows, i)(x, mv) <==>
              L.Spends(EventsOf(rows), rows[i].ev.id, {i}, BookOf(x), EntryOf(rows, x, mv))
    {
      MissIsSpent(rows, i, x, mv);
    }
    PublishedTargets(rows, slot, store, chain, moves, i, {i}, MissesOf(rows, i));
    var s := Exec(Machinery(rows), Start(slot, store, chain), moves).s;
    assert i in s.published <==> i in {i} * s.published;
  }

  // The same for the id: some change with it was published exactly if no delivery burned the id.
  lemma IdPublishedExactlyWhenNeverBurned(rows: seq<Row>, slot: LSN, store: Option<map<nat, Relation>>,
                                          chain: seq<T.Stage>, moves: seq<Move>, i: nat)
    requires T.SampleFree(chain)
    requires Valid(Machinery(rows), Start(slot, store, chain), moves)
    requires i < |rows| && T.Wants(chain, rows[i].ev)
    requires Processed(Exec(Machinery(rows), Start(slot, store, chain), moves).s, i)
    ensures IdPublished(rows, Exec(Machinery(rows), Start(slot, store, chain), moves).s, rows[i].ev.id) <==>
            !T.Seen(chain, rows[i].ev.id) &&
            Never(Machinery(rows), BurnsOf(rows, rows[i].ev.id), Start(slot, store, chain), moves)
  {
    var id, s := rows[i].ev.id, Exec(Machinery(rows), Start(slot, store, chain), moves).s;
    PublishedTargets(rows, slot, store, chain, moves, i, WithId(rows, id), BurnsOf(rows, id));
    assert forall j :: j in WithId(rows, id) * s.published <==> j in s.published && j < |rows| && rows[j].ev.id == id;
  }

  // If every change in the log has an id of its own, burning it is the only way to miss the event.
  lemma WithDistinctIds(rows: seq<Row>, slot: LSN, store: Option<map<nat, Relation>>,
                        chain: seq<T.Stage>, moves: seq<Move>, i: nat)
    requires T.SampleFree(chain) && DistinctIds(rows)
    requires Valid(Machinery(rows), Start(slot, store, chain), moves)
    requires i < |rows| && T.Wants(chain, rows[i].ev)
    requires Processed(Exec(Machinery(rows), Start(slot, store, chain), moves).s, i)
    ensures i in Exec(Machinery(rows), Start(slot, store, chain), moves).s.published <==>
            !T.Seen(chain, rows[i].ev.id) &&
            Never(Machinery(rows), BurnsOf(rows, rows[i].ev.id), Start(slot, store, chain), moves)
  {
    IdPublishedExactlyWhenNeverBurned(rows, slot, store, chain, moves, i);
    assert forall j: nat :: j < |rows| && rows[j].ev.id == rows[i].ev.id ==> j == i;
    var s := Exec(Machinery(rows), Start(slot, store, chain), moves).s;
    assert i in s.published ==> IdPublished(rows, s, rows[i].ev.id);
  }

  // ---------------------------------------------------------------- Below a resume point

  lemma BelowIsProcessed(rows: seq<Row>, slot: LSN, x: Relay, moves: seq<Move>, resume: LSN, i: nat)
    requires StreamOrdered(Wal(rows), slot) && x.s == Initial(slot) && Valid(Machinery(rows), x, moves)
    requires Never(Machinery(rows), Reads(rows, PrematureOf(Wal(rows))), x, moves)
    requires resume <= Exec(Machinery(rows), x, moves).s.sentMax
    requires i < Reach(Wal(rows), resume) && Deliverable(Wal(rows), i)
    ensures Processed(Exec(Machinery(rows), x, moves).s, i)
  {
    FollowsProtocol(rows, x, moves);
    NeverInProtocol(rows, PrematureOf(Wal(rows)), x, moves);
    AtLeastOnce(Wal(rows), slot, Steps(rows, x, moves));
  }

  lemma LockstepIsNeverPremature(rows: seq<Row>, slot: LSN, x: Relay, moves: seq<Move>)
    requires x.s == Initial(slot) && Valid(Machinery(rows), x, moves)
    requires Never(Machinery(rows), Reads(rows, Overlaps), x, moves)
    ensures Never(Machinery(rows), Reads(rows, PrematureOf(Wal(rows))), x, moves)
  {
    FollowsProtocol(rows, x, moves);
    NeverInProtocol(rows, Overlaps, x, moves);
    NeverInProtocol(rows, PrematureOf(Wal(rows)), x, moves);
    LockstepNeverPremature(Wal(rows), Initial(slot), Steps(rows, x, moves));
  }

  // Under lockstep, over any number of failed runs and restarts: an event that the chain wants, and
  // that a server resuming at any confirmed position does not send again, was published exactly if
  // its id was new to the stores and no delivery recorded the id without publishing this event.
  lemma AtLeastOnceExactlyWhenNeverMissed(rows: seq<Row>, slot: LSN, store: Option<map<nat, Relation>>,
                                          chain: seq<T.Stage>, moves: seq<Move>, resume: LSN, i: nat)
    requires StreamOrdered(Wal(rows), slot) && T.SampleFree(chain)
    requires Valid(Machinery(rows), Start(slot, store, chain), moves)
    requires Never(Machinery(rows), Reads(rows, Overlaps), Start(slot, store, chain), moves)
    requires resume <= Exec(Machinery(rows), Start(slot, store, chain), moves).s.sentMax
    requires i < Reach(Wal(rows), resume) && Deliverable(Wal(rows), i) && T.Wants(chain, rows[i].ev)
    ensures i in Exec(Machinery(rows), Start(slot, store, chain), moves).s.published <==>
            !T.Seen(chain, rows[i].ev.id) &&
            Never(Machinery(rows), MissesOf(rows, i), Start(slot, store, chain), moves)
    ensures DistinctIds(rows) ==>
              (i in Exec(Machinery(rows), Start(slot, store, chain), moves).s.published <==>
               !T.Seen(chain, rows[i].ev.id) &&
               Never(Machinery(rows), BurnsOf(rows, rows[i].ev.id), Start(slot, store, chain), moves))
  {
    LockstepIsNeverPremature(rows, slot, Start(slot, store, chain), moves);
    BelowIsProcessed(rows, slot, Start(slot, store, chain), moves, resume, i);
    PublishedExactlyWhenNeverMissed(rows, slot, store, chain, moves, i);
    if DistinctIds(rows) {
      WithDistinctIds(rows, slot, store, chain, moves, i);
    }
  }

  // What the producers get is always wanted, whatever the schedule.
  lemma OnlyWantedIsPublished(rows: seq<Row>, slot: LSN, store: Option<map<nat, Relation>>,
                              chain: seq<T.Stage>, moves: seq<Move>, i: nat)
    requires T.SampleFree(chain)
    requires Valid(Machinery(rows), Start(slot, store, chain), moves)
    requires i in Exec(Machinery(rows), Start(slot, store, chain), moves).s.published
    ensures i < |rows| && T.Wants(chain, rows[i].ev)
  {
    var x := Start(slot, store, chain);
    KeepsBooks(rows);
    Projects(Machinery(rows), L.Books(EventsOf(rows)), BOOK, EntriesOf(rows), x, moves);
    L.OnlyWanted(EventsOf(rows), chain, Projected(Machinery(rows), EntriesOf(rows), x, moves), i);
  }

  // A move publishes a row as something else than the row's own id, source, operation, type and
  // payload, or with headers that neither the row nor the chain accounts for.
  ghost predicate Alters(rows: seq<Row>, chain: seq<T.Stage>, x: Relay, mv: Move) {
    && mv.Process? && Busy(rows, x) && ActionOf(rows, x, mv) == Publish
    && var ev, given := rows[x.s.engine.i].ev, Attempt(rows, x, mv.faults).1.ev;
       !(given.(headers := ev.headers) == ev && forall key: string ::
           var w := T.LastWritten(chain, ev, key);
           T.HeaderOf(given, key) == if w.Some? then w else T.HeaderOf(ev, key))
  }

  ghost function AltersOf(rows: seq<Row>, chain: seq<T.Stage>): (Relay, Move) -> bool {
    (x, mv) => Alters(rows, chain, x, mv)
  }

  lemma {:induction false} SameWritten(a: seq<T.Stage>, b: seq<T.Stage>, ev: Event, key: string)
    requires |a| == |b|
    requires forall d :: 0 <= d < |a| ==> T.Writes(a[d], ev, key) == T.Writes(b[d], ev, key)
    ensures T.LastWritten(a, ev, key) == T.LastWritten(b, ev, key)
  {
    if a != [] {
      SameWritten(a[1..], b[1..], ev, key);
    }
  }

  // Stages keep their kind and settings over any history; only stores and counters change.
  predicate SameSettings(a: seq<T.Stage>, b: seq<T.Stage>) {
    && |a| == |b|
    && forall d :: 0 <= d < |a| ==>
         a[d] == b[d] || (a[d].Deduplicate? && b[d].Deduplicate?) || (a[d].SampleRate? && b[d].SampleRate?)
  }

  lemma {:induction false} SettingsKept(stages: seq<T.Stage>, ev: Event, faults: seq<T.Fault>)
    ensures SameSettings(stages, T.RunChain(stages, ev, faults).0)
  {
    if stages != [] {
      var v := T.Apply(stages[0], ev, T.Head(faults)).1;
      if v.Keep? {
        SettingsKept(stages[1..], v.ev, T.Skip(faults, 1));
      }
    }
  }

  lemma NeverAlteredStep(rows: seq<Row>, chain: seq<T.Stage>, x: Relay, mv: Move)
    requires SameSettings(chain, x.stages) && Possible(rows, x, mv)
    ensures SameSettings(chain, Moved(rows, x, mv).stages) && !Alters(rows, chain, x, mv)
  {
    if mv.Process? {
      var ev := rows[x.s.engine.i].ev;
      SettingsKept(x.stages, ev, mv.faults);
      T.KeepsContent(x.stages, ev, mv.faults);
      forall key: string
        ensures var v := T.RunChain(x.stages, ev, mv.faults).1;
                v.Keep? ==> T.HeaderOf(v.ev, key) ==
                            (var w := T.LastWritten(chain, ev, key); if w.Some? then w else T.HeaderOf(ev, key))
      {
        T.HeadersExact(x.stages, ev, mv.faults, key);
        SameWritten(chain, x.stages, ev, key);
      }
    }
  }

  // In every history, whatever the chain: what the producers take of a row, at any delivery, is the
  // row's own event, with the headers that the chain's last writing stages give it.
  lemma ProducersTakeTheRow(rows: seq<Row>, slot: LSN, store: Option<map<nat, Relation>>, chain: seq<T.Stage>,
                            moves: seq<Move>)
    requires Valid(Machinery(rows), Start(slot, store, chain), moves)
    ensures Never(Machinery(rows), AltersOf(rows, chain), Start(slot, store, chain), moves)
  {
    var m, same, bad := Machinery(rows), (x: Relay) => SameSettings(chain, x.stages), AltersOf(rows, chain);
    forall x, mv | same(x) && m.enabled(x, mv) ensures same(m.step(x, mv)) && !bad(x, mv) {
      NeverAlteredStep(rows, chain, x, mv);
    }
    NeverFrom(m, same, bad, Start(slot, store, chain), moves);
  }

  // ---------------------------------------------------------------- Chains without memory

  ghost function Wanted(rows: seq<Row>, chain: seq<T.Stage>): set<nat> {
    set i: nat | i < |rows| && T.Wants(chain, rows[i].ev)
  }

  // Filters, headers, routing and rate limits decide alike on redelivery: in any history their
  // chain never drops what it wants nor keeps anything else.
  lemma NeverMisdecides(rows: seq<Row>, chain: seq<T.Stage>, x: Relay, moves: seq<Move>)
    requires T.SampleFree(chain) && T.DedupFree(chain) && x.stages == chain
    requires Valid(Machinery(rows), x, moves) && Never(Machinery(rows), Reads(rows, Overlaps), x, moves)
    ensures Never(Machinery(rows), Reads(rows, MisdecidesOf(Wanted(rows, chain))), x, moves)
  {
    var m, same := Machinery(rows), (y: Relay) => y.stages == chain;
    var wrong := Reads(rows, MisdecidesOf(Wanted(rows, chain)));
    forall y, mv | same(y) && m.enabled(y, mv) ensures same(m.step(y, mv)) && !wrong(y, mv) {
      if mv.Process? {
        T.DecidesAlike(chain, rows[y.s.engine.i].ev, mv.faults);
      } else {
        assert T.Rebuild(chain) == chain;
      }
    }
    Discipline(m, same, Reads(rows, Overlaps), wrong, x, moves);
  }

  // Under lockstep such a chain meets the promise outright: every wanted event that is not sent
  // again was itself published by all producers.
  lemma WantedEventsArePublished(rows: seq<Row>, slot: LSN, store: Option<map<nat, Relation>>,
                                 chain: seq<T.Stage>, moves: seq<Move>, resume: LSN)
    requires StreamOrdered(Wal(rows), slot) && T.SampleFree(chain) && T.DedupFree(chain)
    requires Valid(Machinery(rows), Start(slot, store, chain), moves)
    requires Never(Machinery(rows), Reads(rows, Overlaps), Start(slot, store, chain), moves)
    requires resume <= Exec(Machinery(rows), Start(slot, store, chain), moves).s.sentMax
    ensures forall i: nat :: i < Reach(Wal(rows), resume) && Deliverable(Wal(rows), i) && T.Wants(chain, rows[i].ev) ==>
              i in Exec(Machinery(rows), Start(slot, store, chain), moves).s.published
  {
    var x, wanted := Start(slot, store, chain), Wanted(rows, chain);
    FollowsProtocol(rows, x, moves);
    NeverInProtocol(rows, Overlaps, x, moves);
    NeverMisdecides(rows, chain, x, moves);
    NeverInProtocol(rows, MisdecidesOf(wanted), x, moves);
    KeptEventsArePublished(Wal(rows), slot, Steps(rows, x, moves), wanted, resume);
  }

  // ---------------------------------------------------------------- Two changes with one id

  // In one session: row i is processed without faults and acknowledged, before its commit.
  const FINISHED := [Process([], true)] + [Internal(AckAssign), Internal(AckSend(true, true))]

  function Acked(x: Relay): Relay {
    Relay(x.s.(engine := Idle, lsn := Positions(x.s.lsn.pending, x.s.lsn.pending),
               sentMax := Max(x.s.sentMax, x.s.lsn.pending)),
          x.h.(client := x.h.pending), x.stages)
  }

  lemma RunAck(rows: seq<Row>, x: Relay)
    requires x.s.running && x.s.engine == AckReady
    ensures Reaches(rows, true, x, [Internal(AckAssign), Internal(AckSend(true, true))], Acked(x))
  {
    TwoMoves(rows, true, x, Internal(AckAssign), Internal(AckSend(true, true)));
  }

  // A wanted event, new to the stores, is published; one the stores have seen is dropped.
  lemma RunFinished(rows: seq<Row>, x: Relay) returns (stages': seq<T.Stage>)
    requires x.s.running && Busy(rows, x) && T.SampleFree(x.stages)
    requires T.Wants(x.stages, rows[x.s.engine.i].ev)
    ensures var i, first := x.s.engine.i, !T.Seen(x.stages, rows[x.s.engine.i].ev.id);
            && Reaches(rows, true, x, FINISHED,
                       Acked(Relay(x.s.(published := if first then x.s.published + {i} else x.s.published,
                                        dropped := if first then x.s.dropped else x.s.dropped + {i}), x.h, stages')))
            && T.SampleFree(stages') && L.SameChain(x.stages, stages')
            && (first ==> T.SeenByAll(stages', rows[i].ev.id))
  {
    var ev := rows[x.s.engine.i].ev;
    T.ChainGrows(x.stages, ev, []);
    T.KeepsOnlyWanted(x.stages, ev, []);
    T.DropsForAReason(x.stages, ev, []);
    stages' := T.RunChain(x.stages, ev, []).0;
    L.SameThrough(x.stages, x.stages, stages');
    OneMove(rows, true, x, Process([], true));
    var p := Moved(rows, x, Process([], true));
    RunAck(rows, p);
    AndThen(rows, true, x, [Process([], true)], p, [Internal(AckAssign), Internal(AckSend(true, true))], Acked(p));
  }

  function SecondChange(evs: seq<Event>): seq<Move>
    requires |evs| == 2
  {
    (Delivery(evs, 0) + FINISHED) + (NEXT_TRANSACTION + (HandingOver(evs, 1) + FINISHED))
  }

  const NEXT_TRANSACTION := WithReply(Message(3, CommitMessage)) + WithReply(Message(4, BeginMessage))

  lemma RunFirst(evs: seq<Event>, x: Relay) returns (y: Relay)
    requires |evs| == 2 && AllChanges(evs) && Waiting(x, 0) && T.SampleFree(x.stages)
    requires T.Wants(x.stages, evs[0]) && !T.Seen(x.stages, evs[0].id)
    ensures Reaches(Rows(evs), true, x, Delivery(evs, 0) + FINISHED, y)
    ensures Acknowledged(y) && y.s.published == x.s.published + {0} && y.s.ended == x.s.ended
    ensures T.SampleFree(y.stages) && L.SameChain(x.stages, y.stages) && T.SeenByAll(y.stages, evs[0].id)
  {
    RunDelivery(evs, true, x, 0);
    var d := Delivered(x, 0);
    var stages' := RunFinished(Rows(evs), d);
    y := Acked(Relay(d.s.(published := x.s.published + {0}), d.h, stages'));
    AndThen(Rows(evs), true, x, Delivery(evs, 0), d, FINISHED, y);
  }

  // Row 0 is acknowledged, and its commit comes next.
  predicate Acknowledged(y: Relay) {
    && y.s.running && y.s.capture == Receiving && y.s.engine == Idle && y.s.next == 1 && y.s.high == 3
    && y.s.lsn.client == 3 && y.s.sentMax == 3 && OUTBOX.id in y.h.relations && y.h.relations[OUTBOX.id] == OUTBOX
  }

  lemma RunBetween(evs: seq<Event>, y: Relay) returns (z: Relay)
    requires |evs| == 2 && Acknowledged(y)
    ensures Reaches(Rows(evs), true, y, NEXT_TRANSACTION, z)
    ensures Ready(z, 1) && z.stages == y.stages && z.s.published == y.s.published && z.s.ended == y.s.ended
  {
    var commit, begin := Message(3, CommitMessage), Message(4, BeginMessage);
    assert Wal(Rows(evs))[1].pos == 7;
    HandleAndReply(Rows(evs), true, y, commit);
    var c := Answered(y, commit);
    HandleAndReply(Rows(evs), true, c, begin);
    z := Answered(c, begin);
    AndThen(Rows(evs), true, y, WithReply(commit), c, WithReply(begin), z);
  }

  lemma RunSecond(evs: seq<Event>, z: Relay) returns (end: Relay)
    requires |evs| == 2 && AllChanges(evs) && Ready(z, 1) && T.SampleFree(z.stages)
    requires T.Wants(z.stages, evs[1]) && T.Seen(z.stages, evs[1].id)
    ensures Reaches(Rows(evs), true, z, HandingOver(evs, 1) + FINISHED, end)
    ensures end.s.published == z.s.published && end.s.sentMax >= 7 && end.s.ended == z.s.ended
  {
    RunHandingOver(evs, true, z, 1);
    var h := HandedOver(z, 1);
    var stages' := RunFinished(Rows(evs), h);
    end := Acked(Relay(h.s.(dropped := h.s.dropped + {1}), h.h, stages'));
    AndThen(Rows(evs), true, z, HandingOver(evs, 1), h, FINISHED, end);
  }

  lemma RunBoth(evs: seq<Event>, x: Relay) returns (end: Relay)
    requires |evs| == 2 && AllChanges(evs) && evs[0].id == evs[1].id && Waiting(x, 0)
    requires T.SampleFree(x.stages) && !T.DedupFree(x.stages) && !T.Seen(x.stages, evs[0].id)
    requires T.Wants(x.stages, evs[0]) && T.Wants(x.stages, evs[1])
    ensures Reaches(Rows(evs), true, x, SecondChange(evs), end)
    ensures end.s.published == x.s.published + {0} && end.s.sentMax >= 7 && end.s.ended == x.s.ended
  {
    var y := RunFirst(evs, x);
    var z := RunBetween(evs, y);
    L.SameWants(x.stages, y.stages, evs[1]);
    StillDedup(x.stages, y.stages, evs[0].id);
    end := RunSecond(evs, z);
    AndThen(Rows(evs), true, y, NEXT_TRANSACTION, z, HandingOver(evs, 1) + FINISHED, end);
    AndThen(Rows(evs), true, x, Delivery(evs, 0) + FINISHED, y,
            NEXT_TRANSACTION + (HandingOver(evs, 1) + FINISHED), end);
  }

  // An ordinary run loses changes behind Deduplicate, because it knows events by their ids only and
  // every change of an outbox row carries the row's id: of two wanted changes with one id, the
  // second is dropped and confirmed. The schedule is lockstep, every message is accepted, nothing
  // fails, no run ends, and the id is not burned.
  lemma SecondChangeIsLost(a: Event, b: Event, store: Option<map<nat, Relation>>, chain: seq<T.Stage>)
    requires IsChange(a) && IsChange(b) && a.id == b.id
    requires T.SampleFree(chain) && !T.DedupFree(chain) && !T.Seen(chain, a.id)
    requires T.Wants(chain, a) && T.Wants(chain, b)
    ensures var rows, x, moves := Rows([a, b]), Start(0, store, chain), SecondChange([a, b]);
            && Valid(Machinery(rows), x, moves) && Never(Machinery(rows), DisturbsOf(rows, true), x, moves)
            && Never(Machinery(rows), BurnsOf(rows, b.id), x, moves)
            && var s := Exec(Machinery(rows), x, moves).s;
               s.published == {0} && s.ended == 0 && Deliverable(Wal(rows), 1) && Wal(rows)[1].pos <= s.sentMax
  {
    var rows := Rows([a, b]);
    var end := RunBoth([a, b], Start(0, store, chain));
    assert rows[0].ev == a && 0 in end.s.published && rows[1].pos == 7;
    IdPublishedExactlyWhenNeverBurned(rows, 0, store, chain, SecondChange([a, b]), 0);
  }

  lemma StillDedup(a: seq<T.Stage>, b: seq<T.Stage>, id: string)
    requires L.SameChain(a, b) && !T.DedupFree(a) && T.SeenByAll(b, id)
    ensures T.Seen(b, id)
  {
    var d :| 0 <= d < |a| && a[d].Deduplicate?;
    assert b[d].Deduplicate? && id in b[d].seen;
  }

  // ---------------------------------------------------------------- Every burn is a loss

  // Whether one attempt with this chain burns the event.
  predicate BurnsAtOnce(chain: seq<T.Stage>, ev: Event, faults: seq<T.Fault>, ok: bool) {
    var (after, v) := T.RunChain(chain, ev, faults);
    T.Records(chain, after, ev.id) && !(v.Keep? && ok)
  }

  // The row is delivered and the attempt fails; the run ends; the row is delivered again, nothing
  // goes wrong, and the engine acknowledges.
  function Attempted(ev: Event, faults: seq<T.Fault>, ok: bool): seq<Move> {
    Delivery([ev], 0) + [Process(faults, ok), Internal(EndRun)]
  }

  function Redelivered(ev: Event): seq<Move> {
    Delivery([ev], 0) + FINISHED
  }

  lemma RunAttempt(ev: Event, x: Relay, faults: seq<T.Fault>, ok: bool) returns (y: Relay)
    requires IsChange(ev) && Waiting(x, 0) && T.SampleFree(x.stages) && !T.Seen(x.stages, ev.id)
    requires T.Wants(x.stages, ev) && BurnsAtOnce(x.stages, ev, faults, ok)
    ensures Reaches(Rows([ev]), true, x, Attempted(ev, faults, ok), y) && Waiting(y, 0)
    ensures T.Seen(y.stages, ev.id) && T.SampleFree(y.stages) && T.Wants(y.stages, ev)
    ensures y.s.published == x.s.published
  {
    var rows, d := Rows([ev]), Delivered(x, 0);
    RunDelivery([ev], true, x, 0);
    T.ChainGrows(x.stages, ev, faults);
    T.DropsForAReason(x.stages, ev, faults);
    L.SameWants(x.stages, T.RunChain(x.stages, ev, faults).0, ev);
    assert ActionOf(rows, d, Process(faults, ok)) == ProcessFails;
    TwoMoves(rows, true, d, Process(faults, ok), Internal(EndRun));
    y := Moved(rows, Moved(rows, d, Process(faults, ok)), Internal(EndRun));
    AndThen(rows, true, x, Delivery([ev], 0), d, [Process(faults, ok), Internal(EndRun)], y);
  }

  lemma RunRedelivery(ev: Event, x: Relay) returns (y: Relay)
    requires IsChange(ev) && Waiting(x, 0) && T.SampleFree(x.stages) && T.Wants(x.stages, ev) && T.Seen(x.stages, ev.id)
    ensures Reaches(Rows([ev]), true, x, Redelivered(ev), y)
    ensures y.s.published == x.s.published && y.s.sentMax >= 3
  {
    var d := Delivered(x, 0);
    RunDelivery([ev], true, x, 0);
    var stages' := RunFinished(Rows([ev]), d);
    y := Acked(Relay(d.s.(dropped := d.s.dropped + {0}), d.h, stages'));
    AndThen(Rows([ev]), true, x, Delivery([ev], 0), d, FINISHED, y);
  }

  // Whatever the chain, the event and the way the first attempt burns its id: the event can come
  // again under lockstep, with every message accepted and nothing else going wrong, and is confirmed
  // to the server although no producer ever took it.
  lemma EveryBurnLoses(ev: Event, store: Option<map<nat, Relation>>, chain: seq<T.Stage>,
                       faults: seq<T.Fault>, ok: bool)
    requires IsChange(ev) && T.SampleFree(chain) && !T.Seen(chain, ev.id)
    requires T.Wants(chain, ev) && BurnsAtOnce(chain, ev, faults, ok)
    ensures var m, moves := Machinery(Rows([ev])), Attempted(ev, faults, ok) + Redelivered(ev);
            && Valid(m, Start(0, store, chain), moves)
            && Never(m, DisturbsOf(Rows([ev]), true), Start(0, store, chain), moves)
            && Never(m, Reads(Rows([ev]), Overlaps), Start(0, store, chain), moves)
            && var s := Exec(m, Start(0, store, chain), moves).s;
               s.published == {} && Deliverable(Wal(Rows([ev])), 0) && Wal(Rows([ev]))[0].pos <= s.sentMax
  {
    var x := Start(0, store, chain);
    var y := RunAttempt(ev, x, faults, ok);
    var z := RunRedelivery(ev, y);
    AndThen(Rows([ev]), true, x, Attempted(ev, faults, ok), y, Redelivered(ev), z);
    NeverLess(Machinery(Rows([ev])), DisturbsOf(Rows([ev]), true), Reads(Rows([ev]), Overlaps), x,
              Attempted(ev, faults, ok) + Redelivered(ev));
  }

  // Three ways to burn with a working Deduplicate in front: the publish fails, a stage behind it is
  // cancelled, or its own save reports an error after it was applied.
  lemma WaysToBurn(ev: Event)
    ensures BurnsAtOnce([T.Deduplicate({})], ev, [], false)
    ensures BurnsAtOnce([T.Deduplicate({}), T.RateLimit], ev, [T.NoFault, T.Cancelled], true)
    ensures BurnsAtOnce([T.Deduplicate({})], ev, [T.SaveFails(true)], true)
  {
    var dedup := T.Deduplicate({});
    assert [dedup, T.RateLimit][1..] == [T.RateLimit] && [dedup][1..] == [];
    assert [T.NoFault, T.Cancelled][1..] == [T.Cancelled];
    T.RecordsExactly([], {}, [], ev, []);
    T.RecordsExactly([], {}, [T.RateLimit], ev, [T.NoFault, T.Cancelled]);
    T.RecordsExactly([], {}, [], ev, [T.SaveFails(true)]);
    assert [] + [dedup] + [] == [dedup] && [] + [dedup] + [T.RateLimit] == [dedup, T.RateLimit];
    assert T.RunChain([T.RateLimit], ev, [T.Cancelled]).1.Fail?;
  }
}
