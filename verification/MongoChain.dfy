// The Mongo relay with its transform chain: which change events reach the producers
// (source/mongo/source/eventsManager.go, engine/core/engine.go:279-311).
module MongoChain {
  import opened Prelude
  import opened Events
  import opened Histories
  import opened MongoProtocol
  import L = Ledger
  import T = Transform

  // A change event, and whether it decodes.
  datatype Change = Change(ev: Event, decodes: bool)

  function LogOf(changes: seq<Change>): (log: Log)
    ensures |log| == |changes| && forall i :: 0 <= i < |changes| ==> log[i] == changes[i].decodes
  {
    seq(|changes|, i requires 0 <= i < |changes| => changes[i].decodes)
  }

  function EventsOf(changes: seq<Change>): (evs: seq<Event>)
    ensures |evs| == |changes| && forall i :: 0 <= i < |changes| ==> evs[i] == changes[i].ev
  {
    seq(|changes|, i requires 0 <= i < |changes| => changes[i].ev)
  }

  datatype Relay = Relay(s: State, book: L.Book)

  function Fresh(chain: seq<T.Stage>): Relay {
    Relay(INITIAL, L.Book(chain, {}, {}))
  }

  // Decide: the chain runs on the event the engine holds and, if it keeps the event, all producers
  // take it (ok) or not.
  datatype Move = Internal(act: Action) | Decide(faults: seq<T.Fault>, ok: bool)

  predicate Busy(changes: seq<Change>, x: Relay) {
    x.s.engine.Working? && x.s.engine.i < |changes|
  }

  function ActionOf(changes: seq<Change>, x: Relay, mv: Move): Action {
    match mv
    case Internal(a) => a
    case Decide(faults, ok) =>
      if !Busy(changes, x) then ProcessFails
      else
        match T.RunChain(x.book.stages, changes[x.s.engine.i].ev, faults).1
        case Keep(_) => if ok then Process else ProcessFails
        case Drop => Process
        case Fail => ProcessFails
  }

  function EntryOf(changes: seq<Change>, x: Relay, mv: Move): L.Entry {
    match mv
    case Decide(faults, ok) => if Busy(changes, x) then L.Attempt(x.s.engine.i, faults, ok) else L.Other
    case Internal(a) => if a.Restart? then L.Rebuilt else L.Other
  }

  predicate Possible(changes: seq<Change>, x: Relay, mv: Move) {
    && Enabled(LogOf(changes), x.s, ActionOf(changes, x, mv))
    && match mv
       case Internal(a) => !a.Process? && !a.ProcessFails?
       case Decide(_, _) => Busy(changes, x)
  }

  ghost function Moved(changes: seq<Change>, x: Relay, mv: Move): Relay
    requires Possible(changes, x, mv)
  {
    Relay(Step(LogOf(changes), x.s, ActionOf(changes, x, mv)),
          L.Write(EventsOf(changes), x.book, EntryOf(changes, x, mv)))
  }

  ghost function Machinery(changes: seq<Change>): Machine<Relay, Move> {
    Machine((x: Relay, mv: Move) => Possible(changes, x, mv),
            (x: Relay, mv: Move) => if Possible(changes, x, mv) then Moved(changes, x, mv) else x)
  }

  const STATE: Relay -> State := (x: Relay) => x.s
  const BOOK: Relay -> L.Book := (x: Relay) => x.book

  function ActionsOf(changes: seq<Change>): (Relay, Move) -> Action {
    (x, mv) => ActionOf(changes, x, mv)
  }

  function EntriesOf(changes: seq<Change>): (Relay, Move) -> L.Entry {
    (x, mv) => EntryOf(changes, x, mv)
  }

  // Every history is one of the protocol, and keeps a ledger.
  lemma FollowsProtocol(changes: seq<Change>, x: Relay, moves: seq<Move>)
    requires Valid(Machinery(changes), x, moves)
    ensures Leads(System(LogOf(changes)), x.s, Projected(Machinery(changes), ActionsOf(changes), x, moves),
                  Exec(Machinery(changes), x, moves).s)
    ensures Leads(L.Books(EventsOf(changes)), x.book, Projected(Machinery(changes), EntriesOf(changes), x, moves),
                  Exec(Machinery(changes), x, moves).book)
  {
    Projects(Machinery(changes), System(LogOf(changes)), STATE, ActionsOf(changes), x, moves);
    Projects(Machinery(changes), L.Books(EventsOf(changes)), BOOK, EntriesOf(changes), x, moves);
  }

  // What the protocol calls processed is what was published or dropped.
  predicate Agrees(x: Relay) {
    x.s.processed == x.book.published + x.book.dropped
  }

  lemma BookIsComplete(changes: seq<Change>, chain: seq<T.Stage>, moves: seq<Move>)
    requires Valid(Machinery(changes), Fresh(chain), moves)
    ensures Agrees(Exec(Machinery(changes), Fresh(chain), moves))
  {
    forall x, mv | Agrees(x) && Possible(changes, x, mv) ensures Agrees(Machinery(changes).step(x, mv)) {
      var y := Moved(changes, x, mv);
      assert y.s.processed == y.book.published + y.book.dropped;
    }
    Invariant(Machinery(changes), Agrees, Fresh(chain), moves);
  }

  // A delivery records the id of change i in a deduplication store but does not publish change i.
  predicate Misses(changes: seq<Change>, i: nat, x: Relay, mv: Move)
    requires i < |changes|
  {
    && mv.Decide? && Busy(changes, x) && changes[x.s.engine.i].ev.id == changes[i].ev.id
    && var (stages', v) := T.RunChain(x.book.stages, changes[x.s.engine.i].ev, mv.faults);
       T.Records(x.book.stages, stages', changes[i].ev.id) && !(x.s.engine.i == i && v.Keep? && mv.ok)
  }

  function MissesOf(changes: seq<Change>, i: nat): (Relay, Move) -> bool
    requires i < |changes|
  {
    (x, mv) => Misses(changes, i, x, mv)
  }

  function Reads(changes: seq<Change>, bad: (State, Action) -> bool): (Relay, Move) -> bool {
    (x: Relay, mv: Move) => bad(x.s, ActionOf(changes, x, mv))
  }

  lemma MissIsSpent(changes: seq<Change>, i: nat, x: Relay, mv: Move)
    requires i < |changes|
    ensures Misses(changes, i, x, mv) <==>
            L.Spends(EventsOf(changes), changes[i].ev.id, {i}, x.book, EntryOf(changes, x, mv))
  {
  }

  lemma MissesInLedger(changes: seq<Change>, i: nat, x: Relay, moves: seq<Move>)
    requires i < |changes| && Valid(Machinery(changes), x, moves)
    ensures Never(L.Books(EventsOf(changes)), L.SpendsOf(EventsOf(changes), changes[i].ev.id, {i}), x.book,
                  Projected(Machinery(changes), EntriesOf(changes), x, moves))
            <==> Never(Machinery(changes), MissesOf(changes, i), x, moves)
  {
    var m, n := Machinery(changes), L.Books(EventsOf(changes));
    var spends := L.SpendsOf(EventsOf(changes), changes[i].ev.id, {i});
    forall t, mv | m.enabled(t, mv)
      ensures MissesOf(changes, i)(t, mv) <==> spends(BOOK(t), EntriesOf(changes)(t, mv))
    {
      MissIsSpent(changes, i, t, mv);
    }
    NeverProjected(m, n, BOOK, EntriesOf(changes), spends, MissesOf(changes, i), x, moves);
  }

  // In every history: a change event that the chain wants and that was processed was published
  // exactly if its id was new to the stores and no delivery recorded the id without publishing it.
  lemma PublishedExactlyWhenNeverMissed(changes: seq<Change>, chain: seq<T.Stage>, moves: seq<Move>, i: nat)
    requires T.SampleFree(chain) && Valid(Machinery(changes), Fresh(chain), moves)
    requires i < |changes| && T.Wants(chain, changes[i].ev)
    requires i in Exec(Machinery(changes), Fresh(chain), moves).s.processed
    ensures i in Exec(Machinery(changes), Fresh(chain), moves).book.published <==>
            !T.Seen(chain, changes[i].ev.id) && Never(Machinery(changes), MissesOf(changes, i), Fresh(chain), moves)
  {
    var x, b := Fresh(chain), Exec(Machinery(changes), Fresh(chain), moves).book;
    FollowsProtocol(changes, x, moves);
    BookIsComplete(changes, chain, moves);
    MissesInLedger(changes, i, x, moves);
    L.PublishedExactly(EventsOf(changes), chain, {i}, Projected(Machinery(changes), EntriesOf(changes), x, moves), i);
    assert i in b.published <==> i in {i} * b.published;
  }

  // Under lockstep, and if no stream is opened past an unprocessed event, over any number of crashes
  // and failed saves: an event that the chain wants, written since the first opening, that no later
  // run reads again, was published exactly under that condition.
  lemma AtLeastOnceExactlyWhenNeverMissed(changes: seq<Change>, chain: seq<T.Stage>, moves: seq<Move>, i: nat)
    requires T.SampleFree(chain) && Valid(Machinery(changes), Fresh(chain), moves)
    requires Never(Machinery(changes), Reads(changes, CarelessOf(LogOf(changes))), Fresh(chain), moves)
    requires var s := Exec(Machinery(changes), Fresh(chain), moves).s; Base(s) <= i < Covered(s)
    requires i < |changes| && changes[i].decodes && T.Wants(chain, changes[i].ev)
    ensures i in Exec(Machinery(changes), Fresh(chain), moves).book.published <==>
            !T.Seen(chain, changes[i].ev.id) && Never(Machinery(changes), MissesOf(changes, i), Fresh(chain), moves)
  {
    CoveredIsProcessed(changes, chain, moves, i);
    PublishedExactlyWhenNeverMissed(changes, chain, moves, i);
  }

  lemma CoveredIsProcessed(changes: seq<Change>, chain: seq<T.Stage>, moves: seq<Move>, i: nat)
    requires Valid(Machinery(changes), Fresh(chain), moves)
    requires Never(Machinery(changes), Reads(changes, CarelessOf(LogOf(changes))), Fresh(chain), moves)
    requires var s := Exec(Machinery(changes), Fresh(chain), moves).s; Base(s) <= i < Covered(s)
    requires i < |changes| && changes[i].decodes
    ensures i in Exec(Machinery(changes), Fresh(chain), moves).s.processed
  {
    var m, log, x := Machinery(changes), LogOf(changes), Fresh(chain);
    var acts, s := Projected(m, ActionsOf(changes), x, moves), Exec(m, x, moves).s;
    FollowsProtocol(changes, x, moves);
    NeverProjected(m, System(log), STATE, ActionsOf(changes), CarelessOf(log), Reads(changes, CarelessOf(log)), x,
                   moves);
    if i !in s.processed {
      AtLeastOnceUnderLockstep(log, acts, i);
    }
  }

  // Without Deduplicate, every wanted event that no later run reads again was published.
  lemma WantedEventsArePublished(changes: seq<Change>, chain: seq<T.Stage>, moves: seq<Move>, i: nat)
    requires T.SampleFree(chain) && T.DedupFree(chain) && Valid(Machinery(changes), Fresh(chain), moves)
    requires Never(Machinery(changes), Reads(changes, CarelessOf(LogOf(changes))), Fresh(chain), moves)
    requires var s := Exec(Machinery(changes), Fresh(chain), moves).s; Base(s) <= i < Covered(s)
    requires i < |changes| && changes[i].decodes && T.Wants(chain, changes[i].ev)
    ensures i in Exec(Machinery(changes), Fresh(chain), moves).book.published
  {
    var x := Fresh(chain);
    AtLeastOnceExactlyWhenNeverMissed(changes, chain, moves, i);
    FollowsProtocol(changes, x, moves);
    MissesInLedger(changes, i, x, moves);
    L.NothingToSpend(EventsOf(changes), chain, changes[i].ev.id, {i},
                     Projected(Machinery(changes), EntriesOf(changes), x, moves));
  }

  // Whatever is published is wanted.
  lemma OnlyWantedIsPublished(changes: seq<Change>, chain: seq<T.Stage>, moves: seq<Move>, i: nat)
    requires T.SampleFree(chain) && Valid(Machinery(changes), Fresh(chain), moves)
    requires i in Exec(Machinery(changes), Fresh(chain), moves).book.published
    ensures i < |changes| && T.Wants(chain, changes[i].ev)
  {
    FollowsProtocol(changes, Fresh(chain), moves);
    L.OnlyWanted(EventsOf(changes), chain, Projected(Machinery(changes), EntriesOf(changes), Fresh(chain), moves), i);
  }
}
