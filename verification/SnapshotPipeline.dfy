// The snapshot as a pipeline of three goroutines joined by unbuffered channels: the source, the
// progress forwarder and the engine (engine/snapshot/snapshot.engine.go:55-77,
// engine/core/engine.go:209-231), over any number of attempts.
module SnapshotPipeline {
  import opened Prelude
  import opened Histories

  // The source reads rows 0..total-1 in key order. Sending(k): row k is next; Deleted: the loop is
  // over and the cursor deleted; Marked: the done marker saved; Returned: both channels closed.
  datatype Source = Sending(k: nat) | Deleted | Marked | Returned

  datatype Forwarder = Waiting | Holds(j: nat)
  datatype Engine = Idle | Working(i: nat) | Failed(i: nat)

  datatype State = State(
    source: Source,
    forwarder: Forwarder,
    engine: Engine,
    running: bool,
    cursor: nat,        // rows below the saved cursor; 0 is no cursor
    done: bool,         // the Initial done marker
    first: nat,         // where this attempt started
    processed: set<nat>,
    ended: nat,         // attempts that ended
    floor: nat)         // rows already confirmed when this attempt began

  const INITIAL := State(Returned, Waiting, Idle, false, 0, false, 0, {}, 0, 0)

  datatype Action =
    | Start(cursorLoads: bool, doneLoads: bool)
    | Accept               // the forwarder receives row k from the source
    | SaveCursor
    | DeleteCursor(applied: bool)
    | MarkDone(applied: bool)
    | Return
    | Forward              // the engine receives the forwarder's row
    | Process
    | ProcessFails
    | End                  // the attempt ends: completion, error, cancellation, crash or panic

  // A cursor may be saved behind any row, since batches may end anywhere. Once the source returned,
  // the engine's channel is closed: the forwarder's send of a row it still holds panics, which is End.
  predicate Enabled(total: nat, s: State, a: Action) {
    match a
    case Start(_, doneLoads) => !s.running && !(s.done && doneLoads)
    case Accept => s.running && s.source.Sending? && s.source.k < total && s.forwarder == Waiting
    case SaveCursor => s.running && s.source.Sending? && s.first < s.source.k
    case DeleteCursor(_) => s.running && s.source == Sending(total)
    case MarkDone(_) => s.running && s.source == Deleted
    case Return => s.running && s.source == Marked
    case Forward => s.running && s.source != Returned && s.forwarder.Holds? && s.engine == Idle
    case Process => s.running && s.engine.Working?
    case ProcessFails => s.running && s.engine.Working?
    case End => s.running
  }

  function Step(total: nat, s: State, a: Action): State
    requires Enabled(total, s, a)
  {
    match a
    case Start(cursorLoads, _) =>
      var from := if cursorLoads then s.cursor else 0;
      s.(running := true, source := Sending(from), forwarder := Waiting, engine := Idle,
         first := from, floor := Confirmed(total, s))
    case Accept => s.(forwarder := Holds(s.source.k), source := Sending(s.source.k + 1))
    case SaveCursor => s.(cursor := s.source.k)
    case DeleteCursor(applied) => s.(source := Deleted, cursor := if applied then 0 else s.cursor)
    case MarkDone(applied) => s.(source := Marked, done := s.done || applied)
    case Return => s.(source := Returned)
    case Forward => s.(engine := Working(s.forwarder.j), forwarder := Waiting)
    case Process => s.(engine := Idle, processed := s.processed + {s.engine.i})
    case ProcessFails => s.(engine := Failed(s.engine.i))
    case End => s.(running := false, ended := s.ended + 1)
  }

  function System(total: nat): Machine<State, Action> {
    Machine((s: State, a: Action) => Enabled(total, s, a),
            (s: State, a: Action) => if Enabled(total, s, a) then Step(total, s, a) else s)
  }

  // How many leading rows a later attempt may skip: all of them once marked done, else those below
  // the saved cursor.
  function Confirmed(total: nat, s: State): nat {
    if s.done then total else s.cursor
  }

  ghost function Unprocessed(s: State, upTo: nat): set<nat> {
    set i: nat | i < upTo && i !in s.processed
  }

  ghost function Exposed(total: nat, s: State): set<nat> {
    Unprocessed(s, Confirmed(total, s))
  }

  // ---------------------------------------------------------------- The invariant

  // Rows the source has handed over in this attempt lie below this one.
  function Accepted(total: nat, s: State): nat {
    if s.source.Sending? then s.source.k else total
  }

  predicate HeldByEngine(s: State, i: nat) {
    s.engine == Working(i) || s.engine == Failed(i)
  }

  predicate HeldByForwarder(s: State, i: nat) {
    s.forwarder == Holds(i)
  }

  ghost function InFlight(s: State): (held: set<nat>)
    ensures forall i: nat :: i in held <==> HeldByEngine(s, i) || HeldByForwarder(s, i)
  {
    (if s.forwarder.Holds? then {s.forwarder.j} else {}) +
    (match s.engine case Idle => {} case Working(i) => {i} case Failed(i) => {i})
  }

  ghost predicate RunInv(total: nat, s: State) {
    && s.first <= Accepted(total, s) <= total
    && s.cursor <= total && s.floor <= total
    && Confirmed(total, s) <= Max(s.floor, Accepted(total, s))
    && s.first <= s.floor
    && (forall i :: s.first <= i < Accepted(total, s) && i !in s.processed ==>
          HeldByEngine(s, i) || HeldByForwarder(s, i))
    && (s.forwarder.Holds? ==> s.first <= s.forwarder.j < Accepted(total, s))
    && (s.engine != Idle ==> s.first <= s.engine.i < Accepted(total, s))
    && (s.forwarder.Holds? && s.engine != Idle ==> s.engine.i < s.forwarder.j)
  }

  ghost predicate Inv(total: nat, s: State) {
    if s.running then RunInv(total, s) && |Unprocessed(s, s.floor)| <= 2 * s.ended
    else s.cursor <= total && |Exposed(total, s)| <= 2 * s.ended
  }

  lemma FewerUnprocessed(s: State, p: nat, s': State, p': nat)
    requires p' <= p && s.processed <= s'.processed
    ensures |Unprocessed(s', p')| <= |Unprocessed(s, p)|
  {
    SubsetSize(Unprocessed(s', p'), Unprocessed(s, p));
  }

  lemma FewInFlight(s: State)
    ensures |InFlight(s)| <= 2
  {
  }

  // In every interleaving, what the cursor or the marker confirms beyond the start of the attempt is
  // processed, except for the row the forwarder holds and the row the engine works on.
  lemma AtMostTwoAhead(total: nat, s: State)
    requires s.running && RunInv(total, s)
    ensures Exposed(total, s) <= Unprocessed(s, s.floor) + InFlight(s)
    ensures |Exposed(total, s)| <= |Unprocessed(s, s.floor)| + 2
  {
    FewInFlight(s);
    UnionSize(Exposed(total, s), Unprocessed(s, s.floor), InFlight(s));
  }

  lemma StartKeepsInv(total: nat, s: State, a: Action)
    requires Inv(total, s) && Enabled(total, s, a) && a.Start?
    ensures Inv(total, Step(total, s, a))
  {
    var s' := Step(total, s, a);
    FewerUnprocessed(s, Confirmed(total, s), s', s'.floor);
  }

  lemma EndKeepsInv(total: nat, s: State)
    requires Inv(total, s) && Enabled(total, s, End)
    ensures Inv(total, Step(total, s, End))
  {
    AtMostTwoAhead(total, s);
    assert Exposed(total, Step(total, s, End)) == Exposed(total, s);
  }

  lemma SourceStepKeepsInv(total: nat, s: State, a: Action)
    requires Inv(total, s) && Enabled(total, s, a)
    requires a.SaveCursor? || a.DeleteCursor? || a.MarkDone? || a.Return?
    ensures Inv(total, Step(total, s, a))
  {
    FewerUnprocessed(s, s.floor, Step(total, s, a), s.floor);
  }

  lemma RowStepKeepsInv(total: nat, s: State, a: Action)
    requires Inv(total, s) && Enabled(total, s, a)
    requires a.Accept? || a.Forward? || a.Process? || a.ProcessFails?
    ensures Inv(total, Step(total, s, a))
  {
    FewerUnprocessed(s, s.floor, Step(total, s, a), s.floor);
  }

  lemma StepKeepsInv(total: nat, s: State, a: Action)
    requires Inv(total, s) && Enabled(total, s, a)
    ensures Inv(total, Step(total, s, a))
  {
    if a.Start? { StartKeepsInv(total, s, a); }
    else if a.End? { EndKeepsInv(total, s); }
    else if a.Accept? || a.Forward? || a.Process? || a.ProcessFails? { RowStepKeepsInv(total, s, a); }
    else { SourceStepKeepsInv(total, s, a); }
  }

  ghost function InvOf(total: nat): State -> bool {
    s => Inv(total, s)
  }

  lemma EveryHistoryKeepsInv(total: nat, acts: seq<Action>)
    requires Valid(System(total), INITIAL, acts)
    ensures Inv(total, Exec(System(total), INITIAL, acts))
  {
    var m := System(total);
    assert Exposed(total, INITIAL) == {};
    forall t, a | InvOf(total)(t) && m.enabled(t, a) ensures InvOf(total)(m.step(t, a)) {
      StepKeepsInv(total, t, a);
    }
    Invariant(m, InvOf(total), INITIAL, acts);
  }

  // ---------------------------------------------------------------- Main results

  // Over any history of attempts, the rows a later attempt would skip although they were never
  // processed number at most two per ended attempt, plus two for the attempt in progress.
  lemma SkippedRowsAreBounded(total: nat, acts: seq<Action>)
    requires Valid(System(total), INITIAL, acts)
    ensures var s := Exec(System(total), INITIAL, acts);
            |Exposed(total, s)| <= 2 * s.ended + if s.running then 2 else 0
  {
    EveryHistoryKeepsInv(total, acts);
    var s := Exec(System(total), INITIAL, acts);
    if s.running {
      AtMostTwoAhead(total, s);
    }
  }

  // The lag of a single attempt: the confirmed rows exceed those confirmed at its start and those
  // processed by at most the two rows in flight.
  lemma LagIsTwo(total: nat, acts: seq<Action>)
    requires Valid(System(total), INITIAL, acts) && Exec(System(total), INITIAL, acts).running
    ensures var s := Exec(System(total), INITIAL, acts);
            Exposed(total, s) <= Unprocessed(s, s.floor) + InFlight(s) && |InFlight(s)| <= 2
  {
    EveryHistoryKeepsInv(total, acts);
    AtMostTwoAhead(total, Exec(System(total), INITIAL, acts));
    FewInFlight(Exec(System(total), INITIAL, acts));
  }

  // ---------------------------------------------------------------- Exactly when a step skips rows

  ghost predicate Lossless(total: nat, s: State) {
    Exposed(total, s) == {}
  }

  // The cursor or the marker is saved while the forwarder or the engine holds a row that was never
  // processed.
  ghost predicate Premature(s: State, a: Action) {
    (a.SaveCursor? || a == MarkDone(true)) && exists i :: i in InFlight(s) && i !in s.processed
  }

  // Without earlier loss, an attempt starts behind processed rows only.
  ghost predicate CleanStart(s: State) {
    s.running ==> forall i: nat :: i < s.first ==> i in s.processed
  }

  lemma SaveExact(total: nat, s: State, a: Action)
    requires s.running && RunInv(total, s) && Lossless(total, s) && CleanStart(s) && Enabled(total, s, a)
    requires a.SaveCursor? || a == MarkDone(true)
    ensures Lossless(total, Step(total, s, a)) <==> !Premature(s, a)
  {
    var s' := Step(total, s, a);
    assert forall i: nat :: i < Confirmed(total, s) ==> i !in Exposed(total, s);
    if Premature(s, a) {
      var i :| i in InFlight(s) && i !in s.processed;
      assert i in Exposed(total, s');
    } else {
      assert forall i: nat :: i < Accepted(total, s) ==> i in s.processed;
    }
  }

  lemma StepExact(total: nat, s: State, a: Action)
    requires Inv(total, s) && Lossless(total, s) && CleanStart(s) && Enabled(total, s, a)
    ensures Lossless(total, Step(total, s, a)) <==> !Premature(s, a)
    ensures CleanStart(Step(total, s, a))
  {
    forall i: nat | i < Confirmed(total, s) ensures i in s.processed {
      assert i !in Exposed(total, s);
    }
    if a.SaveCursor? || a == MarkDone(true) {
      SaveExact(total, s, a);
    }
  }

  ghost function LosslessOf(total: nat): State -> bool {
    s => Lossless(total, s)
  }

  ghost function PrematureOf(): (State, Action) -> bool {
    (s, a) => Premature(s, a)
  }

  ghost function CleanInvOf(total: nat): State -> bool {
    s => Inv(total, s) && (Lossless(total, s) ==> CleanStart(s))
  }

  // A history never confirms an unprocessed row exactly if no cursor and no marker is saved while a
  // row is still on its way through the pipeline.
  lemma LosslessExactlyWhenNeverPremature(total: nat, acts: seq<Action>)
    requires Valid(System(total), INITIAL, acts)
    ensures Always(System(total), LosslessOf(total), INITIAL, acts)
            <==> Never(System(total), PrematureOf(), INITIAL, acts)
  {
    var m, inv, ok, bad := System(total), CleanInvOf(total), LosslessOf(total), PrematureOf();
    assert Exposed(total, INITIAL) == {};
    forall t, a | inv(t) && ok(t) && m.enabled(t, a)
      ensures inv(m.step(t, a)) && (ok(m.step(t, a)) <==> !bad(t, a))
    {
      StepKeepsInv(total, t, a);
      StepExact(total, t, a);
    }
    Exact(m, inv, ok, bad, INITIAL, acts);
  }

  // ---------------------------------------------------------------- What a finished attempt processed

  ghost predicate AllFrom(total: nat, s: State) {
    forall i :: s.first <= i < total ==> i in s.processed
  }

  // The forwarder, or the engine, holds a row that was never processed.
  predicate ForwarderOwes(s: State) {
    s.forwarder.Holds? && s.forwarder.j !in s.processed
  }

  predicate EngineOwes(s: State) {
    s.engine != Idle && s.engine.i !in s.processed
  }

  predicate EngineFailed(s: State) {
    s.engine.Failed? && s.engine.i !in s.processed
  }

  predicate Ends(s: State, a: Action) {
    a.End?
  }

  // The attempt whose source returned in state r goes on: nothing leaves the forwarder any more.
  ghost predicate AfterReturn(total: nat, r: State, s: State) {
    && s.running && s.source == Returned && RunInv(total, s)
    && s.forwarder == r.forwarder && s.first == r.first
    && (ForwarderOwes(s) <==> ForwarderOwes(r))
    && (EngineOwes(s) ==> EngineOwes(r))
    && (EngineFailed(r) ==> EngineFailed(s))
  }

  ghost function AfterReturnOf(total: nat, r: State): State -> bool {
    s => AfterReturn(total, r, s)
  }

  lemma StaysReturned(total: nat, r: State, s: State, a: Action)
    requires AfterReturn(total, r, s) && Enabled(total, s, a) && !a.End?
    ensures AfterReturn(total, r, Step(total, s, a))
  {
  }

  // What is missing then is exactly what forwarder and engine still owe.
  lemma MissingIsOwed(total: nat, s: State)
    requires RunInv(total, s) && s.source == Returned
    ensures AllFrom(total, s) <==> !ForwarderOwes(s) && !EngineOwes(s)
  {
  }

  lemma AttemptAfterReturn(total: nat, before: seq<Action>, after: seq<Action>)
    requires Valid(System(total), INITIAL, before + [Return])
    requires var r := Exec(System(total), INITIAL, before + [Return]);
             Valid(System(total), r, after) && Never(System(total), Ends, r, after)
    ensures var r := Exec(System(total), INITIAL, before + [Return]);
            AfterReturn(total, r, Exec(System(total), r, after))
  {
    var m := System(total);
    Splits(m, INITIAL, before, [Return]);
    var b, r := Exec(m, INITIAL, before), Exec(m, INITIAL, before + [Return]);
    assert m.enabled(b, Return) && r == m.step(b, Return) by {
      assert [Return][1..] == [];
    }
    EveryHistoryKeepsInv(total, before + [Return]);
    forall s, a | AfterReturn(total, r, s) && m.enabled(s, a) && !Ends(s, a)
      ensures AfterReturn(total, r, m.step(s, a))
    {
      StaysReturned(total, r, s, a);
    }
    Discipline(m, AfterReturnOf(total, r), Ends, Ends, r, after);
  }

  // The source returns, in state r, and with that the engine's channel is closed. At every moment
  // from then on the attempt has processed all rows from its start exactly if the forwarder held no
  // unprocessed row when the source returned, and the engine does not owe one. A row the forwarder
  // held is not processed in this attempt, although cursor or marker may be past it.
  lemma FinishExact(total: nat, before: seq<Action>, after: seq<Action>)
    requires Valid(System(total), INITIAL, before + [Return])
    requires var r := Exec(System(total), INITIAL, before + [Return]);
             Valid(System(total), r, after) && Never(System(total), Ends, r, after)
    ensures var r := Exec(System(total), INITIAL, before + [Return]);
            var s := Exec(System(total), r, after);
            && s.running && s.source == Returned && s.first == r.first && s.forwarder == r.forwarder
            && (AllFrom(total, s) <==> !ForwarderOwes(r) && !EngineOwes(s))
            && (ForwarderOwes(r) ==> r.forwarder.j !in s.processed)
  {
    AttemptAfterReturn(total, before, after);
    MissingIsOwed(total, Exec(System(total), Exec(System(total), INITIAL, before + [Return]), after));
  }

  ghost predicate Finishes(total: nat, r: State, after: seq<Action>) {
    Valid(System(total), r, after) && Never(System(total), Ends, r, after)
    && AllFrom(total, Exec(System(total), r, after))
  }

  // Judged by the program points at that moment: the attempt can still process all rows from its
  // start if and only if the forwarder holds no unprocessed row and the engine did not fail on one.
  lemma CanFinishExact(total: nat, before: seq<Action>)
    requires Valid(System(total), INITIAL, before + [Return])
    ensures var r := Exec(System(total), INITIAL, before + [Return]);
            (exists after :: Finishes(total, r, after)) <==> !ForwarderOwes(r) && !EngineFailed(r)
  {
    var m, r := System(total), Exec(System(total), INITIAL, before + [Return]);
    if exists after :: Finishes(total, r, after) {
      var after :| Finishes(total, r, after);
      AttemptAfterReturn(total, before, after);
      MissingIsOwed(total, Exec(m, r, after));
    } else if !ForwarderOwes(r) && !EngineFailed(r) {
      var after := if EngineOwes(r) then [Process] else [];
      AttemptAfterReturn(total, before, []);
      assert after != [] ==> after[1..] == [];
      FinishExact(total, before, after);
      assert Finishes(total, r, after);
    }
  }

  const READ_ONE := [Start(true, true), Accept, DeleteCursor(true)]
  const COMPLETE := [MarkDone(true), Return, End]

  // One row, nothing fails: the source returns while the forwarder still holds it. The attempt is
  // complete and marked done, and the row was never processed, nor will be.
  lemma CompletedWithoutTheRow()
    ensures Valid(System(1), INITIAL, READ_ONE + COMPLETE)
    ensures var s := Exec(System(1), INITIAL, READ_ONE + COMPLETE);
            s.source == Returned && s.forwarder == Holds(0) && s.done && s.processed == {} && Exposed(1, s) == {0}
  {
    var m := System(1);
    var mid := INITIAL.(running := true, source := Deleted, forwarder := Holds(0));
    var end := mid.(running := false, source := Returned, done := true, ended := 1);
    ThreeSteps(m, INITIAL, Start(true, true), Accept, DeleteCursor(true), mid);
    ThreeSteps(m, mid, MarkDone(true), Return, End, end);
    Then(m, INITIAL, READ_ONE, mid, COMPLETE, end);
    assert Exposed(1, end) == {0};
  }

  // ---------------------------------------------------------------- What the next attempt starts from

  predicate Saves(s: State, a: Action) {
    a.SaveCursor?
  }

  // Once the cursor is deleted, every attempt starts with the first row, until a cursor is saved again.
  lemma DeletedStartsOver(total: nat, s: State, acts: seq<Action>, start: Action)
    requires Enabled(total, s, DeleteCursor(true)) && start.Start?
    requires Valid(System(total), Step(total, s, DeleteCursor(true)), acts + [start])
    requires Never(System(total), Saves, Step(total, s, DeleteCursor(true)), acts)
    ensures Exec(System(total), Step(total, s, DeleteCursor(true)), acts + [start]).source == Sending(0)
  {
    var m, d := System(total), Step(total, s, DeleteCursor(true));
    Splits(m, d, acts, [start]);
    Discipline(m, (t: State) => t.cursor == 0, Saves, Saves, d, acts);
    assert [start][1..] == [];
  }

  // An attempt continues behind the cursor if it loads it, and starts over if it does not.
  lemma StartsBehindCursor(total: nat, s: State, cursorLoads: bool, doneLoads: bool)
    requires Enabled(total, s, Start(cursorLoads, doneLoads))
    ensures cursorLoads ==> Step(total, s, Start(cursorLoads, doneLoads)).source == Sending(s.cursor)
    ensures !cursorLoads ==> Step(total, s, Start(cursorLoads, doneLoads)).source == Sending(0)
  {
  }

  // Once the marker is saved, no attempt starts that can load it.
  lemma DoneIsNotRepeated(total: nat, s: State, acts: seq<Action>, cursorLoads: bool)
    requires Enabled(total, s, MarkDone(true)) && Valid(System(total), Step(total, s, MarkDone(true)), acts)
    ensures !Enabled(total, Exec(System(total), Step(total, s, MarkDone(true)), acts), Start(cursorLoads, true))
  {
    Invariant(System(total), (t: State) => t.done, Step(total, s, MarkDone(true)), acts);
  }

  // ---------------------------------------------------------------- The bound is reached

  // Two rows enter the pipeline, their batch ends, and the process crashes before either is published.
  const ENTER := [Start(true, true), Accept, Forward]
  const CRASH := [Accept, SaveCursor, End]

  function LosingHistory(n: nat): seq<Action> {
    if n == 0 then [] else LosingHistory(n - 1) + (ENTER + CRASH)
  }

  function AfterLoss(n: nat): State {
    if n == 0 then INITIAL
    else State(Sending(2 * n), Holds(2 * n - 1), Working(2 * n - 2), false, 2 * n, false, 2 * n - 2, {}, n, 2 * n - 2)
  }

  function Entered(n: nat): State {
    State(Sending(2 * n + 1), Waiting, Working(2 * n), true, 2 * n, false, 2 * n, {}, n, 2 * n)
  }

  lemma LoseTwo(total: nat, n: nat)
    requires 2 * n + 2 <= total
    ensures Leads(System(total), AfterLoss(n), ENTER + CRASH, AfterLoss(n + 1))
  {
    var m := System(total);
    ThreeSteps(m, AfterLoss(n), Start(true, true), Accept, Forward, Entered(n));
    ThreeSteps(m, Entered(n), Accept, SaveCursor, End, AfterLoss(n + 1));
    Then(m, AfterLoss(n), ENTER, Entered(n), CRASH, AfterLoss(n + 1));
  }

  lemma {:induction false} LoseAll(total: nat, n: nat)
    requires 2 * n <= total
    ensures Leads(System(total), INITIAL, LosingHistory(n), AfterLoss(n))
  {
    if n > 0 {
      LoseAll(total, n - 1);
      LoseTwo(total, n - 1);
      Then(System(total), INITIAL, LosingHistory(n - 1), AfterLoss(n - 1), ENTER + CRASH, AfterLoss(n));
    }
  }

  // For every n there is a history of n crashed attempts that skips all of its 2n rows: no smaller
  // bound than two rows per attempt holds.
  lemma BoundIsReached(n: nat)
    ensures Valid(System(2 * n), INITIAL, LosingHistory(n))
    ensures var s := Exec(System(2 * n), INITIAL, LosingHistory(n));
            s.ended == n && s.processed == {} && |Exposed(2 * n, s)| == 2 * n
  {
    LoseAll(2 * n, n);
    assert Exposed(2 * n, AfterLoss(n)) == UpTo(2 * n);
  }
}
