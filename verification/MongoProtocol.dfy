// The Mongo resume-token protocol: the same hand-over as in Postgres, confirmed by saving the live
// position of the change stream at Ack time (source/mongo/source/eventsManager.go).
module MongoProtocol {
  import opened Prelude
  import opened Histories

  // The operation log by index; log[i] says whether change event i decodes. A resume token is the
  // number of events the change stream has moved past.
  type Log = seq<bool>

  datatype Capture = Reading | Handing(i: nat) | Stopped
  datatype EngineLoop = Idle | Working(i: nat) | AckReady | Failed(event: Option<nat>)

  datatype State = State(
    live: nat,              // the position of the open change stream
    stored: Option<nat>,    // the token in the store
    capture: Capture,
    engine: EngineLoop,
    running: bool,
    head: nat,              // events written to the log so far
    first: nat,             // where the last stream was opened
    begun: Option<nat>,     // the end of the log when a stream was opened for the first time
    passed: set<nat>,       // events that an opening without a token moved past
    processed: set<nat>,
    ended: nat,
    floor: nat)             // what was covered when this run began

  const INITIAL := State(0, None, Stopped, Idle, false, 0, 0, None, {}, {}, 0, 0)

  datatype Action =
    | Append                       // the database writes one more event
    | Open(loads: bool)            // a run starts; a failed load counts as no token
    | Next
    | NextFails
    | Take
    | Process                      // published by all producers, or dropped by a transform
    | ProcessFails
    | Ack(applied: bool, ok: bool) // saving the live token; a nil store applies nothing and reports ok
    | End
    | Restart                      // the process restarts; the store and the log stay

  predicate Enabled(log: Log, s: State, a: Action) {
    match a
    case Append => s.head < |log|
    case Open(_) => !s.running
    case Next => s.running && s.capture == Reading && s.live < s.head <= |log|
    case NextFails => s.running && s.capture == Reading
    case Take => s.running && s.capture.Handing? && s.engine == Idle
    case Process => s.running && s.engine.Working?
    case ProcessFails => s.running && s.engine.Working?
    case Ack(_, _) => s.running && s.engine == AckReady
    case End => s.running
    case Restart => !s.running
  }

  // Events before the first opening were never promised to anyone.
  function Base(s: State): nat {
    s.begun.GetOr(s.head)
  }

  // Up to here no later run reads again: the stored token; without one, where the last stream was
  // opened, because the next one opens no earlier.
  function Covered(s: State): nat {
    s.stored.GetOr(s.first)
  }

  // Promised, decodable events below a position that were never processed.
  ghost function Unprocessed(log: Log, s: State, upTo: nat): set<nat> {
    set i: nat | i < |log| && Base(s) <= i < upTo && log[i] && i !in s.processed
  }

  // The stream opens at the current end of the log, because the load failed or there is no token.
  predicate WithoutToken(s: State, loads: bool) {
    !loads || s.stored.None?
  }

  ghost function OpenStream(log: Log, s: State, loads: bool): State {
    var from := if WithoutToken(s, loads) then s.head else s.stored.value;
    s.(running := true, capture := Reading, engine := Idle, live := from, first := from, begun := Some(Base(s)),
       passed := s.passed + (Unprocessed(log, s, from) - Unprocessed(log, s, Covered(s))), floor := Covered(s))
  }

  ghost function Step(log: Log, s: State, a: Action): State
    requires Enabled(log, s, a)
  {
    match a
    case Append => s.(head := s.head + 1)
    case Open(loads) => OpenStream(log, s, loads)
    case Next => s.(live := s.live + 1, capture := if log[s.live] then Handing(s.live) else Reading)
    case NextFails => s.(capture := Stopped)
    case Take => s.(capture := Reading, engine := Working(s.capture.i))
    case Process => s.(engine := AckReady, processed := s.processed + {s.engine.i})
    case ProcessFails => s.(engine := Failed(Some(s.engine.i)))
    case Ack(applied, ok) =>
      s.(stored := if applied then Some(s.live) else s.stored, engine := if ok then Idle else Failed(None))
    case End => s.(running := false, ended := s.ended + 1)
    case Restart => s
  }

  ghost function System(log: Log): Machine<State, Action> {
    Machine((s: State, a: Action) => Enabled(log, s, a),
            (s: State, a: Action) => if Enabled(log, s, a) then Step(log, s, a) else s)
  }

  // ---------------------------------------------------------------- Exposure

  // No later run reads these again, and none was processed: they are lost.
  ghost function Lost(log: Log, s: State): set<nat> {
    Unprocessed(log, s, Covered(s))
  }

  // The same without the events that an opening without a token moved past.
  ghost function Ahead(log: Log, s: State, upTo: nat): set<nat> {
    Unprocessed(log, s, upTo) - s.passed
  }

  function EngineHolds(s: State): Option<nat> {
    match s.engine
    case Working(i) => Some(i)
    case Failed(e) => e
    case _ => None
  }

  function ChannelHolds(s: State): Option<nat> {
    if s.capture.Handing? then Some(s.capture.i) else None
  }

  // Where log, streams, token and the events in flight lie.
  ghost predicate PlaceInv(log: Log, s: State) {
    && s.head <= |log| && s.first <= s.head && Covered(s) <= s.head
    && (s.begun.Some? ==> s.begun.value <= s.first && s.begun.value <= Covered(s))
    && (s.begun.None? ==> s.stored.None? && !s.running)
    && (s.running ==> RunInv(log, s))
  }

  ghost predicate RunInv(log: Log, s: State)
    requires s.head <= |log|
  {
    && s.first <= s.live <= s.head
    && (forall i :: s.first <= i < s.live && log[i] && i !in s.processed ==>
          EngineHolds(s) == Some(i) || ChannelHolds(s) == Some(i))
    && (ChannelHolds(s).Some? ==>
          var h := ChannelHolds(s).value; h + 1 == s.live && s.first < s.live && log[h])
    && Covered(s) <= Max(s.floor, s.live)
    && (EngineHolds(s).Some? && ChannelHolds(s).Some? ==> Covered(s) <= Max(s.floor, ChannelHolds(s).value))
  }

  // What is ahead without having been moved past, counted from where the run began.
  ghost predicate BoundInv(log: Log, s: State) {
    if s.running then Ahead(log, s, s.first) <= Ahead(log, s, s.floor) && |Ahead(log, s, s.floor)| <= s.ended
    else |Ahead(log, s, Covered(s))| <= s.ended
  }

  ghost predicate Inv(log: Log, s: State) {
    PlaceInv(log, s) && BoundInv(log, s)
  }

  lemma FewerAhead(log: Log, s: State, p: nat, s': State, p': nat)
    requires Ahead(log, s', p') <= Ahead(log, s, p)
    ensures |Ahead(log, s', p')| <= |Ahead(log, s, p)|
  {
    SubsetSize(Ahead(log, s', p'), Ahead(log, s, p));
  }

  // The event that may be ahead is the one the engine holds or, if it holds none, the one that
  // waits on the channel.
  lemma AtMostOneAhead(log: Log, s: State) returns (x: nat)
    requires s.running && Inv(log, s)
    ensures Ahead(log, s, Covered(s)) <= Ahead(log, s, s.floor) + {x}
    ensures |Ahead(log, s, Covered(s))| <= |Ahead(log, s, s.floor)| + 1
    ensures EngineHolds(s) == Some(x) || (EngineHolds(s).None? && ChannelHolds(s) == Some(x))
            || Ahead(log, s, Covered(s)) <= Ahead(log, s, s.floor)
  {
    x := EngineHolds(s).GetOr(ChannelHolds(s).GetOr(0));
    forall i | i in Ahead(log, s, Covered(s)) && i !in Ahead(log, s, s.floor)
      ensures EngineHolds(s) == Some(i) || (EngineHolds(s).None? && ChannelHolds(s) == Some(i))
    {
      assert i !in Ahead(log, s, s.first);
    }
    UnionSize(Ahead(log, s, Covered(s)), Ahead(log, s, s.floor), {x});
  }

  lemma StreamKeepsPlace(log: Log, s: State, a: Action)
    requires PlaceInv(log, s) && Enabled(log, s, a) && (a.Append? || a.Next? || a.NextFails? || a.Take?)
    ensures PlaceInv(log, Step(log, s, a))
  {
  }

  lemma EngineKeepsPlace(log: Log, s: State, a: Action)
    requires PlaceInv(log, s) && Enabled(log, s, a) && (a.Process? || a.ProcessFails? || a.Ack?)
    ensures PlaceInv(log, Step(log, s, a))
  {
  }

  lemma RunKeepsPlace(log: Log, s: State, a: Action)
    requires PlaceInv(log, s) && Enabled(log, s, a) && (a.Open? || a.End? || a.Restart?)
    ensures PlaceInv(log, Step(log, s, a))
  {
  }

  lemma OpenKeepsBound(log: Log, s: State, loads: bool)
    requires Inv(log, s) && !s.running
    ensures BoundInv(log, OpenStream(log, s, loads))
  {
    var s' := OpenStream(log, s, loads);
    assert Ahead(log, s', s'.first) <= Ahead(log, s', s'.floor);
    FewerAhead(log, s, Covered(s), s', s'.floor);
  }

  // What is ahead only shrinks during a run, wherever one looks.
  lemma AheadShrinks(log: Log, s: State, a: Action, p: nat)
    requires PlaceInv(log, s) && s.running && Enabled(log, s, a) && !a.End?
    ensures Ahead(log, Step(log, s, a), p) <= Ahead(log, s, p)
  {
  }

  lemma RunningKeepsBound(log: Log, s: State, a: Action)
    requires Inv(log, s) && s.running && Enabled(log, s, a) && !a.End?
    ensures BoundInv(log, Step(log, s, a))
  {
    var s' := Step(log, s, a);
    AheadShrinks(log, s, a, s.first);
    AheadShrinks(log, s, a, s.floor);
    FewerAhead(log, s, s.floor, s', s.floor);
    forall i | i in Ahead(log, s', s'.first) ensures i in Ahead(log, s', s'.floor) {
      assert i in Ahead(log, s, s.floor);
    }
  }

  lemma KeepsBound(log: Log, s: State, a: Action)
    requires Inv(log, s) && Enabled(log, s, a)
    ensures BoundInv(log, Step(log, s, a))
  {
    var s' := Step(log, s, a);
    if a.Open? {
      OpenKeepsBound(log, s, a.loads);
    } else if a.End? {
      var x := AtMostOneAhead(log, s);
      FewerAhead(log, s, Covered(s), s', Covered(s'));
    } else if s.running {
      RunningKeepsBound(log, s, a);
    } else {
      FewerAhead(log, s, Covered(s), s', Covered(s'));
    }
  }

  lemma StepKeepsInv(log: Log, s: State, a: Action)
    requires Inv(log, s) && Enabled(log, s, a)
    ensures Inv(log, Step(log, s, a))
  {
    KeepsBound(log, s, a);
    if a.Append? || a.Next? || a.NextFails? || a.Take? {
      StreamKeepsPlace(log, s, a);
    } else if a.Open? || a.End? || a.Restart? {
      RunKeepsPlace(log, s, a);
    } else {
      EngineKeepsPlace(log, s, a);
    }
  }

  ghost function InvOf(log: Log): State -> bool {
    s => Inv(log, s)
  }

  lemma InitialInv(log: Log)
    ensures Inv(log, INITIAL) && Lost(log, INITIAL) == {}
  {
    assert Lost(log, INITIAL) == Ahead(log, INITIAL, 0) == {};
  }

  lemma EveryHistoryKeepsInv(log: Log, acts: seq<Action>)
    requires Valid(System(log), INITIAL, acts)
    ensures Inv(log, Exec(System(log), INITIAL, acts))
  {
    var m := System(log);
    InitialInv(log);
    forall t, a | InvOf(log)(t) && m.enabled(t, a) ensures InvOf(log)(m.step(t, a)) {
      StepKeepsInv(log, t, a);
    }
    Invariant(m, InvOf(log), INITIAL, acts);
  }

  // ---------------------------------------------------------------- Main results

  // In every interleaving over any number of runs: of the events written since the first opening,
  // those that no later run reads again and that were never processed number at most one per ended
  // run, one for the run in progress, and those that openings without a token moved past and no
  // later run processed after all.
  lemma LossIsBounded(log: Log, acts: seq<Action>)
    requires Valid(System(log), INITIAL, acts)
    ensures var s := Exec(System(log), INITIAL, acts);
            |Lost(log, s)| <= s.ended + (if s.running then 1 else 0) + |s.passed - s.processed|
  {
    EveryHistoryKeepsInv(log, acts);
    var s := Exec(System(log), INITIAL, acts);
    if s.running {
      var x := AtMostOneAhead(log, s);
    }
    UnionSize(Lost(log, s), Ahead(log, s, Covered(s)), s.passed - s.processed);
  }

  // At every moment of a run the token leads by at most the event that the engine, or else the
  // channel, holds, over what was covered when the run began and what its opening moved past.
  lemma AtMostOneAheadAlways(log: Log, acts: seq<Action>)
    requires Valid(System(log), INITIAL, acts) && Exec(System(log), INITIAL, acts).running
    ensures var s := Exec(System(log), INITIAL, acts);
            exists x :: && Lost(log, s) <= Unprocessed(log, s, s.floor) + s.passed + {x}
                        && (EngineHolds(s) == Some(x) || (EngineHolds(s).None? && ChannelHolds(s) == Some(x))
                            || Lost(log, s) <= Unprocessed(log, s, s.floor) + s.passed)
  {
    EveryHistoryKeepsInv(log, acts);
    var s := Exec(System(log), INITIAL, acts);
    var x := AtMostOneAhead(log, s);
    assert Lost(log, s) <= Ahead(log, s, Covered(s)) + s.passed;
  }

  // ---------------------------------------------------------------- Exactly when events are lost

  ghost predicate Lossless(log: Log, s: State) {
    Lost(log, s) == {}
  }

  // An unprocessed event lies between what is covered and a position.
  predicate Between(log: Log, s: State, upTo: nat) {
    exists i :: Max(Base(s), Covered(s)) <= i < upTo && i < |log| && log[i] && i !in s.processed
  }

  // A stream opens without a token although an unprocessed event is already in the log.
  predicate OpensPast(log: Log, s: State, a: Action) {
    a.Open? && WithoutToken(s, a.loads) && Between(log, s, s.head)
  }

  // The steps that lose: opening past an event when no token is stored; and an Ack that saves the
  // live token while an unprocessed event waits on the channel, or in a run whose stream was opened
  // past the stored token and an unprocessed event.
  predicate Premature(log: Log, s: State, a: Action) {
    || (OpensPast(log, s, a) && s.stored.None?)
    || (a.Ack? && a.applied && ((ChannelHolds(s).Some? && ChannelHolds(s).value !in s.processed)
                                || Between(log, s, s.first)))
  }

  function PrematureOf(log: Log): (State, Action) -> bool {
    (s, a) => Premature(log, s, a)
  }

  lemma AckExact(log: Log, s: State, a: Action)
    requires Inv(log, s) && Lossless(log, s) && Enabled(log, s, a) && a.Ack?
    ensures Lossless(log, Step(log, s, a)) <==> !Premature(log, s, a)
  {
    var s' := Step(log, s, a);
    if Premature(log, s, a) {
      if ChannelHolds(s).Some? && ChannelHolds(s).value !in s.processed {
        assert ChannelHolds(s).value in Lost(log, s');
      } else {
        var i :| Max(Base(s), Covered(s)) <= i < s.first && i < |log| && log[i] && i !in s.processed;
        assert i in Lost(log, s');
      }
    } else {
      forall i: nat | i < |log| && Base(s) <= i < Covered(s') && log[i] ensures i in s'.processed {
        assert i !in Lost(log, s);
      }
    }
  }

  lemma OpenExact(log: Log, s: State, a: Action)
    requires Inv(log, s) && Lossless(log, s) && Enabled(log, s, a) && a.Open?
    ensures Lossless(log, Step(log, s, a)) <==> !Premature(log, s, a)
  {
    var s' := Step(log, s, a);
    if Premature(log, s, a) {
      var i :| Max(Base(s), Covered(s)) <= i < s.head && i < |log| && log[i] && i !in s.processed;
      assert i in Lost(log, s');
    } else {
      forall i: nat | i < |log| && Base(s') <= i < Covered(s') && log[i] ensures i in s'.processed {
        assert i !in Lost(log, s);
      }
    }
  }

  // One step of a reachable state that lost nothing loses an event exactly if it is premature.
  lemma StepExact(log: Log, s: State, a: Action)
    requires Inv(log, s) && Lossless(log, s) && Enabled(log, s, a)
    ensures Lossless(log, Step(log, s, a)) <==> !Premature(log, s, a)
  {
    if a.Ack? {
      AckExact(log, s, a);
    } else if a.Open? {
      OpenExact(log, s, a);
    } else {
      assert Lost(log, Step(log, s, a)) <= Lost(log, s);
    }
  }

  ghost function LosslessOf(log: Log): State -> bool {
    s => Lossless(log, s)
  }

  // No event written since the first opening is ever lost, in any state of the history, exactly if
  // none of its steps is premature.
  lemma LosslessExactlyWhenNeverPremature(log: Log, acts: seq<Action>)
    requires Valid(System(log), INITIAL, acts)
    ensures Always(System(log), LosslessOf(log), INITIAL, acts) <==>
            Never(System(log), PrematureOf(log), INITIAL, acts)
    ensures Never(System(log), PrematureOf(log), INITIAL, acts) ==> Lossless(log, Exec(System(log), INITIAL, acts))
  {
    var m, inv, ok := System(log), InvOf(log), LosslessOf(log);
    InitialInv(log);
    forall t, a | inv(t) && ok(t) && m.enabled(t, a)
      ensures inv(m.step(t, a)) && (ok(m.step(t, a)) <==> !PrematureOf(log)(t, a))
    {
      StepKeepsInv(log, t, a);
      StepExact(log, t, a);
    }
    Exact(m, inv, ok, PrematureOf(log), INITIAL, acts);
  }

  // ---------------------------------------------------------------- Lockstep schedules

  // The stream moves on although the engine has not finished the previous event, Ack included.
  predicate Overlaps(s: State, a: Action) {
    a.Next? && s.engine != Idle
  }

  // Overlapping, or opening past an event.
  function CarelessOf(log: Log): (State, Action) -> bool {
    (s, a) => Overlaps(s, a) || OpensPast(log, s, a)
  }

  ghost function CarefulOf(log: Log): State -> bool {
    s => Inv(log, s) && Lossless(log, s)
         && (s.running ==> !Between(log, s, s.first) && (s.engine != Idle ==> !s.capture.Handing?))
  }

  lemma OpensAtNone(log: Log, s: State, a: Action)
    requires Inv(log, s) && (s.running ==> !Between(log, s, s.first))
    requires Enabled(log, s, a) && !OpensPast(log, s, a) && Step(log, s, a).running
    ensures var s' := Step(log, s, a); !Between(log, s', s'.first)
  {
  }

  lemma CarefulStep(log: Log, s: State, a: Action)
    requires CarefulOf(log)(s) && Enabled(log, s, a) && !CarelessOf(log)(s, a)
    ensures CarefulOf(log)(Step(log, s, a)) && !Premature(log, s, a)
  {
    StepKeepsInv(log, s, a);
    StepExact(log, s, a);
    if Step(log, s, a).running {
      OpensAtNone(log, s, a);
    }
  }

  // Under lockstep, and if no stream is opened past an unprocessed event, nothing is lost over any
  // number of crashes and failed saves: once a token is stored, a run that loads it reads every
  // unprocessed event again, and until then the last stream was opened before all of them.
  lemma AtLeastOnceUnderLockstep(log: Log, acts: seq<Action>, i: nat)
    requires Valid(System(log), INITIAL, acts) && Never(System(log), CarelessOf(log), INITIAL, acts)
    requires var s := Exec(System(log), INITIAL, acts); Base(s) <= i < |log| && log[i] && i !in s.processed
    ensures var s := Exec(System(log), INITIAL, acts);
            && (s.stored.Some? ==> OpenStream(log, s, true).first <= i)
            && (s.stored.None? ==> s.first <= i)
            && Never(System(log), PrematureOf(log), INITIAL, acts)
  {
    var m := System(log);
    InitialInv(log);
    forall t, a | CarefulOf(log)(t) && m.enabled(t, a) && !CarelessOf(log)(t, a)
      ensures CarefulOf(log)(m.step(t, a)) && !PrematureOf(log)(t, a)
    {
      CarefulStep(log, t, a);
    }
    Discipline(m, CarefulOf(log), CarelessOf(log), PrematureOf(log), INITIAL, acts);
    assert i !in Lost(log, Exec(m, INITIAL, acts));
  }

  // ---------------------------------------------------------------- The bound is reached

  // Two events are written; the first is acknowledged while the second waits on the channel, and the
  // run ends.
  function LosingRound(): seq<Action> {
    [Open(true), Append, Append] + ([Next, Take, Process] + [Next, Ack(true, true), End])
  }

  function LosingHistory(n: nat): seq<Action> {
    if n == 0 then [] else LosingHistory(n - 1) + LosingRound()
  }

  function AllDecode(n: nat): Log {
    seq(2 * n, i => true)
  }

  function Evens(n: nat): (s: set<nat>)
    ensures forall i: nat :: i in s <==> i % 2 == 0 && i < 2 * n
  {
    if n == 0 then {} else Evens(n - 1) + {2 * n - 2}
  }

  function Odds(n: nat): (s: set<nat>)
    ensures |s| == n && forall i: nat :: i in s <==> i % 2 == 1 && i < 2 * n
  {
    if n == 0 then {} else Odds(n - 1) + {2 * n - 1}
  }

  ghost predicate LostRounds(s: State, i: nat) {
    && !s.running && s.head == 2 * i && Base(s) == 0 && Covered(s) == 2 * i && s.ended == i
    && s.passed == {} && s.processed == Evens(i)
    && (i > 0 ==> s.stored.Some?)
  }

  function Begun(s: State, i: nat): State {
    s.(running := true, capture := Reading, engine := Idle, live := 2 * i, first := 2 * i, begun := Some(0),
       floor := 2 * i, head := 2 * i + 2)
  }

  function Acknowledging(s: State, i: nat): State {
    Begun(s, i).(live := 2 * i + 1, engine := AckReady, processed := s.processed + {2 * i})
  }

  function AfterLoss(s: State, i: nat): State {
    Acknowledging(s, i).(live := 2 * i + 2, capture := Handing(2 * i + 1), engine := Idle, stored := Some(2 * i + 2),
                         running := false, ended := i + 1)
  }

  lemma RunBegins(n: nat, s: State, i: nat)
    requires i < n && LostRounds(s, i)
    ensures Leads(System(AllDecode(n)), s, [Open(true), Append, Append], Begun(s, i))
  {
    assert OpenStream(AllDecode(n), s, true).passed == {};
    ThreeSteps(System(AllDecode(n)), s, Open(true), Append, Append, Begun(s, i));
  }

  lemma RunProcesses(n: nat, s: State, i: nat)
    requires i < n && LostRounds(s, i)
    ensures Leads(System(AllDecode(n)), Begun(s, i), [Next, Take, Process], Acknowledging(s, i))
  {
    ThreeSteps(System(AllDecode(n)), Begun(s, i), Next, Take, Process, Acknowledging(s, i));
  }

  lemma RunLoses(n: nat, s: State, i: nat)
    requires i < n && LostRounds(s, i)
    ensures Leads(System(AllDecode(n)), Acknowledging(s, i), [Next, Ack(true, true), End], AfterLoss(s, i))
  {
    ThreeSteps(System(AllDecode(n)), Acknowledging(s, i), Next, Ack(true, true), End, AfterLoss(s, i));
  }

  lemma RunRound(n: nat, s: State, i: nat)
    requires i < n && LostRounds(s, i)
    ensures Leads(System(AllDecode(n)), s, LosingRound(), AfterLoss(s, i))
  {
    var m := System(AllDecode(n));
    RunBegins(n, s, i);
    RunProcesses(n, s, i);
    RunLoses(n, s, i);
    Then(m, Begun(s, i), [Next, Take, Process], Acknowledging(s, i), [Next, Ack(true, true), End], AfterLoss(s, i));
    Then(m, s, [Open(true), Append, Append], Begun(s, i), [Next, Take, Process] + [Next, Ack(true, true), End],
         AfterLoss(s, i));
  }

  // k rounds lead to t.
  ghost predicate Played(n: nat, k: nat, t: State) {
    LostRounds(t, k) && Leads(System(AllDecode(n)), INITIAL, LosingHistory(k), t)
  }

  lemma NothingPlayed(n: nat)
    ensures Played(n, 0, INITIAL)
  {
  }

  lemma OneRoundMore(n: nat, k: nat, u: State)
    requires 0 < k <= n && Played(n, k - 1, u)
    ensures Played(n, k, AfterLoss(u, k - 1))
  {
    RunRound(n, u, k - 1);
    Then(System(AllDecode(n)), INITIAL, LosingHistory(k - 1), u, LosingRound(), AfterLoss(u, k - 1));
  }

  lemma {:induction false} RunRounds(n: nat, k: nat) returns (t: State)
    requires k <= n
    ensures Played(n, k, t)
    decreases k
  {
    if k == 0 {
      t := INITIAL;
      NothingPlayed(n);
    } else {
      var u := RunRounds(n, k - 1);
      t := AfterLoss(u, k - 1);
      OneRoundMore(n, k, u);
    }
  }

  // For every n there is a history of n runs, all resuming from their tokens, in which every run
  // loses one event for good.
  lemma BoundIsReached(n: nat)
    ensures Valid(System(AllDecode(n)), INITIAL, LosingHistory(n))
    ensures var s := Exec(System(AllDecode(n)), INITIAL, LosingHistory(n));
            s.ended == n && s.passed == {} && |Lost(AllDecode(n), s)| == n
  {
    var s := RunRounds(n, n);
    assert Lost(AllDecode(n), s) == Odds(n);
  }

  // ---------------------------------------------------------------- No token: no bound

  function Appends(n: nat): seq<Action> {
    if n == 0 then [] else Appends(n - 1) + [Append]
  }

  lemma {:induction false} AppendMany(log: Log, s: State, n: nat)
    requires s.head + n <= |log|
    ensures Leads(System(log), s, Appends(n), s.(head := s.head + n))
  {
    if n > 0 {
      AppendMany(log, s, n - 1);
      OneMore(System(log), s, Appends(n - 1), s.(head := s.head + (n - 1)), Append);
    }
  }

  ghost function Decodable(log: Log): set<nat> {
    set i: nat | i < |log| && log[i]
  }

  // A run that opened on an empty log and ended at once; n events were written since.
  function NoToken(n: nat): State {
    INITIAL.(capture := Reading, begun := Some(0), ended := 1, head := n)
  }

  lemma RunsWithoutToken(log: Log)
    ensures Leads(System(log), INITIAL, [Open(true), End] + Appends(|log|), NoToken(|log|))
  {
    assert OpenStream(log, INITIAL, true).passed == {};
    TwoSteps(System(log), INITIAL, Open(true), End, NoToken(0));
    AppendMany(log, NoToken(0), |log|);
    Then(System(log), INITIAL, [Open(true), End], NoToken(0), Appends(|log|), NoToken(|log|));
  }

  lemma OpensPastAll(log: Log)
    ensures var s := OpenStream(log, NoToken(|log|), true); Lost(log, s) == s.passed == Decodable(log)
  {
    assert Unprocessed(log, NoToken(|log|), |log|) == Decodable(log);
    assert Unprocessed(log, NoToken(|log|), 0) == {};
  }

  // A run that ends before its first successful Ack leaves no token behind: every event written
  // until the next run starts is lost, however many there are.
  lemma WithoutTokenNothingIsKept(log: Log)
    ensures var acts := [Open(true), End] + Appends(|log|) + [Open(true)];
            && Valid(System(log), INITIAL, acts)
            && var s := Exec(System(log), INITIAL, acts);
               s.ended == 1 && s.processed == {} && Lost(log, s) == s.passed == Decodable(log)
  {
    RunsWithoutToken(log);
    OpensPastAll(log);
    OneMore(System(log), INITIAL, [Open(true), End] + Appends(|log|), NoToken(|log|), Open(true));
  }

  // ---------------------------------------------------------------- A failed load

  // A run opens with or without its token, one event is written, read, processed and acknowledged.
  function OneEvent(loads: bool): seq<Action> {
    [Open(loads), Append, Next] + [Take, Process, Ack(true, true)]
  }

  function Opened(s: State, passed: set<nat>): State {
    s.(running := true, capture := Reading, engine := Idle, first := s.head, begun := Some(0), passed := passed,
       floor := s.head, live := s.head)
  }

  function Acked(s: State, passed: set<nat>, floor: nat): State {
    Opened(s, passed).(head := s.head + 1, live := s.head + 1, stored := Some(s.head + 1),
                       processed := s.processed + {s.head}, floor := floor)
  }

  lemma RunOneEvent(log: Log, s: State, loads: bool)
    requires !s.running && s.head < |log| && log[s.head] && Base(s) == 0
    requires loads ==> s.stored.None? && s.head == 0
    ensures var passed := OpenStream(log, s, loads).passed;
            Leads(System(log), s, OneEvent(loads), Acked(s, passed, Covered(s)))
  {
    var m := System(log);
    var s1 := OpenStream(log, s, loads);
    var s3 := s1.(head := s.head + 1, live := s.head + 1, capture := Handing(s.head));
    ThreeSteps(m, s, Open(loads), Append, Next, s3);
    ThreeSteps(m, s3, Take, Process, Ack(true, true), Acked(s, s1.passed, Covered(s)));
    Then(m, s, [Open(loads), Append, Next], s3, [Take, Process, Ack(true, true)], Acked(s, s1.passed, Covered(s)));
  }

  // One acknowledged event, then n more while no run is active.
  function StoppedLate(n: nat): State {
    Acked(INITIAL, {}, 0).(running := false, ended := 1, head := n + 1)
  }

  lemma TokenThenAppends(log: Log, n: nat)
    requires n + 1 <= |log| && log[0]
    ensures Leads(System(log), INITIAL, (OneEvent(true) + [End]) + Appends(n), StoppedLate(n))
  {
    assert OpenStream(log, INITIAL, true).passed == {};
    RunOneEvent(log, INITIAL, true);
    OneMore(System(log), INITIAL, OneEvent(true), Acked(INITIAL, {}, 0), End);
    AppendMany(log, StoppedLate(0), n);
    Then(System(log), INITIAL, OneEvent(true) + [End], StoppedLate(0), Appends(n), StoppedLate(n));
  }

  function FailedLoadHistory(n: nat): seq<Action> {
    ((OneEvent(true) + [End]) + Appends(n)) + OneEvent(false)
  }

  lemma LostToFailedLoad(log: Log, end: State)
    requires |log| >= 2 && log[0] && log[|log| - 1]
    requires var s := StoppedLate(|log| - 2); end == Acked(s, OpenStream(log, s, false).passed, Covered(s))
    ensures end.ended == 1 && Lost(log, end) == end.passed == Decodable(log) - {0, |log| - 1}
  {
    var s := StoppedLate(|log| - 2);
    assert end.passed == Unprocessed(log, s, |log| - 1) - Unprocessed(log, s, 1);
  }

  // A token is stored, n more events are written while no run is active, and the next run fails to
  // load the token: the n events are lost as soon as that run acknowledges its own event, under
  // lockstep and with every save applied.
  lemma FailedLoadLoses(log: Log)
    requires |log| >= 2 && log[0] && log[|log| - 1]
    ensures Valid(System(log), INITIAL, FailedLoadHistory(|log| - 2))
    ensures var s := Exec(System(log), INITIAL, FailedLoadHistory(|log| - 2));
            s.ended == 1 && Lost(log, s) == s.passed == Decodable(log) - {0, |log| - 1}
  {
    var s := StoppedLate(|log| - 2);
    var end := Acked(s, OpenStream(log, s, false).passed, Covered(s));
    assert Leads(System(log), INITIAL, FailedLoadHistory(|log| - 2), end) by {
      TokenThenAppends(log, |log| - 2);
      RunOneEvent(log, s, false);
      Then(System(log), INITIAL, (OneEvent(true) + [End]) + Appends(|log| - 2), s, OneEvent(false), end);
    }
    LostToFailedLoad(log, end);
  }

  // ---------------------------------------------------------------- Errors end the run

  predicate Opens(s: State, a: Action) {
    a.Open?
  }

  predicate CaptureMoves(s: State, a: Action) {
    a.Next? || a.NextFails? || a.Take?
  }

  predicate EngineMoves(s: State, a: Action) {
    a.Take? || a.Process? || a.ProcessFails? || a.Ack?
  }

  // After a stream error nothing is read or handed over until the next opening.
  lemma CaptureErrorIsFinal(log: Log, s: State, acts: seq<Action>)
    requires Enabled(log, s, NextFails) && Valid(System(log), Step(log, s, NextFails), acts)
    requires Never(System(log), Opens, Step(log, s, NextFails), acts)
    ensures Never(System(log), CaptureMoves, Step(log, s, NextFails), acts)
  {
    Discipline(System(log), (t: State) => t.capture == Stopped, Opens, CaptureMoves, Step(log, s, NextFails), acts);
  }

  // After a transform, publish or Ack error the engine takes, processes and acknowledges nothing.
  lemma EngineErrorIsFinal(log: Log, s: State, a: Action, acts: seq<Action>)
    requires Enabled(log, s, a) && (a.ProcessFails? || (a.Ack? && !a.ok))
    requires Valid(System(log), Step(log, s, a), acts) && Never(System(log), Opens, Step(log, s, a), acts)
    ensures Never(System(log), EngineMoves, Step(log, s, a), acts)
  {
    Discipline(System(log), (t: State) => t.engine.Failed?, Opens, EngineMoves, Step(log, s, a), acts);
  }

  // A save that is applied stores the position the stream is at, one that is not stores nothing, and
  // no other step touches the token.
  lemma TokenIsLivePosition(log: Log, s: State, a: Action)
    requires Enabled(log, s, a)
    ensures Step(log, s, a).stored == if a.Ack? && a.applied then Some(s.live) else s.stored
  {
  }
}
