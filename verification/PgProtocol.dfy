// The Postgres acknowledgement protocol as a state machine: the capture goroutine
// (source/postgres/source/eventsManager.go), the engine loop (engine/core/engine.go) and the server,
// interleaved step by step over the shared LSN fields, across failed runs and process restarts.
module PgProtocol {
  import opened Prelude
  import opened Events
  import opened WalHandler
  import opened Histories

  // A row change in the log: the position at which its message ends, and the event id it decodes to.
  datatype WalEvent = WalEvent(pos: LSN, id: string)

  // ch carries only events with a non-empty id.
  predicate Deliverable(wal: seq<WalEvent>, i: nat) {
    i < |wal| && wal[i].id != ""
  }

  ghost predicate StreamOrdered(wal: seq<WalEvent>, slot: LSN) {
    && (forall i, j :: 0 <= i < j < |wal| ==> wal[i].pos < wal[j].pos)
    && (forall i :: 0 <= i < |wal| ==> slot < wal[i].pos)
  }

  // Program points of the capture goroutine: in ReceiveMessage, blocked on the unbuffered channel,
  // about to send a status, returned.
  datatype Capture = Receiving | Handing(i: nat) | Replying | Stopped

  // Program points of streamEvents/processEvent/Ack. AckReady: published or dropped, Ack not begun;
  // AckSending: ClientLSN assigned, status not sent; Failed: processEvent returned an error, with
  // the event that was not processed, if any.
  datatype EngineLoop = Idle | Working(i: nat) | AckReady | AckSending | Failed(event: Option<nat>)

  datatype State = State(
    lsn: Positions,
    capture: Capture,
    engine: EngineLoop,
    running: bool,
    first: nat,         // the first row change sent in this session
    next: nat,          // the row change the server sends next in this session
    high: LSN,          // the highest message position of this session
    sentMax: LSN,       // the largest status the server ever received
    published: set<nat>,
    dropped: set<nat>,
    ended: nat,         // runs that ended
    floor: LSN)         // the largest position held or confirmed when this run began

  function Initial(slot: LSN): State {
    State(Positions(0, 0), Stopped, Idle, false, 0, 0, slot, slot, {}, {}, 0, slot)
  }

  // How many leading row changes a position reaches.
  function Reach(wal: seq<WalEvent>, p: LSN): (n: nat)
    ensures n <= |wal|
  {
    if wal == [] || wal[|wal| - 1].pos <= p then |wal| else Reach(wal[..|wal| - 1], p)
  }

  lemma {:induction false} ReachIsPrefix(wal: seq<WalEvent>, p: LSN, slot: LSN)
    requires StreamOrdered(wal, slot)
    ensures forall i :: 0 <= i < |wal| ==> (i < Reach(wal, p) <==> wal[i].pos <= p)
  {
    if wal != [] && wal[|wal| - 1].pos > p {
      var shorter := wal[..|wal| - 1];
      ReachIsPrefix(shorter, p, slot);
      forall i | 0 <= i < |wal| ensures i < Reach(wal, p) <==> wal[i].pos <= p {
        if i < |wal| - 1 { assert shorter[i] == wal[i]; }
      }
    }
  }

  // ---------------------------------------------------------------- Actions

  datatype Action =
    | StartRun(resume: LSN, delivered: bool, ok: bool)
    | Receive(msg: BackendMessage)
    | ReceiveFails
    | Timeout(delivered: bool)
    | Reply(delivered: bool)
    | Take
    | Publish
    | Drop
    | ProcessFails
    | AckAssign
    | AckSend(delivered: bool, ok: bool)
    | EndRun
    | Restart

  // The assumption on the server's stream. Positions of WAL messages strictly increase within a
  // session, row changes come in log order, and no message, keepalives included, is positioned at
  // or past a row change that is still to be sent.
  predicate StreamAllows(wal: seq<WalEvent>, s: State, m: BackendMessage)
    requires s.next <= |wal|
  {
    && (IsXLog(m) ==> s.high < EndPosition(m))
    && (IsDml(m) ==> s.next < |wal| && EndPosition(m) == wal[s.next].pos)
    && (IsXLog(m) && !IsDml(m) && s.next < |wal| ==> EndPosition(m) < wal[s.next].pos)
    && (IsKeepalive(m) && s.next < |wal| ==> m.payload.serverWALEnd < wal[s.next].pos)
  }

  predicate Parses(m: BackendMessage) {
    !(m.CopyData? && (m.payload.NoBytes? || m.payload.Garbled?))
  }

  predicate Enabled(wal: seq<WalEvent>, s: State, a: Action) {
    match a
    case StartRun(resume, _, _) => !s.running && resume <= s.sentMax
    case Receive(m) => s.running && s.capture == Receiving && s.next <= |wal| && Parses(m) && StreamAllows(wal, s, m)
    case ReceiveFails => s.running && s.capture == Receiving
    case Timeout(_) => s.running && s.capture == Receiving
    case Reply(_) => s.running && s.capture == Replying
    case Take => s.running && s.capture.Handing? && s.engine == Idle
    case Publish => s.running && s.engine.Working?
    case Drop => s.running && s.engine.Working?
    case ProcessFails => s.running && s.engine.Working?
    case AckAssign => s.running && s.engine == AckReady
    case AckSend(_, _) => s.running && s.engine == AckSending
    case EndRun => s.running
    case Restart => !s.running
  }

  // SendStatus: the server remembers the largest status that reached it.
  function SendStatus(s: State, delivered: bool): State {
    if delivered then s.(sentMax := Max(s.sentMax, s.lsn.client)) else s
  }

  function AfterHandling(wal: seq<WalEvent>, s: State, m: BackendMessage): State
    requires s.next <= |wal| && StreamAllows(wal, s, m)
  {
    s.(lsn := AfterMessage(s.lsn, m),
       high := if IsXLog(m) then EndPosition(m) else s.high,
       next := if IsDml(m) then s.next + 1 else s.next,
       capture := if IsDml(m) && Deliverable(wal, s.next) then Handing(s.next)
                  else if RepliesTo(m) then Replying
                  else Receiving)
  }

  function Step(wal: seq<WalEvent>, s: State, a: Action): State
    requires Enabled(wal, s, a)
  {
    match a
    case StartRun(resume, delivered, ok) =>
      SendStatus(s.(running := true, capture := if ok then Receiving else Stopped, engine := Idle,
                    first := Reach(wal, resume), next := Reach(wal, resume), high := resume,
                    floor := Max(s.lsn.client, s.sentMax)), delivered)
    case Receive(m) => AfterHandling(wal, s, m)
    case ReceiveFails => s.(capture := Stopped)
    case Timeout(delivered) => SendStatus(s, delivered)
    case Reply(delivered) => SendStatus(s.(capture := Receiving), delivered)
    case Take => s.(capture := Replying, engine := Working(s.capture.i))
    case Publish => s.(engine := AckReady, published := s.published + {s.engine.i})
    case Drop => s.(engine := AckReady, dropped := s.dropped + {s.engine.i})
    case ProcessFails => s.(engine := Failed(Some(s.engine.i)))
    case AckAssign => s.(engine := AckSending, lsn := Positions(s.lsn.pending, s.lsn.pending))
    case AckSend(delivered, ok) => SendStatus(s.(engine := if ok then Idle else Failed(None)), delivered)
    case EndRun => s.(running := false, ended := s.ended + 1)
    case Restart => s.(lsn := Positions(0, 0))
  }

  function System(wal: seq<WalEvent>): Machine<State, Action> {
    Machine((s: State, a: Action) => Enabled(wal, s, a),
            (s: State, a: Action) => if Enabled(wal, s, a) then Step(wal, s, a) else s)
  }

  // ---------------------------------------------------------------- Exposure

  predicate Processed(s: State, i: nat) {
    i in s.published || i in s.dropped
  }

  // The largest position the server has been told or would be told next.
  function Confirmed(s: State): LSN {
    Max(s.lsn.client, s.sentMax)
  }

  // Deliverable events up to a position that were never processed: a server that resumes there
  // will not send them again.
  ghost function Unprocessed(wal: seq<WalEvent>, s: State, p: LSN): set<nat> {
    set i: nat | i < |wal| && Deliverable(wal, i) && wal[i].pos <= p && !Processed(s, i)
  }

  ghost function Exposed(wal: seq<WalEvent>, s: State): set<nat> {
    Unprocessed(wal, s, Confirmed(s))
  }

  // ---------------------------------------------------------------- The invariant

  // The unprocessed event on the engine's side, and the one blocked on the channel.
  function EngineHolds(s: State): Option<nat> {
    match s.engine
    case Working(i) => Some(i)
    case Failed(e) => e
    case _ => None
  }

  function ChannelHolds(s: State): Option<nat> {
    if s.capture.Handing? then Some(s.capture.i) else None
  }

  // high and next tell the same story about the session.
  ghost predicate SessionInv(wal: seq<WalEvent>, s: State) {
    && s.first <= s.next <= |wal|
    && (forall i :: 0 <= i < |wal| ==> (i < s.next <==> wal[i].pos <= s.high))
    && (forall i :: 0 <= i < s.first ==> wal[i].pos <= s.sentMax && wal[i].pos <= s.floor)
    && (forall e :: EngineHolds(s) == Some(e) ==> e < s.next && Deliverable(wal, e))
    && (forall h :: ChannelHolds(s) == Some(h) ==> h + 1 == s.next && Deliverable(wal, h))
    && (EngineHolds(s).Some? && ChannelHolds(s).Some? ==> EngineHolds(s).value < ChannelHolds(s).value)
  }

  // What was sent in this session and not yet processed is in flight.
  ghost predicate InFlightInv(wal: seq<WalEvent>, s: State) {
    forall i :: s.first <= i < s.next && Deliverable(wal, i) && !Processed(s, i) ==>
      EngineHolds(s) == Some(i) || ChannelHolds(s) == Some(i)
  }

  // Beyond the floor, only sent events are confirmed, and never the blocked one while the engine
  // still holds another.
  ghost predicate LeadInv(wal: seq<WalEvent>, s: State) {
    && (forall i :: 0 <= i < |wal| && s.floor < wal[i].pos <= Confirmed(s) ==>
          i < s.next && !(EngineHolds(s).Some? && ChannelHolds(s) == Some(i)))
    && (EngineHolds(s).Some? || ChannelHolds(s).Some? || s.engine == AckReady ==>
          forall i :: 0 <= i < |wal| && wal[i].pos <= s.lsn.pending ==> i < s.next)
    && (ChannelHolds(s).Some? ==> ChannelHolds(s).value < |wal| && s.lsn.pending == wal[ChannelHolds(s).value].pos)
  }

  ghost predicate RunInv(wal: seq<WalEvent>, s: State) {
    SessionInv(wal, s) && InFlightInv(wal, s) && LeadInv(wal, s)
  }

  ghost predicate Inv(wal: seq<WalEvent>, s: State) {
    if s.running then RunInv(wal, s) && |Unprocessed(wal, s, s.floor)| <= s.ended
    else |Exposed(wal, s)| <= s.ended
  }

  lemma FewerUnprocessed(wal: seq<WalEvent>, s: State, p: LSN, s': State, p': LSN)
    requires p' <= p
    requires forall i :: Processed(s, i) ==> Processed(s', i)
    ensures Unprocessed(wal, s', p') <= Unprocessed(wal, s, p)
    ensures |Unprocessed(wal, s', p')| <= |Unprocessed(wal, s, p)|
  {
    SubsetSize(Unprocessed(wal, s', p'), Unprocessed(wal, s, p));
  }

  // In every state of a run, whatever capture and engine did in which order, the confirmed
  // positions reach past at most one unprocessed event that was not already passed when the run
  // began: the one the engine holds or, if it holds none, the one blocked on the channel.
  lemma AtMostOneAhead(wal: seq<WalEvent>, s: State) returns (x: nat)
    requires s.running && RunInv(wal, s)
    ensures Exposed(wal, s) <= Unprocessed(wal, s, s.floor) + {x}
    ensures |Exposed(wal, s)| <= |Unprocessed(wal, s, s.floor)| + 1
    ensures EngineHolds(s) == Some(x) || (EngineHolds(s).None? && ChannelHolds(s) == Some(x))
            || Exposed(wal, s) <= Unprocessed(wal, s, s.floor)
  {
    x := EngineHolds(s).GetOr(ChannelHolds(s).GetOr(0));
    UnionSize(Exposed(wal, s), Unprocessed(wal, s, s.floor), {x});
  }

  lemma StartKeepsInv(wal: seq<WalEvent>, slot: LSN, s: State, a: Action)
    requires StreamOrdered(wal, slot) && Inv(wal, s) && Enabled(wal, s, a) && a.StartRun?
    ensures Inv(wal, Step(wal, s, a))
  {
    var s' := Step(wal, s, a);
    ReachIsPrefix(wal, a.resume, slot);
    FewerUnprocessed(wal, s, Confirmed(s), s', s'.floor);
    assert Confirmed(s') <= s'.floor;
  }

  lemma ReceiveRowKeepsSession(wal: seq<WalEvent>, slot: LSN, s: State, a: Action)
    requires StreamOrdered(wal, slot) && s.running && SessionInv(wal, s)
    requires Enabled(wal, s, a) && a.Receive? && IsDml(a.msg)
    ensures SessionInv(wal, Step(wal, s, a))
  {
    assert wal[s.next].pos == Step(wal, s, a).high;
  }

  lemma ReceiveRowKeepsInFlight(wal: seq<WalEvent>, s: State, a: Action)
    requires s.running && InFlightInv(wal, s) && Enabled(wal, s, a) && a.Receive? && IsDml(a.msg)
    ensures InFlightInv(wal, Step(wal, s, a))
  {
  }

  lemma ReceiveRowKeepsLead(wal: seq<WalEvent>, slot: LSN, s: State, a: Action)
    requires StreamOrdered(wal, slot) && s.running && RunInv(wal, s)
    requires Enabled(wal, s, a) && a.Receive? && IsDml(a.msg)
    ensures LeadInv(wal, Step(wal, s, a))
  {
    assert Confirmed(Step(wal, s, a)) == Confirmed(s);
  }

  lemma ReceiveOtherKeepsSession(wal: seq<WalEvent>, slot: LSN, s: State, a: Action)
    requires StreamOrdered(wal, slot) && s.running && RunInv(wal, s)
    requires Enabled(wal, s, a) && a.Receive? && !IsDml(a.msg)
    ensures var s' := Step(wal, s, a); SessionInv(wal, s') && InFlightInv(wal, s')
  {
  }

  lemma ReceiveOtherKeepsLead(wal: seq<WalEvent>, slot: LSN, s: State, a: Action)
    requires StreamOrdered(wal, slot) && s.running && RunInv(wal, s)
    requires Enabled(wal, s, a) && a.Receive? && !IsDml(a.msg)
    ensures LeadInv(wal, Step(wal, s, a))
  {
  }

  lemma ReceiveKeepsInv(wal: seq<WalEvent>, slot: LSN, s: State, a: Action)
    requires StreamOrdered(wal, slot) && Inv(wal, s) && Enabled(wal, s, a) && a.Receive?
    ensures Inv(wal, Step(wal, s, a))
  {
    assert RunInv(wal, Step(wal, s, a)) by {
      if IsDml(a.msg) {
        ReceiveRowKeepsSession(wal, slot, s, a);
        ReceiveRowKeepsInFlight(wal, s, a);
        ReceiveRowKeepsLead(wal, slot, s, a);
      } else {
        ReceiveOtherKeepsSession(wal, slot, s, a);
        ReceiveOtherKeepsLead(wal, slot, s, a);
      }
    }
    FewerUnprocessed(wal, s, s.floor, Step(wal, s, a), s.floor);
  }

  lemma SendStatusKeepsRunInv(wal: seq<WalEvent>, s: State, delivered: bool)
    requires RunInv(wal, s)
    ensures RunInv(wal, SendStatus(s, delivered))
  {
    assert Confirmed(SendStatus(s, delivered)) == Confirmed(s);
  }

  lemma MovingOnKeepsRunInv(wal: seq<WalEvent>, s: State, capture: Capture, engine: EngineLoop)
    requires RunInv(wal, s)
    requires capture == s.capture || (capture == Receiving && s.capture == Replying)
    requires engine == s.engine || (s.engine == AckSending && (engine == Idle || engine == Failed(None)))
    ensures RunInv(wal, s.(capture := capture, engine := engine))
  {
  }

  lemma SendKeepsInv(wal: seq<WalEvent>, s: State, a: Action)
    requires Inv(wal, s) && Enabled(wal, s, a)
    requires a.Timeout? || a.Reply? || a.AckSend?
    ensures Inv(wal, Step(wal, s, a))
  {
    var capture := if a.Reply? then Receiving else s.capture;
    var engine := if a.AckSend? then if a.ok then Idle else Failed(None) else s.engine;
    var moved := s.(capture := capture, engine := engine);
    assert RunInv(wal, SendStatus(moved, a.delivered)) by {
      MovingOnKeepsRunInv(wal, s, capture, engine);
      SendStatusKeepsRunInv(wal, moved, a.delivered);
    }
    assert Step(wal, s, a) == SendStatus(moved, a.delivered);
    FewerUnprocessed(wal, s, s.floor, Step(wal, s, a), s.floor);
  }

  lemma HandOverKeepsInv(wal: seq<WalEvent>, s: State, a: Action)
    requires Inv(wal, s) && Enabled(wal, s, a)
    requires a.ReceiveFails? || a.Take?
    ensures Inv(wal, Step(wal, s, a))
  {
    FewerUnprocessed(wal, s, s.floor, Step(wal, s, a), s.floor);
  }

  lemma ProcessingKeepsInv(wal: seq<WalEvent>, s: State, a: Action)
    requires Inv(wal, s) && Enabled(wal, s, a)
    requires a.Publish? || a.Drop? || a.ProcessFails?
    ensures Inv(wal, Step(wal, s, a))
  {
    FewerUnprocessed(wal, s, s.floor, Step(wal, s, a), s.floor);
  }

  lemma AckKeepsInv(wal: seq<WalEvent>, s: State, a: Action)
    requires Inv(wal, s) && Enabled(wal, s, a)
    requires a.AckAssign?
    ensures Inv(wal, Step(wal, s, a))
  {
    FewerUnprocessed(wal, s, s.floor, Step(wal, s, a), s.floor);
  }

  lemma EndKeepsInv(wal: seq<WalEvent>, s: State, a: Action)
    requires Inv(wal, s) && Enabled(wal, s, a)
    requires a.EndRun? || a.Restart?
    ensures Inv(wal, Step(wal, s, a))
  {
    var s' := Step(wal, s, a);
    FewerUnprocessed(wal, s, Confirmed(s), s', Confirmed(s'));
    if a.EndRun? {
      var x := AtMostOneAhead(wal, s);
    }
  }

  lemma StepKeepsInv(wal: seq<WalEvent>, slot: LSN, s: State, a: Action)
    requires StreamOrdered(wal, slot) && Inv(wal, s) && Enabled(wal, s, a)
    ensures Inv(wal, Step(wal, s, a))
  {
    if a.StartRun? { StartKeepsInv(wal, slot, s, a); }
    else if a.Receive? { ReceiveKeepsInv(wal, slot, s, a); }
    else if a.EndRun? || a.Restart? { EndKeepsInv(wal, s, a); }
    else if a.Timeout? || a.Reply? || a.AckSend? { SendKeepsInv(wal, s, a); }
    else if a.ReceiveFails? || a.Take? { HandOverKeepsInv(wal, s, a); }
    else if a.AckAssign? { AckKeepsInv(wal, s, a); }
    else { ProcessingKeepsInv(wal, s, a); }
  }

  ghost function InvOf(wal: seq<WalEvent>): State -> bool {
    s => Inv(wal, s)
  }

  lemma EveryHistoryKeepsInv(wal: seq<WalEvent>, slot: LSN, acts: seq<Action>)
    requires StreamOrdered(wal, slot) && Valid(System(wal), Initial(slot), acts)
    ensures Inv(wal, Exec(System(wal), Initial(slot), acts))
  {
    var m := System(wal);
    InitialInv(wal, slot);
    forall t, a | InvOf(wal)(t) && m.enabled(t, a) ensures InvOf(wal)(m.step(t, a)) {
      StepKeepsInv(wal, slot, t, a);
    }
    Invariant(m, InvOf(wal), Initial(slot), acts);
  }

  // ---------------------------------------------------------------- Main results

  lemma InitialInv(wal: seq<WalEvent>, slot: LSN)
    requires StreamOrdered(wal, slot)
    ensures Inv(wal, Initial(slot))
  {
    assert Exposed(wal, Initial(slot)) == {};
  }

  // Over any history of interleavings, failed runs, in-process retries and process restarts, the
  // deliverable events at or below what was confirmed that were never processed number at most the
  // runs that ended, plus one for the run in progress.
  lemma LossIsBoundedByRuns(wal: seq<WalEvent>, slot: LSN, acts: seq<Action>)
    requires StreamOrdered(wal, slot) && Valid(System(wal), Initial(slot), acts)
    ensures var s := Exec(System(wal), Initial(slot), acts);
            |Exposed(wal, s)| <= s.ended + if s.running then 1 else 0
  {
    EveryHistoryKeepsInv(wal, slot, acts);
    var s := Exec(System(wal), Initial(slot), acts);
    if s.running {
      var x := AtMostOneAhead(wal, s);
    }
  }

  // During a run, in every interleaving, at most one event is unprocessed yet confirmed, besides
  // those that already were when the run began: the one the engine, or else the channel, holds.
  lemma AtMostOneAheadAlways(wal: seq<WalEvent>, slot: LSN, acts: seq<Action>)
    requires StreamOrdered(wal, slot) && Valid(System(wal), Initial(slot), acts)
    requires Exec(System(wal), Initial(slot), acts).running
    ensures var s := Exec(System(wal), Initial(slot), acts);
            exists x :: && Exposed(wal, s) <= Unprocessed(wal, s, s.floor) + {x}
                        && (EngineHolds(s) == Some(x) || (EngineHolds(s).None? && ChannelHolds(s) == Some(x))
                            || Exposed(wal, s) <= Unprocessed(wal, s, s.floor))
  {
    EveryHistoryKeepsInv(wal, slot, acts);
    var x := AtMostOneAhead(wal, Exec(System(wal), Initial(slot), acts));
  }

  // Wherever the server resumes, every deliverable event it will not send again was processed at
  // least once, except at most one per run that ended.
  lemma ResumeSkipsAtMostOnePerRun(wal: seq<WalEvent>, slot: LSN, acts: seq<Action>, resume: LSN)
    requires StreamOrdered(wal, slot) && Valid(System(wal), Initial(slot), acts)
    requires var s := Exec(System(wal), Initial(slot), acts); !s.running && resume <= s.sentMax
    ensures var s := Exec(System(wal), Initial(slot), acts);
            && |Unprocessed(wal, s, resume)| <= s.ended
            && forall i :: 0 <= i < Reach(wal, resume) && Deliverable(wal, i) && !Processed(s, i) ==>
                 i in Unprocessed(wal, s, resume)
  {
    var s := Exec(System(wal), Initial(slot), acts);
    LossIsBoundedByRuns(wal, slot, acts);
    FewerUnprocessed(wal, s, Confirmed(s), s, resume);
    ReachIsPrefix(wal, resume, slot);
  }

  // ---------------------------------------------------------------- Statuses

  predicate SendsStatus(a: Action) {
    (a.StartRun? || a.Timeout? || a.Reply? || a.AckSend?) && a.delivered
  }

  // Every status carries ClientLSN and the server keeps the largest: after one that arrives, at the
  // start of a run, on a timeout, after a message and after Ack, the server knows what it knew and
  // the current position; without one it learns nothing.
  lemma StatusReachesServer(wal: seq<WalEvent>, s: State, a: Action)
    requires Enabled(wal, s, a)
    ensures var s' := Step(wal, s, a);
            && (SendsStatus(a) ==> s'.sentMax >= s.lsn.client && s'.sentMax >= s.sentMax &&
                                   s'.sentMax in {s.lsn.client, s.sentMax})
            && (!SendsStatus(a) ==> s'.sentMax == s.sentMax)
  {
  }

  predicate AssignsAck(s: State, a: Action) {
    a.AckAssign?
  }

  predicate RepliesOrEnds(s: State, a: Action) {
    a.Reply? || a.EndRun?
  }

  predicate CaptureActs(s: State, a: Action) {
    a.Receive? || a.ReceiveFails? || a.Timeout?
  }

  // Between a message that calls for a reply, handled in state k, and the reply, capture waits.
  // While no Ack came in between, ClientLSN is what it was.
  ghost predicate Unacked(k: State, s: State) {
    && s.running && s.capture == Replying && s.lsn == k.lsn
    && (s.sentMax == k.sentMax || (s.sentMax == Confirmed(k) && (s.engine == Idle || s.engine.Failed?)))
  }

  // After one, it is PendingLSN.
  ghost predicate AckedMeanwhile(k: State, s: State) {
    && s.running && s.capture == Replying && s.lsn == Positions(k.lsn.pending, k.lsn.pending)
    && (s.engine == AckSending || s.engine == Idle || s.engine.Failed?)
    && k.sentMax <= s.sentMax <= Max(k.sentMax, k.lsn.pending)
  }

  ghost function AwaitsReplyOf(k: State): State -> bool {
    s => Unacked(k, s) || AckedMeanwhile(k, s)
  }

  ghost function AckedMeanwhileOf(k: State): State -> bool {
    s => AckedMeanwhile(k, s)
  }

  lemma AwaitStep(wal: seq<WalEvent>, k: State, s: State, a: Action)
    requires Enabled(wal, s, a) && !a.Reply? && !a.EndRun?
    ensures Unacked(k, s) ==> if a.AckAssign? then AckedMeanwhile(k, Step(wal, s, a)) else Unacked(k, Step(wal, s, a))
    ensures AckedMeanwhile(k, s) ==> AckedMeanwhile(k, Step(wal, s, a))
  {
  }

  // A keepalive that asks for a reply: until the run ends, the next thing the capture side does is
  // to send a status, whatever the engine does meanwhile.
  lemma RequestIsAnsweredNext(wal: seq<WalEvent>, s: State, m: BackendMessage, acts: seq<Action>)
    requires Enabled(wal, s, Receive(m)) && IsKeepalive(m) && m.payload.replyRequested
    requires Valid(System(wal), Step(wal, s, Receive(m)), acts)
    requires Never(System(wal), RepliesOrEnds, Step(wal, s, Receive(m)), acts)
    ensures Never(System(wal), CaptureActs, Step(wal, s, Receive(m)), acts)
    ensures Enabled(wal, Exec(System(wal), Step(wal, s, Receive(m)), acts), Reply(true))
  {
    var k := Step(wal, s, Receive(m));
    Discipline(System(wal), AwaitsReplyOf(k), RepliesOrEnds, CaptureActs, k, acts);
  }

  // Whether that status, if it arrives, covers the position the keepalive named: always, unless Ack
  // put ClientLSN back to a smaller PendingLSN in between and the server was never told more.
  lemma AnswerCoversExactly(wal: seq<WalEvent>, s: State, m: BackendMessage, acts: seq<Action>)
    requires Enabled(wal, s, Receive(m)) && IsKeepalive(m) && m.payload.replyRequested
    requires Valid(System(wal), Step(wal, s, Receive(m)), acts)
    requires Never(System(wal), RepliesOrEnds, Step(wal, s, Receive(m)), acts)
    ensures var k := Step(wal, s, Receive(m));
            var answered := System(wal).step(Exec(System(wal), k, acts), Reply(true));
            answered.sentMax >= m.payload.serverWALEnd <==>
            || Never(System(wal), AssignsAck, k, acts)
            || s.lsn.pending >= m.payload.serverWALEnd || s.sentMax >= m.payload.serverWALEnd
  {
    var k, m' := Step(wal, s, Receive(m)), Without(System(wal), RepliesOrEnds);
    RequestIsAnsweredNext(wal, s, m, acts);
    StaysWithout(System(wal), RepliesOrEnds, AssignsAck, k, acts);
    forall t, a | AwaitsReplyOf(k)(t) && m'.enabled(t, a)
      ensures AwaitsReplyOf(k)(m'.step(t, a))
      ensures AssignsAck(t, a) || AckedMeanwhileOf(k)(t) ==> AckedMeanwhileOf(k)(m'.step(t, a))
    {
      assert System(wal).enabled(t, a) && !RepliesOrEnds(t, a);
      AwaitStep(wal, k, t, a);
    }
    Lasting(m', AwaitsReplyOf(k), AssignsAck, AckedMeanwhileOf(k), k, acts);
    if Never(System(wal), AssignsAck, k, acts) {
      UnackedThroughout(wal, k, acts);
    }
  }

  ghost function UnackedOf(k: State): State -> bool {
    s => Unacked(k, s)
  }

  lemma UnackedThroughout(wal: seq<WalEvent>, k: State, acts: seq<Action>)
    requires Unacked(k, k) && Valid(System(wal), k, acts)
    requires Never(System(wal), RepliesOrEnds, k, acts) && Never(System(wal), AssignsAck, k, acts)
    ensures Unacked(k, Exec(System(wal), k, acts))
  {
    StaysWithout(System(wal), RepliesOrEnds, AssignsAck, k, acts);
    var m' := Without(System(wal), RepliesOrEnds);
    forall t, a | Unacked(k, t) && m'.enabled(t, a) && !AssignsAck(t, a) ensures Unacked(k, m'.step(t, a)) {
      assert System(wal).enabled(t, a) && !RepliesOrEnds(t, a);
      AwaitStep(wal, k, t, a);
    }
    Discipline(m', UnackedOf(k), AssignsAck, AssignsAck, k, acts);
  }

  // ---------------------------------------------------------------- Errors end the run

  predicate Starts(s: State, a: Action) {
    a.StartRun?
  }

  predicate CaptureMoves(s: State, a: Action) {
    a.Receive? || a.ReceiveFails? || a.Timeout? || a.Reply? || a.Take?
  }

  predicate EngineMoves(s: State, a: Action) {
    a.Take? || a.Publish? || a.Drop? || a.ProcessFails? || a.AckAssign? || a.AckSend?
  }

  // After a receive or handle error nothing is received, reported or handed over until the next run.
  lemma CaptureErrorIsFinal(wal: seq<WalEvent>, s: State, acts: seq<Action>)
    requires Enabled(wal, s, ReceiveFails) && Valid(System(wal), Step(wal, s, ReceiveFails), acts)
    requires Never(System(wal), Starts, Step(wal, s, ReceiveFails), acts)
    ensures Never(System(wal), CaptureMoves, Step(wal, s, ReceiveFails), acts)
  {
    Discipline(System(wal), (t: State) => t.capture == Stopped, Starts, CaptureMoves, Step(wal, s, ReceiveFails), acts);
  }

  // After a transform, publish or Ack error the engine takes, processes and acknowledges nothing.
  lemma EngineErrorIsFinal(wal: seq<WalEvent>, s: State, a: Action, acts: seq<Action>)
    requires Enabled(wal, s, a) && (a.ProcessFails? || (a.AckSend? && !a.ok))
    requires Valid(System(wal), Step(wal, s, a), acts) && Never(System(wal), Starts, Step(wal, s, a), acts)
    ensures Never(System(wal), EngineMoves, Step(wal, s, a), acts)
  {
    Discipline(System(wal), (t: State) => t.engine.Failed?, Starts, EngineMoves, Step(wal, s, a), acts);
  }
}
