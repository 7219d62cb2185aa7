// When the Postgres protocol keeps the at-least-once promise: the exact condition, and the lockstep
// schedules that meet it.
module PgDelivery {
  import opened Prelude
  import opened Events
  import opened WalHandler
  import opened Histories
  import opened PgProtocol

  // No deliverable event is confirmed, or about to be, before it was processed.
  ghost predicate Lossless(wal: seq<WalEvent>, s: State) {
    Exposed(wal, s) == {}
  }

  // A step that confirms too early: capture confirms a message's own position, or a keepalive
  // position, that reaches the event the engine still holds; or Ack runs while capture has handled
  // one more event, which waits on the channel. Redelivered events that an earlier run processed
  // do not count.
  predicate Premature(wal: seq<WalEvent>, s: State, a: Action) {
    match a
    case Receive(m) =>
      && EngineHolds(s).Some? && EngineHolds(s).value < |wal| && !Processed(s, EngineHolds(s).value)
      && (IsSelfConfirming(m) || (IsKeepalive(m) && wal[EngineHolds(s).value].pos <= m.payload.serverWALEnd))
    case AckAssign => ChannelHolds(s).Some? && !Processed(s, ChannelHolds(s).value)
    case _ => false
  }

  lemma ReceiveExact(wal: seq<WalEvent>, slot: LSN, s: State, a: Action)
    requires StreamOrdered(wal, slot) && Inv(wal, s) && Lossless(wal, s) && Enabled(wal, s, a) && a.Receive?
    ensures Lossless(wal, Step(wal, s, a)) <==> !Premature(wal, s, a)
  {
    var s' := Step(wal, s, a);
    if Premature(wal, s, a) {
      var e := EngineHolds(s).value;
      assert e in Exposed(wal, s');
    } else {
      forall i: nat | Deliverable(wal, i) && !Processed(s, i) ensures Confirmed(s') < wal[i].pos {
        assert i !in Exposed(wal, s);
        assert s.next < i ==> wal[s.next].pos < wal[i].pos;
      }
    }
  }

  lemma AckExact(wal: seq<WalEvent>, slot: LSN, s: State, a: Action)
    requires StreamOrdered(wal, slot) && Inv(wal, s) && Lossless(wal, s) && Enabled(wal, s, a) && a.AckAssign?
    ensures Lossless(wal, Step(wal, s, a)) <==> !Premature(wal, s, a)
  {
    var s' := Step(wal, s, a);
    if Premature(wal, s, a) {
      assert ChannelHolds(s).value in Exposed(wal, s');
    } else {
      forall i: nat | Deliverable(wal, i) && !Processed(s, i) ensures Confirmed(s') < wal[i].pos {
        assert i !in Exposed(wal, s);
      }
    }
  }

  // One step of any reachable, still lossless state loses the guarantee exactly if it is premature.
  lemma StepExact(wal: seq<WalEvent>, slot: LSN, s: State, a: Action)
    requires StreamOrdered(wal, slot) && Inv(wal, s) && Lossless(wal, s) && Enabled(wal, s, a)
    ensures Lossless(wal, Step(wal, s, a)) <==> !Premature(wal, s, a)
  {
    if a.Receive? { ReceiveExact(wal, slot, s, a); }
    else if a.AckAssign? { AckExact(wal, slot, s, a); }
    else {
      FewerUnprocessed(wal, s, Confirmed(s), Step(wal, s, a), Confirmed(Step(wal, s, a)));
    }
  }

  ghost function LosslessOf(wal: seq<WalEvent>): State -> bool {
    s => Lossless(wal, s)
  }

  function PrematureOf(wal: seq<WalEvent>): (State, Action) -> bool {
    (s, a) => Premature(wal, s, a)
  }

  // A history never confirms an unprocessed event, at any of its states, exactly if none of its
  // steps is premature.
  lemma LosslessExactlyWhenNeverPremature(wal: seq<WalEvent>, slot: LSN, acts: seq<Action>)
    requires StreamOrdered(wal, slot) && Valid(System(wal), Initial(slot), acts)
    ensures Always(System(wal), LosslessOf(wal), Initial(slot), acts)
            <==> Never(System(wal), PrematureOf(wal), Initial(slot), acts)
    ensures Never(System(wal), PrematureOf(wal), Initial(slot), acts) ==>
              Lossless(wal, Exec(System(wal), Initial(slot), acts))
  {
    var m, inv, ok, bad := System(wal), InvOf(wal), LosslessOf(wal), PrematureOf(wal);
    InitialInv(wal, slot);
    forall t, a | inv(t) && ok(t) && m.enabled(t, a)
      ensures inv(m.step(t, a)) && (ok(m.step(t, a)) <==> !bad(t, a))
    {
      StepKeepsInv(wal, slot, t, a);
      StepExact(wal, slot, t, a);
    }
    Exact(m, inv, ok, bad, Initial(slot), acts);
  }

  // At-least-once: without premature steps, over any number of failed runs and restarts, wherever
  // the server resumes it sends every deliverable event that was not processed yet; and an event
  // whose transform or publish just failed lies above everything confirmed.
  lemma AtLeastOnce(wal: seq<WalEvent>, slot: LSN, acts: seq<Action>)
    requires StreamOrdered(wal, slot) && Valid(System(wal), Initial(slot), acts)
    requires Never(System(wal), PrematureOf(wal), Initial(slot), acts)
    ensures var s := Exec(System(wal), Initial(slot), acts);
            && (forall i: nat, resume: LSN :: resume <= s.sentMax && Deliverable(wal, i) && !Processed(s, i) ==>
                  Reach(wal, resume) <= i)
            && (s.running ==> forall e: nat :: s.engine == Failed(Some(e)) && !Processed(s, e) ==>
                  e < |wal| && Confirmed(s) < wal[e].pos)
  {
    LosslessExactlyWhenNeverPremature(wal, slot, acts);
    EveryHistoryKeepsInv(wal, slot, acts);
    var s := Exec(System(wal), Initial(slot), acts);
    forall i: nat, resume: LSN | resume <= s.sentMax && Deliverable(wal, i) && !Processed(s, i)
      ensures Reach(wal, resume) <= i
    {
      ReachIsPrefix(wal, resume, slot);
      assert i !in Exposed(wal, s);
    }
    if s.running && s.engine.Failed? && s.engine.event.Some? {
      assert EngineHolds(s) == s.engine.event;
      assert s.engine.event.value !in Exposed(wal, s);
    }
  }

  // ---------------------------------------------------------------- Lockstep schedules

  // A message is handled although the engine has not finished the previous event, publish and Ack
  // included.
  predicate Overlaps(s: State, a: Action) {
    a.Receive? && s.engine != Idle
  }

  ghost predicate Lockstep(wal: seq<WalEvent>, s: State, acts: seq<Action>) {
    Never(System(wal), Overlaps, s, acts)
  }

  predicate ChannelFreeWhileBusy(s: State) {
    s.running && s.engine != Idle ==> !s.capture.Handing?
  }

  lemma LockstepNeverPremature(wal: seq<WalEvent>, s: State, acts: seq<Action>)
    requires Valid(System(wal), s, acts) && Lockstep(wal, s, acts) && ChannelFreeWhileBusy(s)
    ensures Never(System(wal), PrematureOf(wal), s, acts)
  {
    Discipline(System(wal), ChannelFreeWhileBusy, Overlaps, PrematureOf(wal), s, acts);
  }

  lemma AtLeastOnceUnderLockstep(wal: seq<WalEvent>, slot: LSN, acts: seq<Action>)
    requires StreamOrdered(wal, slot) && Valid(System(wal), Initial(slot), acts)
    requires Lockstep(wal, Initial(slot), acts)
    ensures var s := Exec(System(wal), Initial(slot), acts);
            && (forall i: nat, resume: LSN :: resume <= s.sentMax && Deliverable(wal, i) && !Processed(s, i) ==>
                  Reach(wal, resume) <= i)
            && (s.running ==> forall e: nat :: s.engine == Failed(Some(e)) && !Processed(s, e) ==>
                  e < |wal| && Confirmed(s) < wal[e].pos)
  {
    LockstepNeverPremature(wal, Initial(slot), acts);
    AtLeastOnce(wal, slot, acts);
  }

  // ---------------------------------------------------------------- Replay-stable chains

  // The chain drops an event that is to be kept, or keeps one that is to be dropped.
  function MisdecidesOf(keep: set<nat>): (State, Action) -> bool {
    (s: State, a: Action) =>
      s.engine.Working? && ((a.Drop? && s.engine.i in keep) || (a.Publish? && s.engine.i !in keep))
  }

  // The transform chain decides every event the same way at every delivery.
  ghost predicate ChainDecides(wal: seq<WalEvent>, s: State, acts: seq<Action>, keep: set<nat>) {
    Never(System(wal), MisdecidesOf(keep), s, acts)
  }

  function SeparatedOf(keep: set<nat>): State -> bool {
    (s: State) => s.dropped !! keep && s.published <= keep
  }

  // Under lockstep and a chain that decides alike on redelivery, no event to be kept is skipped by
  // any resume before all producers took it, and nothing else is ever published.
  lemma KeptEventsArePublished(wal: seq<WalEvent>, slot: LSN, acts: seq<Action>, keep: set<nat>, resume: LSN)
    requires StreamOrdered(wal, slot) && Valid(System(wal), Initial(slot), acts)
    requires Lockstep(wal, Initial(slot), acts) && ChainDecides(wal, Initial(slot), acts, keep)
    requires resume <= Exec(System(wal), Initial(slot), acts).sentMax
    ensures forall i: nat :: i < Reach(wal, resume) && Deliverable(wal, i) && i in keep ==>
              i in Exec(System(wal), Initial(slot), acts).published
    ensures Exec(System(wal), Initial(slot), acts).published <= keep
  {
    Discipline(System(wal), SeparatedOf(keep), MisdecidesOf(keep), MisdecidesOf(keep), Initial(slot), acts);
    LockstepNeverPremature(wal, Initial(slot), acts);
    AtLeastOnce(wal, slot, acts);
  }
}
