// The Mongo source as the code runs it: opening the change stream, its read loop and Ack. Each method
// takes the protocol steps of its goroutine (source/mongo/source/eventsManager.go).
module MongoSource {
  import opened Prelude
  import opened Histories
  import P = MongoProtocol

  class MongoRelaySource {
    // The persistence store's resume token; hasStore is false for a nil store.
    const hasStore: bool
    var token: Option<nat>
    // The open change stream's position; None before the first CaptureEvents.
    var cs: Option<nat>
    ghost var protocol: P.State

    ghost predicate Valid()
      reads this
    {
      && protocol.stored == token && (!hasStore ==> token == None)
      && (protocol.running ==> cs == Some(protocol.live))
    }

    constructor (hasStore: bool)
      ensures Valid() && protocol == P.INITIAL && this.hasStore == hasStore
    {
      this.hasStore, token, cs := hasStore, None, None;
      protocol := P.INITIAL;
    }

    // Resumes after the loaded token, or, without one, from what the log ends with now. If the
    // stream does not open, no run begins.
    method CaptureEvents(ghost log: P.Log, loadOk: bool, openOk: bool, head: nat) returns (err: bool)
      requires Valid() && !protocol.running && head == protocol.head
      modifies this
      ensures Valid() && err == !openOk
      ensures protocol == if openOk then P.Step(log, old(protocol), P.Open(loadOk)) else old(protocol)
      ensures token == old(token) && (!openOk ==> cs == old(cs))
    {
      var resume: Option<nat> := None;
      if hasStore && loadOk && token.Some? {
        resume := token;
      }
      if !openOk {
        return true;
      }
      cs := Some(if resume.Some? then resume.value else head);
      protocol := P.Step(log, protocol, P.Open(loadOk));
      err := false;
    }

    // Reads what the log holds by now until one event decodes; returns the index to hand over.
    method ReadUntilEvent(log: P.Log, head: nat) returns (event: Option<nat>, ghost acts: seq<P.Action>)
      requires Valid() && protocol.running && protocol.capture == P.Reading
      requires protocol.live <= head == protocol.head <= |log|
      modifies this
      ensures Valid()
      ensures Leads(P.System(log), old(protocol), acts, protocol)
      ensures forall a :: a in acts ==> a == P.Next
      ensures event.Some? ==> protocol.capture == P.Handing(event.value)
      ensures event.None? ==> protocol.capture == P.Reading && protocol.live == head
      ensures protocol.live <= head == protocol.head
      ensures forall i :: old(protocol.live) <= i < protocol.live && event != Some(i) ==> !log[i]
    {
      acts, event := [], None;
      while event.None? && cs.value < head
        invariant Valid() && protocol.running && protocol.live <= head == protocol.head
        invariant old(protocol.live) <= protocol.live
        invariant Leads(P.System(log), old(protocol), acts, protocol)
        invariant forall a :: a in acts ==> a == P.Next
        invariant event.Some? ==> protocol.capture == P.Handing(event.value)
        invariant event.None? ==> protocol.capture == P.Reading
        invariant forall i :: old(protocol.live) <= i < protocol.live && event != Some(i) ==> !log[i]
        decreases event.None?, head - cs.value
      {
        OneMore(P.System(log), old(protocol), acts, protocol, P.Next);
        acts := acts + [P.Next];
        var i := cs.value;
        cs := Some(i + 1);
        protocol := P.Step(log, protocol, P.Next);
        if log[i] {
          event := Some(i);
        }
      }
    }

    // Saves the live position of the stream; nothing to do without a store or a stream.
    method Ack(ghost log: P.Log, applied: bool, ok: bool) returns (err: bool)
      requires Valid() && P.Enabled(log, protocol, P.Ack(applied, ok))
      modifies this
      ensures Valid()
      ensures protocol == P.Step(log, old(protocol), if hasStore then P.Ack(applied, ok) else P.Ack(false, true))
      ensures err == (hasStore && !ok)
    {
      if !hasStore || cs.None? {
        protocol := P.Step(log, protocol, P.Ack(false, true));
        return false;
      }
      if applied {
        token := cs;
      }
      protocol := P.Step(log, protocol, P.Ack(applied, ok));
      err := !ok;
    }
  }
}
