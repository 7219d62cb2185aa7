// The Postgres source as the code runs it: one iteration of the capture loop, the status updates and
// Ack, over the WAL handler object. Each method takes the steps of the protocol that its goroutine
// takes (source/postgres/source/eventsManager.go).
module PgSource {
  import opened Prelude
  import opened Events
  import opened WalHandler
  import P = PgProtocol

  class PgRelaySource {
    const walHandler: WalHandlers
    // The largest status the server received.
    var serverMax: LSN
    // The state of the protocol these objects are in.
    ghost var protocol: P.State

    ghost predicate Valid()
      reads this, walHandler
    {
      && protocol.lsn == Positions(walHandler.ClientLSN, walHandler.PendingLSN)
      && protocol.sentMax == serverMax
    }

    constructor (slot: LSN)
      ensures Valid() && fresh(walHandler) && protocol == P.Initial(slot)
      ensures walHandler.View() == HandlerState(0, 0, map[], None)
    {
      walHandler := new WalHandlers();
      serverMax := slot;
      protocol := P.Initial(slot);
    }

    // A status carries ClientLSN; the server keeps the largest one it gets.
    method SendStatus(delivered: bool)
      requires Valid()
      modifies this
      ensures Valid() && protocol == P.SendStatus(old(protocol), delivered)
    {
      if delivered && serverMax < walHandler.ClientLSN {
        serverMax := walHandler.ClientLSN;
      }
      protocol := P.SendStatus(protocol, delivered);
    }

    // One received message, up to the hand-over: returns the event to send on the channel, if any,
    // and whether a status is due afterwards. An error ends the goroutine.
    method HandleReceived(ghost wal: seq<P.WalEvent>, msg: BackendMessage, io: StoreIO)
      returns (ok: bool, event: Option<Event>, reply: bool)
      requires Valid() && protocol.running && protocol.capture == P.Receiving && protocol.next <= |wal|
      requires P.Parses(msg) ==> P.StreamAllows(wal, protocol, msg)
      // What a row decodes to does not depend on the session it is sent in.
      requires IsDml(msg) ==>
                 var r := Handle(walHandler.View(), msg, io).1; r.Ok? ==> r.value.event.id == wal[protocol.next].id
      modifies this, walHandler
      ensures Valid() && (ok ==> P.Parses(msg))
      ensures protocol == P.Step(wal, old(protocol), if ok then P.Receive(msg) else P.ReceiveFails)
      ensures event.Some? <==> protocol.capture.Handing?
      ensures ok && event.None? ==> (reply <==> protocol.capture == P.Replying)
      ensures event.Some? ==> reply && event.value.id == wal[protocol.capture.i].id
    {
      PositionsMoveOnlyOnSuccess(walHandler.View(), msg, io);
      ghost var before := walHandler.View();
      var r := walHandler.HandleMessage(msg, io);
      if r.Err? {
        protocol := P.Step(wal, protocol, P.ReceiveFails);
        return false, None, false;
      }
      protocol := P.Step(wal, protocol, P.Receive(msg));
      ok, reply := true, r.value.reply;
      event := if r.value.event.id != "" then Some(r.value.event) else None;
    }

    // The receive timeout, and the status after a message.
    method TimedOut(ghost wal: seq<P.WalEvent>, delivered: bool)
      requires Valid() && P.Enabled(wal, protocol, P.Timeout(delivered))
      modifies this
      ensures Valid() && protocol == P.Step(wal, old(protocol), P.Timeout(delivered))
    {
      SendStatus(delivered);
    }

    method SendReply(ghost wal: seq<P.WalEvent>, delivered: bool)
      requires Valid() && P.Enabled(wal, protocol, P.Reply(delivered))
      modifies this
      ensures Valid() && protocol == P.Step(wal, old(protocol), P.Reply(delivered))
    {
      protocol := protocol.(capture := P.Receiving);
      SendStatus(delivered);
    }

    // Called by the engine after a successful publish or a drop; ok is whether SendStatus reported
    // an error.
    method Ack(ghost wal: seq<P.WalEvent>, delivered: bool, ok: bool) returns (err: bool)
      requires Valid() && P.Enabled(wal, protocol, P.AckAssign)
      modifies this, walHandler
      ensures Valid() && err == !ok
      ensures protocol == P.Step(wal, P.Step(wal, old(protocol), P.AckAssign), P.AckSend(delivered, ok))
      ensures walHandler.View() == old(walHandler.View()).(client := old(walHandler.PendingLSN))
    {
      walHandler.ClientLSN := walHandler.PendingLSN;
      protocol := P.Step(wal, protocol, P.AckAssign);
      protocol := protocol.(engine := if ok then P.Idle else P.Failed(None));
      SendStatus(delivered);
      err := !ok;
    }
  }
}
