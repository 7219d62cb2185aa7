// The WAL message handler: LSN bookkeeping, relation cache and tuple decoding
// (source/postgres/walHandlers/handlers.go).
module WalHandler {
  import opened Prelude
  import opened Events

  // One value of a tuple. Kind 'n' is SQL null, 'u' an unchanged TOAST value.
  datatype Column = Column(kind: char, data: string) {
    predicate Present() { kind != 'n' && kind != 'u' }
  }

  datatype Relation = Relation(id: nat, name: string, columns: seq<string>)

  // Parsed logical replication messages; a nil tuple is None.
  datatype Logical =
    | RelationMessage(rel: Relation)
    | InsertMessage(relId: nat, tuple: Option<seq<Column>>)
    | UpdateMessage(relId: nat, tuple: Option<seq<Column>>)
    | DeleteMessage(relId: nat, tuple: Option<seq<Column>>)
    | BeginMessage
    | CommitMessage
    | OtherLogical

  // What the first byte of a CopyData payload selects.
  datatype CopyPayload =
    | NoBytes
    | Keepalive(serverWALEnd: LSN, replyRequested: bool)
    | XLogData(walStart: LSN, length: nat, body: Logical)
    | Garbled
    | OtherByte

  datatype BackendMessage = CopyData(payload: CopyPayload) | NotCopyData

  // Panic stands for a Go index-out-of-range, which ends the process.
  datatype Failure = ParseError | SaveFailed | RelationMissing | NilTuple | Panic

  datatype HandleResult = HandleResult(reply: bool, event: Event)

  // What the persistence store does during one call: a save that reports an error may still have
  // been applied; a load may fail.
  datatype StoreIO = StoreIO(saveReportsOk: bool, saveAppliedAnyway: bool, loadOk: bool) {
    predicate Applied() { saveReportsOk || saveAppliedAnyway }
  }

  datatype HandlerState = HandlerState(client: LSN, pending: LSN, relations: map<nat, Relation>,
                                       store: Option<map<nat, Relation>>)

  // ---------------------------------------------------------------- LSN effect

  predicate IsDml(m: BackendMessage) {
    m.CopyData? && m.payload.XLogData? &&
    (m.payload.body.InsertMessage? || m.payload.body.UpdateMessage? || m.payload.body.DeleteMessage?)
  }

  // Messages whose own position is confirmed as soon as they are handled.
  predicate IsSelfConfirming(m: BackendMessage) {
    m.CopyData? && m.payload.XLogData? &&
    (m.payload.body.RelationMessage? || m.payload.body.BeginMessage? || m.payload.body.CommitMessage?)
  }

  predicate IsXLog(m: BackendMessage) { m.CopyData? && m.payload.XLogData? }

  predicate IsKeepalive(m: BackendMessage) { m.CopyData? && m.payload.Keepalive? }

  function EndPosition(m: BackendMessage): LSN
    requires IsXLog(m)
  {
    m.payload.walStart + m.payload.length
  }

  // The pair (ClientLSN, PendingLSN).
  datatype Positions = Positions(client: LSN, pending: LSN)

  // Where handling a message without error leaves the two positions.
  function AfterMessage(p: Positions, m: BackendMessage): Positions {
    if IsKeepalive(m) then p.(client := Max(p.client, m.payload.serverWALEnd))
    else if IsSelfConfirming(m) then p.(client := EndPosition(m))
    else if IsDml(m) then p.(pending := EndPosition(m))
    else p
  }

  predicate RepliesTo(m: BackendMessage) {
    IsXLog(m) || (IsKeepalive(m) && m.payload.replyRequested)
  }

  // ---------------------------------------------------------------- Tuple decoding

  // The last present value, scanning the first |cols| columns, stored under the given name.
  function LastValue(names: seq<string>, cols: seq<Column>, name: string): Option<string> {
    if cols == [] then None
    else
      var i := |cols| - 1;
      if cols[i].Present() && i < |names| && names[i] == name then Some(cols[i].data)
      else LastValue(names, cols[..i], name)
  }

  // A present value without a column name: the Go loop indexes past rel.Columns.
  predicate Overruns(names: seq<string>, cols: seq<Column>) {
    exists i :: |names| <= i < |cols| && cols[i].Present()
  }

  function DecodeTuple(rel: Relation, tuple: Option<seq<Column>>, op: Operation): Result<Event, Failure> {
    if tuple.None? then Err(NilTuple)
    else if Overruns(rel.columns, tuple.value) then Err(Panic)
    else Ok(Event(LastValue(rel.columns, tuple.value, "id").GetOr(""), rel.name, op,
                  LastValue(rel.columns, tuple.value, "event_type").GetOr(""),
                  LastValue(rel.columns, tuple.value, "payload"), map[]))
  }

  // With distinct column names, a value is found exactly at its name's index, whatever the order.
  lemma {:induction false} ValueAtItsName(names: seq<string>, cols: seq<Column>, j: nat)
    requires forall a, b :: 0 <= a < b < |names| ==> names[a] != names[b]
    requires j < |names|
    ensures LastValue(names, cols, names[j]) ==
            if j < |cols| && cols[j].Present() then Some(cols[j].data) else None
  {
    if cols != [] {
      var i := |cols| - 1;
      ValueAtItsName(names, cols[..i], j);
    }
  }

  lemma {:induction false} NoValueWithoutName(names: seq<string>, cols: seq<Column>, name: string)
    requires name !in names
    ensures LastValue(names, cols, name) == None
  {
    if cols != [] {
      NoValueWithoutName(names, cols[..|cols| - 1], name);
    }
  }

  // The value the tuple holds at the index that carries the name, if it is there and present.
  ghost function ValueOf(names: seq<string>, cols: seq<Column>, name: string): Option<string> {
    if exists j :: 0 <= j < |names| && j < |cols| && names[j] == name && cols[j].Present() then
      var j :| 0 <= j < |names| && j < |cols| && names[j] == name && cols[j].Present();
      Some(cols[j].data)
    else None
  }

  ghost predicate DistinctNames(names: seq<string>) {
    forall a, b :: 0 <= a < b < |names| ==> names[a] != names[b]
  }

  lemma ScanFindsValue(names: seq<string>, cols: seq<Column>, name: string)
    requires DistinctNames(names)
    ensures LastValue(names, cols, name) == ValueOf(names, cols, name)
  {
    if name in names {
      var j :| 0 <= j < |names| && names[j] == name;
      ValueAtItsName(names, cols, j);
      assert forall k :: 0 <= k < |names| && names[k] == name ==> k == j;
    } else {
      NoValueWithoutName(names, cols, name);
    }
  }

  // With distinct column names, in any order and among any others, the event carries exactly the
  // values stored under id, event_type and payload; nulls, unchanged values and absent columns
  // decode to empty.
  lemma DecodedFields(rel: Relation, cols: seq<Column>, op: Operation)
    requires DistinctNames(rel.columns) && !Overruns(rel.columns, cols)
    ensures DecodeTuple(rel, Some(cols), op) ==
            Ok(Event(ValueOf(rel.columns, cols, "id").GetOr(""), rel.name, op,
                     ValueOf(rel.columns, cols, "event_type").GetOr(""), ValueOf(rel.columns, cols, "payload"), map[]))
  {
    ScanFindsValue(rel.columns, cols, "id");
    ScanFindsValue(rel.columns, cols, "event_type");
    ScanFindsValue(rel.columns, cols, "payload");
  }

  // ---------------------------------------------------------------- The handler as a function

  function LookUp(h: HandlerState, id: nat, io: StoreIO): Option<Relation> {
    if id in h.relations then Some(h.relations[id])
    else if h.store.Some? && io.loadOk && id in h.store.value then Some(h.store.value[id])
    else None
  }

  function BuildEvent(h: HandlerState, id: nat, tuple: Option<seq<Column>>, op: Operation, io: StoreIO)
    : (HandlerState, Result<Event, Failure>)
  {
    var found := LookUp(h, id, io);
    if found.None? then (h, Err(RelationMissing))
    else (h.(relations := h.relations[id := found.value]), DecodeTuple(found.value, tuple, op))
  }

  function OperationOf(body: Logical): Operation {
    match body
    case InsertMessage(_, _) => Insert
    case UpdateMessage(_, _) => Update
    case DeleteMessage(_, _) => Delete
    case _ => Unset
  }

  function SaveRelation(h: HandlerState, rel: Relation, io: StoreIO): HandlerState {
    h.(relations := h.relations[rel.id := rel],
       store := if h.store.Some? && io.Applied() then Some(h.store.value[rel.id := rel]) else h.store)
  }

  // One handled message: the new handler state and what HandleMessage returns.
  function Handle(h: HandlerState, m: BackendMessage, io: StoreIO)
    : (HandlerState, Result<HandleResult, Failure>)
  {
    if IsDml(m) then
      var (built, ev) := BuildEvent(h, m.payload.body.relId, m.payload.body.tuple, OperationOf(m.payload.body), io);
      if ev.Err? then (built, Err(ev.error))
      else (built.(pending := EndPosition(m)), Ok(HandleResult(true, ev.value)))
    else if IsXLog(m) && m.payload.body.RelationMessage? then
      var saved := SaveRelation(h, m.payload.body.rel, io);
      if h.store.Some? && !io.saveReportsOk then (saved, Err(SaveFailed))
      else (saved.(client := EndPosition(m)), Ok(HandleResult(true, NO_EVENT)))
    else if m.CopyData? && m.payload.NoBytes? then (h, Err(Panic))
    else if m.CopyData? && m.payload.Garbled? then (h, Err(ParseError))
    else
      var after := AfterMessage(Positions(h.client, h.pending), m);
      (h.(client := after.client, pending := after.pending), Ok(HandleResult(RepliesTo(m), NO_EVENT)))
  }

  // Positions move only on success, and then exactly as AfterMessage says; a rejected message
  // leaves both where they were, so nothing is confirmed for it.
  lemma PositionsMoveOnlyOnSuccess(h: HandlerState, m: BackendMessage, io: StoreIO)
    ensures var (h', r) := Handle(h, m, io);
            && Positions(h'.client, h'.pending) ==
               (if r.Ok? then AfterMessage(Positions(h.client, h.pending), m) else Positions(h.client, h.pending))
            && (r.Ok? ==> r.value.reply == RepliesTo(m))
            && (r.Ok? && r.value.event.id != "" ==> IsDml(m) && h'.pending == EndPosition(m) && h'.client == h.client)
  {
  }

  // Which accepted messages a status must follow: a keepalive exactly if it asks for one, every WAL
  // message, and nothing else.
  lemma RepliesExactly(h: HandlerState, m: BackendMessage, io: StoreIO)
    requires Handle(h, m, io).1.Ok?
    ensures Handle(h, m, io).1.value.reply <==>
            (m.CopyData? && (m.payload.XLogData? || (m.payload.Keepalive? && m.payload.replyRequested)))
  {
  }

  // Where an accepted message leaves ClientLSN and PendingLSN: a keepalive raises ClientLSN to its
  // position and never lowers it, relation, begin and commit messages set it to where they end, a
  // row sets PendingLSN to where it ends; all else stays.
  lemma PositionsExactly(h: HandlerState, m: BackendMessage, io: StoreIO)
    requires Handle(h, m, io).1.Ok?
    ensures var h' := Handle(h, m, io).0;
            match m {
              case CopyData(Keepalive(end, _)) =>
                h'.pending == h.pending && h'.client >= h.client && h'.client >= end && h'.client in {h.client, end}
              case CopyData(XLogData(start, length, body)) =>
                if body.RelationMessage? || body.BeginMessage? || body.CommitMessage? then
                  h'.client == start + length && h'.pending == h.pending
                else if body.OtherLogical? then h'.client == h.client && h'.pending == h.pending
                else h'.client == h.client && h'.pending == start + length
              case _ => h'.client == h.client && h'.pending == h.pending
            }
  {
  }

  // A known relation decodes every tuple but a missing one, and one that has a value at an index
  // without a column name.
  lemma DecodingFailsExactly(rel: Relation, tuple: Option<seq<Column>>, op: Operation)
    ensures DecodeTuple(rel, tuple, op) == Err(NilTuple) <==> tuple.None?
    ensures DecodeTuple(rel, tuple, op) == Err(Panic) <==>
            tuple.Some? && exists i :: |rel.columns| <= i < |tuple.value| &&
                                       tuple.value[i].kind != 'n' && tuple.value[i].kind != 'u'
    ensures DecodeTuple(rel, tuple, op).Err? ==> DecodeTuple(rel, tuple, op).error in {NilTuple, Panic}
  {
    if tuple.Some? && exists i :: |rel.columns| <= i < |tuple.value| && tuple.value[i].kind != 'n' &&
                                  tuple.value[i].kind != 'u' {
      var i :| |rel.columns| <= i < |tuple.value| && tuple.value[i].kind != 'n' && tuple.value[i].kind != 'u';
      assert tuple.value[i].Present();
    }
  }

  // A relation that a row needed once is kept: no later row of it in this process needs the store,
  // whatever loads fail.
  lemma LoadedRelationIsKept(h: HandlerState, m: BackendMessage, io: StoreIO, again: BackendMessage, io': StoreIO)
    requires IsDml(m) && IsDml(again) && again.payload.body.relId == m.payload.body.relId
    requires Handle(h, m, io).1 != Err(RelationMissing)
    ensures Handle(Handle(h, m, io).0, again, io').1 != Err(RelationMissing)
  {
  }

  // ---------------------------------------------------------------- The handler as an object

  class WalHandlers {
    var ClientLSN: LSN
    var PendingLSN: LSN
    var relations: map<nat, Relation>
    // The "relation:<id>" keys of the persistence store; None is a nil Persistor.
    var persistor: Option<map<nat, Relation>>

    constructor ()
      ensures View() == HandlerState(0, 0, map[], None)
    {
      ClientLSN, PendingLSN, relations, persistor := 0, 0, map[], None;
    }

    function View(): HandlerState
      reads this
    {
      HandlerState(ClientLSN, PendingLSN, relations, persistor)
    }

    method HandleMessage(msg: BackendMessage, io: StoreIO) returns (r: Result<HandleResult, Failure>)
      modifies this
      ensures (View(), r) == Handle(old(View()), msg, io)
    {
      if msg.CopyData? {
        r := HandleCopyData(msg.payload, io);
      } else {
        r := Ok(HandleResult(false, NO_EVENT));
      }
    }

    method HandleCopyData(data: CopyPayload, io: StoreIO) returns (r: Result<HandleResult, Failure>)
      modifies this
      ensures (View(), r) == Handle(old(View()), CopyData(data), io)
    {
      match data {
        case NoBytes => r := Err(Panic);
        case Garbled => r := Err(ParseError);
        case Keepalive(end, requested) =>
          if end > ClientLSN {
            ClientLSN := end;
          }
          r := Ok(HandleResult(requested, NO_EVENT));
        case XLogData(start, length, body) => r := HandleXLogData(start, length, body, io);
        case OtherByte => r := Ok(HandleResult(false, NO_EVENT));
      }
    }

    method HandleXLogData(start: LSN, length: nat, body: Logical, io: StoreIO)
      returns (r: Result<HandleResult, Failure>)
      modifies this
      ensures (View(), r) == Handle(old(View()), CopyData(XLogData(start, length, body)), io)
    {
      var lsn := start + length;
      var ev := NO_EVENT;
      match body {
        case RelationMessage(rel) =>
          relations := relations[rel.id := rel];
          if persistor.Some? {
            if io.Applied() {
              persistor := Some(persistor.value[rel.id := rel]);
            }
            if !io.saveReportsOk {
              return Err(SaveFailed);
            }
          }
          ClientLSN := lsn;
        case InsertMessage(id, tuple) =>
          var built := BuildEventFromTuple(id, tuple, Insert, io);
          if built.Err? { return Err(built.error); }
          ev := built.value;
          PendingLSN := lsn;
        case UpdateMessage(id, tuple) =>
          var built := BuildEventFromTuple(id, tuple, Update, io);
          if built.Err? { return Err(built.error); }
          ev := built.value;
          PendingLSN := lsn;
        case DeleteMessage(id, tuple) =>
          var built := BuildEventFromTuple(id, tuple, Delete, io);
          if built.Err? { return Err(built.error); }
          ev := built.value;
          PendingLSN := lsn;
        case BeginMessage => ClientLSN := lsn;
        case CommitMessage => ClientLSN := lsn;
        case OtherLogical =>
      }
      r := Ok(HandleResult(true, ev));
    }

    method BuildEventFromTuple(relationID: nat, tuple: Option<seq<Column>>, op: Operation, io: StoreIO)
      returns (r: Result<Event, Failure>)
      modifies this`relations
      ensures (View(), r) == BuildEvent(old(View()), relationID, tuple, op, io)
    {
      var rel: Relation;
      if relationID in relations {
        rel := relations[relationID];
        assert relations == relations[relationID := rel];
      } else {
        if persistor.None? || !io.loadOk || relationID !in persistor.value {
          return Err(RelationMissing);
        }
        rel := persistor.value[relationID];
        relations := relations[relationID := rel];
      }
      if tuple.None? {
        return Err(NilTuple);
      }
      var cols := tuple.value;
      var id, eventType, payload := "", "", None;
      for i := 0 to |cols|
        invariant !Overruns(rel.columns, cols[..i])
        invariant id == LastValue(rel.columns, cols[..i], "id").GetOr("")
        invariant eventType == LastValue(rel.columns, cols[..i], "event_type").GetOr("")
        invariant payload == LastValue(rel.columns, cols[..i], "payload")
      {
        assert cols[..i + 1][..i] == cols[..i];
        if !cols[i].Present() {
          continue;
        }
        if i >= |rel.columns| {
          return Err(Panic);
        }
        var name := rel.columns[i];
        if name == "id" {
          id := cols[i].data;
        } else if name == "event_type" {
          eventType := cols[i].data;
        } else if name == "payload" {
          payload := Some(cols[i].data);
        }
      }
      assert cols[..|cols|] == cols;
      r := Ok(Event(id, rel.name, op, eventType, payload, map[]));
    }
  }
}
