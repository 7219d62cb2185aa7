// The relation cache with its persisted fallback, over whole histories of messages, replication
// sessions and process restarts, against a decoder that has no cache at all
// (source/postgres/walHandlers/handlers.go:154-216).
module RelationCache {
  import opened Prelude
  import opened Events
  import opened WalHandler

  // A process restart discards the handler but not the persistence store; an in-process retry
  // begins a new replication session with the same handler.
  datatype Entry = Restart | NewSession | Receive(msg: BackendMessage, io: StoreIO)

  function Fresh(store: Option<map<nat, Relation>>): HandlerState {
    HandlerState(0, 0, map[], store)
  }

  function StepEntry(h: HandlerState, e: Entry): HandlerState {
    match e
    case Restart => Fresh(h.store)
    case NewSession => h
    case Receive(m, io) => Handle(h, m, io).0
  }

  function RunHistory(persisting: bool, hist: seq<Entry>): HandlerState {
    if hist == [] then Fresh(if persisting then Some(map[]) else None)
    else StepEntry(RunHistory(persisting, hist[..|hist| - 1]), hist[|hist| - 1])
  }

  // ---------------------------------------------------------------- The cacheless reference

  predicate Announces(e: Entry, id: nat) {
    e.Receive? && IsXLog(e.msg) && e.msg.payload.body.RelationMessage? && e.msg.payload.body.rel.id == id
  }

  // The latest relation message for the id, anywhere in the history.
  function Latest(hist: seq<Entry>, id: nat): Option<Relation> {
    if hist == [] then None
    else
      var e := hist[|hist| - 1];
      if Announces(e, id) then Some(e.msg.payload.body.rel) else Latest(hist[..|hist| - 1], id)
  }

  // The latest one since the process last started.
  function SinceRestart(hist: seq<Entry>, id: nat): Option<Relation> {
    if hist == [] || hist[|hist| - 1].Restart? then None
    else
      var e := hist[|hist| - 1];
      if Announces(e, id) then Some(e.msg.payload.body.rel) else SinceRestart(hist[..|hist| - 1], id)
  }

  // The latest one that reached the persistence store.
  function LatestSaved(hist: seq<Entry>, id: nat): Option<Relation> {
    if hist == [] then None
    else
      var e := hist[|hist| - 1];
      if Announces(e, id) && e.io.Applied() then Some(e.msg.payload.body.rel)
      else LatestSaved(hist[..|hist| - 1], id)
  }

  // What a decoder may know about a relation at the end of a history.
  function Known(persisting: bool, hist: seq<Entry>, id: nat): Option<Relation> {
    var seen := SinceRestart(hist, id);
    if seen.Some? then seen
    else if persisting then LatestSaved(hist, id)
    else None
  }

  // The result of a message as a pure function of the history: no cache, no fallback, no reload.
  function ReferenceResult(known: Option<Relation>, persisting: bool, m: BackendMessage, io: StoreIO)
    : Result<HandleResult, Failure>
  {
    if IsDml(m) then
      if known.None? then Err(RelationMissing)
      else
        var ev := DecodeTuple(known.value, m.payload.body.tuple, OperationOf(m.payload.body));
        if ev.Err? then Err(ev.error) else Ok(HandleResult(true, ev.value))
    else if m.CopyData? && m.payload.NoBytes? then Err(Panic)
    else if m.CopyData? && m.payload.Garbled? then Err(ParseError)
    else if IsXLog(m) && m.payload.body.RelationMessage? && persisting && !io.saveReportsOk then Err(SaveFailed)
    else Ok(HandleResult(RepliesTo(m), NO_EVENT))
  }

  // ---------------------------------------------------------------- Refinement

  ghost predicate CacheInvAt(persisting: bool, hist: seq<Entry>, h: HandlerState, id: nat) {
    && h.store.Some? == persisting
    && (id in h.relations ==> Known(persisting, hist, id) == Some(h.relations[id]))
    && (SinceRestart(hist, id).Some? ==> id in h.relations)
    && (persisting ==> LatestSaved(hist, id) == if id in h.store.value then Some(h.store.value[id]) else None)
  }

  ghost predicate CacheInv(persisting: bool, hist: seq<Entry>, h: HandlerState) {
    forall id :: CacheInvAt(persisting, hist, h, id)
  }

  // How the reference definitions change with one more entry.
  lemma OneMoreEntry(hist: seq<Entry>, e: Entry, id: nat)
    ensures SinceRestart(hist + [e], id) ==
            if e.Restart? then None
            else if Announces(e, id) then Some(e.msg.payload.body.rel)
            else SinceRestart(hist, id)
    ensures LatestSaved(hist + [e], id) ==
            if Announces(e, id) && e.io.Applied() then Some(e.msg.payload.body.rel) else LatestSaved(hist, id)
  {
    assert (hist + [e])[..|hist + [e]| - 1] == hist;
  }

  lemma CacheStep(persisting: bool, hist: seq<Entry>, h: HandlerState, e: Entry, id: nat)
    requires CacheInvAt(persisting, hist, h, id)
    ensures CacheInvAt(persisting, hist + [e], StepEntry(h, e), id)
  {
    OneMoreEntry(hist, e, id);
  }

  lemma {:induction false} CacheHolds(persisting: bool, hist: seq<Entry>)
    ensures CacheInv(persisting, hist, RunHistory(persisting, hist))
  {
    if hist != [] {
      var n := |hist| - 1;
      CacheHolds(persisting, hist[..n]);
      forall id: nat ensures CacheInvAt(persisting, hist[..n] + [hist[n]], RunHistory(persisting, hist), id) {
        CacheStep(persisting, hist[..n], RunHistory(persisting, hist[..n]), hist[n], id);
      }
      assert hist[..n] + [hist[n]] == hist;
    }
  }

  // The relation would have to be loaded, and the load fails.
  predicate LoadNeededAndFails(hist: seq<Entry>, m: BackendMessage, io: StoreIO) {
    IsDml(m) && !io.loadOk && SinceRestart(hist, m.payload.body.relId).None?
  }

  // After any history, whatever was restarted and whichever saves failed, the caching handler
  // answers the next message as the cacheless decoder does; a failing load can at most turn the
  // answer into an error, and only for a relation not announced since the process started.
  lemma CacheRefinesDecoder(persisting: bool, hist: seq<Entry>, m: BackendMessage, io: StoreIO)
    ensures var r := Handle(RunHistory(persisting, hist), m, io).1;
            || r == ReferenceResult(if IsDml(m) then Known(persisting, hist, m.payload.body.relId) else None,
                                    persisting, m, io)
            || (LoadNeededAndFails(hist, m, io) && r == Err(RelationMissing))
  {
    CacheHolds(persisting, hist);
    assert IsDml(m) ==> CacheInvAt(persisting, hist, RunHistory(persisting, hist), m.payload.body.relId);
    assert CacheInvAt(persisting, hist, RunHistory(persisting, hist), 0);
  }

  // Every announced relation of this id was stored when it arrived.
  predicate SavesReachStore(hist: seq<Entry>, id: nat) {
    forall k :: 0 <= k < |hist| && Announces(hist[k], id) ==> hist[k].io.Applied()
  }

  lemma {:induction false} SavedIsLatest(hist: seq<Entry>, id: nat)
    requires SavesReachStore(hist, id)
    ensures LatestSaved(hist, id) == Latest(hist, id)
  {
    if hist != [] {
      var n := |hist| - 1;
      if !Announces(hist[n], id) {
        SavedIsLatest(hist[..n], id);
      }
    }
  }

  lemma {:induction false} SeenIsLatest(hist: seq<Entry>, id: nat)
    requires SinceRestart(hist, id).Some?
    ensures Latest(hist, id) == SinceRestart(hist, id)
  {
    var n := |hist| - 1;
    if !Announces(hist[n], id) {
      SeenIsLatest(hist[..n], id);
    }
  }

  // With a store that keeps what it is given, restarts anywhere are invisible: every row is
  // decoded with the latest relation message ever received for its id.
  lemma RestartsAreInvisible(hist: seq<Entry>, m: BackendMessage, io: StoreIO)
    requires IsDml(m) && SavesReachStore(hist, m.payload.body.relId)
    ensures var r := Handle(RunHistory(true, hist), m, io).1;
            || r == ReferenceResult(Latest(hist, m.payload.body.relId), true, m, io)
            || (LoadNeededAndFails(hist, m, io) && r == Err(RelationMissing))
  {
    var id := m.payload.body.relId;
    CacheRefinesDecoder(true, hist, m, io);
    SavedIsLatest(hist, id);
    if SinceRestart(hist, id).Some? {
      SeenIsLatest(hist, id);
    }
  }

  // ---------------------------------------------------------------- A server that announces again

  // The relation was announced in the session that is open at the end of the history.
  ghost predicate AnnouncedThisSession(hist: seq<Entry>, id: nat) {
    exists k :: 0 <= k < |hist| && Announces(hist[k], id)
                && forall j :: k < j < |hist| ==> hist[j].Receive?
  }

  lemma {:induction false} AnnouncedSinceRestart(hist: seq<Entry>, id: nat, k: nat)
    requires k < |hist| && Announces(hist[k], id) && forall j :: k < j < |hist| ==> hist[j].Receive?
    ensures SinceRestart(hist, id).Some?
  {
    var n := |hist| - 1;
    if k < n {
      AnnouncedSinceRestart(hist[..n], id, k);
    }
  }

  // A row whose relation was announced in its own session is decoded with the latest relation
  // message for its id, whatever saves and loads fail, with or without a store.
  lemma AnnouncedRowsUseLatest(persisting: bool, hist: seq<Entry>, m: BackendMessage, io: StoreIO)
    requires IsDml(m) && AnnouncedThisSession(hist, m.payload.body.relId)
    ensures Handle(RunHistory(persisting, hist), m, io).1 ==
            ReferenceResult(Latest(hist, m.payload.body.relId), persisting, m, io)
  {
    var id := m.payload.body.relId;
    var k :| 0 <= k < |hist| && Announces(hist[k], id) && forall j :: k < j < |hist| ==> hist[j].Receive?;
    AnnouncedSinceRestart(hist, id, k);
    SeenIsLatest(hist, id);
    CacheRefinesDecoder(persisting, hist, m, io);
  }

  // A server that sends the relation message before the first row of a relation in every session.
  ghost predicate ServerAnnounces(hist: seq<Entry>) {
    forall k :: 0 <= k < |hist| && hist[k].Receive? && IsDml(hist[k].msg) ==>
      AnnouncedThisSession(hist[..k], hist[k].msg.payload.body.relId)
  }

  // Then the cache, its fallback and its failures are invisible throughout: every row of the
  // history is answered as the decoder with the latest relation message answers it.
  lemma EveryRowUsesLatest(persisting: bool, hist: seq<Entry>, k: nat)
    requires ServerAnnounces(hist) && k < |hist| && hist[k].Receive? && IsDml(hist[k].msg)
    ensures Handle(RunHistory(persisting, hist[..k]), hist[k].msg, hist[k].io).1 ==
            ReferenceResult(Latest(hist[..k], hist[k].msg.payload.body.relId), persisting, hist[k].msg, hist[k].io)
  {
    AnnouncedRowsUseLatest(persisting, hist[..k], hist[k].msg, hist[k].io);
  }

  // ---------------------------------------------------------------- A server that does not

  // Entry k announces the relation last, its save was refused, the process restarted afterwards,
  // and the store still holds something else.
  ghost predicate Forgotten(hist: seq<Entry>, id: nat, k: int) {
    && 0 <= k < |hist| && Announces(hist[k], id) && !hist[k].io.Applied()
    && (forall j :: k < j < |hist| ==> !Announces(hist[j], id))
    && (exists j :: k < j < |hist| && hist[j].Restart?)
    && LatestSaved(hist[..k], id) != Some(hist[k].msg.payload.body.rel)
  }

  // Without announcements after k, the scans stop at entry k.
  lemma {:induction false} ScanToLast(hist: seq<Entry>, id: nat, k: nat)
    requires k < |hist| && Announces(hist[k], id)
    requires forall j :: k < j < |hist| ==> !Announces(hist[j], id)
    ensures Latest(hist, id) == Some(hist[k].msg.payload.body.rel)
    ensures SinceRestart(hist, id) ==
            if exists j :: k < j < |hist| && hist[j].Restart? then None else Some(hist[k].msg.payload.body.rel)
    ensures LatestSaved(hist, id) ==
            if hist[k].io.Applied() then Some(hist[k].msg.payload.body.rel) else LatestSaved(hist[..k], id)
  {
    var n := |hist| - 1;
    if k < n {
      ScanToLast(hist[..n], id, k);
      assert hist[..n][..k] == hist[..k];
      assert forall j :: 0 <= j < n ==> hist[..n][j] == hist[j];
      if exists j :: k < j < n && hist[j].Restart? {
        var j :| k < j < n && hist[j].Restart?;
        assert hist[..n][j].Restart?;
      }
    }
  }

  lemma {:induction false} NeverAnnounced(hist: seq<Entry>, id: nat)
    requires forall j :: 0 <= j < |hist| ==> !Announces(hist[j], id)
    ensures Latest(hist, id) == SinceRestart(hist, id) == LatestSaved(hist, id) == None
  {
    if hist != [] {
      NeverAnnounced(hist[..|hist| - 1], id);
    }
  }

  lemma {:induction false} LastAnnouncement(hist: seq<Entry>, id: nat) returns (k: int)
    ensures k == -1 ==> forall j :: 0 <= j < |hist| ==> !Announces(hist[j], id)
    ensures k != -1 ==> 0 <= k < |hist| && Announces(hist[k], id)
                        && forall j :: k < j < |hist| ==> !Announces(hist[j], id)
  {
    k := |hist| - 1;
    while k >= 0 && !Announces(hist[k], id)
      invariant -1 <= k < |hist|
      invariant forall j :: k < j < |hist| ==> !Announces(hist[j], id)
    {
      k := k - 1;
    }
  }

  // For a relation not announced again, the handler works with an outdated relation in exactly one
  // situation: the store refused the latest announcement and holds another one, and the process
  // restarted after it.
  lemma OutdatedExactlyWhenForgotten(hist: seq<Entry>, id: nat)
    ensures Known(true, hist, id) != Latest(hist, id) <==> exists k :: Forgotten(hist, id, k)
  {
    var k := LastAnnouncement(hist, id);
    if k == -1 {
      NeverAnnounced(hist, id);
    } else {
      ScanToLast(hist, id, k);
      assert forall j :: Forgotten(hist, id, j) ==> j == k;
      if Known(true, hist, id) != Latest(hist, id) {
        assert Forgotten(hist, id, k);
      }
    }
  }

  lemma ThreeEntries(a: Entry, b: Entry, c: Entry)
    ensures RunHistory(true, [a, b, c]) == StepEntry(StepEntry(StepEntry(Fresh(Some(map[])), a), b), c)
  {
    assert [a, b, c][..2] == [a, b] && [a, b][..1] == [a] && [a][..0] == [];
    assert RunHistory(true, []) == Fresh(Some(map[]));
    assert RunHistory(true, [a]) == StepEntry(RunHistory(true, []), a);
    assert RunHistory(true, [a, b]) == StepEntry(RunHistory(true, [a]), b);
  }

  function Announce(at: LSN, rel: Relation, stored: bool): Entry {
    Receive(CopyData(XLogData(at, 0, RelationMessage(rel))), StoreIO(stored, false, true))
  }

  // Without a new announcement the fallback can mislead. The columns of a relation change places,
  // the save of the new relation fails, the process restarts: the next row is decoded with the old
  // order, and a value of another column is taken for the event id.
  lemma UnsavedRelationMisdecodes(before: Relation, after: Relation, row: seq<Column>, x: LSN, y: LSN, z: LSN)
    requires before.id == after.id && before.columns == ["id", "event_type"] && after.columns == ["event_type", "id"]
    requires |row| == 2 && row[0].Present() && row[1].Present() && row[0].data != row[1].data
    ensures var hist := [Announce(x, before, true), Announce(y, after, false), Restart];
            var m := CopyData(XLogData(z, 0, InsertMessage(before.id, Some(row))));
            var io := StoreIO(true, false, true);
            && Latest(hist, before.id) == Some(after) && !AnnouncedThisSession(hist, before.id)
            && DecodeTuple(after, Some(row), Insert).Ok?
            && DecodeTuple(after, Some(row), Insert).value.id == row[1].data
            && Handle(RunHistory(true, hist), m, io).1.Ok?
            && Handle(RunHistory(true, hist), m, io).1.value.event.id == row[0].data
  {
    var a, b := Announce(x, before, true), Announce(y, after, false);
    ThreeEntries(a, b, Restart);
    assert [a, b, Restart][..2] == [a, b] && [a, b][..1] == [a];
    assert Latest([a, b], before.id) == Some(after);
    assert "id" != "event_type" by { assert |"id"| != |"event_type"|; }
    ValueAtItsName(before.columns, row, 0);
    ValueAtItsName(after.columns, row, 1);
  }
}
