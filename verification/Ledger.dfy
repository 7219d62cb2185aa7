// What becomes of events that a transform chain and the producers see again and again: which were
// published, which were dropped, and exactly when a wanted event misses the producers
// (engine/core/engine.go:279-311, engine/transform/transform.go:48-66). The chain records an id
// before the event is published, and knows events by their ids only.
module Ledger {
  import opened Prelude
  import opened Events
  import opened Histories
  import opened Transform

  // The chain with its stores, and the events, by index, published by all producers or dropped.
  datatype Book = Book(stages: seq<Stage>, published: set<nat>, dropped: set<nat>)

  // Attempt: the chain runs on event i, and if it keeps it, all producers take it (ok) or not. A
  // process killed between the two looks like a publish that failed. Rebuilt: a process restart.
  datatype Entry = Attempt(i: nat, faults: seq<Fault>, ok: bool) | Rebuilt | Other

  function Result(evs: seq<Event>, b: Book, i: nat, faults: seq<Fault>): (seq<Stage>, Verdict)
    requires i < |evs|
  {
    RunChain(b.stages, evs[i], faults)
  }

  predicate Possible(evs: seq<Event>, e: Entry) {
    e.Attempt? ==> e.i < |evs|
  }

  function Write(evs: seq<Event>, b: Book, e: Entry): Book
    requires Possible(evs, e)
  {
    match e
    case Attempt(i, faults, ok) =>
      var (stages', v) := Result(evs, b, i, faults);
      Book(stages', if v.Keep? && ok then b.published + {i} else b.published,
           if v.Drop? then b.dropped + {i} else b.dropped)
    case Rebuilt => b.(stages := Rebuild(b.stages))
    case Other => b
  }

  function Books(evs: seq<Event>): Machine<Book, Entry> {
    Machine((b: Book, e: Entry) => Possible(evs, e),
            (b: Book, e: Entry) => if Possible(evs, e) then Write(evs, b, e) else b)
  }

  // ---------------------------------------------------------------- When an id is spent

  // Some of the targets, which are events with one id, was published.
  predicate AnyPublished(b: Book, targets: set<nat>) {
    targets * b.published != {}
  }

  predicate HaveId(evs: seq<Event>, targets: set<nat>, id: string) {
    forall j :: j in targets ==> j < |evs| && evs[j].id == id
  }

  // An attempt spends the id: it records the id in a deduplication store but does not publish one of
  // the targets. A stage behind the store drops the event or fails, the save reports an error
  // although it was applied, a producer refuses the event, or the event is not a target.
  predicate Spends(evs: seq<Event>, id: string, targets: set<nat>, b: Book, e: Entry) {
    && e.Attempt? && e.i < |evs| && evs[e.i].id == id
    && var (stages', v) := Result(evs, b, e.i, e.faults);
       Records(b.stages, stages', id) && !(e.i in targets && v.Keep? && e.ok)
  }

  function SpendsOf(evs: seq<Event>, id: string, targets: set<nat>): (Book, Entry) -> bool {
    (b, e) => Spends(evs, id, targets, b, e)
  }

  // ---------------------------------------------------------------- One step

  // The same stages, but for what their stores hold.
  predicate SameChain(a: seq<Stage>, b: seq<Stage>) {
    && |a| == |b|
    && forall d :: 0 <= d < |a| ==> if a[d].Deduplicate? then b[d].Deduplicate? else a[d] == b[d]
  }

  lemma SameWants(a: seq<Stage>, b: seq<Stage>, ev: Event)
    requires SameChain(a, b)
    ensures Wants(a, ev) <==> Wants(b, ev)
  {
    assert forall d :: 0 <= d < |a| ==> Admits(a[d], ev) == Admits(b[d], ev);
  }

  lemma SameThrough(a: seq<Stage>, b: seq<Stage>, c: seq<Stage>)
    requires SameChain(a, b) && SameChain(b, c) && SampleFree(b)
    ensures SameChain(a, c) && SampleFree(c)
  {
    assert forall d :: 0 <= d < |b| ==> c[d].SampleRate? ==> b[d].SampleRate?;
  }

  // Only attempts change stores and outcomes, and only the event's id can be added.
  lemma ChainStep(evs: seq<Event>, b: Book, e: Entry)
    requires Possible(evs, e) && SampleFree(b.stages)
    ensures var b' := Write(evs, b, e);
            SameChain(b.stages, b'.stages) && if e.Attempt? then Grows(b.stages, b'.stages, {evs[e.i].id}) else b' == b
  {
    if e.Attempt? {
      ChainGrows(b.stages, evs[e.i], e.faults);
    } else {
      assert Rebuild(b.stages) == b.stages;
    }
  }

  lemma GrownSeen(a: seq<Stage>, b: seq<Stage>, added: string, id: string)
    requires Grows(a, b, {added})
    ensures Seen(a, id) ==> Seen(b, id)
    ensures SeenByAll(a, id) ==> SeenByAll(b, id)
    ensures Seen(b, id) ==> Seen(a, id) || (added == id && Records(a, b, id))
  {
    if Seen(a, id) {
      var d :| 0 <= d < |a| && a[d].Deduplicate? && id in a[d].seen;
      assert b[d].Deduplicate? && id in b[d].seen;
    }
    if Seen(b, id) && !Seen(a, id) {
      var d :| 0 <= d < |b| && b[d].Deduplicate? && id in b[d].seen;
      assert a[d].Deduplicate? && id !in a[d].seen;
    }
  }

  // ---------------------------------------------------------------- Every history

  // A published id went through every Deduplicate stage.
  ghost predicate Basic(evs: seq<Event>, chain: seq<Stage>, id: string, targets: set<nat>, b: Book) {
    && SameChain(chain, b.stages) && SampleFree(b.stages)
    && (AnyPublished(b, targets) ==> SeenByAll(b.stages, id))
    && (forall i :: i in b.published ==> i < |evs| && Wants(chain, evs[i]))
  }

  // Nothing spent: what was recorded was published, and a wanted target was dropped for no other reason.
  ghost predicate Unspent(evs: seq<Event>, chain: seq<Stage>, id: string, targets: set<nat>, b: Book) {
    && Basic(evs, chain, id, targets, b)
    && (Seen(b.stages, id) ==> AnyPublished(b, targets))
    && (forall i :: i in b.dropped && i in targets && i < |evs| && Wants(chain, evs[i]) ==> AnyPublished(b, targets))
  }

  ghost predicate Spent(id: string, targets: set<nat>, b: Book) {
    !AnyPublished(b, targets) && Seen(b.stages, id)
  }

  lemma PublishedAfter(evs: seq<Event>, targets: set<nat>, b: Book, e: Entry)
    requires Possible(evs, e)
    ensures AnyPublished(Write(evs, b, e), targets) <==>
            AnyPublished(b, targets)
            || (e.Attempt? && e.i in targets && Result(evs, b, e.i, e.faults).1.Keep? && e.ok)
  {
    var b' := Write(evs, b, e);
    assert b.published <= b'.published;
    if e.Attempt? && b'.published == b.published + {e.i} && e.i in targets {
      assert e.i in targets * b'.published || b'.published == b.published;
    }
    if AnyPublished(b, targets) {
      var j :| j in targets * b.published;
      assert j in targets * b'.published;
    }
    if AnyPublished(b', targets) {
      var j :| j in targets * b'.published;
      assert j in b.published ==> j in targets * b.published;
    }
  }

  lemma SeenAfter(evs: seq<Event>, chain: seq<Stage>, id: string, targets: set<nat>, b: Book, e: Entry)
    requires Basic(evs, chain, id, targets, b) && HaveId(evs, targets, id) && Possible(evs, e) && e.Attempt?
    ensures var b' := Write(evs, b, e); AnyPublished(b', targets) ==> SeenByAll(b'.stages, id)
  {
    ChainGrows(b.stages, evs[e.i], e.faults);
    KeepsOnlyWanted(b.stages, evs[e.i], e.faults);
    PublishedAfter(evs, targets, b, e);
    GrownSeen(b.stages, Write(evs, b, e).stages, evs[e.i].id, id);
  }

  lemma WantedAfter(evs: seq<Event>, chain: seq<Stage>, id: string, targets: set<nat>, b: Book, e: Entry)
    requires Basic(evs, chain, id, targets, b) && Possible(evs, e) && e.Attempt?
    ensures forall i :: i in Write(evs, b, e).published ==> i < |evs| && Wants(chain, evs[i])
  {
    KeepsOnlyWanted(b.stages, evs[e.i], e.faults);
    SameWants(chain, b.stages, evs[e.i]);
  }

  lemma BasicStep(evs: seq<Event>, chain: seq<Stage>, id: string, targets: set<nat>, b: Book, e: Entry)
    requires Basic(evs, chain, id, targets, b) && HaveId(evs, targets, id) && Possible(evs, e)
    ensures Basic(evs, chain, id, targets, Write(evs, b, e))
  {
    ChainStep(evs, b, e);
    SameThrough(chain, b.stages, Write(evs, b, e).stages);
    if e.Attempt? {
      SeenAfter(evs, chain, id, targets, b, e);
      WantedAfter(evs, chain, id, targets, b, e);
    }
  }

  lemma SpentStep(evs: seq<Event>, chain: seq<Stage>, id: string, targets: set<nat>, b: Book, e: Entry)
    requires Basic(evs, chain, id, targets, b) && HaveId(evs, targets, id) && Possible(evs, e)
    requires Spends(evs, id, targets, b, e) || Spent(id, targets, b)
    ensures Spent(id, targets, Write(evs, b, e))
  {
    var b' := Write(evs, b, e);
    ChainStep(evs, b, e);
    PublishedAfter(evs, targets, b, e);
    if e.Attempt? {
      GrownSeen(b.stages, b'.stages, evs[e.i].id, id);
      KeepsOnlyWanted(b.stages, evs[e.i], e.faults);
      if Spends(evs, id, targets, b, e) {
        var d :| 0 <= d < |b.stages| && b.stages[d].Deduplicate? && b'.stages[d].Deduplicate?
                 && id !in b.stages[d].seen && id in b'.stages[d].seen;
        assert !SeenByAll(b.stages, id) && Seen(b'.stages, id);
      }
    }
  }

  lemma UnspentStep(evs: seq<Event>, chain: seq<Stage>, id: string, targets: set<nat>, b: Book, e: Entry)
    requires Unspent(evs, chain, id, targets, b) && HaveId(evs, targets, id) && Possible(evs, e)
    requires !Spends(evs, id, targets, b, e)
    ensures Unspent(evs, chain, id, targets, Write(evs, b, e))
  {
    BasicStep(evs, chain, id, targets, b, e);
    ChainStep(evs, b, e);
    PublishedAfter(evs, targets, b, e);
    if e.Attempt? {
      GrownSeen(b.stages, Write(evs, b, e).stages, evs[e.i].id, id);
      DropsForAReason(b.stages, evs[e.i], e.faults);
      SameWants(chain, b.stages, evs[e.i]);
    }
  }

  ghost function BasicOf(evs: seq<Event>, chain: seq<Stage>, id: string, targets: set<nat>): Book -> bool {
    b => Basic(evs, chain, id, targets, b)
  }

  ghost function UnspentOf(evs: seq<Event>, chain: seq<Stage>, id: string, targets: set<nat>): Book -> bool {
    b => Unspent(evs, chain, id, targets, b)
  }

  ghost function SpentOf(id: string, targets: set<nat>): Book -> bool {
    b => Spent(id, targets, b)
  }

  lemma IfSpent(evs: seq<Event>, chain: seq<Stage>, id: string, targets: set<nat>, b: Book, entries: seq<Entry>)
    requires Basic(evs, chain, id, targets, b) && HaveId(evs, targets, id) && Valid(Books(evs), b, entries)
    ensures Basic(evs, chain, id, targets, Exec(Books(evs), b, entries))
    ensures Spent(id, targets, b) || !Never(Books(evs), SpendsOf(evs, id, targets), b, entries) ==>
              Spent(id, targets, Exec(Books(evs), b, entries))
  {
    var m, inv := Books(evs), BasicOf(evs, chain, id, targets);
    var bad, after := SpendsOf(evs, id, targets), SpentOf(id, targets);
    forall t, e | inv(t) && m.enabled(t, e)
      ensures inv(m.step(t, e)) && (bad(t, e) || after(t) ==> after(m.step(t, e)))
    {
      BasicStep(evs, chain, id, targets, t, e);
      if bad(t, e) || after(t) {
        SpentStep(evs, chain, id, targets, t, e);
      }
    }
    Invariant(m, inv, b, entries);
    Lasting(m, inv, bad, after, b, entries);
  }

  lemma IfNeverSpent(evs: seq<Event>, chain: seq<Stage>, id: string, targets: set<nat>, b: Book, entries: seq<Entry>)
    requires Unspent(evs, chain, id, targets, b) && HaveId(evs, targets, id) && Valid(Books(evs), b, entries)
    requires Never(Books(evs), SpendsOf(evs, id, targets), b, entries)
    ensures Unspent(evs, chain, id, targets, Exec(Books(evs), b, entries))
  {
    var m, inv, bad := Books(evs), UnspentOf(evs, chain, id, targets), SpendsOf(evs, id, targets);
    forall t, e | inv(t) && m.enabled(t, e) && !bad(t, e) ensures inv(m.step(t, e)) {
      UnspentStep(evs, chain, id, targets, t, e);
    }
    Discipline(m, inv, bad, bad, b, entries);
  }

  // ---------------------------------------------------------------- Main results

  // In every history: if a target that the chain wants was published or dropped, then one of the
  // targets was published exactly if the id was new to the stores and no attempt spent it.
  lemma PublishedExactly(evs: seq<Event>, chain: seq<Stage>, targets: set<nat>, entries: seq<Entry>, i: nat)
    requires SampleFree(chain) && i in targets && i < |evs| && HaveId(evs, targets, evs[i].id)
    requires Wants(chain, evs[i]) && Valid(Books(evs), Book(chain, {}, {}), entries)
    requires var b := Exec(Books(evs), Book(chain, {}, {}), entries); i in b.published || i in b.dropped
    ensures AnyPublished(Exec(Books(evs), Book(chain, {}, {}), entries), targets) <==>
            !Seen(chain, evs[i].id) &&
            Never(Books(evs), SpendsOf(evs, evs[i].id, targets), Book(chain, {}, {}), entries)
  {
    var id, b, end := evs[i].id, Book(chain, {}, {}), Exec(Books(evs), Book(chain, {}, {}), entries);
    IfSpent(evs, chain, id, targets, b, entries);
    assert i in end.published ==> i in targets * end.published;
    if !Seen(chain, id) && Never(Books(evs), SpendsOf(evs, id, targets), b, entries) {
      IfNeverSpent(evs, chain, id, targets, b, entries);
    }
  }

  // What the producers get is always wanted.
  lemma OnlyWanted(evs: seq<Event>, chain: seq<Stage>, entries: seq<Entry>, i: nat)
    requires SampleFree(chain) && Valid(Books(evs), Book(chain, {}, {}), entries)
    requires i in Exec(Books(evs), Book(chain, {}, {}), entries).published
    ensures i < |evs| && Wants(chain, evs[i])
  {
    IfSpent(evs, chain, "", {}, Book(chain, {}, {}), entries);
  }

  // A chain without Deduplicate spends nothing.
  lemma NothingToSpend(evs: seq<Event>, chain: seq<Stage>, id: string, targets: set<nat>, entries: seq<Entry>)
    requires SampleFree(chain) && DedupFree(chain) && Valid(Books(evs), Book(chain, {}, {}), entries)
    ensures Never(Books(evs), SpendsOf(evs, id, targets), Book(chain, {}, {}), entries) && !Seen(chain, id)
  {
    var m, same, bad := Books(evs), (b: Book) => b.stages == chain, SpendsOf(evs, id, targets);
    forall b, e | same(b) && m.enabled(b, e) ensures same(m.step(b, e)) && !bad(b, e) {
      if e.Attempt? {
        DecidesAlike(chain, evs[e.i], e.faults);
      } else {
        assert Rebuild(chain) == chain;
      }
    }
    NeverFrom(m, same, bad, Book(chain, {}, {}), entries);
  }
}
