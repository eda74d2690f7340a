/** Aggregates rebuilt from their stream, and the repository that loads and saves them. */
module Sessions {
  import opened Wrappers
  import opened Seqs
  import opened Json
  import opened Events
  import opened StreamTables
  import opened SqlAlchemyStore

  // What an aggregate sees of an event.
  datatype Payload = Payload(name: string, data: Json)

  function PayloadOf(e: RawEvent): Payload {
    Payload(e.name, e.data)
  }

  // How an aggregate changes with an event.
  type Apply<!S> = (S, Payload) -> S

  function Fold<S>(apply: Apply<S>, state: S, events: seq<RawEvent>): S
    decreases |events|
  {
    if events == [] then state else Fold(apply, apply(state, PayloadOf(events[0])), events[1..])
  }

  lemma {:induction false} FoldCons<S>(apply: Apply<S>, state: S, e: RawEvent, rest: seq<RawEvent>)
    ensures Fold(apply, state, [e] + rest) == Fold(apply, apply(state, PayloadOf(e)), rest)
  {
    assert ([e] + rest)[1..] == rest;
  }

  lemma {:induction false} FoldConcat<S>(apply: Apply<S>, state: S, a: seq<RawEvent>, b: seq<RawEvent>)
    ensures Fold(apply, state, a + b) == Fold(apply, Fold(apply, state, a), b)
    decreases |a|
  {
    if a == [] {
      assert a + b == b;
    } else {
      FoldConcat(apply, apply(state, PayloadOf(a[0])), a[1..], b);
      assert (a + b)[1..] == a[1..] + b;
    }
  }

  lemma {:induction false} FoldOneMore<S>(apply: Apply<S>, state: S, events: seq<RawEvent>, i: nat)
    requires i < |events|
    ensures Fold(apply, state, events[..i + 1]) == apply(Fold(apply, state, events[..i]), PayloadOf(events[i]))
  {
    assert events[..i + 1] == events[..i] + [events[i]];
    FoldConcat(apply, state, events[..i], [events[i]]);
  }

  // Versions are not seen by the aggregate.
  lemma {:induction false} FoldNumbered<S>(apply: Apply<S>, state: S, events: seq<RawEvent>, expected: int)
    ensures Fold(apply, state, Numbered(events, expected)) == Fold(apply, state, events)
    decreases |events|
  {
    if events != [] {
      assert Numbered(events, expected)[1..] == Numbered(events[1..], expected + 1);
      FoldNumbered(apply, apply(state, PayloadOf(events[0])), events[1..], expected + 1);
    }
  }

  // Nor is the identifier an event is returned under.
  lemma {:induction false} FoldReturned<S>(apply: Apply<S>, state: S, events: seq<RawEvent>, sid: StreamId)
    ensures Fold(apply, state, Map(Returned(sid), events)) == Fold(apply, state, events)
    decreases |events|
  {
    if events != [] {
      assert Map(Returned(sid), events)[1..] == Map(Returned(sid), events[1..]);
      FoldReturned(apply, apply(state, PayloadOf(events[0])), events[1..], sid);
    }
  }

  class Aggregate<S> {
    const apply: Apply<S>
    var state: S
    var changes: seq<RawEvent>

    constructor (apply: Apply<S>, init: S)
      ensures this.apply == apply && state == init && changes == []
    {
      this.apply, state, changes := apply, init, [];
    }

    method Apply(event: RawEvent)
      modifies this`state
      ensures state == apply(old(state), PayloadOf(event))
    {
      state := apply(state, PayloadOf(event));
    }

    method Emit(event: RawEvent)
      modifies this
      ensures state == apply(old(state), PayloadOf(event))
      ensures changes == old(changes) + [event]
    {
      Apply(event);
      changes := changes + [event];
    }
  }

  // The version of an aggregate, pending events included.
  function WithPending(stored: Option<int>, pending: seq<RawEvent>): Option<int> {
    if stored.None? then None else Some(stored.value + |pending|)
  }

  class WrappedAggregate<S> {
    const aggregate: Aggregate<S>
    const sid: StreamId
    var storedVersion: Option<int>
    var createdAt: Option<int>
    var updatedAt: Option<int>

    constructor (aggregate: Aggregate<S>, sid: StreamId)
      ensures this.aggregate == aggregate && this.sid == sid
      ensures storedVersion == Some(0) && createdAt == None && updatedAt == None
    {
      this.aggregate, this.sid := aggregate, sid;
      storedVersion, createdAt, updatedAt := Some(0), None, None;
    }

    function Version(): (v: Option<int>)
      reads this, aggregate
    {
      WithPending(storedVersion, aggregate.changes)
    }
  }

  function LastVersion(events: seq<RawEvent>, otherwise: Option<int>): Option<int> {
    if events == [] then otherwise else events[|events| - 1].version
  }

  // The time already known, else that of the first event.
  function FirstTime(events: seq<RawEvent>, known: Option<int>): Option<int> {
    if known.Some? || events == [] then known else Some(events[0].createdAt)
  }

  function LastTime(events: seq<RawEvent>, otherwise: Option<int>): Option<int> {
    if events == [] then otherwise else Some(events[|events| - 1].createdAt)
  }

  // Loading a stream without snapshots is replaying its events.
  lemma {:induction false} LoadReplays<S>(apply: Apply<S>, state: S, table: Db, sid: StreamId)
    requires Found(table, sid) && table[RowKey(sid)].snapshots == [] && NumberedFrom(table[RowKey(sid)].events, 0)
    ensures var loaded, events := Fetched(table, sid, None, None), table[RowKey(sid)].events;
            && |loaded| == |events|
            && Fold(apply, state, loaded) == Fold(apply, state, events)
            && LastVersion(loaded, Some(0)) == LastVersion(events, Some(0))
  {
    var row := table[RowKey(sid)];
    SelectsAll(row);
    FoldReturned(apply, state, row.events, RowId(RowKey(sid), row.name));
  }

  // What saving pending events at a stored version does to the table.
  function Saved(table: Db, seen: bool, sid: StreamId, stored: Option<int>, pending: seq<RawEvent>)
    : Result<Db, StoreError>
  {
    if stored.None? then Failure(MissingVersion)
    else if pending == [] then Success(table)
    else Insertion(table, seen, sid, ExplicitFor(pending, stored.value), Numbered(pending, stored.value))
  }

  // What a session ending with these pending changes does to the table.
  function SessionSaved(table: Db, sid: StreamId, changes: seq<RawEvent>): Result<Db, StoreError> {
    Saved(table, Seen(table, TENANT, sid), sid, LastVersion(Fetched(table, sid, None, None), Some(0)), changes)
  }

  class Repository {
    const store: SqlAlchemyStorageStrategy

    constructor (store: SqlAlchemyStorageStrategy)
      ensures this.store == store
    {
      this.store := store;
    }

    method Load<S>(wrapped: WrappedAggregate<S>)
      modifies wrapped, wrapped.aggregate
      ensures var events, aggregate := Fetched(store.table, wrapped.sid, None, None), wrapped.aggregate;
              && aggregate.state == Fold(aggregate.apply, old(aggregate.state), events)
              && aggregate.changes == old(aggregate.changes)
              && wrapped.storedVersion == LastVersion(events, old(wrapped.storedVersion))
              && wrapped.createdAt == FirstTime(events, old(wrapped.createdAt))
              && wrapped.updatedAt == LastTime(events, old(wrapped.updatedAt))
              && (events != [] ==>
                    && wrapped.storedVersion == events[|events| - 1].version
                    && wrapped.updatedAt == Some(events[|events| - 1].createdAt)
                    && (old(wrapped.createdAt) == None ==> wrapped.createdAt == Some(events[0].createdAt)))
    {
      hide Fetched;
      var stream := store.FetchEvents(wrapped.sid, None, None);
      var aggregate := wrapped.aggregate;
      for i := 0 to |stream|
        invariant aggregate.state == Fold(aggregate.apply, old(aggregate.state), stream[..i])
        invariant aggregate.changes == old(aggregate.changes)
        invariant wrapped.storedVersion == LastVersion(stream[..i], old(wrapped.storedVersion))
        invariant wrapped.createdAt == FirstTime(stream[..i], old(wrapped.createdAt))
        invariant wrapped.updatedAt == LastTime(stream[..i], old(wrapped.updatedAt))
      {
        FoldOneMore(aggregate.apply, old(aggregate.state), stream, i);
        aggregate.Apply(stream[i]);
        wrapped.storedVersion := stream[i].version;
        if wrapped.createdAt.None? {
          wrapped.createdAt := Some(stream[i].createdAt);
        }
        wrapped.updatedAt := Some(stream[i].createdAt);
      }
      assert stream[..|stream|] == stream;
    }

    // `seen` is what the first query of the append found.
    method Save<S>(wrapped: WrappedAggregate<S>, seen: bool) returns (refusal: Option<StoreError>)
      modifies store
      ensures var r := Saved(old(store.table), seen, wrapped.sid, wrapped.storedVersion, wrapped.aggregate.changes);
              if refusal.None? then r == Success(store.table)
              else r == Failure(refusal.value) && store.table == old(store.table)
    {
      if wrapped.storedVersion.None? {
        return Some(MissingVersion);
      }
      var stored := wrapped.storedVersion.value;
      var pending := wrapped.aggregate.changes;
      var events := Numbered(pending, stored);
      if events == [] {
        return None;
      }
      refusal := store.InsertEvents(wrapped.sid, seen, ExplicitFor(pending, stored), events);
    }

    // A whole session: load, emit the given events, save. The pending changes stay.
    method Session<S>(aggregate: Aggregate<S>, sid: StreamId, events: seq<RawEvent>)
      returns (refusal: Option<StoreError>)
      modifies aggregate, store
      ensures aggregate.changes == old(aggregate.changes) + events
      ensures var loaded := Fetched(old(store.table), sid, None, None);
              aggregate.state == Fold(aggregate.apply, old(aggregate.state), loaded + events)
      ensures var r := SessionSaved(old(store.table), sid, old(aggregate.changes) + events);
              if refusal.None? then r == Success(store.table)
              else r == Failure(refusal.value) && store.table == old(store.table)
    {
      hide Fetched, Saved;
      var wrapped := new WrappedAggregate(aggregate, sid);
      Load(wrapped);
      ghost var loaded := Fetched(store.table, sid, None, None);
      for i := 0 to |events|
        modifies aggregate
        invariant aggregate.changes == old(aggregate.changes) + events[..i]
        invariant aggregate.state
            == Fold(aggregate.apply, Fold(aggregate.apply, old(aggregate.state), loaded), events[..i])
      {
        FoldOneMore(aggregate.apply, Fold(aggregate.apply, old(aggregate.state), loaded), events, i);
        assert events[..i + 1] == events[..i] + [events[i]];
        Assoc(old(aggregate.changes), events[..i], [events[i]]);
        aggregate.Emit(events[i]);
      }
      assert events[..|events|] == events;
      FoldConcat(aggregate.apply, old(aggregate.state), loaded, events);
      refusal := Save(wrapped, Seen(store.table, TENANT, sid));
    }
  }

  /******* One save, made in one go *******/

  // Without snapshots, versions are exactly 1..n and the row's version is n.
  ghost predicate TableSound(table: Db) {
    && RowsNamed(table)
    && forall key :: key in table ==> RowSound(table[key])
  }

  ghost predicate RowSound(row: Stream) {
    row.events != [] && row.snapshots == [] && NumberedFrom(row.events, 0) && row.version == Some(|row.events|)
  }

  // The row can be found, or made, under this identifier.
  predicate Addressable(table: Db, sid: StreamId) {
    && sid.key.category != Some("")
    && if RowKey(sid) in table then sid.name.Some? ==> table[RowKey(sid)].name == sid.name
       else !NameTaken(table, TENANT, sid)
  }

  lemma {:induction false} NumberedFree(stored: seq<RawEvent>, expected: nat, pending: seq<RawEvent>)
    requires NumberedFrom(stored, 0) && pending != []
    ensures |stored| == expected ==> VersionsFree(stored, Numbered(pending, expected))
    ensures expected < |stored| ==> !VersionsFree(stored, Numbered(pending, expected))
  {
    if expected < |stored| {
      assert Collide(stored[expected], Numbered(pending, expected)[0]);
    }
  }

  lemma {:induction false} NumberedConcat(stored: seq<RawEvent>, pending: seq<RawEvent>)
    requires NumberedFrom(stored, 0)
    ensures NumberedFrom(stored + Numbered(pending, |stored|), 0)
  {
  }

  lemma {:induction false} RowCreated(table: Db, sid: StreamId, initial: int, events: seq<RawEvent>)
    requires RowKey(sid) !in table && VersionsFree([], events)
    ensures Insertion(table, false, sid, Explicit(0, initial), events).Success? <==> Addressable(table, sid)
    ensures Addressable(table, sid) ==>
              (Insertion(table, false, sid, Explicit(0, initial), events)
               == Success(table[RowKey(sid) := Stream(sid.name, Some(initial), events, [])]))
  {
    if !NameTaken(table, TENANT, sid) {
      var row := Stream(sid.name, Some(initial), [], []);
      assert row.(events := row.events + events) == Stream(sid.name, Some(initial), events, []);
      assert table[RowKey(sid) := row][RowKey(sid) := row.(events := events)]
          == table[RowKey(sid) := row.(events := events)];
    }
  }

  lemma {:induction false} FirstAppend(table: Db, sid: StreamId, pending: seq<RawEvent>)
    requires pending != [] && RowKey(sid) !in table
    ensures Saved(table, false, sid, Some(0), pending).Success? <==> Addressable(table, sid)
    ensures Addressable(table, sid) ==>
              Saved(table, false, sid, Some(0), pending) == Success(Advanced(table, TENANT, sid, pending))
  {
    var added := Numbered(pending, 0);
    NumberedFree([], 0, pending);
    RowCreated(table, sid, |pending|, added);
  }

  // A stream found to exist only after it was loaded as missing: the unique index on
  // (stream, version) is all that rejects the loser of this race.
  lemma {:induction false} LostRace(table: Db, seen: bool, sid: StreamId, pending: seq<RawEvent>)
    requires pending != [] && RowKey(sid) in table && RowSound(table[RowKey(sid)])
    ensures Saved(table, seen, sid, Some(0), pending).Failure?
    ensures Addressable(table, sid) ==> Saved(table, seen, sid, Some(0), pending) == Failure(IntegrityViolation)
  {
    NumberedFree(table[RowKey(sid)].events, 0, pending);
  }

  // A later append is decided by the compare-and-set on the row's version.
  lemma {:induction false} LaterAppend(table: Db, seen: bool, sid: StreamId, stored: nat, pending: seq<RawEvent>)
    requires pending != [] && stored != 0 && RowKey(sid) in table && RowSound(table[RowKey(sid)])
    ensures var r, row := Saved(table, seen, sid, Some(stored), pending), table[RowKey(sid)];
            && (r.Success? <==> Addressable(table, sid) && stored == |row.events|)
            && (r.Success? ==> r.value == Advanced(table, TENANT, sid, pending))
            && (Addressable(table, sid) && stored != |row.events| ==> r == Failure(ConcurrentStreamWrite))
  {
    if stored == |table[RowKey(sid)].events| {
      NumberedFree(table[RowKey(sid)].events, stored, pending);
    }
  }

  // A commit with something to store is accepted if and only if the stream still stands
  // where the session loaded it, and is then stored after everything before it.
  lemma {:induction false} AcceptedIffCurrent(table: Db, seen: bool, sid: StreamId, stored: nat, pending: seq<RawEvent>)
    requires TableSound(table) && pending != [] && (seen ==> RowKey(sid) in table)
    requires stored <= |EventsOf(table, RowKey(sid))|
    ensures var r := Saved(table, seen, sid, Some(stored), pending);
            && (r.Success? <==> Addressable(table, sid) && stored == |EventsOf(table, RowKey(sid))|)
            && (r.Success? ==> r.value == Advanced(table, TENANT, sid, pending))
  {
    if stored != 0 {
      LaterAppend(table, seen, sid, stored, pending);
    } else if RowKey(sid) in table {
      LostRace(table, seen, sid, pending);
    } else {
      FirstAppend(table, sid, pending);
    }
  }

  lemma {:induction false} AdvancedIsSound(table: Db, sid: StreamId, pending: seq<RawEvent>)
    requires TableSound(table) && sid.Valid() && pending != []
    ensures TableSound(Advanced(table, TENANT, sid, pending))
    ensures forall key :: EventsOf(table, key) <= EventsOf(Advanced(table, TENANT, sid, pending), key)
  {
    NumberedConcat(EventsOf(table, RowKey(sid)), pending);
    AdvancedEvents(table, sid, pending);
  }

  lemma {:induction false} AdvancedEvents(table: Db, sid: StreamId, pending: seq<RawEvent>)
    ensures var key, stored := RowKey(sid), EventsOf(table, RowKey(sid));
            && EventsOf(Advanced(table, TENANT, sid, pending), key) == stored + Numbered(pending, |stored|)
            && Advanced(table, TENANT, sid, pending)[key].version == Some(|stored| + |pending|)
            && (forall other :: other != key ==>
                EventsOf(Advanced(table, TENANT, sid, pending), other) == EventsOf(table, other))
  {
    assert [] + Numbered(pending, 0) == Numbered(pending, 0);
  }

  /******* Two sessions with one aggregate *******/

  function Grown(table: Db, sid: StreamId, changes: seq<RawEvent>): Db {
    if changes == [] then table else Advanced(table, TENANT, sid, changes)
  }

  // A session with nothing in between stores its pending changes after the stream.
  lemma {:induction false} SessionStores(table: Db, sid: StreamId, changes: seq<RawEvent>)
    requires TableSound(table) && sid.Valid() && Addressable(table, sid)
    ensures SessionSaved(table, sid, changes) == Success(Grown(table, sid, changes))
  {
    SeenIsKey(table, TENANT, sid);
    if RowKey(sid) in table {
      assert RowSound(table[RowKey(sid)]);
      LoadReplays((n: int, p: Payload) => n, 0, table, sid);
    }
    var stored := |EventsOf(table, RowKey(sid))|;
    assert LastVersion(Fetched(table, sid, None, None), Some(0)) == Some(stored);
    if changes != [] {
      AcceptedIffCurrent(table, Seen(table, TENANT, sid), sid, stored, changes);
    }
  }

  lemma {:induction false} GrownEvents(table: Db, sid: StreamId, changes: seq<RawEvent>)
    requires TableSound(table) && sid.Valid() && Addressable(table, sid)
    ensures var stored := EventsOf(table, RowKey(sid));
            EventsOf(Grown(table, sid, changes), RowKey(sid)) == stored + Numbered(changes, |stored|)
    ensures TableSound(Grown(table, sid, changes)) && Addressable(Grown(table, sid, changes), sid)
  {
    if changes == [] {
      assert EventsOf(table, RowKey(sid)) + [] == EventsOf(table, RowKey(sid));
    } else {
      AdvancedEvents(table, sid, changes);
      AdvancedIsSound(table, sid, changes);
    }
  }

  // Pending changes are not cleared by a save. A second session with the same aggregate
  // stores them once more; it does what it would do with the changes cleared if and only if
  // the first session had none.
  lemma {:induction false} ReuseRepeats(table: Db, sid: StreamId, pending: seq<RawEvent>, more: seq<RawEvent>)
    requires TableSound(table) && sid.Valid() && Addressable(table, sid)
    ensures var first := SessionSaved(table, sid, pending);
            && first.Success?
            && var again := SessionSaved(first.value, sid, pending + more);
               var cleared := SessionSaved(first.value, sid, more);
            && again.Success? && cleared.Success?
            && var stored := EventsOf(table, RowKey(sid));
            && EventsOf(again.value, RowKey(sid))
               == stored + Numbered(pending, |stored|) + Numbered(pending + more, |stored| + |pending|)
            && EventsOf(cleared.value, RowKey(sid))
               == stored + Numbered(pending, |stored|) + Numbered(more, |stored| + |pending|)
            && (again.value == cleared.value <==> pending == [])
  {
    hide SessionSaved, Grown, Numbered, TableSound, Addressable;
    SessionStores(table, sid, pending);
    GrownEvents(table, sid, pending);
    var first := Grown(table, sid, pending);
    SessionStores(first, sid, pending + more);
    GrownEvents(first, sid, pending + more);
    SessionStores(first, sid, more);
    GrownEvents(first, sid, more);
    assert pending == [] ==> pending + more == more;
  }

  // Its state is the stream folded over a state that already held it.
  lemma {:induction false} ReuseFoldsTwice<S>(apply: Apply<S>, init: S, table: Db, sid: StreamId,
                                              pending: seq<RawEvent>, more: seq<RawEvent>)
    requires TableSound(table) && sid.Valid() && Addressable(table, sid)
    ensures var first := SessionSaved(table, sid, pending);
            && first.Success?
            && var stream := EventsOf(first.value, RowKey(sid));
               var left := Fold(apply, init, Fetched(table, sid, None, None) + pending);
            && left == Fold(apply, init, stream)
            && Fold(apply, left, Fetched(first.value, sid, None, None) + more)
               == Fold(apply, Fold(apply, Fold(apply, init, stream), stream), more)
  {
    hide SessionSaved, Grown, Numbered, TableSound, Addressable, Fold, Fetched;
    SessionStores(table, sid, pending);
    GrownEvents(table, sid, pending);
    var first, stored := Grown(table, sid, pending), EventsOf(table, RowKey(sid));
    LoadedFold(apply, init, table, sid);
    FoldConcat(apply, init, Fetched(table, sid, None, None), pending);
    FoldConcat(apply, init, stored, Numbered(pending, |stored|));
    FoldNumbered(apply, Fold(apply, init, stored), pending, |stored|);
    var stream := EventsOf(first, RowKey(sid));
    LoadedFold(apply, Fold(apply, init, stream), first, sid);
    FoldConcat(apply, Fold(apply, init, stream), Fetched(first, sid, None, None), more);
  }

  lemma {:induction false} LoadedFold<S>(apply: Apply<S>, state: S, table: Db, sid: StreamId)
    requires TableSound(table) && Addressable(table, sid)
    ensures Fold(apply, state, Fetched(table, sid, None, None)) == Fold(apply, state, EventsOf(table, RowKey(sid)))
  {
    if RowKey(sid) in table {
      assert RowSound(table[RowKey(sid)]);
      LoadReplays(apply, state, table, sid);
    }
  }

  function Counting(): (int, Payload) -> int {
    (n: int, p: Payload) => n + 1
  }

  lemma {:induction false} CountingCounts(n: int, events: seq<RawEvent>)
    ensures Fold(Counting(), n, events) == n + |events|
    decreases |events|
  {
    if events != [] {
      CountingCounts(n + 1, events[1..]);
    }
  }

  // An aggregate that counts events is right after a second session if and only if there
  // was nothing to load.
  lemma {:induction false} ReusedCountIsRightIff(table: Db, sid: StreamId, pending: seq<RawEvent>, more: seq<RawEvent>)
    requires TableSound(table) && sid.Valid() && Addressable(table, sid)
    ensures var first := SessionSaved(table, sid, pending);
            && first.Success?
            && var left := Fold(Counting(), 0, Fetched(table, sid, None, None) + pending);
               var stream := EventsOf(first.value, RowKey(sid));
               Fold(Counting(), left, Fetched(first.value, sid, None, None) + more)
                   == Fold(Counting(), 0, stream + more)
               <==> stream == []
  {
    hide SessionSaved, Fetched, Fold, Counting, TableSound, Addressable;
    ReuseFoldsTwice(Counting(), 0, table, sid, pending, more);
    var stream := EventsOf(SessionSaved(table, sid, pending).value, RowKey(sid));
    CountingCounts(0, stream);
    CountingCounts(|stream|, stream);
    CountingCounts(|stream| + |stream|, more);
    CountingCounts(0, stream + more);
  }
}
