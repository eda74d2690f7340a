/**
 Two ways of keeping snapshots. The in-memory store throws old events away when a
 snapshot is saved; the Django store keeps them and lets a query pick the latest
 snapshot and what follows. Over one tenant both accept the same appends and load the
 same streams.
 */
module SnapshotRefinement {
  import opened Wrappers
  import opened Seqs
  import opened Events
  import opened Ranges
  import opened StreamTables
  import opened VersionOrder
  import Mem = InMemoryStore
  import Sql = DjangoStore

  datatype Op =
    | Append(sid: StreamId, expected: int, events: seq<RawEvent>)
    | Snapshot(raw: RawEvent)
    | Delete(sid: StreamId)

  function MemPerform(mem: Mem.Store, tenant: string, op: Op): (r: (Mem.Store, Sql.Outcome))
    requires mem.data.Keys <= mem.versions.Keys
    requires op.Append? ==> op.events != []
    ensures r.0.data.Keys <= r.0.versions.Keys
  {
    match op
    case Append(sid, expected, events) =>
      var (next, r) := Mem.Inserted(mem, sid, ExplicitFor(events, expected), Numbered(events, expected), tenant);
      (next, if r.Success? then Sql.Done else Sql.Refused(r.error))
    case Snapshot(raw) => (Mem.SnapshotSaved(mem, raw, tenant), Sql.Done)
    case Delete(sid) => (Mem.Deleted(mem, sid.key), Sql.Done)
  }

  function SqlPerform(db: Db, tenant: string, op: Op): (Db, Sql.Outcome)
    requires op.Append? ==> op.events != []
  {
    match op
    case Append(sid, expected, events) =>
      Sql.Perform(db, Sql.Insert(tenant, sid, ExplicitFor(events, expected), Numbered(events, expected)))
    case Snapshot(raw) => Sql.Perform(db, Sql.SaveSnapshot(tenant, raw))
    case Delete(sid) => Sql.Perform(db, Sql.DeleteStream(tenant, sid))
  }

  function MemLoad(mem: Mem.Store, tenant: string, sid: StreamId): seq<RawEvent> {
    Mem.Fetched(mem, sid.key, None, None, tenant)
  }

  function SqlLoad(db: Db, tenant: string, sid: StreamId): seq<RawEvent> {
    Sql.Fetched(db, tenant, sid, None, None)
  }

  /******* What a run may do *******/

  // The one name of every stream, if it has one.
  type Names = StreamKey -> Option<string>

  // Every stream is addressed under one name, and its category is absent or not empty.
  predicate Addressed(names: Names, sid: StreamId) {
    && sid.Valid()
    && sid.name == names(sid.key)
    && sid.name != Some("")
    && sid.key.category != Some("")
  }

  // Bare events, an expected version of zero only on absent or empty streams, snapshots
  // of non-empty streams at their current version and later than all before, fresh uuids.
  ghost predicate Allowed(names: Names, tenant: string, db: Db, op: Op) {
    match op
    case Append(sid, expected, events) =>
      && Addressed(names, sid)
      && events != []
      && AllOn(events, sid)
      && Sql.UuidsFree(db, events)
      && (expected == 0 ==> SqlLoad(db, tenant, sid) == [])
    case Snapshot(raw) =>
      var key := KeyOf(tenant, raw.stream);
      && Addressed(names, raw.stream)
      && key in db
      && raw.version == db[key].version
      && (forall s :: s in db[key].snapshots ==> s.createdAt < raw.createdAt)
      && !SnapshotTaken(db, raw.uuid)
    case Delete(sid) => Addressed(names, sid)
  }

  ghost predicate AllowedRun(names: Names, tenant: string, db: Db, ops: seq<Op>)
    decreases |ops|
  {
    ops != [] ==>
      && Allowed(names, tenant, db, ops[0])
      && AllowedRun(names, tenant, SqlPerform(db, tenant, ops[0]).0, ops[1..])
  }

  /******* One stream in both stores *******/

  ghost predicate Increasing(snapshots: seq<RawEvent>) {
    forall i, j :: 0 <= i < j < |snapshots| ==> Earlier(snapshots, i, j)
  }

  ghost predicate Earlier(snapshots: seq<RawEvent>, i: int, j: int)
    requires 0 <= i < j < |snapshots|
  {
    snapshots[i].createdAt < snapshots[j].createdAt
  }

  ghost predicate LastCoversMost(snapshots: seq<RawEvent>) {
    forall s :: s in snapshots ==> NotAfter(s.version, snapshots[|snapshots| - 1].version)
  }

  ghost predicate Retained(row: Stream, sid: StreamId) {
    && row.name == sid.name
    && row.events != [] && NumberedFrom(row.events, 0) && AllOn(row.events, sid)
    && row.version == Some(|row.events|)
    && Increasing(row.snapshots)
    && (forall s :: s in row.snapshots ==> s.stream == sid && s.version.Some? && 1 <= s.version.value <= |row.events|)
    && LastCoversMost(row.snapshots)
  }

  // The last snapshot and the events after it.
  function Tail(row: Stream): seq<RawEvent> {
    if row.snapshots == [] then row.events
    else
      var last := row.snapshots[|row.snapshots| - 1];
      var covered := if last.version.Some? then last.version.value else 0;
      [last] + if 0 <= covered <= |row.events| then row.events[covered..] else []
  }

  ghost predicate OneTenant(records: seq<RecordedRaw>, tenant: string) {
    forall r :: r in records ==> r.tenant == tenant
  }

  // Refusing an append may leave an empty stream behind in memory.
  ghost predicate Mirrored(mem: Mem.Store, tenant: string, db: Db, sid: StreamId) {
    var key, k := KeyOf(tenant, sid), sid.key;
    if key in db then
      && Retained(db[key], sid)
      && k in mem.data && k in mem.versions
      && mem.versions[k] == db[key].version
      && OneTenant(mem.data[k], tenant)
      && Mem.Entries(mem.data[k]) == Tail(db[key])
    else
      k in mem.data ==> mem.data[k] == [] && k in mem.versions && mem.versions[k] == Some(0)
  }

  ghost predicate Simulates(names: Names, tenant: string, mem: Mem.Store, db: Db) {
    && Mem.Sound(mem)
    && RowsNamed(db)
    && forall sid :: Addressed(names, sid) ==> Mirrored(mem, tenant, db, sid)
  }

  lemma {:induction false} FilterSame<T>(p: T -> bool, q: T -> bool, s: seq<T>)
    requires forall x :: x in s ==> p(x) == q(x)
    ensures Filter(p, s) == Filter(q, s)
    decreases |s|
  {
    if s != [] {
      assert s[0] in s;
      FilterSame(p, q, s[1..]);
    }
  }

  lemma {:induction false} LatestIsLast(snapshots: seq<RawEvent>)
    requires snapshots != [] && Increasing(snapshots)
    ensures Latest(snapshots) == snapshots[|snapshots| - 1]
    decreases |snapshots|
  {
    if |snapshots| > 1 {
      var later := snapshots[1..];
      forall i, j | 0 <= i < j < |later|
        ensures Earlier(later, i, j)
      {
        assert Earlier(snapshots, i + 1, j + 1);
      }
      LatestIsLast(later);
      assert Earlier(snapshots, 0, |snapshots| - 1);
    }
  }

  lemma {:induction false} NewerIsSuffix(events: seq<RawEvent>, v: nat)
    requires NumberedFrom(events, 0) && v <= |events|
    ensures Filter(NewerThan(Some(v)), events) == events[v..]
  {
    FilterSame(NewerThan(Some(v)), InRange(Some(v + 1), None), events);
    VersionRangeIsPiece(events, 0, Some(v + 1), None);
  }

  // The query picks exactly what the in-memory store still holds.
  lemma {:induction false} QueryIsTail(row: Stream, sid: StreamId)
    requires Retained(row, sid)
    ensures Selected(row, None, None) == Tail(row)
  {
    NumberedIsByVersion(row.events, 0);
    FilterAll(InRange(None, None), row.events);
    FilterAll(InRange(None, None), row.snapshots);
    if row.snapshots != [] {
      LatestIsLast(row.snapshots);
      var last := row.snapshots[|row.snapshots| - 1];
      assert last in row.snapshots;
      NewerIsSuffix(row.events, last.version.value);
    }
  }

  lemma {:induction false} TailOnStream(row: Stream, sid: StreamId)
    requires Retained(row, sid)
    ensures Tail(row) != [] && AllOn(Tail(row), sid)
  {
    if row.snapshots != [] {
      assert row.snapshots[|row.snapshots| - 1] in row.snapshots;
    }
  }

  lemma {:induction false} ReturnedUnchanged(events: seq<RawEvent>, sid: StreamId)
    requires AllOn(events, sid)
    ensures Map(Returned(sid), events) == events
  {
    forall i | 0 <= i < |events|
      ensures Map(Returned(sid), events)[i] == events[i]
    {
      assert events[i] in events;
    }
  }

  lemma {:induction false} MemLoadsAll(mem: Mem.Store, tenant: string, sid: StreamId)
    requires sid.key in mem.data && OneTenant(mem.data[sid.key], tenant)
    ensures MemLoad(mem, tenant, sid) == Mem.Entries(mem.data[sid.key])
  {
    var records := mem.data[sid.key];
    assert Mem.PySlice(records, None, None) == records[0..|records|] == records;
    FilterAll(Mem.OfTenant(tenant), records);
  }

  lemma {:induction false} SqlLoadsTail(db: Db, tenant: string, sid: StreamId)
    requires KeyOf(tenant, sid) in db && Retained(db[KeyOf(tenant, sid)], sid) && sid.key.category != Some("")
    ensures SqlLoad(db, tenant, sid) == Tail(db[KeyOf(tenant, sid)])
    ensures SqlLoad(db, tenant, sid) != []
  {
    var row := db[KeyOf(tenant, sid)];
    QueryIsTail(row, sid);
    TailOnStream(row, sid);
    ReturnedUnchanged(Tail(row), sid);
    assert RowId(KeyOf(tenant, sid), row.name) == sid;
  }

  // Both stores return the same full load.
  lemma {:induction false} SameLoad(names: Names, tenant: string, mem: Mem.Store, db: Db, sid: StreamId)
    requires Simulates(names, tenant, mem, db) && Addressed(names, sid)
    ensures MemLoad(mem, tenant, sid) == SqlLoad(db, tenant, sid)
    ensures SqlLoad(db, tenant, sid) == [] <==> KeyOf(tenant, sid) !in db
  {
    assert Mirrored(mem, tenant, db, sid);
    if sid.key in mem.data {
      MemLoadsAll(mem, tenant, sid);
    }
    if KeyOf(tenant, sid) in db {
      SqlLoadsTail(db, tenant, sid);
    }
  }

  /******* Appends *******/

  lemma {:induction false} AddressesDiffer(names: Names, tenant: string, a: StreamId, b: StreamId)
    requires Addressed(names, a) && Addressed(names, b)
    ensures a == b <==> a.key == b.key
    ensures a.key == b.key <==> KeyOf(tenant, a) == KeyOf(tenant, b)
  {
  }

  lemma {:induction false} PartOf(key: StreamKey, records: seq<RecordedRaw>, sid: StreamId)
    requires forall r :: r in records ==> r.entry.stream == sid
    ensures Mem.Part(key, records) == if key == sid.key then records else []
  {
    if key == sid.key {
      FilterAll(Mem.InStream(key), records);
    } else {
      FilterNone(Mem.InStream(key), records);
    }
  }

  // The version a stream has in memory when an append with an expected version looks at it.
  function MemVersion(mem: Mem.Store, key: StreamKey): Option<int>
    requires mem.data.Keys <= mem.versions.Keys
  {
    if key in mem.data then mem.versions[key] else Some(0)
  }

  lemma {:induction false} MemRefuses(mem: Mem.Store, tenant: string, sid: StreamId, versioning: Versioning,
                                      added: seq<RawEvent>)
    requires Mem.Sound(mem) && versioning.Explicit? && Refusal(versioning, MemVersion(mem, sid.key)).Some?
    ensures var next := Mem.Inserted(mem, sid, versioning, added, tenant);
            && next.1 == Failure(Refusal(versioning, MemVersion(mem, sid.key)).value)
            && Mem.Sound(next.0)
            && (forall k :: k != sid.key ==>
                (k in next.0.data <==> k in mem.data) && (k in next.0.versions <==> k in mem.versions))
            && (forall k :: k in mem.data ==> next.0.data[k] == mem.data[k] && next.0.versions[k] == mem.versions[k])
            && (sid.key !in mem.data ==> next.0.data[sid.key] == [] && next.0.versions[sid.key] == Some(0))
  {
  }

  lemma {:induction false} MemRecords(ready: Mem.Store, tenant: string, sid: StreamId, added: seq<RawEvent>)
    requires Mem.Sound(ready) && sid.key in ready.data && AllOn(added, sid) && added != []
    ensures var records := Mem.Recorded(added, |ready.records|, tenant);
            var next := Mem.Appended(ready, records);
            && Mem.Sound(next)
            && sid.key in next.data && sid.key in next.versions
            && next.data[sid.key] == ready.data[sid.key] + records
            && next.versions[sid.key] == added[|added| - 1].version
  {
    var records := Mem.Recorded(added, |ready.records|, tenant);
    forall r | r in records
      ensures r.entry.stream == sid
    {
      assert r.entry in added;
    }
    PartOf(sid.key, records, sid);
  }

  lemma {:induction false} MemAccepts(mem: Mem.Store, tenant: string, sid: StreamId, versioning: Versioning,
                                      added: seq<RawEvent>)
    requires Mem.Sound(mem) && versioning.Explicit? && Refusal(versioning, MemVersion(mem, sid.key)).None?
    ensures var next := Mem.Inserted(mem, sid, versioning, added, tenant);
            && next.1.Success?
            && next.0
                == Mem.Appended(Mem.EnsuredStream(mem, sid.key, versioning), Mem.Recorded(added, |mem.records|, tenant))
  {
  }

  lemma {:induction false} MemAcceptsElsewhere(mem: Mem.Store, tenant: string, sid: StreamId, versioning: Versioning,
                                               added: seq<RawEvent>, key: StreamKey)
    requires Mem.Sound(mem) && AllOn(added, sid) && key != sid.key
    ensures var next := Mem.Appended(Mem.EnsuredStream(mem, sid.key, versioning),
                                     Mem.Recorded(added, |mem.records|, tenant));
            && (key in next.data <==> key in mem.data)
            && (key in mem.data ==> next.data[key] == mem.data[key])
            && (key in next.versions <==> key in mem.versions)
            && (key in mem.versions ==> next.versions[key] == mem.versions[key])
  {
    var records := Mem.Recorded(added, |mem.records|, tenant);
    forall r | r in records
      ensures r.entry.stream == sid
    {
      assert r.entry in added;
    }
    PartOf(key, records, sid);
  }

  lemma {:induction false} NumberedOn(events: seq<RawEvent>, sid: StreamId, expected: int)
    requires AllOn(events, sid)
    ensures AllOn(Numbered(events, expected), sid)
  {
    forall e | e in Numbered(events, expected)
      ensures e.stream == sid
    {
      var i :| 0 <= i < |events| && Numbered(events, expected)[i] == e;
      assert events[i] in events;
    }
  }

  // No stream with another key bears this stream's name.
  lemma {:induction false} NameIsFree(db: Db, tenant: string, sid: StreamId)
    requires RowsNamed(db) && sid.Valid() && sid.name != Some("") && KeyOf(tenant, sid) !in db
    ensures !NameTaken(db, tenant, sid)
  {
    forall key | key in db
      ensures !Matches(db, tenant, sid, key)
    {
      NameSelectsOwnRow(db, tenant, sid, key);
    }
  }

  // The events a stream has in the tables.
  function Stored(db: Db, tenant: string, sid: StreamId): nat {
    |EventsOf(db, KeyOf(tenant, sid))|
  }

  lemma {:induction false} SqlRowCreated(names: Names, tenant: string, db: Db, sid: StreamId,
                                         versioning: Versioning, added: seq<RawEvent>)
    requires RowsNamed(db) && Addressed(names, sid) && KeyOf(tenant, sid) !in db
    requires versioning.Explicit? && versioning.initial != versioning.expected
    requires added != [] && Sql.UuidsFree(db, added)
    ensures Sql.Inserted(db, tenant, sid, versioning, added)
         == if versioning.expected != 0 then Failure(ConcurrentStreamWrite)
            else Success(db[KeyOf(tenant, sid) := Stream(sid.name, Some(versioning.initial), added, [])])
  {
    NameIsFree(db, tenant, sid);
    if versioning.expected == 0 {
      var key, row := KeyOf(tenant, sid), Stream(sid.name, Some(versioning.initial), [], []);
      assert row.(events := row.events + added) == Stream(sid.name, Some(versioning.initial), added, []);
      assert db[key := row][key := row.(events := added)] == db[key := row.(events := added)];
    }
  }

  lemma {:induction false} SqlFirstAppend(names: Names, tenant: string, db: Db, sid: StreamId,
                                          expected: int, events: seq<RawEvent>)
    requires RowsNamed(db) && Addressed(names, sid) && KeyOf(tenant, sid) !in db
    requires events != [] && Sql.UuidsFree(db, events)
    ensures Sql.Inserted(db, tenant, sid, ExplicitFor(events, expected), Numbered(events, expected))
         == if expected != 0 then Failure(ConcurrentStreamWrite) else Success(Advanced(db, tenant, sid, events))
  {
    hide Sql.Inserted;
    Sql.SameUuids(db, events, expected);
    SqlRowCreated(names, tenant, db, sid, ExplicitFor(events, expected), Numbered(events, expected));
  }

  lemma {:induction false} SqlLaterAppend(tenant: string, db: Db, sid: StreamId, expected: int, events: seq<RawEvent>)
    requires KeyOf(tenant, sid) in db && Retained(db[KeyOf(tenant, sid)], sid)
    requires events != [] && expected != 0 && Sql.UuidsFree(db, events)
    ensures Sql.Inserted(db, tenant, sid, ExplicitFor(events, expected), Numbered(events, expected))
         == if expected != Stored(db, tenant, sid) then Failure(ConcurrentStreamWrite)
              else Success(Advanced(db, tenant, sid, events))
  {
    Sql.SameUuids(db, events, expected);
  }

  lemma {:induction false} TailGrows(row: Stream, sid: StreamId, added: seq<RawEvent>)
    requires Retained(row, sid)
    ensures Tail(row.(version := Some(|row.events| + |added|), events := row.events + added)) == Tail(row) + added
  {
    hide LastCoversMost, Increasing;
    if row.snapshots != [] {
      var last, now := row.snapshots[|row.snapshots| - 1], row.events + added;
      assert last in row.snapshots;
      assert now[last.version.value..] == row.events[last.version.value..] + added;
    }
  }

  lemma {:induction false} NumberedGrows(stored: seq<RawEvent>, events: seq<RawEvent>)
    requires NumberedFrom(stored, 0)
    ensures NumberedFrom(stored + Numbered(events, |stored|), 0)
  {
  }

  lemma {:induction false} RetainedGrows(row: Stream, sid: StreamId, events: seq<RawEvent>)
    requires Retained(row, sid) && AllOn(events, sid)
    ensures var numbered := Numbered(events, |row.events|);
            var row' := row.(version := Some(|row.events| + |events|), events := row.events + numbered);
            && Retained(row', sid)
            && Tail(row') == Tail(row) + numbered
  {
    var numbered := Numbered(events, |row.events|);
    NumberedOn(events, sid, |row.events|);
    NumberedGrows(row.events, events);
    hide Numbered, NumberedFrom, Tail, Retained;
    TailGrows(row, sid, numbered);
    RetainedWith(row, sid, numbered);
  }

  lemma {:induction false} RetainedWith(row: Stream, sid: StreamId, added: seq<RawEvent>)
    requires Retained(row, sid) && AllOn(added, sid) && NumberedFrom(row.events + added, 0)
    ensures Retained(row.(version := Some(|row.events| + |added|), events := row.events + added), sid)
  {
    hide NumberedFrom, Increasing, LastCoversMost, AllOn;
    OnConcat(row.events, added, sid);
  }

  lemma {:induction false} OnConcat(a: seq<RawEvent>, b: seq<RawEvent>, sid: StreamId)
    requires AllOn(a, sid) && AllOn(b, sid)
    ensures AllOn(a + b, sid)
  {
  }

  // Nothing about this stream differs between two states of the stores.
  ghost predicate SameStream(mem: Mem.Store, mem': Mem.Store, tenant: string, db: Db, db': Db, sid: StreamId) {
    var k, key := sid.key, KeyOf(tenant, sid);
    && (k in mem'.data <==> k in mem.data)
    && (k in mem.data ==> mem'.data[k] == mem.data[k])
    && (k in mem'.versions <==> k in mem.versions)
    && (k in mem.versions ==> mem'.versions[k] == mem.versions[k])
    && (key in db' <==> key in db)
    && (key in db ==> db'[key] == db[key])
  }

  // One stream is shown to be mirrored, all others are as they were.
  lemma {:induction false} SimulatesAfter(names: Names, tenant: string, mem: Mem.Store, mem': Mem.Store,
                                          db: Db, db': Db, sid: StreamId)
    requires Simulates(names, tenant, mem, db) && Addressed(names, sid)
    requires Mem.Sound(mem') && RowsNamed(db') && Mirrored(mem', tenant, db', sid)
    requires forall other :: Addressed(names, other) && other.key != sid.key ==>
               SameStream(mem, mem', tenant, db, db', other)
    ensures Simulates(names, tenant, mem', db')
  {
    forall other | Addressed(names, other)
      ensures Mirrored(mem', tenant, db', other)
    {
      AddressesDiffer(names, tenant, sid, other);
      if other.key != sid.key {
        assert Mirrored(mem, tenant, db, other);
        assert SameStream(mem, mem', tenant, db, db', other);
      }
    }
  }

  lemma {:induction false} SameVersion(names: Names, tenant: string, mem: Mem.Store, db: Db, sid: StreamId)
    requires Simulates(names, tenant, mem, db) && Addressed(names, sid)
    ensures MemVersion(mem, sid.key) == Some(Stored(db, tenant, sid))
    ensures Stored(db, tenant, sid) == 0 <==> KeyOf(tenant, sid) !in db
  {
    assert Mirrored(mem, tenant, db, sid);
  }

  lemma {:induction false} SqlVerdict(names: Names, tenant: string, mem: Mem.Store, db: Db,
                                      sid: StreamId, expected: int, events: seq<RawEvent>)
    requires Simulates(names, tenant, mem, db) && Addressed(names, sid) && events != [] && Sql.UuidsFree(db, events)
    requires expected == 0 ==> KeyOf(tenant, sid) !in db
    ensures Sql.Inserted(db, tenant, sid, ExplicitFor(events, expected), Numbered(events, expected))
         == if expected != Stored(db, tenant, sid) then Failure(ConcurrentStreamWrite)
              else Success(Advanced(db, tenant, sid, events))
  {
    assert Mirrored(mem, tenant, db, sid);
    if KeyOf(tenant, sid) in db {
      SqlLaterAppend(tenant, db, sid, expected, events);
    } else {
      SqlFirstAppend(names, tenant, db, sid, expected, events);
    }
  }

  // Both stores compare the expected version with the same one, and give the same verdict.
  lemma {:induction false} SameVerdict(names: Names, tenant: string, mem: Mem.Store, db: Db,
                                       sid: StreamId, expected: int, events: seq<RawEvent>)
    requires Simulates(names, tenant, mem, db) && Allowed(names, tenant, db, Append(sid, expected, events))
    ensures var refusal := Refusal(ExplicitFor(events, expected), MemVersion(mem, sid.key));
            var r := Sql.Inserted(db, tenant, sid, ExplicitFor(events, expected), Numbered(events, expected));
            && (refusal.Some? ==> r == Failure(refusal.value))
            && (refusal.None? ==>
                expected == Stored(db, tenant, sid) && r == Success(Advanced(db, tenant, sid, events)))
  {
    SameLoad(names, tenant, mem, db, sid);
    SameVersion(names, tenant, mem, db, sid);
    SqlVerdict(names, tenant, mem, db, sid, expected, events);
  }

  lemma {:induction false} RefusedSimulates(names: Names, tenant: string, mem: Mem.Store, db: Db,
                                            sid: StreamId, versioning: Versioning, added: seq<RawEvent>)
    requires Simulates(names, tenant, mem, db) && Addressed(names, sid) && versioning.Explicit?
    requires Refusal(versioning, MemVersion(mem, sid.key)).Some?
    ensures Simulates(names, tenant, Mem.Inserted(mem, sid, versioning, added, tenant).0, db)
  {
    var next := Mem.Inserted(mem, sid, versioning, added, tenant).0;
    MemRefuses(mem, tenant, sid, versioning, added);
    assert Mirrored(mem, tenant, db, sid);
    assert Mirrored(next, tenant, db, sid);
    SimulatesAfter(names, tenant, mem, next, db, db, sid);
  }

  lemma {:induction false} EntriesConcat(a: seq<RecordedRaw>, b: seq<RecordedRaw>)
    ensures Mem.Entries(a + b) == Mem.Entries(a) + Mem.Entries(b)
  {
  }

  lemma {:induction false} LaterMirrors(tenant: string, ready: Mem.Store, next: Mem.Store, db: Db, sid: StreamId,
                                        events: seq<RawEvent>, records: seq<RecordedRaw>)
    requires KeyOf(tenant, sid) in db && Mirrored(ready, tenant, db, sid) && AllOn(events, sid)
    requires OneTenant(records, tenant) && Mem.Entries(records) == Numbered(events, Stored(db, tenant, sid))
    requires sid.key in next.data && sid.key in next.versions
    requires next.data[sid.key] == ready.data[sid.key] + records
    requires next.versions[sid.key] == Some(Stored(db, tenant, sid) + |events|)
    ensures Mirrored(next, tenant, Advanced(db, tenant, sid, events), sid)
  {
    hide Retained, Tail, Numbered, NumberedFrom;
    EntriesConcat(ready.data[sid.key], records);
    RetainedGrows(db[KeyOf(tenant, sid)], sid, events);
  }

  lemma {:induction false} FirstMirrors(tenant: string, ready: Mem.Store, next: Mem.Store, db: Db, sid: StreamId,
                                        events: seq<RawEvent>, records: seq<RecordedRaw>)
    requires KeyOf(tenant, sid) !in db && sid.key in ready.data && Mirrored(ready, tenant, db, sid)
               && AllOn(events, sid) && events != []
    requires OneTenant(records, tenant) && Mem.Entries(records) == Numbered(events, 0)
    requires sid.key in next.data && sid.key in next.versions
    requires next.data[sid.key] == ready.data[sid.key] + records
    requires next.versions[sid.key] == Some(|events|)
    ensures Mirrored(next, tenant, Advanced(db, tenant, sid, events), sid)
  {
    hide Numbered, NumberedFrom, Mem.Entries, OneTenant;
    NumberedOn(events, sid, 0);
    assert next.data[sid.key] == records;
  }

  // The same events arrive at the end of the list and of the table.
  lemma {:induction false} AcceptedMirrors(tenant: string, ready: Mem.Store, next: Mem.Store, db: Db, sid: StreamId,
                                           events: seq<RawEvent>, records: seq<RecordedRaw>)
    requires sid.key in ready.data && Mirrored(ready, tenant, db, sid) && AllOn(events, sid) && events != []
    requires OneTenant(records, tenant) && Mem.Entries(records) == Numbered(events, Stored(db, tenant, sid))
    requires sid.key in next.data && sid.key in next.versions
    requires next.data[sid.key] == ready.data[sid.key] + records
    requires next.versions[sid.key] == Some(Stored(db, tenant, sid) + |events|)
    ensures Mirrored(next, tenant, Advanced(db, tenant, sid, events), sid)
  {
    hide Mirrored, Advanced;
    if KeyOf(tenant, sid) in db {
      LaterMirrors(tenant, ready, next, db, sid, events, records);
    } else {
      FirstMirrors(tenant, ready, next, db, sid, events, records);
    }
  }

  lemma {:induction false} RecordedEntries(events: seq<RawEvent>, position: nat, tenant: string)
    ensures Mem.Entries(Mem.Recorded(events, position, tenant)) == events
    ensures OneTenant(Mem.Recorded(events, position, tenant), tenant)
  {
  }

  lemma {:induction false} AcceptedElsewhere(names: Names, tenant: string, mem: Mem.Store, db: Db,
                                             sid: StreamId, versioning: Versioning,
                                             events: seq<RawEvent>, added: seq<RawEvent>, other: StreamId)
    requires Mem.Sound(mem) && AllOn(added, sid)
    requires Addressed(names, sid) && Addressed(names, other) && other.key != sid.key
    ensures var next := Mem.Appended(Mem.EnsuredStream(mem, sid.key, versioning),
                                     Mem.Recorded(added, |mem.records|, tenant));
            SameStream(mem, next, tenant, db, Advanced(db, tenant, sid, events), other)
  {
    AddressesDiffer(names, tenant, sid, other);
    MemAcceptsElsewhere(mem, tenant, sid, versioning, added, other.key);
  }

  lemma {:induction false} LastNumber(events: seq<RawEvent>, expected: int)
    requires events != []
    ensures Numbered(events, expected)[|events| - 1].version == Some(expected + |events|)
  {
  }

  lemma {:induction false} AcceptedHere(tenant: string, ready: Mem.Store, db: Db, sid: StreamId, expected: nat,
                                        events: seq<RawEvent>)
    requires Mem.Sound(ready) && sid.key in ready.data && Mirrored(ready, tenant, db, sid) && AllOn(events, sid)
               && events != []
    requires expected == Stored(db, tenant, sid)
    ensures var next := Mem.Appended(ready, Mem.Recorded(Numbered(events, expected), |ready.records|, tenant));
            Mem.Sound(next) && Mirrored(next, tenant, Advanced(db, tenant, sid, events), sid)
  {
    hide Mem.Appended, Mem.Recorded, Mem.Entries, Mem.Sound, Mirrored, Advanced, Stored, AllOn, OneTenant, NumberedFrom;
    var added := Numbered(events, expected);
    var records := Mem.Recorded(added, |ready.records|, tenant);
    var next := Mem.Appended(ready, records);
    assert Mem.Sound(next) && sid.key in next.data && sid.key in next.versions
        && next.data[sid.key] == ready.data[sid.key] + records
             && next.versions[sid.key] == Some(expected + |events|) by {
      NumberedOn(events, sid, expected);
      LastNumber(events, expected);
      MemRecords(ready, tenant, sid, added);
    }
    RecordedEntries(added, |ready.records|, tenant);
    AcceptedMirrors(tenant, ready, next, db, sid, events, records);
  }

  lemma {:induction false} EnsuredMirrors(tenant: string, mem: Mem.Store, db: Db, sid: StreamId, versioning: Versioning)
    requires Mem.Sound(mem) && Mirrored(mem, tenant, db, sid) && versioning.Explicit?
    ensures var ready := Mem.EnsuredStream(mem, sid.key, versioning);
            && Mem.Sound(ready) && ready.records == mem.records
            && sid.key in ready.data && Mirrored(ready, tenant, db, sid)
  {
  }

  lemma {:induction false} AdvancedNamed(db: Db, tenant: string, sid: StreamId, events: seq<RawEvent>)
    requires RowsNamed(db) && sid.Valid()
    ensures RowsNamed(Advanced(db, tenant, sid, events))
  {
  }

  lemma {:induction false} AcceptedSimulates(names: Names, tenant: string, mem: Mem.Store, db: Db,
                                             sid: StreamId, versioning: Versioning, events: seq<RawEvent>)
    requires Simulates(names, tenant, mem, db) && Addressed(names, sid)
    requires AllOn(events, sid) && events != [] && versioning.Explicit?
    ensures var added := Numbered(events, Stored(db, tenant, sid));
            var next := Mem.Appended(Mem.EnsuredStream(mem, sid.key, versioning),
                                     Mem.Recorded(added, |mem.records|, tenant));
            Simulates(names, tenant, next, Advanced(db, tenant, sid, events))
  {
    var added := Numbered(events, Stored(db, tenant, sid));
    var next := Mem.Appended(Mem.EnsuredStream(mem, sid.key, versioning), Mem.Recorded(added, |mem.records|, tenant));
    var db' := Advanced(db, tenant, sid, events);
    assert Mirrored(mem, tenant, db, sid);
    EnsuredMirrors(tenant, mem, db, sid, versioning);
    AcceptedHere(tenant, Mem.EnsuredStream(mem, sid.key, versioning), db, sid, Stored(db, tenant, sid), events);
    NumberedOn(events, sid, Stored(db, tenant, sid));
    forall other | Addressed(names, other) && other.key != sid.key
      ensures SameStream(mem, next, tenant, db, db', other)
    {
      AcceptedElsewhere(names, tenant, mem, db, sid, versioning, events, added, other);
    }
    AdvancedNamed(db, tenant, sid, events);
    SimulatesAfter(names, tenant, mem, next, db, db', sid);
  }

  lemma {:induction false} AppendSimulates(names: Names, tenant: string, mem: Mem.Store, db: Db,
                                           sid: StreamId, expected: int, events: seq<RawEvent>)
    requires Simulates(names, tenant, mem, db) && Allowed(names, tenant, db, Append(sid, expected, events))
    ensures var a, b := MemPerform(mem, tenant, Append(sid, expected, events)),
              SqlPerform(db, tenant, Append(sid, expected, events));
            a.1 == b.1 && Simulates(names, tenant, a.0, b.0)
  {
    var versioning, added := ExplicitFor(events, expected), Numbered(events, expected);
    SameVerdict(names, tenant, mem, db, sid, expected, events);
    if Refusal(versioning, MemVersion(mem, sid.key)).Some? {
      MemRefuses(mem, tenant, sid, versioning, added);
      RefusedSimulates(names, tenant, mem, db, sid, versioning, added);
    } else {
      MemAccepts(mem, tenant, sid, versioning, added);
      AcceptedSimulates(names, tenant, mem, db, sid, versioning, events);
    }
  }

  /******* Snapshots and deletes *******/

  lemma {:induction false} SqlSnapshot(tenant: string, db: Db, raw: RawEvent)
    requires KeyOf(tenant, raw.stream) in db && raw.version.Some? && !SnapshotTaken(db, raw.uuid)
    ensures var key := KeyOf(tenant, raw.stream);
            Sql.SnapshotSaved(db, tenant, raw) == Success(db[key := db[key].(snapshots := db[key].snapshots + [raw])])
  {
    forall key | key in db
      ensures Filter(Sql.OtherThan(raw.uuid), db[key].snapshots) == db[key].snapshots
    {
      assert !HasUuid(db[key].snapshots, raw.uuid);
      FilterAll(Sql.OtherThan(raw.uuid), db[key].snapshots);
    }
    var others := map k | k in db :: db[k].(snapshots := Filter(Sql.OtherThan(raw.uuid), db[k].snapshots));
    assert others == db;
  }

  lemma {:induction false} RetainedWithSnapshot(row: Stream, sid: StreamId, raw: RawEvent)
    requires Retained(row, sid) && raw.stream == sid && raw.version == row.version
    requires forall s :: s in row.snapshots ==> s.createdAt < raw.createdAt
    ensures var row' := row.(snapshots := row.snapshots + [raw]);
            Retained(row', sid) && Tail(row') == [raw]
  {
    var now := row.snapshots + [raw];
    forall i, j | 0 <= i < j < |now|
      ensures Earlier(now, i, j)
    {
      assert row.snapshots[i] in row.snapshots;
      if j < |row.snapshots| {
        assert Earlier(row.snapshots, i, j);
      }
    }
    assert row.events[|row.events|..] == [];
  }

  lemma {:induction false} SnapshotSimulates(names: Names, tenant: string, mem: Mem.Store, db: Db, raw: RawEvent)
    requires Simulates(names, tenant, mem, db) && Allowed(names, tenant, db, Snapshot(raw))
    ensures var a, b := MemPerform(mem, tenant, Snapshot(raw)), SqlPerform(db, tenant, Snapshot(raw));
            a.1 == b.1 && Simulates(names, tenant, a.0, b.0)
  {
    var sid := raw.stream;
    var key := KeyOf(tenant, sid);
    assert Mirrored(mem, tenant, db, sid);
    RetainedWithSnapshot(db[key], sid, raw);
    SqlSnapshot(tenant, db, raw);
    var mem', db' := Mem.SnapshotSaved(mem, raw, tenant), db[key := db[key].(snapshots := db[key].snapshots + [raw])];
    assert Mem.Entries(mem'.data[sid.key]) == [raw];
    forall other | Addressed(names, other) && other.key != sid.key
      ensures SameStream(mem, mem', tenant, db, db', other)
    {
      AddressesDiffer(names, tenant, sid, other);
    }
    SimulatesAfter(names, tenant, mem, mem', db, db', sid);
  }

  lemma {:induction false} DeleteSimulates(names: Names, tenant: string, mem: Mem.Store, db: Db, sid: StreamId)
    requires Simulates(names, tenant, mem, db) && Addressed(names, sid)
    ensures var a, b := MemPerform(mem, tenant, Delete(sid)), SqlPerform(db, tenant, Delete(sid));
            a.1 == b.1 && Simulates(names, tenant, a.0, b.0)
  {
    var mem', db' := Mem.Deleted(mem, sid.key), Sql.Deleted(db, tenant, sid);
    forall other | Addressed(names, other) && other.key != sid.key
      ensures SameStream(mem, mem', tenant, db, db', other)
    {
      AddressesDiffer(names, tenant, sid, other);
    }
    SimulatesAfter(names, tenant, mem, mem', db, db', sid);
  }

  /******* Whole runs *******/

  function MemRun(mem: Mem.Store, tenant: string, ops: seq<Op>): (Mem.Store, seq<Sql.Outcome>)
    requires mem.data.Keys <= mem.versions.Keys
    requires forall op :: op in ops && op.Append? ==> op.events != []
    decreases |ops|
  {
    if ops == [] then (mem, [])
    else
      var (next, outcome) := MemPerform(mem, tenant, ops[0]);
      var (last, outcomes) := MemRun(next, tenant, ops[1..]);
      (last, [outcome] + outcomes)
  }

  function SqlRun(db: Db, tenant: string, ops: seq<Op>): (Db, seq<Sql.Outcome>)
    requires forall op :: op in ops && op.Append? ==> op.events != []
    decreases |ops|
  {
    if ops == [] then (db, [])
    else
      var (next, outcome) := SqlPerform(db, tenant, ops[0]);
      var (last, outcomes) := SqlRun(next, tenant, ops[1..]);
      (last, [outcome] + outcomes)
  }

  // A run is its operations performed one after the other, in either store.
  lemma {:induction false} MemRunOneMore(mem: Mem.Store, tenant: string, ops: seq<Op>, op: Op)
    requires mem.data.Keys <= mem.versions.Keys
    requires forall o :: o in ops + [op] && o.Append? ==> o.events != []
    ensures forall o :: o in ops ==> o in ops + [op]
    ensures MemRun(mem, tenant, []) == (mem, [])
    ensures var was := MemRun(mem, tenant, ops);
            && was.0.data.Keys <= was.0.versions.Keys && op in ops + [op]
            && var now := MemPerform(was.0, tenant, op);
               MemRun(mem, tenant, ops + [op]) == (now.0, was.1 + [now.1])
    decreases |ops|
  {
    hide MemPerform;
    assert op in ops + [op] && forall o :: o in ops ==> o in ops + [op];
    if ops == [] {
      var (next, outcome) := MemPerform(mem, tenant, op);
      assert ops + [op] == [op] && [op][1..] == [];
      assert MemRun(next, tenant, []) == (next, []);
      assert [outcome] + [] == [outcome] == [] + [outcome];
    } else {
      var (next, outcome) := MemPerform(mem, tenant, ops[0]);
      assert (ops + [op])[0] == ops[0] && (ops + [op])[1..] == ops[1..] + [op];
      MemRunOneMore(next, tenant, ops[1..], op);
      var was := MemRun(next, tenant, ops[1..]);
      Assoc([outcome], was.1, [MemPerform(was.0, tenant, op).1]);
    }
  }

  lemma {:induction false} SqlRunOneMore(db: Db, tenant: string, ops: seq<Op>, op: Op)
    requires forall o :: o in ops + [op] && o.Append? ==> o.events != []
    ensures forall o :: o in ops ==> o in ops + [op]
    ensures SqlRun(db, tenant, []) == (db, [])
    ensures op in ops + [op]
            && var was := SqlRun(db, tenant, ops);
               var now := SqlPerform(was.0, tenant, op);
               SqlRun(db, tenant, ops + [op]) == (now.0, was.1 + [now.1])
    decreases |ops|
  {
    hide SqlPerform;
    assert op in ops + [op] && forall o :: o in ops ==> o in ops + [op];
    if ops == [] {
      var (next, outcome) := SqlPerform(db, tenant, op);
      assert ops + [op] == [op] && [op][1..] == [];
      assert SqlRun(next, tenant, []) == (next, []);
      assert [outcome] + [] == [outcome] == [] + [outcome];
    } else {
      var (next, outcome) := SqlPerform(db, tenant, ops[0]);
      assert (ops + [op])[0] == ops[0] && (ops + [op])[1..] == ops[1..] + [op];
      SqlRunOneMore(next, tenant, ops[1..], op);
      var was := SqlRun(next, tenant, ops[1..]);
      Assoc([outcome], was.1, [SqlPerform(was.0, tenant, op).1]);
    }
  }

  lemma {:induction false} StepSimulates(names: Names, tenant: string, mem: Mem.Store, db: Db, op: Op)
    requires Simulates(names, tenant, mem, db) && Allowed(names, tenant, db, op)
    ensures var a, b := MemPerform(mem, tenant, op), SqlPerform(db, tenant, op);
            a.1 == b.1 && Simulates(names, tenant, a.0, b.0)
  {
    match op
    case Append(s, expected, events) => AppendSimulates(names, tenant, mem, db, s, expected, events);
    case Snapshot(raw) => SnapshotSimulates(names, tenant, mem, db, raw);
    case Delete(s) => DeleteSimulates(names, tenant, mem, db, s);
  }

  lemma {:induction false} RunSimulates(names: Names, tenant: string, mem: Mem.Store, db: Db, ops: seq<Op>)
    requires Simulates(names, tenant, mem, db) && AllowedRun(names, tenant, db, ops)
    requires forall op :: op in ops && op.Append? ==> op.events != []
    ensures MemRun(mem, tenant, ops).1 == SqlRun(db, tenant, ops).1
    ensures Simulates(names, tenant, MemRun(mem, tenant, ops).0, SqlRun(db, tenant, ops).0)
    decreases |ops|
  {
    if ops != [] {
      StepSimulates(names, tenant, mem, db, ops[0]);
      RunSimulates(names, tenant, MemPerform(mem, tenant, ops[0]).0, SqlPerform(db, tenant, ops[0]).0, ops[1..]);
    }
  }

  // Throwing history away is not observable: after every allowed run both stores have
  // accepted and refused the same operations, and every stream loads the same.
  lemma {:induction false} SnapshotsRefineHistory(names: Names, tenant: string, ops: seq<Op>, sid: StreamId)
    requires AllowedRun(names, tenant, map[], ops) && Addressed(names, sid)
    requires forall op :: op in ops && op.Append? ==> op.events != []
    ensures MemRun(Mem.Empty, tenant, ops).1 == SqlRun(map[], tenant, ops).1
    ensures MemLoad(MemRun(Mem.Empty, tenant, ops).0, tenant, sid) == SqlLoad(SqlRun(map[], tenant, ops).0, tenant, sid)
  {
    EmptySimulates(names, tenant);
    RunSimulates(names, tenant, Mem.Empty, map[], ops);
    SameLoad(names, tenant, MemRun(Mem.Empty, tenant, ops).0, SqlRun(map[], tenant, ops).0, sid);
  }

  lemma {:induction false} EmptySimulates(names: Names, tenant: string)
    ensures Simulates(names, tenant, Mem.Empty, map[])
  {
  }
}
