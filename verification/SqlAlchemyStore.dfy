/**
 The SQLAlchemy storage of one tenant. Constraints of the tables decide which statements
 fail.
 */
module SqlAlchemyStore {
  import opened Wrappers
  import opened Seqs
  import opened Events
  import opened Ranges
  import opened StreamTables
  import opened VersionOrder

  // The tenant the storage is scoped for; it stands for any one.
  const TENANT: string

  function RowKey(sid: StreamId): Key {
    KeyOf(TENANT, sid)
  }

  // Insert, and on any conflict do nothing.
  function RowInserted(table: Db, sid: StreamId, versioning: Versioning): Db {
    if RowKey(sid) in table || NameTaken(table, TENANT, sid) then table
    else table[RowKey(sid) := Stream(sid.name, if versioning.Explicit? then Some(versioning.initial) else None, [], [])]
  }

  // Why the row just ensured cannot be used under this identifier.
  function Mismatch(table: Db, sid: StreamId): Option<StoreError> {
    if RowKey(sid) !in table || (sid.name.Some? && table[RowKey(sid)].name != sid.name) then Some(NoSuchRow)
    else if sid.key.category == Some("") then Some(if sid.name.Some? then AnotherStreamWithThisName else NoSuchRow)
    else None
  }

  predicate Collide(a: RawEvent, b: RawEvent) {
    a.version.Some? && a.version == b.version
  }

  // Unique: (stream, version). Missing versions do not collide.
  predicate VersionsFree(stored: seq<RawEvent>, added: seq<RawEvent>) {
    && (forall i, j :: 0 <= i < |stored| && 0 <= j < |added| ==> !Collide(stored[i], added[j]))
    && (forall i, j :: 0 <= i < j < |added| ==> !Collide(added[i], added[j]))
  }

  // One append, where `seen` is whether its first query found the row. That query may
  // have run before other sessions committed.
  function Insertion(table: Db, seen: bool, sid: StreamId, versioning: Versioning, events: seq<RawEvent>)
    : Result<Db, StoreError>
  {
    var ensured := if seen then table else RowInserted(table, sid, versioning);
    var mismatch := Mismatch(ensured, sid);
    if mismatch.Some? then Failure(mismatch.value)
    else
      var row := ensured[RowKey(sid)];
      var incompatible := Incompatible(versioning, row.version);
      if incompatible.Some? then Failure(incompatible.value)
      else if ChecksVersion(versioning) && row.version != Some(versioning.expected) then Failure(ConcurrentStreamWrite)
      else if !VersionsFree(row.events, events) then Failure(IntegrityViolation)
      else
        var version := if ChecksVersion(versioning) then Some(versioning.initial) else row.version;
        Success(ensured[RowKey(sid) := row.(version := version, events := row.events + events)])
  }

  // A row is found by its key, and by its name too when the identifier has one.
  predicate Found(table: Db, sid: StreamId) {
    RowKey(sid) in table && (sid.Named() ==> table[RowKey(sid)].name == sid.name)
  }

  function Fetched(table: Db, sid: StreamId, start: Option<int>, stop: Option<int>): seq<RawEvent> {
    if Found(table, sid) then Loaded(RowKey(sid), table[RowKey(sid)], start, stop) else []
  }

  function SnapshotSaved(table: Db, raw: RawEvent): Result<Db, StoreError> {
    var key := RowKey(raw.stream);
    if !Found(table, raw.stream) then Failure(DoesNotExist)
    else if raw.version.None? || SnapshotTaken(table, raw.uuid) then Failure(IntegrityViolation)
    else Success(table[key := table[key].(snapshots := table[key].snapshots + [raw])])
  }

  class SqlAlchemyStorageStrategy {
    var table: Db

    constructor ()
      ensures table == map[]
    {
      table := map[];
    }

    method FetchEvents(sid: StreamId, start: Option<int>, stop: Option<int>) returns (events: seq<RawEvent>)
      ensures events == Fetched(table, sid, start, stop)
    {
      var key := RowKey(sid);
      if !Found(table, sid) {
        return [];
      }
      var row := table[key];
      var selected := VersionRange(ByVersion(row.events), start, stop);
      var snapshots := Filter(InRange(start, stop), row.snapshots);
      if snapshots != [] {
        var latest := Latest(snapshots);
        selected := [latest] + Filter(NewerThan(latest.version), selected);
      }
      return Map(Returned(RowId(key, row.name)), selected);
    }

    method SaveSnapshot(raw: RawEvent) returns (refusal: Option<StoreError>)
      modifies this
      ensures var r := SnapshotSaved(old(table), raw);
              if r.Success? then refusal.None? && table == r.value
              else refusal == Some(r.error) && table == old(table)
    {
      var key := RowKey(raw.stream);
      if !Found(table, raw.stream) {
        return Some(DoesNotExist);
      }
      if raw.version.None? || SnapshotTaken(table, raw.uuid) {
        return Some(IntegrityViolation);
      }
      table := table[key := table[key].(snapshots := table[key].snapshots + [raw])];
      return None;
    }

    // The statements before the events are written; the caller rolls back on failure.
    method EnsureStream(sid: StreamId, seen: bool, versioning: Versioning) returns (refusal: Option<StoreError>)
      modifies this
      ensures refusal.None? ==>
                var ensured := if seen then old(table) else RowInserted(old(table), sid, versioning);
                && Mismatch(ensured, sid).None?
                && Incompatible(versioning, ensured[RowKey(sid)].version).None?
                && (ChecksVersion(versioning) ==> ensured[RowKey(sid)].version == Some(versioning.expected))
                && table == if ChecksVersion(versioning)
                            then ensured[RowKey(sid) := ensured[RowKey(sid)].(version := Some(versioning.initial))]
                            else ensured
      ensures refusal.Some? ==> Insertion(old(table), seen, sid, versioning, []) == Failure(refusal.value)
    {
      if !seen {
        table := RowInserted(table, sid, versioning);
      }
      var mismatch := Mismatch(table, sid);
      if mismatch.Some? {
        return mismatch;
      }
      var row := table[RowKey(sid)];
      var incompatible := Incompatible(versioning, row.version);
      if incompatible.Some? {
        return incompatible;
      }
      if ChecksVersion(versioning) {
        if row.version != Some(versioning.expected) {
          return Some(ConcurrentStreamWrite);
        }
        table := table[RowKey(sid) := row.(version := Some(versioning.initial))];
      }
      return None;
    }

    method InsertEvents(sid: StreamId, seen: bool, versioning: Versioning, events: seq<RawEvent>)
      returns (refusal: Option<StoreError>)
      modifies this
      ensures refusal.None? ==> Insertion(old(table), seen, sid, versioning, events) == Success(table)
      ensures refusal.Some? ==>
                Insertion(old(table), seen, sid, versioning, events) == Failure(refusal.value) && table == old(table)
    {
      var before := table;
      refusal := EnsureStream(sid, seen, versioning);
      if refusal.None? {
        var row := table[RowKey(sid)];
        if VersionsFree(row.events, events) {
          table := table[RowKey(sid) := row.(events := row.events + events)];
          ghost var ensured := if seen then before else RowInserted(before, sid, versioning);
          assert table == ensured[RowKey(sid) := table[RowKey(sid)]];
          return;
        }
        refusal := Some(IntegrityViolation);
      }
      table := before;
    }
  }
}
