/**
 The tables both SQL backends keep: a row per stream with the events and the snapshots that
 refer to it, and the query that reads a stream.
 */
module StreamTables {
  import opened Wrappers
  import opened Seqs
  import opened Events
  import opened Ranges
  import opened VersionOrder

  // Unique: (uuid, category, tenant). No category is stored as an empty one.
  datatype Key = Key(tenant: string, uuid: Uuid, category: string)

  datatype Stream = Stream(
    name: Option<string>,
    version: Option<int>,
    events: seq<RawEvent>,
    snapshots: seq<RawEvent>)

  type Db = map<Key, Stream>

  function KeyOf(tenant: string, sid: StreamId): Key {
    Key(tenant, sid.key.uuid, CategoryText(sid.key.category))
  }

  // Every row was created for a valid identifier.
  ghost predicate RowsNamed(db: Db) {
    forall key :: key in db && db[key].name.Some? && db[key].name.value != "" ==>
      key.uuid == FromName(db[key].name.value)
  }

  // The rows selected for an identifier: by uuid, and by name when there is one.
  predicate Matches(db: Db, tenant: string, sid: StreamId, key: Key)
    requires key in db
  {
    && key.tenant == tenant
    && key.category == CategoryText(sid.key.category)
    && (key.uuid == sid.key.uuid || (sid.Named() && db[key].name == sid.name))
  }

  // Selecting by uuid or name finds the row with the identifier's own key and no other.
  lemma {:induction false} NameSelectsOwnRow(db: Db, tenant: string, sid: StreamId, key: Key)
    requires RowsNamed(db) && sid.Valid() && key in db
    ensures Matches(db, tenant, sid, key) <==> key == KeyOf(tenant, sid)
  {
    if sid.Named() && db[key].name == sid.name {
      assert key.uuid == FromName(db[key].name.value);
    }
  }

  predicate Seen(db: Db, tenant: string, sid: StreamId) {
    exists key :: key in db && Matches(db, tenant, sid, key)
  }

  lemma {:induction false} SeenIsKey(db: Db, tenant: string, sid: StreamId)
    requires RowsNamed(db) && sid.Valid()
    ensures Seen(db, tenant, sid) <==> KeyOf(tenant, sid) in db
  {
    if KeyOf(tenant, sid) in db {
      assert Matches(db, tenant, sid, KeyOf(tenant, sid));
    }
    if Seen(db, tenant, sid) {
      var key :| key in db && Matches(db, tenant, sid, key);
      NameSelectsOwnRow(db, tenant, sid, key);
    }
  }

  predicate HasName(db: Db, tenant: string, sid: StreamId, key: Key)
    requires key in db
  {
    key.tenant == tenant && key.category == CategoryText(sid.key.category) && db[key].name == sid.name
  }

  // Unique: (name, category, tenant).
  predicate NameTaken(db: Db, tenant: string, sid: StreamId) {
    sid.name.Some? && exists key :: key in db && HasName(db, tenant, sid, key)
  }

  predicate HasUuid(events: seq<RawEvent>, uuid: nat) {
    exists e :: e in events && e.uuid == uuid
  }

  predicate SnapshotTaken(db: Db, uuid: nat) {
    exists key :: key in db && HasUuid(db[key].snapshots, uuid)
  }

  function EventsOf(db: Db, key: Key): seq<RawEvent> {
    if key in db then db[key].events else []
  }

  // The tables after events were stored behind those the stream has.
  function Advanced(db: Db, tenant: string, sid: StreamId, events: seq<RawEvent>): Db {
    var key, stored := KeyOf(tenant, sid), EventsOf(db, KeyOf(tenant, sid));
    if key in db then
      db[key := db[key].(version := Some(|stored| + |events|), events := stored + Numbered(events, |stored|))]
    else db[key := Stream(sid.name, Some(|events|), Numbered(events, 0), [])]
  }

  function Latest(snapshots: seq<RawEvent>): (latest: RawEvent)
    requires snapshots != []
    ensures latest in snapshots && forall s :: s in snapshots ==> s.createdAt <= latest.createdAt
  {
    if |snapshots| == 1 then snapshots[0]
    else
      var later := Latest(snapshots[1..]);
      if snapshots[0].createdAt >= later.createdAt then snapshots[0] else later
  }

  function NewerThan(version: Option<int>): RawEvent -> bool {
    (e: RawEvent) => e.version.Some? && version.Some? && e.version.value > version.value
  }

  // Events are returned under the identifier their row was created for.
  function RowId(key: Key, name: Option<string>): StreamId {
    StreamId(StreamKey(key.uuid, if key.category == "" then None else Some(key.category)), name)
  }

  function Returned(sid: StreamId): RawEvent -> RawEvent {
    (e: RawEvent) => e.(stream := sid)
  }

  function Selected(stream: Stream, start: Option<int>, stop: Option<int>): seq<RawEvent> {
    var events := VersionRange(ByVersion(stream.events), start, stop);
    var snapshots := Filter(InRange(start, stop), stream.snapshots);
    if snapshots == [] then events
    else [Latest(snapshots)] + Filter(NewerThan(Latest(snapshots).version), events)
  }

  // What a query for one stream returns.
  function Loaded(key: Key, stream: Stream, start: Option<int>, stop: Option<int>): seq<RawEvent> {
    Map(Returned(RowId(key, stream.name)), Selected(stream, start, stop))
  }

  // Without snapshots and bounds that is all events, by version.
  lemma {:induction false} SelectsAll(stream: Stream)
    requires stream.snapshots == [] && NumberedFrom(stream.events, 0)
    ensures Selected(stream, None, None) == stream.events
  {
    NumberedIsByVersion(stream.events, 0);
    FilterAll(InRange(None, None), stream.events);
  }
}
