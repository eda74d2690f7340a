/**
 The Django storage: stream rows of all tenants in one set of tables, each with its
 events and its snapshots. Old events are kept when a snapshot is saved; queries pick
 the latest snapshot and what follows it. A failing call is rolled back.
 */
module DjangoStore {
  import opened Wrappers
  import opened Seqs
  import opened Events
  import opened Ranges
  import opened StreamTables
  import opened VersionOrder

  predicate UuidTaken(db: Db, uuid: nat) {
    exists key :: key in db && HasUuid(db[key].events, uuid)
  }

  predicate SameUuid(a: RawEvent, b: RawEvent) {
    a.uuid == b.uuid
  }

  // Unique over all tenants: the event's uuid.
  predicate UuidsFree(db: Db, events: seq<RawEvent>) {
    && (forall e :: e in events ==> !UuidTaken(db, e.uuid))
    && (forall i, j :: 0 <= i < j < |events| ==> !SameUuid(events[i], events[j]))
  }

  // get_or_create by uuid, name, category and tenant
  function Ensured(db: Db, tenant: string, sid: StreamId, versioning: Versioning): Result<Db, StoreError> {
    var key := KeyOf(tenant, sid);
    if key in db then (if db[key].name == sid.name then Success(db) else Failure(IntegrityViolation))
    else if NameTaken(db, tenant, sid) then Failure(IntegrityViolation)
    else Success(db[key := Stream(sid.name, if versioning.Explicit? then Some(versioning.initial) else None, [], [])])
  }

  function Bumped(versioning: Versioning, stored: Option<int>): Option<int> {
    if ChecksVersion(versioning) then Some(versioning.initial) else stored
  }

  function Inserted(db: Db, tenant: string, sid: StreamId, versioning: Versioning, events: seq<RawEvent>)
    : Result<Db, StoreError>
  {
    var ensured := Ensured(db, tenant, sid, versioning);
    if ensured.Failure? then ensured
    else
      var key := KeyOf(tenant, sid);
      var stream := ensured.value[key];
      var refusal := Refusal(versioning, stream.version);
      if refusal.Some? then Failure(refusal.value)
      else if events == [] then Failure(NoSuchRow)
      else if !UuidsFree(db, events) then Failure(IntegrityViolation)
      else Success(ensured.value[key := stream.(version := Bumped(versioning, stream.version),
                                                events := stream.events + events)])
  }

  function OtherThan(uuid: nat): RawEvent -> bool {
    (e: RawEvent) => e.uuid != uuid
  }

  // Saving writes over a snapshot with the same uuid, wherever it is.
  function SnapshotSaved(db: Db, tenant: string, raw: RawEvent): Result<Db, StoreError> {
    var key := KeyOf(tenant, raw.stream);
    if key !in db then Failure(DoesNotExist)
    else if raw.version.None? then Failure(IntegrityViolation)
    else
      var others := map k | k in db :: db[k].(snapshots := Filter(OtherThan(raw.uuid), db[k].snapshots));
      Success(others[key := others[key].(snapshots := others[key].snapshots + [raw])])
  }

  // Events and snapshots go with their stream.
  function Deleted(db: Db, tenant: string, sid: StreamId): Db {
    db - {KeyOf(tenant, sid)}
  }

  function Fetched(db: Db, tenant: string, sid: StreamId, start: Option<int>, stop: Option<int>): seq<RawEvent> {
    var key := KeyOf(tenant, sid);
    if key !in db then []
    else Loaded(key, db[key], start, stop)
  }

  class Tables {
    var streams: Db

    constructor ()
      ensures streams == map[]
    {
      streams := map[];
    }
  }

  class DjangoStorageStrategy {
    const tables: Tables
    const tenantId: string

    constructor (tables: Tables, tenantId: string)
      ensures this.tables == tables && this.tenantId == tenantId
    {
      this.tables, this.tenantId := tables, tenantId;
    }

    method FetchEvents(sid: StreamId, start: Option<int>, stop: Option<int>) returns (events: seq<RawEvent>)
      ensures events == Fetched(tables.streams, tenantId, sid, start, stop)
    {
      var key := KeyOf(tenantId, sid);
      if key !in tables.streams {
        return [];
      }
      var stream := tables.streams[key];
      var selected := VersionRange(ByVersion(stream.events), start, stop);
      var snapshots := Filter(InRange(start, stop), stream.snapshots);
      if snapshots != [] {
        var latest := Latest(snapshots);
        selected := [latest] + Filter(NewerThan(latest.version), selected);
      }
      return Map(Returned(RowId(key, stream.name)), selected);
    }

    method EnsureStream(sid: StreamId, versioning: Versioning) returns (refusal: Option<StoreError>)
      modifies tables
      ensures var ensured := Ensured(old(tables.streams), tenantId, sid, versioning);
              if ensured.Failure? then refusal == Some(ensured.error)
              else
                var stream := ensured.value[KeyOf(tenantId, sid)];
                && refusal == Refusal(versioning, stream.version)
                && (refusal.None? ==>
                      var bumped := stream.(version := Bumped(versioning, stream.version));
                      tables.streams == ensured.value[KeyOf(tenantId, sid) := bumped])
    {
      var key := KeyOf(tenantId, sid);
      var ensured := Ensured(tables.streams, tenantId, sid, versioning);
      if ensured.Failure? {
        return Some(ensured.error);
      }
      tables.streams := ensured.value;
      var stream := tables.streams[key];
      var incompatible := Incompatible(versioning, stream.version);
      if incompatible.Some? {
        return incompatible;
      }
      if ChecksVersion(versioning) {
        if stream.version != Some(versioning.expected) {
          return Some(ConcurrentStreamWrite);
        }
        tables.streams := tables.streams[key := stream.(version := Some(versioning.initial))];
      } else {
        assert tables.streams[key := stream] == tables.streams;
      }
      return None;
    }

    method InsertEvents(sid: StreamId, versioning: Versioning, events: seq<RawEvent>)
      returns (refusal: Option<StoreError>)
      modifies tables
      ensures var r := Inserted(old(tables.streams), tenantId, sid, versioning, events);
              if r.Success? then refusal.None? && tables.streams == r.value
              else refusal == Some(r.error) && tables.streams == old(tables.streams)
    {
      var before := tables.streams;
      refusal := EnsureStream(sid, versioning);
      if refusal.None? {
        var key := KeyOf(tenantId, sid);
        if events == [] {
          refusal := Some(NoSuchRow);
        } else if !UuidsFree(before, events) {
          refusal := Some(IntegrityViolation);
        } else {
          var stream := tables.streams[key];
          tables.streams := tables.streams[key := stream.(events := stream.events + events)];
          ghost var ensured := Ensured(before, tenantId, sid, versioning).value;
          assert tables.streams == ensured[key := tables.streams[key]];
          return;
        }
      }
      tables.streams := before;
    }

    method SaveSnapshot(raw: RawEvent) returns (refusal: Option<StoreError>)
      modifies tables
      ensures var r := SnapshotSaved(old(tables.streams), tenantId, raw);
              if r.Success? then refusal.None? && tables.streams == r.value
              else refusal == Some(r.error) && tables.streams == old(tables.streams)
    {
      var key := KeyOf(tenantId, raw.stream);
      var streams := tables.streams;
      if key !in streams {
        return Some(DoesNotExist);
      }
      if raw.version.None? {
        return Some(IntegrityViolation);
      }
      streams := map k | k in streams :: streams[k].(snapshots := Filter(OtherThan(raw.uuid), streams[k].snapshots));
      tables.streams := streams[key := streams[key].(snapshots := streams[key].snapshots + [raw])];
      return None;
    }

    method DeleteStream(sid: StreamId)
      modifies tables
      ensures tables.streams == Deleted(old(tables.streams), tenantId, sid)
    {
      tables.streams := tables.streams - {KeyOf(tenantId, sid)};
    }
  }

  lemma {:induction false} SameUuids(db: Db, events: seq<RawEvent>, expected: int)
    requires UuidsFree(db, events)
    ensures UuidsFree(db, Numbered(events, expected))
  {
    var numbered := Numbered(events, expected);
    forall e | e in numbered
      ensures !UuidTaken(db, e.uuid)
    {
      var i :| 0 <= i < |numbered| && numbered[i] == e;
      assert events[i] in events;
    }
    forall i, j | 0 <= i < j < |numbered|
      ensures !SameUuid(numbered[i], numbered[j])
    {
      assert !SameUuid(events[i], events[j]);
    }
  }

  // The lock has a gap: an append at expected version zero is not compared, and no index
  // makes (stream, version) unique. On a stream of n events an append is accepted at
  // n and at zero, and keeps the versions 1..n only at n.
  lemma {:induction false} ZeroIsNotCompared(db: Db, tenant: string, sid: StreamId, expected: nat,
                                             events: seq<RawEvent>)
    requires KeyOf(tenant, sid) in db && db[KeyOf(tenant, sid)].name == sid.name
    requires var row := db[KeyOf(tenant, sid)];
             row.events != [] && NumberedFrom(row.events, 0) && row.version == Some(|row.events|)
    requires events != [] && UuidsFree(db, events)
    ensures var key, stored := KeyOf(tenant, sid), |db[KeyOf(tenant, sid)].events|;
            var r := Inserted(db, tenant, sid, ExplicitFor(events, expected), Numbered(events, expected));
            && (r.Success? <==> expected in {0, stored})
            && (r.Success? ==> (NumberedFrom(r.value[key].events, 0) <==> expected == stored))
  {
    var stored, added := db[KeyOf(tenant, sid)].events, Numbered(events, expected);
    SameUuids(db, events, expected);
    var now := stored + added;
    assert now[|stored|].version == Some(expected + 1);
  }

  /******* Tenants *******/

  datatype Op =
    | Insert(tenant: string, sid: StreamId, versioning: Versioning, events: seq<RawEvent>)
    | SaveSnapshot(tenant: string, raw: RawEvent)
    | DeleteStream(tenant: string, sid: StreamId)

  datatype Outcome = Done | Refused(error: StoreError)

  function Settled(db: Db, r: Result<Db, StoreError>): (Db, Outcome) {
    if r.Success? then (r.value, Done) else (db, Refused(r.error))
  }

  function Perform(db: Db, op: Op): (Db, Outcome) {
    match op
    case Insert(tenant, sid, versioning, events) => Settled(db, Inserted(db, tenant, sid, versioning, events))
    case SaveSnapshot(tenant, raw) => Settled(db, SnapshotSaved(db, tenant, raw))
    case DeleteStream(tenant, sid) => (Deleted(db, tenant, sid), Done)
  }

  function Run(db: Db, ops: seq<Op>): Db
    decreases |ops|
  {
    if ops == [] then db else Run(Perform(db, ops[0]).0, ops[1..])
  }

  // What happens to one tenant's operations during a run.
  function OutcomesOf(tenant: string, db: Db, ops: seq<Op>): seq<Outcome>
    decreases |ops|
  {
    if ops == [] then []
    else
      var (next, outcome) := Perform(db, ops[0]);
      (if ops[0].tenant == tenant then [outcome] else []) + OutcomesOf(tenant, next, ops[1..])
  }

  // A run is its operations performed one after the other.
  lemma {:induction false} RunOneMore(tenant: string, db: Db, ops: seq<Op>, op: Op)
    ensures Run(db, []) == db && OutcomesOf(tenant, db, []) == []
    ensures var (next, outcome) := Perform(Run(db, ops), op);
            && Run(db, ops + [op]) == next
            && OutcomesOf(tenant, db, ops + [op])
                == OutcomesOf(tenant, db, ops) + if op.tenant == tenant then [outcome] else []
    decreases |ops|
  {
    hide Perform;
    if ops == [] {
      assert [] + [op] == [op] && [op][1..] == [];
    } else {
      RunOneMore(tenant, Perform(db, ops[0]).0, ops[1..], op);
      assert (ops + [op])[1..] == ops[1..] + [op];
    }
  }

  function By(tenant: string): Op -> bool {
    (op: Op) => op.tenant == tenant
  }

  function Purged(tenant: string, ops: seq<Op>): seq<Op> {
    Filter(By(tenant), ops)
  }

  function View(db: Db, tenant: string): Db {
    map key | key in db && key.tenant == tenant :: db[key]
  }

  function UuidsOf(op: Op): set<nat> {
    match op
    case Insert(_, _, _, events) => set e | e in events :: e.uuid
    case SaveSnapshot(_, raw) => {raw.uuid}
    case DeleteStream(_, _) => {}
  }

  // The tenant's operations use only these uuids, the others use none of them.
  ghost predicate Separated(tenant: string, ops: seq<Op>, mine: set<nat>) {
    forall op :: op in ops ==> if op.tenant == tenant then UuidsOf(op) <= mine else UuidsOf(op) !! mine
  }

  // No uuid of this tenant is used by another.
  ghost predicate Fresh(tenant: string, ops: seq<Op>) {
    forall op, other :: op in ops && other in ops && op.tenant == tenant && other.tenant != tenant ==>
        UuidsOf(op) !! UuidsOf(other)
  }

  ghost predicate Owns(mine: set<nat>, stream: Stream) {
    forall e: RawEvent :: e in stream.events || e in stream.snapshots ==> e.uuid in mine
  }

  ghost predicate Shuns(mine: set<nat>, stream: Stream) {
    forall e: RawEvent :: e in stream.events || e in stream.snapshots ==> e.uuid !in mine
  }

  ghost predicate Owned(db: Db, tenant: string, mine: set<nat>) {
    forall key :: key in db ==> if key.tenant == tenant then Owns(mine, db[key]) else Shuns(mine, db[key])
  }

  lemma {:induction false} OwnedView(db: Db, tenant: string, mine: set<nat>, uuid: nat)
    requires Owned(db, tenant, mine) && uuid in mine
    ensures UuidTaken(db, uuid) <==> UuidTaken(View(db, tenant), uuid)
  {
    if UuidTaken(db, uuid) {
      var key :| key in db && HasUuid(db[key].events, uuid);
      var e :| e in db[key].events && e.uuid == uuid;
      assert key.tenant == tenant;
      assert key in View(db, tenant);
    }
    if UuidTaken(View(db, tenant), uuid) {
      var key :| key in View(db, tenant) && HasUuid(View(db, tenant)[key].events, uuid);
      assert key in db;
    }
  }

  lemma {:induction false} NamesInView(db: Db, tenant: string, sid: StreamId)
    ensures NameTaken(db, tenant, sid) <==> NameTaken(View(db, tenant), tenant, sid)
  {
    if NameTaken(db, tenant, sid) {
      var key :| key in db && HasName(db, tenant, sid, key);
      assert key in View(db, tenant) && HasName(View(db, tenant), tenant, sid, key);
    }
    if NameTaken(View(db, tenant), tenant, sid) {
      var key :| key in View(db, tenant) && HasName(View(db, tenant), tenant, sid, key);
      assert key in db && HasName(db, tenant, sid, key);
    }
  }

  lemma {:induction false} ViewOfUpdate(db: Db, tenant: string, key: Key, stream: Stream)
    ensures View(db[key := stream], tenant)
         == if key.tenant == tenant then View(db, tenant)[key := stream] else View(db, tenant)
  {
  }

  lemma {:induction false} FreeInView(db: Db, tenant: string, events: seq<RawEvent>, mine: set<nat>)
    requires Owned(db, tenant, mine) && forall e :: e in events ==> e.uuid in mine
    ensures UuidsFree(db, events) <==> UuidsFree(View(db, tenant), events)
  {
    forall e | e in events
      ensures UuidTaken(db, e.uuid) <==> UuidTaken(View(db, tenant), e.uuid)
    {
      OwnedView(db, tenant, mine, e.uuid);
    }
  }

  lemma {:induction false} EnsuredInView(db: Db, tenant: string, sid: StreamId, versioning: Versioning)
    ensures var r, r' := Ensured(db, tenant, sid, versioning), Ensured(View(db, tenant), tenant, sid, versioning);
            if r.Success? then r' == Success(View(r.value, tenant)) else r' == r
  {
    NamesInView(db, tenant, sid);
    ViewOfUpdate(db, tenant, KeyOf(tenant, sid),
                 Stream(sid.name, if versioning.Explicit? then Some(versioning.initial) else None, [], []));
  }

  // A tenant's append sees nothing but the tenant's own streams.
  lemma {:induction false} InsertInView(db: Db, tenant: string, sid: StreamId, versioning: Versioning,
                                        events: seq<RawEvent>, mine: set<nat>)
    requires Owned(db, tenant, mine) && forall e :: e in events ==> e.uuid in mine
    ensures var r, r' := Inserted(db, tenant, sid, versioning, events),
              Inserted(View(db, tenant), tenant, sid, versioning, events);
            if r.Success? then r' == Success(View(r.value, tenant)) else r' == r
  {
    EnsuredInView(db, tenant, sid, versioning);
    FreeInView(db, tenant, events, mine);
    var ensured, key := Ensured(db, tenant, sid, versioning), KeyOf(tenant, sid);
    if ensured.Success? {
      var stream := ensured.value[key];
      ViewOfUpdate(ensured.value, tenant, key,
                   stream.(version := Bumped(versioning, stream.version), events := stream.events + events));
    }
  }

  lemma {:induction false} SnapshotInView(db: Db, tenant: string, raw: RawEvent)
    ensures var r, r' := SnapshotSaved(db, tenant, raw), SnapshotSaved(View(db, tenant), tenant, raw);
            if r.Success? then r' == Success(View(r.value, tenant)) else r' == r
  {
    var r, r' := SnapshotSaved(db, tenant, raw), SnapshotSaved(View(db, tenant), tenant, raw);
    if r.Success? {
      assert View(r.value, tenant) == r'.value;
    }
  }

  lemma {:induction false} OwnOperation(db: Db, tenant: string, op: Op, mine: set<nat>)
    requires Owned(db, tenant, mine) && op.tenant == tenant && UuidsOf(op) <= mine
    ensures Perform(View(db, tenant), op) == (View(Perform(db, op).0, tenant), Perform(db, op).1)
  {
    match op
    case Insert(_, sid, versioning, events) =>
      assert forall e :: e in events ==> e.uuid in UuidsOf(op);
      InsertInView(db, tenant, sid, versioning, events, mine);
    case SaveSnapshot(_, raw) =>
      SnapshotInView(db, tenant, raw);
    case DeleteStream(_, sid) =>
      assert View(Deleted(db, tenant, sid), tenant) == Deleted(View(db, tenant), tenant, sid);
  }

  lemma {:induction false} ForeignSnapshot(db: Db, tenant: string, op: Op, mine: set<nat>)
    requires Owned(db, tenant, mine) && op.SaveSnapshot? && op.tenant != tenant && op.raw.uuid !in mine
    ensures View(Perform(db, op).0, tenant) == View(db, tenant)
  {
    hide Filter;
    var next := Perform(db, op).0;
    forall key | key in db && key.tenant == tenant
      ensures key in next && next[key] == db[key]
    {
      assert Owns(mine, db[key]);
      FilterAll(OtherThan(op.raw.uuid), db[key].snapshots);
    }
    assert View(next, tenant) == View(db, tenant);
  }

  lemma {:induction false} ForeignOperation(db: Db, tenant: string, op: Op, mine: set<nat>)
    requires Owned(db, tenant, mine) && op.tenant != tenant && UuidsOf(op) !! mine
    ensures View(Perform(db, op).0, tenant) == View(db, tenant)
  {
    match op
    case Insert(_, sid, versioning, events) =>
      var next := Perform(db, op).0;
      assert forall key :: key in next && key.tenant == tenant ==> key in db && next[key] == db[key];
      assert View(next, tenant) == View(db, tenant);
    case SaveSnapshot(_, raw) =>
      ForeignSnapshot(db, tenant, op, mine);
    case DeleteStream(_, sid) =>
      assert View(Perform(db, op).0, tenant) == View(db, tenant);
  }

  lemma {:induction false} SnapshotKeepsOwned(db: Db, tenant: string, op: Op, mine: set<nat>)
    requires Owned(db, tenant, mine) && op.SaveSnapshot?
    requires if op.tenant == tenant then op.raw.uuid in mine else op.raw.uuid !in mine
    ensures Owned(Perform(db, op).0, tenant, mine)
  {
    var next := Perform(db, op).0;
    forall key | key in next
      ensures if key.tenant == tenant then Owns(mine, next[key]) else Shuns(mine, next[key])
    {
      forall e: RawEvent | e in next[key].events || e in next[key].snapshots
        ensures e in db[key].events || e in db[key].snapshots || (e == op.raw && key.tenant == op.tenant)
      {
        FilterMember(OtherThan(op.raw.uuid), db[key].snapshots, e);
      }
    }
  }

  lemma {:induction false} OperationKeepsOwned(db: Db, tenant: string, op: Op, mine: set<nat>)
    requires Owned(db, tenant, mine)
    requires if op.tenant == tenant then UuidsOf(op) <= mine else UuidsOf(op) !! mine
    ensures Owned(Perform(db, op).0, tenant, mine)
  {
    match op
    case Insert(_, sid, versioning, events) =>
      assert forall e :: e in events ==> e.uuid in UuidsOf(op);
    case SaveSnapshot(_, raw) =>
      SnapshotKeepsOwned(db, tenant, op, mine);
    case DeleteStream(_, sid) =>
  }

  lemma {:induction false} PurgedRun(tenant: string, db: Db, ops: seq<Op>, mine: set<nat>)
    requires Owned(db, tenant, mine) && Separated(tenant, ops, mine)
    ensures OutcomesOf(tenant, db, ops) == OutcomesOf(tenant, View(db, tenant), Purged(tenant, ops))
    ensures View(Run(db, ops), tenant) == Run(View(db, tenant), Purged(tenant, ops))
    decreases |ops|
  {
    if ops != [] {
      var op, later := ops[0], ops[1..];
      var next := Perform(db, op).0;
      OperationKeepsOwned(db, tenant, op, mine);
      PurgedRun(tenant, next, later, mine);
      if op.tenant == tenant {
        OwnOperation(db, tenant, op, mine);
        assert Purged(tenant, ops)[1..] == Purged(tenant, later);
      } else {
        ForeignOperation(db, tenant, op, mine);
        assert Purged(tenant, ops) == Purged(tenant, later);
      }
    }
  }

  function UuidsBy(tenant: string, ops: seq<Op>): (uuids: set<nat>)
    ensures forall op :: op in ops && op.tenant == tenant ==> UuidsOf(op) <= uuids
    ensures forall u :: u in uuids ==> exists op :: op in ops && op.tenant == tenant && u in UuidsOf(op)
  {
    if ops == [] then {}
    else
      var later := UuidsBy(tenant, ops[1..]);
      if ops[0].tenant == tenant then UuidsOf(ops[0]) + later else later
  }

  // Taking all other tenants' operations out of a run changes no outcome and no read of
  // this tenant, as long as no two tenants share the uuid of an event or a snapshot.
  lemma {:induction false} TenantPurge(tenant: string, ops: seq<Op>, sid: StreamId, start: Option<int>,
                                       stop: Option<int>)
    requires Fresh(tenant, ops)
    ensures forall op :: op in Purged(tenant, ops) <==> op in ops && op.tenant == tenant
    ensures OutcomesOf(tenant, map[], ops) == OutcomesOf(tenant, map[], Purged(tenant, ops))
    ensures Fetched(Run(map[], ops), tenant, sid, start, stop)
         == Fetched(Run(map[], Purged(tenant, ops)), tenant, sid, start, stop)
  {
    var mine := UuidsBy(tenant, ops);
    forall op
      ensures op in Purged(tenant, ops) <==> op in ops && op.tenant == tenant
    {
      FilterMember(By(tenant), ops, op);
    }
    assert View(map[], tenant) == map[];
    assert Separated(tenant, ops, mine);
    PurgedRun(tenant, map[], ops, mine);
  }

  // Event uuids are all that tenants share: an append is accepted if and only if it would
  // be without the other tenants and nobody has used one of its uuids.
  lemma {:induction false} AcceptedAmongTenantsIff(db: Db, tenant: string, sid: StreamId, versioning: Versioning,
                                                   events: seq<RawEvent>)
    ensures Inserted(db, tenant, sid, versioning, events).Success? <==>
              (Inserted(View(db, tenant), tenant, sid, versioning, events).Success?
               && forall e :: e in events ==> !UuidTaken(db, e.uuid))
  {
    EnsuredInView(db, tenant, sid, versioning);
    forall e | e in events && UuidTaken(View(db, tenant), e.uuid)
      ensures UuidTaken(db, e.uuid)
    {
      var key :| key in View(db, tenant) && HasUuid(View(db, tenant)[key].events, e.uuid);
      assert key in db;
    }
  }
}
