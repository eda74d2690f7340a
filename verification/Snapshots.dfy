/**
 What aggregates see of snapshots: nothing, when every snapshot applied to a fresh
 aggregate gives the state it was taken of.
 */
module Snapshots {
  import opened Wrappers
  import opened Seqs
  import opened Events
  import opened Sessions
  import opened StreamTables
  import opened SnapshotRefinement
  import Mem = InMemoryStore
  import Sql = DjangoStore

  // Applied to a fresh aggregate, a snapshot gives the replay of the events it covers.
  ghost predicate Captures<S>(apply: Apply<S>, init: S, events: seq<RawEvent>, snapshot: RawEvent) {
    && snapshot.version.Some?
    && 0 <= snapshot.version.value <= |events|
    && apply(init, PayloadOf(snapshot)) == Fold(apply, init, events[..snapshot.version.value])
  }

  ghost predicate Faithful<S>(apply: Apply<S>, init: S, row: Stream) {
    forall s :: s in row.snapshots ==> Captures(apply, init, row.events, s)
  }

  ghost predicate AllFaithful<S>(apply: Apply<S>, init: S, db: Db) {
    forall key :: key in db ==> Faithful(apply, init, db[key])
  }

  // Every snapshot of a run is taken of the state its stream has then.
  ghost predicate FaithfulRun<S>(apply: Apply<S>, init: S, tenant: string, db: Db, ops: seq<Op>)
    requires forall op :: op in ops && op.Append? ==> op.events != []
    decreases |ops|
  {
    ops != [] ==>
      && (ops[0].Snapshot? && KeyOf(tenant, ops[0].raw.stream) in db ==>
            Captures(apply, init, db[KeyOf(tenant, ops[0].raw.stream)].events, ops[0].raw))
      && FaithfulRun(apply, init, tenant, SqlPerform(db, tenant, ops[0]).0, ops[1..])
  }

  lemma {:induction false} TailParts(row: Stream, sid: StreamId)
    requires Retained(row, sid) && row.snapshots != []
    ensures var last := row.snapshots[|row.snapshots| - 1];
            && last in row.snapshots
            && last.version.Some? && 1 <= last.version.value <= |row.events|
            && Tail(row) == [last] + row.events[last.version.value..]
  {
    assert row.snapshots[|row.snapshots| - 1] in row.snapshots;
  }

  lemma {:induction false} TailVersion(row: Stream, sid: StreamId)
    requires Retained(row, sid)
    ensures LastVersion(Tail(row), Some(0)) == LastVersion(row.events, Some(0)) == row.version
  {
    if row.snapshots != [] {
      TailParts(row, sid);
    }
  }

  lemma {:induction false} CapturedReplay<S>(apply: Apply<S>, init: S, events: seq<RawEvent>, snapshot: RawEvent)
    requires Captures(apply, init, events, snapshot)
    ensures Fold(apply, init, [snapshot] + events[snapshot.version.value..]) == Fold(apply, init, events)
  {
    hide Fold;
    var covered, newer := events[..snapshot.version.value], events[snapshot.version.value..];
    assert events == covered + newer;
    FoldConcat(apply, init, covered, newer);
    FoldCons(apply, init, snapshot, newer);
  }

  // Replaying from the last snapshot is replaying everything.
  lemma {:induction false} TailReplays<S>(apply: Apply<S>, init: S, row: Stream, sid: StreamId)
    requires Retained(row, sid) && Faithful(apply, init, row)
    ensures Fold(apply, init, Tail(row)) == Fold(apply, init, row.events)
    ensures LastVersion(Tail(row), Some(0)) == LastVersion(row.events, Some(0)) == row.version
  {
    TailVersion(row, sid);
    if row.snapshots != [] {
      TailParts(row, sid);
      CapturedReplay(apply, init, row.events, row.snapshots[|row.snapshots| - 1]);
    }
  }

  // The time of creation is another matter: once a snapshot was saved it is the
  // snapshot's time that a load reports.
  lemma {:induction false} CreationTimeKeptIff(row: Stream, sid: StreamId)
    requires Retained(row, sid)
    ensures var loaded := Selected(row, None, None);
            && loaded != []
            && (loaded[0].createdAt == row.events[0].createdAt
                <==> row.snapshots == [] || Latest(row.snapshots).createdAt == row.events[0].createdAt)
  {
    QueryIsTail(row, sid);
    TailOnStream(row, sid);
    if row.snapshots != [] {
      LatestIsLast(row.snapshots);
    }
  }

  lemma {:induction false} CapturesMore<S>(apply: Apply<S>, init: S, events: seq<RawEvent>, more: seq<RawEvent>,
                                           snapshot: RawEvent)
    requires Captures(apply, init, events, snapshot)
    ensures Captures(apply, init, events + more, snapshot)
  {
    assert (events + more)[..snapshot.version.value] == events[..snapshot.version.value];
  }

  lemma {:induction false} InsertKeepsFaithful<S>(apply: Apply<S>, init: S, db: Db, tenant: string, sid: StreamId,
                                                  versioning: Versioning, events: seq<RawEvent>)
    requires AllFaithful(apply, init, db) && Sql.Inserted(db, tenant, sid, versioning, events).Success?
    ensures AllFaithful(apply, init, Sql.Inserted(db, tenant, sid, versioning, events).value)
  {
    var key, next := KeyOf(tenant, sid), Sql.Inserted(db, tenant, sid, versioning, events).value;
    if key in db {
      forall s | s in next[key].snapshots
        ensures Captures(apply, init, next[key].events, s)
      {
        CapturesMore(apply, init, db[key].events, events, s);
      }
    }
  }

  lemma {:induction false} SnapshotKeepsFaithful<S>(apply: Apply<S>, init: S, db: Db, tenant: string, raw: RawEvent)
    requires AllFaithful(apply, init, db) && Sql.SnapshotSaved(db, tenant, raw).Success?
    requires Captures(apply, init, db[KeyOf(tenant, raw.stream)].events, raw)
    ensures AllFaithful(apply, init, Sql.SnapshotSaved(db, tenant, raw).value)
  {
    var next := Sql.SnapshotSaved(db, tenant, raw).value;
    forall key | key in next
      ensures Faithful(apply, init, next[key])
    {
      forall s | s in next[key].snapshots
        ensures Captures(apply, init, next[key].events, s)
      {
        FilterMember(Sql.OtherThan(raw.uuid), db[key].snapshots, s);
      }
    }
  }

  lemma {:induction false} RunKeepsFaithful<S>(apply: Apply<S>, init: S, db: Db, tenant: string, ops: seq<Op>)
    requires forall op :: op in ops && op.Append? ==> op.events != []
    requires AllFaithful(apply, init, db) && FaithfulRun(apply, init, tenant, db, ops)
    ensures AllFaithful(apply, init, SqlRun(db, tenant, ops).0)
    decreases |ops|
  {
    if ops != [] {
      var op := ops[0];
      match op {
        case Append(sid, expected, events) =>
          if Sql.Inserted(db, tenant, sid, ExplicitFor(events, expected), Numbered(events, expected)).Success? {
            InsertKeepsFaithful(apply, init, db, tenant, sid, ExplicitFor(events, expected),
                                Numbered(events, expected));
          }
        case Snapshot(raw) =>
          if Sql.SnapshotSaved(db, tenant, raw).Success? {
            SnapshotKeepsFaithful(apply, init, db, tenant, raw);
          }
        case Delete(_) =>
      }
      RunKeepsFaithful(apply, init, SqlPerform(db, tenant, op).0, tenant, ops[1..]);
    }
  }

  /******* The same run without snapshots *******/

  function WithoutSnapshots(ops: seq<Op>): (r: seq<Op>)
    ensures forall op :: op in r ==> op in ops && !op.Snapshot?
  {
    if ops == [] then []
    else (if ops[0].Snapshot? then [] else [ops[0]]) + WithoutSnapshots(ops[1..])
  }

  function EventsOnly(db: Db): Db {
    map key | key in db :: db[key].(snapshots := [])
  }

  lemma {:induction false} NamesOfEvents(db: Db, tenant: string, sid: StreamId)
    ensures NameTaken(EventsOnly(db), tenant, sid) <==> NameTaken(db, tenant, sid)
  {
    if NameTaken(db, tenant, sid) {
      var key :| key in db && HasName(db, tenant, sid, key);
      assert key in EventsOnly(db) && HasName(EventsOnly(db), tenant, sid, key);
    }
    if NameTaken(EventsOnly(db), tenant, sid) {
      var key :| key in EventsOnly(db) && HasName(EventsOnly(db), tenant, sid, key);
      assert key in db && HasName(db, tenant, sid, key);
    }
  }

  lemma {:induction false} UuidsOfEvents(db: Db, uuid: nat)
    ensures Sql.UuidTaken(EventsOnly(db), uuid) <==> Sql.UuidTaken(db, uuid)
  {
    if Sql.UuidTaken(db, uuid) {
      var key :| key in db && HasUuid(db[key].events, uuid);
      assert key in EventsOnly(db);
    }
    if Sql.UuidTaken(EventsOnly(db), uuid) {
      var key :| key in EventsOnly(db) && HasUuid(EventsOnly(db)[key].events, uuid);
      assert key in db;
    }
  }

  lemma {:induction false} EnsuredOfEvents(db: Db, tenant: string, sid: StreamId, versioning: Versioning)
    ensures var r, r' := Sql.Ensured(db, tenant, sid, versioning), Sql.Ensured(EventsOnly(db), tenant, sid, versioning);
            if r.Success? then r' == Success(EventsOnly(r.value)) else r' == r
  {
    NamesOfEvents(db, tenant, sid);
    var r, r' := Sql.Ensured(db, tenant, sid, versioning), Sql.Ensured(EventsOnly(db), tenant, sid, versioning);
    if r.Success? {
      assert r'.value == EventsOnly(r.value);
    }
  }

  // Appends do not look at snapshots.
  lemma {:induction false} InsertOfEvents(db: Db, tenant: string, sid: StreamId, versioning: Versioning,
                                          events: seq<RawEvent>)
    ensures var r, r' := Sql.Inserted(db, tenant, sid, versioning, events),
              Sql.Inserted(EventsOnly(db), tenant, sid, versioning, events);
            if r.Success? then r' == Success(EventsOnly(r.value)) else r' == r
  {
    EnsuredOfEvents(db, tenant, sid, versioning);
    forall e | e in events
      ensures Sql.UuidTaken(EventsOnly(db), e.uuid) <==> Sql.UuidTaken(db, e.uuid)
    {
      UuidsOfEvents(db, e.uuid);
    }
    var r, r' := Sql.Inserted(db, tenant, sid, versioning, events),
          Sql.Inserted(EventsOnly(db), tenant, sid, versioning, events);
    if r.Success? {
      assert r'.value == EventsOnly(r.value);
    }
  }

  lemma {:induction false} StepOfEvents(db: Db, tenant: string, op: Op)
    requires op.Append? ==> op.events != []
    ensures EventsOnly(SqlPerform(db, tenant, op).0)
         == if op.Snapshot? then EventsOnly(db) else SqlPerform(EventsOnly(db), tenant, op).0
  {
    match op
    case Append(sid, expected, events) =>
      InsertOfEvents(db, tenant, sid, ExplicitFor(events, expected), Numbered(events, expected));
    case Snapshot(raw) =>
      assert EventsOnly(SqlPerform(db, tenant, op).0) == EventsOnly(db);
    case Delete(sid) =>
      assert EventsOnly(Sql.Deleted(db, tenant, sid)) == Sql.Deleted(EventsOnly(db), tenant, sid);
  }

  lemma {:induction false} RunOfEvents(db: Db, tenant: string, ops: seq<Op>)
    requires forall op :: op in ops && op.Append? ==> op.events != []
    ensures EventsOnly(SqlRun(db, tenant, ops).0) == SqlRun(EventsOnly(db), tenant, WithoutSnapshots(ops)).0
    decreases |ops|
  {
    if ops != [] {
      StepOfEvents(db, tenant, ops[0]);
      RunOfEvents(SqlPerform(db, tenant, ops[0]).0, tenant, ops[1..]);
      if ops[0].Snapshot? {
        assert WithoutSnapshots(ops) == WithoutSnapshots(ops[1..]);
      } else {
        assert WithoutSnapshots(ops)[1..] == WithoutSnapshots(ops[1..]);
      }
    }
  }

  lemma {:induction false} FullHistoryLoads(db: Db, tenant: string, sid: StreamId)
    requires KeyOf(tenant, sid) in db ==> Retained(db[KeyOf(tenant, sid)], sid)
    requires sid.key.category != Some("")
    ensures SqlLoad(EventsOnly(db), tenant, sid)
         == if KeyOf(tenant, sid) in db then db[KeyOf(tenant, sid)].events else []
  {
    var key := KeyOf(tenant, sid);
    if key in db {
      assert Retained(EventsOnly(db)[key], sid);
      SqlLoadsTail(EventsOnly(db), tenant, sid);
    }
  }

  // Snapshots are invisible to aggregates: loading from a store that threw history away
  // rebuilds the state and version of the same run without any snapshot.
  lemma {:induction false} SnapshotsAreInvisible<S>(apply: Apply<S>, init: S, names: Names,
                                                    tenant: string, ops: seq<Op>, sid: StreamId)
    requires AllowedRun(names, tenant, map[], ops) && Addressed(names, sid)
    requires forall op :: op in ops && op.Append? ==> op.events != []
    requires FaithfulRun(apply, init, tenant, map[], ops)
    ensures var loaded := MemLoad(MemRun(Mem.Empty, tenant, ops).0, tenant, sid);
            var full := SqlLoad(SqlRun(map[], tenant, WithoutSnapshots(ops)).0, tenant, sid);
            && Fold(apply, init, loaded) == Fold(apply, init, full)
            && LastVersion(loaded, Some(0)) == LastVersion(full, Some(0))
  {
    var mem, db := MemRun(Mem.Empty, tenant, ops).0, SqlRun(map[], tenant, ops).0;
    EmptySimulates(names, tenant);
    RunSimulates(names, tenant, Mem.Empty, map[], ops);
    SameLoad(names, tenant, mem, db, sid);
    RunKeepsFaithful(apply, init, map[], tenant, ops);
    assert EventsOnly(map[]) == map[];
    RunOfEvents(map[], tenant, ops);
    assert Mirrored(mem, tenant, db, sid);
    FullHistoryLoads(db, tenant, sid);
    if KeyOf(tenant, sid) in db {
      SqlLoadsTail(db, tenant, sid);
      TailReplays(apply, init, db[KeyOf(tenant, sid)], sid);
    }
  }
}
