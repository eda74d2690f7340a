/**
 Loading a part of a stream, by versions: which piece of the history each store returns, and
 where the in-memory list, cut by index, and the tables, filtered by version, part company.
 */
module RangeLoads {
  import opened Wrappers
  import opened Seqs
  import opened Events
  import opened Ranges
  import opened StreamTables
  import opened VersionOrder
  import opened SnapshotRefinement
  import Mem = InMemoryStore
  import Alchemy = SqlAlchemyStore
  import Sql = DjangoStore

  /******* The tables *******/

  predicate Within(start: Option<int>, stop: Option<int>, version: int) {
    (start.Some? ==> start.value <= version) && (stop.Some? ==> version < stop.value)
  }

  predicate InTheRange(start: Option<int>, stop: Option<int>, e: RawEvent) {
    e.version.Some? && Within(start, stop, e.version.value)
  }

  // Events numbered from one; every snapshot has a version, which is natural.
  ghost predicate Dated(row: Stream) {
    && NumberedFrom(row.events, 0)
    && forall s :: s in row.snapshots ==> s.version.Some? && s.version.value >= 0
  }

  // No snapshot of the range was saved later than this one.
  ghost predicate LatestWithin(snapshots: seq<RawEvent>, start: Option<int>, stop: Option<int>, s: RawEvent) {
    && s in snapshots && InTheRange(start, stop, s)
    && forall o :: o in snapshots && InTheRange(start, stop, o) ==> o.createdAt <= s.createdAt
  }

  // The latest snapshot in range and the piece of the history after it.
  ghost predicate ReadsOn(row: Stream, stop: Option<int>, s: RawEvent, loaded: seq<RawEvent>, sid: StreamId)
    requires s.version.Some?
  {
    loaded != [] && loaded[0] == s.(stream := sid)
    && IsPiece(row.events, Some(s.version.value + 1), stop, loaded[1..], sid)
  }

  // The load of a range is one piece of the history: that of the range, or, when there is a
  // snapshot in range, the latest of these and what comes after it.
  ghost predicate ReadsRange(row: Stream, start: Option<int>, stop: Option<int>, loaded: seq<RawEvent>, sid: StreamId) {
    if exists s :: s in row.snapshots && InTheRange(start, stop, s)
    then exists s :: LatestWithin(row.snapshots, start, stop, s) && ReadsOn(row, stop, s, loaded, sid)
    else IsPiece(row.events, start, stop, loaded, sid)
  }

  lemma {:induction false} PieceReturned(events: seq<RawEvent>, start: Option<int>, stop: Option<int>, sid: StreamId)
    requires NumberedFrom(events, 0)
    ensures IsPiece(events, start, stop, Map(Returned(sid), VersionRange(events, start, stop)), sid)
  {
    hide VersionRange, NumberedFrom, From, IsPiece;
    VersionRangeIsSlice(events, start, stop);
    SliceIsPiece(events, start, stop, VersionRange(events, start, stop), sid);
  }

  lemma {:induction false} SliceIsPiece(events: seq<RawEvent>, start: Option<int>, stop: Option<int>,
                                        piece: seq<RawEvent>, sid: StreamId)
    requires Until(stop, |events|) <= |events|
    requires piece == if From(start) < Until(stop, |events|) then events[From(start)..Until(stop, |events|)] else []
    ensures IsPiece(events, start, stop, Map(Returned(sid), piece), sid)
  {
    hide From, Until, Map;
    var from, until := From(start), Until(stop, |events|);
    if from < until {
      forall i | from <= i < until
        ensures Map(Returned(sid), piece)[i - from] == events[i].(stream := sid)
      {
        ReturnedAt(piece, sid, i - from);
      }
    }
  }

  lemma {:induction false} ReturnedAt(piece: seq<RawEvent>, sid: StreamId, i: nat)
    requires i < |piece|
    ensures Map(Returned(sid), piece)[i] == piece[i].(stream := sid)
  {
    hide Map;
  }

  lemma {:induction false} UntilWithin(stop: Option<int>, length: nat)
    ensures Until(stop, length) <= length
  {
  }

  lemma {:induction false} NewerInRange(events: seq<RawEvent>, start: Option<int>, stop: Option<int>, version: int)
    requires NumberedFrom(events, 0) && Within(start, stop, version)
    ensures Filter(NewerThan(Some(version)), VersionRange(events, start, stop))
         == VersionRange(events, Some(version + 1), stop)
  {
    FilterTwice(InRange(start, stop), NewerThan(Some(version)), InRange(Some(version + 1), stop), events);
  }

  lemma {:induction false} FilterTwice<T>(p: T -> bool, q: T -> bool, both: T -> bool, s: seq<T>)
    requires forall x :: x in s ==> (both(x) <==> p(x) && q(x))
    ensures Filter(q, Filter(p, s)) == Filter(both, s)
  {
    if s != [] {
      assert s[0] in s;
      FilterTwice(p, q, both, s[1..]);
      var rest := Filter(p, s[1..]);
      assert [] + rest == rest && ([s[0]] + rest)[1..] == rest;
    }
  }

  lemma {:induction false} InRangeMember(snapshots: seq<RawEvent>, start: Option<int>, stop: Option<int>)
    requires forall s :: s in snapshots ==> s.version.Some?
    ensures forall s :: s in Filter(InRange(start, stop), snapshots) <==> s in snapshots && InTheRange(start, stop, s)
  {
    forall s
      ensures s in Filter(InRange(start, stop), snapshots) <==> s in snapshots && InTheRange(start, stop, s)
    {
      FilterMember(InRange(start, stop), snapshots, s);
    }
  }

  lemma {:induction false} ReturnedAfter(s: RawEvent, events: seq<RawEvent>, sid: StreamId)
    ensures Map(Returned(sid), [s] + events) == [s.(stream := sid)] + Map(Returned(sid), events)
  {
  }

  lemma {:induction false} SelectedWithSnapshot(row: Stream, start: Option<int>, stop: Option<int>)
    requires NumberedFrom(row.events, 0) && Filter(InRange(start, stop), row.snapshots) != []
    ensures var s := Latest(Filter(InRange(start, stop), row.snapshots));
            Selected(row, start, stop) == [s] + Filter(NewerThan(s.version), VersionRange(row.events, start, stop))
  {
    hide NumberedFrom, InRange, VersionRange, Filter, ByVersion;
    NumberedIsByVersion(row.events, 0);
  }

  lemma {:induction false} SelectsNewer(row: Stream, start: Option<int>, stop: Option<int>)
    requires Dated(row) && Filter(InRange(start, stop), row.snapshots) != []
    ensures var s := Latest(Filter(InRange(start, stop), row.snapshots));
            s.version.Some?
            && Selected(row, start, stop) == [s] + VersionRange(row.events, Some(s.version.value + 1), stop)
  {
    var s := Latest(Filter(InRange(start, stop), row.snapshots));
    InRangeMember(row.snapshots, start, stop);
    SelectedWithSnapshot(row, start, stop);
    assert InTheRange(start, stop, s) && NumberedFrom(row.events, 0) && s.version.Some?;
    hide NumberedFrom, InRange, VersionRange, Dated, Selected, Filter;
    NewerInRange(row.events, start, stop, s.version.value);
  }

  lemma {:induction false} LoadFromSnapshot(key: Key, row: Stream, start: Option<int>, stop: Option<int>)
    requires Dated(row) && Filter(InRange(start, stop), row.snapshots) != []
    ensures var s := Latest(Filter(InRange(start, stop), row.snapshots));
            && LatestWithin(row.snapshots, start, stop, s)
            && ReadsOn(row, stop, s, Loaded(key, row, start, stop), RowId(key, row.name))
  {
    var sid, s := RowId(key, row.name), Latest(Filter(InRange(start, stop), row.snapshots));
    InRangeMember(row.snapshots, start, stop);
    SelectsNewer(row, start, stop);
    assert NumberedFrom(row.events, 0);
    hide Selected, VersionRange, IsPiece, NumberedFrom, Returned, RowId, InRange, Filter, Map, Dated, ReadsOn;
    ReadsFrom(row, stop, s, sid);
  }

  lemma {:induction false} ReadsFrom(row: Stream, stop: Option<int>, s: RawEvent, sid: StreamId)
    requires s.version.Some? && NumberedFrom(row.events, 0)
    ensures ReadsOn(row, stop, s,
                    Map(Returned(sid), [s] + VersionRange(row.events, Some(s.version.value + 1), stop)), sid)
  {
    hide VersionRange, IsPiece, NumberedFrom, Returned, Map;
    var newer := VersionRange(row.events, Some(s.version.value + 1), stop);
    PieceReturned(row.events, Some(s.version.value + 1), stop, sid);
    ReturnedAfter(s, newer, sid);
    assert Map(Returned(sid), [s] + newer)[1..] == Map(Returned(sid), newer);
  }

  lemma {:induction false} LoadReadsRange(key: Key, row: Stream, start: Option<int>, stop: Option<int>)
    requires Dated(row)
    ensures ReadsRange(row, start, stop, Loaded(key, row, start, stop), RowId(key, row.name))
  {
    InRangeMember(row.snapshots, start, stop);
    var snapshots := Filter(InRange(start, stop), row.snapshots);
    if snapshots == [] {
      NumberedIsByVersion(row.events, 0);
      PieceReturned(row.events, start, stop, RowId(key, row.name));
      assert forall s :: s in row.snapshots && InTheRange(start, stop, s) ==> s in snapshots;
    } else {
      hide Loaded, IsPiece, VersionRange, ReadsOn, NumberedFrom, InTheRange;
      LoadFromSnapshot(key, row, start, stop);
    }
  }

  function IdentityOf(key: Key, name: Option<string>): StreamId {
    StreamId(StreamKey(key.uuid, if key.category == "" then None else Some(key.category)), name)
  }

  // Both SQL backends read a range as one piece of the stream's history, under its identifier.
  lemma {:induction false} DjangoReadsRange(db: Db, tenant: string, sid: StreamId, start: Option<int>,
                                            stop: Option<int>)
    requires KeyOf(tenant, sid) in db ==> Dated(db[KeyOf(tenant, sid)])
    ensures var loaded, key := Sql.Fetched(db, tenant, sid, start, stop), KeyOf(tenant, sid);
            if key in db then ReadsRange(db[key], start, stop, loaded, IdentityOf(key, db[key].name)) else loaded == []
  {
    if KeyOf(tenant, sid) in db {
      LoadReadsRange(KeyOf(tenant, sid), db[KeyOf(tenant, sid)], start, stop);
    }
  }

  lemma {:induction false} AlchemyReadsRange(table: Db, sid: StreamId, start: Option<int>, stop: Option<int>)
    requires Alchemy.RowKey(sid) in table ==> Dated(table[Alchemy.RowKey(sid)])
    ensures var loaded, key := Alchemy.Fetched(table, sid, start, stop), Alchemy.RowKey(sid);
            if key in table && (sid.name in {None, Some("")} || table[key].name == sid.name)
            then ReadsRange(table[key], start, stop, loaded, IdentityOf(key, table[key].name)) else loaded == []
  {
    if Alchemy.RowKey(sid) in table {
      LoadReadsRange(Alchemy.RowKey(sid), table[Alchemy.RowKey(sid)], start, stop);
    }
  }

  /******* Saving a snapshot in the tables *******/

  // All rows have kept names, versions and events; the snapshots are the old ones without those
  // of the new one's uuid, and the new one on its stream.
  ghost predicate SnapshotAdded(db: Db, now: Db, key: Key, raw: RawEvent) {
    && now.Keys == db.Keys
    && (forall k :: k in db ==> now[k].(snapshots := []) == db[k].(snapshots := []))
    && (forall k, s :: k in db ==>
        (s in now[k].snapshots <==> (s in db[k].snapshots && s.uuid != raw.uuid) || (k == key && s == raw)))
  }

  // SQLAlchemy saves a snapshot if and only if the stream is there, under this name if one is
  // asked for, the snapshot has a version, and no snapshot has its uuid.
  lemma {:induction false} AlchemySnapshotIff(table: Db, raw: RawEvent)
    ensures var r, key := Alchemy.SnapshotSaved(table, raw), Alchemy.RowKey(raw.stream);
            && (r.Success? <==>
                && key in table && (raw.stream.name in {None, Some("")} || table[key].name == raw.stream.name)
                && raw.version != None
                && forall k, s :: k in table && s in table[k].snapshots ==> s.uuid != raw.uuid)
            && (r.Success? ==> SnapshotAdded(table, r.value, key, raw))
  {
    hide KeyOf;
    if Alchemy.SnapshotSaved(table, raw).Success? {
      forall k, s | k in table && s in table[k].snapshots
        ensures s.uuid != raw.uuid
      {
        assert !HasUuid(table[k].snapshots, raw.uuid);
      }
    }
  }

  // Django writes over a snapshot with the same uuid, on whichever stream it is.
  lemma {:induction false} OthersKept(snapshots: seq<RawEvent>, uuid: nat)
    ensures forall s :: s in Filter(Sql.OtherThan(uuid), snapshots) <==> s in snapshots && s.uuid != uuid
  {
    forall s
      ensures s in Filter(Sql.OtherThan(uuid), snapshots) <==> s in snapshots && s.uuid != uuid
    {
      FilterMember(Sql.OtherThan(uuid), snapshots, s);
    }
  }

  lemma {:induction false} DjangoSnapshotIff(db: Db, tenant: string, raw: RawEvent)
    ensures var r, key := Sql.SnapshotSaved(db, tenant, raw), KeyOf(tenant, raw.stream);
            && (r.Success? <==> key in db && raw.version != None)
            && (r.Success? ==> SnapshotAdded(db, r.value, key, raw))
  {
    hide Filter, Sql.OtherThan, KeyOf;
    forall k | k in db {
      OthersKept(db[k].snapshots, raw.uuid);
    }
  }

  // A snapshot later than all others is what the stream loads from, with the events after it.
  lemma {:induction false} LoadsFromNewest(db: Db, now: Db, key: Key, raw: RawEvent)
    requires key in db && Dated(db[key]) && raw.version.Some? && raw.version.value >= 0
    requires SnapshotAdded(db, now, key, raw) && forall s :: s in db[key].snapshots ==> s.createdAt < raw.createdAt
    ensures ReadsOn(now[key], None, raw, Loaded(key, now[key], None, None), RowId(key, now[key].name))
  {
    var row := now[key];
    assert row.(snapshots := []) == db[key].(snapshots := []);
    hide Loaded, ReadsOn;
    LoadReadsRange(key, row, None, None);
    assert raw in row.snapshots && InTheRange(None, None, raw);
  }

  /******* The list in memory *******/

  function Cut<T>(s: seq<T>, start: Option<int>, stop: Option<int>): seq<T> {
    if From(start) < Until(stop, |s|) then s[From(start)..Until(stop, |s|)] else []
  }

  lemma {:induction false} SliceIsCut<T>(s: seq<T>, start: Option<int>, stop: Option<int>)
    requires Natural(start) && Natural(stop)
    ensures Mem.PySlice(s, Mem.Offset(start), Mem.Offset(stop)) == Cut(s, start, stop)
  {
  }

  lemma {:induction false} EntriesCut(records: seq<RecordedRaw>, start: Option<int>, stop: Option<int>)
    ensures Mem.Entries(Cut(records, start, stop)) == Cut(Mem.Entries(records), start, stop)
  {
  }

  lemma {:induction false} MemReadsCut(mem: Mem.Store, tenant: string, key: StreamKey, start: Option<int>,
                                       stop: Option<int>)
    requires key in mem.data && OneTenant(mem.data[key], tenant) && Natural(start) && Natural(stop)
    ensures Mem.Fetched(mem, key, start, stop, tenant) == Mem.Entries(Cut(mem.data[key], start, stop))
  {
    hide Mem.PySlice, Mem.Offset, Mem.Entries;
    SliceIsCut(mem.data[key], start, stop);
    FilterAll(Mem.OfTenant(tenant), Cut(mem.data[key], start, stop));
  }

  // In memory a load is cut out of the list by position, whatever the versions are.
  lemma {:induction false} MemReadsByPosition(mem: Mem.Store, tenant: string, key: StreamKey, start: Option<int>,
                                              stop: Option<int>)
    requires key in mem.data && OneTenant(mem.data[key], tenant) && Natural(start) && Natural(stop)
    ensures var list, from := mem.data[key], From(start);
            var loaded, until := Mem.Fetched(mem, key, start, stop, tenant), Until(stop, |list|);
            if from < until then
              && |loaded| == until - from
              && forall i :: 0 <= i < |loaded| ==> loaded[i] == list[from + i].entry
            else loaded == []
  {
    hide Mem.Fetched, OneTenant, From, Until;
    MemReadsCut(mem, tenant, key, start, stop);
    UntilWithin(stop, |mem.data[key]|);
  }

  // Cutting by position (in memory) and filtering by version (SQL) agree on streams numbered
  // from one.
  lemma {:induction false} SliceIsVersionRange(events: seq<RawEvent>, start: Option<int>, stop: Option<int>)
    requires NumberedFrom(events, 0) && Natural(start) && Natural(stop)
    ensures Mem.PySlice(events, Mem.Offset(start), Mem.Offset(stop)) == VersionRange(events, start, stop)
  {
    VersionRangeIsPiece(events, 0, start, stop);
  }

  // A negative start counts from the end when slicing, so the two part company on any
  // stream longer than it reaches.
  lemma {:induction false} NegativeStartAgreesIff(events: seq<RawEvent>, start: int)
    requires NumberedFrom(events, 0) && start < 0
    ensures Mem.PySlice(events, Mem.Offset(Some(start)), None) == VersionRange(events, Some(start), None)
            <==> |events| <= 1 - start
  {
    VersionRangeIsPiece(events, 0, Some(start), None);
  }

  /******* Ranges after a snapshot *******/

  // The last snapshot of a stream that has one, and the number of events it covers.
  function Covered(row: Stream): int
    requires row.snapshots != []
  {
    var version := row.snapshots[|row.snapshots| - 1].version;
    if version.Some? then version.value else 0
  }

  lemma {:induction false} TailIsNumbered(row: Stream, sid: StreamId)
    requires Retained(row, sid) && row.snapshots != []
    ensures 1 <= Covered(row) <= |row.events| && |Tail(row)| == |row.events| - Covered(row) + 1
    ensures Tail(row) == [row.snapshots[|row.snapshots| - 1]] + row.events[Covered(row)..]
    ensures NumberedFrom(Tail(row), Covered(row) - 1)
    ensures forall s :: s in row.snapshots ==> s.version.Some? && 1 <= s.version.value <= Covered(row)
  {
    assert row.snapshots[|row.snapshots| - 1] in row.snapshots;
  }

  lemma {:induction false} LatestWithinIsLast(snapshots: seq<RawEvent>, p: RawEvent -> bool)
    requires snapshots != [] && Increasing(snapshots) && p(snapshots[|snapshots| - 1])
    ensures Filter(p, snapshots) != [] && Latest(Filter(p, snapshots)) == snapshots[|snapshots| - 1]
  {
    var last, picked := snapshots[|snapshots| - 1], Filter(p, snapshots);
    FilterMember(p, snapshots, last);
    var latest := Latest(picked);
    FilterMember(p, snapshots, latest);
    var i :| 0 <= i < |snapshots| && snapshots[i] == latest;
    assert i < |snapshots| - 1 ==> Earlier(snapshots, i, |snapshots| - 1);
  }

  lemma {:induction false} PicksLast(row: Stream, sid: StreamId, start: Option<int>, stop: Option<int>)
    requires Retained(row, sid) && row.snapshots != [] && Within(start, stop, Covered(row))
    ensures var last, picked := row.snapshots[|row.snapshots| - 1], Filter(InRange(start, stop), row.snapshots);
            picked != [] && Latest(picked) == last && last.version == Some(Covered(row))
    ensures Dated(row) && NumberedFrom(row.events, 0) && 1 <= Covered(row) <= |row.events|
  {
    TailIsNumbered(row, sid);
    assert InRange(start, stop)(row.snapshots[|row.snapshots| - 1]);
    hide NumberedFrom, Filter, Increasing, InRange;
    LatestWithinIsLast(row.snapshots, InRange(start, stop));
  }

  // The query, when the last snapshot is in range.
  lemma {:induction false} SelectsFromLast(row: Stream, sid: StreamId, start: Option<int>, stop: Option<int>)
    requires Retained(row, sid) && row.snapshots != [] && Within(start, stop, Covered(row))
    ensures Until(stop, |row.events|) >= Covered(row)
    ensures Selected(row, start, stop)
         == [row.snapshots[|row.snapshots| - 1]] + row.events[Covered(row)..Until(stop, |row.events|)]
  {
    hide Retained, Selected, VersionRange, NumberedFrom, Dated, InRange, Filter;
    PicksLast(row, sid, start, stop);
    SelectsNewer(row, start, stop);
    VersionRangeIsSlice(row.events, Some(Covered(row) + 1), stop);
  }

  // The query, when the range starts after the last snapshot.
  lemma {:induction false} SelectsPast(row: Stream, sid: StreamId, start: Option<int>, stop: Option<int>)
    requires Retained(row, sid) && row.snapshots != [] && start.Some? && start.value > Covered(row)
    ensures Selected(row, start, stop) == Cut(row.events, start, stop)
  {
    TailIsNumbered(row, sid);
    NumberedIsByVersion(row.events, 0);
    FilterNone(InRange(start, stop), row.snapshots);
    VersionRangeIsSlice(row.events, start, stop);
  }

  lemma {:induction false} SelectedInRange(row: Stream, start: Option<int>, stop: Option<int>)
    requires NumberedFrom(row.events, 0)
    ensures forall e :: e in Selected(row, start, stop) ==>
              InRange(start, stop)(e) && (e in row.events || e in row.snapshots)
    ensures Selected(row, start, stop) == [] ==> Cut(row.events, start, stop) == []
  {
    var events := VersionRange(row.events, start, stop);
    NumberedIsByVersion(row.events, 0);
    VersionRangeIsSlice(row.events, start, stop);
    forall e
      ensures e in events ==> InRange(start, stop)(e) && e in row.events
    {
      FilterMember(InRange(start, stop), row.events, e);
    }
    var snapshots := Filter(InRange(start, stop), row.snapshots);
    if snapshots != [] {
      FilterMember(InRange(start, stop), row.snapshots, Latest(snapshots));
      forall e
        ensures e in Filter(NewerThan(Latest(snapshots).version), events) ==> e in events
      {
        FilterMember(NewerThan(Latest(snapshots).version), events, e);
      }
    }
  }

  // The range is the whole stream, or lies behind it, or is empty.
  predicate RangeIsPlain(start: Option<int>, stop: Option<int>, length: nat) {
    || (From(start) == 0 && (stop.Some? ==> stop.value > length))
    || From(start) >= length
    || (stop.Some? && From(start) >= stop.value - 1)
  }

  // The lists below start with a snapshot covering the first m of n events.
  lemma {:induction false} CutStarts(list: seq<RawEvent>, m: nat, start: Option<int>, stop: Option<int>)
    requires m >= 1 && NumberedFrom(list, m - 1)
    ensures var cut := Cut(list, start, stop);
            && (cut != [] <==> From(start) < Until(stop, |list|))
            && (cut != [] ==> cut[0].version == Some(m + From(start)))
  {
  }

  lemma {:induction false} CutFromStart(last: RawEvent, events: seq<RawEvent>, m: nat, stop: Option<int>)
    requires 1 <= m <= |events| && (stop.Some? ==> stop.value > m)
    ensures Cut([last] + events[m..], None, stop) == [last] + events[m..Until(stop, |events|)]
            <==> m == 1 || (stop.Some? ==> stop.value > |events|)
  {
    var list, until := [last] + events[m..], Until(stop, |events|);
    assert [last] + events[m..until] == list[..1 + until - m];
    assert Cut(list, None, stop) == list[..Until(stop, |list|)];
    assert |list[..Until(stop, |list|)]| == Until(stop, |list|);
  }

  lemma {:induction false} AcrossIff(list: seq<RawEvent>, selected: seq<RawEvent>, last: RawEvent,
                                     events: seq<RawEvent>, m: nat, start: Option<int>, stop: Option<int>)
    requires 1 <= m <= |events| && Within(start, stop, m)
    requires list == [last] + events[m..] && NumberedFrom(list, m - 1)
    requires selected == [last] + events[m..Until(stop, |events|)]
    ensures Cut(list, start, stop) == selected <==> m == 1 || RangeIsPlain(start, stop, |events|)
  {
    if From(start) == 0 {
      assert Cut(list, start, stop) == Cut(list, None, stop);
      CutFromStart(last, events, m, stop);
    } else {
      CutStarts(list, m, start, stop);
      assert list[0].version == Some(m) && selected[0] == last;
    }
  }

  lemma {:induction false} PastIff(list: seq<RawEvent>, last: RawEvent, events: seq<RawEvent>, m: nat, start: int,
                                   stop: Option<int>)
    requires 1 <= m <= |events| && start > m && NumberedFrom(events, 0)
    requires list == [last] + events[m..] && NumberedFrom(list, m - 1)
    ensures Cut(list, Some(start), stop) == Cut(events, Some(start), stop)
            <==> m == 1 || RangeIsPlain(Some(start), stop, |events|)
  {
    CutStarts(list, m, Some(start), stop);
    CutStarts(events, 1, Some(start), stop);
    hide NumberedFrom;
    if m == 1 {
      forall i | 1 <= i < |events|
        ensures list[i] == events[i]
      {
      }
      assert |list| == |events|;
    }
  }

  lemma {:induction false} AcrossTheSnapshot(row: Stream, sid: StreamId, start: Option<int>, stop: Option<int>)
    requires Retained(row, sid) && row.snapshots != [] && Within(start, stop, Covered(row))
    ensures Cut(Tail(row), start, stop) == Selected(row, start, stop)
            <==> Covered(row) == 1 || RangeIsPlain(start, stop, |row.events|)
  {
    hide Selected, Retained, NumberedFrom, RangeIsPlain, Cut, Tail, Covered, Within, Until;
    TailIsNumbered(row, sid);
    SelectsFromLast(row, sid, start, stop);
    AcrossIff(Tail(row), Selected(row, start, stop), row.snapshots[|row.snapshots| - 1], row.events, Covered(row),
              start, stop);
  }

  lemma {:induction false} BeforeTheSnapshot(row: Stream, sid: StreamId, start: Option<int>, stop: Option<int>)
    requires Retained(row, sid) && row.snapshots != [] && stop.Some? && stop.value <= Covered(row)
    ensures Cut(Tail(row), start, stop) == Selected(row, start, stop)
            <==> Covered(row) == 1 || RangeIsPlain(start, stop, |row.events|)
  {
    TailIsNumbered(row, sid);
    CutStarts(Tail(row), Covered(row), start, stop);
    SelectedInRange(row, start, stop);
    var cut, selected := Cut(Tail(row), start, stop), Selected(row, start, stop);
    hide Selected, Retained, Tail;
    if selected != [] {
      assert selected[0] in selected;
    }
  }

  lemma {:induction false} PastTheSnapshot(row: Stream, sid: StreamId, start: Option<int>, stop: Option<int>)
    requires Retained(row, sid) && row.snapshots != [] && start.Some? && start.value > Covered(row)
    ensures Cut(Tail(row), start, stop) == Selected(row, start, stop)
            <==> Covered(row) == 1 || RangeIsPlain(start, stop, |row.events|)
  {
    TailIsNumbered(row, sid);
    SelectsPast(row, sid, start, stop);
    assert NumberedFrom(row.events, 0);
    hide Selected, Retained, NumberedFrom, RangeIsPlain, Cut, Tail, Covered;
    PastIff(Tail(row), row.snapshots[|row.snapshots| - 1], row.events, Covered(row), start.value, stop);
  }

  /******* Both stores *******/

  lemma {:induction false} RangeAgreesIff(row: Stream, sid: StreamId, start: Option<int>, stop: Option<int>)
    requires Retained(row, sid) && Natural(start) && Natural(stop)
    ensures Cut(Tail(row), start, stop) == Selected(row, start, stop)
            <==> row.snapshots == [] || Covered(row) == 1 || RangeIsPlain(start, stop, |row.events|)
  {
    if row.snapshots == [] {
      NumberedIsByVersion(row.events, 0);
      VersionRangeIsSlice(row.events, start, stop);
    } else if Within(start, stop, Covered(row)) {
      AcrossTheSnapshot(row, sid, start, stop);
    } else if stop.Some? && stop.value <= Covered(row) {
      BeforeTheSnapshot(row, sid, start, stop);
    } else {
      PastTheSnapshot(row, sid, start, stop);
    }
  }

  lemma {:induction false} SelectedOnStream(row: Stream, sid: StreamId, start: Option<int>, stop: Option<int>)
    requires Retained(row, sid)
    ensures AllOn(Selected(row, start, stop), sid)
  {
    SelectedInRange(row, start, stop);
    hide Selected, NumberedFrom, Increasing, LastCoversMost;
  }

  lemma {:induction false} SqlReadsSelected(db: Db, tenant: string, sid: StreamId, start: Option<int>,
                                            stop: Option<int>)
    requires KeyOf(tenant, sid) in db && Retained(db[KeyOf(tenant, sid)], sid) && sid.key.category != Some("")
    ensures Sql.Fetched(db, tenant, sid, start, stop) == Selected(db[KeyOf(tenant, sid)], start, stop)
  {
    var row := db[KeyOf(tenant, sid)];
    SelectedOnStream(row, sid, start, stop);
    assert RowId(KeyOf(tenant, sid), row.name) == sid;
    hide Selected, Retained;
    ReturnedUnchanged(Selected(row, start, stop), sid);
  }

  lemma {:induction false} SameRangeIff(names: Names, tenant: string, mem: Mem.Store, db: Db, sid: StreamId,
                                        start: Option<int>, stop: Option<int>)
    requires Simulates(names, tenant, mem, db) && Addressed(names, sid) && Natural(start) && Natural(stop)
    ensures var key := KeyOf(tenant, sid);
            Mem.Fetched(mem, sid.key, start, stop, tenant) == Sql.Fetched(db, tenant, sid, start, stop)
            <==> key !in db || db[key].snapshots == [] || Covered(db[key]) == 1
                 || RangeIsPlain(start, stop, |db[key].events|)
  {
    var key := KeyOf(tenant, sid);
    assert Mirrored(mem, tenant, db, sid);
    if sid.key in mem.data {
      MemReadsCut(mem, tenant, sid.key, start, stop);
      EntriesCut(mem.data[sid.key], start, stop);
    }
    hide Simulates, Retained, Tail, Mem.Fetched, Sql.Fetched, RangeIsPlain, Covered, Addressed;
    if key in db {
      RangeAgreesIff(db[key], sid, start, stop);
      SqlReadsSelected(db, tenant, sid, start, stop);
    }
  }

  // After every allowed run and for any natural bounds, the range loads of the two stores are
  // the same if and only if the stream has no snapshot, or its last one covers a single event,
  // or the range is the whole stream, behind it, or empty.
  lemma {:induction false} RangeLoadsAgreeIff(names: Names, tenant: string, ops: seq<Op>, sid: StreamId,
                                              start: Option<int>, stop: Option<int>)
    requires AllowedRun(names, tenant, map[], ops) && Addressed(names, sid) && Natural(start) && Natural(stop)
    requires forall op :: op in ops && op.Append? ==> op.events != []
    ensures var mem, db, key := MemRun(Mem.Empty, tenant, ops).0, SqlRun(map[], tenant, ops).0, KeyOf(tenant, sid);
            Mem.Fetched(mem, sid.key, start, stop, tenant) == Sql.Fetched(db, tenant, sid, start, stop)
            <==> key !in db || db[key].snapshots == [] || Covered(db[key]) == 1
                 || RangeIsPlain(start, stop, |db[key].events|)
  {
    EmptySimulates(names, tenant);
    RunSimulates(names, tenant, Mem.Empty, map[], ops);
    hide Simulates;
    SameRangeIff(names, tenant, MemRun(Mem.Empty, tenant, ops).0, SqlRun(map[], tenant, ops).0, sid, start, stop);
  }
}
