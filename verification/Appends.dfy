/**
 What an append comes to in each store, with versions or without: when it is accepted, what is
 stored then, and what the stream loads as afterwards.
 */
module Appends {
  import opened Wrappers
  import opened Seqs
  import opened Events
  import opened Ranges
  import opened StreamTables
  import opened VersionOrder
  import Mem = InMemoryStore
  import Alchemy = SqlAlchemyStore
  import Django = DjangoStore

  /******* In memory *******/

  // An unversioned append needs a stream that is absent or has no version; a versioned one
  // needs a stream with the version expected, where absent is zero and zero is not compared.
  lemma {:induction false} MemAcceptedIff(s: Mem.Store, sid: StreamId, versioning: Versioning, events: seq<RawEvent>,
                                          tenant: string)
    requires Mem.Sound(s)
    ensures var r := Mem.Inserted(s, sid, versioning, events, tenant).1;
            var there := sid.key in s.data;
            r.Success? <==>
            match versioning
            case NoVersioning => there ==> s.versions[sid.key] == None
            case Explicit(expected, _) =>
              || (expected == 0 && (there ==> s.versions[sid.key] != None))
              || (there && s.versions[sid.key] == Some(expected))
  {
  }

  lemma {:induction false} AllMine(sid: StreamId, events: seq<RawEvent>, position: nat, tenant: string, key: StreamKey)
    requires AllOn(events, sid)
    ensures var added := Mem.Recorded(events, position, tenant);
            Mem.Part(key, added) == if key == sid.key then added else []
  {
    var added := Mem.Recorded(events, position, tenant);
    forall r | r in added
      ensures r.entry.stream == sid
    {
      assert r.entry in events;
    }
    if key == sid.key {
      FilterAll(Mem.InStream(key), added);
    } else {
      FilterNone(Mem.InStream(key), added);
    }
  }

  // `now` is `before` and then a record of each event, in order, from this position on.
  ghost predicate Logged(before: seq<RecordedRaw>, now: seq<RecordedRaw>, position: nat, events: seq<RawEvent>,
                         tenant: string)
  {
    && |now| == |before| + |events| && now[..|before|] == before
    && forall i :: 0 <= i < |events| ==> now[|before| + i] == RecordedRaw(events[i], position + 1 + i, tenant)
  }

  lemma {:induction false} RecordedIsLogged(before: seq<RecordedRaw>, events: seq<RawEvent>, position: nat,
                                            tenant: string)
    ensures Logged(before, before + Mem.Recorded(events, position, tenant), position, events, tenant)
  {
    assert (before + Mem.Recorded(events, position, tenant))[..|before|] == before;
  }

  lemma {:induction false} ListsAppended(s: Mem.Store, sid: StreamId, events: seq<RawEvent>, position: nat,
                                         tenant: string)
    requires Mem.Sound(s) && sid.key in s.data && AllOn(events, sid)
    ensures var added := Mem.Recorded(events, position, tenant);
            var now := Mem.Appended(s, added);
            && now.records == s.records + added
            && sid.key in now.data && now.data[sid.key] == s.data[sid.key] + added
            && now.data - {sid.key} == s.data - {sid.key}
  {
    hide Mem.Part;
    forall key {
      AllMine(sid, events, position, tenant, key);
    }
    var now := Mem.Appended(s, Mem.Recorded(events, position, tenant));
    forall key | key in s.data && key != sid.key
      ensures now.data[key] == s.data[key]
    {
      AllMine(sid, events, position, tenant, key);
      assert s.data[key] + [] == s.data[key];
    }
  }

  lemma {:induction false} VersionsAppended(s: Mem.Store, sid: StreamId, events: seq<RawEvent>, position: nat,
                                            tenant: string)
    requires Mem.Sound(s) && sid.key in s.data && AllOn(events, sid)
    ensures var now := Mem.Appended(s, Mem.Recorded(events, position, tenant));
            && sid.key in now.versions
            && now.versions[sid.key] == (if events == [] then s.versions[sid.key] else events[|events| - 1].version)
            && now.versions - {sid.key} == s.versions - {sid.key}
  {
    hide Mem.Part;
    forall key {
      AllMine(sid, events, position, tenant, key);
    }
    var now := Mem.Appended(s, Mem.Recorded(events, position, tenant));
    forall key | key in s.versions && key != sid.key
      ensures now.versions[key] == s.versions[key]
    {
      AllMine(sid, events, position, tenant, key);
    }
  }

  lemma {:induction false} EnsuredIsThere(s: Mem.Store, sid: StreamId, versioning: Versioning)
    requires Mem.Sound(s)
    ensures var ready := Mem.EnsuredStream(s, sid.key, versioning);
            && Mem.Sound(ready) && ready.records == s.records
            && sid.key in ready.data && ready.data[sid.key] == (if sid.key in s.data then s.data[sid.key] else [])
            && ready.data - {sid.key} == s.data - {sid.key}
            && ready.versions - {sid.key} == s.versions - {sid.key}
  {
  }

  // An accepted append puts exactly its events, in order, behind the log and behind the list of
  // its stream, which takes the version of the last one. Other streams stay.
  lemma {:induction false} MemAppends(s: Mem.Store, sid: StreamId, versioning: Versioning, events: seq<RawEvent>,
                                      tenant: string)
    requires Mem.Sound(s) && AllOn(events, sid)
    ensures var (now, r) := Mem.Inserted(s, sid, versioning, events, tenant);
            var before := if sid.key in s.data then s.data[sid.key] else [];
            r.Success? ==>
              && Logged(s.records, now.records, |s.records|, events, tenant)
              && Logged([], r.value, |s.records|, events, tenant)
              && sid.key in now.data && Logged(before, now.data[sid.key], |s.records|, events, tenant)
              && (events != [] ==> now.versions[sid.key] == events[|events| - 1].version)
              && now.data - {sid.key} == s.data - {sid.key}
              && now.versions - {sid.key} == s.versions - {sid.key}
  {
    var ready := Mem.EnsuredStream(s, sid.key, versioning);
    if Refusal(versioning, ready.versions[sid.key]).None? {
      EnsuredIsThere(s, sid, versioning);
      ListsAppended(ready, sid, events, |s.records|, tenant);
      VersionsAppended(ready, sid, events, |s.records|, tenant);
      RecordedIsLogged(s.records, events, |s.records|, tenant);
      RecordedIsLogged([], events, |s.records|, tenant);
      RecordedIsLogged(ready.data[sid.key], events, |s.records|, tenant);
      var added := Mem.Recorded(events, |s.records|, tenant);
      assert [] + added == added;
      hide Mem.EnsuredStream, Mem.Appended, Mem.Recorded, Logged, Refusal, AllOn;
    }
  }

  lemma {:induction false} WholeList<T>(s: seq<T>)
    ensures Mem.PySlice(s, None, None) == s
  {
    assert s[0..|s|] == s;
  }

  lemma {:induction false} EntriesJoin(a: seq<RecordedRaw>, b: seq<RecordedRaw>)
    ensures Mem.Entries(a + b) == Mem.Entries(a) + Mem.Entries(b)
  {
  }

  lemma {:induction false} RecordedFor(events: seq<RawEvent>, position: nat, tenant: string, reader: string)
    ensures Mem.Entries(Filter(Mem.OfTenant(reader), Mem.Recorded(events, position, tenant)))
         == if reader == tenant then events else []
  {
    var added := Mem.Recorded(events, position, tenant);
    if reader == tenant {
      FilterAll(Mem.OfTenant(reader), added);
    } else {
      FilterNone(Mem.OfTenant(reader), added);
    }
  }

  lemma {:induction false} ReadGrows(records: seq<RecordedRaw>, events: seq<RawEvent>, position: nat, tenant: string,
                                     reader: string)
    ensures Mem.Entries(Filter(Mem.OfTenant(reader), records + Mem.Recorded(events, position, tenant)))
         == Mem.Entries(Filter(Mem.OfTenant(reader), records)) + if reader == tenant then events else []
  {
    hide Mem.Entries, Mem.Recorded, Filter, Mem.OfTenant;
    var added := Mem.Recorded(events, position, tenant);
    FilterConcat(Mem.OfTenant(reader), records, added);
    EntriesJoin(Filter(Mem.OfTenant(reader), records), Filter(Mem.OfTenant(reader), added));
    RecordedFor(events, position, tenant, reader);
  }

  function ListOf(s: Mem.Store, key: StreamKey): seq<RecordedRaw> {
    if key in s.data then s.data[key] else []
  }

  lemma {:induction false} LoadsList(s: Mem.Store, key: StreamKey, reader: string)
    ensures Mem.Fetched(s, key, None, None, reader) == Mem.Entries(Filter(Mem.OfTenant(reader), ListOf(s, key)))
  {
    WholeList(ListOf(s, key));
  }

  lemma {:induction false} ListGrows(s: Mem.Store, sid: StreamId, versioning: Versioning, events: seq<RawEvent>,
                                     tenant: string, key: StreamKey)
    requires Mem.Sound(s) && AllOn(events, sid) && Mem.Inserted(s, sid, versioning, events, tenant).1.Success?
    ensures ListOf(Mem.Inserted(s, sid, versioning, events, tenant).0, key)
         == ListOf(s, key) + Mem.Recorded(if key == sid.key then events else [], |s.records|, tenant)
  {
    var ready := Mem.EnsuredStream(s, sid.key, versioning);
    EnsuredIsThere(s, sid, versioning);
    ListsAppended(ready, sid, events, |s.records|, tenant);
    var now := Mem.Appended(ready, Mem.Recorded(events, |s.records|, tenant));
    assert Mem.Inserted(s, sid, versioning, events, tenant).0 == now;
    hide Mem.EnsuredStream, Mem.Appended, Mem.Recorded, Mem.Inserted;
    if key != sid.key {
      assert Mem.Recorded([], |s.records|, tenant) == [];
      assert key in now.data <==> key in now.data - {sid.key};
      assert key in s.data <==> key in s.data - {sid.key};
      assert key in s.data ==> now.data[key] == (now.data - {sid.key})[key] == (s.data - {sid.key})[key];
    }
  }

  // Afterwards the appending tenant loads what it did before, then the events; no other tenant
  // sees them, and no other stream loads differently.
  lemma {:induction false} MemLoadsAppended(s: Mem.Store, sid: StreamId, versioning: Versioning, events: seq<RawEvent>,
                                            tenant: string, reader: string, key: StreamKey)
    requires Mem.Sound(s) && AllOn(events, sid) && Mem.Inserted(s, sid, versioning, events, tenant).1.Success?
    ensures var now := Mem.Inserted(s, sid, versioning, events, tenant).0;
            Mem.Fetched(now, key, None, None, reader)
            == Mem.Fetched(s, key, None, None, reader) + if key == sid.key && reader == tenant then events else []
  {
    hide Mem.Fetched, Mem.Inserted, Mem.Entries, Mem.Recorded, Mem.OfTenant, Filter, ListOf;
    LoadsList(s, key, reader);
    LoadsList(Mem.Inserted(s, sid, versioning, events, tenant).0, key, reader);
    ListGrows(s, sid, versioning, events, tenant, key);
    ReadGrows(ListOf(s, key), if key == sid.key then events else [], |s.records|, tenant, reader);
  }

  /******* In the tables *******/

  // `now` is `before` and then each event in order, under one identifier.
  ghost predicate Gains(before: seq<RawEvent>, now: seq<RawEvent>, events: seq<RawEvent>, sid: StreamId) {
    && |now| == |before| + |events| && now[..|before|] == before
    && forall i :: 0 <= i < |events| ==> now[|before| + i] == events[i].(stream := sid)
  }

  // The event comes after the latest snapshot, if there is one.
  predicate After(snapshots: seq<RawEvent>, e: RawEvent) {
    snapshots != [] ==>
      e.version.Some? && Latest(snapshots).version.Some? && e.version.value > Latest(snapshots).version.value
  }

  lemma {:induction false} FilterLength<T>(p: T -> bool, s: seq<T>)
    ensures |Filter(p, s)| <= |s|
    ensures |Filter(p, s)| == |s| <==> forall x :: x in s ==> p(x)
  {
    if s != [] {
      FilterLength(p, s[1..]);
      assert forall x :: x in s <==> x == s[0] || x in s[1..];
    }
  }

  lemma {:induction false} SortedPrefix(a: seq<RawEvent>, b: seq<RawEvent>)
    requires Sorted(a + b)
    ensures Sorted(a)
  {
    forall i, j | 0 <= i < j < |a|
      ensures InOrder(a, i, j)
    {
      assert InOrder(a + b, i, j);
    }
  }

  // What of the added events a full load returns.
  function Picked(snapshots: seq<RawEvent>, events: seq<RawEvent>): seq<RawEvent> {
    if snapshots == [] then events else Filter(NewerThan(Latest(snapshots).version), events)
  }

  lemma {:induction false} SelectedGrows(row: Stream, now: Stream, events: seq<RawEvent>)
    requires now.snapshots == row.snapshots && now.events == row.events + events && Sorted(now.events)
    ensures Selected(now, None, None) == Selected(row, None, None) + Picked(row.snapshots, events)
  {
    SortedPrefix(row.events, events);
    SortedIsByVersion(row.events);
    SortedIsByVersion(now.events);
    FilterAll(InRange(None, None), row.events);
    FilterAll(InRange(None, None), now.events);
    FilterAll(InRange(None, None), row.snapshots);
    if row.snapshots != [] {
      var latest := Latest(row.snapshots);
      FilterConcat(NewerThan(latest.version), row.events, events);
      Assoc([latest], Filter(NewerThan(latest.version), row.events), Filter(NewerThan(latest.version), events));
    }
  }

  lemma {:induction false} PickedIff(snapshots: seq<RawEvent>, events: seq<RawEvent>)
    ensures |Picked(snapshots, events)| == |events| ==> Picked(snapshots, events) == events
    ensures Picked(snapshots, events) == events <==> forall e :: e in events ==> After(snapshots, e)
  {
    if snapshots != [] {
      FilterLength(NewerThan(Latest(snapshots).version), events);
      if forall e :: e in events ==> After(snapshots, e) {
        FilterAll(NewerThan(Latest(snapshots).version), events);
      }
    }
  }

  lemma {:induction false} GainsIff(sid: StreamId, stored: seq<RawEvent>, picked: seq<RawEvent>, events: seq<RawEvent>)
    requires |picked| == |events| ==> picked == events
    ensures Gains(Map(Returned(sid), stored), Map(Returned(sid), stored + picked), events, sid) <==> picked == events
  {
    hide Map;
    if picked == events {
      GainsReturned(sid, stored, events);
    }
  }

  lemma {:induction false} GainsReturned(sid: StreamId, stored: seq<RawEvent>, events: seq<RawEvent>)
    ensures Gains(Map(Returned(sid), stored), Map(Returned(sid), stored + events), events, sid)
  {
    hide Map;
    var before, after := Map(Returned(sid), stored), Map(Returned(sid), stored + events);
    assert after[..|stored|] == before;
    forall i | 0 <= i < |events|
      ensures after[|stored| + i] == events[i].(stream := sid)
    {
      assert (stored + events)[|stored| + i] == events[i];
    }
  }

  // A stream held in version order loads as before and then the added events if and only if
  // all of them come after its latest snapshot.
  lemma {:induction false} LoadedGrowsIff(key: Key, row: Stream, now: Stream, events: seq<RawEvent>)
    requires now.name == row.name && now.snapshots == row.snapshots && now.events == row.events + events
    requires Sorted(now.events)
    ensures Gains(Loaded(key, row, None, None), Loaded(key, now, None, None), events,
                  StreamId(StreamKey(key.uuid, if key.category == "" then None else Some(key.category)), row.name))
            <==> forall e :: e in events ==> After(row.snapshots, e)
  {
    SelectedGrows(row, now, events);
    hide Selected, Gains, Picked, After, Returned;
    PickedIff(row.snapshots, events);
    GainsIff(RowId(key, row.name), Selected(row, None, None), Picked(row.snapshots, events), events);
  }

  // Events without versions are in order, and so are consecutively numbered ones.
  lemma {:induction false} UnversionedIsSorted(events: seq<RawEvent>)
    requires forall e :: e in events ==> e.version == None
    ensures Sorted(events)
  {
    forall i, j | 0 <= i < j < |events|
      ensures InOrder(events, i, j)
    {
      assert events[i] in events;
    }
  }

  /******* SQLAlchemy *******/

  predicate NameUsed(db: Db, tenant: string, sid: StreamId) {
    exists key :: key in db && key.tenant == tenant && key.category == CategoryText(sid.key.category)
            && db[key].name == sid.name
  }

  // An append is accepted if and only if the row is there under this identifier, or none is and
  // the name is free; both are versioned or neither is; an expected version other than zero is
  // the row's; and no version of the events is stored already or given twice.
  lemma {:induction false} AlchemyAcceptedIff(table: Db, seen: bool, sid: StreamId, versioning: Versioning,
                                              events: seq<RawEvent>)
    requires seen ==> Alchemy.RowKey(sid) in table
    ensures var key := Alchemy.RowKey(sid);
            var there := key in table;
            var version := if there then table[key].version
                           else if versioning.Explicit? then Some(versioning.initial) else None;
            Alchemy.Insertion(table, seen, sid, versioning, events).Success? <==>
            && sid.key.category != Some("")
            && (if there then sid.name == None || table[key].name == sid.name
                else sid.name == None || !NameUsed(table, Alchemy.TENANT, sid))
            && (if versioning.NoVersioning? then version == None
                else version != None && (versioning.expected == 0 || version == Some(versioning.expected)))
            && (forall s, e :: s in EventsOf(table, key) && e in events && e.version != None ==> s.version != e.version)
            && (forall i, j :: 0 <= i < j < |events| && events[i].version != None ==>
                events[i].version != events[j].version)
  {
  }

  // One row has gained the events, behind those it held; it has this version, and its name and
  // snapshots are what they were. No other row has changed.
  ghost predicate RowGains(db: Db, now: Db, key: Key, sid: StreamId, version: Option<int>, events: seq<RawEvent>) {
    && key in now && now - {key} == db - {key}
    && now[key] == (if key in db then Stream(db[key].name, version, db[key].events + events, db[key].snapshots)
                    else Stream(sid.name, version, events, []))
  }

  // The version of the row after an accepted append.
  function VersionAfter(db: Db, key: Key, versioning: Versioning): Option<int> {
    if versioning.Explicit? && (versioning.expected != 0 || key !in db) then Some(versioning.initial)
    else if key in db then db[key].version
    else None
  }

  // An accepted append stores exactly its events, in order, behind those of its row.
  lemma {:induction false} AlchemyAppends(table: Db, seen: bool, sid: StreamId, versioning: Versioning,
                                          events: seq<RawEvent>)
    ensures var r, key := Alchemy.Insertion(table, seen, sid, versioning, events), Alchemy.RowKey(sid);
            r.Success? ==> RowGains(table, r.value, key, sid, VersionAfter(table, key, versioning), events)
  {
    assert [] + events == events;
  }

  lemma {:induction false} RowGainsLoad(db: Db, now: Db, key: Key, sid: StreamId, version: Option<int>,
                                        events: seq<RawEvent>)
    requires RowGains(db, now, key, sid, version, events) && Sorted(EventsOf(db, key) + events)
    ensures var before := if key in db then Loaded(key, db[key], None, None) else [];
            var id := StreamId(StreamKey(key.uuid, if key.category == "" then None else Some(key.category)),
                               now[key].name);
            Gains(before, Loaded(key, now[key], None, None), events, id)
            <==> key in db ==> forall e :: e in events ==> After(db[key].snapshots, e)
  {
    hide Loaded, Sorted, After, Gains;
    if key in db {
      LoadedGrowsIff(key, db[key], now[key], events);
    } else {
      var empty := Stream(sid.name, None, [], []);
      assert [] + events == events;
      LoadedGrowsIff(key, empty, now[key], events);
      NothingLoads(key, empty);
      NoSnapshots(events);
    }
  }

  lemma {:induction false} NothingLoads(key: Key, row: Stream)
    requires row.events == [] && row.snapshots == []
    ensures Loaded(key, row, None, None) == []
  {
  }

  lemma {:induction false} NoSnapshots(events: seq<RawEvent>)
    ensures forall e :: e in events ==> After([], e)
  {
  }

  // Where versions are in order, or absent, a full load then is the earlier one followed by the
  // events, if and only if they come after the latest snapshot.
  lemma {:induction false} AlchemyLoadsIff(table: Db, seen: bool, sid: StreamId, versioning: Versioning,
                                           events: seq<RawEvent>)
    requires Alchemy.Insertion(table, seen, sid, versioning, events).Success?
    requires Sorted(EventsOf(table, Alchemy.RowKey(sid)) + events)
    ensures var now, key := Alchemy.Insertion(table, seen, sid, versioning, events).value, Alchemy.RowKey(sid);
            && key in now
            && (Gains(Alchemy.Fetched(table, sid, None, None), Alchemy.Fetched(now, sid, None, None), events,
                      StreamId(sid.key, now[key].name))
                <==> key in table ==> forall e :: e in events ==> After(table[key].snapshots, e))
  {
    var now, key := Alchemy.Insertion(table, seen, sid, versioning, events).value, Alchemy.RowKey(sid);
    AlchemyAppends(table, seen, sid, versioning, events);
    assert Alchemy.Found(now, sid) && (Alchemy.Found(table, sid) <==> key in table);
    assert sid.key.category != Some("");
    hide Loaded, Sorted, After, Gains, Alchemy.Insertion;
    RowGainsLoad(table, now, key, sid, VersionAfter(table, key, versioning), events);
  }

  /******* Django *******/

  // An append is accepted if and only if the row is there under this very name, or none is and
  // the name is free; both are versioned or neither is; an expected version other than zero is
  // the row's; there are events; and none of their uuids is stored in any stream of any tenant
  // or given twice.
  lemma {:induction false} DjangoAcceptedIff(db: Db, tenant: string, sid: StreamId, versioning: Versioning,
                                             events: seq<RawEvent>)
    ensures var key := KeyOf(tenant, sid);
            var there := key in db;
            var version := if there then db[key].version
                           else if versioning.Explicit? then Some(versioning.initial) else None;
            Django.Inserted(db, tenant, sid, versioning, events).Success? <==>
            && (if there then db[key].name == sid.name else sid.name == None || !NameUsed(db, tenant, sid))
            && (if versioning.NoVersioning? then version == None
                else version != None && (versioning.expected == 0 || version == Some(versioning.expected)))
            && events != []
            && (forall k, s, e :: k in db && s in db[k].events && e in events ==> s.uuid != e.uuid)
            && (forall i, j :: 0 <= i < j < |events| ==> events[i].uuid != events[j].uuid)
  {
  }

  lemma {:induction false} DjangoAppends(db: Db, tenant: string, sid: StreamId, versioning: Versioning,
                                         events: seq<RawEvent>)
    ensures var r, key := Django.Inserted(db, tenant, sid, versioning, events), KeyOf(tenant, sid);
            r.Success? ==> RowGains(db, r.value, key, sid, VersionAfter(db, key, versioning), events)
  {
    assert [] + events == events;
  }

  lemma {:induction false} DjangoLoadsIff(db: Db, tenant: string, sid: StreamId, versioning: Versioning,
                                          events: seq<RawEvent>)
    requires Django.Inserted(db, tenant, sid, versioning, events).Success?
    requires Sorted(EventsOf(db, KeyOf(tenant, sid)) + events)
    ensures var now, key := Django.Inserted(db, tenant, sid, versioning, events).value, KeyOf(tenant, sid);
            var category := if sid.key.category == Some("") then None else sid.key.category;
            && key in now
            && (Gains(Django.Fetched(db, tenant, sid, None, None), Django.Fetched(now, tenant, sid, None, None), events,
                      StreamId(StreamKey(sid.key.uuid, category), now[key].name))
                <==> key in db ==> forall e :: e in events ==> After(db[key].snapshots, e))
  {
    var now, key := Django.Inserted(db, tenant, sid, versioning, events).value, KeyOf(tenant, sid);
    DjangoAppends(db, tenant, sid, versioning, events);
    hide Loaded, Sorted, After, Gains, Django.Inserted;
    RowGainsLoad(db, now, key, sid, VersionAfter(db, key, versioning), events);
  }
}
