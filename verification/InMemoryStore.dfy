/**
 The in-memory storage: one append-only log plus a list and a version per stream.
 Saving a snapshot throws the older entries of the list away; the log keeps them.
 */
module InMemoryStore {
  import opened Wrappers
  import opened Seqs
  import opened Events
  import opened Outbox

  datatype Store = Store(
    records: seq<RecordedRaw>,
    data: map<StreamKey, seq<RecordedRaw>>,
    versions: map<StreamKey, Option<int>>)

  const Empty := Store([], map[], map[])

  function InStream(key: StreamKey): RecordedRaw -> bool {
    (r: RecordedRaw) => r.entry.stream.key == key
  }

  function OfTenant(tenant: string): RecordedRaw -> bool {
    (r: RecordedRaw) => r.tenant == tenant
  }

  ghost predicate Positioned(records: seq<RecordedRaw>) {
    forall i :: 0 <= i < |records| ==> records[i].position == i + 1
  }

  ghost predicate Sound(s: Store) {
    Positioned(s.records) && s.data.Keys <= s.versions.Keys
  }

  function Created(s: Store, key: StreamKey, versioning: Versioning): Store {
    s.(data := s.data[key := []],
       versions := s.versions[key := if versioning.NoVersioning? then None else Some(0)])
  }

  function Part(key: StreamKey, records: seq<RecordedRaw>): seq<RecordedRaw> {
    Filter(InStream(key), records)
  }

  function NewestVersion(added: seq<RecordedRaw>, stored: Option<int>): Option<int> {
    if added == [] then stored else added[|added| - 1].entry.version
  }

  // Every stream gains its own part of the added records, in order.
  function Appended(s: Store, added: seq<RecordedRaw>): Store {
    Store(
      s.records + added,
      map key | key in s.data :: s.data[key] + Part(key, added),
      map key | key in s.versions :: NewestVersion(Part(key, added), s.versions[key]))
  }

  function Replaced(s: Store, snapshot: RecordedRaw): Store {
    var key := snapshot.entry.stream.key;
    s.(data := s.data[key := [snapshot]], versions := s.versions[key := snapshot.entry.version])
  }

  function Deleted(s: Store, key: StreamKey): Store {
    s.(data := s.data - {key})
  }

  class Storage {
    var records: seq<RecordedRaw>
    var data: map<StreamKey, seq<RecordedRaw>>
    var versions: map<StreamKey, Option<int>>

    ghost function State(): Store
      reads this
    {
      Store(records, data, versions)
    }

    constructor ()
      ensures State() == Empty
    {
      records, data, versions := [], map[], map[];
    }

    function CurrentPosition(): (p: Option<nat>)
      reads this
      ensures Positioned(records) ==> p == if records == [] then None else Some(|records|)
    {
      if records == [] then None else Some(records[|records| - 1].position)
    }

    method Create(key: StreamKey, versioning: Versioning)
      modifies this
      ensures State() == Created(old(State()), key, versioning)
    {
      data := data[key := []];
      versions := versions[key := if versioning.NoVersioning? then None else Some(0)];
    }

    method Append(added: seq<RecordedRaw>)
      requires Sound(State())
      requires forall r :: r in added ==> r.entry.stream.key in data
      modifies this
      ensures State() == Appended(old(State()), added)
    {
      hide Appended, Part;
      ghost var was := State();
      records := records + added;
      AppendNothing(was);
      for i := 0 to |added|
        invariant records == was.records + added
        invariant Store(was.records + added[..i], data, versions) == Appended(was, added[..i])
      {
        var record := added[i];
        var key := record.entry.stream.key;
        assert record in added;
        AppendOneMore(was, added, i);
        data := data[key := data[key] + [record]];
        versions := versions[key := record.entry.version];
      }
      assert added[..|added|] == added;
    }

    method Replace(snapshot: RecordedRaw)
      modifies this
      ensures State() == Replaced(old(State()), snapshot)
    {
      var key := snapshot.entry.stream.key;
      data := data[key := [snapshot]];
      versions := versions[key := snapshot.entry.version];
    }

    method Delete(key: StreamKey)
      requires key in data
      modifies this
      ensures State() == Deleted(old(State()), key)
    {
      data := data - {key};
    }
  }

  lemma {:induction false} AppendNothing(s: Store)
    ensures Appended(s, []) == s
  {
    forall key | key in s.data
      ensures s.data[key] + Part(key, []) == s.data[key]
    {
    }
    assert Appended(s, []).data == s.data;
    assert Appended(s, []).versions == s.versions;
  }

  lemma {:induction false} PartOfOneMore(added: seq<RecordedRaw>, i: nat, key: StreamKey, base: seq<RecordedRaw>)
    requires i < |added|
    ensures added[i].entry.stream.key != key ==> Part(key, added[..i + 1]) == Part(key, added[..i])
    ensures added[i].entry.stream.key == key ==>
              && Part(key, added[..i + 1]) == Part(key, added[..i]) + [added[i]]
              && base + Part(key, added[..i + 1]) == (base + Part(key, added[..i])) + [added[i]]
  {
    assert added[..i + 1] == added[..i] + [added[i]];
    FilterConcat(InStream(key), added[..i], [added[i]]);
    assert Filter(InStream(key), [added[i]]) == if added[i].entry.stream.key == key then [added[i]] else [];
    Assoc(base, Part(key, added[..i]), [added[i]]);
  }

  // Recording one more event is one update of the list and one of the version.
  lemma {:induction false} AppendOneMore(s: Store, added: seq<RecordedRaw>, i: nat)
    requires i < |added| && added[i].entry.stream.key in s.data && s.data.Keys <= s.versions.Keys
    ensures added[i].entry.stream.key in Appended(s, added[..i]).data
    ensures var now, key := Appended(s, added[..i]), added[i].entry.stream.key;
            Appended(s, added[..i + 1]) == Store(
              s.records + added[..i + 1],
              now.data[key := now.data[key] + [added[i]]],
              now.versions[key := added[i].entry.version])
  {
    ListsOfOneMore(s, added, i);
    VersionsOfOneMore(s, added, i);
  }

  lemma {:induction false} ListsOfOneMore(s: Store, added: seq<RecordedRaw>, i: nat)
    requires i < |added| && added[i].entry.stream.key in s.data
    ensures var now, key := Appended(s, added[..i]).data, added[i].entry.stream.key;
            Appended(s, added[..i + 1]).data == now[key := now[key] + [added[i]]]
  {
    forall key | key in s.data {
      PartOfOneMore(added, i, key, s.data[key]);
    }
  }

  lemma {:induction false} VersionsOfOneMore(s: Store, added: seq<RecordedRaw>, i: nat)
    requires i < |added| && added[i].entry.stream.key in s.versions
    ensures Appended(s, added[..i + 1]).versions
         == Appended(s, added[..i]).versions[added[i].entry.stream.key := added[i].entry.version]
  {
    forall key | key in s.versions {
      PartOfOneMore(added, i, key, []);
    }
  }

  /******* The storage strategy *******/

  function Recorded(events: seq<RawEvent>, position: nat, tenant: string): (r: seq<RecordedRaw>)
    ensures |r| == |events|
    ensures forall i :: 0 <= i < |r| ==> r[i] == RecordedRaw(events[i], position + 1 + i, tenant)
  {
    seq(|events|, i requires 0 <= i < |events| => RecordedRaw(events[i], position + 1 + i, tenant))
  }

  function EnsuredStream(s: Store, key: StreamKey, versioning: Versioning): Store {
    if key in s.data then s else Created(s, key, versioning)
  }

  // An append either is refused, or records its events; a missing stream is created first either way.
  function Inserted(s: Store, sid: StreamId, versioning: Versioning, events: seq<RawEvent>, tenant: string)
    : (Store, Result<seq<RecordedRaw>, StoreError>)
    requires s.data.Keys <= s.versions.Keys
  {
    var ready := EnsuredStream(s, sid.key, versioning);
    var refusal := Refusal(versioning, ready.versions[sid.key]);
    if refusal.Some? then (ready, Failure(refusal.value))
    else
      var added := Recorded(events, |s.records|, tenant);
      (Appended(ready, added), Success(added))
  }

  function NewEntries(r: Result<seq<RecordedRaw>, StoreError>, filterer: RawEvent -> bool): seq<Entry> {
    if r.Success? then Fresh(Filter(Accepts(filterer), r.value)) else []
  }

  function SnapshotSaved(s: Store, raw: RawEvent, tenant: string): Store {
    Replaced(s, RecordedRaw(raw, |s.records| + 1, tenant))
  }

  // One less than the bound; absent and zero bounds stay as they are.
  function Offset(bound: Option<int>): Option<int> {
    if bound.Some? && bound.value != 0 then Some(bound.value - 1) else bound
  }

  // Python slice bounds: negative ones count from the end, all are clamped.
  function SliceIndex(bound: int, length: nat): (i: nat)
    ensures i <= length
  {
    if bound < 0 then (if bound + length < 0 then 0 else bound + length)
    else if bound > length then length else bound
  }

  function PySlice<T>(s: seq<T>, start: Option<int>, stop: Option<int>): seq<T> {
    var lo := if start.None? then 0 else SliceIndex(start.value, |s|);
    var hi := if stop.None? then |s| else SliceIndex(stop.value, |s|);
    if lo <= hi then s[lo..hi] else []
  }

  function Entries(records: seq<RecordedRaw>): (r: seq<RawEvent>)
    ensures |r| == |records|
    ensures forall i :: 0 <= i < |r| ==> r[i] == records[i].entry
  {
    Map((r: RecordedRaw) => r.entry, records)
  }

  function Fetched(s: Store, key: StreamKey, start: Option<int>, stop: Option<int>, tenant: string): seq<RawEvent> {
    if key !in s.data then []
    else Entries(Filter(OfTenant(tenant), PySlice(s.data[key], Offset(start), Offset(stop))))
  }

  class InMemoryStorageStrategy {
    const storage: Storage
    const outbox: InMemoryOutboxStorageStrategy?
    var tenantId: string

    ghost function Footprint(): set<object> {
      {storage} + if outbox == null then {} else {outbox}
    }

    ghost predicate Valid()
      reads Footprint()
    {
      && Sound(storage.State())
      && (outbox != null ==>
        outbox.Valid() && forall e :: e in outbox.entries ==> e.record.position <= |storage.records|)
    }

    constructor (storage: Storage, outbox: InMemoryOutboxStorageStrategy?)
      ensures this.storage == storage && this.outbox == outbox && tenantId == ""
    {
      this.storage, this.outbox, tenantId := storage, outbox, "";
    }

    method FetchEvents(sid: StreamId, start: Option<int>, stop: Option<int>) returns (events: seq<RawEvent>)
      ensures events == Fetched(storage.State(), sid.key, start, stop, tenantId)
    {
      if sid.key !in storage.data {
        return [];
      }
      var stream := PySlice(storage.data[sid.key], Offset(start), Offset(stop));
      return Entries(Filter(OfTenant(tenantId), stream));
    }

    method EnsureStream(sid: StreamId, versioning: Versioning) returns (refusal: Option<StoreError>)
      requires Sound(storage.State())
      modifies storage
      ensures Sound(storage.State())
      ensures storage.State() == EnsuredStream(old(storage.State()), sid.key, versioning)
      ensures refusal == Refusal(versioning, storage.versions[sid.key])
    {
      if sid.key !in storage.data {
        storage.Create(sid.key, versioning);
      }
      var incompatible := Incompatible(versioning, storage.versions[sid.key]);
      if incompatible.Some? {
        return incompatible;
      }
      if ChecksVersion(versioning) {
        var last := if sid.key in storage.data then storage.versions[sid.key] else None;
        if last != Some(versioning.expected) {
          return Some(ConcurrentStreamWrite);
        }
      }
      return None;
    }

    method InsertEvents(sid: StreamId, versioning: Versioning, events: seq<RawEvent>)
      returns (r: Result<seq<RecordedRaw>, StoreError>)
      requires Valid() && AllOn(events, sid)
      modifies Footprint()
      ensures Valid()
      ensures storage.State() == Inserted(old(storage.State()), sid, versioning, events, tenantId).0
      ensures r == Inserted(old(storage.State()), sid, versioning, events, tenantId).1
      ensures outbox != null ==>
                outbox.entries == old(outbox.entries) + NewEntries(r, outbox.filterer)
    {
      var current := storage.CurrentPosition();
      var position := if current.Some? then current.value else 0;
      var refusal := EnsureStream(sid, versioning);
      if refusal.Some? {
        return Failure(refusal.value);
      }
      var added := Record(sid, events, position);
      return Success(added);
    }

    // Log the records and offer them to the outbox.
    method Record(sid: StreamId, events: seq<RawEvent>, position: nat) returns (added: seq<RecordedRaw>)
      requires Valid() && AllOn(events, sid) && sid.key in storage.data && position == |storage.records|
      modifies Footprint()
      ensures Valid()
      ensures added == Recorded(events, position, tenantId)
      ensures storage.State() == Appended(old(storage.State()), added)
      ensures outbox != null ==>
                outbox.entries == old(outbox.entries) + Fresh(Filter(Accepts(outbox.filterer), added))
    {
      added := Recorded(events, position, tenantId);
      forall i | 0 <= i < |added|
        ensures added[i].entry.stream == sid
      {
        assert added[i].entry in events;
      }
      if outbox != null {
        PutKeepsOrder(outbox.entries, outbox.filterer, added, |storage.records|, outbox.maxAttempts);
      }
      storage.Append(added);
      if outbox != null {
        outbox.PutIntoOutbox(added);
      }
    }

    method SaveSnapshot(raw: RawEvent)
      requires Valid()
      modifies storage
      ensures Valid() && storage.State() == SnapshotSaved(old(storage.State()), raw, tenantId)
    {
      var current := storage.CurrentPosition();
      storage.Replace(RecordedRaw(raw, (if current.Some? then current.value else 0) + 1, tenantId));
    }

    method DeleteStream(sid: StreamId)
      requires Valid()
      modifies storage
      ensures Valid() && storage.State() == Deleted(old(storage.State()), sid.key)
    {
      if sid.key in storage.data {
        storage.Delete(sid.key);
      } else {
        assert storage.data - {sid.key} == storage.data;
      }
    }
  }

  lemma {:induction false} PutKeepsOrder(entries: seq<Entry>, filterer: RawEvent -> bool, added: seq<RecordedRaw>,
                                         position: nat, max: nat)
    requires max >= 1 && Ordered(entries) && Unexhausted(entries, max)
    requires forall e :: e in entries ==> e.record.position <= position
    requires forall i :: 0 <= i < |added| ==> added[i].position == position + 1 + i
    ensures var now := entries + Fresh(Filter(Accepts(filterer), added));
            && Ordered(now) && Unexhausted(now, max)
            && forall e :: e in now ==> e.record.position <= position + |added|
  {
    var passed := Filter(Accepts(filterer), added);
    FilterKeepsIncreasing(filterer, added);
    forall r | r in passed
      ensures position < r.position <= position + |added|
    {
      FilterMember(Accepts(filterer), added, r);
    }
    var now := entries + Fresh(passed);
    forall i, j | 0 <= i < j < |now|
      ensures Precedes(now, i, j)
    {
      if j < |entries| {
        assert Precedes(entries, i, j);
      } else if i < |entries| {
        assert now[i] in entries && now[j].record in passed;
      } else {
        assert Before(passed, i - |entries|, j - |entries|);
      }
    }
    forall e | e in now
      ensures e.record.position <= position + |added| && e.failures < max
    {
      assert e in entries || e.record in passed;
    }
  }

  /******* Histories of the whole store *******/

  datatype StoreOp =
    | Insert(tenant: string, sid: StreamId, versioning: Versioning, events: seq<RawEvent>)
    | SaveSnapshot(tenant: string, raw: RawEvent)
    | DeleteStream(sid: StreamId)

  predicate WellFormed(op: StoreOp) {
    op.Insert? ==> AllOn(op.events, op.sid)
  }

  function Perform(s: Store, op: StoreOp): (s': Store)
    requires s.data.Keys <= s.versions.Keys
    ensures s'.data.Keys <= s'.versions.Keys
  {
    match op
    case Insert(tenant, sid, versioning, events) => Inserted(s, sid, versioning, events, tenant).0
    case SaveSnapshot(tenant, raw) => SnapshotSaved(s, raw, tenant)
    case DeleteStream(sid) => Deleted(s, sid.key)
  }

  function Replay(s: Store, ops: seq<StoreOp>): (s': Store)
    requires s.data.Keys <= s.versions.Keys
    ensures s'.data.Keys <= s'.versions.Keys
    decreases |ops|
  {
    if ops == [] then s else Replay(Perform(s, ops[0]), ops[1..])
  }

  // A history is its operations performed one after the other.
  lemma {:induction false} ReplayOneMore(s: Store, ops: seq<StoreOp>, op: StoreOp)
    requires s.data.Keys <= s.versions.Keys
    ensures Replay(s, []) == s
    ensures Replay(s, ops + [op]) == Perform(Replay(s, ops), op)
    decreases |ops|
  {
    hide Perform;
    if ops == [] {
      assert [] + [op] == [op] && [op][1..] == [];
    } else {
      ReplayOneMore(Perform(s, ops[0]), ops[1..], op);
      assert (ops + [op])[1..] == ops[1..] + [op];
    }
  }

  // Where the list of a live stream starts: its last snapshot, if any, and the log
  // position reached when the stream was created or that snapshot was saved.
  datatype Mark = Mark(base: seq<RecordedRaw>, from: nat)

  function Marked(marks: map<StreamKey, Mark>, logged: nat, op: StoreOp): map<StreamKey, Mark> {
    match op
    case Insert(_, sid, _, _) => if sid.key in marks then marks else marks[sid.key := Mark([], logged)]
    case SaveSnapshot(tenant, raw) => marks[raw.stream.key := Mark([RecordedRaw(raw, logged + 1, tenant)], logged)]
    case DeleteStream(sid) => marks - {sid.key}
  }

  function ReplayMarks(s: Store, marks: map<StreamKey, Mark>, ops: seq<StoreOp>): map<StreamKey, Mark>
    requires s.data.Keys <= s.versions.Keys
    decreases |ops|
  {
    if ops == [] then marks else ReplayMarks(Perform(s, ops[0]), Marked(marks, |s.records|, ops[0]), ops[1..])
  }

  ghost predicate StreamAgrees(s: Store, key: StreamKey, mark: Mark)
    requires key in s.data && key in s.versions
  {
    && mark.from <= |s.records|
    && s.data[key] == mark.base + Part(key, s.records[mark.from..])
    && (s.data[key] != [] ==> s.versions[key] == s.data[key][|s.data[key]| - 1].entry.version)
  }

  ghost predicate Agrees(s: Store, marks: map<StreamKey, Mark>) {
    && Sound(s)
    && s.data.Keys == marks.Keys
    && forall key :: key in marks ==> StreamAgrees(s, key, marks[key])
  }

  lemma {:induction false} AppendAgrees(s: Store, key: StreamKey, mark: Mark, added: seq<RecordedRaw>)
    requires Sound(s) && key in s.data && StreamAgrees(s, key, mark)
    ensures StreamAgrees(Appended(s, added), key, mark)
  {
    hide Part;
    var s', mine, since := Appended(s, added), Part(key, added), s.records[mark.from..];
    assert s'.records[mark.from..] == since + added;
    PartConcat(key, since, added);
    Assoc(mark.base, Part(key, since), mine);
    assert s'.data[key] == s.data[key] + mine;
  }

  lemma {:induction false} PartConcat(key: StreamKey, a: seq<RecordedRaw>, b: seq<RecordedRaw>)
    ensures Part(key, a + b) == Part(key, a) + Part(key, b)
  {
    FilterConcat(InStream(key), a, b);
  }

  lemma {:induction false} NothingSince(key: StreamKey, records: seq<RecordedRaw>)
    ensures Part(key, records[|records|..]) == []
  {
    assert records[|records|..] == [];
  }

  lemma {:induction false} StepAgrees(s: Store, marks: map<StreamKey, Mark>, op: StoreOp)
    requires Agrees(s, marks) && WellFormed(op)
    ensures s.records <= Perform(s, op).records
    ensures Agrees(Perform(s, op), Marked(marks, |s.records|, op))
  {
    match op
    case Insert(tenant, sid, versioning, events) => InsertAgrees(s, marks, sid, versioning, events, tenant);
    case SaveSnapshot(tenant, raw) => SnapshotAgrees(s, marks, raw, tenant);
    case DeleteStream(sid) =>
  }

  lemma {:induction false} SnapshotAgrees(s: Store, marks: map<StreamKey, Mark>, raw: RawEvent, tenant: string)
    requires Agrees(s, marks)
    ensures Agrees(SnapshotSaved(s, raw, tenant), Marked(marks, |s.records|, SaveSnapshot(tenant, raw)))
  {
    assert s.records[|s.records|..] == [];
  }

  lemma {:induction false} InsertAgrees(s: Store, marks: map<StreamKey, Mark>, sid: StreamId, versioning: Versioning,
                                        events: seq<RawEvent>, tenant: string)
    requires Agrees(s, marks)
    ensures s.records <= Inserted(s, sid, versioning, events, tenant).0.records
    ensures Agrees(Inserted(s, sid, versioning, events, tenant).0,
                   Marked(marks, |s.records|, Insert(tenant, sid, versioning, events)))
  {
    var ready, added := EnsuredStream(s, sid.key, versioning), Recorded(events, |s.records|, tenant);
    var marks' := Marked(marks, |s.records|, Insert(tenant, sid, versioning, events));
    EnsuredAgrees(s, marks, sid.key, versioning);
    RecordingAgrees(ready, marks', added);
  }

  lemma {:induction false} RecordingAgrees(s: Store, marks: map<StreamKey, Mark>, added: seq<RecordedRaw>)
    requires Agrees(s, marks)
    requires forall i :: 0 <= i < |added| ==> added[i].position == |s.records| + 1 + i
    ensures Agrees(Appended(s, added), marks)
  {
    forall key | key in marks
      ensures StreamAgrees(Appended(s, added), key, marks[key])
    {
      AppendAgrees(s, key, marks[key], added);
    }
  }

  lemma {:induction false} EnsuredAgrees(s: Store, marks: map<StreamKey, Mark>, key: StreamKey, versioning: Versioning)
    requires Agrees(s, marks)
    ensures Agrees(EnsuredStream(s, key, versioning),
                   if key in marks then marks else marks[key := Mark([], |s.records|)])
  {
    NothingSince(key, s.records);
    hide Part;
  }

  // In every reachable state the log is numbered from one and only grew, and each live
  // stream's list is its last snapshot followed by its part of the log since then.
  lemma {:induction false} LogAndIndexAgree(s: Store, marks: map<StreamKey, Mark>, ops: seq<StoreOp>)
    requires Agrees(s, marks) && forall i :: 0 <= i < |ops| ==> WellFormed(ops[i])
    ensures s.records <= Replay(s, ops).records
    ensures Agrees(Replay(s, ops), ReplayMarks(s, marks, ops))
    decreases |ops|
  {
    if ops != [] {
      StepAgrees(s, marks, ops[0]);
      LogAndIndexAgree(Perform(s, ops[0]), Marked(marks, |s.records|, ops[0]), ops[1..]);
    }
  }

  lemma {:induction false} EmptyAgrees()
    ensures Agrees(Empty, map[])
  {
  }

  /******* Refused appends *******/

  // A refused append changes no log record and no load.
  lemma {:induction false} RefusedAppendIsInvisible(s: Store, sid: StreamId, versioning: Versioning,
                                                    events: seq<RawEvent>, tenant: string,
                                 key: StreamKey, start: Option<int>, stop: Option<int>, reader: string)
    requires Sound(s) && Inserted(s, sid, versioning, events, tenant).1.Failure?
    ensures Perform(s, Insert(tenant, sid, versioning, events)).records == s.records
    ensures Fetched(Perform(s, Insert(tenant, sid, versioning, events)), key, start, stop, reader)
         == Fetched(s, key, start, stop, reader)
  {
    if key == sid.key && key !in s.data {
      assert PySlice<RecordedRaw>([], Offset(start), Offset(stop)) == [];
    }
  }

  // It may still change the fate of a later append: the stream it leaves behind is
  // versioned, so an unversioned append that would have been accepted is refused.
  // This is the only case.
  lemma {:induction false} RefusedAppendLeavesVersionedStream(s: Store, sid: StreamId, versioning: Versioning,
          events: seq<RawEvent>, tenant: string,
                                           later: StreamId, versioning': Versioning, events': seq<RawEvent>)
    requires Sound(s) && Inserted(s, sid, versioning, events, tenant).1.Failure?
    ensures var s' := Inserted(s, sid, versioning, events, tenant).0;
            Inserted(s', later, versioning', events', tenant).1 != Inserted(s, later, versioning', events', tenant).1
            <==> sid.key !in s.data && later.key == sid.key && versioning'.NoVersioning?
  {
  }
}
