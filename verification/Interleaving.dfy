/**
 Repository sessions running side by side, each in a transaction of its own: any number of
 them, their statements interleaved at will. A statement sees what is committed and what its
 own transaction wrote, and waits for a row or key another transaction has written.
 */
module Interleaving {
  import opened Wrappers
  import opened Seqs
  import opened Events
  import opened StreamTables
  import opened SqlAlchemyStore
  import opened Sessions

  datatype End = Accepted | Refused(error: StoreError) | Abandoned

  // Saving is the first query done, Ensured the row there and checked, Compared the version
  // compared and set, Stored the events inserted but not yet committed.
  datatype Phase = Editing | Saving(seen: bool) | Ensured | Compared | Stored | Closed(end: End)

  // `mine` is the stream's row as this transaction has written it and not yet committed.
  datatype Session<S> = Session(
    sid: StreamId,
    loaded: S,
    stored: Option<int>,
    state: S,
    pending: seq<RawEvent>,
    phase: Phase,
    mine: Option<Stream>)

  // What a session committed, with the state it had loaded.
  datatype Save<S> = Save(session: nat, sid: StreamId, loaded: S, events: seq<RawEvent>)

  datatype World<S> = World(table: Db, sessions: seq<Session<S>>, saves: seq<Save<S>>)

  datatype Action =
    | Open(sid: StreamId)
    | Emit(id: nat, event: RawEvent)
    | Look(id: nat)
    | Ensure(id: nat)
    | Compare(id: nat)
    | Store(id: nat)
    | Commit(id: nat)
    | Abandon(id: nat)

  /******* Single statements *******/

  predicate Writing<S>(s: Session<S>) {
    s.stored.Some? && s.pending != []
  }

  function Versions<S>(s: Session<S>): Versioning
    requires Writing(s)
  {
    ExplicitFor(s.pending, s.stored.value)
  }

  function Added<S>(s: Session<S>): seq<RawEvent>
    requires Writing(s)
  {
    Numbered(s.pending, s.stored.value)
  }

  function Close<S>(s: Session<S>, end: End): Session<S> {
    s.(phase := Closed(end), mine := None)
  }

  function Opened<S>(apply: Apply<S>, init: S, table: Db, sid: StreamId): Session<S> {
    var events := Fetched(table, sid, None, None);
    var loaded := Fold(apply, init, events);
    Session(sid, loaded, LastVersion(events, Some(0)), loaded, [], Editing, None)
  }

  function Emitted<S>(apply: Apply<S>, s: Session<S>, event: RawEvent): Session<S> {
    s.(state := apply(s.state, PayloadOf(event)), pending := s.pending + [event.(stream := s.sid)])
  }

  function Looked<S>(table: Db, s: Session<S>): Session<S> {
    if s.stored.None? then Close(s, Refused(MissingVersion))
    else if s.pending == [] then Close(s, Accepted)
    else s.(phase := Saving(Seen(table, TENANT, s.sid)))
  }

  // Insert the row unless in conflict, select it again, check name and versioning.
  function EnsuredIn<S>(table: Db, s: Session<S>): Session<S>
    requires Writing(s) && s.phase.Saving?
  {
    var ensured := if s.phase.seen then table else RowInserted(table, s.sid, Versions(s));
    var mismatch := Mismatch(ensured, s.sid);
    if mismatch.Some? then Close(s, Refused(mismatch.value))
    else
      var row := ensured[RowKey(s.sid)];
      var incompatible := Incompatible(Versions(s), row.version);
      if incompatible.Some? then Close(s, Refused(incompatible.value))
      else s.(phase := Ensured, mine := if RowKey(s.sid) in table then None else Some(row))
  }

  predicate HasRow<S>(table: Db, s: Session<S>) {
    s.mine.Some? || RowKey(s.sid) in table
  }

  function RowSeen<S>(table: Db, s: Session<S>): Stream
    requires HasRow(table, s)
  {
    if s.mine.Some? then s.mine.value else table[RowKey(s.sid)]
  }

  // Update the row's version where it is the expected one.
  function ComparedIn<S>(table: Db, s: Session<S>): Session<S>
    requires Writing(s) && HasRow(table, s)
  {
    if !ChecksVersion(Versions(s)) then s.(phase := Compared)
    else if RowSeen(table, s).version != Some(Versions(s).expected) then Close(s, Refused(ConcurrentStreamWrite))
    else s.(phase := Compared, mine := Some(RowSeen(table, s).(version := Some(Versions(s).initial))))
  }

  function StoredIn<S>(table: Db, s: Session<S>): Session<S>
    requires Writing(s)
  {
    if VersionsFree(EventsOf(table, RowKey(s.sid)), Added(s)) then s.(phase := Stored)
    else Close(s, Refused(IntegrityViolation))
  }

  function CommittedIn<S>(table: Db, s: Session<S>): Db
    requires Writing(s) && HasRow(table, s)
  {
    var row := RowSeen(table, s);
    table[RowKey(s.sid) := row.(events := EventsOf(table, RowKey(s.sid)) + Added(s))]
  }

  /******* Waiting *******/

  // Both would occupy the same unique key of the streams table.
  predicate Clash(a: StreamId, b: StreamId) {
    RowKey(a) == RowKey(b) || (a.name.Some? && a.name == b.name && RowKey(a).category == RowKey(b).category)
  }

  predicate InsertWaits<S>(table: Db, s: Session<S>, other: Session<S>) {
    && s.phase.Saving? && !s.phase.seen && RowKey(s.sid) !in table
    && other.mine.Some? && RowKey(other.sid) !in table && Clash(s.sid, other.sid)
  }

  predicate UpdateWaits<S>(s: Session<S>, other: Session<S>) {
    s.phase.Ensured? && Writing(s) && ChecksVersion(Versions(s)) && other.mine.Some?
        && RowKey(s.sid) == RowKey(other.sid)
  }

  predicate IndexWaits<S>(s: Session<S>, other: Session<S>) {
    && s.phase.Compared? && Writing(s) && other.phase.Stored? && Writing(other)
    && RowKey(s.sid) == RowKey(other.sid) && !VersionsFree(Added(other), Added(s))
  }

  predicate WaitsFor<S>(w: World<S>, id: nat, j: nat)
    requires id < |w.sessions| && j < |w.sessions|
  {
    var s, other := w.sessions[id], w.sessions[j];
    id != j && (InsertWaits(w.table, s, other) || UpdateWaits(s, other) || IndexWaits(s, other))
  }

  predicate Waits<S>(w: World<S>, id: nat)
    requires id < |w.sessions|
  {
    exists j: nat :: j < |w.sessions| && WaitsFor(w, id, j)
  }

  /******* Runs *******/

  predicate Can<S>(w: World<S>, id: nat) {
    id < |w.sessions| && !w.sessions[id].phase.Closed?
  }

  function With<S>(w: World<S>, id: nat, s: Session<S>): World<S>
    requires id < |w.sessions|
  {
    w.(sessions := w.sessions[id := s])
  }

  function Step<S>(apply: Apply<S>, init: S, w: World<S>, a: Action): World<S> {
    match a
    case Open(sid) => w.(sessions := w.sessions + [Opened(apply, init, w.table, sid)])
    case Emit(id, event) =>
      if Can(w, id) && w.sessions[id].phase.Editing? then With(w, id, Emitted(apply, w.sessions[id], event)) else w
    case Look(id) =>
      if Can(w, id) && w.sessions[id].phase.Editing? then With(w, id, Looked(w.table, w.sessions[id])) else w
    case Ensure(id) =>
      if Can(w, id) && w.sessions[id].phase.Saving? && Writing(w.sessions[id]) && !Waits(w, id)
      then With(w, id, EnsuredIn(w.table, w.sessions[id])) else w
    case Compare(id) =>
      if Can(w, id) && w.sessions[id].phase.Ensured? && !Waits(w, id)
         && Writing(w.sessions[id]) && HasRow(w.table, w.sessions[id])
      then With(w, id, ComparedIn(w.table, w.sessions[id])) else w
    case Store(id) =>
      if Can(w, id) && w.sessions[id].phase.Compared? && Writing(w.sessions[id]) && !Waits(w, id)
      then With(w, id, StoredIn(w.table, w.sessions[id])) else w
    case Commit(id) =>
      if Can(w, id) && w.sessions[id].phase.Stored? && Writing(w.sessions[id]) && HasRow(w.table, w.sessions[id])
      then Ended(w, id) else w
    case Abandon(id) =>
      if Can(w, id) then With(w, id, Close(w.sessions[id], Abandoned)) else w
  }

  function SaveOf<S>(id: nat, s: Session<S>): Save<S>
    requires Writing(s)
  {
    Save(id, s.sid, s.loaded, Added(s))
  }

  function Ended<S>(w: World<S>, id: nat): World<S>
    requires id < |w.sessions| && Writing(w.sessions[id]) && HasRow(w.table, w.sessions[id])
  {
    var s := w.sessions[id];
    World(CommittedIn(w.table, s), w.sessions[id := Close(s, Accepted)], w.saves + [SaveOf(id, s)])
  }

  function Run<S>(apply: Apply<S>, init: S, w: World<S>, actions: seq<Action>): World<S>
    decreases |actions|
  {
    if actions == [] then w else Run(apply, init, Step(apply, init, w, actions[0]), actions[1..])
  }

  // All events of the sessions accepted on one stream, in the order they were committed.
  function SavedEvents<S>(saves: seq<Save<S>>, key: Key): seq<RawEvent> {
    if saves == [] then []
    else
      var last := saves[|saves| - 1];
      SavedEvents(saves[..|saves| - 1], key) + if RowKey(last.sid) == key then last.events else []
  }

  /******* What every statement keeps *******/

  // The session holds the replay of a prefix of its stream, and its own pending events on top.
  ghost predicate Replayed<S>(apply: Apply<S>, init: S, table: Db, s: Session<S>) {
    var events := EventsOf(table, RowKey(s.sid));
    && s.sid.Valid()
    && s.stored.Some? && 0 <= s.stored.value <= |events|
    && s.loaded == Fold(apply, init, events[..s.stored.value])
    && s.state == Fold(apply, s.loaded, s.pending)
  }

  // An uncommitted row of a stream that is not there yet.
  ghost predicate NewRow<S>(table: Db, s: Session<S>) {
    RowKey(s.sid) !in table && s.stored == Some(0) && s.mine == Some(Stream(s.sid.name, Some(|s.pending|), [], []))
  }

  // An uncommitted new version of a stream that stands where the session loaded it.
  ghost predicate BumpedRow<S>(table: Db, s: Session<S>) {
    && RowKey(s.sid) in table && s.mine.Some? && s.stored.Some? && s.stored.value != 0
    && s.stored.value == |table[RowKey(s.sid)].events|
    && s.mine.value.name == table[RowKey(s.sid)].name && s.mine.value.snapshots == table[RowKey(s.sid)].snapshots
    && s.mine.value.version == Some(s.stored.value + |s.pending|)
  }

  ghost predicate InPhase<S>(table: Db, s: Session<S>) {
    match s.phase
    case Editing => s.mine.None?
    case Saving(seen) => s.mine.None? && Writing(s) && (seen ==> RowKey(s.sid) in table)
    case Ensured => Writing(s) && if s.mine.Some? then NewRow(table, s) else RowKey(s.sid) in table
    case Compared =>
      Writing(s) && (if s.mine.Some? then NewRow(table, s) || BumpedRow(table, s)
                     else RowKey(s.sid) in table && s.stored == Some(0))
    case Stored => Writing(s) && (NewRow(table, s) || BumpedRow(table, s))
    case Closed(_) => s.mine.None?
  }

  ghost predicate SessionSound<S>(apply: Apply<S>, init: S, table: Db, s: Session<S>) {
    InPhase(table, s) && (!s.phase.Closed? ==> Replayed(apply, init, table, s))
  }

  ghost predicate AllSound<S>(apply: Apply<S>, init: S, table: Db, sessions: seq<Session<S>>) {
    forall i :: 0 <= i < |sessions| ==> SessionSound(apply, init, table, sessions[i])
  }

  // No two transactions have written the same stream's row.
  ghost predicate OneWriter<S>(sessions: seq<Session<S>>, i: int, j: int)
    requires 0 <= i < j < |sessions|
  {
    sessions[i].mine.Some? && sessions[j].mine.Some? ==> RowKey(sessions[i].sid) != RowKey(sessions[j].sid)
  }

  ghost predicate Exclusive<S>(sessions: seq<Session<S>>) {
    forall i, j :: 0 <= i < j < |sessions| ==> OneWriter(sessions, i, j)
  }

  ghost predicate LoadedAllBefore<S>(apply: Apply<S>, init: S, saves: seq<Save<S>>, i: int)
    requires 0 <= i < |saves|
  {
    saves[i].loaded == Fold(apply, init, SavedEvents(saves[..i], RowKey(saves[i].sid)))
  }

  // Every accepted session had loaded exactly the events accepted before its own.
  ghost predicate Serial<S>(apply: Apply<S>, init: S, saves: seq<Save<S>>) {
    forall i :: 0 <= i < |saves| ==> LoadedAllBefore(apply, init, saves, i)
  }

  ghost predicate HistoryAgrees<S>(table: Db, saves: seq<Save<S>>) {
    forall key :: EventsOf(table, key) == SavedEvents(saves, key)
  }

  ghost predicate StoresSomething<S>(s: Session<S>) {
    s.phase == Closed(Accepted) && s.pending != []
  }

  // The save is that of an accepted session, with the session's own events.
  ghost predicate SaveOfSession<S>(sessions: seq<Session<S>>, c: Save<S>) {
    c.session < |sessions|
    && var s := sessions[c.session];
    && StoresSomething(s) && s.stored.Some?
    && c == Save(c.session, s.sid, s.loaded, Numbered(s.pending, s.stored.value))
  }

  ghost predicate Saves<S>(saves: seq<Save<S>>, id: nat) {
    exists i :: 0 <= i < |saves| && saves[i].session == id
  }

  ghost predicate SavedApart<S>(saves: seq<Save<S>>, i: int, j: int)
    requires 0 <= i < j < |saves|
  {
    saves[i].session != saves[j].session
  }

  // The accepted sessions that had something to store and the saves are one to one.
  ghost predicate Accounted<S>(sessions: seq<Session<S>>, saves: seq<Save<S>>) {
    && (forall i :: 0 <= i < |saves| ==> SaveOfSession(sessions, saves[i]))
    && (forall i, j :: 0 <= i < j < |saves| ==> SavedApart(saves, i, j))
    && (forall id: nat :: id < |sessions| && StoresSomething(sessions[id]) ==> Saves(saves, id))
  }

  ghost predicate Consistent<S>(apply: Apply<S>, init: S, w: World<S>) {
    && TableSound(w.table)
    && AllSound(apply, init, w.table, w.sessions)
    && Exclusive(w.sessions)
    && HistoryAgrees(w.table, w.saves)
    && Serial(apply, init, w.saves)
    && Accounted(w.sessions, w.saves)
  }

  lemma {:induction false} OpenedIsSound<S>(apply: Apply<S>, init: S, table: Db, sid: StreamId)
    requires TableSound(table) && sid.Valid()
    ensures SessionSound(apply, init, table, Opened(apply, init, table, sid))
  {
    var events := EventsOf(table, RowKey(sid));
    if Found(table, sid) {
      assert RowSound(table[RowKey(sid)]);
      LoadReplays(apply, init, table, sid);
      assert events[..|events|] == events;
    } else {
      assert events[..0] == [];
    }
  }

  lemma {:induction false} EmittedIsSound<S>(apply: Apply<S>, init: S, table: Db, s: Session<S>, event: RawEvent)
    requires SessionSound(apply, init, table, s) && s.phase.Editing?
    ensures SessionSound(apply, init, table, Emitted(apply, s, event))
  {
    FoldConcat(apply, s.loaded, s.pending, [event.(stream := s.sid)]);
  }

  lemma {:induction false} LookedIsSound<S>(apply: Apply<S>, init: S, table: Db, s: Session<S>)
    requires TableSound(table) && SessionSound(apply, init, table, s) && s.phase.Editing?
    ensures SessionSound(apply, init, table, Looked(table, s))
  {
    SeenIsKey(table, TENANT, s.sid);
  }

  // The row statement refuses exactly what cannot be addressed. A row it wrote is new.
  lemma {:induction false} EnsuredIsSound<S>(apply: Apply<S>, init: S, table: Db, s: Session<S>)
    requires TableSound(table) && SessionSound(apply, init, table, s) && s.phase.Saving?
    ensures SessionSound(apply, init, table, EnsuredIn(table, s))
    ensures EnsuredIn(table, s).phase.Ensured? <==> Addressable(table, s.sid)
    ensures EnsuredIn(table, s).mine.Some? ==> !s.phase.seen && RowKey(s.sid) !in table
  {
    if RowKey(s.sid) in table {
      assert RowSound(table[RowKey(s.sid)]);
    }
  }

  // The version statement refuses exactly when something was stored since the load.
  lemma {:induction false} ComparedIsSound<S>(apply: Apply<S>, init: S, table: Db, s: Session<S>)
    requires TableSound(table) && SessionSound(apply, init, table, s) && s.phase.Ensured?
    ensures SessionSound(apply, init, table, ComparedIn(table, s))
    ensures ComparedIn(table, s).phase.Compared? <==> s.stored.value in {0, |EventsOf(table, RowKey(s.sid))|}
    ensures ComparedIn(table, s).mine.Some? ==> s.mine.Some? || ChecksVersion(Versions(s))
  {
    if RowKey(s.sid) in table {
      assert RowSound(table[RowKey(s.sid)]);
    }
  }

  // Inserting the events fails exactly for a session that raced with the stream's creation.
  lemma {:induction false} StoredIsSound<S>(apply: Apply<S>, init: S, table: Db, s: Session<S>)
    requires TableSound(table) && SessionSound(apply, init, table, s) && s.phase.Compared?
    ensures SessionSound(apply, init, table, StoredIn(table, s))
    ensures StoredIn(table, s).phase.Stored? <==> s.mine.Some?
    ensures s.mine.Some? <==> s.stored.value == |EventsOf(table, RowKey(s.sid))|
  {
    var events := EventsOf(table, RowKey(s.sid));
    if RowKey(s.sid) in table {
      assert RowSound(table[RowKey(s.sid)]);
    }
    NumberedFree(events, s.stored.value, s.pending);
  }

  lemma {:induction false} CommittedIsAdvanced<S>(apply: Apply<S>, init: S, table: Db, s: Session<S>)
    requires TableSound(table) && SessionSound(apply, init, table, s) && s.phase.Stored?
    ensures CommittedIn(table, s) == Advanced(table, TENANT, s.sid, s.pending)
    ensures s.stored.value == |EventsOf(table, RowKey(s.sid))|
  {
    hide Numbered, TableSound, Replayed;
    if RowKey(s.sid) !in table {
      assert [] + Added(s) == Added(s);
    }
  }

  /******* All interleavings *******/

  // No other transaction has written the stream's row.
  ghost predicate Alone<S>(sessions: seq<Session<S>>, id: nat, key: Key) {
    forall j :: 0 <= j < |sessions| && j != id && sessions[j].mine.Some? ==> RowKey(sessions[j].sid) != key
  }

  lemma {:induction false} HolderIsAlone<S>(sessions: seq<Session<S>>, id: nat)
    requires Exclusive(sessions) && id < |sessions| && sessions[id].mine.Some?
    ensures Alone(sessions, id, RowKey(sessions[id].sid))
  {
    forall j | 0 <= j < |sessions| && j != id && sessions[j].mine.Some?
      ensures RowKey(sessions[j].sid) != RowKey(sessions[id].sid)
    {
      assert j < id ==> OneWriter(sessions, j, id);
      assert id < j ==> OneWriter(sessions, id, j);
    }
  }

  lemma {:induction false} StaysExclusive<S>(sessions: seq<Session<S>>, id: nat, s: Session<S>)
    requires Exclusive(sessions) && id < |sessions|
    requires s.mine.Some? ==> Alone(sessions, id, RowKey(s.sid))
    ensures Exclusive(sessions[id := s])
  {
    var now := sessions[id := s];
    forall i, j | 0 <= i < j < |now|
      ensures OneWriter(now, i, j)
    {
      assert OneWriter(sessions, i, j);
    }
  }

  lemma {:induction false} ChangeIsAccounted<S>(sessions: seq<Session<S>>, saves: seq<Save<S>>, id: nat, s: Session<S>)
    requires Accounted(sessions, saves) && id < |sessions|
    requires !sessions[id].phase.Closed? && !StoresSomething(s)
    ensures Accounted(sessions[id := s], saves)
  {
    forall i | 0 <= i < |saves|
      ensures SaveOfSession(sessions[id := s], saves[i])
    {
      assert SaveOfSession(sessions, saves[i]);
    }
  }

  lemma {:induction false} OpenIsAccounted<S>(sessions: seq<Session<S>>, saves: seq<Save<S>>, s: Session<S>)
    requires Accounted(sessions, saves) && !StoresSomething(s)
    ensures Accounted(sessions + [s], saves)
  {
    forall i | 0 <= i < |saves|
      ensures SaveOfSession(sessions + [s], saves[i])
    {
      assert SaveOfSession(sessions, saves[i]);
    }
  }

  lemma {:induction false} SavesOneMore<S>(saves: seq<Save<S>>, c: Save<S>, id: nat)
    ensures Saves(saves + [c], id) <==> Saves(saves, id) || id == c.session
  {
    var now := saves + [c];
    if Saves(saves, id) {
      var i :| 0 <= i < |saves| && saves[i].session == id;
      assert now[i].session == id;
    }
    assert now[|saves|] == c;
  }

  lemma {:induction false} CommitIsAccounted<S>(sessions: seq<Session<S>>, saves: seq<Save<S>>, id: nat)
    requires Accounted(sessions, saves) && id < |sessions|
    requires !sessions[id].phase.Closed? && Writing(sessions[id])
    ensures Accounted(sessions[id := Close(sessions[id], Accepted)], saves + [SaveOf(id, sessions[id])])
  {
    var c := SaveOf(id, sessions[id]);
    var sessions', saves' := sessions[id := Close(sessions[id], Accepted)], saves + [c];
    forall i | 0 <= i < |saves'|
      ensures SaveOfSession(sessions', saves'[i]) && (i < |saves| ==> saves'[i].session != id)
    {
      assert i < |saves| ==> SaveOfSession(sessions, saves[i]);
    }
    forall i, j | 0 <= i < j < |saves'|
      ensures SavedApart(saves', i, j)
    {
      assert j < |saves| ==> SavedApart(saves, i, j);
    }
    forall k: nat | k < |sessions'| && StoresSomething(sessions'[k])
      ensures Saves(saves', k)
    {
      SavesOneMore(saves, c, k);
    }
  }

  lemma {:induction false} ChangeIsConsistent<S>(apply: Apply<S>, init: S, w: World<S>, id: nat, s: Session<S>)
    requires Consistent(apply, init, w) && id < |w.sessions|
    requires !w.sessions[id].phase.Closed? && !StoresSomething(s)
    requires SessionSound(apply, init, w.table, s)
    requires s.mine.Some? ==> Alone(w.sessions, id, RowKey(s.sid))
    ensures Consistent(apply, init, With(w, id, s))
  {
    hide SessionSound, TableSound, HistoryAgrees, Serial, Accounted;
    StaysExclusive(w.sessions, id, s);
    ChangeIsAccounted(w.sessions, w.saves, id, s);
  }

  lemma {:induction false} OneMoreExclusive<S>(sessions: seq<Session<S>>, s: Session<S>)
    requires Exclusive(sessions) && s.mine.None?
    ensures Exclusive(sessions + [s])
  {
    var now := sessions + [s];
    forall i, j | 0 <= i < j < |now|
      ensures OneWriter(now, i, j)
    {
      assert j < |sessions| ==> OneWriter(sessions, i, j);
    }
  }

  lemma {:induction false} OpenIsConsistent<S>(apply: Apply<S>, init: S, w: World<S>, sid: StreamId)
    requires Consistent(apply, init, w) && sid.Valid()
    ensures Consistent(apply, init, w.(sessions := w.sessions + [Opened(apply, init, w.table, sid)]))
  {
    var s := Opened(apply, init, w.table, sid);
    OpenedIsSound(apply, init, w.table, sid);
    hide SessionSound, TableSound, HistoryAgrees, Serial, Accounted, Exclusive, Fetched, Fold;
    OpenIsAccounted(w.sessions, w.saves, s);
    OneMoreExclusive(w.sessions, s);
  }

  lemma {:induction false} EmitIsConsistent<S>(apply: Apply<S>, init: S, w: World<S>, id: nat, event: RawEvent)
    requires Consistent(apply, init, w) && id < |w.sessions| && w.sessions[id].phase.Editing?
    ensures Consistent(apply, init, With(w, id, Emitted(apply, w.sessions[id], event)))
  {
    EmittedIsSound(apply, init, w.table, w.sessions[id], event);
    ChangeIsConsistent(apply, init, w, id, Emitted(apply, w.sessions[id], event));
  }

  lemma {:induction false} LookIsConsistent<S>(apply: Apply<S>, init: S, w: World<S>, id: nat)
    requires Consistent(apply, init, w) && id < |w.sessions| && w.sessions[id].phase.Editing?
    ensures Consistent(apply, init, With(w, id, Looked(w.table, w.sessions[id])))
  {
    LookedIsSound(apply, init, w.table, w.sessions[id]);
    ChangeIsConsistent(apply, init, w, id, Looked(w.table, w.sessions[id]));
  }

  lemma {:induction false} AbandonIsConsistent<S>(apply: Apply<S>, init: S, w: World<S>, id: nat)
    requires Consistent(apply, init, w) && id < |w.sessions| && !w.sessions[id].phase.Closed?
    ensures Consistent(apply, init, With(w, id, Close(w.sessions[id], Abandoned)))
  {
    ChangeIsConsistent(apply, init, w, id, Close(w.sessions[id], Abandoned));
  }

  lemma {:induction false} EnsureIsConsistent<S>(apply: Apply<S>, init: S, w: World<S>, id: nat)
    requires Consistent(apply, init, w) && id < |w.sessions| && w.sessions[id].phase.Saving? && !Waits(w, id)
    ensures Consistent(apply, init, With(w, id, EnsuredIn(w.table, w.sessions[id])))
  {
    var s := w.sessions[id];
    EnsuredIsSound(apply, init, w.table, s);
    if EnsuredIn(w.table, s).mine.Some? {
      forall j: nat | j < |w.sessions| && j != id && w.sessions[j].mine.Some?
        ensures RowKey(w.sessions[j].sid) != RowKey(s.sid)
      {
        assert !WaitsFor(w, id, j);
      }
    }
    ChangeIsConsistent(apply, init, w, id, EnsuredIn(w.table, s));
  }

  lemma {:induction false} CompareIsConsistent<S>(apply: Apply<S>, init: S, w: World<S>, id: nat)
    requires Consistent(apply, init, w) && id < |w.sessions| && w.sessions[id].phase.Ensured? && !Waits(w, id)
    ensures HasRow(w.table, w.sessions[id]) && Consistent(apply, init, With(w, id, ComparedIn(w.table, w.sessions[id])))
  {
    var s := w.sessions[id];
    ComparedIsSound(apply, init, w.table, s);
    if s.mine.Some? {
      HolderIsAlone(w.sessions, id);
    } else if ComparedIn(w.table, s).mine.Some? {
      forall j: nat | j < |w.sessions| && j != id && w.sessions[j].mine.Some?
        ensures RowKey(w.sessions[j].sid) != RowKey(s.sid)
      {
        assert !WaitsFor(w, id, j);
      }
    }
    ChangeIsConsistent(apply, init, w, id, ComparedIn(w.table, s));
  }

  lemma {:induction false} StoreIsConsistent<S>(apply: Apply<S>, init: S, w: World<S>, id: nat)
    requires Consistent(apply, init, w) && id < |w.sessions| && w.sessions[id].phase.Compared?
    ensures Consistent(apply, init, With(w, id, StoredIn(w.table, w.sessions[id])))
  {
    var s := w.sessions[id];
    StoredIsSound(apply, init, w.table, s);
    if s.mine.Some? {
      HolderIsAlone(w.sessions, id);
    }
    ChangeIsConsistent(apply, init, w, id, StoredIn(w.table, s));
  }

  // A commit leaves every other session sound: only the row's writer can commit, and
  // streams only grow.
  lemma {:induction false} OthersStaySound<S>(apply: Apply<S>, init: S, table: Db, sid: StreamId,
                                              pending: seq<RawEvent>, other: Session<S>)
    requires SessionSound(apply, init, table, other)
    requires other.mine.Some? ==> RowKey(other.sid) != RowKey(sid)
    ensures SessionSound(apply, init, Advanced(table, TENANT, sid, pending), other)
  {
    AdvancedEvents(table, sid, pending);
    var a, b := EventsOf(table, RowKey(other.sid)), EventsOf(Advanced(table, TENANT, sid, pending), RowKey(other.sid));
    if other.stored.Some? && 0 <= other.stored.value <= |a| {
      assert a[..other.stored.value] == b[..other.stored.value];
    }
  }

  lemma {:induction false} SavedOneMore<S>(saves: seq<Save<S>>, c: Save<S>, key: Key)
    ensures SavedEvents(saves + [c], key) == SavedEvents(saves, key) + if RowKey(c.sid) == key then c.events else []
  {
    assert (saves + [c])[..|saves|] == saves;
  }

  lemma {:induction false} SerialOneMore<S>(apply: Apply<S>, init: S, saves: seq<Save<S>>, c: Save<S>)
    requires Serial(apply, init, saves)
    requires c.loaded == Fold(apply, init, SavedEvents(saves, RowKey(c.sid)))
    ensures Serial(apply, init, saves + [c])
  {
    var now := saves + [c];
    forall i | 0 <= i < |now|
      ensures LoadedAllBefore(apply, init, now, i)
    {
      if i < |saves| {
        assert LoadedAllBefore(apply, init, saves, i);
        assert now[..i] == saves[..i];
      } else {
        assert now[..i] == saves;
      }
    }
  }

  lemma {:induction false} CommitKeepsHistory<S>(apply: Apply<S>, init: S, table: Db, saves: seq<Save<S>>,
                                                 id: nat, s: Session<S>)
    requires HistoryAgrees(table, saves) && Serial(apply, init, saves)
    requires Replayed(apply, init, table, s) && Writing(s) && s.stored.value == |EventsOf(table, RowKey(s.sid))|
    ensures HistoryAgrees(Advanced(table, TENANT, s.sid, s.pending), saves + [SaveOf(id, s)])
    ensures Serial(apply, init, saves + [SaveOf(id, s)])
  {
    var c, before := SaveOf(id, s), EventsOf(table, RowKey(s.sid));
    assert before[..|before|] == before == SavedEvents(saves, RowKey(s.sid));
    SerialOneMore(apply, init, saves, c);
    AdvancedEvents(table, s.sid, s.pending);
    forall key
      ensures EventsOf(Advanced(table, TENANT, s.sid, s.pending), key) == SavedEvents(saves + [c], key)
    {
      SavedOneMore(saves, c, key);
      assert EventsOf(table, key) == SavedEvents(saves, key);
    }
  }

  lemma {:induction false} CommitIsConsistent<S>(apply: Apply<S>, init: S, w: World<S>, id: nat)
    requires Consistent(apply, init, w) && id < |w.sessions| && w.sessions[id].phase.Stored?
    ensures HasRow(w.table, w.sessions[id]) && Consistent(apply, init, Ended(w, id))
  {
    var s := w.sessions[id];
    CommittedIsAdvanced(apply, init, w.table, s);
    HolderIsAlone(w.sessions, id);
    CommitKeepsHistory(apply, init, w.table, w.saves, id, s);
    CommitIsAccounted(w.sessions, w.saves, id);
    AdvancedIsSound(w.table, s.sid, s.pending);
    var now := w.sessions[id := Close(s, Accepted)];
    forall i | 0 <= i < |now|
      ensures SessionSound(apply, init, Advanced(w.table, TENANT, s.sid, s.pending), now[i])
    {
      if i != id {
        OthersStaySound(apply, init, w.table, s.sid, s.pending, w.sessions[i]);
      }
    }
    StaysExclusive(w.sessions, id, Close(s, Accepted));
  }

  predicate Proper(a: Action) {
    a.Open? ==> a.sid.Valid()
  }

  lemma {:induction false} StepIsConsistent<S>(apply: Apply<S>, init: S, w: World<S>, a: Action)
    requires Consistent(apply, init, w) && Proper(a)
    ensures Consistent(apply, init, Step(apply, init, w, a))
  {
    hide Consistent, Opened, Emitted, Looked, EnsuredIn, ComparedIn, StoredIn, Ended, Waits;
    if a.Open? {
      OpenIsConsistent(apply, init, w, a.sid);
    } else if Can(w, a.id) && Step(apply, init, w, a) != w {
      match a
      case Emit(id, event) => EmitIsConsistent(apply, init, w, id, event);
      case Look(id) => LookIsConsistent(apply, init, w, id);
      case Ensure(id) => EnsureIsConsistent(apply, init, w, id);
      case Compare(id) => CompareIsConsistent(apply, init, w, id);
      case Store(id) => StoreIsConsistent(apply, init, w, id);
      case Commit(id) => CommitIsConsistent(apply, init, w, id);
      case Abandon(id) => AbandonIsConsistent(apply, init, w, id);
    }
  }

  // No lost update. However the statements of any number of sessions interleave, including
  // races to create a stream and transactions given up half way, stored versions are exactly
  // 1..n with n in the stream's row, every stream is the accepted sessions' events in commit
  // order, and each accepted session had loaded the replay of exactly the events before its own.
  lemma {:induction false} NoLostUpdate<S>(apply: Apply<S>, init: S, w: World<S>, actions: seq<Action>)
    requires Consistent(apply, init, w) && forall a :: a in actions ==> Proper(a)
    ensures Consistent(apply, init, Run(apply, init, w, actions))
    decreases |actions|
  {
    if actions != [] {
      StepIsConsistent(apply, init, w, actions[0]);
      NoLostUpdate(apply, init, Step(apply, init, w, actions[0]), actions[1..]);
    }
  }

  lemma {:induction false} EmptyIsConsistent<S>(apply: Apply<S>, init: S)
    ensures Consistent(apply, init, World(map[], [], []))
  {
  }

  /******* Verdicts, waiting, and one session on its own *******/

  // In any reachable world, the row statement refuses exactly what cannot be addressed, and
  // the two deciding statements refuse exactly when another session has stored something on
  // the stream since it was loaded: the update for a session that had found events, the
  // insert for one that had found none.
  lemma {:induction false} RefusedIff<S>(apply: Apply<S>, init: S, w: World<S>, id: nat)
    requires Consistent(apply, init, w) && id < |w.sessions|
    ensures var s := w.sessions[id];
            var saved := SavedEvents(w.saves, RowKey(s.sid));
            && (s.phase.Saving? ==> (EnsuredIn(w.table, s).phase.Closed? <==> !Addressable(w.table, s.sid)))
            && (s.phase.Ensured? ==>
                  && HasRow(w.table, s)
                  && (ComparedIn(w.table, s).phase.Closed? <==> s.stored.value != 0 && s.stored.value != |saved|))
            && (s.phase.Compared? ==> (StoredIn(w.table, s).phase.Closed? <==> s.stored.value != |saved|))
            && (s.phase.Compared? && s.stored.value != |saved| ==> s.stored.value == 0)
  {
    var s := w.sessions[id];
    assert EventsOf(w.table, RowKey(s.sid)) == SavedEvents(w.saves, RowKey(s.sid));
    if s.phase.Saving? {
      EnsuredIsSound(apply, init, w.table, s);
    } else if s.phase.Ensured? {
      ComparedIsSound(apply, init, w.table, s);
    } else if s.phase.Compared? {
      StoredIsSound(apply, init, w.table, s);
    }
  }

  // A transaction that has written a row never waits, so waiting never goes in a circle.
  lemma {:induction false} WritersDoNotWait<S>(apply: Apply<S>, init: S, w: World<S>, id: nat)
    requires Consistent(apply, init, w) && id < |w.sessions|
    ensures w.sessions[id].mine.Some? ==> !Waits(w, id)
    ensures forall j: nat :: j < |w.sessions| && WaitsFor(w, id, j) ==>
              w.sessions[j].mine.Some? && !w.sessions[j].phase.Closed?
  {
    var s := w.sessions[id];
    assert SessionSound(apply, init, w.table, s);
    if s.mine.Some? {
      HolderIsAlone(w.sessions, id);
    }
    forall j: nat | j < |w.sessions| && WaitsFor(w, id, j)
      ensures s.mine.None? && w.sessions[j].mine.Some? && !w.sessions[j].phase.Closed?
    {
      assert SessionSound(apply, init, w.table, w.sessions[j]);
    }
  }

  lemma {:induction false} ReplayWithOwn<S>(apply: Apply<S>, init: S, before: seq<RawEvent>, pending: seq<RawEvent>)
    ensures Fold(apply, init, before + Numbered(pending, |before|)) == Fold(apply, Fold(apply, init, before), pending)
  {
    FoldConcat(apply, init, before, Numbered(pending, |before|));
    FoldNumbered(apply, Fold(apply, init, before), pending, |before|);
  }

  lemma {:induction false} AdvancedReplay<S>(apply: Apply<S>, init: S, table: Db, s: Session<S>)
    requires Replayed(apply, init, table, s) && s.stored.value == |EventsOf(table, RowKey(s.sid))|
    ensures var now := Advanced(table, TENANT, s.sid, s.pending)[RowKey(s.sid)];
            s.state == Fold(apply, init, now.events) && now.version == WithPending(s.stored, s.pending)
  {
    var before := EventsOf(table, RowKey(s.sid));
    AdvancedEvents(table, s.sid, s.pending);
    hide Fold, Numbered;
    assert before[..|before|] == before;
    ReplayWithOwn(apply, init, before, s.pending);
  }

  // At the moment a session commits its aggregate is the replay of the whole stream, and the
  // aggregate's version, pending events included, is the stream's.
  lemma {:induction false} CommittedStateIsReplay<S>(apply: Apply<S>, init: S, w: World<S>, id: nat)
    requires Consistent(apply, init, w) && id < |w.sessions| && w.sessions[id].phase.Stored?
    ensures var s := w.sessions[id];
            && HasRow(w.table, s)
            && var now := CommittedIn(w.table, s)[RowKey(s.sid)];
               s.state == Fold(apply, init, now.events) && now.version == WithPending(s.stored, s.pending)
  {
    CommittedIsAdvanced(apply, init, w.table, w.sessions[id]);
    hide Fold, Numbered;
    AdvancedReplay(apply, init, w.table, w.sessions[id]);
  }

  // All statements of a save with nothing in between.
  function InOneGo<S>(table: Db, s: Session<S>): (Db, Session<S>)
    requires Writing(s) && s.phase.Saving? && s.mine.None?
  {
    var ensured := EnsuredIn(table, s);
    if ensured.phase.Closed? then (table, ensured)
    else
      var compared := ComparedIn(table, ensured);
      if compared.phase.Closed? then (table, compared)
      else
        var stored := StoredIn(table, compared);
        if stored.phase.Closed? then (table, stored) else (CommittedIn(table, stored), Close(stored, Accepted))
  }

  // Alone, the statements do what the repository's save does, on any table.
  lemma {:induction false} InOneGoIsSaved<S>(table: Db, s: Session<S>)
    requires Writing(s) && s.phase.Saving? && s.mine.None?
    ensures var r, (table', s') := Saved(table, s.phase.seen, s.sid, s.stored, s.pending), InOneGo(table, s);
            if r.Success? then table' == r.value && s'.phase == Closed(Accepted)
            else table' == table && s'.phase == Closed(Refused(r.error))
  {
    hide Numbered, ExplicitFor, VersionsFree, NameTaken;
    var key, ensured := RowKey(s.sid), if s.phase.seen then table else RowInserted(table, s.sid, Versions(s));
    if Mismatch(ensured, s.sid).None? && Incompatible(Versions(s), ensured[key].version).None? {
      var row := ensured[key];
      assert row.events == EventsOf(table, key);
      var version := if ChecksVersion(Versions(s)) then Some(Versions(s).initial) else row.version;
      var last := row.(version := version, events := row.events + Added(s));
      assert ensured[key := last] == table[key := last];
    }
  }
}
