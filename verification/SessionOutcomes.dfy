/**
 What the interleaved sessions' statements come to, in terms of stored events alone: what a
 load sees, what a commit stores, and what a session achieves that nobody keeps waiting.
 */
module SessionOutcomes {
  import opened Wrappers
  import opened Seqs
  import opened Events
  import opened StreamTables
  import opened SqlAlchemyStore
  import opened Sessions
  import opened Interleaving

  // `now` is `before` followed by the given events with the versions after.
  ghost predicate Gained(before: seq<RawEvent>, now: seq<RawEvent>, events: seq<RawEvent>) {
    && |now| == |before| + |events|
    && (forall i :: 0 <= i < |before| ==> now[i] == before[i])
    && (forall i :: 0 <= i < |events| ==> now[|before| + i] == events[i].(version := Some(|before| + 1 + i)))
  }

  // The stream is there, and not under another name than the one asked for.
  predicate Visible(table: Db, sid: StreamId) {
    RowKey(sid) in table && (sid.Named() ==> table[RowKey(sid)].name == sid.name)
  }

  // Opening loads all events of the stream, and changes nothing.
  lemma {:induction false} OpenLoadsAll<S>(apply: Apply<S>, init: S, w: World<S>, sid: StreamId)
    requires Consistent(apply, init, w)
    ensures var now := Step(apply, init, w, Open(sid));
            var events := if Visible(w.table, sid) then w.table[RowKey(sid)].events else [];
            && now.table == w.table && now.saves == w.saves
            && |now.sessions| == |w.sessions| + 1
            && (forall j :: 0 <= j < |w.sessions| ==> now.sessions[j] == w.sessions[j])
            && now.sessions[|w.sessions|]
                == (var loaded := Fold(apply, init, events);
                    Session(sid, loaded, Some(|events|), loaded, [], Editing, None))
  {
    if Visible(w.table, sid) {
      assert RowSound(w.table[RowKey(sid)]);
      LoadReplays(apply, init, w.table, sid);
    }
  }

  lemma {:induction false} NumberedGains(before: seq<RawEvent>, events: seq<RawEvent>)
    ensures Gained(before, before + Numbered(events, |before|), events)
  {
  }

  lemma {:induction false} AdvancedGains(table: Db, sid: StreamId, events: seq<RawEvent>)
    requires TableSound(table)
    ensures var now, key := Advanced(table, TENANT, sid, events), RowKey(sid);
            && Gained(EventsOf(table, key), EventsOf(now, key), events)
            && key in now && now[key].version == Some(|now[key].events|)
            && (now[key].name == if key in table then table[key].name else sid.name)
            && now - {key} == table - {key}
  {
    AdvancedEvents(table, sid, events);
    hide Gained, Numbered;
    NumberedGains(EventsOf(table, RowKey(sid)), events);
  }

  lemma {:induction false} CommitAdvances<S>(apply: Apply<S>, init: S, w: World<S>, id: nat)
    requires Consistent(apply, init, w) && id < |w.sessions| && w.sessions[id].phase.Stored?
    ensures var s := w.sessions[id];
            && Writing(s)
            && s.stored == Some(|EventsOf(w.table, RowKey(s.sid))|)
            && Step(apply, init, w, Commit(id))
                == World(Advanced(w.table, TENANT, s.sid, s.pending), w.sessions[id := Close(s, Accepted)],
                         w.saves + [SaveOf(id, s)])
  {
    var s := w.sessions[id];
    assert SessionSound(apply, init, w.table, s);
    hide Advanced, CommittedIn, Added;
    CommittedIsAdvanced(apply, init, w.table, s);
  }

  // A commit stores the session's pending events behind all others of the stream, whose row
  // takes their number for its version; no other row changes.
  lemma {:induction false} CommitStores<S>(apply: Apply<S>, init: S, w: World<S>, id: nat)
    requires Consistent(apply, init, w) && id < |w.sessions| && w.sessions[id].phase.Stored?
    ensures var s, now := w.sessions[id], Step(apply, init, w, Commit(id));
            var key := RowKey(s.sid);
            && |now.sessions| == |w.sessions| && now.sessions[id] == s.(phase := Closed(Accepted), mine := None)
            && (forall j :: 0 <= j < |w.sessions| && j != id ==> now.sessions[j] == w.sessions[j])
            && s.stored == Some(|EventsOf(w.table, key)|)
            && Gained(EventsOf(w.table, key), EventsOf(now.table, key), s.pending)
            && key in now.table && now.table[key].version == Some(|now.table[key].events|)
            && (now.table[key].name == if key in w.table then w.table[key].name else s.sid.name)
            && now.table - {key} == w.table - {key}
  {
    CommitAdvances(apply, init, w, id);
    AdvancedGains(w.table, w.sessions[id].sid, w.sessions[id].pending);
    hide Step, Advanced, Gained, SessionSound, RowSound, Accounted, Serial, Exclusive, HistoryAgrees;
  }

  // A session given up leaves nothing behind.
  lemma {:induction false} AbandonForgets<S>(apply: Apply<S>, init: S, w: World<S>, id: nat)
    requires id < |w.sessions| && !w.sessions[id].phase.Closed?
    ensures var now := Step(apply, init, w, Abandon(id));
            && now.table == w.table && now.saves == w.saves && |now.sessions| == |w.sessions|
            && now.sessions[id].phase == Closed(Abandoned) && now.sessions[id].mine == None
            && forall j :: 0 <= j < |w.sessions| && j != id ==> now.sessions[j] == w.sessions[j]
  {
  }

  /******* A session that nobody keeps waiting *******/

  lemma {:induction false} RunConcat<S>(apply: Apply<S>, init: S, w: World<S>, a: seq<Action>, b: seq<Action>)
    ensures Run(apply, init, w, a + b) == Run(apply, init, Run(apply, init, w, a), b)
    decreases |a|
  {
    hide Step;
    if a == [] {
      assert a + b == b;
    } else {
      RunConcat(apply, init, Step(apply, init, w, a[0]), a[1..], b);
      assert (a + b)[1..] == a[1..] + b;
    }
  }

  lemma {:induction false} RunCons<S>(apply: Apply<S>, init: S, w: World<S>, a: Action, rest: seq<Action>)
    ensures Run(apply, init, w, [a] + rest) == Run(apply, init, Step(apply, init, w, a), rest)
  {
    hide Step;
    assert ([a] + rest)[1..] == rest;
  }

  function Emits(id: nat, events: seq<RawEvent>): (r: seq<Action>)
    ensures |r| == |events| && forall i :: 0 <= i < |r| ==> r[i] == Emit(id, events[i])
  {
    Map((e: RawEvent) => Emit(id, e), events)
  }

  // Emitted events are applied and pend, in order, on the session's stream.
  lemma {:induction false} EmitsPend<S>(apply: Apply<S>, init: S, w: World<S>, id: nat, events: seq<RawEvent>)
    requires id < |w.sessions| && w.sessions[id].phase.Editing?
    ensures var s := w.sessions[id];
            Run(apply, init, w, Emits(id, events)) == With(w, id, s.(
              state := Fold(apply, s.state, events), pending := s.pending + Map(Returned(s.sid), events)))
    decreases |events|
  {
    var s := w.sessions[id];
    if events == [] {
      assert s.pending + [] == s.pending;
      assert w.sessions[id := s] == w.sessions;
    } else {
      var first := events[0].(stream := s.sid);
      var next := With(w, id, Emitted(apply, s, events[0]));
      assert Step(apply, init, w, Emit(id, events[0])) == next;
      assert Emits(id, events) == [Emit(id, events[0])] + Emits(id, events[1..]);
      RunCons(apply, init, w, Emit(id, events[0]), Emits(id, events[1..]));
      EmitsPend(apply, init, next, id, events[1..]);
      assert Map(Returned(s.sid), events) == [first] + Map(Returned(s.sid), events[1..]);
      Assoc(s.pending, [first], Map(Returned(s.sid), events[1..]));
    }
  }

  // No other transaction holds a row it has written.
  ghost predicate Unhindered<S>(w: World<S>, id: nat) {
    forall j :: 0 <= j < |w.sessions| && j != id ==> w.sessions[j].mine.None?
  }

  lemma {:induction false} UnhinderedDoesNotWait<S>(apply: Apply<S>, init: S, w: World<S>, id: nat)
    requires Consistent(apply, init, w) && id < |w.sessions| && Unhindered(w, id)
    ensures !Waits(w, id)
  {
    WritersDoNotWait(apply, init, w, id);
  }

  predicate Of(id: nat, a: Action) {
    !a.Open? && a.id == id
  }

  lemma {:induction false} ClosedStays<S>(apply: Apply<S>, init: S, w: World<S>, id: nat, actions: seq<Action>)
    requires id < |w.sessions| && w.sessions[id].phase.Closed? && forall a :: a in actions ==> Of(id, a)
    ensures Run(apply, init, w, actions) == w
    decreases |actions|
  {
    if actions != [] {
      assert Of(id, actions[0]);
      assert Step(apply, init, w, actions[0]) == w;
      ClosedStays(apply, init, w, id, actions[1..]);
    }
  }

  predicate Current<S>(w: World<S>, id: nat)
    requires id < |w.sessions|
  {
    w.sessions[id].stored == Some(|EventsOf(w.table, RowKey(w.sessions[id].sid))|)
  }

  predicate Reachable<S>(w: World<S>, id: nat)
    requires id < |w.sessions|
  {
    Addressable(w.table, w.sessions[id].sid)
  }

  // A statement short of the commit: the session still has the same to store, and nothing
  // else changed.
  ghost predicate Underway<S>(w: World<S>, next: World<S>, id: nat)
    requires id < |w.sessions|
  {
    && |next.sessions| == |w.sessions| && next.table == w.table && Unhindered(next, id)
    && next.sessions[id].sid == w.sessions[id].sid
    && next.sessions[id].stored == w.sessions[id].stored
    && next.sessions[id].pending == w.sessions[id].pending
  }

  predicate TurnedDown<S>(s: Session<S>) {
    s.phase.Closed? && s.phase.end.Refused?
  }

  ghost predicate SameBusiness<S>(s: Session<S>, next: Session<S>) {
    next.sid == s.sid && next.stored == s.stored && next.pending == s.pending
  }

  lemma {:induction false} EnsuredKeeps<S>(table: Db, s: Session<S>)
    requires Writing(s) && s.phase.Saving?
    ensures SameBusiness(s, EnsuredIn(table, s))
    ensures EnsuredIn(table, s).phase.Ensured? || TurnedDown(EnsuredIn(table, s))
  {
  }

  lemma {:induction false} ComparedKeeps<S>(table: Db, s: Session<S>)
    requires Writing(s) && HasRow(table, s)
    ensures SameBusiness(s, ComparedIn(table, s))
    ensures ComparedIn(table, s).phase.Compared? || TurnedDown(ComparedIn(table, s))
  {
  }

  lemma {:induction false} UnderwayWith<S>(w: World<S>, id: nat, s: Session<S>)
    requires id < |w.sessions| && Unhindered(w, id) && SameBusiness(w.sessions[id], s)
    ensures Underway(w, With(w, id, s), id)
  {
  }

  lemma {:induction false} LookAlone<S>(apply: Apply<S>, init: S, w: World<S>, id: nat)
    requires Consistent(apply, init, w) && id < |w.sessions| && Unhindered(w, id)
    requires w.sessions[id].phase.Editing? && w.sessions[id].pending != []
    ensures var next := Step(apply, init, w, Look(id));
            Underway(w, next, id) && next.sessions[id].phase.Saving?
  {
    assert SessionSound(apply, init, w.table, w.sessions[id]);
  }

  lemma {:induction false} EnsureAlone<S>(apply: Apply<S>, init: S, w: World<S>, id: nat)
    requires Consistent(apply, init, w) && id < |w.sessions| && Unhindered(w, id) && w.sessions[id].phase.Saving?
    ensures var next := Step(apply, init, w, Ensure(id));
            && Underway(w, next, id)
            && if Reachable(w, id) then next.sessions[id].phase.Ensured? else TurnedDown(next.sessions[id])
  {
    var s := w.sessions[id];
    UnhinderedDoesNotWait(apply, init, w, id);
    assert SessionSound(apply, init, w.table, s);
    EnsuredIsSound(apply, init, w.table, s);
    hide EnsuredIn, Addressable, Waits, SameBusiness, Underway, TableSound;
    EnsuredKeeps(w.table, s);
    UnderwayWith(w, id, EnsuredIn(w.table, s));
  }

  lemma {:induction false} CompareSteps<S>(apply: Apply<S>, init: S, w: World<S>, id: nat)
    requires Consistent(apply, init, w) && id < |w.sessions| && Unhindered(w, id) && w.sessions[id].phase.Ensured?
    ensures Writing(w.sessions[id]) && HasRow(w.table, w.sessions[id])
    ensures Step(apply, init, w, Compare(id)) == With(w, id, ComparedIn(w.table, w.sessions[id]))
  {
    hide ComparedIn, Waits;
    UnhinderedDoesNotWait(apply, init, w, id);
    assert SessionSound(apply, init, w.table, w.sessions[id]);
  }

  lemma {:induction false} CompareAlone<S>(apply: Apply<S>, init: S, w: World<S>, id: nat)
    requires Consistent(apply, init, w) && id < |w.sessions| && Unhindered(w, id) && w.sessions[id].phase.Ensured?
    ensures var next := Step(apply, init, w, Compare(id));
            && Underway(w, next, id)
            && (next.sessions[id].phase.Compared? || TurnedDown(next.sessions[id]))
            && (Current(w, id) ==> next.sessions[id].phase.Compared?)
  {
    var s := w.sessions[id];
    CompareSteps(apply, init, w, id);
    ComparedIsSound(apply, init, w.table, s);
    hide ComparedIn, Step, SessionSound, SameBusiness, Underway, TableSound, HistoryAgrees, Accounted, Serial;
    ComparedKeeps(w.table, s);
    UnderwayWith(w, id, ComparedIn(w.table, s));
  }

  lemma {:induction false} StoreAlone<S>(apply: Apply<S>, init: S, w: World<S>, id: nat)
    requires Consistent(apply, init, w) && id < |w.sessions| && Unhindered(w, id) && w.sessions[id].phase.Compared?
    ensures var next := Step(apply, init, w, Store(id));
            && Underway(w, next, id)
            && if Current(w, id) then next.sessions[id].phase.Stored? else TurnedDown(next.sessions[id])
  {
    UnhinderedDoesNotWait(apply, init, w, id);
    StoredIsSound(apply, init, w.table, w.sessions[id]);
  }

  // The session's stream gained its pending events, and it is accepted.
  ghost predicate Achieved<S>(w: World<S>, end: World<S>, id: nat)
    requires id < |w.sessions|
  {
    var key := RowKey(w.sessions[id].sid);
    && |end.sessions| == |w.sessions| && end.sessions[id].phase == Closed(Accepted)
    && Gained(EventsOf(w.table, key), EventsOf(end.table, key), w.sessions[id].pending)
    && end.table - {key} == w.table - {key}
  }

  ghost predicate Failed<S>(w: World<S>, end: World<S>, id: nat)
    requires id < |w.sessions|
  {
    |end.sessions| == |w.sessions| && TurnedDown(end.sessions[id]) && end.table == w.table
  }

  // What comes of the rest comes of the whole.
  lemma {:induction false} Carried<S>(w: World<S>, next: World<S>, end: World<S>, id: nat)
    requires id < |w.sessions| && Underway(w, next, id)
    ensures Achieved(next, end, id) <==> Achieved(w, end, id)
    ensures Failed(next, end, id) <==> Failed(w, end, id)
    ensures (Current(next, id) <==> Current(w, id)) && (Reachable(next, id) <==> Reachable(w, id))
  {
    hide Gained, Addressable;
  }

  lemma {:induction false} FailedStays<S>(apply: Apply<S>, init: S, w: World<S>, next: World<S>, id: nat,
                                          rest: seq<Action>)
    requires id < |w.sessions| && Underway(w, next, id) && TurnedDown(next.sessions[id])
    requires forall a :: a in rest ==> Of(id, a)
    ensures Failed(w, Run(apply, init, next, rest), id)
  {
    ClosedStays(apply, init, next, id, rest);
  }

  lemma {:induction false} CommitAlone<S>(apply: Apply<S>, init: S, w: World<S>, id: nat)
    requires Consistent(apply, init, w) && id < |w.sessions| && w.sessions[id].phase.Stored?
    ensures Achieved(w, Run(apply, init, w, [Commit(id)]), id)
  {
    CommitStores(apply, init, w, id);
    hide Consistent, Step, Gained;
    assert Run(apply, init, Step(apply, init, w, Commit(id)), []) == Step(apply, init, w, Commit(id));
    RunCons(apply, init, w, Commit(id), []);
  }

  lemma {:induction false} FromCompared<S>(apply: Apply<S>, init: S, w: World<S>, id: nat)
    requires Consistent(apply, init, w) && id < |w.sessions| && Unhindered(w, id) && w.sessions[id].phase.Compared?
    ensures var end := Run(apply, init, w, [Store(id)] + [Commit(id)]);
            if Current(w, id) then Achieved(w, end, id) else Failed(w, end, id)
  {
    hide Consistent, Step, Current, Achieved, Failed, Run, Underway;
    var next := Step(apply, init, w, Store(id));
    StoreAlone(apply, init, w, id);
    StepIsConsistent(apply, init, w, Store(id));
    RunCons(apply, init, w, Store(id), [Commit(id)]);
    if Current(w, id) {
      CommitAlone(apply, init, next, id);
      Carried(w, next, Run(apply, init, next, [Commit(id)]), id);
    } else {
      FailedStays(apply, init, w, next, id, [Commit(id)]);
    }
  }

  lemma {:induction false} FromEnsured<S>(apply: Apply<S>, init: S, w: World<S>, id: nat)
    requires Consistent(apply, init, w) && id < |w.sessions| && Unhindered(w, id) && w.sessions[id].phase.Ensured?
    ensures var end := Run(apply, init, w, [Compare(id)] + ([Store(id)] + [Commit(id)]));
            if Current(w, id) then Achieved(w, end, id) else Failed(w, end, id)
  {
    hide Consistent, Step, Current, Achieved, Failed, Run;
    var next, rest := Step(apply, init, w, Compare(id)), [Store(id)] + [Commit(id)];
    CompareAlone(apply, init, w, id);
    StepIsConsistent(apply, init, w, Compare(id));
    RunCons(apply, init, w, Compare(id), rest);
    if next.sessions[id].phase.Compared? {
      FromCompared(apply, init, next, id);
      Carried(w, next, Run(apply, init, next, rest), id);
    } else {
      FailedStays(apply, init, w, next, id, rest);
    }
  }

  lemma {:induction false} FromSaving<S>(apply: Apply<S>, init: S, w: World<S>, id: nat)
    requires Consistent(apply, init, w) && id < |w.sessions| && Unhindered(w, id) && w.sessions[id].phase.Saving?
    ensures var end := Run(apply, init, w, [Ensure(id)] + ([Compare(id)] + ([Store(id)] + [Commit(id)])));
            if Reachable(w, id) && Current(w, id) then Achieved(w, end, id) else Failed(w, end, id)
  {
    hide Consistent, Step, Current, Reachable, Achieved, Failed, Run;
    var next, rest := Step(apply, init, w, Ensure(id)), [Compare(id)] + ([Store(id)] + [Commit(id)]);
    EnsureAlone(apply, init, w, id);
    StepIsConsistent(apply, init, w, Ensure(id));
    RunCons(apply, init, w, Ensure(id), rest);
    if Reachable(w, id) {
      FromEnsured(apply, init, next, id);
      Carried(w, next, Run(apply, init, next, rest), id);
    } else {
      FailedStays(apply, init, w, next, id, rest);
    }
  }

  function Saving(id: nat): seq<Action> {
    [Look(id), Ensure(id), Compare(id), Store(id), Commit(id)]
  }

  // While no other transaction holds a row, a session that has something to store achieves it
  // if and only if its identifier can be addressed and the stream stands where it was loaded.
  // Any number of other sessions may be open, with loads of any age.
  lemma {:induction false} SaveAloneIff<S>(apply: Apply<S>, init: S, w: World<S>, id: nat)
    requires Consistent(apply, init, w) && id < |w.sessions| && Unhindered(w, id)
    requires w.sessions[id].phase.Editing? && w.sessions[id].pending != []
    ensures var end, s := Run(apply, init, w, Saving(id)), w.sessions[id];
            if Addressable(w.table, s.sid) && s.stored == Some(|EventsOf(w.table, RowKey(s.sid))|)
            then Achieved(w, end, id) else Failed(w, end, id)
  {
    hide Consistent, Step, Achieved, Failed, Run, Addressable, EventsOf;
    var next, rest := Step(apply, init, w, Look(id)), [Ensure(id)] + ([Compare(id)] + ([Store(id)] + [Commit(id)]));
    assert Saving(id) == [Look(id)] + rest;
    LookAlone(apply, init, w, id);
    StepIsConsistent(apply, init, w, Look(id));
    RunCons(apply, init, w, Look(id), rest);
    FromSaving(apply, init, next, id);
    Carried(w, next, Run(apply, init, next, rest), id);
  }

  lemma {:induction false} LookAtNothing<S>(apply: Apply<S>, init: S, w: World<S>, id: nat)
    requires Consistent(apply, init, w) && id < |w.sessions|
    requires w.sessions[id].phase.Editing? && w.sessions[id].pending == []
    ensures Step(apply, init, w, Look(id)) == With(w, id, Close(w.sessions[id], Accepted))
  {
    assert SessionSound(apply, init, w.table, w.sessions[id]);
  }

  function AfterLooking(id: nat): seq<Action> {
    [Ensure(id), Compare(id), Store(id), Commit(id)]
  }

  lemma {:induction false} SavingStarts(id: nat)
    ensures Saving(id) == [Look(id)] + AfterLooking(id)
    ensures forall a :: a in AfterLooking(id) ==> Of(id, a)
  {
  }

  // A session with nothing to store is accepted as it is.
  lemma {:induction false} NothingToStore<S>(apply: Apply<S>, init: S, w: World<S>, id: nat)
    requires Consistent(apply, init, w) && id < |w.sessions|
    requires w.sessions[id].phase.Editing? && w.sessions[id].pending == []
    ensures var end := Run(apply, init, w, Saving(id));
            && end.table == w.table && end.saves == w.saves && |end.sessions| == |w.sessions|
            && end.sessions[id].phase == Closed(Accepted)
            && forall j :: 0 <= j < |w.sessions| && j != id ==> end.sessions[j] == w.sessions[j]
  {
    hide Consistent, Step, Run, Saving, AfterLooking, Of;
    var next, rest := Step(apply, init, w, Look(id)), AfterLooking(id);
    LookAtNothing(apply, init, w, id);
    SavingStarts(id);
    RunCons(apply, init, w, Look(id), rest);
    ClosedStays(apply, init, next, id, rest);
  }

  lemma {:induction false} OpenedAndEdited<S>(apply: Apply<S>, init: S, w: World<S>, sid: StreamId,
                                              events: seq<RawEvent>)
    requires Consistent(apply, init, w) && sid.Valid() && Unhindered(w, |w.sessions|)
    ensures var id := |w.sessions|;
            var edited := Run(apply, init, w, [Open(sid)] + Emits(id, events));
            var stored := if Visible(w.table, sid) then w.table[RowKey(sid)].events else [];
            && Consistent(apply, init, edited)
            && edited.table == w.table && |edited.sessions| == id + 1 && Unhindered(edited, id)
            && edited.sessions[id] == Session(sid, Fold(apply, init, stored), Some(|stored|),
                   Fold(apply, Fold(apply, init, stored), events), Map(Returned(sid), events), Editing, None)
  {
    var id, started := |w.sessions|, Step(apply, init, w, Open(sid));
    OpenLoadsAll(apply, init, w, sid);
    EmitsPend(apply, init, started, id, events);
    RunCons(apply, init, w, Open(sid), Emits(id, events));
    NoLostUpdate(apply, init, w, [Open(sid)] + Emits(id, events));
    hide Consistent, Step, Fold, Run;
    assert [] + Map(Returned(sid), events) == Map(Returned(sid), events);
  }

  lemma {:induction false} VisibleIsStored(table: Db, sid: StreamId)
    requires Addressable(table, sid)
    ensures EventsOf(table, RowKey(sid)) == if Visible(table, sid) then table[RowKey(sid)].events else []
  {
  }

  // The stream has gained the events, on the stream itself.
  ghost predicate Holds(before: seq<RawEvent>, now: seq<RawEvent>, sid: StreamId, events: seq<RawEvent>) {
    && |now| == |before| + |events| && now[..|before|] == before
    && (forall i :: 0 <= i < |events| ==>
        now[|before| + i] == events[i].(stream := sid, version := Some(|before| + 1 + i)))
  }

  lemma {:induction false} GainedHolds(before: seq<RawEvent>, now: seq<RawEvent>, sid: StreamId, events: seq<RawEvent>)
    requires Gained(before, now, Map(Returned(sid), events))
    ensures Holds(before, now, sid, events)
  {
    assert now[..|before|] == before;
  }

  lemma {:induction false} AloneSaves<S>(apply: Apply<S>, init: S, w: World<S>, sid: StreamId, events: seq<RawEvent>)
    requires Consistent(apply, init, w) && sid.Valid() && events != [] && Unhindered(w, |w.sessions|)
    ensures var id := |w.sessions|;
            var edited := Run(apply, init, w, [Open(sid)] + Emits(id, events));
            var end := Run(apply, init, w, [Open(sid)] + Emits(id, events) + Saving(id));
            && |edited.sessions| == id + 1 && edited.table == w.table
            && edited.sessions[id].sid == sid && edited.sessions[id].pending == Map(Returned(sid), events)
            && if Addressable(w.table, sid) then Achieved(edited, end, id) else Failed(edited, end, id)
  {
    var id := |w.sessions|;
    var first := [Open(sid)] + Emits(id, events);
    var edited := Run(apply, init, w, first);
    OpenedAndEdited(apply, init, w, sid, events);
    hide Consistent, Step, Fold, Run, Addressable, EventsOf, Achieved, Failed, Visible;
    RunConcat(apply, init, w, first, Saving(id));
    SaveAloneIff(apply, init, edited, id);
    if Addressable(w.table, sid) {
      VisibleIsStored(w.table, sid);
    }
  }

  // From opening to commit: alone, a session is accepted if and only if its identifier can be
  // addressed, its stream then holds all it held before and the emitted events after that,
  // numbered on, and no other stream has changed; else no stream has.
  lemma {:induction false} AloneIff<S>(apply: Apply<S>, init: S, w: World<S>, sid: StreamId, events: seq<RawEvent>)
    requires Consistent(apply, init, w) && sid.Valid() && events != [] && Unhindered(w, |w.sessions|)
    ensures var id, key := |w.sessions|, RowKey(sid);
            var end := Run(apply, init, w, [Open(sid)] + Emits(id, events) + Saving(id));
            && |end.sessions| == id + 1
            && if !Addressable(w.table, sid) then TurnedDown(end.sessions[id]) && end.table == w.table
               else
                 var before, now := EventsOf(w.table, key), EventsOf(end.table, key);
                 && end.sessions[id].phase == Closed(Accepted)
                 && Holds(before, now, sid, events)
                 && end.table - {key} == w.table - {key}
  {
    hide Consistent, Step, Fold, Run, Addressable, EventsOf, Holds, Gained;
    AloneSaves(apply, init, w, sid, events);
    var id, key := |w.sessions|, RowKey(sid);
    var end := Run(apply, init, w, [Open(sid)] + Emits(id, events) + Saving(id));
    if Addressable(w.table, sid) {
      GainedHolds(EventsOf(w.table, key), EventsOf(end.table, key), sid, events);
    }
  }

  /******* Names *******/

  predicate SameName(table: Db, a: Key, b: Key)
    requires a in table && b in table
  {
    a.tenant == b.tenant && a.category == b.category && table[a].name.Some? && table[a].name == table[b].name
  }

  // The constraint on (name, category, tenant).
  ghost predicate UniqueNames(table: Db) {
    forall a, b :: a in table && b in table && SameName(table, a, b) ==> a == b
  }

  // The session has inserted a row that is not committed.
  predicate InFlight<S>(table: Db, s: Session<S>) {
    s.mine.Some? && RowKey(s.sid) !in table
  }

  ghost predicate NoClash<S>(table: Db, sessions: seq<Session<S>>, i: int, j: int)
    requires 0 <= i < j < |sessions|
  {
    InFlight(table, sessions[i]) && InFlight(table, sessions[j]) ==> !Clash(sessions[i].sid, sessions[j].sid)
  }

  // No committed row and no two uncommitted ones violate the constraint.
  ghost predicate Unique<S>(w: World<S>) {
    && UniqueNames(w.table)
    && (forall i :: 0 <= i < |w.sessions| && InFlight(w.table, w.sessions[i]) ==>
        !NameTaken(w.table, TENANT, w.sessions[i].sid))
    && (forall i, j :: 0 <= i < j < |w.sessions| ==> NoClash(w.table, w.sessions, i, j))
  }

  lemma {:induction false} StaysUnique<S>(w: World<S>, id: nat, s: Session<S>)
    requires Unique(w) && id < |w.sessions|
    requires InFlight(w.table, s) ==> InFlight(w.table, w.sessions[id]) && s.sid == w.sessions[id].sid
    ensures Unique(With(w, id, s))
  {
    hide UniqueNames, NameTaken, Clash, RowKey;
    var now := w.sessions[id := s];
    forall i, j | 0 <= i < j < |now|
      ensures NoClash(w.table, now, i, j)
    {
      assert NoClash(w.table, w.sessions, i, j);
    }
  }

  lemma {:induction false} OpenStaysUnique<S>(w: World<S>, s: Session<S>)
    requires Unique(w) && s.mine.None?
    ensures Unique(w.(sessions := w.sessions + [s]))
  {
    hide UniqueNames, NameTaken, Clash, RowKey;
    var now := w.sessions + [s];
    forall i, j | 0 <= i < j < |now|
      ensures NoClash(w.table, now, i, j)
    {
      assert j < |w.sessions| ==> NoClash(w.table, w.sessions, i, j);
    }
  }

  // A row is inserted only when no other session is inserting one that clashes with it.
  lemma {:induction false} EnsureStaysUnique<S>(w: World<S>, id: nat)
    requires Unique(w) && id < |w.sessions| && w.sessions[id].phase.Saving? && Writing(w.sessions[id]) && !Waits(w, id)
    requires EnsuredIn(w.table, w.sessions[id]).mine.Some? ==>
               !w.sessions[id].phase.seen && RowKey(w.sessions[id].sid) !in w.table
    ensures Unique(With(w, id, EnsuredIn(w.table, w.sessions[id])))
  {
    var s, ensured := w.sessions[id], EnsuredIn(w.table, w.sessions[id]);
    if InFlight(w.table, ensured) {
      assert !NameTaken(w.table, TENANT, s.sid) && ensured.sid == s.sid;
      hide UniqueNames, NameTaken, EnsuredIn;
      var now := w.sessions[id := ensured];
      forall i, j | 0 <= i < j < |now|
        ensures NoClash(w.table, now, i, j)
      {
        assert NoClash(w.table, w.sessions, i, j);
        assert !WaitsFor(w, id, if i == id then j else i);
      }
    } else {
      StaysUnique(w, id, ensured);
    }
  }

  lemma {:induction false} NamesAdvance(table: Db, sid: StreamId, events: seq<RawEvent>)
    requires UniqueNames(table) && (RowKey(sid) !in table ==> !NameTaken(table, TENANT, sid))
    ensures UniqueNames(Advanced(table, TENANT, sid, events))
  {
    var now := Advanced(table, TENANT, sid, events);
    forall a, b | a in now && b in now && SameName(now, a, b)
      ensures a == b
    {
      if RowKey(sid) in table {
        assert SameName(table, a, b);
      } else if a != b && a == RowKey(sid) {
        assert HasName(table, TENANT, sid, b);
      } else if a != b && b == RowKey(sid) {
        assert HasName(table, TENANT, sid, a);
      } else if a != b {
        assert SameName(table, a, b);
      }
    }
  }

  lemma {:induction false} StaysFree(table: Db, sid: StreamId, events: seq<RawEvent>, other: StreamId)
    requires !NameTaken(table, TENANT, other) && (RowKey(sid) !in table ==> !Clash(sid, other))
    ensures !NameTaken(Advanced(table, TENANT, sid, events), TENANT, other)
  {
    var now := Advanced(table, TENANT, sid, events);
    forall key | key in now
      ensures other.name.Some? ==> !HasName(now, TENANT, other, key)
    {
      assert key in table && other.name.Some? ==> !HasName(table, TENANT, other, key);
    }
  }

  lemma {:induction false} CommitStaysUnique<S>(w: World<S>, id: nat, saves: seq<Save<S>>)
    requires Unique(w) && id < |w.sessions| && w.sessions[id].mine.Some?
    ensures var s := w.sessions[id];
            Unique(World(Advanced(w.table, TENANT, s.sid, s.pending), w.sessions[id := Close(s, Accepted)], saves))
  {
    var s := w.sessions[id];
    var table, now := Advanced(w.table, TENANT, s.sid, s.pending), w.sessions[id := Close(s, Accepted)];
    NamesAdvance(w.table, s.sid, s.pending);
    forall i | 0 <= i < |now| && InFlight(table, now[i])
      ensures !NameTaken(table, TENANT, now[i].sid)
    {
      assert i != id && InFlight(w.table, w.sessions[i]);
      assert if i < id then NoClash(w.table, w.sessions, i, id) else NoClash(w.table, w.sessions, id, i);
      StaysFree(w.table, s.sid, s.pending, now[i].sid);
    }
    forall i, j | 0 <= i < j < |now|
      ensures NoClash(table, now, i, j)
    {
      assert NoClash(w.table, w.sessions, i, j);
    }
  }

  lemma {:induction false} WritesNewRow<S>(apply: Apply<S>, init: S, w: World<S>, id: nat)
    requires Consistent(apply, init, w) && id < |w.sessions| && w.sessions[id].phase.Saving?
    ensures Writing(w.sessions[id])
    ensures EnsuredIn(w.table, w.sessions[id]).mine.Some? ==>
              !w.sessions[id].phase.seen && RowKey(w.sessions[id].sid) !in w.table
  {
    EnsuredIsSound(apply, init, w.table, w.sessions[id]);
  }

  lemma {:induction false} HoldsRow<S>(apply: Apply<S>, init: S, w: World<S>, id: nat)
    requires Consistent(apply, init, w) && id < |w.sessions| && w.sessions[id].phase.Stored?
    ensures w.sessions[id].mine.Some?
  {
    assert SessionSound(apply, init, w.table, w.sessions[id]);
  }

  lemma {:induction false} StepStaysUnique<S>(apply: Apply<S>, init: S, w: World<S>, a: Action)
    requires Consistent(apply, init, w) && Unique(w)
    ensures Unique(Step(apply, init, w, a))
  {
    hide Unique, Consistent, EnsuredIn, Waits, Advanced, CommittedIn, VersionsFree;
    if a.Open? {
      OpenStaysUnique(w, Opened(apply, init, w.table, a.sid));
    } else if Can(w, a.id) && Step(apply, init, w, a) != w {
      var s := w.sessions[a.id];
      match a
      case Emit(id, event) => StaysUnique(w, id, Emitted(apply, s, event));
      case Look(id) => StaysUnique(w, id, Looked(w.table, s));
      case Ensure(id) =>
        WritesNewRow(apply, init, w, id);
        EnsureStaysUnique(w, id);
      case Compare(id) => StaysUnique(w, id, ComparedIn(w.table, s));
      case Store(id) => StaysUnique(w, id, StoredIn(w.table, s));
      case Commit(id) =>
        CommitAdvances(apply, init, w, id);
        HoldsRow(apply, init, w, id);
        CommitStaysUnique(w, id, w.saves + [SaveOf(id, s)]);
      case Abandon(id) => StaysUnique(w, id, Close(s, Abandoned));
    }
  }

  // However sessions interleave, no two streams of a category ever bear the same name.
  lemma {:induction false} NamesStayUnique<S>(apply: Apply<S>, init: S, w: World<S>, actions: seq<Action>)
    requires Consistent(apply, init, w) && Unique(w) && forall a :: a in actions ==> Proper(a)
    ensures Unique(Run(apply, init, w, actions))
    decreases |actions|
  {
    hide Unique;
    if actions != [] {
      StepIsConsistent(apply, init, w, actions[0]);
      StepStaysUnique(apply, init, w, actions[0]);
      NamesStayUnique(apply, init, Step(apply, init, w, actions[0]), actions[1..]);
    }
  }
}
