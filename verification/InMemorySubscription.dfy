/**
 Subscriptions over the in-memory log. The plain, the category and the event-type
 subscription differ only in the records they pass over.
 */
module InMemorySubscription {
  import opened Wrappers
  import opened Seqs
  import opened Events
  import opened InMemoryStore

  datatype Selector = ToAll | ToCategory(category: string) | ToTypes(names: seq<string>)

  predicate Selects(sel: Selector, r: RecordedRaw) {
    match sel
    case ToAll => true
    case ToCategory(category) => r.entry.stream.key.category == Some(category)
    case ToTypes(names) => r.entry.name in names
  }

  function Wanted(sel: Selector): RecordedRaw -> bool {
    (r: RecordedRaw) => Selects(sel, r)
  }

  // The log between two cursor values; a cursor may start beyond the end of the log.
  function Window(records: seq<RecordedRaw>, from: nat, to: nat): seq<RecordedRaw> {
    if from <= to <= |records| then records[from..to] else []
  }

  lemma {:induction false} PassOver(records: seq<RecordedRaw>, cursor: nat, to: nat, sel: Selector)
    requires cursor < |records| && !Selects(sel, records[cursor]) && cursor < to <= |records|
    ensures Filter(Wanted(sel), Window(records, cursor, to)) == Filter(Wanted(sel), Window(records, cursor + 1, to))
  {
    assert records[cursor..to] == [records[cursor]] + records[cursor + 1..to];
    assert records[cursor..to][1..] == records[cursor + 1..to];
  }

  // One pop: passes over unwanted records, stops behind the first wanted one.
  function Popped(records: seq<RecordedRaw>, cursor: nat, sel: Selector): (r: (Option<RecordedRaw>, nat))
    ensures cursor <= r.1 && (cursor < r.1 ==> r.1 <= |records|)
    ensures Filter(Wanted(sel), Window(records, cursor, r.1)) == if r.0.Some? then [r.0.value] else []
    ensures r.0.None? ==> |records| <= r.1
    decreases |records| - cursor
  {
    if |records| <= cursor then
      assert Window(records, cursor, cursor) == [];
      (None, cursor)
    else if Selects(sel, records[cursor]) then
      assert records[cursor..cursor + 1] == [records[cursor]];
      assert Filter(Wanted(sel), [records[cursor]]) == [records[cursor]];
      (Some(records[cursor]), cursor + 1)
    else
      var r := Popped(records, cursor + 1, sel);
      PassOver(records, cursor, r.1, sel);
      r
  }

  class InMemorySubscription {
    const storage: Storage
    const selector: Selector
    const batchSize: int
    var currentPosition: nat

    constructor (storage: Storage, startFrom: nat, batchSize: int, selector: Selector)
      ensures this.storage == storage && this.selector == selector
      ensures this.batchSize == batchSize && currentPosition == startFrom
    {
      this.storage, this.selector, this.batchSize, currentPosition := storage, selector, batchSize, startFrom;
    }

    method PopAny() returns (r: Option<RecordedRaw>)
      requires Positioned(storage.records)
      modifies this
      ensures (r, currentPosition) == Popped(storage.records, old(currentPosition), ToAll)
    {
      var last := storage.CurrentPosition();
      if (if last.Some? then last.value else 0) <= currentPosition {
        return None;
      }
      r := Some(storage.records[currentPosition]);
      currentPosition := currentPosition + 1;
    }

    method PopRecord() returns (r: Option<RecordedRaw>)
      requires Positioned(storage.records)
      modifies this
      ensures (r, currentPosition) == Popped(storage.records, old(currentPosition), selector)
    {
      while true
        invariant Popped(storage.records, old(currentPosition), selector)
               == Popped(storage.records, currentPosition, selector)
        decreases |storage.records| - currentPosition
      {
        r := PopAny();
        if r.None? || Selects(selector, r.value) {
          return r;
        }
      }
    }

    // `ticks` is the number of rounds the time limit allows; the clock is read after each.
    method Next(ticks: nat) returns (batch: seq<RecordedRaw>)
      requires Positioned(storage.records)
      modifies this
      ensures old(currentPosition) <= currentPosition
      ensures batch == Filter(Wanted(selector), Window(storage.records, old(currentPosition), currentPosition))
      ensures |batch| <= batchSize || batch == []
      ensures |batch| < batchSize && |batch| < ticks ==> |storage.records| <= currentPosition
    {
      batch := [];
      var round := 0;
      assert Window(storage.records, currentPosition, currentPosition) == [];
      while |batch| < batchSize
        invariant old(currentPosition) <= currentPosition
        invariant old(currentPosition) < currentPosition ==> currentPosition <= |storage.records|
        invariant batch == Filter(Wanted(selector), Window(storage.records, old(currentPosition), currentPosition))
        invariant |batch| <= batchSize || batch == []
        invariant |batch| < round ==> |storage.records| <= currentPosition
        invariant round <= ticks
        decreases ticks - round
      {
        ghost var before := currentPosition;
        var record := PopRecord();
        WindowsJoin(storage.records, old(currentPosition), before, currentPosition, selector);
        if record.Some? {
          batch := batch + [record.value];
        }
        round := round + 1;
        if round > ticks {
          break;
        }
      }
    }
  }

  lemma {:induction false} WindowsJoin(records: seq<RecordedRaw>, a: nat, b: nat, c: nat, sel: Selector)
    requires a <= b <= c && (a < b ==> b <= |records|) && (b < c ==> c <= |records|)
    ensures Filter(Wanted(sel), Window(records, a, c))
         == Filter(Wanted(sel), Window(records, a, b)) + Filter(Wanted(sel), Window(records, b, c))
  {
    if c <= |records| {
      assert records[a..c] == records[a..b] + records[b..c];
      FilterConcat(Wanted(sel), records[a..b], records[b..c]);
    }
  }

  /******* Polls interleaved with everything else that happens to the store *******/

  datatype Event = Poll | Change(op: StoreOp)

  datatype Run = Run(store: Store, cursor: nat, delivered: seq<RecordedRaw>)

  function Advance(run: Run, e: Event, sel: Selector): (r: Run)
    requires run.store.data.Keys <= run.store.versions.Keys
    ensures r.store.data.Keys <= r.store.versions.Keys
  {
    match e
    case Poll =>
      var (record, cursor) := Popped(run.store.records, run.cursor, sel);
      Run(run.store, cursor, run.delivered + if record.Some? then [record.value] else [])
    case Change(op) => run.(store := Perform(run.store, op))
  }

  function Subscribe(run: Run, events: seq<Event>, sel: Selector): (r: Run)
    requires run.store.data.Keys <= run.store.versions.Keys
    ensures r.store.data.Keys <= r.store.versions.Keys
    decreases |events|
  {
    if events == [] then run else Subscribe(Advance(run, events[0], sel), events[1..], sel)
  }

  // A run is its polls and changes one after the other.
  lemma {:induction false} SubscribeOneMore(run: Run, events: seq<Event>, e: Event, sel: Selector)
    requires run.store.data.Keys <= run.store.versions.Keys
    ensures Subscribe(run, [], sel) == run
    ensures Subscribe(run, events + [e], sel) == Advance(Subscribe(run, events, sel), e, sel)
    decreases |events|
  {
    hide Advance;
    if events == [] {
      assert [] + [e] == [e] && [e][1..] == [];
    } else {
      SubscribeOneMore(Advance(run, events[0], sel), events[1..], e, sel);
      assert (events + [e])[1..] == events[1..] + [e];
    }
  }

  ghost predicate Delivered(run: Run, start: nat, sel: Selector) {
    && run.store.data.Keys <= run.store.versions.Keys
    && start <= run.cursor && (start < run.cursor ==> run.cursor <= |run.store.records|)
    && run.delivered == Filter(Wanted(sel), Window(run.store.records, start, run.cursor))
  }

  // What has been delivered is exactly what the log holds between the start and the cursor of
  // the category, or of the types, subscribed to.
  lemma {:induction false} DeliveredIff(run: Run, start: nat, sel: Selector, r: RecordedRaw)
    requires Delivered(run, start, sel)
    ensures r in run.delivered <==>
            && (exists i :: start <= i < run.cursor && i < |run.store.records| && run.store.records[i] == r)
            && (sel.ToCategory? ==> r.entry.stream.key.category == Some(sel.category))
            && (sel.ToTypes? ==> exists i :: 0 <= i < |sel.names| && sel.names[i] == r.entry.name)
  {
    var window := Window(run.store.records, start, run.cursor);
    FilterMember(Wanted(sel), window, r);
    if r in window {
      var i :| 0 <= i < |window| && window[i] == r;
      assert run.store.records[start + i] == r;
    }
    if i :| start <= i < run.cursor && i < |run.store.records| && run.store.records[i] == r {
      assert window[i - start] == r;
    }
  }

  lemma {:induction false} PollDelivers(run: Run, start: nat, sel: Selector)
    requires Delivered(run, start, sel)
    ensures Delivered(Advance(run, Poll, sel), start, sel)
  {
    WindowsJoin(run.store.records, start, run.cursor, Popped(run.store.records, run.cursor, sel).1, sel);
  }

  lemma {:induction false} ChangeDelivers(run: Run, start: nat, op: StoreOp, sel: Selector)
    requires Delivered(run, start, sel)
    ensures Delivered(Advance(run, Change(op), sel), start, sel)
    ensures run.store.records <= Perform(run.store, op).records
  {
    LogOnlyGrows(run.store, op);
    WindowOfLonger(run.store.records, Perform(run.store, op).records, start, run.cursor);
  }

  lemma {:induction false} WindowOfLonger(was: seq<RecordedRaw>, now: seq<RecordedRaw>, a: nat, b: nat)
    requires was <= now && a <= b && (a < b ==> b <= |was|)
    ensures Window(now, a, b) == Window(was, a, b)
  {
    if b <= |was| {
      assert now[a..b] == was[a..b];
    }
  }

  lemma {:induction false} LogOnlyGrows(s: Store, op: StoreOp)
    requires s.data.Keys <= s.versions.Keys
    ensures s.records <= Perform(s, op).records
  {
  }

  // Whatever happens between polls, the records delivered are exactly the wanted part
  // of the log between the start and the cursor: none lost, none repeated, in order.
  lemma {:induction false} NothingLostNothingRepeated(run: Run, start: nat, events: seq<Event>, sel: Selector)
    requires Delivered(run, start, sel)
    ensures var end := Subscribe(run, events, sel);
            && run.store.records <= end.store.records
            && run.cursor <= end.cursor
            && end.delivered == Filter(Wanted(sel), Window(end.store.records, start, end.cursor))
    decreases |events|
  {
    if events != [] {
      match events[0] {
        case Poll => PollDelivers(run, start, sel);
        case Change(op) => ChangeDelivers(run, start, op, sel);
      }
      NothingLostNothingRepeated(Advance(run, events[0], sel), start, events[1..], sel);
    }
  }
}
