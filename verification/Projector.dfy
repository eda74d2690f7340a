/**
 A projector feeds a read model the events of every stream in order, keeping one
 cursor row per projector name and stream. Deliveries may be repeated, reordered or
 skipped.
 */
module Projector {
  import opened Wrappers
  import opened Seqs
  import opened Events
  import opened Ranges

  datatype CursorKey = CursorKey(name: string, stream: StreamKey)

  datatype Tracking = Incremented | StreamNotTracked | BehindStream(current: int) | AheadOfStream(current: int)

  type Rows = map<CursorKey, int>

  function IncrementOutcome(rows: Rows, key: CursorKey, version: int): Tracking {
    if version == 1 then (if key in rows then AheadOfStream(rows[key]) else Incremented)
    else if key !in rows then StreamNotTracked
    else if rows[key] == version - 1 then Incremented
    else if rows[key] < version then BehindStream(rows[key])
    else AheadOfStream(rows[key])
  }

  class CursorsDao {
    var rows: Rows

    constructor ()
      ensures rows == map[]
    {
      rows := map[];
    }

    method Increment(key: CursorKey, version: int) returns (r: Tracking)
      modifies this
      ensures r == IncrementOutcome(old(rows), key, version)
      ensures r.Incremented? <==>
                if key in old(rows) then version != 1 && old(rows)[key] == version - 1 else version == 1
      ensures r.StreamNotTracked? <==> key !in old(rows) && version != 1
      ensures r.BehindStream? ==> key in old(rows) && r.current == old(rows)[key] < version - 1
      ensures r.AheadOfStream? ==>
                key in old(rows) && r.current == old(rows)[key] && (version == 1 || old(rows)[key] >= version)
      ensures rows == if r.Incremented? then old(rows)[key := version] else old(rows)
    {
      if version == 1 {
        if key in rows {
          return AheadOfStream(rows[key]);
        }
        rows := rows[key := version];
        return Incremented;
      }
      if key in rows && rows[key] == version - 1 {
        rows := rows[key := version];
        return Incremented;
      }
      if key !in rows {
        return StreamNotTracked;
      } else if rows[key] < version {
        return BehindStream(rows[key]);
      } else {
        return AheadOfStream(rows[key]);
      }
    }

    method PutAt(key: CursorKey, version: int)
      requires key !in rows
      modifies this
      ensures rows == old(rows)[key := version]
    {
      rows := rows[key := version];
    }

    method MoveTo(key: CursorKey, version: int)
      modifies this
      ensures rows == if key in old(rows) then old(rows)[key := version] else old(rows)
    {
      if key in rows {
        rows := rows[key := version];
      }
    }
  }

  // A read model, seen as the events it was called with.
  class ReadModel {
    var applied: map<CursorKey, seq<RawEvent>>

    constructor ()
      ensures applied == map[]
    {
      applied := map[];
    }

    method Apply(key: CursorKey, event: RawEvent)
      modifies this
      ensures applied == Fed(old(applied), key, [event])
    {
      applied := applied[key := (if key in applied then applied[key] else []) + [event]];
    }
  }

  function AppliedTo(applied: map<CursorKey, seq<RawEvent>>, key: CursorKey): seq<RawEvent> {
    if key in applied then applied[key] else []
  }

  function Fed(applied: map<CursorKey, seq<RawEvent>>, key: CursorKey, events: seq<RawEvent>)
    : map<CursorKey, seq<RawEvent>>
  {
    if events == [] then applied else applied[key := AppliedTo(applied, key) + events]
  }

  lemma {:induction false} FedOneMore(applied: map<CursorKey, seq<RawEvent>>, key: CursorKey, events: seq<RawEvent>,
                                      i: nat)
    requires i < |events|
    ensures Fed(applied, key, events[..i + 1]) == Fed(Fed(applied, key, events[..i]), key, [events[i]])
  {
    assert events[..i + 1] == events[..i] + [events[i]];
    Assoc(AppliedTo(applied, key), events[..i], [events[i]]);
    var fed := AppliedTo(applied, key) + events[..i];
    assert applied[key := fed][key := fed + [events[i]]] == applied[key := fed + [events[i]]];
    assert events[..i] == [] ==> events[..i + 1] == [events[i]];
  }

  lemma {:induction false} FedGrows(applied: map<CursorKey, seq<RawEvent>>, key: CursorKey, events: seq<RawEvent>)
    ensures AppliedTo(Fed(applied, key, events), key) == AppliedTo(applied, key) + events
  {
    assert AppliedTo(applied, key) + [] == AppliedTo(applied, key);
  }

  // The events a delivery hands to the read model.
  function Handed(rows: Rows, key: CursorKey, version: int, history: seq<RawEvent>, event: RawEvent): seq<RawEvent> {
    match IncrementOutcome(rows, key, version)
    case Incremented => [event]
    case StreamNotTracked => VersionRange(history, None, Some(version)) + [event]
    case BehindStream(current) => VersionRange(history, Some(current + 1), Some(version)) + [event]
    case AheadOfStream(_) => []
  }

  function MovedRows(rows: Rows, key: CursorKey, version: int): Rows {
    if IncrementOutcome(rows, key, version).AheadOfStream? then rows else rows[key := version]
  }

  class Projector {
    const name: string
    const cursors: CursorsDao
    const readModel: ReadModel

    constructor (name: string, cursors: CursorsDao, readModel: ReadModel)
      ensures this.name == name && this.cursors == cursors && this.readModel == readModel
    {
      this.name, this.cursors, this.readModel := name, cursors, readModel;
    }

    method ApplyAll(key: CursorKey, events: seq<RawEvent>)
      modifies readModel
      ensures readModel.applied == Fed(old(readModel.applied), key, events)
    {
      assert events[..0] == [];
      for i := 0 to |events|
        invariant readModel.applied == Fed(old(readModel.applied), key, events[..i])
      {
        FedOneMore(old(readModel.applied), key, events, i);
        readModel.Apply(key, events[i]);
      }
      assert events[..|events|] == events;
    }

    // `history` is what the event store holds for the stream; an unversioned event is refused.
    method Project(event: RawEvent, stream: StreamKey, history: seq<RawEvent>) returns (refused: bool)
      modifies cursors, readModel
      ensures refused <==> event.version.None?
      ensures refused ==> cursors.rows == old(cursors.rows) && readModel.applied == old(readModel.applied)
      ensures !refused ==>
                var key, version := CursorKey(name, stream), event.version.value;
                && cursors.rows == MovedRows(old(cursors.rows), key, version)
                && readModel.applied
                == Fed(old(readModel.applied), key, Handed(old(cursors.rows), key, version, history, event))
    {
      if event.version.None? {
        return true;
      }
      var key, version := CursorKey(name, stream), event.version.value;
      var tracking := cursors.Increment(key, version);
      match tracking {
        case Incremented =>
          readModel.Apply(key, event);
        case StreamNotTracked =>
          cursors.PutAt(key, version);
          ApplyAll(key, VersionRange(history, None, Some(version)) + [event]);
        case BehindStream(current) =>
          cursors.MoveTo(key, version);
          ApplyAll(key, VersionRange(history, Some(current + 1), Some(version)) + [event]);
        case AheadOfStream(_) =>
      }
      return false;
    }
  }

  /******* Any sequence of appends and deliveries *******/

  datatype World = World(streams: map<StreamKey, seq<RawEvent>>, rows: Rows, applied: map<CursorKey, seq<RawEvent>>)

  datatype Action = Append(stream: StreamKey, event: RawEvent) | Deliver(key: CursorKey, version: int)

  function Stored(w: World, stream: StreamKey): seq<RawEvent> {
    if stream in w.streams then w.streams[stream] else []
  }

  // Appends number their event; only stored events are delivered.
  predicate Possible(w: World, a: Action) {
    match a
    case Append(stream, event) => event.version == Some(|Stored(w, stream)| + 1)
    case Deliver(key, version) => 1 <= version <= |Stored(w, key.stream)|
  }

  function Act(w: World, a: Action): World
    requires Possible(w, a)
  {
    match a
    case Append(stream, event) => w.(streams := w.streams[stream := Stored(w, stream) + [event]])
    case Deliver(key, version) =>
      var history := Stored(w, key.stream);
      w.(rows := MovedRows(w.rows, key, version),
         applied := Fed(w.applied, key, Handed(w.rows, key, version, history, history[version - 1])))
  }

  predicate AllPossible(w: World, actions: seq<Action>)
    decreases |actions|
  {
    actions == [] || (Possible(w, actions[0]) && AllPossible(Act(w, actions[0]), actions[1..]))
  }

  function ActAll(w: World, actions: seq<Action>): World
    requires AllPossible(w, actions)
    decreases |actions|
  {
    if actions == [] then w else ActAll(Act(w, actions[0]), actions[1..])
  }

  // The largest version delivered, and zero when nothing was.
  function LargestDelivered(actions: seq<Action>, key: CursorKey, so_far: int): int {
    if actions == [] then so_far
    else
      var a := actions[0];
      var beyond := a.Deliver? && a.key == key && a.version > so_far;
      LargestDelivered(actions[1..], key, if beyond then a.version else so_far)
  }

  function CursorOf(rows: Rows, key: CursorKey): int {
    if key in rows then rows[key] else 0
  }

  // The read model was fed exactly the stored events 1 .. cursor, each once and in order.
  ghost predicate Faithful(w: World, key: CursorKey) {
    var history, cursor := Stored(w, key.stream), CursorOf(w.rows, key);
    && NumberedFrom(history, 0)
    && 0 <= cursor <= |history|
    && (key in w.rows ==> cursor >= 1)
    && AppliedTo(w.applied, key) == history[..cursor]
  }

  // What a delivery beyond the cursor hands over are the events still missing.
  lemma {:induction false} HandedIsMissing(rows: Rows, key: CursorKey, version: int, history: seq<RawEvent>)
    requires NumberedFrom(history, 0) && 0 <= CursorOf(rows, key) < version <= |history|
    requires key in rows ==> rows[key] >= 1
    ensures Handed(rows, key, version, history, history[version - 1]) == history[CursorOf(rows, key)..version]
    ensures !IncrementOutcome(rows, key, version).AheadOfStream?
  {
    var cursor := CursorOf(rows, key);
    VersionRangeIsPiece(history, 0, None, Some(version));
    VersionRangeIsPiece(history, 0, Some(cursor + 1), Some(version));
    SliceSnoc(history, cursor, version - 1);
  }

  lemma {:induction false} ActBeyond(w: World, key: CursorKey, version: int)
    requires Possible(w, Deliver(key, version)) && NumberedFrom(Stored(w, key.stream), 0)
    requires 0 <= CursorOf(w.rows, key) < version && (key in w.rows ==> w.rows[key] >= 1)
    ensures Act(w, Deliver(key, version)) == World(
              w.streams,
              w.rows[key := version],
              Fed(w.applied, key, Stored(w, key.stream)[CursorOf(w.rows, key)..version]))
  {
    hide Fed, Handed, IncrementOutcome, NumberedFrom;
    HandedIsMissing(w.rows, key, version, Stored(w, key.stream));
  }

  // A delivery beyond the cursor catches the read model up to it.
  lemma {:induction false} CatchesUp(w: World, key: CursorKey, version: int)
    requires Possible(w, Deliver(key, version)) && Faithful(w, key) && CursorOf(w.rows, key) < version
    ensures Faithful(Act(w, Deliver(key, version)), key)
    ensures CursorOf(Act(w, Deliver(key, version)).rows, key) == version
  {
    hide Act, Fed, AppliedTo, NumberedFrom;
    var history, cursor := Stored(w, key.stream), CursorOf(w.rows, key);
    ActBeyond(w, key, version);
    FedGrows(w.applied, key, history[cursor..version]);
    assert history[..version] == history[..cursor] + history[cursor..version];
  }

  // A delivery at or behind the cursor, or to another cursor, changes nothing for this one.
  lemma {:induction false} OthersUnmoved(w: World, key: CursorKey, version: int, other: CursorKey)
    requires Possible(w, Deliver(key, version)) && Faithful(w, key)
    requires other != key || version <= CursorOf(w.rows, key)
    ensures var next := Act(w, Deliver(key, version));
            && CursorOf(next.rows, other) == CursorOf(w.rows, other)
            && (other in next.rows <==> other in w.rows)
            && AppliedTo(next.applied, other) == AppliedTo(w.applied, other)
  {
    hide VersionRange, NumberedFrom;
  }

  lemma {:induction false} DeliveryIsFaithful(w: World, key: CursorKey, version: int, other: CursorKey)
    requires Possible(w, Deliver(key, version)) && Faithful(w, key) && Faithful(w, other)
    ensures Faithful(Act(w, Deliver(key, version)), other)
    ensures CursorOf(Act(w, Deliver(key, version)).rows, other)
         == if other == key && version > CursorOf(w.rows, key) then version else CursorOf(w.rows, other)
  {
    if other == key && CursorOf(w.rows, key) < version {
      CatchesUp(w, key, version);
    } else {
      OthersUnmoved(w, key, version, other);
      hide Handed, MovedRows, Fed, CursorOf, AppliedTo, NumberedFrom;
    }
  }

  lemma {:induction false} NumberedSnoc(history: seq<RawEvent>, event: RawEvent)
    requires NumberedFrom(history, 0) && event.version == Some(|history| + 1)
    ensures NumberedFrom(history + [event], 0)
  {
  }

  lemma {:induction false} AppendIsFaithful(w: World, stream: StreamKey, event: RawEvent, key: CursorKey)
    requires Possible(w, Append(stream, event)) && Faithful(w, key)
    ensures Faithful(Act(w, Append(stream, event)), key)
  {
    hide AppliedTo, CursorOf, NumberedFrom;
    if stream == key.stream {
      var history, cursor := Stored(w, stream), CursorOf(w.rows, key);
      var now := history + [event];
      NumberedSnoc(history, event);
      assert now[..cursor] == history[..cursor];
    }
  }

  // Exactly once, in order: whatever was delivered how often and in which order, each
  // read model has seen exactly the versions up to the largest one delivered to it.
  lemma {:induction false} ExactlyOnceProjection(w: World, actions: seq<Action>, key: CursorKey)
    requires AllPossible(w, actions) && forall k :: Faithful(w, k)
    ensures var end := ActAll(w, actions);
            && Faithful(end, key)
            && CursorOf(end.rows, key) == LargestDelivered(actions, key, CursorOf(w.rows, key))
    decreases |actions|
  {
    if actions != [] {
      var next := Act(w, actions[0]);
      forall k
        ensures Faithful(next, k)
      {
        match actions[0]
        case Append(stream, event) => AppendIsFaithful(w, stream, event, k);
        case Deliver(delivered, version) => DeliveryIsFaithful(w, delivered, version, k);
      }
      if actions[0].Deliver? {
        DeliveryIsFaithful(w, actions[0].key, actions[0].version, key);
      }
      ExactlyOnceProjection(next, actions[1..], key);
    }
  }

  // The final read model does not depend on the order, number or gaps of the deliveries.
  lemma {:induction false} DeliveryOrderIsIrrelevant(w: World, a: seq<Action>, b: seq<Action>, key: CursorKey)
    requires AllPossible(w, a) && AllPossible(w, b) && forall k :: Faithful(w, k)
    requires Stored(ActAll(w, a), key.stream) == Stored(ActAll(w, b), key.stream)
    requires LargestDelivered(a, key, CursorOf(w.rows, key)) == LargestDelivered(b, key, CursorOf(w.rows, key))
    ensures AppliedTo(ActAll(w, a).applied, key) == AppliedTo(ActAll(w, b).applied, key)
  {
    ExactlyOnceProjection(w, a, key);
    ExactlyOnceProjection(w, b, key);
  }
}
