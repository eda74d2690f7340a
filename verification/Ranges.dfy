/** Ordering stored events by version, as a query does. */
module VersionOrder {
  import opened Wrappers
  import opened Events

  // An event without a version sorts first.
  predicate NotAfter(a: Option<int>, b: Option<int>) {
    a.None? || (b.Some? && a.value <= b.value)
  }

  function Placed(e: RawEvent, sorted: seq<RawEvent>): seq<RawEvent> {
    if sorted == [] || NotAfter(e.version, sorted[0].version) then [e] + sorted
    else [sorted[0]] + Placed(e, sorted[1..])
  }

  function ByVersion(events: seq<RawEvent>): seq<RawEvent> {
    if events == [] then [] else Placed(events[0], ByVersion(events[1..]))
  }

  ghost predicate InOrder(events: seq<RawEvent>, i: int, j: int)
    requires 0 <= i < j < |events|
  {
    NotAfter(events[i].version, events[j].version)
  }

  ghost predicate Sorted(events: seq<RawEvent>) {
    forall i, j :: 0 <= i < j < |events| ==> InOrder(events, i, j)
  }

  lemma {:induction false} SortedTail(events: seq<RawEvent>)
    requires events != [] && Sorted(events)
    ensures Sorted(events[1..])
    ensures forall e :: e in events[1..] ==> NotAfter(events[0].version, e.version)
  {
    forall i, j | 0 <= i < j < |events| - 1
      ensures InOrder(events[1..], i, j)
    {
      assert InOrder(events, i + 1, j + 1);
    }
    forall e | e in events[1..]
      ensures NotAfter(events[0].version, e.version)
    {
      var i :| 0 <= i < |events| - 1 && events[1..][i] == e;
      assert InOrder(events, 0, i + 1);
    }
  }

  lemma {:induction false} SortedCons(e: RawEvent, rest: seq<RawEvent>)
    requires Sorted(rest) && forall r :: r in rest ==> NotAfter(e.version, r.version)
    ensures Sorted([e] + rest)
  {
    var all := [e] + rest;
    forall i, j | 0 <= i < j < |all|
      ensures InOrder(all, i, j)
    {
      assert i > 0 ==> InOrder(rest, i - 1, j - 1);
      assert all[j] in rest;
    }
  }

  lemma {:induction false} PlacedSorts(e: RawEvent, sorted: seq<RawEvent>)
    requires Sorted(sorted)
    ensures Sorted(Placed(e, sorted)) && multiset(Placed(e, sorted)) == multiset{e} + multiset(sorted)
  {
    if sorted == [] || NotAfter(e.version, sorted[0].version) {
      if sorted != [] {
        SortedTail(sorted);
      }
      SortedCons(e, sorted);
    } else {
      var rest := Placed(e, sorted[1..]);
      SortedTail(sorted);
      PlacedSorts(e, sorted[1..]);
      assert sorted == [sorted[0]] + sorted[1..];
      forall r | r in rest
        ensures NotAfter(sorted[0].version, r.version)
      {
        assert r in multiset(rest);
      }
      SortedCons(sorted[0], rest);
    }
  }

  // Ordering by version sorts, and neither loses nor repeats an event.
  lemma {:induction false} ByVersionSorts(events: seq<RawEvent>)
    ensures multiset(ByVersion(events)) == multiset(events)
    ensures Sorted(ByVersion(events))
  {
    if events != [] {
      ByVersionSorts(events[1..]);
      PlacedSorts(events[0], ByVersion(events[1..]));
      assert events == [events[0]] + events[1..];
    }
  }

  // Sorted is by increasing version, those without one first.
  lemma {:induction false} SortedAscends(events: seq<RawEvent>, i: nat, j: nat)
    requires Sorted(events) && i < j < |events| && events[i].version.Some?
    ensures events[j].version.Some? && events[i].version.value <= events[j].version.value
  {
    assert InOrder(events, i, j);
  }

  lemma {:induction false} SortedIsByVersion(events: seq<RawEvent>)
    requires Sorted(events)
    ensures ByVersion(events) == events
  {
    if events != [] {
      SortedTail(events);
      SortedIsByVersion(events[1..]);
      assert |events| > 1 ==> events[1] == events[1..][0] && events[1] in events[1..];
    }
  }

  lemma {:induction false} NumberedIsByVersion(events: seq<RawEvent>, after: int)
    requires NumberedFrom(events, after)
    ensures ByVersion(events) == events
  {
    NumberedIsSorted(events, after);
    SortedIsByVersion(events);
  }

  lemma {:induction false} NumberedIsSorted(events: seq<RawEvent>, after: int)
    requires NumberedFrom(events, after)
    ensures Sorted(events)
  {
    forall i, j | 0 <= i < j < |events|
      ensures InOrder(events, i, j)
    {
    }
  }
}

/** Reading a part of a stream by version numbers. */
module Ranges {
  import opened Wrappers
  import opened Seqs
  import opened Events

  function InRange(start: Option<int>, stop: Option<int>): RawEvent -> bool {
    (e: RawEvent) =>
      (start.None? || (e.version.Some? && e.version.value >= start.value)) &&
      (stop.None? || (e.version.Some? && e.version.value < stop.value))
  }

  // where version >= start and version < stop, on events held in version order
  function VersionRange(events: seq<RawEvent>, start: Option<int>, stop: Option<int>): seq<RawEvent> {
    Filter(InRange(start, stop), events)
  }

  function Clamp(i: int, length: nat): (r: nat)
    ensures r <= length
  {
    if i < 0 then 0 else if i > length then length else i
  }

  // The events at indices lo .. hi - 1, as far as they exist.
  function Between<T>(s: seq<T>, lo: int, hi: int): seq<T> {
    if Clamp(lo, |s|) <= Clamp(hi, |s|) then s[Clamp(lo, |s|)..Clamp(hi, |s|)] else []
  }

  lemma {:induction false} BetweenCons<T>(s: seq<T>, lo: int, hi: int)
    requires s != []
    ensures Between(s, lo, hi) == (if lo <= 0 < hi then [s[0]] else []) + Between(s[1..], lo - 1, hi - 1)
  {
    var a, b := Clamp(lo, |s|), Clamp(hi, |s|);
    var tail := s[1..];
    if a == 0 < b {
      assert tail[0..b - 1] == s[1..b];
      assert s[0..b] == [s[0]] + s[1..b];
    } else if 0 < a <= b {
      assert tail[a - 1..b - 1] == s[a..b];
    }
  }

  lemma {:induction false} VersionRangeCons(events: seq<RawEvent>, start: Option<int>, stop: Option<int>)
    requires events != []
    ensures VersionRange(events, start, stop)
         == (if InRange(start, stop)(events[0]) then [events[0]] else []) + VersionRange(events[1..], start, stop)
  {
  }

  lemma {:induction false} BetweenBelow<T>(s: seq<T>, lo: int, hi: int)
    ensures lo <= 0 ==> Between(s, lo, hi) == Between(s, 0, hi)
  {
  }

  lemma {:induction false} NothingInRange(start: Option<int>, stop: Option<int>, lo: int, hi: int)
    ensures VersionRange([], start, stop) == Between([], lo, hi)
  {
  }

  // On consecutively numbered events the range is one contiguous piece.
  lemma {:induction false} VersionRangeIsPiece(events: seq<RawEvent>, after: int, start: Option<int>, stop: Option<int>)
    requires NumberedFrom(events, after)
    ensures VersionRange(events, start, stop) == Between(
              events,
              if start.None? then 0 else start.value - after - 1,
              if stop.None? then |events| else stop.value - after - 1)
  {
    hide VersionRange, Between, NumberedFrom;
    var lo := if start.None? then 0 else start.value - after - 1;
    var hi := if stop.None? then |events| else stop.value - after - 1;
    if events == [] {
      NothingInRange(start, stop, lo, hi);
    } else {
      NumberedTail(events, after);
      VersionRangeIsPiece(events[1..], after + 1, start, stop);
      VersionRangeCons(events, start, stop);
      BetweenCons(events, lo, hi);
      BetweenBelow(events[1..], lo - 1, hi - 1);
    }
  }

  predicate Natural(bound: Option<int>) {
    bound.Some? ==> bound.value >= 0
  }

  // Of events numbered from one, the indices of those from version `start` on and below `stop`.
  function From(start: Option<int>): nat {
    if start.Some? && start.value > 1 then start.value - 1 else 0
  }

  function Until(stop: Option<int>, length: nat): int {
    if stop.Some? && stop.value - 1 < length then stop.value - 1 else length
  }

  // `loaded` is that piece of the events, under this identifier.
  ghost predicate IsPiece(events: seq<RawEvent>, start: Option<int>, stop: Option<int>, loaded: seq<RawEvent>,
                          sid: StreamId)
  {
    var from, until := From(start), Until(stop, |events|);
    if from < until then
      && |loaded| == until - from
      && forall i :: from <= i < until ==> loaded[i - from] == events[i].(stream := sid)
    else loaded == []
  }

  lemma {:induction false} VersionRangeIsSlice(events: seq<RawEvent>, start: Option<int>, stop: Option<int>)
    requires NumberedFrom(events, 0)
    ensures var from, until := From(start), Until(stop, |events|);
            VersionRange(events, start, stop) == if from < until then events[from..until] else []
  {
    VersionRangeIsPiece(events, 0, start, stop);
  }
}
