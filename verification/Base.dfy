/** Success and failure values shared by the store models. */
module Wrappers {

  datatype Option<+T> = None | Some(value: T)

  datatype Result<+T, +E> = Success(value: T) | Failure(error: E)
}

/** Order-preserving selection from a sequence, and integer helpers. */
module Seqs {

  function Min(a: int, b: int): (m: int)
    ensures m <= a && m <= b && (m == a || m == b)
  {
    if a <= b then a else b
  }

  // Index of the first x, or the length when there is none.
  function FirstIndex<T(==)>(x: T, s: seq<T>): (i: nat)
    ensures i <= |s| && x !in s[..i] && (i < |s| ==> s[i] == x)
  {
    if s == [] || s[0] == x then 0
    else
      var i := FirstIndex(x, s[1..]);
      assert s[..i + 1] == [s[0]] + s[1..][..i];
      1 + i
  }

  lemma {:induction false} FirstIndexAfter<T>(x: T, prefix: seq<T>, rest: seq<T>)
    requires x !in prefix
    ensures FirstIndex(x, prefix + [x] + rest) == |prefix|
  {
    hide FirstIndex;
    var s, p := prefix + [x] + rest, |prefix|;
    var i := FirstIndex(x, s);
    assert s[p] == x;
    assert forall k :: 0 <= k < p ==> s[k] == prefix[k];
    assert forall k :: 0 <= k < i ==> s[..i][k] == s[k];
  }

  // Index of the last x, or the length when there is none.
  function LastIndex<T(==)>(x: T, s: seq<T>): (i: nat)
    ensures i <= |s| && (i < |s| ==> s[i] == x && x !in s[i + 1..]) && (i == |s| ==> x !in s)
  {
    if s == [] then 0
    else if x in s[1..] then
      var i := LastIndex(x, s[1..]);
      assert s[i + 2..] == s[1..][i + 1..];
      1 + i
    else if s[0] == x then 0
    else |s|
  }

  lemma {:induction false} LastIndexBefore<T>(x: T, prefix: seq<T>, rest: seq<T>)
    requires x !in rest
    ensures LastIndex(x, prefix + [x] + rest) == |prefix|
  {
    hide LastIndex;
    var s, p := prefix + [x] + rest, |prefix|;
    var i := LastIndex(x, s);
    assert s[p] == x;
    assert forall k :: p < k < |s| ==> s[k] == rest[k - p - 1];
    assert forall k :: i < k < |s| ==> s[i + 1..][k - i - 1] == s[k];
  }

  function Filter<T>(p: T -> bool, s: seq<T>): seq<T> {
    if s == [] then []
    else (if p(s[0]) then [s[0]] else []) + Filter(p, s[1..])
  }

  function Map<T, U>(f: T -> U, s: seq<T>): (r: seq<U>)
    ensures |r| == |s|
    ensures forall i :: 0 <= i < |s| ==> r[i] == f(s[i])
  {
    if s == [] then [] else [f(s[0])] + Map(f, s[1..])
  }

  // Taking one occurrence of the same element out of both leaves permutations.
  lemma {:induction false} SameWithout<T>(a: seq<T>, b: seq<T>, i: nat)
    requires a != [] && i < |b| && a[0] == b[i] && multiset(a) == multiset(b)
    ensures multiset(a[1..]) == multiset(b[..i] + b[i + 1..])
  {
    assert a == [a[0]] + a[1..];
    assert b == b[..i] + [b[i]] + b[i + 1..];
    assert multiset(a[1..]) == multiset(a) - multiset{a[0]};
    assert multiset(b[..i] + b[i + 1..]) == multiset(b) - multiset{b[i]};
  }

  lemma {:induction false} MapWithout<T, U>(f: T -> U, b: seq<T>, i: nat)
    requires i < |b|
    ensures multiset(Map(f, b)) == multiset{f(b[i])} + multiset(Map(f, b[..i] + b[i + 1..]))
  {
    var before, after := b[..i], b[i + 1..];
    var m := Map(f, b);
    assert Map(f, before + after) == m[..i] + m[i + 1..];
    assert m == m[..i] + [m[i]] + m[i + 1..];
  }

  // Mapping a permutation gives a permutation.
  lemma {:induction false} MapPermutes<T, U>(f: T -> U, a: seq<T>, b: seq<T>)
    requires multiset(a) == multiset(b)
    ensures multiset(Map(f, a)) == multiset(Map(f, b))
    decreases |a|
  {
    if a == [] {
      assert |b| == |multiset(b)| == 0;
    } else {
      assert a[0] in multiset(b);
      var i :| 0 <= i < |b| && b[i] == a[0];
      SameWithout(a, b, i);
      MapPermutes(f, a[1..], b[..i] + b[i + 1..]);
      MapWithout(f, b, i);
      MapWithout(f, a, 0);
      assert a[..0] + a[1..] == a[1..];
    }
  }

  lemma {:induction false} SliceSnoc<T>(s: seq<T>, a: nat, b: nat)
    requires a <= b < |s|
    ensures s[a..b + 1] == s[a..b] + [s[b]]
  {
  }

  lemma {:induction false} Assoc<T>(a: seq<T>, b: seq<T>, c: seq<T>)
    ensures (a + b) + c == a + (b + c)
  {
  }

  lemma {:induction false} FilterConcat<T>(p: T -> bool, a: seq<T>, b: seq<T>)
    ensures Filter(p, a + b) == Filter(p, a) + Filter(p, b)
  {
    if a == [] {
      assert a + b == b;
    } else {
      FilterConcat(p, a[1..], b);
      assert (a + b)[1..] == a[1..] + b;
      Assoc(if p(a[0]) then [a[0]] else [], Filter(p, a[1..]), Filter(p, b));
    }
  }

  lemma {:induction false} FilterAll<T>(p: T -> bool, s: seq<T>)
    requires forall x :: x in s ==> p(x)
    ensures Filter(p, s) == s
  {
    if s != [] {
      FilterAll(p, s[1..]);
    }
  }

  lemma {:induction false} FilterNone<T>(p: T -> bool, s: seq<T>)
    requires forall x :: x in s ==> !p(x)
    ensures Filter(p, s) == []
  {
    if s != [] {
      FilterNone(p, s[1..]);
    }
  }

  lemma {:induction false} FilterMember<T>(p: T -> bool, s: seq<T>, x: T)
    ensures x in Filter(p, s) <==> x in s && p(x)
  {
    if s != [] {
      FilterMember(p, s[1..], x);
    }
  }
}

/** JSON documents, as they appear in event payloads. */
module Json {

  datatype Json =
    | Null
    | Bool(b: bool)
    | Num(n: int)
    | Str(text: string)
    | Arr(items: seq<Json>)
    | Obj(fields: map<string, Json>)
}

/** Stream identity, events, versioning and the numbering of appended events. */
module Events {
  import opened Wrappers
  import opened Json

  // A name-based UUID is a hash of the name; taking it as a constructor makes
  // that hash injective and disjoint from randomly drawn identifiers.
  datatype Uuid = Drawn(id: nat) | FromName(text: string)

  // Two stream identifiers are equal when uuid and category are.
  datatype StreamKey = StreamKey(uuid: Uuid, category: Option<string>)

  datatype StreamId = StreamId(key: StreamKey, name: Option<string>) {
    // A non-empty name that does not hash to the uuid is refused at construction.
    predicate Valid() {
      Named() ==> key.uuid == FromName(name.value)
    }

    predicate Named() {
      name.Some? && name.value != ""
    }
  }

  // No category is written as an empty one.
  function CategoryText(category: Option<string>): string {
    if category.Some? then category.value else ""
  }

  datatype RawEvent = RawEvent(
    uuid: nat,
    stream: StreamId,
    createdAt: int,
    name: string,
    data: Json,
    context: Json,
    version: Option<int>)

  datatype RecordedRaw = RecordedRaw(entry: RawEvent, position: nat, tenant: string)

  datatype Versioning = NoVersioning | Explicit(expected: int, initial: int)

  datatype StoreError =
    | ConcurrentStreamWrite
    | ExpectedVersionUsedOnVersionlessStream
    | NoExpectedVersionGivenOnVersionedStream
    | IntegrityViolation
    | DoesNotExist
    | NoSuchRow
    | MissingVersion
    | AnotherStreamWithThisName

  // The check every storage strategy makes before comparing version numbers.
  function Incompatible(versioning: Versioning, stored: Option<int>): (e: Option<StoreError>)
    ensures e.None? <==> (versioning.NoVersioning? <==> stored.None?)
    ensures e.Some? && stored.Some? ==> e.value == NoExpectedVersionGivenOnVersionedStream
    ensures e.Some? && stored.None? ==> e.value == ExpectedVersionUsedOnVersionlessStream
  {
    match versioning
    case NoVersioning =>
      if stored.None? then None else Some(NoExpectedVersionGivenOnVersionedStream)
    case Explicit(_, _) =>
      if stored.None? then Some(ExpectedVersionUsedOnVersionlessStream) else None
  }

  // An expected version of zero is falsy and switches the comparison off.
  predicate ChecksVersion(versioning: Versioning) {
    versioning.Explicit? && versioning.expected != 0
  }

  // The verdict on an append, given the version its stream has.
  function Refusal(versioning: Versioning, stored: Option<int>): Option<StoreError> {
    var incompatible := Incompatible(versioning, stored);
    if incompatible.Some? then incompatible
    else if ChecksVersion(versioning) && stored != Some(versioning.expected) then Some(ConcurrentStreamWrite)
    else None
  }

  // Consecutive versions, the first one after `after`.
  predicate NumberedFrom(events: seq<RawEvent>, after: int) {
    forall i :: 0 <= i < |events| ==> events[i].version == Some(after + 1 + i)
  }

  lemma {:induction false} NumberedTail(events: seq<RawEvent>, after: int)
    requires events != [] && NumberedFrom(events, after)
    ensures events[0].version == Some(after + 1) && NumberedFrom(events[1..], after + 1)
  {
    forall i | 0 <= i < |events| - 1
      ensures events[1..][i].version == Some(after + 1 + 1 + i)
    {
      assert events[1..][i] == events[i + 1];
    }
  }

  predicate AllOn(events: seq<RawEvent>, sid: StreamId) {
    forall e :: e in events ==> e.stream == sid
  }

  // Bare events are numbered from the expected version upwards.
  function Numbered(events: seq<RawEvent>, expected: int): (r: seq<RawEvent>)
    ensures |r| == |events| && NumberedFrom(r, expected)
    ensures forall i :: 0 <= i < |r| ==> r[i] == events[i].(version := r[i].version)
  {
    seq(|events|, i requires 0 <= i < |events| => events[i].(version := Some(expected + 1 + i)))
  }

  // The versioning an append of numbered events is made with.
  function ExplicitFor(events: seq<RawEvent>, expected: int): (v: Versioning)
    requires events != []
    ensures v == Explicit(expected, expected + |events|)
  {
    var numbered := Numbered(events, expected);
    Explicit(expected, numbered[|numbered| - 1].version.value)
  }
}
