/**
 The outbox of the in-memory backend: a list of (record, failure count) pairs
 that a run changes in place, by value lookup, while it walks over a copy.
 */
module Outbox {
  import opened Wrappers
  import opened Seqs
  import opened Events

  datatype Entry = Entry(record: RecordedRaw, failures: nat)

  // One call of the publisher; `ok` is false when it, or reading the event back, raised.
  datatype Attempt = Attempt(record: RecordedRaw, ok: bool)

  ghost predicate Precedes(entries: seq<Entry>, i: int, j: int)
    requires 0 <= i < j < |entries|
  {
    entries[i].record.position < entries[j].record.position
  }

  ghost predicate Ordered(entries: seq<Entry>) {
    forall i, j :: 0 <= i < j < |entries| ==> Precedes(entries, i, j)
  }

  ghost predicate Unexhausted(entries: seq<Entry>, max: nat) {
    forall e :: e in entries ==> e.failures < max
  }

  function Accepts(filterer: RawEvent -> bool): RecordedRaw -> bool {
    (r: RecordedRaw) => filterer(r.entry)
  }

  function Fresh(records: seq<RecordedRaw>): (r: seq<Entry>)
    ensures |r| == |records|
    ensures forall i :: 0 <= i < |r| ==> r[i] == Entry(records[i], 0)
  {
    Map((r: RecordedRaw) => Entry(r, 0), records)
  }

  // What one attempt leaves of an entry.
  function Settle(e: Entry, ok: bool, max: nat): seq<Entry> {
    if ok || e.failures + 1 >= max then [] else [Entry(e.record, e.failures + 1)]
  }

  function Survivors(batch: seq<Entry>, answers: seq<bool>, max: nat): seq<Entry>
    requires |batch| == |answers|
  {
    if batch == [] then []
    else Settle(batch[0], answers[0], max) + Survivors(batch[1..], answers[1..], max)
  }

  // The closed form of a run: the first |answers| entries settled, the tail untouched.
  function Sweep(entries: seq<Entry>, answers: seq<bool>, max: nat): seq<Entry>
    requires |answers| <= |entries|
  {
    Survivors(entries[..|answers|], answers, max) + entries[|answers|..]
  }

  function Calls(entries: seq<Entry>, answers: seq<bool>): seq<Attempt>
    requires |answers| <= |entries|
  {
    seq(|answers|, i requires 0 <= i < |answers| => Attempt(entries[i].record, answers[i]))
  }

  // The publisher answers the i-th call of a run with publish(i).
  function Answers(publish: nat -> bool, n: nat): (r: seq<bool>)
    ensures |r| == n
    ensures forall i :: 0 <= i < n ==> r[i] == publish(i)
  {
    seq(n, i requires 0 <= i < n => publish(i))
  }

  lemma {:induction false} SurvivorsConcat(a: seq<Entry>, b: seq<Entry>, x: seq<bool>, y: seq<bool>, max: nat)
    requires |a| == |x| && |b| == |y|
    ensures Survivors(a + b, x + y, max) == Survivors(a, x, max) + Survivors(b, y, max)
  {
    if a == [] {
      assert a + b == b && x + y == y;
    } else {
      var ab, xy := a + b, x + y;
      assert ab[0] == a[0] && xy[0] == x[0];
      assert ab[1..] == a[1..] + b;
      assert xy[1..] == x[1..] + y;
      SurvivorsConcat(a[1..], b, x[1..], y, max);
      var head, s, t := Settle(a[0], x[0], max), Survivors(a[1..], x[1..], max), Survivors(b, y, max);
      assert head + (s + t) == (head + s) + t;
    }
  }

  // One attempt changes nothing but the entry it is about.
  lemma {:induction false} AttemptKeepsOrder(pre: seq<Entry>, e: Entry, post: seq<Entry>, ok: bool, max: nat)
    requires Ordered(pre + [e] + post) && Unexhausted(pre + [e] + post, max)
    ensures Ordered(pre + Settle(e, ok, max) + post)
    ensures Unexhausted(pre + Settle(e, ok, max) + post, max)
  {
    var was, now := pre + [e] + post, pre + Settle(e, ok, max) + post;
    var shift := 1 - |Settle(e, ok, max)|;
    forall i, j | 0 <= i < j < |now|
      ensures Precedes(now, i, j)
    {
      var i', j' := if i < |pre| then i else i + shift, if j < |pre| then j else j + shift;
      assert now[i].record == was[i'].record && now[j].record == was[j'].record;
      assert Precedes(was, i', j');
    }
    forall x | x in now
      ensures x.failures < max
    {
      assert x in was || x in Settle(e, ok, max);
    }
  }

  lemma {:induction false} SurvivorsSnoc(entries: seq<Entry>, answers: seq<bool>, max: nat, i: nat)
    requires i < |answers| <= |entries|
    ensures Survivors(entries[..i + 1], answers[..i + 1], max)
         == Survivors(entries[..i], answers[..i], max) + Settle(entries[i], answers[i], max)
  {
    SurvivorsConcat(entries[..i], [entries[i]], answers[..i], [answers[i]], max);
    assert entries[..i + 1] == entries[..i] + [entries[i]];
    assert answers[..i + 1] == answers[..i] + [answers[i]];
    assert Survivors([entries[i]], [answers[i]], max) == Settle(entries[i], answers[i], max);
  }

  // Looking an entry up by value finds that entry, as no two share a position.
  lemma {:induction false} FoundWhereItIs(pre: seq<Entry>, e: Entry, post: seq<Entry>, index: nat)
    requires Ordered(pre + [e] + post)
    requires index < |pre + [e] + post| && (pre + [e] + post)[index] == e
    ensures index == |pre|
    ensures (pre + [e] + post)[..index] + (pre + [e] + post)[index + 1..] == pre + [] + post
    ensures forall x :: (pre + [e] + post)[index := x] == pre + [x] + post
  {
    assert (pre + [e] + post)[|pre|] == e;
    assert index < |pre| ==> Precedes(pre + [e] + post, index, |pre|);
    assert index > |pre| ==> Precedes(pre + [e] + post, |pre|, index);
  }

  lemma {:induction false} CallsSnoc(entries: seq<Entry>, answers: seq<bool>, i: nat)
    requires i < |answers| <= |entries|
    ensures Calls(entries, answers[..i + 1]) == Calls(entries, answers[..i]) + [Attempt(entries[i].record, answers[i])]
  {
  }

  lemma {:induction false} HeadAndTail(s: seq<Entry>, i: nat)
    requires i < |s|
    ensures s[i..] == [s[i]] + s[i + 1..]
  {
  }

  class InMemoryOutboxStorageStrategy {
    const filterer: RawEvent -> bool
    const maxAttempts: nat
    var entries: seq<Entry>

    ghost predicate Valid()
      reads this
    {
      maxAttempts >= 1 && Ordered(entries) && Unexhausted(entries, maxAttempts)
    }

    constructor (filterer: RawEvent -> bool, maxAttempts: nat)
      requires maxAttempts >= 1
      ensures Valid() && entries == []
      ensures this.filterer == filterer && this.maxAttempts == maxAttempts
    {
      this.filterer, this.maxAttempts, entries := filterer, maxAttempts, [];
    }

    method PutIntoOutbox(records: seq<RecordedRaw>)
      modifies this
      ensures entries == old(entries) + Fresh(Filter(Accepts(filterer), records))
    {
      entries := entries + Fresh(Filter(Accepts(filterer), records));
    }

    // The position found is that of the first equal pair.
    method IndexOf(e: Entry) returns (index: nat)
      requires e in entries
      ensures index < |entries| && entries[index] == e
      ensures e !in entries[..index]
    {
      index := 0;
      while entries[index] != e
        invariant index < |entries|
        invariant e !in entries[..index]
        invariant e in entries[index..]
        decreases |entries| - index
      {
        assert entries[index..] == [entries[index]] + entries[index + 1..];
        assert entries[..index + 1] == entries[..index] + [entries[index]];
        index := index + 1;
      }
    }

    method PublishContext(ghost pre: seq<Entry>, e: Entry, ghost post: seq<Entry>, ok: bool)
      requires Valid() && entries == pre + [e] + post
      modifies this
      ensures Valid() && entries == pre + Settle(e, ok, maxAttempts) + post
    {
      var index := IndexOf(e);
      FoundWhereItIs(pre, e, post, index);
      AttemptKeepsOrder(pre, e, post, ok, maxAttempts);
      if ok {
        entries := entries[..index] + entries[index + 1..];
      } else if e.failures + 1 >= maxAttempts {
        entries := entries[..index] + entries[index + 1..];
      } else {
        entries := entries[index := Entry(e.record, e.failures + 1)];
      }
    }

    method Run(limit: nat, publish: nat -> bool) returns (attempts: seq<Attempt>)
      requires Valid()
      modifies this
      ensures Valid()
      ensures var answers := Answers(publish, Min(limit, |old(entries)|));
              entries == Sweep(old(entries), answers, maxAttempts) &&
              attempts == Calls(old(entries), answers)
      ensures |attempts| == if limit < |old(entries)| then limit else |old(entries)|
      ensures forall i :: 0 <= i < |attempts| ==> attempts[i] == Attempt(old(entries)[i].record, publish(i))
    {
      hide Ordered, Unexhausted, Settle;
      var batch := entries[..Min(limit, |entries|)];
      ghost var was, answers := entries, Answers(publish, |batch|);
      ghost var done: seq<Entry> := [];
      attempts := [];
      for i := 0 to |batch|
        invariant Valid()
        invariant entries == done + was[i..]
        invariant done == Survivors(was[..i], answers[..i], maxAttempts)
        invariant attempts == Calls(was, answers[..i])
      {
        var ok := publish(i);
        ghost var tail := was[i + 1..];
        HeadAndTail(was, i);
        Assoc(done, [was[i]], tail);
        PublishContext(done, batch[i], tail, ok);
        SurvivorsSnoc(was, answers, maxAttempts, i);
        CallsSnoc(was, answers, i);
        done := done + Settle(batch[i], ok, maxAttempts);
        attempts := attempts + [Attempt(batch[i].record, ok)];
      }
      assert answers[..|batch|] == answers;
    }
  }

  /******* Histories: puts and runs, with everything the publisher was ever called with *******/

  datatype OutboxOp = Put(records: seq<RecordedRaw>) | RunOnce(limit: nat, publish: nat -> bool)

  datatype Ledger = Ledger(accepted: seq<RecordedRaw>, entries: seq<Entry>, attempts: seq<Attempt>)

  function Step(l: Ledger, op: OutboxOp, filterer: RawEvent -> bool, max: nat): Ledger {
    match op
    case Put(records) =>
      var passed := Filter(Accepts(filterer), records);
      Ledger(l.accepted + passed, l.entries + Fresh(passed), l.attempts)
    case RunOnce(limit, publish) =>
      var answers := Answers(publish, Min(limit, |l.entries|));
      Ledger(l.accepted, Sweep(l.entries, answers, max), l.attempts + Calls(l.entries, answers))
  }

  function Play(l: Ledger, ops: seq<OutboxOp>, filterer: RawEvent -> bool, max: nat): Ledger
    decreases |ops|
  {
    if ops == [] then l else Play(Step(l, ops[0], filterer, max), ops[1..], filterer, max)
  }

  ghost predicate Before(records: seq<RecordedRaw>, i: int, j: int)
    requires 0 <= i < j < |records|
  {
    records[i].position < records[j].position
  }

  ghost predicate Increasing(records: seq<RecordedRaw>) {
    forall i, j :: 0 <= i < j < |records| ==> Before(records, i, j)
  }

  // Records reach the outbox in log order.
  function Offered(ops: seq<OutboxOp>): seq<RecordedRaw> {
    if ops == [] then []
    else (if ops[0].Put? then ops[0].records else []) + Offered(ops[1..])
  }

  function Count(attempts: seq<Attempt>, r: RecordedRaw, ok: bool): nat {
    if attempts == [] then 0
    else Count(attempts[..|attempts| - 1], r, ok) + if attempts[|attempts| - 1] == Attempt(r, ok) then 1 else 0
  }

  ghost predicate InOutbox(r: RecordedRaw, entries: seq<Entry>) {
    exists e :: e in entries && e.record == r
  }

  ghost predicate Waiting(l: Ledger, r: RecordedRaw, max: nat) {
    && Entry(r, Count(l.attempts, r, false)) in l.entries
    && Count(l.attempts, r, false) < max
    && Count(l.attempts, r, true) == 0
  }

  ghost predicate Published(l: Ledger, r: RecordedRaw, max: nat) {
    && !InOutbox(r, l.entries)
    && Count(l.attempts, r, false) < max
    && Count(l.attempts, r, true) == 1
  }

  ghost predicate Dropped(l: Ledger, r: RecordedRaw, max: nat) {
    && !InOutbox(r, l.entries)
    && Count(l.attempts, r, false) == max
    && Count(l.attempts, r, true) == 0
  }

  ghost predicate Fated(l: Ledger, r: RecordedRaw, max: nat) {
    Waiting(l, r, max) || Published(l, r, max) || Dropped(l, r, max)
  }

  ghost predicate Balanced(l: Ledger, max: nat) {
    && Ordered(l.entries) && Unexhausted(l.entries, max)
    && (forall e :: e in l.entries ==> e.record in l.accepted)
    && (forall a :: a in l.attempts ==> a.record in l.accepted)
    && (forall r :: r in l.accepted ==> Fated(l, r, max))
  }

  lemma {:induction false} CountAbsent(attempts: seq<Attempt>, r: RecordedRaw, ok: bool)
    requires forall a :: a in attempts ==> a.record != r
    ensures Count(attempts, r, ok) == 0
  {
    if attempts != [] {
      assert attempts[|attempts| - 1] in attempts;
      CountAbsent(attempts[..|attempts| - 1], r, ok);
    }
  }

  lemma {:induction false} CountAppend(attempts: seq<Attempt>, a: Attempt, r: RecordedRaw, ok: bool)
    ensures Count(attempts + [a], r, ok) == Count(attempts, r, ok) + if a == Attempt(r, ok) then 1 else 0
  {
    assert (attempts + [a])[..|attempts|] == attempts;
  }

  lemma {:induction false} OneEntryPerRecord(entries: seq<Entry>, x: Entry, y: Entry)
    requires Ordered(entries) && x in entries && y in entries && x.record == y.record
    ensures x == y
  {
    var i :| 0 <= i < |entries| && entries[i] == x;
    var j :| 0 <= j < |entries| && entries[j] == y;
    assert i < j ==> Precedes(entries, i, j);
    assert j < i ==> Precedes(entries, j, i);
  }

  lemma {:induction false} AttemptKeepsBalance(l: Ledger, pre: seq<Entry>, e: Entry, post: seq<Entry>, ok: bool,
                                               max: nat)
    requires max >= 1 && Balanced(l, max) && l.entries == pre + [e] + post
    ensures Balanced(Ledger(l.accepted, pre + Settle(e, ok, max) + post, l.attempts + [Attempt(e.record, ok)]), max)
  {
    var now := Ledger(l.accepted, pre + Settle(e, ok, max) + post, l.attempts + [Attempt(e.record, ok)]);
    AttemptKeepsOrder(pre, e, post, ok, max);
    assert e in l.entries;
    forall r | r in now.accepted
      ensures Fated(now, r, max)
    {
      CountAppend(l.attempts, Attempt(e.record, ok), r, true);
      CountAppend(l.attempts, Attempt(e.record, ok), r, false);
      if r == e.record {
        assert Waiting(l, r, max);
        OneEntryPerRecord(l.entries, e, Entry(r, Count(l.attempts, r, false)));
        if Settle(e, ok, max) == [] {
          NoOtherEntry(pre, e, post);
        } else {
          assert now.entries[|pre|] == Entry(r, e.failures + 1);
        }
      } else {
        forall x: Entry | x.record == r
          ensures x in l.entries <==> x in now.entries
        {
        }
      }
    }
  }

  lemma {:induction false} NoOtherEntry(pre: seq<Entry>, e: Entry, post: seq<Entry>)
    requires Ordered(pre + [e] + post)
    ensures !InOutbox(e.record, pre + post)
  {
    var all := pre + [e] + post;
    forall i | 0 <= i < |pre + post|
      ensures (pre + post)[i].record != e.record
    {
      assert all[|pre|] == e;
      if i < |pre| {
        assert Precedes(all, i, |pre|);
      } else {
        assert (pre + post)[i] == all[i + 1] && Precedes(all, |pre|, i + 1);
      }
    }
  }

  // The ledger after the first i attempts of a run.
  function Midway(l: Ledger, answers: seq<bool>, max: nat, i: nat): Ledger
    requires i <= |answers| <= |l.entries|
  {
    Ledger(
      l.accepted,
      Survivors(l.entries[..i], answers[..i], max) + l.entries[i..],
      l.attempts + Calls(l.entries, answers[..i]))
  }

  lemma {:induction false} MidwayStep(l: Ledger, answers: seq<bool>, max: nat, i: nat)
    requires i < |answers| <= |l.entries|
    ensures var pre, e, post := Survivors(l.entries[..i], answers[..i], max), l.entries[i], l.entries[i + 1..];
            && Midway(l, answers, max, i).entries == pre + [e] + post
            && Midway(l, answers, max, i + 1)
            == Ledger(l.accepted, pre + Settle(e, answers[i], max) + post,
                      Midway(l, answers, max, i).attempts + [Attempt(e.record, answers[i])])
  {
    SurvivorsSnoc(l.entries, answers, max, i);
    assert l.entries[i..] == [l.entries[i]] + l.entries[i + 1..];
    CallsSnoc(l.entries, answers, i);
  }

  lemma {:induction false} RunKeepsBalance(l: Ledger, answers: seq<bool>, max: nat, i: nat)
    requires max >= 1 && Balanced(l, max) && i <= |answers| <= |l.entries|
    ensures Balanced(Midway(l, answers, max, i), max)
  {
    hide Balanced;
    if i == 0 {
      assert Midway(l, answers, max, 0) == l;
    } else {
      hide Survivors, Calls;
      RunKeepsBalance(l, answers, max, i - 1);
      MidwayStep(l, answers, max, i - 1);
      AttemptKeepsBalance(Midway(l, answers, max, i - 1), Survivors(l.entries[..i - 1], answers[..i - 1], max),
        l.entries[i - 1], l.entries[i..], answers[i - 1], max);
    }
  }

  lemma {:induction false} LaterRecords(accepted: seq<RecordedRaw>, passed: seq<RecordedRaw>,
                                        a: RecordedRaw, b: RecordedRaw)
    requires Increasing(accepted + passed) && a in accepted && b in passed
    ensures a.position < b.position
  {
    var all := accepted + passed;
    var i :| 0 <= i < |accepted| && accepted[i] == a;
    var j :| 0 <= j < |passed| && passed[j] == b;
    assert all[i] == a && all[|accepted| + j] == b;
    assert Before(all, i, |accepted| + j);
  }

  lemma {:induction false} PutKeepsOrdered(l: Ledger, passed: seq<RecordedRaw>)
    requires Ordered(l.entries) && (forall e :: e in l.entries ==> e.record in l.accepted)
    requires Increasing(l.accepted + passed)
    ensures Ordered(l.entries + Fresh(passed))
  {
    var now, all := l.entries + Fresh(passed), l.accepted + passed;
    forall i, j | 0 <= i < j < |now|
      ensures Precedes(now, i, j)
    {
      if j < |l.entries| {
        assert Precedes(l.entries, i, j);
      } else if |l.entries| <= i {
        var a, b := |l.accepted| + i - |l.entries|, |l.accepted| + j - |l.entries|;
        assert all[a] == now[i].record && all[b] == now[j].record;
        assert Before(all, a, b);
      } else {
        assert now[i] in l.entries && now[j].record in passed;
        LaterRecords(l.accepted, passed, now[i].record, now[j].record);
      }
    }
  }

  lemma {:induction false} PutKeepsFates(l: Ledger, passed: seq<RecordedRaw>, max: nat, r: RecordedRaw)
    requires max >= 1 && Balanced(l, max) && Increasing(l.accepted + passed)
    requires r in l.accepted || r in passed
    ensures Fated(Ledger(l.accepted + passed, l.entries + Fresh(passed), l.attempts), r, max)
  {
    hide Increasing, Ordered, Unexhausted;
    var now := l.entries + Fresh(passed);
    if r in l.accepted {
      forall x: Entry | x.record == r
        ensures x in l.entries <==> x in now
      {
        if x in Fresh(passed) {
          LaterRecords(l.accepted, passed, r, r);
        }
      }
    } else {
      CountAbsent(l.attempts, r, true);
      CountAbsent(l.attempts, r, false);
      var j :| 0 <= j < |passed| && passed[j] == r;
      assert now[|l.entries| + j] == Entry(r, 0);
    }
  }

  lemma {:induction false} PutKeepsBalance(l: Ledger, passed: seq<RecordedRaw>, max: nat)
    requires max >= 1 && Balanced(l, max) && Increasing(l.accepted + passed)
    ensures Balanced(Ledger(l.accepted + passed, l.entries + Fresh(passed), l.attempts), max)
  {
    hide Fated, Ordered, Increasing;
    PutKeepsOrdered(l, passed);
    forall r | r in l.accepted + passed
      ensures Fated(Ledger(l.accepted + passed, l.entries + Fresh(passed), l.attempts), r, max)
    {
      PutKeepsFates(l, passed, max, r);
    }
  }

  lemma {:induction false} IncreasingTail(a: seq<RecordedRaw>)
    requires a != [] && Increasing(a)
    ensures Increasing(a[1..]) && forall r :: r in a[1..] ==> a[0].position < r.position
  {
    forall i, j | 0 <= i < j < |a[1..]|
      ensures Before(a[1..], i, j)
    {
      assert Before(a, i + 1, j + 1);
    }
    forall r | r in a[1..]
      ensures a[0].position < r.position
    {
      var i :| 0 <= i < |a[1..]| && a[1..][i] == r;
      assert Before(a, 0, i + 1);
    }
  }

  lemma {:induction false} IncreasingCons(r: RecordedRaw, rest: seq<RecordedRaw>)
    requires Increasing(rest) && forall x :: x in rest ==> r.position < x.position
    ensures Increasing([r] + rest)
  {
    forall i, j | 0 <= i < j < |[r] + rest|
      ensures Before([r] + rest, i, j)
    {
      if i > 0 {
        assert Before(rest, i - 1, j - 1);
      }
    }
  }

  lemma {:induction false} IncreasingConcat(a: seq<RecordedRaw>, b: seq<RecordedRaw>, at: int)
    requires Increasing(a) && Increasing(b)
    requires (forall r :: r in a ==> r.position <= at) && (forall r :: r in b ==> at < r.position)
    ensures Increasing(a + b)
  {
    forall i, j | 0 <= i < j < |a + b|
      ensures Before(a + b, i, j)
    {
      if j < |a| {
        assert Before(a, i, j);
      } else if |a| <= i {
        assert Before(b, i - |a|, j - |a|);
      } else {
        assert a[i] in a && b[j - |a|] in b;
      }
    }
  }

  lemma {:induction false} FilterKeepsIncreasing(filterer: RawEvent -> bool, a: seq<RecordedRaw>)
    requires Increasing(a)
    ensures Increasing(Filter(Accepts(filterer), a))
  {
    if a != [] {
      IncreasingTail(a);
      FilterKeepsIncreasing(filterer, a[1..]);
      var rest := Filter(Accepts(filterer), a[1..]);
      forall r | r in rest
        ensures a[0].position < r.position
      {
        FilterMember(Accepts(filterer), a[1..], r);
      }
      IncreasingCons(a[0], rest);
      assert [] + rest == rest;
    }
  }

  lemma {:induction false} PlayKeepsBalance(l: Ledger, ops: seq<OutboxOp>, filterer: RawEvent -> bool, max: nat)
    requires max >= 1 && Balanced(l, max)
    requires Increasing(l.accepted + Filter(Accepts(filterer), Offered(ops)))
    ensures Play(l, ops, filterer, max).accepted == l.accepted + Filter(Accepts(filterer), Offered(ops))
    ensures Balanced(Play(l, ops, filterer, max), max)
    decreases |ops|
  {
    if ops != [] {
      var next, later := Step(l, ops[0], filterer, max), Filter(Accepts(filterer), Offered(ops[1..]));
      match ops[0] {
        case Put(records) =>
          var passed := Filter(Accepts(filterer), records);
          FilterConcat(Accepts(filterer), records, Offered(ops[1..]));
          var all := l.accepted + (passed + later);
          assert all == next.accepted + later;
          forall i, j | 0 <= i < j < |next.accepted|
            ensures Before(next.accepted, i, j)
          {
            assert Before(all, i, j);
          }
          PutKeepsBalance(l, passed, max);
        case RunOnce(limit, publish) =>
          var answers := Answers(publish, Min(limit, |l.entries|));
          assert [] + Offered(ops[1..]) == Offered(ops[1..]);
          RunKeepsBalance(l, answers, max, |answers|);
          assert answers[..|answers|] == answers;
      }
      PlayKeepsBalance(next, ops[1..], filterer, max);
    }
  }

  // Conservation: every record that passed the filter is waiting, published once, or dropped.
  lemma {:induction false} Conservation(ops: seq<OutboxOp>, filterer: RawEvent -> bool, max: nat)
    requires max >= 1 && Increasing(Offered(ops))
    ensures var l := Play(Ledger([], [], []), ops, filterer, max);
            && Ordered(l.entries)
            && (forall e :: e in l.entries ==> e.record in Offered(ops) && filterer(e.record.entry))
            && (forall a :: a in l.attempts ==> a.record in Offered(ops) && filterer(a.record.entry))
            && (forall r :: r in Offered(ops) && filterer(r.entry) ==>
                Waiting(l, r, max) || Published(l, r, max) || Dropped(l, r, max))
  {
    FilterKeepsIncreasing(filterer, Offered(ops));
    forall r
      ensures r in Filter(Accepts(filterer), Offered(ops)) <==> r in Offered(ops) && filterer(r.entry)
    {
      FilterMember(Accepts(filterer), Offered(ops), r);
    }
    var l := Play(Ledger([], [], []), ops, filterer, max);
    assert [] + Filter(Accepts(filterer), Offered(ops)) == Filter(Accepts(filterer), Offered(ops));
    PlayKeepsBalance(Ledger([], [], []), ops, filterer, max);
  }

  ghost predicate LeftBy(batch: seq<Entry>, answers: seq<bool>, max: nat, e: Entry, i: int) {
    && 0 <= i < |batch| == |answers| && !answers[i]
    && batch[i].failures + 1 < max && e == Entry(batch[i].record, batch[i].failures + 1)
  }

  lemma {:induction false} SurvivorsAre(batch: seq<Entry>, answers: seq<bool>, max: nat, e: Entry)
    requires |batch| == |answers|
    ensures e in Survivors(batch, answers, max) <==> exists i :: LeftBy(batch, answers, max, e, i)
  {
    if batch != [] {
      SurvivorsAre(batch[1..], answers[1..], max, e);
      if i :| LeftBy(batch, answers, max, e, i) {
        assert i > 0 ==> LeftBy(batch[1..], answers[1..], max, e, i - 1);
      }
      if i :| LeftBy(batch[1..], answers[1..], max, e, i) {
        assert LeftBy(batch, answers, max, e, i + 1);
      }
      if e in Settle(batch[0], answers[0], max) {
        assert LeftBy(batch, answers, max, e, 0);
      }
    }
  }

  // A run calls the publisher once for each of the first entries, as many as there are up to the
  // limit; of these stay the ones it failed on that have attempts left, with a failure more; the
  // others are untouched.
  lemma {:induction false} RunAttempts(l: Ledger, limit: nat, publish: nat -> bool, filterer: RawEvent -> bool,
                                       max: nat)
    ensures var l', n := Step(l, RunOnce(limit, publish), filterer, max),
              if limit < |l.entries| then limit else |l.entries|;
            var kept := |l'.entries| - (|l.entries| - n);
            && |l'.attempts| == |l.attempts| + n && l'.attempts[..|l.attempts|] == l.attempts
            && (forall i :: 0 <= i < n ==> l'.attempts[|l.attempts| + i] == Attempt(l.entries[i].record, publish(i)))
            && 0 <= kept && l'.entries[kept..] == l.entries[n..]
            && (forall e :: e in l'.entries[..kept] <==>
                exists i :: 0 <= i < n && !publish(i) && l.entries[i].failures + 1 < max
                    && e == Entry(l.entries[i].record, l.entries[i].failures + 1))
  {
    var n := if limit < |l.entries| then limit else |l.entries|;
    var batch, answers := l.entries[..n], Answers(publish, n);
    var s := Survivors(batch, answers, max);
    var l' := Step(l, RunOnce(limit, publish), filterer, max);
    assert l'.entries == s + l.entries[n..] && l'.attempts == l.attempts + Calls(l.entries, answers);
    hide Survivors;
    assert l'.entries[..|s|] == s;
    forall e
      ensures e in s <==>
              exists i :: 0 <= i < n && !publish(i) && l.entries[i].failures + 1 < max
                  && e == Entry(l.entries[i].record, l.entries[i].failures + 1)
    {
      SurvivorsAre(batch, answers, max, e);
      if i :| 0 <= i < n && e == Entry(l.entries[i].record, l.entries[i].failures + 1) && !publish(i) {
        assert l.entries[i].failures + 1 < max ==> LeftBy(batch, answers, max, e, i);
      }
    }
  }

  /******* Draining *******/

  function Remaining(entries: seq<Entry>, max: nat): nat
    requires Unexhausted(entries, max)
  {
    if entries == [] then 0 else max - entries[0].failures + Remaining(entries[1..], max)
  }

  lemma {:induction false} RemainingConcat(a: seq<Entry>, b: seq<Entry>, max: nat)
    requires Unexhausted(a, max) && Unexhausted(b, max)
    ensures Unexhausted(a + b, max)
    ensures Remaining(a + b, max) == Remaining(a, max) + Remaining(b, max)
  {
    if a == [] {
      assert a + b == b;
    } else {
      RemainingConcat(a[1..], b, max);
      assert (a + b)[1..] == a[1..] + b;
    }
  }

  lemma {:induction false} SurvivorsShrink(batch: seq<Entry>, answers: seq<bool>, max: nat)
    requires |batch| == |answers| && Unexhausted(batch, max)
    ensures var s := Survivors(batch, answers, max);
            && Unexhausted(s, max)
            && Remaining(s, max) + |batch| <= Remaining(batch, max)
            && forall e :: e in s ==> InOutbox(e.record, batch)
  {
    if batch != [] {
      SurvivorsShrink(batch[1..], answers[1..], max);
      var head, rest := Settle(batch[0], answers[0], max), Survivors(batch[1..], answers[1..], max);
      RemainingConcat(head, rest, max);
      forall e: Entry | e in head + rest
        ensures InOutbox(e.record, batch)
      {
        if e in head {
          assert batch[0] in batch;
        } else {
          var x :| x in batch[1..] && x.record == e.record;
          assert x in batch;
        }
      }
    }
  }

  // Each run takes at least min(limit, length) from the attempts still due.
  lemma {:induction false} RunShrinksRemaining(entries: seq<Entry>, limit: nat, publish: nat -> bool, max: nat)
    requires Unexhausted(entries, max)
    ensures var n := Min(limit, |entries|);
            var now := Sweep(entries, Answers(publish, n), max);
            Unexhausted(now, max) && Remaining(now, max) + n <= Remaining(entries, max)
  {
    var n := Min(limit, |entries|);
    var answers := Answers(publish, n);
    SurvivorsShrink(entries[..n], answers, max);
    RemainingConcat(Survivors(entries[..n], answers, max), entries[n..], max);
    RemainingConcat(entries[..n], entries[n..], max);
    assert entries == entries[..n] + entries[n..];
  }

  function WorkingRuns(ops: seq<OutboxOp>): nat {
    if ops == [] then 0 else (if ops[0].RunOnce? && ops[0].limit > 0 then 1 else 0) + WorkingRuns(ops[1..])
  }

  ghost predicate Offers(ops: seq<OutboxOp>, r: RecordedRaw) {
    exists i :: 0 <= i < |ops| && ops[i].Put? && r in ops[i].records
  }

  // A run over a + b settles the front of a first, so a only gets smaller.
  lemma {:induction false} RunOnFront(a: seq<Entry>, b: seq<Entry>, answers: seq<bool>, max: nat)
    returns (a': seq<Entry>, b': seq<Entry>)
    requires Unexhausted(a, max) && |answers| <= |a + b|
    ensures Sweep(a + b, answers, max) == a' + b'
    ensures Unexhausted(a', max) && Remaining(a', max) + Min(|answers|, |a|) <= Remaining(a, max)
    ensures Unexhausted(b, max) ==> Unexhausted(b', max)
    ensures forall e :: e in b' ==> InOutbox(e.record, b)
  {
    if |answers| <= |a| {
      b' := b;
      a' := RunWithinFront(a, b, answers, max);
      forall e | e in b
        ensures InOutbox(e.record, b)
      {
      }
    } else {
      a', b' := RunBeyondFront(a, b, answers, max);
    }
  }

  lemma {:induction false} RunWithinFront(a: seq<Entry>, b: seq<Entry>, answers: seq<bool>, max: nat)
    returns (a': seq<Entry>)
    requires Unexhausted(a, max) && |answers| <= |a|
    ensures Sweep(a + b, answers, max) == a' + b
    ensures Unexhausted(a', max) && Remaining(a', max) + |answers| <= Remaining(a, max)
  {
    var n := |answers|;
    var front, back := a[..n], a[n..];
    var s := Survivors(front, answers, max);
    assert (a + b)[..n] == front && (a + b)[n..] == back + b;
    assert a == front + back;
    hide Survivors, Remaining;
    a' := s + back;
    Assoc(s, back, b);
    SurvivorsShrink(front, answers, max);
    RemainingConcat(s, back, max);
    RemainingConcat(front, back, max);
  }

  lemma {:induction false} RunBeyondFront(a: seq<Entry>, b: seq<Entry>, answers: seq<bool>, max: nat)
    returns (a': seq<Entry>, b': seq<Entry>)
    requires Unexhausted(a, max) && |a| < |answers| <= |a + b|
    ensures Sweep(a + b, answers, max) == a' + b'
    ensures Unexhausted(a', max) && Remaining(a', max) + |a| <= Remaining(a, max)
    ensures Unexhausted(b, max) ==> Unexhausted(b', max)
    ensures forall e :: e in b' ==> InOutbox(e.record, b)
  {
    var n := |answers|;
    var m, x, y := n - |a|, answers[..|a|], answers[|a|..];
    assert (a + b)[..n] == a + b[..m] && (a + b)[n..] == b[m..];
    assert answers == x + y;
    hide Survivors, Remaining, InOutbox;
    a' := Survivors(a, x, max);
    b' := Sweep(b, y, max);
    Assoc(a', Survivors(b[..m], y, max), b[m..]);
    SurvivorsConcat(a, b[..m], x, y, max);
    SurvivorsShrink(a, x, max);
    SweepRecords(b, y, max);
  }

  lemma {:induction false} SweepRecords(entries: seq<Entry>, answers: seq<bool>, max: nat)
    requires |answers| <= |entries|
    ensures forall e :: e in Sweep(entries, answers, max) ==> InOutbox(e.record, entries)
    ensures Unexhausted(entries, max) ==> Unexhausted(Sweep(entries, answers, max), max)
  {
    SurvivorsComeFrom(entries[..|answers|], answers, max);
    forall e: Entry | e in Sweep(entries, answers, max)
      ensures InOutbox(e.record, entries)
    {
      if e in entries[|answers|..] {
        assert e in entries;
      } else {
        var x :| x in entries[..|answers|] && x.record == e.record;
        assert x in entries;
      }
    }
  }

  lemma {:induction false} SurvivorsComeFrom(batch: seq<Entry>, answers: seq<bool>, max: nat)
    requires |batch| == |answers|
    ensures forall e :: e in Survivors(batch, answers, max) ==> e.failures < max && InOutbox(e.record, batch)
  {
    if batch != [] {
      SurvivorsComeFrom(batch[1..], answers[1..], max);
      forall e: Entry | e in Survivors(batch, answers, max)
        ensures e.failures < max && InOutbox(e.record, batch)
      {
        if e in Settle(batch[0], answers[0], max) {
          assert batch[0] in batch;
        } else {
          var x :| x in batch[1..] && x.record == e.record;
          assert x in batch;
        }
      }
    }
  }

  // No starvation: once as many working runs have happened as attempts were due on
  // the front part `a`, nothing of it is left, whatever the publisher did and whatever
  // was put in the meantime.
  lemma {:induction false} FrontIsDrained(l: Ledger, a: seq<Entry>, b: seq<Entry>, ops: seq<OutboxOp>,
                                          filterer: RawEvent -> bool, max: nat)
    requires l.entries == a + b
    requires Unexhausted(a, max) && WorkingRuns(ops) >= Remaining(a, max)
    ensures forall e :: e in Play(l, ops, filterer, max).entries ==> InOutbox(e.record, b) || Offers(ops, e.record)
    decreases |ops|
  {
    if ops == [] {
      assert a == [];
    } else {
      var a', b' := a, b;
      match ops[0] {
        case Put(records) =>
          b' := b + Fresh(Filter(Accepts(filterer), records));
          assert (a + b) + Fresh(Filter(Accepts(filterer), records)) == a + b';
        case RunOnce(limit, publish) =>
          var answers := Answers(publish, Min(limit, |a + b|));
          a', b' := RunOnFront(a, b, answers, max);
      }
      FrontIsDrained(Step(l, ops[0], filterer, max), a', b', ops[1..], filterer, max);
      forall e: Entry | e in Play(l, ops, filterer, max).entries
        ensures InOutbox(e.record, b) || Offers(ops, e.record)
      {
        if Offers(ops[1..], e.record) {
          var i :| 0 <= i < |ops[1..]| && ops[1..][i].Put? && e.record in ops[1..][i].records;
          assert ops[i + 1] == ops[1..][i];
        } else {
          var x :| x in b' && x.record == e.record;
          if x !in b && ops[0].Put? {
            FilterMember(Accepts(filterer), ops[0].records, x.record);
            assert ops[0].Put? && e.record in ops[0].records;
          }
        }
      }
    }
  }

  // With nothing new put, any publisher behaviour empties the outbox.
  lemma {:induction false} Drains(l: Ledger, ops: seq<OutboxOp>, filterer: RawEvent -> bool, max: nat)
    requires Unexhausted(l.entries, max) && WorkingRuns(ops) >= Remaining(l.entries, max)
    requires forall i :: 0 <= i < |ops| ==> ops[i].RunOnce?
    ensures Play(l, ops, filterer, max).entries == []
  {
    var left := Play(l, ops, filterer, max).entries;
    if left != [] {
      assert left[0] in left;
    }
    assert l.entries + [] == l.entries;
    FrontIsDrained(l, l.entries, [], ops, filterer, max);
  }
}
