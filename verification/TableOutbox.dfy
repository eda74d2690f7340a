/**
 The outbox of the SQLAlchemy backend: one table row per record with a count of
 tries left. Rows are kept in id order; a row without tries left stays behind.
 */
module TableOutbox {
  import opened Wrappers
  import opened Seqs
  import opened Events
  import opened Outbox

  datatype Row = Row(id: nat, record: RecordedRaw, triesLeft: nat)

  // The row keeps the bare uuid and the name of the stream; the identifier rebuilt
  // from them has no category.
  function Rebuilt(r: RecordedRaw): RecordedRaw {
    var sid := r.entry.stream;
    var uuid := if sid.name.Some? then FromName(sid.name.value) else sid.key.uuid;
    r.(entry := r.entry.(stream := StreamId(StreamKey(uuid, None), sid.name)))
  }

  // Exactly when the rebuilt record is the one that was put.
  lemma {:induction false} RebuiltIsOriginal(r: RecordedRaw)
    requires r.entry.stream.Valid()
    ensures Rebuilt(r) == r <==>
            r.entry.stream.key.category == None &&
            (r.entry.stream.name == Some("") ==> r.entry.stream.key.uuid == FromName(""))
    ensures Rebuilt(r).(entry := Rebuilt(r).entry.(stream := r.entry.stream)) == r
    ensures r.entry.stream.name != Some("") ==>
              Rebuilt(r).entry.stream == StreamId(StreamKey(r.entry.stream.key.uuid, None), r.entry.stream.name)
  {
  }

  function NewRows(records: seq<RecordedRaw>, firstId: nat, max: nat): (r: seq<Row>)
    ensures |r| == |records|
    ensures forall i :: 0 <= i < |r| ==> r[i].id == firstId + i && r[i].triesLeft == max
  {
    seq(|records|, i requires 0 <= i < |records| => Row(firstId + i, Rebuilt(records[i]), max))
  }

  predicate Live(r: Row) {
    r.triesLeft > 0
  }

  function LiveRows(rows: seq<Row>): seq<Row> {
    Filter((r: Row) => Live(r), rows)
  }

  function SettleRow(r: Row, ok: bool): seq<Row>
    requires Live(r)
  {
    if ok then [] else [r.(triesLeft := r.triesLeft - 1)]
  }

  // The table after the first |answers| live rows were attempted.
  function SweepRows(rows: seq<Row>, answers: seq<bool>): seq<Row>
    requires |answers| <= |LiveRows(rows)|
  {
    if answers == [] then rows
    else if Live(rows[0]) then SettleRow(rows[0], answers[0]) + SweepRows(rows[1..], answers[1..])
    else [rows[0]] + SweepRows(rows[1..], answers)
  }

  function CallsFor(rows: seq<Row>, answers: seq<bool>): seq<Attempt>
    requires |answers| <= |rows|
  {
    seq(|answers|, i requires 0 <= i < |answers| => Attempt(rows[i].record, answers[i]))
  }

  lemma {:induction false} CallsForSnoc(rows: seq<Row>, answers: seq<bool>, i: nat)
    requires i < |answers| <= |rows|
    ensures CallsFor(rows, answers[..i + 1]) == CallsFor(rows, answers[..i]) + [Attempt(rows[i].record, answers[i])]
  {
  }

  ghost predicate IdsBelow(rows: seq<Row>, bound: nat) {
    forall r :: r in rows ==> r.id < bound
  }

  ghost predicate OneRowPerId(rows: seq<Row>) {
    forall i, j :: 0 <= i < j < |rows| ==> Apart(rows, i, j)
  }

  ghost predicate Apart(rows: seq<Row>, i: int, j: int)
    requires 0 <= i < j < |rows|
  {
    rows[i].id < rows[j].id
  }

  // Rows are addressed by id: the first row with that id is taken out or replaced.
  function Replace(rows: seq<Row>, id: nat, remains: seq<Row>): seq<Row> {
    if rows == [] then []
    else if rows[0].id == id then remains + rows[1..]
    else [rows[0]] + Replace(rows[1..], id, remains)
  }

  lemma {:induction false} LiveTail(rows: seq<Row>)
    requires rows != [] && OneRowPerId(rows)
    ensures OneRowPerId(rows[1..])
    ensures forall r :: r in rows[1..] ==> rows[0].id < r.id
  {
    forall i, j | 0 <= i < j < |rows[1..]|
      ensures Apart(rows[1..], i, j)
    {
      assert Apart(rows, i + 1, j + 1);
    }
    forall r | r in rows[1..]
      ensures rows[0].id < r.id
    {
      var i :| 0 <= i < |rows[1..]| && rows[1..][i] == r;
      assert Apart(rows, 0, i + 1);
    }
  }

  lemma {:induction false} LiveMember(rows: seq<Row>, r: Row)
    ensures r in LiveRows(rows) <==> r in rows && Live(r)
  {
    FilterMember((x: Row) => Live(x), rows, r);
  }

  // One more attempt is one row replaced in what the earlier attempts left.
  lemma {:induction false} SweepRowsStep(rows: seq<Row>, answers: seq<bool>, ok: bool)
    requires OneRowPerId(rows) && |answers| < |LiveRows(rows)|
    ensures var row := LiveRows(rows)[|answers|];
            Live(row) && row in SweepRows(rows, answers) &&
            SweepRows(rows, answers + [ok]) == Replace(SweepRows(rows, answers), row.id, SettleRow(row, ok))
    decreases |rows|
  {
    var row := LiveRows(rows)[|answers|];
    assert row in LiveRows(rows);
    LiveMember(rows, row);
    LiveTail(rows);
    if answers == [] {
      if !Live(rows[0]) {
        SweepRowsStep(rows[1..], answers, ok);
      }
      assert SweepRows(rows[1..], []) == rows[1..];
    } else if !Live(rows[0]) {
      SweepRowsStep(rows[1..], answers, ok);
      ReplaceLater([rows[0]], SweepRows(rows[1..], answers), row.id, SettleRow(row, ok));
    } else {
      SweepRowsStep(rows[1..], answers[1..], ok);
      LiveMember(rows[1..], row);
      assert row == LiveRows(rows[1..])[|answers| - 1];
      assert (answers + [ok])[1..] == answers[1..] + [ok];
      ReplaceLater(SettleRow(rows[0], answers[0]), SweepRows(rows[1..], answers[1..]), row.id, SettleRow(row, ok));
    }
  }

  lemma {:induction false} ReplaceLater(head: seq<Row>, rest: seq<Row>, id: nat, remains: seq<Row>)
    requires forall r :: r in head ==> r.id != id
    ensures Replace(head + rest, id, remains) == head + Replace(rest, id, remains)
  {
    if head == [] {
      assert head + rest == rest;
    } else {
      ReplaceLater(head[1..], rest, id, remains);
      assert (head + rest)[1..] == head[1..] + rest;
    }
  }

  lemma {:induction false} SameIdSameRow(rows: seq<Row>, i: nat, e: Row)
    requires OneRowPerId(rows) && i < |rows| && rows[i].id == e.id && e in rows
    ensures rows[i] == e
  {
    var j :| 0 <= j < |rows| && rows[j] == e;
    assert i < j ==> Apart(rows, i, j);
    assert j < i ==> Apart(rows, j, i);
  }

  lemma {:induction false} SettledTable(rows: seq<Row>, i: nat, ok: bool, bound: nat)
    requires OneRowPerId(rows) && IdsBelow(rows, bound) && i < |rows| && Live(rows[i])
    ensures OneRowPerId(rows[..i] + SettleRow(rows[i], ok) + rows[i + 1..])
    ensures IdsBelow(rows[..i] + SettleRow(rows[i], ok) + rows[i + 1..], bound)
  {
    var now, shift := rows[..i] + SettleRow(rows[i], ok) + rows[i + 1..], 1 - |SettleRow(rows[i], ok)|;
    forall a, b | 0 <= a < b < |now|
      ensures Apart(now, a, b)
    {
      assert Apart(rows, if a < i then a else a + shift, if b < i then b else b + shift);
    }
  }

  lemma {:induction false} AddedKeepIds(rows: seq<Row>, nextId: nat, added: seq<Row>)
    requires OneRowPerId(rows) && IdsBelow(rows, nextId)
    requires forall i :: 0 <= i < |added| ==> added[i].id == nextId + i
    ensures OneRowPerId(rows + added) && IdsBelow(rows + added, nextId + |added|)
  {
    forall i, j | 0 <= i < j < |rows + added|
      ensures Apart(rows + added, i, j)
    {
      if j < |rows| {
        assert Apart(rows, i, j);
      } else if i < |rows| {
        assert rows[i] in rows;
      }
    }
  }

  lemma {:induction false} IdsCons(row: Row, rest: seq<Row>)
    requires OneRowPerId(rest) && forall r :: r in rest ==> row.id < r.id
    ensures OneRowPerId([row] + rest)
  {
    forall i, j | 0 <= i < j < |[row] + rest|
      ensures Apart([row] + rest, i, j)
    {
      assert i > 0 ==> Apart(rest, i - 1, j - 1);
    }
  }

  ghost predicate HasId(rows: seq<Row>, id: nat) {
    exists r :: r in rows && r.id == id
  }

  // A run deletes rows and takes tries; it moves no row and changes no id.
  lemma {:induction false} SweepKeepsIds(rows: seq<Row>, answers: seq<bool>, bound: nat)
    requires OneRowPerId(rows) && IdsBelow(rows, bound) && |answers| <= |LiveRows(rows)|
    ensures OneRowPerId(SweepRows(rows, answers)) && IdsBelow(SweepRows(rows, answers), bound)
    ensures forall r :: r in SweepRows(rows, answers) ==> HasId(rows, r.id)
    decreases |rows|
  {
    if answers != [] {
      var row, later := rows[0], if Live(rows[0]) then answers[1..] else answers;
      LiveTail(rows);
      SweepKeepsIds(rows[1..], later, bound);
      var rest := SweepRows(rows[1..], later);
      forall r | r in rest
        ensures row.id < r.id && HasId(rows, r.id)
      {
        var was :| was in rows[1..] && was.id == r.id;
        assert was in rows;
      }
      assert row in rows;
      if Live(row) {
        IdsCons(row.(triesLeft := row.triesLeft - 1), rest);
        assert [] + rest == rest;
      } else {
        IdsCons(row, rest);
      }
    } else {
      assert forall r :: r in rows ==> HasId(rows, r.id);
    }
  }

  lemma {:induction false} ReplaceAt(rows: seq<Row>, i: nat, remains: seq<Row>)
    requires i < |rows| && OneRowPerId(rows)
    ensures Replace(rows, rows[i].id, remains) == rows[..i] + remains + rows[i + 1..]
  {
    if i == 0 {
      assert rows[..0] + remains == remains;
    } else {
      var tail := rows[1..];
      LiveTail(rows);
      ReplaceAt(tail, i - 1, remains);
      assert rows[i] == tail[i - 1] && rows[i] in tail;
      assert rows[..i] == [rows[0]] + tail[..i - 1] && rows[i + 1..] == tail[i..];
      Assoc([rows[0]], tail[..i - 1], remains);
      Assoc([rows[0]], tail[..i - 1] + remains, tail[i..]);
    }
  }

  class SqlAlchemyOutboxStorageStrategy {
    const filterer: RawEvent -> bool
    const maxAttempts: nat
    var rows: seq<Row>
    var nextId: nat

    ghost predicate Valid()
      reads this
    {
      maxAttempts >= 1 && OneRowPerId(rows) && IdsBelow(rows, nextId)
    }

    method PutIntoOutbox(records: seq<RecordedRaw>)
      requires Valid()
      modifies this
      ensures Valid()
      ensures rows == old(rows) + NewRows(Filter(Accepts(filterer), records), old(nextId), maxAttempts)
      ensures nextId == old(nextId) + |rows| - |old(rows)|
    {
      var added: seq<Row> := [];
      ghost var passed: seq<RecordedRaw> := [];
      for i := 0 to |records|
        modifies {}
        invariant passed == Filter(Accepts(filterer), records[..i])
        invariant added == NewRows(passed, nextId, maxAttempts)
      {
        FilterConcat(Accepts(filterer), records[..i], [records[i]]);
        assert records[..i + 1] == records[..i] + [records[i]];
        assert Filter(Accepts(filterer), [records[i]]) == if filterer(records[i].entry) then [records[i]] else [];
        if filterer(records[i].entry) {
          added := added + [Row(nextId + |added|, Rebuilt(records[i]), maxAttempts)];
          passed := passed + [records[i]];
        }
      }
      assert records[..|records|] == records;
      AddedKeepIds(rows, nextId, added);
      rows, nextId := rows + added, nextId + |added|;
    }

    // The row of the fetched entry loses a try, or is deleted.
    method PublishContext(e: Row, ok: bool)
      requires Valid() && Live(e) && e in rows
      modifies `rows
      ensures Valid() && rows == Replace(old(rows), e.id, SettleRow(e, ok))
    {
      var i := 0;
      while rows[i].id != e.id
        modifies {}
        invariant i < |rows| && e in rows[i..]
        decreases |rows| - i
      {
        assert rows[i..] == [rows[i]] + rows[i + 1..];
        i := i + 1;
      }
      SameIdSameRow(rows, i, e);
      ReplaceAt(rows, i, SettleRow(e, ok));
      SettledTable(rows, i, ok, nextId);
      assert rows[..i] + [] + rows[i + 1..] == rows[..i] + rows[i + 1..];
      assert forall x :: rows[i := x] == rows[..i] + [x] + rows[i + 1..];
      if ok {
        rows := rows[..i] + rows[i + 1..];
      } else {
        rows := rows[i := rows[i].(triesLeft := rows[i].triesLeft - 1)];
      }
    }

    method Run(limit: nat, publish: nat -> bool) returns (attempts: seq<Attempt>)
      requires Valid()
      modifies `rows
      ensures Valid()
      ensures var answers := Answers(publish, Min(limit, |LiveRows(old(rows))|));
              rows == SweepRows(old(rows), answers) &&
              attempts == CallsFor(LiveRows(old(rows)), answers)
      ensures |attempts| == if limit < |LiveRows(old(rows))| then limit else |LiveRows(old(rows))|
    {
      hide OneRowPerId, IdsBelow, SettleRow;
      var live := LiveRows(rows);
      var batch := live[..Min(limit, |live|)];
      ghost var was, answers := rows, Answers(publish, |batch|);
      attempts := [];
      for i := 0 to |batch|
        invariant Valid()
        invariant rows == SweepRows(was, answers[..i])
        invariant attempts == CallsFor(live, answers[..i])
      {
        var ok := publish(i);
        SweepRowsStep(was, answers[..i], ok);
        CallsForSnoc(live, answers, i);
        assert answers[..i + 1] == answers[..i] + [ok];
        PublishContext(batch[i], ok);
        attempts := attempts + [Attempt(batch[i].record, ok)];
      }
      assert answers[..|batch|] == answers;
    }
  }

  /******* Simulation *******/

  // The list the in-memory outbox would hold: live rows, failures counted upwards.
  function AsEntries(rows: seq<Row>, max: nat): seq<Entry>
    requires forall r :: r in rows ==> r.triesLeft <= max
  {
    if rows == [] then []
    else (if Live(rows[0]) then [Entry(rows[0].record, max - rows[0].triesLeft)] else []) + AsEntries(rows[1..], max)
  }

  function RebuiltEntries(entries: seq<Entry>): (r: seq<Entry>)
    ensures |r| == |entries|
    ensures forall i :: 0 <= i < |r| ==> r[i] == Entry(Rebuilt(entries[i].record), entries[i].failures)
  {
    Map((e: Entry) => Entry(Rebuilt(e.record), e.failures), entries)
  }

  function RebuiltAttempts(attempts: seq<Attempt>): (r: seq<Attempt>)
    ensures |r| == |attempts|
    ensures forall i :: 0 <= i < |r| ==> r[i] == Attempt(Rebuilt(attempts[i].record), attempts[i].ok)
  {
    Map((a: Attempt) => Attempt(Rebuilt(a.record), a.ok), attempts)
  }

  ghost predicate Simulates(rows: seq<Row>, entries: seq<Entry>, max: nat) {
    && (forall r :: r in rows ==> r.triesLeft <= max)
    && AsEntries(rows, max) == RebuiltEntries(entries)
  }

  lemma {:induction false} AsEntriesConcat(a: seq<Row>, b: seq<Row>, max: nat)
    requires forall r :: r in a + b ==> r.triesLeft <= max
    ensures AsEntries(a + b, max) == AsEntries(a, max) + AsEntries(b, max)
  {
    if a == [] {
      assert a + b == b;
    } else {
      var rest := a[1..] + b;
      assert (a + b)[1..] == rest && (a + b)[0] == a[0];
      assert forall r :: r in rest ==> r in a + b;
      AsEntriesConcat(a[1..], b, max);
      var head := if Live(a[0]) then [Entry(a[0].record, max - a[0].triesLeft)] else [];
      Assoc(head, AsEntries(a[1..], max), AsEntries(b, max));
    }
  }

  lemma {:induction false} LiveRowsAsEntries(rows: seq<Row>, max: nat)
    requires forall r :: r in rows ==> r.triesLeft <= max
    ensures |AsEntries(rows, max)| == |LiveRows(rows)|
    ensures forall i :: 0 <= i < |LiveRows(rows)| ==> AsEntries(rows, max)[i].record == LiveRows(rows)[i].record
  {
    if rows != [] {
      LiveRowsAsEntries(rows[1..], max);
    }
  }

  lemma {:induction false} SweepRowsBounded(rows: seq<Row>, answers: seq<bool>, max: nat)
    requires forall r :: r in rows ==> r.triesLeft <= max
    requires |answers| <= |LiveRows(rows)|
    ensures forall r :: r in SweepRows(rows, answers) ==> r.triesLeft <= max
    decreases |rows|
  {
    if answers != [] {
      SweepRowsBounded(rows[1..], if Live(rows[0]) then answers[1..] else answers, max);
    }
  }

  // Row by row, the table sweep is the list sweep.
  lemma {:induction false} SweepsAgree(rows: seq<Row>, answers: seq<bool>, max: nat)
    requires forall r :: r in rows ==> r.triesLeft <= max
    requires |answers| <= |LiveRows(rows)| == |AsEntries(rows, max)|
    requires forall r :: r in SweepRows(rows, answers) ==> r.triesLeft <= max
    ensures AsEntries(SweepRows(rows, answers), max) == Sweep(AsEntries(rows, max), answers, max)
    decreases |rows|
  {
    if answers == [] {
      assert Sweep(AsEntries(rows, max), [], max) == AsEntries(rows, max);
    } else {
      var later := if Live(rows[0]) then answers[1..] else answers;
      LiveRowsAsEntries(rows[1..], max);
      SweepRowsBounded(rows[1..], later, max);
      SweepsAgree(rows[1..], later, max);
      if Live(rows[0]) {
        LiveRowSwept(rows, answers, max);
      } else {
        AsEntriesConcat([rows[0]], SweepRows(rows[1..], answers), max);
        assert AsEntries(rows, max) == AsEntries(rows[1..], max);
      }
    }
  }

  lemma {:induction false} LiveRowSwept(rows: seq<Row>, answers: seq<bool>, max: nat)
    requires rows != [] && Live(rows[0]) && forall r :: r in rows ==> r.triesLeft <= max
    requires 0 < |answers| <= |LiveRows(rows)| && |LiveRows(rows[1..])| == |AsEntries(rows[1..], max)|
    requires forall r :: r in SweepRows(rows[1..], answers[1..]) ==> r.triesLeft <= max
    requires AsEntries(SweepRows(rows[1..], answers[1..]), max) == Sweep(AsEntries(rows[1..], max), answers[1..], max)
    ensures |answers| <= |AsEntries(rows, max)|
    ensures forall r :: r in SweepRows(rows, answers) ==> r.triesLeft <= max
    ensures AsEntries(SweepRows(rows, answers), max) == Sweep(AsEntries(rows, max), answers, max)
  {
    hide Sweep;
    var rest, swept := AsEntries(rows[1..], max), SweepRows(rows[1..], answers[1..]);
    var e := Entry(rows[0].record, max - rows[0].triesLeft);
    assert AsEntries(rows, max) == [e] + rest;
    SweepCons(e, rest, answers, max);
    AsEntriesConcat(SettleRow(rows[0], answers[0]), swept, max);
    assert AsEntries(SettleRow(rows[0], answers[0]), max) == Settle(e, answers[0], max);
  }

  lemma {:induction false} SweepCons(e: Entry, rest: seq<Entry>, answers: seq<bool>, max: nat)
    requires 0 < |answers| <= 1 + |rest|
    ensures Sweep([e] + rest, answers, max) == Settle(e, answers[0], max) + Sweep(rest, answers[1..], max)
  {
    var n := |answers|;
    assert ([e] + rest)[..n] == [e] + rest[..n - 1] && ([e] + rest)[n..] == rest[n - 1..];
    assert ([e] + rest[..n - 1])[1..] == rest[..n - 1];
  }

  lemma {:induction false} RebuiltConcat(a: seq<Entry>, b: seq<Entry>)
    ensures RebuiltEntries(a + b) == RebuiltEntries(a) + RebuiltEntries(b)
  {
  }

  lemma {:induction false} RebuiltSlices(entries: seq<Entry>, n: nat)
    requires n <= |entries|
    ensures RebuiltEntries(entries)[..n] == RebuiltEntries(entries[..n])
    ensures RebuiltEntries(entries)[n..] == RebuiltEntries(entries[n..])
  {
  }

  lemma {:induction false} RebuiltSurvivors(batch: seq<Entry>, answers: seq<bool>, max: nat)
    requires |batch| == |answers|
    ensures Survivors(RebuiltEntries(batch), answers, max) == RebuiltEntries(Survivors(batch, answers, max))
  {
    if batch != [] {
      RebuiltSurvivors(batch[1..], answers[1..], max);
      RebuiltSlices(batch, 1);
      RebuiltConcat(Settle(batch[0], answers[0], max), Survivors(batch[1..], answers[1..], max));
    }
  }

  lemma {:induction false} RebuiltSweep(entries: seq<Entry>, answers: seq<bool>, max: nat)
    requires |answers| <= |entries|
    ensures Sweep(RebuiltEntries(entries), answers, max) == RebuiltEntries(Sweep(entries, answers, max))
  {
    hide Survivors, RebuiltEntries;
    var n := |answers|;
    RebuiltSurvivors(entries[..n], answers, max);
    RebuiltSlices(entries, n);
    RebuiltConcat(Survivors(entries[..n], answers, max), entries[n..]);
  }

  // One run from related states: related states, and the same publish calls.
  lemma {:induction false} RunsSimulate(rows: seq<Row>, entries: seq<Entry>, limit: nat, publish: nat -> bool, max: nat)
    requires Simulates(rows, entries, max)
    ensures |LiveRows(rows)| == |entries|
    ensures var answers := Answers(publish, Min(limit, |entries|));
            && Simulates(SweepRows(rows, answers), Sweep(entries, answers, max), max)
            && CallsFor(LiveRows(rows), answers) == RebuiltAttempts(Calls(entries, answers))
  {
    LiveRowsAsEntries(rows, max);
    var answers := Answers(publish, Min(limit, |entries|));
    SweepRowsBounded(rows, answers, max);
    SweepsAgree(rows, answers, max);
    RebuiltSweep(entries, answers, max);
    CallsAgree(rows, entries, answers, max);
  }

  lemma {:induction false} CallsAgree(rows: seq<Row>, entries: seq<Entry>, answers: seq<bool>, max: nat)
    requires Simulates(rows, entries, max) && |answers| <= |entries| == |LiveRows(rows)|
    ensures CallsFor(LiveRows(rows), answers) == RebuiltAttempts(Calls(entries, answers))
  {
    LiveRowsAsEntries(rows, max);
    forall i | 0 <= i < |answers|
      ensures LiveRows(rows)[i].record == Rebuilt(entries[i].record)
    {
      assert AsEntries(rows, max)[i] == RebuiltEntries(entries)[i];
    }
  }

  lemma {:induction false} PutsSimulate(rows: seq<Row>, entries: seq<Entry>, passed: seq<RecordedRaw>, firstId: nat,
                                        max: nat)
    requires max >= 1 && Simulates(rows, entries, max)
    ensures Simulates(rows + NewRows(passed, firstId, max), entries + Fresh(passed), max)
  {
    AsEntriesConcat(rows, NewRows(passed, firstId, max), max);
    NewRowsAsEntries(passed, firstId, max);
    RebuiltConcat(entries, Fresh(passed));
  }

  lemma {:induction false} NewRowsAsEntries(passed: seq<RecordedRaw>, firstId: nat, max: nat)
    requires max >= 1
    ensures AsEntries(NewRows(passed, firstId, max), max) == RebuiltEntries(Fresh(passed))
  {
    if passed != [] {
      NewRowsAsEntries(passed[1..], firstId + 1, max);
      assert NewRows(passed, firstId, max)[1..] == NewRows(passed[1..], firstId + 1, max);
      assert RebuiltEntries(Fresh(passed))[1..] == RebuiltEntries(Fresh(passed[1..]));
    }
  }

  datatype Table = Table(rows: seq<Row>, nextId: nat, attempts: seq<Attempt>)

  function TableStep(t: Table, op: OutboxOp, filterer: RawEvent -> bool, max: nat): Table {
    match op
    case Put(records) =>
      var added := NewRows(Filter(Accepts(filterer), records), t.nextId, max);
      Table(t.rows + added, t.nextId + |added|, t.attempts)
    case RunOnce(limit, publish) =>
      var live := LiveRows(t.rows);
      var answers := Answers(publish, Min(limit, |live|));
      Table(SweepRows(t.rows, answers), t.nextId, t.attempts + CallsFor(live, answers))
  }

  function PlayTable(t: Table, ops: seq<OutboxOp>, filterer: RawEvent -> bool, max: nat): Table
    decreases |ops|
  {
    if ops == [] then t else PlayTable(TableStep(t, ops[0], filterer, max), ops[1..], filterer, max)
  }

  ghost predicate TableSimulates(t: Table, l: Ledger, max: nat) {
    && Simulates(t.rows, l.entries, max)
    && t.attempts == RebuiltAttempts(l.attempts)
    && OneRowPerId(t.rows) && IdsBelow(t.rows, t.nextId)
  }

  lemma {:induction false} RebuiltAttemptsConcat(a: seq<Attempt>, b: seq<Attempt>)
    ensures RebuiltAttempts(a + b) == RebuiltAttempts(a) + RebuiltAttempts(b)
  {
  }

  lemma {:induction false} TableStepSimulates(t: Table, l: Ledger, op: OutboxOp, filterer: RawEvent -> bool, max: nat)
    requires max >= 1 && TableSimulates(t, l, max)
    ensures TableSimulates(TableStep(t, op, filterer, max), Step(l, op, filterer, max), max)
  {
    match op
    case Put(records) =>
      PutsSimulate(t.rows, l.entries, Filter(Accepts(filterer), records), t.nextId, max);
      AddedKeepIds(t.rows, t.nextId, NewRows(Filter(Accepts(filterer), records), t.nextId, max));
    case RunOnce(limit, publish) =>
      RunsSimulate(t.rows, l.entries, limit, publish, max);
      SweepKeepsIds(t.rows, Answers(publish, Min(limit, |LiveRows(t.rows)|)), t.nextId);
      RebuiltAttemptsConcat(l.attempts, Calls(l.entries, Answers(publish, Min(limit, |l.entries|))));
  }

  // Over any history both outboxes make the same calls, up to the identifier the
  // table rebuilds, and the table's live rows are the list.
  lemma {:induction false} OutboxesSimulate(t: Table, l: Ledger, ops: seq<OutboxOp>, filterer: RawEvent -> bool,
                                            max: nat)
    requires max >= 1 && TableSimulates(t, l, max)
    ensures TableSimulates(PlayTable(t, ops, filterer, max), Play(l, ops, filterer, max), max)
    decreases |ops|
  {
    if ops != [] {
      TableStepSimulates(t, l, ops[0], filterer, max);
      OutboxesSimulate(TableStep(t, ops[0], filterer, max), Step(l, ops[0], filterer, max), ops[1..], filterer, max);
    }
  }
}
