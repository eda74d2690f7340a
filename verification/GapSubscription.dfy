/**
 Subscription over a table whose row ids are drawn at insert but become visible at
 commit, possibly out of order, while a cursor polls.
 */
module GapSubscription {
  import opened Wrappers
  import opened Seqs
  import opened Events
  import opened Outbox
  import opened InMemorySubscription

  datatype Status = Open | Committed | RolledBack

  // The row with id i + 1 sits at index i.
  datatype Slot = Slot(row: RecordedRaw, status: Status)

  // An absent category is stored as the empty string.
  predicate Matches(sel: Selector, r: RecordedRaw) {
    match sel
    case ToAll => true
    case ToCategory(c) => CategoryText(r.entry.stream.key.category) == c
    case ToTypes(names) => r.entry.name in names
  }

  predicate Visible(sel: Selector, slot: Slot) {
    slot.status == Committed && Matches(sel, slot.row)
  }

  // Visible rows in id order.
  function Select(slots: seq<Slot>, sel: Selector): seq<RecordedRaw> {
    Map((slot: Slot) => slot.row, Filter((slot: Slot) => Visible(sel, slot), slots))
  }

  lemma {:induction false} SelectOneMore(slots: seq<Slot>, sel: Selector)
    requires slots != []
    ensures Select(slots, sel) == (if Visible(sel, slots[0]) then [slots[0].row] else []) + Select(slots[1..], sel)
  {
  }

  function Above(slots: seq<Slot>, position: nat): seq<Slot> {
    if position <= |slots| then slots[position..] else []
  }

  // where id > position order by id limit size
  function GetBatch(slots: seq<Slot>, position: nat, size: nat, sel: Selector): seq<RecordedRaw> {
    var rows := Select(Above(slots, position), sel);
    if |rows| <= size then rows else rows[..size]
  }

  predicate IsContinuous(batch: seq<RecordedRaw>) {
    |batch| >= 2 && batch[|batch| - 1].position - batch[0].position + 1 == |batch|
  }

  predicate Ready(batch: seq<RecordedRaw>, size: nat) {
    IsContinuous(batch) && |batch| == size
  }

  function Moved(position: nat, batch: seq<RecordedRaw>): nat {
    if batch == [] then position else batch[|batch| - 1].position
  }

  class Cursor {
    var position: nat

    constructor (position: nat)
      ensures this.position == position
    {
      this.position := position;
    }

    method Advance(batch: seq<RecordedRaw>)
      modifies this
      ensures position == Moved(old(position), batch)
    {
      if |batch| > 0 {
        position := batch[|batch| - 1].position;
      }
    }
  }

  class GapDetectingIterator {
    const cursor: Cursor
    const batchSize: nat
    const selector: Selector

    constructor (startFrom: nat, batchSize: nat, selector: Selector)
      ensures fresh(cursor) && cursor.position == startFrom
      ensures this.batchSize == batchSize && this.selector == selector
    {
      cursor := new Cursor(startFrom);
      this.batchSize, this.selector := batchSize, selector;
    }

    // The i-th query sees the table views(i); `expires` is the first round the time limit is over.
    method Next(views: nat -> seq<Slot>, expires: nat) returns (batch: seq<RecordedRaw>, ghost round: nat)
      modifies cursor
      ensures batch == GetBatch(views(round), old(cursor.position), batchSize, selector)
      ensures cursor.position == Moved(old(cursor.position), batch)
      ensures Ready(batch, batchSize) || round == expires
      ensures round <= expires
      ensures forall i :: 0 <= i < round ==>
                !Ready(GetBatch(views(i), old(cursor.position), batchSize, selector), batchSize)
    {
      hide GetBatch, Moved;
      var i := 0;
      while true
        invariant i <= expires && cursor.position == old(cursor.position)
        invariant forall j :: 0 <= j < i ==>
                    !Ready(GetBatch(views(j), old(cursor.position), batchSize, selector), batchSize)
        decreases expires - i
      {
        batch := GetBatch(views(i), cursor.position, batchSize, selector);
        if IsContinuous(batch) && |batch| == batchSize {
          cursor.Advance(batch);
          return batch, i;
        } else if i == expires {
          cursor.Advance(batch);
          return batch, i;
        }
        i := i + 1;
      }
    }
  }

  /******* Runs of writers and one reader *******/

  datatype Step =
    | Allocate(event: RawEvent, tenant: string)
    | Commit(ids: set<nat>)
    | Abort(ids: set<nat>)
    | Poll(timedOut: bool)

  datatype State = State(slots: seq<Slot>, cursor: nat, delivered: seq<RecordedRaw>)

  function Settled(slots: seq<Slot>, ids: set<nat>, status: Status): (r: seq<Slot>)
    ensures |r| == |slots|
  {
    seq(|slots|, i requires 0 <= i < |slots| =>
      if i + 1 in ids && slots[i].status == Open then Slot(slots[i].row, status) else slots[i])
  }

  function Next(s: State, step: Step, size: nat, sel: Selector): State {
    match step
    case Allocate(event, tenant) =>
      s.(slots := s.slots + [Slot(RecordedRaw(event, |s.slots| + 1, tenant), Open)])
    case Commit(ids) => s.(slots := Settled(s.slots, ids, Committed))
    case Abort(ids) => s.(slots := Settled(s.slots, ids, RolledBack))
    case Poll(timedOut) =>
      var batch := GetBatch(s.slots, s.cursor, size, sel);
      if Ready(batch, size) || timedOut then State(s.slots, Moved(s.cursor, batch), s.delivered + batch) else s
  }

  // The state after the first k steps.
  function At(start: nat, steps: seq<Step>, k: nat, size: nat, sel: Selector): State
    requires k <= |steps|
  {
    if k == 0 then State([], start, [])
    else Next(At(start, steps, k - 1, size, sel), steps[k - 1], size, sel)
  }

  ghost predicate Numbered(slots: seq<Slot>, offset: nat) {
    forall i :: 0 <= i < |slots| ==> slots[i].row.position == offset + i + 1
  }

  function Row(slots: seq<Slot>, id: nat): RecordedRaw
    requires 0 < id <= |slots|
  {
    slots[id - 1].row
  }

  predicate Seen(slots: seq<Slot>, sel: Selector, id: nat) {
    0 < id <= |slots| && Visible(sel, slots[id - 1])
  }

  ghost predicate Held(slots: seq<Slot>, sel: Selector, r: RecordedRaw) {
    Seen(slots, sel, r.position) && Row(slots, r.position) == r
  }

  ghost predicate Reached(s: State, start: nat, sel: Selector) {
    && Numbered(s.slots, 0)
    && start <= s.cursor && (start < s.cursor ==> s.cursor <= |s.slots|)
    && Increasing(s.delivered)
    && forall r :: r in s.delivered ==> start < r.position <= s.cursor && Held(s.slots, sel, r)
  }

  // `r` is visible among slots whose first id is offset + 1.
  ghost predicate Has(slots: seq<Slot>, offset: nat, sel: Selector, r: RecordedRaw) {
    var i := r.position - offset - 1;
    0 <= i < |slots| && slots[i].row == r && Visible(sel, slots[i])
  }

  lemma {:induction false} HasCons(slots: seq<Slot>, offset: nat, sel: Selector, r: RecordedRaw)
    requires slots != [] && Numbered(slots, offset)
    ensures Has(slots, offset, sel, r) <==>
            (r == slots[0].row && Visible(sel, slots[0])) || Has(slots[1..], offset + 1, sel, r)
  {
    var i := r.position - offset - 1;
    assert 0 < i < |slots| ==> slots[1..][i - 1] == slots[i];
  }

  lemma {:induction false} SelectsExactly(slots: seq<Slot>, sel: Selector, offset: nat)
    requires Numbered(slots, offset)
    ensures Increasing(Select(slots, sel))
    ensures forall r :: r in Select(slots, sel) <==> Has(slots, offset, sel, r)
  {
    if slots != [] {
      var rest := Select(slots[1..], sel);
      SelectsExactly(slots[1..], sel, offset + 1);
      SelectOneMore(slots, sel);
      forall r
        ensures r in Select(slots, sel) <==> Has(slots, offset, sel, r)
      {
        HasCons(slots, offset, sel, r);
      }
      forall r | r in rest
        ensures slots[0].row.position < r.position
      {
        assert Has(slots[1..], offset + 1, sel, r);
      }
      IncreasingCons(slots[0].row, rest);
      assert [] + rest == rest;
    }
  }

  lemma {:induction false} IncreasingPrefix(rows: seq<RecordedRaw>, n: nat)
    requires Increasing(rows) && 0 < n <= |rows|
    ensures Increasing(rows[..n])
    ensures forall r :: r in rows && r.position <= rows[n - 1].position <==> r in rows[..n]
  {
    forall i, j | 0 <= i < j < n
      ensures Before(rows[..n], i, j)
    {
      assert Before(rows, i, j);
    }
    forall r | r in rows
      ensures r.position <= rows[n - 1].position <==> r in rows[..n]
    {
      var i :| 0 <= i < |rows| && rows[i] == r;
      if i < n {
        assert rows[..n][i] == r;
        assert i < n - 1 ==> Before(rows, i, n - 1);
      } else {
        assert Before(rows, n - 1, i);
        forall j | 0 <= j < n
          ensures rows[..n][j] != r
        {
          assert Before(rows, j, i);
        }
      }
    }
  }

  lemma {:induction false} HasAbove(slots: seq<Slot>, cursor: nat, sel: Selector, r: RecordedRaw)
    requires Numbered(slots, 0)
    ensures Has(Above(slots, cursor), cursor, sel, r) <==> cursor < r.position && Held(slots, sel, r)
  {
    var above, i := Above(slots, cursor), r.position - cursor - 1;
    assert 0 <= i < |above| ==> above[i] == slots[r.position - 1];
  }

  lemma {:induction false} NumberedAbove(slots: seq<Slot>, cursor: nat)
    requires Numbered(slots, 0)
    ensures Numbered(Above(slots, cursor), cursor)
  {
  }

  lemma {:induction false} RowsAbove(slots: seq<Slot>, cursor: nat, sel: Selector)
    requires Numbered(slots, 0)
    ensures var rows := Select(Above(slots, cursor), sel);
            && Increasing(rows)
            && (forall r :: r in rows ==> cursor < r.position <= |slots| && Held(slots, sel, r))
            && (forall id :: cursor < id && Seen(slots, sel, id) ==> Row(slots, id) in rows)
  {
    hide Select, Increasing, Visible, Above, Has;
    var above := Above(slots, cursor);
    var rows := Select(above, sel);
    NumberedAbove(slots, cursor);
    SelectsExactly(above, sel, cursor);
    forall r | r in rows
      ensures cursor < r.position <= |slots| && Held(slots, sel, r)
    {
      HasAbove(slots, cursor, sel, r);
    }
    forall id | cursor < id && Seen(slots, sel, id)
      ensures Row(slots, id) in rows
    {
      HasAbove(slots, cursor, sel, Row(slots, id));
    }
  }

  // A batch is increasing, above the cursor, and holds every visible id it moves over.
  lemma {:induction false} BatchCovers(slots: seq<Slot>, cursor: nat, size: nat, sel: Selector)
    requires Numbered(slots, 0)
    ensures var batch := GetBatch(slots, cursor, size, sel);
            var moved := Moved(cursor, batch);
            && Increasing(batch)
            && cursor <= moved && (cursor < moved ==> moved <= |slots|)
            && (forall r :: r in batch ==> cursor < r.position <= moved && Held(slots, sel, r))
            && (forall id :: cursor < id <= moved && Seen(slots, sel, id) ==> Row(slots, id) in batch)
  {
    hide Select, Above, Held, Seen;
    var rows, batch := Select(Above(slots, cursor), sel), GetBatch(slots, cursor, size, sel);
    RowsAbove(slots, cursor, sel);
    if batch != [] {
      IncreasingPrefix(rows, |batch|);
      assert rows[..|batch|] == batch;
      assert batch[|batch| - 1] in batch;
    }
  }

  lemma {:induction false} StepKeepsReached(s: State, start: nat, step: Step, size: nat, sel: Selector)
    requires Reached(s, start, sel)
    ensures Reached(Next(s, step, size, sel), start, sel)
  {
    if step.Poll? {
      BatchCovers(s.slots, s.cursor, size, sel);
      IncreasingConcat(s.delivered, GetBatch(s.slots, s.cursor, size, sel), s.cursor);
    } else {
      forall r | r in s.delivered
        ensures Held(Next(s, step, size, sel).slots, sel, r)
      {
      }
    }
  }

  // A step never takes an id, a visible row or a delivery back.
  lemma {:induction false} StepOnlyAdds(s: State, step: Step, size: nat, sel: Selector, id: nat)
    requires Numbered(s.slots, 0)
    ensures var s' := Next(s, step, size, sel);
            && s.cursor <= s'.cursor && |s.slots| <= |s'.slots|
            && (0 < id <= |s.slots| ==> Row(s'.slots, id) == Row(s.slots, id))
            && (Seen(s.slots, sel, id) ==> Seen(s'.slots, sel, id))
  {
    hide GetBatch, Increasing, Matches;
    BatchCovers(s.slots, s.cursor, size, sel);
  }

  // Ids the cursor had left behind keep their fate.
  lemma {:induction false} OldFate(s: State, start: nat, step: Step, size: nat, sel: Selector, id: nat)
    requires Reached(s, start, sel) && start < id <= s.cursor
    ensures var s' := Next(s, step, size, sel);
            Row(s'.slots, id) in s'.delivered <==> Row(s.slots, id) in s.delivered
  {
    StepOnlyAdds(s, step, size, sel, id);
    if step.Poll? {
      BatchCovers(s.slots, s.cursor, size, sel);
    }
  }

  // Ids a poll moves over are delivered exactly when they are visible to it.
  lemma {:induction false} NewFate(s: State, start: nat, step: Step, size: nat, sel: Selector, id: nat)
    requires Reached(s, start, sel) && s.cursor < id <= Next(s, step, size, sel).cursor
    ensures step.Poll? && id <= |s.slots|
    ensures var s' := Next(s, step, size, sel);
            s'.slots == s.slots && (Row(s.slots, id) in s'.delivered <==> Seen(s.slots, sel, id))
  {
    var batch := GetBatch(s.slots, s.cursor, size, sel);
    assert step.Poll? && Next(s, step, size, sel) == State(s.slots, Moved(s.cursor, batch), s.delivered + batch);
    BatchCovers(s.slots, s.cursor, size, sel);
    var row := Row(s.slots, id);
    assert row.position == id;
    assert row !in s.delivered;
    assert row in batch ==> Held(s.slots, sel, row);
  }

  lemma {:induction false} AlwaysReached(start: nat, steps: seq<Step>, k: nat, size: nat, sel: Selector)
    requires k <= |steps|
    ensures Reached(At(start, steps, k, size, sel), start, sel)
  {
    if k > 0 {
      AlwaysReached(start, steps, k - 1, size, sel);
      StepKeepsReached(At(start, steps, k - 1, size, sel), start, steps[k - 1], size, sel);
    }
  }

  // Completeness: of the ids the cursor has moved over, those were delivered that were
  // visible when the poll moved it over them. What was missed became visible later.
  lemma {:induction false} DeliveredIffVisibleInTime(start: nat, steps: seq<Step>, k: nat, size: nat, sel: Selector,
                                                     id: nat)
    returns (j: nat)
    requires k <= |steps| && start < id <= At(start, steps, k, size, sel).cursor
    ensures j < k && steps[j].Poll?
    ensures At(start, steps, j, size, sel).cursor < id <= At(start, steps, j + 1, size, sel).cursor
    ensures var now, then' := At(start, steps, k, size, sel), At(start, steps, j, size, sel);
            && id <= |now.slots|
            && (Row(now.slots, id) in now.delivered <==> Seen(then'.slots, sel, id))
  {
    hide Next, Seen;
    var before, last := At(start, steps, k - 1, size, sel), steps[k - 1];
    AlwaysReached(start, steps, k - 1, size, sel);
    if id <= before.cursor {
      j := DeliveredIffVisibleInTime(start, steps, k - 1, size, sel, id);
      StepOnlyAdds(before, last, size, sel, id);
      OldFate(before, start, last, size, sel, id);
    } else {
      j := k - 1;
      NewFate(before, start, last, size, sel, id);
    }
  }

  lemma {:induction false} SettledIsFinal(s: State, step: Step, size: nat, sel: Selector, id: nat)
    requires 0 < id <= |s.slots| && s.slots[id - 1].status != Open
    ensures var s' := Next(s, step, size, sel);
            id <= |s'.slots| && s'.slots[id - 1] == s.slots[id - 1]
  {
    hide GetBatch;
  }

  lemma {:induction false} AbortRollsBack(s: State, step: Step, size: nat, sel: Selector, id: nat)
    requires step.Abort? && id in step.ids && 0 < id <= |s.slots| && s.slots[id - 1].status == Open
    ensures var s' := Next(s, step, size, sel);
            id <= |s'.slots| && s'.slots[id - 1].status == RolledBack
  {
    hide GetBatch;
  }

  lemma {:induction false} StaysRolledBack(start: nat, steps: seq<Step>, j: nat, k: nat, size: nat, sel: Selector,
                                           id: nat)
    requires j < k <= |steps| && steps[j].Abort? && id in steps[j].ids
    requires 0 < id <= |At(start, steps, j, size, sel).slots|
    requires At(start, steps, j, size, sel).slots[id - 1].status == Open
    ensures var now := At(start, steps, k, size, sel);
            id <= |now.slots| && now.slots[id - 1].status == RolledBack
  {
    if j == k - 1 {
      AbortRollsBack(At(start, steps, j, size, sel), steps[j], size, sel, id);
      hide Next;
    } else {
      StaysRolledBack(start, steps, j, k - 1, size, sel, id);
      hide Next;
      SettledIsFinal(At(start, steps, k - 1, size, sel), steps[k - 1], size, sel, id);
    }
  }

  // What was rolled back is never delivered.
  lemma {:induction false} AbortedIsNotDelivered(start: nat, steps: seq<Step>, j: nat, k: nat, size: nat, sel: Selector,
                                                 id: nat)
    requires j < k <= |steps| && steps[j].Abort? && id in steps[j].ids
    requires 0 < id <= |At(start, steps, j, size, sel).slots|
    requires At(start, steps, j, size, sel).slots[id - 1].status == Open
    ensures forall r :: r in At(start, steps, k, size, sel).delivered ==> r.position != id
  {
    StaysRolledBack(start, steps, j, k, size, sel, id);
    AlwaysReached(start, steps, k, size, sel);
    hide At, Increasing;
  }

  // A commit that makes an id visible which the cursor has already left behind.
  ghost predicate Late(s: State, start: nat, step: Step, sel: Selector, id: nat) {
    && step.Commit? && id in step.ids && start < id <= s.cursor && id <= |s.slots|
    && s.slots[id - 1].status == Open && Matches(sel, Row(s.slots, id))
  }

  ghost predicate InTime(s: State, start: nat, step: Step, sel: Selector) {
    forall id :: !Late(s, start, step, sel, id)
  }

  ghost predicate OnTime(start: nat, steps: seq<Step>, j: nat, size: nat, sel: Selector)
    requires j < |steps|
  {
    InTime(At(start, steps, j, size, sel), start, steps[j], sel)
  }

  ghost predicate Complete(s: State, start: nat, sel: Selector) {
    forall id :: start < id <= s.cursor && Seen(s.slots, sel, id) ==> Row(s.slots, id) in s.delivered
  }

  // Completeness survives a step exactly when the step is not a late commit, and never comes back.
  lemma {:induction false} CompleteStep(s: State, start: nat, step: Step, size: nat, sel: Selector)
    requires Reached(s, start, sel)
    ensures Complete(Next(s, step, size, sel), start, sel) <==> Complete(s, start, sel) && InTime(s, start, step, sel)
  {
    if Complete(Next(s, step, size, sel), start, sel) {
      WasComplete(s, start, step, size, sel);
      WasInTime(s, start, step, size, sel);
    }
    if Complete(s, start, sel) && InTime(s, start, step, sel) {
      StaysComplete(s, start, step, size, sel);
    }
  }

  lemma {:induction false} WasComplete(s: State, start: nat, step: Step, size: nat, sel: Selector)
    requires Reached(s, start, sel) && Complete(Next(s, step, size, sel), start, sel)
    ensures Complete(s, start, sel)
  {
    forall id: nat | start < id <= s.cursor && Seen(s.slots, sel, id)
      ensures Row(s.slots, id) in s.delivered
    {
      StepOnlyAdds(s, step, size, sel, id);
      OldFate(s, start, step, size, sel, id);
    }
  }

  lemma {:induction false} WasInTime(s: State, start: nat, step: Step, size: nat, sel: Selector)
    requires Reached(s, start, sel) && Complete(Next(s, step, size, sel), start, sel)
    ensures InTime(s, start, step, sel)
  {
    forall id: nat
      ensures !Late(s, start, step, sel, id)
    {
      if start < id <= s.cursor && id <= |s.slots| {
        OldFate(s, start, step, size, sel, id);
        assert Late(s, start, step, sel, id) ==> Seen(Next(s, step, size, sel).slots, sel, id);
        assert Row(s.slots, id) in s.delivered ==> Held(s.slots, sel, Row(s.slots, id));
      }
    }
  }

  lemma {:induction false} StaysComplete(s: State, start: nat, step: Step, size: nat, sel: Selector)
    requires Reached(s, start, sel) && Complete(s, start, sel) && InTime(s, start, step, sel)
    ensures Complete(Next(s, step, size, sel), start, sel)
  {
    var s' := Next(s, step, size, sel);
    forall id: nat | start < id <= s'.cursor && Seen(s'.slots, sel, id)
      ensures Row(s'.slots, id) in s'.delivered
    {
      if s.cursor < id {
        NewFate(s, start, step, size, sel, id);
      } else {
        OldFate(s, start, step, size, sel, id);
        assert !Late(s, start, step, sel, id);
        assert Seen(s.slots, sel, id);
      }
    }
  }

  lemma {:induction false} SameMembersSameOrder(a: seq<RecordedRaw>, b: seq<RecordedRaw>)
    requires Increasing(a) && Increasing(b) && forall r :: r in a <==> r in b
    ensures a == b
  {
    if a != [] && b != [] {
      assert a[0] in a && b[0] in b;
      IncreasingTail(a);
      IncreasingTail(b);
      assert a[0] == b[0];
      forall r
        ensures r in a[1..] <==> r in b[1..]
      {
        assert r in a <==> r == a[0] || r in a[1..];
        assert r in b <==> r == b[0] || r in b[1..];
      }
      SameMembersSameOrder(a[1..], b[1..]);
    } else {
      SameEmptiness(a, b);
      SameEmptiness(b, a);
    }
  }

  lemma {:induction false} SameEmptiness(a: seq<RecordedRaw>, b: seq<RecordedRaw>)
    requires forall r :: r in b ==> r in a
    ensures b != [] ==> a != []
  {
    if b != [] {
      assert b[0] in b;
    }
  }

  // The visible part of the table between two cursor values.
  function Log(slots: seq<Slot>, from: nat, to: nat, sel: Selector): seq<RecordedRaw> {
    if from <= to <= |slots| then Select(slots[from..to], sel) else []
  }

  lemma {:induction false} LogMember(slots: seq<Slot>, from: nat, to: nat, sel: Selector, r: RecordedRaw)
    requires Numbered(slots, 0) && from <= to && (from < to ==> to <= |slots|)
    ensures r in Log(slots, from, to, sel) <==> from < r.position <= to && Held(slots, sel, r)
  {
    if to <= |slots| {
      var range := slots[from..to];
      SelectsExactly(range, sel, from);
      assert 0 < r.position - from <= |range| ==> range[r.position - from - 1] == slots[r.position - 1];
      assert r in Log(slots, from, to, sel) <==> Has(range, from, sel, r);
    }
  }

  lemma {:induction false} CompleteIsWholeLog(s: State, start: nat, sel: Selector)
    requires Reached(s, start, sel)
    ensures Complete(s, start, sel) <==> s.delivered == Log(s.slots, start, s.cursor, sel)
  {
    var log := Log(s.slots, start, s.cursor, sel);
    if Complete(s, start, sel) {
      forall r
        ensures r in log <==> r in s.delivered
      {
        LogMember(s.slots, start, s.cursor, sel, r);
        if start < r.position <= s.cursor && Held(s.slots, sel, r) {
          assert Row(s.slots, r.position) in s.delivered;
        }
      }
      if s.cursor <= |s.slots| {
        SelectsExactly(s.slots[start..s.cursor], sel, start);
      }
      SameMembersSameOrder(s.delivered, log);
    } else {
      var id: nat :| start < id <= s.cursor && Seen(s.slots, sel, id) && Row(s.slots, id) !in s.delivered;
      LogMember(s.slots, start, s.cursor, sel, Row(s.slots, id));
      assert Held(s.slots, sel, Row(s.slots, id));
    }
  }

  // None of the first k steps was a late commit.
  ghost predicate NoneLate(start: nat, steps: seq<Step>, k: nat, size: nat, sel: Selector)
    requires k <= |steps|
  {
    forall j: nat :: j < k ==> OnTime(start, steps, j, size, sel)
  }

  lemma {:induction false} NoneLateOneMore(start: nat, steps: seq<Step>, k: nat, size: nat, sel: Selector)
    requires 0 < k <= |steps|
    ensures NoneLate(start, steps, k, size, sel) <==>
            NoneLate(start, steps, k - 1, size, sel) && OnTime(start, steps, k - 1, size, sel)
  {
    hide OnTime;
  }

  lemma {:induction false} CompleteAtFirst(start: nat, steps: seq<Step>, size: nat, sel: Selector)
    ensures Complete(At(start, steps, 0, size, sel), start, sel) && NoneLate(start, steps, 0, size, sel)
  {
  }

  lemma {:induction false} CompleteIffInTime(start: nat, steps: seq<Step>, k: nat, size: nat, sel: Selector)
    requires k <= |steps|
    ensures Complete(At(start, steps, k, size, sel), start, sel) <==> NoneLate(start, steps, k, size, sel)
  {
    hide Next, Complete, Reached, InTime, NoneLate;
    if k == 0 {
      CompleteAtFirst(start, steps, size, sel);
    } else {
      CompleteIffInTime(start, steps, k - 1, size, sel);
      AlwaysReached(start, steps, k - 1, size, sel);
      CompleteStep(At(start, steps, k - 1, size, sel), start, steps[k - 1], size, sel);
      NoneLateOneMore(start, steps, k, size, sel);
    }
  }

  // Delivery is exactly the filtered log if and only if no commit came late.
  lemma {:induction false} ExactIffNoLateCommit(start: nat, steps: seq<Step>, k: nat, size: nat, sel: Selector)
    requires k <= |steps|
    ensures var now := At(start, steps, k, size, sel);
            now.delivered == Log(now.slots, start, now.cursor, sel) <==> NoneLate(start, steps, k, size, sel)
  {
    AlwaysReached(start, steps, k, size, sel);
    CompleteIsWholeLog(At(start, steps, k, size, sel), start, sel);
    CompleteIffInTime(start, steps, k, size, sel);
  }

  ghost predicate Commits(s: State, step: Step, id: nat) {
    step.Commit? && id in step.ids && 0 < id <= |s.slots| && s.slots[id - 1].status == Open
  }

  // Commits happen in id order when each makes visible only ids above those committed before.
  ghost predicate InIdOrder(s: State, step: Step) {
    forall id: nat, done: nat :: Commits(s, step, id) && Seen(s.slots, ToAll, done) ==> done < id
  }

  lemma {:induction false} IdOrderIsExact(start: nat, steps: seq<Step>, k: nat, size: nat, sel: Selector)
    requires k <= |steps|
    requires forall j :: 0 <= j < k ==> InIdOrder(At(start, steps, j, size, sel), steps[j])
    ensures var now := At(start, steps, k, size, sel);
            now.delivered == Log(now.slots, start, now.cursor, sel)
  {
    forall j: nat | j < k
      ensures OnTime(start, steps, j, size, sel)
    {
      CursorIsVisible(start, steps, j, size, sel);
      OrderedIsInTime(At(start, steps, j, size, sel), start, steps[j], sel);
    }
    ExactIffNoLateCommit(start, steps, k, size, sel);
  }

  lemma {:induction false} OrderedIsInTime(s: State, start: nat, step: Step, sel: Selector)
    requires InIdOrder(s, step) && (start < s.cursor ==> Seen(s.slots, ToAll, s.cursor))
    ensures InTime(s, start, step, sel)
  {
    forall id: nat
      ensures !Late(s, start, step, sel, id)
    {
      assert Late(s, start, step, sel, id) ==> Commits(s, step, id);
    }
  }

  lemma {:induction false} CursorIsVisible(start: nat, steps: seq<Step>, k: nat, size: nat, sel: Selector)
    requires k <= |steps|
    ensures var now := At(start, steps, k, size, sel);
            start < now.cursor ==> Seen(now.slots, ToAll, now.cursor)
  {
    hide Next, Reached;
    if k > 0 {
      CursorIsVisible(start, steps, k - 1, size, sel);
      AlwaysReached(start, steps, k - 1, size, sel);
      CursorStaysVisible(At(start, steps, k - 1, size, sel), start, steps[k - 1], size, sel);
    }
  }

  lemma {:induction false} CursorStaysVisible(s: State, start: nat, step: Step, size: nat, sel: Selector)
    requires Reached(s, start, sel) && (start < s.cursor ==> Seen(s.slots, ToAll, s.cursor))
    ensures var s' := Next(s, step, size, sel);
            start < s'.cursor ==> Seen(s'.slots, ToAll, s'.cursor)
  {
    hide GetBatch, Increasing;
    var batch := GetBatch(s.slots, s.cursor, size, sel);
    BatchCovers(s.slots, s.cursor, size, sel);
    if batch != [] {
      assert batch[|batch| - 1] in batch;
    }
  }

  // What the gap test does give: a full batch it lets through has no hole inside. So an
  // id missed without a time-out lies before the first row, and none is missed exactly
  // when the first row is right behind the cursor.
  lemma {:induction false} GapTestGuardsTheInside(slots: seq<Slot>, cursor: nat, size: nat, sel: Selector)
    requires Numbered(slots, 0) && Ready(GetBatch(slots, cursor, size, sel), size)
    ensures var batch := GetBatch(slots, cursor, size, sel);
            && (forall i :: 0 <= i < |batch| ==> batch[i].position == batch[0].position + i)
            && (forall id :: batch[0].position <= id <= Moved(cursor, batch) ==>
                Seen(slots, sel, id) && Row(slots, id) in batch)
            && ((forall id :: cursor < id <= Moved(cursor, batch) ==> Seen(slots, sel, id)) <==>
                batch[0].position == cursor + 1)
  {
    var batch := GetBatch(slots, cursor, size, sel);
    BatchCovers(slots, cursor, size, sel);
    assert batch[0] in batch;
    forall i | 0 <= i < |batch|
      ensures batch[i].position == batch[0].position + i
    {
      NoHole(batch, 0, i);
      NoHole(batch, i, |batch| - 1);
    }
    forall id | batch[0].position <= id <= Moved(cursor, batch)
      ensures Seen(slots, sel, id) && Row(slots, id) in batch
    {
      var i := id - batch[0].position;
      assert batch[i] in batch && batch[i].position == id;
      assert Held(slots, sel, batch[i]);
    }
    assert Seen(slots, sel, cursor + 1) ==> Row(slots, cursor + 1) in batch;
    forall r | r in batch
      ensures batch[0].position <= r.position
    {
      var i :| 0 <= i < |batch| && batch[i] == r;
    }
  }

  lemma {:induction false} NoHole(batch: seq<RecordedRaw>, i: nat, j: nat)
    requires Increasing(batch) && i <= j < |batch|
    ensures batch[j].position - batch[i].position >= j - i
    decreases j - i
  {
    if i < j {
      NoHole(batch, i, j - 1);
      assert Before(batch, j - 1, j);
    }
  }

  // A row the subscription asks for: of the category, where none is the empty one, or of
  // one of the types.
  ghost predicate AskedFor(sel: Selector, r: RecordedRaw) {
    var category := r.entry.stream.key.category;
    && (sel.ToCategory? ==> category == Some(sel.category) || (category == None && sel.category == ""))
    && (sel.ToTypes? ==> exists i :: 0 <= i < |sel.names| && sel.names[i] == r.entry.name)
  }

  ghost predicate Offered(slots: seq<Slot>, cursor: nat, sel: Selector, id: nat) {
    cursor < id <= |slots| && slots[id - 1].status == Committed && AskedFor(sel, slots[id - 1].row)
  }

  lemma {:induction false} OfferedIsSeen(slots: seq<Slot>, cursor: nat, sel: Selector, id: nat)
    ensures Offered(slots, cursor, sel, id) <==> cursor < id && Seen(slots, sel, id)
  {
  }

  // The first rows asked for above the cursor, in id order, as many as there are up to the size.
  ghost predicate FirstOffered(slots: seq<Slot>, cursor: nat, size: nat, sel: Selector, batch: seq<RecordedRaw>) {
    && |batch| <= size && Increasing(batch)
    && (forall r :: r in batch ==> Offered(slots, cursor, sel, r.position) && Row(slots, r.position) == r)
    && (forall id :: Offered(slots, cursor, sel, id) && Row(slots, id) !in batch ==>
        |batch| == size && forall r :: r in batch ==> r.position < id)
  }

  lemma {:induction false} BatchIsFirst(slots: seq<Slot>, cursor: nat, size: nat, sel: Selector)
    requires Numbered(slots, 0)
    ensures FirstOffered(slots, cursor, size, sel, GetBatch(slots, cursor, size, sel))
  {
    var rows, batch := Select(Above(slots, cursor), sel), GetBatch(slots, cursor, size, sel);
    RowsAbove(slots, cursor, sel);
    BatchCovers(slots, cursor, size, sel);
    hide Increasing, AskedFor, Matches, Select, Above;
    forall id | Offered(slots, cursor, sel, id) && Row(slots, id) !in batch
      ensures |batch| == size && forall r :: r in batch ==> r.position < id
    {
      OfferedIsSeen(slots, cursor, sel, id);
      assert Row(slots, id) in rows;
      if batch != [] {
        IncreasingPrefix(rows, |batch|);
        BelowLast(batch);
      }
    }
    forall r | r in batch
      ensures Offered(slots, cursor, sel, r.position) && Row(slots, r.position) == r
    {
      OfferedIsSeen(slots, cursor, sel, r.position);
    }
  }

  lemma {:induction false} BelowLast(batch: seq<RecordedRaw>)
    requires Increasing(batch) && batch != []
    ensures forall r :: r in batch ==> r.position <= batch[|batch| - 1].position
  {
    forall r | r in batch
      ensures r.position <= batch[|batch| - 1].position
    {
      var i :| 0 <= i < |batch| && batch[i] == r;
      NoHole(batch, i, |batch| - 1);
    }
  }

  // The first `size` rows asked for above the cursor have the consecutive ids from `first`.
  ghost predicate Contiguous(slots: seq<Slot>, cursor: nat, size: nat, sel: Selector, first: nat) {
    && cursor < first && first + size <= |slots| + 1
    && (forall id :: cursor < id < first ==> !Offered(slots, cursor, sel, id))
    && (forall id :: first <= id < first + size ==> Offered(slots, cursor, sel, id))
  }

  lemma {:induction false} NextRow(slots: seq<Slot>, cursor: nat, size: nat, sel: Selector, first: nat,
                                   batch: seq<RecordedRaw>, n: nat)
    requires Numbered(slots, 0) && Contiguous(slots, cursor, size, sel, first)
    requires FirstOffered(slots, cursor, size, sel, batch)
    requires n < size && n <= |batch| && forall i :: 0 <= i < n ==> batch[i].position == first + i
    ensures n < |batch| && batch[n] == Row(slots, first + n)
  {
    hide Increasing;
    var row := Row(slots, first + n);
    if batch != [] {
      assert batch[0] in batch;
      NoHole(batch, 0, |batch| - 1);
      assert batch[|batch| - 1] in batch;
    }
    assert row in batch;
    var k :| 0 <= k < |batch| && batch[k] == row;
    NoHole(batch, 0, k);
  }

  lemma {:induction false} FirstRows(slots: seq<Slot>, cursor: nat, size: nat, sel: Selector, first: nat,
                                     batch: seq<RecordedRaw>, n: nat)
    requires Numbered(slots, 0) && Contiguous(slots, cursor, size, sel, first) && n <= size
    requires FirstOffered(slots, cursor, size, sel, batch)
    ensures n <= |batch| && forall i :: 0 <= i < n ==> batch[i] == Row(slots, first + i)
  {
    hide FirstOffered, Offered;
    if n > 0 {
      FirstRows(slots, cursor, size, sel, first, batch, n - 1);
      NextRow(slots, cursor, size, sel, first, batch, n - 1);
    }
  }

  // The converse of the gap test: when the first rows asked for above the cursor are a whole
  // batch of at least two with consecutive ids, a poll delivers exactly these without a time-out.
  lemma {:induction false} ContiguousIsDelivered(s: State, size: nat, sel: Selector, first: nat)
    requires Numbered(s.slots, 0) && size >= 2 && Contiguous(s.slots, s.cursor, size, sel, first)
    ensures var s' := Next(s, Step.Poll(false), size, sel);
            && s'.slots == s.slots && s'.cursor == first + size - 1
            && |s'.delivered| == |s.delivered| + size && s'.delivered[..|s.delivered|] == s.delivered
            && forall id :: first <= id < first + size ==>
                 s'.delivered[|s.delivered| + id - first] == Row(s.slots, id)
  {
    var batch := GetBatch(s.slots, s.cursor, size, sel);
    hide GetBatch, Offered;
    ContiguousIsReady(s.slots, s.cursor, size, sel, first);
    BatchIsFirst(s.slots, s.cursor, size, sel);
    FirstRows(s.slots, s.cursor, size, sel, first, batch, size);
    hide Ready, FirstOffered, Increasing;
    forall id | first <= id < first + size
      ensures (s.delivered + batch)[|s.delivered| + id - first] == Row(s.slots, id)
    {
      assert batch[id - first] == Row(s.slots, first + (id - first));
    }
  }

  lemma {:induction false} ReadyIsContiguous(slots: seq<Slot>, cursor: nat, size: nat, sel: Selector)
    requires Numbered(slots, 0) && Ready(GetBatch(slots, cursor, size, sel), size)
    ensures Contiguous(slots, cursor, size, sel, GetBatch(slots, cursor, size, sel)[0].position)
  {
    var batch := GetBatch(slots, cursor, size, sel);
    var first := batch[0].position;
    GapTestGuardsTheInside(slots, cursor, size, sel);
    BatchIsFirst(slots, cursor, size, sel);
    hide GetBatch, Increasing, FirstOffered, Offered;
    NothingBefore(slots, cursor, size, sel, batch);
    forall id | first <= id < first + size
      ensures Offered(slots, cursor, sel, id)
    {
      OfferedIsSeen(slots, cursor, sel, id);
    }
  }

  lemma {:induction false} NothingBefore(slots: seq<Slot>, cursor: nat, size: nat, sel: Selector,
                                         batch: seq<RecordedRaw>)
    requires Numbered(slots, 0) && FirstOffered(slots, cursor, size, sel, batch) && batch != []
    ensures cursor < batch[0].position && batch[|batch| - 1].position <= |slots|
    ensures forall id :: cursor < id < batch[0].position ==> !Offered(slots, cursor, sel, id)
  {
    assert batch[0] in batch && batch[|batch| - 1] in batch;
    forall r | r in batch
      ensures batch[0].position <= r.position
    {
      var i :| 0 <= i < |batch| && batch[i] == r;
      NoHole(batch, 0, i);
    }
  }

  lemma {:induction false} ContiguousIsReady(slots: seq<Slot>, cursor: nat, size: nat, sel: Selector, first: nat)
    requires Numbered(slots, 0) && size >= 2 && Contiguous(slots, cursor, size, sel, first)
    ensures Ready(GetBatch(slots, cursor, size, sel), size)
  {
    var batch := GetBatch(slots, cursor, size, sel);
    BatchIsFirst(slots, cursor, size, sel);
    FirstRows(slots, cursor, size, sel, first, batch, size);
    hide GetBatch, Offered;
    assert batch[0] == Row(slots, first + 0) && batch[size - 1] == Row(slots, first + (size - 1));
  }

  lemma {:induction false} ReadyIff(slots: seq<Slot>, cursor: nat, size: nat, sel: Selector)
    requires Numbered(slots, 0)
    ensures Ready(GetBatch(slots, cursor, size, sel), size) <==>
            size >= 2 && exists first: nat :: Contiguous(slots, cursor, size, sel, first)
  {
    hide GetBatch, Contiguous, FirstOffered;
    var batch := GetBatch(slots, cursor, size, sel);
    if Ready(batch, size) {
      ReadyIsContiguous(slots, cursor, size, sel);
    }
    if size >= 2 && exists first: nat :: Contiguous(slots, cursor, size, sel, first) {
      var first: nat :| Contiguous(slots, cursor, size, sel, first);
      ContiguousIsReady(slots, cursor, size, sel, first);
    }
  }

  // A poll delivers the first rows asked for above the cursor, and moves to the last of them,
  // if its time is over or they are a whole batch of at least two with consecutive ids; in
  // every other case it does nothing.
  lemma {:induction false} PollDelivers(s: State, timedOut: bool, size: nat, sel: Selector)
    requires Numbered(s.slots, 0)
    ensures var s' := Next(s, Step.Poll(timedOut), size, sel);
            if timedOut || (size >= 2 && exists first: nat :: Contiguous(s.slots, s.cursor, size, sel, first))
            then
              var n := |s.delivered|;
              && s'.slots == s.slots && n <= |s'.delivered| && s'.delivered[..n] == s.delivered
              && FirstOffered(s.slots, s.cursor, size, sel, s'.delivered[n..])
              && s'.cursor == if s'.delivered[n..] == [] then s.cursor
                              else s'.delivered[|s'.delivered| - 1].position
            else s' == s
  {
    hide GetBatch, Contiguous, FirstOffered, Ready;
    var batch := GetBatch(s.slots, s.cursor, size, sel);
    BatchIsFirst(s.slots, s.cursor, size, sel);
    ReadyIff(s.slots, s.cursor, size, sel);
    assert (s.delivered + batch)[|s.delivered|..] == batch;
  }

  lemma {:induction false} PollSkips(s: State, start: nat, size: nat, sel: Selector, id: nat)
    requires Reached(s, start, sel) && Ready(GetBatch(s.slots, s.cursor, size, sel), size)
    requires s.cursor < id < GetBatch(s.slots, s.cursor, size, sel)[0].position
    requires id <= |s.slots| && !Seen(s.slots, sel, id)
    ensures var polled := Next(s, Step.Poll(false), size, sel);
            Reached(polled, start, sel) && polled.slots == s.slots && id <= polled.cursor
                && Row(s.slots, id) !in polled.delivered
  {
    FirstIsNotLast(s.slots, s.cursor, size, sel);
    NewFate(s, start, Step.Poll(false), size, sel, id);
    StepKeepsReached(s, start, Step.Poll(false), size, sel);
  }

  lemma {:induction false} LateCommitIsMissed(s: State, start: nat, size: nat, sel: Selector, id: nat)
    requires Reached(s, start, sel) && start < id <= s.cursor && id <= |s.slots|
    requires s.slots[id - 1].status == Open && Matches(sel, Row(s.slots, id)) && Row(s.slots, id) !in s.delivered
    ensures var end := Next(s, Commit({id}), size, sel);
            id <= end.cursor && Seen(end.slots, sel, id) && Row(end.slots, id) !in end.delivered
  {
    OldFate(s, start, Commit({id}), size, sel, id);
  }

  // What it does not give: it never looks between the cursor and the first row. An id
  // still open there when a full batch without holes is read is lost for good once
  // committed, and no time-out is involved.
  lemma {:induction false} OpenGapIsMissed(s: State, start: nat, size: nat, sel: Selector, id: nat)
    requires Reached(s, start, sel) && Ready(GetBatch(s.slots, s.cursor, size, sel), size)
    requires s.cursor < id < GetBatch(s.slots, s.cursor, size, sel)[0].position
    requires id <= |s.slots| && s.slots[id - 1].status == Open && Matches(sel, Row(s.slots, id))
    ensures var end := Next(Next(s, Step.Poll(false), size, sel), Commit({id}), size, sel);
            id <= end.cursor && Seen(end.slots, sel, id) && Row(end.slots, id) !in end.delivered
  {
    PollSkips(s, start, size, sel, id);
    LateCommitIsMissed(Next(s, Step.Poll(false), size, sel), start, size, sel, id);
  }

  lemma {:induction false} FirstIsNotLast(slots: seq<Slot>, cursor: nat, size: nat, sel: Selector)
    requires Numbered(slots, 0) && GetBatch(slots, cursor, size, sel) != []
    ensures var batch := GetBatch(slots, cursor, size, sel);
            batch[0].position <= Moved(cursor, batch)
  {
    var batch := GetBatch(slots, cursor, size, sel);
    BatchCovers(slots, cursor, size, sel);
    assert batch[0] in batch;
  }

  // Three inserts, of which the first is still open when the others commit, are enough.
  lemma {:induction false} GapBeforeFirstRowIsMissed(e: RawEvent, tenant: string)
    ensures var insert := Allocate(e, tenant);
            var steps := [insert, insert, insert, Commit({2, 3}), Step.Poll(false), Commit({1})];
            var end := At(0, steps, 6, 2, ToAll);
            1 <= end.cursor && Seen(end.slots, ToAll, 1) && Row(end.slots, 1) !in end.delivered
  {
    var insert := Allocate(e, tenant);
    var steps := [insert, insert, insert, Commit({2, 3}), Step.Poll(false), Commit({1})];
    ThreeInserts(e, tenant, steps);
    var s := At(0, steps, 4, 2, ToAll);
    TwoVisible(s.slots);
    AlwaysReached(0, steps, 4, 2, ToAll);
    hide Next, Reached, GetBatch, Select;
    assert At(0, steps, 6, 2, ToAll) == Next(At(0, steps, 5, 2, ToAll), Commit({1}), 2, ToAll);
    assert At(0, steps, 5, 2, ToAll) == Next(s, Step.Poll(false), 2, ToAll);
    OpenGapIsMissed(s, 0, 2, ToAll, 1);
  }

  lemma {:induction false} ThreeInserts(e: RawEvent, tenant: string, steps: seq<Step>)
    requires |steps| >= 4 && steps[0] == steps[1] == steps[2] == Allocate(e, tenant) && steps[3] == Commit({2, 3})
    ensures var r1, r2, r3 := RecordedRaw(e, 1, tenant), RecordedRaw(e, 2, tenant), RecordedRaw(e, 3, tenant);
            At(0, steps, 4, 2, ToAll) == State([Slot(r1, Open), Slot(r2, Committed), Slot(r3, Committed)], 0, [])
  {
    var r1, r2, r3 := RecordedRaw(e, 1, tenant), RecordedRaw(e, 2, tenant), RecordedRaw(e, 3, tenant);
    assert At(0, steps, 1, 2, ToAll) == State([Slot(r1, Open)], 0, []);
    assert At(0, steps, 2, 2, ToAll) == State([Slot(r1, Open), Slot(r2, Open)], 0, []);
    assert At(0, steps, 3, 2, ToAll) == State([Slot(r1, Open), Slot(r2, Open), Slot(r3, Open)], 0, []);
  }

  lemma {:induction false} TwoVisible(slots: seq<Slot>)
    requires |slots| == 3 && slots[0].status == Open && slots[1].status == slots[2].status == Committed
    requires Numbered(slots, 0)
    ensures GetBatch(slots, 0, 2, ToAll) == [slots[1].row, slots[2].row]
    ensures Ready(GetBatch(slots, 0, 2, ToAll), 2)
  {
    assert Above(slots, 0) == slots;
    SelectOneMore(slots, ToAll);
    SelectOneMore(slots[1..], ToAll);
    SelectOneMore(slots[2..], ToAll);
    assert slots[1..][1..] == slots[2..];
  }
}
