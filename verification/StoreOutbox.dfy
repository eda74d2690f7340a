/**
 The in-memory store and its outbox together: every accepted append offers its records to
 the outbox, which is run in between.
 */
module StoreOutbox {
  import opened Wrappers
  import opened Seqs
  import opened Events
  import opened InMemoryStore
  import opened Outbox

  datatype Happening = Change(op: StoreOp) | RunOutbox(limit: nat, publish: nat -> bool)

  // The records an operation logs, and offers to the outbox.
  function Logged(s: Store, op: StoreOp): seq<RecordedRaw>
    requires s.data.Keys <= s.versions.Keys
  {
    if !op.Insert? then []
    else
      var r := Inserted(s, op.sid, op.versioning, op.events, op.tenant).1;
      if r.Success? then r.value else []
  }

  function Changes(happenings: seq<Happening>): seq<StoreOp> {
    if happenings == [] then []
    else (if happenings[0].Change? then [happenings[0].op] else []) + Changes(happenings[1..])
  }

  // What the outbox is asked to do meanwhile.
  function Asked(s: Store, happenings: seq<Happening>): seq<OutboxOp>
    requires s.data.Keys <= s.versions.Keys
    decreases |happenings|
  {
    if happenings == [] then []
    else
      match happenings[0]
      case Change(op) => [Put(Logged(s, op))] + Asked(Perform(s, op), happenings[1..])
      case RunOutbox(limit, publish) => [RunOnce(limit, publish)] + Asked(s, happenings[1..])
  }

  lemma {:induction false} LogGrowsByLogged(s: Store, op: StoreOp)
    requires s.data.Keys <= s.versions.Keys
    ensures Perform(s, op).records == s.records + Logged(s, op)
  {
  }

  // Everything logged was offered, in log order.
  lemma {:induction false} OfferedIsLog(s: Store, happenings: seq<Happening>)
    requires s.data.Keys <= s.versions.Keys
    ensures s.records + Offered(Asked(s, happenings)) == Replay(s, Changes(happenings)).records
    decreases |happenings|
  {
    if happenings != [] {
      var asked := Asked(s, happenings);
      match happenings[0]
      case Change(op) =>
        var next := Perform(s, op);
        var later := Offered(Asked(next, happenings[1..]));
        assert asked[1..] == Asked(next, happenings[1..]);
        assert Changes(happenings)[1..] == Changes(happenings[1..]);
        LogGrowsByLogged(s, op);
        Assoc(s.records, Logged(s, op), later);
        OfferedIsLog(next, happenings[1..]);
      case RunOutbox(_, _) =>
        assert asked[1..] == Asked(s, happenings[1..]);
        assert Offered(asked) == Offered(asked[1..]);
        assert Changes(happenings) == Changes(happenings[1..]);
        OfferedIsLog(s, happenings[1..]);
    }
  }

  lemma {:induction false} PositionedIsIncreasing(records: seq<RecordedRaw>)
    requires Positioned(records)
    ensures Increasing(records)
  {
    forall i, j | 0 <= i < j < |records|
      ensures Before(records, i, j)
    {
    }
  }

  // Conservation of the log: after any history of appends, snapshots, deletes and outbox
  // runs, each logged record that passes the filter is waiting, published once, or dropped.
  lemma {:induction false} LogIsConserved(happenings: seq<Happening>, filterer: RawEvent -> bool, max: nat)
    requires max >= 1 && forall op :: op in Changes(happenings) ==> WellFormed(op)
    ensures var log := Replay(Empty, Changes(happenings)).records;
            var l := Play(Ledger([], [], []), Asked(Empty, happenings), filterer, max);
            && Ordered(l.entries)
            && (forall e :: e in l.entries ==> e.record in log && filterer(e.record.entry))
            && (forall a :: a in l.attempts ==> a.record in log && filterer(a.record.entry))
            && (forall r :: r in log && filterer(r.entry) ==>
                Waiting(l, r, max) || Published(l, r, max) || Dropped(l, r, max))
  {
    var offered, log := Offered(Asked(Empty, happenings)), Replay(Empty, Changes(happenings)).records;
    EmptyAgrees();
    LogAndIndexAgree(Empty, map[], Changes(happenings));
    OfferedIsLog(Empty, happenings);
    assert [] + offered == offered == log;
    PositionedIsIncreasing(log);
    Conservation(Asked(Empty, happenings), filterer, max);
  }
}
