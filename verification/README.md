# Verified model of the event store

A Dafny model of the event-sourcing library in `event_sourcery` and its SQLAlchemy, Django
and KurrentDB backends, with proofs of what the library keeps over whole histories: of
appends, session commits, deliveries, retries, snapshots, deletes and key shredding.

`dafny verify dfyconfig.toml` checks everything.

| File | What it models |
|---|---|
| `Base.dfy` | options and results, order-preserving sequence functions, JSON, streams, events, versioning and the numbering of bare events |
| `Ranges.dfy` | ordering by version and reading a version range |
| `InMemoryStore.dfy` | `Storage` and `InMemoryStorageStrategy`: one log, a list and a version per stream |
| `InMemorySubscription.dfy` | the three in-memory subscriptions |
| `Outbox.dfy`, `TableOutbox.dfy`, `StoreOutbox.dfy` | the outbox as a list mutated during iteration, as rows with tries left, and together with the store that feeds it |
| `StreamTables.dfy` | the stream, event and snapshot rows of both SQL backends and the query that reads a stream |
| `SqlAlchemyStore.dfy`, `Sessions.dfy` | the SQLAlchemy append with its constraints; aggregates and the repository |
| `Appends.dfy`, `RangeLoads.dfy` | when each store accepts an append, what is stored then and loaded afterwards; range loads, and snapshots in the tables |
| `Interleaving.dfy`, `SessionOutcomes.dfy` | any number of repository sessions, each in its own transaction, interleaved statement by statement |
| `GapSubscription.dfy` | the gap-detecting subscription over ids that become visible out of order |
| `Projector.dfy` | the projector and its cursor rows |
| `DjangoStore.dfy` | the Django append, snapshot, delete and fetch, over all tenants |
| `SnapshotRefinement.dfy`, `Snapshots.dfy` | destructive snapshots against retained history, and what aggregates see of snapshots |
| `Documents.dfy`, `Encryption.dfy`, `Shredding.dfy` | dotted-path reads and writes on JSON, encrypted paths computed from types, encryption and decryption, and what they and shredding come to |
| `KurrentStream.dfy` | KurrentDB stream names and position windows |

Code that changes state is written as classes and loops. Each method is tied to a function of
the old state; the lemmas then state what these functions come to, in terms of events, rows and
indices, and what runs of them keep. Database tables are maps from their unique keys; a violated
constraint is an error, and an error rolls back.

## Where the code does less than one may expect

The code was followed, and each of these is stated with its exact condition.

- An expected version of zero is not compared. On Django, where no index makes (stream, version)
  unique, a second first append is accepted and versions repeat: `DjangoStore.ZeroIsNotCompared`.
  On SQLAlchemy the unique index rejects it: `Sessions.LostRace`.
- In memory a range is cut out of the stream's list by position. A snapshot shortens that list, and
  range loads then agree with those of the tables only in the cases of
  `RangeLoads.RangeLoadsAgreeIff`.
- In the tables an event without a version is not loaded once its stream has a snapshot:
  `Appends.DjangoLoadsIff`, `Appends.AlchemyLoadsIff`.
- A refused in-memory append leaves an empty versioned stream behind, which later refuses
  unversioned appends: `InMemoryStore.RefusedAppendLeavesVersionedStream`.
- The gap test compares ids inside a batch only, so an id missing between the cursor and the
  first row is skipped without any time-out (`GapSubscription.OpenGapIsMissed`), although
  `event_sourcery_sqlalchemy/__init__.py:85-88` presents the retry on a detected gap as preventing
  loss. Delivery is complete if and only if no commit comes behind the cursor:
  `GapSubscription.ExactIffNoLateCommit`.
- The SQLAlchemy outbox stores no category, so publishers get identifiers without one:
  `TableOutbox.RebuiltIsOriginal`.
- A text that is itself valid JSON comes back from decryption as the value it spells:
  `Shredding.SurvivesIff`, `Shredding.RoundTripIff`.
- Encryption falls back to the stream's name when the subject field is falsy, decryption does
  not (`Shredding.SubjectKeptIff`); such a field comes back as its mask although no key was
  shredded: `Shredding.LostSubjectIsMasked`.
- `WrappedAggregate.created_at` is documented as the time of the first event; after a snapshot
  it is the time of the snapshot: `Snapshots.CreationTimeKeptIff`.
- `Aggregate.__persisting_changes__` is documented to clear pending events and does not. A second
  session with the same aggregate stores the first one's events again, if and only if there were
  any (`Sessions.ReuseRepeats`), and folds the stream over a state that already holds it
  (`Sessions.ReuseFoldsTwice`, `Sessions.ReusedCountIsRightIff`).
- In KurrentDB windows a stop of 0 or 1 is falsy and means no stop:
  `KurrentStream.WindowIsVersionRangeIff`.

## Model

| member | source | states |
|---|---|---|
| `Events.Incompatible` | event_sourcery/_event_store/versioning.py:65-97 | an append passes the check if and only if it and the stream are both versioned or both unversioned |
| `Events.Numbered` | event_sourcery/_event_store/event_store.py:186-195 | bare events get the versions after the expected one, consecutively and in order, and are otherwise unchanged |
| `Events.ExplicitFor` | event_sourcery/_event_store/event_store.py:203-217 | the new version of a numbered append is the expected one plus the number of events |
| `InMemoryStore.Storage.CurrentPosition` | event_sourcery/_event_store/in_memory.py:49-51 | on a log numbered from one the current position is its length |
| `InMemoryStore.Storage.Create` | event_sourcery/_event_store/in_memory.py:56-61 | a new stream is empty, at version zero, or at none when unversioned |
| `InMemoryStore.Storage.Append` | event_sourcery/_event_store/in_memory.py:63-68 | the loop extends the log and gives every stream exactly its own part of the records, in order, and the version of the last one |
| `InMemoryStore.Storage.Replace` | event_sourcery/_event_store/in_memory.py:70-73 | a snapshot takes the place of the stream's list and sets its version, the log is untouched |
| `InMemoryStore.Storage.Delete` | event_sourcery/_event_store/in_memory.py:78-79 | only the stream's list goes |
| `InMemoryStore.InMemoryStorageStrategy.FetchEvents` | event_sourcery/_event_store/in_memory.py:235-247 | a load is the sliced list filtered by tenant, empty for an unknown stream |
| `InMemoryStore.InMemoryStorageStrategy.EnsureStream` | event_sourcery/_event_store/in_memory.py:271-287 | a missing stream is created before any check, then the append is refused for incompatible versioning or a differing version |
| `InMemoryStore.InMemoryStorageStrategy.InsertEvents` | event_sourcery/_event_store/in_memory.py:249-261 | the whole new state of log, lists, versions and outbox, for accepted and refused appends |
| `InMemoryStore.InMemoryStorageStrategy.SaveSnapshot` | event_sourcery/_event_store/in_memory.py:263-269 | the snapshot replaces the list and is positioned after the log without entering it |
| `InMemoryStore.InMemoryStorageStrategy.DeleteStream` | event_sourcery/_event_store/in_memory.py:289-291 | deleting an unknown stream changes nothing |
| `InMemoryStore.StepAgrees` | event_sourcery/_event_store/in_memory.py:249-291 | every operation only extends the log and keeps log and lists in agreement |
| `InMemoryStore.LogAndIndexAgree` | event_sourcery/_event_store/in_memory.py:56-82 | after any history positions are 1..n, the log only grew, and each live stream's list is its last snapshot followed by its part of the log since then, with the version of its last entry |
| `InMemoryStore.RefusedAppendIsInvisible` | event_sourcery/_event_store/in_memory.py:271-287 | a refused append changes no log record and no load of any stream by any tenant |
| `InMemoryStore.RefusedAppendLeavesVersionedStream` | event_sourcery/_event_store/in_memory.py:271-275 | a refused append changes the fate of a later one if and only if it created the stream and the later one is unversioned on it |
| `Appends.MemAcceptedIff` | event_sourcery/_event_store/in_memory.py:271-287 | an append is accepted if and only if it is unversioned and the stream absent or without version, or versioned and the stream at the expected version, where absent is zero and zero is not compared |
| `Appends.MemAppends` | event_sourcery/_event_store/in_memory.py:249-261 | an accepted append, versioned or not, puts exactly its events in order behind the log and behind its stream's list, numbered on from the log's position, and changes no other stream |
| `Appends.MemLoadsAppended` | event_sourcery/_event_store/in_memory.py:235-247 | the appending tenant then loads what it did before followed by the events, other tenants and other streams load as before |
| `InMemorySubscription.InMemorySubscription.PopRecord` | event_sourcery/_event_store/in_memory.py:92-139 | the loop ends and finds the next wanted record behind the cursor |
| `InMemorySubscription.InMemorySubscription.Next` | event_sourcery/_event_store/in_memory.py:99-111 | a batch is exactly the wanted part of the log between the old and the new cursor, no longer than the batch size, and short only at the end of the log or of the time |
| `InMemorySubscription.NothingLostNothingRepeated` | event_sourcery/_event_store/in_memory.py:85-139 | for any interleaving of polls with appends, snapshots and deletes, all deliveries joined are the wanted part of the log from the start to the cursor |
| `InMemorySubscription.DeliveredIff` | event_sourcery/_event_store/in_memory.py:113-139 | a record is delivered if and only if the log has it between start and cursor and it is of the subscribed category, or of one of the types |
| `Outbox.InMemoryOutboxStorageStrategy.IndexOf` | event_sourcery/_event_store/in_memory.py:163 | lookup by value finds the first equal pair |
| `Outbox.FoundWhereItIs` | event_sourcery/_event_store/in_memory.py:163 | with positions in order the pair found by value is the one meant |
| `Outbox.InMemoryOutboxStorageStrategy.PublishContext` | event_sourcery/_event_store/in_memory.py:157-176 | one attempt removes or updates just its own entry, in place |
| `Outbox.InMemoryOutboxStorageStrategy.PutIntoOutbox` | event_sourcery/_event_store/in_memory.py:148-149 | records passing the filter are appended with no failures |
| `Outbox.InMemoryOutboxStorageStrategy.Run` | event_sourcery/_event_store/outbox.py:85-95 | a run over a copy of the first entries, deleting from the list meanwhile, settles exactly those entries and leaves the tail, and calls the publisher once for each in order |
| `Outbox.RunAttempts` | event_sourcery/_event_store/in_memory.py:151-176 | a run attempts the first entries in order, as many as there are up to the limit; of these stay exactly the failed ones with attempts left, with one failure more |
| `Outbox.Conservation` | event_sourcery/_event_store/in_memory.py:142-176 | after any history each offered record that passes the filter is either pending with fewer than the allowed failures, or published successfully once, or dropped after exactly the allowed number of failures; no other record is pending or was attempted; pending entries stay in position order |
| `StoreOutbox.LogIsConserved` | event_sourcery/_event_store/in_memory.py:249-261 | for any history of appends, snapshots, deletes and outbox runs, the records of the whole log that pass the filter are those, each in exactly one such place |
| `Outbox.RunShrinksRemaining` | event_sourcery/_event_store/in_memory.py:151-176 | a run lowers the attempts still due by at least min(limit, length), whatever the publisher does |
| `Outbox.FrontIsDrained` | event_sourcery/_event_store/in_memory.py:151-176 | entries at the front are gone after as many working runs as they have attempts left, whatever is put behind them meanwhile |
| `Outbox.Drains` | event_sourcery/_event_store/in_memory.py:151-176 | with no new records that many runs empty the outbox |
| `TableOutbox.SqlAlchemyOutboxStorageStrategy.PutIntoOutbox` | event_sourcery_sqlalchemy/outbox.py:31-58 | the loop inserts one row for each record passing the filter, in order, with all tries |
| `TableOutbox.SqlAlchemyOutboxStorageStrategy.PublishContext` | event_sourcery_sqlalchemy/outbox.py:74-100 | one attempt deletes its row or takes one try from it |
| `TableOutbox.SqlAlchemyOutboxStorageStrategy.Run` | event_sourcery_sqlalchemy/outbox.py:60-100 | a run attempts the first rows with tries left in id order, once each, and leaves exhausted rows |
| `TableOutbox.RebuiltIsOriginal` | event_sourcery_sqlalchemy/outbox.py:37-50 | the published identifier is the original if and only if there was no category and an empty name is its own |
| `TableOutbox.RunsSimulate` | event_sourcery_sqlalchemy/outbox.py:60-100 | from related states one run gives related states and the same publish calls |
| `TableOutbox.OutboxesSimulate` | event_sourcery_sqlalchemy/outbox.py:31-100 | over any history the list is the rows with tries left in id order, failures counted up instead of tries down, and both outboxes make the same calls up to the rebuilt identifier |
| `StreamTables.NameSelectsOwnRow` | event_sourcery_django/models.py:10-20 | selecting by uuid or by name finds the row of the identifier's own uuid, category and tenant and no other; SQLAlchemy selects with the same condition |
| `StreamTables.SeenIsKey` | event_sourcery_sqlalchemy/event_store.py:104-116 | the first query of an append finds a row if and only if the identifier's own row is there |
| `StreamTables.Latest` | event_sourcery_django/event_store.py:50-57 | the snapshot picked is one with the greatest time |
| `VersionOrder.ByVersionSorts` | event_sourcery_django/event_store.py:40 | ordering by version sorts, missing versions first, and neither loses nor repeats an event |
| `SqlAlchemyStore.SqlAlchemyStorageStrategy.FetchEvents` | event_sourcery_sqlalchemy/event_store.py:34-99 | the latest snapshot in range followed by newer events in range, by version, under the row's identifier, and nothing under a differing name |
| `SqlAlchemyStore.SqlAlchemyStorageStrategy.SaveSnapshot` | event_sourcery_sqlalchemy/event_store.py:207-222 | the snapshot is added to its stream; a missing stream, a missing version or a used uuid fails and changes nothing |
| `SqlAlchemyStore.SqlAlchemyStorageStrategy.EnsureStream` | event_sourcery_sqlalchemy/event_store.py:101-168 | row created unless in conflict, name and versioning checked, version compared and set, or the reason for refusal |
| `SqlAlchemyStore.SqlAlchemyStorageStrategy.InsertEvents` | event_sourcery_sqlalchemy/event_store.py:170-205 | accepted appends bump the row and add the events, refused ones leave the table as it was |
| `Appends.AlchemyAcceptedIff` | event_sourcery_sqlalchemy/event_store.py:101-205 | the exact condition of an append, in terms of rows, names, versions and stored event versions |
| `Appends.AlchemyAppends` | event_sourcery_sqlalchemy/event_store.py:170-205 | an accepted append, versioned or not, adds exactly its events in order behind those of its row, and sets the row's version; no other row changes |
| `Appends.AlchemyLoadsIff` | event_sourcery_sqlalchemy/event_store.py:34-99 | a full load then is the earlier one followed by the events, under the stream's identifier, if and only if they come after the latest snapshot |
| `RangeLoads.AlchemyReadsRange` | event_sourcery_sqlalchemy/event_store.py:34-99 | for any bounds a load is the contiguous piece of the history they name, or the latest snapshot in range and the piece after it, under the row's identifier; nothing under a differing name |
| `RangeLoads.AlchemySnapshotIff` | event_sourcery_sqlalchemy/event_store.py:207-222 | the exact condition of saving a snapshot, which joins its stream and changes nothing else |
| `RangeLoads.LoadsFromNewest` | event_sourcery_sqlalchemy/event_store.py:54-82 | once a snapshot later than all others is saved, a full load is that snapshot and the events of greater versions |
| `Sessions.Aggregate.Emit` | event_sourcery/event_sourcing/aggregate.py:59-72 | an emitted event is applied and becomes the last pending change |
| `Sessions.Repository.Load` | event_sourcery/event_sourcing/repository.py:59-66 | the aggregate is the fold of the stream, the stored version that of its last event, the times those of its first and last |
| `Sessions.Repository.Save` | event_sourcery/event_sourcing/repository.py:68-83 | pending events are numbered after the stored version and appended against it; nothing pending writes nothing; failure writes nothing |
| `Sessions.Repository.Session` | event_sourcery/event_sourcing/repository.py:26-57 | a whole session loads, emits and saves; the pending changes are still there afterwards |
| `Sessions.ReuseRepeats` | event_sourcery/event_sourcing/aggregate.py:34-45 | a second session with one aggregate is accepted and stores the earlier pending events once more; the tables are what clearing would give if and only if there were none |
| `Sessions.ReuseFoldsTwice` | event_sourcery/event_sourcing/aggregate.py:34-45 | after a second session the state is the stream folded twice, then the new events |
| `Sessions.ReusedCountIsRightIff` | event_sourcery/event_sourcing/aggregate.py:34-45 | a counting aggregate is right after a second session if and only if there was nothing to load |
| `Sessions.LostRace` | event_sourcery_sqlalchemy/models/base.py:102-113 | a session that loaded a stream as missing and finds it created is rejected by the unique index on stream and version |
| `Sessions.LaterAppend` | event_sourcery_sqlalchemy/event_store.py:155-168 | a session that loaded n > 0 events is accepted if and only if the row still says n, else it is a concurrent write |
| `Sessions.AcceptedIffCurrent` | event_sourcery_sqlalchemy/event_store.py:101-205 | a non-empty commit is accepted if and only if the stream stands where it was loaded, whether or not the first query was stale |
| `Interleaving.EnsuredIsSound` | event_sourcery_sqlalchemy/event_store.py:104-153 | the row statements refuse exactly identifiers that cannot be addressed, and write a row only for a stream that is not there |
| `Interleaving.ComparedIsSound` | event_sourcery_sqlalchemy/event_store.py:155-168 | the version update refuses exactly when a loaded stream has grown since |
| `Interleaving.StoredIsSound` | event_sourcery_sqlalchemy/models/base.py:102-113 | the event insert fails exactly for a session that raced with the stream's creation |
| `Interleaving.StepIsConsistent` | event_sourcery/event_sourcing/repository.py:50-83 | every statement, commit or abandonment by any session keeps the invariant, in which saves and accepted sessions with events are one to one |
| `Interleaving.NoLostUpdate` | event_sourcery/event_sourcing/repository.py:59-83 | under every interleaving of statements, with sessions abandoned at any point, versions are 1..n with n in the row, every session accepted with pending events has exactly one save, holding its own events, each stream is those saves in commit order, and each accepted session had loaded the replay of exactly the events before its own |
| `Interleaving.RefusedIff` | event_sourcery_sqlalchemy/event_store.py:101-205 | in any reachable world each statement refuses a session if and only if the identifier cannot be addressed or another session has stored events on the stream since it was loaded |
| `Interleaving.WritersDoNotWait` | event_sourcery_sqlalchemy/event_store.py:119-168 | sessions wait only for transactions that have written a row, and those wait for nobody, so there is no deadlock |
| `Interleaving.CommittedStateIsReplay` | event_sourcery/event_sourcing/aggregate.py:104-107 | on commit the aggregate is the replay of the whole stream and its version, pending events included, the stream's |
| `Interleaving.InOneGoIsSaved` | event_sourcery_sqlalchemy/event_store.py:101-205 | without others in between the statements do what the repository's save does, on any table and with the same error |
| `SessionOutcomes.OpenLoadsAll` | event_sourcery/event_sourcing/repository.py:43-66 | in any reachable world a session opens at the number of stored events, with the fold of all of them for its state |
| `SessionOutcomes.CommitStores` | event_sourcery_sqlalchemy/event_store.py:170-205 | in any reachable world a commit makes the stream its old events followed by the session's pending ones numbered on, the row's version their number, and touches no other row |
| `SessionOutcomes.SaveAloneIff` | event_sourcery/event_sourcing/repository.py:68-83 | among any open sessions of which no other holds a written row, a save is accepted and stores its events if and only if the identifier can be addressed and the stream stands where it was loaded; else it is refused and changes nothing |
| `SessionOutcomes.NothingToStore` | event_sourcery/event_sourcing/repository.py:68-77 | a save with nothing pending is accepted and changes no table |
| `SessionOutcomes.AloneIff` | event_sourcery/event_sourcing/repository.py:26-83 | from opening over any emitted events to commit, such a session is accepted if and only if its identifier can be addressed, and the stream is then the old events followed by the emitted ones, on the stream and numbered on |
| `SessionOutcomes.NamesStayUnique` | event_sourcery_sqlalchemy/models/base.py:57-63 | however sessions interleave, no two committed rows and no two uncommitted ones of a category bear the same name |
| `GapSubscription.Cursor.Advance` | event_sourcery_sqlalchemy/subscription.py:173-175 | the cursor moves to the last row of a batch and stays on an empty one |
| `GapSubscription.GapDetectingIterator.Next` | event_sourcery_sqlalchemy/subscription.py:193-204 | the batch returned is that of the first query that is full and continuous, or of the one at which time is over |
| `GapSubscription.BatchCovers` | event_sourcery_sqlalchemy/subscription.py:101-166 | a batch is in id order and holds every visible matching row it moves the cursor over |
| `GapSubscription.BatchIsFirst` | event_sourcery_sqlalchemy/subscription.py:101-166 | a batch is the first committed rows of the category or types asked for above the cursor, in id order, never more than the batch size and fewer only if there are no more |
| `GapSubscription.PollDelivers` | event_sourcery_sqlalchemy/subscription.py:193-211 | a poll delivers that batch and moves to its last row if its time is over or it is a whole batch of two or more with consecutive ids, and does nothing otherwise |
| `GapSubscription.ContiguousIsDelivered` | event_sourcery_sqlalchemy/subscription.py:206-211 | when the first batch-size (at least two) rows asked for above the cursor have consecutive ids, a poll delivers exactly these without a time-out |
| `GapSubscription.AbortedIsNotDelivered` | event_sourcery_sqlalchemy/subscription.py:178-222 | a row rolled back is never delivered, whatever follows |
| `GapSubscription.AlwaysReached` | event_sourcery_sqlalchemy/subscription.py:178-222 | under any interleaving of insert, commit, abort and poll, delivered ids are strictly increasing, between start and cursor, and committed |
| `GapSubscription.DeliveredIffVisibleInTime` | event_sourcery_sqlalchemy/subscription.py:178-222 | an id the cursor has passed was delivered if and only if it was visible to the very poll that moved the cursor past it |
| `GapSubscription.ExactIffNoLateCommit` | event_sourcery_sqlalchemy/subscription.py:178-222 | delivery is exactly the filtered log up to the cursor if and only if no matching id was committed behind the cursor |
| `GapSubscription.IdOrderIsExact` | event_sourcery_sqlalchemy/subscription.py:178-222 | commits in id order are enough |
| `GapSubscription.GapTestGuardsTheInside` | event_sourcery_sqlalchemy/subscription.py:206-211 | a batch let through has no hole inside, and skips nothing if and only if its first row is right behind the cursor |
| `GapSubscription.OpenGapIsMissed` | event_sourcery_sqlalchemy/subscription.py:206-211 | an id open between the cursor and the first row of such a batch is never delivered once committed |
| `GapSubscription.GapBeforeFirstRowIsMissed` | event_sourcery_sqlalchemy/subscription.py:193-211 | three inserts from an empty table, the first committed last, lose an event without a time-out |
| `Projector.CursorsDao.Increment` | event_sourcery_sqlalchemy/cursors_dao.py:18-54 | the four outcomes of a version against the stored one, and that only an increment writes |
| `Projector.CursorsDao.PutAt` | event_sourcery_sqlalchemy/cursors_dao.py:64-71 | a first cursor row is inserted |
| `Projector.CursorsDao.MoveTo` | event_sourcery_sqlalchemy/cursors_dao.py:73-83 | an existing cursor row moves, a missing one is not made |
| `Projector.Projector.Project` | event_sourcery/read_model/projector.py:27-61 | which events each outcome hands to the read model, in which order, and where the cursor is afterwards; unversioned events are refused |
| `Projector.ExactlyOnceProjection` | event_sourcery/read_model/projector.py:27-61 | for any appends and any repeated, reordered or skipped deliveries, the events applied are exactly versions 1..c in order, with c the cursor and the largest version delivered |
| `Projector.DeliveryOrderIsIrrelevant` | event_sourcery/read_model/projector.py:27-61 | two delivery sequences with the same largest version give the same read model |
| `DjangoStore.DjangoStorageStrategy.FetchEvents` | event_sourcery_django/event_store.py:26-66 | the latest snapshot in range followed by newer events in range, by version, under the row's identifier |
| `DjangoStore.DjangoStorageStrategy.EnsureStream` | event_sourcery_django/event_store.py:90-122 | get-or-create with its conflicts, the versioning check, and the compare-and-set |
| `DjangoStore.DjangoStorageStrategy.InsertEvents` | event_sourcery_django/event_store.py:68-88 | accepted appends store the events, refused ones leave all tables as they were |
| `DjangoStore.DjangoStorageStrategy.SaveSnapshot` | event_sourcery_django/event_store.py:124-130 | the snapshot is added to its stream and to no other, writing over one with its uuid; events stay |
| `DjangoStore.DjangoStorageStrategy.DeleteStream` | event_sourcery_django/event_store.py:132-135 | the stream goes with its events and snapshots, other streams and tenants stay |
| `Appends.DjangoAcceptedIff` | event_sourcery_django/event_store.py:68-122 | the exact condition of an append, in terms of rows, names, versions and the event uuids of all tenants |
| `Appends.DjangoAppends` | event_sourcery_django/event_store.py:68-122 | an accepted append, versioned or not, adds exactly its events in order behind those of its row, and sets the row's version; no other row changes |
| `Appends.DjangoLoadsIff` | event_sourcery_django/event_store.py:26-66 | a full load then is the earlier one followed by the events, under the stream's identifier, if and only if they come after the latest snapshot |
| `RangeLoads.DjangoReadsRange` | event_sourcery_django/event_store.py:26-66 | for any bounds a load is the contiguous piece of the history they name, or the latest snapshot in range and the piece after it, under the row's identifier |
| `RangeLoads.DjangoSnapshotIff` | event_sourcery_django/event_store.py:124-130 | the exact condition of saving a snapshot, and which snapshots every stream has then |
| `DjangoStore.ZeroIsNotCompared` | event_sourcery_django/event_store.py:117-122 | on a stream of n events a numbered append is accepted at expected version n and at zero only, and keeps versions 1..n only at n |
| `DjangoStore.OwnOperation` | event_sourcery_django/event_store.py:68-135 | an operation of a tenant does the same on that tenant's streams alone |
| `DjangoStore.ForeignOperation` | event_sourcery_django/event_store.py:68-135 | an operation of another tenant leaves the tenant's streams unchanged |
| `DjangoStore.TenantPurge` | event_sourcery_django/event_store.py:26-135 | removing all other tenants' operations from any run changes no outcome and no range read of the tenant, given that tenants share no uuids |
| `DjangoStore.AcceptedAmongTenantsIff` | event_sourcery_django/models.py:42-52 | an append is accepted if and only if it would be without other tenants and no tenant used its event uuids |
| `SnapshotRefinement.QueryIsTail` | event_sourcery_django/event_store.py:40-64 | the query returns the last snapshot and the events after it, or all events |
| `SnapshotRefinement.SameVerdict` | event_sourcery_django/event_store.py:90-122 | both stores compare the same version and give the same verdict with the same error |
| `SnapshotRefinement.StepSimulates` | event_sourcery/_event_store/in_memory.py:249-291 | every allowed append, snapshot and delete has the same outcome in both stores and keeps them related |
| `SnapshotRefinement.SnapshotsRefineHistory` | event_sourcery/_event_store/in_memory.py:43-82 | after every allowed run the store that throws history away and the one that keeps it have given the same outcomes and load the same events of every stream |
| `RangeLoads.MemReadsByPosition` | event_sourcery/_event_store/in_memory.py:243-247 | in memory a load is the piece of the stream's list between the positions the bounds name |
| `RangeLoads.RangeLoadsAgreeIff` | event_sourcery/_event_store/in_memory.py:243-247 | after every allowed run and for any bounds that are not negative, the range loads of both stores are the same if and only if the stream has no snapshot, or the last one covers a single event, or the range is the whole stream, behind it, or empty |
| `Snapshots.TailReplays` | event_sourcery/event_sourcing/repository.py:59-66 | replaying from the last snapshot gives the state and version of replaying everything |
| `Snapshots.CreationTimeKeptIff` | event_sourcery/event_sourcing/repository.py:64-66 | a load reports the first event's time if and only if there is no snapshot or it bears that time |
| `Snapshots.InsertOfEvents` | event_sourcery_django/event_store.py:68-122 | appends do not depend on snapshots |
| `Snapshots.SnapshotsAreInvisible` | event_sourcery/event_sourcing/repository.py:59-66 | if every snapshot applied to a fresh aggregate gives the state it was taken of, loads rebuild the state and stored version of the same run without snapshots |
| `Documents.NestedDict.GetItem` | event_sourcery/_event_store/event/encryption.py:129-134 | splitting at first dots level by level reads the path |
| `Documents.NestedDict.SetItem` | event_sourcery/_event_store/event/encryption.py:136-141 | splitting at the last dot and writing through the parent dictionary is the dotted write, and fails without such a dictionary |
| `Documents.GetPathIff` | event_sourcery/_event_store/event/encryption.py:129-134 | a path reads a value if and only if each of its names is found in the dictionary under the names before, the last one with that value |
| `Documents.GetDottedIsGetPath` | event_sourcery/_event_store/event/encryption.py:129-134 | the dotted read is the read at the path of dot-free names |
| `Documents.SetDottedIsSetPath` | event_sourcery/_event_store/event/encryption.py:136-141 | the dotted write is the write at that path, though it splits from the other end, and fails if and only if the path has no parent |
| `Documents.SetsCommute` | event_sourcery/_event_store/event/encryption.py:136-141 | writes to paths of which neither is a prefix of the other commute |
| `Registry.EncryptedIffMarked` | event_sourcery/_event_store/event/registry.py:25-40 | a path and configuration are computed for a type if and only if its hints, followed along the path, lead to a field marked with it |
| `Registry.EncryptedPathsAreAntichain` | event_sourcery/_event_store/event/registry.py:25-40 | for every finitely nested type no computed path is a prefix of another |
| `Encryption.InMemoryKeyStorage.Get` | event_sourcery/_event_store/in_memory.py:381-382 | a key is looked up under the own tenant |
| `Encryption.InMemoryKeyStorage.Store` | event_sourcery/_event_store/in_memory.py:384-385 | storing a key changes that subject of that tenant only |
| `Encryption.InMemoryKeyStorage.Delete` | event_sourcery/_event_store/in_memory.py:387-388 | deleting a key changes that subject of that tenant only |
| `Encryption.Encryption.Encrypt` | event_sourcery/_event_store/event/encryption.py:160-186 | the loop over dotted fields is the field-by-field encryption by the event's attributes, with its errors |
| `Encryption.Encryption.Decrypt` | event_sourcery/_event_store/event/encryption.py:188-215 | the loop over dotted fields is the field-by-field decryption, with masks and errors |
| `Encryption.Encryption.Shred` | event_sourcery/_event_store/event/encryption.py:238-246 | shredding removes just the subject's key, other tenants keep theirs |
| `Shredding.SubjectKeptIff` | event_sourcery/_event_store/event/encryption.py:178-181 | exactly when decryption finds the subject encryption used |
| `Shredding.SurvivesIff` | event_sourcery/_event_store/event/encryption.py:217-236 | a value comes back from its text form if and only if it is no text that reads as other JSON |
| `Shredding.EncryptsIff` | event_sourcery/_event_store/event/encryption.py:160-186 | encryption succeeds if and only if every marked field of the type is in the document and its subject, the named attribute or the stream's name, is a text with a key |
| `Shredding.TripByField` | event_sourcery/_event_store/event/encryption.py:160-246 | every marked field holds the cipher text of its value under its subject's key, and after decryption with the keys left what the key decryption asks for reveals, or the mask |
| `Shredding.TripElsewhere` | event_sourcery/_event_store/event/encryption.py:177-215 | apart from the marked fields neither encryption nor decryption changes the document |
| `Shredding.MaskedField` | event_sourcery/_event_store/event/encryption.py:217-220 | in the masked original the mask stands at the shredded fields and the original value at the others |
| `Shredding.MaskedElsewhere` | event_sourcery/_event_store/event/encryption.py:177-186 | outside the marked fields the masked original is the original |
| `Shredding.RoundTripIff` | event_sourcery/_event_store/event/encryption.py:160-246 | decryption gives the original with masks at exactly the shredded fields if and only if every other marked field of the type keeps its subject and survives its text form, or has its mask for a value |
| `Shredding.LostSubjectIsMasked` | event_sourcery/_event_store/event/encryption.py:208-220 | a field whose subject decryption does not find again comes back as the mask |
| `Shredding.FieldOrderIsIrrelevant` | event_sourcery/_event_store/event/encryption.py:177-186 | the encrypted document does not depend on the order of the fields |
| `KurrentStream.Print` | event_sourcery_kurrentdb/stream.py:15-35 | a name is printed if and only if neither the tenant nor the category, if any, holds a dash, and with which error otherwise |
| `KurrentStream.PrintedNamesParse` | event_sourcery_kurrentdb/stream.py:15-39 | a printed name and its snapshot name parse to the tenant, uuid and category, an empty category becoming absent |
| `KurrentStream.RoundTripIff` | event_sourcery_kurrentdb/stream.py:22-39 | the round trip is exact if and only if the category is not the empty string |
| `KurrentStream.NamesDoNotCollide` | event_sourcery_kurrentdb/stream.py:30-39 | printing is injective, and no snapshot name is an event stream's name |
| `Ranges.VersionRangeIsPiece` | event_sourcery_django/event_store.py:40-46 | on consecutively numbered events a version range is one contiguous piece, for any bounds |
| `RangeLoads.SliceIsVersionRange` | event_sourcery/_event_store/in_memory.py:243-247 | slicing by index and filtering by version agree on streams numbered from one |
| `RangeLoads.NegativeStartAgreesIff` | event_sourcery/_event_store/in_memory.py:243-246 | a negative start without a stop agrees if and only if the stream is short enough |
| `KurrentStream.WindowIsVersionRangeIff` | event_sourcery_kurrentdb/stream.py:54-62 | the position window agrees with the version filter if and only if the stop is absent or at least two, or the stream is empty |

## Left out

- Real databases, ORM sessions, migrations, gRPC calls and KurrentDB persistent subscriptions: tables are maps with their constraints. Except in `Interleaving` a call's writes are one step, and an error rolls the call back.
- Isolation levels other than reading what is committed at each statement, and locks other than those of a written stream row, its unique keys and the index of events.
- Interleaving.NoLostUpdate: is about one tenant and streams without deletes and snapshots, because the SQLAlchemy version bump and delete are not filtered by tenant.
- The uniqueness of event uuids in SQLAlchemy: sessions draw them fresh. It is modelled for Django, where tenants share it.
- `SqlAlchemyStorageStrategy.delete_stream` and `current_position`, and the event ids the SQL stores report as positions.
- `event_sourcery_django/subscription.py` and `event_sourcery_django/outbox.py`: the same algorithms as the SQLAlchemy files.
- The order SQL gives to rows with equal or missing versions or equal snapshot times: a stable order is taken, missing versions first and the earliest saved snapshot first.
- DjangoStore.TenantPurge: needs that no uuid of the tenant's events and snapshots is used by another tenant; `DjangoStore.AcceptedAmongTenantsIff` says what a shared event uuid does.
- SnapshotRefinement.SnapshotsRefineHistory: is about one tenant, bare events, one name per stream and categories absent or not empty; an expected version of zero is used on absent or empty streams only, as it is not compared otherwise.
- Appends.DjangoLoadsIff: is for streams held in version order or without versions; after an append out of order the load is the events by version, as `VersionOrder.ByVersionSorts` and `Appends.DjangoAppends` give it.
- Appends.AlchemyLoadsIff: likewise.
- RangeLoads.RangeLoadsAgreeIff: is for the same runs as `SnapshotRefinement.SnapshotsRefineHistory`, and for bounds that are not negative.
- RangeLoads.MemReadsByPosition: is for the list of one tenant; `Appends.MemLoadsAppended` says what other tenants load.
- SessionOutcomes.SaveAloneIff: is about a session whose statements follow each other while nobody else holds a row; the others may have done anything before. `Interleaving.RefusedIff` has the verdicts in every other world.
- Snapshots at another version than the current one: rejecting them is not implemented in the library.
- Deletes in the gap subscription: an id that was committed stays.
- GapSubscription.GapDetectingIterator.Next: takes the tables its queries see and the round at which time is over as parameters; a clock is not modelled.
- The category of a cursor row may be absent, which a unique index over it does not compare; the model has one row per projector name and stream.
- Read models that raise, listeners, the dispatcher and outbox runs from inside a publisher.
- A publisher raising something that is not an `Exception`, and a negative limit, with which Python counts from the end of the list.
- InMemorySubscription.InMemorySubscription.Next: starts at a position that is not negative, and takes the number of rounds the time limit allows as a parameter.
- Ciphers, JSON text, uuid hashing and timestamps: functions with stated laws (invertible, injective, ordered); hashing a name is injective and disjoint from drawn uuids.
- Shredding.RoundTripIff: says nothing of a field for which decryption takes another subject that has a key; `Shredding.TripByField` says what is done, and deciphering with a wrong key is up to the cipher.
- Documents.NestedDict.GetItem: wrapping a dictionary that holds a key with a dot writes to other keys or raises, depending on their order. Dictionaries on encrypted paths are dumped models, whose keys are field names.
- Documents.NestedDict.SetItem: does not model that either.
- `EventRegistry.add` and its lookups by name and type, which fill and read dictionaries.
- Parts of `serialize` and `deserialize` beside encryption, and recursive event types.
- Braces, `urn:uuid:` prefixes and upper-case digits that the uuid parser accepts in KurrentDB names, and the check on append there, which is a separate read.
- RangeLoads.SliceIsVersionRange: is for bounds that are not negative; a negative start is covered by `RangeLoads.NegativeStartAgreesIff` without a stop only.
- KurrentStream.WindowIsVersionRangeIff: is for a start not after the stop, since the window's limit is negative otherwise.
- The dependency container, configuration classes and the subscription builder: wiring.
