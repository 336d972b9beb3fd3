# drel, modelled and proved

drel is an ORM for Go with a unit of work, an outbox, an event store, keyset pagination and a migration generator. This
project models the parts of it where correctness is a property of whole runs rather than of single calls, in the form
the Go code has, and proves what its documentation and tests promise. `dafny verify dfyconfig.toml` checks everything.

Values (order, schemas, messages, records) are datatypes; the steps of a protocol are a `Step` datatype with an
`Enabled`/`Apply` pair, and a theorem about "every run" quantifies over every sequence of enabled steps. Loops and
objects of the source are methods and classes (`ChangeTracker`, `Session`, `Engine`, `Relay`, `InboxTable`, `Store`,
`RowsIterator`, `Projector`, `Runner`), each proved equal to a function of its inputs or its old state; the theorems
are about those functions.

| files | what they model |
|---|---|
| `OrderedSeqs`, `Sql`, `Keyset`, `PageWalk`, `HiddenRows` | ORDER BY with NULLs, three-valued WHERE, the cursor predicate, `Page`, the walks along both cursors and the rows they can lose |
| `EventLog`, `Projection`, `EventStore` | transaction ids, commits and aborts, `ReadAll` behind the watermark, optimistic appends, checkpoints |
| `Outbox`, `RelayProtocol`, `RelayRuns`, `RelayAlone`, `PartitionOrder` | the relay: leases, claims, publish calls, acks, failures, give-backs, crashes, any number of replicas |
| `Inbox`, `Delivery` | deduplication in the handler's transaction, and the pipeline from producer to effect |
| `Tracking`, `IdentityMap`, `Flush`, `FullWrite`, `FullTransactions` | the change tracker as a heap class, its one instance for each row, the diff flush, and the naive writer that a flush and a whole transaction are compared with |
| `Savepoints`, `Sessions`, `EventAccounting`, `Transactions`, `Versions` | nested savepoints over the database's stack of marks, the events a transaction hands on, the whole transaction with its sinks and its deferred rollback, and optimistic locking between transactions |
| `DropOrder`, `Schema`, `Renames`, `TableDiff` | drop order, table shapes, rename markers, and the diff of a table that SQLite rebuilds |
| `Sqlite`, `Rebuild`, `RebuildLosses`, `TableRenames`, `TableReplay` | SQLite's statements over rows, constraints and foreign keys, and the rebuild, its up and its down list run on them |
| `PgReplay`, `PgDown`, `ForeignKeys`, `SchemaDiff`, `SchemaReplay`, `SchemaUp`, `SchemaDown` | the Postgres diff of a table, of a column's foreign key and of two whole schemas, replayed on the old database and taken back |
| `MigrationRunner` | replicas that run Up and Down over one set under one lock |
| `IncludeQueries`, `Includes` | IN lists, the ROW_NUMBER window and LIMIT against one query for each key; batched includes against one query for each parent, over a tree of relations |
| `Options` | a value that may be absent |

## Findings

Where the code does not do what a first reading, or its own comment, suggests, the model follows the code and the exact
condition is a lemma.

- **Keyset fallback.** A comment at `pagination.go:158` says that the clause left when no branch remains matches nothing.
  It is `first_column IS NULL`, which is TRUE on rows with a NULL there (`FallbackMatchesNullRows`). A non-null key in the
  order makes it unreachable (`FallbackUnreachable`).
- **Unpinned nullable columns.** The clause of a cursor drops a row after it exactly when the row first differs from the cursor
  in a NULL that the database sorts last and no NULLS option names (`ClauseExact`, `ExactIffNoHiddenRow`, and the two-row
  input in `UnpinnedNullIsDropped`). The row stays missing from every later page of the walk (`HiddenRowNeverReturns`).
- **After on a query that already has Before** does not turn it around, though a comment at `query.go:372` says that the page then begins
  past that cursor: `Before` clears `After`, `After` does not clear `Before`, and the page is the one in front of the new cursor
  (`BackwardSlice`).
- **Events of a hook's own flush.** A before-commit hook that calls `SaveChanges` moves its events to the held list after
  that list was read, so sinks and after-commit hooks never get them: `FlushingHookLosesEvent` is a transaction that commits
  two entities and hands on the event of one. The delivered list is complete if and only if no flush of a hook emits an event,
  unless a savepoint around it is rewound (`DeliveredExactly`); hooks that only stage changes never do (`PlainHooksDeliver`).
- **An edit after a flush is lost.** An entity edited after a flush in the same transaction keeps its flushed mark, so the next
  flush skips it: the row has the edit only if the edit changed nothing (`EditAfterFlushIsLost`).
- **Partition order needs timely batches.** A batch guards the partition by two deadlines read one after the other. When the lease
  runs out before the claim on the first row does, another relay leases the partition, passes over that row and publishes a later
  one while the first is still in its call: `OverrunBreaksOrder` is such a run from an empty outbox, without a crash or a failed
  statement. A relay can take an open row exactly when the lease and the claim on that row have both run out (`TakenExactly`).
- **A key that changes while tracked** leaves a dead slot in the primary-key index (`ChangedKeyLeavesDeadSlot`); adding an entity
  that carries a key of its own to a model with generated keys, saving and detaching it is a program that does so
  (`CarriedKeyLeavesDeadSlot`).
- **One tracked instance for each row**, as the changelog has it, is kept by loads, and by adding entities under keys nothing else in
  memory has (`ExecMaps`, `LoadedAgainIsSame`), but not where a tracked entity has no primary-key slot, which is exactly when a load
  makes a second instance (`LoadResolves`): an attached entity never gets one (`AttachedIsLoadedTwice`), and an inserted one gets the
  slot of its generated key only with the commit (`InsertedIsLoadedTwice`, `CommitMaps`).
- **A version in memory is not taken back.** A comment at `tracker.go:385` says that clearing the flushed marks restores the view of
  before the flush, and the changelog that a failed and retried `SaveChanges` is safe. A versioned update raises the version in memory
  when its statement returns; when the database then takes the row back, the next flush of the same record is a conflict
  (`UndoneUpdateConflicts`), after a failed attempt (`ResetUpdateConflicts`) as after a rewound savepoint (`RewoundUpdateConflicts`).
- **Optimistic locking holds up to a key used again.** A transaction that works from a version others have changed since leaves the row
  as they left it, and fails if it would change it (`NoLostUpdate`), as long as nobody inserts under the row's key. A row that is
  deleted and inserted again under an application's key starts at version 1 once more, and whoever read the first overwrites the second
  (`ReplacedRowIsOverwritten`).
- **A SQLite rebuild drops a table that rows may reference.** Foreign keys are on for every connection, and a comment at
  `internal/codegen/sqliterebuild.go:22` says that `PRAGMA defer_foreign_keys` defers enforcement to the commit. It defers
  violations, not what ON DELETE does: the DROP TABLE deletes the old rows, and their children with CASCADE go, though the table
  is back under its name before the commit (`CascadeTakesChild`). A table that references itself with CASCADE comes out without
  its referencing rows, because the copies still reference the old table (`CascadeTakesOwnRows`). A NO ACTION reference
  fails the commit (`NoActionFails`). Every row that references the table pays (`ReferringRowPays`). Dropping a table touches
  nothing else if and only if no row of another table references one of its rows (`DropIsClean`), and a rebuild does what it
  is for if and only if moreover its scratch name is free, the new shape can be made, the copied rows meet its NOT NULLs, checks,
  keys, references and unique indexes, and its indexes name its columns (`RebuildSucceeds`).
- **A rebuild between shapes that share no column** copies nothing and empties the table; otherwise a row is lost only with
  the row it references (`NothingSharedNothingKept`).
- **An index predicate that names a renamed column** makes the SQLite down migration fail (`PredicateStopsDown`). The down list
  gives the old table back, and every other one, exactly when its scratch name is free, the rows meet the NOT NULLs, checks, keys,
  references and unique indexes of the old shape, no old predicate and no old check names a renamed column, and no row
  references the table (`DownSucceeds`).
- **Postgres type changes.** The type of a column is changed before its default and before its indexes. The default it holds has to
  read as the new type: text with DEFAULT '0' to integer with DEFAULT 0 fails on an empty table (`DefaultBlocksType`). So has every
  index in place: a partial index on `c <> ''` blocks the change of `c` to integer though the same diff replaces it
  (`PredicateBlocksType`), and the way back makes the old index while the column still has the new type (`PredicateBlocksDown`).
  A key column's type text carries PRIMARY KEY or a sequence and is no type to change to (`KeyTypeBlocksType`). The up list of a
  table succeeds exactly when every changed column can be altered in turn, the old indexes read at each step, and every new
  index can be made (`UpReplays`).
- **Postgres up migrations**, with the key columns the same on both sides, succeed exactly when each new table comes after the
  tables it references and its indexes read, no table that stays references one that goes (drops are emitted before the ALTERs
  that would remove the key), the dropped tables have no reference cycle, and every table that stays can be altered
  (`SchemaReplays`).
- **Postgres down migrations.** After a feasible up, down gives the old database back, tables and references, if and only if every table
  that stays can be altered back, no dropped table had an index, and none referenced a renamed table (`SchemaRoundTrip`). The
  references between new tables are never in the way, and a change that only creates tables is always taken back
  (`CreatedComeAndGo`). The element-wise reversal puts a dropped table's index before the table (`DroppedIndexStopsDown`), and the
  dropped table before the old name of a renamed one. A table that stays can be altered back exactly when each old index that
  changed can be made over the new columns and each changed column can be changed back (`DownUndoesUp`): an index over a column that
  was dropped or renamed cannot (`IndexedColumnStopsDown`), nor can a renamed column whose default changed, because the default is
  put back under the name the column does not have yet (`RenamedDefaultStopsDown`).
- **A foreign key written with its column outlives its removal** on Postgres. The diff drops a constraint by a name of its own, and the
  one that CREATE TABLE made has the database's name: after the up list the column references what the new schema declares if and
  only if no constraint of another name says otherwise (`ReferencesAsDeclared`, `InlineReferenceStays`). Up and down leave the
  constraints as they were exactly when the old key was under the diff's name or there was none (`ReferenceRoundTrip`); the key of a
  renamed column cannot be put back (`RenamedReferenceStopsDown`).
- **A reset between a fetch and its commit** keeps a collecting projection exact only if nothing had been read before
  (`ResetUnderABatch`); `ResetLosesAnEvent` is a run that loses its first event that way.
- **A limited include without an order** takes the first rows by primary key when its statement asks for several parents, and a bare
  LIMIT when it asks for one, as happens to the last parent of 1001. A bare LIMIT settles which rows come back exactly when it
  takes none or all (`UnorderedLimitIsArbitrary`).
- **A limit on a many-to-many include** counts the rows of each target, of which there is one, so it caps nothing: a parent is given
  its whole join (`PivotLimitCapsNothing`), two rows under a limit of one in `LimitOneLoadsTwo`.

## Model

| member | source | states |
|---|---|---|
| Keyset.BuildClause | pagination.go:130-166 | the nested loops build the OR of one branch for each ordering column, or fail with the nullable-column error when the cursor holds an unpinned NULL |
| Keyset.EqTermIsTrue | pagination.go:170-178 | the tie-break term is TRUE exactly on the rows equal to the cursor in that column, NULL included |
| Keyset.StrictTermIsTrue | pagination.go:183-221 | the advancing term is TRUE exactly on the rows strictly past the cursor in that column, in both directions and every NULLS option, except a NULL hidden behind an unpinned column |
| Keyset.ClauseExact | pagination.go:130-166 | in three-valued logic the whole clause is TRUE on a row if and only if the row sorts strictly after the cursor and is not hidden: for every order, dialect, cursor and row |
| Keyset.ExactIffNoHiddenRow | pagination.go:130-166 | on a table the clause is the order itself exactly when no row is hidden |
| Keyset.PinnedIsExact | pagination.go:130-166 | with every nullable column pinned the clause is accepted and is TRUE exactly on the rows after the cursor |
| Keyset.UnpinnedNullIsDropped | pagination.go:183-221 | a concrete order, cursor and row after it that the clause drops on Postgres |
| Keyset.FallbackMatchesNullRows | pagination.go:157-161 | when no branch is left nothing sorts after the cursor, yet the fallback is TRUE on rows whose first column is NULL |
| Keyset.FallbackUnreachable | pagination.go:227-242 | with a non-null primary key added by cursorOrder some branch is always left |
| Keyset.BuildCursorOrder | pagination.go:227-242 | the loops append each key column that no caller ordering names |
| Keyset.CursorOrderCovers | pagination.go:227-242 | the caller's order stays in front, every key column is ordered, and only ascending key columns are added |
| Keyset.CursorOrderExact | pagination.go:227-242 | the ordering is the caller's, then the key columns the caller does not order, ascending, in the order of the key |
| Keyset.CursorOrderSeparates | pagination.go:224-242 | rows with different keys never tie |
| Keyset.BuildInverted | pagination.go:292-312 | the loop flips every direction and NULLS option |
| Keyset.InvertInvolution | pagination.go:292-312 | inverting twice gives the order back |
| Keyset.InvertMirrors | pagination.go:289-312 | the inverted order is the mirror image of the order, NULLs included, pinned or not |
| OrderedSeqs.ReverseInPlace | pagination.go:315-319 | swapping in place reverses the array |
| PageWalk.BuildWheres | query.go:387-420 | the filters of a page: the caller's, and the clause of its After or Before cursor with the inverted order for Before |
| PageWalk.BuildPage | query.go:430-472 | a page from the n + 1 rows fetched: the extra row cut, items reversed for Before, HasMore, HasPrev and both cursors |
| PageWalk.FetchPage | query.go:376-472 | Page as a whole, with its errors for a missing order, a missing or non-positive limit and a cursor of other columns |
| PageWalk.ForwardSlice | tx.go:721-817 | the page after the i-th row is the next n rows of the sorted result, HasMore says whether rows are left, NextCursor is the last item's |
| PageWalk.BackwardSlice | query.go:387-463 | Before the i-th row returns the n rows in front of it in natural order; HasMore holds, NextCursor is the last item's, and HasPrev and PreviousCursor, the first item's, are there exactly when rows lie further back; a cursor given to After on top of it takes its place |
| PageWalk.BackReturnsPreviousPage | query.go:387-463 | Before the first item of page k + 1 is page k, item for item |
| PageWalk.ForwardFromBack | query.go:387-463 | After the NextCursor of a Before page returns the rows from where that page was asked for |
| PageWalk.Walk | query.go:376-472 | on a fixed table following NextCursor until HasMore is false ends, and the pages concatenate to the whole sorted result |
| PageWalk.WalkBack | query.go:376-472 | on a fixed table following PreviousCursor from any row until HasPrev is false ends, and the pages concatenate to everything in front of the row |
| PageWalk.PageErrors | query.go:376-420 | exactly when a page is refused and with which error: no order, no limit, a limit below one, a cursor that is unreadable or of other columns, a NULL in a column whose NULLs are not placed |
| PageWalk.WalkSteps | query.go:376-472 | with the table changed at will between pages, each page holds the first candidates past the previous page's last row and says whether more are left |
| PageWalk.StepsAscend | query.go:376-472 | a walk never goes back |
| PageWalk.StableRowAhead | query.go:376-472 | a row that stays in place is already returned or still ahead of the cursor |
| PageWalk.WalkIsStable | query.go:376-472 | under any inserts, deletes and updates between pages a finished walk is strictly ascending, repeats nothing, holds only rows its pages found, and returns every row that stayed in place |
| HiddenRows.LostStays | pagination.go:183-221 | a row that a cursor's clause is not TRUE on is lost again at every row that clause lets through, hidden in the same column or behind it |
| HiddenRows.HiddenRowNeverReturns | query.go:376-472 | in a walk over tables with NULLs anywhere but in the key, written to at will between pages, a row lost at one cursor is on no later page |
| EventLog.SettledStays | es/es.go:264-274 | once every transaction at or below a position is closed, no later insert, commit or abort changes the committed events up to it |
| EventLog.BatchIsNext | es/es.go:274-294 | ReadAll returns committed events after the position and below the watermark, strictly ascending, and misses none up to its last |
| EventLog.BatchIsFull | es/es.go:274-294 | a batch holds no more events than its limit, and fewer only when it holds every event there is to return |
| EventLog.PrefixContinues | es/es.go:274-294 | any prefix of a batch, even one that cuts inside a transaction, continues the settled events exactly |
| EventLog.StreamsAreGapless | es/es.go:83-118 | when every append expects a version it could see, each stream's committed versions are 1, 2, ..., n in every run, over all interleavings and aborts |
| EventLog.OneWinnerPerVersion | es/es.go:149-182 | no two committed events share a stream and a version, honest callers or not |
| Projection.ProjectionIsExact | examples/event-sourcing/main.go:214-271 | in every run of writers, batches, handler failures, rollbacks, partial batches and resets the read model is the fold of exactly the committed events at or before the stored checkpoint |
| Projection.ReaderIsExact | es/es.go:274-294 | watermark safety: what a reader was given is ascending, without repeats, and holds a committed event if and only if it lies at or before the reader's position; no open transaction can land behind it |
| Projection.SnapshotAgeIsIrrelevant | es/es.go:274-294 | a read under an older snapshot's watermark returns the same events later |
| Projection.UnreadIsFound | es/es.go:274-294 | once the watermark passed an unread event ReadAll returns something |
| Projection.EventIsReached | es/es.go:264-294 | once no transaction at or below its id is open, an event is delivered within as many committed batches as there are unread events up to it |
| Projection.ResetUnderABatch | es/checkpoint.go:80-91 | a reset between a fetch and its commit keeps the model exact if and only if nothing had been read |
| Projection.ResetLosesAnEvent | es/checkpoint.go:80-91 | a run of two events in which such a reset leaves the second one alone in the model, and the position past both |
| EventStore.Store.Append | es/es.go:83-118 | on success the transaction's pending rows are the old ones and one for each event, with this stream, ascending positions, the next versions and the payloads in order, and nothing else changed; on any other outcome exactly the events before the one it names are there |
| EventStore.AppendExact | es/es.go:83-118 | the same of the append as a function: at which event it stops, with which error, and what is in the log then |
| EventStore.AppendIsHonest | es/es.go:83-118 | an append that expects a version it can see is a run of the honest steps of the log, wherever it stops |
| EventStore.AppendDecides | es/es.go:83-118 | on a stream nobody else is writing an append of named events succeeds if and only if it expected the head it sees, and otherwise reports the conflict at its first event |
| EventStore.RowsIterator.Next | es/es.go:185-216 | the iterator yields each row once, stops at the first that cannot be decoded and keeps that error, or takes the driver's error at the end |
| EventStore.Collected | es/es.go:185-225 | draining without an error gives the whole result set in order |
| EventStore.Projector.Load | es/checkpoint.go:37-49 | the position the last Save or Reset of that projection committed, whatever was saved for others since; the start if there was none |
| EventStore.Projector.Save | es/checkpoint.go:58-72 | adds one position to the history of the table that Load answers from |
| EventStore.Projector.Reset | es/checkpoint.go:80-91 | the model and the latest position go back to the start together |
| EventStore.Projector.Project | examples/event-sourcing/main.go:214-271 | one batch in one transaction: the model is folded and every event's position reported when all are accepted, and neither moves otherwise |
| EventStore.LatestReport | examples/event-sourcing/main.go:214-271 | after a batch the latest position of its projection is its last event's, and no other projection's has moved |
| EventStore.AcceptedIsFold | examples/event-sourcing/main.go:214-271 | a handler that accepts a batch computes the fold the projection theorem speaks of |
| EventStore.RejectedAt | examples/event-sourcing/main.go:214-271 | a batch is refused if and only if the handler rejects some event on the model that the accepted ones before it made |
| Outbox.Relay.LeasePartition | relay.go:329-350 | the upsert wins exactly when no live lease stands and then belongs to this worker until now plus the lease time |
| Outbox.Relay.ReleasePartition | relay.go:353-360 | the holder's own lease is gone afterwards, and every other lease, of another partition or another relay, is as it was |
| Outbox.Relay.ClaimRows | relay.go:364-437 | claims the oldest claimable rows of one partition up to the limit, stamps the lease and counts one attempt on each, and returns them in id order |
| Outbox.OldestIsOldestFirst | relay.go:407-437 | ORDER BY id LIMIT over claimable rows leaves no older claimable row of the partition behind |
| Outbox.Relay.GiveBack | relay.go:497-508 | each message never tried gets its lease and its attempt back, unless the statement for it fails |
| Outbox.Relay.PublishGroup | relay.go:449-491 | publishes in order, stops at the first failure and gives the rest back; counts the messages published and acked, as far as it knows |
| Outbox.GroupOutcome | relay.go:449-557 | with p messages published and acked, as far as the loop knows, those are processed; the next is failed (dead at the limit), keeps its claim if recording failed, or is processed if that only seemed to fail; every one behind it has its attempt and lease back |
| Outbox.OthersUntouched | relay.go:449-557 | no other row changes |
| Inbox.InboxTable.Claim | inbox.go:46-71 | claims exactly the messages this handler has not processed, and marks them processed in the same transaction |
| Inbox.InboxTable.Fail | inbox.go:79-95 | counts a failed attempt and never changes what is processed |
| Inbox.InboxTable.Purge | inbox.go:102-109 | deletes exactly the rows received before the time and returns how many |
| RelayRuns.AttemptsConserved | relay.go:425-557 | in every run with crashes, statements lost or wrongly reported as failed, and expired leases, attempts = claims - give-backs >= 0, and claims = acks + failures + give-backs + abandoned + in hand |
| RelayRuns.SentRowsCommitted | outbox.go:48-79 | nothing is sent for a row whose producing transaction did not commit; a processed row had a successful call; a dead row had at least maxAttempts claims |
| RelayRuns.ClosedForGood | relay.go:407-437 | processed and dead are absorbing over every continuation, and such a row is never claimed again |
| RelayRuns.LeaseEndsByHolder | relay.go:329-360 | at any step a live lease ends if and only if the step is its own holder's release of it |
| RelayRuns.GivenUpIsFree | relay.go:353-360 | after a release by the holder any relay can lease the partition at once, whatever the clock |
| RelayRuns.LiveLeaseStands | relay.go:329-360 | in every run, timely or not, a lease whose holder has not given it up stands, with its holder and no earlier end, until the clock passes it |
| RelayAlone.PublishGroupIsARun | relay.go:449-557 | the publish loop of one group is a run of the step relation with the same final rows |
| Delivery.EffectsAreExact | inbox.go:46-95 | in every run of the pipeline with redelivery, crashes and recorded failures a handler's committed effects on a message are its processed inbox row plus what a purge forgot, and come only from committed, sent rows |
| Delivery.AtMostOnce | inbox.go:16-71 | without a purge each effect commits at most once, and exactly once when the row is processed |
| Delivery.ProcessedForGood | inbox.go:46-95 | a processed inbox row stays processed with the same effect until a purge |
| PartitionOrder.OnePublisher | relay.go:238-290 | in timely runs at most one batch of a partition is in progress, and its relay holds the live lease |
| PartitionOrder.PublishedInOrder | relay.go:445-491 | in timely runs, while a message is about to be published, in a call or just returned, every lower id of its partition is processed or dead |
| PartitionOrder.DeadExactly | relay.go:493-557 | in timely runs a message is dead if and only if maxAttempts of its calls failed, processed if and only if acked once, never both, and attempts = acks + failures + in hand |
| PartitionOrder.TakenExactly | relay.go:329-402 | an idle relay can take an open row of a partition if and only if the lease and the claim on that row have both run out |
| PartitionOrder.OverrunBreaksOrder | relay.go:329-491 | a run of two relays from an empty outbox, without a crash or a failed statement, in which a later row of a partition is accepted while an earlier one is still in its call |
| Tracking.ChangeTracker.Track | tracker.go:96-126 | a loaded row resolves to the tracked instance with its key, or becomes a new record with its snapshot |
| Tracking.ChangeTracker.MarkAdded | tracker.go:164-182 | an untracked entity becomes Added, with a primary-key slot when its key is set |
| Tracking.ChangeTracker.Attach | tracker.go:208-227 | sets the state of a tracked entity or adds a record, never a primary-key slot |
| Tracking.ChangeTracker.Detach | tracker.go:230-247 | removes the record, its pointer entry and its slot |
| Tracking.ChangeTracker.MarkDeleted | tracker.go:249-268 | reports an untracked entity; cancels an insert not flushed yet; otherwise marks the record deleted and unflushed |
| Tracking.ChangeTracker.MarkHardDeleted | tracker.go:282-294 | the same with the hard-delete flag |
| Tracking.ChangeTracker.DetectChanges | tracker.go:296-311 | exactly the unflushed unchanged records whose diff is not empty become Modified |
| Tracking.DetectionExact | tracker.go:296-311 | detection changes exactly the unchanged records of a diffable model with a column that is not the one in their snapshot |
| Tracking.ChangeTracker.GetPendingChanges | tracker.go:319-337 | the unflushed added, modified and deleted records, each list in tracking order |
| Tracking.ChangeTracker.Save | tracker.go:348-357 | the list and a copy of every record |
| Tracking.ChangeTracker.Restore | tracker.go:362-373 | list and records as saved, pointer index and slots rebuilt from them |
| Tracking.ChangeTracker.ResetFlushed | tracker.go:389-393 | clears every flushed mark and nothing else |
| Tracking.ChangeTracker.PostCommit | tracker.go:400-438 | the in-place filter drops deleted records and restarts the others from what they hold, with their slots |
| IdentityMap.LoadResolves | tracker.go:96-126 | a loaded row gives the tracked entity of its key and changes nothing; it becomes a second instance if and only if a tracked entity has its key without a slot |
| IdentityMap.LoadedAgainIsSame | tracker.go:96-126 | in any state a tidy program reaches, loading the row of a tracked entity again gives that entity, with the values it has in memory |
| IdentityMap.ExecMaps | tracker.go:96-373 | through any operation, nested savepoints and their rewinds included, no row is tracked twice and every key leads to its entity, when rows come into new instances and entities are added under unused keys |
| IdentityMap.ExecAllMaps | tracker.go:96-373 | the same through any program of operations |
| IdentityMap.AttachedIsLoadedTwice | tracker.go:208-227 | after Attach a load of the same row tracks a second instance |
| IdentityMap.InsertedIsLoadedTwice | tracker.go:164-182 | so does a load, before the commit, of a row whose key this transaction generated |
| IdentityMap.CommitKeepsOrder | tracker.go:400-438 | after the commit the deleted records are gone and the others there in their order, unchanged and unflushed, a changed one with what it holds as its snapshot |
| IdentityMap.EditFoundAfterCommit | tracker.go:296-438 | an edit after the commit is found if and only if it changes a column of what was committed |
| IdentityMap.CommitMaps | tracker.go:400-438 | after the commit every tracked entity with a key is found by it, generated keys included, and every slot is a tracked entity's own |
| Flush.SecondFlushIsEmpty | mutation.go:34-210 | flushing again at once sends no statement, collects no event and changes no bookkeeping |
| Flush.RunStops | mutation.go:34-210 | the statements before the first that fails took effect in turn, and nothing after it |
| Flush.FlushMarks | mutation.go:34-210 | a flush that succeeds marks every changed record as sent; one that fails marks none and hands on no event |
| Flush.WorkOnce | tracker.go:319-337 | the pending lists hold each unflushed changed record once |
| Flush.WorkOrdered | mutation.go:34-210 | a flush sends its inserts, then its updates, then its deletes, each in the order the entities were tracked |
| Flush.StatementSucceeds | mutation.go:34-210 | exactly when one statement goes through: keys given and free for an insert, the row there for an update that changes something, the version in memory for a versioned update or delete |
| FullWrite.StatementStores | mutation.go:34-210 | one insert, diff update, soft or hard delete leaves in its row what storing the entity in full leaves |
| FullWrite.FlushIsAFullWrite | mutation.go:34-210 | a flush that succeeds leaves the user columns and deletions of a naive writer that stores every tracked entity in full |
| FullWrite.StaysComparable | mutation.go:34-210 | the premises hold again afterwards, so any number of flushes is a full write |
| FullTransactions.SimpleInStep | tracker.go:96-294 | load, add, attach, detach, remove, hard remove, assignment, event and raw statement each keep memory, records and rows in step, from what each can be asked to mind |
| FullTransactions.RewoundInStep | tx.go:177-234 | so does a savepoint that was rewound, whatever its body did to the database |
| FullTransactions.ExecIsNaive | tx.go:25-234 | after any operation, nested savepoints included, the rows read as those of a naive writer beside it |
| FullTransactions.TransactionIsAFullWrite | transaction.go:52-149 | a committed transaction leaves exactly the user columns and deletions of the naive writer, from BEGIN through body, flushes, savepoints and hooks |
| FullTransactions.StagedWorkIsAFullWrite | transaction.go:52-149 | without savepoints, raw statements and hooks: every tracked entity stored in full over the rows of the beginning |
| FullTransactions.EditAfterFlushIsLost | tracker.go:319-337 | the next flush leaves the row of an edited entity that was flushed before as it is, so the edit is stored if and only if it changes nothing |
| Savepoints.ExecExtends | tx.go:177-219 | whatever a nested body does, older savepoints and held events stay in place and newer names are newer |
| Savepoints.RewoundAsBefore | tx.go:177-234 | at any nesting a savepoint whose body or flush fails is rewound, unless its ROLLBACK TO fails too, and leaves rows, records and held events exactly as at entry |
| Savepoints.SavepointOutcome | tx.go:177-234 | which outcome a savepoint has, from the faults of its own statements, its body and its closing flush |
| Savepoints.SavepointLeaves | tx.go:177-234 | what each outcome leaves of tables, memory, records, held events and marks: a released savepoint keeps the work and loses its mark, a rewound one the other way round, and a failed RELEASE keeps the work and restores the records |
| Savepoints.ExecLive | tracker.go:362-373 | through any operation no entity is tracked twice and every primary-key slot is live at its record's own key, when set keys do not change |
| Savepoints.ExecAllLive | tracker.go:362-373 | the same through any program of operations |
| Savepoints.ChangedKeyLeavesDeadSlot | tracker.go:230-247 | after Detach the old slot is gone if and only if the entity still has the key it was indexed under |
| Savepoints.CarriedKeyLeavesDeadSlot | tracker.go:164-247 | Add, SaveChanges and Detach of an entity that carries a key, on a model with generated keys, leave a slot that leads to no record |
| Sessions.Session.RunStatements | mutation.go:34-210 | the loop over one pending list, up to the first failing statement, versioned updates and deletes under their version check |
| Sessions.Session.FlushChanges | mutation.go:234-240 | detection, inserts, updates, deletes, marks and collected events together are the flush function |
| Sessions.Session.SaveChanges | tx.go:25-32 | a flush whose events are appended to the held ones, or its error |
| Sessions.Session.RewindSavepoint | tx.go:225-234 | ROLLBACK TO, RELEASE, tracker restored, held events cut |
| Sessions.Session.ReleaseSavepoint | tx.go:205-219 | RELEASE, with the bookkeeping restored when it fails |
| Sessions.Session.RunSavepoint | tx.go:177-219 | the savepoint call over the heap tracker is the savepoint function |
| Sessions.Session.Execute | tx.go:177-219 | every operation over the heap is its function on values |
| Sessions.Session.ExecuteAll | tx.go:177-219 | a whole program over the heap is its function on values |
| EventAccounting.SavedExact | mutation.go:234-265 | a flush adds the pending events of the entities it flushes, none of which it had added before |
| EventAccounting.ExecExact | tx.go:25-234 | across flushes and rewound savepoints the held events are the pending events of each flushed entity, each once |
| EventAccounting.ExecAllExact | tx.go:25-234 | the same through any program in which flushed entities are not removed, detached or given new events |
| Transactions.MarkOutlivesAll | transaction.go:81-149 | whatever body, flushes, hooks and sinks wrote and wherever they stopped, the mark of BEGIN is still the lowest one of the open transaction |
| Transactions.CommittedTells | transaction.go:124-149 | each sink of a committed transaction stored every event the after-commit hooks are told, once and in order |
| Transactions.FailedTransactionIsNothing | transaction.go:81-149 | a transaction that returns an error, from any statement of its body, flushes, hooks, sinks or commit, ends with the tables of BEGIN after its deferred rollback and tells no after-commit hook |
| Transactions.NothingStaysMarked | transaction.go:104-149 | no record is marked flushed when the transaction returns, committed or failed from the first flush on, and after a commit every record is unchanged; a failed body leaves its marks |
| Transactions.DeliveredExactly | transaction.go:104-149 | the list for sinks and after-commit hooks holds the pending events of every flushed entity exactly once, if and only if no flush of a before-commit hook emits an event, but inside a savepoint that is rewound or not released |
| Transactions.PlainHooksDeliver | transaction.go:104-149 | it does so for every transaction whose hooks neither call SaveChanges nor nest a savepoint |
| Transactions.FlushingHookLosesEvent | transaction.go:104-149 | a transaction whose hook adds and flushes an entity commits it and hands on only the body's event |
| Transactions.Engine.Transact | transaction.go:52-149 | the call over the heap tracker is the transaction function, with the rollback of a failed attempt on its way out |
| Transactions.Engine.Finish | transaction.go:100-122 | flush and hooks, each failure resetting the flushed marks |
| Transactions.Engine.RunSinkList | transaction.go:124-129 | the sinks in turn, each writing its rows into the open transaction, up to the first that fails |
| Transactions.Engine.Commit | transaction.go:118-149 | hook flush, sinks, commit, PostCommit and the events to dispatch |
| Versions.VersionedWrite | mutation.go:130-190 | a versioned update or delete that the database does not refuse succeeds if and only if the row has the version in memory; the update raises both by one, and nothing but its row and its entity changes |
| Versions.InsertStartsAtOne | mutation.go:38-86 | an insert replaces no row, and starts at version 1 in the row and in memory |
| Versions.ConflictFails | mutation.go:134-190 | a flush that would change the row of an entity whose version is not the row's fails |
| Versions.TransactionKeeps | transaction.go:52-149 | committed or not, with any savepoints, hooks and flushes: a transaction without the row's current version leaves the row as it is, and one that respects versions leaves it as it is, at a higher version, or gone |
| Versions.VersionsRise | transaction.go:52-149 | however many transactions run, a row that was there is as it was, has a higher version, or is gone, when none inserts under its key |
| Versions.NoLostUpdate | mutation.go:134-190 | a transaction that works from a version read before others changed the row leaves it as they left it, and fails if a change of it is pending at its flush: of two readers of one version at most one commits a change |
| Versions.ReplacedRowIsOverwritten | mutation.go:38-145 | a concrete row with an application's key, deleted and inserted again, is overwritten by a transaction that read the first one |
| Versions.UndoneUpdateConflicts | tracker.go:385-393 | a versioned update that was sent and undone in the database makes every later flush of the record fail |
| Versions.RewoundUpdateConflicts | tx.go:177-234 | so after a rewound savepoint in which it was flushed |
| Versions.ResetUpdateConflicts | tracker.go:385-393 | and after a failed attempt that only cleared the flushed marks |
| DropOrder.FkSafeDropOrder | internal/codegen/schema.go:995-1053 | ends with a permutation of the dropped tables, safe for foreign keys exactly when some order is |
| DropOrder.FirstPendingIsFree | internal/codegen/schema.go:995-1053 | when a safe order exists a pass always finds a table to emit |
| DropOrder.StuckHasNoOrder | internal/codegen/schema.go:1037-1053 | when no table can be emitted no safe order exists |
| Renames.ResolveColumnRenames | internal/codegen/schema.go:545-572 | accepts exactly the marker lists without a clash and returns the markers that apply, in order |
| Renames.ClashIsConflict | internal/codegen/schema.go:536-572 | a clash is a marker that lands on an existing column, or two that claim the same one |
| Renames.MarkersAccepted | internal/codegen/schema.go:545-572 | accepted renames start at different old columns and end at different new ones |
| Renames.LookupIsAfter | internal/codegen/schema.go:583-601 | accepted renames applied in turn and looked up at once agree |
| Renames.LookupInjective | internal/codegen/schema.go:506-533 | accepted renames send different names to different names |
| Rebuild.SharedColumnNames | internal/codegen/sqliterebuild.go:68-80 | the columns both shapes have, in the target's order |
| Rebuild.SqliteRebuild | internal/codegen/sqliterebuild.go:33-63 | the statements of a rebuild, with the copy left out when nothing is shared |
| Sqlite.CommitDecides | internal/migrate/migrate.go:408-433 | nothing pays for a foreign key a statement left without its row, so a migration succeeds if and only if no statement fails or leaves one |
| Sqlite.DropIsClean | internal/codegen/sqliterebuild.go:50-56 | with foreign keys enforced, DROP TABLE takes its table and nothing else if and only if no row of another table references one of its rows |
| Rebuild.Rebuilt | internal/codegen/sqliterebuild.go:33-63 | a rebuild that succeeds leaves exactly the target's columns, key and indexes over the copied rows, and every other table its rows, as far as the drop of the old table left them |
| Rebuild.IndexesFit | internal/codegen/sqliterebuild.go:54-63 | it succeeds only if every index names columns of the target |
| Rebuild.RebuildSucceeds | internal/codegen/sqliterebuild.go:33-63 | it makes the new table with the copied rows and changes no other table if and only if its scratch name is free, the target can be made, the copied rows meet its NOT NULLs, checks, keys, references and unique indexes, its indexes name its columns, and no row of another table, and no copied row, references a row of the table; when none does, it succeeds under the rest alone |
| RebuildLosses.ReferringRowPays | internal/codegen/sqliterebuild.go:20-24 | in a rebuild that succeeds every row that references the table is deleted or changed, with CASCADE deleted, with SET NULL emptied |
| RebuildLosses.NoActionStops | internal/codegen/sqliterebuild.go:20-24 | a NO ACTION reference from a row that nothing else acts on makes the migration fail |
| RebuildLosses.CascadeTakesChild | internal/codegen/sqliterebuild.go:20-24 | a concrete parent and child: the rebuild of the parent commits and the child is gone |
| RebuildLosses.NoActionFails | internal/codegen/sqliterebuild.go:20-24 | the same with NO ACTION fails |
| RebuildLosses.CascadeTakesOwnRows | internal/codegen/sqliterebuild.go:20-24 | a concrete table of two rows, one under the other, comes out of its rebuild with one |
| TableDiff.RelabelColumns | internal/codegen/sqliterebuild.go:96-126 | refuses a renamed column that carries a check, and otherwise relabels columns, indexes and key |
| TableDiff.RelabelledIsRelabelAll | internal/codegen/sqliterebuild.go:96-144 | relabelling by lookup is what the rename statements do in turn |
| TableDiff.DiffTable | internal/codegen/schema.go:575-718 | on SQLite a table diff conflicts, is in place, is unsafe, or is renames and one rebuild with its reversed down list, each under its exact condition |
| TableDiff.EmitRebuild | internal/codegen/schema.go:699-718 | each direction of the rebuild is one element, so the reversal leaves its own statements in order |
| OrderedSeqs.Reversed | internal/codegen/schema.go:494-501 | swapping in place reverses the down list |
| TableRenames.RenamesRun | internal/codegen/schema.go:585-594 | accepted renames never fail, and carry along the rows and the foreign keys of the other tables |
| TableRenames.RenamesBack | internal/codegen/schema.go:585-594 | undone in reverse they never fail either, and give the old shape back |
| TableReplay.UpGivesNewShape | internal/codegen/schema.go:699-718 | an up list that succeeds leaves exactly the new shape; it keeps every row and every other table if and only if the rebuild fits after the renames and no row references the table |
| TableReplay.DownGivesOldShape | internal/codegen/schema.go:494-501 | a down list that succeeds leaves exactly the old shape; it keeps every row and every other table if and only if the rebuild fits and no row references the table |
| TableReplay.RebuildRoundTrip | internal/codegen/schema.go:575-718 | when both rebuilds fit and no row references the table, up gives the new table and down the old one, and every other table, references included, is as it was |
| TableReplay.ValuesComeBack | internal/codegen/schema.go:575-718 | up, then down: the row count is kept, and in each row every kept or renamed column's value at both ends |
| TableReplay.NothingDroppedAllBack | internal/codegen/schema.go:575-718 | when no column is dropped the rows after up and down are the rows before |
| TableReplay.NothingSharedNothingKept | internal/codegen/sqliterebuild.go:33-63 | an up list that succeeds keeps the row count if and only if the shapes share a column and no copied row goes with the row it references |
| TableReplay.PredicateStopsDown | internal/codegen/schema.go:699-718 | an old index predicate that names a renamed column makes the down list fail |
| TableReplay.DownSucceeds | internal/codegen/schema.go:494-501 | the down list gives the old shape with every row, and every other table, if and only if its scratch name is free, the rows meet the NOT NULLs, checks, keys, references and unique indexes of the old shape, no old predicate or check names a renamed column, and no row references the table |
| PgReplay.UpReplays | internal/codegen/schema.go:575-830 | on Postgres the up list of one table succeeds on the old table if and only if every changed column can be altered in turn, its default cast and the indexes in place reading under the new type, and every new index reads, and then gives exactly the new one: columns, type, nullability, default, keys, indexes |
| PgReplay.DefaultBlocksType | internal/codegen/schema.go:575-830 | a concrete text column whose default does not read as the new type fails to become an integer |
| PgReplay.PredicateBlocksType | internal/codegen/schema.go:752-797 | a concrete partial index that reads as text blocks the change of its column to integer, though the diff replaces it with one that reads |
| PgReplay.KeyTypeBlocksType | internal/codegen/schema.go:575-830 | a concrete key column whose type text changes fails |
| PgDown.EmitDiff | internal/codegen/schema.go:575-750 | the loops emit that up list and, in step, its down statements |
| PgDown.DownUndoesUp | internal/codegen/schema.go:575-750 | for any columns renamed, added, dropped or altered and any indexes: each list succeeds if and only if every changed column can be altered its way, in turn and with the indexes in place reading, and the indexes it makes fit and read; up then gives the new table and the reversed down list the old one |
| PgDown.IndexedColumnStopsDown | internal/codegen/schema.go:720-747 | an old index over a column that was dropped or renamed makes the down list fail |
| PgDown.RenamedDefaultStopsDown | internal/codegen/schema.go:823-831 | so does a renamed column whose default changed |
| PgDown.PredicateBlocksDown | internal/codegen/schema.go:720-747 | the same table cannot be taken back: the old index is made while its column still has the new type |
| ForeignKeys.DiffReference | internal/codegen/schema.go:834-857 | the statements for a changed reference, up and down |
| ForeignKeys.ChangedReference | internal/codegen/schema.go:834-857 | the up list never fails, replaces the constraint of the diff's own name and leaves every other one |
| ForeignKeys.ReferencesAsDeclared | internal/codegen/schema.go:834-857 | the column then references exactly what the new schema declares if and only if no constraint of another name says otherwise |
| ForeignKeys.InlineReferenceStays | internal/codegen/schema.go:144-180 | a reference that was written with its column stays when it is dropped or changed |
| ForeignKeys.ReferenceRoundTrip | internal/codegen/schema.go:834-857 | up and down leave the constraints as they were if and only if the old reference was under the diff's name, or there was none and the name was free |
| ForeignKeys.RenamedReferenceStopsDown | internal/codegen/schema.go:834-857 | the changed reference of a renamed column makes the down list fail |
| SchemaDiff.DiffSchemas | internal/codegen/schema.go:373-501 | rejects exactly the schemas with a conflicting marker, and otherwise emits renames, creations, drops in a foreign-key order and table diffs, with the reversed down list |
| SchemaDiff.MarkedAccepted | internal/codegen/schema.go:506-533 | table markers that do not clash are collision-free |
| SchemaReplay.InOldOrderLookup | internal/codegen/schema.go:385-410 | renames emitted in the old schema's order relabel every table as the rename map does |
| SchemaReplay.Retitling | internal/codegen/schema.go:385-410 | the rename statements succeed, leave each old table under its new name, and carry the references along |
| SchemaUp.MakesRun | internal/codegen/schema.go:427-436 | the new tables are created with their indexes exactly when each finds the tables it references and its indexes read |
| SchemaUp.BlockedIff | internal/codegen/schema.go:438-450 | a drop fails if and only if a table that stays references a dropped one or the order is not safe |
| SchemaUp.DiffsRun | internal/codegen/schema.go:452-464 | the table diffs succeed if and only if each table can be altered, its indexes with it, whatever the other tables hold, and then leave every table as declared |
| SchemaUp.SchemaReplays | internal/codegen/schema.go:373-501 | the whole up list succeeds on the old schema if and only if it is feasible, and then gives exactly the tables, columns and indexes of the new schema, with the references of the tables that stayed and of the new ones |
| SchemaDown.SchemaRoundTrip | internal/codegen/schema.go:373-501 | for any tables renamed, created, dropped and altered: down after a feasible up succeeds if and only if every table that stays can be altered back, no dropped table had an index and none referenced a renamed table, and then gives the old database, tables and references |
| SchemaDown.CreatedComeAndGo | internal/codegen/schema.go:427-436 | a change that only creates tables, whatever they reference among themselves, is always taken back |
| SchemaDown.DroppedIndexStopsDown | internal/codegen/schema.go:442-450 | the down list of a diff that drops a table with an index fails |
| MigrationRunner.Runner.Up | internal/migrate/migrate.go:364-433 | each migration's SQL commits with its tracking row, up to the first that fails |
| MigrationRunner.UpFromPrefix | internal/migrate/migrate.go:364-433 | from a prefix an Up leaves a prefix, the whole set when nothing fails, and counts what it added |
| MigrationRunner.AlwaysAPrefix | internal/migrate/migrate.go:241-278 | over every interleaving of replicas running Up and Down, with crashes and stale locks cleared, the migrations in effect are a prefix of the set and equal the tracking table |
| MigrationRunner.NeverTwice | internal/migrate/migrate.go:364-492 | SQL runs upwards only for the first migration not in effect and downwards only for the last one that is |
| MigrationRunner.UpCompletes | internal/migrate/migrate.go:364-433 | an Up that returns without error leaves all applied and returns how many the table lacked |
| MigrationRunner.UpIsARun | internal/migrate/migrate.go:364-433 | the loop of one Up, through to its result or its error, is a run of the step relation with the same table at the end |
| IncludeQueries.SelectedOfKey | include.go:510-619 | of the rows an IN list selects, those with one key are the rows a query of that key alone selects |
| IncludeQueries.WindowOfKey | internal/dialect/postgres/postgres.go:105-187 | keeping the rows whose ROW_NUMBER within their key is within the limit leaves each key the first rows of its own sorted result |
| IncludeQueries.QueryBatch | include.go:510-619 | one statement, plain, windowed or with a bare LIMIT, brings each key rows that a query for it alone may return, and no row of another key; unordered and for several keys, the first by primary key |
| IncludeQueries.ReturnedFirst | include.go:101-109 | what a limited query may return is as many rows as match up to the limit, and no row left out comes before one that is in |
| IncludeQueries.ReturnedAnswer | include.go:510-619 | without a limit, or under an order that leaves no two rows of the key in doubt, it may return one multiset only |
| IncludeQueries.UnorderedLimitIsArbitrary | include.go:510-619 | under a limit and no order two queries for one key never differ if and only if the limit takes none of its rows or all |
| Includes.QueryByColumn | include.go:510-619 | batches of 1000 keys together bring each key what its own query may return; unordered, the first rows by primary key unless one key is left over for a statement of its own |
| Includes.PkAnswers | include.go:455-502 | on the primary key the rows that come back are the answers of the keys, each once |
| Includes.GroupIsAnswer | include.go:455-502 | what the grouping map holds for a primary key is what a query for that key alone returns |
| Includes.LoadHasMany | include.go:399-451 | each parent is given rows its own query may return: the first ones if there is a limit, and the one multiset there is whenever limit and order settle it |
| Includes.LoadHasOne | include.go:399-451 | each parent gets the last row that came back under its key, which is one of its matching rows, and none only when there is none |
| Includes.LoadBelongsTo | include.go:455-502 | each parent gets the row its foreign key names, each key queried once |
| Includes.LoadManyToMany | include.go:625-735 | each parent gets the multiset of its own join over the pivot |
| Includes.AttachedIsJoined | include.go:690-735 | giving targets out along the pivot rows counts every row as the join does |
| Includes.LoadRelation | include.go:364-395 | any tree of relations, limited or not, loaded level by level gives every parent at every level what its own query may give, and loads no row twice |
| Includes.PivotLimitCapsNothing | include.go:625-735 | with a limit above zero a many-to-many parent is given its whole join |
| Includes.LimitOneLoadsTwo | include.go:625-735 | a parent with two targets is given both under a limit of one |

## Left out

Behaviour of the repository that is not part of the model:

- Drivers, pools, dialect printers, placeholder rewriting, SQL text, retry and backoff, tracing, the command line, code emission and file handling: plumbing or printing.
- Cursor text: gob and base64 are taken as injective; a cursor is its columns and values, or unreadable.
- Column values are integers or NULL: only their order and equality matter to the code modelled.
- The event log is the Postgres one. SQLite has a single writer and orders by the global position alone, which makes its properties easy.
- Payloads, metadata, `last_error` texts, event type names and the OnDead callback: carried, never branched on.
- The relay's concurrency limit: the model lets the groups of a batch run in any interleaving, which covers every limit.
- Partition order after a crash, a lease overrun or a failed recording statement: the conditions of `PartitionOrder` exclude them, and `OverrunBreaksOrder` shows why for overruns.
- Audit columns and timestamps; version numbers in the comparison with a full write, which is about what a user sees of a row (`Versions` has their own laws).
- Commits of other transactions in the middle of one: a transaction sees its own rows, and others run before or after it.
- In-memory field values are not restored by a rewound savepoint, as the source documents; the model keeps them as they are.
- Clearing recorded events after a commit.
- Sharing of one backing array: `append(tx.heldEvents, events...)` at `transaction.go:109` may leave the list for the sinks and the held events on one array with room to spare, and a hook's `SaveChanges` then appends its events over the main flush's. Sequences are values here, so the delivered list of the model is the one without that overwriting.
- A panic inside a transaction body, context cancellation and isolation levels. A rollback always takes effect, as a lost connection makes it.
- Adopted table checks and enum types in the schema diff; CHECK constraints in the Postgres replay. Foreign keys are followed there as far as creating, renaming and dropping tables needs; what the diff of one column does to its own key is `ForeignKeys`. ON UPDATE and DEFERRABLE, which are compared as ON DELETE is.
- Row data in the Postgres replay: it is about the schema; statements that fail on data are outside it.
- SQLite's in-place ALTER path: only the rebuild path is replayed on SQLite.
- Value affinity when SQLite copies a column into one of another type, and the rowid it gives an INTEGER PRIMARY KEY that is not copied or is NULL.
- Views, triggers and generated columns, which could fail or veto a rename or a drop. Names are compared as they are written; SQLite ignores their case.
- SQLite's ON UPDATE actions (a rebuild updates no key), foreign keys of several columns, and references that are broken before the migration begins. RESTRICT counts as NO ACTION, which it is while enforcement is deferred. A foreign key that names the scratch table is excluded.
- Checksum mismatches of edited migration files: every replica has the same set.
- A Postgres advisory lock whose session dies while its process goes on: the lock and the process end together.
- Nested includes on value slices, which copy items before the nested load, and the order of the rows a parent is given: they are compared as multisets. The windowed statement of a limited include has no outer ORDER BY.
- Offset pages, bulk inserts, read replicas, the N+1 detector and health checks.

Contracts stated on purpose with conditions:

- FullWrite.FlushIsAFullWrite: is about one flush from rows, records and memory in step; `FullTransactions` shows what keeps them in step.
- FullTransactions.TransactionIsAFullWrite: needs one tracked instance for each row, no edit of a flushed entity (`EditAfterFlushIsLost` says what becomes of one), loads and attachments that say what the database holds, models that can be diffed where they are loaded, and raw statements that leave tracked rows alone; and that no SaveChanges, RELEASE or ROLLBACK TO of the body fails outside a savepoint that is rewound. An entity whose insert was rewound is not reused, as the source asks.
- Savepoints.ExecLive: needs that keys which are set do not change while tracked; `ChangedKeyLeavesDeadSlot` says what happens otherwise.
- Savepoints.RewoundAsBefore: the primary-key slots are rebuilt from the restored records, so a record attached without a slot gets one; they are live rather than equal to the slots at entry.
- EventAccounting.ExecAllExact: needs that a flushed entity is not removed, detached or given another event, because re-staging collects its events again.
- TableReplay.DownSucceeds: needs an old shape that can be made, no index named like one of another table or like a table, and no column of the old shape that references one of the table's own columns under its new name; how a check or an index predicate reads on a row is a parameter.
- TableReplay.RebuildRoundTrip: needs every foreign key to the table to name one of its columns, so that it follows the renames there and back.
- PgReplay.UpReplays: needs the key columns to be the same ones on both sides and each declared default to read as its column's type; which types have a cast, which defaults read as a type and which indexes can be built over one is a parameter of the column's type.
- SchemaUp.SchemaReplays: needs well-formed schemas whose tables Postgres can make, the key columns the same on both sides, each index name on one table and no index named like a table, and no renamed column's old name declared again.
- SchemaDown.SchemaRoundTrip: needs what `SchemaReplays` needs, and is about the references between tables, not about the foreign keys a table that stays gains or loses.
- Versions.NoLostUpdate: needs every entity of the row's table to be versioned, no load of the row as it is now into the late transaction, raw statements that leave the row alone or raise its version, and no insert under its key.
- IdentityMap.ExecMaps: needs loads to make new instances and not of rows whose keys the transaction generated, entities added under keys that nothing in memory has, and attachments of tracked entities only; `LoadResolves` says what a load does elsewhere.
- Includes.LoadHasOne: which of several matching rows is given is the database's choice; with a limit of zero none is.
- Delivery.EffectsAreExact: a purge is one atomic statement by received time; effects whose inbox row it deletes are counted apart.
