# The message pipeline, verified

A message management service stores messages in MongoDB and announces each of them through a
transactional outbox: the message and an outbox row are inserted in one transaction, publishers claim
rows under leases and send them to Kafka, a search indexer consumes the topic and upserts documents in
Elasticsearch, and what it cannot index goes to a dead-letter topic that an operator can redrive. The
service also pages through conversations with cursors, and an operator can rebuild the search index
behind two aliases. This project models that behaviour in Dafny and proves properties of it.

`dafny verify dfyconfig.toml` checks the whole project.

## How it is built

| files | what they hold |
|---|---|
| `Wrappers`, `Codecs`, `Events` | JSON values and library codecs as functions with stated inverses; messages, events, parsing, projection |
| `OutboxRows`, `OutboxRepository` | what each repository operation does to the table, as functions; the repository class, proved against them |
| `RetryDelays`, `Publisher`, `PublisherLoop` | backoff; one run of a publisher as a class; its timer loop |
| `Topics`, `Protocol` | partition logs with committed offsets; the whole pipeline as a state machine whose steps interleave freely |
| `Delivery`, `MalformedRecords`, `Recovery`, `Fencing`, `Accounts`, `Leases`, `Duplication`, `Copies` | theorems about every run of the pipeline |
| `StaleRedrives`, `SlowUpdates` | concrete runs on which an expected property fails |
| `Refinement`, `Draining` | the publisher's code is a run of the pipeline; the outbox drains |
| `CreateMessages`, `Indexer`, `DlqRedrive`, `OutboxMaintenance` | the other services as classes, each tied to its step of the pipeline |
| `Ordering`, `Cursors`, `Listing`, `PageWalks` | sorting; cursors; one page; walks over many pages, with or without inserts in between |
| `IndexNames`, `Aliases`, `Reindex`, `IndexBootstrap`, `AliasRuns` | index versions; counting and alias updates; reindex; bootstrap; any sequence of both |

The pipeline's state (`Protocol.System`) has the clock, the messages, the outbox table, one worker for each
publisher instance that is in a run, both topics, and the index. Its actions are the atomic steps: create,
tick, claim one row, send (appended or not, acknowledged or not), mark, record a failure (each update may
report an error before or after its effect, and is dated by a reading of the clock taken before it), leave a run or crash, handle a record in any of the ways that
are possible for it, commit, restart, redrive rows, redrive a record, expire a published row. A run is any
sequence of enabled actions, for any number of instances. Publishers have distinct names, the clock never goes back,
the lease is positive, and all publishers share one positive maximum of attempts. History fields record
claims, sends and what each row announces; no action reads them, and `Copies` ties them to the topic's logs.

Where the outside world decides (the broker, errors, jitter, the clock, fresh ids), the classes take its decisions as
arguments: a script of attempts, replies, faults. Every property holds for all of them.

## Where the code does less than one would hope

*Fencing.* One expects that whenever an owner-filtered update matches, the publisher's snapshot of
`attempts` is the row's. That is false. The outbox redrive command reads its clock before it selects rows.
If a publisher is still in its claim loop while its lease on a row expires, another publisher uses up
the row's last attempt, and the operator resets the row with the earlier clock reading, then the slow loop finds
the row again: its batch has the row twice, it holds the lock, and its first entry is stale.
`StaleRedrives.StaleRedriveBreaksFencing` is that run. `Fencing.MatchedUpdateExact` says exactly when a
matching update works on the truth, on every run: if and only if the batch's last entry for the row has the
same attempts, which the publisher can see in its own batch. A stale snapshot counts too much, never too
little: `Accounts.FailureNeverLoses` shows for every run that a matching failure raises the live counter by at
least one. `Leases.FailureCountsOnce` shows that it is exactly one on *prompt* runs, whose redrives read the
clock no earlier than the failures they reset.

*Due times.* A publisher reads the clock, computes the next attempt, and then waits for the update. The time it
writes lies after its own reading, but not always after the moment of the update:
`SlowUpdates.SlowUpdateIsOverdue` is a run on which a retry is overdue when it is scheduled. `Accounts.DueExact`
says exactly when it is not: if and only if attempts are left and the update takes less time than the wait.

*Default target of a reindex.* The next version is computed in floating point. `IndexNames.DefaultTargetIsNew`
says exactly when the name is new, for any sources: if and only if adding one to the greatest version gives
more than it (below 2^53 always; from there to 2^54 for every other number; above never), or that version, as
printed, is not the name of a source. `IndexNames.DefaultTargetCanCollide` is an example.

*Malformed records.* One expects that both topics can always be consumed to their ends. A malformed record is
dead-lettered, redriven as it is, and dead-lettered again: `MalformedRecords.MalformedStays` shows that once
another producer has sent one, no continuation has both topics consumed. `Recovery.FullConsumptionExact` says
exactly when one has: if and only if no log of the main topic has a malformed record; and then everything else
can be finished with it. For every state, `Recovery.CanAlwaysConverge` shows that the pipeline can still get to
where no *event* is uncommitted and the index is exact.

*Keys through the dead-letter topic.* A record's key survives the trip exactly when it is absent or UTF-8
text (`Indexer.TripsPreserve`); the publishers' keys are.

## Model

| member | source | states |
|---|---|---|
| Delivery.NoMessageLost | apps/search-indexer/src/message-created.consumer.ts:106-137 | On every run, each created message has an unpublished outbox row, or a main-topic record at or past the indexer's committed offset, or a dead-letter record at or past the redrive's, or is in the index |
| Delivery.IndexConverges | libs/search/src/es-message-search.ts:39-47 | On every run, each indexed document is the projection of the stored message with its id; when no row is unpublished and no event of either topic is uncommitted, the index is exactly the message store |
| Recovery.CanAlwaysConverge | apps/outbox-publisher/src/publisher.service.ts:54-174 | From every state of every run, whatever has crashed, failed or piled up, some continuation leads to a state with no unpublished row, no uncommitted event, and an index that is exactly the message store; without malformed records both topics are then consumed to their ends |
| Recovery.FullConsumptionExact | apps/cli/src/services/dlq-redrive.service.ts:55-81 | For every state of every run: some continuation consumes both topics to their ends (and one then has every row published and the index exact) if and only if no log of the main topic has a malformed record |
| MalformedRecords.NeverFullyConsumed | apps/search-indexer/src/message-created.consumer.ts:134-167 | Once a malformed record is in a log of the main topic, no continuation of the run has both topics consumed to their ends |
| MalformedRecords.MalformedStays | apps/search-indexer/src/message-created.consumer.ts:134-167 | The same after another producer sends a malformed record in any reachable state |
| Delivery.PublishedIsTruthful | apps/outbox-publisher/src/publisher.service.ts:109-131 | On every run, a published row's event is in the main topic, in a record that parses back to it, is keyed by the conversation, and carries the stored message |
| Delivery.PublishedIsFinal | libs/persistence/src/repositories/mongo-outbox.repository.ts:43-90 | On any continuation of any run, a published row stays as it is until it expires, and never comes back |
| Delivery.UnpublishedStays | libs/persistence/src/schemas/outbox-event.schema.ts:69-75 | No step drops a row that has not been published, or was published less than seven days before |
| Delivery.RowsWellShaped | libs/persistence/src/repositories/mongo-outbox.repository.ts:43-130 | On every run, lock fields are set exactly while publishing, the publication date exactly when published, and attempts are at the maximum exactly when failed and below it otherwise |
| Fencing.MatchedUpdateExact | libs/persistence/src/repositories/mongo-outbox.repository.ts:151-161 | On every run, a publisher that owns the row in hand works on the row's true attempts if and only if the last snapshot of that row in its batch has the same attempts |
| Fencing.LostLeaseIsHarmless | libs/persistence/src/repositories/mongo-outbox.repository.ts:73-161 | On every run, from the moment a publisher does not own a row until it claims that row again, none of its steps changes the row, whatever happens meanwhile |
| Accounts.FailureNeverLoses | apps/outbox-publisher/src/publisher.service.ts:139-174 | On every run, a matching failure update raises the row's live attempts by at least one, to one more than its snapshot's and at most the maximum, and touches no other row |
| Accounts.ClaimsBounded | libs/persistence/src/repositories/mongo-outbox.repository.ts:42-68 | On every run, claims of a row since creation or redrive are at most the maximum of attempts plus one for each takeover of an expired lock, even after the row has expired |
| Accounts.DueExact | apps/outbox-publisher/src/publisher.service.ts:140-169 | A failed row is due only after the moment of the update that says so if and only if attempts are left and the update takes less time than the wait |
| SlowUpdates.SlowUpdateIsOverdue | apps/outbox-publisher/src/publisher.service.ts:162-169 | A concrete run on which a retry is overdue by four seconds when it is scheduled |
| Leases.FailureCountsOnce | apps/outbox-publisher/src/publisher.service.ts:139-174 | On prompt runs, every matching failure update adds exactly one to the row's live attempts, sets failed exactly at the maximum, dates the row by the clock reading (a retry 0.8 to 360 s after it), and touches no other row |
| Leases.ClaimsBalance | libs/persistence/src/repositories/mongo-outbox.repository.ts:42-68 | On prompt runs, claims of a row since creation or redrive equal its attempts plus lock takeovers plus the current claim |
| Accounts.ClaimsOnlyWhatIsFree | libs/persistence/src/repositories/mongo-outbox.repository.ts:40-61 | On every run, a row that can be claimed is pending and due, or is publishing and was locked at least the lease before the claim loop's reading of the clock; the claim makes it the claimer's row in publishing, locked as of that reading, and changes nothing else |
| Accounts.LeaseExcludes | libs/persistence/src/repositories/mongo-outbox.repository.ts:40-48 | On every run, nobody can claim a row in publishing until its lease has run out |
| StaleRedrives.StaleRedriveBreaksFencing | apps/cli/src/commands/outbox-redrive.command.ts:32-38 | A concrete run on which a publisher holds a row's lock with a snapshot whose attempts are not the row's |
| Duplication.CopiesBounded | apps/outbox-publisher/src/publisher.service.ts:54-65 | On every run, publishers send an event at most once for each claim of its row (`Copies` counts the same in the logs) |
| Duplication.CopiesWithoutRedrive | apps/outbox-publisher/src/publisher.service.ts:54-65 | On every run, the event of a row that no operator has redriven is sent at most as often as the maximum of attempts plus one for each takeover of an expired lock |
| Copies.SendsAreLogged | apps/outbox-publisher/src/publisher.service.ts:106-137 | Each step of a publisher adds exactly as many records to the main topic's logs as it counts sends, and none to the dead-letter topic |
| Copies.MainTopicAccounts | apps/outbox-publisher/src/publisher.service.ts:106-137 | On every run, the main topic's logs grow by exactly the sends, the records of other producers and the redriven ones |
| Copies.LoggedCopiesExact | apps/outbox-publisher/src/publisher.service.ts:106-137 | On every run, the records for a message in the main topic are exactly the counted sends of its row and the redriven ones |
| Copies.LoggedCopiesBounded | apps/outbox-publisher/src/publisher.service.ts:54-65 | So on every run, apart from what is redriven, a message is in the main topic at most once for each claim of its row |
| Copies.LoggedCopiesWithoutRedrive | apps/outbox-publisher/src/publisher.service.ts:54-65 | And, if no operator has redriven its row, at most as often as the maximum of attempts plus one for each takeover of an expired lock |
| OutboxRepository.MongoOutboxRepository.ClaimNext | libs/persistence/src/repositories/mongo-outbox.repository.ts:43-61 | Returned is, locked and field by field, the row with the least id that was pending and due, or publishing and locked at least the lease before now; no row with a smaller id, and no row at all if none is returned, was either; nothing else changes |
| OutboxRepository.MongoOutboxRepository.ClaimPublishable | libs/persistence/src/repositories/mongo-outbox.repository.ts:36-71 | Run without interference, the loop claims a prefix of the claimable rows in id order, a full batch or all of them, and returns them as the table now has them; if a call fails, what it has locked and that it returns nothing |
| OutboxRepository.FirstClaimedIds | libs/persistence/src/repositories/mongo-outbox.repository.ts:42-68 | The claimed ids are strictly increasing, min(batch, claimable) many, and before every claimable id that was not claimed |
| OutboxRepository.LockedIsTaken | libs/persistence/src/repositories/mongo-outbox.repository.ts:40-48 | A row locked at a time is not claimable at that time, because the lease is positive, and no other row's claimability changes |
| OutboxRepository.MongoOutboxRepository.MarkPublished | libs/persistence/src/repositories/mongo-outbox.repository.ts:73-90 | Matches exactly for the owner of a publishing row, which becomes published and unlocked |
| OutboxRepository.MongoOutboxRepository.ScheduleRetry | libs/persistence/src/repositories/mongo-outbox.repository.ts:92-110 | Matches exactly for the owner; the row becomes pending again, unlocked, with the given attempts and due time |
| OutboxRepository.MongoOutboxRepository.MarkFailed | libs/persistence/src/repositories/mongo-outbox.repository.ts:112-130 | Matches exactly for the owner; the row becomes failed and unlocked |
| Publisher.PublisherService.HandlePublishFailure | apps/outbox-publisher/src/publisher.service.ts:139-174 | The snapshot's attempts plus one decide between failing the row and a retry after the jittered delay |
| Publisher.PublisherService.PublishEvent | apps/outbox-publisher/src/publisher.service.ts:106-137 | Whatever the send and the updates meet: one partition's log gets exactly one record with the key and the event, or none, and no other partition changes; an owned row becomes published, failed, due again, or stays, by what was acknowledged, failed and counted; no other row changes; an error escapes only if the failure could not be recorded |
| Publisher.PublisherService.PublishBatch | apps/outbox-publisher/src/publisher.service.ts:63-65 | Events are attempted in order, all of them or up to one whose error escapes, with the resulting table and topic |
| Publisher.PublisherService.RunOnce | apps/outbox-publisher/src/publisher.service.ts:54-70 | The batch is the first claimable rows, table and topic are those after attempting it, and a count is returned exactly if no error escapes from the claim loop, an attempt or the metrics query |
| Refinement.PublishEventFollows | apps/outbox-publisher/src/publisher.service.ts:106-174 | From any state of the pipeline, what `PublishEvent` does to table, topic and batch is a run of pipeline steps |
| Refinement.RunOnceFollows | apps/outbox-publisher/src/publisher.service.ts:54-70 | One call of `RunOnce`, whatever it meets and however it ends, is a run of the pipeline from before its claim loop to its end, with exactly its table and topic |
| Draining.AttemptUses | apps/outbox-publisher/src/publisher.service.ts:139-170 | Without database errors, an attempt on an owned row matches, ends in published, pending or failed as it should, and uses up part of the table's supply of attempts |
| Draining.Drains | apps/outbox-publisher/src/publisher.service.ts:54-70 | Error-free runs, polled at any times, attempt at most N * maxAttempts events for N rows, so at most that many runs attempt anything; when that many events are attempted, or that many runs have attempted something or found everything due, every row is published or failed |
| Draining.IdleRound | apps/outbox-publisher/src/publisher.service.ts:54-70 | An error-free run that attempts nothing found nothing claimable; everything unfinished was due then if and only if every row is published or failed |
| Draining.RunIsCleanRound | apps/outbox-publisher/src/publisher.service.ts:54-70 | A call of `RunOnce` without database errors is such an error-free run, and attempts all that it claims |
| PublisherLoop.SingleFlight | apps/outbox-publisher/src/publisher.service.ts:39-104 | Over every interleaving, armed timers and active runs number at most one, exactly one from start-up until stopping, and after shutdown has returned none, for good |
| PublisherLoop.ShutdownReturns | apps/outbox-publisher/src/publisher.service.ts:43-52 | After any events, a shutdown that was asked for can return at its next poll if no run is active, and else after that run ends |
| RetryDelays.PublisherRetryDelayBounds | apps/outbox-publisher/src/publisher.service.ts:199-207 | For every attempt and jitter the delay is between 800 and 360000 ms |
| RetryDelays.NominalDelayMonotone | apps/outbox-publisher/src/publisher.service.ts:200-203 | The delay before jitter never decreases with the attempt |
| RetryDelays.NominalDelayDoubles | apps/outbox-publisher/src/publisher.service.ts:199-207 | The nominal delay is the base up to the first attempt and doubles with each further one, up to the cap |
| RetryDelays.DelaysStartAndEnd | apps/outbox-publisher/src/publisher.service.ts:199-207 | The publisher's delay starts from one second and is capped at five minutes from the tenth attempt, the indexer's from 250 ms and at eight seconds |
| RetryDelays.JitterExact | apps/outbox-publisher/src/publisher.service.ts:199-207 | Jitter takes the delay evenly from four to six fifths of the nominal one, to the nearest millisecond |
| RetryDelays.IndexRetryDelayBounds | apps/search-indexer/src/message-created.consumer.ts:256-264 | The wait after call n is between 200 and 300 times 2^(n-1) ms |
| CreateMessages.CreateMessageService.Execute | libs/application/src/messages/create-message.service.ts:41-76 | Message and row are inserted together or not at all, whichever insert fails and however the commit ends |
| CreateMessages.CreateFollows | libs/application/src/messages/create-message.service.ts:44-92 | A committed creation is the pipeline's create step, on the table and on the messages by id text |
| Events.ParseExact | apps/search-indexer/src/message-created.consumer.ts:190-293 | A value is classified as event e exactly when it is JSON text of an object that states e, payload and metadata included, with a timestamp that is a date |
| Events.UnsupportedExact | apps/search-indexer/src/message-created.consumer.ts:190-227 | A value is skipped exactly when it is JSON text of an object that has a text for a type and a number for a version, and not both of message-created version 1 |
| Events.MalformedExact | apps/search-indexer/src/message-created.consumer.ts:190-293 | A value is malformed exactly when it is empty, not JSON, not an object, without a text type or a number version, or named as a message-created event of version 1 and stating none |
| Events.WireRoundTrip | apps/search-indexer/src/message-created.consumer.ts:190-227 | What the publisher sends for an event parses back to that event |
| Events.PipelineRoundTrip | libs/domain/src/events/message-created.event.ts:23-32 | Message to event to bytes to parsed event to stored document to search hit gives the message back; the event is never malformed or skipped, and has its own id, date and correlation id |
| Indexer.MessageCreatedConsumer.IndexWithRetry | apps/search-indexer/src/message-created.consumer.ts:139-152 | The calls end at the first success, the first error that is not retryable, or the fifth; the waits of n calls sum to between 200 and 300 times 2^(n-1) - 1 ms, at most 4500; repeated effects index the document once |
| Indexer.RetryableExact | apps/search-indexer/src/message-created.consumer.ts:240-254 | An error is retryable exactly when it is an object named ConnectionError or TimeoutError, or its meta data state the status 408, 429 or at least 500 |
| Indexer.MessageCreatedConsumer.HandleMessage | apps/search-indexer/src/message-created.consumer.ts:106-137 | By what the value states, without the parser: an unsupported one is skipped and changes nothing; a malformed one is dead-lettered, with the same value, and passed only if that is acknowledged; an event is indexed as its stored document, and dead-lettered if the calls end without success; and this is a handling the pipeline allows |
| Indexer.TripsPreserve | apps/search-indexer/src/message-created.consumer.ts:349-351 | Any number of trips through the dead-letter topic keeps the value, and keeps the key exactly when it is absent or UTF-8 text |
| DlqRedrive.DlqRedriveService.HandlePayload | apps/cli/src/services/dlq-redrive.service.ts:57-79 | The one record at the position is appended unchanged to one main partition, then its partition's next offset is committed, then the position moves on, each as far as the calls went; no other partition changes; a dry run only moves the position |
| DlqRedrive.DlqRedriveService.Consume | apps/cli/src/services/dlq-redrive.service.ts:57-79 | After one delivery each counter has grown by one or not, by what was acknowledged and confirmed, and the session stops exactly at the limit; the topics are as the pipeline's step leaves them |
| DlqRedrive.DlqRedriveService.Redrive | apps/cli/src/services/dlq-redrive.service.ts:55-95 | Whatever is delivered, fails, arrives or restarts from its committed offset: committed is at most republished at most consumed; committed records were republished; a dry run changes no log and no offset; the session stops at the limit even if records come back; without faults the committed offsets and the main log grow by exactly the committed count |
| DlqRedrive.CommittedWasRepublished | apps/cli/src/services/dlq-redrive.service.ts:159-174 | On every run of the pipeline, each dead-letter record below its partition's committed offset is in the main topic with the same key and value |
| OutboxMaintenance.OutboxMaintenanceService.BuildFailedSelection | apps/cli/src/services/outbox-maintenance.service.ts:209-237 | An id that does not parse is an error; otherwise the selection is exactly the given ids and event ids |
| OutboxMaintenance.SelectedMeans | apps/cli/src/services/outbox-maintenance.service.ts:163-185 | Told without the query: the selected rows are failed ones with a named id or event id (any, if none is named), oldest failure first, at most the limit; a failed row that is asked for is left out only if the limit is reached by older ones |
| OutboxMaintenance.OutboxMaintenanceService.RedriveFailed | apps/cli/src/services/outbox-maintenance.service.ts:85-123 | An invalid id or a dry run changes nothing; otherwise, whatever happened to the table between the read and the write, exactly those rows of that selection are reset, field by field, and counted that are failed when the write finds them |
| OutboxMaintenance.RedrivenMeans | apps/cli/src/services/outbox-maintenance.service.ts:98-116 | Each reset row field by field; all others are as they were |
| Cursors.CursorRoundTrip | libs/application/src/cursor/message-cursor.ts:11-73 | A cursor decodes to its message's (timestamp, id) under its own order, is refused under the other, and is never the empty text |
| Cursors.DecodeExact | libs/application/src/cursor/message-cursor.ts:21-73 | Any text decodes to a key exactly when it is base64url of JSON that states that key under the expected order, and fails for the order exactly when that is what is wrong |
| Listing.ListFinds | libs/persistence/src/repositories/mongo-message.repository.ts:32-55 | The query finds the first `limit` matching messages in order, and all it leaves out comes after |
| Listing.PageMeans | libs/application/src/messages/list-messages.service.ts:36-43 | A page has the first `limit` matches, and `hasMore` holds exactly when a match is left out |
| Listing.PageShows | libs/application/src/messages/list-messages.service.ts:45-68 | A page shows its messages in order, and has a cursor, its last message's, exactly when there is more |
| Listing.ExecuteMeans | libs/application/src/messages/list-messages.service.ts:32-68 | For every request: without a limit it is 20, without an order it is descending; it fails exactly if a cursor is given that does not decode under that order, with the decoder's error; otherwise it has the first messages of the conversation strictly after the cursor in order, field by field, tells whether one is left out, and has the last one's cursor exactly then |
| PageWalks.ServiceReads | libs/application/src/messages/list-messages.service.ts:32-54 | In any collection, the service answers no cursor with the first page and a message's cursor with the page strictly after that message |
| PageWalks.WalkUnderInserts | libs/application/src/messages/list-messages.service.ts:32-68 | Following cursors to the end while any messages are inserted between pages gives the conversation's messages in strict (timestamp, id) order, none twice, and every one that was there at the start |
| PageWalks.StaticWalk | libs/application/src/messages/list-messages.service.ts:32-68 | Without inserts the pages together are the conversation sorted, in max(1, ceil(n / limit)) pages |
| PageWalks.StaticWalkFinishes | libs/application/src/messages/list-messages.service.ts:57-68 | Without inserts a walk always reaches its end |
| PageWalks.AscendingIsReversed | libs/persistence/src/repositories/mongo-message.repository.ts:49-52 | The ascending listing of a conversation is the descending one reversed |
| IndexNames.NormalizeMeans | apps/cli/src/services/es-reindex.service.ts:152-167 | A target text is accepted exactly if it is a version, a version with its letter, or an index name, and then names that version's index |
| IndexNames.MaxVersionMeans | apps/cli/src/services/es-reindex.service.ts:172-179 | The version counted from is the greatest of the sources, and at least 1 |
| IndexNames.VersionsAreDecimals | apps/cli/src/services/es-reindex.service.ts:152-179 | A text is a version exactly when it is the decimal text of a positive number |
| IndexNames.VersionOfMeans | apps/cli/src/services/es-reindex.service.ts:172-179 | An index name has a version exactly when it is the prefix and the decimal text of a positive number; the version is that number, rounded |
| IndexNames.RoundedIsNearest | apps/cli/src/services/es-reindex.service.ts:172-179 | Rounding gives a floating-point number, and none is nearer |
| IndexNames.DefaultTargetIsNext | apps/cli/src/services/es-reindex.service.ts:165-179 | Below 2^53 the default target is the index of the greatest version plus one, for no name as for an empty one |
| IndexNames.DefaultTargetIsNew | apps/cli/src/services/es-reindex.service.ts:165-179 | For any sources, the default target is none of them if and only if their greatest version has a successor in floating point or, as printed, names none of them |
| IndexNames.DefaultTargetUpToLimit | apps/cli/src/services/es-reindex.service.ts:165-179 | While no version exceeds 2^53, the default target is new if and only if the index of version 2^53 is not a source |
| IndexNames.NextNumber | apps/cli/src/services/es-reindex.service.ts:178-178 | Adding one to a floating-point number gives the next number below 2^53, two more for every other one up to 2^54, and the same number otherwise |
| IndexNames.DefaultTargetCanCollide | apps/cli/src/services/es-reindex.service.ts:178-178 | A source whose default target is itself |
| Aliases.CountCheckExact | apps/cli/src/services/es-reindex.service.ts:95-101 | For any copy that only takes documents of the sources, the counts are equal if and only if no id is in two sources and the target is exactly the sources' documents together |
| Reindex.EsReindexService.BuildAliasSwapActions | apps/cli/src/services/es-reindex.service.ts:191-229 | The actions remove each previous index of each alias and then add the target to both |
| Reindex.SwapMeans | apps/cli/src/services/es-reindex.service.ts:103-109 | Applied as one update they leave both aliases at the target only, and change no index |
| Reindex.EsReindexService.Reindex | apps/cli/src/services/es-reindex.service.ts:45-119 | Aliases change only together and only to a new index that holds exactly what the read alias showed; every failure before the swap leaves both as they were; no existing index changes; a dry run changes nothing; when each error arises |
| IndexBootstrap.IndexManagerService.CreateMessagesIndex | libs/search/src/index-manager.service.ts:55-69 | It succeeds exactly if the engine creates the index or throws a value that reads as "exists already" (status 400 and that type within meta, body and error); any other error is one, whether or not the index exists |
| IndexBootstrap.AlreadyExistsExact | libs/search/src/index-manager.service.ts:109-139 | An error reads as "exists already" exactly when it is an object whose meta data have status 400 and a body whose error has that type |
| IndexBootstrap.IndexManagerService.EnsureAliases | libs/search/src/index-manager.service.ts:71-106 | Each alias that points nowhere is added at the physical index in one update, no alias that points somewhere is moved, and it succeeds exactly if no call it makes fails |
| IndexBootstrap.IndexManagerService.EnsureMessagesIndex | libs/search/src/index-manager.service.ts:43-53 | However a bootstrap ends, no index is changed or lost and no alias moved; it succeeds exactly if no call it makes fails, and then both aliases point somewhere |
| IndexBootstrap.IndexManagerService.OnModuleInit | libs/search/src/index-manager.service.ts:23-41 | A program starts exactly if its bootstrap succeeds or it is the API |
| AliasRuns.AliasesAgree | libs/search/src/index-manager.service.ts:43-106 | Over any sequence of bootstraps, reindexes and writes, however each ends, both aliases are empty or both at the same single existing index, and once set stay set |
| AliasRuns.AliasesMoveByReindex | apps/cli/src/services/es-reindex.service.ts:103-109 | Over any such sequence, aliases that point somewhere are moved only by a completed reindex, never by a bootstrap |

## Single steps

The results above rest on members that state one transition each: `OutboxRows.TransitionsMean` (the three
owner-filtered updates field by field), `OutboxRepository.FirstClaimedRows`, the two repositories' `Create`,
`MessageCreatedConsumer.IndexMessage` and `PublishToDlq`, and the event handlers of
`PublisherLoop.PublisherLoop`.

## Left out

- JSON text, UTF-8, base64url, ISO dates, object-id text and date parsing are functions with stated inverse laws (`Codecs.Lawful`); lone surrogates and dates outside the library's range are not distinguished.
- Printing a number is a function that is exact up to 2^53, reads back below 10^21, and is left open above (exponents, infinity).
- Metadata is absent or a JSON object, as the domain type says; the request validator lets `null` through, which the indexer then calls malformed.
- Row columns that are the same for all rows (event type, event version, topic) and the database's indexes other than expiry.
- The unique index on event ids: event ids are taken as fresh, and nothing relies on them.
- Error texts (and their truncation), dead-letter headers, log lines, metrics, health flags, correlation ids and HTTP plumbing.
- The consumer's start, stop and `running` flag.
- Pending statistics and the inspect command, which only read.
- Kafka's choice of partition (any), retention, replication and rebalancing between consumers of one group; one consumer handles a partition at a time.
- Records of other producers on the main topic parse as no message-created event, and nobody else writes to the dead-letter topic.
- Order of a conversation's events across retries, which the repository disclaims.
- Publisher.PublisherService.RunOnce: states the effect of a call that no other client of the database interferes with; the pipeline's steps (`Protocol`) interleave freely, and its theorems cover that.
- OutboxRepository.MongoOutboxRepository.ClaimPublishable: likewise without interference.
- DlqRedrive.DlqRedriveService.Redrive: one session, whose dry-run positions are not part of the pipeline; the idle timer is the end of the list of events.
- Search: matching, scoring, sorting, the page arithmetic and its error mapping are the engine's or easy; `Events.MapHit` is kept for the round trip, and a stored date that does not parse, which would be an invalid date object there, yields no hit.
- PageWalks.StaticWalk: for limits of at least 1, as the request validator demands.
- Reindex.EsReindexService.Reindex: no writes between the first count and the swap, as the command does not claim exactness with them; counts see every document (the engine's refresh is not modelled), and the order in which alias members are listed is left open.
- AliasRuns.AliasesAgree: executions one after another; a bootstrap whose steps race a swap, and an engine that creates an index for a missing alias on write, are not covered.
