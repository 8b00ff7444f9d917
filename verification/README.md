# Chat backend: verified model

A Dafny model of the parts of the chat backend whose correctness rests on more
than one function: the write buffer and its outbox, the batching engine in
front of it, the REST path that shares its tables, and the caches, limiters and
indexes that stand in for something simpler. `dafny verify dfyconfig.toml`
checks all of it.

## What is modelled

**Messages.** Buffered commands become rows of `Room`, `MessageWrite`,
`Message` and `MessageOutbox` in one transaction (`Store`). `Invariant` says
what links the tables after every step: one message per (sender, request), a
writer-inserted message agrees with its write row and has an outbox row, a
persisted write has a message, PUBLISHED means fanned out, and each room is
numbered 1 to `nextMessageSeq` - 1. `Refinement` shows that under the invariant
the transaction never meets its own conflict clause and is, numbers erased, a
simple one; `BatchSplit`, `CommitFold` and `BatchHandling` build from there to
`Transparency`, the theorem that batching and bisecting mean handling commands
one at a time.
`Effects` says column by column what a commit and a dead letter add, leave alone
and reject. `Database` and `Processor` are the same transaction statement by
statement, on tables updated in place, proved against that specification;
`Writer` adds the acknowledgements and `OutboxDrain` the fanout loop, which
`FanoutErasure` shows never changes what is stored or acknowledged.

**Runs.** `Runs` interleaves any number of writers, REST callers, dead-letterers
and outbox drainers, one transaction or statement at a time, on one clock.
`Histories`, `Redelivery`, `WriterOnlyRuns`, `Leases` and `OutboxGuarantees` are theorems
about every state of every run and any two states of a run. `Migration` shows
that the schema migration establishes the invariant runs start from.

**The engine.** `WriterQueue` is the writer's current batch, pending batches,
in-flight handlers, flush timer and draining close, one callback a step.
`Handlers` and `ConcurrentEngine` add what the handlers do, for any number of
slots: each keeps the segments it still has to settle, and its transactions and
statements interleave freely with the other handlers' and with arrivals. A run
means its entries one at a time in the order they were settled
(`Interleavings`); `Commuting` and `EngineRaces` say exactly when the order of
arrival may stand for that order, and give the run in which it may not.

**Fast forms.** `CreateMessage` is the REST create with its idempotency cache
against the same call without one, and `CacheRuns` the same among other
clients; `Newest`, `Paging` and `ChatList` are the
two-source page merge, the paging walk and the chat list against the whole
history; `Redis`, `RateLimit`, `RateBound`, `Presence` and `PresenceEvents` are
the in-memory Redis with lazy expiry, the local limiter against the limiter
over Redis, and presence with cleanup on read against a registry without
cleanup; `Sockets` is the hand-kept socket indexes against a scan.

## Assumptions

- A transaction, or a single statement outside one, is one atomic step. Two
  transactions in different rooms that use the same (sender, request) at the
  same time are thereby serialised.
- One clock serves the database and all processes; within one call of a
  limiter or of presence it is read once.
- Message ids are ranks in the database's collation. Ids created over REST and
  ids of buffered commands are disjoint, and messages stored before the outbox
  existed count as REST ones.
- The migration starts from a database whose tables are linked: the unique
  indexes and foreign keys hold, and a write already marked persisted has a
  message with its key, created at its `persistedAt`.
- Sender ids contain no colon where a joined string key is used;
  `FlatKeysCollideExactly` says exactly when this matters.
- Acknowledging never throws, and handing a command back either works or leaves
  it to be redelivered.

Where documentation and code differ, the model follows the code. In particular
PUBLISHED is terminal only for drainers that settle within their lease and hear
of every finish that commits, since the finishing and failing updates check the
row's id alone; entries in different batches can overtake each other; paging skips the
part of a tie that a page boundary cuts off; presence announcements repeat when
a connection expires unseen; and an acknowledgement at the last delivery attempt
does not imply a DEAD row. Each has its condition and an input below.

## Model

| member | source | states |
|---|---|---|
| Transparency.BatchingIsTransparent | backend/services/message-writer-service/src/main.ts:193-240 | Committing a batch whole or bisecting it means handling its entries one at a time, left to right: the same entries acked and nacked, the same tables but for the numbers of new messages, every message that was there keeping its row and number in both, and in each room the new messages using the same numbers; the batch commits whole if and only if every command of that fold commits |
| Transparency.PermutedWithinOneCommit | backend/services/message-writer-service/src/main.ts:203-239 | Numbers are permuted only inside one commit: between consecutive checkpoints of a batch lies a single transaction, the tables at both ends match the fold up to numbering, and the messages it inserts into a room carry together the numbers the same entries get one at a time |
| Transparency.BatchMatchesFold | backend/services/message-writer-service/src/main.ts:215-239 | The same from two databases that already differ in numbering, so that it composes over consecutive batches: equal ends up to numbering, rows only moved forward, the same new numbers in each room |
| BatchHandling.CommitIsFold | backend/services/message-writer-service/src/modules/message-writes/message-write.processor.ts:79-310 | A whole-batch transaction succeeds exactly when committing its commands in turn does, and then leaves the same tables up to numbering |
| BatchSplit.CommitSplit | backend/services/message-writer-service/src/modules/message-writes/message-write.processor.ts:90-307 | A transaction over a batch and one more command equals the batch's transaction followed by the command's, table by table, and is accepted exactly when both are |
| CommitFold.CommitAppend | backend/services/message-writer-service/src/modules/message-writes/message-write.processor.ts:83-87 | Appending a command to a list, whether its key is new, repeated or conflicting, means committing it after the list |
| CommitFold.CommitCongruent | backend/services/message-writer-service/src/modules/message-writes/message-write.processor.ts:99-292 | The outcome of a transaction never depends on how messages are numbered |
| ConcurrentEngine.RunIsSomeOrder | backend/services/message-writer-service/src/main.ts:75-134 | For every concurrency, in every state of every run of the engine with its handlers interleaved step by step: the settlements and tables are those of the settled entries handled one at a time in the order they were settled (tables but for new numbers, old rows kept, the same new numbers in each room); each handler has settled a prefix of its batch, in order; and the batches started, waiting and collecting are the arrivals in order |
| ConcurrentEngine.DrainedIsPermutation | backend/services/message-writer-service/src/main.ts:139-156 | Once drained, that order is a permutation of the arrivals that keeps the order inside each batch, and the batches one after another are the arrivals |
| ConcurrentEngine.AgreeingRunIsFold | backend/services/message-writer-service/src/main.ts:75-92 | When entries of different batches agree (equal key only for equal commands, equal id only for equal keys), a drained engine of any concurrency has settled every arrival as handling them one at a time in order of arrival does, with the same tables but for new numbers, which are the same in each room |
| ConcurrentEngine.AgreeingArrivals | backend/services/message-writer-service/src/main.ts:94-103 | Arrivals that all agree meet that condition however they are cut into batches |
| ConcurrentEngine.OneSlotIsFold | backend/services/message-writer-service/src/main.ts:75-92 | With one slot the order of settlement is the order of arrival, whatever the entries, so the drained engine means the arrivals handled one at a time |
| ConcurrentEngine.HandlerEnds | backend/services/message-writer-service/src/main.ts:193-240 | In every run the handler of a batch of n commands takes at most 5n - 1 transactions and statements, whatever the others do |
| ConcurrentEngine.EveryState | backend/services/message-writer-service/src/main.ts:75-157 | In every state of every run the running handlers are the queue's, each has settled a prefix of its batch and holds the rest, what each relies on while dead-lettering still holds, and the tables are those of the settled segments handled as batches in turn |
| EngineRaces.ArrivalOrderStandsExactly | backend/services/message-writer-service/src/main.ts:46-54 | With two slots or more, arrival order describes every drained run over two entries, from every sound database, if and only if their commands agree |
| EngineRaces.TwoBodiesRace | backend/services/message-writer-service/src/main.ts:75-92 | One (sender, request) with two bodies on two slots: a run in which the later arrival is acked and stored and the earlier handed back, where arrival order gives the opposite |
| EngineRaces.RunAlone | backend/services/message-writer-service/src/main.ts:193-240 | From every state of every run a running handler can run to its end while the others wait; it settles exactly the entries it has left, in order, and the tables and settlements it adds are those of dealing with its stack on its own |
| Handlers.TurnKeepsOutcome | backend/services/message-writer-service/src/main.ts:203-238 | A step of a handler, followed by what is left of its stack on its own, comes to what the stack on its own came to before: transaction, split, second attempt and dead-lettering alike |
| Handlers.FreshStackIsBatch | backend/services/message-writer-service/src/main.ts:75-80 | A handler that has just started and runs on its own comes to what handling its batch does, numbers included |
| Handlers.EveryTurnIsBatch | backend/services/message-writer-service/src/main.ts:203-238 | One transaction or statement of a handler that settles entries does to the tables and acknowledgements what handling those entries as a batch does at that moment; one that settles none changes nothing; and the entries left are the rest, in order |
| Handlers.FailureLasts | backend/services/message-writer-service/src/modules/message-writes/message-write.processor.ts:99-157 | A command that cannot be committed still cannot after any steps of other handlers |
| Handlers.LateInsertIsHarmless | backend/services/message-writer-service/src/modules/message-writes/message-write.processor.ts:520-551 | The insert at the end of a dead-lettering whose lookup is out of date does what dead-lettering at one moment does |
| Interleavings.SettledIsPermutation | backend/services/message-writer-service/src/main.ts:75-92 | Any merge of the handlers' segments settles the handlers' entries one after another, permuted |
| Interleavings.MergeIsInTurn | backend/services/message-writer-service/src/main.ts:75-92 | When entries of different handlers agree, any merge of their segments means the handlers one after another: the same tables but for new numbers, the same settlements in some order |
| Commuting.AgreeingCommute | backend/services/message-writer-service/src/modules/message-writes/message-write.processor.ts:79-310 | Two entries whose commands agree can be handled in either order: each is settled the same way first or second, and the tables are equal but for new numbers, commits, rejections and dead-letterings alike |
| Commuting.OrderMattersExactly | backend/services/message-writer-service/src/modules/message-writes/message-write.processor.ts:79-310 | For two entries the order is free in every sound database if and only if their commands are equal or share neither key nor id |
| Commuting.FirstComesFirstServed | backend/services/message-writer-service/src/modules/message-writes/message-write.processor.ts:99-157 | One (sender, request) with two bodies: whichever is handled first is acked and its body stored, and the other is handed back |
| WriterQueue.CutsDoNotMatter | backend/services/message-writer-service/src/main.ts:94-134 | However a list of entries is cut into segments, handling the segments in turn, each as a batch, means handling the entries one at a time: equal settlements, equal tables but for new numbers, old rows kept, the same new numbers in each room |
| Refinement.NeverConflicts | backend/services/message-writer-service/src/modules/message-writes/message-write.processor.ts:211-233 | The ON CONFLICT DO NOTHING arm of the message insert never fires: every candidate is inserted, by the NOT EXISTS filter and the room order |
| Refinement.NewRowsNeverConflict | backend/services/message-writer-service/src/modules/message-writes/message-write.processor.ts:176-231 | Two rows inserted by one statement never share an id, a room position or a (sender, request) |
| Refinement.StatusesAgree | backend/services/message-writer-service/src/modules/message-writes/message-write.processor.ts:250-292 | Joining messages by id or by key and updating statuses through the join comes to: a row of the batch is persisted if and only if a message with its key exists |
| Refinement.CommitRefinesPlain | backend/services/message-writer-service/src/modules/message-writes/message-write.processor.ts:159-305 | With numbers erased the transaction is a simple one without ranks, joins or conflict clause |
| Refinement.CommitKeepsSequence | backend/services/message-writer-service/src/modules/message-writes/message-write.processor.ts:176-233 | A commit keeps every room numbered 1 to nextMessageSeq - 1 without gap or repeat |
| Effects.CommitOrderFollowsTime | backend/services/message-writer-service/src/modules/message-writes/message-write.processor.ts:179-182 | The messages one commit adds to a room are numbered in the order of their times, and of their ids at one time |
| Ranking.RankOnto | backend/services/message-writer-service/src/modules/message-writes/message-write.processor.ts:179-182 | ROW_NUMBER leaves no gap: every offset below the count of the partition belongs to some row |
| Ranking.RankStrict | backend/services/message-writer-service/src/modules/message-writes/message-write.processor.ts:179-182 | ROW_NUMBER follows the order of the rows and never repeats |
| Commits.CommitKeepsInvariant | backend/services/message-writer-service/src/modules/message-writes/message-write.processor.ts:79-310 | Every commit keeps the invariant that links the four tables |
| Effects.RequestStored | backend/services/message-writer-service/src/modules/message-writes/message-write.processor.ts:99-292 | After a commit a request that had no message has one with its row's text, time and room, its sender and its request id, numbered past all others of the room; a waiting outbox row with the command's origin; and a persisted row; a new row has the columns of the request's first command |
| Effects.RequestSettled | backend/services/message-writer-service/src/modules/message-writes/message-write.processor.ts:159-292 | A request whose message is stored, or whose row is dead, gets no second message; its row, unless dead or fanned out, is persisted with the stored message's time |
| Effects.OnlyBatchIsTouched | backend/services/message-writer-service/src/modules/message-writes/message-write.processor.ts:79-310 | A commit changes no row of other requests, no stored message and no outbox row, adds messages and outbox rows one for one, and only under ids of its commands |
| Effects.RoomTimesExact | backend/services/message-writer-service/src/modules/message-writes/message-write.processor.ts:461-492 | A commit leaves a room's time as it was or makes it the time of the newest message it added there |
| Effects.CommitFailsExactly | backend/services/message-writer-service/src/modules/message-writes/message-write.processor.ts:83-157 | A commit fails with a conflict if and only if two of its commands share a request and differ in id, room or body; else with a constraint violation if and only if some request without a row lacks its room or sender or has an id that is taken; else with a mismatch if and only if some row differs from its command in id, room or body |
| Commits.CommitRecords | backend/services/message-writer-service/src/modules/message-writes/message-write.processor.ts:184-292 | After a commit no write of the batch is PENDING: each command has a matching row that is DEAD or persisted |
| Commits.CommitIdempotent | backend/services/message-writer-service/src/modules/message-writes/message-write.processor.ts:79-310 | Re-running recorded commands, in any order, selection or repetition and after any fanout, changes no table and returns no messages |
| Commits.DedupeFacts | backend/services/message-writer-service/src/modules/message-writes/message-write.processor.ts:553-572 | Deduplication keeps one command per key, each from the list, with which every command of its key agrees |
| Processor.DedupeMessageWriteCommands | backend/services/message-writer-service/src/modules/message-writes/message-write.processor.ts:553-572 | The loop returns the specified commands, one per key, or the conflict error exactly when two commands of a key disagree |
| Processor.FlatKeyInjective | backend/services/message-writer-service/src/modules/message-writes/message-write.processor.ts:574-576 | Flat keys identify (sender, request) when sender ids hold no colon |
| Processor.FlatKeysCanCollide | backend/services/message-writer-service/src/modules/message-writes/message-write.processor.ts:574-576 | With a colon in a sender id two different requests can share a flat key |
| Processor.FlatKeysCollideExactly | backend/services/message-writer-service/src/modules/message-writes/message-write.processor.ts:574-576 | Requests of two different senders can share a flat key if and only if one sender id starts with the other followed by a colon |
| Processor.UpdateRoomsLastMessageAt | backend/services/message-writer-service/src/modules/message-writes/message-write.processor.ts:461-492 | Each room's time becomes the greatest of itself and the times of the room's returned messages, and is one of them; its counter and the other rooms stay |
| Processor.MatchWrites | backend/services/message-writer-service/src/modules/message-writes/message-write.processor.ts:145-157 | The check passes if and only if every command of the batch has a write row with its id, room and body |
| Processor.PersistAndBump | backend/services/message-writer-service/src/modules/message-writes/message-write.processor.ts:159-306 | The numbering statement followed by the room bump leaves exactly the tables of the specified commit and returns exactly the inserted messages, by (createdAt, id), none twice |
| Processor.ProcessMessageWriteCommands | backend/services/message-writer-service/src/modules/message-writes/message-write.processor.ts:79-310 | The statement-by-statement transaction ends in the specified tables and returns the inserted messages by (createdAt, id), none twice, or throws the specified error with the tables as they were; a lost connection may hide which |
| Processor.ProcessMessageWriteCommand | backend/services/message-writer-service/src/modules/message-writes/message-write.processor.ts:56-77 | One command: committed, rethrown below the last attempt, dead-lettered at it; success below the last attempt leaves the command recorded |
| Processor.MarkMessageWriteCommandDead | backend/services/message-writer-service/src/modules/message-writes/message-write.processor.ts:520-551 | Dead-letters the command as `DeadLetterExactly` says column by column, or, when a statement fails, silently changes nothing |
| Steps.DeadLetterLeavesDead | backend/services/message-writer-service/src/modules/message-writes/message-write.processor.ts:499-551 | A dead-lettered command ends DEAD exactly when its row was pending or dead already, or it had none and one could be inserted |
| Effects.DeadLetterExactly | backend/services/message-writer-service/src/modules/message-writes/message-write.processor.ts:499-551 | Dead-lettering turns a pending row dead and keeps its columns; a request without a row gets a dead one with the command's own id, room, body and time exactly when room and sender exist and the id is free; nothing else changes |
| Effects.DeadLetterIsOnRecord | backend/services/message-writer-service/src/modules/message-writes/message-write.processor.ts:534-547 | A dead letter stored for a request without a row is on record: delivering the command again succeeds, inserts nothing and changes no table |
| BatchHandling.AckedWithoutTrace | backend/services/message-writer-service/src/modules/message-writes/message-write.processor.ts:520-551 | A command for a room that does not exist is acknowledged at its last attempt and leaves the tables exactly as they were: an ack does not imply a DEAD row |
| Database.MessageDatabase.ClaimOutbox | backend/services/message-writer-service/src/modules/message-writes/message-write.processor.ts:320-351 | Claims distinct claimable rows up to the limit and changes only those; when no other drainer holds locks, it takes all of them or the limit, oldest by (createdAt, id) first |
| Database.MessageDatabase.CreateMessageRow | backend/services/chat-service/src/modules/chats/chats.repository.ts:182-215 | Takes the room's next number and inserts, or rolls the increment back and reports why |
| Writer.MessageWriter.HandleMessageBatch | backend/services/message-writer-service/src/main.ts:193-240 | Terminates and settles every entry exactly once, in order, whatever fails; an ack below the last delivery attempt means that the command's row is DEAD or a message with its key is stored; when the database works, fanout on or off, the settlements and, fanout's progress aside, the tables are those of the specification, and nothing acked means nothing changed; every event sent is a stored message with its origin; and with fanout at its disposal, an ack means a hundred events went out or no outbox row was left due |
| Writer.HandledIsFold | backend/services/message-writer-service/src/main.ts:193-240 | That specification, with fanout on, still means handling the entries one at a time: the same settlements, and the same tables but for new numbers and fanout's progress |
| FanoutErasure.UnfannedBatch | backend/services/message-writer-service/src/main.ts:203-238 | Handling a batch acknowledges and stores the same whatever has been fanned out before: with fanout's progress erased before or after, the outcome is the same, numbers included |
| FanoutErasure.UnfannedCommands | backend/services/message-writer-service/src/modules/message-writes/message-write.processor.ts:159-292 | A commit does the same, and fails for the same reason, on tables with fanout erased: a fanned-out row is never persisted again with another time |
| Writer.MessageWriter.HandleSingleMessageWrite | backend/services/message-writer-service/src/main.ts:242-276 | Settles its entry once; the same guarantees for one command |
| Runs.StepKeepsTables | backend/services/message-writer-service/src/modules/message-writes/message-write.processor.ts:79-551 | Every atomic step of every client keeps the invariant and only moves rows forward |
| Steps.RestSteps | backend/services/chat-service/src/modules/chats/chats.repository.ts:182-215 | A REST create keeps the invariant, shares the room counter, and numbers its message after all others |
| Steps.RestViolation | backend/services/chat-service/src/modules/chats/chats.repository.ts:202-213 | A REST create fails on uniqueness exactly when its id or its (sender, request) is taken, never on the room position |
| Histories.RunInvariant | backend/services/message-writer-service/src/modules/message-writes/message-write.processor.ts:79-551 | In every state of every interleaved run from a migrated database the table invariant and the lease invariant hold |
| Histories.GapFreeOrder | backend/services/message-writer-service/src/modules/message-writes/message-write.processor.ts:176-233 | At every point of every run a room's numbers are exactly 1 to nextMessageSeq - 1, none repeated, and messages that appear later sort after all earlier ones |
| Histories.FirstBodyWins | backend/services/message-writer-service/src/modules/message-writes/message-write.processor.ts:99-118 | In every run stored messages are never altered, no (sender, request) ever gets a second message, and a write keeps its id, room, body and time |
| Redelivery.RedeliveryChangesNothing | backend/services/message-writer-service/src/modules/message-writes/message-write.processor.ts:79-310 | Once a batch has committed, committing any of its commands again, at any later point of any run and in any batch of them, succeeds, inserts nothing and changes no table |
| Redelivery.LastMessageAtCovers | backend/services/message-writer-service/src/modules/message-writes/message-write.processor.ts:461-492 | In every state of every run a room's lastMessageAt is no earlier than any of its buffered messages |
| Histories.OneOutboxRowPerMessage | backend/services/message-writer-service/src/modules/message-writes/message-write.processor.ts:234-249 | In every reachable state outbox rows and writer-inserted messages correspond one to one |
| Histories.StatusMachine | backend/services/message-writer-service/src/modules/message-writes/message-write.processor.ts:184-196 | In every run a write only moves PENDING, PERSISTED, FANOUTED or PENDING, DEAD; a fanned-out write was persisted in between |
| Histories.StepMoves | backend/services/message-writer-service/src/modules/message-writes/message-write.processor.ts:280-292 | One step moves a write along one edge of that machine or not at all |
| Histories.PersistedHasMessage | backend/services/message-writer-service/src/modules/message-writes/message-write.processor.ts:280-292 | A PERSISTED or FANOUTED write has a message with its key, created when the row says |
| WriterOnlyRuns.WritesMirrorMessages | backend/services/message-writer-service/src/modules/message-writes/message-write.processor.ts:176-292 | In runs without REST creates a write is PERSISTED or FANOUTED if and only if the message with its id, room, content and time is stored, and PENDING or DEAD if and only if no message has its key |
| Migration.BackfillEstablishes | backend/prisma/migrations/20260530010000_add_message_sequences_and_outbox/migration.sql:6-24 | The migration establishes the invariant, so its result is a start of runs, and changes only sequence numbers and counters |
| Migration.BackfillSequences | backend/prisma/migrations/20260530010000_add_message_sequences_and_outbox/migration.sql:6-24 | Backfilled numbers are gap-free and the counters point past them |
| Migration.BackfillFollowsTime | backend/prisma/migrations/20260530010000_add_message_sequences_and_outbox/migration.sql:6-15 | Backfilled numbers follow (createdAt, id) in each room |
| Invariant.RoomNumbersExact | backend/services/chat-service/src/modules/chats/chats.repository.ts:186-209 | The set of numbers used in a room is exactly 1 to nextMessageSeq - 1, and empty for a room that does not exist |
| Leases.StepKeepsLease | backend/services/message-writer-service/src/modules/message-writes/message-write.processor.ts:312-459 | Every step keeps: attempts are the claims, claims are spaced, a PUBLISHED row has been sent, each claim knows whether it has sent, and has finished unheard only after sending |
| OutboxGuarantees.ClaimsBounded | backend/services/message-writer-service/src/modules/message-writes/message-write.processor.ts:318-351 | Any two claims of one row are apart by min(staleLockMs, 1000) ms per claim between them, which bounds the attempts in any stretch of time |
| OutboxGuarantees.PublishesBounded | backend/services/message-writer-service/src/modules/message-writes/message-write.processor.ts:369-402 | A row is published at most once per attempt, and a PUBLISHED row at least once |
| OutboxGuarantees.NoLostFanout | backend/services/message-writer-service/src/modules/message-writes/message-write.processor.ts:234-407 | Every writer-inserted message has an outbox row and a PERSISTED or FANOUTED write; PUBLISHED means FANOUTED; while the write is only PERSISTED the row is claimable from a known time on |
| OutboxGuarantees.ClaimedMessageExists | backend/services/message-writer-service/src/modules/message-writes/message-write.processor.ts:355-367 | The "message not found" branch is unreachable: every claimed row's message is stored |
| OutboxGuarantees.FanoutMeansPublished | backend/services/message-writer-service/src/modules/message-writes/message-write.processor.ts:389-398 | A write becomes FANOUTED only by a drainer's finishing transaction, heard of or not, after it published that message |
| OutboxGuarantees.ClaimsExclusive | backend/services/message-writer-service/src/modules/message-writes/message-write.processor.ts:331-351 | When drainers settle only claims they still hold, and fail none whose finish has committed, two live claims of one row are the same claim |
| OutboxGuarantees.PublishedIsTerminal | backend/services/message-writer-service/src/modules/message-writes/message-write.processor.ts:378-388 | Under that hypothesis a PUBLISHED row stays PUBLISHED |
| OutboxGuarantees.PublishedThroughoutExactly | backend/services/message-writer-service/src/modules/message-writes/message-write.processor.ts:378-402 | In every run a row PUBLISHED at one point is PUBLISHED throughout a stretch if and only if no failure update of a claim of that row falls into it |
| OutboxGuarantees.PublishedLeftByFail | backend/services/message-writer-service/src/modules/message-writes/message-write.processor.ts:443-459 | In any run a step leaves PUBLISHED if and only if it is the failure update of a claim of that row |
| OutboxGuarantees.StaleFailureUndoesPublished | backend/services/message-writer-service/src/modules/message-writes/message-write.processor.ts:457-458 | From any state with a claimable row there is a run in which a drainer whose claim went stale turns the PUBLISHED row into FAILED, so the first half of the hypothesis is needed |
| OutboxGuarantees.LostAnswerUndoesPublished | backend/services/message-writer-service/src/modules/message-writes/message-write.processor.ts:378-402 | From any such state there is a run, at one moment and with one live claim, in which a drainer's finish commits unheard and its own failure update turns the PUBLISHED row into FAILED, so the second half is needed |
| OutboxDrain.DrainMessageOutbox | backend/services/message-writer-service/src/modules/message-writes/message-write.processor.ts:312-407 | Claims only claimable rows, the oldest when no other drainer holds locks. When database and channel work, it returns the number of rows claimed, sends each exactly once with its stored message and origin, leaves each PUBLISHED, and leaves every write of theirs that was PERSISTED fanned out. When not, and no statement throws (a lost claim answer and a failed lookup do), each row ends PUBLISHED, and then it was sent, or FAILED and due one backoff later, FAILED also when the finish committed but its answer was lost; the result counts the published ones; what goes out is what is stored, at most once a row |
| OutboxDrain.DeliverRow | backend/services/message-writer-service/src/modules/message-writes/message-write.processor.ts:369-403 | One row: when database and channel work its event goes out and it ends PUBLISHED; else it may end FAILED, and it never ends PUBLISHED without its event |
| OutboxDrain.MarkOutboxFailed | backend/services/message-writer-service/src/modules/message-writes/message-write.processor.ts:443-459 | Fails the row, due again exactly one backoff after the time it reads (attempts squared seconds, at least one, at most sixty), and touches no other; when its answer is lost the row is so failed or as it was |
| Steps.RetryDelay | backend/services/message-writer-service/src/modules/message-writes/message-write.processor.ts:448 | The backoff is between one second and one minute and is exactly attempts squared seconds while below the cap |
| WriterQueue.EveryReachableState | backend/services/message-writer-service/src/main.ts:62-134 | In every reachable state started, pending and current batches together are the arrivals in order, at most `concurrency` run, pending implies all slots busy, at most 2 * concurrency pend, and at most 3 * concurrency * batchSize entries are unfinished |
| WriterQueue.PumpFacts | backend/services/message-writer-service/src/main.ts:75-92 | Pumping keeps the order, loses nothing, and leaves a batch pending only when every slot is busy |
| WriterQueue.PushFacts | backend/services/message-writer-service/src/main.ts:124-133 | Taking an entry keeps all limits and appends exactly that entry |
| WriterQueue.UnfinishedBounded | backend/services/message-writer-service/src/main.ts:120-122 | Back-pressure bounds the unfinished entries by 3 * concurrency * batchSize |
| WriterQueue.BatchingEngine.Receive | backend/services/message-writer-service/src/main.ts:117-134 | Waits exactly under back-pressure; otherwise queues a decodable delivery, or settles an undecodable one at once; the timer is set if and only if the current batch is non-empty |
| WriterQueue.BatchingEngine.TaskFinished | backend/services/message-writer-service/src/main.ts:79-88 | A settled handler frees its slot, starts what waits, and releases the waiter only when nothing is left |
| WriterQueue.BatchingEngine.FlushTimerFired | backend/services/message-writer-service/src/main.ts:94-114 | The timer hands the current batch over and keeps the invariant |
| WriterQueue.BatchingEngine.Close | backend/services/message-writer-service/src/main.ts:140-156 | Closing terminates, and then nothing is collecting, pending or running and every entry taken was handed to a handler |
| CreateMessage.CreateMessage | backend/services/chat-service/src/modules/chats/chats.service.ts:305-353 | Creates exactly when the body is given, the sender is a member and a user, the room is there, and id and (sender, request) are free: the answer and the stored row carry the new id and the input's chat, sender, body, request id and time, the row is last in its room, the room's time covers it, nothing else changes, and it is announced; otherwise a repeated request gets its stored message's columns, and any other call its error, with nothing changed or announced; whatever the cache kept, lost or failed to answer; and when the cache works the answer is in it afterwards |
| CreateMessage.UncachedAnswers | backend/services/chat-service/src/modules/chats/chats.service.ts:305-353 | The call without a cache meets that description column by column |
| CacheRuns.CallIsAtomicAtInsert | backend/services/chat-service/src/modules/chats/chats.service.ts:318-340 | A call whose cache lookup, insert and recovery happen at three points of a run, any steps of other clients in between, answers as the call without a cache does when it happens as a whole at the insert |
| CacheRuns.CacheAlwaysSound | backend/services/chat-service/src/modules/chats/chats.service.ts:318-350 | At every point of every run, entries coming from any calls and vanishing at any time, each cache entry is the stored message of its request |
| CacheRuns.AnswerMayBeCached | backend/services/chat-service/src/modules/chats/chats.service.ts:326-350 | What a create that inserted answered is still the stored message of its request whenever it gets round to caching it |
| CacheRuns.RecoveredMayBeCached | backend/services/chat-service/src/modules/chats/chats.service.ts:332-350 | A create that met a duplicate finds its request's message whenever it looks, and what it found is still that message whenever it gets round to caching it |
| CreateMessage.CacheStaysSound | backend/services/chat-service/src/modules/chats/chats.service.ts:318-350 | Cache entries stay right under any steps of other clients and any expiry |
| CreateMessage.StoredIsFinal | backend/services/chat-service/src/modules/chats/chats.service.ts:335-338 | The message stored for a request never changes once it is there |
| CreateMessage.DuplicateRecovers | backend/services/chat-service/src/modules/chats/chats.service.ts:332-340 | Without the cache, a request already stored answers with the stored message and changes no table |
| CreateMessage.AnnouncedIsNew | backend/services/chat-service/src/modules/chats/chats.service.ts:323-351 | What a create announces was not stored before, is stored as answered, comes last in its room, and the room's last-message time covers it |
| CreateMessage.CacheKeyInjective | backend/packages/shared-redis/src/idempotency.ts:6-8 | Cache keys identify requests when sender ids hold no colon |
| CreateMessage.GetCachedMessage | backend/packages/shared-redis/src/idempotency.ts:10-23 | A hit is the stored message of that very request; when the cache works, a live entry under the request's key is a hit; failures read as misses |
| CreateMessage.StoreInCache | backend/packages/shared-redis/src/idempotency.ts:25-38 | When the cache works the message is stored under the request's key for 300 seconds and nothing else changes; storing keeps every entry right; failures are swallowed |
| Newest.TwoSourceNewest | backend/services/chat-service/src/modules/chats/chats.service.ts:281-302 | The newest k of two sources, merged by id with the stored copy first, stably sorted and cut, are the newest k of the deduplicated union |
| Paging.GetMessages | backend/services/chat-service/src/modules/chats/chats.service.ts:265-303 | With cursor, messages and pending writes read at moments of their own, the page is the newest rows strictly before the cursor of all that the reads saw, or the membership error; every row shown has the id, sender, text, room and time of a message of the room, or, marked pending, of a PENDING write of it |
| Paging.SourcesExactly | backend/services/chat-service/src/modules/chats/chats.service.ts:84-105 | The rows there are to show are exactly the room's messages and its pending writes, column by column |
| Paging.CursorExactly | backend/services/chat-service/src/modules/chats/chats.service.ts:274-279 | A cursor stands for the time of the message, or else of the write, it names, and for nothing when it names none |
| Paging.MergePages | backend/services/chat-service/src/modules/chats/chats.service.ts:294-302 | The merge loop, sort and slice compute the merged page |
| Paging.CursorOfRow | backend/services/chat-service/src/modules/chats/chats.service.ts:274-279 | The cursor made of a shown row's id stands for that row's time, stored or pending |
| Paging.CopiesAgreeAcrossReads | backend/services/chat-service/src/modules/chats/chats.service.ts:281-292 | A message and a pending copy of it carry the same time even when the two queries see the tables at different moments |
| Paging.NothingMissed | backend/services/chat-service/src/modules/chats/chats.service.ts:281-292 | When the pending writes are read first, every id that was in the history is seen |
| Paging.MissedExactly | backend/services/chat-service/src/modules/chats/chats.service.ts:281-292 | When the messages are read first, a pending write is missed if and only if it stops being pending in between |
| Paging.ReadHistory | backend/services/chat-service/src/modules/chats/chats.service.ts:274-302 | Passing the last id back terminates and shows no id twice, each row with the columns of its message or pending write; it shows every stored and pending message if and only if ties fit the page size |
| Paging.CompleteExactly | backend/services/chat-service/src/modules/chats/chats.repository.ts:148-180 | Every finished walk has shown every row if and only if no multiple of the page size falls strictly inside a group of rows with one time: a condition on the rows and the page size alone |
| Paging.DistinctTimesFit | backend/services/chat-service/src/modules/chats/chats.repository.ts:148-180 | Rows with distinct times meet that condition for every page size |
| Paging.TiedMessageIsLost | backend/services/chat-service/src/modules/chats/chats.repository.ts:152-158 | Two messages of one room stored at the same moment, read one to a page: the walk ends with one of them unseen |
| Paging.PagesDescend | backend/services/chat-service/src/modules/chats/chats.repository.ts:148-180 | Every row of a later page is strictly older than every row of an earlier one |
| ChatList.AttachPendingLatestMessages | backend/services/chat-service/src/modules/chats/chats.service.ts:137-159 | Each chat gets the newest message of its whole history, with the columns of a message or pending write of the chat, and the same chats are listed by the time of that message, or of their creation, newest first |
| ChatList.NewestOfBoth | backend/services/chat-service/src/modules/chats/chats.service.ts:131-135 | The newer of the two sources' newest messages is the newest of their union |
| Redis.LazyExpiryInvisible | backend/packages/shared-redis/src/fake-redis.ts:117-125 | A store that drops expired entries only when reading them looks the same, now and later, as one that drops them when they expire |
| Redis.AnswersAlike | backend/packages/shared-redis/src/fake-redis.ts:117-130 | Reads answer as if expired entries were gone |
| Redis.FakeRedis.Incr | backend/packages/shared-redis/src/fake-redis.ts:45-53 | Counts from zero when nothing live or a set is there, keeps the expiry of what is, and turns text that is no number into not-a-number |
| Redis.FakeRedis.SRem | backend/packages/shared-redis/src/fake-redis.ts:82-92 | Removes one member and deletes an emptied set |
| Redis.FakeRedis.Expire | backend/packages/shared-redis/src/fake-redis.ts:55-60 | Extends a live entry, and only a live one |
| RateLimit.LocalRateLimiter.Check | backend/services/realtime-service/src/modules/realtime/realtime-rate-limit.ts:65-82 | The verdict is the one a limiter would give that only the calls sharing this call's window had ever used, under a clock that does not go back; in general it counts the call in its live window or a new one; afterwards the map is within its limit or every stored window is live |
| RateLimit.OwnCallsOnly | backend/services/realtime-service/src/modules/realtime/realtime-rate-limit.ts:65-97 | After any sequence of checks a verdict depends on the earlier checks that share its window, and on no others, cleanup or not |
| RateLimit.SharesExactly | backend/services/realtime-service/src/modules/realtime/realtime-rate-limit.ts:67 | Two checks share a window if and only if prefix and key are the same, or the longer prefix is the shorter one, a colon and a rest that the shorter one's key starts with |
| RateLimit.PlainPrefixesKeepApart | backend/services/realtime-service/src/modules/realtime/realtime-rate-limit.ts:67 | When prefixes hold no colon, checks share a window exactly when prefix and key are the same |
| RateLimit.FirstCallCountsOne | backend/services/realtime-service/src/modules/realtime/realtime-rate-limit.ts:70-81 | A check whose window nobody has used counts 1, and is allowed if and only if the limit is at least 1 |
| RateLimit.InterfereExactly | backend/services/realtime-service/src/modules/realtime/realtime-rate-limit.ts:67-75 | Of two checks at one moment the second counts 2 if they share a window and 1 if not |
| RateLimit.LocalRateLimiter.CleanupExpiredWindows | backend/services/realtime-service/src/modules/realtime/realtime-rate-limit.ts:86-97 | Removes all and only the expired windows, when it runs at all |
| RateLimit.CleanupTransparent | backend/services/realtime-service/src/modules/realtime/realtime-rate-limit.ts:86-97 | Under a monotone clock cleanup never changes a verdict |
| RateLimit.CheckRateLimit | backend/packages/shared-redis/src/rate-limit.ts:15-30 | The limiter over Redis touches the key of its prefix and caller only, counts the call there, lets a new counter expire with its window, and allows it while the count is within the limit; without Redis, or when a command fails, it allows the call with count 0, having counted it or not |
| RateLimit.LocalMatchesRedis | backend/services/realtime-service/src/modules/realtime/realtime-rate-limit.ts:65-97 | For windows of at least a second the local limiter and the Redis limiter give the same verdict after any common sequence of checks of any keys, limits and windows |
| RateLimit.RedisOwnCallsOnly | backend/packages/shared-redis/src/rate-limit.ts:20-27 | Over Redis, too, a verdict depends on the earlier checks that share its window and on no others |
| RateLimit.LimitersAgreeExactly | backend/services/realtime-service/src/modules/realtime/realtime-rate-limit.ts:69 | Under given options the local and the Redis limiter agree on all sequences of checks if and only if the window is at least a second |
| RateLimit.ZeroWindowsDiffer | backend/services/realtime-service/src/modules/realtime/realtime-rate-limit.ts:69 | With a zero-second window two checks at one moment count 2 locally and 1 over Redis |
| RateBound.WindowAdmits | backend/services/realtime-service/src/modules/realtime/realtime-rate-limit.ts:70-79 | One window admits at most `limit` checks of the callers that share it |
| RateBound.WindowAdmitsExactly | backend/services/realtime-service/src/modules/realtime/realtime-rate-limit.ts:70-81 | The limiter allows a check if and only if it is among the first `limit` of its window |
| RateBound.LimiterAdmits | backend/services/realtime-service/src/modules/realtime/realtime-rate-limit.ts:57-84 | Any time interval as long as a window admits at most twice the limit of the checks that share a window, cleanup included |
| Presence.IsUserOnline | backend/packages/shared-redis/src/presence.ts:74-85 | Answers whether some connection of the user has a live key, as if no cleanup existed, and its cleanup keeps that true for every later query; without Redis nobody is online |
| Presence.RegisterPresence | backend/packages/shared-redis/src/presence.ts:27-43 | Registers the connection and announces the user exactly when no live connection was there; without Redis, or when a command fails, it returns false and announces nothing, and the store knows the connection, does not, or has its key but does not list it |
| Presence.NearlyTracksHeals | backend/packages/shared-redis/src/presence.ts:36-42 | A connection left unlisted by a registration that stopped half-way makes nobody look online who is not, and once its key has expired the store is in step again |
| Presence.RefreshPresence | backend/packages/shared-redis/src/presence.ts:45-55 | Extends a live connection, and only a live one, or, when the command fails, changes nothing that can be seen |
| Presence.UnregisterPresence | backend/packages/shared-redis/src/presence.ts:56-72 | Forgets the connection and announces the user exactly when no live connection remains; without Redis, or when a command fails, it returns false and announces nothing, and the connection is as it was, ended, or forgotten |
| Presence.TracksLater | backend/packages/shared-redis/src/presence.ts:74-85 | Expiry alone keeps the keys and sets in step with the connections |
| PresenceEvents.AnnouncementsAlternate | backend/packages/shared-redis/src/presence.ts:27-72 | Without expiry and with only registered connections unregistered, each user's announcements alternate, and the last one says whether the user is online |
| PresenceEvents.AlternateExactly | backend/packages/shared-redis/src/presence.ts:27-72 | In every run, expiry and stray unregisters included, a user's announcements alternate if and only if no register came while the user was silently gone and no unregister while the user was offline and announced so |
| PresenceEvents.LastAnnouncement | backend/packages/shared-redis/src/presence.ts:38-67 | While they alternate, the last announcement is "online" exactly while the user is online or silently gone |
| PresenceEvents.ExpiryRepeatsOnline | backend/packages/shared-redis/src/presence.ts:35-39 | A silent expiry and a new connection: two online announcements in a row |
| PresenceEvents.ExpiryRepeatsOffline | backend/packages/shared-redis/src/presence.ts:64-67 | Two expired connections, both unregistered: two offline announcements in a row |
| PresenceEvents.Replay | backend/packages/shared-redis/src/presence.ts:27-85 | Any run of the operations over Redis is the run of the registry: the store stays in step, exactly its announcements are published, and a query at the end answers whether some connection is live |
| Sockets.RemoveUndoesAdd | backend/services/realtime-service/src/modules/realtime/realtime.service.ts:11-59 | Removing a client undoes its registration and any room joins, exactly |
| Sockets.AddedConsistent | backend/services/realtime-service/src/modules/realtime/realtime.service.ts:11-17 | Registering a socket keeps the indexes the inverses of the client states if and only if the socket is new and in no room, or registers again just as it was |
| Sockets.JoinedConsistent | backend/services/realtime-service/src/modules/realtime/realtime.service.ts:45-50 | A room join by a registered client keeps the indexes right; one by a client that is no longer registered does if and only if its socket is registered anew and in that room already |
| Sockets.RemovedConsistent | backend/services/realtime-service/src/modules/realtime/realtime.service.ts:19-28 | Removal keeps the indexes right, with no empty sets left |
| Sockets.InMemoryPresenceStore.AddClient | backend/services/realtime-service/src/modules/realtime/realtime.service.ts:11-17 | Registers any client state; right indexes stay right exactly when it fits them |
| Sockets.InMemoryPresenceStore.AddSocketToRoom | backend/services/realtime-service/src/modules/realtime/realtime.service.ts:45-50 | Joins a client to a room, in its state and in the index; right indexes stay right when it is registered, and for one that has gone only the index records it |
| Sockets.InMemoryPresenceStore.RemoveClient | backend/services/realtime-service/src/modules/realtime/realtime.service.ts:19-28 | Removes the client from every index and returns its state, or changes nothing when it is unknown |
| Sockets.InMemoryPresenceStore.RemoveSocketFromRooms | backend/services/realtime-service/src/modules/realtime/realtime.service.ts:52-59 | Takes the socket out of each of its rooms and drops emptied rooms |
| Sockets.InMemoryPresenceStore.HasOpenSocketForUser | backend/services/realtime-service/src/modules/realtime/realtime.service.ts:61-69 | Answers as a scan over all clients would |

## Left out

- Postgres, Prisma, NATS and Redis servers: atomic steps, deliveries with an attempt counter, and a publish that may fail stand for them. Isolation anomalies inside Postgres are not modelled.
- The content hashes behind buffered message ids and outbox ids, and JSON encoding: a command carries its id, an outbox row is keyed by its message, and encoding is the identity.
- `updatedAt`, `publishedAt`, `failedAt`, failure texts and trimming: they carry no invariant.
- Processor.ProcessMessageWriteCommands: an acceptance time that cannot be parsed is not modelled; the command's time is a number.
- Transparency.BatchingIsTransparent: only the tables can fail, since a lost connection makes a retry depend on timing; settlement and the ack guarantee hold without this restriction in the batch handler's own contract, and fanout is added by `Writer.HandledIsFold`.
- WriterQueue.BatchingEngine.Receive: models the consume loop's turn after its check of the closing flag; a delivery drawn after closing is left to redelivery.
- ConcurrentEngine.RunIsSomeOrder: one writer process on tables nobody else changes, with only the tables failing and the handlers' drains left out; runs with REST callers, drainers and other writers are the subject of `Runs` and the theorems over it.
- Redis.FakeRedis.Incr: text is told apart only as a decimal number, empty, or neither; blanks and other notations that the language reads as numbers are not. Pattern subscriptions and delivery to listeners are not modelled.
- RateLimit.LocalMatchesRedis: fractional and negative window lengths are not modelled, windows are whole seconds.
- PresenceEvents.Replay: operations do not overlap and the server does not fail; a close that overtakes its own registration is not modelled.
- CacheRuns.CallIsAtomicAtInsert: the id the database draws for the new message is not in use.
- Paging.ReadHistory: the walk reads one snapshot; page limits are naturals.
- Broadcasting to sockets, send-buffer limits, frame handling, metrics, and event-loop monitors: input and output only.
- The user and notification services, chat creation and its validation, the bounded publish retry, and the repository's unused write helpers (`createMessageWrite`, `findMessageWriteByRequestId`, `updateMessageWriteStatus`): easy members without shared state.
