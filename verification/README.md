# Socket Bridge, verified

Socket Bridge couples a Laravel application to a Socket.IO gateway through Redis streams and a
database. Commands travel from a browser through the gateway into the `commands` stream, are
processed once under a receipt row, and their results travel back through an outbox table and the
`events` stream. This project models the parts of it that carry state across processes and proves
what they promise. `dafny verify dfyconfig.toml` checks everything.

## What is modelled

**JSON layer** (`Decimal`, `Json`, `JsonCanonical`, `JsonEnvelope`). PHP values (arrays with int or
string keys, `stdClass`, scalars) against JSON values. Decoding and encoding again is the identity
on the wire at every depth, exactly for texts whose numbers `json_encode` could have written; the
canonical form decides equality up to member order; fingerprints and stored replies rest on both.

**Redis stream** (`StreamIds`, `RedisStream`, `StreamRetention`). An ordered log with consumer
groups, last-delivered ids and pending lists. Ids are the numbers Redis keeps; the script's textual
comparison is proved to be their order. The retention script removes exactly the head of what no
group needs any more.

**Command pipeline** (`CommandModel`, `BridgeState`, `BridgeInvariants`, `BridgeTheorems`). A
transition system over the commands stream, receipts, outbox, dead letters, events stream, clock and
a record of committed handler effects. A step is one Redis command or script, or one committed
database transaction; a crash is a process that takes no further step. The theorems hold in every
state of every interleaving. `ResultTexts` and `CommandDecisions` say what a processed command comes
to, as conditions on its envelope, receipt and handler and as the JSON text that is stored and sent. `Backends`, `CommandProcessing`, `CommandConsuming`, `OutboxRelaying`
and `FailedReplaying` (with `ReplayingRuns`) are the classes of the program: each method notes the steps it takes
(`own`), every step must be enabled where it is taken, and any number of steps by other processes
may happen between two of its statements.

**Clean-up runs** (`SeekPaging`, `CleanupModel`, `Cleaning`, `CleanupTraversal`, `CleanupSteps`). The
round-robin loop with its budgets and its fair share for each resource, keyset pagination with a seek predicate, and the traversal of old
receipts whose cursor survives from run to run; what any sequence of runs covers until the cursor
wraps; and that a run takes only steps the command pipeline allows.

**Gateway** (`ChannelLeases`, `Subscribing`, `SubscribingRuns`; `PendingTable`, `Acknowledging`,
`AcknowledgingRuns`; `DeliveryCache`, `Fanout`, `Emitting`; `EventEntries`, `EntryProcessing`;
`PresenceRotation`). Channel leases with revisions, the table of pending acknowledgements, grouped
fan-out with delivery suppression, processing of event entries with attempts and dead letters, and
the rotating presence sweep. A method is what happens between two `await`s, and what waits for an
answer is kept in the object, so every sequence of calls is an interleaving; the `Runs` modules prove
what holds across any such sequence.

## Assumptions

- The clock never goes back and counts whole seconds in the database; retention settings do not
  change. Database transactions are atomic and serialised by the receipt or outbox row they lock.
- Hashes are injective and generated ids are new: a fingerprint is the text that is hashed, and the
  request id of a command attempt is the identity of the attempt.
- Sessions, authorization, handlers, Redis and the database may fail or refuse at any time; these
  outcomes are parameters of the methods, or arbitrary. A request to Redis or a commit is answered,
  or carried out while its answer is lost, or not carried out (`Exchanges`).
- What `json_encode` writes for a finite double is read back as that double. It is the text of an
  integer exactly if the double is whole, not a negative zero, and below 10^17 in magnitude.
- `socket.join(...)` and the `leases.set(...)` behind it (`gateway/src/runtime.ts:257-258` and
  `528-529`) are one step. `ChannelLeases.SplitInstallUnseats` shows why: with a leave between the
  two, a lease would say yes and the room no.
- Within one clean-up run other processes may change receipts and results at any moment, while the
  streams and the published rows change only by the run itself; between runs everything may change.
  Every change to a receipt stamps `updated_at` with the present, so no receipt becomes old by a
  change, during a run or between runs.

## Where the code promises less than one might expect

- *A second effect.* A delivery may be stamped up to 60 seconds in the future. Such a delivery can
  have a second effect after its receipt was pruned, and only such a delivery can:
  `BridgeTheorems.SecondEffectIff` gives the exact condition, `ToleranceAllowsSecond` a run.
- *Trimming.* The retention script protects only groups that exist. If another group is created on
  `commands` before the consumers' own group, a command nobody answered can be removed
  (`ForeignGroupLosesCommand`); when the consumers' group comes first, nothing is lost
  (`NoCommandLost`). So which group is created first decides it: `BridgeTheorems.FirstGroupDecides`,
  and `EventEntries.FirstGroupDecides` for the events stream and the gateways' group.
- *Unauthenticated replies.* A delivery whose session does not resolve is answered with an
  authentication error even if its receipt holds a result. `BridgeTheorems.ReplyIsStoredIff` gives
  the exact condition for every delivery that matches its receipt, `DeniedReplyDiffers` a run.
  `ReplyAgreement` speaks of replies sent from a receipt.
- *Appends with a lost reply.* Redis may have accepted an entry although the relay saw an error. The
  row is then appended again, so appends are one if published, plus the rollbacks after an append,
  plus the lost replies (`BridgeTheorems.OutboxConserved`); `LostReplyAppendsTwice` is a run.
- *Replays without a marker.* The append of an operator replay and its marker are two Redis
  commands. If the answer to the append is lost, or the marker cannot be set, a later replay appends
  the command again. `ReplayingRuns.Series` says exactly when a replay appends: if and only if it
  reaches the stream and no marker was written before.
- *Numbers.* `json_decode` turns an integer beyond 64 bits into a double, which is written back in
  exponent form, and any other number is written back as `json_encode` spells its double. A text is
  kept if and only if every number in it is an integer of 64 bits or so spelled
  (`JsonCanonical.WireKeptIff`); `WideIntegerChanges` is one that changes its value, too.
- *Fingerprints of such numbers.* Payloads that differ only in numbers with the same double have one
  fingerprint, and only those (`JsonEnvelope.WireFingerprints`); `WidePayloadsCollide` is a pair.
- *Relayed text.* A stored row with a number `json_encode` spells differently, or with a list where
  the envelope encoder writes an object (the root payload, or a result's data), is not relayed unchanged;
  `JsonEnvelope.RelayKeepsEnvelope` states exactly when it is, `DataListIsNotRelayed` is a row that
  is not, and `StoredEnvelopeRelays` says that rows the encoder wrote itself are.

## Model

| member | source | states |
|---|---|---|
| Decimal.ShorterIsNumeric | src/Operations/StreamRetention.php:20-23 | comparing canonical decimal texts by length and then alphabetically is comparing their values |
| StreamIds.LessIsNumeric | src/Operations/StreamRetention.php:17-24 | `less` is the numeric order of the (milliseconds, sequence) pair for ids of any length, and equal texts are equal pairs |
| StreamIds.RenderedOrder | src/Operations/StreamRetention.php:17-24 | `less` on two rendered ids holds exactly if the first id is lower, so it is a strict total order |
| RedisStream.DeliverKeeps | src/Transport/RedisStreams.php:110-119 | reading new entries for a group never drops an entry the group still owes an acknowledgement |
| RedisStream.ClaimKeeps | src/Transport/RedisStreams.php:122-129 | claiming idle entries never drops one that is still in the stream |
| RedisStream.UnreadIsNext | src/Transport/RedisStreams.php:110-119 | what a read hands out is the stretch of the log right behind the last-delivered id, as long as the count allows |
| RedisStream.DeliverIs | src/Transport/RedisStreams.php:110-119 | a read moves the last-delivered id to the last entry handed out, and makes exactly these entries pending with one delivery each |
| RedisStream.NextAreUnread | src/Transport/RedisStreams.php:110-119 | the entries of a read ascend, lie behind the last-delivered id, and none before the last of them, or with room in the batch, is left out |
| RedisStream.ClaimIs | src/Transport/RedisStreams.php:122-129 | a claim counts one more delivery of exactly the claimed entries still in the stream, drops the claimed ones that are gone, and changes nothing else |
| RedisStream.PickedIs | src/Transport/RedisStreams.php:122-129 | a claimed entry is handed out if and only if it is in the stream and its id was claimed; the batch ascends by id, and is as long as there are claimed ids still in the stream |
| RedisStream.AckIs | src/Transport/RedisStreams.php:131-134 | an acknowledgement takes exactly this id from the pending entries of this group |
| RedisStream.NewGroupOwesAll | src/Transport/RedisStreams.php:98-107 | a new group starts before the first entry, so that everything in the stream is still to be read by it; an existing group is left alone |
| StreamRetention.SafeFloor | src/Operations/StreamRetention.php:25-34 | the fold over groups and pending heads yields the greatest bound that is expired, read and acknowledged in every group; zero for an ungrouped main stream |
| StreamRetention.Page | src/Operations/StreamRetention.php:35-44 | the page is the next min(limit, rest) entries below the floor, the trim point lies right behind them, and the cursor is the last of them |
| StreamRetention.Remaining | src/Operations/StreamRetention.php:45-55 | more is reported exactly if an entry below the floor is left, and protection exactly if the oldest expired entry is still needed |
| StreamRetention.Prune | src/Operations/StreamRetention.php:12-62 | a real batch removes exactly the first min(limit, n) of the n entries below the floor, the limit clamped to 1 and 1000, a dry run changes nothing and counts the page behind its cursor, and afterwards exactly one of nothing expired, more, or protected holds |
| StreamRetention.TrimIsSafe | src/Operations/StreamRetention.php:25-44 | no entry below the floor is unread or pending in any group, or newer than the cutoff, and an ungrouped main stream loses nothing |
| StreamRetention.SafeFloorIsExact | src/Operations/StreamRetention.php:25-34 | a floor is allowed if and only if it does not exceed the safe one |
| StreamRetention.OlderThanCutoff | src/Operations/StreamRetention.php:12-16 | an id is below the cutoff if and only if its milliseconds are, whatever its sequence number |
| Json.KeyRoundTrip | src/DTO/Json.php:98-103 | a member name survives PHP's conversion to an array key and back |
| Json.WireRoundTrip | src/DTO/Json.php:12-20 | decoding a JSON value whose numbers are integers of 64 bits, or doubles as `json_encode` spells them, and encoding it again yields the same value at every depth, empty, numeric and mixed keys included |
| Json.HydrateWellFormed | src/DTO/Json.php:17-20 | whatever is decoded is a value PHP can hold, with integers in range, normalised keys and distinct names |
| JsonCanonical.WireKeptIff | src/DTO/Json.php:12-20 | a decodable text survives decoding and encoding if and only if every number in it is an integer of 64 bits or spelled as `json_encode` spells its double |
| JsonCanonical.WideIntegerChanges | src/DTO/Json.php:19 | an integer that comes back as another number, in exponent form |
| JsonCanonical.RoundTripRounds | src/DTO/Json.php:12-20 | decoding and encoding any text changes its numbers only, and each of them to what `json_encode` writes for the double it is read as |
| JsonCanonical.CanonicalForm | src/DTO/Json.php:83-96 | the canonical form means the same JSON and has sorted members at every depth |
| JsonCanonical.SortedUnique | src/DTO/Json.php:83-96 | a meaning has only one text with sorted members |
| JsonCanonical.CanonicalDecidesEquality | src/DTO/Json.php:83-96 | two values have the same canonical text if and only if they are equal up to member order, objects and lists kept apart |
| JsonEnvelope.FingerprintDecidesInput | src/Commands/CommandProcessor.php:76-79 | two fingerprints coincide if and only if command name and decoded payload agree up to member order, the special spelling of the empty root included |
| JsonEnvelope.WireFingerprints | src/Commands/CommandProcessor.php:76-79 | deliveries have one fingerprint if and only if they name the same command and their payload texts are the same JSON after every number but the integers of 64 bits is rounded to a double |
| JsonEnvelope.NarrowFingerprints | src/Commands/CommandProcessor.php:76-79 | for payload texts with numbers as `json_encode` writes them, if and only if command and JSON payload agree |
| JsonEnvelope.WidePayloadsCollide | src/Commands/CommandProcessor.php:76-79 | two payloads with different integers beyond 64 bits and one fingerprint |
| JsonEnvelope.StoredReplyKeepsWire | src/DTO/Json.php:17-20 | a reply decoded from any stored text with the same meaning is that text again |
| JsonEnvelope.AcceptedIff | src/DTO/Json.php:22-50 | the relay accepts a stored text if and only if it is an object with a name that is no integer key, and its payload, if it is a command or an emission, is an object or the empty list of earlier rows |
| JsonEnvelope.RelayKeepsEnvelope | src/DTO/Json.php:23-62 | decoding a stored envelope and encoding it for the stream keeps the text if and only if its numbers are as `json_encode` writes them and no list stands in an object's place |
| JsonEnvelope.DataListIsNotRelayed | src/DTO/Json.php:65-72 | a row that is relayed as a different text |
| JsonEnvelope.StoredEnvelopeRelays | src/DTO/Json.php:52-62 | rows the encoder wrote from array results are relayed unchanged |
| CommandModel.FreshIsReplayable | src/Commands/CommandProcessor.php:92-94 | every result the processor stores is replayed unchanged from its receipt |
| CommandModel.SuccessIsNotTransient | src/Operations/FailedMessages.php:81-85 | a successful result is never one that operator replay releases |
| CommandModel.KeyIgnoresCase | src/Commands/CommandProcessor.php:83 | commands share a receipt if and only if they have one session, and ids that differ in letter case only |
| ResultTexts.OkWire | src/Commands/CommandProcessor.php:119-122 | the text of a success: ok is true, and data is the handler's data, always an object |
| ResultTexts.ErrorWire | src/Commands/CommandProcessor.php:157-165 | the text of an error: ok is false, and code, message and any details are those of the exception |
| ResultTexts.TransientIsCode | src/Operations/FailedMessages.php:81-83 | an error text is released by replay if and only if its code is command.failed |
| CommandDecisions.FreshDecision | src/Commands/CommandProcessor.php:96-138 | on a receipt without a result the handler's effect is committed if and only if created_at lies inside the window on both sides, the lifetime is not over, no failure is forced, expires_at is absent or a time still to come, and the handler returned; the text stored and sent, to this socket and request, says which of these it was, with code and message |
| CommandDecisions.FailsIff | src/Commands/CommandProcessor.php:96-133 | such a transaction cannot commit if and only if the handler is reached and throws an exception that is no rejection |
| CommandDecisions.StoredIsReplayed | src/Commands/CommandProcessor.php:92-94 | a stored result is sent again as it is, without an effect, and its receipt is marked as used now |
| CommandDecisions.ConflictIsRefused | src/Commands/CommandProcessor.php:90-91 | another user or other input is answered with command.id_conflict, and changes neither receipts nor effects |
| CommandDecisions.DenialIsRefused | src/Commands/CommandProcessor.php:65-75 | a session that does not resolve is answered with auth.unauthenticated, and nothing else changes |
| CommandDecisions.ResultsAreTexts | src/Commands/CommandProcessor.php:119-133 | in every run every result stored or sent is a success text, or an error text with code and message |
| CommandDecisions.ReleasesExactly | src/Operations/FailedMessages.php:75-92 | in every run replay may release a receipt if and only if the code of its stored result is command.failed and nothing it touches is locked; the rows it takes back are exactly the unpublished results of this command with that code; a success, an expired command and any other rejection stay |
| BridgeInvariants.ReceiptStep | src/Commands/CommandProcessor.php:82-134 | every step keeps receipts sound: known lives, update times in the past, replayable results |
| BridgeInvariants.EffectStep | src/Commands/CommandProcessor.php:99-104 | every step keeps each committed effect evidenced by its receipt, or too old for any delivery made before it; dedup window and pruning cutoff agree |
| BridgeInvariants.LetterStep | src/Commands/CommandProcessor.php:135-155 | every step keeps the replies of one receipt life equal, and equal to the stored result |
| BridgeInvariants.MailStep | src/Outbox/OutboxRelay.php:28-54 | every step keeps each outbox row accounted for: waiting, published, or released, with its appends |
| BridgeInvariants.EvidenceStep | src/Operations/Maintenance.php:112-118 | every step keeps a waiting result's receipt in place |
| BridgeInvariants.QueueStep | src/Transport/RedisStreams.php:110-147 | every step keeps each command outstanding or resolved, if trims happen only once the consumers' group exists |
| BridgeTheorems.AtMostOnceEffect | src/Commands/CommandProcessor.php:82-139 | in every run a receipt commits at most one effect, and a second effect of a command needs a delivery stamped later than the first was decided |
| BridgeTheorems.OldDeliveryAddsNothing | src/Commands/CommandProcessor.php:99-104 | in every run a delivery stamped no later than a committed effect of its command adds none, even after its receipt was pruned |
| BridgeTheorems.ToleranceAllowsSecond | src/Commands/CommandProcessor.php:102 | a run in which a delivery stamped within the tolerance has two effects |
| BridgeTheorems.SecondEffectIff | src/Commands/CommandProcessor.php:102 | a second effect with the same stamp is possible if and only if the stamp lies in the future of the first decision |
| BridgeTheorems.OutboxConserved | src/Outbox/OutboxRelay.php:28-54 | in every run each row is waiting, published after an append, or released, and its appends are one if published plus rollbacks and lost replies; so without those it is appended once |
| BridgeTheorems.LostReplyAppendsTwice | src/Outbox/OutboxRelay.php:39-52 | a run in which a row is appended twice without a rollback, because a reply was lost |
| BridgeTheorems.ReplyAgreement | src/Commands/CommandProcessor.php:83-138 | in every run the replies sent from one life of a receipt carry the same JSON, and it is the receipt's while that life lasts |
| BridgeTheorems.ReplyIsStoredIff | src/Commands/CommandProcessor.php:65-94 | in every run, a delivery whose user and input match a receipt with a result leaves that result in place and is answered with it if and only if its session resolves, or the result is the text of the authentication error |
| BridgeTheorems.DeniedReplyDiffers | src/Commands/CommandProcessor.php:65-75 | a run in which a matching delivery without a session is answered with something else |
| BridgeTheorems.ProcessAnswers | src/Commands/CommandProcessor.php:90-155 | a processed delivery is answered for its own socket, request and user; conflicting input changes neither receipts nor effects; a stored result is replayed without an effect |
| BridgeTheorems.ConflictIsDifferentInput | src/Commands/CommandProcessor.php:76-91 | input conflicts if and only if user, command name or JSON payload differ from the receipt's |
| BridgeTheorems.WaitingResultHasReceipt | src/Operations/Maintenance.php:112-118 | in every run an unpublished result sent from a receipt still has that receipt, holding the same result |
| BridgeTheorems.NoCommandLost | src/Commands/CommandConsumer.php:28-67 | in every run each appended command is unread, pending, answered for its socket and request, or buried, if the consumers' group is created before others |
| BridgeTheorems.ForeignGroupLosesCommand | src/Operations/StreamRetention.php:27-34 | for any other group, a run in which that group alone lets a trim remove an unanswered command |
| BridgeTheorems.FirstGroupDecides | src/Operations/StreamRetention.php:25-34 | a run in which a group is the first on the commands stream can lose a command if and only if that group is not the consumers' |
| Backends.Backend.Environment | src/Commands/CommandProcessor.php:82-89 | whatever other processes do, a locked receipt and a locked unpublished row stay as they are, and the logs only grow |
| CommandProcessing.CommandProcessor.Process | src/Commands/CommandProcessor.php:36-140 | by session outcome: nothing, at most one authentication error, or rolled-back transactions followed by at most one committed one with the given input; it returns if and only if that commit was carried out and answered, every commit stored a reply to this delivery, and with a database that answers and without a single transaction the receipt is locked by another process |
| CommandProcessing.CommandProcessor.Execute | src/Commands/CommandProcessor.php:82-139 | up to five attempts, each rolled back but the last; the last may commit without its answer arriving, or the connection may break before it |
| CommandProcessing.CommandProcessor.Transact | src/Commands/CommandProcessor.php:82-139 | the transaction leaves exactly the specified state, and throws if and only if the handler failed unexpectedly on a fresh receipt |
| CommandProcessing.CommandProcessor.Savepoint | src/Commands/CommandProcessor.php:96-133 | the savepoint throws if and only if the decision fails, and otherwise stores its result, with the effect exactly on success; CommandDecisions.FreshDecision says which decision that is |
| CommandConsuming.RedisStreams.CreateGroup | src/Transport/RedisStreams.php:98-107 | after a call that succeeds the group exists, and an existing one is left alone |
| CommandConsuming.RedisStreams.Claim | src/Transport/RedisStreams.php:122-129 | one claim of at most ten pending entries; exactly those still in the stream are returned, oldest first, and each is pending afterwards with one delivery more than before |
| CommandConsuming.RedisStreams.Read | src/Transport/RedisStreams.php:110-119 | the next entries nobody in the group was given, at most ten, none left out, are returned and become pending with one delivery each |
| CommandConsuming.RedisStreams.Attempts | src/Transport/RedisStreams.php:136-141 | the delivery count, or one for an entry no longer pending |
| CommandConsuming.RedisStreams.Ack | src/Transport/RedisStreams.php:131-134 | acknowledges only what is resolved; a failed call may have reached Redis |
| CommandConsuming.RedisStreams.DeadLetter | src/Transport/RedisStreams.php:143-147 | the copy is appended before the acknowledgement, and a failure leaves a prefix of the two |
| CommandConsuming.CommandConsumer.RunOnce | src/Commands/CommandConsumer.php:21-71 | the batch is all that one claim, or else one read, handed out at one moment of the run; its entries have their turns in order up to the stop or the turn that throws, and each turn ends as the processor's outcomes, the delivery count and Redis' answers demand; the consumer takes exactly the steps of the fetch and of these turns, and counts the entries answered and acknowledged |
| CommandConsuming.CommandConsumer.Fetch | src/Commands/CommandConsumer.php:23-31 | the group on first use, then the claimed entries if there are any, else the ones read; a failed call leaves no batch |
| CommandConsuming.CommandConsumer.Entry | src/Commands/CommandConsumer.php:33-68 | an entry is acknowledged after its reply, or buried if malformed, or at the attempt limit after its final failure was stored, or stays pending below the limit; which of these is determined, and a call that throws despite a valid session and a database that answers rolled a transaction back or found the receipt locked |
| CommandConsuming.FateIs | src/Commands/CommandConsumer.php:38-63 | a turn acknowledges if and only if the command was answered and Redis took the acknowledgement; it buries if and only if the entry is malformed, or was delivered the allowed number of times and its final failure is stored; it throws if and only if neither happened and the entry was not merely left for another delivery |
| CommandConsuming.CommandConsumer.Answer | src/Commands/CommandConsumer.php:45-52 | acknowledged only after the reply, certainly if Redis answers, and never buried |
| CommandConsuming.CommandConsumer.Retry | src/Commands/CommandConsumer.php:53-63 | burial only at the attempt limit and after the forced failure was stored; otherwise the entry stays pending |
| CommandConsuming.CommandConsumer.GiveUp | src/Commands/CommandConsumer.php:55-59 | at the limit: the failure is stored before the copy and the acknowledgement, and if it cannot be stored the entry stays pending |
| OutboxRelaying.OutboxRelay.RunOnce | src/Outbox/OutboxRelay.php:16-65 | the rows due at the start have their turns in order, up to the stop or the transaction that throws; each ends as stream and database decide, and a row is left alone only if it was no longer due; the relay takes exactly the steps of these turns, and counts the rows it marked as published, but for a last commit whose answer was lost |
| OutboxRelaying.CommitsAreCounted | src/Outbox/OutboxRelay.php:55 | the turns of a pass mark exactly as many rows as they count, and one more if the last commit was carried out without an answer |
| OutboxRelaying.OutboxRelay.Due | src/Outbox/OutboxRelay.php:19-21 | the oldest due rows, as many as the clamped limit allows, and none left out before the last |
| OutboxRelaying.OutboxRelay.Publish | src/Outbox/OutboxRelay.php:28-54 | at most five transactions, all on this row, each but the first after a deadlock: all but the last are rolled back, and the row is counted exactly if the last one appended it, marked it as published and was answered; otherwise it was delayed, was not due, or threw |
| OutboxRelaying.OutboxRelay.Attempt | src/Outbox/OutboxRelay.php:28-54 | a row that is not due is skipped; a due one is locked, appended and marked published, or delayed after a failed append, or rolled back, exactly as stream and database decide, and thrown without a retry if the answer to the commit is lost |
| OutboxRelaying.OutboxRelay.Delay | src/Outbox/OutboxRelay.php:46-52 | a failed append is recorded with one more attempt and the backoff for the attempts so far |
| OutboxRelaying.BackoffGrows | src/Outbox/OutboxRelay.php:48 | the backoff never shrinks, is at most an hour, and is constant after ten attempts |
| OutboxRelaying.BackoffDoubles | src/Outbox/OutboxRelay.php:48 | the first delay is the configured one, each of the next ten is twice the last, and none is above an hour |
| OutboxRelaying.FailureDelays | src/Outbox/OutboxRelay.php:47-49 | a failed attempt is counted, and its row is due again exactly when its delay is over |
| OutboxRelaying.PublicationEnds | src/Outbox/OutboxRelay.php:37-38 | a published row is stamped with the present, has one attempt more, and is never due again |
| OutboxRelaying.RetryWaits | src/Outbox/OutboxRelay.php:30-49 | in every run no relay locks a row again before the delay of its last failed attempt is over |
| FailedReplaying.FailedMessages.Replay | src/Operations/FailedMessages.php:31-73 | nothing without the lock; otherwise the replay gets as far as the states it saw and each answer demand: at most one release, of a result with the code command.failed only, then one append of the buried body, then the marker; it reports a replay, or an earlier one, if and only if the lock was taken, the marker was set, or found, and every request was answered; the lock stays only if it could not be given back |
| FailedReplaying.FailedMessages.UnderLock | src/Operations/FailedMessages.php:43-69 | a marker ends it; an unacceptable, unauthorized or blocked command changes nothing; an append whose answer is lost, or whose marker cannot be set, leaves none |
| FailedReplaying.FailedMessages.ReleaseTransientFailure | src/Operations/FailedMessages.php:75-92 | releases if and only if the stored result has the code command.failed, neither the receipt nor a waiting row with that code is locked, and the commit is carried out; otherwise receipts and rows stay as they are |
| FailedReplaying.FailedMessages.Commit | src/Operations/FailedMessages.php:86-90 | the result is cleared and exactly the waiting transient results are deleted, in one transaction |
| FailedReplaying.MayReplayIffReached | src/Operations/FailedMessages.php:51-61 | a command may be replayed if and only if created_at lies inside the window on both sides and expires_at is absent or a time still to come, which is when the processor would call its handler, but for a lifetime of its own |
| FailedReplaying.AppendsIff | src/Operations/FailedMessages.php:43-67 | a replay appends if and only if it finds no marker, the entry holds a usable command inside the window and unexpired, its session is authorized, nothing it has to release is locked, and database and stream act; it appends the buried body, once, after any release |
| ReplayingRuns.Series | src/Operations/FailedMessages.php:31-73 | over any sequence of replays that fail wherever they may, with locks left behind and changes by others, a replay appends if and only if it finds neither lock nor marker, passes the checks and reaches the stream; once a marker is written, none appends |
| SeekPaging.SeekIsIndexOrder | src/Operations/Maintenance.php:146-162 | the seek predicate of nested column comparisons is lexicographic order |
| SeekPaging.IndexOrderIsTotal | src/Operations/Maintenance.php:146-162 | that order is irreflexive, asymmetric and total |
| SeekPaging.IndexOrderIsTransitive | src/Operations/Maintenance.php:146-162 | that order is transitive |
| SeekPaging.SelectedInOrder | src/Operations/Maintenance.php:98 | a page lists matching rows in ascending order, all beyond the cursor |
| SeekPaging.PagesAreGapFree | src/Operations/Maintenance.php:98-104 | seeking past the k-th row selects exactly the rows after it: pages neither overlap nor leave a gap |
| SeekPaging.RemovalKeepsTheRest | src/Operations/Maintenance.php:140-143 | deleting rows behind the cursor does not change what comes after it |
| CleanupModel.StreamBatch | src/Operations/Maintenance.php:53-61 | each batch of a stream continues exactly where the last one ended, by cursor or at the head |
| CleanupModel.OutboxBatch | src/Operations/Maintenance.php:132-143 | each page of the published outbox continues exactly where the last one ended |
| CleanupModel.EntryAge | src/Operations/Maintenance.php:56-58 | an entry is expired if and only if it is older than its own retention: that for dead letters on dead-letter streams, that for streams on the main ones, at least a second |
| CleanupModel.RowAge | src/Operations/Maintenance.php:47-52 | a receipt is due if and only if it was last used longer ago than the retention of receipts, a published row if and only if it was published longer ago than its own |
| CleanupModel.DryRunPredictsStream | src/Operations/Maintenance.php:46-72 | without a time-out a dry run counts exactly the entries a real run removes from a stream, for every limit and whatever the batch sizes |
| CleanupModel.DryRunPredictsOutbox | src/Operations/Maintenance.php:132-144 | the same for the published outbox, and the rows removed are the counted ones |
| CleanupModel.OrderedScansOnce | src/Operations/Maintenance.php:99-105 | a position in an ascending log of scans occurs once |
| CleanupModel.ScanInOrder | src/Operations/Maintenance.php:104-105 | scanning the next row of a page keeps the log ascending and at or before the cursor |
| CleanupModel.NothingLeft | src/Operations/Maintenance.php:126 | with nothing due beyond the cursor, every receipt that stood was scanned |
| Cleaning.Maintenance.Visit | src/Operations/Maintenance.php:106-121 | under its lock a receipt is removable if and only if it is still due and no result of it waits, and only such a one is deleted; a dry run deletes nothing |
| Cleaning.Maintenance.Scan | src/Operations/Maintenance.php:104-124 | one row is looked at once; the counts change by exactly what it was found to be, and, in a real run, the scans by exactly its position; no receipt becomes due meanwhile |
| Cleaning.Maintenance.ReceiptPage | src/Operations/Maintenance.php:94-130 | a page scans the next due receipts in order, as many as limit and time allow, and ends with the cursor behind them; what was due when the traversal began is behind the cursor only if it was scanned or is gone, and nothing more is reported only when all of it is |
| Cleaning.Maintenance.StreamTurn | src/Operations/Maintenance.php:53-68 | the tally stays exact against the stream the run began with, and grows by exactly a batch if more is left under the limit |
| Cleaning.Maintenance.OutboxTurn | src/Operations/Maintenance.php:132-144 | the tally stays exact against the outbox the run began with, and grows by exactly a batch if more is left under the limit |
| Cleaning.Maintenance.Turn | src/Operations/Maintenance.php:42-71 | a turn uses up some of the remaining work, or the time ran out; it takes at most a batch, and exactly one if more is left in time under the limit; and a resource leaves the round exactly when it has nothing more or reached the limit |
| Cleaning.Maintenance.Rounds | src/Operations/Maintenance.php:41-73 | the round-robin loop terminates, with every resource finished unless the time ran out, and the resources still in the round within one batch of the furthest |
| Cleaning.Maintenance.ReceiptCursor | src/Operations/CleanupStatus.php:44-54 | without a stored cursor a new traversal begins with exactly what is due; otherwise the old one goes on, from the start if the read failed |
| Cleaning.Maintenance.RememberReceiptCursor | src/Operations/CleanupStatus.php:56-68 | the cursor is stored exactly if the write succeeds, and the older one stays otherwise |
| Cleaning.Maintenance.Prune | src/Operations/Maintenance.php:14-92 | rejected options change nothing; tallies measure exactly what was scanned, removed or counted, also of a run that throws, and the receipts it removed are exactly those found removable under their lock; no resource gets further ahead of one with work left than a batch; without a time-out every resource is finished; the traversal, its stored cursor and whether it was read and written throughout are exactly what the run's outcome demands; when no receipts are left, all that stood and still stands was scanned, once each if no read or write of the cursor failed and no run threw |
| CleanupTraversal.Traverse | src/Operations/Maintenance.php:34-37 | over any sequence of runs, some of which throw, and changes by others, from an empty cursor to a run that reports no more receipts, every receipt due at the start is gone or was scanned, exactly once unless the cursor was not read or not written or a run threw |
| CleanupSteps.TrimIsStep | src/Operations/StreamRetention.php:35-44 | a real batch on the commands stream removes nothing, or is one trim step of the pipeline |
| CleanupSteps.PruneCommands | src/Operations/StreamRetention.php:12-62 | so is the whole script, below the safe floor it computes |
| CleanupSteps.VisitIsStep | src/Operations/Maintenance.php:106-119 | a receipt is found removable under its lock if and only if the pipeline allows it to be pruned |
| CleanupSteps.RemovalIsStep | src/Operations/Maintenance.php:47-48 | of the receipts a run looks at, it finds removable exactly those the pipeline allows to be pruned at that moment, if its retention of receipts is the deduplication window; so window and pruning agree for the run, too |
| CleanupSteps.VisitRemoves | src/Operations/Maintenance.php:120 | deleting its row is that step |
| CleanupSteps.PublishedIsStep | src/Operations/Maintenance.php:132-141 | a row on a page of the published outbox may be pruned: it is published and no relay holds it |
| ChannelLeases.RequestKeeps | gateway/src/runtime.ts:249-250 | a new request keeps a socket's rooms, leases and revisions consistent |
| ChannelLeases.InstallKeeps | gateway/src/runtime.ts:256-258 | a grant under the current revision, below the room limit, keeps room membership equal to unsuspended leases |
| ChannelLeases.LeaveKeeps | gateway/src/runtime.ts:279-288 | a leave keeps that, and raises the floor to the latest request |
| ChannelLeases.SettleKeeps | gateway/src/runtime.ts:270-272 | the end of a join leaves no revision without a lease or a join under way |
| ChannelLeases.NoLateGrant | gateway/src/runtime.ts:253-255 | the answer to a join at or below the floor changes nothing |
| ChannelLeases.NewerGrantStays | gateway/src/runtime.ts:261-269 | no answer to an older join touches the grant of a newer one |
| ChannelLeases.GrantIffCurrent | gateway/src/runtime.ts:252-258 | a grant takes effect if and only if its join is the latest request not left or denied since, and there is room |
| ChannelLeases.JoinAnswerIs | gateway/src/runtime.ts:252-272 | for every answer: a grant is taken by the current attempt with room, with its deadline and renewal time; any denial of the current attempt, a forbidden one included, leaves the channel without lease, revision and room; and otherwise lease and room are as before |
| ChannelLeases.RenewalAnswerIs | gateway/src/runtime.ts:519-550 | for every answer to a renewal: a grant gives the current lease its new deadline and renewal time, a denial takes lease, revision and room, and an answer to an older lease changes nothing |
| ChannelLeases.RenewalOnlyRefreshes | gateway/src/runtime.ts:519-550 | a renewal never adds a channel, and keeps the origin of the lease it replaces |
| ChannelLeases.SplitInstallUnseats | gateway/src/runtime.ts:257-258 | with a leave between joining the room and recording the lease, the two would disagree |
| Subscribing.Subscriptions.StartJoin | gateway/src/runtime.ts:245-250 | refused for an unknown socket or a full one, else exactly one new revision, the latest |
| Subscribing.Subscriptions.ResumeJoin | gateway/src/runtime.ts:252-272 | the sockets change exactly as the answer demands; a grant adds one admission of this join to the history; any denial of the current attempt, a forbidden one included, takes lease, revision and room and ends everything requested so far; and no other floor moves |
| Subscribing.Subscriptions.FinishJoin | gateway/src/runtime.ts:270-272 | the join is over, and nothing of it is left under way |
| Subscribing.Subscriptions.Leave | gateway/src/runtime.ts:279-288 | lease, revision and room go together, everything requested on this channel so far is over, and no other floor moves |
| Subscribing.Subscriptions.StartRenewal | gateway/src/runtime.ts:485-488 | at most 64 renewals at a time, and one per lease |
| Subscribing.Subscriptions.ResumeRenewal | gateway/src/runtime.ts:519-550 | the sockets, floors and history change exactly as the answer demands, and only if the lease is still the current one; only such a renewal may go on to disconnect the socket |
| Subscribing.Subscriptions.FinishRenewal | gateway/src/runtime.ts:485-550 | one renewal less; the socket is disconnected if the renewal of its current lease found the session dead, and else the lease may be renewed again |
| Subscribing.Subscriptions.CheckLeases | gateway/src/runtime.ts:464-493 | afterwards no socket is in the room of a lease whose time is up, every renewal that is due is under way unless 64 are, and nothing else changes |
| Subscribing.Subscriptions.Disconnect | gateway/src/runtime.ts:190-196 | the socket's rooms, leases and revisions are forgotten together |
| SubscribingRuns.Interleave | gateway/src/runtime.ts:242-288 | any sequence of calls only adds to the history and only raises floors, and no admission in it follows the end of its own request |
| SubscribingRuns.LeaveForGood | gateway/src/runtime.ts:279-288 | after a leave, whatever happens then, no join requested before it is admitted, by its answer or by a renewal, and a lease on the channel was asked for since |
| PendingTable.TotalWith | gateway/src/runtime.ts:359-376 | replacing one socket's table changes the total by the difference of the two sizes |
| PendingTable.LeavesExactlyOnce | gateway/src/runtime.ts:374-378 | an admitted attempt is in its socket's table or has left in exactly one way |
| PendingTable.CallbackAccounted | gateway/src/runtime.ts:329-340 | on a connected socket every command with a callback is under way, waiting, or had its callback called exactly once |
| PendingTable.QuietHasNoRequests | gateway/src/runtime.ts:198-213 | a request under way on a known socket is counted in its operations |
| Acknowledging.PendingAcks.Request | gateway/src/runtime.ts:198-203 | admitted exactly while not draining, connected and below four operations; otherwise answered at once |
| Acknowledging.PendingAcks.Admit | gateway/src/runtime.ts:341-361 | an attempt is admitted if and only if checks pass, its id is free on the connected socket and, if it wants an answer, both limits leave room; tables, count, admissions, exits and callbacks change by exactly this attempt, or, if the session is over, by the abandoned attempts of this socket |
| Acknowledging.PendingAcks.Published | gateway/src/runtime.ts:364-372 | a failed append takes exactly this attempt out, unless it left already; a successful one changes neither tables nor callbacks |
| Acknowledging.PendingAcks.Timeout | gateway/src/runtime.ts:351-357 | the timer takes the attempt out once, or does nothing |
| Acknowledging.PendingAcks.LocalResult | gateway/src/runtime.ts:379-387 | a result completes exactly the attempt with its own request id, on its own socket, and calls its callback |
| Acknowledging.PendingAcks.Complete | gateway/src/runtime.ts:374-378 | the attempt leaves the table, the count falls by one, and its callback is called if its socket is connected |
| Acknowledging.PendingAcks.Disconnect | gateway/src/runtime.ts:190-196 | every waiting attempt of the socket leaves by disconnect and no other exit is touched; the count falls by their number |
| Acknowledging.PendingAcks.FinishDrain | gateway/src/runtime.ts:682-687 | afterwards no socket, no pending attempt and no operation is left; recorded exits stay, and every other admitted attempt has left by disconnect |
| AcknowledgingRuns.Interleave | gateway/src/runtime.ts:329-387 | over any sequence of calls an attempt that has left keeps its one exit, an admitted one waits or has left, and no callback is called twice |
| DeliveryCache.HoldsIffInWindow | gateway/src/runtime.ts:641-643 | after the purge the cache holds an id if and only if it is among the last dispatches and younger than the TTL |
| DeliveryCache.NoRepeatGrows | gateway/src/runtime.ts:641-660 | a dispatch outside its window never makes an early repeat |
| DeliveryCache.Purge | gateway/src/runtime.ts:642 | the prefix purge drops exactly expired entries and leaves none in front |
| DeliveryCache.PutNew | gateway/src/runtime.ts:659 | setting a key that is not in the map appends it; one that is keeps its place |
| DeliveryCache.Record | gateway/src/runtime.ts:657-661 | the dispatch of an event the cache does not hold is remembered last, and the cache stays a bounded suffix of the history, one entry for each id |
| Fanout.ChannelsStayApart | gateway/src/runtime.ts:634 | two channels never share a physical room |
| Fanout.VisibleIff | gateway/src/runtime.ts:647 | a channel is visible to a socket if and only if it is a target and the socket is in its room |
| Fanout.VisibleByName | gateway/src/runtime.ts:631-647 | a target is told to a socket if and only if its name does not begin with two underscores and the socket is in its prefixed room |
| Fanout.VisibleInOrder | gateway/src/runtime.ts:647 | the channels of a packet are in the order of the targets |
| Fanout.UniqueInOrder | gateway/src/runtime.ts:630 | targets named more than once keep the place of their first occurrence |
| Fanout.SameKeySameChannels | gateway/src/runtime.ts:648 | the string key of a group determines its list of channels |
| Emitting.AssignKeeps | gateway/src/runtime.ts:647-651 | grouping keeps every socket in the one group of what it may see |
| Emitting.EventDelivery.Recipients | gateway/src/runtime.ts:632-636 | the recipients are the members of the union of the target rooms |
| Emitting.EventDelivery.Consider | gateway/src/runtime.ts:638-651 | a recipient gets the event if and only if it is connected, not excluded, and outside its window |
| Emitting.EligibleIff | gateway/src/runtime.ts:632-640 | a socket is eligible if and only if it is connected, neither it nor its user is excluded, and it is in the room of some target, raw or prefixed |
| Emitting.EventDelivery.EmitAll | gateway/src/runtime.ts:653-662 | one packet and one recorded dispatch for each grouped socket, and nothing for anybody else |
| Emitting.EventDelivery.LocalEmit | gateway/src/runtime.ts:628-663 | one emission dispatches exactly once to each eligible socket outside its suppression window and to nobody else, with exactly its own channels among the targets, each once; an event whose expiry, in seconds, is not after the clock, in milliseconds, reaches nobody, and any other is not held back |
| EventEntries.StepSafe | gateway/src/runtime.ts:572-603 | every step keeps evidence complete, copies justified and counters no larger than the tries; and, a trim once the gateways' group exists, every entry outstanding or settled |
| EventEntries.NoEventLost | gateway/src/runtime.ts:583-594 | from any stream without groups, in every run in which the gateways' group is created before others, an entry no longer owed was dispatched here, on every other gateway and for every publication, or has a dead-letter copy |
| EventEntries.ForeignGroupLosesEvent | src/Operations/StreamRetention.php:27-34 | for any other group, a run in which that group alone lets a trim remove an entry nobody dispatched |
| EventEntries.FirstGroupDecides | src/Operations/StreamRetention.php:25-34 | a run in which a group is the first on the events stream can lose an event if and only if that group is not the gateways' |
| EventEntries.DeadOnlyAfterLimit | gateway/src/runtime.ts:591-594 | in every run a usable envelope is dead-lettered only after it was tried the allowed number of times |
| EntryProcessing.EventConsumer.ProcessEntry | gateway/src/runtime.ts:572-603 | one counted attempt; the entry is delivered if and only if it is usable, the connections are ready, and the dispatch here, every other gateway's reply, every tracked publication, the acknowledgement and the counter's removal succeeded; else it is left pending if and only if it is usable and attempts are left, and otherwise copy and acknowledgement are one step, taken if and only if the script reaches Redis; a call that fails while counting may have raised the counter, and does nothing else |
| EntryProcessing.EventConsumer.Dispatch | gateway/src/runtime.ts:604-627 | succeeds if and only if the connections are ready and local dispatch, every reply and every tracked publication succeeded |
| EntryProcessing.EventConsumer.DeadLetter | gateway/src/runtime.ts:592-594 | the copy and the acknowledgement are one step, taken exactly if the script reaches Redis |
| PresenceRotation.BatchDistinct | gateway/src/runtime.ts:306-309 | a sweep visits min(100, n) different rooms, the ones from the cursor on |
| PresenceRotation.EveryRoomSwept | gateway/src/runtime.ts:308-309 | from any cursor, even one left over from a larger set, one sweep for every hundred rooms, rounded up, visits every room |
| PresenceRotation.PresenceSweep.Begin | gateway/src/runtime.ts:298-309 | a sweep begins only if none is under way and the connections are ready, takes the batch at the cursor and advances it, and resets it when no room is active |
| PresenceRotation.PresenceSweep.Work | gateway/src/runtime.ts:313-320 | the workers visit each room of the batch exactly once, in any interleaving, unless stopped |

## Left out

- Cleaning.Maintenance.Prune: an exception ends a run where the time limit could have, with the last request carried out or not; the lag, group and protected-from fields of the report are not modelled, and streams and published rows are taken as fixed during a run, because the totals speak of one state.
- Cleaning.Maintenance.RememberReceiptCursor: expiry of the stored cursor after a week is a failed read, which starts a traversal over.
- CommandConsuming.RedisStreams.Claim: which pending entries count as idle, and the cursor Redis returns, are arbitrary, because both depend on time inside Redis.
- OutboxRelaying.OutboxRelay.Publish: which query errors count as deadlocks, and start the transaction again, is arbitrary.
- OutboxRelaying.OutboxRelay.Due: rows are listed in the order they were stored, which stands for the order by creation time.
- FailedReplaying.FailedMessages.Replay: only the commands stream is replayed; replaying an event appends its envelope after shape checks. A lock runs out between replays only, not during one, and the marker does not expire.
- Subscribing.Subscriptions.ResumeJoin: presence members and the snapshots sent after a join or leave are not modelled; that such an update may be under way is.
- Subscribing.Subscriptions.ResumeRenewal: the time of the next attempt after a transient failure is arbitrary; backoff and jitter do not affect any property.
- Emitting.EventDelivery.LocalEmit: the encoding of the packet, volatile emission and payloads are not modelled.
- PresenceRotation.PresenceSweep.Work: what a presence update sends, and that it queries other gateways, is not modelled.
- A socket's local state is a value inside the gateway's map. A request that captured it keeps working on it after a disconnect; the program never reads that again, so such requests end without an effect here.
- Json.WireRoundTrip: which double a number with a fraction or an exponent is read as, and how `json_encode` spells a double, are PHP's; a number in a text is an integer, or the double it is read as next to its spelling.
- Numbers beyond the range of a double; JSON depth limits, member names that begin with a NUL character and repeated member names; PHP rejects or collapses these before the modelled code sees them.
- String and pattern validation of envelopes, channel names and ids: an envelope is usable or malformed.
- HTTP endpoints, tickets, signatures, session storage and session refresh; they appear as outcomes.
- Installation, process supervision, metrics, health snapshots, logging and correlation ids.
- Slow-client measurement: that a socket is too slow is an arbitrary event.
- Operator resets of consumer groups, loss of Redis data, and expiry of the attempt counters.
