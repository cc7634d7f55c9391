# A verified model of the notification delivery service

The service accepts notification events over an idempotent API, stores each as one row of
`notification_event`, and delivers it to one provider at least once. Workers claim the row under a lease
token, call the provider, and settle the row; compensators republish lost wake-ups and recover expired
leases; a circuit breaker and a limiter stand in front of every provider action; a message queue carries only
the event id. This project models that machinery in Dafny and proves what it guarantees over all runs.

## How it is organised

- `Domain`, `EventStore`: the row, every `UPDATE ... WHERE` as a guarded step (`Execute` and its siblings), and
  `EventRepo`, the table updated in place by methods proved against those steps.
- `Mq`: the delay arithmetic and the typed requeue directive, with 64- and 32-bit wrap-around written out.
- `Processor`: one HandleDelivery call, as code (`Worker`) and as an automaton (`Advance`); every execution of the
  code, whatever the database, breaker, limiter and provider answer, is a complete path of the automaton.
- `Compensator`: PublishAndMark and recoverOne against the table.
- `Wakeups`: the wake-ups a broker holds for one event and the moves on them that the protocol assumes.
- `Protocol`, `Invariant`: any number of those automata around one row, interleaved statement by statement with
  crashes, statements whose answer is lost, stale snapshots, broker redelivery and a clock that moves either way; and
  the inductive invariant, in which no clock occurs. `Timing` adds what holds while a PENDING row is never read before
  it is due, and what holds while the clock does not move back. `Safety`, `Progress` and `Finish` hold the theorems.
- `Breaker`, `Limiter`: the breaker as an object and among any interleaving of its users; the slots.
- `MemoryBroker`, `RabbitMq`: the two queues and their conservation laws; the RabbitMQ consumer as code and as an
  automaton, each shown to be the other. The RabbitMQ queue is shown to make only the moves of `Wakeups`, with the
  justifications `Protocol` gives them (`QueueRefinesWakeups`, `StepMovesWakeups`).
- `Submit`, `Canonical`: concurrent acceptance, the service code as runs of it, and the JSON comparison it relies on.
- `Wrappers`, `Counting`: the option type and counting lemmas.

Assumptions. Each SQL statement is atomic and linearizable, the UNIQUE constraint is enforced, and lease tokens are
fresh, and so are event ids wherever many submissions run at once. One store clock decides `now()`; since `now()` is the
start of a transaction, it may read less in a later statement than in an earlier one. Budget, accounting, fencing, row
shape and honesty hold whatever it reads; the theorems that need a better clock say which. The clocks of workers and
compensators are arbitrary. MaxAttempts and LeaseDuration are the same in every process. RabbitMQ keeps the messages it
stored, a confirmed publish was routed to the queue, and it takes back unacknowledged messages when a connection is
lost. The provider, the registry, the token bucket, the broker connection and `time.Now()` are parameters with arbitrary
values. A worker that stalls is one that takes no step; a statement may commit although its caller sees an error.

## What the code does not guarantee

Each of these is a lemma with the run that shows it, next to the exact condition under which the guarantee holds.

- `attempt_count` is not always "the number of real provider calls", as the comment at `internal/store/event_repo.go:356-360`
  and line 437 of the repository's README say: a claim that dies before its call keeps its increment. It is exact if and
  only if no counted claim met a crash, an error reply, an unconfigured action, a failed acquire or a lost lease before
  its call and no holder is still on its way to one (`CountIsExactIff`; `CountAccountsForCalls` is the full account); an
  event can even end FAILED without any call (`FailedWithoutAnyCall`).
- A waiting row whose count has reached 32767 can never be claimed again and so never finishes; such a row is reachable
  under every configuration (`StuckRowIsReachable`). Every row of every run can still be settled unless it is at that
  count and waits, or has a holder there that cannot settle it any more, or its event is lost (`RowFinishesIff`).
- An event is lost for good when its last wake-up is acknowledged unclaimed after enqueued_at was set. From a PENDING
  state this can happen if and only if the clock may read before the row's due time (`EventCanBeLostIff`); readings that
  move back without doing so lose nothing (`NoEventIsLost`), and one that does can lose the event from every PENDING
  state (`EarlyClockLosesEvent`).
- `request_may_have_been_sent = false` is reliable if and only if the recovery acts within one lease of its scan, the
  clock not having moved back (`DiagnosisIsSoundIff`; the two halves are `DiagnosisIsSound` and
  `LateDiagnosisCanBeWrong`).
- Two provider calls can be in flight together when one of them outlasts its lease (`OverrunningCallsOverlap`), and under
  a clock that does not move back only then, the requests of crashed workers included (`OverlapMeansOverrun`).
- Without a positive `max_requeue_delay`, which validation excludes, the delay wraps exactly when the product leaves
  64 bits (`UncappedDelay`).
- A repeated submission is a duplicate if and only if storage kept the canonical form of its payload; JSONB rewrites
  number literals such as 1e2, and then the same request is refused as a conflict (`RepeatIsDuplicateIff`).

One comment differs from the code: `internal/store/event_repo.go:85-88` reserves ErrDuplicateSourceRequest for the unique
source request, but every SQLSTATE 23505 gives it, a clash of the row id included. `Submit` then finds no row, unless
the request has one, and answers that storage is unavailable (`InsertOrResolve`). Fresh ids exclude it.

## Model

| member | source | states |
|---|---|---|
| EventStore.EventRepo.Insert | internal/store/event_repo.go:78-110 | refuses exactly when the id or the source request is taken, both as ErrDuplicateSourceRequest; otherwise adds one PENDING row due now, touching no other |
| EventStore.EventRepo.FindBySourceRequest | internal/store/event_repo.go:113-126 | returns a stored row of that request, or none exactly when there is none |
| EventStore.EventRepo.SelectPendingToPublish | internal/store/event_repo.go:147-156 | finds exactly the due PENDING rows without a receipt |
| EventStore.EventRepo.SelectExpiredLeases | internal/store/event_repo.go:392-397 | finds exactly the PROCESSING rows whose deadline has passed |
| EventStore.EventRepo.ClaimEvent | internal/store/event_repo.go:190-226 | the claim wins only a due PENDING or a token-free REQUEUE_REQUESTED row, raises the count, and fails without change on overflow or otherwise |
| EventStore.EventRepo.Renew | internal/store/event_repo.go:231-244 | extends the lease of the token's holder only, whether or not it has expired |
| EventStore.EventRepo.MarkRequestStarted | internal/store/event_repo.go:248-266 | writes the REQUESTING marker under the holder's token only |
| EventStore.EventRepo.Transition | internal/store/event_repo.go:270-386 | the five attempt-result updates change exactly their columns of the holder's row: status, deadline, rolled-back count, and the provider's response, kept or cleared; ErrNotClaimed otherwise |
| EventStore.EventRepo.ReserveExpiredRequeue | internal/store/event_repo.go:323-340 | moves only the deadline of an expired waiting row, which stays claimable |
| EventStore.EventRepo.RecoverExpiredToRequeue | internal/store/event_repo.go:416-434 | releases the row only if the token still holds it and its lease has expired |
| EventStore.EventRepo.MarkEnqueued | internal/store/event_repo.go:177-182 | records the receipt only while PENDING |
| Compensator.PublishAndMark | internal/publish/publish.go:37-49 | publishes once; enqueued_at is written only after a durable receipt and while PENDING, also when the answer of that update is lost; no error means recorded or not durable; every other outcome leaves the table alone |
| Compensator.RecoverOne | internal/worker/compensator.go:99-154 | on any snapshot, stale or not, publishes once if its guarded update won the row and said so, and not at all otherwise; a claim it ends is recorded as possibly sent exactly when the snapshot saw the REQUESTING marker |
| Mq.DelayIsCappedProduct | internal/mq/mq.go:118-139 | for every attempt count the delay is min(default * max(1, n), max) over the integers; the product fits in int64 and the second cap never fires |
| Mq.UncappedDelay | internal/mq/mq.go:127-138 | without a cap the delay is the product if and only if the product fits in int64 |
| Mq.DelayIsMonotone | internal/mq/mq.go:120-152 | under a validated configuration delays grow with the attempt and stay between default and maximum |
| Mq.RequeueRoundTrip | internal/mq/mq.go:81-116 | a requeue directive survives any error wrapping, negative delays become zero |
| Mq.OutermostDirectiveDecides | internal/mq/mq.go:111-116 | of every error chain the outermost directive decides; an error is given the fallback exactly when its chain holds none |
| Processor.Worker.HandleDelivery | internal/worker/processor.go:57-76 | every execution is a complete path of the automaton; it calls exactly when nothing stands in the way, settles by what the provider answered, tells the breaker whether the endpoint answered, acknowledges neither a database error nor a released row, and asks for the delay of the persisted attempt |
| Processor.Worker.PathIsKnown | internal/worker/processor.go:57-192 | what a call has done and knows at every point of every path, complete or cut short, told from the answers alone |
| Processor.Worker.Process | internal/worker/processor.go:78-171 | from a claim, every combination of answers ends that way; a circuit deferral waits at least the breaker's retry-after |
| Processor.Worker.SendAndSettle | internal/worker/processor.go:112-142 | the call is made only after a successful mark and renewal; otherwise permit and slot are given back without a call |
| Processor.Worker.SettleResponse | internal/worker/processor.go:145-171 | from a call under way, every response ends the path with the delay of the persisted attempt; settled succeeded only if the provider reported success (`PathIsKnown`) |
| Processor.Worker.FinishExhaustedBeforeProvider | internal/worker/processor.go:173-192 | a claim over budget ends without a requeue and without a call |
| Processor.Worker.DeferForOpenCircuit | internal/worker/processor.go:194-233 | the row is released with the count rolled back; the delay is the larger of the policy for the attempts really made and the time the breaker asked for |
| Processor.Worker.RetryOrFail | internal/worker/processor.go:235-282 | fails for good exactly at the limit, otherwise releases the row for min(default * attempt_count, max), whatever the broker counted, with backoff |
| Processor.Worker.DelayFromAttempt | internal/mq/mq.go:71-76 | the delay of a delivery with a policy comes from the attempt asked about, capped; without one the delivery carries it |
| Processor.ResourcesBalance | internal/worker/processor.go:78-171 | on every path, complete or cut short, permit and slot are each taken and given back in balance, and the one call happens while both are held |
| Processor.EveryReturnSettlesUp | internal/worker/processor.go:97-160 | every returning path resolves each permit and releases each slot exactly once |
| Invariant.InitHolds | internal/store/event_repo.go:89-110 | a freshly inserted row satisfies the protocol invariant |
| Invariant.StatementLands | internal/store/event_repo.go:228-386 | a worker statement that changes the row is the fresh claim, or comes from the live holder whose number is the current count |
| Invariant.StepHolds | internal/worker/processor.go:57-282 | every step of every worker, publisher, compensator, broker and clock keeps the invariant |
| Invariant.RunHolds | internal/worker/compensator.go:59-154 | the invariant holds in every state of every run, whatever the clock does |
| Timing.OnTimeRun | internal/store/event_repo.go:147-182 | while a PENDING row is never read before it is due, it keeps an unreplaced durable wake-up from the first publish on, and nobody acknowledges one |
| Timing.TimelyRun | internal/store/event_repo.go:231-244 | while the clock does not move back, whoever renewed to call or has a call in flight still holds the lease or has outlasted it, and snapshots without the marker precede the renewal |
| Protocol.StepMovesWakeups | internal/worker/processor.go:57-76 | every step makes at most one of the broker moves, and a wake-up is acknowledged for good only by a call that returns nil |
| Safety.CallBudget | internal/worker/processor.go:78-86 | at most MaxAttempts provider calls per event in every run, whatever the clock does, at most one per claim, and never more than attempt_count |
| Safety.CountAccountsForCalls | internal/store/event_repo.go:356-373 | attempt_count is exactly the calls made, plus the counted claims a fault used up before their call, plus one while a sound holder has not called yet |
| Safety.CountIsExactIff | internal/store/event_repo.go:356-360 | attempt_count equals the calls if and only if no counted claim met a fault (crash, error reply, unconfigured action, failed acquire, lost lease) before its call and no holder is still before its call |
| Safety.SpentTokenIsPowerless | internal/store/event_repo.go:228-244 | once a lease is given up it never returns, and nothing carrying its token changes any column, in any continuation and under any clock |
| Safety.TerminalRowsAreFrozen | internal/store/event_repo.go:177-434 | SUCCEEDED and FAILED rows are never written again; the identifying columns never change |
| Safety.ReceiptIsOnlyMarked | internal/store/event_repo.go:177-182 | enqueued_at is written only by a publisher's mark on a PENDING row; the due time never changes |
| Safety.RowShapeAlways | internal/worker/compensator.go:118-120 | the row shape in every reachable state; the early return of recoverOne is unreachable; rollbacks are exact |
| Safety.RequeueDeadline | internal/worker/processor.go:257-274 | every released row waits until its scheduled redelivery plus one lease and records the count it was left with |
| Safety.OutcomeIsHonest | internal/worker/processor.go:163-191 | SUCCEEDED means the last counted claim called, the provider answered and reported success, and its body is in the row; a stored body is always the last counted claim's; FAILED means a limit exists and the count reached it |
| Safety.NoEventIsLost | internal/publish/publish.go:32-49 | while a PENDING row is never read before it is due, a non-terminal row is in the publish scan, has a durable wake-up, or has a deadline the expired scan will find |
| Safety.EarlyClockLosesEvent | internal/store/event_repo.go:147-156 | from every PENDING state of every run, one reading before the due time can lose the event for good |
| Safety.EventCanBeLostIff | internal/store/event_repo.go:190-215 | from a PENDING state reached on time the event can be lost if and only if the clock may read before the due time |
| Safety.LostIsFinal | internal/store/event_repo.go:147-156 | a lost event stays lost in every continuation, whatever the clock does then |
| Safety.DiagnosisIsSound | internal/worker/compensator.go:125-147 | a recovery that records "not sent" within one lease of its snapshot ends a claim that never called and never will, whatever the clock does afterwards |
| Safety.VerdictIsFromSnapshot | internal/worker/compensator.go:126-143 | what a recovery of a claim records: possibly sent exactly when the snapshot saw the marker, and the count the row keeps |
| Safety.ReservationMovesDeadlineOn | internal/store/event_repo.go:323-340 | recovering an overdue waiting row moves its deadline forward and nothing else, and starts one publish |
| Safety.OverlapMeansOverrun | internal/worker/processor.go:120-142 | of two calls in flight together, their workers alive or crashed, one has outlasted its renewed lease |
| Safety.TimedExclusion | internal/worker/processor.go:120-142 | if every call in flight is within its lease there is at most one |
| Progress.RoundOutcome | internal/worker/processor.go:57-282 | the exact effect of any fault-free delivery on status, count and calls, by budget, breaker and result |
| Progress.RoundsAccountExactly | internal/store/event_repo.go:301-317 | over any number of refused, failed and successful deliveries in any order the count moves exactly with the calls |
| Progress.RefusedRoundsCostNothing | internal/worker/processor.go:98-101 | any number of claims refused by an open circuit in a row leaves count and calls as they were and the row waiting |
| Progress.FailingRoundsExhaust | internal/worker/processor.go:235-255 | failing deliveries from count c end in FAILED after exactly max(0, M - c) calls with count max(c, M), and not before |
| Progress.CanExhaustIff | internal/worker/processor.go:57-282 | from a claimable row with a wake-up in the broker such failing deliveries exist if and only if attempt_count has room for them |
| Progress.ValidatedLimitCanBeReached | internal/mq/mq.go:141-152 | validation accepts a limit exactly when the failures it allows fit in attempt_count |
| Progress.SuccessAfterFailures | internal/worker/processor.go:163-169 | a success at call k within the budget ends in SUCCEEDED with count c + k |
| Finish.EveryRowCanFinish | internal/worker/compensator.go:99-154 | below the top of the counter, and never read before due while PENDING, every row can be settled by the code's own means under a forward clock |
| Finish.FullRowNeverFinishes | internal/store/migrations_sql/0001_init.sql:21 | a waiting row with count 32767 waits forever |
| Finish.RowFinishesIff | internal/store/event_repo.go:190-226 | in every reachable state under every clock: a final status can be reached unless the event is lost, or the row is at 32767 and waits, or its holder there is gone, leaving, or has a failure to record that is not the last one allowed |
| Finish.WaitingRowFinishesIff | internal/store/event_repo.go:190-226 | a waiting row can reach a final status if and only if its count is below 32767 |
| Finish.StuckRowIsReachable | internal/mq/mq.go:148-150 | such a stuck row is reachable under every configuration |
| Finish.FailedWithoutAnyCall | internal/worker/processor.go:173-191 | for every limit below 32767 some run ends FAILED with the count at the limit and no provider call |
| Finish.OverrunningCallsOverlap | internal/worker/processor.go:142 | without the time bound two calls are in flight at once, both workers waiting |
| Finish.LateDiagnosisCanBeWrong | internal/worker/compensator.go:126-143 | for every delay longer than the lease some run records "not sent" for a claim whose call is under way |
| Finish.DiagnosisIsSoundIff | internal/worker/compensator.go:125-147 | under a forward clock a recorded "not sent" d after the snapshot is true in every run if and only if d is at most one lease |
| Breaker.ActionBreaker.Allow | internal/worker/breaker.go:116-147 | admits exactly while CLOSED, after the open window, or while HALF_OPEN without a probe; an admission then is the probe; a rejection names the time left and changes nothing |
| Breaker.ActionBreaker.Observe | internal/worker/breaker.go:149-182 | the new state for every permit and observation: stale permits change nothing, a probe closes or reopens, Ignore never moves the state |
| Breaker.ActionBreaker.Abort | internal/worker/breaker.go:184-190 | gives up only a current half-open probe |
| Breaker.ActionBreaker.OpenLocked | internal/worker/breaker.go:192-197 | starts a generation and its open window |
| Breaker.RunHolds | internal/worker/breaker.go:116-197 | the breaker invariant over every interleaving of its users |
| Breaker.SingleProbe | internal/worker/breaker.go:122-137 | halfOpenInFlight holds exactly when one current half-open permit is unresolved, and it is then the only current one; none while OPEN |
| Breaker.AdmitsIff | internal/worker/breaker.go:116-147 | from the history: a call is admitted if and only if the circuit is CLOSED, or no probe is unresolved and every opening is at least one open duration old |
| Breaker.ProbeDecides | internal/worker/breaker.go:159-173 | an answered probe closes the circuit, an unavailable one opens it again from now, one that says nothing leaves room for another |
| Breaker.StalePermitsAreIgnored | internal/worker/breaker.go:152-154 | in every continuation, a permit of an earlier generation never becomes current again and changes nothing however it is resolved |
| Breaker.CounterRefinesTrace | internal/worker/breaker.go:159-181 | while CLOSED the counter is the trailing run of failures in the trace and below the threshold; otherwise it is the threshold, so it never wraps |
| Breaker.OpensExactlyAtThreshold | internal/worker/breaker.go:174-181 | a CLOSED circuit opens if and only if the observation completes a run of threshold failures |
| Breaker.OpenWindow | internal/worker/breaker.go:120-129 | no permit is issued within the open duration of any opening, and a rejection names exactly the time left |
| Breaker.DeferPastOpenWindow | internal/worker/processor.go:194-233 | a delivery refused by an open circuit is rescheduled no earlier than the end of the window |
| Limiter.ActionLimiter.Acquire | internal/worker/limiter.go:51-72 | a failed rate wait or acquire holds no slot, and the slots never exceed the maximum |
| Limiter.ConcurrencyIsBounded | internal/worker/limiter.go:48-72 | calls under way never exceed max_concurrency, and all slots are free once every delivery returned |
| MemoryBroker.Broker.Publish | internal/mq/memory.go:63-87 | accepts whenever the broker is open, has room and the context is live; refuses with the cause and no trace otherwise; acceptance never exceeds the capacity |
| MemoryBroker.Broker.Start | internal/mq/memory.go:90-115 | registers consumers once and never after Close |
| MemoryBroker.Broker.Take | internal/mq/memory.go:117-133 | a consumer takes the oldest message |
| MemoryBroker.Broker.HandlerReturns | internal/mq/memory.go:128-141 | the message is acknowledged, put on a timer, or dropped by a closed broker, and stays accounted for |
| MemoryBroker.Broker.ScheduleRequeue | internal/mq/memory.go:145-157 | no timer is registered after Close |
| MemoryBroker.Broker.TimerFires | internal/mq/memory.go:159-183 | requeues with attempts raised exactly when the broker is open with room and the context does not win the select; otherwise drops the message into the record; conservation kept |
| MemoryBroker.Broker.TimerCancelled | internal/mq/memory.go:163-169 | a timer ended by the context or by Close gives its message up |
| MemoryBroker.RaiseAttempts | internal/mq/memory.go:171-175 | attempts stay one plus the requeues, saturating at the largest uint32 |
| MemoryBroker.Broker.WorkersWaitReturns | internal/mq/memory.go:200-209 | after the first wait no consumer runs |
| MemoryBroker.Broker.RequeuesWaitReturns | internal/mq/memory.go:200-209 | after the second wait no timer runs |
| MemoryBroker.Broker.ClosedIsQuiet | internal/mq/memory.go:198-210 | after Close nothing runs and every accepted message is acknowledged, dropped or still buffered |
| RabbitMq.AttemptsHeaderRoundTrip | internal/mq/rabbitmq.go:374-405 | the header reads back as written, and reads 0 exactly for an unsigned 8- or 16-bit zero |
| RabbitMq.AnyIntegerHeaderCounts | internal/mq/rabbitmq.go:374-405 | a count from 1 to the largest uint32 is read as it is whatever integer type carries it, anything else as 1, or 0 for a small unsigned zero |
| RabbitMq.Consumer.HandleDelivery | internal/mq/rabbitmq.go:274-299 | the broker calls outright: Ack for a malformed body or nil; nothing once the context ended; the replacement with the saturated count and then Ack when confirmed, a requeueing Nack otherwise; and every execution is a complete path of the automaton |
| RabbitMq.Consumer.RequeueAfter | internal/mq/rabbitmq.go:301-331 | the calls after the timer: the original is acknowledged exactly after a confirmed replacement, handed back after any other, left alone when the context ended |
| RabbitMq.Consumer.PublishRetry | internal/mq/rabbitmq.go:333-361 | one Retry action of the automaton: what is sent is the replacement with the saturated count, and success means confirmed |
| RabbitMq.CallsAreJustified | internal/mq/rabbitmq.go:274-331 | from the broker calls alone, on every path: Ack only after a malformed body, a nil result or a confirmed replacement; Nack only after an unconfirmed one; never both |
| RabbitMq.ActionsFormAPath | internal/mq/rabbitmq.go:274-331 | in every run of the queue with any other deliveries, losses and reconnects, what one delivery does is a path of the automaton the code follows |
| RabbitMq.PathIsARun | internal/mq/rabbitmq.go:274-331 | every path, so every execution of the code, is a run of the queue from every state in which the message was just delivered |
| RabbitMq.DeliverOnce | internal/mq/rabbitmq.go:301-331 | the code run after any history leaves a copy of its wake-up in the broker unless a handler returned nil for it |
| RabbitMq.RunHolds | internal/mq/rabbitmq.go:274-361 | the newest copy of every unfinished chain is still in the broker after every step |
| RabbitMq.WakeUpIsNeverLost | internal/mq/rabbitmq.go:301-331 | from its publish until a handler returned nil a wake-up always has a copy in the broker |
| RabbitMq.QueueRefinesWakeups | internal/mq/rabbitmq.go:274-361 | over every run the queue makes only the moves the protocol knows, each justified, and acknowledges for good only after a nil result in the chain |
| RabbitMq.AttemptsCountReplacements | internal/mq/rabbitmq.go:310-340 | the attempts are one plus the republishes, saturating |
| Canonical.MarshalIsPrefixFree | internal/application/notification/canonical.go:20-28 | canonical output determines the value, whatever follows it |
| Canonical.KeyLeqMeans | internal/application/notification/canonical.go:27 | keys are ordered by their first differing byte, a prefix first |
| Canonical.CanonicalFormsEqualIff | internal/application/notification/canonical.go:8-28 | canonical forms are equal exactly when the documents denote the same nested maps and sequences |
| Canonical.LastDuplicateWins | internal/application/notification/canonical.go:21-26 | an object denotes, for each key, its last member with that key |
| Canonical.RenderedIsCanonical | internal/application/notification/canonical.go:27 | the canonical document is written as exactly the canonical form |
| Canonical.PrintIsPrefixFree | internal/application/notification/canonical.go:20-28 | the tokens of a document can be read in one way only, whatever follows them |
| Canonical.CanonicalIsIdempotent | internal/application/notification/canonical.go:20-28 | whatever document the canonical form of a value is read as, it denotes that value and has the same canonical form |
| Canonical.CanonicalEqualMeaning | internal/application/notification/canonical.go:8-18 | equality means the same value, or the same bytes when either does not decode |
| Canonical.CanonicalEqualIsEquivalence | internal/application/notification/canonical.go:8-18 | with the raw fallback it is an equivalence relation |
| Submit.Service.ResolveExisting | internal/application/notification/service.go:102-122 | is one lookup step of the system, whose reply is a duplicate, a conflict, an outage or nothing found |
| Submit.Service.InsertOrResolve | internal/application/notification/service.go:60-99 | from whatever state table and system have reached, table and reply are those of a run of this call's steps, lost answers included; an id already taken changes nothing |
| Submit.Service.Submit | internal/application/notification/service.go:38-100 | table and reply are those of a run of the system by this call's own steps; with no failed operation a new source key is stored with the command's content, a known one answered with its row's id or a conflict; it publishes exactly when it reports a new row |
| Submit.AcceptedSubmissionsAgree | internal/application/notification/service.go:54-99 | accepted submissions of one request share one row, at most one is new, and their contents are canonically equal |
| Submit.ConflictIsReal | internal/application/notification/service.go:111-113 | a conflict is reported only against a stored row with different content; one row per request |
| Submit.EachReplyIsAtomic | internal/application/notification/service.go:54-78 | every reply and every change of the table is that of one atomic insert-if-absent; the second lookup never misses |
| Submit.RepeatIsDuplicateIff | internal/store/migrations_sql/0001_init.sql:10 | a repeat is a duplicate if and only if storage kept the payload's canonical form |

## Left out

- REST, gRPC and MCP handlers, authentication, logging, configuration loading, credential resolution and process start-up: mapping and I/O without deep state.
- Provider adapters, the HTTP client and response sanitising: a provider call is any of success, availability failure, other failure, adapter error or nil.
- NSQ and the AMQP connection and topology code: library-owned; a durable copy of the protocol stands for an NSQ message.
- The token bucket of the limiter: a wait that succeeds or fails.
- The Breakers and Limiters maps and their nil cases: an action without a breaker or limiter is always admitted.
- ORDER BY and LIMIT of the two scans: a scan may return any matching row, so starvation by a full batch is not modelled.
- created_at, updated_at and the timestamps inside the phase markers: nothing decides on them.
- The breaker's generation counter is unbounded here; in the code it is a uint64 that would need 2^64 openings to repeat.
- The spelling of JSON tokens in bytes, and trailing bytes after the first value, which request validation excludes.
- Fairness and wall-clock progress: what is proved is that a final status stays reachable, not that it is reached by a given time.
- Exactly-once delivery at the provider, which the service does not promise.
- Other rows: the protocol follows one row; that statements touch no other row is part of the EventRepo contracts.
