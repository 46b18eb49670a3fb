# A Dafny model of the notification engine

A Dafny 4.11 model of the notification engine and proofs of what it is built to guarantee.
`dafny verify dfyconfig.toml` checks all of it.

## The delivery pipeline

`Pipeline` is a step system: submits, any number of outbox relays, workers and janitors interleave at the
level of single calls on the database, the broker and the provider. A publish arrives and is confirmed,
arrives without its confirm, or is lost; a status update, a mark or a commit fails; a process crashes between
two calls; a connection is lost, and the broker redelivers a message whose handler goes on. A retry copy may
expire at any step. What the ports will answer is fixed when a pass or a handling starts, so that its remaining
calls are a list.

Row statuses are overwritten unconditionally by duplicates and by the janitor. Safety is therefore stated over
verdicts, which an observer records when the provider accepts a message or rejects it for good, or when the last
retry's copy reaches the dead queue.

- `PipelineInvariant`, `PipelineSteps`: the invariant, and that every step keeps it.
- `PipelineTokens`, `PipelineTheorems`: an exact account of responsibility. No loss follows from it, and so does
  the number of duplicates.
- `PipelineProgress`: the termination measure and settlement, from any reachable state and any faults in progress.
- `PipelineConservation`: runs without faults from the start.
- `PipelineDeadLetters`: who is in a dead queue.
- `Calls`: the calls of a process in a row; run alone, a process has the effect of its steps, and that effect on log,
  queues and outbox is written out row by row.
- `Workers`: the publisher's retry, the worker, the relay and the janitor as imperative methods over the stored
  state, proved to make these calls.
- `Wire`, `Topology`, `Lifecycle`, `Domain`, `Uuids`, `Digits`: messages, queues and the notification aggregate.

## Submitting and rate limiting

- `Breaker`: the circuit breaker as a function of its history, and as a class.
- `TokenBucket`: the Lua script over the reals, with keys that expire. `RateLimiting`: many keys behind the breaker.
- `Dedupe`, `Submit`, `SubmitOutcomes`, `SubmitTheorems`: the claim, the use case with its ports' answers as
  parameters, exactly when it stores what, and what holds of many submits.

## Listing

- `Text`, `Base64`, `Rfc3339`, `Cursor`: the cursor down to its characters.
- `Ordering`, `Pagination`, `Listing`: the keyset order, the condition builder, pages and walks.

## Templates

- `Templates`: repository, Redis layer and compiled layer as functions of their state.
- `TemplateRuns`: whole runs with any number of processes, bypasses, lost reads and writes, evictions and failing
  database calls. An update is two steps, its read and its write.
- `TemplateRefinement`: the cache against the bare repository. `TemplateCaching`: the classes as they are written.

## Where the code and its description differ

- The breaker's comments say that one probe call is let through in the half-open state
  (infrastructure/redis/circuit_breaker.go:18). The code lets every caller through until one reports back:
  `Breaker.HalfOpenLetsEverybodyThrough`.
- The dedupe claim is described as a shortcut backed by the unique index. When it is refused and the lookup of the
  earlier row fails, the submit ends with an error and stores nothing, although a granted claim would have stored
  the row: `Submit.ClaimIndependence` gives the exact condition, `Submit.FailedLookupLosesTheRow` an input.
- The comment of the limiter promises rate limit/window. The rate is printed with six decimals, so that a slow limit
  has rate zero and is refilled by the loss of its key alone: `TokenBucket.ExpiryTheorem` gives the exact condition
  under which expiry cannot be seen.
- A terminal failure is said to be forwarded to the terminal queue too (internal/service/process_notification.go:118).
  Whether that worked is ignored: `PipelineDeadLetters.RejectedNowhere` is an input whose rejected notification is in
  no dead queue. A notification is there if and only if a forward of it has arrived:
  `PipelineDeadLetters.DeadExactlyIfForwarded`. Exhausted ones always are: `PipelineDeadLetters.ExhaustedIsInDead`.
- A user's number that cannot be dialled is said to be rejected by the channel's validation
  (internal/domain/user.go:14-16). That trusts a recipient with a user: the row is stored without a destination.
  `SubmitOutcomes.StoredWithoutDestination` gives the exact condition, `SubmitOutcomes.UndialableIsStored` an input.
- The template cache is described as write-through. A write that the database applies and reports as failed skips
  Redis: an updated template is then served with its old fields and a deleted one is served at all, until the entry
  expires. `TemplateRefinement.InvisibleUnlessLeftBehind` gives the exact condition for every operation.
- The attempt header is cut to 32 bits and the configuration accepts any limit that is not negative. A limit whose 32
  bits read as a negative number gives rejected messages a negative header: `PipelineTheorems.HeadersTheorem` gives
  the exact condition, `PipelineTheorems.LimitWraps` an input.
- The repository's list accepts any limit and indexes before its first row for -1, and for 0 if a row matches. The
  service in front of it only asks for 1 to 100: `Listing.List`, `Listing.Execute`.
- A cursor made from a time whose zone offset has seconds decodes to another instant: `Cursor.RoundTrip`. Walks are
  therefore over tables whose times are printable (`Listing.PrintableTable`), which the database's current times are.

## Model

| member | source | states |
|---|---|---|
| `PipelineTheorems.NoLoss` | internal/service/process_notification.go:53-122 | In every reachable state, under any interleaving and any faults, every log row has a pending outbox row, a waiting work or retry copy, a delivery in a handler's hands not yet moved on, or a final verdict |
| `PipelineTokens.StepTokens` | internal/service/process_notification.go:53-122 | Each step adds one token to the notification it creates and exactly one per duplicating fault it is (lost confirm, lost relay transaction after a confirmed publish, redelivery after moving on, janitor publish), and takes none away |
| `PipelineTheorems.TokensOfRun` | internal/service/process_notification.go:53-122 | Over a whole run a notification in the log has one token plus one per duplicating fault that concerned it; an unknown identifier has none |
| `PipelineTheorems.VerdictsBounded` | internal/service/process_notification.go:53-122 | The provider's acceptances and the other verdicts of a notification never exceed one plus the duplicating faults of the run |
| `PipelineConservation.Conservation` | internal/service/process_notification.go:63-120 | Without failed publishes, failed transactions, crashes and janitor, at every single call the pending rows, waiting copies, unsettled deliveries and verdicts of a log row sum to exactly one |
| `PipelineProgress.StepProgresses` | infrastructure/rabbitmq/publisher.go:103-112 | From every state that keeps the invariant, whatever faults it has met and whatever is in progress, every step of a run without new faults and submits strictly lowers the measure built from 2B+2 per row that is or will be pending, 2R+2 per retry copy and 2R+1 per work copy |
| `PipelineProgress.RunsAreFinite` | internal/service/outbox_relay.go:33-73 | From every such state a run without new faults and submits takes no more steps than the measure of the state it starts from, even if it starts inside a relay pass or a handling that has met a fault or is about to |
| `PipelineProgress.QuietMeansSettled` | internal/service/outbox_relay.go:33-73 | Where no faultless step is possible any more, all queues but the dead ones are empty, every outbox row is published, and every log row has a final verdict |
| `PipelineProgress.CanSettle` | internal/service/outbox_relay.go:33-73 | From every such state a run without new faults leads to a quiet state |
| `PipelineProgress.EverythingSettles` | internal/service/outbox_relay.go:33-73 | From every reachable state every run without new faults and submits is no longer than the measure and extends to one after which no relay pass and no delivery is left, the queues but the dead ones are empty, and every log row has a final verdict |
| `PipelineTheorems.ContentPreserved` | cmd/worker/consumer/consumer.go:124-151 | Every message in any queue of a channel, and every delivery in hand, decodes to the content of its log row on that channel, through relay, retries, expiry and janitor; absent and empty variables are one |
| `PipelineTheorems.RetryBudget` | infrastructure/rabbitmq/publisher.go:103-112 | Every copy in any queue, the dead ones included, and every delivery in hand has waited a prefix of the schedule from its entry to the budget, at most max(0, B - a) waits and outside the dead queues one per attempt; a dead copy waited all of it, unless its header is the cut attempt limit of a rejected message; dead headers are at least B if MaxRetries fits 32 bits |
| `PipelineTheorems.ExhaustedWaitedAll` | infrastructure/rabbitmq/publisher.go:103-107 | A handler that declares a message dead after a transient failure holds one that waited out the whole schedule from its entry to the budget |
| `PipelineTheorems.HeadersTheorem` | infrastructure/rabbitmq/publisher.go:103-133 | Every attempt header in every reachable state is non-negative if and only if the attempt limit cut to 32 bits is, given a relay that claims anything |
| `PipelineTheorems.LimitWraps` | internal/service/process_notification.go:119 | An attempt limit of 2^31, which the configuration accepts, is an input for which a header becomes negative |
| `PipelineTheorems.HandlersAreOrderly` | cmd/worker/consumer/consumer.go:99-122 | No handling in any reachable state comes to reject a message or to index outside the schedule; it acknowledges only what it has moved on and gives back only what it has not |
| `PipelineDeadLetters.StepDead` | infrastructure/rabbitmq/publisher.go:103-107 | For every action of every actor, a notification is in a dead queue after the step if and only if it was before or the step is a forward of it there that arrives; nothing takes it out |
| `PipelineDeadLetters.DeadExactlyIfForwarded` | infrastructure/rabbitmq/publisher.go:103-107 | After any run from the start a notification is in a dead queue if and only if one of its forwards there has arrived in the run |
| `PipelineDeadLetters.ExhaustedIsInDead` | internal/service/process_notification.go:80-97 | In every reachable state each notification declared dead after its last retry has a copy in a dead queue |
| `PipelineDeadLetters.RejectedNowhere` | internal/service/process_notification.go:106-120 | A run, given a relay that claims anything, after which a notification is rejected for good, no delivery is left and no dead queue holds it |
| `PipelineTheorems.PassesDisjoint` | infrastructure/postgres/notifications.go:74-108 | Open relay transactions hold disjoint rows, however many relays run |
| `PipelineTheorems.PublishedWasShipped` | internal/service/outbox_relay.go:47-67 | A row committed as published had exactly its payload, the encoding of its log row, published and confirmed to its channel; a row of a transaction that is lost is pending as before |
| `PipelineSteps.NextKeeps` | internal/service/process_notification.go:53-122 | Every step of submits, relays, workers, janitor, broker and crashes keeps the invariant: content and routing of every message, retry lineage, exclusive row locks, order of calls in every handling |
| `PipelineInvariant.HandleIsSafe` | internal/service/process_notification.go:53-122 | Whatever the ports answer, the calls of a handling of a known message acknowledge only after a verdict or a confirmed forward, to the queue its attempt calls for |
| `PipelineInvariant.ForwardKeeps` | infrastructure/rabbitmq/publisher.go:103-112 | A retry publish keeps every message decodable, on its channel, and lengthens the lineage by exactly one wait of the schedule |
| `PipelineTheorems.StepKeys` | infrastructure/postgres/notifications.go:38-70 | Only a submit adds a log row and nothing removes one |
| `PipelineTheorems.AnyoneMayMove` | cmd/worker/consumer/consumer.go:99-122 | In every state every waiting message may be delivered or expire, every open pass, handling and rescue may make its next call or crash, every connection may be lost, and any new event may be submitted |
| `Wire.DecodeEncode` | infrastructure/rabbitmq/publisher.go:46-62 | The consumer's decoding undoes the publisher's encoding, up to an empty variable map |
| `Wire.EncodeInjective` | infrastructure/rabbitmq/publisher.go:46-62 | Two messages are equal exactly if their contents, up to an empty variable map, and their attempts are |
| `Wire.DecodesExactly` | cmd/worker/consumer/consumer.go:124-151 | A message decodes exactly if its identifier parses, with a template identifier that does not parse dropped and everything else taken over |
| `Uuids.ParsePrint` | cmd/worker/consumer/consumer.go:129-132 | An identifier printed in the canonical form parses to itself |
| `Uuids.ParsesExactly` | cmd/worker/consumer/consumer.go:129-132 | A text is read as an identifier if and only if it is its canonical form in small letters or capitals |
| `Topology.NamesDistinct` | infrastructure/rabbitmq/topology.go:290-293 | Declared queues have pairwise distinct names |
| `Topology.RoutesMeanTheirQueues` | infrastructure/rabbitmq/topology.go:199-233 | Every publish reaches the queue it means, and dead-lettering swaps the work and the retry queue of one channel |
| `Topology.WaitsAreTheSchedule` | infrastructure/rabbitmq/topology.go:45-51 | A message is sent to dead exactly if its attempt is at least min(MaxRetries, 5); one that entered below waits out the rest of the schedule up to that budget, one that entered later waits not at all |
| `Topology.FullSchedule` | infrastructure/rabbitmq/topology.go:44-51 | With all retries allowed a message waits 30 s, 2 min, 10 min, 1 h and 6 h |
| `Topology.Int32Wraps` | infrastructure/rabbitmq/publisher.go:131-133 | The attempt header keeps what fits 32 bits and otherwise has the same low bits |
| `Workers.ProcessNotification.Execute` | internal/service/process_notification.go:53-122 | On a decoded notification, for any attempt header: exactly the calls of the step system in order, content unchanged, attempt recorded, final status that of the outcome; it fails only if the retry publish does, panics only on a negative header, and has settled nothing then. The log afterwards is the old one with the notification's row overwritten by the last status write that was stored, if any: sent, dead_letter, retrying or in_flight, the attempt, and the error of a failed attempt |
| `Workers.ProcessNotification.Succeed` | internal/service/process_notification.go:65-78 | After acceptance: the verdict is recorded and the row stored as sent, if the database takes it |
| `Workers.ProcessNotification.RetryLater` | internal/service/process_notification.go:80-104 | After a transient failure: one copy to the retry or the dead queue, and only if that is confirmed a new status; a negative attempt panics and changes nothing |
| `Workers.ProcessNotification.GiveUp` | internal/service/process_notification.go:106-120 | After a terminal failure: the row is stored as dead_letter and a copy offered to the dead queue, whose fate is not looked at |
| `Calls.AttemptEffects` | internal/service/process_notification.go:53-122 | The effect of a handling's calls on log, queues and verdicts, written out for every answer |
| `Calls.AttemptLog` | internal/service/process_notification.go:53-120 | The log after a delivery attempt, for every answer of provider, publisher and database: one row overwritten by the last status write that was stored, or nothing changed |
| `Workers.Publisher.Retry` | infrastructure/rabbitmq/publisher.go:103-112 | For any attempt and limit: one publish, to the retry queue with one more attempt and the wait of the schedule or to the dead queue as it stands, sentToDead exactly when the budget is spent, and a panic without a publish exactly on a negative attempt below the limit |
| `Workers.Handle` | cmd/worker/consumer/consumer.go:99-122 | A delivery with any attempt header has the effect of the calls of its handling followed by its ack, nack, reject or the return of its message after a panic; the log as for Execute, the message given back exactly if the handling comes to no conclusion, and one that does not decode in the retry queue of its channel |
| `Calls.WorkerAlone` | cmd/worker/consumer/consumer.go:99-122 | The steps of one handling, nobody else moving, run through and have the effect of its calls in a row, which is what the methods above are proved to have |
| `Workers.RelayItem` | internal/service/outbox_relay.go:47-63 | A row is published and then marked published or failed once more; it counts as done exactly if the publish was confirmed and the mark stored |
| `Calls.RelayedRows` | internal/service/outbox_relay.go:33-69 | The outbox after a pass alone, row by row: published, failed once more, or as it was |
| `Calls.RelayedCopies` | internal/service/outbox_relay.go:47-73 | The queues after a pass alone: for each row whose publish arrives one message more in the work queue of its channel, in order, with the payload as it is; log and verdicts untouched |
| `Workers.RelayOutbox` | internal/service/outbox_relay.go:33-69 | A pass claims pending rows that nobody holds, all of them if they are fewer than the limit, and makes exactly the calls of the step system. Alone, it publishes each row's payload with its attempts as the header, makes a row published exactly if its publish is confirmed, its mark stored and the commit applied, counts a failed publish if that is stored, and touches no other row. Examined = Published + Failed = the claimed rows, Published those confirmed and marked; it fails exactly if the claim does, without a change, or the commit of a claimed batch does |
| `Calls.RelayAlone` | internal/service/outbox_relay.go:33-69 | The steps of one pass, nobody else moving, are its calls in a row |
| `Workers.RescueStuck` | internal/service/rescue_stuck.go:41-67 | A janitor pass lists rows in flight not updated since the cutoff, all of them if they are fewer than the limit, and makes the calls of the step system. Alone, it publishes each anew with its own attempt, puts exactly those back to enqueued, with their attempt and the error 'rescued by janitor', whose publish is confirmed and whose write is stored, and touches no other row; Rescued is the number of these, Examined = Rescued + Errors; it fails exactly if the listing does, without a change |
| `Workers.RescueRow` | internal/service/rescue_stuck.go:48-66 | One stuck row: its publish and its reset, done exactly if both succeed |
| `Calls.RescuedLog` | internal/service/rescue_stuck.go:41-67 | A row of the log after a janitor pass alone |
| `Calls.RescuedCopies` | internal/service/rescue_stuck.go:48-52 | The queues after it: for each publish that arrives one message more, the encoding of the row with its own attempt |
| `Calls.RescueAlone` | internal/service/rescue_stuck.go:41-67 | The steps of one janitor pass, nobody else moving, are its calls in a row |
| `Workers.World.UpdateStatus` | infrastructure/postgres/notifications.go:154-163 | Overwrites status, attempt and error of one row unconditionally and nothing else, and is no error for a row that is not there |
| `Workers.World.Publish` | infrastructure/rabbitmq/publisher.go:121-154 | One message to the queue the broker resolves, with its body as it is and its attempt in 32 bits, none where no queue is bound; success is reported exactly on a confirm |
| `Workers.World.Reject` | infrastructure/rabbitmq/topology.go:199-233 | A rejected message of a work queue goes to the retry queue of its channel, body and attempt kept |
| `Workers.World.Claim` | infrastructure/postgres/notifications.go:74-108 | Selects distinct pending rows that no transaction holds, the oldest first, at most a batch and fewer only if there are no more, locks exactly those and reads their payloads and attempts; a failing query selects and locks nothing |
| `Workers.World.ListStuckInFlight` | infrastructure/postgres/notifications.go:194-216 | Rows in flight that were last updated before the cutoff, the longest ago first, at most a batch and fewer only if there are no more; a failing query lists nothing |
| `Workers.PicksEnable` | infrastructure/postgres/notifications.go:74-108 | Whatever a claim or a listing selects is what the step system lets a relay or a janitor take |
| `Workers.EnabledExactlyIfPicked` | infrastructure/postgres/notifications.go:74-108 | The step system lets a relay claim a row alone, or a janitor list one, if and only if the query may select it |
| `Workers.PickedAreOldest` | infrastructure/postgres/notifications.go:82-84 | A selection has as many rows as limit and table allow, in order of age, and leaves out none that is older than one of them |
| `Workers.World.MarkRow` | infrastructure/postgres/notifications.go:114-128 | Touches the mark of the one row and nothing else; a reported success is in effect, a reported failure has changed nothing, and an attempt count beyond 32 bits is refused |
| `Workers.World.End` | infrastructure/postgres/notifications.go:130-131 | No row stays locked by the pass and the rows of others are untouched; a row becomes published exactly on a Published mark of a transaction that applies, its attempts are those of a stored failure mark, and a transaction that does not apply leaves its rows as they were claimed |
| `Lifecycle.TraceFollowsTable` | internal/domain/status.go:22-50 | Every sequence of method calls on the aggregate follows the transition table |
| `Lifecycle.EnteredFrom` | internal/domain/status.go:22-50 | For every status, exactly from which others it may be entered |
| `Lifecycle.LeftReceived` | internal/domain/notification.go:64-80 | Once Received is left it is never entered again, and subject, body and recipient are frozen |
| `Lifecycle.TerminalAbsorbs` | internal/domain/status.go:38-41 | The terminal statuses are Sent and DeadLetter, and no sequence of calls changes an entity that has one |
| `Lifecycle.ErrorOnlyWhenFailing` | internal/domain/notification.go:82-114 | LastError is non-empty only in Retrying or DeadLetter, and Failed is reached by no method |
| `Lifecycle.SentWasInFlight` | internal/domain/notification.go:94-96 | Nothing becomes Sent that was not in flight before |
| `Lifecycle.Notification.SetRendered` | internal/domain/notification.go:64-72 | Replaces subject and body in Received only; otherwise an error and no change |
| `Lifecycle.Notification.HydrateRecipient` | internal/domain/notification.go:74-80 | Replaces the recipient in Received only; otherwise an error and no change |
| `Lifecycle.Notification.MarkEnqueued` | internal/domain/notification.go:82-84 | Succeeds exactly if the table allows the move, and then sets status, error and time (MarkInFlight the attempt too) and nothing else; otherwise changes nothing |
| `Lifecycle.Notification.MarkInFlight` | internal/domain/notification.go:86-92 | Succeeds exactly if the table allows the move, and then sets status, error and time (MarkInFlight the attempt too) and nothing else; otherwise changes nothing |
| `Lifecycle.Notification.MarkSent` | internal/domain/notification.go:94-96 | Succeeds exactly if the table allows the move, and then sets status, error and time (MarkInFlight the attempt too) and nothing else; otherwise changes nothing |
| `Lifecycle.Notification.MarkRetrying` | internal/domain/notification.go:98-100 | Succeeds exactly if the table allows the move, and then sets status, error and time (MarkInFlight the attempt too) and nothing else; otherwise changes nothing |
| `Lifecycle.Notification.MarkDeadLetter` | internal/domain/notification.go:102-104 | Succeeds exactly if the table allows the move, and then sets status, error and time (MarkInFlight the attempt too) and nothing else; otherwise changes nothing |
| `Breaker.StateOfHistory` | infrastructure/redis/circuit_breaker.go:62-100 | After any history the circuit is closed exactly if the trailing run of failures is shorter than the threshold, 0 <= failures < threshold, and an opening was one of the failures at or past the threshold |
| `Breaker.RefusedOnlyAfterOpening` | infrastructure/redis/circuit_breaker.go:62-79 | A call is refused only after a run of failures as long as the threshold, one of them at or past it within the open timeout |
| `Breaker.OpeningRemembered` | infrastructure/redis/circuit_breaker.go:62-100 | The circuit remembers the time of its latest opening over the history and is open exactly while nothing since has closed it or let a probe through |
| `Breaker.RefusedExactlyAfterOpening` | infrastructure/redis/circuit_breaker.go:62-79 | A call is refused exactly within the open timeout of the latest opening, unless a success or a call after the timeout came since |
| `Breaker.HalfOpenLetsEverybodyThrough` | infrastructure/redis/circuit_breaker.go:62-79 | Once the timeout is over any number of calls pass before the first reports back: no single probe |
| `Breaker.CallsCount` | infrastructure/redis/circuit_breaker.go:81-126 | What a call that is let through does to the circuit: an answer closes it, an infrastructure failure counts or opens it, another failure does neither |
| `Breaker.OutageOpens` | infrastructure/redis/circuit_breaker.go:91-100 | In an outage a closed circuit opens with the failure that makes up the threshold, at its time, and not before |
| `Breaker.CircuitBreaker.constructor` | infrastructure/redis/circuit_breaker.go:48-56 | A closed circuit with positive threshold and timeout, the defaults where a parameter is not positive |
| `Breaker.CircuitBreaker.Allow` | infrastructure/redis/circuit_breaker.go:62-79 | Refuses exactly an open circuit within its timeout, and turns an open one half-open after it |
| `Breaker.CircuitBreaker.RecordSuccess` | infrastructure/redis/circuit_breaker.go:81-86 | Closes the circuit and forgets the failures |
| `Breaker.CircuitBreaker.RecordFailure` | infrastructure/redis/circuit_breaker.go:91-100 | Opens a half-open circuit at once and a closed one at the threshold |
| `TokenBucket.ClosedForm` | infrastructure/redis/ratelimit.go:46-63 | On a live key and a clock that does not go back the tokens a call finds are the minimum over all earlier calls of capacity + rate times elapsed - admitted since |
| `TokenBucket.RefusedExactlyWhenOverdrawn` | infrastructure/redis/ratelimit.go:57-61 | A call is refused exactly if admitting it would break the bound on the interval from some earlier call |
| `TokenBucket.ExpiryTheorem` | infrastructure/redis/ratelimit.go:46-64 | Over all histories a bucket whose key expires admits what one that never expires admits if and only if rate times the time to live fills the bucket; the same condition decides whether every interval stays within capacity plus refill |
| `TokenBucket.SameBucket` | infrastructure/redis/ratelimit.go:46-64 | Under that condition an expiring and a non-expiring key hold the same bucket after every history |
| `TokenBucket.ExpiryShows` | infrastructure/redis/ratelimit.go:46-64 | Without it two full bursts, one time to live apart, pass on the expiring key only |
| `TokenBucket.WindowSustains` | infrastructure/redis/ratelimit.go:96-100 | The condition holds for a window of whole milliseconds below 2^62 ns and limit/window >= 10^-6 tokens per second, in spite of the six-decimal rate |
| `TokenBucket.AdmissionsBounded` | infrastructure/redis/ratelimit.go:89-100 | Admissions over any span of d seconds are at most limit + (limit/window + 0.5e-6) * d |
| `TokenBucket.SlowLimitReliesOnExpiry` | infrastructure/redis/ratelimit.go:96-100 | One token in thirty days: the printed rate is zero and expiry is visible |
| `TokenBucket.RoundNear` | infrastructure/redis/ratelimit.go:98 | The printed rate is within half a millionth of limit/window and not negative |
| `TokenBucket.ParamsMean` | infrastructure/redis/ratelimit.go:96-100 | The script is given the limit, its rate per second up to the printing, and twice the window in whole milliseconds |
| `TokenBucket.BurstIsCapacity` | infrastructure/redis/ratelimit.go:42-61 | Of any number of calls at one moment on a key that is not there exactly the first as many as the capacity are admitted |
| `RateLimiting.RateLimiter.Allow` | infrastructure/redis/ratelimit.go:89-112 | The new keys, the answer and what the breaker is told, for every limit, window, breaker state and fate of the script call, a lost reply after the script has run among them. Written out: no limit or an open circuit allows and changes nothing; an answered call is allowed exactly if it finds a token, always on a key that is not there; a failing Redis allows behind a breaker and is an error without one; no other key changes |
| `RateLimiting.KeyAlone` | infrastructure/redis/ratelimit.go:46-64 | In a run over many keys a key's bucket is that of its own calls alone |
| `RateLimiting.AllowedExactlyIfGranted` | infrastructure/redis/ratelimit.go:89-112 | In a run over many keys a call that the breaker lets through and Redis answers is allowed if and only if the history of its own key grants it |
| `RateLimiting.RefusesExactlyWhenOverdrawn` | infrastructure/redis/ratelimit.go:42-112 | On a key that has not expired the limiter refuses if and only if one more admission would overdraw limit plus refill since some earlier call on the key; a first call is allowed |
| `RateLimiting.KeyBounded` | infrastructure/redis/ratelimit.go:46-112 | On each key, whatever happens on the others, the script admits no more in any span than the ceiling of the span |
| `Dedupe.Deduper.Claim` | infrastructure/redis/dedupe.go:30-46 | A claim is refused only by a reply that finds it held; an outage grants it; the claims and the breaker afterwards |
| `Dedupe.HeldIsTaken` | infrastructure/redis/dedupe.go:34 | Over any run of commands a claim is held exactly while one that took it is younger than its time to live |
| `Dedupe.TakesAreSpaced` | infrastructure/redis/dedupe.go:34 | Two commands that take one claim are at least the time to live apart |
| `Dedupe.HeldForever` | infrastructure/redis/dedupe.go:34 | Without a time to live a claim is held for ever by the first command that took it |
| `Submit.SubmitNotification.Execute` | internal/service/submit_notification.go:66-147 | Answer, log, outbox and limiter keys after a submit, for every input and every answer of the ports |
| `Submit.SubmitNotification.AnswerEarly` | internal/service/submit_notification.go:69-87 | A submit ends with the claim exactly if the claim fails, or is refused and the lookup fails or finds the event, and answers a duplicate only in the last case |
| `Submit.SubmitNotification.Persist` | internal/service/submit_notification.go:132-147 | The entity is enqueued and stored with its outbox row or not at all; the submit answers new only on a confirmed commit |
| `Submit.SubmitNotification.Prepare` | internal/service/submit_notification.go:86-130 | Opt-out, rate limit, hydration, rendering and construction: the new entity or the first error, in this order |
| `Submit.SubmitNotification.Screen` | internal/service/submit_notification.go:86-113 | The policies concern a known user only and charge the bucket only of one who has not opted out |
| `Submit.SubmitNotification.HydrateRecipient` | internal/service/submit_notification.go:151-190 | The recipient with its destination filled in: the record's email; country code followed by number, trimmed, if that can be dialled and otherwise empty; the first device's token; or the error of the lookup. A destination that was given stays |
| `Submit.HydrationFills` | internal/service/submit_notification.go:151-190 | Hydration writes only the channel's own destination, never over one given, and leaves it empty exactly if the record it reads has none |
| `Submit.FullPhoneExactly` | internal/domain/user.go:17-26 | A phone is country code + number, trimmed, if that is 7 to 16 digits with at most a plus in front, and empty otherwise |
| `Submit.ValidatesExactly` | internal/domain/recipient.go:75-106 | A recipient is valid for a channel if and only if it names a user or carries the channel's destination |
| `Submit.ChannelNames` | internal/domain/channel.go:9-46 | The eight channels by name |
| `Text.TrimSpaceTrims` | internal/domain/recipient.go:35 | Trimming takes white space off both ends and nothing else |
| `Text.AsciiSpace` | internal/domain/recipient.go:35 | Which ASCII characters are white space |
| `Submit.SubmitNotification.SubmitWithOutbox` | infrastructure/postgres/notifications.go:38-70 | Both rows or neither, written out; an identifier or event already in the log is refused; a doubtful commit may have applied |
| `Submit.SubmitNotification.GetByEventID` | infrastructure/postgres/notifications.go:171-175 | The row of the event exactly if there is one |
| `Submit.ClaimIndependence` | internal/service/submit_notification.go:71-87 | A granted and a refused claim leave the same log and outbox if and only if not both the lookup of the duplicate fails and the submit would have stored its row |
| `Submit.FailedLookupLosesTheRow` | internal/service/submit_notification.go:76-86 | An input for which they differ |
| `Submit.SubmitIsAStep` | internal/service/submit_notification.go:66-147 | A submit is one Submit step of the pipeline or none; Duplicate=false only with the new row stored, Duplicate=true only with a row of the event already there |
| `SubmitOutcomes.StoresExactlyIf` | internal/service/submit_notification.go:66-147 | A submit stores a row if and only if the claim lets it go on, the policies clear its recipient, its texts can be rendered and are not empty, channel and destination are valid, neither identifier nor event is in the log, and the transaction applies; it is then the log row of exactly this content, enqueued, with one pending outbox row, and the answer new if the commit is confirmed |
| `SubmitOutcomes.OptedOutGetsNothing` | internal/service/submit_notification.go:88-96 | A user who has opted out gets ErrOptedOut, no row and no charge to the bucket |
| `SubmitOutcomes.RefusedGetsNothing` | internal/service/submit_notification.go:97-107 | A user whose bucket holds no token gets ErrRateLimited and no row |
| `SubmitOutcomes.ErrorsAsGiven` | internal/service/submit_notification.go:88-130 | A failing settings lookup or rendering gives its own error, an empty body, an unknown channel and a recipient without destination give ErrInvalidInput; nothing is stored |
| `SubmitOutcomes.StoredWithoutDestination` | internal/service/submit_notification.go:151-190 | A stored row has no destination if and only if a user is named, none was given, and the user's record has none that can be used |
| `SubmitOutcomes.UndialableIsStored` | internal/domain/user.go:14-26 | An input: a user whose number cannot be dialled gets a row with an empty phone |
| `Submit.BucketKeysDistinct` | internal/service/submit_notification.go:98 | The bucket key is injective in user and channel and differs from every application key and claim key |
| `SubmitTheorems.OneRowPerEvent` | migrations/0001_init.sql:58 | Over any run an event is submitted at most once and has exactly as many log rows and outbox rows as it was submitted |
| `SubmitTheorems.OneNewAnswer` | internal/service/submit_notification.go:66-147 | Over any run of submits, with stale lookups, among steps of the other processes at most one submit of an event answers Duplicate=false, and none if the log had the event before |
| `SubmitTheorems.StepLog` | infrastructure/postgres/notifications.go:154-163 | No step of the pipeline removes a log row or changes its content |
| `SubmitTheorems.StepOutbox` | infrastructure/postgres/notifications.go:61-69 | Only a submit adds an outbox row, for its own notification, and none is removed |
| `SubmitTheorems.AntiFatigue` | internal/service/submit_notification.go:88-110 | Rows stored for a user on a channel by submits whose limiter calls lie in a span are at most limit + refill of the span plus the calls passed without the script, whoever else submits or calls |
| `SubmitTheorems.StoredWasAdmitted` | internal/service/submit_notification.go:97-107 | A stored row of a limited user was admitted by the script on that user's bucket or let pass by the open failure mode |
| `SubmitTheorems.KeysFollow` | internal/service/submit_notification.go:97-107 | The limiter keys a submit leaves are those the next turn of the run finds |
| `Cursor.RoundTrip` | infrastructure/postgres/notifications.go:347-372 | decodeCursor(encodeCursor(t, id)) is the same instant and identifier if and only if the year has four digits and the offset whole minutes; with another year it does not decode |
| `Base64.DecodeEncode` | infrastructure/postgres/notifications.go:347-358 | Padded URL-safe base64 (RFC 4648 section 5) decodes what it encoded, for every byte string |
| `Base64.EncodeSafe` | infrastructure/postgres/notifications.go:347-350 | An encoding holds only letters of the URL-safe alphabet and pads |
| `Base64.DecodesExactly` | infrastructure/postgres/notifications.go:355-358 | A text decodes if and only if, without line breaks, it is groups of four letters, the last perhaps with one or two pads at its end |
| `Base64.Alphabet` | infrastructure/postgres/notifications.go:347-358 | The letters are those of RFC 4648 section 5 in order, and no others |
| `Base64.Vectors` | infrastructure/postgres/notifications.go:347-350 | Test vectors of RFC 4648 section 10 |
| `Rfc3339.ParsePrint` | infrastructure/postgres/notifications.go:347-366 | Reading a printed time gives back every field, the offset without its seconds |
| `Rfc3339.ParsedIsValid` | infrastructure/postgres/notifications.go:363-366 | What is read is a date and time of the calendar with a four-digit year and an offset of whole minutes |
| `Rfc3339.InstantOrder` | infrastructure/postgres/notifications.go:255 | In one zone instants are ordered if and only if year, month, day, hour, minute, second and nanosecond are, lexicographically |
| `Rfc3339.InstantCounts` | infrastructure/postgres/notifications.go:228-249 | The next day of the calendar, over month ends and leap days, the next hour, minute, second and nanosecond add exactly 86400, 3600, 60 and 1 seconds and 1 ns |
| `Rfc3339.MonthLengths` | infrastructure/postgres/notifications.go:363-366 | The days of every month, and the leap years |
| `Rfc3339.OtherYears` | infrastructure/postgres/notifications.go:363-366 | A time whose year does not have four digits is not read back |
| `Rfc3339.NoComma` | infrastructure/postgres/notifications.go:348-362 | A time in the format of RFC 3339 section 5.6 contains no comma, so that the split at the first comma is right |
| `Text.CutJoin` | infrastructure/postgres/notifications.go:359-362 | Cutting at the first separator undoes joining with it if the first part has none |
| `Text.CutIsJoin` | infrastructure/postgres/notifications.go:359-362 | A text cuts in two exactly if it contains the separator, and then at the first one |
| `Pagination.BuildConditions` | infrastructure/postgres/notifications.go:222-249 | For every set of optional filters the conditions together mean the filters' conjunction with the strict cursor, and each argument is named by exactly one placeholder, in order |
| `Pagination.StatusNames` | internal/domain/status.go:11-17 | The names of the statuses that the filter is compared with, pairwise distinct |
| `Listing.List` | infrastructure/postgres/notifications.go:221-283 | For any limit: an error, a panic for limit -1 and for limit 0 if a row matches, or the page of the matching rows below the cursor and its next cursor; a page shows wanted rows of the table only, newest first and in one zone in the order of their date and time fields, and whatever wanted row it leaves out comes after its rows, with the page full and a next cursor there |
| `Listing.AnswersExactly` | infrastructure/postgres/notifications.go:221-283 | An error exactly for an undecodable cursor, a failing query, a limit below -1 or an unreadable row among those of the page and the one after it; a panic exactly for limit -1 and, if a row is selected, for limit 0 |
| `Listing.PageShows` | infrastructure/postgres/notifications.go:221-283 | What a page shows, for every table, filter, cursor and positive limit, with the filters and the order written out |
| `Listing.Execute` | internal/service/list_notifications.go:28-45 | A limit that is not positive is served as 20 and one over 100 as 100: never a panic, and a page, if there is one, of at most a hundred rows that is the page of that limit and shows what List says |
| `Listing.WalkIsTheList` | infrastructure/postgres/notifications.go:221-283 | Following next_cursor over a fixed table concatenates to exactly the filtered list in order (created_at, id) descending, on the least number of pages, at least one, that it fits on |
| `Listing.ChangingWalkIsExact` | infrastructure/postgres/notifications.go:221-283 | While rows are inserted and statuses change no row is returned twice, and once the walk is over every row that matched throughout has been returned exactly once |
| `Listing.PageKeys` | infrastructure/postgres/notifications.go:276-283 | A page holds the first keys selected; there is a next cursor exactly if there are more, and it decodes to the last row's position |
| `Ordering.RestIsBelow` | infrastructure/postgres/notifications.go:228-233 | What follows the n-th key of the ordered list is the ordered list of what lies strictly below that key |
| `Ordering.OnlyOrder` | infrastructure/postgres/notifications.go:255 | A set of keys has exactly one descending order |
| `TemplateRuns.BoundedStaleness` | infrastructure/rendering/renderer.go:81-109 | For a positive L2 ttl, whatever updates and deletes bypassed or missed Redis, a template used by a render at time t was the value of the repository at some moment in [t - (L1 ttl + L2 ttl), t] |
| `TemplateRuns.StalenessIsReached` | infrastructure/rendering/renderer.go:81-109 | The bound is met up to two ticks: a render one tick before the sum is over uses what the repository has not held since the first tick; with an L2 ttl that is not positive the age is unbounded |
| `TemplateRuns.GetIsRecent` | infrastructure/redis/template_cache.go:50-79 | A value read through the shared cache was the repository's at most one L2 ttl ago |
| `TemplateRuns.OwnershipIsAuthoritative` | internal/service/update_template.go:27-34 | A cached copy of an existing template, however stale, agrees with it on channel, locale, version and owner, so that the ownership check gives the repository's verdict |
| `TemplateRuns.InvNext` | infrastructure/redis/template_cache.go:40-120 | Every call by any process keeps: each cached value was stored when it was cached, and every value of an identifier has the identity it was created with |
| `TemplateRuns.UpdateKeeps` | infrastructure/mongodb/templates.go:110-127 | The cache is given the whole draft and the repository its mutable fields only, and they agree nevertheless |
| `TemplateRefinement.CacheRefinesRepository` | infrastructure/redis/template_cache.go:40-120 | With a healthy Redis every sequence of reads, creations, updates and deletions through the cache gets, reply by reply, what the bare repository gives, whatever expires or is evicted and whichever writes fail, as long as no turn leaves a stale entry behind |
| `TemplateRefinement.InvisibleUnlessLeftBehind` | infrastructure/redis/template_cache.go:95-120 | The exact condition, for every operation: after it the cache is invisible to all later runs if and only if it is not a write applied though reported failed that deletes a template or changes one |
| `TemplateRefinement.StepRefines` | infrastructure/redis/template_cache.go:40-120 | The reply of a step is that of the bare repository whatever the database does, cache and repository agree after it unless it leaves something behind, and what is left behind is served |
| `TemplateRefinement.OnlyOwnersWrite` | internal/service/delete_template.go:22-31 | An update or deletion by anybody but the owner is forbidden, of a template that is not there not found, and changes nothing |
| `TemplateRefinement.DoubtfulUpdateIsNotSeen` | infrastructure/redis/template_cache.go:95-103 | An update applied though reported failed is an input for which a later read serves the old fields |
| `TemplateRefinement.DoubtfulDeleteIsServed` | infrastructure/redis/template_cache.go:105-120 | A deletion applied though reported failed is an input for which a later read serves the deleted template |
| `TemplateRefinement.ServesStale` | infrastructure/redis/template_cache.go:50-58 | One read shows a live entry that differs from the repository |
| `TemplateCaching.TemplateCache.Get` | infrastructure/redis/template_cache.go:50-79 | Result and cache entries after a read, for every state and every answer of breaker, Redis and database, and what the breaker is told: a live entry if Redis is asked and answers, else the repository's answer, which is written back if it is a template and Redis was asked and did not fail behind a breaker |
| `TemplateCaching.TemplateCache.Set` | infrastructure/redis/template_cache.go:81-93 | The write-back reaches Redis or not, and the breaker is told accordingly |
| `TemplateCaching.TemplateCache.Create` | infrastructure/redis/template_cache.go:40-48 | The repository first; the template is put in the cache exactly if that succeeded, the circuit let the write through and Redis ran it |
| `TemplateCaching.TemplateCache.Update` | infrastructure/redis/template_cache.go:95-103 | The same for an update |
| `TemplateCaching.TemplateCache.Delete` | infrastructure/redis/template_cache.go:105-120 | The repository first; the entry is removed exactly if that succeeded, the circuit let the deletion through and Redis ran it |
| `TemplateCaching.TemplateCache.ReadCounts` | infrastructure/redis/template_cache.go:50-93 | What a read makes of the breaker: a hit closes the circuit, a failing read counts, after a miss it is the write-back that counts, if there is one |
| `TemplateCaching.TemplateCache.WriteCounts` | infrastructure/redis/template_cache.go:40-48 | What a write makes of the breaker: its reply counts, and a failed repository call asks nothing |
| `TemplateCaching.Renderer.Lookup` | infrastructure/rendering/renderer.go:81-109 | The compiled template used and both caches after a lookup; only a lookup that succeeds is kept. Written out: a live entry is used as it is; otherwise subject, body and version are those of the template read, escaped exactly for email, and a failed read or parse gives its error and keeps nothing |
| `TemplateCaching.UpdateTemplate.Execute` | internal/service/update_template.go:27-43 | The Draft and Update steps of the runs, one after the other. Written out: the error of the read, Forbidden for another owner, InvalidInput for an empty name or body, each without a write, or the write's own error, or the template read with the four fields replaced |
| `TemplateCaching.DeleteTemplate.Execute` | internal/service/delete_template.go:22-31 | The error of the read, Forbidden for another owner, neither touching the repository; otherwise the template is gone exactly if the deletion is applied, whatever is reported, and not found means it was not there |
| `TemplateCaching.TemplateRepository.Create` | infrastructure/mongodb/templates.go:62-84 | A success is a new identifier stored as given; already-exists is returned exactly if the identifier is there or another template of the owner has its name, channel, locale and version, and changes nothing; the unique index and all other documents are kept |
| `Templates.ReadsWrites` | infrastructure/mongodb/templates.go:86-108 | What was written is read: a creation as given, an update as its fields on the identity it found, a deletion as not found, and every other identifier as before |
| `Templates.DeleteUndoesCreate` | infrastructure/mongodb/templates.go:62-138 | A deletion undoes a creation |
| `TemplateCaching.TemplateRepository.Update` | infrastructure/mongodb/templates.go:110-127 | Identifier, channel, locale, version and owner of the document stay and on success the other fields are those given; not found exactly if it is not there, an error without a change if another template would get the same key; no document appears or disappears, all others and the unique index are kept |
| `TemplateCaching.TemplateRepository.Delete` | infrastructure/mongodb/templates.go:129-138 | A success removes a template that was there and not found means it was not; all other documents and the unique index are kept, and a failure that was not applied changes nothing |

## Left out

- HTTP handlers, request parsing, authentication, configuration, metrics and logging: plumbing without a property of its own.
- Analytics events: `RecordEvent` writes a table nothing else reads, and its failures are only logged.
- Provider adapters: the provider is an arbitrary answer, accepted, transient or terminal.
- SQL, MongoDB, Redis, AMQP and JSON as such: tables, keys and queues are maps, and serialisation is at record level; text that is not valid UTF-8 or holds a NUL is a failed call.
- A broken row stream in `Claim` and `ListStuckInFlight`: the step system allows any selection of claimable rows, the oldest first as well as the smaller batch of a stream that breaks off.
- A failed mark aborting the rest of its database transaction: marks and commit fail independently, which allows more runs than the database does.
- Times in log and outbox rows: the step system lets the janitor pick any rows in flight, not only those past the staleness threshold; `World.Claim` and `World.ListStuckInFlight` take the times as parameters.
- Broker timing: a retry copy may expire at any time, so head-of-line waiting in a retry queue is included and no delay is stated.
- AMQP reconnects, goroutine pools, singleflight and locks: each method under a mutex is one atomic step, and concurrent lookups of one template do not share a fetch.
- Header values of a foreign type: `readAttempt` reads them as nought; the publisher writes none.
- Undecodable bodies: the reject path is in the model and proved unreachable for messages the system makes.
- Other spellings of identifiers and times: the parsers accept the forms the printers make, and not the braces, URN prefixes and one-digit hours that the Go libraries accept besides.
- Zone offsets of a day or more: Go allows them in a fixed zone, no zone has them.
- Floating point in the script: refills are over the reals, and the six-decimal printing rounds halves up.
- Clocks that go back: the script ignores them and so does the model, but the bounds are stated for calls in order of time.
- The submit's breaker: the state the limiter call leaves in it is stated for `RateLimiting.RateLimiter.Allow` and not again for the use case.
- `Submit.SubmitNotification.Execute`: takes the lookup and the insertion in one state; that other processes may move in between is covered by `Submit.ClaimIndependence` and `Submit.SubmitIsAStep`, which take two.
- In-place hydration: the recipient is returned and not written through a pointer, so aliasing of the caller's input is not captured.
- Times of templates, and the difference between absent and empty media lists: left out of the template value.
- Entries of Redis that do not decode: only this program writes them.
- Compiling and executing templates: a compiled template is a function of channel, subject, body and version; parsing may fail.
- Validating new templates: a run may create any template.
- Listing templates, devices, users and settings: thin forwarding.
- Stored rows keeping a terminal status, a full retry budget for every notification, and Duplicate=true whenever a row exists: the code promises none of these.
