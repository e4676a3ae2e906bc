# Payments service: a verified model

This project models the payments service at three levels and proves what its code keeps.

- **Rows.** `Lifecycle` says what each handler and worker computes from the payment row it has
  read: a new row, a cancellation, a webhook, a status poll, a callback delivery, an expiry.
  `Stripe` gives the statuses and identifiers that the provider client derives from the
  provider's answers. One row invariant ties delivery state, retry counter, error text, money
  and optional columns to the status. `Outcomes` spells out, case by case, what each operation
  does to a reachable row and each batch to the table.
- **Runs.** `Serial` applies such steps one after the other to a table with two unique indexes
  and an event log; the clock readings, provider answers, endpoint answers, failed writes and
  lost events are arbitrary. `Budget`, `Replay`, `Transitions`, `Webhooks` and `Batches` prove
  what holds over whole serial runs. `Concurrent` splits every step into its read, its outside
  call and its write, lets any number of actors interleave, and keeps their stale copies in
  flight; `Interleavings` says what survives that and what does not, `Serializability` when
  an interleaving is as good as a serial run, `Overlap` what becomes of the retry budget
  otherwise, and `Delivered` what a delivered callback has told its receiver. `Fairness` says
  which due rows a worker picks up, `Eventually` exactly when a stale payment is eventually
  polled, and `WaitingTime` how long it waits while others go on. `Embedding` shows that handlers
  and batches left alone do in `Concurrent` what they do in `Serial`. `Instances` holds the concrete
  runs on which expected properties fail.
- **Code.** `Repository`, `Service`, `Provider`, `Query`, `Signature` and `Mapper` hold the code:
  a mutable payment record, repositories over a table, the service's handlers and batch loops,
  the query builder, the signature check and the message projection. Their methods are proved
  against the functions of the levels above, so the theorems about runs are theorems about them.
  `Requests` relates the two transports' view of a create request to the row and the response.
  `Columns` derives the effect of the SQL statements from their positional column lists.

Reading order: `Basics`, `Entity`, `Stripe`, `Lifecycle`, `Table`, `Serial`, then the theorems
(`Outcomes`, `Budget`, `Replay`, `Transitions`, `Webhooks`, `Batches`, `Concurrent`, `Interleavings`,
`Serializability`, `Embedding`, `Overlap`, `Delivered`), then the code, then `Fairness`, `Eventually`,
`WaitingTime` and `Instances`. `dafny verify dfyconfig.toml` checks everything.

Assumptions: requests passed `Validate`; the clock does not run backwards (`Concurrent`); the
configuration is fixed. Creation time <= update time is stated for delays that are not negative.

## What turned out false

Five expectations a reader may have are not met by the code. Each is refuted on a concrete run
or input, and the exact condition is proved.

- A terminal status can be lost. A webhook of an unmapped kind that read the row while it was
  pending writes PENDING back over PAID (`Interleavings.StaleWebhookReopens`). That is the only
  way, for one step (`Interleavings.TerminalLostExactly`) and over runs
  (`Interleavings.TerminalExactly`, `Interleavings.LostByStaleRead`).
- A stale payment need not be reconciled. Polls without a result do not touch `updated_at`, so
  as many older rows as fit a batch crowd out every newer one for ever
  (`Instances.StarvationReached`). `Fairness.MayBePicked` and `Fairness.MustBePicked` say exactly
  which rows one query may and must return. Over many batches, a stale payment is polled in every
  run iff the stuck rows that can come before it leave a place in a batch
  (`Eventually.AlwaysPolledExactly`), and in some run iff those that must do
  (`Eventually.SometimesPolledExactly`); the two differ by the rows with the same update time.
- The signature window is not exactly the distance test. A header stamped 2^63 seconds before
  now passes whatever the tolerance (`Instances.AncientHeaderPasses`), and this is the only stamp
  that is misjudged (`Signature.WindowIsDistance`; `Signature.WindowExact` for tolerances that
  overflow).
- The repository's query builder and the filter of the test double differ on text that is blank
  but not empty (`Query.BlankTextDiffers`), and only there (`Query.FiltersAgreeExactly`).
- Canceling a canceled payment is not a no-op: it arms delivery again, even after the first
  cancellation has been delivered (`Instances.SecondCancelRearms`). `Lifecycle.CancelIsNoOp` gives
  the exact condition under which nothing changes.

The retry budget of serial runs (`Budget.RetryBudget`) does not carry over to overlapping
dispatchers: a payment armed once is acknowledged twice (`Overlap.OverlapDeliversTwice`). What holds
in every interleaving is the budget with one more arming per stale write (`Overlap.OverlapBudget`),
which that run attains; without stale writes the serial bounds hold
(`Serializability.UndisturbedBudget`).

Terminality does hold in serial runs (`Transitions.RunKeeps`), in every interleaving without
a write for an unmapped webhook kind (`Interleavings.TerminalForever`), and wherever no writer is
overtaken (`Serializability.ReopeningIsStale`).

## Model

| member | source | states |
|---|---|---|
| Interleavings.JointInvariant | app/service/jobs.go:129-220 | in every interleaving of stale reads and whole-row writes, every stored row satisfies the joint invariant (terminal iff delivery started, pending delivery iff due time, attempts within budget, error text iff a failure, money conserved, creation <= update time), both unique indexes hold, and no 32-bit counter about to be incremented wraps |
| Interleavings.TerminalLostExactly | app/service/callback.go:76-85 | a step takes a terminal row back to a non-terminal status iff it is the write of a webhook without a status, made from a copy read while the row was not terminal |
| Interleavings.TerminalExactly | app/service/callback.go:76-85 | over any run a terminal row stays terminal throughout iff no step of the run is such a write |
| Interleavings.LostByStaleRead | app/service/callback.go:57-85 | whenever a run loses a terminal status, the writer is a handler whose webhook maps to no status and which earlier in that run read this very row, by its hash, while it was not terminal |
| Interleavings.TerminalForever | app/service/jobs.go:42-53 | without such writes a terminal row stays terminal in every interleaving |
| Interleavings.StaleWebhookReopens | app/service/callback.go:67-85 | a concrete interleaving writes PENDING over PAID |
| Interleavings.IdentityFrozen | app/repository/payment.go:109-135 | in every interleaving each row stays, with its id, key, hash, provider, amount, callback URL and creation time |
| Interleavings.HashResolvesForever | app/repository/payment.go:229-252 | once a callback hash resolves to a payment it resolves to exactly that one after any further steps |
| Interleavings.CreatesAgree | app/service/payment.go:115-127 | all create calls that succeed for one (caller, request id), racing or not, return the same id, and the table holds exactly that row for the key |
| Interleavings.InsertOutcome | app/repository/payment.go:88-99 | a racing insert whose key or hash is taken changes nothing; otherwise it adds the one row under a new id and answers with it |
| Interleavings.RetryFindsWinner | app/service/payment.go:121-127 | after any further steps, a create call for a key that has its row answers with that row's id and does nothing else |
| Interleavings.ApplyRows | app/repository/payment.go:109-135 | the only steps that touch the table are an overwrite, which stores the writer's copy, and an insert under a fresh id |
| Concurrent.RunKeepsInv | app/service/jobs.go:25-65 | the invariant of table, actors in flight and answers holds after every interleaving |
| Concurrent.OverwriteKeepsInv | app/repository/payment.go:109-135 | overwriting with any copy of the same identity, however stale, keeps the whole invariant |
| Concurrent.WriterSound | app/service/jobs.go:42-51 | what a writer computes from a copy of a stored row, however stale, is of the same identity and satisfies the row invariant, and is not terminal iff a webhook without a status keeps a non-terminal copy |
| Concurrent.ProcStable | app/service/jobs.go:26-65 | the copies an actor holds stay usable while others insert and overwrite |
| Concurrent.ChangeKeepsTimes | app/service/jobs.go:184-206 | no writer sets an update or due time before the creation time |
| Serializability.UndisturbedIsSerial | app/repository/payment.go:109-135 | every interleaving in which each writer still finds the row it read leaves the table of the serial run of its own inserts and writes, in commit order, and these steps are valid |
| Serializability.StepIsSerial | app/repository/payment.go:109-135 | a step of such a run does to the table what the serial step it commits does |
| Serializability.UndisturbedBudget | app/service/jobs.go:165-206 | the retry budget and the back-off bounds hold of the table of every such interleaving, counted over what it commits |
| Overlap.OverlapBudget | app/service/jobs.go:165-206 | in every interleaving: attempts recorded + attempts still owed <= max attempts x (armings + stale writes); acknowledgements + rows still open <= armings + stale writes |
| Overlap.WriteBudget | app/service/jobs.go:184-206 | a write computed from a copy uses what the stored row owes, plus one budget if it arms, plus one if the copy is stale |
| Overlap.OverlapDeliversTwice | app/service/jobs.go:70-88 | a run from the empty table with one arming, two acknowledgements and one stale write |
| Delivered.DeliveredIsAcknowledged | app/service/jobs.go:139-168 | in every interleaving a stored payment whose delivery succeeded has a status that an earlier step of the run posted from a copy of that payment with this status, and that was acknowledged |
| Delivered.ChangeTold | app/service/callback.go:76-82 | every writer keeps status and successful delivery together, arms delivery again, or has just been acknowledged |
| Serializability.ReopeningIsStale | app/service/callback.go:76-85 | only the write of an overtaken handler can take a terminal status back |
| Embedding.CancelEmbeds | app/service/payment.go:248-283 | a cancel handler left alone does to the table what the serial cancel step does, from any state |
| Embedding.WebhookEmbeds | app/service/callback.go:58-90 | the same for a webhook handler that finds its payment by hash |
| Embedding.CreateEmbeds | app/service/payment.go:115-204 | the same for a create call whose key has no row |
| Embedding.BatchEmbeds | app/service/jobs.go:17-127 | a worker left alone runs its selected batch as the serial batch, whatever the answers and faults |
| Embedding.ClockExactly | app/service/jobs.go:18 | the clock of an interleaving is the latest of its start and its ticks, so that it never runs backwards |
| Embedding.ReconcileEmbeds | app/service/jobs.go:17-68 | the reconcile worker can do so with any selection of its query and any replies |
| Embedding.DispatchEmbeds | app/service/jobs.go:70-88 | the dispatch worker can do so with any selection of its query and any answers |
| Embedding.ExpiryEmbeds | app/service/jobs.go:90-127 | the expire worker can do so with any selection of its query |
| Budget.DeliveryProgresses | app/service/jobs.go:165-206 | over every serial run that does not arm the row again, each recorded attempt uses up one of the budget or ends delivery |
| Budget.DeliverySettles | app/service/jobs.go:194-206 | there are at most as many attempts as were left, and after that many the row is delivered or given up |
| Budget.RetryBudget | app/service/jobs.go:165-206 | over every serial run: failed + acknowledged attempts + attempts still owed to pending rows <= max attempts x number of armings; acknowledged + still open rows <= number of armings |
| Budget.RowBudget | app/service/jobs.go:184-206 | one step on one row: what it uses up was owed by the row or granted by arming it |
| Budget.RowCounts | app/service/jobs.go:165-206 | an attempt is counted either as refused, raising the counter and using one of what is owed, or as acknowledged, closing the row; arming owes the whole budget |
| Budget.RetriesBackOff | app/service/jobs.go:194-206 | over every serial run a pending row is not due before its arming time + attempts x interval, and delivery was not given up before arming time + (max - 1) x interval |
| Budget.RefusedBacksOff | app/service/jobs.go:184-206 | a failed attempt on a due row keeps that bound |
| Budget.ArmsOrKeeps | app/service/payment.go:285-290 | every writer but the dispatcher either arms delivery afresh (pending, no attempts, due now) or leaves it as it was |
| Replay.LogReplaysTable | app/service/callback.go:97-111 | in every serial run in which no event is lost, the log of each stored payment starts with its creation, each event continues from the status before it, and the last one names the stored status |
| Replay.ChangeTells | app/service/jobs.go:58-64 | the event a writer logs starts from the status it read and ends in the status it wrote; a write without an event keeps the status |
| Transitions.StatusAfter | app/service/callback.go:68-82 | for every step: a row that it reaches moves by an explicit transition function, all other rows keep their status, and the only new row, that of a create neither rejected nor failed, is PENDING |
| Transitions.StatusRules | app/service/payment.go:257-261 | terminality is absorbing; PAID is left only by a webhook naming another status; other terminal statuses only by webhook or cancel; FAILED is entered only by webhook, PAID only by webhook or poll |
| Transitions.RunKeeps | app/repository/payment.go:103-178 | over the rest of any serial run a row stays, with its identity, and once terminal remains terminal |
| Transitions.HashResolvesForever | schema.sql:35 | over serial runs a hash finds the same single payment for ever |
| Transitions.EveryStatusReached | app/provider/stripe.go:151-172 | PENDING and each of the four terminal statuses is the status of a row in some run |
| Transitions.KindFor | app/provider/stripe.go:151-172 | for every terminal status there is an event kind that maps to it |
| Webhooks.DedupExactly | app/service/callback.go:67-90 | dropping redeliveries leaves none, keeps the most recent event, and drops nothing iff there was none |
| Webhooks.RedeliveriesAreHarmless | app/service/callback.go:67-90 | dropping redeliveries from any sequence of events and dispatcher passes leaves the same row except for its update time |
| Webhooks.StatusFollowsEvents | app/service/callback.go:76-82 | the final status is the last one an event carried, and delivery is armed once per change along the carried statuses |
| Webhooks.EventAbsorbed | app/service/callback.go:70-84 | after an event the row holds all it carries, and an event already held changes the update time only |
| Webhooks.FeedIsSerialRun | app/service/callback.go:28-129 | feeding inputs to one row is what a serial run of them does to it |
| Batches.BatchIsAtOnce | app/service/jobs.go:25-67 | working through snapshots read at the start equals updating all selected rows at once; other rows are untouched, events come in list order, errors stop nothing |
| Batches.FirstErrorIsFirst | app/service/jobs.go:222-227 | a batch reports the error of the first failing item in list order, and none iff no item fails |
| Batches.OrderIrrelevant | app/repository/payment.go:337-338 | the table after a batch depends on the set of selected rows, not on the order of ties |
| Batches.ExpireDrains | app/service/jobs.go:90-127 | if writes succeed, an expire batch takes exactly its rows, min(batch size, n) of n, out of the expirable set |
| Batches.DispatchDrains | app/service/jobs.go:70-88 | if writes succeed, a dispatch batch takes exactly min(batch size, n) rows out of the due set, whatever the endpoints answer |
| Batches.ExpireBatchesDrain | app/service/payment.go:292-297 | r expire batches at one time leave exactly max(0, n - r x batch size) expirable rows |
| Batches.DispatchBatchesDrain | app/repository/payment.go:333-338 | r dispatch batches at one time leave exactly max(0, n - r x batch size) due rows |
| Batches.InertBatchIsFixpoint | app/service/jobs.go:26-44 | a reconcile batch in which every poll yields nothing new leaves table and log as they were |
| Batches.PickedExactly | app/repository/payment.go:411-415 | two bounds on one query: a due row is returned if fewer than `limit` other due rows can come before it, and not if at least `limit` must |
| Fairness.MayBePicked | app/repository/payment.go:411-415 | some answer of the query contains a due row iff fewer than `limit` due rows must come before it |
| Fairness.MustBePicked | app/repository/payment.go:411-415 | every answer contains it iff fewer than `limit` other due rows can come before it |
| Fairness.PolledInTime | app/service/jobs.go:25-65 | a stale row is polled once the batches exceed the rows ahead of it, divided by the places that stuck rows ahead leave in a batch |
| Fairness.NeverPolled | app/service/jobs.go:38-44 | it is not polled by any number of batches if the stuck rows strictly ahead of it fill one |
| Eventually.AlwaysPolledExactly | app/service/jobs.go:25-65 | for n greater than the rows ahead that are not stuck: every run of n batches polls a due row iff the stuck rows that can come before it leave a place in a batch |
| Eventually.SometimesPolledExactly | app/service/jobs.go:25-65 | for n greater than the rows strictly ahead that are not stuck: some run of n batches polls it iff the stuck rows that must come before it leave a place in a batch |
| WaitingTime.PolledAmidOthers | app/repository/payment.go:411-415 | the waiting bound over serial runs in which other payments are created, changed, delivered and expired between the batches |
| WaitingTime.OtherGetsBehind | app/service/callback.go:84 | a later step on another payment never gets ahead of a waiting one |
| WaitingTime.CourseIsSerialRun | app/service/jobs.go:25-65 | batches and other steps in any order are a serial run of their steps |
| Fairness.ReconcileBatchesDrain | app/service/jobs.go:17-68 | r reconcile batches at one time whose polls all yield a new status leave exactly max(0, n - r x batch size) stale rows |
| Fairness.ReconciledInTime | app/service/jobs.go:17-68 | then a stale row is polled once r x batch size exceeds the due rows that can come before it |
| Fairness.SilentProviderPolls | app/service/jobs.go:42-44 | a provider with nothing new to say gives such runs of any length, with the older row stuck |
| Batches.NewerRowStarves | app/repository/payment.go:411-415 | while a batch of older rows is due but yields nothing, a newer row is not polled in any number of batches |
| Batches.SilentProviderStarves | app/service/jobs.go:42-44 | for any two stale rows and a batch size of one, a provider with nothing new to say about the older one keeps the newer from being polled in n batches |
| Instances.StarvationReached | app/service/jobs.go:42-44 | two creates from the empty table reach such a table, and there the newer payment is not polled in any number of batches |
| Instances.SecondCancelRearms | app/service/payment.go:257-266 | create, cancel, deliver, cancel from the empty table ends with delivery armed again |
| Instances.PendingExpires | app/service/jobs.go:90-124 | a payment created in the empty table is EXPIRED by an expire step at the timeout |
| Instances.PaidReconciles | app/provider/stripe.go:114-116 | a payment created in the empty table whose session is paid is PAID after a reconcile step at the stale time |
| Instances.RefusedIsRetried | app/service/jobs.go:184-206 | create, cancel, a refused and an acknowledged delivery one interval later: delivered with one recorded failure if more than one attempt is allowed, given up otherwise |
| Instances.RetryIsCounted | app/service/jobs.go:165-206 | that run counts one arming, one failure and one acknowledgement, and notes the arming time |
| Instances.CountRefusal | app/service/jobs.go:194-196 | its first refusal is noted as giving up iff only one attempt is allowed |
| Instances.GenuineHeaderPasses | app/provider/stripe.go:362-409 | a header built by a holder of the secret is accepted iff its stamp is in the window |
| Instances.AncientHeaderPasses | app/provider/stripe.go:389 | at any time, whatever the tolerance, such a header stamped 2^63 seconds earlier is accepted |
| Instances.SampleIsValid | app/types/payments.go:36-77 | a concrete request passes validation |
| Serial.RunKeepsDbInv | app/service/jobs.go:17-220 | every serial run keeps the table and row invariants, whatever writes fail and events are lost |
| Serial.TouchEffect | app/repository/payment.go:103-178 | a step on an existing row does nothing, or replaces that one row by what its writer computed, keeping identity and invariant |
| Serial.CreateEffect | app/service/payment.go:166-211 | a create keeps the invariants and starts a row as PENDING without delivery |
| Serial.OverwriteIsExact | app/repository/payment.go:109-135 | on a row of the same identity an UPDATE stores exactly the row given |
| Lifecycle.NewRowInv | app/service/payment.go:166-197 | the row built from a validated request and any provider reply satisfies the row invariant and is PENDING |
| Lifecycle.ChangeKeepsRowInv | app/service/jobs.go:129-220 | every writer's result satisfies the row invariant and keeps the row's identity, if the row did and met the writer's selection |
| Lifecycle.ReconcileKeepsRowInv | app/service/jobs.go:37-51 | a poll of a pending row that leads to a write makes it terminal |
| Lifecycle.WebhookKeepsRowInv | app/service/callback.go:67-84 | a webhook keeps invariant and identity |
| Lifecycle.DispatchKeepsRowInv | app/service/jobs.go:129-206 | a delivery attempt keeps invariant, identity and status |
| Lifecycle.RefusedKeepsRowInv | app/service/jobs.go:184-206 | counting a failed attempt keeps the invariant: the budget is used up exactly when delivery is failed |
| Outcomes.ReconcileOutcome | app/service/jobs.go:26-64 | a pending row with a provider payment is moved to EXPIRED by an expired session and to PAID by a paid one, armed and logged at the clock reading; any other session leaves it alone, and a failed poll is the reported error |
| Outcomes.ExpireOutcome | app/service/jobs.go:103-123 | a pending row becomes EXPIRED, armed and logged |
| Outcomes.AttemptOutcome | app/service/jobs.go:129-220 | a due row after each endpoint answer, column by column: 200 to 299 delivers; a send error or any other code stores the first 1024 characters of its text, counts, schedules or gives up; the error itself is reported |
| Outcomes.CreateOutcome | app/service/payment.go:199-211 | if the database does not fail, a create changes nothing if some row has its trimmed key or its hash, and otherwise adds one PENDING row and one creation event |
| Outcomes.CancelOutcome | app/service/payment.go:257-280 | PAID is refused, any other row becomes CANCELED, armed and logged |
| Outcomes.WebhookOutcome | app/service/callback.go:67-111 | row and log after each event kind: status, identifiers, arming; the event logged has its own id and kind, the old status iff it changed, and the payload |
| Outcomes.DueExactly | app/repository/payment.go:333-336 | the reachable rows that each worker selects, in terms of status, delivery and times alone |
| Outcomes.ExpiryBatch | app/service/jobs.go:90-127 | a serial expire batch takes the oldest pending rows past the timeout, as many as fit, to EXPIRED and changes no other row |
| Outcomes.AllOldExpire | app/service/jobs.go:90-127 | if a batch holds all of them and its writes succeed, each old pending row ends EXPIRED and every other row is as before |
| Outcomes.StaleBatch | app/service/jobs.go:17-68 | a reconcile batch moves the stalest pending rows, as many as fit, to what the provider says of each and changes no other row |
| Outcomes.PaidSessionsReconcile | app/provider/stripe.go:114-116 | if a batch holds all stale rows, one whose session is paid ends PAID |
| Outcomes.DueBatch | app/service/jobs.go:70-88 | a dispatch batch leaves the rows due first, as many as fit, as their attempts say and changes no other row |
| Outcomes.Codes | schema.sql:13-28 | the numeric codes of statuses, delivery states and types |
| Lifecycle.DispatchOutcome | app/service/jobs.go:155-206 | on a due row: acknowledged iff 2xx, given up iff the last budgeted attempt is refused, otherwise due again after exactly one interval; an error is reported iff not acknowledged |
| Lifecycle.NewRowLinks | app/provider/stripe.go:224-236 | a new row is polled iff the created session has an id, and its links and hash are those handed out |
| Lifecycle.CancelIsNoOp | app/service/payment.go:257-266 | a cancel leaves all but the update time alone iff the row is PAID, or canceled with delivery armed at that very instant |
| Lifecycle.AttemptsNeverOverflow | app/service/jobs.go:185 | incrementing the counter of a due row stays within 32 bits and the configured maximum |
| Stripe.EventStatusRange | app/provider/stripe.go:151-172 | a webhook carries no status iff its kind is none of the seven mapped ones, otherwise a terminal one, and exactly which kinds lead to which |
| Stripe.PollStatusRange | app/provider/stripe.go:76-122 | exactly when a poll yields EXPIRED, PAID, PENDING or an error, by iffs on the session's texts; an error is passed on |
| Stripe.ParsedIdentifiers | app/provider/stripe.go:143-150 | the event keeps its own id and kind; identifiers are trimmed and not blank, come from the object or its subscription as the kind says, and none is taken from an unmapped kind |
| Requests.TransportsAgree | app/types/payments.go:13-34 | HTTP normalisation does not change the stored row, exactly unless the request id comes from the header |
| Requests.Validate | app/types/payments.go:36-77 | validation, clause by clause, complains of nothing iff the request is one the model calls valid |
| Requests.NormalisedOnce | app/types/payments.go:13-34 | normalising a normalised request changes nothing |
| Requests.ValidationAgrees | app/types/payments.go:36-77 | HTTP accepts what gRPC accepts, plus a request id from the header and a recurring interval in any case and padding |
| Requests.ResponseEchoesRequest | app/service/payment.go:166-193 | the response to a create call gives back every field of the normalised request |
| Requests.LoweredIsStable | app/types/payments.go:28 | lowering a trimmed text again, or trimming it, changes nothing |
| Requests.UpperedIsStable | app/types/payments.go:27 | raising a trimmed text again, or trimming it, changes nothing |
| Table.InsertKeepsTableInv | schema.sql:34-35 | an insert that no unique index rejects keeps both indexes |
| Table.OverwriteKeepsTableInv | app/repository/payment.go:109-135 | an UPDATE that does not collide in the hash index keeps both indexes; the key index it cannot meet |
| Table.CollidesExactly | schema.sql:35 | an UPDATE collides iff another row has the new provider and the stored hash |
| Table.SameProviderNeverCollides | schema.sql:35 | an UPDATE that keeps the provider never collides |
| Repository.PaymentRepository.Create | app/repository/payment.go:38-101 | the insert's result, error cases, new id and whole new table |
| Repository.PaymentRepository.Update | app/repository/payment.go:103-178 | the update's result, error cases and whole new table, with the frozen columns kept |
| Repository.PaymentRepository.FindByID | app/repository/payment.go:180-202 | nothing iff the id is absent, otherwise a fresh copy of the row |
| Repository.PaymentRepository.FindByCallerRequestID | app/repository/payment.go:204-227 | nothing iff no row has the key, otherwise a fresh copy of the row that has |
| Repository.PaymentRepository.FindByCallbackHash | app/repository/payment.go:229-252 | nothing iff no row has the hash, otherwise a fresh copy of the row that has |
| Repository.PaymentRepository.List | app/repository/payment.go:254-321 | copies of exactly the page of matching rows, newest first; an error iff limit or offset is negative |
| Repository.PaymentRepository.Query | app/repository/payment.go:299-302 | the engine binds the arguments to the markers in order, the last two to limit and offset, and answers the page of satisfying rows |
| Repository.PaymentRepository.Select | app/repository/payment.go:333-338 | due rows in key order, as many as fit, none passed over for a later one |
| Repository.PaymentRepository.Scan | app/repository/payment.go:347-354 | one fresh, distinct record per row, in order, with the row's values |
| Repository.PaymentRepository.ListDueCallbackDispatch | app/repository/payment.go:323-360 | such a selection of the rows due for delivery, by due time |
| Repository.PaymentRepository.ListExpiredPending | app/repository/payment.go:362-398 | such a selection of the expirable rows, by creation time |
| Repository.PaymentRepository.ListForReconcile | app/repository/payment.go:400-437 | such a selection of the stale rows, by update time |
| Service.PaymentService.CreatePayment | app/service/payment.go:114-214 | existing row returned unchanged; otherwise each error case leaves the state alone; otherwise the state is one create step of the serial model |
| Service.PaymentService.CancelPayment | app/service/payment.go:248-283 | one cancel step of the serial model; succeeds iff the row exists, is not PAID and the write does not fail |
| Service.PaymentService.ListPayments | app/service/payment.go:227-246 | the page, newest first, of exactly the rows whose columns equal the caller's own texts trimmed, blank ones ignored, with status and provider; the limit is the caller's if positive and 100 otherwise |
| Service.PaymentService.MarkForCallbackDelivery | app/service/payment.go:285-290 | arms the record in place |
| Provider.StripeProvider.Answer | app/provider/stripe.go:124-141 | an event is answered iff the header carries a fresh signature of the payload and the payload decodes, and it is the decoded one |
| Provider.StripeProvider.VerifyAndParseCallback | app/provider/stripe.go:124-175 | the method gives that answer, refusing in the order blank secret, bad signature, undecodable body |
| Service.PaymentService.HandleProviderCallback | app/service/callback.go:28-129 | rows and event log change only if the header passes the signature check; every outcome with state, error and audit row; the log gains at most one row, and it records provider, hash, header and body of this webhook each in its column |
| Service.PaymentService.ReceiveEvent | app/service/callback.go:67-84 | the in-place updates amount to the webhook's row function |
| Service.PaymentService.ApplyEvent | app/service/callback.go:67-128 | update, event and audit row of a verified event |
| Service.PaymentService.PersistRejectedCallback | app/service/callback.go:131-154 | appends the rejection, or nothing if the log fails |
| Service.AuditsRecord | app/service/callback.go:113-153 | processed and rejected audit rows field by field |
| Service.AuditResolves | app/service/callback.go:113-123 | the audit row of a processed webhook names the payment of its hash, which the hash resolves to after any later run |
| Service.RejectedCallback | app/service/callback.go:137-142 | a rejection names no payment and keeps the first 1024 characters of the trimmed reason, or a standard text for a blank one |
| Service.ParseProviderCode | app/service/callback.go:156-163 | the one provider is recognised, by exactly two names in any case and padding |
| Service.PaymentService.ReconcileItem | app/service/jobs.go:27-64 | one item's effect and error follow from the copy it is given |
| Service.PaymentService.ExpireItem | app/service/jobs.go:103-123 | one item's effect and error follow from the copy it is given |
| Service.PaymentService.DispatchCallback | app/service/jobs.go:129-182 | every branch of a delivery: blank URL, encoding error, refusal, acknowledgement |
| Service.PaymentService.RecordDispatchFailure | app/service/jobs.go:184-220 | counts the attempt, schedules or gives up, and reports the delivery error unless the write fails |
| Service.PaymentService.CountFailure | app/service/jobs.go:185-206 | the in-place updates amount to the refusal's row function |
| Service.PaymentService.RunReconcileBatch | app/service/jobs.go:17-68 | selects as the query says, moves the stalest pending rows at once to what the provider says of them, changes no other row, returns the first error |
| Service.PaymentService.RunDispatchCallbacksBatch | app/service/jobs.go:70-88 | selects as the query says, leaves the rows due first as their attempts say, changes no other row, returns the first error |
| Service.PaymentService.RunExpirePendingBatch | app/service/jobs.go:90-127 | selects as the query says, takes the oldest pending rows past the timeout to EXPIRED at once, changes no other row, returns the first error |
| Service.ItemReady | app/service/jobs.go:26-65 | when a batch reaches an item, the stored row is still the snapshot, and processing it extends run and error by one item |
| Columns.CreateThenFind | app/repository/payment.go:44-87 | INSERT then SELECT, bound by position, returns every field of the created payment |
| Columns.UpdateThenFind | app/repository/payment.go:109-164 | UPDATE then SELECT returns the written payment with the stored frozen fields |
| Columns.InsertAligned | app/repository/payment.go:45-86 | each column of the INSERT meets its own value at its position |
| Columns.UpdateAligned | app/repository/payment.go:110-163 | each assigned column of the UPDATE meets its own value at its position |
| Columns.UpdateStores | app/repository/payment.go:109-164 | the UPDATE statement has the effect of the table model's overwrite |
| Columns.SelectReads | app/repository/payment.go:443-505 | scanning by position inverts the row representation on every field |
| Query.ConditionsSelectMatches | app/repository/payment.go:267-293 | the conjunction of the conditions with their arguments selects exactly the rows the filter asks for |
| Query.BuildConditions | app/repository/payment.go:267-293 | conditions and arguments stay in lockstep, one pair per switched-on clause in order |
| Query.BuildListQuery | app/repository/payment.go:255-300 | the query text, with exactly as many parameter markers as arguments |
| Query.QueryText | app/repository/payment.go:295-300 | the literal text around the conditions, with and without them |
| Query.FullConditions | app/repository/payment.go:270-296 | the literal text of all six conditions |
| Query.SelectNames | app/repository/payment.go:256-264 | the literal column list |
| Query.QueryFindsMatches | app/repository/payment.go:267-300 | executing the built conditions with their arguments finds what the filter asks for, newest first |
| Query.NewestIsExact | app/repository/payment.go:299-300 | the full result is strictly descending and holds exactly the matching ids |
| Query.PagesCoverMatches | app/repository/payment.go:299-300 | pages at offsets 0, k, 2k, ... of an unchanged table give every matching row once, newest first, without gap |
| Query.PagesArePrefix | app/repository/payment.go:299-300 | the first pages concatenate to the matching prefix of the full result |
| Query.ServiceListsWanted | app/service/payment.go:227-246 | the filter that the service passes finds exactly what its caller wants |
| Query.ServiceFilterAgrees | app/service/payment.go:227-246 | for filters the service passes, the query builder and the direct filter select the same rows |
| Query.FiltersAgreeExactly | app/service/payment_test.go:84-107 | in general they agree on all rows iff no filter text is blank but not empty |
| Query.BlankTextDiffers | app/repository/payment.go:270-273 | a concrete filter and row on which they differ |
| Signature.VerifyStripeSignature | app/provider/stripe.go:362-409 | the parser loop and the search return exactly the declarative acceptance condition |
| Signature.HeaderRoundTrip | app/provider/stripe.go:362-409 | a header assembled from any parts, with white space and unrelated parts anywhere, is accepted iff the secret is not blank, its last stamp is a 64-bit decimal in the window, and some v1 text is the hexadecimal digest of the stamped payload, in either case |
| Signature.PartsRead | app/provider/stripe.go:368-379 | reading assembled parts recovers the last stamp and all v1 texts in order |
| Signature.SplitJoin | app/provider/stripe.go:368 | splitting undoes joining of comma-free parts |
| Signature.TrimThenSplit | app/provider/stripe.go:363-372 | trimming the header first makes no difference to its trimmed parts |
| Signature.DecodeHexExact | app/provider/stripe.go:398-402 | a text decodes to given bytes iff its lower-case form is their encoding (section 8 of RFC 4648) |
| Signature.ParseExactly | app/provider/stripe.go:384 | an optional sign and decimal digits are their value if it fits 64 bits, and an error otherwise |
| Signature.NothingElseParses | app/provider/stripe.go:384 | nothing else is a number |
| Signature.LeadingZero | app/provider/stripe.go:384 | leading zeros do not change the value |
| Signature.ParseOfDecimal | app/provider/stripe.go:384 | parsing the decimal form of any 64-bit integer returns it |
| Signature.WindowExact | app/provider/stripe.go:389 | for every 64-bit stamp, when the wrapping comparisons accept it |
| Signature.WindowIsDistance | app/provider/stripe.go:388-391 | they agree with the distance test on every stamp but now - 2^63 |
| Signature.Tolerance | app/provider/stripe.go:40-44 | the tolerance in force is the configured one if positive, and 300 seconds otherwise |
| Mapper.MessageRoundTrip | app/mapper/payment.go:10-42 | the projection loses nothing but delivery columns and sub-second time iff no optional value is present but zero |
| Mapper.MessagesTell | app/mapper/payment.go:10-42 | on such rows, equal messages mean equal visible rows |
| Mapper.InvariantRowsUnambiguous | app/service/payment.go:311-325 | every row satisfying the row invariant is such a row |
| Mapper.StoredRowsRoundTrip | app/mapper/payment.go:10-64 | every row a serial run can store is recovered from its message |
| Mapper.PaymentToProto | app/mapper/payment.go:10-42 | nil for nil, otherwise the projection of the record as it is |
| Mapper.PaymentsToProto | app/mapper/payment.go:44-50 | length and order are kept |
| Mapper.CloneMetadata | app/mapper/payment.go:66-75 | the copy equals the original |
| Basics.SpacesExactly | app/service/payment.go:312 | the characters that trimming removes, by code point |
| Basics.NonBlank | app/service/payment.go:311-317 | present iff not blank, and then the trimmed text |
| Basics.Truncate | app/service/callback.go:165-170 | a prefix of the text, of the smaller of both lengths |
| Entity.Config.RetryInterval | app/service/jobs.go:198-201 | the interval in force is the configured one if positive, and five minutes otherwise |
| Entity.Config.MaxAttempts | app/service/jobs.go:189-192 | the number of attempts allowed is the configured one if positive, and one otherwise |
| Entity.Config.BatchSize | app/service/payment.go:292-297 | the batch size in force is the configured one if positive, and 100 otherwise |

## Left out

- HTTP and gRPC transport, routing, authentication, logging, the command line, worker tickers and environment loading.
- The requests to Stripe, form building, product and price creation, and product names: their outcome is an arbitrary reply or error.
- JSON decoding of provider bodies: a missing or undecodable field is the empty string, a body that does not decode is a parse failure.
- JSON encoding: metadata stays a map in memory and in its column; a failing encoding of the delivery body is a case of the delivery outcome.
- UUID generation: the hash of a new payment is arbitrary, and one already in use is rejected by the unique index.
- HMAC-SHA-256 (RFC 2104) is an arbitrary function of key and message; nothing about its strength is assumed or claimed.
- Database details: collation, column widths, DATETIME rounding, transactions, gaps in generated ids, failing SELECTs. An UPDATE reports "not found" iff the id is absent, not when no column changes.
- The event and audit repositories as SQL: they append, or fail, as a parameter says.
- Strings are sequences of characters: lengths count characters, not bytes, and ASCII letters only change case. Times are unbounded integers of nanoseconds.
- The nil checks on batch items and on a nil parsed event, which no repository or provider client produces.
- GetPayment and Health, which read one row or none.
- RFC 3339 text of a time: a message holds the whole seconds that the text stands for.
- Repository.PaymentRecord keeps the fields that no code assigns after loading in one constant, not in fields of their own.
- Service.PaymentService.ReconcileItem: a loop body of its source, factored out; like the other item methods and DispatchCallback it asks for a record whose provider is the stored one, which every loaded record is.
- Service.PaymentService.ExpireItem: factored out of its loop in the same way.
- Concurrent: models reads, outside calls, row writes and inserts as separate steps, but not the event and audit writes, which no step reads.
- Serializability.UndisturbedIsSerial: speaks of the payments table; the event log is not part of `Concurrent`.
- Eventually.AlwaysPolledExactly: takes batches without other writers in between, and a fixed set of rows whose polls or writes never yield anything; WaitingTime.PolledAmidOthers bounds the wait with other steps in between.
- Repository.PaymentRepository.Query: stands for the database; it is given the columns of the conditions beside the text that names them, instead of parsing the text.
- Provider.StripeProvider: the digest and the decoding of a body are parameters, and so is the clock reading of the check.
- Replay.LogReplaysTable: assumes that no event write fails, because the service ignores such failures and the log then has gaps.
- Budget.RetryBudget: counts attempts whose write landed; an attempt that was posted but whose write failed leaves the row due again.
- Budget.RetriesBackOff: states the bound for serial runs and undisturbed interleavings; a stale write may restore an earlier due time.
