# Captions, credits and tasks: a verified model

This project models the parts of the caption service that are hardest to get right and proves what they promise. It is
written in Dafny 4.11; `dafny verify dfyconfig.toml` checks all of it.

Two cores share the project.

**Transactions.** Credits are kept three ways (an account per workspace, pools with allocations, an append-only ledger);
`Ledger` states the four calls on them, `LedgerInvariant` and `LedgerRoundTrips` prove what every run keeps and what one
call undoes, and `CreditStore` is the object whose loops do the work. `Tasks`, `TaskRuns` and `TaskStore` do the same for
the leased task queue and its dispatch outbox. `RenderAdmission` splits the transaction that starts a render where it can
interleave with others (check the quote, read the plan, lock and count, write); `RenderSafety` proves what every
interleaving keeps, `RenderLimit` that the plan's limit holds, and `RenderService` has its store calls. `Billing` and
`BillingService` add the webhook events, `BillingOrder` when their order matters.

**Captions.** `Segmentation` and `LineBreaking` are the two dynamic programs that cut a transcript into pages and lines,
`LineOverflow` says when a line is too long; `Captions`, `Edits` and `EditTiming` are the editable state and its
operations; `Qa` is the checks on the result, `EditFidelity` what edits keep them passing; `Timeline` the lookups and the
gap-free render plan; `Normalize` and `Normalizer` the way provider words become a transcript;
`Alignment` and `TimedAlignment` the edit-distance alignment. `StylePatch`, `PatchProtocol` and `PatchClient` are the
client's patch queue, `RateLimit` the token bucket, `Wav` and `WavCodec` the audio files.

Code that works step by step is a method or a class here, with loops and `modifies` clauses, proved equal to a function of
the old state; the results are lemmas about those functions. A method that fails leaves the tables as they were, as a
rolled-back transaction does. Tables are sequences whose row number is the id, or maps. Times are integers, costs and
rates are reals. Boundary scores, page ids, token normalisation, the tests for white space and punctuation, style
validation, presets, catalogue and month arithmetic are parameters, so results hold for all of them.

## What turned out not to hold

Lemmas state each of these, by a concrete case, by the exact condition under which the promise holds, or by both.

- Manual page breaks and joins are respected exactly when no page's worth of words in a row is joined, each to the one
  before it; otherwise the pages are plain chunks (`Captions.MarksRespectedExactly`), and an accepted merge can have no
  effect at all (`Edits.MergeCanBeIgnored`).
- A word split into several tokens can run into the next word; the words stay ordered exactly when the rounded shares of
  all tokens but the last, and one millisecond, fit before the next word starts (`EditTiming.EditKeepsOrder`,
  `EditTiming.FitsWrittenOut`, `EditTiming.SplitCanOverlap`).
- A style whose pages hold fewer than 12 characters leaves parameters outside the segmentation schema, so that a
  `resegment` that changes nothing is refused (`Edits.StyleBlocksResegment`).
- A negative grant lowers the account but no pool (`LedgerInvariant.GrantKeepsViewsExactly`).
- Two `motion` or two `emoji` patches in one debounce window lose fields of the first
  (`StylePatch.CoalescingIsExactOver`, `StylePatch.MotionEditIsLost`).
- Lines can overflow although they need not, and not only the last one (`LineOverflow.OverflowThoughItFits`,
  `LineOverflow.FirstLineOverflows`); they stay within the limit exactly when a fitting layout is preferred over every
  overflowing one (`LineOverflow.StaysWithinExactly`).
- Sweeping idle buckets refills the hourly limiters early, so that they let through more than their refill rate
  (`RateLimit.RefillBoundsExactly`, `RateLimit.HourlyLimitersAreReset`); `RateLimit.WindowIsBounded` is the bound that holds.
- The order of delivery can decide what a billing account ends as, without ties too (`BillingOrder.PeriodEndShowsOrder`);
  `BillingOrder.FieldOrderExactly` and `BillingOrder.RowOrderExactly` say exactly when.
- A transcript with more words than the media has milliseconds gets a negative start time (`Normalize.FittingIsExact`).

The comment in `segmentation.ts` that the fallback should not happen, the one in `lines.ts` that the last line absorbs
overflow and only when the limit cannot be kept, and the one in `normalize.ts` that everything fits by construction are
not what the code does (`Segmentation.FallbackExactlyWhenInfeasible` has the first condition); the model follows
the code. Where `startRender` invalidates outdated quotes and then throws, the enclosing transaction undoes the
invalidation, so a failed start changes nothing.

## Model

| member | source | states |
|---|---|---|
| LedgerInvariant.EveryRunKeepsInv | packages/storage/src/postgres-store.ts:1321-1546 | in every state reached by grants that give, reserves, settles and releases (retried, refused or repeated) account, pools, ledger, reservations and allocations agree, and everything granted is available, reserved or charged |
| LedgerInvariant.GrantKeepsViewsExactly | packages/storage/src/postgres-store.ts:1321-1361 | a grant under a new key keeps account, pools and ledger in agreement if and only if its amount is not negative |
| LedgerInvariant.ReserveSucceedsExactly | packages/storage/src/postgres-store.ts:1363-1425 | a reserve for a fresh quote and task succeeds if and only if the unexpired pools together hold the amount; it then allocates exactly the amount |
| LedgerInvariant.TakesAreRight | packages/storage/src/postgres-store.ts:1386-1405 | only unexpired pools of the workspace are drawn on, none beyond what it has, and as much is taken as is asked for or there is |
| LedgerInvariant.ReserveDrainsInOrder | packages/storage/src/postgres-store.ts:1386-1405 | a pool is touched only when every pool spent before it has been emptied |
| LedgerInvariant.OnePoolPartlyDrained | packages/storage/src/postgres-store.ts:1392-1405 | at most one pool is left partly drained |
| Spending.SpendOrderIsRight | packages/storage/src/postgres-store.ts:1386-1391 | the spending order lists every spendable pool once, none before a pool that is to be spent earlier |
| Spending.DrainsInOrder | packages/storage/src/postgres-store.ts:1392-1405 | whatever is taken from an entry, every entry earlier in the order has given all it had |
| LedgerInvariant.ClampsNeverBind | packages/storage/src/postgres-store.ts:1460-1475 | the zero clamps on the account and on pools never bind |
| LedgerRoundTrips.SettleMovesExactly | packages/storage/src/postgres-store.ts:1459-1494 | the first settlement charges the asked amount clipped to the reservation, ends the hold, returns the rest, touches no other workspace, and empties allocations one after the other |
| LedgerRoundTrips.ReleaseUndoesReserve | packages/storage/src/postgres-store.ts:1499-1546 | releasing a reservation just made restores every pool and every balance |
| LedgerInvariant.EndedIsFinal | packages/storage/src/postgres-store.ts:1456-1458 | no call changes a settled or released reservation or adds a settle or release entry for it |
| LedgerInvariant.OneMovePerReservation | packages/storage/src/postgres-store.ts:1441-1546 | over any run the ledger holds one settle or release entry for a reservation that has ended and none for one that has not |
| CreditStore.Store.GrantCredits | packages/storage/src/postgres-store.ts:1321-1361 | the transaction does what the specification says, always succeeds, and keeps the invariant when it gives or repeats a key |
| CreditStore.Store.ReserveCredits | packages/storage/src/postgres-store.ts:1363-1425 | the transaction with its draining loop reaches the specified tables, and a failed one leaves them as they were |
| CreditStore.Store.SettleReservation | packages/storage/src/postgres-store.ts:1441-1497 | the transaction with its consuming loop reaches the specified tables; settling twice changes nothing, settling a released one fails |
| CreditStore.Store.ReleaseReservation | packages/storage/src/postgres-store.ts:1499-1546 | the transaction with its refund loop reaches the specified tables; releasing an ended one changes nothing |
| CreditStore.Store.SettleForTask | packages/server/src/services/billing.ts:290-296 | settles the reservation of the task, or does nothing if it has none |
| CreditStore.Store.ReleaseForTask | packages/server/src/services/billing.ts:283-287 | releases the reservation of the task, or does nothing if it has none |
| TaskRuns.EveryRunKeepsInv | packages/storage/src/postgres-store.ts:784-1156 | in every reachable queue: running if and only if a lease owner and expiry are set, ended if and only if finished, queued only with attempts left, no cancel request and the outbox due at run_after; attempts never exceed the maximum |
| TaskRuns.StepKeepsInv | packages/storage/src/postgres-store.ts:784-820 | the only call that can break this is inserting a task that may not be attempted even once |
| TaskRuns.GenerationCountsAttempts | packages/storage/src/postgres-store.ts:1146-1156 | without an admin retry a queued task has as many attempts as dispatch generations, a running one exactly one more |
| TaskRuns.StepsDescend | packages/storage/src/postgres-store.ts:887-1088 | every call leaves a task alone, extends its lease, or strictly lowers (attempts left, running over queued over ended, cancel not asked) |
| TaskRuns.EveryTaskSettles | packages/storage/src/postgres-store.ts:887-1088 | over any run the changes to a task are paid for by the fall of its potential, and attempts grow by exactly the claims |
| TaskRuns.ChangesAndClaimsAreBounded | packages/storage/src/postgres-store.ts:887-1088 | a task changes at most 2 * maxAttempts + 1 times, heartbeats aside, and is claimed at most maxAttempts times |
| TaskRuns.EndsAndCancelsAreFinal | packages/storage/src/postgres-store.ts:993-1037 | an ended task never changes; one with a cancel request is never queued or claimed again |
| TaskRuns.LeaseIsRespected | packages/storage/src/postgres-store.ts:925-1088 | a running task changes only by its owner, by a cancel request that sets just the flag, or by a reclaim after its lease |
| TaskRuns.LostLeasesAreFenced | packages/storage/src/postgres-store.ts:925-1037 | whatever a worker without tasks and without new claims reports, the run ends as if it had kept silent |
| TaskRuns.DeliveredByItsAck | packages/storage/src/postgres-store.ts:1120-1131 | a delivered mark stems from an acknowledgement of that very generation while it was current and undelivered |
| TaskRuns.StaleAcksAreIgnored | packages/storage/src/postgres-store.ts:1120-1156 | after a task is put back, acknowledgements of its earlier generations change nothing, however late |
| TaskRuns.KeyedEnqueueIsIdempotent | packages/storage/src/postgres-store.ts:784-820 | a task stays findable under its key, and enqueueing under that key again changes nothing |
| TaskStore.Store.EnqueueTask | packages/storage/src/postgres-store.ts:784-820 | inserts task and outbox row, or answers with the task under the key; an empty key that collides is refused |
| TaskStore.Store.ClaimNextTask | packages/storage/src/postgres-store.ts:887-910 | claims the oldest due task of the wanted kinds that nobody holds, and nothing exactly when there is none |
| TaskStore.Store.ClaimTaskById | packages/storage/src/postgres-store.ts:912-923 | claims exactly when the task is queued and due |
| TaskStore.Store.HeartbeatTask | packages/storage/src/postgres-store.ts:925-948 | the owner, and only the owner, extends its lease; everyone learns of a cancel request |
| TaskStore.Store.CompleteTask | packages/storage/src/postgres-store.ts:950-958 | succeeds exactly for the owner of a running task |
| TaskStore.Store.FailTask | packages/storage/src/postgres-store.ts:960-991 | puts back with a new dispatch generation exactly when retryable, attempts are left and no cancel was asked |
| TaskStore.Store.RequestTaskCancel | packages/storage/src/postgres-store.ts:993-1025 | cancels a queued task, flags a running one, refuses an ended or foreign one |
| TaskStore.Store.MarkTaskCancelled | packages/storage/src/postgres-store.ts:1027-1037 | ends the task exactly for its owner |
| TaskStore.Store.ReclaimExpiredLeases | packages/storage/src/postgres-store.ts:1039-1088 | ends or puts back every task whose lease ran out and that nobody holds, and lists each under its outcome |
| TaskStore.Store.MarkTaskDispatched | packages/storage/src/postgres-store.ts:1120-1131 | marks exactly the current, undelivered generation |
| TaskStore.Store.RecordTaskDispatchFailure | packages/storage/src/postgres-store.ts:1132-1143 | counts a failure of the current, undelivered generation only |
| TaskStore.Store.RetryAdminTask | packages/storage/src/postgres-store.ts:2039-2058 | puts a failed task of the four kinds back with a fresh start and a new generation |
| RenderSafety.ConsumedOnce | packages/server/src/services/captions.ts:124-185 | under every interleaving a quote is consumed if and only if a reservation for it exists; then there is one only, of the quoted cost, for the consuming task, which no other reservation uses |
| RenderSafety.AllOrNothing | packages/server/src/services/captions.ts:124-185 | a start leaves a new active task, a reservation of the approved cost and a consumed quote together, or changes none of the tables |
| RenderSafety.EveryRunKeepsInv | packages/server/src/services/captions.ts:124-185 | in every reachable state reservations, consumed quotes and export tasks match one to one |
| RenderService.RenderStore.WriteRender | packages/server/src/services/captions.ts:162-185 | enqueue, reserve and consume in order reach the specified state, and a failure rolls all three back |
| RenderService.RenderStore.ConsumeQuote | packages/storage/src/postgres-store.ts:1193-1214 | wins exactly for an open, unexpired quote of the workspace; otherwise tells why, writing only the expired mark |
| RenderService.RenderStore.CountActiveRenderTasks | packages/storage/src/postgres-store.ts:879-884 | counts the queued and running exports of the workspace |
| Segmentation.BestRangesAreOptimal | packages/core/src/segmentation.ts:93-182 | no segmentation within the word limit that avoids forbidden starts and hides no forced index is cheaper than the chosen one |
| Segmentation.ScanFindsMinimum | packages/core/src/segmentation.ts:110-162 | the inner scan finds the cheapest last page although it stops early at a forced index |
| Segmentation.CellIsLowerBound | packages/core/src/segmentation.ts:110-162 | no legal segmentation of a prefix costs less than its table cell |
| Segmentation.CellIsAttained | packages/core/src/segmentation.ts:164-179 | the back-pointers trace a legal segmentation of exactly that cost |
| Segmentation.BestRangesTile | packages/core/src/segmentation.ts:164-179 | the ranges tile all words and none has more than maxWordsPerPage, fallback or not |
| Segmentation.FallbackExactlyWhenInfeasible | packages/core/src/segmentation.ts:169-176 | the greedy fallback runs if and only if no legal segmentation exists, that is, an index is both forced and forbidden or forbidden indices fill a page |
| Segmentation.FeasibleHasSegmentation | packages/core/src/segmentation.ts:110-129 | that condition suffices for a legal segmentation |
| Segmentation.SegmentationIsFeasible | packages/core/src/segmentation.ts:110-129 | and it is necessary |
| Segmentation.SegmentWords | packages/core/src/segmentation.ts:93-182 | the two arrays, the loops and the backtrace compute the specified pages |
| Segmentation.PageEndBounds | packages/core/src/segmentation.ts:201-208 | a page ends no earlier than its last word, and before the next word starts unless its last word already reaches it |
| LineBreaking.LinesAreOptimal | packages/core/src/lines.ts:14-73 | no tiling into at most maxLines lines has less squared slack, overflow and line penalty, and none as cheap has fewer lines |
| LineBreaking.LinesTile | packages/core/src/lines.ts:14-73 | the lines tile all words with non-empty ranges, at most max(1, maxLines) of them |
| LineBreaking.CellIsLowerBound | packages/core/src/lines.ts:36-52 | no layout of a prefix into exactly k lines costs less than its cell |
| LineBreaking.CellIsAttained | packages/core/src/lines.ts:65-72 | the back-pointers trace a layout of exactly that cost |
| LineBreaking.PickIsCheapest | packages/core/src/lines.ts:54-63 | the chosen number of lines is the smallest among the cheapest |
| LineBreaking.BreakLines | packages/core/src/lines.ts:14-73 | the tables and loops compute the specified lines |
| Alignment.AlignTokens | packages/transcription/src/align.ts:24-78 | consumes every index of both sequences once and in order; its edits equal the distance and no alignment has fewer; a match pairs equal tokens, a substitution different ones |
| Alignment.WalkCostsAtLeast | packages/transcription/src/align.ts:38-59 | every alignment of two prefixes has at least as many edits as the recurrence |
| Alignment.FillMatrices | packages/transcription/src/align.ts:27-59 | the flat row-major matrices hold the distance and a cheapest direction in every cell |
| Alignment.FlatInjective | packages/transcription/src/align.ts:27-29 | different cells never share a slot of the flat arrays |
| TimedAlignment.AlignTextToTimedWords | packages/transcription/src/align.ts:92-146 | keeps every token; timings are monotonic and come from the anchors of a cheapest alignment, with the runs between anchors abutting and sharing their time evenly, moved only as far as predecessors push |
| TimedAlignment.PerfectTranscriptKeepsTimings | packages/transcription/src/align.ts:92-146 | tokens equal to an ordered timed reference keep exactly its timings |
| TimedAlignment.Interpolate | packages/transcription/src/align.ts:115-137 | anchors are kept, and every run without anchors fills the time up to the next one (60 ms a token at least), evenly to less than a millisecond |
| TimedAlignment.EnforceMonotonic | packages/transcription/src/align.ts:138-145 | a token starts at its own time or where its predecessor ends, whichever is later, and lasts to its own end or 20 ms |
| TimedAlignment.FreeWalkIsDiagonal | packages/transcription/src/align.ts:60-78 | an alignment without edits is the diagonal |
| Captions.ResegmentedIsIdempotent | packages/core/src/state.ts:56-77 | recomputing the pages twice is recomputing them once |
| Captions.CreatedIsConsistent | packages/core/src/state.ts:31-53 | a new state is what recomputing it would give, with no manual marks |
| Captions.ResegmentState | packages/core/src/state.ts:56-77 | the filters and sets of the method compute the specified pages and marks |
| Edits.PatchKeepsConsistent | packages/core/src/patch.ts:47-216 | any accepted request leaves pages equal to a recomputation and manual marks disjoint and naming existing words |
| Edits.StepIsSound | packages/core/src/patch.ts:54-208 | every single operation keeps what the final recomputation relies on |
| Edits.SplitTiming | packages/core/src/patch.ts:67-94 | splitting a word of at least 1 ms gives abutting pieces of at least 1 ms from its start to between its end and its end + k - 1 |
| Edits.SplitWord | packages/core/src/patch.ts:71-90 | the loop over tokens produces those pieces, the first keeping the id |
| Edits.ApplyPatchOps | packages/core/src/patch.ts:47-216 | the loop over operations computes the specified outcome, or the first fault with the index of its operation |
| EditTiming.SplitCanOverlap | packages/core/src/patch.ts:67-94 | three tokens in two milliseconds run into a word that follows directly |
| EditTiming.SilenceSuffices | packages/core/src/patch.ts:75-90 | a silence of one millisecond per extra token is enough for a split to fit |
| Qa.EvaluateCaptions | packages/core/src/qa.ts:7-104 | reports fidelity exactly when pages and lines tile the words in order with their texts and no page overlaps the next; the issues, at most 500, are those of lines and pages in order, with highest and average reading speed to one decimal |
| Qa.FidelityOfConsistentStates | packages/core/src/qa.ts:7-104 | recomputed pages are faithful if and only if no page runs into the next one |
| Qa.HistoryIsFaithful | packages/core/src/patch.ts:47-216 | after any sequence of accepted requests from a new state the captions are faithful whenever the words do not overlap |
| Qa.ConsistentIsPlayable | packages/core/src/state.ts:176-234 | pages of such a state meet what the timeline needs |
| Qa.FastestIsHighest | packages/core/src/qa.ts:51-53 | the reported speed before rounding is the highest of any page |
| Qa.PagesCoverWords | packages/core/src/qa.ts:111-118 | true exactly when each page starts where the one before ended and the last ends with the words |
| Timeline.PageAtMs | packages/core/src/state.ts:176-194 | the binary search finds the page containing the instant, and none exactly when no page does |
| Timeline.ActiveWordIndexAt | packages/core/src/state.ts:84-108 | the binary search finds the last started word while it lasts plus its grace |
| Timeline.VisualStates | packages/core/src/state.ts:207-234 | the states are ordered, apart, right at each of their instants, and cover exactly the instants of the pages |
| Timeline.PlanStates | packages/render/src/states.ts:32-61 | the timeline is contiguous and non-empty over the window, and at each instant its key is the one a lookup at that instant gives |
| Timeline.OneSegmentAt | packages/render/src/states.ts:32-61 | every instant of the window lies in exactly one segment |
| StylePatch.CoalescingIsExact | apps/web/src/lib/patch-queue.ts:26-35 | applying the coalesced patch equals applying both, on every style, if and only if no field set by the earlier patch alone is carried by the later one as undefined or belongs to a motion or emoji group the later one replaces |
| StylePatch.CoalescingIsExactOver | apps/web/src/lib/patch-queue.ts:26-35 | the same over the valid styles, or any others that leave each field the earlier patch sets a second value |
| StylePatch.SameEffectExactly | apps/web/src/lib/patch-queue.ts:26-35 | on one style: the effects are equal if and only if every such field already has the value the earlier patch sets |
| StylePatch.CoalescingValidated | packages/core/src/presets.ts:382-395 | with validation, one coalesced request ends as the two would when the first is accepted |
| StylePatch.PlainPatchesCoalesce | apps/web/src/lib/patch-queue.ts:26-35 | patches without undefined that do not both carry motion or both carry emoji meet the condition |
| StylePatch.LaterGroupReplacesEarlier | apps/web/src/lib/patch-queue.ts:28-33 | otherwise nothing the earlier patch set in motion or emoji survives |
| StylePatch.MotionEditIsLost | apps/web/src/lib/patch-queue.ts:28-33 | two motion edits in one debounce window, on any style with an entrance of 200 ms: the coalesced patch leaves 200 ms where the two patches in turn leave the 300 ms of the first |
| PatchProtocol.SendsAreSerialised | apps/web/src/lib/patch-queue.ts:135-154 | in every run of a sole writer at most one request is on the wire, it asserts the server version, and the server style is that of the accepted requests in push order, whatever the server makes of an edit |
| PatchProtocol.NothingAskedForIsLost | apps/web/src/lib/patch-queue.ts:77-154 | when the queue is idle and nothing was rejected, the server style is every edit applied in call order, provided pending styles coalesced without loss and whatever the other edits do to the style |
| PatchProtocol.ClientKeepsChain | apps/web/src/lib/patch-queue.ts:77-154 | requests settle in push order, the in-flight count is the number unsettled, a timer runs exactly while style is pending, a disposed queue holds none |
| PatchClient.PatchQueue.Style | apps/web/src/lib/patch-queue.ts:77-85 | a style call coalesces into the pending patch and restarts the timer, unless disposed |
| PatchClient.PatchQueue.Enqueue | apps/web/src/lib/patch-queue.ts:88-93 | pending style goes first in the same request |
| PatchClient.PatchQueue.FlushStyle | apps/web/src/lib/patch-queue.ts:96-100 | the pending style is pushed on its own, if there is one |
| PatchClient.PatchQueue.TimerElapsed | apps/web/src/lib/patch-queue.ts:81-84 | when the debounce window is over the pending style is flushed |
| PatchClient.PatchQueue.Dispose | apps/web/src/lib/patch-queue.ts:114-125 | the pending style is pushed with keepalive, and later edits are ignored |
| PatchClient.PatchQueue.StartJob | apps/web/src/lib/patch-queue.ts:138-142 | a link asserts the version known when it runs |
| PatchClient.PatchQueue.OnAccepted | apps/web/src/lib/patch-queue.ts:142-151 | the new version is adopted; idle is reported exactly when everything settled and nothing is pending |
| PatchClient.PatchQueue.OnRejected | apps/web/src/lib/patch-queue.ts:143-151 | the version is kept and the queue goes on |
| RateLimit.WindowIsBounded | packages/server/src/auth/ratelimit.ts:23-45 | for every usable limiter, sweeping or not, the cost let through for a key between two requests is at most a full bucket and what is earned between them, at the refill rate or, with sweeping, at a full bucket in 600001 ms if that is faster |
| RateLimit.RefillBoundsExactly | packages/server/src/auth/ratelimit.ts:23-45 | the refill rate alone bounds every run of the sweeping limiter if and only if 600001 ms of refill fill an empty bucket |
| RateLimit.HourlyLimitersRefillSooner | packages/server/src/auth/ratelimit.ts:58-65 | the previews and uploads limiters earn a full bucket in 600001 ms instead of an hour |
| RateLimit.RetryAfterIsExact | packages/server/src/auth/ratelimit.ts:31-38 | a refused request whose cost a full bucket covers passes, retried alone, exactly from retryAfterMs on |
| RateLimit.ResetIsExact | packages/server/src/auth/ratelimit.ts:32-36 | after an accepted request the bucket is full exactly from resetMs on |
| RateLimit.SweepingIsInvisibleExactly | packages/server/src/auth/ratelimit.ts:41-45 | sweeping changes no decision of any run if and only if 600001 ms of refill fill an empty bucket |
| RateLimit.HourlyLimitersAreReset | packages/server/src/auth/ratelimit.ts:58-65 | the api and anonymous limiters meet that condition, the previews and uploads limiters do not |
| RateLimiter.TokenBucketLimiter.Take | packages/server/src/auth/ratelimit.ts:23-39 | the method reaches the specified buckets and answers with the specified decision |
| RateLimiter.TokenBucketLimiter.Sweep | packages/server/src/auth/ratelimit.ts:41-45 | the deleting loop leaves exactly the buckets used in the last ten minutes |
| Billing.RunBooks | packages/server/src/services/billing.ts:93-187 | each workspace is granted the sum over the distinct successful payments delivered for it, and the ledger invariant holds |
| Billing.CreditsIgnoreOrder | packages/server/src/services/billing.ts:93-187 | the same events in any order and with any repetition grant the same credits |
| BillingService.Webhooks.ProcessWebhook | packages/server/src/services/billing.ts:93-187 | the ordered store writes reach the specified books; a duplicate changes nothing |
| BillingService.Webhooks.RecordBillingEvent | packages/storage/src/postgres-store.ts:1612-1636 | an event is recorded once, and later deliveries are told so |
| Normalize.NormalizingKeepsText | packages/core/src/normalize.ts:31-85 | no visible character is dropped, added or moved, and no word is empty |
| Normalize.CleanIsTrimmed | packages/core/src/normalize.ts:36 | cleaned text has single blanks inside and none at its ends |
| Normalize.ChunksConcat | packages/core/src/normalize.ts:44-45 | a long token is cut into pieces of at most 120 characters that make it up again |
| Normalize.NormalizedIsSpaced | packages/core/src/normalize.ts:58-85 | words come out ordered and apart, of the minimum length, or within the media when it has a millisecond for each |
| Normalize.GoodTimesAreKept | packages/core/src/normalize.ts:60-83 | times that need no repair are kept as they are |
| Normalize.FittingIsExact | packages/core/src/normalize.ts:92-114 | words that run past the media are compressed into it, each at least 1 ms long and none lost, if and only if it has a millisecond for each |
| Normalize.FittingTwice | packages/core/src/normalize.ts:92-114 | fitting again changes nothing |
| Normalize.RepairIsExact | packages/core/src/normalize.ts:117-127 | repair spaces the words, and changes nothing if and only if they were spaced |
| Normalize.RepairOfNormalized | packages/core/src/normalize.ts:117-127 | repairing a normalized transcript changes nothing |
| Normalizer.NormalizeWords | packages/core/src/normalize.ts:31-85 | the merging and timing loops compute the specified words |
| Normalizer.FitToDuration | packages/core/src/normalize.ts:92-114 | the compression loop computes the specified words |
| Normalizer.RepairTimings | packages/core/src/normalize.ts:117-127 | the repair loop computes the specified words, spaced |
| Wav.RoundTrip | packages/transcription/src/audio.ts:184-236 | reading what was written gives the same samples and rate and one channel, for all samples and rates whose sizes fit 32 bits |
| Wav.ForeignChunksDoNotMatter | packages/transcription/src/audio.ts:195-209 | a padded unknown chunk at any chunk boundary before the data does not change what is read |
| Wav.ParsesSuffix | packages/transcription/src/audio.ts:195-209 | reading from a chunk boundary looks at nothing before it |
| WavCodec.EncodeWav | packages/transcription/src/audio.ts:218-236 | the writes into the buffer produce the specified file, refused exactly when a size does not fit its field |
| WavCodec.ParseWav | packages/transcription/src/audio.ts:184-215 | the chunk loop computes the specified result, errors included |
| RenderLimit.ActiveRendersWithinLimit | packages/server/src/services/captions.ts:139-147 | under every interleaving, plan changes included, queued and running exports of any workspace never exceed the most its plan allowed during the run, nor what it allows now unless it was lowered |
| RenderLimit.RowIsAlwaysThere | packages/storage/src/postgres-store.ts:169-188 | whoever starts a render works in a workspace whose billing row exists, since the row is inserted with the workspace |
| RenderLimit.UnlockedStartsExceedLimit | packages/storage/src/postgres-store.ts:871-884 | why the row is locked: without one, two starts that both count before either commits both go through and exceed the limit, whatever they cost, if the unexpired pools cover both |
| Billing.LatestEventWins | packages/storage/src/postgres-store.ts:1566-1599 | the stored event time never goes back and is the latest of all applied ones; plan and status are those of an event of that time, or unchanged when no event is new enough |
| Billing.EventTimeIgnoresOrder | packages/storage/src/postgres-store.ts:1566-1599 | the same new events in any order and with any repetition leave the same event time |
| BillingOrder.OrderShowsExactly | packages/storage/src/postgres-store.ts:1566-1599 | all orders of delivery leave the same plan and status if and only if the latest subscription events, when not older than the row, agree on them |
| Billing.UpsertsCommuteExactly | packages/storage/src/postgres-store.ts:1566-1599 | two updates of a row commute if and only if they are the same, differ in time, or are both older than the row |
| BillingService.Webhooks.UpsertBillingAccount | packages/storage/src/postgres-store.ts:1566-1599 | an update older than the row changes nothing, any other is stored as it is, other workspaces are untouched, and the time is at least that of row and update |
| TaskRuns.LeaseLastsThroughRuns | packages/storage/src/postgres-store.ts:887-948 | mutual exclusion over runs: from a claim or heartbeat on, nothing others do until the lease is over takes the task from its worker, and a reclaim takes it exactly after that |
| TaskRuns.BackoffIsWaitedOut | packages/storage/src/postgres-store.ts:960-991 | a failed task put back stays queued for its due time, or is cancelled, over any run whose claims come before the backoff is over; its new dispatch generation is due then |
| Captions.MarksRespectedExactly | packages/core/src/state.ts:56-77 | in a recomputed state every manual break starts a page and no manual join does, if and only if no maxWordsPerPage words in a row are joined |
| Edits.MergeCanBeIgnored | packages/core/src/patch.ts:155-165 | a merge that is accepted and has no effect: with one word to a page the joined word still starts a page |
| Segmentation.RespectedExactly | packages/core/src/segmentation.ts:110-179 | when nothing is both forced and forbidden, forced words start pages and forbidden ones do not, if and only if no page worth of words in a row is forbidden |
| Edits.StyleBlocksResegment | packages/core/src/patch.ts:166-197 | after a style has set line limits a resegment without changes is accepted if and only if maxLines * maxCharsPerLine is at least 12 |
| Edits.RoundRatioIsRound | packages/core/src/patch.ts:79 | the integer rounding used for shares is Math.round of the quotient |
| Alignment.DistanceFitsCell | packages/transcription/src/align.ts:28-29 | no distance exceeds the longer sequence, so the 32-bit cells cannot wrap |
| EditTiming.EditKeepsOrder | packages/core/src/patch.ts:67-142 | an accepted operation keeps words ordered and apart if and only if, when it splits a word, the shares of all tokens but the last, and 1 ms, end before the next word starts |
| EditTiming.FitsWrittenOut | packages/core/src/patch.ts:73-90 | that condition as an inequality over word, tokens and next start: start + sum of max(1, round(span * length / total)) over all tokens but the last + 1 <= next start |
| EditFidelity.FittingHistoryIsFaithful | packages/core/src/patch.ts:47-216 | from a new state with ordered words, any history of requests whose splits leave room ends with ordered words and faithful captions |
| LineOverflow.StaysWithinExactly | packages/core/src/lines.ts:1-6 | the chosen lines keep within the limit if and only if some layout without overflow, of at most maxLines lines, is preferred over every layout with an overflowing line: cheaper, or as cheap with fewer lines, or with lines that start earlier from the end |
| LineOverflow.LinesArePreferred | packages/core/src/lines.ts:36-72 | the chosen layout is the one preferred over all others of at most maxLines lines, ties included |
| LineOverflow.CheapFitSuffices | packages/core/src/lines.ts:38-63 | a layout without overflow whose squared slack plus four per extra line is below 40 rules overflow out |
| LineOverflow.OverflowCosts | packages/core/src/lines.ts:41-45 | a layout with an overflowing line costs at least 40 |
| LineOverflow.OverflowThoughItFits | packages/core/src/lines.ts:1-6 | two words of five characters fit on two lines of ten, and are put on one line of eleven |
| LineOverflow.FirstLineOverflows | packages/core/src/lines.ts:1-6 | words of twelve and one characters: the first line overflows, the last does not |
| RenderSafety.StartedAsQuoted | packages/server/src/services/captions.ts:124-185 | under every interleaving with edits, re-created quotes and other starts, the project of a start that commits still has the version and content hash it was quoted for |
| BillingOrder.FieldOrderExactly | packages/server/src/services/billing.ts:114-187 | for each field of the account: all orders of delivering a set of new events leave the same value if and only if the latest events that set it agree on it, or none of the latest sets it and every event that counts and sets it sets what the row already has |
| BillingOrder.RowOrderExactly | packages/server/src/services/billing.ts:114-187 | all orders leave the same row if and only if this holds of every field |
| BillingOrder.FieldShowsOrder | packages/server/src/services/billing.ts:114-187 | otherwise there are two orders that leave the field different |
| BillingOrder.PeriodEndShowsOrder | packages/server/src/services/billing.ts:114-142 | events at different times: a membership event without period end keeps the earlier one only when it arrives second |

## Left out

- Segmentation.SegmentWords: costs are exact reals and boundary scores an arbitrary function; IEEE rounding of costs is not modelled.
- Normalizer.NormalizeWords: a time that is not finite is one value (not a number); infinities are not told apart, and confidence and language fields are not modelled.
- TimedAlignment.AlignTextToTimedWords: the text arrives as tokens; splitting it at white space is not modelled.
- Edits.ApplyPatchOps: replacement text arrives as tokens, and its splitting at white space is not modelled.
- CreditStore.Store.SettleReservation: pools are numbered by creation, so the order by pool id is creation order here, while real ids are random.
- CreditStore.Store.GrantCredits: notes and the kinds of ledger entries other than grant are not modelled; derived keys such as `reserve:<quote>` are values of their own, apart from keys clients choose.
- TaskStore.Store.ClaimNextTask: of equally old tasks the first row is taken; the database may take any.
- TaskStore.Store.HeartbeatTask: progress, stage, results, errors and updated_at are not modelled.
- RenderLimit.ActiveRendersWithinLimit: a plan that is lowered may leave more renders active than it allows from then on, so the bound is the highest limit of the run.
- PatchProtocol.SendsAreSerialised: a rejected send is one the server did not apply; a response lost after the server has applied the request is not modelled, and would leave the client with an old version.
- RenderService.RenderStore.WriteRender: the audit entry, the snapshot stored as task input and the checks for a ready source and transcript are not modelled; they can only make a start fail, which the model covers as an abort.
- PatchProtocol.NothingAskedForIsLost: it is about the style; that a coalesced patch may set segmentation limits once instead of twice is not modelled.
- RenderSafety.StartedAsQuoted: the edit of a project and the invalidation of its quotes are one step, as in their transaction; deleting a project, which also invalidates its quotes, is modelled by that invalidation alone.
- RateLimit.WindowIsBounded: clocks do not go back and costs are not negative.
- BillingService.Webhooks.ProcessWebhook: signature checks, payload parsing, attribution and audit calls are not modelled; an event arrives with the fields its branch reads.
- WavCodec.ParseWav: reading the file from disk is not modelled.
- String lengths count characters, where JavaScript counts UTF-16 code units.
- The visual lead and dwell lookups of `state.ts` and the animated layout: floating-point layout with an injected measurer.
- SQL text, connection pools, migrations, and the SQLite repositories: only guarded updates, row locks and declared constraints are kept.
- Worker loop, HTTP routes, MCP widgets, authentication, object stores, ffmpeg and rendering: foreign calls, I/O or UI.
- Word lists behind boundary scores, emoji rules, presets and prices: tables.
- Hashes, id encoding, pricing and the render-flow reducer: they would only add easy members.
