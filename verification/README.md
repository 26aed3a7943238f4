# Verified model of the field-service apps' client-side cores

This project models, in Dafny 4.11, the parts of the repository whose
correctness depends on state, interleaving or arithmetic, and proves properties
of them over all inputs and all runs. `dafny verify dfyconfig.toml` checks it.

## What is modelled

**The technician app's offline write queue** (`WriteQueueCore.dfy`,
`WriteQueue.dfy`, `WriteQueueMeaning.dfy`, `WriteQueueSystem.dfy`,
`WriteQueueConvergence.dfy`, `WriteQueueDelivery.dfy`, `WriteQueueRefusal.dfy`,
`JobCards.dfy`). Job-card
patches, photos and signatures go into one persisted list; patches of one
booking are merged in place, a newer signature replaces an older one, the list
holds at most 200 entries. `WriteQueue.Device` is the runtime with its flush
loop: it sends a snapshot while the rest of the app keeps changing the list, and
reconciles at the end. `WriteQueueSystem` is the same device beside a server, as
a machine of atomic steps: an enqueue, a drop, a direct save, the start of a
flush, one reply, the closing re-read and merge and write, and a crash. A send
may be applied by the server and still be reported as failed. The server side
(`JobCards`) is what the API's job-card upsert does with a patch it accepts:
plain fields are replaced, `readings` are shallow-merged, `checklist` entries
are merged answer by answer. Whether it accepts one is the reply, a parameter;
`WriteQueueRefusal` takes the server that validates bodies as the API does.

**Job-card forms** (`JobCardForm.dfy`, `Checklist.dfy`, `Text.dfy`): the mapping
between form and wire, checklist answers, missing items, progress and readings.

**Quotation arithmetic** (`QuoteMath.dfy`), **rupee amounts** (`Money.dfy`), the
**location ping queue** (`LocationQueue.dfy`), **token refresh**
(`TokenRefresh.dfy`), the **customer app's offline queue** (`OfflineQueue.dfy`),
the **website's rate limiter** (`RateLimit.dfy`) and **notification failover**
(`Failover.dfy`).

Network replies, the clock, identifiers, connectivity and what other code does
during an await are parameters: a result holds for every choice of them.

## Where the code and its documentation differ

The model follows the code.

- Coalescing (write-queue-core.ts:7-8, 63) replaces `readings` and `checklist`
  as a whole, while the server merges them. A reading in an earlier queued patch
  and absent from a later one never reaches the server.
  `JobCards.CoalescingIsExactIffCovered` says exactly when this cannot happen to
  two patches, `WriteQueueConvergence.ConvergenceIff` to all patches of a
  booking over all runs, and `JobCardForm.AnsweringIsCovered` that adding or
  changing answers is safe.
- The cap (write-queue-core.ts:4-5) cuts the entry at the front of the list,
  which is not always the oldest edit: a merged patch keeps its old place. The
  newest edit can be cut before 199 older photos:
  `WriteQueueMeaning.NewestEditIsCutFirst`.
- Dropping a queued patch after a direct save is meant to keep a stale patch
  from overwriting it (write-queue.ts:65). A flush in flight has its own
  snapshot: `WriteQueueDelivery.DropProtectsDirectSaveIff`.
- `classifyFailure` says a write without HTTP status stops the flush
  (write-queue-core.ts:85-86) and that anything else is dropped after five
  attempts. Only network errors stop it: `WriteQueueSystem.LoopStopsIff`, and
  `StatuslessErrorGoesOn` for a reply that does not. A status-less error is
  never given up: `WriteQueueSystem.NothingDroppedWithoutStatus`.
- The rate limiter's `limit` is "max requests in `windowMs`"
  (rate-limit.ts:31). An interval of that length across a reset sees up to
  `2 * limit - 1`: `RateLimit.SlidingLimitIff`.
- The customer queue promises at-most-once delivery and a drop after 5 attempts
  (offline-queue.ts:15, 102). A request is dropped at its sixth failure. A call
  whose answer was lost is made again, and so is one whose outcome the app did
  not live to persist: `OfflineQueue.AtMostOnceIff`, with runs that deliver
  twice in `DeliveredTwice` and as often as the bound allows in `BoundIsReached`.
- A cleared checklist answer is meant to be gone (jobcard-logic.ts:139). The
  server only ever adds answers, so it comes back at the next load:
  `Checklist.ClearedAnswerComesBack`.
- The app's full patch carries `firstTimeFix`, which the API's body has not
  (job-card.dto.ts:61-143) and its validation forbids (main.ts:61-68). Every full
  save is refused, nothing of the booking reaches its card meanwhile, and after
  five refusals the queue gives up the patch with all that was merged into it:
  `WriteQueueRefusal.NeverGivenUpIff`, `SavedFormsAreGivenUp` and
  `CardStaysWhileRefused`. The results about saved cards say what the upsert
  does with the fields it knows.
- Loading a job card gives well-formed parts unless a stored quantity lies
  strictly between 0 and 1, which is floored to 0 and becomes 1 on the next
  load: `JobCardForm.SaveCyclesSettle`.
- `minorToRupeesInput` is called the inverse of `rupeesToMinor` (money.ts:33);
  it drops the sign: `Money.MoneyRoundTripIff`.
- A success callback that throws after a delivery, or a transport that delivers
  and then times out, makes the failover loop try the next provider:
  `Failover.DeliveredOnceIff`, and `DeliveredTwice` for a message delivered twice.

## Model

| member | source | states |
|---|---|---|
| JobCards.CoalescingIsExactIffCovered | apps/technician-app/src/lib/write-queue-core.ts:60-65 | one merged patch means the same to the merging server as the two patches, on every card, iff the later one carries again every reading and answer of the earlier that it displaces |
| JobCards.CoalescingCanLoseAReading | apps/api/src/modules/repair/job-cards/job-cards.service.ts:129-134 | a concrete pair of patches whose merge leaves another card than the two saves |
| JobCards.MergeEffect | apps/technician-app/src/lib/jobcard-logic.ts:313-316 | a merged patch writes only cells one of the two writes, the later one's values winning, and never loses a plain field |
| JobCards.MergeIsOverride | apps/api/src/modules/repair/domain/checklist.ts:86-101 | merging checklists entry by entry and answer by answer is overriding the stored cells by the incoming ones, last writer winning |
| JobCards.ChecklistComesBackIff | apps/api/src/modules/repair/domain/checklist.ts:86-101 | a saved checklist is stored as sent iff it has one entry per template, lists the stored templates first in their order, and answers again everything answered before |
| WriteQueueCore.AppendKeepsWellFormed | apps/technician-app/src/lib/write-queue-core.ts:54-79 | appending keeps ids distinct, one patch and one signature per booking, creation order and the cap of 200 |
| WriteQueueCore.DrainParts | apps/technician-app/src/lib/write-queue.ts:72-97 | draining a well-formed queue leaves each booking with the pending patch applied, the pending photos attached in order and the pending signature |
| WriteQueueMeaning.CoalescingPreservesMeaning | apps/technician-app/src/lib/write-queue-core.ts:54-79 | under the cap, draining the coalesced queue equals replaying the uncoalesced log for every starting server state, iff merging all logged patches of the booking into one loses no reading and no answer of any of them |
| WriteQueueMeaning.PendingIsMergeAll | apps/technician-app/src/lib/write-queue-core.ts:58-66 | what the queue holds for a booking is all its logged patches merged into one, in order |
| WriteQueueMeaning.DrainedPhotosAndSignature | apps/technician-app/src/lib/write-queue-core.ts:67-74 | photos in order and the last signature survive coalescing without any condition |
| WriteQueueMeaning.NewestWritesAreKept | apps/technician-app/src/lib/write-queue-core.ts:54-79 | for every log, the queue holds exactly the newest 200 writes in order at every moment, iff no patch of a booking comes within 200 writes of another and no signature within 199 |
| WriteQueueMeaning.RemovedIff | apps/technician-app/src/lib/write-queue-core.ts:54-79 | an entry leaves at an append iff it is the signature replaced, or the first one and the list would grow past 200 |
| WriteQueueMeaning.NewestEditIsCutFirst | apps/technician-app/src/lib/write-queue-core.ts:58-79 | with the cap reached and a booking's patch in front, an edit of it is cut by the next photo, before the 199 older writes, and nothing of the card stays queued |
| WriteQueue.ReconcileExact | apps/technician-app/src/lib/write-queue.ts:122-132 | the merge is the re-read list without exactly the unchanged, unkept snapshot entries, in order; an entry kept by the loop carries the retry counter the loop gave it, every other its own |
| WriteQueue.Device.EnqueueWrite | apps/technician-app/src/lib/write-queue.ts:60-63 | the stored list becomes the appended and trimmed one |
| WriteQueue.Device.DropQueuedJobCardPatch | apps/technician-app/src/lib/write-queue.ts:66-70 | the booking's patch leaves the stored list, every other entry stays in its order, and the list is written only if it changed |
| WriteQueue.Device.DoFlush | apps/technician-app/src/lib/write-queue.ts:99-135 | the flush loop, with arbitrary enqueues and drops during every await, refines the recursive specification of a flush, result counts included |
| WriteQueue.FlushReports | apps/technician-app/src/lib/write-queue.ts:99-135 | a flush reports as flushed the entries accepted before the loop stopped, as dropped those that met an HTTP status other than 404 with four attempts behind them, and as remaining the length of the list it leaves |
| WriteQueue.Device.FlushWriteQueue | apps/technician-app/src/lib/write-queue.ts:138-143 | a call during a flush gets the unsettled promise of that flush and starts nothing; otherwise it starts one flush |
| WriteQueue.Device.CompleteFlush | apps/technician-app/src/lib/write-queue.ts:138-143 | the flush in flight runs once, its result settles that one promise for every caller who got it, and the way is free for the next |
| WriteQueue.FlushIsARun | apps/technician-app/src/lib/write-queue.ts:99-135 | that specification is a run of the protocol's atomic steps |
| WriteQueueSystem.DeviceFlushIsARun | apps/technician-app/src/lib/write-queue.ts:99-143 | a whole flush of the device is a run of the system, so the whole-run theorems speak of it |
| WriteQueueSystem.StepKeepsSound | apps/technician-app/src/lib/write-queue.ts:60-135 | every step keeps the stored list, the snapshot and the kept entries well formed, the flush's books balanced, and attempts within the failures counted |
| WriteQueueSystem.ReachableIsSound | apps/technician-app/src/lib/write-queue.ts:60-135 | all of that holds in every reachable state |
| WriteQueueSystem.FlushReconciliation | apps/technician-app/src/lib/write-queue.ts:120-133 | at the end of a flush an entry disappears iff it stands in the snapshot unchanged and was sent or given up; order, contents and the retry counters of all others are stated |
| WriteQueueSystem.GiveUpRule | apps/technician-app/src/lib/write-queue.ts:115-117 | an entry is given up iff an HTTP status other than 404 meets four attempts, and its id has then had at least five counted failures |
| WriteQueueSystem.FailuresCounted | apps/technician-app/src/lib/write-queue.ts:106-118 | the failures counted for an id are the replies to its entry that were errors other than of the network or a 404 |
| WriteQueueSystem.CountingRule | apps/technician-app/src/lib/write-queue.ts:106-118 | network errors and 404s keep an entry as it is, any other failure raises its attempts by one |
| WriteQueueSystem.LoopStopsIff | apps/technician-app/src/lib/write-queue.ts:104-119 | whatever else happens meanwhile, the loop goes on sending until the snapshot is used up or a reply was a network error, and only then |
| WriteQueueSystem.NothingDroppedWithoutStatus | apps/technician-app/src/lib/write-queue.ts:115-116 | in every run without an HTTP error reply no flush gives anything up, however many sends fail |
| WriteQueueSystem.StatuslessErrorGoesOn | apps/technician-app/src/lib/write-queue-core.ts:85-91 | a reachable flush that goes on sending after an error without HTTP status |
| WriteQueueSystem.FlushAccounting | apps/technician-app/src/lib/write-queue.ts:100-119 | on every exit of the loop flushed, dropped and kept add up to the snapshot |
| WriteQueueConvergence.CellStep | apps/technician-app/src/lib/write-queue.ts:60-143 | every step moves the server's cell overridden by the pending patch exactly as the replay of the enqueued patches moves |
| WriteQueueConvergence.ConvergenceIff | apps/technician-app/src/lib/write-queue.ts:60-143 | for every sequence of patches of a booking: over all servers and all undisturbed runs that enqueue it, the card overridden by the pending patch is the replay of the sequence, iff merging the sequence into one patch loses no reading and no answer |
| WriteQueueConvergence.PlainPatchIsFree | apps/technician-app/app/signature/[id].tsx:71-74 | a patch of plain fields, such as the customer's remarks, changes nothing about that condition wherever it stands |
| WriteQueueConvergence.JobCardConverges | apps/technician-app/src/lib/write-queue.ts:60-143 | a run in which each coalesced patch covers the queued one converges even if its whole sequence would not; with nothing pending the card is the replay |
| WriteQueueConvergence.PlainFieldConverges | apps/technician-app/src/lib/write-queue.ts:60-143 | fields the server replaces converge with no condition on the patches |
| WriteQueueDelivery.SignatureConverges | apps/technician-app/src/lib/write-queue-core.ts:67-73 | in every run the pending signature, or else the server's, is the one enqueued last |
| WriteQueueDelivery.NoPhotoLost | apps/technician-app/src/lib/write-queue.ts:77-89 | in every run without loss a photo is attached or still to be sent at least as often as it was enqueued |
| WriteQueueDelivery.PhotosExactlyOnceIff | apps/technician-app/src/lib/write-queue.ts:77-133 | in every run without loss exactly as often, iff no send of this photo was applied without the app learning it and the app was not killed between the photo's reply and the end of its flush |
| WriteQueueDelivery.PhotosExactlyOnce | apps/technician-app/src/lib/write-queue.ts:77-133 | in particular if no answer is lost and the app is not killed at all |
| WriteQueueDelivery.PhotoAttachedTwice | apps/technician-app/src/lib/write-queue.ts:106-112 | with one answer lost a photo enqueued once is attached twice |
| WriteQueueDelivery.AboutToSendIsReachable | apps/technician-app/src/lib/write-queue.ts:60-105 | the state that run starts from is reached by one enqueue and the start of a flush |
| WriteQueueDelivery.DropProtectsDirectSaveIff | apps/technician-app/src/lib/write-queue.ts:65-70 | after a direct save and a drop the card stays as saved in every continuation without new edits, iff no flush in flight holds an unsent patch that would change it |
| WriteQueueDelivery.StaleDraftOverwritesDirectSave | apps/technician-app/src/lib/write-queue.ts:65-70 | from a reachable state, a queued draft overwrites the directly saved final version after the drop |
| WriteQueueDelivery.OvertakenIsReachable | apps/technician-app/src/lib/write-queue.ts:60-106 | that state is reached by one enqueue and the start of a flush |
| JobCardForm.FormFixedPointIff | apps/technician-app/src/lib/jobcard-logic.ts:66-129 | saving a form over a stored card, loading and saving again sends the same patch, for clean chips and well-formed parts, iff its checklist has one entry per template and carries on the stored one, and its `firstTimeFix` is the stored one |
| JobCardForm.SentFields | apps/technician-app/src/lib/jobcard-logic.ts:108-129 | each of the four text fields is sent as nothing iff blank, and else as the text with only white space taken from its ends, starting and ending with a printing character; codes, photos, checklist, parts and chips are the form's |
| JobCardForm.LoadedFields | apps/technician-app/src/lib/jobcard-logic.ts:66-84 | a form loaded from the saved card shows the texts, photos, codes, chips and note lines sent, and off no card nothing |
| JobCardForm.SaveIsApply | apps/api/src/modules/repair/job-cards/job-cards.service.ts:129-149 | the server's save, field by field, is the override of the stored card's cells by those of the patch's known part; `firstTimeFix` stays as stored |
| WriteQueueRefusal.FormPatchesAreRefused | apps/api/src/modules/repair/job-cards/dto/job-card.dto.ts:61-143 | every full patch is unacceptable to the API's body, for `firstTimeFix` alone |
| WriteQueueRefusal.AcceptsMergeAllIff | apps/technician-app/src/lib/write-queue-core.ts:58-66 | patches merged into one are acceptable iff each of them is |
| WriteQueueRefusal.NeverGivenUpIff | apps/technician-app/src/lib/write-queue.ts:99-135 | with a validating server, over all servers and all runs that enqueue a sequence of patches for a booking, no patch of it is given up, iff every patch of the sequence is acceptable |
| WriteQueueRefusal.AcceptedPatchesAreKept | apps/technician-app/src/lib/write-queue.ts:60-135 | acceptable patches are never given up, also in runs with drops, direct saves and cuts at the cap |
| WriteQueueRefusal.SavedFormsAreGivenUp | apps/technician-app/src/lib/write-queue.ts:99-135 | a sequence with a saved form in it has a run that gives its patches up, whatever else it holds |
| WriteQueueRefusal.CardStaysWhileRefused | apps/technician-app/src/lib/write-queue.ts:60-135 | from a state with an unacceptable pending patch and no acceptable one left in flight, the card stays as it is in every run until the patch is given up, whatever is enqueued later |
| JobCardForm.LoadedFormIff | apps/technician-app/src/lib/jobcard-logic.ts:51-84 | a loaded form has clean chips; its parts are well formed iff no stored quantity lies strictly between 0 and 1 |
| JobCardForm.SaveCyclesSettle | apps/technician-app/src/lib/jobcard-logic.ts:51-129 | the second save repeats the first iff no such quantity is stored, and the third always repeats the second |
| JobCardForm.HalfAPartDrifts | apps/technician-app/src/lib/jobcard-logic.ts:56 | a stored quantity of one half loads as 0 and, saved and loaded again, as 1 |
| JobCardForm.PartIs | apps/technician-app/src/lib/jobcard-logic.ts:51-64 | a value is read as a part iff it is an object with a non-empty name, or stock number where the name is no text; a positive quantity is floored, any other is 1, the rest is read where it has the right type |
| JobCardForm.PartRoundTripIff | apps/technician-app/src/lib/jobcard-logic.ts:51-64 | a part survives the wire iff it has a name and a whole positive quantity |
| JobCardForm.SymptomsReadBack | apps/technician-app/src/lib/jobcard-logic.ts:68-71 | chips followed by prefixed note lines are separated into the same chips and lines again |
| JobCardForm.NotesReadBack | apps/technician-app/src/lib/jobcard-logic.ts:111-115 | notes joined from sent lines split, trim and filter into the same lines |
| JobCardForm.AnsweringIsCovered | apps/technician-app/src/lib/jobcard-logic.ts:140-156 | the patch of a form with one answer set covers the patch before it, so coalescing the two loses nothing |
| Checklist.GetAfterSet | apps/technician-app/src/lib/jobcard-logic.ts:131-156 | what is set is read back and every other answer is unchanged |
| Checklist.AnswerAfterSave | apps/api/src/modules/repair/domain/checklist.ts:81-101 | after a save every item answered reads as sent and every other as it was stored |
| Checklist.ClearedAnswerComesBack | apps/technician-app/src/lib/jobcard-logic.ts:139-156 | clearing any stored answer and saving brings it back |
| Checklist.TextAnswersIff | apps/technician-app/src/lib/jobcard-logic.ts:165-168 | a text or photo answers iff it is not all white space |
| Checklist.FindMissingRequired | apps/technician-app/src/lib/jobcard-logic.ts:180-200 | the nested loops compute the list that MissingExactly describes |
| Checklist.MissingExactly | apps/technician-app/src/lib/jobcard-logic.ts:180-200 | the list names exactly the required items without a valid answer, each with its five fields, in the order of templates and then of items |
| Checklist.ValidAnswerIff | apps/technician-app/src/lib/jobcard-logic.ts:158-173 | a valid answer is a truth value, a finite number, or a text or photo that is not blank, each for its own type of item |
| Checklist.ChecklistProgress | apps/technician-app/src/lib/jobcard-logic.ts:202-214 | the counting loop gives the number of items, of items with a valid answer, and of required items without one |
| Checklist.CountsAgree | apps/technician-app/src/lib/jobcard-logic.ts:180-214 | the missing list is as long as the per-template counts add up to |
| Checklist.AnsweringRemovesExactly | apps/technician-app/src/lib/jobcard-logic.ts:140-200 | with distinct templates and keys a valid answer removes exactly that item and keeps the rest in order |
| Checklist.BuildReadings | apps/technician-app/src/lib/jobcard-logic.ts:91-106 | the nested loops compute the readings of the specification |
| Checklist.ReadingsExact | apps/technician-app/src/lib/jobcard-logic.ts:86-106 | a key is read iff a template has a number item of that key with a finite answer, and the value is the answer in the last such template |
| QuoteMath.RoundHalfEvenIff | apps/technician-app/src/lib/quote-math.ts:45-51 | the result is the nearest integer with ties to even, and no other integer is |
| QuoteMath.RoundHalfEvenMonotone | apps/technician-app/src/lib/quote-math.ts:45-51 | rounding is monotone |
| QuoteMath.AggregateTaxError | apps/technician-app/src/lib/quote-math.ts:53-77 | with non-negative rates the summed line tax is within half a minor unit per line of the exact tax |
| QuoteMath.LineTaxIs | apps/technician-app/src/lib/quote-math.ts:53-77 | a line's tax is nothing without GST or at a rate of nothing, and else the nearest integer to subtotal times rate over 10000, ties to even |
| QuoteMath.LineAmounts | apps/technician-app/src/lib/quote-math.ts:58-69 | for every line whatever its numbers: with the whole units of the quantity and the nearest minor units of price and discount, none of them below 0, the subtotal is quantity times price less discount, or 0, and the discount counted is the smaller of discount and value |
| QuoteMath.QuoteAmounts | apps/technician-app/src/lib/quote-math.ts:58-77 | a quote's subtotal and discount are the sums of those amounts over its lines, and each line's result bears its key and adds up |
| QuoteMath.SendableSubtotal | apps/technician-app/src/lib/quote-math.ts:58-100 | on a line that may be sent with a whole discount the subtotal is quantity times price less discount in the line's own fields |
| QuoteMath.SendableQuoteTotals | apps/technician-app/src/lib/quote-math.ts:58-100 | a quote of such lines has as subtotal and discount the plain sums of the fields |
| QuoteMath.QuoteConservation | apps/technician-app/src/lib/quote-math.ts:58-77 | for all lines subtotal plus discount is the clamped gross, total is subtotal plus tax, nothing is negative, and no tax is charged without GST |
| QuoteMath.WireKeepsTotals | apps/technician-app/src/lib/quote-math.ts:119-133 | recomputing from the items sent gives the same totals, absent discount and rate read as 0 |
| QuoteMath.WireDescriptionShape | apps/technician-app/src/lib/quote-math.ts:112-123 | the description sent starts with "Part: " or "Labour: " on lines of that kind, once, goes on with the trimmed description, is whole up to 255 characters and cut at 255 beyond |
| QuoteMath.WireFields | apps/technician-app/src/lib/quote-math.ts:119-133 | quantity and price are sent as they are; discount, rate and tax code are sent as they are iff they are above 0 or not empty |
| QuoteMath.ValidateQuoteLines | apps/technician-app/src/lib/quote-math.ts:80-100 | the answer is empty iff there are lines and none has a fault; it holds a problem iff some line has that fault, and none twice |
| QuoteMath.ProblemsAreFaults | apps/technician-app/src/lib/quote-math.ts:80-100 | a line is reported for exactly its faults: a blank description, a quantity that is not a whole number of at least 1, a quantity above stock, a price that is not a whole number of at least 0, a discount above the line's value |
| QuoteMath.ProblemsInOrder | apps/technician-app/src/lib/quote-math.ts:86-97 | the problems of a line come in the order of those checks |
| QuoteMath.DistinctKeepsOrder | apps/technician-app/src/lib/quote-math.ts:99 | of repeated problems the first is kept, in place |
| QuoteMath.SendableNeedsNoClamp | apps/technician-app/src/lib/quote-math.ts:58-100 | on a line that may be sent the clamps do not act: quantity and price are as given and the discount fits |
| QuoteMath.UpsertEffect | apps/technician-app/src/lib/quote-math.ts:136-148 | labour, visits and lines without a reference are appended; otherwise the first line of the same kind and reference alone changes, growing up to its stock |
| QuoteMath.UpsertNeverLowersTotals | apps/technician-app/src/lib/quote-math.ts:136-148 | adding to a quote never lowers subtotal, tax or total |
| QuoteMath.BuildingAQuote | apps/technician-app/src/lib/quote-math.ts:136-148 | over every sequence of additions there is one line per item, none above its stock, and totals only grow |
| QuoteMath.QuoteHoldsWhatWasAdded | apps/technician-app/src/lib/quote-math.ts:136-148 | over every sequence of additions the quote holds of each item as much as was added, or no more than that where stock limits it |
| RateLimit.RateLimiter.RateLimit | apps/web/src/lib/rate-limit.ts:29-52 | a call in a live window counts one more and passes up to `limit`, any other opens a window and passes; the answer says what remains and when it resets |
| RateLimit.RateLimiter.Purge | apps/web/src/lib/rate-limit.ts:59-64 | the purge loop removes exactly the expired buckets |
| RateLimit.OnlyOwnCallsMatter | apps/web/src/lib/rate-limit.ts:29-66 | the answers to a key are those of its own calls alone: other keys and purges are invisible |
| RateLimit.AtMostLimitPerWindow | apps/web/src/lib/rate-limit.ts:36-51 | at most `limit` calls (one, for a limit below one) are accepted per window |
| RateLimit.LimitPerWindowIsReached | apps/web/src/lib/rate-limit.ts:36-51 | and that many are accepted of as many calls at once |
| RateLimit.RemainingIsABound | apps/web/src/lib/rate-limit.ts:41-51 | after an accepted call at most `remaining` more calls get through in its window |
| RateLimit.RemainingIsExact | apps/web/src/lib/rate-limit.ts:36-51 | and of any number of further calls at once exactly `remaining` get through |
| RateLimit.RefusalSays | apps/web/src/lib/rate-limit.ts:43-46 | a refusal says that nothing remains and when the window it met resets |
| RateLimit.RefusedUntilReset | apps/web/src/lib/rate-limit.ts:43-46 | after a refusal every call on the key is refused up to and including `resetAt` |
| RateLimit.AtMostTwiceTheLimit | apps/web/src/lib/rate-limit.ts:36-51 | any closed interval of length `windowMs` sees at most `2 * limit - 1` accepted calls |
| RateLimit.TwiceTheLimitIsReached | apps/web/src/lib/rate-limit.ts:36-51 | a run reaches that bound, for every limit and window |
| RateLimit.SlidingLimitIff | apps/web/src/lib/rate-limit.ts:31-34 | every interval of that length sees at most `limit` accepted calls, in all runs, iff the limit is one, or above one with an empty window |
| OfflineQueue.Queue.Enqueue | apps/customer-app/src/lib/offline-queue.ts:65-73 | the request joins the end with no retries and the queue is persisted |
| OfflineQueue.Queue.Drain | apps/customer-app/src/lib/offline-queue.ts:43-116 | the drain loop, with enqueues at every await and a kill and restart before an outcome is persisted, computes the drain that the results below speak of and leaves the persisted copy equal to memory |
| OfflineQueue.DrainIsARun | apps/customer-app/src/lib/offline-queue.ts:85-112 | that specification is a run of atomic steps |
| OfflineQueue.QueueIsFifo | apps/customer-app/src/lib/offline-queue.ts:65-116 | in every run, kills included, finished requests followed by the queue are the requests enqueued, in order; of the outcomes persisted each finished one has one acknowledgement after at most five failures or six failures; only the head has failures |
| OfflineQueue.DrainEndsItself | apps/customer-app/src/lib/offline-queue.ts:85-112 | after as many rounds as requests waited and arrived the loop has ended: further rounds change nothing |
| OfflineQueue.DrainStopsForAReason | apps/customer-app/src/lib/offline-queue.ts:77-116 | given as many rounds, a drain leaves a non-empty queue only if its last call was for the head and was cut short by a kill, or failed with the head at no more than five retries |
| OfflineQueue.AcknowledgedDrainEmpties | apps/customer-app/src/lib/offline-queue.ts:77-116 | when no call fails and none is cut short it empties the queue, with one acknowledged call for each request that waited or arrived, in order |
| OfflineQueue.AtMostOnceIff | apps/customer-app/src/lib/offline-queue.ts:15 | in every reachable state a waiting request is delivered at most once in all continuations without a kill in a call, iff it is the head, undelivered and at its last try; with kills no waiting request is safe |
| OfflineQueue.AtMostOnceWithoutLoss | apps/customer-app/src/lib/offline-queue.ts:85-112 | runs in which no answer is lost and no kill hides a delivery deliver every request at most once |
| OfflineQueue.DeliveriesAreBounded | apps/customer-app/src/lib/offline-queue.ts:43-112 | no request is delivered more than six times plus once per kill, or acknowledged more than once plus once per kill |
| OfflineQueue.BoundIsReached | apps/customer-app/src/lib/offline-queue.ts:43-112 | both bounds are reached for every number of kills |
| OfflineQueue.DeliveredTwice | apps/customer-app/src/lib/offline-queue.ts:85-112 | one lost answer, or one kill between acknowledgement and persist, and one good answer deliver a request twice |
| TokenRefresh.Client.RefreshAccessToken | apps/technician-app/src/lib/api.ts:119-143 | a refresh in flight is joined, otherwise one is started |
| TokenRefresh.Client.OnExchangeReply | apps/technician-app/src/lib/api.ts:124-141 | a granted refresh swaps the token pair, a 401 clears it, every outcome settles the refresh and clears the shared promise |
| TokenRefresh.Client.OnFirstReply | apps/technician-app/src/lib/api.ts:170-175 | a 401 on the stored session's own token makes the call wait on the refresh in flight, which is started if there is none; every other reply finishes the call |
| TokenRefresh.SentAgainIff | apps/technician-app/src/lib/api.ts:113-175 | in every run a call has two sends iff it used the session's own non-empty token, its first reply was a 401, the refresh in flight right after that was then granted a token, and it resumed |
| TokenRefresh.RenewedToken | apps/technician-app/src/lib/api.ts:113-175 | its first send carries the token stored when it began, its second the access token of the grant that settled that refresh |
| TokenRefresh.DeniedWaits | apps/technician-app/src/lib/api.ts:119-175 | right after a 401 on the session's own token a refresh is in flight, the one before if there was one, and the call waits on it |
| TokenRefresh.RefreshGoesThrough | apps/technician-app/src/lib/api.ts:119-175 | from every state with at most one refresh, a 401, a stored refresh token and a grant lead to a second send with the new token and the new pair stored |
| TokenRefresh.RunIsSingleFlight | apps/technician-app/src/lib/api.ts:113-143 | in every run at most one refresh is in flight, and it is the shared one |
| TokenRefresh.WaitersShareOneToken | apps/technician-app/src/lib/api.ts:119-175 | all calls that waited on one refresh retry with the token it settled with |
| TokenRefresh.AtMostTwoSends | apps/technician-app/src/lib/api.ts:170-175 | no call sends its request more than twice |
| TokenRefresh.ExchangesFormAChain | apps/technician-app/src/lib/api.ts:120-138 | each granted refresh, its answer lost or not, sends the token issued by the last grant whose answer arrived |
| TokenRefresh.GrantedAgainIff | apps/technician-app/src/lib/api.ts:115-138 | with freshly issued tokens two grants are for the same refresh token iff the answers of the first and of all between them were lost |
| TokenRefresh.NoTokenExchangedTwice | apps/technician-app/src/lib/api.ts:115-138 | in particular a token whose exchange was answered is never granted again |
| Failover.SendWithFailover | packages/notifications/src/failover.ts:29-67 | the loop goes through the stable priority order up to the first provider that sends with its callback returning, or whose recovery callback throws; the result is sent, thrown, or one error line per provider accordingly |
| Failover.TryProvider | packages/notifications/src/failover.ts:35-60 | one round, case by case: what is contacted and told, and whether it delivers, fails with which error, or throws what the recovery callback threw |
| Failover.FailureTextIs | packages/notifications/src/failover.ts:36-66 | when all fail, one line of name and error per provider, in order, or one text if there are none |
| Failover.JoinedLines | packages/notifications/src/failover.ts:66 | the lines stand joined by bars |
| Failover.SortIsStable | packages/notifications/src/failover.ts:33 | the order used is a stable sort by priority |
| Failover.StableSortIsUnique | packages/notifications/src/failover.ts:33 | any other stable sort gives the same order |
| Failover.ContactedInOrder | packages/notifications/src/failover.ts:36-45 | the providers contacted are the available ones gone through, in that order |
| Failover.OneCallbackEachIff | packages/notifications/src/failover.ts:43-59 | each provider contacted gets exactly one callback, the matching one, in order, iff no success callback and no failure callback after a reported failure throws |
| Failover.DeliveredOnceIff | packages/notifications/src/failover.ts:44-59 | the message goes out at most once, unless two providers deliver it, reported or not, and none before the second stops the loop |
| Failover.DeliveredTwice | packages/notifications/src/failover.ts:44-59 | a first provider whose success callback throws, or that delivers and then throws, and a second one deliver the message twice |
| Money.MoneyRoundTrip | apps/technician-app/src/lib/money.ts:25-39 | every amount up to 2^53 - 1 is read back from its printed form with rupee signs, commas and whitespace inserted anywhere |
| Money.MoneyRoundTripIff | apps/technician-app/src/lib/money.ts:25-39 | printing and reading is the identity exactly on the amounts from 0 to 2^53 - 1 |
| Money.ReadsAs | apps/technician-app/src/lib/money.ts:25-31 | digits with at most two more after a dot read as a hundred times the former plus the paise, one digit after the dot counting tens, if that is at most 2^53 - 1 |
| Money.AcceptedIff | apps/technician-app/src/lib/money.ts:25-31 | nothing else is accepted |
| Money.AcceptedInputIsStable | apps/technician-app/src/lib/money.ts:25-39 | an accepted input, shown and read again, gives the same amount |
| LocationQueue.PingStore.FlushQueue | apps/technician-app/src/lib/location.ts:128-155 | after every storage write, acknowledged pings followed by the persisted queue are the queue at the start; batches hold at most 50 and the counts add up |
| LocationQueue.ProgressStep | apps/technician-app/src/lib/location.ts:138-147 | one acknowledged batch keeps all of that |
| LocationQueue.PingStore.EnqueuePing | apps/technician-app/src/lib/location.ts:111-126 | the ping joins the end and the oldest beyond 500 are cut |
| LocationQueue.KeepsTheLastPings | apps/technician-app/src/lib/location.ts:111-126 | enqueue-only runs from empty hold exactly the last 500 pings |

## Left out

- Screens, hooks, navigation, the autosave timer of the job-card screen, storage keys and listeners.
- A stored list that does not parse is read as empty by the code; here storage holds the list itself.
- Asynchronous storage between the read and the write of one enqueue, one drop, or the closing merge of a flush: each is one atomic step here. The code awaits between them.
- Uploads: photo bytes, presigned addresses and the deletion of pending files. A file is identified by its local address, and the server's attachment by the upload's payload.
- A server that applies a timed-out send later than its reply would have come: a send is applied when it is performed or not at all.
- The server's per-field normalisation of strings and fault codes, its access checks and length limits. In the write queue's model a stored card is the map of its cells, without the order of its checklist entries.
- Key order in `JSON.stringify`: two entries are equal when their contents are. The code may also see a change where only the order of keys differs, and then sends the entry once more.
- WriteQueueConvergence.ConvergenceIff: assumes the cap is not reached and no write of the booking is given up, dropped or bypassed by a direct save; those steps discard or overtake writes by design.
- WriteQueueConvergence.JobCardConverges: has no converse for a single run, where equal values can hide a loss; over all runs of a sequence the converse is ConvergenceIff.
- WriteQueueDelivery.PhotosExactlyOnceIff: assumes that no write of the booking is given up and that the cap is not reached.
- OfflineQueue.Queue.Drain: the loop is followed for as many rounds as the run describes, which is to its end when they suffice for DrainEndsItself; the app is started and hydrated before the first event, persisting succeeds, a kill between an enqueue's push and its persist is not modelled, drains do not overlap, clearing the queue is not modelled, and neither is which HTTP verb a request uses.
- LocationQueue.PingStore.FlushQueue: storage writes succeed; pings enqueued during a flush are overwritten by its next write, which the contract shows and the source accepts.
- TokenRefresh.NoTokenExchangedTwice: signing in or out during a refresh is not modelled, and the two stored tokens are written together.
- RateLimit.RateLimiter.RateLimit: the clock is a parameter, and the bounds assume it does not go back and the windows are not negative.
- Failover.SendWithFailover: the availability check is taken to answer, latencies are not modelled, and priorities are integers.
- Money.MoneyRoundTrip: digit strings beyond 2^53 are read exactly and refused; the code reads them as floating-point numbers and refuses them as unsafe.
- QuoteMath.ComputeQuoteTotals: exact rationals instead of floating-point numbers, without NaN and infinities; problems are data instead of sentences.
- JobCardForm.FormFixedPointIff: the stored card is taken to hold one checklist entry per template, as the server's merge leaves it; form lists are values, so copying them is not visible.
- WriteQueueRefusal.NeverGivenUpIff: the server validates the names of the plain fields, not their types and lengths; the other refusals of a patch, by access or state of the booking, are not part of its runs.
- WriteQueue.Device.CompleteFlush: a flush that rejects because storage failed is not modelled.
- Formatting for display, reading parser, symptom presets, warranty summary, HMAC signing, client address parsing: they would add only easy members.
