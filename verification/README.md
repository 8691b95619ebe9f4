# DistLink: a verified model of its stateful core

DistLink is a URL shortener. Its difficult code keeps state across `await` points: clicks wait in
buffers, failed batches go to a dead-letter queue and are retried while new events arrive; links are
served from a Redis cache kept beside the database; click counters are kept beside click events. This
project models that code and proves what it keeps over whole runs.

How the model is laid out:

- **Machines on values** (`PipelineModel`, `UrlStore`, `UrlInterleaving`, `ClickStats`, `GeoLookup`,
  `RateLimit`, `ShortCodes`, `Accounts`, `AccountInterleaving`) describe a service as a state and its steps. A step is one
  stretch of code between two `await` points (in `UrlStore` and `Accounts` one whole operation). What a
  suspended call holds is explicit. Steps that do not apply change nothing, so *every* list of steps is
  a run, and the database, the timer and the clock are free to do anything.
- **Classes** (`ClickProcessorService`, `UrlsService`, `ClicksService`, `RateLimitGuard`,
  `BatchGenerator`, `AccountService`) change their fields in place as the TypeScript does, with its
  loops and its order of calls, and each method is proved to take the step of the machine. Answers of
  the database and of other services are parameters.
- **Lemmas** prove the properties of the machines over all runs.

## What turned out

- A click event is in exactly one place at all times if its dead-letter key (kind, code, millisecond)
  is its own; some course of the timer and the database loses an event *if and only if* two received
  events share a key.
- A raw analytics event and its enriched copy always share that key, so an analytics flush that fails
  for good always drops the enriched half of its batch and starts the raw half at two failures or more:
  an analytics event is given up after two failed save calls, a click after three.
- A click can be counted up to 12 times and no more; 12 is reached.
- A refused save waits longer than the flush interval, so timers fire while retries are in flight. The
  pipeline still drains: no more than 13 answers of the database are taken for each event received (an
  analytics event comes as two), and
  while anything is left an answer is owed or the next timer makes one owed.
- Every analytics event is counted twice, once for its raw and once for its enriched copy.
- The alphabet has 63 characters although the comment beside it speaks of 64, so generated codes have
  length 0 to 6, and `all`, the key of the cached list of all links, is one of them. A row under that
  code and the list of all are served for each other, whichever is read first.
- A sequential run keeps the cache coherent *if and only if* every row that `create` or `update` writes
  is harmless: its code is no list's key and no live entry that is not about to be dropped shows the row
  that changes. `INSERT` writes over existing rows and may land in a pass that is then given up, so
  neither is guaranteed.
- `update` answers with the expiry and the click figure of the old code; a reader of the new code gets
  that answer only under the condition stated. Clicks are not carried over. `create` answers with no
  clicks; a reader gets that only if no counter is left over from the code. `update` of a code whose row
  is gone but whose record is still cached brings the link back under the new code.
- A click figure can get ahead of its counter: a code is listed for one user, drawn again for another and
  removed, and the first user's cached list still shows it. In sequential runs this happens exactly when
  a counter is removed while a live entry that is not dropped shows its figure.
- Without `incrementClicks` a link is served less than the cache TTL past its expiry. `incrementClicks`
  restarts the TTL, so some later reader is served too late exactly when the cached record had expired,
  and with one click in time after another a link is served as late as one likes.
- The last day of a date range is left out exactly when the end is earlier in its day than the start.
- Daily analytics keys `code:day` split back correctly exactly when the code has no colon, and a batch
  is counted right exactly when none of its codes has one.
- The rate limit's bound of (n + 1) times the limit in n windows is reached for every n, and does not
  need `expire` to run; without it a key that is full stays locked.
- The Google sign-in branch for an email with another Google id is never taken, because the finder by
  email leaves the Google id out; such a sign-in takes the account over instead. Accounts keep their
  Google id exactly when that does not happen.
- When calls overlap, emails and Google ids stay unique exactly when every write finds its own still
  free. Calls that share neither never break it, and neither do calls that share but do not overlap; any
  two calls that share an email or a Google id can break it.
- When calls overlap, cached records and rows held by suspended calls are never out of date exactly when
  every change of a row finds its record neither cached nor held; a removal that overlaps a read can
  leave the removed record in the cache.
- Once the geo service has given a country for an address, no call that begins later falls back to
  `Unknown`, in any course; before, every call does in some course.

## Model

| member | source | states |
|---|---|---|
| PipelineLaws.RunLaw | src/modules/clicks/click-processor.service.ts:49-263 | Over every run and for every way of weighing events, buffers, queue, suspended calls, saved, reported and lost weigh what was received plus what each failed save call charged |
| PipelineLaws.EventsConserved | src/modules/clicks/click-processor.service.ts:129-263 | No copy of an event is made up or vanishes unseen |
| PipelineLaws.KeysConserved | src/modules/clicks/click-processor.service.ts:142-152 | The same for all the events under one dead-letter key |
| PipelineLaws.FailuresConserved | src/modules/clicks/click-processor.service.ts:147-150 | The failure counts kept under a key add up to the number of times its events were in a failed save call, with clashing keys too |
| PipelineBuffers.BufferDiscipline | src/modules/clicks/click-processor.service.ts:49-71 | Fewer than 100 clicks wait; an even number, at most 98, of analytics events wait in adjacent raw and enriched pairs; flushed batches never split a pair; flushed batches plus buffer are everything pushed, in order |
| PipelineBuffers.ClickWaits | src/modules/clicks/click-processor.service.ts:27-56 | A click that arrives is appended and nothing is started until it makes the hundredth; then all hundred are handed over in order and the buffer is empty |
| PipelineBuffers.PairWaits | src/modules/clicks/click-processor.service.ts:58-93 | The same for an analytics event and its copy, which differs from it in its device alone |
| PipelineBuffers.ArrivalsWait | src/modules/clicks/click-processor.service.ts:49-71 | In every run fewer than 100 clicks and fewer than 99 analytics events wait, so the two above apply |
| PipelineBuffers.TimerDisciplined | src/modules/clicks/click-processor.service.ts:125-132 | A timer flush leaves both buffers empty and the stream of events as it was |
| PipelineFates.RunWellFormed | src/modules/clicks/click-processor.service.ts:183-240 | Queue keys stay distinct, queued events have failed at least once, retried and saved ones fewer than 3 times, reported ones at least 3 times |
| PipelineFates.RunLossNeedsClash | src/modules/clicks/click-processor.service.ts:145-151 | Nothing is lost under a key that only one received event has |
| PipelineFates.RunCapped | src/modules/clicks/click-processor.service.ts:147-150 | A failure count exceeds 3 by at most the number of events lost under that key |
| PipelineTheorems.ExactlyOnePlace | src/modules/clicks/click-processor.service.ts:129-263 | An event whose key is its own is in exactly one of buffer, flush, queue, retry, saved, reported; a reported one has been through exactly 3 failed save calls, a saved one through fewer |
| PipelineTheorems.ClashCanLose | src/modules/clicks/click-processor.service.ts:142-152 | For any arrivals with two events under one key there is a course of timer and database that loses one |
| PipelineTheorems.LostIffClash | src/modules/clicks/click-processor.service.ts:142-152 | Some course of timer and database loses an event if and only if two received events share a key |
| PipelineTheorems.FailedAnalyticsFlushDropsEnriched | src/modules/clicks/click-processor.service.ts:170-179 | In every run, an analytics flush that fails for good loses every enriched copy of its batch |
| PipelinePairs.FailedAnalyticsFlushStartsAtTwo | src/modules/clicks/click-processor.service.ts:170-179 | In every run, an analytics flush that fails for good leaves the key of each of its events in the queue at two failures or more |
| PipelinePairs.PairReportedAfterTwo | src/modules/clicks/click-processor.service.ts:156-240 | If only one raw event and its enriched copy have a key, then in every run one copy is lost exactly when a save call failed; a queued copy stands at one failure more than the calls that failed; a reported one has been through exactly 2 failed calls, a saved one through at most 1 |
| PipelineBudget.CountedAtMostTwelveTimes | src/modules/clicks/click-processor.service.ts:265-297 | Saved clicks of a code are at most its counter, and its counter, with updates still on their way, is at most 12 times the clicks received |
| PipelineBudget.AttemptsCount | src/modules/clicks/click-processor.service.ts:269-288 | An accepted attempt counts each click of its code in the call, a refused one those whose update was applied, and an update applied later moves clicks to the counter |
| PipelineBudget.TwelveReached | src/modules/clicks/click-processor.service.ts:265-297 | One received click can be counted 12 times |
| PipelineBudget.AllOrNothingCountsExactly | src/modules/clicks/click-processor.service.ts:265-297 | If each attempt is applied completely or not at all, every counter equals the number of clicks saved |
| PipelineDrain.FourRoundsDrain | src/modules/clicks/click-processor.service.ts:125-127 | If rounds do not overlap, that is, if nothing is in flight before the first and each of the first three ends before the next timer, four rounds without arrivals empty buffers and queue whatever the database answers |
| PipelineDrain.RoundRaises | src/modules/clicks/click-processor.service.ts:183-240 | Each round raises the least failure count in the queue |
| PipelineDrain.AnswersRunOut | src/modules/clicks/click-processor.service.ts:183-297 | Each answer of the database brings a round nearer its end, and a round has ended exactly when no answers are owed |
| PipelineProgress.OverlappingRoundsDrain | src/modules/clicks/click-processor.service.ts:125-263 | Once arrivals stop, with timers firing at any time, also while refused saves are in flight, suspended calls take no more answers than the potential, at most 13 for each event received; when that is used up, buffers and queue are empty and no call waits; until then an answer is owed or the next timer makes one owed |
| PipelineProgress.AnswersPaidFor | src/modules/clicks/click-processor.service.ts:183-297 | From any moment and with further arrivals, what is left to be done plus the answers taken is at most what was to be done plus 13 for each new event |
| PipelineProgress.PotentialZeroIff | src/modules/clicks/click-processor.service.ts:125-263 | The potential is zero exactly when buffers and queue are empty and no call waits |
| PipelineProgress.Progress | src/modules/clicks/click-processor.service.ts:391-397 | While anything is left, an answer is owed or the next timer makes one owed |
| DeadLetterKeys.KeyTextInjective | src/modules/clicks/click-processor.service.ts:144 | Two events have the same key text exactly when they agree on kind, code and time, even if codes contain colons |
| DeadLetterKeys.DigitsRead | src/modules/clicks/click-processor.service.ts:144 | Reading the digits of a key's time as a decimal number gives the time back |
| DeadLetterKeys.PrefixTellsKind | src/modules/clicks/click-processor.service.ts:205-209 | The prefix test on a key tells the kind of its event |
| ClickProcessor.ClickProcessorService.ProcessClickEvent | src/modules/clicks/click-processor.service.ts:49-56 | Takes the arrival step of the machine: the click is appended and nothing handed over below 100, and at 100 the whole buffer is handed over in order |
| ClickProcessor.ClickProcessorService.ProcessAnalyticsEvent | src/modules/clicks/click-processor.service.ts:58-71 | Takes the arrival step that pushes an event and its enriched copy, and hands the whole buffer over at 100 but not below |
| ClickProcessor.ClickProcessorService.FlushClickBuffer | src/modules/clicks/click-processor.service.ts:129-133 | Takes the flush step up to its save call and hands over the batch |
| ClickProcessor.ClickProcessorService.FlushAnalyticsBuffer | src/modules/clicks/click-processor.service.ts:156-160 | The same for analytics |
| ClickProcessor.ClickProcessorService.FlushFailed | src/modules/clicks/click-processor.service.ts:142-152 | The loop over a failed batch leaves in the queue, looked up by text keys, what the machine says |
| ClickProcessor.ClickProcessorService.StartDeadLetterQueue | src/modules/clicks/click-processor.service.ts:183-209 | Splits the queue into retries and exhausted events, in order, and deletes the keys of both, which empties it |
| ClickProcessor.ClickProcessorService.SplitQueue | src/modules/clicks/click-processor.service.ts:191-197 | Each entry goes to one half by its failure count, in order |
| ClickProcessor.ClickProcessorService.RetryFailed | src/modules/clicks/click-processor.service.ts:214-238 | Retried events go back under their keys, overwriting, with one failure more than they were retried with |
| ClickProcessor.ClickProcessorService.CountClicks | src/modules/clicks/click-processor.service.ts:269-275 | The map filled by the loop has exactly the codes of the batch, each with the number of its clicks |
| ClickProcessor.FoundIt | src/modules/clicks/click-processor.service.ts:220 | `find` among the retried entries always hits, and hits the event itself |
| ClickProcessor.RetriedSlot | src/modules/clicks/click-processor.service.ts:217-221 | The key recomputed from a retried event is the key it had in the queue |
| ClickProcessor.BumpMatches | src/modules/clicks/click-processor.service.ts:144-151 | One pass of the failed-batch loop on the `Map` of text keys is one step of the machine on parsed keys |
| AnalyticsGrouping.SplitRecoversIff | src/modules/clicks/click-processor.service.ts:351 | Splitting `code:day` gives code and day back exactly when the code has no colon |
| AnalyticsGrouping.SplitTold | src/modules/clicks/click-processor.service.ts:351 | For any key the two parts are the text up to the first colon and from there up to the second |
| AnalyticsGrouping.GroupByDay | src/modules/clicks/click-processor.service.ts:302-314 | Each key that occurs has exactly its events, in order, and no other key is present |
| AnalyticsGrouping.CountDevices | src/modules/clicks/click-processor.service.ts:353-364 | The three figures are the numbers of events whose metadata say mobile, tablet but not mobile, and neither |
| AnalyticsGrouping.QueriesTold | src/modules/clicks/click-processor.service.ts:316-377 | Each insert has its event's code, time and user agent, and its device by the metadata, mobile before tablet before desktop; each update has its key's numbers of events by the metadata |
| AnalyticsGrouping.OfKeyTold | src/modules/clicks/click-processor.service.ts:305-314 | The events of a key are exactly those of the batch whose code, a colon and whose day make it up |
| AnalyticsGrouping.BuildQueries | src/modules/clicks/click-processor.service.ts:316-377 | One detail insert for each event and one update for each key, with the figures of that key's events |
| AnalyticsGrouping.GroupedIsCounted | src/modules/clicks/click-processor.service.ts:302-377 | With colon-free codes the daily updates add up, for every code, day and set of device classes, to the counts over the detail inserts, and each update's device figures add up to its total |
| AnalyticsGrouping.GroupedIsCountedIff | src/modules/clicks/click-processor.service.ts:350-351 | The daily updates of a batch add up to its detail inserts for all codes, days and device classes if and only if no code of the batch has a colon |
| AnalyticsGrouping.PairsCountTwice | src/modules/clicks/click-processor.service.ts:58-66 | A batch of pairs counts each event twice, for every code and day |
| AnalyticsGrouping.PairsCountByClass | src/modules/clicks/click-processor.service.ts:339-343 | For every set of device classes, the raw copies count by the device of their producer and the enriched ones by the user agent |
| AnalyticsGrouping.RawCountAsDesktop | src/modules/clicks/click-processor.service.ts:361-363 | Without a device from the producer, all raw copies count as desktop clicks |
| UrlCoherence.ChangeCoherentIff | src/modules/urls/urls.service.ts:199-226 | A change of the rows keeps the cache coherent exactly when no code is a list's key and no live entry shows a changed row, as it was or as it is |
| UrlCoherence.CreateCoherentIff | src/modules/urls/urls.service.ts:80-98 | `create` keeps the cache coherent exactly when every row that lands, in a pass accepted or given up, was there before, or has a code that is no list's key and is shown, old or new, by no live entry that is not dropped in the end |
| UrlCoherence.FreshIsHarmless | src/modules/urls/urls.service.ts:80-94 | Fresh codes that are no list's key are always harmless, if no row lands without its counter |
| UrlCoherence.UpdateCoherentIff | src/modules/urls/urls.service.ts:264-279 | `update` keeps the cache coherent exactly when, if it writes, its new code is no list's key, and, if the counter write is refused, no list that shows the row is live |
| UrlCoherence.RunCoherentIff | src/modules/urls/urls.service.ts:80-352 | Over every sequential run, every live cached entry, the list of all and each user's list agree with the rows on all but clicks at every moment, if and only if every operation is harmless when it is called |
| UrlAnswers.CreateAnswersTrulyIff | src/modules/urls/urls.service.ts:67-100 | In any state, `create` succeeds exactly when one of its first three passes is accepted; exactly the rows that landed are new; and a reader of the code gets the response back exactly when the record still cached for it is the same or, without one, no counter was left over from the code |
| UrlAnswers.CreateAnswers | src/modules/urls/urls.service.ts:42-100 | An unsafe URL is refused; else `create` succeeds exactly when one of the first three passes lands completely, and then answers with and stores the URL and user given, the present moment, no clicks, and an expiry of none or 1, 7 or 30 days |
| UrlAnswers.FindRefinesDirect | src/modules/urls/urls.service.ts:102-138 | After a run of harmless operations (those of `RunCoherentIff`), `findByShortCode` serves only rows stored under the code and answers as the database alone would exactly when it is not serving a cached row that has expired |
| UrlAnswers.FindFailsIff | src/modules/urls/urls.service.ts:102-124 | Exactly when `findByShortCode` answers not found, for a missing or an expired row, which is then removed, and when it fails on a refused call |
| UrlAnswers.RemoveAnswers | src/modules/urls/urls.service.ts:199-226 | `remove` reports success exactly when its select goes through and, if there is a row, both deletions do; what becomes of row, counter and cached record |
| UrlAnswers.IncrementCounts | src/modules/urls/urls.service.ts:228-234 | `incrementClicks` adds one to the counter and to the cached record, restarts the time to live and touches nothing else |
| UrlAnswers.ListsRefineDirect | src/modules/urls/urls.service.ts:140-197 | After a run of harmless operations, the list of all and each user's list are the rows of the database, clicks apart; if not cached, clicks included |
| UrlAnswers.AllAsCode | src/modules/urls/urls.service.ts:102-166 | A row under the code `all` and the list of all are served for each other: whichever is read first answers both |
| UrlCoherence.RemoveCoherent | src/modules/urls/urls.service.ts:199-226 | Removal keeps coherence, whichever of its database calls fail |
| UrlAnswers.UpdateRenames | src/modules/urls/urls.service.ts:236-279 | After a run of harmless operations, a successful update moves the row to the new code with URL, owner and creation time and the chosen or kept expiry; whatever happens no third row changes, no existing row is written over, and a row that appears is the one to be moved; a conflict changes no row; a missing source at most removes the expired source row |
| UrlAnswers.UpdateRenamesIff | src/modules/urls/urls.service.ts:241-277 | In any store, a successful update renames the stored row if and only if it would rename the row it started from to the same; without a stored row it brings the cached one back under the new code |
| UrlAnswers.UpdateAnswers | src/modules/urls/urls.service.ts:236-297 | In any store, exactly when `update` answers not found, conflict and success; and the new row's expiry, the old one if none was chosen, none, or 1, 7 or 30 days from now, and its URL, owner and creation time |
| UrlAnswers.UpdateAnswersTrulyIff | src/modules/urls/urls.service.ts:268-289 | After a run of harmless operations and a successful update the old code is gone, and a reader of the new code gets the response back exactly when the expiry did not change and is not past and the new code's own counter stands at the figure the old code was served with |
| UrlStaleness.RemoveLaggingIff | src/modules/urls/urls.service.ts:199-226 | In any store whose figures lag, a removal keeps that exactly when it does not delete a counter whose figure a live entry shows that it does not drop |
| UrlStaleness.FindLaggingIff | src/modules/urls/urls.service.ts:120-124 | The same for the removal of an expired row while finding it |
| UrlStaleness.UpdateLaggingIff | src/modules/urls/urls.service.ts:236-279 | The same for both removals inside `update` |
| UrlStaleness.RunLaggingIff | src/modules/urls/urls.service.ts:199-234 | Over every sequential run no click figure that can be served is ahead of its counter at any moment, if and only if no operation removes a counter whose figure a live entry shows that the operation does not drop |
| UrlStaleness.RunLagging | src/modules/urls/urls.service.ts:199-234 | No figure gets ahead in a run of harmless operations |
| UrlStaleness.FigureGetsAhead | src/modules/urls/urls.service.ts:80-84 | A run in which a figure gets ahead: a counted and listed code is drawn again for another user and removed |
| UrlStaleness.ServedWithinTtl | src/modules/urls/urls.service.ts:102-137 | Without `incrementClicks`, a record from the cache is served less than the TTL after its expiry, also after `update` copied it, and one from the database not after its expiry |
| UrlStaleness.RunServesInTimeIff | src/modules/urls/urls.service.ts:228-234 | Over every run with increments, from no moment does a later course without increments serve a record too late, if and only if every increment that went through found its record unexpired |
| UrlStaleness.IncrementServesLateIff | src/modules/urls/urls.service.ts:308-314 | In any store whose entries end within the TTL of now and of their record's expiry, after `incrementClicks` some later course without further increments serves a record too late if and only if the record it found cached had expired |
| UrlStaleness.ServedArbitrarilyLate | src/modules/urls/urls.service.ts:308-314 | With repeated `incrementClicks`, and a TTL of at least two units of time, a link is served any given time after its expiry |
| UrlInterleaving.ServedWasStored | src/modules/urls/urls.service.ts:102-138 | With calls broken up at every await among arbitrary other writes, every record served equals, clicks apart, a row stored under its code at some earlier moment |
| UrlInterleaving.ReadSettles | src/modules/urls/urls.service.ts:107-134 | When both reads of a call are in, in either order, it goes on to cache what was read exactly if there was a row and it is not past its expiry |
| UrlInterleaving.CallsServed | src/modules/urls/urls.service.ts:102-138 | A call is answered from the cache exactly if its record is there; else it reads, and serves what it caches |
| UrlInterleaving.FreshThroughoutIff | src/modules/urls/urls.service.ts:102-138 | Over every run, cached records and rows held by suspended calls are the rows stored now, if and only if every change of a row finds its record neither cached nor held |
| UrlInterleaving.RemovalCleanIff | src/modules/urls/urls.service.ts:210-220 | Whatever is cached, a removal leaves nothing out of date for its code exactly when no suspended call holds one of its rows |
| UrlInterleaving.RemovedRecordCachedAgain | src/modules/urls/urls.service.ts:106-136 | A read that overlaps a removal can put the removed record back into the cache |
| UrlsService.UrlsService.GetFromCache | src/modules/urls/urls.service.ts:299-302 | Returns the entry of a key exactly while it has not run out |
| UrlsService.UrlsService.InvalidateMultipleKeys | src/modules/urls/urls.service.ts:324-326 | Exactly the given keys go, the rest of the store stays |
| UrlsService.UrlsService.GetNextCode | src/modules/urls/urls.service.ts:60-65 | Takes the last code of the pool, or of a new batch if the pool was empty |
| UrlsService.UrlsService.CreateUrlRecord | src/modules/urls/urls.service.ts:328-352 | Writes the row and makes the counter exist, each if it lands, and reports success exactly when both do |
| UrlsService.UrlsService.Create | src/modules/urls/urls.service.ts:67-100 | The retry loop takes the store and the answer where the machine's `Create` takes them, pass by pass with the codes that the pool and its refills give and with what lands of each record |
| UrlsService.UrlsService.FindByShortCode | src/modules/urls/urls.service.ts:102-138 | Takes the machine's `Find` |
| UrlsService.UrlsService.FindAll | src/modules/urls/urls.service.ts:140-167 | Takes the machine's `FindAll` |
| UrlsService.UrlsService.FindByUserId | src/modules/urls/urls.service.ts:169-197 | Takes the machine's `FindByUser` |
| UrlsService.UrlsService.Remove | src/modules/urls/urls.service.ts:199-226 | Takes the machine's `Remove`, one deletion after the other |
| UrlsService.UrlsService.Update | src/modules/urls/urls.service.ts:236-297 | Takes the machine's `Update` |
| UrlsService.UrlsService.IncrementClicks | src/modules/urls/urls.service.ts:228-234 | Takes the machine's `IncrementClicks` |
| ClickStats.CountersCountClicks | src/modules/clicks/clicks.service.ts:24-39 | Over every run of overlapping calls, the counter of a link, day and country plus the updates still owed to it is at most the number of clicks on the link from that country within that day, and equal if nothing was refused |
| ClickStats.CountersMatchEvents | src/modules/clicks/clicks.service.ts:24-39 | The same in terms of the counter's key |
| ClickStats.CountersNeverAhead | src/modules/clicks/clicks.service.ts:122-132 | In every run, whatever is refused or under way, the undated count is at most the number of the link's events |
| ClickStats.CountersSumToEvents | src/modules/clicks/clicks.service.ts:122-149 | With no refusal and no call under way, the undated count from the counters is the number of the link's events, and no dates count more |
| ClickStats.ClickCountSplits | src/modules/clicks/clicks.service.ts:134-148 | Counts with one date split the clicks of the link in two, and two dates cut out what is between them |
| ClickStats.DatedCountAgainstTotals | src/modules/clicks/clicks.service.ts:134-148 | The count between two midnights plus the later clicks of the last day is the sum of the daily totals, so it never exceeds them |
| ClicksService.ClicksService.GetClicksByCountry | src/modules/clicks/clicks.service.ts:151-178 | Each country with a row has the sum of its rows, no other is present, and the figures sum to the undated click count |
| ClicksService.ClicksService.GenerateDates | src/modules/clicks/clicks.service.ts:202-205 | The days are consecutive from the start's and number the whole days between start and end plus one, none if the end is earlier |
| ClicksService.ClicksService.AddRows | src/modules/clicks/clicks.service.ts:221-233 | Adding the rows of one batch to the report of others gives the report over both |
| ClicksService.ClicksService.GetClicksByDateRange | src/modules/clicks/clicks.service.ts:195-237 | The report built from slices of seven consecutive days, which partition the range, is the report of one query over all of it |
| ClicksService.RangeReport | src/modules/clicks/clicks.service.ts:195-237 | The report has a day exactly when some row of that day is in range, and the day's total is the sum of its countries and the sum of all that day's rows |
| ClicksService.ReportCountsClicks | src/modules/clicks/clicks.service.ts:195-237 | With nothing refused or under way, a day of the report has, in total and for each country, the number of clicks on the link within that day |
| ClicksService.CountriesCountClicks | src/modules/clicks/clicks.service.ts:151-178 | With nothing refused or under way, the figure of each country is the number of clicks on the link from there |
| ClicksService.LastDayReportedIff | src/modules/clicks/clicks.service.ts:198-205 | A last day with clicks is reported exactly when the end is not earlier in its day than the start |
| ClicksService.ClicksService.BeginLookup | src/modules/clicks/clicks.service.ts:49-66 | Takes the machine's first half of a lookup: cached, throttled, or a request |
| ClicksService.ClicksService.FinishLookup | src/modules/clicks/clicks.service.ts:68-83 | Takes the second half: cache the reply, or fall back |
| ClicksService.ClicksService.StoreEvent | src/modules/clicks/clicks.service.ts:24-30 | Stores the event if the insert is applied; one update of the row of its link, day and country is owed exactly if the insert is acknowledged |
| ClicksService.ClicksService.CountEvent | src/modules/clicks/clicks.service.ts:32-39 | Exactly the row of the event's link, day and country has one more if the update is applied, and nothing changes if not |
| GeoLookup.RequestsThrottled | src/modules/clicks/clicks.service.ts:55-66 | At most T/1000 + 1 requests start in any interval of T milliseconds, however calls overlap |
| GeoLookup.RequestStartsIff | src/modules/clicks/clicks.service.ts:49-66 | A call starts a request exactly when no country less than a day old is cached and the last request began at least a second ago; otherwise it answers at once with what is cached or `Unknown` |
| GeoLookup.NoRequestForADay | src/modules/clicks/clicks.service.ts:49-53 | For a day after a country was cached, in every course, calls for its address start no request |
| GeoLookup.BackedIff | src/modules/clicks/clicks.service.ts:49-83 | After any run, every course backs the answer of a call begun now by a country the service gave for its address, if and only if the address is cached now, if and only if the service has ever given one; otherwise some course answers `Unknown` |
| GeoLookup.OverlapHappens | src/modules/clicks/clicks.service.ts:49-83 | A call that began earlier can still be waiting when its address becomes known, and then answers `Unknown` if its own request fails |
| RateLimit.SlidingBound | src/common/guards/rate-limit.guard.ts:25-36 | At most (n + 1) times the limit is admitted in any interval no longer than n windows, with shared keys, and with `expire` delayed or never run |
| RateLimit.TwiceTheLimit | src/common/guards/rate-limit.guard.ts:25-36 | At most twice the limit in any window-long interval |
| RateLimit.BoundReached | src/common/guards/rate-limit.guard.ts:25-36 | (n + 1) times the limit is reached in n window lengths, for every n |
| RateLimit.AdmittedIff | src/common/guards/rate-limit.guard.ts:25-36 | A request is admitted exactly when fewer requests than its limit came since the window was opened |
| RateLimit.NoExpireNoReset | src/common/guards/rate-limit.guard.ts:26-28 | Without its `expire` a key never resets: every later request sees a higher count |
| RateLimitGuard.RateLimitGuard.CountRequest | src/common/guards/rate-limit.guard.ts:25-26 | Takes the machine's request step on its key and leaves other keys alone |
| RateLimitGuard.RateLimitGuard.SetExpiry | src/common/guards/rate-limit.guard.ts:26-28 | Takes the machine's expire step |
| RateLimitGuard.RateLimitGuard.CanActivate | src/common/guards/rate-limit.guard.ts:14-37 | After any run of the key, the request is let through exactly when fewer requests than the limit came since the window was opened; it counts the request, sets the expiry exactly when it opened the window, and leaves other keys alone |
| ShortCodes.Generate | src/utils/short-code.generator.ts:18-31 | The loop over six bytes gives the code that the bytes determine |
| ShortCodes.CodeLength | src/utils/short-code.generator.ts:5-31 | A code is over the alphabet and as long as the bytes less one for each whose low six bits are 63 |
| ShortCodes.AlphabetIff | src/utils/short-code.generator.ts:5 | The alphabet is exactly the letters, the digits and the hyphen |
| ShortCodes.GeneratedIff | src/utils/short-code.generator.ts:5-31 | A string can be generated exactly when it is over the alphabet and has at most 6 characters |
| ShortCodes.GeneratedCodeOkIff | src/modules/urls/urls.service.ts:141 | The only generated code that collides with the key of a cached list is `all`, and it can be generated |
| ShortCodes.CustomCodeOk | src/modules/urls/dto/update-url.dto.ts:8 | No custom code of 8 to 16 characters without a colon is a list's key |
| ShortCodes.BatchDistinct | src/utils/short-code.generator.ts:37-56 | However the tasks of a batch take turns, returned codes are pairwise distinct, over the alphabet, at most 6 long, and so never a custom code of 8 to 16 characters |
| ShortCodes.BatchGenerator.TakeTurn | src/utils/short-code.generator.ts:46-53 | One turn of a task takes the machine's step, and goes round again exactly when the code was taken |
| Accounts.RunUnique | src/modules/users/users.service.ts:12-206 | Over every run of registration and Google sign-in no two users share an email or a Google id |
| Accounts.RegistersIff | src/modules/users/users.service.ts:12-47 | A registration succeeds exactly when nobody has the email, and adds one inactive user without a Google id |
| Accounts.LinksIff | src/modules/users/users.service.ts:183-198 | Linking succeeds exactly when no other user has the Google id, sets it and makes the user active |
| AccountInterleaving.UniqueThroughoutIff | src/modules/auth/auth.service.ts:194-242 | However registrations and sign-ins overlap, users stay unique in email and Google id if and only if every write finds its own still free |
| AccountInterleaving.ApartStaysUnique | src/modules/users/users.service.ts:15-37 | If calls that overlap never share an email or a Google id, users stay unique throughout |
| AccountInterleaving.BreaksIffShared | src/modules/auth/auth.service.ts:202-241 | For any sequence of registrations and sign-ins, some course in which they begin in this order breaks uniqueness if and only if two of them share an email or a Google id |
| Accounts.WriteUniqueIff | src/modules/users/users.service.ts:183-198 | One write keeps users unique if and only if nobody else has its email or its Google id when it happens |
| AccountInterleaving.RegistrationsCollide | src/modules/users/users.service.ts:15-37 | Two overlapping registrations with one email both get through |
| AccountInterleaving.CallsRefusedIff | src/modules/users/users.service.ts:183-191 | Exactly which lookups let a suspended call go on, and which end it |
| AccountInterleaving.RegistersAlone | src/modules/users/users.service.ts:12-47 | A registration that nothing overlaps does what the whole call does at once |
| AccountInterleaving.SignsInAlone | src/modules/auth/auth.service.ts:194-242 | So does a sign-in, apart from the name of a user it found, which is brought up to date last |
| Accounts.SignInSucceeds | src/modules/auth/auth.service.ts:216-231 | Google sign-in always succeeds and the user then has that Google id; the conflict branch is never taken |
| Accounts.SignInTold | src/modules/auth/auth.service.ts:202-241 | What a sign-in leaves behind when the Google id is known, when only the email is, and when neither is: who is signed in, the user's name, Google id and activity, and nobody else changed |
| Accounts.SignInAgain | src/modules/auth/auth.service.ts:194-242 | Signing in again with the same details gives the same user |
| Accounts.KeepsGoogleIdIff | src/modules/auth/auth.service.ts:218-223 | A user keeps the Google id through an operation exactly when it is not a sign-in with that user's email and a Google id nobody has |
| Accounts.StableIdentity | src/modules/auth/auth.service.ts:194-242 | After a sign-in and any further run without such a takeover, the same Google id signs the same user in |
| AccountService.AccountService.FindUserByGoogleId | src/modules/users/users.service.ts:71-93 | Finds the user with a Google id, or none when nobody has it |
| AccountService.AccountService.FindUserByEmail | src/modules/users/users.service.ts:49-69 | Finds the user with an email, or none, without the Google id |
| AccountService.AccountService.Register | src/modules/users/users.service.ts:12-47 | Takes the machine's registration and keeps users unique |
| AccountService.AccountService.Link | src/modules/users/users.service.ts:183-206 | Takes the machine's linking, refused when another user has the Google id |
| AccountService.AccountService.ValidateGoogleUser | src/modules/auth/auth.service.ts:194-242 | Takes the machine's sign-in and keeps users unique |

## Left out

- NestJS wiring, controllers, DTO validation, Swagger, configuration, monitoring and logging: no state to reason about.
- The drivers for Kafka, ScyllaDB, Redis, ClickHouse, axios and the mailer: their answers are free parameters of the steps.
- JSON and `Date`: times are integers, as declared; the calendar day of a time is a parameter in `AnalyticsGrouping` and a division by the length of a day in `ClickStats`.
- User-agent expressions, IP anonymisation and the local-address test: string matching that no property needs; the user-agent verdict is a parameter of the arrival step, and so are the enriched copy's location and processing time, which the model drops.
- The columns for address, referrer and country of a detail insert: they are copied from the event.
- The lengths of the waits between attempts, and shutdown: timers, answers and arrivals may come in any order, and a run may stop anywhere.
- JWT signing, bcrypt, refresh, reset and verification tokens, `updatePassword` and `activateUser`: they rest on libraries that are not part of this model.
- `UrlsCleanupService`, `CacheService`, `TrackingService`, `withRetry`, `getClickStats` and `getRecentClicks`: stubs, unused or plain reads.
- Failing Redis calls and overlapping refills of the code pool: excluded by assumption; the coherence invariant does not survive the first.
- In `UrlStore` a write that is reported as refused has landed by then or never lands; the click pipeline's machine does have updates that land later.
- The order of rows in lists and of days in the date report: lists are maps by code, the report is a map by day.
- The `newUrl` field: it is the base address and the code.
- An empty user id, which the service treats like none when it invalidates lists: a user id is absent or not empty.
- `update` without a new code: the new code is always given.
- Reading a reserved key (`all`, `user:...`) as a short code inside `update`: the model answers with a server error without following the list through the rest of the method.
- Aliasing between entries of the dead-letter `Map`: entries are values, which is faithful because an entry is deleted from the map before anyone else holds it.
- `PipelineTheorems.ExactlyOnePlace`: asks for a key of its own, which click events can have and analytics events never do; their counterpart is `PipelinePairs.PairReportedAfterTwo`, and what holds under any clash is in `LostIffClash`.
- `Accounts.RunUnique`: treats each call as atomic; `AccountInterleaving.UniqueThroughoutIff` says exactly when uniqueness survives overlapping calls.
