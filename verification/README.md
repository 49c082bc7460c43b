# Book-translator core: a verified model

This project models the parts of the book translation service whose correctness
depends on more than one function at a time, and proves what those parts promise.
Each module follows one component of the service.

| module | component |
|---|---|
| `Text`, `TextOrder`, `Options`, `Collections`, `Faults` | white space and UTF-8 sizes, text order, optional values, sizes of sets, steps that may fail |
| `Reasoning` | removing a leading reasoning block, on a whole text and on a stream |
| `SseLines` | cutting a byte stream into server-sent event lines (section 9.2 of the WHATWG HTML Living Standard) |
| `Grouping` | cutting a request into groups, and the check of selected groups |
| `Completion` | one completion: attempts, retries, fallback, upstream slots, HTTP 429 (section 4 of RFC 6585) |
| `WorkBudget` | the budget a request shares |
| `Envelope`, `GroupOperation`, `GroupEvents`, `Scheduler`, `BudgetedBatch` | the segment envelope, one group with retry and recovery, what its result says about the answers that came back, the bounded window of workers, the workers together with their budget |
| `SingleFlight`, `RateLimiter`, `Sessions` | coalescing of equal work, rate limits and authentication slots, reader sessions |
| `Retention`, `Timestamps`, `CacheStore`, `BatchCache`, `RepeatedRequest` | the cache table, its eviction order and its text timestamps, serving a request from it, and the same request again |
| `Reconfigure`, `HubMigration`, `ReaderCopy` | crash-safe reconfiguration of the API role, migration to a hub and back, the data copy of one reader |

How the source's effects appear in the model:

- **Concurrency.** Every lock region and every transaction is one method, so an
  interleaving of callers is a sequence of calls. What is proved of every call
  from every valid state holds in every interleaving.
- **Crashes.** `Faults.Step` is one atomic file replacement or one container call.
  It takes effect or not, and then succeeds, raises, or is the last thing the
  process does. The deployment modules pass the world (files and containers) from
  step to step; their postconditions hold at every exit, a crash included. The
  parameter `calm` switches faults off, for statements about when a call succeeds.
- **Providers and budget.** `Completion.Outside` gives, for every step of a request,
  what the budget, the resolver and the provider answer there; any such function is
  possible. Every call, refusal and answer is an event of a trace, and `Truthful`
  says that the trace reports what the outside answered, so an operation gives up
  for the budget exactly when the budget refused it. `SseLines.Checks` does the same
  for the checks of a stream. Token estimates are an arbitrary function of the
  paragraph (`costs`), bounded by a parameter where a bound matters.
- **Clocks.** Readings are integers. Where the service reads the clock before taking
  the lock (`server.py:697`, `reader_session.py:588`, `reader_session.py:631`),
  readings are assumed not to decrease in lock order (`now >= last`).
- **Hashes.** SHA-256 and HMAC values are collision-free, so a digest stands for what
  was hashed.

Contracts that name a specification predicate have a statement beside them that
spells it out: the lemmas ending in `Means`, the module `GroupEvents`, and the calm
clauses of the deployment operations say what happens in terms of events, positions,
rows and literal constants alone.

Where the code falls short of what one would expect, the model keeps the code and
states exactly what happens:

- `Grouping.StartupCheckIsExact`: the startup check budgets one attempt per slice of
  `size` paragraphs. With estimates of at most `most` tokens, that is enough for every
  request of `n` paragraphs if and only if slices of `SafeSize(lim, most)` paragraphs
  are as few: a budget that `size` of the largest paragraphs exceed can need more.
  `Grouping.CostlyRequest` is the request; `Grouping.StartupCheckUnbounded` is the
  case without a bound.
- `RepeatedRequest.SecondRequest`: a request made again is served from the cache with
  the same texts if and only if no later write of the first one reused a key with
  another text, as one paragraph with two translations does, no text reads as
  reasoning, and no backend that is tried earlier holds the group by now.
- `CacheStore.Store.FlushHits`: a row's stored and pending hits together survive a
  flush exactly unless the connection or the clock fails after the counters were
  taken over while hits for that row are pending.
- `CacheStore.OverrunsWhen`: the row bound needs its condition that no pruning rolls
  back, exactly from capacity 2 on; and then there is no bound at all, because a
  rolled-back pruning has reset the counter and may be rolled back again.
- `Reconfigure.StopAfterRollbackSaveIsFinal`, `Reconfigure.RecoverableWhen`: a stop
  between a rollback's state write and its cleanup leaves an agreed world that no
  later request can recover from.
- `HubMigration.CallsAfterLostCommit`: a stop between the last two writes of a hub
  rollback leaves a journal that no later call can finish.

## Model

| member | source | states |
|---|---|---|
| `Reasoning.SkipLeading` | translator.py:1190-1232 | for every cutting into deltas: the size error occurs exactly when the bytes received before anything is shown exceed the cap; otherwise the not-closed error occurs exactly when the one-shot form raises it, the concatenated output is the left-stripped one-shot result, and both are stored as the same stripped value (server.py 1958-1960) |
| `Reasoning.StripLeadingLooks` | translator.py:1179-1187 | the one-shot form decides by what the left-stripped text shows: nothing yet, reasoning still open, or visible text |
| `Reasoning.PlainIsKept` | translator.py:1179-1187 | text that starts, after white space, with anything but the opening tag is kept whole |
| `Reasoning.BlockIsRemoved` | translator.py:1179-1187 | a leading block goes with both tags, up to the first closing one, and what follows stays as it is |
| `Reasoning.UnclosedIsRefused` | translator.py:1179-1187 | a leading block without a closing tag is an error |
| `Reasoning.VisibleMeans` | translator.py:1190-1232 | nothing is shown of a text that may still open a block, whose block is not closed, or that has only white space after it |
| `Reasoning.LookGrows` | translator.py:1190-1232 | once text is visible, further input is appended to it unchanged |
| `Reasoning.TailSuffices` | translator.py:1218-1224 | keeping the last characters, one fewer than the closing tag, is enough to find a closing tag that spans deltas |
| `Text.StripMeans` | translator.py:2151-2153 | stripping keeps the piece from the first to the last character that is not white space, and nothing exactly when there is none |
| `Text.Utf8SizeMeans` | translator.py:2155-2155 | a text has as many bytes as characters exactly when it is ASCII, and never more than four for each |
| `SseLines.IterLines` | translator.py:1848-1876 | lines and outcome are determined by the bytes and the budget's answers, whatever the chunks; the reading expires exactly at a check that fails, with one check per chunk, per line and at the end, every line finished by an earlier chunk yielded and none from a chunk not read; the buffer never exceeds the cap plus one chunk |
| `SseLines.ChunkingIsIrrelevant` | translator.py:1848-1876 | two cuttings of the same bytes yield the same lines and the same error |
| `SseLines.CutIsSplit` | translator.py:1848-1876 | the pieces contain no newline and joining them with newlines gives the input back |
| `SseLines.CutOfJoin` | translator.py:1848-1876 | pieces without byte 10, joined by it, are cut into the same pieces |
| `SseLines.ReadsLines` | translator.py:1848-1876 | however a reading of lines joined by byte 10 ends, it gave the first lines without trailing bytes 13; read to the end, all of them but an empty rest |
| `SseLines.RefusesLine` | translator.py:1848-1876 | the size error occurs exactly when a line exceeds the cap, and at such a line |
| `SseLines.FinishedMeans` | translator.py:1848-1876 | the lines that bytes finish are as many as the bytes 10 in them |
| `SseLines.DropCrMeans` | translator.py:1867-1875 | exactly the trailing carriage returns of a line are removed |
| `Grouping.TranslationGroups` | translator.py:2190-2230 | the groups in order are the paragraphs with text; each is within the count bound and a singleton or within the token budget; no other contiguous plan within the bounds has fewer groups; with budget 0 their number is the rounded-up quotient |
| `Grouping.GreedyIsShortest` | translator.py:2214-2229 | a plan in which no group could take the next paragraph is a shortest one |
| `Grouping.GreedyIsAhead` | translator.py:2214-2229 | after any number of groups the greedy plan has covered at least as much as any other plan |
| `Grouping.WorkMeans` | translator.py:2210-2210 | the work list is increasing and holds exactly the indices of paragraphs with text |
| `Grouping.TextIsGrouped` | translator.py:2210-2210 | a paragraph is in a group exactly when it has a character that is not white space |
| `Grouping.GroupMeans` | translator.py:2214-2229 | every group keeps to the count and token limits, but for a single costly paragraph, and the next paragraph would have broken one of them |
| `Grouping.ChosenGroupsAreSelected` | translator.py:2496-2524 | any selection of a plan's groups, in order, passes the check of selected groups |
| `Grouping.StartupCheckIsExact` | server.py:172-179 | with estimates of at most `most` tokens, one attempt per slice covers every request of `n` paragraphs exactly when slices of the safe size are as few |
| `Grouping.StartupCheckUnbounded` | server.py:172-179 | without a bound on the estimates, exactly when the token budget is 0, the size is 1 or `n <= 1` |
| `Grouping.CostlyRequest` | server.py:172-179 | a request of the largest paragraphs whose greedy plan has one group per safe slice |
| `Completion.Attempt` | translator.py:1383-1392 | one attempt has the trace of its end: refused at a gate, endpoint unresolved, or called, with the slot given back on every exit; the trace is what the outside answered |
| `Completion.EligibleIsPermitted` | translator.py:846-853 | whatever goes to an eligible provider goes to the primary, or to a fallback that is local or consented to |
| `Completion.CallProvider` | translator.py:1426-1580 | at most `maxRetries` calls to one provider, none after a final outcome, a pause between any two attempts, slots balanced; it gives up for the budget exactly when the trace ends in a refusal, with that reason; the next provider may be used only after the attempts are used up or the answer was unusable |
| `Completion.TakePause` | translator.py:1395-1406 | the pause before a retry is taken or refused, as the budget answers |
| `Completion.Complete` | translator.py:1583-1631 | providers in order, at most `maxRetries` calls each, every slot released exactly once, no call after HTTP 429, and nothing sent to a remote fallback without consent; an answer is the last call's, with every earlier provider tried out; it ends for the budget exactly when the budget refused; any other failure met a final outcome or tried every provider out, and reports rate limiting exactly when one was seen |
| `Completion.CompleteMeans` | translator.py:1583-1631 | an answer is returned exactly when one came back, a budget end exactly when the budget refused, and a rate limit reported exactly when an HTTP 429 was met |
| `Completion.GoesOnOnlyAfter` | translator.py:1466-1578 | work goes on only after HTTP 408, 500, 502, 503 or 504, a lost connection, a missing address or an unusable answer, and only with the primary or a permitted fallback |
| `Completion.NobodyPassedOver` | translator.py:1583-1631 | every provider before the answering one, and every permitted one when nothing final happened, was asked `maxRetries` times or answered with something unusable |
| `Completion.AsksInTurn` | translator.py:1426-1580 | at most `maxRetries` calls to a provider, the next one only after a pause, providers in order |
| `Completion.CallsAreReserved` | translator.py:1433-1472 | every call was reserved just before, and every reservation was used at once |
| `Completion.NoSlotLeaks` | translator.py:1383-1392 | each slot taken is given back before the next is taken; calls lie between the two, pauses outside |
| `Completion.EligibleMeans` | translator.py:846-853 | the first eligible provider is the primary, the second the fallback, present exactly when it is local or consented to |
| `Completion.RateLimitIsFinal` | translator.py:1583-1631 | no call in the trace of a completion follows a rate-limited reply |
| `WorkBudget.Budget.Cancel` | work_budget.py:55-61 | the first reason is kept |
| `WorkBudget.Budget.EnsureActive` | work_budget.py:63-69 | refuses with the recorded reason, else with the deadline once it has passed |
| `WorkBudget.Budget.ReserveAttempt` | work_budget.py:75-99 | admits exactly when every counter stays within its cap; a refused reservation changes no counter; after a cancellation every reservation is refused with its reason |
| `Envelope.ParseItemsMeans` | translator.py:2143-2162 | items are accepted exactly when each position carries its expected id and a non-blank text and the texts fit the cap; the result is those texts |
| `Envelope.RoundTrip` | translator.py:2118-2162 | an envelope written for given ids and texts is accepted for those ids and returns the stripped texts, exactly when none is blank and they fit |
| `Envelope.ParseMeans` | translator.py:2118-2162 | a document is accepted exactly when it fits and is the protocol object over one item per id, in the order of the ids, whose stripped texts fit |
| `Envelope.ItemTextMeans` | translator.py:2143-2158 | an item counts exactly when its two fields are the expected id and a text that is not blank after stripping |
| `GroupOperation.TranslateGroup` | translator.py:2286-2424 | for every provider and budget behaviour: one item per index, or the exception of the completion that was due; at most `(n + 2) * P` attempts, only permitted providers, slots balanced, a budget stop exactly with a refusal at the end; items are the single completion's answer, the first completion's envelope accepted for its ids, after a rejected first envelope the second completion's, or, after two rejected envelopes, one further completion per paragraph, in order, each giving its item, with recovered and failed segments adding up to `n` |
| `GroupOperation.CacheableTogether` | translator.py:2286-2424 | either all items are cacheable or none is and the group was recovered by paragraph; cacheable items name their provider |
| `GroupOperation.TryEnvelope` | translator.py:2324-2361 | one completion of its own after the given trace: accepted for exactly the ids sent, rejected, or raising |
| `GroupOperation.RecoverParagraphs` | translator.py:2376-2424 | one uncacheable item per paragraph, each the outcome of one completion of its own, in order; a paragraph is given up only when that completion failed; recovered and given-up items add up; only a refusal of the budget stops it |
| `GroupOperation.EachParagraphCalls` | translator.py:2376-2424 | every recovered or given-up paragraph has calls of its own in the trace |
| `GroupOperation.RejectionsDiffer` | translator.py:2324-2361 | two rejections are two completions, the second after the first |
| `GroupEvents.ServedWhole` | translator.py:2286-2361 | a single text is the answer itself; otherwise item `j` is the `j`-th text parsed from the answer that ended the trace, under the first ids, or under the second when the first answer of all did not parse, from the provider that gave it |
| `GroupEvents.ServedOneByOne` | translator.py:2376-2424 | the first two answers did not parse; then the trace falls into one part per paragraph, in order, whose answer is the item's text, or which has no answer and gives the error text for a rate limit or for an unavailable provider; the tracker counts both |
| `GroupEvents.StoppedMeans` | translator.py:2286-2424 | a budget stop ends with a refusal for its reason; an unserved group met no refusal, had at most one answer, which did not parse, and reports a rate limit exactly when it met one |
| `GroupEvents.ProtocolServesGroup` | translator.py:2324-2361 | a provider that follows the protocol and is let through serves the group from its first answer: paragraph `j` gets the stripped text given for it |
| `GroupEvents.AnswerServesSingle` | translator.py:2311-2316 | a single paragraph whose calls are let through gets the answer's text |
| `GroupEvents.ProtocolAnswerIsServed` | translator.py:2324-2361 | from an accepted envelope that follows the protocol, item `j` has the stripped `j`-th text |
| `GroupEvents.AcceptedMeans` | translator.py:2324-2361 | an accepted envelope's items are the parsed texts of the last answer, in order, with its provider and path |
| `GroupEvents.RejectedMeans` | translator.py:2324-2361 | a rejected envelope is a last answer that does not parse under the ids sent with it |
| `GroupEvents.FromCallsMeans` | translator.py:2376-2424 | the recovery trace falls into consecutive parts, one per paragraph, each giving its item |
| `Scheduler.RunWindow` | translator.py:2528-2631 | for every completion order: never more futures than allowed; results exactly when every worker finished; each selected index then holds its own group's item and all others are empty; otherwise the error is one a worker gave and the budget holds the reason it had before, or else a worker's |
| `Scheduler.ReserveAfterFailure` | work_budget.py:75-99 | after a failed batch every reservation is refused with the first recorded reason |
| `Scheduler.DoGroup` | translator.py:2531-2584 | a worker ends over budget when its checks are refused, else with exactly the items or the budget's reason of its group operation, or one error text per paragraph of an unserved group; finished, it has one item per paragraph, and cacheable ones name their provider |
| `Scheduler.ResultsNameProviders` | translator.py:2606-2619 | cacheable results of a batch name their provider |
| `BudgetedBatch.TranslateBatch` | translator.py:2528-2631 | a worker that is not late finds the budget closed and calls nobody, or ends as its group operation did on its trace; the results then hold, position by position, the items of every group's operation, or its error text, and nothing elsewhere; if the workers were told what the budget answered, the reserved attempts in all their traces number exactly what the budget granted, hence at most its maximum |
| `BudgetedBatch.ResultsAreAnswers` | translator.py:2528-2631 | no result is made up: a cacheable item is the group's answer or what was parsed from it at its own position, another item with a provider is an answer that provider gave, and any other is an error text; a group is cacheable as a whole or not at all |
| `BudgetedBatch.AttemptsAreAdmissions` | work_budget.py:75-99 | summed over the workers, reserved attempts are exactly the admissions |
| `BudgetedBatch.AnswerAll` | work_budget.py:75-99 | answering in lock order grants one reservation per admission |
| `Scheduler.Round` | translator.py:2589-2619 | one pass makes progress, keeps every submitted group either running or written, and records no reason but a worker's, also one that is still running |
| `Scheduler.Collect` | translator.py:2593-2619 | finished groups are written once each; the first failure found is reported |
| `Scheduler.Report` | translator.py:2544-2554 | a failing worker's reason is recorded unless one already was |
| `Scheduler.SelectedIsDisjoint` | translator.py:2496-2524 | selected groups share no index |
| `SingleFlight.OneOperationPerKey` | singleflight.py:106-167 | two threads executing an operation for one key are the same thread |
| `SingleFlight.Registry.Enter` | singleflight.py:117-141 | joins exactly when the key has an entry that has not expired; else leads, or is rejected, which happens only when all entries are active; no active flight is expired or evicted, and the one entry that may be evicted is the oldest completed one; with TTL 0 no completed flight is joined; counters are conserved and the registry stays within its bound |
| `SingleFlight.Registry.Complete` | singleflight.py:142-155 | the leader's outcome is stored in its own flight only |
| `SingleFlight.Registry.Wake` | singleflight.py:156-167 | a follower that does not time out gets exactly the outcome of the flight it joined, even if the entry is gone |
| `SingleFlight.Registry.Invalidate` | singleflight.py:169-174 | drops a completed flight only |
| `SingleFlight.Registry.Stats` | singleflight.py:176-191 | expires what is due and reports the entries left, the running ones and the counters |
| `SingleFlight.OldestCompleted` | singleflight.py:82-92 | finds the completed flight with the earliest completion, the smaller key on a tie, or none exactly when all are active |
| `SingleFlight.Settle` | singleflight.py:72-92 | expired entries go; if the key is new and the registry full, the oldest completed entry goes too, and there is room unless all entries are active |
| `SingleFlight.SettledEntries` | singleflight.py:72-92 | what stays had not completed, or less than `ttl` ago; at most one such entry is missing, only from a full registry without the new key, and it had completed first, or under the first key at the same reading |
| `RateLimiter.Limiter.Check` | server.py:693-719 | admitted exactly when fewer than `limit` admissions of the key, and fewer than `maxClients` other keys with one, lie in the last 60 seconds; only admissions enter the history |
| `RateLimiter.Limiter.Cleanup` | server.py:506-523 | the background sweep changes no later decision |
| `RateLimiter.Consume` | server.py:699-719 | pruning, reclaiming and refusing on the store agree with `Decide`, and the store stays within its bound |
| `RateLimiter.NoWindowOverflows` | server.py:693-719 | no window of that length, wherever it starts, holds more than `limit` admissions of a key |
| `RateLimiter.AdmissionsPerMinute` | server.py:693-719 | no 60 seconds hold more than `limit` admissions of one key, counted in the history itself |
| `RateLimiter.DecideMeans` | server.py:693-719 | the decision, counted over positions of the history |
| `RateLimiter.AuthSlots.Acquire` | server.py:528-537 | granted exactly when the client is below its limit and known or there is room for it; the store counts exactly the slots held |
| `RateLimiter.AuthSlots.Release` | server.py:540-546 | gives back one slot and forgets a client with its last one; without a slot nothing changes |
| `Sessions.Broker.Exchange` | reader_session.py:574-618 | records the issue, rotates the presented session, and leaves at most `max` sessions |
| `Sessions.Broker.Authenticate` | reader_session.py:620-644 | accepts exactly when the latest issue is unexpired, not rotated or removed, made for this address and agent, and no exchange since its last use found `max` live sessions issued or used more recently; returns that issue's subject |
| `Sessions.Broker.RemoveToken` | reader_session.py:568-572 | the removal is recorded and the table represents the new history |
| `Sessions.Broker.Revoke` | reader_session.py:646-657 | removes exactly what authentication accepts; whatever other callers do between its two lock regions, the token is out afterwards |
| `Sessions.Broker.Others` | reader_session.py:568-644 | any steps of other callers, with readings in lock order, keep the broker valid and only extend the history |
| `Sessions.Insert` | reader_session.py:595-608 | inserting, purging and evicting leave a table that represents the longer history |
| `Sessions.Lookup` | reader_session.py:632-644 | the table's answer is the history's answer, for every table that represents the history |
| `Sessions.EvictRepresents` | reader_session.py:600-608 | dropping the oldest entries is the same as being displaced in the history |
| `Sessions.OlderIsDisplaced` | reader_session.py:607-608 | a displaced session takes every older one along |
| `Sessions.LaterIsMoreRecent` | reader_session.py:600-608 | entries further back in the table are exactly the live sessions used more recently |
| `Sessions.RemovedStaysOut` | reader_session.py:568-572 | a removed or rotated token stays out until it is issued again |
| `Sessions.AcceptedMeans` | reader_session.py:632-644 | accepted exactly when issued for this address and agent, not expired, not issued again, traded in or removed since, and not displaced |
| `Sessions.GrantMeans` | reader_session.py:568-618 | a grant is in force exactly when nothing after its issue withdrew it |
| `Sessions.DisplacedMeans` | reader_session.py:600-608 | displaced exactly when an exchange after the last touch found `max` live sessions touched later |
| `Sessions.LastTouchMeans` | reader_session.py:632-644 | the last touch is the last issue or use |
| `Retention.KeptSize` | cache.py:671-679 | the cap keeps as many rows as it may |
| `Retention.KeptIsUpward` | cache.py:671-679 | a row that outranks a kept row is kept |
| `Retention.KeptAreRecent` | cache.py:671-679 | every kept row was used after every dropped one, or at the same time and created later, or has the later key |
| `Timestamps.TextOrderIsTimeOrder` | cache.py:378-379 | text order of UTC ISO timestamps, with or without microseconds, is time order |
| `Timestamps.EarlierIsTime` | cache.py:378-379 | comparing calendar fields from the year down is comparing instants |
| `Timestamps.StoredForm` | cache.py:378-379 | the stored text is the zero-padded fields, a fraction of six digits if there is one, and the UTC offset |
| `CacheStore.Store.constructor` | cache.py:290-292 | opening the store prunes what it finds to the cap |
| `CacheStore.Store.Get` | cache.py:419-466 | answers from the table alone; fails exactly when the row has expired and the delete fails; otherwise an expired row reads as a miss and only it is deleted; a hit is recorded once if asked for |
| `CacheStore.Store.GetMany` | cache.py:468-530 | one answer per probe, each the one `get` gives on the same table and clock, and the same rows evicted; fails exactly when a delete was needed and failed; records one hit per answered probe if asked to |
| `CacheStore.AnswerMeans` | cache.py:419-466 | a lookup answers with the row's text exactly when the row has not expired and does not open with a reasoning tag that the paragraph lacks |
| `CacheStore.LookupMeans` | cache.py:468-530 | probe by probe and key by key: the answers, the rows that go, and one hit for every answered probe |
| `CacheStore.Store.GetEach` | cache.py:468-530 | a `get` per probe in turn gives those answers and that table, although it evicts rows on the way |
| `CacheStore.Store.DeleteStale` | cache.py:438-449 | an expired row is deleted only if it is still the row that was read |
| `CacheStore.Store.QueueHit` | cache.py:544-551 | one more pending hit of that key, and the total stays the sum of the counts |
| `CacheStore.Store.BeginFlush` | cache.py:554-561 | the counters move to the flush as a whole |
| `CacheStore.Store.CommitFlush` | cache.py:565-575 | every row of the batch gains exactly its count and its use time, and no other row changes |
| `CacheStore.Store.ReturnFlush` | cache.py:576-581 | a rolled-back flush puts every hit back beside those queued meanwhile |
| `CacheStore.Store.CutShort` | cache.py:563-564 | a failure before the update loses exactly the batch |
| `CacheStore.Store.FlushHits` | cache.py:553-582 | stored plus pending hits of each row are unchanged exactly unless the flush stops before its update with hits for that row pending |
| `CacheStore.Store.PutMany` | cache.py:596-663 | new state of table, counter and ledger for every ending; after a commit fewer than `max + min(1000, max)` rows, unless a pruning was rolled back |
| `CacheStore.Store.Cleanup` | cache.py:681-701 | flushes, then prunes to the cap with its own cutoff and counts the expired rows; raises exactly when the flush or the pruning fails |
| `CacheStore.Store.Prune` | cache.py:691-701 | retention in one transaction, or no change |
| `CacheStore.OverrunsWhen` | cache.py:651-663 | runs with rolled-back prunings exceed the bound, and every bound, exactly from capacity 2 on |
| `CacheStore.UpsertRow` | cache.py:629-645 | the last write of a key is what the row holds, with the row's hits kept |
| `CacheStore.UpsertHits` | cache.py:629-645 | an upsert changes no hit count and adds exactly the written keys |
| `CacheStore.UpsertOther` | cache.py:629-645 | a row whose key is not written stays as it was |
| `CacheStore.PrunedMeans` | cache.py:665-679 | retention keeps only rows created since the cutoff, as many as it may, and of those the ones used last |
| `CacheStore.EvictedAnswers` | cache.py:498-518 | evicting expired rows changes no answer |
| `CacheStore.WrittenMeans` | cache.py:628-660 | a committed write keeps the ledger balanced and the size bounded |
| `BatchCache.TranslateParagraphs` | server.py:1019-1192 | each group is served whole from the cache under the first backend and contract that has all of it, or whole from its own worker's items; it raises exactly when a needed worker fails; cached, fresh and error-marked slots add up to the paragraphs with text, and the two counts are numbers of slots; exactly the cacheable items without the error mark, of groups not served from the cache, are written, each for its own paragraph under its group's contract and the backend that answered; one hit per cached paragraph |
| `BatchCache.Settle` | server.py:1154-1192 | the same for every result the translator may return |
| `BatchCache.DecisionMeans` | server.py:1102-1125 | a group is missing exactly when no backend has all of it under its own contract or the single-paragraph one; else the first backend in order is chosen, under the own contract if any has it there |
| `BatchCache.CoversMeans` | server.py:1090-1100 | a scope covers a group exactly when every paragraph of it is answered there |
| `BatchCache.ErrorsAreMarked` | translator.py:2408-2413 | every text that stands for a failed paragraph starts with `[TRANSLATION ERROR:`, and is not cacheable |
| `BatchCache.CountsMean` | server.py:1155-1192 | the counts are the numbers of cached slots and of fresh slots without the error mark |
| `BatchCache.ProbeMany` | server.py:1041-1062 | the memoised probe answers as `get` would for every paragraph |
| `BatchCache.LookupGroups` | server.py:1102-1137 | decisions, cached slots, counts and recorded hits of the lookup loop |
| `BatchCache.AllWritesMeans` | server.py:1155-1183 | membership of the write list, both ways |
| `BatchCache.PlanIsServable` | server.py:1024-1032 | every plan of the planner meets the preconditions, and its missing groups pass the selected-groups check |
| `RepeatedRequest.SecondRequest` | server.py:1019-1192 | a group the first request translated and stored is served again, under the same scope with the same texts, if and only if no later write reused one of its keys with another text, none of its texts reads as reasoning, and no backend tried earlier holds the group under its contract |
| `RepeatedRequest.TwoTranslations` | cache.py:629-645 | one paragraph with two translations in a group does not repeat |
| `RepeatedRequest.ServedAgain` | server.py:1127-1131 | what the second request then serves |
| `RepeatedRequest.DecidesForWriter` | server.py:1102-1125 | the second lookup decides for the scope written exactly when that scope holds the group and no backend has overtaken it |
| `RepeatedRequest.SoleWriter` | translator.py:2233-2283 | a group whose contract only one backend wrote under is not overtaken |
| `RepeatedRequest.UpsertLast` | cache.py:629-645 | a key holds what its last write said, or what it held before |
| `Reconfigure.Reconfigure` | btctl_reconfigure.py:479-608 | with a failure or crash after any step the invariant holds; on return state, environment and container agree on the new configuration, after a rollback on the old one; without a journal they always agree; without faults the call finishes a committed journal, rolls any other recoverable one back and then replaces the container exactly when the request changes the restored environment, and leaves an unrecoverable world alone |
| `Reconfigure.ReconfigureCalmly` | btctl_reconfigure.py:167-181 | without faults, from an agreed world or one to be rolled back: nothing is done exactly when a setting outside the provider keys differs or every provider key already has its value; otherwise the provider keys, and no others, become the requested ones, the empty text for one not requested |
| `Reconfigure.Recover` | btctl_reconfigure.py:374-468 | recovery commits or rolls back to an agreed world, or leaves the world alone; without faults it commits, or rolls back, exactly when the journal, both snapshots, state and container are as that needs |
| `Reconfigure.Apply` | btctl_reconfigure.py:493-608 | from an agreed world: returns with the target, rolls back to the environment and settings before, or leaves a journal with intact evidence |
| `Reconfigure.Restore` | btctl_reconfigure.py:457-468 | a rollback ends agreed on the old environment, or keeps both snapshots, or had already agreed when its cleanup began |
| `Reconfigure.HandleFailure` | btctl_reconfigure.py:576-608 | the handler's rollback ends agreed or keeps a journal, whatever had reached the disk |
| `Reconfigure.Cleanup` | btctl_reconfigure.py:470-477 | removing snapshots before the journal keeps the world agreed at every step |
| `Reconfigure.BringUp` | btctl_reconfigure.py:549-561 | a started replacement has a fresh id and the new environment; anything less leaves the journal's evidence intact |
| `Reconfigure.Commit` | btctl_reconfigure.py:562-572 | state changes only after the journal says verified with the same container id |
| `Reconfigure.RemoveApi` | btctl_reconfigure.py:258-270 | the container is gone on success, and otherwise the old one or nothing |
| `Reconfigure.StartApi` | btctl_reconfigure.py:272-314 | on success a running container with a fresh id and the environment on disk |
| `Reconfigure.TargetRealises` | btctl_reconfigure.py:170-178 | the target environment carries every requested setting |
| `Reconfigure.Calls` | btctl_reconfigure.py:479-608 | over any number of calls, each interrupted anywhere: the invariant, agreement without a journal, and no settings but the first ones or requested ones |
| `Reconfigure.CallsWithoutRecovery` | btctl_reconfigure.py:374-468 | once no request can recover, no call changes anything |
| `Reconfigure.StopAfterRollbackSaveIsFinal` | btctl_reconfigure.py:448-468 | a stop between a rollback's state write and its cleanup is agreed but refused for every later request |
| `Reconfigure.RecoverableWhen` | btctl_reconfigure.py:374-468 | some request can recover exactly when the snapshots are intact and the state is the journal's old one, or its verified new one with its container present |
| `HubMigration.Calls` | btctl_hub.py:1489-1666 | over any run of calls from a world without a hub: a hub container and a running source never coexist, and nothing runs that did not run at the start |
| `HubMigration.Migrate` | btctl_hub.py:1489-1633 | the invariant at every exit; after success the hub runs and all sources are stopped with their copies on record; after a recovery exactly the initially running sources run; without faults it succeeds exactly for no journal, or one prepared, copying or failed with the same plan, when the plan's hub runs already, or there is no hub, no attempt but a cleaned one of the plan, and no state but an uninstalled or rolled back one; a finished journal is refused without change |
| `HubMigration.Rollback` | btctl_hub.py:1635-1666 | the invariant at every exit; after success no hub and exactly the initially running sources; without faults it succeeds exactly for a finished rollback, or a committed journal whose state of the same plan is active with the hub not stopped, uninstalling or uninstalled, with no attempt but its own; otherwise nothing changes |
| `HubMigration.MoveToHub` | btctl_hub.py:1554-1633 | sources stopped, data copied, hub installed, journal committed, in that order, for a fault after any step |
| `HubMigration.HandleFailure` | btctl_hub.py:1588-1624 | sources are restarted only when the hub container is known to be gone; while one exists, or may, they stay as they are |
| `HubMigration.RestartSources` | btctl_hub.py:1442-1462 | exactly the initially running containers run afterwards |
| `HubMigration.StopSources` | btctl_hub.py:1562-1565 | all source containers are stopped on success |
| `HubMigration.Install` | btctl_hub.py:796-971 | starts a hub only from a world with everything stopped and copied; refused without change unless `MayInstall` |
| `HubMigration.CleanUpInstall` | btctl_hub.py:928-971 | a new `cleaned` record implies that the hub container is gone |
| `HubMigration.Uninstall` | btctl_hub.py:1101-1202 | on success the hub is gone and the state says so; refused without change unless `MayUninstall` |
| `HubMigration.AdoptActive` | btctl_hub.py:1536-1553 | an active hub of an earlier call is committed only while it runs |
| `HubMigration.CopyAll` | btctl_hub.py:1566-1577 | on success every reader's copy is on record |
| `HubMigration.ThereAndBack` | btctl_hub.py:1489-1666 | without faults a first migration succeeds and its rollback restores exactly the containers that ran |
| `HubMigration.CallsAfterLostCommit` | btctl_hub.py:1655-1666 | after a stop between the last two writes of a rollback no call changes anything |
| `ReaderCopy.Converges` | btctl_hub.py:1398-1440 | any number of interrupted runs and then one left alone: target files equal source files, no work tree, and a published target was never changed |
| `ReaderCopy.CopyReaderData` | btctl_hub.py:1398-1440 | never touches a published target; publishes only the whole source; without faults it succeeds exactly when the source has `translations.db` and whatever is published or on record is the source, with no work tree beside it; otherwise nothing changes |
| `ReaderCopy.CopyAndRecord` | btctl_hub.py:1566-1577 | success means published and on record |
| `ReaderCopy.CopyAtomic` | btctl_lifecycle.py:797-810 | the target is absent or the whole source, with no work tree beside it |
| `ReaderCopy.FillWork` | btctl_lifecycle.py:741-750 | copying in any order of files, with partly written files on the way, ends in the source's files |
| `ReaderCopy.RemoveWork` | btctl_hub.py:1434-1435 | removal in any order ends without a work tree and touches nothing else |

## Left out

- HTTP transport, deadline sockets, DNS pinning and response reading: a provider call is an arbitrary outcome.
- `auth.py`, key files and cookie decoding: network and cryptography; its TTL cache repeats the session-table argument.
- Configuration validation (`btctl_core.py`, `hub_runtime.py`, `proxy/`, `envconfig.py`): every check is settled by one branch.
- `batch_cache_contract` and the context hash: a contract is an opaque value that belongs to a group.
- Docker, Compose and Unraid plumbing: only the effect of a call on the containers is kept.
- `LegacyUpgrade`, `DeploymentDoctor` and the split uninstaller: mostly evidence checks of the kind the two journals already show.
- Flask routes, metrics, logging, glossary, feedback and EPUB export: input, output and formatting.
- JSON decoding of provider output is a parameter; the envelope is checked on the decoded document.
- Real SQL, file permissions, durability of directory entries and symbolic links: a table is a map, a file replacement is atomic, a tree is its regular files.
- Source containers that drift, or are started by someone else during a migration: refused by checks that the model lets fail at any time, but not represented as states.
- The hub's own changes to copied data and the session keys it creates: the copy is checked again by `_copy_reader_data` on every run, which the model lets fail.
- The deployment steps and the cache's request pipeline work on values that are passed on instead of objects updated in place; aliasing does not arise in the source there.
- `_cleanup` in `btctl_reconfigure.py` is not shown to finish: a stop inside it can leave a journal without snapshots, which recovery refuses; the world agrees all the same.
- HubMigration.HandleFailure: when the hub cannot be inspected, sources may be left partly stopped, as the source leaves them.
- CacheStore.Store.PutMany: the bound is stated for runs without a rolled-back pruning, as the counter is not restored by a rollback.
- BatchCache.TranslateParagraphs: the table and the clock are fixed during the request; error codes and retry delays of single paragraphs are not kept.
- RepeatedRequest.SecondRequest: is stated for a group whose items one backend answered, as every stored group's are, and for a table that has only lost rows since, none of them the group's.
- BudgetedBatch.TranslateBatch: that a worker was told what the budget answered is a condition of the count, since the outside is arbitrary; queueing for slots is not tied to a semaphore.
- CacheStore.Store.GetMany: a flush that falls due while hits are recorded is left to the caller.
- Scheduler.DoGroup: failures of a group operation other than the budget's and the providers' are not modelled; they too become error items.
