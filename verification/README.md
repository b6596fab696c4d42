# Automation server: a verified model of its core

The repository is a social-media automation server. This project models, in Dafny 4.11, the
parts of it where state, time and concurrency meet, and proves what those parts promise.
`dafny verify dfyconfig.toml` checks everything.

| file | what it models |
|---|---|
| TokenBucket.dfy | the continuously refilling rate-limit bucket, over `real` tokens and integer milliseconds |
| Broker.dfy, BrokerRuns.dfy, BrokerWindow.dfy | the rate-limit broker with its hard quota; all interleavings of suspended callers |
| Retry.dfy | the retry loop, its jittered exponential delays, and the dead-letter table |
| Outbox.dfy, OutboxRows.dfy, OutboxProtocol.dfy, OutboxDrain.dfy, Poller.dfy | the outbox table and its statements, and what each stores; API calls, overlapping ticks and publishes in flight interleaved at every await; how a backlog drains; one publish end to end |
| Multipart.dfy | the hand-written multipart parser of the backup import, on bytes, against an encoder |
| LineStream.dfy, OpenAiStream.dfy, AnthropicStream.dfy | the two streaming readers over arbitrarily cut text |
| DataLines.dfy, OpenAiEvents.dfy, AnthropicEvents.dfy | what a line carries, and what the readers make of a stream of messages |
| Aggregator.dfy, Calendar.dfy, MetricLaws.dfy, Rollup.dfy, TopPosts.dfy | the analytics aggregation, its calendar and metric names, the roll-up rows, leaderboards and week-over-week deltas |
| CrmStore.dfy, CrmRows.dfy, CrmListing.dfy, Crm.dfy, CrmPages.dfy, CrmRuns.dfy | the CRM tables and statements and what they store, the pages of the list, the batched contact list, the repository class, and all runs of ingest, sync, merge and delete |
| StoredTime.dfy, CrmTime.dfy | stored time texts and the instants they mean; when a timeline is in order of time |
| Approvals.dfy, ApprovalLaws.dfy | the approval queue with its timers, and the cause of every outcome |
| XQuota.dfy, XQuotaNotices.dfy | the monthly write quota of X: ledger, guard, the check-await-record bracket and the notices |
| InboxRules.dfy | condition trees and the rule fold |
| Sorting.dfy, Text.dfy, JsMaps.dfy, Wrappers.dfy | a stable sort, text order, insertion-ordered maps, Option and Result |

How the model is built. Objects that change are classes whose methods are proved against
functions on values; loops are loops. A protocol is a step function over a state, and its
results quantify over every list of steps. An `await` ends a step. Clock readings, random
draws, replies of remote calls, parsed JSON, string collation and number formatting are
parameters, so every result holds for all of them. A statement of SQL is a function on the
table; where SQL leaves the order of ties open, every order is allowed.

Where the code does something its comments or tests do not say, the model follows the code:

- A sleep of 0 ms is possible when the clock ticks between the two readings of one turn of
  `acquire` (BrokerRuns.SleepLength, BrokerRuns.ZeroSleepHappens), and a lone `acquire` without a timeout for a cost above
  capacity never returns (Broker.WaitsForeverSleeps). The advertised wait is not enough while
  the clock stands behind the last refill (TokenBuckets.WaitIsLeast).
- `retry` with fewer than one attempt makes no call at all (Retry.Run).
- A `null` event throws out of both streaming readers, and a last line without its newline is
  dropped (the `OutputUpToEnd` and `OutputWithoutEnd` lemmas).
- `filename="` matches the name pattern too, so a part that puts `filename` before `name`, as
  RFC 7578 allows, is filed under its file name and the file is lost
  (Multipart.FilenameFirstLosesFile); Multipart.FieldReadBack and Multipart.BackupFormRoundTrip
  give the exact condition.
- A NUL in a platform name makes two posts share a map key; then a platform's value can fall
  when the window grows (Rollup.GrowsIffKeysTellApart). Day keys of the years 0 to 99 mean 1900
  to 1999.
- The two weeks of the delta report overlap in one instant (TopPosts.WeeksShareOneInstant).
- Timelines are ordered by stored time text. Connectors store `T` formats, a missing sent time
  falls back to the space format of `datetime('now')`, and on one day the space sorts first: a
  message stamped 11:00 by the database stands before one sent at 10:00
  (CrmTime.TimelineOutOfTimeOrder). CrmTime.TimelineInTimeOrder says when the order is that of time.
- The exceeded notice of a month is missed for good when the month turns between recording the
  write that fills it up and re-evaluating (XQuota.ExceededUnlessFilledUnseen, XQuota.MissedForGood).

Row ids are never reused: the tables declare `AUTOINCREMENT`
(migrations/0007-outbox.sql:18, migrations/0009-crm.sql:21), and runs start with empty tables.

## Model

| member | source | states |
|---|---|---|
| TokenBuckets.TokenBucket.Create | src/platform/rate-limit/token-bucket.ts:30-38 | the constructor refuses a capacity that is not positive and a negative rate, in that order, and starts with the given tokens capped at capacity |
| TokenBuckets.TokenBucket.RefillTo | src/platform/rate-limit/token-bucket.ts:40-46 | the new token count and last refill; a reading that has not advanced changes nothing |
| TokenBuckets.TokenBucket.Utilization | src/platform/rate-limit/token-bucket.ts:48-57 | the refilled bucket and its used share |
| TokenBuckets.TokenBucket.TryConsume | src/platform/rate-limit/token-bucket.ts:60-68 | a free cost is granted without reading the clock; otherwise granted exactly when the refilled bucket holds it, and then paid |
| TokenBuckets.TokenBucket.MsUntilAvailable | src/platform/rate-limit/token-bucket.ts:74-79 | the refilled bucket and the advertised wait of it |
| TokenBuckets.CeilIsLeastCover | src/platform/rate-limit/token-bucket.ts:78 | the rounded quotient is the least whole number of milliseconds whose refill covers the shortage |
| TokenBuckets.RefillComposes | src/platform/rate-limit/token-bucket.ts:40-46 | refilling at two rising readings is refilling at the later one |
| TokenBuckets.WaitIsLeast | src/platform/rate-limit/token-bucket.ts:74-79 | for a cost the bucket can hold, waiting n ms suffices if and only if n reaches the advertised wait (plus the catch-up of a clock that stands behind the last refill) |
| TokenBuckets.OversizeNeverAffordable | src/platform/rate-limit/token-bucket.ts:74-79 | a cost above capacity is never affordable, yet with a positive rate a finite positive wait is advertised for it |
| TokenBuckets.StepFacts | src/platform/rate-limit/token-bucket.ts:40-79 | one call: tokens plus what is granted equal the capped refill for the advance of the highest reading |
| TokenBuckets.RunFacts | src/platform/rate-limit/token-bucket.ts:40-68 | over any calls and any clock readings, tokens stay within 0..capacity when they start there, and the last refill is the highest reading seen |
| TokenBuckets.TokensAreLeastHeadroom | src/platform/rate-limit/token-bucket.ts:40-68 | after any run the token count is exactly the least of the starting allowance and of every window's headroom |
| TokenBuckets.WindowBound | src/platform/rate-limit/token-bucket.ts:40-68 | between any two points of a run the cost granted is at most capacity plus rate times the advance of the highest reading, whatever the clock does |
| TokenBuckets.GrantedIffEveryWindowFits | src/platform/rate-limit/token-bucket.ts:60-68 | from a full bucket a positive cost is granted if and only if no window ending with it would be overdrawn: the bucket refuses nothing it need not |
| Broker.RateLimitBroker.Configure | src/platform/rate-limit/broker.ts:93-104 | registers or replaces one platform with a full bucket and its quota, or fails and changes nothing; other platforms keep their objects |
| Broker.RateLimitBroker.Reset | src/platform/rate-limit/broker.ts:112-115 | the quota is the initial one again, nothing else changes; an unknown platform is ignored |
| Broker.RateLimitBroker.MaybeWarn | src/platform/rate-limit/broker.ts:122-139 | the sampled platform; one warning, with the budget and the rounded tokens in use, is emitted exactly when the flag goes up |
| Broker.RateLimitBroker.Take | src/platform/rate-limit/broker.ts:165-169 | grants exactly when the bucket can pay, then pays bucket and quota and samples again; otherwise only refills |
| Broker.RateLimitBroker.Resume | src/platform/rate-limit/broker.ts:164-181 | one turn of the loop: granted, refused for an endless wait or a cut by the deadline, or a sleep of the advertised wait |
| Broker.RateLimitBroker.Acquire | src/platform/rate-limit/broker.ts:145-182 | the call up to its result or first await: unknown platform, quota check (refused exactly if the quota is set and below the cost), warning sample, first turn, and the warnings of both samples |
| Broker.RateLimitBroker.TryAcquire | src/platform/rate-limit/broker.ts:185-196 | the same checks at once: the quota is the reason exactly if it is set and below the cost, a timeout exactly if not and the refilled tokens are short of a positive cost; its warnings |
| Broker.TryAnswers | src/platform/rate-limit/broker.ts:185-196 | one attempt is refused for the quota, refused for the tokens, or granted, and exactly when each |
| Broker.BeginAnswers | src/platform/rate-limit/broker.ts:145-182 | the same for the first stretch of `acquire`: quota, grant, giving up for a timeout, or sleep |
| Broker.TurnAnswers | src/platform/rate-limit/broker.ts:164-181 | a turn grants what the bucket holds, gives up exactly if no refill comes or none large enough before the deadline, and else sleeps the least time that helps |
| Broker.GrantLeavesFlag | src/platform/rate-limit/broker.ts:122-139 | after every grant the warning flag is up exactly if the tokens in use are at least the threshold times the capacity, and a warning names them to the nearest whole |
| Broker.RefillsPerSecond | src/platform/rate-limit/broker.ts:93-104 | a configured bucket starts full and gains its configured rate in 1000 ms |
| Broker.RateLimitBroker.AcquireAlone | src/platform/rate-limit/broker.ts:145-182 | a lone caller with exact sleeps sleeps at most once for a cost the bucket can hold, and is granted exactly when the quota covers the cost and some wait within the timeout suffices |
| Broker.WaitsForeverSleeps | src/platform/rate-limit/broker.ts:164-181 | without a deadline, a cost above capacity on a refilling bucket goes back to sleep on every turn |
| Broker.StaysWellFormed | src/platform/rate-limit/token-bucket.ts:40-68 | refilling and paying keep tokens at or below an unchanged capacity |
| BrokerRuns.TurnPays | src/platform/rate-limit/broker.ts:164-181 | a turn pays the quota exactly when it grants |
| BrokerRuns.NextBalanced | src/platform/rate-limit/broker.ts:112-196 | every step of every caller keeps quota spent equal to costs granted since the last reset |
| BrokerRuns.QuotaAccount | src/platform/rate-limit/broker.ts:112-196 | in every interleaving of calls, sleeps and resets, initial minus remaining quota is what was granted since the last reset |
| BrokerRuns.NextCoversWaiting | src/platform/rate-limit/broker.ts:145-196 | even once every suspended caller is paid for, the quota stays above the floor |
| BrokerRuns.QuotaFloor | src/platform/rate-limit/broker.ts:145-196 | with at most k callers between check and outcome, each asking for 0 to c, no interleaving takes the quota below -(k-1)c |
| BrokerRuns.FreshQuotaFloor | src/platform/rate-limit/broker.ts:93-196 | the same from a freshly configured platform; with one caller at a time the quota never goes negative |
| BrokerRuns.FloorIsReached | src/platform/rate-limit/broker.ts:155-168 | for every k and c some interleaving ends at exactly -(k-1)c, so the bound cannot be improved |
| BrokerRuns.SleepLength | src/platform/rate-limit/broker.ts:171-180 | a turn asks for a sleep of 0 ms if and only if the bucket could pay at the second reading, so only when the clock ticked in between; otherwise at least 1 ms |
| BrokerRuns.ZeroSleepHappens | src/platform/rate-limit/broker.ts:171-180 | a bucket and readings for which a turn asks for a sleep of 0 ms |
| BrokerWindow.BrokerRunIsBucketRun | src/platform/rate-limit/broker.ts:112-196 | a broker run is a run of its bucket, call by call, and its log says exactly what the bucket granted |
| BrokerWindow.GrantedInWindow | src/platform/rate-limit/broker.ts:112-196 | between any two points of a broker run, with its resets, suspended callers and whatever clock, the cost granted is at most capacity plus rate times the advance of the highest reading |
| BrokerRuns.SleepsBoundedByTimeout | src/platform/rate-limit/broker.ts:164-182 | with a deadline a caller sleeps at most as often as the timeout has milliseconds, whatever others take and however late sleeps return |
| Retry.Run | src/platform/retry/backoff.ts:92-120 | calls stop where `StopsAt` says, the sleeps are the computed delays of all but the last call, and the result is the last reply; below one attempt nothing is called |
| Retry.StopsOnce | src/platform/retry/backoff.ts:92-120 | the stopping point (first success, first non-transient failure, or last attempt) is unique |
| Retry.StopReason | src/platform/retry/backoff.ts:92-120 | a run stops at a success, a failure that is not transient, or the last attempt, after transient failures only |
| Retry.DispatchWithDlq | src/platform/retry/backoff.ts:140-166 | one dead letter is landed exactly when the run does not end in a success, with the operation's platform, kind and payload, the last message and the number of calls |
| Retry.DlqRepository.Land | src/platform/retry/dlq.ts:76-85 | the row gets the next id and all fields of the input, and is appended |
| Retry.RawTotalIsGeometric | src/platform/retry/backoff.ts:40-45 | the unjittered delays of n waits sum to base*(m^n-1)/(m-1) |
| Retry.DelayIsNear | src/platform/retry/backoff.ts:40-45 | one delay is within (1 +- jitter) of its exponential value, give or take half a millisecond |
| Retry.JitterShape | src/platform/retry/backoff.ts:40-45 | the jitter factor runs from 1 - ratio at draw 0 through 1 at one half and grows with the draw |
| Retry.DelayGrowsWithDraw | src/platform/retry/backoff.ts:40-45 | a larger draw never waits less, and the draw one half waits the exponential delay, rounded |
| Retry.TotalIsNear | src/platform/retry/backoff.ts:40-45 | the same for the sum of n delays and any multiplier |
| Retry.TotalWait | src/platform/retry/backoff.ts:40-120 | for a multiplier above 1 the n waits total within (1 +- jitter)*base*(m^n-1)/(m-1), give or take half a millisecond each |
| Retry.DelayCount | src/platform/retry/backoff.ts:92-120 | n delays are n sleeps |
| Outbox.OutboxRepository.Create | src/outbox/repository.ts:208-221 | a new row with the next id, scheduled if and only if it has a time |
| Outbox.OutboxRepository.UpdatePost | src/outbox/repository.ts:269-291 | edits the named fields of a draft, scheduled or failed row, otherwise the error and no change |
| Outbox.OutboxRepository.TransitionPost | src/outbox/repository.ts:381-402 | takes a legal edge of the state machine with its stamps, otherwise the error and no change |
| Outbox.OutboxRepository.ReschedulePost | src/outbox/repository.ts:307-320 | moves a draft or scheduled row to a new time and schedules it, otherwise the error and no change |
| Outbox.OutboxRepository.MarkPostPublished | src/outbox/repository.ts:332-347 | publishing to published with the external id; a missing row or another state is the error and no change |
| Outbox.OutboxRepository.MarkPostFailed | src/outbox/repository.ts:350-365 | publishing to failed with message and attempts, otherwise the error and no change |
| Outbox.OutboxRepository.Delete | src/outbox/repository.ts:373-375 | removes the row in any state and says whether it was there |
| Outbox.OutboxRepository.ClaimDue | src/outbox/repository.ts:190-204 | claims the earliest due rows up to the limit, moves exactly these to publishing, and returns them as stored |
| OutboxRows.CreateStores | src/outbox/repository.ts:208-221 | what a new row holds, field by field |
| OutboxRows.EditStores | src/outbox/repository.ts:269-291 | an edit stores each field the patch names and no other, in that row only; it fails exactly for a missing, publishing or published row |
| OutboxRows.EditsCompose | src/outbox/repository.ts:269-291 | two edits are one in which the later wins field by field |
| OutboxRows.TransitionStores | src/outbox/repository.ts:381-402 | a transition succeeds exactly on the six edges of the state machine, and changes status, the named stamps and nothing else |
| OutboxRows.ScheduleStores | src/outbox/repository.ts:294-320 | scheduling a draft, retrying a failed row and moving a scheduled or failed one succeed, and the row then waits for the time given |
| OutboxRows.WaitsUntil | src/outbox/repository.ts:190-204 | a post scheduled for a time is due from that instant on and not before |
| OutboxRows.UnscheduleUndoes | src/outbox/repository.ts:299-301 | taking a post off the schedule undoes scheduling it |
| OutboxRows.MarksStore | src/outbox/repository.ts:332-365 | what the final marks store: external id and time, or error and attempts; exactly for a publishing row |
| OutboxRows.ClaimStores | src/outbox/repository.ts:190-204 | a claim moves its rows to publishing, counts one attempt, and touches no other field or row |
| Outbox.SelectDue | src/outbox/repository.ts:190-204 | picking the earliest due row one by one up to the limit is what ORDER BY and LIMIT select |
| Outbox.ClaimTakesEarliest | src/outbox/repository.ts:190-204 | a claim takes as many of the strictly earlier due rows as the limit allows: it never skips one for a later one |
| Outbox.ClaimsDrain | src/outbox/repository.ts:190-204 | a series of claims that each meet what is left of n rows, due and ahead of all others, works them off if and only if k*limit >= n |
| OutboxProtocol.MarkFacts | src/outbox/repository.ts:332-365 | the final mark of a claim in flight finds its row publishing, or gone; it never meets an illegal transition |
| OutboxRows.SettleStores | src/outbox/poller.ts:153-186 | in every reachable state the final mark stores the external id of the last call's success, or the error and the number of calls, over the content as claimed |
| OutboxRows.PreparedWaits | src/outbox/repository.ts:208-320 | a draft created, edited and scheduled holds the edited content and waits for its time |
| OutboxRows.ClaimGoesOut | src/outbox/poller.ts:102-160 | a claimed row whose call succeeds ends published with the platform's id, one attempt and its content |
| OutboxRows.DueIsClaimed | src/outbox/repository.ts:190-204 | a due row is in every claim whose limit does not bind |
| OutboxProtocol.TickShape | src/outbox/repository.ts:190-204 | a tick starts one publish per claimed row, on the row as claimed, and leaves earlier claims alone |
| OutboxProtocol.ApiNextKeepsInv | src/outbox/repository.ts:269-320 | edits, schedules, reschedules and retries keep the invariant |
| OutboxProtocol.TickClaimsInTurn | src/outbox/poller.ts:102-114 | overlapping ticks: a row is claimed again only after its earlier claims were marked failed |
| OutboxProtocol.SettleKeepsInv | src/outbox/poller.ts:153-186 | the final mark keeps the invariant, whether its row is still there or not |
| OutboxProtocol.NextKeepsInv | src/outbox/poller.ts:102-186 | every step of the protocol keeps the invariant |
| OutboxProtocol.RunKeepsInv | src/outbox/poller.ts:102-186 | so does every interleaving of API calls, deletes, ticks and publishes in flight |
| OutboxProtocol.PublishingIffOneInFlight | src/outbox/poller.ts:102-186 | a stored row is publishing if and only if a publish in flight holds its id, and never two do |
| OutboxProtocol.ContentFrozen | src/outbox/repository.ts:269-291 | from claim to outcome the stored content is the content being published |
| OutboxProtocol.NoDoublePublish | src/outbox/poller.ts:120-186 | no post id ever gets two successful publishes, from two claims or from two calls of one claim |
| OutboxProtocol.AttemptsFollowSchedule | src/outbox/poller.ts:126-134 | a claim makes at most schedule length + 1 calls, waits through the schedule's entries in order, and never reaches the fallback |
| OutboxProtocol.DeadLettersCounted | src/outbox/poller.ts:136-186 | dead letters are exactly the claims marked failed, those that failed after their row was deleted, and those about to be marked |
| OutboxRows.DeadLettersTruthful | src/outbox/poller.ts:136-186 | on every run each dead letter names a claim that gave up, its post and the calls it made |
| OutboxProtocol.ScheduledHasTime | src/outbox/repository.ts:208-320 | drafts never carry a publish time, every other row does |
| OutboxProtocol.ClaimMovesForward | src/outbox/poller.ts:120-186 | a claim's own steps use up a positive budget, other steps leave it alone, and its end never changes and is never a rejected mark |
| OutboxProtocol.ClaimCanMove | src/outbox/poller.ts:120-186 | short of its end a claim always has an own step that moves it |
| OutboxDrain.RunIsUndisturbed | src/outbox/poller.ts:102-114 | the ticks of a run are such a series: no API call, delete, publish in flight or retry that spares the rows can come between |
| OutboxDrain.BacklogDrains | src/outbox/poller.ts:102-114 | from any reachable state, of n rows due first exactly max(0, n - k*limit) are still scheduled after any run with k ticks at that time or later whose other steps touch none of them and schedule nothing as early; ticks may overlap and their times need not rise |
| OutboxDrain.BacklogIsClaimed | src/outbox/poller.ts:102-114 | each of these rows that is no longer scheduled has a claim of its own made during that run |
| Poller.PublishOne | src/outbox/poller.ts:120-186 | one claim end to end: attempts as `retry` makes them, waits the schedule in order, and one outcome: published, or failed and dead-lettered with the post's platform, id and account, the last message and the attempts |
| Multipart.BufferIndexOf | src/server/backup/router.ts:211-225 | the first match at or after the offset or -1; an empty needle matches at the offset |
| Multipart.FirstIsUnique | src/server/backup/router.ts:211-225 | being the first match determines the result |
| Multipart.SplitBuffer | src/server/backup/router.ts:196-209 | the loop computes the recursive split |
| Multipart.SplitRejoins | src/server/backup/router.ts:196-209 | the parts hold no separator, not even across a joint, and rejoin with it to the buffer |
| Multipart.SplitOfJoin | src/server/backup/router.ts:196-209 | conversely, such parts are exactly what splitting their join returns |
| Multipart.ReadPart | src/server/backup/router.ts:170-186 | name and body of a part, or nothing for a short, closing, headerless or nameless part |
| Multipart.NameIgnoresCase | src/server/backup/router.ts:178-180 | the pattern's six bytes match in either case of their letters |
| Multipart.EmptyNameIsPassed | src/server/backup/router.ts:178-180 | an empty name is passed over |
| Multipart.ClosingIsNoField | src/server/backup/router.ts:166-172 | a part that starts with `--` is no field |
| Multipart.HeaderlessIsNoField | src/server/backup/router.ts:170-173 | a part without a blank line is no field |
| Multipart.ParseMultipart | src/server/backup/router.ts:157-194 | the last `file` field and the last `passphrase` field of the split, absent ones undefined |
| Multipart.NameIsFound | src/server/backup/router.ts:178-180 | for any parameters before it, the pattern captures an earlier match if there is one and otherwise the field's name |
| Multipart.LeadWithoutName | src/server/backup/router.ts:178-180 | the right name is read whatever quotes stand before it, as long as the pattern starts nowhere there |
| Multipart.LeadWithoutQuote | src/server/backup/router.ts:178-180 | so it is when no quote stands before it |
| Multipart.FieldReadBack | src/server/backup/router.ts:170-186 | an encoded field is read back from its part if and only if the pattern finds nothing before its name, or finds the same name |
| Multipart.ParseReadsWhatIsSeen | src/server/backup/router.ts:157-194 | parsing the encoding of any framed fields gives the last bodies under the names the pattern finds |
| Multipart.FilenameHidesName | src/server/backup/router.ts:178-180 | after a `filename` parameter the pattern captures the file name |
| Multipart.FilenameFirstLosesFile | src/server/backup/router.ts:157-194 | so for every boundary, file and passphrase a form whose file part puts `filename` first loses the file |
| Multipart.FilenameFirstExample | src/server/backup/router.ts:157-194 | one such form in full |
| Multipart.PartIsClean | src/server/backup/router.ts:157-209 | the delimiter occurs in no encoded part, nor across its joint with the next delimiter |
| Multipart.SplitOfEncode | src/server/backup/router.ts:157-209 | splitting an encoded form gives its preamble, its fields' parts and the closing marker |
| Multipart.ParseUndoesEncode | src/server/backup/router.ts:157-194 | parsing the RFC 7578 encoding of any fields that are read back gives the last file and passphrase bodies, whatever their other headers and parameters |
| Multipart.BackupFormRoundTrip | src/server/backup/router.ts:157-194 | for every file, passphrase and fitting boundary, in either order of the parts, the form is read as sent if and only if both names are read, or the two are mistaken for each other with equal bodies |
| LineStream.LinesOfAppend | src/copilot/providers/openai-compatible.ts:77-80 | complete lines and remainder of a text do not depend on where it is cut |
| LineStream.BufferCarries | src/copilot/providers/openai-compatible.ts:77-80 | keeping only the remainder between chunks loses nothing for any line handler |
| LineStream.LinesRejoin | src/copilot/providers/openai-compatible.ts:80-83 | the lines and the remainder rejoin to the text |
| LineStream.StoppedAt | src/copilot/providers/openai-compatible.ts:86-89 | a reader that stops early has the result of reading all chunks |
| DataLines.PayloadIff | src/copilot/providers/openai-compatible.ts:82-86 | a line has a payload exactly if its first characters other than white space are `data:`, and it is what follows without the white space around it |
| DataLines.LinesOfUnlines | src/copilot/providers/openai-compatible.ts:77-83 | lines written out with newlines are read back |
| OpenAiEvents.DoneEndsStream | src/copilot/providers/openai-compatible.ts:76-110 | a `data: [DONE]` line ends the stream: the deltas spell the text of the messages before it, the one terminal chunk has the last usage, and nothing after it counts |
| OpenAiEvents.StreamStops | src/copilot/providers/openai-compatible.ts:76-110 | the same for a stream that just stops; an unfinished line is dropped |
| OpenAiEvents.NullThrows | src/copilot/providers/openai-compatible.ts:86-96 | a `null` message throws after the text before it |
| AnthropicEvents.StopEndsStream | src/copilot/providers/anthropic.ts:70-119 | a `message_stop` ends the stream: the deltas spell the text, and the terminal chunk has the last prompt count, the last completion count and their sum |
| AnthropicEvents.StreamStops | src/copilot/providers/anthropic.ts:70-119 | the same for a stream that just stops |
| AnthropicEvents.NullThrows | src/copilot/providers/anthropic.ts:80-90 | a `null` message throws after the text before it |
| OpenAiStream.Chat | src/copilot/providers/openai-compatible.ts:72-110 | the outputs, and whether reading throws, equal those of a reader that has the concatenated text and splits it into complete lines first |
| OpenAiStream.OutputWithoutEnd | src/copilot/providers/openai-compatible.ts:76-110 | without `[DONE]`: every delta, then one terminal chunk with the last usage |
| OpenAiStream.OutputUpToEnd | src/copilot/providers/openai-compatible.ts:86-89 | the first line that ends the stream decides: only the lines before it count, and `[DONE]` adds the one terminal chunk |
| AnthropicStream.Chat | src/copilot/providers/anthropic.ts:66-119 | the same for the typed events |
| AnthropicStream.OutputWithoutEnd | src/copilot/providers/anthropic.ts:70-119 | without `message_stop`: every delta, then one terminal chunk with input and output tokens gathered from the two kinds of event |
| AnthropicStream.OutputUpToEnd | src/copilot/providers/anthropic.ts:70-119 | the first `message_stop` ends the output with one terminal chunk; a `null` payload throws after the deltas before it |
| Aggregator.CollectMaxima | src/analytics/aggregator.ts:74-93 | the first loop's nested maps hold exactly the largest in-window reading of each metric of each post, posts in order of first mention |
| Aggregator.SumMetrics | src/analytics/aggregator.ts:99-104 | the inner loop's two sums over one post's metrics in insertion order |
| Aggregator.SumOrderIrrelevant | src/analytics/aggregator.ts:99-104 | adding the metrics up in insertion order or along the metric list is the same |
| Aggregator.AggregatePostMetrics | src/analytics/aggregator.ts:69-108 | the one-pass aggregation equals the declarative form: per post, the sums over the two metric lists of the largest in-window reading |
| Aggregator.MaxReadingIsMax | src/analytics/aggregator.ts:90-92 | the reading kept is one of the readings and none is larger |
| Aggregator.FirstRowsListPosts | src/analytics/aggregator.ts:84-90 | posts are listed once each, and only those with a counting row |
| Aggregator.TotalsAreMap | src/analytics/aggregator.ts:95-107 | as a map: every post with a counting row once, with its two sums |
| Aggregator.OnlyMaximaMatter | src/analytics/aggregator.ts:69-108 | two row lists that dominate each other metric by metric have the same totals |
| Aggregator.OrderAndDuplicatesIrrelevant | src/analytics/aggregator.ts:69-108 | row order and duplicated rows do not change the map |
| Aggregator.DominatedRowIrrelevant | src/analytics/aggregator.ts:69-108 | neither does a row with an in-window reading of the same metric at least as large elsewhere, nor one that does not count |
| Aggregator.KeyIdentifiesPost | src/analytics/aggregator.ts:84 | the map key identifies the post as long as platform names hold no NUL |
| Aggregator.SeparatorCollision | src/analytics/aggregator.ts:84 | with a NUL in a platform name two different posts share a key |
| Calendar.EpochIsZero | src/analytics/aggregator.ts:43-48 | 1 January 1970 is instant 0 |
| Calendar.NextDayFollows | src/analytics/aggregator.ts:43-48 | from the year 100 on the instant of the next calendar day is one day later, across months, leap days and years |
| Calendar.SuccessiveKeys | src/analytics/aggregator.ts:43-48 | the keys of successive days are read one day apart |
| Calendar.KeyShape | src/analytics/aggregator.ts:31-48 | only four, two and two digits with hyphens between them are a day |
| Calendar.Overflows | src/analytics/aggregator.ts:43-48 | two-digit years mean 1900 to 1999; months past December and days past the month's end run on |
| Calendar.WindowInDays | src/analytics/aggregator.ts:50-54 | k days later a window of n days reaches back to a day exactly if k < n, or k = n at midnight; days to come are in no window |
| MetricLaws.OneRowTotals | src/analytics/aggregator.ts:69-108 | one reading counts as engagement, as impressions or not at all, by the names the code lists, its object type and the window |
| MetricLaws.DifferentMetricsAdd | src/analytics/aggregator.ts:99-104 | readings of different metrics of a post add up |
| MetricLaws.LowerIgnoresCase | src/analytics/aggregator.ts:77 | metric names agree exactly if they differ at most in the case of their letters |
| Rollup.FollowersByPlatform | src/analytics/aggregator.ts:111-124 | the largest in-window follower reading of each platform that has one |
| Rollup.SumByPlatform | src/analytics/aggregator.ts:156-169 | the three per-platform maps hold the sums over that platform's totals |
| Rollup.CollectPlatforms | src/analytics/aggregator.ts:147-149 | the platforms of insights and posts in order of first mention |
| Rollup.RollupWindow | src/analytics/aggregator.ts:152-202 | four rows per platform for one window |
| Rollup.RollupEngagement | src/analytics/aggregator.ts:142-205 | the rows of all windows, platforms ascending |
| Rollup.PlatformNamesList | src/analytics/aggregator.ts:147-171 | the platforms listed are exactly those of an insight or a post, once each, ascending |
| Rollup.AscendingIsUnique | src/analytics/aggregator.ts:171 | there is only one ascending listing, whatever sort produced it |
| Rollup.RollupIsComplete | src/analytics/aggregator.ts:142-205 | there is a row for every platform, window and metric with its value, zero ones too, and no other row |
| MetricLaws.RowsSay | src/analytics/aggregator.ts:152-202 | every platform has, for every window, a row of the number of its posts, of the sums over them and of its largest follower reading, under their names |
| MetricLaws.MaxFollowersIsMax | src/analytics/aggregator.ts:111-124 | the follower value is one of the platform's readings in the window and none is larger |
| Rollup.MaxReadingGrows | src/analytics/aggregator.ts:50-54 | a larger window keeps or raises each largest reading |
| Rollup.SumForCovers | src/analytics/aggregator.ts:159-169 | a list that has every post of another with at least its measure sums to at least as much |
| Rollup.ValuesGrow | src/analytics/aggregator.ts:142-205 | for non-negative readings no value of a platform falls when the window grows |
| Rollup.GrowsIffKeysTellApart | src/analytics/aggregator.ts:84-90 | over a set of posts that monotony holds for all readings and all pairs of the 7, 30 and 90 day windows if and only if no two of the posts share a map key |
| Rollup.PlainPlatformsGrow | src/analytics/aggregator.ts:84-90 | so it holds whenever no platform name has a NUL |
| Rollup.SharedKeyShrinks | src/analytics/aggregator.ts:84-90 | readings that make a value fall from the 7 to the 30 day window when two posts share a key: the longer window files the post under the other platform |
| TopPosts.Limit | src/analytics/top-posts.ts:38 | default 3; otherwise truncated, below 1 is 1 and above 100 is 100 |
| TopPosts.PublishedAtIndex | src/analytics/top-posts.ts:15-19 | the publication time of the last listed post with a key |
| TopPosts.GroupByPlatform | src/analytics/top-posts.ts:44-55 | each platform's entries in the order of the totals, joined with their publication times |
| TopPosts.TopPosts | src/analytics/top-posts.ts:37-64 | the boards of the wanted platforms, in ascending order of name |
| TopPosts.AheadIsOrder | src/analytics/top-posts.ts:60 | engagement descending, then collation of ids, is a consistent comparator |
| TopPosts.BoardIsRankedPrefix | src/analytics/top-posts.ts:57-63 | a board is ranked 1.. up to the limit or the number of posts, in order; with what is left out it makes up the platform's posts, and nothing left out is ahead of anything listed |
| TopPosts.BoardShowsMostEngaged | src/analytics/top-posts.ts:44-63 | in engagements alone: they never rise down the ranks, nothing left out has more than anything listed, ties stand by collation, and each entry shows a total of the platform with the publication time listed last for it |
| TopPosts.LeaderboardByPlatform | src/analytics/top-posts.ts:40-63 | asking for one platform gives the board that asking for all gives it, and nothing else |
| TopPosts.LeaderboardInOrder | src/analytics/top-posts.ts:57-63 | the leaderboard is ordered by platform and then by rank |
| TopPosts.BoardAgreesWithRollup | src/analytics/top-posts.ts:37-64 | a board has as many entries as the roll-up counts posts, up to the limit; it sums to the roll-up's engagement when the limit does not bind, and for non-negative readings never to more |
| TopPosts.SplitByPlatform | src/analytics/top-posts.ts:87-97 | the per-platform lists and the set of platforms of the two weeks |
| TopPosts.WeekOverWeekDeltas | src/analytics/top-posts.ts:80-112 | one delta per platform of either week, ascending, with no percentage when last week was zero |
| TopPosts.ThisWeekIsRollupRow | src/analytics/top-posts.ts:80-112 | thisWeek is the 7-day engagement row of the roll-up at the same instant |
| TopPosts.DeltaMovesBetweenRollups | src/analytics/top-posts.ts:80-112 | each change leads from the engagement row of the roll-up seven days ago to this week's, and its percentage is of last week's value |
| TopPosts.DeltasListPlatforms | src/analytics/top-posts.ts:87-100 | a change is reported for exactly the platforms with a counted post in either week, once each, by name |
| TopPosts.WeeksShareOneInstant | src/analytics/top-posts.ts:83-85 | the two weeks make up the trailing 14 days but overlap: a reading of exactly seven days ago is in both |
| Sorting.SortInOrder | src/analytics/top-posts.ts:60 | the sort is in order |
| Sorting.SortPermutes | src/analytics/top-posts.ts:60 | and a permutation of its input |
| Sorting.SortIsStable | src/analytics/top-posts.ts:60 | and leaves tied elements in the order they had |
| Sorting.SortFilter | src/crm/repository.ts:230-260 | sorting a page and keeping one identity's rows is sorting that identity's rows |
| CrmStore.OlderIsOrder | src/crm/repository.ts:297-304 | messages by stored time text, then id: a consistent order that ties no two messages |
| Crm.CrmRepository.Sync | src/crm/repository.ts:497-526 | every unlinked account in id order gets a new identity and a link |
| Crm.CrmRepository.Merge | src/crm/repository.ts:596-626 | self, missing survivor and missing source are refused in that order without effect; otherwise the folded database and the survivor's detail |
| Crm.CrmRepository.DeleteContact | src/crm/gdpr.ts:65-160 | 404 and 409 refused without effect; otherwise the receipt counts one identity, as many messages as its timeline had and on cascade its merge rows, and the database is the one CrmRuns.DeleteFrame and CrmRuns.DeleteRemoves describe |
| Crm.CrmRepository.ListContacts | src/crm/repository.ts:419-480 | after a sync, the batched page equals the single-contact path on every contact: same links in order, count, bodies and lead score |
| CrmPages.PagesListAll | src/crm/repository.ts:209-213 | paging on until nothing is left lists every identity exactly once, later updates first and of equal ones the larger id |
| CrmPages.PageIsPart | src/crm/repository.ts:209-213 | a page is the listing from its offset on, cut at its limit |
| CrmPages.WholePage | src/crm/repository.ts:209-213 | a page from the start that is large enough is the whole listing |
| CrmPages.PagesJoin | src/crm/repository.ts:209-213 | successive pages join to one longer page |
| CrmPages.EnrichedSays | src/crm/repository.ts:419-480 | an identity's score counts its recent timeline and its followers and reads the last 50 bodies of that timeline |
| CrmRows.EngagementIsRecentTimeline | src/crm/repository.ts:281-287 | the engagement count is the length of the recent timeline |
| CrmRows.RecentBodiesEndTimeline | src/crm/repository.ts:288-296 | the bodies that are scored are those of the recent timeline's last 50 messages, the last one first |
| CrmRows.LinkedAccountsAre | src/crm/repository.ts:264-280 | the accounts listed are exactly those linked, each as stored, by rising id |
| Crm.NormalizeLimit | src/crm/repository.ts:633-636 | missing or non-positive means 100; otherwise the floor, capped at 500 |
| Crm.GroupLinks | src/crm/repository.ts:430-442 | grouping the rows in memory gives each identity its rows in order |
| Crm.GroupBodies | src/crm/repository.ts:452-460 | the same for bodies |
| Crm.GroupCounts | src/crm/repository.ts:444-450 | the counts by identity |
| Crm.PageAgrees | src/crm/repository.ts:230-260 | all three batched reads, grouped, are the single-contact reads |
| CrmListing.BatchLinksAgree | src/crm/repository.ts:230-280 | the page's links of an identity are its links, in the same order |
| CrmListing.BatchCountsAgree | src/crm/repository.ts:238-287 | its count on the page, 0 when absent, is its engagement count |
| CrmListing.NumbersFollowAge | src/crm/repository.ts:246-260 | of two rows of an identity the newer one has the smaller ROW_NUMBER |
| CrmListing.NumberIsPosition | src/crm/repository.ts:246-260 | the row at position k of an identity's newest-first list has ROW_NUMBER k+1 |
| CrmListing.TopRowsAreNewest | src/crm/repository.ts:246-260 | the numbered rows cut at 50 are the identity's 50 newest |
| CrmListing.BatchBodiesAgree | src/crm/repository.ts:246-296 | the page's bodies of an identity are its 50 newest bodies, in the same order |
| CrmRuns.CreateKeepsInv | src/crm/repository.ts:509-526 | creating an identity for an unlinked account keeps the invariant |
| CrmRows.CreateStores | src/crm/repository.ts:509-544 | a new identity takes the next id, the account's display name or else handle, and what is discovered from it, and is linked to it |
| CrmRows.SocialBodiesEndMessages | src/crm/repository.ts:528-536 | the bodies searched for an email are those of the account's last 50 messages |
| CrmRuns.SyncLinksAll | src/crm/repository.ts:497-506 | after a sync every account is linked, and a second sync does nothing |
| CrmRuns.MergeKeepsInv | src/crm/repository.ts:596-626 | a merge keeps the invariant |
| CrmRows.MergeIsLogged | src/crm/repository.ts:596-626 | a merge is logged once with its survivor, source and mode, stamps the survivor, and touches neither accounts nor messages |
| CrmRows.MergeRefusals | src/crm/repository.ts:596-608 | which merge is refused for which reason |
| CrmRows.DeleteRefusals | src/crm/gdpr.ts:70-92 | a delete is refused for a missing identity, and without cascade for one with merge history, and in no other case |
| CrmRuns.DeleteKeepsInv | src/crm/gdpr.ts:65-160 | a delete keeps the invariant |
| CrmRuns.DeleteRemoves | src/crm/gdpr.ts:65-160 | a delete takes the identity, its links, exactly the messages of its timeline and, on cascade, exactly its merge rows; without cascade it never finds any to leave behind |
| CrmRuns.DeleteFrame | src/crm/gdpr.ts:65-160 | every other identity keeps its fields, its accounts and its timeline |
| CrmRuns.IngestSocialKeepsInv | src/platform/social-brain/repository.ts:210-221 | an account upsert keeps the invariant |
| CrmRuns.IngestMessageKeepsInv | src/platform/social-brain/repository.ts:239-250 | a message upsert keeps the invariant |
| CrmRows.UpsertSocialStores | src/platform/social-brain/repository.ts:210-221 | a known account is refreshed field by field where the input has a value, an unknown one is added; nothing else changes |
| CrmRows.UpsertMessageStores | src/platform/social-brain/repository.ts:239-250 | a known message takes the new body and what else it brings, an unknown one is added |
| CrmRows.UpsertSocialTwice | src/platform/social-brain/repository.ts:262-265 | ingesting an account twice is ingesting it once |
| CrmRows.KeysStayOnce | src/platform/social-brain/repository.ts:210-250 | on every run no platform id has two accounts or two messages |
| CrmRuns.RunKeepsInv | src/crm/repository.ts:497-626 | every run of ingest, sync, merge and delete keeps the invariant |
| CrmRuns.EveryLinkIsLive | src/crm/repository.ts:264-272 | on every run a linked account belongs to exactly one identity, and that one exists |
| CrmRuns.TimelineIsUnion | src/crm/repository.ts:297-304 | on every run an identity's timeline is exactly the messages of the accounts behind all identities ever folded into it, once each, in the order of the stored times |
| StoredTime.TextAgainstTime | src/crm/repository.ts:297-304 | of two stored instants the text order belies the time order exactly when both are of one day and the one `datetime('now')` wrote is later than the one a connector wrote; equal texts are equal instants |
| StoredTime.StampIsReadBack | src/connectors/meta/threads/reply-poller.ts:86 | the date, time and format of a stored instant are read back from its text |
| CrmTime.TimelineInTimeOrder | src/crm/repository.ts:297-304 | on every run an identity's timeline is in order of time if and only if no two messages of the identities folded into it clash in that way |
| CrmTime.MergeInTimeOrder | src/crm/repository.ts:596-626 | a merge gives a timeline in order of time if and only if no two messages of the two timelines clash |
| CrmTime.TimelineOutOfTimeOrder | src/platform/social-brain/repository.ts:239-250 | a run that ingests a message without a sent time at 11:00 and one sent at 10:00 of that day, whose timeline shows 11:00 first |
| CrmRuns.FollowerCountIsMax | src/crm/repository.ts:596-626 | on every run its follower count is the largest that any of them started with |
| CrmRuns.MergeJoinsTimelines | src/crm/repository.ts:596-626 | one merge: the survivor's timeline is the two timelines merged in the order of the stored times, the source's is empty |
| CrmRuns.MergeLosesNothing | src/crm/repository.ts:609-617 | the survivor's own fields stay, missing ones come from the source, and nothing known is lost |
| CrmRuns.MergeFrame | src/crm/repository.ts:596-626 | no other identity's fields, accounts or timeline change |
| Approvals.ApprovalQueue.Create | src/approvals/approval-queue.ts:135-144 | a default timeout that is no count or a cap that is not positive is refused |
| Approvals.ApprovalQueue.Request | src/approvals/approval-queue.ts:159-191 | invalid options, an id already pending and a full queue are refused in that order without effect; otherwise the entry, and a timer exactly for a positive timeout |
| Approvals.ApprovalQueue.Settle | src/approvals/approval-queue.ts:234-256 | settles a pending request once: timer cleared, slot freed, promise resolved; otherwise nothing |
| Approvals.ApprovalQueue.Decide | src/approvals/approval-queue.ts:199-202 | an unknown decision is refused before anything is looked up, an unknown id is a no-op |
| Approvals.ApprovalQueue.Fire | src/approvals/approval-queue.ts:180-186 | a fired timer is spent and settles its id as a timeout |
| Approvals.ApprovalQueue.Clear | src/approvals/approval-queue.ts:228-232 | settles every pending id as a timeout, in insertion order |
| Approvals.AdmittedKeepsInv | src/approvals/approval-queue.ts:159-191 | an admitted request keeps the invariant |
| Approvals.SettledKeepsInv | src/approvals/approval-queue.ts:234-256 | settling keeps the invariant |
| Approvals.RunKeepsInv | src/approvals/approval-queue.ts:159-256 | every interleaving of requests, decisions, timer firings and clears keeps it |
| Approvals.SettledAtMostOnce | src/approvals/approval-queue.ts:234-256 | each request is settled at most once, under its own id, and never while pending |
| Approvals.PendingIsRequestedMinusSettled | src/approvals/approval-queue.ts:159-256 | pending is requested minus settled, and within the cap |
| Approvals.TimersMatchPending | src/approvals/approval-queue.ts:180-186 | live timers and pending requests with a positive timeout match one to one |
| Approvals.TimerSettlesItsOwn | src/approvals/approval-queue.ts:180-256 | an armed timer settles exactly the request it was armed for, never a later one reusing its id |
| Approvals.ClearSettlesAll | src/approvals/approval-queue.ts:228-232 | after a clear nothing is pending, no timer is armed, and every request is settled |
| ApprovalLaws.DecisionSettles | src/approvals/approval-queue.ts:199-202 | "approve" settles a pending request as approved with its metadata and time, "reject" as rejected; any other word or id changes nothing |
| ApprovalLaws.OutcomesAreCaused | src/approvals/approval-queue.ts:180-256 | on every run each outcome says what the step that made it said: approvals and rejections come from decisions alone, timeouts from timers and clears |
| ApprovalLaws.ClearSettlesInOrder | src/approvals/approval-queue.ts:228-232 | a clear times out every pending request once, in the order they were made |
| ApprovalLaws.RefusalMeans | src/approvals/approval-queue.ts:159-167 | which request is refused for which reason |
| ApprovalLaws.AdmittedStores | src/approvals/approval-queue.ts:168-191 | what an admitted request leaves behind: its entry, and a timer exactly for a positive timeout, its own or the default |
| ApprovalLaws.ConfigMeans | src/approvals/approval-queue.ts:135-144 | which configurations are refused, and that the others are kept as given |
| JsMaps.JsMap.Remove | src/approvals/approval-queue.ts:244 | deleting a key keeps the order of the rest |
| XQuota.CreditTracker.Record | src/connectors/twitter/credit-tracker.ts:86-96 | a row with a known key is ignored; the result says whether one was inserted |
| XQuota.CreditTracker.UsedThisMonth | src/connectors/twitter/credit-tracker.ts:99-103 | the month's sum |
| XQuota.CreditTracker.Summary | src/connectors/twitter/credit-tracker.ts:106-112 | used, remaining (never negative) and the ratio capped at 1; a cap that is not positive counts as full |
| XQuota.QuotaGuard.Fire | src/connectors/twitter/quota-guard.ts:114-127 | a notice once per level and month |
| XQuota.QuotaGuard.EnsureWithinQuota | src/connectors/twitter/quota-guard.ts:89-95 | refuses exactly when the month's usage has reached the cap, with the exceeded notice |
| XQuota.QuotaGuard.RecordWrite | src/connectors/twitter/quota-guard.ts:102-111 | records, then re-evaluates the month read a second time |
| XQuota.TwitterPublisher.CreateTweet | src/connectors/twitter/publisher.ts:75-93 | refused at the cap; a failed request or one without an id records nothing; otherwise one unit under the kind and id |
| XQuota.RecordAddsOnce | src/connectors/twitter/credit-tracker.ts:86-96 | a unit write adds one to its month if its key is new, nothing elsewhere, and recording it again adds nothing |
| XQuota.NextKeepsInv | src/connectors/twitter/publisher.ts:75-93 | usage of the month plus writes in flight stays within cap + k - 1 over every step |
| XQuota.UsageIsBounded | src/connectors/twitter/publisher.ts:75-93 | with at most k unit writes in flight and a positive cap no month's usage exceeds cap + k - 1, month roll-overs included, and no key counts twice |
| XQuota.BoundIsReached | src/connectors/twitter/publisher.ts:75-93 | for every cap and k some run uses exactly cap + k - 1 in one month |
| XQuota.NoticesOnce | src/connectors/twitter/quota-guard.ts:89-127 | per month at most one warning and one exceeded, never a warning after exceeded, and exceeded only at the cap |
| XQuota.ExceededIffReached | src/connectors/twitter/quota-guard.ts:89-127 | while the month is the same at recording and re-evaluating, the exceeded notice is out if and only if the cap is reached |
| XQuota.WrittenMisses | src/connectors/twitter/quota-guard.ts:102-111 | after a write the notice of a month at the cap is missing if it was before, or if the write was a new key of that month at cap - 1 and the month had turned when it was re-evaluated, and in no other case |
| XQuota.StepMisses | src/connectors/twitter/publisher.ts:75-93 | the same for every step of the protocol |
| XQuota.ExceededUnlessFilledUnseen | src/connectors/twitter/publisher.ts:75-93 | on every run the exceeded notice of a month is out if and only if the cap is reached and no step filled the month unseen |
| XQuota.MissedForGood | src/connectors/twitter/publisher.ts:75-93 | a notice missed that way is never sent by any later step |
| XQuota.NoticeMissedAtRollover | src/connectors/twitter/quota-guard.ts:102-111 | a run that fills a month up unseen |
| XQuotaNotices.WarnedIffInRange | src/connectors/twitter/quota-guard.ts:102-127 | on every run the warning of a month is out exactly if some write found the month's usage below the cap and at least threshold times cap |
| XQuotaNotices.CheckNotifies | src/connectors/twitter/quota-guard.ts:89-95 | a check at the cap sends the exceeded notice with the usage unless this guard has sent it, so also a new guard over an old ledger; below the cap it changes nothing |
| XQuotaNotices.NoticesTruthful | src/connectors/twitter/quota-guard.ts:102-127 | on every run each notice's own numbers bear it out |
| XQuotaNotices.SummaryMeans | src/connectors/twitter/credit-tracker.ts:106-112 | used and remaining add up to the cap until it is reached, and the ratio is the used share of it |
| XQuotaNotices.KeysTellWritesApart | src/connectors/twitter/publisher.ts:75-93 | ledger keys agree exactly if kind and id do |
| XQuotaNotices.ReplyRecords | src/connectors/twitter/publisher.ts:80-93 | a write is recorded as one unit exactly if the reply names an id that is not empty |
| InboxRules.OperatorsRelate | src/inbox/rules/engine.ts:55-103 | orderings hold only between numbers and complement each other; startsWith implies contains; in is eq with one item |
| InboxRules.OperatorsOnValues | src/inbox/rules/engine.ts:55-103 | exists, eq, neq and in on a fact and a single value; no ordering unless both are numbers |
| InboxRules.OrderOnNumbers | src/inbox/rules/engine.ts:55-103 | gt, gte, lt and lte on two numbers |
| InboxRules.TextOperators | src/inbox/rules/engine.ts:55-103 | contains and startsWith as text with something before and after it, in lower case |
| InboxRules.OperatorsOnListsAndAbsence | src/inbox/rules/engine.ts:55-103 | every operator on a list, on an absent fact, and an unknown operator |
| InboxRules.OnlyNamedFactsMatter | src/inbox/rules/engine.ts:55-117 | a condition depends on nothing but the facts it names |
| InboxRules.AllAndAny | src/inbox/rules/engine.ts:106-117 | all is a conjunction, true when empty; any a disjunction, false when empty |
| InboxRules.DeMorgan | src/inbox/rules/engine.ts:106-117 | negation exchanges the two |
| InboxRules.AddTags | src/inbox/rules/engine.ts:210 | adding a list to the tag set keeps first occurrences in order |
| InboxRules.EvaluateRules | src/inbox/rules/engine.ts:191-217 | the loop computes the fold |
| InboxRules.EvaluateConcat | src/inbox/rules/engine.ts:191-217 | evaluating a concatenated list is combining the evaluations of its parts: highest priority, first-occurrence tag union, last route, or of flags, firings appended |
| InboxRules.EvaluationMeans | src/inbox/rules/engine.ts:181-217 | the priority is the highest of the firing rules, the tags are theirs, each once, the flag is any of theirs |
| InboxRules.UrgencyWins | src/inbox/rules/engine.ts:181-217 | urgent beats high beats normal beats low among the firing rules |
| InboxRules.RouteIsLast | src/inbox/rules/engine.ts:211 | the route is that of the last firing rule that names one |
| InboxRules.LastRuleCounts | src/inbox/rules/engine.ts:191-197 | a rule counts exactly if it is enabled and its condition holds |
| InboxRules.OrderIrrelevant | src/inbox/rules/engine.ts:191-217 | priority, tag set and flag depend only on which rules there are, not on order or repetition |
| InboxRules.RouteDependsOnOrder | src/inbox/rules/engine.ts:211 | swapping two firing rules with routes swaps the route |
| InboxRules.FiringsAreFired | src/inbox/rules/engine.ts:204-205 | firings and ids list the firing rules in order |

## Left out

- Broker: replacing a platform's budget while callers are suspended on it, and the first configuration from constructor options; one platform's callers are interleaved at a time, as platforms share nothing.
- Broker.RateLimitBroker.AcquireAlone: excludes by precondition the calls that never return (Broker.WaitsForeverSleeps says which these are), because a loop must terminate to be a method here.
- Retry: the retries nested inside platform dispatchers; a publish call is one reply that succeeds or fails.
- CrmTime.TimelineInTimeOrder and CrmTime.MergeInTimeOrder: a sent time in none of the three stored formats (`datetime('now')`, `.sssZ`, `+0000`) has no instant here.
- Outbox: the raw `transition` method into publishing, published or failed as a step of the protocol (the named operations are its only callers); per-platform length limits of the body; a negative LIMIT means no limit, as in SQL.
- OutboxProtocol: the emitted socket events and log lines.
- Multipart: decoding header and passphrase bytes as UTF-8, the boundary's own extraction from the content type, and every other route of the backup server.
- OpenAiStream and AnthropicStream: decoding bytes to text, the HTTP request and its error response, and Unicode white space beyond the common ones in `trim`.
- Aggregator: lower-casing beyond ASCII, the day key of an instant (its text is a parameter), NaN and rounding of floating-point sums.
- TopPosts.TopPosts: a limit that is not a finite number.
- Crm: reading emails and follower counts out of metadata and messages, email normalisation and lead scoring are parameters; contact metadata, which no operation modelled here writes, suggested merges and the listing of merge rows; insight and auto-reply rows of a delete.
- Crm.CrmRepository.ListContacts: requires message and account ids to ascend in table order, which every run keeps (CrmRuns.RunKeepsInv).
- Approvals: listeners that call back into the queue while it emits, unknown option keys, how long a timer takes to fire (it may fire at any time after it is armed), and timers the runtime does not wait for.
- XQuota: publishing without a guard, the alert text, and amounts other than one in the runs; months are numbered, and the clock does not run backwards over a run.
- InboxRules: NaN as a fact or value, priorities outside the four levels, building the facts from a message, and storing firings.
- HTTP servers, sockets, chat bots, schedulers, mail, encryption, vault files, OAuth, the user interface and the desktop shell: input and output plumbing.
- Handoff manager, OAuth state store, webhook deduplication, migrator, brand-voice import, YouTube quota, heat map and voice scoring: easier members of the same kinds.
