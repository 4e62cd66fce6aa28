# Mastodon Spam Checker: verified model

The service checks newly federated accounts for spam. Three kinds of actor share one Redis: runs (the
periodic check, `retry-failed`, `backfill`), which take turns under a lease; the always-on Slack
server, which takes no lease; and the environment: time, key expiry, failed sends, lost replies and
crashes between any two commands. This project models that protocol together with the algorithms it
relies on, and proves what they promise.

## Layout

| files | content |
|---|---|
| `Wrappers`, `Ids`, `Text`, `Markup`, `Html`, `Posts` | digit-string order and the cursor script; truncation, trimming and whitespace folding; escaping, decoding and entity-safe truncation; what markup reads as; the shared post budget |
| `Http`, `Lease` | the bounded retry loop; the run lease as a timed state machine over any number of processes |
| `Campaign`, `CampaignIndex` | the capped sliding-window index and the uncapped log it approximates |
| `Accounts`, `Pagination`, `Processing`, `RetryQueue`, `RetryCommand` | the loops of a run: fetching, chunked checking, walking and fetching the retry queue |
| `Redis`, `StateStore`, `Retention` | the shared state as a value with one function for each command, the class whose methods send those commands, and the retention pass |
| `Worker`, `Server`, `System` | one account check, one button click, and the whole service as state machines |
| `Checks` | one account's check from end to end, as a procedure on the store and as the state machine left alone |
| `InFlight` | the in-flight set and its guards as objects, and that they handle clicks as `System` says |
| `Frames`, `AccountInvariants`, `SystemInvariants`, `SystemSteps` | what each kind of event leaves alone; the inductive invariant and its preservation by every event |
| `Presses` | clicks by their events: whose press an account's feedback is, and how a click goes on |
| `Safety`, `Notifications`, `Releasing`, `Verdicts`, `QueueSafety`, `Outcomes`, `ClaimTiming` | the theorems over every history of events |
| `Lingering`, `Overwriting` | what survives, and what does not, when checks outlive a run that lost its lease |
| `Scenario` | histories that happen, for every spam account: a delivery in each kind of run that notifies, a silent record in the one that does not, a failed resend that is judged anew |
| `Refinement` | the link from the machine's atomic steps to the loops and the store |

In `System` every Redis command, script and transaction is its own event; a read is separate from the
write that follows it, and a write may be answered, take effect with its reply lost, or not take
effect. Any number of checks of a chunk interleave with each other, with the server's clicks and with
time. The field `history` records what has happened; the theorems speak of the
events themselves, and `Safety.HistoryIsTrue` relates the two.

Account IDs are the integers their digit strings denote wherever only their order matters;
`Ids.CmpIsNumericOrder` and `Ids.ScriptGuardIsNumericOrder` justify that for unpadded IDs, which is
what Mastodon issues. Times in the protocol are milliseconds, stored timestamps are seconds.

## Where the code and its comments disagree

- A dry run is said to report the same campaign matches as a recording run (`src/redis.rs:648-650`).
  At 20 or more other accounts it may report one more, because a recording run's own entry takes a
  slot: `Campaign.DryRunAgainstRecording` gives the exact condition, `Campaign.DryRunDiffersInACrowd`
  an input for every crowd size.
- The claim is said to cover one 30-second request timeout and three waits (`src/redis.rs:18-20`). The
  loop makes up to four attempts, 210 seconds in all (`Http.DefaultDeliveryIsBounded`); the claim
  still covers that, and `ClaimTiming.ExclusionIffPromptClaimReplies` says when.
- The retention pass is described as expiring jobs by their stored update time
  (`src/redis.rs:474-475`). It samples the clock once and sends relative expiries later, so the expiry
  is late by the time in between: `Retention.OneScanIsExactIffInstant`, `Retention.SlowScanKeepsLonger`.
- `is_numeric_id` accepts padded IDs, which `numeric_id_cmp` misorders: `Ids.PaddedIdsAreMisordered`,
  and `Ids.OrderIsNumericIffUnpadded` for exactly which.
- Pending deliveries are said to reuse the persisted verdict (`README.md:202-203`). They do, exactly when
  the check reads the record as pending (`Verdicts.VerdictIsReusedIffPending`). When a resend fails the
  record becomes Failed and keeps the verdict (`src/check.rs:482-487`), so that delivery is no longer
  pending and the next retry judges the account anew: `Scenario.FailedResendIsJudgedAnew`.
- A spam verdict need not be delivered in the end: a backfill without `--notify` over a failed account
  takes it out of the queue (`Notifications.SilentBackfillClearsTheQueue`). Exactly: an account no
  moderator has decided is completed as notified if and only if the run that completes it is not such a
  backfill, and its record says so if and only if that check has sent the verdict it holds
  (`Verdicts.CompletionTellsItsCheck`, `Verdicts.RecordIsTruthful`).
- Losing the lease is said to abort the operation (`src/cli.rs:51-52`). The checks it has spawned go on
  until the release has been answered (`src/cli.rs:76-90`), so one of them may write Failed over a record
  that the next run has completed (`Overwriting.LeftoverOverwritesCompleted`). Exactly:
  no two runs have live checks if and only if no renewal fails or times out
  (`Lease.ChecksExclusiveIffRenewalsSucceed`), and completed records are final if and only if no check
  outlives its run (`Overwriting.RecordsAreFinalIffNothingLingers`). The exclusion of feedback by claims and
  by deliveries, the cursor and what it covers, and the guard on destructive calls do not depend on it
  (`Lingering`).

## Assumptions

- Lease tokens never repeat; timers fire when due; acquire replies arrive within 90 s of taking effect.
  `Lease.ExclusionIffPromptReplies` shows that bound to be exact for polled operations.
- At most one run at a time in `System`, which `Lease` gives for polled operations. That no check outlives
  its run is an assumption of the theorems about `After`, the histories in which nothing lingers; those
  named in `Lingering` do without it.
- The reply to a granted notification claim arrives in under 390 s (`System.CLAIM_REPLY_MAX`);
  `ClaimTiming.ExclusionIffPromptClaimReplies` shows that bound to be exact.
- Runs and Redis read one clock. New accounts get IDs above existing ones, and pages keep the contract
  of `Pagination.PageObeys`.
- A command takes effect before its caller gives up on it, except a lease renewal, which may be late.

## Model

| member | source | states |
|---|---|---|
| Safety.NoAccountIsSkipped | src/check.rs:206-267 | over every history of runs, failures, crashes, lost replies and feedback: each listed account from the first account of the run that first saved a cursor up to the cursor is a system account or has at some moment had a completed job, a pending notification or feedback |
| Safety.CursorNeverMovesBack | src/redis.rs:169-186 | over every history, between any two moments the cursor does not decrease |
| Safety.QueueAgreesWithRecord | src/redis.rs:711-753 | in every reachable state: a completed job is in neither queue, a Failed job is queued or decided, a NotificationPending job is queued as pending or decided and holds a spam verdict, and exactly these two kinds have no expiry |
| Verdicts.RecordIsTruthful | src/check.rs:269-350 | a Spam record was written by a check, and has stood since, that tells the truth: it says `notified` if and only if a Slack send of the very verdict it holds returned success in that check, and, unless a moderator had decided by then, if and only if the run of that check is not a backfill without `--notify` |
| Verdicts.CompletionTellsItsCheck | src/check.rs:422-450 | over every history, the same of a check about to complete an account as spam: an undecided one is completed as notified in the periodic check, in `retry-failed` and in a backfill with `--notify`, and as not notified in a backfill without |
| Safety.CompletedRecordIsFinal | src/check.rs:279-298 | where no check outlives its run, a completed record is read unchanged at every later moment until 90 days after its update time |
| Overwriting.RecordsAreFinalIffNothingLingers | src/cli.rs:76-90 | completed records are final in every history if and only if no check may outlive a run that lost its lease |
| Overwriting.LeftoverOverwritesCompleted | src/cli.rs:76-90 | the history in which a left-over check writes Failed over a record a backfill has completed, and queues the account |
| Lingering.ClaimExcludesFeedbackAnyway | src/redis.rs:358-421 | an unexpired claim means no feedback, also with left-over checks beside the next run's |
| Lingering.CursorNeverMovesBackAnyway | src/redis.rs:169-186 | nor does the cursor decrease then |
| Lingering.NoAccountIsSkippedAnyway | src/check.rs:206-267 | nor is any account skipped then, however late claim replies arrive |
| Lingering.NoDestructiveCallAnyway | src/server.rs:302-319 | nor is a suspend or delete request issued or under way on an account whose last recorded press marked it a false positive |
| Lingering.DeliveriesExcludeAnyway | src/redis.rs:406-437 | with left-over checks too, a delivery's claim is unexpired, there is no feedback, and no two deliveries for an account are under way at once |
| Safety.ClaimExcludesFeedback | src/redis.rs:358-421 | in every reachable state an unexpired claim means that no feedback exists |
| Safety.DeliveryIsExclusiveAndRecorded | src/check.rs:491-518 | from the granted claim to the end of a delivery, retries included, the claim is unexpired, there is no feedback, and the account is recorded and queued as pending with the verdict that is sent, so a crash leaves it for `retry-failed`; only a retry run resends for an account it found pending |
| Notifications.NoSecondNotification | src/check.rs:417-450 | after any delivery, no delivery for the account begins or ends before its record may expire unless a retry run is started since, whatever crashes or replies are lost |
| Releasing.FeedbackIsOpenAfterRelease | src/check.rs:491-518 | over every history, once the release of a notification has taken effect, answered or not, and until the next claim is asked for or the record may expire, there is no unexpired claim and a moderator's verdict is recorded |
| Notifications.ClaimCoversDeliveryIffPromptReply | src/redis.rs:18-20 | the 600 s claim covers every delivery the retry loop allows if and only if its reply arrives in under 390 s; past that, feedback can overtake a delivery |
| ClaimTiming.ExclusionIffPromptClaimReplies | src/redis.rs:358-421 | in every history no delivery is under way on an account with feedback, if and only if claim replies arrive in under 390 s |
| ClaimTiming.LateReplyLetsFeedbackOvertake | src/check.rs:491-518 | the history in which feedback overtakes a delivery, for every longer bound |
| Verdicts.VerdictIsReusedIffPending | src/check.rs:452-489 | over every history, a verdict that is claimed for, sent or released is the one on record; it was reused without a judgement in that check if and only if the check read a pending notification, which then held it, in a retry run; otherwise it is the one judged in that check |
| Verdicts.PendingIsResentByRetryRuns | src/check.rs:286-292 | over every history, a check that reads a pending notification goes on to resend the verdict it holds in a retry run, and ends in any other |
| Scenario.FailedResendIsJudgedAnew | src/check.rs:482-487 | for every ordinary account and spam verdict a history from a pending notification over a failed resend to a Failed record that keeps the verdict, and on to a retry run about to judge the account anew |
| QueueSafety.AccountsLeaveTheQueueForAReason | src/redis.rs:590-646 | over every history, an account in a queue at one moment and in neither at a later one has in between had feedback or a completed record, or was reported gone by Mastodon while nothing was on record |
| Notifications.FailedAccountIsJudgedAgain | src/check.rs:286-317 | a check of a Failed account without feedback, in a run of any kind and whatever verdict is stored, begins a fresh record that counts the attempt and holds none, and comes to a new judgement |
| Notifications.SilentBackfillClearsTheQueue | src/cli.rs:266-287 | the run of a silent backfill that leaves a failed account unqueued and its spam record unnotified |
| Safety.NoDestructiveCallOnClearedAccount | src/server.rs:302-319 | over every interleaving of clicks and feedback, while a suspend or delete request is issued or under way the account's feedback is not FalsePositive, and the last press recorded for it was not by the false-positive button |
| Presses.FeedbackIsTheLastPress | src/server.rs:458-513 | over every history, left-over checks included, an account's feedback is FalsePositive if and only if the last press recorded for it was by the false-positive button, ConfirmedSpam if and only if by the confirming one, and absent if and only if none was; a press is recorded exactly when there is a record or an earlier verdict and no unexpired claim |
| Presses.ClickGoesOn | src/server.rs:302-456 | over every history, what comes next for a click: refused if the feedback cannot be read or the last press cleared the account; then a suspend is issued unless the account is known to be suspended, a delete only if it is |
| Presses.ClickBegins | src/server.rs:357-362 | a click taken on begins with the feedback check for the destructive buttons and with the write for the two verdicts |
| Presses.TasksAreClicks | src/server.rs:191-198 | over every history, the clicks being handled are those taken on and not ended since, with their account and button |
| Presses.PressDequeues | src/redis.rs:358-404 | a recorded press takes the account out of both queues and changes no other feedback, record or claim |
| Safety.InFlightIsTheLiveClicks | src/server.rs:47-87 | the in-flight set is exactly the accounts with a live guard, and no account has two |
| Outcomes.DestructiveCallWasChecked | src/server.rs:373-456 | over every history, only suspend and delete buttons lead to a destructive request, and within the same click an answered feedback check came before, and a suspension check that said suspended for a delete and did not for a suspend |
| Outcomes.SuccessfulRetryLeavesTheQueue | README.md:201-203 | over every history, a retry run's check of an ordinary account that ends well leaves it in neither queue, also when it stops at once on feedback given since the walk or on a completed record |
| Outcomes.ReachedOnlyAfterSuccess | src/check.rs:215-263 | over every history, a run at a chunk of its list has seen every check of the chunks before it end well, so an account that fails in every run keeps the entries beyond its chunk from being looked at |
| Outcomes.RunGoesOnIffChunkSucceeded | src/check.rs:258-263 | a finished chunk is followed by the next if and only if all of it ended well and the list goes on |
| Outcomes.ChunkIsTheNextOnes | src/check.rs:206-222 | a chunk is the next accounts of the list, exactly as many as may run at once or are left, all checks beginning anew |
| Outcomes.CursorIsTheLastSuccess | src/check.rs:235-263 | a run that does not go on saves a cursor if and only if it is periodic and its first account ended well, and then up to the last account before the first failure |
| Outcomes.CursorIsSaved | src/cli.rs:135-144 | the saved cursor becomes the last of those accounts, unless it is beyond it already |
| Outcomes.EndedCheckIsRecorded | src/check.rs:310-349 | over every history, a check that began a record and ends with its commands answered leaves its account completed and unqueued, or Failed, without expiry, and queued; a failure goes unrecorded only when Redis did not answer |
| Scenario.SpamCanBeDelivered | src/check.rs:352-518 | for every ordinary account and spam verdict some history with only periodic runs ends with the account delivered, recorded as notified, unqueued and covered by the cursor, and some history with only backfills with `--notify` ends so but for the cursor |
| Scenario.PendingCanBeResent | src/check.rs:452-489 | for every such account and verdict a crash can leave the notification owed, and some history with only retry runs then delivers that very verdict and records it |
| Scenario.GoneAccountCanBeClosed | src/cli.rs:231-250 | some history with only retry runs ends, from a notification owed, with the account Unavailable and unqueued |
| Scenario.SpamCanBeRecordedSilently | src/cli.rs:266-287 | some history with only backfills without `--notify` ends with the verdict recorded as not notified and the account unqueued |
| Checks.CheckOne | src/check.rs:269-350 | `check_one` on a store where nothing interferes but a press just before the claim: it leaves exactly the record, expiry, queues, feedback, claims and result listed for its case, and so does the state machine of a check driven to its end |
| Checks.CheckLeavesItsOutcome | src/check.rs:269-518 | the check of the state machine, every command answered, ends within 14 steps and leaves what is listed for its case: field by field for a broken, unusable, clean or spam judgement, silent, sent, failed, refused or suppressed |
| Checks.OutcomeIsDetermined | src/check.rs:269-350 | those cases leave no choice of the state or the result |
| Checks.JudgeAccount | src/check.rs:352-450 | what the judgement of an account leaves: Failed and queued when a lookup broke, Undetermined when there is no usable verdict, and otherwise the record of the verdict |
| Checks.RetryPendingNotification | src/check.rs:452-489 | a resend completes as notified when it is delivered, as not notified when a press suppresses it, and leaves Failed with the verdict kept when it is refused or fails |
| Checks.NotifyWithClaim | src/check.rs:491-518 | sent exactly when the claim is granted and the delivery succeeds, suppressed exactly by a press before the claim, and the claim is gone afterwards |
| Checks.CommandsMayGoUnanswered | src/check.rs:299-349 | a command without an answer takes effect as if answered or not at all, and then the check records a failure once a verdict is there, fails at once otherwise, and ignores a lost release |
| Accounts.SystemAccountsAre | src/check.rs:540-542 | the three reserved names, or the name of the account's own domain |
| InFlightSet.InFlight.Claim | src/server.rs:67-74 | a new guard exactly when no live guard is of the account; the set stays the accounts of the live guards |
| InFlightSet.InFlight.IsEmpty | src/server.rs:58-60 | true exactly when no guard is live |
| InFlightSet.Guard.Drop | src/server.rs:83-87 | a live guard, once dropped, frees its account and no other |
| InFlightSet.Serve | src/server.rs:191-198 | whatever clicks and task ends arrive, guards and set are those the state machine's clicks give |
| InFlightSet.SystemHandlesClicksSo | src/server.rs:191-198 | the events of the state machine change tasks and set in that way |
| Safety.HistoryIsTrue | src/check.rs:491-518 | what the proofs remember as delivered, judged silently, settled and first saved did happen in the events |
| SystemSteps.HistoryKeepsInv | src/check.rs:269-518 | every history of events keeps the inductive invariant of the service |
| AccountInvariants.CheckKeepsAcct | src/check.rs:269-350 | each step of a check, with any reply, keeps the agreement of record, expiry, queues, claim and feedback of its account |
| AccountInvariants.CheckKeepsCheck | src/check.rs:352-518 | each step of a check establishes what its next step relies on |
| AccountInvariants.CheckTouchesOnlyItsAccount | src/check.rs:269-350 | a check changes nothing of another account, no feedback and no cursor |
| AccountInvariants.FeedbackKeepsCheck | src/redis.rs:358-404 | feedback at any point of a check leaves all the check relies on |
| AccountInvariants.MigrationKeepsAcct | src/redis.rs:476-529 | the command of a retention pass never expires a job early and never gives an expiry to one that must stay |
| Refinement.FetchIsContiguous | src/cli.rs:126-135 | an exact fetch leaves no gap: at any later moment all listed accounts from the cursor, or from its first account, up to its last one are in it |
| Refinement.ChunkEndsAtTheScan | src/check.rs:235-260 | the leading successes of a chunk extend those before it to the longest successful prefix, and the cursor saved is that of the one-by-one scan |
| Refinement.MigrationAppliesOneScan | src/redis.rs:476-529 | over every history, the command of a pass does to a job read earlier what one scan at that moment does |
| Refinement.GoneAccountIsClosed | src/redis.rs:624-633 | an account that is gone leaves both queues, and its record becomes Unavailable for 90 days |
| Refinement.ResolvedEntryIsDropped | src/redis.rs:610-619 | an entry found resolved leaves both queues and nothing else changes |
| Lease.LeaseHeldWhilePolled | src/cli.rs:53-91 | over all timed runs of any number of processes the key holds a run's token while its operation is polled, no two operations are polled at once, and a renewal answered in time finds the lease still owned |
| Lease.OthersLeaseUntouched | src/redis.rs:214-251 | no command of another run, a release above all, touches a held lease |
| Lease.ExclusionIffPromptReplies | src/redis.rs:188-212 | exclusion holds in every history if and only if acquire replies take less than 90 s |
| Lease.ChecksExclusiveIffRenewalsSucceed | src/cli.rs:76-90 | no two runs have live checks in any history if and only if, besides, no renewal may fail or time out |
| Lease.FailedRenewalLeavesChecks | src/cli.rs:76-90 | the history of a failed renewal whose checks are still live when the next run is polled |
| Lease.LateReplyBreaksExclusion | src/cli.rs:59-76 | the history in which a later reply lets two operations be polled at once |
| Lease.LeaseIsGrantedIffFree | src/redis.rs:188-212 | a run gets the lease if and only if no unexpired key stands, for 180 s |
| Lease.ReleaseIsForGood | src/redis.rs:214-232 | over every history, a run's token is gone from the key for good once its release has taken effect |
| Http.SendWithRetry | src/http.rs:95-139 | at most `max_retries` + 1 attempts; every reply but the last is a 429, a 5xx, a timeout or a failed connection, and the last is none of these unless the retries ran out; the time is the sum of attempts and waits |
| Http.WaitIsExact | src/http.rs:72-79 | the wait after a response is 1,000 ms for each second its `Retry-After` names, at most 30 s, exactly when the header is a whole number below 2^64 with an optional plus sign and whitespace around; otherwise, and after a failed request, it is the backoff |
| Http.BackoffIsExact | src/http.rs:53-59 | the backoff is the base delay times the power of two of the attempt, each saturating |
| Http.DefaultDeliveryIsBounded | src/http.rs:44-51 | a whole delivery under the default settings takes at most 210 s |
| Http.ElapsedIsBounded | src/http.rs:95-139 | for every configuration: attempts times the timeout plus waits no longer than the cap or the last backoff |
| Http.BackoffDoublesThenSaturates | src/http.rs:53-59 | the wait starts at the base delay, doubles until a saturation, never shrinks |
| Http.BackoffNeverShrinks | src/http.rs:53-59 | a later wait is at least an earlier one |
| Http.RetryAfterHonoursDelaySeconds | src/http.rs:72-79 | decimal delay-seconds of section 10.2.3 of RFC 9110 are honoured up to the cap, and ignored past 64 bits |
| Campaign.CappedIndexRefinesLog | src/redis.rs:764-800 | after any recordings at times that never go back, the stored key is the newest 1,000 members, by score then member, of the windowed uncapped log, and each later read is the read of the log |
| Campaign.LogReadIsExact | src/redis.rs:790-798 | a read of the log is, newest first, exactly the accounts seen in the last 30 days with fewer than 20 seen later |
| Campaign.StoredIsExact | src/redis.rs:768-788 | the stored key is exactly those of the window with fewer than 1,000 seen later, each with its last sighting, and expires 30 days after the last recording |
| Campaign.RecordingRefines | src/redis.rs:768-788 | one recording keeps that relation |
| Campaign.KeyExpiryLosesNothing | src/redis.rs:778-779 | when the whole key expires, nothing in it or in the log would still be read |
| Campaign.DryRunAgainstRecording | src/redis.rs:656-693 | a recording run sees the dry run's list, or it without its last entry; they differ if and only if 20 others are in the window and the stamp moves the own entry into the newest 20 |
| Campaign.DryRunSeesTheSameBelowTheLimit | src/redis.rs:648-650 | with fewer than 20 others the two lists are equal |
| Campaign.DryRunDiffersInACrowd | src/redis.rs:648-650 | for every number of recorded accounts from 20 up, a key reached by recordings and a newcomer for whom they differ |
| CampaignIndexes.CampaignIndex.Context | src/redis.rs:656-693 | for unpadded IDs the report is exactly the 20 numerically largest other accounts found in some key's read of the uncapped log, descending, and without `record` nothing is written |
| CampaignIndexes.MergedIsReport | src/redis.rs:684-691 | the merged reads, cut to their numerically largest, are that report |
| CampaignIndexes.CampaignIndex.RecordKey | src/redis.rs:768-788 | the commands for one key record the sighting and keep every key a refinement of its log |
| CampaignIndexes.CampaignIndex.ReadKey | src/redis.rs:790-798 | the read of a key is the read of its uncapped log |
| CampaignIndexes.MergeHolds | src/redis.rs:684-688 | merging reads collects each other account once and never the account itself |
| Pagination.FetchRemoteAccounts | src/mastodon.rs:153-215 | ends against any server within `max_accounts` requests, each for what is still wanted but at most 200; against one that keeps the contract, forward gives exactly the lowest `max_accounts` IDs between the bounds, backward exactly the highest, ascending, also with repeats inside a page and accounts that federate meanwhile |
| Pagination.PageGathered | src/mastodon.rs:183-206 | one answered request keeps the gathered accounts contiguous or ends the loop with the exact answer |
| Accounts.SortUniqueIsSortedUnique | src/mastodon.rs:88-91 | the first account of each ID, in strictly ascending order |
| Processing.ProcessAccounts | src/check.rs:206-267 | for every concurrency and completion order the cursor and the counts are those of scanning one by one, the failure too unless a task panicked, and exactly the entries of which every earlier chunk succeeded are started, so at most `concurrency` - 1 beyond the failure |
| Processing.ProcessChunk | src/check.rs:215-261 | one chunk does what the scan of it does |
| Processing.JoinChunk | src/check.rs:224-233 | whatever the order of completion, each task that did not panic leaves its result, and a panic is recorded |
| Processing.FoldChunk | src/check.rs:237-260 | the pass in original order is the scan |
| Processing.ScanReportsThePrefix | src/check.rs:162-203 | the scan's cursor, counts and failure, read off the longest successful prefix |
| StateStores.StateStore.FailedIds | src/redis.rs:590-622 | visits the listed queue in order, each entry at its own moment with moderators deciding in between, up to the `limit`th entry listed and no further |
| RetryQueue.WalkIsExact | src/redis.rs:601-621 | such a walk lists, ascending and without repeats, exactly the visited entries not resolved when read, expired records included; exactly those resolved when read, and accounts decided meanwhile, leave the queues |
| RetryQueue.ResolvedMeans | src/redis.rs:601-609 | resolved: terminal feedback, or a kept record of a status that owes nothing |
| RetryQueue.CalmWalkIsLowestLive | src/redis.rs:590-622 | with nothing decided in between and at one instant, those are the `limit` lowest live entries |
| RetryQueue.LowestLiveIsUnique | src/redis.rs:590-622 | that description leaves no choice of the list |
| RetryQueue.WalkLosesNothing | src/redis.rs:610-619 | such a walk loses no live entry, and walking again gives the same list |
| RetryCommand.GatherBatch | src/cli.rs:231-250 | the first `max` accounts that still exist, in queue order, looking at no entry beyond them; gone accounts are closed, unfetchable ones untouched |
| StateStores.StateStore.SaveCursor | src/redis.rs:169-186 | the cursor becomes the larger of the two |
| StateStores.StateStore.BeginJob | src/redis.rs:260-287 | a fresh Processing record that counts the attempt, saturating, and nothing else changes |
| StateStores.StateStore.CompleteJob | src/redis.rs:289-306 | the terminal record with its expiry, out of both queues, in one transaction |
| StateStores.StateStore.RecordClassification | src/redis.rs:308-336 | fails without a record; otherwise the record with status, verdict and campaign renewed, and queued as pending if that is the status, in one transaction |
| StateStores.StateStore.FailJob | src/redis.rs:338-349 | the Failed record with the verdict stored by now, without expiry, moved from pending to failed |
| StateStores.StateStore.RecordFeedback | src/redis.rs:358-404 | refused without record or feedback and during an unexpired claim; otherwise written, dequeued, and the replaced verdict reported |
| StateStores.StateStore.ClaimNotification | src/redis.rs:406-421 | granted exactly when there is no feedback and no unexpired claim, for 600 s |
| StateStores.StateStore.ReleaseNotificationClaim | src/redis.rs:423-437 | afterwards no unexpired claim of that token stands, one of another token and every other account's claim is as it was |
| Redis.ReleaseFreesTheAccount | src/redis.rs:423-437 | after a release the account is claimed if and only if an unexpired claim of another token stood, and otherwise it can be claimed and decided again |
| StateStores.StateStore.MarkUnavailable | src/redis.rs:624-633 | closes the record, or only dequeues when there is none |
| StateStores.StateStore.ApplyJobRetention | src/redis.rs:476-529 | every job ends with the applications of the scanned batches that yielded it, in order |
| Retention.OneScanIsExactIffInstant | src/redis.rs:756-759 | a scan deletes exactly a job that is due, and otherwise gives it its due time plus the delay of the command, so the due time if and only if there is no delay |
| Retention.OnlyTheLastScanMatters | src/redis.rs:452-472 | interrupted, repeated and duplicate scans, of a job with or without an expiry, leave it unchanged but for an expiry that depends on its update time and the last scan, or gone and due |
| Retention.InstantScansEndAlike | src/redis.rs:452-472 | without delay any such scans end in the state of one clean pass |
| Retention.DurableJobsStay | src/redis.rs:474-475 | Failed and NotificationPending jobs are never given an expiry or deleted |
| Retention.FreshWriteIsDue | src/redis.rs:741-753 | a fresh write gives the same due time, up to the fraction of its second |
| Retention.SlowScanKeepsLonger | src/redis.rs:476-478 | a pass five seconds into its work keeps a job five seconds longer |
| Ids.CmpIsNumericOrder | src/ids.rs:11-13 | for unpadded decimals of any length the comparison is that of the integers, and equality is identity |
| Ids.ScriptGuardIsNumericOrder | src/redis.rs:172-175 | the Lua guard is the same order |
| Ids.CursorIsMaximum | src/redis.rs:169-186 | after any saves the cursor is the largest ID saved |
| Ids.ReportKeepsTheLargest | src/redis.rs:858-863 | the report is exactly the 20 numerically largest matches, descending |
| Ids.OrderIsNumericIffUnpadded | src/ids.rs:11-19 | an ID that passes validation is ordered right against all unpadded IDs if and only if it is unpadded |
| Ids.PaddedIdsAreMisordered | src/ids.rs:17-19 | a padded ID passes validation and is misordered |
| Markup.DecoderUndoesEncoder | src/signals.rs:47-73 | decoding sanitized text gives the folded original, for every string, entities and tags in it included |
| Markup.SanitizeIsEscapeOfFold | src/slack.rs:233-240 | the chain of replacements acts character by character |
| Markup.EntitiesDecodeEscape | src/signals.rs:65-72 | the decoding chain, with `&amp;` last, undoes the escape |
| Markup.SanitizeIsInjectiveUpToWhitespace | src/slack.rs:233-240 | two sanitized texts are equal if and only if the folded originals are |
| Markup.HtmlToPlainText | src/signals.rs:47-73 | the scanning loop computes the decoding function, of which the next rows say what it makes of markup |
| Html.PlainTextIsWhatIsSeen | src/signals.rs:47-73 | of any sequence of coded texts, tags and breaks, with quotes coded or not, it gives the texts decoded, nothing for a tag, one newline for each form of a line break and two for the border of two paragraphs, trimmed |
| Html.ScanKeepsWhatIsOutside | src/signals.rs:54-63 | of any text at all the scan keeps exactly the characters that are neither angle brackets nor after a `<` that no `>` has closed |
| Html.TwoParagraphs | src/signals.rs:48-52 | two paragraphs give their texts with an empty line between |
| Html.BreakIsNewline | src/signals.rs:48-52 | `<br>`, `<br/>` and `<br />` give a newline |
| Html.EntityIsDecoded | src/signals.rs:65-72 | each of the five entities, and every other character, on its own gives its character |
| Html.EntitiesAsWritten | src/signals.rs:65-72 | the five entities, letter by letter |
| Html.SlackCodesThree | src/slack.rs:233-240 | Slack text has `&`, `<` and `>` coded and every other character of a word as it is |
| Markup.TruncationNeverSplitsAnEntity | src/slack.rs:213-223 | at most the limit; the whole text when it fits, and otherwise the escape of the longest fitting prefix and an ellipsis |
| Text.FoldIsFolded | src/slack.rs:233-237 | folding leaves no whitespace but single spaces inside |
| Text.FoldIdempotent | src/slack.rs:233-237 | folding twice is folding once |
| Text.SplitFindsTheWords | src/slack.rs:233-237 | splitting gives the words of a text, whatever whitespace stands between and around them |
| Text.TrimIsExact | src/signals.rs:71-72 | trimming removes the whitespace at both ends, all of it and nothing else |
| Text.TruncationIsExact | src/text.rs:5-17 | a text that fits is kept, another gets all its characters but one from the text and ends with an ellipsis |
| Text.WhitespaceCodePoints | src/slack.rs:233-237 | the code points of Unicode White_Space |
| Posts.SectionIsBounded | src/llm.rs:487-521 | at most 4,000 characters in all and 500 for each post, every post shown or counted as omitted, the first eight always shown, and omission only with the budget spent |
| Posts.LineShowsThePost | src/llm.rs:499-511 | a line shows the text as shortened, and time, language and source of the post, or `unknown` |
| Posts.BudgetIsShared | src/llm.rs:494-516 | the same for every budget |
| Posts.AppendRecentPosts | src/llm.rs:487-521 | the loop appends exactly that section, its budget never underflowing |

## Left out

- HTTP clients, TLS, JSON, form parsing, routing, logging and locale strings: an outgoing request is an arbitrary outcome after a bounded time.
- Verdict contents, prompts and model selection: a verdict is an arbitrary input of the check.
- ActivityPub signing, encryption, PostgreSQL notes, Slack signatures, configuration and argument parsing.
- Link and URL extraction and SHA-256 digests: campaign keys are opaque, and a key's commands are one step.
- `post_text`, which composes a post's text, and the template text around sanitized parts.
- Of a job record, the account name, model, prompt version and error text; that an error is stored is kept. The counts of matches follow from the stored list.
- Moderation action keys and the retention marker: nothing in the protocol reads the former, and the latter only skips the pass. The counts of changed keys are only logged.
- 32-bit counters of a summary, which cannot be reached.
- Dry runs and one-off inspections in `System`: they write nothing.
- A panic inside a check in `System`: it ends a check without a result, which `Processing` models.
- Safety.CompletedRecordIsFinal: assumes that no check outlives its run, since otherwise it is false; so do the other theorems about `After`, except as `Lingering` restates them.
- Commands that take effect after their caller gave up on them, other than lease renewals.
- CampaignIndexes.CampaignIndex.Context: needs a clock past second 0, since a stamp at second 0 is outside its own window, and one caller at a time for a key; the report is stated for unpadded IDs.
- Ids.CmpIsNumericOrder: is stated for unpadded IDs, because padded ones are misordered.
