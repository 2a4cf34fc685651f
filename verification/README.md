# Verified model of Codex Broker

Codex Broker shares a pool of Codex accounts among clients. This project models the parts of it whose correctness
spans many calls, many runs or several processes, and proves what those parts are for. Each module doc comment names
the source it follows; methods and classes carry out the steps as the code does, functions specify them, and lemmas
prove the properties over all inputs, all runs and all interleavings.

| files | what they model |
|---|---|
| Spans, Quota, QuotaLaws, Telemetry, TelemetryRuns, Interleaving | quota attribution: usage reads cut time into intervals, responses arrive before or after them, two lifetime ledgers are kept incrementally |
| TelemetryTotals, RelayEvents | rolling and lifetime usage totals, and deduplicated relay event batches interrupted anywhere |
| Reports, ReportStore, UsageSync, SyncLaws, SyncClient | the usage-report sync protocol: journal, batches, broker rows, a network that loses, repeats, delays and reorders, crashes |
| Selections, Scrub, ScrubLaws, Truncation | shrinking oversized requests: compaction cut, media, tool output, turn eviction |
| Notice, NoticeStream, NoticeLaws, NoticeReplay | the account notice, its removal on replay, and the streamed rewriting of the final answer |
| QuotaResets, ResetLaws, Routing | quota blocks, refresh requests, reset watermarks, and routing a request to an account |
| Gateway, Outbox | the proxy's retry loop against any routing authority, and the relay's store-and-forward outbox |
| Login, Credentials | cancel against checkpoint during sign-in, and use of a credential that rotates, under crashes |
| Base, Sums | options, results, truncating division, shared constants, finite sums |

SQL tables are maps or sequences and each write transaction is one step. Raw JSON is opaque with its length; a stored
document equals another when its canonical bytes do. Times are integers that the steps carry. Where a step needs the
outside world (a reply, a crash, a random choice, a failing write) it takes the outcome as an input, and the theorems
hold for every outcome.

## Results that differ from what the repository says or suggests

- A flagged correction that is superseded before the broker has seen it loses its flag
  (internal/usagesync/client.go:304). `SyncLaws.CorrectionLost` gives a run that ends with a journal the broker refuses,
  even after the same report was captured again with decreases allowed. `SyncLaws.CurrentUpload` is the exact condition
  on every run: an upload of current entries is refused if and only if one of them lost a correction and is below the
  broker's report. `SyncLaws.SupersedingIsSafe` says when exactly superseding a pending entry is harmless,
  `SyncLaws.SupersededUpload` which superseding reports are accepted, and `SyncLaws.CalmUpload` that runs without lost
  corrections are never refused.
- A response is counted twice when its relay event was half-processed, its row pruned and the event resent:
  `RelayEvents.PrunedTooEarly` is such a run and `RelayEvents.CountedTwice` the exact condition for every delivery of a
  batch.
- An eviction from the relay outbox while a flush is in flight makes the flush drop an event that was never sent
  (internal/relay/relay.go:400): `Outbox.EventLost` is such a run, and `Outbox.LostExactly` says
  exactly which events such a flush loses: as many as were evicted, so none if and only if none was.
- A final answer announced while another message is held back is passed on without the notice
  (internal/responsesproxy/notice.go:330): `NoticeLaws.PrefixedOrUntouched` says of every message announced once which
  of the two happens to it.
- `PrepareNotice` gives back the original text exactly for labels without a blank line (`Notice.StripUndoes`).
- The grace after a quota rejection is 45 seconds in the code and in the operations guide, two minutes in the README of
  the repository; the README's scrubbing limits also differ from the constants in internal/responsesproxy/scrub.go:13-14.
  The model follows the code, and the scrubbing laws hold for every policy.

## Model

| member | source | states |
|---|---|---|
| Spans.MergeCanonical | internal/proxytelemetry/quota.go:158-169 | merged spans are sorted, separated by gaps and cover exactly the same instants |
| Spans.SeparatedUnique | internal/proxytelemetry/quota.go:158-169 | a set of instants has only one sorted, separated list of spans |
| Spans.MergeDependsOnInstants | internal/proxytelemetry/quota.go:158-169 | two lists merge to the same spans if and only if they cover the same instants, whatever their order |
| Spans.MergeMeasure | internal/proxytelemetry/quota.go:158-178 | the summed length of the merged spans is the measure of the union |
| Spans.MergeAppend | internal/proxytelemetry/quota.go:137-146 | merging one more span into merged spans equals merging all spans afresh |
| Spans.MergeGrows | internal/proxytelemetry/quota.go:137-146 | one more span never shortens the merged activity, and leaves it alone if the length is unchanged |
| Spans.InstantsWithin | internal/proxytelemetry/quota.go:43-72 | spans clipped to an interval never sum to more than its length |
| Spans.MergeSpans | internal/proxytelemetry/quota.go:158-169 | the in-place merging loop computes the canonical spans |
| Quota.Clips | internal/proxytelemetry/quota.go:43-71 | what responses contribute to an interval are proper spans inside it |
| QuotaLaws.InClips | internal/proxytelemetry/quota.go:43-71 | an instant is active exactly if some response of the account was running then inside the interval |
| QuotaLaws.ModelSummary | internal/proxytelemetry/quota.go:151-156 | an interval's model is none without activity, the one known model of all activity, else unknown |
| QuotaLaws.HoldsSame | internal/proxytelemetry/quota.go:36-104 | spans and model of an interval depend only on the set of responses touching it |
| QuotaLaws.CorrectHolds | internal/proxytelemetry/quota.go:108-148 | correcting an interval for one late response gives what recomputing it from all responses gives |
| QuotaLaws.RowPresent | internal/proxytelemetry/quota.go:208-220 | the reversal of an attribution always finds the ledger row it was added to |
| QuotaLaws.SaveExact | internal/proxytelemetry/quota.go:171-206 | saving activity, with its reversal, keeps both lifetime ledgers equal to sums over the intervals |
| Telemetry.Store.AdjustModelLifetime | internal/proxytelemetry/quota.go:208-220 | adds or takes back one interval's share in the per-model ledger |
| Telemetry.Store.SaveActivityAt | internal/proxytelemetry/quota.go:171-206 | stores an interval's activity and moves both ledgers accordingly |
| Telemetry.Store.RecordQuotaActivity | internal/proxytelemetry/quota.go:108-148 | corrects every stored interval a finished response was active in |
| Telemetry.Store.RecordResponse | internal/proxytelemetry/telemetry.go:32-89 | inserts a response once per id, with totals and corrections; a resent one changes nothing |
| Telemetry.Store.RecordUsageRead | internal/proxytelemetry/quota.go:36-104 | opens the intervals one complete read makes comparable |
| Telemetry.Store.CommitRead | internal/broker/credentials.go:423-461 | a complete read is refused if a newer one is stored, attributed unless it follows a pulse, and made the new baseline |
| Telemetry.Oldest | internal/proxytelemetry/telemetry.go:102-105 | the row pruned next is the one that ended first among those before the cutoff |
| Telemetry.Store.PruneResponses | internal/proxytelemetry/telemetry.go:100-133 | deletes at most the limit of expired rows, oldest first, out of the rolling totals |
| Telemetry.Store.PruneExpired | internal/proxytelemetry/telemetry.go:100-136 | pruning deletes expired responses and expired intervals and nothing else |
| TelemetryRuns.PruneRowsKeeps | internal/proxytelemetry/telemetry.go:100-133 | pruning removes only rows that ended before the cutoff |
| TelemetryRuns.StepGood | internal/proxytelemetry/quota.go:36-220 | recording, reading and pruning each keep both ledgers exact |
| TelemetryRuns.LedgersExact | internal/proxytelemetry/quota.go:171-220 | in every run both lifetime ledgers equal the sums over all intervals ever made, through corrections, reversals and pruning |
| Interleaving.UsageShape | internal/proxytelemetry/quota.go:36-104 | a read opens exactly the intervals the polls determine, each built from the responses stored then |
| Interleaving.PlannedByPolls | internal/proxytelemetry/quota.go:36-104 | which intervals exist depends on the polls alone |
| Interleaving.RecomputePermutation | internal/proxytelemetry/quota.go:171-220 | recomputation does not depend on the order of the intervals |
| Interleaving.RunContent | internal/proxytelemetry/quota.go:36-148 | after any orderly run every interval holds what recomputation over all recorded responses gives |
| Interleaving.LedgerFromScratch | internal/proxytelemetry/quota.go:36-220 | after any orderly run both ledgers equal recomputation from the polls and the responses, whatever was pruned |
| Interleaving.InterleavingIndependence | internal/proxytelemetry/quota.go:36-156 | runs with the same polls and the same responses, however interleaved and pruned, end with the same intervals and equal ledgers |
| Interleaving.RowsSuffice | internal/broker/service.go:560-582 | pruning no later than a poll's observation less the retention never removes a response that poll needs |
| Interleaving.IntervalsApart | internal/broker/credentials.go:424-459 | an account's intervals of one window never overlap: each ends before the next one starts, and the last at the account's last read at the latest |
| Interleaving.MadeApart | internal/proxytelemetry/quota.go:36-104 | of two different intervals a run made for an account and window, stored or pruned, one ends before the other starts |
| Interleaving.PlannedTime | internal/broker/credentials.go:424-459 | the lengths of an account's intervals of one window sum to at most the time between its first and its last read |
| Interleaving.ActiveBounded | internal/proxytelemetry/quota.go:36-104 | the active time attributed to an account never exceeds the time between its first and last read |
| TelemetryTotals.TotalPresent | internal/proxytelemetry/telemetry.go:172-183 | the totals row a pruned response is taken out of exists |
| TelemetryTotals.RemoveBalanced | internal/proxytelemetry/telemetry.go:172-183 | taking a pruned response out keeps every total equal to its sum |
| TelemetryTotals.TotalsExact | internal/proxytelemetry/telemetry.go:32-183 | in every run rolling totals are sums over the retained rows and lifetime totals over every response recorded, per model and counter |
| RelayEvents.Inbox.RelayEvents | internal/httpserver/relay.go:60-111 | a batch is processed event by event, skipping marked ids, and may stop after any write |
| RelayEvents.ResentOnce | internal/httpserver/relay.go:73-109 | a batch interrupted after any write and resent ends exactly as if never interrupted |
| RelayEvents.ResentAnyTimes | internal/httpserver/relay.go:73-109 | any number of interrupted deliveries before a complete one change nothing about its result |
| RelayEvents.RelayedRunsAreRuns | internal/httpserver/relay.go:60-111 | behind relays the store is always in a state of a run of single steps, so every law of those runs holds |
| RelayEvents.RelayedTotals | internal/httpserver/relay.go:60-111 | usage totals stay exact behind relays |
| RelayEvents.CountedOnce | internal/httpserver/relay.go:73-109 | through resent and half-processed batches no response is counted twice and every processed one of a known account is counted |
| RelayEvents.CountedTwice | internal/httpserver/relay.go:73-109 | a delivery of any batch, interrupted or not, counts a response twice if and only if it processes an event whose response was counted before and whose row has been pruned |
| RelayEvents.PrunedTooEarly | internal/httpserver/relay.go:77-108 | pruning between an interrupted delivery and its resend counts a response twice |
| Reports.Canonical | internal/usagereport/report.go:46-101 | accepts exactly the valid unified daily reports |
| Reports.Daily | internal/usagereport/report.go:149-173 | accepts a collection exactly if every report is valid and no day appears twice |
| Reports.FindDecrease | internal/usagereport/report.go:123-147 | decides the decrease order over the indexed counters |
| Reports.IndexAgent | internal/usagereport/report.go:131-140 | every agent with a NUL-free name is found under its name with its tokens |
| Reports.IndexModel | internal/usagereport/report.go:131-140 | an agent's model is found with the tokens of its last entry |
| Reports.DecreasesPointwise | internal/usagereport/report.go:122-147 | for valid reports, decreasing means exactly that some counter falls, an absent agent or model counting as zero |
| Reports.DecreasesReflexive | internal/usagereport/report.go:122-147 | a report does not decrease from itself |
| Reports.DecreasesTransitive | internal/usagereport/report.go:122-147 | not decreasing is transitive over valid reports |
| ReportStore.Broker.IngestReports | internal/identity/reports.go:28-92 | a batch is applied whole or not at all, with the code's errors in the code's order; the count of stored entries and the time of the sync are kept |
| ReportStore.ApplyOne | internal/identity/reports.go:57-81 | one entry is stale, conflicting, repeated, decreasing or stored |
| ReportStore.Ingested | internal/identity/reports.go:52-87 | after an accepted batch revisions have only grown, every entry is present, and rows changed only to entries of the batch |
| ReportStore.JudgedSeparately | internal/identity/reports.go:52-87 | a batch of distinct days fails exactly if some entry alone would, with that entry's error |
| ReportStore.UpdatedCounts | internal/identity/reports.go:45-92 | for distinct days the count in the reply is the number of days whose row changed |
| UsageSync.CaptureAt | internal/usagesync/client.go:263-313 | a capture leaves a day alone or supersedes it once by the next revision, and decreases only an acknowledged entry with the flag |
| UsageSync.DeliverInv | internal/identity/reports.go:47-87 | delivering any request ever sent, in any order and number, keeps the protocol invariant and never moves a revision back |
| UsageSync.RunInv | internal/usagesync/client.go:216-386 | the protocol invariant holds in every run with losses, repeats, delays, reordering and crashes |
| SyncLaws.ServerIsJournaled | internal/usagesync/client.go:216-313 | the broker's report of a day is always a point of the journaled history, never beyond the journal, and equal revisions carry equal reports |
| SyncLaws.AcknowledgedIsStored | internal/usagesync/client.go:366-379 | whatever is marked acknowledged, on disk or in memory, is what the broker stores |
| SyncLaws.CurrentUpload | internal/identity/reports.go:58-77 | in every run an upload of current entries is never stale or conflicting, and refused if and only if one of its entries superseded an unseen flagged correction and is below the broker's report |
| SyncLaws.CalmUpload | internal/usagesync/client.go:286-304 | if no unflagged capture supersedes an unacknowledged flagged entry, every upload of current entries is accepted |
| SyncLaws.UnflaggedUpload | internal/usagesync/client.go:286-304 | in runs without allowed decreases every upload of current entries is accepted |
| SyncLaws.StoredNeverFalls | internal/identity/reports.go:71-77 | in runs without allowed decreases no stored counter of a day ever goes down |
| SyncLaws.SupersededUpload | internal/usagesync/client.go:286-304 | in every run the upload of a report that superseded a pending entry is refused if and only if it was captured without the flag and is below the broker's report |
| SyncLaws.SupersedingIsSafe | internal/usagesync/client.go:286-304 | in every run, whatever unflagged report supersedes a pending entry is accepted if and only if the superseded entry was not below the broker's report |
| SyncLaws.CorrectionLost | internal/usagesync/client.go:304 | a run in which the flag is lost and the journal's upload is refused, also after the same report is captured again with decreases allowed |
| SyncClient.Compare | internal/usagesync/client.go:282-304 | how one collected report compares with its journal entry |
| SyncClient.Client.CaptureReports | internal/usagesync/client.go:263-313 | a capture updates the journal entry by entry and counts only once it is written |
| SyncClient.FillBatch | internal/usagesync/client.go:346-357 | a batch is a maximal run of pending entries of at most 100 entries and 1,500,000 bytes |
| SyncClient.Client.Settle | internal/usagesync/client.go:372-379 | an accepted batch is acknowledged in memory, then on disk |
| SyncClient.Client.Upload | internal/usagesync/client.go:336-386 | the upload loop ends; its requests cut the pending entries in day order into full batches, or are one heartbeat; on success every day is acknowledged and equals the broker's row |
| SyncClient.Client.Sync | internal/usagesync/client.go:216-261 | a whole sync is a run of the protocol; unless it fails journal and broker agree, and if complete every collected report is what both hold |
| Scrub.LastMarked | internal/responsesproxy/scrub.go:189-231 | finds the last user item or the last compaction |
| Scrub.CallIndices | internal/responsesproxy/scrub.go:233-241 | groups exactly the items of each call |
| Scrub.ProtectedItems | internal/responsesproxy/scrub.go:198-222 | protects the tail, system and developer items, and whole calls reaching into them |
| Scrub.RewriteItems | internal/responsesproxy/scrub.go:116-142 | rewrites exactly the unprotected items that have something to rewrite |
| Scrub.CheckGroup | internal/responsesproxy/scrub.go:394-412 | a call is complete in a turn if all its items are inside, known, with a call and an output |
| Scrub.OldestEvictableTurn | internal/responsesproxy/scrub.go:369-415 | finds the first evictable turn |
| Scrub.CutAtCompaction | internal/responsesproxy/scrub.go:100-114 | keeps what follows the last compaction and protected items |
| Scrub.EvictTurns | internal/responsesproxy/scrub.go:149-159 | evicts oldest turns until the request fits or none is left |
| Scrub.Scrub | internal/responsesproxy/scrub.go:70-160 | the staged pipeline, stopping at the first stage whose change makes the request fit |
| ScrubLaws.FlagsKept | internal/responsesproxy/scrub.go:198-222 | every selection that keeps the protected items keeps exactly their protection |
| ScrubLaws.ProtectedUnchanged | internal/responsesproxy/scrub.go:100-158 | every initially protected item survives unchanged and in order and stays exactly what is protected |
| ScrubLaws.CallsWhole | internal/responsesproxy/scrub.go:198-222 | the items of one call are kept together or dropped together |
| ScrubLaws.CompactionKeepsCore | internal/responsesproxy/scrub.go:100-114 | with a compaction the result is exactly the protected items and no later stage changes it |
| ScrubLaws.EvictOther | internal/responsesproxy/scrub.go:369-415 | evicting one turn changes the evictability of no other |
| ScrubLaws.RemoveExact | internal/responsesproxy/scrub.go:149-158 | evicting k times removes exactly the first k evictable turns of the original items |
| ScrubLaws.EvictedExactly | internal/responsesproxy/scrub.go:149-159 | eviction stops at the least k that fits and fails only when every evictable turn is gone |
| ScrubLaws.TurnsEvicted | internal/responsesproxy/scrub.go:70-160 | a request that rewriting does not shrink enough loses exactly its first k evictable turns, k least |
| ScrubLaws.SuccessFits | internal/responsesproxy/scrub.go:70-160 | success without an error means that the changed request fits the target |
| Truncation.CutsValid | internal/responsesproxy/scrub.go:356-367 | valid UTF-8 splits into two valid halves exactly where the next byte starts a character |
| Truncation.TruncateOutput | internal/responsesproxy/scrub.go:356-367 | head and tail are valid text of at most 8 KiB, losing at most three bytes each, the head the longest possible; head, omitted bytes and tail add up, and nothing is omitted if the rest fits |
| Notice.StripUndoes | internal/responsesproxy/notice.go:67-76 | stripping a notice gives back the original text, for every text, if and only if the label has no blank line |
| Notice.PrepareNotice | internal/responsesproxy/notice.go:47-100 | drops the broker's own messages, strips notices from assistant texts, and changes nothing else |
| Notice.ReplayRestored | internal/responsesproxy/notice.go:47-134 | a conversation replayed with notices in front of any of its answers is restored exactly |
| NoticeReplay.StreamedRestored | internal/responsesproxy/notice.go:47-374 | whichever streamed event of a message a client takes its item from, replaying it gives upstream the item upstream sent |
| NoticeStream.ReadFrame | internal/responsesproxy/notice.go:319-365 | one round of the reading loop: hold back, release, pass on, overflow, or a client that is gone |
| NoticeStream.StreamNotice | internal/responsesproxy/notice.go:226-374 | reads up to the first terminal frame and calls the observer once exactly if one was read, whatever the result; a client that leaves has received exactly the first frames of what was due, and every other early end is reported with its cause |
| NoticeLaws.EveryFrameOnce | internal/responsesproxy/notice.go:226-374 | the frames sent, then those held back, are the frames read, in order, and typed frames are numbered without gaps |
| NoticeLaws.PrefixedOrUntouched | internal/responsesproxy/notice.go:226-365 | every message announced once is either a final answer, and all its events carry the prefix once and consistently, or nothing about it is changed; which of the two is decided by its announcement, its completion and what is held back |
| NoticeLaws.OneAnswer | internal/responsesproxy/notice.go:244-288 | if the upstream deltas and events of a message agree on a text, the sent ones agree on one text: prefix and text for a final answer, else the text |
| QuotaResets.Broker.RequestUsageRefresh | internal/broker/usage_poll.go:13-19 | merges a refresh request, never letting an uncritical one touch a critical one |
| QuotaResets.Broker.BlockQuota | internal/broker/router.go:180-200 | blocks an account until its next reset and requests a read after the grace |
| QuotaResets.Broker.ScheduleUsageResets | internal/broker/reset_poll.go:22-38 | schedules the next reset of each window without overwriting one that has happened |
| QuotaResets.Broker.SettleUsageResets | internal/broker/reset_poll.go:40-45 | moves watermarks to resets a read began late enough to cover |
| QuotaResets.Broker.ClaimResetRefreshes | internal/broker/reset_poll.go:47-110 | one transaction schedules, requests and claims for every account |
| QuotaResets.Broker.CommitUsageAt | internal/broker/credentials.go:415-487 | a complete read deletes what it covers, asks again for unconfirmed exhaustion, and schedules resets |
| ResetLaws.BlockedIsPending | internal/broker/router.go:187-195 | in every run, at any times, a blocked account has a pending QUOTA_REJECTED request due at least 45 s after the block |
| ResetLaws.RejectionStays | internal/broker/usage_poll.go:13-19 | nothing but a committed read that began when it was due removes, lowers or replaces a rejection's request |
| ResetLaws.DeletedTogether | internal/broker/credentials.go:462-473 | a commit that deletes the request deletes the block |
| ResetLaws.HappenedStays | internal/broker/reset_poll.go:20-38 | watermarks never go back, and a reset that has happened stays until the watermark has reached it |
| ResetLaws.NoResetLost | internal/broker/reset_poll.go:22-110 | the last polled reset was followed by a committed read begun at least 45 s after it, or a request for one is pending |
| ResetLaws.NoneStranded | internal/broker/credentials.go:474-487 | in every run each exhausted window has a request pending or its own reset still to be polled |
| ResetLaws.ClaimFindsRequest | internal/broker/reset_poll.go:54-106 | once an unpolled reset of an exhausted account is over by the grace, the next claim finds a request and starts a read |
| ResetLaws.UnusableIsRead | internal/broker/reset_poll.go:47-110 | in every run a blocked account, and one with an exhausted window, is taken by the first claim after a time its own rows give, if it is eligible and idle |
| Routing.RankTransitive | internal/broker/router.go:207-224 | the preference order is transitive |
| Routing.RankTotal | internal/broker/router.go:207-224 | of two different accounts exactly one is preferred |
| Routing.BestUnique | internal/broker/router.go:89-94 | the chosen account does not depend on the order of the list |
| Routing.NextRetry | internal/broker/router.go:108-116 | the retry time is the earliest moment at which something about an account is known to change |
| Routing.Choose | internal/broker/router.go:67-122 | never chooses a blocked, exhausted or excluded account, chooses the preferred usable one, a held one only if none is usable, and else waits for the right time, with a blocked account no longer than the grace |
| Routing.AfterFailureOk | internal/broker/router.go:41-66 | after its failure an account is unavailable to the client or gone, and no other account is changed |
| Routing.Router.Report | internal/broker/router.go:31-61 | an authentication failure is answered by the same account if its credential can be renewed; else a quota failure blocks and any other excludes |
| Routing.Router.Route | internal/broker/router.go:22-122 | the account that failed is chosen again only with a renewed credential after an authentication failure; every other answer is the right choice among what is left |
| Gateway.Settle | internal/gateway/engine.go:212-274 | what becomes of one upstream answer |
| Gateway.Serve | internal/gateway/engine.go:178-275 | the loop ends within two attempts per account whatever the authority returns, and attempts are one more than retries and failovers |
| Gateway.NotResent | internal/gateway/engine.go:231-274 | nothing is sent again after a success or a redirect |
| Gateway.TriedAgain | internal/gateway/engine.go:193-195 | an account is tried again at most once, immediately, and only after an authentication failure |
| Outbox.Relay.QueueLocked | internal/relay/relay.go:467-486 | queues an event within the limit, displacing at most the oldest telemetry for a critical one |
| Outbox.Relay.BeginFlush | internal/relay/relay.go:384-395 | copies at most the first hundred events |
| Outbox.Relay.FinishFlush | internal/relay/relay.go:396-403 | drops the acknowledged batch by its length |
| Outbox.CriticalKept | internal/relay/relay.go:467-486 | a critical event displaces no critical event, telemetry displaces nothing |
| Outbox.SentInOrder | internal/relay/relay.go:384-404 | with no eviction hitting a flight, what was sent followed by the outbox is what was queued, in order |
| Outbox.CriticalDelivered | internal/relay/relay.go:384-486 | in those runs no accepted failure or activation event is lost or overtaken |
| Outbox.LostExactly | internal/relay/relay.go:396-403 | an acknowledged flush loses exactly the events behind its batch that moved up for evicted ones, so something is lost, and the order broken, if and only if an event of the batch was evicted meanwhile |
| Outbox.EventLost | internal/relay/relay.go:400 | a run in which a flush drops an event that was never sent |
| Login.Service.LoginState | internal/broker/login.go:507-525 | a state write, guarded or not |
| Login.Service.ReplaceActive | internal/broker/credentials.go:50-63 | retires every active bundle and inserts one |
| Login.Service.PromoteLogin | internal/broker/login.go:370-391 | installs a credential only from VERIFYING_ACCOUNT |
| Login.Service.CommitLogin | internal/broker/login.go:400-408 | completes only from CHECKPOINTING_CREDENTIAL |
| Login.Service.FailLogin | internal/broker/login.go:440-458 | records a failure unless the attempt has ended |
| Login.Service.CancelLogin | internal/broker/login.go:585-599 | accepts a cancellation only of a sign-in in progress |
| Login.CancelledNeverInstalls | internal/broker/login.go:226-407 | in every interleaving cancellation and installation exclude each other and no account has two active credentials |
| Login.SecondIsRefused | internal/broker/login.go:370-407 | after installation every cancellation is refused, after an accepted cancellation no runner step installs |
| Login.CompletedStays | internal/broker/login.go:440-451 | COMPLETED is never left and implies an installed credential without an accepted cancellation |
| Login.CredentialKept | internal/broker/credentials.go:50-63 | an account with an active credential keeps having one, and an installed one is the active one |
| Credentials.Account.SetCredentialUse | internal/broker/credentials.go:65-86 | exclusive use starts only from STOPPED and ends STOPPED or quarantined |
| Credentials.Account.CheckpointUse | internal/broker/credentials.go:113-131 | closing a use stores the last credential or preserves its home, and blocks the account if either fails |
| Credentials.Account.ManagedLocked | internal/broker/credentials.go:95-142 | one use is a run of the step machine, whatever fails: the rotated credential is stored, or its home is preserved and the account blocked |
| Credentials.NeverStale | internal/broker/credentials.go:65-142 | through rotations, failures and crashes a verified account at rest holds a credential upstream accepts |
| Credentials.RotationKept | internal/broker/credentials.go:113-131 | a credential given out by a rotation is never lost until a sign-in replaces it |
| Credentials.BlockedUntilRecovered | internal/broker/login.go:120-123 | after an uncheckpointed use no later use starts, in any continuation of the run, until an explicit recovery or a completed sign-in |

## Left out

- Telemetry.Store.RecordResponse: the account is already resolved; the branch for an account the broker does not know is in `RelayEvents.Process`.
- Interleaving.InterleavingIndependence: is about orderly runs: a response is recorded before the intervals it overlaps are pruned, snapshot ids are new, and pruning cutoffs stay the retention behind a poll; other late responses cannot correct an interval that no longer exists.
- RelayEvents.CountedOnce: needs that a relayed response is pruned only after its event was marked, because otherwise the code does count it twice.
- SyncClient.Client.Sync: enrollment and the collector process are inputs, and the journal file is intact, so its validation at the start always succeeds.
- QuotaResets.Broker.CommitUsageAt: the account's authentication state, its weekly cycle and the operation's row are not modelled; the quota ledger's part is `Telemetry.Store.CommitRead`.
- Scrub.Scrub: JSON reading and writing, and what exactly counts as media or long text inside one item, are inputs; encoding never fails.
- NoticeStream.StreamNotice: frames arrive already split and parsed; native compaction usage, which rewrites token counts of the completed event, is not modelled.
- NoticeLaws.PrefixedOrUntouched: is about messages announced once; a message announced again later is not covered.
- ResetLaws.NoResetLost: takes claims and reads of an account from one clock that does not go back.
- Outbox.SentInOrder: is about runs in which no eviction hits a batch in flight, because otherwise the code does lose an event.
- Login.CancelledNeverInstalls: public enrollments, incidents and the runtime process are not modelled; a runtime call is an arbitrary success or failure.
- Credentials.NeverStale: upstream revokes credentials only by rotating them; a revocation from outside is noticed by the next failing request.
- Routing.Router.Route: the credential lease is an arbitrary success or failure, and the weekly cycle's reconciliation before the choice is not modelled.
- HTTP servers and clients, TLS, encryption, password hashing, templates, dashboards and JavaScript.
- SQL text and migrations, webhooks, profiles, pricing, installers and schedulers.
- The relay's cached routing and its random reserve placement: the same order and filters as the broker's.
- The scheduled and daily refresh lanes: they only choose which idle account to read next.
