# Nexus gateway: verified models

A Dafny project that models eight parts of the Nexus control plane and proves what they
promise over whole histories and for every input:

- the rank-weighted load balancer (`Swrr.dfy`, `Balancer.dfy`),
- redaction of protected signatures in error text (`Redaction.dfy`),
- the benchmark run lifecycle: rows, gateway keys, polling (`Runs.dfy`, `RunRows.dfy`, `RunSafety.dfy`,
  `RunPolling.dfy`, `RunStarvation.dfy`, `Runner.dfy`), several replicas polling at once
  (`RunReplicas.dfy`), and every operation interleaved call by call with the others (`RunCalls.dfy`,
  `RunInterleaving.dfy`, `RunSettling.dfy`),
- the store of environment-push reports (`PushReports.dfy`),
- the audit feed (`Audit.dfy`), the writers and the retention job of its log (`AuditLog.dfy`), paging
  while they work (`AuditPaging.dfy`), the CSV export (`AuditExport.dfy`),
- route-group specifications (`RouteGroups.dfy`) and key references (`KeyRef.dfy`),
- the live trace hub (`Hub.dfy`),
- the plugin-key cache over its vault, operation by operation (`PluginKeys.dfy`) and with the steps of
  operations interleaved (`PluginRaces.dfy`).

`Text.dfy` holds the string operations they share, `Options.dfy` the optional value.
`dafny verify dfyconfig.toml` checks everything.

## How it is modelled

Objects that the program updates in place are classes; each method is proved equal to a
function of the old state, and the theorems are about those functions. What comes from
outside is a parameter: the clock, new ids, the outcome of every call to the database, the key
service and the provider. A step therefore covers success and every failure of its calls.
Regions under a lock are one step; what happens after a lock is released is a step of its own
where it matters (the hub's close, the runner's calls, the vault reads and writes of plugin keys).
Iteration over a Go map is a choice of any remaining key. Strings are
sequences of characters.

## Main results

- **Balancer.** With W = n(n+1)/2, any W calls on one group and chain pick candidate i exactly
  n-i times, however calls on other groups are interleaved; the running weights cancel out and
  stay within fixed bounds forever; at every moment a better rank has been picked at least as
  often as a worse one.
- **Redaction.** For every input no protected signature survives, nothing outside the signatures
  changes, and the pass is the identity exactly on clean text. Where signatures overlap the earlier
  on the list is cut, and of one signature the leftmost; there is only one way to do that.
- **Runs.** Over every history, with any calls failing, a live gateway key belongs to a run that
  may hold it or was refused revocation by the key service; a settled row never changes again
  until it is deleted; the drift observer sees a run at most once; every run recorded is within
  the sample cap.
- **Rows.** What a launch, a poll, a cancel and a delete leave in a run's row is stated field by field
  from the request and the provider's answers, with the outcome each call reports.
- **Interleaving.** With any number of launches, polls, cancels and deletes in flight and their
  single store, key and provider calls interleaved at will, a live key is held by a row, or was
  refused revocation, or an operation in flight will insert its row or revoke it; and a settled
  run stays settled exactly when no operation in flight is about to write an ongoing status to
  it. Run alone, the calls of an operation are the operation.
- **Polling.** A queued run is eventually polled if and only if fewer than 50 runs that cannot be
  read or written are ahead of it, whatever is launched meanwhile; a finished backlog drains batch
  by batch.
- **Push reports.** The store is exactly "the unexpired reports of the 256 most recent slugs"; with
  reports of one instant it is some 256 of them that are no older than the rest; with clocks out of
  order it still files last reports only and drops none but the expired and the oldest. A report is
  visible exactly if it is at most a day old, no later one has its slug, and fewer than 256 slugs
  were put after it.
- **Audit.** A page is the newest rows that meet the filter field by field below the cursor. Following
  the cursor returns every matching row once, in order, also while any writers
  write at or above the cursor, and every row that stays while others are purged. Every burst of
  denials has one row, and it counts them all. No exported cell is a formula.
- **Route groups.** Each entry of a text, whatever white space and empty models it has, adds its
  alias or is skipped, and the last entry of an alias wins; printing and reading back is lossless
  exactly on clean groups, and whatever was read is clean.
- **Hub.** Subscribers get a subsequence of what they may see, and all of it exactly when their
  buffer was never full; no interleaving sends on a closed channel.
- **Plugin keys.** If every set was accepted, for a named plugin and named keys, a process and every
  successor of it answer and resolve with exactly what was pasted last, whatever lookups and loads
  failed, if operations on one plugin do not overlap; in any case, and in every interleaving, a
  restart changes no answer for a plugin exactly when what is cached for it is what the vault
  holds.

## Where a promise fails, and exactly when it holds

- *A poll pass skips a failing run so that it cannot stop the others*
  (`internal/benchmark/runner.go:282-285`). Unread rows keep their place at the front of the
  batch order, so 50 unreachable runs stop every run behind them: `RunStarvation.PolledIffFewDownAhead`.
  It happens: `RunStarvation.StarvationReached`.
- *Several replicas can poll without coordination* (`internal/benchmark/runner.go:67-69, 402-404`).
  Key safety does hold, call by call (`RunInterleaving.InterleavedCallsLoseNoKey`). But the next write
  keeps every settled run settled exactly when no replica holds a run that has settled meanwhile
  (`RunReplicas.NextWriteKeepsSettledIff`), and the writes in flight call the observer at most once
  per run exactly when each run is held once and was not observed yet
  (`RunReplicas.WritesObserveOnceIff`). Both failures are reached from an empty system
  (`RunReplicas.UnsettledReached`, `RunReplicas.ObservedTwiceReached`). They cannot happen if no run is
  held twice (`RunReplicas.LeasedReplicasObserveOnce`) and none is cancelled or deleted while held
  (`RunReplicas.SettledForGoodWhenUndisturbed`).
- *Cancel settles the row* (`internal/benchmark/runner.go:470`). Call by call, a run that is settled stays
  settled or is deleted, whatever goes on and begins from there, exactly when no operation in flight
  is about to write an ongoing status to it (`RunSettling.SettledLastsIff`). A poll that listed the run
  before the cancel is one such operation (`RunReplicas.CancelUndone`), a launch still waiting for the
  provider's answer the other (`RunSettling.CancelDuringLaunchUndone`, reached from an empty system in
  `RunSettling.LaunchRaceReached`).
- *A run's key is revoked when the provider is done with it*
  (`internal/core/benchmark_runs.go:39-41`). Not if the create call itself reports a terminal
  status (`RunSafety.LaunchLeavesSettledKey`); the key then lives until the run is deleted
  (`RunSafety.SettledKeyOutlives`). Without such an answer every live key is that of an unsettled
  run (`RunSafety.LiveKeysBelongToUnsettledRuns`).
- *Deleting cannot leave a billable job running with nothing tracking it*
  (`internal/benchmark/runner.go:525-527`). It can, exactly when the row goes and the provider was not
  asked to stop or did not agree: `RunSafety.DeleteLeavesJobIff`.
- *The poller reconciles a run whose record could not be updated* (`internal/benchmark/runner.go:268-271`),
  but not one that lost its external id, as the code says: `RunSafety.LaunchLosesRunIff`,
  `RunSafety.LostRunNeverPolled`.
- *The fingerprint identifies the candidate set* (`internal/balancer/roundrobin.go:24`). It does when no
  name contains NUL; otherwise a later chain can overrun the weights: `Balancer.ServedNeverOverrunsIff`.
- *Prefix filters* (`internal/core/audit_view_export.go:37-39`) are LIKE patterns:
  `Audit.PrefixFilterIff`.
- *Paging returns every matching row* while the log is written, exactly when there is no request-id
  filter or no burst's row below the cursor passes the rest of the filter, because a later denial of
  the burst rewrites the request id: `AuditPaging.WritesUnseenIff`, `AuditPaging.RequestFilterMissesRow`.
- *A burst's key leaves out the organisation because actors have one*
  (`migrations/postgres/019_audit_aggregation.sql:28-31`). Every denial shows in the feed of its own
  organisation exactly when all denials of its burst are of one: `AuditLog.DenialsShowIff`.
- The count that the export returns includes the header line (`internal/core/audit_view_export.go:114-115`).
- *The two readers of a key reference* differ on white space other than blanks:
  `KeyRef.ReadersAgreeIff`.
- *Set returns an error when the keys would not survive a restart* (`cmd/nexus/plugin_keys.go:84-87`). It
  reports success for a key with an empty name, which the vault drops: `PluginKeys.SavedSetSurvivesIff`.
- *Get reports the truth on a pod that has not served a submit yet* (`cmd/nexus/plugin_keys.go:123-124`).
  On one that has, keys saved by another process are seen exactly when none, or the same, are cached:
  `PluginKeys.SavedElsewhereSeenIff`.
- *A submit can race dispatch and collect* (`cmd/nexus/plugin_keys.go:35-36`). A lookup that read the
  vault before a clear and promotes after it makes the cleared keys active again
  (`PluginRaces.ClearUndoneReached`). Cache and vault agree on a plugin once everything pending has
  finished, in whatever order, exactly when each pending promotion is what each pending write leaves
  (`PluginRaces.AgreesInTheEndIff`).
- The comment on Scrub says that "[redacted]" is on the protected list
  (`internal/apierr/apierr.go:218-222`); it is not, and the model follows the list.

## Model

| member | source | states |
|---|---|---|
| Swrr.BestIsLeftmostMax | internal/balancer/roundrobin.go:53-61 | the scan finds the leftmost maximum: nothing is larger, and everything before it is smaller |
| Swrr.TotalFormula | internal/balancer/roundrobin.go:51-56 | the weights n, n-1, ..., 1 add up to n(n+1)/2 |
| Swrr.WeightsStayBounded | internal/balancer/roundrobin.go:51-63 | after any number of calls the running weights sum to 0 and each lies strictly between -W and (n-1)W |
| Swrr.WeightCountsPicks | internal/balancer/roundrobin.go:54-63 | after k calls from a reset weight i is k(n-i) - W times the picks of i |
| Swrr.QuotaHolds | internal/balancer/roundrobin.go:13-17 | picks of i in k calls are below k(n-i)/W + 1 and above k(n-i)/W - (n-1) |
| Swrr.BetterRankLeads | internal/balancer/roundrobin.go:13-17 | at every prefix of a run from a reset a better-ranked candidate was picked at least as often as a worse-ranked one |
| Swrr.CycleReturns | internal/balancer/roundrobin.go:36-64 | W calls from a reset bring every running weight back to 0 |
| Swrr.PicksPeriodic | internal/balancer/roundrobin.go:36-64 | weights and picks repeat with period W |
| Swrr.WindowIsProportional | internal/balancer/roundrobin.go:13-17 | any W consecutive calls pick candidate i exactly n-i times |
| Balancer.FingerprintInjective | internal/balancer/roundrobin.go:41-49 | NUL-free chains with equal fingerprints are equal, so different chains never share state |
| Balancer.ServedNeverOverrunsIff | internal/balancer/roundrobin.go:41-57 | once a group has served a chain, no later chain indexes past its weights if and only if no name of that chain contains NUL |
| Balancer.NeverOverruns | internal/balancer/roundrobin.go:45-61 | after any history of chains without NUL no call indexes past the stored weights |
| Balancer.AnswersFollowRun | internal/balancer/roundrobin.go:36-64 | calls on other groups and one-candidate chains leave the picks of a group and chain those of one uninterrupted run |
| Balancer.InterleavedProportion | internal/balancer/roundrobin.go:13-17 | after any history, an interleaving with W calls on a group and chain answers candidate i there exactly n-i times |
| Balancer.InterleavedFromReset | internal/balancer/roundrobin.go:45-49 | from a reset the interleaved answers keep rank order and both quota bounds |
| Balancer.WeightedRR.Next | internal/balancer/roundrobin.go:36-64 | for every chain, answers and updates the group's state as specified, touches no other group and keeps groups' weights separate; panics exactly when the chain overruns the stored weights |
| Balancer.WeightedRR.AdvanceInPlace | internal/balancer/roundrobin.go:51-63 | the in-place loop picks the leftmost maximum of the raised weights and charges it the total; with too few weights it raises them all and panics |
| Balancer.RotateChain | internal/balancer/roundrobin.go:66-81 | a permutation with the pick first and the rest in order; the chain itself without a balancer or with at most one name; panics exactly when Next does |
| Redaction.SubstringLift | internal/apierr/apierr.go:228-230 | after one replacement every SUB-free substring was in the input or is part of the tag |
| Redaction.SignatureGone | internal/apierr/apierr.go:228-230 | one replacement leaves no occurrence of its signature |
| Redaction.PassRemovesAll | internal/apierr/apierr.go:212-232 | after the pass no signature of the list is left, so no later replacement recreates an earlier one |
| Redaction.PassInventsNothing | internal/apierr/apierr.go:226-232 | every SUB-free substring of the output is in the input or in the tag |
| Redaction.PassIdentityIff | internal/apierr/apierr.go:226-232 | the pass leaves a string unchanged if and only if it contains no signature |
| Redaction.PassIdempotent | internal/apierr/apierr.go:226-232 | a second pass changes nothing |
| Redaction.PassOnlyCuts | internal/apierr/apierr.go:226-232 | the input splits into kept characters and listed signatures so that the output is the kept characters with one marker for each signature; every occurrence is cut, or overlaps a cut of an earlier signature or of the same one further left |
| Redaction.OrderedCutsUnique | internal/apierr/apierr.go:226-232 | there is only one way to cut listed signatures so that every occurrence is cut or overlaps a cut of an earlier signature or of the same one further left |
| Redaction.ProtectedFenced | internal/apierr/apierr.go:210-312 | every protected signature is non-empty, free of U+001A and not part of the marker's text |
| Redaction.Scrub | internal/apierr/apierr.go:226-232 | no protected signature in the result; unchanged iff none in the input; otherwise the signatures are cut out in the order of the list, each from the left |
| RunSafety.LiveKeyHasHolder | internal/benchmark/runner.go:198-280 | over every history with any failures a live key is referenced by a row that is unsettled or came back settled from its create call, or its revocation was refused |
| RunSafety.LiveKeysBelongToRuns | internal/benchmark/runner.go:684-696 | with a working key service every live key belongs to such a row, whatever store and provider calls fail |
| RunSafety.BornFromTerminalCreate | internal/benchmark/runner.go:261-273 | a run counts as settled at birth only if its own launch was answered with a terminal status |
| RunSafety.LiveKeysBelongToUnsettledRuns | internal/core/benchmark_runs.go:39-41 | with a working key service, and no create call answered with a terminal status, every live key is that of an unsettled row |
| RunSafety.SettledRunHoldsNoKey | internal/benchmark/runner.go:377-384 | a row settled by a poll, a cancel or a failed launch holds no live key unless revocation was refused |
| RunSafety.LaunchLeavesSettledKey | internal/benchmark/runner.go:246-279 | Launch leaves a settled row with a live key exactly when the create call reported a terminal status and the writes succeeded |
| RunSafety.SettledKeyOutlives | internal/benchmark/runner.go:479-481 | that key is live after every history that does not delete its run |
| RunSafety.PollAllInv | internal/benchmark/runner.go:308-330 | a pass keeps the invariants and changes exactly the rows of its batch, each as its own reading says |
| RunSafety.StepInv | internal/benchmark/runner.go:171-543 | every operation keeps table, key and observer invariants and every settled row but the deleted one |
| RunSafety.SettledForGood | internal/benchmark/runner.go:479-481 | a settled row is the same after any operations that do not delete it |
| RunSafety.ObserverCalledOnce | internal/benchmark/runner.go:344-348 | over every history the drift observer is given a run at most once, also when writes fail and are retried |
| RunSafety.CapHoldsUnlessWrapped | internal/benchmark/types.go:138-168 | an accepted request is within the sample cap if and only if its product fits a 64-bit int |
| RunSafety.CapBoundsEveryRun | internal/benchmark/types.go:60-66 | every launch that records a run asks for at most 2000 samples, because what fits the two INTEGER columns cannot wrap |
| RunSafety.CheckAloneWraps | internal/benchmark/types.go:165-168 | the check by itself accepts a request whose product wraps, and none that it accepts so is recorded |
| RunSafety.DeleteLeavesJobIff | internal/benchmark/runner.go:525-543 | deleting an unsettled run leaves its job unstopped and untracked if and only if the row is removed and the cancel did not reach the provider or was refused |
| RunSafety.LaunchLosesRunIff | internal/benchmark/runner.go:246-273 | a recorded launch leaves a run without an external id if and only if the write failed or the provider gave none |
| RunSafety.LostRunNeverPolled | internal/core/benchmark_runs.go:208-226 | such a run is never in the poll queue again, whatever happens |
| RunRows.ApplyIsExact | internal/benchmark/runner.go:348-400 | what a reading of a listed run does to its row, field by field for each word of the provider, to its key and to the observer, also when the row has changed or gone or a write fails |
| RunRows.PollIsExact | internal/benchmark/runner.go:286-332 | the row of every run after a pass: as reported if it was in the batch, read and written, else as it was; without a token nothing changes |
| RunRows.QueueIsExact | internal/core/benchmark_runs.go:208-226 | the runs waiting are those pending or running with an external id |
| RunRows.BatchIsExact | internal/benchmark/runner.go:62-65 | a pass takes the first fifty of them, in the order of their last update |
| RunRows.ValidateIsExact | internal/benchmark/types.go:144-181 | a request is refused exactly for an empty environment list or slug, an empty model, a count below one, a product over 2000 as a 64-bit int, or a timeout out of range |
| RunRows.WrapIs | internal/benchmark/types.go:138-139 | the product that is compared is the one 64-bit value that differs from the true one by a multiple of 2^64 |
| RunRows.LaunchIsExact | internal/benchmark/runner.go:171-280 | a launch adds its row exactly if it passes its checks and is recorded, with every field from the request and the provider's answer, pending if the answer could not be written; what becomes of its key; no other row changes |
| RunRows.LaunchedQueuedIff | internal/benchmark/runner.go:261-273 | a launched run waits to be polled exactly if its external id was written and the provider did not call it over |
| RunRows.CancelIsExact | internal/benchmark/runner.go:471-507 | every field of the cancelled row (the provider's last word and the ids stay, score and error go), its key, and whether the provider was asked to stop |
| RunRows.DeleteIsExact | internal/benchmark/runner.go:528-543 | the row goes exactly if it was found and could be removed, its key is revoked, no other row changes |
| RunPolling.PassQueue | internal/core/benchmark_runs.go:208-226 | one pass keeps the runs of the batch that could not be read or written in front, sends the ongoing ones to the back and removes the finished ones |
| RunStarvation.LaunchQueue | internal/core/benchmark_runs.go:208-226 | a launch adds at most one run, to the back of the queue, and changes no other row |
| RunStarvation.PolledIfFewDownEachPass | internal/benchmark/runner.go:282-314 | however reachability changes and whatever is launched meanwhile, a queued run is polled within one pass more than there are runs ahead, if in each fewer than 50 of those cannot be read or written |
| RunStarvation.PolledIffFewDownAhead | internal/benchmark/runner.go:282-314 | while the same runs cannot be read or written, whatever is launched meanwhile and given enough passes, a queued run is polled if and only if fewer than 50 of those are ahead of it |
| RunStarvation.StarvationReached | internal/benchmark/runner.go:282-314 | after fifty launches the provider answers nothing about, a fifty-first that is over is never polled, however many passes are made |
| RunPolling.BacklogDrains | internal/benchmark/runner.go:62-65 | if every queued run is over at the provider, ceil(u/50) passes settle all of them and revoke their keys |
| RunPolling.SecondPassIsQuiet | internal/benchmark/runner.go:402-404 | with at most one batch queued and unchanged answers a second pass leaves every row as it is |
| RunReplicas.ReplicasLeaveNoStrayKey | internal/benchmark/runner.go:67-69 | under every interleaving of replicas' listing and writing with whole launches, cancels and deletes a live key has a holder or was refused revocation |
| RunReplicas.NextWriteKeepsSettledIff | internal/benchmark/runner.go:352-388 | the next write, whichever it is and whatever it read, keeps every settled run settled if and only if no replica holds a run that has settled meanwhile |
| RunReplicas.UnsettledReached | internal/benchmark/runner.go:352-388 | from an empty system two replicas put a completed run back to running |
| RunReplicas.CancelUndone | internal/benchmark/runner.go:498-506 | a cancel between listing and a successful ongoing write is overwritten and the run left unsettled without a key |
| RunReplicas.WritesObserveOnceIff | internal/benchmark/runner.go:389-399 | the writes in flight call the observer at most once per run, in any order and whatever they read, if and only if each run held that has a row is held once and was not observed yet |
| RunReplicas.ObservedTwiceReached | internal/benchmark/runner.go:389-399 | from an empty system two replicas report one run to the observer twice |
| RunReplicas.LeasedReplicasObserveOnce | internal/benchmark/runner.go:402-404 | if no run is held by two replicas at once the observer sees each run at most once |
| RunReplicas.SettledForGoodWhenUndisturbed | internal/benchmark/runner.go:402-404 | if moreover no run is cancelled or deleted while held, a settled row stays as it is until its own Delete |
| RunCalls.CallsAloneAreTheOperation | internal/benchmark/runner.go:171-543 | with nothing in between, the calls of a launch, poll, cancel or delete do what the operation does |
| RunCalls.KeyGoesFirst | internal/benchmark/runner.go:377-385 | polls, cancels and deletes try to revoke a run's key before they settle or remove its row or make it forget the key, so stopping after any call leaves no closed row whose key was not tried; a cancel asks the provider first |
| RunInterleaving.InterleavedCallsLoseNoKey | internal/benchmark/runner.go:67-69 | however the calls of any operations interleave, a live key is held by a row, or was refused revocation, or an operation in flight will insert its row or revoke it |
| RunInterleaving.FinishedCallsLeaveNoStrayKey | internal/benchmark/runner.go:67-69 | once every operation has finished, a live key is held by a row or was refused revocation |
| RunSettling.SettledLastsIff | internal/benchmark/runner.go:470-507 | after any history, call by call, a settled run stays settled or is deleted whatever goes on and begins from there, if and only if no operation in flight holds a successful write of an ongoing status to it; the operations in flight alone decide it |
| RunSettling.LaunchRaceReached | internal/benchmark/runner.go:238-273 | from an empty system: a cancelled row with a launch in flight that will write an ongoing status to it |
| RunSettling.CancelDuringLaunchUndone | internal/benchmark/runner.go:238-273 | a cancel between a launch's insert and its write of an ongoing answer is overwritten, the key gone and the provider never asked to stop |
| Runner.Runner.Launch | internal/benchmark/runner.go:171-280 | the calls in order give the specified world; each outcome exactly in its case, stated on the request and the calls; a rejected request changes nothing |
| Runner.Runner.ApplyStatus | internal/benchmark/runner.go:348-400 | revoke, clear, write and observe in that order give the specified world, for a row that may have changed or gone since it was listed |
| Runner.Runner.PollOnce | internal/benchmark/runner.go:286-332 | the loop gives the specified world, keeps the invariants and returns the number of runs read and written |
| Runner.Runner.Cancel | internal/benchmark/runner.go:471-507 | settles an unsettled run as specified; each outcome exactly in its case |
| Runner.Runner.Delete | internal/benchmark/runner.go:528-543 | cancels if needed, revokes and removes the row; each outcome exactly in its case |
| PushReports.PushReportStore.Put | internal/console/benchmark_push_report.go:76-89 | prunes, drops an oldest entry only when full and the slug is new, files the report; at most 256 entries always |
| PushReports.PushReportStore.List | internal/console/benchmark_push_report.go:92-104 | prunes and returns every entry once, newest first |
| PushReports.PushReportStore.PruneLocked | internal/console/benchmark_push_report.go:106-112 | removes exactly the entries older than 24 hours |
| PushReports.PushReportStore.DropOldestLocked | internal/console/benchmark_push_report.go:114-125 | removes one entry that no other is older than, nothing from an empty store |
| PushReports.AliveCap | internal/console/benchmark_push_report.go:39-48 | on reports ordered by arrival expiry and cap commute |
| PushReports.StoreFilesLast | internal/console/benchmark_push_report.go:73-125 | however the callers' clocks run, the store files only last reports unexpired by the latest call's clock, at most 256, and the last report of a slug is missing only because some call found it expired or an oldest of a full store |
| PushReports.StoreKeepsNewest | internal/console/benchmark_push_report.go:42-125 | after any history in time order the store files the last report of every slug that has not expired, or 256 of them that are no older than the ones left out |
| PushReports.StoreHoldsVisible | internal/console/benchmark_push_report.go:42-125 | if moreover no two puts share an instant these are exactly the unexpired last reports of the 256 most recently put slugs |
| PushReports.ListReturnsVisible | internal/console/benchmark_push_report.go:91-104 | List then returns exactly those, newest first, at most 256 |
| PushReports.VisibleIff | internal/console/benchmark_push_report.go:39-48 | a report is visible if and only if it is at most 24 hours old, no later report has its slug, and fewer than 256 slugs were put after it |
| Audit.RunAuditQuery | internal/core/audit_view_export.go:262-288 | rejected exactly when the filter is invalid; else the page of the clamped limit, in order, of the asked organisation only, or the rows read before a failure together with it |
| Audit.ViewAudit | internal/core/audit_view_export.go:103-111 | at most 200 rows and at most the limit; invalid without organisation, without positive limit or past 90 days |
| Audit.CursorContinues | internal/core/audit_view_export.go:307-323 | the query from the key of row k-1 returns exactly the rows from k on |
| Audit.PageShrinks | internal/core/audit_view_export.go:321-323 | a non-empty page leaves exactly that many fewer rows below its last key, so paging ends |
| Audit.FollowCollectsAll | internal/core/audit_view_export.go:307-355 | the pages put together are the matching rows in order, none lost or repeated |
| Audit.PageIsExact | internal/core/audit_view_export.go:307-323 | a page holds rows of the table that meet the filter field by field below the cursor, newest first, at most the limit, and leaves one out only for newer ones |
| Audit.FollowIsExact | internal/core/audit_view_export.go:307-355 | following the cursor collects exactly the rows that meet the filter below where it starts, each once and newest first |
| Audit.LikeIs | internal/core/audit_view_export.go:314-316 | a pattern matches exactly the strings that fall into pieces fitting its tokens: any run, any one character, a character that stands for itself |
| AuditLog.EveryDenialCountedOnce | internal/core/store.go:650-697 | after any mix of events and purges each burst of denials has exactly one row, whose count is the number of its denials, up to the column's limit, under the organisation of the first |
| AuditLog.WrittenOneRowPerBurst | migrations/postgres/019_audit_aggregation.sql:45-47 | no two rows of a written log are of one burst |
| AuditLog.BurstRowTells | internal/core/store.go:672-685 | the row of a burst has who, where and from when as its first denial, why, in which request and until when as the latest counted, and how many |
| AuditLog.EventKept | internal/core/store.go:757-760 | an event written on its own is in the log, field by field as written, until a purge of everything older takes it |
| AuditLog.PurgedGone | migrations/postgres/020_audit_roles.sql:62-68 | after a purge that is not refused no such event is older than the time it worked out |
| AuditLog.DenialsShowIff | internal/core/store.go:672-685 | every denial of a burst shows in the feed of its own organisation if and only if all of them are of one organisation |
| AuditLog.WritesGrow | internal/core/store.go:672-685 | serial writers only add rows after the others or rewrite detail, request id, count and last time of one |
| AuditLog.StepsKeepCounts | internal/core/store.go:672-760 | no writer and no purge makes a count negative |
| AuditPaging.AdditionsUnseenIff | internal/core/audit_view_export.go:307-323 | while rows keep their places, later pages without a request-id filter are the same if and only if no row that was added matches below the cursor |
| AuditPaging.InsertedAboveUnseen | internal/core/audit_view_export.go:321 | rows inserted at or above the cursor, between old rows or not, never change a later page |
| AuditPaging.WritesUnseenIff | internal/core/store.go:672-685 | writers at or above the cursor leave later pages as they are, whatever they write, if and only if there is no request-id filter or no rewritable row below the cursor passes the rest of the filter; of serial writers one write decides it |
| AuditPaging.LivePagesCollectAll | internal/core/audit_view_export.go:307-323 | if nothing is seen to change below the cursor, the pages are the rows that matched at the start, each once and in order |
| AuditPaging.WrittenPagesCollectAll | internal/core/audit_view_export.go:307-323 | that is so for any writers at or above the cursor, in whatever order they commit, under the condition above |
| AuditPaging.GrownUnseen | internal/core/store.go:672-760 | what serial writers add is unseen below every cursor |
| AuditPaging.LateCommitUnseen | internal/core/store.go:672-760 | a row that commits late, with a time and id between two others, is among them |
| AuditPaging.PagesSurvivePurge | migrations/postgres/020_audit_roles.sql:55-71 | also while rows are purged no row is returned twice, out of order or without having matched at the start, and every row that matched throughout is returned |
| AuditPaging.StepShowsNothingNew | migrations/postgres/020_audit_roles.sql:55-71 | a purge, or under the condition above a write at or above the cursor, shows nothing new below it |
| AuditPaging.RequestFilterMissesRow | internal/core/store.go:679-683 | an example with a request-id filter where a row that matched at the start is missed |
| Audit.PrefixFilterIff | internal/core/audit_view_export.go:314-316 | a prefix filter selects by prefix if and only if the prefix has no LIKE pattern character |
| AuditExport.CsvSafeCellOk | internal/core/audit_view_export.go:218-234 | every cell comes out without control characters or formula start; safe cells, and only those, are unchanged |
| AuditExport.CsvSafeCellIs | internal/core/audit_view_export.go:218-234 | a cell keeps its text character by character, without carriage returns and with blanks for line feeds and tabs, behind a quote exactly if it would begin as a formula |
| AuditExport.ColumnsAre | internal/core/audit_view_export.go:176-206 | which field of the row, made safe, stands under which name of the header |
| AuditExport.DecimalIs | internal/core/audit_view_export.go:184 | the count cell is the digits of its value without leading zeros, behind a minus sign if negative |
| AuditExport.RowSafeIff | internal/core/audit_view_export.go:176-189 | all cells of a row are safe if and only if its count is not negative |
| AuditExport.EveryExportIsSafe | internal/core/audit_view_export.go:154-163 | whatever was written to the log, every cell of every row exported from it is safe |
| AuditExport.WriteAuditCsv | internal/core/audit_view_export.go:164-199 | header first, one line for each row in order, up to the read or write that fails; the count is the lines written |
| AuditExport.ExportAudit | internal/core/audit_view_export.go:119-142 | nothing for an invalid filter or a failed query; else at most 100000 rows of the page; success exactly if nothing failed to read, write or flush, and then all of it; every cell safe |
| RouteGroups.ParseRouteGroups | internal/config/routing.go:8-31 | reads the specified groups, all of them clean |
| RouteGroups.ParseReadsEntry | internal/config/routing.go:10-29 | after any text, an entry for a clean alias, with any white space around its parts and any empty models among them, sets the alias to its models |
| RouteGroups.ParseSkipsNoEquals | internal/config/routing.go:15-19 | after any text, an entry without "=" changes nothing |
| RouteGroups.ParseSkipsBlankAlias | internal/config/routing.go:15-19 | nor does one with a blank alias |
| RouteGroups.ParseSkipsBlankModels | internal/config/routing.go:20-28 | nor does one that lists only blanks |
| RouteGroups.ParseStarts | internal/config/routing.go:9-14 | an empty text gives no groups, and empty entries in front change nothing |
| RouteGroups.EveryEntryIsOne | internal/config/routing.go:10-28 | every entry is of one of these kinds |
| RouteGroups.FormatRouteGroups | internal/config/routing.go:34-46 | writes the groups in some enumeration of the map |
| RouteGroups.FormatEntry | internal/config/routing.go:38-45 | what one more alias adds to the text: nothing without models, else its entry without white space, after ";" if something is there |
| RouteGroups.ParseIsClean | internal/config/routing.go:8-31 | whatever the text, aliases and models read are trimmed, non-empty and delimiter-free and no group is empty |
| RouteGroups.RoundTripIff | internal/config/routing.go:8-46 | for every order, reading back what was printed gives the groups without the empty ones if and only if those are clean |
| RouteGroups.ParseFormatParse | internal/config/routing.go:33-46 | for every text and order, what was read survives printing and reading |
| KeyRef.TrimSpaces | internal/console/eval_plugin_keys.go:127-135 | the two loops cut exactly the blanks at both ends |
| KeyRef.ScanKeyRef | internal/console/eval_plugin_keys.go:109-125 | the single pass is splitting at pipes, trimming blanks and dropping what is empty |
| KeyRef.SplitKeyRefIs | cmd/nexus/plugin_secrets.go:106-114 | what is read is the one list of names that the pieces between pipes spell, padded and with blanks between them |
| KeyRef.ReadersAgreeIff | cmd/nexus/plugin_secrets.go:106-114 | the two readers give the same list if and only if no piece, its blanks trimmed, begins or ends with other white space |
| KeyRef.ReadersAgreeOnBlanks | internal/console/eval_plugin_keys.go:109-135 | in particular on strings whose only white space is spaces and tabs |
| Hub.HistoryInv | internal/console/hub.go:46-64 | the two maps always have the same channels, a removed channel never listens again, buffers hold at most 64 |
| Hub.PanicsIffClosedTwice | internal/console/hub.go:58-64 | although close comes after the lock is released, a history panics if and only if some channel is closed twice |
| Hub.DeliveryIsSubsequence | internal/console/hub.go:27-41 | what reaches a channel is a subsequence of the traces its user may see while subscribed, and all of them iff its buffer was never full at a send |
| Hub.ReceivedIsSubsequence | internal/console/hub.go:27-41 | so is what its reader has taken |
| Hub.Hub.Subscribe | internal/console/hub.go:48-55 | registers a new empty channel for the user in both maps |
| Hub.Hub.Record | internal/console/hub.go:29-41 | in any order of clients, each interested client with room gets the trace, no other channel changes |
| Hub.Hub.Unsubscribe | internal/console/hub.go:58-64 | removal and close are the two specified steps; a second one panics |
| PluginKeys.SaveEvalPluginKeys | internal/core/eval_plugin_keys.go:27-64 | replaces the plugin's keys by those with name and value; refuses an empty plugin name |
| PluginKeys.PickIsExact | cmd/nexus/plugin_keys.go:257-280 | values in the order of the key reference, or failure on exactly the names not set, sorted |
| PluginKeys.ResolvedIsExact | cmd/nexus/plugin_keys.go:232-281 | each error exactly in its case; else values exactly if every name of the reference has one, then all of them in its order, or exactly the names not set, sorted |
| PluginKeys.SetIsExact | cmd/nexus/plugin_keys.go:88-117 | the cache gets exactly the keys with a value, the vault, if it can be written, exactly those with a name and a value; no other plugin is touched |
| PluginKeys.ClearIsExact | cmd/nexus/plugin_keys.go:137-147 | nothing stays cached for the plugin, nor stored if the vault can be written; no other plugin is touched |
| PluginKeys.LookupIsExact | cmd/nexus/plugin_keys.go:201-225 | a lookup that finds keys leaves them cached and changes nothing else |
| PluginKeys.HydrateIsExact | cmd/nexus/plugin_keys.go:159-182 | loading caches exactly what the vault holds for each owner loaded |
| PluginKeys.RestartAnswersAlikeIff | cmd/nexus/plugin_keys.go:79-225 | after any history of this process and others, whatever vault calls failed, a new process answers for a plugin as this one does, however much it has loaded, if and only if what is cached here for it is what the vault holds |
| PluginKeys.RestartAnswersAlike | cmd/nexus/plugin_keys.go:119-182 | a plugin whose latest set or clear was saved or left nothing cached is answered alike after a restart |
| PluginKeys.RestartResolvesAlike | cmd/nexus/plugin_keys.go:232-281 | and every credential of such a plugin is resolved alike, values and errors |
| PluginKeys.RestartChangesNothing | cmd/nexus/plugin_keys.go:18-31 | if every set was accepted, for a named plugin and named keys, and nobody else wrote, a restart changes no answer and no resolution |
| PluginKeys.AnswersArePasted | cmd/nexus/plugin_keys.go:79-147 | if moreover the clears succeeded, a process and every successor of it answer with exactly the keys pasted last |
| PluginKeys.PastedKeysStayActive | cmd/nexus/plugin_keys.go:84-87 | pasted keys are active in this process, saved or not, until set or cleared again or overwritten by a load |
| PluginKeys.SavedElsewhereSeenIff | cmd/nexus/plugin_keys.go:119-134 | keys saved by another process are answered here if and only if none are cached here, or the same |
| PluginRaces.StepsAloneAreTheOperation | cmd/nexus/plugin_keys.go:88-225 | with nothing in between, the two steps of a set, clear or lookup are the operation |
| PluginRaces.AgreesInTheEndIff | cmd/nexus/plugin_keys.go:35-36 | whatever order the pending steps finish in, cache and vault then agree on a plugin if and only if each promotion pending, or else what is cached, is what each write pending, or else the vault, leaves |
| PluginRaces.RacedRestartAlikeIff | cmd/nexus/plugin_keys.go:79-225 | in every interleaving of steps a new process answers for a plugin as this one does if and only if what is cached here for it is what the vault holds |
| PluginRaces.KeysStayActiveIff | cmd/nexus/plugin_keys.go:84-87 | cached keys stay active until set, cleared or loaded again, in every interleaving, if and only if no lookup that read other keys is still to promote them |
| PluginRaces.SerialFollows | cmd/nexus/plugin_keys.go:35-36 | if operations on one plugin do not overlap, however they interleave with others, each plugin is where single steps would have put it but for the step pending on it |
| PluginRaces.SerialAnswersArePasted | cmd/nexus/plugin_keys.go:79-147 | then a plugin with nothing pending is answered as by single steps and, with saved sets and clears, with the keys pasted last |
| PluginRaces.ClearUndoneReached | cmd/nexus/plugin_keys.go:201-219 | a lookup that reads before a clear and promotes after it leaves the cleared keys active over an empty vault |
| PluginKeys.SavedSetSurvivesIff | cmd/nexus/plugin_keys.go:79-117 | a set the vault accepted, and that reports success, survives a restart if and only if no key with a value has an empty name |
| PluginKeys.ConsoleKeyResolver.Set | cmd/nexus/plugin_keys.go:88-117 | caches the non-empty values first, then writes them through, and reports whether they were saved |
| PluginKeys.ConsoleKeyResolver.Clear | cmd/nexus/plugin_keys.go:137-147 | drops the plugin from cache and, if the vault allows, from the vault |
| PluginKeys.ConsoleKeyResolver.Get | cmd/nexus/plugin_keys.go:125-134 | the cached keys, else those of the vault, which are promoted into the cache |
| PluginKeys.ConsoleKeyResolver.Hydrate | cmd/nexus/plugin_keys.go:159-182 | loads a set of owners into the cache, all of them and their number if every read succeeds |
| PluginKeys.ConsoleKeyResolver.Resolve | cmd/nexus/plugin_keys.go:232-281 | each error in its case, else the picked values, with the cache updated as by a lookup |

## Left out

- RunReplicas.ReplicasLeaveNoStrayKey: launches, cancels and deletes are single steps there; RunInterleaving.InterleavedCallsLoseNoKey has every call interleaved.
- RunReplicas.NextWriteKeepsSettledIff: one write, and a replica's revoke, clear and write of a reading are one step, as for the other results of RunReplicas; RunSettling.SettledLastsIff has every call and whole runs.
- RunReplicas.CancelUndone: one way only; the exact condition is RunSettling.SettledLastsIff.
- RunReplicas.LeasedReplicasObserveOnce: the lease is a discipline the program does not have; RunReplicas.WritesObserveOnceIff is the exact condition without it.
- RunReplicas.SettledForGoodWhenUndisturbed: the lease and the rule on cancels are a discipline the program does not have; RunSettling.SettledLastsIff is the exact condition without it.
- RunSettling.CancelDuringLaunchUndone: one way only; the exact condition is RunSettling.SettledLastsIff.
- RunStarvation.PolledIffFewDownAhead: the same runs are unreadable in every pass, and nothing ahead is cancelled or deleted; RunStarvation.PolledIfFewDownEachPass lets them change, one way.
- PushReports.StoreHoldsVisible: requires strictly increasing put times; PushReports.StoreKeepsNewest is the statement without that.
- PushReports.ListReturnsVisible: requires strictly increasing put times, as PushReports.StoreHoldsVisible.
- PushReports.StoreKeepsNewest: requires the store's calls in the order of their clocks, which the handlers read before taking the lock; PushReports.StoreFilesLast is what holds without that.
- PushReports.PushReportStore.Put: promises the store's invariant for non-empty slugs only; the HTTP handler lets no other through, and an empty slug is the program's own marker for "none found".
- PluginKeys.RestartAnswersAlike: a lookup, a set and a clear are one step each, as for the other histories of PluginKeys; PluginRaces takes them apart, and PluginRaces.SerialFollows says when that makes no difference.
- PluginKeys.PastedKeysStayActive: operations are one step each; PluginRaces.KeysStayActiveIff takes them apart.
- Runs: the request check on the gateway URL and secret is not modelled, because the URL is still empty when Launch validates; min and max score, sample totals and start time follow the pattern of the fields kept.
- Runs: two updates at the same updated_at are ordered by arrival.
- AuditLog: scrubbing and the length caps of a writer's columns are taken as done; each write is one step, with any id and time.
- Hub.Hub.Record: one step under its read lock; two concurrent records may reach different channels in different orders.
- Hub.Hub.Unsubscribe: takes a channel that Subscribe returned.
- Strings are sequences of characters; invalid UTF-8 is not modelled.
- The comparison made by the drift watcher once it is called, staleness sweeps and alert text: a single arithmetic test.
- The insertion sort of extra key names, message and status tables of the error package: easy members.
- HTTP handlers, provider adapters, configuration, the other migrations, the dashboard and the evaluation service.
