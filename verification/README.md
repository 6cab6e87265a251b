# Verified models of the agent fleet's queue logic

The repository runs a fleet of agents that pass recommendations ("recs") to each other through stored queues.
This project models the code that decides what to dispatch, collapse, requeue, retry, deploy, roll back, merge,
select and claim, and proves what that code guarantees over every input and every run. Storage is a map or a
list; what a database, a shell command, a clock or a language model answers is an input, so each result holds
for every answer. `dafny verify dfyconfig.toml` checks everything.

Code that updates state in place is a class or a method with the same loops and branches, proved equal to a
specification function; the results about whole runs are lemmas about those functions. Protocols with several
participants are state machines over their steps.

**Backlog dispatcher** (`BacklogDispatcher`, `DispatchHistory`, `DispatchRules`). One tick walks the producers,
hands at most one batch of each to an implementer and remembers both dedup keys of every rec in a window of
2000. Over every sequence of ticks, throttled or not, the window is exactly the newest part of all keys ever
queued, so a rec comes back in a later tick only after a full window of other keys has been queued since. Within
one tick nothing is deduplicated, although a comment in the loop says that only one of two recs with one title
is ever shipped: `DispatchedIff` says exactly which recs a tick dispatches, and `TwinProducers` and `TwinRecs`
are two that share a key. While all keys fit in the window, every dispatching tick shrinks the backlog, and
unhindered ticks drain it. The dedup key leaves the producer out, so it also suppresses an equally stamped and
numbered rec of another producer; `DedupKeyShared` says exactly when. `DispatchRules` says in the fields of the
recs what is held back and what goes out, and in which order.

**Deployer** (`TemplateExpansion`, `DeployProtocol`, `DeployPipeline`). The run of one deployer is a method
whose log of steps the protocol allows; the protocol is then interleaved over any number of runs and an outside
writer. While only deployers write, the lock gives every release either the ref found at acquisition or the
run's own. The rollback means to replace nothing but the run's own deploy, and its check compares what is served
with what was captured after the deploy. It does not hold that promise against outside deploys.
`RollbackReplaces` is the exact condition, over every interleaving and whatever captures and check returned:
what is replaced is the run's own ref if and only if the last outside write since the run became live, if any,
wrote that ref. Where the capture or the check is unusable the guard is skipped, and that whole interval is the
gap (`WriteWithoutCaptureIsLost`, `WriteBeforeUnusableCheckIsLost`). Where both are usable `RollbackGapsIff`
narrows it to two gaps: an outside deploy between becoming live and the capture is taken for the run's own
(`WriteBeforeCaptureIsLost`), and one between the check and the rollback is not seen (`WriteAfterCheckIsLost`).
Recs are marked shipped exactly when every stage that runs passed, which `DeployPipeline.Run` states in the
outcomes of the steps; a gate or content check configured under `smoke_check` without `base_url` or `paths` does
not run, and then recs are shipped without it. One-after-the-other template replacement is simultaneous
substitution on brace-free pieces, and `NestedTemplateDependsOnOrder` shows that the hypothesis is needed.

**Queue rewriters** (`ConsolidateQueued`, `ConsolidationConservesWork`, `ConsolidationPages`, `RequeueDeferred`,
`RequeueOverRuns`, `RequeueRules`). Consolidation conserves the work queued per run, never empties a queue file
(its delete branch cannot be reached) and is idempotent. A single file keeps its work only if it already listed
all of a group or none of it, so two files that split a group both end up naming the whole mega-rec;
`FileWorkExact` is the exact condition. Which recs are collapsed is stated over their urls: a page is a url
without its query, its fragment and the slashes before them, and the queued recs of a page are collapsed exactly
when they are at least as many as the threshold. The requeue script says that it dedupes globally and that
re-running does not double-queue. What holds is that a rec of a run is queued at most once over all runs, and a
canonical key once within a run: a file that held only superseded entries stays unstamped, so the next run
queues its copy of the same key (`KeyRequeuedIff`, `KeyQueuedTwice`). Its request ids leave the agent out, so
two agents of a site with one run stamp overwrite each other's queue file, in one run of the script or in two
(`DispatchesSurviveRunsIff`).

**Agent doctor** (`AgentDoctor`, `DoctorOverRuns`, `DoctorRules`). The four log scans, with their early exits,
equal closed forms. A stuck chain whose trigger write succeeds is re-dispatched for ever, because each success
resets the counter of the cap meant to stop it; a signature with a static recipe never reaches the cap at all; a
reached cap and a logged verdict are both final. While the excerpt of a pair is unchanged, each loop-broken
email comes more than 24 hours after the logged time of the one before if the excerpt resembles its own stored
first 600 characters; if it does not, every visit sends one.

**Product upsert** (`DbAdapter`, `UpsertTransactions`, `UpsertFailures`). One rolled-back row also undoes every
row before it, so the committed table is the old one with exactly the rows after the last failing row applied,
while the reported counts cover them all: they describe the table exactly when no row succeeds before one that
fails. Both backends refine the same keyed map. `UpsertFailures` says over the rows which of them fail and what
a clean batch leaves under each key.

**Accumulators** (`ProposalAccumulator`, `ProposalHistory`, `ProposalRules`, `OpportunityAccumulator`,
`OpportunityHistory`, `OpportunityRules`). Each proposal lives on its own: what a history leaves under an id
depends on the recs of that id alone. Closed entries are never touched, splitting a run in two changes only
stamps, a backfill run again changes only counts and last-seen stamps, and closing a proposal shown among the
top n shows the one that was next. An opportunity never returns to open and keeps its baseline; the cap holds
exactly when it is not negative, because a negative one slices the list from its end. The docstring of the
obsolescence test speaks of a jump of more than 0.5 stars above 3.9; the code asks for at least 4.2 and at least
0.5, and the model follows it.

**Reply language** (`ReplyParser`, `ReplyTokens`, `ReplyWords`, `ReplyPasses`, `ReplyBody`, `ReplyRoundTrip`,
`ReplyQuotes`, `ReplyApply`). The regular expressions are scanners and the rewriting passes are those of the source.
`QuotedReply` says what a verb with any list of ids, numbers, uids, pairs of them around any separator and other
words selects above any quoted text: the union of what its selectors select and of the ids in the quoted text,
and as filters the bulk keywords among the other words. Quoted text without a verb adds what it selects by
itself (`QuoteIsCut`), where bare numbers count for nothing, and its keywords are cut off. They are not where
the quoted text starts right after the verb, because a boundary at position 0 is not cut at, or with an
attribution or a dated line, which bound the numbers only (`UncutQuote`). Quoted text with a verb can change the
verb of the reply, because verbs are looked for in the whole body (`QuotedVerbWins`). A bare range out of span
is not ignored but selects its ends, and ids beyond 999 select nothing. The digits a uid ends in read as the
start of a bare range, so r-a1b2c3d4 - 5 loses the uid and selects rec-004 and rec-005 (`UidLost`);
`UidSurvivesIff` is the exact condition. The help text offers uids in replies; where replies are applied to the
recs a uid selects nothing (`UidReplyChangesNothing`). Resolving selectors twice is resolving them once exactly
when every id a uid reaches resolves to itself (`ResolveTwiceIff`).

**Feedback triage** (`FeedbackClaim`, `FeedbackWorkers`, `FeedbackRules`). Any number of runs on one table,
crashing anywhere: each row is claimed at most once, gets at most one final status and one recommendation, in
that order, and never reads as new again, provided that in every source the claimed and the final statuses
differ from the new one; `ClaimedOnceIff` says that this is what it takes. A crash between the status writes and
the emission loses a report for good (`CrashedRowsAreStuck`, `CrashCanLoseAReport`).

`Sequences` and `Decimals` hold the shared vocabulary: stable sorting and filtering of lists, the order of
strings, and numerals.

## Model

| member | source | states |
|---|---|---|
| BacklogDispatcher.Dispatcher.ScanRunDir | agents/backlog-dispatcher-agent/agent.py:797-951 | scanning a run-dir with its early stop collects the first due recs, up to the batch limit |
| BacklogDispatcher.Dispatcher.PickRunDir | agents/backlog-dispatcher-agent/agent.py:786-969 | the first run-dir within the scan budget that has a due rec supplies the batch, in severity and tier order |
| BacklogDispatcher.Dispatcher.PickBatch | agents/backlog-dispatcher-agent/agent.py:728-784 | a producer whose listing fails yields no batch, any other the batch of its first due run-dir |
| BacklogDispatcher.Dispatcher.WalkProducers | agents/backlog-dispatcher-agent/agent.py:689-706 | the producer loop stops at the producer limit and as soon as the re-counted scopes reach the total cap |
| BacklogDispatcher.Dispatcher.CollectKeys | agents/backlog-dispatcher-agent/agent.py:961-969 | the dedup key and the title key of every rec handed out are collected in dispatch order |
| BacklogDispatcher.FreshKeys | agents/backlog-dispatcher-agent/agent.py:1090-1096 | the new keys are those outside the window, each once, in order of first appearance |
| BacklogDispatcher.Dispatcher.Run | agents/backlog-dispatcher-agent/agent.py:655-680 | a throttled tick dispatches nothing and keeps the window; any other appends its new keys and keeps the last 2000 |
| DispatchHistory.WindowOverRuns | agents/backlog-dispatcher-agent/agent.py:1081-1099 | over every sequence of ticks the window is duplicate-free and holds the newest 2000 of all keys ever queued, and one key is never queued twice within that distance |
| DispatchHistory.DispatchQueuesKeys | agents/backlog-dispatcher-agent/agent.py:922-938 | a dispatched rec was eligible and unsuppressed, and both its keys enter the window on that tick |
| DispatchHistory.RedispatchNeedsFullWindow | agents/backlog-dispatcher-agent/agent.py:1067-1099 | a rec dispatched again in a later tick, or its page-and-title twin, had their shared key queued by the first of the two ticks and at least 2000 other keys queued since |
| DispatchHistory.BatchIsStablePrefix | agents/backlog-dispatcher-agent/agent.py:796-969 | each batch is the stable severity and tier sort of the first due recs of the newest scanned run-dir that has one, not empty and not longer than the limit |
| DispatchHistory.BatchesBounded | agents/backlog-dispatcher-agent/agent.py:687-691 | one tick hands out at most one batch for each of the producers it may touch |
| DispatchHistory.DedupKeyShared | agents/backlog-dispatcher-agent/agent.py:888-925 | two recs share a dedup key exactly when run stamp and rec id agree, whoever produced them, and the key then suppresses both |
| DispatchHistory.ScopesBounded | agents/backlog-dispatcher-agent/agent.py:693-706 | at every point of the producer loop the running scopes are at or below the larger of the starting count and the total cap |
| DispatchHistory.DispatchedIff | agents/backlog-dispatcher-agent/agent.py:678-971 | one tick dispatches a rec exactly when a visit the loop serves has it in its first run-dir with a due rec, due itself and with fewer due recs than the limit before it; no key queued in the tick matters |
| DispatchHistory.TwinProducers | agents/backlog-dispatcher-agent/agent.py:888-925 | any two due recs of two producers go out in one tick, also when they share run stamp and id |
| DispatchHistory.TwinRecs | agents/backlog-dispatcher-agent/agent.py:926-951 | and so do any two of one run-dir, also when they share page and title |
| DispatchHistory.TickForgetsNothing | agents/backlog-dispatcher-agent/agent.py:1090-1099 | while all keys of a fixed world fit in the window a tick only adds keys to it |
| DispatchHistory.DispatchShrinksBacklog | agents/backlog-dispatcher-agent/agent.py:1067-1099 | and every tick that dispatches strictly shrinks the set of eligible unsuppressed recs |
| DispatchHistory.DispatchingIsBounded | agents/backlog-dispatcher-agent/agent.py:689-971 | so over any ticks no more of them dispatch than there were recs in the backlog |
| DispatchHistory.IdleIffDrained | agents/backlog-dispatcher-agent/agent.py:689-972 | an unhindered tick dispatches nothing exactly when the backlog is empty |
| DispatchHistory.UnhinderedTicksDrain | agents/backlog-dispatcher-agent/agent.py:689-971 | as many unhindered ticks as there are backlog recs leave no backlog |
| DispatchRules.DueIff | agents/backlog-dispatcher-agent/agent.py:821-938 | a rec is due exactly when no flag holds it back, a review it requires is confirmed, it has an id, none of its keys is in the window, and its run and id are not in the ledger of its producer |
| DispatchRules.DispatchedRecIs | agents/backlog-dispatcher-agent/agent.py:655-971 | every rec handed out is due in these fields and stands in a scanned run-dir of a producer whose dispatch goes through, on a tick that starts with free scopes |
| DispatchRules.DispatchedExactly | agents/backlog-dispatcher-agent/agent.py:678-971 | a rec goes out exactly when a visit the loop serves has it as a due rec in the first run-dir with one, with fewer due recs than the limit before it |
| DispatchRules.FirstWantedGoes | agents/backlog-dispatcher-agent/agent.py:678-971 | a due rec at the head of the first producer's newest run-dir goes out when scopes are free and the dispatch goes through |
| DispatchRules.BacklogIs | agents/backlog-dispatcher-agent/agent.py:803-927 | the backlog that ticks drain is the set of those recs |
| DispatchRules.BatchOrder | agents/backlog-dispatcher-agent/agent.py:939-958 | a batch holds at least one and at most the limit of recs, the severest first and the auto tier first among equals |
| DispatchRules.QueuedKeysAre | agents/backlog-dispatcher-agent/agent.py:888-968 | a tick queues exactly the run-and-id keys and the title keys of what it hands out that are not in the window yet |
| TemplateExpansion.Expand | agents/deployer/deployer.py:113-122 | the loop of replacements is the sequential replacement of the tag, the image and then the variables |
| TemplateExpansion.ReplaceFills | agents/deployer/deployer.py:118-121 | on a template of brace-free literals and holes, replacing one slot fills exactly the holes of that name |
| TemplateExpansion.ExpandIsSubstitution | agents/deployer/deployer.py:113-122 | sequential replacement is simultaneous substitution when pieces, names and values are brace-free |
| TemplateExpansion.ExpandOrderIrrelevant | agents/deployer/deployer.py:117-121 | on such templates the order of the variables does not matter, also when one of them is called tag or image |
| TemplateExpansion.NestedTemplateDependsOnOrder | agents/deployer/deployer.py:117-121 | a nested template gives different results for the two orders of two variables, whatever tag and image, so the hypothesis is needed |
| DeployProtocol.LockIsExclusive | agents/deployer/deployer.py:584-602 | in every interleaving at most one run holds the lock |
| DeployProtocol.AlwaysSound | agents/deployer/deployer.py:585-745 | while only deployers write, what a run remembers agrees with what the site serves at every step |
| DeployProtocol.ReleaseServesPriorOrOwn | agents/deployer/deployer.py:985-997 | at lock release the site serves the ref found at acquisition or the run's own, own after shipping, earlier after a clean rollback |
| DeployProtocol.RollbackIsGuarded | agents/deployer/deployer.py:405-424 | with outside writers too, a rollback whose captures were usable ran after a check that saw the ref captured after this run's deploy |
| DeployProtocol.RollbackReplaces | agents/deployer/deployer.py:401-430 | with any outside writers, and whatever the captures and the check returned, a rollback replaces the run's own ref or the last outside write since the run became live, so the own ref exactly when there is no such write or it wrote that ref |
| DeployProtocol.RollbackWasLive | agents/deployer/deployer.py:706-745 | every rollback comes after a step that made its run live, so that condition covers them all |
| DeployProtocol.CaptureReads | agents/deployer/deployer.py:706-745 | the capture after the deploy holds the run's own ref, or the last outside write since the run became live |
| DeployProtocol.RollbackFinds | agents/deployer/deployer.py:405-427 | the rollback replaces the ref its check saw, which is the captured one, or the last outside write since the check |
| DeployProtocol.RollbackGapsIff | agents/deployer/deployer.py:401-430 | for a usable capture and a usable check, with any outside writers, the captured ref is the run's own, and the replaced ref the captured or the own one, exactly when the last outside write in the gap before the capture and in the gap after the check leaves it so; writes between the two do not matter then |
| DeployProtocol.GuardedRollbackHasGaps | agents/deployer/deployer.py:405-424 | every rollback with a usable capture and check has become live, captured and checked in this order, so the two gaps cover all of those |
| DeployProtocol.RollbackReplacesCheckedRef | agents/deployer/deployer.py:415-427 | without an outside write since the check, the rollback replaces the ref its check saw, the one captured after the deploy |
| DeployProtocol.WriteAfterCheckIsLost | agents/deployer/deployer.py:416-427 | an outside deploy between the check and the rollback is overwritten by the earlier image |
| DeployProtocol.WriteBeforeCaptureIsLost | agents/deployer/deployer.py:740-745 | an outside deploy between becoming live and the capture is taken for the run's own and overwritten by the earlier image |
| DeployProtocol.WriteWithoutCaptureIsLost | agents/deployer/deployer.py:415-427 | without a usable capture there is no check, and an outside deploy before the rollback is overwritten by the earlier image |
| DeployProtocol.WriteBeforeUnusableCheckIsLost | agents/deployer/deployer.py:416-427 | with an unusable check an outside deploy between the capture and the check is overwritten by the earlier image |
| DeployPipeline.DeployWithRetry | agents/deployer/deployer.py:679-696 | the retry loop ends on the first attempt that is not a busy failure, or on the fourth |
| DeployPipeline.Rollback | agents/deployer/deployer.py:401-430 | the rollback command runs exactly when there is a command, a target and no usable check that saw another ref, and counts when it exits clean |
| DeployPipeline.Deploy | agents/deployer/deployer.py:664-745 | the deploy stage goes on exactly when the site was captured and the command succeeded or the active revision carries the tag |
| DeployPipeline.SmokeStages | agents/deployer/deployer.py:752-892 | the checks against the deployed site pass exactly when smoke, gate and content check do, and report a rollback exactly when an allowed one ran clean |
| DeployPipeline.LockedStages | agents/deployer/deployer.py:604-892 | the stages under the lock succeed exactly when every gate that runs passes, the gate and the content check running only where smoke paths are configured, and report a rollback exactly when one ran clean |
| DeployPipeline.MarkShipped | agents/deployer/deployer.py:964-974 | exactly the implemented recs that were not shipped become shipped, with this tag and image |
| DeployPipeline.TestStage | agents/deployer/deployer.py:511-578 | an unhealthy dev server, a failing test or a scope without tests blocks the run |
| DeployPipeline.DeployLiveIff | agents/deployer/deployer.py:664-745 | the deploy stage succeeds exactly when the prior ref could be read, the attempt the loop ends on exited with 0 or the active revision carries the tag, and the deployed ref could be read where a rollback would need it |
| DeployPipeline.RollsBackIff | agents/deployer/deployer.py:401-430 | a run rolls back exactly after a twice failed smoke check or gate, where that is configured, with a captured ref, a check that saw nothing or the deployed ref, and a command that exits with 0 |
| DeployPipeline.Run | agents/deployer/deployer.py:498-997 | a run succeeds exactly when it holds the lock and the outcome of every configured step is good, step by step; recs become shipped on success only, the lock is always given back, and the run's steps are ones the protocol allows |
| ConsolidateQueued.GroupPending | install/consolidate-queued.py:154-169 | grouping by page keeps each page's pending ids in order, pages in order of first appearance |
| ConsolidateQueued.MarkGroup | install/consolidate-queued.py:179-180 | exactly the recs of the group are pointed at their mega-rec |
| ConsolidateQueued.CollapseGroups | install/consolidate-queued.py:173-187 | each group gets one appended mega-rec and its recs are marked |
| ConsolidateQueued.ConsolidateRun | install/consolidate-queued.py:139-194 | a run already stamped is left alone; otherwise its groups of at least the threshold are collapsed and it is stamped |
| ConsolidateQueued.RewriteIds | install/consolidate-queued.py:201-211 | collapsed ids are swapped for their mega-rec's id, once per file |
| ConsolidateQueued.QueueStore.CollapseRuns | install/consolidate-queued.py:139-194 | every queued run is collapsed, no other run changes |
| ConsolidateQueued.QueueStore.RewriteFiles | install/consolidate-queued.py:196-223 | every queue file is rewritten through the ids collapsed for its own run |
| ConsolidateQueued.QueueStore.Consolidate | install/consolidate-queued.py:97-223 | the whole script, over any walk order of the queued ids |
| ConsolidateQueued.ChosenPartition | install/consolidate-queued.py:158-175 | the collapsed groups are disjoint and each is exactly the pending ids of its page |
| ConsolidateQueued.RewriteKeepsWork | install/consolidate-queued.py:201-211 | a rewritten list holds exactly the ids outside the map and the mega-recs of those inside, never grows and never becomes empty |
| ConsolidationConservesWork.WorkIsConserved | install/consolidate-queued.py:113-223 | per agent and run stamp the union of queued recs, mega-recs expanded, is unchanged |
| ConsolidationConservesWork.WellFormedKept | install/consolidate-queued.py:150-192 | mega-recs occur only in stamped runs before and after, so conservation holds again on every re-run |
| ConsolidationConservesWork.FileWorkExact | install/consolidate-queued.py:201-214 | one file's own work never shrinks and is unchanged exactly when it already listed all or none of each group |
| ConsolidationConservesWork.MegaRecsAreDistinct | install/consolidate-queued.py:176-183 | every rec joins at most one mega-rec, and mega ids are pairwise distinct and new |
| ConsolidationConservesWork.QueueFilesKeepShape | install/consolidate-queued.py:212-223 | no queue list grows and a nonempty one stays nonempty, so the delete branch is unreachable |
| ConsolidationConservesWork.SecondRunChangesNothing | install/consolidate-queued.py:150-152 | a second run with the same threshold changes nothing, in any walk order |
| ConsolidationPages.PageIff | install/consolidate-queued.py:38-45 | the page of a rec is its first nonempty url without query, fragment and the slashes before them, and no other string is |
| ConsolidationPages.EndingsDoNotMatter | install/consolidate-queued.py:45 | a query, a fragment or slashes added to a url leave it on its page |
| ConsolidationPages.PageIsCollapsed | install/consolidate-queued.py:158-192 | when at least as many queued recs as the threshold are on a page, each points at one new mega-rec on that page whose sources are exactly their ids, and the run is stamped |
| ConsolidationPages.SamePageSameMega | install/consolidate-queued.py:158-187 | so two queued recs whose urls differ in query, fragment and slashes only end up at the same mega-rec |
| ConsolidationPages.OthersStay | install/consolidate-queued.py:158-175 | every other rec stays as it is |
| ConsolidationPages.RewriteInOrder | install/consolidate-queued.py:201-211 | a queue file keeps its order |
| ConsolidationPages.RewriteOnce | install/consolidate-queued.py:203-211 | and names each mega-rec once |
| RequeueDeferred.Requeuer.ScanFile | install/requeue-deferred.py:172-197 | scanning a file fills in the missing types and keeps the newest entry per key |
| RequeueDeferred.Requeuer.Scan | install/requeue-deferred.py:146-197 | scanning all unstamped files keeps the best entry per key and changes nothing but types |
| RequeueDeferred.Requeuer.WriteQueue | install/requeue-deferred.py:217-254 | one queue file is written per dispatch and the file it came from is stamped |
| RequeueDeferred.Requeuer.Run | install/requeue-deferred.py:121-254 | one run of the script, dispatches in sorted order |
| RequeueDeferred.BackfillKeepsKey | install/requeue-deferred.py:76-85 | filling in a missing type changes no canonical key and is idempotent |
| RequeueOverRuns.RunPicksNewest | install/requeue-deferred.py:132-197 | a run picks exactly the newest live entry of every canonical key, the first of equally new ones, and no run and rec id twice |
| RequeueOverRuns.RidsAre | install/requeue-deferred.py:207-220 | a dispatch carries exactly the picked rec ids of its run, each once |
| RequeueOverRuns.EntriesAfterRun | install/requeue-deferred.py:156-158 | a run takes the files it dispatched from out of play and leaves every other file's entries as they were |
| RequeueOverRuns.WinnersAreLive | install/requeue-deferred.py:193-210 | dispatches come from live files only, and there is one as long as a live file is left |
| RequeueOverRuns.WinnersHoldNewest | install/requeue-deferred.py:193-210 | the files a run dispatches from are those that hold the first newest live entry of some key before the run |
| RequeueOverRuns.LiveFilesShrink | install/requeue-deferred.py:240-254 | the live files after a run are those that held no newest entry, strictly fewer than before |
| RequeueOverRuns.RunsReachFixpoint | install/requeue-deferred.py:121-254 | repeated runs reach a store that a further run does not change, within one run per live file |
| RequeueOverRuns.SecondRunQueuesNothingIff | install/requeue-deferred.py:11-12 | running again at once queues nothing exactly when every live file held a newest entry |
| RequeueOverRuns.KeyRequeuedIff | install/requeue-deferred.py:6-12 | a key is queued again on the next run exactly when one of its live entries sits in a file that holds the newest live entry of no key |
| RequeueOverRuns.KeyQueuedTwice | install/requeue-deferred.py:193-197 | one rec deferred by two runs of an agent is queued by two consecutive runs of the script |
| RequeueOverRuns.QueuedAtMostOnce | install/requeue-deferred.py:156-158 | over any runs, whatever happens in between as long as stamps stay, no rec of a run is queued twice |
| RequeueOverRuns.RequestIdNamesRunAndSite | install/requeue-deferred.py:47-60 | request ids coincide exactly for equal run stamp and site |
| RequeueOverRuns.DispatchesSurviveRunsIff | install/requeue-deferred.py:219-235 | over any runs that keep stamps and queue files, every dispatch of every run has its own payload in its queue file at the end exactly when no two of them share run stamp and site, that is, when no two files that hold the newest live entry of some key before a run do |
| RequeueOverRuns.DispatchesSurviveIff | install/requeue-deferred.py:219-235 | so it is after one run |
| RequeueOverRuns.KeyNamesAgent | install/requeue-deferred.py:114-118 | entries of different agents never share a canonical key |
| RequeueRules.SameKeyIff | install/requeue-deferred.py:76-118 | two recs share a canonical key exactly when agent, type, url and title agree, the type being their own, else their category, else unclassified |
| RequeueRules.EntriesReadAre | install/requeue-deferred.py:146-197 | the entries a run reads are the recs that a listed unstamped file defers by id and that are still there |
| RequeueRules.TypesFilledIn | install/requeue-deferred.py:176-191 | a run fills in the type of each rec a live file lists and changes nothing else in any rec |
| RequeueRules.DispatchWrites | install/requeue-deferred.py:36-61 | a dispatch alone with its run stamp and site leaves the file named after both, with its agent, site, run stamp and rec ids |
| RequeueRules.DispatchOrder | install/requeue-deferred.py:207-219 | dispatches go out once each, by agent and then by run stamp |
| Sequences.LessIff | install/requeue-deferred.py:193-219 | run stamps and agents compare as strings do: by the first difference, a proper prefix first |
| AgentDoctor.Doctor.SignatureAttemptCount | agents/agent-doctor/agent.py:356-374 | the backward scan gives 0 if one of the newest three entries of the pair is a fix, else their number up to three |
| AgentDoctor.Doctor.HasLlmAttemptFor | agents/agent-doctor/agent.py:218-237 | true exactly when some entry of the pair carries an LLM marker |
| AgentDoctor.Doctor.LlmSaysNonActionable | agents/agent-doctor/agent.py:318-337 | true exactly when some entry of the pair carries a verdict, with the newest such note |
| AgentDoctor.Doctor.RecentEscalation | agents/agent-doctor/agent.py:252-284 | on a time-ordered log the scan that stops at the first old escalation answers as a full scan would |
| AgentDoctor.Doctor.InvestigateAgent | agents/agent-doctor/agent.py:1377-1458 | one investigation logs exactly one entry with the outcome of its branch, and emails exactly when loop-broken or when the recipe escalates |
| AgentDoctor.Doctor.SweepChain | agents/agent-doctor/agent.py:1498-1546 | one stuck chain is re-dispatched below the cap and escalated at it, and anything but a fix is emailed |
| DoctorOverRuns.LogStaysOrdered | agents/agent-doctor/agent.py:276-278 | with a clock that does not run backwards the log stays in time order over any visits |
| DoctorOverRuns.CapReachedIff | agents/agent-doctor/agent.py:363-374 | the cap is reached exactly with two or more entries and no fix among the newest three |
| DoctorOverRuns.SucceedingChainNeverCapped | agents/agent-doctor/agent.py:1498-1517 | a chain whose trigger write keeps succeeding is re-dispatched on every sweep and never capped |
| DoctorOverRuns.CappedChainStaysCapped | agents/agent-doctor/agent.py:1503-1514 | a capped chain is emailed on every later sweep and never re-dispatched |
| DoctorOverRuns.CapNotesCarryNoVerdict | agents/agent-doctor/agent.py:1408-1414 | the notes written at the cap are never mistaken for a verdict |
| DoctorOverRuns.VerdictIsAbsorbing | agents/agent-doctor/agent.py:1394-1401 | after a logged verdict every later visit to the pair is silent |
| DoctorOverRuns.CapIsFinal | agents/agent-doctor/agent.py:1402-1416 | a capped pair stays capped and is never given a recipe again |
| DoctorOverRuns.StaticRecipeIsNeverCapped | agents/agent-doctor/agent.py:1402-1427 | a pair whose recipe leaves no marker never reaches the loop-broken branch |
| DoctorOverRuns.WholeExcerptsMatch | agents/agent-doctor/agent.py:305-315 | an excerpt of at most 600 characters resembles its stored form exactly when it has a word left |
| DoctorOverRuns.OneEmailPerDay | agents/agent-doctor/agent.py:1408-1416 | of two loop-broken emails for an unchanged excerpt that resembles its stored form the later comes more than 24 hours after the logged time of the earlier |
| DoctorOverRuns.UnlikeItselfEmailsEveryVisit | agents/agent-doctor/agent.py:281-284 | an excerpt that does not resemble its stored form is emailed on every visit to a capped pair |
| DoctorRules.ConditionsAre | agents/agent-doctor/agent.py:218-337 | a verdict is one of three markers in a note of the pair, and one of two markers shows that the LLM was consulted |
| DoctorRules.DecisionsAre | agents/agent-doctor/agent.py:1394-1427 | a visit is silent exactly after a verdict, suppressed exactly at the cap with a similar escalation within 24 hours, loop-broken exactly at the cap without one, and else runs the recipe |
| DoctorRules.InvestigationLogs | agents/agent-doctor/agent.py:1377-1458 | the entry an investigation appends, with its outcome, its notes and the first 600 characters of the excerpt |
| DoctorRules.SilentNotes | agents/agent-doctor/agent.py:1394-1401 | a silent visit quotes the first 120 characters of the newest verdict of the pair |
| DoctorRules.SweepLogs | agents/agent-doctor/agent.py:1498-1546 | the entry a sweep appends, escalated from the second attempt without a fix on |
| DbAdapter.PostgresAdapter.UpsertRows | agents/ebay-product-sync-agent/db_adapter.py:140-176 | the row loop with rollback and final commit leaves the specified table and counts, and nothing pending |
| DbAdapter.AzureSqlAdapter.UpsertRows | agents/ebay-product-sync-agent/db_adapter.py:248-286 | the same for the bag of rows behind MERGE |
| DbAdapter.ExecuteMerge | agents/ebay-product-sync-agent/db_adapter.py:262-268 | MERGE updates every row with the key, or appends one row when there is none |
| UpsertTransactions.AfterLastFailureIsSuffix | agents/ebay-product-sync-agent/db_adapter.py:168-173 | the kept rows are the longest suffix of the batch without a failing row |
| UpsertTransactions.CommitsRowsAfterLastFailure | agents/ebay-product-sync-agent/db_adapter.py:160-174 | the committed table is the old one with exactly the rows after the last failing row applied |
| UpsertTransactions.CountsCoverTheBatch | agents/ebay-product-sync-agent/db_adapter.py:37-42 | inserted, updated and failed add up to the batch, and the samples are its first five failing rows |
| UpsertTransactions.CountsAreCommittedIff | agents/ebay-product-sync-agent/db_adapter.py:160-173 | the counts never under-report the kept rows and equal them exactly when no row succeeds before one that fails |
| UpsertTransactions.InsertsAreNewKeys | agents/ebay-product-sync-agent/db_adapter.py:152-167 | applying rows adds exactly their keys, one counted insert per new key |
| UpsertTransactions.CleanBatch | agents/ebay-product-sync-agent/db_adapter.py:160-176 | without a failing row the whole batch is applied and inserted is the number of new keys |
| UpsertTransactions.FoldAt | agents/ebay-product-sync-agent/db_adapter.py:150-156 | under each key lies the stored row, or the first row of the batch, with the update columns of the last one |
| UpsertTransactions.StoredColumnsKept | agents/ebay-product-sync-agent/db_adapter.py:149-151 | created_at, the key columns and columns outside the batch keep their stored values |
| UpsertTransactions.SameBatchAgain | agents/ebay-product-sync-agent/db_adapter.py:152-156 | applying the same rows again changes nothing and inserts nothing |
| UpsertTransactions.RetryOfCleanBatch | agents/ebay-product-sync-agent/db_adapter.py:140-176 | repeating a batch that went through leaves the table and reports updates only |
| UpsertTransactions.ReportedCountsIff | agents/ebay-product-sync-agent/db_adapter.py:157-176 | the report is what happened to the table exactly when no row succeeds before one that fails |
| UpsertTransactions.MergeRefinesUpsert | agents/ebay-product-sync-agent/db_adapter.py:262-278 | one MERGE on a key-unique table is one upsert on the map it represents |
| UpsertTransactions.BackendsAgree | agents/ebay-product-sync-agent/db_adapter.py:248-286 | from the same key-unique table both backends leave the same table and report the same counts |
| UpsertFailures.FailedRowsAre | agents/ebay-product-sync-agent/db_adapter.py:160-173 | on any backend exactly the rows that are refused, lack a column of the first row or come under a malformed statement count as failed, all others as inserted or updated, and the samples are the first five of them |
| UpsertFailures.CommittedRowsAre | agents/ebay-product-sync-agent/db_adapter.py:160-174 | on any backend the committed table is the old one with the rows after the last such row applied |
| UpsertFailures.LastRowIsStored | agents/ebay-product-sync-agent/db_adapter.py:150-156 | after a batch without such rows the last row of a key stands in the table with all its columns but the key columns and created_at |
| UpsertFailures.FirstRowIsInserted | agents/ebay-product-sync-agent/db_adapter.py:146-156 | a key that is new gets a row with the columns of the batch, its key columns and created_at from the first row with that key |
| UpsertFailures.StoredRowIsKept | agents/ebay-product-sync-agent/db_adapter.py:149-156 | a stored row keeps its key columns, created_at and the columns the batch does not carry, and all of it when the batch does not hold its key |
| UpsertFailures.MergeWrites | agents/ebay-product-sync-agent/db_adapter.py:262-268 | MERGE writes the update columns into every row with the key, duplicates included, and adds a row exactly when there is none |
| ProposalAccumulator.Accumulator.BuildIndex | agents/competitor-research-agent/_accumulator.py:140-141 | the id dictionary points at each entry's place in the list |
| ProposalAccumulator.Accumulator.Absorb | agents/competitor-research-agent/_accumulator.py:144-180 | one rec refreshes or adds its entry through the dictionary, which stays equal to the list |
| ProposalAccumulator.Accumulator.MergeRun | agents/competitor-research-agent/_accumulator.py:117-182 | a merge applies its recs one after the other |
| ProposalAccumulator.Accumulator.AbsorbSnapshot | agents/competitor-research-agent/_backfill_accumulator.py:80-133 | the recs of one snapshot are applied in order, after everything read before |
| ProposalAccumulator.Accumulator.Backfill | agents/competitor-research-agent/_backfill_accumulator.py:63-136 | a backfill applies the recs of all readable snapshots in order, promoting shipped ones |
| ProposalAccumulator.Accumulator.TransitionState | agents/competitor-research-agent/_accumulator.py:185-201 | the first entry with the id changes state, reported exactly when it was in another one |
| ProposalAccumulator.Accumulator.OpenProposals | agents/competitor-research-agent/_accumulator.py:204-232 | the open entries, ranked and cut |
| ProposalHistory.IdsStayUnique | agents/competitor-research-agent/_accumulator.py:150-180 | no history gives two entries one id or moves an entry |
| ProposalHistory.MergeAt | agents/competitor-research-agent/_accumulator.py:144-182 | what a history leaves under an id depends only on the titled recs of that id |
| ProposalHistory.TimesSeenCounts | agents/competitor-research-agent/_accumulator.py:157-171 | times_seen is the number of titled recs merged under the id |
| ProposalHistory.ClosedIsSticky | agents/competitor-research-agent/_accumulator.py:126-163 | a closed entry's state, fields and closing record never change under merges or backfills |
| ProposalHistory.MergeKeepsStates | agents/competitor-research-agent/_accumulator.py:153-167 | a merge changes no state, and what it adds is open |
| ProposalHistory.RunsCompose | agents/competitor-research-agent/_accumulator.py:117-182 | merging two runs in turn equals merging their recs as one run, up to stamps |
| ProposalHistory.BackfillImplementsIff | agents/competitor-research-agent/_backfill_accumulator.py:87-118 | after a backfill a proposal is implemented exactly when it was, or it was open or absent and a snapshot shows it shipped |
| ProposalHistory.OpenFields | agents/competitor-research-agent/_accumulator.py:158-178 | an open entry's fields are the stored ones overlaid with all its recs carried, later recs winning |
| ProposalHistory.BackfillAgain | agents/competitor-research-agent/_backfill_accumulator.py:93-133 | a repeated backfill keeps states, fields and closing records and counts each titled rec once more |
| ProposalHistory.QueueIsRankedPrefix | agents/competitor-research-agent/_accumulator.py:219-232 | the capped queue is a prefix of the stably ranked open proposals |
| ProposalHistory.ClosingBackfillsTheQueue | agents/competitor-research-agent/_accumulator.py:207-218 | closing one of the top n leaves the old top n + 1 without it, in order |
| ProposalRules.SightingIs | agents/competitor-research-agent/_accumulator.py:144-182 | what one sighting does to a proposal, field by field: which fields it takes over, the stamps and the count, and that only a backfill marks shipped ones as implemented |
| ProposalRules.TransitionIs | agents/competitor-research-agent/_accumulator.py:185-201 | closing writes state, time and reason on the first entry with the id and nothing else |
| ProposalRules.BestComeFirst | agents/competitor-research-agent/_accumulator.py:219-229 | the queue is ordered by severity, tier, confidence and age, a missing severity counting as low and a missing tier as review |
| OpportunityAccumulator.Accumulator.ApplyResponses | agents/app-store-opportunity-agent/agent.py:904-915 | known reply verbs on mapped ids move opportunities to pursued or passed, in reply order |
| OpportunityAccumulator.Accumulator.TransitionState | agents/app-store-opportunity-agent/_accumulator.py:248-263 | the opportunity with the id changes state, reported exactly when it was in another one |
| OpportunityAccumulator.Accumulator.Absorb | agents/app-store-opportunity-agent/_accumulator.py:194-243 | one app refreshes or adds its opportunity through the dictionary, which stays equal to the list |
| OpportunityAccumulator.Accumulator.MergeRun | agents/app-store-opportunity-agent/_accumulator.py:177-245 | a merge applies its apps one after the other, through the id dictionary |
| OpportunityAccumulator.Accumulator.OpenOpportunities | agents/app-store-opportunity-agent/_accumulator.py:266-286 | the open opportunities ranked by return on investment, score and age |
| OpportunityAccumulator.Accumulator.Run | agents/app-store-opportunity-agent/agent.py:400-412 | one run applies replies, merges and passes what ranks beyond the cap |
| OpportunityHistory.ObsoleteIff | agents/app-store-opportunity-agent/_accumulator.py:156-217 | a merge closes an open opportunity, as obsolete, exactly when a sighting improved on its baseline, and moves no other |
| OpportunityHistory.CapKeepsTheBest | agents/app-store-opportunity-agent/agent.py:406-412 | the cap keeps the front of the ranked list in order, and holds exactly when it is not negative |
| OpportunityHistory.RunKeeps | agents/app-store-opportunity-agent/agent.py:400-412 | one run loses no opportunity or baseline, reopens none and respects its cap |
| OpportunityHistory.RunsKeep | agents/app-store-opportunity-agent/agent.py:400-428 | over any runs nothing returns to open, baselines stand and the open count respects the last cap |
| OpportunityRules.MajorIff | agents/app-store-opportunity-agent/_accumulator.py:149-169 | the number compared is the one the version text starts with, or a whole signed number |
| OpportunityRules.ImprovedIff | agents/app-store-opportunity-agent/_accumulator.py:156-174 | an app has improved exactly with a higher major version, or with a rating of at least 4.2 that is at least half a star above one it had |
| OpportunityRules.SightingIs | agents/app-store-opportunity-agent/_accumulator.py:198-243 | what one sighting of an app does to its opportunity, field by field, and that it does nothing to any other |
| OpportunityRules.ReplyMoves | agents/app-store-opportunity-agent/agent.py:904-915 | pursue, build and ship move the opportunity a reply names to pursued, pass, skip and no to passed, and nothing else moves |
| OpportunityRules.BestComeFirst | agents/app-store-opportunity-agent/_accumulator.py:266-286 | open opportunities are ordered by revenue points per complexity, then by score, then newest first |
| OpportunityRules.CapPasses | agents/app-store-opportunity-agent/agent.py:406-412 | the cap passes exactly the open opportunities that rank beyond it, with its reason |
| OpportunityRules.RepliedIsFrozen | agents/app-store-opportunity-agent/agent.py:400-412 | replies come first: what they close is counted by the merge of the same run but neither refreshed nor passed |
| ReplyParser.ParseUserAction | shared/site_quality.py:760-872 | the pass-by-pass rewriting of the body yields the specified verb, filters and notes and the specified ids, sorted |
| ReplyParser.FindVerb | shared/site_quality.py:850-854 | the first verb of the list that occurs as a word, else unknown |
| ReplyParser.FindFilters | shared/site_quality.py:857-870 | the keywords between the verb and the first of the five quote boundaries that is not at the start, for implement and skip only |
| ReplyTokens.IdsAre | shared/site_quality.py:842-849 | the ids are exactly the three-digit ids and the eight-digit uids that stand as words of their own in the rewritten body |
| ReplyTokens.VerbIs | shared/site_quality.py:850-854 | the verb is the first of the four that stands as a word of its own there, or unknown |
| ReplyPasses.IdRangesOfLine | shared/site_quality.py:791-799 | the first pass turns each rec-NNN range in span, with any separator and spacing, into its ids and leaves every other word alone |
| ReplyPasses.BareRangesOfLine | shared/site_quality.py:817-826 | the second pass turns each bare range in span into its ids, also one that starts with the digits a uid ends in, and leaves every other word alone |
| ReplyPasses.BareIdsOfLine | shared/site_quality.py:827-838 | the third pass turns each bare number from 1 to 999 into its id, also the ends of a range that was left, but not right after a hyphen and not in a uid |
| ReplyPasses.LineCollected | shared/site_quality.py:842-849 | exactly the three-digit ids and eight-digit uids standing as words are collected, whatever other words stand between them |
| ReplyBody.CanonicalIs | shared/site_quality.py:781-840 | the passes rewrite the words of a reply one by one and of the quoted text below it only its ranges of ids |
| ReplyRoundTrip.QuotedReply | shared/site_quality.py:760-872 | a verb and any list of ids, numbers, uids, pairs of them with any separator, and other words, above any quoted text, parses to the first of the four verbs written or quoted, the union of what the selectors select and of the ids quoted, and the bulk keywords said, if the reply is cut off before the quote |
| ReplyRoundTrip.ReplyMeans | shared/site_quality.py:760-872 | so a reply alone parses to its verb, the union of what its selectors select, and for implement and skip exactly the bulk keywords said |
| ReplyBody.Heard | shared/site_quality.py:851-870 | a verb, keyword or weekday stands as a word in a line exactly when it is said there as a word of its own, whatever follows the line |
| ReplyRoundTrip.RangeFormsAgree | shared/site_quality.py:783-790 | a range in span reads the same as a rec- range or a bare range with any separator and spacing and as the list of its ids |
| ReplyRoundTrip.BareRangeOutOfSpan | shared/site_quality.py:821-838 | a bare range selects its ids exactly when it is in span, otherwise its first number, and its second one unless a hyphen stands right before it |
| ReplyRoundTrip.UidSurvivesIff | shared/site_quality.py:814-849 | a uid with a separator and a number after it is selected exactly when the separator leaves it a word and its last digits and the number are no bare range in span; if they are, that range is selected in its place |
| ReplyRoundTrip.UidLost | shared/site_quality.py:817-826 | implement r-a1b2c3d4 - 5 selects rec-004 and rec-005 and not the uid |
| ReplyRoundTrip.AssignedIdRoundTrips | shared/site_quality.py:198-199 | an assigned id comes back from a reply exactly up to number 999, beyond that nothing is selected |
| ReplyRoundTrip.ReplyReachesItsRec | shared/site_quality.py:955-974 | a reply naming the i-th rec of an email marks that rec alone, if it is among the first 999, and else none |
| ReplyRoundTrip.UidReplyChangesNothing | shared/site_quality.py:842-966 | a reply that lists uids parses to exactly these and changes no rec of the email it answers |
| ReplyRoundTrip.BulkReplyReaches | shared/site_quality.py:857-974 | implement or skip with one bulk keyword marks exactly the recs with that tier, severity or priority, and all marks every rec |
| ReplyQuotes.QuoteIsCut | shared/site_quality.py:801-870 | a reply above quoted text without a verb means what it means alone and adds the ids the quoted text selects by itself; its keywords do not count where they are cut off |
| ReplyQuotes.QuotedLine | shared/site_quality.py:801-849 | of a quoted line of words the ids, the ranges of ids and the uids are added |
| ReplyQuotes.QuotedNumbersSelectNothing | shared/site_quality.py:801-813 | bare numbers below a boundary select nothing |
| ReplyQuotes.QuotedVerbWins | shared/site_quality.py:850-854 | a quoted line that starts with implement gives any reply above it that verb |
| ReplyQuotes.UncutQuote | shared/site_quality.py:857-870 | where the filter scan is not cut, at a boundary right after the verb or one of the reply boundaries it does not know, quoted keywords count like those of the reply |
| ReplyQuotes.CaseDoesNotMatter | shared/site_quality.py:781 | replies that differ in case only are read the same |
| ReplyQuotes.TagsAreSpaces | shared/site_quality.py:780 | a tag is read as a space |
| ReplyQuotes.ReplyNotes | shared/site_quality.py:871 | the notes are the first 500 characters of the rewritten body |
| ReplyApply.RecsDocument.AssignRecIds | shared/site_quality.py:180-205 | the i-th rec gets the i-th id and a uid only if it had none |
| ReplyApply.RecsDocument.ResolveRecIds | shared/site_quality.py:896-929 | known ids and uids of known recs become ids, each once, in request order |
| ReplyApply.RecsDocument.ExpandFilters | shared/site_quality.py:875-893 | the ids of the recs whose tier, severity or priority is named, or of all, sorted and each once |
| ReplyApply.RecsDocument.ApplyReply | shared/site_quality.py:956-974 | one reply writes its response on exactly its targets, on the last rec of those that share an id, and reports them in sorted order |
| ReplyApply.RecsDocument.ApplyUserResponses | shared/site_quality.py:932-976 | replies are applied in order through one id dictionary and every pair applied is reported, in order |
| ReplyApply.AssignedIdsDiffer | shared/site_quality.py:180-205 | the ids of one email are pairwise distinct, a rec keeps a uid it had, and nothing else of a rec changes |
| ReplyApply.ResolveIff | shared/site_quality.py:910-922 | an id stands for itself if a rec has it, and a uid of ten characters for the id of the last rec that carries it |
| ReplyApply.ResolvedAre | shared/site_quality.py:913-929 | resolving yields no duplicates and exactly what some requested selector stands for |
| ReplyApply.ResolvedInOrder | shared/site_quality.py:923-928 | what a shorter request resolves to comes first, unchanged |
| ReplyApply.ResolveTwiceIff | shared/site_quality.py:910-929 | resolving is idempotent on a document exactly when every id that a uid reaches resolves to itself |
| ReplyApply.ResolveTwice | shared/site_quality.py:917-922 | so it is when known ids start with rec- |
| ReplyApply.ResolveTwiceNeedsRecStyle | shared/site_quality.py:917-922 | a document where it is not |
| ReplyApply.FiltersUnite | shared/site_quality.py:880-893 | filter keywords combine as a union, and all selects every rec |
| ReplyApply.RecsHoldLastReply | shared/site_quality.py:953-974 | after any replies the last rec with an id holds the last reply with a known verb that selects it, and everything else is untouched |
| ReplyApply.ReplyWrites | shared/site_quality.py:953-972 | one reply writes its verb, time, notes, filters and how it matched on exactly the last rec of each id it names or reaches by tier, severity, priority or all |
| ReplyApply.AppliedAre | shared/site_quality.py:963-973 | it reports the ids it writes on, sorted and each once |
| ReplyApply.AllAppliedAre | shared/site_quality.py:953-976 | several replies report what each does on the recs as the earlier ones left them |
| ReplyApply.UidsSelectNothing | shared/site_quality.py:953-966 | a reply that names only uids changes no rec |
| FeedbackClaim.Run | agents/feedback-triage-agent/agent.py:82-155 | a run claims the rows it wins, at most max over all sources, and its steps are ones the protocol allows up to the last |
| FeedbackClaim.ClaimRows | agents/feedback-triage-agent/agent.py:96-114 | exactly the selected rows still found new are claimed, in order |
| FeedbackClaim.ClaimsBounded | agents/feedback-triage-agent/agent.py:90-93 | the shrinking limit keeps the claims of a run within max over all sources |
| FeedbackWorkers.StepSound | agents/feedback-triage-agent/agent.py:97-145 | every step of any run, a crash and an arrival keep the claims disjoint, bounded and consistent with the table |
| FeedbackWorkers.AlwaysSound | agents/feedback-triage-agent/agent.py:82-155 | so does every interleaving, with crashes anywhere |
| FeedbackWorkers.OncePerRow | agents/feedback-triage-agent/agent.py:97-155 | a row is claimed at most once, gets at most one final status and at most one recommendation, each after the one before |
| FeedbackWorkers.ClaimedOnceIff | agents/feedback-triage-agent/agent.py:97-145 | no history claims a row twice, however rows are classified, exactly when in every source the claimed and final statuses differ from the new one |
| FeedbackWorkers.NeverUnclaimedAgain | agents/feedback-triage-agent/agent.py:102-105 | a row that left the new status never returns to it |
| FeedbackWorkers.CrashedRowsAreStuck | agents/feedback-triage-agent/agent.py:118-155 | rows of a crashed run keep its last status and get no recommendation it had not emitted |
| FeedbackWorkers.CrashCanLoseAReport | agents/feedback-triage-agent/agent.py:143-155 | a run can crash with a row in the working status for which no recommendation exists |
| FeedbackWorkers.SameStatusClaimsTwice | agents/feedback-triage-agent/agent.py:97-145 | if the claimed status of a source or a final one equals its new one, some history claims one row of it twice |
| FeedbackRules.RunWrites | agents/feedback-triage-agent/agent.py:118-145 | a finished run wrote on each row it claimed, and no other, the status of what the row was judged to be |
| FeedbackRules.RunEmits | agents/feedback-triage-agent/agent.py:116-156 | its recommendations are exactly the claimed rows to be investigated |
| FeedbackRules.ClaimedAre | agents/feedback-triage-agent/agent.py:87-114 | a run claims exactly the rows it reads and wins, source by source |
| FeedbackRules.OldestFirst | agents/feedback-triage-agent/agent.py:90-114 | a run that claims a later report of a source claims every earlier one it can win |
| FeedbackRules.RoomForAll | agents/feedback-triage-agent/agent.py:90-93 | if no more reports wait than a run may take, it claims every one it can win |

## Left out

- Text normalisation (lower-casing, trimming, collapsing spaces, stripping punctuation and volatile parts of log excerpts) is taken as given, except where the reply parser does it itself; there letters, digits and spaces are the ASCII ones.
- Hashed ids (`proposal_id`, `opportunity_id`, `make_rec_uid`) are arbitrary functions.
- Reading and parsing files, SQL text, HTML and email, prompts, git pushes, release tags and the systemd, az and smoke-check tools: what they answer is an input. Dry-run flags of the queue scripts are not modelled.
- `_effective_cap`, `_cleanup_stale_pool_counters`, `_kill_stuck_scopes` and the backend classifier of the dispatcher: the caps, the running scopes and whether a dispatch goes through are inputs.
- The dispatcher's keys are collected after the producer loop instead of inside it; the result is the same list.
- A deploy or rollback command takes effect, if at all, before it returns; a revision swap that completes later is not modelled. Storage writes of the deployer's own report are left out.
- The text, severity and title of a mega-rec; only its id, page and sources matter here.
- Write errors of the requeue script and its report; `run_ts` strings are compared as Python does.
- The seen map of the doctor, its weekly digest and its log-write errors; the pair investigated is any the run could pick.
- Null values in key columns, errors of commit and rollback themselves, and a key column missing from the first row on Postgres, which the model treats as a failing statement as Azure SQL does.
- Accumulator entries without an id, a state or a count, which neither writer produces; `stats` and email rendering.
- Blueprint generation between the cap and the save of the app-store agent, which changes no state; finding reply verbs in the text.
- ReplyRoundTrip.QuotedReply: covers one verb with selectors, separators, spaces, commas and other lower-case words of letters, above a boundary on a new line and any text; a second verb, a separator or a weekday as such a word, other punctuation, other line breaks and a boundary inside the line of the reply are in the parser and outside the statement.
- `normalize_rec_type`, score tiers and the dispatch code of the shared module.
- The order in which feedback rows are selected; any unclaimed rows up to the limit may be.
