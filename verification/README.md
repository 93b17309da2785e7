# Upstream monitor: verified model

A Dafny model of the stateful core of the upstream monitor (a service that watches NewAPI and sub2api
sites, keeps local site tables in step with "main sites", audits request charges and logs price
changes), with proofs about it. `dafny verify dfyconfig.toml` checks everything.

SQL tables are maps, sets or sequences held in the fields of classes; a block the program runs under a
lock or in a transaction is one step. Upstream replies, clocks and stop requests are parameters, so every
statement holds for all of them. Each imperative operation is a method proved equal to a function on the
tables; the theorems are about those functions, over single steps and over whole runs.

## The parts

* **Browser-session sync** (`SessionSync`, `SessionOrigins`): one-time requests are created, claimed,
  validated outside the lock, committed by compare-and-swap and finished, interleaved with user edits,
  deletions and other writers.
* **Main-site sync** (`Urls`, `Candidates`, `SiteTables`, `MonitorStore`, `SyncTheorems`, `SyncSafety`,
  `SyncScope`): aggregation of channels into candidates, import, link reconcile, disabling, re-enabling and
  deleting sites, over one run and over runs of many main sites.
* **Key refresh scheduler** (`KeyRefresh`).
* **Billing audit** (`Paging`, `LogWindow`, `AuditMatching`, `AuditTheorems`, `AuditOutcome`, `Ingest`,
  `IngestStart`, `BillingRules`): paged reads of a log that grows while it is read, the shared log window,
  matching without reuse, cursor ingest, and the verdict arithmetic.
* **Credentials** (`CredentialRotation`, `AdminSession`): the access token, refresh token, password chain of
  a site with compare-and-swap writes, and the single-flight session of a main site.
* **Change log** (`ChangeLog`, `DiffMeaning`, `SiteDetection`, `DetectionRuns`, `RatioRollback`):
  differences of group snapshots, their replay over runs of detections, and the rollback of a displayed
  ratio.
* **Served caches and gates** (`RecentRequests`, `RequestGate`): re-timing of cached entries, reservation
  gates with cooldown.

`Options` and `Sets` hold a shared datatype and a lemma on set sizes.

## What the proofs found

Each of these is a property one would expect, a lemma with an input where it fails, and where possible
the exact condition under which it holds.

* A sync repeated with the same snapshot reports nothing exactly if every imported link's stored URL is
  still recognized as its channel's URL, and then it changes nothing (`SyncIdempotentIff`). Link URLs are
  cut to 512 characters, so that is a matter of the stripped URL's length (`LinkStaysIff`, `CutKeepsUrlIff`).
* "Sites never linked are untouched" fails when a link written for a site is dropped by the same run. A site
  that stays unlinked keeps its row exactly if the plan spares it: nothing is imported into it, or another
  main site links to it and it is not auto-disabled, or it is off already, sites are not deleted and no link
  written for it outlives the reconcile (`UnlinkedSiteUntouchedIff`, `NeverLinkedUntouchedIff`; a channel URL
  of 513 characters at the domain of another site in `LongUrlCostsTheSite`).
* Normalizing a URL twice is normalizing it once exactly if no blank is left in front of the trailing slashes
  (`NormalizeAgainIff`).
* An overtaken session completion changes nothing, except that it can still note a blocked validation in
  `session_failure_kind`, which is written without a condition (`OlderRequestChangesNothing`).
* A NewAPI completion checks and then writes without a condition. Over any run the writes follow creation
  order exactly if no newer request writes between a check and its write (`NewApiOrderKeptIff`,
  `NewApiWriteCanComeLate`); the compare-and-swap form makes sure of that (`GuardedNewApiWritesAscend`).
* The log window misses nothing strictly later than its target. It misses nothing at the target either,
  exactly if no log behind the pages read is at it (`CompleteFromIff`; in terms of the history and the page
  size in `FirstCallCompleteIff`; 101 logs of one second in `LogAtTargetCanBeMissed`).
* A run for selected channels is meant to leave the links of all others alone. It does so exactly for the
  oldest link of each channel that is at the channel's own URL (`UnaskedLinkStaysIff`).
* Auditing a row finds the nearest log unless the upstream's last page fails or the page budget is spent
  (`AuditedIsNearest`).
* Audit matching hands no upstream log to two requests, exactly if no usable upstream site is reached
  under two base URLs: contexts are kept per base URL (`InjectiveIff`).
* Ingest passes over logs when a pull ends at the page cap or at a stop, because the cursor still moves to
  the newest collected log; what is passed over is never picked up. While nothing arrives, a pull misses
  nothing exactly if the first log its pages do not hold is not above the cursor (`QuietPullGaplessIff`,
  `QuietRoundRowsIff`, `PassedOverForever`; 1001 new logs and ten pages of 100 in `CappedPullPassesOver`).
* The deduction in the honest-upstream bound is needed: a charge rounded up by half a quota is flagged at
  every allowed tolerance when the list cost happens to be rounded down (`HalfQuotaCanBeFlagged`).
* Key refreshes stamped no earlier than what is stored visit no channel twice, exactly if no refresh gets the
  stamp that a channel with a larger id, still to come, has already. Stamps have whole seconds; a refresh that
  gets the stamp of the channel next in line, which has the larger id, is repeated (`NoRepetitionIff`,
  `EqualStampRepeats`).
* A credential run that issues something keeps the pair exactly if it started from what the row held (not
  from an older token passed for a NULL column) and the refresh came with an access token
  (`LivePairKeptIff`, `StaleArgsLoseThePair`); in token mode exactly if the fetch after the refresh fails
  (`TokenModeStoresIff`). Where every refresh gives a new pair, no sequence of undisturbed runs loses it
  otherwise (`RotatingRunsKeepLive`), and neither where logins always give a refresh token
  (`GivingLoginsKeepLive`). Failing both, a login that gives none leaves an outdated result in the 30-second
  refresh cache, which a later run stores over the newer pair (`RunKeepsLive`, `SharedResultIff`,
  `OutdatedResultIsStored`).
* Login-stream changes are not recorded while the stored login groups are empty (`LoginRowsReplayIff`).
* The rollback does not tell groups apart, and unlike its docstring it continues over a change that does
  not fit instead of returning nothing. It is right exactly if its walk, once a change of something else has
  led it off the group's ratio, comes back to it (`RollbackRightIff`); after a single collision it gives the
  other change's old value, and so is right only where that is the group's ratio (`CollisionMisleads`).
* Re-timing a cached entry equals rebuilding it exactly if the upstream lists its rows newest first
  (`RetimingAgreesIff`).
* A slot reserved before a 429 is not given back. No request goes out inside the cooldown exactly if the last
  slot granted before the 429 is not ahead of it, or, where slots are queued a whole cooldown ahead, none of
  them lies inside (`CooldownRespectedIff`, `ReservedSlotOutlivesLimit`).

## Model

| member | source | states |
|---|---|---|
| `SessionSync.Store.Create` | backend/services/session_sync_service.py:148-214 | which targets are refused, and that a new pending request expires every active request of the same site |
| `SessionSync.Store.Claim` | backend/services/session_sync_service.py:467-521 | unknown, consumed, timed-out and wrong-secret claims are told apart in that order; only a good one makes the request validating |
| `SessionSync.Store.Finish` | backend/services/session_sync_service.py:524-609 | only an active request is ended, and the site's status follows unless another request is active |
| `SessionSync.Store.Commit` | backend/integrations/sub2api.py:1893-1981 | a validated session is stored exactly if the request is still the one being validated for an unchanged target |
| `SessionSync.Store.WriteSession` | backend/services/session_sync_service.py:889-944 | the compare-and-swap: when it writes, what it writes, and that requests are untouched |
| `SessionSync.Store.Reject` | backend/services/session_sync_service.py:947-988 | a failed validation marks the site expired only while the request is current |
| `SessionOrigins.PendingStep` | backend/services/session_sync_service.py:467-521 | a pending request becomes validating exactly when it is claimed with its secret before it expires; a wrong secret changes nothing, a late claim ends it |
| `SessionOrigins.StepKeepsTerms` | backend/services/session_sync_service.py:167-206 | a request keeps the target, secret and expiry it was created with, two minutes after its creation |
| `SessionOrigins.CreateShows` | backend/services/session_sync_service.py:167-206 | a new request closes every open one of its site, and the site shows that it waits |
| `SessionOrigins.ClaimShows` | backend/services/session_sync_service.py:505-521 | a claimed request carries the time of the claim, and its site shows that it is being validated |
| `SessionOrigins.FinishShows` | backend/services/session_sync_service.py:524-609 | the end of a request shows at its site, if that is still the kind of site it was created for |
| `SessionOrigins.RejectShows` | backend/services/session_sync_service.py:947-988 | a failed validation marks an unchanged target, and leaves its session alone |
| `SessionOrigins.NewApiWriteShows` | backend/services/session_sync_service.py:787-825 | a NewAPI completion stores its session in the same form |
| `SessionOrigins.BlockShows` | backend/services/session_sync_service.py:837-844 | a blocked validation is noted at the site and changes nothing else, whatever has become of the request |
| `SessionOrigins.SettingsChangeIf` | backend/integrations/sub2api.py:1893-1981 | only a stored session, a user edit or a deletion changes the tokens or the target of a site |
| `SessionOrigins.UserActsAtOnce` | backend/db/schema.py:230-249 | a user edit leaves the requests alone, a deletion takes those of the site along, and nothing else changes |
| `SessionSync.StepKeepsInv` | backend/services/session_sync_service.py:148-214 | every step by anybody keeps: of a site's requests only the newest can be active |
| `SessionSync.OneActivePerSite` | backend/services/session_sync_service.py:167-206 | in every reachable state at most one request of a site is pending or validating |
| `SessionSync.FinishNeverYields` | backend/services/session_sync_service.py:538-574 | the "another request is active" exit of finish is never taken in-process |
| `SessionSync.SupersededIsInert` | backend/services/session_sync_service.py:947-988 | no step on behalf of a superseded request changes anything but the failure kind |
| `SessionSync.OlderRequestChangesNothing` | backend/integrations/sub2api.py:1893-1981 | once a newer request was created, after any further steps, an older request of the site changes no token, mark, status or request; the one exception is the failure kind of a blocked validation |
| `SessionSync.TokensWrittenInCreationOrder` | backend/services/session_sync_service.py:889-944 | over every interleaving, sub2api completions write a site's tokens in request-creation order |
| `SessionSync.TokensWrittenInStrictOrder` | backend/services/session_sync_service.py:889-944 | and, as a completion starts with a successful claim and commits at most once, each write is by a strictly newer request |
| `SessionSync.TerminalIsAbsorbing` | backend/services/session_sync_service.py:524-574 | a request that ended never changes again |
| `SessionSync.ClaimedAtMostOnce` | backend/services/session_sync_service.py:467-521 | over any run a request is claimed at most once |
| `SessionSync.CompletionSucceeds` | backend/services/session_sync_service.py:612-886 | a completion nobody overtakes stores its session and ends ready |
| `SessionOrigins.StoredSessionWasClaimed` | backend/services/session_sync_service.py:467-521 | over any interleaving, a session is stored only for a request created for the site as it still is, and claimed with the secret of its creation within two minutes of it |
| `SessionOrigins.TokensChangeIf` | backend/services/session_sync_service.py:889-944 | over any run, tokens change only by those writes, NewAPI completions and user edits |
| `SessionSync.GuardedNewApiWritesAscend` | backend/integrations/newapi.py:257-320 | if every NewAPI write happens while its request is current, as the compare-and-swap form ensures, NewAPI completions write a site's tokens in creation order |
| `SessionSync.NewApiOrderKeptIff` | backend/services/session_sync_service.py:787-825 | over any run whose NewAPI writes were each checked some time before, the writes are in creation order exactly if no newer request writes between a check and its write |
| `SessionSync.NewApiWriteCanComeLate` | backend/services/session_sync_service.py:787-825 | a NewAPI completion that passed its check can overwrite a newer session |
| `Urls.NormalizeAgainIff` | backend/core/normalize.py:40-44 | normalizing twice is normalizing once, exactly if no blank is left in front of the slashes |
| `Urls.NormalizeNotIdempotent` | backend/core/normalize.py:40-44 | every URL followed by a blank and a slash is an example where it is not |
| `Urls.CutKeepsUrlIff` | backend/services/discovery_service.py:389-410 | a cut URL normalizes as the whole one does, exactly if the cut took only slashes and left no blank at the end |
| `Candidates.AggregateCandidates` | backend/integrations/newapi.py:85-139 | the grouping loop over dictionaries computes the aggregation of the channel list |
| `Candidates.AddChannel` | backend/integrations/newapi.py:85-139 | one channel goes to the candidate of its key, which is created in order of first appearance |
| `Candidates.AggregatePartitions` | backend/integrations/newapi.py:85-139 | each usable channel of a normalized list is in exactly one candidate, the three lists are index-aligned, and nothing else is in them |
| `Candidates.AggregateInOrder` | backend/integrations/newapi.py:85-139 | candidates come in the order of their first channels, with their channels in list order, called after the first channel with a name, or else by their base URL |
| `Candidates.RepeatedChannelFillsIn` | backend/integrations/newapi.py:111-131 | a channel that comes up again adds no position and only fills in what was missing |
| `Candidates.UsableIff` | backend/integrations/newapi.py:93-105 | a channel counts exactly if it has an id and a normalized URL that passes the check |
| `Candidates.SameCandidateIff` | backend/integrations/newapi.py:93-139 | two usable channels are in one candidate exactly if their URLs share a merge key; a URL that has none stands for itself |
| `Candidates.CheckedAgainIff` | backend/services/sync_service.py:348-356 | a checked URL is the same when checked again, exactly if it does not end in a blank |
| `Candidates.LiveChannelUrls` | backend/services/discovery_service.py:447-467 | the loops compute the table of live URLs |
| `Candidates.LiveUrlOfChannel` | backend/services/discovery_service.py:447-467 | the live-URL table of the aggregation maps each usable channel back to its own URL, or to its candidate's if its own is empty once normalized again |
| `Candidates.LiveChannelIsUsable` | backend/services/discovery_service.py:447-467 | and has no other channel |
| `SiteTables.FitIfAny` | backend/services/discovery_service.py:258-281 | a site is found for a base URL whenever one matches exactly, up to a trailing slash, or by registered domain |
| `MonitorStore.Database.FindSite` | backend/services/discovery_service.py:258-281 | the site found is the best fit: exact URL, then trailing-slash variant, then oldest of the same domain |
| `MonitorStore.Database.ImportCandidate` | backend/services/discovery_service.py:243-411 | reuses the best fitting site or creates one, and writes one link per channel |
| `MonitorStore.Database.UpsertLinks` | backend/services/discovery_service.py:376-410 | links are inserted or rewritten with the channel's own URL and name, cut to the column widths |
| `MonitorStore.Database.ImportAll` | backend/services/sync_service.py:441-478 | remembers which site each channel went to and counts the sites created |
| `MonitorStore.Database.ReconcileLinks` | backend/services/discovery_service.py:470-543 | deletes exactly the stale and the duplicate links of this main site, and reports the sites it touched |
| `MonitorStore.Database.DeleteStaleChannelData` | backend/services/sync_service.py:118-161 | bindings and keys of vanished channels go, others stay, and the counts are the rows removed |
| `MonitorStore.Database.ReconcileSite` | backend/services/sync_service.py:164-234 | one site is re-enabled, disabled, deleted or left alone as its remaining links and the mode say |
| `MonitorStore.Database.ApplyReconcile` | backend/services/sync_service.py:164-234 | all touched and linked sites are reconciled, and the three counters are right |
| `MonitorStore.Database.DeleteMismatched` | backend/services/sync_service.py:264-330 | links at mismatched base URLs go, and sites that thereby lose their last link |
| `MonitorStore.Database.CheckUrls` | backend/services/sync_service.py:348-356 | every channel's URL is replaced by the checked one before the aggregation checks it again |
| `MonitorStore.Database.Sync` | backend/services/sync_service.py:333-565 | the whole sync equals the composed stages and reports their counts; an invalid main site or channel URL changes nothing |
| `SyncTheorems.MakePlanOk` | backend/services/sync_service.py:382-440 | whatever the scope, what a run imports is a well-formed part of the aggregation with each channel's live URL |
| `SyncTheorems.LinkStaysIff` | backend/services/discovery_service.py:389-410 | a stored link stays exactly if its stripped URL fits the column and is not that of a mismatched site |
| `SyncTheorems.ImportAllAttaches` | backend/services/discovery_service.py:243-411 | after the import every imported channel has its link at the site preferred for it |
| `SyncTheorems.ImportAllFrame` | backend/services/discovery_service.py:243-411 | only links of imported channels of this main site are new or rewritten |
| `SyncTheorems.SyncCleansUp` | backend/services/sync_service.py:441-494 | after a run this main site has at most one link per channel, each carrying the channel's live URL, and no binding or key of a vanished channel |
| `SyncTheorems.SyncLeavesOthers` | backend/services/sync_service.py:333-565 | links, bindings and keys of other main sites are untouched, and their sites stay |
| `SyncTheorems.SyncSettles` | backend/services/sync_service.py:333-565 | one run reaches a settled state if imported links stay recognizable |
| `SyncTheorems.SettledIsFixed` | backend/services/sync_service.py:333-565 | a settled state is a fixed point, and the run reports zeros |
| `SyncTheorems.UnrecognizedLinkIsDropped` | backend/services/discovery_service.py:470-543 | a link that is not recognized is dropped again by every run |
| `SyncTheorems.SyncIdempotentIff` | backend/services/sync_service.py:333-565 | repeating a sync with the same snapshot reports nothing exactly if every imported link stays recognizable, and then it changes no table |
| `SyncSafety.EveryChannelLinkedIff` | backend/services/discovery_service.py:470-543 | after a sync of all channels each channel has at most one link, at its own URL, and a usable channel has one exactly if the link written for it is recognized or an older one of its own stays elsewhere |
| `SyncSafety.SyncOnSite` | backend/services/sync_service.py:164-234 | a site is auto-disabled or deleted only when no link of any main site remains, and re-enabled only if it was auto-disabled |
| `SyncSafety.StaysLinkedIff` | backend/services/discovery_service.py:470-543 | a site that was not linked is linked after a run exactly if some link written for it stays |
| `SyncSafety.UnlinkedSiteUntouchedIff` | backend/services/sync_service.py:164-234 | for every plan, a site without links of this main site before and after keeps its row exactly if the plan and the tables spare it; otherwise, if nobody else links to it, it is auto-disabled or deleted |
| `SyncSafety.RecognizedLinksSpare` | backend/services/sync_service.py:164-234 | a plan whose links all stay recognizable spares every site it leaves unlinked |
| `SyncSafety.HandDisabledForever` | backend/services/sync_service.py:164-234 | over any run a site disabled by hand is never switched on |
| `SyncSafety.DeletedForever` | backend/services/sync_service.py:164-234 | a deleted site id never comes back |
| `SyncSafety.RunKeepsAutoDisabledUnlinked` | backend/services/sync_service.py:164-234 | over any run, auto-disabled sites have no link from any main site |
| `SyncSafety.ReturningLinkReenables` | backend/services/sync_service.py:164-234 | an auto-disabled site whose link returns is enabled by that sync |
| `SyncSafety.NeverLinkedUntouchedIff` | backend/services/sync_service.py:164-234 | over any run of any main sites, a site never linked keeps its row exactly if every step spares it |
| `SyncSafety.UnrecognizedLinkCostsTheSite` | backend/services/discovery_service.py:389-410 | in any plan, a candidate whose links do not stay costs the unlinked site it goes to: it is switched off or deleted |
| `SyncSafety.LongUrlCostsTheSite` | backend/services/discovery_service.py:389-410 | a channel URL of 513 characters at the domain of an enabled, never linked site gets that site disabled and leaves it without a link |
| `SyncSafety.RunKeepsOnePerMergeKey` | backend/services/discovery_service.py:258-360 | over any run there is at most one site per merge key if that held before |
| `SyncScope.NewSiteWasAsked` | backend/services/sync_service.py:382-478 | a site that a run creates belongs to a candidate in the scope: all, those on a platform that can be synchronized, or of these the ones with a selected channel |
| `SyncScope.NewLinkWasAsked` | backend/services/discovery_service.py:376-410 | and so does every link that a run adds or rewrites; it leads to the best fitting site and carries the channel's own URL and name |
| `SyncScope.WrittenLinkHasUrl` | backend/services/discovery_service.py:376-410 | no link is written without a URL |
| `SyncScope.AskedIsAttached` | backend/services/sync_service.py:441-478 | every candidate in the scope whose links are recognizable ends attached to its best fitting site, with a link for each channel |
| `SyncScope.UnaskedLinkStaysIff` | backend/services/sync_service.py:430-440 | a channel outside the scope gets no link; of those it has, exactly the oldest that is its own stays, as it is, unless it leads to an excluded site |
| `SyncScope.ExcludedAreGone` | backend/services/sync_service.py:264-330 | after a sync of what is recognized, no link of this main site leads to a site found to be something else |
| `SyncScope.ListedChannelsKeepData` | backend/services/sync_service.py:118-161 | whatever the scope, bindings and keys stay exactly for channels still listed, and only usable listed channels have links |
| `SyncScope.ReportCounts` | backend/services/sync_service.py:495-565 | the report accounts for every site created and deleted and every link, binding and key removed |
| `SyncScope.ReportCountsSwitches` | backend/services/sync_service.py:164-234 | and, where nothing is excluded, for every site switched off or on again |
| `SyncScope.FitMeans` | backend/services/discovery_service.py:258-281 | the best fit is the oldest site with the URL itself, or else up to trailing slashes, or else of the domain |
| `KeyRefresh.KeyTable.RefreshNext` | backend/services/sync_service.py:568-635 | which channel is read, what is stored, and the reported batch size |
| `KeyRefresh.KeyTable.RunDue` | backend/services/sync_service.py:651-661 | at most three refreshes, going on only while the last one succeeded and left some of the batch; if all succeed, as many as the proof does not cover, but at least one |
| `KeyRefresh.BatchKeepsChoice` | backend/services/sync_service.py:596-615 | restricting the choice to the proof batch never changes the channel chosen |
| `KeyRefresh.RemainingIff` | backend/services/sync_service.py:597-634 | `batch_remaining` is the size of the next batch, exactly if there is no proof or the new stamp is not older than it |
| `KeyRefresh.NoRepetitionIff` | backend/services/sync_service.py:568-635 | refreshes stamped no earlier than what is stored, under any proofs, visit no channel twice exactly if no refresh gets the stamp a channel with a larger id, still to come, has already |
| `KeyRefresh.RoundRobin` | backend/services/sync_service.py:568-635 | any n consecutive successful refreshes of n channels with rising stamps visit each channel exactly once, in the order of the earlier fetches, whatever the proofs |
| `KeyRefresh.EqualStampRepeats` | backend/repositories/admin_sites.py:178-193 | a refresh that gets the stamp of the channel next in line is repeated, however late the next one comes, if its channel has the smaller id |
| `Paging.NoGap` | backend/services/billing_audit_service.py:294-340 | logs arriving between reads push the next page back, never forward, also when page 1 repeats page 0 |
| `LogWindow.UpstreamContext.FetchPage` | backend/services/billing_audit_service.py:315-340 | one page: failure, empty page, repeated first key, or append and update the oldest time |
| `LogWindow.UpstreamContext.Ensure` | backend/services/billing_audit_service.py:294-340 | the paging loop terminates and computes the extended window |
| `LogWindow.EnsureEnds` | backend/services/billing_audit_service.py:309-314 | why a call returned: covered, exhausted, budget spent, or stopping |
| `LogWindow.SkippedPageIsKnown` | backend/services/billing_audit_service.py:331-335 | skipping a page with a repeated first key loses nothing |
| `LogWindow.WindowIsExact` | backend/services/billing_audit_service.py:294-340 | after any calls the window holds exactly what the pages read held, and `oldest` is its oldest time |
| `LogWindow.WindowHoldsPrefix` | backend/services/billing_audit_service.py:294-340 | the window holds a contiguous newest-first stretch of the history as of the first read |
| `LogWindow.CoveredMeansComplete` | backend/services/billing_audit_service.py:308-314 | a window that covers the target has every log of that history strictly later than it |
| `LogWindow.EmptyPageMeansComplete` | backend/services/billing_audit_service.py:328-330 | an empty page means the whole of that history is in the window |
| `LogWindow.EndedForGood` | backend/services/billing_audit_service.py:308-330 | a page that fails or is empty is the last one asked for in the round, whatever later rows need |
| `LogWindow.QuietWindowIsPrefix` | backend/services/billing_audit_service.py:331-340 | while nothing arrives and no page fails, the window lists exactly the newest logs, each once and newest first |
| `LogWindow.CompleteFromIff` | backend/services/billing_audit_service.py:308-314 | a covered window is complete down to the target itself, exactly if no log behind the pages read is at the target |
| `LogWindow.FirstCallCompleteIff` | backend/services/billing_audit_service.py:298-345 | while nothing arrives and no page fails, the first call reads the pages up to the first log not later than the target, and is complete down to the target exactly if the first log behind them is older, whether or not page 1 repeats page 0 |
| `LogWindow.LogAtTargetCanBeMissed` | backend/services/billing_audit_service.py:311-314 | with pages of 100, the last of 101 logs of one second is missed |
| `AuditMatching.BuildUsedMap` | backend/services/billing_audit_service.py:240-258 | each site and log id is mapped to the references of the rows that use it, in order |
| `AuditMatching.AlreadyUsed` | backend/services/billing_audit_service.py:261-291 | true exactly if some reference, or the lack of a time, says the log was consumed |
| `AuditMatching.AuditRun.FindBest` | backend/services/billing_audit_service.py:511-546 | the loop picks the first of the nearest eligible logs |
| `AuditMatching.AuditRun.AuditRow` | backend/services/billing_audit_service.py:468-558 | one row: every grey outcome, the shared context, the match and the log it takes; nothing else changes |
| `AuditMatching.AuditRun.AuditRows` | backend/services/billing_audit_service.py:782-799 | a round audits its rows in order on contexts of its own |
| `AuditTheorems.BestIsFirstNearest` | backend/services/billing_audit_service.py:511-550 | a row is unmatched exactly if no log is eligible; otherwise the chosen log is eligible and the first of the nearest |
| `AuditTheorems.BuiltMapReflects` | backend/repositories/billing_audit.py:384-400 | the map built from the rows with a log keeps every use of the table |
| `AuditTheorems.FreeIsUnheld` | backend/services/billing_audit_service.py:511-522 | a log that passes the two reuse checks is held by no other row |
| `AuditTheorems.RunKeepsInjective` | backend/services/billing_audit_service.py:771-799 | over any run of rounds, new requests and pruning, no two rows hold the same upstream site, log id and log time |
| `AuditTheorems.MatchedIsFinal` | backend/repositories/billing_audit.py:323-365 | a matched row is never audited again |
| `AuditTheorems.InjectiveIff` | backend/services/billing_audit_service.py:490-494 | matching stays injective exactly if no usable upstream site is reached under two base URLs |
| `AuditTheorems.MatchIsNearestOverall` | backend/services/billing_audit_service.py:503-550 | on a covered window the match is nearest among all eligible logs of the upstream strictly inside the time window |
| `AuditTheorems.RoundWindowsOk` | backend/services/billing_audit_service.py:782-799 | all windows of a round satisfy the premise of the previous row |
| `AuditOutcome.ReferencedIff` | backend/services/billing_audit_service.py:240-258 | the logs kept out of a round are exactly those the earlier rows hold, each under its own site and id and at its own time |
| `AuditOutcome.RowOutcome` | backend/services/billing_audit_service.py:468-513 | which of the grey states a row is left in, the site it names, and that its request columns stay |
| `AuditOutcome.StoppedRowWaits` | backend/services/billing_audit_service.py:294-314 | a row met by the stop event is left for another round: no page is read from there on, and no log is taken |
| `AuditOutcome.RoundGoesOn` | backend/services/billing_audit_service.py:782-796 | a round goes through its rows in order, and can be cut anywhere into two |
| `AuditOutcome.RoundAuditsItsRows` | backend/services/billing_audit_service.py:782-796 | every row of a round is audited in it, and no other row is touched |
| `AuditOutcome.StoppedRoundIs` | backend/services/billing_audit_service.py:468-507 | the row met by the stop event is left out of the round if its logs are to be read, and audited like any other if not |
| `AuditOutcome.AuditPagesFarEnough` | backend/services/billing_audit_service.py:294-314 | auditing a row pages until a log is as old as the request less the window, or the upstream has no more, or the page budget is spent |
| `AuditOutcome.EligibleIff` | backend/services/billing_audit_service.py:511-545 | a log is eligible exactly if its model, tokens and time fit and neither this round nor an earlier row has spent it |
| `AuditOutcome.MatchedIff` | backend/services/billing_audit_service.py:511-558 | a row is matched exactly if such a log is in its window; it gets the first of the nearest, which is spent from then on |
| `AuditOutcome.AuditedIsNearest` | backend/services/billing_audit_service.py:468-558 | no such log of the upstream's history strictly inside the time window is nearer than the one the row got, unless the last page failed or the page budget was spent |
| `Ingest.PullNewMainLogs` | backend/services/billing_audit_service.py:662-689 | the pull loop: first run takes one page, later runs go back to the cursor |
| `Ingest.MainSite.InsertBillingCheck` | backend/repositories/billing_audit.py:280-320 | a second insert of the same log does nothing |
| `Ingest.MainSite.RunForAdminSite` | backend/services/billing_audit_service.py:692-769 | rows and cursor after a round; a failed pull changes nothing |
| `Ingest.PullCollects` | backend/services/billing_audit_service.py:662-689 | a pull collects exactly the logs above the cursor on the pages it read |
| `Ingest.PullEndsAt` | backend/services/billing_audit_service.py:669-688 | how a pull ends: at the first page that fails, is empty or reaches the cursor, or at the cap or the stop in front of it |
| `Ingest.FailedPageChangesNothing` | backend/services/billing_audit_service.py:692-769 | a round that comes to a page that cannot be read changes neither rows nor cursor |
| `Ingest.PagesCover` | backend/services/billing_audit_service.py:669-688 | the pages read leave no gap between the newest of them and the end of the last |
| `Ingest.PullGaplessIff` | backend/services/billing_audit_service.py:669-688 | whatever arrives meanwhile and wherever the pull ends, it misses nothing up to its newest log, exactly if whatever lies behind its last page above the cursor had been on an earlier page |
| `Ingest.QuietPullCollects` | backend/services/billing_audit_service.py:669-688 | while nothing arrives and no page fails, a pull collects exactly those of the newest logs, as many as its pages hold, that are above the cursor |
| `Ingest.QuietPullGaplessIff` | backend/services/billing_audit_service.py:669-688 | and misses nothing exactly if the first log the pages do not hold is not above the cursor; one that misses something ended at the page cap or at the stop |
| `Ingest.GoodPullIsGapless` | backend/services/billing_audit_service.py:678-688 | a pull that ends at the cursor or at the end of the log misses nothing |
| `Ingest.ExactlyOnce` | backend/services/billing_audit_service.py:692-769 | over any run of such or failed pulls, every timestamped log above the first cursor and up to the current one has exactly one row, with its time in seconds, model and tokens |
| `IngestStart.FirstPullTakesPage` | backend/services/billing_audit_service.py:676-687 | without a cursor a pull takes all of page 0 and no more |
| `IngestStart.FirstRoundMovesIff` | backend/services/billing_audit_service.py:692-769 | the cursor leaves 0 exactly if page 0 could be read and has a log with an id; otherwise nothing changes |
| `IngestStart.FirstRoundFills` | backend/services/billing_audit_service.py:692-769 | after the first page the cursor is its greatest id and each of its timestamped logs has exactly one row |
| `IngestStart.ExactlyOnceFromStart` | backend/services/billing_audit_service.py:662-769 | from the first page on, over any run, every timestamped log up to the cursor has exactly one row |
| `Ingest.CursorNeverFalls` | backend/services/billing_audit_service.py:766-769 | the cursor never decreases |
| `Ingest.PassedOverForever` | backend/services/billing_audit_service.py:766-769 | no later round adds a row at or below the cursor |
| `Ingest.QuietRoundRowsIff` | backend/services/billing_audit_service.py:692-769 | after such a round and any later ones a new log has its row, exactly if it was among the newest that the pages held |
| `Ingest.CappedPullPassesOver` | backend/services/billing_audit_service.py:669-688 | with 1001 new logs, a pull of ten pages of 100 ends at the page cap and the oldest never gets a row, whether or not page 1 repeats page 0 |
| `BillingRules.Round10Near` | backend/services/billing_audit_rules.py:60-60 | rounding moves a list cost by at most half a step |
| `BillingRules.Round10Means` | backend/services/billing_audit_rules.py:60-60 | and halfway cases go to the even digit |
| `BillingRules.TokenWeights` | backend/services/billing_audit_rules.py:46-59 | no tokens weigh nothing, and what one more token of each kind adds |
| `BillingRules.TokenQuotas` | backend/services/billing_audit_rules.py:28-60 | the same in quota, with missing ratios read as 1 |
| `BillingRules.ListCostIff` | backend/services/billing_audit_rules.py:28-60 | when there is a list cost, and that it is the price of the call or of the tokens in dollars, rounded |
| `BillingRules.RedIff` | backend/services/billing_audit_rules.py:63-83 | red exactly if the charge exceeds the displayed price by more than the tolerance and by more than the allowance |
| `BillingRules.HonestUpstreamNotFlagged` | backend/services/billing_audit_rules.py:63-83 | a charge within half a quota (less the rounding of the list cost) of the displayed price is never red, at any tolerance |
| `BillingRules.HalfQuotaCanBeFlagged` | backend/services/billing_audit_service.py:608-637 | at exactly half a quota it can be red at every allowed tolerance |
| `BillingRules.RedMonotoneInCharge` | backend/services/billing_audit_rules.py:63-83 | a higher charge never clears a red verdict |
| `BillingRules.RedAntitoneInDisplayed` | backend/services/billing_audit_rules.py:63-83 | a higher displayed ratio never turns a clear verdict red |
| `BillingRules.RedAntitoneIff` | backend/services/billing_audit_rules.py:63-83 | for all ratios, negative ones included, that holds exactly at tolerances up to 100 percent |
| `BillingRules.CacheMoveWeight` | backend/services/billing_audit_rules.py:46-59 | prompt tokens read from the cache are not counted twice: moving them changes the weight by the discount only |
| `BillingRules.CacheNeverDearer` | backend/services/billing_audit_rules.py:28-60 | more cache reads at a ratio of at most 1 never raise the list cost |
| `CredentialRotation.Session.Persist` | backend/integrations/sub2api.py:2077-2123 | writes only if the row still holds the expected pair, keeps columns for which nothing new came |
| `CredentialRotation.Session.Refresh` | backend/integrations/sub2api.py:1268-1288 | a young cached result is shared, otherwise the upstream issues a pair, possibly without an access token or with the old refresh token |
| `CredentialRotation.Session.FetchWithAuthFallback` | backend/integrations/sub2api.py:1581-1785 | the chain of access token, refresh token and password, with every early exit |
| `CredentialRotation.RunKeepsLive` | backend/integrations/sub2api.py:1581-1785 | after a finished run in browser mode the row holds the newest pair issued, and the cache agrees with it exactly if no login overtook a remembered result |
| `CredentialRotation.RotatingRunsKeepLive` | backend/integrations/sub2api.py:1581-1785 | where every refresh gives a new pair, the row holds the newest pair after any sequence of runs by the sole holder, and no result is remembered for its refresh token |
| `CredentialRotation.GivingLoginsKeepLive` | backend/integrations/sub2api.py:1581-1785 | likewise where a refresh may keep the refresh token but every login gives one |
| `CredentialRotation.RunsKeepLive` | backend/integrations/sub2api.py:1581-1785 | with any upstream, after any sequence of runs in which no access token is withheld and no login overtakes a remembered result |
| `CredentialRotation.OutdatedResultIsStored` | backend/integrations/sub2api.py:1268-1288 | where a refresh keeps the refresh token and the following login gives none, the next run can store the overtaken pair |
| `CredentialRotation.SharedResultIff` | backend/integrations/sub2api.py:1268-1288 | a run that shares a remembered result stores the live pair exactly if no login has overtaken that result |
| `CredentialRotation.LiveChangesIff` | backend/integrations/sub2api.py:1581-1785 | the upstream's newest pair changes exactly if the run reaches an honoured refresh or a login |
| `CredentialRotation.LiveChangesInOtherModesIff` | backend/integrations/sub2api.py:1581-1785 | with stored passwords a run logs in and writes nothing; with stored tokens it refreshes and never logs in |
| `CredentialRotation.ReadyIff` | backend/integrations/sub2api.py:1700-1785 | a run turns the site ready exactly if a fetch succeeded with tokens it obtained itself |
| `CredentialRotation.ArgsStandIn` | backend/integrations/sub2api.py:1592-1622 | for a deleted site or a NULL column the caller's own mode and tokens stand in, and a deleted site is not written |
| `CredentialRotation.LivePairKeptIff` | backend/integrations/sub2api.py:1581-1785 | the live pair is kept exactly if nothing is issued, or the run starts from what the row holds and the access token is not withheld |
| `CredentialRotation.StaleArgsLoseThePair` | backend/integrations/sub2api.py:1592-1627 | NULL columns and an older token passed by the caller lose the new pair |
| `CredentialRotation.EarlyForeignWriteIff` | backend/integrations/sub2api.py:2108-2123 | what someone else writes before the run's first write stands, exactly if no later write of the run expects those very tokens |
| `CredentialRotation.LateForeignWriteIff` | backend/integrations/sub2api.py:2108-2123 | and likewise before the write of a login |
| `CredentialRotation.TokenModeStoresIff` | backend/integrations/sub2api.py:1708-1720 | in token mode a rotated pair is stored exactly if the following fetch fails |
| `AdminSession.Sessions.Ensure` | backend/integrations/sub2api.py:757-822 | when the stored token is returned, refreshed or replaced by a login |
| `AdminSession.AnswerIsIssued` | backend/integrations/sub2api.py:757-822 | a caller never gets back the token it had rejected |
| `AdminSession.StoredTokenIff` | backend/integrations/sub2api.py:776-790 | the stored token is handed out exactly if it is good for more than a minute, or for a rejection of another token |
| `AdminSession.NewTokenShows` | backend/integrations/sub2api.py:792-822 | otherwise a new one is issued by a refresh, or else by a login, with the lifetime of that reply; only a refresh that gave none keeps the refresh token |
| `AdminSession.HandedOutIsGood` | backend/integrations/sub2api.py:783-790 | over any run without edits, a stored token that is handed out comes from a reply whose lifetime ends more than a minute later |
| `AdminSession.OnePerToken` | backend/integrations/sub2api.py:778-785 | over any run the rejection of one token causes at most one reissue |
| `AdminSession.ReissuesBounded` | backend/integrations/sub2api.py:757-871 | successful reissues caused by rejections never exceed the number of distinct rejected tokens |
| `AdminSession.NamelessRejectionsRepeat` | backend/integrations/sub2api.py:778-785 | a forced call that does not name the rejected token always reissues |
| `ChangeLog.DiffGroups` | backend/repositories/changes.py:119-224 | the loops emit additions, removals and changes in that order |
| `ChangeLog.DiffItem` | backend/repositories/changes.py:152-222 | the comparison of one group: ratio, description, five fields, models |
| `ChangeLog.DiffReplays` | backend/repositories/changes.py:119-224 | replaying the difference of two snapshots on the older gives the newer, on names and the seven tracked fields |
| `ChangeLog.DiffReplaysModelsIff` | backend/repositories/changes.py:198-222 | a group's models come out right exactly if it is new or both snapshots agree on whether they list models |
| `ChangeLog.DiffEmptyIff` | backend/repositories/changes.py:119-224 | the difference is empty exactly if nothing tracked differs |
| `DiffMeaning.DiffIff` | backend/repositories/changes.py:119-224 | a change is in the difference exactly if it is so of the two snapshots, old and new value included |
| `DiffMeaning.DiffInOrder` | backend/repositories/changes.py:119-224 | added groups, removed groups, then the others by name, each with its fields in order and then its models |
| `DiffMeaning.DiffReportsOnce` | backend/repositories/changes.py:119-224 | nothing is reported twice |
| `SiteDetection.MonitoredSite.DetectSite` | backend/services/monitoring_service.py:310-475 | a failure only counts (three in a row make the site failed), a success logs the differences of both streams and becomes the latest snapshot |
| `DetectionRuns.HealthIs` | backend/services/monitoring_service.py:310-475 | over any run the site is failing exactly from the third failure in a row on, and when it is in a warning state |
| `DetectionRuns.LoggedIff` | backend/services/monitoring_service.py:310-475 | a row is in the log of a run exactly if a detection found that change between the last success, or the last login groups read, and what it read |
| `SiteDetection.LogReplays` | backend/services/monitoring_service.py:310-475 | replaying the public rows of any run from the first success snapshot gives the latest one |
| `SiteDetection.LogReplaysExactly` | backend/services/monitoring_service.py:310-475 | models included, where every snapshot lists them |
| `SiteDetection.DiffReplaysExactlyIff` | backend/repositories/changes.py:198-222 | the replay of a difference is exact, exactly if no group gains or loses its list of models |
| `SiteDetection.LoginRowsReplayIff` | backend/services/monitoring_service.py:381-401 | the login rows of a detection lead to the new login groups exactly if some were stored or there are none |
| `RatioRollback.RatioChangesBySite` | scripts/backfill_billing_v7.py:52-77 | the numeric ratio changes of a site, in order |
| `RatioRollback.DisplayedRatioAt` | scripts/backfill_billing_v7.py:80-103 | the backward walk with its early stop, and nothing for no ratio |
| `RatioRollback.RatioChangesIff` | scripts/backfill_billing_v7.py:52-77 | the walk goes by exactly the rows of a change from one number or Boolean to another |
| `RatioRollback.OneChangeBack` | scripts/backfill_billing_v7.py:92-102 | a later change applies if its new value is the value at hand up to one in a billion |
| `RatioRollback.RollbackInvertsHistory` | scripts/backfill_billing_v7.py:80-103 | the walk equals going back along the group's own changes, if they form a chain and no other change collides |
| `RatioRollback.RollbackRightIff` | scripts/backfill_billing_v7.py:80-103 | over any log in which the group's own changes form a chain, the walk ends at the group's ratio exactly if it stays on track, or comes back after every change that led it astray |
| `RatioRollback.CollisionMisleads` | scripts/backfill_billing_v7.py:96-102 | after a single collision that nothing older meets, the walk ends at the colliding change's old value; it is right exactly if that is the group's ratio at the request |
| `RatioRollback.RatioInDiff` | backend/repositories/changes.py:148-170 | a difference has exactly one ratio change of a group whose ratio differs, and none otherwise |
| `RatioRollback.RollbackFindsRatioInForce` | scripts/backfill_billing_v7.py:80-103 | rolling the ratio stored by an audit back along the whole log, later changes included, gives the ratio of the last success snapshot at or before the request, exactly if the walk returns to it; in particular if no change collides |
| `RecentRequests.BuildEntry` | backend/services/channel_logs_service.py:98-143 | the loop with its early stop builds the entry; a failed read gives an error entry |
| `RecentRequests.RederiveEntryTiming` | backend/services/channel_logs_service.py:181-202 | re-timing of an active entry |
| `RecentRequests.BuiltShows` | backend/services/channel_logs_service.py:98-143 | an entry of newest-first rows shows exactly the rows in the window, with their age, staleness and level |
| `RecentRequests.ServedLater` | backend/services/channel_logs_service.py:181-202 | an entry that is not active is served as it is; an active one is idle once none of its points is in the window |
| `RecentRequests.RetimingAgrees` | backend/services/channel_logs_service.py:162-202 | for newest-first rows, re-timing an entry later equals rebuilding it then |
| `RecentRequests.RetimingAgreesIff` | backend/services/channel_logs_service.py:111-122 | and only for those |
| `RecentRequests.RetimingComposes` | backend/services/channel_logs_service.py:181-202 | re-timing twice is re-timing once |
| `RequestGate.Gates.Reserve` | backend/integrations/newapi.py:948-963 | a refusal in the cooldown, or a slot, per gate |
| `RequestGate.Gates.SetFastMode` | backend/integrations/newapi.py:1044-1054 | switches the interval of one gate only |
| `RequestGate.SlotIsEarliest` | backend/services/channel_logs_service.py:258-268 | a slot is never in the past, at least one interval behind the last one, and no later than that requires |
| `RequestGate.SlotsAreSpaced` | backend/integrations/newapi.py:948-963 | over any run, slots are apart by at least the intervals in force |
| `RequestGate.KeySlotsAreSpaced` | backend/integrations/newapi.py:948-963 | a quarter of a second always, two seconds while no full refresh is running |
| `RequestGate.KeySlotIs` | backend/integrations/newapi.py:948-963 | over any run, a slot is put off by exactly what is missing of two seconds, or of a quarter of a second while a full refresh is running, since the last one |
| `RequestGate.NoReservationInCooldown` | backend/integrations/newapi.py:949-952 | after a 429 no slot is reserved until the cooldown is over |
| `RequestGate.RefusedIff` | backend/integrations/newapi.py:948-963 | over any run, a request is refused exactly if a 429 came less than half a minute before it |
| `RequestGate.CooldownRespectedIff` | backend/integrations/newapi.py:948-999 | over any run with a 429, no slot falls inside the cooldown exactly if the last slot granted before is not ahead of the 429 (where none is queued beyond the cooldown) |
| `RequestGate.ReservedSlotOutlivesLimit` | backend/integrations/newapi.py:964-999 | a slot reserved before the 429 is used during the cooldown |

## Left out

- HTTP transport, JSON and HTML parsing, message texts and failure classification: replies are parameters.
- URL parsing: the merge key and the origin are uninterpreted; `normalize_base_url` is modelled with ASCII blanks only.
- `_import_discovered_site_item`: the branch for losing an insert race and the width of `sites.base_url`; which of several trailing-slash variants MySQL returns (the oldest here); MySQL collations.
- Timestamps, snapshot JSON and hashes of the main-site sync, and its batch progress counters.
- A channel key that comes back masked or empty, which is not stored: a successful refresh here is one that stores a key.
- The back-off schedule and the next-run time of `run_due_admin_key_syncs`, and the key batch workers.
- The order and the limit of the rows a billing round selects: the matching theorems hold for every order.
- Amounts and verdict columns of an audited row, price-card snapshots and notifications. `judgeSub2apiUpstream` reads a name that is never assigned (`backend/services/billing_audit_sub2api.py:74`), so a row without a published ratio raises there; the model has no such branch.
- AuditTheorems.RunKeepsInjective: rows written before the log-time column existed take part only as references, and log ids of 0, which the program reads as missing, are exempt.
- Ingest.ExactlyOnce: does not include the retention clean-up; what lies behind the first page of the first run is never ingested, on purpose (`IngestStart.ExactlyOnceFromStart` starts there).
- LogWindow.CoveredMeansComplete: assumes that the upstream deletes nothing during a round and serves full pages of the size asked for.
- BillingRules.HonestUpstreamNotFlagged: over reals; floating-point error beyond the explicit 10-decimal rounding is not modelled.
- CredentialRotation.RunsKeepLive: browser mode only (in token mode it is false, see `TokenModeStoresIff`), and without a login that overtakes a remembered refresh result (false then, see `OutdatedResultIsStored`). The payload returned to the caller and token expiry columns are not modelled.
- LogWindow.FirstCallCompleteIff: one call, and logs that all have a time; `CompleteFromIff` covers any calls.
- AdminSession.ReissuesBounded: assumes that the main-site row exists while calls run.
- ChangeLog.DiffReplays: the order of rows within one kind is a parameter (the sorted order of names); Python's equality of True and 1 is not modelled.
- The request that is sent again after a 401, which takes no slot of its own, and the time a thread sleeps beyond its slot.
- The NewAPI token, cookie, password and system-token chain (`newapi_browser_request`): a bounded decision tree.
- Routers, schemas, the web front end, the browser extension, e-mail and chat notifications, migrations and demo data.
