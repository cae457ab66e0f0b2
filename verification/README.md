# Verified model of the Huddle API core

This project models the parts of the fantasy-football API whose correctness is not visible from one
function: assigning players to roster slots, the protocols that publish synchronized data, the stored
document and its invariants, and the transformations between provider feeds and scores.
`dafny verify dfyconfig.toml` checks all of it.

## What is modelled

**Lineups.** A lineup gives each starting slot a player or nobody. `Lineup.dfy` says once what is legal,
what is filled, what is worth more and what is best. The trade analyzer's Hungarian algorithm is proved to
return a best lineup (`Hungarian.dfy`, on arrays in place, and `TradeLineup.dfy`). The two augmenting-path
matchings are proved maximum with a cover certificate and hence equal to the best lineup's filled slots
(`SlotMatching.dfy`, `WaiverCoverage.dfy`, `LineupOutlook.dfy`). The greedy assignment is documented as the
best legal assignment, which is not always so: `GreedyExactness.dfy` proves exactly for which starting
slots it is, and builds a defeating pool for all others.

**Protocols.** Leases (`Leases.dfy`), what synchronization stores and readers see (`Resources.dfy`), guarded
publication under a league's lease beside writers without one (`Publication.dfy`, `Fencing.dfy`), the
cooldown of the shared player directory (`PlayerDirectory.dfy`), login session families (`Sessions.dfy`,
`Authentication.dfy`), and the worker's queue (`WorkerQueue.dfy`) are step relations whose theorems
quantify over all runs. Where interleaving matters, every store operation is a step of its own, and runs
of other processes, expiries and crashes come in between. A request to the session routes is one step, and
so is a worker loop's exit together with its removal.

**The store.** `Store.dfy` has the document's fields and the write methods that change them; each is proved
against a function of the old document. `Citations.dfy` proves the foreign keys over every sequence of
calls, `Observations.dfy` what pruning by rank keeps, `Connections.dfy` and `RetentionSweep.dfy` what a
sweep may remove.

**Transformations.** The CSV reader (`Csv.dfy`), the rate limiter (`RateLimit.dfy`), the forecast
derivations and the validators they must satisfy (`Derivation.dfy`, `Kicker.dfy`, `Defense.dfy`),
normalization and attribution of scores (`Scoring.dfy`) and the order of floor, points and ceiling
(`Scenario.dfy`).

Points, amounts and probabilities are exact reals, or whole cents where the code has rounded to cents.
Times are whole milliseconds; stored timestamps are the instants they denote. Ids, owners and session ids
are opaque, and the ones the code generates are fresh. Keys the code joins from text are structured values.

## Model

| member | source | states |
|---|---|---|
| `Hungarian.Scan` | apps/api/src/trade-lineup.ts:18-23 | relaxing the unused columns from one row leaves every one at its least slack over the tree, and finds the least of them |
| `Hungarian.Shift` | apps/api/src/trade-lineup.ts:24 | moves prices and frontier by the same amount, in place |
| `Hungarian.ShiftFeasible` | apps/api/src/trade-lineup.ts:24 | a price shift by the least frontier slack keeps every reduced cost nonnegative and tree edges tight |
| `Hungarian.Grow` | apps/api/src/trade-lineup.ts:16-25 | one round keeps prices feasible and the tree tight, and reaches a new column |
| `Hungarian.FindFree` | apps/api/src/trade-lineup.ts:14-26 | the search ends at an unmatched column joined to the root by tight edges |
| `Hungarian.Augment` | apps/api/src/trade-lineup.ts:27 | moving the rows along the path matches one more row and keeps every matched edge tight |
| `Hungarian.AddRow` | apps/api/src/trade-lineup.ts:12-28 | from a solved prefix of rows to one row more |
| `Hungarian.Solve` | apps/api/src/trade-lineup.ts:11-28 | all rows matched, with feasible prices, tight matched edges and free unmatched columns |
| `Hungarian.MatchedIsCheapest` | apps/api/src/trade-lineup.ts:11-30 | weak duality: no choice of distinct columns costs less than the matching |
| `TradeLineup.IneligibleCosts` | apps/api/src/trade-lineup.ts:8-10 | one ineligible column costs more than all rewards together repay, so a cheapest choice has none |
| `TradeLineup.LineupCost` | apps/api/src/trade-lineup.ts:8-10 | the cost of a legal lineup is minus its reward for filled slots minus its points |
| `TradeLineup.RewardDecides` | apps/api/src/trade-lineup.ts:8 | one more filled slot outweighs any difference in points |
| `TradeLineup.RewardInProducts` | apps/api/src/trade-lineup.ts:8 | the reward is one plus twice the slots times the largest score, as the product the code computes |
| `TradeLineup.CentsAreNear` | apps/api/src/trade-lineup.ts:34-35 | rounding gives whole cents, moves a total by half a cent at most and never reverses two totals |
| `TradeLineup.CheapestIsBest` | apps/api/src/trade-lineup.ts:8-30 | a cheapest choice of columns is a best lineup: most filled slots, then most points |
| `TradeLineup.ReadAssignment` | apps/api/src/trade-lineup.ts:29-30 | reads each row's column back from the matching |
| `TradeLineup.CompleteIffBestIs` | apps/api/src/trade-lineup.ts:35 | some complete legal lineup exists exactly when a best lineup is complete |
| `TradeLineup.OptimizeTradeLineup` | apps/api/src/trade-lineup.ts:6-36 | for every pool and roster the lineup is legal and best; `legal` holds exactly when a complete legal lineup exists; points are the total rounded to cents, and no lineup that fills as many slots beats them by half a cent |
| `SlotMatching.WeakDuality` | apps/api/src/waivers.ts:139-152 | no matching is larger than a cover of its pairs |
| `SlotMatching.SlotFiller.Place` | apps/api/src/waivers.ts:142-151 | either the matching grows by the slot, or the visited players are closed under alternating paths |
| `SlotMatching.SlotFiller.Offer` | apps/api/src/waivers.ts:146-148 | a visited player takes the slot if free, or is freed by placing another in the slot held |
| `SlotMatching.SlotFiller.FilledSlots` | apps/api/src/waivers.ts:140-152 | counts the largest number of slots any matching of players to slots fills |
| `WaiverCoverage.MaxFillIsBestFilled` | apps/api/src/waivers.ts:139-152 | the matching count is the number of slots the best lineup of the same playable pool fills |
| `WaiverCoverage.FullIffComplete` | apps/api/src/lineup.ts:263-276 | all slots can be filled at once exactly when the players who can play make a complete legal lineup |
| `WaiverCoverage.AddKeepsCoverage` | apps/api/src/waivers.ts:153-158 | adding a player never lowers a week's coverage |
| `WaiverCoverage.Coverage` | apps/api/src/waivers.ts:135-153 | the most slots the active roster can fill in each remaining week, with byes and absences out |
| `WaiverCoverage.EdgesOfWeek` | apps/api/src/waivers.ts:135-152 | a player can take a slot in a week exactly if he fits it, has no bye that week, is not out now in the selected week, and is not out through it |
| `WaiverCoverage.CountAtIsHolders` | apps/api/src/waivers.ts:156 | the count at a position is the number of players who hold it |
| `WaiverCoverage.WithoutDropsOne` | apps/api/src/waivers.ts:155 | a player stays exactly if he is not the dropped one, and those who stay keep order and multiplicity |
| `WaiverCoverage.LegalPair` | apps/api/src/waivers.ts:154-158 | over the roster with everybody but the dropped player, in order, and the added one: accepts exactly the pairs within position limits, counted by players holding the position, that keep every week's coverage; without a drop only the limits can refuse |
| `LineupOutlook.FillableSlots` | apps/api/src/lineup.ts:263-276 | the largest number of fillable slots in a week, the filled slots of every best lineup of the same players, and all slots exactly when they make a complete legal lineup |
| `LineupOutlook.OutlookEdges` | apps/api/src/lineup.ts:263-276 | a player can take a slot in a week exactly if he fits it and is forecast for the week without a bye |
| `GreedyLineup.Assign` | apps/api/src/evaluation.ts:86-93 | the loop over sorted slots with splicing computes the greedy lineup |
| `GreedyLineup.StableOrderSorts` | apps/api/src/evaluation.ts:87-88 | the order of players and slots is a permutation, ascending by key, with ties in their original order |
| `GreedyLineup.GreedyIsLegal` | apps/api/src/evaluation.ts:86-93 | uses each player at most once, in eligible slots |
| `GreedyLineup.Exchange` | apps/api/src/evaluation.ts:89-92 | any legal lineup can be changed to take the greedy choice next without filling or scoring less |
| `GreedyLineup.GreedyIsBest` | apps/api/src/evaluation.ts:86-93 | greedy is best whenever earlier slots' players also fit the later slots they overlap |
| `GreedyExactness.GreedyEarlierHold` | apps/api/src/evaluation.ts:89-92 | every slot holds somebody at least as good as any player who fits it and went to a later slot |
| `GreedyExactness.ExactIffLaminar` | packages/domain/src/projections.ts:173-174 | greedy is best on all single-position pools exactly when the starting slots are pairwise nested or disjoint |
| `GreedyExactness.ExactIffChain` | packages/domain/src/projections.ts:173-174 | greedy is best on all pools exactly when the starting slots are pairwise nested |
| `GreedyExactness.OnlyTheseCross` | packages/domain/src/league-rules.ts:53-56 | of the slot kinds only REC_FLEX and WRRB_FLEX overlap without nesting |
| `GreedyExactness.ExactIffNotBothNarrowFlexes` | apps/api/src/evaluation.ts:86-93 | so greedy is best on all single-position pools exactly when a league does not start both of those |
| `GreedyExactness.CrossingDefeats` | apps/api/src/evaluation.ts:86-93 | slots that cross have a single-position pool on which greedy is not best |
| `GreedyExactness.UnnestedDefeats` | apps/api/src/evaluation.ts:86-93 | slots that are not nested have a pool on which greedy is not best |
| `Leases.HeldUntilExpiry` | apps/api/src/store.ts:309-321 | until its expiry nothing other owners do takes or ends a lease |
| `Leases.ReleaseFrees` | apps/api/src/store.ts:309-321 | once its owner gives a lease back anybody is granted it at once; given back by anyone else it stays |
| `Leases.AcquiringGrants` | apps/api/src/store.ts:309-318 | acquiring grants the lease for its time from now exactly unless another owner's is live; a live lease of one's own keeps its first time |
| `Publication.StepKeepsSound` | apps/api/src/sync.ts:33-49 | every step of every run keeps: a lease is owned by a run that acquired it, and nothing newer than a going owner has landed |
| `Publication.WritesLandInAcquisitionOrder` | apps/api/src/sync.ts:67-113 | over every run, with unguarded writers in between, a league's guarded writes land in the order in which their runs acquired its lease, and a reader sees a value of a resource exactly when some landed change wrote it and no later one wrote to the resource or took it away |
| `Publication.ReadersSeeNewestRun` | apps/api/src/sync.ts:33-49 | when the value a reader sees was written under a league's lease, no run of that league with a newer acquisition has written to that resource |
| `Resources.ReadChanged` | apps/api/src/store.ts:358-389 | what any change does to one resource: written if carried, unless a weekly snapshot is there already; gone if taken away; else as it was |
| `Resources.MergeStores` | apps/api/src/store.ts:364-387 | a merge leaves under each key the last record carried, or the earlier one unless it is a transferred pick of the league whose picks are replaced; stores league, freshness and a new weekly snapshot; and changes nothing else |
| `Resources.DropTakes` | apps/api/src/store.ts:278-298 | removing a league takes exactly its record, records, snapshots, marks and runs; users and players stay |
| `Resources.DirectoryStores` | apps/api/src/store.ts:165-173 | the directory replaces all players, marks its time and touches nothing else |
| `Resources.LogHolds` | apps/api/src/store.ts:116 | the newest run comes first, the others follow as they were, and what is beyond a hundred goes |
| `Resources.ReadersSeeLastWrite` | apps/api/src/store.ts:364-387 | after any changes a resource reads as a value exactly when some change wrote that value and none since wrote to it or took it away |
| `Resources.DroppedGrow` | apps/api/src/store.ts:278-298 | removing leagues one by one, in any order, is removing them together |
| `Resources.OthersUntouched` | apps/api/src/store.ts:278-298 | removing leagues changes nothing readers see of another league |
| `Fencing.FencedOut` | apps/api/src/store.ts:358-363 | once a newer run has acquired a league's lease no write of an earlier run lands, with any clocks, and a refused write changes nothing |
| `Fencing.TimelyWriteLands` | apps/api/src/sync.ts:67-113 | a run that publishes before its own expiry, when no other clock has passed it, does land, and readers see all it carries, its weekly snapshot unless one had that id already |
| `Fencing.LateWriteIsRefused` | apps/api/src/store.ts:358-363 | over every run, a run that has outlived the lease it acquired lands nothing any more, even if nobody took the lease |
| `Fencing.FinishingHandsOn` | apps/api/src/sync.ts:33-49 | a run that finishes hands its lease on: whoever waits for the league gets it at the next poll |
| `PlayerDirectory.StepKeepsLeaseHeld` | apps/api/src/players.ts:79-103 | an active refresh owns the lease, so there is at most one |
| `PlayerDirectory.StepKeepsCooldown` | apps/api/src/players.ts:86-99 | the stored cooldown always covers every fetch there has been |
| `PlayerDirectory.FetchesAreSpaced` | apps/api/src/players.ts:79-103 | over every interleaving and crash two fetches started at least the retry interval apart, and went out more than that less one lease apart |
| `PlayerDirectory.OutcomesAreWaitedFor` | apps/api/src/players.ts:86-99 | over every interleaving and crash no fetch starts less than a day after one that stored the directory, nor less than an hour, or the delay the upstream asked for, after one that failed |
| `PlayerDirectory.HoldsBackExactly` | apps/api/src/players.ts:90-99 | a recorded outcome holds back exactly the refreshes that start sooner than that |
| `PlayerDirectory.GivenBackIsFree` | apps/api/src/players.ts:79-103 | a refresh that is over leaves the lease free for the next one that is due |
| `PlayerDirectory.OverlongRefreshesCollide` | apps/api/src/players.ts:79-92 | the proviso is needed: a refresh that stalls until its lease has expired and another one can fetch at the same moment |
| `Sessions.SessionPolicy` | apps/api/src/auth.ts:46-53 | each limit from its own setting: lifetime and grace as given, idle window and rotation as given or the lifetime if that is shorter, throttle a tenth of the idle window but at most a minute; so throttle within idle window within lifetime |
| `Sessions.NeverOutlivesItsFamily` | apps/api/src/auth.ts:109-150 | over every run a request is accepted only before its family's original deadline, for its user, and never after the family was revoked |
| `Sessions.IdleWindowSlides` | apps/api/src/auth.ts:136-146 | a session's idle deadline is at least the last request it served while current plus idle window minus throttle, or the absolute deadline |
| `Sessions.ActiveClientIsLetIn` | apps/api/src/auth.ts:109-150 | a client that returns in that time, before the deadline, is always let in, with a superseded session until grace is over |
| `Sessions.RotatesWhenDue` | apps/api/src/auth.ts:136-141 | over every run an accepted request goes on with its own session if that has a successor or is younger than the rotation time, and otherwise with a successor issued now |
| `Sessions.SupersededIsRefused` | apps/api/src/auth.ts:129-132 | over every run, once a client went from a session to a successor no request with the old one is accepted later than grace after |
| `Sessions.GraceRestarts` | apps/api/src/app.ts:269-275 | the time counts from the last successor: under every policy a client that rotates a superseded session on demand within grace is let in with it later than grace after its first successor |
| `Sessions.FamilyEndsExactly` | apps/api/src/auth.ts:117-134 | over every run a request revokes a family exactly if its session is revoked, or, before it expires, superseded for longer than grace or without its user; and then only its own |
| `Sessions.TheftLocksOut` | apps/api/src/auth.ts:117-134 | after such a request, whatever happens next, no session of the family is ever accepted again |
| `Sessions.OneCurrentUnlessForked` | apps/api/src/app.ts:269-275 | a family keeps one current session through every step except on-demand rotation of a superseded session, which always breaks it |
| `Sessions.ForkIsReached` | apps/api/src/app.ts:269-275 | under every policy a client that rotates on demand right after logging in can, at any later time within grace and the idle window, take that breaking step with its first session |
| `Sessions.PruningIsUnobservable` | apps/api/src/store.ts:140-150 | dropping every prune from a run changes no request's outcome |
| `Sessions.PruneDropsLongDead` | apps/api/src/store.ts:140-150 | a prune drops exactly the sessions that ended, by the last of deadline, expiry and revocation, longer ago than the retention |
| `Sessions.DeadRequest` | apps/api/src/store.ts:140-150 | a request with a session past its family's deadline is rejected and touches only such sessions |
| `Authentication.IssueSession` | apps/api/src/auth.ts:76-88 | a login stores a fresh family's session and prunes |
| `Authentication.RotateSession` | apps/api/src/auth.ts:91-100 | successor and superseded predecessor in one write, under the same absolute deadline |
| `Authentication.Authenticated` | apps/api/src/auth.ts:109-150 | the middleware's verdict and stored sessions are those of the verified step |
| `Authentication.Act` | apps/api/src/app.ts:261-275 | what the session routes then store |
| `Store.JsonStore.constructor` | apps/api/src/store.ts:101 | the empty document, in which no foreign key dangles |
| `Store.JsonStore.AcquireLease` | apps/api/src/store.ts:309-318 | granted exactly when no other owner holds a live lease; a live renewal keeps its first acquisition time |
| `Store.JsonStore.ReleaseLease` | apps/api/src/store.ts:319-321 | only the owner's lease goes |
| `Store.JsonStore.ApplySync` | apps/api/src/store.ts:358-389 | lands exactly when its guard holds; then league, collections, replaced picks, weekly snapshot, freshness, scoring observation and roster history are merged in one write, and otherwise nothing changes |
| `Store.JsonStore.MergeRecords` | apps/api/src/store.ts:382-388 | the deletion and upsert loops compute the merge |
| `Store.JsonStore.DropPicks` | apps/api/src/store.ts:382-383 | the loop deletes exactly the league's transferred picks |
| `Store.JsonStore.SaveSession` | apps/api/src/store.ts:123 | stores one session |
| `Store.JsonStore.RevokeSession` | apps/api/src/store.ts:124 | marks one session revoked, once |
| `Store.JsonStore.RevokeSessionFamily` | apps/api/src/store.ts:126 | the loop marks exactly the family's sessions |
| `Store.JsonStore.RevokeUserSessions` | apps/api/src/store.ts:127 | the loop marks exactly the user's sessions |
| `Store.JsonStore.RotateSession` | apps/api/src/store.ts:129-131 | predecessor superseded and successor stored together |
| `Store.JsonStore.TouchSession` | apps/api/src/store.ts:133-135 | extends a session that is not revoked |
| `Store.JsonStore.PruneSessions` | apps/api/src/store.ts:140-150 | removes exactly the sessions dead for longer than the retention, and counts them |
| `Store.JsonStore.SaveForecastSnapshot` | apps/api/src/store.ts:533-538 | append-only by id |
| `Store.JsonStore.LatestForecastSnapshot` | apps/api/src/store.ts:540-544 | answers with the newest matching ingestion |
| `Store.JsonStore.PruneForecastSnapshots` | apps/api/src/store.ts:550-567 | the ranking loop removes exactly the old, uncited ingestions below the kept ones of their week |
| `Store.JsonStore.RecordRosterObservations` | apps/api/src/store.ts:482-492 | append-only by id, also within one call |
| `Store.JsonStore.PruneRosterHistory` | apps/api/src/store.ts:503-519 | the same ranking for roster observations |
| `Store.Outranked` | apps/api/src/store.ts:555-563 | counting ranks group by group collects exactly the outranked ids |
| `Store.JsonStore.SaveRecommendations` | apps/api/src/store.ts:578-602 | stores the whole batch or nothing |
| `Store.CheckExplanations` | apps/api/src/store.ts:589-596 | finds the first repeated ordinal or weighted coverage gap |
| `Store.JsonStore.RecordRecommendationOutcome` | apps/api/src/store.ts:620-627 | refuses outcomes without advice or points, ignores a repeated observation |
| `Store.JsonStore.PruneRecommendations` | apps/api/src/store.ts:634-647 | the loop removes exactly the aged advice and its outcomes |
| `Store.JsonStore.PruneLeague` | apps/api/src/store.ts:278-298 | everything of a league goes, its advice's outcomes, its runs and its older snapshot with it, nothing else does, and the records removed are counted |
| `Store.JsonStore.DropItems` | apps/api/src/store.ts:281-285 | the loop deletes and counts exactly the league's records |
| `Store.JsonStore.Save` | apps/api/src/store.ts:116 | stores the older whole-league snapshot and logs the run that took it |
| `Store.JsonStore.RecordSyncRun` | apps/api/src/store.ts:650-663 | logs a run in front and keeps the newest hundred |
| `Store.JsonStore.ArchiveLeagueConnection` | apps/api/src/store.ts:208-214 | archives an active connection once |
| `Store.JsonStore.ReconcileLeagueConnections` | apps/api/src/store.ts:221-243 | both loops together give the reconciled connections |
| `Store.LeaseHandle.Renew` | apps/api/src/scheduler/lock.ts:57-61 | renewing is acquiring again, and moves the expiry exactly when it succeeds |
| `Store.LeaseHandle.Release` | apps/api/src/scheduler/lock.ts:62 | gives back the owner's lease |
| `Store.AcquireLock` | apps/api/src/scheduler/lock.ts:52-65 | a handle exactly when the lease was granted |
| `Observations.KeepSort` | apps/api/src/store.ts:63-64 | filtering and sorting newest first commute |
| `Observations.LatestIsNewest` | apps/api/src/store.ts:540-544 | the answer is a forecast of the asked week and source, and no other such forecast is newer by update and then by ingestion |
| `Observations.LatestSurvivesPruning` | apps/api/src/store.ts:550-567 | pruning that keeps one per week never changes an answer |
| `Observations.PrunedExactly` | apps/api/src/store.ts:550-567 | an observation is pruned exactly if it is old, uncited, and at least as many of its group rank above it as are kept: updated later, or then ingested later, or then recorded earlier |
| `Observations.CitedStay` | apps/api/src/store.ts:546-549 | nothing cited or recent is pruned |
| `Observations.PruningTwice` | apps/api/src/store.ts:503-519 | repeating a prune removes nothing |
| `Citations.CallKeepsIntact` | apps/api/src/store.ts:364-380 | every repository call keeps every foreign key, refused or not |
| `Citations.AlwaysIntact` | apps/api/src/store.ts:570-577 | after any sequence of calls advice cites its own league's observation and a stored forecast, and outcomes grade stored advice |
| `Citations.NeverDangles` | apps/api/src/store.ts:570-577 | so from the empty document no sequence of calls leaves anything dangling |
| `Citations.BatchIsAllOrNothing` | apps/api/src/store.ts:578-602 | a batch is stored exactly when each record is acceptable, then whole, later records winning |
| `Citations.SyncStores` | apps/api/src/store.ts:364-380 | a synchronization records its scoring observation once at the end of its league's, keeps what was recorded in front, and an id finds the first roster observation recorded under it |
| `Citations.GradingStores` | apps/api/src/store.ts:620-627 | an outcome is taken exactly if its advice is stored and a followed one has points, and recorded at the end unless one of the same advice and time is |
| `Citations.CitedForecastNeverChanges` | apps/api/src/store.ts:546-549 | while advice stays stored the forecast it cites can be found and reads the same |
| `Citations.AgingSparesWhatIsGraded` | apps/api/src/store.ts:634-647 | aging removes exactly old advice not graded since, and exactly its outcomes |
| `Citations.LeaguesPrunedGrow` | apps/api/src/store.ts:278-298 | pruning leagues one by one, in any order, is pruning them together |
| `Citations.OthersUntouched` | apps/api/src/store.ts:278-298 | pruning leagues leaves every other league's scoring observations, roster history, advice and outcomes, in order, and all forecasts |
| `Citations.PrunedAreGone` | apps/api/src/store.ts:278-298 | no scoring observation, roster observation or advice of a pruned league is left, nor any outcome of its advice |
| `Connections.ReconcilingTwice` | apps/api/src/store.ts:215-243 | reconciling twice is reconciling once apart from the touched time |
| `Connections.ReconciledAgrees` | apps/api/src/store.ts:215-243 | linked flags, demo flags and seasons are right, no unlinked connection is active, and only an unlinked archive is revived |
| `Connections.SweepSparesLinked` | apps/api/src/scheduler/worker.ts:243-246 | a sweep never removes a linked league and leaves only linked connections active |
| `Connections.SweepIsRight` | apps/api/src/scheduler/worker.ts:283-307 | what a sweep makes of every league: a linked one that is scheduled or taken back is retired exactly if its season is over and it was last heard from long enough ago; an unlinked one is removed exactly if archived long enough ago; else it is kept, archived as unlinked |
| `Connections.DecideRetains` | apps/api/src/scheduler/worker.ts:286-303 | left alone by jobs, a decision among them does to its league what retention does |
| `Connections.AttemptsAndRetiring` | apps/api/src/store.ts:251-266 | a synchronization puts retiring off for the whole archiving time, and a failed attempt does not |
| `Connections.SweepIsSafeAmidJobs` | apps/api/src/scheduler/worker.ts:283-307 | however jobs' attempts come between a sweep's decisions, no linked league or its data is removed, and only a fresh attempt leaves an unlinked connection active |
| `RetentionSweep.RetainOne` | apps/api/src/scheduler/worker.ts:286-303 | archives exactly an active connection whose season is over and whose last synchronization, or creation, is long enough ago, with reason and time; removes it and its league's data exactly if archived, unlinked and long enough so; else changes nothing |
| `RetentionSweep.ApplyRetention` | apps/api/src/scheduler/worker.ts:283-307 | the loop does this to each connection, reports exactly those, and removes exactly the pruned leagues' data |
| `RetentionSweep.Sweep` | apps/api/src/scheduler/worker.ts:243-246 | reconciling and retention in the store: after it every connection is as `Connections.SweepIsRight` says, what is archived and pruned is reported exactly, and a linked league keeps all that readers see of it, its scoring observations, roster history, advice and outcomes |
| `WorkerQueue.StepKeepsSound` | apps/api/src/scheduler/worker.ts:161-179 | enqueueing, settling and resuming keep the whole queue invariant, and a failing loop does exactly when no job waits |
| `WorkerQueue.StepKeepsConsistent` | apps/api/src/scheduler/worker.ts:331-346 | every step, a loop ended by a failed lease renewal included, keeps each ticket in one place, one job per league, the order of service and the limit |
| `WorkerQueue.BoundedAndBusy` | apps/api/src/scheduler/worker.ts:322-329 | in every reachable state: at most the limit runs, one job per league, first come first served; and no job waits beside a free slot unless a loop failed while a job waited |
| `WorkerQueue.EnqueueJoins` | apps/api/src/scheduler/worker.ts:161-179 | a call gets the ticket of the league's pending job or a new one; the job is then forced if it was or the call asks, has the call's week if any, and no other job changes |
| `WorkerQueue.JobIsWhatWasAsked` | apps/api/src/scheduler/worker.ts:161-179 | over every run a ticket's job is for the league of all calls that got it, is forced exactly if one of them asked, and has the last week one gave |
| `WorkerQueue.ResultIsTheWorkers` | apps/api/src/scheduler/worker.ts:331-342 | over every run who awaits a ticket gets the result with which its worker settled it, now and later |
| `WorkerQueue.SettlesItsOwn` | apps/api/src/scheduler/worker.ts:331-342 | only settling settles, and only the worker's own ticket |
| `WorkerQueue.SettlesOnce` | apps/api/src/scheduler/worker.ts:331-342 | a settled job keeps its first result for ever |
| `WorkerQueue.DrainingEnds` | apps/api/src/scheduler/worker.ts:187-194 | without new jobs only a bounded number of steps follows |
| `WorkerQueue.DrainedMeansSettled` | apps/api/src/scheduler/worker.ts:187-194 | every worker can step; when none is left, every job has settled and nothing is pending exactly if the queue is empty, which it is unless a loop failed while a job waited |
| `WorkerQueue.JobIsStranded` | apps/api/src/scheduler/worker.ts:331-346 | a run in which such a failure leaves a league's job waiting with no loop to take it |
| `WorkerQueue.AskingAgainDoesNot` | apps/api/src/scheduler/worker.ts:161-170 | with every loop gone, asking again for leagues that wait leaves queue and workers as they are |
| `WorkerQueue.NewWorkRevives` | apps/api/src/scheduler/worker.ts:173-178 | after any failures, a job for a league with nothing pending restores the whole invariant |
| `WorkerQueue.LeagueSyncWorker.constructor` | apps/api/src/scheduler/worker.ts:114-116 | at least one job at a time |
| `WorkerQueue.LeagueSyncWorker.Enqueue` | apps/api/src/scheduler/worker.ts:161-179 | the method is the verified step and returns the pending ticket |
| `WorkerQueue.LeagueSyncWorker.Pump` | apps/api/src/scheduler/worker.ts:322-329 | starts loops until the limit or the queue's end |
| `WorkerQueue.LeagueSyncWorker.Settle` | apps/api/src/scheduler/worker.ts:336-342 | settles a job that was not settled before |
| `WorkerQueue.LeagueSyncWorker.Resume` | apps/api/src/scheduler/worker.ts:332-335 | takes the next job or leaves |
| `WorkerQueue.LeagueSyncWorker.Fail` | apps/api/src/scheduler/worker.ts:324-346 | a failed renewal takes the loop out of the set of workers |
| `RateLimit.DropStale` | apps/api/src/rate-limit.ts:39 | the sweep's loop removes exactly the stale windows |
| `RateLimit.Limiter.Sweep` | apps/api/src/rate-limit.ts:36-42 | when due, drops stale windows and then the front ones beyond the cap |
| `RateLimit.Limiter.Charge` | apps/api/src/rate-limit.ts:98-108 | counts in the current window or a new one at the end |
| `RateLimit.Limiter.Handle` | apps/api/src/rate-limit.ts:118-137 | charges every scope and admits exactly when none is exhausted |
| `RateLimit.OrderIsByStart` | apps/api/src/rate-limit.ts:40 | through every run the table's order is the order in which windows started |
| `RateLimit.CappedDropsOldest` | apps/api/src/rate-limit.ts:40-41 | what the cap drops started no later than what it keeps |
| `RateLimit.TableStaysSmall` | apps/api/src/rate-limit.ts:26-28 | after any request the table is below the cap but for that request's keys |
| `RateLimit.AtMostTwiceTheBudget` | apps/api/src/rate-limit.ts:98-108 | any interval of a window's length admits at most twice the budget, if no sweep removes the key's live window |
| `RateLimit.RefusedOnlyWhenExhausted` | apps/api/src/rate-limit.ts:98-137 | over every run, whatever is swept, a request is refused only if the key of one of its scopes was charged more than that scope's budget within the last window |
| `RateLimit.RoomyIsUndisturbed` | apps/api/src/rate-limit.ts:36-42 | below the cap, and with no window longer than both a minute and a sweeping limiter's, none does |
| `RateLimit.SparesExactly` | apps/api/src/rate-limit.ts:36-42 | a request leaves a live window alone exactly when no sweep is due, or the window is younger than the sweep's age limit and near enough to the newest |
| `RateLimit.MixedWindowsExceed` | apps/api/src/rate-limit.ts:36-42 | with windows of a minute and of a quarter of an hour in one table, n rounds admit n requests under a budget of one |
| `RateLimit.FourteenInsteadOfOne` | apps/api/src/rate-limit.ts:36-42 | so a budget of one in a quarter of an hour can admit fourteen in that time |
| `Csv.ParseRows` | apps/api/src/providers/nflverse.ts:36-51 | the indexed loop computes the reader's rows |
| `Csv.RoundTrip` | apps/api/src/providers/nflverse.ts:32-51 | printing and reading gives the same rows, with fields quoted, or plain if they have no comma, quote or row end, and LF, CRLF and CR row ends in any mixture, exactly unless a row written as nothing and ended by LF follows a CR |
| `Csv.RoundTripWithoutLastEnd` | apps/api/src/providers/nflverse.ts:51 | without the last row end the same, except that a last row of one empty field, quoted or plain, is not read |
| `Scoring.Normalize` | apps/api/src/kicker.ts:86-91 | the loop replaces canonical statistics by canonical amounts |
| `Scoring.FindConflict` | apps/api/src/kicker.ts:86-87 | finds an overlapping count that disagrees |
| `Scoring.ReplacedTwice` | apps/api/src/kicker.ts:81-96 | normalizing twice is normalizing once |
| `Scoring.OverlapsDoNotCount` | apps/api/src/defense.ts:146-167 | lines that agree on everything but canonical statistics normalize to the same line |
| `Scoring.ReplacedWorth` | apps/api/src/kicker.ts:86-91 | a canonical statistic counts its canonical amount whatever was supplied, and nothing without a rule |
| `Scoring.OthersKeepPoints` | apps/api/src/kicker.ts:84-91 | normalizing leaves the points of whatever is not canonical |
| `Scoring.PointsByStat` | packages/domain/src/league-rules.ts:72-78 | the contributions of a family of statistics sum amount times rate over the family |
| `Kicker.NormalizeKickerStats` | apps/api/src/kicker.ts:15-96 | accepts exactly valid forecasts, context included and without unknown fields, with nonnegative, agreeing lines and the yardage the league prices; the line then says of each canonical key what the forecast says, if the league has a rule for it, and of others what was supplied |
| `Kicker.KickerStatsAreCanonical` | apps/api/src/kicker.ts:68-79 | each canonical key exactly once with its amount from the forecast's fields: extra points, each band, all, and long ones |
| `Kicker.NormalizingTwice` | apps/api/src/kicker.ts:81-96 | a normalized line is accepted again and unchanged |
| `Kicker.CanonicalBandsAddUp` | apps/api/src/kicker.ts:99-110 | band make and miss points sum to the score's canonical makes and misses, although kicks are counted by band, in total and as long |
| `Kicker.BandsAddUp` | apps/api/src/kicker.ts:99-115 | band points and the rest make up the score's total; band miss points are the misses the score reports exactly when further `fgmiss_` keys on the supplied line contribute nothing |
| `Kicker.BlockedKickIsInNoBand` | apps/api/src/kicker.ts:107-114 | a line with one such key, priced, on which the reported misses and the bands differ for every forecast |
| `Defense.DefenseStatsUnique` | apps/api/src/defense.ts:135-144 | each canonical key at most once |
| `Defense.DefenseStatsSay` | apps/api/src/defense.ts:135-144 | a canonical statistic is there exactly if the forecast states it with that amount: counts, tiers and special teams by number from their own list, each mean exactly when supplied |
| `Defense.DefenseStatsAreCanonical` | apps/api/src/defense.ts:135-144 | together: each key the forecast covers exactly once, with what the forecast says |
| `Defense.NormalizedSays` | apps/api/src/defense.ts:146-158 | what a normalized line says of every key |
| `Defense.NormalizeDefenseStats` | apps/api/src/defense.ts:74-167 | accepts exactly valid forecasts, context included and without unknown fields, with nonnegative, agreeing lines without individual keys and with what the league prices supplied; the line then says of each key the forecast covers what the forecast says, if the league has a rule for it, and of others what was supplied |
| `Defense.NormalizingTwice` | apps/api/src/defense.ts:146-167 | a normalized line is accepted again and unchanged |
| `Defense.GroupsAddUp` | apps/api/src/defense.ts:185-193 | the six groups and the rest sum to the unrounded total, for every line and league |
| `Defense.PressureGroup` | apps/api/src/defense.ts:187 | the pressure group is worth the forecast's sacks |
| `Defense.TurnoverGroup` | apps/api/src/defense.ts:188 | the turnovers are worth its interceptions, forced fumbles and recoveries |
| `Defense.TouchdownGroup` | apps/api/src/defense.ts:189 | the touchdowns are worth its defensive touchdowns |
| `Defense.SituationalGroup` | apps/api/src/defense.ts:190 | the situational group is worth its safeties and blocked kicks |
| `Defense.SpecialTeamsGroup` | apps/api/src/defense.ts:191 | the special-teams group is worth its special-teams counts, if the supplied line has no further keys of the group |
| `Defense.RestIsNotTheForecasts` | apps/api/src/defense.ts:185-193 | nothing the forecast covers falls outside the six groups |
| `Derivation.Clamp` | apps/api/src/providers/derivation.ts:105-106 | a make displaced from one band moves to the other, a band over its attempts ends at them, and makes are conserved exactly when they fit |
| `Derivation.SharedByExpectedMakes` | apps/api/src/providers/derivation.ts:99-104 | before clamping a band's share of the makes is its share of the makes expected of its attempts |
| `Derivation.SplitLongBand` | apps/api/src/providers/derivation.ts:97-108 | attempts conserved, makes conserved exactly when no more than attempts, never more makes than attempts; each band makes its share or, over its attempts, its attempts |
| `Derivation.DeriveKickerForecast` | apps/api/src/providers/derivation.ts:113-151 | passes its validator exactly unless a supplied long-attempt chance exceeds its expected attempts; the miss total is attempts less makes, and the chance is the supplied one or else the estimate, within its bounds |
| `Derivation.Modal` | apps/api/src/providers/derivation.ts:85 | an index of the largest value |
| `Derivation.TiersAreADistribution` | apps/api/src/providers/derivation.ts:71-88 | tier probabilities are probabilities and sum to one |
| `Derivation.TiersAreContiguous` | packages/domain/src/defense.ts:23-29 | Sleeper's tiers leave no gap and do not overlap |
| `Derivation.TiersLoseNothing` | apps/api/src/providers/derivation.ts:64-88 | over any cumulative distribution each contiguous tier gets exactly the mass from half a point below it to half a point above it, the outer ones all beyond |
| `Derivation.DerivedDefenseIsValid` | apps/api/src/providers/derivation.ts:154-190 | passes its validator exactly when the line's own counts and supplied distributions do |
| `Derivation.DerivedDefenseSays` | apps/api/src/providers/derivation.ts:154-190 | points and yards tiers come from their own supplied or estimated distribution, and each mean is passed on exactly when its top tier is possible and it is no less than the tiers' lower bounds average to |
| `Scenario.Stability` | apps/api/src/opportunity.ts:59-65 | from three games on, between 0 and 1 |
| `Scenario.StabilityIsRelative` | apps/api/src/opportunity.ts:59-65 | the score is the part of the mean left above the deviation, to the nearest thousandth, and nothing without any |
| `Scenario.SteadyIffConstant` | apps/api/src/opportunity.ts:54-65 | targets deviate by nothing exactly when they are all the same, and a player with such targets scores 1 |
| `Scenario.FloorLift` | apps/api/src/opportunity.ts:138-145 | at most a quarter, and none without decisive receptions and stability above a half |
| `Scenario.LiftIsEven` | apps/api/src/opportunity.ts:138-145 | with decisive receptions the lift grows evenly from nothing at a half to a quarter at full stability, to the nearest hundredth |
| `Scenario.LiftIsMonotone` | apps/api/src/opportunity.ts:138-145 | a steadier player is never lifted less |
| `Scenario.LiftStaysBetween` | apps/api/src/projection-scoring.ts:302-303 | rounding never takes a lifted floor past the mean nor below where it was |
| `Scenario.LiftGoesItsPart` | apps/api/src/projection-scoring.ts:302-303 | a lifted floor has gone its part of the way to the mean, to the nearest cent |
| `Scenario.ScoredWeek.constructor` | apps/api/src/projection-scoring.ts:204-214 | a scenario survives exactly when the rounded mean does not contradict it |
| `Scenario.ScoredWeek.ApplyFloorLift` | apps/api/src/projection-scoring.ts:300-311 | only the floor moves, up and never past the mean |
| `Scenario.PointsLieBetween` | apps/api/src/projection-scoring.ts:246-291 | points lie between the surviving scenarios' points |
| `Scenario.LiftAll` | apps/api/src/projection-scoring.ts:220-224 | every floor of a week not off moves by the player's lift, and all weeks stay in order |

## Left out

- Two processes sharing one JSON file: the code documents that they can interleave between read and rename (apps/api/src/store.ts:304-307); the model's store serializes its writes.
- Publication.WritesLandInAcquisitionOrder: `synchronizeLeagueMetadata` (apps/api/src/sync.ts:51-65), the player directory and league removal publish without a lease guard; they are unordered changes in the runs.
- Fencing.FencedOut: `serialized` and `perform` are steps of the state machine rather than methods, because other runs come between them; what a synchronization fetches is an arbitrary write.
- PlayerDirectory.FetchesAreSpaced: covers refreshes that finish or crash within their five-minute lease on agreeing clocks; `PlayerDirectory.OverlongRefreshesCollide` shows that others can fetch at the same moment.
- Sessions.PruningIsUnobservable: outcomes are compared as accepted, and with which session, or rejected; which rejection text is shown can differ once a session has been forgotten.
- Sessions.OneCurrentUnlessForked: a request is one step; two overlapping requests of one client can interleave store writes in the code.
- RateLimit.AtMostTwiceTheBudget: holds for windows no sweep disturbs; `RateLimit.SparesExactly` says which those are and `RateLimit.MixedWindowsExceed` exceeds the bound when a shorter limiter sweeps; response headers are not modelled.
- WorkerQueue.StepKeepsConsistent: the lease attempt, jitter and backoff are not modelled; loop exit and removal are one step; a failed renewal also rejects the loop's promise, which a Node process may end on, and the model goes on.
- RetentionSweep.Sweep: the method runs alone, and `Connections.SweepIsSafeAmidJobs` covers jobs in between; account edits during a sweep are not covered, and whether a season is historical is a parameter.
- Kicker.NormalizeKickerStats: values of the wrong type and missing fields cannot be expressed; names are taken as trimmed.
- Defense.NormalizeDefenseStats: values of the wrong type and missing fields cannot be expressed; names are taken as trimmed; the order in which several faults are reported is not modelled; `Other` keys stand for keys outside the canonical ones.
- Derivation.DerivedDefenseIsValid: the upper check on a mean never refuses one, because without a possible top tier the code multiplies zero by infinity (apps/api/src/defense.ts:68); the model has no upper check, and the spread that gives the cumulative distribution is a parameter.
- Connections.AttemptsAndRetiring: of an attempt only its time, its success and the next attempt are modelled; status, duration, failure counts and per-resource freshness are not.
- Citations.AlwaysIntact: covers scoring observations, forecasts, roster history, advice and outcomes, the collections with references; player aliases and aging the run log are not modelled.
- Store.JsonStore.PruneRosterHistory: groups are structured values, not the colon-joined text the code builds, so ids that contain colons cannot collide.
- GreedyLineup.Assign: the result is recorded slot by slot rather than as the list of filled slots.
- LineupOutlook.FillableSlots: the week's projected total over the matched players is not modelled.
- Csv.ParseRows: turning rows into records by trimmed header names is not modelled.
- Scenario.Stability: the square root is a parameter, required only to be the nonnegative number whose square is the variance of the targets.
- Sums over reals are exact: floating-point error, the accuracy of the error function and of `exp` are not modelled; of `1 - exp(-x)` only that it is a probability no larger than `x` is used.
- Hashing, token generation, cookies, HTTP routing, CSRF tokens, logging, metrics, time zones and display text: plumbing or a single branch settles them.
- Trade generation, waiver ranking, streamer profiles, provider clients and the PostgreSQL adapter: filters, text or code that is not part of this model.
