# Carbuyer pipeline: verified model

Carbuyer is a staged pipeline. Scrapers store auction lots and private listings; an enricher, a vision
pass and a valuator fill in what is known about each of them; a bid poller follows the auctions; a want-list
ledger decides what is alerted, at once by the notifier or in the nightly digest; a distiller turns closed
lots into historical sales, from which fair values are computed. Several workers write the status columns of
the same rows.

This project models that logic in Dafny 4.11 and proves what it promises, over every input and every run.
`dafny verify dfyconfig.toml` checks all of it.

| module | what it models |
|---|---|
| `Base`, `Offers`, `Stages` | the stored offer with its status columns and retry counters; `OfferRow` is the row that workers load, assign to and commit |
| `Reals`, `Folds`, `Text` | products, sums, sorting and text matching used by the proofs |
| `Channels`, `Comps`, `FairValue`, `Pricing` | comp sets, fair value, costs and scores, in exact reals |
| `Matcher` | wants against offers, and the gate on raw offers |
| `Upserts`, `Ingester` | find-or-insert writes, the content cascade, a listing's price history, the pull and the disappearance pass |
| `Enricher`, `Vision`, `Valuator`, `Freshness` | the writers of valuation inputs, and the valuation as a cache of them |
| `BidPoller`, `LotLifeCycle`, `Distiller` | one poll cycle, a lot's life over all cycles, and what distilling conserves |
| `Ledger`, `Notifier`, `Digest`, `FireOnce`, `OneAlert`, `TwoAlerts` | the want-match ledger, its two deliveries, and its guarantees over all runs |
| `Queue`, `Workers`, `Wakeup`, `ClaimProtocol` | claims, batches, sweeps and retries; wakeups; the lock protocol under crashes |

Each method that changes state is proved to compute a function of the old state; the lemmas are about those
functions and about runs built from them. Network answers, model answers, Discord posts, query results and
the clock are parameters: the results hold for all of them. A committed transaction is one atomic step.
Runs are sequences of states in which each step is one of a module's events.

Where the code and its own documentation differ, the model follows the code:

- `apps/dashboard/routers/actions.py` says that one NOTIFY drains every pending row. Each wakeup handles one
  batch, and only a transient outcome wakes the worker again; `Wakeup.OneNotifyDrainsIff` gives the exact
  condition, for every outcome of every row.
- A lot observed as closed stores the bid observed with the close, not the last known one;
  `LotLifeCycle.CloseStoresTheObservedBid` says when the two agree.
- Not every closed lot has a close time; `LotLifeCycle.CloseTimeMeansItWasOpen` says which do.
- A watched lot leaves the recent-lot window after 14 days and is distilled after 90, and a purchased lot is
  never distilled: between the two they are no comps. `Distiller.SettledLotContributes` states the count.
- `wants/repo.py` means one vehicle to alert once per want; a relisting or a late VIN can double it, and
  `OneAlert.OneLiveAlertIffHarmless` says exactly when.

## Model

The main results come first. From `Comps.BuildCompSet` on come the operations, each proved against a function of
its inputs or of the old state, and from `FairValue.FewerThanAQuarterBeyond` on the supporting facts: among them, for
each function that an operation is proved against, what it means in the source's own columns and constants.

| member | source | states |
|---|---|---|
| FairValue.TrimKeepsMost | src/carbuyer/scoring/fair_value.py:55-74 | the trim drops nothing when at most five mileages are known, and always fewer than a quarter of the known ones |
| FairValue.VerdictFollowsCompCount | src/carbuyer/scoring/fair_value.py:77-124 | insufficient exactly when fewer than five comps were given, whatever was trimmed; twelve comps always give high confidence, and high confidence needs ten |
| FairValue.FairValueIsOrdered | src/carbuyer/scoring/fair_value.py:91-124 | smallest comp price <= low <= mid <= high <= largest, and low <= expected <= high, in the decile form and in the min/max form |
| FairValue.FairValueIsReadOffPrices | src/carbuyer/scoring/fair_value.py:91-124 | the whole computation against a reference: count, confidence and the four values, read off the ascending private-party prices of the kept comps by rank and by the position of the condition |
| FairValue.ChannelsAreMultipliers | src/carbuyer/scoring/channels.py:49-56 | stating every comp as a private sale, at its price times the multiplier of its channel, changes no value |
| FairValue.RangeReadsRanks | src/carbuyer/scoring/fair_value.py:98-108 | for all prices: from ten on low, mid and high are the values at ranks (n+1)/10, (n+1)/2 and 9(n+1)/10, straight lines drawn between neighbours; below ten, low and high are the ends |
| FairValue.ExpectedFollowsCondition | src/carbuyer/scoring/channels.py:35-72 | expected value rises along bad, poor, sparse decent, decent, good, great, from low to high, and strictly around the sparse position unless the range is one point |
| FairValue.RaisingPricesNeverLowersValue | src/carbuyer/scoring/fair_value.py:77-124 | raising comp prices pointwise lowers none of the four values and changes neither count nor confidence |
| FairValue.OrderOfCompsIsIrrelevant | src/carbuyer/scoring/fair_value.py:77-124 | any reordering of the comps gives the same fair value |
| Pricing.LowerBidScoresHigher | src/carbuyer/scoring/score.py:42-107 | despite cap and floor, a lower bid costs strictly less and scores strictly higher |
| Matcher.LowerPriceIsNeverWorse | src/carbuyer/wants/delivery.py:19-44 | a lower price keeps every match, strictly raises the want score and keeps an instant alert instant |
| Matcher.WantIsItsCriteria | src/carbuyer/wants/matcher.py:39-60 | a want accepts exactly what each of its criteria, as a want of its own, accepts |
| Matcher.AcceptedOfferPassesTheGate | src/carbuyer/wants/matcher.py:85-149 | an offer that some want accepts passes the gate on its own make, model and year, whatever its title, for flat wants and for model specs |
| Enricher.MatchIsNeverGatedOut | src/carbuyer/apps/enricher/enricher.py:400-415 | the enricher's gate never skips an offer that some want accepts as it stands |
| Upserts.PriceHistoryIsExact | src/carbuyer/db/upserts.py:277-352 | after any sightings the price is the last known one, the drop count the number of strict decreases, the original the first known or the one before the first drop, the previous the one before the last change |
| Upserts.RescrapeRequeuesExactly | src/carbuyer/db/upserts.py:226-248 | a rescraped lot is re-queued in all stages, a skipped vision pass excepted, exactly when the record brings another title, description or parser or other photos |
| Upserts.RelistingRequeuesExactly | src/carbuyer/db/upserts.py:327-334 | so is a listing, whose valuation is also re-queued exactly when its price has changed |
| Ingester.EachSightingIsStoredOnce | src/carbuyer/apps/ingester/ingester.py:157-188 | a listing found for several wants is stored once, with its first result, the stage it waits for is woken, and no other listing is touched |
| Ingester.ActiveMeansSeen | src/carbuyer/apps/ingester/ingester.py:191-217 | after a successful pull a source's active listings are those seen in it as active, and other sources' listings are untouched |
| Valuator.NotificationFollowsTheLedger | src/carbuyer/apps/valuator/valuator.py:249-286 | a valued row calls the notifier exactly when the ledger after the evaluation holds an un-notified, undismissed instant match of an enabled want, or the valuation is done without showstoppers above the flag threshold |
| Valuator.LedgerFollowsTheValuation | src/carbuyer/apps/valuator/valuator.py:271-280 | that ledger holds, for each enabled want that accepts the row as valued, a match with the new score, and is otherwise as before |
| Valuator.AppraisalIsExact | src/carbuyer/apps/valuator/valuator.py:222-245 | every column of the appraisal from the row, its comps and its fees |
| Freshness.ValuedMeansFresh | src/carbuyer/apps/valuator/valuator.py:205-286 | in every reachable state, done or insufficient means that the row's price, make, model, year, trim, mileage, condition, sparse flag and flags equal those the last valuation used, and that the stored appraisal is theirs |
| Freshness.OverlapIsHarmlessIfTheInputsStay | src/carbuyer/apps/valuator/valuator.py:328-337 | a row that any other transaction wrote inside a valuation says it is valued, and is fresh exactly when that transaction left the inputs alone |
| Freshness.OverlapStoresTheWrongFigures | src/carbuyer/apps/valuator/valuator.py:113-159 | the stored figures are those of the present row exactly when the bid did not change or the comps were too few |
| Freshness.OverlapLeavesAStaleRow | src/carbuyer/apps/bid_poller/poller.py:195-224 | a lot, a market of five comps and an observation where the row says done and is stale |
| BidPoller.BucketsPartitionTheRows | src/carbuyer/apps/bid_poller/poller.py:105-192 | on rows in end order, fast followed by slow is the pollable rows, in order and once each |
| LotLifeCycle.CycleIsExact | src/carbuyer/apps/bid_poller/poller.py:331-361 | what a cycle does to each queried row: polled exactly when due and within the first 20 rows ending in two hours or the first 50 others, logged and written if it answers, force-closed a day to a week past end, else untouched |
| LotLifeCycle.BoardTracksHistory | src/carbuyer/apps/bid_poller/poller.py:195-248 | in every reachable state the bid is the last known one of the history, and every close time comes with the right final bid |
| LotLifeCycle.SettledLotsStaySettled | src/carbuyer/apps/bid_poller/poller.py:108-124 | over any run a lot that left the open statuses keeps its status, close time, final bid and bid |
| LotLifeCycle.CloseTimeMeansItWasOpen | src/carbuyer/db/upserts.py:183-200 | a lot that is not open has a close time exactly when it was open on insertion |
| Comps.CompSetIsExact | src/carbuyer/scoring/comps.py:182-235 | the comp set holds what sales, lots and listings contribute and nothing else |
| Distiller.NoCompLostOrDoubled | src/carbuyer/apps/auction_distiller/distiller.py:109-167 | on the tables any night leaves, the comp set of the same moment is the earlier sales, the listings, and each stored lot's contribution exactly once |
| Ledger.EvaluationIsExact | src/carbuyer/wants/service.py:66-92 | evaluating an offer scores or creates exactly the matches of the enabled wants that accept it, with old stamps and dismissals kept and copies dismissed |
| Notifier.StampedExactlyTheDelivered | src/carbuyer/apps/notifier/notifier.py:69-174 | a match is stamped exactly when it is outstanding, still accepted, instant, outside quiet hours, and its post went through |
| Digest.DigestReadsAsQueried | src/carbuyer/apps/digest/digest.py:40-65 | read from top to bottom the digest is the query result |
| FireOnce.BetweenDeliveriesThePriceDropped | src/carbuyer/db/upserts.py:335-350 | over every run, between any two deliveries of one match its offer's price dropped |
| FireOnce.DeliversOnlyOnceSinceADrop | src/carbuyer/apps/notifier/notifier.py:365-379 | a step that delivers a match finds it undelivered since its offer's last drop |
| FireOnce.FiresOncePerDrop | src/carbuyer/db/upserts.py:335-350 | over every run a match is delivered at most once more often than its offer's price dropped, and a stamp stands on an undismissed match exactly while a delivery since the last drop does |
| FireOnce.DeliversOnlyWhatIsDue | src/carbuyer/apps/notifier/notifier.py:79-88 | a step delivers a match at most once, and only an un-notified, not dismissed one of an enabled want, which it stamps |
| OneAlert.OneLiveAlertIffHarmless | src/carbuyer/wants/repo.py:117-177 | over any run each want has at all times at most one non-dismissed match with a live offer for each VIN, exactly when no write to an offer doubled a covered vehicle |
| OneAlert.OneVehicleOneLiveAlert | src/carbuyer/wants/repo.py:117-177 | in particular when stored VINs never change and offers that stopped being live never return |
| OneAlert.RelistingKeepsOneIff | src/carbuyer/db/upserts.py:318-326 | a relisting breaks this exactly when it brings back a listing whose vehicle the duplicate query finds covered |
| OneAlert.EnrichmentKeepsOneIff | src/carbuyer/apps/enricher/enricher.py:302-302 | an enrichment breaks it exactly when the VIN it writes makes a live offer's match a copy of a covered one |
| TwoAlerts.RelistingRevivesACopy | src/carbuyer/wants/repo.py:120-133 | a run from the empty database in which a relisting leaves two live alerts for one vehicle |
| TwoAlerts.LateVinMakesACopy | src/carbuyer/apps/enricher/enricher.py:302-302 | a run from the empty database in which a late VIN does |
| Workers.CatchupSweep | src/carbuyer/apps/valuator/valuator.py:398-426 | orphans are recovered and counted, the loop ends, and it ends with no pending row |
| Workers.SweepDrains | src/carbuyer/apps/notifier/notifier.py:476-504 | a sweep claims no more often than the work it found and touches only rows that were pending |
| Workers.SweepProcessesOrphansToo | src/carbuyer/apps/enricher/enricher.py:508-540 | each row that was pending or in progress ends as some pass of the sweep leaves it, every other row as it was |
| Workers.SweepFinishesAll | src/carbuyer/apps/valuator/valuator.py:398-426 | when every pass finishes its rows with one status, all pending and in-progress rows end with it |
| Workers.LifetimeRetryBudget | src/carbuyer/apps/enricher/enricher.py:433-443 | over any run a row is put back by a counted failure at most max - 1 times, then every counted failure writes FAILED; the counter never goes down |
| Wakeup.NoLostWakeup | src/carbuyer/apps/enricher/enricher.py:467-505 | pending rows never exceed a batch per outstanding NOTIFY; idle with none queued, nothing is pending |
| Wakeup.OneNotifyDrainsIff | src/carbuyer/apps/valuator/valuator.py:429-438 | whatever happens to the rows, one NOTIFY drains the table exactly when the rows pending before the last batch it leads to, self-NOTIFYs included, fit into that batch |
| Wakeup.OneBatchDrainsIff | src/carbuyer/apps/valuator/valuator.py:364-395 | one batch drains the table exactly when the pending rows fit into it and none of them is put back |
| ClaimProtocol.OneOwner | src/carbuyer/shared/singleton.py:38-71 | over every interleaving of starts, lock attempts, claims and crashes at most one live process works |
| ClaimProtocol.RecoveryTouchesNoLiveRow | src/carbuyer/db/queue.py:112-145 | recovery resets no row a live process is working on, and leaves no orphan |
| ClaimProtocol.ClaimTakesNoOwnedRow | src/carbuyer/db/queue.py:55-88 | a claim takes no row of any live batch, even one re-pended meanwhile |
| ClaimProtocol.InProgressMeansClaimedHere | src/carbuyer/db/queue.py:36-52 | while a worker runs, an in-progress row is one it claimed itself |
| Comps.BuildCompSet | src/carbuyer/scoring/comps.py:82-235 | the comp list is the concatenation, row by row, of what historical sales, recent closed lots and disappeared listings contribute |
| Upserts.ApplyContentCascade | src/carbuyer/db/upserts.py:226-248 | a changed content column re-queues all stages, vision only if it was not skipped, and nothing else does |
| Upserts.UpsertLotWithStatusCascade | src/carbuyer/db/upserts.py:141-223 | a new lot is stored as scraped; a known one refreshes content, row id and end time, and keeps its facts, bid and lot status |
| Upserts.UpsertPrivateListing | src/carbuyer/db/upserts.py:251-352 | the whole new row of a new or known listing, and that the fire-once stamps of its matches are cleared exactly on a strict price drop |
| Ingester.ListingStore.PullSource | src/carbuyer/apps/ingester/ingester.py:157-188 | the loops over wants and results store, re-open, wake and see what the fold over all results does |
| Ingester.ListingStore.RunListingPull | src/carbuyer/apps/ingester/ingester.py:220-243 | the loop over sources: one that raised keeps what it stored and is neither reconciled nor counted |
| Enricher.ApplyToLot | src/carbuyer/apps/enricher/enricher.py:254-340 | the row after an enrichment: facts, engine and title status, assessment, enrichment done, valuation re-queued |
| Enricher.ProcessOne | src/carbuyer/apps/enricher/enricher.py:381-464 | missing row or auction, gate, success, transient and permanent failure: the row and the outcome of each, and the valuator woken exactly after a success |
| Vision.ApplyVision | src/carbuyer/apps/vision_batcher/batcher.py:104-168 | the row after the photo pass, when the override fires, and when an unrankable stored condition abandons the write |
| Valuator.ApplyPricing | src/carbuyer/apps/valuator/valuator.py:113-159 | the money columns of an auction lot, with the fee defaults |
| Valuator.ApplyListingPricing | src/carbuyer/apps/valuator/valuator.py:162-202 | the money columns of a private listing, at the asking price less the haircut |
| Valuator.ValueOne | src/carbuyer/apps/valuator/valuator.py:205-286 | the row and the ledger after one valuation, including the want evaluation and the forced notification |
| Valuator.ProcessOne | src/carbuyer/apps/valuator/valuator.py:328-361 | a failing valuation runs, is rolled back in row and ledger, and is recounted; the notifier is woken exactly when a valuation ends in pending notification |
| BidPoller.WriteObservation | src/carbuyer/apps/bid_poller/poller.py:195-248 | the row after one observation, and that a wakeup is sent exactly when the bid changed |
| BidPoller.Poller.LoadOpenLotRefs | src/carbuyer/apps/bid_poller/poller.py:91-192 | the loop fills the two buckets in order and force-closes exactly the stale rows |
| BidPoller.Poller.Cycle | src/carbuyer/apps/bid_poller/poller.py:331-361 | one pass sweeps the stale lots, then polls the capped fast and slow buckets in that order |
| Distiller.Archive.DistillLot | src/carbuyer/apps/auction_distiller/distiller.py:48-96 | one step adds exactly one sale and removes exactly that lot |
| Distiller.Archive.Run | src/carbuyer/apps/auction_distiller/distiller.py:99-167 | a night moves exactly the eligible lots whose auction row exists and whose transaction does not fail |
| Ledger.WantLedger.UpsertWantMatch | src/carbuyer/wants/repo.py:98-140 | a known match is only re-scored; a new one starts un-notified, and dismissed exactly when its vehicle is covered |
| Ledger.WantLedger.EvaluateLotAgainstWants | src/carbuyer/wants/service.py:66-92 | the loop over enabled wants, and that it reports exactly the newly created matches |
| Ledger.WantLedger.BackfillWant | src/carbuyer/wants/service.py:95-157 | the two loops over valued lots and listings, and the count of findable matches |
| Notifier.LoadWantAlerts | src/carbuyer/apps/notifier/notifier.py:69-116 | the alerts are those of the outstanding matches whose want is valid and still accepts the offer, in query order |
| Notifier.PostWantAlerts | src/carbuyer/apps/notifier/notifier.py:119-174 | the flags and the stamped ids of the posting loop |
| Notifier.ProcessOne | src/carbuyer/apps/notifier/notifier.py:250-434 | row, ledger and outcome of one claimed offer in every branch, a row that vanishes before the write included |
| Digest.BuildDigest | src/carbuyer/apps/digest/digest.py:35-65 | the loop lists every row's id and groups every row under its want name |
| Digest.Run | src/carbuyer/apps/digest/digest.py:68-105 | stamps what was posted, and nothing when the post failed |
| Queue.StageTable.ClaimPendingIds | src/carbuyer/db/queue.py:55-88 | the claim and the marker it leaves |
| Workers.ProcessPending | src/carbuyer/apps/enricher/enricher.py:467-505 | each claimed row is processed once, in whatever order, no other row is touched, and a self-NOTIFY follows exactly a transient outcome |
| Wakeup.ListenToOne | src/carbuyer/apps/valuator/valuator.py:429-438 | the listener loop from one NOTIFY on ends, with the table that the chain of its batches leaves |
| FairValue.FewerThanAQuarterBeyond | src/carbuyer/scoring/fair_value.py:55-74 | fewer than a quarter of any known mileages lie more than two standard deviations from their mean |
| FairValue.FarthestDeviation | src/carbuyer/scoring/fair_value.py:64-73 | no deviation exceeds the square root of n - 1 standard deviations (Samuelson's inequality) |
| FairValue.TrimDropsTheFarOnes | src/carbuyer/scoring/fair_value.py:64-74 | a comp is dropped exactly when its known mileage is more than two standard deviations from the mean |
| FairValue.ElevenMayBeMedium | src/carbuyer/scoring/fair_value.py:64-116 | twelve is exact: eleven comps, two of them far out, give medium confidence |
| Folds.SortedIsAscendingPermutation | src/carbuyer/scoring/fair_value.py:91-97 | sorting yields the same prices in ascending order |
| Folds.SortDominance | src/carbuyer/scoring/fair_value.py:91-97 | pointwise dominance of one price list over another survives sorting both |
| Pricing.PremiumIsClamped | src/carbuyer/scoring/score.py:42-55 | the premium is linear between floor and cap, never below the floor, never above the cap unless the floor is |
| Pricing.UncappedCost | src/carbuyer/scoring/score.py:58-79 | without cap and floor the cost is bid (1 + premium) (1 + taxes) + landed cost |
| Pricing.DealScoreIsADiscount | src/carbuyer/scoring/score.py:82-107 | a deal score is the discount from the expected value to the all-in cost |
| Pricing.WantScoreIsADiscount | src/carbuyer/wants/deal.py:32-56 | a want score is the discount from the market reference to the price |
| Matcher.GateKeepsEveryMatch | src/carbuyer/wants/matcher.py:85-149 | an offer that some want accepts was kept by the gate, for flat wants and for model specs, if the raw text mentions the make and model the want asks for and the raw year is absent or right |
| Matcher.GateKeepsTitleOnlyMatch | src/carbuyer/wants/matcher.py:85-137 | the same when make and model occur in the raw title alone and no year was scraped |
| Upserts.PriceHistoryFacts | src/carbuyer/db/upserts.py:304-352 | a first known price stays the original, a positive drop count has an original, a known previous price differs from the current one |
| Ingester.DisappearedBecomesAComp | src/carbuyer/apps/ingester/ingester.py:191-217 | an active listing missing from a successful pull is removed at that moment and is one private comp at its last asking price for the offers it fits |
| Enricher.EnrichmentKeepsKnownFacts | src/carbuyer/apps/enricher/enricher.py:272-299 | known facts are never erased, answers that say something win, and no implausible year or mileage gets in |
| Vision.OverrideIsOneSidedAndIdempotent | src/carbuyer/apps/vision_batcher/batcher.py:120-165 | the override lowers a condition by at least two ranks, re-queues the valuation, and never doubles its flag |
| Valuator.StatusTellsTheVerdict | src/carbuyer/apps/valuator/valuator.py:249-286 | insufficient exactly with fewer than five comps; notified exactly for an instant match, or a done valuation without showstoppers and above the flag-weight threshold |
| Valuator.LowerBidStoresHigherScore | src/carbuyer/apps/valuator/valuator.py:113-147 | two valuations that differ in the bid alone: same range, and the lower bid stores the lower cost and the higher score |
| Freshness.OverlapIsHarmlessIfTheBidStays | src/carbuyer/apps/bid_poller/poller.py:218-224 | an observation committed inside a valuation leaves a row that says it is valued, and that row is fresh exactly when the observation did not change the bid |
| Freshness.WritersRequeue | src/carbuyer/apps/bid_poller/poller.py:218-224 | every writer but the valuator leaves the valuation inputs alone or leaves the row pending |
| BidPoller.UrgentIsWithinTwoHours | src/carbuyer/apps/bid_poller/scheduler.py:15-45 | an open lot is fast exactly when its known end is at most two hours away |
| LotLifeCycle.PolledOnce | src/carbuyer/apps/bid_poller/poller.py:331-361 | a cycle polls no lot twice and only rows that can be polled |
| LotLifeCycle.ForceClosedAreTheStale | src/carbuyer/apps/bid_poller/poller.py:128-158 | a row is force-closed by a cycle exactly when it is more than a day and at most a week past end |
| LotLifeCycle.LeavingOpenSetsCloseTime | src/carbuyer/apps/bid_poller/poller.py:154-157 | a lot leaves the open statuses only in a poll cycle, which stamps its close time |
| LotLifeCycle.CloseStoresTheObservedBid | src/carbuyer/apps/bid_poller/poller.py:240-248 | the stored final bid is the last known one exactly when the close carried a bid or none was ever known |
| LotLifeCycle.LateEndReopens | src/carbuyer/apps/bid_poller/poller.py:226-232 | written to a closed lot, an ordinary observation with a late end, and nothing else, re-opens it |
| Distiller.SettledLotContributes | src/carbuyer/scoring/comps.py:182-217 | a settled lot that fits contributes one comp if moved or recent and none otherwise; an unwatched, unpurchased one whose transaction succeeds always one |
| Notifier.OutcomeIsExact | src/carbuyer/apps/notifier/notifier.py:365-434 | skipped, done, retried or failed, in terms of what was sent, delivered and refused |
| Digest.GroupsHoldTheirRows | src/carbuyer/apps/digest/digest.py:54-65 | each name heads one group, holding exactly the rows of that name in order |
| Digest.DigestLeavesNothingOutstanding | src/carbuyer/apps/digest/digest.py:88-105 | after a delivered digest no match is outstanding |
| Queue.ClaimTakesTheFirst | src/carbuyer/db/queue.py:77-84 | a claim takes pending unlocked rows only, lowest ids first, and leaves one out only when it is full |
| Workers.EnricherRefines | src/carbuyer/apps/enricher/enricher.py:381-464 | the enricher's write is one of the row steps that the sweep and budget results cover |
| Workers.ValuatorRefines | src/carbuyer/apps/valuator/valuator.py:328-361 | the same for the valuator |
| Workers.NotifierRefines | src/carbuyer/apps/notifier/notifier.py:365-434 | the same for the notifier |
| Wakeup.UneventfulNotifyDrainsOneBatch | src/carbuyer/apps/dashboard/routers/actions.py:132-147 | without a transient outcome one NOTIFY drains the table exactly when its pending rows fit into one batch |
| Workers.BatchLightens | src/carbuyer/apps/valuator/valuator.py:339-361 | every claimed row takes at least one unit off the sum of max(1, max attempts - attempts) over pending rows |
| Valuator.EveryPassCountsOnce | src/carbuyer/apps/valuator/valuator.py:339-361 | a pass that writes the row adds exactly one attempt, although the transaction of a failing one is rolled back; a failing one leaves the inputs, the appraisal and the ledger alone |
| Pricing.InstantIsExact | src/carbuyer/wants/delivery.py:19-44 | a match is for the digest exactly when it is priced, below the threshold, not dropped and not about to close |
| Pricing.HaircutIs | src/carbuyer/scoring/asking_haircut.py:23-34 | 5 percent off a private asking price, 3 off a dealer's |
| Pricing.ReferenceIs | src/carbuyer/wants/deal.py:38-38 | the expected value is the reference, or else the middle one |
| Matcher.IdentityIs | src/carbuyer/wants/matcher.py:63-82 | model specs or else flat lists; make, model and year must be known where asked for, a trim need not |
| Matcher.CeilingsAre | src/carbuyer/wants/matcher.py:160-162 | ceilings on price and mileage are lenient about the unknown; showstoppers hide |
| Matcher.ListsAre | src/carbuyer/wants/matcher.py:139-170 | a province must be known and listed, a transmission or drivetrain listed or not known |
| Matcher.ConditionFloorIs | src/carbuyer/wants/matcher.py:173-178 | which ratings meet which floor, and that unrated and sparse ones do |
| Text.CaseAndBlanksDoNotMatter | src/carbuyer/wants/matcher.py:139-149 | letter case and outer blanks make no difference to matching |
| Upserts.RescrapeKeeps | src/carbuyer/db/upserts.py:199-223 | facts, bid, lot status and everything the workers wrote stay; row id, end and content are refreshed |
| Upserts.RelistingKeeps | src/carbuyer/db/upserts.py:308-326 | what the record does not carry stays; status and content are refreshed |
| Upserts.NewOffersAreExact | src/carbuyer/db/upserts.py:172-198 | a new offer waits for every stage, with the scraped columns |
| Ingester.SightingsAreWoken | src/carbuyer/apps/ingester/ingester.py:182-187 | a stored sighting wakes the enricher if it waits for it, else the valuator if it waits for that |
| Ingester.PullReopensExactly | src/carbuyer/db/upserts.py:335-350 | a pull clears exactly the stamps of undismissed matches of listings that turned up cheaper |
| Ingester.RaisedPullsCloseNothing | src/carbuyer/apps/ingester/ingester.py:233-238 | a source that raised closes no listing and is not counted |
| Ingester.TotalCountsTheFound | src/carbuyer/apps/ingester/ingester.py:239-243 | the total counts the distinct listings of the sources that did not raise |
| Enricher.AssessmentIsExact | src/carbuyer/apps/enricher/enricher.py:306-323 | the stored assessment, with a low-confidence condition stored as a sparse "decent" |
| Enricher.GatedColumnsAreExact | src/carbuyer/apps/enricher/enricher.py:284-304 | "unknown" answers leave the stored word, others replace it |
| Enricher.PassIsExact | src/carbuyer/apps/enricher/enricher.py:381-464 | what one pass skips, counts, retries and hands on |
| Vision.OverrideIsExact | src/carbuyer/apps/vision_batcher/batcher.py:120-168 | when the photos override the description, and with what |
| Vision.UnratedIsExact | src/carbuyer/apps/vision_batcher/batcher.py:120-168 | what happens to a stored condition that is missing or has no rank |
| Valuator.FeesAreDefaulted | src/carbuyer/apps/valuator/valuator.py:122-126 | the fee defaults for missing and zero rates |
| Ledger.CopiesAre | src/carbuyer/wants/repo.py:143-177 | which live matches make a new one a copy |
| Ledger.VinsCompareCaseless | src/carbuyer/wants/repo.py:149-170 | VINs are compared without letter case, and none is no match |
| Ledger.LedgerWritesAreExact | src/carbuyer/wants/repo.py:117-120 | what a price drop, a stamp and a dismissal write |
| Ledger.BackfillIsExact | src/carbuyer/wants/service.py:95-157 | a backfill writes exactly the matches of the offers the want accepts |
| Comps.BandIsExact | src/carbuyer/scoring/comps.py:102-140 | make, model, year, mileage and trim of the band |
| Comps.SaleCompIsExact | src/carbuyer/scoring/comps.py:184-200 | which past sales are comps, at what price |
| Comps.LotCompIsExact | src/carbuyer/scoring/comps.py:201-217 | which closed lots are comps, at what price |
| Comps.ListingCompIsExact | src/carbuyer/scoring/comps.py:218-235 | which disappeared listings are comps, at what price |
| Distiller.EligibleIsExact | src/carbuyer/apps/auction_distiller/distiller.py:109-138 | which lots are distilled when |
| Distiller.DistilledCompIs | src/carbuyer/apps/auction_distiller/distiller.py:48-96 | the price and channel a distilled lot has as a comp |
| LotLifeCycle.ObservationIsExact | src/carbuyer/apps/bid_poller/poller.py:195-248 | every column one observation writes to an open lot |
| BidPoller.SoonerEndsArePolledSooner | src/carbuyer/apps/bid_poller/scheduler.py:15-45 | an open lot that ends sooner is never polled later |
| Queue.RecoveryIsExact | src/carbuyer/db/queue.py:130-145 | recovery puts each orphan back with its counter and touches nothing else |
| Queue.RecoveryCounts | src/carbuyer/db/queue.py:138-145 | the pending rows grow by the returned count |
| Queue.MarkIsExact | src/carbuyer/db/queue.py:36-52 | a claimed row is in progress with its counter |
| Stages.RetryIsExact | src/carbuyer/apps/enricher/enricher.py:433-443 | when a counted failure is final |
| Matcher.GateIsExact | src/carbuyer/wants/matcher.py:85-137 | what the gate keeps and drops |
| Notifier.VanishedIsExact | src/carbuyer/apps/notifier/notifier.py:290-420 | what a row that vanished before the write reports |
| Ledger.FindableIsExact | src/carbuyer/wants/service.py:114-157 | the backfill counts the accepted rows whose match is not dismissed in the end |
| Valuator.CanValueIs | src/carbuyer/apps/valuator/valuator.py:95-97 | what a valuation needs |
| Valuator.DealerIs | src/carbuyer/scoring/asking_haircut.py:23-27 | who counts as a dealer |
| Valuator.FlagWeightsAddUp | src/carbuyer/scoring/score.py:110-141 | flag weights add up, and unknown flags weigh nothing |
| Workers.TransientIs | src/carbuyer/apps/notifier/notifier.py:459-472 | which outcomes send the self-NOTIFY |

## Left out

- Freshness.ValuedMeansFresh: province, seller type, auction fees and market are those of the last valuation, because the code does not re-queue on them.
- OneAlert.OneVehicleOneLiveAlert: needs fixed VINs and offers that never return, which the code does not ensure; `OneLiveAlertIffHarmless` has the exact condition.
- Matcher.GateKeepsEveryMatch: letter case is folded for ASCII letters only.
- FireOnce.FiresOncePerDrop: a post and its stamp are one step, so a crash between the two is outside it; deleting wants, matches or offers is not an event.
- Wakeup.NoLostWakeup: assumes that LISTEN is held from an empty queue, that no exception escapes a batch, and that no auction is re-routed, which re-pends its lots without a NOTIFY to the enricher.
- Vision.ApplyVision: the findings, confidence and contradiction columns are not modelled, since no stage modelled here reads them.
- Enricher.ApplyToLot: description quality, summary, rarity, Carfax, recall and complaint columns are not modelled, since no stage modelled here reads them.
- Workers.CatchupSweep: nobody re-pends rows while it runs.
- Overlapping transactions, isolation levels, the loss of the lock connection and LISTEN reconnects.
- HTTP clients, parsers, GraphQL queries, language-model prompts, Carfax, NHTSA and vPIC lookups: their results are arbitrary parameters.
- Discord posting, channel lookup, message texts, the bot and the dashboard pages; a post is a parameter that says yes or no.
- Floating-point and NUMERIC rounding, time zones; the z-score test is compared in squares.
- The landed-cost tables, the flag taxonomy and the quiet-hours clock enter as parameters.
- The auction row and its upsert, the closing-soon and extended triggers with their timestamps, and the want and offer forms of the dashboard: no property here reads them.
- Batches of the vision pass and its shortlist: a single loop without retries.
- The order in which sources and strategies run, configuration, logging, migrations and services.
