# Verified models of the hot-deal notifier

The service crawls hot-deal sites for the keywords of its users, reports what is new by e-mail, and keeps its users
logged in with rotating refresh tokens. This project models the parts of it that carry state from one call to the next
and proves what they keep over whole runs.

`dafny verify dfyconfig.toml` checks everything. Where a lemma could be given an induction hypothesis by the verifier it is
marked `{:induction false}`: every induction is written out.

| files | what they model |
|---|---|
| `ProxyPool`, `PoolInvariant`, `PoolLaws`, `PoolRuns`, `PoolBans`, `PoolFairness`, `PoolPacing` | the proxy scheduler as a value, the invariant of its operations, exact accounts of collecting and rehabilitating, and what holds over every run: conservation, bans, turns, pauses |
| `PoolStandings`, `PoolSource`, `PoolTallies` | the same runs told from their events alone, in the numbers of the settings: what is held of each proxy, when the source is asked, what the counters count |
| `ProxyManager` | the scheduler as the object the program shares: deque, membership set, dictionary of state objects and counters updated in place, each method tied to an operation of `ProxyPool` |
| `Retry`, `RetryLaws` | the fetch with its proxy loop and waiting budget, using the shared manager while others use it too; what each answer leads to, told from statuses, error texts and settings |
| `AnchorCsv`, `DealDetection`, `DealFeed`, `StoredRows` | stored anchors, the detection of new deals, and what repeated visits to a changing listing add up to |
| `CrawlBatch`, `CrawlLimits` | the concurrency limits of a batch and the keyword and site slots under them |
| `MailContent`, `MailFanOut` | the message body, and who gets which deals |
| `MailReading`, `MessageReading` | a reading of the messages, which cuts the text at its tags and undoes the escapes, and what it finds |
| `DealDelivery` | whole batches, from the pages of the sites over the stored rows to the mail, and what they add up to for one reader |
| `DealReading` | the same in the text of the messages that reader gets |
| `Sessions`, `SessionQueue`, `SessionLifetimes`, `SessionRotation`, `SessionStore` | the refresh-token table, who is evicted from it, how long a token lives, what rotating tokens in separate steps does over whole runs, and logging in, refreshing and logging out with other requests in between |
| `AuthClient`, `TokenStorage` | the browser script's single refresh and its two storages |

Runs are sequences of events under a clock that never goes back (`PoolRuns.Behaviour`, `Sessions.Behaviour`), of visits
to a site that posts at the new end and deletes for good (`DealFeed.Feed`), of slot movements (`CrawlBatch.Run`) or of
script turns (`AuthClient.Run`). `ProxyManagers.ProxyManager.Perform` makes any call on the manager one event of a run,
and `SessionStores.SessionStore` carries its run with it, so the run theorems speak about the objects.

## What the proofs brought out

- While no page passes over any news, new deals are reported exactly once if and only if every page, when it is visited,
  still lists a stored anchor or lists nothing as old as the newest anchor; how much of the older listing a page shows
  does not matter (`DealFeed.ExactlyOnceDelivered`; as mailed to a reader, `DealDelivery.MailedExactlyOnce`). When all
  three anchors have been deleted and older deals remain, the whole page is reported, old deals included
  (`DealFeed.UnanchoredVisitErrs`, with the input in `DealFeed.AnchorsCanAllGo`).
- A page too short for its news loses what it does not show for as long as pages stay anchored: while they do, nothing
  is lost if and only if no page passes over any news (`DealFeed.NothingLostIff`). `DealFeed.GapsCanLose` is a feed in
  which a deal is lost for good, although a later page shows it. Once a page is not anchored the deal may yet be
  reported, and then the equivalence above fails (`DealFeed.GapsCanMakeGood`). That nothing is reported twice holds of
  anchored pages of any length (`DealFeed.AtMostOnce`).
- Whatever characters titles, links, prices and search addresses contain, the text of a message can be read back, and it
  names every deal once, with its own link, title and price, site by site in name order (`MailReading.PageReads`). So the
  equivalence above holds of the text as well (`DealReading.ReadExactlyOnce`).
- The subject cuts commas and blanks off the end of the last title, so it lists the titles faithfully if and only if
  there is nothing of the kind to cut off (`MessageReading.SubjectListsTitlesIff`).
- An anchor list survives being stored as a comma-separated string if and only if every id is non-empty, free of commas
  and already stripped (`AnchorCsv.RoundTrip`).
- A refresh that fails leaves the calls that wait for it in the queue. They are retried if and only if some later
  refresh succeeds (`AuthClient.WaiterRunsIffSuccess`); `AuthClient.WaiterCanBeLeft` is a run that leaves one waiting.
- A refresh checks its token, deletes it and saves the next one in three steps, and other requests may come in between.
  Its save takes another session from its user if and only if five are active just then
  (`SessionRotation.SaveInRunEvictsIff`). With no session of the user ending in between, that is so if and only if the
  sessions left by the deletion and those saved since make five (`SessionRotation.RefreshKeepsOthersIff`). With nothing
  in between, a token that lets its user in costs no other session; a login in between can
  (`SessionRotation.RefreshCanEvict`).
- A token is rotated more than once only by requests that have all checked it before any has deleted it
  (`SessionRotation.RotatedTwiceOverlaps`), and such requests do get a successor each (`SessionRotation.TwoSuccessors`).
- A token lets its user in for seven days from its save and no longer, if and only if it is not deleted, deleted with its
  user's others, or evicted before (`SessionLifetimes.LivesSevenDays`).
- A logout deletes by the cookie alone. It touches rows of another user exactly when the cookie is that user's and
  still in the table (`SessionStores.LogoutTouchesOthersIff`, with the input in `SessionStores.LogoutCanTouchOthers`).
- "Oldest first" is first in, first out exactly when the session that has been in a full queue longest has an earlier
  creation stamp than all the others (`SessionQueue.SavesFifoIff`, `SessionQueue.SaveInRunFifoIff`). Stamps that increase
  from save to save are enough (`SessionQueue.SavesAreFifo`), but different stamps are not: a stamp is the time at which
  the transaction began, and `SessionQueue.LaterSessionCanGo` is a run in which a later session is evicted.
  `SessionQueue.EqualStampsCanGo` is one with equal stamps, of which the database may pick any.
- What the manager goes through during a fetch is exactly the fetch's own attempts and the work of others around them:
  for each attempt one hand-out and one success or failure of the proxy handed out, except that an attempt ending in an
  error the crawler does not catch records nothing (`Retry.FetchWithProxy`, `Retry.OnceEach`).
- Two branches never run: the hard-ban branch of the scheduler's scan and the "nothing to reset" guard of the
  rehabilitation. In the methods they are `assert false` (`PoolInvariant.NoHardBanInLine`, `PoolLaws.TargetedHasFailures`).

## Model

| member | source | states |
|---|---|---|
| `PoolRuns.RunKeepsInv` | app/src/Infrastructure/crawling/proxy_manager.py:283-451 | in every pool of every run the line has no repeats and equals the membership set, members have records, a proxy is hard-banned iff its failures reach the hard threshold, none such is in line or softly banned, failure count, last type and last time are unset together, a set ban is the last failure plus the TTL, batch counts stay below lifetime counts |
| `PoolRuns.StepKeepsInv` | app/src/Infrastructure/crawling/proxy_manager.py:217-481 | each of the nine operations keeps that invariant |
| `PoolRuns.BehaviourExists` | app/src/Infrastructure/crawling/proxy_manager.py:217-528 | every timely sequence of operations is a run from any pool: no operation is ever refused, so what holds of all runs holds of all sequences |
| `PoolInvariant.FailKeepsInv` | app/src/Infrastructure/crawling/proxy_manager.py:363-411 | a recorded failure keeps it, including the removal from the line at the hard threshold |
| `PoolInvariant.SucceedKeepsInv` | app/src/Infrastructure/crawling/proxy_manager.py:469-481 | a recorded success keeps it: the decay never leaves a ban below the soft threshold or a time without failures |
| `PoolInvariant.RehabilitateKeepsInv` | app/src/Infrastructure/crawling/proxy_manager.py:413-459 | a rehabilitation keeps it while putting proxies back in line |
| `PoolInvariant.NextKeepsInv` | app/src/Infrastructure/crawling/proxy_manager.py:298-345 | asking for a proxy keeps it while expired bans are dropped |
| `PoolInvariant.FetchKeepsInv` | app/src/Infrastructure/crawling/proxy_manager.py:217-281 | a collection keeps it, whatever the source answers |
| `PoolInvariant.NoHardBanInLine` | app/src/Infrastructure/crawling/proxy_manager.py:325-331 | nothing in line is hard-banned, so the scheduler's removal branch is dead |
| `PoolInvariant.HandedOutAfterTtl` | app/src/Infrastructure/crawling/proxy_manager.py:318-336 | a proxy handed out at or above the soft threshold failed at least the TTL ago |
| `PoolRuns.SoftBanSpacing` | app/src/Infrastructure/crawling/proxy_manager.py:298-345 | the same at every hand-out of every run from the empty manager |
| `PoolBans.SoftBanHolds` | app/src/Infrastructure/crawling/proxy_manager.py:363-403 | from any moment at which a proxy stands at or above the soft threshold, however it got there, it is not handed out before the TTL has passed since its last failure, unless an event in between changes its own record |
| `PoolBans.FailureBans` | app/src/Infrastructure/crawling/proxy_manager.py:363-403 | so after a failure recorded by a crawler that reaches the threshold |
| `PoolBans.CollectionBans` | app/src/Infrastructure/crawling/proxy_manager.py:236-253 | and after a collection that lists the proxy as unhealthy and so brings it to the threshold |
| `PoolBans.TouchesIffChanges` | app/src/Infrastructure/crawling/proxy_manager.py:236-293 | of a proxy with failures on record the record is changed by exactly these: its own failure, its own success unless hard-banned, a rehabilitation of its failure type, a page that lists it as unhealthy while it is neither in the pool nor hard-banned, and a wiped history |
| `PoolBans.BanLasts` | app/src/Infrastructure/crawling/proxy_manager.py:298-316 | until an event changes its record, a ban keeps its deadline and the failures behind it |
| `PoolBans.HardBanLasts` | app/src/Infrastructure/crawling/proxy_manager.py:381-391 | until an event changes its record, a hard ban is not lifted; pages that list the proxy and rehabilitations of other types do not |
| `PoolInvariant.NothingIffNoneActive` | app/src/Infrastructure/crawling/proxy_manager.py:318-345 | the scheduler finds nothing iff the metrics count no active proxy, the line is then unchanged, and asking does not change who is active |
| `PoolFairness.RoundRobin` | app/src/Infrastructure/crawling/proxy_manager.py:318-345 | when the active proxies of the pool at the start are the same at the first and at the last of any number of calls, the n-th call hands them out cyclically in line order and leaves a rotation of the line |
| `PoolFairness.NextTurn` | app/src/Infrastructure/crawling/proxy_manager.py:324-336 | one call takes the first usable proxy, puts it last among the usable ones and rotates the line |
| `PoolFairness.SteadyOffers` | app/src/Infrastructure/crawling/proxy_manager.py:298-336 | then every call in between finds exactly the same proxies usable, because calls only clear bans that have run out |
| `PoolFairness.NobodyStarves` | app/src/Infrastructure/crawling/proxy_manager.py:318-345 | a proxy that stays in the pool and usable is handed out before more turns pass than stood ahead of it, whatever happens to the others |
| `PoolFairness.StepBringsForward` | app/src/Infrastructure/crawling/proxy_manager.py:217-451 | no operation sends a waiting proxy back in line, and every hand-out to another brings it forward |
| `PoolRuns.FailuresConserved` | app/src/Infrastructure/crawling/proxy_manager.py:372-376 | in every run the lifetime counts equal the failures still on record plus those forgiven |
| `PoolRuns.StepBalances` | app/src/Infrastructure/crawling/proxy_manager.py:443-475 | each operation moves failures between the records and the forgiven, or adds one to both sides |
| `PoolLaws.RatesSumToOne` | app/src/Infrastructure/crawling/proxy_manager.py:520-528 | the five failure rates sum to one whenever anything was counted |
| `PoolLaws.CollectionPartitions` | app/src/Infrastructure/crawling/proxy_manager.py:236-254 | a page without repeats falls exactly into added, unhealthy, existing and hard-banned as judged by the pool at the start, and the line grows at its end by precisely the added ones in page order |
| `PoolLaws.CollectionOnlyAdds` | app/src/Infrastructure/crawling/proxy_manager.py:236-254 | on any page nobody in the pool is dropped or has a record changed, and the line grows by the number added |
| `PoolLaws.FetchKeepsActive` | app/src/Infrastructure/crawling/proxy_manager.py:217-281 | a fetch never lowers the number of active proxies at any time, and the pool grows by exactly the number added |
| `PoolRuns.FetchesKeepActive` | app/src/Infrastructure/crawling/proxy_manager.py:558-561 | however many fetches follow one another, the line only grows and whoever was active still is |
| `PoolLaws.RehabilitationExact` | app/src/Infrastructure/crawling/proxy_manager.py:428-451 | afterwards no record has a targeted type, the others are untouched, and the line is the old one followed, without repeats, by exactly the targeted proxies that were outside |
| `PoolLaws.SummaryCounts` | app/src/Infrastructure/crawling/proxy_manager.py:419-451 | the four summary numbers count the targeted records, the soft bans and hard bans among them, and the proxies put back |
| `PoolLaws.RehabilitationCounts` | app/src/Infrastructure/crawling/proxy_manager.py:438-451 | hard bans lifted ≤ proxies put back ≤ records reset, and the two kinds of ban never overlap |
| `PoolLaws.TargetedHasFailures` | app/src/Infrastructure/crawling/proxy_manager.py:429-436 | a record with a targeted type always has something to reset, so the guard never fires |
| `PoolPacing.CooldownPacing` | app/src/Infrastructure/crawling/proxy_manager.py:102-132 | after a cooldown begins the source is not asked before it is over, and the next cooldown begins at least its length later and after a full threshold of failed fetches of its own |
| `PoolPacing.SinceActivation` | app/src/Infrastructure/crawling/proxy_manager.py:106-132 | from a cooldown on, the source remembers its end until then and its failure count is at most the failed fetches since |
| `PoolPacing.FetchSource` | app/src/Infrastructure/crawling/proxy_manager.py:219-281 | what a fetch makes of the source state in each of its four cases, however many candidates it works through |
| `PoolSource.FetchTakesIn` | app/src/Infrastructure/crawling/proxy_manager.py:217-281 | over every run from the empty manager, told from the events and the configured seconds: before the rest that the last fruitless streak began is over a fetch changes nothing, and from that moment on line and records become what its reply makes of them |
| `PoolSource.CandidateJoinsIff` | app/src/Infrastructure/crawling/proxy_manager.py:217-281 | a candidate that is healthy, outside the pool and not hard-banned joins the line iff the source is not resting |
| `PoolSource.LastActivation` | app/src/Infrastructure/crawling/proxy_manager.py:106-132 | the rest that counts was begun by a fruitless request that completed a streak, since when no request has borne fruit or completed another and the history has not been wiped |
| `PoolStandings.StandingHolds` | app/src/Infrastructure/crawling/proxy_manager.py:217-481 | in every run the manager holds of every proxy exactly what its events add up to: failures charged and forgiven, the latest of them, its bans and its place in line, in the numbers of the settings |
| `PoolStandings.LatestFailure` | app/src/Infrastructure/crawling/proxy_manager.py:363-403 | in every run a proxy with failures on record has the type and time of the latest failure reported of it: the crawler's own, or Network and the time of the check for a page's; pages are without repeats, as `ProxyManagers.PageHasNoRepeats` says they are |
| `PoolStandings.RehabilitatesIff` | app/src/Infrastructure/crawling/proxy_manager.py:413-459 | a rehabilitation clears a proxy with failures on record iff its latest failure was of a type to be forgiven, and leaves its record alone otherwise; pages are without repeats |
| `PoolStandings.MetricsMean` | app/src/Infrastructure/crawling/proxy_manager.py:494-518 | active proxies are those in line and not at rest, softly banned ones those at rest, hard-banned ones those past the hard threshold, told from the events |
| `PoolStandings.AnsweredIff` | app/src/Infrastructure/crawling/proxy_manager.py:318-345 | a question is answered with a proxy in line and not at rest, or with none iff there is none, told from the events |
| `PoolTallies.TalliesCount` | app/src/Infrastructure/crawling/proxy_manager.py:363-381 | in every run the counter of each type holds the failures of that type reported since the history was last wiped and, for the batch, since it began |
| `PoolTallies.RateIsShare` | app/src/Infrastructure/crawling/proxy_manager.py:520-528 | a rate times all failures counted is the number of its type, and zero when none are counted |
| `ProxyManagers.ProxyManager.constructor` | app/src/Infrastructure/crawling/proxy_manager.py:50-62 | a new manager is empty and valid |
| `ProxyManagers.ProxyManager.EnsureProxyState` | app/src/Infrastructure/crawling/proxy_manager.py:90-95 | returns the proxy's own state object, making a clean one at the end of the dictionary if there is none |
| `ProxyManagers.ProxyManager.RegisterProxy` | app/src/Infrastructure/crawling/proxy_manager.py:353-361 | true iff the proxy was neither hard-banned nor in the pool, and then it is last in line |
| `ProxyManagers.ProxyManager.RemoveFromPool` | app/src/Infrastructure/crawling/proxy_manager.py:347-351 | the filter loop leaves the line without the proxy and the membership set with it gone |
| `ProxyManagers.ProxyManager.RecordProxyFailure` | app/src/Infrastructure/crawling/proxy_manager.py:363-411 | state object, both counters, line and membership set end as `ProxyPool.Fail` says, all other state objects untouched; the type and time on record are those given |
| `ProxyManagers.ProxyManager.RecordProxySuccess` | app/src/Infrastructure/crawling/proxy_manager.py:469-481 | the state object ends as `ProxyPool.Succeed` says, everything else untouched |
| `ProxyManagers.ProxyManager.ReleaseExpiredSoftBans` | app/src/Infrastructure/crawling/proxy_manager.py:298-305 | the loop clears exactly the soft bans that have run out and returns their number |
| `ProxyManagers.ProxyManager.GetNextProxy` | app/src/Infrastructure/crawling/proxy_manager.py:318-345 | the rotating loop hands out and leaves what `ProxyPool.Next` says: the first usable proxy, the line turned past it |
| `ProxyManagers.ProxyManager.Rotate` | app/src/Infrastructure/crawling/proxy_manager.py:325-336 | turning the deque one place at a time stops at the first usable proxy, or after one full turn with the line as it was |
| `ProxyManagers.ProxyManager.GetMetrics` | app/src/Infrastructure/crawling/proxy_manager.py:494-518 | the two counting loops return the sizes of the active, softly banned and hard-banned sets, and change nothing |
| `ProxyManagers.ProxyManager.GetFailureRates` | app/src/Infrastructure/crawling/proxy_manager.py:520-528 | the rate of each type in the chosen counter, all zero when nothing was counted |
| `ProxyManagers.ProxyManager.ResetProxies` | app/src/Infrastructure/crawling/proxy_manager.py:283-293 | empties the line, and with the history also records, counters and source state |
| `ProxyManagers.ProxyManager.StartBatch` | app/src/Infrastructure/crawling/proxy_manager.py:295-296 | empties the batch counter and nothing else |
| `ProxyManagers.ProxyManager.RehabilitateProxyHistory` | app/src/Infrastructure/crawling/proxy_manager.py:413-459 | the loop over the dictionary ends in `ProxyPool.Rehabilitate`, in dictionary order, with the exact summary |
| `ProxyManagers.ProxyManager.MarkSourceFailure` | app/src/Infrastructure/crawling/proxy_manager.py:106-127 | counts, or at the threshold starts a cooldown and counts from zero |
| `ProxyManagers.ProxyManager.FetchProxies` | app/src/Infrastructure/crawling/proxy_manager.py:217-281 | cooldown check, source outcome and candidate loop end in `ProxyPool.Fetch`, and the line is returned; while the cooldown lasts nothing changes, and once it is over the line is what the reply makes of it |
| `ProxyManagers.ProxyManager.Perform` | app/src/Infrastructure/crawling/proxy_manager.py:217-528 | any call on a valid manager is one event of a run and leaves it valid |
| `ProxyManagers.ProxyManager.EnsureMinAvailableProxies` | app/src/Infrastructure/crawling/proxy_manager.py:546-578 | true iff enough proxies are active at the end, that is at least one and at least as many as asked for, or as configured where none or zero is asked for; after at most the configured fetches, at least one, none of them made while there were enough; nobody is dropped or becomes inactive by it |
| `ProxyManagers.ExtractProxies` | app/src/Infrastructure/crawling/proxy_manager.py:146-185 | the proxies named by the rows with two cells, an address and a port from 1 to 65535, each once, in page order, and the number of rows that are malformed |
| `ProxyManagers.PageHasNoRepeats` | app/src/Infrastructure/crawling/proxy_manager.py:146-185 | whatever rows a page repeats, its candidates have no repeats, as the exact accounts of a collection ask |
| `ProxyManagers.DigitsSpell` | app/src/Infrastructure/crawling/proxy_manager.py:168-183 | the port is written in decimal without a leading zero and can be read back |
| `ProxyManagers.UrlTells` | app/src/Infrastructure/crawling/proxy_manager.py:168-183 | two rows name the same proxy iff they have the same host and port |
| `ProxyManagers.ProxyManager.FetchFromPage` | app/src/Infrastructure/crawling/proxy_manager.py:217-281 | from the rows of the source page to the line: exactly the well-formed, new and healthy proxies join at its end in page order, and the four verdicts account for every proxy the page names |
| `Retry.FetchWithProxy` | app/src/Infrastructure/crawling/base_crawler.py:97-148 | at most fifteen tries; the manager goes through the attempts one after another and nothing else: before each, what others do, one hand-out, of the proxy used, what others do meanwhile, and the one record its outcome calls for, or none for an error nobody catches; waits are those the outcomes call for and with what was waited before never exceed the budget; each ending says why it came; it ends with a text iff the last try was answered with 200 |
| `Retry.OnceEach` | app/src/Infrastructure/crawling/base_crawler.py:104-159 | apart from what others do, a fetch has the manager hand out once for each try, once more if in vain, at most fifteen times, and record once for each try whose error is caught |
| `Retry.FetchWithHttpx` | app/src/Infrastructure/crawling/base_crawler.py:57-90 | which direct outcome leads where, each ending if and only if; first wait and proxy waits together stay within the budget; without proxies the manager is not used |
| `Retry.Turn` | app/src/Infrastructure/crawling/base_crawler.py:103-145 | one turn of the loop ends the fetch for one of four reasons or leads to a wait that the budget allows |
| `Retry.Attempted` | app/src/Infrastructure/crawling/base_crawler.py:104-159 | one attempt does to the manager exactly this: others, one hand-out, others, and one record about the proxy handed out, or none if the error propagates |
| `Retry.WaitBounds` | app/src/Infrastructure/crawling/base_crawler.py:188-210 | a wait for a blocked response lies between the base and the larger of cap and policy, any other is the policy, none is negative |
| `Retry.RetryAfterIsClamped` | app/src/Infrastructure/crawling/base_crawler.py:199-210 | Retry-After is followed between base and cap and cannot lead outside them |
| `RetryLaws.TryRecords` | app/src/Infrastructure/crawling/base_crawler.py:103-159 | the k-th try was handed its proxy and recorded about it a success iff it was answered with 200, else a failure: Blocked for 403, 429 and 430, Server for 500 to 599, Unknown for other statuses, and for an error the type its text names |
| `RetryLaws.EndingIs` | app/src/Infrastructure/crawling/base_crawler.py:97-148 | the fetch ends with a text iff the last try was answered with 200, raises iff that try ended in an error nobody catches, gives up after fifteen tries or when the next wait would exceed the budget |
| `RetryLaws.BlockWaitIs` | app/src/Infrastructure/crawling/base_crawler.py:199-210 | the wait after a block in the numbers of the settings |
| `RetryLaws.ProxyWaitIs` | app/src/Infrastructure/crawling/base_crawler.py:188-197 | the wait after each status and each kind of error, by the setting of its type |
| `RetryLaws.BudgetIs` | app/src/Infrastructure/crawling/base_crawler.py:212-214 | the budget in the numbers of the settings |
| `AnchorCsv.RoundTrip` | app/worker_main.py:413-432 | splitting, stripping and dropping blanks gives back the joined ids iff each is non-empty, comma-free and stripped |
| `DealDetection.KeywordSiteTable.GetNewHotdealKeywordsForSite` | app/worker_main.py:370-458 | the anchor loop returns and stores what `NewDeals` and `RowAfter` say, and no other row changes; with news the row holds link, price and metadata of the newest deal and the time, without news nothing changes |
| `DealFeed.VisitReportsNewer` | app/worker_main.py:406-427 | a visit reports exactly the listed deals newer than the newest anchor iff the page is anchored |
| `DealFeed.AnchoredRunIsGood` | app/worker_main.py:406-458 | in an anchored run the anchors stay the newest of their time and nothing is reported twice, deletions and short pages included |
| `DealFeed.AtMostOnce` | app/worker_main.py:406-458 | however much of the listing each page shows, an anchored run reports no deal twice |
| `DealFeed.ExactlyOnce` | app/worker_main.py:406-458 | with pages that pass over no news, however short, reports are without repeats and exactly the deals owed iff every page was anchored when visited |
| `DealFeed.NothingLostIff` | app/worker_main.py:406-458 | in an anchored run, every deal that was up at a visit that showed anything, and is no older than the first one reported, is reported in the end iff no page passed over any news |
| `DealFeed.PassedOverForGood` | app/worker_main.py:406-458 | a deal passed over is never reported while pages stay anchored |
| `DealFeed.UnanchoredVisitErrs` | app/worker_main.py:426-427 | the first page that is not anchored makes the visit report a deal again or one from before the first page |
| `DealFeed.AnchorsCanAllGo` | app/worker_main.py:426-427 | a feed of two visits whose second page is not anchored and has two old deals reported |
| `DealFeed.GapsCanLose` | app/worker_main.py:406-427 | a feed with all pages anchored in which a deal is lost for good, though a later page shows it |
| `DealFeed.GapsCanMakeGood` | app/worker_main.py:406-427 | a feed whose second page passes over a deal: the third page is not anchored, yet all is reported once |
| `DealFeed.SameReport` | app/worker_main.py:413-432 | comparing stored strings with ids finds what comparing ranks finds, and the stored string holds the new anchors |
| `DealFeed.ExactlyOnceDelivered` | app/worker_main.py:395-458 | the same iff for the deals returned by the visits with their comma-separated rows |
| `StoredRows.RowDescribesLastNews` | app/worker_main.py:429-455 | after any visits a row is stored iff some visit reported something, and it holds link, price, metadata, time and the first three ids of the last page that brought news |
| `CrawlBatch.LimitsAreSound` | app/worker_main.py:76-168 | 1 ≤ site limit ≤ keyword limit, protected or not, and protection raises neither |
| `CrawlBatch.KeptCountInRange` | app/worker_main.py:121-157 | a protected batch keeps at least one and at most all keywords, and no more than its share from ten on |
| `CrawlLimits.LimitsAreNearest` | app/worker_main.py:76-154 | each limit is the number nearest to the configured one from one to its maximum, or under protection from one to the limit before, and a keyword limit below its site limit is raised to it |
| `CrawlLimits.KeptCountIs` | app/worker_main.py:154-157 | a protected batch keeps the largest whole number of keywords within the share, but at least one |
| `CrawlLimits.RatioIs` | app/worker_main.py:121-126 | the share is the configured one from a tenth to the whole, the nearer end outside, one half where none is given |
| `CrawlBatch.StepKeepsLimits` | app/worker_main.py:323-349 | no step takes more keyword or site slots than there are, and each does one unit of work |
| `CrawlBatch.SomeStepEnabled` | app/worker_main.py:575-593 | no deadlock: while a keyword is unfinished some step can be taken |
| `CrawlBatch.AnyWaiterMayProceed` | app/worker_main.py:575-593 | when nothing can end, every waiting visit may have its slot, and every queued keyword if none is active: the order of the waiting queue does not matter |
| `CrawlBatch.RunKeepsLimits` | app/worker_main.py:575-593 | in every state of every run the limits hold and the work left is what the steps have not done |
| `CrawlLimits.SlotsHold` | app/worker_main.py:575-593 | in every state of every run the set of keywords in work and, for each site, the set of those visiting it are no larger than the limits |
| `CrawlLimits.SlotIsFreeIff` | app/worker_main.py:575-593 | a waiting keyword or visit may go ahead iff the set of those holding such a slot is smaller than the limit |
| `CrawlBatch.BatchFinishes` | app/worker_main.py:575-593 | a run ends only with all keywords done, after exactly two steps for each keyword and each of its sites |
| `MailContent.EscapedIsInert` | app/src/Infrastructure/mail/mail_manager.py:27-38 | escaped text has no character that opens a tag or ends an attribute |
| `MailContent.StableSortIsBySite` | app/src/Infrastructure/mail/mail_manager.py:25 | a stable sort by site has one result: each site's deals in their own order, site after site by name |
| `MailContent.SortIsStable` | app/src/Infrastructure/mail/mail_manager.py:25 | the sort used is stable |
| `MailContent.BeforeIsByName` | app/src/Infrastructure/mail/mail_manager.py:25 | the order of sites is the string order of their names |
| `MailContent.GroupsOfSorted` | app/src/Infrastructure/mail/mail_manager.py:29-40 | grouping neighbours of the sorted deals gives one group for each site |
| `MailContent.MakeHotdealEmailContent` | app/src/Infrastructure/mail/mail_manager.py:13-42 | the loop writes the title, then for each site with deals in name order one heading and its deals in their own order (what that text says is `MailReading.PageReads`) |
| `MailContent.TagsAreFixed` | app/src/Infrastructure/mail/mail_manager.py:27-40 | the page has the tags of one title, one heading for each site and one paragraph for each deal, whatever the texts contain |
| `MailReading.PageReads` | app/src/Infrastructure/mail/mail_manager.py:13-42 | cut at its tags and with its escapes undone, the page says the title and then every deal once with its own link, title and price, site by site in name order and in their own order, each site headed by the search of its first deal, for all texts |
| `MailFanOut.HandleKeyword` | app/worker_main.py:351-367 | the deals of the sites that answered, in site order; a failed site costs only its own |
| `MailFanOut.Collect` | app/worker_main.py:595-606 | findings in batch order, items found equal to the sum of their lengths, failures counted |
| `MailFanOut.FindingsAreResults` | app/worker_main.py:597-606 | the findings are exactly the keywords' results, one for each keyword |
| `MailFanOut.SectionsAreExact` | app/worker_main.py:630-654 | a message holds exactly the findings of its user's keywords that could be written |
| `MailFanOut.Compose` | app/worker_main.py:639-654 | body and subject titles are written section by section in batch order |
| `MailFanOut.FanOut` | app/worker_main.py:627-691 | one message for each user with something to read in production, none otherwise, and the number sent |
| `MailFanOut.OneMessageEach` | app/worker_main.py:628-673 | the recipients are exactly the users with a section, each once |
| `MailFanOut.AddressedToRecipients` | app/worker_main.py:663-673 | messages go to the recipients one each, so nobody gets two |
| `MailFanOut.DeliveredIsDue` | app/worker_main.py:628-673 | counted by message or by keyword the deals mailed are the same: each new deal reaches each reader of its keyword once |
| `MailFanOut.RunBatch` | app/worker_main.py:575-691 | from the sites' results to the messages: in production every user owed new deals gets one message holding precisely those, nobody gets another, items found is the sum of all new deals, failed keywords are counted |
| `MailFanOut.FindingsAreOwed` | app/worker_main.py:595-637 | the findings of a batch give each user exactly the new deals of their keywords, read off the sites' results |
| `MailFanOut.CrashesAreCounted` | app/worker_main.py:596-602 | the failed keywords counted are the places whose crawling failed |
| `MessageReading.MessageReads` | app/worker_main.py:639-671 | read back, a message names precisely the findings it was written for, keyword by keyword |
| `MessageReading.ListedIsSection` | app/worker_main.py:639-671 | under a keyword's heading and there under a site stand exactly the deals of that site found for it, in order, if no other keyword has its title |
| `MessageReading.SubjectListsTitlesIff` | app/worker_main.py:648-664 | the subject lists the titles in order iff the end of the last one has no comma or blank to strip |
| `DealDelivery.CrawlAll` | app/worker_main.py:351-458 | a batch over the stored rows: every keyword on every site reports what is new to its own row, and every row ends as its own visit leaves it |
| `DealDelivery.RunJobs` | app/worker_main.py:536-691 | batch after batch from an empty table: the mail of each is what its users are owed by visits compared with the rows the batches before have left; each message, read back, tells precisely what its user is owed |
| `DealDelivery.MailTellsWhatIsOwed` | app/worker_main.py:627-691 | whoever is owed deals by a batch is sent one message, and each message, read back, tells precisely what the user it is addressed to is owed |
| `DealDelivery.MailedIsDelivered` | app/worker_main.py:351-691 | over all batches a reader is mailed of a keyword and a site precisely what the visits have returned, in order |
| `DealDelivery.MailedExactlyOnce` | app/worker_main.py:351-691 | with pages that pass over no news, the deals mailed to a reader under a keyword from a site are without repeats and exactly those owed iff every page was anchored |
| `DealDelivery.MailedNothingLostIff` | app/worker_main.py:351-691 | while pages stay anchored a reader misses no deal iff no page passed over any news |
| `DealReading.ReadIsMailed` | app/worker_main.py:351-691 | what a reader finds in the messages under a keyword and a site, over all batches, are the entries of the deals mailed, in order |
| `DealReading.ReadExactlyOnce` | app/worker_main.py:351-691 | with pages that pass over no news, a reader finds in the messages no entry twice and precisely those of the deals owed iff every page was anchored |
| `Sessions.RunKeepsInv` | app/src/domain/user/repositories.py:188-290 | in every reachable table no user has more than five active sessions, digests are unique, rows belong to their token's user |
| `Sessions.SaveMovesQueue` | app/src/domain/user/repositories.py:188-238 | a save is one move of the user's bounded queue and changes no row of anybody else |
| `Sessions.SaveKeepsInv` | app/src/domain/user/repositories.py:196-238 | a save of a new token keeps the cap of five |
| `Sessions.SaveEvictsNobodyIff` | app/src/domain/user/repositories.py:216-228 | a save keeps every session of its user iff fewer than five are active |
| `SessionLifetimes.SavedRows` | app/src/domain/user/repositories.py:188-238 | a save leaves its own row, expiring seven days on, and of the others all but its user's expired ones and, with five active sessions, the one picked |
| `SessionLifetimes.LivesSevenDays` | app/src/domain/user/repositories.py:188-290 | in every run a saved token verifies, as its user, iff it is asked for before seven days after its save and nothing has deleted it, deleted its user's tokens or evicted it since |
| `SessionLifetimes.UnsavedNeverVerifies` | app/src/domain/user/repositories.py:241-262 | a token never saved verifies at no time |
| `SessionLifetimes.FiveSessions` | app/src/domain/user/repositories.py:206-228 | no user ever has more than five active sessions, and five can be reached |
| `SessionQueue.SavesFifoIff` | app/src/domain/user/repositories.py:216-228 | a save into a full queue can only drop the longest-standing session iff that one has an earlier stamp than all the others |
| `SessionQueue.SaveInRunFifoIff` | app/src/domain/user/repositories.py:216-238 | the same for every save of every run; and the save in the run did so iff the row picked was the longest-standing |
| `SessionQueue.FirstInFirstOut` | app/src/domain/user/repositories.py:216-228 | with rows stamped in the order they were added, a save drops the head of a full queue and appends its session |
| `SessionQueue.LaterSessionCanGo` | app/src/domain/user/services.py:70-90 | a run of six logins with six different stamps in which a later session is evicted and the first stays |
| `SessionQueue.EqualStampsCanGo` | app/src/domain/user/repositories.py:216-228 | a run of six logins with equal stamps in which that happens |
| `SessionQueue.SavesAreFifo` | app/src/domain/user/repositories.py:216-238 | every save of every run whose saves are stamped one after another drops the longest-standing session of a full queue and appends its own |
| `Sessions.RefreshEvictsNobody` | app/src/domain/user/services.py:137-152 | delete then save with nothing in between keeps every other session of the user iff the old token is one of the active sessions or there are fewer than five |
| `SessionRotation.SaveInRunEvictsIff` | app/src/domain/user/repositories.py:216-228 | in every run a save takes a session away iff its user has five active ones just then |
| `SessionRotation.RefreshKeepsOthersIf` | app/src/domain/user/services.py:137-152 | whatever happens between the deletion and the save of a refresh, it takes no session if those left and those saved since are fewer than five |
| `SessionRotation.RefreshKeepsOthersIff` | app/src/domain/user/services.py:137-152 | and if no session of the user ends in between, it takes none iff that is so |
| `SessionRotation.RefreshCanEvict` | app/src/domain/user/services.py:137-152 | a run in which a refresh of one of five active sessions evicts another, because a login came between its deletion and its save |
| `SessionRotation.NoCheckAfterDrop` | app/src/domain/user/repositories.py:241-290 | in every run no check after the deletion of a token lets it in |
| `SessionRotation.RotatedTwiceOverlaps` | app/src/domain/user/services.py:137-152 | two requests rotate the same token only if both checked it before either deleted it |
| `SessionRotation.TwoSuccessors` | app/src/domain/user/services.py:137-152 | a run in which two such requests leave two successors that both let their user in |
| `Sessions.NoReturn` | app/src/domain/user/repositories.py:188-290 | a row once gone never comes back |
| `Sessions.DeadStaysDead` | app/src/domain/user/repositories.py:241-290 | an issued token that does not verify never verifies again, whatever took it away |
| `Sessions.DroppedIsDead` | app/src/domain/user/repositories.py:265-290 | deleting by digest ends a token |
| `Sessions.EvictedIsDead` | app/src/domain/user/repositories.py:216-237 | an evicted token no longer verifies and the new one does |
| `Sessions.VerifyFindsOwner` | app/src/domain/user/repositories.py:241-262 | a token lets in its own user, exactly while its row is there and unexpired |
| `SessionStores.SessionStore.SaveRefreshToken` | app/src/domain/user/repositories.py:188-238 | purge, count, evict one oldest session if five are active, insert; the new row stands last and expires seven days on, in microseconds |
| `SessionStores.SessionStore.VerifyRefreshToken` | app/src/domain/user/repositories.py:241-262 | the user of the unexpired row with the token's digest, if there is one; nothing changes |
| `SessionStores.SessionStore.DeleteRefreshToken` | app/src/domain/user/repositories.py:265-272 | removes the token's row, after which the token verifies at no time |
| `SessionStores.SessionStore.DeleteTokenByHash` | app/src/domain/user/repositories.py:284-290 | removes exactly the rows with the digest |
| `SessionStores.SessionStore.DeleteAllUserTokens` | app/src/domain/user/repositories.py:275-281 | removes exactly the user's rows, after which the user has no active session |
| `SessionStores.SessionStore.LoginUser` | app/src/domain/user/services.py:63-100 | which failure is reported first and that it changes nothing; on success a new token that verifies |
| `SessionStores.SessionStore.LogoutUser` | app/src/domain/user/services.py:103-120 | the failures, and on success the end of exactly the cookie's token |
| `SessionStores.SessionStore.RefreshAccessToken` | app/src/domain/user/services.py:123-157 | succeeds iff the token verifies and the user is active; then the table goes through the work of others, the deletion, the work of others and the save, and nothing else; the old token is dead, the new one verifies, the save takes a session iff five are active just then, other users keep their rows; with nothing in between every other session survives |
| `SessionStores.LogoutTouchesOthersIff` | app/src/domain/user/services.py:118-120 | a logout leaves other users' rows alone iff the cookie is the user's own or no longer in the table |
| `SessionStores.LogoutCanTouchOthers` | app/src/domain/user/services.py:118-120 | a cookie of another user whose row a logout takes |
| `AuthClient.RunIsSingleFlight` | static/js/auth.js:91-147 | over all interleavings at most one refresh is outstanding, no call is retried twice or both waiting and retried, and tokens are in at most one storage |
| `AuthClient.StepKeepsCalls` | static/js/auth.js:99-147 | a turn adds at most its own call to those waiting, retried or refreshing |
| `AuthClient.SuccessRunsAllWaiters` | static/js/auth.js:134-139 | a successful refresh retries every waiter in order, then the call that began it, and leaves nobody waiting |
| `AuthClient.WaiterRunsIffSuccess` | static/js/auth.js:101-146 | a queued call has been retried iff a refresh has succeeded since, and is waiting iff none has |
| `AuthClient.WaiterCanBeLeft` | static/js/auth.js:101-146 | three turns that leave a call waiting with no refresh under way |
| `AuthClient.RefreshKeepsThePlace` | static/js/auth.js:129-131 | a refresh stores the new token where the old one was |
| `TokenStorage.StoredTokensAre` | static/js/auth.js:28-64 | after any turns: nothing before the first login, the tokens of the last login or refresh in one storage, nothing after a logout or a failed refresh |
| `TokenStorage.LocalIffRemembered` | static/js/auth.js:130-131 | the local storage holds a token iff a login asked to be remembered and nothing has logged in or out, failed to refresh or brought an empty token since |
| `TokenStorage.RefreshingIff` | static/js/auth.js:99-146 | a refresh is under way iff some call has come back unauthorized since the last one ended |
| `TokenStorage.AnswersInOrder` | static/js/auth.js:117-128 | tokens are read only after a good answer and the text of a refusal only after a bad one |
| `AuthClient.Script.RefreshTokenAndRetry` | static/js/auth.js:99-120 | queues the call if a refresh is under way, else begins one |
| `AuthClient.Script.Resume` | static/js/auth.js:116-146 | the later turns: reject, read, save and run the queue, or force a logout |
| `AuthClient.Script.SaveTokens` | static/js/auth.js:28-37 | both values go to one storage and leave the other |
| `AuthClient.Script.GetTokens` | static/js/auth.js:40-55 | finds the stored token, wherever it is |

## Left out

- Network, proxies, browser, mail server, HTML parsing and the database engine: their answers are parameters or input
  sequences, and each repository function is one step (`SessionRotation` is about what comes between them).
- The clock inside one scheduler call: `get_next_proxy` and `get_metrics` read it several times within one synchronous
  call, the model once.
- `ProxyManagers.ExtractProxies`: which texts are addresses and which number a text spells is given, not computed.
- `ProxyManagers.ProxyManager.EnsureProxyState`: the dictionary is a map beside a list of its keys in insertion order.
- Several proxy sources: the source address never changes, so there is one source state.
- `Retry.FetchWithProxy`: a cancellation from outside, such as the site time limit, is not a separate ending; a fetch cut
  short has done a part of what is described, and the time that passes in a pause is not tied to its length.
- `DealFeed.ExactlyOnceDelivered`: says nothing of runs in which a page shows something but not all deals newer than the
  newest anchor; of those there are `DealFeed.AtMostOnce` and `DealFeed.NothingLostIff`, and `DealFeed.GapsCanMakeGood`
  shows why.
- `DealDetection.KeywordSiteTable.GetNewHotdealKeywordsForSite`: a stored row is a value in the table, not an object
  with an identity, and a visit cancelled around its commit is not modelled.
- `MailReading.PageReads`: is about a reading of the markup the program writes, not about what a mail program displays.
- Which keywords a protected batch keeps (most subscribers first) is not modelled, only how many.
- `CrawlBatch.SomeStepEnabled`: the order in which the semaphores wake their waiters is not modelled; see
  `CrawlBatch.AnyWaiterMayProceed`.
- The lock around a whole run, the worker log, the scheduler, timeouts of a run and the shared browser: they would add
  only easy facts.
- `MailContent.SortIsStable`: the library's sort is modelled by an insertion sort; any stable sort gives the same result
  by `MailContent.StableSortIsBySite`.
- Signing and hashing: a token is its signed content, its digest is injective, and new tokens are new. The user-agent
  column and the last-login stamp carry no logic and are omitted.
- `AuthClient.Script.Resume`: the page's move to the login address after a forced logout, which ends the script, is not
  modelled, and neither are the retried requests themselves beyond being sent.
- `AuthClient.RunIsSingleFlight`: is about one page. Tabs share the local storage and have a session storage and a refresh
  each; turns of other tabs are not modelled.
- `DealDelivery.RunJobs`: the visits of a batch are made one after another; each touches a stored row of its own. A batch
  is mailed as a whole: messages that fail to be sent are not modelled.
- Keyword registration, administration pages, schemas, routers and diagnostics.

Nothing was executed.
