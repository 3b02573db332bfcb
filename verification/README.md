# School backend: rate limiting, guarded writes, template boot, AI read scope, modules

A Dafny model of five pieces of the backend and proofs about them. `dafny verify dfyconfig.toml`
checks everything.

| file | what it is about |
|---|---|
| `Buckets.dfy`, `Eviction.dfy`, `RowKeys.dfy`, `Limiter.dfy` | one rate limiter: buckets, the eviction, row names, and the mutex sections as methods of a class |
| `Protocol.dfy`, `Fleet.dfy` | the shared window: any number of processes and one table, as a state machine with its invariant |
| `Billing.dfy`, `Exactness.dfy`, `Fate.dfy`, `Refusals.dfy`, `Sharing.dfy`, `Windows.dfy` | what holds over every run of that machine |
| `Witnesses.dfy`, `Bursts.dfy`, `Losses.dfy` | maps and runs on which bounds are reached and promises fail |
| `SharedTable.dfy` | the one-statement fold, on a table keyed by row names, refines the fold by rows |
| `Refinement.dfy` | an unshared limiter refines a plain per-client counter |
| `Database.dfy`, `Retry.dfy` | the guarded-transaction retry loop |
| `Catalogue.dfy`, `TemplateBoot.dfy` | racing creates of one database, and the create-and-migrate section of overlapping boots |
| `RouteScope.dfy` | allowlist patterns against paths |
| `Entitlements.dfy`, `Modules.dfy` | closed module sets, for any acyclic relation and for the 21 modules |

## How the limiter is modelled

`Limiter.RateLimiter` has the source's fields and one method per mutex section; each method's
contract ties the new fields to a function or relation on the old ones. `Protocol.Proc` is the same
state as a value, because sections of one process interleave with those of others and with database
folds; `Protocol.CheckIsTheLimiters` ties its checks to the class's, and its sync steps are the very
functions the class's `Snapshot` and `WriteBack` are proved to compute. A process also carries a
record that no step reads: a serial number for every local window it opened, when it opened, every
admitted request, and the row each billed request went to.

A run is any interleaving of checks, snapshots, folds, write-backs and table cleanups, by any number of
processes. A hash map has no order: an eviction is any outcome of `Eviction.Evicted`, which is proved to
be exactly what the code can produce over all iteration orders, and a round picks any 512 of the
reportable keys, or all of them if they are fewer. A round that fails is a fold that lands no row,
followed by a write-back with no totals; the machine also lets a fold land any part of its rows, and lets
it land after a cleanup of a later window. A process that crashes takes no more steps.

Counters are natural numbers with the 32-bit wrap of `count - pushed` and `count += 1`, the saturating
addition and the clamp written out. Times are whole nanoseconds, and seconds are rounded up as integers.

Assumptions:

- one sync task per limiter, so one round in flight at a time;
- a round that failed landed nothing, a timed-out one included (what becomes of billing otherwise is
  `Losses.UnheardRoundBillsTwice`);
- a round's snapshot and its epoch are one clock reading, clock and window are in one unit, and the
  sections of a process read the clock in order (for the results that speak of times: `Windows.dfy`,
  `Fate.dfy`, `Bursts.dfy`, and `Retry-After`);
- no two clients in play share the first eight digest bytes (only in `SharedTable.dfy`);
- only an I/O failure under a COMMIT leaves its outcome open: one refused with a SQLSTATE is an abort, and one
  that never had a connection did nothing; a
  statement that fails aborts its transaction (the code uses no savepoints), and COMMIT then ends it
  without an error and without its writes;
- the server creates a database by a name check, an entry in the unique index on names that waits for a
  rival's uncommitted one, and a commit; it raises `42P04` and the `23505` on that index for these two
  alone, and nobody drops the template;
- a lost session releases its advisory lock; migrations are applied one at a time, each atomically, and
  a second application of one fails.

## Where the code and its documentation disagree

- `src/rate_limit.rs:363-370` says "cheapest first", ties going arbitrarily. Ties at the cutoff are taken
  in map order, so a strictly cheaper bucket can survive a dearer one: `Witnesses.CheapestFirstFails`
  shows it at a full map, and `Eviction.StrictRankIffTiesFit` gives the exact condition.
- `src/rate_limit.rs:44-46` says no flood can evict a client already in the map. That holds once the map
  is saturated, and before that for an exhausted client. `Witnesses.ResidentLosesItsBucket` shows a
  resident evicted from a full map; `Eviction.LosableIff` says exactly who can be.
- `src/rate_limit.rs:528-530` says requests admitted around a window roll are "charged once either
  way". `Losses.RollLosesOne` is a run in which one is charged to no row. `Fate.BilledSomedayIff` says of
  every admitted and unbilled request whether it can still be billed; `Exactness.ExactIffRollsClean` says
  when the rolls of a client lose nothing of the window it is in.
- `src/rate_limit.rs:498-502` says a round that fails at its deadline lands nothing. The statement may have
  taken effect; then the next round bills its whole report again (`Losses.UnheardRoundBillsTwice`).
- `src/rate_limit.rs:27-29` speaks of a burst of twice the budget. It is one request less, because the
  request that opens a window is admitted at once, and that is the exact bound (`Bursts.BurstExact`).
- `src/constant.rs:1078-1082` calls the overflow budget "requests a minute, fleet-wide". It is per
  process, and an interval can reach into two overflow windows: `Bursts.FleetOverflowExact` gives the
  exact bound of a fleet, twice the budget per process, with a run that reaches it, and
  `Bursts.FleetWideIff` says when the documented one holds.
- `src/database.rs:506-514` says the loop hands back the closure's value for a sent transaction. A
  closure that swallows a failed statement and answers a value, as at `src/db/class_pump.rs:605-633`,
  gets `Ok` with nothing durable (`Retry.SwallowedErrorKeepsNothing`; the exact condition is
  `Retry.OkLandsIffNoStatementFailed`).
- `src/database.rs:366-372` makes the section exclusive by its lock. The lock lives on one connection and
  the work on others, so a boot that loses that session works on beside the next one
  (`TemplateBoot.LostSessionCollides`; `TemplateBoot.ExclusiveIffNobodyAdrift` is the exact condition).

## Model

| member | source | states |
|---|---|---|
| `Buckets.ChargeKeepsBucketOk` | src/rate_limit.rs:152-157 | a charge keeps `pushed <= count <= max`, counts one request exactly when it admits one, and leaves a report that does not wrap |
| `Buckets.RetryAfterIsLeastWait` | src/rate_limit.rs:309-310 | `Retry-After` lies between one second and the window, and is the least whole number of seconds after which the window has ended |
| `Eviction.SelectNth` | src/rate_limit.rs:394-397 | the cutoff is the n-th smallest spend: at most n spends are below it and more than n are at or below it, for any pattern of ties |
| `Eviction.SpentOf` | src/rate_limit.rs:385-389 | the collected list holds exactly the un-exhausted spends, in map order |
| `Eviction.Retain` | src/rate_limit.rs:398-404 | the budgeted pass leaves the map without the first `excess` un-exhausted entries at or under the cutoff, for any order |
| `Eviction.EvictCheapest` | src/rate_limit.rs:381-405 | removes exactly min(len - target, un-exhausted) entries, none exhausted, each with fewer than that many un-exhausted strictly below it; survivors are unchanged; removes nothing when there is no excess |
| `Eviction.RetainedIsEvicted` | src/rate_limit.rs:394-404 | in every map order, the pass at the true cutoff meets the eviction contract |
| `Eviction.EveryOutcomeHasAnOrder` | src/rate_limit.rs:398-404 | conversely, every outcome the contract allows is what the pass leaves in some map order: the contract is exact |
| `Eviction.StrictRankIffTiesFit` | src/rate_limit.rs:363-370 | no outcome spares a strictly cheaper bucket for a dearer one if and only if every tie band the eviction reaches above the cheapest fits whole |
| `Witnesses.CheapestFirstFails` | src/rate_limit.rs:325-336 | a newcomer at a full map of 10000 live buckets, one client at 1 request and all others at 2: some eviction the check can make drops dearer ones and keeps the cheapest |
| `Witnesses.ResidentLosesItsBucket` | src/rate_limit.rs:44-46 | at the same map, some eviction drops a live resident to let a newcomer in |
| `Eviction.LosableIff` | src/rate_limit.rs:44-46 | some eviction drops a given client if and only if it is un-exhausted and fewer than the excess spent less |
| `Eviction.EvictedSize` | src/rate_limit.rs:330-342 | an eviction that leaves the map above its target leaves only exhausted buckets |
| `RowKeys.EpochIsTheWindowStart` | src/rate_limit.rs:599-602 | an integer is the epoch of a clock reading if and only if it is a multiple of the window, at most the clock and less than a window below it, for negative clocks too |
| `RowKeys.EpochMonotone` | src/rate_limit.rs:599-602 | a later clock never has an earlier epoch |
| `RowKeys.TinyWindow` | src/rate_limit.rs:600-600 | a window below a millisecond makes every clock reading its own epoch |
| `RowKeys.HexInjective` | src/rate_limit.rs:614-620 | two byte strings with the same hex are equal |
| `RowKeys.HexReadsBack` | src/rate_limit.rs:614-620 | each byte is the value of its two hex digits, the high one first |
| `RowKeys.DecimalInjective` | src/rate_limit.rs:607-611 | two integers printed the same are equal, signs included |
| `RowKeys.DecimalReadsBack` | src/rate_limit.rs:607-611 | an epoch is printed as its decimal value, with a sign if negative and no leading zeros |
| `RowKeys.RowKeyParts` | src/rate_limit.rs:607-611 | a row name has tier, digest and epoch at their places, an underscore between each two |
| `RowKeys.RowKeyInjective` | src/rate_limit.rs:604-611 | equal row names come from equal tier, digest and epoch, for every tier name, underscores included |
| `Limiter.RateLimiter.constructor` | src/rate_limit.rs:275-284 | a new limiter has a one-minute window, no buckets and a fresh overflow bucket |
| `Limiter.RateLimiter.CheckOverflow` | src/rate_limit.rs:288-300 | a keyless request is charged to the overflow bucket alone, against its own count |
| `Limiter.RateLimiter.MakeRoom` | src/rate_limit.rs:325-343 | only a new key at the cap sweeps lapsed windows, and only if the map is still at the cap does it evict |
| `Limiter.RateLimiter.ChargeKey` | src/rate_limit.rs:345-359 | a key with a place is charged to its bucket or a fresh window; every other bucket and the overflow bucket keep their values |
| `Limiter.RateLimiter.CheckKey` | src/rate_limit.rs:311-360 | a disabled tier admits and records nothing; otherwise room is made as some eviction allows and the request is charged to its bucket or, without room, to the overflow bucket |
| `Limiter.RateLimiter.Turn` | src/rate_limit.rs:517-544 | one bucket is turned to the epoch's row and reported; no other bucket changes |
| `Limiter.RateLimiter.Visit` | src/rate_limit.rs:513-544 | the scan passes a bucket over unless it is live and has admitted something, however much of that is reported already |
| `Limiter.RateLimiter.Snapshot` | src/rate_limit.rs:511-548 | as many reportable buckets as fit in 512 are turned and reported once each, every other bucket is unchanged |
| `Limiter.RateLimiter.Apply` | src/rate_limit.rs:576-593 | a returned total reaches a bucket only if it is still the reported window and epoch |
| `Limiter.RateLimiter.WriteBack` | src/rate_limit.rs:575-593 | the whole loop equals one simultaneous update of the buckets whose own row came back |
| `Limiter.ByKeyFacts` | src/rate_limit.rs:512-548 | a list of reports with distinct keys loses none of them when read by key |
| `Protocol.CheckIsTheLimiters` | src/rate_limit.rs:311-360 | a check in the state machine has the state and answer of the limiter's check |
| `Protocol.FoldedHits` | src/rate_limit.rs:551-565 | a fold adds to each row exactly the delta reported for its tier, client and epoch, and to no other row |
| `Protocol.FoldBillsAfresh` | src/rate_limit.rs:496-502 | every request a fold covers was admitted and had been billed nowhere |
| `Protocol.KeyedKeepsCounts` | src/rate_limit.rs:346-356 | after any keyed check, `count` is the number of requests the current window admitted, for every bucket |
| `Protocol.KeyedKeepsBills` | src/rate_limit.rs:346-356 | a keyed check, a reset or eviction included, keeps every billed request below what its bucket accounts for |
| `Protocol.SnapshotReports` | src/rate_limit.rs:511-548 | every report covers only requests that were admitted and are billed nowhere |
| `Protocol.WriteBackKeepsInv` | src/rate_limit.rs:575-593 | a write-back, late or not, keeps the invariant |
| `Protocol.StepKeepsInv` | src/rate_limit.rs:311-593 | every step of a process keeps the whole invariant |
| `Fleet.FoldAddsToRow` | src/rate_limit.rs:555-565 | a fold bills on each row exactly as many new requests as the hits it adds there |
| `Fleet.FoldKeepsStored` | src/rate_limit.rs:158-161 | after a fold, the row of every synced bucket still holds at least what the bucket read back, and the total on its way covers that plus the report |
| `Fleet.FoldConserves` | src/rate_limit.rs:555-573 | after a fold by one process, the hits of every row are still the requests all processes billed to it |
| `Fleet.PurgeKeepsInv` | src/rate_limit.rs:472-483 | a cleanup keeps the invariant and touches no row of the current window |
| `Fleet.CleanupRemovesPassed` | src/rate_limit.rs:473-483 | a cleanup removes exactly the rows of passed windows: one that is there at any later time was folded into since, and the others hold what they held |
| `Fleet.RunInv` | src/rate_limit.rs:450-593 | the invariant holds at every point of every run |
| `Billing.BilledAtMostOnce` | src/rate_limit.rs:519-531 | a request billed to a row stays billed to that row alone, and no later fold covers it again |
| `Billing.HitsConserved` | src/rate_limit.rs:496-502 | at every point of every run the hits ever folded are exactly the requests ever billed, at most those admitted, and at least what the table still holds |
| `Billing.RollLosesTheUnreported` | src/rate_limit.rs:527-534 | after a roll, a request the window had admitted is billed at any later time if and only if it was billed before the roll |
| `Billing.WindowBilledWithinAdmitted` | src/rate_limit.rs:152-157 | of every local window ever opened for a client, reset and evicted ones included, no more requests are billed than were admitted, nor admitted than the budget |
| `Billing.CountIsAdmits` | src/rate_limit.rs:152-153 | of the window a client is in, exactly `count` requests were admitted |
| `Billing.CountersNeverWrap` | src/rate_limit.rs:152-157 | in every reachable state the subtraction and the increment do not wrap |
| `Billing.StaleWriteBackIsHarmless` | src/rate_limit.rs:586-592 | in every reachable state a write-back changes a bucket if and only if it is still the very window that was reported and its row came back |
| `Billing.SpendNeverFalls` | src/rate_limit.rs:183-191 | in one step inside a local window the count never falls, the spend is never below it, and without a roll the spend never falls |
| `Billing.SpendRises` | src/rate_limit.rs:183-195 | over any run inside one local and one wall window a bucket's spend never falls, whatever the other processes fold |
| `Exactness.StepExactIffClean` | src/rate_limit.rs:517-537 | a step keeps billing of the current window exact if and only if it is not a roll that meets unreported requests |
| `Exactness.ExactIffRollsClean` | src/rate_limit.rs:503-593 | over any run, the billed requests of the window a client is in are throughout exactly those its bucket accounts for, if and only if every roll of that bucket found everything reported |
| `Exactness.RoundBillsWhatItCounted` | src/rate_limit.rs:407-416 | once a landed round is written back, the billed requests are exactly those it counted, later ones being left to the next round |
| `Fate.BilledSomedayIff` | src/rate_limit.rs:489-593 | an admitted and unbilled request is billed by some continuation of the run if and only if an unfolded report covers it, or its client is still in its window, has it left to report, and neither that window nor the wall window last reported to has passed |
| `Fate.StaysLost` | src/rate_limit.rs:347-352 | a request lost to a reset, an eviction or a roll is never billed, however the run goes on |
| `Losses.RollLosesOne` | src/rate_limit.rs:527-534 | a run of six sections in which the second request of a client is admitted, unbilled at a roll, and billed by no continuation |
| `Losses.UnheardRoundBillsTwice` | src/rate_limit.rs:498-502 | a round given up although it landed, and the next one, add to a client's row more hits than the requests they cover, by exactly the first report: each is counted once if and only if that report was empty |
| `Refusals.NoFailOpen` | src/rate_limit.rs:366-372 | once a bucket has counted `max`, it stays in the map and every check of its client is refused until its window ends, over any run of floods, evictions, rounds and rolls |
| `Refusals.SharedRefusalSticks` | src/rate_limit.rs:67-72 | a client refused by the shared total stays refused until its local window or the wall window ends |
| `Sharing.RefusedIff` | src/rate_limit.rs:183-195 | in every reachable state a resident's check inside its window is refused if and only if its local count, or the total read back plus the admits since, has reached the budget |
| `Sharing.SharedTotalRefuses` | src/rate_limit.rs:64-72 | over any run, from a write-back of total t on and until the next or a roll, a check is refused if and only if the window admitted the budget here, or t plus the requests admitted since the report was counted come to it |
| `Sharing.RoundPicksActive` | src/rate_limit.rs:513-516 | a round takes only clients in a running window that has admitted something, and all of them if and only if they are at most 512 |
| `Sharing.RoundRefreshes` | src/rate_limit.rs:486-593 | a round that lands brings each of them still in its window the total its row held after the fold, with nothing new to report too |
| `Refusals.OverflowIffFull` | src/rate_limit.rs:331-342 | a request goes to the overflow bucket if and only if its key is new and the map is at its cap with live exhausted buckets only; then it changes no bucket |
| `Refusals.OverflowRefusedIff` | src/rate_limit.rs:288-300 | such a request is refused if and only if the running overflow window has admitted its budget, and is told the least wait that ends that window |
| `Refusals.MemoryBounded` | src/rate_limit.rs:31-36 | the map never exceeds its cap, in any run |
| `Refusals.RetryAfterIsTruthful` | src/rate_limit.rs:356-359 | in any run, a refused client whose bucket is still in that window at a later check is admitted if it waited as told; if not, the window is still running and it is refused exactly if still exhausted |
| `Windows.StepKeepsTime` | src/rate_limit.rs:345-355 | admits lie inside the window they are counted in, and a window is only ever billed to wall windows it overlaps |
| `Windows.StepKeepsSpaced` | src/rate_limit.rs:347-352 | windows of one client that is not evicted while live open at least a window apart |
| `Windows.TraceBound` | src/rate_limit.rs:27-29 | in an interval that n windows cover, a client is admitted fewer than (n+1) times its budget by one process, in any run |
| `Windows.BurstBound` | src/rate_limit.rs:27-29 | in any interval of one window, fewer than twice the budget |
| `Bursts.BurstExact` | src/rate_limit.rs:27-29 | twice the budget less one is the least bound over all runs and intervals of one window |
| `Windows.OverflowBound` | src/constant.rs:1078-1089 | keyless requests at one process are together admitted at most the overflow budget per overflow window, and at most twice in any interval of one window |
| `Windows.OverflowBudgetHolds` | src/rate_limit.rs:288-297 | and at most once in any interval inside which no overflow window of the process opens |
| `Bursts.FleetOverflowExact` | src/constant.rs:1078-1089 | the least bound on the keyless requests a fleet of N processes admits in an interval of at most a window is N budgets for a single instant and 2 * N for anything longer: it holds in every run, and a run reaches it |
| `Bursts.FleetWideIff` | src/constant.rs:1080-1082 | one budget for the whole fleet holds in every run if and only if the fleet is empty, or one process and the interval a single instant |
| `Windows.RowBoundOfOneProcess` | src/rate_limit.rs:162-168 | one process bills at most twice its budget to one client's row of one wall window |
| `Windows.RowBound` | src/rate_limit.rs:162-168 | N processes put at most 2 * N * max hits on one row, ever |
| `SharedTable.Upsert` | src/rate_limit.rs:555-573 | the statement adds each report to its own row name, leaves the names of all other rows of the clients in play, and returns the new totals of the reported ones |
| `SharedTable.NamesDiffer` | src/rate_limit.rs:551-554 | rows of different tiers, clients or windows never conflict on a name |
| `SharedTable.UpsertIsFold` | src/rate_limit.rs:555-593 | the statement by names represents the protocol's fold by rows, and the totals read through the names are those the write-back uses |
| `Refinement.RefinesSimpleCounter` | src/rate_limit.rs:311-360 | on every sequence of calls in which the live clients fit, every answer, `Retry-After` included, is that of a counter per client with unbounded memory |
| `Refinement.BurstIsAdmitted` | src/rate_limit.rs:27-29 | every limiter given one call, then the rest of its budget at the end of the window, then a whole budget an instant later, admits them all |
| `Retry.RunStatements` | src/database.rs:543-543 | a closure's statements leave a transaction aborted exactly if one of them failed, with the writes before that |
| `Retry.RunRound` | src/database.rs:542-565 | a round ends the loop unless the server called it contended, and makes its writes durable only by a COMMIT of a transaction no statement aborted |
| `Retry.TxWithRetry` | src/database.rs:535-570 | the loop runs up to the first round that is not contended, at most eight, answers what that round decided, and leaves in the store the rivals' commits and its rounds' batches in order |
| `Retry.OnlyLastRoundLands` | src/database.rs:553-560 | of all a call makes durable, the whole is what its last round landed |
| `Retry.OkLandsIffNoStatementFailed` | src/database.rs:544-548 | `Ok(v)`: `v` is the last round's value, and that round's writes, whole and alone, are durable if and only if none of its statements failed (or it wrote nothing) |
| `Retry.SwallowedErrorKeepsNothing` | src/db/class_pump.rs:605-633 | a closure that writes, swallows a failed statement and answers a value gets `Ok` and leaves nothing durable |
| `Retry.ErrMeansNothingLanded` | src/database.rs:549-566 | `Err`: nothing of this call is durable, unless its last COMMIT died on the wire and took effect all the same |
| `Retry.ErrorsTellWhatHappened` | src/error.rs:125-143 | of errors the loop converts itself, "unavailable" means exactly that no connection was had, and then nothing landed; a commit lost on the wire answers "timed out"; a server's verdict comes back whole |
| `Retry.RunAgainIff` | src/database.rs:485-504 | a round is run again if and only if the server answered 40001 or 40P01, or in a cascade 23503, at a statement or at COMMIT |
| `Retry.DecisionsEndTheLoop` | src/database.rs:511-514 | a refusal ends the loop at once and comes back as it is; eight contentions answer the last one; the "never ran" fallback is unreachable |
| `Retry.Backoff` | src/database.rs:583-590 | attempt zero waits not at all, and each later one between its step and twice that |
| `Retry.WaitBounds` | src/database.rs:580-590 | the time waited over n rounds is bounded below by a doubling sum and above by twice that, for every clock |
| `Retry.FullBudgetWaits` | src/constant.rs:1470-1477 | a call that uses all its rounds waits between 254 and 508 milliseconds |
| `Catalogue.EnsureDatabase` | src/database.rs:173-197 | `Ok` is never a missing database, whatever rivals do; it fails if and only if the probe fails, or the database was not there at the probe and the create met a fault or lost its connection |
| `Catalogue.Server.Create` | src/database.rs:183-196 | a create answers what the server made of it among its rivals, who may commit or give up at any point |
| `Catalogue.HidesNothingIff` | src/database.rs:421-427 | a guard that swallows refusals never hides a missing database, in any run of racing creates, if and only if it swallows none of the server's other faults |
| `Catalogue.AdoptsAllIff` | src/database.rs:421-427 | it adopts whatever a rival made, in every run, if and only if it swallows both the name check's refusal and the index entry's |
| `Catalogue.GuardIsRight` | src/database.rs:428-430 | the code's guard does both |
| `Catalogue.NarrowerAndWiderFail` | src/database.rs:421-427 | `42P04` alone fails a boot that lost the race; every `23505` would hide a missing database |
| `Catalogue.OneMakesIt` | src/database.rs:162-172 | of any number of racing creates at most one makes the database, and none if it was there |
| `TemplateBoot.MutualExclusion` | src/database.rs:366-372 | in any run of overlapping and crashing boots, two are between lock and unlock only if one of them lost its session inside |
| `TemplateBoot.ExclusiveIffNobodyAdrift` | src/database.rs:378-395 | at any point with a boot waiting, the section has and will have at most one boot if and only if no boot in it has lost its session |
| `TemplateBoot.LockPreventsCollisions` | src/database.rs:366-372 | in any run in which no session is lost inside the section and no statement left behind, no create is refused over a rival's and every migration finds the schema its migrator saw |
| `TemplateBoot.LostSessionCollides` | src/database.rs:368-372 | a run in which a lost session lets two migrators in, and one fails on what the other made |
| `TemplateBoot.StrayCollides` | src/database.rs:368-372 | a run in which the statement a crashed boot left behind lands under the next one, which fails on it |
| `TemplateBoot.OkMeansAtHead` | src/database.rs:362-364 | a boot that returned `Ok` left the template present and at its head, then and ever after |
| `TemplateBoot.OkIff` | src/database.rs:387-411 | in any run a boot has returned `Ok` if and only if its migrations ended at its head and, after that, its unlock worked on the session it still had |
| `TemplateBoot.LoneBootSucceedsIff` | src/database.rs:362-364 | a boot on its own can succeed if and only if the template is absent, older or at its head, and then leaves it exactly there |
| `TemplateBoot.SwallowHidesNothing` | src/database.rs:421-430 | in any run a boot past its create has a template to migrate, made by itself, a rival, or a create a crashed boot left behind |
| `TemplateBoot.GoesOnIff` | src/database.rs:183-196 | in any run a boot goes on from its create if and only if it made the database or was refused over a rival's; any other refusal fails the boot |
| `TemplateBoot.OlderNeverSucceeds` | src/database.rs:282-292 | a boot that starts on a database newer than its own schema never succeeds, in any run |
| `TemplateBoot.StepKeepsGuard` | src/database.rs:382-395 | every step keeps the lock with exactly the boot that is in the section with its session |
| `RouteScope.JoinSplit` | src/ai/api.rs:41-42 | joining the segments of a string gives it back |
| `RouteScope.SplitJoin` | src/ai/api.rs:41-42 | splitting joined slash-free segments gives them back |
| `RouteScope.Segments.Next` | src/ai/api.rs:43-45 | the split iterator yields the segments one by one and then ends |
| `RouteScope.PatternMatches` | src/ai/api.rs:40-61 | the two-iterator loop answers whether the segments match one for one |
| `RouteScope.MatchIffInstance` | src/ai/api.rs:38-39 | a path matches if and only if it is the pattern with each placeholder replaced by one non-empty slash-free segment, and the replacement is unique |
| `RouteScope.PlaceholderTakesOne` | src/ai/api.rs:38-52 | in any pattern a name in braces, whatever the name, matches a text in its place if and only if that is non-empty and slash-free |
| `RouteScope.LiteralTakesItself` | src/ai/api.rs:38-52 | a segment of any other form matches itself alone |
| `RouteScope.MarksOfAnyUser` | src/constant.rs:1030-1050 | the shipped allowlist admits the marks of every user |
| `RouteScope.CaptureInstantiate` | src/ai/api.rs:38-39 | putting back what a path captured gives the path |
| `RouteScope.InstantiateCapture` | src/ai/api.rs:38-39 | an instance matches, and captures what was put in |
| `RouteScope.LiteralMatchesItself` | src/ai/api.rs:3-6 | a pattern without placeholders matches only itself: no prefix, no tail |
| `RouteScope.RouteTemplate` | src/ai/api.rs:28-36 | the template is the first allowlist entry that matches, and there is none for a path with `?` or without a leading `/` |
| `RouteScope.PathAllowed` | src/ai/api.rs:15-22 | a path is allowed if and only if it is an instance of an entry of the shipped allowlist and carries no query |
| `Entitlements.IntersectionClosed` | src/module.rs:127-131 | what two accepted sets have in common is accepted |
| `Entitlements.PathDown` | src/module.rs:188-193 | from an accepted set to an accepted subset there is a way of single disables through accepted sets |
| `Entitlements.NoShorterPath` | src/module.rs:256-262 | no way of single switches is shorter than the number of modules two sets differ in |
| `Entitlements.OneStepReselling` | src/module.rs:304-318 | for any acyclic relation, any two accepted sets are joined by a shortest way of single switches through accepted sets |
| `Modules.NoCycle` | src/module.rs:131-159 | the 21 modules' requirements are acyclic |
| `Modules.RequiresAreTheEdges` | src/module.rs:131-159 | a module requires another exactly if the pair is one of the eleven listed |
| `Modules.NamesDistinct` | src/module.rs:91-115 | no two modules share a name |
| `Modules.NamesOfEverything` | src/module.rs:91-115 | a school with everything on stores this list of 21 names |
| `Modules.TryFromStr` | src/module.rs:117-125 | a name is read as the module that prints it, and refused if and only if no module does |
| `Modules.EachViolationOnce` | src/module.rs:290-302 | the list of missing requirements names every violated pair, once, and nothing else |
| `Modules.ViolationsInOrder` | src/module.rs:290-302 | and in declaration order, of the modules and then of what each requires |
| `Modules.ValidIffClosed` | src/module.rs:304-318 | a set is accepted if and only if every member has what it requires |
| `Modules.SwitchAccepted` | src/module.rs:186-193 | switching a module off an accepted set is accepted if and only if no dependent is on, and switching one on if and only if all it requires is |
| `Modules.SchoolResellsStepwise` | src/module.rs:131-159 | any two sets a school may store are joined by as many single switches as they differ in modules, all through sets a school may store |
| `Modules.ModuleSet.Insert` | src/module.rs:256-258 | adds one module and no other |
| `Modules.ModuleSet.Remove` | src/module.rs:260-262 | removes one module and no other |
| `Modules.ModuleSet.FromNames` | src/module.rs:275-281 | succeeds if and only if every name is known, with exactly the named modules; otherwise names the first unknown one |
| `Modules.ModuleSet.Names` | src/module.rs:284-288 | the strictly sorted list of exactly the members' names |
| `Modules.BeforeIsLexicographic` | src/module.rs:284-288 | names are sorted by the first character in which they differ, a prefix first |
| `Modules.ModuleSet.Validate` | src/module.rs:307-318 | refuses exactly the sets that are not closed, with the list of violated pairs |
| `Modules.StoredNamesRoundTrip` | src/module.rs:275-288 | reading the stored names of a set gives the set; storing what a list parses to gives its distinct entries |
| `Modules.StoredNamesUnique` | src/module.rs:283-288 | a set has one stored form |

## Left out

- In-place removal during `retain` and `iter_mut`: a map is a value in a field that each method
  reassigns, so aliasing between entries is not modelled.
- Mutex poisoning, cloning of limiters, and the order of the map lock and the overflow lock.
- A round that times out and lands all the same, as a step of a run: `Losses.UnheardRoundBillsTwice`
  says what it costs.
- Overflow of the `BIGINT` column of a row: hits are unbounded integers, and the clamp is modelled.
- The background loop itself: its sleep, weak reference and per-window trigger; a cleanup may happen
  at any point of a run, and fairness of the 512-key pick is not claimed.
- SHA-256: a function to eight bytes, with no collision among the clients in play.
- Floating-point seconds in `Retry-After`: integer rounding up.
- Disabled tiers (`max == 0`) in the state machine: `Limiter.RateLimiter.CheckKey` covers them.
- `select_nth_unstable` is a search for the cutoff by counting, and `sort` an insertion sort: library
  algorithms are modelled by what they return.
- The closure of a guarded transaction is a script of what each round meets; isolation levels and what
  a statement reads are not modelled; a statement writes or fails.
- `Retry.ErrMeansNothingLanded`: the one exception is a COMMIT whose connection died; the code cannot tell either.
- Catch-up sweeps that follow the migrations of a school database, and the dial retry of the control pool.
- An unlock statement that fails while its session lives on: a failed unlock is a lost session.
- The migration library's own lock on a database, which would make overlapping migrators wait; they are
  modelled as `src/database.rs:368-372` describes them.
- Every migration's content: a schema is a version number.
- `Modules.ModuleSet.Validate`: the message text of the refusal is the list of pairs, not its wording.
- Packages, and everything else a module set is used for.
- HTTP middleware, client address parsing, configuration, telemetry, tenants, the test-database harness,
  and the features built on top (ledgers, bookings, whiteboards): none of it is needed by these results.
