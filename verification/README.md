# Fix backend: verified model

A Dafny model of the logic inside the Fix backend, and proofs about it. The backend connects cloud accounts of many
workspaces to a collector, bills the workspaces, and serves what was collected. The model covers the parts of it that
decide something:

- **Collect runs** (`CollectProgress`, `Dispatcher`, `DispatchRuns`, `DispatchOrder`, `DispatchInterleaved`,
  `CollectFeedback`). Jobs are tracked in three Redis indexes; their finish messages arrive late, twice, or in any order;
  keys expire. The handlers are methods of classes with the stored fields, each proved equal to one step of a state
  machine, and the theorems are about all runs of that machine: the indexes agree, nothing is reported twice, neither the
  order of messages nor what happens in between matters, and the result of a job reaches the failed-scan count of its
  account.
- **Stored rows under concurrency** (`OptimisticUpdate`). The retry loop behind account and invitation updates serializes.
- **Cloud accounts** (`AccountState`, `CloudAccounts`, `AccountService`, `AccountLimits`). Five states in eight columns,
  degrading by a streak of bad scans, the way back from a deletion, and the limits of the product tiers.
- **Azure roles** (`AzureRoles`). Building the graph of management groups and subscriptions, and the depth-first search that
  grants a role as high up as it can.
- **Rate limiter** (`RateLimiter`). A token bucket whose refill is computed from the remaining life of its key.
- **Billing and scheduling** (`Calendar`, `Billing`, `NextRun`). Leap years, the proration band, charge periods that tile
  time, and slots on a grid.
- **Inventory, streaming, queue** (`Inventory`, `Streaming`, `Sqs`). Accumulating loops against their definitions, traces
  of a response, and retries of messages.

`dafny verify dfyconfig.toml` checks everything.

## Reading guide

A method of a class ends in a state given by a function (`Store.Track`, `World.JobFinished`, `Config.Consumed`,
`Charged`, `Scanned`, ...); the lemmas speak about these functions over whole runs. What such a function computes is also
said without it, case by case and with the numbers written out: in the members whose names end in `Exactly` and in the
contracts of `EnableCloudAccounts`, `DescendantSummary`, `GrantReaderRole`, `Respond` and `StreamItems`. A run is a
sequence of actions, and `Runs`, `Run`, `After` or `Delivered` says where it leads.

Where the code does something else than its names or comments suggest, the model follows the code, and a lemma names the
exact condition or an input:

- Without a region filter the usage summary reports one account per kind, however many there are
  (`UnfilteredAccountsExactly`, with `TwoAccountsReportedAsOne` as the instance).
- A failed job of a partly successful run is handled like a scan that found nothing, so whether it counts as failed hangs on
  the threshold (`FailedJobsRecoverExactly`).
- An account can become configured without a configure step, exactly when it was given up on while it was discovered
  (`ConfigureComesFirst`, `GoodScanConfiguresExactly`; instance `ConfiguredWithoutConfigure`).
- A configure step can bring back a role that was replaced while it ran (`AccessIsUpToDateExactly`; instance
  `LateConfigureRestoresTheOldRole`).
- The number of collected accounts can exceed the limit: the count that a switch or a creation holds against it is read
  before the update commits, and a configure step and a recovery read none. It does exactly when one of these adds an
  account while the limit is reached (`LimitHoldsExactly`; instances `TwoSwitchesShareAPlace`, `RecoveryExceedsTheLimit`).
- Keeping zero accounts enabled disables none (`KeepingNoneDisablesNone`).
- A caller of the retry loop that has nothing to write is not checked again when it returns, so the order of return need not
  explain the row (`ReturnOrderSerializesExactly`; instance `ReturnOrderIsNotSerial`).
- The rounded remaining life of a rate limiter key can cost one token more than the refill earned
  (`LowestCountExactly`; instance `RoundingCostsOneToken`), and decides how many requests a span of less than a
  window can pass (`SpanAllowsExactly`).
- A JSON stream answers with status 200 whatever happens to its items (`StreamItems`).
- Billing looks at the first workspace of a subscription only, and the charge timestamp moves over the usage of the others
  (`FirstWorkspaceSufficesExactly`; instance `SecondWorkspaceIsPassedOver`). The tiling theorems are about the time that is
  accounted for, not about what is billed in it.

## Model

The main results are marked; the other rows are the operations they are about and the steps towards them.

| member | source | states |
|---|---|---|
| `CollectProgress.CollectAccountProgress.TrackAccountCollectionProgress` | fixbackend/dispatcher/dispatcher_service.py:87-124 | tracking overwrites the account's entry, the job's entry and the reverse key together, and renews all three expiry times |
| `CollectProgress.CollectAccountProgress.MarkAccountAsCollected` | fixbackend/dispatcher/dispatcher_service.py:163-185 | a result is stored for a tracked account only; for any other the call fails and nothing changes |
| `CollectProgress.CollectAccountProgress.MarkJobAsFailed` | fixbackend/dispatcher/dispatcher_service.py:195-214 | a failure finds its account through the reverse key and the jobs hash, and is dropped when either is missing |
| `CollectProgress.CollectAccountProgress.DeleteTenantCollectState` | fixbackend/dispatcher/dispatcher_service.py:216-221 | the progress hash, the jobs hash and the reverse key of every job in it are gone, and nothing else is |
| `CollectProgress.CollectAccountProgress.Expire` | fixbackend/dispatcher/dispatcher_service.py:117-122 | exactly the keys whose time has come disappear, each kind on its own |
| `Dispatcher.DispatcherService.CompleteCollectJob` | fixbackend/dispatcher/dispatcher_service.py:285-333 | with an open job nothing happens; otherwise one event (or none for an empty state) and the tracking is wiped |
| `Dispatcher.DispatcherService.ProcessPostCollectDoneMessage` | fixbackend/dispatcher/dispatcher_service.py:335-351 | only a successful message over a fully finished workspace completes the run; a failed one changes nothing at all |
| `Dispatcher.DispatcherService.TriggerPostCollect` | fixbackend/dispatcher/dispatcher_service.py:554-557 | a post-collect job is enqueued exactly when the workspace has a database |
| `Dispatcher.DispatcherService.CollectedAccounts` | fixbackend/dispatcher/dispatcher_service.py:437-448 | the loop over the progress entries yields the successful accounts and no other |
| `Dispatcher.DispatcherService.StoreResult` | fixbackend/dispatcher/dispatcher_service.py:412-418 | an error marks the job failed, anything else stores a success under the workspace the message names |
| `Dispatcher.DispatcherService.CollectJobFinished` | fixbackend/dispatcher/dispatcher_service.py:353-454 | the whole handler refines one step of the state machine the run theorems are about |
| `Dispatcher.DispatcherService.TriggerCollect` | fixbackend/dispatcher/dispatcher_service.py:484-552 | an account already tracked is not tracked again, nor one without credentials or database |
| `DispatchRuns.TrackKeepsIndexes` | fixbackend/dispatcher/dispatcher_service.py:87-124 | tracking a fresh job of an untracked account keeps the three indexes in agreement |
| `DispatchRuns.DeleteKeepsIndexes` | fixbackend/dispatcher/dispatcher_service.py:216-221 | wiping a workspace leaves no reverse key dangling |
| `DispatchRuns.ExpireKeepsIndexes` | fixbackend/dispatcher/dispatcher_service.py:117-122 | expiry keeps the agreement, because a reverse key never outlives its hashes |
| `DispatchRuns.MarkKeepsIndexes` | fixbackend/dispatcher/dispatcher_service.py:163-214 | in an agreeing store a result can always be stored, and changes the entry of its own job only |
| `DispatchRuns.StoresExactly` | fixbackend/dispatcher/dispatcher_service.py:163-214 | for every job of every workspace: a finish message replaces the result of its own job, under the workspace it names if it is a success and under the one its reverse key names if it is a failure, and of no other |
| `DispatchRuns.SomethingWasCollected` | fixbackend/dispatcher/dispatcher_service.py:427-452 | the branch that finds nothing to post-collect is dead: all done and not all failed means one succeeded |
| `DispatchRuns.EventsForTheTracked` | fixbackend/dispatcher/dispatcher_service.py:285-322 | the event of a finished workspace splits exactly its tracked accounts into succeeded and failed; an empty one sends none |
| `DispatchRuns.FinishIsMarkThenDecide` | fixbackend/dispatcher/dispatcher_service.py:353-454 | after storing its result a finish message completes at most one run, or at most enqueues a post-collect |
| `DispatchRuns.TriggerKeepsInv` | fixbackend/dispatcher/dispatcher_service.py:484-552 | tracking keeps the invariant of runs: index agreement, bounded expiry, live jobs, reports |
| `DispatchRuns.CompleteKeepsInv` | fixbackend/dispatcher/dispatcher_service.py:285-333 | so does completing a run: the reported jobs leave the store with the report |
| `DispatchRuns.FinishKeepsInv` | fixbackend/dispatcher/dispatcher_service.py:353-454 | so does any finish message, duplicate and stale ones included |
| `DispatchRuns.ExpireKeepsInv` | fixbackend/dispatcher/dispatcher_service.py:117-122 | so does the expiry of any keys |
| `DispatchRuns.RunKeepsInv` | fixbackend/dispatcher/dispatcher_service.py:274-333 | every run of tracking, messages, expiry and rescheduling keeps the invariant |
| `DispatchRuns.IndexesAlwaysAgree` | fixbackend/dispatcher/dispatcher_service.py:87-221 | **Main result.** in every reachable state a reverse key leads to a jobs hash that maps the job to a tracked account, no two jobs share an account, and the jobs cover the tracked accounts |
| `DispatchRuns.ReportedAtMostOnce` | fixbackend/dispatcher/dispatcher_service.py:285-351 | **Main result.** over every run each tracked job stands behind at most one event, after a finish message of its own; the two maps of an event are disjoint and together are the accounts tracked then |
| `DispatchRuns.FailedPostCollectChangesNothing` | fixbackend/dispatcher/dispatcher_service.py:347-349 | for every world and workspace a failed post-collect message leaves everything as it is |
| `DispatchRuns.PublishesExactly` | fixbackend/dispatcher/dispatcher_service.py:285-451 | **Main result.** in every reachable state a step publishes an event about a workspace if and only if it is a finish message after which all accounts of the non-empty workspace have failed, or a successful post-collect message once all of them have a result; it is one event, with the stored next run |
| `DispatchRuns.TrackedForFourHours` | fixbackend/dispatcher/dispatcher_service.py:484-552 | an account gets tracked if and only if it is not yet and has credentials and a database, with its cloud, its account id and the time, and its job leads to it through all three indexes for exactly four hours (lines 117-122) |
| `DispatchOrder.MarkOneMore` | fixbackend/dispatcher/dispatcher_service.py:353-418 | a finish message adds its outcome to the outcomes stored so far, whichever those are |
| `DispatchOrder.NothingBeforeTheLast` | fixbackend/dispatcher/dispatcher_service.py:425-429 | after any proper part of the messages, in any order, the world differs by the stored outcomes only |
| `DispatchOrder.Handle` | fixbackend/dispatcher/dispatcher_service.py:353-454 | the messages so far amount to storing their outcomes and, once none is open, one decision |
| `DispatchOrder.OrderDoesNotMatter` | fixbackend/dispatcher/dispatcher_service.py:353-454 | **Main result.** any two orders of the same finish messages end in the same world, and neither decides anything before its last message |
| `DispatchOrder.LastMessageDecides` | fixbackend/dispatcher/dispatcher_service.py:420-454 | **Main result.** the last message of a workspace takes one decision by the results of its jobs: when all failed, one failure event that tells the result of every job, and a wipe; otherwise no event, and with a database one post-collect job that lists exactly the accounts whose job succeeded, with their cloud, account id and task |
| `DispatchOrder.WholeRunReportsOutcomes` | fixbackend/dispatcher/dispatcher_service.py:335-454 | **Main result.** a whole run with a success ends in one event that names each account on the side of its job's outcome, with that outcome's numbers, the account id and start time it was tracked with, and the stored next run, and in a wiped workspace |
| `DispatchOrder.ReachableWorkspacesCollect` | fixbackend/dispatcher/dispatcher_service.py:87-221 | every reachable workspace whose reverse keys are alive meets the premise of the order theorems |
| `DispatchInterleaved.OwnMessage` | fixbackend/dispatcher/dispatcher_service.py:353-454 | a finish message of a workspace, first or repeated, stores its result in what there is of the workspace and is followed by the decision |
| `DispatchInterleaved.NotNoticed` | fixbackend/dispatcher/dispatcher_service.py:274-351 | a workspace with an open job does not notice what is about other workspaces, a post-collect message, or the trigger of an account it tracks already |
| `DispatchInterleaved.OnlyOutcomes` | fixbackend/dispatcher/dispatcher_service.py:425-429 | as long as some account has no result, an interleaved run only adds outcomes to the workspace |
| `DispatchInterleaved.InterleavingDoesNotMatter` | fixbackend/dispatcher/dispatcher_service.py:274-454 | **Main result.** messages may be repeated and interleaved with whatever goes on elsewhere: nothing is sent for a workspace before each open job was heard of, and the message that completes them leaves it with what the plain delivery in any order gives it |
| `DispatchOrder.DecidesExactlyWhen` | fixbackend/dispatcher/dispatcher_service.py:420-454 | **Main result.** a finish message decides something if and only if its reverse key is alive, all accounts of that workspace are done, and all failed or there is a database |
| `CollectFeedback.WholeRunFeedsTheStreaks` | fixbackend/dispatcher/dispatcher_service.py:285-454 | **Main result.** from the jobs of a partly successful run to the accounts: each failed-scan count moves by the outcome of the account's own job, and its scan columns show what that job reported and when it was tracked |
| `CollectFeedback.FailedRunEnds` | fixbackend/dispatcher/dispatcher_service.py:431-434 | a run whose jobs all fail is ended by its last message, without a post-collect, in one failure event about all accounts |
| `CollectFeedback.FailedRunFeedsTheStreaks` | fixbackend/cloud_accounts/service.py:428-453 | and every account of it has its failed-scan count raised by one, whatever the threshold, and shows what its job reported |
| `CollectFeedback.FailedJobsRecoverExactly` | fixbackend/cloud_accounts/service.py:359-403 | a failed job of a partly successful run lets a degraded account recover if and only if the threshold is negative |
| `OptimisticUpdate.StoredRow.Update` | fixbackend/cloud_accounts/repository.py:192-236 | the loop returns what the update function gives on the row its last attempt read; it writes only if that attempt was undisturbed, and starts over exactly after disturbed ones |
| `OptimisticUpdate.CommitKeepsSerial` | fixbackend/cloud_accounts/repository.py:201-230 | a commit either fails on a newer version, or extends the serial order of updates by its caller |
| `OptimisticUpdate.ReadKeepsSerial` | fixbackend/cloud_accounts/repository.py:195-203 | a read that finds nothing to write puts its caller into the serial order at that moment |
| `OptimisticUpdate.StepKeepsBudget` | fixbackend/cloud_accounts/repository.py:232-236 | no read or commit raises the budget of attempts |
| `OptimisticUpdate.UpdatesSerialize` | fixbackend/cloud_accounts/repository.py:192-236 | **Main result.** under any interleaving of N callers the row is that of applying each settled caller once in serial order, and at most N(N+1)/2 attempts, that is reads, are made |
| `OptimisticUpdate.NoUpdateIsLost` | fixbackend/workspaces/invitation_repository.py:88-119 | **Main result.** when all callers have returned, the serial order is a permutation of them |
| `OptimisticUpdate.SerializationRespectsTime` | fixbackend/cloud_accounts/repository.py:192-236 | a caller that returned before another one read comes before it in the serial order |
| `OptimisticUpdate.ReturnOrderSerializesExactly` | fixbackend/cloud_accounts/repository.py:201-203 | **Main result.** in every state of a run the stored row is what the returned callers give in the order of their return, if and only if each caller that returns without writing would still have nothing to write on the row stored then |
| `AzureRoles.BuildGraph` | fixbackend/cloud_accounts/azure_subscription_service.py:276-293 | the graph has one node per group and subscription, one edge per step of an ancestor chain, and no edge twice |
| `AzureRoles.LinksOfChains` | fixbackend/cloud_accounts/azure_subscription_service.py:280-293 | an edge is in the graph exactly when some chain has it as a step |
| `AzureRoles.ConsistentChainsGiveForest` | fixbackend/cloud_accounts/azure_subscription_service.py:280-293 | when the chains agree on the parent of each node the graph is a forest |
| `AzureRoles.AncestorsFormAChain` | fixbackend/cloud_accounts/azure_subscription_service.py:280-293 | in a forest two ancestors of a node are above one another |
| `AzureRoles.AllSuccessors` | fixbackend/cloud_accounts/azure_subscription_service.py:295-310 | what a search covers and tries is the node plus what the searches of its successors cover and try |
| `AzureRoles.RoleAssignment.AssignRoleDfs` | fixbackend/cloud_accounts/azure_subscription_service.py:295-310 | from an unvisited node the search visits exactly what is below it, and tries the role exactly where no node on the way accepted it |
| `AzureRoles.RoleAssignment.AssignSuccessors` | fixbackend/cloud_accounts/azure_subscription_service.py:309-310 | the loop over the successors does the same for all of them, disjointly |
| `AzureRoles.PrefixStep` | fixbackend/cloud_accounts/azure_subscription_service.py:319-324 | an unvisited node of a topological order is a root, so nothing below it has been visited |
| `AzureRoles.RoleAssignment.AssignAll` | fixbackend/cloud_accounts/azure_subscription_service.py:319-324 | **Main result.** the outer loop visits every node, tries no node twice, and tries exactly the nodes without an accepting proper ancestor |
| `AzureRoles.CoverageIsMaximalAndMinimal` | fixbackend/cloud_accounts/azure_subscription_service.py:295-324 | **Main result.** a node is tried iff no proper ancestor got the role; no two nodes with the role are above one another; a node is covered iff it or an ancestor accepts it |
| `AzureRoles.AboveIsTheChain` | fixbackend/cloud_accounts/azure_subscription_service.py:280-293 | with complete chains, what is above a node of a chain in the graph is exactly the rest of the chain |
| `AzureRoles.NodesExactly` | fixbackend/cloud_accounts/azure_subscription_service.py:276-293 | the nodes of the graph are exactly the groups and whatever is on some chain |
| `AzureRoles.GrantReaderRole` | fixbackend/cloud_accounts/azure_subscription_service.py:276-324 | **Main result.** graph, order and search together: a subscription gets the role, itself or through a group of its chain, if and only if it or a group of its chain accepts it; the role is tried, once, on exactly those groups and subscriptions that have no accepting group further up on a chain |
| `RateLimiter.LoginRateLimiter.Consume` | fixbackend/auth/rate_limiter.py:25-68 | the imperative script step equals the specified one, for this key, and leaves all other keys alone |
| `RateLimiter.NewTokensExactly` | fixbackend/auth/rate_limiter.py:46-52 | the comparison over fractions is an exact comparison of integers |
| `RateLimiter.AllowedExactly` | fixbackend/auth/rate_limiter.py:35-52 | while its key lives, a request passes if and only if a token is stored or the key is old enough for the one that is missing, rounding of TTL included |
| `RateLimiter.TtlIsNearestSecond` | fixbackend/auth/rate_limiter.py:35-45 | the remaining life of a key is taken to the nearest second |
| `RateLimiter.OneRequest` | fixbackend/auth/rate_limiter.py:35-58 | a denial changes nothing; an acceptance takes one token from a live key and creates an expired one anew |
| `RateLimiter.MinWaitInFractions` | fixbackend/auth/rate_limiter.py:46-48 | the wait for k missing tokens is k * window / limit but for the rounding |
| `RateLimiter.RunReaches` | fixbackend/auth/rate_limiter.py:35-58 | after any run the key is fresh or was last used by the last allowed request, with its count told by the requests allowed |
| `RateLimiter.TokensStayInRange` | fixbackend/auth/rate_limiter.py:35-58 | in every run the stored count is the limit less the requests the key has allowed, below the limit and not below minus the limit |
| `RateLimiter.LowestCountExactly` | fixbackend/auth/rate_limiter.py:35-58 | **Main result.** every run keeps the count at 1 - limit or above if and only if the rounding of TTL has no slack, that is with at most two ticks per second |
| `RateLimiter.LateRequestsWait` | fixbackend/auth/rate_limiter.py:46-58 | **Main result.** the k-th request a key allows, k > limit, waits for the token it needs, (k - limit) * window / limit but for the rounding; k never exceeds twice the limit |
| `RateLimiter.AtMostLimitPlusRefill` | fixbackend/auth/rate_limiter.py:25-68 | **Main result.** after any history a span shorter than the window allows at most limit + m requests, where the tokens for the m can be earned within less than a window |
| `RateLimiter.SpanAllowsExactly` | fixbackend/auth/rate_limiter.py:25-68 | **Main result.** that bound is exact: some history and some such span allow n requests if and only if the tokens for those beyond the limit can be earned in time |
| `RateLimiter.RefillInFractions` | fixbackend/auth/rate_limiter.py:46-48 | earned in time implies m(m+1)/2 < limit when the rounding has no slack, and the same with the slack of m roundings added to the window otherwise |
| `RateLimiter.AllowedInParts` | fixbackend/auth/rate_limiter.py:25-68 | a run in two parts allows what its parts allow |
| `RateLimiter.DenialsLeaveNoTrace` | fixbackend/auth/rate_limiter.py:46-52 | **Main result.** a run without its denied requests allows the same requests and ends in the same key: a denial never delays an acceptance |
| `RateLimiter.NothingWithoutLimit` | fixbackend/auth/rate_limiter.py:46-52 | without a positive limit nothing is ever allowed |
| `Calendar.OnlyItsMonth` | fixbackend/utils.py:71-77 | an instant lies in one month only |
| `Calendar.InstantIsInjective` | fixbackend/utils.py:71-88 | different timestamps have different instants |
| `Calendar.InstantInClosedForm` | fixbackend/utils.py:71-88 | the instant of a timestamp is the day number of the Gregorian calendar in closed form, leap years by their rule, times the length of a day, plus the clock |
| `Calendar.NextMonth` | fixbackend/utils.py:71-77 | the next month starts where this one ends, in leap years and Decembers too |
| `Calendar.NextDayStarts` | fixbackend/utils.py:80-84 | the next day starts a day after the start of this one, across month and year ends |
| `Calendar.NextPeriodIsLater` | fixbackend/utils.py:71-88 | the next period starts strictly later, at the hour asked for |
| `Billing.FactorIsOneExactlyInTheBand` | fixbackend/billing/service.py:61-73 | the factor is one if and only if the elapsed time lies strictly within 16.67% of the period |
| `Billing.ConsecutiveMonthlyCharges` | fixbackend/billing/service.py:238-252 | **Main result.** two consecutive monthly charges give a full period if and only if the month's length, corrected by both delays, lies strictly between 24.999 and 35.001 days |
| `Billing.OnScheduleChargesAreFullPeriods` | fixbackend/billing/service.py:61-73 | **Main result.** in every month of every year, delays of at most three days still give factor one |
| `Billing.LaterThanThatIsProrated` | fixbackend/billing/service.py:61-73 | three days is tight: a February charged 3.001 days late is prorated |
| `Billing.HighestTierIsTheMaximum` | fixbackend/billing/service.py:268-270 | the billed tier is a recorded one that none outranks, or Free |
| `Billing.UsageOfAPeriod` | fixbackend/billing/service.py:271-275 | whatever the factor a charge is never below what the tier includes and never zero on a paid tier, and a part of a period never charges more than the accounts or the included ones; the number itself is in BilledAccountsExactly |
| `Billing.BilledExactly` | fixbackend/billing/service.py:229-300 | a subscription is billed if and only if it is active and an account of its first workspace was collected on Plus, Business or Enterprise since the last charge; the entry covers that time, on the highest of these tiers |
| `Billing.BilledAccountsExactly` | fixbackend/billing/service.py:236-275 | **Main result.** how many accounts an entry bills, for every charge: with n collected accounts all n inside the band around 30 days, or one day; otherwise floor(n * elapsed / period); and never less than the 3, 10 or 25 the tier includes |
| `Billing.FirstWorkspaceSufficesExactly` | fixbackend/billing/service.py:255-297 | **Main result.** looking at the first workspace only bills all it should if and only if no other workspace of the subscription has anything to bill |
| `Billing.BillingService.UpdateChargeTimestamp` | fixbackend/subscription/subscription_repository.py:301-312 | both timestamps of one subscription move, no other does |
| `Billing.BillingService.CreateBillingEntry` | fixbackend/billing/service.py:229-300 | only the first workspace of a subscription is billed or skipped; the entry and the new timestamps are those of the specification |
| `Billing.BillingService.ChargeAll` | fixbackend/billing/billing_job.py:95-108 | the tasks of some subscriptions, in any order: the subscriptions, the entries and the counter are those of charging one after the other |
| `Billing.BillingService.CreateOverdueBillingEntries` | fixbackend/billing/billing_job.py:91-110 | exactly the active subscriptions whose next charge is not after now are charged, each once; the new entries are theirs, one for each that is billed, and the counter is how many |
| `Billing.OneEntryEach` | fixbackend/billing/billing_job.py:95-108 | there are as many new entries as billed subscriptions |
| `Billing.OrderIsJob` | fixbackend/billing/billing_job.py:106-108 | charging one after the other charges each on its own |
| `Billing.DueAgainNextPeriod` | fixbackend/subscription/subscription_repository.py:195-220 | after a charge a subscription is due again exactly from the start of the next period; one without workspace stays as due as it was |
| `Billing.ChargesTile` | fixbackend/billing/service.py:229-300 | **Main result.** over every run of billing calls the entries and the no-usage skips tile the time the charge timestamp moved over, their lengths sum to it, and the next charge stays after the last |
| `Billing.EntriesDoNotOverlap` | fixbackend/subscription/subscription_repository.py:265-299 | entries of a run are ordered and never overlap |
| `Billing.EntriesOfOne` | fixbackend/billing/billing_job.py:95-108 | a job stores at most one entry for a subscription, the one of its own charge |
| `Billing.ServiceRunsTile` | fixbackend/billing/billing_job.py:91-110 | **Main result.** over any sequence of overdue jobs the entries stored for a subscription are those of its spans, and these tile the time its charge timestamp moved over |
| `NextRun.NextRunIsNextSlot` | fixbackend/dispatcher/next_run_repository.py:54-65 | the next run is after now and a positive whole number of intervals after the last one |
| `NextRun.NextRunIsLeast` | fixbackend/dispatcher/next_run_repository.py:54-65 | it is the least such time when the last run is past, so missed slots are skipped, and one interval after the last run otherwise |
| `NextRun.FirstRun` | fixbackend/dispatcher/next_run_repository.py:54-65 | without a last run the next one is an interval from now |
| `NextRun.NextRunRepository.Create` | fixbackend/dispatcher/next_run_repository.py:40-44 | a first slot is stored once |
| `NextRun.NextRunRepository.Delete` | fixbackend/dispatcher/next_run_repository.py:80-85 | the slot is gone, no other is touched |
| `NextRun.NextRunRepository.UpdateNextRunFor` | fixbackend/dispatcher/next_run_repository.py:67-72 | an existing slot moves to the next run, a missing one is not created |
| `NextRun.NextRunRepository.UpdateNextRunAt` | fixbackend/dispatcher/next_run_repository.py:74-78 | an existing slot is overwritten, a missing one is not created |
| `NextRun.NextRunRepository.ScheduleNextRuns` | fixbackend/dispatcher/dispatcher_service.py:559-592 | one tick serves every past slot once and moves it to its next run, whatever the order |
| `NextRun.TickLeavesNothingPast` | fixbackend/dispatcher/next_run_repository.py:87-90 | a tick moves exactly the slots the listing of past slots holds, each to a later place on its grid within an interval of the clock, and leaves none that is past |
| `NextRun.TickOfOneWorkspace` | fixbackend/dispatcher/dispatcher_service.py:559-592 | a tick over all workspaces is one step of the run of each |
| `NextRun.SlotsStayOnGrid` | fixbackend/dispatcher/dispatcher_service.py:559-592 | **Main result.** over every run of ticks with a fixed tier a workspace's slots strictly increase by at least an interval, stay on one grid, and none is served twice |
| `NextRun.ServedSlotsAreBounded` | fixbackend/dispatcher/dispatcher_service.py:559-592 | a stretch of time serves at most one slot per interval and one more, all of them past |
| `AccountState.AccountRow.UpdateStateDependentFields` | fixbackend/cloud_accounts/repository.py:62-125 | all eight columns become those of the new state, whatever was in them |
| `AccountState.AccountRow.Update` | fixbackend/cloud_accounts/repository.py:193-230 | an undisturbed update writes all columns of the new state unless nothing changed, fails to read back exactly for an access of another cloud, and never leaves credentials of two providers |
| `AccountState.EncodingIsInjective` | fixbackend/cloud_accounts/repository.py:62-125 | **Main result.** states with the same eight columns are equal |
| `AccountState.StateReadsBackExactlyForItsCloud` | fixbackend/cloud_accounts/models/orm.py:79-128 | **Main result.** a stored state reads back as itself if and only if its access belongs to the cloud of the row, and otherwise fails to read |
| `AccountState.ReadsExactly` | fixbackend/cloud_accounts/models/orm.py:79-128 | which rows can be read, and as what, for all columns: the state column, or the older flag where there is none, the credentials of the cloud, and an error for a degraded row |
| `AccountState.ReadingAndStoringIsTheIdentityExactly` | fixbackend/cloud_accounts/models/orm.py:79-128 | reading a row and storing it again gives back the same columns if and only if no column held anything its state does not use |
| `AccountState.StoredColumnsAreTidy` | fixbackend/cloud_accounts/repository.py:118-125 | which is so for all columns this code stores for the right cloud |
| `AccountState.OneProvider` | fixbackend/cloud_accounts/repository.py:118-121 | at most one provider has credential columns set, exactly one if the state has access |
| `CloudAccounts.DegradeThenUndegrade` | fixbackend/cloud_accounts/service.py:1109-1184 | degrading and undegrading gives the state back if and only if the account was configured or had no access |
| `CloudAccounts.SwitchesAreIndependent` | fixbackend/cloud_accounts/service.py:1021-1107 | the enabled and scan switches fail for the same states, commute, and touch nothing but their flags |
| `CloudAccounts.DisablingIsBothSwitches` | fixbackend/cloud_accounts/service.py:1092-1107 | disabling an account is switching off both flags, except that a degraded one can only be switched |
| `CloudAccounts.StreakStarts` | fixbackend/cloud_accounts/service.py:359-366 | every run has exactly one place where its streak starts: after its last good scan, or at its start |
| `CloudAccounts.StoredCountIsTheStreak` | fixbackend/cloud_accounts/service.py:359-453 | **Main result.** in every run the stored count is the number of bad scans after the last good one, and all of them on top of the first count when there is none |
| `CloudAccounts.ScanDegradesByStreak` | fixbackend/cloud_accounts/service.py:381-403 | **Main result.** after a scan an account with access is degraded if the streak exceeds three, not degraded if it is zero, unchanged in between |
| `CloudAccounts.NobodyStaysDiscovered` | fixbackend/cloud_accounts/service.py:556-626 | **Main result.** in every run, if an account is discovered, no pass ran more than 30 minutes after its last state change, nor one that could not assume its AWS role more than 15; that no pass gives up sooner is GivesUpExactly |
| `CloudAccounts.GivesUpExactly` | fixbackend/cloud_accounts/service.py:556-626 | **Main result.** in every run a pass gives up on a discovered account if and only if it has waited in that state for more than 1800 seconds, or, for an AWS account whose role cannot be assumed, more than 900; otherwise the account is left exactly as it is |
| `CloudAccounts.WaitingSinceSomeTime` | fixbackend/cloud_accounts/service.py:556-563 | every discovered account of a run has been waiting since a step of the run or since its start, so the theorem above speaks about all of them |
| `CloudAccounts.DegradedExactly` | fixbackend/cloud_accounts/service.py:381-403 | the steps that degrade an account and those after which it is no longer degraded, for every state and step |
| `CloudAccounts.KindsChangeExactly` | fixbackend/cloud_accounts/service.py:556-972 | the same for the other kinds of state: only a new role discovers, only a deletion deletes, only a configure step or a good scan of a degraded account configures |
| `CloudAccounts.TimestampMovesExactly` | fixbackend/cloud_accounts/service.py:1109-1184 | the time of the last change of state moves if and only if the kind of the state changes, a new role is registered or the account is deleted |
| `CloudAccounts.FlagsChangeExactly` | fixbackend/cloud_accounts/service.py:1021-1155 | what sets the enabled flag, the scan flag and the error, and that every other step leaves them alone |
| `CloudAccounts.OtherColumnsChangeExactly` | fixbackend/cloud_accounts/service.py:381-402 | the scan columns, the privileged flag and the creation time: which step writes them, what it writes, and that no other does |
| `CloudAccounts.RegisteredAnew` | fixbackend/cloud_accounts/service.py:772-950 | the state and the columns of an account that was unknown, for each cloud |
| `CloudAccounts.AccessIsUpToDateExactly` | fixbackend/cloud_accounts/service.py:662-675 | **Main result.** in every run the stored access is always the one registered last if and only if each configure step that takes effect carries the access stored when it ends |
| `CloudAccounts.DeletedIsLeftThroughDiscovered` | fixbackend/cloud_accounts/service.py:728-768 | a deleted account changes state only by registering an AWS role, and is then discovered |
| `CloudAccounts.ConfiguredIsConfirmed` | fixbackend/cloud_accounts/service.py:662-675 | an account becomes configured if and only if a configure attempt finished or a degraded one had a good scan |
| `CloudAccounts.ConfiguredAfterDeletion` | fixbackend/cloud_accounts/service.py:952-972 | in every run a configured state after a deletion is preceded by a step into discovered and, later, by a configure step or a good scan of a degraded account |
| `CloudAccounts.ConfigureComesFirst` | fixbackend/cloud_accounts/service.py:556-675 | **Main result.** in every run from a deletion in which no discovered account is given up on, any configured or degraded state has a configure step before it |
| `CloudAccounts.SettledWithoutConfigure` | fixbackend/cloud_accounts/service.py:556-675 | in every run from a deletion without a configure step the account is configured or degraded if and only if it was given up on while discovered and not sent back since |
| `CloudAccounts.GoodScanConfiguresExactly` | fixbackend/cloud_accounts/service.py:1157-1184 | **Main result.** the condition is exact: without a configure step, one good scan makes the account configured if and only if it was given up on while discovered and not sent back since |
| `AccountService.CloudAccountService.DegradeAccount` | fixbackend/cloud_accounts/service.py:1109-1155 | a degraded account is left alone; any other gets its event, even one without access that stays unchanged |
| `AccountService.CloudAccountService.UndegradeAccount` | fixbackend/cloud_accounts/service.py:1157-1184 | only a degraded account changes |
| `AccountService.CloudAccountService.ProcessScan` | fixbackend/cloud_accounts/service.py:385-403 | the three updates for one scan amount to the specified one |
| `AccountService.CloudAccountService.ProcessCollectEvent` | fixbackend/cloud_accounts/service.py:367-453 | exactly the accounts handled before a missing one, or all of them, are updated, each once and in any order, and each that is degraded by it is announced once |
| `AccountService.AnnouncedWhenDegraded` | fixbackend/cloud_accounts/service.py:381-403 | a scan announces an account exactly on its fourth bad scan in a row or a later one while it is not degraded, which for one with access is exactly when it degrades it |
| `AccountService.CloudAccountService.UpdateCloudAccountEnabled` | fixbackend/cloud_accounts/service.py:1021-1061 | switching an account on or off with every error case in its order, and an event exactly on success |
| `AccountService.AnnouncedOnce` | fixbackend/cloud_accounts/service.py:1056-1060 | what the announcements of parallel tasks amount to: the old events first, then exactly one for each account |
| `AccountService.CloudAccountService.DisableAccount` | fixbackend/cloud_accounts/service.py:1187-1191 | one task switches off and announces an account that can be, and leaves any other as it is |
| `AccountService.CloudAccountService.DisableEach` | fixbackend/cloud_accounts/service.py:1187-1207 | the parallel tasks switch off exactly the given accounts that can be, and announce each once |
| `AccountService.CloudAccountService.DisableCloudAccounts` | fixbackend/cloud_accounts/service.py:1186-1207 | for each place of the listing: it is switched off if and only if it is configured or degraded and on, and at least keep enabled ones, discovered ones included, come after it; announced once each |
| `AccountService.CloudAccountService.EnableEach` | fixbackend/cloud_accounts/service.py:1231-1234 | the loop stops after the allowed number of tries, and each try counts, successful or not |
| `AccountService.CloudAccountService.EnableCloudAccounts` | fixbackend/cloud_accounts/service.py:1209-1234 | **Main result.** for each place of the listing: it is switched on if and only if it is configured or degraded and off, the payment is not on hold, on an unpaid tier nothing before it is off, and the accounts collected plus the configured ones before it that were off leave a slot; nothing else changes, each success is announced in listing order, and on a paid tier without a hold all are on afterwards or the limit is reached |
| `AccountService.EnablingExactly` | fixbackend/cloud_accounts/service.py:1209-1234 | the enable pass place by place, as above, for every listing, tier and hold |
| `AccountService.EnabledOrLimitReached` | fixbackend/cloud_accounts/service.py:1209-1234 | on a paid tier without a hold every configured or degraded account is enabled afterwards or the limit is reached |
| `AccountService.CloudAccountService.DeleteCloudAccount` | fixbackend/cloud_accounts/service.py:952-975 | deletion clears state and scan data and publishes once; a missing account is no error |
| `AccountService.CloudAccountService.DeleteEach` | fixbackend/cloud_accounts/service.py:513-517 | the parallel tasks delete exactly the given accounts and announce each that exists once |
| `AccountService.CloudAccountService.ProductTierChanged` | fixbackend/cloud_accounts/service.py:493-521 | for each place of the listing: a lower limit deletes it if and only if at least as many non-deleted ones come after it; a higher limit switches it on exactly as the enable pass on the new tier does; an equal limit changes nothing; a limit of zero is none |
| `AccountService.DisablingKeepsTheLast` | fixbackend/cloud_accounts/service.py:1186-1207 | **Main result.** disabling with keep >= 1 leaves at most keep configured or degraded accounts enabled, all among the last keep enabled ones, unchanged |
| `AccountService.DroppedExactly` | fixbackend/cloud_accounts/service.py:1192-1205 | an element of the filtered listing is dropped by the slice if and only if at least keep later ones pass the filter |
| `AccountService.KeepingNoneDisablesNone` | fixbackend/cloud_accounts/service.py:1205 | keeping none disables none |
| `AccountService.DowngradeLeavesTheLimit` | fixbackend/cloud_accounts/service.py:505-517 | **Main result.** a downgrade leaves exactly the last min(n, limit) non-deleted accounts of the listing |
| `AccountService.EnablingStaysWithinTheLimit` | fixbackend/cloud_accounts/service.py:1209-1234 | an enable pass never raises the number of collected accounts above the limit or above what it was |
| `AccountService.EnablingTouchesOnlyTheFlag` | fixbackend/cloud_accounts/service.py:1209-1234 | of the accounts tried only the enabled flag changes; all of them without limit and hold, none under a hold |
| `AccountService.UnpaidEnablesAtMostOne` | fixbackend/cloud_accounts/service.py:1219-1234 | an unpaid tier newly enables at most one account |
| `AccountService.UndegradingCountsExactly` | fixbackend/cloud_accounts/service.py:1029-1031 | undegrading raises the number of collected accounts exactly for a degraded and enabled account |
| `AccountLimits.ReadyRisesExactly` | fixbackend/cloud_accounts/service.py:1021-1107 | among all handlers the number of collected accounts rises, by one, if and only if an enabled GCP or Azure account is created, a configured one is switched on, or a configure step or a good scan confirms an enabled account |
| `AccountLimits.CheckedStaysWithin` | fixbackend/cloud_accounts/service.py:1029-1039 | a switch or a creation that goes by a count that is not outdated raises the number only from below the limit |
| `AccountLimits.CreatedEnabledExactly` | fixbackend/cloud_accounts/service.py:690-703 | a new account with access is enabled if and only if the accounts counted before leave a slot and no payment is on hold |
| `AccountLimits.LimitHoldsExactly` | fixbackend/cloud_accounts/service.py:1021-1061 | **Main result.** over every run of a workspace, outdated counts included, the number of collected accounts stays within the limit, or what it was before, if and only if none is added there by a handler with an outdated count, a configure step or a good scan |
| `Inventory.Accumulate` | fixbackend/inventory/inventory_service.py:949-958 | the nested loops leave every accumulator equal to its definition over all accounts |
| `Inventory.RowSumIsRegionTotal` | fixbackend/inventory/inventory_service.py:961-965 | the sum over a kind's region row is the sum of its counts over accounts and regions |
| `Inventory.DescendantSummary` | fixbackend/inventory/inventory_service.py:939-975 | **Main result.** said of the unfiltered summary: a kind is reported if and only if it is asked for and an account asked for counts it in a region asked for, or as a whole without a region filter; regions and, with a region filter, accounts are the sizes of the sets of regions and accounts asked for that count it; resources sum the counts of the accounts asked for, or with a region filter their cells in the regions asked for; without one the account number is one for every kind counted at all |
| `Inventory.SelectedExactly` | fixbackend/inventory/inventory_service.py:939-947 | each filter selects what it asks for: accounts by cloud and by id, cells by region and by kind |
| `Inventory.KindFilterIsAProjection` | fixbackend/inventory/inventory_service.py:167-175 | selecting kinds changes nothing about the kinds it keeps and drops the others |
| `Inventory.UnfilteredAccountsExactly` | fixbackend/inventory/inventory_service.py:967-971 | **Main result.** without a region filter the number of accounts is right if and only if at most one account counts the kind |
| `Inventory.TwoAccountsReportedAsOne` | fixbackend/inventory/inventory_service.py:967-971 | two accounts with one resource each are reported as one account |
| `Inventory.DictValuesBy` | fixbackend/inventory/inventory_service.py:135-141 | **Main result.** no duplicates, exactly the union of the values, and in descending order of the best rank of each value |
| `Inventory.Top` | fixbackend/inventory/inventory_service.py:581-583 | a prefix leaves out no value that outranks one it holds |
| `Streaming.StreamResponse` | fixbackend/streaming_response.py:78-110 | the exact messages for every stream and every point of failure |
| `Streaming.ReceivedBodies` | fixbackend/streaming_response.py:81-89 | the bodies concatenate to the chunks |
| `Streaming.Respond` | fixbackend/streaming_response.py:78-110 | **Main result.** one start, first; the chunks in order; closed by one final body unless the failure came after a chunk; an early failure has its own text and status 403, 404, 409, 400 or 500 |
| `Streaming.Serialize` | fixbackend/streaming_response.py:35-52 | the chunks concatenate to the array or the lines, closed only when the iteration ends well |
| `Streaming.StreamItems` | fixbackend/streaming_response.py:35-110 | an error status is possible only for the accept values of the line formats and before the first item: JSON has sent its bracket and status 200 by then; otherwise the client receives the lines or the array, closed unless the iteration failed |
| `Streaming.LinesReadBack` | fixbackend/streaming_response.py:35-52 | splitting the received lines at newlines gives back exactly the items |
| `Streaming.CommasReadBack` | fixbackend/streaming_response.py:35-52 | splitting a received array at its commas gives back items that hold none |
| `Sqs.SQSRawListener.Poll` | fixbackend/sqs.py:97-132 | one turn of the loop handles, skips and deletes the messages of a batch as specified |
| `Sqs.ProcessedExactly` | fixbackend/sqs.py:108-129 | **Main result.** for each message of a batch: the loop gets to it if and only if its batch is in time and no deletion failed before it; then it is tried if it was not received more often than the limit, and deleted if it was not tried or its handler succeeded, provided the deletion does; nothing else changes |
| `Sqs.BatchKeepsInv` | fixbackend/sqs.py:110-129 | a batch keeps the bound on tries and the reason behind every deletion |
| `Sqs.AtMostLimitTriesAndNoLoss` | fixbackend/sqs.py:97-132 | **Main result.** in every run a message is received once per turn whose batch holds it, its handler is tried at most once per receive and at most limit times, and it is deleted only after its handler succeeded or with more receives than the limit |
| `Sqs.UndisturbedRunBoundsReceives` | fixbackend/sqs.py:110-129 | without overdue batches and failing deletions no message left in the queue was received more often than the limit |

## Left out

- HTTP routers, OAuth, cookies, e-mails, webhooks, analytics, notifications and pub-sub messages: input and output only.
- Redis, SQLAlchemy and asyncio: handlers are atomic steps; a Redis transaction sets its expiry times at one instant; a stale commit fails exactly when the row changed since it was read.
- AWS, Azure, GCP, Stripe and the graph database: what they answer is a parameter of the step that asks.
- Identifiers are natural numbers or small datatypes, and a job id is fresh when it is tracked.
- The order of a post-collect list, and the metering records a finish message writes, are not modelled.
- A domain event is handled once: redelivery of an event by the stream is not modelled, so a handler that fails half-way is not run again.
- Columns next_scan, updated_at and the account names are not modelled; neither are the CloudFormation stack events beyond degrading an account.
- Collections holds shared notions and models nothing of its own.
- Floating point: the billing factor, the refill of the rate limiter and the band of 16.67% are exact fractions.
- The calendar has no last year.
- RateLimiter: the window is a positive whole number of seconds; the `now` argument that the script never reads is left out.
- AzureRoles: the topological order is an input, so a cyclic graph, on which computing it fails, is not covered; group ids and names stand for one another; one accept set stands for Azure's answers during one search.
- OptimisticUpdate.StoredRow.Update: termination is proved for finitely many commits of others, which the bound on attempts for N callers then supplies.
- Sqs: the receive count of the queue is exact; the back-off inside one receive counts as one try.
- Streaming.StreamResponse: headers, and a connection that breaks while sending, are not modelled.
- CloudAccounts: the accounts an organization's role lists are created as detected ones in steps of their own, and the probes of AWS inside configure_account are the parameter of a pass or of a finished attempt.
- NextRun.NextRunRepository.ScheduleNextRuns: the accounts a tick triggers are not listed; the listing of degraded accounts to ping ignores the workspace it is given (`fixbackend/cloud_accounts/repository.py:311-317`), so the collects of one tick are not per workspace.
- Changing the payment method, reporting usages to AWS Marketplace and Stripe, and the chunks in which that is done: sequences of calls to these services, whose effects are theirs.
- Permission masks, MFA flags, tokens and the cryptography around them: finite or library code.
