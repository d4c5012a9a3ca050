/**
  From the dispatcher to the accounts: the event that ends a collect run is what the account service counts failed scans
  with. An event of a partly failed run goes through the handler for successful ones, which cannot tell a failed job
  from one that found nothing.
 */
module CollectFeedback {
  import opened Wrappers
  import opened Collections
  import opened CollectProgress
  import opened Dispatcher
  import opened DispatchOrder
  import opened CloudAccounts

  function ScanOf(info: CollectInfo): ScanInfo {
    ScanInfo(info.scannedResources, info.durationSeconds, info.startedAt, info.taskId, |info.errors|)
  }

  /** The accounts the handler goes through: `cloud_accounts | cloud_accounts_failed`. */
  function ScansOf(e: Event): map<FixCloudAccountId, ScanInfo> {
    map a | a in e.Succeeded().Keys + e.failed.Keys :: ScanOf(if a in e.failed then e.failed[a] else e.Succeeded()[a])
  }

  /** The account after the service has handled the event. */
  function Fed(a: Account, e: Event, id: FixCloudAccountId, threshold: Threshold, now: int): Account
    requires id in ScansOf(e)
  {
    Scanned(a, ScansOf(e)[id], e.TenantAccountsCollectFailed?, threshold, now)
  }

  /** Whether a job of a partly successful run adds to the streak of its account: a failed one does so only when finding
      nothing does. */
  predicate CountsAsBad(result: CollectionResult, threshold: Threshold) {
    match result
    case CollectionSuccess(scanned, _, _, _) => scanned <= threshold
    case CollectionFailure(_, _, _) => 0 <= threshold
  }

  /** What a collect event says about a job: when it was tracked, and what it reported. */
  predicate Shows(info: ScanInfo, entry: AccountCollectProgress, result: CollectionResult) {
    && info.startedAt == entry.startedAt && info.durationSeconds == result.durationSeconds
    && match result
       case CollectionSuccess(scanned, _, task, errors) =>
         info.scannedResources == scanned && info.taskId == Some(task) && info.errors == |errors|
       case CollectionFailure(_, task, _) => info.scannedResources == 0 && info.taskId == task && info.errors == 1
  }

  lemma {:induction false} ShownByName(e: Event, s: Store, w: WorkspaceId, outcome: Outcomes, j: JobId)
    requires Names(e, s, w, outcome) && j in s.JobsOf(w)
    ensures var id := s.JobsOf(w)[j];
            id in ScansOf(e) && id in s.StateOf(w) && Shows(ScansOf(e)[id], s.StateOf(w)[id], outcome[j])
  {
    var id := s.JobsOf(w)[j];
    assert id in e.failed <==> outcome[j].CollectionFailure?;
    assert Tells(if outcome[j].CollectionSuccess? then e.collected[id] else e.failed[id], s.StateOf(w)[id], outcome[j]);
  }

  lemma FedByShown(a: Account, info: ScanInfo, entry: AccountCollectProgress, result: CollectionResult,
                   threshold: Threshold, now: int)
    requires Shows(info, entry, result)
    ensures var after := Scanned(a, info, false, threshold, now);
            && after.failedScanCount == (if CountsAsBad(result, threshold) then a.failedScanCount + 1 else 0)
            && (!CountsAsBad(result, threshold) ==> !after.state.Degraded?)
            && Records(after, entry, result)
  {
  }

  lemma {:induction false} FedByName(e: Event, s: Store, w: WorkspaceId, outcome: Outcomes, j: JobId, a: Account,
                                     threshold: Threshold, now: int)
    requires Names(e, s, w, outcome) && j in s.JobsOf(w)
    ensures s.JobsOf(w)[j] in ScansOf(e)
    ensures var after := Fed(a, e, s.JobsOf(w)[j], threshold, now);
            && after.failedScanCount == (if CountsAsBad(outcome[j], threshold) then a.failedScanCount + 1 else 0)
            && (!CountsAsBad(outcome[j], threshold) ==> !after.state.Degraded?)
            && Records(after, s.StateOf(w)[s.JobsOf(w)[j]], outcome[j])
  {
    var id := s.JobsOf(w)[j];
    ShownByName(e, s, w, outcome, j);
    FedByShown(a, ScansOf(e)[id], s.StateOf(w)[id], outcome[j], threshold, now);
  }

  /** What the account shows about its last scan is what its job reported, and when the job was tracked. */
  predicate Records(a: Account, entry: AccountCollectProgress, result: CollectionResult) {
    && a.scanStartedAt == Some(entry.startedAt) && a.scanDuration == result.durationSeconds
    && match result
       case CollectionSuccess(scanned, _, task, errors) =>
         a.scannedResources == scanned && a.lastTaskId == Some(task) && a.resourceErrors == |errors|
       case CollectionFailure(_, task, _) => a.scannedResources == 0 && a.lastTaskId == task && a.resourceErrors == 1
  }

  /** A whole partly successful run, from the tracked jobs through their messages in any order and the post-collect to
      the accounts: the streak of each account moves by the outcome of its own job, and its scan data are that
      outcome's. */
  lemma {:induction false} WholeRunFeedsTheStreaks(s: World, w: WorkspaceId, order: seq<JobId>, outcome: Outcomes,
                                                   db: bool, good: JobId, accounts: map<FixCloudAccountId, Account>,
                                                   threshold: Threshold, now: int)
    requires Collecting(s.store, w) && Open(s.store, w) == s.store.JobsOf(w).Keys
    requires Distinct(order) && Elements(order) == Open(s.store, w) <= outcome.Keys
    requires good in order && outcome[good].CollectionSuccess?
    requires s.store.StateOf(w).Keys <= accounts.Keys
    ensures var events := Delivered(s, w, order, outcome, db).PostCollectDone(w, true).events;
            |events| == |s.events| + 1 &&
            forall j <- s.store.JobsOf(w) ::
                Feeds(events[|s.events|], s.store, w, j, outcome[j], accounts, threshold, now)
  {
    WholeRunReportsOutcomes(s, w, order, outcome, db, good);
    NamedEventFeeds(Delivered(s, w, order, outcome, db).PostCollectDone(w, true).events[|s.events|], s.store, w,
        outcome,
                    accounts, threshold, now);
  }

  lemma {:induction false} NamedEventFeeds(e: Event, s: Store, w: WorkspaceId, outcome: Outcomes,
                                           accounts: map<FixCloudAccountId, Account>, threshold: Threshold, now: int)
    requires Names(e, s, w, outcome) && s.StateOf(w).Keys <= accounts.Keys
    ensures forall j <- s.JobsOf(w) :: Feeds(e, s, w, j, outcome[j], accounts, threshold, now)
  {
    forall j <- s.JobsOf(w) ensures Feeds(e, s, w, j, outcome[j], accounts, threshold, now) {
      FedByName(e, s, w, outcome, j, accounts[s.JobsOf(w)[j]], threshold, now);
    }
  }

  predicate Feeds(e: Event, s: Store, w: WorkspaceId, j: JobId, result: CollectionResult,
                  accounts: map<FixCloudAccountId, Account>, threshold: Threshold, now: int)
  {
    && s.StateByJob(w, j).Some? && var id := s.JobsOf(w)[j];
       && id in accounts && id in ScansOf(e)
       && var after := Fed(accounts[id], e, id, threshold, now);
          && after.failedScanCount == (if CountsAsBad(result, threshold) then accounts[id].failedScanCount + 1 else 0)
          && Records(after, s.StateByJob(w, j).value, result)
  }

  /** A run whose jobs all fail needs no post-collect: the last message itself ends it. */
  lemma FailedRunEnds(s: World, w: WorkspaceId, order: seq<JobId>, outcome: Outcomes, db: bool)
    requires Collecting(s.store, w) && order != []
    requires Open(s.store, w) == s.store.JobsOf(w).Keys
    requires Distinct(order) && Elements(order) == Open(s.store, w) <= outcome.Keys
    requires forall j <- order :: outcome[j].CollectionFailure?
    ensures var t, failed := Delivered(s, w, order, outcome, db),
        Failed(WithOutcomes(s.store, w, outcome, Elements(order)));
            && t.store == s.store.Delete(w) && t.postCollects == s.postCollects
            && t.events == s.events + [TenantAccountsCollectFailed(w, failed, s.NextRun(w))]
            && failed.Keys == s.store.StateOf(w).Keys
  {
    var done := Elements(order);
    Handle(s, w, order, outcome, db);
    OpenJobsStayOpen(s, w, outcome, done);
    MarkedKeepsCollecting(s, w, outcome, done);
    MarkedIsDeletedAlike(s, w, outcome, done);
    AllOutcomesFailed(s.store, w, outcome, done);
    var marked := Marked(s, w, outcome, done);
    assert order[0] in done;
    assert s.store.JobsOf(w)[order[0]] in s.store.StateOf(w);
    assert marked.store.StateOf(w) == WithOutcomes(s.store, w, outcome, done);
    TheDecision(marked, w, db);
  }

  /** And it adds to the streak of every tracked account, whatever the threshold, and tells each what its job did. */
  lemma {:induction false} FailedRunFeedsTheStreaks(s: World, w: WorkspaceId, order: seq<JobId>, outcome: Outcomes,
                                                    db: bool, accounts: map<FixCloudAccountId, Account>,
                                                    threshold: Threshold, now: int)
    requires Collecting(s.store, w) && order != []
    requires Open(s.store, w) == s.store.JobsOf(w).Keys
    requires Distinct(order) && Elements(order) == Open(s.store, w) <= outcome.Keys
    requires forall j <- order :: outcome[j].CollectionFailure?
    requires s.store.StateOf(w).Keys <= accounts.Keys
    ensures var events := Delivered(s, w, order, outcome, db).events;
            |events| == |s.events| + 1 && ScansOf(events[|s.events|]).Keys == s.store.StateOf(w).Keys &&
            forall j <- s.store.JobsOf(w) ::
                FeedsFailure(events[|s.events|], s.store, w, j, outcome[j], accounts, threshold, now)
  {
    FailedRunEnds(s, w, order, outcome, db);
    assert forall j <- s.store.JobsOf(w) :: j in Elements(order);
    FailedEventFeeds(Delivered(s, w, order, outcome, db).events[|s.events|], s.store, w, outcome, accounts, threshold,
                     now);
  }

  lemma {:induction false} FailedEventFeeds(e: Event, s: Store, w: WorkspaceId, outcome: Outcomes,
                                            accounts: map<FixCloudAccountId, Account>, threshold: Threshold, now: int)
    requires Collecting(s, w) && s.JobsOf(w).Keys <= outcome.Keys && s.StateOf(w).Keys <= accounts.Keys
    requires forall j <- s.JobsOf(w) :: outcome[j].CollectionFailure?
    requires e.TenantAccountsCollectFailed? && e.failed == Failed(WithOutcomes(s, w, outcome, s.JobsOf(w).Keys))
    ensures forall j <- s.JobsOf(w) :: FeedsFailure(e, s, w, j, outcome[j], accounts, threshold, now)
  {
    OutcomesAreStored(s, w, outcome, s.JobsOf(w).Keys);
    forall j <- s.JobsOf(w) ensures FeedsFailure(e, s, w, j, outcome[j], accounts, threshold, now) {
      FedByFailure(e, s, w, j, outcome[j], accounts, threshold, now);
    }
  }

  /** The account of the job has one more bad scan, and shows what its job did. */
  predicate FeedsFailure(e: Event, s: Store, w: WorkspaceId, j: JobId, result: CollectionResult,
                         accounts: map<FixCloudAccountId, Account>, threshold: Threshold, now: int)
  {
    && s.StateByJob(w, j).Some? && var id := s.JobsOf(w)[j];
       && id in accounts && id in ScansOf(e)
       && var after := Fed(accounts[id], e, id, threshold, now);
          && after.failedScanCount == accounts[id].failedScanCount + 1
          && Records(after, s.StateByJob(w, j).value, result)
  }

  lemma FedByFailure(e: Event, s: Store, w: WorkspaceId, j: JobId, result: CollectionResult,
                     accounts: map<FixCloudAccountId, Account>, threshold: Threshold, now: int)
    requires e.TenantAccountsCollectFailed? && result.CollectionFailure? && s.StateByJob(w, j).Some?
    requires s.JobsOf(w)[j] in e.failed && s.JobsOf(w)[j] in accounts
    requires Tells(e.failed[s.JobsOf(w)[j]], s.StateByJob(w, j).value, result)
    ensures FeedsFailure(e, s, w, j, result, accounts, threshold, now)
  {
  }

  lemma AllOutcomesFailed(s: Store, w: WorkspaceId, outcome: Outcomes, done: set<JobId>)
    requires Collecting(s, w) && done == s.JobsOf(w).Keys <= outcome.Keys
    requires forall j <- done :: outcome[j].CollectionFailure?
    ensures var state := WithOutcomes(s, w, outcome, done); AllFailed(state) && state.Keys == s.StateOf(w).Keys
  {
    var state := WithOutcomes(s, w, outcome, done);
    forall a <- state ensures state[a].Failed() {
      assert JobFor(s.JobsOf(w), a) in done;
    }
  }

  /** With a negative threshold a failed job of a partly successful run clears the streak and even lets a degraded
      account recover; with any other threshold it never does. */
  lemma FailedJobsRecoverExactly(e: Event, s: Store, w: WorkspaceId, outcome: Outcomes, j: JobId, a: Account,
                                 threshold: Threshold, now: int)
    requires Names(e, s, w, outcome) && j in s.JobsOf(w) && outcome[j].CollectionFailure? && a.state.Degraded?
    ensures s.JobsOf(w)[j] in ScansOf(e)
    ensures Fed(a, e, s.JobsOf(w)[j], threshold, now).state.Configured? <==> threshold < 0
  {
    FedByName(e, s, w, outcome, j, a, threshold, now);
    assert s.JobsOf(w)[j] in e.failed && ScansOf(e)[s.JobsOf(w)[j]].scannedResources == 0;
  }
}
