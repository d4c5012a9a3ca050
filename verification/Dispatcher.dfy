/**
  The dispatcher: collect jobs are tracked and enqueued, their finish messages arrive in any
  order, and the last one either completes the collect run or starts a post-collect job.
  Every handler is one atomic step.
 */
module Dispatcher {
  import opened Wrappers
  import opened CollectProgress

  datatype CollectInfo = CollectInfo(
    accountId: string, scannedResources: int, durationSeconds: int, startedAt: int,
    taskId: Option<TaskId>, errors: seq<string>)

  datatype Event =
    | TenantAccountsCollected(tenant: WorkspaceId,
                              collected: map<FixCloudAccountId, CollectInfo>,
                              failed: map<FixCloudAccountId, CollectInfo>, nextRun: Option<int>)
    | TenantAccountsCollectFailed(tenant: WorkspaceId,
                                  failed: map<FixCloudAccountId, CollectInfo>, nextRun: Option<int>)
  {
    function Succeeded(): map<FixCloudAccountId, CollectInfo> {
      if TenantAccountsCollected? then collected else map[]
    }
  }

  datatype PostCollectInfo = PostCollectInfo(cloud: string, accountId: string, taskId: TaskId)

  /** A post-collect job; one entry per listed cloud account. */
  datatype PostCollectJob = PostCollectJob(tenant: WorkspaceId, accounts: map<FixCloudAccountId, PostCollectInfo>)

  /** A message about a finished job; an error makes it a failure, whatever its kind. */
  datatype JobMessage = JobMessage(jobId: JobId, tenant: WorkspaceId, result: CollectionResult)

  function Succeeded(state: CollectState): map<FixCloudAccountId, CollectInfo> {
    map a | a in state && state[a].Succeeded() ::
      var done := state[a].collectionDone.value;
      CollectInfo(state[a].accountId, done.scannedResources, done.durationSeconds, state[a].startedAt,
                  Some(done.taskId), done.resourceErrors)
  }

  function Failed(state: CollectState): map<FixCloudAccountId, CollectInfo> {
    map a | a in state && state[a].Failed() ::
      var done := state[a].collectionDone.value;
      CollectInfo(state[a].accountId, 0, done.durationSeconds, state[a].startedAt, done.failedTask, [done.error])
  }

  function ToPostCollect(state: CollectState): map<FixCloudAccountId, PostCollectInfo> {
    map a | a in state && state[a].Succeeded() ::
      PostCollectInfo(state[a].cloud, state[a].accountId, state[a].collectionDone.value.taskId)
  }

  predicate AllFailed(state: CollectState) {
    forall a <- state :: state[a].Failed()
  }

  function EventsFor(w: WorkspaceId, state: CollectState, nextRun: Option<int>): seq<Event> {
    if Succeeded(state) != map[] then [TenantAccountsCollected(w, Succeeded(state), Failed(state), nextRun)]
    else if Failed(state) != map[] then [TenantAccountsCollectFailed(w, Failed(state), nextRun)]
    else []
  }

  /** Storing a result: a failure finds the workspace by job, a success takes it from the message. */
  function Mark(s: Store, m: JobMessage): Result<Store, string> {
    if m.result.CollectionFailure? then Ok(s.MarkFailed(m.jobId, m.result))
    else
      match s.StateByJob(m.tenant, m.jobId)
      case None => Ok(s)
      case Some(entry) =>
        var a := entry.cloudAccountId;
        if a in s.StateOf(m.tenant) then Ok(s.Put(m.tenant, a, s.StateOf(m.tenant)[a].With(m.result)))
        else Err("Could not find collect job context")
  }

  /** What the handlers read and write. */
  datatype World = World(
    store: Store,
    events: seq<Event>,
    postCollects: seq<PostCollectJob>,
    nextRuns: map<WorkspaceId, int>)
  {
    function NextRun(w: WorkspaceId): Option<int> {
      if w in nextRuns then Some(nextRuns[w]) else None
    }

    function Completed(w: WorkspaceId): World {
      if !store.AllDone(w) then this
      else this.(events := events + EventsFor(w, store.StateOf(w), NextRun(w)), store := store.Delete(w))
    }

    function PostCollectTriggered(w: WorkspaceId, accounts: map<FixCloudAccountId, PostCollectInfo>, db: bool): World {
      if db then this.(postCollects := postCollects + [PostCollectJob(w, accounts)]) else this
    }

    /** What follows once the result of a job has been stored. */
    function Decided(w: WorkspaceId, db: bool): World {
      var state := store.StateOf(w);
      if !store.AllDone(w) then this
      else if AllFailed(state) then Completed(w)
      else
        var collected := ToPostCollect(state);
        (if collected == map[] then Completed(w) else this).PostCollectTriggered(w, collected, db)
    }

    /** A finish message; `db` says whether the workspace has a graph database. */
    function JobFinished(m: JobMessage, db: bool): World {
      match Mark(store, m)
      case Err(_) => this
      case Ok(store') =>
        var marked := this.(store := store');
        match store'.OwnerOf(m.jobId)
        case None => marked
        case Some(w) => marked.Decided(w, db)
    }

    function PostCollectDone(w: WorkspaceId, success: bool): World {
      if !store.AllDone(w) || !success then this else Completed(w)
    }

    /** `info` is missing when the account state or its credentials do not allow a collect. */
    function Triggered(w: WorkspaceId, account: FixCloudAccountId, info: Option<AccountInformation>,
                       db: bool, job: JobId, now: int): World {
      if account in store.StateOf(w) || info.None? || !db then this
      else this.(store := store.Track(w, account, info.value, job, now))
    }
  }

  class DispatcherService {
    const collectProgress: CollectAccountProgress
    var events: seq<Event>
    var postCollects: seq<PostCollectJob>
    var nextRuns: map<WorkspaceId, int>

    ghost function View(): World
      reads this, collectProgress
    {
      World(collectProgress.View(), events, postCollects, nextRuns)
    }

    constructor (collectProgress: CollectAccountProgress, nextRuns: map<WorkspaceId, int>)
      ensures this.collectProgress == collectProgress
      ensures View() == World(collectProgress.View(), [], [], nextRuns)
    {
      this.collectProgress, this.nextRuns := collectProgress, nextRuns;
      events, postCollects := [], [];
    }

    method CompleteCollectJob(w: WorkspaceId)
      modifies this, collectProgress
      ensures View() == old(View()).Completed(w)
    {
      var state := collectProgress.View().StateOf(w);
      if !(forall a <- state :: state[a].IsDone()) {
        return;
      }
      var nextRun := if w in nextRuns then Some(nextRuns[w]) else None;
      var collectedSuccess, collectedFailed := Succeeded(state), Failed(state);
      if |collectedSuccess| > 0 {
        events := events + [TenantAccountsCollected(w, collectedSuccess, collectedFailed, nextRun)];
      } else if |collectedFailed| > 0 {
        events := events + [TenantAccountsCollectFailed(w, collectedFailed, nextRun)];
      }
      collectProgress.DeleteTenantCollectState(w);
    }

    method ProcessPostCollectDoneMessage(w: WorkspaceId, success: bool)
      modifies this, collectProgress
      ensures View() == old(View()).PostCollectDone(w, success)
      ensures !success ==> View() == old(View())
    {
      var state := collectProgress.View().StateOf(w);
      if !(forall a <- state :: state[a].IsDone()) {
        return;
      }
      if !success {
        return;
      }
      CompleteCollectJob(w);
    }

    method TriggerPostCollect(w: WorkspaceId, collected: map<FixCloudAccountId, PostCollectInfo>, db: bool)
      modifies this
      ensures View() == old(View()).PostCollectTriggered(w, collected, db)
    {
      if db {
        postCollects := postCollects + [PostCollectJob(w, collected)];
      }
    }

    /** The loop of `collect_job_finished` over a state in which every account has a result. */
    method CollectedAccounts(state: CollectState) returns (collected: map<FixCloudAccountId, PostCollectInfo>)
      requires forall a <- state :: state[a].IsDone()
      ensures collected == ToPostCollect(state)
    {
      collected := map[];
      var remaining := state.Keys;
      while remaining != {}
        invariant remaining <= state.Keys
        invariant collected == map a | a in ToPostCollect(state) && a !in remaining :: ToPostCollect(state)[a]
        decreases remaining
      {
        var a :| a in remaining;
        if state[a].collectionDone.value.CollectionSuccess? {
          var task := state[a].collectionDone.value.taskId;
          collected := collected[a := PostCollectInfo(state[a].cloud, state[a].accountId, task)];
        }
        remaining := remaining - {a};
      }
      assert collected == ToPostCollect(state);
    }

    method StoreResult(m: JobMessage) returns (stored: bool)
      modifies collectProgress
      ensures stored <==> Mark(old(collectProgress.View()), m).Ok?
      ensures stored ==> Ok(collectProgress.View()) == Mark(old(collectProgress.View()), m)
      ensures !stored ==> collectProgress.View() == old(collectProgress.View())
    {
      if m.result.CollectionFailure? {
        collectProgress.MarkJobAsFailed(m.jobId, m.result);
      } else {
        var progress := collectProgress.View().StateByJob(m.tenant, m.jobId);
        if progress.Some? {
          var r := collectProgress.MarkAccountAsCollected(m.tenant, progress.value.cloudAccountId, m.result);
          return r.Ok?;
        }
      }
      return true;
    }

    method CollectJobFinished(m: JobMessage, db: bool)
      modifies this, collectProgress
      ensures View() == old(View()).JobFinished(m, db)
    {
      var stored := StoreResult(m);
      if !stored {
        return;
      }
      var owner := collectProgress.View().OwnerOf(m.jobId);
      if owner.None? {
        return;
      }
      var w := owner.value;
      var state := collectProgress.View().StateOf(w);
      if !(forall a <- state :: state[a].IsDone()) {
        return;
      }
      if forall a <- state :: state[a].Failed() {
        CompleteCollectJob(w);
        return;
      }
      var collected := CollectedAccounts(state);
      if collected == map[] {
        CompleteCollectJob(w);
      }
      TriggerPostCollect(w, collected, db);
    }

    method TriggerCollect(w: WorkspaceId, account: FixCloudAccountId, info: Option<AccountInformation>,
                          db: bool, job: JobId, now: int)
      modifies collectProgress
      ensures View() == old(View()).Triggered(w, account, info, db, job, now)
    {
      var ongoing := account in collectProgress.View().StateOf(w);
      if ongoing {
        return;
      }
      if info.Some? && db {
        collectProgress.TrackAccountCollectionProgress(w, account, info.value, job, now);
      }
    }
  }
}
