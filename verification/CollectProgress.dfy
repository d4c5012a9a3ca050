/**
  The progress of running collect jobs, as `CollectAccountProgress` keeps it in Redis:
    - per workspace, a hash from cloud account to its progress;
    - per workspace, a hash from job id to the cloud account the job collects;
    - per job, a key that names the workspace of the job.
  Every key carries the time at which Redis drops it.
 */
module CollectProgress {
  import opened Wrappers

  type WorkspaceId = nat
  type FixCloudAccountId = nat
  type JobId = nat
  type TaskId = string

  // four hours, in seconds
  const EXPIRATION: nat := 4 * 3600

  datatype CollectionResult =
    | CollectionFailure(durationSeconds: int, failedTask: Option<TaskId>, error: string)
    | CollectionSuccess(scannedResources: int, durationSeconds: int, taskId: TaskId, resourceErrors: seq<string>)

  datatype AccountInformation = AccountInformation(cloud: string, accountId: string)

  datatype AccountCollectProgress = AccountCollectProgress(
    cloud: string,
    cloudAccountId: FixCloudAccountId,
    accountId: string,
    startedAt: int,
    collectionDone: Option<CollectionResult>)
  {
    predicate IsDone() { collectionDone.Some? }

    predicate Succeeded() { collectionDone.Some? && collectionDone.value.CollectionSuccess? }

    predicate Failed() { collectionDone.Some? && collectionDone.value.CollectionFailure? }

    function With(result: CollectionResult): AccountCollectProgress {
      this.(collectionDone := Some(result))
    }
  }

  type CollectState = map<FixCloudAccountId, AccountCollectProgress>

  /** A Redis value together with the time at which its key expires. */
  datatype Expiring<+V> = Expiring(value: V, expiresAt: int)

  function Alive<K, V>(m: map<K, Expiring<V>>, now: int): map<K, Expiring<V>> {
    map k | k in m && now < m[k].expiresAt :: m[k]
  }

  /** The abstract value of the three kinds of keys. */
  datatype Store = Store(
    progress: map<WorkspaceId, Expiring<CollectState>>,
    jobs: map<WorkspaceId, Expiring<map<JobId, FixCloudAccountId>>>,
    owners: map<JobId, Expiring<WorkspaceId>>)
  {
    // Redis reads a missing hash as the empty one
    function StateOf(w: WorkspaceId): CollectState {
      if w in progress then progress[w].value else map[]
    }

    function JobsOf(w: WorkspaceId): map<JobId, FixCloudAccountId> {
      if w in jobs then jobs[w].value else map[]
    }

    function OwnerOf(job: JobId): Option<WorkspaceId> {
      if job in owners then Some(owners[job].value) else None
    }

    function StateByJob(w: WorkspaceId, job: JobId): Option<AccountCollectProgress> {
      if job in JobsOf(w) && JobsOf(w)[job] in StateOf(w) then Some(StateOf(w)[JobsOf(w)[job]]) else None
    }

    predicate AllDone(w: WorkspaceId) {
      forall a <- StateOf(w) :: StateOf(w)[a].IsDone()
    }

    function Track(w: WorkspaceId, account: FixCloudAccountId, info: AccountInformation, job: JobId, now: int): Store {
      var entry := AccountCollectProgress(info.cloud, account, info.accountId, now, None);
      Store(progress[w := Expiring(StateOf(w)[account := entry], now + EXPIRATION)],
            jobs[w := Expiring(JobsOf(w)[job := account], now + EXPIRATION)],
            owners[job := Expiring(w, now + EXPIRATION)])
    }

    // `hset` on a live hash: the expiry of the key stays
    function Put(w: WorkspaceId, account: FixCloudAccountId, entry: AccountCollectProgress): Store
      requires w in progress
    {
      this.(progress := progress[w := progress[w].(value := progress[w].value[account := entry])])
    }

    function MarkFailed(job: JobId, failure: CollectionResult): Store {
      match OwnerOf(job)
      case None => this
      case Some(w) =>
        match StateByJob(w, job)
        case None => this
        case Some(entry) => Put(w, entry.cloudAccountId, entry.With(failure))
    }

    function Delete(w: WorkspaceId): Store {
      Store(progress - {w}, jobs - {w}, owners - JobsOf(w).Keys)
    }

    function Expire(now: int): Store {
      Store(Alive(progress, now), Alive(jobs, now), Alive(owners, now))
    }
  }

  const EMPTY_STORE := Store(map[], map[], map[])

  /** The Redis keys, updated in place. */
  class CollectAccountProgress {
    var progress: map<WorkspaceId, Expiring<CollectState>>
    var jobs: map<WorkspaceId, Expiring<map<JobId, FixCloudAccountId>>>
    var owners: map<JobId, Expiring<WorkspaceId>>

    function View(): Store
      reads this
    {
      Store(progress, jobs, owners)
    }

    constructor ()
      ensures View() == EMPTY_STORE
    {
      progress, jobs, owners := map[], map[], map[];
    }

    method TrackAccountCollectionProgress(w: WorkspaceId, account: FixCloudAccountId, info: AccountInformation,
                                          job: JobId, now: int)
      modifies this
      ensures View() == old(View()).Track(w, account, info, job, now)
    {
      var entry := AccountCollectProgress(info.cloud, account, info.accountId, now, None);
      var state, jobHash := View().StateOf(w), View().JobsOf(w);
      progress := progress[w := Expiring(state[account := entry], now + EXPIRATION)];
      jobs := jobs[w := Expiring(jobHash[job := account], now + EXPIRATION)];
      owners := owners[job := Expiring(w, now + EXPIRATION)];
    }

    /** Raises when the account is not tracked, and then changes nothing. */
    method MarkAccountAsCollected(w: WorkspaceId, account: FixCloudAccountId, result: CollectionResult)
      returns (r: Result<CollectState, string>)
      modifies this
      ensures r.Ok? <==> account in old(View()).StateOf(w)
      ensures r.Err? ==> View() == old(View())
      ensures r.Ok? ==>
                && View() == old(View()).Put(w, account, old(View()).StateOf(w)[account].With(result))
                && r.value == View().StateOf(w)
    {
      var state := View().StateOf(w);
      if account !in state {
        return Err("Could not find collect job context");
      }
      var entry := state[account].With(result);
      progress := progress[w := progress[w].(value := state[account := entry])];
      r := Ok(state[account := entry]);
    }

    method MarkJobAsFailed(job: JobId, failure: CollectionResult)
      modifies this
      ensures View() == old(View()).MarkFailed(job, failure)
    {
      var owner := View().OwnerOf(job);
      if owner.None? {
        return;
      }
      var w := owner.value;
      var entry := View().StateByJob(w, job);
      if entry.None? {
        return;
      }
      var failed := entry.value.With(failure);
      progress := progress[w := progress[w].(value := View().StateOf(w)[failed.cloudAccountId := failed])];
    }

    /** Drops the progress hash, the reverse key of every job in the jobs hash, and the jobs hash. */
    method DeleteTenantCollectState(w: WorkspaceId)
      modifies this
      ensures View() == old(View()).Delete(w)
    {
      progress := progress - {w};
      var remaining := View().JobsOf(w).Keys;
      while remaining != {}
        invariant remaining <= old(View()).JobsOf(w).Keys
        invariant progress == old(progress) - {w} && jobs == old(jobs)
        invariant owners == old(owners) - (old(View()).JobsOf(w).Keys - remaining)
        decreases remaining
      {
        var job :| job in remaining;
        owners := owners - {job};
        remaining := remaining - {job};
      }
      jobs := jobs - {w};
    }

    /** Redis drops every key whose time has come. */
    method Expire(now: int)
      modifies this
      ensures View() == old(View()).Expire(now)
    {
      progress, jobs, owners := Alive(progress, now), Alive(jobs, now), Alive(owners, now);
    }
  }

  // ----- the three indexes agree

  ghost predicate HasJob(jobs: map<JobId, FixCloudAccountId>, a: FixCloudAccountId) {
    exists j :: j in jobs && jobs[j] == a
  }

  /** The jobs hash is a bijection onto the tracked accounts. */
  ghost predicate JobsMatch(state: CollectState, jobs: map<JobId, FixCloudAccountId>) {
    && (forall j <- jobs :: jobs[j] in state)
    && (forall i <- jobs, j <- jobs :: jobs[i] == jobs[j] ==> i == j)
    && (forall a <- state :: HasJob(jobs, a) && state[a].cloudAccountId == a)
  }

  /** The two hashes of a workspace expire together and match. */
  ghost predicate HashesAgree(s: Store) {
    && s.progress.Keys == s.jobs.Keys
    && (forall w <- s.jobs :: s.progress[w].expiresAt == s.jobs[w].expiresAt)
    && (forall w <- s.jobs :: JobsMatch(s.progress[w].value, s.jobs[w].value))
  }

  /** A reverse key leads into a jobs hash that holds the job, and never outlives that hash. */
  ghost predicate OwnersAgree(s: Store) {
    forall j <- s.owners :: OwnerAgrees(s.jobs, j, s.owners[j])
  }

  ghost predicate OwnerAgrees(jobs: map<WorkspaceId, Expiring<map<JobId, FixCloudAccountId>>>, job: JobId,
                              owner: Expiring<WorkspaceId>)
  {
    && owner.value in jobs
    && job in jobs[owner.value].value
    && owner.expiresAt <= jobs[owner.value].expiresAt
  }

  ghost predicate IndexesAgree(s: Store) {
    HashesAgree(s) && OwnersAgree(s)
  }
}
