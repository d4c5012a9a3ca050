/**
  Every run of the dispatcher: tracked jobs, duplicate, stale and reordered messages, and expiring
  keys, in any interleaving. A history beside the world remembers which jobs were ever tracked,
  which were ever reported as finished by their worker, and which jobs stood behind each event.
 */
module DispatchRuns {
  import opened Wrappers
  import opened CollectProgress
  import opened Dispatcher

  datatype Action =
    | Trigger(w: WorkspaceId, account: FixCloudAccountId, info: Option<AccountInformation>, db: bool, job: JobId,
        now: int)
    | Finish(m: JobMessage, db: bool)
    | PostCollected(w: WorkspaceId, success: bool)
    | Expire(now: int)
    | Reschedule(w: WorkspaceId, at: int)

  function Apply(s: World, a: Action): World {
    match a
    case Trigger(w, account, info, db, job, now) => s.Triggered(w, account, info, db, job, now)
    case Finish(m, db) => s.JobFinished(m, db)
    case PostCollected(w, success) => s.PostCollectDone(w, success)
    case Expire(now) => s.(store := s.store.Expire(now))
    case Reschedule(w, at) => s.(nextRuns := s.nextRuns[w := at])
  }

  datatype History = History(
    world: World,
    clock: int,
    tracked: map<JobId, WorkspaceId>,
    finished: set<JobId>,
    reports: seq<map<JobId, FixCloudAccountId>>)  // per event: the jobs it speaks about, and their accounts

  /** Job ids are fresh and the clock of the store does not go back. */
  predicate Enabled(h: History, a: Action) {
    match a
    case Trigger(_, _, _, _, job, now) => job !in h.tracked && job !in h.finished && h.clock <= now
    case Expire(now) => h.clock <= now
    case _ => true
  }

  function Step(h: History, a: Action): History {
    var world := Apply(h.world, a);
    History(
      world,
      if a.Trigger? || a.Expire? then a.now else h.clock,
      if a.Trigger? then h.tracked[a.job := a.w] else h.tracked,
      if a.Finish? then h.finished + {a.m.jobId} else h.finished,
      if |world.events| <= |h.world.events| then h.reports
      else h.reports + [h.world.store.JobsOf(world.events[|world.events| - 1].tenant)])
  }

  ghost predicate Runs(h: History, actions: seq<Action>, h': History)
    decreases |actions|
  {
    if actions == [] then h == h'
    else Enabled(h, actions[0]) && Runs(Step(h, actions[0]), actions[1..], h')
  }

  function Initial(nextRuns: map<WorkspaceId, int>, clock: int): History {
    History(World(EMPTY_STORE, [], [], nextRuns), clock, map[], {}, [])
  }

  // ----- invariants

  /** No hash outlives the clock by more than the expiration time. */
  ghost predicate Bounded(s: Store, clock: int) {
    forall w <- s.jobs :: s.jobs[w].expiresAt <= clock + EXPIRATION
  }

  /** A live job was tracked, and an account marked done had a finish message of its own job. */
  ghost predicate LiveJobs(s: Store, tracked: map<JobId, WorkspaceId>, finished: set<JobId>) {
    forall w <- s.jobs, j <- s.jobs[w].value ::
      && j in tracked && tracked[j] == w
      && (s.StateByJob(w, j).Some? && s.StateByJob(w, j).value.IsDone() ==> j in finished)
  }

  ghost predicate ReportFits(e: Event, report: map<JobId, FixCloudAccountId>) {
    && e.Succeeded().Keys !! e.failed.Keys
    && e.Succeeded().Keys + e.failed.Keys == report.Values
  }

  /** One report per event; every reported job was tracked and finished, and no job is reported twice. */
  ghost predicate ReportsAgree(events: seq<Event>, reports: seq<map<JobId, FixCloudAccountId>>, done: set<JobId>) {
    && |reports| == |events|
    && (forall i :: 0 <= i < |reports| ==> ReportFits(events[i], reports[i]) && reports[i].Keys <= done)
    && (forall i, k :: 0 <= i < k < |reports| ==> reports[i].Keys !! reports[k].Keys)
  }

  /** A reported job has left the store. */
  ghost predicate ReportedJobsAreGone(s: Store, reports: seq<map<JobId, FixCloudAccountId>>) {
    forall i, w :: 0 <= i < |reports| && w in s.jobs ==> reports[i].Keys !! s.jobs[w].value.Keys
  }

  ghost predicate Inv(h: History) {
    && IndexesAgree(h.world.store)
    && Bounded(h.world.store, h.clock)
    && LiveJobs(h.world.store, h.tracked, h.finished)
    && ReportsAgree(h.world.events, h.reports, h.finished * h.tracked.Keys)
    && ReportedJobsAreGone(h.world.store, h.reports)
  }

  lemma TrackKeepsMatch(state: CollectState, jobs: map<JobId, FixCloudAccountId>, entry: AccountCollectProgress,
                        job: JobId)
    requires JobsMatch(state, jobs)
    requires entry.cloudAccountId !in state && job !in jobs
    ensures JobsMatch(state[entry.cloudAccountId := entry], jobs[job := entry.cloudAccountId])
  {
    var state', jobs' := state[entry.cloudAccountId := entry], jobs[job := entry.cloudAccountId];
    forall a <- state' ensures HasJob(jobs', a) {
      if a == entry.cloudAccountId {
        assert jobs'[job] == a;
      } else {
        var j :| j in jobs && jobs[j] == a;
        assert jobs'[j] == a;
      }
    }
  }

  lemma TrackKeepsHashes(s: Store, w: WorkspaceId, account: FixCloudAccountId, info: AccountInformation, job: JobId,
                         now: int)
    requires HashesAgree(s)
    requires account !in s.StateOf(w) && job !in s.JobsOf(w)
    ensures HashesAgree(s.Track(w, account, info, job, now))
  {
    var t := s.Track(w, account, info, job, now);
    assert JobsMatch(s.StateOf(w), s.JobsOf(w));
    TrackKeepsMatch(s.StateOf(w), s.JobsOf(w), t.progress[w].value[account], job);
  }

  lemma TrackKeepsIndexes(s: Store, w: WorkspaceId, account: FixCloudAccountId, info: AccountInformation, job: JobId,
                          now: int)
    requires IndexesAgree(s) && Bounded(s, now)
    requires account !in s.StateOf(w) && job !in s.JobsOf(w)
    ensures IndexesAgree(s.Track(w, account, info, job, now))
  {
    var t := s.Track(w, account, info, job, now);
    TrackKeepsHashes(s, w, account, info, job, now);
    forall j <- t.owners ensures OwnerAgrees(t.jobs, j, t.owners[j]) {
      if j != job {
        assert OwnerAgrees(s.jobs, j, s.owners[j]);
      }
    }
  }

  lemma PutKeepsIndexes(s: Store, w: WorkspaceId, a: FixCloudAccountId, entry: AccountCollectProgress)
    requires IndexesAgree(s)
    requires a in s.StateOf(w) && entry.cloudAccountId == a
    ensures IndexesAgree(s.Put(w, a, entry))
  {
    var t := s.Put(w, a, entry);
    assert HashesAgree(t) by {
      assert t.progress.Keys == s.progress.Keys;
      assert JobsMatch(s.StateOf(w), s.JobsOf(w));
      assert JobsMatch(t.StateOf(w), t.JobsOf(w));
    }
    assert OwnersAgree(t);
  }

  lemma DeleteKeepsHashes(s: Store, w: WorkspaceId)
    requires HashesAgree(s)
    ensures HashesAgree(s.Delete(w))
  {
  }

  lemma DeleteKeepsOwners(s: Store, w: WorkspaceId)
    requires OwnersAgree(s)
    ensures OwnersAgree(s.Delete(w))
  {
    var t := s.Delete(w);
    forall j <- t.owners ensures OwnerAgrees(t.jobs, j, t.owners[j]) {
      assert OwnerAgrees(s.jobs, j, s.owners[j]) && j !in s.JobsOf(w);
    }
  }

  lemma DeleteKeepsIndexes(s: Store, w: WorkspaceId)
    requires IndexesAgree(s)
    ensures IndexesAgree(s.Delete(w))
  {
    DeleteKeepsHashes(s, w);
    DeleteKeepsOwners(s, w);
  }

  lemma ExpireKeepsIndexes(s: Store, now: int)
    requires IndexesAgree(s)
    ensures IndexesAgree(s.Expire(now))
  {
    var t := s.Expire(now);
    forall j <- t.owners ensures OwnerAgrees(t.jobs, j, t.owners[j]) {
      assert OwnerAgrees(s.jobs, j, s.owners[j]);
    }
  }

  // ----- what one step keeps

  lemma PutKeepsLiveJobs(s: Store, w: WorkspaceId, job: JobId, result: CollectionResult,
                         tracked: map<JobId, WorkspaceId>, finished: set<JobId>)
    requires LiveJobs(s, tracked, finished) && s.StateByJob(w, job).Some? && job in finished
    requires JobsMatch(s.StateOf(w), s.JobsOf(w))
    ensures LiveJobs(s.Put(w, s.JobsOf(w)[job], s.StateByJob(w, job).value.With(result)), tracked, finished)
  {
    var a := s.JobsOf(w)[job];
    var t := s.Put(w, a, s.StateByJob(w, job).value.With(result));
    forall v, j | v in t.jobs && j in t.jobs[v].value && t.StateByJob(v, j).Some? && t.StateByJob(v, j).value.IsDone()
      ensures j in finished
    {
      if v == w && t.jobs[v].value[j] == a {
        assert j == job;
      } else {
        assert t.StateByJob(v, j) == s.StateByJob(v, j);
      }
    }
  }

  /** Storing a result never raises in an agreeing store, and touches the result of the message's own job only. */
  lemma MarkKeepsIndexes(s: Store, m: JobMessage)
    requires IndexesAgree(s)
    ensures Mark(s, m).Ok?
    ensures IndexesAgree(Mark(s, m).value)
    ensures Mark(s, m).value == s || exists w :: PutsResult(s, w, m, Mark(s, m).value)
  {
    var owner := if m.result.CollectionSuccess? then Some(m.tenant) else s.OwnerOf(m.jobId);
    if owner.Some? && s.StateByJob(owner.value, m.jobId).Some? {
      var w := owner.value;
      var a, entry := s.JobsOf(w)[m.jobId], s.StateByJob(w, m.jobId).value;
      assert entry.cloudAccountId == a && JobsMatch(s.StateOf(w), s.JobsOf(w));
      PutKeepsIndexes(s, w, a, entry.With(m.result));
      assert PutsResult(s, w, m, Mark(s, m).value);
    }
  }

  /** Where a message is stored: a success under the workspace it names, a failure under the one its reverse key names.
      */
  predicate IsFor(s: Store, m: JobMessage, v: WorkspaceId) {
    if m.result.CollectionSuccess? then v == m.tenant else s.OwnerOf(m.jobId) == Some(v)
  }

  /** What is stored, for every job of every workspace: the result of the message replaces that of its own job, if the
      job is tracked there, and the jobs and reverse keys stay. */
  lemma {:induction false} StoresExactly(s: Store, m: JobMessage, v: WorkspaceId, j: JobId)
    requires IndexesAgree(s)
    ensures Mark(s, m).Ok?
    ensures var t := Mark(s, m).value;
            && t.jobs == s.jobs && t.owners == s.owners && t.progress.Keys == s.progress.Keys
            && t.StateByJob(v, j) == if j == m.jobId && IsFor(s, m, v) && s.StateByJob(v, j).Some?
                                     then Some(s.StateByJob(v, j).value.(collectionDone := Some(m.result)))
                                     else s.StateByJob(v, j)
  {
    StoredAt(s, m);
    var owner := if m.result.CollectionSuccess? then Some(m.tenant) else s.OwnerOf(m.jobId);
    if owner.Some? && s.StateByJob(owner.value, m.jobId).Some? {
      PutByJob(s, owner.value, m.jobId, m.result, v, j);
    }
  }

  lemma {:induction false} StoredAt(s: Store, m: JobMessage)
    requires IndexesAgree(s)
    ensures var owner := if m.result.CollectionSuccess? then Some(m.tenant) else s.OwnerOf(m.jobId);
            Mark(s, m) == Ok(if owner.Some? && s.StateByJob(owner.value, m.jobId).Some?
                             then WithResult(s, owner.value, m.jobId, m.result) else s)
  {
    var owner := if m.result.CollectionSuccess? then Some(m.tenant) else s.OwnerOf(m.jobId);
    if owner.Some? && s.StateByJob(owner.value, m.jobId).Some? {
      assert JobsMatch(s.StateOf(owner.value), s.JobsOf(owner.value));
    }
  }

  function WithResult(s: Store, w: WorkspaceId, job: JobId, result: CollectionResult): Store
    requires s.StateByJob(w, job).Some?
  {
    s.Put(w, s.JobsOf(w)[job], s.StateByJob(w, job).value.With(result))
  }

  lemma {:induction false} PutByJob(s: Store, w: WorkspaceId, job: JobId, result: CollectionResult, v: WorkspaceId,
                                    j: JobId)
    requires HashesAgree(s) && s.StateByJob(w, job).Some?
    ensures var t := WithResult(s, w, job, result);
            && t.jobs == s.jobs && t.owners == s.owners && t.progress.Keys == s.progress.Keys
            && t.StateByJob(v, j) == if v == w && j == job
                                     then Some(s.StateByJob(v, j).value.(collectionDone := Some(result)))
                                     else s.StateByJob(v, j)
  {
    assert JobsMatch(s.StateOf(w), s.JobsOf(w));
  }

  ghost predicate PutsResult(s: Store, w: WorkspaceId, m: JobMessage, t: Store) {
    s.StateByJob(w, m.jobId).Some? && t == WithResult(s, w, m.jobId, m.result)
  }

  lemma MarkKeepsAgreement(s: Store, m: JobMessage, tracked: map<JobId, WorkspaceId>, finished: set<JobId>)
    requires IndexesAgree(s) && LiveJobs(s, tracked, finished) && m.jobId in finished
    ensures Mark(s, m).Ok?
    ensures var t := Mark(s, m).value;
            IndexesAgree(t) && LiveJobs(t, tracked, finished) && t.jobs == s.jobs && t.owners == s.owners
  {
    MarkKeepsIndexes(s, m);
    var t := Mark(s, m).value;
    if t != s {
      var w :| PutsResult(s, w, m, t);
      assert JobsMatch(s.StateOf(w), s.JobsOf(w));
      PutKeepsLiveJobs(s, w, m.jobId, m.result, tracked, finished);
    }
  }

  /** The branch for an empty post-collect list is dead: done but not all failed means one succeeded. */
  lemma SomethingWasCollected(s: Store, w: WorkspaceId)
    requires s.AllDone(w) && !AllFailed(s.StateOf(w))
    ensures ToPostCollect(s.StateOf(w)) != map[]
  {
    var a :| a in s.StateOf(w) && !s.StateOf(w)[a].Failed();
    assert a in ToPostCollect(s.StateOf(w));
  }

  lemma JobsCoverTheTracked(state: CollectState, jobs: map<JobId, FixCloudAccountId>)
    requires JobsMatch(state, jobs)
    ensures state.Keys == jobs.Values
  {
    forall a <- state ensures a in jobs.Values {
      assert HasJob(jobs, a);
    }
  }

  lemma EventsForTheTracked(w: WorkspaceId, state: CollectState, jobs: map<JobId, FixCloudAccountId>,
                            nextRun: Option<int>)
    requires JobsMatch(state, jobs) && forall a <- state :: state[a].IsDone()
    ensures state == map[] ==> EventsFor(w, state, nextRun) == []
    ensures state != map[] ==>
              var events := EventsFor(w, state, nextRun);
              |events| == 1 && events[0].tenant == w && ReportFits(events[0], jobs)
  {
    JobsCoverTheTracked(state, jobs);
    assert Succeeded(state).Keys + Failed(state).Keys == state.Keys;
    if state != map[] {
      var a :| a in state;
      assert a in Succeeded(state) || a in Failed(state);
    }
  }

  function Complete(h: History, w: WorkspaceId): History {
    var world := h.world.Completed(w);
    h.(world := world,
       reports := if |world.events| <= |h.world.events| then h.reports else h.reports + [h.world.store.JobsOf(w)])
  }

  lemma DoneJobsAreFinished(s: Store, w: WorkspaceId, tracked: map<JobId, WorkspaceId>, finished: set<JobId>)
    requires LiveJobs(s, tracked, finished) && s.AllDone(w)
    requires JobsMatch(s.StateOf(w), s.JobsOf(w))
    ensures s.JobsOf(w).Keys <= finished * tracked.Keys
  {
    forall j <- s.JobsOf(w) ensures j in finished && j in tracked {
      assert s.StateByJob(w, j).Some? && s.StateByJob(w, j).value.IsDone();
    }
  }

  lemma ReportedJobsLeave(s: Store, w: WorkspaceId, reports: seq<map<JobId, FixCloudAccountId>>,
                          tracked: map<JobId, WorkspaceId>, finished: set<JobId>)
    requires LiveJobs(s, tracked, finished) && ReportedJobsAreGone(s, reports)
    ensures ReportedJobsAreGone(s.Delete(w), reports)
    ensures ReportedJobsAreGone(s.Delete(w), reports + [s.JobsOf(w)])
    ensures forall i :: 0 <= i < |reports| ==> reports[i].Keys !! s.JobsOf(w).Keys
  {
    assert forall j <- s.JobsOf(w) :: j in tracked && tracked[j] == w;
    forall v, j | v in s.Delete(w).jobs && j in s.Delete(w).jobs[v].value ensures j !in s.JobsOf(w) {
      assert v in s.jobs && v != w && tracked[j] == v;
    }
  }

  lemma AppendKeepsReports(events: seq<Event>, reports: seq<map<JobId, FixCloudAccountId>>, done: set<JobId>,
                           e: Event, r: map<JobId, FixCloudAccountId>)
    requires ReportsAgree(events, reports, done)
    requires ReportFits(e, r) && r.Keys <= done
    requires forall i :: 0 <= i < |reports| ==> reports[i].Keys !! r.Keys
    ensures ReportsAgree(events + [e], reports + [r], done)
  {
  }

  lemma CompleteKeepsReports(h: History, w: WorkspaceId)
    requires Inv(h) && h.world.store.AllDone(w)
    ensures var h' := Complete(h, w);
            && ReportsAgree(h'.world.events, h'.reports, h.finished * h.tracked.Keys)
            && ReportedJobsAreGone(h'.world.store, h'.reports)
  {
    var s, done := h.world.store, h.finished * h.tracked.Keys;
    var events := EventsFor(w, s.StateOf(w), h.world.NextRun(w));
    assert JobsMatch(s.StateOf(w), s.JobsOf(w));
    EventsForTheTracked(w, s.StateOf(w), s.JobsOf(w), h.world.NextRun(w));
    DoneJobsAreFinished(s, w, h.tracked, h.finished);
    ReportedJobsLeave(s, w, h.reports, h.tracked, h.finished);
    if s.StateOf(w) != map[] {
      assert events == [events[0]];
      AppendKeepsReports(h.world.events, h.reports, done, events[0], s.JobsOf(w));
    }
  }

  lemma CompleteKeepsInv(h: History, w: WorkspaceId)
    requires Inv(h)
    ensures Inv(Complete(h, w))
  {
    if h.world.store.AllDone(w) {
      CompleteKeepsReports(h, w);
      DeleteKeepsIndexes(h.world.store, w);
      DeleteKeepsLiveJobs(h.world.store, w, h.tracked, h.finished);
    }
  }

  lemma DeleteKeepsLiveJobs(s: Store, w: WorkspaceId, tracked: map<JobId, WorkspaceId>, finished: set<JobId>)
    requires LiveJobs(s, tracked, finished)
    ensures LiveJobs(s.Delete(w), tracked, finished)
  {
    var t := s.Delete(w);
    forall v, j | v in t.jobs && j in t.jobs[v].value ensures t.StateByJob(v, j) == s.StateByJob(v, j) {}
  }

  lemma TrackKeepsStoreInv(s: Store, w: WorkspaceId, account: FixCloudAccountId, info: AccountInformation, job: JobId,
                           clock: int, now: int, tracked: map<JobId, WorkspaceId>, finished: set<JobId>)
    requires IndexesAgree(s) && Bounded(s, clock) && LiveJobs(s, tracked, finished)
    requires account !in s.StateOf(w) && job !in tracked && clock <= now
    ensures var t := s.Track(w, account, info, job, now);
            IndexesAgree(t) && Bounded(t, now) && LiveJobs(t, tracked[job := w], finished)
  {
    assert job !in s.JobsOf(w);
    assert JobsMatch(s.StateOf(w), s.JobsOf(w));
    TrackKeepsIndexes(s, w, account, info, job, now);
    TrackKeepsLiveJobs(s, w, account, info, job, now, tracked, finished);
  }

  lemma TriggerKeepsInv(h: History, a: Action)
    requires Inv(h) && a.Trigger? && Enabled(h, a)
    ensures Inv(Step(h, a))
  {
    var s, h' := h.world.store, Step(h, a);
    ReportsStayTracked(h.world.events, h.reports, h.finished * h.tracked.Keys, h'.finished * h'.tracked.Keys);
    if a.account !in s.StateOf(a.w) && a.info.Some? && a.db {
      TrackKeepsStoreInv(s, a.w, a.account, a.info.value, a.job, h.clock, a.now, h.tracked, h.finished);
      TrackedJobIsUnreported(h, a);
    }
  }

  lemma ReportsStayTracked(events: seq<Event>, reports: seq<map<JobId, FixCloudAccountId>>, done: set<JobId>,
                           done': set<JobId>)
    requires ReportsAgree(events, reports, done) && done <= done'
    ensures ReportsAgree(events, reports, done')
  {
  }

  lemma TrackedJobIsUnreported(h: History, a: Action)
    requires a.Trigger? && Enabled(h, a) && a.info.Some?
    requires ReportedJobsAreGone(h.world.store, h.reports)
    requires ReportsAgree(h.world.events, h.reports, h.finished * h.tracked.Keys)
    ensures ReportedJobsAreGone(h.world.store.Track(a.w, a.account, a.info.value, a.job, a.now), h.reports)
  {
    var s := h.world.store;
    var t := s.Track(a.w, a.account, a.info.value, a.job, a.now);
    forall i, w, j | 0 <= i < |h.reports| && w in t.jobs && j in t.jobs[w].value ensures j !in h.reports[i] {
      assert j == a.job || (w in s.jobs && j in s.jobs[w].value);
    }
  }

  lemma TrackKeepsLiveJobs(s: Store, w: WorkspaceId, account: FixCloudAccountId, info: AccountInformation,
                           job: JobId, now: int, tracked: map<JobId, WorkspaceId>, finished: set<JobId>)
    requires LiveJobs(s, tracked, finished) && job !in tracked
    requires account !in s.StateOf(w) && forall j <- s.JobsOf(w) :: s.JobsOf(w)[j] in s.StateOf(w)
    ensures LiveJobs(s.Track(w, account, info, job, now), tracked[job := w], finished)
  {
    var t := s.Track(w, account, info, job, now);
    forall v, j | v in t.jobs && j in t.jobs[v].value && j != job
      ensures v in s.jobs && j in s.jobs[v].value && t.StateByJob(v, j) == s.StateByJob(v, j)
    {}
  }

  lemma ExpireKeepsInv(h: History, a: Action)
    requires Inv(h) && a.Expire? && Enabled(h, a)
    ensures Inv(Step(h, a))
  {
    var s, t := h.world.store, Step(h, a).world.store;
    ExpireKeepsIndexes(s, a.now);
    forall v, j | v in t.jobs && j in t.jobs[v].value ensures t.StateByJob(v, j) == s.StateByJob(v, j) {
      assert t.StateOf(v) == s.StateOf(v);
    }
  }

  function Marked(h: History, m: JobMessage): History
    requires Mark(h.world.store, m).Ok?
  {
    h.(world := h.world.(store := Mark(h.world.store, m).value), finished := h.finished + {m.jobId})
  }

  lemma MarkKeepsInv(h: History, m: JobMessage)
    requires Inv(h)
    ensures Mark(h.world.store, m).Ok? && Inv(Marked(h, m))
    ensures Mark(h.world.store, m).value.jobs == h.world.store.jobs
  {
    MarkKeepsAgreement(h.world.store, m, h.tracked, h.finished + {m.jobId});
  }

  /** After its result is stored, a finish message completes a run of the job's workspace, or at most enqueues a
      post-collect. */
  lemma FinishIsMarkThenDecide(h: History, m: JobMessage, db: bool)
    requires Mark(h.world.store, m).Ok? && Mark(h.world.store, m).value.jobs == h.world.store.jobs
    ensures var marked, h' := Marked(h, m), Step(h, Finish(m, db));
            || h' == marked.(world := marked.world.(postCollects := h'.world.postCollects))
            || exists w :: h' == Complete(marked, w)
  {
    var marked := Marked(h, m);
    var owner := marked.world.store.OwnerOf(m.jobId);
    if owner.Some? && marked.world.store.AllDone(owner.value) {
      var w := owner.value;
      CompletedShape(marked.world, w);
      if AllFailed(marked.world.store.StateOf(w)) {
        assert Step(h, Finish(m, db)) == Complete(marked, w);
      } else {
        SomethingWasCollected(marked.world.store, w);
      }
    }
  }

  lemma FinishKeepsInv(h: History, a: Action)
    requires Inv(h) && a.Finish?
    ensures Inv(Step(h, a))
  {
    MarkKeepsInv(h, a.m);
    FinishIsMarkThenDecide(h, a.m, a.db);
    var marked, h' := Marked(h, a.m), Step(h, a);
    if h' != marked.(world := marked.world.(postCollects := h'.world.postCollects)) {
      var w :| h' == Complete(marked, w);
      CompleteKeepsInv(marked, w);
    }
  }

  lemma CompletedShape(s: World, w: WorkspaceId)
    ensures |s.Completed(w).events| > |s.events| ==> s.Completed(w).events[|s.Completed(w).events| - 1].tenant == w
  {
  }

  lemma StepKeepsInv(h: History, a: Action)
    requires Inv(h) && Enabled(h, a)
    ensures Inv(Step(h, a))
  {
    match a
    case Trigger(_, _, _, _, _, _) => TriggerKeepsInv(h, a);
    case Finish(_, _) => FinishKeepsInv(h, a);
    case Expire(_) => ExpireKeepsInv(h, a);
    case Reschedule(_, _) =>
    case PostCollected(w, _) =>
      CompletedShape(h.world, w);
      CompleteKeepsInv(h, w);
      assert Step(h, a) == h || Step(h, a) == Complete(h, w);
  }

  lemma {:induction false} RunKeepsInv(h: History, actions: seq<Action>, h': History)
    requires Inv(h) && Runs(h, actions, h')
    ensures Inv(h')
    decreases |actions|
  {
    if actions != [] {
      StepKeepsInv(h, actions[0]);
      RunKeepsInv(Step(h, actions[0]), actions[1..], h');
    }
  }

  // ----- the two safety theorems

  /** Whatever expires and in whatever order messages arrive, the three indexes agree in every reachable state. */
  lemma {:induction false} IndexesAlwaysAgree(nextRuns: map<WorkspaceId, int>, clock: int, actions: seq<Action>,
                                              h: History)
    requires Runs(Initial(nextRuns, clock), actions, h)
    ensures forall job <- h.world.store.owners ::
              var w := h.world.store.owners[job].value;
              job in h.world.store.JobsOf(w) && h.world.store.JobsOf(w)[job] in h.world.store.StateOf(w)
    ensures forall w, i, j :: (i in h.world.store.JobsOf(w) && j in h.world.store.JobsOf(w)
                               && h.world.store.JobsOf(w)[i] == h.world.store.JobsOf(w)[j]) ==> i == j
    ensures forall w :: h.world.store.JobsOf(w).Values == h.world.store.StateOf(w).Keys
  {
    RunKeepsInv(Initial(nextRuns, clock), actions, h);
    var s := h.world.store;
    forall w ensures JobsMatch(s.StateOf(w), s.JobsOf(w)) {}
    forall w ensures s.JobsOf(w).Values == s.StateOf(w).Keys {
      JobsCoverTheTracked(s.StateOf(w), s.JobsOf(w));
    }
    forall job <- s.owners ensures OwnerAgrees(s.jobs, job, s.owners[job]) {}
  }

  /** Each tracked job stands behind at most one event, and only after a finish message of its own was handled;
      the two account maps of an event are disjoint and together name exactly the accounts of its jobs. */
  lemma {:induction false} ReportedAtMostOnce(nextRuns: map<WorkspaceId, int>, clock: int, actions: seq<Action>,
                                              h: History)
    requires Runs(Initial(nextRuns, clock), actions, h)
    ensures |h.reports| == |h.world.events|
    ensures forall i, k, job :: 0 <= i < k < |h.reports| && job in h.reports[i] ==> job !in h.reports[k]
    ensures forall i, job :: 0 <= i < |h.reports| && job in h.reports[i] ==> job in h.tracked && job in h.finished
    ensures forall i :: 0 <= i < |h.reports| ==> h.world.events[i].Succeeded().Keys !! h.world.events[i].failed.Keys
    ensures forall i :: 0 <= i < |h.reports| ==>
              h.world.events[i].Succeeded().Keys + h.world.events[i].failed.Keys == h.reports[i].Values
  {
    RunKeepsInv(Initial(nextRuns, clock), actions, h);
    forall i | 0 <= i < |h.reports| ensures ReportFits(h.world.events[i], h.reports[i]) {}
  }

  // ----- exactly which steps publish and track

  /** The action ends a collect run of `w` over at least one account: a finish message of its last job, after which all
      of its accounts have failed, or a successful post-collect message once all of them have a result. */
  ghost predicate Ends(s: Store, a: Action, w: WorkspaceId) {
    match a
    case Finish(m, _) =>
      Mark(s, m).Ok? && var marked := Mark(s, m).value;
                        && marked.OwnerOf(m.jobId) == Some(w) && marked.StateOf(w) != map[]
                        && forall account <- marked.StateOf(w) :: marked.StateOf(w)[account].Failed()
    case PostCollected(v, success) =>
      && v == w && success && s.StateOf(w) != map[]
      && forall account <- s.StateOf(w) :: s.StateOf(w)[account].IsDone()
    case _ => false
  }

  /** A post-collect that failed changes nothing: no event is sent and the tracking stays until it expires. */
  lemma FailedPostCollectChangesNothing(s: World, w: WorkspaceId)
    ensures s.PostCollectDone(w, false) == s
  {
  }

  lemma CompletionPublishes(s: World, w: WorkspaceId)
    requires IndexesAgree(s.store) && s.store.AllDone(w)
    ensures s.store.StateOf(w) == map[] ==> s.Completed(w).events == s.events
    ensures s.store.StateOf(w) != map[] ==> Publishes(s, s.Completed(w), w)
  {
    assert JobsMatch(s.store.StateOf(w), s.store.JobsOf(w));
    EventsForTheTracked(w, s.store.StateOf(w), s.store.JobsOf(w), s.NextRun(w));
  }

  /** One more event: about `w`, with the next run stored for it. */
  ghost predicate Publishes(s: World, t: World, w: WorkspaceId) {
    && |t.events| == |s.events| + 1 && t.events[..|s.events|] == s.events
    && t.events[|s.events|].tenant == w && t.events[|s.events|].nextRun == s.NextRun(w)
  }

  lemma {:induction false} DecisionPublishes(s: World, w: WorkspaceId, db: bool)
    requires IndexesAgree(s.store)
    ensures if s.store.StateOf(w) != map[] && AllFailed(s.store.StateOf(w)) then Publishes(s, s.Decided(w, db), w)
            else s.Decided(w, db).events == s.events
  {
    if s.store.AllDone(w) {
      CompletionPublishes(s, w);
      if !AllFailed(s.store.StateOf(w)) {
        SomethingWasCollected(s.store, w);
      }
    }
  }

  lemma {:induction false} FinishIsDecision(s: World, m: JobMessage, db: bool, w: WorkspaceId)
    requires Mark(s.store, m).Ok? && Mark(s.store, m).value.OwnerOf(m.jobId) == Some(w)
    ensures var marked := s.(store := Mark(s.store, m).value);
            && s.JobFinished(m, db) == marked.Decided(w, db)
            && (Ends(s.store, Finish(m, db), w) <==>
                  marked.store.StateOf(w) != map[] && AllFailed(marked.store.StateOf(w)))
  {
  }

  lemma {:induction false} FinishPublishes(s: World, m: JobMessage, db: bool, w: WorkspaceId)
    requires IndexesAgree(s.store) && Mark(s.store, m).Ok? && IndexesAgree(Mark(s.store, m).value)
    requires Mark(s.store, m).value.OwnerOf(m.jobId) == Some(w)
    ensures if Ends(s.store, Finish(m, db), w) then Publishes(s, s.JobFinished(m, db), w)
            else s.JobFinished(m, db).events == s.events
  {
    FinishIsDecision(s, m, db, w);
    DecisionPublishes(s.(store := Mark(s.store, m).value), w, db);
  }

  /** In every reachable state a step publishes an event about a workspace if and only if it ends a run of it: one
      event, behind the old ones, with the stored next run. No other step publishes anything. */
  lemma {:induction false} PublishesExactly(nextRuns: map<WorkspaceId, int>, clock: int, actions: seq<Action>,
                                            h: History, a: Action, w: WorkspaceId)
    requires Runs(Initial(nextRuns, clock), actions, h) && Enabled(h, a)
    ensures var s, t := h.world, Step(h, a).world;
            && (Ends(s.store, a, w) <==> Publishes(s, t, w))
            && (t.events == s.events || exists v :: Ends(s.store, a, v))
  {
    RunKeepsInv(Initial(nextRuns, clock), actions, h);
    var s := h.world;
    match a
    case Finish(m, db) =>
      MarkKeepsIndexes(s.store, m);
      var owner := Mark(s.store, m).value.OwnerOf(m.jobId);
      if owner.Some? {
        FinishPublishes(s, m, db, owner.value);
      }
    case PostCollected(v, success) =>
      FailedPostCollectChangesNothing(s, v);
      if success && s.store.AllDone(v) {
        CompletionPublishes(s, v);
        assert s.store.StateOf(v) != map[] ==> Ends(s.store, a, v);
      }
    case _ =>
  }

  /** An account gets tracked if and only if it is not yet and has credentials and a database; nothing happens
      otherwise. From then on its job leads to it through all three indexes, as one without a result, for exactly four
      hours. */
  lemma TrackedForFourHours(s: World, w: WorkspaceId, account: FixCloudAccountId, info: Option<AccountInformation>,
                            db: bool, job: JobId, now: int, later: int)
    ensures var t := s.Triggered(w, account, info, db, job, now);
            if account in s.store.StateOf(w) || info.None? || !db then t == s
            else
              var store := t.store.Expire(later);
              && t == s.(store := t.store) && account in t.store.StateOf(w)
              && (later < now + 4 * 60 * 60 <==> account in store.StateOf(w))
              && (later < now + 4 * 60 * 60 <==> store.OwnerOf(job) == Some(w))
              && store.StateByJob(w, job)
                 == if later < now + 4 * 60 * 60 then
                      Some(AccountCollectProgress(info.value.cloud, account, info.value.accountId, now, None))
                    else None
  {
  }
}
