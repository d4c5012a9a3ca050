/**
  Finish messages of one collect run, one per open job and in any order. Nothing is decided before
  the last one; the last one takes one decision, and the decision does not depend on the order.
 */
module DispatchOrder {
  import opened Wrappers
  import opened Collections
  import opened CollectProgress
  import opened Dispatcher
  import opened DispatchRuns

  type Outcomes = map<JobId, CollectionResult>

  /** A workspace whose hashes match and whose reverse keys are all alive. */
  ghost predicate Collecting(s: Store, w: WorkspaceId) {
    && w in s.progress && w in s.jobs
    && JobsMatch(s.StateOf(w), s.JobsOf(w))
    && forall j <- s.JobsOf(w) :: s.OwnerOf(j) == Some(w)
  }

  /** The jobs whose account has no result yet. */
  function Open(s: Store, w: WorkspaceId): set<JobId> {
    set j | j in s.JobsOf(w) && s.StateByJob(w, j).Some? && !s.StateByJob(w, j).value.IsDone()
  }

  /** One message per job of `order`, handled one after the other. */
  function Delivered(s: World, w: WorkspaceId, order: seq<JobId>, outcome: Outcomes, db: bool): World
    requires forall j <- order :: j in outcome
  {
    if order == [] then s
    else
      var last := order[|order| - 1];
      Delivered(s, w, order[..|order| - 1], outcome, db).JobFinished(JobMessage(last, w, outcome[last]), db)
  }

  ghost function JobFor(jobs: map<JobId, FixCloudAccountId>, a: FixCloudAccountId): (j: JobId)
    requires HasJob(jobs, a)
    ensures j in jobs && jobs[j] == a
  {
    var j :| j in jobs && jobs[j] == a; j
  }

  /** The state of `w` once every job of `done` has its outcome: no order is left in it. */
  ghost function WithOutcomes(s: Store, w: WorkspaceId, outcome: Outcomes, done: set<JobId>): CollectState
    requires Collecting(s, w) && done <= outcome.Keys
  {
    map a | a in s.StateOf(w) ::
      var j := JobFor(s.JobsOf(w), a);
      if j in done then s.StateOf(w)[a].With(outcome[j]) else s.StateOf(w)[a]
  }

  ghost function Marked(s: World, w: WorkspaceId, outcome: Outcomes, done: set<JobId>): World
    requires Collecting(s.store, w) && done <= outcome.Keys
  {
    s.(store := s.store.(progress :=
      s.store.progress[w := s.store.progress[w].(value := WithOutcomes(s.store, w, outcome, done))]))
  }

  lemma MarkedKeepsCollecting(s: World, w: WorkspaceId, outcome: Outcomes, done: set<JobId>)
    requires Collecting(s.store, w) && done <= outcome.Keys
    ensures Collecting(Marked(s, w, outcome, done).store, w)
  {
  }

  lemma MarkOneMore(s: World, w: WorkspaceId, outcome: Outcomes, done: set<JobId>, j: JobId)
    requires Collecting(s.store, w) && done <= outcome.Keys
    requires j in s.store.JobsOf(w) && j in outcome && j !in done
    ensures Mark(Marked(s, w, outcome, done).store, JobMessage(j, w, outcome[j]))
            == Ok(Marked(s, w, outcome, done + {j}).store)
  {
    var jobs, before := s.store.JobsOf(w), Marked(s, w, outcome, done).store;
    var a := jobs[j];
    assert JobFor(jobs, a) == j;
    var entry := before.StateOf(w)[a];
    assert entry == s.store.StateOf(w)[a];
    assert before.StateByJob(w, j) == Some(entry) && entry.cloudAccountId == a;
    var after := before.Put(w, a, entry.With(outcome[j]));
    assert after.StateOf(w) == WithOutcomes(s.store, w, outcome, done + {j});
    assert after.progress == Marked(s, w, outcome, done + {j}).store.progress;
  }

  lemma OpenJobsStayOpen(s: World, w: WorkspaceId, outcome: Outcomes, done: set<JobId>)
    requires Collecting(s.store, w) && done <= outcome.Keys
    ensures Marked(s, w, outcome, done).store.AllDone(w) <==> Open(s.store, w) <= done
  {
    var t, jobs := Marked(s, w, outcome, done).store, s.store.JobsOf(w);
    forall j | j in Open(s.store, w) && j !in done ensures !t.AllDone(w) {
      assert JobFor(jobs, jobs[j]) == j;
      assert !t.StateOf(w)[jobs[j]].IsDone();
    }
    forall a | a in t.StateOf(w) && !t.StateOf(w)[a].IsDone() ensures !(Open(s.store, w) <= done) {
      var j := JobFor(jobs, a);
      assert j in Open(s.store, w) && j !in done;
    }
  }

  lemma {:induction false} NothingBeforeTheLast(s: World, w: WorkspaceId, order: seq<JobId>, outcome: Outcomes,
                                                db: bool)
    requires Collecting(s.store, w)
    requires Elements(order) < Open(s.store, w) && Distinct(order)
    requires forall j <- order :: j in outcome
    ensures Delivered(s, w, order, outcome, db) == Marked(s, w, outcome, Elements(order))
    decreases |order|, 1
  {
    if order == [] {
      assert WithOutcomes(s.store, w, outcome, Elements(order)) == s.store.progress[w].value;
      assert Marked(s, w, outcome, Elements(order)).store.progress == s.store.progress;
    } else {
      Handle(s, w, order, outcome, db);
    }
  }

  lemma {:induction false} Handle(s: World, w: WorkspaceId, order: seq<JobId>, outcome: Outcomes, db: bool)
    requires Collecting(s.store, w)
    requires order != [] && Elements(order) <= Open(s.store, w) && Distinct(order)
    requires forall j <- order :: j in outcome
    ensures Delivered(s, w, order, outcome, db) == Marked(s, w, outcome, Elements(order)).Decided(w, db)
    ensures Elements(order) != Open(s.store, w) ==>
        Delivered(s, w, order, outcome, db) == Marked(s, w, outcome, Elements(order))
    decreases |order|, 0
  {
    var front, last := order[..|order| - 1], order[|order| - 1];
    LastJob(order);
    NothingBeforeTheLast(s, w, front, outcome, db);
    MarkOneMore(s, w, outcome, Elements(front), last);
    FinishDecides(Marked(s, w, outcome, Elements(front)), JobMessage(last, w, outcome[last]), db,
                  Marked(s, w, outcome, Elements(order)), w);
    OpenJobsStayOpen(s, w, outcome, Elements(order));
  }

  lemma LastJob(order: seq<JobId>)
    requires order != [] && Distinct(order)
    ensures var front, last := order[..|order| - 1], order[|order| - 1];
            Elements(order) == Elements(front) + {last} && last !in Elements(front) && Distinct(front)
  {
    assert order == order[..|order| - 1] + [order[|order| - 1]];
  }

  lemma FinishDecides(s: World, m: JobMessage, db: bool, marked: World, w: WorkspaceId)
    requires Mark(s.store, m) == Ok(marked.store) && marked == s.(store := marked.store)
    requires marked.store.OwnerOf(m.jobId) == Some(w)
    ensures s.JobFinished(m, db) == marked.Decided(w, db)
    ensures !marked.store.AllDone(w) ==> s.JobFinished(m, db) == marked
  {
  }

  /** Two orders of the same messages lead to the same world, and neither decides anything on the way. */
  lemma {:induction false} OrderDoesNotMatter(s: World, w: WorkspaceId, order: seq<JobId>, order': seq<JobId>,
                                              outcome: Outcomes, db: bool)
    requires Collecting(s.store, w)
    requires Distinct(order) && Distinct(order')
    requires Elements(order) == Elements(order') == Open(s.store, w) <= outcome.Keys
    ensures Delivered(s, w, order, outcome, db) == Delivered(s, w, order', outcome, db)
    ensures forall k :: 0 <= k < |order| ==>
              var t := Delivered(s, w, order[..k], outcome, db);
              t.events == s.events && t.postCollects == s.postCollects
  {
    assert order' != [] ==> order'[0] in Elements(order);
    if order != [] {
      assert order[0] in Elements(order');
      Handle(s, w, order, outcome, db);
      Handle(s, w, order', outcome, db);
    }
    forall k | 0 <= k < |order|
      ensures var t := Delivered(s, w, order[..k], outcome, db);
              t.events == s.events && t.postCollects == s.postCollects
    {
      ProperPrefix(order, k);
      NothingBeforeTheLast(s, w, order[..k], outcome, db);
    }
  }

  lemma ProperPrefix(order: seq<JobId>, k: nat)
    requires Distinct(order) && k < |order|
    ensures Elements(order[..k]) < Elements(order) && Distinct(order[..k])
  {
    assert order[k] in Elements(order) && order[k] !in Elements(order[..k]);
  }

  /** The decision after the last message: a failure event that ends the run when every job failed, and otherwise
      one post-collect job for exactly the accounts that succeeded, with the tracking left in place. */
  lemma TheDecision(s: World, w: WorkspaceId, db: bool)
    requires Collecting(s.store, w) && s.store.AllDone(w) && s.store.StateOf(w) != map[]
    ensures var t, state := s.Decided(w, db), s.store.StateOf(w);
            if AllFailed(state) then
              && t.postCollects == s.postCollects
              && t.store == s.store.Delete(w)
              && t.events == s.events + [TenantAccountsCollectFailed(w, Failed(state), s.NextRun(w))]
              && Failed(state).Keys == state.Keys
            else
              && t.events == s.events && t.store == s.store
              && (db ==> t.postCollects == s.postCollects + [PostCollectJob(w, ToPostCollect(state))])
              && (!db ==> t.postCollects == s.postCollects)
              && forall a :: a in ToPostCollect(state) <==> a in state && state[a].Succeeded()
  {
    var state := s.store.StateOf(w);
    if AllFailed(state) {
      var a :| a in state;
      assert a in Failed(state);
      assert Succeeded(state) == map[];
    } else {
      SomethingWasCollected(s.store, w);
    }
  }

  /** The result of a job once the messages of all open jobs are in: its outcome, or the one that was stored before. */
  function ResultOf(s: Store, w: WorkspaceId, outcome: Outcomes, j: JobId): CollectionResult
    requires Open(s, w) <= outcome.Keys && s.StateByJob(w, j).Some?
  {
    if j in Open(s, w) then outcome[j] else s.StateByJob(w, j).value.collectionDone.value
  }

  ghost predicate Succeeds(s: Store, w: WorkspaceId, outcome: Outcomes, j: JobId) {
    && Open(s, w) <= outcome.Keys && s.StateByJob(w, j).Some?
    && ResultOf(s, w, outcome, j).CollectionSuccess?
  }

  /** A post-collect job that lists the accounts of exactly the successful jobs, with their tasks and the cloud and the
      cloud's account id they were tracked with. */
  ghost predicate ListsSuccesses(job: PostCollectJob, s: Store, w: WorkspaceId, outcome: Outcomes) {
    && Open(s, w) <= outcome.Keys
    && job.tenant == w && job.accounts.Keys <= s.JobsOf(w).Values
    && forall j <- s.JobsOf(w) ::
         && (s.JobsOf(w)[j] in job.accounts <==> Succeeds(s, w, outcome, j))
         && (Succeeds(s, w, outcome, j) ==>
               var entry := s.StateByJob(w, j).value;
               job.accounts[s.JobsOf(w)[j]]
               == PostCollectInfo(entry.cloud, entry.accountId, ResultOf(s, w, outcome, j).taskId))
  }

  /** Exactly the accounts of the jobs, each with the result of its job. */
  ghost predicate TellsResults(infos: map<FixCloudAccountId, CollectInfo>, s: Store, w: WorkspaceId, outcome: Outcomes)
  {
    && Open(s, w) <= outcome.Keys && infos.Keys == s.JobsOf(w).Values
    && forall j <- s.JobsOf(w) ::
         s.StateByJob(w, j).Some? &&
         Tells(infos[s.JobsOf(w)[j]], s.StateByJob(w, j).value, ResultOf(s, w, outcome, j))
  }

  /** A failure event of `w` about the accounts of all its jobs, with the stored next run. */
  ghost predicate ReportsFailure(e: Event, s: World, w: WorkspaceId, outcome: Outcomes) {
    && e.TenantAccountsCollectFailed? && e.tenant == w && e.nextRun == s.NextRun(w)
    && TellsResults(e.failed, s.store, w, outcome)
  }

  /** The last message decides by the results of the jobs alone. If every job failed, one failure event about all
      accounts ends the run. Otherwise no event is sent, the tracking stays, and one post-collect job lists exactly the
      accounts whose job succeeded, provided there is a database. */
  lemma {:induction false} LastMessageDecides(s: World, w: WorkspaceId, order: seq<JobId>, outcome: Outcomes, db: bool)
    requires Collecting(s.store, w) && order != [] && Distinct(order)
    requires Elements(order) == Open(s.store, w) <= outcome.Keys
    ensures var t, jobs := Delivered(s, w, order, outcome, db), s.store.JobsOf(w);
            if forall j <- jobs :: !Succeeds(s.store, w, outcome, j) then
              && t.store == s.store.Delete(w) && t.postCollects == s.postCollects
              && |t.events| == |s.events| + 1 && t.events[..|s.events|] == s.events
              && ReportsFailure(t.events[|s.events|], s, w, outcome)
            else
              && t.events == s.events && t.store == Marked(s, w, outcome, Elements(order)).store
              && (!db ==> t.postCollects == s.postCollects)
              && (db ==>
                    && |t.postCollects| == |s.postCollects| + 1
                    && t.postCollects[..|s.postCollects|] == s.postCollects
                    && ListsSuccesses(t.postCollects[|s.postCollects|], s.store, w, outcome))
  {
    var done := Elements(order);
    var marked, state := Marked(s, w, outcome, done), WithOutcomes(s.store, w, outcome, done);
    Handle(s, w, order, outcome, db);
    OpenJobsStayOpen(s, w, outcome, done);
    MarkedKeepsCollecting(s, w, outcome, done);
    MarkedIsDeletedAlike(s, w, outcome, done);
    assert order[0] in done;
    assert s.store.JobsOf(w)[order[0]] in state;
    TheDecision(marked, w, db);
    ResultsAreStored(s.store, w, outcome);
    ResultsAreListed(s.store, w, outcome);
  }

  lemma {:induction false} ResultsAreStored(s: Store, w: WorkspaceId, outcome: Outcomes)
    requires Collecting(s, w) && Open(s, w) <= outcome.Keys
    ensures var state := WithOutcomes(s, w, outcome, Open(s, w));
            && state.Keys == s.JobsOf(w).Values
            && (forall j <- s.JobsOf(w) ::
                  && s.JobsOf(w)[j] in state && s.StateByJob(w, j).Some?
                  && state[s.JobsOf(w)[j]] == s.StateByJob(w, j).value.With(ResultOf(s, w, outcome, j)))
  {
    var jobs := s.JobsOf(w);
    JobsCoverTheTracked(s.StateOf(w), jobs);
    forall j <- jobs
      ensures var state := WithOutcomes(s, w, outcome, Open(s, w));
              && jobs[j] in state && s.StateByJob(w, j).Some?
              && state[jobs[j]] == s.StateByJob(w, j).value.With(ResultOf(s, w, outcome, j))
    {
      assert JobFor(jobs, jobs[j]) == j;
    }
  }

  lemma {:induction false} ResultsAreListed(s: Store, w: WorkspaceId, outcome: Outcomes)
    requires Collecting(s, w) && Open(s, w) <= outcome.Keys
    ensures var state := WithOutcomes(s, w, outcome, Open(s, w));
            && ListsSuccesses(PostCollectJob(w, ToPostCollect(state)), s, w, outcome)
            && (AllFailed(state) <==> forall j <- s.JobsOf(w) :: !Succeeds(s, w, outcome, j))
            && (AllFailed(state) ==> TellsResults(Failed(state), s, w, outcome))
  {
    var state, jobs := WithOutcomes(s, w, outcome, Open(s, w)), s.JobsOf(w);
    ResultsAreStored(s, w, outcome);
    if AllFailed(state) {
      forall j <- jobs ensures !Succeeds(s, w, outcome, j) {
        assert state[jobs[j]].Failed();
      }
    } else {
      var a :| a in state && !state[a].Failed();
      var j := JobFor(jobs, a);
      assert Succeeds(s, w, outcome, j);
    }
  }

  /** A success event of `w` that lists the account of each job on the side its outcome asks for. */
  ghost predicate Names(e: Event, s: Store, w: WorkspaceId, outcome: Outcomes) {
    var state, jobs := s.StateOf(w), s.JobsOf(w);
    && e.TenantAccountsCollected? && e.tenant == w
    && jobs.Keys <= outcome.Keys && jobs.Values <= state.Keys
    && (forall j <- jobs :: jobs[j] in e.collected <==> outcome[j].CollectionSuccess?)
    && (forall j <- jobs :: jobs[j] in e.failed <==> outcome[j].CollectionFailure?)
    && (forall j <- jobs ::
          Tells(if outcome[j].CollectionSuccess? then e.collected[jobs[j]] else e.failed[jobs[j]],
                state[jobs[j]], outcome[j]))
    && e.collected.Keys + e.failed.Keys == jobs.Values
  }

  /** What an event tells about the account that was tracked with `entry` and whose job had this result. */
  ghost predicate Tells(info: CollectInfo, entry: AccountCollectProgress, result: CollectionResult) {
    && info.accountId == entry.accountId && info.startedAt == entry.startedAt
    && match result
       case CollectionSuccess(scanned, duration, task, errors) =>
         info.scannedResources == scanned && info.durationSeconds == duration && info.taskId == Some(task) &&
             info.errors == errors
       case CollectionFailure(duration, task, error) =>
         info.scannedResources == 0 && info.durationSeconds == duration && info.taskId == task &&
             info.errors == [error]
  }

  /** A whole run: all open jobs of a workspace finish in any order, at least one of them well, and the post-collect
      succeeds. Then one event names exactly the accounts whose job succeeded and those whose job failed, and the
      workspace is no longer tracked. */
  lemma WholeRunReportsOutcomes(s: World, w: WorkspaceId, order: seq<JobId>, outcome: Outcomes, db: bool, good: JobId)
    requires Collecting(s.store, w) && Open(s.store, w) == s.store.JobsOf(w).Keys
    requires Distinct(order) && Elements(order) == Open(s.store, w) <= outcome.Keys
    requires good in order && outcome[good].CollectionSuccess?
    ensures var t := Delivered(s, w, order, outcome, db).PostCollectDone(w, true);
            && t.store == s.store.Delete(w)
            && |t.events| == |s.events| + 1
            && t.events[..|s.events|] == s.events
            && Names(t.events[|s.events|], s.store, w, outcome)
            && t.events[|s.events|].nextRun == s.NextRun(w)
  {
    var done := Elements(order);
    var state, before := WithOutcomes(s.store, w, outcome, done), Delivered(s, w, order, outcome, db);
    OutcomesAreStored(s.store, w, outcome, done);
    OutcomesAreNamed(s.store, w, outcome, done, s.NextRun(w));
    assert good in done;
    SomeSuccessAwaitsPostCollect(s, w, order, outcome, db, s.store.JobsOf(w)[good]);
    PostCollectCompletes(before, w);
    MarkedIsDeletedAlike(s, w, outcome, done);
  }

  lemma MarkedIsDeletedAlike(s: World, w: WorkspaceId, outcome: Outcomes, done: set<JobId>)
    requires Collecting(s.store, w) && done <= outcome.Keys
    ensures Marked(s, w, outcome, done).store.Delete(w) == s.store.Delete(w)
  {
    assert Marked(s, w, outcome, done).store.progress - {w} == s.store.progress - {w};
  }

  lemma SomeSuccessAwaitsPostCollect(s: World, w: WorkspaceId, order: seq<JobId>, outcome: Outcomes, db: bool,
                                     good: FixCloudAccountId)
    requires Collecting(s.store, w)
    requires Distinct(order) && Elements(order) == Open(s.store, w) <= outcome.Keys
    requires order != [] && good in Succeeded(WithOutcomes(s.store, w, outcome, Elements(order)))
    ensures var t, marked := Delivered(s, w, order, outcome, db), Marked(s, w, outcome, Elements(order));
            t.store == marked.store && t.events == s.events && t.nextRuns == s.nextRuns && t.store.AllDone(w)
  {
    Handle(s, w, order, outcome, db);
    OpenJobsStayOpen(s, w, outcome, Elements(order));
    SuccessAwaitsPostCollect(Marked(s, w, outcome, Elements(order)), w, db, good);
  }

  lemma SuccessAwaitsPostCollect(s: World, w: WorkspaceId, db: bool, good: FixCloudAccountId)
    requires s.store.AllDone(w) && good in s.store.StateOf(w) && s.store.StateOf(w)[good].Succeeded()
    ensures s.Decided(w, db) == s.(postCollects := s.Decided(w, db).postCollects)
  {
    assert !s.store.StateOf(w)[good].Failed();
    SomethingWasCollected(s.store, w);
  }

  lemma PostCollectCompletes(s: World, w: WorkspaceId)
    requires s.store.AllDone(w) && Succeeded(s.store.StateOf(w)) != map[]
    ensures s.PostCollectDone(w, true)
         == s.(store := s.store.Delete(w),
               events := s.events + [TenantAccountsCollected(w, Succeeded(s.store.StateOf(w)),
                   Failed(s.store.StateOf(w)), s.NextRun(w))])
  {
  }

  lemma OutcomesAreStored(s: Store, w: WorkspaceId, outcome: Outcomes, done: set<JobId>)
    requires Collecting(s, w) && done <= outcome.Keys && done <= s.JobsOf(w).Keys
    ensures var state, jobs := WithOutcomes(s, w, outcome, done), s.JobsOf(w);
            && (forall j <- done :: jobs[j] in Succeeded(state) <==> outcome[j].CollectionSuccess?)
            && (forall j <- done :: jobs[j] in Failed(state) <==> outcome[j].CollectionFailure?)
            && (forall j <- done ::
                  Tells(if outcome[j].CollectionSuccess? then Succeeded(state)[jobs[j]] else Failed(state)[jobs[j]],
                        s.StateOf(w)[jobs[j]], outcome[j]))
  {
    var state, jobs := WithOutcomes(s, w, outcome, done), s.JobsOf(w);
    forall j <- done ensures jobs[j] in state && state[jobs[j]] == s.StateOf(w)[jobs[j]].With(outcome[j]) {
      assert JobFor(jobs, jobs[j]) == j;
    }
  }

  lemma OutcomesAreNamed(s: Store, w: WorkspaceId, outcome: Outcomes, done: set<JobId>, nextRun: Option<int>)
    requires Collecting(s, w) && done <= outcome.Keys && done == s.JobsOf(w).Keys
    ensures var state := WithOutcomes(s, w, outcome, done);
            Names(TenantAccountsCollected(w, Succeeded(state), Failed(state), nextRun), s, w, outcome)
  {
    var state := WithOutcomes(s, w, outcome, done);
    OutcomesAreStored(s, w, outcome, done);
    JobsCoverTheTracked(s.StateOf(w), s.JobsOf(w));
    forall a <- state ensures state[a].IsDone() {
      assert JobFor(s.JobsOf(w), a) in done;
    }
    assert Succeeded(state).Keys + Failed(state).Keys == state.Keys;
  }

  // ----- how this meets the runs of the dispatcher

  /** In every reachable state a tracked workspace with live reverse keys is one the theorems above speak about. */
  lemma {:induction false} ReachableWorkspacesCollect(nextRuns: map<WorkspaceId, int>, clock: int,
                                                      actions: seq<Action>, h: History, w: WorkspaceId)
    requires Runs(Initial(nextRuns, clock), actions, h)
    requires w in h.world.store.jobs && h.world.store.JobsOf(w).Keys <= h.world.store.owners.Keys
    ensures Collecting(h.world.store, w)
  {
    RunKeepsInv(Initial(nextRuns, clock), actions, h);
    LiveKeysCollect(h.world.store, w, h.tracked, h.finished);
  }

  lemma LiveKeysCollect(s: Store, w: WorkspaceId, tracked: map<JobId, WorkspaceId>, finished: set<JobId>)
    requires OwnersAgree(s) && LiveJobs(s, tracked, finished)
    requires w in s.jobs && s.JobsOf(w).Keys <= s.owners.Keys
    ensures forall j <- s.JobsOf(w) :: s.OwnerOf(j) == Some(w)
  {
    forall j | j in s.JobsOf(w) ensures s.OwnerOf(j) == Some(w) {
      var v := s.owners[j].value;
      assert OwnerAgrees(s.jobs, j, s.owners[j]);
      assert v in s.jobs && j in s.jobs[v].value && tracked[j] == v;
      assert j in s.jobs[w].value && tracked[j] == w;
    }
  }

  /** A finish message, stale or duplicate as it may be, decides something if and only if the reverse key of its job
      is alive, every account of that workspace is done, and not every one failed without a database to go on with. */
  lemma DecidesExactlyWhen(s: World, m: JobMessage, db: bool)
    requires IndexesAgree(s.store)
    ensures Mark(s.store, m).Ok?
    ensures var marked, t := Mark(s.store, m).value, s.JobFinished(m, db);
            t.events != s.events || t.postCollects != s.postCollects
            <==> m.jobId in s.store.owners
                 && marked.AllDone(s.store.owners[m.jobId].value)
                 && (AllFailed(marked.StateOf(s.store.owners[m.jobId].value)) || db)
  {
    MarkKeepsIndexes(s.store, m);
    var marked := Mark(s.store, m).value;
    if m.jobId in s.store.owners {
      var w := s.store.owners[m.jobId].value;
      assert OwnerAgrees(marked.jobs, m.jobId, marked.owners[m.jobId]);
      assert JobsMatch(marked.StateOf(w), marked.JobsOf(w));
      if marked.AllDone(w) {
        EventsForTheTracked(w, marked.StateOf(w), marked.JobsOf(w), s.NextRun(w));
        if !AllFailed(marked.StateOf(w)) {
          SomethingWasCollected(marked, w);
        }
      }
    }
  }
}
