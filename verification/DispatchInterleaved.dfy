/**
  Finish messages among everything else that goes on: messages are delivered again, other workspaces are served in
  between, stale post-collect messages arrive. A workspace sees none of it: what it gets is what the plain delivery of
  its messages, once each and with nothing in between, would give it.
 */
module DispatchInterleaved {
  import opened Wrappers
  import opened Collections
  import opened CollectProgress
  import opened Dispatcher
  import opened DispatchRuns
  import opened DispatchOrder

  /** What there is of one workspace: its tracking, the jobs whose reverse key leads to it, and what was sent for it. */
  datatype Local = Local(
    state: CollectState, jobs: map<JobId, FixCloudAccountId>, owned: set<JobId>,
    events: seq<Event>, postCollects: seq<PostCollectJob>, nextRun: Option<int>)
  {
    predicate AllDone() { forall a <- state :: state[a].IsDone() }

    /** What follows once a result has been stored. */
    function Decided(w: WorkspaceId, db: bool): Local {
      if !AllDone() then this
      else if AllFailed(state) || ToPostCollect(state) == map[] then
        this.(state := map[], jobs := map[], owned := {}, events := events + EventsFor(w, state, nextRun))
      else if db then this.(postCollects := postCollects + [PostCollectJob(w, ToPostCollect(state))])
      else this
    }
  }

  function EventsOf(events: seq<Event>, w: WorkspaceId): seq<Event> {
    if events == [] then []
    else
      var last := events[|events| - 1];
      EventsOf(events[..|events| - 1], w) + if last.tenant == w then [last] else []
  }

  function PostCollectsOf(jobs: seq<PostCollectJob>, w: WorkspaceId): seq<PostCollectJob> {
    if jobs == [] then []
    else
      var last := jobs[|jobs| - 1];
      PostCollectsOf(jobs[..|jobs| - 1], w) + if last.tenant == w then [last] else []
  }

  function ViewOf(s: World, w: WorkspaceId): Local {
    var owned := set j | j in s.store.JobsOf(w) && s.store.OwnerOf(j) == Some(w);
    Local(s.store.StateOf(w), s.store.JobsOf(w), owned,
          EventsOf(s.events, w), PostCollectsOf(s.postCollects, w), s.NextRun(w))
  }

  lemma EventsOfAppend(events: seq<Event>, e: Event, w: WorkspaceId)
    ensures EventsOf(events + [e], w) == EventsOf(events, w) + if e.tenant == w then [e] else []
  {
    assert (events + [e])[..|events|] == events;
  }

  lemma PostCollectsOfAppend(jobs: seq<PostCollectJob>, job: PostCollectJob, w: WorkspaceId)
    ensures PostCollectsOf(jobs + [job], w) == PostCollectsOf(jobs, w) + if job.tenant == w then [job] else []
  {
    assert (jobs + [job])[..|jobs|] == jobs;
  }

  // ----- what happens elsewhere

  ghost predicate Apart(s: Store, v: WorkspaceId, w: WorkspaceId) {
    v != w && s.JobsOf(v).Keys !! s.JobsOf(w).Keys
  }

  lemma LiveJobsAreApart(s: Store, tracked: map<JobId, WorkspaceId>, finished: set<JobId>, v: WorkspaceId,
                         w: WorkspaceId)
    requires LiveJobs(s, tracked, finished) && v != w
    ensures Apart(s, v, w)
  {
    forall j | j in s.JobsOf(v) ensures tracked[j] == v && j in tracked {}
    forall j | j in s.JobsOf(w) ensures tracked[j] == w && j in tracked {}
  }

  ghost predicate SameTracking(s: Store, t: Store, w: WorkspaceId) {
    && t.StateOf(w) == s.StateOf(w) && t.JobsOf(w) == s.JobsOf(w)
    && forall j <- s.JobsOf(w) :: t.OwnerOf(j) == s.OwnerOf(j)
  }

  lemma SameView(s: World, t: World, w: WorkspaceId)
    requires SameTracking(s.store, t.store, w) && t.NextRun(w) == s.NextRun(w)
    requires EventsOf(t.events, w) == EventsOf(s.events, w)
    requires PostCollectsOf(t.postCollects, w) == PostCollectsOf(s.postCollects, w)
    ensures ViewOf(t, w) == ViewOf(s, w)
  {
  }

  lemma DeletedElsewhere(s: Store, v: WorkspaceId, w: WorkspaceId)
    requires Apart(s, v, w)
    ensures SameTracking(s, s.Delete(v), w)
  {
  }

  lemma {:induction false} CompletedElsewhere(s: World, v: WorkspaceId, w: WorkspaceId)
    requires Apart(s.store, v, w)
    ensures ViewOf(s.Completed(v), w) == ViewOf(s, w)
  {
    if s.store.AllDone(v) {
      ReportedElsewhere(s.events, v, s.store.StateOf(v), s.NextRun(v), w);
      DeletedElsewhere(s.store, v, w);
      SameView(s, s.Completed(v), w);
    }
  }

  lemma ReportedElsewhere(events: seq<Event>, v: WorkspaceId, state: CollectState, nextRun: Option<int>, w: WorkspaceId)
    ensures EventsOf(events + EventsFor(v, state, nextRun), w)
         == EventsOf(events, w) + if v == w then EventsFor(v, state, nextRun) else []
  {
    var added := EventsFor(v, state, nextRun);
    if added != [] {
      assert added == [added[0]] && added[0].tenant == v;
      EventsOfAppend(events, added[0], w);
    } else {
      assert events + added == events;
    }
  }

  lemma DecidedElsewhere(s: World, v: WorkspaceId, w: WorkspaceId, db: bool)
    requires Apart(s.store, v, w)
    ensures ViewOf(s.Decided(v, db), w) == ViewOf(s, w)
  {
    CompletedElsewhere(s, v, w);
    if s.store.AllDone(v) && !AllFailed(s.store.StateOf(v)) && db {
      SomethingWasCollected(s.store, v);
      PostCollectsOfAppend(s.postCollects, PostCollectJob(v, ToPostCollect(s.store.StateOf(v))), w);
    }
  }

  lemma MarkedElsewhere(s: Store, m: JobMessage, w: WorkspaceId)
    requires IndexesAgree(s) && m.jobId !in s.JobsOf(w)
    ensures Mark(s, m).Ok?
    ensures var t := Mark(s, m).value; t.StateOf(w) == s.StateOf(w) && t.jobs == s.jobs && t.owners == s.owners
  {
    MarkKeepsIndexes(s, m);
    var t := Mark(s, m).value;
    if t != s {
      var v :| PutsResult(s, v, m, t);
      assert v != w;
    }
  }

  lemma {:induction false} FinishedElsewhere(h: History, m: JobMessage, db: bool, w: WorkspaceId)
    requires Inv(h) && m.jobId !in h.world.store.JobsOf(w)
    ensures ViewOf(h.world.JobFinished(m, db), w) == ViewOf(h.world, w)
  {
    var s := h.world.store;
    MarkedElsewhere(s, m, w);
    var marked := h.world.(store := Mark(s, m).value);
    SameView(h.world, marked, w);
    if m.jobId in s.owners {
      var v := s.owners[m.jobId].value;
      OwnedElsewhere(h, m.jobId, v, w);
      DecidedElsewhere(marked, v, w, db);
      FinishDecides(h.world, m, db, marked, v);
    }
  }

  lemma {:induction false} OwnedElsewhere(h: History, job: JobId, v: WorkspaceId, w: WorkspaceId)
    requires Inv(h) && h.world.store.OwnerOf(job) == Some(v) && job !in h.world.store.JobsOf(w)
    ensures Apart(h.world.store, v, w)
  {
    var s := h.world.store;
    assert OwnerAgrees(s.jobs, job, s.owners[job]);
    LiveJobsAreApart(s, h.tracked, h.finished, v, w);
  }

  /** A workspace that is not done does not notice what is about others, or stale. */
  predicate Unnoticed(s: Store, a: Action, w: WorkspaceId) {
    match a
    case Trigger(v, account, _, _, _, _) => v != w || account in s.StateOf(w)
    case Finish(m, _) => m.jobId !in s.JobsOf(w)
    case PostCollected(_, _) => true
    case Expire(_) => false
    case Reschedule(v, _) => v != w
  }

  lemma NotNoticed(h: History, a: Action, w: WorkspaceId)
    requires Inv(h) && Enabled(h, a) && Unnoticed(h.world.store, a, w) && !h.world.store.AllDone(w)
    ensures ViewOf(Step(h, a).world, w) == ViewOf(h.world, w)
  {
    match a
    case Trigger(v, account, info, db, job, now) => TriggeredElsewhere(h, a, w);
    case Finish(m, db) => FinishedElsewhere(h, m, db, w);
    case PostCollected(v, success) =>
      if v != w {
        LiveJobsAreApart(h.world.store, h.tracked, h.finished, v, w);
        CompletedElsewhere(h.world, v, w);
      }
    case Expire(_) =>
    case Reschedule(_, _) =>
  }

  lemma TrackedElsewhere(s: Store, v: WorkspaceId, account: FixCloudAccountId, info: AccountInformation, job: JobId,
                         now: int, w: WorkspaceId)
    requires v != w && job !in s.JobsOf(w)
    ensures SameTracking(s, s.Track(v, account, info, job, now), w)
  {
  }

  lemma {:induction false} TriggeredElsewhere(h: History, a: Action, w: WorkspaceId)
    requires Inv(h) && Enabled(h, a) && a.Trigger? && Unnoticed(h.world.store, a, w)
    ensures ViewOf(Step(h, a).world, w) == ViewOf(h.world, w)
  {
    var s := h.world.store;
    if a.w != w && a.info.Some? {
      FreshJob(s, h.tracked, h.finished, a.job, w);
      TrackedElsewhere(s, a.w, a.account, a.info.value, a.job, a.now, w);
      SameView(h.world, Step(h, a).world, w);
    }
  }

  lemma FreshJob(s: Store, tracked: map<JobId, WorkspaceId>, finished: set<JobId>, job: JobId, w: WorkspaceId)
    requires LiveJobs(s, tracked, finished) && job !in tracked
    ensures job !in s.JobsOf(w)
  {
    assert forall j <- s.JobsOf(w) :: j in tracked;
  }

  // ----- the workspace's own messages

  /** The view with the outcomes of some jobs stored. */
  ghost function Stored(v: Local, outcome: Outcomes, done: set<JobId>): Local
    requires JobsMatch(v.state, v.jobs) && done <= outcome.Keys
  {
    v.(state := map a | a in v.state ::
         var j := JobFor(v.jobs, a);
         if j in done then v.state[a].With(outcome[j]) else v.state[a])
  }

  /** All reverse keys are alive, and outcomes of jobs that are done already are those that were stored for them. */
  ghost predicate Awaits(v: Local, outcome: Outcomes) {
    && JobsMatch(v.state, v.jobs) && v.owned == v.jobs.Keys && v.jobs.Keys <= outcome.Keys
    && forall j <- v.jobs ::
         v.state[v.jobs[j]].IsDone() ==> v.state[v.jobs[j]].collectionDone == Some(outcome[j])
  }

  ghost predicate IsOpen(v: Local, j: JobId) {
    j in v.jobs && v.jobs[j] in v.state && !v.state[v.jobs[j]].IsDone()
  }

  /** Not every open job is among `done`. */
  ghost predicate Lacks(v: Local, done: set<JobId>) {
    exists j :: IsOpen(v, j) && j !in done
  }

  lemma StoredIsOpen(v: Local, outcome: Outcomes, done: set<JobId>)
    requires Awaits(v, outcome) && done <= v.jobs.Keys
    ensures Lacks(v, done) <==> !Stored(v, outcome, done).AllDone()
  {
    var t := Stored(v, outcome, done);
    if j :| IsOpen(v, j) && j !in done {
      assert JobFor(v.jobs, v.jobs[j]) == j;
      assert !t.state[v.jobs[j]].IsDone();
    }
    if a :| a in t.state && !t.state[a].IsDone() {
      assert HasJob(v.jobs, a);
      assert IsOpen(v, JobFor(v.jobs, a));
    }
  }

  lemma {:induction false} OwnIsStored(s: Store, w: WorkspaceId, j: JobId, result: CollectionResult)
    requires IndexesAgree(s) && j in s.JobsOf(w) && s.OwnerOf(j) == Some(w)
    ensures s.JobsOf(w)[j] in s.StateOf(w)
    ensures var a := s.JobsOf(w)[j];
            var t := s.Put(w, a, s.StateOf(w)[a].With(result));
            Mark(s, JobMessage(j, w, result)) == Ok(t) && t.OwnerOf(j) == Some(w)
  {
    assert JobsMatch(s.StateOf(w), s.JobsOf(w));
    assert s.StateByJob(w, j) == Some(s.StateOf(w)[s.JobsOf(w)[j]]);
  }

  /** A finish message adds its result. */
  function Told(v: Local, a: Action): Local {
    if a.Finish? && a.m.jobId in v.jobs && v.jobs[a.m.jobId] in v.state then
      var account := v.jobs[a.m.jobId];
      v.(state := v.state[account := v.state[account].With(a.m.result)])
    else v
  }

  /** A message of the workspace, the first one or a repeated one, is stored and followed by the decision. */
  lemma {:induction false} OwnMessage(h: History, w: WorkspaceId, v: Local, a: Action)
    requires Inv(h) && v == ViewOf(h.world, w) && a.Finish? && a.m.tenant == w && a.m.jobId in v.owned
    ensures ViewOf(h.world.JobFinished(a.m, a.db), w) == Told(v, a).Decided(w, a.db)
  {
    var s, j := h.world.store, a.m.jobId;
    OwnIsStored(s, w, j, a.m.result);
    var account := s.JobsOf(w)[j];
    var entry := s.StateOf(w)[account].With(a.m.result);
    var marked := h.world.(store := s.Put(w, account, entry));
    PutInView(h.world, w, account, entry);
    DecidedHere(marked, w, a.db);
    FinishDecides(h.world, a.m, a.db, marked, w);
  }

  lemma PutInView(s: World, w: WorkspaceId, a: FixCloudAccountId, entry: AccountCollectProgress)
    requires w in s.store.progress
    ensures ViewOf(s.(store := s.store.Put(w, a, entry)), w)
         == ViewOf(s, w).(state := s.store.StateOf(w)[a := entry])
  {
  }

  lemma DecidedHere(s: World, w: WorkspaceId, db: bool)
    ensures ViewOf(s.Decided(w, db), w) == ViewOf(s, w).Decided(w, db)
  {
    var state := s.store.StateOf(w);
    if s.store.AllDone(w) {
      if AllFailed(state) {
        CompletedHere(s, w);
        assert s.Decided(w, db) == s.Completed(w);
      } else {
        SomethingWasCollected(s.store, w);
        PostCollectsOfAppend(s.postCollects, PostCollectJob(w, ToPostCollect(state)), w);
      }
    }
  }

  lemma CompletedHere(s: World, w: WorkspaceId)
    requires s.store.AllDone(w)
    ensures ViewOf(s.Completed(w), w)
         == ViewOf(s, w).(state := map[], jobs := map[], owned := {},
                          events := EventsOf(s.events, w) + EventsFor(w, s.store.StateOf(w), s.NextRun(w)))
  {
    ReportedElsewhere(s.events, w, s.store.StateOf(w), s.NextRun(w), w);
  }

  // ----- runs

  /** A finish message of a job of the workspace, with its outcome. */
  predicate Own(v: Local, a: Action, w: WorkspaceId, outcome: Outcomes) {
    a.Finish? && a.m.jobId in v.owned && a.m.jobId in outcome && a.m == JobMessage(a.m.jobId, w, outcome[a.m.jobId])
  }

  predicate Besides(s: Store, v: Local, a: Action, w: WorkspaceId) {
    Unnoticed(s, a, w) && (a.Finish? ==> a.m.jobId !in v.jobs)
  }

  /** Each action is one of its own messages, or something it does not notice. */
  ghost predicate Interleaved(h: History, v: Local, actions: seq<Action>, w: WorkspaceId, outcome: Outcomes)
    decreases |actions|
  {
    actions == [] || !Enabled(h, actions[0]) ||
    (&& (Own(v, actions[0], w, outcome) || Besides(h.world.store, v, actions[0], w))
     && Interleaved(Step(h, actions[0]), v, actions[1..], w, outcome))
  }

  function AllTold(v: Local, actions: seq<Action>): Local
    decreases |actions|
  {
    if actions == [] then v else AllTold(Told(v, actions[0]), actions[1..])
  }

  /** Some account has no result yet, now and after each of the actions. */
  ghost predicate Waits(v: Local, actions: seq<Action>)
    decreases |actions|
  {
    !v.AllDone() && (actions == [] || Waits(Told(v, actions[0]), actions[1..]))
  }

  lemma {:induction false} OneAction(h: History, w: WorkspaceId, v: Local, outcome: Outcomes, a: Action)
    requires Inv(h) && ViewOf(h.world, w) == v && Enabled(h, a) && !v.AllDone() && !Told(v, a).AllDone()
    requires Own(v, a, w, outcome) || Besides(h.world.store, v, a, w)
    ensures ViewOf(Step(h, a).world, w) == Told(v, a)
  {
    if Own(v, a, w, outcome) {
      OwnMessage(h, w, v, a);
    } else {
      NotNoticed(h, a, w);
    }
  }

  /** The jobs of the view stay the same, so later actions may be judged by them as well. */
  lemma {:induction false} InterleavedStays(h: History, v: Local, t: Local, actions: seq<Action>, w: WorkspaceId,
                                            outcome: Outcomes)
    requires Interleaved(h, v, actions, w, outcome) && t.owned == v.owned && t.jobs == v.jobs
    ensures Interleaved(h, t, actions, w, outcome)
    decreases |actions|
  {
    if actions != [] && Enabled(h, actions[0]) {
      InterleavedStays(Step(h, actions[0]), v, t, actions[1..], w, outcome);
    }
  }

  /** As long as some account has no result, the workspace only collects outcomes. */
  lemma {:induction false} OnlyOutcomes(h: History, w: WorkspaceId, v: Local, outcome: Outcomes, actions: seq<Action>,
                                        h': History)
    requires Inv(h) && ViewOf(h.world, w) == v
    requires Runs(h, actions, h') && Interleaved(h, v, actions, w, outcome) && Waits(v, actions)
    ensures Inv(h') && ViewOf(h'.world, w) == AllTold(v, actions)
    decreases |actions|
  {
    if actions != [] {
      OneAction(h, w, v, outcome, actions[0]);
      StepKeepsInv(h, actions[0]);
      InterleavedStays(Step(h, actions[0]), v, Told(v, actions[0]), actions[1..], w, outcome);
      OnlyOutcomes(Step(h, actions[0]), w, Told(v, actions[0]), outcome, actions[1..], h');
    }
  }

  // ----- what the outcomes add up to

  /** The jobs of the view that have a message among the actions. */
  function Heard(v: Local, actions: seq<Action>): set<JobId> {
    set a | a in actions && a.Finish? && a.m.jobId in v.jobs :: a.m.jobId
  }

  /** Messages of the view's jobs carry their outcomes. */
  ghost predicate Truthful(v: Local, actions: seq<Action>, outcome: Outcomes) {
    forall a <- actions :: a.Finish? && a.m.jobId in v.jobs ==> a.m.jobId in outcome && a.m.result == outcome[a.m.jobId]
  }

  lemma {:induction false} InterleavedIsTruthful(h: History, v: Local, actions: seq<Action>, w: WorkspaceId,
                                                 outcome: Outcomes, h': History)
    requires Runs(h, actions, h') && Interleaved(h, v, actions, w, outcome)
    ensures Truthful(v, actions, outcome)
    decreases |actions|
  {
    if actions != [] {
      InterleavedIsTruthful(Step(h, actions[0]), v, actions[1..], w, outcome, h');
      assert actions == [actions[0]] + actions[1..];
    }
  }

  lemma ToldIsStored(v: Local, outcome: Outcomes, done: set<JobId>, a: Action)
    requires Awaits(v, outcome) && done <= v.jobs.Keys && Truthful(v, [a], outcome)
    ensures Told(Stored(v, outcome, done), a) == Stored(v, outcome, done + Heard(v, [a]))
  {
    assert a in [a];
    var before := Stored(v, outcome, done);
    if a.Finish? && a.m.jobId in v.jobs {
      var j := a.m.jobId;
      assert JobFor(v.jobs, v.jobs[j]) == j;
      assert Heard(v, [a]) == {j};
      assert Told(before, a).state == Stored(v, outcome, done + {j}).state;
    } else {
      assert Heard(v, [a]) == {} && done + {} == done;
    }
  }

  lemma HeardInParts(v: Local, actions: seq<Action>, outcome: Outcomes)
    requires actions != [] && Truthful(v, actions, outcome)
    ensures Heard(v, actions) == Heard(v, [actions[0]]) + Heard(v, actions[1..])
    ensures Truthful(v, [actions[0]], outcome) && Truthful(v, actions[1..], outcome)
  {
    assert actions == [actions[0]] + actions[1..];
  }

  lemma {:induction false} AllToldAreStored(v: Local, outcome: Outcomes, done: set<JobId>, actions: seq<Action>,
                                            all: set<JobId>)
    requires Awaits(v, outcome) && done <= v.jobs.Keys && Truthful(v, actions, outcome)
    requires all == done + Heard(v, actions)
    ensures AllTold(Stored(v, outcome, done), actions) == Stored(v, outcome, all)
    ensures Lacks(v, all) ==> Waits(Stored(v, outcome, done), actions)
    decreases |actions|
  {
    if Lacks(v, all) {
      LacksLess(v, done, all);
    }
    StoredIsOpen(v, outcome, done);
    if actions == [] {
      assert all == done;
    } else {
      HeardInParts(v, actions, outcome);
      var heard := done + Heard(v, [actions[0]]);
      assert heard + Heard(v, actions[1..]) == all;
      ToldIsStored(v, outcome, done, actions[0]);
      AllToldAreStored(v, outcome, heard, actions[1..], all);
    }
  }

  lemma LacksLess(v: Local, some: set<JobId>, more: set<JobId>)
    requires some <= more && Lacks(v, more)
    ensures Lacks(v, some)
  {
    var j :| IsOpen(v, j) && j !in more;
    assert j !in some;
  }

  lemma OpenHere(s: World, w: WorkspaceId, j: JobId)
    ensures j in Open(s.store, w) <==> IsOpen(ViewOf(s, w), j)
  {
  }

  /** From any state that runs reach: messages of a workspace may be repeated and may interleave with whatever goes on
      elsewhere. Nothing is sent for the workspace before each open job was heard of, and the first message that
      completes them leaves it with what the plain delivery, once each and in any order, gives it. */
  lemma {:induction false} InterleavingDoesNotMatter(h: History, w: WorkspaceId, v: Local, outcome: Outcomes,
                                                     actions: seq<Action>, h': History, last: Action, order: seq<JobId>)
    requires Inv(h) && Collecting(h.world.store, w) && v == ViewOf(h.world, w) && Awaits(v, outcome)
    requires Runs(h, actions, h') && Interleaved(h, v, actions, w, outcome) && Own(v, last, w, outcome)
    requires Lacks(v, Heard(v, actions)) && !Lacks(v, Heard(v, actions) + {last.m.jobId})
    requires Distinct(order) && Elements(order) == Open(h.world.store, w) <= outcome.Keys
    ensures ViewOf(h'.world, w) == Stored(v, outcome, Heard(v, actions))
    ensures ViewOf(Step(h', last).world, w) == ViewOf(Delivered(h.world, w, order, outcome, last.db), w)
  {
    var heard := Heard(v, actions);
    BeforeTheLast(h, w, v, outcome, actions, h');
    LastIsStored(v, ViewOf(h'.world, w), outcome, heard, last, w);
    OwnMessage(h', w, ViewOf(h'.world, w), last);
    LacksLess(v, {}, heard);
    PlainDelivery(h.world, w, v, outcome, order, last.db);
    OpenAreStored(h.world, w, v, outcome, heard + {last.m.jobId});
  }

  lemma {:induction false} BeforeTheLast(h: History, w: WorkspaceId, v: Local, outcome: Outcomes, actions: seq<Action>,
                                         h': History)
    requires Inv(h) && v == ViewOf(h.world, w) && Awaits(v, outcome)
    requires Runs(h, actions, h') && Interleaved(h, v, actions, w, outcome)
    requires Lacks(v, Heard(v, actions))
    ensures Inv(h') && ViewOf(h'.world, w) == Stored(v, outcome, Heard(v, actions))
  {
    NothingStored(v, outcome);
    InterleavedIsTruthful(h, v, actions, w, outcome, h');
    AllToldAreStored(v, outcome, {}, actions, Heard(v, actions));
    OnlyOutcomes(h, w, v, outcome, actions, h');
  }

  /** The decision of the last message, in terms of the outcomes. */
  lemma LastIsStored(v: Local, t: Local, outcome: Outcomes, done: set<JobId>, a: Action, w: WorkspaceId)
    requires Awaits(v, outcome) && done <= v.jobs.Keys && t == Stored(v, outcome, done) && Own(v, a, w, outcome)
    ensures a.m.tenant == w && a.m.jobId in t.owned && Told(t, a) == Stored(v, outcome, done + {a.m.jobId})
  {
    assert Truthful(v, [a], outcome);
    assert a in [a] && Heard(v, [a]) == {a.m.jobId};
    ToldIsStored(v, outcome, done, a);
  }

  lemma OpenAreStored(s: World, w: WorkspaceId, v: Local, outcome: Outcomes, heard: set<JobId>)
    requires v == ViewOf(s, w) && Awaits(v, outcome) && heard <= v.jobs.Keys && !Lacks(v, heard)
    ensures Open(s.store, w) <= v.jobs.Keys && Stored(v, outcome, heard) == Stored(v, outcome, Open(s.store, w))
  {
    forall j ensures j in Open(s.store, w) <==> IsOpen(v, j) {
      OpenHere(s, w, j);
    }
    AllHeardAreTheOutcomes(v, outcome, heard, Open(s.store, w));
  }

  lemma NothingStored(v: Local, outcome: Outcomes)
    requires JobsMatch(v.state, v.jobs)
    ensures Stored(v, outcome, {}) == v
  {
    assert Stored(v, outcome, {}).state == v.state;
  }

  /** Once every open job was heard of, it does not matter which others were heard of again. */
  lemma AllHeardAreTheOutcomes(v: Local, outcome: Outcomes, heard: set<JobId>, open: set<JobId>)
    requires Awaits(v, outcome) && heard <= v.jobs.Keys && open <= v.jobs.Keys
    requires !Lacks(v, heard) && forall j <- v.jobs :: j in open <==> IsOpen(v, j)
    ensures Stored(v, outcome, heard) == Stored(v, outcome, open)
  {
    forall a <- v.state ensures Stored(v, outcome, heard).state[a] == Stored(v, outcome, open).state[a] {
      var j := JobFor(v.jobs, a);
      assert IsOpen(v, j) ==> j in heard && j in open;
    }
  }

  lemma {:induction false} PlainDelivery(s: World, w: WorkspaceId, v: Local, outcome: Outcomes, order: seq<JobId>,
                                         db: bool)
    requires Collecting(s.store, w) && v == ViewOf(s, w) && Awaits(v, outcome) && Lacks(v, {})
    requires Distinct(order) && Elements(order) == Open(s.store, w) <= outcome.Keys
    ensures Open(s.store, w) <= v.jobs.Keys
    ensures ViewOf(Delivered(s, w, order, outcome, db), w) == Stored(v, outcome, Open(s.store, w)).Decided(w, db)
  {
    var j :| IsOpen(v, j);
    OpenHere(s, w, j);
    assert forall i <- order :: i in Elements(order);
    Handle(s, w, order, outcome, db);
    DecidedHere(DispatchOrder.Marked(s, w, outcome, Elements(order)), w, db);
    MarkedView(s, w, outcome);
  }

  lemma MarkedView(s: World, w: WorkspaceId, outcome: Outcomes)
    requires Collecting(s.store, w) && Awaits(ViewOf(s, w), outcome)
    ensures Open(s.store, w) <= s.store.JobsOf(w).Keys
    ensures ViewOf(DispatchOrder.Marked(s, w, outcome, Open(s.store, w)), w)
         == Stored(ViewOf(s, w), outcome, Open(s.store, w))
  {
    var marked, v := DispatchOrder.Marked(s, w, outcome, Open(s.store, w)), ViewOf(s, w);
    assert marked.store.StateOf(w) == Stored(v, outcome, Open(s.store, w)).state;
    assert ViewOf(marked, w).owned == v.owned;
  }
}
