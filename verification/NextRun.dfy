/**
  When a workspace is collected next: the stored slot, its successor on the grid of the tier's scan interval, and the
  scheduler that serves every slot in the past.
 */
module NextRun {
  import opened Wrappers
  import opened Collections

  type WorkspaceId = nat

  /** `next_run_for`; a missing last run counts as now. */
  function NextRunFor(now: int, interval: int, lastRun: Option<int>): int
    requires 0 < interval
  {
    var initial := if lastRun.Some? then lastRun.value else now;
    var diff := now - initial;
    if diff > 0 then initial + interval * (diff / interval + 1) else initial + interval
  }

  ghost predicate OnGrid(origin: int, interval: int, t: int) {
    exists k: int :: t == origin + interval * k
  }

  /** The next run lies strictly after now and a whole positive number of intervals after the last one. */
  lemma NextRunIsNextSlot(now: int, interval: int, last: int)
    requires 0 < interval
    ensures var next := NextRunFor(now, interval, Some(last)); now < next && OnGridAfter(last, interval, next)
  {
    var next := NextRunFor(now, interval, Some(last));
    if last < now {
      var periods := (now - last) / interval + 1;
      assert interval * (periods - 1) <= now - last < interval * periods;
      assert next == last + interval * periods;
    } else {
      assert next == last + interval * 1;
    }
  }

  /** Without a last run the next one is an interval from now. */
  lemma FirstRun(now: int, interval: int)
    requires 0 < interval
    ensures NextRunFor(now, interval, None) == now + interval
  {
  }

  ghost predicate OnGridAfter(origin: int, interval: int, t: int) {
    exists k: int :: 1 <= k && t == origin + interval * k
  }

  /** It is the first such time when the last run is past, so the slots that were missed are skipped and not caught up
      with; otherwise it is one interval after the last run. */
  lemma NextRunIsLeast(now: int, interval: int, last: int, k: int)
    requires 0 < interval
    ensures last < now && now < last + interval * k ==> NextRunFor(now, interval, Some(last)) <= last + interval * k
    ensures last < now ==> NextRunFor(now, interval, Some(last)) <= now + interval
    ensures now <= last ==> NextRunFor(now, interval, Some(last)) == last + interval
  {
    if last < now {
      var periods := (now - last) / interval + 1;
      assert interval * (periods - 1) <= now - last < interval * periods;
      if k < periods {
        ScaleUp(k, periods - 1, interval);
      } else {
        ScaleUp(periods, k, interval);
      }
    }
  }

  /** A slot served by the scheduler. */
  datatype Served = Served(workspace: WorkspaceId, slot: int)

  class NextRunRepository {
    var at: map<WorkspaceId, int>

    constructor ()
      ensures at == map[]
    {
      at := map[];
    }

    method Create(w: WorkspaceId, nextRun: int) returns (created: bool)
      modifies this
      ensures created <==> w !in old(at)
      ensures at == if created then old(at)[w := nextRun] else old(at)
    {
      created := w !in at;
      if created {
        at := at[w := nextRun];
      }
    }

    method Get(w: WorkspaceId) returns (r: Option<int>)
      ensures r == if w in at then Some(at[w]) else None
    {
      r := if w in at then Some(at[w]) else None;
    }

    method UpdateNextRunAt(w: WorkspaceId, nextRun: int)
      modifies this
      ensures at == if w in old(at) then old(at)[w := nextRun] else old(at)
    {
      if w in at {
        at := at[w := nextRun];
      }
    }

    method UpdateNextRunFor(w: WorkspaceId, now: int, interval: int, lastRun: Option<int>) returns (next: int)
      requires 0 < interval
      modifies this
      ensures next == NextRunFor(now, interval, lastRun)
      ensures at == if w in old(at) then old(at)[w := next] else old(at)
    {
      next := NextRunFor(now, interval, lastRun);
      UpdateNextRunAt(w, next);
    }

    method Delete(w: WorkspaceId)
      modifies this
      ensures at == old(at) - {w}
    {
      at := at - {w};
    }

    method OlderThan(now: int) returns (due: map<WorkspaceId, int>)
      ensures due == map w | w in at && at[w] < now :: at[w]
    {
      due := map w | w in at && at[w] < now :: at[w];
    }

    /** One tick of the scheduler; `clock` is what the clock shows when a workspace's next run is computed. */
    method ScheduleNextRuns(now: int, clock: map<WorkspaceId, int>, intervals: map<WorkspaceId, int>)
      returns (served: set<Served>)
      requires Ticking(at, now, clock, intervals)
      modifies this
      ensures at == Ticked(old(at), now, clock, intervals)
      ensures served == ServedBy(old(at), now)
    {
      var due := OlderThan(now);
      var remaining := due.Keys;
      served := {};
      while remaining != {}
        invariant remaining <= due.Keys
        invariant at.Keys == old(at).Keys
        invariant forall w <- at ::
            at[w] == if w in due && w !in remaining then NextRunFor(clock[w], intervals[w], Some(due[w]))
                                             else old(at)[w]
        invariant served == set w | w in due && w !in remaining :: Served(w, due[w])
        decreases remaining
      {
        var w :| w in remaining;
        served := served + {Served(w, due[w])};
        var next := UpdateNextRunFor(w, clock[w], intervals[w], Some(due[w]));
        remaining := remaining - {w};
      }
    }
  }

  predicate Ticking(at: map<WorkspaceId, int>, now: int, clock: map<WorkspaceId, int>, intervals: map<WorkspaceId, int>)
  {
    forall w <- at :: w in clock && w in intervals && now <= clock[w] && 0 < intervals[w]
  }

  function Ticked(at: map<WorkspaceId, int>, now: int, clock: map<WorkspaceId, int>,
                  intervals: map<WorkspaceId, int>): map<WorkspaceId, int>
    requires Ticking(at, now, clock, intervals)
  {
    map w | w in at :: if at[w] < now then NextRunFor(clock[w], intervals[w], Some(at[w])) else at[w]
  }

  function ServedBy(at: map<WorkspaceId, int>, now: int): set<Served> {
    set w | w in at && at[w] < now :: Served(w, at[w])
  }

  /** A tick may rely on the listing of past slots: it moves exactly the slots that are past, leaves none that is, and a
      second tick at the same time would find nothing to serve. */
  lemma TickLeavesNothingPast(at: map<WorkspaceId, int>, now: int, clock: map<WorkspaceId, int>,
                              intervals: map<WorkspaceId, int>)
    requires Ticking(at, now, clock, intervals)
    ensures var after := Ticked(at, now, clock, intervals);
            && after.Keys == at.Keys
            && (forall w <- at ::
                now <= after[w] && (after[w] != at[w] <==> exists slot :: Served(w, slot) in ServedBy(at, now)))
            && (forall w <- at :: at[w] < now ==>
                clock[w] < after[w] <= clock[w] + intervals[w] && OnGridAfter(at[w], intervals[w], after[w]))
            && ServedBy(after, now) == {}
  {
    var after := Ticked(at, now, clock, intervals);
    forall w | w in at
      ensures now <= after[w] && (after[w] != at[w] <==> exists slot :: Served(w, slot) in ServedBy(at, now))
      ensures at[w] < now ==>
          clock[w] < after[w] <= clock[w] + intervals[w] && OnGridAfter(at[w], intervals[w], after[w])
    {
      NextRunIsLeast(clock[w], intervals[w], at[w], 1);
      NextRunIsNextSlot(clock[w], intervals[w], at[w]);
      assert at[w] < now ==> Served(w, at[w]) in ServedBy(at, now);
    }
  }

  // ----- runs of the scheduler for one workspace of a fixed tier

  datatype Tick = Tick(now: int, clock: int)

  ghost predicate Ticks(ticks: seq<Tick>) {
    forall i :: 0 <= i < |ticks| ==> ticks[i].now <= ticks[i].clock
  }

  /** The slot stored after the ticks, and the slots they served, in order. */
  function SlotAfter(at: int, interval: int, ticks: seq<Tick>): int
    requires 0 < interval
  {
    if ticks == [] then at
    else
      var slot, tick := SlotAfter(at, interval, ticks[..|ticks| - 1]), ticks[|ticks| - 1];
      if slot < tick.now then NextRunFor(tick.clock, interval, Some(slot)) else slot
  }

  function SlotsServed(at: int, interval: int, ticks: seq<Tick>): seq<int>
    requires 0 < interval
  {
    if ticks == [] then []
    else
      var front := ticks[..|ticks| - 1];
      var slot, tick := SlotAfter(at, interval, front), ticks[|ticks| - 1];
      SlotsServed(at, interval, front) + if slot < tick.now then [slot] else []
  }

  /** A tick over all workspaces is such a step for each of them. */
  lemma TickOfOneWorkspace(at: map<WorkspaceId, int>, now: int, clock: map<WorkspaceId, int>,
                           intervals: map<WorkspaceId, int>, w: WorkspaceId)
    requires Ticking(at, now, clock, intervals) && w in at
    ensures Ticked(at, now, clock, intervals)[w] == SlotAfter(at[w], intervals[w], [Tick(now, clock[w])])
    ensures forall slot :: Served(w, slot) in ServedBy(at, now) <==>
        slot in SlotsServed(at[w], intervals[w], [Tick(now, clock[w])])
  {
    assert [Tick(now, clock[w])][..0] == [];
  }

  ghost predicate SpacedBy(interval: int, slots: seq<int>) {
    forall i, j :: 0 <= i < j < |slots| ==> slots[i] + interval * (j - i) <= slots[j]
  }

  /** Over every run with a fixed tier the served slots strictly increase by at least an interval each, so none is
      served twice; all of them lie on the grid of the first one; and a served slot was past when it was served. */
  lemma {:induction false} SlotsStayOnGrid(at: int, interval: int, ticks: seq<Tick>)
    requires 0 < interval && Ticks(ticks)
    ensures OnGrid(at, interval, SlotAfter(at, interval, ticks))
    ensures forall slot <- SlotsServed(at, interval, ticks) :: OnGrid(at, interval, slot)
    ensures SpacedBy(interval, SlotsServed(at, interval, ticks) + [SlotAfter(at, interval, ticks)])
  {
    if ticks == [] {
      assert at == at + interval * 0;
    } else {
      var front, tick := ticks[..|ticks| - 1], ticks[|ticks| - 1];
      SlotsStayOnGrid(at, interval, front);
      var slot, slots := SlotAfter(at, interval, front), SlotsServed(at, interval, front);
      if slot < tick.now {
        NextSlotOnGrid(at, interval, slot, tick.clock);
        AppendSlot(interval, slots + [slot], NextRunFor(tick.clock, interval, Some(slot)));
      } else {
        assert slots + [] == slots;
      }
    }
  }

  lemma NextSlotOnGrid(origin: int, interval: int, slot: int, now: int)
    requires 0 < interval && OnGrid(origin, interval, slot)
    ensures var next := NextRunFor(now, interval, Some(slot)); OnGrid(origin, interval, next) && slot + interval <= next
  {
    NextRunIsNextSlot(now, interval, slot);
    var next := NextRunFor(now, interval, Some(slot));
    var k: int :| slot == origin + interval * k;
    var k' :| 1 <= k' && next == slot + interval * k';
    assert next == origin + interval * (k + k');
    ScaleUp(1, k', interval);
  }

  lemma AppendSlot(interval: int, slots: seq<int>, next: int)
    requires 0 < interval && SpacedBy(interval, slots) && slots != [] && slots[|slots| - 1] + interval <= next
    ensures SpacedBy(interval, slots + [next])
  {
    var n := |slots|;
    forall i | 0 <= i < n ensures slots[i] + interval * (n - i) <= next {
      if i < n - 1 {
        assert slots[i] + interval * (n - 1 - i) <= slots[n - 1];
        assert interval * (n - 1 - i) + interval == interval * (n - i);
      }
    }
  }

  /** However many ticks, a stretch of time serves at most one slot per interval and one more. */
  lemma ServedSlotsAreBounded(at: int, interval: int, ticks: seq<Tick>, now: int)
    requires 0 < interval && Ticks(ticks) && forall i :: 0 <= i < |ticks| ==> ticks[i].now <= now
    ensures var slots := SlotsServed(at, interval, ticks);
            slots != [] ==> interval * (|slots| - 1) < now - slots[0]
    ensures forall slot <- SlotsServed(at, interval, ticks) :: slot < now
  {
    SlotsStayOnGrid(at, interval, ticks);
    ServedWasPast(at, interval, ticks, now);
    var slots := SlotsServed(at, interval, ticks);
    if slots != [] {
      var all := slots + [SlotAfter(at, interval, ticks)];
      if |slots| > 1 {
        assert all[0] + interval * (|slots| - 1 - 0) <= all[|slots| - 1];
      }
      assert slots[|slots| - 1] in slots;
    }
  }

  lemma {:induction false} ServedWasPast(at: int, interval: int, ticks: seq<Tick>, now: int)
    requires 0 < interval && forall i :: 0 <= i < |ticks| ==> ticks[i].now <= now
    ensures forall slot <- SlotsServed(at, interval, ticks) :: slot < now
  {
    if ticks != [] {
      ServedWasPast(at, interval, ticks[..|ticks| - 1], now);
    }
  }
}
