/**
  The optimistic retry loop that cloud accounts and invitations share: read the row, compute the update, commit, and
  start over when the version column says that somebody else committed in between.
 */
module OptimisticUpdate {
  import opened Wrappers
  import opened Collections

  /** What a caller wants done to the row; None stands for an update function that raises. */
  type Update<!Row> = Row -> Option<Row>

  function After<Row>(f: Update<Row>, row: Row): Row {
    match f(row)
    case None => row
    case Some(row') => row'
  }

  // ----- one caller: the loop itself

  /** A stored row with its version column. */
  class StoredRow<Row(==)> {
    var row: Row
    var version: nat

    constructor (row: Row)
      ensures this.row == row && version == 0
    {
      this.row, version := row, 0;
    }

    /** Another session commits. */
    method CommitOf(row: Row)
      modifies this
      ensures this.row == row && version == old(version) + 1
    {
      this.row, version := row, version + 1;
    }

    /** `others[k]` are the rows that other sessions commit between the read and the commit of attempt `k`.
        The loop ends with the first undisturbed attempt, unless an earlier one has nothing to write. */
    method Update(f: Update<Row>, others: seq<seq<Row>>) returns (result: Option<Row>, ghost attempts: nat)
      modifies this
      ensures 1 <= attempts <= |others| + 1
      ensures forall k :: 0 <= k < attempts - 1 ==> others[k] != []
      ensures var seen := Latest(old(row), others, attempts - 1);
              var disturbance := if attempts <= |others| then others[attempts - 1] else [];
              && result == f(seen)
              && (f(seen) == None || f(seen) == Some(seen) ==> row == Last(seen, disturbance))
              && (f(seen) != None && f(seen) != Some(seen) ==> disturbance == [] && Some(row) == f(seen))
    {
      var k := 0;
      while true
        invariant 0 <= k <= |others|
        invariant forall i :: 0 <= i < k ==> others[i] != []
        invariant row == Latest(old(row), others, k)
        decreases |others| - k
      {
        var seen, seenVersion := row, version;
        var computed := f(seen);
        if k < |others| {
          Disturb(others[k]);
        }
        if computed.None? || computed.value == seen {
          return computed, k + 1;
        }
        if version == seenVersion {
          CommitOf(computed.value);
          return computed, k + 1;
        }
        k := k + 1;
      }
    }

    method Disturb(rows: seq<Row>)
      modifies this
      ensures row == Last(old(row), rows)
      ensures version == old(version) + |rows|
    {
      for i := 0 to |rows|
        invariant row == Last(old(row), rows[..i]) && version == old(version) + i
      {
        CommitOf(rows[i]);
      }
      assert rows[..|rows|] == rows;
    }
  }

  function Last<Row>(row: Row, rows: seq<Row>): Row {
    if rows == [] then row else rows[|rows| - 1]
  }

  /** The row that attempt `k` reads. */
  function Latest<Row>(row: Row, others: seq<seq<Row>>, k: nat): Row
    requires k <= |others|
  {
    if k == 0 then row else Last(Latest(row, others, k - 1), others[k - 1])
  }

  // ----- N callers, any interleaving of their reads and commits

  datatype Caller<+Row> =
    | Idle
    | Attempting(read: Row, seenVersion: nat)
    | Returned

  /** `order` is the serialization: a writing caller enters it at its commit, a caller with nothing to write at the read
      that told it so. `returned` are the callers in the order in which they return. */
  datatype System<Row> = System(
    row: Row, version: nat, callers: seq<Caller<Row>>, order: seq<nat>, returned: seq<nat>, attempts: nat)

  datatype Action = Read(i: nat) | Commit(i: nat)

  predicate Enabled<Row>(s: System<Row>, a: Action) {
    && a.i < |s.callers|
    && (a.Read? ==> s.callers[a.i].Idle?)
    && (a.Commit? ==> s.callers[a.i].Attempting?)
  }

  function Step<Row(==)>(fns: seq<Update<Row>>, s: System<Row>, a: Action): System<Row>
    requires |fns| == |s.callers| && Enabled(s, a)
  {
    match a
    case Read(i) =>
      s.(callers := s.callers[i := Attempting(s.row, s.version)],
         attempts := s.attempts + 1,
         order := if After(fns[i], s.row) == s.row then s.order + [i] else s.order)
    case Commit(i) =>
      var Attempting(read, seenVersion) := s.callers[i];
      if After(fns[i], read) == read then s.(callers := s.callers[i := Returned], returned := s.returned + [i])
      else if seenVersion == s.version then
        System(After(fns[i], read), s.version + 1, s.callers[i := Returned],
               s.order + [i], s.returned + [i], s.attempts)
      else s.(callers := s.callers[i := Idle])
  }

  ghost predicate Runs<Row>(fns: seq<Update<Row>>, s: System<Row>, actions: seq<Action>, s': System<Row>)
    requires |fns| == |s.callers|
    decreases |actions|
  {
    if actions == [] then s == s'
    else Enabled(s, actions[0]) && Runs(fns, Step(fns, s, actions[0]), actions[1..], s')
  }

  function Initial<Row>(row: Row, n: nat): System<Row> {
    System(row, 0, seq(n, _ => Idle), [], [], 0)
  }

  /** The row after the updates of `order`, one after the other, each seeing the row the one before it left. */
  function InOrder<Row>(fns: seq<Update<Row>>, row: Row, order: seq<nat>): Row
    requires forall k :: 0 <= k < |order| ==> order[k] < |fns|
  {
    if order == [] then row
    else After(fns[order[|order| - 1]], InOrder(fns, row, order[..|order| - 1]))
  }

  /** The caller has had its effect: it returned, or it read a row on which its update is the identity. */
  ghost predicate Settled<Row>(fns: seq<Update<Row>>, s: System<Row>, i: nat)
    requires |fns| == |s.callers| && i < |s.callers|
  {
    s.callers[i].Returned? || (s.callers[i].Attempting? && After(fns[i], s.callers[i].read) == s.callers[i].read)
  }

  ghost predicate Serial<Row>(fns: seq<Update<Row>>, row: Row, s: System<Row>) {
    && |fns| == |s.callers|
    && (forall k :: 0 <= k < |s.order| ==> s.order[k] < |fns|)
    && s.row == InOrder(fns, row, s.order)
    && Distinct(s.order)
    && (forall i :: 0 <= i < |fns| ==> (i in s.order <==> Settled(fns, s, i)))
    && (forall i :: 0 <= i < |fns| ==> Sees(s.callers[i], s.row, s.version))
  }

  /** A version that is still current was read together with the row that is still current. */
  ghost predicate Sees<Row>(c: Caller<Row>, row: Row, version: nat) {
    c.Attempting? ==> c.seenVersion <= version && (c.seenVersion == version ==> c.read == row)
  }

  lemma OthersStaySettled<Row>(fns: seq<Update<Row>>, s: System<Row>, i: nat, c: Caller<Row>, s': System<Row>, k: nat)
    requires |fns| == |s.callers| && i < |fns| && k < |fns| && k != i && s'.callers == s.callers[i := c]
    ensures Settled(fns, s', k) <==> Settled(fns, s, k)
  {
  }

  /** Caller `i` changes, and enters the serialization if it is settled then. */
  lemma OneCallerMoves<Row>(fns: seq<Update<Row>>, s: System<Row>, i: nat, c: Caller<Row>, s': System<Row>)
    requires |fns| == |s.callers| && i < |fns| && s'.callers == s.callers[i := c]
    requires forall k :: 0 <= k < |fns| ==> (k in s.order <==> Settled(fns, s, k))
    requires s'.order == (if Settled(fns, s', i) && !Settled(fns, s, i) then s.order + [i] else s.order)
    requires Settled(fns, s, i) ==> Settled(fns, s', i)
    ensures forall k :: 0 <= k < |fns| ==> (k in s'.order <==> Settled(fns, s', k))
  {
    forall k | 0 <= k < |fns| ensures k in s'.order <==> Settled(fns, s', k) {
      if k != i {
        OthersStaySettled(fns, s, i, c, s', k);
      }
    }
  }

  lemma {:induction false} InOrderOfAppend<Row>(fns: seq<Update<Row>>, row: Row, order: seq<nat>, i: nat)
    requires (forall k :: 0 <= k < |order| ==> order[k] < |fns|) && i < |fns|
    ensures InOrder(fns, row, order + [i]) == After(fns[i], InOrder(fns, row, order))
  {
    assert (order + [i])[..|order|] == order;
  }

  lemma {:induction false} ReadKeepsSerial<Row>(fns: seq<Update<Row>>, row: Row, s: System<Row>, i: nat)
    requires Serial(fns, row, s) && Enabled(s, Read(i))
    ensures Serial(fns, row, Step(fns, s, Read(i)))
  {
    var s' := Step(fns, s, Read(i));
    assert !Settled(fns, s, i) && i !in s.order;
    InOrderOfAppend(fns, row, s.order, i);
    OneCallerMoves(fns, s, i, s'.callers[i], s');
  }

  lemma {:induction false} CommitKeepsSerial<Row>(fns: seq<Update<Row>>, row: Row, s: System<Row>, i: nat)
    requires Serial(fns, row, s) && Enabled(s, Commit(i))
    ensures Serial(fns, row, Step(fns, s, Commit(i)))
  {
    var s' := Step(fns, s, Commit(i));
    assert Sees(s.callers[i], s.row, s.version);
    assert !Settled(fns, s, i) ==> i !in s.order;
    InOrderOfAppend(fns, row, s.order, i);
    OneCallerMoves(fns, s, i, s'.callers[i], s');
    forall k | 0 <= k < |fns| ensures Sees(s'.callers[k], s'.row, s'.version) {
      assert Sees(s.callers[k], s.row, s.version);
    }
  }

  lemma StepKeepsSerial<Row>(fns: seq<Update<Row>>, row: Row, s: System<Row>, a: Action)
    requires Serial(fns, row, s) && Enabled(s, a)
    ensures Serial(fns, row, Step(fns, s, a)) && s.order <= Step(fns, s, a).order
  {
    match a
    case Read(i) => ReadKeepsSerial(fns, row, s, i);
    case Commit(i) => CommitKeepsSerial(fns, row, s, i);
  }

  // ----- how often callers have to start over

  function Unreturned<Row>(callers: seq<Caller<Row>>): nat {
    if callers == [] then 0
    else Unreturned(callers[..|callers| - 1]) + if callers[|callers| - 1].Returned? then 0 else 1
  }

  predicate MustRead<Row>(c: Caller<Row>, version: nat) {
    c.Idle? || (c.Attempting? && c.seenVersion != version)
  }

  /** Callers whose next commit needs another read first. */
  function Behind<Row>(callers: seq<Caller<Row>>, version: nat): nat {
    if callers == [] then 0
    else Behind(callers[..|callers| - 1], version) + if MustRead(callers[|callers| - 1], version) then 1 else 0
  }

  lemma {:induction false} CountsAfterUpdate<Row>(callers: seq<Caller<Row>>, i: nat, c: Caller<Row>, version: nat)
    requires i < |callers|
    ensures Unreturned(callers[i := c]) == Unreturned(callers)
              - (if callers[i].Returned? then 0 else 1) + (if c.Returned? then 0 else 1)
    ensures Behind(callers[i := c], version) == Behind(callers, version)
              - (if MustRead(callers[i], version) then 1 else 0) + (if MustRead(c, version) then 1 else 0)
  {
    var n := |callers| - 1;
    if i == n {
      assert callers[i := c][..n] == callers[..n];
    } else {
      assert callers[i := c][..n] == callers[..n][i := c];
      CountsAfterUpdate(callers[..n], i, c, version);
    }
  }

  lemma {:induction false} BehindAtMostUnreturned<Row>(callers: seq<Caller<Row>>, version: nat)
    ensures Behind(callers, version) <= Unreturned(callers) <= |callers|
  {
    if callers != [] {
      BehindAtMostUnreturned(callers[..|callers| - 1], version);
    }
  }

  /** Attempts made, plus those certain to come, plus one per pair of callers that may still collide. */
  function Budget<Row>(s: System<Row>): int {
    2 * s.attempts + 2 * Behind(s.callers, s.version) + Unreturned(s.callers) * (Unreturned(s.callers) - 1)
  }

  lemma StepKeepsBudget<Row>(fns: seq<Update<Row>>, s: System<Row>, a: Action)
    requires |fns| == |s.callers| && Enabled(s, a)
    ensures Budget(Step(fns, s, a)) <= Budget(s)
  {
    var s' := Step(fns, s, a);
    CountsAfterUpdate(s.callers, a.i, s'.callers[a.i], s.version);
    BehindAtMostUnreturned(s'.callers, s'.version);
    PairsLost(Unreturned(s.callers));
  }

  /** A returning caller takes its pairs with it: one for each caller it may leave behind. */
  lemma PairsLost(u: int)
    ensures u * (u - 1) - (u - 1) * (u - 2) == 2 * (u - 1)
  {
  }

  lemma {:induction false} InitialBudget<Row>(row: Row, n: nat)
    ensures Budget(Initial(row, n)) == n * (n + 1)
    ensures Unreturned(Initial(row, n).callers) == Behind(Initial(row, n).callers, 0) == n
  {
    if n > 0 {
      InitialBudget(row, n - 1);
      assert Initial(row, n).callers[..n - 1] == Initial(row, n - 1).callers;
    }
  }

  function Reads(actions: seq<Action>): nat
    decreases |actions|
  {
    if actions == [] then 0 else (if actions[0].Read? then 1 else 0) + Reads(actions[1..])
  }

  /** The attempts that are counted are the reads of the run. */
  lemma {:induction false} AttemptsAreReads<Row>(fns: seq<Update<Row>>, s: System<Row>, actions: seq<Action>,
                                                 s': System<Row>)
    requires |fns| == |s.callers| && Runs(fns, s, actions, s')
    ensures s'.attempts == s.attempts + Reads(actions)
    decreases |actions|
  {
    if actions != [] {
      AttemptsAreReads(fns, Step(fns, s, actions[0]), actions[1..], s');
    }
  }

  lemma {:induction false} RunKeepsSerial<Row>(fns: seq<Update<Row>>, row: Row, s: System<Row>, actions: seq<Action>,
                                               s': System<Row>)
    requires Serial(fns, row, s) && Runs(fns, s, actions, s')
    ensures Serial(fns, row, s') && Budget(s') <= Budget(s) && s.order <= s'.order
    decreases |actions|
  {
    if actions != [] {
      StepKeepsSerial(fns, row, s, actions[0]);
      StepKeepsBudget(fns, s, actions[0]);
      RunKeepsSerial(fns, row, Step(fns, s, actions[0]), actions[1..], s');
    }
  }

  /** Under every interleaving the stored row is what the callers' updates give when each settled caller is applied
      exactly once, in the order of `order`, and never more than N(N+1)/2 attempts are made. */
  lemma UpdatesSerialize<Row>(fns: seq<Update<Row>>, row: Row, actions: seq<Action>, s: System<Row>)
    requires Runs(fns, Initial(row, |fns|), actions, s)
    ensures |s.callers| == |fns| && forall k :: 0 <= k < |s.order| ==> s.order[k] < |fns|
    ensures s.row == InOrder(fns, row, s.order)
    ensures Distinct(s.order)
    ensures forall i :: 0 <= i < |fns| && s.callers[i].Returned? ==> i in s.order
    ensures s.attempts == Reads(actions) && 2 * s.attempts <= |fns| * (|fns| + 1)
  {
    ReachedSerially(fns, row, actions, s);
    AttemptsInBudget(row, |fns|, s);
    AttemptsAreReads(fns, Initial(row, |fns|), actions, s);
    forall i | 0 <= i < |fns| && s.callers[i].Returned? ensures i in s.order {
      assert Settled(fns, s, i);
    }
  }

  lemma ReachedSerially<Row>(fns: seq<Update<Row>>, row: Row, actions: seq<Action>, s: System<Row>)
    requires Runs(fns, Initial(row, |fns|), actions, s)
    ensures Serial(fns, row, s) && Budget(s) <= Budget(Initial(row, |fns|))
  {
    InitiallySerial(fns, row);
    RunKeepsSerial(fns, row, Initial(row, |fns|), actions, s);
  }

  lemma {:induction false} InitiallySerial<Row>(fns: seq<Update<Row>>, row: Row)
    ensures Serial(fns, row, Initial(row, |fns|))
  {
    var s0 := Initial(row, |fns|);
    assert forall i :: 0 <= i < |fns| ==> s0.callers[i] == Idle;
  }

  lemma AttemptsInBudget<Row>(row: Row, n: nat, s: System<Row>)
    requires Budget(s) <= Budget(Initial(row, n))
    ensures 2 * s.attempts <= n * (n + 1)
  {
    InitialBudget(row, n);
    PairsAreMany(Unreturned(s.callers));
  }

  lemma PairsAreMany(u: nat)
    ensures 0 <= u * (u - 1)
  {
    if u > 0 {
      ScaleUp(0, u, u - 1);
    }
  }

  /** When everybody has returned, the serialization is a permutation of the callers: no update is lost or repeated. */
  lemma NoUpdateIsLost<Row>(fns: seq<Update<Row>>, row: Row, actions: seq<Action>, s: System<Row>)
    requires Runs(fns, Initial(row, |fns|), actions, s)
    requires forall i :: 0 <= i < |s.callers| ==> s.callers[i].Returned?
    ensures multiset(s.order) == multiset(seq(|fns|, i => i))
  {
    UpdatesSerialize(fns, row, actions, s);
    forall i: nat ensures i in s.order <==> i in seq(|fns|, i => i) {
      if i < |fns| {
        assert s.callers[i].Returned?;
        assert seq(|fns|, i => i)[i] == i;
      }
    }
    SameDistinctElements(s.order, seq(|fns|, i => i));
  }

  /** A caller that returned before another one first read comes before it in the serialization. */
  lemma SerializationRespectsTime<Row>(fns: seq<Update<Row>>, row: Row, before: seq<Action>, s: System<Row>,
                                       after: seq<Action>, s': System<Row>, i: nat, j: nat)
    requires Runs(fns, Initial(row, |fns|), before, s) && i < |fns| && j < |fns|
    requires |s.callers| == |fns| && s.callers[i].Returned? && s.callers[j].Idle?
    requires Runs(fns, s, after, s')
    ensures exists k :: 0 <= k < |s.order| <= |s'.order| && s'.order[k] == i && j !in s'.order[..k + 1]
  {
    ReachedSerially(fns, row, before, s);
    RunKeepsSerial(fns, row, s, after, s');
    assert Settled(fns, s, i) && !Settled(fns, s, j);
    var k :| 0 <= k < |s.order| && s.order[k] == i;
    assert s'.order[..k + 1] == s.order[..k + 1];
  }

  // ----- the order in which callers return

  /** The stored row is what the updates of the callers that returned give, one after the other in the order in which
      they returned. */
  ghost predicate RowFollowsReturns<Row>(fns: seq<Update<Row>>, row: Row, s: System<Row>) {
    && (forall k :: 0 <= k < |s.returned| ==> s.returned[k] < |fns|)
    && s.row == InOrder(fns, row, s.returned)
  }

  /** That is so in every state of the run. */
  ghost predicate RowFollowsReturnsThroughout<Row>(fns: seq<Update<Row>>, row: Row, s: System<Row>,
                                                   actions: seq<Action>)
    requires |fns| == |s.callers|
    decreases |actions|
  {
    && RowFollowsReturns(fns, row, s)
    && (actions == [] || !Enabled(s, actions[0]) ||
        RowFollowsReturnsThroughout(fns, row, Step(fns, s, actions[0]), actions[1..]))
  }

  /** A caller that returns because its read left it nothing to write has nothing to write on the row stored then. */
  ghost predicate NothingMissed<Row>(fns: seq<Update<Row>>, s: System<Row>, a: Action)
    requires |fns| == |s.callers| && Enabled(s, a)
  {
    a.Commit? && After(fns[a.i], s.callers[a.i].read) == s.callers[a.i].read ==> After(fns[a.i], s.row) == s.row
  }

  ghost predicate NothingMissedThroughout<Row>(fns: seq<Update<Row>>, s: System<Row>, actions: seq<Action>)
    requires |fns| == |s.callers|
    decreases |actions|
  {
    actions == [] || !Enabled(s, actions[0]) ||
    (NothingMissed(fns, s, actions[0]) && NothingMissedThroughout(fns, Step(fns, s, actions[0]), actions[1..]))
  }

  /** A step keeps the row in line with the returns exactly when it misses nothing. */
  lemma {:induction false} StepFollowsExactly<Row>(fns: seq<Update<Row>>, row: Row, s: System<Row>, a: Action)
    requires Serial(fns, row, s) && Enabled(s, a) && RowFollowsReturns(fns, row, s)
    ensures RowFollowsReturns(fns, row, Step(fns, s, a)) <==> NothingMissed(fns, s, a)
  {
    if a.Commit? {
      assert Sees(s.callers[a.i], s.row, s.version);
      InOrderOfAppend(fns, row, s.returned, a.i);
    }
  }

  lemma {:induction false} ReturnsFrom<Row>(fns: seq<Update<Row>>, row: Row, s: System<Row>, actions: seq<Action>,
                                            s': System<Row>)
    requires Serial(fns, row, s) && RowFollowsReturns(fns, row, s) && Runs(fns, s, actions, s')
    ensures RowFollowsReturnsThroughout(fns, row, s, actions) <==> NothingMissedThroughout(fns, s, actions)
    decreases |actions|
  {
    if actions != [] {
      StepKeepsSerial(fns, row, s, actions[0]);
      StepFollowsExactly(fns, row, s, actions[0]);
      if NothingMissed(fns, s, actions[0]) {
        ReturnsFrom(fns, row, Step(fns, s, actions[0]), actions[1..], s');
      }
    }
  }

  /** In every state of a run the stored row is what the returned callers' updates give in the order of their return, if
      and only if each caller that returns without writing would still have nothing to write on the row stored then. */
  lemma {:induction false} ReturnOrderSerializesExactly<Row>(fns: seq<Update<Row>>, row: Row, actions: seq<Action>,
                                                             s: System<Row>)
    requires Runs(fns, Initial(row, |fns|), actions, s)
    ensures RowFollowsReturnsThroughout(fns, row, Initial(row, |fns|), actions)
       <==> NothingMissedThroughout(fns, Initial(row, |fns|), actions)
  {
    InitiallySerial(fns, row);
    ReturnsFrom(fns, row, Initial(row, |fns|), actions, s);
  }

  function AddTenUnlessZero(x: int): Option<int> { if x == 0 then Some(0) else Some(x + 10) }

  function AddOne(x: int): Option<int> { Some(x + 1) }

  /** An instance of the other case: a caller with nothing to write is not checked again when it returns. Here caller 1
      commits between the read and the return of caller 0, which would have something to write by then. */
  lemma ReturnOrderIsNotSerial(fns: seq<Update<int>>, s: System<int>)
    requires fns == [AddTenUnlessZero, AddOne]
    requires Runs(fns, Initial(0, 2), [Read(0), Read(1), Commit(1), Commit(0)], s)
    ensures s.callers == [Returned, Returned] && s.returned == [1, 0]
    ensures s.row == InOrder(fns, 0, [0, 1]) != InOrder(fns, 0, [1, 0])
  {
    var s0 := Initial(0, 2);
    var s2 := Step(fns, Step(fns, s0, Read(0)), Read(1));
    assert s2 == System(0, 0, [Attempting(0, 0), Attempting(0, 0)], [0], [], 2);
    var s4 := Step(fns, Step(fns, s2, Commit(1)), Commit(0));
    assert s4 == System(1, 1, [Returned, Returned], [0, 1], [1, 0], 2);
    var rest := [Read(0), Read(1), Commit(1), Commit(0)][1..];
    assert rest == [Read(1), Commit(1), Commit(0)];
    assert rest[1..] == [Commit(1), Commit(0)] && rest[1..][1..] == [Commit(0)];
    assert Runs(fns, Step(fns, s2, Commit(1)), [Commit(0)], s) ==> s == s4;
    assert InOrder(fns, 0, [0, 1][..1]) == 0 && InOrder(fns, 0, [1, 0][..1]) == 1 by {
      assert [0, 1][..1] == [0] && [1, 0][..1] == [1];
    }
  }

  lemma SameDistinctElements(xs: seq<nat>, ys: seq<nat>)
    requires Distinct(xs) && Distinct(ys)
    requires forall x :: x in xs <==> x in ys
    ensures multiset(xs) == multiset(ys)
  {
    DistinctCounts(xs);
    DistinctCounts(ys);
  }

  lemma {:induction false} DistinctCounts(xs: seq<nat>)
    requires Distinct(xs)
    ensures forall x :: multiset(xs)[x] == if x in xs then 1 else 0
  {
    if xs != [] {
      var front := xs[..|xs| - 1];
      assert xs == front + [xs[|xs| - 1]];
      DistinctCounts(front);
    }
  }
}
