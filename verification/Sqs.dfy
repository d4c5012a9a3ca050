/**
  The SQS listener: at-least-once delivery of messages to a handler, with a limit on the receives of a message.
 */
module Sqs {
  import opened Collections

  type MessageId = nat

  /** What happens to a received message: whether its batch has run out of time, whether the handler succeeds, and
      whether the deletion does. */
  datatype Verdict = Verdict(overdue: bool, handlerSucceeds: bool, deletionSucceeds: bool)

  /** `receives` counts how often each message was received, also after its deletion; `tries` counts the calls of the
      handler. */
  datatype Queue = Queue(
    receives: map<MessageId, nat>,
    tries: map<MessageId, nat>,
    succeeded: set<MessageId>,
    deleted: set<MessageId>)
  {
    predicate Holds(id: MessageId) { id in receives && id !in deleted }

    function Tries(id: MessageId): nat { if id in tries then tries[id] else 0 }

    /** SQS hands out messages and counts the receives. */
    function Receive(batch: seq<MessageId>): Queue {
      this.(receives := map id | id in receives :: if id in batch then receives[id] + 1 else receives[id])
    }

    function Try(id: MessageId, success: bool): Queue {
      this.(tries := tries[id := Tries(id) + 1], succeeded := if success then succeeded + {id} else succeeded)
    }

    function Delete(id: MessageId): Queue {
      this.(deleted := deleted + {id})
    }

    /** The handler is called for a message that was not received too often. */
    function Handle(id: MessageId, v: Verdict, limit: nat): Queue
      requires Holds(id)
    {
      if receives[id] <= limit then Try(id, v.handlerSucceeds) else this
    }
  }

  /** The loop over one batch. */
  function Processed(q: Queue, batch: seq<MessageId>, verdicts: seq<Verdict>, limit: nat): Queue
    requires |batch| == |verdicts|
    decreases |batch|
  {
    if batch == [] || verdicts[0].overdue || !q.Holds(batch[0]) then q
    else
      var id, v := batch[0], verdicts[0];
      var handled := q.Handle(id, v, limit);
      if q.receives[id] <= limit && !v.handlerSucceeds then Processed(handled, batch[1..], verdicts[1..], limit)
      else if !v.deletionSucceeds then handled
      else Processed(handled.Delete(id), batch[1..], verdicts[1..], limit)
  }

  // ----- what becomes of each message of a batch

  /** The message at place `i` ends the loop: its batch is overdue, or it is to be deleted and that fails. */
  predicate Stops(q: Queue, batch: seq<MessageId>, verdicts: seq<Verdict>, limit: nat, i: nat)
    requires |batch| == |verdicts| && i < |batch| && batch[i] in q.receives
  {
    verdicts[i].overdue || ((q.receives[batch[i]] > limit || verdicts[i].handlerSucceeds)
                            && !verdicts[i].deletionSucceeds)
  }

  ghost predicate Received(q: Queue, batch: seq<MessageId>) {
    Distinct(batch) && forall i :: 0 <= i < |batch| ==> q.Holds(batch[i])
  }

  /** The loop gets to the message at place `i` in time. */
  ghost predicate Reached(q: Queue, batch: seq<MessageId>, verdicts: seq<Verdict>, limit: nat, i: nat)
    requires |batch| == |verdicts| && i < |batch| && Received(q, batch)
  {
    !verdicts[i].overdue && forall j: nat :: j < i ==> !Stops(q, batch, verdicts, limit, j)
  }

  /** What happened to one message: the handler was called once, or not at all, and it was deleted or kept. */
  predicate Fate(q: Queue, q': Queue, id: MessageId, tried: bool, success: bool, deleted: bool) {
    && q'.Tries(id) == q.Tries(id) + (if tried then 1 else 0)
    && (id in q'.succeeded <==> id in q.succeeded || (tried && success))
    && (id in q'.deleted <==> id in q.deleted || deleted)
  }

  /** What becomes of the message at place `i`. When the loop gets to it, it is tried if it was not received too often,
      and deleted if it was not tried or its handler succeeded, provided the deletion does. */
  ghost predicate Settled(q: Queue, q': Queue, batch: seq<MessageId>, verdicts: seq<Verdict>, limit: nat, i: nat)
    requires |batch| == |verdicts| && i < |batch| && Received(q, batch)
  {
    var v, reached := verdicts[i], Reached(q, batch, verdicts, limit, i);
    var tried := reached && q.receives[batch[i]] <= limit;
    Fate(q, q', batch[i], tried, v.handlerSucceeds, reached && (!tried || v.handlerSucceeds) && v.deletionSucceeds)
  }

  /** Every message of a batch is settled so, and nothing else changes. */
  lemma {:induction false} ProcessedExactly(q: Queue, batch: seq<MessageId>, verdicts: seq<Verdict>, limit: nat)
    requires |batch| == |verdicts| && Received(q, batch)
    ensures var q' := Processed(q, batch, verdicts, limit);
            && q'.receives == q.receives
            && (forall i: nat :: i < |batch| ==> Settled(q, q', batch, verdicts, limit, i))
            && (forall id :: id !in batch ==> Fate(q, q', id, false, false, false))
    decreases |batch|
  {
    if batch != [] {
      assert batch == [batch[0]] + batch[1..];
      if Stops(q, batch, verdicts, limit, 0) {
        LoopEnds(q, batch, verdicts, limit);
      } else {
        var next := AfterFirst(q, batch, verdicts, limit);
        FirstSettled(q, batch, verdicts, limit);
        ProcessedExactly(next, batch[1..], verdicts[1..], limit);
        var q' := Processed(next, batch[1..], verdicts[1..], limit);
        forall i: nat | i < |batch| ensures Settled(q, q', batch, verdicts, limit, i) {
          if i > 0 {
            SettledLater(q, batch, verdicts, limit, q', i);
          }
        }
        forall id | id !in batch ensures Fate(q, q', id, false, false, false) {
          assert id !in batch[1..] && Fate(next, q', id, false, false, false);
        }
      }
    }
  }

  lemma {:induction false} LoopEnds(q: Queue, batch: seq<MessageId>, verdicts: seq<Verdict>, limit: nat)
    requires |batch| == |verdicts| && Received(q, batch) && batch != [] && Stops(q, batch, verdicts, limit, 0)
    ensures var q' := Processed(q, batch, verdicts, limit);
            && q'.receives == q.receives
            && (forall i: nat :: i < |batch| ==> Settled(q, q', batch, verdicts, limit, i))
            && (forall id :: id !in batch ==> Fate(q, q', id, false, false, false))
  {
    forall i: nat | 0 < i < |batch| ensures !Reached(q, batch, verdicts, limit, i) && batch[i] != batch[0] {
      assert Stops(q, batch, verdicts, limit, 0);
    }
  }

  /** The queue after a message that does not end the loop. */
  function AfterFirst(q: Queue, batch: seq<MessageId>, verdicts: seq<Verdict>, limit: nat): Queue
    requires batch != [] && |batch| == |verdicts| && q.Holds(batch[0])
  {
    var handled := q.Handle(batch[0], verdicts[0], limit);
    if q.receives[batch[0]] <= limit && !verdicts[0].handlerSucceeds then handled else handled.Delete(batch[0])
  }

  lemma {:induction false} FirstSettled(q: Queue, batch: seq<MessageId>, verdicts: seq<Verdict>, limit: nat)
    requires |batch| == |verdicts| && Received(q, batch) && batch != [] && !Stops(q, batch, verdicts, limit, 0)
    ensures var next, id, v := AfterFirst(q, batch, verdicts, limit), batch[0], verdicts[0];
            && next.receives == q.receives && Received(next, batch[1..])
            && Processed(q, batch, verdicts, limit) == Processed(next, batch[1..], verdicts[1..], limit)
            && Settled(q, next, batch, verdicts, limit, 0) && id !in batch[1..]
            && (forall other :: other != id ==> Fate(q, next, other, false, false, false))
  {
  }

  lemma {:induction false} SettledLater(q: Queue, batch: seq<MessageId>, verdicts: seq<Verdict>, limit: nat, q': Queue,
                                        i: nat)
    requires |batch| == |verdicts| && Received(q, batch) && 0 < i < |batch| && !Stops(q, batch, verdicts, limit, 0)
    requires Received(AfterFirst(q, batch, verdicts, limit), batch[1..])
    requires Settled(AfterFirst(q, batch, verdicts, limit), q', batch[1..], verdicts[1..], limit, i - 1)
    ensures Settled(q, q', batch, verdicts, limit, i)
  {
    var next := AfterFirst(q, batch, verdicts, limit);
    assert batch[i] != batch[0] && batch[1..][i - 1] == batch[i] && verdicts[1..][i - 1] == verdicts[i];
    ReachedLater(q, batch, verdicts, limit, next, i);
  }

  lemma ReachedLater(q: Queue, batch: seq<MessageId>, verdicts: seq<Verdict>, limit: nat, next: Queue, i: nat)
    requires |batch| == |verdicts| && 0 < i < |batch| && Received(q, batch) && Received(next, batch[1..])
    requires next.receives == q.receives && !Stops(q, batch, verdicts, limit, 0)
    ensures Reached(q, batch, verdicts, limit, i) <==> Reached(next, batch[1..], verdicts[1..], limit, i - 1)
  {
    forall j: nat | 0 < j < |batch|
      ensures Stops(q, batch, verdicts, limit, j) <==> Stops(next, batch[1..], verdicts[1..], limit, j - 1)
    {}
    if Reached(next, batch[1..], verdicts[1..], limit, i - 1) {
      forall j: nat | j < i ensures !Stops(q, batch, verdicts, limit, j) {
        assert j > 0 ==> !Stops(next, batch[1..], verdicts[1..], limit, j - 1);
      }
    } else if forall j: nat :: j < i ==> !Stops(q, batch, verdicts, limit, j) {
      forall j: nat | j < i - 1 ensures !Stops(next, batch[1..], verdicts[1..], limit, j) {
        assert !Stops(q, batch, verdicts, limit, j + 1);
      }
    }
  }

  class SQSRawListener {
    const limit: nat
    var queue: Queue

    constructor (limit: nat, messages: set<MessageId>)
      ensures this.limit == limit && queue == Fresh(messages)
    {
      this.limit, queue := limit, Fresh(messages);
    }

    /** One turn of the listening loop. */
    method Poll(batch: seq<MessageId>, verdicts: seq<Verdict>)
      requires |batch| == |verdicts| && Distinct(batch) && forall id <- batch :: queue.Holds(id)
      modifies this
      ensures queue == Processed(old(queue).Receive(batch), batch, verdicts, limit)
    {
      queue := queue.Receive(batch);
      ghost var received := queue;
      forall k | 0 <= k < |batch| ensures queue.Holds(batch[k]) {
        assert batch[k] in batch;
      }
      var i := 0;
      while i < |batch|
        invariant 0 <= i <= |batch|
        invariant Processed(queue, batch[i..], verdicts[i..], limit) == Processed(received, batch, verdicts, limit)
        invariant forall k :: i <= k < |batch| ==> queue.Holds(batch[k])
      {
        if verdicts[i].overdue {
          return;
        }
        var id := batch[i];
        i := i + 1;
        assert batch[i - 1..][1..] == batch[i..] && verdicts[i - 1..][1..] == verdicts[i..];
        if queue.receives[id] <= limit {
          queue := queue.Try(id, verdicts[i - 1].handlerSucceeds);
          if !verdicts[i - 1].handlerSucceeds {
            continue;
          }
        }
        if !verdicts[i - 1].deletionSucceeds {
          return;
        }
        queue := queue.Delete(id);
      }
    }
  }

  function Fresh(messages: set<MessageId>): Queue {
    Queue(map id | id in messages :: 0, map[], {}, {})
  }

  // ----- runs

  datatype Turn = Turn(batch: seq<MessageId>, verdicts: seq<Verdict>)

  ghost predicate Enabled(q: Queue, t: Turn) {
    |t.batch| == |t.verdicts| && Distinct(t.batch) && forall id <- t.batch :: q.Holds(id)
  }

  function Polled(q: Queue, t: Turn, limit: nat): Queue
    requires |t.batch| == |t.verdicts|
  {
    Processed(q.Receive(t.batch), t.batch, t.verdicts, limit)
  }

  ghost predicate Runs(q: Queue, turns: seq<Turn>, limit: nat, q': Queue)
    decreases |turns|
  {
    if turns == [] then q == q'
    else Enabled(q, turns[0]) && Runs(Polled(q, turns[0], limit), turns[1..], limit, q')
  }

  /** A message is tried at most once per receive up to the limit; `pending` are received and not yet looked at. */
  ghost predicate Inv(q: Queue, limit: nat, pending: seq<MessageId>) {
    && (forall id <- q.tries :: q.tries[id] <= limit)
    && (forall id <- q.receives :: q.Tries(id) + (if id in pending then 1 else 0) <= q.receives[id])
    && (forall id <- q.deleted :: id in q.receives && (id in q.succeeded || q.receives[id] > limit))
    && (forall id <- pending :: q.Holds(id))
  }

  lemma HandledInv(q: Queue, limit: nat, id: MessageId, v: Verdict, rest: seq<MessageId>)
    requires Inv(q, limit, [id] + rest) && id !in rest
    ensures Inv(q.Handle(id, v, limit), limit, rest)
    ensures v.handlerSucceeds || q.receives[id] > limit ==> Inv(q.Handle(id, v, limit).Delete(id), limit, rest)
  {
    assert id in [id] + rest;
    assert forall x <- rest :: x in [id] + rest;
  }

  lemma {:induction false} BatchKeepsInv(q: Queue, batch: seq<MessageId>, verdicts: seq<Verdict>, limit: nat)
    requires |batch| == |verdicts| && Distinct(batch) && Inv(q, limit, batch)
    ensures Inv(Processed(q, batch, verdicts, limit), limit, [])
    decreases |batch|
  {
    if batch != [] && !verdicts[0].overdue {
      var id, v, rest := batch[0], verdicts[0], batch[1..];
      assert batch == [id] + rest && id !in rest;
      HandledInv(q, limit, id, v, rest);
      var handled := q.Handle(id, v, limit);
      if q.receives[id] <= limit && !v.handlerSucceeds {
        BatchKeepsInv(handled, rest, verdicts[1..], limit);
      } else if v.deletionSucceeds {
        BatchKeepsInv(handled.Delete(id), rest, verdicts[1..], limit);
      }
    }
  }

  lemma {:induction false} RunKeepsInv(q: Queue, turns: seq<Turn>, limit: nat, q': Queue)
    requires Inv(q, limit, []) && Runs(q, turns, limit, q')
    ensures Inv(q', limit, [])
    decreases |turns|
  {
    if turns != [] {
      var t := turns[0];
      assert Inv(q.Receive(t.batch), limit, t.batch);
      BatchKeepsInv(q.Receive(t.batch), t.batch, t.verdicts, limit);
      RunKeepsInv(Polled(q, t, limit), turns[1..], limit, q');
    }
  }

  /** In every run the handler of a message is tried on at most `limit` receives, and never more often than the message
      was received; a message is deleted only after its handler succeeded, or with more receives than the limit. */
  lemma AtMostLimitTriesAndNoLoss(messages: set<MessageId>, turns: seq<Turn>, limit: nat, q: Queue)
    requires Runs(Fresh(messages), turns, limit, q)
    ensures forall id :: q.Tries(id) <= limit
    ensures q.receives.Keys == messages
    ensures forall id <- messages :: q.Tries(id) <= q.receives[id] == TurnsWith(turns, id)
    ensures forall id <- q.deleted :: id in q.receives && (id in q.succeeded || q.receives[id] > limit)
  {
    RunKeepsInv(Fresh(messages), turns, limit, q);
    ReceivesAreTurns(Fresh(messages), turns, limit, q);
  }

  /** In how many turns the message was received. */
  function TurnsWith(turns: seq<Turn>, id: MessageId): nat
    decreases |turns|
  {
    if turns == [] then 0 else (if id in turns[0].batch then 1 else 0) + TurnsWith(turns[1..], id)
  }

  lemma {:induction false} ReceivesAreTurns(q: Queue, turns: seq<Turn>, limit: nat, q': Queue)
    requires Runs(q, turns, limit, q')
    ensures q'.receives.Keys == q.receives.Keys
    ensures forall id <- q.receives :: q'.receives[id] == q.receives[id] + TurnsWith(turns, id)
    decreases |turns|
  {
    if turns != [] {
      var t := turns[0];
      var received := q.Receive(t.batch);
      forall k | 0 <= k < |t.batch| ensures received.Holds(t.batch[k]) {
        assert t.batch[k] in t.batch;
      }
      ProcessedExactly(received, t.batch, t.verdicts, limit);
      ReceivesAreTurns(Polled(q, t, limit), turns[1..], limit, q');
    }
  }

  predicate Undisturbed(t: Turn) {
    forall v <- t.verdicts :: !v.overdue && v.deletionSucceeds
  }

  /** No message in the queue was received more than `limit` times, except for one time more of those `pending`. */
  ghost predicate Bounded(q: Queue, limit: nat, pending: seq<MessageId>) {
    forall id :: q.Holds(id) ==> q.receives[id] <= if id in pending then limit + 1 else limit
  }

  lemma {:induction false} UndisturbedBatchBoundsReceives(q: Queue, batch: seq<MessageId>, verdicts: seq<Verdict>,
                                                          limit: nat)
    requires |batch| == |verdicts| && Distinct(batch) && forall v <- verdicts :: !v.overdue && v.deletionSucceeds
    requires forall k :: 0 <= k < |batch| ==> q.Holds(batch[k])
    requires Bounded(q, limit, batch)
    ensures Bounded(Processed(q, batch, verdicts, limit), limit, [])
    decreases |batch|
  {
    if batch != [] {
      var id, v, rest := batch[0], verdicts[0], batch[1..];
      assert v in verdicts && q.Holds(id) && batch == [id] + rest;
      var handled := q.Handle(id, v, limit);
      if q.receives[id] <= limit && !v.handlerSucceeds {
        UndisturbedBatchBoundsReceives(handled, rest, verdicts[1..], limit);
      } else {
        UndisturbedBatchBoundsReceives(handled.Delete(id), rest, verdicts[1..], limit);
      }
    }
  }

  /** Without overdue batches and failing deletions no message left in the queue was ever received more often than the
      limit says. */
  lemma {:induction false} UndisturbedRunBoundsReceives(q: Queue, turns: seq<Turn>, limit: nat, q': Queue)
    requires Runs(q, turns, limit, q') && forall t <- turns :: Undisturbed(t)
    requires Bounded(q, limit, [])
    ensures Bounded(q', limit, [])
    decreases |turns|
  {
    if turns != [] {
      var t := turns[0];
      assert Undisturbed(t);
      var received := q.Receive(t.batch);
      forall k | 0 <= k < |t.batch| ensures received.Holds(t.batch[k]) {
        assert t.batch[k] in t.batch;
      }
      forall id | received.Holds(id) ensures received.receives[id] <= if id in t.batch then limit + 1 else limit {
        assert q.Holds(id);
      }
      UndisturbedBatchBoundsReceives(received, t.batch, t.verdicts, limit);
      UndisturbedRunBoundsReceives(Polled(q, t, limit), turns[1..], limit, q');
    }
  }
}
