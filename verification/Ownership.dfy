/** Who owns a task: in every reachable state exactly one, and its blocks are freed exactly once. */
module Ownership {
  import C = Calls
  import Q = RequestQueue
  import D = DoneQueue
  import R = Registries
  import opened Exchange
  import opened ExchangeInvariant

  // The places, read off the containers and the history of frees, not off the record.

  ghost predicate WithWorker(s: World, t: TaskId) {
    && s.worker.Posting? && s.worker.item == Q.Call(t) && s.worker.q in s.queues
    && !HasAppended(s.queues[s.worker.q])
  }

  ghost predicate InThisQueue(s: World, t: TaskId, q: QueueId) {
    q in s.queues && Q.Call(t) in s.queues[q].fifo.items
  }

  ghost predicate InQueue(s: World, t: TaskId) {
    exists q :: InThisQueue(s, t, q)
  }

  ghost predicate WithThisPoller(s: World, t: TaskId, q: QueueId) {
    q in s.queues && s.queues[q].holder.Unlinked? && s.queues[q].holder.item == Q.Call(t)
  }

  ghost predicate WithPoller(s: World, t: TaskId) {
    exists q :: WithThisPoller(s, t, q)
  }

  ghost predicate IsFreed(s: World, t: TaskId) {
    s.calls.frees[C.Node(t)] > 0
  }

  function N(b: bool): nat {
    if b then 1 else 0
  }

  ghost function Owners(s: World, t: TaskId): nat {
    N(WithWorker(s, t)) + N(InQueue(s, t)) + N(WithPoller(s, t)) + N(t in s.held)
    + N(t in s.done.list) + N(t in s.done.batch) + N(IsFreed(s, t))
  }

  /** A created task is in exactly one place: the worker's hands, one request queue, a poller's
      hands, the runtime, the done list, the batch being drained, or freed; a task never created
      is in none.  It is in one place there, too: in one queue, in one poller's hands, and once in
      any list. */
  lemma ExactlyOnePlace(s: World, t: TaskId)
    requires Inv(s)
    ensures Owners(s, t) == N(t in s.calls.tasks)
    ensures forall q, q' :: InThisQueue(s, t, q) && InThisQueue(s, t, q') ==> q == q'
    ensures forall q, q' :: WithThisPoller(s, t, q) && WithThisPoller(s, t, q') ==> q == q'
    ensures Distinct(s.done.list) && Distinct(s.done.batch)
    ensures forall q :: q in s.queues ==> DistinctCalls(s.queues[q].fifo.items)
  {
    hide C.Inv, D.Inv, R.Inv, QueuesOk, QueuesTrack, Tracks, Lists, WorkerOk, PostingOk, OpenQueues;
    hide WithWorker, InQueue, WithPoller, InThisQueue, WithThisPoller, Distinct, DistinctCalls;
    assert IsFreed(s, t) <==> t in s.calls.tasks && s.calls.tasks[t].place.Freed? by {
      FreedIff(s.calls, t);
    }
    assert WithWorker(s, t) <==> t in s.calls.tasks && s.calls.tasks[t].place.Created? by {
      CreatedIff(s, t);
    }
    OthersIff(s, t);
  }

  lemma FreedIff(c: C.Table, t: TaskId)
    requires C.Inv(c)
    ensures c.frees[C.Node(t)] == N(t in c.tasks && c.tasks[t].place.Freed?)
  {
    assert C.FreedBlocks(c.tasks, c.frees, t);
  }

  lemma CreatedIff(s: World, t: TaskId)
    requires C.Inv(s.calls) && PostingOk(s.calls, s.worker, s.queues)
    ensures WithWorker(s, t) <==> t in s.calls.tasks && s.calls.tasks[t].place.Created?
  {
  }

  lemma OthersIff(s: World, t: TaskId)
    requires QueuesTrack(s.calls.tasks, s.queues) && Tracks(s.calls.tasks, s.held, C.Held)
    requires Lists(s.calls.tasks, s.done.list, C.Done) && Lists(s.calls.tasks, s.done.batch, C.Batched)
    ensures InQueue(s, t) <==> t in s.calls.tasks && s.calls.tasks[t].place.Queued?
    ensures WithPoller(s, t) <==> t in s.calls.tasks && s.calls.tasks[t].place.InHand?
    ensures t in s.held <==> t in s.calls.tasks && s.calls.tasks[t].place.Held?
    ensures t in s.done.list <==> t in s.calls.tasks && s.calls.tasks[t].place.Done?
    ensures t in s.done.batch <==> t in s.calls.tasks && s.calls.tasks[t].place.Batched?
    ensures forall q, q' :: InThisQueue(s, t, q) && InThisQueue(s, t, q') ==> q == q'
    ensures forall q, q' :: WithThisPoller(s, t, q) && WithThisPoller(s, t, q') ==> q == q'
    ensures Distinct(s.done.list) && Distinct(s.done.batch)
    ensures forall q :: q in s.queues ==> DistinctCalls(s.queues[q].fifo.items)
  {
    if t in s.calls.tasks {
      var q := s.calls.tasks[t].q;
      assert InThisQueue(s, t, q) <==> s.calls.tasks[t].place.Queued?;
      assert WithThisPoller(s, t, q) <==> s.calls.tasks[t].place.InHand?;
    }
  }

  /** Node, request and response are freed together: all once, or none yet; and a task that is
      anywhere else has lost none of them. */
  lemma FreedTogetherOnce(s: World, t: TaskId)
    requires Inv(s)
    ensures var f := s.calls.frees;
            && f[C.Node(t)] <= 1
            && (t in s.calls.tasks ==>
                  && f[C.Req(t)] == (if s.calls.tasks[t].req.Text? then f[C.Node(t)] else 0)
                  && f[C.Rsp(t)] == (if s.calls.tasks[t].reply.Some? && s.calls.tasks[t].reply.value.rsp.At?
                                     then f[C.Node(t)] else 0))
            && (t !in s.calls.tasks ==> f[C.Node(t)] == 0 && f[C.Req(t)] == 0 && f[C.Rsp(t)] == 0)
  {
    assert C.FreedBlocks(s.calls.tasks, s.calls.frees, t);
  }
}
