/** The request queue is linearizable: every concurrent history of posts and polls is one of an
    atomic bounded queue, each operation taking effect at one point between its call and its
    return. */
module Linearizability {
  import opened RequestQueue
  import opened QueueTheorems

  // ----- the atomic queue -----

  /** A first-in first-out queue whose capacity grows with the pollers that have arrived. */
  datatype Atomic = Atomic(items: seq<Item>, arrived: set<Tid>, maxQueue: int)

  datatype AtomicOp = Enqueue(item: Item) | Reject(item: Item) | Arrive(p: Tid) | Dequeue(p: Tid, item: Item) | Tau

  predicate Full(q: Atomic) {
    |q.items| >= q.maxQueue + |q.arrived|
  }

  /** A call is rejected exactly if the queue is full, the sentinel never. */
  predicate AtomicEnabled(q: Atomic, op: AtomicOp) {
    match op
    case Enqueue(item) => item.Call? ==> !Full(q)
    case Reject(item) => item.Call? && Full(q)
    case Arrive(p) => p !in q.arrived
    case Dequeue(p, item) => p in q.arrived && q.items != [] && q.items[0] == item
    case Tau => true
  }

  function AtomicNext(q: Atomic, op: AtomicOp): Atomic
    requires AtomicEnabled(q, op)
  {
    match op
    case Enqueue(item) => q.(items := q.items + [item])
    case Reject(_) => q
    case Arrive(p) => q.(arrived := q.arrived + {p})
    case Dequeue(p, _) => q.(items := q.items[1..], arrived := q.arrived - {p})
    case Tau => q
  }

  // ----- the run of the atomic queue -----

  function AtomicQueue(s: Queue): Atomic {
    Atomic(s.fifo.items, Inside(s), s.fifo.maxQueue)
  }

  /** The operation an action linearizes: a post takes effect where it appends or is refused, a
      poll where it unlinks, having arrived where it was called. */
  function Linearized(s: Queue, a: Action): AtomicOp
    requires Enabled(s, a)
  {
    match a
    case Append => Enqueue(s.holder.item)
    case Refuse => Reject(s.holder.item)
    case Enter(p) => Arrive(p)
    case Unlink(p) => Dequeue(p, Next(s, a).holder.item)
    case _ => Tau
  }

  ghost function Ops(states: seq<Queue>, acts: seq<Action>): (ops: seq<AtomicOp>)
    requires IsRun(states, acts)
    ensures |ops| == |acts|
  {
    seq(|acts|, i requires 0 <= i < |acts| => Linearized(states[i], acts[i]))
  }

  lemma StepIsAtomic(s: Queue, a: Action)
    requires Inv(s) && Enabled(s, a)
    ensures var q, op := AtomicQueue(s), Linearized(s, a);
            AtomicEnabled(q, op) && AtomicQueue(Next(s, a)) == AtomicNext(q, op)
  {
    InvApart(s);
    OpIsEnabled(s, a);
    OpIsDone(s, a);
  }

  lemma OpIsEnabled(s: Queue, a: Action)
    requires Inv(s) && Enabled(s, a)
    ensures AtomicEnabled(AtomicQueue(s), Linearized(s, a))
  {
    hide ThreadsApart, Bounded, NoLostWakeup, ClosesOnlyAfterSentinel, InOrder, Inside;
    InvApart(s);
    InsideCount(s);
    GateHolds(s, a);
    InsideStep(s, a);
  }

  lemma OpIsDone(s: Queue, a: Action)
    requires WaitersApart(s) && Enabled(s, a) && AtomicEnabled(AtomicQueue(s), Linearized(s, a))
    ensures AtomicQueue(Next(s, a)) == AtomicNext(AtomicQueue(s), Linearized(s, a))
  {
    hide Inside, WaitersApart;
    InsideStep(s, a);
  }

  /** Entering poll puts a thread inside, unlinking takes it out, and nothing else does either. */
  lemma InsideStep(s: Queue, a: Action)
    requires WaitersApart(s) && Enabled(s, a)
    ensures Inside(Next(s, a)) ==
              if a.Enter? then Inside(s) + {a.p} else if a.Unlink? then Inside(s) - {a.p} else Inside(s)
    ensures a.Enter? ==> a.p !in Inside(s)
    ensures a.Unlink? ==> a.p in Inside(s)
  {
    forall p ensures p in Inside(Next(s, a)) <==> a == Enter(p) || (p in Inside(s) && a != Unlink(p)) {
      PollStep(s, a, p);
    }
  }

  /** Between the test of the limit and the append a call keeps its place. */
  lemma GateHolds(s: Queue, a: Action)
    requires Bounded(s) && Enabled(s, a)
    ensures a.Append? && s.holder.item.Call? ==> s.fifo.waiting < s.fifo.maxQueue
  {
  }

  /** Every run is, step by step, a run of the atomic queue. */
  lemma RunIsAtomic(states: seq<Queue>, acts: seq<Action>, n: nat)
    requires IsRun(states, acts) && FromInit(states) && n < |acts|
    ensures var q, op := AtomicQueue(states[n]), Ops(states, acts)[n];
            AtomicEnabled(q, op) && AtomicQueue(states[n + 1]) == AtomicNext(q, op)
  {
    hide Inv, AtomicEnabled, AtomicNext, AtomicQueue, Linearized;
    RunKeepsInv(states, acts, n);
    StepIsAtomic(states[n], acts[n]);
  }

  // ----- posts -----

  /** Where a post begins and ends. */
  predicate IsPostEdge(a: Action) {
    a.Lock? || a.Unlock? || a.Refuse?
  }

  /** The post of `item` begun at `i` has not ended before `n`. */
  ghost predicate PostOpen(acts: seq<Action>, i: nat, n: nat, item: Item) {
    i < n <= |acts| && acts[i] == Lock(item) && forall k :: i < k < n ==> !IsPostEdge(acts[k])
  }

  predicate IsPostOp(op: AtomicOp) {
    op.Enqueue? || op.Reject?
  }

  /** While the worker has the mutex its post is open, and has appended its own item once or not
      at all. */
  lemma {:induction false} OpenPost(states: seq<Queue>, acts: seq<Action>, n: nat) returns (i: nat, at: nat)
    requires IsRun(states, acts) && FromInit(states) && n <= |acts| && states[n].holder.WorkerHas?
    ensures PostOpen(acts, i, n, states[n].holder.item)
    ensures var ops := Ops(states, acts);
            if states[n].holder.phase.Appended? then
              && i < at < n && ops[at] == Enqueue(states[n].holder.item)
              && forall k :: i < k < n && IsPostOp(ops[k]) ==> k == at
            else forall k :: i < k < n ==> !IsPostOp(ops[k])
  {
    var a := acts[n - 1];
    at := n - 1;
    if a.Lock? {
      i := n - 1;
    } else {
      var was;
      i, was := OpenPost(states, acts, n - 1);
      at := if a.Append? then n - 1 else was;
    }
  }

  /** A completed post took effect exactly once between its call and its return: an accepted one
      by enqueuing its own item, a refused one by having it rejected. */
  lemma PostTakesEffectOnce(states: seq<Queue>, acts: seq<Action>, i: nat, j: nat, item: Item)
    requires IsRun(states, acts) && FromInit(states) && j < |acts|
    requires PostOpen(acts, i, j, item) && (acts[j].Unlock? || acts[j].Refuse?)
    ensures var ops := Ops(states, acts);
            exists at :: i < at <= j
              && ops[at] == (if acts[j].Unlock? then Enqueue(item) else Reject(item))
              && forall k :: i <= k <= j && IsPostOp(ops[k]) ==> k == at
  {
    var ops := Ops(states, acts);
    var i', at := OpenPost(states, acts, j);
    assert i' == i;
    if acts[j].Refuse? {
      at := j;
    }
    assert ops[at] == if acts[j].Unlock? then Enqueue(item) else Reject(item);
  }

  /** And nothing is enqueued or rejected but by an open post of that item. */
  lemma EffectIsOfAPost(states: seq<Queue>, acts: seq<Action>, k: nat)
    requires IsRun(states, acts) && FromInit(states) && k < |acts| && IsPostOp(Ops(states, acts)[k])
    ensures exists i :: PostOpen(acts, i, k, Ops(states, acts)[k].item)
  {
    var i, at := OpenPost(states, acts, k);
  }

  // ----- polls -----

  /** The poll by `p` begun at `i` has not ended before `n`. */
  ghost predicate PollOpen(acts: seq<Action>, i: nat, n: nat, p: Tid) {
    i < n <= |acts| && acts[i] == Enter(p) && forall k :: i < k < n ==> acts[k] != Enter(p) && acts[k] != Return(p)
  }

  predicate IsDequeueBy(op: AtomicOp, p: Tid) {
    op.Dequeue? && op.p == p
  }

  ghost predicate HasUnlinked(s: Queue, p: Tid) {
    s.holder.Unlinked? && s.holder.p == p
  }

  /** While a thread is inside poll its poll is open, and has dequeued what it has in its hand,
      or nothing. */
  lemma {:induction false} OpenPoll(states: seq<Queue>, acts: seq<Action>, n: nat, p: Tid) returns (i: nat, at: nat)
    requires IsRun(states, acts) && FromInit(states) && n <= |acts| && (p in Inside(states[n]) || HasUnlinked(states[n], p))
    ensures PollOpen(acts, i, n, p)
    ensures var ops := Ops(states, acts);
            if HasUnlinked(states[n], p) then
              && i < at < n && ops[at] == Dequeue(p, states[n].holder.item)
              && forall k :: i < k < n && IsDequeueBy(ops[k], p) ==> k == at
            else forall k :: i < k < n ==> !IsDequeueBy(ops[k], p)
  {
    hide Inv, Enabled, Next, Inside, HasUnlinked, Linearized, FromInit;
    NobodyPolls(states, p);
    var a := acts[n - 1];
    RunKeepsInv(states, acts, n - 1);
    InvApart(states[n - 1]);
    PollStep(states[n - 1], a, p);
    PollOp(states[n - 1], a, p);
    at := n - 1;
    if a == Enter(p) {
      i := n - 1;
    } else {
      var was;
      i, was := OpenPoll(states, acts, n - 1, p);
      at := if a == Unlink(p) then n - 1 else was;
    }
  }

  lemma NobodyPolls(states: seq<Queue>, p: Tid)
    requires FromInit(states)
    ensures p !in Inside(states[0]) && !HasUnlinked(states[0], p)
  {
  }

  lemma InvApart(s: Queue)
    requires Inv(s)
    ensures WaitersApart(s)
  {
  }

  lemma PollOp(s: Queue, a: Action, p: Tid)
    requires Enabled(s, a)
    ensures IsDequeueBy(Linearized(s, a), p) <==> a == Unlink(p)
    ensures a == Unlink(p) ==> HasUnlinked(Next(s, a), p) && Linearized(s, a) == Dequeue(p, Next(s, a).holder.item)
    ensures HasUnlinked(s, p) ==> s.holder.Unlinked?
    ensures HasUnlinked(Next(s, a), p) ==> Next(s, a).holder.Unlinked?
  {
  }

  /** A thread is inside poll from its Enter on, and has the item from its Unlink on. */
  lemma PollStep(s: Queue, a: Action, p: Tid)
    requires WaitersApart(s) && Enabled(s, a)
    ensures p in Inside(Next(s, a)) <==> a == Enter(p) || (p in Inside(s) && a != Unlink(p))
    ensures HasUnlinked(Next(s, a), p) <==> a == Unlink(p) || (HasUnlinked(s, p) && a != Return(p))
    ensures HasUnlinked(s, p) && a != Return(p) ==> Next(s, a).holder == s.holder
    ensures p in Inside(s) ==> a != Return(p) && a != Enter(p) && !HasUnlinked(s, p)
    ensures HasUnlinked(s, p) ==> a != Enter(p) && a != Unlink(p)
    ensures a == Unlink(p) ==> p in Inside(s)
  {
  }

  /** A completed poll took effect exactly once between its call and its return, by dequeuing
      the very item it hands out. */
  lemma PollTakesEffectOnce(states: seq<Queue>, acts: seq<Action>, i: nat, j: nat, p: Tid)
    requires IsRun(states, acts) && FromInit(states) && j < |acts| && PollOpen(acts, i, j, p) && acts[j] == Return(p)
    ensures var ops := Ops(states, acts);
            exists at, item ::
              && i < at < j && ops[at] == Dequeue(p, item) && states[j + 1].returned == states[j].returned + [item]
              && forall k :: i <= k <= j && IsDequeueBy(ops[k], p) ==> k == at
  {
    var i', at := OpenPoll(states, acts, j, p);
    assert i' == i;
    assert Ops(states, acts)[at] == Dequeue(p, states[j].holder.item);
  }

  /** And nothing is dequeued but by an open poll of that thread. */
  lemma EffectIsOfAPoll(states: seq<Queue>, acts: seq<Action>, k: nat)
    requires IsRun(states, acts) && FromInit(states) && k < |acts| && Ops(states, acts)[k].Dequeue?
    ensures exists i :: PollOpen(acts, i, k, Ops(states, acts)[k].p)
  {
    var i, at := OpenPoll(states, acts, k, acts[k].p);
  }

  // ----- the histories -----

  /** The items enqueued by the first `n` operations. */
  function Enqueued(ops: seq<AtomicOp>): seq<Item> {
    if ops == [] then [] else
      var op := ops[|ops| - 1];
      Enqueued(ops[..|ops| - 1]) + if op.Enqueue? then [op.item] else []
  }

  /** The items dequeued by them. */
  function Dequeued(ops: seq<AtomicOp>): seq<Item> {
    if ops == [] then [] else
      var op := ops[|ops| - 1];
      Dequeued(ops[..|ops| - 1]) + if op.Dequeue? then [op.item] else []
  }

  lemma HistoryStep(s: Queue, a: Action)
    requires Enabled(s, a)
    ensures var op, s' := Linearized(s, a), Next(s, a);
            && s'.accepted == s.accepted + (if op.Enqueue? then [op.item] else [])
            && s'.returned + InHand(s') == s.returned + InHand(s) + (if op.Dequeue? then [op.item] else [])
  {
  }

  lemma {:induction false} HistoriesAreTheOperations(states: seq<Queue>, acts: seq<Action>, n: nat)
    requires IsRun(states, acts) && FromInit(states) && n <= |acts|
    ensures var ops := Ops(states, acts)[..n];
            && Enqueued(ops) == states[n].accepted
            && Dequeued(ops) == states[n].returned + InHand(states[n])
  {
    if n > 0 {
      hide Next, Enabled, Linearized, InHand;
      HistoriesAreTheOperations(states, acts, n - 1);
      HistoryStep(states[n - 1], acts[n - 1]);
      var ops := Ops(states, acts)[..n];
      assert ops[..n - 1] == Ops(states, acts)[..n - 1];
    }
  }

  /** The items polls obtain, in lock order, are a prefix of the items posts appended; the rest is
      the list; and what polls have handed out is a prefix of what they obtained. */
  lemma RunIsFifo(states: seq<Queue>, acts: seq<Action>, n: nat)
    requires IsRun(states, acts) && FromInit(states) && n <= |acts|
    ensures var ops := Ops(states, acts)[..n];
            && states[n].returned <= Dequeued(ops) <= Enqueued(ops)
            && Enqueued(ops) == Dequeued(ops) + states[n].fifo.items
  {
    RunKeepsInv(states, acts, n);
    HistoriesAreTheOperations(states, acts, n);
  }
}
