/** The request queue: one mutex, one condition variable, a linked list and a
    signed counter, shared by the nginx worker and any number of polling threads.

    BoundedFifo is the data the mutex protects.  RequestQueue is the concurrent
    machine around it: one action per atomic piece of `ngx_task_post` and
    `ngx_http_lua_ffi_task_poll`, the mutex and the wait set being explicit, so that
    signalling before appending is visible to every interleaving. */
module BoundedFifo {

  datatype Fifo<T> = Fifo(items: seq<T>, waiting: int, maxQueue: int)

  function Empty<T>(maxQueue: int): Fifo<T> {
    Fifo([], 0, maxQueue)
  }

  /** The overflow test; only a task with a context (a call) is subject to it. */
  predicate Refuses<T>(f: Fifo<T>, hasCtx: bool) {
    hasCtx && f.waiting >= f.maxQueue
  }

  function Append<T>(f: Fifo<T>, x: T): Fifo<T> {
    f.(items := f.items + [x], waiting := f.waiting + 1)
  }

  function Enter<T>(f: Fifo<T>): Fifo<T> {
    f.(waiting := f.waiting - 1)
  }

  function Unlink<T>(f: Fifo<T>): Fifo<T>
    requires f.items != []
  {
    f.(items := f.items[1..])
  }
}

module RequestQueue {
  import opened BoundedFifo

  type Tid = nat
  type TaskId = nat

  /** What travels through the queue: a call, or the task without a context that unload posts. */
  datatype Item = Call(id: TaskId) | Sentinel

  /** How far the worker is inside `ngx_task_post` while it has the mutex. */
  datatype Phase = Locked | Signalled | Appended

  datatype Holder =
    | Free
    | WorkerHas(item: Item, phase: Phase)
    | Checking(p: Tid)               // about to test `queue.first == NULL`
    | Unlinked(p: Tid, item: Item)   // has taken the head, mutex not yet released

  datatype Target = Nobody | Sleeper(p: Tid)

  datatype Queue = Queue(
    fifo: Fifo<Item>,
    holder: Holder,
    sleepers: set<Tid>,    // inside pthread_cond_wait, not signalled
    woken: set<Tid>,       // signalled (or woken spuriously), waiting for the mutex
    closing: set<Tid>,     // has unlinked the sentinel and released the mutex
    exited: set<Tid>,      // poll returned NULL to it
    pollers: set<Tid>,     // the threads the runtime polls from
    frees: nat,            // how often the queue itself was freed
    accepted: seq<Item>,   // history: every item appended
    returned: seq<Item>)   // history: every item whose poll released the mutex

  datatype Action =
    | Lock(item: Item)
    | Refuse
    | Signal(target: Target)
    | Append
    | Unlock
    | Enter(p: Tid)
    | Sleep(p: Tid)
    | Wake(p: Tid)
    | Relock(p: Tid)
    | Unlink(p: Tid)
    | Return(p: Tid)
    | Destroy(p: Tid)

  function Init(maxQueue: int, pollers: set<Tid>): Queue {
    Queue(BoundedFifo.Empty(maxQueue), Free, {}, {}, {}, {}, pollers, 0, [], [])
  }

  predicate Enabled(s: Queue, a: Action) {
    match a
    case Lock(_) => s.holder.Free?
    case Refuse => s.holder.WorkerHas? && s.holder.phase.Locked? && Refuses(s.fifo, s.holder.item.Call?)
    case Signal(target) =>
      && s.holder.WorkerHas? && s.holder.phase.Locked? && !Refuses(s.fifo, s.holder.item.Call?)
      && (if target.Nobody? then s.sleepers == {} else target.p in s.sleepers)
    case Append => s.holder.WorkerHas? && s.holder.phase.Signalled?
    case Unlock => s.holder.WorkerHas? && s.holder.phase.Appended?
    case Enter(p) => s.holder.Free? && p in s.pollers - s.sleepers - s.woken - s.closing - s.exited
    case Sleep(p) => s.holder == Checking(p) && s.fifo.items == []
    case Wake(p) => p in s.sleepers
    case Relock(p) => s.holder.Free? && p in s.woken
    case Unlink(p) => s.holder == Checking(p) && s.fifo.items != []
    case Return(p) => s.holder.Unlinked? && s.holder.p == p
    case Destroy(p) => p in s.closing
  }

  function Next(s: Queue, a: Action): Queue
    requires Enabled(s, a)
  {
    match a
    case Lock(item) => s.(holder := WorkerHas(item, Locked))
    case Refuse => s.(holder := Free)
    case Signal(target) =>
      if target.Nobody? then s.(holder := s.holder.(phase := Signalled))
      else s.(holder := s.holder.(phase := Signalled),
              sleepers := s.sleepers - {target.p}, woken := s.woken + {target.p})
    case Append =>
      s.(holder := s.holder.(phase := Appended),
         fifo := BoundedFifo.Append(s.fifo, s.holder.item), accepted := s.accepted + [s.holder.item])
    case Unlock => s.(holder := Free)
    case Enter(p) => s.(holder := Checking(p), fifo := BoundedFifo.Enter(s.fifo))
    case Sleep(p) => s.(holder := Free, sleepers := s.sleepers + {p})
    case Wake(p) => s.(sleepers := s.sleepers - {p}, woken := s.woken + {p})
    case Relock(p) => s.(holder := Checking(p), woken := s.woken - {p})
    case Unlink(p) => s.(holder := Unlinked(p, s.fifo.items[0]), fifo := BoundedFifo.Unlink(s.fifo))
    case Return(p) =>
      var s' := s.(holder := Free, returned := s.returned + [s.holder.item]);
      if s.holder.item.Sentinel? then s'.(closing := s.closing + {p}) else s'
    case Destroy(p) => s.(closing := s.closing - {p}, exited := s.exited + {p}, frees := s.frees + 1)
  }

  // ----- what every action keeps -----

  /** The poller that has the mutex, if it is a poller. */
  function HolderPoller(s: Queue): set<Tid> {
    if s.holder.Checking? || s.holder.Unlinked? then {s.holder.p} else {}
  }

  /** Pollers that called poll and have not unlinked anything yet. */
  function Inside(s: Queue): set<Tid> {
    s.sleepers + s.woken + (if s.holder.Checking? then {s.holder.p} else {})
  }

  function InHand(s: Queue): seq<Item> {
    if s.holder.Unlinked? then [s.holder.item] else []
  }

  function Sentinels(items: seq<Item>): nat {
    if items == [] then 0 else Sentinels(items[..|items| - 1]) + if items[|items| - 1].Sentinel? then 1 else 0
  }

  ghost predicate WaitersApart(s: Queue) {
    && s.sleepers !! s.woken
    && (forall p :: p in HolderPoller(s) ==> p !in s.sleepers && p !in s.woken)
  }

  /** Every thread is in at most one place. */
  ghost predicate ThreadsApart(s: Queue) {
    && WaitersApart(s)
    && s.closing !! s.exited
    && (forall p :: p in s.closing || p in s.exited ==> p !in s.sleepers && p !in s.woken && p !in HolderPoller(s))
    && s.sleepers <= s.pollers && s.woken <= s.pollers && s.closing <= s.pollers && s.exited <= s.pollers
    && HolderPoller(s) <= s.pollers
  }

  /** First in, first out: what was accepted is what was returned, then the item in a
      poller's hand, then the list, in this order. */
  predicate InOrder(s: Queue) {
    s.accepted == s.returned + InHand(s) + s.fifo.items
  }

  /** The meaning of the signed counter. */
  predicate CounterMeaning(s: Queue) {
    s.fifo.waiting == |s.fifo.items| - Waiters(s)
  }

  /** 1 while a poller that has the mutex is about to test the list. */
  function Testing(s: Queue): nat {
    if s.holder.Checking? then 1 else 0
  }

  function Limit(s: Queue): nat {
    if s.fifo.maxQueue < 0 then 0 else s.fifo.maxQueue
  }

  predicate Bounded(s: Queue) {
    && s.fifo.waiting <= Limit(s) + Sentinels(s.accepted)
    && (s.holder.WorkerHas? && s.holder.phase.Signalled? && s.holder.item.Call? ==> s.fifo.waiting < s.fifo.maxQueue)
  }

  /** A sleeping poller is owed nothing: the items in the list, and the one a signal already
      went out for, are all matched by pollers on their way to the list. */
  predicate NoLostWakeup(s: Queue) {
    s.sleepers != {} ==>
      |s.fifo.items| + (if s.holder.WorkerHas? && s.holder.phase.Signalled? then 1 else 0)
      <= |s.woken| + Testing(s)
  }

  predicate ClosesOnlyAfterSentinel(s: Queue) {
    s.closing + s.exited != {} || s.frees > 0 ==> Sentinel in s.returned
  }

  ghost predicate Inv(s: Queue) {
    && ThreadsApart(s)
    && InOrder(s)
    && CounterMeaning(s)
    && Bounded(s)
    && NoLostWakeup(s)
    && ClosesOnlyAfterSentinel(s)
  }

  lemma InsideCount(s: Queue)
    requires ThreadsApart(s)
    ensures |Inside(s)| == |s.sleepers| + |s.woken| + Testing(s)
  {
    assert |s.sleepers + s.woken| == |s.sleepers| + |s.woken|;
  }

  lemma SentinelsAppend(items: seq<Item>, x: Item)
    ensures Sentinels(items + [x]) == Sentinels(items) + if x.Sentinel? then 1 else 0
  {
    assert (items + [x])[..|items|] == items;
  }

  lemma InitInv(maxQueue: int, pollers: set<Tid>)
    ensures Inv(Init(maxQueue, pollers))
  {
  }

  lemma {:induction false} StepKeepsInv(s: Queue, a: Action)
    requires Inv(s) && Enabled(s, a)
    ensures Inv(Next(s, a))
  {
    StepKeepsApart(s, a);
    StepKeepsOrder(s, a);
    StepKeepsCounter(s, a);
    StepKeepsBound(s, a);
    StepKeepsWakeups(s, a);
    StepKeepsClosing(s, a);
  }

  lemma {:induction false} StepKeepsApart(s: Queue, a: Action)
    requires ThreadsApart(s) && Enabled(s, a)
    ensures ThreadsApart(Next(s, a))
  {
  }

  lemma {:induction false} StepKeepsOrder(s: Queue, a: Action)
    requires InOrder(s) && Enabled(s, a)
    ensures InOrder(Next(s, a))
  {
  }

  lemma {:induction false} StepKeepsCounter(s: Queue, a: Action)
    requires WaitersApart(s) && CounterMeaning(s) && Enabled(s, a)
    ensures CounterMeaning(Next(s, a))
  {
    WaitersChange(s, a);
  }

  /** Sleepers, woken and testing pollers: entering adds one, unlinking takes one away. */
  function Waiters(s: Queue): nat {
    |s.sleepers| + |s.woken| + Testing(s)
  }

  lemma WaitersChange(s: Queue, a: Action)
    requires WaitersApart(s) && Enabled(s, a)
    ensures Waiters(Next(s, a)) == Waiters(s) + if a.Enter? then 1 else if a.Unlink? then -1 else 0
  {
    match a
    case Signal(target) =>
      if target.Sleeper? {
        Moves(s.sleepers, s.woken, target.p);
      }
    case Wake(p) => Moves(s.sleepers, s.woken, p);
    case Relock(p) => Moves(s.woken, {}, p);
    case Sleep(p) => Moves({p}, s.sleepers, p);
    case _ =>
  }

  lemma Moves(from: set<Tid>, to: set<Tid>, p: Tid)
    requires p in from && p !in to
    ensures |from - {p}| == |from| - 1 && |to + {p}| == |to| + 1
  {
  }

  lemma {:induction false} StepKeepsBound(s: Queue, a: Action)
    requires Bounded(s) && Enabled(s, a)
    ensures Bounded(Next(s, a))
  {
    if a.Append? {
      SentinelsAppend(s.accepted, s.holder.item);
    }
  }

  lemma {:induction false} StepKeepsWakeups(s: Queue, a: Action)
    requires WaitersApart(s) && NoLostWakeup(s) && Enabled(s, a)
    ensures NoLostWakeup(Next(s, a))
  {
    WokenChange(s, a);
  }

  lemma WokenChange(s: Queue, a: Action)
    requires WaitersApart(s) && Enabled(s, a)
    ensures |Next(s, a).woken| == |s.woken| +
              if (a.Signal? && a.target.Sleeper?) || a.Wake? then 1 else if a.Relock? then -1 else 0
  {
    if a.Relock? {
      Moves(s.woken, {}, a.p);
    }
  }

  lemma {:induction false} StepKeepsClosing(s: Queue, a: Action)
    requires ClosesOnlyAfterSentinel(s) && Enabled(s, a)
    ensures ClosesOnlyAfterSentinel(Next(s, a))
  {
  }
}
