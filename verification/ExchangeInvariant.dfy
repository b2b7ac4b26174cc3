/** What every step of the exchange keeps: every task is in exactly the container its place
    names, the worker is in at most one post, and no runtime that can still be posted to has
    had its sentinel sent. */
module ExchangeInvariant {
  import opened Options
  import opened Replies
  import C = Calls
  import Q = RequestQueue
  import T = QueueTheorems
  import D = DoneQueue
  import R = Registries
  import opened Exchange

  type Tasks = map<TaskId, C.Task>

  // ----- containers -----

  /** The set holds exactly the tasks whose place is `place`. */
  ghost predicate Tracks(tasks: Tasks, ts: set<TaskId>, place: C.Place) {
    forall t :: t in ts <==> t in tasks && tasks[t].place == place
  }

  ghost predicate Distinct(ts: seq<TaskId>) {
    forall i, j :: 0 <= i < j < |ts| ==> ts[i] != ts[j]
  }

  /** The list holds exactly the tasks whose place is `place`, each once. */
  ghost predicate Lists(tasks: Tasks, ts: seq<TaskId>, place: C.Place) {
    && Distinct(ts)
    && forall t :: t in ts <==> t in tasks && tasks[t].place == place
  }

  ghost predicate DistinctCalls(items: seq<Q.Item>) {
    forall i, j :: 0 <= i < j < |items| && items[i].Call? ==> items[i] != items[j]
  }

  ghost predicate Queued(tasks: Tasks, q: QueueId, items: seq<Q.Item>) {
    && DistinctCalls(items)
    && forall t :: Q.Call(t) in items <==> t in tasks && tasks[t].q == q && tasks[t].place == C.Queued
  }

  ghost predicate InHand(tasks: Tasks, q: QueueId, holder: Q.Holder) {
    forall t :: t in tasks && tasks[t].q == q && tasks[t].place == C.InHand <==> holder.Unlinked? && holder.item == Q.Call(t)
  }

  ghost predicate QueuesTrack(tasks: Tasks, queues: map<QueueId, Q.Queue>) {
    && (forall q :: q in queues ==> Queued(tasks, q, queues[q].fifo.items) && InHand(tasks, q, queues[q].holder))
    && (forall t :: t in tasks ==> tasks[t].q in queues)
  }

  // ----- the worker -----

  predicate HasAppended(u: Q.Queue) {
    u.holder.WorkerHas? && u.holder.phase.Appended?
  }

  /** At most one queue's mutex is the worker's: that of the post in progress, which is never a
      post behind a sentinel. */
  ghost predicate WorkerOk(worker: Worker, queues: map<QueueId, Q.Queue>) {
    && (forall q :: q in queues && queues[q].holder.WorkerHas? ==> worker == Posting(q, queues[q].holder.item))
    && (worker.Posting? ==>
          && worker.q in queues
          && (!HasAppended(queues[worker.q]) ==> Q.Sentinel !in queues[worker.q].accepted))
  }

  /** The call being posted is the one the worker works on; it is queued once appended. */
  ghost predicate PostingOk(calls: C.Table, worker: Worker, queues: map<QueueId, Q.Queue>) {
    if worker.Posting? && worker.item.Call? then
      var t := worker.item.id;
      && calls.posting == Some(t) && t in calls.tasks && calls.tasks[t].q == worker.q && worker.q in queues
      && calls.tasks[t].place == (if HasAppended(queues[worker.q]) then C.Queued else C.Created)
    else calls.posting == None
  }

  /** A runtime that can still be posted to has a queue into which no sentinel has gone or is
      going. */
  ghost predicate OpenQueues(g: R.Registry<RuntimeId, QueueId>, worker: Worker, queues: map<QueueId, Q.Queue>) {
    forall r :: r in g.runtimes && g.runtimes[r].tq.Some? ==>
      var q := g.runtimes[r].tq.value;
      && q in queues && Q.Sentinel !in queues[q].accepted && worker != Posting(q, Q.Sentinel)
  }

  /** A queue's own invariants, those of an orderly shutdown if it has a single poller. */
  ghost predicate QueueOk(u: Q.Queue) {
    Q.Inv(u) && T.SentinelLast(u) && (T.SinglePoller(u) ==> T.ShutdownInv(u))
  }

  ghost predicate QueuesOk(queues: map<QueueId, Q.Queue>) {
    forall q :: q in queues ==> QueueOk(queues[q])
  }

  ghost predicate Inv(s: World) {
    && QueuesOk(s.queues) && C.Inv(s.calls) && D.Inv(s.done) && R.Inv(s.registry)
    && QueuesTrack(s.calls.tasks, s.queues)
    && Tracks(s.calls.tasks, s.held, C.Held)
    && Lists(s.calls.tasks, s.done.list, C.Done)
    && Lists(s.calls.tasks, s.done.batch, C.Batched)
    && WorkerOk(s.worker, s.queues)
    && PostingOk(s.calls, s.worker, s.queues)
    && OpenQueues(s.registry, s.worker, s.queues)
    && !s.misplaced
  }

  lemma InitInv()
    ensures Inv(INIT)
  {
    C.InitInv();
  }

  // ----- one task changes its place -----

  /** Task `t` goes from one place to another, nothing else moves. */
  ghost predicate Shifts(tasks: Tasks, tasks': Tasks, t: TaskId, to: C.Place) {
    && t in tasks && tasks'.Keys == tasks.Keys
    && tasks'[t].q == tasks[t].q && tasks'[t].place == to
    && forall x :: x in tasks && x != t ==> tasks'[x].q == tasks[x].q && tasks'[x].place == tasks[x].place
  }

  /** The containers of no place involved are right as they are. */
  lemma ShiftKeepsOthers(tasks: Tasks, tasks': Tasks, t: TaskId, to: C.Place)
    requires Shifts(tasks, tasks', t, to)
    ensures forall ts, place :: place != to && place != tasks[t].place && Tracks(tasks, ts, place) ==> Tracks(tasks', ts, place)
    ensures forall ts, place :: place != to && place != tasks[t].place && Lists(tasks, ts, place) ==> Lists(tasks', ts, place)
  {
    forall ts: seq<TaskId>, place | place != to && place != tasks[t].place && Lists(tasks, ts, place)
      ensures Lists(tasks', ts, place)
    {
    }
    forall ts: set<TaskId>, place | place != to && place != tasks[t].place && Tracks(tasks, ts, place)
      ensures Tracks(tasks', ts, place)
    {
    }
  }

  /** A task that neither leaves nor enters a queue leaves the queues right as they are. */
  lemma ShiftKeepsQueues(tasks: Tasks, tasks': Tasks, t: TaskId, to: C.Place, queues: map<QueueId, Q.Queue>)
    requires Shifts(tasks, tasks', t, to) && QueuesTrack(tasks, queues)
    requires !to.Queued? && !to.InHand? && !tasks[t].place.Queued? && !tasks[t].place.InHand?
    ensures QueuesTrack(tasks', queues)
  {
  }

  /** A task that moves within, into or out of queue `q` concerns no other queue. */
  lemma ShiftInQueue(tasks: Tasks, tasks': Tasks, t: TaskId, to: C.Place, queues: map<QueueId, Q.Queue>, q: QueueId, u: Q.Queue)
    requires Shifts(tasks, tasks', t, to) && tasks[t].q == q && q in queues && QueuesTrack(tasks, queues)
    requires Queued(tasks', q, u.fifo.items) && InHand(tasks', q, u.holder)
    ensures QueuesTrack(tasks', queues[q := u])
  {
  }

  lemma AppendTracks(tasks: Tasks, tasks': Tasks, t: TaskId, q: QueueId, items: seq<Q.Item>, holder: Q.Holder, holder': Q.Holder)
    requires Shifts(tasks, tasks', t, C.Queued) && tasks[t].q == q && tasks[t].place == C.Created
    requires Queued(tasks, q, items) && InHand(tasks, q, holder) && !holder.Unlinked? && !holder'.Unlinked?
    ensures Queued(tasks', q, items + [Q.Call(t)]) && InHand(tasks', q, holder')
  {
  }

  lemma UnlinkTracks(tasks: Tasks, tasks': Tasks, t: TaskId, q: QueueId, items: seq<Q.Item>, holder: Q.Holder, p: Q.Tid)
    requires items != [] && items[0] == Q.Call(t)
    requires Shifts(tasks, tasks', t, C.InHand) && tasks[t].q == q && tasks[t].place == C.Queued
    requires Queued(tasks, q, items) && InHand(tasks, q, holder) && !holder.Unlinked?
    ensures Queued(tasks', q, items[1..]) && InHand(tasks', q, Q.Unlinked(p, Q.Call(t)))
  {
  }

  lemma ReturnTracks(tasks: Tasks, tasks': Tasks, t: TaskId, q: QueueId, items: seq<Q.Item>, holder: Q.Holder)
    requires holder.Unlinked? && holder.item == Q.Call(t)
    requires Shifts(tasks, tasks', t, C.Held) && tasks[t].q == q && tasks[t].place == C.InHand
    requires Queued(tasks, q, items) && InHand(tasks, q, holder)
    ensures Queued(tasks', q, items) && InHand(tasks', q, Q.Free)
  {
  }

  /** What moves which task where. */
  lemma MoveShifts(c: C.Table, ca: C.Action)
    requires C.Enabled(c, ca)
    ensures ca.Accept? ==> Shifts(c.tasks, C.Next(c, ca).tasks, ca.t, C.Queued)
    ensures ca.Take? ==> Shifts(c.tasks, C.Next(c, ca).tasks, ca.t, C.InHand)
    ensures ca.Hand? ==> Shifts(c.tasks, C.Next(c, ca).tasks, ca.t, C.Held)
    ensures ca.Answer? ==> Shifts(c.tasks, C.Next(c, ca).tasks, ca.t, C.Done)
  {
  }

  lemma EndShifts(c: C.Table, ca: C.Action)
    requires C.Enabled(c, ca)
    ensures ca.Refuse? ==> Shifts(c.tasks, C.Next(c, ca).tasks, ca.t, C.Freed(C.Refused))
    ensures ca.Handle? ==>
              Shifts(c.tasks, C.Next(c, ca).tasks, ca.t, C.Freed(if c.tasks[ca.t].aborted then C.Discarded else C.Resumed))
  {
  }

  // ----- the queues' own invariants -----

  lemma QueueStepOk(u: Q.Queue, qa: Q.Action)
    requires QueueOk(u) && Q.Enabled(u, qa) && T.Disciplined(u, qa)
    ensures QueueOk(Q.Next(u, qa))
  {
    hide Q.Inv, T.SentinelLast, T.ShutdownInv;
    Q.StepKeepsInv(u, qa);
    T.StepKeepsSentinelLast(u, qa);
    if T.SinglePoller(u) {
      T.StepKeepsShutdown(u, qa);
    }
  }

  lemma NewQueueOk(maxQueue: int, pollers: set<Q.Tid>)
    ensures QueueOk(Q.Init(maxQueue, pollers))
  {
    Q.InitInv(maxQueue, pollers);
  }

  /** Lua's promise holds of every post the worker makes. */
  lemma StepIsDisciplined(s: World, q: QueueId, qa: Q.Action)
    requires WorkerOk(s.worker, s.queues) && Enabled(s, OnQueue(q, qa))
    ensures T.Disciplined(s.queues[q], qa)
  {
  }

  // ----- steps of a queue -----

  /** The worker leaves `ngx_task_post` where it releases the mutex. */
  function WorkerAfter(worker: Worker, qa: Q.Action): Worker {
    if qa.Refuse? || qa.Unlock? then Idle else worker
  }

  lemma WorkerStep(s: World, q: QueueId, qa: Q.Action)
    requires WorkerOk(s.worker, s.queues) && Enabled(s, OnQueue(q, qa))
    ensures WorkerOk(WorkerAfter(s.worker, qa), s.queues[q := Q.Next(s.queues[q], qa)])
  {
  }

  lemma OpenStep(s: World, q: QueueId, qa: Q.Action)
    requires WorkerOk(s.worker, s.queues) && OpenQueues(s.registry, s.worker, s.queues) && Enabled(s, OnQueue(q, qa))
    ensures OpenQueues(s.registry, WorkerAfter(s.worker, qa), s.queues[q := Q.Next(s.queues[q], qa)])
  {
  }

  lemma QueuesStep(s: World, q: QueueId, qa: Q.Action)
    requires QueuesOk(s.queues) && WorkerOk(s.worker, s.queues) && Enabled(s, OnQueue(q, qa))
    ensures QueuesOk(s.queues[q := Q.Next(s.queues[q], qa)])
  {
    hide QueueOk;
    StepIsDisciplined(s, q, qa);
    QueueStepOk(s.queues[q], qa);
  }

  /** The part of the invariant that speaks of calls and their containers. */
  ghost predicate CallsOk(calls: C.Table, worker: Worker, queues: map<QueueId, Q.Queue>, held: set<TaskId>, done: D.Done) {
    && C.Inv(calls) && QueuesTrack(calls.tasks, queues)
    && Tracks(calls.tasks, held, C.Held) && Lists(calls.tasks, done.list, C.Done) && Lists(calls.tasks, done.batch, C.Batched)
    && PostingOk(calls, worker, queues)
  }

  /** The action does not concern a call. */
  predicate IsQuiet(u: Q.Queue, qa: Q.Action)
    requires Q.Enabled(u, qa)
  {
    match qa
    case Refuse => u.holder.item.Sentinel?
    case Append => u.holder.item.Sentinel?
    case Unlock => u.holder.item.Sentinel?
    case Unlink(_) => u.fifo.items[0].Sentinel?
    case Return(_) => u.holder.item.Sentinel?
    case _ => true
  }

  lemma QuietTracks(tasks: Tasks, queues: map<QueueId, Q.Queue>, q: QueueId, qa: Q.Action)
    requires QueuesTrack(tasks, queues) && q in queues && Q.Enabled(queues[q], qa)
    requires IsQuiet(queues[q], qa) || qa.Refuse? || qa.Unlock?
    ensures QueuesTrack(tasks, queues[q := Q.Next(queues[q], qa)])
  {
  }

  lemma QuietKeeps(s: World, q: QueueId, qa: Q.Action)
    requires PostingOk(s.calls, s.worker, s.queues) && WorkerOk(s.worker, s.queues)
    requires Enabled(s, OnQueue(q, qa)) && IsQuiet(s.queues[q], qa)
    ensures PostingOk(s.calls, WorkerAfter(s.worker, qa), s.queues[q := Q.Next(s.queues[q], qa)])
  {
  }

  lemma AppendKeeps(s: World, q: QueueId, t: TaskId, u': Q.Queue)
    requires CallsOk(s.calls, s.worker, s.queues, s.held, s.done) && q in s.queues && Q.Enabled(s.queues[q], Q.Append)
    requires s.worker == Posting(q, Q.Call(t)) && s.queues[q].holder.item == Q.Call(t)
    requires u' == Q.Next(s.queues[q], Q.Append)
    ensures C.Enabled(s.calls, C.Accept(t))
    ensures CallsOk(C.Next(s.calls, C.Accept(t)), s.worker, s.queues[q := u'], s.held, s.done)
  {
    hide C.Inv, Queued, InHand;
    C.StepKeepsInv(s.calls, C.Accept(t));
    var tasks' := C.Next(s.calls, C.Accept(t)).tasks;
    MoveShifts(s.calls, C.Accept(t));
    ShiftKeepsOthers(s.calls.tasks, tasks', t, C.Queued);
    AppendTracks(s.calls.tasks, tasks', t, q, s.queues[q].fifo.items, s.queues[q].holder, u'.holder);
    ShiftInQueue(s.calls.tasks, tasks', t, C.Queued, s.queues, q, u');
  }

  lemma RefuseKeeps(s: World, q: QueueId, t: TaskId, u': Q.Queue)
    requires CallsOk(s.calls, s.worker, s.queues, s.held, s.done) && q in s.queues && Q.Enabled(s.queues[q], Q.Refuse)
    requires s.worker == Posting(q, Q.Call(t)) && u' == Q.Next(s.queues[q], Q.Refuse)
    ensures C.Enabled(s.calls, C.Refuse(t))
    ensures CallsOk(C.Next(s.calls, C.Refuse(t)), Idle, s.queues[q := u'], s.held, s.done)
  {
    hide C.Inv, Queued, InHand;
    C.StepKeepsInv(s.calls, C.Refuse(t));
    var tasks' := C.Next(s.calls, C.Refuse(t)).tasks;
    EndShifts(s.calls, C.Refuse(t));
    ShiftKeepsOthers(s.calls.tasks, tasks', t, C.Freed(C.Refused));
    ShiftKeepsQueues(s.calls.tasks, tasks', t, C.Freed(C.Refused), s.queues);
    QuietTracks(tasks', s.queues, q, Q.Refuse);
  }

  lemma YieldKeeps(s: World, q: QueueId, t: TaskId, u': Q.Queue)
    requires CallsOk(s.calls, s.worker, s.queues, s.held, s.done) && q in s.queues && Q.Enabled(s.queues[q], Q.Unlock)
    requires s.worker == Posting(q, Q.Call(t)) && u' == Q.Next(s.queues[q], Q.Unlock)
    ensures C.Enabled(s.calls, C.Yield(t))
    ensures CallsOk(C.Next(s.calls, C.Yield(t)), Idle, s.queues[q := u'], s.held, s.done)
  {
    hide Queued, InHand;
    C.StepKeepsInv(s.calls, C.Yield(t));
    QuietTracks(s.calls.tasks, s.queues, q, Q.Unlock);
  }

  /** The task a poller moves is not the one being posted. */
  lemma PollerKeepsPosting(c: C.Table, c': C.Table, worker: Worker, queues: map<QueueId, Q.Queue>, q: QueueId, qa: Q.Action, t: TaskId, to: C.Place)
    requires PostingOk(c, worker, queues) && WorkerOk(worker, queues)
    requires q in queues && Q.Enabled(queues[q], qa) && (qa.Unlink? || qa.Return?)
    requires c'.posting == c.posting && Shifts(c.tasks, c'.tasks, t, to) && c.tasks[t].q == q
    requires c.tasks[t].place.Queued? || c.tasks[t].place.InHand?
    ensures PostingOk(c', worker, queues[q := Q.Next(queues[q], qa)])
  {
  }

  lemma UnlinkKeeps(s: World, q: QueueId, t: TaskId, p: Q.Tid, u': Q.Queue)
    requires CallsOk(s.calls, s.worker, s.queues, s.held, s.done) && WorkerOk(s.worker, s.queues)
    requires q in s.queues && Q.Enabled(s.queues[q], Q.Unlink(p)) && s.queues[q].fifo.items[0] == Q.Call(t)
    requires u' == Q.Next(s.queues[q], Q.Unlink(p))
    ensures C.Enabled(s.calls, C.Take(t))
    ensures CallsOk(C.Next(s.calls, C.Take(t)), s.worker, s.queues[q := u'], s.held, s.done)
  {
    hide C.Inv, InHand, Tracks, Lists, PostingOk, WorkerOk;
    assert Q.Call(t) in s.queues[q].fifo.items;
    C.StepKeepsInv(s.calls, C.Take(t));
    var tasks' := C.Next(s.calls, C.Take(t)).tasks;
    MoveShifts(s.calls, C.Take(t));
    PollerKeepsPosting(s.calls, C.Next(s.calls, C.Take(t)), s.worker, s.queues, q, Q.Unlink(p), t, C.InHand);
    ShiftKeepsOthers(s.calls.tasks, tasks', t, C.InHand);
    UnlinkTracks(s.calls.tasks, tasks', t, q, s.queues[q].fifo.items, s.queues[q].holder, p);
    ShiftInQueue(s.calls.tasks, tasks', t, C.InHand, s.queues, q, u');
  }

  lemma ReturnKeeps(s: World, q: QueueId, t: TaskId, p: Q.Tid, u': Q.Queue)
    requires CallsOk(s.calls, s.worker, s.queues, s.held, s.done) && WorkerOk(s.worker, s.queues)
    requires q in s.queues && Q.Enabled(s.queues[q], Q.Return(p)) && s.queues[q].holder.item == Q.Call(t)
    requires u' == Q.Next(s.queues[q], Q.Return(p))
    ensures C.Enabled(s.calls, C.Hand(t))
    ensures CallsOk(C.Next(s.calls, C.Hand(t)), s.worker, s.queues[q := u'], s.held + {t}, s.done)
  {
    hide C.Inv, Queued, Tracks, Lists, PostingOk, WorkerOk;
    assert C.At(s.calls, t, C.InHand);
    C.StepKeepsInv(s.calls, C.Hand(t));
    var tasks' := C.Next(s.calls, C.Hand(t)).tasks;
    MoveShifts(s.calls, C.Hand(t));
    PollerKeepsPosting(s.calls, C.Next(s.calls, C.Hand(t)), s.worker, s.queues, q, Q.Return(p), t, C.Held);
    HoldTracks(s.calls.tasks, tasks', t, s.held);
    ShiftKeepsOthers(s.calls.tasks, tasks', t, C.Held);
    ReturnTracks(s.calls.tasks, tasks', t, q, s.queues[q].fifo.items, s.queues[q].holder);
    ShiftInQueue(s.calls.tasks, tasks', t, C.Held, s.queues, q, u');
  }

  lemma HoldTracks(tasks: Tasks, tasks': Tasks, t: TaskId, held: set<TaskId>)
    requires Shifts(tasks, tasks', t, C.Held) && Tracks(tasks, held, C.Held)
    ensures Tracks(tasks', held + {t}, C.Held)
  {
  }

  // ----- steps of the done list -----

  lemma RespondKeeps(s: World, t: TaskId, reply: Reply)
    requires CallsOk(s.calls, s.worker, s.queues, s.held, s.done) && t in s.held
    ensures C.Enabled(s.calls, C.Answer(t, reply))
    ensures CallsOk(C.Next(s.calls, C.Answer(t, reply)), s.worker, s.queues, s.held - {t}, D.Next(s.done, D.Inject(t)))
  {
    hide C.Inv, QueuesTrack;
    C.StepKeepsInv(s.calls, C.Answer(t, reply));
    var tasks' := C.Next(s.calls, C.Answer(t, reply)).tasks;
    MoveShifts(s.calls, C.Answer(t, reply));
    ShiftKeepsOthers(s.calls.tasks, tasks', t, C.Done);
    ShiftKeepsQueues(s.calls.tasks, tasks', t, C.Done, s.queues);
  }

  lemma HandleKeeps(s: World)
    requires CallsOk(s.calls, s.worker, s.queues, s.held, s.done) && s.worker.Idle? && D.Enabled(s.done, D.Take)
    ensures C.Enabled(s.calls, C.Handle(s.done.batch[0]))
    ensures CallsOk(C.Next(s.calls, C.Handle(s.done.batch[0])), Idle, s.queues, s.held, D.Next(s.done, D.Take))
  {
    hide C.Inv, QueuesTrack, Tracks, Lists;
    var t := s.done.batch[0];
    HeadIsListed(s.calls.tasks, s.done.batch);
    HandleGuard(s.calls, t);
    C.StepKeepsInv(s.calls, C.Handle(t));
    var tasks' := C.Next(s.calls, C.Handle(t)).tasks;
    EndShifts(s.calls, C.Handle(t));
    TakeLists(s.calls.tasks, tasks', t, tasks'[t].place, s.done.batch);
    ShiftKeepsOthers(s.calls.tasks, tasks', t, tasks'[t].place);
    ShiftKeepsQueues(s.calls.tasks, tasks', t, tasks'[t].place, s.queues);
  }

  lemma HeadIsListed(tasks: Tasks, ts: seq<TaskId>)
    requires Lists(tasks, ts, C.Batched) && ts != []
    ensures ts[0] in tasks && tasks[ts[0]].place == C.Batched
  {
    assert ts[0] in ts;
  }

  lemma TakeLists(tasks: Tasks, tasks': Tasks, t: TaskId, to: C.Place, ts: seq<TaskId>)
    requires Lists(tasks, ts, C.Batched) && ts != [] && ts[0] == t
    requires Shifts(tasks, tasks', t, to) && to != C.Batched
    ensures Lists(tasks', ts[1..], C.Batched)
  {
    assert ts == [t] + ts[1..];
  }

  /** The handler finds an unaborted call's coroutine waiting for it. */
  lemma HandleGuard(c: C.Table, t: TaskId)
    requires C.Inv(c) && c.posting.None? && C.At(c, t, C.Batched)
    ensures C.Enabled(c, C.Handle(t))
  {
  }

  lemma SwapKeeps(s: World)
    requires CallsOk(s.calls, s.worker, s.queues, s.held, s.done) && D.Inv(s.done) && D.Enabled(s.done, D.Swap)
    ensures C.Enabled(s.calls, C.Batch(s.done.list))
    ensures CallsOk(C.Next(s.calls, C.Batch(s.done.list)), s.worker, s.queues, s.held, D.Next(s.done, D.Swap))
  {
    hide C.Inv, QueuesTrack, Tracks, Lists;
    BatchGuard(s.calls, s.done.list);
    C.StepKeepsInv(s.calls, C.Batch(s.done.list));
    var tasks' := C.Next(s.calls, C.Batch(s.done.list)).tasks;
    BatchKeepsQueues(s.calls.tasks, tasks', s.queues, s.held);
    BatchLists(s.calls.tasks, tasks', s.done);
  }

  lemma BatchGuard(c: C.Table, ts: seq<TaskId>)
    requires Lists(c.tasks, ts, C.Done)
    ensures C.Enabled(c, C.Batch(ts)) && Batches(c.tasks, C.Next(c, C.Batch(ts)).tasks)
  {
  }

  /** Everything in the done list becomes the batch. */
  ghost predicate Batches(tasks: Tasks, tasks': Tasks) {
    && tasks'.Keys == tasks.Keys
    && forall t :: t in tasks ==>
         tasks'[t].q == tasks[t].q && tasks'[t].place == if tasks[t].place.Done? then C.Batched else tasks[t].place
  }

  lemma BatchKeepsQueues(tasks: Tasks, tasks': Tasks, queues: map<QueueId, Q.Queue>, held: set<TaskId>)
    requires Batches(tasks, tasks') && QueuesTrack(tasks, queues) && Tracks(tasks, held, C.Held)
    ensures QueuesTrack(tasks', queues) && Tracks(tasks', held, C.Held)
  {
  }

  lemma BatchLists(tasks: Tasks, tasks': Tasks, done: D.Done)
    requires Batches(tasks, tasks') && Lists(tasks, done.list, C.Done) && Lists(tasks, done.batch, C.Batched)
    requires D.Inv(done) && D.Enabled(done, D.Swap)
    ensures Lists(tasks', [], C.Done) && Lists(tasks', done.list, C.Batched)
  {
  }

  // ----- steps of the worker outside queues and lists -----

  ghost predicate SamePlaces(tasks: Tasks, tasks': Tasks) {
    tasks'.Keys == tasks.Keys && forall t :: t in tasks ==> tasks'[t].q == tasks[t].q && tasks'[t].place == tasks[t].place
  }

  lemma SamePlacesKeep(tasks: Tasks, tasks': Tasks, queues: map<QueueId, Q.Queue>, held: set<TaskId>, done: D.Done)
    requires SamePlaces(tasks, tasks') && QueuesTrack(tasks, queues)
    requires Tracks(tasks, held, C.Held) && Lists(tasks, done.list, C.Done) && Lists(tasks, done.batch, C.Batched)
    ensures QueuesTrack(tasks', queues)
    ensures Tracks(tasks', held, C.Held) && Lists(tasks', done.list, C.Done) && Lists(tasks', done.batch, C.Batched)
  {
  }

  lemma AbortKeeps(s: World, co: CoId)
    requires CallsOk(s.calls, s.worker, s.queues, s.held, s.done) && Enabled(s, Abort(co))
    ensures C.Enabled(s.calls, C.Abort(co))
    ensures CallsOk(C.Next(s.calls, C.Abort(co)), s.worker, s.queues, s.held, s.done)
  {
    hide C.Inv, QueuesTrack, Tracks, Lists;
    C.StepKeepsInv(s.calls, C.Abort(co));
    SamePlacesKeep(s.calls.tasks, C.Next(s.calls, C.Abort(co)).tasks, s.queues, s.held, s.done);
  }

  lemma SpawnKeeps(s: World, co: CoId)
    requires CallsOk(s.calls, s.worker, s.queues, s.held, s.done) && Enabled(s, Spawn(co))
    ensures C.Enabled(s.calls, C.Spawn(co))
    ensures CallsOk(C.Next(s.calls, C.Spawn(co)), s.worker, s.queues, s.held, s.done)
  {
    hide C.Inv, QueuesTrack, Tracks, Lists;
    C.StepKeepsInv(s.calls, C.Spawn(co));
  }

  lemma NewTaskKeepsQueues(tasks: Tasks, t: TaskId, k: C.Task, queues: map<QueueId, Q.Queue>)
    requires t !in tasks && k.place.Created? && k.q in queues && QueuesTrack(tasks, queues)
    ensures QueuesTrack(tasks[t := k], queues)
  {
  }

  lemma NewTaskKeepsLists(tasks: Tasks, t: TaskId, k: C.Task, held: set<TaskId>, done: D.Done)
    requires t !in tasks && k.place.Created?
    requires Tracks(tasks, held, C.Held) && Lists(tasks, done.list, C.Done) && Lists(tasks, done.batch, C.Batched)
    ensures Tracks(tasks[t := k], held, C.Held)
    ensures Lists(tasks[t := k], done.list, C.Done) && Lists(tasks[t := k], done.batch, C.Batched)
  {
  }

  lemma PostKeeps(s: World, co: CoId, rt: RuntimeId, t: TaskId, req: Request)
    requires CallsOk(s.calls, s.worker, s.queues, s.held, s.done) && Enabled(s, BeginPost(co, rt, t, req))
    requires WorkerOk(s.worker, s.queues) && OpenQueues(s.registry, s.worker, s.queues)
    ensures var q := s.registry.runtimes[rt].tq.value;
            && C.Enabled(s.calls, C.Create(co, t, q, req))
            && CallsOk(C.Next(s.calls, C.Create(co, t, q, req)), Posting(q, Q.Call(t)), s.queues, s.held, s.done)
            && WorkerOk(Posting(q, Q.Call(t)), s.queues)
            && OpenQueues(s.registry, Posting(q, Q.Call(t)), s.queues)
  {
    hide C.Inv, QueuesTrack, Tracks, Lists;
    var q := s.registry.runtimes[rt].tq.value;
    C.StepKeepsInv(s.calls, C.Create(co, t, q, req));
    var k := C.Task(co, q, req, C.Created, None, false);
    NewTaskKeepsQueues(s.calls.tasks, t, k, s.queues);
    NewTaskKeepsLists(s.calls.tasks, t, k, s.held, s.done);
  }

  lemma UnloadKeeps(s: World, rt: RuntimeId)
    requires PostingOk(s.calls, s.worker, s.queues) && WorkerOk(s.worker, s.queues)
    requires R.Inv(s.registry) && OpenQueues(s.registry, s.worker, s.queues) && Usable(s, rt)
    ensures var worker := Posting(s.registry.runtimes[rt].tq.value, Q.Sentinel);
            && PostingOk(s.calls, worker, s.queues) && WorkerOk(worker, s.queues)
            && R.Inv(R.Unload(s.registry, rt)) && OpenQueues(R.Unload(s.registry, rt), worker, s.queues)
  {
    R.UnloadKeepsInv(s.registry, rt);
  }

  lemma LoadKeepsWorker(s: World, rt: RuntimeId, key: string, q: QueueId, made: Q.Queue)
    requires s.worker.Idle? && q !in s.queues && !made.holder.WorkerHas?
    requires WorkerOk(s.worker, s.queues) && PostingOk(s.calls, s.worker, s.queues)
    ensures WorkerOk(s.worker, s.queues[q := made]) && PostingOk(s.calls, s.worker, s.queues[q := made])
  {
  }

  lemma LoadKeeps(s: World, rt: RuntimeId, key: string, q: QueueId, maxQueue: int, pollers: set<Q.Tid>)
    requires Enabled(s, Load(rt, key, q, maxQueue, pollers, true))
    requires QueuesOk(s.queues) && QueuesTrack(s.calls.tasks, s.queues)
    requires R.Inv(s.registry) && OpenQueues(s.registry, s.worker, s.queues)
    ensures var queues := s.queues[q := Q.Init(maxQueue, pollers)];
            && QueuesOk(queues) && QueuesTrack(s.calls.tasks, queues)
            && OpenQueues(s.registry, s.worker, queues)
            && R.Inv(R.Register(s.registry, rt, key, q))
            && OpenQueues(R.Register(s.registry, rt, key, q), s.worker, queues)
  {
    hide QueueOk;
    NewQueueOk(maxQueue, pollers);
    R.RegisterKeepsInv(s.registry, rt, key, q);
  }

  // ----- every step -----

  lemma QueueActionKeeps(s: World, q: QueueId, qa: Q.Action)
    requires Inv(s) && Enabled(s, OnQueue(q, qa))
    ensures Inv(Next(s, OnQueue(q, qa)))
  {
    hide C.Inv, D.Inv, R.Inv, QueuesOk, QueuesTrack, Tracks, Lists, PostingOk, OpenQueues;
    WorkerStep(s, q, qa);
    OpenStep(s, q, qa);
    QueuesStep(s, q, qa);
    var u := s.queues[q];
    var u' := Q.Next(u, qa);
    if IsQuiet(u, qa) {
      QuietTracks(s.calls.tasks, s.queues, q, qa);
      QuietKeeps(s, q, qa);
    } else {
      match qa
      case Refuse => RefuseKeeps(s, q, u.holder.item.id, u');
      case Append => AppendKeeps(s, q, u.holder.item.id, u');
      case Unlock => YieldKeeps(s, q, u.holder.item.id, u');
      case Unlink(p) => UnlinkKeeps(s, q, u.fifo.items[0].id, p, u');
      case Return(p) => ReturnKeeps(s, q, u.holder.item.id, p, u');
    }
  }

  lemma {:induction false} StepKeepsInv(s: World, a: Action)
    requires Inv(s) && Enabled(s, a)
    ensures Inv(Next(s, a))
  {
    hide C.Inv, D.Inv, R.Inv, QueuesOk, QueuesTrack, Tracks, Lists, WorkerOk, PostingOk, OpenQueues;
    match a
    case Spawn(co) => SpawnKeeps(s, co);
    case Load(rt, key, q, maxQueue, pollers, ok) =>
      LoadKeeps(s, rt, key, q, maxQueue, pollers);
      LoadKeepsWorker(s, rt, key, q, Q.Init(maxQueue, pollers));
    case BeginUnload(rt) => UnloadKeeps(s, rt);
    case BeginPost(co, rt, t, req) => PostKeeps(s, co, rt, t, req);
    case OnQueue(q, qa) => QueueActionKeeps(s, q, qa);
    case Respond(t, reply) =>
      RespondKeeps(s, t, reply);
      D.StepKeepsInv(s.done, D.Inject(t));
    case OnDone(da) =>
      D.StepKeepsInv(s.done, da);
      if da.Swap? { SwapKeeps(s); }
    case Handle =>
      HandleKeeps(s);
      D.StepKeepsInv(s.done, D.Take);
    case Abort(co) => AbortKeeps(s, co);
  }
}
