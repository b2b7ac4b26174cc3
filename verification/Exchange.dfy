/** The whole exchange of one nginx worker: the calls and coroutines, the registry of runtimes,
    a request queue per runtime with its polling threads, the threads that answer, and the done
    list.  One action per atomic piece of code.  The interleaving is arbitrary, except that the
    worker's own code (posting, unloading, draining, aborting) runs on one thread. */
module Exchange {
  import opened Replies
  import C = Calls
  import Q = RequestQueue
  import D = DoneQueue
  import R = Registries

  type TaskId = nat
  type CoId = nat
  type RuntimeId = nat
  type QueueId = nat

  /** Whether the worker is inside `ngx_task_post`, and with what. */
  datatype Worker = Idle | Posting(q: QueueId, item: Q.Item)

  datatype World = World(
    calls: C.Table,
    registry: R.Registry<RuntimeId, QueueId>,
    queues: map<QueueId, Q.Queue>,
    worker: Worker,
    held: set<TaskId>,     // returned by poll, not yet answered
    done: D.Done,
    misplaced: bool)       // an action met a task or a coroutine that was not where it belongs

  datatype Action =
    | Spawn(co: CoId)
    | Load(rt: RuntimeId, key: string, q: QueueId, maxQueue: int, pollers: set<Q.Tid>, ok: bool)
    | BeginUnload(rt: RuntimeId)
    | BeginPost(co: CoId, rt: RuntimeId, t: TaskId, req: Request)
    | OnQueue(q: QueueId, qa: Q.Action)
    | Respond(t: TaskId, reply: Reply)
    | OnDone(da: D.Action)
    | Handle
    | Abort(co: CoId)

  const INIT: World := World(C.INIT, R.Registry(map[], map[]), map[], Idle, {}, D.INIT, false)

  /** The call's side of an action. */
  function Do(s: World, ca: C.Action): World {
    if C.Enabled(s.calls, ca) then s.(calls := C.Next(s.calls, ca)) else s.(misplaced := true)
  }

  /** A runtime a coroutine may post to or unload. */
  predicate Usable(s: World, rt: RuntimeId) {
    && s.worker.Idle? && rt in s.registry.runtimes
    && !s.registry.runtimes[rt].finished && s.registry.runtimes[rt].tq.Some?
  }

  predicate Enabled(s: World, a: Action) {
    match a
    case Spawn(co) => co !in s.calls.cos
    case Load(rt, key, q, _, _, _) =>
      s.worker.Idle? && key !in s.registry.byKey && rt !in s.registry.runtimes && q !in s.queues
    case BeginUnload(rt) => Usable(s, rt)
    case BeginPost(co, rt, t, _) =>
      Usable(s, rt) && t !in s.calls.tasks && co in s.calls.cos && s.calls.cos[co].status.Running?
    case OnQueue(q, qa) =>
      q in s.queues && Q.Enabled(s.queues[q], qa) && (qa.Lock? ==> s.worker == Posting(q, qa.item))
    case Respond(t, _) => t in s.held
    case OnDone(da) =>
      !da.Inject? && !da.Take? && D.Enabled(s.done, da) && (!da.Notify? ==> s.worker.Idle?)
    case Handle => s.worker.Idle? && D.Enabled(s.done, D.Take)
    case Abort(co) => s.worker.Idle? && co in s.calls.cos && !s.calls.cos[co].status.Dead?
  }

  function Next(s: World, a: Action): World
    requires Enabled(s, a)
  {
    match a
    case Spawn(co) => Do(s, C.Spawn(co))
    case Load(rt, key, q, maxQueue, pollers, ok) => LoadNext(s, rt, key, q, Q.Init(maxQueue, pollers), ok)
    case BeginUnload(rt) =>
      s.(registry := R.Unload(s.registry, rt),
         worker := Posting(s.registry.runtimes[rt].tq.value, Q.Sentinel))
    case BeginPost(co, rt, t, req) =>
      var q := s.registry.runtimes[rt].tq.value;
      Do(s.(worker := Posting(q, Q.Call(t))), C.Create(co, t, q, req))
    case OnQueue(q, qa) => OnQueueNext(s, q, qa, Q.Next(s.queues[q], qa))
    case Respond(t, reply) =>
      Do(s.(held := s.held - {t}, done := D.Next(s.done, D.Inject(t))), C.Answer(t, reply))
    case OnDone(da) =>
      var s' := s.(done := D.Next(s.done, da));
      if da.Swap? then Do(s', C.Batch(s.done.list)) else s'
    case Handle => Do(s.(done := D.Next(s.done, D.Take)), C.Handle(s.done.batch[0]))
    case Abort(co) => Do(s, C.Abort(co))
  }

  /** `ngx.load_ffi` past its lookup: a fresh queue, owned by a registered runtime if the
      library's init succeeds and by nobody otherwise. */
  function LoadNext(s: World, rt: RuntimeId, key: string, q: QueueId, made: Q.Queue, ok: bool): World {
    var s' := s.(queues := s.queues[q := made]);
    if ok then s'.(registry := R.Register(s.registry, rt, key, q)) else s'
  }

  /** What an action on queue `q` does, `u` being the queue after it. */
  function OnQueueNext(s: World, q: QueueId, qa: Q.Action, u: Q.Queue): World
    requires q in s.queues && Q.Enabled(s.queues[q], qa)
  {
    var was := s.queues[q];
    var s' := s.(queues := s.queues[q := u]);
    match qa
    case Refuse => OnCall(s'.(worker := Idle), qa, was.holder.item)
    case Append => OnCall(s', qa, was.holder.item)
    case Unlock => OnCall(s'.(worker := Idle), qa, was.holder.item)
    case Unlink(_) => OnCall(s', qa, was.fifo.items[0])
    case Return(_) =>
      if was.holder.item.Call? then OnCall(s'.(held := s.held + {was.holder.item.id}), qa, was.holder.item) else s'
    case _ => s'
  }

  /** Only a call has a coroutine behind it; the sentinel has none. */
  function OnCall(s: World, qa: Q.Action, item: Q.Item): World {
    if item.Sentinel? then s else
      match qa
      case Refuse => Do(s, C.Refuse(item.id))
      case Append => Do(s, C.Accept(item.id))
      case Unlock => Do(s, C.Yield(item.id))
      case Unlink(_) => Do(s, C.Take(item.id))
      case Return(_) => Do(s, C.Hand(item.id))
      case _ => s
  }
}
