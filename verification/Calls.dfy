/** The life of a call, from the task the worker creates for it to the free of that task, and
    what it does to the coroutine that made it.

    The actions are those of the worker and of the runtime threads with the containers left
    out: which queue or list a task is in is recorded in its `place`.  An action guarded by a
    place assumes the task is there; the exchange proves that it always is. */
module Calls {
  import opened Options
  import opened Replies

  type TaskId = nat
  type CoId = nat
  type QueueId = nat

  datatype Fate = Refused | Resumed | Discarded

  datatype Place = Created | Queued | InHand | Held | Done | Batched | Freed(fate: Fate)

  datatype Task = Task(
    co: CoId, q: QueueId, req: Request, place: Place, reply: Option<Reply>, aborted: bool)

  datatype Status = Running | Waiting(t: TaskId) | Dead

  /** A coroutine context; `hook` is the task its installed ffi cleanup points at. */
  datatype Co = Co(status: Status, hook: Option<TaskId>)

  /** A malloc'd block: a task node, its request, its response. */
  datatype Block = Node(t: TaskId) | Req(t: TaskId) | Rsp(t: TaskId)

  datatype Resumption = Resumption(t: TaskId, co: CoId, pushes: Pushes)

  datatype Table = Table(
    tasks: map<TaskId, Task>,
    cos: map<CoId, Co>,
    posting: Option<TaskId>,    // the call whose `task_post` the worker is inside of
    frees: multiset<Block>,     // history: every free
    log: seq<Resumption>,       // history: every resumption by the event handler
    staleWrites: nat)           // how often a cleanup hook wrote through a pointer to a freed task

  datatype Action =
    | Spawn(co: CoId)
    | Create(co: CoId, t: TaskId, q: QueueId, req: Request)
    | Refuse(t: TaskId)
    | Accept(t: TaskId)
    | Yield(t: TaskId)
    | Take(t: TaskId)
    | Hand(t: TaskId)
    | Answer(t: TaskId, reply: Reply)
    | Batch(ts: seq<TaskId>)
    | Handle(t: TaskId)
    | Abort(co: CoId)

  const INIT: Table := Table(map[], map[], None, multiset{}, [], 0)

  predicate At(s: Table, t: TaskId, place: Place) {
    t in s.tasks && s.tasks[t].place == place
  }

  predicate Enabled(s: Table, a: Action) {
    match a
    case Spawn(co) => co !in s.cos
    case Create(co, t, _, _) => s.posting.None? && co in s.cos && s.cos[co].status.Running? && t !in s.tasks
    case Refuse(t) => s.posting == Some(t) && At(s, t, Created)
    case Accept(t) => s.posting == Some(t) && At(s, t, Created)
    case Yield(t) => s.posting == Some(t) && t in s.tasks && Outstanding(s.tasks[t].place) && s.tasks[t].co in s.cos
    case Take(t) => At(s, t, Queued)
    case Hand(t) => At(s, t, InHand)
    case Answer(t, _) => At(s, t, Held)
    case Batch(ts) => forall t | t in ts :: At(s, t, Done)
    case Handle(t) =>
      && s.posting.None? && At(s, t, Batched)
      && (!s.tasks[t].aborted ==>
            s.tasks[t].reply.Some? && s.tasks[t].co in s.cos && s.cos[s.tasks[t].co].status == Waiting(t))
    case Abort(co) => s.posting.None? && co in s.cos && !s.cos[co].status.Dead?
  }

  function Next(s: Table, a: Action): Table
    requires Enabled(s, a)
  {
    match a
    case Spawn(co) => s.(cos := s.cos[co := Co(Running, None)])
    case Create(co, t, q, req) => CreateNext(s, co, t, q, req)
    case Refuse(t) => FreeTask(s.(posting := None), t, Refused)
    case Accept(t) => Move(s, t, Queued)
    case Yield(t) =>
      var co := s.tasks[t].co;
      s.(cos := s.cos[co := s.cos[co].(status := Waiting(t))], posting := None)
    case Take(t) => Move(s, t, InHand)
    case Hand(t) => Move(s, t, Held)
    case Answer(t, reply) => s.(tasks := s.tasks[t := s.tasks[t].(place := Done, reply := Some(reply))])
    case Batch(ts) =>
      s.(tasks := map t | t in s.tasks :: if t in ts then s.tasks[t].(place := Batched) else s.tasks[t])
    case Handle(t) => if s.tasks[t].aborted then FreeTask(s, t, Discarded) else ResumeNext(s, t)
    case Abort(co) => AbortNext(s, co)
  }

  /** The task exists, and the cleanup hook of its coroutine points at it. */
  function CreateNext(s: Table, co: CoId, t: TaskId, q: QueueId, req: Request): Table {
    s.(tasks := s.tasks[t := Task(co, q, req, Created, None, false)],
       cos := s.cos[co := Co(Running, Some(t))],
       posting := Some(t))
  }

  function Move(s: Table, t: TaskId, place: Place): Table
    requires t in s.tasks
  {
    s.(tasks := s.tasks[t := s.tasks[t].(place := place)])
  }

  /** The event handler on a call that was not aborted. */
  function ResumeNext(s: Table, t: TaskId): Table
    requires t in s.tasks && s.tasks[t].reply.Some?
  {
    var k := s.tasks[t];
    FreeTask(s, t, Resumed).(
      cos := s.cos[k.co := Co(Running, None)],
      log := s.log + [Resumption(t, k.co, HandlerPushes(k.reply.value))])
  }

  /** A coroutine ends before its answer came: nginx runs its hook once and clears it. */
  function AbortNext(s: Table, co: CoId): Table
    requires co in s.cos
  {
    var s' := s.(cos := s.cos[co := Co(Dead, None)]);
    if s.cos[co].hook.None? then s'
    else
      var t := s.cos[co].hook.value;
      if t in s.tasks && !s.tasks[t].place.Freed? then s'.(tasks := s.tasks[t := s.tasks[t].(aborted := true)])
      else s'.(staleWrites := s.staleWrites + 1)
  }

  /** The blocks that belong to a task. */
  function Blocks(t: TaskId, k: Task): multiset<Block> {
    multiset{Node(t)}
    + (if k.req.Text? then multiset{Req(t)} else multiset{})
    + (if k.reply.Some? && k.reply.value.rsp.At? then multiset{Rsp(t)} else multiset{})
  }

  function FreeTask(s: Table, t: TaskId, fate: Fate): Table
    requires t in s.tasks
  {
    s.(tasks := s.tasks[t := s.tasks[t].(place := Freed(fate))], frees := s.frees + Blocks(t, s.tasks[t]))
  }

  // ----- what every action keeps -----

  /** Accepted and not yet handled. */
  predicate Outstanding(p: Place) {
    p.Queued? || p.InHand? || p.Held? || p.Done? || p.Batched?
  }

  predicate Answered(p: Place) {
    p.Done? || p.Batched? || p == Freed(Resumed) || p == Freed(Discarded)
  }

  ghost predicate RepliesOk(s: Table) {
    forall t :: t in s.tasks ==> (s.tasks[t].reply.Some? <==> Answered(s.tasks[t].place))
  }

  /** A waiting coroutine waits for an outstanding call of its own, which its hook points at; a
      hook points at a live call of its own coroutine, or at one that was refused. */
  ghost predicate CosOk(s: Table) {
    forall c :: c in s.cos ==> CoOk(s.tasks, c, s.cos[c])
  }

  ghost predicate CoOk(tasks: map<TaskId, Task>, c: CoId, k: Co) {
    && (k.status.Waiting? ==>
          && k.status.t in tasks && tasks[k.status.t].co == c
          && Outstanding(tasks[k.status.t].place) && k.hook == Some(k.status.t))
    && (k.hook.Some? ==>
          && k.hook.value in tasks && tasks[k.hook.value].co == c && !tasks[k.hook.value].aborted
          && tasks[k.hook.value].place != Freed(Resumed) && tasks[k.hook.value].place != Freed(Discarded))
    && (k.status.Dead? ==> k.hook.None?)
  }

  /** An outstanding call has its coroutine waiting for it, unless that was aborted, in which
      case it is dead; the one exception is the call the worker is still posting. */
  ghost predicate TasksOk(s: Table) {
    && (s.posting.Some? ==> s.posting.value in s.tasks && PostingOk(s.cos, s.posting.value, s.tasks[s.posting.value]))
    && forall t :: t in s.tasks ==> TaskOk(s.cos, s.posting, t, s.tasks[t])
  }

  ghost predicate PostingOk(cos: map<CoId, Co>, t: TaskId, k: Task) {
    (k.place.Created? || Outstanding(k.place)) && !k.aborted && k.co in cos && cos[k.co] == Co(Running, Some(t))
  }

  ghost predicate TaskOk(cos: map<CoId, Co>, posting: Option<TaskId>, t: TaskId, k: Task) {
    && k.co in cos
    && (k.place.Created? ==> posting == Some(t))
    && (Outstanding(k.place) && !k.aborted ==> cos[k.co].status == Waiting(t) || posting == Some(t))
    && (k.aborted ==> cos[k.co].status.Dead? && (Outstanding(k.place) || k.place == Freed(Discarded)))
    && (k.place == Freed(Discarded) ==> k.aborted)
  }

  /** Exactly the resumed calls are in the log, once each, with their own answer. */
  ghost predicate LogOk(s: Table) {
    && (forall i :: 0 <= i < |s.log| ==> LogEntryOk(s.tasks, s.log[i]))
    && (forall i, j :: 0 <= i < j < |s.log| ==> s.log[i].t != s.log[j].t)
    && (forall t :: t in s.tasks && s.tasks[t].place == Freed(Resumed) ==> InLog(s.log, t))
  }

  ghost predicate LogEntryOk(tasks: map<TaskId, Task>, r: Resumption) {
    && r.t in tasks && tasks[r.t].place == Freed(Resumed) && r.co == tasks[r.t].co
    && tasks[r.t].reply.Some? && r.pushes == HandlerPushes(tasks[r.t].reply.value)
  }

  ghost predicate InLog(log: seq<Resumption>, t: TaskId) {
    exists i :: 0 <= i < |log| && log[i].t == t
  }

  /** Node, request and response of a task are freed together, once, exactly when it is freed. */
  ghost predicate FreesOk(tasks: map<TaskId, Task>, frees: multiset<Block>) {
    forall t :: FreedBlocks(tasks, frees, t)
  }

  ghost predicate FreedBlocks(tasks: map<TaskId, Task>, frees: multiset<Block>, t: TaskId) {
    if t in tasks && tasks[t].place.Freed? then
      && frees[Node(t)] == 1
      && frees[Req(t)] == (if tasks[t].req.Text? then 1 else 0)
      && frees[Rsp(t)] == (if tasks[t].reply.Some? && tasks[t].reply.value.rsp.At? then 1 else 0)
    else frees[Node(t)] == 0 && frees[Req(t)] == 0 && frees[Rsp(t)] == 0
  }

  ghost predicate Inv(s: Table) {
    RepliesOk(s) && CosOk(s) && TasksOk(s) && LogOk(s) && FreesOk(s.tasks, s.frees)
  }

  lemma InitInv()
    ensures Inv(INIT)
  {
  }

  /** The actions that only move live tasks along. */
  predicate IsMove(a: Action) {
    a.Accept? || a.Take? || a.Hand? || a.Answer? || a.Batch?
  }

  ghost predicate StepsOn(k: Task, k': Task) {
    && k' == k.(place := k'.place, reply := k'.reply)
    && (k' == k || ((k.place.Created? || Outstanding(k.place)) && Outstanding(k'.place)))
    && (k'.reply.Some? <==> Answered(k'.place))
  }

  ghost predicate Advances(s: Table, s': Table) {
    && s' == s.(tasks := s'.tasks) && s'.tasks.Keys == s.tasks.Keys
    && forall t :: t in s.tasks ==> StepsOn(s.tasks[t], s'.tasks[t])
  }

  lemma MovesAdvance(s: Table, a: Action)
    requires RepliesOk(s) && Enabled(s, a) && IsMove(a)
    ensures Advances(s, Next(s, a))
  {
  }

  lemma AdvanceKeepsCos(s: Table, s': Table)
    requires CosOk(s) && Advances(s, s')
    ensures CosOk(s')
  {
  }

  lemma AdvanceKeepsTasks(s: Table, s': Table)
    requires TasksOk(s) && Advances(s, s')
    ensures TasksOk(s')
  {
  }

  lemma AdvanceKeepsRest(s: Table, s': Table)
    requires RepliesOk(s) && LogOk(s) && FreesOk(s.tasks, s.frees) && Advances(s, s')
    ensures RepliesOk(s') && LogOk(s') && FreesOk(s'.tasks, s'.frees)
  {
    forall t ensures FreedBlocks(s'.tasks, s'.frees, t) {
      assert FreedBlocks(s.tasks, s.frees, t);
    }
  }

  lemma CreateKeepsInv(s: Table, co: CoId, t: TaskId, q: QueueId, req: Request)
    requires Inv(s) && Enabled(s, Create(co, t, q, req))
    ensures Inv(CreateNext(s, co, t, q, req))
  {
    var s' := CreateNext(s, co, t, q, req);
    forall t ensures FreedBlocks(s'.tasks, s'.frees, t) {
      assert FreedBlocks(s.tasks, s.frees, t);
    }
  }

  lemma YieldKeepsInv(s: Table, t: TaskId)
    requires Inv(s) && Enabled(s, Yield(t))
    ensures Inv(Next(s, Yield(t)))
  {
  }

  lemma SpawnKeepsInv(s: Table, co: CoId)
    requires Inv(s) && Enabled(s, Spawn(co))
    ensures Inv(Next(s, Spawn(co)))
  {
  }

  lemma FreeKeepsFrees(s: Table, t: TaskId, fate: Fate)
    requires FreesOk(s.tasks, s.frees) && t in s.tasks && !s.tasks[t].place.Freed?
    ensures var s' := FreeTask(s, t, fate); FreesOk(s'.tasks, s'.frees)
  {
    var s' := FreeTask(s, t, fate);
    forall t' ensures FreedBlocks(s'.tasks, s'.frees, t') {
      assert FreedBlocks(s.tasks, s.frees, t');
    }
  }

  lemma RefuseKeepsInv(s: Table, t: TaskId)
    requires Inv(s) && Enabled(s, Refuse(t))
    ensures Inv(Next(s, Refuse(t)))
  {
    FreeKeepsFrees(s, t, Refused);
  }

  lemma DiscardKeepsInv(s: Table, t: TaskId)
    requires Inv(s) && Enabled(s, Handle(t)) && s.tasks[t].aborted
    ensures Inv(FreeTask(s, t, Discarded))
  {
    FreeKeepsFrees(s, t, Discarded);
  }

  lemma ResumeKeepsCos(s: Table, t: TaskId)
    requires RepliesOk(s) && CosOk(s) && TasksOk(s) && Enabled(s, Handle(t)) && !s.tasks[t].aborted
    ensures var s' := ResumeNext(s, t); RepliesOk(s') && CosOk(s') && TasksOk(s')
  {
  }

  lemma ResumeKeepsLog(s: Table, t: TaskId)
    requires LogOk(s) && Enabled(s, Handle(t)) && !s.tasks[t].aborted
    ensures LogOk(ResumeNext(s, t))
  {
    var s' := ResumeNext(s, t);
    assert s'.log[|s.log|].t == t;
    forall t' | t' in s'.tasks && s'.tasks[t'].place == Freed(Resumed) ensures InLog(s'.log, t') {
      if t' != t {
        var i :| 0 <= i < |s.log| && s.log[i].t == t';
        assert s'.log[i].t == t';
      }
    }
  }

  lemma AbortKeepsCos(s: Table, co: CoId)
    requires CosOk(s) && TasksOk(s) && Enabled(s, Abort(co))
    ensures CosOk(AbortNext(s, co))
  {
  }

  lemma AbortKeepsTasks(s: Table, co: CoId)
    requires CosOk(s) && TasksOk(s) && Enabled(s, Abort(co))
    ensures TasksOk(AbortNext(s, co))
  {
  }

  lemma AbortKeepsRest(s: Table, co: CoId)
    requires RepliesOk(s) && LogOk(s) && FreesOk(s.tasks, s.frees) && Enabled(s, Abort(co))
    ensures var s' := AbortNext(s, co); RepliesOk(s') && LogOk(s') && FreesOk(s'.tasks, s'.frees)
  {
    var s' := AbortNext(s, co);
    forall t ensures FreedBlocks(s'.tasks, s'.frees, t) {
      assert FreedBlocks(s.tasks, s.frees, t);
    }
  }

  lemma {:induction false} StepKeepsInv(s: Table, a: Action)
    requires Inv(s) && Enabled(s, a)
    ensures Inv(Next(s, a))
  {
    hide RepliesOk, CosOk, TasksOk, LogOk, FreesOk;
    match a
    case Spawn(co) => SpawnKeepsInv(s, co);
    case Create(co, t, q, req) => CreateKeepsInv(s, co, t, q, req);
    case Refuse(t) => RefuseKeepsInv(s, t);
    case Yield(t) => YieldKeepsInv(s, t);
    case Handle(t) =>
      if s.tasks[t].aborted {
        DiscardKeepsInv(s, t);
      } else {
        ResumeKeepsCos(s, t);
        ResumeKeepsLog(s, t);
        FreeKeepsFrees(s, t, Resumed);
      }
    case Abort(co) =>
      AbortKeepsCos(s, co);
      AbortKeepsTasks(s, co);
      AbortKeepsRest(s, co);
    case _ =>
      MovesAdvance(s, a);
      AdvanceKeepsCos(s, Next(s, a));
      AdvanceKeepsTasks(s, Next(s, a));
      AdvanceKeepsRest(s, Next(s, a));
  }

  /** A new task is the one `a` creates; what it was created with never changes, and its answer
      only by an answer to it. */
  predicate Persists(was: map<TaskId, Task>, now: map<TaskId, Task>, a: Action, t: TaskId) {
    && (t in was ==>
          && t in now && now[t].co == was[t].co && now[t].q == was[t].q && now[t].req == was[t].req
          && (now[t].reply != was[t].reply ==> a.Answer? && a.t == t && now[t].reply == Some(a.reply)))
    && (t !in was && t in now ==> a == Create(now[t].co, t, now[t].q, now[t].req) && now[t].reply.None?)
    && (t !in was && a.Create? && a.t == t ==> t in now)
  }

  lemma StepPersists(s: Table, a: Action, t: TaskId)
    requires Enabled(s, a)
    ensures Persists(s.tasks, Next(s, a).tasks, a, t)
  {
    if a.Handle? || a.Abort? || a.Batch? || a.Refuse? {
      EndPersists(s, a, t);
    } else {
      OtherPersists(s, a, t);
    }
  }

  lemma EndPersists(s: Table, a: Action, t: TaskId)
    requires Enabled(s, a) && (a.Handle? || a.Abort? || a.Batch? || a.Refuse?)
    ensures Persists(s.tasks, Next(s, a).tasks, a, t)
  {
    hide Blocks;
  }

  lemma OtherPersists(s: Table, a: Action, t: TaskId)
    requires Enabled(s, a) && !a.Handle? && !a.Abort? && !a.Batch? && !a.Refuse?
    ensures Persists(s.tasks, Next(s, a).tasks, a, t)
  {
  }

  /** No step brings a dead coroutine back. */
  lemma {:induction false} DeadStaysDead(s: Table, a: Action, co: CoId)
    requires s.posting.Some? && s.posting.value in s.tasks ==> PostingOk(s.cos, s.posting.value, s.tasks[s.posting.value])
    requires Enabled(s, a) && co in s.cos && s.cos[co].status.Dead?
    ensures co in Next(s, a).cos && Next(s, a).cos[co].status.Dead?
  {
  }
}
