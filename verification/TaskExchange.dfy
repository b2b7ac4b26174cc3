/** The functions of ngx_http_lua_ffi.c that work on a task across both lists, and the echo
    runtimes that call them. */
module TaskExchange {
  import opened CStrings
  import opened Replies
  import opened BoundedFifo
  import opened TaskLists

  /** `ngx_http_lua_ffi_create_task`. */
  method CreateTask(co: Coroutine) returns (task: Task)
    modifies co
    ensures fresh(task) && task.hasCtx && task.co == co && !task.active && task.next == null && task.frees == NOTHING_FREED
    ensures task.req == Null && task.reqLen == 0 && task.ItsReply() == Reply(0, Null, 0) && !task.isAbort
    ensures co.hooked && co.data == task && co.stack == old(co.stack)
  {
    task := new Task(true, co);
    co.hooked := true;
    co.data := task;
  }

  /** `ngx_http_lua_ffi_task_post`: refused exactly when the counter has reached the limit; the
      cleanup hook stays installed either way, and its task is already freed exactly when the
      post was refused. */
  method TaskPost(co: Coroutine, tq: TaskQueue, req: Buffer, reqLen: int) returns (rc: int)
    requires tq.Valid()
    modifies co, tq, tq.list, tq.list.nodes`next
    ensures tq.Valid() && (rc == NGX_OK || rc == NGX_ERROR)
    ensures rc == NGX_ERROR <==> old(tq.waiting) >= tq.maxQueue
    ensures tq.frees == old(tq.frees)
    ensures co.hooked && co.data != null && fresh(co.data) && co.data.hasCtx && co.data.co == co && co.stack == old(co.stack)
    ensures !co.data.isAbort && co.data.ItsReply() == Reply(0, Null, 0)
    ensures co.data.frees == if rc == NGX_OK then NOTHING_FREED else BlocksOf(req, Null)
    ensures rc == NGX_OK ==> tq.Model() == Append(old(tq.Model()), co.data) && co.data.req == req && co.data.reqLen == reqLen
    ensures rc == NGX_ERROR ==> tq.Model() == old(tq.Model())
  {
    var task := CreateTask(co);
    task.req := req;
    task.reqLen := reqLen;
    rc := tq.Post(task);
    if rc != NGX_OK {
      task.Free();
    }
  }

  /** `ngx_http_lua_ffi_task_finish`: the sentinel goes to the end of the queue however full. */
  method TaskFinish(tq: TaskQueue) returns (rc: int, ghost sentinel: Task)
    requires tq.Valid()
    modifies tq, tq.list, tq.list.nodes`next
    ensures tq.Valid() && rc == NGX_OK && tq.frees == old(tq.frees)
    ensures fresh(sentinel) && !sentinel.hasCtx && sentinel.frees == NOTHING_FREED
    ensures tq.Model() == Append(old(tq.Model()), sentinel)
  {
    var task := new Task(false, null);
    rc := tq.Post(task);
    sentinel := task;
  }

  /** `ngx_http_lua_ffi_respond`. */
  method Respond(done: TaskList, task: Task, rc: int, rsp: Buffer, rspLen: int)
    requires done.Valid() && task !in done.nodes
    modifies done, done.nodes`next, task`next, task`rc, task`rsp, task`rspLen
    ensures done.Valid() && done.nodes == old(done.nodes) + [task]
    ensures task.ItsReply() == Reply(rc, rsp, rspLen)
  {
    task.rc := rc;
    task.rsp := rsp;
    task.rspLen := rspLen;
    done.Inject(task);
  }

  /** `ngx_http_lua_ffi_cleanup`: writes through the hook's pointer. */
  method Cleanup(co: Coroutine)
    requires co.data != null
    modifies co.data`isAbort
    ensures co.data.isAbort
  {
    co.data.isAbort := true;
  }

  /** A call that was aborted, or whose runtime answered with something that can be read. */
  ghost predicate Readable(t: Task)
    reads t
  {
    t.hasCtx && (!t.isAbort ==> t.co != null && HandlerPushes(t.ItsReply()).Pushed?)
  }

  /** `ngx_http_lua_ffi_event_handler`, up to the resumption: an aborted task is freed without a
      look at its coroutine; any other leaves three values on the coroutine's stack, as
      `HandlerPushes` says, and no hook. */
  method EventHandler(task: Task) returns (pushed: int)
    requires Readable(task)
    modifies task, (if task.isAbort || task.co == null then {} else {task.co})`stack
    modifies (if task.isAbort || task.co == null then {} else {task.co})`hooked
    ensures task.frees == Plus(old(task.frees), BlocksOf(old(task.req), old(task.rsp))) && task.next == null
    ensures pushed == if old(task.isAbort) then 0 else 3
    ensures !old(task.isAbort) ==>
              && task.co.stack == old(task.co.stack) + HandlerPushes(old(task.ItsReply())).values
              && !task.co.hooked
  {
    if task.isAbort {
      task.Free();
      return 0;
    }
    var co := task.co;
    co.stack := co.stack + [LuaBool(task.rc == 0)];
    pushed := 1;
    if task.rc != 0 {
      co.stack := co.stack + [LuaInt(task.rc)];
      pushed := pushed + 1;
    }
    if task.rsp.At? {
      if task.rspLen != 0 {
        co.stack := co.stack + [LuaString(ReadBytes(task.rsp.bytes, task.rspLen).text)];
      } else {
        co.stack := co.stack + [LuaString(ReadCString(task.rsp.bytes).text)];
      }
    } else {
      co.stack := co.stack + [LuaNil];
    }
    pushed := pushed + 1;
    if task.rc == 0 {
      co.stack := co.stack + [LuaNil];
      pushed := pushed + 1;
    }
    co.hooked := false;
    task.Free();
  }

  /** What the handler reads of a task. */
  datatype Answer = Answer(co: Coroutine?, isAbort: bool, reply: Reply)

  ghost function AnswerOf(t: Task): Answer
    reads t
  {
    Answer(t.co, t.isAbort, t.ItsReply())
  }

  ghost function Answers(ts: seq<Task>): seq<Answer>
    reads ts
  {
    seq(|ts|, i requires 0 <= i < |ts| reads ts => AnswerOf(ts[i]))
  }

  /** What a batch of answers leaves on the stack of `co`, in the order of the batch. */
  ghost function PushedTo(co: Coroutine, answers: seq<Answer>): seq<LuaValue> {
    if answers == [] then [] else
      PushedTo(co, answers[..|answers| - 1]) + PushedBy(co, answers[|answers| - 1])
  }

  ghost function PushedBy(co: Coroutine, a: Answer): seq<LuaValue> {
    if a.co == co && !a.isAbort && HandlerPushes(a.reply).Pushed? then HandlerPushes(a.reply).values else []
  }

  ghost predicate Resumed(co: Coroutine, answers: seq<Answer>) {
    exists a :: a in answers && a.co == co && !a.isAbort
  }

  /** The coroutines whose calls were not aborted. */
  ghost function ToResume(ts: seq<Task>): set<Coroutine?>
    reads ts
  {
    set t | t in ts && !t.isAbort :: t.co
  }

  lemma ToResumeIff(ts: seq<Task>)
    ensures forall co: Coroutine :: co in ToResume(ts) <==> Resumed(co, Answers(ts))
  {
    forall co: Coroutine ensures co in ToResume(ts) <==> Resumed(co, Answers(ts)) {
      if co in ToResume(ts) {
        var i :| 0 <= i < |ts| && !ts[i].isAbort && ts[i].co == co;
        assert Answers(ts)[i] in Answers(ts);
      }
    }
  }

  lemma PushedNext(answers: seq<Answer>, k: nat)
    requires k < |answers|
    ensures forall co :: PushedTo(co, answers[..k + 1]) == PushedTo(co, answers[..k]) + PushedBy(co, answers[k])
    ensures forall co :: Resumed(co, answers[..k + 1]) ==> Resumed(co, answers[..k]) || (answers[k].co == co && !answers[k].isAbort)
  {
    assert answers[..k + 1][..k] == answers[..k];
  }

  /** The handler as any coroutine sees it. */
  method HandleOne(task: Task, ghost cos: set<Coroutine?>)
    requires Readable(task)
    modifies task, (if task.isAbort || task.co == null then {} else {task.co})`stack
    modifies (if task.isAbort || task.co == null then {} else {task.co})`hooked
    ensures task.frees == Plus(old(task.frees), BlocksOf(old(task.req), old(task.rsp)))
    ensures forall co: Coroutine :: co in cos ==> co.stack == old(co.stack) + PushedBy(co, old(AnswerOf(task)))
    ensures forall co: Coroutine :: co in cos ==>
              co.hooked == (old(co.hooked) && !(old(AnswerOf(task)).co == co && !old(AnswerOf(task)).isAbort))
  {
    var pushed := EventHandler(task);
  }

  /** All that the walk goes by in the part of the batch it has not met yet. */
  ghost predicate Pending(rest: seq<Task>, answers: seq<Answer>, totals: seq<Frees>)
    reads rest
  {
    && |answers| == |totals| == |rest|
    && forall i {:trigger rest[i]} :: 0 <= i < |rest| ==>
         && Readable(rest[i]) && AnswerOf(rest[i]) == answers[i]
         && rest[i].next == (if i + 1 < |rest| then rest[i + 1] else null)
         && Plus(rest[i].frees, BlocksOf(rest[i].req, rest[i].rsp)) == totals[i]
  }

  lemma PendingHead(rest: seq<Task>, answers: seq<Answer>, totals: seq<Frees>)
    requires Pending(rest, answers, totals) && rest != []
    ensures |answers| == |totals| == |rest|
    ensures var t := rest[0];
            && Readable(t) && AnswerOf(t) == answers[0] && t.next == (if |rest| > 1 then rest[1] else null)
            && Plus(t.frees, BlocksOf(t.req, t.rsp)) == totals[0]
    ensures Pending(rest[1..], answers[1..], totals[1..])
  {
    hide Readable, Plus, BlocksOf;
    var tail := rest[1..];
    assert forall i :: 0 <= i < |tail| ==> tail[i] == rest[i + 1];
  }

  /** The walk of nginx's handler over the batch.  `next` is read before the task is handled, so
      although each task is freed on the way every injected task is met, once and in order: all
      its blocks are freed once, each coroutine gets exactly the answers to its own calls that
      were not aborted, and no other coroutine is touched. */
  method Drain(done: TaskList) returns (ghost handled: seq<Task>, count: nat)
    requires done.Valid() && forall t :: t in done.nodes ==> Readable(t)
    modifies done, done.nodes, ToResume(done.nodes)`stack, ToResume(done.nodes)`hooked
    ensures done.Valid() && done.nodes == []
    ensures handled == old(done.nodes) && count == |old(done.nodes)|
    ensures forall t :: t in handled ==> t.frees == Plus(old(t.frees), BlocksOf(old(t.req), old(t.rsp)))
    ensures forall co: Coroutine :: co in old(ToResume(done.nodes)) ==>
              co.stack == old(co.stack) + PushedTo(co, old(Answers(done.nodes))) && !co.hooked
  {
    ghost var batch := done.nodes;
    ghost var answers := Answers(batch);
    ghost var resumed := ToResume(batch);
    ghost var totals := seq(|batch|, i requires 0 <= i < |batch| reads batch => Plus(batch[i].frees, BlocksOf(batch[i].req, batch[i].rsp)));
    ToResumeIff(batch);
    var task := done.TakeAll();
    handled, count := Walk(task, batch, answers, totals, resumed);
  }

  method Walk(head: Task?, ghost batch: seq<Task>, ghost answers: seq<Answer>, ghost totals: seq<Frees>, ghost resumed: set<Coroutine?>)
    returns (ghost handled: seq<Task>, count: nat)
    requires |answers| == |totals| == |batch| && head == if batch == [] then null else batch[0]
    requires (forall i, j :: 0 <= i < j < |batch| ==> batch[i] != batch[j]) && Pending(batch, answers, totals)
    requires forall co: Coroutine :: co in resumed <==> Resumed(co, answers)
    modifies batch, resumed`stack, resumed`hooked
    ensures handled == batch && count == |batch|
    ensures forall i :: 0 <= i < |batch| ==> batch[i].frees == totals[i]
    ensures forall co: Coroutine :: co in resumed ==> co.stack == old(co.stack) + PushedTo(co, answers) && !co.hooked
  {
    hide HandlerPushes, Plus, BlocksOf, PushedTo, PushedBy, Resumed, Pending, Readable;
    var task := head;
    handled, count := [], 0;
    NothingPushed();
    while task != null
      invariant count == |handled| <= |batch| && handled == batch[..count]
      invariant task == if count < |batch| then batch[count] else null
      invariant Pending(batch[count..], answers[count..], totals[count..])
      invariant forall i :: 0 <= i < count ==> batch[i].frees == totals[i]
      invariant forall co: Coroutine :: co in resumed ==> co.stack == old(co.stack) + PushedTo(co, answers[..count])
      invariant forall co: Coroutine :: co in resumed && Resumed(co, answers[..count]) ==> !co.hooked
      decreases |batch| - count
    {
      var event := task;
      task := task.next;
      ghost var rest := batch[count..];
      PendingHead(rest, answers[count..], totals[count..]);
      PushedNext(answers, count);
      ResumedAt(answers, count);
      assert forall i :: 0 <= i < |rest[1..]| ==> rest[1..][i] != event;
      HandleOne(event, resumed);
      handled := handled + [event];
      count := count + 1;
      assert batch[count..] == rest[1..];
    }
    assert handled == batch && answers[..count] == answers;
  }

  lemma NothingPushed()
    ensures forall co :: PushedTo(co, []) == [] && !Resumed(co, [])
  {
  }

  lemma ResumedAt(answers: seq<Answer>, k: nat)
    requires k < |answers|
    ensures forall co: Coroutine :: answers[k].co == co && !answers[k].isAbort ==> Resumed(co, answers)
  {
  }

  // ----- the echo runtimes -----

  /** What is in the queue when `unload` has been called: calls, then the sentinel. */
  ghost predicate EndsWithSentinel(nodes: seq<Task>) {
    && nodes != [] && !nodes[|nodes| - 1].hasCtx
    && forall i :: 0 <= i < |nodes| - 1 ==> nodes[i].hasCtx
  }

  ghost predicate Apart(ts: seq<Task>, us: seq<Task>) {
    forall t :: t in ts ==> t !in us
  }

  /** A request as Lua leaves it: the string, its terminator and its length, or nothing. */
  ghost predicate FromLua(t: Task, req: Request)
    reads t`req, t`reqLen
  {
    t.req == RequestBuffer(req) && t.reqLen == RequestLength(req)
  }

  /** The two echoes: Go, with what its malloc(0) returns, and Rust. */
  datatype Echo = Go(z: Buffer) | Rust

  /** What the Rust echo is not made for: strdup of the null pointer. */
  predicate CanEcho(e: Echo, req: Request) {
    e.Rust? ==> req.Text?
  }

  function EchoOf(e: Echo, req: Request): Reply
    requires CanEcho(e, req)
  {
    match e case Go(z) => GoEcho(req, z) case Rust => RustEcho(req.s)
  }

  /** What an echo does with a task: get the request, copy it, respond. */
  method Echoed(e: Echo, task: Task, done: TaskList, ghost req: Request)
    requires FromLua(task, req) && CanEcho(e, req) && done.Valid() && task !in done.nodes
    modifies done, done.nodes`next, task`next, task`rc, task`rsp, task`rspLen
    ensures done.Valid() && done.nodes == old(done.nodes) + [task] && task.ItsReply() == EchoOf(e, req)
  {
    match e {
      case Go(z) =>
        var rlen := task.reqLen;
        var res := if rlen == 0 then z else At(task.req.bytes[..rlen]);
        Respond(done, task, 0, res, rlen);
      case Rust =>
        var res := At(ReadCString(task.req.bytes).text + [NUL]);
        Respond(done, task, 0, res, 0);
    }
  }

  lemma NodesDiffer(tq: TaskQueue)
    requires tq.Valid()
    ensures forall i, j :: 0 <= i < j < |tq.list.nodes| ==> tq.list.nodes[i] != tq.list.nodes[j]
  {
  }

  /** One turn of an echo's loop: poll, get the request, copy it, respond. */
  method EchoTurn(e: Echo, tq: TaskQueue, done: TaskList, ghost req: Request) returns (more: bool)
    requires tq.Valid() && done.Valid() && done != tq.list && tq.list.nodes != []
    requires Apart(tq.list.nodes, done.nodes)
    requires tq.list.nodes[0].hasCtx ==> FromLua(tq.list.nodes[0], req) && CanEcho(e, req)
    modifies tq, tq.list, done, done.nodes`next
    modifies tq.list.nodes[..1]`next, tq.list.nodes[..1]`rc, tq.list.nodes[..1]`rsp, tq.list.nodes[..1]`rspLen
    modifies (if tq.list.nodes[0].hasCtx then [] else tq.list.nodes[..1])`frees
    ensures more == old(tq.list.nodes[0]).hasCtx
    ensures tq.list.nodes == old(tq.list.nodes)[1..] && tq.Valid() && Apart(tq.list.nodes, done.nodes)
    ensures tq.frees == old(tq.frees) + if more then 0 else 1
    ensures done.Valid() && done.nodes == old(done.nodes) + if more then [old(tq.list.nodes[0])] else []
    ensures more ==> CanEcho(e, req) && old(tq.list.nodes[0]).ItsReply() == EchoOf(e, req)
    ensures tq.Model() == BoundedFifo.Unlink(Enter(old(tq.Model())))
  {
    hide TaskQueue.Valid, TaskList.Valid, EchoOf, CanEcho, FromLua;
    ghost var head, rest := tq.list.nodes[0], tq.list.nodes[1..];
    NodesDiffer(tq);
    assert head in tq.list.nodes && head !in done.nodes;
    forall i | 0 <= i < |rest| ensures rest[i] != head && rest[i] !in done.nodes {
      assert rest[i] == tq.list.nodes[i + 1] && rest[i] in tq.list.nodes;
    }
    var task := tq.Poll();
    assert done.Valid();
    if task == null {
      return false;
    }
    Echoed(e, task, done, req);
    return true;
  }

  /** An echo's loop after unload: it answers exactly the calls that were queued, in order, each
      with its own request, and its last poll frees the sentinel and the queue. */
  method EchoLoop(e: Echo, tq: TaskQueue, done: TaskList, ghost reqs: seq<Request>)
    requires tq.Valid() && done.Valid() && done != tq.list && EndsWithSentinel(tq.list.nodes)
    requires Apart(tq.list.nodes, done.nodes)
    requires |reqs| == |tq.list.nodes| - 1
    requires forall i :: 0 <= i < |reqs| ==> FromLua(tq.list.nodes[i], reqs[i]) && CanEcho(e, reqs[i])
    modifies tq, tq.list, done, done.nodes`next
    modifies tq.list.nodes[|reqs|..]`frees, tq.list.nodes`next, tq.list.nodes`rc, tq.list.nodes`rsp, tq.list.nodes`rspLen
    ensures tq.list.nodes == [] && tq.frees == old(tq.frees) + 1
    ensures done.Valid() && done.nodes == old(done.nodes) + old(tq.list.nodes)[..|reqs|]
    ensures forall i :: 0 <= i < |reqs| ==>
              var t := old(tq.list.nodes)[i];
              AnswerOf(t) == Answer(old(tq.list.nodes[i].co), old(tq.list.nodes[i].isAbort), EchoOf(e, reqs[i])) && t.frees == old(t.frees)
  {
    hide EchoOf, CanEcho, FromLua, Task.ItsReply, TaskQueue.Valid, TaskList.Valid, TaskQueue.Model;
    ghost var queued := tq.list.nodes;
    NodesDiffer(tq);
    ghost var before := done.nodes;
    ghost var k := 0;
    while true
      invariant 0 <= k <= |reqs| && tq.Valid() && done.Valid() && Apart(tq.list.nodes, done.nodes)
      invariant tq.list.nodes == queued[k..] && done.nodes == before + queued[..k]
      invariant tq.frees == old(tq.frees)
      invariant forall i :: k <= i < |reqs| ==> FromLua(queued[i], reqs[i])
      invariant forall i :: 0 <= i < k ==> queued[i].ItsReply() == EchoOf(e, reqs[i])
      decreases |queued| - k
    {
      var more := EchoTurn(e, tq, done, if k < |reqs| then reqs[k] else NoRequest);
      if !more {
        break;
      }
      k := k + 1;
    }
  }
}
