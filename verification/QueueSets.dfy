/** Several queues side by side: what the C functions do to one of them leaves every other as it is.
    Lua keeps one queue for each runtime. */
module QueueSets {
  import opened Replies
  import opened BoundedFifo
  import opened TaskLists
  import opened TaskExchange

  /** What is in each queue. */
  ghost function Nodes(qs: set<TaskQueue>): map<TaskQueue, seq<Task>>
    reads qs, (set q | q in qs :: q.list)
  {
    map q | q in qs :: q.list.nodes
  }

  /** No two queues share their list or a node. */
  ghost predicate Pairwise(nodes: map<TaskQueue, seq<Task>>) {
    forall q, q' :: q in nodes && q' in nodes && q != q' ==>
      q.list != q'.list && Apart(nodes[q], nodes[q'])
  }

  ghost predicate Separate(qs: set<TaskQueue>)
    reads qs, (set q | q in qs :: q.list), (set q, i | q in qs && 0 <= i < |q.list.nodes| :: q.list.nodes[i])
  {
    Pairwise(Nodes(qs)) && forall q :: q in qs ==> q.Valid()
  }

  lemma Grows(nodes: map<TaskQueue, seq<Task>>, q: TaskQueue, t: Task)
    requires Pairwise(nodes) && q in nodes && forall q' :: q' in nodes ==> t !in nodes[q']
    ensures Pairwise(nodes[q := nodes[q] + [t]])
  {
  }

  lemma SubsetIsSeparate(qs: set<TaskQueue>, qs': set<TaskQueue>)
    requires Separate(qs) && qs' <= qs
    ensures Separate(qs')
  {
  }

  lemma EmptyIsBeside(qs: set<TaskQueue>, q: TaskQueue)
    requires Separate(qs) && q.Valid() && q.list.nodes == [] && forall q' :: q' in qs ==> q'.list != q.list
    ensures Separate(qs + {q})
  {
    hide TaskQueue.Valid;
  }

  /** A new queue shares nothing with those there are. */
  method CreateAmong(ghost qs: set<TaskQueue>, maxQueue: int) returns (tq: TaskQueue)
    requires Separate(qs)
    ensures fresh(tq) && fresh(tq.list) && tq.Valid() && tq.Model() == Fifo([], 0, maxQueue)
    ensures Separate(qs + {tq})
  {
    hide Separate, TaskQueue.Valid;
    tq := new TaskQueue(maxQueue);
    EmptyIsBeside(qs, tq);
  }

  /** `ngx_http_lua_ffi_task_post` on one of them. */
  method PostAmong(ghost qs: set<TaskQueue>, co: Coroutine, tq: TaskQueue, req: Buffer, reqLen: int) returns (rc: int)
    requires Separate(qs) && tq in qs
    modifies co, tq, tq.list, tq.list.nodes`next
    ensures Separate(qs) && tq.Valid() && (rc == NGX_OK || rc == NGX_ERROR)
    ensures rc == NGX_ERROR <==> old(tq.waiting) >= tq.maxQueue
    ensures tq.frees == old(tq.frees)
    ensures co.hooked && co.data != null && fresh(co.data) && co.data.hasCtx && co.data.co == co && co.stack == old(co.stack)
    ensures !co.data.isAbort && co.data.ItsReply() == Reply(0, Null, 0)
    ensures co.data.frees == if rc == NGX_OK then NOTHING_FREED else BlocksOf(req, Null)
    ensures rc == NGX_OK ==> tq.Model() == Append(old(tq.Model()), co.data) && co.data.req == req && co.data.reqLen == reqLen
    ensures rc == NGX_ERROR ==> tq.Model() == old(tq.Model())
  {
    hide TaskQueue.Valid;
    ghost var was := Nodes(qs);
    rc := TaskPost(co, tq, req, reqLen);
    ghost var t: Task := co.data;
    forall q | q in qs && q != tq ensures q.Valid() && q.list.nodes == was[q] {
      assert old(q.Valid()) && Apart(was[q], was[tq]);
      assert forall i :: 0 <= i < |was[q]| ==> was[q][i] in was[q] && was[q][i] !in was[tq];
    }
    Grows(was, tq, t);
    assert Nodes(qs) == was || Nodes(qs) == was[tq := was[tq] + [t]];
  }

  /** `ngx_http_lua_ffi_task_finish` on one of them. */
  method FinishAmong(ghost qs: set<TaskQueue>, tq: TaskQueue) returns (rc: int, ghost sentinel: Task)
    requires Separate(qs) && tq in qs
    modifies tq, tq.list, tq.list.nodes`next
    ensures Separate(qs) && tq.Valid() && rc == NGX_OK && tq.frees == old(tq.frees) && sentinel.frees == NOTHING_FREED
    ensures fresh(sentinel) && !sentinel.hasCtx && tq.Model() == Append(old(tq.Model()), sentinel)
  {
    hide TaskQueue.Valid;
    ghost var was := Nodes(qs);
    rc, sentinel := TaskFinish(tq);
    forall q | q in qs && q != tq ensures q.Valid() && q.list.nodes == was[q] {
      assert old(q.Valid()) && Apart(was[q], was[tq]);
      assert forall i :: 0 <= i < |was[q]| ==> was[q][i] in was[q] && was[q][i] !in was[tq];
    }
    Grows(was, tq, sentinel);
    assert Nodes(qs) == was[tq := was[tq] + [sentinel]];
  }
}
