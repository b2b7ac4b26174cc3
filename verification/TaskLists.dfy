/** The C side in place: task nodes that are linked into one list after the other through the
    same `next` field, a tail pointer that points at a slot, and the functions of
    ngx_http_lua_ffi.c over them.  Each method is the code between a lock and its unlock;
    RequestQueue and DoneQueue say how these pieces interleave. */
module TaskLists {
  import opened Replies
  import opened BoundedFifo

  const NGX_OK: int := 0
  const NGX_ERROR: int := -1

  /** A coroutine context: its Lua stack, and the cleanup hook with the data it is given. */
  class Coroutine {
    var stack: seq<LuaValue>
    var hooked: bool
    var data: Task?

    constructor ()
      ensures stack == [] && !hooked && data == null
    {
      stack, hooked, data := [], false, null;
    }
  }

  /** How often the blocks of a task were freed: its node, its request, its response. */
  datatype Frees = Frees(node: nat, req: nat, rsp: nat)

  const NOTHING_FREED: Frees := Frees(0, 0, 0)

  function Plus(f: Frees, g: Frees): Frees {
    Frees(f.node + g.node, f.req + g.req, f.rsp + g.rsp)
  }

  /** One block for the node, and one for each buffer that is there. */
  function BlocksOf(req: Buffer, rsp: Buffer): Frees {
    Frees(1, if req.At? then 1 else 0, if rsp.At? then 1 else 0)
  }

  /** A thread task with its ffi context; the sentinel of unload has no context. */
  class Task {
    var next: Task?
    var active: bool
    const hasCtx: bool
    const co: Coroutine?
    var rc: int
    var req: Buffer
    var reqLen: int
    var rsp: Buffer
    var rspLen: int
    var isAbort: bool
    ghost var frees: Frees

    /** calloc'd: all fields zero. */
    constructor (hasCtx: bool, co: Coroutine?)
      ensures next == null && !active && this.hasCtx == hasCtx && this.co == co
      ensures rc == 0 && req == Null && reqLen == 0 && rsp == Null && rspLen == 0 && !isAbort && frees == NOTHING_FREED
    {
      next, active, this.hasCtx, this.co := null, false, hasCtx, co;
      rc, req, reqLen, rsp, rspLen, isAbort := 0, Null, 0, Null, 0, false;
      frees := NOTHING_FREED;
    }

    function ItsReply(): Reply
      reads `rc, `rsp, `rspLen
    {
      Reply(rc, rsp, rspLen)
    }

    /** Frees the request and the response if they are there, and the node; what was in them must
        not be used again. */
    method Free()
      modifies `frees, `req, `rsp, `next
      ensures frees == Plus(old(frees), BlocksOf(old(req), old(rsp)))
      ensures req == Null && rsp == Null && next == null
    {
      if req.At? {
        frees := frees.(req := frees.req + 1);
        req := Null;
      }
      if rsp.At? {
        frees := frees.(rsp := frees.rsp + 1);
        rsp := Null;
      }
      FreeNode();
    }

    /** `ngx_free` of the node alone. */
    method FreeNode()
      modifies `frees, `next
      ensures frees == old(frees).(node := old(frees).node + 1) && next == null
    {
      frees := frees.(node := frees.node + 1);
      next := null;
    }
  }

  /** Where the tail pointer points: at the head of the list, or at the `next` of a node. */
  datatype Slot = Head | NextOf(t: Task)

  class TaskList {
    var first: Task?
    var last: Slot
    ghost var nodes: seq<Task>

    ghost predicate Valid()
      reads this, nodes
    {
      && (forall i, j :: 0 <= i < j < |nodes| ==> nodes[i] != nodes[j])
      && first == (if nodes == [] then null else nodes[0])
      && last == (if nodes == [] then Head else NextOf(nodes[|nodes| - 1]))
      && (forall i {:trigger nodes[i].next} :: 0 <= i < |nodes| - 1 ==> nodes[i].next == nodes[i + 1])
      && (nodes != [] ==> nodes[|nodes| - 1].next == null)
    }

    constructor ()
      ensures Valid() && nodes == []
    {
      first, last, nodes := null, Head, [];
    }

    /** `*last = task; last = &task->next`, for a task whose `next` has been reset. */
    method Append(task: Task)
      requires Valid() && task !in nodes && task.next == null
      modifies this, nodes`next
      ensures Valid() && nodes == old(nodes) + [task]
    {
      match last {
        case Head => first := task;
        case NextOf(t) => t.next := task;
      }
      last := NextOf(task);
      nodes := nodes + [task];
    }

    /** Takes the head; its `next` is left as it is, pointing into the list. */
    method Unlink() returns (task: Task)
      requires Valid() && nodes != []
      modifies this
      ensures Valid() && task == old(nodes[0]) && nodes == old(nodes)[1..]
      ensures task.next == if nodes == [] then null else nodes[0]
    {
      task := first;
      assert nodes[0].next == if |nodes| > 1 then nodes[1] else null;
      first := task.next;
      nodes := nodes[1..];
      assert forall i :: 0 <= i < |nodes| ==> nodes[i] == old(nodes)[i + 1];
      if first == null {
        last := Head;
      }
    }

    /** `ngx_thread_pool_notify_inject`: whatever list the stale `next` still points into, the
        reset keeps that list's nodes out of this one. */
    method Inject(task: Task)
      requires Valid() && task !in nodes
      modifies this, nodes`next, task`next
      ensures Valid() && nodes == old(nodes) + [task]
    {
      task.next := null;
      Append(task);
    }

    /** nginx's handler swaps the whole list out; the chain hanging off the old head is intact. */
    method TakeAll() returns (head: Task?)
      requires Valid()
      modifies this
      ensures Valid() && nodes == []
      ensures head == if old(nodes) == [] then null else old(nodes)[0]
    {
      head := first;
      first, last, nodes := null, Head, [];
    }
  }

  class TaskQueue {
    const list: TaskList
    var waiting: int
    const maxQueue: int
    ghost var frees: nat

    /** Everything in the list was posted, so it is marked active. */
    ghost predicate Valid()
      reads this, list, list.nodes
    {
      list.Valid() && forall t :: t in list.nodes ==> t.active
    }

    /** The queue as the machine sees it. */
    ghost function Model(): Fifo<Task>
      reads this, list
    {
      Fifo(list.nodes, waiting, maxQueue)
    }

    constructor (maxQueue: int)
      ensures Valid() && Model() == Fifo([], 0, maxQueue) && frees == 0 && fresh(list)
    {
      list := new TaskList();
      waiting, this.maxQueue, frees := 0, maxQueue, 0;
    }

    /** `ngx_task_post` between lock and unlock.  A task that is active already, or a call that
        finds the queue full, leaves everything as it was. */
    method Post(task: Task) returns (rc: int)
      requires Valid()
      modifies this, list, list.nodes`next, task`active, task`next
      ensures Valid() && frees == old(frees)
      ensures rc == NGX_OK || rc == NGX_ERROR
      ensures rc == NGX_ERROR <==> old(task.active) || Refuses(old(Model()), task.hasCtx)
      ensures rc == NGX_OK ==> Model() == BoundedFifo.Append(old(Model()), task) && task.active
      ensures rc == NGX_ERROR ==> Model() == old(Model()) && task.active == old(task.active) && task.next == old(task.next)
      ensures rc == NGX_ERROR ==> forall t :: t in list.nodes ==> t.next == old(t.next)
    {
      if task.active {
        return NGX_ERROR;
      }
      if task.hasCtx && waiting >= maxQueue {
        return NGX_ERROR;
      }
      task.active := true;
      task.next := null;
      list.Append(task);
      waiting := waiting + 1;
      return NGX_OK;
    }

    /** What poll does under the mutex once the list is not empty, and after it: a call is
        returned with nothing of it changed; for the sentinel the node and the queue are freed and null is returned. */
    method Poll() returns (task: Task?)
      requires Valid() && list.nodes != []
      modifies this, list
      modifies (if list.nodes[0].hasCtx then [] else list.nodes[..1])`frees
      modifies (if list.nodes[0].hasCtx then [] else list.nodes[..1])`next
      ensures Model() == BoundedFifo.Unlink(Enter(old(Model())))
      ensures var t := old(list.nodes[0]);
              if t.hasCtx then
                task == t && frees == old(frees) && unchanged(t)
              else task == null && frees == old(frees) + 1 && t.frees == old(t.frees).(node := old(t.frees).node + 1)
      ensures Valid()
    {
      waiting := waiting - 1;
      var t := list.Unlink();
      if t.hasCtx {
        return t;
      }
      t.FreeNode();
      frees := frees + 1;
      return null;
    }
  }
}
