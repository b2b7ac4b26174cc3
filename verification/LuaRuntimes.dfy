/** The Lua side in place: the table of runtimes, and the `post` and `unload` of a runtime
    object.  What `libffi_init` returns is a parameter. */
module LuaRuntimes {
  import opened CStrings
  import opened Options
  import opened Replies
  import BoundedFifo
  import opened TaskLists
  import opened QueueSets
  import G = Registries

  class Runtime {
    var finished: bool
    var key: Option<string>
    var tq: Option<TaskQueue>

    constructor (key: string, tq: TaskQueue)
      ensures !finished && this.key == Some(key) && this.tq == Some(tq)
    {
      finished, this.key, this.tq := false, Some(key), Some(tq);
    }
  }

  const DEFAULT_MAX_QUEUE: int := 65536

  /** What a call to a runtime comes to at once: an error for Lua, or a coroutine that yields. */
  datatype Outcome = Failed(message: string) | Yielded

  /** `post`, with an optional request, by a runtime of this loader. */
  method Post(ghost loader: Loader, rt: Runtime, co: Coroutine, req: Request) returns (r: Outcome)
    requires loader.Valid()
    requires rt in loader.made
    modifies if rt.finished then {} else {co, rt.tq.value, rt.tq.value.list}
    modifies (if rt.finished then [] else rt.tq.value.list.nodes)`next
    ensures loader.Valid()
    ensures loader.Model() == old(loader.Model())
    ensures rt.finished ==> r == Failed("task queue is finished")
    ensures !rt.finished ==>
              var q := rt.tq.value;
              && q.Valid() && q.frees == old(q.frees) && co.stack == old(co.stack)
              && co.hooked && co.data != null && fresh(co.data) && co.data.co == co && co.data.hasCtx && !co.data.isAbort
              && (r.Failed? <==> old(q.waiting) >= q.maxQueue)
              && (r.Failed? ==> r.message == "post failed, queue full" && q.Model() == old(q.Model()) && co.data.frees == BlocksOf(RequestBuffer(req), Null))
              && (r.Yielded? ==> q.Model() == BoundedFifo.Append(old(q.Model()), co.data)
                                 && co.data.req == (if req.Text? then At(req.s + ['\0']) else Null)
                                 && co.data.reqLen == (if req.Text? then |req.s| else 0)
                                 && co.data.ItsReply() == Reply(0, Null, 0) && co.data.frees == NOTHING_FREED)
  {
    hide G.Inv, Separate, TaskQueue.Valid, Loader.Model, Loader.Queues;
    if rt.finished {
      return Failed("task queue is finished");
    }
    loader.QueueOf(rt);
    var buf, bufLen := Null, 0;
    if req.Text? {
      bufLen := |req.s|;
      buf := At(req.s + [NUL]);
    }
    var ret := PostAmong(loader.Queues(), co, rt.tq.value, buf, bufLen);
    if ret != NGX_OK {
      return Failed("post failed, queue full");
    }
    return Yielded;
  }

  /** A runtime object with a queue of its own. */
  method NewRuntime(ghost qs: set<TaskQueue>, key: string, limit: int) returns (nffi: Runtime, tq: TaskQueue)
    requires Separate(qs)
    ensures fresh(nffi) && !nffi.finished && nffi.key == Some(key) && nffi.tq == Some(tq)
    ensures fresh(tq) && tq.Valid() && tq.Model() == BoundedFifo.Fifo([], 0, limit)
    ensures Separate(qs) && Separate(qs + {tq})
  {
    hide Separate, TaskQueue.Valid;
    tq := CreateAmong(qs, limit);
    nffi := new Runtime(key, tq);
    SubsetIsSeparate(qs + {tq}, qs);
  }

  class Loader {
    var runtimes: map<string, Runtime>
    ghost var made: set<Runtime>   // every runtime object ever registered

    /** The table as a value. */
    ghost function Model(): G.Registry<Runtime, TaskQueue>
      reads this, made
    {
      G.Registry(map r | r in made :: G.Fields(r.key, r.finished, r.tq), runtimes)
    }

    /** The queues of the runtimes that are not finished. */
    ghost function Queues(): set<TaskQueue>
      reads this, made
    {
      set r | r in made && r.tq.Some? :: r.tq.value
    }

    ghost predicate Valid()
      reads this, made, Queues(), (set q | q in Queues() :: q.list), (set q, i | q in Queues() && 0 <= i < |q.list.nodes| :: q.list.nodes[i])
    {
      && (forall r :: r in made ==> (r.finished <==> r.tq.None?))
      && G.Inv(Model()) && Separate(Queues())
    }

    constructor ()
      ensures Valid() && made == {} && runtimes == map[]
    {
      runtimes, made := map[], {};
    }

    /** `was` is the table, so far as the runtimes in it go. */
    ghost predicate Agrees(was: G.Registry<Runtime, TaskQueue>, rs: set<Runtime>)
      reads this, rs
    {
      rs <= was.runtimes.Keys && forall r :: r in rs ==> was.runtimes[r] == G.Fields(r.key, r.finished, r.tq)
    }

    lemma QueueOf(rt: Runtime)
      requires rt in made && rt.tq.Some?
      ensures rt.tq.value in Queues()
    {
    }

    lemma ModelAgrees()
      ensures Model().runtimes.Keys == made && Model().byKey == runtimes && Agrees(Model(), made)
    {
    }

    lemma ModelAfterLoad(was: G.Registry<Runtime, TaskQueue>, rs: set<Runtime>, rt: Runtime, key: string, tq: TaskQueue)
      requires was.runtimes.Keys == rs && Agrees(was, rs) && made == rs + {rt} && runtimes == was.byKey[key := rt]
      requires rt !in rs && rt.key == Some(key) && !rt.finished && rt.tq == Some(tq)
      ensures Model() == G.Register(was, rt, key, tq)
    {
      assert Model().runtimes == was.runtimes[rt := G.Fields(Some(key), false, Some(tq))];
    }

    lemma ModelAfterUnload(was: G.Registry<Runtime, TaskQueue>, rt: Runtime)
      requires was.runtimes.Keys == made && rt in made && Agrees(was, made - {rt}) && !was.runtimes[rt].finished
      requires rt.key.None? && rt.finished && rt.tq.None?
      requires runtimes == if was.runtimes[rt].key.Some? then was.byKey - {was.runtimes[rt].key.value} else was.byKey
      ensures Model() == G.Unload(was, rt)
    {
      assert Model().runtimes == was.runtimes[rt := G.Fields(None, true, None)];
    }

    /** Puts a new runtime into the table. */
    method Enrol(rt: Runtime, key: string, tq: TaskQueue)
      requires Valid() && key !in runtimes && rt !in made
      requires !rt.finished && rt.key == Some(key) && rt.tq == Some(tq) && tq !in Queues() && Separate(Queues() + {tq})
      modifies this
      ensures Valid() && Model() == G.Register(old(Model()), rt, key, tq)
    {
      hide G.Inv, Separate, Model;
      ModelAgrees();
      ghost var was, qs, rs := Model(), Queues(), made;
      NotOwned(tq);
      G.RegisterKeepsInv(was, rt, key, tq);
      runtimes := runtimes[key := rt];
      made := made + {rt};
      ModelAfterLoad(was, rs, rt, key, tq);
      assert Queues() == qs + {tq};
    }

    lemma NotOwned(tq: TaskQueue)
      requires tq !in Queues()
      ensures !G.Owned(Model(), tq)
    {
    }

    /** `ngx.load_ffi`: the registered runtime if there is one; otherwise a fresh runtime with a
        fresh queue, registered if the library's init returned 0, and nothing but that code if
        it did not. */
    method LoadFfi(lib: string, cfg: Option<string>, maxQueue: Option<int>, initRc: int)
      returns (rt: Option<Runtime>, rc: int)
      requires Valid()
      modifies this
      ensures Valid()
      ensures var key := G.Key(lib, cfg);
              if key in old(runtimes) then rt == Some(old(runtimes)[key]) && rc == 0 && Model() == old(Model())
              else if initRc == 0 then
                && rc == 0 && rt.Some? && fresh(rt.value) && rt.value.tq.Some? && fresh(rt.value.tq.value)
                && Model() == G.Register(old(Model()), rt.value, key, rt.value.tq.value)
                && rt.value.tq.value.Valid()
                && rt.value.tq.value.Model() == BoundedFifo.Fifo([], 0, if maxQueue.None? then 65536 else maxQueue.value)
              else rt == None && rc == initRc && Model() == old(Model())
    {
      hide G.Inv, Separate, Model;
      ghost var qs := Queues();
      var limit := DEFAULT_MAX_QUEUE;
      if maxQueue.Some? {
        limit := maxQueue.value;
      }
      var key := lib;
      if cfg.Some? {
        key := lib + [G.AMPERSAND] + cfg.value;
      }
      if key in runtimes {
        return Some(runtimes[key]), 0;
      }
      var nffi, tq := NewRuntime(qs, key, limit);
      if initRc == 0 {
        Enrol(nffi, key, tq);
        return Some(nffi), 0;
      }
      return None, initRc;
    }

    /** The first `unload` of a runtime: marks it, sends the sentinel to the end of its queue and
        forgets it. */
    method FirstUnload(rt: Runtime) returns (ghost sentinel: Task)
      requires Valid() && rt in made && !rt.finished && rt.tq.Some?
      modifies `runtimes, rt, rt.tq.value, rt.tq.value.list, rt.tq.value.list.nodes`next
      ensures Valid() && Model() == G.Unload(old(Model()), rt)
      ensures old(rt.tq.value).Valid() && !sentinel.hasCtx
      ensures old(rt.tq.value).Model() == BoundedFifo.Append(old(rt.tq.value.Model()), sentinel)
    {
      hide G.Inv, TaskQueue.Valid, Separate, Model;
      ModelAgrees();
      ghost var was, qs := Model(), Queues();
      G.UnloadKeepsInv(was, rt);
      rt.finished := true;
      var rc;
      rc, sentinel := FinishAmong(qs, rt.tq.value);
      Forget(rt, qs);
      ModelAfterUnload(was, rt);
      assert Queues() <= qs;
      SubsetIsSeparate(qs, Queues());
    }

    /** Takes the runtime out of the table. */
    method Forget(rt: Runtime, ghost qs: set<TaskQueue>)
      requires Separate(qs)
      modifies `runtimes, rt`tq, rt`key
      ensures Separate(qs) && rt.tq == None && rt.key == None
      ensures runtimes == if old(rt.key).Some? then old(runtimes) - {old(rt.key).value} else old(runtimes)
    {
      hide Separate;
      rt.tq := None;
      if rt.key.Some? {
        runtimes := runtimes - {rt.key.value};
      }
      rt.key := None;
    }

    /** `unload`: the sentinel goes out with the first call, however full the queue; any other
        call does nothing. */
    method Unload(rt: Runtime) returns (ghost sentinel: Option<Task>)
      requires Valid() && rt in made
      modifies `runtimes, rt
      modifies if rt.finished then {} else {rt.tq.value, rt.tq.value.list}
      modifies (if rt.finished then [] else rt.tq.value.list.nodes)`next
      ensures Valid() && Model() == G.Unload(old(Model()), rt)
      ensures if old(rt.finished) then sentinel == None && runtimes == old(runtimes) else
                var q := old(rt.tq.value);
                && q.Valid() && sentinel.Some? && !sentinel.value.hasCtx
                && q.Model() == BoundedFifo.Append(old(rt.tq.value.Model()), sentinel.value)
    {
      sentinel := None;
      if !rt.finished {
        ghost var s := FirstUnload(rt);
        sentinel := Some(s);
      }
    }
  }
}
