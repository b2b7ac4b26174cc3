/** The C functions, the Lua functions and an echo put together in place: what a coroutine posts
    comes back to that very coroutine. */
module Roundtrip {
  import opened CStrings
  import opened Replies
  import opened TaskLists
  import opened TaskExchange
  import opened QueueSets
  import opened LuaRuntimes
  import G = Registries

  /** Whether the handler can make something of the answer. */
  predicate Sound(e: Echo, req: Request)
    requires CanEcho(e, req)
  {
    HandlerPushes(EchoOf(e, req)).Pushed?
  }

  /** The answers an echo gives to these tasks. */
  ghost function Echoes(e: Echo, ts: seq<Task>, reqs: seq<Request>): (answers: seq<Answer>)
    requires |reqs| <= |ts| && forall i :: 0 <= i < |reqs| ==> CanEcho(e, reqs[i])
    reads ts
  {
    seq(|reqs|, i requires 0 <= i < |reqs| reads ts => Answer(ts[i].co, ts[i].isAbort, EchoOf(e, reqs[i])))
  }

  ghost function Callers(ts: seq<Task>, n: nat): set<Coroutine?>
    requires n <= |ts|
    reads ts
  {
    ToResume(ts[..n])
  }

  /** After unload an echo serves all that is queued and the worker drains the done list: each
      caller that was not aborted meanwhile gets the echoes of its own requests, in the order of
      its posts, and every task is freed with all its buffers. */
  method ServeAndDrain(e: Echo, tq: TaskQueue, done: TaskList, ghost reqs: seq<Request>)
    requires tq.Valid() && done.Valid() && done != tq.list && done.nodes == [] && EndsWithSentinel(tq.list.nodes)
    requires |reqs| == |tq.list.nodes| - 1
    requires forall i :: 0 <= i < |reqs| ==> FromLua(tq.list.nodes[i], reqs[i])
    requires forall i :: 0 <= i < |reqs| ==> CanEcho(e, reqs[i])
    requires forall i :: 0 <= i < |reqs| ==> Sound(e, reqs[i])
    requires forall i :: 0 <= i < |reqs| ==> tq.list.nodes[i].isAbort || tq.list.nodes[i].co != null
    modifies tq, tq.list, tq.list.nodes, done
    modifies Callers(tq.list.nodes, |reqs|)`stack, Callers(tq.list.nodes, |reqs|)`hooked
    ensures tq.list.nodes == [] && tq.frees == old(tq.frees) + 1 && done.nodes == []
    ensures forall co: Coroutine :: co in old(Callers(tq.list.nodes, |reqs|)) ==>
              co.stack == old(co.stack) + PushedTo(co, old(Echoes(e, tq.list.nodes, reqs))) && !co.hooked
  {
    hide EchoOf, CanEcho, FromLua, TaskQueue.Valid, TaskList.Valid, HandlerPushes, PushedTo;
    ghost var calls := tq.list.nodes[..|reqs|];
    ghost var answers := Echoes(e, tq.list.nodes, reqs);
    EchoLoop(e, tq, done, reqs);
    assert done.nodes == calls;
    assert Answers(calls) == answers;
    var handled, count := Drain(done);
  }

  /** An echo's turn and the worker's drain for one call. */
  method EchoAndDrain(e: Echo, tq: TaskQueue, done: TaskList, co: Coroutine, ghost task: Task, ghost s: string)
    requires tq.Valid() && tq.list.nodes == [task] && done.Valid() && done.nodes == [] && done != tq.list
    requires FromLua(task, Text(s)) && task.hasCtx && task.co == co && !task.isAbort
    requires e.Go? ==> s != "" && MallocZero(e.z)
    modifies tq, tq.list, task, done, co`stack, co`hooked
    ensures co.stack == old(co.stack) + [LuaBool(true), LuaString(if e.Go? then s else BeforeNul(s)), LuaNil]
    ensures !co.hooked && tq.list.nodes == [] && done.nodes == []
  {
    hide TaskQueue.Valid, TaskList.Valid, HandlerPushes, EchoOf, CanEcho;
    EchoIsSound(e, s);
    var more := EchoTurn(e, tq, done, Text(s));
    assert done.nodes == [task];
    ghost var answers := Answers(done.nodes);
    assert answers == [Answer(co, false, EchoOf(e, Text(s)))];
    PushedToOne(co, EchoOf(e, Text(s)));
    assert task in done.nodes;
    var handled, count := Drain(done);
  }

  lemma PushedToOne(co: Coroutine, reply: Reply)
    requires HandlerPushes(reply).Pushed?
    ensures PushedTo(co, [Answer(co, false, reply)]) == HandlerPushes(reply).values
  {
    var answers := [Answer(co, false, reply)];
    assert answers[..|answers| - 1] == [];
  }

  /** A call all the way round: with nothing else in the way, the coroutine that posts a string
      finds `true`, the echo's text and nil on its own stack, and no hook. */
  method CallAndReturn(ghost loader: Loader, rt: Runtime, co: Coroutine, s: string, e: Echo, done: TaskList)
    requires loader.Valid() && rt in loader.made && !rt.finished && rt.tq.value.list.nodes == []
    requires rt.tq.value.waiting < rt.tq.value.maxQueue
    requires done.Valid() && done.nodes == [] && done != rt.tq.value.list
    requires e.Go? ==> s != "" && MallocZero(e.z)
    modifies co, rt.tq.value, rt.tq.value.list, done
    ensures co.stack == old(co.stack) + [LuaBool(true), LuaString(if e.Go? then s else BeforeNul(s)), LuaNil]
    ensures !co.hooked && rt.tq.value.list.nodes == [] && done.nodes == []
  {
    hide TaskQueue.Valid, TaskList.Valid, HandlerPushes, Separate, G.Inv, Loader.Model, BeforeNul;
    var tq := rt.tq.value;
    var r := Post(loader, rt, co, Text(s));
    assert tq.list.nodes == [co.data];
    EchoAndDrain(e, tq, done, co, co.data, s);
  }

  lemma EchoIsSound(e: Echo, s: string)
    requires e.Go? ==> s != "" && MallocZero(e.z)
    ensures CanEcho(e, Text(s))
    ensures HandlerPushes(EchoOf(e, Text(s))) ==
              Pushed([LuaBool(true), LuaString(if e.Go? then s else BeforeNul(s)), LuaNil])
  {
    match e
    case Go(z) => GoEchoValue(s, z);
    case Rust => RustEchoValue(s);
  }
}
