/** A run of the whole exchange in which everything happens once: a call goes out and its echo comes
    back, then the runtime is unloaded and its queue freed.  No action is enabled in vain. */
module FullRound {
  import opened Options
  import opened Replies
  import opened BoundedFifo
  import C = Calls
  import Q = RequestQueue
  import D = DoneQueue
  import R = Registries
  import opened Exchange
  import E = ExchangeTheorems

  const REQUEST: Request := Text("hi")
  const ANSWER: Reply := Reply(0, At("hi"), 2)
  const P: Q.Tid := 7   // the polling thread

  function Task(place: C.Place, reply: Option<Reply>): C.Task {
    C.Task(0, 0, REQUEST, place, reply, false)
  }

  function Calls(task: C.Task, co: C.Co, posting: Option<TaskId>, frees: multiset<C.Block>, log: seq<C.Resumption>): C.Table {
    C.Table(map[0 := task], map[0 := co], posting, frees, log, 0)
  }

  const WAITING: C.Co := C.Co(C.Waiting(0), Some(0))
  const RUNNING: C.Co := C.Co(C.Running, None)
  const FREED: multiset<C.Block> := multiset{C.Node(0), C.Req(0), C.Rsp(0)}
  const LOG: seq<C.Resumption> := [C.Resumption(0, 0, HandlerPushes(ANSWER))]
  const AFTERWARDS: C.Table := Calls(Task(C.Freed(C.Resumed), Some(ANSWER)), RUNNING, None, FREED, LOG)
  const DRAINED: D.Done := D.Done([], {}, false, D.Draining, [], [0], [0])

  const LOADED: R.Registry<RuntimeId, QueueId> := R.Registry(map[0 := R.Fields(Some("lib"), false, Some(0))], map["lib" := 0])
  const UNLOADED: R.Registry<RuntimeId, QueueId> := R.Registry(map[0 := R.Fields(None, true, None)], map[])

  function Queue(waiting: int, items: seq<Q.Item>, holder: Q.Holder, accepted: seq<Q.Item>, returned: seq<Q.Item>): Q.Queue {
    Q.Queue(Fifo(items, waiting, 1), holder, {}, {}, {}, {}, {P}, 0, accepted, returned)
  }

  function State(calls: C.Table, registry: R.Registry<RuntimeId, QueueId>, u: Q.Queue, worker: Worker, held: set<TaskId>, done: D.Done): World {
    World(calls, registry, map[0 := u], worker, held, done, false)
  }

  /** `s'` comes after `s` by these actions. */
  ghost predicate Leads(s: World, acts: seq<Action>, s': World)
    decreases |acts|
  {
    if acts == [] then s == s' else Enabled(s, acts[0]) && Leads(Next(s, acts[0]), acts[1..], s')
  }

  lemma Two(s: World, a: Action, b: Action, s': World)
    requires Enabled(s, a) && Enabled(Next(s, a), b) && Next(Next(s, a), b) == s'
    ensures Leads(s, [a, b], s')
  {
    hide Enabled, Next;
    assert [a, b][1..] == [b] && [b][1..] == [];
    assert Leads(s', [], s');
    assert Leads(Next(s, a), [b], s');
  }

  lemma One(s: World, a: Action, s': World)
    requires Enabled(s, a) && Next(s, a) == s'
    ensures Leads(s, [a], s')
  {
    hide Enabled, Next;
    assert [a][1..] == [];
    assert Leads(s', [], s');
  }

  lemma {:induction false} ThenLeads(s: World, acts: seq<Action>, s': World, acts': seq<Action>, s'': World)
    requires Leads(s, acts, s') && Leads(s', acts', s'')
    ensures Leads(s, acts + acts', s'')
    decreases |acts|
  {
    hide Enabled, Next;
    if acts == [] {
      assert acts + acts' == acts';
    } else {
      ThenLeads(Next(s, acts[0]), acts[1..], s', acts', s'');
      assert (acts + acts')[1..] == acts[1..] + acts';
    }
  }

  lemma {:induction false} LeadsIsRun(states: seq<World>, acts: seq<Action>, more: seq<Action>, s: World)
    returns (states': seq<World>, acts': seq<Action>)
    requires E.IsRun(states, acts) && Leads(states[|acts|], more, s)
    ensures E.IsRun(states', acts') && acts' == acts + more && states'[|acts'|] == s
    decreases |more|
  {
    hide Enabled, Next;
    if more == [] {
      states', acts' := states, acts;
    } else {
      var next := Next(states[|acts|], more[0]);
      states', acts' := LeadsIsRun(states + [next], acts + [more[0]], more[1..], s);
      assert more == [more[0]] + more[1..];
    }
  }

  // ----- the life of the call -----

  lemma Accepts()
    ensures var c := Calls(Task(C.Created, None), C.Co(C.Running, Some(0)), Some(0), multiset{}, []);
            C.Enabled(c, C.Accept(0)) && C.Next(c, C.Accept(0)) == Calls(Task(C.Queued, None), C.Co(C.Running, Some(0)), Some(0), multiset{}, [])
  {
  }

  lemma Yields()
    ensures var c := Calls(Task(C.Queued, None), C.Co(C.Running, Some(0)), Some(0), multiset{}, []);
            C.Enabled(c, C.Yield(0)) && C.Next(c, C.Yield(0)) == Calls(Task(C.Queued, None), WAITING, None, multiset{}, [])
  {
  }

  lemma Takes()
    ensures var c := Calls(Task(C.Queued, None), WAITING, None, multiset{}, []);
            C.Enabled(c, C.Take(0)) && C.Next(c, C.Take(0)) == Calls(Task(C.InHand, None), WAITING, None, multiset{}, [])
  {
  }

  lemma Hands()
    ensures var c := Calls(Task(C.InHand, None), WAITING, None, multiset{}, []);
            C.Enabled(c, C.Hand(0)) && C.Next(c, C.Hand(0)) == Calls(Task(C.Held, None), WAITING, None, multiset{}, [])
  {
  }

  lemma Answers()
    ensures var c := Calls(Task(C.Held, None), WAITING, None, multiset{}, []);
            C.Enabled(c, C.Answer(0, ANSWER)) && C.Next(c, C.Answer(0, ANSWER)) == Calls(Task(C.Done, Some(ANSWER)), WAITING, None, multiset{}, [])
  {
  }

  lemma Batches()
    ensures var c := Calls(Task(C.Done, Some(ANSWER)), WAITING, None, multiset{}, []);
            C.Enabled(c, C.Batch([0])) && C.Next(c, C.Batch([0])) == Calls(Task(C.Batched, Some(ANSWER)), WAITING, None, multiset{}, [])
  {
  }

  lemma Handles()
    ensures var c := Calls(Task(C.Batched, Some(ANSWER)), WAITING, None, multiset{}, []);
            C.Enabled(c, C.Handle(0)) && C.Next(c, C.Handle(0)) == AFTERWARDS
  {
    assert multiset{C.Node(0)} + multiset{C.Req(0)} + multiset{C.Rsp(0)} == FREED;
  }

  // ----- the states on the way -----

  function Loaded(): World {
    World(C.Table(map[], map[0 := RUNNING], None, multiset{}, [], 0), LOADED, map[0 := Queue(0, [], Q.Free, [], [])], Idle, {}, D.INIT, false)
  }

  lemma ToLoaded()
    ensures Leads(INIT, [Spawn(0), Load(0, "lib", 0, 1, {P}, true)], Loaded())
  {
    Two(INIT, Spawn(0), Load(0, "lib", 0, 1, {P}, true), Loaded());
  }

  function Posted(): World {
    State(Calls(Task(C.Created, None), C.Co(C.Running, Some(0)), Some(0), multiset{}, []), LOADED,
          Queue(0, [], Q.WorkerHas(Q.Call(0), Q.Locked), [], []), Posting(0, Q.Call(0)), {}, D.INIT)
  }

  lemma ToPosted()
    ensures Leads(Loaded(), [BeginPost(0, 0, 0, REQUEST), OnQueue(0, Q.Lock(Q.Call(0)))], Posted())
  {
    Two(Loaded(), BeginPost(0, 0, 0, REQUEST), OnQueue(0, Q.Lock(Q.Call(0))), Posted());
  }

  function Appended(): World {
    State(Calls(Task(C.Queued, None), C.Co(C.Running, Some(0)), Some(0), multiset{}, []), LOADED,
          Queue(1, [Q.Call(0)], Q.WorkerHas(Q.Call(0), Q.Appended), [Q.Call(0)], []), Posting(0, Q.Call(0)), {}, D.INIT)
  }

  lemma ToAppended()
    ensures Leads(Posted(), [OnQueue(0, Q.Signal(Q.Nobody)), OnQueue(0, Q.Append)], Appended())
  {
    hide C.Next, C.Enabled, Calls;
    Accepts();
    assert [] + [Q.Call(0)] == [Q.Call(0)];
    Two(Posted(), OnQueue(0, Q.Signal(Q.Nobody)), OnQueue(0, Q.Append), Appended());
  }

  function Polling(): World {
    State(Calls(Task(C.Queued, None), WAITING, None, multiset{}, []), LOADED,
          Queue(0, [Q.Call(0)], Q.Checking(P), [Q.Call(0)], []), Idle, {}, D.INIT)
  }

  lemma ToPolling()
    ensures Leads(Appended(), [OnQueue(0, Q.Unlock), OnQueue(0, Q.Enter(P))], Polling())
  {
    hide C.Next, C.Enabled, Calls;
    Yields();
    Two(Appended(), OnQueue(0, Q.Unlock), OnQueue(0, Q.Enter(P)), Polling());
  }

  const QUIET: Q.Queue := Queue(0, [], Q.Free, [Q.Call(0)], [Q.Call(0)])

  function Polled(): World {
    State(Calls(Task(C.Held, None), WAITING, None, multiset{}, []), LOADED, QUIET, Idle, {0}, D.INIT)
  }

  function InHand(): World {
    State(Calls(Task(C.InHand, None), WAITING, None, multiset{}, []), LOADED,
          Queue(0, [], Q.Unlinked(P, Q.Call(0)), [Q.Call(0)], []), Idle, {}, D.INIT)
  }

  lemma ToInHand()
    ensures Leads(Polling(), [OnQueue(0, Q.Unlink(P))], InHand())
  {
    hide C.Next, C.Enabled, Calls;
    Takes();
    assert [Q.Call(0)][1..] == [];
    One(Polling(), OnQueue(0, Q.Unlink(P)), InHand());
  }

  lemma ToPolled()
    ensures Leads(InHand(), [OnQueue(0, Q.Return(P))], Polled())
  {
    hide C.Next, C.Enabled, Calls;
    Hands();
    assert [] + [Q.Call(0)] == [Q.Call(0)] && {} + {0} == {0};
    One(InHand(), OnQueue(0, Q.Return(P)), Polled());
  }

  function Notified(): World {
    State(Calls(Task(C.Done, Some(ANSWER)), WAITING, None, multiset{}, []), LOADED, QUIET, Idle, {},
          D.Done([0], {}, true, D.Idle, [], [0], []))
  }

  lemma ToNotified()
    ensures Leads(Polled(), [Respond(0, ANSWER), OnDone(D.Notify(0))], Notified())
  {
    hide C.Next, C.Enabled, Calls;
    Answers();
    assert [] + [0] == [0] && {} + {0} == {0} && {0} - {0} == {};
    Two(Polled(), Respond(0, ANSWER), OnDone(D.Notify(0)), Notified());
  }

  function Swapped(): World {
    State(Calls(Task(C.Batched, Some(ANSWER)), WAITING, None, multiset{}, []), LOADED, QUIET, Idle, {},
          D.Done([], {}, false, D.Draining, [0], [0], []))
  }

  lemma ToSwapped()
    ensures Leads(Notified(), [OnDone(D.Consume), OnDone(D.Swap)], Swapped())
  {
    hide C.Next, C.Enabled, Calls;
    Batches();
    Two(Notified(), OnDone(D.Consume), OnDone(D.Swap), Swapped());
  }

  function Handled(): World {
    State(AFTERWARDS, LOADED, QUIET, Idle, {}, DRAINED)
  }

  lemma ToHandled()
    ensures Leads(Swapped(), [Handle], Handled())
  {
    hide C.Next, C.Enabled, Calls;
    Handles();
    assert [0][1..] == [] && [] + [0] == [0];
    One(Swapped(), Handle, Handled());
  }

  function Unloading(): World {
    State(AFTERWARDS, UNLOADED, QUIET, Posting(0, Q.Sentinel), {}, DRAINED)
  }

  lemma ToUnloading()
    ensures Leads(Handled(), [BeginUnload(0)], Unloading())
  {
    One(Handled(), BeginUnload(0), Unloading());
  }

  function Signalled(): World {
    State(AFTERWARDS, UNLOADED, QUIET.(holder := Q.WorkerHas(Q.Sentinel, Q.Signalled)), Posting(0, Q.Sentinel), {}, DRAINED)
  }

  lemma ToSignalled()
    ensures Leads(Unloading(), [OnQueue(0, Q.Lock(Q.Sentinel)), OnQueue(0, Q.Signal(Q.Nobody))], Signalled())
  {
    Two(Unloading(), OnQueue(0, Q.Lock(Q.Sentinel)), OnQueue(0, Q.Signal(Q.Nobody)), Signalled());
  }

  function Sent(): World {
    State(AFTERWARDS, UNLOADED, Queue(1, [Q.Sentinel], Q.Free, [Q.Call(0), Q.Sentinel], [Q.Call(0)]), Idle, {}, DRAINED)
  }

  lemma ToSent()
    ensures Leads(Signalled(), [OnQueue(0, Q.Append), OnQueue(0, Q.Unlock)], Sent())
  {
    assert [Q.Call(0)] + [Q.Sentinel] == [Q.Call(0), Q.Sentinel] && [] + [Q.Sentinel] == [Q.Sentinel];
    Two(Signalled(), OnQueue(0, Q.Append), OnQueue(0, Q.Unlock), Sent());
  }

  function LastPoll(): World {
    State(AFTERWARDS, UNLOADED, Queue(0, [], Q.Unlinked(P, Q.Sentinel), [Q.Call(0), Q.Sentinel], [Q.Call(0)]), Idle, {}, DRAINED)
  }

  lemma ToLastPoll()
    ensures Leads(Sent(), [OnQueue(0, Q.Enter(P)), OnQueue(0, Q.Unlink(P))], LastPoll())
  {
    assert [Q.Sentinel][1..] == [];
    Two(Sent(), OnQueue(0, Q.Enter(P)), OnQueue(0, Q.Unlink(P)), LastPoll());
  }

  function Over(): World {
    State(AFTERWARDS, UNLOADED,
          Queue(0, [], Q.Free, [Q.Call(0), Q.Sentinel], [Q.Call(0), Q.Sentinel]).(exited := {P}, frees := 1), Idle, {}, DRAINED)
  }

  lemma ToOver()
    ensures Leads(LastPoll(), [OnQueue(0, Q.Return(P)), OnQueue(0, Q.Destroy(P))], Over())
  {
    assert [Q.Call(0)] + [Q.Sentinel] == [Q.Call(0), Q.Sentinel] && {} + {P} == {P} && {P} - {P} == {};
    Two(LastPoll(), OnQueue(0, Q.Return(P)), OnQueue(0, Q.Destroy(P)), Over());
  }

  // ----- the run -----

  lemma CallPart() returns (acts: seq<Action>)
    ensures Leads(INIT, acts, Swapped())
  {
    hide Leads, Enabled, Next;
    ToLoaded();
    ToPosted();
    ToAppended();
    ToPolling();
    ToInHand();
    ToPolled();
    ToNotified();
    ToSwapped();
    acts := Join(INIT, [Spawn(0), Load(0, "lib", 0, 1, {P}, true)], Loaded(), [BeginPost(0, 0, 0, REQUEST), OnQueue(0, Q.Lock(Q.Call(0)))], Posted());
    acts := Join(INIT, acts, Posted(), [OnQueue(0, Q.Signal(Q.Nobody)), OnQueue(0, Q.Append)], Appended());
    acts := Join(INIT, acts, Appended(), [OnQueue(0, Q.Unlock), OnQueue(0, Q.Enter(P))], Polling());
    acts := Join(INIT, acts, Polling(), [OnQueue(0, Q.Unlink(P))], InHand());
    acts := Join(INIT, acts, InHand(), [OnQueue(0, Q.Return(P))], Polled());
    acts := Join(INIT, acts, Polled(), [Respond(0, ANSWER), OnDone(D.Notify(0))], Notified());
    acts := Join(INIT, acts, Notified(), [OnDone(D.Consume), OnDone(D.Swap)], Swapped());
  }

  lemma Join(s: World, acts: seq<Action>, s': World, more: seq<Action>, s'': World) returns (acts': seq<Action>)
    requires Leads(s, acts, s') && Leads(s', more, s'')
    ensures Leads(s, acts', s'')
  {
    ThenLeads(s, acts, s', more, s'');
    acts' := acts + more;
  }

  lemma UnloadPart() returns (acts: seq<Action>)
    ensures Leads(Swapped(), acts, Over())
  {
    hide Leads, Enabled, Next;
    ToHandled();
    ToUnloading();
    ToSignalled();
    ToSent();
    ToLastPoll();
    ToOver();
    acts := Join(Swapped(), [Handle], Handled(), [BeginUnload(0)], Unloading());
    acts := Join(Swapped(), acts, Unloading(), [OnQueue(0, Q.Lock(Q.Sentinel)), OnQueue(0, Q.Signal(Q.Nobody))], Signalled());
    acts := Join(Swapped(), acts, Signalled(), [OnQueue(0, Q.Append), OnQueue(0, Q.Unlock)], Sent());
    acts := Join(Swapped(), acts, Sent(), [OnQueue(0, Q.Enter(P)), OnQueue(0, Q.Unlink(P))], LastPoll());
    acts := Join(Swapped(), acts, LastPoll(), [OnQueue(0, Q.Return(P)), OnQueue(0, Q.Destroy(P))], Over());
  }

  /** It happens: from the initial state, a coroutine posts "hi", gets `true`, "hi" and nil, can run
      on, and the runtime's queue is freed with nothing left in it. */
  lemma CallGoesRound() returns (states: seq<World>, acts: seq<Action>)
    ensures E.IsRun(states, acts)
    ensures var s := states[|acts|];
            && s.calls.log == [C.Resumption(0, 0, Pushed([LuaBool(true), LuaString("hi"), LuaNil]))]
            && s.calls.cos == map[0 := C.Co(C.Running, None)] && s.registry.byKey == map[]
            && 0 in s.queues && s.queues[0].frees == 1 && s.queues[0].fifo.items == [] && s.held == {} && s.done.list == []
  {
    hide Leads, Enabled, Next;
    var calling := CallPart();
    var unloading := UnloadPart();
    var all := Join(INIT, calling, Swapped(), unloading, Over());
    states, acts := LeadsIsRun([INIT], [], all, Over());
    WhatIsOver();
  }

  lemma WhatIsOver()
    ensures var s := Over();
            && s.calls.log == [C.Resumption(0, 0, Pushed([LuaBool(true), LuaString("hi"), LuaNil]))]
            && s.calls.cos == map[0 := C.Co(C.Running, None)] && s.registry.byKey == map[]
            && 0 in s.queues && s.queues[0].frees == 1 && s.queues[0].fifo.items == [] && s.held == {} && s.done.list == []
  {
    assert "hi"[..2] == "hi";
  }
}
