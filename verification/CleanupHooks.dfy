/** Where the cleanup hooks of coroutines point: at live tasks, until a post is refused. */
module CleanupHooks {
  import opened Options
  import opened Replies
  import C = Calls
  import Q = RequestQueue
  import opened Exchange
  import opened ExchangeInvariant
  import E = ExchangeTheorems

  /** Every installed hook points at a task that is not freed and that is its own coroutine's. */
  ghost predicate HooksLive(c: C.Table) {
    forall co :: co in c.cos && c.cos[co].hook.Some? ==>
      var t := c.cos[co].hook.value; t in c.tasks && c.tasks[t].co == co && !c.tasks[t].place.Freed?
  }

  lemma {:induction false} CallStepHooks(c: C.Table, ca: C.Action)
    requires C.CosOk(c) && C.TasksOk(c) && HooksLive(c) && C.Enabled(c, ca)
    ensures HooksLive(C.Next(c, ca)) <==> !ca.Refuse?
    ensures C.Next(c, ca).staleWrites == c.staleWrites
  {
    hide C.CosOk, C.TasksOk;
    if ca.Refuse? {
      RefusalLeavesHook(c, ca.t);
    } else if ca.Handle? || ca.Abort? {
      EndKeepsHooks(c, ca);
    } else {
      OtherKeepsHooks(c, ca);
    }
  }

  lemma RefusalLeavesHook(c: C.Table, t: TaskId)
    requires C.TasksOk(c) && C.Enabled(c, C.Refuse(t))
    ensures !HooksLive(C.Next(c, C.Refuse(t)))
  {
    var co := c.tasks[t].co;
    assert C.Next(c, C.Refuse(t)).cos[co].hook == Some(t);
  }

  lemma OtherKeepsHooks(c: C.Table, ca: C.Action)
    requires HooksLive(c) && C.Enabled(c, ca) && !ca.Refuse? && !ca.Handle? && !ca.Abort?
    ensures HooksLive(C.Next(c, ca)) && C.Next(c, ca).staleWrites == c.staleWrites
  {
  }

  lemma EndKeepsHooks(c: C.Table, ca: C.Action)
    requires C.CosOk(c) && HooksLive(c) && C.Enabled(c, ca) && (ca.Handle? || ca.Abort?)
    ensures HooksLive(C.Next(c, ca)) && C.Next(c, ca).staleWrites == c.staleWrites
  {
  }

  predicate IsRefusal(a: Action) {
    a.OnQueue? && a.qa.Refuse?
  }

  /** A step leaves every hook live exactly when it is not the overflow branch of a post. */
  lemma HooksStayLiveIffNotRefused(s: World, a: Action)
    requires Inv(s) && Enabled(s, a) && HooksLive(s.calls)
    ensures HooksLive(Next(s, a).calls) <==> !IsRefusal(a)
    ensures Next(s, a).calls.staleWrites == s.calls.staleWrites
  {
    hide Inv, C.CosOk, C.TasksOk, HooksLive, Enabled, Next;
    InvCalls(s);
    StepKeepsInv(s, a);
    E.InvParts(Next(s, a));
    E.StepIsCallStep(s, a);
    RefusalIsRefuse(s, a);
    var ca := E.CallStep(s, a);
    if ca.Some? {
      CallStepHooks(s.calls, ca.value);
    }
  }

  lemma InvCalls(s: World)
    requires Inv(s)
    ensures C.CosOk(s.calls) && C.TasksOk(s.calls)
  {
  }

  lemma RefusalIsRefuse(s: World, a: Action)
    requires Enabled(s, a)
    ensures IsRefusal(a) <==> E.CallStep(s, a).Some? && E.CallStep(s, a).value.Refuse?
  {
  }

  /** As long as no post was refused, aborting a coroutine writes to a live task only. */
  lemma {:induction false} NoStaleWriteWithoutRefusal(states: seq<World>, acts: seq<Action>, n: nat)
    requires E.IsRun(states, acts) && n <= |acts|
    requires forall i :: 0 <= i < n ==> !IsRefusal(acts[i])
    ensures HooksLive(states[n].calls) && states[n].calls.staleWrites == 0
  {
    hide Inv, Enabled, Next;
    if n > 0 {
      NoStaleWriteWithoutRefusal(states, acts, n - 1);
      E.RunKeepsInv(states, acts, n - 1);
      HooksStayLiveIffNotRefused(states[n - 1], acts[n - 1]);
    }
  }

  /** A refused post leaves its coroutine's hook on the freed task: if that coroutine ends
      next, its cleanup writes there. */
  lemma RefusedHookWritesStale(states: seq<World>, acts: seq<Action>, n: nat, q: QueueId)
    requires E.IsRun(states, acts) && n < |states| && Enabled(states[n], OnQueue(q, Q.Refuse))
    ensures var s := states[n];
            var s1 := Next(s, OnQueue(q, Q.Refuse));
            var t := s.queues[q].holder.item.id;
            && s.queues[q].fifo.waiting >= s.queues[q].fifo.maxQueue
            && t in s.calls.tasks && s1.calls.frees[C.Node(t)] == 1
            && Enabled(s1, Abort(s.calls.tasks[t].co))
            && Next(s1, Abort(s.calls.tasks[t].co)).calls.staleWrites == s.calls.staleWrites + 1
  {
    hide Inv, C.Inv;
    var s := states[n];
    E.RunKeepsInv(states, acts, n);
    InvPosting(s);
    var t := s.queues[q].holder.item.id;
    RefusedThenAborted(s.calls, t);
  }

  lemma InvPosting(s: World)
    requires Inv(s)
    ensures C.Inv(s.calls) && WorkerOk(s.worker, s.queues) && PostingOk(s.calls, s.worker, s.queues)
  {
  }

  lemma RefusedThenAborted(c: C.Table, t: TaskId)
    requires C.Inv(c) && C.Enabled(c, C.Refuse(t))
    ensures var c1 := C.Next(c, C.Refuse(t));
            var co := c.tasks[t].co;
            && c1.frees[C.Node(t)] == 1 && C.Enabled(c1, C.Abort(co)) && C.Next(c1, C.Abort(co)).staleWrites == c.staleWrites + 1
  {
    assert C.FreedBlocks(c.tasks, c.frees, t);
  }

  // ----- exactly which aborts write to a freed task -----

  /** The action is the overflow branch for a call of `co`. */
  predicate RefusesCallOf(s: World, a: Action, co: CoId)
    requires Enabled(s, a)
  {
    IsRefusal(a) && var item := s.queues[a.q].holder.item;
    item.Call? && item.id in s.calls.tasks && s.calls.tasks[item.id].co == co
  }

  /** The action gives `co` a new hook, or ends it. */
  predicate ResetsHook(a: Action, co: CoId) {
    (a.BeginPost? || a.Abort?) && a.co == co
  }

  /** Some call of `co` was refused, and `co` has neither posted again nor ended since. */
  ghost predicate LeftDangling(states: seq<World>, acts: seq<Action>, n: nat, co: CoId)
    requires E.IsRun(states, acts) && n <= |acts|
  {
    exists j :: 0 <= j < n && RefusesCallOf(states[j], acts[j], co) && forall k :: j < k < n ==> !ResetsHook(acts[k], co)
  }

  /** The hook of `co` points at a task that was refused. */
  predicate Dangles(c: C.Table, co: CoId) {
    co in c.cos && c.cos[co].hook.Some? && C.At(c, c.cos[co].hook.value, C.Freed(C.Refused))
  }

  lemma CallStepDangles(c: C.Table, ca: C.Action, co: CoId)
    requires C.CosOk(c) && C.TasksOk(c) && C.Enabled(c, ca)
    ensures Dangles(C.Next(c, ca), co) <==>
              || (ca.Refuse? && c.tasks[ca.t].co == co)
              || (Dangles(c, co) && !((ca.Create? || ca.Abort?) && ca.co == co))
  {
    if co in c.cos {
      assert C.CoOk(c.tasks, co, c.cos[co]);
    }
    if ca.Handle? || ca.Abort? {
      EndDangles(c, ca, co);
    } else {
      OtherDangles(c, ca, co);
    }
  }

  lemma OtherDangles(c: C.Table, ca: C.Action, co: CoId)
    requires C.CosOk(c) && C.TasksOk(c) && C.Enabled(c, ca) && !ca.Handle? && !ca.Abort?
    ensures Dangles(C.Next(c, ca), co) <==>
              (ca.Refuse? && c.tasks[ca.t].co == co) || (Dangles(c, co) && !(ca.Create? && ca.co == co))
  {
  }

  lemma EndDangles(c: C.Table, ca: C.Action, co: CoId)
    requires C.CosOk(c) && C.Enabled(c, ca) && (ca.Handle? || ca.Abort?)
    ensures Dangles(C.Next(c, ca), co) <==> Dangles(c, co) && !(ca.Abort? && ca.co == co)
  {
  }

  lemma CallStepWrites(c: C.Table, ca: C.Action)
    requires C.CosOk(c) && C.Enabled(c, ca)
    ensures C.Next(c, ca).staleWrites == c.staleWrites + if ca.Abort? && Dangles(c, ca.co) then 1 else 0
  {
    if ca.Abort? && c.cos[ca.co].hook.Some? && c.tasks[c.cos[ca.co].hook.value].place.Freed? {
      assert C.CoOk(c.tasks, ca.co, c.cos[ca.co]);
      assert c.tasks[c.cos[ca.co].hook.value].place.fate.Refused?;
    }
  }

  lemma StepDangles(s: World, a: Action, co: CoId)
    requires Inv(s) && Enabled(s, a)
    ensures Dangles(Next(s, a).calls, co) <==> RefusesCallOf(s, a, co) || (Dangles(s.calls, co) && !ResetsHook(a, co))
    ensures Next(s, a).calls.staleWrites ==
              s.calls.staleWrites + if a.Abort? && Dangles(s.calls, a.co) then 1 else 0
  {
    hide Inv, C.CosOk, C.TasksOk, Dangles, Enabled, Next;
    InvCalls(s);
    StepKeepsInv(s, a);
    E.InvParts(Next(s, a));
    E.StepIsCallStep(s, a);
    CallStepOf(s, a, co);
    var ca := E.CallStep(s, a);
    if ca.Some? {
      CallStepDangles(s.calls, ca.value, co);
      CallStepWrites(s.calls, ca.value);
    }
  }

  /** What the actions that matter to a hook are in the life of a call. */
  lemma CallStepOf(s: World, a: Action, co: CoId)
    requires Enabled(s, a) && (E.CallStep(s, a).Some? ==> C.Enabled(s.calls, E.CallStep(s, a).value))
    ensures var ca := E.CallStep(s, a);
            && (RefusesCallOf(s, a, co) <==> ca.Some? && ca.value.Refuse? && s.calls.tasks[ca.value.t].co == co)
            && (ResetsHook(a, co) <==> ca.Some? && (ca.value.Create? || ca.value.Abort?) && ca.value.co == co)
            && (a.Abort? <==> ca.Some? && ca.value.Abort?) && (a.Abort? ==> ca.value.co == a.co)
  {
  }

  lemma {:induction false} DanglesIffLeft(states: seq<World>, acts: seq<Action>, n: nat, co: CoId)
    requires E.IsRun(states, acts) && n <= |acts|
    ensures Dangles(states[n].calls, co) <==> LeftDangling(states, acts, n, co)
  {
    hide Inv, Enabled, Next, Dangles, RefusesCallOf, ResetsHook;
    if n == 0 {
      NothingDangles(co);
    } else {
      DanglesIffLeft(states, acts, n - 1, co);
      E.RunKeepsInv(states, acts, n - 1);
      StepDangles(states[n - 1], acts[n - 1], co);
    }
  }

  lemma NothingDangles(co: CoId)
    ensures !Dangles(INIT.calls, co)
  {
  }

  /** In every run, the step from `n` to `n + 1` writes to a freed task exactly if it aborts a
      coroutine that had a call refused and has not posted since. */
  lemma StaleWriteIffRefused(states: seq<World>, acts: seq<Action>, n: nat)
    requires E.IsRun(states, acts) && n < |acts|
    ensures states[n + 1].calls.staleWrites ==
              states[n].calls.staleWrites
              + if acts[n].Abort? && LeftDangling(states, acts, n, acts[n].co) then 1 else 0
  {
    hide Inv, Enabled, Next, Dangles, LeftDangling;
    E.RunKeepsInv(states, acts, n);
    var co := if acts[n].Abort? then acts[n].co else 0;
    StepDangles(states[n], acts[n], co);
    DanglesIffLeft(states, acts, n, co);
  }

  lemma Extend(states: seq<World>, acts: seq<Action>, a: Action) returns (states': seq<World>, acts': seq<Action>)
    requires E.IsRun(states, acts) && Enabled(states[|acts|], a)
    ensures E.IsRun(states', acts') && acts' == acts + [a] && states'[|acts'|] == Next(states[|acts|], a)
  {
    states', acts' := states + [Next(states[|acts|], a)], acts + [a];
  }

  /** A concrete run that gets there: a queue of limit 0 without pollers refuses the first call,
      and its coroutine is aborted. */
  lemma StaleWriteHappens() returns (states: seq<World>, acts: seq<Action>)
    ensures E.IsRun(states, acts) && states[|acts|].calls.staleWrites > 0
  {
    states, acts := RefusalRun();
    var s := states[|acts|];
    RefusedHookWritesStale(states, acts, |acts|, 0);
    var co := s.calls.tasks[s.queues[0].holder.item.id].co;
    states, acts := Extend(states, acts, OnQueue(0, Q.Refuse));
    states, acts := Extend(states, acts, Abort(co));
  }

  lemma RefusalRun() returns (states: seq<World>, acts: seq<Action>)
    ensures E.IsRun(states, acts) && Enabled(states[|acts|], OnQueue(0, Q.Refuse))
  {
    states, acts := PostRun();
    states, acts := Extend(states, acts, OnQueue(0, Q.Lock(Q.Call(0))));
  }

  lemma PostRun() returns (states: seq<World>, acts: seq<Action>)
    ensures E.IsRun(states, acts)
    ensures var s := states[|acts|];
            s.worker == Posting(0, Q.Call(0)) && 0 in s.queues && s.queues[0] == Q.Init(0, {})
  {
    states, acts := Extend([INIT], [], Spawn(0));
    states, acts := Extend(states, acts, Load(0, "lib", 0, 0, {}, true));
    states, acts := Extend(states, acts, BeginPost(0, 0, 0, NoRequest));
  }
}
