/** Runtimes and their queues inside the whole exchange: usable while registered, freed safely, and
    drained to the last call. */
module Shutdown {
  import opened Options
  import C = Calls
  import Q = RequestQueue
  import T = QueueTheorems
  import D = DoneQueue
  import R = Registries
  import opened Exchange
  import opened ExchangeInvariant
  import E = ExchangeTheorems
  import O = Outcomes

  /** Once the queue of a single-poller runtime is freed, everything it accepted has been
      returned in order, no task is left with it, and no step of anybody touches it again. */
  lemma NoUseAfterFree(s: World, q: QueueId, qa: Q.Action)
    requires Inv(s) && q in s.queues && T.SinglePoller(s.queues[q]) && s.queues[q].frees > 0
    ensures T.Final(s.queues[q]) && !Enabled(s, OnQueue(q, qa))
    ensures forall t :: t in s.calls.tasks && s.calls.tasks[t].q == q ==>
              !s.calls.tasks[t].place.Created? && !s.calls.tasks[t].place.Queued? && !s.calls.tasks[t].place.InHand?
  {
    hide C.CosOk, C.LogOk, C.FreesOk, C.RepliesOk, Q.Inv, Tracks, Lists, D.Inv, R.Inv, OpenQueues, T.Final;
    assert QueueOk(s.queues[q]);
    T.FreedIsFinal(s.queues[q]);
    if Enabled(s, OnQueue(q, qa)) {
      StepIsDisciplined(s, q, qa);
    }
    FreedQueueOwnsNothing(s, q);
  }

  lemma FreedQueueOwnsNothing(s: World, q: QueueId)
    requires C.TasksOk(s.calls) && WorkerOk(s.worker, s.queues) && PostingOk(s.calls, s.worker, s.queues)
    requires QueuesTrack(s.calls.tasks, s.queues) && q in s.queues && T.Final(s.queues[q])
    requires forall qa :: T.Disciplined(s.queues[q], qa) ==> !Q.Enabled(s.queues[q], qa)
    ensures forall t :: t in s.calls.tasks && s.calls.tasks[t].q == q ==>
              !s.calls.tasks[t].place.Created? && !s.calls.tasks[t].place.Queued? && !s.calls.tasks[t].place.InHand?
  {
    var u := s.queues[q];
    assert u.accepted[|u.accepted| - 1] in u.accepted;
    if !u.holder.Free? {
      var qa := T.HolderCanStep(u);
    }
    forall t | t in s.calls.tasks && s.calls.tasks[t].q == q
      ensures !s.calls.tasks[t].place.Created? && !s.calls.tasks[t].place.Queued? && !s.calls.tasks[t].place.InHand?
    {
      assert C.TaskOk(s.calls.cos, s.calls.posting, t, s.calls.tasks[t]);
      assert Q.Call(t) !in u.fifo.items;
    }
  }

  /** A registered runtime is unfinished, is stored under its own key, and owns a queue that is
      live, however many threads poll it, and no other runtime's. */
  lemma RegisteredRuntimeIsUsable(states: seq<World>, acts: seq<Action>, n: nat, key: string)
    requires E.IsRun(states, acts) && n < |states| && key in states[n].registry.byKey
    ensures var s := states[n];
            var r := s.registry.byKey[key];
            && r in s.registry.runtimes && !s.registry.runtimes[r].finished
            && s.registry.runtimes[r].key == Some(key) && s.registry.runtimes[r].tq.Some?
            && (var q := s.registry.runtimes[r].tq.value;
                && q in s.queues && s.queues[q].frees == 0 && s.queues[q].closing == {}
                && Q.Sentinel !in s.queues[q].accepted
                && forall r' :: r' in s.registry.runtimes && s.registry.runtimes[r'].tq == Some(q) ==> r' == r)
  {
    hide Inv, Enabled, Next;
    var s := states[n];
    E.RunKeepsInv(states, acts, n);
    InvRegistry(s);
    var r := s.registry.byKey[key];
    assert R.FieldsOk(s.registry, r, s.registry.runtimes[r]);
    var q := s.registry.runtimes[r].tq.value;
    assert QueueOk(s.queues[q]);
    assert Q.InOrder(s.queues[q]);
    assert forall i :: i in s.queues[q].returned ==> i in s.queues[q].accepted;
  }

  lemma InvRegistry(s: World)
    requires Inv(s)
    ensures R.Inv(s.registry) && QueuesOk(s.queues) && OpenQueues(s.registry, s.worker, s.queues)
  {
  }

  // ----- draining after unload -----

  /** Queue `q` has `p` as its one poller, and its sentinel is in. */
  predicate Unloaded(s: World, q: QueueId, p: Q.Tid) {
    q in s.queues && s.queues[q].pollers == {p} && Q.Sentinel in s.queues[q].accepted
  }

  predicate IsStepOf(a: Action, q: QueueId) {
    a.OnQueue? && a.q == q
  }

  function QueueSteps(acts: seq<Action>, q: QueueId, n: nat): nat
    requires n <= |acts|
  {
    if n == 0 then 0 else QueueSteps(acts, q, n - 1) + if IsStepOf(acts[n - 1], q) then 1 else 0
  }

  lemma QueueChanges(s: World, a: Action, q: QueueId)
    requires Enabled(s, a) && q in s.queues
    ensures q in Next(s, a).queues
    ensures Next(s, a).queues[q] == if IsStepOf(a, q) then Q.Next(s.queues[q], a.qa) else s.queues[q]
  {
  }

  lemma UnloadedIsDraining(s: World, q: QueueId, p: Q.Tid)
    requires Inv(s) && Unloaded(s, q, p)
    ensures T.Draining(s.queues[q], p)
  {
    hide C.Inv, QueuesTrack, Tracks, Lists, D.Inv, R.Inv, Q.Inv, T.ShutdownInv, T.SentinelLast;
    assert QueueOk(s.queues[q]);
  }

  lemma UnloadedStep(s: World, a: Action, q: QueueId, p: Q.Tid)
    requires Inv(s) && Enabled(s, a) && Unloaded(s, q, p)
    ensures Unloaded(Next(s, a), q, p) && Next(s, a).queues[q].accepted == s.queues[q].accepted
    ensures T.DrainMeasure(Next(s, a).queues[q], p) + (if IsStepOf(a, q) then 1 else 0) <= T.DrainMeasure(s.queues[q], p)
  {
    hide Inv, Next, T.DrainMeasure, T.Draining, Q.Next;
    QueueChanges(s, a, q);
    if IsStepOf(a, q) {
      UnloadedIsDraining(s, q, p);
      InvWorker(s);
      StepIsDisciplined(s, q, a.qa);
      T.DrainStep(s.queues[q], p, a.qa);
      DrainingKeeps(Q.Next(s.queues[q], a.qa), p);
    }
  }

  lemma InvWorker(s: World)
    requires Inv(s)
    ensures WorkerOk(s.worker, s.queues)
  {
  }

  lemma DrainingKeeps(u: Q.Queue, p: Q.Tid)
    requires T.Draining(u, p)
    ensures u.pollers == {p} && Q.Sentinel in u.accepted
  {
  }

  /** Once the sentinel of a single-poller runtime is in, whatever else happens in the exchange
      its queue accepts nothing more and sees no more steps than its measure says. */
  lemma {:induction false} UnloadedQueueIsBounded(states: seq<World>, acts: seq<Action>, i: nat, n: nat, q: QueueId, p: Q.Tid)
    requires E.IsRun(states, acts) && i <= n <= |acts| && Unloaded(states[i], q, p)
    ensures Unloaded(states[n], q, p) && states[n].queues[q].accepted == states[i].queues[q].accepted
    ensures QueueSteps(acts, q, n) - QueueSteps(acts, q, i) + T.DrainMeasure(states[n].queues[q], p)
              <= T.DrainMeasure(states[i].queues[q], p)
  {
    hide Inv, Enabled, Next, T.DrainMeasure, Unloaded;
    if i < n {
      UnloadedQueueIsBounded(states, acts, i, n - 1, q, p);
      E.RunKeepsInv(states, acts, n - 1);
      UnloadedStep(states[n - 1], acts[n - 1], q, p);
    }
    assert q in states[i].queues && q in states[n].queues by { UnloadedKnown(states[i], q, p); UnloadedKnown(states[n], q, p); }
  }

  lemma UnloadedKnown(s: World, q: QueueId, p: Q.Tid)
    requires Unloaded(s, q, p)
    ensures q in s.queues
  {
  }

  predicate PostsTo(s: World, a: Action, t: TaskId, q: QueueId) {
    a.BeginPost? && a.t == t && a.rt in s.registry.runtimes && s.registry.runtimes[a.rt].tq == Some(q)
  }

  /** Task `t` was posted to a runtime with queue `q`. */
  ghost predicate WasPostedTo(states: seq<World>, acts: seq<Action>, n: nat, t: TaskId, q: QueueId)
    requires E.IsRun(states, acts) && n <= |acts|
  {
    exists i :: 0 <= i < n && PostsTo(states[i], acts[i], t, q)
  }

  lemma {:induction false} QueueIsThePosts(states: seq<World>, acts: seq<Action>, n: nat, t: TaskId, q: QueueId)
    requires E.IsRun(states, acts) && n <= |acts|
    ensures WasPostedTo(states, acts, n, t, q) <==> t in states[n].calls.tasks && states[n].calls.tasks[t].q == q
  {
    hide Inv, Enabled, Next, PostsTo;
    if n > 0 {
      QueueIsThePosts(states, acts, n - 1, t, q);
      E.RunKeepsInv(states, acts, n - 1);
      StepPostsTo(states[n - 1], acts[n - 1], t, q);
    } else {
      assert INIT.calls.tasks == map[];
    }
  }

  lemma StepPostsTo(s: World, a: Action, t: TaskId, q: QueueId)
    requires Inv(s) && Enabled(s, a)
    ensures var tasks, tasks' := s.calls.tasks, Next(s, a).calls.tasks;
            t in tasks' && tasks'[t].q == q <==> (t in tasks && tasks[t].q == q) || PostsTo(s, a, t, q)
  {
    hide Inv, C.Inv, Enabled, Next, C.Next, C.Enabled, E.CallStep;
    E.InvParts(s);
    StepKeepsInv(s, a);
    E.InvParts(Next(s, a));
    E.StepIsCallStep(s, a);
    PostIsCreate(s, a, t, q);
    if E.CallStep(s, a).Some? {
      C.StepPersists(s.calls, E.CallStep(s, a).value, t);
    }
  }

  lemma PostIsCreate(s: World, a: Action, t: TaskId, q: QueueId)
    requires Enabled(s, a)
    ensures var ca := E.CallStep(s, a);
            PostsTo(s, a, t, q) <==> ca.Some? && ca.value.Create? && ca.value.t == t && ca.value.q == q
    ensures t in s.calls.tasks ==> !PostsTo(s, a, t, q)
  {
  }

  /** The end of a runtime: when, after unload, neither its queue nor the worker's drain can go on
      and its runtime has answered what it held, the queue has been freed with everything accepted
      returned in order, and each call posted to it was refused, or was resumed, with its answer
      in the log, or was discarded because its coroutine had been aborted. */
  lemma DrainedToTheLast(states: seq<World>, acts: seq<Action>, n: nat, q: QueueId, p: Q.Tid)
    requires E.IsRun(states, acts) && n < |states| && states[n].worker.Idle? && Unloaded(states[n], q, p)
    requires forall a :: O.IsDelivery(a) || IsStepOf(a, q) ==> !Enabled(states[n], a)
    requires forall t :: t in states[n].held && t in states[n].calls.tasks ==> states[n].calls.tasks[t].q != q
    ensures T.Final(states[n].queues[q])
    ensures forall t :: WasPostedTo(states, acts, n, t, q) ==>
              && t in states[n].calls.tasks
              && var k := states[n].calls.tasks[t];
              && k.place == C.Freed(if k.reply.None? then C.Refused else if k.aborted then C.Discarded else C.Resumed)
              && (C.InLog(states[n].calls.log, t) <==> k.reply.Some? && !k.aborted)
  {
    hide Inv, Enabled, Next, T.Final, WasPostedTo;
    var s := states[n];
    E.RunKeepsInv(states, acts, n);
    StuckQueueIsFreed(s, q, p);
    forall t | WasPostedTo(states, acts, n, t, q)
      ensures t in s.calls.tasks
      ensures var k := s.calls.tasks[t];
              && k.place == C.Freed(if k.reply.None? then C.Refused else if k.aborted then C.Discarded else C.Resumed)
              && (C.InLog(s.calls.log, t) <==> k.reply.Some? && !k.aborted)
    {
      QueueIsThePosts(states, acts, n, t, q);
      if s.calls.tasks[t].reply.Some? {
        O.NothingLeftMeansDelivered(states, acts, n, t);
      } else {
        UnansweredIsRefused(s, q, t);
      }
    }
  }

  lemma UnfreedCanStep(s: World, q: QueueId, p: Q.Tid) returns (a: Action)
    requires Inv(s) && Unloaded(s, q, p) && s.queues[q].frees == 0
    ensures IsStepOf(a, q) && Enabled(s, a)
  {
    hide Inv;
    UnloadedIsDraining(s, q, p);
    var qa := T.DrainCanStep(s.queues[q], p);
    a := OnQueue(q, qa);
  }

  lemma StuckQueueIsFreed(s: World, q: QueueId, p: Q.Tid)
    requires Inv(s) && Unloaded(s, q, p) && forall a :: IsStepOf(a, q) ==> !Enabled(s, a)
    ensures s.queues[q].frees > 0 && T.SinglePoller(s.queues[q]) && T.Final(s.queues[q])
  {
    hide Inv, Enabled, T.DrainMeasure, T.Final, Q.Inv, T.ShutdownInv;
    if s.queues[q].frees == 0 {
      var a := UnfreedCanStep(s, q, p);
    }
    UnloadedIsDraining(s, q, p);
    T.FreedIsFinal(s.queues[q]);
  }

  lemma LoggedIsAnswered(c: C.Table, t: TaskId)
    requires C.LogOk(c) && C.InLog(c.log, t)
    ensures t in c.tasks && c.tasks[t].reply.Some?
  {
    var i :| 0 <= i < |c.log| && c.log[i].t == t;
    assert C.LogEntryOk(c.tasks, c.log[i]);
  }

  lemma UnansweredIsRefused(s: World, q: QueueId, t: TaskId)
    requires Inv(s) && q in s.queues && T.SinglePoller(s.queues[q]) && s.queues[q].frees > 0
    requires t in s.calls.tasks && s.calls.tasks[t].q == q && s.calls.tasks[t].reply.None? && t !in s.held
    ensures s.calls.tasks[t].place == C.Freed(C.Refused) && !C.InLog(s.calls.log, t)
  {
    hide QueuesOk, QueuesTrack, D.Inv, R.Inv, WorkerOk, PostingOk, OpenQueues, Lists, C.CosOk, C.TasksOk, C.LogOk, C.FreesOk, T.Final;
    NoUseAfterFree(s, q, Q.Unlock);
    if C.InLog(s.calls.log, t) {
      LoggedIsAnswered(s.calls, t);
    }
    Fates(s.calls.tasks[t].place);
  }

  lemma Fates(place: C.Place)
    ensures place.Freed? ==> place.fate.Refused? || place.fate.Resumed? || place.fate.Discarded?
  {
  }
}
