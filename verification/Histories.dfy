/** Queues, the registry and sentinels, told from the actions of a run. */
module Histories {
  import opened Options
  import Q = RequestQueue
  import R = Registries
  import opened Exchange
  import opened ExchangeInvariant
  import E = ExchangeTheorems

  // ----- queues -----

  predicate MakesQueue(a: Action, q: QueueId, maxQueue: int, pollers: set<Q.Tid>) {
    a.Load? && a.q == q && a.maxQueue == maxQueue && a.pollers == pollers
  }

  predicate HasQueue(s: World, q: QueueId, maxQueue: int, pollers: set<Q.Tid>) {
    q in s.queues && s.queues[q].fifo.maxQueue == maxQueue && s.queues[q].pollers == pollers
  }

  lemma QueuesAfter(s: World, a: Action)
    requires Enabled(s, a)
    ensures Next(s, a).queues ==
              if a.OnQueue? then s.queues[a.q := Q.Next(s.queues[a.q], a.qa)]
              else if a.Load? then s.queues[a.q := Q.Init(a.maxQueue, a.pollers)]
              else s.queues
  {
    hide Q.Next, Q.Enabled, Q.Init;
  }

  lemma QueueKeepsLimits(u: Q.Queue, qa: Q.Action)
    requires Q.Enabled(u, qa)
    ensures Q.Next(u, qa).fifo.maxQueue == u.fifo.maxQueue && Q.Next(u, qa).pollers == u.pollers
  {
  }

  lemma StepMakesQueue(s: World, a: Action, q: QueueId, maxQueue: int, pollers: set<Q.Tid>)
    requires Enabled(s, a)
    ensures HasQueue(Next(s, a), q, maxQueue, pollers) <==> HasQueue(s, q, maxQueue, pollers) || MakesQueue(a, q, maxQueue, pollers)
  {
    hide Next, Q.Next, Q.Enabled;
    QueuesAfter(s, a);
    if a.OnQueue? {
      QueueKeepsLimits(s.queues[a.q], a.qa);
    }
  }

  /** In every run, a queue has exactly the limit and the polling threads it was loaded with. */
  lemma {:induction false} QueueIsTheLoad(states: seq<World>, acts: seq<Action>, n: nat, q: QueueId, maxQueue: int, pollers: set<Q.Tid>)
    requires E.IsRun(states, acts) && n <= |acts|
    ensures HasQueue(states[n], q, maxQueue, pollers) <==> exists i :: 0 <= i < n && MakesQueue(acts[i], q, maxQueue, pollers)
  {
    hide Enabled, Next, MakesQueue;
    if n > 0 {
      QueueIsTheLoad(states, acts, n - 1, q, maxQueue, pollers);
      StepMakesQueue(states[n - 1], acts[n - 1], q, maxQueue, pollers);
    }
  }

  // ----- the registry -----

  /** A load whose library's init succeeded. */
  predicate Loads(a: Action, key: string, rt: RuntimeId, q: QueueId) {
    a.Load? && a.ok && a.key == key && a.rt == rt && a.q == q
  }

  predicate Registered(s: World, key: string, rt: RuntimeId, q: QueueId) {
    && key in s.registry.byKey && s.registry.byKey[key] == rt
    && rt in s.registry.runtimes && s.registry.runtimes[rt].tq == Some(q)
  }

  lemma RegistryStep(g: R.Registry<RuntimeId, QueueId>, rt: RuntimeId, key: string, rt': RuntimeId)
    requires R.Inv(g) && rt in g.runtimes && !g.runtimes[rt].finished
    ensures var g' := R.Unload(g, rt);
            key in g'.byKey && g'.byKey[key] == rt' <==> key in g.byKey && g.byKey[key] == rt' && rt' != rt
  {
  }

  lemma StepRegisters(s: World, a: Action, key: string, rt: RuntimeId, q: QueueId)
    requires R.Inv(s.registry) && Enabled(s, a)
    ensures Registered(Next(s, a), key, rt, q) <==>
              Loads(a, key, rt, q) || (Registered(s, key, rt, q) && a != BeginUnload(rt))
  {
    hide R.Inv;
    if a.BeginUnload? {
      RegistryStep(s.registry, a.rt, key, rt);
    } else if a.Load? {
      LoadRegisters(s, a, key, rt, q);
    } else {
      OthersLeaveRegistry(s, a);
    }
  }

  lemma LoadRegisters(s: World, a: Action, key: string, rt: RuntimeId, q: QueueId)
    requires R.Inv(s.registry) && Enabled(s, a) && a.Load?
    ensures Registered(Next(s, a), key, rt, q) <==> Loads(a, key, rt, q) || Registered(s, key, rt, q)
  {
  }

  lemma OthersLeaveRegistry(s: World, a: Action)
    requires Enabled(s, a) && !a.Load? && !a.BeginUnload?
    ensures Next(s, a).registry == s.registry
  {
  }

  lemma InvRegistry(s: World)
    requires Inv(s)
    ensures R.Inv(s.registry)
  {
  }

  /** Runtime `rt` was loaded under `key` with queue `q`, and was not unloaded since. */
  ghost predicate StillLoaded(acts: seq<Action>, n: nat, key: string, rt: RuntimeId, q: QueueId)
    requires n <= |acts|
  {
    exists i :: 0 <= i < n && Loads(acts[i], key, rt, q) && forall k :: i < k < n ==> acts[k] != BeginUnload(rt)
  }

  /** In every run, the table holds under a key exactly the runtime that was successfully loaded
      under it and has not been unloaded since, with the queue it was loaded with. */
  lemma {:induction false} RegisteredIffStillLoaded(states: seq<World>, acts: seq<Action>, n: nat, key: string, rt: RuntimeId, q: QueueId)
    requires E.IsRun(states, acts) && n <= |acts|
    ensures Registered(states[n], key, rt, q) <==> StillLoaded(acts, n, key, rt, q)
  {
    hide Inv, Enabled, Next, Loads, Registered;
    if n > 0 {
      RegisteredIffStillLoaded(states, acts, n - 1, key, rt, q);
      E.RunKeepsInv(states, acts, n - 1);
      InvRegistry(states[n - 1]);
      StepRegisters(states[n - 1], acts[n - 1], key, rt, q);
    } else {
      NothingRegistered(key, rt, q);
    }
  }

  lemma NothingRegistered(key: string, rt: RuntimeId, q: QueueId)
    ensures !Registered(INIT, key, rt, q)
  {
  }

  /** A runtime can be posted to and unloaded if and only if it is still loaded and the worker is
      not inside a post. */
  lemma UsableIffStillLoaded(states: seq<World>, acts: seq<Action>, n: nat, rt: RuntimeId)
    requires E.IsRun(states, acts) && n <= |acts|
    ensures Usable(states[n], rt) <==> states[n].worker.Idle? && exists key, q :: StillLoaded(acts, n, key, rt, q)
  {
    hide Inv, Enabled, Next, StillLoaded;
    var s := states[n];
    E.RunKeepsInv(states, acts, n);
    InvRegistry(s);
    forall key, q ensures Registered(s, key, rt, q) <==> StillLoaded(acts, n, key, rt, q) {
      RegisteredIffStillLoaded(states, acts, n, key, rt, q);
    }
    if rt in s.registry.runtimes {
      var f := s.registry.runtimes[rt];
      assert R.FieldsOk(s.registry, rt, f);
      if f.tq.Some? {
        assert Registered(s, f.key.value, rt, f.tq.value);
      }
    }
  }

  // ----- sentinels -----

  /** The sentinel of queue `q` is on its way or in. */
  predicate SentinelSent(s: World, q: QueueId) {
    s.worker == Posting(q, Q.Sentinel) || (q in s.queues && Q.Sentinel in s.queues[q].accepted)
  }

  predicate UnloadsQueue(s: World, a: Action, q: QueueId) {
    a.BeginUnload? && a.rt in s.registry.runtimes && s.registry.runtimes[a.rt].tq == Some(q)
  }

  /** Once appended, the item being posted is among those accepted. */
  ghost predicate AppendedIsAccepted(queues: map<QueueId, Q.Queue>) {
    forall q :: q in queues && HasAppended(queues[q]) ==> queues[q].holder.item in queues[q].accepted
  }

  lemma StepAppends(s: World, a: Action)
    requires AppendedIsAccepted(s.queues) && Enabled(s, a)
    ensures AppendedIsAccepted(Next(s, a).queues)
  {
    hide Next, Q.Next, Q.Enabled;
    QueuesAfter(s, a);
    if a.OnQueue? {
      QueueStepAppends(s.queues[a.q], a.qa);
    }
  }

  lemma QueueStepAppends(u: Q.Queue, qa: Q.Action)
    requires (HasAppended(u) ==> u.holder.item in u.accepted) && Q.Enabled(u, qa)
    ensures var u' := Q.Next(u, qa); HasAppended(u') ==> u'.holder.item in u'.accepted
  {
  }

  lemma StepSends(s: World, a: Action, q: QueueId)
    requires WorkerOk(s.worker, s.queues) && AppendedIsAccepted(s.queues) && Enabled(s, a)
    ensures SentinelSent(Next(s, a), q) <==> SentinelSent(s, q) || UnloadsQueue(s, a, q)
  {
    if a.OnQueue? {
      QueueStepSends(s, a.q, a.qa, q);
    } else {
      OtherStepSends(s, a, q);
    }
  }

  lemma QueueStepSends(s: World, p: QueueId, qa: Q.Action, q: QueueId)
    requires WorkerOk(s.worker, s.queues) && AppendedIsAccepted(s.queues) && Enabled(s, OnQueue(p, qa))
    ensures SentinelSent(Next(s, OnQueue(p, qa)), q) <==> SentinelSent(s, q)
  {
    var u, u' := s.queues[p], Q.Next(s.queues[p], qa);
    assert u'.accepted == if qa.Append? then u.accepted + [u.holder.item] else u.accepted;
    WorkerMoves(s, p, qa);
  }

  lemma WorkerMoves(s: World, p: QueueId, qa: Q.Action)
    requires Enabled(s, OnQueue(p, qa))
    ensures Next(s, OnQueue(p, qa)).worker == WorkerAfter(s.worker, qa)
    ensures Next(s, OnQueue(p, qa)).queues == s.queues[p := Q.Next(s.queues[p], qa)]
  {
  }

  lemma OtherStepSends(s: World, a: Action, q: QueueId)
    requires Enabled(s, a) && !a.OnQueue?
    ensures SentinelSent(Next(s, a), q) <==> SentinelSent(s, q) || UnloadsQueue(s, a, q)
  {
  }

  /** In every run, the sentinel of a queue is on its way or in if and only if a runtime that owned
      the queue was unloaded. */
  lemma {:induction false} SentinelIffUnloaded(states: seq<World>, acts: seq<Action>, n: nat, q: QueueId)
    requires E.IsRun(states, acts) && n <= |acts|
    ensures SentinelSent(states[n], q) <==> exists i :: 0 <= i < n && UnloadsQueue(states[i], acts[i], q)
    ensures AppendedIsAccepted(states[n].queues)
  {
    hide Inv, Enabled, Next, UnloadsQueue, SentinelSent, AppendedIsAccepted;
    if n > 0 {
      SentinelIffUnloaded(states, acts, n - 1, q);
      E.RunKeepsInv(states, acts, n - 1);
      InvWorker(states[n - 1]);
      StepAppends(states[n - 1], acts[n - 1]);
      StepSends(states[n - 1], acts[n - 1], q);
    } else {
      NothingSent(q);
    }
  }

  lemma NothingSent(q: QueueId)
    ensures !SentinelSent(INIT, q) && AppendedIsAccepted(INIT.queues)
  {
  }

  lemma InvWorker(s: World)
    requires Inv(s)
    ensures WorkerOk(s.worker, s.queues)
  {
  }
}
