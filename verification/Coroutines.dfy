/** What becomes of a coroutine, told from the actions of a run: it is there once spawned, dead once
    aborted, waiting while a call of its own is outstanding, and otherwise free to call. */
module Coroutines {
  import opened Options
  import opened Replies
  import C = Calls
  import O = OutstandingCalls
  import opened Exchange
  import opened ExchangeInvariant
  import E = ExchangeTheorems

  predicate Dead(c: C.Table, co: CoId) {
    co in c.cos && c.cos[co].status.Dead?
  }

  lemma CallStepStatus(c: C.Table, ca: C.Action, co: CoId)
    requires C.CosOk(c) && C.TasksOk(c) && C.Enabled(c, ca)
    ensures co in C.Next(c, ca).cos <==> co in c.cos || ca == C.Spawn(co)
    ensures Dead(C.Next(c, ca), co) <==> Dead(c, co) || ca == C.Abort(co)
  {
    if ca.Handle? || ca.Abort? {
      EndStatus(c, ca, co);
    } else {
      OtherStatus(c, ca, co);
    }
  }

  lemma EndStatus(c: C.Table, ca: C.Action, co: CoId)
    requires C.Enabled(c, ca) && (ca.Handle? || ca.Abort?)
    ensures co in C.Next(c, ca).cos <==> co in c.cos
    ensures Dead(C.Next(c, ca), co) <==> Dead(c, co) || ca == C.Abort(co)
  {
  }

  lemma OtherStatus(c: C.Table, ca: C.Action, co: CoId)
    requires C.TasksOk(c) && C.Enabled(c, ca) && !ca.Handle? && !ca.Abort?
    ensures co in C.Next(c, ca).cos <==> co in c.cos || ca == C.Spawn(co)
    ensures Dead(C.Next(c, ca), co) <==> Dead(c, co)
  {
  }

  lemma StepStatus(s: World, a: Action, co: CoId)
    requires Inv(s) && Enabled(s, a)
    ensures co in Next(s, a).calls.cos <==> co in s.calls.cos || a == Spawn(co)
    ensures Dead(Next(s, a).calls, co) <==> Dead(s.calls, co) || a == Abort(co)
  {
    hide Inv, C.CosOk, C.TasksOk, Dead, Enabled, Next;
    InvParts(s);
    StepKeepsInv(s, a);
    E.InvParts(Next(s, a));
    E.StepIsCallStep(s, a);
    CallStepOf(s, a, co);
    if E.CallStep(s, a).Some? {
      CallStepStatus(s.calls, E.CallStep(s, a).value, co);
    }
  }

  lemma InvParts(s: World)
    requires Inv(s)
    ensures C.CosOk(s.calls) && C.TasksOk(s.calls) && PostingOk(s.calls, s.worker, s.queues)
  {
  }

  lemma CallStepOf(s: World, a: Action, co: CoId)
    requires Enabled(s, a)
    ensures E.CallStep(s, a) == Some(C.Spawn(co)) <==> a == Spawn(co)
    ensures E.CallStep(s, a) == Some(C.Abort(co)) <==> a == Abort(co)
  {
  }

  /** In every run, the coroutines there are are those spawned, and the dead ones are exactly those
      aborted: nothing else, least of all a resumption, ends a coroutine. */
  lemma {:induction false} DeadIffAborted(states: seq<World>, acts: seq<Action>, n: nat, co: CoId)
    requires E.IsRun(states, acts) && n <= |acts|
    ensures co in states[n].calls.cos <==> Spawn(co) in acts[..n]
    ensures E.IsDead(states[n], co) <==> Abort(co) in acts[..n]
  {
    hide Inv, Enabled, Next;
    if n > 0 {
      DeadIffAborted(states, acts, n - 1, co);
      E.RunKeepsInv(states, acts, n - 1);
      StepStatus(states[n - 1], acts[n - 1], co);
      assert acts[..n] == acts[..n - 1] + [acts[n - 1]];
    }
  }

  /** A call of `co` is outstanding, as callers count. */
  predicate IsWaiting(c: C.Table, co: CoId) {
    exists t :: t in O.Abs(c).outstanding && O.Abs(c).outstanding[t].co == co
  }

  lemma RunningIff(c: C.Table, co: CoId)
    requires C.CosOk(c) && C.TasksOk(c) && c.posting.None? && co in c.cos
    ensures c.cos[co].status.Running? <==> !Dead(c, co) && !IsWaiting(c, co)
  {
    var k := c.cos[co];
    assert C.CoOk(c.tasks, co, k);
    if k.status.Waiting? {
      assert k.status.t in O.Abs(c).outstanding;
    } else if k.status.Running? {
      forall t | t in O.Abs(c).outstanding ensures O.Abs(c).outstanding[t].co != co {
        assert C.TaskOk(c.cos, c.posting, t, c.tasks[t]);
      }
    }
  }

  /** In every run and for every usable runtime, a coroutine can make a call if and only if it was
      spawned, was never aborted, and has no call outstanding. */
  lemma CanPostIff(states: seq<World>, acts: seq<Action>, n: nat, co: CoId, rt: RuntimeId, t: TaskId, req: Request)
    requires E.IsRun(states, acts) && n <= |acts| && Usable(states[n], rt) && t !in states[n].calls.tasks
    ensures Enabled(states[n], BeginPost(co, rt, t, req)) <==>
              Spawn(co) in acts[..n] && Abort(co) !in acts[..n] && !IsWaiting(states[n].calls, co)
  {
    hide Inv, Next, IsWaiting, C.CosOk, C.TasksOk;
    E.RunKeepsInv(states, acts, n);
    InvParts(states[n]);
    DeadIffAborted(states, acts, n, co);
    if co in states[n].calls.cos {
      RunningIff(states[n].calls, co);
    }
  }

  /** What a resumption leaves: the coroutine that had posted the call runs, has no hook, and can
      post again at once. */
  lemma ResumedCanPostAgain(states: seq<World>, acts: seq<Action>, n: nat, t: TaskId)
    requires E.IsRun(states, acts) && n < |acts| && E.Resumes(states[n], acts[n], t)
    ensures exists co, req ::
              && E.WasPosted(acts, n, t, co, req)
              && co in states[n + 1].calls.cos && states[n + 1].calls.cos[co] == C.Co(C.Running, None)
              && forall rt, t', req' :: Usable(states[n + 1], rt) && t' !in states[n + 1].calls.tasks ==>
                   Enabled(states[n + 1], BeginPost(co, rt, t', req'))
  {
    hide Inv, Next, E.WasPosted;
    var co, req := states[n].calls.tasks[t].co, states[n].calls.tasks[t].req;
    E.RecordIsThePost(states, acts, n, t);
    assert E.WasPosted(acts, n, t, co, req);
    E.RunKeepsInv(states, acts, n);
    ResumeLeavesRunning(states[n], acts[n], t);
  }

  lemma ResumeLeavesRunning(s: World, a: Action, t: TaskId)
    requires Inv(s) && E.Resumes(s, a, t)
    ensures var co := s.calls.tasks[t].co;
            co in Next(s, a).calls.cos && Next(s, a).calls.cos[co] == C.Co(C.Running, None)
  {
    hide Inv, C.Next, C.Inv;
    E.InvCallsOk(s);
    E.HandleIsEnabled(s);
    HandleLeavesRunning(s.calls, t);
  }

  lemma HandleLeavesRunning(c: C.Table, t: TaskId)
    requires C.Enabled(c, C.Handle(t)) && !c.tasks[t].aborted
    ensures var co := c.tasks[t].co;
            co in C.Next(c, C.Handle(t)).cos && C.Next(c, C.Handle(t)).cos[co] == C.Co(C.Running, None)
  {
  }
}
