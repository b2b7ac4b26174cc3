/** What the exchange promises: in every run, under every interleaving. */
module ExchangeTheorems {
  import opened Options
  import opened Replies
  import C = Calls
  import O = OutstandingCalls
  import Q = RequestQueue
  import D = DoneQueue
  import opened Exchange
  import opened ExchangeInvariant

  ghost predicate IsRun(states: seq<World>, acts: seq<Action>) {
    && |states| == |acts| + 1 && states[0] == INIT
    && forall i :: 0 <= i < |acts| ==> Enabled(states[i], acts[i]) && states[i + 1] == Next(states[i], acts[i])
  }

  lemma {:induction false} RunKeepsInv(states: seq<World>, acts: seq<Action>, i: nat)
    requires IsRun(states, acts) && i < |states|
    ensures Inv(states[i])
  {
    hide Inv;
    if i == 0 {
      InitInv();
    } else {
      RunKeepsInv(states, acts, i - 1);
      StepKeepsInv(states[i - 1], acts[i - 1]);
    }
  }

  // ----- refinement -----

  /** The item an action on a queue concerns. */
  function Concerned(u: Q.Queue, qa: Q.Action): Option<Q.Item>
    requires Q.Enabled(u, qa)
  {
    match qa
    case Refuse => Some(u.holder.item)
    case Append => Some(u.holder.item)
    case Unlock => Some(u.holder.item)
    case Unlink(_) => Some(u.fifo.items[0])
    case Return(_) => Some(u.holder.item)
    case _ => None
  }

  /** The step in the life of a call that an action of the exchange is, if it is one. */
  function CallStep(s: World, a: Action): Option<C.Action>
    requires Enabled(s, a)
  {
    match a
    case Spawn(co) => Some(C.Spawn(co))
    case BeginPost(co, rt, t, req) => Some(C.Create(co, t, s.registry.runtimes[rt].tq.value, req))
    case OnQueue(q, qa) =>
      var item := Concerned(s.queues[q], qa);
      if item.None? || item.value.Sentinel? then None else
        (match qa
         case Refuse => Some(C.Refuse(item.value.id))
         case Append => Some(C.Accept(item.value.id))
         case Unlock => Some(C.Yield(item.value.id))
         case Unlink(_) => Some(C.Take(item.value.id))
         case _ => Some(C.Hand(item.value.id)))
    case Respond(t, reply) => Some(C.Answer(t, reply))
    case OnDone(da) => if da.Swap? then Some(C.Batch(s.done.list)) else None
    case Handle => Some(C.Handle(s.done.batch[0]))
    case Abort(co) => Some(C.Abort(co))
    case _ => None
  }

  /** Every step of the exchange is an enabled step in the life of a call, or none. */
  lemma StepIsCallStep(s: World, a: Action)
    requires Enabled(s, a) && !Next(s, a).misplaced
    ensures var ca := CallStep(s, a);
            if ca.None? then Next(s, a).calls == s.calls
            else C.Enabled(s.calls, ca.value) && Next(s, a).calls == C.Next(s.calls, ca.value)
  {
  }

  function SpecStep(s: World, a: Action): O.SpecAction
    requires Enabled(s, a)
  {
    var ca := CallStep(s, a);
    if ca.None? || !C.Enabled(s.calls, ca.value) then O.Stutter else O.AbsAction(s.calls, ca.value)
  }

  /** The whole exchange, queues, pollers, done list and all, refines the map of outstanding
      calls. */
  lemma StepRefines(s: World, a: Action)
    requires Inv(s) && Enabled(s, a)
    ensures O.SpecEnabled(O.Abs(s.calls), SpecStep(s, a))
    ensures O.Abs(Next(s, a).calls) == O.SpecNext(O.Abs(s.calls), SpecStep(s, a))
  {
    hide Inv, C.Inv, Enabled, Next, CallStep, O.Abs, O.AbsAction;
    InvParts(s);
    StepKeepsInv(s, a);
    InvParts(Next(s, a));
    StepIsCallStep(s, a);
    var ca := CallStep(s, a);
    if ca.Some? {
      O.StepRefines(s.calls, ca.value);
    }
  }

  lemma InvParts(s: World)
    requires Inv(s)
    ensures C.Inv(s.calls) && !s.misplaced
  {
  }

  function SpecStates(states: seq<World>): seq<O.Spec> {
    seq(|states|, i requires 0 <= i < |states| => O.Abs(states[i].calls))
  }

  ghost function SpecActs(states: seq<World>, acts: seq<Action>): seq<O.SpecAction>
    requires IsRun(states, acts)
  {
    seq(|acts|, i requires 0 <= i < |acts| => SpecStep(states[i], acts[i]))
  }

  lemma RunRefines(states: seq<World>, acts: seq<Action>)
    requires IsRun(states, acts)
    ensures O.IsSpecRun(SpecStates(states), SpecActs(states, acts))
  {
    var ms, ops := SpecStates(states), SpecActs(states, acts);
    assert ms[0] == O.SPEC_INIT;
    forall i | 0 <= i < |ops| ensures O.SpecEnabled(ms[i], ops[i]) && ms[i + 1] == O.SpecNext(ms[i], ops[i]) {
      RunKeepsInv(states, acts, i);
      StepRefines(states[i], acts[i]);
    }
  }

  // ----- posts -----

  /** Coroutine `co` posted task `t` with request `req`. */
  ghost predicate WasPosted(acts: seq<Action>, n: nat, t: TaskId, co: CoId, req: Request) {
    exists i, rt :: 0 <= i < n && i < |acts| && acts[i] == BeginPost(co, rt, t, req)
  }

  /** What the record of a task says of its coroutine and its request is what the one post of that
      task said. */
  lemma {:induction false} RecordIsThePost(states: seq<World>, acts: seq<Action>, n: nat, t: TaskId)
    requires IsRun(states, acts) && n < |states|
    ensures var tasks := states[n].calls.tasks;
            forall co, req :: WasPosted(acts, n, t, co, req) <==> t in tasks && tasks[t].co == co && tasks[t].req == req
  {
    hide Inv, Enabled, Next, WasPosted, CallStep;
    if n == 0 {
      NothingPosted(acts, t);
    } else {
      RecordIsThePost(states, acts, n - 1, t);
      RunKeepsInv(states, acts, n - 1);
      StepPosts(states[n - 1], acts[n - 1], t);
      forall co, req
        ensures WasPosted(acts, n, t, co, req) <==> WasPosted(acts, n - 1, t, co, req) || IsPost(acts[n - 1], t, co, req)
      {
        PostedNext(acts, n, t, co, req);
      }
    }
  }

  ghost predicate IsPost(a: Action, t: TaskId, co: CoId, req: Request) {
    exists rt :: a == BeginPost(co, rt, t, req)
  }

  lemma NothingPosted(acts: seq<Action>, t: TaskId)
    ensures forall co, req :: !WasPosted(acts, 0, t, co, req)
    ensures t !in INIT.calls.tasks
  {
  }

  lemma PostedNext(acts: seq<Action>, n: nat, t: TaskId, co: CoId, req: Request)
    requires 0 < n <= |acts|
    ensures WasPosted(acts, n, t, co, req) <==> WasPosted(acts, n - 1, t, co, req) || IsPost(acts[n - 1], t, co, req)
  {
    if WasPosted(acts, n, t, co, req) {
      var i, rt :| 0 <= i < n && acts[i] == BeginPost(co, rt, t, req);
      if i < n - 1 {
        assert WasPosted(acts, n - 1, t, co, req);
      }
    }
  }

  lemma StepPosts(s: World, a: Action, t: TaskId)
    requires Inv(s) && Enabled(s, a)
    ensures var tasks, tasks' := s.calls.tasks, Next(s, a).calls.tasks;
            && (t in tasks ==>
                  && t in tasks' && tasks'[t].co == tasks[t].co && tasks'[t].req == tasks[t].req
                  && forall co, req :: !IsPost(a, t, co, req))
            && (t !in tasks ==>
                  forall co, req :: IsPost(a, t, co, req) <==> t in tasks' && tasks'[t].co == co && tasks'[t].req == req)
  {
    hide Inv, C.Inv, Enabled, Next, C.Next, C.Enabled, CallStep;
    InvParts(s);
    StepKeepsInv(s, a);
    InvParts(Next(s, a));
    StepIsCallStep(s, a);
    PostIsCreate(s, a, t);
    if CallStep(s, a).Some? {
      C.StepPersists(s.calls, CallStep(s, a).value, t);
    }
  }

  lemma PostIsCreate(s: World, a: Action, t: TaskId)
    requires Enabled(s, a)
    ensures var ca := CallStep(s, a);
            forall co, req :: IsPost(a, t, co, req) <==>
              ca.Some? && ca.value.Create? && ca.value.t == t && ca.value.co == co && ca.value.req == req
    ensures t in s.calls.tasks ==> forall co, req :: !IsPost(a, t, co, req)
  {
  }

  // ----- resumptions -----

  /** The handler is about to resume the coroutine of `t`. */
  ghost predicate Resumes(s: World, a: Action, t: TaskId) {
    a.Handle? && Enabled(s, a) && s.done.batch[0] == t && t in s.calls.tasks && !s.calls.tasks[t].aborted
  }

  ghost predicate RespondedWith(acts: seq<Action>, n: nat, t: TaskId, reply: Reply) {
    exists i :: 0 <= i < n && i < |acts| && acts[i] == Respond(t, reply)
  }

  /** Whenever the handler resumes a call, some coroutine had posted that very task and the runtime
      had answered it; the coroutine that posted it gets that answer; neither has the handler
      resumed the call before, nor has that coroutine ever been aborted.  So out-of-order answers
      never cross. */
  lemma ResumedOnceWithItsOwnAnswer(states: seq<World>, acts: seq<Action>, n: nat, t: TaskId)
    requires IsRun(states, acts) && n < |acts| && Resumes(states[n], acts[n], t)
    ensures exists co, req, reply ::
              && WasPosted(acts, n, t, co, req) && RespondedWith(acts, n, t, reply)
              && states[n + 1].calls.log == states[n].calls.log + [C.Resumption(t, co, HandlerPushes(reply))]
              && Abort(co) !in acts[..n]
    ensures forall i :: 0 <= i < n ==> !Resumes(states[i], acts[i], t)
  {
    hide Inv, Enabled, Next, HandlerPushes, RespondedWith, WasPosted;
    var co, req := states[n].calls.tasks[t].co, states[n].calls.tasks[t].req;
    RecordIsThePost(states, acts, n, t);
    assert WasPosted(acts, n, t, co, req);
    ResumedWithItsOwnAnswer(states, acts, n, t);
    ResumedOnce(states, acts, n, t);
    NeverAborted(states, acts, n, t);
  }

  lemma ResumedWithItsOwnAnswer(states: seq<World>, acts: seq<Action>, n: nat, t: TaskId)
    requires IsRun(states, acts) && n < |acts| && Resumes(states[n], acts[n], t)
    ensures exists reply ::
              && RespondedWith(acts, n, t, reply)
              && states[n + 1].calls.log ==
                   states[n].calls.log + [C.Resumption(t, states[n].calls.tasks[t].co, HandlerPushes(reply))]
  {
    hide Inv, Enabled, Next, HandlerPushes, O.SpecNext, O.SpecEnabled;
    RunRefines(states, acts);
    var ms, ops := SpecStates(states), SpecActs(states, acts);
    ResumeIsDeliver(states, acts, n, t);
    O.DeliveredOnceWithItsOwnAnswer(ms, ops, n, t);
    var co, req, reply :| O.Did(ops, n, O.Issue(t, co, req)) && O.Did(ops, n, O.Respond(t, reply))
                          && ms[n + 1].log == ms[n].log + [C.Resumption(t, co, HandlerPushes(reply))];
    var k :| 0 <= k < n && ops[k] == O.Respond(t, reply);
    RespondComesFromRespond(states[k], acts[k], t, reply);
    assert RespondedWith(acts, n, t, reply);
    ResumeLogs(states[n], acts[n], t);
  }

  lemma ResumedOnce(states: seq<World>, acts: seq<Action>, n: nat, t: TaskId)
    requires IsRun(states, acts) && n < |acts| && Resumes(states[n], acts[n], t)
    ensures forall i :: 0 <= i < n ==> !Resumes(states[i], acts[i], t)
  {
    hide Inv, Enabled, Next, HandlerPushes, O.SpecNext, O.SpecEnabled;
    RunRefines(states, acts);
    var ms, ops := SpecStates(states), SpecActs(states, acts);
    ResumeIsDeliver(states, acts, n, t);
    O.DeliveredOnceWithItsOwnAnswer(ms, ops, n, t);
    forall i | 0 <= i < n ensures !Resumes(states[i], acts[i], t) {
      if Resumes(states[i], acts[i], t) {
        ResumeIsDeliver(states, acts, i, t);
      }
    }
  }

  lemma NeverAborted(states: seq<World>, acts: seq<Action>, n: nat, t: TaskId)
    requires IsRun(states, acts) && n < |acts| && Resumes(states[n], acts[n], t)
    ensures Abort(states[n].calls.tasks[t].co) !in acts[..n]
  {
    hide Inv, Enabled, Next;
    RunKeepsInv(states, acts, n);
    var co := states[n].calls.tasks[t].co;
    ResumedIsNotDead(states[n], acts[n], t);
    forall i | 0 <= i < n && acts[i] == Abort(co) ensures false {
      DeadStaysDead(states, acts, i, n);
    }
  }

  lemma ResumedIsNotDead(s: World, a: Action, t: TaskId)
    requires Inv(s) && Resumes(s, a, t)
    ensures !IsDead(s, s.calls.tasks[t].co)
  {
    hide Inv;
    InvCallsOk(s);
    HandleIsEnabled(s);
  }

  lemma {:induction false} DeadStaysDead(states: seq<World>, acts: seq<Action>, i: nat, n: nat)
    requires IsRun(states, acts) && i < n < |states| && acts[i].Abort?
    ensures IsDead(states[n], acts[i].co)
  {
    hide Inv, Enabled, Next, IsDead;
    RunKeepsInv(states, acts, n - 1);
    RunKeepsInv(states, acts, n);
    if i < n - 1 {
      DeadStaysDead(states, acts, i, n - 1);
      StepKeepsDead(states[n - 1], acts[n - 1], acts[i].co);
    } else {
      AbortKills(states[i], acts[i].co);
    }
  }

  ghost predicate IsDead(s: World, co: CoId) {
    co in s.calls.cos && s.calls.cos[co].status.Dead?
  }

  lemma AbortKills(s: World, co: CoId)
    requires Enabled(s, Abort(co)) && Inv(Next(s, Abort(co)))
    ensures IsDead(Next(s, Abort(co)), co)
  {
    hide Inv;
    InvParts(Next(s, Abort(co)));
  }

  lemma StepKeepsDead(s: World, a: Action, co: CoId)
    requires Inv(s) && Enabled(s, a) && Inv(Next(s, a)) && IsDead(s, co)
    ensures IsDead(Next(s, a), co)
  {
    hide Inv, Enabled, Next, CallStep;
    InvParts(s);
    InvParts(Next(s, a));
    StepIsCallStep(s, a);
    if CallStep(s, a).Some? {
      CallKeepsDead(s.calls, CallStep(s, a).value, co);
    }
  }

  lemma CallKeepsDead(c: C.Table, ca: C.Action, co: CoId)
    requires C.Inv(c) && C.Enabled(c, ca) && co in c.cos && c.cos[co].status.Dead?
    ensures co in C.Next(c, ca).cos && C.Next(c, ca).cos[co].status.Dead?
  {
    hide C.Enabled, C.Next, C.CosOk, C.RepliesOk, C.LogOk, C.FreesOk;
    C.DeadStaysDead(c, ca, co);
  }

  lemma ResumeIsDeliver(states: seq<World>, acts: seq<Action>, n: nat, t: TaskId)
    requires IsRun(states, acts) && n < |acts| && Resumes(states[n], acts[n], t)
    ensures SpecActs(states, acts)[n] == O.Deliver(t)
  {
    hide Inv, Enabled, Next, SpecStep;
    RunKeepsInv(states, acts, n);
    ResumeStepDelivers(states[n], acts[n], t);
  }

  lemma ResumeStepDelivers(s: World, a: Action, t: TaskId)
    requires Inv(s) && Resumes(s, a, t)
    ensures SpecStep(s, a) == O.Deliver(t)
  {
    hide Inv;
    InvCallsOk(s);
    HandleIsEnabled(s);
  }

  lemma HandleIsEnabled(s: World)
    requires CallsOk(s.calls, s.worker, s.queues, s.held, s.done) && s.worker.Idle? && D.Enabled(s.done, D.Take)
    ensures C.Enabled(s.calls, C.Handle(s.done.batch[0]))
  {
    hide CallsOk, C.Enabled;
    HandleKeeps(s);
  }

  lemma InvCallsOk(s: World)
    requires Inv(s)
    ensures CallsOk(s.calls, s.worker, s.queues, s.held, s.done)
  {
  }

  lemma RespondComesFromRespond(s: World, a: Action, t: TaskId, reply: Reply)
    requires Enabled(s, a) && SpecStep(s, a) == O.Respond(t, reply)
    ensures a == Respond(t, reply)
  {
  }

  lemma ResumeLogs(s: World, a: Action, t: TaskId)
    requires Resumes(s, a, t) && Enabled(s, a) && C.Enabled(s.calls, C.Handle(t))
    ensures Next(s, a).calls.log[..|s.calls.log|] == s.calls.log
    ensures |Next(s, a).calls.log| == |s.calls.log| + 1
    ensures Next(s, a).calls.log[|s.calls.log|].co == s.calls.tasks[t].co
  {
  }
}
