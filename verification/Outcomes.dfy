/** How things end: cleanup hooks, shutdown of a queue inside the whole exchange, delivery of
    every answer, and the value an echo brings back. */
module Outcomes {
  import opened CStrings
  import opened Replies
  import C = Calls
  import D = DoneQueue
  import opened Exchange
  import opened ExchangeInvariant
  import E = ExchangeTheorems

  // ----- delivery -----

  /** The steps of the worker's drain and of a pending notification. */
  predicate IsDelivery(a: Action) {
    a.Handle? || a.OnDone?
  }

  lemma DeliveryStep(s: World, a: Action)
    requires D.Inv(s.done) && Enabled(s, a) && !a.Respond?
    ensures if IsDelivery(a) then D.Measure(Next(s, a).done) < D.Measure(s.done) else Next(s, a).done == s.done
  {
    if a.Handle? {
      D.DeliveryStep(s.done, D.Take);
    } else if a.OnDone? {
      D.DeliveryStep(s.done, a.da);
    }
  }

  function Deliveries(acts: seq<Action>, n: nat): nat
    requires n <= |acts|
  {
    if n == 0 then 0 else Deliveries(acts, n - 1) + if IsDelivery(acts[n - 1]) then 1 else 0
  }

  /** While no runtime answers, the drain takes no more steps than the measure says, whatever
      else happens in between. */
  lemma {:induction false} DeliveryIsBounded(states: seq<World>, acts: seq<Action>, i: nat, n: nat)
    requires E.IsRun(states, acts) && i <= n <= |acts| && forall k :: i <= k < n ==> !acts[k].Respond?
    ensures Deliveries(acts, n) - Deliveries(acts, i) + D.Measure(states[n].done) <= D.Measure(states[i].done)
  {
    hide Inv, Enabled, Next, D.Measure;
    if i < n {
      DeliveryIsBounded(states, acts, i, n - 1);
      E.RunKeepsInv(states, acts, n - 1);
      InvDone(states[n - 1]);
      DeliveryStep(states[n - 1], acts[n - 1]);
    }
  }

  lemma InvDone(s: World)
    requires Inv(s)
    ensures D.Inv(s.done)
  {
  }

  lemma IdleWorkerCanDeliver(s: World) returns (a: Action)
    requires D.Inv(s.done) && s.worker.Idle? && s.done.handled != s.done.injected
    ensures IsDelivery(a) && Enabled(s, a)
  {
    var da := D.DeliveryCanStep(s.done);
    a := if da.Take? then Handle else OnDone(da);
  }

  /** When an idle worker has nothing left to do for the done list, every answered call has been
      handled: resumed, and in the log, if its coroutine was not aborted, discarded if it was. */
  lemma NothingLeftMeansDelivered(states: seq<World>, acts: seq<Action>, n: nat, t: TaskId)
    requires E.IsRun(states, acts) && n < |states|
    requires states[n].worker.Idle? && forall a :: IsDelivery(a) ==> !Enabled(states[n], a)
    requires t in states[n].calls.tasks && states[n].calls.tasks[t].reply.Some?
    ensures var c := states[n].calls;
            && c.tasks[t].place == C.Freed(if c.tasks[t].aborted then C.Discarded else C.Resumed)
            && (C.InLog(c.log, t) <==> !c.tasks[t].aborted)
  {
    hide Inv, Enabled, Next;
    var s := states[n];
    E.RunKeepsInv(states, acts, n);
    InvDone(s);
    InvAnswers(s);
    if s.done.handled != s.done.injected {
      var a := IdleWorkerCanDeliver(s);
    }
    assert s.done.list == [] && s.done.batch == [];
    AnsweredIsFreed(s, t);
  }

  lemma InvAnswers(s: World)
    requires Inv(s)
    ensures C.RepliesOk(s.calls) && C.TasksOk(s.calls) && C.LogOk(s.calls)
    ensures Lists(s.calls.tasks, s.done.list, C.Done) && Lists(s.calls.tasks, s.done.batch, C.Batched)
  {
  }

  lemma AnsweredIsFreed(s: World, t: TaskId)
    requires C.RepliesOk(s.calls) && C.TasksOk(s.calls) && C.LogOk(s.calls)
    requires Lists(s.calls.tasks, [], C.Done) && Lists(s.calls.tasks, [], C.Batched)
    requires t in s.calls.tasks && s.calls.tasks[t].reply.Some?
    ensures s.calls.tasks[t].place == C.Freed(if s.calls.tasks[t].aborted then C.Discarded else C.Resumed)
    ensures C.InLog(s.calls.log, t) <==> !s.calls.tasks[t].aborted
  {
    assert C.TaskOk(s.calls.cos, s.calls.posting, t, s.calls.tasks[t]);
    if C.InLog(s.calls.log, t) {
      var i :| 0 <= i < |s.calls.log| && s.calls.log[i].t == t;
      assert C.LogEntryOk(s.calls.tasks, s.calls.log[i]);
    }
  }

  // ----- what a runtime answers is what its callers get -----

  /** Every answer given so far stands in relation `ok` to its own request. */
  ghost predicate AnswersAre(c: C.Table, ok: (Request, Reply) -> bool) {
    forall t :: t in c.tasks && c.tasks[t].reply.Some? ==> ok(c.tasks[t].req, c.tasks[t].reply.value)
  }

  ghost predicate RespondsBy(states: seq<World>, acts: seq<Action>, ok: (Request, Reply) -> bool)
    requires E.IsRun(states, acts)
  {
    forall i :: 0 <= i < |acts| && acts[i].Respond? && acts[i].t in states[i].calls.tasks ==>
      ok(states[i].calls.tasks[acts[i].t].req, acts[i].reply)
  }

  lemma CallStepKeepsAnswers(c: C.Table, ca: C.Action, ok: (Request, Reply) -> bool)
    requires AnswersAre(c, ok) && C.Enabled(c, ca) && (ca.Answer? && ca.t in c.tasks ==> ok(c.tasks[ca.t].req, ca.reply))
    ensures AnswersAre(C.Next(c, ca), ok)
  {
    hide C.Enabled, C.Next;
    var c' := C.Next(c, ca);
    forall t | t in c'.tasks && c'.tasks[t].reply.Some? ensures ok(c'.tasks[t].req, c'.tasks[t].reply.value) {
      C.StepPersists(c, ca, t);
    }
  }

  lemma {:induction false} RunKeepsAnswers(states: seq<World>, acts: seq<Action>, n: nat, ok: (Request, Reply) -> bool)
    requires E.IsRun(states, acts) && n < |states| && RespondsBy(states, acts, ok)
    ensures AnswersAre(states[n].calls, ok)
  {
    hide Inv, Enabled, Next;
    if n > 0 {
      RunKeepsAnswers(states, acts, n - 1, ok);
      E.RunKeepsInv(states, acts, n);
      E.InvParts(states[n]);
      E.StepIsCallStep(states[n - 1], acts[n - 1]);
      var ca := E.CallStep(states[n - 1], acts[n - 1]);
      if ca.Some? {
        if ca.value.Answer? {
          AnswerComesFromRespond(states[n - 1], acts[n - 1]);
          assert acts[n - 1].Respond?;
        }
        CallStepKeepsAnswers(states[n - 1].calls, ca.value, ok);
      }
    }
  }

  lemma AnswerComesFromRespond(s: World, a: Action)
    requires Enabled(s, a) && E.CallStep(s, a).Some? && E.CallStep(s, a).value.Answer?
    ensures a == Respond(E.CallStep(s, a).value.t, E.CallStep(s, a).value.reply)
  {
  }

  ghost predicate IsGoEcho(req: Request, reply: Reply) {
    exists z :: MallocZero(z) && reply == GoEcho(req, z)
  }

  ghost predicate IsRustEcho(req: Request, reply: Reply) {
    req.Text? ==> reply == RustEcho(req.s)
  }

  /** What a logged resumption carries, given what every answer is. */
  lemma LoggedAnswer(c: C.Table, i: nat, ok: (Request, Reply) -> bool)
    requires C.LogOk(c) && AnswersAre(c, ok) && i < |c.log|
    ensures c.log[i].t in c.tasks && c.log[i].co == c.tasks[c.log[i].t].co
    ensures exists reply :: ok(c.tasks[c.log[i].t].req, reply) && c.log[i].pushes == HandlerPushes(reply)
  {
    assert C.LogEntryOk(c.tasks, c.log[i]);
  }

  lemma InvLog(s: World)
    requires Inv(s)
    ensures C.LogOk(s.calls)
  {
  }

  /** End to end: in every run whose runtimes are length-carrying echoes, every coroutine that
      sent a non-empty request and was resumed got `true`, its own request and `nil`. */
  lemma GoEchoEndToEnd(states: seq<World>, acts: seq<Action>, n: nat, i: nat)
    requires E.IsRun(states, acts) && n < |states| && RespondsBy(states, acts, (req, reply) => IsGoEcho(req, reply))
    requires i < |states[n].calls.log|
    ensures var r := states[n].calls.log[i];
            exists req ::
              && E.WasPosted(acts, n, r.t, r.co, req)
              && (req.Text? && req.s != "" ==> r.pushes == Pushed([LuaBool(true), LuaString(req.s), LuaNil]))
  {
    hide Inv, Enabled, Next, E.WasPosted;
    var c, ok := states[n].calls, (req, reply) => IsGoEcho(req, reply);
    RunKeepsAnswers(states, acts, n, ok);
    E.RunKeepsInv(states, acts, n);
    InvLog(states[n]);
    LoggedAnswer(c, i, ok);
    E.RecordIsThePost(states, acts, n, c.log[i].t);
    var req := c.tasks[c.log[i].t].req;
    assert E.WasPosted(acts, n, c.log[i].t, c.log[i].co, req);
    if req.Text? {
      var z :| MallocZero(z) && c.log[i].pushes == HandlerPushes(GoEcho(req, z));
      GoEchoValue(req.s, z);
    }
  }

  /** The same for C-string echoes: the coroutine got its request up to the first NUL. */
  lemma RustEchoEndToEnd(states: seq<World>, acts: seq<Action>, n: nat, i: nat)
    requires E.IsRun(states, acts) && n < |states| && RespondsBy(states, acts, (req, reply) => IsRustEcho(req, reply))
    requires i < |states[n].calls.log|
    ensures var r := states[n].calls.log[i];
            exists req ::
              && E.WasPosted(acts, n, r.t, r.co, req)
              && (req.Text? ==> r.pushes == Pushed([LuaBool(true), LuaString(BeforeNul(req.s)), LuaNil]))
  {
    hide Inv, Enabled, Next, E.WasPosted;
    var c, ok := states[n].calls, (req, reply) => IsRustEcho(req, reply);
    RunKeepsAnswers(states, acts, n, ok);
    E.RunKeepsInv(states, acts, n);
    InvLog(states[n]);
    LoggedAnswer(c, i, ok);
    E.RecordIsThePost(states, acts, n, c.log[i].t);
    var req := c.tasks[c.log[i].t].req;
    assert E.WasPosted(acts, n, c.log[i].t, c.log[i].co, req);
    if req.Text? {
      RustEchoValue(req.s);
    }
  }
}
