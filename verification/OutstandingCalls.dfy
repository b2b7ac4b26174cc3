/** The exchange as a caller sees it: a map of outstanding calls.  Every step of a call's life
    is a step of this map or changes nothing in it. */
module OutstandingCalls {
  import opened Options
  import opened Replies
  import opened Calls

  datatype Pending = Pending(co: CoId, req: Request, answer: Option<Reply>, aborted: bool)

  datatype Spec = Spec(
    issued: set<TaskId>,                   // every call ever accepted
    outstanding: map<TaskId, Pending>,
    log: seq<Resumption>)

  datatype SpecAction =
    | Issue(t: TaskId, co: CoId, req: Request)
    | Respond(t: TaskId, reply: Reply)
    | Cancel(t: TaskId)
    | Deliver(t: TaskId)
    | Drop(t: TaskId)
    | Stutter

  predicate SpecEnabled(m: Spec, a: SpecAction) {
    match a
    case Issue(t, _, _) => t !in m.issued
    case Respond(t, _) => t in m.outstanding && m.outstanding[t].answer.None?
    case Cancel(t) => t in m.outstanding && !m.outstanding[t].aborted
    case Deliver(t) => t in m.outstanding && m.outstanding[t].answer.Some? && !m.outstanding[t].aborted
    case Drop(t) => t in m.outstanding && m.outstanding[t].answer.Some? && m.outstanding[t].aborted
    case Stutter => true
  }

  function SpecNext(m: Spec, a: SpecAction): Spec
    requires SpecEnabled(m, a)
  {
    match a
    case Issue(t, co, req) =>
      m.(issued := m.issued + {t}, outstanding := m.outstanding[t := Pending(co, req, None, false)])
    case Respond(t, reply) => m.(outstanding := m.outstanding[t := m.outstanding[t].(answer := Some(reply))])
    case Cancel(t) => m.(outstanding := m.outstanding[t := m.outstanding[t].(aborted := true)])
    case Deliver(t) =>
      var c := m.outstanding[t];
      m.(outstanding := m.outstanding - {t}, log := m.log + [Resumption(t, c.co, HandlerPushes(c.answer.value))])
    case Drop(t) => m.(outstanding := m.outstanding - {t})
    case Stutter => m
  }

  const SPEC_INIT: Spec := Spec({}, map[], [])

  ghost predicate IsSpecRun(ms: seq<Spec>, acts: seq<SpecAction>) {
    && |ms| == |acts| + 1 && ms[0] == SPEC_INIT
    && forall i :: 0 <= i < |acts| ==> SpecEnabled(ms[i], acts[i]) && ms[i + 1] == SpecNext(ms[i], acts[i])
  }

  ghost predicate Did(acts: seq<SpecAction>, n: nat, a: SpecAction) {
    exists i :: 0 <= i < n && i < |acts| && acts[i] == a
  }

  ghost predicate WasIssued(acts: seq<SpecAction>, n: nat, t: TaskId) {
    exists co, req :: Did(acts, n, Issue(t, co, req))
  }

  /** What the map knows after `n` steps is what those steps did, no more and no less. */
  ghost predicate Remembers(m: Spec, acts: seq<SpecAction>, n: nat) {
    && (forall t :: t in m.issued <==> WasIssued(acts, n, t))
    && (forall t :: t in m.outstanding <==>
          WasIssued(acts, n, t) && !Did(acts, n, Deliver(t)) && !Did(acts, n, Drop(t)))
    && (forall t :: t in m.outstanding ==> RemembersCall(m.outstanding[t], acts, n, t))
    && (forall t :: t !in m.issued ==> NothingDone(acts, n, t))
  }

  ghost predicate RemembersCall(c: Pending, acts: seq<SpecAction>, n: nat, t: TaskId) {
    && (forall co, req :: Did(acts, n, Issue(t, co, req)) <==> co == c.co && req == c.req)
    && (forall reply :: Did(acts, n, Respond(t, reply)) <==> c.answer == Some(reply))
    && (c.aborted <==> Did(acts, n, Cancel(t)))
  }

  ghost predicate NothingDone(acts: seq<SpecAction>, n: nat, t: TaskId) {
    && !Did(acts, n, Deliver(t)) && !Did(acts, n, Drop(t)) && !Did(acts, n, Cancel(t))
    && forall reply :: !Did(acts, n, Respond(t, reply))
  }

  lemma DidNext(acts: seq<SpecAction>, n: nat, n': nat)
    requires n < |acts| && n' == n + 1
    ensures forall a :: Did(acts, n', a) <==> Did(acts, n, a) || acts[n] == a
  {
    forall a ensures Did(acts, n', a) <==> Did(acts, n, a) || acts[n] == a {
      if Did(acts, n, a) {
        var i :| 0 <= i < n && acts[i] == a;
      }
    }
  }

  lemma {:induction false} RunRemembers(ms: seq<Spec>, acts: seq<SpecAction>, n: nat)
    requires IsSpecRun(ms, acts) && n <= |acts|
    ensures Remembers(ms[n], acts, n)
  {
    if n > 0 {
      RunRemembers(ms, acts, n - 1);
      StepRemembers(ms[n - 1], acts, n - 1, n);
    }
  }

  lemma {:induction false} StepRemembers(m: Spec, acts: seq<SpecAction>, n: nat, n': nat)
    requires n < |acts| && n' == n + 1 && SpecEnabled(m, acts[n]) && Remembers(m, acts, n)
    ensures Remembers(SpecNext(m, acts[n]), acts, n')
  {
    hide Did, WasIssued, RemembersCall, NothingDone;
    DidNext(acts, n, n');
    IssuedNext(acts, n, n');
    var m' := SpecNext(m, acts[n]);
    forall t | t in m'.outstanding ensures RemembersCall(m'.outstanding[t], acts, n', t) {
      CallRemembers(m, acts, n, n', t);
    }
    forall t | t !in m'.issued ensures NothingDone(acts, n', t) {
      NothingRemembers(m, acts, n, n', t);
    }
    forall t | t !in m.issued ensures !Did(acts, n, Deliver(t)) && !Did(acts, n, Drop(t)) {
      NothingKnown(acts, n, t);
    }
  }

  lemma NothingKnown(acts: seq<SpecAction>, n: nat, t: TaskId)
    requires NothingDone(acts, n, t)
    ensures !Did(acts, n, Deliver(t)) && !Did(acts, n, Drop(t))
  {
  }

  lemma NothingRemembers(m: Spec, acts: seq<SpecAction>, n: nat, n': nat, t: TaskId)
    requires n < |acts| && n' == n + 1 && SpecEnabled(m, acts[n]) && Remembers(m, acts, n)
    requires t !in SpecNext(m, acts[n]).issued
    ensures NothingDone(acts, n', t)
  {
    hide Did, WasIssued, RemembersCall;
    DidNext(acts, n, n');
  }

  lemma IssuedNext(acts: seq<SpecAction>, n: nat, n': nat)
    requires n < |acts| && n' == n + 1
    ensures forall t :: WasIssued(acts, n', t) <==> WasIssued(acts, n, t) || (acts[n].Issue? && acts[n].t == t)
  {
    hide Did;
    DidNext(acts, n, n');
    forall t ensures WasIssued(acts, n', t) <==> WasIssued(acts, n, t) || (acts[n].Issue? && acts[n].t == t) {
      if acts[n].Issue? && acts[n].t == t {
        assert Did(acts, n', Issue(t, acts[n].co, acts[n].req));
      }
    }
  }

  lemma CallRemembers(m: Spec, acts: seq<SpecAction>, n: nat, n': nat, t: TaskId)
    requires n < |acts| && n' == n + 1 && SpecEnabled(m, acts[n]) && Remembers(m, acts, n)
    requires t in SpecNext(m, acts[n]).outstanding
    ensures RemembersCall(SpecNext(m, acts[n]).outstanding[t], acts, n', t)
  {
    hide Did;
    DidNext(acts, n, n');
    if t in m.outstanding {
      hide WasIssued, NothingDone;
      OldCallRemembers(m.outstanding[t], SpecNext(m, acts[n]).outstanding[t], acts, n, n', t);
    } else {
      hide RemembersCall, Remembers;
      NewCallRemembers(m, acts, n, n', t);
    }
  }

  lemma OldCallRemembers(c: Pending, c': Pending, acts: seq<SpecAction>, n: nat, n': nat, t: TaskId)
    requires n < |acts| && n' == n + 1 && RemembersCall(c, acts, n, t)
    requires match acts[n]
             case Issue(t', _, _) => t' != t && c' == c
             case Respond(t', reply) => if t' == t then c.answer.None? && c' == c.(answer := Some(reply)) else c' == c
             case Cancel(t') => c' == if t' == t then c.(aborted := true) else c
             case _ => c' == c
    ensures RemembersCall(c', acts, n', t)
  {
    hide Did;
    DidNext(acts, n, n');
  }

  lemma NewCallRemembers(m: Spec, acts: seq<SpecAction>, n: nat, n': nat, t: TaskId)
    requires n < |acts| && n' == n + 1 && SpecEnabled(m, acts[n]) && Remembers(m, acts, n)
    requires t !in m.outstanding && t in SpecNext(m, acts[n]).outstanding
    ensures RemembersCall(SpecNext(m, acts[n]).outstanding[t], acts, n', t)
  {
    hide Did;
    DidNext(acts, n, n');
    assert t !in m.issued && !WasIssued(acts, n, t);
    assert NothingDone(acts, n, t);
  }

  /** In every run of the map a call is delivered at most once, never after it was cancelled or
      dropped, and only to the coroutine that issued it, with the answer given to it. */
  lemma DeliveredOnceWithItsOwnAnswer(ms: seq<Spec>, acts: seq<SpecAction>, n: nat, t: TaskId)
    requires IsSpecRun(ms, acts) && n < |acts| && acts[n] == Deliver(t)
    ensures !Did(acts, n, Deliver(t)) && !Did(acts, n, Drop(t)) && !Did(acts, n, Cancel(t))
    ensures exists co, req, reply ::
              && Did(acts, n, Issue(t, co, req)) && Did(acts, n, Respond(t, reply))
              && ms[n + 1].log == ms[n].log + [Resumption(t, co, HandlerPushes(reply))]
  {
    hide Did, Remembers;
    RunRemembers(ms, acts, n);
    var c := ms[n].outstanding[t];
    KnownCall(ms[n], acts, n, t);
    assert Did(acts, n, Issue(t, c.co, c.req)) && Did(acts, n, Respond(t, c.answer.value));
  }

  lemma KnownCall(m: Spec, acts: seq<SpecAction>, n: nat, t: TaskId)
    requires Remembers(m, acts, n) && t in m.outstanding
    ensures !Did(acts, n, Deliver(t)) && !Did(acts, n, Drop(t)) && RemembersCall(m.outstanding[t], acts, n, t)
  {
    hide Did, WasIssued, NothingDone, RemembersCall;
  }

  // ----- the refinement -----

  predicate Accepted(p: Place) {
    Outstanding(p) || p == Freed(Resumed) || p == Freed(Discarded)
  }

  function AbsOutstanding(tasks: map<TaskId, Task>): map<TaskId, Pending> {
    map t | t in tasks && Outstanding(tasks[t].place) ::
      Pending(tasks[t].co, tasks[t].req, tasks[t].reply, tasks[t].aborted)
  }

  function AbsIssued(tasks: map<TaskId, Task>): set<TaskId> {
    set t | t in tasks && Accepted(tasks[t].place)
  }

  function Abs(s: Table): Spec {
    Spec(AbsIssued(s.tasks), AbsOutstanding(s.tasks), s.log)
  }

  /** Which step of the map a step of the table is. */
  function AbsAction(s: Table, a: Action): SpecAction
    requires Enabled(s, a)
  {
    match a
    case Accept(t) => Issue(t, s.tasks[t].co, s.tasks[t].req)
    case Answer(t, reply) => Respond(t, reply)
    case Handle(t) => if s.tasks[t].aborted then Drop(t) else Deliver(t)
    case Abort(co) =>
      var hook := s.cos[co].hook;
      if hook.Some? && hook.value in s.tasks && !s.tasks[hook.value].place.Freed? then Cancel(hook.value) else Stutter
    case _ => Stutter
  }

  function PendingOf(k: Task): Pending {
    Pending(k.co, k.req, k.reply, k.aborted)
  }

  lemma AbsUpdate(tasks: map<TaskId, Task>, t: TaskId, k: Task)
    ensures AbsOutstanding(tasks[t := k]) ==
              if Outstanding(k.place) then AbsOutstanding(tasks)[t := PendingOf(k)] else AbsOutstanding(tasks) - {t}
    ensures AbsIssued(tasks[t := k]) ==
              if Accepted(k.place) then AbsIssued(tasks) + {t} else AbsIssued(tasks) - {t}
  {
  }

  lemma AbsBatch(s: Table, ts: seq<TaskId>)
    requires Enabled(s, Batch(ts))
    ensures AbsOutstanding(Next(s, Batch(ts)).tasks) == AbsOutstanding(s.tasks)
    ensures AbsIssued(Next(s, Batch(ts)).tasks) == AbsIssued(s.tasks)
  {
    var tasks := Next(s, Batch(ts)).tasks;
    forall t ensures t in AbsIssued(tasks) <==> t in AbsIssued(s.tasks) {
      assert t in s.tasks ==> (Accepted(tasks[t].place) <==> Accepted(s.tasks[t].place));
    }
  }

  ghost predicate Refines(s: Table, a: Action)
    requires Enabled(s, a)
  {
    SpecEnabled(Abs(s), AbsAction(s, a)) && Abs(Next(s, a)) == SpecNext(Abs(s), AbsAction(s, a))
  }

  /** A task that stays live, or stays dead, is no step of the map. */
  lemma SilentUpdate(tasks: map<TaskId, Task>, t: TaskId, k: Task)
    requires t in tasks ==> (Outstanding(k.place) <==> Outstanding(tasks[t].place)) && (Accepted(k.place) <==> Accepted(tasks[t].place))
    requires t in tasks && Outstanding(k.place) ==> PendingOf(k) == PendingOf(tasks[t])
    requires t !in tasks ==> !Accepted(k.place)
    ensures AbsOutstanding(tasks[t := k]) == AbsOutstanding(tasks) && AbsIssued(tasks[t := k]) == AbsIssued(tasks)
  {
    AbsUpdate(tasks, t, k);
    assert !Accepted(k.place) ==> t !in AbsIssued(tasks);
    assert !Outstanding(k.place) ==> t !in AbsOutstanding(tasks);
  }

  lemma StartRefines(s: Table, a: Action)
    requires Enabled(s, a) && (a.Spawn? || a.Create? || a.Refuse? || a.Yield?)
    ensures Refines(s, a)
  {
    match a
    case Create(co, t, q, req) => SilentUpdate(s.tasks, t, Task(co, q, req, Created, None, false));
    case Refuse(t) => SilentUpdate(s.tasks, t, s.tasks[t].(place := Freed(Refused)));
    case _ =>
  }

  lemma MoveRefines(s: Table, a: Action)
    requires Enabled(s, a) && (a.Take? || a.Hand? || a.Batch?)
    ensures Refines(s, a)
  {
    match a
    case Take(t) => SilentUpdate(s.tasks, t, s.tasks[t].(place := InHand));
    case Hand(t) => SilentUpdate(s.tasks, t, s.tasks[t].(place := Held));
    case Batch(ts) => AbsBatch(s, ts);
  }

  lemma AcceptRefines(s: Table, t: TaskId)
    requires RepliesOk(s) && TasksOk(s) && Enabled(s, Accept(t))
    ensures Refines(s, Accept(t))
  {
    AbsUpdate(s.tasks, t, s.tasks[t].(place := Queued));
    assert TaskOk(s.cos, s.posting, t, s.tasks[t]);
  }

  lemma AnswerRefines(s: Table, t: TaskId, reply: Reply)
    requires RepliesOk(s) && Enabled(s, Answer(t, reply))
    ensures Refines(s, Answer(t, reply))
  {
    AbsUpdate(s.tasks, t, s.tasks[t].(place := Done, reply := Some(reply)));
  }

  lemma HandleRefines(s: Table, t: TaskId)
    requires RepliesOk(s) && Enabled(s, Handle(t))
    ensures Refines(s, Handle(t))
  {
    var fate := if s.tasks[t].aborted then Discarded else Resumed;
    AbsUpdate(s.tasks, t, s.tasks[t].(place := Freed(fate)));
    assert t in AbsIssued(s.tasks);
  }

  lemma AbortRefines(s: Table, co: CoId)
    requires CosOk(s) && TasksOk(s) && Enabled(s, Abort(co))
    ensures Refines(s, Abort(co))
  {
    var hook := s.cos[co].hook;
    if hook.Some? && !s.tasks[hook.value].place.Freed? {
      AbsUpdate(s.tasks, hook.value, s.tasks[hook.value].(aborted := true));
      assert hook.value in AbsIssued(s.tasks);
    }
  }

  /** The whole life of every call refines the map: a call is issued where its task is appended,
      answered where its runtime responds, cancelled where its coroutine is aborted, and either
      delivered, with its own answer, or dropped where its task is handled. */
  lemma StepRefines(s: Table, a: Action)
    requires Inv(s) && Enabled(s, a)
    ensures Refines(s, a)
  {
    hide RepliesOk, CosOk, TasksOk, LogOk, FreesOk, Refines;
    match a
    case Accept(t) => AcceptRefines(s, t);
    case Answer(t, reply) => AnswerRefines(s, t, reply);
    case Handle(t) => HandleRefines(s, t);
    case Abort(co) => AbortRefines(s, co);
    case Spawn(_) => StartRefines(s, a);
    case Create(_, _, _, _) => StartRefines(s, a);
    case Refuse(_) => StartRefines(s, a);
    case Yield(_) => StartRefines(s, a);
    case _ => MoveRefines(s, a);
  }
}
