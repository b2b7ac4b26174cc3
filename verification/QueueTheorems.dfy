/** What the request queue promises over whole runs: a bound on its length, no lost wakeup, and a
    shutdown that touches nothing freed. */
module QueueTheorems {
  import opened BoundedFifo
  import opened RequestQueue

  // ----- runs -----

  /** `states[i]` becomes `states[i + 1]` by `acts[i]`. */
  ghost predicate IsRun(states: seq<Queue>, acts: seq<Action>) {
    && |states| == |acts| + 1
    && forall i :: 0 <= i < |acts| ==> Enabled(states[i], acts[i]) && states[i + 1] == Next(states[i], acts[i])
  }

  ghost predicate FromInit(states: seq<Queue>) {
    states != [] && states[0] == Init(states[0].fifo.maxQueue, states[0].pollers)
  }

  lemma {:induction false} RunKeepsInv(states: seq<Queue>, acts: seq<Action>, i: nat)
    requires IsRun(states, acts) && FromInit(states) && i < |states|
    ensures Inv(states[i])
  {
    if i == 0 {
      InitInv(states[0].fifo.maxQueue, states[0].pollers);
    } else {
      RunKeepsInv(states, acts, i - 1);
      StepKeepsInv(states[i - 1], acts[i - 1]);
    }
  }

  // ----- the counter and the bound -----

  /** A call is accepted exactly when the list is shorter than `max_queue` plus the pollers
      inside poll, the sentinel always, and the list never outgrows that sum except by
      sentinels. */
  lemma AcceptanceAndBound(states: seq<Queue>, acts: seq<Action>, i: nat)
    requires IsRun(states, acts) && FromInit(states) && i < |states|
    ensures var s := states[i];
            && s.fifo.waiting == |s.fifo.items| - |Inside(s)|
            && |s.fifo.items| <= Limit(s) + |Inside(s)| + Sentinels(s.accepted)
            && (s.holder.WorkerHas? && s.holder.phase.Locked? ==>
                 && (Enabled(s, Refuse) <==>
                       s.holder.item.Call? && |s.fifo.items| >= s.fifo.maxQueue + |Inside(s)|)
                 && (s.holder.item.Sentinel? ==> !Enabled(s, Refuse)))
  {
    RunKeepsInv(states, acts, i);
    InsideCount(states[i]);
  }

  // ----- wakeups -----

  /** Whoever has the mutex can take its next step, whatever the state of the list. */
  lemma HolderCanStep(s: Queue) returns (a: Action)
    requires !s.holder.Free?
    ensures Enabled(s, a) && !a.Lock? && !a.Enter? && !a.Wake? && !a.Relock?
  {
    match s.holder
    case WorkerHas(item, Locked) =>
      if Refuses(s.fifo, item.Call?) {
        a := Refuse;
      } else if s.sleepers == {} {
        a := Signal(Nobody);
      } else {
        var p :| p in s.sleepers;
        a := Signal(Sleeper(p));
      }
    case WorkerHas(_, Signalled) => a := Action.Append;
    case WorkerHas(_, Appended) => a := Unlock;
    case Checking(p) => a := if s.fifo.items == [] then Sleep(p) else Action.Unlink(p);
    case Unlinked(p, _) => a := Return(p);
  }

  /** No lost wakeup: with the mutex free, as long as some poller sleeps there are at least as
      many woken pollers as items, so with an item in the list and a poller inside poll some
      poller can step, without any further signal. */
  lemma NoWakeupIsLost(states: seq<Queue>, acts: seq<Action>, i: nat) returns (a: Action)
    requires IsRun(states, acts) && FromInit(states) && i < |states|
    requires states[i].fifo.items != [] && Inside(states[i]) != {}
    ensures var s := states[i];
            && Enabled(s, a) && !a.Lock? && !a.Enter? && !a.Wake?
            && (s.holder.Free? && s.sleepers != {} ==> |s.fifo.items| <= |s.woken|)
            && (s.holder.Free? ==> a.Relock?)
  {
    RunKeepsInv(states, acts, i);
    var s := states[i];
    if s.holder.Free? {
      var p :| p in s.woken;
      a := Relock(p);
    } else {
      a := HolderCanStep(s);
    }
  }

  /** A poller that finds nothing sleeps; one that is woken for nothing looks, and sleeps again,
      the counter being charged for one poller all the time. */
  lemma SleepsAgain(maxQueue: int, pollers: set<Tid>, p: Tid) returns (states: seq<Queue>, acts: seq<Action>)
    requires p in pollers
    ensures IsRun(states, acts) && states[0] == Init(maxQueue, pollers) && DisciplinedRun(states, acts)
    ensures Wake(p) in acts
    ensures states[|acts|] == Init(maxQueue, pollers).(fifo := Fifo([], -1, maxQueue), sleepers := {p})
  {
    states, acts := Extend([Init(maxQueue, pollers)], [], Action.Enter(p));
    states, acts := Extend(states, acts, Sleep(p));
    assert states[|acts|].sleepers == {p};
    states, acts := Extend(states, acts, Wake(p));
    assert states[|acts|].sleepers == {} && states[|acts|].woken == {p};
    states, acts := Extend(states, acts, Relock(p));
    assert states[|acts|].woken == {};
    states, acts := Extend(states, acts, Sleep(p));
  }

  /** And a sleeping poller is served by the next post, even at a limit of 0. */
  lemma SleeperIsServed(maxQueue: nat, pollers: set<Tid>, p: Tid, t: TaskId) returns (states: seq<Queue>, acts: seq<Action>)
    requires p in pollers
    ensures IsRun(states, acts) && states[0] == Init(maxQueue, pollers)
    ensures states[|acts|] ==
              Init(maxQueue, pollers).(accepted := [Call(t)], returned := [Call(t)])
  {
    states, acts := SleepsAgain(maxQueue, pollers, p);
    states, acts := Extend(states, acts, Lock(Call(t)));
    states, acts := Extend(states, acts, Signal(Sleeper(p)));
    assert states[|acts|].sleepers == {} && states[|acts|].woken == {p};
    states, acts := Extend(states, acts, Action.Append);
    states, acts := Extend(states, acts, Unlock);
    states, acts := Extend(states, acts, Relock(p));
    assert states[|acts|].woken == {};
    states, acts := Extend(states, acts, Action.Unlink(p));
    states, acts := Extend(states, acts, Return(p));
  }

  // ----- shutdown -----

  /** Lua's promise: nothing is posted once the sentinel has been. */
  predicate Disciplined(s: Queue, a: Action) {
    a.Lock? ==> Sentinel !in s.accepted
  }

  ghost predicate SinglePoller(s: Queue) {
    forall p, p' :: p in s.pollers && p' in s.pollers ==> p == p'
  }

  /** The sentinel, once accepted, is the last thing ever accepted. */
  ghost predicate SentinelLast(s: Queue) {
    && (forall i :: 0 <= i < |s.accepted| - 1 ==> s.accepted[i] != Sentinel)
    && (s.holder.WorkerHas? && !s.holder.phase.Appended? ==> Sentinel !in s.accepted)
  }

  /** The queue is being freed or has been: everything accepted was returned, and nobody is
      left who could touch it. */
  ghost predicate Over(s: Queue) {
    && s.fifo.items == [] && s.returned == s.accepted
    && Sentinel in s.accepted
    && s.holder.Free? && s.sleepers == {} && s.woken == {}
  }

  ghost predicate ShutdownInv(s: Queue) {
    && SentinelLast(s)
    && (Sentinel in s.returned <==> s.closing + s.exited != {})
    && (s.closing + s.exited != {} ==> Over(s))
    && s.frees == |s.exited|
  }

  lemma {:induction false} StepKeepsSentinelLast(s: Queue, a: Action)
    requires SentinelLast(s) && Enabled(s, a) && Disciplined(s, a)
    ensures SentinelLast(Next(s, a))
  {
  }

  /** Returning the sentinel leaves nobody but its poller and nothing in the list. */
  lemma ReturningSentinelIsLast(s: Queue, p: Tid)
    requires Inv(s) && SinglePoller(s) && SentinelLast(s) && s.holder == Unlinked(p, Sentinel)
    ensures s.fifo.items == [] && s.sleepers == {} && s.woken == {} && s.closing == {} && s.exited == {}
  {
    assert s.accepted[|s.returned|] == Sentinel;
    forall p' ensures p' !in s.sleepers && p' !in s.woken && p' !in s.closing && p' !in s.exited {
      if p' in s.pollers { assert p' == p; }
    }
  }

  lemma {:induction false} StepKeepsShutdown(s: Queue, a: Action)
    requires Inv(s) && SinglePoller(s) && ShutdownInv(s) && Enabled(s, a) && Disciplined(s, a)
    ensures ShutdownInv(Next(s, a))
  {
    StepKeepsSentinelLast(s, a);
    if a.Return? && s.holder.item.Sentinel? {
      ReturningSentinelIsLast(s, a.p);
    } else if a.Destroy? {
      assert |s.exited + {a.p}| == |s.exited| + 1;
    } else {
      QuietStepKeepsShutdown(s, a);
    }
  }

  lemma {:induction false} QuietStepKeepsShutdown(s: Queue, a: Action)
    requires Inv(s) && SinglePoller(s) && ShutdownInv(s) && Enabled(s, a) && Disciplined(s, a)
    requires !a.Destroy? && (a.Return? ==> s.holder.item.Call?)
    ensures s.closing + s.exited == {}
    ensures ShutdownInv(Next(s, a))
  {
    StepKeepsSentinelLast(s, a);
    if p :| p in s.closing + s.exited {
      NothingTouchesAClosedQueue(s, p, a);
    }
  }

  /** Once a lone poller has returned the sentinel, its own free is the only thing that can
      still happen to the queue. */
  lemma NothingTouchesAClosedQueue(s: Queue, p: Tid, a: Action)
    requires Inv(s) && SinglePoller(s) && ShutdownInv(s) && p in s.closing + s.exited
    requires Disciplined(s, a) && Enabled(s, a)
    ensures a == Destroy(p)
  {
    assert p in s.pollers;
  }

  lemma ExitedAtMostOnce(s: Queue)
    requires Inv(s) && SinglePoller(s)
    ensures |s.exited| <= 1 && (s.closing != {} ==> s.exited == {}) && (s.exited != {} ==> s.exited == s.pollers)
  {
    if p :| p in s.exited {
      assert s.exited == {p};
    }
  }

  ghost predicate DisciplinedRun(states: seq<Queue>, acts: seq<Action>)
    requires IsRun(states, acts)
  {
    forall i :: 0 <= i < |acts| ==> Disciplined(states[i], acts[i])
  }

  lemma {:induction false} RunKeepsShutdown(states: seq<Queue>, acts: seq<Action>, i: nat)
    requires IsRun(states, acts) && FromInit(states) && DisciplinedRun(states, acts) && i < |states|
    requires SinglePoller(states[0])
    ensures Inv(states[i]) && SinglePoller(states[i]) && ShutdownInv(states[i])
  {
    RunKeepsInv(states, acts, i);
    if i > 0 {
      RunKeepsShutdown(states, acts, i - 1);
      StepKeepsShutdown(states[i - 1], acts[i - 1]);
    }
  }

  /** What a freed queue looks like. */
  ghost predicate Final(s: Queue) {
    && s.frees == 1
    && s.fifo.items == [] && s.returned == s.accepted
    && |s.accepted| > 0 && s.accepted[|s.accepted| - 1] == Sentinel
    && (forall k :: 0 <= k < |s.accepted| - 1 ==> s.accepted[k].Call?)
  }

  lemma FreedIsFinal(s: Queue)
    requires Inv(s) && SinglePoller(s) && ShutdownInv(s) && s.frees > 0
    ensures Final(s)
    ensures forall a :: Disciplined(s, a) ==> !Enabled(s, a)
  {
    ExitedAtMostOnce(s);
    forall a | Disciplined(s, a) ensures !Enabled(s, a) {
      if Enabled(s, a) {
        var p :| p in s.exited;
        NothingTouchesAClosedQueue(s, p, a);
      }
    }
  }

  /** Graceful shutdown: when the queue is freed, which happens at most once, everything ever
      accepted has been returned by poll in the order of acceptance, the sentinel was the last
      thing accepted, and no disciplined action can touch the queue any more. */
  lemma GracefulShutdown(states: seq<Queue>, acts: seq<Action>, i: nat)
    requires IsRun(states, acts) && FromInit(states) && DisciplinedRun(states, acts) && i < |states|
    requires SinglePoller(states[0]) && states[i].frees > 0
    ensures Final(states[i])
    ensures forall a :: Disciplined(states[i], a) ==> !Enabled(states[i], a)
  {
    RunKeepsShutdown(states, acts, i);
    FreedIsFinal(states[i]);
  }

  /** No disciplined run from an empty queue lets anything touch the queue after its free. */
  ghost predicate SafeShutdown(maxQueue: int, pollers: set<Tid>) {
    forall states: seq<Queue>, acts: seq<Action>, a: Action ::
      IsRun(states, acts) && states[0] == Init(maxQueue, pollers) && DisciplinedRun(states, acts)
      && states[|acts|].frees > 0 && Disciplined(states[|acts|], a)
      ==> !Enabled(states[|acts|], a)
  }

  /** The shutdown is safe exactly for queues with at most one polling thread: with two, the
      second can enter poll after the first has freed the queue. */
  lemma SafeShutdownIffSinglePoller(maxQueue: int, pollers: set<Tid>)
    ensures SafeShutdown(maxQueue, pollers) <==> SinglePoller(Init(maxQueue, pollers))
  {
    if SinglePoller(Init(maxQueue, pollers)) {
      forall states: seq<Queue>, acts: seq<Action>, a: Action |
        IsRun(states, acts) && states[0] == Init(maxQueue, pollers) && DisciplinedRun(states, acts)
        && states[|acts|].frees > 0 && Disciplined(states[|acts|], a)
        ensures !Enabled(states[|acts|], a)
      {
        GracefulShutdown(states, acts, |acts|);
      }
    } else {
      var p, p' :| p in pollers && p' in pollers && p != p';
      var states, acts := SecondPollerTouchesFreedQueue(maxQueue, pollers, p, p');
      assert Disciplined(states[|acts|], Enter(p'));
    }
  }

  lemma Extend(states: seq<Queue>, acts: seq<Action>, a: Action) returns (states': seq<Queue>, acts': seq<Action>)
    requires IsRun(states, acts) && DisciplinedRun(states, acts)
    requires Enabled(states[|acts|], a) && Disciplined(states[|acts|], a)
    ensures IsRun(states', acts') && DisciplinedRun(states', acts')
    ensures states'[0] == states[0] && states'[|acts'|] == Next(states[|acts|], a) && acts' == acts + [a]
  {
    states', acts' := states + [Next(states[|acts|], a)], acts + [a];
  }

  /** Unload of an idle queue nobody polls yet. */
  lemma UnloadRun(maxQueue: int, pollers: set<Tid>) returns (states: seq<Queue>, acts: seq<Action>)
    ensures IsRun(states, acts) && states[0] == Init(maxQueue, pollers) && DisciplinedRun(states, acts)
    ensures states[|acts|] ==
              Init(maxQueue, pollers).(fifo := Fifo([Sentinel], 1, maxQueue), accepted := [Sentinel])
  {
    states, acts := Extend([Init(maxQueue, pollers)], [], Lock(Sentinel));
    states, acts := Extend(states, acts, Signal(Nobody));
    states, acts := Extend(states, acts, Action.Append);
    states, acts := Extend(states, acts, Unlock);
  }

  lemma SecondPollerTouchesFreedQueue(maxQueue: int, pollers: set<Tid>, p: Tid, p': Tid)
    returns (states: seq<Queue>, acts: seq<Action>)
    requires p in pollers && p' in pollers && p != p'
    ensures IsRun(states, acts) && states[0] == Init(maxQueue, pollers) && DisciplinedRun(states, acts)
    ensures states[|acts|].frees > 0 && Enabled(states[|acts|], Enter(p'))
  {
    states, acts := UnloadRun(maxQueue, pollers);
    states, acts := Extend(states, acts, Action.Enter(p));
    states, acts := Extend(states, acts, Action.Unlink(p));
    states, acts := Extend(states, acts, Return(p));
    states, acts := Extend(states, acts, Destroy(p));
  }

  // ----- draining after unload -----

  /** Where the lone poller is on its way round the loop. */
  function PollerRank(s: Queue, p: Tid): nat {
    if s.holder.Unlinked? then 5
    else if p in s.exited then 0
    else if p in s.closing || s.holder.Checking? then 1
    else if p in s.woken then 2
    else if p in s.sleepers then 3
    else 4
  }

  function DrainMeasure(s: Queue, p: Tid): nat {
    6 * |s.fifo.items| + PollerRank(s, p) + if s.holder.WorkerHas? then 1 else 0
  }

  /** Unload is complete on the worker's side: the sentinel is in. */
  ghost predicate Draining(s: Queue, p: Tid) {
    Inv(s) && s.pollers == {p} && ShutdownInv(s) && Sentinel in s.accepted
  }

  /** After unload every step, spurious wakeups included, makes the measure smaller: the list
      can no longer grow and the poller can no longer go to sleep. */
  lemma {:induction false} DrainStep(s: Queue, p: Tid, a: Action)
    requires Draining(s, p) && Enabled(s, a) && Disciplined(s, a)
    ensures Draining(Next(s, a), p)
    ensures DrainMeasure(Next(s, a), p) < DrainMeasure(s, p)
    ensures Next(s, a).accepted == s.accepted
  {
    StepKeepsInv(s, a);
    StepKeepsShutdown(s, a);
  }

  /** Until the queue is freed somebody can step. */
  lemma DrainCanStep(s: Queue, p: Tid) returns (a: Action)
    requires Draining(s, p) && s.frees == 0
    ensures Enabled(s, a) && Disciplined(s, a) && !a.Lock?
  {
    if !s.holder.Free? {
      a := HolderCanStep(s);
    } else {
      a := if p in s.closing then Destroy(p)
           else if p in s.woken then Relock(p)
           else if p in s.sleepers then Wake(p)
           else Action.Enter(p);
    }
  }

  /** Drain termination: from the moment the sentinel is in, a disciplined run of a queue with
      one poller has at most as many steps as the measure says, and one that cannot be extended
      has freed the queue with every accepted item returned, in the order of acceptance. */
  lemma {:induction false} DrainTerminates(states: seq<Queue>, acts: seq<Action>, p: Tid)
    requires IsRun(states, acts) && DisciplinedRun(states, acts) && Draining(states[0], p)
    ensures |acts| + DrainMeasure(states[|acts|], p) <= DrainMeasure(states[0], p)
    ensures Draining(states[|acts|], p) && states[|acts|].accepted == states[0].accepted
    ensures (forall a :: Disciplined(states[|acts|], a) ==> !Enabled(states[|acts|], a))
            ==> states[|acts|].frees == 1 && states[|acts|].returned == states[0].accepted
  {
    DrainPrefix(states, acts, p, |acts|);
    var s := states[|acts|];
    if s.frees == 0 {
      var a := DrainCanStep(s, p);
    } else {
      ExitedAtMostOnce(s);
    }
  }

  lemma {:induction false} DrainPrefix(states: seq<Queue>, acts: seq<Action>, p: Tid, n: nat)
    requires IsRun(states, acts) && DisciplinedRun(states, acts) && Draining(states[0], p) && n <= |acts|
    ensures n + DrainMeasure(states[n], p) <= DrainMeasure(states[0], p)
    ensures Draining(states[n], p) && states[n].accepted == states[0].accepted
  {
    if n > 0 {
      DrainPrefix(states, acts, p, n - 1);
      DrainStep(states[n - 1], p, acts[n - 1]);
    }
  }
}
