/** The done list: runtime threads append answered tasks under a spinlock and then notify the
    worker's event loop; notifications coalesce.  The worker's side is nginx's thread-pool
    handler, taken as: clear the notification, swap out the whole list, handle the batch. */
module DoneQueue {
  type TaskId = nat

  datatype Phase = Idle | Consumed | Draining

  datatype Done = Done(
    list: seq<TaskId>,
    injectors: set<TaskId>,   // between the spinlock release and ngx_notify
    notified: bool,           // a notification is pending
    phase: Phase,             // where the worker's handler is
    batch: seq<TaskId>,       // swapped out, not yet handled
    injected: seq<TaskId>,    // history: every task appended
    handled: seq<TaskId>)     // history: every task handled

  datatype Action = Inject(t: TaskId) | Notify(t: TaskId) | Consume | Swap | Take | Finish

  const INIT: Done := Done([], {}, false, Idle, [], [], [])

  predicate Enabled(d: Done, a: Action) {
    match a
    case Inject(_) => true
    case Notify(t) => t in d.injectors
    case Consume => d.phase.Idle? && d.notified
    case Swap => d.phase.Consumed?
    case Take => d.phase.Draining? && d.batch != []
    case Finish => d.phase.Draining? && d.batch == []
  }

  function Next(d: Done, a: Action): Done
    requires Enabled(d, a)
  {
    match a
    case Inject(t) => d.(list := d.list + [t], injectors := d.injectors + {t}, injected := d.injected + [t])
    case Notify(t) => d.(injectors := d.injectors - {t}, notified := true)
    case Consume => d.(notified := false, phase := Consumed)
    case Swap => d.(list := [], phase := Draining, batch := d.list)
    case Take => d.(batch := d.batch[1..], handled := d.handled + [d.batch[0]])
    case Finish => d.(phase := Idle)
  }

  /** No response is stranded: whatever is in the list has a notification pending, or an injector
      that has yet to notify, or a worker that is about to swap the list. */
  predicate NoStranded(d: Done) {
    d.list != [] ==> d.notified || d.injectors != {} || d.phase.Consumed?
  }

  predicate Inv(d: Done) {
    && NoStranded(d)
    && (d.batch != [] ==> d.phase.Draining?)
    && d.injected == d.handled + d.batch + d.list
  }

  lemma {:induction false} StepKeepsInv(d: Done, a: Action)
    requires Inv(d) && Enabled(d, a)
    ensures Inv(Next(d, a))
  {
  }

  // ----- delivery -----

  /** What is left to do, an injector weighing enough for the notification it still has to send. */
  function Measure(d: Done): nat {
    |d.list| + |d.batch| + 4 * |d.injectors| + (if d.notified then 3 else 0) +
    match d.phase case Idle => 0 case Consumed => 2 case Draining => 1
  }

  lemma {:induction false} DeliveryStep(d: Done, a: Action)
    requires Inv(d) && Enabled(d, a) && !a.Inject?
    ensures Measure(Next(d, a)) < Measure(d) && Next(d, a).injected == d.injected
  {
    if a.Notify? {
      assert |d.injectors - {a.t}| == |d.injectors| - 1;
    }
  }

  lemma DeliveryCanStep(d: Done) returns (a: Action)
    requires Inv(d) && d.handled != d.injected
    ensures Enabled(d, a) && !a.Inject?
  {
    match d.phase
    case Consumed => a := Swap;
    case Draining => a := if d.batch == [] then Finish else Take;
    case Idle =>
      if d.notified {
        a := Consume;
      } else {
        var t :| t in d.injectors;
        a := Notify(t);
      }
  }

  ghost predicate IsRun(states: seq<Done>, acts: seq<Action>) {
    && |states| == |acts| + 1
    && forall i :: 0 <= i < |acts| ==> Enabled(states[i], acts[i]) && states[i + 1] == Next(states[i], acts[i])
  }

  lemma {:induction false} RunKeepsInv(states: seq<Done>, acts: seq<Action>, i: nat)
    requires IsRun(states, acts) && Inv(states[0]) && i < |states|
    ensures Inv(states[i])
  {
    if i > 0 {
      RunKeepsInv(states, acts, i - 1);
      StepKeepsInv(states[i - 1], acts[i - 1]);
    }
  }

  /** Once injections stop, at most `Measure` steps are left, and when none of them is possible
      any more every injected task has been handled, in the order of injection. */
  lemma {:induction false} EveryResponseIsDelivered(states: seq<Done>, acts: seq<Action>)
    requires IsRun(states, acts) && Inv(states[0]) && forall i :: 0 <= i < |acts| ==> !acts[i].Inject?
    ensures |acts| <= Measure(states[0])
    ensures (forall a :: Enabled(states[|acts|], a) ==> a.Inject?) ==> states[|acts|].handled == states[0].injected
  {
    RunKeepsInv(states, acts, |acts|);
    DeliveryPrefix(states, acts, |acts|);
    if states[|acts|].handled != states[0].injected {
      var a := DeliveryCanStep(states[|acts|]);
    }
  }

  lemma {:induction false} DeliveryPrefix(states: seq<Done>, acts: seq<Action>, n: nat)
    requires IsRun(states, acts) && Inv(states[0]) && forall i :: 0 <= i < |acts| ==> !acts[i].Inject?
    requires n <= |acts|
    ensures n + Measure(states[n]) <= Measure(states[0]) && states[n].injected == states[0].injected
  {
    hide Measure, Inv, Enabled, Next;
    if n > 0 {
      DeliveryPrefix(states, acts, n - 1);
      RunKeepsInv(states, acts, n - 1);
      DeliveryStep(states[n - 1], acts[n - 1]);
    }
  }
}
