/** No task is lost or made up: what was posted is counted again on the containers, on the frees
    and on the actions that end a call. */
module Conservation {
  import C = Calls
  import Q = RequestQueue
  import D = DoneQueue
  import opened Exchange
  import opened ExchangeInvariant
  import E = ExchangeTheorems
  import opened Ownership

  // ----- what there is to count -----

  datatype Event = Posted | Refused | Resumed | Discarded | Other

  function EventOf(s: World, a: Action): Event
    requires Enabled(s, a)
  {
    match a
    case BeginPost(_, _, _, _) => Posted
    case OnQueue(_, qa) => if qa.Refuse? then Refused else Other
    case Handle =>
      var t := s.done.batch[0];
      if t in s.calls.tasks && s.calls.tasks[t].aborted then Discarded else Resumed
    case _ => Other
  }

  /** How many of the first `n` actions were of that kind. */
  ghost function Count(states: seq<World>, acts: seq<Action>, n: nat, e: Event): nat
    requires E.IsRun(states, acts) && n <= |acts|
  {
    if n == 0 then 0 else Count(states, acts, n - 1, e) + N(EventOf(states[n - 1], acts[n - 1]) == e)
  }

  function CallsIn(items: seq<Q.Item>): nat {
    if items == [] then 0 else N(items[0].Call?) + CallsIn(items[1..])
  }

  ghost function Pick(m: map<QueueId, nat>): (q: QueueId)
    requires m != map[]
    ensures q in m
  {
    var q :| q in m; q
  }

  ghost function Sum(m: map<QueueId, nat>): nat {
    if m == map[] then 0 else m[Pick(m)] + Sum(m - {Pick(m)})
  }

  /** The calls in the lists of all queues. */
  ghost function QueuedCalls(queues: map<QueueId, Q.Queue>): nat {
    Sum(map q | q in queues :: CallsIn(queues[q].fifo.items))
  }

  /** The queues one of whose pollers has a call in its hands. */
  ghost function PolledCalls(queues: map<QueueId, Q.Queue>): nat {
    Sum(map q | q in queues :: N(queues[q].holder.Unlinked? && queues[q].holder.item.Call?))
  }

  /** The call the worker is about to append. */
  function PostingCalls(s: World): nat {
    N(s.worker.Posting? && s.worker.item.Call? && s.worker.q in s.queues && !HasAppended(s.queues[s.worker.q]))
  }

  ghost function FreedNodes(frees: multiset<C.Block>): set<TaskId> {
    set b | b in frees && b.Node? :: b.t
  }

  lemma UnionSize(a: set<TaskId>, b: set<TaskId>, c: set<TaskId>)
    requires a !! b && forall t :: t in c <==> t in a || t in b
    ensures |c| == |a| + |b|
  {
    assert c == a + b;
  }

  lemma GrowsBy(a: set<TaskId>, c: set<TaskId>, t: TaskId, grows: bool)
    requires (grows ==> t !in a) && forall x :: x in c <==> x in a || (grows && x == t)
    ensures |c| == |a| + N(grows)
  {
    UnionSize(a, if grows then {t} else {}, c);
  }

  // ----- counting tasks by place -----

  ghost function At(tasks: Tasks, p: C.Place): set<TaskId> {
    set t | t in tasks && tasks[t].place == p
  }

  ghost function Among(tasks: Tasks, ps: seq<C.Place>): set<TaskId> {
    set t | t in tasks && tasks[t].place in ps
  }

  ghost function Total(tasks: Tasks, ps: seq<C.Place>): nat {
    if ps == [] then 0 else |At(tasks, ps[0])| + Total(tasks, ps[1..])
  }

  lemma {:induction false} AmongTotal(tasks: Tasks, ps: seq<C.Place>)
    requires forall i, j :: 0 <= i < j < |ps| ==> ps[i] != ps[j]
    ensures |Among(tasks, ps)| == Total(tasks, ps)
  {
    if ps == [] {
      assert Among(tasks, ps) == {};
    } else {
      AmongTotal(tasks, ps[1..]);
      assert ps == [ps[0]] + ps[1..];
      assert Among(tasks, ps) == At(tasks, ps[0]) + Among(tasks, ps[1..]);
      assert At(tasks, ps[0]) !! Among(tasks, ps[1..]);
    }
  }

  lemma {:induction false} DistinctCount(ts: seq<TaskId>, m: set<TaskId>)
    requires Distinct(ts) && forall t :: t in ts <==> t in m
    ensures |ts| == |m|
  {
    if ts == [] {
      assert m == {};
    } else {
      assert ts[0] in m;
      forall t ensures t in ts[1..] <==> t in m - {ts[0]} {
        assert t in ts <==> t == ts[0] || t in ts[1..];
      }
      DistinctCount(ts[1..], m - {ts[0]});
    }
  }

  const PLACES: seq<C.Place> :=
    [C.Created, C.Queued, C.InHand, C.Held, C.Done, C.Batched,
     C.Freed(C.Refused), C.Freed(C.Resumed), C.Freed(C.Discarded)]

  lemma AllPlaces(tasks: Tasks)
    ensures Total(tasks, PLACES) == |tasks|
  {
    AmongTotal(tasks, PLACES);
    forall t | t in tasks ensures tasks[t].place in PLACES {
      var p := tasks[t].place;
      assert PLACES[0] == C.Created && PLACES[1] == C.Queued && PLACES[2] == C.InHand && PLACES[3] == C.Held;
      assert PLACES[4] == C.Done && PLACES[5] == C.Batched;
      assert PLACES[6] == C.Freed(C.Refused) && PLACES[7] == C.Freed(C.Resumed) && PLACES[8] == C.Freed(C.Discarded);
      if p.Freed? { assert p.fate.Refused? || p.fate.Resumed? || p.fate.Discarded?; }
    }
    assert Among(tasks, PLACES) == tasks.Keys;
  }

  lemma TotalIsSum(tasks: Tasks)
    ensures Total(tasks, PLACES) ==
              |At(tasks, C.Created)| + |At(tasks, C.Queued)| + |At(tasks, C.InHand)|
              + |At(tasks, C.Held)| + |At(tasks, C.Done)| + |At(tasks, C.Batched)|
              + |At(tasks, C.Freed(C.Refused))| + |At(tasks, C.Freed(C.Resumed))| + |At(tasks, C.Freed(C.Discarded))|
  {
    var p8 := [C.Freed(C.Discarded)];
    var p7 := [C.Freed(C.Resumed)] + p8;
    var p6 := [C.Freed(C.Refused)] + p7;
    var p5 := [C.Batched] + p6;
    var p4 := [C.Done] + p5;
    var p3 := [C.Held] + p4;
    var p2 := [C.InHand] + p3;
    var p1 := [C.Queued] + p2;
    assert PLACES == [C.Created] + p1;
    TotalStep(tasks, C.Freed(C.Discarded), []);
    TotalStep(tasks, C.Freed(C.Resumed), p8);
    TotalStep(tasks, C.Freed(C.Refused), p7);
    TotalStep(tasks, C.Batched, p6);
    TotalStep(tasks, C.Done, p5);
    TotalStep(tasks, C.Held, p4);
    TotalStep(tasks, C.InHand, p3);
    TotalStep(tasks, C.Queued, p2);
    TotalStep(tasks, C.Created, p1);
  }

  lemma TotalStep(tasks: Tasks, p: C.Place, ps: seq<C.Place>)
    ensures Total(tasks, [p] + ps) == |At(tasks, p)| + Total(tasks, ps)
  {
    assert ([p] + ps)[1..] == ps;
  }

  lemma LogCount(c: C.Table)
    requires C.Inv(c)
    ensures |c.log| == |At(c.tasks, C.Freed(C.Resumed))|
  {
    var ts := seq(|c.log|, i requires 0 <= i < |c.log| => c.log[i].t);
    forall t ensures t in ts <==> t in At(c.tasks, C.Freed(C.Resumed)) {
      if t in At(c.tasks, C.Freed(C.Resumed)) {
        assert C.InLog(c.log, t);
        var i :| 0 <= i < |c.log| && c.log[i].t == t;
        assert ts[i] == t;
      }
    }
    DistinctCount(ts, At(c.tasks, C.Freed(C.Resumed)));
  }

  /** The tasks of some queues that are at `p`. */
  ghost function AtQueues(tasks: Tasks, p: C.Place, m: map<QueueId, nat>): set<TaskId> {
    set t | t in tasks && tasks[t].place == p && tasks[t].q in m
  }

  ghost function AtQueue(tasks: Tasks, p: C.Place, q: QueueId): set<TaskId> {
    set t | t in tasks && tasks[t].place == p && tasks[t].q == q
  }

  lemma {:induction false} SumCounts(tasks: Tasks, p: C.Place, m: map<QueueId, nat>)
    requires forall q :: q in m ==> |AtQueue(tasks, p, q)| == m[q]
    ensures |AtQueues(tasks, p, m)| == Sum(m)
  {
    if m == map[] {
      assert AtQueues(tasks, p, m) == {};
    } else {
      var q := Pick(m);
      var rest := m - {q};
      assert forall x :: x in rest ==> rest[x] == m[x];
      SumCounts(tasks, p, rest);
      UnionSize(AtQueue(tasks, p, q), AtQueues(tasks, p, rest), AtQueues(tasks, p, m));
    }
  }

  lemma {:induction false} CallsCount(items: seq<Q.Item>, ts: set<TaskId>)
    requires DistinctCalls(items) && forall t :: Q.Call(t) in items <==> t in ts
    ensures CallsIn(items) == |ts|
  {
    if items == [] {
      assert ts == {};
    } else {
      var rest := if items[0].Call? then ts - {items[0].id} else ts;
      assert items == [items[0]] + items[1..];
      forall t ensures Q.Call(t) in items[1..] <==> t in rest {
        assert Q.Call(t) in items <==> Q.Call(t) == items[0] || Q.Call(t) in items[1..];
      }
      if items[0].Call? {
        assert items[0] in items && items[0] == Q.Call(items[0].id);
      }
      CallsCount(items[1..], rest);
    }
  }

  lemma QueuedCount(tasks: Tasks, queues: map<QueueId, Q.Queue>)
    requires QueuesTrack(tasks, queues)
    ensures |At(tasks, C.Queued)| == QueuedCalls(queues)
  {
    var m := map q | q in queues :: CallsIn(queues[q].fifo.items);
    forall q | q in m ensures |AtQueue(tasks, C.Queued, q)| == m[q] {
      assert Queued(tasks, q, queues[q].fifo.items);
      CallsCount(queues[q].fifo.items, AtQueue(tasks, C.Queued, q));
    }
    SumCounts(tasks, C.Queued, m);
    assert At(tasks, C.Queued) == AtQueues(tasks, C.Queued, m);
  }

  lemma PolledCount(tasks: Tasks, queues: map<QueueId, Q.Queue>)
    requires QueuesTrack(tasks, queues)
    ensures |At(tasks, C.InHand)| == PolledCalls(queues)
  {
    var m := map q | q in queues :: N(queues[q].holder.Unlinked? && queues[q].holder.item.Call?);
    forall q | q in m ensures |AtQueue(tasks, C.InHand, q)| == m[q] {
      var h := queues[q].holder;
      assert InHand(tasks, q, h);
      if h.Unlinked? && h.item.Call? {
        assert AtQueue(tasks, C.InHand, q) == {h.item.id};
      } else {
        assert AtQueue(tasks, C.InHand, q) == {};
      }
    }
    SumCounts(tasks, C.InHand, m);
    assert At(tasks, C.InHand) == AtQueues(tasks, C.InHand, m);
  }

  lemma PostingCount(s: World)
    requires C.TasksOk(s.calls) && WorkerOk(s.worker, s.queues) && PostingOk(s.calls, s.worker, s.queues)
    ensures |At(s.calls.tasks, C.Created)| == PostingCalls(s)
  {
    if PostingCalls(s) == 1 {
      assert At(s.calls.tasks, C.Created) == {s.worker.item.id};
    } else {
      assert At(s.calls.tasks, C.Created) == {};
    }
  }

  lemma FreedNode(c: C.Table, t: TaskId)
    requires C.FreesOk(c.tasks, c.frees)
    ensures t in FreedNodes(c.frees) <==>
              t in At(c.tasks, C.Freed(C.Refused)) || t in At(c.tasks, C.Freed(C.Resumed)) || t in At(c.tasks, C.Freed(C.Discarded))
  {
    assert C.FreedBlocks(c.tasks, c.frees, t);
    assert C.Node(t) in c.frees <==> t in FreedNodes(c.frees);
    if t in c.tasks && c.tasks[t].place.Freed? {
      var fate := c.tasks[t].place.fate;
      assert fate.Refused? || fate.Resumed? || fate.Discarded?;
    }
  }

  lemma FreedCount(c: C.Table)
    requires C.FreesOk(c.tasks, c.frees)
    ensures |FreedNodes(c.frees)| ==
              |At(c.tasks, C.Freed(C.Refused))| + |At(c.tasks, C.Freed(C.Resumed))| + |At(c.tasks, C.Freed(C.Discarded))|
  {
    hide C.FreesOk, FreedNodes;
    var a, b, d := At(c.tasks, C.Freed(C.Refused)), At(c.tasks, C.Freed(C.Resumed)), At(c.tasks, C.Freed(C.Discarded));
    forall t ensures t in FreedNodes(c.frees) <==> t in a + b || t in d {
      FreedNode(c, t);
    }
    UnionSize(a, b, a + b);
    UnionSize(a + b, d, FreedNodes(c.frees));
  }

  // ----- counting tasks by what happened to them -----

  ghost predicate Tallied(states: seq<World>, acts: seq<Action>, n: nat)
    requires E.IsRun(states, acts) && n <= |acts|
  {
    var tasks := states[n].calls.tasks;
    && |tasks| == Count(states, acts, n, Posted)
    && |At(tasks, C.Freed(C.Refused))| == Count(states, acts, n, Refused)
    && |At(tasks, C.Freed(C.Resumed))| == Count(states, acts, n, Resumed)
    && |At(tasks, C.Freed(C.Discarded))| == Count(states, acts, n, Discarded)
  }

  /** The fate a step decides, and of whom. */
  predicate Ends(c: C.Table, ca: C.Action, t: TaskId, fate: C.Fate) {
    t in c.tasks &&
      match ca
      case Refuse(t') => t == t' && fate == C.Refused
      case Handle(t') => t == t' && fate == (if c.tasks[t].aborted then C.Discarded else C.Resumed)
      case _ => false
  }

  lemma CallStepFates(c: C.Table, ca: C.Action, t: TaskId, fate: C.Fate)
    requires C.Enabled(c, ca)
    ensures t in At(C.Next(c, ca).tasks, C.Freed(fate)) <==> t in At(c.tasks, C.Freed(fate)) || Ends(c, ca, t, fate)
    ensures Ends(c, ca, t, fate) ==> t !in At(c.tasks, C.Freed(fate))
    ensures t in C.Next(c, ca).tasks <==> t in c.tasks || (ca.Create? && ca.t == t)
    ensures ca.Create? ==> ca.t !in c.tasks
  {
    if ca.Handle? || ca.Abort? || ca.Batch? || ca.Refuse? {
      EndFates(c, ca, t, fate);
    } else {
      OtherFates(c, ca, t, fate);
    }
  }

  lemma EndFates(c: C.Table, ca: C.Action, t: TaskId, fate: C.Fate)
    requires C.Enabled(c, ca) && (ca.Handle? || ca.Abort? || ca.Batch? || ca.Refuse?)
    ensures t in At(C.Next(c, ca).tasks, C.Freed(fate)) <==> t in At(c.tasks, C.Freed(fate)) || Ends(c, ca, t, fate)
    ensures Ends(c, ca, t, fate) ==> t !in At(c.tasks, C.Freed(fate))
    ensures t in C.Next(c, ca).tasks <==> t in c.tasks
  {
    hide C.Blocks;
  }

  lemma OtherFates(c: C.Table, ca: C.Action, t: TaskId, fate: C.Fate)
    requires C.Enabled(c, ca) && !ca.Handle? && !ca.Abort? && !ca.Batch? && !ca.Refuse?
    ensures t in At(C.Next(c, ca).tasks, C.Freed(fate)) <==> t in At(c.tasks, C.Freed(fate))
    ensures t in C.Next(c, ca).tasks <==> t in c.tasks || (ca.Create? && ca.t == t)
    ensures ca.Create? ==> ca.t !in c.tasks
  {
  }

  function FateEvent(fate: C.Fate): Event {
    match fate case Refused => Refused case Resumed => Resumed case Discarded => Discarded
  }

  lemma CallStepSizes(c: C.Table, ca: C.Action, fate: C.Fate)
    requires C.Enabled(c, ca)
    ensures var tasks' := C.Next(c, ca).tasks;
            && |tasks'| == |c.tasks| + N(ca.Create?)
            && |At(tasks', C.Freed(fate))| == |At(c.tasks, C.Freed(fate))|
                 + N((ca.Refuse? || ca.Handle?) && Ends(c, ca, ca.t, fate))
  {
    hide C.Next, C.Enabled, At;
    var tasks' := C.Next(c, ca).tasks;
    var t := if ca.Create? || ca.Refuse? || ca.Handle? then ca.t else 0;
    forall x
      ensures x in At(tasks', C.Freed(fate)) <==> x in At(c.tasks, C.Freed(fate)) || Ends(c, ca, x, fate)
      ensures Ends(c, ca, x, fate) ==> x !in At(c.tasks, C.Freed(fate))
      ensures x in tasks' <==> x in c.tasks || (ca.Create? && t == x)
      ensures ca.Create? ==> t !in c.tasks
    {
      CallStepFates(c, ca, x, fate);
    }
    GrowsBy(c.tasks.Keys, tasks'.Keys, t, ca.Create?);
    GrowsBy(At(c.tasks, C.Freed(fate)), At(tasks', C.Freed(fate)), t, (ca.Refuse? || ca.Handle?) && Ends(c, ca, t, fate));
  }

  lemma StepSizes(s: World, a: Action, fate: C.Fate)
    requires Inv(s) && Enabled(s, a)
    ensures var tasks, tasks' := s.calls.tasks, Next(s, a).calls.tasks;
            && |tasks'| == |tasks| + N(EventOf(s, a) == Posted)
            && |At(tasks', C.Freed(fate))| == |At(tasks, C.Freed(fate))| + N(EventOf(s, a) == FateEvent(fate))
  {
    hide Inv, C.Inv, Enabled, Next, C.Enabled, C.Next, E.CallStep, EventOf, FateEvent, At, Ends;
    E.InvParts(s);
    StepKeepsInv(s, a);
    E.InvParts(Next(s, a));
    E.StepIsCallStep(s, a);
    EventIsCallStep(s, a, fate);
    if E.CallStep(s, a).Some? {
      CallStepSizes(s.calls, E.CallStep(s, a).value, fate);
    }
  }

  lemma EventIsCallStep(s: World, a: Action, fate: C.Fate)
    requires Enabled(s, a) && (E.CallStep(s, a).Some? ==> C.Enabled(s.calls, E.CallStep(s, a).value))
    ensures var ca := E.CallStep(s, a);
            && (EventOf(s, a) == Posted <==> ca.Some? && ca.value.Create?)
            && (EventOf(s, a) == FateEvent(fate) <==>
                  ca.Some? && (ca.value.Refuse? || ca.value.Handle?) && Ends(s.calls, ca.value, ca.value.t, fate))
  {
  }

  lemma {:induction false} RunIsTallied(states: seq<World>, acts: seq<Action>, n: nat)
    requires E.IsRun(states, acts) && n <= |acts|
    ensures Tallied(states, acts, n)
  {
    hide Inv, Enabled, Next, EventOf, At;
    if n == 0 {
      NothingFreed();
    } else {
      RunIsTallied(states, acts, n - 1);
      E.RunKeepsInv(states, acts, n - 1);
      StepSizes(states[n - 1], acts[n - 1], C.Refused);
      StepSizes(states[n - 1], acts[n - 1], C.Resumed);
      StepSizes(states[n - 1], acts[n - 1], C.Discarded);
    }
  }

  lemma NothingFreed()
    ensures INIT.calls.tasks == map[] && forall fate :: At(INIT.calls.tasks, C.Freed(fate)) == {}
  {
  }

  // ----- conservation -----

  lemma PlacesAddUp(s: World)
    requires Inv(s)
    ensures |s.calls.tasks| ==
              PostingCalls(s) + QueuedCalls(s.queues) + PolledCalls(s.queues)
              + |s.held| + |s.done.list| + |s.done.batch| + |FreedNodes(s.calls.frees)|
    ensures |s.calls.log| == |At(s.calls.tasks, C.Freed(C.Resumed))|
    ensures |FreedNodes(s.calls.frees)| ==
              |At(s.calls.tasks, C.Freed(C.Refused))| + |At(s.calls.tasks, C.Freed(C.Resumed))|
              + |At(s.calls.tasks, C.Freed(C.Discarded))|
  {
    hide C.CosOk, C.TasksOk, C.LogOk, C.RepliesOk, C.FreesOk, D.Inv, QueuesOk, QueuesTrack, WorkerOk, PostingOk, OpenQueues, Total;
    hide QueuedCalls, PolledCalls, PostingCalls, FreedNodes;
    var tasks := s.calls.tasks;
    AllPlaces(tasks);
    TotalIsSum(tasks);
    PostingCount(s);
    QueuedCount(tasks, s.queues);
    PolledCount(tasks, s.queues);
    assert s.held == At(tasks, C.Held);
    DistinctCount(s.done.list, At(tasks, C.Done));
    DistinctCount(s.done.batch, At(tasks, C.Batched));
    LogCount(s.calls);
    FreedCount(s.calls);
  }

  /** In every run, the calls posted are the one being posted, those in the lists of the queues, in
      the hands of pollers, with a runtime, in the done list, in the batch, and those whose node
      was freed; and the nodes freed are the calls refused, resumed and discarded. */
  lemma Conservation(states: seq<World>, acts: seq<Action>, n: nat)
    requires E.IsRun(states, acts) && n <= |acts|
    ensures var s := states[n];
            && Count(states, acts, n, Posted) ==
                 PostingCalls(s) + QueuedCalls(s.queues) + PolledCalls(s.queues)
                 + |s.held| + |s.done.list| + |s.done.batch| + |FreedNodes(s.calls.frees)|
            && |FreedNodes(s.calls.frees)| ==
                 Count(states, acts, n, Refused) + Count(states, acts, n, Resumed) + Count(states, acts, n, Discarded)
            && |s.calls.log| == Count(states, acts, n, Resumed)
  {
    hide Inv, Enabled, Next, Count, PostingCalls, QueuedCalls, PolledCalls, FreedNodes, At;
    E.RunKeepsInv(states, acts, n);
    RunIsTallied(states, acts, n);
    PlacesAddUp(states[n]);
  }
}
