/** What every run of the worker pool guarantees. */
module ThreadPoolTheorems {
  import opened Threads
  import opened Sums
  import Q = SyncQueueSpec
  import QT = SyncQueueTheorems
  import opened ThreadPoolSpec

  // ------------------------------------------------------------ the queue inside

  /** The event of the queue that a pool event contains. */
  ghost function QueueEvent<T>(s: State<T>, e: Event<T>): Option<Q.Event<T>> {
    match e
    case AddData(t, x) => Some(Q.Begin(t, Q.Put(x)))
    case Inside(q) => Some(q)
    case TakeReturns(w, wake) => Some(Q.Section(w, wake))
    case LoopTest(w) => if s.running then Some(Q.Begin(w, Q.TakeOne)) else None
    case StopBegins(t) => Some(Q.Begin(t, Q.Stop))
    case _ => None
  }

  /** Every step of the pool is a step of the queue or leaves the queue alone. */
  lemma {:induction false} RefinesQueue<T>(s: State<T>, e: Event<T>)
    requires Enabled(s, e)
    ensures var q := QueueEvent(s, e);
            if q.Some? then Q.Enabled(s.queue, q.value) && Apply(s, e).queue == Q.Apply(s.queue, q.value)
            else Apply(s, e).queue == s.queue
  {
  }

  lemma {:induction false} NoBatchInside<T>(s: State<T>, e: Event<T>)
    requires Wired(s.queue, s.workers, s.phase) && Enabled(s, e) && QueueEvent(s, e).Some?
    ensures QT.NoBatchCall(s.queue)
    ensures var q := QueueEvent(s, e).value; !(q.Begin? && q.call.TakeAll?)
  {
  }

  lemma {:induction false} QueueInvStep<T>(s: State<T>, e: Event<T>)
    requires Q.Inv(s.queue) && Q.ProducersCovered(s.queue) && Wired(s.queue, s.workers, s.phase) && Enabled(s, e)
    ensures Q.Inv(Apply(s, e).queue) && Q.ProducersCovered(Apply(s, e).queue)
    ensures Apply(s, e).queue.capacity == s.queue.capacity
  {
    RefinesQueue(s, e);
    var q := QueueEvent(s, e);
    if q.Some? {
      NoBatchInside(s, e);
      hide Q.Inv, Q.ProducersCovered, Q.Apply, Q.Enabled, Apply, Enabled, QueueEvent;
      Q.InvStep(s.queue, q.value);
      QT.SingleStep(s.queue, q.value);
      QT.CapacityKept(s.queue, q.value);
    }
  }

  /** The events of the queue that a run of the pool contains. */
  ghost function QueueEvents<T>(s: State<T>, es: seq<Event<T>>): seq<Q.Event<T>>
    requires Admissible(s, es)
    decreases |es|
  {
    if es == [] then []
    else
      var q := QueueEvent(s, es[0]);
      (if q.Some? then [q.value] else []) + QueueEvents(Apply(s, es[0]), es[1..])
  }

  lemma {:induction false} QueueRun<T>(s: State<T>, es: seq<Event<T>>)
    requires Admissible(s, es)
    ensures var qs := QueueEvents(s, es); Q.Admissible(s.queue, qs) && Q.Run(s.queue, qs) == Run(s, es).queue
    decreases |es|
  {
    if es == [] {
    } else {
      RefinesQueue(s, es[0]);
      QueueRun(Apply(s, es[0]), es[1..]);
      var q, rest := QueueEvent(s, es[0]), QueueEvents(Apply(s, es[0]), es[1..]);
      hide Apply, Q.Apply, Enabled, Q.Enabled;
      if q.Some? {
        assert ([q.value] + rest)[1..] == rest;
      } else {
        assert [] + rest == rest;
      }
    }
  }

  /** What the pool's tasks are given is what AddData put, item for item: over every run the items that the
      workers have taken, and then the queue, are those that the calls of AddData put, in the order in which
      they got the mutex. */
  lemma {:induction false} ItemsAreThoseAdded<T>(group: seq<Tid>, es: seq<Event<T>>)
    requires Admissible(Init<T>(group), es)
    ensures var (s, qs) := (Run(Init<T>(group), es), QueueEvents(Init<T>(group), es));
            && Q.Admissible(Q.Init<T>(99), qs)
            && QT.Puts(Q.Init<T>(99), qs) == s.queue.delivered + s.queue.queue
            && |s.queue.queue| <= 99
  {
    QueueRun(Init<T>(group), es);
    QT.FifoOverRuns(99, QueueEvents(Init<T>(group), es));
  }

  // ------------------------------------------------------------ the invariant step

  /** What a turn inside the queue does to the open calls and to the delivered items. */
  lemma {:induction false} InsideEffect<T>(s: State<T>, e: Q.Event<T>)
    requires Q.Placed(s.queue) && Wired(s.queue, s.workers, s.phase) && InsideAllowed(s, e)
    ensures var r := Q.Apply(s.queue, e);
            && r.delivered == s.queue.delivered
            && (s.queue.needStop ==> r.needStop)
            && (r.calls == s.queue.calls
                || (r.calls == s.queue.calls - {e.t} && e.t in s.queue.calls && !s.queue.calls[e.t].TakeOne?))
  {
  }

  lemma {:induction false} TakeEffect<T>(q: Q.State<T>, w: Tid, wake: Option<Tid>)
    requires Q.Enabled(q, Q.Section(w, wake)) && EndsTake(q, w)
    ensures var r := Q.Apply(q, Q.Section(w, wake));
            && r.calls == q.calls - {w} && r.needStop == q.needStop
            && |r.delivered| == |q.delivered| + if q.needStop then 0 else 1
  {
  }

  /** What a new call does. */
  lemma {:induction false} BeginEffect<T>(q: Q.State<T>, t: Tid, c: Q.Call<T>)
    requires Q.Enabled(q, Q.Begin(t, c))
    ensures var r := Q.Apply(q, Q.Begin(t, c));
            t !in q.calls && r.calls == q.calls[t := c] && r.delivered == q.delivered && r.needStop == q.needStop
  {
  }

  /** A call returns, and a worker whose Take it was moves on. */
  lemma {:induction false} WiredReturns<T>(q: Q.State<T>, r: Q.State<T>, workers: map<Tid, Worker>,
                                           after: map<Tid, Worker>, phase: Phase, t: Tid)
    requires Wired(q, workers, phase)
    requires r.calls == q.calls || (r.calls == q.calls - {t} && t in q.calls)
    requires if t in q.calls && t !in r.calls && q.calls[t].TakeOne?
             then t in after && !after[t].InTake? && after == workers[t := after[t]]
             else after == workers
    ensures Wired(r, after, phase)
  {
  }

  lemma {:induction false} WiredBegins<T>(s: State<T>, e: Event<T>)
    requires Wired(s.queue, s.workers, s.phase) && Phased(s) && Enabled(s, e)
    requires !e.Inside? && !e.TakeReturns? && !e.SecondTest?
    ensures var r := Apply(s, e); Wired(r.queue, r.workers, r.phase)
  {
    var q := QueueEvent(s, e);
    if q.Some? {
      RefinesQueue(s, e);
      BeginEffect(s.queue, q.value.t, q.value.call);
    }
    hide Q.Apply, Q.Enabled;
  }

  lemma {:induction false} WiredElsewhere<T>(s: State<T>, w: Tid, pc: Worker)
    requires Wired(s.queue, s.workers, s.phase) && w in s.workers && s.workers[w].AtSecondTest? && !pc.InTake?
    ensures Wired(s.queue, s.workers[w := pc], s.phase)
  {
  }

  lemma {:induction false} WiredStep<T>(s: State<T>, e: Event<T>)
    requires Q.Placed(s.queue) && Wired(s.queue, s.workers, s.phase) && Phased(s) && Enabled(s, e)
    ensures var r := Apply(s, e); Wired(r.queue, r.workers, r.phase)
  {
    hide Wired;
    match e
    case Inside(q) =>
      InsideEffect(s, q);
      WiredReturns(s.queue, Q.Apply(s.queue, q), s.workers, s.workers, s.phase, q.t);
    case TakeReturns(w, wake) =>
      TakeEffect(s.queue, w, wake);
      WiredReturns(s.queue, Q.Apply(s.queue, Q.Section(w, wake)), s.workers, Apply(s, e).workers, s.phase, w);
    case SecondTest(w) => WiredElsewhere(s, w, Apply(s, e).workers[w]);
    case _ => WiredBegins(s, e);
  }

  lemma {:induction false} PhasedOutside<T>(s: State<T>, e: Event<T>)
    requires Wired(s.queue, s.workers, s.phase) && Phased(s) && Enabled(s, e)
    requires e.SecondTest? || e.TaskReturns? || e.StopBegins? || e.ClearRunning? || e.Join? || e.ClearGroup?
    ensures Phased(Apply(s, e))
  {
  }

  /** A Stop call returns with the flag up. */
  lemma {:induction false} StopKeepsFlag<T>(q: Q.State<T>, e: Q.Event<T>)
    requires Q.Placed(q) && Q.Enabled(q, e)
    ensures var r := Q.Apply(q, e);
            && (forall t | t in q.calls && q.calls[t].Stop? && t !in r.calls :: r.needStop)
            && (r.needStop && !q.needStop ==> exists t :: t in q.calls && q.calls[t].Stop?)
  {
  }

  lemma {:induction false} PhasedInside<T>(s: State<T>, q: Q.Event<T>)
    requires Q.Placed(s.queue) && Wired(s.queue, s.workers, s.phase) && Phased(s) && InsideAllowed(s, q)
    ensures Phased(Apply(s, Inside(q)))
  {
    InsideEffect(s, q);
    StopKeepsFlag(s.queue, q);
    hide Q.Apply, Q.Enabled, Q.Placed, Wired;
  }

  lemma {:induction false} PhasedTake<T>(s: State<T>, w: Tid, wake: Option<Tid>)
    requires Wired(s.queue, s.workers, s.phase) && Phased(s) && Enabled(s, TakeReturns(w, wake))
    ensures Phased(Apply(s, TakeReturns(w, wake)))
  {
    TakeEffect(s.queue, w, wake);
    hide Q.Apply, Q.Enabled;
  }

  lemma {:induction false} PhasedBegins<T>(s: State<T>, e: Event<T>)
    requires Wired(s.queue, s.workers, s.phase) && Phased(s) && Enabled(s, e) && (e.AddData? || e.LoopTest?)
    ensures Phased(Apply(s, e))
  {
    if e.AddData? {
      BeginEffect(s.queue, e.t, Q.Put(e.x));
    } else {
      BeginEffect(s.queue, e.w, Q.TakeOne);
    }
    hide Q.Apply, Q.Enabled;
  }

  lemma {:induction false} PhasedStep<T>(s: State<T>, e: Event<T>)
    requires Q.Placed(s.queue) && Wired(s.queue, s.workers, s.phase) && Phased(s) && Enabled(s, e)
    ensures Phased(Apply(s, e))
  {
    match e
    case Inside(q) => PhasedInside(s, q);
    case TakeReturns(w, wake) => PhasedTake(s, w, wake);
    case AddData(t, x) => PhasedBegins(s, e);
    case LoopTest(w) => PhasedBegins(s, e);
    case _ => PhasedOutside(s, e);
  }

  /** A worker without a real item goes somewhere else without one. */
  lemma {:induction false} LedgerMove(n: nat, workers: map<Tid, Worker>, passed: seq<TaskCall>, dropped: map<Tid, nat>,
                   places: map<nat, Place>, w: Tid, pc: Worker)
    requires Ledger(n, workers, passed, dropped, places) && w in workers && !workers[w].Exited?
    requires workers[w].AtSecondTest? ==> workers[w].item.None?
    requires pc.AtSecondTest? ==> pc.item.None?
    ensures Ledger(n, workers[w := pc], passed, dropped, places)
  {
  }

  lemma {:induction false} LedgerTake(n: nat, workers: map<Tid, Worker>, passed: seq<TaskCall>, dropped: map<Tid, nat>,
                   places: map<nat, Place>, w: Tid)
    requires Ledger(n, workers, passed, dropped, places) && w in workers && workers[w].InTake?
    ensures Ledger(n + 1, workers[w := AtSecondTest(Some(n))], passed, dropped, places[n := Held(w)])
  {
  }

  lemma {:induction false} LedgerPass(n: nat, workers: map<Tid, Worker>, passed: seq<TaskCall>, dropped: map<Tid, nat>,
                   places: map<nat, Place>, w: Tid, call: TaskCall)
    requires Ledger(n, workers, passed, dropped, places)
    requires w in workers && workers[w] == AtSecondTest(call.item)
    ensures Ledger(n, workers[w := InTask(call.item)], passed + [call], dropped,
                   if call.item.Some? then places[call.item.value := Passed(|passed|)] else places)
  {
    var passed' := passed + [call];
    assert forall k | 0 <= k < |passed| :: passed'[k] == passed[k];
    assert passed'[|passed|] == call;
  }

  lemma {:induction false} LedgerDrop(n: nat, workers: map<Tid, Worker>, passed: seq<TaskCall>, dropped: map<Tid, nat>,
                   places: map<nat, Place>, w: Tid)
    requires Ledger(n, workers, passed, dropped, places)
    requires w in workers && workers[w].AtSecondTest? && workers[w].item.Some?
    ensures var i := workers[w].item.value;
            Ledger(n, workers[w := Exited], passed, dropped[w := i], places[i := Dropped(w)])
  {
  }

  lemma {:induction false} LedgerStep<T>(s: State<T>, e: Event<T>)
    requires Inv(s) && Enabled(s, e)
    ensures var r := Apply(s, e); Ledger(|r.queue.delivered|, r.workers, r.passed, r.dropped, r.places)
  {
    var n := |s.queue.delivered|;
    match e
    case Inside(q) => InsideEffect(s, q);
    case TakeReturns(w, wake) =>
      TakeEffect(s.queue, w, wake);
      if s.queue.needStop {
        LedgerMove(n, s.workers, s.passed, s.dropped, s.places, w, AtSecondTest(None));
      } else {
        LedgerTake(n, s.workers, s.passed, s.dropped, s.places, w);
      }
    case LoopTest(w) =>
      LedgerMove(n, s.workers, s.passed, s.dropped, s.places, w, if s.running then InTake else Exited);
    case TaskReturns(w) => LedgerMove(n, s.workers, s.passed, s.dropped, s.places, w, AtLoopTest);
    case SecondTest(w) =>
      var item := s.workers[w].item;
      if s.running {
        var call := TaskCall(item, s.phase, s.queue.needStop, w in s.late);
        LedgerPass(n, s.workers, s.passed, s.dropped, s.places, w, call);
      } else if item.None? {
        LedgerMove(n, s.workers, s.passed, s.dropped, s.places, w, Exited);
      } else {
        LedgerDrop(n, s.workers, s.passed, s.dropped, s.places, w);
      }
    case _ =>
  }

  lemma {:induction false} DefaultsElsewhere<T>(s: State<T>, e: Event<T>)
    requires Phased(s) && Defaults(s) && Enabled(s, e) && !e.Inside? && !e.TakeReturns?
    ensures Defaults(Apply(s, e))
  {
    RefinesQueue(s, e);
    var q := QueueEvent(s, e);
    if q.Some? {
      BeginEffect(s.queue, q.value.t, q.value.call);
    }
    hide Q.Apply, Q.Enabled;
  }

  lemma {:induction false} DefaultsStep<T>(s: State<T>, e: Event<T>)
    requires Q.Placed(s.queue) && Wired(s.queue, s.workers, s.phase)
    requires Phased(s) && Defaults(s) && Enabled(s, e)
    ensures Defaults(Apply(s, e))
  {
    match e
    case Inside(q) => InsideEffect(s, q);
    case TakeReturns(w, wake) => TakeEffect(s.queue, w, wake);
    case _ => DefaultsElsewhere(s, e);
  }

  lemma {:induction false} GroupKept<T>(s: State<T>, e: Event<T>)
    requires Enabled(s, e)
    ensures Apply(s, e).group == s.group && Apply(s, e).workers.Keys == s.workers.Keys
  {
  }

  lemma {:induction false} InvStep<T>(s: State<T>, e: Event<T>)
    requires Inv(s) && Enabled(s, e)
    ensures Inv(Apply(s, e))
  {
    QueueInvStep(s, e);
    WiredStep(s, e);
    PhasedStep(s, e);
    LedgerStep(s, e);
    DefaultsStep(s, e);
    GroupKept(s, e);
  }

  lemma {:induction false} InvRun<T>(s: State<T>, es: seq<Event<T>>)
    requires Inv(s) && Admissible(s, es)
    ensures Inv(Run(s, es))
    decreases |es|
  {
    if es == [] {
    } else {
      InvStep(s, es[0]);
      InvRun(Apply(s, es[0]), es[1..]);
    }
  }

  lemma {:induction false} GroupRun<T>(s: State<T>, es: seq<Event<T>>)
    requires Admissible(s, es)
    ensures Run(s, es).group == s.group
    decreases |es|
  {
    if es == [] {
    } else {
      GroupKept(s, es[0]);
      GroupRun(Apply(s, es[0]), es[1..]);
    }
  }

  lemma {:induction false} InvInit<T>(group: seq<Tid>)
    requires Distinct(group)
    ensures Inv(Init<T>(group))
  {
  }

  // ------------------------------------------------------------ conservation

  ghost function Holds(pc: Worker): nat {
    if pc.AtSecondTest? && pc.item.Some? then 1 else 0
  }

  ghost function RealCalls(passed: seq<TaskCall>): nat {
    if passed == [] then 0
    else RealCalls(passed[..|passed| - 1]) + if passed[|passed| - 1].item.Some? then 1 else 0
  }

  ghost predicate Staffed<T>(s: State<T>) {
    Distinct(s.group) && s.workers.Keys == Members(s.group)
  }

  ghost predicate Balanced<T>(s: State<T>) {
    |s.queue.delivered| == Sum(s.workers, Holds) + RealCalls(s.passed) + |s.dropped|
  }

  lemma {:induction false} BalancedMove<T>(s: State<T>, e: Event<T>)
    requires Balanced(s) && Enabled(s, e) && !e.Inside? && !e.SecondTest?
    ensures Balanced(Apply(s, e))
  {
    GroupKept(s, e);
    match e
    case TakeReturns(w, wake) =>
      TakeEffect(s.queue, w, wake);
      SumMove(s.workers, Holds, w, Apply(s, e).workers[w]);
    case LoopTest(w) => SumMove(s.workers, Holds, w, Apply(s, e).workers[w]);
    case TaskReturns(w) => SumMove(s.workers, Holds, w, AtLoopTest);
    case _ =>
  }

  lemma {:induction false} LastCall(passed: seq<TaskCall>, c: TaskCall)
    ensures RealCalls(passed + [c]) == RealCalls(passed) + if c.item.Some? then 1 else 0
  {
    assert (passed + [c])[..|passed|] == passed;
  }

  lemma {:induction false} BalancedSecondTest<T>(s: State<T>, w: Tid)
    requires Balanced(s) && Enabled(s, SecondTest(w))
    requires forall v | v in s.dropped :: v in s.workers && s.workers[v].Exited?
    ensures Balanced(Apply(s, SecondTest(w)))
  {
    GroupKept(s, SecondTest(w));
    var r := Apply(s, SecondTest(w));
    SumMove(s.workers, Holds, w, r.workers[w]);
    if s.running {
      LastCall(s.passed, TaskCall(s.workers[w].item, s.phase, s.queue.needStop, w in s.late));
    } else {
      assert w !in s.dropped;
    }
  }

  lemma {:induction false} BalancedStep<T>(s: State<T>, e: Event<T>)
    requires Inv(s) && Balanced(s) && Enabled(s, e)
    ensures Balanced(Apply(s, e))
  {
    GroupKept(s, e);
    match e
    case Inside(q) => InsideEffect(s, q);
    case SecondTest(w) => BalancedSecondTest(s, w);
    case _ => BalancedMove(s, e);
  }

  lemma {:induction false} BalancedRun<T>(s: State<T>, es: seq<Event<T>>)
    requires Inv(s) && Balanced(s) && Admissible(s, es)
    ensures Inv(Run(s, es)) && Balanced(Run(s, es))
    decreases |es|
  {
    if es == [] {
    } else {
      InvStep(s, es[0]);
      BalancedStep(s, es[0]);
      BalancedRun(Apply(s, es[0]), es[1..]);
    }
  }

  ghost predicate HeldBy<T>(s: State<T>, i: nat, w: Tid) {
    w in s.workers && s.workers[w] == AtSecondTest(Some(i))
  }

  ghost predicate PassedAs<T>(s: State<T>, i: nat, k: nat) {
    k < |s.passed| && s.passed[k].item == Some(i)
  }

  ghost predicate DroppedBy<T>(s: State<T>, i: nat, w: Tid) {
    w in s.dropped && s.dropped[w] == i
  }

  ghost predicate SomePlace<T>(s: State<T>, i: nat) {
    (exists w :: HeldBy(s, i, w)) || (exists k :: PassedAs(s, i, k)) || (exists w :: DroppedBy(s, i, w))
  }

  lemma {:induction false} OnePlaceEach<T>(s: State<T>)
    requires Ledger(|s.queue.delivered|, s.workers, s.passed, s.dropped, s.places)
    ensures forall i: nat | i < |s.queue.delivered| :: SomePlace(s, i)
    ensures forall i, w | HeldBy(s, i, w) :: i in s.places && s.places[i] == Held(w)
    ensures forall i, k | PassedAs(s, i, k) :: i in s.places && s.places[i] == Passed(k)
    ensures forall i, w | DroppedBy(s, i, w) :: i in s.places && s.places[i] == Dropped(w)
  {
    forall i: nat | i < |s.queue.delivered| ensures SomePlace(s, i)
    {
      match s.places[i]
      case Held(w) => assert HeldBy(s, i, w);
      case Passed(k) => assert PassedAs(s, i, k);
      case Dropped(w) => assert DroppedBy(s, i, w);
    }
  }

  lemma {:induction false} SubsetCard<A>(a: set<A>, b: set<A>)
    requires a <= b
    ensures |a| <= |b|
  {
    assert b == a + (b - a);
  }

  lemma {:induction false} MembersCard(group: seq<Tid>)
    ensures |Members(group)| <= |group|
  {
    if group == [] {
      assert Members(group) == {};
    } else {
      assert Members(group) == Members(group[1..]) + {group[0]};
      MembersCard(group[1..]);
    }
  }

  lemma {:induction false} FewDrops<T>(s: State<T>)
    requires Staffed(s) && Phased(s)
    requires forall w | w in s.dropped :: w in s.workers && s.workers[w].Exited?
    ensures |s.dropped| <= |s.group| && (s.running ==> s.dropped == map[])
  {
    var members := Members(s.group);
    assert s.dropped.Keys <= members;
    SubsetCard(s.dropped.Keys, members);
    assert |s.dropped| == |s.dropped.Keys|;
    MembersCard(s.group);
    if s.running {
      assert forall w :: w !in s.dropped;
    }
  }

  /** No real item is lost or run twice, through a stop or without one. The counts add up, and so do
      the items themselves: each delivered one is in the hands of one worker, or was given to the
      task function once, or was dropped by one worker, and only one of these. */
  lemma {:induction false} Conservation<T>(group: seq<Tid>, es: seq<Event<T>>)
    requires Distinct(group) && Admissible(Init<T>(group), es)
    ensures var s := Run(Init<T>(group), es);
            && Staffed(s)
            && s.queue.accepted == s.queue.delivered + s.queue.queue
            && |s.queue.accepted|
               == |s.queue.queue| + Sum(s.workers, Holds) + RealCalls(s.passed) + |s.dropped|
            && |s.dropped| <= |group|
            && (s.running ==> s.dropped == map[])
    ensures var s := Run(Init<T>(group), es);
            forall i: nat | i < |s.queue.delivered| :: SomePlace(s, i)
    ensures var s := Run(Init<T>(group), es);
            forall i, k, l | PassedAs(s, i, k) && PassedAs(s, i, l) :: k == l
    ensures var s := Run(Init<T>(group), es);
            && (forall i, w, k :: !(HeldBy(s, i, w) && PassedAs(s, i, k)))
            && (forall i, v, w :: !(HeldBy(s, i, v) && DroppedBy(s, i, w)))
            && (forall i, k, w :: !(PassedAs(s, i, k) && DroppedBy(s, i, w)))
            && (forall i, v, w | DroppedBy(s, i, v) && DroppedBy(s, i, w) :: v == w)
            && (forall i, v, w | HeldBy(s, i, v) && HeldBy(s, i, w) :: v == w)
  {
    InvInit<T>(group);
    SumZero(Init<T>(group).workers, Holds);
    BalancedRun(Init<T>(group), es);
    GroupRun(Init<T>(group), es);
    OnePlaceEach(Run(Init<T>(group), es));
    FewDrops(Run(Init<T>(group), es));
  }

  // ------------------------------------------------------------ shutdown

  /** Turns left to a worker once m_running is false. */
  ghost function TurnsLeft(pc: Worker): nat {
    match pc
    case AtLoopTest => 1
    case InTake => 2
    case AtSecondTest(_) => 1
    case InTask(_) => 2
    case Exited => 0
  }

  ghost function JoinsLeft<T>(s: State<T>): int {
    match s.phase
    case Joining(j) => |s.group| - j + 1
    case _ => 0
  }

  ghost predicate ShuttingDown<T>(s: State<T>) {
    s.phase.Joining? || s.phase.Finished?
  }

  /** Turns left to the pool's own threads. */
  ghost function PoolWeight<T>(s: State<T>): int {
    Sum(s.workers, TurnsLeft) + JoinsLeft(s)
  }

  predicate PoolTurn<T>(e: Event<T>) {
    !e.AddData? && !e.Inside?
  }

  lemma {:induction false} PoolWeightStep<T>(s: State<T>, e: Event<T>)
    requires Phased(s) && ShuttingDown(s) && Enabled(s, e)
    ensures ShuttingDown(Apply(s, e))
    ensures PoolWeight(Apply(s, e)) <= PoolWeight(s) - if PoolTurn(e) then 1 else 0
  {
    GroupKept(s, e);
    var r := Apply(s, e);
    match e
    case TakeReturns(w, wake) => SumMove(s.workers, TurnsLeft, w, r.workers[w]);
    case LoopTest(w) => SumMove(s.workers, TurnsLeft, w, r.workers[w]);
    case SecondTest(w) => SumMove(s.workers, TurnsLeft, w, r.workers[w]);
    case TaskReturns(w) => SumMove(s.workers, TurnsLeft, w, r.workers[w]);
    case _ =>
  }

  ghost function PoolTurns<T>(es: seq<Event<T>>): nat {
    if es == [] then 0 else (if PoolTurn(es[0]) then 1 else 0) + PoolTurns(es[1..])
  }

  lemma {:induction false} PoolWeightNonnegative<T>(s: State<T>)
    requires Inv(s)
    ensures PoolWeight(s) >= 0
  {
  }

  /** After m_running is cleared the workers and the joining thread take boundedly many more turns,
      even if clients never stop calling AddData. */
  lemma {:induction false} ShutdownBounded<T>(s: State<T>, es: seq<Event<T>>)
    requires Inv(s) && ShuttingDown(s) && Admissible(s, es)
    ensures PoolTurns(es) <= PoolWeight(s)
    decreases |es|
  {
    if es == [] {
      PoolWeightNonnegative(s);
    } else {
      PoolWeightStep(s, es[0]);
      InvStep(s, es[0]);
      ShutdownBounded(Apply(s, es[0]), es[1..]);
    }
  }

  /** Nothing can happen any more but a call of AddData. */
  ghost predicate AtRest<T(!new)>(s: State<T>) {
    forall e: Event<T> | !e.AddData? :: !Enabled(s, e)
  }

  lemma {:induction false} NoStopCall<T>(s: State<T>)
    requires Q.Placed(s.queue) && Wired(s.queue, s.workers, s.phase) && ShuttingDown(s)
    ensures s.queue.toNotFull == {} == s.queue.toNotEmpty
  {
    forall t ensures t !in s.queue.toNotFull && t !in s.queue.toNotEmpty {
      assert t in s.queue.calls ==> !s.queue.calls[t].Stop?;
    }
  }

  /** Once m_running is cleared nobody is asleep in the queue and nobody is about to notify. */
  lemma {:induction false} NobodyAsleep<T>(s: State<T>)
    requires Inv(s) && ShuttingDown(s)
    ensures s.queue.needStop && s.queue.toNotFull == {} == s.queue.toNotEmpty
    ensures s.queue.notFull.sleeping == {} == s.queue.notEmpty.sleeping
    ensures forall t | t in s.queue.calls :: t in Q.Runnable(s.queue)
  {
    NoStopCall(s);
  }

  lemma {:induction false} OpenCallCanMove<T(!new)>(s: State<T>, t: Tid)
    requires Wired(s.queue, s.workers, s.phase) && s.queue.needStop
    requires t in s.queue.calls && t in Q.Runnable(s.queue)
    ensures !AtRest(s)
  {
    var e: Event<T> := if EndsTake(s.queue, t) then TakeReturns(t, None) else Inside(Q.Section(t, None));
    assert !e.AddData? && Enabled(s, e);
  }

  /** And they never wait for anything: a shutdown comes to rest only when every worker has exited,
      every join has completed and every call into the queue has returned. */
  lemma {:induction false} ShutdownCompletes<T(!new)>(s: State<T>)
    requires Inv(s) && ShuttingDown(s) && AtRest(s)
    ensures s.phase.Finished? && s.queue.calls == map[]
    ensures forall w | w in s.workers :: s.workers[w].Exited?
  {
    NobodyAsleep(s);
    forall t ensures t !in s.queue.calls {
      if t in s.queue.calls {
        OpenCallCanMove(s, t);
      }
    }
    forall w | w in s.workers ensures s.workers[w].Exited? {
      assert !Enabled(s, LoopTest(w)) && !Enabled(s, SecondTest(w)) && !Enabled(s, TaskReturns(w));
    }
    assert !Enabled(s, Join) && !Enabled(s, ClearGroup);
  }

  /** The thread that stops the queue is never blocked on the way to clearing m_running. */
  lemma {:induction false} StopperCanMove<T>(s: State<T>)
    requires Inv(s) && s.phase.StoppingQueue?
    ensures var t := s.phase.stopper;
            || Enabled(s, ClearRunning)
            || Enabled(s, Inside(Q.Section(t, None)))
            || Enabled(s, Inside(Q.NotifyNotFull(t)))
            || Enabled(s, Inside(Q.NotifyNotEmpty(t)))
  {
    var t := s.phase.stopper;
    if t in s.queue.calls {
      assert Q.Somewhere(s.queue, t);
    }
  }

  lemma {:induction false} TakersAreWorkers<T>(s: State<T>)
    requires Q.Placed(s.queue) && Wired(s.queue, s.workers, s.phase)
    ensures s.queue.notEmpty.woken <= s.workers.Keys
  {
  }

  /** Before the stop, if any worker sleeps for want of an item then as many workers have been woken from
      that sleep as items wait. */
  lemma {:induction false} QueuedItemsHaveWorkers<T>(group: seq<Tid>, es: seq<Event<T>>)
    requires Distinct(group) && Admissible(Init<T>(group), es)
    ensures var s := Run(Init<T>(group), es);
            s.phase.Running? && s.queue.notEmpty.sleeping != {} ==>
              |s.queue.queue| <= |s.queue.notEmpty.woken|
              && s.queue.notEmpty.woken <= Members(group)
  {
    InvInit<T>(group);
    InvRun(Init<T>(group), es);
    GroupRun(Init<T>(group), es);
    TakersAreWorkers(Run(Init<T>(group), es));
  }
}
