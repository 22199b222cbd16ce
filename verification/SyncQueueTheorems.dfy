/** What every run of the bounded blocking queue guarantees. */
module SyncQueueTheorems {
  import opened Sequences
  import opened Threads
  import opened SyncQueueSpec

  // ------------------------------------------------------------ order and bound

  /** The two tests of the queue's fill level, as the source writes them. */
  predicate Full<T>(s: State<T>) {
    |s.queue| == s.capacity
  }

  predicate NotFull<T>(s: State<T>) {
    !(|s.queue| >= s.capacity)
  }

  lemma {:induction false} CapacityKept<T>(s: State<T>, e: Event<T>)
    requires Enabled(s, e)
    ensures Apply(s, e).capacity == s.capacity
  {
  }

  lemma {:induction false} CapacityFixed<T>(s: State<T>, es: seq<Event<T>>)
    requires Admissible(s, es)
    ensures Run(s, es).capacity == s.capacity
    decreases |es|
  {
    if es == [] {
    } else {
      CapacityKept(s, es[0]);
      CapacityFixed(Apply(s, es[0]), es[1..]);
    }
  }

  /** What a step puts into the queue, read off the event and the calls: the item of a Put that gets the
      mutex, finds room, and finds no stop. */
  ghost function PutBy<T>(s: State<T>, e: Event<T>): seq<T> {
    if e.Section? && e.t in s.calls && s.calls[e.t].Put? && !s.needStop && |s.queue| < s.capacity
    then [s.calls[e.t].x] else []
  }

  /** What a step hands out: to a Take(T) the item at the front, to a Take(list) all there is. */
  ghost function TakenBy<T>(s: State<T>, e: Event<T>): seq<T> {
    if e.Section? && e.t in s.calls && !s.needStop && s.queue != [] then
      match s.calls[e.t]
      case TakeOne => [s.queue[0]]
      case TakeAll => s.queue
      case _ => []
    else []
  }

  ghost function Puts<T>(s: State<T>, es: seq<Event<T>>): seq<T>
    requires Admissible(s, es)
    decreases |es|
  {
    if es == [] then [] else PutBy(s, es[0]) + Puts(Apply(s, es[0]), es[1..])
  }

  ghost function Takes<T>(s: State<T>, es: seq<Event<T>>): seq<T>
    requires Admissible(s, es)
    decreases |es|
  {
    if es == [] then [] else TakenBy(s, es[0]) + Takes(Apply(s, es[0]), es[1..])
  }

  /** A step changes the queue by exactly what it puts in at the end, or takes out at the front. */
  lemma {:induction false} QueueStep<T>(s: State<T>, e: Event<T>)
    requires Enabled(s, e)
    ensures var r := Apply(s, e);
            && s.queue + PutBy(s, e) == TakenBy(s, e) + r.queue
            && r.accepted == s.accepted + PutBy(s, e)
            && r.delivered == s.delivered + TakenBy(s, e)
  {
  }

  lemma {:induction false} QueueRun<T>(s: State<T>, es: seq<Event<T>>)
    requires Admissible(s, es)
    ensures var r := Run(s, es);
            && s.queue + Puts(s, es) == Takes(s, es) + r.queue
            && r.accepted == s.accepted + Puts(s, es)
            && r.delivered == s.delivered + Takes(s, es)
    decreases |es|
  {
    hide Apply, Enabled, PutBy, TakenBy;
    if es == [] {
      assert s.queue + [] == [] + s.queue;
    } else {
      var (a, e, rest) := (Apply(s, es[0]), es[0], es[1..]);
      QueueStep(s, e);
      QueueRun(a, rest);
      var (p, d, ps, ds, r) := (PutBy(s, e), TakenBy(s, e), Puts(a, rest), Takes(a, rest), Run(a, rest));
      assert Puts(s, es) == p + ps && Takes(s, es) == d + ds && Run(s, es) == r;
      hide *;
      Regroup(s.queue, p, d, a.queue, ps, ds, r.queue);
      assert s.accepted + p + ps == s.accepted + (p + ps);
      assert s.delivered + d + ds == s.delivered + (d + ds);
    }
  }

  /** Items leave in the order in which they were put, none twice and none lost: over every run, what the
      Puts put, in the order in which they got the mutex, is what the Takes were handed, batches
      concatenated, and then the queue. The bound holds, and the equality test for fullness agrees with
      the other one. */
  lemma {:induction false} FifoOverRuns<T>(capacity: nat, es: seq<Event<T>>)
    requires Admissible(Init(capacity), es)
    ensures var s := Run(Init(capacity), es);
            && Puts(Init(capacity), es) == Takes(Init(capacity), es) + s.queue
            && s.accepted == Puts(Init(capacity), es) && s.delivered == Takes(Init(capacity), es)
            && |s.queue| <= capacity
            && (Full(s) <==> !NotFull(s))
  {
    QueueRun(Init(capacity), es);
    InvRun(Init(capacity), es);
    CapacityFixed(Init(capacity), es);
    var s := Init<T>(capacity);
    assert s.queue + Puts(s, es) == Puts(s, es);
  }

  // ------------------------------------------------------------ wake-ups

  ghost predicate NoBatch<T>(es: seq<Event<T>>) {
    forall e | e in es :: !(e.Begin? && e.call.TakeAll?)
  }

  ghost predicate NoBatchCall<T>(s: State<T>) {
    forall t | t in s.calls :: !s.calls[t].TakeAll?
  }

  /** No event but the start of a call adds a call or alters one. */
  lemma {:induction false} CallsShrink<T>(s: State<T>, e: Event<T>)
    requires Enabled(s, e)
    ensures !e.Begin? ==> forall t | t in Apply(s, e).calls :: t in s.calls && Apply(s, e).calls[t] == s.calls[t]
  {
  }

  lemma {:induction false} CoveredSpurious<T>(s: State<T>, t: Tid)
    requires ProducersCovered(s) && s.notFull.sleeping !! s.notFull.woken && Enabled(s, Spurious(t))
    ensures ProducersCovered(Apply(s, Spurious(t)))
  {
    if t in s.notFull.sleeping {
      WakeCounts(s.notFull, t);
    }
  }

  lemma {:induction false} CoveredTake<T>(s: State<T>, t: Tid, c: Call<T>, wake: Option<Tid>)
    requires ProducersCovered(s) && MayRun(s, t, c) && MayWake(s, c, wake)
    requires c.TakeOne? && Ready(s, c) && !s.needStop
    ensures ProducersCovered(Act(Locked(s, t), c, wake))
  {
    assert s.notFull.Leave(t) == s.notFull;
    NotifyCounts(s.notFull, wake);
  }

  lemma {:induction false} CoveredSection<T>(s: State<T>, t: Tid, c: Call<T>, wake: Option<Tid>)
    requires ProducersCovered(s) && |s.queue| <= s.capacity && MayRun(s, t, c) && MayWake(s, c, wake)
    requires !c.TakeAll?
    ensures ProducersCovered(SectionStep(s, t, c, wake))
  {
    LeaveCounts(s.notFull, t);
    if c.TakeOne? && Ready(s, c) && !s.needStop {
      CoveredTake(s, t, c, wake);
    }
  }

  lemma {:induction false} SingleStep<T>(s: State<T>, e: Event<T>)
    requires Inv(s) && NoBatchCall(s) && ProducersCovered(s) && Enabled(s, e)
    requires !(e.Begin? && e.call.TakeAll?)
    ensures NoBatchCall(Apply(s, e)) && ProducersCovered(Apply(s, e))
  {
    CallsShrink(s, e);
    match e
    case Begin(t, c) =>
    case Section(t, wake) => PlacedRunnable(s, t); CoveredSection(s, t, s.calls[t], wake);
    case Spurious(t) => CoveredSpurious(s, t);
    case NotifyNotFull(t) =>
    case NotifyNotEmpty(t) =>
  }

  lemma {:induction false} SingleRun<T>(s: State<T>, es: seq<Event<T>>)
    requires Inv(s) && NoBatchCall(s) && ProducersCovered(s) && Admissible(s, es) && NoBatch(es)
    ensures Inv(Run(s, es)) && NoBatchCall(Run(s, es)) && ProducersCovered(Run(s, es))
    decreases |es|
  {
    if es == [] {
    } else {
      assert es[0] in es;
      SingleStep(s, es[0]);
      InvStep(s, es[0]);
      SingleRun(Apply(s, es[0]), es[1..]);
    }
  }

  /** With consumers that take one item at a time, before a stop: a sleeping producer means that items and
      woken producers reach the capacity, a sleeping consumer that woken consumers reach the items. */
  lemma {:induction false} NoLostWakeUpSingle<T>(capacity: nat, es: seq<Event<T>>)
    requires Admissible(Init(capacity), es) && NoBatch(es)
    ensures var s := Run(Init(capacity), es);
            !s.needStop ==>
              && (s.notFull.sleeping != {} ==> |s.queue| + |s.notFull.woken| >= capacity)
              && (s.notEmpty.sleeping != {} ==> |s.notEmpty.woken| >= |s.queue|)
  {
    SingleRun(Init(capacity), es);
    CapacityFixed(Init(capacity), es);
  }

  // ------------------------------------------------------------ progress

  /** Thread t is awake, and its next turn with the mutex finishes its call. */
  ghost predicate CanComplete<T>(s: State<T>, t: Tid) {
    t in s.calls && t in Runnable(s) && Ready(s, s.calls[t])
  }

  ghost predicate PutPending<T>(s: State<T>) {
    exists t :: t in s.calls && s.calls[t].Put?
  }

  ghost predicate TakePending<T>(s: State<T>) {
    exists t :: t in s.calls && IsTake(s.calls[t])
  }

  lemma {:induction false} AwakeTake<T>(s: State<T>, c: Tid)
    requires Placed(s) && NoLostWakeUp(s) && !s.needStop && s.queue != []
    requires c in s.calls && IsTake(s.calls[c])
    ensures exists t :: CanComplete(s, t)
  {
    if c in s.notEmpty.sleeping {
      assert s.notEmpty.woken != {};
      var d :| d in s.notEmpty.woken;
      assert CanComplete(s, d);
    } else {
      assert CanComplete(s, c);
    }
  }

  lemma {:induction false} AwakePut<T>(s: State<T>, p: Tid)
    requires Placed(s) && NoLostWakeUp(s) && !s.needStop && s.capacity >= 1 && s.queue == []
    requires p in s.calls && s.calls[p].Put?
    ensures exists t :: CanComplete(s, t)
  {
    if p in s.notFull.sleeping {
      assert s.notFull.woken != {};
      var q :| q in s.notFull.woken;
      assert CanComplete(s, q);
    } else {
      assert CanComplete(s, p);
    }
  }

  /** With room for at least one item, whenever a put and a take are both pending somebody who is
      awake can finish, batch takes or not. */
  lemma {:induction false} SomebodyCanComplete<T>(s: State<T>)
    requires Inv(s) && !s.needStop && s.capacity >= 1 && PutPending(s) && TakePending(s)
    ensures exists t :: CanComplete(s, t)
  {
    if s.queue != [] {
      var c :| c in s.calls && IsTake(s.calls[c]);
      AwakeTake(s, c);
    } else {
      var p :| p in s.calls && s.calls[p].Put?;
      AwakePut(s, p);
    }
  }

  /** A put and a take are pending, and everybody is asleep. */
  ghost predicate Deadlocked<T>(s: State<T>) {
    && !s.needStop && PutPending(s) && TakePending(s)
    && s.calls.Keys <= s.notFull.sleeping + s.notEmpty.sleeping
  }

  lemma {:induction false} NotDeadlocked<T>(s: State<T>)
    requires Inv(s) && s.capacity >= 1
    ensures !Deadlocked(s)
  {
    if !s.needStop && PutPending(s) && TakePending(s) {
      SomebodyCanComplete(s);
      var t :| CanComplete(s, t);
      PlacedRunnable(s, t);
    }
  }

  lemma {:induction false} RunOfTwo<T>(s: State<T>, es: seq<Event<T>>)
    requires |es| == 2 && Enabled(s, es[0]) && Enabled(Apply(s, es[0]), es[1])
    ensures Admissible(s, es) && Run(s, es) == Apply(Apply(s, es[0]), es[1])
  {
    var a := Apply(s, es[0]);
    assert es[1..][0] == es[1] && es[1..][1..] == [];
    assert Admissible(Apply(a, es[1]), []) && Run(Apply(a, es[1]), []) == Apply(a, es[1]);
    assert Admissible(a, es[1..]) && Run(a, es[1..]) == Apply(a, es[1]);
  }

  lemma {:induction false} RunOfFour<T>(s: State<T>, es: seq<Event<T>>)
    requires |es| == 4 && Enabled(s, es[0])
    requires var a := Apply(s, es[0]);
             Enabled(a, es[1]) &&
             var b := Apply(a, es[1]);
             Enabled(b, es[2]) &&
             Enabled(Apply(b, es[2]), es[3])
    ensures Admissible(s, es)
    ensures Run(s, es) == Apply(Apply(Apply(Apply(s, es[0]), es[1]), es[2]), es[3])
  {
    RunOfTwo(s, es[..2]);
    RunOfTwo(Apply(Apply(s, es[0]), es[1]), es[2..]);
    RunConcat(s, es[..2], es[2..]);
    assert es[..2] + es[2..] == es;
  }

  lemma {:induction false} ZeroCapacityDeadlocks<T>(x: T)
    ensures exists es: seq<Event<T>> :: Admissible(Init(0), es) && Deadlocked(Run(Init(0), es))
  {
    var es: seq<Event<T>> := [Begin(0, Put(x)), Section(0, None), Begin(1, TakeOne), Section(1, None)];
    var s0: State<T> := Init(0);
    var s1 := Apply(s0, es[0]);
    var s2 := Apply(s1, es[1]);
    var s3 := Apply(s2, es[2]);
    var s4 := Apply(s3, es[3]);
    RunOfFour(s0, es);
    assert s4.calls[0].Put? && s4.calls[1].TakeOne?;
    assert Deadlocked(s4);
  }

  /** A queue made with capacity zero deadlocks with one producer and one consumer; no other does. */
  lemma {:induction false} DeadlockFreeIff<T>(capacity: nat, x: T)
    ensures capacity >= 1 <==>
            forall es: seq<Event<T>> :: Admissible(Init(capacity), es) ==> !Deadlocked(Run(Init(capacity), es))
  {
    forall es: seq<Event<T>> | capacity >= 1 && Admissible(Init(capacity), es)
      ensures !Deadlocked(Run(Init(capacity), es))
    {
      InvRun(Init(capacity), es);
      CapacityFixed(Init(capacity), es);
      NotDeadlocked(Run(Init(capacity), es));
    }
    if capacity == 0 {
      ZeroCapacityDeadlocks(x);
    }
  }

  // ------------------------------------------------------------ batch takes

  function Fill<T>(x: T, n: nat): seq<Event<T>> {
    if n == 0 then [] else Fill(x, n - 1) + [Begin(0, Put(x)), Section(0, None)]
  }

  function Copies<T>(x: T, n: nat): seq<T> {
    seq(n, _ => x)
  }

  lemma {:induction false} Filled<T>(capacity: nat, x: T, n: nat)
    requires n <= capacity
    ensures var s := Init(capacity).(queue := Copies(x, n), accepted := Copies(x, n));
            Admissible(Init(capacity), Fill(x, n)) && Run(Init(capacity), Fill(x, n)) == s
  {
    if n == 0 {
    } else {
      Filled(capacity, x, n - 1);
      var s := Init(capacity).(queue := Copies(x, n - 1), accepted := Copies(x, n - 1));
      var es: seq<Event<T>> := [Begin(0, Put(x)), Section(0, None)];
      var a := Apply(s, es[0]);
      assert Copies(x, n) == Copies(x, n - 1) + [x];
      assert a.calls - {0} == map[] && a.entering - {0} == {};
      assert QUIET.Leave(0) == QUIET;
      assert Apply(a, es[1]) == Init(capacity).(queue := Copies(x, n), accepted := Copies(x, n));
      RunOfTwo(s, es);
      RunConcat(Init(capacity), Fill(x, n - 1), es);
    }
  }

  lemma {:induction false} TwoProducersSleep<T>(s: State<T>, x: T) returns (es: seq<Event<T>>)
    requires !s.needStop && s.calls == map[] && s.entering == {} && s.notFull == QUIET == s.notEmpty
    requires Full(s)
    ensures Admissible(s, es)
    ensures var r := Run(s, es);
            r.queue == s.queue && r.capacity == s.capacity && !r.needStop && r.entering == {}
            && r.calls.Keys == {0, 1} && r.notFull == CondVar({0, 1}, {}) && r.notEmpty == QUIET
  {
    es := [Begin(0, Put(x)), Section(0, None), Begin(1, Put(x)), Section(1, None)];
    var s2 := Apply(Apply(s, es[0]), es[1]);
    assert s2.notFull == CondVar({0}, {}) && s2.entering == {};
    var s3 := Apply(s2, es[2]);
    assert s3.calls[1] == Put(x) && s3.entering == {1};
    var s4 := Apply(s3, es[3]);
    assert s4.notFull == CondVar({0, 1}, {}) && s4.entering == {};
    RunOfFour(s, es);
  }

  lemma {:induction false} BatchWakesOne<T>(s: State<T>) returns (fs: seq<Event<T>>)
    requires !s.needStop && s.queue != [] && s.capacity >= 2 && s.entering == {}
    requires s.calls.Keys == {0, 1} && s.notFull == CondVar({0, 1}, {}) && s.notEmpty == QUIET
    ensures Admissible(s, fs) && !ProducersCovered(Run(s, fs))
  {
    fs := [Begin(2, TakeAll), Section(2, Some(0))];
    var s1 := Apply(s, fs[0]);
    assert s1.notFull.Leave(2) == s.notFull;
    var s2 := Apply(s1, fs[1]);
    assert s2.notFull == CondVar({1}, {0}) && s2.queue == [];
    RunOfTwo(s, fs);
  }

  lemma {:induction false} BatchStrandsProducer<T>(capacity: nat, x: T)
    requires capacity >= 2
    ensures exists es: seq<Event<T>> ::
              Admissible(Init(capacity), es) && !ProducersCovered(Run(Init(capacity), es))
  {
    Filled(capacity, x, capacity);
    var s := Run(Init(capacity), Fill(x, capacity));
    var es := TwoProducersSleep(s, x);
    RunConcat(Init(capacity), Fill(x, capacity), es);
    var fs := BatchWakesOne(Run(s, es));
    RunConcat(Init(capacity), Fill(x, capacity) + es, fs);
  }

  /** With batch takes the single-take bound on producers survives exactly in queues that hold at
      most one item: a batch frees every slot and wakes one producer. */
  lemma {:induction false} BatchKeepsProducersCoveredIff<T>(capacity: nat, x: T)
    ensures capacity <= 1 <==>
            forall es: seq<Event<T>> :: Admissible(Init(capacity), es) ==> ProducersCovered(Run(Init(capacity), es))
  {
    forall es: seq<Event<T>> | capacity <= 1 && Admissible(Init(capacity), es)
      ensures ProducersCovered(Run(Init(capacity), es))
    {
      InvRun(Init(capacity), es);
      CapacityFixed(Init(capacity), es);
    }
    if capacity >= 2 {
      BatchStrandsProducer(capacity, x);
    }
  }

  // ------------------------------------------------------------ settling and stopping

  /** An event that neither a new call nor a spurious wake-up brings about. */
  predicate Settling<T>(e: Event<T>) {
    e.Section? || e.NotifyNotFull? || e.NotifyNotEmpty?
  }

  ghost function Cost(c: CondVar, awake: nat, asleep: nat): nat {
    awake * |c.woken| + asleep * |c.sleeping|
  }

  /** How much the pending calls can still do on their own. */
  ghost function Weight<T>(s: State<T>): nat {
    if s.needStop then
      3 * |s.entering| + Cost(s.notFull, 1, 2) + Cost(s.notEmpty, 1, 2) + 2 * |s.toNotFull| + |s.toNotEmpty|
    else
      3 * |s.entering| + Cost(s.notFull, 3, 2) + Cost(s.notEmpty, 3, 2)
  }

  lemma {:induction false} OnePlace<T>(s: State<T>, t: Tid)
    requires Placed(s) && t in s.calls && t in Runnable(s)
    ensures t in s.entering ==> t !in s.notFull.woken && t !in s.notEmpty.woken
    ensures t in s.notFull.woken ==> t !in s.notEmpty.woken
    ensures s.calls[t].Stop? ==> t in s.entering
    ensures !s.needStop ==> s.toNotFull == {} && s.toNotEmpty == {}
  {
  }

  /** Getting the mutex takes the thread out of exactly one of the three places it can come from. */
  lemma {:induction false} LockedWeight<T>(s: State<T>, t: Tid)
    requires Placed(s) && t in s.calls && t in Runnable(s)
    ensures Weight(Locked(s, t)) <= Weight(s) - if s.needStop && t !in s.entering then 1 else 3
  {
    OnePlace(s, t);
    PlacedRunnable(s, t);
    hide Placed, PlacedBut;
    if t in s.entering {
      NotWaiting(s.notFull, t);
      NotWaiting(s.notEmpty, t);
    } else if t in s.notFull.woken {
      NotWaiting(s.notEmpty, t);
      LeaveCounts(s.notFull, t);
      assert s.entering - {t} == s.entering;
    } else {
      NotWaiting(s.notFull, t);
      LeaveCounts(s.notEmpty, t);
      assert s.entering - {t} == s.entering;
    }
  }

  /** A thread that is awake and not in a condition variable's woken set is not in it at all. */
  lemma {:induction false} OnlyHere<T>(s: State<T>, t: Tid)
    requires Placed(s) && t in s.calls && t in Runnable(s)
    ensures s.calls[t].Put? ==> s.notEmpty.Leave(t) == s.notEmpty
    ensures IsTake(s.calls[t]) ==> s.notFull.Leave(t) == s.notFull
  {
    PlacedRunnable(s, t);
  }

  lemma {:induction false} NotifyCost(c: CondVar, wake: Option<Tid>)
    requires c.sleeping !! c.woken && c.MayWake(wake)
    ensures Cost(c.NotifyOne(wake), 3, 2) <= Cost(c, 3, 2) + 1
  {
    if wake.Some? {
      WakeCounts(c, wake.value);
      assert |c.sleeping - {wake.value}| == |c.sleeping| - 1;
    }
  }

  lemma {:induction false} SleepCost(c: CondVar, t: Tid)
    ensures Cost(c.Sleep(t), 3, 2) <= Cost(c, 3, 2) + 2
  {
  }

  lemma {:induction false} StoppedWeight<T>(s: State<T>, t: Tid, c: Call<T>, wake: Option<Tid>)
    requires s.needStop && (c.Stop? ==> t in s.entering)
    requires Weight(Locked(s, t)) <= Weight(s) - if t in s.entering then 3 else 1
    ensures Weight(SectionStep(s, t, c, wake)) < Weight(s)
  {
  }

  lemma {:induction false} AfterLockWeight<T>(s: State<T>, t: Tid, c: Call<T>, wake: Option<Tid>)
    requires !s.needStop && s.toNotFull == {} && s.toNotEmpty == {}
    requires MayRun(s, t, c) && MayWake(s, c, wake)
    ensures Weight(SectionStep(s, t, c, wake)) <= Weight(Locked(s, t)) + 2
  {
    var h := Locked(s, t);
    if c.Put? {
      NotWaiting(s.notEmpty, t);
      SleepCost(h.notFull, t);
      if Ready(s, c) { NotifyCost(s.notEmpty, wake); }
    } else if IsTake(c) {
      NotWaiting(s.notFull, t);
      SleepCost(h.notEmpty, t);
      if Ready(s, c) { NotifyCost(s.notFull, wake); }
    }
  }

  lemma {:induction false} SectionWeight<T>(s: State<T>, t: Tid, wake: Option<Tid>)
    requires Placed(s) && Enabled(s, Section(t, wake))
    ensures Weight(SectionStep(s, t, s.calls[t], wake)) < Weight(s)
  {
    LockedWeight(s, t);
    OnePlace(s, t);
    PlacedRunnable(s, t);
    if s.needStop {
      StoppedWeight(s, t, s.calls[t], wake);
    } else {
      AfterLockWeight(s, t, s.calls[t], wake);
    }
  }

  lemma {:induction false} WakeAllCost(c: CondVar)
    requires c.sleeping !! c.woken
    ensures Cost(c.WakeAll(), 1, 2) <= Cost(c, 1, 2)
  {
    assert |c.woken + c.sleeping| == |c.woken| + |c.sleeping|;
  }

  lemma {:induction false} WakeCost(c: CondVar, t: Tid)
    requires c.sleeping !! c.woken && t in c.sleeping
    ensures Cost(c.Wake(t), 1, 2) < Cost(c, 1, 2)
  {
    WakeCounts(c, t);
    assert |c.sleeping - {t}| == |c.sleeping| - 1;
  }

  lemma {:induction false} NotifyWeight<T>(s: State<T>, t: Tid)
    requires Placed(s) && t in s.toNotFull
    ensures Weight(Apply(s, NotifyNotFull(t))) < Weight(s)
  {
    WakeAllCost(s.notFull);
    assert |s.toNotFull - {t}| == |s.toNotFull| - 1;
    assert |s.toNotEmpty + {t}| == |s.toNotEmpty| + 1;
  }

  lemma {:induction false} WeightDecreases<T>(s: State<T>, e: Event<T>)
    requires Placed(s) && Enabled(s, e)
    requires Settling(e) || (s.needStop && e.Spurious?)
    ensures Weight(Apply(s, e)) < Weight(s)
  {
    match e
    case Section(t, wake) => SectionWeight(s, t, wake);
    case Spurious(t) => if t in s.notFull.sleeping { WakeCost(s.notFull, t); } else { WakeCost(s.notEmpty, t); }
    case NotifyNotFull(t) => NotifyWeight(s, t);
    case NotifyNotEmpty(t) => WakeAllCost(s.notEmpty);
  }

  /** Left alone, the pending calls come to rest: no run of settling events is longer than the
      weight. After the stop this holds with spurious wake-ups too. */
  lemma {:induction false} RunsSettle<T>(s: State<T>, es: seq<Event<T>>)
    requires Inv(s) && Admissible(s, es)
    requires forall e | e in es :: Settling(e) || (s.needStop && e.Spurious?)
    ensures |es| <= Weight(s)
    decreases |es|
  {
    if es == [] {
    } else {
      assert es[0] in es;
      InvStep(s, es[0]);
      WeightDecreases(s, es[0]);
      RunsSettle(Apply(s, es[0]), es[1..]);
    }
  }

  /** Nothing can happen but a new call or a spurious wake-up. */
  ghost predicate AtRest<T(!new)>(s: State<T>) {
    forall e: Event<T> | Settling(e) :: !Enabled(s, e)
  }

  /** A thread that is awake always has a turn to take. */
  lemma {:induction false} SomeWake<T>(s: State<T>, t: Tid) returns (wake: Option<Tid>)
    requires Placed(s) && t in Runnable(s)
    ensures Enabled(s, Section(t, wake))
  {
    var c := s.calls[t];
    if s.needStop || !Ready(s, c) || c.Stop? {
      wake := None;
    } else {
      var v := if c.Put? then s.notEmpty else s.notFull;
      if v.sleeping == {} {
        wake := None;
      } else {
        var u :| u in v.sleeping;
        wake := Some(u);
      }
    }
  }

  lemma {:induction false} AwakeIsNotAtRest<T(!new)>(s: State<T>, t: Tid)
    requires Placed(s) && t in Runnable(s)
    ensures !AtRest(s)
  {
    var wake := SomeWake(s, t);
    var e: Event<T> := Section(t, wake);
    assert Settling(e) && Enabled(s, e);
  }

  lemma {:induction false} NobodyAwake<T(!new)>(s: State<T>)
    requires Inv(s) && AtRest(s)
    ensures s.entering == {} && s.notFull.woken == {} && s.notEmpty.woken == {}
    ensures s.toNotFull == {} && s.toNotEmpty == {}
  {
    forall t: Tid ensures t !in s.toNotFull && t !in s.toNotEmpty {
      assert !Enabled(s, NotifyNotFull(t)) && !Enabled(s, NotifyNotEmpty(t));
    }
    forall t: Tid ensures t !in s.entering && t !in s.notFull.woken && t !in s.notEmpty.woken {
      if t in Runnable(s) {
        AwakeIsNotAtRest(s, t);
      }
    }
  }

  /** Where the pending calls come to rest. After the stop every call has returned. Before it,
      either only consumers are left, asleep at an empty queue, or only producers, asleep at a queue
      that is not empty, and full if consumers take single items. */
  lemma {:induction false} RestOutcome<T(!new)>(s: State<T>)
    requires Inv(s) && AtRest(s)
    ensures s.needStop ==> s.calls == map[]
    ensures !s.needStop && TakePending(s) ==> s.queue == []
    ensures !s.needStop && PutPending(s) && s.capacity >= 1 ==> s.queue != [] && !TakePending(s)
    ensures !s.needStop && PutPending(s) && ProducersCovered(s) ==> Full(s)
    ensures forall t | t in s.calls :: t in s.notFull.sleeping || t in s.notEmpty.sleeping
  {
    NobodyAwake(s);
    assert forall t | t in s.calls :: t in s.notFull.sleeping || t in s.notEmpty.sleeping;
    if !s.needStop && PutPending(s) && TakePending(s) && s.capacity >= 1 {
      SomebodyCanComplete(s);
    }
  }

  lemma {:induction false} StopFreezesStep<T>(s: State<T>, e: Event<T>)
    requires s.needStop && Enabled(s, e)
    ensures var r := Apply(s, e);
            && r.needStop && r.queue == s.queue && r.accepted == s.accepted && r.delivered == s.delivered
            && r.notFull.sleeping <= s.notFull.sleeping && r.notEmpty.sleeping <= s.notEmpty.sleeping
  {
  }

  /** After the stop flag is set the contents never change again and nobody newly goes to sleep. */
  lemma {:induction false} StopFreezes<T>(s: State<T>, es: seq<Event<T>>)
    requires s.needStop && Admissible(s, es)
    ensures var r := Run(s, es);
            && r.needStop && r.queue == s.queue && r.accepted == s.accepted && r.delivered == s.delivered
            && r.notFull.sleeping <= s.notFull.sleeping && r.notEmpty.sleeping <= s.notEmpty.sleeping
    decreases |es|
  {
    if es == [] {
    } else {
      StopFreezesStep(s, es[0]);
      StopFreezes(Apply(s, es[0]), es[1..]);
    }
  }

  /** Once any Stop call has sent both its notifications nobody sleeps, then or at any later time,
      however many other calls of Stop are on their way and whatever calls are still to come. */
  lemma {:induction false} NobodySleepsAfterStop<T>(s: State<T>, t: Tid, es: seq<Event<T>>)
    requires Inv(s) && Enabled(s, NotifyNotEmpty(t)) && Admissible(Apply(s, NotifyNotEmpty(t)), es)
    ensures var r := Run(Apply(s, NotifyNotEmpty(t)), es);
            r.needStop && r.notFull.sleeping == {} == r.notEmpty.sleeping
  {
    StopFreezes(Apply(s, NotifyNotEmpty(t)), es);
  }
}
