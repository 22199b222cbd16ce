/** Where the worker pool comes to rest before a stop, and the deadlock of workers that add items. */
module ThreadPoolRest {
  import opened Threads
  import opened Sums
  import Q = SyncQueueSpec
  import QT = SyncQueueTheorems
  import ThreadPoolStop
  import opened ThreadPoolSpec
  import opened ThreadPoolTheorems

  // ------------------------------------------------------------ the deadlock

  /** The queue is full, and every worker is inside AddData, called from its task. */
  ghost predicate Clogged<T>(s: State<T>) {
    && !s.queue.needStop && |s.queue.queue| == 99 && s.workers != map[]
    && forall w | w in s.workers :: w in s.queue.calls && s.queue.calls[w].Put?
  }

  /** With every worker in AddData and no stop under way, no Take and no Stop is open. */
  lemma {:induction false} OnlyPuts<T>(s: State<T>, t: Tid)
    requires Wired(s.queue, s.workers, s.phase) && s.phase.Running? && Clogged(s) && t in s.queue.calls
    ensures s.queue.calls[t].Put?
  {
  }

  lemma {:induction false} NobodyNotifies<T>(s: State<T>)
    requires Q.Placed(s.queue) && Wired(s.queue, s.workers, s.phase) && s.phase.Running?
    ensures s.queue.toNotFull == {} == s.queue.toNotEmpty
  {
    forall t ensures t !in s.queue.toNotFull && t !in s.queue.toNotEmpty {
      assert t in s.queue.calls ==> !s.queue.calls[t].Stop?;
    }
  }

  /** A turn of Put at a full queue goes to sleep. */
  lemma {:induction false} FullSleeps<T>(q: Q.State<T>, e: Q.Event<T>)
    requires Q.Enabled(q, e) && !q.needStop && |q.queue| >= q.capacity && q.toNotFull == {} == q.toNotEmpty
    requires e.Section? ==> q.calls[e.t].Put?
    requires !e.Begin?
    ensures var r := Q.Apply(q, e);
            r.calls == q.calls && r.queue == q.queue && r.needStop == q.needStop && r.delivered == q.delivered
  {
  }

  lemma {:induction false} CloggedInside<T>(s: State<T>, q: Q.Event<T>)
    requires Inv(s) && Clogged(s) && s.phase.Running? && InsideAllowed(s, q)
    ensures var r := Apply(s, Inside(q)); Clogged(r) && r.queue.delivered == s.queue.delivered
  {
    NobodyNotifies(s);
    if q.Section? {
      OnlyPuts(s, q.t);
    }
    FullSleeps(s.queue, q);
    hide Q.Apply, Q.Enabled, Q.Inv;
  }

  lemma {:induction false} NobodyElseMoves<T>(s: State<T>, e: Event<T>)
    requires Wired(s.queue, s.workers, s.phase) && Clogged(s) && s.phase.Running?
    requires !e.Inside? && !e.AddData? && !e.StopBegins?
    ensures !Enabled(s, e)
  {
  }

  lemma {:induction false} CloggedStep<T>(s: State<T>, e: Event<T>)
    requires Inv(s) && Clogged(s) && s.phase.Running? && Enabled(s, e) && !e.StopBegins?
    ensures var r := Apply(s, e);
            Clogged(r) && r.phase.Running? && r.queue.delivered == s.queue.delivered && r.passed == s.passed
  {
    match e
    case Inside(q) => CloggedInside(s, q);
    case AddData(t, x) => BeginEffect(s.queue, t, Q.Put(x));
    case _ => NobodyElseMoves(s, e);
  }

  /** Until somebody stops the pool, nothing is taken from a clogged one and nothing is processed, in any
      run, whatever is added and whoever wakes spuriously. */
  lemma {:induction false} CloggedForever<T>(s: State<T>, es: seq<Event<T>>)
    requires Inv(s) && Clogged(s) && s.phase.Running? && Admissible(s, es) && forall e | e in es :: !e.StopBegins?
    ensures var r := Run(s, es);
            Clogged(r) && r.queue.delivered == s.queue.delivered && r.passed == s.passed
    decreases |es|
  {
    hide Inv, Clogged;
    if es == [] {
    } else {
      assert es[0] in es;
      InvStep(s, es[0]);
      CloggedStep(s, es[0]);
      CloggedForever(Apply(s, es[0]), es[1..]);
    }
  }

  // ------------------------------------------------------------ rest

  /** A turn that no new call, no stop and no spurious wake-up brings about. */
  predicate Ongoing<T>(e: Event<T>) {
    match e
    case AddData(_, _) => false
    case StopBegins(_) => false
    case Inside(q) => !q.Spurious?
    case _ => true
  }

  ghost predicate Quiescent<T(!new)>(s: State<T>) {
    forall e: Event<T> | Ongoing(e) :: !Enabled(s, e)
  }

  lemma {:induction false} EndingTakeIsWorkers<T>(s: State<T>, t: Tid)
    requires Wired(s.queue, s.workers, s.phase)
    ensures EndsTake(s.queue, t) ==> t in s.workers && s.workers[t].InTake?
  {
  }

  lemma {:induction false} AwakeMoves<T(!new)>(s: State<T>, t: Tid)
    requires Inv(s) && t in Q.Runnable(s.queue)
    ensures !Quiescent(s)
  {
    var wake := QT.SomeWake(s.queue, t);
    var e: Event<T> := if EndsTake(s.queue, t) then TakeReturns(t, wake) else Inside(Q.Section(t, wake));
    EndingTakeIsWorkers(s, t);
    assert Ongoing(e) && Enabled(s, e);
  }

  lemma {:induction false} NobodyAwake<T(!new)>(s: State<T>, t: Tid)
    requires Inv(s) && Quiescent(s)
    ensures t !in Q.Runnable(s.queue)
  {
    if t in Q.Runnable(s.queue) {
      AwakeMoves(s, t);
    }
  }

  /** An open call that is neither awake nor notifying sleeps where it belongs. */
  lemma {:induction false} Waiting<T>(q: Q.State<T>, t: Tid)
    requires Q.Placed(q) && t in q.calls && t !in Q.Runnable(q) && q.toNotFull == {} == q.toNotEmpty
    ensures if q.calls[t].Put? then t in q.notFull.sleeping else Q.IsTake(q.calls[t]) && t in q.notEmpty.sleeping
  {
    assert Q.Somewhere(q, t);
  }

  /** A worker that has no turn to take has an open call. */
  lemma {:induction false} WorkerHasCall<T(!new)>(s: State<T>, w: Tid)
    requires Wired(s.queue, s.workers, s.phase) && Phased(s) && s.phase.Running? && Quiescent(s) && w in s.workers
    ensures w in s.queue.calls && (s.queue.calls[w].TakeOne? || s.queue.calls[w].Put?)
  {
    assert !Enabled(s, LoopTest(w)) && !Enabled(s, SecondTest(w)) && !Enabled(s, TaskReturns(w));
  }

  lemma {:induction false} WorkerWaits<T(!new)>(s: State<T>, w: Tid)
    requires Inv(s) && s.phase.Running? && Quiescent(s) && w in s.workers
    ensures w in s.queue.calls && if s.queue.calls[w].TakeOne? then w in s.queue.notEmpty.sleeping
                                  else s.queue.calls[w].Put? && w in s.queue.notFull.sleeping
  {
    WorkerHasCall(s, w);
    NobodyNotifies(s);
    NobodyAwake(s, w);
    Waiting(s.queue, w);
  }

  /** Every worker waits for an item at an empty queue. */
  ghost predicate Drained<T>(s: State<T>) {
    s.queue.queue == [] && forall w | w in s.workers :: w in s.queue.notEmpty.sleeping
  }

  /** Before a stop a pool with a worker comes to rest in one of two ways, and the one with items left in
      the queue is the deadlock: either the queue is empty and every worker waits for an item, or the queue
      is full and every worker sleeps in AddData, called from its task. */
  lemma {:induction false} RestBeforeStop<T(!new)>(s: State<T>)
    requires Inv(s) && s.phase.Running? && s.workers != map[] && Quiescent(s)
    ensures s.queue.queue == [] ==> Drained(s)
    ensures s.queue.queue != [] <==> Clogged(s)
    ensures Clogged(s) ==> forall w | w in s.workers :: w in s.queue.notFull.sleeping
  {
    forall w | w in s.workers
      ensures w in s.queue.calls && if s.queue.calls[w].TakeOne? then w in s.queue.notEmpty.sleeping
                                    else s.queue.calls[w].Put? && w in s.queue.notFull.sleeping
    {
      WorkerWaits(s, w);
    }
    forall t ensures t !in s.queue.notFull.woken && t !in s.queue.notEmpty.woken {
      NobodyAwake(s, t);
    }
    assert s.queue.notFull.woken == {} && s.queue.notEmpty.woken == {};
    hide Wired, Ledger, Defaults, Quiescent, Q.Placed;
  }

  // ------------------------------------------------------------ rest is reached

  /** What each worker still does without another item. */
  function Steps(pc: Worker): nat {
    match pc
    case Exited => 0
    case InTake => 0
    case AtLoopTest => 4
    case InTask(_) => 5
    case AtSecondTest(_) => 6
  }

  /** What each open Put still causes once its item is in the queue. */
  function PutSteps<T>(c: Q.Call<T>): nat {
    if c.Put? then 6 else 0
  }

  /** The items in the queue, or about to be put there, by the turns that they cause. */
  ghost function ItemWeight<T>(q: Q.State<T>): nat {
    Sum(q.calls, (c: Q.Call<T>) => PutSteps(c)) + 6 * |q.queue|
  }

  ghost function Weight<T>(s: State<T>): nat {
    QT.Weight(s.queue) + Sum(s.workers, Steps) + ItemWeight(s.queue)
  }

  /** A turn inside the queue makes no new items, and a Take that returns uses one up. */
  lemma {:induction false} ItemsLeft<T>(q: Q.State<T>, t: Tid, wake: Option<Tid>)
    requires Q.Enabled(q, Q.Section(t, wake)) && !q.needStop && !q.calls[t].TakeAll?
    ensures var r := Q.Apply(q, Q.Section(t, wake));
            ItemWeight(r) <= ItemWeight(q) - if EndsTake(q, t) then 6 else 0
  {
    SumOut(q.calls, (c: Q.Call<T>) => PutSteps(c), t);
  }

  lemma {:induction false} NewTake<T>(q: Q.State<T>, w: Tid)
    requires Q.Placed(q) && !q.needStop && w !in q.calls
    ensures var r := Q.Apply(q, Q.Begin(w, Q.TakeOne));
            QT.Weight(r) == QT.Weight(q) + 3 && ItemWeight(r) == ItemWeight(q)
  {
    SumMove(q.calls, (c: Q.Call<T>) => PutSteps(c), w, Q.TakeOne);
    assert w !in q.entering;
  }

  lemma {:induction false} NoBatchTake<T>(s: State<T>, t: Tid)
    requires Wired(s.queue, s.workers, s.phase)
    ensures t in s.queue.calls ==> !s.queue.calls[t].TakeAll?
  {
  }

  /** Which worker a turn moves, and how far. */
  lemma {:induction false} WorkerMoves<T>(s: State<T>, e: Event<T>)
    requires Phased(s) && s.phase.Running? && Ongoing(e) && Enabled(s, e) && !e.Inside?
    ensures !e.ClearRunning? && !e.Join? && !e.ClearGroup?
    ensures var r := Apply(s, e);
            && e.w in s.workers && e.w in r.workers && r.workers == s.workers[e.w := r.workers[e.w]]
            && r.phase.Running?
            && Steps(r.workers[e.w]) - Steps(s.workers[e.w])
               == if e.TakeReturns? then 6 else if e.LoopTest? then -4 else -1
    ensures var r := Apply(s, e);
            r.queue == match e
                       case TakeReturns(w, wake) => Q.Apply(s.queue, Q.Section(w, wake))
                       case LoopTest(w) => Q.Apply(s.queue, Q.Begin(w, Q.TakeOne))
                       case _ => s.queue
  {
    hide Q.Apply;
  }

  lemma {:induction false} WeightIs<T>(s: State<T>)
    ensures Weight(s) == QT.Weight(s.queue) + Sum(s.workers, Steps) + ItemWeight(s.queue)
  {
  }

  lemma {:induction false} WeightDecreases<T>(s: State<T>, e: Event<T>)
    requires Inv(s) && s.phase.Running? && Ongoing(e) && Enabled(s, e)
    ensures Weight(Apply(s, e)) < Weight(s) && Apply(s, e).phase.Running?
  {
    if e.Inside? {
      InsideWeight(s, e.e);
    } else {
      WorkerMoves(s, e);
      if e.TakeReturns? {
        ItemsLeft(s.queue, e.w, e.wake);
        QT.WeightDecreases(s.queue, Q.Section(e.w, e.wake));
      } else if e.LoopTest? {
        NewTake(s.queue, e.w);
      }
      hide *;
      SumMove(s.workers, Steps, e.w, Apply(s, e).workers[e.w]);
      WeightIs(s);
      WeightIs(Apply(s, e));
    }
  }

  lemma {:induction false} InsideWeight<T>(s: State<T>, q: Q.Event<T>)
    requires Inv(s) && s.phase.Running? && Ongoing(Inside(q)) && InsideAllowed(s, q)
    ensures Weight(Apply(s, Inside(q))) < Weight(s)
  {
    NobodyNotifies(s);
    NoBatchTake(s, q.t);
    QT.WeightDecreases(s.queue, q);
    hide Q.Apply, QT.Weight, Q.Inv, ItemWeight, Wired, Phased, Defaults, Ledger;
    if q.Section? {
      ItemsLeft(s.queue, q.t, q.wake);
    }
  }

  /** Before a stop a pool left to itself comes to rest, if the processing of each item returns: no run
      without new calls and spurious wake-ups is longer than the weight. */
  lemma {:induction false} RunsSettle<T>(s: State<T>, es: seq<Event<T>>)
    requires Inv(s) && s.phase.Running? && Admissible(s, es) && forall e | e in es :: Ongoing(e)
    ensures |es| <= Weight(s)
    decreases |es|
  {
    hide Inv, Weight;
    if es == [] {
    } else {
      assert es[0] in es;
      InvStep(s, es[0]);
      WeightDecreases(s, es[0]);
      RunsSettle(Apply(s, es[0]), es[1..]);
    }
  }

  // ------------------------------------------------------------ the deadlock is reached

  lemma {:induction false} RunConcat<T>(s: State<T>, es: seq<Event<T>>, fs: seq<Event<T>>)
    requires Admissible(s, es) && Admissible(Run(s, es), fs)
    ensures Admissible(s, es + fs) && Run(s, es + fs) == Run(Run(s, es), fs)
    decreases |es|
  {
    if es == [] {
      assert es + fs == fs;
    } else {
      assert (es + fs)[0] == es[0] && (es + fs)[1..] == es[1..] + fs;
      RunConcat(Apply(s, es[0]), es[1..], fs);
    }
  }

  lemma {:induction false} RunOne<T>(s: State<T>, e: Event<T>)
    requires Enabled(s, e)
    ensures Admissible(s, [e]) && Run(s, [e]) == Apply(s, e)
  {
    assert [e][1..] == [];
    assert Run(Apply(s, e), []) == Apply(s, e);
  }

  lemma {:induction false} RunTwo<T>(s: State<T>, e: Event<T>, d: Event<T>)
    requires Enabled(s, e) && Enabled(Apply(s, e), d)
    ensures Admissible(s, [e, d]) && Run(s, [e, d]) == Apply(Apply(s, e), d)
  {
    hide Enabled, Apply;
    RunOne(s, e);
    RunOne(Apply(s, e), d);
    RunConcat(s, [e], [d]);
    assert [e] + [d] == [e, d];
  }

  /** No call is open and nobody is asleep. */
  ghost predicate Calm<T>(s: State<T>) {
    && s.phase.Running? && s.running && !s.queue.needStop && s.queue.capacity == MAX_TASK_COUNT
    && s.queue.calls == map[] && s.queue.entering == {} && s.queue.notFull == QUIET == s.queue.notEmpty
  }

  /** An outside thread adds an item. */
  lemma {:induction false} AddOne<T>(s: State<T>, t: Tid, x: T) returns (es: seq<Event<T>>, r: State<T>)
    requires Calm(s) && t !in s.workers && |s.queue.queue| < MAX_TASK_COUNT
    ensures Admissible(s, es) && r == Run(s, es) && Calm(r)
    ensures r.queue.queue == s.queue.queue + [x] && r.workers == s.workers
  {
    var a := Apply(s, AddData(t, x));
    assert a.queue.calls == map[t := Q.Put(x)];
    r := Apply(a, Inside(Q.Section(t, None)));
    assert r.queue.calls == map[];
    es := [AddData(t, x), Inside(Q.Section(t, None))];
    hide Apply, Enabled;
    RunTwo(s, AddData(t, x), Inside(Q.Section(t, None)));
  }

  /** Worker w takes an item and starts to process it. */
  lemma {:induction false} TakeUp<T>(s: State<T>, w: Tid) returns (es: seq<Event<T>>, r: State<T>)
    requires Calm(s) && w in s.workers && s.workers[w].AtLoopTest? && s.queue.queue != []
    ensures Admissible(s, es) && r == Run(s, es) && Calm(r) && r.queue.queue == s.queue.queue[1..]
    ensures w in r.workers && r.workers[w].InTask? && r.workers == s.workers[w := r.workers[w]]
  {
    var a := Apply(s, LoopTest(w));
    assert a.queue.calls == map[w := Q.TakeOne];
    var b := Apply(a, TakeReturns(w, None));
    assert b.queue.calls == map[];
    r := Apply(b, SecondTest(w));
    assert r.workers == s.workers[w := r.workers[w]];
    es := [LoopTest(w), TakeReturns(w, None)] + [SecondTest(w)];
    hide Apply, Enabled;
    RunTwo(s, LoopTest(w), TakeReturns(w, None));
    RunOne(b, SecondTest(w));
    RunConcat(s, [LoopTest(w), TakeReturns(w, None)], [SecondTest(w)]);
  }

  /** The first k workers process items, and the others have not begun. */
  ghost predicate Engaged<T>(s: State<T>, group: seq<Tid>, k: nat) {
    && Calm(s) && s.queue.queue == [] && Distinct(group) && k <= |group| && s.workers.Keys == Members(group)
    && forall i | 0 <= i < |group| ::
         if i < k then s.workers[group[i]].InTask? else s.workers[group[i]].AtLoopTest?
  }

  lemma {:induction false} EngageOne<T>(s: State<T>, group: seq<Tid>, k: nat, t: Tid, x: T)
    returns (es: seq<Event<T>>, r: State<T>)
    requires Engaged(s, group, k) && k < |group| && t !in s.workers
    ensures Admissible(s, es) && r == Run(s, es) && Engaged(r, group, k + 1) && r.workers.Keys == s.workers.Keys
  {
    var a, fs;
    es, a := AddOne(s, t, x);
    assert group[k] in Members(group);
    fs, r := TakeUp(a, group[k]);
    hide Run, Admissible, Calm;
    RunConcat(s, es, fs);
    es := es + fs;
    assert r.workers.Keys == s.workers.Keys;
  }

  /** From the k-th on, every worker is given an item to process. */
  lemma {:induction false} EngageAll<T>(s: State<T>, group: seq<Tid>, k: nat, t: Tid, x: T)
    returns (es: seq<Event<T>>, r: State<T>)
    requires Engaged(s, group, k) && k <= |group| && t !in s.workers
    ensures Admissible(s, es) && r == Run(s, es) && Engaged(r, group, |group|) && r.workers.Keys == s.workers.Keys
    decreases |group| - k
  {
    if k == |group| {
      es, r := [], s;
    } else {
      hide Engaged;
      var a, fs;
      es, a := EngageOne(s, group, k, t, x);
      fs, r := EngageAll(a, group, k + 1, t, x);
      hide Run, Admissible;
      RunConcat(s, es, fs);
      es := es + fs;
    }
  }

  /** The queue is filled up. */
  lemma {:induction false} FillUp<T>(s: State<T>, t: Tid, x: T) returns (es: seq<Event<T>>, r: State<T>)
    requires Calm(s) && t !in s.workers && |s.queue.queue| <= MAX_TASK_COUNT
    ensures Admissible(s, es) && r == Run(s, es) && Calm(r)
    ensures |r.queue.queue| == MAX_TASK_COUNT && r.workers == s.workers
    decreases MAX_TASK_COUNT - |s.queue.queue|
  {
    if |s.queue.queue| == MAX_TASK_COUNT {
      es, r := [], s;
    } else {
      var a, fs;
      es, a := AddOne(s, t, x);
      fs, r := FillUp(a, t, x);
      hide Run, Admissible, Calm;
      RunConcat(s, es, fs);
      es := es + fs;
    }
  }

  /** The queue is full, all workers process items, and those in `ws` are inside AddData. */
  ghost predicate Blocked<T>(s: State<T>, ws: set<Tid>) {
    && s.phase.Running? && !s.queue.needStop && |s.queue.queue| == MAX_TASK_COUNT == s.queue.capacity
    && s.queue.calls.Keys == ws && (forall w | w in ws :: s.queue.calls[w].Put?)
    && (forall w | w in s.workers :: s.workers[w].InTask?)
  }

  /** One more of them calls AddData, and sleeps. */
  lemma {:induction false} BlockOne<T>(s: State<T>, ws: set<Tid>, w: Tid, x: T) returns (es: seq<Event<T>>, r: State<T>)
    requires Blocked(s, ws) && w in s.workers && w !in ws
    ensures Admissible(s, es) && r == Run(s, es) && Blocked(r, ws + {w}) && r.workers == s.workers
  {
    var a := Apply(s, AddData(w, x));
    assert a.queue.calls == s.queue.calls[w := Q.Put(x)];
    r := Apply(a, Inside(Q.Section(w, None)));
    assert r.queue.calls == a.queue.calls;
    es := [AddData(w, x), Inside(Q.Section(w, None))];
    hide Apply, Enabled;
    RunTwo(s, AddData(w, x), Inside(Q.Section(w, None)));
  }

  lemma {:induction false} BlockAll<T>(s: State<T>, ws: set<Tid>, x: T) returns (es: seq<Event<T>>, r: State<T>)
    requires Blocked(s, ws) && ws <= s.workers.Keys
    ensures Admissible(s, es) && r == Run(s, es) && Blocked(r, s.workers.Keys) && r.workers == s.workers
    decreases s.workers.Keys - ws
  {
    if w :| w in s.workers && w !in ws {
      var a, fs;
      es, a := BlockOne(s, ws, w, x);
      fs, r := BlockAll(a, ws + {w}, x);
      hide Run, Admissible, Blocked;
      RunConcat(s, es, fs);
      es := es + fs;
    } else {
      assert ws == s.workers.Keys;
      es, r := [], s;
    }
  }

  lemma {:induction false} AllEngaged<T>(s: State<T>, group: seq<Tid>)
    requires Engaged(s, group, |group|)
    ensures Calm(s) && s.queue.queue == [] && forall w | w in s.workers :: w in group && s.workers[w].InTask?
  {
    forall w | w in s.workers ensures w in group && s.workers[w].InTask? {
      assert w in Members(group);
      var i :| 0 <= i < |group| && group[i] == w;
    }
  }

  /** Every worker is given an item; the queue is filled; and then each worker's task adds an item itself. */
  lemma {:induction false} Clog<T>(group: seq<Tid>, t: Tid, x: T) returns (es: seq<Event<T>>)
    requires group != [] && Distinct(group) && t !in group
    ensures Admissible(Init<T>(group), es) && Clogged(Run(Init<T>(group), es)) && Run(Init<T>(group), es).phase.Running?
  {
    var s := Init<T>(group);
    var a, b, c, fs, gs;
    assert Engaged(s, group, 0);
    es, a := EngageAll(s, group, 0, t, x);
    AllEngaged(a, group);
    fs, b := FillUp(a, t, x);
    assert Blocked(b, {});
    gs, c := BlockAll(b, {}, x);
    assert group[0] in c.workers;
    assert Clogged(c);
    hide *;
    RunConcat(s, es, fs);
    RunConcat(s, es + fs, gs);
    es := es + fs + gs;
  }

  lemma {:induction false} NobodyThere<T>(s: State<T>, es: seq<Event<T>>)
    requires s.workers == map[] && Admissible(s, es)
    ensures Run(s, es).workers == map[]
    decreases |es|
  {
    if es == [] {
    } else {
      assert Apply(s, es[0]).workers == map[];
      NobodyThere(Apply(s, es[0]), es[1..]);
    }
  }

  /** A pool can deadlock before it is stopped, in some run, if and only if it has a worker: no worker ever
      gets to an item again. */
  lemma {:induction false} CanClogIff<T>(group: seq<Tid>, x: T)
    requires Distinct(group)
    ensures group != [] <==>
            exists es: seq<Event<T>> :: Admissible(Init<T>(group), es) && Clogged(Run(Init<T>(group), es))
  {
    if group != [] {
      var es := Clog(group, ThreadPoolStop.Beyond(group), x);
    } else {
      forall es: seq<Event<T>> | Admissible(Init<T>(group), es) ensures !Clogged(Run(Init<T>(group), es)) {
        NobodyThere(Init<T>(group), es);
      }
    }
  }
}
