/** No message of the message pool is left lying while every thread sleeps. */
module MessagePoolLiveness {
  import opened Threads
  import opened Sums
  import opened MessagePoolSpec
  import opened MessagePoolTheorems

  /** The callers whose message is counted and whose signal is still to come. */
  ghost function Signallers(adders: map<Tid, Adder>): set<Tid> {
    set t | t in adders && (adders[t].Unlocking? || adders[t].Signalling?)
  }

  /** The mutex is held by a worker that is going to look at the counter again before it can wait. */
  predicate Looking(holder: Option<Tid>, workers: map<Tid, Worker>) {
    holder.Some? && holder.value in workers &&
    (workers[holder.value].AtWaitTest? || workers[holder.value].AtShutdownTest? || workers[holder.value].AtSizeTest?)
  }

  /** Awake in time: while some worker sleeps unnotified, the woken workers, the signals to come and
      the worker that looks are at least as many as the messages. */
  ghost predicate Covered(s: State) {
    s.ready.sleeping != {} ==>
      |s.ready.woken| + |Signallers(s.adders)| + (if Looking(s.holder, s.workers) then 1 else 0) >= s.curSize
  }

  ghost predicate Awake(s: State) {
    !s.shutdown ==>
      && Covered(s)
      && (forall w | w in s.workers :: !s.workers[w].Exited? && (s.workers[w].AboutToWait? ==> s.curSize == 0))
  }

  lemma {:induction false} CoveredTurn(s: State, w: Tid)
    requires Covered(s) && Enabled(s, Turn(w)) && !s.shutdown
    requires WorkerHolds(s.workers[w]) ==> s.holder == Some(w)
    requires s.workers[w].AboutToWait? ==> s.curSize == 0
    ensures Covered(WorkerTurn(s, w))
  {
    hide Signallers;
    if s.workers[w].Waiting? {
      assert |s.ready.woken - {w}| == |s.ready.woken| - 1;
    }
  }

  lemma {:induction false} AwakeTurn(s: State, w: Tid)
    requires Locked(s.holder, s.workers, s.adders) && Awake(s) && Enabled(s, Turn(w))
    ensures Awake(WorkerTurn(s, w))
  {
    NotAdding(s, w);
    hide Locked, Covered;
    assert WorkerTurn(s, w).shutdown == s.shutdown;
    if !s.shutdown {
      CoveredTurn(s, w);
    }
  }

  lemma {:induction false} OneCallMoves(adders: map<Tid, Adder>, t: Tid, pc: Adder)
    requires t in adders && !adders[t].Signalling?
    requires adders[t].Unlocking? ==> pc.Signalling?
    ensures |Signallers(adders[t := pc])|
            == |Signallers(adders)| + if (pc.Unlocking? || pc.Signalling?) && !adders[t].Unlocking? then 1 else 0
  {
    if adders[t].Unlocking? {
      assert Signallers(adders[t := pc]) == Signallers(adders);
    } else if pc.Unlocking? || pc.Signalling? {
      assert t !in Signallers(adders);
      assert Signallers(adders[t := pc]) == Signallers(adders) + {t};
    } else {
      assert Signallers(adders[t := pc]) == Signallers(adders);
    }
  }

  lemma {:induction false} OneSignalLess(adders: map<Tid, Adder>, t: Tid)
    requires t in adders && adders[t].Signalling?
    ensures |Signallers(adders - {t})| == |Signallers(adders)| - 1
  {
    assert Signallers(adders - {t}) == Signallers(adders) - {t} && t in Signallers(adders);
  }

  lemma {:induction false} AwakeAddTurn(s: State, t: Tid, wake: Option<Tid>)
    requires Locked(s.holder, s.workers, s.adders) && Awake(s) && Enabled(s, AddTurn(t, wake))
    requires s.ready.sleeping !! s.ready.woken
    ensures Awake(AdderTurn(s, t, wake))
  {
    assert !Looking(Some(t), s.workers);
    AdderHolder(s, t);
    hide Signallers, Locked;
    if s.adders[t].Signalling? {
      OneSignalLess(s.adders, t);
      if wake.Some? {
        assert |s.ready.woken + {wake.value}| == |s.ready.woken| + 1;
      }
    } else {
      OneCallMoves(s.adders, t, AdderTurn(s, t, wake).adders[t]);
    }
  }

  lemma {:induction false} AwakeAddBegins(s: State, t: Tid, m: Msg)
    requires Awake(s) && Enabled(s, AddBegins(t, m))
    ensures Awake(Apply(s, AddBegins(t, m)))
  {
    assert Signallers(s.adders[t := Locking(m)]) == Signallers(s.adders);
  }

  lemma {:induction false} AwakeDestroy(s: State)
    requires Awake(s) && (s.shutdown <==> !s.destroy.NotCalled? && !s.destroy.Raising?)
    ensures Awake(Destroying(s))
  {
  }

  lemma {:induction false} AwakeSpurious(s: State, w: Tid)
    requires Awake(s) && Waited(s.ready, s.workers) && Enabled(s, Spurious(w))
    ensures Awake(Apply(s, Spurious(w)))
  {
    assert |s.ready.woken + {w}| == |s.ready.woken| + 1;
  }

  lemma {:induction false} AwakeStep(s: State, e: Event)
    requires Inv(s) && Awake(s) && Enabled(s, e)
    ensures Awake(Apply(s, e))
  {
    hide Counted, InOrder, Ledger, Awake;
    match e
    case Turn(w) => AwakeTurn(s, w);
    case AddTurn(t, wake) => AwakeAddTurn(s, t, wake);
    case AddBegins(t, m) => AwakeAddBegins(s, t, m);
    case DestroyTurn => AwakeDestroy(s);
    case Spurious(w) => AwakeSpurious(s, w);
  }

  lemma {:induction false} AwakeRun(s: State, es: seq<Event>)
    requires Inv(s) && Awake(s) && Admissible(s, es)
    ensures Inv(Run(s, es)) && Awake(Run(s, es))
    decreases |es|
  {
    hide Inv, Awake;
    if es == [] {
    } else {
      InvStep(s, es[0]);
      AwakeStep(s, es[0]);
      AwakeRun(Apply(s, es[0]), es[1..]);
    }
  }

  /** Before destruction, a sleeping worker is never overlooked: in every reachable state the woken
      workers, the signals to come and the worker that looks suffice for the messages. */
  lemma {:induction false} NoLostMessage(threads: seq<Tid>, es: seq<Event>)
    requires Admissible(Init(threads), es) && !Run(Init(threads), es).shutdown
    ensures Covered(Run(Init(threads), es))
  {
    InvInit(threads);
    AwakeRun(Init(threads), es);
  }

  // ------------------------------------------------------------ rest

  /** Where workers and adders cannot move before destruction, all workers sleep
      unnotified. */
  lemma {:induction false} AllAsleep(s: State, w: Tid)
    requires Inv(s) && Awake(s) && Idle(s) && !s.shutdown && w in s.workers
    ensures s.holder == None && s.adders == map[] && s.workers[w].Waiting? && w in s.ready.sleeping
    ensures s.ready.woken == {}
  {
    NobodyBetween(s);
    forall v ensures v !in s.ready.woken {
      if v in s.ready.woken {
        TurnWhenIdle(s, v);
      }
    }
    TurnWhenIdle(s, w);
  }

  lemma {:induction false} Emptied(s: State)
    requires Inv(s) && Awake(s) && Idle(s) && !s.shutdown && s.threads != []
    ensures s.queue == [] && s.curSize == 0 && forall k, w :: !InHand(s, k, w)
  {
    AllAsleep(s, s.threads[0]);
    forall w | w in s.workers ensures s.workers[w].Waiting? {
      AllAsleep(s, w);
    }
    assert Signallers(s.adders) == {};
  }

  // ------------------------------------------------------------ rest is reached

  /** Turns left to a worker that finds no more messages. */
  function Steps(pc: Worker): nat {
    match pc
    case Exited => 0
    case Waiting => 0
    case AtSizeTest => 0
    case AboutToWait => 1
    case AtShutdownTest => 1
    case AtWaitTest => 2
    case AtLock => 3
    case AtDelete(_) => 4
    case InProcess(_) => 5
    case AtProcess(_) => 6
    case AtUnlock(_) => 7
    case AtPop => 8
  }

  /** Turns that an adder still causes, its own and those that its message and its signal cause. */
  function AdderSteps(pc: Adder): nat {
    match pc
    case Signalling => 4
    case Unlocking => 5
    case Counting => 15
    case Pushing(_) => 16
    case Locking(_) => 17
  }

  ghost function Weight(s: State): int {
    Sum(s.workers, Steps) + Sum(s.adders, AdderSteps) + 3 * |s.ready.woken| + 9 * s.curSize
  }

  lemma {:induction false} WorkerWeight(s: State, w: Tid)
    requires Counted(s) && Enabled(s, Turn(w)) && !s.shutdown && !s.workers[w].Exited?
    ensures Weight(WorkerTurn(s, w)) < Weight(s)
  {
    var pc := s.workers[w];
    SumMove(s.workers, Steps, w, NextPc(s, pc));
    if pc.Waiting? {
      assert |s.ready.woken - {w}| == |s.ready.woken| - 1;
    }
  }

  lemma {:induction false} WokenByOne(s: State, wake: Option<Tid>)
    requires Waited(s.ready, s.workers) && s.ready.MayWake(wake)
    ensures |s.ready.NotifyOne(wake).woken| <= |s.ready.woken| + 1
  {
  }

  lemma {:induction false} AdderWeight(s: State, t: Tid, wake: Option<Tid>)
    requires Waited(s.ready, s.workers) && Enabled(s, AddTurn(t, wake))
    ensures Weight(AdderTurn(s, t, wake)) < Weight(s)
  {
    hide Waited, Steps;
    if s.adders[t].Signalling? {
      SumOut(s.adders, AdderSteps, t);
      WokenByOne(s, wake);
    } else {
      SumMove(s.adders, AdderSteps, t, AdderTurn(s, t, wake).adders[t]);
    }
  }

  lemma {:induction false} WeightNonnegative(s: State)
    requires Inv(s)
    ensures Weight(s) >= 0
  {
  }

  lemma {:induction false} WeightDecreases(s: State, e: Event)
    requires Inv(s) && !s.shutdown && Awake(s) && Ongoing(e) && Enabled(s, e)
    ensures Weight(Apply(s, e)) < Weight(s) && !Apply(s, e).shutdown
  {
    hide Weight, Covered, Locked, Ledger;
    if e.Turn? {
      WorkerWeight(s, e.w);
    } else {
      AdderWeight(s, e.t, e.wake);
    }
  }

  /** Before destruction a pool left to itself comes to rest: no run of its workers and adders is longer
      than the weight, if the processing of each message returns. */
  lemma {:induction false} RunsSettle(s: State, es: seq<Event>)
    requires Inv(s) && !s.shutdown && Awake(s) && Admissible(s, es) && forall e | e in es :: Ongoing(e)
    ensures |es| <= Weight(s)
    decreases |es|
  {
    hide Inv, Awake;
    if es == [] {
      WeightNonnegative(s);
    } else {
      var e := es[0];
      assert e in es;
      WeightDecreases(s, e);
      InvStep(s, e);
      AwakeStep(s, e);
      RunsSettle(Apply(s, e), es[1..]);
    }
  }

  /** So rest is within reach at any time. */
  lemma {:induction false} RestReached(s: State) returns (es: seq<Event>)
    requires Inv(s) && !s.shutdown && Awake(s)
    ensures Admissible(s, es) && (forall e | e in es :: Ongoing(e))
    ensures Idle(Run(s, es)) && !Run(s, es).shutdown
    decreases Weight(s)
  {
    hide Inv, Awake;
    WeightNonnegative(s);
    if Idle(s) {
      es := [];
    } else {
      var e :| Ongoing(e) && Enabled(s, e);
      WeightDecreases(s, e);
      WeightNonnegative(s);
      InvStep(s, e);
      AwakeStep(s, e);
      var rest := RestReached(Apply(s, e));
      es := [e] + rest;
      assert es[1..] == rest;
    }
  }

  // ------------------------------------------------------------ every call counts

  /** The messages of the calls of pool_add_worker that began. */
  function Begun(es: seq<Event>): seq<Msg> {
    if es == [] then [] else (if es[0].AddBegins? then [es[0].m] else []) + Begun(es[1..])
  }

  /** Whether the caller has still to push message m. */
  function Unpushed(pc: Adder, m: Msg): nat {
    if (pc.Locking? || pc.Pushing?) && pc.m == m then 1 else 0
  }

  function One(b: bool): nat {
    if b then 1 else 0
  }

  /** How often m is among the messages added, and among those still to be pushed. */
  ghost function Known(s: State, m: Msg): nat {
    multiset(s.added)[m] + Sum(s.adders, pc => Unpushed(pc, m))
  }

  lemma {:induction false} PushTurn(s: State, t: Tid, m: Msg)
    requires t in s.adders && s.adders[t].Pushing?
    ensures Known(AdderTurn(s, t, None), m) == Known(s, m)
  {
    SumMove(s.adders, pc => Unpushed(pc, m), t, Counting);
    var n := s.adders[t].m;
    assert multiset(s.added + [n]) == multiset(s.added) + multiset{n};
    hide Sum;
  }

  lemma {:induction false} OtherAddTurn(s: State, t: Tid, wake: Option<Tid>, m: Msg)
    requires t in s.adders && !s.adders[t].Pushing?
    ensures Known(AdderTurn(s, t, wake), m) == Known(s, m)
  {
    if s.adders[t].Signalling? {
      SumOut(s.adders, pc => Unpushed(pc, m), t);
    } else {
      SumMove(s.adders, pc => Unpushed(pc, m), t, NextAdder(s.adders[t]));
    }
    hide Sum;
  }

  lemma {:induction false} UnpushedTurn(s: State, t: Tid, wake: Option<Tid>, m: Msg)
    requires Enabled(s, AddTurn(t, wake))
    ensures Known(AdderTurn(s, t, wake), m) == Known(s, m)
  {
    hide Known;
    if s.adders[t].Pushing? {
      PushTurn(s, t, m);
    } else {
      OtherAddTurn(s, t, wake, m);
    }
  }

  lemma {:induction false} KnownStep(s: State, e: Event, m: Msg)
    requires Enabled(s, e)
    ensures Known(Apply(s, e), m) == Known(s, m) + One(e.AddBegins? && e.m == m)
  {
    match e
    case AddBegins(t, n) => SumMove(s.adders, pc => Unpushed(pc, m), t, Locking(n));
    case AddTurn(t, wake) => UnpushedTurn(s, t, wake, m);
    case _ =>
  }

  lemma {:induction false} KnownRun(s: State, es: seq<Event>, m: Msg)
    requires Admissible(s, es)
    ensures Known(Run(s, es), m) == Known(s, m) + multiset(Begun(es))[m]
    decreases |es|
  {
    hide Known, Apply, Enabled;
    if es == [] {
    } else {
      KnownStep(s, es[0], m);
      KnownRun(Apply(s, es[0]), es[1..], m);
    }
  }

  /** Where nobody is adding, the messages added are exactly those of the calls that began, each as often. */
  lemma {:induction false} AddedAreBegun(threads: seq<Tid>, es: seq<Event>)
    requires Admissible(Init(threads), es) && Run(Init(threads), es).adders == map[]
    ensures multiset(Run(Init(threads), es).added) == multiset(Begun(es))
    ensures |Run(Init(threads), es).added| == |Begun(es)|
  {
    var s := Run(Init(threads), es);
    forall m ensures multiset(s.added)[m] == multiset(Begun(es))[m] {
      KnownRun(Init(threads), es, m);
      assert Known(Init(threads), m) == 0;
    }
    hide Run, Admissible, Begun;
    assert multiset(s.added) == multiset(Begun(es));
    assert |multiset(s.added)| == |s.added| && |multiset(Begun(es))| == |Begun(es)|;
  }

  /** The pool is at rest, its destruction has not begun, and exactly these messages have been added, each of
      which has been taken, processed once and freed once. */
  ghost predicate AllDone(s: State, messages: multiset<Msg>) {
    && Idle(s) && !s.shutdown && s.queue == [] && s.curSize == 0 && multiset(s.added) == messages
    && forall k: nat | k < |s.added| :: Finished(s, k)
  }

  /** Where a pool with at least one worker comes to rest before destruction, every message ever passed to
      pool_add_worker has been taken, processed once, and freed once. */
  lemma {:induction false} RestMeansAllDone(threads: seq<Tid>, es: seq<Event>)
    requires threads != [] && Admissible(Init(threads), es)
    requires Idle(Run(Init(threads), es)) && !Run(Init(threads), es).shutdown
    ensures AllDone(Run(Init(threads), es), multiset(Begun(es)))
  {
    InvInit(threads);
    AwakeRun(Init(threads), es);
    ThreadsStay(Init(threads), es);
    var s := Run(Init(threads), es);
    NobodyBetween(s);
    AddedAreBegun(threads, es);
    Emptied(s);
    HandledOnce(s);
  }

  lemma {:induction false} BegunConcat(es: seq<Event>, fs: seq<Event>)
    requires forall e | e in fs :: Ongoing(e)
    ensures Begun(es + fs) == Begun(es)
    decreases |es| + |fs|
  {
    if es == [] && fs == [] {
    } else if es == [] {
      assert es + fs == fs && fs[0] in fs && [] + fs[1..] == fs[1..];
      BegunConcat([], fs[1..]);
    } else {
      assert (es + fs)[1..] == es[1..] + fs;
      BegunConcat(es[1..], fs);
    }
  }

  /** Every run in which the flag is still down has a continuation without any new call in which all
      its messages get done. */
  lemma {:induction false} AllGetDone(threads: seq<Tid>, es: seq<Event>) returns (fs: seq<Event>)
    requires threads != [] && Admissible(Init(threads), es) && !Run(Init(threads), es).shutdown
    ensures (forall e | e in fs :: Ongoing(e)) && Admissible(Init(threads), es + fs)
    ensures AllDone(Run(Init(threads), es + fs), multiset(Begun(es)))
  {
    InvInit(threads);
    assert Awake(Init(threads));
    hide Inv, Awake, Idle;
    AwakeRun(Init(threads), es);
    fs := RestReached(Run(Init(threads), es));
    RunConcat(Init(threads), es, fs);
    RestMeansAllDone(threads, es + fs);
    BegunConcat(es, fs);
  }

  /** For instance, any pool with a worker finishes one message and comes to rest. */
  lemma {:induction false} OneMessageGetsDone(threads: seq<Tid>, t: Tid, m: Msg)
    requires threads != [] && t !in threads
    ensures exists es :: Admissible(Init(threads), es) && AllDone(Run(Init(threads), es), multiset{m})
  {
    var e := AddBegins(t, m);
    assert [e][1..] == [];
    assert Admissible(Apply(Init(threads), e), []);
    assert Run(Init(threads), [e]) == Run(Apply(Init(threads), e), []) == Apply(Init(threads), e);
    assert Begun([e]) == [m] + Begun([]) == [m];
    var fs := AllGetDone(threads, [e]);
  }
}
