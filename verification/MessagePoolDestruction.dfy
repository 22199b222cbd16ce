/** The destruction of the message pool: which joins complete, and which can hang. */
module MessagePoolDestruction {
  import opened Threads
  import opened Sums
  import opened MessagePoolSpec
  import opened MessagePoolTheorems

  // ------------------------------------------------------------ after the flag

  /** The worker sleeps, or has decided to sleep: nothing but a wake-up will make it look at the
      shutdown flag again. */
  predicate Stuck(s: State, w: Tid) {
    w in s.workers && (s.workers[w].AboutToWait? || (s.workers[w].Waiting? && w in s.ready.sleeping))
  }

  /** How many turns a worker has left once the flag is up. */
  function TurnsLeft(pc: Worker): nat {
    match pc
    case Exited => 0
    case AtShutdownTest => 1
    case AtWaitTest => 2
    case AtLock => 3
    case Waiting => 3
    case AboutToWait => 4
    case AtDelete(_) => 4
    case InProcess(_) => 5
    case AtProcess(_) => 6
    case AtUnlock(_) => 7
    case AtPop => 8
    case AtSizeTest => 9
  }

  lemma {:induction false} FlagStaysUp(s: State, e: Event)
    requires s.shutdown && Enabled(s, e)
    ensures Apply(s, e).shutdown
  {
  }

  /** With the flag up no worker gets stuck that is not stuck already, and each of its turns brings a
      worker closer to its exit. */
  lemma {:induction false} UnstuckStep(s: State, e: Event, w: Tid)
    requires s.shutdown && Waited(s.ready, s.workers) && Enabled(s, e) && w in s.workers && !Stuck(s, w)
    ensures var r := Apply(s, e);
            w in r.workers && !Stuck(r, w)
            && TurnsLeft(r.workers[w]) <= TurnsLeft(s.workers[w]) - if e == Turn(w) then 1 else 0
  {
  }

  function TurnsOf(es: seq<Event>, w: Tid): nat {
    if es == [] then 0 else (if es[0] == Turn(w) then 1 else 0) + TurnsOf(es[1..], w)
  }

  lemma {:induction false} UnstuckRun(s: State, es: seq<Event>, w: Tid)
    requires Inv(s) && s.shutdown && Admissible(s, es) && w in s.workers && !Stuck(s, w)
    ensures TurnsOf(es, w) <= TurnsLeft(s.workers[w])
    ensures w in Run(s, es).workers && !Stuck(Run(s, es), w)
    decreases |es|
  {
    if es == [] {
    } else {
      InvStep(s, es[0]);
      UnstuckStep(s, es[0], w);
      FlagStaysUp(s, es[0]);
      UnstuckRun(Apply(s, es[0]), es[1..], w);
    }
  }

  /** An event that is no new call and no spurious wake-up. */
  predicate Unprompted(e: Event) {
    !e.AddBegins? && !e.Spurious?
  }

  ghost predicate AtRest(s: State) {
    forall e | Unprompted(e) :: !Enabled(s, e)
  }

  lemma {:induction false} RestIsIdle(s: State)
    requires AtRest(s)
    ensures Idle(s)
  {
    forall e | Ongoing(e) ensures !Enabled(s, e) {
      assert Unprompted(e);
    }
  }

  /** And it never has to wait for anything: where nothing can move, it has exited. */
  lemma {:induction false} UnstuckExits(s: State, w: Tid)
    requires Inv(s) && s.shutdown && w in s.workers && !Stuck(s, w) && AtRest(s)
    ensures s.workers[w].Exited?
  {
    RestIsIdle(s);
    NobodyBetween(s);
    TurnWhenIdle(s, w);
  }

  lemma {:induction false} ShutdownStays(s: State, es: seq<Event>)
    requires s.shutdown && Admissible(s, es)
    ensures Run(s, es).shutdown
    decreases |es|
  {
    if es == [] {
    } else {
      FlagStaysUp(s, es[0]);
      ShutdownStays(Apply(s, es[0]), es[1..]);
    }
  }

  // ------------------------------------------------------------ everything ends after the flag

  function AddsLeft(pc: Adder): nat {
    match pc
    case Signalling => 1
    case Unlocking => 2
    case Counting => 3
    case Pushing(_) => 4
    case Locking(_) => 5
  }

  function DestroyLeft(d: Destroy, n: nat): int {
    match d
    case NotCalled => 2 * n + 4
    case Raising => 2 * n + 3
    case FirstBroadcast => 2 * n + 2
    case LoopBroadcast(i) => 2 * (n - i) + 1
    case Joining(i) => 2 * (n - i)
    case Joined => 0
  }

  /** How many more turns all threads together can take. */
  ghost function TurnsInAll(s: State): int {
    Sum(s.workers, TurnsLeft) + Sum(s.adders, AddsLeft) + DestroyLeft(s.destroy, |s.threads|)
  }

  lemma {:induction false} AddTaken(s: State, t: Tid, wake: Option<Tid>)
    requires t in s.adders
    ensures TurnsInAll(AdderTurn(s, t, wake)) < TurnsInAll(s)
  {
    hide TurnsLeft;
    if s.adders[t].Signalling? {
      SumOut(s.adders, AddsLeft, t);
    } else {
      SumMove(s.adders, AddsLeft, t, AdderTurn(s, t, wake).adders[t]);
    }
  }

  lemma {:induction false} WorkerTaken(s: State, w: Tid)
    requires s.shutdown && w in s.workers && !s.workers[w].Exited?
    ensures TurnsInAll(WorkerTurn(s, w)) < TurnsInAll(s)
  {
    SumMove(s.workers, TurnsLeft, w, NextPc(s, s.workers[w]));
  }

  lemma {:induction false} TurnTaken(s: State, e: Event)
    requires s.shutdown && Unprompted(e) && Enabled(s, e)
    requires s.destroy.LoopBroadcast? ==> s.destroy.i <= |s.threads|
    ensures TurnsInAll(Apply(s, e)) < TurnsInAll(s)
  {
    match e
    case Turn(w) => WorkerTaken(s, w);
    case AddTurn(t, wake) => AddTaken(s, t, wake);
    case DestroyTurn =>
  }

  lemma {:induction false} SomeTurnsLeft(s: State)
    requires Inv(s)
    ensures TurnsInAll(s) >= 0
  {
  }

  predicate AllUnprompted(es: seq<Event>) {
    forall e | e in es :: Unprompted(e)
  }

  lemma {:induction false} Kept(s: State, e: Event)
    requires Inv(s) && s.shutdown && Unprompted(e) && Enabled(s, e)
    ensures Inv(Apply(s, e)) && Apply(s, e).shutdown && 0 <= TurnsInAll(Apply(s, e)) < TurnsInAll(s)
  {
    TurnTaken(s, e);
    InvStep(s, e);
    FlagStaysUp(s, e);
    SomeTurnsLeft(Apply(s, e));
  }

  /** Once the flag is up, a pool left to itself takes boundedly many more turns, whether its
      destruction completes or hangs. */
  lemma {:induction false} RunsEnd(s: State, es: seq<Event>)
    requires Inv(s) && s.shutdown && Admissible(s, es) && AllUnprompted(es)
    ensures |es| <= TurnsInAll(s)
    decreases |es|
  {
    hide Inv;
    SomeTurnsLeft(s);
    if es == [] {
    } else {
      assert es[0] in es;
      Kept(s, es[0]);
      RunsEnd(Apply(s, es[0]), es[1..]);
    }
  }

  /** A run, without new calls and spurious wake-ups, to where nothing can move. */
  ghost predicate EndsAt(s: State, es: seq<Event>) {
    Admissible(s, es) && AllUnprompted(es) && AtRest(Run(s, es))
  }

  lemma {:induction false} EndReached(s: State) returns (es: seq<Event>)
    requires Inv(s) && s.shutdown
    ensures EndsAt(s, es)
    decreases TurnsInAll(s)
  {
    hide Inv;
    SomeTurnsLeft(s);
    es := [];
    if !AtRest(s) {
      var e :| Unprompted(e) && Enabled(s, e);
      Kept(s, e);
      var rest := EndReached(Apply(s, e));
      es := [e] + rest;
      assert es[1..] == rest;
    }
  }

  // ------------------------------------------------------------ a join without help

  /** The destroying thread is in the join of worker w. */
  predicate JoinOf(s: State, w: Tid) {
    s.destroy.Joining? && s.destroy.i < |s.threads| && w == s.threads[s.destroy.i] && w in s.workers
  }

  lemma {:induction false} StuckStep(s: State, e: Event)
    requires Inv(s) && s.destroy.Joining? && s.adders == map[] && Stuck(s, s.threads[s.destroy.i])
    requires Unprompted(e) && Enabled(s, e)
    ensures var r := Apply(s, e);
            r.destroy == s.destroy && r.threads == s.threads && r.adders == map[] && Stuck(r, s.threads[s.destroy.i])
  {
    hide Ledger, InOrder, Counted;
  }

  /** While the destroying thread is joining worker i no broadcast is to come. If nobody is adding a
      message and that worker is stuck, then it stays stuck, and the join never completes, in every
      run without new calls and spurious wake-ups. */
  lemma {:induction false} StuckForever(s: State, es: seq<Event>)
    requires Inv(s) && s.destroy.Joining? && s.adders == map[] && Stuck(s, s.threads[s.destroy.i])
    requires Admissible(s, es) && (forall e | e in es :: Unprompted(e))
    ensures var r := Run(s, es);
            r.destroy == s.destroy && r.threads == s.threads && Stuck(r, s.threads[s.destroy.i])
    decreases |es|
  {
    if es == [] {
    } else {
      assert es[0] in es;
      InvStep(s, es[0]);
      StuckStep(s, es[0]);
      StuckForever(Apply(s, es[0]), es[1..]);
    }
  }

  /** In a run to the end of which w is not stuck, its join has completed. */
  lemma {:induction false} JoinPasses(s: State, es: seq<Event>, w: Tid)
    requires Inv(s) && JoinOf(s, w) && EndsAt(s, es) && !Stuck(Run(s, es), w)
    ensures Run(s, es).destroy != s.destroy
  {
    var r := Run(s, es);
    InvRun(s, es);
    ShutdownStays(s, es);
    ThreadsStay(s, es);
    UnstuckExits(r, w) by { assert r.workers.Keys == s.workers.Keys; }
    assert Unprompted(DestroyTurn) && !Enabled(r, DestroyTurn);
  }

  // ------------------------------------------------------------ a join that can hang

  ghost function Deciding(workers: map<Tid, Worker>): set<Tid> {
    set v | v in workers && workers[v].AboutToWait?
  }

  /** All the workers that do not look at the flag again without a wake-up. */
  ghost function Deaf(s: State): set<Tid> {
    s.ready.sleeping + Deciding(s.workers)
  }

  predicate AllSignalling(adders: map<Tid, Adder>) {
    forall t | t in adders :: adders[t].Signalling?
  }

  /** Worker w need not ever be woken: it is one of more deaf workers than there are signals to come; or
      all signals can be sent before it sleeps. */
  ghost predicate MayStay(s: State, w: Tid) {
    && Stuck(s, w)
    && (|s.adders| < |Deaf(s)| || (s.workers[w].AboutToWait? && AllSignalling(s.adders)))
  }

  lemma {:induction false} DeafTurn(s: State, v: Tid)
    requires s.shutdown && Waited(s.ready, s.workers) && Enabled(s, Turn(v))
    ensures Deaf(WorkerTurn(s, v)) == Deaf(s)
  {
    var r := WorkerTurn(s, v);
    forall u ensures u in Deaf(r) <==> u in Deaf(s) {
    }
  }

  /** A signal takes one caller out of the adders, and one worker, if any sleeps, out of the deaf. */
  lemma {:induction false} DeafSignal(s: State, t: Tid, wake: Option<Tid>)
    requires Waited(s.ready, s.workers) && Enabled(s, AddTurn(t, wake)) && s.adders[t].Signalling?
    ensures var r := AdderTurn(s, t, wake);
            && r.adders == s.adders - {t} && |r.adders| == |s.adders| - 1
            && |Deaf(r)| == |Deaf(s)| - if wake.Some? then 1 else 0
  {
    var r := AdderTurn(s, t, wake);
    assert r.adders.Keys == s.adders.Keys - {t};
    if wake.Some? {
      assert Deaf(r) == Deaf(s) - {wake.value};
    }
  }

  /** A worker that decides holds the mutex, so it is the only one, and adders can only signal. */
  lemma {:induction false} OneDecides(s: State, t: Tid, wake: Option<Tid>, w: Tid)
    requires Locked(s.holder, s.workers, s.adders) && w in s.workers && Enabled(s, AddTurn(t, wake))
    ensures s.workers[w].AboutToWait? ==> Deciding(s.workers) == {w} && s.adders[t].Signalling?
  {
  }

  lemma {:induction false} BoundToWakeTurn(s: State, v: Tid, w: Tid)
    requires Inv(s) && JoinOf(s, w) && Stuck(s, w) && !MayStay(s, w) && Enabled(s, Turn(v))
    ensures !MayStay(WorkerTurn(s, v), w) && JoinOf(WorkerTurn(s, v), w)
  {
    DeafTurn(s, v);
  }

  lemma {:induction false} BoundToWakeOther(s: State, r: State, w: Tid)
    requires w in s.workers && Stuck(s, w) && !MayStay(s, w) && !s.workers[w].AboutToWait?
    requires r.workers == s.workers && r.ready == s.ready && r.adders.Keys == s.adders.Keys
    ensures !MayStay(r, w)
  {
  }

  lemma {:induction false} BoundToWakeSignal(s: State, r: State, t: Tid, wake: Option<Tid>, w: Tid)
    requires w in s.workers && Stuck(s, w) && !MayStay(s, w) && s.ready.MayWake(wake)
    requires t in s.adders && s.adders[t].Signalling? && r.adders == s.adders - {t} && |r.adders| == |s.adders| - 1
    requires r.workers == s.workers && r.ready == s.ready.NotifyOne(wake)
    requires |Deaf(r)| == |Deaf(s)| - if wake.Some? then 1 else 0
    requires s.workers[w].AboutToWait? ==> Deciding(s.workers) == {w}
    ensures !MayStay(r, w)
  {
    if s.workers[w].AboutToWait? {
      var u :| u in s.adders && !s.adders[u].Signalling?;
      assert u in r.adders && !r.adders[u].Signalling?;
      if wake.None? {
        assert Deaf(s) == {w};
      }
    }
  }

  lemma {:induction false} BoundToWakeAddTurn(s: State, t: Tid, wake: Option<Tid>, w: Tid)
    requires Inv(s) && JoinOf(s, w) && Stuck(s, w) && !MayStay(s, w) && Enabled(s, AddTurn(t, wake))
    ensures !MayStay(AdderTurn(s, t, wake), w) && JoinOf(AdderTurn(s, t, wake), w)
  {
    hide MayStay, Deaf, AllSignalling;
    OneDecides(s, t, wake, w);
    if s.adders[t].Signalling? {
      DeafSignal(s, t, wake);
      BoundToWakeSignal(s, AdderTurn(s, t, wake), t, wake, w);
    } else {
      BoundToWakeOther(s, AdderTurn(s, t, wake), w);
    }
  }

  /** A worker that is bound to be woken remains so. */
  lemma {:induction false} BoundToWakeStep(s: State, e: Event, w: Tid)
    requires Inv(s) && JoinOf(s, w) && Stuck(s, w) && !MayStay(s, w) && Unprompted(e) && Enabled(s, e)
    ensures var r := Apply(s, e); !MayStay(r, w) && (Stuck(r, w) ==> JoinOf(r, w))
  {
    match e
    case Turn(v) => BoundToWakeTurn(s, v, w);
    case AddTurn(t, wake) => BoundToWakeAddTurn(s, t, wake, w);
    case DestroyTurn =>
  }

  lemma {:induction false} StaysUnstuck(s: State, e: Event, w: Tid)
    requires Inv(s) && s.shutdown && w in s.workers && !Stuck(s, w) && Enabled(s, e)
    ensures var r := Apply(s, e); w in r.workers && !Stuck(r, w) && !MayStay(r, w)
  {
    UnstuckStep(s, e, w);
  }

  lemma {:induction false} BoundToWakeRun(s: State, es: seq<Event>, w: Tid)
    requires Inv(s) && s.shutdown && w in s.workers && !MayStay(s, w) && (Stuck(s, w) ==> JoinOf(s, w))
    requires Admissible(s, es) && AllUnprompted(es)
    ensures !MayStay(Run(s, es), w)
    decreases |es|
  {
    hide Inv, MayStay;
    if es == [] {
    } else {
      var e := es[0];
      assert e in es;
      Kept(s, e);
      if Stuck(s, w) {
        BoundToWakeStep(s, e, w);
      } else {
        StaysUnstuck(s, e, w);
      }
      BoundToWakeRun(Apply(s, e), es[1..], w);
    }
  }

  /** At rest a stuck worker is one that may stay. */
  lemma {:induction false} StuckAtRestStays(s: State, w: Tid)
    requires Inv(s) && AtRest(s) && Stuck(s, w)
    ensures MayStay(s, w)
  {
    RestIsIdle(s);
    NobodyBetween(s);
    assert w in Deaf(s);
  }

  /** Somebody sleeps besides w. */
  lemma {:induction false} AnotherSleeper(sleeping: set<Tid>, w: Tid) returns (u: Tid)
    requires |sleeping| >= 2
    ensures u in sleeping && u != w
  {
    assert |sleeping - {w}| > 0;
    u :| u in sleeping - {w};
  }

  lemma {:induction false} StayByLosingSignal(s: State, w: Tid) returns (e: Event)
    requires Inv(s) && JoinOf(s, w) && MayStay(s, w) && |s.adders| >= |Deaf(s)|
    ensures Ongoing(e) && Enabled(s, e) && MayStay(Apply(s, e), w) && JoinOf(Apply(s, e), w)
  {
    assert w in Deaf(s);
    assert s.adders != map[];
    var t :| t in s.adders;
    var wake: Option<Tid> := None;
    if u :| u in s.ready.sleeping {
      wake := Some(u);
    }
    e := AddTurn(t, wake);
    DeafSignal(s, t, wake);
  }

  lemma {:induction false} StayByWakingAnother(s: State, w: Tid, d: Event) returns (e: Event)
    requires Inv(s) && JoinOf(s, w) && MayStay(s, w) && |s.adders| < |Deaf(s)| && Deciding(s.workers) == {}
    requires d.AddTurn? && Enabled(s, d)
    ensures Ongoing(e) && Enabled(s, e) && MayStay(Apply(s, e), w) && JoinOf(Apply(s, e), w)
  {
    if s.adders[d.t].Signalling? {
      assert Deaf(s) == s.ready.sleeping;
      assert |s.adders| > 0;
      var u := AnotherSleeper(s.ready.sleeping, w);
      e := AddTurn(d.t, Some(u));
      DeafSignal(s, d.t, Some(u));
    } else {
      e := d;
      assert AdderTurn(s, d.t, d.wake).adders.Keys == s.adders.Keys;
    }
  }

  /** And one that may stay can be kept from waking for one more turn: by sending the signals that need
      not find it, by letting a worker that decides fall asleep, or by waking another. */
  lemma {:induction false} StayStep(s: State, w: Tid) returns (e: Event)
    requires Inv(s) && s.shutdown && JoinOf(s, w) && MayStay(s, w) && !Idle(s)
    ensures Ongoing(e) && Enabled(s, e) && MayStay(Apply(s, e), w) && JoinOf(Apply(s, e), w)
  {
    if |s.adders| >= |Deaf(s)| {
      e := StayByLosingSignal(s, w);
    } else if v :| v in Deciding(s.workers) {
      e := Turn(v);
      DeafTurn(s, v);
    } else {
      e :| Ongoing(e) && Enabled(s, e);
      if e.Turn? {
        DeafTurn(s, e.w);
      } else {
        e := StayByWakingAnother(s, w, e);
      }
    }
  }

  lemma {:induction false} IdleIsRest(s: State, w: Tid)
    requires Inv(s) && Idle(s) && JoinOf(s, w) && MayStay(s, w)
    ensures AtRest(s) && Stuck(s, w)
  {
    forall e | Unprompted(e) ensures !Enabled(s, e) {
      assert Ongoing(e) || e.DestroyTurn?;
    }
  }

  lemma {:induction false} StayRun(s: State, w: Tid) returns (es: seq<Event>)
    requires Inv(s) && s.shutdown && JoinOf(s, w) && MayStay(s, w)
    ensures EndsAt(s, es) && Stuck(Run(s, es), w) && Run(s, es).destroy == s.destroy
    decreases TurnsInAll(s)
  {
    hide Inv, MayStay;
    SomeTurnsLeft(s);
    es := [];
    if Idle(s) {
      IdleIsRest(s, w);
    } else {
      var e := StayStep(s, w);
      Kept(s, e);
      var rest := StayRun(Apply(s, e), w);
      es := [e] + rest;
      assert es[1..] == rest;
    }
  }

  /** The join of worker w can hang, adds in flight or not, if and only if w sleeps or has decided to,
      and either more workers are like that than there are calls of pool_add_worker still to signal, or
      w has yet to fall asleep and all those calls have unlocked. */
  lemma {:induction false} JoinCanHangIff(s: State, w: Tid)
    requires Inv(s) && JoinOf(s, w)
    ensures (exists es :: EndsAt(s, es) && Run(s, es).destroy == s.destroy) <==> MayStay(s, w)
  {
    hide MayStay;
    if MayStay(s, w) {
      var es := StayRun(s, w);
    } else {
      forall es | EndsAt(s, es) ensures Run(s, es).destroy != s.destroy {
        BoundToWakeRun(s, es, w);
        InvRun(s, es);
        if Stuck(Run(s, es), w) {
          StuckAtRestStays(Run(s, es), w);
        }
        JoinPasses(s, es, w);
      }
    }
  }

  // ------------------------------------------------------------ a join that must hang

  lemma {:induction false} TowardsWaking(s: State, w: Tid) returns (e: Event)
    requires Inv(s) && s.shutdown && JoinOf(s, w) && Stuck(s, w) && s.adders != map[]
    ensures Ongoing(e) && Enabled(s, e)
    ensures var r := Apply(s, e); JoinOf(r, w) && (Stuck(r, w) ==> r.adders != map[])
  {
    if s.workers[w].AboutToWait? {
      e := Turn(w);
    } else if t :| t in s.adders && s.adders[t].Signalling? {
      e := AddTurn(t, Some(w));
    } else if s.holder.Some? {
      e := HolderMoves(s);
    } else {
      var t :| t in s.adders;
      e := AddTurn(t, None);
    }
  }

  /** A call in flight can be brought to wake w. */
  lemma {:induction false} Wakeable(s: State, w: Tid) returns (es: seq<Event>)
    requires Inv(s) && s.shutdown && JoinOf(s, w) && Stuck(s, w) && s.adders != map[]
    ensures Admissible(s, es) && AllUnprompted(es) && !Stuck(Run(s, es), w) && w in Run(s, es).workers
    decreases TurnsInAll(s)
  {
    hide Inv;
    SomeTurnsLeft(s);
    var e := TowardsWaking(s, w);
    Kept(s, e);
    var rest: seq<Event> := [];
    if Stuck(Apply(s, e), w) {
      rest := Wakeable(Apply(s, e), w);
    }
    es := [e] + rest;
    assert es[1..] == rest;
  }

  lemma {:induction false} Onward(s: State, es: seq<Event>, w: Tid) returns (fs: seq<Event>)
    requires Inv(s) && JoinOf(s, w) && Admissible(s, es) && AllUnprompted(es)
    requires w in Run(s, es).workers && !Stuck(Run(s, es), w)
    ensures EndsAt(s, fs) && Run(s, fs).destroy != s.destroy
  {
    InvRun(s, es);
    ShutdownStays(s, es);
    var r := Run(s, es);
    var rest := EndReached(r);
    RunConcat(s, es, rest);
    UnstuckRun(r, rest, w);
    fs := es + rest;
    JoinPasses(s, fs, w);
  }

  /** No way on completes the join of worker w if and only if w sleeps or has decided to and nobody is
      adding a message. */
  lemma {:induction false} JoinMustHangIff(s: State, w: Tid)
    requires Inv(s) && JoinOf(s, w)
    ensures (forall es | EndsAt(s, es) :: Run(s, es).destroy == s.destroy) <==> Stuck(s, w) && s.adders == map[]
  {
    if Stuck(s, w) && s.adders == map[] {
      forall es | EndsAt(s, es) ensures Run(s, es).destroy == s.destroy {
        StuckForever(s, es);
      }
    } else {
      var es: seq<Event> := [];
      if Stuck(s, w) {
        es := Wakeable(s, w);
      }
      var fs := Onward(s, es, w);
    }
  }

  // ------------------------------------------------------------ which pools can hang

  /** The destroying thread is in a join that no way on completes. */
  ghost predicate Hung(s: State) {
    s.destroy.Joining? && s.adders == map[] && s.destroy.i < |s.threads| && Stuck(s, s.threads[s.destroy.i])
  }

  ghost predicate Hangs(s: State, es: seq<Event>) {
    Admissible(s, es) && Hung(Run(s, es))
  }

  lemma {:induction false} Prepend(s: State, e: Event, es: seq<Event>)
    requires Enabled(s, e) && Hangs(Apply(s, e), es)
    ensures Hangs(s, [e] + es)
  {
    assert ([e] + es)[1..] == es;
  }

  /** Before any message: the first worker is at pc, and the others have not begun. */
  function Start(threads: seq<Tid>, pc: Worker, destroy: Destroy): State
    requires threads != []
  {
    Init(threads).(workers := Init(threads).workers[threads[0] := pc], destroy := destroy,
                   shutdown := !destroy.NotCalled? && !destroy.Raising?,
                   holder := if WorkerHolds(pc) then Some(threads[0]) else None,
                   ready := if pc.Waiting? then CondVar({threads[0]}, {}) else QUIET)
  }

  lemma {:induction false} FirstTurns(threads: seq<Tid>, pc: Worker, destroy: Destroy)
    requires threads != [] && (pc.AtLock? || pc.AboutToWait? || (pc.AtWaitTest? && destroy.NotCalled?))
    ensures var s := Start(threads, pc, destroy);
            Enabled(s, Turn(threads[0])) && Apply(s, Turn(threads[0])) == Start(threads, NextPc(s, pc), destroy)
  {
  }

  lemma {:induction false} DestroyerTurns(threads: seq<Tid>, destroy: Destroy)
    requires threads != [] && !destroy.Joining? && !destroy.Joined?
    ensures var s := Start(threads, AboutToWait, destroy);
            && Enabled(s, DestroyTurn)
            && Apply(s, DestroyTurn) == Start(threads, AboutToWait, Destroying(s).destroy)
  {
  }

  lemma {:induction false} UnluckyEnd(threads: seq<Tid>) returns (es: seq<Event>)
    requires threads != []
    ensures Hangs(Start(threads, AboutToWait, Joining(0)), es)
  {
    FirstTurns(threads, AboutToWait, Joining(0));
    assert Hangs(Start(threads, Waiting, Joining(0)), []);
    Prepend(Start(threads, AboutToWait, Joining(0)), Turn(threads[0]), []);
    es := [Turn(threads[0])] + [];
  }

  lemma {:induction false} UnluckyBegin(threads: seq<Tid>, es: seq<Event>) returns (fs: seq<Event>)
    requires threads != [] && Hangs(Start(threads, AboutToWait, NotCalled), es)
    ensures Hangs(Init(threads), fs)
  {
    hide Hangs;
    var w := threads[0];
    FirstTurns(threads, AtWaitTest, NotCalled);
    Prepend(Start(threads, AtWaitTest, NotCalled), Turn(w), es);
    FirstTurns(threads, AtLock, NotCalled);
    Prepend(Start(threads, AtLock, NotCalled), Turn(w), [Turn(w)] + es);
    assert Init(threads).workers[w := AtLock] == Init(threads).workers;
    fs := [Turn(w)] + ([Turn(w)] + es);
  }

  /** The first worker tests the flag, the destroying thread raises it and sends both broadcasts, and only
      then does the worker wait. */
  lemma {:induction false} Unlucky(threads: seq<Tid>) returns (es: seq<Event>)
    requires threads != []
    ensures Hangs(Init(threads), es)
  {
    hide Hangs;
    var w := threads[0];
    es := UnluckyEnd(threads);
    DestroyerTurns(threads, LoopBroadcast(0));
    Prepend(Start(threads, AboutToWait, LoopBroadcast(0)), DestroyTurn, es);
    DestroyerTurns(threads, FirstBroadcast);
    Prepend(Start(threads, AboutToWait, FirstBroadcast), DestroyTurn, [DestroyTurn] + es);
    es := [DestroyTurn] + ([DestroyTurn] + es);
    DestroyerTurns(threads, Raising);
    Prepend(Start(threads, AboutToWait, Raising), DestroyTurn, es);
    DestroyerTurns(threads, NotCalled);
    Prepend(Start(threads, AboutToWait, NotCalled), DestroyTurn, [DestroyTurn] + es);
    es := UnluckyBegin(threads, [DestroyTurn] + ([DestroyTurn] + es));
  }

  /** pool_destory can hang for ever, in some run, if and only if the pool has a worker. */
  lemma {:induction false} DestroyCanHangIff(threads: seq<Tid>)
    ensures threads != [] <==> exists es :: Hangs(Init(threads), es)
  {
    if threads != [] {
      var es := Unlucky(threads);
    }
    forall es | Hangs(Init(threads), es) ensures threads != [] {
      ThreadsStay(Init(threads), es);
    }
  }
}
