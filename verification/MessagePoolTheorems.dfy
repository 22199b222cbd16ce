/** What every run of the message pool guarantees. */
module MessagePoolTheorems {
  import opened Sequences
  import opened Threads
  import opened MessagePoolSpec

  // ------------------------------------------------------------ the invariant step

  /** A worker locks, goes on with or without the mutex, or unlocks. */
  lemma {:induction false} WorkerMoves(holder: Option<Tid>, workers: map<Tid, Worker>, adders: map<Tid, Adder>,
                                       w: Tid, pc: Worker, after: Option<Tid>)
    requires Locked(holder, workers, adders) && w in workers
    requires w in adders ==> pc.InProcess?
    requires WorkerHolds(pc) && !WorkerHolds(workers[w]) ==> holder == None
    requires after == if WorkerHolds(pc) then Some(w) else if WorkerHolds(workers[w]) then None else holder
    ensures Locked(after, workers[w := pc], adders)
  {
  }

  lemma {:induction false} AdderMoves(holder: Option<Tid>, workers: map<Tid, Worker>, adders: map<Tid, Adder>,
                                      t: Tid, pc: Adder, after: Option<Tid>)
    requires Locked(holder, workers, adders) && t in adders
    requires AdderHolds(pc) && !AdderHolds(adders[t]) ==> holder == None
    requires after == if AdderHolds(pc) then Some(t) else if AdderHolds(adders[t]) then None else holder
    ensures Locked(after, workers, adders[t := pc])
  {
  }

  lemma {:induction false} NotAdding(s: State, w: Tid)
    requires Locked(s.holder, s.workers, s.adders) && w in s.workers
    ensures w in s.adders ==> s.workers[w].InProcess?
    ensures WorkerHolds(s.workers[w]) ==> s.holder == Some(w)
  {
  }

  lemma {:induction false} LockedTurn(s: State, w: Tid)
    requires Locked(s.holder, s.workers, s.adders) && Enabled(s, Turn(w))
    requires s.workers[w].AtSizeTest? ==> s.curSize > 0
    ensures var r := WorkerTurn(s, w); Locked(r.holder, r.workers, r.adders)
  {
    hide Locked;
    NotAdding(s, w);
    var pc := s.workers[w];
    WorkerMoves(s.holder, s.workers, s.adders, w, NextPc(s, pc), NextHolder(s, w, pc));
  }

  lemma {:induction false} AdderHolder(s: State, t: Tid)
    requires Locked(s.holder, s.workers, s.adders) && t in s.adders
    ensures AdderHolds(s.adders[t]) ==> s.holder == Some(t)
  {
  }

  lemma {:induction false} LockedAddTurn(s: State, t: Tid, wake: Option<Tid>)
    requires Locked(s.holder, s.workers, s.adders) && Enabled(s, AddTurn(t, wake))
    ensures var r := AdderTurn(s, t, wake); Locked(r.holder, r.workers, r.adders)
  {
    var r := AdderTurn(s, t, wake);
    if !s.adders[t].Signalling? {
      hide Locked;
      AdderHolder(s, t);
      AdderMoves(s.holder, s.workers, s.adders, t, r.adders[t], r.holder);
    }
  }

  lemma {:induction false} WaitMoves(ready: CondVar, workers: map<Tid, Worker>, w: Tid, pc: Worker, after: CondVar)
    requires Waited(ready, workers) && w in workers
    requires if pc.Waiting? then !workers[w].Waiting? && after == ready.Sleep(w)
             else if workers[w].Waiting? then w in ready.woken && after == ready.Leave(w)
             else after == ready
    ensures Waited(after, workers[w := pc])
  {
  }

  lemma {:induction false} WaitedTurn(s: State, w: Tid)
    requires Waited(s.ready, s.workers) && Enabled(s, Turn(w))
    ensures var r := WorkerTurn(s, w); Waited(r.ready, r.workers)
  {
    hide Waited;
    var pc := s.workers[w];
    WaitMoves(s.ready, s.workers, w, NextPc(s, pc), NextReady(s, w, pc));
  }

  lemma {:induction false} CountedTurn(s: State, w: Tid)
    requires Locked(s.holder, s.workers, s.adders) && Counted(s) && Enabled(s, Turn(w))
    ensures Counted(WorkerTurn(s, w))
  {
    NotAdding(s, w);
  }

  lemma {:induction false} CountedAddTurn(s: State, t: Tid, wake: Option<Tid>)
    requires Locked(s.holder, s.workers, s.adders) && Counted(s) && Enabled(s, AddTurn(t, wake))
    ensures Counted(AdderTurn(s, t, wake))
  {
    AdderHolder(s, t);
  }

  lemma {:induction false} PopFinds(s: State, w: Tid)
    requires Counted(s) && w in s.workers && s.workers[w].AtPop?
    ensures s.queue != []
  {
  }

  lemma {:induction false} InOrderTurn(s: State, w: Tid)
    requires InOrder(s) && Enabled(s, Turn(w)) && (s.workers[w].AtPop? ==> s.queue != [])
    ensures InOrder(WorkerTurn(s, w))
  {
  }

  lemma {:induction false} InOrderAddTurn(s: State, t: Tid, wake: Option<Tid>)
    requires InOrder(s) && Enabled(s, AddTurn(t, wake))
    ensures InOrder(AdderTurn(s, t, wake))
  {
  }

  /** A worker moves on with the same hand, or the same lack of one, and nothing to log. */
  lemma {:induction false} LedgerMoves(n: nat, workers: map<Tid, Worker>, log: seq<Entry>, fates: map<nat, Fate>,
                                       w: Tid, pc: Worker)
    requires Ledger(n, workers, log, fates) && w in workers && Hand(pc) == Hand(workers[w])
    requires Hand(pc).Some? ==> workers[w].AtUnlock? && pc.AtProcess?
    ensures Ledger(n, workers[w := pc], log, fates)
  {
  }

  lemma {:induction false} NoTrace(log: seq<Entry>, k: nat)
    requires forall i | 0 <= i < |log| :: log[i].k != k
    ensures Trace(log, k) == []
    decreases |log|
  {
    if log == [] {
    } else {
      NoTrace(log[..|log| - 1], k);
    }
  }

  lemma {:induction false} LedgerTakes(n: nat, workers: map<Tid, Worker>, log: seq<Entry>, fates: map<nat, Fate>,
                                       w: Tid)
    requires Ledger(n, workers, log, fates) && w in workers && Hand(workers[w]).None?
    ensures Ledger(n + 1, workers[w := AtUnlock(n)], log, fates[n := InHands(w)])
  {
    hide Trace;
    NoTrace(log, n);
  }

  lemma {:induction false} TraceAppend(log: seq<Entry>, e: Entry, k: nat)
    ensures Trace(log + [e], k) == Trace(log, k) + if e.k == k then [e] else []
  {
    assert (log + [e])[..|log|] == log;
  }

  lemma {:induction false} LedgerLogs(n: nat, workers: map<Tid, Worker>, log: seq<Entry>, fates: map<nat, Fate>,
                                      w: Tid, pc: Worker, e: Entry)
    requires Ledger(n, workers, log, fates) && w in workers
    requires match workers[w]
             case AtProcess(k) => pc == InProcess(k) && e == Started(k)
             case InProcess(k) => pc == AtDelete(k) && e == Returned(k)
             case _ => false
    ensures Ledger(n, workers[w := pc], log + [e], fates)
  {
    hide Trace;
    forall k ensures Trace(log + [e], k) == Trace(log, k) + if e.k == k then [e] else [] {
      TraceAppend(log, e, k);
    }
  }

  lemma {:induction false} LedgerFrees(n: nat, workers: map<Tid, Worker>, log: seq<Entry>, fates: map<nat, Fate>,
                                       w: Tid, k: nat)
    requires Ledger(n, workers, log, fates) && w in workers && workers[w] == AtDelete(k)
    ensures Ledger(n, workers[w := AtLock], log + [Freed(k)], fates[k := Done])
  {
    hide Trace;
    forall l ensures Trace(log + [Freed(k)], l) == Trace(log, l) + if k == l then [Freed(k)] else [] {
      TraceAppend(log, Freed(k), l);
    }
  }

  lemma {:induction false} LedgerTurn(s: State, w: Tid)
    requires Ledger(s.dequeued, s.workers, s.log, s.fates) && Enabled(s, Turn(w))
    ensures var r := WorkerTurn(s, w); Ledger(r.dequeued, r.workers, r.log, r.fates)
  {
    hide Ledger;
    var pc := s.workers[w];
    match pc
    case AtPop => LedgerTakes(s.dequeued, s.workers, s.log, s.fates, w);
    case AtProcess(k) => LedgerLogs(s.dequeued, s.workers, s.log, s.fates, w, InProcess(k), Started(k));
    case InProcess(k) => LedgerLogs(s.dequeued, s.workers, s.log, s.fates, w, AtDelete(k), Returned(k));
    case AtDelete(k) => LedgerFrees(s.dequeued, s.workers, s.log, s.fates, w, k);
    case _ => LedgerMoves(s.dequeued, s.workers, s.log, s.fates, w, NextPc(s, pc));
  }

  lemma {:induction false} InvTurn(s: State, w: Tid)
    requires Inv(s) && Enabled(s, Turn(w))
    ensures Inv(WorkerTurn(s, w))
  {
    hide Locked, Waited, InOrder, Ledger;
    if s.workers[w].AtPop? { PopFinds(s, w); }
    LockedTurn(s, w);
    WaitedTurn(s, w);
    CountedTurn(s, w);
    InOrderTurn(s, w);
    LedgerTurn(s, w);
    assert WorkerTurn(s, w).workers.Keys == s.workers.Keys;
  }

  lemma {:induction false} InvAddTurn(s: State, t: Tid, wake: Option<Tid>)
    requires Inv(s) && Enabled(s, AddTurn(t, wake))
    ensures Inv(AdderTurn(s, t, wake))
  {
    hide Locked, Counted, InOrder, Ledger;
    LockedAddTurn(s, t, wake);
    CountedAddTurn(s, t, wake);
    InOrderAddTurn(s, t, wake);
  }

  lemma {:induction false} InvAddBegins(s: State, t: Tid, m: Msg)
    requires Inv(s) && Enabled(s, AddBegins(t, m))
    ensures Inv(Apply(s, AddBegins(t, m)))
  {
    hide Waited, Ledger;
  }

  lemma {:induction false} InvDestroy(s: State)
    requires Inv(s) && Enabled(s, DestroyTurn)
    ensures Inv(Destroying(s))
  {
    hide Locked, Ledger;
  }

  lemma {:induction false} InvSpurious(s: State, w: Tid)
    requires Inv(s) && Enabled(s, Spurious(w))
    ensures Inv(Apply(s, Spurious(w)))
  {
    hide Locked, Ledger;
  }

  lemma {:induction false} InvStep(s: State, e: Event)
    requires Inv(s) && Enabled(s, e)
    ensures Inv(Apply(s, e))
  {
    hide Inv;
    match e
    case Turn(w) => InvTurn(s, w);
    case AddTurn(t, wake) => InvAddTurn(s, t, wake);
    case AddBegins(t, m) => InvAddBegins(s, t, m);
    case DestroyTurn => InvDestroy(s);
    case Spurious(w) => InvSpurious(s, w);
  }

  lemma {:induction false} InvRun(s: State, es: seq<Event>)
    requires Inv(s) && Admissible(s, es)
    ensures Inv(Run(s, es))
    decreases |es|
  {
    hide Inv;
    if es == [] {
    } else {
      InvStep(s, es[0]);
      InvRun(Apply(s, es[0]), es[1..]);
    }
  }

  lemma {:induction false} InvInit(threads: seq<Tid>)
    ensures Inv(Init(threads))
  {
  }

  // ------------------------------------------------------------ safety

  lemma {:induction false} FreeAtTop(s: State)
    requires Locked(s.holder, s.workers, s.adders)
    ensures forall w | w in s.workers && s.workers[w].AtLock? :: s.holder != Some(w)
  {
  }

  /** Whenever the mutex is free the counter is the length of the queue. The queue is never asked for
      a front it does not have, and whoever looks at the size inside the loop finds it positive, so
      the branch that would go round without unlocking is never taken: a worker at the top of its
      loop does not hold the mutex. */
  lemma {:induction false} CounterMirrorsQueue(threads: seq<Tid>, es: seq<Event>)
    requires Admissible(Init(threads), es)
    ensures var s := Run(Init(threads), es);
            && (s.holder == None ==> s.curSize == |s.queue|)
            && !s.broken
            && (forall w | w in s.workers && s.workers[w].AtSizeTest? :: s.curSize > 0)
            && (forall w | w in s.workers && s.workers[w].AtLock? :: s.holder != Some(w))
  {
    InvInit(threads);
    InvRun(Init(threads), es);
    FreeAtTop(Run(Init(threads), es));
  }

  ghost predicate InHand(s: State, k: nat, w: Tid) {
    w in s.workers && Hand(s.workers[w]) == Some(k)
  }

  /** A message has been processed once and freed once. */
  ghost predicate Finished(s: State, k: nat) {
    Trace(s.log, k) == [Started(k), Returned(k), Freed(k)]
  }

  ghost predicate InSomeHand(s: State, k: nat) {
    exists w :: InHand(s, k, w)
  }

  /** What a worker has done so far with the message in its hands. */
  ghost function SoFar(pc: Worker): seq<Entry> {
    match pc
    case InProcess(k) => [Started(k)]
    case AtDelete(k) => [Started(k), Returned(k)]
    case _ => []
  }

  lemma {:induction false} HandledOnce(s: State)
    requires Ledger(s.dequeued, s.workers, s.log, s.fates)
    ensures forall k: nat | k < s.dequeued ::
              InSomeHand(s, k) != Finished(s, k)
    ensures forall k, v, w | InHand(s, k, v) && InHand(s, k, w) :: v == w
    ensures forall k, w | InHand(s, k, w) :: Trace(s.log, k) == SoFar(s.workers[w])
    ensures forall k: nat | k >= s.dequeued :: Trace(s.log, k) == []
  {
    hide Trace;
    forall k: nat | k >= s.dequeued ensures Trace(s.log, k) == [] {
      NoTrace(s.log, k);
    }
    forall k: nat | k < s.dequeued
      ensures InSomeHand(s, k) != Finished(s, k)
    {
      if s.fates[k].InHands? {
        assert InHand(s, k, s.fates[k].w);
      }
    }
  }

  /** Every message queued is still in the queue, or in the hands of exactly one worker, or done; it
      is dequeued in its turn; and what has been done with it is a beginning of: processed once,
      returned from, freed once, in this order. */
  lemma {:induction false} MessagesHandledOnce(threads: seq<Tid>, es: seq<Event>)
    requires Admissible(Init(threads), es)
    ensures var s := Run(Init(threads), es);
            && s.dequeued <= |s.added| && s.queue == s.added[s.dequeued..]
            && (forall k: nat | k < s.dequeued :: InSomeHand(s, k) != Finished(s, k))
            && (forall k, v, w | InHand(s, k, v) && InHand(s, k, w) :: v == w)
            && (forall k, w | InHand(s, k, w) :: Trace(s.log, k) == SoFar(s.workers[w]))
            && (forall k: nat | k >= s.dequeued :: Trace(s.log, k) == [])
  {
    InvInit(threads);
    InvRun(Init(threads), es);
    HandledOnce(Run(Init(threads), es));
  }

  // ------------------------------------------------------------ order

  /** The message that a step pushes, read off the event and where the adder is. */
  function PushedBy(s: State, e: Event): seq<Msg> {
    if e.AddTurn? && e.t in s.adders && s.adders[e.t].Pushing? then [s.adders[e.t].m] else []
  }

  /** The message that a worker takes: the one at the front. */
  function PoppedBy(s: State, e: Event): seq<Msg> {
    if e.Turn? && e.w in s.workers && s.workers[e.w].AtPop? && s.queue != [] then [s.queue[0]] else []
  }

  function Pushed(s: State, es: seq<Event>): seq<Msg>
    requires Admissible(s, es)
    decreases |es|
  {
    if es == [] then [] else PushedBy(s, es[0]) + Pushed(Apply(s, es[0]), es[1..])
  }

  function Popped(s: State, es: seq<Event>): seq<Msg>
    requires Admissible(s, es)
    decreases |es|
  {
    if es == [] then [] else PoppedBy(s, es[0]) + Popped(Apply(s, es[0]), es[1..])
  }

  lemma {:induction false} OrderStep(s: State, e: Event)
    requires Enabled(s, e)
    ensures var r := Apply(s, e);
            s.queue + PushedBy(s, e) == PoppedBy(s, e) + r.queue && r.added == s.added + PushedBy(s, e)
  {
    hide NextPc, NextHolder, NextReady, NextSize, NextLog, NextFates, NextAdder, NextDestroy;
  }

  lemma {:induction false} OrderRun(s: State, es: seq<Event>)
    requires Admissible(s, es)
    ensures var r := Run(s, es);
            s.queue + Pushed(s, es) == Popped(s, es) + r.queue && r.added == s.added + Pushed(s, es)
    decreases |es|
  {
    hide Apply, Enabled, PushedBy, PoppedBy;
    if es == [] {
      assert s.queue + [] == [] + s.queue;
    } else {
      var e, a, rest := es[0], Apply(s, es[0]), es[1..];
      OrderStep(s, e);
      OrderRun(a, rest);
      var p, d, ps, ds, r := PushedBy(s, e), PoppedBy(s, e), Pushed(a, rest), Popped(a, rest), Run(a, rest);
      assert Pushed(s, es) == p + ps && Popped(s, es) == d + ds && Run(s, es) == r;
      hide *;
      Regroup(s.queue, p, d, a.queue, ps, ds, r.queue);
      assert s.added + p + ps == s.added + (p + ps);
    }
  }

  /** Over every run, the messages pushed, in the order in which their callers got the mutex, are those that
      workers took from the front, followed by the queue. */
  lemma {:induction false} FifoOverRuns(threads: seq<Tid>, es: seq<Event>)
    requires Admissible(Init(threads), es)
    ensures var (s, r) := (Init(threads), Run(Init(threads), es));
            Pushed(s, es) == Popped(s, es) + r.queue && r.added == Pushed(s, es)
  {
    var s := Init(threads);
    OrderRun(s, es);
    assert s.queue + Pushed(s, es) == Pushed(s, es) == s.added + Pushed(s, es);
  }

  // ------------------------------------------------------------ rest

  /** A turn of a worker or of a caller that is adding a message. */
  predicate Ongoing(e: Event) {
    e.Turn? || e.AddTurn?
  }

  /** Neither workers nor adders can move. */
  ghost predicate Idle(s: State) {
    forall e | Ongoing(e) :: !Enabled(s, e)
  }

  lemma {:induction false} TurnWhenIdle(s: State, w: Tid)
    requires Idle(s)
    ensures !Enabled(s, Turn(w))
  {
    assert Ongoing(Turn(w));
  }

  /** Whoever holds the mutex has a turn to take. */
  lemma {:induction false} HolderMoves(s: State) returns (e: Event)
    requires Locked(s.holder, s.workers, s.adders) && s.holder.Some?
    ensures Ongoing(e) && Enabled(s, e)
    ensures if e.Turn? then s.holder == Some(e.w) else s.holder == Some(e.t) && AdderHolds(s.adders[e.t])
  {
    var t := s.holder.value;
    e := if t in s.workers && WorkerHolds(s.workers[t]) then Turn(t) else AddTurn(t, None);
  }

  /** And when nobody holds it, every adder has one. */
  lemma {:induction false} AdderHasTurn(s: State, t: Tid) returns (wake: Option<Tid>)
    requires s.holder == None && t in s.adders
    ensures Enabled(s, AddTurn(t, wake))
  {
    wake := None;
    if s.adders[t].Signalling? && s.ready.sleeping != {} {
      var u :| u in s.ready.sleeping;
      wake := Some(u);
    }
  }

  lemma {:induction false} NobodyBetween(s: State)
    requires Locked(s.holder, s.workers, s.adders) && Idle(s)
    ensures s.holder == None && s.adders == map[]
  {
    if s.holder.Some? {
      var e := HolderMoves(s);
    }
    forall t ensures t !in s.adders {
      if t in s.adders {
        var wake := AdderHasTurn(s, t);
        assert Ongoing(AddTurn(t, wake));
      }
    }
  }

  lemma {:induction false} ThreadsStay(s: State, es: seq<Event>)
    requires Admissible(s, es)
    ensures Run(s, es).threads == s.threads
    decreases |es|
  {
    if es == [] {
    } else {
      ThreadsStay(Apply(s, es[0]), es[1..]);
    }
  }

  lemma {:induction false} RunConcat(s: State, es: seq<Event>, fs: seq<Event>)
    requires Admissible(s, es) && Admissible(Run(s, es), fs)
    ensures Admissible(s, es + fs) && Run(s, es + fs) == Run(Run(s, es), fs)
    decreases |es|
  {
    if es == [] {
      assert es + fs == fs;
    } else {
      assert (es + fs)[0] == es[0] && (es + fs)[1..] == es[1..] + fs;
      RunConcat(Apply(s, es[0]), es[1..], fs);
    }
  }
}
