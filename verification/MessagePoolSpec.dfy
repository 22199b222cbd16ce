/** The message pool, with its counter beside its queue, as a transition system. The mutex is modelled
    here, statement by statement, because the shutdown flag is written without it. The worker waits as
    in the configuration with DEBUG defined. */
module MessagePoolSpec {
  import opened Threads

  type Msg = nat

  /** Where a worker is in thread_routine. A message in hand is named by its position among all the
      messages ever queued. */
  datatype Worker =
    | AtLock
    | AtWaitTest
    | AboutToWait
    | Waiting
    | AtShutdownTest
    | AtSizeTest
    | AtPop
    | AtUnlock(k: nat)
    | AtProcess(k: nat)
    | InProcess(k: nat)
    | AtDelete(k: nat)
    | Exited

  /** Where a caller of pool_add_worker is. */
  datatype Adder = Locking(m: Msg) | Pushing(m: Msg) | Counting | Unlocking | Signalling

  /** Where the caller of pool_destory is. Raising has found the shutdown flag down and not raised it. */
  datatype Destroy = NotCalled | Raising | FirstBroadcast | LoopBroadcast(i: nat) | Joining(i: nat) | Joined

  datatype Entry = Started(k: nat) | Returned(k: nat) | Freed(k: nat)

  /** Whether a dequeued message is in a worker's hands or has been freed. */
  datatype Fate = InHands(w: Tid) | Done

  datatype State = State(
    threads: seq<Tid>,
    queue: seq<Msg>,
    curSize: int,
    shutdown: bool,
    holder: Option<Tid>,
    ready: CondVar,
    workers: map<Tid, Worker>,
    adders: map<Tid, Adder>,
    destroy: Destroy,
    broken: bool,              // front() of an empty queue was asked for
    added: seq<Msg>,           // history: every message queued
    dequeued: nat,             // history: how many have been popped
    log: seq<Entry>,           // history: what was done with messages
    fates: map<nat, Fate>)     // history: one for each dequeued message

  datatype Event =
    | Turn(w: Tid)
    | AddBegins(t: Tid, m: Msg)
    | AddTurn(t: Tid, wake: Option<Tid>)
    | DestroyTurn
    | Spurious(w: Tid)

  function Init(threads: seq<Tid>): State {
    State(threads, [], 0, false, None, QUIET, map w | w in threads :: AtLock, map[], NotCalled, false,
          [], 0, [], map[])
  }

  predicate Enabled(s: State, e: Event) {
    match e
    case Turn(w) =>
      w in s.workers &&
      (match s.workers[w]
       case AtLock => s.holder == None
       case Waiting => w in s.ready.woken && s.holder == None
       case InProcess(_) => w !in s.adders
       case Exited => false
       case _ => true)
    case AddBegins(t, _) => t !in s.adders && (t in s.workers ==> s.workers[t].InProcess?)
    case AddTurn(t, wake) =>
      t in s.adders && (s.adders[t].Locking? ==> s.holder == None) &&
      if s.adders[t].Signalling? then s.ready.MayWake(wake) else wake == None
    case DestroyTurn =>
      (match s.destroy
       case Joined => false
       case Joining(i) =>
         i < |s.threads| && s.threads[i] in s.workers && s.workers[s.threads[i]].Exited?
       case _ => true)
    case Spurious(w) => w in s.ready.sleeping
  }

  // What a worker's turn does, variable by variable.
  function NextPc(s: State, pc: Worker): Worker {
    match pc
    case AtLock => AtWaitTest
    case AtWaitTest => if s.curSize == 0 && !s.shutdown then AboutToWait else AtShutdownTest
    case AboutToWait => Waiting
    case Waiting => AtWaitTest
    case AtShutdownTest => if s.shutdown then Exited else AtSizeTest
    case AtSizeTest => if s.curSize > 0 then AtPop else AtLock  // in which case nothing unlocks
    case AtPop => AtUnlock(s.dequeued)
    case AtUnlock(k) => AtProcess(k)
    case AtProcess(k) => InProcess(k)
    case InProcess(k) => AtDelete(k)
    case AtDelete(_) => AtLock
    case Exited => Exited
  }

  function NextHolder(s: State, w: Tid, pc: Worker): Option<Tid> {
    match pc
    case AtLock => Some(w)
    case Waiting => Some(w)
    case AboutToWait => None
    case AtUnlock(_) => None
    case AtShutdownTest => if s.shutdown then None else s.holder
    case _ => s.holder
  }

  function NextReady(s: State, w: Tid, pc: Worker): CondVar {
    match pc
    case AboutToWait => s.ready.Sleep(w)
    case Waiting => s.ready.Leave(w)
    case _ => s.ready
  }

  function NextSize(s: State, pc: Worker): int {
    if pc.AtSizeTest? && s.curSize > 0 then s.curSize - 1 else s.curSize
  }

  function NextQueue(s: State, pc: Worker): seq<Msg> {
    if pc.AtPop? && s.queue != [] then s.queue[1..] else s.queue
  }

  function NextLog(s: State, pc: Worker): seq<Entry> {
    match pc
    case AtProcess(k) => s.log + [Started(k)]
    case InProcess(k) => s.log + [Returned(k)]
    case AtDelete(k) => s.log + [Freed(k)]
    case _ => s.log
  }

  function NextFates(s: State, w: Tid, pc: Worker): map<nat, Fate> {
    match pc
    case AtPop => s.fates[s.dequeued := InHands(w)]
    case AtDelete(k) => s.fates[k := Done]
    case _ => s.fates
  }

  function WorkerTurn(s: State, w: Tid): State
    requires w in s.workers
  {
    var pc := s.workers[w];
    s.(workers := s.workers[w := NextPc(s, pc)], holder := NextHolder(s, w, pc), ready := NextReady(s, w, pc),
       curSize := NextSize(s, pc), queue := NextQueue(s, pc),
       dequeued := if pc.AtPop? then s.dequeued + 1 else s.dequeued,
       broken := s.broken || (pc.AtPop? && s.queue == []),
       log := NextLog(s, pc), fates := NextFates(s, w, pc))
  }

  // And what an adder's turn does.
  function NextAdder(pc: Adder): Adder {
    match pc
    case Locking(m) => Pushing(m)
    case Pushing(_) => Counting
    case Counting => Unlocking
    case _ => Signalling
  }

  function AdderTurn(s: State, t: Tid, wake: Option<Tid>): State
    requires t in s.adders
  {
    var pc := s.adders[t];
    s.(adders := if pc.Signalling? then s.adders - {t} else s.adders[t := NextAdder(pc)],
       holder := if pc.Locking? then Some(t) else if pc.Unlocking? then None else s.holder,
       queue := if pc.Pushing? then s.queue + [pc.m] else s.queue,
       added := if pc.Pushing? then s.added + [pc.m] else s.added,
       curSize := if pc.Counting? then s.curSize + 1 else s.curSize,
       ready := if pc.Signalling? then s.ready.NotifyOne(wake) else s.ready)
  }

  // And what the destroying thread's turn does, in a pool of n threads.
  function NextDestroy(d: Destroy, n: nat): Destroy {
    match d
    case NotCalled => Raising
    case Raising => FirstBroadcast
    case FirstBroadcast => LoopBroadcast(0)
    case LoopBroadcast(i) => if i < n then Joining(i) else Joined
    case Joining(i) => LoopBroadcast(i + 1)
    case Joined => Joined
  }

  predicate Broadcasts(d: Destroy, n: nat) {
    d.FirstBroadcast? || (d.LoopBroadcast? && d.i < n)
  }

  function Destroying(s: State): State {
    s.(destroy := NextDestroy(s.destroy, |s.threads|), shutdown := s.shutdown || s.destroy.Raising?,
       ready := if Broadcasts(s.destroy, |s.threads|) then s.ready.WakeAll() else s.ready)
  }

  function Apply(s: State, e: Event): State
    requires Enabled(s, e)
  {
    match e
    case Turn(w) => WorkerTurn(s, w)
    case AddBegins(t, m) => s.(adders := s.adders[t := Locking(m)])
    case AddTurn(t, wake) => AdderTurn(s, t, wake)
    case DestroyTurn => Destroying(s)
    case Spurious(w) => s.(ready := s.ready.Wake(w))
  }

  predicate Admissible(s: State, es: seq<Event>)
    decreases |es|
  {
    es == [] || (Enabled(s, es[0]) && Admissible(Apply(s, es[0]), es[1..]))
  }

  function Run(s: State, es: seq<Event>): State
    requires Admissible(s, es)
    decreases |es|
  {
    if es == [] then s else Run(Apply(s, es[0]), es[1..])
  }

  // ------------------------------------------------------------ the invariant

  predicate WorkerHolds(pc: Worker) {
    pc.AtWaitTest? || pc.AboutToWait? || pc.AtShutdownTest? || pc.AtSizeTest? || pc.AtPop? || pc.AtUnlock?
  }

  predicate AdderHolds(pc: Adder) {
    pc.Pushing? || pc.Counting? || pc.Unlocking?
  }

  /** Whoever is between locking and unlocking holds the mutex, and nobody else. */
  ghost predicate Locked(holder: Option<Tid>, workers: map<Tid, Worker>, adders: map<Tid, Adder>) {
    && (forall w | w in workers && WorkerHolds(workers[w]) :: holder == Some(w))
    && (forall t | t in adders && AdderHolds(adders[t]) :: holder == Some(t))
    && (forall t | t in adders && t in workers :: workers[t].InProcess?)
    && (holder.Some? ==>
          var t := holder.value;
          (t in workers && WorkerHolds(workers[t])) || (t in adders && AdderHolds(adders[t])))
  }

  ghost predicate Waited(ready: CondVar, workers: map<Tid, Worker>) {
    && (forall w | w in workers && workers[w].Waiting? :: w in ready.sleeping || w in ready.woken)
    && (forall w | w in ready.sleeping :: w in workers && workers[w].Waiting? && w !in ready.woken)
    && (forall w | w in ready.woken :: w in workers && workers[w].Waiting?)
  }

  /** How far the counter lags behind the queue: by one between a push and its count, and between a
      count down and its pop. */
  ghost function Lag(holder: Option<Tid>, workers: map<Tid, Worker>, adders: map<Tid, Adder>): int {
    match holder
    case None => 0
    case Some(t) =>
      if (t in adders && adders[t].Counting?) || (t in workers && workers[t].AtPop?) then 1 else 0
  }

  ghost predicate Counted(s: State) {
    && |s.queue| == s.curSize + Lag(s.holder, s.workers, s.adders)
    && s.curSize >= 0 && !s.broken
    && (forall w | w in s.workers && s.workers[w].AtSizeTest? :: s.curSize > 0)
    && (forall w | w in s.workers && s.workers[w].AtShutdownTest? :: s.curSize > 0 || s.shutdown)
    && (forall w | w in s.workers && s.workers[w].AtPop? :: s.holder == Some(w))
  }

  /** Messages are dequeued in the order in which they were queued. */
  ghost predicate InOrder(s: State) {
    s.dequeued <= |s.added| && s.queue == s.added[s.dequeued..]
  }

  ghost function Hand(pc: Worker): Option<nat> {
    match pc
    case AtUnlock(k) => Some(k)
    case AtProcess(k) => Some(k)
    case InProcess(k) => Some(k)
    case AtDelete(k) => Some(k)
    case _ => None
  }

  /** The entries of the log about one message. */
  ghost function Trace(log: seq<Entry>, k: nat): seq<Entry> {
    if log == [] then []
    else
      var last := log[|log| - 1];
      Trace(log[..|log| - 1], k) + if last.k == k then [last] else []
  }

  ghost function Expected(workers: map<Tid, Worker>, f: Fate, k: nat): seq<Entry> {
    match f
    case Done => [Started(k), Returned(k), Freed(k)]
    case InHands(w) =>
      if w in workers && workers[w] == InProcess(k) then [Started(k)]
      else if w in workers && workers[w] == AtDelete(k) then [Started(k), Returned(k)]
      else []
  }

  /** Each of the n dequeued messages is in one worker's hands or done, and the log has exactly the
      entries that go with it. */
  ghost predicate Ledger(n: nat, workers: map<Tid, Worker>, log: seq<Entry>, fates: map<nat, Fate>) {
    && (forall k :: k in fates <==> 0 <= k < n)
    && (forall w | w in workers && Hand(workers[w]).Some? ::
          Hand(workers[w]).value in fates && fates[Hand(workers[w]).value] == InHands(w))
    && (forall k | k in fates && fates[k].InHands? ::
          fates[k].w in workers && Hand(workers[fates[k].w]) == Some(k))
    && (forall k | k in fates :: Trace(log, k) == Expected(workers, fates[k], k))
    && (forall i | 0 <= i < |log| :: log[i].k < n)
  }

  ghost predicate Inv(s: State) {
    && Locked(s.holder, s.workers, s.adders) && Waited(s.ready, s.workers) && Counted(s) && InOrder(s)
    && (s.shutdown <==> !s.destroy.NotCalled? && !s.destroy.Raising?)
    && (s.destroy.Joining? ==> s.destroy.i < |s.threads|)
    && (s.destroy.LoopBroadcast? ==> s.destroy.i <= |s.threads|)
    && s.workers.Keys == (set w | w in s.threads)
    && Ledger(s.dequeued, s.workers, s.log, s.fates)
  }
}
